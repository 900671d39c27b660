/**
 * The filter panel: whether any filter is active, the four single-bound
 * edits, the selected state of a continent button and the city count shown.
 */
module FiltersPanel {
  import opened Wrappers
  import opened SeqUtil
  import opened FilterCriteria
  import opened Dashboard

  /** `hasActiveFilters`: some continent is selected or some bound field is non-empty. */
  function HasActiveFilters(f: Filters): (r: bool)
    ensures r <==> f != InitialFilters()
  {
    |f.continents| > 0
    || f.happiness.min.Some? || f.happiness.max.Some?
    || f.income.min.Some? || f.income.max.Some?
  }

  /** Without an active filter every row of the snapshot is shown. */
  lemma InactiveFiltersKeepEverything(g: Geo, f: Filters)
    requires Aligned(g) && !HasActiveFilters(f)
    ensures FilterRows(g, f) == g
  {
    InitialFiltersKeepEverything(g);
  }

  function SetHappinessMin(f: Filters, v: Bound): (r: Filters)
    ensures r.happiness.min == v && r.happiness.max == f.happiness.max
    ensures r.continents == f.continents && r.income == f.income
  {
    f.(happiness := f.happiness.(min := v))
  }

  function SetHappinessMax(f: Filters, v: Bound): (r: Filters)
    ensures r.happiness.max == v && r.happiness.min == f.happiness.min
    ensures r.continents == f.continents && r.income == f.income
  {
    f.(happiness := f.happiness.(max := v))
  }

  function SetIncomeMin(f: Filters, v: Bound): (r: Filters)
    ensures r.income.min == v && r.income.max == f.income.max
    ensures r.continents == f.continents && r.happiness == f.happiness
  {
    f.(income := f.income.(min := v))
  }

  function SetIncomeMax(f: Filters, v: Bound): (r: Filters)
    ensures r.income.max == v && r.income.min == f.income.min
    ensures r.continents == f.continents && r.happiness == f.happiness
  {
    f.(income := f.income.(max := v))
  }

  /**
   * Clearing one bound field (setting it to the empty string) never hides a
   * row that was shown before.
   */
  lemma ClearingABoundKeepsRows(g: Geo, f: Filters, i: nat)
    requires Aligned(g) && i < |g.cities|
    requires i in KeptIndices(g, f, |g.cities|)
    ensures i in KeptIndices(g, SetHappinessMin(f, None), |g.cities|)
    ensures i in KeptIndices(g, SetHappinessMax(f, None), |g.cities|)
    ensures i in KeptIndices(g, SetIncomeMin(f, None), |g.cities|)
    ensures i in KeptIndices(g, SetIncomeMax(f, None), |g.cities|)
  {
    assert RowAdmitted(g, f, i);
  }

  /**
   * `isSelected`: the button of a label is highlighted when the label is
   * selected, which is the hook's continent check with the bounds left out;
   * no button is highlighted while nothing is selected. A highlighted continent's rows are shown whenever their values
   * are within the bounds; while some continent is highlighted, the rows of
   * an unhighlighted one are hidden whatever their values.
   */
  function IsSelected(f: Filters, name: string): (r: bool)
    ensures |f.continents| == 0 ==> !r
    ensures |f.continents| > 0 ==>
      (r <==> Admits(f.(happiness := Bounds(None, None), income := Bounds(None, None)), name, 0.0, 0.0))
    ensures r ==> forall h, inc :: InRange(f.happiness, h) && InRange(f.income, inc) ==> Admits(f, name, h, inc)
    ensures |f.continents| > 0 && !r ==> forall h, inc :: !Admits(f, name, h, inc)
  {
    name in f.continents
  }

  /** Clicking a button flips its own highlight and no other. */
  lemma ToggleFlipsSelection(f: Filters, c: string, other: string)
    requires other != c
    ensures IsSelected(Toggle(f, c), c) == !IsSelected(f, c)
    ensures IsSelected(Toggle(f, c), other) == IsSelected(f, other)
  {
    if c !in f.continents {
      assert Toggle(f, c).continents[|f.continents|] == c;
    }
  }

  /** The number of cities shown next to the reset button: 0 until stats exist. */
  function CityCount(stats: Option<Stats>): (r: nat)
    ensures stats.None? ==> r == 0
    ensures stats.Some? ==> r == stats.value.count
  {
    if stats.None? || stats.value.count == 0 then 0 else stats.value.count
  }

  /** The displayed count is the number of rows that pass the filters (0 before data arrives). */
  lemma CityCountIsFilteredRows(data: Option<Geo>, f: Filters)
    requires data.Some? ==> Aligned(data.value)
    ensures data.None? ==> CityCount(FilteredStats(FilteredGeo(data, f))) == 0
    ensures data.Some? ==> CityCount(FilteredStats(FilteredGeo(data, f)))
                           == |KeptIndices(data.value, f, |data.value.cities|)|
  {
  }
}
