/** A three-city snapshot worked through the whole pipeline. */
module Scenario {
  import opened Wrappers
  import opened SeqUtil
  import opened FilterCriteria
  import opened Dashboard

  /** A (happiness 8, income 3000, X), B (5, 1000, Y), C (9, 0, X); other metrics 0, C's rent 700. */
  function ThreeCities(): (g: Geo)
    ensures Aligned(g)
  {
    Geo(["A", "B", "C"], ["X", "Y", "X"], [3000.0, 1000.0, 0.0], [8.0, 5.0, 9.0],
        [0.0, 0.0, 0.0], [0.0, 0.0, 0.0], [0.0, 0.0, 0.0], [0.0, 0.0, 0.0],
        [0.0, 0.0, 0.0], [900.0, 400.0, 700.0], [0.0, 0.0, 0.0], [0.0, 0.0, 0.0])
  }

  function SelectX(): Filters
  {
    Filters(["X"], Bounds(None, None), Bounds(None, None))
  }

  /** Rows A and C of `ThreeCities`. */
  function RowsAC(): (g: Geo)
    ensures Aligned(g)
  {
    Geo(["A", "C"], ["X", "X"], [3000.0, 0.0], [8.0, 9.0],
        [0.0, 0.0], [0.0, 0.0], [0.0, 0.0], [0.0, 0.0],
        [0.0, 0.0], [900.0, 700.0], [0.0, 0.0], [0.0, 0.0])
  }

  /** Selecting X keeps A and C, in that order. */
  lemma SelectingXKeepsAC()
    ensures FilterRows(ThreeCities(), SelectX()) == RowsAC()
  {
    var g, f := ThreeCities(), SelectX();
    assert RowAdmitted(g, f, 0) && !RowAdmitted(g, f, 1) && RowAdmitted(g, f, 2);
    assert KeptIndices(g, f, 3) == [0, 2];
    RowsACAreProjected();
  }

  lemma RowsACAreProjected()
    ensures Project(ThreeCities(), [0, 2]) == RowsAC()
  {
    var g := ThreeCities();
    PickTwo(g.cities, 0, 2);
    PickTwo(g.countries, 0, 2);
    PickTwo(g.avgIncome, 0, 2);
    PickTwo(g.happinessScore, 0, 2);
    PickTwo(g.airQualityIndex, 0, 2);
    PickTwo(g.publicTransportScore, 0, 2);
    PickTwo(g.greenSpaceRatio, 0, 2);
    PickTwo(g.internetPenetration, 0, 2);
    PickTwo(g.populationDensity, 0, 2);
    PickTwo(g.avgRent, 0, 2);
    PickTwo(g.latitude, 0, 2);
    PickTwo(g.longitude, 0, 2);
  }

  /** Over A and C: two cities, average happiness 8.5, average income 1500. */
  lemma StatsOfAC()
    ensures FilteredStats(Some(RowsAC())) == Some(Stats(2, 8.5, 1500.0, 0.0))
  {
    var g := RowsAC();
    assert g.happinessScore[1..] == [9.0] && g.avgIncome[1..] == [0.0] && g.airQualityIndex[1..] == [0.0];
    assert Sum([9.0]) == 9.0 && Sum([0.0]) == 0.0;
    assert Sum(g.happinessScore) == 17.0 && Sum(g.avgIncome) == 3000.0 && Sum(g.airQualityIndex) == 0.0;
  }

  /** C (happiness 9) heads the top list; its rent effort is 0 since its income is 0. */
  lemma TopAndRentOfAC()
    ensures TopCities(Some(RowsAC()))[0].city == "C"
    ensures RentEffort(Some(RowsAC()))[1] == 0.0
  {
    var g := RowsAC();
    var o := StableOrder(g.happinessScore);
    assert o[0] in multiset(Range(2)) && o[1] in multiset(Range(2));
    assert Precedes(g.happinessScore, o[0], o[1]);
    assert o[0] == 1;
  }

  /** A happiness minimum of 6 keeps A and C. */
  lemma HappinessAtLeastSix()
    ensures FilterRows(ThreeCities(), Filters([], Bounds(Some(6.0), None), Bounds(None, None))) == RowsAC()
  {
    var g := ThreeCities();
    var f := Filters([], Bounds(Some(6.0), None), Bounds(None, None));
    assert RowAdmitted(g, f, 0) && !RowAdmitted(g, f, 1) && RowAdmitted(g, f, 2);
    assert KeptIndices(g, f, 3) == [0, 2];
    RowsACAreProjected();
  }

  lemma GroupsAreXY()
    ensures Distinct(ThreeCities().countries) == ["X", "Y"]
  {
    var cs := ThreeCities().countries;
    var one, two: seq<string> := ["X"], ["X", "Y"];
    assert cs[..2] == two && two[..1] == one && one[..0] == [];
    assert Distinct(one) == ["X"];
    assert Distinct(two) == ["X", "Y"];
  }

  lemma IndicesOfXY()
    ensures IndicesOf(ThreeCities().countries, "X") == [0, 2]
    ensures IndicesOf(ThreeCities().countries, "Y") == [1]
  {
    var cs := ThreeCities().countries;
    var one, two: seq<string> := ["X"], ["X", "Y"];
    assert cs[..2] == two && two[..1] == one && one[..0] == [];
    assert IndicesOf(one, "X") == [0] && IndicesOf(one, "Y") == [];
    assert IndicesOf(two, "X") == [0] && IndicesOf(two, "Y") == [1];
  }

  lemma PickOne<T>(arr: seq<T>, a: nat)
    requires a < |arr|
    ensures Pick(arr, [a]) == [arr[a]]
  {
  }

  lemma PickTwo<T>(arr: seq<T>, a: nat, b: nat)
    requires a < |arr| && b < |arr|
    ensures Pick(arr, [a, b]) == [arr[a], arr[b]]
  {
  }

  lemma ValuesOfX()
    ensures GroupValues(ThreeCities().happinessScore, ThreeCities().countries, "X") == [8.0, 9.0]
    ensures GroupValues(ThreeCities().avgIncome, ThreeCities().countries, "X") == [3000.0, 0.0]
  {
    var g := ThreeCities();
    IndicesOfXY();
    PickTwo(g.happinessScore, 0, 2);
    PickTwo(g.avgIncome, 0, 2);
  }

  lemma ValuesOfY()
    ensures GroupValues(ThreeCities().happinessScore, ThreeCities().countries, "Y") == [5.0]
    ensures GroupValues(ThreeCities().avgIncome, ThreeCities().countries, "Y") == [1000.0]
  {
    var g := ThreeCities();
    IndicesOfXY();
    PickOne(g.happinessScore, 1);
    PickOne(g.avgIncome, 1);
  }

  lemma GroupStatX()
    ensures GroupStat(ThreeCities(), "X") == ContinentStat("X", 2, 8.5, 1500.0)
  {
    var g := ThreeCities();
    ValuesOfX();
    MeanOfTwo(GroupValues(g.happinessScore, g.countries, "X"), 8.0, 9.0);
    MeanOfTwo(GroupValues(g.avgIncome, g.countries, "X"), 3000.0, 0.0);
  }

  lemma GroupStatY()
    ensures GroupStat(ThreeCities(), "Y") == ContinentStat("Y", 1, 5.0, 1000.0)
  {
    var g := ThreeCities();
    ValuesOfY();
    MeanOfOne(GroupValues(g.happinessScore, g.countries, "Y"), 5.0);
    MeanOfOne(GroupValues(g.avgIncome, g.countries, "Y"), 1000.0);
  }

  lemma MeanOfOne(s: seq<real>, x: real)
    requires s == [x]
    ensures Mean(s) == x
  {
    assert s[1..] == [];
    assert Sum(s) == x + Sum([]) == x;
    assert (|s| as real) == 1.0;
  }

  lemma MeanOfTwo(s: seq<real>, x: real, y: real)
    requires s == [x, y]
    ensures Mean(s) == (x + y) / 2.0
  {
    assert s[1..] == [y] && s[1..][1..] == [];
    assert Sum(s[1..]) == y + Sum([]) == y;
    assert Sum(s) == x + y;
    assert (|s| as real) == 2.0;
  }

  /** Grouping the unfiltered snapshot gives X (2 cities) then Y (1 city). */
  lemma GroupsOfThreeCities()
    ensures ContinentStatsOf(ThreeCities()) ==
      [ContinentStat("X", 2, 8.5, 1500.0), ContinentStat("Y", 1, 5.0, 1000.0)]
  {
    GroupsAreXY();
    GroupStatX();
    GroupStatY();
  }
}
