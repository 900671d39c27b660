/**
 * The comparisons tab: two scatter charts over the filtered columns and two
 * box charts with one box per continent present in the filtered rows.
 */
module Comparisons {
  import opened Wrappers
  import opened SeqUtil
  import opened Dashboard

  datatype ScatterTrace = ScatterTrace(x: seq<real>, y: seq<real>, text: seq<string>)

  /** The x axis of a scatter chart; the y axis is always happiness. */
  datatype XAxis = IncomeAxis | AirQualityAxis

  /**
   * The scatter plot's points: the chosen column against happiness, labelled
   * by city, taken unchanged from the filtered rows (all empty without data).
   */
  function Scatter(fg: Option<Geo>, axis: XAxis): (t: ScatterTrace)
    requires fg.Some? ==> Aligned(fg.value)
    ensures |t.x| == |t.y| == |t.text|
    ensures fg.None? ==> t == ScatterTrace([], [], [])
    ensures fg.Some? ==> |t.x| == |fg.value.cities|
    ensures fg.Some? ==> forall k :: 0 <= k < |t.x| ==>
      var row := RowAt(fg.value, k);
      && t.text[k] == row.city && t.y[k] == row.happinessScore
      && t.x[k] == (if axis == IncomeAxis then row.avgIncome else row.airQualityIndex)
  {
    if fg.None? then ScatterTrace([], [], [])
    else
      var g := fg.value;
      ScatterTrace(if axis == IncomeAxis then g.avgIncome else g.airQualityIndex, g.happinessScore, g.cities)
  }

  /** The continents of the filtered rows, each once in first-seen order; none without data. */
  function Groups(fg: Option<Geo>): (r: seq<string>)
    ensures fg.None? ==> r == []
    ensures NoDups(r)
    ensures fg.Some? ==> forall c :: c in r <==> c in fg.value.countries
  {
    if fg.None? then [] else Distinct(fg.value.countries)
  }

  datatype BoxTrace = BoxTrace(name: string, y: seq<real>)

  /** The metric of a box chart. */
  datatype BoxMetric = IncomeBox | HappinessBox

  function BoxColumn(g: Geo, m: BoxMetric): (col: seq<real>)
    requires Aligned(g)
    ensures |col| == |g.countries|
  {
    if m == IncomeBox then g.avgIncome else g.happinessScore
  }

  /**
   * One box per group, in first-seen order; box k holds the metric of exactly
   * the rows of group k, in row order.
   */
  function BoxTraces(fg: Option<Geo>, m: BoxMetric): (r: seq<BoxTrace>)
    requires fg.Some? ==> Aligned(fg.value)
    ensures |r| == |Groups(fg)|
    ensures forall k :: 0 <= k < |r| ==> r[k].name == Groups(fg)[k]
    ensures fg.Some? ==> var g := fg.value;
      forall k, i :: 0 <= k < |r| && 0 <= i < |g.cities| ==>
        (i in IndicesOf(g.countries, r[k].name) <==> g.countries[i] == r[k].name)
    ensures fg.Some? ==> forall k :: 0 <= k < |r| ==>
      r[k].y == GroupValues(BoxColumn(fg.value, m), fg.value.countries, r[k].name)
  {
    var gs := Groups(fg);
    if fg.None? then []
    else
      var g := fg.value;
      seq(|gs|, k requires 0 <= k < |gs| => BoxTrace(gs[k], GroupValues(BoxColumn(g, m), g.countries, gs[k])))
  }

  function BoxPoints(r: seq<BoxTrace>): seq<seq<real>>
  {
    seq(|r|, k requires 0 <= k < |r| => r[k].y)
  }

  /**
   * The boxes partition the filtered rows: each row belongs to exactly one
   * box, and the box sizes add up to the row count.
   */
  lemma BoxTracesPartition(g: Geo, m: BoxMetric)
    requires Aligned(g)
    ensures var r := BoxTraces(Some(g), m);
      && (forall i :: 0 <= i < |g.cities| ==> exists k :: 0 <= k < |r| && r[k].name == g.countries[i])
      && (forall k1, k2 :: 0 <= k1 < |r| && 0 <= k2 < |r| && r[k1].name == r[k2].name ==> k1 == k2)
      && TotalLength(BoxPoints(r)) == |g.cities|
  {
    BoxTracesCover(g, m);
    BoxPointsTotal(g, m);
  }

  lemma BoxTracesCover(g: Geo, m: BoxMetric)
    requires Aligned(g)
    ensures var r := BoxTraces(Some(g), m);
      forall i :: 0 <= i < |g.cities| ==> exists k :: 0 <= k < |r| && r[k].name == g.countries[i]
  {
    var r := BoxTraces(Some(g), m);
    var gs := Distinct(g.countries);
    forall i | 0 <= i < |g.cities| ensures exists k :: 0 <= k < |r| && r[k].name == g.countries[i] {
      assert g.countries[i] in gs;
      var k :| 0 <= k < |gs| && gs[k] == g.countries[i];
      assert r[k].name == gs[k];
    }
  }

  lemma BoxPointsTotal(g: Geo, m: BoxMetric)
    requires Aligned(g)
    ensures TotalLength(BoxPoints(BoxTraces(Some(g), m))) == |g.cities|
  {
    var gs := Distinct(g.countries);
    assert BoxPoints(BoxTraces(Some(g), m)) == ValuesOfGroups(BoxColumn(g, m), g.countries, gs);
    TotalLengthOfGroups(BoxColumn(g, m), g.countries, gs);
    forall i | 0 <= i < |g.countries| ensures g.countries[i] in gs {
      assert g.countries[i] in g.countries;
    }
    GroupSizesCover(g.countries, gs);
  }
}
