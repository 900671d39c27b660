/**
 * The distributions tab: four histogram charts (happiness, income, rent
 * effort, air quality), with one trace per selected continent, or a single
 * trace of all filtered rows when no continent is selected.
 */
module Distributions {
  import opened Wrappers
  import opened SeqUtil
  import opened FilterCriteria
  import opened Dashboard

  datatype Metric = HappinessMetric | IncomeMetric | RentEffortMetric | AirQualityMetric

  /** `name` is absent on the single all-rows trace. */
  datatype HistTrace = HistTrace(name: Option<string>, x: seq<real>)

  /** The per-row values a chart plots; rent effort comes from the hook's `rentEffort`. */
  function MetricColumn(g: Geo, rentEffort: seq<real>, m: Metric): (col: seq<real>)
    requires Aligned(g) && |rentEffort| == |g.cities|
    ensures |col| == |g.countries|
  {
    match m
    case HappinessMetric => g.happinessScore
    case IncomeMetric => g.avgIncome
    case RentEffortMetric => rentEffort
    case AirQualityMetric => g.airQualityIndex
  }

  /**
   * The traces of one chart. With continents selected the component reads
   * `filteredGeo.countries` without a null check, so it needs the filtered
   * data then; `rentEffort` is indexed by filtered-row index, so it needs one
   * entry per filtered row.
   */
  function Histograms(continents: seq<string>, fg: Option<Geo>, rentEffort: seq<real>, m: Metric): (r: seq<HistTrace>)
    requires |continents| > 0 ==> fg.Some?
    requires fg.Some? ==> Aligned(fg.value) && |rentEffort| == |fg.value.cities|
    ensures |continents| == 0 ==> |r| == 1 && r[0].name.None?
    ensures |continents| == 0 && fg.Some? ==> r[0].x == MetricColumn(fg.value, rentEffort, m)
    ensures |continents| == 0 && fg.None? ==> r[0].x == if m == RentEffortMetric then rentEffort else []
    ensures |continents| > 0 ==> |r| == |continents|
    ensures |continents| > 0 ==> forall k :: 0 <= k < |r| ==>
      && r[k].name == Some(continents[k])
      && r[k].x == GroupValues(MetricColumn(fg.value, rentEffort, m), fg.value.countries, continents[k])
  {
    if |continents| > 0 then
      var g := fg.value;
      var col := MetricColumn(g, rentEffort, m);
      seq(|continents|, k requires 0 <= k < |continents| =>
        HistTrace(Some(continents[k]), GroupValues(col, g.countries, continents[k])))
    else if fg.Some? then
      [HistTrace(None, MetricColumn(fg.value, rentEffort, m))]
    else
      [HistTrace(None, if m == RentEffortMetric then rentEffort else [])]
  }

  /** A chart shows its legend when more than one continent is selected. */
  function ShowLegend(continents: seq<string>): bool
  {
    |continents| > 1
  }

  /** The legend is shown exactly when a chart has more than one trace. */
  lemma LegendIffSeveralTraces(continents: seq<string>, fg: Option<Geo>, rentEffort: seq<real>, m: Metric)
    requires |continents| > 0 ==> fg.Some?
    requires fg.Some? ==> Aligned(fg.value) && |rentEffort| == |fg.value.cities|
    ensures ShowLegend(continents) <==> |Histograms(continents, fg, rentEffort, m)| > 1
  {
  }

  /**
   * The charts as the hook feeds them: the filter record, the filtered
   * snapshot and its `rentEffort`, which has one entry per filtered row, so
   * every index the rent-effort traces use is in range.
   */
  function DistributionCharts(f: Filters, data: Option<Geo>, m: Metric): (r: seq<HistTrace>)
    requires |f.continents| > 0 ==> data.Some?
    requires data.Some? ==> Aligned(data.value)
    ensures |r| == if |f.continents| > 0 then |f.continents| else 1
  {
    var fg := FilteredGeo(data, f);
    Histograms(f.continents, fg, RentEffort(fg), m)
  }

  function HistPoints(r: seq<HistTrace>): seq<seq<real>>
  {
    seq(|r|, k requires 0 <= k < |r| => r[k].x)
  }

  /**
   * With a duplicate-free selection, the per-continent traces together hold
   * every filtered row exactly once: the row filter only lets through rows
   * of selected continents.
   */
  lemma SelectedTracesCoverFilteredRows(f: Filters, g: Geo, m: Metric)
    requires Aligned(g) && |f.continents| > 0 && NoDups(f.continents)
    ensures var fg := FilterRows(g, f);
      TotalLength(HistPoints(DistributionCharts(f, Some(g), m))) == |fg.cities|
  {
    var fg := FilterRows(g, f);
    var cs := f.continents;
    var col := MetricColumn(fg, RentEffort(Some(fg)), m);
    SelectedTracesAreGroups(f, g, m);
    TotalLengthOfGroups(col, fg.countries, cs);
    FilteredRowsAreSelected(f, g);
    GroupSizesCover(fg.countries, cs);
  }

  lemma SelectedTracesAreGroups(f: Filters, g: Geo, m: Metric)
    requires Aligned(g) && |f.continents| > 0
    ensures var fg := FilterRows(g, f);
      HistPoints(DistributionCharts(f, Some(g), m))
        == ValuesOfGroups(MetricColumn(fg, RentEffort(Some(fg)), m), fg.countries, f.continents)
  {
    var fg := FilterRows(g, f);
    var re := RentEffort(Some(fg));
    assert DistributionCharts(f, Some(g), m) == Histograms(f.continents, Some(fg), re, m);
  }

  lemma FilteredRowsAreSelected(f: Filters, g: Geo)
    requires Aligned(g) && |f.continents| > 0
    ensures var fg := FilterRows(g, f);
      forall i :: 0 <= i < |fg.countries| ==> fg.countries[i] in f.continents
  {
  }
}
