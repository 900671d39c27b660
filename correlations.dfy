/** The correlations tab: a heatmap of the gateway's matrix with readable labels. */
module Correlations {
  import opened Wrappers

  /** The gateway's `/api/correlations` answer. */
  datatype CorrelationData = CorrelationData(columns: seq<string>, matrix: seq<seq<real>>)

  datatype Heatmap = Heatmap(z: seq<seq<real>>, x: seq<string>, y: seq<string>)

  /** A column label for display: every underscore becomes a space, nothing else moves. */
  function SpaceUnderscores(column: string): (r: string)
    ensures |r| == |column| && '_' !in r
    ensures forall i :: 0 <= i < |column| && column[i] != '_' ==> r[i] == column[i]
    ensures forall i :: 0 <= i < |column| && column[i] == '_' ==> r[i] == ' '
  {
    if column == [] then []
    else (if column[0] == '_' then " " else [column[0]]) + SpaceUnderscores(column[1..])
  }

  /** Applying the replacement twice changes nothing more; a label without underscores is kept. */
  lemma {:induction false} SpaceUnderscoresIdempotent(column: string)
    ensures SpaceUnderscores(SpaceUnderscores(column)) == SpaceUnderscores(column)
    ensures '_' !in column ==> SpaceUnderscores(column) == column
  {
  }

  /**
   * The heatmap: `z` is the matrix unchanged, `x` and `y` are the same
   * relabelled column list; all empty while the data is absent.
   */
  function HeatmapOf(c: Option<CorrelationData>): (h: Heatmap)
    ensures c.None? ==> h == Heatmap([], [], [])
    ensures c.Some? ==> h.z == c.value.matrix
    ensures h.x == h.y
    ensures c.Some? ==> |h.x| == |c.value.columns|
    ensures c.Some? ==> forall k :: 0 <= k < |h.x| ==> h.x[k] == SpaceUnderscores(c.value.columns[k])
    ensures forall k :: 0 <= k < |h.x| ==> '_' !in h.x[k]
  {
    if c.None? then Heatmap([], [], [])
    else
      var cols := c.value.columns;
      var labels := seq(|cols|, k requires 0 <= k < |cols| => SpaceUnderscores(cols[k]));
      Heatmap(c.value.matrix, labels, labels)
  }
}
