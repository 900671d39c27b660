/**
 * Sequence helpers shared by the pipeline and the views: index selection
 * (`pick`), index lists of one group, first-seen distinct values, sums and means.
 */
module SeqUtil {

  /** Strictly increasing index list: the selected rows keep their original order. */
  predicate Increasing(s: seq<nat>)
  {
    forall a, b :: 0 <= a < b < |s| ==> s[a] < s[b]
  }

  predicate NoDups<T(==)>(s: seq<T>)
  {
    forall a, b :: 0 <= a < b < |s| ==> s[a] != s[b]
  }

  predicate InBounds<T>(idx: seq<nat>, arr: seq<T>)
  {
    forall k :: 0 <= k < |idx| ==> idx[k] < |arr|
  }

  /** The elements of `arr` at the positions `idx`, in the order of `idx`. */
  function Pick<T>(arr: seq<T>, idx: seq<nat>): seq<T>
    requires InBounds(idx, arr)
  {
    seq(|idx|, k requires 0 <= k < |idx| => arr[idx[k]])
  }

  /** The positions 0 to n - 1 in increasing order. */
  function Range(n: nat): (r: seq<nat>)
    ensures |r| == n && Increasing(r)
    ensures forall k :: 0 <= k < n ==> r[k] == k
  {
    seq(n, k requires 0 <= k < n => k)
  }

  lemma PickAppend<T>(arr: seq<T>, idx: seq<nat>, i: nat)
    requires InBounds(idx, arr) && i < |arr|
    ensures InBounds(idx + [i], arr)
    ensures Pick(arr, idx + [i]) == Pick(arr, idx) + [arr[i]]
  {
  }

  lemma PickRange<T>(arr: seq<T>)
    ensures InBounds(Range(|arr|), arr) && Pick(arr, Range(|arr|)) == arr
  {
  }

  /** The positions of `cs` holding `g`, in increasing order. */
  function IndicesOf(cs: seq<string>, g: string): (r: seq<nat>)
    ensures Increasing(r) && InBounds(r, cs)
    ensures forall i :: 0 <= i < |cs| ==> (i in r <==> cs[i] == g)
    decreases |cs|
  {
    if cs == [] then []
    else
      var p := cs[..|cs| - 1];
      var r := IndicesOf(p, g);
      if cs[|cs| - 1] == g then r + [|cs| - 1] else r
  }

  /** Extending the rows by one element extends each group's index list by at most that row. */
  lemma IndicesOfSnoc(cs: seq<string>, x: string, g: string)
    ensures IndicesOf(cs + [x], g) == IndicesOf(cs, g) + (if x == g then [|cs|] else [])
  {
    assert (cs + [x])[..|cs|] == cs;
  }

  /** A value that occurs has at least one position. */
  lemma IndicesOfPresent(cs: seq<string>, g: string)
    requires g in cs
    ensures |IndicesOf(cs, g)| > 0
  {
    var i :| 0 <= i < |cs| && cs[i] == g;
    assert i in IndicesOf(cs, g);
  }

  /** A value that does not occur has no positions. */
  lemma {:induction false} IndicesOfAbsent(cs: seq<string>, g: string)
    requires g !in cs
    ensures IndicesOf(cs, g) == []
  {
    if cs != [] {
      var p := cs[..|cs| - 1];
      assert g !in p by {
        forall i | 0 <= i < |p| ensures p[i] != g { assert p[i] == cs[i]; }
      }
      IndicesOfAbsent(p, g);
    }
  }

  /** Every value of `cs` once (first-seen order: `DistinctFirstSeenOrder`). */
  function Distinct(cs: seq<string>): (r: seq<string>)
    ensures NoDups(r)
    ensures forall x :: x in r <==> x in cs
    decreases |cs|
  {
    if cs == [] then []
    else
      var p := cs[..|cs| - 1];
      var x := cs[|cs| - 1];
      var d := Distinct(p);
      assert forall y :: y in cs <==> y in p || y == x by {
        assert cs == p + [x];
      }
      if x in d then d else d + [x]
  }

  /**
   * `Set` iteration order is insertion order: whenever a later group occurs
   * at position i, every earlier group has already occurred before i.
   */
  predicate FirstSeenOrder(cs: seq<string>, r: seq<string>)
  {
    forall a, b, i :: 0 <= a < b < |r| && 0 <= i < |cs| && cs[i] == r[b] ==> r[a] in cs[..i]
  }

  lemma {:induction false} DistinctFirstSeenOrder(cs: seq<string>)
    ensures FirstSeenOrder(cs, Distinct(cs))
    decreases |cs|
  {
    if cs != [] {
      var p := cs[..|cs| - 1];
      var x := cs[|cs| - 1];
      assert cs == p + [x];
      DistinctFirstSeenOrder(p);
      var d := Distinct(p);
      var r := Distinct(cs);
      assert r == if x in d then d else d + [x];
      forall a, b, i | 0 <= a < b < |r| && 0 <= i < |cs| && cs[i] == r[b]
        ensures r[a] in cs[..i]
      {
        DistinctOrderStep(p, x, d, r, a, b, i);
      }
    }
  }

  /** The inductive step of `Distinct`'s first-seen order, for the rows `p + [x]`. */
  lemma DistinctOrderStep(p: seq<string>, x: string, d: seq<string>, r: seq<string>, a: nat, b: nat, i: nat)
    requires forall y :: y in d <==> y in p
    requires FirstSeenOrder(p, d)
    requires r == if x in d then d else d + [x]
    requires a < b < |r| && i <= |p| && (p + [x])[i] == r[b]
    ensures r[a] in (p + [x])[..i]
  {
    assert forall a, b, i :: 0 <= a < b < |d| && 0 <= i < |p| && p[i] == d[b] ==> d[a] in p[..i];
    var cs := p + [x];
    assert r[a] == d[a];
    assert cs[..|p|] == p;
    if b < |d| {
      if i < |p| {
        assert p[i] == d[b];
        assert p[..i] == cs[..i];
      } else {
        assert d[a] in p;
      }
    } else {
      assert forall j :: 0 <= j < |p| ==> cs[j] != x;
      assert i == |p|;
      assert d[a] in p;
    }
  }

  /** Extending the rows by one adds that row's value at the end, unless it was already seen. */
  lemma DistinctStep(cs: seq<string>, i: nat)
    requires i < |cs|
    ensures Distinct(cs[..i + 1]) ==
      if cs[i] in Distinct(cs[..i]) then Distinct(cs[..i]) else Distinct(cs[..i]) + [cs[i]]
  {
    assert cs[..i + 1][..i] == cs[..i];
  }

  /** The sum of a list, 0 for the empty list. */
  function Sum(s: seq<real>): real
  {
    if s == [] then 0.0 else s[0] + Sum(s[1..])
  }

  /** Arithmetic mean of a non-empty list: sum / length. */
  function Mean(s: seq<real>): real
    requires |s| > 0
  {
    Sum(s) / (|s| as real)
  }

  function Min(s: seq<real>): (m: real)
    requires |s| > 0
    ensures m in s && forall k :: 0 <= k < |s| ==> m <= s[k]
  {
    if |s| == 1 then s[0]
    else
      var m := Min(s[1..]);
      assert forall k :: 1 <= k < |s| ==> s[k] == s[1..][k - 1];
      if s[0] <= m then s[0] else m
  }

  function Max(s: seq<real>): (m: real)
    requires |s| > 0
    ensures m in s && forall k :: 0 <= k < |s| ==> s[k] <= m
  {
    if |s| == 1 then s[0]
    else
      var m := Max(s[1..]);
      assert forall k :: 1 <= k < |s| ==> s[k] == s[1..][k - 1];
      if s[0] >= m then s[0] else m
  }

  lemma {:induction false} SumBounds(s: seq<real>, lo: real, hi: real)
    requires forall k :: 0 <= k < |s| ==> lo <= s[k] <= hi
    ensures (|s| as real) * lo <= Sum(s) <= (|s| as real) * hi
  {
    if s != [] {
      assert forall k :: 0 <= k < |s[1..]| ==> s[1..][k] == s[k + 1];
      SumBounds(s[1..], lo, hi);
      var n := |s[1..]| as real;
      assert Sum(s) == s[0] + Sum(s[1..]);
      assert (|s| as real) * lo == n * lo + lo;
      assert (|s| as real) * hi == n * hi + hi;
    }
  }

  /** A mean lies between any common lower and upper bound of its elements. */
  lemma MeanBetween(s: seq<real>, lo: real, hi: real)
    requires |s| > 0
    requires forall k :: 0 <= k < |s| ==> lo <= s[k] <= hi
    ensures lo <= Mean(s) <= hi
  {
    SumBounds(s, lo, hi);
    QuotientBounds(Sum(s), |s| as real, lo, hi);
  }

  /** A mean lies between the smallest and the largest element it averages. */
  lemma MeanWithinMinMax(s: seq<real>)
    requires |s| > 0
    ensures Min(s) <= Mean(s) <= Max(s)
  {
    MeanBetween(s, Min(s), Max(s));
  }

  lemma QuotientBounds(total: real, n: real, lo: real, hi: real)
    requires n > 0.0 && n * lo <= total <= n * hi
    ensures lo <= total / n <= hi
  {
    var q := total / n;
    assert q * n == total;
    assert (q - lo) * n == total - n * lo;
    assert (hi - q) * n == n * hi - total;
  }

  /** Total size of the index lists of the groups `gs`: the summed trace lengths. */
  function GroupSizes(cs: seq<string>, gs: seq<string>): nat
    decreases |gs|
  {
    if gs == [] then 0
    else GroupSizes(cs, gs[..|gs| - 1]) + |IndicesOf(cs, gs[|gs| - 1])|
  }

  lemma {:induction false} GroupSizesSnoc(cs: seq<string>, x: string, gs: seq<string>)
    requires NoDups(gs)
    ensures GroupSizes(cs + [x], gs) == GroupSizes(cs, gs) + (if x in gs then 1 else 0)
    decreases |gs|
  {
    if gs != [] {
      var q := gs[..|gs| - 1];
      var g := gs[|gs| - 1];
      assert NoDups(q);
      assert g !in q;
      assert forall y :: y in gs <==> y in q || y == g by { assert gs == q + [g]; }
      GroupSizesSnoc(cs, x, q);
      IndicesOfSnoc(cs, x, g);
    }
  }

  /**
   * Partition: when every row's group is listed exactly once in `gs`, the
   * per-group index lists together hold every row once.
   */
  lemma {:induction false} GroupSizesCover(cs: seq<string>, gs: seq<string>)
    requires NoDups(gs)
    requires forall i :: 0 <= i < |cs| ==> cs[i] in gs
    ensures GroupSizes(cs, gs) == |cs|
    decreases |cs|
  {
    if cs == [] {
      GroupSizesEmpty(gs);
    } else {
      var p := cs[..|cs| - 1];
      var x := cs[|cs| - 1];
      assert cs == p + [x];
      GroupSizesCover(p, gs);
      GroupSizesSnoc(p, x, gs);
    }
  }

  lemma {:induction false} GroupSizesEmpty(gs: seq<string>)
    ensures GroupSizes([], gs) == 0
    decreases |gs|
  {
    if gs != [] { GroupSizesEmpty(gs[..|gs| - 1]); }
  }

  /** The values of column `col` on the rows of group g, in row order. */
  function GroupValues(col: seq<real>, cs: seq<string>, g: string): (r: seq<real>)
    requires |col| == |cs|
    ensures |r| == |IndicesOf(cs, g)|
  {
    Pick(col, IndicesOf(cs, g))
  }

  /** Total number of points over a list of traces. */
  function TotalLength(xs: seq<seq<real>>): nat
  {
    if xs == [] then 0 else TotalLength(xs[..|xs| - 1]) + |xs[|xs| - 1]|
  }

  /** The values of column `col` on each listed group, one list per group. */
  function ValuesOfGroups(col: seq<real>, cs: seq<string>, gs: seq<string>): (r: seq<seq<real>>)
    requires |col| == |cs|
    ensures |r| == |gs|
  {
    seq(|gs|, k requires 0 <= k < |gs| => GroupValues(col, cs, gs[k]))
  }

  lemma {:induction false} TotalLengthOfGroups(col: seq<real>, cs: seq<string>, gs: seq<string>)
    requires |col| == |cs|
    ensures TotalLength(ValuesOfGroups(col, cs, gs)) == GroupSizes(cs, gs)
    decreases |gs|
  {
    var xs := ValuesOfGroups(col, cs, gs);
    if gs != [] {
      var q := gs[..|gs| - 1];
      assert xs[..|xs| - 1] == ValuesOfGroups(col, cs, q);
      TotalLengthOfGroups(col, cs, q);
    }
  }
}
