/**
 * The filter record held by the dashboard hook: selected continents and the
 * happiness and income bounds, the row test built from them, and the two
 * transitions the hook offers (toggle one continent, reset everything).
 */
module FilterCriteria {
  import opened Wrappers
  import opened SeqUtil

  /**
   * One bound field of the form. `None` is the empty string, which the row
   * test skips; `Some(v)` is a field holding the number v (also when v is 0:
   * the string "0" is truthy).
   */
  type Bound = Option<real>

  datatype Bounds = Bounds(min: Bound, max: Bound)

  datatype Filters = Filters(continents: seq<string>, happiness: Bounds, income: Bounds)

  /** The record the hook starts with and that `resetFilters` restores. */
  function InitialFilters(): Filters
  {
    Filters([], Bounds(None, None), Bounds(None, None))
  }

  /** A value passes a range when it is not below a set minimum and not above a set maximum. */
  predicate InRange(r: Bounds, x: real)
  {
    (r.min.None? || x >= r.min.value) && (r.max.None? || x <= r.max.value)
  }

  /** The five checks a row must pass to be kept. */
  predicate Admits(f: Filters, country: string, happiness: real, income: real)
  {
    (|f.continents| == 0 || country in f.continents)
    && InRange(f.happiness, happiness)
    && InRange(f.income, income)
  }

  /** The initial record admits every row: an unset bound is never read as 0. */
  lemma InitialAdmitsAll(country: string, happiness: real, income: real)
    ensures Admits(InitialFilters(), country, happiness, income)
  {
  }

  /** Is `s` obtained from `t` by deleting elements (order kept)? */
  predicate Subsequence(s: seq<string>, t: seq<string>)
    decreases |t|
  {
    if s == [] then true
    else if t == [] then false
    else if s[0] == t[0] then Subsequence(s[1..], t[1..])
    else Subsequence(s, t[1..])
  }

  /** The selection with every occurrence of `c` dropped, the rest in order. */
  function RemoveAll(s: seq<string>, c: string): (r: seq<string>)
    ensures forall x :: x in r <==> x in s && x != c
    ensures forall x :: x != c ==> multiset(r)[x] == multiset(s)[x]
    ensures Subsequence(r, s)
  {
    if s == [] then []
    else
      var rest := RemoveAll(s[1..], c);
      assert s == [s[0]] + s[1..];
      if s[0] == c then
        assert rest != [] ==> rest[0] in rest && rest[0] != s[0];
        rest
      else [s[0]] + rest
  }

  lemma {:induction false} RemoveAllAbsent(s: seq<string>, c: string)
    requires c !in s
    ensures RemoveAll(s, c) == s
  {
    if s != [] {
      RemoveAllAbsent(s[1..], c);
    }
  }

  lemma {:induction false} RemoveAllSnoc(s: seq<string>, c: string)
    ensures RemoveAll(s + [c], c) == RemoveAll(s, c)
  {
    if s == [] {
      assert [c][1..] == [];
    } else {
      assert (s + [c])[1..] == s[1..] + [c];
      RemoveAllSnoc(s[1..], c);
    }
  }

  lemma {:induction false} RemoveAllNoDups(s: seq<string>, c: string)
    requires NoDups(s)
    ensures NoDups(RemoveAll(s, c))
  {
    if s != [] {
      assert NoDups(s[1..]);
      assert s[0] !in s[1..];
      RemoveAllNoDups(s[1..], c);
    }
  }

  /**
   * `toggleContinent(c)`: a selected label is removed (every occurrence), an
   * unselected one is appended; the bounds are untouched.
   */
  function Toggle(f: Filters, c: string): (r: Filters)
    ensures c in f.continents ==> r.continents == RemoveAll(f.continents, c)
    ensures c in f.continents ==> c !in r.continents && Subsequence(r.continents, f.continents)
    ensures c !in f.continents ==> r.continents == f.continents + [c]
    ensures forall x :: x != c ==> (x in r.continents <==> x in f.continents)
    ensures r.happiness == f.happiness && r.income == f.income
  {
    if c in f.continents then f.(continents := RemoveAll(f.continents, c))
    else f.(continents := f.continents + [c])
  }

  /** Toggling keeps a duplicate-free selection duplicate-free. */
  lemma ToggleKeepsNoDups(f: Filters, c: string)
    requires NoDups(f.continents)
    ensures NoDups(Toggle(f, c).continents)
  {
    if c in f.continents {
      RemoveAllNoDups(f.continents, c);
    }
  }

  /**
   * Toggling the same label twice restores the set of selected labels. An
   * unselected label leaves the record exactly as it was; a selected one
   * ends up once, at the end of the otherwise unchanged selection.
   */
  lemma ToggleTwice(f: Filters, c: string)
    ensures forall x :: x in Toggle(Toggle(f, c), c).continents <==> x in f.continents
    ensures c !in f.continents ==> Toggle(Toggle(f, c), c) == f
    ensures c in f.continents ==>
      Toggle(Toggle(f, c), c) == f.(continents := RemoveAll(f.continents, c) + [c])
  {
    if c !in f.continents {
      RemoveAllSnoc(f.continents, c);
      RemoveAllAbsent(f.continents, c);
    }
  }

  /** The hook's `filters` state and its two update operations. */
  class FilterState {
    var filters: Filters

    constructor ()
      ensures filters == InitialFilters()
    {
      filters := InitialFilters();
    }

    /** `setFilters(next)`, as the filter panel calls it with an edited record. */
    method SetFilters(next: Filters)
      modifies this
      ensures filters == next
    {
      filters := next;
    }

    method ToggleContinent(c: string)
      modifies this
      ensures filters == Toggle(old(filters), c)
    {
      filters := Toggle(filters, c);
    }

    method ResetFilters()
      modifies this
      ensures filters == InitialFilters()
    {
      filters := InitialFilters();
    }
  }
}
