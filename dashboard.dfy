/**
 * The dashboard hook's derived data: the filtered columnar snapshot, its
 * summary statistics, the top ten cities by happiness, the per-continent
 * aggregates and the rent effort of every filtered city.
 */
module Dashboard {
  import opened Wrappers
  import opened SeqUtil
  import opened FilterCriteria

  /** The gateway's geographic snapshot: one column per metric, index i is city i. */
  datatype Geo = Geo(
    cities: seq<string>,
    countries: seq<string>,
    avgIncome: seq<real>,
    happinessScore: seq<real>,
    airQualityIndex: seq<real>,
    publicTransportScore: seq<real>,
    greenSpaceRatio: seq<real>,
    internetPenetration: seq<real>,
    populationDensity: seq<real>,
    avgRent: seq<real>,
    latitude: seq<real>,
    longitude: seq<real>)

  /** Every column has one entry per city. */
  predicate Aligned(g: Geo)
  {
    var n := |g.cities|;
    && |g.countries| == n && |g.avgIncome| == n && |g.happinessScore| == n
    && |g.airQualityIndex| == n && |g.publicTransportScore| == n
    && |g.greenSpaceRatio| == n && |g.internetPenetration| == n
    && |g.populationDensity| == n && |g.avgRent| == n
    && |g.latitude| == n && |g.longitude| == n
  }

  /** One city read across all columns at the same index. */
  datatype Row = Row(
    city: string, country: string, avgIncome: real, happinessScore: real,
    airQualityIndex: real, publicTransportScore: real, greenSpaceRatio: real,
    internetPenetration: real, populationDensity: real, avgRent: real,
    latitude: real, longitude: real)

  function RowAt(g: Geo, i: nat): Row
    requires Aligned(g) && i < |g.cities|
  {
    Row(g.cities[i], g.countries[i], g.avgIncome[i], g.happinessScore[i],
        g.airQualityIndex[i], g.publicTransportScore[i], g.greenSpaceRatio[i],
        g.internetPenetration[i], g.populationDensity[i], g.avgRent[i],
        g.latitude[i], g.longitude[i])
  }

  predicate RowAdmitted(g: Geo, f: Filters, i: nat)
    requires Aligned(g) && i < |g.cities|
  {
    Admits(f, g.countries[i], g.happinessScore[i], g.avgIncome[i])
  }

  /** The indices of the first n rows that pass the filter, in increasing order. */
  function KeptIndices(g: Geo, f: Filters, n: nat): (r: seq<nat>)
    requires Aligned(g) && n <= |g.cities|
    ensures Increasing(r)
    ensures forall k :: 0 <= k < |r| ==> r[k] < n
    ensures forall i :: 0 <= i < n ==> (i in r <==> RowAdmitted(g, f, i))
    decreases n
  {
    if n == 0 then []
    else
      var r := KeptIndices(g, f, n - 1);
      if RowAdmitted(g, f, n - 1) then r + [n - 1] else r
  }

  /** Every column projected through the same index list (`pick`). */
  function Project(g: Geo, idx: seq<nat>): (r: Geo)
    requires Aligned(g) && InBounds(idx, g.cities)
    ensures Aligned(r) && |r.cities| == |idx|
    ensures forall k :: 0 <= k < |idx| ==> RowAt(r, k) == RowAt(g, idx[k])
  {
    Geo(Pick(g.cities, idx), Pick(g.countries, idx), Pick(g.avgIncome, idx),
        Pick(g.happinessScore, idx), Pick(g.airQualityIndex, idx),
        Pick(g.publicTransportScore, idx), Pick(g.greenSpaceRatio, idx),
        Pick(g.internetPenetration, idx), Pick(g.populationDensity, idx),
        Pick(g.avgRent, idx), Pick(g.latitude, idx), Pick(g.longitude, idx))
  }

  /**
   * The filtered snapshot: the rows that pass all five checks, in their
   * original order, each column cut by the same indices.
   */
  function FilterRows(g: Geo, f: Filters): (r: Geo)
    requires Aligned(g)
    ensures Aligned(r)
    ensures forall k :: 0 <= k < |r.cities| ==> Admits(f, r.countries[k], r.happinessScore[k], r.avgIncome[k])
    ensures var idx := KeptIndices(g, f, |g.cities|);
      && |r.cities| == |idx|
      && (forall k :: 0 <= k < |idx| ==> RowAt(r, k) == RowAt(g, idx[k]))
      && (forall i :: 0 <= i < |g.cities| && RowAdmitted(g, f, i) ==> i in idx)
  {
    var idx := KeptIndices(g, f, |g.cities|);
    var r := Project(g, idx);
    assert forall k :: 0 <= k < |r.cities| ==> RowAt(r, k) == RowAt(g, idx[k]) && RowAdmitted(g, f, idx[k]);
    r
  }

  /** `filteredGeo`: absent while the snapshot is absent. */
  function FilteredGeo(data: Option<Geo>, f: Filters): (r: Option<Geo>)
    requires data.Some? ==> Aligned(data.value)
    ensures r.Some? <==> data.Some?
    ensures r.Some? ==> Aligned(r.value) && r.value == FilterRows(data.value, f)
  {
    if data.None? then None else Some(FilterRows(data.value, f))
  }

  lemma {:induction false} InitialKeepsAllIndices(g: Geo, n: nat)
    requires Aligned(g) && n <= |g.cities|
    ensures KeptIndices(g, InitialFilters(), n) == Range(n)
    decreases n
  {
    if n > 0 {
      InitialKeepsAllIndices(g, n - 1);
      assert RowAdmitted(g, InitialFilters(), n - 1);
    }
  }

  /** With the initial (or reset) filters the filtered snapshot is the snapshot itself. */
  lemma InitialFiltersKeepEverything(g: Geo)
    requires Aligned(g)
    ensures FilterRows(g, InitialFilters()) == g
  {
    var n := |g.cities|;
    InitialKeepsAllIndices(g, n);
    PickRange(g.cities); PickRange(g.countries); PickRange(g.avgIncome);
    PickRange(g.happinessScore); PickRange(g.airQualityIndex);
    PickRange(g.publicTransportScore); PickRange(g.greenSpaceRatio);
    PickRange(g.internetPenetration); PickRange(g.populationDensity);
    PickRange(g.avgRent); PickRange(g.latitude); PickRange(g.longitude);
  }

  // ---------------------------------------------------------------- statistics

  datatype Stats = Stats(count: nat, avgHappiness: real, avgIncome: real, avgAir: real)

  /**
   * `filteredStats`: absent exactly when no row survives; otherwise the row
   * count and three means, each between the smallest and largest value it averages.
   */
  function FilteredStats(fg: Option<Geo>): (r: Option<Stats>)
    requires fg.Some? ==> Aligned(fg.value)
    ensures r.None? <==> fg.None? || |fg.value.cities| == 0
    ensures r.Some? ==> var g, s := fg.value, r.value;
      && s.count == |g.cities|
      && s.avgHappiness == Mean(g.happinessScore)
      && s.avgIncome == Mean(g.avgIncome)
      && s.avgAir == Mean(g.airQualityIndex)
      && Min(g.happinessScore) <= s.avgHappiness <= Max(g.happinessScore)
      && Min(g.avgIncome) <= s.avgIncome <= Max(g.avgIncome)
      && Min(g.airQualityIndex) <= s.avgAir <= Max(g.airQualityIndex)
  {
    if fg.None? || |fg.value.cities| == 0 then None
    else
      var g := fg.value;
      var count := |g.cities|;
      MeanWithinMinMax(g.happinessScore);
      MeanWithinMinMax(g.avgIncome);
      MeanWithinMinMax(g.airQualityIndex);
      Some(Stats(count, Sum(g.happinessScore) / (count as real),
                 Sum(g.avgIncome) / (count as real), Sum(g.airQualityIndex) / (count as real)))
  }

  // ---------------------------------------------------------------- top ten

  datatype TopEntry = TopEntry(city: string, country: string, happiness: real, income: real)

  function EntryAt(g: Geo, i: nat): TopEntry
    requires Aligned(g) && i < |g.cities|
  {
    TopEntry(g.cities[i], g.countries[i], g.happinessScore[i], g.avgIncome[i])
  }

  /**
   * Row i comes before row j in a stable sort by descending happiness:
   * strictly happier, or equally happy and earlier.
   */
  predicate Precedes(h: seq<real>, i: nat, j: nat)
    requires i < |h| && j < |h|
  {
    h[i] > h[j] || (h[i] == h[j] && i < j)
  }

  predicate RankSorted(h: seq<real>, s: seq<nat>)
    requires InBounds(s, h)
  {
    forall a, b :: 0 <= a < b < |s| ==> Precedes(h, s[a], s[b])
  }

  function InsertByRank(h: seq<real>, i: nat, s: seq<nat>): (r: seq<nat>)
    requires i < |h| && InBounds(s, h) && i !in s && RankSorted(h, s)
    ensures InBounds(r, h) && RankSorted(h, r)
    ensures multiset(r) == multiset(s) + multiset{i}
  {
    if s == [] then [i]
    else if Precedes(h, i, s[0]) then
      PrecedesHeadPrecedesAll(h, i, s);
      LeadingPrecedes(h, i, s);
      [i] + s
    else
      var rest := InsertByRank(h, i, s[1..]);
      assert s == [s[0]] + s[1..];
      HeadPrecedesAll(h, i, s, rest);
      LeadingPrecedes(h, s[0], rest);
      [s[0]] + rest
  }

  /** The head of a sorted s precedes every element of s's tail, and a row it already precedes. */
  lemma HeadPrecedesAll(h: seq<real>, i: nat, s: seq<nat>, rest: seq<nat>)
    requires i < |h| && InBounds(s, h) && s != [] && RankSorted(h, s) && InBounds(rest, h)
    requires Precedes(h, s[0], i)
    requires multiset(rest) == multiset(s[1..]) + multiset{i}
    ensures forall k :: 0 <= k < |rest| ==> Precedes(h, s[0], rest[k])
  {
    forall k | 0 <= k < |rest| ensures Precedes(h, s[0], rest[k]) {
      assert rest[k] in multiset(rest);
      if rest[k] != i {
        assert rest[k] in s[1..];
        var b :| 0 <= b < |s[1..]| && s[1..][b] == rest[k];
        assert s[b + 1] == rest[k];
      }
    }
  }

  /** Precedes is transitive, so a row ahead of a sorted list's head is ahead of all of it. */
  lemma PrecedesHeadPrecedesAll(h: seq<real>, x: nat, s: seq<nat>)
    requires x < |h| && InBounds(s, h) && s != [] && RankSorted(h, s)
    requires Precedes(h, x, s[0])
    ensures forall k :: 0 <= k < |s| ==> Precedes(h, x, s[k])
  {
    forall k | 0 < k < |s| ensures Precedes(h, x, s[k]) {
      assert Precedes(h, s[0], s[k]);
    }
  }

  lemma LeadingPrecedes(h: seq<real>, x: nat, s: seq<nat>)
    requires x < |h| && InBounds(s, h) && RankSorted(h, s)
    requires forall k :: 0 <= k < |s| ==> Precedes(h, x, s[k])
    ensures InBounds([x] + s, h) && RankSorted(h, [x] + s)
  {
    var r := [x] + s;
    forall a, b | 0 <= a < b < |r| ensures Precedes(h, r[a], r[b]) {
      if a > 0 { assert r[a] == s[a - 1] && r[b] == s[b - 1]; }
    }
  }

  function SortByRank(h: seq<real>, s: seq<nat>): (r: seq<nat>)
    requires InBounds(s, h) && NoDups(s)
    ensures InBounds(r, h) && RankSorted(h, r)
    ensures multiset(r) == multiset(s)
  {
    if s == [] then []
    else
      assert s == [s[0]] + s[1..];
      var rest := SortByRank(h, s[1..]);
      assert s[0] !in multiset(rest);
      InsertByRank(h, s[0], rest)
  }

  /**
   * The row order produced by a stable sort on `b.happiness - a.happiness`:
   * a permutation of the row indices, happier rows first, ties in row order.
   */
  function StableOrder(h: seq<real>): (r: seq<nat>)
    ensures |r| == |h| && InBounds(r, h) && RankSorted(h, r)
    ensures multiset(r) == multiset(Range(|h|))
  {
    var r := SortByRank(h, Range(|h|));
    assert |r| == |multiset(r)| == |multiset(Range(|h|))| == |h|;
    r
  }

  const TopN: nat := 10

  /**
   * `topCitiesFixed`: the first ten entries of the filtered rows sorted by
   * descending happiness (stable).
   */
  function TopCities(fg: Option<Geo>): (r: seq<TopEntry>)
    requires fg.Some? ==> Aligned(fg.value)
    ensures fg.None? ==> r == []
    ensures fg.Some? ==> |r| == if |fg.value.cities| < TopN then |fg.value.cities| else TopN
    ensures forall a, b :: 0 <= a < b < |r| ==> r[a].happiness >= r[b].happiness
    ensures fg.Some? ==> var o := StableOrder(fg.value.happinessScore);
      forall k :: 0 <= k < |r| ==> r[k] == EntryAt(fg.value, o[k])
  {
    if fg.None? then []
    else
      var g := fg.value;
      var o := StableOrder(g.happinessScore);
      var n := if |g.cities| < TopN then |g.cities| else TopN;
      seq(n, k requires 0 <= k < n => EntryAt(g, o[k]))
  }

  /** Equally happy entries of the top list keep their filtered order. */
  lemma TopCitiesStable(g: Geo, a: nat, b: nat)
    requires Aligned(g)
    requires a < b < |TopCities(Some(g))|
    requires TopCities(Some(g))[a].happiness == TopCities(Some(g))[b].happiness
    ensures StableOrder(g.happinessScore)[a] < StableOrder(g.happinessScore)[b]
  {
    var o := StableOrder(g.happinessScore);
    assert Precedes(g.happinessScore, o[a], o[b]);
  }

  /** Every filtered row left out of the top list is no happier than the last entry in it. */
  lemma TopCitiesDominate(g: Geo, i: nat)
    requires Aligned(g) && i < |g.cities|
    requires i !in StableOrder(g.happinessScore)[..|TopCities(Some(g))|]
    ensures g.happinessScore[i] <= TopCities(Some(g))[|TopCities(Some(g))| - 1].happiness
  {
    var h := g.happinessScore;
    var o := StableOrder(h);
    var top := TopCities(Some(g));
    var m := |top|;
    assert Range(|h|)[i] == i;
    assert i in multiset(Range(|h|));
    assert i in o;
    var j :| 0 <= j < |o| && o[j] == i;
    assert forall t :: 0 <= t < m ==> o[t] == o[..m][t];
    assert j >= m;
    assert j > m - 1 && Precedes(h, o[m - 1], o[j]);
  }

  // ---------------------------------------------------------------- rent effort

  /** `rentEffort`: rent as a percentage of income, 0 where the income is 0. */
  function RentEffort(fg: Option<Geo>): (r: seq<real>)
    requires fg.Some? ==> Aligned(fg.value)
    ensures fg.None? ==> r == []
    ensures fg.Some? ==> |r| == |fg.value.cities|
    ensures fg.Some? ==> forall i :: 0 <= i < |r| ==>
      var income, rent := fg.value.avgIncome[i], fg.value.avgRent[i];
      && (income == 0.0 ==> r[i] == 0.0)
      && (income != 0.0 ==> r[i] * income == rent * 100.0)
  {
    if fg.None? then []
    else
      var g := fg.value;
      seq(|g.avgIncome|, i requires 0 <= i < |g.avgIncome| =>
        if g.avgIncome[i] == 0.0 then 0.0 else g.avgRent[i] / g.avgIncome[i] * 100.0)
  }

  // ---------------------------------------------------------------- per continent

  datatype ContinentStat = ContinentStat(continent: string, cities: nat, avgHappiness: real, avgIncome: real)

  /** The aggregate of the filtered rows whose `countries` entry is g. */
  function GroupStat(fg: Geo, g: string): (s: ContinentStat)
    requires Aligned(fg) && g in fg.countries
    ensures s.continent == g && s.cities == |IndicesOf(fg.countries, g)| && s.cities > 0
  {
    var idx := IndicesOf(fg.countries, g);
    IndicesOfPresent(fg.countries, g);
    ContinentStat(g, |idx|, Mean(GroupValues(fg.happinessScore, fg.countries, g)),
                  Mean(GroupValues(fg.avgIncome, fg.countries, g)))
  }

  /** Each group's averages lie between the smallest and largest value of that group alone. */
  lemma GroupAveragesWithinGroup(fg: Geo, g: string)
    requires Aligned(fg) && g in fg.countries
    ensures var s, hs, incs := GroupStat(fg, g),
        GroupValues(fg.happinessScore, fg.countries, g), GroupValues(fg.avgIncome, fg.countries, g);
      && Min(hs) <= s.avgHappiness <= Max(hs)
      && Min(incs) <= s.avgIncome <= Max(incs)
  {
    MeanWithinMinMax(GroupValues(fg.happinessScore, fg.countries, g));
    MeanWithinMinMax(GroupValues(fg.avgIncome, fg.countries, g));
  }

  /** The specification of `continentStats`: one aggregate per group, in first-seen order. */
  function ContinentStatsOf(fg: Geo): (r: seq<ContinentStat>)
    requires Aligned(fg)
  {
    StatsOfGroups(fg, Distinct(fg.countries))
  }

  /** The aggregates of the listed groups, in the order listed. */
  function StatsOfGroups(fg: Geo, gs: seq<string>): (r: seq<ContinentStat>)
    requires Aligned(fg) && forall x :: x in gs ==> x in fg.countries
  {
    seq(|gs|, k requires 0 <= k < |gs| => GroupStat(fg, gs[k]))
  }

  function TotalCities(s: seq<ContinentStat>): nat
  {
    if s == [] then 0 else TotalCities(s[..|s| - 1]) + s[|s| - 1].cities
  }

  lemma {:induction false} TotalCitiesIsGroupSizes(fg: Geo, gs: seq<string>)
    requires Aligned(fg) && forall x :: x in gs ==> x in fg.countries
    ensures TotalCities(StatsOfGroups(fg, gs)) == GroupSizes(fg.countries, gs)
    decreases |gs|
  {
    var s := StatsOfGroups(fg, gs);
    if gs != [] {
      var q := gs[..|gs| - 1];
      assert s[..|s| - 1] == StatsOfGroups(fg, q);
      TotalCitiesIsGroupSizes(fg, q);
    }
  }

  /**
   * The per-continent aggregates name every group once, in first-seen order,
   * none is empty, and their city counts add up to the filtered row count.
   */
  lemma ContinentStatsPartition(fg: Geo)
    requires Aligned(fg)
    ensures var r := ContinentStatsOf(fg);
      && |r| == |Distinct(fg.countries)|
      && (forall k :: 0 <= k < |r| ==> r[k].continent == Distinct(fg.countries)[k] && r[k].cities > 0)
      && TotalCities(r) == |fg.cities|
  {
    ContinentStatsTotal(fg);
  }

  lemma ContinentStatsTotal(fg: Geo)
    requires Aligned(fg)
    ensures TotalCities(ContinentStatsOf(fg)) == |fg.cities|
  {
    var gs := Distinct(fg.countries);
    TotalCitiesIsGroupSizes(fg, gs);
    forall i | 0 <= i < |fg.countries| ensures fg.countries[i] in gs {
      assert fg.countries[i] in fg.countries;
    }
    GroupSizesCover(fg.countries, gs);
  }

  /** The accumulator `stats[c]` holds once the first i rows have been visited. */
  datatype GroupAcc = GroupAcc(count: nat, happiness: seq<real>, income: seq<real>)

  function AccAfter(fg: Geo, i: nat, c: string): GroupAcc
    requires Aligned(fg) && i <= |fg.cities|
  {
    var idx := IndicesOf(fg.countries[..i], c);
    GroupAcc(|idx|, Pick(fg.happinessScore, idx), Pick(fg.avgIncome, idx))
  }

  /** Visiting row i appends that row to its own group's accumulator and to no other. */
  lemma AccAfterStep(fg: Geo, i: nat, c: string)
    requires Aligned(fg) && i < |fg.cities|
    ensures var before := AccAfter(fg, i, c);
      AccAfter(fg, i + 1, c) ==
        if c == fg.countries[i]
        then GroupAcc(before.count + 1, before.happiness + [fg.happinessScore[i]], before.income + [fg.avgIncome[i]])
        else before
  {
    var cs := fg.countries;
    assert cs[..i + 1] == cs[..i] + [cs[i]];
    IndicesOfSnoc(cs[..i], cs[i], c);
    var idx := IndicesOf(cs[..i], c);
    PickAppend(fg.happinessScore, idx, i);
    PickAppend(fg.avgIncome, idx, i);
  }

  /** A group not seen among the first i rows has an empty accumulator. */
  lemma AccAfterUnseen(fg: Geo, i: nat, c: string)
    requires Aligned(fg) && i <= |fg.cities| && c !in fg.countries[..i]
    ensures AccAfter(fg, i, c) == GroupAcc(0, [], [])
  {
    IndicesOfAbsent(fg.countries[..i], c);
  }

  /** Averaging a finished accumulator gives the group's aggregate. */
  function Summarise(c: string, s: GroupAcc): ContinentStat
    requires |s.happiness| > 0 && |s.income| > 0
  {
    ContinentStat(c, s.count, Sum(s.happiness) / (|s.happiness| as real), Sum(s.income) / (|s.income| as real))
  }

  /** The dictionary's entries in key order, each accumulator turned into averages. */
  function SummariseAll(keys: seq<string>, stats: map<string, GroupAcc>): seq<ContinentStat>
    requires forall k :: 0 <= k < |keys| ==>
      keys[k] in stats && |stats[keys[k]].happiness| > 0 && |stats[keys[k]].income| > 0
  {
    seq(|keys|, k requires 0 <= k < |keys| => Summarise(keys[k], stats[keys[k]]))
  }

  /** Once every row has been visited, the summaries are the per-group aggregates. */
  lemma SummariseFinished(fg: Geo, keys: seq<string>, stats: map<string, GroupAcc>)
    requires Aligned(fg) && Visited(fg, |fg.cities|, keys, stats)
    ensures forall k :: 0 <= k < |keys| ==>
      keys[k] in stats && |stats[keys[k]].happiness| > 0 && |stats[keys[k]].income| > 0
    ensures SummariseAll(keys, stats) == ContinentStatsOf(fg)
  {
    assert fg.countries[..|fg.cities|] == fg.countries;
    forall k | 0 <= k < |keys|
      ensures keys[k] in stats && |stats[keys[k]].happiness| > 0 && |stats[keys[k]].income| > 0
      ensures Summarise(keys[k], stats[keys[k]]) == GroupStat(fg, keys[k])
    {
      IndicesOfPresent(fg.countries, keys[k]);
    }
  }

  /** The loop state after visiting the first i rows. */
  ghost predicate Visited(fg: Geo, i: nat, keys: seq<string>, stats: map<string, GroupAcc>)
    requires Aligned(fg)
  {
    && i <= |fg.cities|
    && keys == Distinct(fg.countries[..i])
    && (forall c :: c in stats <==> c in keys)
    && (forall c {:trigger stats[c]} :: c in stats ==> stats[c] == AccAfter(fg, i, c))
  }

  /** Visiting row i: create its group's accumulator if missing, then count and push the row. */
  lemma VisitRow(fg: Geo, i: nat, country: string, keys: seq<string>, stats: map<string, GroupAcc>,
                 keys': seq<string>, stats1: map<string, GroupAcc>, stats': map<string, GroupAcc>)
    requires Aligned(fg) && i < |fg.cities| && Visited(fg, i, keys, stats)
    requires country == fg.countries[i]
    requires keys' == (if country in stats then keys else keys + [country])
    requires stats1 == (if country in stats then stats else stats[country := GroupAcc(0, [], [])])
    requires stats' == stats1[country := GroupAcc(stats1[country].count + 1, stats1[country].happiness + [fg.happinessScore[i]],
                                            stats1[country].income + [fg.avgIncome[i]])]
    ensures Visited(fg, i + 1, keys', stats')
  {
    VisitKeys(fg.countries, i, keys, stats, keys');
    VisitAcc(fg, i, country, stats, stats1, stats');
  }

  /** The key half of `VisitRow`: a group is appended to the keys the first time it is seen. */
  lemma VisitKeys(cs: seq<string>, i: nat, keys: seq<string>, stats: map<string, GroupAcc>, keys': seq<string>)
    requires i < |cs| && keys == Distinct(cs[..i]) && (forall c :: c in stats <==> c in keys)
    requires keys' == (if cs[i] in stats then keys else keys + [cs[i]])
    ensures keys' == Distinct(cs[..i + 1])
    ensures forall c :: c in keys' <==> c in stats || c == cs[i]
    ensures cs[i] !in stats ==> cs[i] !in cs[..i]
  {
    DistinctStep(cs, i);
  }

  /** The accumulator half of `VisitRow`: only row i's group changes, by that row. */
  lemma VisitAcc(fg: Geo, i: nat, country: string, stats: map<string, GroupAcc>, stats1: map<string, GroupAcc>,
                 stats': map<string, GroupAcc>)
    requires Aligned(fg) && i < |fg.cities|
    requires forall c {:trigger stats[c]} :: c in stats ==> stats[c] == AccAfter(fg, i, c)
    requires country == fg.countries[i] && (country !in stats ==> country !in fg.countries[..i])
    requires stats1 == (if country in stats then stats else stats[country := GroupAcc(0, [], [])])
    requires stats' == stats1[country := GroupAcc(stats1[country].count + 1, stats1[country].happiness + [fg.happinessScore[i]],
                                            stats1[country].income + [fg.avgIncome[i]])]
    ensures forall c :: c in stats' <==> c in stats || c == fg.countries[i]
    ensures forall c {:trigger stats'[c]} :: c in stats' ==> stats'[c] == AccAfter(fg, i + 1, c)
  {
    if country !in stats {
      AccAfterUnseen(fg, i, country);
    }
    assert stats1[country] == AccAfter(fg, i, country);
    forall c | c in stats' ensures stats'[c] == AccAfter(fg, i + 1, c) {
      AccAfterStep(fg, i, c);
      if c != country {
        assert stats'[c] == stats[c];
      }
    }
  }

  /**
   * `continentStats`: one pass over the filtered rows fills a dictionary of
   * accumulators (keys kept in insertion order, as `Object.entries` lists
   * them), then each accumulator is turned into its averages.
   */
  method ContinentStats(fg: Option<Geo>) returns (r: seq<ContinentStat>)
    requires fg.Some? ==> Aligned(fg.value)
    ensures fg.None? ==> r == []
    ensures fg.Some? ==> r == ContinentStatsOf(fg.value)
  {
    if fg.None? {
      return [];
    }
    var g := fg.value;
    var stats: map<string, GroupAcc> := map[];
    var keys: seq<string> := [];
    var i := 0;
    while i < |g.countries|
      invariant Visited(g, i, keys, stats)
    {
      ghost var keys0, stats0 := keys, stats;
      var country := g.countries[i];
      if country !in stats {
        stats := stats[country := GroupAcc(0, [], [])];
        keys := keys + [country];
      }
      ghost var stats1 := stats;
      var s := stats[country];
      stats := stats[country := GroupAcc(s.count + 1, s.happiness + [g.happinessScore[i]], s.income + [g.avgIncome[i]])];
      VisitRow(g, i, country, keys0, stats0, keys, stats1, stats);
      i := i + 1;
    }
    SummariseFinished(g, keys, stats);
    r := SummariseAll(keys, stats);
  }
}
