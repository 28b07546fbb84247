/** Aggregation of the selected sessions: percentiles, the one-pass host grouping and
    the grouped totals. Averages and rates are exact reals. */
module Insights {
  import opened Common
  import opened Sorting
  import LikePattern
  import TextOrder

  // ---- Percentiles ----

  predicate IntLe(a: int, b: int) {
    a <= b
  }

  /** p% of the way through `n` positions, rounded half up. */
  function Rank(n: nat, p: nat): nat
    requires n >= 1
  {
    (2 * p * (n - 1) + 100) / 200
  }

  function Percentile(sorted: seq<int>, p: nat): int {
    if sorted == [] then 0 else sorted[Min(Rank(|sorted|, p), |sorted| - 1)]
  }

  lemma RankGrows(n: nat, p: nat, q: nat)
    requires n >= 1 && p <= q
    ensures Rank(n, p) <= Rank(n, q)
  {
    assert p * (n - 1) <= q * (n - 1);
  }

  /** A percentile is an element of its list, and a higher one is not smaller. */
  lemma PercentilesOrdered(sorted: seq<int>, p: nat, q: nat)
    requires Sorted(sorted, IntLe) && sorted != [] && p <= q
    ensures Percentile(sorted, p) in sorted && Percentile(sorted, p) <= Percentile(sorted, q)
  {
    RankGrows(|sorted|, p, q);
    var i, j := Min(Rank(|sorted|, p), |sorted| - 1), Min(Rank(|sorted|, q), |sorted| - 1);
    if i < j {
      assert IntLe(sorted[i], sorted[j]);
    }
  }

  /** Up to 100 the rank is a position, so the cap never bites; 0 and 100 are the ends. */
  lemma RankInRange(n: nat, p: nat)
    requires n >= 1 && p <= 100
    ensures Rank(n, p) <= n - 1 && Rank(n, 0) == 0 && Rank(n, 100) == n - 1
  {
    assert 2 * p * (n - 1) <= 200 * (n - 1);
    assert 2 * 0 * (n - 1) == 0;
  }

  /** Whichever way the same values were sorted, the percentile is the same. */
  lemma PercentileOfValues(a: seq<int>, b: seq<int>, p: nat)
    requires multiset(a) == multiset(b) && Sorted(b, IntLe)
    ensures Percentile(Sort(a, IntLe), p) == Percentile(b, p)
  {
    SortSorts(a, IntLe);
    SortedUnique(b, Sort(a, IntLe), IntLe);
  }

  // ---- Per-host P95 in one pass ----

  datatype Timing = Timing(host: string, duration: int)

  /** The durations of one lower-cased host, in row order. */
  function DurationsOf(rows: seq<Timing>, host: string): seq<int>
    decreases |rows|
  {
    if rows == [] then []
    else
      var last := rows[|rows| - 1];
      DurationsOf(rows[..|rows| - 1], host) + if LikePattern.Fold(last.host) == host then [last.duration] else []
  }

  function Lookup(m: map<string, seq<int>>, host: string): seq<int> {
    if host in m then m[host] else []
  }

  /** One pass over the rows collects, for every host, what filtering for it alone gives. */
  method CollectDurations(rows: seq<Timing>) returns (m: map<string, seq<int>>)
    ensures forall h :: Lookup(m, h) == DurationsOf(rows, h)
  {
    m := map[];
    for i := 0 to |rows|
      invariant forall h :: Lookup(m, h) == DurationsOf(rows[..i], h)
    {
      assert rows[..i + 1][..i] == rows[..i];
      var host := LikePattern.Fold(rows[i].host);
      m := m[host := Lookup(m, host) + [rows[i].duration]];
    }
    assert rows[..|rows|] == rows;
  }

  /** Filter for one host, sort, take the percentile. */
  function HostP95(rows: seq<Timing>, host: string): int {
    P95(DurationsOf(rows, host))
  }

  function P95(durations: seq<int>): int {
    Percentile(Sort(durations, IntLe), 95)
  }

  method LookupP95s(m: map<string, seq<int>>, hosts: seq<string>) returns (p95s: seq<int>)
    ensures |p95s| == |hosts| && forall i :: 0 <= i < |hosts| ==> p95s[i] == P95(Lookup(m, hosts[i]))
  {
    p95s := [];
    for n := 0 to |hosts|
      invariant |p95s| == n && forall i :: 0 <= i < n ==> p95s[i] == P95(Lookup(m, hosts[i]))
    {
      p95s := p95s + [P95(Lookup(m, hosts[n]))];
    }
  }

  method HostP95s(rows: seq<Timing>, hosts: seq<string>) returns (p95s: seq<int>)
    ensures |p95s| == |hosts| && forall i :: 0 <= i < |hosts| ==> p95s[i] == HostP95(rows, hosts[i])
  {
    var m := CollectDurations(rows);
    p95s := LookupP95s(m, hosts);
  }

  // ---- Groups ----

  /** A selected row with its group key. */
  datatype Sample = Sample(key: string, status: int, duration: int, bytes: int)

  datatype Acc = Acc(count: int, errors: int, durations: seq<int>, bytes: int)

  datatype Group = Group(key: string, count: int, errors: int, errorRate: real, average: real, p50: int, p95: int,
                         bytes: int)

  /** What is summed. */
  datatype Measure = Count | Errors | Bytes

  function Clamp(x: int): int {
    if x < 0 then 0 else x
  }

  /** What a grouped row contributes, after negative values are raised to zero. */
  function Amount(w: Measure, s: Sample): int {
    match w
    case Count => 1
    case Errors => if Clamp(s.status) >= 400 then 1 else 0
    case Bytes => Clamp(s.bytes)
  }

  /** What a row contributes to the overview totals. */
  function RawAmount(w: Measure, s: Sample): int {
    match w
    case Count => 1
    case Errors => if s.status >= 400 then 1 else 0
    case Bytes => s.bytes
  }

  /** The total of the rows whose key is in the set. */
  function Total(rows: seq<Sample>, w: Measure, keys: set<string>): int
    decreases |rows|
  {
    if rows == [] then 0
    else
      var last := rows[|rows| - 1];
      Total(rows[..|rows| - 1], w, keys) + if last.key in keys then Amount(w, last) else 0
  }

  function Overview(rows: seq<Sample>, w: Measure): int
    decreases |rows|
  {
    if rows == [] then 0 else Overview(rows[..|rows| - 1], w) + RawAmount(w, rows[|rows| - 1])
  }

  function GroupDurations(rows: seq<Sample>, key: string): seq<int>
    decreases |rows|
  {
    if rows == [] then []
    else
      var last := rows[|rows| - 1];
      GroupDurations(rows[..|rows| - 1], key) + if last.key == key then [Clamp(last.duration)] else []
  }

  function AccOf(rows: seq<Sample>, key: string): Acc {
    Acc(Total(rows, Count, {key}), Total(rows, Errors, {key}), GroupDurations(rows, key), Total(rows, Bytes, {key}))
  }

  function Keys(rows: seq<Sample>): set<string> {
    set i | 0 <= i < |rows| :: rows[i].key
  }

  function SumOf(s: seq<int>): int {
    if s == [] then 0 else s[0] + SumOf(s[1..])
  }

  function GroupFrom(key: string, a: Acc): Group {
    var sorted := Sort(a.durations, IntLe);
    Group(key, a.count, a.errors,
          if a.count > 0 then a.errors as real / a.count as real else 0.0,
          if a.count > 0 then SumOf(sorted) as real / a.count as real else 0.0,
          Percentile(sorted, 50), Percentile(sorted, 95), a.bytes)
  }

  /** Most requests first, then by key. */
  predicate GroupLe(a: Group, b: Group) {
    a.count > b.count || (a.count == b.count && (a.key == b.key || TextOrder.Less(a.key, b.key)))
  }

  lemma GroupOrder()
    ensures TotalPreorder(GroupLe)
  {
    forall a: string, b: string ensures a == b || TextOrder.Less(a, b) || TextOrder.Less(b, a) {
      TextOrder.Total(a, b);
    }
    forall a: string, b: string, c: string | TextOrder.Less(a, b) && TextOrder.Less(b, c) ensures TextOrder.Less(a, c) {
      TextOrder.Transitive(a, b, c);
    }
    assert forall a: Group, b: Group :: GroupLe(a, b) || GroupLe(b, a);
  }

  const NO_ROWS := Acc(0, 0, [], 0)

  function AccAt(groups: map<string, Acc>, key: string): Acc {
    if key in groups then groups[key] else NO_ROWS
  }

  function AddRow(a: Acc, row: Sample): Acc {
    Acc(a.count + 1, a.errors + (if Clamp(row.status) >= 400 then 1 else 0),
        a.durations + [Clamp(row.duration)], a.bytes + Clamp(row.bytes))
  }

  lemma AccPlus(rows: seq<Sample>, i: nat, key: string)
    requires i < |rows|
    ensures AccOf(rows[..i + 1], key)
            == if rows[i].key == key then AddRow(AccOf(rows[..i], key), rows[i]) else AccOf(rows[..i], key)
  {
    assert rows[..i + 1][..i] == rows[..i] && rows[..i + 1][i] == rows[i];
  }

  method Accumulate(rows: seq<Sample>) returns (groups: map<string, Acc>)
    ensures groups.Keys == Keys(rows) && forall k :: AccAt(groups, k) == AccOf(rows, k)
  {
    groups := map[];
    for i := 0 to |rows|
      invariant groups.Keys == Keys(rows[..i])
      invariant forall k :: AccAt(groups, k) == AccOf(rows[..i], k)
    {
      var row := rows[i];
      ghost var before := groups;
      groups := groups[row.key := AddRow(AccAt(groups, row.key), row)];
      forall k ensures AccAt(groups, k) == AccOf(rows[..i + 1], k) {
        AccPlus(rows, i, k);
        assert AccAt(before, k) == AccOf(rows[..i], k);
      }
      KeysPlus(rows, i);
    }
    assert rows[..|rows|] == rows;
  }

  lemma KeysPlus(rows: seq<Sample>, i: nat)
    requires i < |rows|
    ensures Keys(rows[..i + 1]) == Keys(rows[..i]) + {rows[i].key}
  {
    assert rows[..i + 1] == rows[..i] + [rows[i]];
  }

  function GroupLimit(maxGroups: Option<nat>): nat {
    if maxGroups.None? then 50 else if maxGroups.value < 1 then 1 else Min(maxGroups.value, 51)
  }

  /** The group is exactly what its own rows give. */
  ghost predicate Exact(g: Group, rows: seq<Sample>) {
    g == GroupFrom(g.key, AccOf(rows, g.key))
  }

  ghost function GroupKeys(groups: seq<Group>): set<string> {
    set i | 0 <= i < |groups| :: groups[i].key
  }

  /** One exact group for each of the keys. */
  ghost predicate OnePerKey(groups: seq<Group>, rows: seq<Sample>, keys: set<string>) {
    && (forall g :: g in groups ==> Exact(g, rows))
    && NoDup(groups)
    && GroupKeys(groups) == keys
  }

  lemma {:induction false} NoDupCounts<T>(s: seq<T>)
    requires NoDup(s)
    ensures forall x :: multiset(s)[x] <= 1
    decreases |s|
  {
    if s != [] {
      NoDupCounts(s[1..]);
      assert s == [s[0]] + s[1..];
      assert s[0] !in s[1..];
    }
  }

  lemma NoDupPermutes<T>(a: seq<T>, b: seq<T>)
    requires NoDup(a) && multiset(a) == multiset(b)
    ensures NoDup(b)
  {
    NoDupCounts(a);
    forall i, j | 0 <= i < j < |b| ensures b[i] != b[j] {
      if b[i] == b[j] {
        PairCounts(b, i, j);
        assert false;
      }
    }
  }

  lemma PairCounts<T>(s: seq<T>, i: nat, j: nat)
    requires i < j < |s| && s[i] == s[j]
    ensures multiset(s)[s[i]] >= 2
  {
    assert s == s[..j] + s[j..];
    assert s[..j][i] in s[..j] && s[j..][0] in s[j..];
  }

  /** Sorting keeps one exact group per key. */
  lemma SortKeepsGroups(groups: seq<Group>, rows: seq<Sample>, keys: set<string>)
    requires OnePerKey(groups, rows, keys)
    ensures Sorted(Sort(groups, GroupLe), GroupLe) && OnePerKey(Sort(groups, GroupLe), rows, keys)
  {
    var sorted := Sort(groups, GroupLe);
    GroupOrder();
    SortSorts(groups, GroupLe);
    NoDupPermutes(groups, sorted);
    forall g ensures g in sorted <==> g in groups {
      assert g in multiset(sorted) <==> g in multiset(groups);
    }
    KeysOfMembers(groups, sorted);
  }

  lemma KeysOfMembers(a: seq<Group>, b: seq<Group>)
    requires forall g :: g in a <==> g in b
    ensures GroupKeys(a) == GroupKeys(b)
  {
    forall k ensures k in GroupKeys(a) <==> k in GroupKeys(b) {
      if k in GroupKeys(a) {
        var i :| 0 <= i < |a| && a[i].key == k;
        assert a[i] in b;
      }
      if k in GroupKeys(b) {
        var i :| 0 <= i < |b| && b[i].key == k;
        assert b[i] in a;
      }
    }
  }

  method ListGroups(rows: seq<Sample>) returns (groups: seq<Group>)
    ensures OnePerKey(groups, rows, Keys(rows))
  {
    var accs := Accumulate(rows);
    groups := [];
    var left := accs.Keys;
    while left != {}
      invariant left <= accs.Keys && OnePerKey(groups, rows, accs.Keys - left)
      decreases |left|
    {
      var k :| k in left;
      assert AccAt(accs, k) == AccOf(rows, k);
      var g := GroupFrom(k, accs[k]);
      assert Exact(g, rows) && accs.Keys - (left - {k}) == (accs.Keys - left) + {k};
      AddGroup(groups, g, rows, accs.Keys - left);
      groups := groups + [g];
      left := left - {k};
    }
    assert accs.Keys - {} == accs.Keys;
  }

  lemma AddGroup(groups: seq<Group>, g: Group, rows: seq<Sample>, keys: set<string>)
    requires OnePerKey(groups, rows, keys) && Exact(g, rows) && g.key !in keys
    ensures OnePerKey(groups + [g], rows, keys + {g.key})
  {
    assert forall i :: 0 <= i < |groups| ==> groups[i].key in GroupKeys(groups);
    var more := groups + [g];
    assert GroupKeys(more) == GroupKeys(groups) + {g.key} by {
      assert forall i :: 0 <= i < |groups| ==> more[i] == groups[i];
      assert more[|groups|] == g;
    }
  }

  /** One exact group per key, most requests first. */
  ghost predicate IsRanking(groups: seq<Group>, rows: seq<Sample>) {
    OnePerKey(groups, rows, Keys(rows)) && Sorted(groups, GroupLe)
  }

  /** The output is the ranking of one exact group per key, cut at the limit. */
  method ComputeGroups(rows: seq<Sample>, maxGroups: Option<nat>) returns (output: seq<Group>)
    ensures exists all :: IsRanking(all, rows) && output == all[..Min(|all|, GroupLimit(maxGroups))]
  {
    var groups := ListGroups(rows);
    SortKeepsGroups(groups, rows, Keys(rows));
    var sorted := Sort(groups, GroupLe);
    assert IsRanking(sorted, rows);
    output := sorted[..Min(|sorted|, GroupLimit(maxGroups))];
  }

  /** There is one ranking, so the order in which the groups were listed does not matter. */
  lemma RankingUnique(a: seq<Group>, b: seq<Group>, rows: seq<Sample>)
    requires IsRanking(a, rows) && IsRanking(b, rows)
    ensures a == b
  {
    GroupOrder();
    SameGroups(a, b, rows);
    SameGroups(b, a, rows);
    NoDupCounts(a);
    NoDupCounts(b);
    forall g: Group ensures multiset(a)[g] == multiset(b)[g] {
      assert g in a <==> g in multiset(a);
      assert g in b <==> g in multiset(b);
    }
    NoEqualRanks(a, rows);
    SortedUnique(a, b, GroupLe);
  }

  lemma SameGroups(a: seq<Group>, b: seq<Group>, rows: seq<Sample>)
    requires OnePerKey(a, rows, Keys(rows)) && OnePerKey(b, rows, Keys(rows))
    ensures forall g :: g in a ==> g in b
  {
    forall g | g in a ensures g in b {
      var i :| 0 <= i < |a| && a[i] == g;
      assert g.key in GroupKeys(a) && g.key in GroupKeys(b);
      var j :| 0 <= j < |b| && b[j].key == g.key;
      assert Exact(b[j], rows) && Exact(g, rows);
    }
  }

  lemma NoEqualRanks(a: seq<Group>, rows: seq<Sample>)
    requires forall g :: g in a ==> Exact(g, rows)
    ensures NoTies(a, GroupLe)
  {
    forall i, j | 0 <= i < |a| && 0 <= j < |a| && GroupLe(a[i], a[j]) && GroupLe(a[j], a[i]) ensures a[i] == a[j] {
      assert a[i].key == a[j].key by {
        TextOrder.Irreflexive(a[i].key);
        if TextOrder.Less(a[i].key, a[j].key) {
          TextOrder.Asymmetric(a[i].key, a[j].key);
        }
      }
      assert a[i] in a && a[j] in a;
    }
  }

  // ---- Conservation ----

  function GroupAmount(w: Measure, g: Group): int {
    match w
    case Count => g.count
    case Errors => g.errors
    case Bytes => g.bytes
  }

  function SumGroups(groups: seq<Group>, w: Measure): int {
    if groups == [] then 0 else GroupAmount(w, groups[0]) + SumGroups(groups[1..], w)
  }

  lemma {:induction false} TotalSplits(rows: seq<Sample>, w: Measure, a: set<string>, b: set<string>)
    requires a !! b
    ensures Total(rows, w, a + b) == Total(rows, w, a) + Total(rows, w, b)
    decreases |rows|
  {
    if rows != [] {
      TotalSplits(rows[..|rows| - 1], w, a, b);
    }
  }

  lemma {:induction false} TotalOfNone(rows: seq<Sample>, w: Measure)
    ensures Total(rows, w, {}) == 0
    decreases |rows|
  {
    if rows != [] {
      TotalOfNone(rows[..|rows| - 1], w);
    }
  }

  /** The first group's key is not repeated. */
  lemma FirstKey(groups: seq<Group>, rows: seq<Sample>)
    requires groups != [] && NoDup(groups) && forall g :: g in groups ==> Exact(g, rows)
    ensures GroupKeys(groups) == {groups[0].key} + GroupKeys(groups[1..]) && groups[0].key !in GroupKeys(groups[1..])
  {
    var g, rest := groups[0], groups[1..];
    assert groups == [g] + rest;
    forall i | 0 <= i < |rest| ensures rest[i].key != g.key {
      assert groups[i + 1] in groups && g in groups && groups[0] != groups[i + 1];
    }
    forall i | 0 <= i < |groups| ensures groups[i].key == g.key || groups[i].key in GroupKeys(rest) {
      if i > 0 {
        assert rest[i - 1].key in GroupKeys(rest);
      }
    }
  }

  lemma {:induction false} SumIsTotal(groups: seq<Group>, rows: seq<Sample>, w: Measure)
    requires (forall g :: g in groups ==> Exact(g, rows)) && NoDup(groups)
    ensures SumGroups(groups, w) == Total(rows, w, GroupKeys(groups))
    decreases |groups|
  {
    if groups == [] {
      assert GroupKeys(groups) == {};
      TotalOfNone(rows, w);
    } else {
      var g, rest := groups[0], groups[1..];
      SumIsTotal(rest, rows, w);
      FirstKey(groups, rows);
      TotalSplits(rows, w, {g.key}, GroupKeys(rest));
      assert Exact(g, rows);
    }
  }

  predicate NoNegative(rows: seq<Sample>) {
    forall i :: 0 <= i < |rows| ==> rows[i].bytes >= 0
  }

  /** Summed over all keys, the groups differ from the overview only by the bytes that
      were raised to zero. */
  lemma {:induction false} TotalOfAll(rows: seq<Sample>, w: Measure, keys: set<string>)
    requires Keys(rows) <= keys
    ensures Total(rows, w, keys) >= Overview(rows, w)
    ensures Total(rows, w, keys) == Overview(rows, w) <==> w != Bytes || NoNegative(rows)
    decreases |rows|
  {
    if rows != [] {
      var n := |rows| - 1;
      assert Keys(rows[..n]) <= Keys(rows) by {
        assert forall i :: 0 <= i < n ==> rows[..n][i].key == rows[i].key;
      }
      TotalOfAll(rows[..n], w, keys);
      assert rows[n].key in Keys(rows);
      assert rows == rows[..n] + [rows[n]];
      assert NoNegative(rows) <==> NoNegative(rows[..n]) && rows[n].bytes >= 0;
    }
  }

  /** Untruncated group counts and errors sum to the overview; bytes do exactly when no
      stored size is negative. */
  lemma GroupsConserve(all: seq<Group>, rows: seq<Sample>, w: Measure)
    requires IsRanking(all, rows)
    ensures SumGroups(all, w) == Overview(rows, w) <==> w != Bytes || NoNegative(rows)
  {
    SumIsTotal(all, rows, w);
    TotalOfAll(rows, w, Keys(rows));
  }

  /** Each group's percentiles are ordered and taken from its own rows. */
  lemma GroupPercentiles(g: Group, rows: seq<Sample>)
    requires Exact(g, rows) && g.key in Keys(rows)
    ensures g.p50 <= g.p95 && g.p50 in GroupDurations(rows, g.key) && g.p95 in GroupDurations(rows, g.key)
  {
    var durations := GroupDurations(rows, g.key);
    DurationsPresent(rows, g.key);
    SortSorts(durations, IntLe);
    PercentilesOrdered(Sort(durations, IntLe), 50, 95);
    PercentilesOrdered(Sort(durations, IntLe), 95, 95);
    forall x | x in Sort(durations, IntLe) ensures x in durations {
      assert x in multiset(Sort(durations, IntLe));
    }
  }

  lemma {:induction false} DurationsPresent(rows: seq<Sample>, key: string)
    requires key in Keys(rows)
    ensures GroupDurations(rows, key) != []
    decreases |rows|
  {
    var n := |rows| - 1;
    if rows[n].key != key {
      var i :| 0 <= i < |rows| && rows[i].key == key;
      assert rows[..n][i].key == key;
      DurationsPresent(rows[..n], key);
    }
  }
}
