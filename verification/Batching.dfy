/** Statements over long id lists are split into batches that fit SQLite's variable
    limit: batched deletion of sessions and batched loading of run entries. */
module Batching {
  import opened Common
  import opened Sorting
  import TextOrder

  /** The length of the next batch. */
  function BatchLength(ids: seq<string>, size: nat): (n: nat)
    requires size >= 1 && ids != []
    ensures 1 <= n <= |ids|
  {
    Min(size, |ids|)
  }

  function IdSet(ids: seq<string>): set<string> {
    set i | i in ids
  }

  lemma IdSetSplit(ids: seq<string>, n: nat)
    requires n <= |ids|
    ensures IdSet(ids) == IdSet(ids[..n]) + IdSet(ids[n..])
  {
    assert ids == ids[..n] + ids[n..];
  }

  // ---- Deletion ----

  /** A session's direct dependents (details, messages, runs, …) and the entries of its
      runs; a foreign key with ON DELETE CASCADE joins each level to the one above. */
  datatype Sessions = Sessions(summaries: set<string>, dependents: map<string, string>, entries: map<string, string>)

  /** DELETE FROM session_summaries WHERE id IN (…), cascading. */
  function Delete(db: Sessions, ids: set<string>): Sessions {
    var dependents := map d | d in db.dependents && db.dependents[d] !in db.summaries * ids :: db.dependents[d];
    Sessions(db.summaries - ids, dependents,
             map e | e in db.entries && db.entries[e] !in db.dependents.Keys - dependents.Keys :: db.entries[e])
  }

  /** Deleting two sets one after the other is deleting both at once. */
  lemma DeleteTwice(db: Sessions, a: set<string>, b: set<string>)
    ensures Delete(Delete(db, a), b) == Delete(db, a + b)
  {
    var once, both := Delete(db, a), Delete(db, a + b);
    assert once.summaries - b == both.summaries;
    assert Delete(once, b).dependents == both.dependents;
    assert Delete(once, b).entries == both.entries;
  }

  class SessionStore {
    var db: Sessions

    constructor (db: Sessions)
      ensures this.db == db
    {
      this.db := db;
    }

    /** Whatever the batch size, exactly the requested sessions and their dependents go,
        and the count is the number of distinct requested ids that existed. */
    method DeleteByIds(ids: seq<string>, size: nat) returns (deleted: nat)
      requires size >= 1
      modifies this
      ensures db == Delete(old(db), IdSet(ids))
      ensures deleted == |old(db).summaries * IdSet(ids)|
    {
      deleted := 0;
      var rest := ids;
      ghost var done: set<string> := {};
      assert Delete(db, {}) == db;
      while rest != []
        invariant IdSet(ids) == done + IdSet(rest) && db == Delete(old(db), done)
        invariant deleted == |old(db).summaries * done|
        decreases |rest|
      {
        var n := BatchLength(rest, size);
        var batch := IdSet(rest[..n]);
        BatchStep(old(db), done, rest, n);
        deleted := deleted + |db.summaries * batch|;
        db := Delete(db, batch);
        done, rest := done + batch, rest[n..];
      }
      assert done + {} == done;
    }
  }

  /** One batch more: its ids, its rows and its count add to what was done before. */
  lemma BatchStep(db: Sessions, done: set<string>, rest: seq<string>, n: nat)
    requires n <= |rest|
    ensures var batch := IdSet(rest[..n]);
            && done + IdSet(rest) == done + batch + IdSet(rest[n..])
            && Delete(Delete(db, done), batch) == Delete(db, done + batch)
            && |db.summaries * (done + batch)| == |db.summaries * done| + |Delete(db, done).summaries * batch|
  {
    IdSetSplit(rest, n);
    DeleteTwice(db, done, IdSet(rest[..n]));
    CountSplit(db.summaries, done, IdSet(rest[..n]));
  }

  lemma CountSplit(all: set<string>, a: set<string>, b: set<string>)
    ensures |all * (a + b)| == |all * a| + |(all - a) * b|
  {
    assert all * (a + b) == all * a + (all - a) * b;
  }

  // ---- Loading entries ----

  datatype Entry = Entry(id: string, runId: string, seqNo: nat, payload: string)

  /** Row ids are a primary key. */
  ghost predicate DistinctRows(table: seq<Entry>) {
    forall i, j :: 0 <= i < |table| && 0 <= j < |table| && table[i].id == table[j].id ==> i == j
  }

  predicate TextLe(a: string, b: string) {
    a == b || TextOrder.Less(a, b)
  }

  /** ORDER BY seq, id within a batch */
  predicate BatchLe(a: Entry, b: Entry) {
    a.seqNo < b.seqNo || (a.seqNo == b.seqNo && TextLe(a.id, b.id))
  }

  /** The final order: run_id, seq, id */
  predicate EntryLe(a: Entry, b: Entry) {
    TextOrder.Less(a.runId, b.runId) || (a.runId == b.runId && BatchLe(a, b))
  }

  lemma TextOrderFacts()
    ensures forall a, b :: TextLe(a, b) || TextLe(b, a)
    ensures forall a, b, c :: TextOrder.Less(a, b) && TextOrder.Less(b, c) ==> TextOrder.Less(a, c)
    ensures forall a, b :: TextOrder.Less(a, b) ==> !TextOrder.Less(b, a)
  {
    forall a, b ensures TextLe(a, b) || TextLe(b, a) {
      TextOrder.Total(a, b);
    }
    forall a, b, c | TextOrder.Less(a, b) && TextOrder.Less(b, c) ensures TextOrder.Less(a, c) {
      TextOrder.Transitive(a, b, c);
    }
    forall a, b | TextOrder.Less(a, b) ensures !TextOrder.Less(b, a) {
      TextOrder.Asymmetric(a, b);
    }
  }

  lemma EntryOrders()
    ensures TotalPreorder(BatchLe) && TotalPreorder(EntryLe)
    ensures forall a, b :: EntryLe(a, b) && EntryLe(b, a) ==> a.id == b.id
  {
    TextOrderFacts();
    assert forall a, b :: TextOrder.Less(a, b) || TextLe(b, a);
    assert forall a, b :: BatchLe(a, b) || BatchLe(b, a);
    assert forall a, b, c :: TextLe(a, b) && TextLe(b, c) ==> TextLe(a, c);
    assert forall a, b, c :: BatchLe(a, b) && BatchLe(b, c) ==> BatchLe(a, c);
  }

  /** The rows of the named runs, in table order. */
  function Matching(table: seq<Entry>, runIds: set<string>): seq<Entry> {
    if table == [] then []
    else (if table[0].runId in runIds then [table[0]] else []) + Matching(table[1..], runIds)
  }

  lemma {:induction false} MatchingCounts(table: seq<Entry>, runIds: set<string>, e: Entry)
    ensures multiset(Matching(table, runIds))[e] == if e.runId in runIds then multiset(table)[e] else 0
    decreases |table|
  {
    if table != [] {
      MatchingCounts(table[1..], runIds, e);
      assert table == [table[0]] + table[1..];
    }
  }

  /** In how many batches a run id appears. */
  function BatchesWith(ids: seq<string>, size: nat, runId: string): nat
    requires size >= 1
    decreases |ids|
  {
    if ids == [] then 0
    else
      var n := BatchLength(ids, size);
      (if runId in ids[..n] then 1 else 0) + BatchesWith(ids[n..], size, runId)
  }

  /** SELECT … WHERE run_id IN (batch) ORDER BY seq, id */
  function BatchRows(table: seq<Entry>, batch: seq<string>): seq<Entry> {
    Sort(Matching(table, IdSet(batch)), BatchLe)
  }

  /** The rows of all batches, one batch after the other. */
  function AllRows(table: seq<Entry>, runIds: seq<string>, size: nat): seq<Entry>
    requires size >= 1
    decreases |runIds|
  {
    if runIds == [] then []
    else
      var n := BatchLength(runIds, size);
      BatchRows(table, runIds[..n]) + AllRows(table, runIds[n..], size)
  }

  function Loaded(table: seq<Entry>, runIds: seq<string>, size: nat): seq<Entry>
    requires size >= 1
  {
    Sort(AllRows(table, runIds, size), EntryLe)
  }

  method LoadRunEntries(table: seq<Entry>, runIds: seq<string>, size: nat) returns (entries: seq<Entry>)
    requires size >= 1
    ensures entries == Loaded(table, runIds, size)
  {
    entries := [];
    var rest := runIds;
    while rest != []
      invariant entries + AllRows(table, rest, size) == AllRows(table, runIds, size)
      decreases |rest|
    {
      var n := BatchLength(rest, size);
      assert AllRows(table, rest, size) == BatchRows(table, rest[..n]) + AllRows(table, rest[n..], size);
      entries := entries + BatchRows(table, rest[..n]);
      rest := rest[n..];
    }
    assert entries + [] == entries;
    entries := Sort(entries, EntryLe);
  }

  lemma BatchRowsCount(table: seq<Entry>, batch: seq<string>, e: Entry)
    ensures multiset(BatchRows(table, batch))[e] == if e.runId in batch then multiset(table)[e] else 0
  {
    EntryOrders();
    SortSorts(Matching(table, IdSet(batch)), BatchLe);
    MatchingCounts(table, IdSet(batch), e);
  }

  lemma {:induction false} AllRowsCount(table: seq<Entry>, runIds: seq<string>, size: nat, e: Entry)
    requires size >= 1
    ensures multiset(AllRows(table, runIds, size))[e] == BatchesWith(runIds, size, e.runId) * multiset(table)[e]
    decreases |runIds|
  {
    if runIds != [] {
      var n := BatchLength(runIds, size);
      var m, k := multiset(table)[e], BatchesWith(runIds[n..], size, e.runId);
      var first, others := BatchRows(table, runIds[..n]), AllRows(table, runIds[n..], size);
      CountConcat(first, others, e);
      BatchRowsCount(table, runIds[..n], e);
      AllRowsCount(table, runIds[n..], size, e);
      assert multiset(others)[e] == k * m;
      OneMoreBatch(k, m);
      assert BatchesWith(runIds, size, e.runId) == if e.runId in runIds[..n] then 1 + k else k;
    } else {
      assert BatchesWith(runIds, size, e.runId) == 0;
    }
  }

  lemma CountConcat(a: seq<Entry>, b: seq<Entry>, e: Entry)
    ensures multiset(a + b)[e] == multiset(a)[e] + multiset(b)[e]
  {
  }

  lemma OneMoreBatch(k: nat, m: nat)
    ensures (1 + k) * m == m + k * m
  {
  }

  /** The merged load is sorted and holds each row once per batch that names its run. */
  lemma LoadedCounts(table: seq<Entry>, runIds: seq<string>, size: nat, e: Entry)
    requires size >= 1
    ensures Sorted(Loaded(table, runIds, size), EntryLe)
    ensures multiset(Loaded(table, runIds, size))[e] == BatchesWith(runIds, size, e.runId) * multiset(table)[e]
  {
    EntryOrders();
    SortSorts(AllRows(table, runIds, size), EntryLe);
    AllRowsCount(table, runIds, size, e);
  }

  // ---- Refinement of the unbatched load ----

  /** One query over all ids. */
  function Unbatched(table: seq<Entry>, runIds: seq<string>): seq<Entry> {
    Sort(Matching(table, IdSet(runIds)), EntryLe)
  }

  /** No run that has entries is named in two batches. */
  ghost predicate NamedOnce(table: seq<Entry>, runIds: seq<string>, size: nat)
    requires size >= 1
  {
    forall e :: e in table ==> BatchesWith(runIds, size, e.runId) <= 1
  }

  lemma {:induction false} BatchesWithMember(ids: seq<string>, size: nat, r: string)
    requires size >= 1
    ensures BatchesWith(ids, size, r) >= 1 <==> r in ids
    ensures NoDup(ids) ==> BatchesWith(ids, size, r) <= 1
    decreases |ids|
  {
    if ids != [] {
      var n := BatchLength(ids, size);
      assert ids == ids[..n] + ids[n..];
      BatchesWithMember(ids[n..], size, r);
      if NoDup(ids) && r in ids[..n] {
        assert r !in ids[n..];
      }
    }
  }

  lemma DistinctRowsCount(table: seq<Entry>, e: Entry)
    requires DistinctRows(table)
    ensures multiset(table)[e] == if e in table then 1 else 0
  {
    if e in table {
      var i :| 0 <= i < |table| && table[i] == e;
      assert table == table[..i] + [e] + table[i + 1..];
      assert e !in table[..i] && e !in table[i + 1..];
    }
  }

  lemma UnbatchedCounts(table: seq<Entry>, runIds: seq<string>, e: Entry)
    requires DistinctRows(table)
    ensures Sorted(Unbatched(table, runIds), EntryLe)
    ensures multiset(Unbatched(table, runIds))[e] == if e.runId in runIds && e in table then 1 else 0
  {
    EntryOrders();
    SortSorts(Matching(table, IdSet(runIds)), EntryLe);
    MatchingCounts(table, IdSet(runIds), e);
    DistinctRowsCount(table, e);
  }

  lemma SameCounts(table: seq<Entry>, runIds: seq<string>, size: nat, e: Entry)
    requires size >= 1 && DistinctRows(table)
    ensures multiset(Loaded(table, runIds, size))[e] > 0 ==> e in table
    ensures multiset(Loaded(table, runIds, size))[e] == multiset(Unbatched(table, runIds))[e]
            <==> (e in table ==> BatchesWith(runIds, size, e.runId) <= 1)
  {
    LoadedCounts(table, runIds, size, e);
    UnbatchedCounts(table, runIds, e);
    DistinctRowsCount(table, e);
    BatchesWithMember(runIds, size, e.runId);
  }

  /** The batched load equals the single query exactly when no run with entries is named
      in two batches. */
  lemma BatchedLoadRefines(table: seq<Entry>, runIds: seq<string>, size: nat)
    requires size >= 1 && DistinctRows(table)
    ensures Loaded(table, runIds, size) == Unbatched(table, runIds) <==> NamedOnce(table, runIds, size)
  {
    var merged, single := Loaded(table, runIds, size), Unbatched(table, runIds);
    forall e: Entry
      ensures multiset(merged)[e] > 0 ==> e in table
      ensures multiset(merged)[e] == multiset(single)[e] <==> (e in table ==> BatchesWith(runIds, size, e.runId) <= 1)
    {
      SameCounts(table, runIds, size, e);
    }
    if NamedOnce(table, runIds, size) {
      assert multiset(merged) == multiset(single);
      EntryOrders();
      SortSorts(AllRows(table, runIds, size), EntryLe);
      SortSorts(Matching(table, IdSet(runIds)), EntryLe);
      RowsHaveNoTies(table, merged);
      SortedUnique(merged, single, EntryLe);
    }
  }

  lemma RowsHaveNoTies(table: seq<Entry>, entries: seq<Entry>)
    requires DistinctRows(table) && forall e :: multiset(entries)[e] > 0 ==> e in table
    ensures NoTies(entries, EntryLe)
  {
    EntryOrders();
    forall i, j | 0 <= i < |entries| && 0 <= j < |entries| && EntryLe(entries[i], entries[j])
        && EntryLe(entries[j], entries[i])
      ensures entries[i] == entries[j]
    {
      assert entries[i] in multiset(entries) && entries[j] in multiset(entries);
    }
  }

  /** Distinct run ids are enough, for every batch size. */
  lemma DistinctIdsSuffice(table: seq<Entry>, runIds: seq<string>, size: nat)
    requires size >= 1 && NoDup(runIds)
    ensures NamedOnce(table, runIds, size)
  {
    forall e | e in table ensures BatchesWith(runIds, size, e.runId) <= 1 {
      BatchesWithMember(runIds, size, e.runId);
    }
  }

  /** A run named in two batches has its entries twice. */
  lemma RepeatedRunIsLoadedTwice(e: Entry)
    ensures multiset(Loaded([e], [e.runId, e.runId], 1))[e] == 2
  {
    var ids := [e.runId, e.runId];
    assert ids[..1] == ids[1..] == [e.runId] && ids[1..][..1] == [e.runId] && ids[1..][1..] == [];
    assert BatchesWith([], 1, e.runId) == 0;
    assert BatchesWith(ids[1..], 1, e.runId) == 1;
    LoadedCounts([e], ids, 1, e);
    assert multiset([e])[e] == 1;
  }
}
