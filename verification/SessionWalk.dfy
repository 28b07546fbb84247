/** Following `next_cursor` through `search_sessions` while the table changes. */
module SessionWalk {
  import opened Common
  import opened Sql
  import opened RustText
  import opened SessionFilter
  import opened SessionSearch
  import opened TokenWalk
  import Keyset

  /** One search request; `tests` are its filter's active conditions. */
  datatype Request = Request(tests: seq<Test>, filter: Filter, limit: nat, codec: Codec)

  ghost function SearchWith(q: Request, rows: seq<Row>, token: Option<string>): Result<SessionPage> {
    Expected(rows, q.tests, q.filter, q.limit, token, q.codec)
  }

  ghost predicate WalkableRow(q: Request, s: Summary) {
    Stored(s) && InRange(q.filter.sortBy, s) && Presentable(q.codec, s, q.filter.sortBy, q.filter.direction)
  }

  /** What the rows must satisfy for their cursors to work: `id` is the primary
      key, the sort value is in range and the decoder accepts the cursor. */
  ghost predicate Walkable(q: Request, rows: seq<Row>) {
    && (forall i, j :: 0 <= i < j < |rows| ==> rows[i].s.id != rows[j].s.id)
    && (forall r :: r in rows ==> WalkableRow(q, r.s))
  }

  lemma {:induction false} MatchingFacts(rows: seq<Row>, f: SortField, tests: seq<Test>)
    ensures forall k :: k in Matching(rows, f, tests)
              <==> k.data in rows && Matches(tests, k.data) && k == Keyed(f, k.data)
    decreases |rows|
  {
    if rows != [] {
      MatchingFacts(rows[1..], f, tests);
      assert rows == [rows[0]] + rows[1..];
    }
  }

  lemma {:induction false} MatchingDistinct(rows: seq<Row>, f: SortField, tests: seq<Test>)
    requires forall i, j :: 0 <= i < j < |rows| ==> rows[i].s.id != rows[j].s.id
    ensures Keyset.DistinctIds(Matching(rows, f, tests))
    decreases |rows|
  {
    if rows != [] {
      var rest := Matching(rows[1..], f, tests);
      MatchingDistinct(rows[1..], f, tests);
      MatchingFacts(rows[1..], f, tests);
      forall i | 0 <= i < |rest|
        ensures rest[i].key.id != rows[0].s.id
      {
        assert rest[i] in rest;
        var j :| 0 <= j < |rows| - 1 && rows[1..][j] == rest[i].data;
        assert rows[j + 1] == rest[i].data;
      }
    }
  }

  /** In range, decoding a row keeps its key. */
  lemma DecodedKey(f: SortField, s: Summary)
    requires Stored(s) && InRange(f, s)
    ensures KeyOf(f, Decoded(s)) == KeyOf(f, s)
  {
  }

  /** The token of a truncated page resumes right after its last row. */
  lemma NextTokenResumes(q: Request, rows: seq<Keyset.Row<Row>>, cursor: Option<Keyset.Key>, page: Keyset.Page<Row>)
    requires RoundTrips(q.codec) && page.truncated
    requires Keyset.GoodPage(q.filter.direction, EffectiveLimit(q.limit), rows, cursor, page)
    requires forall k :: k in rows ==> k == Keyed(q.filter.sortBy, k.data) && WalkableRow(q, k.data.s)
    ensures var token := Render(page, q.filter, q.codec).nextCursor;
            token.Some? && Resolve(q.filter, q.codec, token) == Ok(page.next)
  {
    var last := page.items[|page.items| - 1];
    assert last in page.items;
    OwnCursor(q, last.data.s);
  }

  /** The cursor made from a walkable row resolves to that row's key. */
  lemma OwnCursor(q: Request, s: Summary)
    requires RoundTrips(q.codec) && WalkableRow(q, s)
    ensures Resolve(q.filter, q.codec, Some(q.codec.encode(PayloadOf(Decoded(s), q.filter.sortBy, q.filter.direction))))
         == Ok(Some(KeyOf(q.filter.sortBy, s)))
  {
    CursorRoundTrip(q.codec, s, q.filter.sortBy, q.filter.direction);
    DecodedKey(q.filter.sortBy, s);
  }

  // ---- Searching as following tokens ----

  ghost function AsSearch(q: Request): Search<seq<Row>, Row, SessionPage, Summary> {
    Search(q.filter.direction, EffectiveLimit(q.limit),
           (rows: seq<Row>) => Matching(rows, q.filter.sortBy, q.tests),
           (rows: seq<Row>, token: Option<string>) => SearchWith(q, rows, token),
           (page: Keyset.Page<Row>) => Render(page, q.filter, q.codec),
           (page: SessionPage) => page.nextCursor,
           (page: SessionPage) => page.items,
           (k: Keyset.Row<Row>) => Decoded(k.data.s))
  }

  lemma PageIsGood(q: Request, rows: seq<Row>, cursor: Option<Keyset.Key>)
    requires Walkable(q, rows)
    ensures var matching := Matching(rows, q.filter.sortBy, q.tests);
            && Keyset.DistinctIds(matching)
            && Keyset.GoodPage(q.filter.direction, EffectiveLimit(q.limit), matching, cursor,
                               Keyset.PageOf(q.filter.direction, EffectiveLimit(q.limit), matching, cursor))
            && forall k :: k in matching ==> k == Keyed(q.filter.sortBy, k.data) && WalkableRow(q, k.data.s)
  {
    MatchingFacts(rows, q.filter.sortBy, q.tests);
    MatchingDistinct(rows, q.filter.sortBy, q.tests);
    Keyset.PageIsGood(q.filter.direction, EffectiveLimit(q.limit), Matching(rows, q.filter.sortBy, q.tests), cursor);
  }

  /** A token that resolves to a key is answered with the page after that key. */
  lemma TokenAnswered(q: Request, token: Option<string>, cursor: Option<Keyset.Key>, rows: seq<Row>)
    requires CheckRanges(q.filter).Ok? && Resolve(q.filter, q.codec, token) == Ok(cursor)
    ensures SearchWith(q, rows, token) == Ok(Render(PageAt(AsSearch(q), rows, cursor), q.filter, q.codec))
  {
  }

  lemma TokenOfPage(q: Request, rows: seq<Row>, cursor: Option<Keyset.Key>)
    requires RoundTrips(q.codec) && Walkable(q, rows)
    ensures var page := PageAt(AsSearch(q), rows, cursor);
            var token := Render(page, q.filter, q.codec).nextCursor;
            && (token.Some? <==> page.truncated)
            && (page.truncated ==> Resolve(q.filter, q.codec, token) == Ok(page.next))
  {
    var page := PageAt(AsSearch(q), rows, cursor);
    PageIsGood(q, rows, cursor);
    if page.truncated {
      NextTokenResumes(q, Matching(rows, q.filter.sortBy, q.tests), cursor, page);
    }
  }

  /** A page of a walkable table is shown item by item, and its token asks for the next page. */
  lemma PageResumes(q: Request, rows: seq<Row>, cursor: Option<Keyset.Key>)
    requires RoundTrips(q.codec) && Walkable(q, rows) && CheckRanges(q.filter).Ok?
    ensures ResumesAfter(AsSearch(q), PageAt(AsSearch(q), rows, cursor))
  {
    var s := AsSearch(q);
    var page := PageAt(s, rows, cursor);
    TokenOfPage(q, rows, cursor);
    var shown := s.render(page);
    assert shown == Render(page, q.filter, q.codec) && s.token(shown) == shown.nextCursor;
    assert Summaries(page.items) == Shown(s, page.items);
    if page.truncated {
      forall table
        ensures s.answer(table, s.token(shown)) == Ok(s.render(PageAt(s, table, page.next)))
      {
        TokenAnswered(q, shown.nextCursor, page.next, table);
      }
    }
  }

  lemma {:induction false} WalkResumable(q: Request, w: Walk<seq<Row>, SessionPage>)
    requires RoundTrips(q.codec) && IsTokenWalk(AsSearch(q), w) && AllWalkable(q, Tables(w))
    ensures AllResumable(AsSearch(q), w)
    decreases w
  {
    assert Walkable(q, w.table) && CheckRanges(q.filter).Ok?;
    PageIsGood(q, w.table, None);
    forall cursor
      ensures ResumesAfter(AsSearch(q), PageAt(AsSearch(q), w.table, cursor))
    {
      PageResumes(q, w.table, cursor);
    }
    if w.Next? {
      assert forall t :: t in Tables(w.before) ==> t in Tables(w);
      WalkResumable(q, w.before);
    }
  }

  ghost predicate AllWalkable(q: Request, tables: seq<seq<Row>>) {
    forall t :: t in tables ==> Walkable(q, t)
  }

  // ---- What a walk of searches delivers ----

  /** In every table the row with this id matches and has this sort key; its other columns
      and its detail may change. */
  ghost predicate KeepsKey(q: Request, tables: seq<seq<Row>>, id: string, key: Keyset.Key) {
    forall t :: t in tables ==> HasMatch(q, t, id, key)
  }

  ghost predicate HasMatch(q: Request, rows: seq<Row>, id: string, key: Keyset.Key) {
    exists r :: r in rows && r.s.id == id && Matches(q.tests, r) && KeyOf(q.filter.sortBy, r.s) == key
  }

  ghost predicate ExactlyOnce(all: seq<Summary>, id: string) {
    exists i :: 0 <= i < |all| && all[i].id == id && forall j :: 0 <= j < |all| && all[j].id == id ==> j == i
  }

  /** What a finished walk must return: strictly increasing sort keys; only matching rows of
      some table state; exactly once every session that matches and keeps its sort key
      throughout; and every matching row that stays as it is. */
  ghost predicate DeliveredOnce(q: Request, tables: seq<seq<Row>>, all: seq<Summary>) {
    && (forall i, j :: 0 <= i < j < |all| ==>
          Keyset.Precedes(q.filter.direction, KeyOf(q.filter.sortBy, all[i]), KeyOf(q.filter.sortBy, all[j])))
    && (forall s :: s in all ==>
          exists t, r :: t in tables && r in t && Matches(q.tests, r) && s == Decoded(r.s))
    && (forall id, key :: KeepsKey(q, tables, id, key) ==> ExactlyOnce(all, id))
    && (forall r :: (forall t :: t in tables ==> r in t) && Matches(q.tests, r) ==> Decoded(r.s) in all)
  }

  /** Searching page after page until no cursor comes back, while rows are inserted,
      deleted and updated between the searches, delivers exactly once. */
  lemma {:induction false} SearchDeliversOnce(q: Request, w: Walk<seq<Row>, SessionPage>)
    requires RoundTrips(q.codec) && IsTokenWalk(AsSearch(q), w) && AllWalkable(q, Tables(w))
    requires w.result.nextCursor.None?
    ensures DeliveredOnce(q, Tables(w), AllItems(AsSearch(q), w))
  {
    WalkResumable(q, w);
    var rows := FinishedWalk(AsSearch(q), w);
    SnapshotsOfTables(AsSearch(q), w);
    assert Shown(AsSearch(q), rows) == Summaries(rows);
    RowsToSummaries(q, Tables(w), Snapshots(AsSearch(q), w), rows);
  }

  ghost predicate SnapshotsOf(q: Request, tables: seq<seq<Row>>, snaps: seq<seq<Keyset.Row<Row>>>) {
    && |snaps| == |tables|
    && forall i :: 0 <= i < |tables| ==> snaps[i] == Matching(tables[i], q.filter.sortBy, q.tests)
  }

  /** Each delivered row is a matching row of some table, and shows its key. */
  ghost predicate FromTables(q: Request, tables: seq<seq<Row>>, k: Keyset.Row<Row>) {
    && k == Keyed(q.filter.sortBy, k.data) && Matches(q.tests, k.data)
    && KeyOf(q.filter.sortBy, Decoded(k.data.s)) == k.key
    && exists t :: t in tables && k.data in t
  }

  lemma RowsToSummaries(q: Request, tables: seq<seq<Row>>, snaps: seq<seq<Keyset.Row<Row>>>,
                        rows: seq<Keyset.Row<Row>>)
    requires AllWalkable(q, tables) && SnapshotsOf(q, tables, snaps) && tables != []
    requires Keyset.Complete(q.filter.direction, snaps, rows)
    ensures DeliveredOnce(q, tables, Summaries(rows))
  {
    RowsFromTables(q, tables, snaps, rows);
    forall id, key | KeepsKey(q, tables, id, key)
      ensures ExactlyOnce(Summaries(rows), id)
    {
      KeptOnce(q, tables, snaps, rows, id, key);
    }
    forall r | (forall t :: t in tables ==> r in t) && Matches(q.tests, r)
      ensures Decoded(r.s) in Summaries(rows)
    {
      ThroughoutIsStable(q, tables, snaps, r);
      var i :| 0 <= i < |rows| && rows[i] == Keyed(q.filter.sortBy, r);
      assert Summaries(rows)[i] == Decoded(r.s);
    }
  }

  lemma RowsFromTables(q: Request, tables: seq<seq<Row>>, snaps: seq<seq<Keyset.Row<Row>>>,
                       rows: seq<Keyset.Row<Row>>)
    requires AllWalkable(q, tables) && SnapshotsOf(q, tables, snaps)
    requires forall x :: x in rows ==> exists i :: 0 <= i < |snaps| && x in snaps[i]
    ensures forall i :: 0 <= i < |rows| ==> FromTables(q, tables, rows[i])
  {
    forall i | 0 <= i < |rows|
      ensures FromTables(q, tables, rows[i])
    {
      assert rows[i] in rows;
      var n :| 0 <= n < |snaps| && rows[i] in snaps[n];
      MatchingFacts(tables[n], q.filter.sortBy, q.tests);
      assert tables[n] in tables;
      DecodedKey(q.filter.sortBy, rows[i].data.s);
    }
  }

  lemma ThroughoutIsStable(q: Request, tables: seq<seq<Row>>, snaps: seq<seq<Keyset.Row<Row>>>, r: Row)
    requires SnapshotsOf(q, tables, snaps) && (forall t :: t in tables ==> r in t) && Matches(q.tests, r)
    ensures Keyset.Stable(snaps, Keyed(q.filter.sortBy, r))
  {
    forall i | 0 <= i < |snaps|
      ensures Keyed(q.filter.sortBy, r) in snaps[i]
    {
      assert tables[i] in tables;
      MatchingFacts(tables[i], q.filter.sortBy, q.tests);
    }
  }

  lemma KeptIsStable(q: Request, tables: seq<seq<Row>>, snaps: seq<seq<Keyset.Row<Row>>>, id: string, key: Keyset.Key)
    requires SnapshotsOf(q, tables, snaps) && KeepsKey(q, tables, id, key)
    ensures Keyset.KeyStable(snaps, key)
  {
    forall i | 0 <= i < |snaps|
      ensures Keyset.HasKey(snaps[i], key)
    {
      assert tables[i] in tables && HasMatch(q, tables[i], id, key);
      var r :| r in tables[i] && r.s.id == id && Matches(q.tests, r) && KeyOf(q.filter.sortBy, r.s) == key;
      MatchingFacts(tables[i], q.filter.sortBy, q.tests);
      assert Keyed(q.filter.sortBy, r) in snaps[i];
    }
  }

  /** A session that keeps its key is delivered, and nothing else delivered has its id. */
  lemma KeptOnce(q: Request, tables: seq<seq<Row>>, snaps: seq<seq<Keyset.Row<Row>>>, rows: seq<Keyset.Row<Row>>,
                 id: string, key: Keyset.Key)
    requires AllWalkable(q, tables) && SnapshotsOf(q, tables, snaps) && KeepsKey(q, tables, id, key)
    requires tables != []
    requires Keyset.Complete(q.filter.direction, snaps, rows)
    requires forall i :: 0 <= i < |rows| ==> FromTables(q, tables, rows[i])
    ensures ExactlyOnce(Summaries(rows), id)
  {
    KeptIsStable(q, tables, snaps, id, key);
    var x :| x in rows && x.key == key;
    var i :| 0 <= i < |rows| && rows[i] == x;
    assert tables[0] in tables && HasMatch(q, tables[0], id, key);
    assert key.id == id;
    assert Summaries(rows)[i].id == id;
    forall j | 0 <= j < |rows| && Summaries(rows)[j].id == id
      ensures j == i
    {
      SameIdSameKey(q, tables, rows[j], id, key);
      Keyset.PrecedesIrreflexive(q.filter.direction, key);
    }
  }

  lemma SameIdSameKey(q: Request, tables: seq<seq<Row>>, k: Keyset.Row<Row>, id: string, key: Keyset.Key)
    requires AllWalkable(q, tables) && KeepsKey(q, tables, id, key) && FromTables(q, tables, k) && k.data.s.id == id
    ensures k.key == key
  {
    var t :| t in tables && k.data in t;
    assert Walkable(q, t) && HasMatch(q, t, id, key);
  }

  /** Whatever happens to the table, a walk over rows whose sort keys are in `keys` makes at
      most |keys| / limit searches before its last one. */
  lemma {:induction false} SearchTerminates(q: Request, w: Walk<seq<Row>, SessionPage>, keys: set<Keyset.Key>)
    requires RoundTrips(q.codec) && IsTokenWalk(AsSearch(q), w) && AllWalkable(q, Tables(w))
    requires forall t, r :: t in Tables(w) && r in t ==> KeyOf(q.filter.sortBy, r.s) in keys
    ensures (|Tables(w)| - 1) * EffectiveLimit(q.limit) <= |keys|
  {
    var tables, snaps := Tables(w), Snapshots(AsSearch(q), w);
    WalkResumable(q, w);
    SnapshotsOfTables(AsSearch(q), w);
    forall i, x: Keyset.Row<Row> | 0 <= i < |snaps| && x in snaps[i]
      ensures x.key in keys
    {
      MatchingFacts(tables[i], q.filter.sortBy, q.tests);
      assert tables[i] in tables;
    }
    WalkEnds(AsSearch(q), w, keys);
  }

  // ---- Why the rows must be in range ----

  function Bare(id: string, duration: int): Row {
    Row(Summary(0, id, "", "", "", "", "", "", "t", "", duration, 0, 0, "", None, None, None), None)
  }

  /** Two rows with negative durations, sorted by duration descending, one per
      page: the second page is the first page again, and so is every later one. */
  lemma NegativeDurationsNeverAdvance(codec: Codec, f: Filter)
    requires RoundTrips(codec) && CheckRanges(f).Ok? && f.sortBy.ByDuration? && f.direction.Desc?
    requires Presentable(codec, Bare("a", -1).s, ByDuration, Keyset.Desc)
    ensures var rows := [Bare("a", -1), Bare("b", -2)];
            var first := Expected(rows, [], f, 1, None, codec);
            && first.Ok? && first.value.truncated && first.value.nextCursor.Some?
            && Expected(rows, [], f, 1, first.value.nextCursor, codec) == first
  {
    var rows := [Bare("a", -1), Bare("b", -2)];
    var a, b := Keyed(ByDuration, rows[0]), Keyed(ByDuration, rows[1]);
    MatchingTwo(rows[0], rows[1]);
    var token := codec.encode(PayloadOf(Decoded(rows[0].s), ByDuration, Keyset.Desc));
    CursorRoundTrip(codec, rows[0].s, ByDuration, Keyset.Desc);
    var cursor := CursorKey(PayloadOf(Decoded(rows[0].s), ByDuration, Keyset.Desc));
    assert cursor.value == 0;
    assert Resolve(f, codec, Some(token)) == Ok(Some(cursor));
    OnePage(a, b, None);
    OnePage(a, b, Some(cursor));
    assert Summaries([a]) == [Decoded(rows[0].s)];
  }

  lemma MatchingTwo(x: Row, y: Row)
    ensures Matching([x, y], ByDuration, []) == [Keyed(ByDuration, x), Keyed(ByDuration, y)]
  {
    assert [x, y][1..] == [y] && [y][1..] == [];
    assert Matching([y], ByDuration, []) == [Keyed(ByDuration, y)];
  }

  lemma OnePage(a: Keyset.Row<Row>, b: Keyset.Row<Row>, cursor: Option<Keyset.Key>)
    requires a.key.value == -1 && b.key.value == -2 && (cursor.Some? ==> cursor.value.value == 0)
    ensures Keyset.PageOf(Keyset.Desc, 1, [a, b], cursor) == Keyset.Page([a], Some(a.key), true)
  {
    assert [a, b][1..] == [b] && [b][1..] == [];
    assert Keyset.Select(Keyset.Desc, [b], cursor) == [b];
    assert Keyset.Select(Keyset.Desc, [a, b], cursor) == [a, b];
    assert Keyset.OrderBy(Keyset.Desc, [b]) == [b];
    assert Keyset.OrderBy(Keyset.Desc, [a, b]) == [a, b];
  }

  // ---- What upsert_session stores ----

  /** The numeric columns `upsert_session` writes: a saturated duration, the size
      cast to i64, the 16-bit status. */
  function Written(durationMs: nat, sizeBytes: nat, statusCode: nat): (int, int, int) {
    (SaturateI64(durationMs), AsI64(sizeBytes), AsI32(statusCode))
  }

  /** Stored durations and statuses are always in range; a stored size is in range
      exactly when it is below 2^63. */
  lemma WrittenInRange(durationMs: nat, sizeBytes: nat, statusCode: nat, s: Summary)
    requires sizeBytes < U64_BOUND && statusCode < 65536
    requires (s.durationMs, s.sizeBytes, s.statusCode) == Written(durationMs, sizeBytes, statusCode)
    ensures Stored(s) && InRange(ByDuration, s) && InRange(ByStatus, s)
    ensures InRange(BySize, s) <==> sizeBytes < I64_BOUND
  {
  }
}
