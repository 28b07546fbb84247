/** Keyset pagination: pages of `limit` rows cut from a `LIMIT limit + 1` query,
    continued after the key of the last delivered row. */
module Keyset {
  import opened Common
  import TextOrder

  datatype Direction = Asc | Desc

  /** The ORDER BY tuple. A sort that has no numeric column uses one constant value. */
  datatype Key = Key(value: int, at: string, id: string)

  datatype Row<D> = Row(key: Key, data: D)

  datatype Page<D> = Page(items: seq<Row<D>>, next: Option<Key>, truncated: bool)

  predicate KeyLess(a: Key, b: Key) {
    || a.value < b.value
    || (a.value == b.value && (TextOrder.Less(a.at, b.at) || (a.at == b.at && TextOrder.Less(a.id, b.id))))
  }

  predicate Precedes(d: Direction, a: Key, b: Key) {
    if d.Asc? then KeyLess(a, b) else KeyLess(b, a)
  }

  lemma KeyLessTransitive(a: Key, b: Key, c: Key)
    requires KeyLess(a, b) && KeyLess(b, c)
    ensures KeyLess(a, c)
  {
    if TextOrder.Less(a.at, b.at) && TextOrder.Less(b.at, c.at) {
      TextOrder.Transitive(a.at, b.at, c.at);
    }
    if TextOrder.Less(a.id, b.id) && TextOrder.Less(b.id, c.id) {
      TextOrder.Transitive(a.id, b.id, c.id);
    }
  }

  lemma PrecedesTransitive(d: Direction, a: Key, b: Key, c: Key)
    requires Precedes(d, a, b) && Precedes(d, b, c)
    ensures Precedes(d, a, c)
  {
    if d.Asc? {
      KeyLessTransitive(a, b, c);
    } else {
      KeyLessTransitive(c, b, a);
    }
  }

  lemma PrecedesIrreflexive(d: Direction, a: Key)
    ensures !Precedes(d, a, a)
  {
    TextOrder.Irreflexive(a.at);
    TextOrder.Irreflexive(a.id);
  }

  lemma PrecedesTotal(d: Direction, a: Key, b: Key)
    ensures Precedes(d, a, b) || a == b || Precedes(d, b, a)
  {
    TextOrder.Total(a.at, b.at);
    TextOrder.Total(a.id, b.id);
  }

  // ---- One query ----

  /** `id` is the primary key. */
  predicate DistinctIds<D>(rows: seq<Row<D>>) {
    forall i, j :: 0 <= i < j < |rows| ==> rows[i].key.id != rows[j].key.id
  }

  ghost predicate Ordered<D>(d: Direction, rows: seq<Row<D>>) {
    forall i, j :: 0 <= i < j < |rows| ==> Precedes(d, rows[i].key, rows[j].key)
  }

  predicate Admits(d: Direction, cursor: Option<Key>, k: Key) {
    cursor.Some? ==> Precedes(d, cursor.value, k)
  }

  function Select<D(!new)>(d: Direction, rows: seq<Row<D>>, cursor: Option<Key>): (r: seq<Row<D>>)
    ensures forall x :: x in r <==> x in rows && Admits(d, cursor, x.key)
    ensures DistinctIds(rows) ==> DistinctIds(r)
  {
    if rows == [] then []
    else
      var rest := Select(d, rows[1..], cursor);
      if Admits(d, cursor, rows[0].key) then [rows[0]] + rest else rest
  }

  function Insert<D(!new)>(d: Direction, row: Row<D>, rows: seq<Row<D>>): (r: seq<Row<D>>)
    ensures |r| == |rows| + 1
    ensures forall x :: x in r <==> x == row || x in rows
  {
    if rows == [] || Precedes(d, row.key, rows[0].key) then [row] + rows
    else [rows[0]] + Insert(d, row, rows[1..])
  }

  function OrderBy<D(!new)>(d: Direction, rows: seq<Row<D>>): (r: seq<Row<D>>)
    ensures |r| == |rows|
    ensures forall x :: x in r <==> x in rows
  {
    if rows == [] then [] else Insert(d, rows[0], OrderBy(d, rows[1..]))
  }

  lemma {:induction false} InsertOrdered<D(!new)>(d: Direction, row: Row<D>, rows: seq<Row<D>>)
    requires Ordered(d, rows) && forall x :: x in rows ==> x.key.id != row.key.id
    ensures Ordered(d, Insert(d, row, rows))
    decreases |rows|
  {
    if rows != [] {
      PrecedesTotal(d, row.key, rows[0].key);
      if Precedes(d, row.key, rows[0].key) {
        forall j | 0 < j < |rows|
          ensures Precedes(d, row.key, rows[j].key)
        {
          PrecedesTransitive(d, row.key, rows[0].key, rows[j].key);
        }
      } else {
        InsertOrdered(d, row, rows[1..]);
        forall x | x in Insert(d, row, rows[1..])
          ensures Precedes(d, rows[0].key, x.key)
        {
          if x != row {
            HeadPrecedes(d, rows, x);
          } else {
            assert rows[0] in rows;
          }
        }
      }
    }
  }

  lemma HeadPrecedes<D(!new)>(d: Direction, rows: seq<Row<D>>, x: Row<D>)
    requires Ordered(d, rows) && rows != [] && x in rows[1..]
    ensures Precedes(d, rows[0].key, x.key)
  {
    var j :| 0 <= j < |rows| - 1 && rows[1..][j] == x;
    assert rows[j + 1] == x;
  }

  lemma {:induction false} OrderByOrdered<D(!new)>(d: Direction, rows: seq<Row<D>>)
    requires DistinctIds(rows)
    ensures Ordered(d, OrderBy(d, rows))
    decreases |rows|
  {
    if rows != [] {
      OrderByOrdered(d, rows[1..]);
      InsertOrdered(d, rows[0], OrderBy(d, rows[1..]));
    }
  }

  /** The page cut: ask for one row more than the limit, keep `limit` of them. */
  function PageOf<D(!new)>(d: Direction, limit: nat, rows: seq<Row<D>>, cursor: Option<Key>): Page<D>
    requires limit >= 1
  {
    var matching := OrderBy(d, Select(d, rows, cursor));
    var got := matching[..Min(limit + 1, |matching|)];
    if |got| > limit then Page(got[..limit], Some(got[limit - 1].key), true) else Page(got, None, false)
  }

  /** One page: ordered rows of this snapshot beyond the cursor, and every other
      matching row lies beyond the new cursor; `truncated` says exactly whether
      such a row exists. */
  ghost predicate GoodPage<D(!new)>(d: Direction, limit: nat, rows: seq<Row<D>>, cursor: Option<Key>, p: Page<D>) {
    && Ordered(d, p.items)
    && (forall x :: x in p.items ==> x in rows && Admits(d, cursor, x.key))
    && (p.truncated <==> p.next.Some?)
    && (p.truncated <==> exists x :: x in rows && Admits(d, cursor, x.key) && x !in p.items)
    && (p.truncated ==> |p.items| == limit > 0 && p.next.value == p.items[limit - 1].key)
    && (p.truncated ==> forall x :: x in rows && Admits(d, cursor, x.key) && x !in p.items
                          ==> Precedes(d, p.next.value, x.key))
  }

  lemma PageIsGood<D(!new)>(d: Direction, limit: nat, rows: seq<Row<D>>, cursor: Option<Key>)
    requires limit >= 1 && DistinctIds(rows)
    ensures GoodPage(d, limit, rows, cursor, PageOf(d, limit, rows, cursor))
  {
    var matching := OrderBy(d, Select(d, rows, cursor));
    OrderByOrdered(d, Select(d, rows, cursor));
    var p := PageOf(d, limit, rows, cursor);
    if |matching| > limit {
      assert p.items == matching[..limit] && p.next == Some(matching[limit - 1].key);
      CutBeyond(d, matching, limit);
      assert matching[limit] in matching;
    } else {
      assert p.items == matching;
    }
  }

  lemma CutBeyond<D(!new)>(d: Direction, rows: seq<Row<D>>, n: nat)
    requires Ordered(d, rows) && 1 <= n < |rows|
    ensures forall x :: x in rows && x !in rows[..n] ==> Precedes(d, rows[n - 1].key, x.key)
    ensures rows[n] !in rows[..n]
  {
    forall x | x in rows && x !in rows[..n]
      ensures Precedes(d, rows[n - 1].key, x.key)
    {
      var j :| 0 <= j < |rows| && rows[j] == x;
      assert rows[..n] + rows[n..] == rows;
    }
    forall i | 0 <= i < n
      ensures rows[i] != rows[n]
    {
      PrecedesIrreflexive(d, rows[i].key);
    }
  }

  // ---- Following the cursor ----

  /** One page per snapshot; each page but the first continues after its predecessor. */
  ghost predicate IsWalk<D(!new)>(d: Direction, limit: nat, snapshots: seq<seq<Row<D>>>, pages: seq<Page<D>>)
    requires limit >= 1
    decreases |pages|
  {
    && |pages| == |snapshots| > 0
    && var n := |pages| - 1;
    && DistinctIds(snapshots[n])
    && pages[n] == PageOf(d, limit, snapshots[n], Cursor(pages))
    && (n > 0 ==> pages[n - 1].truncated && IsWalk(d, limit, snapshots[..n], pages[..n]))
  }

  /** The cursor with which the last page was requested. */
  ghost function Cursor<D>(pages: seq<Page<D>>): Option<Key>
    requires pages != []
  {
    if |pages| == 1 then None else pages[|pages| - 2].next
  }

  ghost function Delivered<D>(pages: seq<Page<D>>): seq<Row<D>> {
    if pages == [] then [] else Delivered(pages[..|pages| - 1]) + pages[|pages| - 1].items
  }

  ghost predicate HasKey<D(!new)>(rows: seq<Row<D>>, k: Key) {
    exists x :: x in rows && x.key == k
  }

  /** Every snapshot has a row with this key; the rest of the row may change. */
  ghost predicate KeyStable<D(!new)>(snapshots: seq<seq<Row<D>>>, k: Key) {
    forall i :: 0 <= i < |snapshots| ==> HasKey(snapshots[i], k)
  }

  /** Present, with the same key and data, in every snapshot. */
  ghost predicate Stable<D(!new)>(snapshots: seq<seq<Row<D>>>, r: Row<D>) {
    forall i :: 0 <= i < |snapshots| ==> r in snapshots[i]
  }

  ghost predicate AllUpTo<D(!new)>(d: Direction, rows: seq<Row<D>>, k: Key) {
    forall x :: x in rows ==> x.key == k || Precedes(d, x.key, k)
  }

  lemma ExtendWalk<D(!new)>(d: Direction, limit: nat, snapshots: seq<seq<Row<D>>>, pages: seq<Page<D>>,
                            rows: seq<Row<D>>)
    requires limit >= 1 && IsWalk(d, limit, snapshots, pages) && pages[|pages| - 1].truncated && DistinctIds(rows)
    ensures var page := PageOf(d, limit, rows, pages[|pages| - 1].next);
            && IsWalk(d, limit, snapshots + [rows], pages + [page])
            && Delivered(pages + [page]) == Delivered(pages) + page.items
  {
    var page := PageOf(d, limit, rows, pages[|pages| - 1].next);
    assert (snapshots + [rows])[..|pages|] == snapshots && (pages + [page])[..|pages|] == pages;
  }

  /** The same walk, knowing of each page only that it is a good page of distinct rows. */
  ghost predicate GoodWalk<D(!new)>(d: Direction, limit: nat, snapshots: seq<seq<Row<D>>>, pages: seq<Page<D>>)
    decreases |pages|
  {
    && |pages| == |snapshots| > 0
    && var n := |pages| - 1;
    && DistinctIds(snapshots[n])
    && GoodPage(d, limit, snapshots[n], Cursor(pages), pages[n])
    && (n > 0 ==> pages[n - 1].truncated && GoodWalk(d, limit, snapshots[..n], pages[..n]))
  }

  lemma {:induction false} WalkIsGood<D(!new)>(d: Direction, limit: nat, snapshots: seq<seq<Row<D>>>,
                                               pages: seq<Page<D>>)
    requires limit >= 1 && IsWalk(d, limit, snapshots, pages)
    ensures GoodWalk(d, limit, snapshots, pages)
    decreases |pages|
  {
    var n := |pages| - 1;
    PageIsGood(d, limit, snapshots[n], Cursor(pages));
    if n > 0 {
      WalkIsGood(d, limit, snapshots[..n], pages[..n]);
    }
  }

  /** What has been delivered so far is ordered and lies up to the next cursor. */
  lemma {:induction false} WalkIsOrdered<D(!new)>(d: Direction, limit: nat, snapshots: seq<seq<Row<D>>>,
                                                  pages: seq<Page<D>>)
    requires GoodWalk(d, limit, snapshots, pages)
    ensures var last := pages[|pages| - 1];
            && Ordered(d, Delivered(pages))
            && (last.next.Some? ==> AllUpTo(d, Delivered(pages), last.next.value))
            && |Delivered(pages)| >= (|pages| - 1) * limit + (if last.truncated then limit else 0)
    decreases |pages|
  {
    var n := |pages| - 1;
    var last := pages[n];
    var cursor := Cursor(pages);
    var before := Delivered(pages[..n]);
    if n > 0 {
      WalkIsOrdered(d, limit, snapshots[..n], pages[..n]);
      Appended(d, before, cursor.value, last.items);
      assert n * limit == (n - 1) * limit + limit;
    } else {
      assert before + last.items == last.items;
    }
    if last.next.Some? {
      UpToNext(d, before, cursor, last.items, last.next.value);
    }
  }

  /** A key that is there throughout has been delivered or lies beyond the next cursor. */
  lemma {:induction false} KeyNotSkipped<D(!new)>(d: Direction, limit: nat, snapshots: seq<seq<Row<D>>>,
                                            pages: seq<Page<D>>, k: Key)
    requires GoodWalk(d, limit, snapshots, pages) && KeyStable(snapshots, k)
    ensures var last := pages[|pages| - 1];
            HasKey(Delivered(pages), k) || (last.next.Some? && Precedes(d, last.next.value, k))
    decreases |pages|
  {
    var n := |pages| - 1;
    assert HasKey(snapshots[n], k);
    var x :| x in snapshots[n] && x.key == k;
    if n > 0 {
      KeyNotSkipped(d, limit, snapshots[..n], pages[..n], k);
      if HasKey(Delivered(pages[..n]), k) {
        var y :| y in Delivered(pages[..n]) && y.key == k;
        assert y in Delivered(pages);
      }
    }
    if x in pages[n].items {
      assert x in Delivered(pages);
    }
  }

  lemma {:induction false} DeliveredFromTable<D(!new)>(d: Direction, limit: nat, snapshots: seq<seq<Row<D>>>,
                                                 pages: seq<Page<D>>, x: Row<D>)
    requires GoodWalk(d, limit, snapshots, pages) && x in Delivered(pages)
    ensures exists i :: 0 <= i < |snapshots| && x in snapshots[i]
    decreases |pages|
  {
    var n := |pages| - 1;
    if x in pages[n].items {
      assert x in snapshots[n];
    } else {
      DeliveredFromTable(d, limit, snapshots[..n], pages[..n], x);
      var i :| 0 <= i < n && x in snapshots[..n][i];
      assert x in snapshots[i];
    }
  }

  lemma Appended<D(!new)>(d: Direction, before: seq<Row<D>>, k: Key, items: seq<Row<D>>)
    requires Ordered(d, before) && Ordered(d, items) && AllUpTo(d, before, k)
    requires forall x :: x in items ==> Precedes(d, k, x.key)
    ensures Ordered(d, before + items)
  {
    forall i, j | 0 <= i < |before| && 0 <= j < |items|
      ensures Precedes(d, before[i].key, items[j].key)
    {
      assert before[i] in before && items[j] in items;
      if before[i].key != k {
        PrecedesTransitive(d, before[i].key, k, items[j].key);
      }
    }
  }

  lemma UpToNext<D(!new)>(d: Direction, before: seq<Row<D>>, cursor: Option<Key>, items: seq<Row<D>>, next: Key)
    requires Ordered(d, items) && items != [] && next == items[|items| - 1].key
    requires forall x :: x in items ==> Admits(d, cursor, x.key)
    requires if cursor.Some? then AllUpTo(d, before, cursor.value) else before == []
    ensures AllUpTo(d, before + items, next)
  {
    forall x | x in before + items
      ensures x.key == next || Precedes(d, x.key, next)
    {
      if x in before {
        assert items[|items| - 1] in items;
        if x.key != cursor.value {
          PrecedesTransitive(d, x.key, cursor.value, next);
        }
      } else {
        var i :| 0 <= i < |items| && items[i] == x;
      }
    }
  }

  /** In strictly increasing key order, so no key twice; only rows of some snapshot; every
      key that was there throughout; and every row that was there unchanged. */
  ghost predicate Complete<D(!new)>(d: Direction, snapshots: seq<seq<Row<D>>>, rows: seq<Row<D>>) {
    && Ordered(d, rows)
    && (forall x :: x in rows ==> exists i :: 0 <= i < |snapshots| && x in snapshots[i])
    && (forall k :: KeyStable(snapshots, k) ==> HasKey(rows, k))
    && (forall r :: Stable(snapshots, r) ==> r in rows)
  }

  /** Following the cursor to its end, while rows are inserted, deleted and updated
      between pages, delivers completely. */
  lemma WalkDeliversOnce<D(!new)>(d: Direction, limit: nat, snapshots: seq<seq<Row<D>>>, pages: seq<Page<D>>)
    requires limit >= 1 && IsWalk(d, limit, snapshots, pages) && !pages[|pages| - 1].truncated
    ensures Complete(d, snapshots, Delivered(pages)) && NoDup(Delivered(pages))
  {
    WalkIsGood(d, limit, snapshots, pages);
    WalkIsOrdered(d, limit, snapshots, pages);
    OrderedNoDup(d, Delivered(pages));
    forall x | x in Delivered(pages)
      ensures exists i :: 0 <= i < |snapshots| && x in snapshots[i]
    {
      DeliveredFromTable(d, limit, snapshots, pages, x);
    }
    forall k | KeyStable(snapshots, k)
      ensures HasKey(Delivered(pages), k)
    {
      KeyNotSkipped(d, limit, snapshots, pages, k);
    }
    forall r | Stable(snapshots, r)
      ensures r in Delivered(pages)
    {
      KeyNotSkipped(d, limit, snapshots, pages, r.key);
      var x :| x in Delivered(pages) && x.key == r.key;
      SameKeySameRow(d, limit, snapshots, pages, x, r);
    }
  }

  /** Ids are unique in each snapshot, so a delivered row with the key of a row that was
      there unchanged is that row. */
  lemma SameKeySameRow<D(!new)>(d: Direction, limit: nat, snapshots: seq<seq<Row<D>>>, pages: seq<Page<D>>,
                          x: Row<D>, r: Row<D>)
    requires GoodWalk(d, limit, snapshots, pages) && Stable(snapshots, r)
    requires x in Delivered(pages) && x.key == r.key
    ensures x == r
  {
    DeliveredFromTable(d, limit, snapshots, pages, x);
    var i :| 0 <= i < |snapshots| && x in snapshots[i];
    SnapshotDistinct(d, limit, snapshots, pages, i);
    assert r in snapshots[i];
  }

  lemma {:induction false} SnapshotDistinct<D(!new)>(d: Direction, limit: nat, snapshots: seq<seq<Row<D>>>,
                                               pages: seq<Page<D>>, i: nat)
    requires GoodWalk(d, limit, snapshots, pages) && i < |snapshots|
    ensures DistinctIds(snapshots[i])
    decreases |pages|
  {
    var n := |pages| - 1;
    if i < n {
      SnapshotDistinct(d, limit, snapshots[..n], pages[..n], i);
    }
  }

  lemma OrderedNoDup<D(!new)>(d: Direction, rows: seq<Row<D>>)
    requires Ordered(d, rows)
    ensures NoDup(rows)
  {
    forall i, j | 0 <= i < j < |rows|
      ensures rows[i] != rows[j]
    {
      PrecedesIrreflexive(d, rows[i].key);
    }
  }

  /** However the snapshots change, a walk over rows with keys from `universe` has at
      most |universe| / limit pages before the last one. */
  lemma WalkTerminates<D(!new)>(d: Direction, limit: nat, snapshots: seq<seq<Row<D>>>, pages: seq<Page<D>>,
                          universe: set<Key>)
    requires limit >= 1 && IsWalk(d, limit, snapshots, pages)
    requires forall i, x :: 0 <= i < |snapshots| && x in snapshots[i] ==> x.key in universe
    ensures (|pages| - 1) * limit <= |universe|
  {
    WalkIsGood(d, limit, snapshots, pages);
    WalkIsOrdered(d, limit, snapshots, pages);
    var rows := Delivered(pages);
    forall x | x in rows
      ensures x.key in universe
    {
      DeliveredFromTable(d, limit, snapshots, pages, x);
    }
    KeysFit(d, rows, universe);
  }

  lemma KeysFit<D(!new)>(d: Direction, rows: seq<Row<D>>, universe: set<Key>)
    requires Ordered(d, rows) && forall x :: x in rows ==> x.key in universe
    ensures |rows| <= |universe|
  {
    var keys := seq(|rows|, i requires 0 <= i < |rows| => rows[i].key);
    forall i, j | 0 <= i < j < |rows|
      ensures keys[i] != keys[j]
    {
      PrecedesIrreflexive(d, rows[i].key);
    }
    forall k | k in keys
      ensures k in universe
    {
      var i :| 0 <= i < |rows| && keys[i] == k;
      assert rows[i] in rows;
    }
    DistinctFit(keys, universe);
  }

  lemma {:induction false} DistinctFit<T>(s: seq<T>, u: set<T>)
    requires NoDup(s) && forall x :: x in s ==> x in u
    ensures |s| <= |u|
    decreases |s|
  {
    if s != [] {
      DistinctFit(s[1..], u - {s[0]});
    }
  }

  /** On an unchanging table, following the cursor is the same as the unpaged query. */
  lemma WalkIsWholeQuery<D(!new)>(d: Direction, limit: nat, rows: seq<Row<D>>, snapshots: seq<seq<Row<D>>>,
                                  pages: seq<Page<D>>)
    requires limit >= 1 && IsWalk(d, limit, snapshots, pages) && !pages[|pages| - 1].truncated
    requires forall i :: 0 <= i < |snapshots| ==> snapshots[i] == rows
    ensures Delivered(pages) == OrderBy(d, rows)
  {
    WalkDeliversOnce(d, limit, snapshots, pages);
    assert snapshots[0] == rows;
    OrderByOrdered(d, rows);
    forall x
      ensures x in Delivered(pages) <==> x in OrderBy(d, rows)
    {
      if x in rows {
        assert Stable(snapshots, x);
      }
    }
    OrderedUnique(d, Delivered(pages), OrderBy(d, rows));
  }

  lemma {:induction false} OrderedUnique<D(!new)>(d: Direction, a: seq<Row<D>>, b: seq<Row<D>>)
    requires Ordered(d, a) && Ordered(d, b)
    requires forall x :: x in a <==> x in b
    ensures a == b
    decreases |a|
  {
    if a == [] {
      assert forall i :: 0 <= i < |b| ==> b[i] in b;
    } else {
      assert a[0] in a;
      assert b != [];
      assert b[0] in b;
      SameHead(d, a, b);
      PrecedesIrreflexive(d, a[0].key);
      forall x
        ensures x in a[1..] <==> x in b[1..]
      {
        assert a == [a[0]] + a[1..] && b == [b[0]] + b[1..];
        if x in a[1..] {
          HeadPrecedes(d, a, x);
          assert x in a && x in b;
        }
        if x in b[1..] {
          HeadPrecedes(d, b, x);
          assert x in b && x in a;
        }
      }
      OrderedUnique(d, a[1..], b[1..]);
      assert a == [a[0]] + a[1..] && b == [b[0]] + b[1..];
    }
  }

  lemma SameHead<D(!new)>(d: Direction, a: seq<Row<D>>, b: seq<Row<D>>)
    requires Ordered(d, a) && Ordered(d, b) && a != [] && b != []
    requires a[0] in b && b[0] in a
    ensures a[0] == b[0]
  {
    if a[0] != b[0] {
      var i :| 0 <= i < |b| && b[i] == a[0];
      var j :| 0 <= j < |a| && a[j] == b[0];
      PrecedesTransitive(d, a[0].key, b[0].key, a[0].key);
      PrecedesIrreflexive(d, a[0].key);
      assert false;
    }
  }
}
