/** A paged search that hands out a token with each truncated page, and what a client
    gets that follows the tokens while the table changes. */
module TokenWalk {
  import opened Common
  import Keyset

  /** `rows` is what the search selects from a table, `answer` what it returns for a token.
      `render` shows a page, `token` and `items` read a shown page, `show` shows a row. */
  datatype Search<!T, !D, !P, !X> = Search(
    direction: Keyset.Direction, limit: nat, rows: T -> seq<Keyset.Row<D>>, answer: (T, Option<string>) -> Result<P>,
    render: Keyset.Page<D> -> P, token: P -> Option<string>, items: P -> seq<X>, show: Keyset.Row<D> -> X)

  /** One request per table state, latest last. */
  datatype Walk<T, P> =
    | First(table: T, result: P)
    | Next(before: Walk<T, P>, table: T, result: P)

  /** Each request carries the token of the one before. */
  ghost predicate IsTokenWalk<T, D, P, X>(s: Search<T, D, P, X>, w: Walk<T, P>) {
    match w
    case First(table, result) => s.answer(table, None) == Ok(result)
    case Next(before, table, result) =>
      && IsTokenWalk(s, before)
      && s.token(before.result).Some?
      && s.answer(table, s.token(before.result)) == Ok(result)
  }

  ghost function Tables<T, P>(w: Walk<T, P>): seq<T> {
    (if w.Next? then Tables(w.before) else []) + [w.table]
  }

  ghost function Snapshots<T, D, P, X>(s: Search<T, D, P, X>, w: Walk<T, P>): seq<seq<Keyset.Row<D>>> {
    (if w.Next? then Snapshots(s, w.before) else []) + [s.rows(w.table)]
  }

  /** Everything the client was shown, in order. */
  ghost function AllItems<T, D, P, X>(s: Search<T, D, P, X>, w: Walk<T, P>): seq<X> {
    (if w.Next? then AllItems(s, w.before) else []) + s.items(w.result)
  }

  ghost function Shown<T, D, P, X>(s: Search<T, D, P, X>, rows: seq<Keyset.Row<D>>): seq<X> {
    seq(|rows|, i requires 0 <= i < |rows| => s.show(rows[i]))
  }

  ghost function PageAt<T, D(!new), P, X>(s: Search<T, D, P, X>, table: T, cursor: Option<Keyset.Key>): Keyset.Page<D>
    requires s.limit >= 1
  {
    Keyset.PageOf(s.direction, s.limit, s.rows(table), cursor)
  }

  /** The table's pages are shown item by item, and a page's token is there exactly when
      the page is truncated and then asks for what comes after it. */
  ghost predicate Resumable<T(!new), D(!new), P, X>(s: Search<T, D, P, X>, table: T) {
    && s.limit >= 1 && Keyset.DistinctIds(s.rows(table))
    && forall cursor :: ResumesAfter(s, PageAt(s, table, cursor))
  }

  ghost predicate ResumesAfter<T(!new), D(!new), P, X>(s: Search<T, D, P, X>, page: Keyset.Page<D>)
    requires s.limit >= 1
  {
    var shown := s.render(page);
    && s.items(shown) == Shown(s, page.items)
    && (s.token(shown).Some? <==> page.truncated)
    && (page.truncated ==> forall table :: s.answer(table, s.token(shown)) == Ok(s.render(PageAt(s, table, page.next))))
  }

  ghost predicate AllResumable<T(!new), D(!new), P, X>(s: Search<T, D, P, X>, w: Walk<T, P>) {
    && Resumable(s, w.table)
    && (if w.Next? then AllResumable(s, w.before)
         else s.answer(w.table, None) == Ok(s.render(PageAt(s, w.table, None))))
  }

  /** The requests so far are a walk of keyset pages, item for item. */
  ghost predicate Linked<T(!new), D(!new), P, X>(s: Search<T, D, P, X>, w: Walk<T, P>, pages: seq<Keyset.Page<D>>) {
    && s.limit >= 1
    && Keyset.IsWalk(s.direction, s.limit, Snapshots(s, w), pages)
    && pages[|pages| - 1] == PageAt(s, w.table, Keyset.Cursor(pages))
    && w.result == s.render(pages[|pages| - 1])
    && AllItems(s, w) == Shown(s, Keyset.Delivered(pages))
  }

  lemma {:induction false} ShownConcat<T, D, P, X>(s: Search<T, D, P, X>, a: seq<Keyset.Row<D>>, b: seq<Keyset.Row<D>>)
    ensures Shown(s, a + b) == Shown(s, a) + Shown(s, b)
  {
  }

  lemma {:induction false} FirstLinked<T(!new), D(!new), P, X>(s: Search<T, D, P, X>, w: Walk<T, P>)
    requires w.First? && IsTokenWalk(s, w) && AllResumable(s, w)
    ensures Linked(s, w, [PageAt(s, w.table, None)])
  {
    var page := PageAt(s, w.table, None);
    assert ResumesAfter(s, page);
    assert [page][..0] == [];
    assert Keyset.Delivered([page]) == [] + page.items;
  }

  lemma {:induction false} NextLinked<T(!new), D(!new), P, X>(s: Search<T, D, P, X>, w: Walk<T, P>,
                                                        before: seq<Keyset.Page<D>>)
    requires w.Next? && IsTokenWalk(s, w) && AllResumable(s, w) && Linked(s, w.before, before)
    ensures Linked(s, w, before + [PageAt(s, w.table, before[|before| - 1].next)])
  {
    var last := before[|before| - 1];
    var page := PageAt(s, w.table, last.next);
    assert ResumesAfter(s, last) && ResumesAfter(s, page);
    Keyset.ExtendWalk(s.direction, s.limit, Snapshots(s, w.before), before, s.rows(w.table));
    ShownConcat(s, Keyset.Delivered(before), page.items);
  }

  /** Requests that follow the tokens are a walk of keyset pages. */
  lemma {:induction false} TokenWalkIsWalk<T(!new), D(!new), P, X>(s: Search<T, D, P, X>, w: Walk<T, P>)
    returns (pages: seq<Keyset.Page<D>>)
    requires IsTokenWalk(s, w) && AllResumable(s, w)
    ensures Linked(s, w, pages)
    decreases w
  {
    if w.First? {
      FirstLinked(s, w);
      pages := [PageAt(s, w.table, None)];
    } else {
      var before := TokenWalkIsWalk(s, w.before);
      NextLinked(s, w, before);
      pages := before + [PageAt(s, w.table, before[|before| - 1].next)];
    }
  }

  /** A walk that ends without a token has shown a complete delivery of its snapshots. */
  lemma {:induction false} FinishedWalk<T(!new), D(!new), P, X>(s: Search<T, D, P, X>, w: Walk<T, P>)
    returns (rows: seq<Keyset.Row<D>>)
    requires IsTokenWalk(s, w) && AllResumable(s, w) && s.token(w.result).None?
    ensures AllItems(s, w) == Shown(s, rows) && Keyset.Complete(s.direction, Snapshots(s, w), rows)
  {
    var pages := TokenWalkIsWalk(s, w);
    assert ResumesAfter(s, pages[|pages| - 1]);
    Keyset.WalkDeliversOnce(s.direction, s.limit, Snapshots(s, w), pages);
    rows := Keyset.Delivered(pages);
  }

  /** Whatever happens to the table, the number of requests is bounded by the keys there can be. */
  lemma {:induction false} WalkEnds<T(!new), D(!new), P, X>(s: Search<T, D, P, X>, w: Walk<T, P>, keys: set<Keyset.Key>)
    requires IsTokenWalk(s, w) && AllResumable(s, w)
    requires forall i, x :: 0 <= i < |Snapshots(s, w)| && x in Snapshots(s, w)[i] ==> x.key in keys
    ensures (|Snapshots(s, w)| - 1) * s.limit <= |keys|
  {
    var pages := TokenWalkIsWalk(s, w);
    Keyset.WalkTerminates(s.direction, s.limit, Snapshots(s, w), pages, keys);
  }

  lemma {:induction false} SnapshotsOfTables<T, D, P, X>(s: Search<T, D, P, X>, w: Walk<T, P>)
    ensures |Snapshots(s, w)| == |Tables(w)|
    ensures forall i :: 0 <= i < |Tables(w)| ==> Snapshots(s, w)[i] == s.rows(Tables(w)[i])
    decreases w
  {
    if w.Next? {
      SnapshotsOfTables(s, w.before);
    }
  }
}
