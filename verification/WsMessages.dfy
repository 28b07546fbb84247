/** Pages of a session's WebSocket messages in (timestamp, id) order. */
module WsMessages {
  import opened Common
  import opened RustText
  import opened LikePattern
  import opened TokenWalk
  import Keyset
  import Sql
  import TextOrder

  const CURSOR_VERSION := 1
  const MAX_LIMIT := 100

  datatype Message = Message(id: string, sessionId: string, direction: string, timestamp: string,
                             payloadText: Option<string>)

  datatype Payload = Payload(version: int, timestamp: string, id: string)

  /** JSON and base64url stay abstract. */
  datatype Codec = Codec(encode: Payload -> string, decode: string -> Option<Payload>)

  ghost predicate RoundTrips(c: Codec) {
    forall p :: c.decode(c.encode(p)) == Some(p)
  }

  datatype Request = Request(
    sessionId: string, direction: Option<string>, query: Option<string>, limit: nat, codec: Codec, cm: CaseMap)

  datatype MessagePage = MessagePage(items: seq<Message>, nextCursor: Option<string>, truncated: bool)

  // ---- Which messages match ----

  /** As the SQL says it: LOWER(payload_text) LIKE the escaped keyword. */
  predicate Selected(q: Request, m: Message) {
    && m.sessionId == q.sessionId
    && (Active(q.direction).Some? ==> m.direction == Active(q.direction).value)
    && (Active(q.query).Some? ==>
          m.payloadText.Some? && Like("%" + Escape(q.cm.lower(Active(q.query).value)) + "%", Fold(m.payloadText.value)))
  }

  /** The keyword is matched literally, whatever wildcard characters it has. */
  lemma QueryIsLiteral(q: Request, m: Message)
    requires Active(q.query).Some?
    ensures Selected(q, m)
            <==> && Selected(q.(query := None), m) && m.payloadText.Some?
                 && Contains(Fold(m.payloadText.value), Fold(q.cm.lower(Active(q.query).value)))
  {
    if m.payloadText.Some? {
      EscapedKeywordIsLiteral(q.cm.lower(Active(q.query).value), Fold(m.payloadText.value));
      FoldIdempotent(m.payloadText.value);
    }
  }

  function Keyed(m: Message): Keyset.Row<Message> {
    Keyset.Row(Keyset.Key(0, m.timestamp, m.id), m)
  }

  function Matching(q: Request, table: seq<Message>): seq<Keyset.Row<Message>> {
    if table == [] then []
    else (if Selected(q, table[0]) then [Keyed(table[0])] else []) + Matching(q, table[1..])
  }

  lemma {:induction false} MatchingFacts(q: Request, table: seq<Message>)
    ensures forall k :: k in Matching(q, table) <==> k.data in table && Selected(q, k.data) && k == Keyed(k.data)
    decreases |table|
  {
    if table != [] {
      MatchingFacts(q, table[1..]);
      assert table == [table[0]] + table[1..];
    }
  }

  ghost predicate DistinctMessages(table: seq<Message>) {
    forall i, j :: 0 <= i < j < |table| ==> table[i].id != table[j].id
  }

  lemma {:induction false} MatchingDistinct(q: Request, table: seq<Message>)
    requires DistinctMessages(table)
    ensures Keyset.DistinctIds(Matching(q, table))
    decreases |table|
  {
    if table != [] {
      var rest := Matching(q, table[1..]);
      MatchingDistinct(q, table[1..]);
      MatchingFacts(q, table[1..]);
      forall i | 0 <= i < |rest| ensures rest[i].key.id != table[0].id {
        assert rest[i] in rest;
        var j :| 0 <= j < |table| - 1 && table[1..][j] == rest[i].data;
        assert table[j + 1] == rest[i].data;
      }
    }
  }

  // ---- Cursors ----

  const INVALID := Validation("invalid ws cursor")

  function PayloadOf(m: Message): Payload {
    Payload(CURSOR_VERSION, m.timestamp, m.id)
  }

  function Resolve(codec: Codec, token: Option<string>): Result<Option<Keyset.Key>> {
    if token.None? then Ok(None)
    else if |token.value| > 1024 then Err(INVALID)
    else
      var p := codec.decode(token.value);
      if p.None? then Err(INVALID)
      else if p.value.version != CURSOR_VERSION || p.value.timestamp == "" || p.value.id == ""
          || ByteLen(p.value.id) > 256
      then Err(INVALID)
      else Ok(Some(Keyset.Key(0, p.value.timestamp, p.value.id)))
  }

  /** The decoder takes the cursor made from this message. */
  predicate Presentable(codec: Codec, m: Message) {
    m.timestamp != "" && m.id != "" && ByteLen(m.id) <= 256 && |codec.encode(PayloadOf(m))| <= 1024
  }

  /** A message's cursor resolves to its key exactly when it is presentable. */
  lemma CursorRoundTrip(codec: Codec, m: Message)
    requires RoundTrips(codec)
    ensures Resolve(codec, Some(codec.encode(PayloadOf(m))))
            == if Presentable(codec, m) then Ok(Some(Keyed(m).key)) else Err(INVALID)
  {
  }

  // ---- One page ----

  function EffectiveLimit(limit: nat): nat {
    if limit < 1 then 1 else Min(limit, MAX_LIMIT)
  }

  function Messages(rows: seq<Keyset.Row<Message>>): (r: seq<Message>)
    ensures |r| == |rows| && forall i :: 0 <= i < |r| ==> r[i] == rows[i].data
  {
    if rows == [] then [] else [rows[0].data] + Messages(rows[1..])
  }

  function Render(page: Keyset.Page<Message>, codec: Codec): MessagePage {
    var items := Messages(page.items);
    MessagePage(items,
                if page.truncated && items != [] then Some(codec.encode(PayloadOf(items[|items| - 1]))) else None,
                page.truncated)
  }

  function PageFor(q: Request, table: seq<Message>, cursor: Option<Keyset.Key>): Keyset.Page<Message> {
    Keyset.PageOf(Keyset.Asc, EffectiveLimit(q.limit), Matching(q, table), cursor)
  }

  function Expected(q: Request, table: seq<Message>, token: Option<string>): Result<MessagePage> {
    var cursor := Resolve(q.codec, token);
    if cursor.Err? then Err(cursor.error) else Ok(Render(PageFor(q, table, cursor.value), q.codec))
  }

  // ---- The positional query ----

  /** The conditions of the query; numbers are placeholders. */
  datatype Cond = SessionIs(p: nat) | DirectionIs(p: nat) | PayloadLike(p: nat) | After(p: nat, next: nat)

  function Param(values: seq<Sql.Value>, p: nat): Sql.Value {
    if 1 <= p <= |values| then values[p - 1] else Sql.Null
  }

  predicate Holds(c: Cond, m: Message, values: seq<Sql.Value>) {
    match c
    case SessionIs(p) => Param(values, p) == Sql.Text(m.sessionId)
    case DirectionIs(p) => Param(values, p) == Sql.Text(m.direction)
    case PayloadLike(p) =>
      m.payloadText.Some? && Param(values, p).Text? && Like(Param(values, p).s, Fold(m.payloadText.value))
    case After(p, next) =>
      var at, id := Param(values, p), Param(values, next);
      && at.Text? && id.Text?
      && (TextOrder.Less(at.s, m.timestamp) || (at.s == m.timestamp && TextOrder.Less(id.s, m.id)))
  }

  function LastParam(c: Cond): nat {
    match c
    case SessionIs(p) => p
    case DirectionIs(p) => p
    case PayloadLike(p) => p
    case After(p, next) => if p < next then next else p
  }

  datatype Query = Query(conditions: seq<Cond>, values: seq<Sql.Value>, index: nat)

  predicate AllHold(conditions: seq<Cond>, m: Message, values: seq<Sql.Value>) {
    forall i :: 0 <= i < |conditions| ==> Holds(conditions[i], m, values)
  }

  /** The next index is one past the bound values, every placeholder is bound, and the
      conditions hold of exactly the wanted messages. */
  ghost predicate Built(c: Query, want: Message -> bool) {
    && c.index == |c.values| + 1
    && (forall i :: 0 <= i < |c.conditions| ==> LastParam(c.conditions[i]) <= |c.values|)
    && (forall m :: AllHold(c.conditions, m, c.values) <==> want(m))
  }

  lemma HoldsPrefix(c: Cond, m: Message, values: seq<Sql.Value>, more: seq<Sql.Value>)
    requires LastParam(c) <= |values|
    ensures Holds(c, m, values + more) <==> Holds(c, m, values)
  {
  }

  lemma AllHoldPrefix(conditions: seq<Cond>, m: Message, values: seq<Sql.Value>, more: seq<Sql.Value>)
    requires forall i :: 0 <= i < |conditions| ==> LastParam(conditions[i]) <= |values|
    ensures AllHold(conditions, m, values + more) <==> AllHold(conditions, m, values)
  {
    forall i | 0 <= i < |conditions|
      ensures Holds(conditions[i], m, values + more) <==> Holds(conditions[i], m, values)
    {
      HoldsPrefix(conditions[i], m, values, more);
    }
  }

  /** Push a condition with its values and advance the index. */
  method Emit(q: Query, c: Cond, more: seq<Sql.Value>, ghost want: Message -> bool, ghost test: Message -> bool)
    returns (r: Query)
    requires Built(q, want) && LastParam(c) <= |q.values| + |more|
    requires forall m :: Holds(c, m, q.values + more) <==> test(m)
    ensures Built(r, (m: Message) => want(m) && test(m))
  {
    r := Query(q.conditions + [c], q.values + more, q.index + |more|);
    forall m
      ensures AllHold(r.conditions, m, r.values) <==> want(m) && test(m)
    {
      AllHoldPrefix(q.conditions, m, q.values, more);
      assert r.conditions[|q.conditions|] == c;
      assert forall i :: 0 <= i < |q.conditions| ==> r.conditions[i] == q.conditions[i];
    }
  }

  /** The conditions in source order; the cursor comes last. */
  method Compile(q: Request, cursor: Option<Keyset.Key>) returns (c: Query)
    requires cursor.Some? ==> cursor.value.value == 0
    ensures Built(c, (m: Message) => Selected(q, m) && Keyset.Admits(Keyset.Asc, cursor, Keyed(m).key))
  {
    c := CompileFilter(q);
    if cursor.Some? {
      var values := [Sql.Text(cursor.value.at), Sql.Text(cursor.value.id)];
      c := Emit(c, After(c.index, c.index + 1), values, (m: Message) => Selected(q, m),
                (m: Message) => Keyset.Admits(Keyset.Asc, cursor, Keyed(m).key));
    }
  }

  method CompileFilter(q: Request) returns (c: Query)
    ensures Built(c, (m: Message) => Selected(q, m))
  {
    c := Query([], [], 1);
    ghost var want: Message -> bool := (m: Message) => true;
    c := Emit(c, SessionIs(1), [Sql.Text(q.sessionId)], want, (m: Message) => m.sessionId == q.sessionId);
    want := (m: Message) => true && m.sessionId == q.sessionId;
    var direction, keyword := Active(q.direction), Active(q.query);
    if direction.Some? {
      ghost var test: Message -> bool := (m: Message) => m.direction == direction.value;
      ghost var before := want;
      c := Emit(c, DirectionIs(c.index), [Sql.Text(direction.value)], want, test);
      want := (m: Message) => before(m) && test(m);
    }
    if keyword.Some? {
      var pattern := "%" + Escape(q.cm.lower(keyword.value)) + "%";
      c := Emit(c, PayloadLike(c.index), [Sql.Text(pattern)], want,
                (m: Message) => m.payloadText.Some? && Like(pattern, Fold(m.payloadText.value)));
    }
  }

  function SelectRows(conditions: seq<Cond>, values: seq<Sql.Value>, table: seq<Message>): seq<Keyset.Row<Message>> {
    if table == [] then []
    else (if AllHold(conditions, table[0], values) then [Keyed(table[0])] else [])
         + SelectRows(conditions, values, table[1..])
  }

  /** With the limit bound behind it, the query selects the matching messages beyond the cursor. */
  lemma {:induction false} SelectsMatching(c: Query, extra: Sql.Value, q: Request, cursor: Option<Keyset.Key>,
                                           table: seq<Message>)
    requires Built(c, (m: Message) => Selected(q, m) && Keyset.Admits(Keyset.Asc, cursor, Keyed(m).key))
    ensures SelectRows(c.conditions, c.values + [extra], table) == Keyset.Select(Keyset.Asc, Matching(q, table), cursor)
    decreases |table|
  {
    if table != [] {
      SelectsMatching(c, extra, q, cursor, table[1..]);
      AllHoldPrefix(c.conditions, table[0], c.values, [extra]);
      var rest := Matching(q, table[1..]);
      if Selected(q, table[0]) {
        assert ([Keyed(table[0])] + rest)[1..] == rest;
      } else {
        assert [] + rest == rest;
      }
    }
  }

  /** The query as it runs: compile, bind the limit last, fetch one row more than the page,
      cut, make the next cursor. */
  method SearchPage(q: Request, table: seq<Message>, token: Option<string>) returns (r: Result<MessagePage>)
    ensures r == Expected(q, table, token)
  {
    var limit := EffectiveLimit(q.limit);
    var cursor := Resolve(q.codec, token);
    if cursor.Err? {
      return Err(cursor.error);
    }
    var c := Compile(q, cursor.value);
    var rows := Fetch(q, table, c, limit, cursor.value);
    var page := CutPage(rows, limit, q.codec);
    FetchedPage(limit, Matching(q, table), cursor.value, q.codec, page);
    r := Ok(page);
  }

  /** The rows of the query, one more than the page has, in order. */
  method Fetch(q: Request, table: seq<Message>, c: Query, limit: nat, ghost cursor: Option<Keyset.Key>)
    returns (rows: seq<Keyset.Row<Message>>)
    requires Built(c, (m: Message) => Selected(q, m) && Keyset.Admits(Keyset.Asc, cursor, Keyed(m).key))
    ensures var ordered := Keyset.OrderBy(Keyset.Asc, Keyset.Select(Keyset.Asc, Matching(q, table), cursor));
            rows == ordered[..Min(limit + 1, |ordered|)]
  {
    var values := c.values + [Sql.Int(limit + 1)];
    SelectsMatching(c, Sql.Int(limit + 1), q, cursor, table);
    var ordered := Keyset.OrderBy(Keyset.Asc, SelectRows(c.conditions, values, table));
    rows := ordered[..Min(Param(values, c.index).i, |ordered|)];
  }

  /** What the cut makes of the fetched rows. */
  ghost predicate IsCut(rows: seq<Keyset.Row<Message>>, limit: nat, codec: Codec, r: MessagePage) {
    && r.truncated == (|rows| > limit)
    && r.items == Messages(if |rows| > limit then rows[..limit] else rows)
    && r.nextCursor
       == if r.truncated && r.items != [] then Some(codec.encode(PayloadOf(r.items[|r.items| - 1]))) else None
  }

  method CutPage(fetched: seq<Keyset.Row<Message>>, limit: nat, codec: Codec) returns (r: MessagePage)
    ensures IsCut(fetched, limit, codec, r)
  {
    var rows := fetched;
    var truncated := |rows| > limit;
    if truncated {
      rows := rows[..limit];
    }
    var items := Messages(rows);
    var next: Option<string> := None;
    if truncated && items != [] {
      next := Some(codec.encode(PayloadOf(items[|items| - 1])));
    }
    r := MessagePage(items, next, truncated);
  }

  lemma {:induction false} FetchedPage(limit: nat, rows: seq<Keyset.Row<Message>>, cursor: Option<Keyset.Key>,
                                       codec: Codec, r: MessagePage)
    requires limit >= 1
    requires var ordered := Keyset.OrderBy(Keyset.Asc, Keyset.Select(Keyset.Asc, rows, cursor));
             IsCut(ordered[..Min(limit + 1, |ordered|)], limit, codec, r)
    ensures r == Render(Keyset.PageOf(Keyset.Asc, limit, rows, cursor), codec)
  {
  }

  // ---- Following the cursor ----

  ghost predicate Walkable(q: Request, table: seq<Message>) {
    DistinctMessages(table) && forall m :: m in table ==> Presentable(q.codec, m)
  }

  ghost predicate AllWalkable(q: Request, tables: seq<seq<Message>>) {
    forall t :: t in tables ==> Walkable(q, t)
  }

  lemma PageFacts(q: Request, table: seq<Message>, cursor: Option<Keyset.Key>)
    requires Walkable(q, table)
    ensures Keyset.DistinctIds(Matching(q, table))
    ensures Keyset.GoodPage(Keyset.Asc, EffectiveLimit(q.limit), Matching(q, table), cursor, PageFor(q, table, cursor))
  {
    MatchingDistinct(q, table);
    Keyset.PageIsGood(Keyset.Asc, EffectiveLimit(q.limit), Matching(q, table), cursor);
  }

  /** The token of a truncated page resumes right after the page's last message. */
  lemma TokenResumes(q: Request, table: seq<Message>, cursor: Option<Keyset.Key>)
    requires RoundTrips(q.codec) && Walkable(q, table)
    ensures var page := PageFor(q, table, cursor);
            var token := Render(page, q.codec).nextCursor;
            && (token.Some? <==> page.truncated)
            && (token.Some? ==> Resolve(q.codec, token) == Ok(page.next))
  {
    PageFacts(q, table, cursor);
    var page := PageFor(q, table, cursor);
    if page.truncated {
      var last := page.items[|page.items| - 1];
      assert last in page.items;
      MatchingFacts(q, table);
      CursorRoundTrip(q.codec, last.data);
    }
  }

  ghost function AsSearch(q: Request): Search<seq<Message>, Message, MessagePage, Message> {
    Search(Keyset.Asc, EffectiveLimit(q.limit),
           (table: seq<Message>) => Matching(q, table),
           (table: seq<Message>, token: Option<string>) => Expected(q, table, token),
           (page: Keyset.Page<Message>) => Render(page, q.codec),
           (page: MessagePage) => page.nextCursor,
           (page: MessagePage) => page.items,
           (k: Keyset.Row<Message>) => k.data)
  }

  lemma PageResumes(q: Request, table: seq<Message>, cursor: Option<Keyset.Key>)
    requires RoundTrips(q.codec) && Walkable(q, table)
    ensures ResumesAfter(AsSearch(q), PageAt(AsSearch(q), table, cursor))
  {
    var page := PageAt(AsSearch(q), table, cursor);
    TokenResumes(q, table, cursor);
    assert Messages(page.items) == Shown(AsSearch(q), page.items);
  }

  lemma {:induction false} WalkResumable(q: Request, w: Walk<seq<Message>, MessagePage>)
    requires RoundTrips(q.codec) && AllWalkable(q, Tables(w))
    ensures AllResumable(AsSearch(q), w)
    decreases w
  {
    assert Walkable(q, w.table);
    PageFacts(q, w.table, None);
    forall cursor
      ensures ResumesAfter(AsSearch(q), PageAt(AsSearch(q), w.table, cursor))
    {
      PageResumes(q, w.table, cursor);
    }
    if w.Next? {
      assert forall t :: t in Tables(w.before) ==> t in Tables(w);
      WalkResumable(q, w.before);
    }
  }

  /** In every table the message with this id matches and keeps its timestamp. */
  ghost predicate KeepsKey(q: Request, tables: seq<seq<Message>>, id: string, at: string) {
    forall t :: t in tables ==> HasMatch(q, t, id, at)
  }

  ghost predicate HasMatch(q: Request, table: seq<Message>, id: string, at: string) {
    exists m :: m in table && m.id == id && m.timestamp == at && Selected(q, m)
  }

  ghost predicate ExactlyOnce(all: seq<Message>, id: string) {
    exists i :: 0 <= i < |all| && all[i].id == id && forall j :: 0 <= j < |all| && all[j].id == id ==> j == i
  }

  /** Strictly increasing (timestamp, id); only matching messages of some table state; and
      exactly once every message that matches and keeps its timestamp throughout. */
  ghost predicate DeliveredOnce(q: Request, tables: seq<seq<Message>>, all: seq<Message>) {
    && (forall i, j :: 0 <= i < j < |all| ==> Keyset.Precedes(Keyset.Asc, Keyed(all[i]).key, Keyed(all[j]).key))
    && (forall m :: m in all ==> Selected(q, m) && exists t :: t in tables && m in t)
    && (forall id, at :: KeepsKey(q, tables, id, at) ==> ExactlyOnce(all, id))
  }

  /** Until no token comes back, while messages are inserted, deleted and updated between
      requests, every message is delivered as it should be. */
  lemma {:induction false} MessagesDeliveredOnce(q: Request, w: Walk<seq<Message>, MessagePage>)
    requires RoundTrips(q.codec) && IsTokenWalk(AsSearch(q), w) && AllWalkable(q, Tables(w))
    requires w.result.nextCursor.None?
    ensures DeliveredOnce(q, Tables(w), AllItems(AsSearch(q), w))
  {
    WalkResumable(q, w);
    var rows := FinishedWalk(AsSearch(q), w);
    SnapshotsOfTables(AsSearch(q), w);
    assert Shown(AsSearch(q), rows) == Messages(rows);
    RowsToMessages(q, Tables(w), Snapshots(AsSearch(q), w), rows);
  }

  ghost predicate SnapshotsOf(q: Request, tables: seq<seq<Message>>, snaps: seq<seq<Keyset.Row<Message>>>) {
    |snaps| == |tables| && forall i :: 0 <= i < |tables| ==> snaps[i] == Matching(q, tables[i])
  }

  ghost predicate FromTables(q: Request, tables: seq<seq<Message>>, k: Keyset.Row<Message>) {
    k == Keyed(k.data) && Selected(q, k.data) && exists t :: t in tables && k.data in t
  }

  lemma RowsToMessages(q: Request, tables: seq<seq<Message>>, snaps: seq<seq<Keyset.Row<Message>>>,
                       rows: seq<Keyset.Row<Message>>)
    requires AllWalkable(q, tables) && SnapshotsOf(q, tables, snaps) && tables != []
    requires Keyset.Complete(Keyset.Asc, snaps, rows)
    ensures DeliveredOnce(q, tables, Messages(rows))
  {
    forall i | 0 <= i < |rows|
      ensures FromTables(q, tables, rows[i])
    {
      assert rows[i] in rows;
      var n :| 0 <= n < |snaps| && rows[i] in snaps[n];
      MatchingFacts(q, tables[n]);
      assert tables[n] in tables;
    }
    forall id, at | KeepsKey(q, tables, id, at)
      ensures ExactlyOnce(Messages(rows), id)
    {
      KeptOnce(q, tables, snaps, rows, id, at);
    }
  }

  lemma KeptIsStable(q: Request, tables: seq<seq<Message>>, snaps: seq<seq<Keyset.Row<Message>>>, id: string,
                     at: string)
    requires SnapshotsOf(q, tables, snaps) && KeepsKey(q, tables, id, at)
    ensures Keyset.KeyStable(snaps, Keyset.Key(0, at, id))
  {
    forall i | 0 <= i < |snaps|
      ensures Keyset.HasKey(snaps[i], Keyset.Key(0, at, id))
    {
      assert tables[i] in tables && HasMatch(q, tables[i], id, at);
      var m :| m in tables[i] && m.id == id && m.timestamp == at && Selected(q, m);
      MatchingFacts(q, tables[i]);
      assert Keyed(m) in snaps[i];
    }
  }

  lemma KeptOnce(q: Request, tables: seq<seq<Message>>, snaps: seq<seq<Keyset.Row<Message>>>,
                 rows: seq<Keyset.Row<Message>>, id: string, at: string)
    requires AllWalkable(q, tables) && SnapshotsOf(q, tables, snaps) && KeepsKey(q, tables, id, at)
    requires Keyset.Complete(Keyset.Asc, snaps, rows)
    requires forall i :: 0 <= i < |rows| ==> FromTables(q, tables, rows[i])
    ensures ExactlyOnce(Messages(rows), id)
  {
    var key := Keyset.Key(0, at, id);
    KeptIsStable(q, tables, snaps, id, at);
    var x :| x in rows && x.key == key;
    var i :| 0 <= i < |rows| && rows[i] == x;
    assert Messages(rows)[i].id == id;
    forall j | 0 <= j < |rows| && Messages(rows)[j].id == id
      ensures j == i
    {
      SameIdSameKey(q, tables, rows[j], id, at);
      Keyset.PrecedesIrreflexive(Keyset.Asc, key);
    }
  }

  lemma SameIdSameKey(q: Request, tables: seq<seq<Message>>, k: Keyset.Row<Message>, id: string, at: string)
    requires AllWalkable(q, tables) && KeepsKey(q, tables, id, at) && FromTables(q, tables, k) && k.data.id == id
    ensures k.key == Keyset.Key(0, at, id)
  {
    var t :| t in tables && k.data in t;
    assert Walkable(q, t) && HasMatch(q, t, id, at);
  }

  /** Whatever happens to the table, the number of requests is bounded by the keys there can be. */
  lemma {:induction false} MessagesTerminate(q: Request, w: Walk<seq<Message>, MessagePage>, keys: set<Keyset.Key>)
    requires RoundTrips(q.codec) && IsTokenWalk(AsSearch(q), w) && AllWalkable(q, Tables(w))
    requires forall t, m :: t in Tables(w) && m in t ==> Keyed(m).key in keys
    ensures (|Tables(w)| - 1) * EffectiveLimit(q.limit) <= |keys|
  {
    var tables, snaps := Tables(w), Snapshots(AsSearch(q), w);
    WalkResumable(q, w);
    SnapshotsOfTables(AsSearch(q), w);
    forall i, x: Keyset.Row<Message> | 0 <= i < |snaps| && x in snaps[i]
      ensures x.key in keys
    {
      MatchingFacts(q, tables[i]);
      assert tables[i] in tables;
    }
    WalkEnds(AsSearch(q), w, keys);
  }
}
