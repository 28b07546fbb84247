/** `search_sessions`: filter, cursor, page. */
module SessionSearch {
  import opened Common
  import opened Sql
  import opened RustText
  import opened SessionFilter
  import Keyset

  const SCHEMA_VERSION := 2
  const MAX_LIMIT := 100

  datatype CursorPayload = CursorPayload(
    version: int, sortBy: string, sortOrder: string, startedAt: string, id: string, sortValue: Option<int>)

  /** JSON and base64url stay abstract: `encode` yields ASCII text that `decode` inverts. */
  datatype Codec = Codec(encode: CursorPayload -> string, decode: string -> Option<CursorPayload>)

  ghost predicate RoundTrips(c: Codec) {
    forall p :: c.decode(c.encode(p)) == Some(p)
  }

  datatype SessionPage = SessionPage(items: seq<Summary>, nextCursor: Option<string>, truncated: bool)

  // ---- Cursors ----

  function SortName(f: SortField): string {
    match f
    case ByStartedAt => "startedAt"
    case ByDuration => "durationMs"
    case BySize => "sizeBytes"
    case ByStatus => "statusCode"
  }

  function OrderName(d: Keyset.Direction): string {
    if d.Desc? then "desc" else "asc"
  }

  function Clamp(v: int, low: int, high: int): int
    requires low <= high
  {
    if v < low then low else if v > high then high else v
  }

  /** `row_to_summary`: stored numbers are clamped when a row is read back. */
  function Decoded(s: Summary): Summary {
    s.(durationMs := Clamp(s.durationMs, 0, I64_BOUND - 1), sizeBytes := Clamp(s.sizeBytes, 0, I64_BOUND - 1),
       statusCode := Clamp(s.statusCode, 0, 65535))
  }

  /** A row as SQLite stores it: 64-bit durations and sizes, a 32-bit status. */
  predicate Stored(s: Summary) {
    && -I64_BOUND <= s.durationMs < I64_BOUND
    && -I64_BOUND <= s.sizeBytes < I64_BOUND
    && -I32_BOUND <= s.statusCode < I32_BOUND
  }

  function PayloadOf(decoded: Summary, f: SortField, d: Keyset.Direction): CursorPayload {
    CursorPayload(SCHEMA_VERSION, SortName(f), OrderName(d), decoded.startedAt, decoded.id,
                  if f.ByStartedAt? then None else Some(SortValue(f, decoded)))
  }

  const INVALID_CURSOR := Validation("invalid cursor")

  function DecodeCursor(codec: Codec, token: string): Result<CursorPayload> {
    if |token| > 1024 then Err(INVALID_CURSOR)
    else
      var p := codec.decode(token);
      if p.None? then Err(INVALID_CURSOR)
      else
        var payload := p.value;
        if || payload.version != SCHEMA_VERSION
           || Blank(payload.startedAt)
           || Blank(payload.id)
           || ByteLen(payload.id) > 256
           || payload.sortBy !in {"startedAt", "durationMs", "sizeBytes", "statusCode"}
           || payload.sortOrder !in {"asc", "desc"}
           || (payload.sortBy == "startedAt" && payload.sortValue.Some?)
           || (payload.sortBy != "startedAt" && payload.sortValue.None?)
        then Err(INVALID_CURSOR)
        else Ok(payload)
  }

  /** The key the compiled cursor condition compares against. */
  function CursorKey(p: CursorPayload): Keyset.Key {
    Keyset.Key(if p.sortValue.Some? then p.sortValue.value else 0, p.startedAt, p.id)
  }

  /** The decoder takes its own cursors. */
  predicate Presentable(codec: Codec, s: Summary, f: SortField, d: Keyset.Direction) {
    |codec.encode(PayloadOf(Decoded(s), f, d))| <= 1024 && !Blank(s.startedAt) && !Blank(s.id) && ByteLen(s.id) <= 256
  }

  /** A cursor made from a row decodes to that row's payload exactly when the row
      is presentable; otherwise the next page is refused. */
  lemma CursorRoundTrip(codec: Codec, s: Summary, f: SortField, d: Keyset.Direction)
    requires RoundTrips(codec)
    ensures var payload := PayloadOf(Decoded(s), f, d);
            DecodeCursor(codec, codec.encode(payload))
            == if Presentable(codec, s, f, d) then Ok(payload) else Err(INVALID_CURSOR)
  {
  }

  predicate InRange(f: SortField, s: Summary) {
    match f
    case ByStartedAt => true
    case ByDuration => s.durationMs >= 0
    case BySize => s.sizeBytes >= 0
    case ByStatus => 0 <= s.statusCode <= 65535
  }

  /** The cursor of a row admits exactly the keys after that row if and only if
      the row's stored sort value is in range: outside it the cursor carries the
      clamped value while SQL compares the stored one. */
  lemma CursorResumesExactly(s: Summary, f: SortField, d: Keyset.Direction)
    requires Stored(s)
    ensures (forall k :: Keyset.Precedes(d, CursorKey(PayloadOf(Decoded(s), f, d)), k)
              <==> Keyset.Precedes(d, KeyOf(f, s), k))
       <==> InRange(f, s)
  {
    var raw := KeyOf(f, s);
    var cursor := CursorKey(PayloadOf(Decoded(s), f, d));
    if !InRange(f, s) {
      assert cursor.value != raw.value;
      Keyset.PrecedesIrreflexive(d, raw);
      Keyset.PrecedesIrreflexive(d, cursor);
      if Keyset.Precedes(d, raw, cursor) {
        assert !Keyset.Precedes(d, cursor, cursor);
      } else {
        assert Keyset.Precedes(d, cursor, raw);
      }
    }
  }

  // ---- The search ----

  function Keyed(f: SortField, r: Row): Keyset.Row<Row> {
    Keyset.Row(KeyOf(f, r.s), r)
  }

  ghost function Matching(rows: seq<Row>, f: SortField, tests: seq<Test>): seq<Keyset.Row<Row>> {
    if rows == [] then []
    else (if Matches(tests, rows[0]) then [Keyed(f, rows[0])] else []) + Matching(rows[1..], f, tests)
  }

  function SelectRows(rows: seq<Row>, f: SortField, where_: Option<Cond>, params: seq<Value>): seq<Keyset.Row<Row>> {
    if rows == [] then []
    else (if Selected(where_, rows[0], params) then [Keyed(f, rows[0])] else [])
         + SelectRows(rows[1..], f, where_, params)
  }

  function Summaries(rows: seq<Keyset.Row<Row>>): (r: seq<Summary>)
    ensures |r| == |rows| && forall i :: 0 <= i < |r| ==> r[i] == Decoded(rows[i].data.s)
  {
    if rows == [] then [] else [Decoded(rows[0].data.s)] + Summaries(rows[1..])
  }

  predicate Inverted(low: Option<nat>, high: Option<nat>) {
    low.Some? && high.Some? && low.value > high.value
  }

  function EffectiveLimit(limit: nat): nat {
    if limit < 1 then 1 else Min(limit, MAX_LIMIT)
  }

  /** What the caller sees of a page. */
  ghost function Render(page: Keyset.Page<Row>, f: Filter, codec: Codec): SessionPage {
    var items := Summaries(page.items);
    SessionPage(items,
                if page.truncated && items != []
                    then Some(codec.encode(PayloadOf(items[|items| - 1], f.sortBy, f.direction))) else None,
                page.truncated)
  }

  /** The page that the filter means: no SQL, no placeholders. */
  ghost function ExpectedPage(rows: seq<Row>, f: Filter, tests: seq<Test>, limit: nat, cursor: Option<Keyset.Key>,
                              codec: Codec): SessionPage {
    Render(Keyset.PageOf(f.direction, EffectiveLimit(limit), Matching(rows, f.sortBy, tests), cursor), f, codec)
  }

  function CheckRanges(f: Filter): Result<()> {
    if Inverted(f.statusMin, f.statusMax) then Err(Validation("statusMin must not be greater than statusMax"))
    else if Inverted(f.minDuration, f.maxDuration) then
      Err(Validation("minDurationMs must not be greater than maxDurationMs"))
    else Ok(())
  }

  /** The key to continue after, or the reason the cursor is refused. */
  function Resolve(f: Filter, codec: Codec, token: Option<string>): Result<Option<Keyset.Key>> {
    if token.None? then Ok(None)
    else
      var payload := DecodeCursor(codec, token.value);
      if payload.Err? then Err(payload.error)
      else if payload.value.sortBy != SortName(f.sortBy) || payload.value.sortOrder != OrderName(f.direction) then
        Err(Validation("cursor does not match the requested sort order"))
      else Ok(Some(CursorKey(payload.value)))
  }

  ghost function Expected(rows: seq<Row>, tests: seq<Test>, f: Filter, limit: nat, token: Option<string>,
                          codec: Codec): Result<SessionPage> {
    if CheckRanges(f).Err? then Err(CheckRanges(f).error)
    else
      var cursor := Resolve(f, codec, token);
      if cursor.Err? then Err(cursor.error)
      else Ok(ExpectedPage(rows, f, tests, limit, cursor.value, codec))
  }

  lemma {:induction false} SelectsMatching(rows: seq<Row>, f: Filter, q: Query, extra: seq<Value>, tests: seq<Test>,
                                           cursor: Option<Keyset.Key>)
    requires Compiled(q, Plus(tests, CursorTest(f, cursor)))
    ensures SelectRows(rows, f.sortBy, JoinAnd(q.conditions), q.values + extra)
         == Keyset.Select(f.direction, Matching(rows, f.sortBy, tests), cursor)
    decreases |rows|
  {
    if rows != [] {
      SelectsMatching(rows[1..], f, q, extra, tests, cursor);
      var rest := Matching(rows[1..], f.sortBy, tests);
      RowSelected(rows[0], f, q, extra, tests, cursor);
      var k := Keyed(f.sortBy, rows[0]);
      if Matches(tests, rows[0]) {
        assert ([k] + rest)[1..] == rest;
      } else {
        assert [] + rest == rest;
      }
    }
  }

  lemma {:induction false} RowSelected(r: Row, f: Filter, q: Query, extra: seq<Value>, tests: seq<Test>,
                                       cursor: Option<Keyset.Key>)
    requires Compiled(q, Plus(tests, CursorTest(f, cursor)))
    ensures Selected(JoinAnd(q.conditions), r, q.values + extra)
       <==> Matches(tests, r) && Keyset.Admits(f.direction, cursor, KeyOf(f.sortBy, r.s))
  {
    var all := Plus(tests, CursorTest(f, cursor));
    JoinedSelects(q.conditions, r, q.values + extra);
    forall i | 0 <= i < |all|
      ensures Eval(q.conditions[i], r, q.values + extra) == True <==> Holds(all[i], r)
    {
      assert Means(q.conditions[i], q.values, all[i]);
      EvalPrefix(q.conditions[i], r, q.values, extra);
    }
    assert Matches(all, r) <==> Matches(tests, r) && Keyset.Admits(f.direction, cursor, KeyOf(f.sortBy, r.s)) by {
      MatchesPlus(tests, CursorTest(f, cursor), r);
    }
  }

  /** The next placeholder is the one after the bound values. */
  lemma {:induction false} NextPlaceholder(q: Query, tests: seq<Test>)
    requires Compiled(q, tests)
    ensures q.index == |q.values| + 1
  {
  }

  /** Fetching one row more than the page and cutting it is the page. */
  lemma {:induction false} FetchedPage(d: Keyset.Direction, bound: nat, rows: seq<Keyset.Row<Row>>,
                                       cursor: Option<Keyset.Key>,
                                       f: Filter, codec: Codec, r: SessionPage)
    requires bound >= 1
    requires var ordered := Keyset.OrderBy(d, Keyset.Select(d, rows, cursor));
             var got := ordered[..Min(bound + 1, |ordered|)];
             && r.truncated == (|got| > bound)
             && r.items == Summaries(if |got| > bound then got[..bound] else got)
             && r.nextCursor == if r.truncated && r.items != []
                                then Some(codec.encode(PayloadOf(r.items[|r.items| - 1], f.sortBy, f.direction)))
                                else None
    ensures r == Render(Keyset.PageOf(d, bound, rows, cursor), f, codec)
  {
  }

  /** Run the compiled query with the limit bound at the next placeholder, then cut the page. */
  method RunQuery(rows: seq<Row>, f: Filter, q: Query, limit: nat, codec: Codec, ghost tests: seq<Test>,
                  ghost cursor: Option<Keyset.Key>)
    returns (r: SessionPage)
    requires Compiled(q, Plus(tests, CursorTest(f, cursor)))
    ensures r == ExpectedPage(rows, f, tests, limit, cursor, codec)
  {
    NextPlaceholder(q, Plus(tests, CursorTest(f, cursor)));
    var bound := EffectiveLimit(limit);
    var values := q.values + [Int(bound + 1)];
    SelectsMatching(rows, f, q, [Int(bound + 1)], tests, cursor);
    var selected := SelectRows(rows, f.sortBy, JoinAnd(q.conditions), values);
    var ordered := Keyset.OrderBy(f.direction, selected);
    var limitValue := values[q.index - 1];
    var got := ordered[..Min(limitValue.i, |ordered|)];
    r := CutPage(got, bound, f, codec);
    FetchedPage(f.direction, bound, Matching(rows, f.sortBy, tests), cursor, f, codec, r);
  }

  method CutPage(rows: seq<Keyset.Row<Row>>, bound: nat, f: Filter, codec: Codec) returns (r: SessionPage)
    ensures r.truncated == (|rows| > bound)
    ensures r.items == Summaries(if |rows| > bound then rows[..bound] else rows)
    ensures r.nextCursor == if r.truncated && r.items != []
                            then Some(codec.encode(PayloadOf(r.items[|r.items| - 1], f.sortBy, f.direction))) else None
  {
    var got := rows;
    var truncated := |got| > bound;
    if truncated {
      got := got[..bound];
    }
    var items := Summaries(got);
    var next: Option<string> := None;
    if truncated && items != [] {
      next := Some(codec.encode(PayloadOf(items[|items| - 1], f.sortBy, f.direction)));
    }
    r := SessionPage(items, next, truncated);
  }

  /** Compile, run, cut: the result is the page that the filter means. */
  method SearchSessions(rows: seq<Row>, failures: bool, f: Filter, limit: nat, token: Option<string>, codec: Codec,
                        cm: CaseMap)
    returns (r: Result<SessionPage>)
    ensures r == Expected(rows, ActiveTests(f, failures, cm), f, limit, token, codec)
  {
    var checked := CheckRanges(f);
    if checked.Err? {
      return Err(checked.error);
    }
    var cursor := Resolve(f, codec, token);
    if cursor.Err? {
      return Err(cursor.error);
    }
    var q := Compile(f, failures, cm, cursor.value);
    var page := RunQuery(rows, f, q, limit, codec, ActiveTests(f, failures, cm), cursor.value);
    r := Ok(page);
  }
}
