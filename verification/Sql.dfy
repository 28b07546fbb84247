/** The fragment of SQLite that the compiled WHERE clauses use: positional
    parameters, NULL, three-valued logic. */
module Sql {
  import opened Common
  import LikePattern
  import TextOrder

  datatype Value = Null | Int(i: int) | Text(s: string)

  datatype Tri = True | False | Unknown

  datatype Summary = Summary(
    rowid: int, id: string, verb: string, host: string, path: string, protocol: string, scheme: string,
    httpVersion: string, startedAt: string, finishedAt: string, durationMs: int, sizeBytes: int, statusCode: int,
    url: string, mime: Option<string>, failureOrigin: Option<string>, failureKind: Option<string>)

  /** The detail row. `pairs` is what `json_each` yields from `query_params`, or
      None when that text is not valid JSON. */
  datatype Detail = Detail(queryText: string, requestHeaders: string, responseHeaders: string,
                           pairs: Option<seq<(Value, Value)>>)

  /** One row of `session_summaries s LEFT JOIN session_details d`. */
  datatype Row = Row(s: Summary, d: Option<Detail>)

  datatype Column =
    | RowId | Id | Method | Host | Path | Protocol | Scheme | HttpVersion | StartedAt | FinishedAt
    | DurationMs | SizeBytes | StatusCode | Url | Mime | FailureOrigin | FailureKind
    | QueryText | RequestHeaders | ResponseHeaders

  predicate OfDetail(c: Column) {
    c in {QueryText, RequestHeaders, ResponseHeaders}
  }

  function OrNull(o: Option<string>): Value {
    if o.Some? then Text(o.value) else Null
  }

  function ColumnValue(c: Column, r: Row): Value {
    match c
    case RowId => Int(r.s.rowid)
    case Id => Text(r.s.id)
    case Method => Text(r.s.verb)
    case Host => Text(r.s.host)
    case Path => Text(r.s.path)
    case Protocol => Text(r.s.protocol)
    case Scheme => Text(r.s.scheme)
    case HttpVersion => Text(r.s.httpVersion)
    case StartedAt => Text(r.s.startedAt)
    case FinishedAt => Text(r.s.finishedAt)
    case DurationMs => Int(r.s.durationMs)
    case SizeBytes => Int(r.s.sizeBytes)
    case StatusCode => Int(r.s.statusCode)
    case Url => Text(r.s.url)
    case Mime => OrNull(r.s.mime)
    case FailureOrigin => OrNull(r.s.failureOrigin)
    case FailureKind => OrNull(r.s.failureKind)
    case QueryText => if r.d.Some? then Text(r.d.value.queryText) else Null
    case RequestHeaders => if r.d.Some? then Text(r.d.value.requestHeaders) else Null
    case ResponseHeaders => if r.d.Some? then Text(r.d.value.responseHeaders) else Null
  }

  datatype Expr =
    | Param(n: nat)
    | Col(c: Column)
    | IntLit(i: int)
    | StrLit(s: string)
    | Lower(e: Expr)
    | Upper(e: Expr)
    | OrEmpty(e: Expr)
    | Concat(a: Expr, b: Expr)

  function FoldUp(s: string): string {
    if s == [] then []
    else [if 'a' <= s[0] <= 'z' then (s[0] as int - 32) as char else s[0]] + FoldUp(s[1..])
  }

  /** A parameter that no value was bound to is NULL. */
  function ExprValue(e: Expr, r: Row, params: seq<Value>): Value {
    match e
    case Param(n) => if 1 <= n <= |params| then params[n - 1] else Null
    case Col(c) => ColumnValue(c, r)
    case IntLit(i) => Int(i)
    case StrLit(s) => Text(s)
    case Lower(a) => var v := ExprValue(a, r, params); if v.Text? then Text(LikePattern.Fold(v.s)) else v
    case Upper(a) => var v := ExprValue(a, r, params); if v.Text? then Text(FoldUp(v.s)) else v
    case OrEmpty(a) => var v := ExprValue(a, r, params); if v.Null? then Text("") else v
    case Concat(a, b) =>
      var x, y := ExprValue(a, r, params), ExprValue(b, r, params);
      if x.Text? && y.Text? then Text(x.s + y.s) else Null
  }

  datatype CmpOp = Lt | Le | Gt | Ge | Eq | Ne

  /** Integers sort before text. */
  predicate ValueLess(a: Value, b: Value) {
    match (a, b)
    case (Int(x), Int(y)) => x < y
    case (Text(x), Text(y)) => TextOrder.Less(x, y)
    case (Int(_), Text(_)) => true
    case _ => false
  }

  predicate CompareTrue(op: CmpOp, a: Value, b: Value) {
    match op
    case Lt => ValueLess(a, b)
    case Le => ValueLess(a, b) || a == b
    case Gt => ValueLess(b, a)
    case Ge => ValueLess(b, a) || a == b
    case Eq => a == b
    case Ne => a != b
  }

  datatype Cond =
    | Cmp(op: CmpOp, l: Expr, r: Expr)
    | LikeEscaped(l: Expr, pattern: Expr)
    | InstrPositive(l: Expr, needle: Expr)
    | NotNull(e: Expr)
    | QueryHas(name: Expr, value: Expr)
    | In(e: Expr, list: seq<Expr>)
    | NotIn(e: Expr, list: seq<Expr>)
    | And(a: Cond, b: Cond)
    | Or(a: Cond, b: Cond)
    | Never

  function Truth(b: bool): Tri {
    if b then True else False
  }

  function TriAnd(a: Tri, b: Tri): Tri {
    if a == False || b == False then False else if a == True && b == True then True else Unknown
  }

  function TriOr(a: Tri, b: Tri): Tri {
    if a == True || b == True then True else if a == False && b == False then False else Unknown
  }

  function TriNot(a: Tri): Tri {
    match a case True => False case False => True case Unknown => Unknown
  }

  function InList(v: Value, list: seq<Expr>, r: Row, params: seq<Value>): Tri {
    if list == [] then False
    else
      var x := ExprValue(list[0], r, params);
      TriOr(if v.Null? || x.Null? then Unknown else Truth(v == x), InList(v, list[1..], r, params))
  }

  function Eval(c: Cond, r: Row, params: seq<Value>): Tri {
    match c
    case Cmp(op, a, b) =>
      var x, y := ExprValue(a, r, params), ExprValue(b, r, params);
      if x.Null? || y.Null? then Unknown else Truth(CompareTrue(op, x, y))
    case LikeEscaped(a, p) =>
      var x, y := ExprValue(a, r, params), ExprValue(p, r, params);
      if x.Null? || y.Null? then Unknown else Truth(x.Text? && y.Text? && LikePattern.Like(y.s, x.s))
    case InstrPositive(a, k) =>
      var x, y := ExprValue(a, r, params), ExprValue(k, r, params);
      if x.Null? || y.Null? then Unknown else Truth(x.Text? && y.Text? && LikePattern.Contains(x.s, y.s))
    case NotNull(e) => Truth(!ExprValue(e, r, params).Null?)
    case QueryHas(n, v) =>
      var x, y := ExprValue(n, r, params), ExprValue(v, r, params);
      Truth(!x.Null? && !y.Null? && r.d.Some? && r.d.value.pairs.Some? && (x, y) in r.d.value.pairs.value)
    case In(e, list) => InList(ExprValue(e, r, params), list, r, params)
    case NotIn(e, list) => TriNot(InList(ExprValue(e, r, params), list, r, params))
    case And(a, b) => TriAnd(Eval(a, r, params), Eval(b, r, params))
    case Or(a, b) => TriOr(Eval(a, r, params), Eval(b, r, params))
    case Never => False
  }

  // ---- Which parameters and columns a condition reads ----

  function ExprParams(e: Expr): nat {
    match e
    case Param(n) => n
    case Lower(a) => ExprParams(a)
    case Upper(a) => ExprParams(a)
    case OrEmpty(a) => ExprParams(a)
    case Concat(a, b) => Max(ExprParams(a), ExprParams(b))
    case _ => 0
  }

  function Max(a: nat, b: nat): nat {
    if a >= b then a else b
  }

  function ListParams(list: seq<Expr>): nat {
    if list == [] then 0 else Max(ExprParams(list[0]), ListParams(list[1..]))
  }

  /** The highest placeholder number in the condition. */
  function Params(c: Cond): nat {
    match c
    case Cmp(_, a, b) => Max(ExprParams(a), ExprParams(b))
    case LikeEscaped(a, b) => Max(ExprParams(a), ExprParams(b))
    case InstrPositive(a, b) => Max(ExprParams(a), ExprParams(b))
    case NotNull(e) => ExprParams(e)
    case QueryHas(a, b) => Max(ExprParams(a), ExprParams(b))
    case In(e, list) => Max(ExprParams(e), ListParams(list))
    case NotIn(e, list) => Max(ExprParams(e), ListParams(list))
    case And(a, b) => Max(Params(a), Params(b))
    case Or(a, b) => Max(Params(a), Params(b))
    case Never => 0
  }

  lemma {:induction false} ExprPrefix(e: Expr, r: Row, params: seq<Value>, more: seq<Value>)
    requires ExprParams(e) <= |params|
    ensures ExprValue(e, r, params + more) == ExprValue(e, r, params)
  {
    match e
    case Lower(a) => ExprPrefix(a, r, params, more);
    case Upper(a) => ExprPrefix(a, r, params, more);
    case OrEmpty(a) => ExprPrefix(a, r, params, more);
    case Concat(a, b) =>
      ExprPrefix(a, r, params, more);
      ExprPrefix(b, r, params, more);
    case _ =>
  }

  lemma {:induction false} ListPrefix(v: Value, list: seq<Expr>, r: Row, params: seq<Value>, more: seq<Value>)
    requires ListParams(list) <= |params|
    ensures InList(v, list, r, params + more) == InList(v, list, r, params)
    decreases |list|
  {
    if list != [] {
      ExprPrefix(list[0], r, params, more);
      ListPrefix(v, list[1..], r, params, more);
    }
  }

  /** Binding further values does not change a condition that was complete. */
  lemma {:induction false} EvalPrefix(c: Cond, r: Row, params: seq<Value>, more: seq<Value>)
    requires Params(c) <= |params|
    ensures Eval(c, r, params + more) == Eval(c, r, params)
  {
    match c
    case Cmp(_, a, b) =>
      ExprPrefix(a, r, params, more);
      ExprPrefix(b, r, params, more);
    case LikeEscaped(a, b) =>
      ExprPrefix(a, r, params, more);
      ExprPrefix(b, r, params, more);
    case InstrPositive(a, b) =>
      ExprPrefix(a, r, params, more);
      ExprPrefix(b, r, params, more);
    case NotNull(e) => ExprPrefix(e, r, params, more);
    case QueryHas(a, b) =>
      ExprPrefix(a, r, params, more);
      ExprPrefix(b, r, params, more);
    case In(e, list) =>
      ExprPrefix(e, r, params, more);
      ListPrefix(ExprValue(e, r, params), list, r, params, more);
    case NotIn(e, list) =>
      ExprPrefix(e, r, params, more);
      ListPrefix(ExprValue(e, r, params), list, r, params, more);
    case And(a, b) =>
      EvalPrefix(a, r, params, more);
      EvalPrefix(b, r, params, more);
    case Or(a, b) =>
      EvalPrefix(a, r, params, more);
      EvalPrefix(b, r, params, more);
    case Never =>
  }

  // ---- The joined WHERE clause ----

  /** `conditions.join(" AND ")`; no clause at all when the list is empty. */
  function JoinAnd(conds: seq<Cond>): Option<Cond> {
    if conds == [] then None
    else
      var rest := JoinAnd(conds[1..]);
      if rest.None? then Some(conds[0]) else Some(And(conds[0], rest.value))
  }

  predicate Selected(where_: Option<Cond>, r: Row, params: seq<Value>) {
    where_.Some? ==> Eval(where_.value, r, params) == True
  }

  lemma {:induction false} JoinedSelects(conds: seq<Cond>, r: Row, params: seq<Value>)
    ensures Selected(JoinAnd(conds), r, params) <==> forall i :: 0 <= i < |conds| ==> Eval(conds[i], r, params) == True
    decreases |conds|
  {
    if conds != [] {
      JoinedSelects(conds[1..], r, params);
      var rest := conds[1..];
      if forall i :: 0 <= i < |rest| ==> Eval(rest[i], r, params) == True {
        forall i | 0 < i < |conds|
          ensures Eval(conds[i], r, params) == True
        {
          assert conds[i] == rest[i - 1];
        }
      } else {
        var i :| 0 <= i < |rest| && Eval(rest[i], r, params) != True;
        assert conds[i + 1] == rest[i];
      }
    }
  }
}
