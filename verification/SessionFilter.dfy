/** The filter of `search_sessions`: its meaning, row by row, and the compiler
    that turns it into SQL conditions with positional placeholders. */
module SessionFilter {
  import opened Common
  import opened Sql
  import opened RustText
  import opened LikePattern
  import Keyset
  import TextOrder

  datatype SortField = ByStartedAt | ByDuration | BySize | ByStatus

  datatype SearchField = InUrl | InHost | InPath | InMethod | InHeaders | InQuery

  datatype Filter = Filter(
    host: Option<string>, hostContains: Option<string>, pathContains: Option<string>,
    queryParams: seq<(string, string)>, verb: Option<string>, statusMin: Option<nat>, statusMax: Option<nat>,
    protocol: Option<string>, mime: Option<string>, startedAfter: Option<string>, startedBefore: Option<string>,
    minDuration: Option<nat>, maxDuration: Option<nat>, keyword: Option<string>, searchIn: seq<SearchField>,
    sortBy: SortField, direction: Keyset.Direction, afterRowid: Option<int>, completedOnly: bool,
    failedOnly: bool, failureKind: Option<string>, failureOrigin: Option<string>)

  // ---- Meaning ----

  /** One active condition of a filter, in terms of the stored row. */
  datatype Test =
    | AfterRowid(n: int)
    | Completed(failures: bool)
    | HostIs(s: string)
    | HostContains(s: string)
    | PathContains(s: string)
    | QueryParam(name: string, value: string)
    | MethodIs(s: string)
    | StatusAtLeast(n: int)
    | StatusAtMost(n: int)
    | ProtocolIs(s: string)
    | MimeContains(s: string)
    | StartedFrom(s: string)
    | StartedUntil(s: string)
    | DurationAtLeast(n: int)
    | DurationAtMost(n: int)
    | Impossible
    | Failed
    | FailureKindIs(s: string)
    | FailureOriginIs(s: string)
    | FieldHas(field: SearchField, s: string)
    | AnyFieldHas(fields: seq<SearchField>, s: string)
    | Beyond(direction: Keyset.Direction, sortBy: SortField, key: Keyset.Key)

  ghost predicate HasFolded(text: string, k: string) {
    Contains(Fold(text), Fold(k))
  }

  ghost predicate Holds(t: Test, r: Row) {
    match t
    case AfterRowid(n) => r.s.rowid > n
    case Completed(failures) => r.s.finishedAt != "" && (r.s.statusCode != 0 || (failures && r.s.failureKind.Some?))
    case HostIs(s) => Fold(r.s.host) == s
    case HostContains(s) => HasFolded(r.s.host, s)
    case PathContains(s) => Contains(r.s.path, s)
    case QueryParam(n, v) => r.d.Some? && r.d.value.pairs.Some? && (Text(n), Text(v)) in r.d.value.pairs.value
    case MethodIs(s) => FoldUp(r.s.verb) == s
    case StatusAtLeast(n) => r.s.statusCode >= n
    case StatusAtMost(n) => r.s.statusCode <= n
    case ProtocolIs(s) => Fold(r.s.scheme) == s || Fold(r.s.protocol) == s || Fold(r.s.httpVersion) == s
    case MimeContains(s) => HasFolded(if r.s.mime.Some? then r.s.mime.value else "", s)
    case StartedFrom(s) => !TextOrder.Less(r.s.startedAt, s)
    case StartedUntil(s) => !TextOrder.Less(s, r.s.startedAt)
    case DurationAtLeast(n) => r.s.durationMs >= n
    case DurationAtMost(n) => r.s.durationMs <= n
    case Impossible => false
    case Failed => r.s.failureKind.Some?
    case FailureKindIs(s) => r.s.failureKind == Some(s)
    case FailureOriginIs(s) => r.s.failureOrigin == Some(s)
    case FieldHas(f, s) => FieldContains(f, s, r)
    case AnyFieldHas(fields, s) => exists f :: f in fields && FieldContains(f, s, r)
    case Beyond(d, by_, key) => Keyset.Precedes(d, key, KeyOf(by_, r.s))
  }

  ghost predicate FieldContains(f: SearchField, s: string, r: Row) {
    FieldText(f, r).Some? && HasFolded(FieldText(f, r).value, s)
  }

  function FieldText(f: SearchField, r: Row): Option<string> {
    match f
    case InUrl => Some(r.s.url)
    case InHost => Some(r.s.host)
    case InPath => Some(r.s.path)
    case InMethod => Some(r.s.verb)
    case InHeaders => if r.d.Some? then Some(r.d.value.requestHeaders + " " + r.d.value.responseHeaders) else None
    case InQuery => if r.d.Some? then Some(r.d.value.queryText) else None
  }

  /** The stored value of the numeric sort column; a constant when there is none. */
  function SortValue(f: SortField, s: Summary): int {
    match f
    case ByStartedAt => 0
    case ByDuration => s.durationMs
    case BySize => s.sizeBytes
    case ByStatus => s.statusCode
  }

  function KeyOf(f: SortField, s: Summary): Keyset.Key {
    Keyset.Key(SortValue(f, s), s.startedAt, s.id)
  }

  /** `i64::try_from(n).unwrap_or(i64::MAX)` */
  function SaturateI64(n: nat): int {
    if n < I64_BOUND then n else I64_BOUND - 1
  }

  predicate WantsFailure(f: Filter) {
    f.failedOnly || Active(f.failureKind).Some? || Active(f.failureOrigin).Some?
  }

  function Fields(f: Filter): seq<SearchField> {
    if f.searchIn == [] then [InUrl, InHost, InPath, InMethod] else f.searchIn
  }

  function IfText(o: Option<string>, t: string -> Test): Option<Test> {
    if Active(o).Some? then Some(t(Active(o).value)) else None
  }

  function IfSet(b: bool, t: Test): Option<Test> {
    if b then Some(t) else None
  }

  function IfNat(o: Option<nat>, t: nat -> Test): Option<Test> {
    if o.Some? then Some(t(o.value)) else None
  }

  function RowidTest(f: Filter): Option<Test> {
    if f.afterRowid.Some? then Some(AfterRowid(f.afterRowid.value)) else None
  }

  function QueryTest(pair: (string, string)): Option<Test> {
    IfSet(!Blank(pair.0), QueryParam(Trim(pair.0), pair.1))
  }

  function Plus(tests: seq<Test>, t: Option<Test>): seq<Test> {
    if t.Some? then tests + [t.value] else tests
  }

  function PlusAll(tests: seq<Test>, pairs: seq<(string, string)>): seq<Test>
    decreases |pairs|
  {
    if pairs == [] then tests else PlusAll(Plus(tests, QueryTest(pairs[0])), pairs[1..])
  }

  /** The filter's active conditions. A database without failure columns matches
      no failure filter. */
  function ActiveTests(f: Filter, failures: bool, cm: CaseMap): seq<Test> {
    var t := PlusAll(RowTests(f, failures, cm), f.queryParams);
    KeywordTests(FailureTests(RangeTests(AttributeTests(t, f, cm), f), f, failures), f, cm)
  }

  function RowTests(f: Filter, failures: bool, cm: CaseMap): seq<Test> {
    var t := Plus([], RowidTest(f));
    var t := Plus(t, IfSet(f.completedOnly, Completed(failures)));
    var t := Plus(t, IfText(f.host, s => HostIs(cm.lower(s))));
    var t := Plus(t, IfText(f.hostContains, s => HostContains(cm.lower(s))));
    Plus(t, IfText(f.pathContains, s => PathContains(s)))
  }

  function AttributeTests(t: seq<Test>, f: Filter, cm: CaseMap): seq<Test> {
    var t := Plus(t, IfText(f.verb, s => MethodIs(cm.upper(s))));
    var t := Plus(t, IfNat(f.statusMin, (n: nat) => StatusAtLeast(n)));
    var t := Plus(t, IfNat(f.statusMax, (n: nat) => StatusAtMost(n)));
    var t := Plus(t, IfText(f.protocol, s => ProtocolIs(cm.lower(s))));
    Plus(t, IfText(f.mime, s => MimeContains(cm.lower(s))))
  }

  function RangeTests(t: seq<Test>, f: Filter): seq<Test> {
    var t := Plus(t, IfText(f.startedAfter, s => StartedFrom(s)));
    var t := Plus(t, IfText(f.startedBefore, s => StartedUntil(s)));
    var t := Plus(t, IfNat(f.minDuration, (n: nat) => DurationAtLeast(SaturateI64(n))));
    Plus(t, IfNat(f.maxDuration, (n: nat) => DurationAtMost(SaturateI64(n))))
  }

  function FailureTests(t: seq<Test>, f: Filter, failures: bool): seq<Test> {
    if WantsFailure(f) && !failures then Plus(t, Some(Impossible))
    else
      var t := Plus(t, IfSet(f.failedOnly, Failed));
      var t := Plus(t, IfText(f.failureKind, s => FailureKindIs(s)));
      Plus(t, IfText(f.failureOrigin, s => FailureOriginIs(s)))
  }

  function KeywordTests(t: seq<Test>, f: Filter, cm: CaseMap): seq<Test> {
    Plus(t, IfText(f.keyword, s => AnyFieldHas(Fields(f), cm.lower(s))))
  }

  ghost predicate Matches(tests: seq<Test>, r: Row) {
    forall i :: 0 <= i < |tests| ==> Holds(tests[i], r)
  }

  lemma {:induction false} MatchesPlus(tests: seq<Test>, t: Option<Test>, r: Row)
    ensures Matches(Plus(tests, t), r) <==> Matches(tests, r) && (t.Some? ==> Holds(t.value, r))
  {
    if t.Some? {
      var all := Plus(tests, t);
      assert all[|tests|] == t.value;
      assert forall i :: 0 <= i < |tests| ==> all[i] == tests[i];
    }
  }

  // ---- The query under construction ----

  datatype Query = Query(conditions: seq<Cond>, values: seq<Value>, index: nat, joinDetails: bool)

  predicate ExprUsesDetail(e: Expr) {
    match e
    case Col(c) => OfDetail(c)
    case Lower(a) => ExprUsesDetail(a)
    case Upper(a) => ExprUsesDetail(a)
    case OrEmpty(a) => ExprUsesDetail(a)
    case Concat(a, b) => ExprUsesDetail(a) || ExprUsesDetail(b)
    case _ => false
  }

  predicate UsesDetail(c: Cond) {
    match c
    case Cmp(_, a, b) => ExprUsesDetail(a) || ExprUsesDetail(b)
    case LikeEscaped(a, b) => ExprUsesDetail(a) || ExprUsesDetail(b)
    case InstrPositive(a, b) => ExprUsesDetail(a) || ExprUsesDetail(b)
    case NotNull(e) => ExprUsesDetail(e)
    case QueryHas(_, _) => true
    case In(e, _) => ExprUsesDetail(e)
    case NotIn(e, _) => ExprUsesDetail(e)
    case And(a, b) => UsesDetail(a) || UsesDetail(b)
    case Or(a, b) => UsesDetail(a) || UsesDetail(b)
    case Never => false
  }

  /** Under these bound values the condition is true of exactly the rows the test accepts. */
  ghost predicate Means(c: Cond, values: seq<Value>, t: Test) {
    Params(c) <= |values| && forall r: Row :: Eval(c, r, values) == True <==> Holds(t, r)
  }

  /** Next index is one past the bound values, every condition means its test,
      and the detail table is joined whenever a condition reads it. */
  ghost predicate Compiled(q: Query, tests: seq<Test>) {
    && q.index == |q.values| + 1
    && |q.conditions| == |tests|
    && (forall i :: 0 <= i < |tests| ==> Means(q.conditions[i], q.values, tests[i]))
    && (forall i :: 0 <= i < |tests| ==> UsesDetail(q.conditions[i]) ==> q.joinDetails)
  }

  lemma {:induction false} MeansPrefix(c: Cond, values: seq<Value>, more: seq<Value>, t: Test)
    requires Means(c, values, t)
    ensures Means(c, values + more, t)
  {
    forall r: Row
      ensures Eval(c, r, values + more) == True <==> Holds(t, r)
    {
      EvalPrefix(c, r, values, more);
    }
  }

  // ---- What the individual conditions mean ----

  lemma {:induction false} CmpEval(op: CmpOp, a: Expr, b: Expr, r: Row, vals: seq<Value>, x: Value, y: Value)
    requires ExprValue(a, r, vals) == x && ExprValue(b, r, vals) == y && !x.Null? && !y.Null?
    ensures Eval(Cmp(op, a, b), r, vals) == Truth(CompareTrue(op, x, y))
  {
  }

  lemma {:induction false} JunctionEval(a: Cond, b: Cond, r: Row, vals: seq<Value>)
    ensures Eval(And(a, b), r, vals) == TriAnd(Eval(a, r, vals), Eval(b, r, vals))
    ensures Eval(Or(a, b), r, vals) == TriOr(Eval(a, r, vals), Eval(b, r, vals))
    ensures Params(And(a, b)) == Params(Or(a, b)) == Sql.Max(Params(a), Params(b))
    ensures UsesDetail(And(a, b)) == UsesDetail(Or(a, b)) == (UsesDetail(a) || UsesDetail(b))
  {
  }

  lemma {:induction false} FoldedColumn(c: Column, r: Row, vals: seq<Value>, text: string)
    requires ColumnValue(c, r) == Text(text)
    ensures ExprValue(Lower(Col(c)), r, vals) == Text(Fold(text))
  {
    assert ExprValue(Col(c), r, vals) == Text(text);
  }

  /** Shape facts that no row can influence. */
  lemma {:induction false} CmpShape(op: CmpOp, a: Expr, n: nat)
    requires ExprParams(a) == 0 && !ExprUsesDetail(a)
    ensures Params(Cmp(op, a, Param(n))) == n && !UsesDetail(Cmp(op, a, Param(n)))
  {
  }

  lemma {:induction false} LowerShape(c: Column)
    ensures ExprParams(Col(c)) == ExprParams(Lower(Col(c))) == 0
    ensures ExprUsesDetail(Lower(Col(c))) == ExprUsesDetail(Col(c)) == OfDetail(c)
  {
  }

  /** The pattern parameter of every substring condition. */
  function Substring(s: string): Value {
    Text("%" + Escape(s) + "%")
  }

  lemma {:induction false} LikeMeans(e: Expr, n: nat, vals: seq<Value>, s: string, r: Row, text: string)
    requires 1 <= n <= |vals| && vals[n - 1] == Substring(s)
    requires ExprValue(e, r, vals) == Text(Fold(text))
    ensures Eval(LikeEscaped(e, Param(n)), r, vals) == True <==> HasFolded(text, s)
  {
    EscapedKeywordIsLiteral(s, Fold(text));
    FoldIdempotent(text);
  }

  lemma {:induction false} TextLeast(a: string, b: string)
    ensures !TextOrder.Less(a, b) <==> TextOrder.Less(b, a) || a == b
  {
    TextOrder.Total(a, b);
    TextOrder.Irreflexive(a);
    if TextOrder.Less(a, b) {
      TextOrder.Asymmetric(a, b);
    }
  }

  lemma {:induction false} HostContainsMeans(n: nat, vals: seq<Value>, s: string)
    requires n == |vals| >= 1 && vals[n - 1] == Substring(s)
    ensures Means(LikeEscaped(Lower(Col(Host)), Param(n)), vals, HostContains(s))
  {
    forall r: Row
      ensures Eval(LikeEscaped(Lower(Col(Host)), Param(n)), r, vals) == True <==> Holds(HostContains(s), r)
    {
      LikeMeans(Lower(Col(Host)), n, vals, s, r, r.s.host);
    }
  }

  lemma {:induction false} MimeContainsMeans(n: nat, vals: seq<Value>, s: string)
    requires n == |vals| >= 1 && vals[n - 1] == Substring(s)
    ensures Means(LikeEscaped(Lower(OrEmpty(Col(Mime))), Param(n)), vals, MimeContains(s))
  {
    var e := Lower(OrEmpty(Col(Mime)));
    forall r: Row
      ensures Eval(LikeEscaped(e, Param(n)), r, vals) == True <==> Holds(MimeContains(s), r)
    {
      var m := if r.s.mime.Some? then r.s.mime.value else "";
      assert ExprValue(OrEmpty(Col(Mime)), r, vals) == Text(m);
      LikeMeans(e, n, vals, s, r, m);
    }
  }

  function FieldExpr(f: SearchField): Expr {
    match f
    case InUrl => Lower(Col(Url))
    case InHost => Lower(Col(Host))
    case InPath => Lower(Col(Path))
    case InMethod => Lower(Col(Method))
    case InHeaders => Lower(Concat(Concat(Col(RequestHeaders), StrLit(" ")), Col(ResponseHeaders)))
    case InQuery => Lower(Col(QueryText))
  }

  lemma {:induction false} HeadersText(r: Row, vals: seq<Value>)
    ensures ExprValue(FieldExpr(InHeaders), r, vals)
         == if r.d.Some? then Text(Fold(r.d.value.requestHeaders + " " + r.d.value.responseHeaders)) else Null
  {
    var inner := Concat(Col(RequestHeaders), StrLit(" "));
    assert ExprValue(inner, r, vals) == if r.d.Some? then Text(r.d.value.requestHeaders + " ") else Null;
    assert ExprValue(Concat(inner, Col(ResponseHeaders)), r, vals) == OrNull(FieldText(InHeaders, r));
  }

  lemma {:induction false} FieldExprText(f: SearchField, r: Row, vals: seq<Value>)
    ensures ExprValue(FieldExpr(f), r, vals)
            == if FieldText(f, r).Some? then Text(Fold(FieldText(f, r).value)) else Null
  {
    if f.InHeaders? {
      HeadersText(r, vals);
    }
  }

  lemma {:induction false} FieldExprShape(f: SearchField)
    ensures ExprParams(FieldExpr(f)) == 0
    ensures ExprUsesDetail(FieldExpr(f)) <==> f.InHeaders? || f.InQuery?
  {
    if f.InHeaders? {
      var inner := Concat(Col(RequestHeaders), StrLit(" "));
      assert ExprParams(inner) == 0 && ExprUsesDetail(inner);
      assert ExprParams(Concat(inner, Col(ResponseHeaders))) == 0
               && ExprUsesDetail(Concat(inner, Col(ResponseHeaders)));
    }
  }

  lemma {:induction false} FieldMeans(f: SearchField, n: nat, vals: seq<Value>, s: string)
    requires n == |vals| >= 1 && vals[n - 1] == Substring(s)
    ensures Means(LikeEscaped(FieldExpr(f), Param(n)), vals, FieldHas(f, s))
    ensures UsesDetail(LikeEscaped(FieldExpr(f), Param(n))) <==> f.InHeaders? || f.InQuery?
  {
    forall r: Row
      ensures Eval(LikeEscaped(FieldExpr(f), Param(n)), r, vals) == True <==> Holds(FieldHas(f, s), r)
    {
      FieldRow(f, n, vals, s, r);
    }
    FieldExprShape(f);
  }

  lemma {:induction false} FieldRow(f: SearchField, n: nat, vals: seq<Value>, s: string, r: Row)
    requires 1 <= n <= |vals| && vals[n - 1] == Substring(s)
    ensures Eval(LikeEscaped(FieldExpr(f), Param(n)), r, vals) == True <==> FieldContains(f, s, r)
  {
    FieldExprText(f, r, vals);
    if FieldText(f, r).Some? {
      LikeMeans(FieldExpr(f), n, vals, s, r, FieldText(f, r).value);
    }
  }

  lemma {:induction false} StartedFromMeans(n: nat, vals: seq<Value>, s: string)
    requires n == |vals| >= 1 && vals[n - 1] == Text(s)
    ensures Means(Cmp(Ge, Col(StartedAt), Param(n)), vals, StartedFrom(s))
  {
    CmpShape(Ge, Col(StartedAt), n);
    forall r: Row
      ensures Eval(Cmp(Ge, Col(StartedAt), Param(n)), r, vals) == True <==> Holds(StartedFrom(s), r)
    {
      CmpEval(Ge, Col(StartedAt), Param(n), r, vals, Text(r.s.startedAt), Text(s));
      TextLeast(r.s.startedAt, s);
    }
  }

  lemma {:induction false} StartedUntilMeans(n: nat, vals: seq<Value>, s: string)
    requires n == |vals| >= 1 && vals[n - 1] == Text(s)
    ensures Means(Cmp(Le, Col(StartedAt), Param(n)), vals, StartedUntil(s))
  {
    CmpShape(Le, Col(StartedAt), n);
    forall r: Row
      ensures Eval(Cmp(Le, Col(StartedAt), Param(n)), r, vals) == True <==> Holds(StartedUntil(s), r)
    {
      CmpEval(Le, Col(StartedAt), Param(n), r, vals, Text(r.s.startedAt), Text(s));
      TextLeast(s, r.s.startedAt);
    }
  }

  function ProtocolCond(n: nat): Cond {
    Or(Or(Cmp(Eq, Lower(Col(Scheme)), Param(n)), Cmp(Eq, Lower(Col(Protocol)), Param(n))),
       Cmp(Eq, Lower(Col(HttpVersion)), Param(n)))
  }

  lemma {:induction false} ProtocolMeans(n: nat, vals: seq<Value>, s: string)
    requires n == |vals| >= 1 && vals[n - 1] == Text(s)
    ensures Means(ProtocolCond(n), vals, ProtocolIs(s))
  {
    ProtocolShape(n);
    forall r: Row
      ensures Eval(ProtocolCond(n), r, vals) == True <==> Holds(ProtocolIs(s), r)
    {
      ProtocolEval(n, vals, s, r);
    }
  }

  lemma {:induction false} ProtocolEval(n: nat, vals: seq<Value>, s: string, r: Row)
    requires n == |vals| >= 1 && vals[n - 1] == Text(s)
    ensures Eval(ProtocolCond(n), r, vals)
         == Truth(Fold(r.s.scheme) == s || Fold(r.s.protocol) == s || Fold(r.s.httpVersion) == s)
  {
    var a := FoldedEq(Scheme, n, vals, s, r, r.s.scheme);
    var b := FoldedEq(Protocol, n, vals, s, r, r.s.protocol);
    var c := FoldedEq(HttpVersion, n, vals, s, r, r.s.httpVersion);
    JunctionEval(a, b, r, vals);
    JunctionEval(Or(a, b), c, r, vals);
  }

  lemma {:induction false} ProtocolShape(n: nat)
    ensures Params(ProtocolCond(n)) == n && !UsesDetail(ProtocolCond(n))
  {
    var a := FoldedEqShape(Scheme, n);
    var b := FoldedEqShape(Protocol, n);
    var c := FoldedEqShape(HttpVersion, n);
    OrShape(a, b);
    OrShape(Or(a, b), c);
  }

  lemma {:induction false} OrShape(a: Cond, b: Cond)
    ensures Params(Or(a, b)) == Sql.Max(Params(a), Params(b))
    ensures UsesDetail(Or(a, b)) == (UsesDetail(a) || UsesDetail(b))
  {
  }

  lemma {:induction false} FoldedEqShape(col: Column, n: nat) returns (c: Cond)
    requires !OfDetail(col)
    ensures c == Cmp(Eq, Lower(Col(col)), Param(n)) && Params(c) == n && !UsesDetail(c)
  {
    c := Cmp(Eq, Lower(Col(col)), Param(n));
    LowerShape(col);
    CmpShape(Eq, Lower(Col(col)), n);
  }

  lemma {:induction false} FoldedEq(col: Column, n: nat, vals: seq<Value>, s: string, r: Row, text: string)
    returns (c: Cond)
    requires n == |vals| >= 1 && vals[n - 1] == Text(s) && ColumnValue(col, r) == Text(text)
    ensures c == Cmp(Eq, Lower(Col(col)), Param(n)) && Eval(c, r, vals) == Truth(Fold(text) == s)
  {
    c := Cmp(Eq, Lower(Col(col)), Param(n));
    FoldedColumn(col, r, vals, text);
    CmpEval(Eq, Lower(Col(col)), Param(n), r, vals, Text(Fold(text)), Text(s));
  }

  function CompletedCond(failures: bool): Cond {
    var status := Cmp(Ne, Col(StatusCode), IntLit(0));
    And(Cmp(Ne, Col(FinishedAt), StrLit("")), if failures then Or(status, NotNull(Col(FailureKind))) else status)
  }

  lemma {:induction false} CompletedMeans(failures: bool, vals: seq<Value>)
    ensures Means(CompletedCond(failures), vals, Completed(failures)) && !UsesDetail(CompletedCond(failures))
  {
    var status := Cmp(Ne, Col(StatusCode), IntLit(0));
    var failed := NotNull(Col(FailureKind));
    var finished := Cmp(Ne, Col(FinishedAt), StrLit(""));
    var second := if failures then Or(status, failed) else status;
    assert Params(status) == Params(failed) == Params(finished) == 0;
    assert Params(second) == 0 && !UsesDetail(second);
    forall r: Row
      ensures Eval(CompletedCond(failures), r, vals) == True <==> Holds(Completed(failures), r)
    {
      CmpEval(Ne, Col(StatusCode), IntLit(0), r, vals, Int(r.s.statusCode), Int(0));
      CmpEval(Ne, Col(FinishedAt), StrLit(""), r, vals, Text(r.s.finishedAt), Text(""));
      JunctionEval(status, failed, r, vals);
      JunctionEval(finished, second, r, vals);
      FailedEval(r, vals);
    }
  }

  lemma {:induction false} FailedEval(r: Row, vals: seq<Value>)
    ensures Eval(NotNull(Col(FailureKind)), r, vals) == Truth(r.s.failureKind.Some?)
  {
  }

  function SortColumn(by_: SortField): Column
    requires !by_.ByStartedAt?
  {
    match by_
    case ByDuration => DurationMs
    case BySize => SizeBytes
    case ByStatus => StatusCode
  }

  function Comparison(d: Keyset.Direction): CmpOp {
    if d.Desc? then Lt else Gt
  }

  function TieBreak(d: Keyset.Direction, started: nat): Cond {
    Or(Cmp(Comparison(d), Col(StartedAt), Param(started)),
       And(Cmp(Eq, Col(StartedAt), Param(started)), Cmp(Comparison(d), Col(Id), Param(started + 1))))
  }

  function BeyondCond(d: Keyset.Direction, by_: SortField, n: nat): Cond {
    if by_.ByStartedAt? then TieBreak(d, n)
    else
      var column := Col(SortColumn(by_));
      Or(Cmp(Comparison(d), column, Param(n)), And(Cmp(Eq, column, Param(n)), TieBreak(d, n + 1)))
  }

  function BeyondValues(by_: SortField, key: Keyset.Key): seq<Value> {
    (if by_.ByStartedAt? then [] else [Int(key.value)]) + [Text(key.at), Text(key.id)]
  }

  lemma {:induction false} TieBreakMeans(d: Keyset.Direction, n: nat, vals: seq<Value>, key: Keyset.Key, r: Row)
    requires 1 <= n && n + 1 <= |vals| && vals[n - 1] == Text(key.at) && vals[n] == Text(key.id)
    ensures Eval(TieBreak(d, n), r, vals)
              == Truth(Keyset.Precedes(d, Keyset.Key(0, key.at, key.id), Keyset.Key(0, r.s.startedAt, r.s.id)))
  {
    var first := Cmp(Comparison(d), Col(StartedAt), Param(n));
    var same := Cmp(Eq, Col(StartedAt), Param(n));
    var last := Cmp(Comparison(d), Col(Id), Param(n + 1));
    CmpEval(Comparison(d), Col(StartedAt), Param(n), r, vals, Text(r.s.startedAt), Text(key.at));
    CmpEval(Eq, Col(StartedAt), Param(n), r, vals, Text(r.s.startedAt), Text(key.at));
    CmpEval(Comparison(d), Col(Id), Param(n + 1), r, vals, Text(r.s.id), Text(key.id));
    JunctionEval(same, last, r, vals);
    JunctionEval(first, And(same, last), r, vals);
  }

  lemma {:induction false} BeyondShape(d: Keyset.Direction, by_: SortField, n: nat)
    ensures Params(TieBreak(d, n)) == n + 1 && !UsesDetail(TieBreak(d, n))
    ensures Params(BeyondCond(d, by_, n)) == (if by_.ByStartedAt? then n + 1 else n + 2)
              && !UsesDetail(BeyondCond(d, by_, n))
  {
    TieBreakShape(d, n);
    TieBreakShape(d, n + 1);
    if !by_.ByStartedAt? {
      var column := Col(SortColumn(by_));
      CmpShape(Eq, column, n);
      CmpShape(Comparison(d), column, n);
      var inner := And(Cmp(Eq, column, Param(n)), TieBreak(d, n + 1));
      assert Params(inner) == n + 2 && !UsesDetail(inner);
    }
  }

  lemma {:induction false} TieBreakShape(d: Keyset.Direction, n: nat)
    ensures Params(TieBreak(d, n)) == n + 1 && !UsesDetail(TieBreak(d, n))
  {
    CmpShape(Eq, Col(StartedAt), n);
    CmpShape(Comparison(d), Col(StartedAt), n);
    CmpShape(Comparison(d), Col(Id), n + 1);
    var inner := And(Cmp(Eq, Col(StartedAt), Param(n)), Cmp(Comparison(d), Col(Id), Param(n + 1)));
    assert Params(inner) == n + 1 && !UsesDetail(inner);
  }

  lemma {:induction false} BeyondEval(d: Keyset.Direction, by_: SortField, n: nat, vals: seq<Value>, key: Keyset.Key,
                                      r: Row)
    requires !by_.ByStartedAt? && 1 <= n && n + 2 == |vals|
    requires vals[n - 1] == Int(key.value) && vals[n] == Text(key.at) && vals[n + 1] == Text(key.id)
    ensures Eval(BeyondCond(d, by_, n), r, vals) == True <==> Keyset.Precedes(d, key, KeyOf(by_, r.s))
  {
    var column := Col(SortColumn(by_));
    var tie := TieBreak(d, n + 1);
    assert ExprValue(column, r, vals) == Int(SortValue(by_, r.s));
    CmpEval(Comparison(d), column, Param(n), r, vals, Int(SortValue(by_, r.s)), Int(key.value));
    CmpEval(Eq, column, Param(n), r, vals, Int(SortValue(by_, r.s)), Int(key.value));
    TieBreakMeans(d, n + 1, vals, key, r);
    JunctionEval(Cmp(Eq, column, Param(n)), tie, r, vals);
    JunctionEval(Cmp(Comparison(d), column, Param(n)), And(Cmp(Eq, column, Param(n)), tie), r, vals);
  }

  lemma {:induction false} BeyondMeans(d: Keyset.Direction, by_: SortField, vals: seq<Value>, key: Keyset.Key)
    requires by_.ByStartedAt? ==> key.value == 0
    ensures Means(BeyondCond(d, by_, |vals| + 1), vals + BeyondValues(by_, key), Beyond(d, by_, key))
    ensures !UsesDetail(BeyondCond(d, by_, |vals| + 1))
  {
    var n := |vals| + 1;
    var all := vals + BeyondValues(by_, key);
    BeyondShape(d, by_, n);
    forall r: Row
      ensures Eval(BeyondCond(d, by_, n), r, all) == True <==> Holds(Beyond(d, by_, key), r)
    {
      if by_.ByStartedAt? {
        TieBreakMeans(d, n, all, key, r);
      } else {
        BeyondEval(d, by_, n, all, key, r);
      }
    }
  }

  // ---- The SQL emitted for each condition ----

  function Clauses(fields: seq<SearchField>, n: nat): seq<Cond> {
    if fields == [] then [] else [LikeEscaped(FieldExpr(fields[0]), Param(n))] + Clauses(fields[1..], n + 1)
  }

  function Repeat(v: Value, n: nat): (r: seq<Value>)
    ensures |r| == n && forall i :: 0 <= i < n ==> r[i] == v
  {
    if n == 0 then [] else [v] + Repeat(v, n - 1)
  }

  predicate Emittable(t: Test) {
    match t
    case AnyFieldHas(fields, _) => fields != []
    case Beyond(_, by_, key) => by_.ByStartedAt? ==> key.value == 0
    case _ => true
  }

  /** The condition text, given the next free placeholder number. */
  function CondFor(t: Test, n: nat): Cond
    requires Emittable(t)
  {
    match t
    case AfterRowid(_) => Cmp(Gt, Col(RowId), Param(n))
    case Completed(failures) => CompletedCond(failures)
    case HostIs(_) => Cmp(Eq, Lower(Col(Host)), Param(n))
    case HostContains(_) => LikeEscaped(Lower(Col(Host)), Param(n))
    case PathContains(_) => InstrPositive(Col(Path), Param(n))
    case QueryParam(_, _) => QueryHas(Param(n), Param(n + 1))
    case MethodIs(_) => Cmp(Eq, Upper(Col(Method)), Param(n))
    case StatusAtLeast(_) => Cmp(Ge, Col(StatusCode), Param(n))
    case StatusAtMost(_) => Cmp(Le, Col(StatusCode), Param(n))
    case ProtocolIs(_) => ProtocolCond(n)
    case MimeContains(_) => LikeEscaped(Lower(OrEmpty(Col(Mime))), Param(n))
    case StartedFrom(_) => Cmp(Ge, Col(StartedAt), Param(n))
    case StartedUntil(_) => Cmp(Le, Col(StartedAt), Param(n))
    case DurationAtLeast(_) => Cmp(Ge, Col(DurationMs), Param(n))
    case DurationAtMost(_) => Cmp(Le, Col(DurationMs), Param(n))
    case Impossible => Never
    case Failed => NotNull(Col(FailureKind))
    case FailureKindIs(_) => Cmp(Eq, Col(FailureKind), Param(n))
    case FailureOriginIs(_) => Cmp(Eq, Col(FailureOrigin), Param(n))
    case FieldHas(f, _) => LikeEscaped(FieldExpr(f), Param(n))
    case AnyFieldHas(fields, _) => ClausesSize(fields, n); JoinOr(Clauses(fields, n))
    case Beyond(d, by_, _) => BeyondCond(d, by_, n)
  }

  /** The values pushed for it, in order. */
  function ValuesFor(t: Test): seq<Value> {
    match t
    case AfterRowid(n) => [Int(n)]
    case Completed(_) => []
    case HostIs(s) => [Text(s)]
    case HostContains(s) => [Substring(s)]
    case PathContains(s) => [Text(s)]
    case QueryParam(n, v) => [Text(n), Text(v)]
    case MethodIs(s) => [Text(s)]
    case StatusAtLeast(n) => [Int(n)]
    case StatusAtMost(n) => [Int(n)]
    case ProtocolIs(s) => [Text(s)]
    case MimeContains(s) => [Substring(s)]
    case StartedFrom(s) => [Text(s)]
    case StartedUntil(s) => [Text(s)]
    case DurationAtLeast(n) => [Int(n)]
    case DurationAtMost(n) => [Int(n)]
    case Impossible => []
    case Failed => []
    case FailureKindIs(s) => [Text(s)]
    case FailureOriginIs(s) => [Text(s)]
    case FieldHas(_, s) => [Substring(s)]
    case AnyFieldHas(fields, s) => Repeat(Substring(s), |fields|)
    case Beyond(_, by_, key) => BeyondValues(by_, key)
  }

  /** What `index` is advanced by. */
  function Bump(t: Test): nat {
    match t
    case Completed(_) => 0
    case Impossible => 0
    case Failed => 0
    case QueryParam(_, _) => 2
    case AnyFieldHas(fields, _) => |fields|
    case Beyond(_, by_, _) => if by_.ByStartedAt? then 2 else 3
    case _ => 1
  }

  /** Whether emitting it sets `needs_details_join`. */
  predicate NeedsDetails(t: Test) {
    match t
    case QueryParam(_, _) => true
    case FieldHas(f, _) => f.InHeaders? || f.InQuery?
    case AnyFieldHas(fields, _) => InHeaders in fields || InQuery in fields
    case _ => false
  }

  lemma {:induction false} ClausesSize(fields: seq<SearchField>, n: nat)
    ensures |Clauses(fields, n)| == |fields|
    ensures forall k :: 0 <= k < |fields| ==> Clauses(fields, n)[k] == LikeEscaped(FieldExpr(fields[k]), Param(n + k))
    decreases |fields|
  {
    if fields != [] {
      ClausesSize(fields[1..], n + 1);
    }
  }

  /** The k-th clause reads the k-th of the repeated patterns. */
  lemma {:induction false} ClauseMeans(f: SearchField, s: string, vals: seq<Value>, count: nat, k: nat)
    requires k < count
    ensures var c, all := LikeEscaped(FieldExpr(f), Param(|vals| + 1 + k)), vals + Repeat(Substring(s), count);
            Means(c, all, FieldHas(f, s)) && (UsesDetail(c) ==> f.InHeaders? || f.InQuery?)
  {
    var all := vals + Repeat(Substring(s), count);
    var some := all[..|vals| + k + 1];
    FieldMeans(f, |some|, some, s);
    MeansPrefix(LikeEscaped(FieldExpr(f), Param(|some|)), some, all[|vals| + k + 1..], FieldHas(f, s));
    assert some + all[|vals| + k + 1..] == all;
  }

  lemma {:induction false} KeywordMeans(fields: seq<SearchField>, s: string, vals: seq<Value>)
    requires fields != []
    ensures var t := AnyFieldHas(fields, s);
            && Means(CondFor(t, |vals| + 1), vals + ValuesFor(t), t)
            && (UsesDetail(CondFor(t, |vals| + 1)) ==> NeedsDetails(t))
  {
    var clauses := Clauses(fields, |vals| + 1);
    var all := vals + Repeat(Substring(s), |fields|);
    ClausesSize(fields, |vals| + 1);
    forall k | 0 <= k < |fields|
      ensures Means(clauses[k], all, FieldHas(fields[k], s))
      ensures UsesDetail(clauses[k]) ==> fields[k].InHeaders? || fields[k].InQuery?
    {
      ClauseMeans(fields[k], s, vals, |fields|, k);
    }
    AnyFieldMeans(clauses, all, fields, s);
  }

  /** Each emitted condition, with its own values bound at the next free
      placeholders, is true of exactly the rows the filter condition accepts. */
  lemma {:induction false} EmittedMeans(t: Test, vals: seq<Value>)
    requires Emittable(t)
    ensures Means(CondFor(t, |vals| + 1), vals + ValuesFor(t), t)
  {
    var n, all := |vals| + 1, vals + ValuesFor(t);
    match t
    case AfterRowid(v) => AfterRowidMeans(vals, v);
    case Completed(failures) => CompletedMeans(failures, all);
    case HostIs(s) => HostIsMeans(vals, s);
    case HostContains(s) => HostContainsMeans(n, all, s);
    case PathContains(s) => PathContainsMeans(vals, s);
    case QueryParam(name, v) => QueryParamMeans(vals, name, v);
    case MethodIs(s) => MethodIsMeans(vals, s);
    case StatusAtLeast(v) => StatusMeans(vals, v);
    case StatusAtMost(v) => StatusMeans(vals, v);
    case ProtocolIs(s) => ProtocolMeans(n, all, s);
    case MimeContains(s) => MimeContainsMeans(n, all, s);
    case StartedFrom(s) => StartedFromMeans(n, all, s);
    case StartedUntil(s) => StartedUntilMeans(n, all, s);
    case DurationAtLeast(v) => DurationMeans(vals, v);
    case DurationAtMost(v) => DurationMeans(vals, v);
    case Impossible => FailureMeans(all);
    case Failed => FailureMeans(all);
    case FailureKindIs(s) => FailureTextMeans(vals, s);
    case FailureOriginIs(s) => FailureTextMeans(vals, s);
    case FieldHas(f, s) => FieldMeans(f, n, all, s);
    case AnyFieldHas(fields, s) => KeywordMeans(fields, s, vals);
    case Beyond(d, by_, key) => BeyondMeans(d, by_, vals, key);
  }

  /** The index moves by the number of values pushed, and whatever reads the
      detail table joins it. */
  lemma {:induction false} EmittedShape(t: Test, vals: seq<Value>)
    requires Emittable(t)
    ensures Bump(t) == |ValuesFor(t)|
    ensures UsesDetail(CondFor(t, |vals| + 1)) ==> NeedsDetails(t)
  {
    var n, all := |vals| + 1, vals + ValuesFor(t);
    match t
    case Completed(failures) => CompletedMeans(failures, all);
    case HostIs(s) => LowerShape(Host);
    case HostContains(s) => LowerShape(Host);
    case MethodIs(s) => MethodIsMeans(vals, s);
    case ProtocolIs(s) => ProtocolShape(n);
    case MimeContains(s) => assert !ExprUsesDetail(OrEmpty(Col(Mime)));
    case FieldHas(f, s) => FieldExprShape(f);
    case AnyFieldHas(fields, s) => KeywordMeans(fields, s, vals);
    case Beyond(d, by_, key) => BeyondShape(d, by_, n);
    case _ =>
  }

  // ---- The compiler ----

  /** `if let Some(..) { conditions.push(..); values.push(..); index += ..; }` */
  method Emit(q: Query, t: Option<Test>, ghost tests: seq<Test>) returns (r: Query)
    requires Compiled(q, tests) && (t.Some? ==> Emittable(t.value))
    ensures Compiled(r, Plus(tests, t))
  {
    r := q;
    if t.Some? {
      r := Query(q.conditions + [CondFor(t.value, q.index)], q.values + ValuesFor(t.value),
                 q.index + Bump(t.value), q.joinDetails || NeedsDetails(t.value));
      EmittedMeans(t.value, q.values);
      EmittedShape(t.value, q.values);
      forall i | 0 <= i < |tests|
        ensures Means(r.conditions[i], r.values, tests[i])
      {
        MeansPrefix(q.conditions[i], q.values, ValuesFor(t.value), tests[i]);
      }
    }
  }

  /** The conditions of `search_sessions`, in source order; the cursor comes last. */
  method Compile(f: Filter, failures: bool, cm: CaseMap, cursor: Option<Keyset.Key>) returns (q: Query)
    requires cursor.Some? && f.sortBy.ByStartedAt? ==> cursor.value.value == 0
    ensures Compiled(q, Plus(ActiveTests(f, failures, cm), CursorTest(f, cursor)))
  {
    q := CompileRow(f, failures, cm);
    ghost var done := RowTests(f, failures, cm);
    for i := 0 to |f.queryParams|
      invariant Compiled(q, done)
                  && PlusAll(done, f.queryParams[i..]) == PlusAll(RowTests(f, failures, cm), f.queryParams)
    {
      assert f.queryParams[i..][1..] == f.queryParams[i + 1..];
      q := Emit(q, QueryTest(f.queryParams[i]), done);
      done := Plus(done, QueryTest(f.queryParams[i]));
    }
    assert done == PlusAll(RowTests(f, failures, cm), f.queryParams);
    q := CompileAttributes(q, f, cm, done);
    done := AttributeTests(done, f, cm);
    q := CompileRanges(q, f, done);
    done := RangeTests(done, f);
    q := CompileFailures(q, f, failures, done);
    done := FailureTests(done, f, failures);
    q := Emit(q, IfText(f.keyword, s => AnyFieldHas(Fields(f), cm.lower(s))), done);
    q := Emit(q, CursorTest(f, cursor), ActiveTests(f, failures, cm));
  }

  function CursorTest(f: Filter, cursor: Option<Keyset.Key>): Option<Test> {
    if cursor.Some? then Some(Beyond(f.direction, f.sortBy, cursor.value)) else None
  }

  method CompileRow(f: Filter, failures: bool, cm: CaseMap) returns (q: Query)
    ensures Compiled(q, RowTests(f, failures, cm))
  {
    q := Query([], [], 1, false);
    ghost var t := [];
    q := Emit(q, RowidTest(f), t);
    t := Plus(t, RowidTest(f));
    q := Emit(q, IfSet(f.completedOnly, Completed(failures)), t);
    t := Plus(t, IfSet(f.completedOnly, Completed(failures)));
    q := Emit(q, IfText(f.host, s => HostIs(cm.lower(s))), t);
    t := Plus(t, IfText(f.host, s => HostIs(cm.lower(s))));
    q := Emit(q, IfText(f.hostContains, s => HostContains(cm.lower(s))), t);
    t := Plus(t, IfText(f.hostContains, s => HostContains(cm.lower(s))));
    q := Emit(q, IfText(f.pathContains, s => PathContains(s)), t);
  }

  method CompileAttributes(q0: Query, f: Filter, cm: CaseMap, ghost t0: seq<Test>) returns (q: Query)
    requires Compiled(q0, t0)
    ensures Compiled(q, AttributeTests(t0, f, cm))
  {
    ghost var t := t0;
    q := Emit(q0, IfText(f.verb, s => MethodIs(cm.upper(s))), t);
    t := Plus(t, IfText(f.verb, s => MethodIs(cm.upper(s))));
    q := Emit(q, IfNat(f.statusMin, (n: nat) => StatusAtLeast(n)), t);
    t := Plus(t, IfNat(f.statusMin, (n: nat) => StatusAtLeast(n)));
    q := Emit(q, IfNat(f.statusMax, (n: nat) => StatusAtMost(n)), t);
    t := Plus(t, IfNat(f.statusMax, (n: nat) => StatusAtMost(n)));
    q := Emit(q, IfText(f.protocol, s => ProtocolIs(cm.lower(s))), t);
    t := Plus(t, IfText(f.protocol, s => ProtocolIs(cm.lower(s))));
    q := Emit(q, IfText(f.mime, s => MimeContains(cm.lower(s))), t);
  }

  method CompileRanges(q0: Query, f: Filter, ghost t0: seq<Test>) returns (q: Query)
    requires Compiled(q0, t0)
    ensures Compiled(q, RangeTests(t0, f))
  {
    ghost var t := t0;
    q := Emit(q0, IfText(f.startedAfter, s => StartedFrom(s)), t);
    t := Plus(t, IfText(f.startedAfter, s => StartedFrom(s)));
    q := Emit(q, IfText(f.startedBefore, s => StartedUntil(s)), t);
    t := Plus(t, IfText(f.startedBefore, s => StartedUntil(s)));
    q := Emit(q, IfNat(f.minDuration, (n: nat) => DurationAtLeast(SaturateI64(n))), t);
    t := Plus(t, IfNat(f.minDuration, (n: nat) => DurationAtLeast(SaturateI64(n))));
    q := Emit(q, IfNat(f.maxDuration, (n: nat) => DurationAtMost(SaturateI64(n))), t);
  }

  method CompileFailures(q0: Query, f: Filter, failures: bool, ghost t0: seq<Test>) returns (q: Query)
    requires Compiled(q0, t0)
    ensures Compiled(q, FailureTests(t0, f, failures))
  {
    if WantsFailure(f) && !failures {
      q := Emit(q0, Some(Impossible), t0);
    } else {
      ghost var t := t0;
      q := Emit(q0, IfSet(f.failedOnly, Failed), t);
      t := Plus(t, IfSet(f.failedOnly, Failed));
      q := Emit(q, IfText(f.failureKind, s => FailureKindIs(s)), t);
      t := Plus(t, IfText(f.failureKind, s => FailureKindIs(s)));
      q := Emit(q, IfText(f.failureOrigin, s => FailureOriginIs(s)), t);
    }
  }

  function JoinOr(clauses: seq<Cond>): Cond
    requires clauses != []
  {
    if |clauses| == 1 then clauses[0] else Or(clauses[0], JoinOr(clauses[1..]))
  }

  lemma {:induction false} JoinOrEval(clauses: seq<Cond>, r: Row, vals: seq<Value>)
    requires clauses != []
    ensures Eval(JoinOr(clauses), r, vals) == True
            <==> exists i :: 0 <= i < |clauses| && Eval(clauses[i], r, vals) == True
    decreases |clauses|
  {
    if |clauses| > 1 {
      var rest := clauses[1..];
      JoinOrEval(rest, r, vals);
      JunctionEval(clauses[0], JoinOr(rest), r, vals);
      if i :| 0 <= i < |rest| && Eval(rest[i], r, vals) == True {
        assert clauses[i + 1] == rest[i];
      }
      if i :| 1 <= i < |clauses| && Eval(clauses[i], r, vals) == True {
        assert clauses[i] == rest[i - 1];
      }
    }
  }

  lemma {:induction false} JoinOrShape(clauses: seq<Cond>, n: nat)
    requires clauses != [] && forall k :: 0 <= k < |clauses| ==> Params(clauses[k]) <= n
    ensures Params(JoinOr(clauses)) <= n
    ensures UsesDetail(JoinOr(clauses)) ==> exists k :: 0 <= k < |clauses| && UsesDetail(clauses[k])
    decreases |clauses|
  {
    if |clauses| > 1 {
      JoinOrShape(clauses[1..], n);
      if UsesDetail(JoinOr(clauses[1..])) {
        var k :| 0 <= k < |clauses| - 1 && UsesDetail(clauses[1..][k]);
        assert UsesDetail(clauses[k + 1]);
      }
    }
  }

  lemma {:induction false} AnyFieldMeans(clauses: seq<Cond>, vals: seq<Value>, fields: seq<SearchField>, s: string)
    requires |clauses| == |fields| >= 1
    requires forall k :: 0 <= k < |clauses| ==> Means(clauses[k], vals, FieldHas(fields[k], s))
    ensures Means(JoinOr(clauses), vals, AnyFieldHas(fields, s))
    ensures UsesDetail(JoinOr(clauses)) ==> exists k :: 0 <= k < |clauses| && UsesDetail(clauses[k])
  {
    JoinOrShape(clauses, |vals|);
    forall r: Row
      ensures Eval(JoinOr(clauses), r, vals) == True <==> Holds(AnyFieldHas(fields, s), r)
    {
      forall k | 0 <= k < |clauses|
        ensures Eval(clauses[k], r, vals) == True <==> FieldContains(fields[k], s, r)
      {
        assert Means(clauses[k], vals, FieldHas(fields[k], s));
      }
      AnyFieldRow(clauses, vals, fields, s, r);
    }
  }

  lemma {:induction false} AnyFieldRow(clauses: seq<Cond>, vals: seq<Value>, fields: seq<SearchField>, s: string,
                                       r: Row)
    requires |clauses| == |fields| >= 1
    requires forall k :: 0 <= k < |clauses| ==> (Eval(clauses[k], r, vals) == True <==> FieldContains(fields[k], s, r))
    ensures Eval(JoinOr(clauses), r, vals) == True <==> exists f :: f in fields && FieldContains(f, s, r)
  {
    JoinOrEval(clauses, r, vals);
    if f :| f in fields && FieldContains(f, s, r) {
      var k :| 0 <= k < |fields| && fields[k] == f;
      assert Eval(clauses[k], r, vals) == True;
    }
    if k :| 0 <= k < |clauses| && Eval(clauses[k], r, vals) == True {
      assert fields[k] in fields;
    }
  }

  // ---- Meanings of the one-comparison conditions ----

  lemma {:induction false} AfterRowidMeans(vals: seq<Value>, n: int)
    ensures Means(Cmp(Gt, Col(RowId), Param(|vals| + 1)), vals + [Int(n)], AfterRowid(n))
  {
    CmpShape(Gt, Col(RowId), |vals| + 1);
    forall r: Row
      ensures Eval(Cmp(Gt, Col(RowId), Param(|vals| + 1)), r, vals + [Int(n)]) == True <==> Holds(AfterRowid(n), r)
    {
      CmpEval(Gt, Col(RowId), Param(|vals| + 1), r, vals + [Int(n)], Int(r.s.rowid), Int(n));
    }
  }

  lemma {:induction false} HostIsMeans(vals: seq<Value>, s: string)
    ensures Means(Cmp(Eq, Lower(Col(Host)), Param(|vals| + 1)), vals + [Text(s)], HostIs(s))
    ensures !UsesDetail(Cmp(Eq, Lower(Col(Host)), Param(|vals| + 1)))
  {
    LowerShape(Host);
    CmpShape(Eq, Lower(Col(Host)), |vals| + 1);
    forall r: Row
      ensures Eval(Cmp(Eq, Lower(Col(Host)), Param(|vals| + 1)), r, vals + [Text(s)]) == True <==> Holds(HostIs(s), r)
    {
      var c := FoldedEq(Host, |vals| + 1, vals + [Text(s)], s, r, r.s.host);
    }
  }

  lemma {:induction false} PathContainsMeans(vals: seq<Value>, s: string)
    ensures Means(InstrPositive(Col(Path), Param(|vals| + 1)), vals + [Text(s)], PathContains(s))
  {
  }

  lemma {:induction false} QueryParamMeans(vals: seq<Value>, n: string, v: string)
    ensures Means(QueryHas(Param(|vals| + 1), Param(|vals| + 2)), vals + [Text(n), Text(v)], QueryParam(n, v))
  {
    var c, all := QueryHas(Param(|vals| + 1), Param(|vals| + 2)), vals + [Text(n), Text(v)];
    forall r: Row
      ensures Eval(c, r, all) == True <==> Holds(QueryParam(n, v), r)
    {
      assert ExprValue(Param(|vals| + 1), r, all) == Text(n) && ExprValue(Param(|vals| + 2), r, all) == Text(v);
    }
  }

  lemma {:induction false} MethodIsMeans(vals: seq<Value>, s: string)
    ensures Means(Cmp(Eq, Upper(Col(Method)), Param(|vals| + 1)), vals + [Text(s)], MethodIs(s))
    ensures !UsesDetail(Cmp(Eq, Upper(Col(Method)), Param(|vals| + 1)))
  {
    assert ExprParams(Upper(Col(Method))) == 0 && !ExprUsesDetail(Upper(Col(Method)));
    CmpShape(Eq, Upper(Col(Method)), |vals| + 1);
    forall r: Row
      ensures Eval(Cmp(Eq, Upper(Col(Method)), Param(|vals| + 1)), r, vals + [Text(s)]) == True
              <==> Holds(MethodIs(s), r)
    {
      assert ExprValue(Upper(Col(Method)), r, vals + [Text(s)]) == Text(FoldUp(r.s.verb));
      CmpEval(Eq, Upper(Col(Method)), Param(|vals| + 1), r, vals + [Text(s)], Text(FoldUp(r.s.verb)), Text(s));
    }
  }

  lemma {:induction false} StatusMeans(vals: seq<Value>, n: int)
    ensures Means(Cmp(Ge, Col(StatusCode), Param(|vals| + 1)), vals + [Int(n)], StatusAtLeast(n))
    ensures Means(Cmp(Le, Col(StatusCode), Param(|vals| + 1)), vals + [Int(n)], StatusAtMost(n))
  {
    var p := Param(|vals| + 1);
    CmpShape(Ge, Col(StatusCode), |vals| + 1);
    CmpShape(Le, Col(StatusCode), |vals| + 1);
    forall r: Row
      ensures Eval(Cmp(Ge, Col(StatusCode), p), r, vals + [Int(n)]) == True <==> Holds(StatusAtLeast(n), r)
      ensures Eval(Cmp(Le, Col(StatusCode), p), r, vals + [Int(n)]) == True <==> Holds(StatusAtMost(n), r)
    {
      CmpEval(Ge, Col(StatusCode), p, r, vals + [Int(n)], Int(r.s.statusCode), Int(n));
      CmpEval(Le, Col(StatusCode), p, r, vals + [Int(n)], Int(r.s.statusCode), Int(n));
    }
  }

  lemma {:induction false} DurationMeans(vals: seq<Value>, n: int)
    ensures Means(Cmp(Ge, Col(DurationMs), Param(|vals| + 1)), vals + [Int(n)], DurationAtLeast(n))
    ensures Means(Cmp(Le, Col(DurationMs), Param(|vals| + 1)), vals + [Int(n)], DurationAtMost(n))
  {
    var p := Param(|vals| + 1);
    CmpShape(Ge, Col(DurationMs), |vals| + 1);
    CmpShape(Le, Col(DurationMs), |vals| + 1);
    forall r: Row
      ensures Eval(Cmp(Ge, Col(DurationMs), p), r, vals + [Int(n)]) == True <==> Holds(DurationAtLeast(n), r)
      ensures Eval(Cmp(Le, Col(DurationMs), p), r, vals + [Int(n)]) == True <==> Holds(DurationAtMost(n), r)
    {
      CmpEval(Ge, Col(DurationMs), p, r, vals + [Int(n)], Int(r.s.durationMs), Int(n));
      CmpEval(Le, Col(DurationMs), p, r, vals + [Int(n)], Int(r.s.durationMs), Int(n));
    }
  }

  lemma {:induction false} FailureMeans(vals: seq<Value>)
    ensures Means(Never, vals, Impossible)
    ensures Means(NotNull(Col(FailureKind)), vals, Failed)
  {
    forall r: Row
      ensures Eval(NotNull(Col(FailureKind)), r, vals) == True <==> Holds(Failed, r)
    {
      FailedEval(r, vals);
    }
  }

  lemma {:induction false} OptionalEq(col: Column, r: Row, vals: seq<Value>, s: string, o: Option<string>)
    requires ColumnValue(col, r) == OrNull(o)
    ensures Eval(Cmp(Eq, Col(col), Param(|vals| + 1)), r, vals + [Text(s)]) == True <==> o == Some(s)
  {
    if o.Some? {
      CmpEval(Eq, Col(col), Param(|vals| + 1), r, vals + [Text(s)], Text(o.value), Text(s));
    }
  }

  lemma {:induction false} FailureTextMeans(vals: seq<Value>, s: string)
    ensures Means(Cmp(Eq, Col(FailureKind), Param(|vals| + 1)), vals + [Text(s)], FailureKindIs(s))
    ensures Means(Cmp(Eq, Col(FailureOrigin), Param(|vals| + 1)), vals + [Text(s)], FailureOriginIs(s))
  {
    CmpShape(Eq, Col(FailureKind), |vals| + 1);
    CmpShape(Eq, Col(FailureOrigin), |vals| + 1);
    forall r: Row
      ensures Eval(Cmp(Eq, Col(FailureKind), Param(|vals| + 1)), r, vals + [Text(s)]) == True
              <==> Holds(FailureKindIs(s), r)
      ensures Eval(Cmp(Eq, Col(FailureOrigin), Param(|vals| + 1)), r, vals + [Text(s)]) == True
              <==> Holds(FailureOriginIs(s), r)
    {
      OptionalEq(FailureKind, r, vals, s, r.s.failureKind);
      OptionalEq(FailureOrigin, r, vals, s, r.s.failureOrigin);
    }
  }
}
