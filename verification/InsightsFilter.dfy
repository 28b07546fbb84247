/** The filter of the insights queries, compiled like the search filter but with
    lists of ids, methods and hosts, and the parameter of a grouped query. */
module InsightsFilter {
  import opened Common
  import opened Sql
  import opened RustText
  import LikePattern
  import S = SessionFilter
  import TextOrder

  datatype Filter = Filter(
    sessionIds: seq<string>, hostKeyword: Option<string>, hostExact: Option<string>, pathKeyword: Option<string>,
    queryParams: seq<(string, string)>, verbs: seq<string>, statusMin: Option<nat>, statusMax: Option<nat>,
    startedAfter: Option<string>, startedBefore: Option<string>, excludedHosts: seq<string>)

  const BATCH_SIZE := 500

  /** One active condition, in terms of the stored row. */
  datatype Criterion =
    | Plain(t: S.Test)
    | IdIn(ids: seq<string>)
    | VerbIn(verbs: seq<string>)
    | HostNotIn(hosts: seq<string>)

  ghost predicate Accepts(k: Criterion, r: Row) {
    match k
    case Plain(t) => S.Holds(t, r)
    case IdIn(ids) => r.s.id in ids
    case VerbIn(verbs) => FoldUp(r.s.verb) in verbs
    case HostNotIn(hosts) => LikePattern.Fold(r.s.host) !in hosts
  }

  // ---- The active conditions of a filter ----

  /** Trimmed and lower-cased, if anything is left. */
  function Lowered(o: Option<string>, cm: CaseMap): Option<string> {
    if o.None? || cm.lower(Trim(o.value)) == "" then None else Some(cm.lower(Trim(o.value)))
  }

  function LoweredAll(hosts: seq<string>, cm: CaseMap): seq<string> {
    if hosts == [] then []
    else
      var host := cm.lower(Trim(hosts[0]));
      (if host == "" then [] else [host]) + LoweredAll(hosts[1..], cm)
  }

  function UpperedAll(verbs: seq<string>, cm: CaseMap): seq<string> {
    if verbs == [] then []
    else (if Blank(verbs[0]) then [] else [cm.upper(Trim(verbs[0]))]) + UpperedAll(verbs[1..], cm)
  }

  function Unless(empty: bool, k: Criterion): Option<Criterion> {
    if empty then None else Some(k)
  }

  function IfText(o: Option<string>, k: string -> S.Test): Option<Criterion> {
    if o.Some? then Some(Plain(k(o.value))) else None
  }

  function IfNat(o: Option<nat>, k: nat -> S.Test): Option<Criterion> {
    if o.Some? then Some(Plain(k(o.value))) else None
  }

  function QueryCriterion(pair: (string, string)): Option<Criterion> {
    Unless(Blank(pair.0), Plain(S.QueryParam(Trim(pair.0), pair.1)))
  }

  function Plus(ks: seq<Criterion>, k: Option<Criterion>): seq<Criterion> {
    if k.Some? then ks + [k.value] else ks
  }

  function PlusQueries(ks: seq<Criterion>, pairs: seq<(string, string)>): seq<Criterion>
    decreases |pairs|
  {
    if pairs == [] then ks else PlusQueries(Plus(ks, QueryCriterion(pairs[0])), pairs[1..])
  }

  function NameCriteria(f: Filter, cm: CaseMap): seq<Criterion> {
    var ks := Plus([], Unless(f.sessionIds == [], IdIn(f.sessionIds)));
    var ks := Plus(ks, IfText(Lowered(f.hostKeyword, cm), s => S.HostContains(s)));
    var ks := Plus(ks, IfText(Lowered(f.hostExact, cm), s => S.HostIs(s)));
    Plus(ks, IfText(Lowered(f.pathKeyword, cm), s => S.FieldHas(S.InPath, s)))
  }

  function RangeCriteria(ks: seq<Criterion>, f: Filter, cm: CaseMap): seq<Criterion> {
    var ks := Plus(ks, Unless(UpperedAll(f.verbs, cm) == [], VerbIn(UpperedAll(f.verbs, cm))));
    var ks := Plus(ks, IfNat(f.statusMin, (n: nat) => S.StatusAtLeast(n)));
    var ks := Plus(ks, IfNat(f.statusMax, (n: nat) => S.StatusAtMost(n)));
    var ks := Plus(ks, IfText(Active(f.startedAfter), s => S.StartedFrom(s)));
    var ks := Plus(ks, IfText(Active(f.startedBefore), s => S.StartedUntil(s)));
    Plus(ks, Unless(LoweredAll(f.excludedHosts, cm) == [], HostNotIn(LoweredAll(f.excludedHosts, cm))))
  }

  function ActiveCriteria(f: Filter, cm: CaseMap): seq<Criterion> {
    RangeCriteria(PlusQueries(NameCriteria(f, cm), f.queryParams), f, cm)
  }

  // ---- What the filter asks of a row ----

  ghost predicate AllAccept(ks: seq<Criterion>, r: Row) {
    forall i :: 0 <= i < |ks| ==> Accepts(ks[i], r)
  }

  lemma {:induction false} AcceptPlus(ks: seq<Criterion>, k: Option<Criterion>, r: Row)
    ensures AllAccept(Plus(ks, k), r) <==> AllAccept(ks, r) && (k.Some? ==> Accepts(k.value, r))
  {
    if k.Some? {
      var all := Plus(ks, k);
      assert all[|ks|] == k.value;
      assert forall i :: 0 <= i < |ks| ==> all[i] == ks[i];
    }
  }

  ghost predicate NamesAsked(f: Filter, cm: CaseMap, r: Row) {
    && (f.sessionIds != [] ==> r.s.id in f.sessionIds)
    && (Lowered(f.hostKeyword, cm).Some? ==> S.HasFolded(r.s.host, Lowered(f.hostKeyword, cm).value))
    && (Lowered(f.hostExact, cm).Some? ==> LikePattern.Fold(r.s.host) == Lowered(f.hostExact, cm).value)
    && (Lowered(f.pathKeyword, cm).Some? ==> S.HasFolded(r.s.path, Lowered(f.pathKeyword, cm).value))
  }

  ghost predicate HasPair(r: Row, name: string, value: string) {
    r.d.Some? && r.d.value.pairs.Some? && (Text(name), Text(value)) in r.d.value.pairs.value
  }

  ghost predicate QueriesAsked(pairs: seq<(string, string)>, r: Row) {
    forall i :: 0 <= i < |pairs| && !Blank(pairs[i].0) ==> HasPair(r, Trim(pairs[i].0), pairs[i].1)
  }

  ghost predicate RangesAsked(f: Filter, cm: CaseMap, r: Row) {
    && (UpperedAll(f.verbs, cm) != [] ==> FoldUp(r.s.verb) in UpperedAll(f.verbs, cm))
    && (f.statusMin.Some? ==> r.s.statusCode >= f.statusMin.value)
    && (f.statusMax.Some? ==> r.s.statusCode <= f.statusMax.value)
    && (Active(f.startedAfter).Some? ==> !TextOrder.Less(r.s.startedAt, Active(f.startedAfter).value))
    && (Active(f.startedBefore).Some? ==> !TextOrder.Less(Active(f.startedBefore).value, r.s.startedAt))
    && LikePattern.Fold(r.s.host) !in LoweredAll(f.excludedHosts, cm)
  }

  lemma {:induction false} NameMeaning(f: Filter, cm: CaseMap, r: Row)
    ensures AllAccept(NameCriteria(f, cm), r) <==> NamesAsked(f, cm, r)
  {
    var k1 := Plus([], Unless(f.sessionIds == [], IdIn(f.sessionIds)));
    var k2 := Plus(k1, IfText(Lowered(f.hostKeyword, cm), s => S.HostContains(s)));
    var k3 := Plus(k2, IfText(Lowered(f.hostExact, cm), s => S.HostIs(s)));
    AcceptPlus([], Unless(f.sessionIds == [], IdIn(f.sessionIds)), r);
    AcceptPlus(k1, IfText(Lowered(f.hostKeyword, cm), s => S.HostContains(s)), r);
    AcceptPlus(k2, IfText(Lowered(f.hostExact, cm), s => S.HostIs(s)), r);
    AcceptPlus(k3, IfText(Lowered(f.pathKeyword, cm), s => S.FieldHas(S.InPath, s)), r);
  }

  lemma {:induction false} QueryMeaning(ks: seq<Criterion>, pairs: seq<(string, string)>, r: Row)
    ensures AllAccept(PlusQueries(ks, pairs), r) <==> AllAccept(ks, r) && QueriesAsked(pairs, r)
    decreases |pairs|
  {
    if pairs != [] {
      AcceptPlus(ks, QueryCriterion(pairs[0]), r);
      QueryMeaning(Plus(ks, QueryCriterion(pairs[0])), pairs[1..], r);
      assert pairs == [pairs[0]] + pairs[1..];
      assert QueriesAsked(pairs, r)
        <==> (!Blank(pairs[0].0) ==> HasPair(r, Trim(pairs[0].0), pairs[0].1)) && QueriesAsked(pairs[1..], r) by {
        assert forall i :: 0 < i < |pairs| ==> pairs[i] == pairs[1..][i - 1];
      }
    }
  }

  /** The verb and status criteria come first. */
  function VerbAndStatus(ks: seq<Criterion>, f: Filter, cm: CaseMap): seq<Criterion> {
    var ks := Plus(ks, Unless(UpperedAll(f.verbs, cm) == [], VerbIn(UpperedAll(f.verbs, cm))));
    var ks := Plus(ks, IfNat(f.statusMin, (n: nat) => S.StatusAtLeast(n)));
    Plus(ks, IfNat(f.statusMax, (n: nat) => S.StatusAtMost(n)))
  }

  lemma {:induction false} VerbAndStatusMeaning(ks: seq<Criterion>, f: Filter, cm: CaseMap, r: Row)
    ensures AllAccept(VerbAndStatus(ks, f, cm), r)
            <==> && AllAccept(ks, r)
                 && (UpperedAll(f.verbs, cm) != [] ==> FoldUp(r.s.verb) in UpperedAll(f.verbs, cm))
                 && (f.statusMin.Some? ==> r.s.statusCode >= f.statusMin.value)
                 && (f.statusMax.Some? ==> r.s.statusCode <= f.statusMax.value)
  {
    var verbs := UpperedAll(f.verbs, cm);
    var k1 := Plus(ks, Unless(verbs == [], VerbIn(verbs)));
    var k2 := Plus(k1, IfNat(f.statusMin, (n: nat) => S.StatusAtLeast(n)));
    AcceptPlus(ks, Unless(verbs == [], VerbIn(verbs)), r);
    AcceptPlus(k1, IfNat(f.statusMin, (n: nat) => S.StatusAtLeast(n)), r);
    AcceptPlus(k2, IfNat(f.statusMax, (n: nat) => S.StatusAtMost(n)), r);
  }

  lemma {:induction false} RangeMeaning(ks: seq<Criterion>, f: Filter, cm: CaseMap, r: Row)
    ensures AllAccept(RangeCriteria(ks, f, cm), r) <==> AllAccept(ks, r) && RangesAsked(f, cm, r)
  {
    var hosts := LoweredAll(f.excludedHosts, cm);
    var k3 := VerbAndStatus(ks, f, cm);
    var k4 := Plus(k3, IfText(Active(f.startedAfter), s => S.StartedFrom(s)));
    var k5 := Plus(k4, IfText(Active(f.startedBefore), s => S.StartedUntil(s)));
    VerbAndStatusMeaning(ks, f, cm, r);
    AcceptPlus(k3, IfText(Active(f.startedAfter), s => S.StartedFrom(s)), r);
    AcceptPlus(k4, IfText(Active(f.startedBefore), s => S.StartedUntil(s)), r);
    AcceptPlus(k5, Unless(hosts == [], HostNotIn(hosts)), r);
  }

  /** A row is accepted exactly when it meets every field of the filter that is set. */
  lemma {:induction false} FilterMeans(f: Filter, cm: CaseMap, r: Row)
    ensures AllAccept(ActiveCriteria(f, cm), r)
            <==> NamesAsked(f, cm, r) && QueriesAsked(f.queryParams, r) && RangesAsked(f, cm, r)
  {
    NameMeaning(f, cm, r);
    QueryMeaning(NameCriteria(f, cm), f.queryParams, r);
    RangeMeaning(PlusQueries(NameCriteria(f, cm), f.queryParams), f, cm, r);
  }

  // ---- Lists of placeholders ----

  function Texts(items: seq<string>): seq<Value> {
    seq(|items|, i requires 0 <= i < |items| => Text(items[i]))
  }

  /** Placeholders `n`, …, `n + count - 1`. */
  function Slots(n: nat, count: nat): (list: seq<Expr>)
    ensures |list| == count
    decreases count
  {
    if count == 0 then [] else [Param(n)] + Slots(n + 1, count - 1)
  }

  /** The items are bound from placeholder `n` on. */
  ghost predicate Bound(items: seq<string>, n: nat, vals: seq<Value>) {
    n >= 1 && n - 1 + |items| <= |vals| && vals[n - 1..n - 1 + |items|] == Texts(items)
  }

  lemma {:induction false} BoundTail(items: seq<string>, k: nat, n: nat, vals: seq<Value>)
    requires Bound(items, n, vals) && k <= |items|
    ensures Bound(items[..k], n, vals) && Bound(items[k..], n + k, vals)
  {
    var bound := vals[n - 1..n - 1 + |items|];
    assert bound[..k] == Texts(items[..k]) && bound[k..] == Texts(items[k..]);
    assert vals[n - 1..n - 1 + k] == bound[..k];
    assert vals[n - 1 + k..n - 1 + |items|] == bound[k..];
  }

  lemma {:induction false} SlotParams(n: nat, count: nat)
    requires n >= 1
    ensures ListParams(Slots(n, count)) <= n - 1 + count
    decreases count
  {
    if count > 0 {
      SlotParams(n + 1, count - 1);
      assert Slots(n, count)[1..] == Slots(n + 1, count - 1);
    }
  }

  /** IN over bound texts is plain membership, never NULL. */
  lemma {:induction false} InSlots(x: string, items: seq<string>, n: nat, r: Row, vals: seq<Value>)
    requires Bound(items, n, vals)
    ensures InList(Text(x), Slots(n, |items|), r, vals) == Truth(x in items)
    decreases |items|
  {
    if items != [] {
      BoundTail(items, 1, n, vals);
      InSlots(x, items[1..], n + 1, r, vals);
      assert Slots(n, |items|)[1..] == Slots(n + 1, |items| - 1);
      assert vals[n - 1] == vals[n - 1..n - 1 + |items|][0] == Text(items[0]);
      assert items == [items[0]] + items[1..];
    }
  }

  /** `id IN (…) OR id IN (…)`, one list per batch. */
  function IdGroups(ids: seq<string>, n: nat): (c: Cond)
    requires ids != []
    decreases |ids|
  {
    if |ids| <= BATCH_SIZE then In(Col(Id), Slots(n, |ids|))
    else Or(In(Col(Id), Slots(n, BATCH_SIZE)), IdGroups(ids[BATCH_SIZE..], n + BATCH_SIZE))
  }

  lemma {:induction false} IdGroupsEval(ids: seq<string>, n: nat, r: Row, vals: seq<Value>)
    requires ids != [] && Bound(ids, n, vals)
    ensures Eval(IdGroups(ids, n), r, vals) == Truth(r.s.id in ids)
    decreases |ids|
  {
    if |ids| <= BATCH_SIZE {
      InSlots(r.s.id, ids, n, r, vals);
    } else {
      var head, tail := ids[..BATCH_SIZE], ids[BATCH_SIZE..];
      BoundTail(ids, BATCH_SIZE, n, vals);
      InSlots(r.s.id, head, n, r, vals);
      IdGroupsEval(tail, n + BATCH_SIZE, r, vals);
      assert ids == head + tail;
      S.JunctionEval(In(Col(Id), Slots(n, BATCH_SIZE)), IdGroups(tail, n + BATCH_SIZE), r, vals);
    }
  }

  lemma {:induction false} IdGroupsParams(ids: seq<string>, n: nat)
    requires ids != [] && n >= 1
    ensures Params(IdGroups(ids, n)) <= n - 1 + |ids|
    decreases |ids|
  {
    if |ids| <= BATCH_SIZE {
      ListShape(Col(Id), n, |ids|);
    } else {
      var tail := IdGroups(ids[BATCH_SIZE..], n + BATCH_SIZE);
      ListShape(Col(Id), n, BATCH_SIZE);
      IdGroupsParams(ids[BATCH_SIZE..], n + BATCH_SIZE);
      assert Params(Or(In(Col(Id), Slots(n, BATCH_SIZE)), tail))
               == Sql.Max(Params(In(Col(Id), Slots(n, BATCH_SIZE))), Params(tail));
    }
  }

  // ---- The compiler ----

  predicate Emittable(k: Criterion) {
    match k
    case Plain(t) => S.Emittable(t)
    case IdIn(ids) => ids != []
    case _ => true
  }

  function CondOf(k: Criterion, n: nat): Cond
    requires Emittable(k)
  {
    match k
    case Plain(t) => S.CondFor(t, n)
    case IdIn(ids) => IdGroups(ids, n)
    case VerbIn(verbs) => In(Upper(Col(Method)), Slots(n, |verbs|))
    case HostNotIn(hosts) => NotIn(Lower(Col(Host)), Slots(n, |hosts|))
  }

  function ValuesOf(k: Criterion): seq<Value> {
    match k
    case Plain(t) => S.ValuesFor(t)
    case IdIn(ids) => Texts(ids)
    case VerbIn(verbs) => Texts(verbs)
    case HostNotIn(hosts) => Texts(hosts)
  }

  function Advance(k: Criterion): nat {
    match k
    case Plain(t) => S.Bump(t)
    case IdIn(ids) => |ids|
    case VerbIn(verbs) => |verbs|
    case HostNotIn(hosts) => |hosts|
  }

  /** Under these values the condition is true of exactly the accepted rows. */
  ghost predicate Says(c: Cond, vals: seq<Value>, k: Criterion) {
    Params(c) <= |vals| && forall r: Row :: Eval(c, r, vals) == True <==> Accepts(k, r)
  }

  lemma {:induction false} SaysPrefix(c: Cond, vals: seq<Value>, more: seq<Value>, k: Criterion)
    requires Says(c, vals, k)
    ensures Says(c, vals + more, k)
  {
    forall r: Row ensures Eval(c, r, vals + more) == True <==> Accepts(k, r) {
      EvalPrefix(c, r, vals, more);
    }
  }

  lemma {:induction false} IdsSay(ids: seq<string>, vals: seq<Value>)
    requires ids != []
    ensures Says(IdGroups(ids, |vals| + 1), vals + Texts(ids), IdIn(ids))
  {
    var n, all := |vals| + 1, vals + Texts(ids);
    assert Bound(ids, n, all);
    IdGroupsParams(ids, n);
    forall r: Row ensures Eval(IdGroups(ids, n), r, all) == True <==> Accepts(IdIn(ids), r) {
      IdGroupsEval(ids, n, r, all);
    }
  }

  lemma {:induction false} ListShape(e: Expr, n: nat, count: nat)
    requires n >= 1 && ExprParams(e) == 0
    ensures Params(In(e, Slots(n, count))) <= n - 1 + count && Params(NotIn(e, Slots(n, count))) <= n - 1 + count
  {
    SlotParams(n, count);
  }

  lemma {:induction false} ListEval(e: Expr, list: seq<Expr>, r: Row, vals: seq<Value>)
    ensures Eval(In(e, list), r, vals) == InList(ExprValue(e, r, vals), list, r, vals)
    ensures Eval(NotIn(e, list), r, vals) == TriNot(InList(ExprValue(e, r, vals), list, r, vals))
  {
  }

  lemma {:induction false} UpperVerb(r: Row, vals: seq<Value>)
    ensures ExprValue(Upper(Col(Method)), r, vals) == Text(FoldUp(r.s.verb))
    ensures ExprParams(Upper(Col(Method))) == 0
  {
    assert ExprValue(Col(Method), r, vals) == Text(r.s.verb);
    assert ExprParams(Col(Method)) == 0;
  }

  lemma {:induction false} VerbsSay(verbs: seq<string>, vals: seq<Value>)
    ensures Says(In(Upper(Col(Method)), Slots(|vals| + 1, |verbs|)), vals + Texts(verbs), VerbIn(verbs))
  {
    var n, all, e := |vals| + 1, vals + Texts(verbs), Upper(Col(Method));
    assert Bound(verbs, n, all);
    assert ExprParams(e) == ExprParams(Col(Method)) == 0;
    ListShape(e, n, |verbs|);
    forall r: Row ensures Eval(In(e, Slots(n, |verbs|)), r, all) == True <==> Accepts(VerbIn(verbs), r) {
      UpperVerb(r, all);
      InSlots(FoldUp(r.s.verb), verbs, n, r, all);
      ListEval(e, Slots(n, |verbs|), r, all);
    }
  }

  lemma {:induction false} HostsSay(hosts: seq<string>, vals: seq<Value>)
    ensures Says(NotIn(Lower(Col(Host)), Slots(|vals| + 1, |hosts|)), vals + Texts(hosts), HostNotIn(hosts))
  {
    var n, all, e := |vals| + 1, vals + Texts(hosts), Lower(Col(Host));
    assert Bound(hosts, n, all);
    S.LowerShape(Host);
    ListShape(e, n, |hosts|);
    forall r: Row ensures Eval(NotIn(e, Slots(n, |hosts|)), r, all) == True <==> Accepts(HostNotIn(hosts), r) {
      S.FoldedColumn(Host, r, all, r.s.host);
      InSlots(LikePattern.Fold(r.s.host), hosts, n, r, all);
      ListEval(e, Slots(n, |hosts|), r, all);
    }
  }

  /** Each emitted condition, with its values bound at the next free placeholders, is
      true of exactly the rows the criterion accepts. */
  lemma {:induction false} EmittedSays(k: Criterion, vals: seq<Value>)
    requires Emittable(k)
    ensures Says(CondOf(k, |vals| + 1), vals + ValuesOf(k), k) && Advance(k) == |ValuesOf(k)|
  {
    match k
    case Plain(t) =>
      S.EmittedMeans(t, vals);
      S.EmittedShape(t, vals);
    case IdIn(ids) => IdsSay(ids, vals);
    case VerbIn(verbs) => VerbsSay(verbs, vals);
    case HostNotIn(hosts) => HostsSay(hosts, vals);
  }

  datatype Where = Where(conditions: seq<Cond>, params: seq<Value>, next: nat)

  /** The next index is one past the bound values, and every condition says its criterion. */
  ghost predicate Built(w: Where, ks: seq<Criterion>) {
    && w.next == |w.params| + 1
    && |w.conditions| == |ks|
    && forall i :: 0 <= i < |ks| ==> Says(w.conditions[i], w.params, ks[i])
  }

  method Emit(w: Where, k: Option<Criterion>, ghost ks: seq<Criterion>) returns (r: Where)
    requires Built(w, ks) && (k.Some? ==> Emittable(k.value))
    ensures Built(r, Plus(ks, k))
  {
    r := w;
    if k.Some? {
      r := Where(w.conditions + [CondOf(k.value, w.next)], w.params + ValuesOf(k.value), w.next + Advance(k.value));
      EmittedSays(k.value, w.params);
      forall i | 0 <= i < |ks| ensures Says(r.conditions[i], r.params, ks[i]) {
        SaysPrefix(w.conditions[i], w.params, ValuesOf(k.value), ks[i]);
      }
    }
  }

  method BuildNames(f: Filter, cm: CaseMap) returns (w: Where)
    ensures Built(w, NameCriteria(f, cm))
  {
    w := Where([], [], 1);
    ghost var ks := [];
    w := Emit(w, Unless(f.sessionIds == [], IdIn(f.sessionIds)), ks);
    ks := Plus(ks, Unless(f.sessionIds == [], IdIn(f.sessionIds)));
    w := Emit(w, IfText(Lowered(f.hostKeyword, cm), s => S.HostContains(s)), ks);
    ks := Plus(ks, IfText(Lowered(f.hostKeyword, cm), s => S.HostContains(s)));
    w := Emit(w, IfText(Lowered(f.hostExact, cm), s => S.HostIs(s)), ks);
    ks := Plus(ks, IfText(Lowered(f.hostExact, cm), s => S.HostIs(s)));
    w := Emit(w, IfText(Lowered(f.pathKeyword, cm), s => S.FieldHas(S.InPath, s)), ks);
  }

  method BuildRanges(w0: Where, f: Filter, cm: CaseMap, ghost ks0: seq<Criterion>) returns (w: Where)
    requires Built(w0, ks0)
    ensures Built(w, RangeCriteria(ks0, f, cm))
  {
    var verbs, hosts := UpperedAll(f.verbs, cm), LoweredAll(f.excludedHosts, cm);
    ghost var ks := ks0;
    w := Emit(w0, Unless(verbs == [], VerbIn(verbs)), ks);
    ks := Plus(ks, Unless(verbs == [], VerbIn(verbs)));
    w := Emit(w, IfNat(f.statusMin, (n: nat) => S.StatusAtLeast(n)), ks);
    ks := Plus(ks, IfNat(f.statusMin, (n: nat) => S.StatusAtLeast(n)));
    w := Emit(w, IfNat(f.statusMax, (n: nat) => S.StatusAtMost(n)), ks);
    ks := Plus(ks, IfNat(f.statusMax, (n: nat) => S.StatusAtMost(n)));
    w := Emit(w, IfText(Active(f.startedAfter), s => S.StartedFrom(s)), ks);
    ks := Plus(ks, IfText(Active(f.startedAfter), s => S.StartedFrom(s)));
    w := Emit(w, IfText(Active(f.startedBefore), s => S.StartedUntil(s)), ks);
    ks := Plus(ks, IfText(Active(f.startedBefore), s => S.StartedUntil(s)));
    w := Emit(w, Unless(hosts == [], HostNotIn(hosts)), ks);
  }

  /** The conditions of the insights queries, in source order. */
  method BuildWhere(f: Filter, cm: CaseMap) returns (w: Where)
    ensures Built(w, ActiveCriteria(f, cm))
  {
    w := BuildNames(f, cm);
    ghost var done := NameCriteria(f, cm);
    for i := 0 to |f.queryParams|
      invariant Built(w, done)
                  && PlusQueries(done, f.queryParams[i..]) == PlusQueries(NameCriteria(f, cm), f.queryParams)
    {
      assert f.queryParams[i..][1..] == f.queryParams[i + 1..];
      w := Emit(w, QueryCriterion(f.queryParams[i]), done);
      done := Plus(done, QueryCriterion(f.queryParams[i]));
    }
    assert done == PlusQueries(NameCriteria(f, cm), f.queryParams);
    w := BuildRanges(w, f, cm, done);
  }

  /** The joined clause selects exactly the rows all criteria accept, also when the
      group's name is bound behind it, and that placeholder reads the name. */
  lemma {:induction false} GroupParameterBinds(w: Where, ks: seq<Criterion>, name: string, r: Row)
    requires Built(w, ks)
    ensures Selected(JoinAnd(w.conditions), r, w.params) <==> AllAccept(ks, r)
    ensures var all := w.params + [Text(name)];
            && (Selected(JoinAnd(w.conditions), r, all) <==> Selected(JoinAnd(w.conditions), r, w.params))
            && ExprValue(Param(w.next), r, all) == Text(name)
  {
    var all := w.params + [Text(name)];
    JoinedSelects(w.conditions, r, w.params);
    JoinedSelects(w.conditions, r, all);
    forall i | 0 <= i < |ks|
      ensures Eval(w.conditions[i], r, w.params) == True <==> Accepts(ks[i], r)
      ensures Eval(w.conditions[i], r, all) == Eval(w.conditions[i], r, w.params)
    {
      assert Says(w.conditions[i], w.params, ks[i]);
      EvalPrefix(w.conditions[i], r, w.params, [Text(name)]);
    }
  }
}
