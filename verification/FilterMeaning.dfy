/** What a search filter asks of a row, field by field, and that the compiled list of
    active tests asks exactly that. */
module FilterMeaning {
  import opened Common
  import opened Sql
  import opened RustText
  import opened SessionFilter
  import LikePattern
  import TextOrder

  ghost predicate RowAsked(f: Filter, failures: bool, cm: CaseMap, r: Row) {
    && (f.afterRowid.Some? ==> r.s.rowid > f.afterRowid.value)
    && (f.completedOnly ==>
          r.s.finishedAt != "" && (r.s.statusCode != 0 || (failures && r.s.failureKind.Some?)))
    && (Active(f.host).Some? ==> LikePattern.Fold(r.s.host) == cm.lower(Active(f.host).value))
    && (Active(f.hostContains).Some? ==> HasFolded(r.s.host, cm.lower(Active(f.hostContains).value)))
    && (Active(f.pathContains).Some? ==> LikePattern.Contains(r.s.path, Active(f.pathContains).value))
  }

  /** Every named query parameter is among the row's pairs. */
  ghost predicate QueriesAsked(pairs: seq<(string, string)>, r: Row) {
    forall i :: 0 <= i < |pairs| && !Blank(pairs[i].0) ==> HasPair(r, Trim(pairs[i].0), pairs[i].1)
  }

  ghost predicate HasPair(r: Row, name: string, value: string) {
    r.d.Some? && r.d.value.pairs.Some? && (Text(name), Text(value)) in r.d.value.pairs.value
  }

  ghost predicate AttributesAsked(f: Filter, cm: CaseMap, r: Row) {
    && (Active(f.verb).Some? ==> FoldUp(r.s.verb) == cm.upper(Active(f.verb).value))
    && (f.statusMin.Some? ==> r.s.statusCode >= f.statusMin.value)
    && (f.statusMax.Some? ==> r.s.statusCode <= f.statusMax.value)
    && (Active(f.protocol).Some? ==>
          var p := cm.lower(Active(f.protocol).value);
          || LikePattern.Fold(r.s.scheme) == p || LikePattern.Fold(r.s.protocol) == p
          || LikePattern.Fold(r.s.httpVersion) == p)
    && (Active(f.mime).Some? ==>
          HasFolded(if r.s.mime.Some? then r.s.mime.value else "", cm.lower(Active(f.mime).value)))
  }

  ghost predicate RangesAsked(f: Filter, r: Row) {
    && (Active(f.startedAfter).Some? ==> !TextOrder.Less(r.s.startedAt, Active(f.startedAfter).value))
    && (Active(f.startedBefore).Some? ==> !TextOrder.Less(Active(f.startedBefore).value, r.s.startedAt))
    && (f.minDuration.Some? ==> r.s.durationMs >= SaturateI64(f.minDuration.value))
    && (f.maxDuration.Some? ==> r.s.durationMs <= SaturateI64(f.maxDuration.value))
  }

  /** A database without failure columns answers no failure filter. */
  ghost predicate FailuresAsked(f: Filter, failures: bool, r: Row) {
    && (WantsFailure(f) ==> failures)
    && (f.failedOnly ==> r.s.failureKind.Some?)
    && (Active(f.failureKind).Some? ==> r.s.failureKind == Some(Active(f.failureKind).value))
    && (Active(f.failureOrigin).Some? ==> r.s.failureOrigin == Some(Active(f.failureOrigin).value))
  }

  ghost predicate KeywordAsked(f: Filter, cm: CaseMap, r: Row) {
    Active(f.keyword).Some? ==>
      exists field :: field in Fields(f) && FieldContains(field, cm.lower(Active(f.keyword).value), r)
  }

  ghost predicate Asked(f: Filter, failures: bool, cm: CaseMap, r: Row) {
    && RowAsked(f, failures, cm, r) && QueriesAsked(f.queryParams, r) && AttributesAsked(f, cm, r)
    && RangesAsked(f, r) && FailuresAsked(f, failures, r) && KeywordAsked(f, cm, r)
  }

  /** The row id and completion tests come first. */
  function IdAndCompletion(f: Filter, failures: bool): seq<Test> {
    Plus(Plus([], RowidTest(f)), IfSet(f.completedOnly, Completed(failures)))
  }

  lemma {:induction false} IdAndCompletionMeaning(f: Filter, failures: bool, r: Row)
    ensures Matches(IdAndCompletion(f, failures), r)
            <==> && (f.afterRowid.Some? ==> r.s.rowid > f.afterRowid.value)
                 && (f.completedOnly ==>
                       r.s.finishedAt != "" && (r.s.statusCode != 0 || (failures && r.s.failureKind.Some?)))
  {
    MatchesPlus([], RowidTest(f), r);
    MatchesPlus(Plus([], RowidTest(f)), IfSet(f.completedOnly, Completed(failures)), r);
  }

  lemma {:induction false} RowMeaning(f: Filter, failures: bool, cm: CaseMap, r: Row)
    ensures Matches(RowTests(f, failures, cm), r) <==> RowAsked(f, failures, cm, r)
  {
    var t2 := IdAndCompletion(f, failures);
    var t3 := Plus(t2, IfText(f.host, s => HostIs(cm.lower(s))));
    var t4 := Plus(t3, IfText(f.hostContains, s => HostContains(cm.lower(s))));
    IdAndCompletionMeaning(f, failures, r);
    MatchesPlus(t2, IfText(f.host, s => HostIs(cm.lower(s))), r);
    MatchesPlus(t3, IfText(f.hostContains, s => HostContains(cm.lower(s))), r);
    MatchesPlus(t4, IfText(f.pathContains, s => PathContains(s)), r);
  }

  lemma {:induction false} QueryMeaning(tests: seq<Test>, pairs: seq<(string, string)>, r: Row)
    ensures Matches(PlusAll(tests, pairs), r) <==> Matches(tests, r) && QueriesAsked(pairs, r)
    decreases |pairs|
  {
    if pairs != [] {
      MatchesPlus(tests, QueryTest(pairs[0]), r);
      QueryMeaning(Plus(tests, QueryTest(pairs[0])), pairs[1..], r);
      assert pairs == [pairs[0]] + pairs[1..];
      assert QueriesAsked(pairs, r)
        <==> (!Blank(pairs[0].0) ==> HasPair(r, Trim(pairs[0].0), pairs[0].1)) && QueriesAsked(pairs[1..], r) by {
        assert forall i :: 0 < i < |pairs| ==> pairs[i] == pairs[1..][i - 1];
      }
    }
  }

  /** The verb and status tests come first. */
  function VerbAndStatus(t: seq<Test>, f: Filter, cm: CaseMap): seq<Test> {
    Plus(Plus(Plus(t, IfText(f.verb, s => MethodIs(cm.upper(s)))), IfNat(f.statusMin, (n: nat) => StatusAtLeast(n))),
         IfNat(f.statusMax, (n: nat) => StatusAtMost(n)))
  }

  lemma {:induction false} VerbAndStatusMeaning(t: seq<Test>, f: Filter, cm: CaseMap, r: Row)
    ensures Matches(VerbAndStatus(t, f, cm), r)
            <==> && Matches(t, r)
                 && (Active(f.verb).Some? ==> FoldUp(r.s.verb) == cm.upper(Active(f.verb).value))
                 && (f.statusMin.Some? ==> r.s.statusCode >= f.statusMin.value)
                 && (f.statusMax.Some? ==> r.s.statusCode <= f.statusMax.value)
  {
    var t1 := Plus(t, IfText(f.verb, s => MethodIs(cm.upper(s))));
    MatchesPlus(t, IfText(f.verb, s => MethodIs(cm.upper(s))), r);
    MatchesPlus(t1, IfNat(f.statusMin, (n: nat) => StatusAtLeast(n)), r);
    MatchesPlus(Plus(t1, IfNat(f.statusMin, (n: nat) => StatusAtLeast(n))),
                IfNat(f.statusMax, (n: nat) => StatusAtMost(n)), r);
  }

  lemma {:induction false} AttributeMeaning(t: seq<Test>, f: Filter, cm: CaseMap, r: Row)
    ensures Matches(AttributeTests(t, f, cm), r) <==> Matches(t, r) && AttributesAsked(f, cm, r)
  {
    var t3 := VerbAndStatus(t, f, cm);
    VerbAndStatusMeaning(t, f, cm, r);
    MatchesPlus(t3, IfText(f.protocol, s => ProtocolIs(cm.lower(s))), r);
    MatchesPlus(Plus(t3, IfText(f.protocol, s => ProtocolIs(cm.lower(s)))),
                IfText(f.mime, s => MimeContains(cm.lower(s))), r);
  }

  lemma {:induction false} RangeMeaning(t: seq<Test>, f: Filter, r: Row)
    ensures Matches(RangeTests(t, f), r) <==> Matches(t, r) && RangesAsked(f, r)
  {
    var t1 := Plus(t, IfText(f.startedAfter, s => StartedFrom(s)));
    var t2 := Plus(t1, IfText(f.startedBefore, s => StartedUntil(s)));
    var t3 := Plus(t2, IfNat(f.minDuration, (n: nat) => DurationAtLeast(SaturateI64(n))));
    MatchesPlus(t, IfText(f.startedAfter, s => StartedFrom(s)), r);
    MatchesPlus(t1, IfText(f.startedBefore, s => StartedUntil(s)), r);
    MatchesPlus(t2, IfNat(f.minDuration, (n: nat) => DurationAtLeast(SaturateI64(n))), r);
    MatchesPlus(t3, IfNat(f.maxDuration, (n: nat) => DurationAtMost(SaturateI64(n))), r);
  }

  lemma {:induction false} FailureMeaning(t: seq<Test>, f: Filter, failures: bool, r: Row)
    ensures Matches(FailureTests(t, f, failures), r) <==> Matches(t, r) && FailuresAsked(f, failures, r)
  {
    if WantsFailure(f) && !failures {
      MatchesPlus(t, Some(Impossible), r);
    } else {
      var t1 := Plus(t, IfSet(f.failedOnly, Failed));
      var t2 := Plus(t1, IfText(f.failureKind, s => FailureKindIs(s)));
      MatchesPlus(t, IfSet(f.failedOnly, Failed), r);
      MatchesPlus(t1, IfText(f.failureKind, s => FailureKindIs(s)), r);
      MatchesPlus(t2, IfText(f.failureOrigin, s => FailureOriginIs(s)), r);
    }
  }

  /** A row matches the active tests exactly when it meets every field that is set. */
  lemma {:induction false} FilterMeans(f: Filter, failures: bool, cm: CaseMap, r: Row)
    ensures Matches(ActiveTests(f, failures, cm), r) <==> Asked(f, failures, cm, r)
  {
    var t := PlusAll(RowTests(f, failures, cm), f.queryParams);
    RowMeaning(f, failures, cm, r);
    QueryMeaning(RowTests(f, failures, cm), f.queryParams, r);
    AttributeMeaning(t, f, cm, r);
    RangeMeaning(AttributeTests(t, f, cm), f, r);
    FailureMeaning(RangeTests(AttributeTests(t, f, cm), f), f, failures, r);
    MatchesPlus(FailureTests(RangeTests(AttributeTests(t, f, cm), f), f, failures),
                IfText(f.keyword, s => AnyFieldHas(Fields(f), cm.lower(s))), r);
  }
}
