/** Throttle profiles, rules and recorded runs. Every operation is a list of SQL
    statements; the log keeps the tables after each of them. */
module Throttle {
  import opened Common
  import opened KeyedTable
  import opened Schema

  datatype Rule = Rule(workspaceId: string, profileId: string, settings: string)

  datatype ThrottleRun = ThrottleRun(sessionId: string, ruleId: Option<string>, details: string)

  datatype State = State(
    workspaces: set<string>, sessions: set<string>, profiles: Profiles, rules: map<string, Rule>,
    runs: map<string, ThrottleRun>)

  datatype NewRun = NewRun(id: string, run: ThrottleRun)

  datatype Op =
    | SaveProfile(id: string, profile: Profile)
    | SetActive(workspaceId: string, profileId: Option<string>)
    | DeleteProfile(id: string)
    | SaveRule(id: string, rule: Rule)
    | DeleteRule(id: string)
    | ReplaceRuns(sessionId: string, runs: seq<NewRun>)

  /** The tables after each statement, and the tables after the commit. */
  datatype Effect = Effect(log: seq<State>, outcome: Result<State>)

  // ---- Statements ----

  function Deactivate(s: State, workspaceId: string, keep: Option<string>): State {
    s.(profiles := map i | i in s.profiles ::
      if s.profiles[i].workspaceId == workspaceId && keep != Some(i) then s.profiles[i].(enabled := false)
      else s.profiles[i])
  }

  function Forget(s: State, rules: set<string>): State {
    s.(runs := map i | i in s.runs ::
      var run := s.runs[i];
      if run.ruleId.Some? && run.ruleId.value in rules then run.(ruleId := None) else run)
  }

  function RulesOf(s: State, profileId: string): set<string> {
    set r | r in s.rules && s.rules[r].profileId == profileId
  }

  function DropRuns(s: State, sessionId: string): State {
    s.(runs := map i | i in s.runs && s.runs[i].sessionId != sessionId :: s.runs[i])
  }

  // ---- Operations ----

  /** Deactivate the others when enabling, then UPDATE, then INSERT if nothing was updated. */
  function SaveProfileEffect(s: State, id: string, p: Profile): Effect {
    var s1 := if p.enabled then Deactivate(s, p.workspaceId, Some(id)) else s;
    var done := (if p.enabled then [s1] else []) + (if id in s.profiles then [] else [s1]);
    if p.workspaceId !in s.workspaces then Effect(done, Err(QueryFailed("save throttle profile")))
    else
      var s2 := s1.(profiles := s1.profiles[id := p]);
      Effect(done + [s2], Ok(s2))
  }

  function SetActiveEffect(s: State, workspaceId: string, profileId: Option<string>): Effect {
    var s1 := Deactivate(s, workspaceId, None);
    if profileId.None? then Effect([s1], Ok(s1))
    else
      var id := profileId.value;
      if id in s.profiles && s.profiles[id].workspaceId == workspaceId then
        var s2 := s1.(profiles := s1.profiles[id := s1.profiles[id].(enabled := true)]);
        Effect([s1, s2], Ok(s2))
      else Effect([s1, s1], Err(NotFound("throttle profile", id)))
  }

  function DeleteProfileEffect(s: State, id: string): Effect {
    var s1 := Forget(s, RulesOf(s, id));
    var s2 := s1.(rules := s.rules - RulesOf(s, id));
    var s3 := s2.(profiles := s.profiles - {id});
    Effect([s1, s2, s3], Ok(s3))
  }

  function SaveRuleEffect(s: State, id: string, rule: Rule): Effect {
    var done := if id in s.rules then [] else [s];
    if rule.workspaceId !in s.workspaces || rule.profileId !in s.profiles then
      Effect(done, Err(QueryFailed("save throttle rule")))
    else
      var s1 := s.(rules := s.rules[id := rule]);
      Effect(done + [s1], Ok(s1))
  }

  function DeleteRuleEffect(s: State, id: string): Effect {
    var s1 := Forget(s, {id});
    var s2 := s1.(rules := s.rules - {id});
    Effect([s1, s2], Ok(s2))
  }

  function InsertRuns(s: State, runs: seq<NewRun>): Effect
    decreases |runs|
  {
    if runs == [] then Effect([], Ok(s))
    else
      var before := InsertRuns(s, runs[..|runs| - 1]);
      var last := runs[|runs| - 1];
      if before.outcome.Err? then before
      else if last.id in before.outcome.value.runs || last.run.sessionId !in s.sessions then
        before.(outcome := Err(QueryFailed("insert throttle run")))
      else
        var next := before.outcome.value.(runs := before.outcome.value.runs[last.id := last.run]);
        Effect(before.log + [next], Ok(next))
  }

  function ReplaceRunsEffect(s: State, sessionId: string, runs: seq<NewRun>): Effect {
    var s1 := DropRuns(s, sessionId);
    var inserted := InsertRuns(s1, runs);
    Effect([s1] + inserted.log, inserted.outcome)
  }

  function Perform(s: State, op: Op): Effect {
    match op
    case SaveProfile(id, p) => SaveProfileEffect(s, id, p)
    case SetActive(w, p) => SetActiveEffect(s, w, p)
    case DeleteProfile(id) => DeleteProfileEffect(s, id)
    case SaveRule(id, rule) => SaveRuleEffect(s, id, rule)
    case DeleteRule(id) => DeleteRuleEffect(s, id)
    case ReplaceRuns(session, runs) => ReplaceRunsEffect(s, session, runs)
  }

  /** A failed operation leaves the tables as they were. */
  function After(s: State, op: Op): State {
    var e := Perform(s, op);
    if e.outcome.Ok? then e.outcome.value else s
  }

  // ---- What a delete leaves ----

  /** The runs are those of before, except that none names a removed rule any more. */
  ghost predicate RunsForget(s: State, t: State, removed: set<string>) {
    && t.runs.Keys == s.runs.Keys
    && (forall i :: i in t.runs ==> t.runs[i].ruleId.None? || t.runs[i].ruleId.value !in removed)
    && (forall i :: i in t.runs ==> t.runs[i] == s.runs[i].(ruleId := t.runs[i].ruleId))
    && (forall i :: i in t.runs && t.runs[i] != s.runs[i]
         ==> s.runs[i].ruleId.Some? && s.runs[i].ruleId.value in removed)
  }

  /** The profile is gone, no rule has it, no run names a rule it had, and every other
      profile, rule and run is as before. */
  ghost predicate ProfileDeleted(s: State, t: State, id: string) {
    && t.workspaces == s.workspaces && t.sessions == s.sessions
    && id !in t.profiles
    && (forall p :: p in s.profiles && p != id ==> p in t.profiles && t.profiles[p] == s.profiles[p])
    && t.profiles.Keys <= s.profiles.Keys
    && (forall r :: r in t.rules ==> t.rules[r].profileId != id && r in s.rules)
    && (forall r :: r in s.rules && s.rules[r].profileId != id ==> r in t.rules && t.rules[r] == s.rules[r])
    && RunsForget(s, t, s.rules.Keys - t.rules.Keys)
  }

  /** The rule is gone, no run names it, and everything else is as before. */
  ghost predicate RuleDeleted(s: State, t: State, id: string) {
    && t == s.(rules := t.rules, runs := t.runs)
    && id !in t.rules && (forall r :: r in s.rules && r != id ==> r in t.rules && t.rules[r] == s.rules[r])
    && t.rules.Keys <= s.rules.Keys
    && RunsForget(s, t, {id})
  }

  lemma DeleteProfileIsExact(s: State, id: string)
    ensures ProfileDeleted(s, DeleteProfileEffect(s, id).outcome.value, id)
  {
    var t := DeleteProfileEffect(s, id).outcome.value;
    assert forall i :: i in s.runs && s.runs[i].ruleId.Some? && s.runs[i].ruleId.value in s.rules.Keys - t.rules.Keys
             ==> s.runs[i].ruleId.value in RulesOf(s, id);
  }

  // ---- The operations as they run ----

  class ThrottleStore {
    var state: State
    ghost var log: seq<State>

    constructor (s: State)
      ensures state == s && log == []
    {
      state := s;
      log := [];
    }

    method SaveProfile(id: string, p: Profile) returns (r: Result<()>)
      modifies this
      ensures log == old(log) + SaveProfileEffect(old(state), id, p).log
      ensures r.Ok? <==> p.workspaceId in old(state).workspaces
      ensures state == After(old(state), Op.SaveProfile(id, p))
    {
      var saved := state;
      if p.enabled {
        state := Deactivate(state, p.workspaceId, Some(id));
        log := log + [state];
      }
      var affected := id in state.profiles;
      if !affected {
        log := log + [state];
      }
      if p.workspaceId !in state.workspaces {
        state := saved;
        return Err(QueryFailed("save throttle profile"));
      }
      state := state.(profiles := state.profiles[id := p]);
      log := log + [state];
      return Ok(());
    }

    method SetActive(workspaceId: string, profileId: Option<string>) returns (r: Result<()>)
      modifies this
      ensures log == old(log) + SetActiveEffect(old(state), workspaceId, profileId).log
      ensures r.Err? <==> profileId.Some? && !(profileId.value in old(state).profiles
                                               && old(state).profiles[profileId.value].workspaceId == workspaceId)
      ensures state == After(old(state), Op.SetActive(workspaceId, profileId))
    {
      var saved := state;
      state := Deactivate(state, workspaceId, None);
      log := log + [state];
      if profileId.Some? {
        var id := profileId.value;
        var updated := id in state.profiles && state.profiles[id].workspaceId == workspaceId;
        if updated {
          state := state.(profiles := state.profiles[id := state.profiles[id].(enabled := true)]);
        }
        log := log + [state];
        if !updated {
          state := saved;
          return Err(NotFound("throttle profile", id));
        }
      }
      return Ok(());
    }

    method DeleteProfile(id: string) returns (r: Result<()>)
      modifies this
      ensures r.Ok? && ProfileDeleted(old(state), state, id)
      ensures log == old(log) + Perform(old(state), Op.DeleteProfile(id)).log
      ensures state == After(old(state), Op.DeleteProfile(id))
    {
      var doomed := RulesOf(state, id);
      state := Forget(state, doomed);
      log := log + [state];
      state := state.(rules := state.rules - doomed);
      log := log + [state];
      state := state.(profiles := state.profiles - {id});
      log := log + [state];
      DeleteProfileIsExact(old(state), id);
      return Ok(());
    }

    method SaveRule(id: string, rule: Rule) returns (r: Result<()>)
      modifies this
      ensures log == old(log) + SaveRuleEffect(old(state), id, rule).log
      ensures r.Ok? <==> rule.workspaceId in state.workspaces && rule.profileId in state.profiles
      ensures state == After(old(state), Op.SaveRule(id, rule))
    {
      var affected := id in state.rules;
      if !affected {
        log := log + [state];
      }
      if rule.workspaceId !in state.workspaces || rule.profileId !in state.profiles {
        return Err(QueryFailed("save throttle rule"));
      }
      state := state.(rules := state.rules[id := rule]);
      log := log + [state];
      return Ok(());
    }

    method DeleteRule(id: string) returns (r: Result<()>)
      modifies this
      ensures r.Ok? && RuleDeleted(old(state), state, id)
      ensures log == old(log) + Perform(old(state), Op.DeleteRule(id)).log
      ensures state == After(old(state), Op.DeleteRule(id))
    {
      state := Forget(state, {id});
      log := log + [state];
      state := state.(rules := state.rules - {id});
      log := log + [state];
      return Ok(());
    }

    method InsertEach(runs: seq<NewRun>) returns (r: Result<()>)
      modifies this
      ensures log == old(log) + InsertRuns(old(state), runs).log
      ensures if r.Ok? then InsertRuns(old(state), runs).outcome == Ok(state)
              else InsertRuns(old(state), runs).outcome.Err?
    {
      for n := 0 to |runs|
        invariant InsertRuns(old(state), runs[..n]).outcome == Ok(state) && state.sessions == old(state).sessions
        invariant log == old(log) + InsertRuns(old(state), runs[..n]).log
      {
        assert runs[..n + 1][..n] == runs[..n];
        if runs[n].id in state.runs || runs[n].run.sessionId !in state.sessions {
          InsertStops(old(state), runs, n + 1);
          return Err(QueryFailed("insert throttle run"));
        }
        state := state.(runs := state.runs[runs[n].id := runs[n].run]);
        log := log + [state];
      }
      assert runs[..|runs|] == runs;
      return Ok(());
    }

    method ReplaceRuns(sessionId: string, runs: seq<NewRun>) returns (r: Result<()>)
      modifies this
      ensures log == old(log) + ReplaceRunsEffect(old(state), sessionId, runs).log
      ensures r.Ok? <==> ReplaceRunsEffect(old(state), sessionId, runs).outcome.Ok?
      ensures state == After(old(state), Op.ReplaceRuns(sessionId, runs))
    {
      var saved := state;
      state := DropRuns(state, sessionId);
      log := log + [state];
      r := InsertEach(runs);
      if r.Err? {
        state := saved;
      }
    }
  }

  /** Nothing runs after the first failing insert. */
  lemma {:induction false} InsertStops(s: State, runs: seq<NewRun>, n: nat)
    requires n <= |runs| && InsertRuns(s, runs[..n]).outcome.Err?
    ensures InsertRuns(s, runs) == InsertRuns(s, runs[..n])
    decreases |runs|
  {
    if n == |runs| {
      assert runs[..n] == runs;
    } else {
      assert runs[..|runs| - 1][..n] == runs[..n];
      InsertStops(s, runs[..|runs| - 1], n);
    }
  }

  // ---- Invariants ----

  /** At most one enabled profile per workspace, and every reference exists. */
  ghost predicate Valid(s: State) {
    && OneEnabled(s.profiles)
    && (forall i :: i in s.profiles ==> s.profiles[i].workspaceId in s.workspaces)
    && (forall r :: r in s.rules ==> s.rules[r].profileId in s.profiles && s.rules[r].workspaceId in s.workspaces)
    && (forall i :: i in s.runs ==> s.runs[i].sessionId in s.sessions)
  }

  /** The same, said of the profiles themselves. */
  lemma OneEnabledMeans(p: Profiles)
    ensures OneEnabled(p)
            <==> forall i, j | i in p && j in p && p[i].workspaceId == p[j].workspaceId ::
                   p[i].enabled && p[j].enabled ==> i == j
  {
    assert forall i :: i in Enabled(p) <==> i in p && p[i].enabled;
  }

  lemma DeactivateKeepsOne(s: State, workspaceId: string, keep: Option<string>)
    requires OneEnabled(s.profiles)
    ensures OneEnabled(Deactivate(s, workspaceId, keep).profiles)
    ensures forall i :: i in s.profiles && s.profiles[i].workspaceId == workspaceId && keep != Some(i)
              ==> !Deactivate(s, workspaceId, keep).profiles[i].enabled
  {
    OneEnabledMeans(s.profiles);
    OneEnabledMeans(Deactivate(s, workspaceId, keep).profiles);
  }

  /** Writing a profile keeps one enabled when it is disabled or the rest of its workspace is. */
  lemma PutKeepsOne(p: Profiles, id: string, profile: Profile)
    requires OneEnabled(p)
    requires profile.enabled ==>
               forall i :: i in p && i != id && p[i].workspaceId == profile.workspaceId ==> !p[i].enabled
    ensures OneEnabled(p[id := profile])
  {
    OneEnabledMeans(p);
    OneEnabledMeans(p[id := profile]);
  }

  ghost predicate LogKeepsOne(log: seq<State>) {
    forall n :: 0 <= n < |log| ==> OneEnabled(log[n].profiles)
  }

  lemma {:induction false} InsertRunsKeep(s: State, runs: seq<NewRun>)
    requires Valid(s)
    ensures LogKeepsOne(InsertRuns(s, runs).log)
    ensures InsertRuns(s, runs).outcome.Ok? ==>
              var t := InsertRuns(s, runs).outcome.value;
              Valid(t) && t == s.(runs := t.runs)
    ensures forall n :: 0 <= n < |InsertRuns(s, runs).log| ==> InsertRuns(s, runs).log[n].profiles == s.profiles
    decreases |runs|
  {
    if runs != [] {
      InsertRunsKeep(s, runs[..|runs| - 1]);
    }
  }

  lemma SaveProfileKeeps(s: State, id: string, p: Profile)
    requires Valid(s)
    ensures LogKeepsOne(SaveProfileEffect(s, id, p).log)
    ensures SaveProfileEffect(s, id, p).outcome.Ok? ==> Valid(SaveProfileEffect(s, id, p).outcome.value)
  {
    var s1 := if p.enabled then Deactivate(s, p.workspaceId, Some(id)) else s;
    DeactivateKeepsOne(s, p.workspaceId, Some(id));
    PutKeepsOne(s1.profiles, id, p);
  }

  lemma SetActiveKeeps(s: State, workspaceId: string, profileId: Option<string>)
    requires Valid(s)
    ensures LogKeepsOne(SetActiveEffect(s, workspaceId, profileId).log)
    ensures SetActiveEffect(s, workspaceId, profileId).outcome.Ok?
            ==> Valid(SetActiveEffect(s, workspaceId, profileId).outcome.value)
  {
    var s1 := Deactivate(s, workspaceId, None);
    DeactivateKeepsOne(s, workspaceId, None);
    if profileId.Some? && profileId.value in s.profiles && s.profiles[profileId.value].workspaceId == workspaceId {
      PutKeepsOne(s1.profiles, profileId.value, s1.profiles[profileId.value].(enabled := true));
    }
  }

  lemma DeleteProfileKeeps(s: State, id: string)
    requires Valid(s)
    ensures LogKeepsOne(DeleteProfileEffect(s, id).log) && Valid(DeleteProfileEffect(s, id).outcome.value)
  {
    OneEnabledMeans(s.profiles);
    OneEnabledMeans(s.profiles - {id});
  }

  /** After every single statement of every operation at most one profile per workspace
      is enabled, so the partial unique index never rejects one; a committed operation
      keeps every reference. */
  lemma StepKeepsValid(s: State, op: Op)
    requires Valid(s)
    ensures LogKeepsOne(Perform(s, op).log) && Valid(After(s, op))
  {
    match op
    case SaveProfile(id, p) =>
      SaveProfileKeeps(s, id, p);
    case SetActive(w, p) =>
      SetActiveKeeps(s, w, p);
    case DeleteProfile(id) =>
      DeleteProfileKeeps(s, id);
    case SaveRule(id, rule) =>
    case DeleteRule(id) =>
    case ReplaceRuns(session, runs) =>
      InsertRunsKeep(DropRuns(s, session), runs);
  }

  /** The tables after a sequence of operations. */
  function AfterAll(s: State, ops: seq<Op>): State
    decreases |ops|
  {
    if ops == [] then s else After(AfterAll(s, ops[..|ops| - 1]), ops[|ops| - 1])
  }

  lemma {:induction false} CommittedValid(s: State, ops: seq<Op>)
    requires Valid(s)
    ensures Valid(AfterAll(s, ops))
    decreases |ops|
  {
    if ops != [] {
      CommittedValid(s, ops[..|ops| - 1]);
      StepKeepsValid(AfterAll(s, ops[..|ops| - 1]), ops[|ops| - 1]);
    }
  }

  /** The tables after each statement of the n-th operation. */
  function LogAt(s: State, ops: seq<Op>, n: nat): seq<State>
    requires n < |ops|
  {
    Perform(AfterAll(s, ops[..n]), ops[n]).log
  }

  /** Over every sequence of operations, every committed state keeps the invariant and every
      single statement leaves at most one enabled profile per workspace. */
  lemma {:induction false} RunsKeepValid(s: State, ops: seq<Op>)
    requires Valid(s)
    ensures Valid(AfterAll(s, ops))
    ensures forall n :: 0 <= n < |ops| ==> LogKeepsOne(LogAt(s, ops, n))
  {
    CommittedValid(s, ops);
    forall n | 0 <= n < |ops|
      ensures LogKeepsOne(LogAt(s, ops, n))
    {
      CommittedValid(s, ops[..n]);
      StepKeepsValid(AfterAll(s, ops[..n]), ops[n]);
    }
  }

  // ---- What a switch does ----

  /** After a successful activation exactly the chosen profile is enabled in the
      workspace, and profiles elsewhere are untouched. */
  lemma ActivationIsExact(s: State, workspaceId: string, profileId: Option<string>)
    requires SetActiveEffect(s, workspaceId, profileId).outcome.Ok?
    ensures var t := SetActiveEffect(s, workspaceId, profileId).outcome.value;
            && t == s.(profiles := t.profiles) && t.profiles.Keys == s.profiles.Keys
            && forall i :: i in s.profiles ==>
                 t.profiles[i] == if s.profiles[i].workspaceId == workspaceId
                                  then s.profiles[i].(enabled := Some(i) == profileId) else s.profiles[i]
  {
  }

  /** Saving an enabled profile leaves it the only enabled one of its workspace. */
  lemma SavingEnabledIsExact(s: State, id: string, p: Profile)
    requires p.enabled && SaveProfileEffect(s, id, p).outcome.Ok?
    ensures var t := SaveProfileEffect(s, id, p).outcome.value;
            && t.profiles.Keys == s.profiles.Keys + {id} && t.profiles[id] == p
            && forall i :: i in s.profiles && i != id ==>
                 t.profiles[i] == if s.profiles[i].workspaceId == p.workspaceId
                                  then s.profiles[i].(enabled := false) else s.profiles[i]
  {
  }

  // ---- Recorded runs ----

  predicate Dangling(s: State, i: string)
    requires i in s.runs
  {
    s.runs[i].ruleId.Some? && s.runs[i].ruleId.value !in s.rules
  }

  /** No operation but recording runs makes a run dangle: a rule that goes takes its id
      out of every run first. */
  lemma DeletesForgetRules(s: State, op: Op)
    requires !op.ReplaceRuns?
    ensures var t := After(s, op);
            && t.runs.Keys == s.runs.Keys
            && forall i :: i in s.runs && Dangling(t, i) ==> Dangling(s, i) && t.runs[i] == s.runs[i]
  {
  }

  ghost predicate NoneDangling(s: State) {
    forall i :: i in s.runs ==> !Dangling(s, i)
  }

  /** The runs handed over name only rules that exist at that moment. */
  ghost predicate RecordsExistingRules(s: State, op: Op) {
    op.ReplaceRuns? ==>
      forall n :: 0 <= n < |op.runs| ==>
        op.runs[n].run.ruleId.None? || op.runs[n].run.ruleId.value in s.rules
  }

  lemma {:induction false} InsertRunsDangle(s: State, runs: seq<NewRun>)
    requires NoneDangling(s) && RecordsExistingRules(s, ReplaceRuns("", runs)) && InsertRuns(s, runs).outcome.Ok?
    ensures NoneDangling(InsertRuns(s, runs).outcome.value) && InsertRuns(s, runs).outcome.value.rules == s.rules
    decreases |runs|
  {
    if runs != [] {
      InsertRunsDangle(s, runs[..|runs| - 1]);
    }
  }

  lemma StepKeepsNoneDangling(s: State, op: Op)
    requires NoneDangling(s) && RecordsExistingRules(s, op)
    ensures NoneDangling(After(s, op))
  {
    if op.ReplaceRuns? {
      if Perform(s, op).outcome.Ok? {
        InsertRunsDangle(DropRuns(s, op.sessionId), op.runs);
      }
    } else {
      DeletesForgetRules(s, op);
    }
  }

  /** Over every history whose recordings name existing rules, no run ever dangles. */
  lemma {:induction false} RunsNeverDangle(s: State, ops: seq<Op>)
    requires NoneDangling(s)
    requires forall n :: 0 <= n < |ops| ==> RecordsExistingRules(AfterAll(s, ops[..n]), ops[n])
    ensures NoneDangling(AfterAll(s, ops))
    decreases |ops|
  {
    if ops != [] {
      var m := |ops| - 1;
      forall n | 0 <= n < m ensures RecordsExistingRules(AfterAll(s, ops[..m][..n]), ops[..m][n]) {
        assert ops[..m][..n] == ops[..n];
      }
      RunsNeverDangle(s, ops[..m]);
      StepKeepsNoneDangling(AfterAll(s, ops[..m]), ops[m]);
    }
  }
}
