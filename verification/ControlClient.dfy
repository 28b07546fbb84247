/** The sidecar's control call: grants, one exchange, and at most one retry. The
    socket, the desktop, its configuration file and the launcher are an environment
    that answers each question the client asks, in order. */
module ControlClient {
  import opened Common
  import opened RustText

  const PROTOCOL_VERSION := 2

  type Capability = string

  datatype ToolError = ToolError(code: string, retryable: bool, audited: bool, capabilities: seq<Capability>)

  datatype Outcome<+T> = Done(value: T) | Failed(error: ToolError)

  datatype GrantStatus =
    Pending | Approved | Executing | Succeeded | Failure | Unknown | Expired | Revoked | Denied | Cancelled

  /** What a result payload says about a grant. */
  datatype Value = NoGrant | BadGrant | Grant(id: string, status: GrantStatus)

  datatype RemoteError = RemoteError(code: string, retryable: bool, capabilities: seq<Capability>)

  datatype Response = Response(version: nat, requestId: string, ok: bool, data: Option<Value>,
                               error: Option<RemoteError>)

  datatype IoKind = TimedOut | WouldBlock | OtherKind

  /** How one exchange with the desktop can go. The timeout and the join error wrap the
      whole exchange, connecting included, so `written` tells whether the whole frame had
      been written when the client gave up; an abandoned exchange may still write it later. */
  datatype Attempt =
    | BadEndpoint
    | ConnectFails(kind: IoKind)
    | SetupFails
    | NotSerializable
    | TooLarge
    | WriteFails(kind: IoKind)
    | FlushFails(kind: IoKind)
    | ReadTooLong
    | ReadFails(kind: IoKind)
    | BadJson
    | TaskFails(written: bool)
    | Overruns(written: bool)
    | Answered(response: Response)

  datatype Descriptor = Descriptor(version: nat, endpoint: string, token: string)

  datatype DescriptorFile = Readable(d: Descriptor) | Unreadable | Missing

  datatype Config = Config(enabled: bool, granted: set<Capability>, ask: set<Capability>)

  /** A failure of the sidecar itself, never marked as audited by the desktop. */
  datatype LocalFailure = LocalFailure(code: string, retryable: bool)

  datatype Answer<+T> = Yes(value: T) | No(failure: LocalFailure)

  datatype Phase = Preparing | Retrying

  datatype Env = Env(
    descriptor: DescriptorFile, config: Option<Config>, running: Phase -> bool, launch: Phase -> Answer<Descriptor>,
    scope: Phase -> Option<LocalFailure>, requestId: nat -> string, exchange: nat -> Attempt)

  datatype Operation = Operation(write: bool, permissions: seq<Capability>)

  datatype Auth = Auth(grantIds: seq<string>, fingerprinted: bool)

  /** One exchange; `operation` tells the caller's operation from a grant request. */
  datatype Exchange = Exchange(index: nat, operation: bool, auth: Auth, attempt: Attempt)

  const NO_AUTH := Auth([], false)

  function Local(code: string): ToolError {
    ToolError(code, false, false, [])
  }

  function Raise(f: LocalFailure): ToolError {
    ToolError(f.code, f.retryable, false, [])
  }

  // ---- One exchange ----

  function IoError(kind: IoKind): ToolError {
    Local(if kind.OtherKind? then "CONTROL_UNAVAILABLE" else "CONTROL_TIMEOUT")
  }

  function MarkLost(e: ToolError, write: bool): ToolError {
    if write then e.(audited := true) else e
  }

  function SendRequest(attempt: Attempt, write: bool): Outcome<Response> {
    match attempt
    case BadEndpoint => Failed(Local("CONTROL_UNAVAILABLE"))
    case ConnectFails(kind) => Failed(IoError(kind).(retryable := true))
    case SetupFails => Failed(Local("CONTROL_UNAVAILABLE"))
    case NotSerializable => Failed(Local("INVALID_ARGUMENT"))
    case TooLarge => Failed(Local("INVALID_ARGUMENT"))
    case WriteFails(kind) => Failed(IoError(kind))
    case FlushFails(kind) => Failed(IoError(kind))
    case ReadTooLong => Failed(MarkLost(Local("CONTROL_UNAVAILABLE"), write))
    case ReadFails(kind) => Failed(MarkLost(IoError(kind), write))
    case BadJson => Failed(MarkLost(Local("CONTROL_UNAVAILABLE"), write))
    case TaskFails(_) => Failed(MarkLost(Local("CONTROL_UNAVAILABLE"), write))
    case Overruns(_) => Failed(MarkLost(Local("CONTROL_TIMEOUT"), write))
    case Answered(response) => Done(response)
  }

  function ReadResponse(response: Response, requestId: string, write: bool): Outcome<Value> {
    if response.version != PROTOCOL_VERSION || response.requestId != requestId then
      Failed(MarkLost(Local("CONTROL_UNAVAILABLE"), write))
    else if response.ok then
      if response.data.Some? then Done(response.data.value) else Failed(MarkLost(Local("CONTROL_UNAVAILABLE"), write))
    else if response.error.Some? then
      var e := response.error.value;
      Failed(ToolError(e.code, e.retryable, true, e.capabilities))
    else Failed(ToolError("CONTROL_UNAVAILABLE", false, true, []))
  }

  function CallOnce(attempt: Attempt, requestId: string, write: bool): Outcome<Value> {
    var sent := SendRequest(attempt, write);
    if sent.Failed? then Failed(sent.error) else ReadResponse(sent.value, requestId, write)
  }

  /** The whole frame was written and flushed without an error before the attempt ended. */
  predicate PastWrite(attempt: Attempt) {
    || attempt.ReadTooLong? || attempt.ReadFails? || attempt.BadJson? || attempt.Answered?
    || (attempt.TaskFails? && attempt.written) || (attempt.Overruns? && attempt.written)
  }

  /** No byte of the frame was written. */
  predicate NothingSent(attempt: Attempt) {
    attempt.BadEndpoint? || attempt.ConnectFails? || attempt.SetupFails? || attempt.NotSerializable?
        || attempt.TooLarge?
  }

  /** The desktop answered this very request with an error. */
  predicate Refused(attempt: Attempt, requestId: string) {
    && attempt.Answered? && attempt.response.version == PROTOCOL_VERSION && attempt.response.requestId == requestId
    && !attempt.response.ok
  }

  /** A failed write is marked exactly when it got past the write or the client gave up on
      the exchange, and so always past the write; a failed read exactly when refused. */
  lemma {:induction false} WriteMarkExact(attempt: Attempt, requestId: string)
    ensures var r := CallOnce(attempt, requestId, true);
            r.Failed? ==> (r.error.audited <==> GivesUpOrPast(attempt))
    ensures var r := CallOnce(attempt, requestId, true);
            r.Failed? && PastWrite(attempt) ==> r.error.audited
    ensures var r := CallOnce(attempt, requestId, false);
            r.Failed? ==> (r.error.audited <==> Refused(attempt, requestId))
  {
  }

  predicate GivesUpOrPast(attempt: Attempt) {
    PastWrite(attempt) || attempt.Overruns? || attempt.TaskFails?
  }

  /** Only the desktop asks for approval. */
  lemma {:induction false} ApprovalIsRemote(attempt: Attempt, requestId: string, write: bool)
    ensures var r := CallOnce(attempt, requestId, write);
            r.Failed? && r.error.code == "APPROVAL_REQUIRED" ==> AsksApproval(attempt, requestId)
  {
  }

  /** Only a connect failure or a desktop answer is a retryable CONTROL_UNAVAILABLE. */
  lemma {:induction false} RelaunchIsSafe(attempt: Attempt, requestId: string, write: bool)
    ensures var r := CallOnce(attempt, requestId, write);
            r.Failed? && r.error.code == "CONTROL_UNAVAILABLE" && r.error.retryable
            ==> attempt.ConnectFails? || AsksRelaunch(attempt, requestId)
  {
  }

  predicate AsksApproval(attempt: Attempt, requestId: string) {
    && Refused(attempt, requestId) && attempt.response.error.Some?
    && attempt.response.error.value.code == "APPROVAL_REQUIRED"
  }

  predicate AsksRelaunch(attempt: Attempt, requestId: string) {
    && Refused(attempt, requestId) && attempt.response.error.Some?
    && attempt.response.error.value.code == "CONTROL_UNAVAILABLE" && attempt.response.error.value.retryable
  }

  // ---- Grants ----

  function GrantOutcome(r: Outcome<Value>): Outcome<string> {
    if r.Failed? then Failed(r.error)
    else
      match r.value
      case NoGrant => Failed(Local("GRANT_REQUEST_FAILED"))
      case BadGrant => Failed(Local("GRANT_REQUEST_FAILED"))
      case Grant(id, status) =>
        match status
        case Approved => Done(id)
        case Executing => Done(id)
        case Denied => Failed(Local("APPROVAL_DENIED"))
        case Expired => Failed(Local("APPROVAL_TIMEOUT"))
        case Cancelled => Failed(Local("APPROVAL_CANCELLED"))
        case Revoked => Failed(Local("APPROVAL_CANCELLED"))
        case _ => Failed(Local("APPROVAL_REQUIRED"))
  }

  function GrantExchange(env: Env, trace: seq<Exchange>): Exchange {
    Exchange(|trace|, false, NO_AUTH, env.exchange(|trace|))
  }

  /** What the n-th exchange of a run returns. */
  function Returned(env: Env, x: Exchange, write: bool): Outcome<Value> {
    CallOnce(x.attempt, env.requestId(x.index), write)
  }

  function Granted(env: Env, x: Exchange): Outcome<string> {
    GrantOutcome(Returned(env, x, false))
  }

  function Push(phase: Phase, ids: seq<string>, id: string): seq<string> {
    if phase.Retrying? && id in ids then ids else ids + [id]
  }

  /** May the sidecar ask for this capability in this phase? */
  predicate MayAsk(env: Env, phase: Phase, c: Capability) {
    phase.Retrying? || (env.config.Some? && c in env.config.value.ask)
  }

  datatype Gathered = Gathered(trace: seq<Exchange>, ids: Outcome<seq<string>>)

  /** One grant request per capability, stopping at the first failure. */
  function Gather(env: Env, phase: Phase, caps: seq<Capability>, trace: seq<Exchange>, ids: seq<string>): Gathered
    decreases |caps|
  {
    if caps == [] then Gathered(trace, Done(ids))
    else if !MayAsk(env, phase, caps[0]) then Gathered(trace, Failed(Local("CONTROL_PERMISSION_DENIED")))
    else
      var x := GrantExchange(env, trace);
      var g := Granted(env, x);
      if g.Failed? then Gathered(trace + [x], Failed(g.error))
      else Gather(env, phase, caps[1..], trace + [x], Push(phase, ids, g.value))
  }

  function MissingPermissions(granted: set<Capability>, permissions: seq<Capability>): seq<Capability> {
    if permissions == [] then []
    else (if permissions[0] in granted then [] else [permissions[0]]) + MissingPermissions(granted, permissions[1..])
  }

  // ---- The whole call ----

  datatype Run = Run(trace: seq<Exchange>, result: Outcome<Value>)

  datatype Prepared = Prepared(trace: seq<Exchange>, auth: Outcome<Auth>)

  function Prepare(env: Env, op: Operation): Prepared {
    if env.config.None? || !env.config.value.enabled then Prepared([], Failed(Local("AGENT_ACCESS_DISABLED")))
    else
      var missing := MissingPermissions(env.config.value.granted, op.permissions);
      if missing == [] then Prepared([], Done(NO_AUTH))
      else if env.scope(Preparing).Some? then Prepared([], Failed(Raise(env.scope(Preparing).value)))
      else
        var g := Gather(env, Preparing, missing, [], []);
        Prepared(g.trace, if g.ids.Failed? then Failed(g.ids.error) else Done(Auth(g.ids.value, true)))
  }

  function Validate(d: Descriptor): Option<ToolError> {
    if d.version != PROTOCOL_VERSION || Blank(d.endpoint) || ByteLen(d.token) < 32
    then Some(Local("CONTROL_UNAVAILABLE")) else None
  }

  function Launch(env: Env, phase: Phase): Option<ToolError> {
    if env.running(phase) then Some(Local("CONTROL_UNAVAILABLE"))
    else
      match env.launch(phase)
      case Yes(_) => None
      case No(failure) => Some(Raise(failure))
  }

  /** The error with which the call ends before it has a usable descriptor, if any. */
  function Resolve(env: Env, allowLaunch: bool): Option<ToolError> {
    match env.descriptor
    case Readable(d) => Validate(d)
    case Unreadable => Some(Local("CONTROL_UNAVAILABLE"))
    case Missing =>
      if !allowLaunch then Some(Local("CONTROL_UNAVAILABLE"))
      else if Launch(env, Preparing).Some? then Launch(env, Preparing)
      else Validate(env.launch(Preparing).value)
  }

  function OperationExchange(env: Env, trace: seq<Exchange>, auth: Auth): Exchange {
    Exchange(|trace|, true, auth, env.exchange(|trace|))
  }

  function SendLast(env: Env, op: Operation, trace: seq<Exchange>, auth: Auth): Run {
    var x := OperationExchange(env, trace, auth);
    Run(trace + [x], Returned(env, x, op.write))
  }

  predicate RelaunchAsked(e: ToolError, allowLaunch: bool) {
    allowLaunch && e.code == "CONTROL_UNAVAILABLE" && e.retryable
  }

  /** Ask for the missing grants, then send again. */
  function AfterApproval(env: Env, op: Operation, trace: seq<Exchange>, auth: Auth, caps: seq<Capability>): Run {
    if env.scope(Retrying).Some? then Run(trace, Failed(Raise(env.scope(Retrying).value)))
    else
      var g := Gather(env, Retrying, caps, trace, auth.grantIds);
      if g.ids.Failed? then Run(g.trace, Failed(g.ids.error))
      else SendLast(env, op, g.trace, Auth(g.ids.value, true))
  }

  /** Launch the desktop, then send again. */
  function AfterRelaunch(env: Env, op: Operation, trace: seq<Exchange>, auth: Auth): Run {
    if Launch(env, Retrying).Some? then Run(trace, Failed(Launch(env, Retrying).value))
    else SendLast(env, op, trace, auth)
  }

  predicate ApprovalAsked(e: ToolError) {
    e.code == "APPROVAL_REQUIRED" && e.capabilities != []
  }

  /** What follows a first send that failed with `e`. */
  function Retry(env: Env, op: Operation, allowLaunch: bool, trace: seq<Exchange>, auth: Auth, e: ToolError): Run {
    if ApprovalAsked(e) then AfterApproval(env, op, trace, auth, e.capabilities)
    else if RelaunchAsked(e, allowLaunch) then AfterRelaunch(env, op, trace, auth)
    else Run(trace, Failed(e))
  }

  function Call(env: Env, op: Operation, allowLaunch: bool): Run {
    if Resolve(env, allowLaunch).Some? then Run([], Failed(Resolve(env, allowLaunch).value))
    else
      var p := Prepare(env, op);
      if p.auth.Failed? then Run(p.trace, Failed(p.auth.error))
      else
        var first := SendLast(env, op, p.trace, p.auth.value);
        if first.result.Done? then first
        else Retry(env, op, allowLaunch, first.trace, p.auth.value, first.result.error)
  }

  // ---- The client as it runs ----

  class Client {
    const env: Env
    var trace: seq<Exchange>

    constructor (env: Env)
      ensures this.env == env && trace == []
    {
      this.env := env;
      trace := [];
    }

    method Exchanged(operation: bool, auth: Auth, write: bool) returns (r: Outcome<Value>)
      modifies this
      ensures var x := Exchange(|old(trace)|, operation, auth, env.exchange(|old(trace)|));
              trace == old(trace) + [x] && r == Returned(env, x, write)
    {
      var n := |trace|;
      trace := trace + [Exchange(n, operation, auth, env.exchange(n))];
      r := CallOnce(env.exchange(n), env.requestId(n), write);
    }

    /** Both grant loops: one request per capability, ids pushed as they come. */
    method GatherGrants(phase: Phase, caps: seq<Capability>, held: seq<string>) returns (ids: Outcome<seq<string>>)
      modifies this
      ensures Gathered(trace, ids) == Gather(env, phase, caps, old(trace), held)
    {
      var grantIds := held;
      for i := 0 to |caps|
        invariant Gather(env, phase, caps[i..], trace, grantIds) == Gather(env, phase, caps, old(trace), held)
      {
        assert caps[i..][0] == caps[i] && caps[i..][1..] == caps[i + 1..];
        if !MayAsk(env, phase, caps[i]) {
          return Failed(Local("CONTROL_PERMISSION_DENIED"));
        }
        var r := Exchanged(false, NO_AUTH, false);
        var g := GrantOutcome(r);
        if g.Failed? {
          return Failed(g.error);
        }
        grantIds := Push(phase, grantIds, g.value);
      }
      ids := Done(grantIds);
    }

    method PrepareAuth(op: Operation) returns (auth: Outcome<Auth>)
      requires trace == []
      modifies this
      ensures Prepared(trace, auth) == Prepare(env, op)
    {
      if env.config.None? || !env.config.value.enabled {
        return Failed(Local("AGENT_ACCESS_DISABLED"));
      }
      var missing := MissingPermissions(env.config.value.granted, op.permissions);
      if missing == [] {
        return Done(NO_AUTH);
      }
      if env.scope(Preparing).Some? {
        return Failed(Raise(env.scope(Preparing).value));
      }
      var ids := GatherGrants(Preparing, missing, []);
      auth := if ids.Failed? then Failed(ids.error) else Done(Auth(ids.value, true));
    }

    method CallControl(op: Operation, allowLaunch: bool) returns (r: Outcome<Value>)
      requires trace == []
      modifies this
      ensures Run(trace, r) == Call(env, op, allowLaunch)
    {
      var unresolved := Resolve(env, allowLaunch);
      if unresolved.Some? {
        return Failed(unresolved.value);
      }
      var auth := PrepareAuth(op);
      if auth.Failed? {
        return Failed(auth.error);
      }
      r := Exchanged(true, auth.value, op.write);
      if r.Done? {
        return;
      }
      if r.error.code == "APPROVAL_REQUIRED" {
        if r.error.capabilities == [] {
          return;
        }
        if env.scope(Retrying).Some? {
          return Failed(Raise(env.scope(Retrying).value));
        }
        var ids := GatherGrants(Retrying, r.error.capabilities, auth.value.grantIds);
        if ids.Failed? {
          return Failed(ids.error);
        }
        r := Exchanged(true, Auth(ids.value, true), op.write);
      } else if RelaunchAsked(r.error, allowLaunch) {
        var failure := Launch(env, Retrying);
        if failure.Some? {
          return Failed(failure.value);
        }
        r := Exchanged(true, auth.value, op.write);
      }
    }
  }

  // ---- Bounds over whole runs ----

  /** The exchanges that carried the operation, in order. */
  function Sends(trace: seq<Exchange>): seq<Exchange> {
    if trace == [] then []
    else
      var last := trace[|trace| - 1];
      Sends(trace[..|trace| - 1]) + if last.operation then [last] else []
  }

  lemma {:induction false} SendsPlus(trace: seq<Exchange>, x: Exchange)
    ensures Sends(trace + [x]) == Sends(trace) + if x.operation then [x] else []
  {
    assert (trace + [x])[..|trace|] == trace;
  }

  lemma {:induction false} GrantsSendNothing(env: Env, phase: Phase, caps: seq<Capability>, trace: seq<Exchange>,
                                             ids: seq<string>)
    ensures Sends(Gather(env, phase, caps, trace, ids).trace) == Sends(trace)
    ensures |Gather(env, phase, caps, trace, ids).trace| <= |trace| + |caps|
    decreases |caps|
  {
    if caps != [] && MayAsk(env, phase, caps[0]) {
      var x := GrantExchange(env, trace);
      SendsPlus(trace, x);
      if Granted(env, x).Done? {
        GrantsSendNothing(env, phase, caps[1..], trace + [x], Push(phase, ids, Granted(env, x).value));
      }
    }
  }

  lemma {:induction false} PreparationSendsNothing(env: Env, op: Operation)
    ensures Sends(Prepare(env, op).trace) == []
  {
    if env.config.Some? {
      GrantsSendNothing(env, Preparing, MissingPermissions(env.config.value.granted, op.permissions), [], []);
    }
  }

  /** The answers and failures after which the operation is sent again. */
  predicate MaySendAgain(env: Env, x: Exchange) {
    || x.attempt.ConnectFails?
    || AsksApproval(x.attempt, env.requestId(x.index))
    || AsksRelaunch(x.attempt, env.requestId(x.index))
  }

  lemma {:induction false} RetrySends(env: Env, op: Operation, allowLaunch: bool, trace: seq<Exchange>, auth: Auth,
                                      x: Exchange)
    requires Sends(trace) == [x] && Returned(env, x, op.write).Failed?
    ensures var run := Retry(env, op, allowLaunch, trace, auth, Returned(env, x, op.write).error);
            && 1 <= |Sends(run.trace)| <= 2 && Sends(run.trace)[0] == x
            && (|Sends(run.trace)| == 2 ==> MaySendAgain(env, x))
  {
    var e := Returned(env, x, op.write).error;
    if ApprovalAsked(e) {
      ApprovalIsRemote(x.attempt, env.requestId(x.index), op.write);
      var g := Gather(env, Retrying, e.capabilities, trace, auth.grantIds);
      GrantsSendNothing(env, Retrying, e.capabilities, trace, auth.grantIds);
      if g.ids.Done? {
        SendsPlus(g.trace, OperationExchange(env, g.trace, Auth(g.ids.value, true)));
      }
    } else if RelaunchAsked(e, allowLaunch) {
      RelaunchIsSafe(x.attempt, env.requestId(x.index), op.write);
      SendsPlus(trace, OperationExchange(env, trace, auth));
    }
  }

  /** In every run the operation is sent at most twice, and twice only after a connect
      failure or an answer that asks for it. */
  lemma {:induction false} SentAtMostTwice(env: Env, op: Operation, allowLaunch: bool)
    ensures var sends := Sends(Call(env, op, allowLaunch).trace);
            |sends| <= 2 && (|sends| == 2 ==> MaySendAgain(env, sends[0]))
  {
    var p := Prepare(env, op);
    PreparationSendsNothing(env, op);
    if Resolve(env, allowLaunch).None? && p.auth.Done? {
      var x := OperationExchange(env, p.trace, p.auth.value);
      SendsPlus(p.trace, x);
      if Returned(env, x, op.write).Failed? {
        RetrySends(env, op, allowLaunch, p.trace + [x], p.auth.value, x);
      }
    }
  }

  /** How many exchanges made the desktop run the operation. */
  function Executions(executes: Exchange -> bool, sends: seq<Exchange>): nat {
    if sends == [] then 0 else (if executes(sends[0]) then 1 else 0) + Executions(executes, sends[1..])
  }

  /** The desktop runs nothing it did not receive, nor when it asks for another send. */
  ghost predicate Disciplined(env: Env, executes: Exchange -> bool) {
    forall x :: executes(x) ==> !NothingSent(x.attempt) && !MaySendAgain(env, x)
  }

  /** With such a desktop the operation runs at most once in every call. */
  lemma {:induction false} RunsAtMostOnce(env: Env, op: Operation, allowLaunch: bool, executes: Exchange -> bool)
    requires Disciplined(env, executes)
    ensures Executions(executes, Sends(Call(env, op, allowLaunch).trace)) <= 1
  {
    SentAtMostTwice(env, op, allowLaunch);
    var sends := Sends(Call(env, op, allowLaunch).trace);
    if |sends| == 2 {
      assert !executes(sends[0]);
      assert Executions(executes, sends[1..]) <= 1 by {
        assert Executions(executes, sends[1..][1..]) == 0;
      }
    } else if |sends| == 1 {
      assert Executions(executes, sends[1..]) == 0;
    }
  }

  // ---- When a failed write is marked as audited ----

  /** A first send that fails like this is followed by more work. */
  predicate AsksRetry(env: Env, allowLaunch: bool, x: Exchange) {
    var id := env.requestId(x.index);
    || (AsksApproval(x.attempt, id) && x.attempt.response.error.value.capabilities != [])
    || (allowLaunch && (x.attempt == ConnectFails(OtherKind) || AsksRelaunch(x.attempt, id)))
  }

  predicate Marked(env: Env, allowLaunch: bool, trace: seq<Exchange>)
    requires trace != []
  {
    var last := trace[|trace| - 1];
    if last.operation then GivesUpOrPast(last.attempt) && (|Sends(trace)| == 2 || !AsksRetry(env, allowLaunch, last))
    else Refused(last.attempt, env.requestId(last.index))
  }

  /** A grant loop of the retry that fails ends with a grant request, and its error is
      marked exactly when the desktop refused that request. */
  lemma {:induction false} GatherFailure(env: Env, caps: seq<Capability>, trace: seq<Exchange>, ids: seq<string>)
    requires Gather(env, Retrying, caps, trace, ids).ids.Failed?
    ensures var g := Gather(env, Retrying, caps, trace, ids);
            && |g.trace| > 0 && !g.trace[|g.trace| - 1].operation
            && var last := g.trace[|g.trace| - 1];
               g.ids.error.audited <==> Refused(last.attempt, env.requestId(last.index))
    decreases |caps|
  {
    var x := GrantExchange(env, trace);
    if Granted(env, x).Done? {
      GatherFailure(env, caps[1..], trace + [x], Push(Retrying, ids, Granted(env, x).value));
    } else {
      WriteMarkExact(x.attempt, env.requestId(x.index));
    }
  }

  /** Which branch a failed first send takes. */
  lemma {:induction false} RetryBranch(env: Env, op: Operation, allowLaunch: bool, x: Exchange)
    requires Returned(env, x, op.write).Failed?
    ensures var e := Returned(env, x, op.write).error;
            AsksRetry(env, allowLaunch, x)
            <==> ApprovalAsked(e) || RelaunchAsked(e, allowLaunch)
  {
  }

  lemma {:induction false} SecondSendMark(env: Env, op: Operation, allowLaunch: bool, trace: seq<Exchange>, auth: Auth)
    requires op.write && |Sends(trace)| == 1
    ensures var run := SendLast(env, op, trace, auth);
            run.result.Failed? ==> (run.result.error.audited <==> Marked(env, allowLaunch, run.trace))
  {
    var y := OperationExchange(env, trace, auth);
    SendsPlus(trace, y);
    WriteMarkExact(y.attempt, env.requestId(y.index));
  }

  ghost predicate MarkedRight(env: Env, allowLaunch: bool, run: Run) {
    run.trace != [] && (run.result.Failed? ==> (run.result.error.audited <==> Marked(env, allowLaunch, run.trace)))
  }

  /** A first send whose failure starts the retry work is not itself marked. */
  lemma {:induction false} RetryWorkUnmarked(env: Env, allowLaunch: bool, before: seq<Exchange>, x: Exchange)
    requires x.operation && Sends(before + [x]) == [x] && AsksRetry(env, allowLaunch, x)
    ensures !Marked(env, allowLaunch, before + [x])
  {
    assert (before + [x])[|before|] == x;
  }

  lemma {:induction false} GatheredMark(env: Env, op: Operation, allowLaunch: bool, trace: seq<Exchange>, auth: Auth,
                                        caps: seq<Capability>)
    requires op.write && |Sends(trace)| == 1 && env.scope(Retrying).None?
    ensures MarkedRight(env, allowLaunch, AfterApproval(env, op, trace, auth, caps))
  {
    var g := Gather(env, Retrying, caps, trace, auth.grantIds);
    GrantsSendNothing(env, Retrying, caps, trace, auth.grantIds);
    if g.ids.Failed? {
      GatherFailure(env, caps, trace, auth.grantIds);
    } else {
      SecondSendMark(env, op, allowLaunch, g.trace, Auth(g.ids.value, true));
    }
  }

  lemma {:induction false} ApprovalMark(env: Env, op: Operation, allowLaunch: bool, before: seq<Exchange>, auth: Auth,
                                        x: Exchange, caps: seq<Capability>)
    requires op.write && x.operation && Sends(before + [x]) == [x] && AsksRetry(env, allowLaunch, x)
    ensures MarkedRight(env, allowLaunch, AfterApproval(env, op, before + [x], auth, caps))
  {
    if env.scope(Retrying).Some? {
      RetryWorkUnmarked(env, allowLaunch, before, x);
    } else {
      GatheredMark(env, op, allowLaunch, before + [x], auth, caps);
    }
  }

  lemma {:induction false} RelaunchMark(env: Env, op: Operation, allowLaunch: bool, before: seq<Exchange>, auth: Auth,
                                        x: Exchange)
    requires op.write && x.operation && Sends(before + [x]) == [x] && AsksRetry(env, allowLaunch, x)
    ensures MarkedRight(env, allowLaunch, AfterRelaunch(env, op, before + [x], auth))
  {
    RetryWorkUnmarked(env, allowLaunch, before, x);
    if Launch(env, Retrying).None? {
      SecondSendMark(env, op, allowLaunch, before + [x], auth);
    }
  }

  lemma {:induction false} FinalMark(env: Env, op: Operation, allowLaunch: bool, before: seq<Exchange>, x: Exchange)
    requires op.write && x.operation && Sends(before + [x]) == [x] && !AsksRetry(env, allowLaunch, x)
    requires Returned(env, x, op.write).Failed?
    ensures MarkedRight(env, allowLaunch, Run(before + [x], Returned(env, x, op.write)))
  {
    assert (before + [x])[|before|] == x;
    WriteMarkExact(x.attempt, env.requestId(x.index));
  }

  /** Once a write was sent, a failed call is marked exactly when it ends with a send that
      got past the write or was given up, unless that was a first send whose failure starts
      the retry work, or with a refused grant request. */
  lemma {:induction false} AuditMarkExact(env: Env, op: Operation, allowLaunch: bool)
    requires op.write
    ensures var run := Call(env, op, allowLaunch);
            run.result.Failed? && Sends(run.trace) != []
            ==> run.trace != [] && (run.result.error.audited <==> Marked(env, allowLaunch, run.trace))
  {
    var p := Prepare(env, op);
    PreparationSendsNothing(env, op);
    if Resolve(env, allowLaunch).None? && p.auth.Done? {
      var x := OperationExchange(env, p.trace, p.auth.value);
      SendsPlus(p.trace, x);
      if Returned(env, x, op.write).Failed? {
        var e := Returned(env, x, op.write).error;
        RetryBranch(env, op, allowLaunch, x);
        if ApprovalAsked(e) {
          ApprovalMark(env, op, allowLaunch, p.trace, p.auth.value, x, e.capabilities);
        } else if RelaunchAsked(e, allowLaunch) {
          RelaunchMark(env, op, allowLaunch, p.trace, p.auth.value, x);
        } else {
          FinalMark(env, op, allowLaunch, p.trace, x);
        }
      }
    }
  }

  /** Every failure past the write is marked, unless the failure starts the retry work. */
  lemma {:induction false} PastWriteIsMarked(env: Env, op: Operation, allowLaunch: bool)
    requires op.write
    ensures var run := Call(env, op, allowLaunch);
            run.result.Failed? && run.trace != [] && Sends(run.trace) != []
            ==> var last := run.trace[|run.trace| - 1];
                last.operation && PastWrite(last.attempt)
                    && (|Sends(run.trace)| == 2 || !AsksRetry(env, allowLaunch, last))
                ==> run.result.error.audited
  {
    AuditMarkExact(env, op, allowLaunch);
  }

  /** A usable descriptor and a configuration under which the operation needs no grant. */
  ghost predicate Ready(env: Env) {
    && env.descriptor == Readable(Descriptor(PROTOCOL_VERSION, "e", seq(32, _ => 't')))
    && env.config == Some(Config(true, {}, {}))
  }

  lemma {:induction false} FirstSend(env: Env, allowLaunch: bool)
    requires Ready(env)
    ensures Resolve(env, allowLaunch).None? && Prepare(env, Operation(true, [])) == Prepared([], Done(NO_AUTH))
    ensures SendLast(env, Operation(true, []), [], NO_AUTH).trace == [OperationExchange(env, [], NO_AUTH)]
    ensures Sends([OperationExchange(env, [], NO_AUTH)]) == [OperationExchange(env, [], NO_AUTH)]
  {
    AsciiLength(seq(32, _ => 't'));
    SendsPlus([], OperationExchange(env, [], NO_AUTH));
    assert [] + [OperationExchange(env, [], NO_AUTH)] == [OperationExchange(env, [], NO_AUTH)];
  }

  /** What the call does once the first send has failed. */
  lemma {:induction false} CallRetries(env: Env, allowLaunch: bool)
    requires Ready(env) && Returned(env, OperationExchange(env, [], NO_AUTH), true).Failed?
    ensures var x := OperationExchange(env, [], NO_AUTH);
            Call(env, Operation(true, []), allowLaunch)
            == Retry(env, Operation(true, []), allowLaunch, [x], NO_AUTH, Returned(env, x, true).error)
  {
    FirstSend(env, allowLaunch);
  }

  /** The other way the mark and the write differ: a call that times out while it is still
      connecting is marked although no frame was written. */
  lemma {:induction false} EarlyTimeoutIsMarked(env: Env, allowLaunch: bool)
    requires Ready(env) && env.exchange(0) == Overruns(false)
    ensures var run := Call(env, Operation(true, []), allowLaunch);
            && run.result == Failed(ToolError("CONTROL_TIMEOUT", false, true, []))
            && |Sends(run.trace)| == 1 && !PastWrite(Sends(run.trace)[0].attempt)
  {
    FirstSend(env, allowLaunch);
  }

  /** A frame that was fully sent and answered, and a failure that is not marked: the
      desktop asks for approval and the user denies it. */
  lemma {:induction false} DeniedApprovalIsUnmarked(env: Env, caps: seq<Capability>)
    requires Ready(env) && env.scope(Retrying).None? && |caps| > 0
    requires env.exchange(0) == Answered(Response(PROTOCOL_VERSION, env.requestId(0), false, None,
                                                  Some(RemoteError("APPROVAL_REQUIRED", false, caps))))
    requires env.exchange(1) == Answered(Response(PROTOCOL_VERSION, env.requestId(1), true,
                                                  Some(Grant("g", Denied)), None))
    ensures var run := Call(env, Operation(true, []), false);
            && run.result == Failed(ToolError("APPROVAL_DENIED", false, false, []))
            && |Sends(run.trace)| == 1 && PastWrite(Sends(run.trace)[0].attempt)
  {
    FirstSend(env, false);
    CallRetries(env, false);
    var x := OperationExchange(env, [], NO_AUTH);
    assert Returned(env, x, true) == Failed(ToolError("APPROVAL_REQUIRED", false, true, caps));
    DeniedGrant(env, caps, x);
    SendsPlus([x], GrantExchange(env, [x]));
  }

  lemma {:induction false} DeniedGrant(env: Env, caps: seq<Capability>, x: Exchange)
    requires env.scope(Retrying).None? && |caps| > 0
    requires env.exchange(1) == Answered(Response(PROTOCOL_VERSION, env.requestId(1), true,
                                                  Some(Grant("g", Denied)), None))
    ensures AfterApproval(env, Operation(true, []), [x], NO_AUTH, caps)
            == Run([x] + [GrantExchange(env, [x])], Failed(Local("APPROVAL_DENIED")))
  {
    assert Granted(env, GrantExchange(env, [x])) == Failed(Local("APPROVAL_DENIED"));
  }

  lemma {:induction false} AsciiLength(s: string)
    requires forall i :: 0 <= i < |s| ==> s[i] < '\U{0080}'
    ensures ByteLen(s) == |s|
  {
    if s != [] {
      AsciiLength(s[1..]);
    }
  }

  // ---- Which grants the second send carries ----

  /** The retry keeps the grants of the first send, in order, and adds no id twice. */
  lemma {:induction false} RetryKeepsGrants(env: Env, caps: seq<Capability>, trace: seq<Exchange>, ids: seq<string>)
    requires Gather(env, Retrying, caps, trace, ids).ids.Done?
    ensures var r := Gather(env, Retrying, caps, trace, ids).ids.value;
            ids <= r && |r| <= |ids| + |caps| && (NoDup(ids) ==> NoDup(r))
    decreases |caps|
  {
    if caps != [] {
      var x := GrantExchange(env, trace);
      RetryKeepsGrants(env, caps[1..], trace + [x], Push(Retrying, ids, Granted(env, x).value));
    }
  }
}
