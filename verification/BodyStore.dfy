/** Body files on disk: writers fill a temp file and rename it over the final
    name, readers open one inode, clears remove names and directories, processes
    crash. Each step below is one file-system call or one atomic update. */
module BodyStore {
  import opened Common
  import opened BodyNames

  type Bytes = seq<bv8>

  /** One `write_body` call. */
  datatype Job = Job(session: string, kind: string, data: Bytes)

  datatype Name = Name(dir: string, file: File)

  datatype Inode = Inode(bytes: Bytes, job: Job)

  datatype Phase =
    | MakingDir
    | Naming
    | Creating(sequence: nat)
    | Filling(sequence: nat, node: nat, done: nat)
    | Renaming(sequence: nat, node: nat)
    | Discarding(sequence: nat, vanished: bool)
    | Done
    | Failed(vanished: bool)

  /** `removals` counts the removals that hit the session directory since the call began. */
  datatype Writer = Writer(pid: nat, job: Job, attempt: nat, phase: Phase, removals: nat)

  datatype ReadPhase =
    | Opening(size: nat)
    | Reading(size: nat, node: nat, got: Bytes)

  /** One `read_body_range` call after its metadata check. */
  datatype Reader = Reader(session: string, kind: string, offset: nat, max: nat, phase: ReadPhase)

  datatype Store = Store(
    dirs: set<string>, names: map<Name, nat>, nodes: seq<Inode>, counters: map<nat, nat>,
    writers: map<nat, Writer>, readers: map<nat, Reader>, published: set<nat>, begun: set<Job>)

  datatype Step =
    | StartProcess(pid: nat)
    | Crash(pid: nat)
    | Begin(w: nat, pid: nat, job: Job)
    | MakeDir(w: nat)
    | TakeSequence(w: nat)
    | CreateTemp(w: nat)
    | WriteSome(w: nat, count: nat)
    | Close(w: nat)
    | RenameTemp(w: nat)
    | IoError(w: nat)
    | RemoveTemp(w: nat, removed: bool)
    | RemoveDir(session: string)
    | Unlink(name: Name)
    | RemoveEmptyDir(session: string)
    | StatBody(r: nat, session: string, kind: string, offset: nat, max: nat)
    | OpenBody(r: nat)
    | ReadSome(r: nat, count: nat)
    | CloseReader(r: nat)

  function FinalOf(job: Job): Name {
    Name(job.session, Final(job.kind))
  }

  function TempOf(w: Writer, sequence: nat): Name {
    Name(w.job.session, Temp(w.job.kind, w.pid, sequence))
  }

  function SequenceOf(p: Phase): Option<nat> {
    match p
    case Creating(s) => Some(s)
    case Filling(s, _, _) => Some(s)
    case Renaming(s, _) => Some(s)
    case Discarding(s, _) => Some(s)
    case _ => None
  }

  function NodeOf(p: Phase): Option<nat> {
    match p
    case Filling(_, n, _) => Some(n)
    case Renaming(_, n) => Some(n)
    case _ => None
  }

  predicate InFlight(p: Phase) {
    !p.Done? && !p.Failed?
  }

  // ---- The steps ----

  predicate Enabled(s: Store, step: Step) {
    match step
    case StartProcess(pid) => pid !in s.counters
    case Crash(pid) => pid in s.counters
    case Begin(w, pid, job) => w !in s.writers && pid in s.counters && SafeSegment(job.session) && SafeSegment(job.kind)
    case MakeDir(w) => w in s.writers && s.writers[w].phase.MakingDir?
    case TakeSequence(w) => w in s.writers && s.writers[w].phase.Naming? && s.writers[w].pid in s.counters
    case CreateTemp(w) => w in s.writers && s.writers[w].phase.Creating?
    case WriteSome(w, count) =>
      w in s.writers && s.writers[w].phase.Filling? && s.writers[w].phase.node < |s.nodes|
      && 0 < count && s.writers[w].phase.done + count <= |s.writers[w].job.data|
    case Close(w) => w in s.writers && s.writers[w].phase.Filling? && s.writers[w].phase.done == |s.writers[w].job.data|
    case RenameTemp(w) => w in s.writers && s.writers[w].phase.Renaming?
    case IoError(w) => w in s.writers && InFlight(s.writers[w].phase) && !s.writers[w].phase.Discarding?
    case RemoveTemp(w, _) => w in s.writers && s.writers[w].phase.Discarding?
    case RemoveDir(_) => true
    case Unlink(_) => true
    case RemoveEmptyDir(d) => forall n :: n in s.names ==> n.dir != d
    case StatBody(r, session, kind, offset, _) =>
      var n := Name(session, Final(kind));
      r !in s.readers && n in s.names && s.names[n] < |s.nodes| && offset <= |s.nodes[s.names[n]].bytes|
    case OpenBody(r) =>
      r in s.readers && s.readers[r].phase.Opening? && Name(s.readers[r].session, Final(s.readers[r].kind)) in s.names
    case ReadSome(r, count) =>
      && r in s.readers && s.readers[r].phase.Reading? && s.readers[r].phase.node < |s.nodes| && 0 < count
      && |s.readers[r].phase.got| + count <= s.readers[r].max
      && s.readers[r].offset + |s.readers[r].phase.got| + count <= |s.nodes[s.readers[r].phase.node].bytes|
    case CloseReader(r) => r in s.readers
  }

  function Move(s: Store, w: nat, phase: Phase): Store
    requires w in s.writers
  {
    s.(writers := s.writers[w := s.writers[w].(phase := phase)])
  }

  /** Count a removal against every call that is writing into the directory. */
  function Hit(writers: map<nat, Writer>, dir: string): map<nat, Writer> {
    map w | w in writers ::
      if writers[w].job.session == dir then writers[w].(removals := writers[w].removals + 1) else writers[w]
  }

  function Apply(s: Store, step: Step): Store
    requires Enabled(s, step)
  {
    match step
    case StartProcess(pid) => s.(counters := s.counters[pid := 0])
    case Crash(pid) =>
      s.(counters := s.counters - {pid}, writers := map w | w in s.writers && s.writers[w].pid != pid :: s.writers[w])
    case Begin(w, pid, job) =>
      s.(writers := s.writers[w := Writer(pid, job, 1, MakingDir, 0)], begun := s.begun + {job})
    case MakeDir(w) => Move(s, w, Naming).(dirs := s.dirs + {s.writers[w].job.session})
    case TakeSequence(w) =>
      var pid := s.writers[w].pid;
      Move(s, w, Creating(s.counters[pid])).(counters := s.counters[pid := s.counters[pid] + 1])
    case CreateTemp(w) => ApplyCreate(s, w)
    case WriteSome(w, count) => ApplyWrite(s, w, count)
    case Close(w) => Move(s, w, Renaming(s.writers[w].phase.sequence, s.writers[w].phase.node))
    case RenameTemp(w) => ApplyRename(s, w)
    case IoError(w) =>
      var p := s.writers[w].phase;
      Move(s, w, if SequenceOf(p).Some? then Discarding(SequenceOf(p).value, false) else Failed(false))
    case RemoveTemp(w, removed) => ApplyRemoveTemp(s, w, removed)
    case RemoveDir(d) =>
      s.(dirs := s.dirs - {d}, names := map n | n in s.names && n.dir != d :: s.names[n], writers := Hit(s.writers, d))
    case Unlink(n) => s.(names := s.names - {n}, writers := Hit(s.writers, n.dir))
    case RemoveEmptyDir(d) => s.(dirs := s.dirs - {d}, writers := Hit(s.writers, d))
    case StatBody(r, session, kind, offset, max) =>
      var size := |s.nodes[s.names[Name(session, Final(kind))]].bytes|;
      s.(readers := s.readers[r := Reader(session, kind, offset, max, Opening(size))])
    case OpenBody(r) =>
      var rd := s.readers[r];
      var node := s.names[Name(rd.session, Final(rd.kind))];
      s.(readers := s.readers[r := rd.(phase := Reading(rd.phase.size, node, []))])
    case ReadSome(r, count) =>
      var rd := s.readers[r];
      var from := rd.offset + |rd.phase.got|;
      var more := s.nodes[rd.phase.node].bytes[from..from + count];
      s.(readers := s.readers[r := rd.(phase := rd.phase.(got := rd.phase.got + more))])
    case CloseReader(r) => s.(readers := s.readers - {r})
  }

  /** `File::create`: NotFound without the directory; truncates an existing file in place. */
  function ApplyCreate(s: Store, w: nat): Store
    requires w in s.writers && s.writers[w].phase.Creating?
  {
    var wr := s.writers[w];
    var sequence := wr.phase.sequence;
    var n := TempOf(wr, sequence);
    if wr.job.session !in s.dirs then Move(s, w, Discarding(sequence, true))
    else if n in s.names && s.names[n] < |s.nodes| then
      Move(s, w, Filling(sequence, s.names[n], 0)).(nodes := s.nodes[s.names[n] := Inode([], wr.job)])
    else
      Move(s, w, Filling(sequence, |s.nodes|, 0)).(nodes := s.nodes + [Inode([], wr.job)],
          names := s.names[n := |s.nodes|])
  }

  function ApplyWrite(s: Store, w: nat, count: nat): Store
    requires Enabled(s, WriteSome(w, count))
  {
    var p, data := s.writers[w].phase, s.writers[w].job.data;
    var node := s.nodes[p.node];
    Move(s, w, p.(done := p.done + count))
      .(nodes := s.nodes[p.node := node.(bytes := node.bytes + data[p.done..p.done + count])])
  }

  /** `rename`: NotFound when the temp name is gone; otherwise one atomic replacement. */
  function ApplyRename(s: Store, w: nat): Store
    requires w in s.writers && s.writers[w].phase.Renaming?
  {
    var wr := s.writers[w];
    var n := TempOf(wr, wr.phase.sequence);
    if n !in s.names then Move(s, w, Discarding(wr.phase.sequence, true))
    else
      Move(s, w, Done).(names := (s.names - {n})[FinalOf(wr.job) := s.names[n]],
          published := s.published + {s.names[n]})
  }

  /** Clean up after an error (the removal itself may fail), then retry once if the
      error was NotFound. */
  function ApplyRemoveTemp(s: Store, w: nat, removed: bool): Store
    requires w in s.writers && s.writers[w].phase.Discarding?
  {
    var wr := s.writers[w];
    var n := TempOf(wr, wr.phase.sequence);
    var s1 := if removed then s.(names := s.names - {n}) else s;
    if wr.phase.vanished && wr.attempt == 1 then
      s1.(writers := s.writers[w := wr.(attempt := 2, phase := MakingDir)])
    else Move(s1, w, Failed(wr.phase.vanished))
  }

  // ---- What every step keeps ----

  ghost predicate NamesOk(s: Store) {
    && (forall n :: n in s.names ==> s.names[n] < |s.nodes|)
    && (forall n, m :: n in s.names && m in s.names && n != m ==> s.names[n] != s.names[m])
  }

  /** A writer's open file holds what it has written so far and is reachable only
      under the writer's own temp name. */
  ghost predicate OwnsNode(s: Store, wr: Writer) {
    NodeOf(wr.phase).Some? ==>
      var node, temp := NodeOf(wr.phase).value, TempOf(wr, wr.phase.sequence);
      && node < |s.nodes| && node !in s.published
      && s.nodes[node].job == wr.job
      && (wr.phase.Filling? ==> wr.phase.done <= |wr.job.data| && s.nodes[node].bytes == wr.job.data[..wr.phase.done])
      && (wr.phase.Renaming? ==> s.nodes[node].bytes == wr.job.data)
      && (forall n :: n in s.names && s.names[n] == node ==> n == temp)
      && (temp in s.names ==> s.names[temp] == node)
  }

  ghost predicate WriterOk(s: Store, wr: Writer) {
    && wr.job in s.begun
    && wr.pid in s.counters
    && (SequenceOf(wr.phase).Some? ==> SequenceOf(wr.phase).value < s.counters[wr.pid])
    && OwnsNode(s, wr)
  }

  ghost predicate Apart(a: Writer, b: Writer) {
    && (a.pid == b.pid && SequenceOf(a.phase).Some? ==> SequenceOf(a.phase) != SequenceOf(b.phase))
    && (NodeOf(a.phase).Some? ==> NodeOf(a.phase) != NodeOf(b.phase))
  }

  ghost predicate WritersOk(s: Store) {
    && (forall w :: w in s.writers ==> WriterOk(s, s.writers[w]))
    && (forall w, v :: w in s.writers && v in s.writers && w != v ==> Apart(s.writers[w], s.writers[v]))
  }

  /** A published file is complete, and stays reachable only under its final name. */
  ghost predicate PublishedOk(s: Store) {
    && (forall i :: i in s.published
         ==> i < |s.nodes| && s.nodes[i].bytes == s.nodes[i].job.data && s.nodes[i].job in s.begun)
    && (forall n :: n in s.names && s.names[n] in s.published
         ==> s.names[n] < |s.nodes| && n == FinalOf(s.nodes[s.names[n]].job))
    && (forall n :: n in s.names && n.file.Final? ==> s.names[n] in s.published)
  }

  ghost predicate ReaderOk(s: Store, r: Reader) {
    r.offset <= r.phase.size && (r.phase.Reading? ==> ReadsVersion(s, r))
  }

  /** The open file is one complete version, and what was read so far is a range of it. */
  ghost predicate ReadsVersion(s: Store, r: Reader)
    requires r.phase.Reading?
  {
    && r.phase.node in s.published && r.phase.node < |s.nodes| && |r.phase.got| <= r.max
    && var job := s.nodes[r.phase.node].job;
    && job.session == r.session && job.kind == r.kind
    && (r.phase.got != [] ==>
          r.offset + |r.phase.got| <= |job.data| && r.phase.got == job.data[r.offset..r.offset + |r.phase.got|])
  }

  ghost predicate ReadersOk(s: Store) {
    forall r :: r in s.readers ==> ReaderOk(s, s.readers[r])
  }

  /** A vanished directory or temp file accounts for one removal per attempt. */
  ghost predicate RetryOk(s: Store, wr: Writer) {
    && 1 <= wr.attempt <= 2 && wr.removals >= wr.attempt - 1
    && (wr.phase.Failed? && wr.phase.vanished ==> wr.removals >= 2)
    && (wr.phase.Discarding? && wr.phase.vanished ==> wr.removals >= wr.attempt)
    && ((wr.phase.Naming? || wr.phase.Creating?) && wr.job.session !in s.dirs ==> wr.removals >= wr.attempt)
    && (NodeOf(wr.phase).Some? && TempOf(wr, wr.phase.sequence) !in s.names ==> wr.removals >= wr.attempt)
  }

  ghost predicate RetriesOk(s: Store) {
    forall w :: w in s.writers ==> RetryOk(s, s.writers[w])
  }

  ghost predicate Inv(s: Store) {
    NamesOk(s) && WritersOk(s) && PublishedOk(s) && ReadersOk(s) && RetriesOk(s)
  }

  // ---- Preservation ----

  /** Two live writers never have the same temp name. */
  lemma TempsApart(s: Store, w: nat, v: nat)
    requires WritersOk(s) && w in s.writers && v in s.writers && w != v
    requires SequenceOf(s.writers[w].phase).Some? && SequenceOf(s.writers[v].phase).Some?
    ensures TempOf(s.writers[w], SequenceOf(s.writers[w].phase).value)
            != TempOf(s.writers[v], SequenceOf(s.writers[v].phase).value)
  {
    assert Apart(s.writers[w], s.writers[v]);
  }

  /** Files and readers as before. */
  ghost predicate SameFiles(s: Store, s': Store) {
    s'.names == s.names && s'.nodes == s.nodes && s'.published == s.published && s'.begun >= s.begun
        && s'.readers == s.readers
  }

  lemma FilesKept(s: Store, s': Store)
    requires Inv(s) && SameFiles(s, s')
    ensures NamesOk(s') && PublishedOk(s') && ReadersOk(s')
  {
    forall r | r in s'.readers
      ensures ReaderOk(s', s'.readers[r])
    {
      assert ReaderOk(s, s.readers[r]);
    }
  }

  /** A writer whose phase did not change, under unchanged files. */
  lemma WriterKept(s: Store, s': Store, wr: Writer)
    requires SameFiles(s, s') && WriterOk(s, wr)
    requires wr.pid in s'.counters && s'.counters[wr.pid] >= s.counters[wr.pid]
    ensures WriterOk(s', wr)
  {
  }

  lemma StartStep(s: Store, pid: nat)
    requires Inv(s) && Enabled(s, StartProcess(pid))
    ensures Inv(Apply(s, StartProcess(pid)))
  {
    var s' := Apply(s, StartProcess(pid));
    FilesKept(s, s');
    forall w | w in s'.writers
      ensures WriterOk(s', s'.writers[w]) && RetryOk(s', s'.writers[w])
    {
      WriterKept(s, s', s.writers[w]);
      assert RetryOk(s, s.writers[w]);
    }
  }

  lemma CrashStep(s: Store, pid: nat)
    requires Inv(s) && Enabled(s, Crash(pid))
    ensures Inv(Apply(s, Crash(pid)))
  {
    var s' := Apply(s, Crash(pid));
    FilesKept(s, s');
    forall w | w in s'.writers
      ensures WriterOk(s', s'.writers[w]) && RetryOk(s', s'.writers[w])
    {
      WriterKept(s, s', s.writers[w]);
      assert RetryOk(s, s.writers[w]);
    }
    forall w, v | w in s'.writers && v in s'.writers && w != v
      ensures Apart(s'.writers[w], s'.writers[v])
    {
      assert Apart(s.writers[w], s.writers[v]);
    }
  }

  /** One writer moves on while files, counters and the others stay or grow. */
  lemma OneWriterMoves(s: Store, s': Store, w: nat)
    requires Inv(s) && SameFiles(s, s') && w in s'.writers
    requires s'.writers.Keys == s.writers.Keys + {w} && s'.dirs >= s.dirs
    requires forall v :: v in s.writers && v != w ==> s'.writers[v] == s.writers[v]
    requires forall p :: p in s.counters ==> p in s'.counters && s'.counters[p] >= s.counters[p]
    requires WriterOk(s', s'.writers[w]) && RetryOk(s', s'.writers[w])
    requires forall v :: v in s.writers && v != w
               ==> Apart(s'.writers[w], s.writers[v]) && Apart(s.writers[v], s'.writers[w])
    ensures Inv(s')
  {
    FilesKept(s, s');
    forall v | v in s'.writers
      ensures WriterOk(s', s'.writers[v]) && RetryOk(s', s'.writers[v])
    {
      if v != w {
        WriterKept(s, s', s.writers[v]);
        assert RetryOk(s, s.writers[v]);
      }
    }
    forall u, v | u in s'.writers && v in s'.writers && u != v
      ensures Apart(s'.writers[u], s'.writers[v])
    {
      if u != w && v != w {
        assert Apart(s.writers[u], s.writers[v]);
      }
    }
  }

  lemma BeginStep(s: Store, w: nat, pid: nat, job: Job)
    requires Inv(s) && Enabled(s, Begin(w, pid, job))
    ensures Inv(Apply(s, Begin(w, pid, job)))
  {
    OneWriterMoves(s, Apply(s, Begin(w, pid, job)), w);
  }

  lemma MakeDirStep(s: Store, w: nat)
    requires Inv(s) && Enabled(s, MakeDir(w))
    ensures Inv(Apply(s, MakeDir(w)))
  {
    assert WriterOk(s, s.writers[w]) && RetryOk(s, s.writers[w]);
    OneWriterMoves(s, Apply(s, MakeDir(w)), w);
  }

  lemma TakeSequenceStep(s: Store, w: nat)
    requires Inv(s) && Enabled(s, TakeSequence(w))
    ensures Inv(Apply(s, TakeSequence(w)))
  {
    var s' := Apply(s, TakeSequence(w));
    assert WriterOk(s, s.writers[w]) && RetryOk(s, s.writers[w]);
    forall v | v in s.writers && v != w
      ensures Apart(s'.writers[w], s.writers[v]) && Apart(s.writers[v], s'.writers[w])
    {
      assert WriterOk(s, s.writers[v]);
    }
    OneWriterMoves(s, s', w);
  }

  /** The new phase keeps or drops the writer's sequence number and inode. */
  lemma StillApart(s: Store, w: nat, wr': Writer)
    requires WritersOk(s) && w in s.writers && wr'.pid == s.writers[w].pid
    requires SequenceOf(wr'.phase).None? || SequenceOf(wr'.phase) == SequenceOf(s.writers[w].phase)
    requires NodeOf(wr'.phase).None? || NodeOf(wr'.phase) == NodeOf(s.writers[w].phase)
    ensures forall v :: v in s.writers && v != w ==> Apart(wr', s.writers[v]) && Apart(s.writers[v], wr')
  {
    forall v | v in s.writers && v != w
      ensures Apart(wr', s.writers[v]) && Apart(s.writers[v], wr')
    {
      assert Apart(s.writers[w], s.writers[v]) && Apart(s.writers[v], s.writers[w]);
    }
  }

  lemma Assemble(s: Store, s': Store, w: nat)
    requires WritersOk(s) && w in s.writers && w in s'.writers && s'.writers == s.writers[w := s'.writers[w]]
    requires forall v :: v in s'.writers ==> WriterOk(s', s'.writers[v]) && RetryOk(s', s'.writers[v])
    requires forall v :: v in s.writers && v != w
               ==> Apart(s'.writers[w], s.writers[v]) && Apart(s.writers[v], s'.writers[w])
    ensures WritersOk(s') && RetriesOk(s')
  {
    forall u, v | u in s'.writers && v in s'.writers && u != v
      ensures Apart(s'.writers[u], s'.writers[v])
    {
      if u != w && v != w {
        assert Apart(s.writers[u], s.writers[v]);
      }
    }
  }

  lemma CloseStep(s: Store, w: nat)
    requires Inv(s) && Enabled(s, Close(w))
    ensures Inv(Apply(s, Close(w)))
  {
    var s' := Apply(s, Close(w));
    assert WriterOk(s, s.writers[w]) && RetryOk(s, s.writers[w]);
    StillApart(s, w, s'.writers[w]);
    OneWriterMoves(s, s', w);
  }

  lemma IoErrorStep(s: Store, w: nat)
    requires Inv(s) && Enabled(s, IoError(w))
    ensures Inv(Apply(s, IoError(w)))
  {
    var s' := Apply(s, IoError(w));
    assert WriterOk(s, s.writers[w]) && RetryOk(s, s.writers[w]);
    StillApart(s, w, s'.writers[w]);
    OneWriterMoves(s, s', w);
  }

  // ---- Names going away ----

  ghost predicate FewerNames(s: Store, s': Store) {
    && (forall n :: n in s'.names ==> n in s.names && s'.names[n] == s.names[n])
    && s'.nodes == s.nodes && s'.published == s.published && s'.begun == s.begun
    && s'.readers == s.readers && s'.counters == s.counters
  }

  lemma FilesShrink(s: Store, s': Store)
    requires Inv(s) && FewerNames(s, s')
    ensures NamesOk(s') && PublishedOk(s') && ReadersOk(s')
  {
    forall r | r in s'.readers
      ensures ReaderOk(s', s'.readers[r])
    {
      assert ReaderOk(s, s.readers[r]);
    }
  }

  lemma WriterShrinks(s: Store, s': Store, wr: Writer, removals: nat)
    requires FewerNames(s, s') && WriterOk(s, wr)
    ensures WriterOk(s', wr.(removals := removals))
  {
  }

  /** A removal in `dir` is counted against every writer whose files it can touch. */
  lemma RemovalKeeps(s: Store, s': Store, dir: string)
    requires Inv(s) && FewerNames(s, s') && s'.writers == Hit(s.writers, dir)
    requires forall n :: n in s.names && n.dir != dir ==> n in s'.names
    requires forall d :: d in s.dirs && d != dir ==> d in s'.dirs
    ensures Inv(s')
  {
    FilesShrink(s, s');
    forall w | w in s'.writers
      ensures WriterOk(s', s'.writers[w]) && RetryOk(s', s'.writers[w])
    {
      WriterShrinks(s, s', s.writers[w], s'.writers[w].removals);
      assert RetryOk(s, s.writers[w]);
    }
    forall w, v | w in s'.writers && v in s'.writers && w != v
      ensures Apart(s'.writers[w], s'.writers[v])
    {
      assert Apart(s.writers[w], s.writers[v]);
    }
  }

  lemma RemoveTempStep(s: Store, w: nat, removed: bool)
    requires Inv(s) && Enabled(s, RemoveTemp(w, removed))
    ensures Inv(ApplyRemoveTemp(s, w, removed))
  {
    var s' := ApplyRemoveTemp(s, w, removed);
    RemoveTempFiles(s, w, removed);
    FilesShrink(s, s');
    RemoveTempWriters(s, s', w, removed);
    StillApart(s, w, s'.writers[w]);
    Assemble(s, s', w);
  }

  lemma RemoveTempFiles(s: Store, w: nat, removed: bool)
    requires w in s.writers && s.writers[w].phase.Discarding?
    ensures var s' := ApplyRemoveTemp(s, w, removed);
            && FewerNames(s, s') && s'.dirs == s.dirs
            && (forall n :: n in s.names && n != TempOf(s.writers[w], s.writers[w].phase.sequence) ==> n in s'.names)
  {
  }

  lemma RemoveTempWriters(s: Store, s': Store, w: nat, removed: bool)
    requires WritersOk(s) && RetriesOk(s) && w in s.writers && s.writers[w].phase.Discarding?
    requires s' == ApplyRemoveTemp(s, w, removed)
    ensures forall v :: v in s'.writers ==> WriterOk(s', s'.writers[v]) && RetryOk(s', s'.writers[v])
  {
    RemoveTempFiles(s, w, removed);
    forall v | v in s'.writers
      ensures WriterOk(s', s'.writers[v]) && RetryOk(s', s'.writers[v])
    {
      if v != w {
        OtherTempKept(s, s', w, v);
      } else {
        assert WriterOk(s, s.writers[w]) && RetryOk(s, s.writers[w]);
      }
    }
  }

  lemma OtherTempKept(s: Store, s': Store, w: nat, v: nat)
    requires WritersOk(s) && RetriesOk(s) && w in s.writers && v in s.writers && v != w
               && s.writers[w].phase.Discarding?
    requires s'.dirs == s.dirs && FewerNames(s, s')
    requires forall n :: n in s.names && n != TempOf(s.writers[w], s.writers[w].phase.sequence) ==> n in s'.names
    ensures WriterOk(s', s.writers[v]) && RetryOk(s', s.writers[v])
  {
    assert RetryOk(s, s.writers[v]);
    WriterShrinks(s, s', s.writers[v], s.writers[v].removals);
    if NodeOf(s.writers[v].phase).Some? {
      TempsApart(s, w, v);
    }
  }

  // ---- Filling and publishing ----

  /** A change that leaves one writer's open file alone. */
  ghost predicate NodeUntouched(s: Store, s': Store, node: nat) {
    && node < |s.nodes| <= |s'.nodes|
    && s'.nodes[node] == s.nodes[node]
    && (node in s'.published ==> node in s.published)
    && (forall n :: n in s'.names && s'.names[n] == node ==> n in s.names && s.names[n] == node)
  }

  lemma OwnerKept(s: Store, s': Store, wr: Writer)
    requires WriterOk(s, wr) && s'.begun == s.begun && s'.counters == s.counters
    requires NodeOf(wr.phase).Some? ==>
               var temp := TempOf(wr, wr.phase.sequence);
               && NodeUntouched(s, s', NodeOf(wr.phase).value)
               && (temp in s'.names ==> temp in s.names && s'.names[temp] == s.names[temp])
    ensures WriterOk(s', wr)
  {
  }

  lemma OwnWrite(s: Store, w: nat, count: nat)
    requires WritersOk(s) && RetriesOk(s) && Enabled(s, WriteSome(w, count))
    ensures var s' := ApplyWrite(s, w, count);
            WriterOk(s', s'.writers[w]) && RetryOk(s', s'.writers[w])
  {
    var wr := s.writers[w];
    var p := wr.phase;
    assert WriterOk(s, wr) && RetryOk(s, wr);
    assert wr.job.data[..p.done] + wr.job.data[p.done..p.done + count] == wr.job.data[..p.done + count];
  }

  lemma WriteSomeStep(s: Store, w: nat, count: nat)
    requires Inv(s) && Enabled(s, WriteSome(w, count))
    ensures Inv(ApplyWrite(s, w, count))
  {
    var s' := ApplyWrite(s, w, count);
    assert WriterOk(s, s.writers[w]);
    forall v | v in s'.writers
      ensures WriterOk(s', s'.writers[v]) && RetryOk(s', s'.writers[v])
    {
      if v == w {
        OwnWrite(s, w, count);
      } else {
        assert WriterOk(s, s.writers[v]) && RetryOk(s, s.writers[v]) && Apart(s.writers[v], s.writers[w]);
        OwnerKept(s, s', s.writers[v]);
      }
    }
    StillApart(s, w, s'.writers[w]);
    Assemble(s, s', w);
    ReadersKept(s, s');
  }

  /** Published files did not change, so no reader sees a difference. */
  lemma ReadersKept(s: Store, s': Store)
    requires ReadersOk(s) && s'.readers == s.readers && s'.published >= s.published && |s'.nodes| >= |s.nodes|
    requires forall i :: i in s.published && i < |s.nodes| ==> s'.nodes[i] == s.nodes[i]
    ensures ReadersOk(s')
  {
    forall r | r in s'.readers
      ensures ReaderOk(s', s'.readers[r])
    {
      assert ReaderOk(s, s.readers[r]);
    }
  }

  lemma CreateNotFound(s: Store, w: nat)
    requires Inv(s) && Enabled(s, CreateTemp(w)) && s.writers[w].job.session !in s.dirs
    ensures Inv(ApplyCreate(s, w))
  {
    var s' := ApplyCreate(s, w);
    assert WriterOk(s, s.writers[w]) && RetryOk(s, s.writers[w]);
    StillApart(s, w, s'.writers[w]);
    OneWriterMoves(s, s', w);
  }

  /** A file that a crashed process left under the temp name is nobody else's. */
  lemma StaleTemp(s: Store, w: nat)
    requires Inv(s) && w in s.writers && s.writers[w].phase.Creating?
    requires TempOf(s.writers[w], s.writers[w].phase.sequence) in s.names
    ensures var node := s.names[TempOf(s.writers[w], s.writers[w].phase.sequence)];
            node !in s.published && forall v :: v in s.writers ==> NodeOf(s.writers[v].phase) != Some(node)
  {
    var wr := s.writers[w];
    var temp := TempOf(wr, wr.phase.sequence);
    forall v | v in s.writers
      ensures NodeOf(s.writers[v].phase) != Some(s.names[temp])
    {
      if v != w {
        StaleNotOwned(s, w, v);
      }
    }
  }

  lemma StaleNotOwned(s: Store, w: nat, v: nat)
    requires WritersOk(s) && w in s.writers && v in s.writers && v != w && s.writers[w].phase.Creating?
    requires TempOf(s.writers[w], s.writers[w].phase.sequence) in s.names
    ensures NodeOf(s.writers[v].phase) != Some(s.names[TempOf(s.writers[w], s.writers[w].phase.sequence)])
  {
    assert WriterOk(s, s.writers[v]);
    if NodeOf(s.writers[v].phase).Some? {
      TempsApart(s, w, v);
    }
  }

  /** The writer opens a file that no other writer, name or reader depends on. */
  lemma OpenFile(s: Store, s': Store, w: nat, node: nat)
    requires Inv(s) && w in s.writers && s.writers[w].phase.Creating? && s.writers[w].job.session in s.dirs
    requires |s.nodes| <= |s'.nodes| && node < |s'.nodes|
    requires s' == Move(s, w, Filling(s.writers[w].phase.sequence, node, 0))
                   .(nodes := s'.nodes, names := s.names[TempOf(s.writers[w], s.writers[w].phase.sequence) := node])
    requires s'.nodes[node] == Inode([], s.writers[w].job)
    requires forall i :: 0 <= i < |s.nodes| && i != node ==> s'.nodes[i] == s.nodes[i]
    requires node !in s.published
    requires forall v :: v in s.writers ==> NodeOf(s.writers[v].phase) != Some(node)
    requires forall n :: n in s.names && s.names[n] == node ==> n == TempOf(s.writers[w], s.writers[w].phase.sequence)
    ensures WritersOk(s') && RetriesOk(s')
  {
    var wr := s.writers[w];
    var temp := TempOf(wr, wr.phase.sequence);
    assert WriterOk(s, wr) && RetryOk(s, wr);
    assert WriterOk(s', s'.writers[w]) && RetryOk(s', s'.writers[w]);
    forall v | v in s'.writers && v != w
      ensures WriterOk(s', s'.writers[v]) && RetryOk(s', s'.writers[v])
      ensures Apart(s'.writers[w], s'.writers[v]) && Apart(s'.writers[v], s'.writers[w])
    {
      assert WriterOk(s, s.writers[v]) && RetryOk(s, s.writers[v]);
      assert Apart(s.writers[v], wr) && Apart(wr, s.writers[v]);
      if NodeOf(s.writers[v].phase).Some? {
        TempsApart(s, w, v);
      }
      OwnerKept(s, s', s.writers[v]);
    }
    forall u, v | u in s'.writers && v in s'.writers && u != v
      ensures Apart(s'.writers[u], s'.writers[v])
    {
      if u != w && v != w {
        assert Apart(s.writers[u], s.writers[v]);
      }
    }
  }

  lemma CreateTempStep(s: Store, w: nat)
    requires Inv(s) && Enabled(s, CreateTemp(w))
    ensures Inv(ApplyCreate(s, w))
  {
    if s.writers[w].job.session !in s.dirs {
      CreateNotFound(s, w);
    } else if TempOf(s.writers[w], s.writers[w].phase.sequence) in s.names {
      CreateOverStale(s, w);
    } else {
      CreateFresh(s, w);
    }
  }

  /** A temp name left by an earlier process is truncated in place. */
  lemma CreateOverStale(s: Store, w: nat)
    requires Inv(s) && Enabled(s, CreateTemp(w)) && s.writers[w].job.session in s.dirs
    requires TempOf(s.writers[w], s.writers[w].phase.sequence) in s.names
    ensures Inv(ApplyCreate(s, w))
  {
    var s' := ApplyCreate(s, w);
    var temp := TempOf(s.writers[w], s.writers[w].phase.sequence);
    StaleTemp(s, w);
    assert s.names[temp := s.names[temp]] == s.names;
    OpenFile(s, s', w, s.names[temp]);
    ReadersKept(s, s');
  }

  lemma CreateFresh(s: Store, w: nat)
    requires Inv(s) && Enabled(s, CreateTemp(w)) && s.writers[w].job.session in s.dirs
    requires TempOf(s.writers[w], s.writers[w].phase.sequence) !in s.names
    ensures Inv(ApplyCreate(s, w))
  {
    var s' := ApplyCreate(s, w);
    NoneAtEnd(s);
    OpenFile(s, s', w, |s.nodes|);
    ReadersKept(s, s');
  }

  lemma NoneAtEnd(s: Store)
    requires Inv(s)
    ensures |s.nodes| !in s.published
    ensures forall v :: v in s.writers ==> NodeOf(s.writers[v].phase) != Some(|s.nodes|)
  {
    forall v | v in s.writers
      ensures NodeOf(s.writers[v].phase) != Some(|s.nodes|)
    {
      assert WriterOk(s, s.writers[v]);
    }
  }

  lemma RenameNotFound(s: Store, w: nat)
    requires Inv(s) && Enabled(s, RenameTemp(w)) && TempOf(s.writers[w], s.writers[w].phase.sequence) !in s.names
    ensures Inv(ApplyRename(s, w))
  {
    var s' := ApplyRename(s, w);
    assert WriterOk(s, s.writers[w]) && RetryOk(s, s.writers[w]);
    StillApart(s, w, s'.writers[w]);
    OneWriterMoves(s, s', w);
  }

  lemma OtherAfterRename(s: Store, w: nat, v: nat)
    requires Inv(s) && Enabled(s, RenameTemp(w)) && TempOf(s.writers[w], s.writers[w].phase.sequence) in s.names
    requires v in s.writers && v != w
    ensures WriterOk(ApplyRename(s, w), s.writers[v]) && RetryOk(ApplyRename(s, w), s.writers[v])
  {
    var s' := ApplyRename(s, w);
    var wr, other := s.writers[w], s.writers[v];
    assert WriterOk(s, wr) && WriterOk(s, other) && RetryOk(s, other) && Apart(other, wr);
    if NodeOf(other.phase).Some? {
      TempsApart(s, w, v);
    }
    OwnerKept(s, s', other);
  }

  lemma RenameWriters(s: Store, w: nat)
    requires Inv(s) && Enabled(s, RenameTemp(w)) && TempOf(s.writers[w], s.writers[w].phase.sequence) in s.names
    ensures WritersOk(ApplyRename(s, w)) && RetriesOk(ApplyRename(s, w))
  {
    var s' := ApplyRename(s, w);
    assert WriterOk(s, s.writers[w]) && RetryOk(s, s.writers[w]);
    forall v | v in s'.writers
      ensures WriterOk(s', s'.writers[v]) && RetryOk(s', s'.writers[v])
    {
      if v != w {
        OtherAfterRename(s, w, v);
      }
    }
    StillApart(s, w, s'.writers[w]);
    Assemble(s, s', w);
  }

  lemma RenameTempStep(s: Store, w: nat)
    requires Inv(s) && Enabled(s, RenameTemp(w))
    ensures Inv(ApplyRename(s, w))
  {
    var s' := ApplyRename(s, w);
    var wr := s.writers[w];
    assert WriterOk(s, wr);
    if TempOf(wr, wr.phase.sequence) !in s.names {
      RenameNotFound(s, w);
    } else {
      RenameWriters(s, w);
      RenameFiles(s, w);
      ReadersKept(s, s');
    }
  }

  lemma RenameFiles(s: Store, w: nat)
    requires NamesOk(s) && PublishedOk(s) && w in s.writers && s.writers[w].phase.Renaming? && WriterOk(s, s.writers[w])
    requires TempOf(s.writers[w], s.writers[w].phase.sequence) in s.names
    ensures NamesOk(ApplyRename(s, w)) && PublishedOk(ApplyRename(s, w))
  {
  }

  lemma OnlyReaders(s: Store, s': Store)
    requires Inv(s) && s' == s.(readers := s'.readers) && ReadersOk(s')
    ensures Inv(s')
  {
    FilesKeptWriters(s, s');
  }

  lemma FilesKeptWriters(s: Store, s': Store)
    requires WritersOk(s) && RetriesOk(s) && s' == s.(readers := s'.readers)
    ensures WritersOk(s') && RetriesOk(s')
  {
    forall w | w in s'.writers
      ensures WriterOk(s', s'.writers[w]) && RetryOk(s', s'.writers[w])
    {
      assert WriterOk(s, s.writers[w]) && RetryOk(s, s.writers[w]);
    }
  }

  lemma ReaderKept(s: Store, s': Store, r: Reader)
    requires ReaderOk(s, r) && s'.nodes == s.nodes && s'.published == s.published
    ensures ReaderOk(s', r)
  {
  }

  lemma OpenBodyStep(s: Store, r: nat)
    requires Inv(s) && Enabled(s, OpenBody(r))
    ensures Inv(Apply(s, OpenBody(r)))
  {
    var s' := Apply(s, OpenBody(r));
    var rd := s.readers[r];
    forall i | i in s'.readers
      ensures ReaderOk(s', s'.readers[i])
    {
      if i != r {
        ReaderKept(s, s', s.readers[i]);
      }
    }
    OnlyReaders(s, s');
  }

  lemma ReadSomeStep(s: Store, r: nat, count: nat)
    requires Inv(s) && Enabled(s, ReadSome(r, count))
    ensures Inv(Apply(s, ReadSome(r, count)))
  {
    var s' := Apply(s, ReadSome(r, count));
    forall i | i in s'.readers
      ensures ReaderOk(s', s'.readers[i])
    {
      if i != r {
        ReaderKept(s, s', s.readers[i]);
      } else {
        ReadMore(s, s', r, count);
      }
    }
    OnlyReaders(s, s');
  }

  /** What was read so far and the next bytes are one longer range of the same body. */
  lemma ReadMore(s: Store, s': Store, r: nat, count: nat)
    requires Inv(s) && Enabled(s, ReadSome(r, count)) && s' == Apply(s, ReadSome(r, count))
    ensures ReaderOk(s', s'.readers[r])
  {
    var rd := s.readers[r];
    assert ReaderOk(s, rd);
    var data, from := s.nodes[rd.phase.node].job.data, rd.offset + |rd.phase.got|;
    assert s.nodes[rd.phase.node].bytes == data;
    assert rd.phase.got == [] || rd.phase.got == data[rd.offset..from];
    assert data[rd.offset..from] + data[from..from + count] == data[rd.offset..from + count];
    assert s'.readers[r].phase.got == data[rd.offset..from + count];
  }

  lemma StatOrCloseStep(s: Store, step: Step)
    requires Inv(s) && Enabled(s, step) && (step.StatBody? || step.CloseReader?)
    ensures Inv(Apply(s, step))
  {
    var s' := Apply(s, step);
    forall i | i in s'.readers
      ensures ReaderOk(s', s'.readers[i])
    {
      if i in s.readers {
        ReaderKept(s, s', s.readers[i]);
      }
    }
    OnlyReaders(s, s');
  }

  // ---- Every run ----

  lemma WriterStepKeepsInv(s: Store, step: Step)
    requires Inv(s) && Enabled(s, step)
    requires step.CreateTemp? || step.WriteSome? || step.Close? || step.RenameTemp? || step.IoError? || step.RemoveTemp?
    ensures Inv(Apply(s, step))
  {
    match step
    case CreateTemp(w) => CreateTempStep(s, w);
    case WriteSome(w, count) => WriteSomeStep(s, w, count);
    case Close(w) => CloseStep(s, w);
    case RenameTemp(w) => RenameTempStep(s, w);
    case IoError(w) => IoErrorStep(s, w);
    case RemoveTemp(w, removed) => RemoveTempStep(s, w, removed);
  }

  lemma RemovalStepKeepsInv(s: Store, step: Step)
    requires Inv(s) && Enabled(s, step) && (step.RemoveDir? || step.Unlink? || step.RemoveEmptyDir?)
    ensures Inv(Apply(s, step))
  {
    RemovalKeeps(s, Apply(s, step), if step.Unlink? then step.name.dir else step.session);
  }

  /** Every file-system step, in any interleaving, keeps the invariant. */
  lemma StepKeepsInv(s: Store, step: Step)
    requires Inv(s) && Enabled(s, step)
    ensures Inv(Apply(s, step))
  {
    match step
    case StartProcess(pid) => StartStep(s, pid);
    case Crash(pid) => CrashStep(s, pid);
    case Begin(w, pid, job) => BeginStep(s, w, pid, job);
    case MakeDir(w) => MakeDirStep(s, w);
    case TakeSequence(w) => TakeSequenceStep(s, w);
    case RemoveDir(_) => RemovalStepKeepsInv(s, step);
    case Unlink(_) => RemovalStepKeepsInv(s, step);
    case RemoveEmptyDir(_) => RemovalStepKeepsInv(s, step);
    case StatBody(_, _, _, _, _) => StatOrCloseStep(s, step);
    case OpenBody(r) => OpenBodyStep(s, r);
    case ReadSome(r, count) => ReadSomeStep(s, r, count);
    case CloseReader(_) => StatOrCloseStep(s, step);
    case _ => WriterStepKeepsInv(s, step);
  }

  ghost predicate Empty(s: Store) {
    s.names == map[] && s.nodes == [] && s.writers == map[] && s.readers == map[] && s.published == {}
  }

  /** `s` is reached from an empty store by the steps. */
  ghost predicate Reaches(start: Store, steps: seq<Step>, s: Store)
    decreases |steps|
  {
    if steps == [] then s == start
    else Enabled(start, steps[0]) && Reaches(Apply(start, steps[0]), steps[1..], s)
  }

  lemma {:induction false} RunsKeepInv(start: Store, steps: seq<Step>, s: Store)
    requires Inv(start) && Reaches(start, steps, s)
    ensures Inv(s)
    decreases |steps|
  {
    if steps != [] {
      StepKeepsInv(start, steps[0]);
      RunsKeepInv(Apply(start, steps[0]), steps[1..], s);
    }
  }

  /** In every reachable state a final name is absent or names the complete data of
      one `write_body` call for that session and kind. */
  lemma FinalNamesAreComplete(start: Store, steps: seq<Step>, s: Store, session: string, kind: string)
    requires Empty(start) && Reaches(start, steps, s)
    requires Name(session, Final(kind)) in s.names
    ensures var node := s.names[Name(session, Final(kind))];
            node < |s.nodes| && exists job :: job in s.begun && job.session == session && job.kind == kind
                                              && s.nodes[node].bytes == job.data
  {
    RunsKeepInv(start, steps, s);
    var job := s.nodes[s.names[Name(session, Final(kind))]].job;
    assert job in s.begun;
  }

  /** Whatever a reader has got so far, across any number of partial reads and
      concurrent rewrites, is a range of one complete version. */
  lemma ReadersSeeOneVersion(start: Store, steps: seq<Step>, s: Store, r: nat)
    requires Empty(start) && Reaches(start, steps, s)
    requires r in s.readers && s.readers[r].phase.Reading? && s.readers[r].phase.got != []
    ensures var rd := s.readers[r];
            exists job :: job in s.begun && job.session == rd.session && job.kind == rd.kind
                          && rd.offset + |rd.phase.got| <= |job.data|
                          && rd.phase.got == job.data[rd.offset..rd.offset + |rd.phase.got|]
  {
    RunsKeepInv(start, steps, s);
    assert ReaderOk(s, s.readers[r]);
    var job := s.nodes[s.readers[r].phase.node].job;
    assert job in s.begun;
  }

  /** A step changes no writer's job; a new writer's names are safe segments. */
  lemma JobsFixed(s: Store, step: Step, w: nat)
    requires Enabled(s, step) && w in Apply(s, step).writers
    ensures var job := Apply(s, step).writers[w].job;
            (w in s.writers && s.writers[w].job == job) || (SafeSegment(job.session) && SafeSegment(job.kind))
  {
    if step.CreateTemp? {
      assert Apply(s, step) == ApplyCreate(s, step.w);
    } else if step.RenameTemp? {
      assert Apply(s, step) == ApplyRename(s, step.w);
    } else if step.RemoveTemp? {
      assert Apply(s, step) == ApplyRemoveTemp(s, step.w, step.removed);
    } else if step.WriteSome? {
      assert Apply(s, step) == ApplyWrite(s, step.w, step.count);
    }
  }

  ghost predicate SafeJobs(s: Store) {
    forall w :: w in s.writers ==> SafeSegment(s.writers[w].job.session) && SafeSegment(s.writers[w].job.kind)
  }

  lemma {:induction false} RunsKeepSafeJobs(start: Store, steps: seq<Step>, s: Store)
    requires SafeJobs(start) && Reaches(start, steps, s)
    ensures SafeJobs(s)
    decreases |steps|
  {
    if steps != [] {
      var next := Apply(start, steps[0]);
      forall w | w in next.writers
        ensures SafeSegment(next.writers[w].job.session) && SafeSegment(next.writers[w].job.kind)
      {
        JobsFixed(start, steps[0], w);
      }
      RunsKeepSafeJobs(next, steps[1..], s);
    }
  }

  /** The path of the temp file a call works on. */
  function TempPath(wr: Writer): string
    requires SequenceOf(wr.phase).Some?
  {
    PathOf(wr.job.session, TempOf(wr, SequenceOf(wr.phase).value).file)
  }

  /** No two live calls ever work on the same temp path, and none on a final path. */
  lemma TempNamesNeverCollide(start: Store, steps: seq<Step>, s: Store, w: nat, v: nat, session: string, kind: string)
    requires Empty(start) && Reaches(start, steps, s) && w in s.writers && SequenceOf(s.writers[w].phase).Some?
    ensures var path := TempPath(s.writers[w]);
            && (v in s.writers && w != v && SequenceOf(s.writers[v].phase).Some? ==>
                  path != TempPath(s.writers[v]))
            && (SafeSegment(session) ==> path != PathOf(session, Final(kind)))
  {
    RunsKeepInv(start, steps, s);
    RunsKeepSafeJobs(start, steps, s);
    TempPathsApart(s, w, v, session, kind);
  }

  lemma TempPathsApart(s: Store, w: nat, v: nat, session: string, kind: string)
    requires WritersOk(s) && SafeJobs(s) && w in s.writers && SequenceOf(s.writers[w].phase).Some?
    ensures var path := TempPath(s.writers[w]);
            && (v in s.writers && w != v && SequenceOf(s.writers[v].phase).Some? ==>
                  path != TempPath(s.writers[v]))
            && (SafeSegment(session) ==> path != PathOf(session, Final(kind)))
  {
    var mine := TempOf(s.writers[w], SequenceOf(s.writers[w].phase).value);
    if v in s.writers && w != v && SequenceOf(s.writers[v].phase).Some? {
      TempsApart(s, w, v);
      var other := TempOf(s.writers[v], SequenceOf(s.writers[v].phase).value);
      if PathOf(mine.dir, mine.file) == PathOf(other.dir, other.file) {
        PathInjective(mine.dir, mine.file, other.dir, other.file);
      }
    }
    if SafeSegment(session) && PathOf(mine.dir, mine.file) == PathOf(session, Final(kind)) {
      PathInjective(mine.dir, mine.file, session, Final(kind));
    }
  }

  /** A call fails because its files vanished only if at least two removals hit its
      session directory while it ran: one is always absorbed by the retry. */
  lemma OneRemovalIsAbsorbed(start: Store, steps: seq<Step>, s: Store, w: nat)
    requires Empty(start) && Reaches(start, steps, s)
    requires w in s.writers && s.writers[w].phase == Failed(true)
    ensures s.writers[w].removals >= 2
  {
    RunsKeepInv(start, steps, s);
    assert RetryOk(s, s.writers[w]);
  }

  /** The rename publishes exactly the caller's data. */
  lemma RenamePublishes(s: Store, w: nat)
    requires Inv(s) && Enabled(s, RenameTemp(w)) && TempOf(s.writers[w], s.writers[w].phase.sequence) in s.names
    ensures var s' := Apply(s, RenameTemp(w));
            var job := s.writers[w].job;
            s'.writers[w].phase.Done? && FinalOf(job) in s'.names && s'.names[FinalOf(job)] < |s'.nodes|
            && s'.nodes[s'.names[FinalOf(job)]].bytes == job.data
  {
    assert WriterOk(s, s.writers[w]);
  }
}
