/** The `truncated` flag of a range read. The size is measured before the file is opened,
    so the flag is about one version and the bytes may be of another. */
module BodyRange {
  import opened Common
  import opened BodyNames
  import opened BodyStore

  /** The reader has its `max` bytes or has met the end of the file it opened. */
  predicate ReadToEnd(s: Store, rd: Reader) {
    && rd.phase.Reading? && rd.phase.node < |s.nodes|
    && (|rd.phase.got| == rd.max || rd.offset + |rd.phase.got| >= |s.nodes[rd.phase.node].bytes|)
  }

  /** The flag the call returns: measured size against what was read. */
  predicate Flag(rd: Reader)
    requires rd.phase.Reading?
  {
    rd.offset + |rd.phase.got| < rd.phase.size
  }

  /** Whether the version that was read goes on after the returned bytes. */
  predicate GoesOn(s: Store, rd: Reader)
    requires rd.phase.Reading? && rd.phase.node < |s.nodes|
  {
    rd.offset + |rd.phase.got| < |s.nodes[rd.phase.node].bytes|
  }

  /** The measured size and the opened version lie on the same side of the range. */
  predicate SameSide(size: nat, length: nat, offset: nat, max: nat) {
    if length > offset + max then size > offset + max else size <= length || size == offset
  }

  /** In every run, the flag of a finished read tells the truth about the version it read
      exactly when the measured size and that version lie on the same side of the range. */
  lemma FlagExact(start: Store, steps: seq<Step>, s: Store, r: nat)
    requires Empty(start) && Reaches(start, steps, s) && r in s.readers && ReadToEnd(s, s.readers[r])
    ensures var rd := s.readers[r];
            (Flag(rd) == GoesOn(s, rd)) <==> SameSide(rd.phase.size, |s.nodes[rd.phase.node].bytes|, rd.offset, rd.max)
  {
    RunsKeepInv(start, steps, s);
    assert ReaderOk(s, s.readers[r]);
  }

  // ---- Reads that no rewrite disturbs ----

  /** The step puts a file under this final name. */
  predicate Publishes(s: Store, step: Step, n: Name) {
    && step.RenameTemp? && step.w in s.writers && s.writers[step.w].phase.Renaming?
    && TempOf(s.writers[step.w], s.writers[step.w].phase.sequence) in s.names && FinalOf(s.writers[step.w].job) == n
  }

  /** No step of the run publishes under the name. */
  ghost predicate NonePublishes(s: Store, steps: seq<Step>, n: Name)
    decreases |steps|
  {
    steps == [] || (!Publishes(s, steps[0], n)
                    && (Enabled(s, steps[0]) ==> NonePublishes(Apply(s, steps[0]), steps[1..], n)))
  }

  /** Published files never change. */
  lemma PublishedFixed(s: Store, step: Step, i: nat)
    requires Inv(s) && Enabled(s, step) && i in s.published
    ensures var s' := Apply(s, step);
            i in s'.published && i < |s.nodes| <= |s'.nodes| && s'.nodes[i] == s.nodes[i]
  {
    if step.CreateTemp? {
      CreateFixed(s, step.w, i);
    } else if step.WriteSome? {
      WriteFixed(s, step.w, step.count, i);
    } else {
      OthersFixed(s, step);
    }
  }

  lemma CreateFixed(s: Store, w: nat, i: nat)
    requires PublishedOk(s) && w in s.writers && s.writers[w].phase.Creating? && i in s.published
    ensures var s' := ApplyCreate(s, w);
            s'.published == s.published && |s.nodes| <= |s'.nodes| && s'.nodes[i] == s.nodes[i]
  {
  }

  lemma WriteFixed(s: Store, w: nat, count: nat, i: nat)
    requires PublishedOk(s) && WritersOk(s) && Enabled(s, WriteSome(w, count)) && i in s.published
    ensures var s' := ApplyWrite(s, w, count);
            s'.published == s.published && |s.nodes| == |s'.nodes| && s'.nodes[i] == s.nodes[i]
  {
    assert WriterOk(s, s.writers[w]);
  }

  lemma OthersFixed(s: Store, step: Step)
    requires Enabled(s, step) && !step.CreateTemp? && !step.WriteSome?
    ensures Apply(s, step).nodes == s.nodes && Apply(s, step).published >= s.published
  {
  }

  /** A final name that no step publishes is the same file or gone. */
  lemma FinalFixed(s: Store, step: Step, n: Name)
    requires Enabled(s, step) && n.file.Final? && !Publishes(s, step, n)
    ensures n in Apply(s, step).names ==> n in s.names && Apply(s, step).names[n] == s.names[n]
  {
    if step.CreateTemp? {
      assert Apply(s, step) == ApplyCreate(s, step.w);
    } else if step.RenameTemp? {
      assert Apply(s, step) == ApplyRename(s, step.w);
    } else if step.RemoveTemp? {
      assert Apply(s, step) == ApplyRemoveTemp(s, step.w, step.removed);
    } else {
      NamesShrink(s, step);
    }
  }

  lemma NamesShrink(s: Store, step: Step)
    requires Enabled(s, step) && !step.CreateTemp? && !step.RenameTemp? && !step.RemoveTemp?
    ensures forall n :: n in Apply(s, step).names ==> n in s.names && Apply(s, step).names[n] == s.names[n]
  {
  }

  lemma {:induction false} QuietRun(s: Store, steps: seq<Step>, s': Store, n: Name)
    requires Inv(s) && Reaches(s, steps, s') && n.file.Final? && NonePublishes(s, steps, n) && n in s'.names
    ensures n in s.names && s'.names[n] == s.names[n] < |s.nodes| <= |s'.nodes|
    ensures s'.nodes[s.names[n]] == s.nodes[s.names[n]] && s.names[n] in s'.published
    decreases |steps|
  {
    if steps != [] {
      StepKeepsInv(s, steps[0]);
      var next := Apply(s, steps[0]);
      QuietRun(next, steps[1..], s', n);
      FinalFixed(s, steps[0], n);
      PublishedFixed(s, steps[0], s.names[n]);
    }
  }

  /** The step is not one of reader `r`'s own. */
  predicate Foreign(step: Step, r: nat) {
    !(step.StatBody? && step.r == r) && !(step.OpenBody? && step.r == r) && !(step.ReadSome? && step.r == r)
    && !(step.CloseReader? && step.r == r)
  }

  lemma ForeignStep(s: Store, step: Step, r: nat)
    requires Enabled(s, step) && Foreign(step, r) && r in s.readers
    ensures r in Apply(s, step).readers && Apply(s, step).readers[r] == s.readers[r]
  {
  }

  lemma {:induction false} ForeignRun(s: Store, steps: seq<Step>, s': Store, r: nat)
    requires Reaches(s, steps, s') && r in s.readers && forall i :: 0 <= i < |steps| ==> Foreign(steps[i], r)
    ensures r in s'.readers && s'.readers[r] == s.readers[r]
    decreases |steps|
  {
    if steps != [] {
      assert Foreign(steps[0], r);
      ForeignStep(s, steps[0], r);
      ForeignRun(Apply(s, steps[0]), steps[1..], s', r);
    }
  }

  /** Until it is closed, an open reader keeps its file, its size and its range. */
  lemma {:induction false} ReadingRun(s: Store, steps: seq<Step>, s': Store, r: nat)
    requires Inv(s) && Reaches(s, steps, s') && r in s.readers && s.readers[r].phase.Reading?
    requires forall i :: 0 <= i < |steps| ==> steps[i] != CloseReader(r)
    ensures r in s'.readers && s'.readers[r].phase.Reading?
    ensures s'.readers[r] == s.readers[r].(phase := s.readers[r].phase.(got := s'.readers[r].phase.got))
    ensures var node := s.readers[r].phase.node;
            node < |s.nodes| <= |s'.nodes| && s'.nodes[node] == s.nodes[node]
    decreases |steps|
  {
    assert ReaderOk(s, s.readers[r]);
    if steps != [] {
      assert steps[0] != CloseReader(r);
      StepKeepsInv(s, steps[0]);
      PublishedFixed(s, steps[0], s.readers[r].phase.node);
      ReadingStep(s, steps[0], r);
      ReadingRun(Apply(s, steps[0]), steps[1..], s', r);
    }
  }

  lemma ReadingStep(s: Store, step: Step, r: nat)
    requires Enabled(s, step) && r in s.readers && s.readers[r].phase.Reading? && step != CloseReader(r)
    ensures var s' := Apply(s, step);
            && r in s'.readers && s'.readers[r].phase.Reading?
            && s'.readers[r] == s.readers[r].(phase := s.readers[r].phase.(got := s'.readers[r].phase.got))
  {
  }

  /** When the reader opens the file, the size it measured is the size of that file. */
  lemma OpensMeasured(s0: Store, stat: Step, between: seq<Step>, s1: Store)
    requires Inv(s0) && stat.StatBody? && Enabled(s0, stat)
    requires Reaches(Apply(s0, stat), between, s1) && forall i :: 0 <= i < |between| ==> Foreign(between[i], stat.r)
    requires NonePublishes(Apply(s0, stat), between, Name(stat.session, Final(stat.kind)))
    requires Enabled(s1, OpenBody(stat.r))
    ensures Inv(s1) && Measured(s1, stat.r)
  {
    StepKeepsInv(s0, stat);
    ForeignRun(Apply(s0, stat), between, s1, stat.r);
    QuietRun(Apply(s0, stat), between, s1, Name(stat.session, Final(stat.kind)));
    RunsKeepInv(Apply(s0, stat), between, s1);
  }

  /** The reader is about to open a file of the size it measured. */
  ghost predicate Measured(s: Store, r: nat) {
    && r in s.readers && s.readers[r].phase.Opening?
    && var n := Name(s.readers[r].session, Final(s.readers[r].kind));
       n in s.names && s.names[n] < |s.nodes| && s.readers[r].phase.size == |s.nodes[s.names[n]].bytes|
  }

  lemma OpenMeasured(s: Store, r: nat)
    requires Inv(s) && Measured(s, r)
    ensures var s' := Apply(s, OpenBody(r));
            && Inv(s') && r in s'.readers && s'.readers[r].phase.Reading? && s'.readers[r].phase.node < |s'.nodes|
            && s'.readers[r].phase.size == |s'.nodes[s'.readers[r].phase.node].bytes|
  {
    OpenBodyStep(s, r);
  }

  /** An open reader whose size is that of its file ends with an exact flag. */
  lemma MeasuredFlagIsExact(s1: Store, r: nat, after: seq<Step>, s2: Store)
    requires Inv(s1) && r in s1.readers && s1.readers[r].phase.Reading? && s1.readers[r].phase.node < |s1.nodes|
    requires s1.readers[r].phase.size == |s1.nodes[s1.readers[r].phase.node].bytes|
    requires Reaches(s1, after, s2) && forall i :: 0 <= i < |after| ==> after[i] != CloseReader(r)
    ensures r in s2.readers && s2.readers[r].phase.Reading? && s2.readers[r].phase.node < |s2.nodes|
    ensures Flag(s2.readers[r]) == GoesOn(s2, s2.readers[r])
  {
    ReadingRun(s1, after, s2, r);
  }

  /** If nothing is published under the name between the size check and the open, the flag
      is exact, whatever happens before, in between and afterwards. */
  lemma UndisturbedFlagIsExact(start: Store, pre: seq<Step>, s0: Store, stat: Step, between: seq<Step>, s1: Store,
                               after: seq<Step>, s2: Store)
    requires Empty(start) && Reaches(start, pre, s0) && stat.StatBody? && Enabled(s0, stat)
    requires Reaches(Apply(s0, stat), between, s1) && forall i :: 0 <= i < |between| ==> Foreign(between[i], stat.r)
    requires NonePublishes(Apply(s0, stat), between, Name(stat.session, Final(stat.kind)))
    requires Enabled(s1, OpenBody(stat.r)) && Reaches(Apply(s1, OpenBody(stat.r)), after, s2)
    requires forall i :: 0 <= i < |after| ==> after[i] != CloseReader(stat.r)
    ensures stat.r in s2.readers && s2.readers[stat.r].phase.Reading? && s2.readers[stat.r].phase.node < |s2.nodes|
    ensures Flag(s2.readers[stat.r]) == GoesOn(s2, s2.readers[stat.r])
  {
    RunsKeepInv(start, pre, s0);
    OpensMeasured(s0, stat, between, s1);
    OpenMeasured(s1, stat.r);
    MeasuredFlagIsExact(Apply(s1, OpenBody(stat.r)), stat.r, after, s2);
  }

  // ---- A rewrite between the size check and the open ----

  const EMPTY := Store({}, map[], [], map[], map[], map[], {}, {})

  /** Some run from the empty store leads here. */
  ghost predicate Reachable(s: Store) {
    exists steps :: Reaches(EMPTY, steps, s)
  }

  lemma {:induction false} OneMoreStep(a: Store, steps: seq<Step>, b: Store, step: Step)
    requires Reaches(a, steps, b) && Enabled(b, step)
    ensures Reaches(a, steps + [step], Apply(b, step))
    decreases |steps|
  {
    if steps == [] {
      assert ([] + [step])[1..] == [];
    } else {
      OneMoreStep(Apply(a, steps[0]), steps[1..], b, step);
      assert (steps + [step])[1..] == steps[1..] + [step];
    }
  }

  lemma {:induction false} StepReachable(s: Store, step: Step, s': Store)
    requires Reachable(s) && Enabled(s, step) && s' == Apply(s, step)
    ensures Reachable(s')
  {
    var steps :| Reaches(EMPTY, steps, s);
    OneMoreStep(EMPTY, steps, s, step);
  }

  /** A writer can start on this job with a temp name that is free. */
  predicate CanStart(s: Store, w: nat, pid: nat, job: Job) {
    && w !in s.writers && pid in s.counters && SafeSegment(job.session) && SafeSegment(job.kind) && job.data != []
    && Name(job.session, Temp(job.kind, pid, s.counters[pid])) !in s.names
  }

  /** The store after the writer has created its empty temp file. */
  function TempOpened(s: Store, w: nat, pid: nat, job: Job): Store
    requires pid in s.counters
  {
    var n := s.counters[pid];
    s.(dirs := s.dirs + {job.session}, names := s.names[Name(job.session, Temp(job.kind, pid, n)) := |s.nodes|],
       nodes := s.nodes + [Inode([], job)], counters := s.counters[pid := n + 1],
       writers := s.writers[w := Writer(pid, job, 1, Filling(n, |s.nodes|, 0), 0)], begun := s.begun + {job})
  }

  /** The store after the writer has made its directory and drawn its temp name. */
  function TempNamed(s: Store, w: nat, pid: nat, job: Job): Store
    requires pid in s.counters
  {
    var n := s.counters[pid];
    s.(dirs := s.dirs + {job.session}, counters := s.counters[pid := n + 1],
       writers := s.writers[w := Writer(pid, job, 1, Creating(n), 0)], begun := s.begun + {job})
  }

  lemma NameTemp(s: Store, w: nat, pid: nat, job: Job)
    requires Reachable(s) && CanStart(s, w, pid, job)
    ensures Reachable(TempNamed(s, w, pid, job))
  {
    var s1 := s.(writers := s.writers[w := Writer(pid, job, 1, MakingDir, 0)], begun := s.begun + {job});
    StepReachable(s, Begin(w, pid, job), s1);
    MadeDir(s1, w);
    var s2 := s1.(dirs := s.dirs + {job.session}, writers := s.writers[w := Writer(pid, job, 1, Naming, 0)]);
    assert s1.writers[w := Writer(pid, job, 1, Naming, 0)] == s2.writers;
    TookSequence(s2, w);
    assert s2.writers[w := Writer(pid, job, 1, Creating(s.counters[pid]), 0)] == TempNamed(s, w, pid, job).writers;
  }

  lemma MadeDir(s: Store, w: nat)
    requires Reachable(s) && w in s.writers && s.writers[w].phase.MakingDir?
    ensures Reachable(s.(dirs := s.dirs + {s.writers[w].job.session},
                         writers := s.writers[w := s.writers[w].(phase := Naming)]))
  {
    StepReachable(s, MakeDir(w), Apply(s, MakeDir(w)));
  }

  lemma TookSequence(s: Store, w: nat)
    requires Reachable(s) && w in s.writers && s.writers[w].phase.Naming? && s.writers[w].pid in s.counters
    ensures var pid := s.writers[w].pid;
            Reachable(s.(counters := s.counters[pid := s.counters[pid] + 1],
                         writers := s.writers[w := s.writers[w].(phase := Creating(s.counters[pid]))]))
  {
    StepReachable(s, TakeSequence(w), Apply(s, TakeSequence(w)));
  }

  lemma OpenTemp(s: Store, w: nat, pid: nat, job: Job)
    requires Reachable(s) && CanStart(s, w, pid, job)
    ensures Reachable(TempOpened(s, w, pid, job))
  {
    NameTemp(s, w, pid, job);
    CreatedStore(s, w, pid, job);
    StepReachable(TempNamed(s, w, pid, job), CreateTemp(w), TempOpened(s, w, pid, job));
  }

  lemma CreatedStore(s: Store, w: nat, pid: nat, job: Job)
    requires CanStart(s, w, pid, job)
    ensures ApplyCreate(TempNamed(s, w, pid, job), w) == TempOpened(s, w, pid, job)
  {
    var created := ApplyCreate(TempNamed(s, w, pid, job), w);
    assert created.writers == TempOpened(s, w, pid, job).writers;
  }

  /** The store after the whole write: the data under the final name, the temp name gone. */
  function Published(s: Store, w: nat, pid: nat, job: Job): Store
    requires pid in s.counters
  {
    TempOpened(s, w, pid, job)
      .(names := s.names[FinalOf(job) := |s.nodes|], nodes := s.nodes + [Inode(job.data, job)],
        writers := s.writers[w := Writer(pid, job, 1, Done, 0)], published := s.published + {|s.nodes|})
  }

  /** The store after all data is in the temp file. */
  function Filled(s: Store, w: nat, pid: nat, job: Job): Store
    requires pid in s.counters
  {
    TempOpened(s, w, pid, job)
      .(nodes := s.nodes + [Inode(job.data, job)],
        writers := s.writers[w := Writer(pid, job, 1, Renaming(s.counters[pid], |s.nodes|), 0)])
  }

  lemma FillRun(s: Store, w: nat, pid: nat, job: Job)
    requires Reachable(s) && CanStart(s, w, pid, job)
    ensures Reachable(Filled(s, w, pid, job))
  {
    OpenTemp(s, w, pid, job);
    var s4 := TempOpened(s, w, pid, job);
    WrittenStore(s, w, pid, job);
    var s5 := ApplyWrite(s4, w, |job.data|);
    StepReachable(s4, WriteSome(w, |job.data|), s5);
    Closed(s5, w);
    assert Filled(s, w, pid, job).writers
             == s5.writers[w := Writer(pid, job, 1, Renaming(s.counters[pid], |s.nodes|), 0)];
  }

  lemma Closed(s: Store, w: nat)
    requires Reachable(s) && Enabled(s, Close(w))
    ensures var p := s.writers[w].phase;
            Reachable(s.(writers := s.writers[w := s.writers[w].(phase := Renaming(p.sequence, p.node))]))
  {
    StepReachable(s, Close(w), Apply(s, Close(w)));
  }

  lemma WrittenStore(s: Store, w: nat, pid: nat, job: Job)
    requires CanStart(s, w, pid, job)
    ensures var s4 := TempOpened(s, w, pid, job);
            && Enabled(s4, WriteSome(w, |job.data|))
            && ApplyWrite(s4, w, |job.data|)
               == s4.(nodes := s.nodes + [Inode(job.data, job)],
                      writers := s.writers[w := Writer(pid, job, 1,
                                                       Filling(s.counters[pid], |s.nodes|, |job.data|), 0)])
  {
    var s5 := ApplyWrite(TempOpened(s, w, pid, job), w, |job.data|);
    assert [] + job.data[0..|job.data|] == job.data;
    assert s5.nodes == s.nodes + [Inode(job.data, job)];
    assert s5.writers == s.writers[w := Writer(pid, job, 1, Filling(s.counters[pid], |s.nodes|, |job.data|), 0)];
  }

  lemma PublishRun(s: Store, w: nat, pid: nat, job: Job)
    requires Reachable(s) && CanStart(s, w, pid, job)
    ensures Reachable(Published(s, w, pid, job))
  {
    FillRun(s, w, pid, job);
    RenamedStore(s, w, pid, job);
    StepReachable(Filled(s, w, pid, job), RenameTemp(w), Published(s, w, pid, job));
  }

  lemma RenamedStore(s: Store, w: nat, pid: nat, job: Job)
    requires CanStart(s, w, pid, job)
    ensures ApplyRename(Filled(s, w, pid, job), w) == Published(s, w, pid, job)
  {
    var temp := Name(job.session, Temp(job.kind, pid, s.counters[pid]));
    assert (s.names[temp := |s.nodes|] - {temp})[FinalOf(job) := |s.nodes|] == s.names[FinalOf(job) := |s.nodes|];
    assert ApplyRename(Filled(s, w, pid, job), w).writers == Published(s, w, pid, job).writers;
  }

  /** A body is published and then measured for a range read. */
  lemma MeasuredRun(session: string, kind: string, a: Bytes, offset: nat, max: nat) returns (s: Store)
    requires SafeSegment(session) && SafeSegment(kind) && a != [] && offset <= |a|
    ensures Reachable(s) && s.counters == map[0 := 1] && 1 !in s.writers && |s.nodes| == 1
    ensures s.names == map[Name(session, Final(kind)) := 0]
    ensures s.readers == map[0 := Reader(session, kind, offset, max, Opening(|a|))]
  {
    var one := Started();
    PublishRun(one, 0, 0, Job(session, kind, a));
    var s1 := Published(one, 0, 0, Job(session, kind, a));
    var stat := StatBody(0, session, kind, offset, max);
    s := Apply(s1, stat);
    StepReachable(s1, stat, s);
  }

  lemma Started() returns (s: Store)
    ensures Reachable(s) && s == EMPTY.(counters := map[0 := 0])
  {
    s := EMPTY.(counters := map[0 := 0]);
    assert Reaches(EMPTY, [], EMPTY);
    StepReachable(EMPTY, StartProcess(0), s);
  }

  /** For any two bodies there is a run in which the size is measured on the first and the
      range is read to its end from the second. */
  lemma RewrittenRun(session: string, kind: string, a: Bytes, b: Bytes, offset: nat, max: nat) returns (s: Store)
    requires SafeSegment(session) && SafeSegment(kind) && a != [] && b != [] && offset <= |a|
    ensures Reachable(s) && 0 in s.readers && ReadToEnd(s, s.readers[0])
    ensures s.readers[0].offset == offset && s.readers[0].max == max && s.readers[0].phase.size == |a|
    ensures s.nodes[s.readers[0].phase.node].bytes == b
  {
    var s2 := MeasuredRun(session, kind, a, offset, max);
    PublishRun(s2, 1, 0, Job(session, kind, b));
    var s3 := Published(s2, 1, 0, Job(session, kind, b));
    var s4 := s3.(readers := map[0 := Reader(session, kind, offset, max, Reading(|a|, 1, []))]);
    assert s3.readers[0 := s4.readers[0]] == s4.readers;
    StepReachable(s3, OpenBody(0), s4);
    s := ReadOff(s4, 0);
  }

  /** Whatever is left of the range can be read in one step. */
  lemma ReadOff(s: Store, r: nat) returns (s': Store)
    requires Reachable(s) && r in s.readers && s.readers[r].phase.Reading?
    requires s.readers[r].phase.node < |s.nodes| && s.readers[r].phase.got == []
    ensures Reachable(s') && r in s'.readers && ReadToEnd(s', s'.readers[r]) && s'.nodes == s.nodes
    ensures s'.readers[r] == s.readers[r].(phase := s.readers[r].phase.(got := s'.readers[r].phase.got))
  {
    var rd := s.readers[r];
    var length := |s.nodes[rd.phase.node].bytes|;
    if rd.max == 0 || length <= rd.offset {
      s' := s;
    } else {
      var step := ReadSome(r, Min(rd.max, length - rd.offset));
      s' := Apply(s, step);
      StepReachable(s, step, s');
    }
  }

  /** So the condition is exact: whenever two sizes lie on different sides of the range,
      some run from an empty store returns a wrong flag for bodies of these sizes. */
  lemma RewriteMakesFlagWrong(session: string, kind: string, a: Bytes, b: Bytes, offset: nat, max: nat)
    returns (s: Store)
    requires SafeSegment(session) && SafeSegment(kind) && a != [] && b != [] && offset <= |a|
    requires !SameSide(|a|, |b|, offset, max)
    ensures Reachable(s) && 0 in s.readers && ReadToEnd(s, s.readers[0])
    ensures Flag(s.readers[0]) != GoesOn(s, s.readers[0])
  {
    s := RewrittenRun(session, kind, a, b, offset, max);
    var steps :| Reaches(EMPTY, steps, s);
    FlagExact(EMPTY, steps, s, 0);
  }

  /** A body of two bytes is rewritten with three while two bytes are read: the partial body
      looks complete. */
  lemma RewrittenBodyLooksComplete() returns (s: Store)
    ensures Reachable(s) && 0 in s.readers && ReadToEnd(s, s.readers[0])
    ensures !Flag(s.readers[0]) && GoesOn(s, s.readers[0])
  {
    var name := "a";
    assert IsAlnum(name[0]);
    s := RewrittenRun(name, name, [1, 2], [1, 2, 3], 0, 2);
    var steps :| Reaches(EMPTY, steps, s);
    RunsKeepInv(EMPTY, steps, s);
    assert ReaderOk(s, s.readers[0]);
  }
}
