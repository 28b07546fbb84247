/** A clear that empties a session directory file by file and then removes it is two
    removals, and between them a write can lose both of its attempts. */
module BodyClear {
  import opened Common
  import opened BodyNames
  import opened BodyStore
  import opened BodyRange

  /** A store with one process, one writer and the writer's files. */
  function One(job: Job, dirs: set<string>, names: map<Name, nat>, count: nat, wr: Writer): Store {
    Store(dirs, names, [Inode(job.data, job)], map[0 := count], map[0 := wr], map[], {}, {job})
  }

  function At(job: Job, attempt: nat, phase: Phase, removals: nat): Writer {
    Writer(0, job, attempt, phase, removals)
  }

  function TempName0(job: Job): Name {
    Name(job.session, Temp(job.kind, 0, 0))
  }

  lemma FilledOnce(job: Job)
    requires SafeSegment(job.session) && SafeSegment(job.kind) && job.data != []
    ensures Reachable(One(job, {job.session}, map[TempName0(job) := 0], 1, At(job, 1, Renaming(0, 0), 0)))
  {
    var one := Started();
    FillRun(one, 0, 0, job);
    assert Filled(one, 0, 0, job) == One(job, {job.session}, map[TempName0(job) := 0], 1, At(job, 1, Renaming(0, 0), 0));
  }

  /** The temp file is unlinked before the rename, so the first attempt fails. */
  lemma FirstAttemptLost(job: Job)
    requires SafeSegment(job.session) && SafeSegment(job.kind) && job.data != []
    ensures Reachable(One(job, {job.session}, map[], 1, At(job, 2, MakingDir, 1)))
  {
    FilledOnce(job);
    var s0 := One(job, {job.session}, map[TempName0(job) := 0], 1, At(job, 1, Renaming(0, 0), 0));
    var s1 := One(job, {job.session}, map[], 1, At(job, 1, Renaming(0, 0), 1));
    assert s0.names - {TempName0(job)} == map[];
    assert Hit(s0.writers, job.session) == s1.writers;
    StepReachable(s0, Unlink(TempName0(job)), s1);
    var s2 := One(job, {job.session}, map[], 1, At(job, 1, Discarding(0, true), 1));
    assert ApplyRename(s1, 0) == s2;
    StepReachable(s1, RenameTemp(0), s2);
    var s3 := One(job, {job.session}, map[], 1, At(job, 2, MakingDir, 1));
    assert ApplyRemoveTemp(s2, 0, false) == s3;
    StepReachable(s2, RemoveTemp(0, false), s3);
  }

  /** The directory goes after the retry has made it and before it creates its file. */
  lemma SecondAttemptLost(job: Job)
    requires Reachable(One(job, {job.session}, map[], 1, At(job, 2, MakingDir, 1)))
    ensures Reachable(One(job, {}, map[], 2, At(job, 2, Discarding(1, true), 2)))
  {
    var s3 := One(job, {job.session}, map[], 1, At(job, 2, MakingDir, 1));
    MadeDir(s3, 0);
    var s4 := One(job, {job.session}, map[], 1, At(job, 2, Naming, 1));
    assert s3.writers[0 := s4.writers[0]] == s4.writers && {job.session} + {job.session} == {job.session};
    TookSequence(s4, 0);
    var s5 := One(job, {job.session}, map[], 2, At(job, 2, Creating(1), 1));
    assert s4.writers[0 := s5.writers[0]] == s5.writers && map[0 := 1][0 := 2] == map[0 := 2];
    var s6 := One(job, {}, map[], 2, At(job, 2, Creating(1), 2));
    assert Hit(s5.writers, job.session) == s6.writers && {job.session} - {job.session} == {};
    StepReachable(s5, RemoveEmptyDir(job.session), s6);
    var s7 := One(job, {}, map[], 2, At(job, 2, Discarding(1, true), 2));
    assert ApplyCreate(s6, 0) == s7;
    StepReachable(s6, CreateTemp(0), s7);
  }

  /** One clear of one session directory, an unlink and the removal of the emptied
      directory, can make a write fail: two removals are needed and two suffice. */
  lemma ClearCanFailWrite(job: Job)
    requires SafeSegment(job.session) && SafeSegment(job.kind) && job.data != []
    ensures Reachable(One(job, {}, map[], 2, At(job, 2, Failed(true), 2)))
  {
    FirstAttemptLost(job);
    SecondAttemptLost(job);
    var s7 := One(job, {}, map[], 2, At(job, 2, Discarding(1, true), 2));
    var s8 := One(job, {}, map[], 2, At(job, 2, Failed(true), 2));
    assert ApplyRemoveTemp(s7, 0, false) == s8;
    StepReachable(s7, RemoveTemp(0, false), s8);
  }
}
