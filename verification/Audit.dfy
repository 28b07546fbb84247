/** Rotation of the audit log: the current file and numbered older files. Which
    renames work is a parameter, since the code ignores their errors. */
module Audit {
  import opened Common

  type Bytes = seq<int>

  /** Rotated files by index; 1 is the newest. */
  type Files = map<int, Bytes>

  const MAX_BYTES := 5 * 1024 * 1024
  const RETAINED := 3

  // ---- Rotation ----

  /** Renames file `i` to `i + 1` if it exists and the rename works. */
  function Move(files: Files, i: int, works: int -> bool): Files {
    if i in files && works(i) then files[i + 1 := files[i]] - {i} else files
  }

  /** The loop over indexes `i`, `i - 1`, …, 1. */
  function Shift(files: Files, i: nat, works: int -> bool): Files
    decreases i
  {
    if i == 0 then files else Shift(Move(files, i, works), i - 1, works)
  }

  datatype Log = Log(files: Files, current: Option<Bytes>)

  function Content(current: Option<Bytes>): Bytes {
    if current.Some? then current.value else []
  }

  function Rotate(log: Log, works: int -> bool): Log {
    if log.current.None? || |log.current.value| < MAX_BYTES then log
    else
      var files := Shift(log.files, RETAINED - 1, works);
      if works(0) then Log(files[1 := log.current.value], None) else Log(files, log.current)
  }

  class AuditLog {
    var log: Log
    /** Everything ever appended. */
    ghost var history: Bytes

    constructor ()
      ensures log == Log(map[], None) && history == []
    {
      log := Log(map[], None);
      history := [];
    }

    method RotateIfNeeded(works: int -> bool)
      modifies `log
      ensures log == Rotate(old(log), works)
    {
      if log.current.None? || |log.current.value| < MAX_BYTES {
        return;
      }
      var files := log.files;
      for index := RETAINED downto 1
        invariant Shift(files, index - 1, works) == Shift(old(log).files, RETAINED - 1, works)
      {
        if index in files && works(index) {
          files := files[index + 1 := files[index]] - {index};
        }
      }
      if works(0) {
        log := Log(files[1 := log.current.value], None);
      } else {
        log := log.(files := files);
      }
    }

    method Append(line: Bytes, works: int -> bool)
      modifies this
      ensures log == Appended(old(log), line, works) && history == old(history) + line
    {
      RotateIfNeeded(works);
      log := log.(current := Some(Content(log.current) + line));
      history := history + line;
    }

    method CheckWritable(works: int -> bool)
      modifies `log
      ensures log == Appended(old(log), [], works)
    {
      RotateIfNeeded(works);
      log := log.(current := Some(Content(log.current)));
      assert Content(log.current) + [] == Content(log.current);
    }
  }

  /** Rotation, then opening the current file for append and writing `line`. */
  function Appended(log: Log, line: Bytes, works: int -> bool): Log {
    var rotated := Rotate(log, works);
    rotated.(current := Some(Content(rotated.current) + line))
  }

  // ---- What is retained ----

  /** Files `n`, …, 1, oldest first. */
  function Joined(files: Files, n: nat): Bytes {
    if n == 0 then [] else (if n in files then files[n] else []) + Joined(files, n - 1)
  }

  function Kept(log: Log): Bytes {
    Joined(log.files, RETAINED) + Content(log.current)
  }

  predicate IsSuffix(a: Bytes, b: Bytes) {
    |a| <= |b| && b[|b| - |a|..] == a
  }

  lemma SuffixTransitive(a: Bytes, b: Bytes, c: Bytes)
    requires IsSuffix(a, b) && IsSuffix(b, c)
    ensures IsSuffix(a, c)
  {
    assert c[|c| - |a|..] == c[|c| - |b|..][|b| - |a|..];
  }

  lemma SuffixPlus(a: Bytes, b: Bytes, tail: Bytes)
    requires IsSuffix(a, b)
    ensures IsSuffix(a + tail, b + tail)
  {
    assert b + tail == b[..|b| - |a|] + (a + tail);
  }

  lemma {:induction false} JoinedSame(f: Files, g: Files, n: nat)
    requires forall k :: 1 <= k <= n ==> (k in f <==> k in g) && (k in f ==> f[k] == g[k])
    ensures Joined(f, n) == Joined(g, n)
  {
    if n > 0 {
      JoinedSame(f, g, n - 1);
    }
  }

  /** Moving a file to a free slot keeps the joined text. */
  lemma {:induction false} JoinedMove(f: Files, i: nat, n: nat)
    requires 1 <= i < n && i in f && i + 1 !in f
    ensures Joined(f[i + 1 := f[i]] - {i}, n) == Joined(f, n)
    decreases n
  {
    var g := f[i + 1 := f[i]] - {i};
    if n == i + 1 {
      JoinedSame(f, g, i - 1);
      assert Joined(g, i) == [] + Joined(g, i - 1);
      assert Joined(f, i + 1) == [] + Joined(f, i);
    } else {
      JoinedMove(f, i, n - 1);
    }
  }

  /** No file is older than slot `j`. */
  predicate OldestAt(files: Files, j: nat) {
    forall k :: k in files ==> k <= j
  }

  /** A rename onto an occupied slot overwrites a file that is not the oldest. */
  predicate Clobbers(files: Files, i: nat, works: int -> bool) {
    i in files && works(i) && i + 1 in files && !OldestAt(files, i + 1)
  }

  predicate NeverClobbers(files: Files, i: nat, works: int -> bool)
    decreases i
  {
    i == 0 || (!Clobbers(files, i, works) && NeverClobbers(Move(files, i, works), i - 1, works))
  }

  lemma {:induction false} JoinedTop(files: Files, j: nat, n: nat)
    requires j <= n && OldestAt(files, j)
    ensures Joined(files, n) == Joined(files, j)
    decreases n
  {
    if j < n {
      JoinedTop(files, j, n - 1);
    }
  }

  /** One rename drops at most the oldest file. */
  lemma MoveKeepsSuffix(files: Files, i: nat, works: int -> bool)
    requires 1 <= i < RETAINED && !Clobbers(files, i, works)
    ensures IsSuffix(Joined(Move(files, i, works), RETAINED), Joined(files, RETAINED))
  {
    if i in files && works(i) {
      var rest := files - {i + 1};
      JoinedMove(rest, i, RETAINED);
      assert rest[i + 1 := rest[i]] - {i} == Move(files, i, works);
      if i + 1 in files {
        JoinedTop(files, i + 1, RETAINED);
        JoinedTop(rest, i, RETAINED);
        JoinedSame(rest, files, i);
      } else {
        assert rest == files;
      }
    }
  }

  lemma {:induction false} ShiftKeepsSuffix(files: Files, i: nat, works: int -> bool)
    requires i < RETAINED && NeverClobbers(files, i, works)
    ensures IsSuffix(Joined(Shift(files, i, works), RETAINED), Joined(files, RETAINED))
    decreases i
  {
    if i == 0 {
      assert Shift(files, 0, works) == files;
    } else {
      var moved := Move(files, i, works);
      MoveKeepsSuffix(files, i, works);
      ShiftKeepsSuffix(moved, i - 1, works);
      SuffixTransitive(Joined(Shift(moved, i - 1, works), RETAINED), Joined(moved, RETAINED), Joined(files, RETAINED));
    }
  }

  /** No rename of this rotation overwrites a file that has an older one behind it. */
  predicate SafeRotation(log: Log, works: int -> bool) {
    log.current.Some? && |log.current.value| >= MAX_BYTES
    ==> NeverClobbers(log.files, RETAINED - 1, works)
        && var shifted := Shift(log.files, RETAINED - 1, works);
           (works(0) && 1 in shifted ==> OldestAt(shifted, 1))
  }

  /** Whatever renames fail, a safe rotation keeps a suffix. */
  lemma RotateKeepsSuffix(log: Log, works: int -> bool)
    requires SafeRotation(log, works)
    ensures IsSuffix(Kept(Rotate(log, works)), Kept(log))
  {
    if log.current.Some? && |log.current.value| >= MAX_BYTES {
      var files, current := Shift(log.files, RETAINED - 1, works), log.current.value;
      ShiftKeepsSuffix(log.files, RETAINED - 1, works);
      if works(0) {
        PutKeepsSuffix(files, current);
        SuffixPlus(Joined(files, RETAINED), Joined(log.files, RETAINED), current);
        SuffixTransitive(Kept(Rotate(log, works)), Joined(files, RETAINED) + current, Kept(log));
      } else {
        SuffixPlus(Joined(files, RETAINED), Joined(log.files, RETAINED), current);
      }
    }
  }

  lemma PutKeepsSuffix(files: Files, newest: Bytes)
    requires 1 in files ==> OldestAt(files, 1)
    ensures IsSuffix(Joined(files[1 := newest], RETAINED), Joined(files, RETAINED) + newest)
  {
    var rest := files - {1};
    assert rest[1 := newest] == files[1 := newest];
    JoinedPut(rest, newest, RETAINED);
    if 1 in files {
      JoinedTop(rest, 0, RETAINED);
      assert Joined(rest, 0) == [];
    } else {
      assert rest == files;
    }
  }

  lemma {:induction false} JoinedPut(files: Files, newest: Bytes, n: nat)
    requires n >= 1 && 1 !in files
    ensures Joined(files[1 := newest], n) == Joined(files, n) + newest
    decreases n
  {
    if n == 1 {
      assert Joined(files, 0) == [] && Joined(files[1 := newest], 0) == [];
    } else {
      JoinedPut(files, newest, n - 1);
    }
  }

  /** File 2 stays because its rename fails, and file 1 is renamed over it: for files of any
      size the text between is lost, and what is left is a suffix only by coincidence. */
  lemma FailedRenameOpensGap(a: Bytes, b: Bytes, c: Bytes, current: Bytes, works: int -> bool)
    requires |current| >= MAX_BYTES && !works(2) && works(1)
    ensures var log := Log(map[3 := a, 2 := b, 1 := c], Some(current));
            && Kept(log) == a + b + c + current && Kept(Rotate(log, works)) == a + c + current
            && (IsSuffix(Kept(Rotate(log, works)), Kept(log)) <==> (a + b)[|b|..] == a)
  {
    GapKept(a, b, c, current, works);
    assert a + b + c + current == (a + b) + (c + current) && a + c + current == a + (c + current);
    SuffixCut(a, a + b, c + current);
  }

  lemma GapShift(a: Bytes, b: Bytes, c: Bytes, works: int -> bool)
    requires !works(2) && works(1)
    ensures Shift(map[3 := a, 2 := b, 1 := c], 2, works) == map[3 := a, 2 := c]
  {
    var files: Files := map[3 := a, 2 := b, 1 := c];
    assert Move(files, 2, works) == files;
    assert Shift(files, 2, works) == Shift(files, 1, works) == Move(files, 1, works);
  }

  lemma GapKept(a: Bytes, b: Bytes, c: Bytes, current: Bytes, works: int -> bool)
    requires |current| >= MAX_BYTES && !works(2) && works(1)
    ensures var log := Log(map[3 := a, 2 := b, 1 := c], Some(current));
            Kept(log) == a + b + c + current && Kept(Rotate(log, works)) == a + c + current
  {
    GapShift(a, b, c, works);
    JoinedAll(a, b, c);
    JoinedAll(a, c, current);
    JoinedTwo(a, c);
    var shifted: Files := map[3 := a, 2 := c];
    assert shifted[1 := current] == map[3 := a, 2 := c, 1 := current];
    assert a + c + current + [] == a + c + current;
  }

  lemma JoinedAll(a: Bytes, b: Bytes, c: Bytes)
    ensures Joined(map[3 := a, 2 := b, 1 := c], 3) == a + b + c
  {
    JoinedThree(map[3 := a, 2 := b, 1 := c]);
  }

  lemma JoinedTwo(a: Bytes, b: Bytes)
    ensures Joined(map[3 := a, 2 := b], 3) == a + b
  {
    JoinedThree(map[3 := a, 2 := b]);
  }

  lemma JoinedThree(files: Files)
    ensures Joined(files, 3) == (if 3 in files then files[3] else []) + (if 2 in files then files[2] else [])
                                + (if 1 in files then files[1] else [])
  {
    assert Joined(files, 0) == [];
    assert Joined(files, 1) == if 1 in files then files[1] else [];
  }

  /** Common endings do not decide whether one text is a suffix of another. */
  lemma SuffixCut(p: Bytes, q: Bytes, tail: Bytes)
    requires |p| <= |q|
    ensures IsSuffix(p + tail, q + tail) <==> q[|q| - |p|..] == p
  {
    var rest := (q + tail)[|q| - |p|..];
    assert rest == q[|q| - |p|..] + tail;
    if rest == p + tail {
      assert q[|q| - |p|..] == rest[..|p|] == p;
    }
  }

  // ---- Safe rotations are exactly those that keep a suffix for all contents ----

  /** A full current file and full rotated files in these slots. */
  ghost predicate FullLog(log: Log, slots: set<int>) {
    && log.files.Keys == slots && (forall k :: k in log.files ==> |log.files[k]| >= MAX_BYTES)
    && log.current.Some? && |log.current.value| >= MAX_BYTES
  }

  lemma {:induction false} SameSlots(f: Files, g: Files, i: nat, works: int -> bool)
    requires f.Keys == g.Keys
    ensures NeverClobbers(f, i, works) == NeverClobbers(g, i, works)
    ensures Shift(f, i, works).Keys == Shift(g, i, works).Keys
    decreases i
  {
    assert forall k :: k in f <==> k in g;
    if i > 0 {
      assert Clobbers(f, i, works) == Clobbers(g, i, works);
      assert Move(f, i, works).Keys == Move(g, i, works).Keys;
      SameSlots(Move(f, i, works), Move(g, i, works), i - 1, works);
    }
  }

  lemma SameSafety(log: Log, other: Log, slots: set<int>, works: int -> bool)
    requires FullLog(log, slots) && FullLog(other, slots)
    ensures SafeRotation(log, works) == SafeRotation(other, works)
  {
    SameSlots(log.files, other.files, RETAINED - 1, works);
    var f, g := Shift(log.files, RETAINED - 1, works), Shift(other.files, RETAINED - 1, works);
    assert forall k :: k in f <==> k in g;
  }

  function Fill(k: int): (r: Bytes)
    ensures |r| == MAX_BYTES && forall i :: 0 <= i < |r| ==> r[i] == k
  {
    seq(MAX_BYTES, _ => k)
  }

  /** Every file holds its own slot number. */
  function Sample(slots: set<int>): Log {
    Log(map k | k in slots :: Fill(k), Some(Fill(0)))
  }

  /** An unsafe rotation loses a file in the middle of this log. */
  lemma UnsafeSample(slots: set<int>, works: int -> bool)
    requires slots <= {1, 2, 3} && !SafeRotation(Sample(slots), works)
    ensures !IsSuffix(Kept(Rotate(Sample(slots), works)), Kept(Sample(slots)))
  {
    var files := Sample(slots).files;
    if NeverClobbers(files, RETAINED - 1, works) {
      UnsafePut(slots, works);
    } else {
      UnsafeMove(slots, works);
      assert files == map[3 := Fill(3), 2 := Fill(2), 1 := Fill(1)];
      FailedRenameOpensGap(Fill(3), Fill(2), Fill(1), Fill(0), works);
      assert (Fill(3) + Fill(2))[MAX_BYTES..] == Fill(2);
      assert Fill(2)[0] != Fill(3)[0];
    }
  }

  /** The only rename among rotated files that loses one in the middle. */
  lemma UnsafeMove(slots: set<int>, works: int -> bool)
    requires slots <= {1, 2, 3} && !NeverClobbers(Sample(slots).files, RETAINED - 1, works)
    ensures slots == {1, 2, 3} && !works(2) && works(1)
  {
    var files := Sample(slots).files;
    assert !Clobbers(files, 2, works);
    var once := Move(files, 2, works);
    assert NeverClobbers(Move(once, 1, works), 0, works);
    assert Clobbers(once, 1, works);
  }

  /** When only the last rename loses a file, the others left file 1 where it was. */
  lemma UnsafePutCase(slots: set<int>, works: int -> bool)
    requires slots <= {1, 2, 3} && !SafeRotation(Sample(slots), works)
    requires NeverClobbers(Sample(slots).files, RETAINED - 1, works)
    ensures works(0) && 1 in slots && !works(1)
    ensures Shift(Sample(slots).files, 2, works) == Move(Sample(slots).files, 2, works)
    ensures !OldestAt(Move(Sample(slots).files, 2, works), 1)
  {
    var files := Sample(slots).files;
    var once := Move(files, 2, works);
    assert Shift(files, 2, works) == Shift(once, 1, works) == Move(once, 1, works);
  }

  /** The older files end in their own slot numbers. */
  lemma OlderEnds(slots: set<int>, works: int -> bool)
    requires slots <= {1, 2, 3} && !OldestAt(Move(Sample(slots).files, 2, works), 1)
    ensures var p := Joined(Move(Sample(slots).files, 2, works) - {1}, 3);
            p != [] && p[|p| - 1] in {2, 3}
  {
    var rest := Move(Sample(slots).files, 2, works) - {1};
    JoinedThree(rest);
    assert 2 in rest ==> rest[2] == Fill(2);
    assert 3 in rest ==> rest[3] == Fill(2) || rest[3] == Fill(3);
    assert 2 in rest || 3 in rest;
  }

  lemma NewestEnds(slots: set<int>)
    requires 1 in slots
    ensures var q := Joined(Sample(slots).files, 3);
            q != [] && q[|q| - 1] == 1
  {
    JoinedThree(Sample(slots).files);
  }

  lemma UnsafePut(slots: set<int>, works: int -> bool)
    requires slots <= {1, 2, 3} && !SafeRotation(Sample(slots), works)
    requires NeverClobbers(Sample(slots).files, RETAINED - 1, works)
    ensures !IsSuffix(Kept(Rotate(Sample(slots), works)), Kept(Sample(slots)))
  {
    UnsafePutCase(slots, works);
    OlderEnds(slots, works);
    NewestEnds(slots);
    var shifted := Move(Sample(slots).files, 2, works);
    KeptAfterPut(shifted, Fill(0));
    DifferentEnds(Joined(shifted - {1}, 3), Joined(Sample(slots).files, 3), Fill(0));
  }

  lemma KeptAfterPut(files: Files, newest: Bytes)
    ensures Kept(Log(files[1 := newest], None)) == Joined(files - {1}, RETAINED) + newest
  {
    assert (files - {1})[1 := newest] == files[1 := newest];
    JoinedPut(files - {1}, newest, RETAINED);
  }

  lemma DifferentEnds(p: Bytes, q: Bytes, tail: Bytes)
    requires p != [] && q != [] && p[|p| - 1] != q[|q| - 1]
    ensures !IsSuffix(p + tail, q + tail)
  {
    if |p| <= |q| {
      SuffixCut(p, q, tail);
      assert q[|q| - |p|..][|p| - 1] == q[|q| - 1];
    }
  }

  /** A rotation is safe exactly when it keeps a suffix whatever the full files hold. */
  lemma SafeRotationExact(log: Log, slots: set<int>, works: int -> bool)
    requires slots <= {1, 2, 3} && FullLog(log, slots)
    ensures SafeRotation(log, works)
            <==> forall other :: FullLog(other, slots) ==> IsSuffix(Kept(Rotate(other, works)), Kept(other))
  {
    forall other | FullLog(other, slots)
      ensures SafeRotation(log, works) ==> IsSuffix(Kept(Rotate(other, works)), Kept(other))
    {
      SameSafety(log, other, slots, works);
      if SafeRotation(other, works) {
        RotateKeepsSuffix(other, works);
      }
    }
    var sample := Sample(slots);
    assert FullLog(sample, slots);
    SameSafety(log, sample, slots, works);
    if !SafeRotation(log, works) {
      UnsafeSample(slots, works);
    }
  }

  // ---- Runs in which every rename works ----

  predicate AllWork(i: int) {
    true
  }

  /** The rotated files are 1..m, each full. */
  predicate NoGaps(files: Files) {
    && (forall k :: k in files ==> 1 <= k <= RETAINED && |files[k]| >= MAX_BYTES)
    && (forall k :: k in files && k > 1 ==> k - 1 in files)
  }

  /** Slot 1 is free, and slots 2 and 3 hold what 1 and 2 held. */
  predicate MovedUp(files: Files, shifted: Files) {
    && shifted.Keys <= {2, 3}
    && (2 in shifted <==> 1 in files) && (2 in shifted ==> shifted[2] == files[1])
    && (3 in shifted <==> 2 in files) && (3 in shifted ==> shifted[3] == files[2])
  }

  /** When every rename works, slot 1 is freed and each file moves up one slot. */
  lemma ShiftMovesUp(files: Files)
    requires NoGaps(files)
    ensures var shifted := Shift(files, RETAINED - 1, AllWork);
            && NeverClobbers(files, RETAINED - 1, AllWork)
            && MovedUp(files, shifted)
  {
    var once := Move(files, 2, AllWork);
    var twice := Move(once, 1, AllWork);
    assert Shift(files, 2, AllWork) == Shift(once, 1, AllWork) == twice;
    assert 2 !in once;
    assert NeverClobbers(once, 1, AllWork);
    assert 1 !in twice;
    forall k | k in twice ensures k in {2, 3} {
      assert k == 2 || k in once;
      assert k == 2 || k == 3 || k in files;
    }
  }

  /** The retained text is the end of the history, and all of it until file 3 exists. */
  ghost predicate Sound(log: Log, history: Bytes) {
    && NoGaps(log.files)
    && IsSuffix(Kept(log), history)
    && (RETAINED !in log.files ==> Kept(log) == history)
  }

  lemma RotateKeepsNoGaps(log: Log)
    requires NoGaps(log.files)
    ensures NoGaps(Rotate(log, AllWork).files) && SafeRotation(log, AllWork)
    ensures Rotate(log, AllWork) != log ==> (RETAINED in Rotate(log, AllWork).files <==> 2 in log.files)
  {
    ShiftMovesUp(log.files);
  }

  lemma RotateKeepsSound(log: Log, history: Bytes)
    requires Sound(log, history)
    ensures Sound(Rotate(log, AllWork), history)
  {
    var rotated := Rotate(log, AllWork);
    if rotated != log {
      RotateKeepsNoGaps(log);
      RotateKeepsSuffix(log, AllWork);
      SuffixTransitive(Kept(rotated), Kept(log), history);
      if RETAINED !in rotated.files {
        NothingDropped(log);
      }
    }
  }

  lemma NothingDropped(log: Log)
    requires NoGaps(log.files) && 2 !in log.files && 3 !in log.files
    requires log.current.Some? && |log.current.value| >= MAX_BYTES
    ensures Kept(Rotate(log, AllWork)) == Kept(log)
  {
    ShiftMovesUp(log.files);
    var files := Shift(log.files, RETAINED - 1, AllWork);
    JoinedPut(files, log.current.value, RETAINED);
    assert Joined(files, 0) == [] && Joined(files, 1) == [] && Joined(log.files, 0) == [];
    assert Joined(log.files, 3) == Joined(log.files, 2) == Joined(log.files, 1);
  }

  /** One append or writability check (an append of nothing) in a run. */
  lemma StepKeepsSound(log: Log, history: Bytes, line: Bytes)
    requires Sound(log, history)
    ensures Sound(Appended(log, line, AllWork), history + line)
  {
    RotateKeepsSound(log, history);
    var rotated := Rotate(log, AllWork);
    SuffixPlus(Kept(rotated), history, line);
    KeptPlus(rotated, line);
  }

  lemma KeptPlus(log: Log, line: Bytes)
    ensures Kept(log.(current := Some(Content(log.current) + line))) == Kept(log) + line
  {
  }

  function Flatten(lines: seq<Bytes>): Bytes
    decreases |lines|
  {
    if lines == [] then [] else Flatten(lines[..|lines| - 1]) + lines[|lines| - 1]
  }

  /** The log after a sequence of appends and checks, each a written line or nothing. */
  function AfterAll(lines: seq<Bytes>): Log
    decreases |lines|
  {
    if lines == [] then Log(map[], None) else Appended(AfterAll(lines[..|lines| - 1]), lines[|lines| - 1], AllWork)
  }

  lemma {:induction false} RunsKeepSound(lines: seq<Bytes>)
    ensures Sound(AfterAll(lines), Flatten(lines))
    decreases |lines|
  {
    if lines == [] {
      assert Joined(map[], 0) == [];
      assert Joined(map[], 1) == Joined(map[], 2) == Joined(map[], 3) == [];
    } else {
      RunsKeepSound(lines[..|lines| - 1]);
      StepKeepsSound(AfterAll(lines[..|lines| - 1]), Flatten(lines[..|lines| - 1]), lines[|lines| - 1]);
    }
  }

  lemma {:induction false} FullFiles(files: Files, n: nat)
    requires NoGaps(files) && n <= RETAINED && (n > 0 ==> n in files)
    ensures |Joined(files, n)| >= n * MAX_BYTES
    decreases n
  {
    if n > 0 {
      FullFiles(files, n - 1);
    }
  }

  /** In every run the last three full files' worth of history is still there. */
  lemma RetainedEnough(lines: seq<Bytes>)
    ensures IsSuffix(Kept(AfterAll(lines)), Flatten(lines))
    ensures |Kept(AfterAll(lines))| >= Min(|Flatten(lines)|, RETAINED * MAX_BYTES)
  {
    RunsKeepSound(lines);
    var log := AfterAll(lines);
    if RETAINED in log.files {
      FullFiles(log.files, RETAINED);
    }
  }
}
