/** The file names of the body store. */
module BodyNames {

  function Digit(d: nat): char
    requires d < 10
  {
    '0' + d as char
  }

  /** Decimal rendering, as in `format!("{n}")`. */
  function Decimal(n: nat): (s: string)
    ensures s != [] && forall c :: c in s ==> '0' <= c <= '9'
  {
    if n < 10 then [Digit(n)] else Decimal(n / 10) + [Digit(n % 10)]
  }

  lemma {:induction false} DecimalInjective(a: nat, b: nat)
    requires Decimal(a) == Decimal(b)
    ensures a == b
    decreases a
  {
    var s, t := Decimal(a), Decimal(b);
    assert s[|s| - 1] == Digit(a % 10) && t[|t| - 1] == Digit(b % 10);
    if a >= 10 && b >= 10 {
      assert s[..|s| - 1] == Decimal(a / 10) && t[..|t| - 1] == Decimal(b / 10);
      DecimalInjective(a / 10, b / 10);
    }
  }

  function FinalName(kind: string): string {
    kind + ".body"
  }

  /** `{file_name}.tmp-{pid}-{sequence}` */
  function TempName(kind: string, pid: nat, sequence: nat): string {
    FinalName(kind) + ".tmp" + "-" + Decimal(pid) + "-" + Decimal(sequence)
  }

  predicate IsFinal(file: string) {
    |file| >= 5 && file[|file| - 5..] == ".body"
  }

  lemma FinalNames(kind: string, other: string)
    ensures IsFinal(FinalName(kind))
    ensures FinalName(kind) == FinalName(other) ==> kind == other
  {
    assert FinalName(kind)[..|FinalName(kind)| - 5] == kind;
    assert FinalName(other)[..|FinalName(other)| - 5] == other;
    assert FinalName(kind)[|kind|..] == ".body";
  }

  /** A temp name ends in a digit, a final name in a letter. */
  lemma TempIsNotFinal(kind: string, pid: nat, sequence: nat)
    ensures !IsFinal(TempName(kind, pid, sequence))
  {
    var t := TempName(kind, pid, sequence);
    var d := Decimal(sequence);
    assert t[|t| - 1] == d[|d| - 1];
    assert d[|d| - 1] in d;
    if IsFinal(t) {
      assert t[|t| - 1] == t[|t| - 5..][4];
    }
  }

  lemma SplitAtDash(a: string, x: string, b: string, y: string)
    requires a + "-" + x == b + "-" + y && '-' !in x && '-' !in y
    ensures a == b && x == y
  {
    var s := a + "-" + x;
    assert s == b + "-" + y;
    assert s[|a|] == '-' && s[|b|] == '-';
    assert forall i :: |a| < i < |s| ==> s[i] == x[i - |a| - 1];
    assert forall i :: |b| < i < |s| ==> s[i] == y[i - |b| - 1];
    assert |a| == |b|;
    assert s[..|a|] == a && s[..|b|] == b;
    assert s[|a| + 1..] == x && s[|b| + 1..] == y;
  }

  /** Temp names of different kinds, processes or sequence numbers differ. */
  lemma TempNamesDiffer(kind: string, pid: nat, sequence: nat, kind': string, pid': nat, sequence': nat)
    requires TempName(kind, pid, sequence) == TempName(kind', pid', sequence')
    ensures kind == kind' && pid == pid' && sequence == sequence'
  {
    var head, head' := FinalName(kind) + ".tmp", FinalName(kind') + ".tmp";
    SplitAtDash(head + "-" + Decimal(pid), Decimal(sequence), head' + "-" + Decimal(pid'), Decimal(sequence'));
    SplitAtDash(head, Decimal(pid), head', Decimal(pid'));
    DecimalInjective(sequence, sequence');
    DecimalInjective(pid, pid');
    assert head[..|head| - 9] == kind && head'[..|head'| - 9] == kind';
  }

  /** A file of the store, by what its name says. */
  datatype File = Final(kind: string) | Temp(kind: string, pid: nat, sequence: nat)

  function Render(f: File): string {
    match f
    case Final(kind) => FinalName(kind)
    case Temp(kind, pid, sequence) => TempName(kind, pid, sequence)
  }

  /** Different files have different names: temp names collide neither with each
      other nor with a final name. */
  lemma RenderInjective(a: File, b: File)
    requires Render(a) == Render(b)
    ensures a == b
  {
    match (a, b)
    case (Final(k), Final(k')) => FinalNames(k, k');
    case (Temp(k, p, s), Temp(k', p', s')) => TempNamesDiffer(k, p, s, k', p', s');
    case (Final(k), Temp(k', p', s')) =>
      FinalNames(k, k);
      TempIsNotFinal(k', p', s');
    case (Temp(k', p', s'), Final(k)) =>
      FinalNames(k, k);
      TempIsNotFinal(k', p', s');
  }

  /** `validate_safe_segment` */
  predicate SafeSegment(s: string) {
    && s != "" && s != "." && s != ".."
    && (exists i :: 0 <= i < |s| && IsAlnum(s[i]))
    && (forall i :: 0 <= i < |s| ==> IsAlnum(s[i]) || s[i] in {'-', '_', '.'})
  }

  predicate IsAlnum(c: char) {
    '0' <= c <= '9' || 'a' <= c <= 'z' || 'A' <= c <= 'Z'
  }

  /** A file's path below the body directory. */
  function PathOf(session: string, f: File): string {
    session + "/" + Render(f)
  }

  /** A safe segment has no separator, so a path determines its session and its file. */
  lemma PathInjective(session: string, f: File, session': string, f': File)
    requires SafeSegment(session) && SafeSegment(session') && PathOf(session, f) == PathOf(session', f')
    ensures session == session' && f == f'
  {
    var path := PathOf(session, f);
    assert path[|session|] == '/' && path[|session'|] == '/';
    assert forall i :: 0 <= i < |session| ==> path[i] == session[i] && session[i] != '/';
    assert forall i :: 0 <= i < |session'| ==> path[i] == session'[i] && session'[i] != '/';
    assert |session| == |session'|;
    assert path[..|session|] == session && path[..|session|] == session';
    assert path[|session| + 1..] == Render(f) && path[|session| + 1..] == Render(f');
    RenderInjective(f, f');
  }
}
