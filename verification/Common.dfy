/** Outcomes shared by the modelled components, and the text order that SQLite's
    BINARY collation and Rust's `str` comparison agree on. */
module Common {

  datatype Option<+T> = None | Some(value: T)

  /** The `DbError` variants that the modelled operations can produce. */
  datatype DbError =
    | QueryFailed(context: string)
    | NotFound(entity: string, id: string)
    | Validation(message: string)

  datatype Result<+T> = Ok(value: T) | Err(error: DbError)

  predicate NoDup<T(==)>(s: seq<T>) {
    forall i, j :: 0 <= i < j < |s| ==> s[i] != s[j]
  }

  function Min(a: nat, b: nat): nat {
    if a <= b then a else b
  }

  const I32_BOUND := 0x8000_0000
  const U32_BOUND := 0x1_0000_0000
  const I64_BOUND := 0x8000_0000_0000_0000
  const U64_BOUND := 0x1_0000_0000_0000_0000

  /** Rust's `as i32` on a non-negative integer: keep the low 32 bits. */
  function AsI32(x: nat): int {
    if x < I32_BOUND then x
    else
      var low := x % U32_BOUND;
      if low < I32_BOUND then low else low - U32_BOUND
  }

  /** Rust's `as i64` on a non-negative integer: keep the low 64 bits. */
  function AsI64(x: nat): int {
    if x < I64_BOUND then x
    else
      var low := x % U64_BOUND;
      if low < I64_BOUND then low else low - U64_BOUND
  }
}

/** Lexicographic order on text. */
module TextOrder {

  predicate Less(a: string, b: string)
    decreases |a|
  {
    b != [] && (a == [] || a[0] < b[0] || (a[0] == b[0] && Less(a[1..], b[1..])))
  }

  lemma Irreflexive(a: string)
    ensures !Less(a, a)
    decreases |a|
  {
    if a != [] {
      Irreflexive(a[1..]);
    }
  }

  lemma {:induction false} Transitive(a: string, b: string, c: string)
    requires Less(a, b) && Less(b, c)
    ensures Less(a, c)
    decreases |a|
  {
    if a != [] && a[0] == b[0] && b[0] == c[0] {
      Transitive(a[1..], b[1..], c[1..]);
    }
  }

  lemma {:induction false} Asymmetric(a: string, b: string)
    requires Less(a, b)
    ensures !Less(b, a)
    decreases |a|
  {
    if a != [] && a[0] == b[0] {
      Asymmetric(a[1..], b[1..]);
    }
  }

  lemma {:induction false} Total(a: string, b: string)
    ensures Less(a, b) || a == b || Less(b, a)
    decreases |a|
  {
    if a != [] && b != [] && a[0] == b[0] {
      Total(a[1..], b[1..]);
      assert a == [a[0]] + a[1..] && b == [b[0]] + b[1..];
    }
  }
}
