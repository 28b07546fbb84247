/** Text helpers of the Rust standard library that the filters rely on. */
module RustText {
  import opened Common

  /** Unicode White_Space, as in `char::is_whitespace`. */
  predicate IsWhitespace(c: char) {
    || '\t' <= c <= '\r'
    || c in {' ', '\U{0085}', '\U{00A0}', '\U{1680}', '\U{2028}', '\U{2029}', '\U{202F}', '\U{205F}', '\U{3000}'}
    || '\U{2000}' <= c <= '\U{200A}'
  }

  function TrimStart(s: string): string {
    if s != [] && IsWhitespace(s[0]) then TrimStart(s[1..]) else s
  }

  function TrimEnd(s: string): string {
    if s != [] && IsWhitespace(s[|s| - 1]) then TrimEnd(s[..|s| - 1]) else s
  }

  /** `str::trim` */
  function Trim(s: string): string {
    TrimEnd(TrimStart(s))
  }

  predicate Blank(s: string) {
    Trim(s) == []
  }

  /** `as_deref().map(str::trim).filter(|v| !v.is_empty())` */
  function Active(o: Option<string>): Option<string> {
    if o.None? || Blank(o.value) then None else Some(Trim(o.value))
  }

  /** `str::len`: the number of UTF-8 bytes. */
  function ByteLen(s: string): nat {
    if s == [] then 0
    else
      var c := s[0] as int;
      (if c < 0x80 then 1 else if c < 0x800 then 2 else if c < 0x10000 then 3 else 4) + ByteLen(s[1..])
  }

  /** Unicode case mapping stays abstract. */
  datatype CaseMap = CaseMap(lower: string -> string, upper: string -> string)
}
