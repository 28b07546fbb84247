/** SQLite's `LIKE ... ESCAPE '\'` and the keyword escaping used for it. */
module LikePattern {

  /** `LIKE` and SQLite's `LOWER` fold ASCII letters only. */
  function FoldChar(c: char): char {
    if 'A' <= c <= 'Z' then (c as int + 32) as char else c
  }

  function Fold(s: string): (r: string)
    ensures |r| == |s| && forall i :: 0 <= i < |s| ==> r[i] == FoldChar(s[i])
  {
    if s == [] then [] else [FoldChar(s[0])] + Fold(s[1..])
  }

  /** Does `text` match `pattern`, with `\` as the escape character? */
  predicate Like(pattern: string, text: string)
    decreases |pattern|, |text|
  {
    if pattern == [] then text == []
    else if pattern[0] == '%' then
      Like(pattern[1..], text) || (text != [] && Like(pattern, text[1..]))
    else if pattern[0] == '\\' then
      |pattern| >= 2 && text != [] && FoldChar(pattern[1]) == FoldChar(text[0]) && Like(pattern[2..], text[1..])
    else
      text != [] && (pattern[0] == '_' || FoldChar(pattern[0]) == FoldChar(text[0])) && Like(pattern[1..], text[1..])
  }

  /** Rust's `str::replace` of one character by a string. */
  function Replace(s: string, c: char, put: string): string {
    if s == [] then [] else (if s[0] == c then put else [s[0]]) + Replace(s[1..], c, put)
  }

  /** `escape_like_pattern`: three passes, backslash first. */
  function Escape(s: string): string {
    Replace(Replace(Replace(s, '\\', "\\\\"), '%', "\\%"), '_', "\\_")
  }

  function EscapeChar(c: char): string {
    if c in {'\\', '%', '_'} then ['\\', c] else [c]
  }

  /** The character-by-character form. */
  function EscapeEach(s: string): string {
    if s == [] then [] else EscapeChar(s[0]) + EscapeEach(s[1..])
  }

  predicate OccursAt(text: string, k: string, i: nat) {
    i + |k| <= |text| && text[i..i + |k|] == k
  }

  predicate Contains(text: string, k: string) {
    exists i: nat :: i <= |text| && OccursAt(text, k, i)
  }

  /** `text` starts with `k`, ignoring ASCII case. */
  ghost predicate StartsWith(text: string, k: string) {
    |k| <= |text| && forall j :: 0 <= j < |k| ==> FoldChar(text[j]) == FoldChar(k[j])
  }

  lemma {:induction false} ReplaceConcat(a: string, b: string, c: char, put: string)
    ensures Replace(a + b, c, put) == Replace(a, c, put) + Replace(b, c, put)
    decreases |a|
  {
    if a == [] {
      assert a + b == b;
    } else {
      assert (a + b)[1..] == a[1..] + b;
      ReplaceConcat(a[1..], b, c, put);
    }
  }

  lemma ReplaceShort(a: char, b: char, c: char, put: string)
    ensures Replace([a], c, put) == if a == c then put else [a]
    ensures Replace([a, b], c, put) == Replace([a], c, put) + Replace([b], c, put)
  {
    assert [a, b] == [a] + [b];
    ReplaceConcat([a], [b], c, put);
    assert put + [] == put;
  }

  /** The three passes do what one pass over the characters would do. */
  lemma {:induction false} EscapeInOnePass(s: string)
    ensures Escape(s) == EscapeEach(s)
    decreases |s|
  {
    if s != [] {
      var head, rest := [s[0]], s[1..];
      assert s == head + rest;
      var h1 := Replace(head, '\\', "\\\\");
      var h2 := Replace(h1, '%', "\\%");
      ReplaceConcat(head, rest, '\\', "\\\\");
      ReplaceConcat(h1, Replace(rest, '\\', "\\\\"), '%', "\\%");
      ReplaceConcat(h2, Replace(Replace(rest, '\\', "\\\\"), '%', "\\%"), '_', "\\_");
      EscapeInOnePass(rest);
      ReplaceShort(s[0], s[0], '\\', "\\\\");
      ReplaceShort(s[0], s[0], '%', "\\%");
      ReplaceShort(s[0], s[0], '_', "\\_");
      ReplaceShort('\\', s[0], '_', "\\_");
    }
  }

  /** An escaped keyword consumes exactly its own characters. */
  lemma {:induction false} EscapedPrefix(k: string, rest: string, text: string)
    ensures Like(EscapeEach(k) + rest, text) <==> StartsWith(text, k) && Like(rest, text[|k|..])
    decreases |k|
  {
    if k == [] {
      assert EscapeEach(k) + rest == rest && text[0..] == text;
    } else {
      var p := EscapeEach(k[1..]) + rest;
      assert EscapeEach(k) + rest == EscapeChar(k[0]) + p;
      EscapedChar(k[0], p, text);
      if text != [] {
        EscapedPrefix(k[1..], rest, text[1..]);
        StartsWithStep(text, k);
        if StartsWith(text, k) {
          assert text[1..][|k| - 1..] == text[|k|..];
        }
      }
    }
  }

  lemma EscapedChar(c: char, p: string, text: string)
    ensures Like(EscapeChar(c) + p, text) <==> text != [] && FoldChar(c) == FoldChar(text[0]) && Like(p, text[1..])
  {
    assert (EscapeChar(c) + p)[|EscapeChar(c)|..] == p;
  }

  lemma StartsWithStep(text: string, k: string)
    requires text != [] && k != []
    ensures StartsWith(text, k) <==> FoldChar(text[0]) == FoldChar(k[0]) && StartsWith(text[1..], k[1..])
  {
    if FoldChar(text[0]) == FoldChar(k[0]) && StartsWith(text[1..], k[1..]) {
      forall j | 0 <= j < |k|
        ensures FoldChar(text[j]) == FoldChar(k[j])
      {
        assert j > 0 ==> text[j] == text[1..][j - 1] && k[j] == k[1..][j - 1];
      }
    }
  }

  lemma StartsWithIsOccurrence(text: string, k: string, i: nat)
    requires i <= |text|
    ensures StartsWith(text[i..], k) <==> OccursAt(Fold(text), Fold(k), i)
  {
    if OccursAt(Fold(text), Fold(k), i) {
      forall j | 0 <= j < |k|
        ensures FoldChar(text[i..][j]) == FoldChar(k[j])
      {
        assert Fold(text)[i..i + |k|][j] == Fold(k)[j];
      }
    }
  }

  lemma {:induction false} PercentSkips(q: string, text: string)
    ensures Like("%" + q, text) <==> exists i :: 0 <= i <= |text| && Like(q, text[i..])
    decreases |text|
  {
    assert ("%" + q)[1..] == q;
    assert text[0..] == text;
    if text != [] {
      PercentSkips(q, text[1..]);
      if i :| 0 <= i <= |text[1..]| && Like(q, text[1..][i..]) {
        assert text[1..][i..] == text[i + 1..];
      }
      if i :| 1 <= i <= |text| && Like(q, text[i..]) {
        assert text[i..] == text[1..][i - 1..];
      }
    }
  }

  lemma PercentMatchesAll(text: string)
    ensures Like("%", text)
    decreases |text|
  {
    if text != [] {
      PercentMatchesAll(text[1..]);
    }
  }

  /** `'%' + escape(keyword) + '%'` matches exactly the texts that contain the
      keyword literally, up to the ASCII case folding that LIKE applies. */
  lemma EscapedKeywordIsLiteral(k: string, text: string)
    ensures Like("%" + Escape(k) + "%", text) <==> Contains(Fold(text), Fold(k))
  {
    EscapeInOnePass(k);
    var q := EscapeEach(k) + "%";
    assert "%" + Escape(k) + "%" == "%" + q;
    PercentSkips(q, text);
    forall i | 0 <= i <= |text|
      ensures Like(q, text[i..]) <==> OccursAt(Fold(text), Fold(k), i)
    {
      EscapedPrefix(k, "%", text[i..]);
      StartsWithIsOccurrence(text, k, i);
      if StartsWith(text[i..], k) {
        PercentMatchesAll(text[i..][|k|..]);
      }
    }
    if i: nat :| i <= |Fold(text)| && OccursAt(Fold(text), Fold(k), i) {
      assert Like(q, text[i..]);
    }
  }

  lemma FoldIdempotent(s: string)
    ensures Fold(Fold(s)) == Fold(s)
  {
  }
}
