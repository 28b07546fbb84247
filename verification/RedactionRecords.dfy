/** What the redaction records give away: for documents with unambiguous keys exactly
    which hidden values are null. */
module RedactionRecords {
  import opened Common
  import opened BodyNames
  import opened Redaction

  function Count(records: seq<Record>, x: Record): nat {
    multiset(records)[x]
  }

  /** `q` is the path `p` or lies below it. */
  predicate Under(q: string, p: string) {
    p <= q && (|q| == |p| || q[|p|] in {'.', '['})
  }

  predicate PlainKey(key: string) {
    '.' !in key && '[' !in key
  }

  /** Along unclassified keys, the keys of an object are distinct and have no path characters. */
  ghost predicate Plain(rd: Redactor, v: Json) {
    match v
    case Object(fields) =>
      && (forall i :: 0 <= i < |fields| ==> PlainKey(fields[i].key))
      && (forall i, j :: 0 <= i < j < |fields| ==> fields[i].key != fields[j].key)
      && (forall i :: 0 <= i < |fields| && rd.classify(fields[i].key).None? ==> Plain(rd, fields[i].value))
    case Array(items) => forall i :: 0 <= i < |items| ==> Plain(rd, items[i])
    case _ => true
  }

  // ---- Different children have different paths ----

  lemma KeysApart(path: string, k: string, l: string, q: string)
    requires PlainKey(k) && PlainKey(l) && Under(q, path + "." + k) && Under(q, path + "." + l)
    ensures k == l
  {
    var n := |path| + 1;
    assert forall i :: 0 <= i < |k| ==> q[n + i] == k[i] && k[i] != '.' && k[i] != '[';
    assert forall i :: 0 <= i < |l| ==> q[n + i] == l[i] && l[i] != '.' && l[i] != '[';
    assert |k| == |l|;
    assert k == q[n..n + |k|] && l == q[n..n + |l|];
  }

  lemma IndexesApart(path: string, i: nat, j: nat, q: string)
    requires Under(q, path + "[" + Decimal(i) + "]") && Under(q, path + "[" + Decimal(j) + "]")
    ensures i == j
  {
    var n, d, e := |path| + 1, Decimal(i), Decimal(j);
    assert path + "[" + d + "]" == path + "[" + (d + "]") && path + "[" + e + "]" == path + "[" + (e + "]");
    assert q[n..n + |d| + 1] == d + "]" && q[n..n + |e| + 1] == e + "]";
    DigitsApart(q[n..], d, e);
    DecimalInjective(i, j);
  }

  /** Digits up to a bracket are determined by the text. */
  lemma DigitsApart(q: string, d: string, e: string)
    requires d + "]" <= q && e + "]" <= q && ']' !in d && ']' !in e
    ensures d == e
  {
    assert q[|d|] == ']' && q[|e|] == ']';
    assert forall m :: 0 <= m < |d| ==> q[m] == d[m] && d[m] in d;
    assert forall m :: 0 <= m < |e| ==> q[m] == e[m] && e[m] in e;
    assert |d| == |e|;
    assert d == q[..|d|] && e == q[..|e|];
  }

  lemma ChildUnder(q: string, path: string, tail: string)
    requires tail != [] && tail[0] in {'.', '['} && Under(q, path + tail)
    ensures Under(q, path)
  {
    assert q[..|path|] == path && q[|path|] == tail[0];
  }

  // ---- Where the records of two documents can differ ----

  function FieldDiff(rd: Redactor, f: Field, g: Field, path: string, x: Record): int {
    Count(RedactOne(rd, f, path).1, x) - Count(RedactOne(rd, g, path).1, x)
  }

  function ItemDiff(rd: Redactor, v: Json, w: Json, path: string, i: nat, x: Record): int {
    var at := path + "[" + Decimal(i) + "]";
    Count(Redact(rd, v, at).1, x) - Count(Redact(rd, w, at).1, x)
  }

  function Sum(d: nat -> int, n: nat): int {
    if n == 0 then 0 else Sum(d, n - 1) + d(n - 1)
  }

  lemma {:induction false} SumOfOne(d: nat -> int, n: nat, j: nat)
    requires forall i :: 0 <= i < n && i != j ==> d(i) == 0
    ensures Sum(d, n) == if j < n then d(j) else 0
    decreases n
  {
    if n > 0 {
      SumOfOne(d, n - 1, j);
    }
  }

  /** The difference of the first `n` fields is the sum of the fields' differences. */
  lemma {:induction false} FieldsDiff(rd: Redactor, a: Json, b: Json, path: string, n: nat, x: Record, d: nat -> int)
    requires a.Object? && b.Object? && n <= |a.fields| && n <= |b.fields|
    requires forall i :: 0 <= i < n ==> d(i) == FieldDiff(rd, a.fields[i], b.fields[i], path, x)
    ensures Count(RedactFields(rd, a, path, n).1, x) - Count(RedactFields(rd, b, path, n).1, x) == Sum(d, n)
    decreases n
  {
    if n > 0 {
      FieldsDiff(rd, a, b, path, n - 1, x, d);
      FieldsPlus(rd, a, path, n, x);
      FieldsPlus(rd, b, path, n, x);
    }
  }

  lemma {:induction false} FieldsPlus(rd: Redactor, v: Json, path: string, n: nat, x: Record)
    requires v.Object? && 0 < n <= |v.fields|
    ensures Count(RedactFields(rd, v, path, n).1, x)
            == Count(RedactFields(rd, v, path, n - 1).1, x) + Count(RedactOne(rd, v.fields[n - 1], path).1, x)
  {
    CountConcat(RedactFields(rd, v, path, n - 1).1, RedactOne(rd, v.fields[n - 1], path).1, x);
  }

  lemma {:induction false} ItemsPlus(rd: Redactor, v: Json, path: string, n: nat, x: Record)
    requires v.Array? && 0 < n <= |v.items|
    ensures Count(RedactItems(rd, v, path, n).1, x)
            == Count(RedactItems(rd, v, path, n - 1).1, x)
               + Count(Redact(rd, v.items[n - 1], path + "[" + Decimal(n - 1) + "]").1, x)
  {
    CountConcat(RedactItems(rd, v, path, n - 1).1, Redact(rd, v.items[n - 1], path + "[" + Decimal(n - 1) + "]").1, x);
  }

  lemma {:induction false} ItemsDiff(rd: Redactor, a: Json, b: Json, path: string, n: nat, x: Record, d: nat -> int)
    requires a.Array? && b.Array? && n <= |a.items| && n <= |b.items|
    requires forall i :: 0 <= i < n ==> d(i) == ItemDiff(rd, a.items[i], b.items[i], path, i, x)
    ensures Count(RedactItems(rd, a, path, n).1, x) - Count(RedactItems(rd, b, path, n).1, x) == Sum(d, n)
    decreases n
  {
    if n > 0 {
      ItemsDiff(rd, a, b, path, n - 1, x, d);
      ItemsPlus(rd, a, path, n, x);
      ItemsPlus(rd, b, path, n, x);
    }
  }

  lemma CountConcat(p: seq<Record>, q: seq<Record>, x: Record)
    ensures Count(p + q, x) == Count(p, x) + Count(q, x)
  {
  }

  /** The record of a classified key carries the key's path. */
  lemma HiddenDiff(rd: Redactor, f: Field, g: Field, path: string, x: Record)
    requires SameField(rd, f, g) && rd.classify(f.key).Some? && FieldDiff(rd, f, g, path, x) != 0
    ensures x.path == path + "." + f.key
  {
    if Count(RedactOne(rd, f, path).1, x) > 0 {
      FieldRecord(rd, f.value, path + "." + f.key, rd.classify(f.key).value, x);
    } else {
      FieldRecord(rd, g.value, path + "." + f.key, rd.classify(f.key).value, x);
    }
  }

  lemma FieldRecord(rd: Redactor, v: Json, path: string, c: Classification, x: Record)
    requires Count(RedactField(rd, v, path, c).1, x) > 0
    ensures x.path == path
  {
    assert x in RedactField(rd, v, path, c).1;
  }

  /** Records that differ between documents with the same visible part lie below the path. */
  lemma {:induction false} DiffUnder(rd: Redactor, a: Json, b: Json, path: string, x: Record)
    requires SameVisible(rd, a, b) && Count(Redact(rd, a, path).1, x) != Count(Redact(rd, b, path).1, x)
    ensures Under(x.path, path)
    decreases a, 2
  {
    if a.Object? && b.Object? {
      var j := DifferentField(rd, a, b, path, |a.fields|, x);
      FieldUnder(rd, a, b, path, j, x);
      FieldPath(x.path, path, a.fields[j].key);
    } else if a.Array? && b.Array? {
      var j := DifferentItem(rd, a, b, path, |a.items|, x);
      DiffUnder(rd, a.items[j], b.items[j], path + "[" + Decimal(j) + "]", x);
      ItemPath(x.path, path, j);
    }
  }

  lemma FieldPath(q: string, path: string, key: string)
    requires Under(q, path + "." + key)
    ensures Under(q, path)
  {
    assert path + ("." + key) == path + "." + key;
    ChildUnder(q, path, "." + key);
  }

  lemma ItemPath(q: string, path: string, j: nat)
    requires Under(q, path + "[" + Decimal(j) + "]")
    ensures Under(q, path)
  {
    assert path + ("[" + Decimal(j) + "]") == path + "[" + Decimal(j) + "]";
    ChildUnder(q, path, "[" + Decimal(j) + "]");
  }

  lemma {:induction false} FieldUnder(rd: Redactor, a: Json, b: Json, path: string, j: nat, x: Record)
    requires a.Object? && b.Object? && SameVisible(rd, a, b) && j < |a.fields|
    requires FieldDiff(rd, a.fields[j], b.fields[j], path, x) != 0
    ensures Under(x.path, path + "." + a.fields[j].key)
    decreases a, 1
  {
    var f, g := a.fields[j], b.fields[j];
    assert SameField(rd, f, g);
    if rd.classify(f.key).Some? {
      HiddenDiff(rd, f, g, path, x);
    } else {
      DiffUnder(rd, f.value, g.value, path + "." + f.key, x);
    }
  }

  lemma {:induction false} SumNonzero(d: nat -> int, n: nat) returns (j: nat)
    requires Sum(d, n) != 0
    ensures j < n && d(j) != 0
    decreases n
  {
    if d(n - 1) != 0 {
      return n - 1;
    }
    j := SumNonzero(d, n - 1);
  }

  function FieldDiffs(rd: Redactor, a: Json, b: Json, path: string, x: Record): nat -> int
    requires a.Object? && b.Object?
  {
    (i: nat) => if i < |a.fields| && i < |b.fields| then FieldDiff(rd, a.fields[i], b.fields[i], path, x) else 0
  }

  function ItemDiffs(rd: Redactor, a: Json, b: Json, path: string, x: Record): nat -> int
    requires a.Array? && b.Array?
  {
    (i: nat) => if i < |a.items| && i < |b.items| then ItemDiff(rd, a.items[i], b.items[i], path, i, x) else 0
  }

  lemma {:induction false} DifferentField(rd: Redactor, a: Json, b: Json, path: string, n: nat, x: Record)
    returns (j: nat)
    requires a.Object? && b.Object? && n <= |a.fields| && n <= |b.fields|
    requires Count(RedactFields(rd, a, path, n).1, x) != Count(RedactFields(rd, b, path, n).1, x)
    ensures j < n && FieldDiff(rd, a.fields[j], b.fields[j], path, x) != 0
  {
    FieldsDiff(rd, a, b, path, n, x, FieldDiffs(rd, a, b, path, x));
    j := SumNonzero(FieldDiffs(rd, a, b, path, x), n);
  }

  lemma {:induction false} DifferentItem(rd: Redactor, a: Json, b: Json, path: string, n: nat, x: Record)
    returns (j: nat)
    requires a.Array? && b.Array? && n <= |a.items| && n <= |b.items|
    requires Count(RedactItems(rd, a, path, n).1, x) != Count(RedactItems(rd, b, path, n).1, x)
    ensures j < n && ItemDiff(rd, a.items[j], b.items[j], path, j, x) != 0
  {
    ItemsDiff(rd, a, b, path, n, x, ItemDiffs(rd, a, b, path, x));
    j := SumNonzero(ItemDiffs(rd, a, b, path, x), n);
  }

  // ---- Equal records: equal nulls ----

  ghost predicate SameCounts(p: seq<Record>, q: seq<Record>) {
    forall x :: Count(p, x) == Count(q, x)
  }

  /** If the records of two objects agree, the records of each field do. */
  lemma {:induction false} FieldsAgree(rd: Redactor, a: Json, b: Json, path: string, j: nat, x: Record)
    requires a.Object? && b.Object? && SameVisible(rd, a, b) && Plain(rd, a) && j < |a.fields|
    requires Count(Redact(rd, a, path).1, x) == Count(Redact(rd, b, path).1, x)
    ensures FieldDiff(rd, a.fields[j], b.fields[j], path, x) == 0
  {
    if FieldDiff(rd, a.fields[j], b.fields[j], path, x) != 0 {
      FieldUnder(rd, a, b, path, j, x);
      forall i | 0 <= i < |a.fields| && i != j
        ensures FieldDiff(rd, a.fields[i], b.fields[i], path, x) == 0
      {
        if FieldDiff(rd, a.fields[i], b.fields[i], path, x) != 0 {
          FieldUnder(rd, a, b, path, i, x);
          KeysApart(path, a.fields[i].key, a.fields[j].key, x.path);
          assert false;
        }
      }
      var d := FieldDiffs(rd, a, b, path, x);
      FieldsDiff(rd, a, b, path, |a.fields|, x, d);
      SumOfOne(d, |a.fields|, j);
      assert false;
    }
  }

  lemma {:induction false} ItemsAgree(rd: Redactor, a: Json, b: Json, path: string, j: nat, x: Record)
    requires a.Array? && b.Array? && SameVisible(rd, a, b) && j < |a.items|
    requires Count(Redact(rd, a, path).1, x) == Count(Redact(rd, b, path).1, x)
    ensures ItemDiff(rd, a.items[j], b.items[j], path, j, x) == 0
  {
    if ItemDiff(rd, a.items[j], b.items[j], path, j, x) != 0 {
      DiffUnder(rd, a.items[j], b.items[j], path + "[" + Decimal(j) + "]", x);
      forall i | 0 <= i < |a.items| && i != j
        ensures ItemDiff(rd, a.items[i], b.items[i], path, i, x) == 0
      {
        if ItemDiff(rd, a.items[i], b.items[i], path, i, x) != 0 {
          DiffUnder(rd, a.items[i], b.items[i], path + "[" + Decimal(i) + "]", x);
          IndexesApart(path, i, j, x.path);
          assert false;
        }
      }
      var d := ItemDiffs(rd, a, b, path, x);
      ItemsDiff(rd, a, b, path, |a.items|, x, d);
      SumOfOne(d, |a.items|, j);
      assert false;
    }
  }

  /** Documents with the same visible part and the same records have the same nulls. */
  lemma {:induction false} NullsShow(rd: Redactor, a: Json, b: Json, path: string)
    requires SameVisible(rd, a, b) && Plain(rd, a) && SameCounts(Redact(rd, a, path).1, Redact(rd, b, path).1)
    ensures SameRecords(rd, a, b)
    decreases a, 1
  {
    if a.Object? && b.Object? {
      forall i | 0 <= i < |a.fields|
        ensures SameField(rd, a.fields[i], b.fields[i]) && FieldNulls(rd, a.fields[i], b.fields[i])
      {
        forall x
          ensures FieldDiff(rd, a.fields[i], b.fields[i], path, x) == 0
        {
          FieldsAgree(rd, a, b, path, i, x);
        }
        FieldNullsShow(rd, a, b, path, i);
      }
    } else if a.Array? && b.Array? {
      forall i | 0 <= i < |a.items|
        ensures SameRecords(rd, a.items[i], b.items[i])
      {
        var at := path + "[" + Decimal(i) + "]";
        forall x
          ensures Count(Redact(rd, a.items[i], at).1, x) == Count(Redact(rd, b.items[i], at).1, x)
        {
          ItemsAgree(rd, a, b, path, i, x);
        }
        NullsShow(rd, a.items[i], b.items[i], at);
      }
    }
  }

  ghost predicate FieldNulls(rd: Redactor, f: Field, g: Field) {
    if rd.classify(f.key).None? then SameRecords(rd, f.value, g.value) else f.value.Null? <==> g.value.Null?
  }

  lemma {:induction false} FieldNullsShow(rd: Redactor, a: Json, b: Json, path: string, i: nat)
    requires a.Object? && b.Object? && SameVisible(rd, a, b) && Plain(rd, a) && i < |a.fields|
    requires forall x :: FieldDiff(rd, a.fields[i], b.fields[i], path, x) == 0
    ensures SameField(rd, a.fields[i], b.fields[i]) && FieldNulls(rd, a.fields[i], b.fields[i])
    decreases a, 0
  {
    var f, g := a.fields[i], b.fields[i];
    assert SameField(rd, f, g);
    var at := path + "." + f.key;
    if rd.classify(f.key).None? {
      forall x
        ensures Count(Redact(rd, f.value, at).1, x) == Count(Redact(rd, g.value, at).1, x)
      {
        assert FieldDiff(rd, f, g, path, x) == 0;
      }
      NullsShow(rd, f.value, g.value, at);
    } else {
      OneRecord(rd, f.value, at, rd.classify(f.key).value);
      OneRecord(rd, g.value, at, rd.classify(f.key).value);
      var p, q := RedactOne(rd, f, path).1, RedactOne(rd, g, path).1;
      if p != [] {
        assert FieldDiff(rd, f, g, path, p[0]) == 0 && Count(p, p[0]) == 1;
      }
      if q != [] {
        assert FieldDiff(rd, f, g, path, q[0]) == 0 && Count(q, q[0]) == 1;
      }
    }
  }

  lemma OneRecord(rd: Redactor, v: Json, path: string, c: Classification)
    ensures |RedactField(rd, v, path, c).1| == if v.Null? then 0 else 1
  {
  }

  /** For documents with plain keys, the records are the same exactly when the same hidden
      values are null. */
  lemma RecordsExact(rd: Redactor, a: Json, b: Json, path: string)
    requires SameVisible(rd, a, b) && Plain(rd, a)
    ensures Redact(rd, a, path).1 == Redact(rd, b, path).1 <==> SameRecords(rd, a, b)
  {
    if Redact(rd, a, path).1 == Redact(rd, b, path).1 {
      NullsShow(rd, a, b, path);
    }
    if SameRecords(rd, a, b) {
      RecordsDoNotShow(rd, a, b, path);
    }
  }

  /** A key with a dot can stand in for a nested key, and then a null can hide. */
  lemma DottedKeysHideNulls(rd: Redactor, key: string, c: Classification, path: string)
    requires c.sensitivity.Secret? && rd.classify("-").None?
    requires rd.classify(key) == rd.classify("-." + key) == Some(c)
    ensures var a := Object([Field("-", Object([Field(key, Null)])), Field("-." + key, Str("s"))]);
            var b := Object([Field("-", Object([Field(key, Str("s"))])), Field("-." + key, Null)]);
            && SameVisible(rd, a, b) && !SameRecords(rd, a, b)
            && Redact(rd, a, path).1 == Redact(rd, b, path).1
  {
    var inner, inner' := Object([Field(key, Null)]), Object([Field(key, Str("s"))]);
    var f, g := Field("-", inner), Field("-." + key, Str("s"));
    var f', g' := Field("-", inner'), Field("-." + key, Null);
    OneField(rd, Field(key, Null), path + "." + "-");
    OneField(rd, Field(key, Str("s")), path + "." + "-");
    TwoFields(rd, f, g, path);
    TwoFields(rd, f', g', path);
    NullDiffers(rd, key, c);
    assert SameField(rd, f, f') && SameField(rd, g, g');
    var a, b := Object([f, g]), Object([f', g']);
    assert a.fields[0] == f && b.fields[0] == f';
    assert path + "." + ("-." + key) == path + "." + "-" + "." + key;
  }

  lemma NullDiffers(rd: Redactor, key: string, c: Classification)
    requires c.sensitivity.Secret? && rd.classify(key) == Some(c)
    ensures var v, w := Object([Field(key, Null)]), Object([Field(key, Str("s"))]);
            SameVisible(rd, v, w) && !SameRecords(rd, v, w)
  {
    var v, w := Object([Field(key, Null)]), Object([Field(key, Str("s"))]);
    assert SameField(rd, v.fields[0], w.fields[0]);
    if SameRecords(rd, v, w) {
      RecordsAtField(rd, v, w, 0);
      assert false;
    }
  }

  lemma RecordsAtField(rd: Redactor, v: Json, w: Json, i: nat)
    requires v.Object? && w.Object? && SameRecords(rd, v, w) && i < |v.fields|
    ensures |w.fields| == |v.fields| && FieldNulls(rd, v.fields[i], w.fields[i])
  {
  }

  lemma TwoFields(rd: Redactor, f: Field, g: Field, path: string)
    ensures Redact(rd, Object([f, g]), path).1 == RedactOne(rd, f, path).1 + RedactOne(rd, g, path).1
  {
    var v := Object([f, g]);
    assert RedactFields(rd, v, path, 0) == ([], []);
    assert RedactFields(rd, v, path, 1).1 == [] + RedactOne(rd, f, path).1;
  }
}
