/** Structured redaction of JSON documents. The string-level pass (regular
    expressions and custom patterns), HMAC pseudonyms and Unicode case mapping are
    parameters. */
module Redaction {
  import opened Common
  import opened RustText
  import opened BodyNames
  import LikePattern

  datatype Json =
    | Null
    | Bool(b: bool)
    | Number(text: string)
    | Str(s: string)
    | Array(items: seq<Json>)
    | Object(fields: seq<Field>)

  datatype Field = Field(key: string, value: Json)

  datatype Record = Record(path: string, rule: string, action: string)

  datatype Sensitivity = Secret | Identifier | Pii

  datatype Classification = Classification(rule: string, sensitivity: Sensitivity)

  /** What the walk needs of a configured redactor; `classify` is `Classify` for the
      configured custom keys. */
  datatype Redactor = Redactor(
    classify: string -> Option<Classification>, hashIdentifiers: bool, pseudonym: (string, string) -> string,
    isEmail: string -> bool, isPhone: string -> bool, scrub: (string, string) -> (string, seq<Record>))

  const REDACTED := "[REDACTED]"

  // ---- Which keys are sensitive ----

  predicate EndsWith(s: string, tail: string) {
    |s| >= |tail| && s[|s| - |tail|..] == tail
  }

  function Normalize(s: string): string {
    if s == [] then []
    else (if IsAlnum(s[0]) || s[0] as int >= 128 then [s[0]] else []) + Normalize(s[1..])
  }

  predicate IsSecretName(n: string) {
    || n in {"authorization", "proxyauthorization", "cookie", "setcookie", "xapikey", "apikey", "xauthtoken",
             "xcsrftoken", "xxsrftoken", "accesstoken", "refreshtoken", "idtoken", "password", "passwd", "secret",
             "clientsecret", "privatekey", "csrf", "xsrf", "jwt", "pwd", "sig", "signature", "xamzsignature",
             "xgoogsignature", "authkey", "xauthkey"}
    || LikePattern.Contains(n, "token") || LikePattern.Contains(n, "password") || LikePattern.Contains(n, "passwd")
    || LikePattern.Contains(n, "secret") || LikePattern.Contains(n, "privatekey") || LikePattern.Contains(n, "apikey")
    || LikePattern.Contains(n, "csrf")
    || EndsWith(n, "signature") || EndsWith(n, "sig") || EndsWith(n, "authkey")
    || LikePattern.Contains(n, "密码") || LikePattern.Contains(n, "口令") || LikePattern.Contains(n, "令牌")
    || LikePattern.Contains(n, "密钥") || LikePattern.Contains(n, "签名")
  }

  predicate IsIdentifierName(n: string) {
    n in {"session", "sessionid", "sessionkey", "userid", "uid", "deviceid", "advertisingid", "idfa", "idfv", "oaid",
          "imei", "androidid", "udid", "installid"}
  }

  predicate IsPiiName(n: string, original: string) {
    || LikePattern.Contains(n, "email") || LikePattern.Contains(n, "mail") || LikePattern.Contains(n, "phone")
    || LikePattern.Contains(n, "mobile") || LikePattern.Contains(n, "address") || LikePattern.Contains(n, "shipping")
    || LikePattern.Contains(n, "receiver")
    || LikePattern.Contains(original, "邮箱") || LikePattern.Contains(original, "手机号")
    || LikePattern.Contains(original, "收货地址")
  }

  function Classify(customKeys: set<string>, toLower: string -> string, name: string): Option<Classification> {
    var lower := toLower(Trim(name));
    var n := Normalize(lower);
    if lower in customKeys || n in customKeys then Some(Classification("custom:" + n, Secret))
    else if IsSecretName(n) then Some(Classification(n, Secret))
    else if IsIdentifierName(n) then Some(Classification(n, Identifier))
    else if IsPiiName(n, lower) then Some(Classification(n, Pii))
    else None
  }

  /** The redactor for a configuration. */
  function Configured(customKeys: set<string>, toLower: string -> string, rest: Redactor): Redactor {
    rest.(classify := name => Classify(customKeys, toLower, name))
  }

  // ---- The walk ----

  function RedactScalar(rd: Redactor, value: string, path: string, c: Classification): (string, seq<Record>) {
    var (action, output) :=
      match c.sensitivity
      case Secret => ("redact", REDACTED)
      case Identifier => if rd.hashIdentifiers then ("hash", rd.pseudonym("ID", value)) else ("redact", REDACTED)
      case Pii =>
        if rd.hashIdentifiers && rd.isEmail(value) then ("hash", rd.pseudonym("EMAIL", value))
        else if rd.hashIdentifiers && rd.isPhone(value) then ("hash", rd.pseudonym("PHONE", value))
        else ("redact", REDACTED);
    (output, [Record(path, c.rule, action)])
  }

  /** The replacement for a value stored under a classified key. */
  function RedactField(rd: Redactor, v: Json, path: string, c: Classification): (string, seq<Record>) {
    match v
    case Str(s) => RedactScalar(rd, s, path, c)
    case Number(text) => RedactScalar(rd, text, path, c)
    case Bool(b) => RedactScalar(rd, if b then "true" else "false", path, c)
    case Null => (REDACTED, [])
    case _ => (REDACTED, [Record(path, c.rule, "redact")])
  }

  function Redact(rd: Redactor, v: Json, path: string): (Json, seq<Record>)
    decreases v, 0
  {
    match v
    case Object(fields) =>
      var (out, records) := RedactFields(rd, v, path, |fields|);
      (Object(out), records)
    case Array(items) =>
      var (out, records) := RedactItems(rd, v, path, |items|);
      (Array(out), records)
    case Str(s) =>
      var (out, records) := rd.scrub(s, path);
      (Str(out), records)
    case _ => (v, [])
  }

  /** The first `n` array items. */
  function RedactItems(rd: Redactor, v: Json, path: string, n: nat): (r: (seq<Json>, seq<Record>))
    requires v.Array? && n <= |v.items|
    ensures |r.0| == n
    decreases v, 0, n
  {
    if n == 0 then ([], [])
    else
      var (out, records) := RedactItems(rd, v, path, n - 1);
      var (item, more) := Redact(rd, v.items[n - 1], path + "[" + Decimal(n - 1) + "]");
      (out + [item], records + more)
  }

  /** The first `n` object fields. */
  function RedactFields(rd: Redactor, v: Json, path: string, n: nat): (r: (seq<Field>, seq<Record>))
    requires v.Object? && n <= |v.fields|
    ensures |r.0| == n
    decreases v, 0, n
  {
    if n == 0 then ([], [])
    else
      var (out, records) := RedactFields(rd, v, path, n - 1);
      var (value, more) := RedactOne(rd, v.fields[n - 1], path);
      (out + [Field(v.fields[n - 1].key, value)], records + more)
  }

  function RedactOne(rd: Redactor, f: Field, path: string): (Json, seq<Record>)
    decreases f.value, 1
  {
    var next := path + "." + f.key;
    var c := rd.classify(f.key);
    if c.Some? then
      var (text, records) := RedactField(rd, f.value, next, c.value);
      (Str(text), records)
    else Redact(rd, f.value, next)
  }

  /** Rewrites the value of a classified key and reports whether the key was one. */
  method RedactJsonField(rd: Redactor, f: Field, path: string, records: seq<Record>)
      returns (matched: bool, value: Json, out: seq<Record>)
    ensures matched <==> rd.classify(f.key).Some?
    ensures matched ==> value == Str(RedactField(rd, f.value, path, rd.classify(f.key).value).0)
    ensures matched ==> out == records + RedactField(rd, f.value, path, rd.classify(f.key).value).1
    ensures !matched ==> value == f.value && out == records
  {
    var c := rd.classify(f.key);
    if c.None? {
      return false, f.value, records;
    }
    var (text, more) := RedactField(rd, f.value, path, c.value);
    return true, Str(text), records + more;
  }

  /** The walk as it runs: values are replaced one by one, records are pushed. */
  method RedactWalk(rd: Redactor, v: Json, path: string, records: seq<Record>) returns (r: Json, out: seq<Record>)
    ensures r == Redact(rd, v, path).0 && out == records + Redact(rd, v, path).1
    decreases v, 1
  {
    match v
    case Object(fields) =>
      var done;
      done, out := RedactObject(rd, v, path, records);
      r := Object(done);
    case Array(items) =>
      var done;
      done, out := RedactArray(rd, v, path, records);
      r := Array(done);
    case Str(s) =>
      var (text, more) := rd.scrub(s, path);
      r, out := Str(text), records + more;
    case _ =>
      r, out := v, records;
  }

  method RedactObject(rd: Redactor, v: Json, path: string, records: seq<Record>)
      returns (done: seq<Field>, out: seq<Record>)
    requires v.Object?
    ensures done == RedactFields(rd, v, path, |v.fields|).0
    ensures out == records + RedactFields(rd, v, path, |v.fields|).1
    decreases v, 0
  {
    done, out := [], records;
    for i := 0 to |v.fields|
      invariant done == RedactFields(rd, v, path, i).0 && out == records + RedactFields(rd, v, path, i).1
    {
      var f := v.fields[i];
      ghost var before := RedactFields(rd, v, path, i).1;
      var matched, value, more := RedactJsonField(rd, f, path + "." + f.key, out);
      if !matched {
        value, more := RedactWalk(rd, f.value, path + "." + f.key, out);
      }
      Regroup(records, before, RedactOne(rd, f, path).1);
      done, out := done + [Field(f.key, value)], more;
    }
  }

  method RedactArray(rd: Redactor, v: Json, path: string, records: seq<Record>)
      returns (done: seq<Json>, out: seq<Record>)
    requires v.Array?
    ensures done == RedactItems(rd, v, path, |v.items|).0
    ensures out == records + RedactItems(rd, v, path, |v.items|).1
    decreases v, 0
  {
    done, out := [], records;
    for i := 0 to |v.items|
      invariant done == RedactItems(rd, v, path, i).0 && out == records + RedactItems(rd, v, path, i).1
    {
      var next := path + "[" + Decimal(i) + "]";
      ghost var before := RedactItems(rd, v, path, i).1;
      var item, more := RedactWalk(rd, v.items[i], next, out);
      Regroup(records, before, Redact(rd, v.items[i], next).1);
      done, out := done + [item], more;
    }
  }

  lemma Regroup(a: seq<Record>, b: seq<Record>, c: seq<Record>)
    ensures a + b + c == a + (b + c)
  {
  }

  // ---- Non-interference ----

  predicate IsContainer(v: Json) {
    v.Array? || v.Object?
  }

  /** Under this key the two values are replaced by the same text whatever they are. */
  predicate Hidden(rd: Redactor, key: string, a: Json, b: Json) {
    var c := rd.classify(key);
    c.Some? && (c.value.sensitivity.Secret? || !rd.hashIdentifiers || (IsContainer(a) && IsContainer(b)))
  }

  /** The documents differ only in values hidden by their keys. */
  ghost predicate SameVisible(rd: Redactor, a: Json, b: Json) {
    match (a, b)
    case (Object(f), Object(g)) =>
      |f| == |g| && forall i :: 0 <= i < |f| ==> SameField(rd, f[i], g[i])
    case (Array(x), Array(y)) =>
      |x| == |y| && forall i :: 0 <= i < |x| ==> SameVisible(rd, x[i], y[i])
    case _ => a == b
  }

  ghost predicate SameField(rd: Redactor, f: Field, g: Field) {
    && f.key == g.key
    && if rd.classify(f.key).Some? then Hidden(rd, f.key, f.value, g.value) || f.value == g.value
       else SameVisible(rd, f.value, g.value)
  }

  lemma HiddenField(rd: Redactor, key: string, a: Json, b: Json, path: string)
    requires Hidden(rd, key, a, b)
    ensures var c := rd.classify(key).value;
            && RedactField(rd, a, path, c).0 == RedactField(rd, b, path, c).0
            && ((a.Null? <==> b.Null?) <==> RedactField(rd, a, path, c).1 == RedactField(rd, b, path, c).1)
  {
  }

  /** Documents that differ only in hidden values redact to the same document. */
  lemma {:induction false} SecretsDoNotShow(rd: Redactor, a: Json, b: Json, path: string)
    requires SameVisible(rd, a, b)
    ensures Redact(rd, a, path).0 == Redact(rd, b, path).0
    decreases a, 0
  {
    if a.Object? && b.Object? {
      SecretFields(rd, a, b, path, |a.fields|);
    } else if a.Array? && b.Array? {
      SecretItems(rd, a, b, path, |a.items|);
    }
  }

  lemma {:induction false} SecretItems(rd: Redactor, a: Json, b: Json, path: string, n: nat)
    requires a.Array? && b.Array? && SameVisible(rd, a, b) && n <= |a.items|
    ensures RedactItems(rd, a, path, n).0 == RedactItems(rd, b, path, n).0
    decreases a, 0, n
  {
    if n > 0 {
      SecretItems(rd, a, b, path, n - 1);
      SecretsDoNotShow(rd, a.items[n - 1], b.items[n - 1], path + "[" + Decimal(n - 1) + "]");
    }
  }

  lemma {:induction false} SecretFields(rd: Redactor, a: Json, b: Json, path: string, n: nat)
    requires a.Object? && b.Object? && SameVisible(rd, a, b) && n <= |a.fields|
    ensures RedactFields(rd, a, path, n).0 == RedactFields(rd, b, path, n).0
    decreases a, 0, n
  {
    if n > 0 {
      SecretFields(rd, a, b, path, n - 1);
      var f, g := a.fields[n - 1], b.fields[n - 1];
      assert SameField(rd, f, g);
      if rd.classify(f.key).None? {
        SecretsDoNotShow(rd, f.value, g.value, path + "." + f.key);
      } else if f.value != g.value {
        HiddenField(rd, f.key, f.value, g.value, path + "." + f.key);
      }
    }
  }

  lemma {:induction false} SameAsItself(rd: Redactor, a: Json)
    ensures SameVisible(rd, a, a)
    decreases a
  {
    match a
    case Object(fields) =>
      forall i | 0 <= i < |fields| ensures SameField(rd, fields[i], fields[i]) {
        SameAsItself(rd, fields[i].value);
      }
    case Array(items) =>
      forall i | 0 <= i < |items| ensures SameVisible(rd, items[i], items[i]) {
        SameAsItself(rd, items[i]);
      }
    case _ =>
  }

  /** In a configured redactor the value of any custom or secret-named key can be
      replaced by anything without changing the redacted document. */
  lemma SecretKeysAreOpaque(customKeys: set<string>, toLower: string -> string, rest: Redactor, fields: seq<Field>,
                            i: nat, value: Json, path: string)
    requires i < |fields|
    requires var lower := toLower(Trim(fields[i].key));
             lower in customKeys || Normalize(lower) in customKeys || IsSecretName(Normalize(lower))
    ensures var rd := Configured(customKeys, toLower, rest);
            Redact(rd, Object(fields), path).0 == Redact(rd, Object(fields[i := fields[i].(value := value)]), path).0
  {
    var rd := Configured(customKeys, toLower, rest);
    var changed := fields[i := fields[i].(value := value)];
    assert Hidden(rd, fields[i].key, fields[i].value, value);
    forall j | 0 <= j < |fields| ensures SameField(rd, fields[j], changed[j]) {
      if j != i {
        SameAsItself(rd, fields[j].value);
      }
    }
    SecretsDoNotShow(rd, Object(fields), Object(changed), path);
  }

  /** As SameVisible, and a hidden value is null in both documents or in neither. */
  ghost predicate SameRecords(rd: Redactor, a: Json, b: Json) {
    match (a, b)
    case (Object(f), Object(g)) =>
      |f| == |g| && forall i :: 0 <= i < |f| ==>
        && SameField(rd, f[i], g[i])
        && (rd.classify(f[i].key).None? ==> SameRecords(rd, f[i].value, g[i].value))
        && (rd.classify(f[i].key).Some? ==> (f[i].value.Null? <==> g[i].value.Null?))
    case (Array(x), Array(y)) =>
      |x| == |y| && forall i :: 0 <= i < |x| ==> SameRecords(rd, x[i], y[i])
    case _ => a == b
  }

  /** The redaction records agree too when no hidden value is null on one side only. */
  lemma {:induction false} RecordsDoNotShow(rd: Redactor, a: Json, b: Json, path: string)
    requires SameRecords(rd, a, b)
    ensures Redact(rd, a, path).1 == Redact(rd, b, path).1
    decreases a, 0
  {
    if a.Object? && b.Object? {
      RecordFields(rd, a, b, path, |a.fields|);
    } else if a.Array? && b.Array? {
      RecordItems(rd, a, b, path, |a.items|);
    }
  }

  lemma {:induction false} RecordItems(rd: Redactor, a: Json, b: Json, path: string, n: nat)
    requires a.Array? && b.Array? && SameRecords(rd, a, b) && n <= |a.items|
    ensures RedactItems(rd, a, path, n).1 == RedactItems(rd, b, path, n).1
    decreases a, 0, n
  {
    if n > 0 {
      RecordItems(rd, a, b, path, n - 1);
      RecordsDoNotShow(rd, a.items[n - 1], b.items[n - 1], path + "[" + Decimal(n - 1) + "]");
    }
  }

  lemma {:induction false} RecordFields(rd: Redactor, a: Json, b: Json, path: string, n: nat)
    requires a.Object? && b.Object? && SameRecords(rd, a, b) && n <= |a.fields|
    ensures RedactFields(rd, a, path, n).1 == RedactFields(rd, b, path, n).1
    decreases a, 0, n
  {
    if n > 0 {
      RecordFields(rd, a, b, path, n - 1);
      var f, g := a.fields[n - 1], b.fields[n - 1];
      assert SameField(rd, f, g);
      if rd.classify(f.key).None? {
        RecordsDoNotShow(rd, f.value, g.value, path + "." + f.key);
      } else if f.value != g.value {
        HiddenField(rd, f.key, f.value, g.value, path + "." + f.key);
      }
    }
  }

  /** The records alone do show whether a secret is null. */
  lemma NullSecretShowsInRecords(rd: Redactor, key: string, path: string)
    requires rd.classify(key).Some? && rd.classify(key).value.sensitivity.Secret?
    ensures var a, b := Object([Field(key, Null)]), Object([Field(key, Str("x"))]);
            SameVisible(rd, a, b) && Redact(rd, a, path).0 == Redact(rd, b, path).0
            && Redact(rd, a, path).1 != Redact(rd, b, path).1
  {
    var a, b := Object([Field(key, Null)]), Object([Field(key, Str("x"))]);
    SecretsDoNotShow(rd, a, b, path);
    OneField(rd, Field(key, Null), path);
    OneField(rd, Field(key, Str("x")), path);
  }

  lemma OneField(rd: Redactor, f: Field, path: string)
    ensures Redact(rd, Object([f]), path).1 == RedactOne(rd, f, path).1
  {
    var v := Object([f]);
    assert RedactFields(rd, v, path, 0) == ([], []);
    assert RedactFields(rd, v, path, 1).1 == [] + RedactOne(rd, f, path).1;
  }

  // ---- What the walk keeps ----

  /** Same shape: keys and their order, array lengths, numbers, booleans and nulls
      are kept; a classified key holds the marker or a pseudonym. */
  ghost predicate KeepsShape(rd: Redactor, v: Json, w: Json) {
    match v
    case Object(fields) =>
      w.Object? && |w.fields| == |fields| && forall i :: 0 <= i < |fields| ==>
        KeepsField(rd, fields[i], w.fields[i])
    case Array(items) =>
      w.Array? && |w.items| == |items| && forall i :: 0 <= i < |items| ==> KeepsShape(rd, items[i], w.items[i])
    case Str(_) => w.Str?
    case _ => w == v
  }

  ghost predicate KeepsField(rd: Redactor, f: Field, g: Field) {
    && g.key == f.key
    && if rd.classify(f.key).Some? then Masked(rd, g.value) else KeepsShape(rd, f.value, g.value)
  }

  ghost predicate Masked(rd: Redactor, w: Json) {
    && w.Str?
    && (|| w.s == REDACTED
        || exists kind, value :: kind in {"ID", "EMAIL", "PHONE"} && w.s == rd.pseudonym(kind, value))
  }

  lemma {:induction false} RedactKeepsShape(rd: Redactor, v: Json, path: string)
    ensures KeepsShape(rd, v, Redact(rd, v, path).0)
    decreases v, 0
  {
    if v.Object? {
      FieldsKeepShape(rd, v, path, |v.fields|);
    } else if v.Array? {
      ItemsKeepShape(rd, v, path, |v.items|);
    }
  }

  lemma {:induction false} ItemsKeepShape(rd: Redactor, v: Json, path: string, n: nat)
    requires v.Array? && n <= |v.items|
    ensures forall i :: 0 <= i < n ==> KeepsShape(rd, v.items[i], RedactItems(rd, v, path, n).0[i])
    decreases v, 0, n
  {
    if n > 0 {
      ItemsKeepShape(rd, v, path, n - 1);
      RedactKeepsShape(rd, v.items[n - 1], path + "[" + Decimal(n - 1) + "]");
    }
  }

  lemma {:induction false} FieldsKeepShape(rd: Redactor, v: Json, path: string, n: nat)
    requires v.Object? && n <= |v.fields|
    ensures forall i :: 0 <= i < n ==> KeepsField(rd, v.fields[i], RedactFields(rd, v, path, n).0[i])
    decreases v, 0, n
  {
    if n > 0 {
      FieldsKeepShape(rd, v, path, n - 1);
      var f := v.fields[n - 1];
      if rd.classify(f.key).None? {
        RedactKeepsShape(rd, f.value, path + "." + f.key);
      } else {
        FieldIsMasked(rd, f.value, path + "." + f.key, rd.classify(f.key).value);
      }
    }
  }

  lemma FieldIsMasked(rd: Redactor, v: Json, path: string, c: Classification)
    ensures Masked(rd, Str(RedactField(rd, v, path, c).0))
  {
  }
}
