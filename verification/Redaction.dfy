/** What the launchpad stores and shows of a request's input: values under secret-like
    keys become references or disappear, at every depth. */
module Redaction {
  import opened Text

  datatype JSON =
    | Null
    | Bool(b: bool)
    | Number(n: real)
    | Str(s: string)
    | Arr(items: seq<JSON>)
    | Obj(fields: map<string, JSON>)

  // ----- secret-like keys -----

  /** `unicode.ToLower` as far as it can produce an ASCII letter: capital letters, the
      Kelvin sign, and the dotted capital I. */
  function Lower(c: char): char {
    if 'A' <= c <= 'Z' then c - 'A' + 'a'
    else if c == '\U{212A}' then 'k'
    else if c == '\U{0130}' then 'i'
    else c
  }

  function ToLower(s: string): string {
    if s == "" then "" else [Lower(s[0])] + ToLower(s[1..])
  }

  const MARKERS: seq<string> := ["secret", "token", "password", "credential", "api_key", "apikey"]

  predicate Sensitive(key: string) {
    exists i :: 0 <= i < |MARKERS| && Contains(ToLower(Trim(key)), MARKERS[i])
  }

  /** A blank key holds no marker. */
  lemma SensitiveNotBlank(key: string)
    requires Sensitive(key)
    ensures Trim(key) != ""
  {
    var text := ToLower(Trim(key));
    var i :| 0 <= i < |MARKERS| && Contains(text, MARKERS[i]);
    assert |MARKERS[i]| > 0;
    assert text != "";
  }

  // ----- references in place of raw values -----

  const SCHEME := "secret://"

  predicate IsReference(value: JSON) {
    value.Str? && HasPrefix(Trim(value.s), SCHEME)
  }

  function Placeholder(key: string): string {
    "secret://redacted/" + Trim(key)
  }

  function SafeSecret(key: string, value: JSON): JSON {
    Str(if IsReference(value) then Trim(value.s) else Placeholder(key))
  }

  function SecretReferenceSafeValue(value: JSON): JSON {
    match value
    case Obj(fields) =>
      Obj(map key | key in fields ::
        if Sensitive(key) then SafeSecret(key, fields[key]) else SecretReferenceSafeValue(fields[key]))
    case Arr(items) => Arr(seq(|items|, i requires 0 <= i < |items| => SecretReferenceSafeValue(items[i])))
    case _ => value
  }

  // ----- raw values removed -----

  const REDACTED := Str("[redacted]")

  function RedactSensitiveValue(value: JSON): JSON {
    match value
    case Obj(fields) =>
      Obj(map key | key in fields :: if Sensitive(key) then REDACTED else RedactSensitiveValue(fields[key]))
    case Arr(items) => Arr(seq(|items|, i requires 0 <= i < |items| => RedactSensitiveValue(items[i])))
    case _ => value
  }

  // ----- what a safe value holds -----

  /** Nothing but a trimmed reference under a secret-like key, at any depth. */
  predicate OnlyReferences(value: JSON) {
    match value
    case Obj(fields) => forall key :: key in fields ==>
      if Sensitive(key)
      then fields[key].Str? && HasPrefix(fields[key].s, "secret://") && Trim(fields[key].s) == fields[key].s
      else OnlyReferences(fields[key])
    case Arr(items) => forall i :: 0 <= i < |items| ==> OnlyReferences(items[i])
    case _ => true
  }

  lemma PlaceholderIsReference(key: string)
    requires Sensitive(key)
    ensures Trim(Placeholder(key)) == Placeholder(key) && HasPrefix(Placeholder(key), "secret://")
  {
    SensitiveNotBlank(key);
    var left, right := TrimShape(key);
    var p := Placeholder(key);
    assert p[0] == 's' && p[|p| - 1] == Trim(key)[|Trim(key)| - 1];
    TrimFixed(p);
    assert p == SCHEME + ("redacted/" + Trim(key));
  }

  /** What stands for a secret is a trimmed reference, and stands for itself. */
  lemma SafeSecretShape(key: string, value: JSON)
    requires Sensitive(key)
    ensures IsReference(SafeSecret(key, value)) && Trim(SafeSecret(key, value).s) == SafeSecret(key, value).s
    ensures SafeSecret(key, value) == value <==> IsReference(value) && Trim(value.s) == value.s
  {
    PlaceholderIsReference(key);
    if value.Str? {
      TrimTwice(value.s);
    }
  }

  lemma {:induction false} SafeHasOnlyReferences(value: JSON)
    ensures OnlyReferences(SecretReferenceSafeValue(value))
  {
    match value {
      case Obj(fields) =>
        forall key | key in fields
          ensures if Sensitive(key) then
              var v := SafeSecret(key, fields[key]);
              IsReference(v) && Trim(v.s) == v.s
            else OnlyReferences(SecretReferenceSafeValue(fields[key]))
        {
          if Sensitive(key) {
            SafeSecretShape(key, fields[key]);
          } else {
            SafeHasOnlyReferences(fields[key]);
          }
        }
      case Arr(items) =>
        forall i | 0 <= i < |items| ensures OnlyReferences(SecretReferenceSafeValue(items[i])) {
          SafeHasOnlyReferences(items[i]);
        }
      case _ =>
    }
  }

  /** A value is left as it is exactly when it holds nothing but references already. */
  lemma {:induction false} SafeFixed(value: JSON)
    ensures SecretReferenceSafeValue(value) == value <==> OnlyReferences(value)
  {
    match value {
      case Obj(fields) =>
        var safe := SecretReferenceSafeValue(value).fields;
        forall key | key in fields
          ensures safe[key] == fields[key] <==>
            if Sensitive(key) then IsReference(fields[key]) && Trim(fields[key].s) == fields[key].s
            else OnlyReferences(fields[key])
        {
          if Sensitive(key) {
            SafeSecretShape(key, fields[key]);
          } else {
            SafeFixed(fields[key]);
          }
        }
        assert safe.Keys == fields.Keys;
        assert (forall key :: key in fields ==> safe[key] == fields[key]) <==> safe == fields;
      case Arr(items) =>
        var safe := SecretReferenceSafeValue(value).items;
        forall i | 0 <= i < |items| ensures safe[i] == items[i] <==> OnlyReferences(items[i]) {
          SafeFixed(items[i]);
        }
        assert (forall i :: 0 <= i < |items| ==> safe[i] == items[i]) <==> safe == items;
      case _ =>
    }
  }

  lemma SafeIdempotent(value: JSON)
    ensures SecretReferenceSafeValue(SecretReferenceSafeValue(value)) == SecretReferenceSafeValue(value)
  {
    SafeHasOnlyReferences(value);
    SafeFixed(SecretReferenceSafeValue(value));
  }

  // ----- what flows through -----

  /** The reference a secret-like field really holds; one that reads like the placeholder
      says nothing. */
  function Reference(key: string, value: JSON): Option<string> {
    if IsReference(value) && Trim(value.s) != Placeholder(key) then Some(Trim(value.s)) else None
  }

  /** The same value, as far as secret-like fields are only compared by the reference they
      hold (`refs`), or not at all. */
  predicate Alike(a: JSON, b: JSON, refs: bool) {
    match a
    case Obj(fields) =>
      && b.Obj? && fields.Keys == b.fields.Keys
      && forall key :: key in fields ==>
        if Sensitive(key) then refs ==> Reference(key, fields[key]) == Reference(key, b.fields[key])
        else Alike(fields[key], b.fields[key], refs)
    case Arr(items) =>
      b.Arr? && |items| == |b.items| && forall i :: 0 <= i < |items| ==> Alike(items[i], b.items[i], refs)
    case _ => a == b
  }

  lemma SafeSecretFlow(key: string, a: JSON, b: JSON)
    ensures SafeSecret(key, a) == SafeSecret(key, b) <==> Reference(key, a) == Reference(key, b)
  {
  }

  /** Two inputs are stored alike exactly when they differ in raw secrets only. */
  lemma {:induction false} SafeFlow(a: JSON, b: JSON)
    ensures SecretReferenceSafeValue(a) == SecretReferenceSafeValue(b) <==> Alike(a, b, true)
  {
    match a {
      case Obj(fields) =>
        if b.Obj? && fields.Keys == b.fields.Keys {
          var x, y := SecretReferenceSafeValue(a).fields, SecretReferenceSafeValue(b).fields;
          forall key | key in fields
            ensures x[key] == y[key] <==>
              if Sensitive(key) then Reference(key, fields[key]) == Reference(key, b.fields[key])
              else Alike(fields[key], b.fields[key], true)
          {
            if Sensitive(key) {
              SafeSecretFlow(key, fields[key], b.fields[key]);
            } else {
              SafeFlow(fields[key], b.fields[key]);
            }
          }
          assert x.Keys == y.Keys;
          assert (forall key :: key in fields ==> x[key] == y[key]) <==> x == y;
        } else {
          assert SecretReferenceSafeValue(a).fields.Keys == fields.Keys;
          assert b.Obj? ==> SecretReferenceSafeValue(b).fields.Keys == b.fields.Keys;
        }
      case Arr(items) =>
        if b.Arr? && |items| == |b.items| {
          var x, y := SecretReferenceSafeValue(a).items, SecretReferenceSafeValue(b).items;
          forall i | 0 <= i < |items| ensures x[i] == y[i] <==> Alike(items[i], b.items[i], true) {
            SafeFlow(items[i], b.items[i]);
          }
          assert (forall i :: 0 <= i < |items| ==> x[i] == y[i]) <==> x == y;
        } else {
          assert |SecretReferenceSafeValue(a).items| == |items|;
          assert b.Arr? ==> |SecretReferenceSafeValue(b).items| == |b.items|;
        }
      case _ =>
    }
  }

  /** Two inputs are shown alike exactly when they differ under secret-like keys only. */
  lemma {:induction false} RedactFlow(a: JSON, b: JSON)
    ensures RedactSensitiveValue(a) == RedactSensitiveValue(b) <==> Alike(a, b, false)
  {
    match a {
      case Obj(fields) =>
        if b.Obj? && fields.Keys == b.fields.Keys {
          var x, y := RedactSensitiveValue(a).fields, RedactSensitiveValue(b).fields;
          forall key | key in fields
            ensures x[key] == y[key] <==> Sensitive(key) || Alike(fields[key], b.fields[key], false)
          {
            if !Sensitive(key) {
              RedactFlow(fields[key], b.fields[key]);
            }
          }
          assert x.Keys == y.Keys;
          assert (forall key :: key in fields ==> x[key] == y[key]) <==> x == y;
        } else {
          assert RedactSensitiveValue(a).fields.Keys == fields.Keys;
          assert b.Obj? ==> RedactSensitiveValue(b).fields.Keys == b.fields.Keys;
        }
      case Arr(items) =>
        if b.Arr? && |items| == |b.items| {
          var x, y := RedactSensitiveValue(a).items, RedactSensitiveValue(b).items;
          forall i | 0 <= i < |items| ensures x[i] == y[i] <==> Alike(items[i], b.items[i], false) {
            RedactFlow(items[i], b.items[i]);
          }
          assert (forall i :: 0 <= i < |items| ==> x[i] == y[i]) <==> x == y;
        } else {
          assert |RedactSensitiveValue(a).items| == |items|;
          assert b.Arr? ==> |RedactSensitiveValue(b).items| == |b.items|;
        }
      case _ =>
    }
  }

  lemma {:induction false} SafeIsAlike(value: JSON)
    ensures Alike(SecretReferenceSafeValue(value), value, false)
  {
    match value {
      case Obj(fields) =>
        assert SecretReferenceSafeValue(value).fields.Keys == fields.Keys;
        forall key | key in fields && !Sensitive(key)
          ensures Alike(SecretReferenceSafeValue(fields[key]), fields[key], false)
        {
          SafeIsAlike(fields[key]);
        }
      case Arr(items) =>
        forall i | 0 <= i < |items| ensures Alike(SecretReferenceSafeValue(items[i]), items[i], false) {
          SafeIsAlike(items[i]);
        }
      case _ =>
    }
  }

  /** What is shown of the stored input is what would be shown of the original. */
  lemma RedactAfterSafe(value: JSON)
    ensures RedactSensitiveValue(SecretReferenceSafeValue(value)) == RedactSensitiveValue(value)
  {
    SafeIsAlike(value);
    RedactFlow(SecretReferenceSafeValue(value), value);
  }
}
