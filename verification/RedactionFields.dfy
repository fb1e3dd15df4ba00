/** Which keys are secret-like, told by their own text, and what redaction does to the value at
    each place of an input. */
module RedactionFields {
  import opened Text
  import opened Redaction

  // ----- keys -----

  /** `c` is the letter `d` in either case, the Kelvin sign and the dotted capital I included. */
  predicate Letter(c: char, d: char) {
    || c == d
    || ('a' <= d <= 'z' && c as int + 32 == d as int)
    || (d == 'k' && c == '\U{212A}') || (d == 'i' && c == '\U{0130}')
  }

  /** The word stands at position `i` of the text. */
  predicate SpellsAt(text: string, i: int, word: string) {
    0 <= i <= |text| - |word| && forall j :: 0 <= j < |word| ==> Letter(text[i + j], word[j])
  }

  predicate Holds(key: string, word: string) {
    exists i :: 0 <= i <= |key| && SpellsAt(key, i, word)
  }

  /** Small letters and underscores. */
  predicate SmallWord(word: string) {
    word != "" && forall i :: 0 <= i < |word| ==> word[i] == '_' || 'a' <= word[i] <= 'z'
  }

  lemma {:induction false} LoweredAt(s: string)
    ensures |ToLower(s)| == |s| && forall i :: 0 <= i < |s| ==> ToLower(s)[i] == Lower(s[i])
  {
    if s != "" {
      LoweredAt(s[1..]);
    }
  }

  lemma LoweredLetter(c: char, d: char)
    requires d == '_' || 'a' <= d <= 'z'
    ensures Lower(c) == d <==> Letter(c, d)
    ensures Letter(c, d) ==> !IsSpace(c)
  {
  }

  lemma LoweredSpells(text: string, i: nat, word: string)
    requires SmallWord(word) && i <= |text|
    ensures OccursAt(ToLower(text), word, i) <==> SpellsAt(text, i, word)
  {
    LoweredAt(text);
    if i + |word| <= |text| {
      forall j | 0 <= j < |word| ensures ToLower(text)[i + j] == word[j] <==> Letter(text[i + j], word[j]) {
        LoweredLetter(text[i + j], word[j]);
      }
      var cut := ToLower(text)[i..i + |word|];
      assert forall j :: 0 <= j < |word| ==> cut[j] == ToLower(text)[i + j];
    }
  }

  lemma ContainsLowered(s: string, word: string)
    requires SmallWord(word)
    ensures Contains(ToLower(s), word) <==> Holds(s, word)
  {
    LoweredAt(s);
    forall i | 0 <= i <= |s| ensures OccursAt(ToLower(s), word, i) <==> SpellsAt(s, i, word) {
      LoweredSpells(s, i, word);
    }
  }

  lemma SpelledHasNoSpace(text: string, i: int, word: string)
    requires SmallWord(word) && SpellsAt(text, i, word)
    ensures !IsSpace(text[i]) && !IsSpace(text[i + |word| - 1])
  {
    LoweredLetter(text[i], word[0]);
    var n := |word| - 1;
    assert text[i + n] == text[i + |word| - 1] && Letter(text[i + n], word[n]);
    LoweredLetter(text[i + n], word[n]);
  }

  lemma SpellsWithin(left: string, middle: string, right: string, i: int, word: string)
    requires |left| <= i && i + |word| <= |left| + |middle|
    ensures SpellsAt(left + middle + right, i, word) <==> SpellsAt(middle, i - |left|, word)
  {
    var all := left + middle + right;
    forall j | 0 <= j < |word| ensures Letter(all[i + j], word[j]) <==> Letter(middle[i - |left| + j], word[j]) {
      assert all[i + j] == middle[i - |left| + j];
    }
  }

  /** White space around a key hides no word in it. */
  lemma HoldsTrimmed(key: string, word: string)
    requires SmallWord(word)
    ensures Holds(Trim(key), word) <==> Holds(key, word)
  {
    var left, right := TrimShape(key);
    var middle := Trim(key);
    if i :| 0 <= i <= |middle| && SpellsAt(middle, i, word) {
      SpellsWithin(left, middle, right, |left| + i, word);
    }
    if i :| 0 <= i <= |key| && SpellsAt(key, i, word) {
      SpelledHasNoSpace(key, i, word);
      WordInside(left, middle, right, i, word);
      SpellsWithin(left, middle, right, i, word);
    }
  }

  lemma WordInside(left: string, middle: string, right: string, i: int, word: string)
    requires AllSpace(left) && AllSpace(right) && word != "" && 0 <= i && i + |word| <= |left + middle + right|
    requires !IsSpace((left + middle + right)[i]) && !IsSpace((left + middle + right)[i + |word| - 1])
    ensures |left| <= i && i + |word| <= |left| + |middle|
  {
    var all := left + middle + right;
    assert forall k :: 0 <= k < |left| ==> all[k] == left[k];
    assert forall k :: |left| + |middle| <= k < |all| ==> all[k] == right[k - |left| - |middle|];
  }

  /** A key is secret-like exactly if one of six words stands in it, in whatever case. */
  lemma SensitiveExactly(key: string)
    ensures Sensitive(key) <==>
      || Holds(key, "secret") || Holds(key, "token") || Holds(key, "password") || Holds(key, "credential")
      || Holds(key, "api_key") || Holds(key, "apikey")
  {
    forall word | word in {"secret", "token", "password", "credential", "api_key", "apikey"}
      ensures Contains(ToLower(Trim(key)), word) <==> Holds(key, word)
    {
      ContainsLowered(Trim(key), word);
      HoldsTrimmed(key, word);
    }
    assert MARKERS[0] == "secret" && MARKERS[1] == "token" && MARKERS[2] == "password";
    assert MARKERS[3] == "credential" && MARKERS[4] == "api_key" && MARKERS[5] == "apikey";
  }

  // ----- values by their place -----

  datatype Step = Field(key: string) | Item(index: nat)

  /** What stands at the end of a path, if there is anything. */
  function Value(v: JSON, path: seq<Step>): Option<JSON>
    decreases |path|
  {
    if path == [] then Some(v)
    else
      match path[0]
      case Field(key) => if v.Obj? && key in v.fields then Value(v.fields[key], path[1..]) else None
      case Item(index) => if v.Arr? && index < |v.items| then Value(v.items[index], path[1..]) else None
  }

  /** The path goes through no secret-like key. */
  predicate Open(path: seq<Step>) {
    forall i :: 0 <= i < |path| && path[i].Field? ==> !Sensitive(path[i].key)
  }

  lemma {:induction false} OpenPath(v: JSON, path: seq<Step>)
    requires Open(path)
    ensures Value(RedactSensitiveValue(v), path)
      == if Value(v, path).Some? then Some(RedactSensitiveValue(Value(v, path).value)) else None
    ensures Value(SecretReferenceSafeValue(v), path)
      == if Value(v, path).Some? then Some(SecretReferenceSafeValue(Value(v, path).value)) else None
    decreases |path|
  {
    if path != [] {
      assert forall i :: 0 <= i < |path[1..]| ==> path[1..][i] == path[i + 1];
      match path[0]
      case Field(key) => if v.Obj? && key in v.fields { OpenPath(v.fields[key], path[1..]); }
      case Item(index) => if v.Arr? && index < |v.items| { OpenPath(v.items[index], path[1..]); }
    }
  }

  /** Text, numbers, truth values and nulls outside secret-like keys are shown and stored as
      they are. */
  lemma OpenStays(v: JSON, path: seq<Step>)
    requires Open(path) && Value(v, path).Some? && !Value(v, path).value.Obj? && !Value(v, path).value.Arr?
    ensures Value(RedactSensitiveValue(v), path) == Value(v, path)
    ensures Value(SecretReferenceSafeValue(v), path) == Value(v, path)
  {
    OpenPath(v, path);
  }

  lemma {:induction false} ValueConcat(v: JSON, a: seq<Step>, b: seq<Step>)
    ensures Value(v, a + b) == if Value(v, a).Some? then Value(Value(v, a).value, b) else None
    decreases |a|
  {
    if a == [] {
      assert a + b == b;
    } else {
      assert (a + b)[1..] == a[1..] + b;
      match a[0]
      case Field(key) => if v.Obj? && key in v.fields { ValueConcat(v.fields[key], a[1..], b); }
      case Item(index) => if v.Arr? && index < |v.items| { ValueConcat(v.items[index], a[1..], b); }
    }
  }

  /** Whatever stands at a secret-like key is shown as one fixed text; it is stored as its own
      reference if it is one, and as a reference made of the key otherwise. */
  lemma SecretHidden(v: JSON, path: seq<Step>, key: string, secret: JSON)
    requires Open(path) && Sensitive(key) && Value(v, path + [Field(key)]) == Some(secret)
    ensures Value(RedactSensitiveValue(v), path + [Field(key)]) == Some(Str("[redacted]"))
    ensures Value(SecretReferenceSafeValue(v), path + [Field(key)]) == Some(Str(
      if secret.Str? && "secret://" <= Trim(secret.s) then Trim(secret.s) else "secret://redacted/" + Trim(key)))
  {
    var last := [Field(key)];
    ValueConcat(v, path, last);
    ValueConcat(RedactSensitiveValue(v), path, last);
    ValueConcat(SecretReferenceSafeValue(v), path, last);
    OpenPath(v, path);
    assert last[1..] == [];
  }
}
