/** The environment-reference scanner that configuration files go through before they
    are parsed. */
module EnvExpansion {

  /** A piece of the input: one character, `${name}`, or `$NAME`. */
  datatype Token = Plain(c: char) | Braced(name: string) | Simple(name: string)

  type Environment = map<string, string>

  predicate NameByte(c: char) {
    c == '_' || 'A' <= c <= 'Z' || 'a' <= c <= 'z' || '0' <= c <= '9'
  }

  predicate NameBytes(name: string) {
    forall i :: 0 <= i < |name| ==> NameByte(name[i])
  }

  function Raw(t: Token): string {
    match t
    case Plain(c) => [c]
    case Braced(name) => "${" + name + "}"
    case Simple(name) => "$" + name
  }

  function RawAll(ts: seq<Token>): string {
    if ts == [] then "" else Raw(ts[0]) + RawAll(ts[1..])
  }

  /** A reference to a known name becomes its value; everything else stays. */
  function Render(env: Environment, t: Token): string {
    if !t.Plain? && t.name in env then env[t.name] else Raw(t)
  }

  function RenderAll(env: Environment, ts: seq<Token>): string {
    if ts == [] then "" else Render(env, ts[0]) + RenderAll(env, ts[1..])
  }

  /** A token that may stand before `rest`: a brace reference up to the first closing
      brace, a name reference of name bytes that ends where they do, or a character
      that starts neither. */
  predicate Lexical(t: Token, rest: string) {
    match t
    case Plain(c) =>
      c == '$' && rest != "" ==> if rest[0] == '{' then '}' !in rest[1..] else !NameByte(rest[0])
    case Braced(name) => '}' !in name
    case Simple(name) => name != "" && NameBytes(name) && (rest != "" ==> !NameByte(rest[0]))
  }

  /** Tokens that are each lexical where they stand, with `rest` after the last. */
  predicate AllLexical(ts: seq<Token>, rest: string) {
    ts == [] || (Lexical(ts[0], RawAll(ts[1..]) + rest) && AllLexical(ts[1..], rest))
  }

  /** `ts` is the tokenization of `text`. */
  predicate Tokens(text: string, ts: seq<Token>) {
    RawAll(ts) == text && AllLexical(ts, "")
  }

  // ----- there is one tokenization of a text -----

  predicate LooksBraced(s: string) {
    |s| > 1 && s[0] == '$' && s[1] == '{' && '}' in s[2..]
  }

  predicate LooksSimple(s: string) {
    |s| > 1 && s[0] == '$' && NameByte(s[1])
  }

  lemma BracedLetters(name: string, rest: string)
    requires '}' !in name
    ensures var s := Raw(Braced(name)) + rest;
      && LooksBraced(s) && s[2 + |name|] == '}'
      && forall i :: 0 <= i < |name| ==> s[2 + i] == name[i] && name[i] != '}'
  {
    var s := Raw(Braced(name)) + rest;
    assert s[2 + |name|] == s[2..][|name|];
    assert forall i :: 0 <= i < |name| ==> name[i] in name;
  }

  lemma SimpleLetters(name: string, rest: string)
    requires Lexical(Simple(name), rest)
    ensures var s := Raw(Simple(name)) + rest;
      && LooksSimple(s) && (1 + |name| < |s| ==> !NameByte(s[1 + |name|]))
      && forall i :: 0 <= i < |name| ==> s[1 + i] == name[i] && NameByte(name[i])
  {
    var s := Raw(Simple(name)) + rest;
    assert rest != "" ==> s[1 + |name|] == rest[0];
  }

  /** What follows tells the kinds apart. */
  lemma KindShows(t: Token, rest: string)
    requires Lexical(t, rest)
    ensures t.Braced? <==> LooksBraced(Raw(t) + rest)
    ensures t.Simple? <==> LooksSimple(Raw(t) + rest)
  {
    match t
    case Plain(c) =>
      var s := [c] + rest;
      assert |s| > 1 ==> s[1] == rest[0] && s[2..] == rest[1..];
    case Braced(name) => BracedLetters(name, rest);
    case Simple(name) => SimpleLetters(name, rest);
  }

  lemma BracedUnique(name: string, rest: string, name': string, rest': string)
    requires '}' !in name && '}' !in name'
    requires Raw(Braced(name)) + rest == Raw(Braced(name')) + rest'
    ensures name == name'
  {
    BracedLetters(name, rest);
    BracedLetters(name', rest');
    assert |name| == |name'|;
  }

  lemma SimpleUnique(name: string, rest: string, name': string, rest': string)
    requires Lexical(Simple(name), rest) && Lexical(Simple(name'), rest')
    requires Raw(Simple(name)) + rest == Raw(Simple(name')) + rest'
    ensures name == name'
  {
    SimpleLetters(name, rest);
    SimpleLetters(name', rest');
    assert |name| == |name'|;
  }

  /** No text starts with two different lexical tokens. */
  lemma LexicalUnique(t: Token, rest: string, u: Token, rest': string)
    requires Lexical(t, rest) && Lexical(u, rest') && Raw(t) + rest == Raw(u) + rest'
    ensures t == u && rest == rest'
  {
    KindShows(t, rest);
    KindShows(u, rest');
    match t {
      case Plain(c) => assert (Raw(t) + rest)[0] == c && (Raw(u) + rest')[0] == u.c;
      case Braced(name) => BracedUnique(name, rest, u.name, rest');
      case Simple(name) => SimpleUnique(name, rest, u.name, rest');
    }
    assert (Raw(t) + rest)[|Raw(t)|..] == rest && (Raw(u) + rest')[|Raw(t)|..] == rest';
  }

  lemma RawAllEmpty(ts: seq<Token>)
    ensures RawAll(ts) == "" <==> ts == []
  {
    assert ts != [] ==> Raw(ts[0]) != "";
  }

  /** The tokenization is the only one. */
  lemma {:induction false} TokensUnique(ts: seq<Token>, us: seq<Token>)
    requires AllLexical(ts, "") && AllLexical(us, "") && RawAll(ts) == RawAll(us)
    ensures ts == us
  {
    RawAllEmpty(ts);
    RawAllEmpty(us);
    if ts != [] {
      var rest, rest' := RawAll(ts[1..]), RawAll(us[1..]);
      assert rest + "" == rest && rest' + "" == rest';
      LexicalUnique(ts[0], rest, us[0], rest');
      TokensUnique(ts[1..], us[1..]);
      assert ts == [ts[0]] + ts[1..] && us == [us[0]] + us[1..];
    }
  }

  // ----- the scanner -----

  method IndexByte(text: string, from: nat, c: char) returns (end: int)
    requires from <= |text|
    ensures end == -1 || (from <= end < |text| && text[end] == c)
    ensures c !in text[from..if end < 0 then |text| else end]
  {
    end := from;
    while end < |text| && text[end] != c
      invariant from <= end <= |text| && c !in text[from..end]
    {
      end := end + 1;
    }
    if end == |text| {
      end := -1;
    }
  }

  method ScanName(text: string, from: nat) returns (end: nat)
    requires from <= |text|
    ensures from <= end <= |text| && NameBytes(text[from..end])
    ensures end < |text| ==> !NameByte(text[end])
  {
    end := from;
    while end < |text| && NameByte(text[end])
      invariant from <= end <= |text| && NameBytes(text[from..end])
    {
      assert text[from..end + 1] == text[from..end] + [text[end]];
      end := end + 1;
    }
  }

  /** `t` is the token of `text` from `index` up to `next`. */
  predicate TokenAt(text: string, index: nat, next: nat, t: Token) {
    index < next <= |text| && Raw(t) == text[index..next] && Lexical(t, text[next..])
  }

  lemma PlainAt(env: Environment, text: string, index: nat)
    requires index < |text|
    requires text[index] == '$' && index + 1 < |text| ==>
      if text[index + 1] == '{' then '}' !in text[index + 2..] else !NameByte(text[index + 1])
    ensures TokenAt(text, index, index + 1, Plain(text[index])) && [text[index]] == Render(env, Plain(text[index]))
  {
    assert index + 1 < |text| ==> text[index + 1..][1..] == text[index + 2..];
  }

  lemma BracedAt(text: string, index: nat, end: nat)
    requires index + 2 <= end < |text| && text[index] == '$' && text[index + 1] == '{' && text[end] == '}'
    requires '}' !in text[index + 2..end]
    ensures TokenAt(text, index, end + 1, Braced(text[index + 2..end]))
  {
    assert text[index..end + 1] == "${" + text[index + 2..end] + "}";
  }

  lemma SimpleAt(text: string, index: nat, end: nat)
    requires index + 1 < end <= |text| && text[index] == '$'
    requires NameBytes(text[index + 1..end]) && (end < |text| ==> !NameByte(text[end]))
    ensures TokenAt(text, index, end, Simple(text[index + 1..end]))
  {
    assert text[index..end] == "$" + text[index + 1..end];
  }

  /** What the scanner writes for the token at `index`, and where it goes on. */
  method ExpandPiece(env: Environment, text: string, index: nat)
    returns (piece: string, next: nat)
    requires index < |text|
    ensures exists t :: TokenAt(text, index, next, t) && piece == Render(env, t)
  {
    if text[index] != '$' || index + 1 >= |text| {
      PlainAt(env, text, index);
      return [text[index]], index + 1;
    }
    if text[index + 1] == '{' {
      var end := IndexByte(text, index + 2, '}');
      if end < 0 {
        PlainAt(env, text, index);
        return [text[index]], index + 1;
      }
      var name := text[index + 2..end];
      BracedAt(text, index, end);
      piece, next := if name in env then env[name] else text[index..end + 1], end + 1;
      assert TokenAt(text, index, next, Braced(name)) && piece == Render(env, Braced(name));
      return;
    }
    var nameEnd := ScanName(text, index + 1);
    if nameEnd == index + 1 {
      PlainAt(env, text, index);
      return [text[index]], index + 1;
    }
    var name := text[index + 1..nameEnd];
    SimpleAt(text, index, nameEnd);
    piece, next := if name in env then env[name] else text[index..nameEnd], nameEnd;
    assert TokenAt(text, index, next, Simple(name)) && piece == Render(env, Simple(name));
  }

  /** When no referenced name is known, the text comes back as it was. */
  lemma {:induction false} NothingKnown(env: Environment, ts: seq<Token>)
    requires forall i :: 0 <= i < |ts| && !ts[i].Plain? ==> ts[i].name !in env
    ensures RenderAll(env, ts) == RawAll(ts)
  {
    if ts != [] {
      NothingKnown(env, ts[1..]);
    }
  }

  lemma Reassociate(a: string, b: string, c: string)
    ensures a + (b + c) == (a + b) + c
  {
  }

  lemma RenderAllCons(env: Environment, t: Token, ts: seq<Token>)
    ensures RenderAll(env, [t] + ts) == Render(env, t) + RenderAll(env, ts)
  {
    assert ([t] + ts)[1..] == ts;
  }

  lemma {:induction false} RenderAllAppend(env: Environment, ts: seq<Token>, t: Token)
    ensures RenderAll(env, ts + [t]) == RenderAll(env, ts) + Render(env, t)
  {
    if ts == [] {
      RenderAllCons(env, t, []);
      assert [] + [t] == [t] + [];
    } else {
      var more := ts[1..];
      RenderAllAppend(env, more, t);
      assert ts + [t] == [ts[0]] + (more + [t]);
      RenderAllCons(env, ts[0], more + [t]);
      Reassociate(Render(env, ts[0]), RenderAll(env, more), Render(env, t));
    }
  }

  lemma RawAllAppend(ts: seq<Token>, t: Token)
    ensures RawAll(ts + [t]) == RawAll(ts) + Raw(t)
  {
    NothingKnown(map[], ts);
    NothingKnown(map[], ts + [t]);
    RenderAllAppend(map[], ts, t);
  }

  lemma LexicalCons(t: Token, ts: seq<Token>, rest: string)
    requires Lexical(t, RawAll(ts) + rest) && AllLexical(ts, rest)
    ensures AllLexical([t] + ts, rest)
  {
    assert ([t] + ts)[1..] == ts;
  }

  lemma {:induction false} LexicalAppend(ts: seq<Token>, t: Token, rest: string)
    requires AllLexical(ts, Raw(t) + rest) && Lexical(t, rest)
    ensures AllLexical(ts + [t], rest)
  {
    if ts == [] {
      assert ts + [t] == [t] + [] && RawAll([]) + rest == rest;
      LexicalCons(t, [], rest);
    } else {
      var more := ts[1..];
      LexicalAppend(more, t, rest);
      RawAllAppend(more, t);
      Reassociate(RawAll(more), Raw(t), rest);
      LexicalCons(ts[0], more + [t], rest);
      assert ts + [t] == [ts[0]] + (more + [t]);
    }
  }

  /** `done` are the tokens of the text before `index`, and `out` what they render to. */
  predicate Scanned(env: Environment, text: string, index: nat, done: seq<Token>, out: string) {
    && index <= |text| && RawAll(done) == text[..index] && AllLexical(done, text[index..])
    && out == RenderAll(env, done)
  }

  lemma TextParts(text: string, index: nat, next: nat)
    requires index <= next <= |text|
    ensures text[..next] == text[..index] + text[index..next]
    ensures text[index..] == text[index..next] + text[next..]
  {
  }

  lemma ScannedStep(env: Environment, text: string, index: nat, done: seq<Token>, out: string, next: nat, t: Token)
    requires Scanned(env, text, index, done, out) && TokenAt(text, index, next, t)
    ensures Scanned(env, text, next, done + [t], out + Render(env, t))
  {
    RawAllAppend(done, t);
    RenderAllAppend(env, done, t);
    TextParts(text, index, next);
    LexicalAppend(done, t, text[next..]);
  }

  lemma ScannedEnds(env: Environment, text: string, done: seq<Token>, out: string)
    requires Scanned(env, text, |text|, done, out)
    ensures Tokens(text, done) && out == RenderAll(env, done)
  {
    assert text[..|text|] == text && text[|text|..] == "";
  }

  /** The result renders the tokens of the text one by one, once each: a value that was
      put in is not scanned again. */
  method ExpandKnownEnvironment(env: Environment, text: string) returns (out: string)
    ensures exists ts :: Tokens(text, ts) && out == RenderAll(env, ts)
  {
    ghost var ts: seq<Token> := [];
    out := "";
    var index := 0;
    while index < |text|
      invariant index <= |text| && Scanned(env, text, index, ts, out)
    {
      var piece, next := ExpandPiece(env, text, index);
      ghost var t :| TokenAt(text, index, next, t) && piece == Render(env, t);
      ScannedStep(env, text, index, ts, out, next, t);
      out, index, ts := out + piece, next, ts + [t];
    }
    ScannedEnds(env, text, ts, out);
  }
}
