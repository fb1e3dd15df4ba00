/** What expansion makes of a text, told by the characters of the text: five cases at its front,
    of which exactly one applies, and one at its end. */
module EnvMeaning {
  import opened Text
  import opened EnvExpansion

  /** A letter, a digit or an underscore. */
  predicate NameLetter(c: char) {
    'a' <= c <= 'z' || 'A' <= c <= 'Z' || '0' <= c <= '9' || c == '_'
  }

  predicate NameText(s: string) {
    s != "" && forall i :: 0 <= i < |s| ==> NameLetter(s[i])
  }

  /** The text expands to `out`. */
  ghost predicate Expands(env: Environment, text: string, out: string) {
    exists ts :: Tokens(text, ts) && out == RenderAll(env, ts)
  }

  lemma OneExpansion(env: Environment, text: string, a: string, b: string)
    requires Expands(env, text, a) && Expands(env, text, b)
    ensures a == b
  {
    var ts :| Tokens(text, ts) && a == RenderAll(env, ts);
    var us :| Tokens(text, us) && b == RenderAll(env, us);
    TokensUnique(ts, us);
  }

  function ValueOr(env: Environment, name: string, raw: string): string {
    if name in env then env[name] else raw
  }

  lemma FrontToken(env: Environment, t: Token, rest: string, out: string)
    requires Lexical(t, rest) && Expands(env, rest, out)
    ensures Expands(env, Raw(t) + rest, Render(env, t) + out)
  {
    var ts :| Tokens(rest, ts) && out == RenderAll(env, ts);
    var all := [t] + ts;
    assert all[1..] == ts && ts + [] == ts && rest + "" == rest;
    assert Tokens(Raw(t) + rest, all);
  }

  /** A character that is no dollar stays. */
  lemma PlainStays(env: Environment, c: char, rest: string, out: string)
    requires c != '$' && Expands(env, rest, out)
    ensures Expands(env, [c] + rest, [c] + out)
  {
    FrontToken(env, Plain(c), rest, out);
  }

  /** A dollar stays at the end and before what is neither a brace nor part of a name. */
  lemma DollarStays(env: Environment, rest: string, out: string)
    requires rest != "" ==> rest[0] != '{' && !NameLetter(rest[0])
    requires Expands(env, rest, out)
    ensures Expands(env, "$" + rest, "$" + out)
  {
    FrontToken(env, Plain('$'), rest, out);
  }

  /** And before a brace that is never closed. */
  lemma OpenBraceStays(env: Environment, rest: string, out: string)
    requires '}' !in rest && Expands(env, "{" + rest, out)
    ensures Expands(env, "$" + ("{" + rest), "$" + out)
  {
    assert ("{" + rest)[1..] == rest;
    FrontToken(env, Plain('$'), "{" + rest, out);
  }

  /** A name in braces is replaced if it is known, whatever it is. */
  lemma BracedReplaced(env: Environment, name: string, rest: string, out: string)
    requires '}' !in name && Expands(env, rest, out)
    ensures Expands(env, "${" + name + "}" + rest, ValueOr(env, name, "${" + name + "}") + out)
  {
    FrontToken(env, Braced(name), rest, out);
  }

  /** A name without braces is replaced, as long as it goes on, if it is known. */
  lemma NameReplaced(env: Environment, name: string, rest: string, out: string)
    requires NameText(name) && (rest != "" ==> !NameLetter(rest[0])) && Expands(env, rest, out)
    ensures Expands(env, "$" + name + rest, ValueOr(env, name, "$" + name) + out)
  {
    FrontToken(env, Simple(name), rest, out);
  }

  lemma StillToken(t: Token, rest: string, more: string)
    requires Lexical(t, rest) && more != "" && more[0] == '$' && '}' !in more
    ensures Lexical(t, rest + more)
  {
    if rest == "" {
      assert rest + more == more && !NameByte('$');
    } else {
      assert (rest + more)[0] == rest[0] && (rest + more)[1..] == rest[1..] + more;
    }
  }

  lemma {:induction false} StillLexical(ts: seq<Token>, more: string)
    requires AllLexical(ts, "") && more != "" && more[0] == '$' && '}' !in more
    ensures AllLexical(ts, more)
    decreases |ts|
  {
    if ts != [] {
      StillLexical(ts[1..], more);
      assert RawAll(ts[1..]) + "" == RawAll(ts[1..]);
      StillToken(ts[0], RawAll(ts[1..]), more);
    }
  }

  lemma EndToken(env: Environment, before: string, ts: seq<Token>, t: Token)
    requires RawAll(ts) == before && AllLexical(ts, Raw(t)) && Lexical(t, "")
    ensures Tokens(before + Raw(t), ts + [t]) && RenderAll(env, ts + [t]) == RenderAll(env, ts) + Render(env, t)
  {
    assert Raw(t) + "" == Raw(t);
    LexicalAppend(ts, t, "");
    RawAllAppend(ts, t);
    RenderAllAppend(env, ts, t);
  }

  /** A name behind any text at all is replaced if it is known, and the text before it expands
      as if it stood alone. */
  lemma NameAtTheEnd(env: Environment, before: string, name: string, out: string)
    requires NameText(name) && Expands(env, before, out)
    ensures Expands(env, before + ("$" + name), out + ValueOr(env, name, "$" + name))
  {
    var ts :| Tokens(before, ts) && out == RenderAll(env, ts);
    assert '}' !in "$" + name;
    StillLexical(ts, "$" + name);
    EndToken(env, before, ts, Simple(name));
  }
}
