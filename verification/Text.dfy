/** String operations the modelled packages take from Go's `strings` package.
    A string is a sequence of code points, ordered as SQLite's BINARY collation
    and Go's `<` order the UTF-8 bytes. */
module Text {

  datatype Option<+T> = None | Some(value: T)

  datatype Result<+T, +E> = Ok(value: T) | Err(error: E)

  /** `unicode.IsSpace`: the code points with the White_Space property. */
  predicate IsSpace(c: char) {
    || '\U{0009}' <= c <= '\U{000D}'
    || c == ' '
    || c == '\U{0085}' || c == '\U{00A0}' || c == '\U{1680}'
    || '\U{2000}' <= c <= '\U{200A}'
    || c == '\U{2028}' || c == '\U{2029}' || c == '\U{202F}' || c == '\U{205F}' || c == '\U{3000}'
  }

  /** The white space of Unicode, one by one. */
  lemma WhiteSpace(c: char)
    ensures IsSpace(c) <==> c in {
      '\t', '\n', '\U{000B}', '\U{000C}', '\r', ' ', '\U{0085}', '\U{00A0}', '\U{1680}',
      '\U{2000}', '\U{2001}', '\U{2002}', '\U{2003}', '\U{2004}', '\U{2005}', '\U{2006}', '\U{2007}',
      '\U{2008}', '\U{2009}', '\U{200A}', '\U{2028}', '\U{2029}', '\U{202F}', '\U{205F}', '\U{3000}' }
  {
  }

  function TrimLeft(s: string): string {
    if s != "" && IsSpace(s[0]) then TrimLeft(s[1..]) else s
  }

  function TrimRight(s: string): string {
    if s != "" && IsSpace(s[|s| - 1]) then TrimRight(s[..|s| - 1]) else s
  }

  /** `strings.TrimSpace`. */
  function Trim(s: string): string {
    TrimRight(TrimLeft(s))
  }

  /** No surrounding white space. */
  predicate Trimmed(s: string) {
    s != "" ==> !IsSpace(s[0]) && !IsSpace(s[|s| - 1])
  }

  lemma {:induction false} TrimLeftShape(s: string)
    ensures |TrimLeft(s)| <= |s| && TrimLeft(s) == s[|s| - |TrimLeft(s)|..]
    ensures TrimLeft(s) != "" ==> !IsSpace(TrimLeft(s)[0])
    ensures AllSpace(s[..|s| - |TrimLeft(s)|])
  {
    if s != "" && IsSpace(s[0]) {
      TrimLeftShape(s[1..]);
      var n := |s| - |TrimLeft(s)|;
      assert s[..n] == [s[0]] + s[1..][..n - 1];
    }
  }

  lemma {:induction false} TrimRightShape(s: string)
    ensures TrimRight(s) <= s
    ensures TrimRight(s) != "" ==> !IsSpace(TrimRight(s)[|TrimRight(s)| - 1])
    ensures AllSpace(s[|TrimRight(s)|..])
  {
    if s != "" && IsSpace(s[|s| - 1]) {
      TrimRightShape(s[..|s| - 1]);
      var n := |TrimRight(s)|;
      assert s[n..] == s[..|s| - 1][n..] + [s[|s| - 1]];
    }
  }

  /** Trimming cuts white space off both ends and nothing else. */
  lemma TrimShape(s: string) returns (left: string, right: string)
    ensures s == left + Trim(s) + right && AllSpace(left) && AllSpace(right)
    ensures Trimmed(Trim(s))
  {
    TrimLeftShape(s);
    TrimRightShape(TrimLeft(s));
    left := s[..|s| - |TrimLeft(s)|];
    right := TrimLeft(s)[|Trim(s)|..];
  }

  lemma TrimFixed(s: string)
    requires Trimmed(s)
    ensures Trim(s) == s
  {
  }

  lemma TrimTwice(s: string)
    ensures Trim(Trim(s)) == Trim(s)
  {
    var left, right := TrimShape(s);
    TrimFixed(Trim(s));
  }

  predicate Blank(s: string) {
    Trim(s) == ""
  }

  predicate AllSpace(s: string) {
    forall i :: 0 <= i < |s| ==> IsSpace(s[i])
  }

  lemma {:induction false} TrimLeftSpaces(w: string, s: string)
    requires AllSpace(w)
    ensures TrimLeft(w + s) == TrimLeft(s)
  {
    if w == "" {
      assert w + s == s;
    } else {
      assert (w + s)[1..] == w[1..] + s;
      TrimLeftSpaces(w[1..], s);
    }
  }

  /** Leading white space never shows after trimming. */
  lemma TrimSpaces(w: string, s: string)
    requires AllSpace(w)
    ensures Trim(w + s) == Trim(s)
  {
    TrimLeftSpaces(w, s);
  }

  predicate HasPrefix(s: string, prefix: string) {
    prefix <= s
  }

  predicate HasAnyPrefix(s: string, prefixes: seq<string>) {
    exists i :: 0 <= i < |prefixes| && HasPrefix(s, prefixes[i])
  }

  /** The first position of `pattern` in `s` at or after `from`, or -1, as `strings.Index`. */
  function IndexFrom(s: string, pattern: string, from: nat): (r: int)
    requires from <= |s|
    ensures r == -1 || (from <= r <= |s| - |pattern| && OccursAt(s, pattern, r))
    ensures forall i :: from <= i < (if r == -1 then |s| + 1 else r) ==> !OccursAt(s, pattern, i)
    decreases |s| - from
  {
    if OccursAt(s, pattern, from) then from
    else if from == |s| then -1
    else IndexFrom(s, pattern, from + 1)
  }

  predicate OccursAt(s: string, pattern: string, i: int) {
    0 <= i <= |s| - |pattern| && s[i..i + |pattern|] == pattern
  }

  function Index(s: string, pattern: string): (r: int)
    ensures r == -1 || (0 <= r <= |s| - |pattern| && OccursAt(s, pattern, r))
    ensures forall i :: 0 <= i < (if r == -1 then |s| + 1 else r) ==> !OccursAt(s, pattern, i)
  {
    IndexFrom(s, pattern, 0)
  }

  predicate Contains(s: string, pattern: string) {
    Index(s, pattern) >= 0
  }

  /** `strings.Join`. */
  function Join(parts: seq<string>, separator: string): string {
    if |parts| == 0 then ""
    else if |parts| == 1 then parts[0]
    else parts[0] + separator + Join(parts[1..], separator)
  }

  // ----- order -----

  predicate Less(a: string, b: string) {
    if b == "" then false
    else if a == "" then true
    else if a[0] != b[0] then a[0] < b[0]
    else Less(a[1..], b[1..])
  }

  predicate AtMost(a: string, b: string) {
    !Less(b, a)
  }

  lemma {:induction false} LessTotal(a: string, b: string)
    ensures (if a == b then 1 else 0) + (if Less(a, b) then 1 else 0) + (if Less(b, a) then 1 else 0) == 1
  {
    if a != "" && b != "" {
      LessTotal(a[1..], b[1..]);
      assert a == [a[0]] + a[1..] && b == [b[0]] + b[1..];
    }
  }

  lemma {:induction false} LessTransitive(a: string, b: string, c: string)
    requires Less(a, b) && Less(b, c)
    ensures Less(a, c)
  {
    if a != "" && a[0] == b[0] && b[0] == c[0] {
      LessTransitive(a[1..], b[1..], c[1..]);
    }
  }

  /** A shared prefix does not matter to the order. */
  lemma {:induction false} LessPrefixed(p: string, a: string, b: string)
    ensures Less(p + a, p + b) == Less(a, b)
  {
    if p == "" {
      assert p + a == a && p + b == b;
    } else {
      assert (p + a)[1..] == p[1..] + a && (p + b)[1..] == p[1..] + b;
      LessPrefixed(p[1..], a, b);
    }
  }

  /** Two prefixes of one length that differ decide the order. */
  lemma {:induction false} LessByPrefix(p: string, q: string, a: string, b: string)
    requires |p| == |q| && p != q
    ensures Less(p + a, q + b) == Less(p, q)
  {
    if p[0] == q[0] {
      assert p[1..] != q[1..] by {
        assert p == [p[0]] + p[1..] && q == [q[0]] + q[1..];
      }
      assert (p + a)[1..] == p[1..] + a && (q + b)[1..] == q[1..] + b;
      LessByPrefix(p[1..], q[1..], a, b);
    }
  }

  // ----- texts joined by colons -----

  /** Two texts meet with a colon and something after each exactly if they are equal or one
      with a colon begins the other. */
  lemma ColonsMeet(a: string, b: string, u: string, v: string)
    requires a + ":" + u == b + ":" + v
    ensures a == b || a + ":" <= b || b + ":" <= a
    ensures |a| == |b| ==> a == b && u == v
    ensures |a| < |b| ==> a + ":" <= b && u == b[|a| + 1..] + ":" + v
  {
    var s, t := a + ":" + u, b + ":" + v;
    assert s[..|a|] == a && s[|a|] == ':' && s[|a| + 1..] == u;
    assert t[..|b|] == b && t[|b|] == ':' && t[|b| + 1..] == v;
    if |a| < |b| {
      assert t[..|b|][..|a|] == t[..|a|] && t[..|b|][|a|] == t[|a|];
      assert b == b[..|a|] + ":" + b[|a| + 1..];
      assert t[|a| + 1..] == b[|a| + 1..] + ":" + v;
    } else if |b| < |a| {
      assert s[..|a|][..|b|] == s[..|b|] && s[..|a|][|b|] == s[|b|];
      assert a == a[..|b|] + ":" + a[|b| + 1..];
    }
  }
}
