/** Policy injection in the gateway against text cleaning in the harness: what one
    adds to a message the other must take away before the message is remembered. */
module SessionText {
  import opened Text

  const HIDDEN: seq<string> := [
    "[[AGENT_AWESOME_HIDDEN_RUNTIME_MESSAGE]]",
    "[[AURORA_HIDDEN_RUNTIME_MESSAGE]]"]

  const POLICY_PREFIX: string := "[[AGENT_AWESOME_RUNTIME_POLICY:"

  const CONTROL: seq<string> := [
    POLICY_PREFIX,
    "[[AGENT_AWESOME_SESSION_CONTEXT:",
    "[[AURORA_RUNTIME_POLICY:",
    "[[AURORA_SESSION_CONTEXT:"]

  // ----- cleaning -----

  function TrimLeadingControlBlock(text: string): string {
    var end := Index(text, "]]");
    if end < 0 then "" else Trim(text[end + 2..])
  }

  lemma BlockShrinks(text: string)
    requires text != ""
    ensures |TrimLeadingControlBlock(text)| < |text|
    ensures Trimmed(TrimLeadingControlBlock(text))
  {
    var end := Index(text, "]]");
    if end >= 0 {
      var left, right := TrimShape(text[end + 2..]);
    }
  }

  function CleanTrimmed(text: string): string
    decreases |text|
  {
    if text == "" then ""
    else if HasAnyPrefix(text, HIDDEN) then ""
    else if HasAnyPrefix(text, CONTROL) then
      BlockShrinks(text);
      CleanTrimmed(TrimLeadingControlBlock(text))
    else Trim(text)
  }

  function Clean(text: string): string {
    CleanTrimmed(Trim(text))
  }

  method CleanSessionText(text: string) returns (clean: string)
    ensures clean == Clean(text)
  {
    clean := Trim(text);
    while true
      invariant CleanTrimmed(clean) == Clean(text)
      decreases |clean|
    {
      if clean == "" {
        return "";
      }
      if HasAnyPrefix(clean, HIDDEN) {
        return "";
      }
      if HasAnyPrefix(clean, CONTROL) {
        BlockShrinks(clean);
        clean := TrimLeadingControlBlock(clean);
      } else {
        return Trim(clean);
      }
    }
  }

  lemma {:induction false} CleanTrimmedShape(text: string)
    requires Trimmed(text)
    ensures var r := CleanTrimmed(text);
            Trimmed(r) && CleanTrimmed(r) == r && !HasAnyPrefix(r, HIDDEN) && !HasAnyPrefix(r, CONTROL)
    decreases |text|
  {
    TrimFixed(text);
    if text != "" && !HasAnyPrefix(text, HIDDEN) && HasAnyPrefix(text, CONTROL) {
      BlockShrinks(text);
      CleanTrimmedShape(TrimLeadingControlBlock(text));
    }
  }

  /** Cleaned text is trimmed, carries no control or hidden block in front, and is
      left alone by cleaning. */
  lemma CleanIsClean(text: string)
    ensures Clean(Clean(text)) == Clean(text) && Trimmed(Clean(text))
    ensures !HasAnyPrefix(Clean(text), HIDDEN) && !HasAnyPrefix(Clean(text), CONTROL)
  {
    var left, right := TrimShape(text);
    CleanTrimmedShape(Trim(text));
    TrimFixed(Clean(text));
  }

  // ----- injection -----

  /** A message part: text, or anything else. */
  datatype Part = TextPart(text: string) | OtherPart

  predicate Enabled(policy: string) {
    !Blank(policy)
  }

  /** The operator policy block, up to its closing brackets. */
  function PolicyBlock(policy: string): string {
    POLICY_PREFIX + " " + Trim(policy) + "]]"
  }

  function RuntimePolicy(policy: string): string {
    PolicyBlock(policy) + "\n\n"
  }

  function Prefixed(block: string, text: string): string {
    if text == "" || HasPrefix(text, POLICY_PREFIX) then text else block + text
  }

  function PrefixedPart(block: string, part: Part): Part {
    match part
    case TextPart(text) => TextPart(Prefixed(block, text))
    case OtherPart => OtherPart
  }

  function InjectText(policy: string, text: string): string {
    if Enabled(policy) then Prefixed(RuntimePolicy(policy), text) else text
  }

  function InjectParts(policy: string, parts: seq<Part>): seq<Part> {
    if Enabled(policy)
    then seq(|parts|, i requires 0 <= i < |parts| => PrefixedPart(RuntimePolicy(policy), parts[i]))
    else parts
  }

  method PrefixParts(block: string, parts: array<Part>) returns (changed: bool)
    requires block != ""
    modifies parts
    ensures forall k :: 0 <= k < parts.Length ==> parts[k] == PrefixedPart(block, old(parts[k]))
    ensures changed <==> exists k :: 0 <= k < parts.Length && parts[k] != old(parts[k])
  {
    changed := false;
    ghost var before := parts[..];
    for i := 0 to parts.Length
      invariant forall k :: 0 <= k < i ==> parts[k] == PrefixedPart(block, before[k])
      invariant forall k :: i <= k < parts.Length ==> parts[k] == before[k]
      invariant changed <==> exists k :: 0 <= k < i && parts[k] != before[k]
    {
      var part := parts[i];
      if part.OtherPart? || part.text == "" || HasPrefix(part.text, POLICY_PREFIX) {
        continue;
      }
      assert |block + part.text| > |part.text|;
      parts[i] := TextPart(block + part.text);
      changed := true;
    }
  }

  /** Rewrites the text parts of a decoded request in place. */
  method Inject(policy: string, parts: array<Part>) returns (changed: bool)
    modifies parts
    ensures parts[..] == InjectParts(policy, old(parts[..]))
    ensures changed <==> parts[..] != old(parts[..])
  {
    if !Enabled(policy) {
      return false;
    }
    assert |RuntimePolicy(policy)| > 0;
    changed := PrefixParts(RuntimePolicy(policy), parts);
  }

  lemma FirstPartLeads(a: string, b: string, c: string, d: string, e: string, f: string)
    ensures HasPrefix(a + b + c + d + e + f, a)
  {
  }

  lemma TextOnce(first: string, second: string, text: string)
    requires Enabled(first)
    ensures Prefixed(RuntimePolicy(second), InjectText(first, text)) == InjectText(first, text)
  {
    FirstPartLeads(POLICY_PREFIX, " ", Trim(first), "]]", "\n\n", text);
    assert HasPrefix(RuntimePolicy(first) + text, POLICY_PREFIX);
  }

  /** Once injected, a message is never injected again, whatever the second policy. */
  lemma InjectOnce(first: string, second: string, parts: seq<Part>)
    requires Enabled(first)
    ensures InjectParts(second, InjectParts(first, parts)) == InjectParts(first, parts)
  {
    forall i | 0 <= i < |parts| && parts[i].TextPart?
      ensures Prefixed(RuntimePolicy(second), InjectText(first, parts[i].text)) == InjectText(first, parts[i].text)
    {
      TextOnce(first, second, parts[i].text);
    }
  }

  // ----- cleaning undoes injection -----

  /** Nothing but control blocks, each closed. */
  predicate ControlBlocksOnly(text: string)
    decreases |text|
  {
    text == ""
    || (&& !HasAnyPrefix(text, HIDDEN) && HasAnyPrefix(text, CONTROL) && Index(text, "]]") >= 0
        && (BlockShrinks(text); ControlBlocksOnly(TrimLeadingControlBlock(text))))
  }

  lemma TrimUnique(s: string, left: string, middle: string, right: string)
    requires s == left + middle + right && AllSpace(left) && AllSpace(right) && Trimmed(middle)
    ensures Trim(s) == middle
  {
    assert s == left + (middle + right);
    TrimLeftSpaces(left, middle + right);
    if middle == "" {
      assert middle + right == right;
      TrimLeftShape(right);
      assert TrimLeft(right) == "";
    } else {
      assert TrimLeft(middle + right) == middle + right;
      TrimRightSpaces(middle, right);
    }
  }

  lemma {:induction false} TrimRightSpaces(s: string, w: string)
    requires AllSpace(w) && s != "" && !IsSpace(s[|s| - 1])
    ensures TrimRight(s + w) == s
  {
    if w == "" {
      assert s + w == s;
    } else {
      assert (s + w)[..|s + w| - 1] == s + w[..|w| - 1];
      TrimRightSpaces(s, w[..|w| - 1]);
    }
  }

  /** Text after a trimmed block is trimmed at its end only. */
  lemma TrimAfterBlock(block: string, text: string)
    requires block != "" && Trimmed(block)
    ensures Trim(block + text) == block + TrimRight(text) && Trimmed(block + TrimRight(text))
  {
    TrimRightShape(text);
    var middle, right := block + TrimRight(text), text[|TrimRight(text)|..];
    assert block + text == "" + middle + right;
    assert middle[|middle| - 1]
      == if TrimRight(text) == "" then block[|block| - 1] else TrimRight(text)[|TrimRight(text)| - 1];
    TrimUnique(block + text, "", middle, right);
  }

  lemma TrimOfTrimRight(text: string)
    ensures Trim(TrimRight(text)) == Trim(text)
  {
    var left, right := TrimShape(text);
    TrimRightShape(text);
    if Trim(text) == "" {
      assert AllSpace(text);
      assert TrimRight(text) == "";
    } else {
      assert text == (left + Trim(text)) + right;
      TrimRightSpaces(left + Trim(text), right);
      TrimUnique(TrimRight(text), left, Trim(text), "");
    }
  }

  lemma IndexExtend(text: string, tail: string)
    requires Index(text, "]]") >= 0
    ensures Index(text + tail, "]]") == Index(text, "]]")
  {
    forall i | 0 <= i <= |text| - 2 ensures OccursAt(text + tail, "]]", i) == OccursAt(text, "]]", i) {
      assert (text + tail)[i..i + 2] == text[i..i + 2];
    }
  }

  lemma LastOf(a: string, b: string)
    ensures b != "" ==> (a + b)[|a + b| - 1] == b[|b| - 1]
  {
  }

  /** Only the start of `rest` is left to trim. */
  lemma TrimBetween(rest: string, after: string)
    requires rest == "" || !IsSpace(rest[|rest| - 1])
    ensures Trim(rest + TrimRight(after)) == Trim(Trim(rest) + after)
  {
    var tail := TrimRight(after);
    if rest == "" {
      assert rest + tail == tail && Trim(rest) + after == after;
      TrimOfTrimRight(after);
    } else {
      TrimLeftShape(rest);
      var left, next := rest[..|rest| - |TrimLeft(rest)|], TrimLeft(rest);
      LastOf(left, next);
      assert left + next == rest && next != "";
      assert Trim(rest) == next;
      assert rest + tail == left + (next + tail);
      TrimSpaces(left, next + tail);
      TrimAfterBlock(next, after);
      TrimFixed(next + tail);
    }
  }

  /** Taking the first block off a text with something after it. */
  lemma BlockStep(text: string, after: string)
    requires text != "" && Trimmed(text) && Index(text, "]]") >= 0
    ensures TrimLeadingControlBlock(Trim(text + after)) == Trim(TrimLeadingControlBlock(text) + after)
  {
    var k, tail := Index(text, "]]"), TrimRight(after);
    TrimAfterBlock(text, after);
    IndexExtend(text, tail);
    assert (text + tail)[k + 2..] == text[k + 2..] + tail;
    TrimBetween(text[k + 2..], after);
  }

  lemma PrefixesApart()
    ensures forall i, j :: 0 <= i < |HIDDEN| && 0 <= j < |CONTROL| ==> !(CONTROL[j] <= HIDDEN[i])
  {
    assert HIDDEN[0][3] == 'G' && HIDDEN[0][16] == 'H' && HIDDEN[1][3] == 'U' && HIDDEN[1][9] == 'H';
    assert CONTROL[0][3] == 'G' && CONTROL[0][16] == 'R' && CONTROL[1][3] == 'G' && CONTROL[1][16] == 'S';
    assert CONTROL[2][3] == 'U' && CONTROL[2][9] == 'R' && CONTROL[3][3] == 'U' && CONTROL[3][9] == 'S';
  }

  /** Behind a control prefix there is no hidden one, whatever follows. */
  lemma StaysControl(text: string, tail: string)
    requires HasAnyPrefix(text, CONTROL) && !HasAnyPrefix(text, HIDDEN)
    ensures HasAnyPrefix(text + tail, CONTROL) && !HasAnyPrefix(text + tail, HIDDEN)
  {
    PrefixesApart();
    var j :| 0 <= j < |CONTROL| && HasPrefix(text, CONTROL[j]);
    assert HasPrefix(text + tail, CONTROL[j]);
    forall i | 0 <= i < |HIDDEN| ensures !HasPrefix(text + tail, HIDDEN[i]) {
      assert !HasPrefix(text, HIDDEN[i]) && !(CONTROL[j] <= HIDDEN[i]);
      assert CONTROL[j] == (text + tail)[..|CONTROL[j]|];
    }
  }

  /** Control blocks in front of a text, on lines of their own, clean away. */
  lemma {:induction false} BlocksCleanAway(blocks: string, text: string)
    requires Trimmed(blocks) && ControlBlocksOnly(blocks)
    ensures Clean(blocks + ("\n\n" + text)) == Clean(text)
    decreases |blocks|
  {
    var after := "\n\n" + text;
    if blocks == "" {
      assert blocks + after == after;
      TrimSpaces("\n\n", text);
    } else {
      var next := TrimLeadingControlBlock(blocks);
      BlockShrinks(blocks);
      BlockStep(blocks, after);
      BlocksCleanAway(next, text);
      TrimAfterBlock(blocks, after);
      StaysControl(blocks, TrimRight(after));
    }
  }

  lemma NotIntoPrefix(text: string, tail: string, prefixes: seq<string>)
    requires !HasAnyPrefix(text, prefixes) && tail != "" && tail[0] == '\n'
    requires forall i :: 0 <= i < |prefixes| ==> '\n' !in prefixes[i]
    ensures !HasAnyPrefix(text + tail, prefixes)
  {
    forall i | 0 <= i < |prefixes| ensures !HasPrefix(text + tail, prefixes[i]) {
      if |prefixes[i]| <= |text| {
        assert (text + tail)[..|prefixes[i]|] == text[..|prefixes[i]|];
        assert !HasPrefix(text, prefixes[i]);
      } else {
        assert (text + tail)[|text|] == '\n' && prefixes[i][|text|] != '\n';
      }
    }
  }

  lemma IndexAbsent(text: string)
    requires Index(text, "]]") < 0
    ensures Index(text + "\n\nx", "]]") < 0
  {
    var s := text + "\n\nx";
    forall i | 0 <= i <= |s| - 2 ensures !OccursAt(s, "]]", i) {
      if i <= |text| - 2 {
        assert !OccursAt(text, "]]", i);
        assert s[i..i + 2] == text[i..i + 2];
      } else {
        assert s[i..i + 2][1] == s[i + 1];
      }
    }
  }

  lemma PrefixesOnOneLine()
    ensures forall i :: 0 <= i < |HIDDEN| ==> '\n' !in HIDDEN[i]
    ensures forall i :: 0 <= i < |CONTROL| ==> '\n' !in CONTROL[i]
  {
  }

  /** Anything else in front of a text shows after cleaning. */
  lemma {:induction false} OthersShow(front: string)
    requires Trimmed(front) && !ControlBlocksOnly(front)
    ensures Clean(front + "\n\nx") != "x"
    decreases |front|
  {
    var s := front + "\n\nx";
    assert TrimRight("\n\nx") == "\n\nx";
    TrimAfterBlock(front, "\n\nx");
    if HasAnyPrefix(front, HIDDEN) {
      var i :| 0 <= i < |HIDDEN| && HasPrefix(front, HIDDEN[i]);
      assert HasPrefix(s, HIDDEN[i]);
    } else if HasAnyPrefix(front, CONTROL) {
      StaysControl(front, "\n\nx");
      if Index(front, "]]") < 0 {
        IndexAbsent(front);
        assert TrimLeadingControlBlock(s) == "" && CleanTrimmed("") == "";
      } else {
        BlockShrinks(front);
        BlockStep(front, "\n\nx");
        OthersShow(TrimLeadingControlBlock(front));
      }
    } else {
      PrefixesOnOneLine();
      NotIntoPrefix(front, "\n\nx", HIDDEN);
      NotIntoPrefix(front, "\n\nx", CONTROL);
      TrimFixed(s);
    }
  }

  lemma BlocksUndone(policy: string, text: string)
    requires ControlBlocksOnly(PolicyBlock(policy))
    ensures Clean(InjectText(policy, text)) == Clean(text)
  {
    BlockTrimmed(policy);
    BlocksCleanAway(PolicyBlock(policy), text);
    assert RuntimePolicy(policy) + text == PolicyBlock(policy) + ("\n\n" + text);
  }

  lemma OneLetter()
    ensures Clean("x") == "x"
  {
    assert Trim("x") == "x" && !HasAnyPrefix("x", HIDDEN) && !HasAnyPrefix("x", CONTROL);
  }

  lemma OthersRemain(policy: string)
    requires Enabled(policy) && !ControlBlocksOnly(PolicyBlock(policy))
    ensures Clean(InjectText(policy, "x")) != Clean("x")
  {
    BlockTrimmed(policy);
    OthersShow(PolicyBlock(policy));
    assert RuntimePolicy(policy) + "x" == PolicyBlock(policy) + "\n\nx";
    assert !HasPrefix("x", POLICY_PREFIX);
    OneLetter();
  }

  /** Cleaning undoes injection on every text exactly when the policy block, as
      injected, is nothing but closed control blocks. */
  lemma CleanUndoesInject(policy: string)
    requires Enabled(policy)
    ensures (forall text :: Clean(InjectText(policy, text)) == Clean(text)) <==> ControlBlocksOnly(PolicyBlock(policy))
  {
    if ControlBlocksOnly(PolicyBlock(policy)) {
      forall text ensures Clean(InjectText(policy, text)) == Clean(text) {
        BlocksUndone(policy, text);
      }
    } else {
      OthersRemain(policy);
    }
  }

  lemma BlockTrimmed(policy: string)
    ensures Trimmed(PolicyBlock(policy)) && PolicyBlock(policy) != ""
  {
    var block := PolicyBlock(policy);
    assert block[0] == '[' && block[|block| - 1] == ']';
  }

  /** A policy without "]]" is such a block exactly when it does not end in "]". */
  lemma PlainPolicy(policy: string)
    requires Enabled(policy) && !Contains(Trim(policy), "]]")
    ensures ControlBlocksOnly(PolicyBlock(policy)) <==> Trim(policy)[|Trim(policy)| - 1] != ']'
  {
    var p, block := Trim(policy), PolicyBlock(policy);
    PolicyIndex(p, block);
    StaysControlBlock(block);
    BlockShrinks(block);
    var rest := block[Index(block, "]]") + 2..];
    assert rest == if p[|p| - 1] == ']' then "]" else "";
    BracketAlone();
  }

  lemma BracketAlone()
    ensures Trim("") == "" && ControlBlocksOnly("")
    ensures Trim("]") == "]" && !ControlBlocksOnly("]")
  {
    assert !HasAnyPrefix("]", CONTROL);
  }

  lemma StaysControlBlock(block: string)
    requires HasPrefix(block, POLICY_PREFIX)
    ensures HasAnyPrefix(block, CONTROL) && !HasAnyPrefix(block, HIDDEN)
  {
    assert !HasAnyPrefix(POLICY_PREFIX, HIDDEN);
    assert HasPrefix(POLICY_PREFIX, CONTROL[0]);
    StaysControl(POLICY_PREFIX, block[|POLICY_PREFIX|..]);
    assert POLICY_PREFIX + block[|POLICY_PREFIX|..] == block;
  }

  lemma PolicyIndex(p: string, block: string)
    requires p != "" && !Contains(p, "]]") && block == POLICY_PREFIX + " " + p + "]]"
    ensures var k := |POLICY_PREFIX| + 1 + |p|;
            Index(block, "]]") == if p[|p| - 1] == ']' then k - 1 else k
  {
    var n := |POLICY_PREFIX| + 1;
    var first := if p[|p| - 1] == ']' then n + |p| - 1 else n + |p|;
    assert block[first] == ']' && block[first + 1] == ']' && first + 2 <= |block|;
    assert block[first..first + 2] == "]]";
    assert OccursAt(block, "]]", first);
    forall i | 0 <= i < first ensures !OccursAt(block, "]]", i) {
      if i < n {
        assert block[i] != ']' && block[i..i + 2][0] == block[i];
      } else if i - n <= |p| - 2 {
        assert !OccursAt(p, "]]", i - n);
        assert block[i..i + 2] == p[i - n..i - n + 2];
      } else {
        assert block[i] == p[|p| - 1] && block[i..i + 2][0] == block[i];
      }
    }
  }

  // ----- what the harness remembers of an injected message -----

  /** The cleaned, non-empty texts of a message. */
  function CleanTexts(parts: seq<Part>): seq<string> {
    if parts == [] then []
    else
      var rest := CleanTexts(parts[1..]);
      if parts[0].TextPart? && Clean(parts[0].text) != "" then [Clean(parts[0].text)] + rest else rest
  }

  function ContentText(parts: seq<Part>): string {
    Join(CleanTexts(parts), "\n\n")
  }

  /** Some text is left exactly if some part has text that cleaning leaves. */
  lemma {:induction false} ContentLeft(parts: seq<Part>)
    ensures CleanTexts(parts) != [] <==>
      exists i :: 0 <= i < |parts| && parts[i].TextPart? && Clean(parts[i].text) != ""
    ensures ContentText(parts) != "" <==> CleanTexts(parts) != []
    ensures forall i :: 0 <= i < |CleanTexts(parts)| ==> CleanTexts(parts)[i] != ""
  {
    if parts != [] {
      ContentLeft(parts[1..]);
      assert forall i :: 0 <= i < |parts[1..]| ==> parts[1..][i] == parts[i + 1];
    }
  }

  method SessionContentText(parts: seq<Part>) returns (text: string)
    ensures text == ContentText(parts)
  {
    var texts: seq<string> := [];
    for i := 0 to |parts|
      invariant texts + CleanTexts(parts[i..]) == CleanTexts(parts)
    {
      assert parts[i..][1..] == parts[i + 1..];
      if parts[i].OtherPart? || Trim(parts[i].text) == "" {
        assert parts[i].TextPart? ==> Clean(parts[i].text) == "";
        continue;
      }
      var clean := CleanSessionText(parts[i].text);
      if clean != "" {
        assert texts + ([clean] + CleanTexts(parts[i + 1..])) == texts + [clean] + CleanTexts(parts[i + 1..]);
        texts := texts + [clean];
      }
    }
    assert parts[|parts|..] == [] && texts + [] == texts;
    text := Join(texts, "\n\n");
  }

  /** What is remembered of a message is what would be remembered had no policy been injected. */
  lemma {:induction false} RememberedAsSent(policy: string, parts: seq<Part>)
    requires ControlBlocksOnly(PolicyBlock(policy))
    ensures ContentText(InjectParts(policy, parts)) == ContentText(parts)
  {
    RememberedTexts(policy, parts);
  }

  lemma {:induction false} RememberedTexts(policy: string, parts: seq<Part>)
    requires ControlBlocksOnly(PolicyBlock(policy))
    ensures CleanTexts(InjectParts(policy, parts)) == CleanTexts(parts)
  {
    if parts != [] {
      RememberedTexts(policy, parts[1..]);
      assert InjectParts(policy, parts)[1..] == InjectParts(policy, parts[1..]);
      if parts[0].TextPart? {
        BlocksUndone(policy, parts[0].text);
      }
    }
  }
}
