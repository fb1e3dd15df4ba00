/** What is remembered of a message, told by the markers it starts with. */
module SessionMarkers {
  import opened Text
  import opened SessionText

  /** A message of the runtime itself, which nobody is to see. */
  predicate StartsHidden(text: string) {
    || "[[AGENT_AWESOME_HIDDEN_RUNTIME_MESSAGE]]" <= text
    || "[[AURORA_HIDDEN_RUNTIME_MESSAGE]]" <= text
  }

  /** A policy or a context that was put in front of the message. */
  predicate StartsControl(text: string) {
    || "[[AGENT_AWESOME_RUNTIME_POLICY:" <= text
    || "[[AGENT_AWESOME_SESSION_CONTEXT:" <= text
    || "[[AURORA_RUNTIME_POLICY:" <= text
    || "[[AURORA_SESSION_CONTEXT:" <= text
  }

  lemma HiddenPrefixes(text: string)
    ensures HasAnyPrefix(text, HIDDEN) <==> StartsHidden(text)
  {
    assert HIDDEN[0] == "[[AGENT_AWESOME_HIDDEN_RUNTIME_MESSAGE]]";
    assert HIDDEN[1] == "[[AURORA_HIDDEN_RUNTIME_MESSAGE]]";
    if StartsHidden(text) {
      assert HasPrefix(text, HIDDEN[0]) || HasPrefix(text, HIDDEN[1]);
    }
  }

  lemma ControlPrefixes(text: string)
    ensures HasAnyPrefix(text, CONTROL) <==> StartsControl(text)
  {
    assert CONTROL[0] == "[[AGENT_AWESOME_RUNTIME_POLICY:" && CONTROL[1] == "[[AGENT_AWESOME_SESSION_CONTEXT:";
    assert CONTROL[2] == "[[AURORA_RUNTIME_POLICY:" && CONTROL[3] == "[[AURORA_SESSION_CONTEXT:";
    if StartsControl(text) {
      assert HasPrefix(text, CONTROL[0]) || HasPrefix(text, CONTROL[1]) || HasPrefix(text, CONTROL[2])
        || HasPrefix(text, CONTROL[3]);
    }
  }

  /** A hidden message is remembered as nothing; a control block in front is skipped up to its
      closing brackets, and an open one takes everything with it; anything else is remembered
      as it is, without the white space around it. */
  lemma RememberedExactly(text: string)
    ensures var t := Trim(text);
      if StartsHidden(t) then Clean(text) == ""
      else if StartsControl(t) then
        if Index(t, "]]") < 0 then Clean(text) == "" else Clean(text) == Clean(t[Index(t, "]]") + 2..])
      else Clean(text) == t
  {
    TrimTwice(text);
    HiddenPrefixes(Trim(text));
    ControlPrefixes(Trim(text));
    assert CleanTrimmed("") == "" && !StartsHidden("") && !StartsControl("");
    if StartsControl(Trim(text)) && !StartsHidden(Trim(text)) {
      assert Clean(text) == CleanTrimmed(TrimLeadingControlBlock(Trim(text)));
    }
  }

  /** So a part of a hidden message adds nothing to what is remembered, whatever policy was
      injected in front of it. */
  lemma HiddenAddsNothing(policy: string, text: string)
    requires StartsHidden(Trim(text)) && ControlBlocksOnly(PolicyBlock(policy))
    ensures ContentText([TextPart(text)]) == "" && ContentText(InjectParts(policy, [TextPart(text)])) == ""
  {
    RememberedExactly(text);
    var parts := [TextPart(text)];
    assert parts[1..] == [];
    assert CleanTexts(parts) == [];
    RememberedAsSent(policy, parts);
  }
}
