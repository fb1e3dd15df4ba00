/** What the reply to an agent's stream is, told by what its events decode to. */
module AgentReplies {
  import opened Text
  import opened AgentStream

  function Decoded(decode: Decode, ev: Event): Result<string, string> {
    decode(ev.eventType, ev.data)
  }

  /** Event `k` is the first that cannot be decoded. */
  predicate FirstToFail(decode: Decode, events: seq<Event>, k: nat) {
    k < |events| && Decoded(decode, events[k]).Err? && forall i :: 0 <= i < k ==> Decoded(decode, events[i]).Ok?
  }

  predicate AllDecode(decode: Decode, events: seq<Event>) {
    forall i :: 0 <= i < |events| ==> Decoded(decode, events[i]).Ok?
  }

  /** `texts` are the non-empty texts of the events, in order: text `i` is that of event `at[i]`. */
  predicate TextsOf(decode: Decode, events: seq<Event>, texts: seq<string>, at: seq<nat>) {
    && |at| == |texts|
    && (forall i :: 0 <= i < |texts| ==>
          at[i] < |events| && Decoded(decode, events[at[i]]) == Ok(texts[i]) && texts[i] != "")
    && (forall i, j :: 0 <= i < j < |at| ==> at[i] < at[j])
    && (forall k :: 0 <= k < |events| ==> Decoded(decode, events[k]) == Ok("") || k in at)
  }

  lemma {:induction false} FirstFailure(decode: Decode, events: seq<Event>) returns (k: nat)
    requires !AllDecode(decode, events)
    ensures FirstToFail(decode, events, k)
  {
    if Decoded(decode, events[0]).Err? {
      k := 0;
    } else {
      assert forall i :: 0 <= i < |events[1..]| ==> events[1..][i] == events[i + 1];
      k := FirstFailure(decode, events[1..]);
      k := k + 1;
    }
  }

  lemma {:induction false} FailureIsTexts(decode: Decode, events: seq<Event>, k: nat)
    requires FirstToFail(decode, events, k)
    ensures Texts(decode, events) == Err(Decoded(decode, events[k]).error)
    decreases k
  {
    if k > 0 {
      FailureIsTexts(decode, events[1..], k - 1);
    }
  }

  function Shifted(at: seq<nat>): (r: seq<nat>)
    ensures |r| == |at| && forall i :: 0 <= i < |at| ==> r[i] == at[i] + 1
  {
    seq(|at|, i requires 0 <= i < |at| => at[i] + 1)
  }

  /** The same of all events but the first. */
  predicate TextsOfRest(decode: Decode, events: seq<Event>, texts: seq<string>, at: seq<nat>) {
    && |at| == |texts|
    && (forall i :: 0 <= i < |texts| ==>
          0 < at[i] < |events| && Decoded(decode, events[at[i]]) == Ok(texts[i]) && texts[i] != "")
    && (forall i, j :: 0 <= i < j < |at| ==> at[i] < at[j])
    && (forall k :: 0 < k < |events| ==> Decoded(decode, events[k]) == Ok("") || k in at)
  }

  lemma RestShifts(decode: Decode, events: seq<Event>, texts: seq<string>, at: seq<nat>)
    requires events != [] && TextsOf(decode, events[1..], texts, at)
    ensures TextsOfRest(decode, events, texts, Shifted(at))
  {
    var r := Shifted(at);
    assert forall i :: 0 <= i < |events[1..]| ==> events[1..][i] == events[i + 1];
    forall k | 0 < k < |events| ensures Decoded(decode, events[k]) == Ok("") || k in r {
      if k - 1 in at {
        var i :| 0 <= i < |at| && at[i] == k - 1;
        assert r[i] == k;
      }
    }
  }

  lemma FirstAdded(decode: Decode, events: seq<Event>, texts: seq<string>, at: seq<nat>, text: string)
    requires events != [] && TextsOfRest(decode, events, texts, at)
    requires Decoded(decode, events[0]) == Ok(text) && text != ""
    ensures TextsOf(decode, events, [text] + texts, [0] + at)
  {
    var t, a := [text] + texts, [0] + at;
    forall i | 0 <= i < |t| ensures a[i] < |events| && Decoded(decode, events[a[i]]) == Ok(t[i]) && t[i] != "" {
      if i > 0 {
        assert a[i] == at[i - 1] && t[i] == texts[i - 1];
      }
    }
    forall i, j | 0 <= i < j < |a| ensures a[i] < a[j] {
      assert a[j] == at[j - 1];
    }
    forall k | 0 <= k < |events| ensures Decoded(decode, events[k]) == Ok("") || k in a {
      assert k in a <==> k == 0 || k in at;
    }
  }

  lemma TextsOfMore(decode: Decode, events: seq<Event>, texts: seq<string>, at: seq<nat>)
    requires events != [] && TextsOf(decode, events[1..], texts, at) && Decoded(decode, events[0]).Ok?
    ensures var text := Decoded(decode, events[0]).value;
      if text == "" then TextsOf(decode, events, texts, Shifted(at))
      else TextsOf(decode, events, [text] + texts, [0] + Shifted(at))
  {
    RestShifts(decode, events, texts, at);
    if Decoded(decode, events[0]).value != "" {
      FirstAdded(decode, events, texts, Shifted(at), Decoded(decode, events[0]).value);
    }
  }

  lemma {:induction false} TextsInOrder(decode: Decode, events: seq<Event>) returns (texts: seq<string>, at: seq<nat>)
    requires AllDecode(decode, events)
    ensures Texts(decode, events) == Ok(texts) && TextsOf(decode, events, texts, at)
  {
    if events == [] {
      texts, at := [], [];
    } else {
      var more, later := TextsInOrder(decode, events[1..]);
      TextsOfMore(decode, events, more, later);
      var text := Decoded(decode, events[0]).value;
      texts := if text == "" then more else [text] + more;
      at := if text == "" then Shifted(later) else [0] + Shifted(later);
      assert [] + more == more;
    }
  }

  /** The reply is an error exactly if some event cannot be decoded, and then the first one's;
      otherwise it is the non-empty texts in order, one to a line, without the white space
      around them. A stream that breaks off never has a reply. */
  lemma ReplyExactly(decode: Decode, events: seq<Event>, broken: string)
    returns (k: nat, texts: seq<string>, at: seq<nat>)
    ensures var reply, cut := JoinedReply(Texts(decode, events)), BrokenReply(Texts(decode, events), broken);
      if AllDecode(decode, events) then
        TextsOf(decode, events, texts, at) && reply == Ok(Trim(Join(texts, "\n"))) && cut == Err(broken)
      else FirstToFail(decode, events, k) && reply == cut == Err(Decoded(decode, events[k]).error)
  {
    k, texts, at := 0, [], [];
    if AllDecode(decode, events) {
      texts, at := TextsInOrder(decode, events);
    } else {
      k := FirstFailure(decode, events);
      FailureIsTexts(decode, events, k);
    }
  }

  /** An event without a type is a message. */
  lemma UnnamedIsMessage(lines: seq<string>)
    requires Content(lines) != ""
    ensures Events(FRESH, Printed(Frame(None, lines))) == [Event("message", Content(lines))]
  {
    var f := Frame(None, lines);
    FrameDecoded("message", f, []);
    assert Printed(f) + [] == Printed(f);
    assert Events(FRESH, []) == [];
  }
}
