/** A capture call that nothing interleaves with, as a run of single turns, and the runs that
    show what happens when two sessions share a cursor key. */
module MemoryCalls {
  import opened Text
  import opened MemoryCapture
  import opened MemoryRuns
  import SessionText

  // ----- a call that nothing interleaves with -----

  function Saved(x: Ident, s: Session, destination: string, saves: seq<nat>, informed: set<string>): seq<Save>
    requires forall i :: i in saves ==> i < |s.events|
  {
    seq(|saves|, k requires 0 <= k < |saves| =>
      assert saves[k] in saves;
      Save(x, saves[k], destination, Speaker(s.events[saves[k]]), informed))
  }

  /** What a call passes over because the flow rule blocks it. */
  function BlockedBetween(
    p: Policy, x: Ident, s: Session, recorded: set<string>, destination: string, start: nat, next: nat,
    informed: set<string>): set<Save>
    requires next <= |s.events|
  {
    set i | start <= i < next && Judge(p, s.events[i], recorded, destination).Blocked? ::
      Save(x, i, destination, Speaker(s.events[i]), informed)
  }

  /** Where a capture call starts and how it goes. */
  function Call(p: Policy, state: State, s: Session, link: Link): (r: (nat, Outcome))
    requires WriteDomain(p).Some?
    ensures r.0 <= r.1.next <= |s.events| && forall i :: i in r.1.saves ==> i < |s.events|
  {
    var start := Resume(state.cursor, CursorKey(s), |s.events|).1;
    CaptureExact(p, s.events, Recorded(state, s), WriteDomain(p).value, link, start);
    (start, CaptureFrom(p, s.events, Recorded(state, s), WriteDomain(p).value, link, start))
  }

  /** What one whole capture call does. */
  function Collected(p: Policy, s: Sys, x: Ident, link: Link): Sys
    requires x in s.sessions
  {
    var session := s.sessions[x];
    var (state, saves, ok) := Capture(p, s.state, session, link);
    match WriteDomain(p)
    case None => s.(state := state)
    case Some(destination) =>
      var (start, o) := Call(p, s.state, session, link);
      s.(state := state,
         history := if o.ok then s.history + [Completed(Owner(x))] else s.history,
         acked := s.acked + Saved(x, session, destination, o.saves, ReadsSince(s.history, Owner(x))),
         blocked := s.blocked + BlockedBetween(
           p, x, session, Recorded(s.state, session), destination, start, o.next, ReadsSince(s.history, Owner(x))))
  }

  /** What one capture call does. */
  lemma CollectShape(p: Policy, s: Sys, x: Ident, link: Link) returns (start: nat, o: Outcome)
    requires SessionsOk(s) && x in s.sessions && WriteDomain(p).Some?
    ensures (start, o) == Call(p, s.state, s.sessions[x], link)
    ensures start <= o.next <= |s.sessions[x].events| && (o.ok ==> o.next == |s.sessions[x].events|)
    ensures Lists(o.saves, start, o.next,
      AllowedAt(p, s.sessions[x].events, Recorded(s.state, s.sessions[x]), WriteDomain(p).value))
    ensures var t, session := Collected(p, s, x, link), s.sessions[x];
      && t.sessions == s.sessions
      && t.state.cursor == Advance(Resume(s.state.cursor, Key(x), |session.events|).0, Key(x), o.next)
      && start == Resume(s.state.cursor, Key(x), |session.events|).1
      && t.acked == s.acked + Saved(x, session, WriteDomain(p).value, o.saves, ReadsSince(s.history, Owner(x)))
      && t.blocked == s.blocked + BlockedBetween(p, x, session, Recorded(s.state, session), WriteDomain(p).value,
        start, o.next, ReadsSince(s.history, Owner(x)))
      && t.history == (if o.ok then s.history + [Completed(Owner(x))] else s.history)
      && t.state.turnSources == (if o.ok then s.state.turnSources - {TurnKey(x.app, x.user)} else s.state.turnSources)
  {
    var c := Call(p, s.state, s.sessions[x], link);
    start, o := c.0, c.1;
    CaptureExact(p, s.sessions[x].events, Recorded(s.state, s.sessions[x]), WriteDomain(p).value, link, start);
  }

  /** Actions of capture calls only. */
  predicate CallsOnly(run: seq<Action>) {
    forall i :: 0 <= i < |run| ==> run[i].Begin? || run[i].Turn?
  }

  /** What is left of a call that stands at its session's cursor has this outcome. */
  function Closed(p: Policy, s: Sys, x: Ident, o: Outcome): Sys
    requires x in s.sessions && x in s.calls && WriteDomain(p).Some?
    requires o.next <= |s.sessions[x].events| && forall i :: i in o.saves ==> i < |s.sessions[x].events|
  {
    var session, destination, index := s.sessions[x], WriteDomain(p).value, s.calls[x].index;
    s.(state := State(Advance(s.state.cursor, Key(x), o.next),
                      if o.ok then s.state.turnSources - {TurnKey(x.app, x.user)} else s.state.turnSources),
       calls := s.calls - {x},
       history := if o.ok then s.history + [Completed(Owner(x))] else s.history,
       acked := s.acked + Saved(x, session, destination, o.saves, ReadsSince(s.history, Owner(x))),
       blocked := s.blocked + BlockedBetween(
         p, x, session, Recorded(s.state, session), destination, index, o.next, ReadsSince(s.history, Owner(x))))
  }

  /** The call has as many events to deal with as its session has, and stands at its cursor. */
  predicate Alone(s: Sys, x: Ident) {
    && SessionsOk(s) && x in s.sessions && x in s.calls && s.calls[x].index <= s.calls[x].count
    && s.calls[x].count == |s.sessions[x].events| && Cursor(s.state.cursor, Key(x)) == s.calls[x].index
  }

  predicate Answers(link: Link, index: nat) {
    link.connects && link.acks(index)
  }

  function RestOutcome(p: Policy, s: Sys, x: Ident, link: Link): (o: Outcome)
    requires Alone(s, x) && WriteDomain(p).Some?
    ensures s.calls[x].index <= o.next <= |s.sessions[x].events|
    ensures forall i :: i in o.saves ==> i < |s.sessions[x].events|
  {
    var session, destination, index := s.sessions[x], WriteDomain(p).value, s.calls[x].index;
    CaptureExact(p, session.events, Recorded(s.state, session), destination, link, index);
    CaptureFrom(p, session.events, Recorded(s.state, session), destination, link, index)
  }

  lemma SavedFirst(x: Ident, s: Session, destination: string, first: nat, saves: seq<nat>, informed: set<string>)
    requires first < |s.events| && forall i :: i in saves ==> i < |s.events|
    ensures Saved(x, s, destination, [first] + saves, informed)
      == [Save(x, first, destination, Speaker(s.events[first]), informed)]
         + Saved(x, s, destination, saves, informed)
  {
  }

  lemma AdvanceTwice(cursor: map<string, nat>, key: string, next: nat, last: nat)
    requires Cursor(cursor, key) < next <= last
    ensures Advance(Advance(cursor, key, next), key, last) == Advance(cursor, key, last)
  {
  }

  lemma BlockedFirst(p: Policy, x: Ident, s: Session, recorded: set<string>, destination: string, start: nat,
                     next: nat, informed: set<string>)
    requires start < next <= |s.events|
    ensures BlockedBetween(p, x, s, recorded, destination, start, next, informed)
      == (if Judge(p, s.events[start], recorded, destination).Blocked?
          then {Save(x, start, destination, Speaker(s.events[start]), informed)} else {})
         + BlockedBetween(p, x, s, recorded, destination, start + 1, next, informed)
  {
  }

  function JudgedAt(p: Policy, s: Sys, x: Ident): Verdict
    requires Alone(s, x) && s.calls[x].index < s.calls[x].count && WriteDomain(p).Some?
  {
    Judge(p, s.sessions[x].events[s.calls[x].index], Recorded(s.state, s.sessions[x]), WriteDomain(p).value)
  }

  lemma PassedAlone(p: Policy, s: Sys, x: Ident)
    requires Alone(s, x) && WriteDomain(p).Some? && s.calls[x].index < s.calls[x].count
    ensures var t := Passed(p, s, x, true);
      && Alone(t, x) && t.calls[x].index == s.calls[x].index + 1 && t.sessions == s.sessions
      && t.calls - {x} == s.calls - {x} && t.history == s.history
      && t.state == s.state.(cursor := Advance(s.state.cursor, Key(x), s.calls[x].index + 1))
  {
    PassedMoves(p, s, x, true);
    var t := Passed(p, s, x, true);
    assert t.calls == s.calls[x := Progress(s.calls[x].index + 1, s.calls[x].count)];
  }

  predicate Fits(s: Sys, x: Ident, o: Outcome)
    requires Alone(s, x)
  {
    s.calls[x].index < o.next <= |s.sessions[x].events| && forall i :: i in o.saves ==> i < |s.sessions[x].events|
  }

  lemma ClosedBlocked(p: Policy, s: Sys, x: Ident, o: Outcome, o': Outcome)
    requires Alone(s, x) && WriteDomain(p).Some? && Fits(s, x, o) && Fits(s, x, o') && o.next == o'.next
    ensures Closed(p, Passed(p, s, x, true), x, o).blocked == Closed(p, s, x, o').blocked
  {
    var session, index := s.sessions[x], s.calls[x].index;
    PassedAlone(p, s, x);
    BlockedFirst(p, x, session, Recorded(s.state, session), WriteDomain(p).value, index, o.next,
      ReadsSince(s.history, Owner(x)));
  }

  lemma ClosedSaved(p: Policy, s: Sys, x: Ident, o: Outcome)
    requires Alone(s, x) && WriteDomain(p).Some? && Fits(s, x, o) && JudgedAt(p, s, x).Allowed?
    ensures Closed(p, Passed(p, s, x, true), x, o).acked
      == Closed(p, s, x, Preceded([s.calls[x].index], o)).acked
  {
    PassedAlone(p, s, x);
    SavedFirst(x, s.sessions[x], WriteDomain(p).value, s.calls[x].index, o.saves, ReadsSince(s.history, Owner(x)));
  }

  lemma ClosedState(p: Policy, s: Sys, x: Ident, o: Outcome, o': Outcome)
    requires Alone(s, x) && WriteDomain(p).Some? && Fits(s, x, o) && Fits(s, x, o')
    requires o.next == o'.next && o.ok == o'.ok
    ensures var c, c' := Closed(p, Passed(p, s, x, true), x, o), Closed(p, s, x, o');
      c.state == c'.state && c.sessions == c'.sessions && c.calls == c'.calls && c.history == c'.history
  {
    PassedAlone(p, s, x);
    AdvanceTwice(s.state.cursor, Key(x), s.calls[x].index + 1, o.next);
  }

  /** A turn that passes over an event leaves the rest of the call to do. */
  lemma TurnPasses(p: Policy, s: Sys, x: Ident, o: Outcome)
    requires Alone(s, x) && WriteDomain(p).Some? && Fits(s, x, o) && !JudgedAt(p, s, x).Allowed?
    ensures Closed(p, Passed(p, s, x, true), x, o) == Closed(p, s, x, o)
  {
    PassedAlone(p, s, x);
    assert Passed(p, s, x, true).acked == s.acked;
    ClosedBlocked(p, s, x, o, o);
    ClosedState(p, s, x, o, o);
  }

  /** And so does one that saves it. */
  lemma TurnSaves(p: Policy, s: Sys, x: Ident, o: Outcome)
    requires Alone(s, x) && WriteDomain(p).Some? && Fits(s, x, o) && JudgedAt(p, s, x).Allowed?
    ensures Closed(p, Passed(p, s, x, true), x, o) == Closed(p, s, x, Preceded([s.calls[x].index], o))
  {
    var o' := Preceded([s.calls[x].index], o);
    PassedAlone(p, s, x);
    ClosedSaved(p, s, x, o);
    ClosedBlocked(p, s, x, o, o');
    ClosedState(p, s, x, o, o');
  }

  lemma RestIsTurn(p: Policy, s: Sys, x: Ident, link: Link)
    requires Alone(s, x) && WriteDomain(p).Some?
    ensures var t := Next(p, s, Turn(x, Answers(link, s.calls[x].index)));
      if x in t.calls then Alone(t, x) && t.calls[x].index == s.calls[x].index + 1 && t.sessions == s.sessions
        && Closed(p, t, x, RestOutcome(p, t, x, link)) == Closed(p, s, x, RestOutcome(p, s, x, link))
      else t == Closed(p, s, x, RestOutcome(p, s, x, link))
  {
    var index := s.calls[x].index;
    var t := Next(p, s, Turn(x, Answers(link, index)));
    if x in t.calls {
      assert t == Passed(p, s, x, true);
      PassedAlone(p, s, x);
      if JudgedAt(p, s, x).Allowed? {
        TurnSaves(p, s, x, RestOutcome(p, t, x, link));
      } else {
        TurnPasses(p, s, x, RestOutcome(p, t, x, link));
      }
    }
  }

  lemma {:induction false} TurnsAreRest(p: Policy, s: Sys, x: Ident, link: Link) returns (run: seq<Action>)
    requires Alone(s, x) && WriteDomain(p).Some?
    ensures CallsOnly(run) && After(p, s, run) == Closed(p, s, x, RestOutcome(p, s, x, link))
    decreases |s.sessions[x].events| - s.calls[x].index
  {
    var turn := Turn(x, Answers(link, s.calls[x].index));
    var t := Next(p, s, turn);
    RestIsTurn(p, s, x, link);
    if x in t.calls {
      var more := TurnsAreRest(p, t, x, link);
      run := [turn] + more;
    } else {
      run := [turn];
      assert run[1..] == [];
    }
  }

  /** A call that nothing interleaves with is the capture call, whatever the link. */
  lemma CallIsARun(p: Policy, s: Sys, x: Ident, link: Link) returns (run: seq<Action>)
    requires SessionsOk(s) && x in s.sessions && x !in s.calls
    ensures CallsOnly(run) && Run(p, run) && After(p, s, run) == Collected(p, s, x, link)
  {
    var begun := Next(p, s, Begin(x));
    if WriteDomain(p).None? {
      run := [Begin(x)];
      assert run[1..] == [];
    } else {
      var more := TurnsAreRest(p, begun, x, link);
      run := [Begin(x)] + more;
      assert run[1..] == more;
      assert begun.calls - {x} == s.calls;
    }
  }

  // ----- sessions that share a cursor -----

  function Said(author: string): Event {
    Event(author, "", Some([SessionText.TextPart("x")]), false)
  }

  lemma SaidHasPayload(author: string)
    ensures HasPayload(Said(author))
  {
    SessionText.OneLetter();
    var parts := [SessionText.TextPart("x")];
    assert parts[1..] == [] && SessionText.CleanTexts(parts) == ["x"];
  }

  /** The memory server is reached and acknowledges every save. */
  const WORKING := Link(true, (i: nat) => true)

  /** A call that finds one new event it may save, and saves it. */
  lemma OneSaved(p: Policy, s: Sys, x: Ident)
    requires SessionsOk(s) && x in s.sessions && |s.sessions[x].events| == 1 && Cursor(s.state.cursor, Key(x)) == 0
    requires WriteDomain(p).Some?
    requires Judge(p, s.sessions[x].events[0], Recorded(s.state, s.sessions[x]), WriteDomain(p).value).Allowed?
    ensures var t := Collected(p, s, x, WORKING);
      && t.sessions == s.sessions && t.state.cursor == s.state.cursor[Key(x) := 1]
      && t.acked == s.acked +
           [Save(x, 0, WriteDomain(p).value, Speaker(s.sessions[x].events[0]), ReadsSince(s.history, Owner(x)))]
  {
    var session, destination := s.sessions[x], WriteDomain(p).value;
    var o := CaptureFrom(p, session.events, Recorded(s.state, session), destination, WORKING, 0);
    assert CaptureFrom(p, session.events, Recorded(s.state, session), destination, WORKING, 1) == Outcome(1, [], true);
    assert o == Outcome(1, [0], true);
    var start, c := CollectShape(p, s, x, WORKING);
    assert Saved(x, session, destination, [0], ReadsSince(s.history, Owner(x)))
      == [Save(x, 0, destination, Speaker(session.events[0]), ReadsSince(s.history, Owner(x)))];
  }

  /** A call that finds its session at an end reports success and saves nothing. */
  lemma NoneSaved(p: Policy, s: Sys, x: Ident, link: Link)
    requires SessionsOk(s) && x in s.sessions && |s.sessions[x].events| == Cursor(s.state.cursor, Key(x))
    requires WriteDomain(p).Some?
    ensures var t := Collected(p, s, x, link);
      && t.sessions == s.sessions && t.state.cursor == s.state.cursor && t.acked == s.acked && t.blocked == s.blocked
      && t.history == s.history + [Completed(Owner(x))]
      && t.state.turnSources == s.state.turnSources - {TurnKey(x.app, x.user)}
      && Capture(p, s.state, s.sessions[x], link).2
  {
    var start, c := CollectShape(p, s, x, link);
    assert c == Outcome(start, [], true);
    assert Saved(x, s.sessions[x], WriteDomain(p).value, [], ReadsSince(s.history, Owner(x))) == [];
  }

  lemma {:induction false} AfterConcat(p: Policy, s: Sys, a: seq<Action>, b: seq<Action>)
    ensures After(p, s, a + b) == After(p, After(p, s, a), b)
    decreases |a|
  {
    if a == [] {
      assert a + b == b;
    } else {
      assert (a + b)[1..] == a[1..] + b;
      AfterConcat(p, Next(p, s, a[0]), a[1..], b);
    }
  }

  /** One more action. */
  lemma AfterMore(p: Policy, s: Sys, run: seq<Action>, a: Action)
    requires Run(p, run) && Admissible(p, a)
    ensures Run(p, run + [a]) && After(p, s, run + [a]) == Next(p, After(p, s, run), a)
  {
    AfterConcat(p, s, run, [a]);
    var t := After(p, s, run);
    assert [a][1..] == [] && After(p, t, [a]) == After(p, Next(p, t, a), []);
  }

  lemma AfterCall(p: Policy, run: seq<Action>, x: Ident, link: Link) returns (more: seq<Action>)
    requires Run(p, run)
    requires var s := After(p, Init(), run); SessionsOk(s) && x in s.sessions && x !in s.calls
    ensures run <= more && CallsOnly(more[|run|..]) && Run(p, more)
    ensures After(p, Init(), more) == Collected(p, After(p, Init(), run), x, link)
  {
    var call := CallIsARun(p, After(p, Init(), run), x, link);
    AfterConcat(p, Init(), run, call);
    more := run + call;
  }

  /** A new session with one event. */
  lemma OpenedWithOne(p: Policy, run: seq<Action>, x: Ident, event: Event) returns (more: seq<Action>)
    requires Run(p, run) && x !in After(p, Init(), run).sessions && SessionsOk(After(p, Init(), run))
    ensures Run(p, more) && more == run + [Open(x), Append(x, event)]
    ensures var s, t := After(p, Init(), run), After(p, Init(), more);
      && SessionsOk(t) && t == s.(sessions := s.sessions[x := Session(x.app, x.user, x.id, [event])])
  {
    AfterMore(p, Init(), run, Open(x));
    more := run + [Open(x)];
    AfterMore(p, Init(), more, Append(x, event));
    more := more + [Append(x, event)];
    assert [] + [event] == [event];
  }

  /** A lone domain that may be read and written. */
  const ONE_DOMAIN := Policy(["d"], "d", {"d"}, map[])

  lemma UserMayBeSaved(recorded: set<string>)
    ensures WriteDomain(ONE_DOMAIN) == Some("d") && Judge(ONE_DOMAIN, Said("user"), recorded, "d").Allowed?
  {
    SaidHasPayload("user");
    TrimFixed("user");
    assert "d" in ONE_DOMAIN.domains;
  }

  /** The session's first event is behind its cursor, though nothing was done about it. */
  predicate Skips(s: Sys, y: Ident) {
    && y in s.sessions && |s.sessions[y].events| == 1 && Cursor(s.state.cursor, Key(y)) == 1
    && !Dealt(s, y, 0)
  }

  /** The first session has been captured to its end. */
  lemma FirstCaptured(x: Ident) returns (run: seq<Action>)
    ensures Run(ONE_DOMAIN, run) && OpensOnly(run, {x})
    ensures var s := After(ONE_DOMAIN, Init(), run);
      && SessionsOk(s) && s.sessions.Keys == {x} && s.calls == map[] && Cursor(s.state.cursor, Key(x)) == 1
      && (forall y :: y != x ==> !AckedAt(s.acked, y, 0) && !BlockedAt(s.blocked, y, 0))
  {
    var p := ONE_DOMAIN;
    var ready := OpenedWithOne(p, [], x, Said("user"));
    var s := After(p, Init(), ready);
    UserMayBeSaved(Recorded(s.state, s.sessions[x]));
    OneSaved(p, s, x);
    run := AfterCall(p, ready, x, WORKING);
    OnlyCalls(ready, run, {x});
  }

  lemma OnlyCalls(run: seq<Action>, more: seq<Action>, sessions: set<Ident>)
    requires run <= more && CallsOnly(more[|run|..]) && OpensOnly(run, sessions)
    ensures OpensOnly(more, sessions)
  {
    forall i | 0 <= i < |more| ensures more[i].Open? ==> more[i].session in sessions {
      if i < |run| {
        assert more[i] == run[i];
      } else {
        assert more[i] == more[|run|..][i - |run|];
      }
    }
  }

  /** Reachable for any two sessions that share a cursor key: the first is captured to its
      end, and a successful call passes over the second one's event, which has a payload and
      which no rule blocks. */
  lemma SharedKeySkips(x: Ident, y: Ident) returns (run: seq<Action>)
    requires x != y && Key(x) == Key(y)
    ensures Run(ONE_DOMAIN, run) && OpensOnly(run, {x, y}) && Skips(After(ONE_DOMAIN, Init(), run), y)
  {
    var p := ONE_DOMAIN;
    var first := FirstCaptured(x);
    var ready := OpenedWithOne(p, first, y, Said("user"));
    var s := After(p, Init(), ready);
    SaidHasPayload("user");
    UserMayBeSaved({});
    NoneSaved(p, s, y, WORKING);
    run := AfterCall(p, ready, y, WORKING);
    OnlyCalls(ready, run, {x, y});
  }

  /** Every run, under every policy, that opens only these sessions keeps capture sound exactly
      if no two of them share a cursor key. */
  lemma KeysApartExactly(sessions: set<Ident>)
    ensures KeysApart(sessions) <==>
      forall p, run :: Run(p, run) && OpensOnly(run, sessions) ==> CaptureOk(After(p, Init(), run))
  {
    if KeysApart(sessions) {
      forall p, run | Run(p, run) && OpensOnly(run, sessions) ensures CaptureOk(After(p, Init(), run)) {
        CaptureAlways(p, Init(), run, sessions);
      }
    } else {
      var x, y :| x in sessions && y in sessions && Key(x) == Key(y) && x != y;
      var run := SharedKeySkips(x, y);
      assert !Covered(After(ONE_DOMAIN, Init(), run));
    }
  }

  /** Two such sessions. */
  lemma SessionSkipped()
    ensures exists run :: Run(ONE_DOMAIN, run) && Skips(After(ONE_DOMAIN, Init(), run), Ident("a", "b", "c:d"))
  {
    var x, y := Ident("a", "b:c", "d"), Ident("a", "b", "c:d");
    assert Key(x) == "a:b:c:d" == Key(y);
    var run := SharedKeySkips(x, y);
  }
}
