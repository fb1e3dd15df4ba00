/** Memory capture over any run: sessions that only grow, searches at any time, and capture
    calls that deal with one event at a time and may fail at any save. Calls for different
    sessions interleave; a session has one call at a time. Sessions are known by application,
    user and id, and users by application and user: the code's cursor keys and turn keys are
    left to coincide as they may. */
module MemoryRuns {
  import opened Text
  import opened MemoryCapture

  datatype Ident = Ident(app: string, user: string, id: string)

  datatype Person = Person(app: string, user: string)

  function Who(app: string, user: string): Person {
    Person(Trim(app), Trim(user))
  }

  /** History: what searches returned for a user, and completed captures. */
  datatype Happening = Read(who: Person, domains: set<string>) | Completed(who: Person)

  /** A save, acknowledged or blocked, with what its user had read since the last completed
      capture when it was judged. */
  datatype Save = Save(session: Ident, index: nat, destination: string, speaker: string, informed: set<string>)

  /** A capture call has come to `index` of the `count` events there were when it began. */
  datatype Progress = Progress(index: nat, count: nat)

  datatype Sys = Sys(
    state: State, sessions: map<Ident, Session>, calls: map<Ident, Progress>,
    history: seq<Happening>, acked: seq<Save>, blocked: set<Save>)

  /** `Begin` starts a capture call and `Turn` is one turn of its loop, or its end; `ok` says
      whether the memory server is reached and acknowledges the save, if there is one. */
  datatype Action =
    | Open(session: Ident)
    | Append(session: Ident, event: Event)
    | Search(app: string, user: string, domains: set<string>)
    | Begin(session: Ident)
    | Turn(session: Ident, ok: bool)

  function Init(): Sys {
    Sys(State(map[], map[]), map[], map[], [], [], {})
  }

  function Key(x: Ident): string {
    SessionKey(x.app, x.user, x.id)
  }

  function Owner(x: Ident): Person {
    Who(x.app, x.user)
  }

  /** What was returned for a user since the last completed capture of one of that user's
      sessions. */
  function ReadsSince(history: seq<Happening>, who: Person): set<string> {
    if history == [] then {}
    else
      match history[|history| - 1]
      case Read(w, domains) => ReadsSince(history[..|history| - 1], who) + if w == who then domains else {}
      case Completed(w) => if w == who then {} else ReadsSince(history[..|history| - 1], who)
  }

  /** The call goes on behind the event it has dealt with. */
  function Moved(s: Sys, x: Ident): Sys
    requires x in s.calls
  {
    var Progress(index, count) := s.calls[x];
    s.(state := s.state.(cursor := Advance(s.state.cursor, Key(x), index + 1)),
       calls := s.calls[x := Progress(index + 1, count)])
  }

  /** One turn of the loop. */
  function Passed(p: Policy, s: Sys, x: Ident, ok: bool): Sys
    requires x in s.sessions && x in s.calls && s.calls[x].index < |s.sessions[x].events| && WriteDomain(p).Some?
  {
    var session, index, destination := s.sessions[x], s.calls[x].index, WriteDomain(p).value;
    var save := Save(x, index, destination, Speaker(session.events[index]), ReadsSince(s.history, Owner(x)));
    match Judge(p, session.events[index], Recorded(s.state, session), destination)
    case NoPayload => Moved(s, x)
    case Blocked => Moved(s, x).(blocked := s.blocked + {save})
    case Allowed => if ok then Moved(s, x).(acked := s.acked + [save]) else s.(calls := s.calls - {x})
  }

  /** The call is through: the turn's sources are forgotten. */
  function Finished(s: Sys, x: Ident): Sys {
    s.(state := s.state.(turnSources := s.state.turnSources - {TurnKey(x.app, x.user)}),
       history := s.history + [Completed(Owner(x))], calls := s.calls - {x})
  }

  function Next(p: Policy, s: Sys, a: Action): Sys {
    match a
    case Open(x) =>
      if x in s.sessions then s else s.(sessions := s.sessions[x := Session(x.app, x.user, x.id, [])])
    case Append(x, event) =>
      if x !in s.sessions then s
      else s.(sessions := s.sessions[x := s.sessions[x].(events := s.sessions[x].events + [event])])
    case Search(app, user, domains) =>
      s.(state := s.state.(turnSources := MarkSources(s.state.turnSources, TurnKey(app, user), domains)),
         history := s.history + [Read(Who(app, user), domains)])
    case Begin(x) =>
      if x !in s.sessions || x in s.calls then s
      else
        var count := |s.sessions[x].events|;
        var (cursor, start) := Resume(s.state.cursor, Key(x), count);
        s.(state := s.state.(cursor := cursor),
           calls := if WriteDomain(p).None? then s.calls else s.calls[x := Progress(start, count)])
    case Turn(x, ok) =>
      if x !in s.sessions || x !in s.calls || WriteDomain(p).None? then s
      else if s.calls[x].index < s.calls[x].count <= |s.sessions[x].events| then Passed(p, s, x, ok)
      else Finished(s, x)
  }

  /** Searches return memories of configured domains. */
  predicate Admissible(p: Policy, a: Action) {
    a.Search? ==> forall d :: d in a.domains ==> d in p.domains
  }

  function After(p: Policy, s: Sys, run: seq<Action>): Sys
    decreases |run|
  {
    if run == [] then s else After(p, Next(p, s, run[0]), run[1..])
  }

  predicate Run(p: Policy, run: seq<Action>) {
    forall i :: 0 <= i < |run| ==> Admissible(p, run[i])
  }

  /** Sessions are what their idents say. */
  predicate SessionsOk(s: Sys) {
    forall x :: x in s.sessions ==>
      s.sessions[x].app == x.app && s.sessions[x].user == x.user && s.sessions[x].id == x.id
  }

  lemma SessionsStep(p: Policy, s: Sys, a: Action)
    requires SessionsOk(s)
    ensures SessionsOk(Next(p, s, a))
    ensures forall x :: x in s.sessions ==> x in Next(p, s, a).sessions
    ensures forall x :: x in Next(p, s, a).sessions ==> x in s.sessions || (a.Open? && a.session == x)
  {
  }

  // ----- the cursor -----

  /** No two of the sessions share a cursor key. */
  predicate KeysApart(sessions: set<Ident>) {
    forall x, y :: x in sessions && y in sessions && Key(x) == Key(y) ==> x == y
  }

  /** Every session opened along the run is one of these. */
  predicate OpensOnly(run: seq<Action>, sessions: set<Ident>) {
    forall i :: 0 <= i < |run| && run[i].Open? ==> run[i].session in sessions
  }

  predicate AckedAt(acked: seq<Save>, x: Ident, index: nat) {
    exists i :: 0 <= i < |acked| && acked[i].session == x && acked[i].index == index
  }

  predicate CursorsWithin(s: Sys) {
    && (forall x :: x in s.sessions ==> Cursor(s.state.cursor, Key(x)) <= |s.sessions[x].events|)
    && (forall key :: key in s.state.cursor ==> exists x :: x in s.sessions && Key(x) == key)
  }

  /** A call under way stands at its session's cursor. */
  predicate CallsOk(s: Sys) {
    forall x :: x in s.calls ==>
      && x in s.sessions && s.calls[x].index == Cursor(s.state.cursor, Key(x))
      && s.calls[x].index <= s.calls[x].count <= |s.sessions[x].events|
  }

  predicate CursorsOk(s: Sys) {
    SessionsOk(s) && CursorsWithin(s) && CallsOk(s)
  }

  predicate BlockedAt(blocked: set<Save>, x: Ident, index: nat) {
    exists save :: save in blocked && save.session == x && save.index == index
  }

  predicate Dealt(s: Sys, x: Ident, n: nat)
    requires x in s.sessions && n < |s.sessions[x].events|
  {
    AckedAt(s.acked, x, n) || !HasPayload(s.sessions[x].events[n]) || BlockedAt(s.blocked, x, n)
  }

  /** Every event behind a cursor was saved, had nothing to save, or was blocked. */
  predicate Covered(s: Sys) {
    forall x, n: nat :: x in s.sessions && n < Cursor(s.state.cursor, Key(x)) && n < |s.sessions[x].events| ==>
      Dealt(s, x, n)
  }

  /** Acknowledged saves are behind their cursors, and of one session strictly increasing. */
  predicate AckedInOrder(s: Sys) {
    && (forall i :: 0 <= i < |s.acked| ==>
          s.acked[i].session in s.sessions && s.acked[i].index < Cursor(s.state.cursor, Key(s.acked[i].session)))
    && EachIncreases(s.acked)
  }

  predicate EachIncreases(acked: seq<Save>) {
    forall i, j :: 0 <= i < j < |acked| && acked[i].session == acked[j].session ==> acked[i].index < acked[j].index
  }

  predicate CaptureOk(s: Sys) {
    CursorsOk(s) && Covered(s) && AckedInOrder(s)
  }

  lemma AckedMore(acked: seq<Save>, save: Save, x: Ident, n: nat)
    ensures AckedAt(acked + [save], x, n) <==> AckedAt(acked, x, n) || (save.session == x && save.index == n)
  {
    var all := acked + [save];
    assert all[|acked|] == save;
    if i :| 0 <= i < |acked| && acked[i].session == x && acked[i].index == n {
      assert all[i] == acked[i];
    }
  }

  /** `t` is the state after the call has dealt with the event it had come to. */
  predicate Deals(s: Sys, t: Sys, x: Ident) {
    && x in s.calls && s.calls[x].index < s.calls[x].count
    && t.state.cursor == Moved(s, x).state.cursor && t.calls == Moved(s, x).calls && t.sessions == s.sessions
  }

  lemma DealsCursor(s: Sys, t: Sys, x: Ident)
    requires CallsOk(s) && Deals(s, t, x)
    ensures forall key ::
      Cursor(t.state.cursor, key) == if key == Key(x) then s.calls[x].index + 1 else Cursor(s.state.cursor, key)
    ensures t.state.cursor.Keys == s.state.cursor.Keys + {Key(x)}
  {
    assert t.state.cursor == s.state.cursor[Key(x) := s.calls[x].index + 1];
  }

  lemma DealsWithin(s: Sys, t: Sys, x: Ident)
    requires CursorsOk(s) && KeysApart(s.sessions.Keys) && Deals(s, t, x)
    ensures CursorsWithin(t)
  {
    DealsCursor(s, t, x);
    assert s.calls[x].index < |s.sessions[x].events|;
  }

  lemma DealsCalls(s: Sys, t: Sys, x: Ident)
    requires CallsOk(s) && KeysApart(s.sessions.Keys) && Deals(s, t, x)
    ensures CallsOk(t)
  {
    DealsCursor(s, t, x);
  }

  lemma DealsCovered(s: Sys, t: Sys, x: Ident)
    requires CursorsOk(s) && Covered(s) && KeysApart(s.sessions.Keys) && Deals(s, t, x)
    requires forall y, n: nat :: AckedAt(s.acked, y, n) ==> AckedAt(t.acked, y, n)
    requires s.blocked <= t.blocked && Dealt(t, x, s.calls[x].index)
    ensures Covered(t)
  {
    DealsCursor(s, t, x);
    forall y, n: nat | y in t.sessions && n < Cursor(t.state.cursor, Key(y)) && n < |t.sessions[y].events|
      ensures Dealt(t, y, n)
    {
      if n < Cursor(s.state.cursor, Key(y)) {
        assert Dealt(s, y, n);
      }
    }
  }

  lemma IncreasesOn(acked: seq<Save>, save: Save)
    requires EachIncreases(acked)
    requires forall i :: 0 <= i < |acked| && acked[i].session == save.session ==> acked[i].index < save.index
    ensures EachIncreases(acked + [save])
  {
  }

  lemma SavedInOrder(s: Sys, t: Sys, x: Ident, save: Save)
    requires CallsOk(s) && AckedInOrder(s) && Deals(s, t, x)
    requires save.session == x && save.index == s.calls[x].index && t.acked == s.acked + [save]
    ensures AckedInOrder(t)
  {
    DealsCursor(s, t, x);
    IncreasesOn(s.acked, save);
  }

  lemma SavedStep(s: Sys, t: Sys, x: Ident, save: Save)
    requires CaptureOk(s) && KeysApart(s.sessions.Keys) && Deals(s, t, x)
    requires save.session == x && save.index == s.calls[x].index
    requires t.acked == s.acked + [save] && t.blocked == s.blocked
    ensures CaptureOk(t)
  {
    forall y, n: nat ensures AckedAt(t.acked, y, n) <==> AckedAt(s.acked, y, n) || (x == y && n == save.index) {
      AckedMore(s.acked, save, y, n);
    }
    DealsWithin(s, t, x);
    DealsCalls(s, t, x);
    DealsCovered(s, t, x);
    SavedInOrder(s, t, x, save);
  }

  lemma UnsavedStep(s: Sys, t: Sys, x: Ident)
    requires CaptureOk(s) && KeysApart(s.sessions.Keys) && Deals(s, t, x)
    requires t.acked == s.acked && s.blocked <= t.blocked && Dealt(t, x, s.calls[x].index)
    ensures CaptureOk(t)
  {
    DealsCursor(s, t, x);
    DealsWithin(s, t, x);
    DealsCalls(s, t, x);
    DealsCovered(s, t, x);
  }

  lemma PassedStep(p: Policy, s: Sys, x: Ident, ok: bool)
    requires CaptureOk(s) && KeysApart(s.sessions.Keys) && x in s.calls && WriteDomain(p).Some?
    requires s.calls[x].index < s.calls[x].count
    ensures CaptureOk(Passed(p, s, x, ok))
  {
    var t, index, session := Passed(p, s, x, ok), s.calls[x].index, s.sessions[x];
    match Judge(p, session.events[index], Recorded(s.state, session), WriteDomain(p).value)
    case Allowed =>
      if ok {
        SavedStep(s, t, x, t.acked[|s.acked|]);
      } else {
        SameCapture(s, t);
      }
    case Blocked => UnsavedStep(s, t, x);
    case NoPayload => UnsavedStep(s, t, x);
  }

  /** A turn that does not end the call leaves it behind the event. */
  lemma PassedMoves(p: Policy, s: Sys, x: Ident, ok: bool)
    requires x in s.sessions && x in s.calls && s.calls[x].index < |s.sessions[x].events| && WriteDomain(p).Some?
    ensures var t := Passed(p, s, x, ok);
      && t.sessions == s.sessions && t.history == s.history
      && (if x in t.calls then t.state == Moved(s, x).state && t.calls == Moved(s, x).calls else t.state == s.state)
      && (ok ==> x in t.calls)
  {
  }

  lemma TurnCursor(p: Policy, s: Sys, x: Ident, ok: bool)
    ensures forall key :: Cursor(s.state.cursor, key) <= Cursor(Next(p, s, Turn(x, ok)).state.cursor, key)
  {
    if x in s.sessions && x in s.calls && s.calls[x].index < |s.sessions[x].events| && WriteDomain(p).Some? {
      PassedMoves(p, s, x, ok);
    }
  }

  /** The same sessions, cursors and saves, and no call that was not under way. */
  lemma SameCapture(s: Sys, t: Sys)
    requires CaptureOk(s) && t.sessions == s.sessions && t.acked == s.acked && t.blocked == s.blocked
    requires t.state.cursor == s.state.cursor && t.calls.Items <= s.calls.Items
    ensures CaptureOk(t)
  {
    assert forall x :: x in t.calls ==> (x, t.calls[x]) in t.calls.Items;
    forall x, n: nat | x in t.sessions && n < Cursor(t.state.cursor, Key(x)) && n < |t.sessions[x].events|
      ensures Dealt(t, x, n)
    {
      assert Dealt(s, x, n);
    }
  }

  lemma AppendStep(p: Policy, s: Sys, x: Ident, event: Event)
    requires CaptureOk(s) && x in s.sessions
    ensures CaptureOk(Next(p, s, Append(x, event)))
  {
    var t := Next(p, s, Append(x, event));
    forall y, n: nat | y in t.sessions && n < Cursor(t.state.cursor, Key(y)) && n < |t.sessions[y].events|
      ensures Dealt(t, y, n)
    {
      assert t.sessions[y].events[n] == s.sessions[y].events[n];
      assert Dealt(s, y, n);
    }
  }

  lemma OpenStep(p: Policy, s: Sys, x: Ident)
    requires CaptureOk(s) && KeysApart(s.sessions.Keys + {x})
    ensures CaptureOk(Next(p, s, Open(x)))
  {
    var t := Next(p, s, Open(x));
    if x !in s.sessions {
      assert Key(x) !in s.state.cursor;
      forall y, n: nat | y in t.sessions && n < Cursor(t.state.cursor, Key(y)) && n < |t.sessions[y].events|
        ensures Dealt(t, y, n)
      {
        assert Dealt(s, y, n);
      }
    }
  }

  lemma BeginStep(p: Policy, s: Sys, x: Ident)
    requires CaptureOk(s)
    ensures CaptureOk(Next(p, s, Begin(x))) && Next(p, s, Begin(x)).state.cursor == s.state.cursor
  {
    var t := Next(p, s, Begin(x));
    forall y, n: nat | y in t.sessions && n < Cursor(t.state.cursor, Key(y)) && n < |t.sessions[y].events|
      ensures Dealt(t, y, n)
    {
      assert Dealt(s, y, n);
    }
  }

  lemma TurnStep(p: Policy, s: Sys, x: Ident, ok: bool)
    requires CaptureOk(s) && KeysApart(s.sessions.Keys)
    ensures CaptureOk(Next(p, s, Turn(x, ok)))
    ensures forall key :: Cursor(s.state.cursor, key) <= Cursor(Next(p, s, Turn(x, ok)).state.cursor, key)
  {
    TurnCursor(p, s, x, ok);
    if x in s.calls && WriteDomain(p).Some? {
      if s.calls[x].index < s.calls[x].count {
        PassedStep(p, s, x, ok);
      } else {
        SameCapture(s, Finished(s, x));
      }
    }
  }

  lemma CaptureStep(p: Policy, s: Sys, a: Action, sessions: set<Ident>)
    requires CaptureOk(s) && KeysApart(sessions) && s.sessions.Keys <= sessions && (a.Open? ==> a.session in sessions)
    ensures CaptureOk(Next(p, s, a)) && Next(p, s, a).sessions.Keys <= sessions
    ensures forall key :: Cursor(s.state.cursor, key) <= Cursor(Next(p, s, a).state.cursor, key)
  {
    SessionsStep(p, s, a);
    match a
    case Open(x) => OpenStep(p, s, x);
    case Append(x, event) => if x in s.sessions { AppendStep(p, s, x, event); }
    case Search(_, _, _) => SameCapture(s, Next(p, s, a));
    case Begin(x) => BeginStep(p, s, x);
    case Turn(x, ok) => TurnStep(p, s, x, ok);
  }

  /** Over every run whose sessions have cursor keys of their own, through any failures:
      acknowledged saves of a session have strictly increasing indices, cursors never go back,
      and every event behind a cursor was saved, had no payload, or was blocked by policy. */
  lemma {:induction false} CaptureAlways(p: Policy, s: Sys, run: seq<Action>, sessions: set<Ident>)
    requires CaptureOk(s) && KeysApart(sessions) && s.sessions.Keys <= sessions && OpensOnly(run, sessions)
    ensures CaptureOk(After(p, s, run)) && After(p, s, run).sessions.Keys <= sessions
    ensures forall key :: Cursor(s.state.cursor, key) <= Cursor(After(p, s, run).state.cursor, key)
    decreases |run|
  {
    if run != [] {
      CaptureStep(p, s, run[0], sessions);
      assert forall i :: 0 <= i < |run[1..]| ==> run[1..][i] == run[i + 1];
      CaptureAlways(p, Next(p, s, run[0]), run[1..], sessions);
    }
  }

  /** The session's call stays under way along the run. */
  predicate Throughout(p: Policy, s: Sys, run: seq<Action>, x: Ident)
    decreases |run|
  {
    x in s.calls && (run != [] ==> Throughout(p, Next(p, s, run[0]), run[1..], x))
  }

  lemma {:induction false} CountStays(p: Policy, s: Sys, run: seq<Action>, x: Ident)
    requires Throughout(p, s, run, x)
    ensures x in After(p, s, run).calls && After(p, s, run).calls[x].count == s.calls[x].count
    decreases |run|
  {
    if run != [] {
      CountStays(p, Next(p, s, run[0]), run[1..], x);
    }
  }

  /** A turn that finds the call through ends it. */
  predicate Ends(p: Policy, s: Sys, x: Ident, ok: bool) {
    x in s.calls && WriteDomain(p).Some? && Next(p, s, Turn(x, ok)) == Finished(s, x)
  }

  lemma EndsAtTheCount(p: Policy, s: Sys, x: Ident, ok: bool)
    requires CaptureOk(s) && Ends(p, s, x, ok)
    ensures Cursor(s.state.cursor, Key(x)) == s.calls[x].count
  {
    assert s.calls[x].index < s.calls[x].count ==> Next(p, s, Turn(x, ok)).history == s.history;
  }

  /** The session's first `count` events have been dealt with. */
  predicate DealtUpTo(s: Sys, x: Ident, count: nat) {
    x in s.sessions && count <= |s.sessions[x].events| && forall n: nat :: n < count ==> Dealt(s, x, n)
  }

  lemma BehindCursorIsDealt(s: Sys, x: Ident)
    requires CaptureOk(s) && x in s.sessions
    ensures DealtUpTo(s, x, Cursor(s.state.cursor, Key(x)))
  {
  }

  /** A call begins, other things happen and some of its turns, and the last turn ends it. */
  predicate Succeeds(p: Policy, s: Sys, x: Ident, run: seq<Action>, ok: bool) {
    var begun := Next(p, s, Begin(x));
    x in s.sessions && x !in s.calls && Throughout(p, begun, run, x) && Ends(p, After(p, begun, run), x, ok)
  }

  /** A call that reports success, with a domain to write to, has dealt with every event there
      was when it began, whatever happened meanwhile. */
  lemma SuccessReachesTheEnd(p: Policy, s: Sys, x: Ident, run: seq<Action>, ok: bool, sessions: set<Ident>)
    requires CaptureOk(s) && KeysApart(sessions) && s.sessions.Keys <= sessions && OpensOnly(run, sessions)
    requires Succeeds(p, s, x, run, ok)
    ensures var last := After(p, Next(p, s, Begin(x)), run);
      && Cursor(Next(p, last, Turn(x, ok)).state.cursor, Key(x)) == |s.sessions[x].events|
      && DealtUpTo(Next(p, last, Turn(x, ok)), x, |s.sessions[x].events|)
  {
    var begun := Next(p, s, Begin(x));
    BeginStep(p, s, x);
    CountStays(p, begun, run, x);
    CaptureAlways(p, begun, run, sessions);
    var last := After(p, begun, run);
    EndsAtTheCount(p, last, x, ok);
    SameCapture(last, Finished(last, x));
    BehindCursorIsDealt(Finished(last, x), x);
  }
}
