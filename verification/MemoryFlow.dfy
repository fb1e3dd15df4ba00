/** The default-deny flow rule over runs: what was read for a user limits what is remembered
    of that user's sessions, as long as users have turn keys of their own. */
module MemoryFlow {
  import opened Text
  import opened MemoryCapture
  import opened MemoryRuns
  import opened MemoryCalls

  function TurnKeyOf(who: Person): string {
    TurnKey(who.app, who.user)
  }

  /** No two of these users share a turn key. */
  predicate TurnsApart(people: set<Person>) {
    forall v, w :: v in people && w in people && TurnKeyOf(v) != "" && TurnKeyOf(v) == TurnKeyOf(w) ==> v == w
  }

  /** Users have turn keys of their own if no application's name is another's, a colon, and
      nothing more or something that starts with no white space. */
  lemma AppsApart(people: set<Person>)
    requires forall w :: w in people ==> Trimmed(w.app) && Trimmed(w.user)
    requires forall v, w :: v in people && w in people ==> !ColonExtends(v.app, w.app)
    ensures TurnsApart(people)
  {
    forall v, w | v in people && w in people && TurnKeyOf(v) != "" && TurnKeyOf(v) == TurnKeyOf(w) ensures v == w {
      if v.app == w.app {
        OneAppApart(v.app, v.user, w.user);
        TrimFixed(v.user);
        TrimFixed(w.user);
      } else {
        SharedKey(v.app, w.app, v.user, w.user);
      }
    }
  }

  /** Everyone who searches or has a session opened along the run is one of these. */
  predicate Involves(run: seq<Action>, people: set<Person>) {
    forall i :: 0 <= i < |run| ==>
      && (run[i].Search? ==> Who(run[i].app, run[i].user) in people)
      && (run[i].Open? ==> Owner(run[i].session) in people)
  }

  predicate OwnersIn(s: Sys, people: set<Person>) {
    forall x :: x in s.sessions ==> Owner(x) in people
  }

  /** The recorded turn sources are what was read since the last completed capture. */
  ghost predicate TurnsTracked(p: Policy, s: Sys, people: set<Person>) {
    && (forall who :: who in people && TurnKeyOf(who) != "" ==>
          Sources(s.state.turnSources, TurnKeyOf(who)) == ReadsSince(s.history, who))
    && (forall who: Person, d :: d in ReadsSince(s.history, who) ==> d in p.domains)
  }

  /** A save the flow rule allows: the destination is writable, and unless the user wrote
      the event, everything read since the last completed capture may flow there, and
      with several domains something was read. */
  predicate Lawful(p: Policy, save: Save) {
    && save.destination in p.writeDomains
    && (save.speaker != "user" ==>
          && (forall d :: d in save.informed ==>
                d == save.destination || (d in p.flows && save.destination in p.flows[d]))
          && (|p.domains| > 1 ==> save.informed != {}))
  }

  lemma ReadsSinceAppend(history: seq<Happening>, h: Happening, who: Person)
    ensures ReadsSince(history + [h], who)
      == match h
         case Read(w, domains) => ReadsSince(history, who) + (if w == who then domains else {})
         case Completed(w) => if w == who then {} else ReadsSince(history, who)
  {
    assert (history + [h])[..|history|] == history;
  }

  lemma OwnTurnKey(app: string, user: string)
    ensures TurnKeyOf(Who(app, user)) == TurnKey(app, user)
  {
    TurnKeyTrims(app, user);
  }

  lemma SearchTurns(p: Policy, s: Sys, app: string, user: string, domains: set<string>, people: set<Person>)
    requires TurnsTracked(p, s, people) && TurnsApart(people) && Who(app, user) in people
    requires forall d :: d in domains ==> d in p.domains
    ensures TurnsTracked(p, Next(p, s, Search(app, user, domains)), people)
  {
    var t, key, me := Next(p, s, Search(app, user, domains)), TurnKey(app, user), Who(app, user);
    OwnTurnKey(app, user);
    forall who: Person
      ensures ReadsSince(t.history, who) == ReadsSince(s.history, who) + (if me == who then domains else {})
    {
      ReadsSinceAppend(s.history, Read(me, domains), who);
    }
    forall who | who in people && TurnKeyOf(who) != ""
      ensures Sources(t.state.turnSources, TurnKeyOf(who))
        == Sources(s.state.turnSources, TurnKeyOf(who)) + (if me == who then domains else {})
    {
      assert key == TurnKeyOf(who) <==> me == who;
    }
  }

  lemma FinishTurns(p: Policy, s: Sys, x: Ident, people: set<Person>)
    requires TurnsTracked(p, s, people) && TurnsApart(people) && Owner(x) in people
    ensures TurnsTracked(p, Finished(s, x), people)
  {
    var t, me := Finished(s, x), Owner(x);
    OwnTurnKey(x.app, x.user);
    forall who: Person ensures ReadsSince(t.history, who) == if who == me then {} else ReadsSince(s.history, who) {
      ReadsSinceAppend(s.history, Completed(me), who);
    }
    forall who | who in people && TurnKeyOf(who) != ""
      ensures Sources(t.state.turnSources, TurnKeyOf(who))
        == if who == me then {} else Sources(s.state.turnSources, TurnKeyOf(who))
    {
      assert TurnKeyOf(me) == TurnKeyOf(who) <==> me == who;
    }
  }

  /** Nothing but a search and the end of a call touches sources or history. */
  lemma OthersKeepTurns(p: Policy, s: Sys, a: Action)
    requires !a.Search?
    ensures var t := Next(p, s, a);
      || (t.state.turnSources == s.state.turnSources && t.history == s.history)
      || (a.Turn? && a.session in s.sessions && t == Finished(s, a.session))
  {
  }

  lemma TurnsStep(p: Policy, s: Sys, a: Action, people: set<Person>)
    requires TurnsTracked(p, s, people) && TurnsApart(people) && SessionsOk(s) && OwnersIn(s, people)
    requires Admissible(p, a) && Involves([a], people)
    ensures TurnsTracked(p, Next(p, s, a), people) && OwnersIn(Next(p, s, a), people)
  {
    assert [a][0] == a;
    SessionsStep(p, s, a);
    if a.Search? {
      SearchTurns(p, s, a.app, a.user, a.domains, people);
    } else {
      OthersKeepTurns(p, s, a);
      if a.Turn? && a.session in s.sessions {
        FinishTurns(p, s, a.session, people);
      }
    }
  }

  lemma AllowedIsLawful(p: Policy, s: Sys, x: Ident, i: nat, people: set<Person>)
    requires TurnsTracked(p, s, people) && SessionsOk(s) && x in s.sessions && Owner(x) in people
    requires WriteDomain(p).Some? && i < |s.sessions[x].events|
    requires Judge(p, s.sessions[x].events[i], Recorded(s.state, s.sessions[x]), WriteDomain(p).value).Allowed?
    ensures Lawful(p, Save(x, i, WriteDomain(p).value, Speaker(s.sessions[x].events[i]),
      ReadsSince(s.history, Owner(x))))
  {
    var session, informed := s.sessions[x], ReadsSince(s.history, Owner(x));
    OwnTurnKey(x.app, x.user);
    if TurnKey(x.app, x.user) != "" {
      assert Recorded(s.state, session) == informed;
    }
    assert forall d :: d in informed ==> d in p.domains;
    assert |p.domains| == 1 ==> forall d :: d in p.domains ==> d == p.domains[0];
    if Speaker(session.events[i]) != "user" {
      var sources := SourceDomains(p, session.events[i], Recorded(s.state, session)).value;
      forall d | d in informed ensures MayFlow(p, d, WriteDomain(p).value) {
        assert d in sources || |p.domains| == 1;
      }
    }
  }

  /** Nothing is recorded of users without a name or an application, so with several domains
      what others say in their sessions cannot be traced. */
  predicate Untraceable(p: Policy, save: Save) {
    save.speaker != "user" && |p.domains| > 1 && (Blank(save.session.app) || Blank(save.session.user))
  }

  /** What has something to save and may be saved is let through. */
  lemma LawfulIsAllowed(p: Policy, s: Sys, x: Ident, i: nat, people: set<Person>)
    requires TurnsTracked(p, s, people) && SessionsOk(s) && x in s.sessions && Owner(x) in people
    requires WriteDomain(p).Some? && i < |s.sessions[x].events| && HasPayload(s.sessions[x].events[i])
    requires var save := Save(x, i, WriteDomain(p).value, Speaker(s.sessions[x].events[i]),
        ReadsSince(s.history, Owner(x)));
      Lawful(p, save) && !Untraceable(p, save)
    ensures Judge(p, s.sessions[x].events[i], Recorded(s.state, s.sessions[x]), WriteDomain(p).value).Allowed?
  {
    var session, informed := s.sessions[x], ReadsSince(s.history, Owner(x));
    OwnTurnKey(x.app, x.user);
    TurnKeyBlank(x.app, x.user);
    assert |p.domains| == 1 ==> p.domains[0] == WriteDomain(p).value;
    if TurnKey(x.app, x.user) != "" {
      assert Recorded(s.state, session) == informed;
    }
  }

  lemma TurnKeyBlank(app: string, user: string)
    ensures TurnKey(app, user) == "" <==> Blank(app) || Blank(user)
  {
  }

  predicate AllJust(p: Policy, blocked: set<Save>) {
    forall save :: save in blocked ==> !Lawful(p, save) || Untraceable(p, save)
  }

  predicate AllLawful(p: Policy, acked: seq<Save>) {
    forall i :: 0 <= i < |acked| ==> Lawful(p, acked[i])
  }

  lemma LawfulStep(p: Policy, s: Sys, a: Action, people: set<Person>)
    requires TurnsTracked(p, s, people) && SessionsOk(s) && OwnersIn(s, people) && AllLawful(p, s.acked)
    ensures AllLawful(p, Next(p, s, a).acked)
  {
    if a.Turn? && Next(p, s, a).acked != s.acked {
      AllowedIsLawful(p, s, a.session, s.calls[a.session].index, people);
    }
  }

  /** Over every run whose users have turn keys of their own, every acknowledged save obeys
      the flow rule. */
  lemma {:induction false} SavesAlwaysLawful(p: Policy, s: Sys, run: seq<Action>, people: set<Person>)
    requires SessionsOk(s) && OwnersIn(s, people) && TurnsTracked(p, s, people) && TurnsApart(people)
    requires Run(p, run) && Involves(run, people) && AllLawful(p, s.acked)
    ensures AllLawful(p, After(p, s, run).acked)
    decreases |run|
  {
    if run != [] {
      SessionsStep(p, s, run[0]);
      TurnsStep(p, s, run[0], people);
      LawfulStep(p, s, run[0], people);
      assert forall i :: 0 <= i < |run[1..]| ==> run[1..][i] == run[i + 1];
      SavesAlwaysLawful(p, Next(p, s, run[0]), run[1..], people);
    }
  }

  lemma JustStep(p: Policy, s: Sys, a: Action, people: set<Person>)
    requires TurnsTracked(p, s, people) && SessionsOk(s) && OwnersIn(s, people) && AllJust(p, s.blocked)
    ensures AllJust(p, Next(p, s, a).blocked)
  {
    if a.Turn? && Next(p, s, a).blocked != s.blocked {
      var x, i := a.session, s.calls[a.session].index;
      var save := Save(x, i, WriteDomain(p).value, Speaker(s.sessions[x].events[i]), ReadsSince(s.history, Owner(x)));
      assert Next(p, s, a).blocked == s.blocked + {save};
      if Lawful(p, save) && !Untraceable(p, save) {
        LawfulIsAllowed(p, s, x, i, people);
      }
    }
  }

  /** And over every such run, what was blocked was blocked for a reason: it obeyed the flow
      rule when it was judged only if it could not be traced. */
  lemma {:induction false} BlockedAlwaysJust(p: Policy, s: Sys, run: seq<Action>, people: set<Person>)
    requires SessionsOk(s) && OwnersIn(s, people) && TurnsTracked(p, s, people) && TurnsApart(people)
    requires Run(p, run) && Involves(run, people) && AllJust(p, s.blocked)
    ensures AllJust(p, After(p, s, run).blocked)
    decreases |run|
  {
    if run != [] {
      SessionsStep(p, s, run[0]);
      TurnsStep(p, s, run[0], people);
      JustStep(p, s, run[0], people);
      assert forall i :: 0 <= i < |run[1..]| ==> run[1..][i] == run[i + 1];
      BlockedAlwaysJust(p, Next(p, s, run[0]), run[1..], people);
    }
  }

  /** From the start, for the sessions and the users of the run. */
  lemma FromTheStart(p: Policy, run: seq<Action>, sessions: set<Ident>, people: set<Person>)
    requires Run(p, run) && OpensOnly(run, sessions) && Involves(run, people)
    ensures KeysApart(sessions) ==> CaptureOk(After(p, Init(), run))
    ensures TurnsApart(people) ==>
      AllLawful(p, After(p, Init(), run).acked) && AllJust(p, After(p, Init(), run).blocked)
  {
    if KeysApart(sessions) {
      CaptureAlways(p, Init(), run, sessions);
    }
    if TurnsApart(people) {
      SavesAlwaysLawful(p, Init(), run, people);
      BlockedAlwaysJust(p, Init(), run, people);
    }
  }

  // ----- users that share a turn key -----

  /** Two domains, both writable, and nothing may flow between them. */
  const TWO_DOMAINS := Policy(["d1", "d2"], "d2", {"d1", "d2"}, map[])

  /** Two people with one turn key between them. */
  predicate ShareTurnKey(v: Person, w: Person) {
    && v != w && TurnKeyOf(v) == TurnKeyOf(w) != ""
    && Trimmed(v.app) && Trimmed(v.user) && Trimmed(w.app) && Trimmed(w.user)
  }

  function SessionOf(who: Person, id: string): Ident {
    Ident(who.app, who.user, id)
  }

  lemma OwnSession(who: Person, id: string)
    requires Trimmed(who.app) && Trimmed(who.user)
    ensures Owner(SessionOf(who, id)) == who == Who(who.app, who.user)
  {
    TrimFixed(who.app);
    TrimFixed(who.user);
  }

  lemma SearchNext(p: Policy, run: seq<Action>, who: Person, domains: set<string>, people: set<Person>)
    returns (more: seq<Action>)
    requires Trimmed(who.app) && Trimmed(who.user) && who in people
    requires Run(p, run) && Involves(run, people) && forall d :: d in domains ==> d in p.domains
    ensures Run(p, more) && Involves(more, people)
    ensures var s, t := After(p, Init(), run), After(p, Init(), more);
      && t == Next(p, s, Search(who.app, who.user, domains))
      && ReadsSince(t.history, who) == ReadsSince(s.history, who) + domains
  {
    OwnSession(who, "");
    AfterMore(p, Init(), run, Search(who.app, who.user, domains));
    more := run + [Search(who.app, who.user, domains)];
    ReadsSinceAppend(After(p, Init(), run).history, Read(who, domains), who);
  }

  lemma OnlyCallsInvolve(run: seq<Action>, more: seq<Action>, people: set<Person>)
    requires run <= more && CallsOnly(more[|run|..]) && Involves(run, people)
    ensures Involves(more, people)
  {
    forall i | 0 <= i < |more|
      ensures more[i].Search? ==> Who(more[i].app, more[i].user) in people
      ensures more[i].Open? ==> Owner(more[i].session) in people
    {
      if i < |run| {
        assert more[i] == run[i];
      } else {
        assert more[i] == more[|run|..][i - |run|];
      }
    }
  }

  /** One has read the first domain, and the other has a session with nothing in it. */
  lemma OtherReady(v: Person, w: Person) returns (run: seq<Action>)
    requires ShareTurnKey(v, w)
    ensures Run(TWO_DOMAINS, run) && Involves(run, {v, w})
    ensures var s := After(TWO_DOMAINS, Init(), run);
      && SessionsOk(s) && s.sessions == map[SessionOf(w, "x") := Session(w.app, w.user, "x", [])]
      && s.calls == map[] && s.acked == [] && s.state.cursor == map[] && ReadsSince(s.history, v) == {"d1"}
  {
    assert "d1" in TWO_DOMAINS.domains;
    var first := SearchNext(TWO_DOMAINS, [], v, {"d1"}, {v, w});
    OwnSession(w, "x");
    AfterMore(TWO_DOMAINS, Init(), first, Open(SessionOf(w, "x")));
    run := first + [Open(SessionOf(w, "x"))];
  }

  /** One has read both domains, but the other's completed capture has wiped out the record of
      the first. */
  lemma RecordWiped(v: Person, w: Person) returns (run: seq<Action>)
    requires ShareTurnKey(v, w)
    ensures Run(TWO_DOMAINS, run) && Involves(run, {v, w})
    ensures var s := After(TWO_DOMAINS, Init(), run);
      && SessionsOk(s) && s.sessions.Keys == {SessionOf(w, "x")} && s.calls == map[] && s.acked == []
      && s.state.cursor == map[] && Sources(s.state.turnSources, TurnKeyOf(v)) == {"d2"}
      && ReadsSince(s.history, v) == {"d1", "d2"}
  {
    var p, other := TWO_DOMAINS, SessionOf(w, "x");
    var first := OtherReady(v, w);
    var s := After(p, Init(), first);
    OwnSession(w, "x");
    assert WriteDomain(p) == Some("d2") by {
      assert "d2" in p.domains;
    }
    NoneSaved(p, s, other, WORKING);
    run := AfterCall(p, first, other, WORKING);
    OnlyCallsInvolve(first, run, {v, w});
    ReadsSinceAppend(s.history, Completed(w), v);
    assert TurnKeyOf(v) !in After(p, Init(), run).state.turnSources;
    assert "d2" in p.domains;
    run := SearchNext(p, run, v, {"d2"}, {v, w});
  }

  lemma OnlyD2IsSeen()
    ensures WriteDomain(TWO_DOMAINS) == Some("d2") && Judge(TWO_DOMAINS, Said("assistant"), {"d2"}, "d2").Allowed?
    ensures Speaker(Said("assistant")) != "user"
  {
    SaidHasPayload("assistant");
    TrimFixed("assistant");
    assert "d2" in TWO_DOMAINS.domains;
  }

  lemma UnlawfulSave(x: Ident, speaker: string)
    requires speaker != "user"
    ensures !Lawful(TWO_DOMAINS, Save(x, 0, "d2", speaker, {"d1", "d2"}))
  {
    assert "d1" in {"d1", "d2"} && !MayFlow(TWO_DOMAINS, "d1", "d2");
  }

  /** The user's own session waits with one answer of the assistant. */
  predicate AnswerWaits(s: Sys, x: Ident) {
    && SessionsOk(s) && x in s.sessions && s.sessions[x].events == [Said("assistant")] && s.acked == []
    && Cursor(s.state.cursor, Key(x)) == 0 && Recorded(s.state, s.sessions[x]) == {"d2"}
    && ReadsSince(s.history, Owner(x)) == {"d1", "d2"}
  }

  lemma AnswerSaved(s: Sys, x: Ident)
    requires AnswerWaits(s, x)
    ensures !AllLawful(TWO_DOMAINS, Collected(TWO_DOMAINS, s, x, WORKING).acked)
  {
    OnlyD2IsSeen();
    OneSaved(TWO_DOMAINS, s, x);
    UnlawfulSave(x, Speaker(Said("assistant")));
    assert Collected(TWO_DOMAINS, s, x, WORKING).acked[0]
      == Save(x, 0, "d2", Speaker(Said("assistant")), {"d1", "d2"});
  }

  /** Reachable for any two people who share a turn key: what one of them read in one domain is
      saved to another it may not flow to. */
  lemma SharedKeyFlows(v: Person, w: Person) returns (run: seq<Action>)
    requires ShareTurnKey(v, w)
    ensures Run(TWO_DOMAINS, run) && Involves(run, {v, w})
    ensures !AllLawful(TWO_DOMAINS, After(TWO_DOMAINS, Init(), run).acked)
  {
    var p, x := TWO_DOMAINS, SessionOf(v, "y");
    OwnSession(v, "y");
    var wiped := RecordWiped(v, w);
    var ready := OpenedWithOne(p, wiped, x, Said("assistant"));
    AnswerSaved(After(p, Init(), ready), x);
    run := AfterCall(p, ready, x, WORKING);
    OnlyCallsInvolve(ready, run, {v, w});
  }

  /** Every run, under every policy, that involves only these people saves lawfully exactly if
      no two of them share a turn key. */
  lemma TurnsApartExactly(people: set<Person>)
    requires forall w :: w in people ==> Trimmed(w.app) && Trimmed(w.user)
    ensures TurnsApart(people) <==>
      forall p, run :: Run(p, run) && Involves(run, people) ==> AllLawful(p, After(p, Init(), run).acked)
  {
    if TurnsApart(people) {
      forall p, run | Run(p, run) && Involves(run, people) ensures AllLawful(p, After(p, Init(), run).acked) {
        SavesAlwaysLawful(p, Init(), run, people);
      }
    } else {
      var v, w :| v in people && w in people && TurnKeyOf(v) != "" && TurnKeyOf(v) == TurnKeyOf(w) && v != w;
      var run := SharedKeyFlows(v, w);
      assert Involves(run, people);
    }
  }

  /** Two such people. */
  lemma FlowsPastRule()
    ensures exists run :: Run(TWO_DOMAINS, run) && !AllLawful(TWO_DOMAINS, After(TWO_DOMAINS, Init(), run).acked)
  {
    TurnKeysCollide();
    var run := SharedKeyFlows(Person("a:b", "c"), Person("a", "b:c"));
  }
}
