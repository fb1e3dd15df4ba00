/** Chat memory capture: a cursor over each session's append-only events that
    survives failures, and a default-deny rule on what may flow into memory. */
module MemoryCapture {
  import opened Text
  import KeyedMerge
  import SessionText

  // ----- events, sessions, configuration -----

  datatype Event = Event(author: string, role: string, content: Option<seq<SessionText.Part>>, partial: bool)

  datatype Session = Session(app: string, user: string, id: string, events: seq<Event>)

  /** Domain ids in configured order, the default write domain, and the grants. */
  datatype Policy = Policy(
    domains: seq<string>, defaultWrite: string, writeDomains: set<string>, flows: map<string, set<string>>)

  predicate HasPayload(e: Event) {
    e.content.Some? && !e.partial && SessionText.ContentText(e.content.value) != ""
  }

  function Speaker(e: Event): string {
    if Trim(e.author) != "" then Trim(e.author)
    else if e.content.Some? && Trim(e.role) != "" then Trim(e.role)
    else "unknown"
  }

  /** The domain automatic capture writes to, if it is readable and writable. */
  function WriteDomain(p: Policy): Option<string> {
    if p.defaultWrite in p.writeDomains && p.defaultWrite in p.domains then Some(p.defaultWrite) else None
  }

  function CursorKey(s: Session): string {
    SessionKey(s.app, s.user, s.id)
  }

  function SessionKey(app: string, user: string, id: string): string {
    app + ":" + user + ":" + id
  }

  function TurnKey(app: string, user: string): string {
    if Trim(app) == "" || Trim(user) == "" then "" else Trim(app) + ":" + Trim(user)
  }

  /** An event has something to save exactly if it is whole and some text of it is left after
      cleaning. */
  lemma PayloadIsText(e: Event)
    ensures HasPayload(e) <==>
      && !e.partial && e.content.Some?
      && exists i :: 0 <= i < |e.content.value| && e.content.value[i].TextPart?
           && SessionText.Clean(e.content.value[i].text) != ""
  {
    if e.content.Some? {
      SessionText.ContentLeft(e.content.value);
    }
  }

  /** The user speaks where the author says so, or where there is no author and the role does. */
  lemma UserSpeaks(e: Event)
    ensures Speaker(e) == "user" <==>
      Trim(e.author) == "user" || (Trim(e.author) == "" && e.content.Some? && Trim(e.role) == "user")
    ensures Trim(e.author) != "" ==> Speaker(e) == Trim(e.author)
    ensures Trim(e.author) == "" && (e.content.None? || Trim(e.role) == "") ==> Speaker(e) == "unknown"
  {
  }

  // ----- when keys coincide -----

  /** Some sessions of two users share a cursor key exactly if the users' "app:user" texts
      are equal or one with a colon begins the other. */
  lemma CursorKeysCoincide(app: string, user: string, app': string, user': string)
    ensures var a, b := app + ":" + user, app' + ":" + user';
      (exists id, id' :: SessionKey(app, user, id) == SessionKey(app', user', id')) <==>
      a == b || a + ":" <= b || b + ":" <= a
  {
    var a, b := app + ":" + user, app' + ":" + user';
    if id, id' :| SessionKey(app, user, id) == SessionKey(app', user', id') {
      ColonsMeet(a, b, id, id');
    }
    if a == b {
      assert SessionKey(app, user, "") == SessionKey(app', user', "");
    } else if a + ":" <= b {
      assert b == a + ":" + b[|a| + 1..];
      assert SessionKey(app, user, b[|a| + 1..] + ":") == a + ":" + (b[|a| + 1..] + ":") == b + ":" + "";
      assert SessionKey(app', user', "") == b + ":" + "";
    } else if b + ":" <= a {
      assert a == b + ":" + a[|b| + 1..];
      assert SessionKey(app', user', a[|b| + 1..] + ":") == b + ":" + (a[|b| + 1..] + ":") == a + ":" + "";
      assert SessionKey(app, user, "") == a + ":" + "";
    }
  }

  /** `b` is `a`, a colon, and nothing more or something that starts with no white space. */
  predicate ColonExtends(a: string, b: string) {
    a + ":" <= b && (|b| > |a| + 1 ==> !IsSpace(b[|a| + 1]))
  }

  lemma TurnKeyTrims(app: string, user: string)
    ensures TurnKey(Trim(app), Trim(user)) == TurnKey(app, user)
  {
    TrimTwice(app);
    TrimTwice(user);
  }

  lemma SharedKey(a: string, b: string, u: string, v: string)
    requires Trimmed(a) && Trimmed(b) && a != b
    requires TurnKey(a, u) != "" && TurnKey(a, u) == TurnKey(b, v)
    ensures ColonExtends(a, b) || ColonExtends(b, a)
  {
    TrimFixed(a);
    TrimFixed(b);
    var left, right := TrimShape(u);
    left, right := TrimShape(v);
    ColonsMeet(a, b, Trim(u), Trim(v));
    ColonsMeet(b, a, Trim(v), Trim(u));
  }

  lemma ExtensionShares(a: string, b: string)
    requires Trimmed(a) && Trimmed(b) && a != "" && ColonExtends(a, b)
    ensures exists u, v :: TurnKey(a, u) != "" && TurnKey(a, u) == TurnKey(b, v)
  {
    var rest := b[|a| + 1..];
    var u := rest + ":x";
    assert b == a + ":" + rest;
    TrimFixed(a);
    TrimFixed(b);
    TrimFixed(u);
    TrimFixed("x");
    assert a + ":" + u == b + ":" + "x";
    assert TurnKey(a, u) == TurnKey(b, "x");
  }

  /** Two applications have users that share a turn key exactly if one's name is the other's,
      a colon, and nothing more or something that starts with no white space. */
  lemma AppsCollide(a: string, b: string)
    requires Trimmed(a) && Trimmed(b) && a != "" && b != "" && a != b
    ensures (exists u, v :: TurnKey(a, u) != "" && TurnKey(a, u) == TurnKey(b, v)) <==>
      ColonExtends(a, b) || ColonExtends(b, a)
  {
    if u, v :| TurnKey(a, u) != "" && TurnKey(a, u) == TurnKey(b, v) {
      SharedKey(a, b, u, v);
    }
    if ColonExtends(a, b) {
      ExtensionShares(a, b);
    } else if ColonExtends(b, a) {
      ExtensionShares(b, a);
      var v, u :| TurnKey(b, v) != "" && TurnKey(b, v) == TurnKey(a, u);
      assert TurnKey(a, u) != "" && TurnKey(a, u) == TurnKey(b, v);
    }
  }

  /** Within one application a turn key tells users apart. */
  lemma OneAppApart(app: string, user: string, user': string)
    requires TurnKey(app, user) != "" && TurnKey(app, user) == TurnKey(app, user')
    ensures Trim(user) == Trim(user')
  {
    ColonsMeet(Trim(app), Trim(app), Trim(user), Trim(user'));
  }

  lemma HasColon(a: string, b: string)
    requires a + ":" <= b
    ensures ':' in b
  {
    assert b[|a|] == ':';
  }

  /** Turn keys tell users apart as long as application names have no colon. */
  lemma TurnKeyInjective(app: string, user: string, app': string, user': string)
    requires TurnKey(app, user) != "" && TurnKey(app, user) == TurnKey(app', user')
    requires ':' !in Trim(app) && ':' !in Trim(app')
    ensures Trim(app) == Trim(app') && Trim(user) == Trim(user')
  {
    var a, b := Trim(app), Trim(app');
    ColonsMeet(a, b, Trim(user), Trim(user'));
    if a + ":" <= b {
      HasColon(a, b);
    } else if b + ":" <= a {
      HasColon(b, a);
    }
  }

  /** With a colon they may not. */
  lemma TurnKeysCollide()
    ensures TurnKey("a:b", "c") == TurnKey("a", "b:c") != ""
  {
    TrimFixed("a:b");
    TrimFixed("c");
    TrimFixed("a");
    TrimFixed("b:c");
    assert "a:b" + ":" + "c" == "a" + ":" + "b:c";
  }

  // ----- the flow rule -----

  /** The domains that may have informed an event, if they can be told. */
  function SourceDomains(p: Policy, e: Event, recorded: set<string>): Option<set<string>> {
    if Speaker(e) == "user" then Some({})
    else if recorded != {} then Some(recorded)
    else if |p.domains| == 1 then Some({p.domains[0]})
    else None
  }

  predicate MayFlow(p: Policy, source: string, destination: string) {
    source == destination || (source in p.flows && destination in p.flows[source])
  }

  predicate CanWrite(p: Policy, destination: string, sources: set<string>) {
    destination in p.writeDomains && forall source :: source in sources ==> MayFlow(p, source, destination)
  }

  datatype Verdict = NoPayload | Blocked | Allowed

  function Judge(p: Policy, e: Event, recorded: set<string>, destination: string): Verdict {
    if !HasPayload(e) then NoPayload
    else
      match SourceDomains(p, e, recorded)
      case None => Blocked
      case Some(sources) => if CanWrite(p, destination, sources) then Allowed else Blocked
  }

  // ----- one capture call -----

  /** What the outside does during one call: whether the memory server is reached, and
      whether it acknowledges the save of the event at each index. */
  datatype Link = Link(connects: bool, acks: nat -> bool)

  /** `next` is where the call stopped, `saves` the indices acknowledged. */
  datatype Outcome = Outcome(next: nat, saves: seq<nat>, ok: bool)

  function Preceded(saves: seq<nat>, o: Outcome): Outcome {
    o.(saves := saves + o.saves)
  }

  function CaptureFrom(
    p: Policy, events: seq<Event>, recorded: set<string>, destination: string, link: Link, index: nat): Outcome
    requires index <= |events|
    decreases |events| - index
  {
    if index == |events| then Outcome(index, [], true)
    else if !Judge(p, events[index], recorded, destination).Allowed? then
      CaptureFrom(p, events, recorded, destination, link, index + 1)
    else if !link.connects || !link.acks(index) then Outcome(index, [], false)
    else
      Preceded([index], CaptureFrom(p, events, recorded, destination, link, index + 1))
  }

  predicate Increasing(s: seq<nat>) {
    forall i, j :: 0 <= i < j < |s| ==> s[i] < s[j]
  }

  /** `saves` lists, in order and each once, the indices between `start` and `next` that are
      allowed. */
  predicate Lists(saves: seq<nat>, start: nat, next: nat, allowed: nat -> bool) {
    && Increasing(saves)
    && (forall i :: i in saves ==> start <= i < next && allowed(i))
    && (forall i: nat :: start <= i < next && allowed(i) ==> i in saves)
  }

  lemma IncreasingCons(first: nat, saves: seq<nat>)
    requires Increasing(saves) && forall i :: 0 <= i < |saves| ==> first < saves[i]
    ensures Increasing([first] + saves)
  {
    var all := [first] + saves;
    forall i, j | 0 <= i < j < |all| ensures all[i] < all[j] {
      assert all[j] == saves[j - 1];
    }
  }

  lemma ListsOneMore(saves: seq<nat>, start: nat, next: nat, allowed: nat -> bool)
    requires Lists(saves, start + 1, next, allowed) && start < next
    ensures Lists(if allowed(start) then [start] + saves else saves, start, next, allowed)
  {
    if allowed(start) {
      forall i | 0 <= i < |saves| ensures start < saves[i] {
        assert saves[i] in saves;
      }
      IncreasingCons(start, saves);
    }
  }

  lemma ListsNone(start: nat, allowed: nat -> bool)
    ensures Lists([], start, start, allowed)
  {
  }

  /** The indices of allowed events. */
  function AllowedAt(p: Policy, events: seq<Event>, recorded: set<string>, destination: string): nat -> bool {
    (i: nat) => i < |events| && Judge(p, events[i], recorded, destination).Allowed?
  }

  /** A call saves, in order and each once, exactly the allowed events it passes; it
      passes them all, or stops at the first allowed event whose save fails. */
  lemma {:induction false} CaptureExact(
    p: Policy, events: seq<Event>, recorded: set<string>, destination: string, link: Link, start: nat)
    requires start <= |events|
    ensures var o := CaptureFrom(p, events, recorded, destination, link, start);
            && start <= o.next <= |events|
            && Lists(o.saves, start, o.next, AllowedAt(p, events, recorded, destination))
            && (forall i :: i in o.saves ==> link.connects && link.acks(i))
            && (if o.ok then o.next == |events|
                else o.next < |events| && Judge(p, events[o.next], recorded, destination).Allowed?
                     && !(link.connects && link.acks(o.next)))
    decreases |events| - start
  {
    var allowed := AllowedAt(p, events, recorded, destination);
    if start == |events| || (allowed(start) && !(link.connects && link.acks(start))) {
      ListsNone(start, allowed);
    } else {
      var rest := CaptureFrom(p, events, recorded, destination, link, start + 1);
      CaptureExact(p, events, recorded, destination, link, start + 1);
      ListsOneMore(rest.saves, start, rest.next, allowed);
    }
  }

  lemma PrecededAppend(saves: seq<nat>, index: nat, o: Outcome)
    ensures Preceded(saves + [index], o) == Preceded(saves, Preceded([index], o))
  {
    assert saves + [index] + o.saves == saves + ([index] + o.saves);
  }

  /** The call so far has acknowledged `saves` and come to `index`. */
  predicate Going(p: Policy, events: seq<Event>, recorded: set<string>, destination: string, link: Link,
                  saves: seq<nat>, index: nat, whole: Outcome)
  {
    index <= |events| && Preceded(saves, CaptureFrom(p, events, recorded, destination, link, index)) == whole
  }

  lemma GoingOn(p: Policy, events: seq<Event>, recorded: set<string>, destination: string, link: Link,
                saves: seq<nat>, index: nat, whole: Outcome)
    requires index < |events| && Going(p, events, recorded, destination, link, saves, index, whole)
    ensures !Judge(p, events[index], recorded, destination).Allowed? ==>
      Going(p, events, recorded, destination, link, saves, index + 1, whole)
    ensures Judge(p, events[index], recorded, destination).Allowed? && link.connects && link.acks(index) ==>
      Going(p, events, recorded, destination, link, saves + [index], index + 1, whole)
    ensures Judge(p, events[index], recorded, destination).Allowed? && !(link.connects && link.acks(index)) ==>
      whole == Outcome(index, saves, false)
  {
    if !Judge(p, events[index], recorded, destination).Allowed? {
    } else if link.connects && link.acks(index) {
      PrecededAppend(saves, index, CaptureFrom(p, events, recorded, destination, link, index + 1));
    } else {
      assert saves + [] == saves;
    }
  }

  lemma GoingEnds(p: Policy, events: seq<Event>, recorded: set<string>, destination: string, link: Link,
                  saves: seq<nat>, whole: Outcome)
    requires Going(p, events, recorded, destination, link, saves, |events|, whole)
    ensures whole == Outcome(|events|, saves, true)
  {
    assert saves + [] == saves;
  }

  lemma GoingStarts(p: Policy, events: seq<Event>, recorded: set<string>, destination: string, link: Link, start: nat)
    requires start <= |events|
    ensures Going(p, events, recorded, destination, link, [], start,
      CaptureFrom(p, events, recorded, destination, link, start))
  {
    var o := CaptureFrom(p, events, recorded, destination, link, start);
    assert [] + o.saves == o.saves;
  }

  datatype State = State(cursor: map<string, nat>, turnSources: map<string, set<string>>)

  function Cursor(cursor: map<string, nat>, key: string): nat {
    if key in cursor then cursor[key] else 0
  }

  function Sources(turnSources: map<string, set<string>>, key: string): set<string> {
    if key in turnSources then turnSources[key] else {}
  }

  /** The sources recorded for a session's turn; a blank key records nothing. */
  function Recorded(st: State, s: Session): set<string> {
    if TurnKey(s.app, s.user) == "" then {} else Sources(st.turnSources, TurnKey(s.app, s.user))
  }

  /** Where capture resumes, and the cursors with a session that shrank starting over. */
  function Resume(cursor: map<string, nat>, key: string, count: nat): (map<string, nat>, nat) {
    if Cursor(cursor, key) > count then (cursor[key := 0], 0) else (cursor, Cursor(cursor, key))
  }

  function Advance(cursor: map<string, nat>, key: string, next: nat): map<string, nat> {
    if next > Cursor(cursor, key) then cursor[key := next] else cursor
  }

  function Capture(p: Policy, st: State, s: Session, link: Link): (State, seq<nat>, bool) {
    var key := CursorKey(s);
    var (cursor, start) := Resume(st.cursor, key, |s.events|);
    match WriteDomain(p)
    case None => (st.(cursor := cursor), [], true)
    case Some(destination) =>
      var o := CaptureFrom(p, s.events, Recorded(st, s), destination, link, start);
      var turns := if o.ok then st.turnSources - {TurnKey(s.app, s.user)} else st.turnSources;
      (State(Advance(cursor, key, o.next), turns), o.saves, o.ok)
  }

  /** A remembered record, under an id that names its domain. */
  datatype Entry = Entry(id: string, text: string)

  function EntryId(e: Entry): string { e.id }

  /** What a memory search of one domain came back with. */
  datatype Answer = Unavailable | Failed | Memories(entries: seq<Entry>)

  predicate HasMemories(a: Answer) {
    a.Memories? && a.entries != []
  }

  /** The domains that returned memories. */
  function Returned(domains: seq<string>, answers: string -> Answer): set<string> {
    set d | d in domains && HasMemories(answers(d))
  }

  /** The memories of all domains, each id once. */
  function Found(domains: seq<string>, answers: string -> Answer): seq<Entry> {
    if domains == [] then []
    else
      var n := |domains| - 1;
      var before := Found(domains[..n], answers);
      if answers(domains[n]).Memories?
      then KeyedMerge.AppendUnique(before, answers(domains[n]).entries, EntryId) else before
  }

  lemma {:induction false} UniqueComesFrom(base: seq<Entry>, delta: seq<Entry>, e: Entry)
    requires e in KeyedMerge.AppendUnique(base, delta, EntryId)
    ensures e in base || e in delta
    decreases |delta|
  {
    if delta != [] && e != delta[|delta| - 1] {
      UniqueComesFrom(base, delta[..|delta| - 1], e);
    }
  }

  /** Whatever a search shows comes from a domain it records as a source. */
  lemma {:induction false} FoundIsRecorded(domains: seq<string>, answers: string -> Answer, e: Entry)
    requires e in Found(domains, answers)
    ensures exists d :: d in Returned(domains, answers) && e in answers(d).entries
    decreases |domains|
  {
    var n := |domains| - 1;
    var last := domains[n];
    assert domains == domains[..n] + [last];
    if answers(last).Memories? {
      UniqueComesFrom(Found(domains[..n], answers), answers(last).entries, e);
    }
    if answers(last).Memories? && e in answers(last).entries {
      assert last in Returned(domains, answers);
    } else {
      FoundIsRecorded(domains[..n], answers, e);
      var d :| d in Returned(domains[..n], answers) && e in answers(d).entries;
      assert d in Returned(domains, answers);
    }
  }

  function MarkSources(turnSources: map<string, set<string>>, key: string, domains: set<string>)
    : map<string, set<string>>
  {
    if key == "" || domains == {} then turnSources else turnSources[key := Sources(turnSources, key) + domains]
  }

  lemma FoundAppend(domains: seq<string>, answers: string -> Answer, i: nat)
    requires i < |domains|
    ensures Found(domains[..i + 1], answers)
      == if answers(domains[i]).Memories?
         then KeyedMerge.AppendUnique(Found(domains[..i], answers), answers(domains[i]).entries, EntryId)
         else Found(domains[..i], answers)
  {
    assert domains[..i + 1][..i] == domains[..i];
  }

  lemma MarkTwice(turnSources: map<string, set<string>>, key: string, domains: set<string>, domain: string)
    ensures MarkSources(MarkSources(turnSources, key, domains), key, {domain})
      == MarkSources(turnSources, key, domains + {domain})
  {
    if key != "" && domains != {} {
      var once := MarkSources(turnSources, key, domains);
      assert Sources(once, key) + {domain} == Sources(turnSources, key) + (domains + {domain});
    } else {
      assert domains == {} ==> domains + {domain} == {domain};
    }
  }

  lemma ReturnedAppend(domains: seq<string>, answers: string -> Answer, i: nat)
    requires i < |domains|
    ensures var before := Returned(domains[..i], answers);
            Returned(domains[..i + 1], answers)
            == if HasMemories(answers(domains[i])) then before + {domains[i]} else before
  {
    assert domains[..i + 1] == domains[..i] + [domains[i]];
  }

  class Service {
    const policy: Policy
    var cursor: map<string, nat>
    var turnSources: map<string, set<string>>

    ghost predicate Valid()
      reads this
    {
      "" !in turnSources
    }

    function Current(): State
      reads this
    {
      State(cursor, turnSources)
    }

    constructor (policy: Policy)
      ensures this.policy == policy && Current() == State(map[], map[]) && Valid()
    {
      this.policy := policy;
      cursor, turnSources := map[], map[];
    }

    method NextCaptureStart(s: Session) returns (key: string, start: nat)
      modifies this`cursor
      ensures key == CursorKey(s) && (cursor, start) == Resume(old(cursor), key, |s.events|)
    {
      key := CursorKey(s);
      start := Cursor(cursor, key);
      if start > |s.events| {
        cursor := cursor[key := 0];
        start := 0;
      }
    }

    method MarkCapturedThrough(key: string, next: nat)
      modifies this`cursor
      ensures cursor == Advance(old(cursor), key, next)
    {
      if next > Cursor(cursor, key) {
        cursor := cursor[key := next];
      }
    }

    /** The capture loop: saves events one by one, moving the cursor past each as it is dealt with. */
    method CaptureEvents(
      key: string, events: seq<Event>, recorded: set<string>, destination: string, link: Link, start: nat)
      returns (saves: seq<nat>, ok: bool, ghost next: nat)
      requires start == Cursor(cursor, key) <= |events|
      modifies this`cursor
      ensures Outcome(next, saves, ok) == CaptureFrom(policy, events, recorded, destination, link, start)
      ensures cursor == Advance(old(cursor), key, next)
    {
      saves, next := [], start;
      ghost var whole := CaptureFrom(policy, events, recorded, destination, link, start);
      GoingStarts(policy, events, recorded, destination, link, start);
      for index := start to |events|
        invariant cursor == Advance(old(cursor), key, index)
        invariant Going(policy, events, recorded, destination, link, saves, index, whole)
      {
        next := index;
        var event := events[index];
        GoingOn(policy, events, recorded, destination, link, saves, index, whole);
        if !HasPayload(event) {
          MarkCapturedThrough(key, index + 1);
          continue;
        }
        var sources := SourceDomains(policy, event, recorded);
        if sources.None? || !CanWrite(policy, destination, sources.value) {
          MarkCapturedThrough(key, index + 1);
          continue;
        }
        if !link.connects {
          return saves, false, index;
        }
        if !link.acks(index) {
          return saves, false, index;
        }
        saves := saves + [index];
        MarkCapturedThrough(key, index + 1);
      }
      GoingEnds(policy, events, recorded, destination, link, saves, whole);
      ok, next := true, |events|;
    }

    method AddSessionToMemory(s: Session, link: Link) returns (saves: seq<nat>, ok: bool)
      requires Valid()
      modifies this
      ensures Valid() && (Current(), saves, ok) == Capture(policy, old(Current()), s, link)
    {
      var key, start := NextCaptureStart(s);
      var write := WriteDomain(policy);
      if write.None? {
        return [], true;
      }
      ghost var next;
      saves, ok, next := CaptureEvents(key, s.events, Recorded(Current(), s), write.value, link, start);
      if ok {
        turnSources := turnSources - {TurnKey(s.app, s.user)};
      }
    }

    method MarkTurnSourceDomain(app: string, user: string, domain: string)
      requires Valid()
      modifies this`turnSources
      ensures Valid() && turnSources == MarkSources(old(turnSources), TurnKey(app, user), {domain})
    {
      var key := TurnKey(app, user);
      if key == "" {
        return;
      }
      turnSources := turnSources[key := Sources(turnSources, key) + {domain}];
    }

    /** Asks every domain, records the ones that returned memories, and shows what they
        returned. */
    method SearchMemory(app: string, user: string, query: string, answers: string -> Answer)
      returns (memories: seq<Entry>)
      requires Valid()
      modifies this`turnSources
      ensures Valid()
      ensures SessionText.Clean(query) == "" ==> memories == [] && turnSources == old(turnSources)
      ensures SessionText.Clean(query) != "" ==>
        && memories == Found(policy.domains, answers)
        && turnSources == MarkSources(old(turnSources), TurnKey(app, user), Returned(policy.domains, answers))
    {
      memories := [];
      if SessionText.Clean(query) == "" {
        return;
      }
      ghost var before, key := turnSources, TurnKey(app, user);
      for i := 0 to |policy.domains|
        invariant Valid()
        invariant memories == Found(policy.domains[..i], answers)
        invariant turnSources == MarkSources(before, key, Returned(policy.domains[..i], answers))
      {
        var domain := policy.domains[i];
        ReturnedAppend(policy.domains, answers, i);
        FoundAppend(policy.domains, answers, i);
        MarkTwice(before, key, Returned(policy.domains[..i], answers), domain);
        if answers(domain).Memories? {
          if |answers(domain).entries| > 0 {
            MarkTurnSourceDomain(app, user, domain);
          }
          memories := KeyedMerge.AppendUniqueByKey(memories, answers(domain).entries, EntryId);
        }
      }
      assert policy.domains[..|policy.domains|] == policy.domains;
    }
  }
}
