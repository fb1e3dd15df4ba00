/** Racing Slack deliveries: each channel operation and each mutex section of the
    limiter and the deduper is one step of an interleaved system. */
module SlackAdmission {
  import opened Text
  import opened SlackDedupe
  import opened SlackLimiter

  datatype Envelope = Envelope(eventId: string, teamId: string, channel: string, user: string, ts: string)

  function EventDedupKey(e: Envelope): string {
    if Trim(e.eventId) != "" then "event_id:" + Trim(e.eventId)
    else "fallback:" + e.teamId + ":" + e.channel + ":" + e.user + ":" + e.ts
  }

  function DispatchScopeKey(e: Envelope): string {
    e.channel + ":" + e.user
  }

  lemma DedupKeyNotEmpty(e: Envelope)
    ensures EventDedupKey(e) != ""
  {
    assert |"event_id:"| == 9 && |"fallback:"| == 9;
  }

  datatype Outcome = Ignored | Throttled | Duplicate | Dispatched

  /** Where a delivery is between two steps. */
  datatype Stage =
    | Arrived
    | Unseen                      // passed the duplicate check
    | Slotted                     // sent its token
    | Refunding                   // found its scope active
    | Admitted                    // holds slot and scope
    | Unwanted                    // a duplicate after admission
    | Dispatching
    | Draining(outcome: Outcome)  // freed its scope
    | Done(outcome: Outcome)
  {
    predicate HoldsSlot() {
      Slotted? || Refunding? || Admitted? || Unwanted? || Dispatching? || Draining?
    }

    predicate HoldsScope() {
      Admitted? || Unwanted? || Dispatching?
    }

    predicate Recorded() {
      Dispatching? || ((Draining? || Done?) && outcome.Dispatched?)
    }
  }

  datatype Delivery = Delivery(key: string, scope: string, stage: Stage)

  datatype Entry = Entry(delivery: nat, key: string, time: Time)

  /** `last` and `log` are history: the last accept time of each key, and every accept. */
  datatype Sys = Sys(
    capacity: nat, ttl: Time, slots: nat, active: set<string>, seen: map<string, Time>, clock: Time,
    deliveries: map<nat, Delivery>, last: map<string, Time>, log: seq<Entry>)

  datatype Event =
    | Arrive(d: nat, envelope: Envelope)
    | CheckSeen(d: nat, now: Time)
    | TrySend(d: nat)
    | Reserve(d: nat)
    | Refund(d: nat)
    | AcceptKey(d: nat, now: Time)
    | Free(d: nat)
    | Drain(d: nat)

  function Init(capacity: nat, ttl: Time, clock: Time): Sys {
    Sys(capacity, ttl, 0, {}, map[], clock, map[], map[], [])
  }

  predicate At(s: Sys, d: nat, stage: Stage) {
    d in s.deliveries && s.deliveries[d].stage == stage
  }

  function Moved(s: Sys, d: nat, stage: Stage): Sys
    requires d in s.deliveries
  {
    s.(deliveries := s.deliveries[d := s.deliveries[d].(stage := stage)])
  }

  function Limits(s: Sys): Limiter {
    Limiter(s.capacity, s.slots, s.active)
  }

  function Limited(s: Sys, l: Limiter): Sys {
    s.(slots := l.slots, active := l.active)
  }

  /** An event out of place changes nothing, and neither does a receive that would have to wait. */
  function Next(s: Sys, e: Event): Sys {
    match e
    case Arrive(d, envelope) =>
      if d in s.deliveries then s
      else s.(deliveries := s.deliveries[d := Delivery(EventDedupKey(envelope), DispatchScopeKey(envelope), Arrived)])
    case CheckSeen(d, now) =>
      if !At(s, d, Arrived) then s
      else
        var (seen, duplicate) := ContainsStep(s.seen, s.deliveries[d].key, now);
        Moved(s, d, if duplicate then Done(Ignored) else Unseen).(seen := seen, clock := now)
    case TrySend(d) =>
      if !At(s, d, Unseen) then s
      else
        var (l, sent) := TrySendStep(Limits(s));
        Limited(Moved(s, d, if sent then Slotted else Done(Throttled)), l)
    case Reserve(d) =>
      if !At(s, d, Slotted) then s
      else
        var (l, reserved) := ReserveStep(Limits(s), s.deliveries[d].scope);
        Limited(Moved(s, d, if reserved then Admitted else Refunding), l)
    case Refund(d) =>
      if !At(s, d, Refunding) || ReceiveStep(Limits(s)).None? then s
      else Limited(Moved(s, d, Done(Throttled)), ReceiveStep(Limits(s)).value)
    case AcceptKey(d, now) =>
      if !At(s, d, Admitted) then s
      else
        var key := s.deliveries[d].key;
        var (seen, accepted) := AcceptStep(s.seen, s.ttl, key, now);
        if accepted
        then Moved(s, d, Dispatching).(seen := seen, clock := now, last := s.last[key := now],
            log := s.log + [Entry(d, key, now)])
        else Moved(s, d, Unwanted).(seen := seen, clock := now)
    case Free(d) =>
      if !At(s, d, Dispatching) && !At(s, d, Unwanted) then s
      else
        var outcome := if At(s, d, Dispatching) then Dispatched else Duplicate;
        Limited(Moved(s, d, Draining(outcome)), FreeStep(Limits(s), s.deliveries[d].scope))
    case Drain(d) =>
      if d !in s.deliveries || !s.deliveries[d].stage.Draining? || ReceiveStep(Limits(s)).None? then s
      else Limited(Moved(s, d, Done(s.deliveries[d].stage.outcome)), ReceiveStep(Limits(s)).value)
  }

  /** Clock readings do not decrease in the order the deduper's lock is taken. */
  predicate Admissible(s: Sys, e: Event) {
    match e
    case CheckSeen(_, now) => s.clock <= now
    case AcceptKey(_, now) => s.clock <= now
    case _ => true
  }

  function After(s: Sys, es: seq<Event>): Sys
    decreases |es|
  {
    if es == [] then s else After(Next(s, es[0]), es[1..])
  }

  predicate Run(s: Sys, es: seq<Event>)
    decreases |es|
  {
    es == [] || (Admissible(s, es[0]) && Run(Next(s, es[0]), es[1..]))
  }

  // ----- slots and scopes -----

  function SlotHolders(ds: map<nat, Delivery>): set<nat> {
    set d | d in ds && ds[d].stage.HoldsSlot()
  }

  function ScopeHolders(ds: map<nat, Delivery>): set<nat> {
    set d | d in ds && ds[d].stage.HoldsScope()
  }

  /** The deliveries between the slot operation and the scope operation, on either way. */
  function Between(ds: map<nat, Delivery>): set<nat> {
    SlotHolders(ds) - ScopeHolders(ds)
  }

  predicate Holds(ds: map<nat, Delivery>, d: nat) {
    d in ds && ds[d].stage.HoldsScope()
  }

  predicate HolderOf(ds: map<nat, Delivery>, d: nat, scope: string) {
    Holds(ds, d) && ds[d].scope == scope
  }

  ghost predicate OneHolder(ds: map<nat, Delivery>) {
    forall c, d :: Holds(ds, c) && Holds(ds, d) && c != d ==> ds[c].scope != ds[d].scope
  }

  /** The active set is exactly the scopes of the deliveries that hold one, and no two hold the same. */
  ghost predicate ScopesExact(ds: map<nat, Delivery>, active: set<string>) {
    && (forall d :: Holds(ds, d) ==> ds[d].scope in active)
    && (forall scope :: scope in active ==> exists d :: d in ds && HolderOf(ds, d, scope))
    && OneHolder(ds)
    && |active| == |ScopeHolders(ds)|
  }

  ghost predicate Balanced(s: Sys) {
    && s.slots == |SlotHolders(s.deliveries)| <= s.capacity
    && ScopesExact(s.deliveries, s.active)
  }

  lemma HoldersMove(ds: map<nat, Delivery>, d: nat, x: Delivery)
    ensures SlotHolders(ds[d := x]) == if x.stage.HoldsSlot() then SlotHolders(ds) + {d} else SlotHolders(ds) - {d}
    ensures ScopeHolders(ds[d := x]) == if x.stage.HoldsScope() then ScopeHolders(ds) + {d} else ScopeHolders(ds) - {d}
  {
  }

  lemma SlotsMove(ds: map<nat, Delivery>, d: nat, x: Delivery)
    ensures |SlotHolders(ds[d := x])| == |SlotHolders(ds)|
      + (if x.stage.HoldsSlot() then 1 else 0) - (if d in ds && ds[d].stage.HoldsSlot() then 1 else 0)
  {
    HoldersMove(ds, d, x);
    assert d in SlotHolders(ds) <==> d in ds && ds[d].stage.HoldsSlot();
  }

  /** The active set after delivery `d` becomes `x`. */
  function ActiveAfter(ds: map<nat, Delivery>, active: set<string>, d: nat, x: Delivery): set<string> {
    if x.stage.HoldsScope() == Holds(ds, d) then active
    else if x.stage.HoldsScope() then active + {x.scope}
    else active - {x.scope}
  }

  /** What a step does: one delivery moves, its slot and its scope with it. */
  lemma StepShape(s: Sys, e: Event)
    ensures var t := Next(s, e);
            t == s ||
            (&& e.d in t.deliveries && t.deliveries == s.deliveries[e.d := t.deliveries[e.d]]
             && t.capacity == s.capacity && t.ttl == s.ttl
             && (e.d in s.deliveries ==> t.deliveries[e.d] == s.deliveries[e.d].(stage := t.deliveries[e.d].stage))
             && t.slots == s.slots + (if t.deliveries[e.d].stage.HoldsSlot() then 1 else 0)
                  - (if e.d in s.deliveries && s.deliveries[e.d].stage.HoldsSlot() then 1 else 0)
             && t.slots <= (if s.slots < s.capacity then s.capacity else s.slots)
             && t.active == ActiveAfter(s.deliveries, s.active, e.d, t.deliveries[e.d])
             && (t.deliveries[e.d].stage.HoldsScope() && !Holds(s.deliveries, e.d) ==>
               t.deliveries[e.d].scope !in s.active))
  {
    match e
    case Arrive(_, _) =>
    case CheckSeen(_, _) =>
    case TrySend(_) =>
    case Reserve(_) =>
    case Refund(_) =>
    case AcceptKey(_, _) =>
    case Free(_) =>
    case Drain(_) =>
  }

  lemma HoldsMove(ds: map<nat, Delivery>, d: nat, x: Delivery, after: map<nat, Delivery>)
    requires after == ds[d := x]
    ensures forall c :: Holds(after, c) <==> if c == d then x.stage.HoldsScope() else Holds(ds, c)
    ensures forall c :: c in after && c != d ==> c in ds && after[c] == ds[c]
  {
  }

  lemma CoverMove(
    ds: map<nat, Delivery>, active: set<string>, d: nat, x: Delivery, after: map<nat, Delivery>, scope: string)
    requires ScopesExact(ds, active) && (d in ds ==> ds[d].scope == x.scope) && after == ds[d := x]
    requires scope in ActiveAfter(ds, active, d, x)
    ensures exists c :: c in after && HolderOf(after, c, scope)
  {
    HoldsMove(ds, d, x, after);
    if scope == x.scope && x.stage.HoldsScope() {
      assert HolderOf(after, d, scope);
    } else {
      var c :| c in ds && HolderOf(ds, c, scope);
      assert HolderOf(after, c, scope);
    }
  }

  lemma OneHolderMove(ds: map<nat, Delivery>, active: set<string>, d: nat, x: Delivery, after: map<nat, Delivery>)
    requires ScopesExact(ds, active) && (d in ds ==> ds[d].scope == x.scope) && after == ds[d := x]
    requires x.stage.HoldsScope() && !Holds(ds, d) ==> x.scope !in active
    ensures OneHolder(after)
    ensures forall c :: Holds(after, c) ==> after[c].scope in ActiveAfter(ds, active, d, x)
  {
    HoldsMove(ds, d, x, after);
  }

  lemma SameSize(active: set<string>, holders: set<nat>, scope: string, d: nat)
    requires |active| == |holders|
    ensures scope !in active && d !in holders ==> |active + {scope}| == |holders + {d}|
    ensures scope in active && d in holders ==> |active - {scope}| == |holders - {d}|
    ensures if d in holders then holders + {d} == holders else holders - {d} == holders
  {
  }

  lemma CountMove(ds: map<nat, Delivery>, active: set<string>, d: nat, x: Delivery)
    requires |active| == |ScopeHolders(ds)| && (Holds(ds, d) ==> x.scope in active)
    requires x.stage.HoldsScope() && !Holds(ds, d) ==> x.scope !in active
    ensures |ActiveAfter(ds, active, d, x)| == |ScopeHolders(ds[d := x])|
  {
    HoldersMove(ds, d, x);
    SameSize(active, ScopeHolders(ds), x.scope, d);
    assert d in ScopeHolders(ds) <==> Holds(ds, d);
  }

  lemma ScopesMove(ds: map<nat, Delivery>, active: set<string>, d: nat, x: Delivery, after: map<nat, Delivery>)
    requires ScopesExact(ds, active) && (d in ds ==> ds[d].scope == x.scope) && after == ds[d := x]
    requires x.stage.HoldsScope() && !Holds(ds, d) ==> x.scope !in active
    ensures ScopesExact(after, ActiveAfter(ds, active, d, x))
  {
    OneHolderMove(ds, active, d, x, after);
    CountMove(ds, active, d, x);
    forall scope | scope in ActiveAfter(ds, active, d, x) ensures exists c :: c in after && HolderOf(after, c, scope) {
      CoverMove(ds, active, d, x, after, scope);
    }
  }

  lemma BalancedStep(s: Sys, e: Event)
    requires Balanced(s)
    ensures Balanced(Next(s, e)) && Next(s, e).capacity == s.capacity && Next(s, e).ttl == s.ttl
  {
    StepShape(s, e);
    if Next(s, e) != s {
      SlotsMove(s.deliveries, e.d, Next(s, e).deliveries[e.d]);
      ScopesMove(s.deliveries, s.active, e.d, Next(s, e).deliveries[e.d], Next(s, e).deliveries);
    }
  }

  lemma {:induction false} BalancedAlways(s: Sys, es: seq<Event>)
    requires Balanced(s)
    ensures Balanced(After(s, es)) && After(s, es).capacity == s.capacity && After(s, es).ttl == s.ttl
    decreases |es|
  {
    if es != [] {
      BalancedStep(s, es[0]);
      BalancedAlways(Next(s, es[0]), es[1..]);
    }
  }

  lemma HoldersSplit(ds: map<nat, Delivery>)
    ensures |SlotHolders(ds)| == |ScopeHolders(ds)| + |Between(ds)|
  {
    assert SlotHolders(ds) == ScopeHolders(ds) + Between(ds) && ScopeHolders(ds) !! Between(ds);
  }

  lemma TokenThere(s: Sys, d: nat)
    requires Balanced(s) && d in s.deliveries && s.deliveries[d].stage.HoldsSlot()
    ensures s.slots > 0
  {
    assert d in SlotHolders(s.deliveries);
  }

  lemma InitBalanced(capacity: nat, ttl: Time, clock: Time)
    ensures Balanced(Init(capacity, ttl, clock))
  {
    assert SlotHolders(map[]) == {} && ScopeHolders(map[]) == {};
  }

  /** Under every interleaving: slots in use stay within capacity and equal the active
      entries plus the deliveries between the two operations; one delivery per active
      scope; and a release or a refund always finds a token to receive. */
  lemma LimiterSafe(capacity: nat, ttl: Time, clock: Time, es: seq<Event>)
    ensures var s := After(Init(capacity, ttl, clock), es);
            && s.slots <= capacity
            && s.slots == |s.active| + |Between(s.deliveries)|
            && (forall c, d ::
                  At(s, c, Dispatching) && At(s, d, Dispatching) && s.deliveries[c].scope == s.deliveries[d].scope ==>
                    c == d)
            && (forall d :: d in s.deliveries && (s.deliveries[d].stage.Refunding? || s.deliveries[d].stage.Draining?)
                  ==> ReceiveStep(Limits(s)).Some?)
  {
    InitBalanced(capacity, ttl, clock);
    BalancedAlways(Init(capacity, ttl, clock), es);
    var s := After(Init(capacity, ttl, clock), es);
    HoldersSplit(s.deliveries);
    forall d | d in s.deliveries && (s.deliveries[d].stage.Refunding? || s.deliveries[d].stage.Draining?)
      ensures s.slots > 0
    {
      TokenThere(s, d);
    }
    forall c, d | At(s, c, Dispatching) && At(s, d, Dispatching) && s.deliveries[c].scope == s.deliveries[d].scope
      ensures c == d
    {
      assert Holds(s.deliveries, c) && Holds(s.deliveries, d);
    }
  }

  /** Steps of one admission that nothing comes between are the limiter's own admission. */
  lemma UninterruptedBegin(s: Sys, d: nat)
    requires At(s, d, Unseen)
    ensures var t := Next(Next(Next(s, TrySend(d)), Reserve(d)), Refund(d));
      (Limits(t), At(t, d, Admitted)) == Admission(Limits(s), s.deliveries[d].scope)
  {
  }

  /** Nothing leaks: when no delivery holds a slot, whether it was dispatched, throttled
      or turned out a duplicate after admission, no slot is in use and no scope is active. */
  lemma NothingLeaks(s: Sys)
    requires Balanced(s)
    requires forall d :: d in s.deliveries ==> !s.deliveries[d].stage.HoldsSlot()
    ensures s.slots == 0 && s.active == {}
  {
    assert SlotHolders(s.deliveries) == {};
    assert ScopeHolders(s.deliveries) == {};
  }

  // ----- duplicates -----

  /** Accepts of one key are `ttl` apart, and `last` has the latest of each. */
  predicate Spaced(log: seq<Entry>, last: map<string, Time>, ttl: Time) {
    && (forall i :: 0 <= i < |log| ==> log[i].key in last && log[i].time <= last[log[i].key])
    && (forall i, j :: 0 <= i < j < |log| && log[i].key == log[j].key ==> log[j].time - log[i].time >= ttl)
  }

  /** The table answers for the history, and the history's accepts are ttl apart. */
  predicate HistoryOk(s: Sys) {
    && s.ttl > 0 && Agrees(s.seen, s.last, s.ttl, s.clock) && Spaced(s.log, s.last, s.ttl)
    && (forall d :: d in s.deliveries ==> s.deliveries[d].key != "")
  }

  lemma SpacedAppend(log: seq<Entry>, last: map<string, Time>, ttl: Time, e: Entry)
    requires ttl > 0 && Spaced(log, last, ttl) && !Recent(last, ttl, e.key, e.time)
    ensures Spaced(log + [e], last[e.key := e.time], ttl)
  {
    var after := log + [e];
    assert forall i :: 0 <= i < |log| ==> after[i] == log[i];
    assert forall i :: 0 <= i < |log| && log[i].key == e.key ==> log[i].time + ttl <= e.time;
  }

  lemma AgreesStep(s: Sys, e: Event)
    requires HistoryOk(s) && Admissible(s, e)
    ensures Agrees(Next(s, e).seen, Next(s, e).last, s.ttl, Next(s, e).clock)
  {
    match e
    case CheckSeen(d, now) =>
      if d in s.deliveries {
        ContainsAnswers(s.seen, s.last, s.ttl, s.clock, s.deliveries[d].key, now);
      }
    case AcceptKey(d, now) =>
      if d in s.deliveries {
        AcceptAnswers(s.seen, s.last, s.ttl, s.clock, s.deliveries[d].key, now);
      }
    case _ =>
  }

  lemma SpacedStep(s: Sys, e: Event)
    requires HistoryOk(s) && Admissible(s, e)
    ensures Spaced(Next(s, e).log, Next(s, e).last, s.ttl)
  {
    LogShape(s, e);
    if Next(s, e).log != s.log {
      var key := s.deliveries[e.d].key;
      AcceptAnswers(s.seen, s.last, s.ttl, s.clock, key, e.now);
      SpacedAppend(s.log, s.last, s.ttl, Entry(e.d, key, e.now));
    }
  }

  lemma HistoryStep(s: Sys, e: Event)
    requires HistoryOk(s) && Admissible(s, e)
    ensures HistoryOk(Next(s, e))
  {
    AgreesStep(s, e);
    SpacedStep(s, e);
    StepShape(s, e);
    if e.Arrive? {
      DedupKeyNotEmpty(e.envelope);
    }
  }

  lemma {:induction false} HistoryAlways(s: Sys, es: seq<Event>)
    requires HistoryOk(s) && Run(s, es)
    ensures HistoryOk(After(s, es)) && After(s, es).ttl == s.ttl
    decreases |es|
  {
    if es != [] {
      HistoryStep(s, es[0]);
      StepShape(s, es[0]);
      HistoryAlways(Next(s, es[0]), es[1..]);
    }
  }

  /** Two dispatches of one key start at least the ttl apart, even when deliveries
      race past the duplicate check; and each answer the deduper gives is the one an
      unpruned history of accept times gives. */
  lemma DispatchesApart(capacity: nat, ttl: Time, clock: Time, es: seq<Event>, key: string, now: Time)
    requires Run(Init(capacity, ttl, clock), es)
    requires ttl > 0 && key != "" && After(Init(capacity, ttl, clock), es).clock <= now
    ensures var s := After(Init(capacity, ttl, clock), es);
            && (forall i, j :: 0 <= i < j < |s.log| && s.log[i].key == s.log[j].key ==>
              s.log[j].time - s.log[i].time >= ttl)
            && (ContainsStep(s.seen, key, now).1 <==> Recent(s.last, ttl, key, now))
            && (AcceptStep(s.seen, ttl, key, now).1 <==> !Recent(s.last, ttl, key, now))
  {
    var s := After(Init(capacity, ttl, clock), es);
    HistoryAlways(Init(capacity, ttl, clock), es);
    ContainsAnswers(s.seen, s.last, ttl, s.clock, key, now);
    AcceptAnswers(s.seen, s.last, ttl, s.clock, key, now);
  }

  // ----- what becomes of a delivery -----

  predicate Logged(log: seq<Entry>, d: nat) {
    exists i :: 0 <= i < |log| && log[i].delivery == d
  }

  predicate KeyLogged(log: seq<Entry>, key: string) {
    exists i :: 0 <= i < |log| && log[i].key == key
  }

  predicate TurnedAway(stage: Stage) {
    stage.Unwanted? || ((stage.Draining? || stage.Done?) && (stage.outcome.Ignored? || stage.outcome.Duplicate?))
  }

  /** A delivery is in the accept log exactly if it is or was dispatched, and once. */
  predicate LoggedOnce(ds: map<nat, Delivery>, log: seq<Entry>) {
    && (forall d :: d in ds ==> (Logged(log, d) <==> ds[d].stage.Recorded()))
    && (forall i :: 0 <= i < |log| ==> log[i].delivery in ds && ds[log[i].delivery].key == log[i].key)
    && (forall i, j :: 0 <= i < j < |log| ==> log[i].delivery != log[j].delivery)
  }

  /** One turned away as a duplicate has an accepted delivery of the same key. */
  predicate TurnedAwayFairly(s: Sys) {
    && (forall d :: d in s.deliveries && TurnedAway(s.deliveries[d].stage) ==> KeyLogged(s.log, s.deliveries[d].key))
    && (forall key :: key in s.last ==> KeyLogged(s.log, key))
  }

  lemma LogAppend(log: seq<Entry>, e: Entry)
    ensures forall d :: Logged(log + [e], d) <==> Logged(log, d) || d == e.delivery
    ensures forall key :: KeyLogged(log + [e], key) <==> KeyLogged(log, key) || key == e.key
  {
    var after := log + [e];
    assert after[|log|] == e && forall i :: 0 <= i < |log| ==> after[i] == log[i];
    forall d | Logged(log, d) || d == e.delivery ensures Logged(after, d) {
      if Logged(log, d) {
        var i :| 0 <= i < |log| && log[i].delivery == d;
        assert after[i].delivery == d;
      }
    }
    forall key | KeyLogged(log, key) || key == e.key ensures KeyLogged(after, key) {
      if KeyLogged(log, key) {
        var i :| 0 <= i < |log| && log[i].key == key;
        assert after[i].key == key;
      }
    }
  }

  /** A step either leaves the log and who is in it alone, or accepts one delivery. */
  lemma LogShape(s: Sys, e: Event)
    requires HistoryOk(s) && Admissible(s, e)
    ensures var t := Next(s, e);
            || t == s
            || (&& t.log == s.log && t.last == s.last
                && t.deliveries[e.d].stage.Recorded() == (e.d in s.deliveries && s.deliveries[e.d].stage.Recorded())
                && (TurnedAway(t.deliveries[e.d].stage) ==>
                      || (e.d in s.deliveries && TurnedAway(s.deliveries[e.d].stage))
                      || t.deliveries[e.d].key in s.last))
            || (&& e.AcceptKey? && e.d in s.deliveries && !s.deliveries[e.d].stage.Recorded()
              && t.deliveries[e.d].stage.Dispatching?
                && t.log == s.log + [Entry(e.d, s.deliveries[e.d].key, e.now)]
                && t.last == s.last[s.deliveries[e.d].key := e.now])
  {
    match e
    case Arrive(_, _) =>
    case CheckSeen(d, now) =>
      if d in s.deliveries {
        ContainsAnswers(s.seen, s.last, s.ttl, s.clock, s.deliveries[d].key, now);
      }
    case TrySend(_) =>
    case Reserve(_) =>
    case Refund(_) =>
    case AcceptKey(d, now) =>
      if d in s.deliveries {
        AcceptAnswers(s.seen, s.last, s.ttl, s.clock, s.deliveries[d].key, now);
      }
    case Free(_) =>
    case Drain(_) =>
  }

  /** A delivery that stays out of the log, or stays in it. */
  lemma LoggedKeep(ds: map<nat, Delivery>, log: seq<Entry>, d: nat, x: Delivery)
    requires LoggedOnce(ds, log)
    requires d in ds ==> ds[d].key == x.key
    requires x.stage.Recorded() == (d in ds && ds[d].stage.Recorded())
    ensures LoggedOnce(ds[d := x], log)
  {
    if d !in ds {
      assert !Logged(log, d);
    }
  }

  /** A delivery that enters the log. */
  lemma LoggedEnter(ds: map<nat, Delivery>, log: seq<Entry>, d: nat, x: Delivery, now: Time)
    requires LoggedOnce(ds, log)
    requires d in ds && ds[d].key == x.key && !ds[d].stage.Recorded() && x.stage.Recorded()
    ensures LoggedOnce(ds[d := x], log + [Entry(d, x.key, now)])
  {
    LogAppend(log, Entry(d, x.key, now));
    assert forall i :: 0 <= i < |log| && log[i].delivery == d ==> Logged(log, d);
  }

  lemma FairStep(s: Sys, e: Event)
    requires TurnedAwayFairly(s) && HistoryOk(s) && Admissible(s, e)
    ensures TurnedAwayFairly(Next(s, e))
  {
    StepShape(s, e);
    LogShape(s, e);
    if Next(s, e).log != s.log {
      LogAppend(s.log, Entry(e.d, s.deliveries[e.d].key, e.now));
    }
  }

  lemma FatesStep(s: Sys, e: Event)
    requires LoggedOnce(s.deliveries, s.log) && HistoryOk(s) && Admissible(s, e)
    ensures LoggedOnce(Next(s, e).deliveries, Next(s, e).log)
  {
    StepShape(s, e);
    LogShape(s, e);
    var t := Next(s, e);
    if t.log != s.log {
      LoggedEnter(s.deliveries, s.log, e.d, t.deliveries[e.d], e.now);
    } else if t != s {
      LoggedKeep(s.deliveries, s.log, e.d, t.deliveries[e.d]);
    }
  }

  lemma {:induction false} FatesAlways(s: Sys, es: seq<Event>)
    requires LoggedOnce(s.deliveries, s.log) && TurnedAwayFairly(s) && HistoryOk(s) && Run(s, es)
    ensures LoggedOnce(After(s, es).deliveries, After(s, es).log) && TurnedAwayFairly(After(s, es))
    decreases |es|
  {
    if es != [] {
      FatesStep(s, es[0]);
      FairStep(s, es[0]);
      HistoryStep(s, es[0]);
      FatesAlways(Next(s, es[0]), es[1..]);
    }
  }

  /** Over every run: a throttled delivery was never recorded, so it cannot make a
      redelivery look like a duplicate; a dispatched one was recorded exactly once; and
      a delivery is dropped as a duplicate only if its key was accepted. */
  lemma EveryDeliveryAccountedFor(capacity: nat, ttl: Time, clock: Time, es: seq<Event>, d: nat)
    requires ttl > 0 && Run(Init(capacity, ttl, clock), es) && d in After(Init(capacity, ttl, clock), es).deliveries
    ensures var s := After(Init(capacity, ttl, clock), es);
            match s.deliveries[d].stage
            case Done(Dispatched) =>
              exists i ::
                && 0 <= i < |s.log| && s.log[i].delivery == d
                && forall j :: 0 <= j < |s.log| && j != i ==> s.log[j].delivery != d
            case Done(Throttled) => !Logged(s.log, d)
            case Done(_) => !Logged(s.log, d) && KeyLogged(s.log, s.deliveries[d].key)
            case _ => true
  {
    FatesAlways(Init(capacity, ttl, clock), es);
    var s := After(Init(capacity, ttl, clock), es);
    if i :| 0 <= i < |s.log| && s.log[i].delivery == d {
      assert forall j :: 0 <= j < |s.log| && j != i ==> s.log[j].delivery != d;
    }
  }
}
