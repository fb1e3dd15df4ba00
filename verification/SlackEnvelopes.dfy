/** What the keys of a delivery mean for the envelopes that arrive: which of them are
    duplicates of each other, and which are held back for each other. */
module SlackEnvelopes {
  import opened Text
  import opened SlackDedupe
  import opened SlackAdmission

  // ----- the keys -----

  /** Retries of one event, or the same message of an event that has no id. */
  predicate SameEvent(e: Envelope, f: Envelope) {
    if Blank(e.eventId) || Blank(f.eventId) then
      && Blank(e.eventId) && Blank(f.eventId)
      && e.teamId + ":" + e.channel + ":" + e.user + ":" + e.ts
           == f.teamId + ":" + f.channel + ":" + f.user + ":" + f.ts
    else Trim(e.eventId) == Trim(f.eventId)
  }

  lemma Prefixed(prefix: string, a: string, b: string)
    ensures prefix + a == prefix + b <==> a == b
  {
    assert (prefix + a)[|prefix|..] == a && (prefix + b)[|prefix|..] == b;
  }

  lemma FallbackShape(e: Envelope)
    requires Blank(e.eventId)
    ensures EventDedupKey(e) == "fallback:" + (e.teamId + ":" + e.channel + ":" + e.user + ":" + e.ts)
  {
  }

  /** Two envelopes are duplicates exactly if they name one event, or name none and agree on
      team, channel, user and time joined by colons. */
  lemma KeysCoincide(e: Envelope, f: Envelope)
    ensures EventDedupKey(e) == EventDedupKey(f) <==> SameEvent(e, f)
  {
    if Blank(e.eventId) && Blank(f.eventId) {
      FallbackShape(e);
      FallbackShape(f);
      Prefixed("fallback:", e.teamId + ":" + e.channel + ":" + e.user + ":" + e.ts,
        f.teamId + ":" + f.channel + ":" + f.user + ":" + f.ts);
    } else if Blank(e.eventId) {
      assert EventDedupKey(e)[0] == 'f' && EventDedupKey(f)[0] == 'e';
    } else if Blank(f.eventId) {
      assert EventDedupKey(e)[0] == 'e' && EventDedupKey(f)[0] == 'f';
    } else {
      Prefixed("event_id:", Trim(e.eventId), Trim(f.eventId));
    }
  }

  /** The one channel is the other's with a colon and more, which the other's user makes up for. */
  predicate ChannelExtends(e: Envelope, f: Envelope) {
    && e.channel + ":" <= f.channel
    && e.user == f.channel[|e.channel| + 1..] + ":" + f.user
  }

  /** Two messages are held back for each other exactly if they have one channel and one user,
      or a channel with a colon in it makes it look so. */
  lemma ScopesCoincide(e: Envelope, f: Envelope)
    ensures DispatchScopeKey(e) == DispatchScopeKey(f) <==>
      (e.channel == f.channel && e.user == f.user) || ChannelExtends(e, f) || ChannelExtends(f, e)
  {
    if DispatchScopeKey(e) == DispatchScopeKey(f) {
      ColonsMeet(e.channel, f.channel, e.user, f.user);
      ColonsMeet(f.channel, e.channel, f.user, e.user);
    }
    if ChannelExtends(e, f) {
      ExtendedScope(e, f);
    } else if ChannelExtends(f, e) {
      ExtendedScope(f, e);
    }
  }

  lemma ExtendedScope(e: Envelope, f: Envelope)
    requires ChannelExtends(e, f)
    ensures DispatchScopeKey(e) == DispatchScopeKey(f)
  {
    var more := f.channel[|e.channel| + 1..];
    assert f.channel == e.channel + ":" + more;
    assert e.channel + ":" + (more + ":" + f.user) == (e.channel + ":" + more) + ":" + f.user;
  }

  // ----- the envelopes of a run -----

  /** Delivery `d` arrives in the run, with this envelope. */
  predicate Brings(s: Sys, es: seq<Event>, d: nat, envelope: Envelope)
    decreases |es|
  {
    es != [] && ((es[0] == Arrive(d, envelope) && d !in s.deliveries) || Brings(Next(s, es[0]), es[1..], d, envelope))
  }

  predicate Carries(s: Sys, d: nat, envelope: Envelope) {
    && d in s.deliveries
    && s.deliveries[d].key == EventDedupKey(envelope) && s.deliveries[d].scope == DispatchScopeKey(envelope)
  }

  lemma {:induction false} CarriesOn(s: Sys, es: seq<Event>, d: nat, envelope: Envelope)
    requires Carries(s, d, envelope)
    ensures Carries(After(s, es), d, envelope)
    decreases |es|
  {
    if es != [] {
      StepShape(s, es[0]);
      CarriesOn(Next(s, es[0]), es[1..], d, envelope);
    }
  }

  lemma {:induction false} BroughtCarries(s: Sys, es: seq<Event>, d: nat, envelope: Envelope)
    requires Brings(s, es, d, envelope)
    ensures Carries(After(s, es), d, envelope)
    decreases |es|
  {
    if es[0] == Arrive(d, envelope) && d !in s.deliveries {
      CarriesOn(Next(s, es[0]), es[1..], d, envelope);
    } else {
      BroughtCarries(Next(s, es[0]), es[1..], d, envelope);
    }
  }

  /** The accept log has an entry of delivery `d` at this time. */
  predicate AcceptedAt(s: Sys, d: nat, time: Time) {
    exists i :: 0 <= i < |s.log| && s.log[i].delivery == d && s.log[i].time == time
  }

  lemma EntriesApart(s: Sys, c: nat, d: nat, now: Time, later: Time)
    requires LoggedOnce(s.deliveries, s.log) && Spaced(s.log, s.last, s.ttl)
    requires c in s.deliveries && d in s.deliveries && c != d && s.deliveries[c].key == s.deliveries[d].key
    requires AcceptedAt(s, c, now) && AcceptedAt(s, d, later)
    ensures later - now >= s.ttl || now - later >= s.ttl
  {
    var i :| 0 <= i < |s.log| && s.log[i].delivery == c && s.log[i].time == now;
    var j :| 0 <= j < |s.log| && s.log[j].delivery == d && s.log[j].time == later;
    assert s.log[i].key == s.log[j].key;
  }

  /** Deliveries of one event are dispatched at least the ttl apart, whatever races with what. */
  lemma OneEventApart(capacity: nat, ttl: Time, clock: Time, es: seq<Event>, c: nat, d: nat,
                      e: Envelope, f: Envelope, now: Time, later: Time)
    requires Run(Init(capacity, ttl, clock), es) && ttl > 0 && c != d && SameEvent(e, f)
    requires Brings(Init(capacity, ttl, clock), es, c, e) && Brings(Init(capacity, ttl, clock), es, d, f)
    requires var s := After(Init(capacity, ttl, clock), es); AcceptedAt(s, c, now) && AcceptedAt(s, d, later)
    ensures later - now >= ttl || now - later >= ttl
  {
    var s := After(Init(capacity, ttl, clock), es);
    BroughtCarries(Init(capacity, ttl, clock), es, c, e);
    BroughtCarries(Init(capacity, ttl, clock), es, d, f);
    KeysCoincide(e, f);
    FatesAlways(Init(capacity, ttl, clock), es);
    HistoryAlways(Init(capacity, ttl, clock), es);
    EntriesApart(s, c, d, now, later);
  }

  lemma {:induction false} Brought(s: Sys, es: seq<Event>, d: nat) returns (envelope: Envelope)
    requires d !in s.deliveries && d in After(s, es).deliveries
    ensures Brings(s, es, d, envelope)
    decreases |es|
  {
    if es[0].Arrive? && es[0].d == d {
      envelope := es[0].envelope;
    } else {
      StepShape(s, es[0]);
      envelope := Brought(Next(s, es[0]), es[1..], d);
    }
  }

  /** A delivery is turned away as a duplicate only for another one of the same event that was
      dispatched. */
  lemma DroppedForTheSame(capacity: nat, ttl: Time, clock: Time, es: seq<Event>, d: nat, f: Envelope)
    returns (c: nat, e: Envelope)
    requires ttl > 0 && Run(Init(capacity, ttl, clock), es) && Brings(Init(capacity, ttl, clock), es, d, f)
    requires var s := After(Init(capacity, ttl, clock), es); At(s, d, Done(Ignored)) || At(s, d, Done(Duplicate))
    ensures c != d && Brings(Init(capacity, ttl, clock), es, c, e) && SameEvent(e, f)
    ensures Logged(After(Init(capacity, ttl, clock), es).log, c)
  {
    var s := After(Init(capacity, ttl, clock), es);
    EveryDeliveryAccountedFor(capacity, ttl, clock, es, d);
    FatesAlways(Init(capacity, ttl, clock), es);
    var i :| 0 <= i < |s.log| && s.log[i].key == s.deliveries[d].key;
    c := s.log[i].delivery;
    e := Brought(Init(capacity, ttl, clock), es, c);
    BroughtCarries(Init(capacity, ttl, clock), es, c, e);
    BroughtCarries(Init(capacity, ttl, clock), es, d, f);
    KeysCoincide(e, f);
  }

  /** And no two messages of one user in one channel are being dispatched at a time. */
  lemma OneSenderAtATime(capacity: nat, ttl: Time, clock: Time, es: seq<Event>, c: nat, d: nat,
                         e: Envelope, f: Envelope)
    requires Brings(Init(capacity, ttl, clock), es, c, e) && Brings(Init(capacity, ttl, clock), es, d, f)
    requires e.channel == f.channel && e.user == f.user
    requires var s := After(Init(capacity, ttl, clock), es); At(s, c, Dispatching) && At(s, d, Dispatching)
    ensures c == d
  {
    BroughtCarries(Init(capacity, ttl, clock), es, c, e);
    BroughtCarries(Init(capacity, ttl, clock), es, d, f);
    ScopesCoincide(e, f);
    LimiterSafe(capacity, ttl, clock, es);
  }

  // ----- a delivery that nothing comes between -----

  function Checked(s: Sys, d: nat, envelope: Envelope, now: Time): Sys {
    Next(Next(s, Arrive(d, envelope)), CheckSeen(d, now))
  }

  function Begun(s: Sys, d: nat): Sys {
    Next(Next(Next(s, TrySend(d)), Reserve(d)), Refund(d))
  }

  function Dispatched(s: Sys, d: nat, now: Time): Sys {
    Next(Next(Next(s, AcceptKey(d, now)), Free(d)), Drain(d))
  }

  predicate KnownAt(seen: map<string, Time>, key: string, now: Time) {
    key in seen && seen[key] > now
  }

  predicate NoneExpired(seen: map<string, Time>, now: Time) {
    forall key :: key in seen ==> seen[key] > now
  }

  /** The same slots, scopes and log. */
  predicate SameLoad(s: Sys, t: Sys) {
    t.capacity == s.capacity && t.ttl == s.ttl && t.slots == s.slots && t.active == s.active && t.log == s.log
  }

  lemma CheckOne(s: Sys, d: nat, e: Envelope, now: Time)
    requires d !in s.deliveries
    ensures var t, key := Checked(s, d, e, now), EventDedupKey(e);
      && Carries(t, d, e) && SameLoad(s, t) && (KnownAt(t.seen, key, now) <==> KnownAt(s.seen, key, now))
      && NoneExpired(t.seen, now)
      && t.deliveries[d].stage == if KnownAt(s.seen, key, now) then Done(Ignored) else Unseen
  {
    DedupKeyNotEmpty(e);
  }

  lemma BeginOne(s: Sys, d: nat, e: Envelope)
    requires Carries(s, d, e) && (At(s, d, Unseen) || s.deliveries[d].stage.Done?)
    ensures var t, scope := Begun(s, d), DispatchScopeKey(e);
      && Carries(t, d, e) && t.seen == s.seen && t.log == s.log && t.capacity == s.capacity && t.ttl == s.ttl
      && if s.deliveries[d].stage.Done? || s.slots >= s.capacity || scope in s.active
         then t.slots == s.slots && t.active == s.active
           && t.deliveries[d].stage == if s.deliveries[d].stage.Done? then s.deliveries[d].stage else Done(Throttled)
         else At(t, d, Admitted) && t.slots == s.slots + 1 && t.active == s.active + {scope} && scope !in s.active
  {
  }

  lemma DispatchOne(s: Sys, d: nat, e: Envelope, now: Time)
    requires Carries(s, d, e) && (At(s, d, Admitted) || s.deliveries[d].stage.Done?)
    requires At(s, d, Admitted) ==> s.slots > 0 && !KnownAt(s.seen, EventDedupKey(e), now)
    ensures var t, key := Dispatched(s, d, now), EventDedupKey(e);
      if s.deliveries[d].stage.Done? then t == s
      else
        && Carries(t, d, e) && t.slots == s.slots - 1 && t.active == s.active - {DispatchScopeKey(e)}
        && t.deliveries[d].stage.Done? && t.deliveries[d].stage.outcome.Dispatched?
        && t.log == s.log + [Entry(d, key, now)] && key in t.seen && t.seen[key] == now + s.ttl
  {
    DedupKeyNotEmpty(e);
  }

  /** A delivery whose event was accepted while it was being admitted is a duplicate, and gives
      back what it holds. */
  lemma DuplicateOne(s: Sys, d: nat, e: Envelope, now: Time)
    requires Carries(s, d, e) && At(s, d, Admitted) && s.slots > 0 && KnownAt(s.seen, EventDedupKey(e), now)
    ensures var t := Dispatched(s, d, now);
      && Carries(t, d, e) && t.slots == s.slots - 1 && t.active == s.active - {DispatchScopeKey(e)}
      && t.deliveries[d].stage.Done? && t.deliveries[d].stage.outcome.Duplicate?
      && t.log == s.log && NoneExpired(t.seen, now)
  {
    DedupKeyNotEmpty(e);
  }

  /** A delivery that nothing comes between is ignored if its event is known, throttled if no
      slot is free or its sender has a message under way, and dispatched and remembered for the
      ttl in every other case; it leaves slots and scopes as it found them. */
  lemma UninterruptedDelivery(s: Sys, d: nat, e: Envelope, now: Time)
    requires d !in s.deliveries
    ensures var t, key := Dispatched(Begun(Checked(s, d, e, now), d), d, now), EventDedupKey(e);
      && Carries(t, d, e) && t.slots == s.slots && t.active == s.active
      && if KnownAt(s.seen, key, now) then At(t, d, Done(Ignored)) && t.log == s.log
         else if s.slots >= s.capacity || DispatchScopeKey(e) in s.active
         then At(t, d, Done(Throttled)) && t.log == s.log
         else
           && t.deliveries[d].stage.Done? && t.deliveries[d].stage.outcome.Dispatched?
           && t.log == s.log + [Entry(d, key, now)] && key in t.seen && t.seen[key] == now + s.ttl
  {
    var checked := Checked(s, d, e, now);
    CheckOne(s, d, e, now);
    BeginOne(checked, d, e);
    DispatchOne(Begun(checked, d), d, e, now);
    assert s.active + {DispatchScopeKey(e)} - {DispatchScopeKey(e)} == s.active - {DispatchScopeKey(e)};
    assert DispatchScopeKey(e) !in s.active ==> s.active - {DispatchScopeKey(e)} == s.active;
  }

  // ----- no delivery is left hanging -----

  /** Steps a delivery has before it at most. */
  function StepsLeft(stage: Stage): nat {
    match stage
    case Arrived => 6
    case Unseen => 5
    case Slotted => 4
    case Admitted => 3
    case Refunding => 1
    case Unwanted => 2
    case Dispatching => 2
    case Draining(_) => 1
    case Done(_) => 0
  }

  function NextStep(d: nat, stage: Stage, now: Time): Event {
    match stage
    case Arrived => CheckSeen(d, now)
    case Unseen => TrySend(d)
    case Slotted => Reserve(d)
    case Admitted => AcceptKey(d, now)
    case Refunding => Refund(d)
    case Unwanted => Free(d)
    case Dispatching => Free(d)
    case _ => Drain(d)
  }

  /** No step of anybody sends a delivery back. */
  lemma StepsLeftDrops(s: Sys, e: Event, d: nat)
    requires d in s.deliveries
    ensures d in Next(s, e).deliveries
    ensures StepsLeft(Next(s, e).deliveries[d].stage) <= StepsLeft(s.deliveries[d].stage)
  {
  }

  lemma StepForward(s: Sys, d: nat, now: Time)
    requires d in s.deliveries && !s.deliveries[d].stage.Done?
    requires s.deliveries[d].stage.Refunding? || s.deliveries[d].stage.Draining? ==> s.slots > 0
    ensures var t := Next(s, NextStep(d, s.deliveries[d].stage, now));
      d in t.deliveries && StepsLeft(t.deliveries[d].stage) < StepsLeft(s.deliveries[d].stage)
  {
  }

  /** After every run, a delivery that is not through can take a step of its own and comes
      nearer to the end by it, so it is through after six of its own steps. */
  lemma NeverStuck(capacity: nat, ttl: Time, clock: Time, es: seq<Event>, d: nat, now: Time)
    requires d in After(Init(capacity, ttl, clock), es).deliveries
    ensures var s := After(Init(capacity, ttl, clock), es);
      !s.deliveries[d].stage.Done? ==>
        var t := Next(s, NextStep(d, s.deliveries[d].stage, now));
        d in t.deliveries && StepsLeft(t.deliveries[d].stage) < StepsLeft(s.deliveries[d].stage)
  {
    var s := After(Init(capacity, ttl, clock), es);
    LimiterSafe(capacity, ttl, clock, es);
    if !s.deliveries[d].stage.Done? {
      StepForward(s, d, now);
    }
  }
}
