/** The Slack event deduper: a table of expiry times that forgets expired keys,
    against the history of accept times that forgets nothing. */
module SlackDedupe {
  type Time = int  // nanoseconds

  const DEFAULT_TTL: Time := 600_000_000_000

  function EffectiveTtl(ttl: Time): (r: Time)
    ensures r > 0
  {
    if ttl <= 0 then DEFAULT_TTL else ttl
  }

  /** The table without the keys expired at `now`. */
  function Pruned(seen: map<string, Time>, now: Time): map<string, Time> {
    map key | key in seen && seen[key] > now :: seen[key]
  }

  function ContainsStep(seen: map<string, Time>, key: string, now: Time): (map<string, Time>, bool) {
    if key == "" then (seen, false)
    else
      var next := Pruned(seen, now);
      (next, key in next && next[key] > now)
  }

  function AcceptStep(seen: map<string, Time>, ttl: Time, key: string, now: Time): (map<string, Time>, bool) {
    if key == "" then (seen, true)
    else
      var next := Pruned(seen, now);
      if key in next && next[key] > now then (next, false) else (next[key := now + ttl], true)
  }

  /** Inside the duplicate window of its last accept. */
  predicate Recent(last: map<string, Time>, ttl: Time, key: string, now: Time) {
    key in last && now < last[key] + ttl
  }

  /** The table holds, for every key, exactly what the history says, save that at
      `clock` expired keys may be missing. */
  predicate Agrees(seen: map<string, Time>, last: map<string, Time>, ttl: Time, clock: Time) {
    && (forall key :: key in seen ==> key in last && seen[key] == last[key] + ttl)
    && (forall key :: key in last && last[key] + ttl > clock ==> key in seen)
  }

  /** Asking changes no answer, and the answer is the history's. */
  lemma ContainsAnswers(
    seen: map<string, Time>, last: map<string, Time>, ttl: Time, clock: Time, key: string, now: Time)
    requires Agrees(seen, last, ttl, clock) && clock <= now
    ensures Agrees(ContainsStep(seen, key, now).0, last, ttl, now)
    ensures ContainsStep(seen, key, now).1 <==> key != "" && Recent(last, ttl, key, now)
  {
  }

  /** Accepting answers as the history does, and records the time exactly when it says yes. */
  lemma AcceptAnswers(seen: map<string, Time>, last: map<string, Time>, ttl: Time, clock: Time, key: string, now: Time)
    requires Agrees(seen, last, ttl, clock) && clock <= now
    ensures var (next, accepted) := AcceptStep(seen, ttl, key, now);
            && (accepted <==> key == "" || !Recent(last, ttl, key, now))
            && Agrees(next, if accepted && key != "" then last[key := now] else last, ttl, now)
  {
  }

  function Later(a: Time, b: Time): Time {
    if a <= b then b else a
  }

  class EventDeduper {
    const ttl: Time
    var seen: map<string, Time>
    ghost var last: map<string, Time>
    ghost var clock: Time

    ghost predicate Valid()
      reads this
    {
      ttl > 0 && Agrees(seen, last, ttl, clock)
    }

    constructor (ttl: Time)
      ensures Valid() && seen == map[] && last == map[]
      ensures this.ttl == if ttl > 0 then ttl else 600_000_000_000
    {
      this.ttl := if ttl <= 0 then DEFAULT_TTL else ttl;
      seen, last, clock := map[], map[], 0;
    }

    /** Deletes the expired keys one by one. */
    method Prune(now: Time)
      modifies this`seen
      ensures seen == Pruned(old(seen), now)
    {
      var keys := seen.Keys;
      ghost var before := seen;
      while keys != {}
        invariant keys <= before.Keys
        invariant forall key :: key in seen <==> key in before && (key in keys || before[key] > now)
        invariant forall key :: key in seen ==> seen[key] == before[key]
        decreases |keys|
      {
        var key :| key in keys;
        keys := keys - {key};
        if seen[key] <= now {
          seen := seen - {key};
        }
      }
    }

    /** Whatever the clock says, a duplicate is one by the history; and as long as the clock
        does not go back, the answer is the one an unpruned history of accept times gives. */
    method ContainsKey(key: string, now: Time) returns (duplicate: bool)
      requires Valid()
      modifies this
      ensures Valid() && last == old(last) && clock == if key == "" then old(clock) else Later(old(clock), now)
      ensures duplicate ==> key != "" && Recent(last, ttl, key, now)
      ensures old(clock) <= now ==> (duplicate <==> key != "" && Recent(last, ttl, key, now))
      ensures (seen, duplicate) == ContainsStep(old(seen), key, now)
    {
      if key == "" {
        return false;
      }
      if clock <= now {
        ContainsAnswers(seen, last, ttl, clock, key, now);
      }
      Prune(now);
      clock := Later(clock, now);
      duplicate := key in seen && seen[key] > now;
    }

    method AcceptKey(key: string, now: Time) returns (accepted: bool)
      requires Valid()
      modifies this
      ensures Valid() && clock == if key == "" then old(clock) else Later(old(clock), now)
      ensures !accepted ==> key != "" && Recent(old(last), ttl, key, now)
      ensures old(clock) <= now ==> (accepted <==> key == "" || !Recent(old(last), ttl, key, now))
      ensures last == if accepted && key != "" then old(last)[key := now] else old(last)
      ensures (seen, accepted) == AcceptStep(old(seen), ttl, key, now)
    {
      if key == "" {
        return true;
      }
      if clock <= now {
        AcceptAnswers(seen, last, ttl, clock, key, now);
      }
      Prune(now);
      clock := Later(clock, now);
      if key in seen && seen[key] > now {
        return false;
      }
      seen := seen[key := now + ttl];
      last := last[key := now];
      accepted := true;
    }
  }
}
