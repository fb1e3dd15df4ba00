/** What comparing timestamps as text means for leases and for queue order. */
module QueueDeadlines {
  import opened Text
  import opened RunQueue
  import opened QueueRuns
  import opened QueueFencing
  import opened Timestamps

  const DEFAULT_LEASE_SECONDS: int := 300
  const MAX_LEASE_SECONDS: int := 3600

  /** A lease never lasts longer than an hour, and a positive request gets the nearest time
      there is. */
  function LeaseSeconds(requested: int): (s: int)
    ensures 1 <= s <= MAX_LEASE_SECONDS
    ensures requested > 0 ==> s <= requested && (s == requested || s == MAX_LEASE_SECONDS)
    ensures requested <= 0 ==> s == DEFAULT_LEASE_SECONDS
  {
    if requested <= 0 then DEFAULT_LEASE_SECONDS
    else if requested > MAX_LEASE_SECONDS then MAX_LEASE_SECONDS
    else requested
  }

  /** Formatting drops the fraction of the second. */
  function LeaseExpiry(granted: Instant, requested: int): string {
    Rfc3339(granted.second + LeaseSeconds(requested))
  }

  predicate Grantable(granted: Instant, requested: int) {
    granted.nanos < NANOS && Printable(granted.second + LeaseSeconds(requested))
  }

  lemma ExpiryNotBlank(second: nat)
    ensures Rfc3339(second) != ""
  {
    assert Rfc3339(second)[|SecondText(second)|] == 'Z';
  }

  /** A sweep takes an owned row exactly when the sweep's second is past the
      deadline's, or is the deadline's with no fraction. */
  lemma SweepTakes(db: DB, id: string, deadline: nat, sweep: Instant)
    requires id in db.queue && db.queue[id].status.Live() && db.queue[id].leaseExpiresAt == Rfc3339(deadline)
    requires Printable(deadline) && ValidInstant(sweep)
    ensures RecoverExpired(db, Rfc3339Nano(sweep)).queue[id].status.Live()
       <==> sweep.second < deadline || (sweep.second == deadline && sweep.nanos > 0)
  {
    DeadlineOrder(deadline, sweep);
    ExpiryNotBlank(deadline);
  }

  /** A lease of s seconds survives every sweep up to s - 1 seconds after it was
      granted and no sweep from s + 1 seconds on. */
  lemma LeaseLifetime(db: DB, id: string, granted: Instant, requested: int, sweep: Instant)
    requires id in db.queue && db.queue[id].status.Live()
      && db.queue[id].leaseExpiresAt == LeaseExpiry(granted, requested)
    requires Grantable(granted, requested) && ValidInstant(sweep)
    ensures Nanoseconds(sweep) <= Nanoseconds(granted) + (LeaseSeconds(requested) - 1) * NANOS
      ==> RecoverExpired(db, Rfc3339Nano(sweep)).queue[id] == db.queue[id]
    ensures Nanoseconds(sweep) >= Nanoseconds(granted) + (LeaseSeconds(requested) + 1) * NANOS
      ==> !RecoverExpired(db, Rfc3339Nano(sweep)).queue[id].status.Live()
  {
    SweepTakes(db, id, granted.second + LeaseSeconds(requested), sweep);
  }

  /** A row is expired at a sweep's time exactly if the sweep takes it. */
  lemma ExpiredIsTaken(db: DB, id: string, now: string)
    requires id in db.queue && db.queue[id].status.Live()
    ensures Expired(db.queue[id], now) <==> !RecoverExpired(db, now).queue[id].status.Live()
  {
  }

  // ----- an unrenewed lease over a run -----

  /** Every sweep in the run scans at most `allowance` seconds after `granted`. */
  ghost predicate ScansWithin(es: seq<Event>, granted: Instant, allowance: int) {
    forall i :: 0 <= i < |es| && es[i].Scan? ==>
      exists t ::
        ValidInstant(t) && es[i].now == Rfc3339Nano(t) && Nanoseconds(t) <= Nanoseconds(granted) + allowance * NANOS
  }

  /** No sweep under way has the row. */
  predicate NotScanned(s: Sys, id: string) {
    forall sweep :: sweep in s.sweeps ==> id !in s.sweeps[sweep].pending
  }

  /** The row is still its worker's, or has been released or canceled; no sweep has had it. */
  predicate NotSwept(before: Item, after: Item) {
    || (after.status.Live() && after.leaseId == before.leaseId && after.leaseExpiresAt == before.leaseExpiresAt)
    || after.status.Terminal()
  }

  lemma NotScannedStep(s: Sys, e: Event, id: string)
    requires NotScanned(s, id) && id in s.db.queue && (e.Scan? ==> !Expired(s.db.queue[id], e.now))
    ensures NotScanned(Next(s, e), id)
  {
    var t := Next(s, e);
    forall sweep | sweep in t.sweeps ensures id !in t.sweeps[sweep].pending {
      if id in t.sweeps[sweep].pending {
        SweepOrigin(s, e, sweep, id);
      }
    }
  }

  lemma OwnedStep(s: Sys, e: Event, id: string)
    requires id in s.db.queue && s.db.queue[id].status.Live() && NotScanned(s, id)
    requires !(e.Renew? && e.leaseId == s.db.queue[id].leaseId)
    ensures id in Next(s, e).db.queue && NotSwept(s.db.queue[id], Next(s, e).db.queue[id])
  {
    var w := StepWrites(s, e);
    StepKeeps(s, e, id);
  }

  lemma TerminalStep(s: Sys, e: Event, id: string)
    requires id in s.db.queue && s.db.queue[id].status.Terminal() && NotScanned(s, id)
    ensures id in Next(s, e).db.queue && Next(s, e).db.queue[id] == s.db.queue[id] && NotScanned(Next(s, e), id)
  {
    var w := StepWrites(s, e);
    NotScannedStep(s, e, id);
  }

  lemma {:induction false} TerminalStays(s: Sys, es: seq<Event>, id: string)
    requires id in s.db.queue && s.db.queue[id].status.Terminal() && NotScanned(s, id)
    ensures id in After(s, es).db.queue && After(s, es).db.queue[id] == s.db.queue[id]
    decreases |es|
  {
    if es != [] {
      TerminalStep(s, es[0], id);
      TerminalStays(Next(s, es[0]), es[1..], id);
    }
  }

  lemma ScanTooEarly(s: Sys, e: Event, id: string, granted: Instant, requested: int)
    requires id in s.db.queue && s.db.queue[id].status.Live()
    requires s.db.queue[id].leaseExpiresAt == LeaseExpiry(granted, requested) && Grantable(granted, requested)
    requires e.Scan? && ScansWithin([e], granted, LeaseSeconds(requested) - 1)
    ensures !Expired(s.db.queue[id], e.now)
  {
    assert [e][0] == e;
    var now :| ValidInstant(now) && e.now == Rfc3339Nano(now)
      && Nanoseconds(now) <= Nanoseconds(granted) + (LeaseSeconds(requested) - 1) * NANOS;
    LeaseLifetime(s.db, id, granted, requested, now);
    ExpiredIsTaken(s.db, id, e.now);
  }

  /** An unrenewed lease of s seconds that no sweep has scanned yet is lost to none that scans
      within s - 1 seconds, whenever that sweep comes to its updates and whatever else happens
      meanwhile. */
  lemma {:induction false} UnrenewedLeaseSurvives(s: Sys, es: seq<Event>, id: string, granted: Instant, requested: int)
    requires id in s.db.queue && s.db.queue[id].status.Live() && NotScanned(s, id)
    requires s.db.queue[id].leaseExpiresAt == LeaseExpiry(granted, requested) && Grantable(granted, requested)
    requires ScansWithin(es, granted, LeaseSeconds(requested) - 1) && NeverRenewed(es, s.db.queue[id].leaseId)
    ensures id in After(s, es).db.queue && NotSwept(s.db.queue[id], After(s, es).db.queue[id])
    decreases |es|
  {
    if es != [] {
      var e, t := es[0], Next(s, es[0]);
      assert forall i :: 0 <= i < |es[1..]| ==> es[1..][i] == es[i + 1];
      if e.Scan? {
        ScanTooEarly(s, e, id, granted, requested);
      }
      OwnedStep(s, e, id);
      NotScannedStep(s, e, id);
      if t.db.queue[id].status.Live() {
        UnrenewedLeaseSurvives(t, es[1..], id, granted, requested);
      } else {
        TerminalStays(t, es[1..], id);
      }
    }
  }

  // ----- and when it is over -----

  predicate HeldOrRetired(s: Sys, id: string, lease: string) {
    HeldBy(s, id, lease) || Retired(s, lease)
  }

  lemma HeldOrRetiredStep(s: Sys, e: Event, id: string, lease: string)
    requires LeasesOk(s) && Admissible(s, e) && HeldOrRetired(s, id, lease)
    ensures HeldOrRetired(Next(s, e), id, lease)
  {
    if HeldBy(s, id, lease) {
      if !HeldBy(Next(s, e), id, lease) {
        LosingRetires(s, e, id, lease);
      }
    } else {
      assert Next(s, e) == After(s, [e]);
      RetiredStays(s, [e], lease);
    }
  }

  lemma UpdateTakes(s: Sys, sweep: nat, id: string, lease: string)
    requires Pending(s, sweep, id)
    ensures !HeldBy(Next(s, Update(sweep, id)), id, lease)
  {
  }

  lemma PendingStays(s: Sys, e: Event, sweep: nat, id: string)
    requires Pending(s, sweep, id) && e != Update(sweep, id)
    ensures Pending(Next(s, e), sweep, id)
  {
  }

  /** Once a sweep has the row, its update takes the lease, if nothing else did. */
  lemma {:induction false} PendingTaken(s: Sys, es: seq<Event>, sweep: nat, id: string, lease: string)
    requires LeasesOk(s) && Run(s, es) && Pending(s, sweep, id) && HeldOrRetired(s, id, lease)
      && Update(sweep, id) in es
    ensures Retired(After(s, es), lease)
    decreases |es|
  {
    LeasesStep(s, es[0]);
    HeldOrRetiredStep(s, es[0], id, lease);
    if es[0] == Update(sweep, id) {
      UpdateTakes(s, sweep, id, lease);
      RetiredStays(Next(s, es[0]), es[1..], lease);
    } else {
      PendingStays(s, es[0], sweep, id);
      PendingTaken(Next(s, es[0]), es[1..], sweep, id, lease);
    }
  }

  /** A run in which a sweep scans s + 1 seconds or more after the grant and comes to the row
      does not leave an unrenewed lease of s seconds to anybody, whatever else happens. */
  lemma {:induction false} OverdueLeaseIsLost(s: Sys, es: seq<Event>, k: nat, sweep: nat, sweepTime: Instant,
                                              id: string, lease: string, granted: Instant, requested: int)
    requires LeasesOk(s) && Run(s, es) && HeldOrRetired(s, id, lease)
    requires HeldBy(s, id, lease) ==> s.db.queue[id].leaseExpiresAt == LeaseExpiry(granted, requested)
    requires Grantable(granted, requested) && ValidInstant(sweepTime)
    requires Nanoseconds(sweepTime) >= Nanoseconds(granted) + (LeaseSeconds(requested) + 1) * NANOS
    requires k < |es| && NeverRenewed(es[..k], lease)
    requires es[k] == Scan(sweep, Rfc3339Nano(sweepTime)) && sweep !in After(s, es[..k]).sweeps
      && Update(sweep, id) in es[k + 1..]
    ensures Retired(After(s, es), lease)
    decreases |es|
  {
    var e, t := es[0], Next(s, es[0]);
    LeasesStep(s, e);
    HeldOrRetiredStep(s, e, id, lease);
    if Retired(s, lease) {
      RetiredStays(s, es, lease);
    } else if k == 0 {
      LeaseLifetime(s.db, id, granted, requested, sweepTime);
      ExpiredIsTaken(s.db, id, e.now);
      assert es[..0] == [] && Pending(t, sweep, id);
      PendingTaken(t, es[1..], sweep, id, lease);
    } else {
      assert es[..k][0] == e && es[..k][1..] == es[1..][..k - 1];
      assert es[1..][k..] == es[k + 1..];
      if HeldBy(t, id, lease) {
        DeadlineKept(s, e, id, lease);
      }
      OverdueLeaseIsLost(t, es[1..], k - 1, sweep, sweepTime, id, lease, granted, requested);
    }
  }

  // ----- starting against the same deadline -----

  /** `launchRunLeaseExpired`: blank, unparsable, or not after the clock. */
  ghost predicate LeaseExpired(expiresAt: string, clock: Instant) {
    !exists deadline: nat ::
      Printable(deadline) && expiresAt == Rfc3339(deadline) && deadline * NANOS > Nanoseconds(clock)
  }

  lemma DeadlinesDistinct(a: nat, b: nat)
    requires Printable(a) && Printable(b) && a < b
    ensures Rfc3339(a) != Rfc3339(b)
  {
    SecondsIncrease(a, b);
    LessTotal(SecondText(a), SecondText(b));
    assert Rfc3339(a)[..|SecondText(a)|] == SecondText(a) && Rfc3339(b)[..|SecondText(b)|] == SecondText(b);
  }

  /** A start is refused whenever a sweep at that instant would take the row; the two
      disagree only inside the deadline's own second, where the start is already refused. */
  lemma StartRefusedFirst(deadline: nat, clock: Instant)
    requires Printable(deadline) && ValidInstant(clock)
    ensures AtMost(Rfc3339(deadline), Rfc3339Nano(clock)) ==> LeaseExpired(Rfc3339(deadline), clock)
    ensures LeaseExpired(Rfc3339(deadline), clock) && !AtMost(Rfc3339(deadline), Rfc3339Nano(clock))
       <==> clock.second == deadline && clock.nanos > 0
  {
    DeadlineOrder(deadline, clock);
    forall other: nat | Printable(other) && Rfc3339(deadline) == Rfc3339(other) ensures other == deadline {
      if other < deadline {
        DeadlinesDistinct(other, deadline);
      } else if deadline < other {
        DeadlinesDistinct(deadline, other);
      }
    }
    assert LeaseExpired(Rfc3339(deadline), clock) <==> deadline * NANOS <= Nanoseconds(clock);
  }

  // ----- first in, first out -----

  predicate EnqueuedAt(row: Item, t: Instant) {
    ValidInstant(t) && row.enqueuedAt == Rfc3339Nano(t)
  }

  /** The row a lease takes was not enqueued in a later second than any eligible row it passes over. */
  lemma OldestSecondFirst(
    queue: map<string, Item>, targetId: string, taken: string, other: string, t: Instant, u: Instant)
    requires OldestEligible(queue, targetId, taken) && other in queue && Eligible(queue[other], targetId)
    requires EnqueuedAt(queue[taken], t) && EnqueuedAt(queue[other], u)
    ensures t.second <= u.second
  {
    if u.second < t.second {
      EarlierSecondFirst(u, t);
      LessTotal(queue[taken].enqueuedAt, queue[other].enqueuedAt);
    }
  }

  /** Within one second an older row is passed over exactly when its printed fraction
      is the beginning of the younger row's. */
  lemma PassedOverWithinSecond(queue: map<string, Item>, older: string, younger: string, t: Instant, u: Instant)
    requires older in queue && younger in queue
    requires EnqueuedAt(queue[older], t) && EnqueuedAt(queue[younger], u) && t.second == u.second && t.nanos < u.nanos
    ensures Before(queue, younger, older) <==> Fraction(t.nanos) <= Fraction(u.nanos)
  {
    SameSecondOrder(t, u);
    LessTotal(queue[older].enqueuedAt, queue[younger].enqueuedAt);
    TextsDiffer(t, u);
  }

  lemma TextsDiffer(t: Instant, u: Instant)
    requires ValidInstant(t) && ValidInstant(u) && t.second == u.second && t.nanos < u.nanos
    ensures Rfc3339Nano(t) != Rfc3339Nano(u)
  {
    FractionsDiffer(t.nanos, u.nanos);
    var f, g, p := Fraction(t.nanos), Fraction(u.nanos), SecondText(t.second);
    assert (p + (f + "Z"))[|p|..] == f + "Z" && (p + (g + "Z"))[|p|..] == g + "Z";
    assert (f + "Z")[..|f|] == f && (g + "Z")[..|g|] == g;
  }
}
