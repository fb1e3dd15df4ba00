/** The worker-facing service calls over the queue store. */
module QueueService {
  import opened Text
  import opened RunQueue
  import opened QueueDeadlines
  import opened Timestamps
  import QueueRuns

  function Marked(db: DB, start: QueueRuns.Start, now: string): DB {
    match MarkRunning(db, start.id, start.leaseId, Trim(start.runId), now)
    case Err(_) => db
    case Ok(marked) => marked
  }

  function RecordedAndMarked(db: DB, start: QueueRuns.Start, now: string): DB {
    match InsertSnapshot(db, start.runId, SnapshotOf(start.payload))
    case Err(_) => db
    case Ok(recorded) => Marked(recorded, start, now)
  }

  function LinkedAndMarked(db: DB, start: QueueRuns.Start, now: string): DB {
    match InsertLink(db, start.payload.launchId, start.runId)
    case Err(_) => db
    case Ok(linked) => RecordedAndMarked(linked, start, now)
  }

  /** The database after one start whose steps nothing interleaves with. */
  function Uninterrupted(db: DB, id: string, leaseId: string, expired: bool, outcome: Option<string>, now: string): DB {
    match ReadForStart(db, id, leaseId, expired)
    case Err(_) => db
    case Ok(row) =>
      if outcome.None? then db
      else LinkedAndMarked(db, QueueRuns.Start(id, leaseId, row.payload, outcome.value, QueueRuns.RunbookStarted), now)
  }

  class Service {
    const store: Store

    constructor (store: Store)
      ensures this.store == store
    {
      this.store := store;
    }

    /** Leases the oldest eligible row for a worker, until the clamped number of whole
        seconds from now. */
    method LeaseQueuedLaunchRun(targetId: string, leaseSeconds: int, leaseId: string, clock: Instant, now: string)
      returns (r: Result<Item, Error>, ghost chosen: string)
      modifies store
      ensures match LeaseItem(old(store.Db()), chosen, Trim(targetId), leaseId, LeaseExpiry(clock, leaseSeconds), now)
              case Ok(db) => store.Db() == db && r == Ok(db.queue[chosen])
              case Err(e) => store.Db() == old(store.Db()) && r == Err(e)
      ensures r.Err? && Trim(targetId) != "" ==>
        forall id :: id in old(store.queue) && old(store.queue)[id].status.Queued? ==>
          old(store.queue)[id].payload.target.runtimeTargetId !in {"", Trim(targetId)}
      ensures r.Ok? ==>
        && r.value.leasedBy == Trim(targetId) && r.value.payload.target.runtimeTargetId in {"", Trim(targetId)}
        && r.value.leaseId == leaseId && r.value.leaseExpiresAt == LeaseExpiry(clock, leaseSeconds)
    {
      if Trim(targetId) == "" {
        return Err(Rejected("target id is required")), "";
      }
      TrimTwice(targetId);
      var seconds := leaseSeconds;
      if seconds <= 0 {
        seconds := DEFAULT_LEASE_SECONDS;
      }
      if seconds > MAX_LEASE_SECONDS {
        seconds := MAX_LEASE_SECONDS;
      }
      r, chosen := store.LeaseNextRunQueueItem(Trim(targetId), leaseId, Rfc3339(clock.second + seconds), now);
    }

    /** Renews only under a lease id, and only a lease that is still held. */
    method RenewQueuedLaunchRunLease(queueId: string, leaseId: string, leaseSeconds: int, clock: Instant, now: string)
      returns (r: Result<Item, Error>)
      modifies store
      ensures Blank(leaseId) ==> r.Err? && store.Db() == old(store.Db())
      ensures !Blank(leaseId) ==>
        match RenewLease(old(store.Db()), Trim(queueId), Trim(leaseId), LeaseExpiry(clock, leaseSeconds), now)
        case Ok(db) => store.Db() == db && r == Ok(db.queue[Trim(queueId)])
        case Err(e) => store.Db() == old(store.Db()) && r == Err(e)
    {
      if Trim(leaseId) == "" {
        return Err(Rejected("lease_id is required"));
      }
      TrimTwice(leaseId);
      r := store.RenewRunQueueLease(queueId, Trim(leaseId), LeaseExpiry(clock, leaseSeconds), now);
    }

    /** Releases only under a lease id and only into a terminal status; anything else is refused untouched. */
    method ReleaseQueuedLaunchRunLease(
      queueId: string, leaseId: string, status: string, runId: string, error: string, now: string)
      returns (r: Result<Item, Error>)
      modifies store
      ensures Blank(leaseId) || ReleaseStatus(status).None? ==> r.Err? && store.Db() == old(store.Db())
      ensures !Blank(leaseId) && ReleaseStatus(status).Some? ==>
        match ReleaseLease(
          old(store.Db()), Trim(queueId), Trim(leaseId), ReleaseStatus(status).value, Trim(runId), Trim(error), now)
        case Ok(db) => store.Db() == db && r == Ok(db.queue[Trim(queueId)])
        case Err(e) => store.Db() == old(store.Db()) && r == Err(e)
    {
      if Trim(leaseId) == "" {
        return Err(Rejected("lease_id is required"));
      }
      var final := ReleaseStatus(status);
      if final.None? {
        return Err(Rejected("queue release status is not terminal"));
      }
      r := store.ReleaseRunQueueLease(queueId, leaseId, final.value, runId, error, now);
    }

    /** Starts a leased run: read, execute, link, record, mark. `expired` is what the
        clock says of the lease and `outcome` what the executor returns. The call is
        the uninterrupted run of a start's steps, and on success the row is running and
        its run is linked and recorded. */
    method StartQueuedLaunchRun(queueId: string, leaseId: string, expired: bool, outcome: Option<string>, now: string)
      returns (r: Result<Item, Error>)
      modifies store
      ensures store.Db() == Uninterrupted(old(store.Db()), Trim(queueId), Trim(leaseId), expired, outcome, now)
      ensures r.Ok? ==>
        && outcome.Some? && Trim(queueId) in store.queue && store.queue[Trim(queueId)] == r.value
        && r.value.status.Running? && r.value.runId == Trim(outcome.value) && r.value.leaseId == Trim(leaseId)
        && QueueRuns.IsRecorded(store.Db(), r.value.payload, outcome.value)
      ensures r.Err? ==> store.queue == old(store.queue)
    {
      var read := store.GetRunQueueItem(queueId);
      if read.Err? {
        return read;
      }
      var item := read.value;
      if !item.status.Leased? {
        return Err(Rejected("not leased"));
      }
      if item.leaseId != Trim(leaseId) {
        return Err(Rejected("lease_id does not match queued run"));
      }
      if expired {
        return Err(Rejected("queued run lease expired"));
      }
      if outcome.None? {
        return Err(Rejected("start runbook"));
      }
      var linked := store.InsertRunLink(item.payload.launchId, outcome.value);
      if linked.Err? {
        return Err(linked.error);
      }
      var recorded := store.InsertRunSnapshot(outcome.value, SnapshotOf(item.payload));
      if recorded.Err? {
        return Err(recorded.error);
      }
      r := store.MarkRunQueueItemRunning(queueId, leaseId, outcome.value, now);
    }
  }

  /** The events of one start, in order; without an outcome the executor has failed. */
  function StartEvents(call: nat, id: string, leaseId: string, expired: bool, outcome: Option<string>, now: string)
    : seq<QueueRuns.Event>
  {
    var answer := if outcome.Some? then QueueRuns.StartRunbook(call, outcome.value) else QueueRuns.RunbookFails(call);
    [QueueRuns.BeginStart(call, id, leaseId, expired), answer,
     QueueRuns.LinkRun(call), QueueRuns.RecordRun(call), QueueRuns.MarkRun(call, now)]
  }

  lemma RecordThenMark(s: QueueRuns.Sys, call: nat, now: string)
    requires QueueRuns.At(s, call, QueueRuns.Linked)
    ensures QueueRuns.Next(QueueRuns.Next(s, QueueRuns.RecordRun(call)), QueueRuns.MarkRun(call, now)).db
      == RecordedAndMarked(s.db, s.starts[call], now)
  {
  }

  lemma LinkThenMark(s: QueueRuns.Sys, call: nat, now: string)
    requires QueueRuns.At(s, call, QueueRuns.RunbookStarted)
    ensures var t := QueueRuns.Next(s, QueueRuns.LinkRun(call));
            QueueRuns.Next(QueueRuns.Next(t, QueueRuns.RecordRun(call)), QueueRuns.MarkRun(call, now)).db
            == LinkedAndMarked(s.db, s.starts[call], now)
  {
    var t := QueueRuns.Next(s, QueueRuns.LinkRun(call));
    if QueueRuns.At(t, call, QueueRuns.Linked) {
      RecordThenMark(t, call, now);
    }
  }

  lemma FiveSteps(s: QueueRuns.Sys, es: seq<QueueRuns.Event>)
    requires |es| == 5 && forall i, t :: 0 <= i < 5 ==> QueueRuns.Admissible(t, es[i])
    ensures QueueRuns.Run(s, es)
    ensures QueueRuns.After(s, es)
      == QueueRuns.Next(QueueRuns.Next(QueueRuns.Next(QueueRuns.Next(QueueRuns.Next(s, es[0]), es[1]), es[2]), es[3]),
          es[4])
  {
    for i := 0 to 5
      invariant QueueRuns.Run(s, es[..i])
      invariant i >= 1 ==> QueueRuns.After(s, es[..i]) == QueueRuns.Next(QueueRuns.After(s, es[..i - 1]), es[i - 1])
      invariant i >= 2 ==> QueueRuns.After(s, es[..i - 1]) == QueueRuns.Next(QueueRuns.After(s, es[..i - 2]), es[i - 2])
      invariant i >= 3 ==> QueueRuns.After(s, es[..i - 2]) == QueueRuns.Next(QueueRuns.After(s, es[..i - 3]), es[i - 3])
      invariant i >= 4 ==> QueueRuns.After(s, es[..i - 3]) == QueueRuns.Next(QueueRuns.After(s, es[..i - 4]), es[i - 4])
      invariant i >= 5 ==> QueueRuns.After(s, es[..i - 4]) == QueueRuns.Next(QueueRuns.After(s, es[..i - 5]), es[i - 5])
    {
      QueueRuns.Extend(s, es[..i], es[i]);
      assert es[..i] + [es[i]] == es[..i + 1];
    }
    assert es[..5] == es && es[..0] == [];
  }

  lemma NothingLeft(s: QueueRuns.Sys, call: nat, now: string)
    requires call !in s.starts
    ensures QueueRuns.Next(QueueRuns.Next(QueueRuns.Next(s, QueueRuns.LinkRun(call)), QueueRuns.RecordRun(call)),
      QueueRuns.MarkRun(call, now)) == s
  {
  }

  /** The first two events read the item and call the executor, or leave no start behind. */
  lemma ReadThenCall(s: QueueRuns.Sys, call: nat, id: string, leaseId: string, expired: bool, outcome: Option<string>)
    requires call !in s.starts
    ensures var es := StartEvents(call, id, leaseId, expired, outcome, "");
      var t, row := QueueRuns.Next(QueueRuns.Next(s, es[0]), es[1]), ReadForStart(s.db, id, leaseId, expired);
      && t.db == s.db && (call in t.starts <==> row.Ok? && outcome.Some?)
      && (call in t.starts ==>
            var payload := row.value.payload;
            t.starts[call] == QueueRuns.Start(id, leaseId, payload, outcome.value, QueueRuns.RunbookStarted))
  {
  }

  /** A start that is not interrupted is one of the interleaved system's runs. */
  lemma UninterruptedIsARun(
    s: QueueRuns.Sys, call: nat, id: string, leaseId: string, expired: bool, outcome: Option<string>, now: string)
    requires call !in s.starts && now != ""
    ensures var es := StartEvents(call, id, leaseId, expired, outcome, now);
      && QueueRuns.Run(s, es)
      && QueueRuns.After(s, es).db == Uninterrupted(s.db, id, leaseId, expired, outcome, now)
  {
    var es := StartEvents(call, id, leaseId, expired, outcome, now);
    FiveSteps(s, es);
    var t := QueueRuns.Next(QueueRuns.Next(s, es[0]), es[1]);
    ReadThenCall(s, call, id, leaseId, expired, outcome);
    if ReadForStart(s.db, id, leaseId, expired).Ok? && outcome.Some? {
      LinkThenMark(t, call, now);
    } else {
      NothingLeft(t, call, now);
    }
  }
}
