/** Every run of the launch run queue: workers, cancellations, sweeps and
    half-finished starts interleaved in any order. */
module QueueRuns {
  import opened Text
  import opened RunQueue

  // ----- the interleaved system -----

  /** How far one call that starts a queued run has come. */
  datatype Stage = ItemRead | RunbookStarted | Linked | Recorded

  datatype Start = Start(id: string, leaseId: string, payload: Payload, runId: string, stage: Stage)

  /** A recovery that has scanned at `now` and still has these rows to update. */
  datatype Sweep = Sweep(now: string, pending: map<string, ExpiredLease>)

  /** `issued` holds every lease id drawn so far. */
  datatype Sys = Sys(db: DB, issued: set<string>, starts: map<nat, Start>, sweeps: map<nat, Sweep>)

  datatype Event =
    | Enqueue(id: string, payload: Payload, now: string)
    | Lease(id: string, targetId: string, leaseId: string, expiresAt: string, now: string)
    | Renew(id: string, leaseId: string, expiresAt: string, now: string)
    | Release(id: string, leaseId: string, status: string, runId: string, error: string, now: string)
    | Cancel(id: string, now: string)
    | Scan(sweep: nat, now: string)
    | Update(sweep: nat, id: string)
    | BeginStart(call: nat, id: string, leaseId: string, expired: bool)
    | StartRunbook(call: nat, runId: string)
    | RunbookFails(call: nat)
    | LinkRun(call: nat)
    | RecordRun(call: nat)
    | MarkRun(call: nat, now: string)
    | OtherLink(launchId: string, runId: string)
    | OtherSnapshot(runId: string, snapshot: Snapshot)

  function Init(): Sys {
    Sys(DB(map[], {}, map[]), {}, map[], map[])
  }

  function Stored(s: Sys, r: Result<DB, Error>): Sys {
    match r
    case Ok(db) => s.(db := db)
    case Err(_) => s
  }

  /** A store step inside a start: the call goes on to `stage`, or ends on an error. */
  function Advanced(s: Sys, call: nat, stage: Stage, r: Result<DB, Error>): Sys
    requires call in s.starts
  {
    match r
    case Ok(db) => s.(db := db, starts := s.starts[call := s.starts[call].(stage := stage)])
    case Err(_) => s.(starts := s.starts - {call})
  }

  predicate At(s: Sys, call: nat, stage: Stage) {
    call in s.starts && s.starts[call].stage == stage
  }

  predicate Pending(s: Sys, sweep: nat, id: string) {
    sweep in s.sweeps && id in s.sweeps[sweep].pending && s.sweeps[sweep].pending[id].id == id
  }

  /** One store call, or one step of a start or of a sweep. An event whose guard fails
      changes nothing. */
  function Next(s: Sys, e: Event): Sys {
    match e
    case Enqueue(id, payload, now) => Stored(s, InsertItem(s.db, id, NewItem(payload, now)))
    case Lease(id, targetId, leaseId, expiresAt, now) =>
      Stored(s, LeaseItem(s.db, id, targetId, leaseId, expiresAt, now)).(issued := s.issued + {leaseId})
    case Renew(id, leaseId, expiresAt, now) =>
      if leaseId == "" then s else Stored(s, RenewLease(s.db, id, leaseId, expiresAt, now))
    case Release(id, leaseId, status, runId, error, now) =>
      (match ReleaseStatus(status)
       case Some(final) =>
         if leaseId == "" then s else Stored(s, ReleaseLease(s.db, id, leaseId, final, runId, error, now))
       case None => s)
    case Cancel(id, now) => Stored(s, CancelItem(s.db, id, now))
    case Scan(sweep, now) =>
      if sweep in s.sweeps then s else s.(sweeps := s.sweeps[sweep := Sweep(now, Scanned(s.db.queue, now))])
    case Update(sweep, id) =>
      if !Pending(s, sweep, id) then s
      else
        var Sweep(now, pending) := s.sweeps[sweep];
        s.(db := UpdateExpired(s.db, pending[id], now), sweeps := s.sweeps[sweep := Sweep(now, pending - {id})])
    case BeginStart(call, id, leaseId, expired) =>
      if call in s.starts then s
      else (match ReadForStart(s.db, id, leaseId, expired)
            case Ok(row) => s.(starts := s.starts[call := Start(id, leaseId, row.payload, "", ItemRead)])
            case Err(_) => s)
    case StartRunbook(call, runId) =>
      if !At(s, call, ItemRead) then s
      else s.(starts := s.starts[call := s.starts[call].(runId := runId, stage := RunbookStarted)])
    case RunbookFails(call) => if !At(s, call, ItemRead) then s else s.(starts := s.starts - {call})
    case LinkRun(call) =>
      if !At(s, call, RunbookStarted) then s
      else Advanced(s, call, Linked, InsertLink(s.db, s.starts[call].payload.launchId, s.starts[call].runId))
    case RecordRun(call) =>
      if !At(s, call, Linked) then s
      else Advanced(s, call, Recorded, InsertSnapshot(s.db, s.starts[call].runId, SnapshotOf(s.starts[call].payload)))
    case MarkRun(call, now) =>
      if !At(s, call, Recorded) then s
      else
        var start := s.starts[call];
        Stored(s, MarkRunning(s.db, start.id, start.leaseId, Trim(start.runId), now)).(starts := s.starts - {call})
    case OtherLink(launchId, runId) => Stored(s, InsertLink(s.db, launchId, runId))
    case OtherSnapshot(runId, snapshot) => Stored(s, InsertSnapshot(s.db, runId, snapshot))
  }

  /** What the environment supplies: fresh non-blank lease ids, printed times,
      and retry limits whose successor is still an integer. */
  predicate Admissible(s: Sys, e: Event) {
    match e
    case Enqueue(_, payload, now) => payload.policy.retryLimit < MAX_INT64 && now != ""
    case Lease(_, _, leaseId, expiresAt, _) => leaseId !in s.issued && leaseId != "" && expiresAt != ""
    case Renew(_, _, expiresAt, _) => expiresAt != ""
    case Release(_, _, _, _, _, now) => now != ""
    case Cancel(_, now) => now != ""
    case Scan(_, now) => now != ""
    case MarkRun(_, now) => now != ""
    case _ => true
  }

  function After(s: Sys, es: seq<Event>): Sys
    decreases |es|
  {
    if es == [] then s else After(Next(s, es[0]), es[1..])
  }

  predicate Run(s: Sys, es: seq<Event>)
    decreases |es|
  {
    es == [] || (Admissible(s, es[0]) && Run(Next(s, es[0]), es[1..]))
  }

  // ----- updates that come in time -----

  predicate Exhausted(lease: ExpiredLease) {
    lease.attempts >= lease.maxAttempts
  }

  /** The row was failed by another sweep that read the very same time. */
  predicate AlreadyFailed(row: Item, now: string) {
    && row.status.Failed? && row.lastError == "lease expired" && row.completedAt == now && row.updatedAt == now
    && row.leaseId == "" && row.leasedBy == "" && row.leaseExpiresAt == ""
  }

  /** An update does no more than recovery may: the row is owned and, unless the scan saw
      its attempts used up, still has one, or it is waiting already. */
  predicate InTime(row: Item, lease: ExpiredLease, now: string) {
    || (row.status.Queued? && !Exhausted(lease))
    || (row.status.Live() && (Exhausted(lease) || row.attempts < row.maxAttempts))
    || (AlreadyFailed(row, now) && Exhausted(lease))
  }

  predicate Timely(s: Sys, e: Event) {
    e.Update? && Pending(s, e.sweep, e.id) && e.id in s.db.queue ==>
      InTime(s.db.queue[e.id], s.sweeps[e.sweep].pending[e.id], s.sweeps[e.sweep].now)
  }

  /** No sweep's update comes too late for its row. */
  predicate Prompt(s: Sys, es: seq<Event>)
    decreases |es|
  {
    es == [] || (Timely(s, es[0]) && Prompt(Next(s, es[0]), es[1..]))
  }

  // ----- what a step writes -----

  /** `x` is what event `e` writes into row `id`. */
  predicate Writes(s: Sys, e: Event, id: string, x: Item) {
    var queue := s.db.queue;
    match e
    case Enqueue(key, payload, now) => id == key && id !in queue && x == NewItem(payload, now)
    case Lease(key, targetId, leaseId, expiresAt, now) =>
      && id == key && id in queue && queue[id].status.Queued? && targetId != ""
      && queue[id].payload.target.runtimeTargetId in {"", targetId}
      && x == LeaseRow(queue[id], targetId, leaseId, expiresAt, now)
    case Renew(key, leaseId, expiresAt, now) =>
      && id == key && leaseId != "" && Holds(s.db, id, leaseId)
      && x == queue[id].(leaseExpiresAt := expiresAt, updatedAt := now)
    case Release(key, leaseId, status, runId, error, now) =>
      && id == key && leaseId != "" && Holds(s.db, id, leaseId) && ReleaseStatus(status).Some?
      && x == ReleaseRow(queue[id], ReleaseStatus(status).value, runId, error, now)
    case Cancel(key, now) =>
      && id == key && id in queue && (queue[id].status.Queued? || queue[id].status.Leased?)
      && x == queue[id].(status := Canceled, leaseId := "", leasedBy := "", leaseExpiresAt := "",
                         completedAt := now, updatedAt := now)
    case Update(sweep, key) =>
      && id == key && Pending(s, sweep, id) && id in queue
      && var lease := s.sweeps[sweep].pending[id];
      && x == RecoverRow(queue[id], lease.attempts, lease.maxAttempts, s.sweeps[sweep].now)
    case MarkRun(call, now) =>
      && At(s, call, Recorded) && id == s.starts[call].id && Holds(s.db, id, s.starts[call].leaseId)
      && queue[id].status.Leased?
      && x == queue[id].(status := Running, runId := Trim(s.starts[call].runId), startedAt := now, updatedAt := now)
    case _ => false
  }

  predicate ByWorker(e: Event) {
    e.Lease? || e.Renew? || e.Release? || e.MarkRun?
  }

  lemma WorkerWrites(s: Sys, e: Event) returns (w: Option<(string, Item)>)
    requires ByWorker(e)
    ensures w.None? ==> Next(s, e).db.queue == s.db.queue
    ensures w.Some? ==> Writes(s, e, w.value.0, w.value.1) && Next(s, e).db.queue == s.db.queue[w.value.0 := w.value.1]
  {
    var queue := Next(s, e).db.queue;
    w := None;
    match e {
      case Lease(id, targetId, _, _, _) =>
        if targetId != "" && OldestEligible(s.db.queue, targetId, id) { w := Some((id, queue[id])); }
      case Renew(id, leaseId, _, _) => if leaseId != "" && Holds(s.db, id, leaseId) { w := Some((id, queue[id])); }
      case Release(id, leaseId, status, _, _, _) =>
        if leaseId != "" && Holds(s.db, id, leaseId) && ReleaseStatus(status).Some? { w := Some((id, queue[id])); }
      case MarkRun(call, _) =>
        if At(s, call, Recorded) {
          var id := s.starts[call].id;
          if Holds(s.db, id, s.starts[call].leaseId) && s.db.queue[id].status.Leased? { w := Some((id, queue[id])); }
        }
    }
  }

  lemma OtherWrites(s: Sys, e: Event) returns (w: Option<(string, Item)>)
    requires !ByWorker(e)
    ensures w.None? ==> Next(s, e).db.queue == s.db.queue
    ensures w.Some? ==> Writes(s, e, w.value.0, w.value.1) && Next(s, e).db.queue == s.db.queue[w.value.0 := w.value.1]
  {
    var queue := Next(s, e).db.queue;
    w := None;
    match e {
      case Enqueue(id, _, _) => if id !in s.db.queue { w := Some((id, queue[id])); }
      case Cancel(id, _) =>
        if id in s.db.queue && (s.db.queue[id].status.Queued? || s.db.queue[id].status.Leased?) {
          w := Some((id, queue[id]));
        }
      case Update(sweep, id) => if Pending(s, sweep, id) && id in s.db.queue { w := Some((id, queue[id])); }
      case _ =>
    }
  }

  /** No step touches more than one row. */
  lemma StepWrites(s: Sys, e: Event) returns (w: Option<(string, Item)>)
    ensures w.None? ==> Next(s, e).db.queue == s.db.queue
    ensures w.Some? ==> Writes(s, e, w.value.0, w.value.1) && Next(s, e).db.queue == s.db.queue[w.value.0 := w.value.1]
  {
    if ByWorker(e) {
      w := WorkerWrites(s, e);
    } else {
      w := OtherWrites(s, e);
    }
  }

  // ----- what no step changes -----

  /** A row is never lost, its payload, retry bound and enqueue time never change, and its
      attempts never go back. */
  predicate Keeps(a: Item, b: Item) {
    b.payload == a.payload && b.maxAttempts == a.maxAttempts && b.enqueuedAt == a.enqueuedAt && a.attempts <= b.attempts
  }

  lemma WriteKeeps(s: Sys, e: Event, id: string, x: Item)
    requires Writes(s, e, id, x) && id in s.db.queue
    ensures Keeps(s.db.queue[id], x)
  {
  }

  lemma StepKeeps(s: Sys, e: Event, id: string)
    requires id in s.db.queue
    ensures id in Next(s, e).db.queue && Keeps(s.db.queue[id], Next(s, e).db.queue[id])
  {
    var w := StepWrites(s, e);
    if w.Some? && w.value.0 == id {
      WriteKeeps(s, e, id, w.value.1);
    }
  }

  lemma {:induction false} RowsKept(s: Sys, es: seq<Event>, id: string)
    requires id in s.db.queue
    ensures id in After(s, es).db.queue && Keeps(s.db.queue[id], After(s, es).db.queue[id])
    decreases |es|
  {
    if es != [] {
      StepKeeps(s, es[0], id);
      RowsKept(Next(s, es[0]), es[1..], id);
    }
  }

  // ----- the only moves a row makes -----

  predicate SameLease(a: Item, b: Item) {
    a.leaseId == b.leaseId && a.leasedBy == b.leasedBy && a.attempts == b.attempts
  }

  /** The payload, the retry bound and the enqueue time never change; a terminal
      row never changes at all; an attempt is counted exactly when a lease is granted. */
  predicate Move(a: Item, b: Item) {
    && Keeps(a, b)
    && match a.status
       case Queued =>
         || b == a
         || (b.status == Leased && b.attempts == a.attempts + 1)
         || ((b.status == Queued || b.status == Canceled) && b.attempts == a.attempts)
       case Leased =>
         || b == a.(leaseExpiresAt := b.leaseExpiresAt, updatedAt := b.updatedAt)
         || (b.status == Running && SameLease(a, b) && b.leaseExpiresAt == a.leaseExpiresAt)
         || (b.status == Queued && b.attempts == a.attempts < a.maxAttempts)
         || (b.status.Terminal() && b.attempts == a.attempts)
       case Running =>
         || b == a.(leaseExpiresAt := b.leaseExpiresAt, updatedAt := b.updatedAt)
         || (b.status == Queued && b.attempts == a.attempts < a.maxAttempts)
         || (b.status.Terminal() && b.attempts == a.attempts)
       case _ => b == a
  }

  lemma UpdateMoves(row: Item, lease: ExpiredLease, now: string)
    requires InTime(row, lease, now)
    ensures Move(row, RecoverRow(row, lease.attempts, lease.maxAttempts, now))
  {
  }

  lemma WriteMoves(s: Sys, e: Event, id: string, x: Item)
    requires Writes(s, e, id, x) && id in s.db.queue && Timely(s, e)
    ensures Move(s.db.queue[id], x)
  {
    if e.Update? {
      UpdateMoves(s.db.queue[id], s.sweeps[e.sweep].pending[id], s.sweeps[e.sweep].now);
    }
  }

  /** Every step moves every row as rows may move, updates that come too late excepted. */
  lemma StepMoves(s: Sys, e: Event, id: string)
    requires id in s.db.queue && Timely(s, e)
    ensures id in Next(s, e).db.queue && Move(s.db.queue[id], Next(s, e).db.queue[id])
  {
    var w := StepWrites(s, e);
    if w.Some? && w.value.0 == id {
      WriteMoves(s, e, id, w.value.1);
    }
  }

  // ----- the invariant -----

  /** Attempts are bounded, a queued row has one left, and the lease columns are
      filled exactly while a worker owns the row. */
  predicate RowOk(row: Item) {
    && 0 <= row.attempts <= row.maxAttempts && 1 <= row.maxAttempts
    && (row.status.Queued? ==> row.attempts < row.maxAttempts)
    && (if row.status.Live() then row.leaseId != "" && row.leasedBy != "" && row.leaseExpiresAt != ""
        else row.leaseId == "" && row.leasedBy == "" && row.leaseExpiresAt == "")
    && (row.status.Terminal() <==> row.completedAt != "")
  }

  predicate RowsOk(s: Sys) {
    forall id :: id in s.db.queue ==> RowOk(s.db.queue[id])
  }

  /** Live leases were issued, and no two rows share one. */
  predicate LeasesOk(s: Sys) {
    && (forall id :: id in s.db.queue && s.db.queue[id].status.Live() ==> s.db.queue[id].leaseId in s.issued)
    && forall a, b ::
         a in s.db.queue && b in s.db.queue && a != b && s.db.queue[a].status.Live() && s.db.queue[b].status.Live() ==>
           s.db.queue[a].leaseId != s.db.queue[b].leaseId
  }

  /** A snapshot records what the payload says, column by column. */
  predicate Records(snapshot: Snapshot, payload: Payload) {
    && snapshot.launchId == payload.launchId && snapshot.launchVersion == payload.launchVersion
    && snapshot.runbookId == payload.runbookId && snapshot.runbookVersion == payload.runbookVersion
    && snapshot.resolvedInput == payload.resolvedInput && snapshot.resolution == payload.resolution
    && snapshot.target == payload.target && snapshot.policy == payload.policy
      && snapshot.secretRefs == payload.secretRefs
  }

  /** The executor's run `raw` is linked to the payload's launch and recorded. */
  predicate IsRecorded(db: DB, payload: Payload, raw: string) {
    (payload.launchId, raw) in db.links && raw in db.snapshots && Records(db.snapshots[raw], payload)
  }

  predicate Audited(db: DB, row: Item) {
    exists raw :: raw in db.snapshots && IsRecorded(db, row.payload, raw) && row.runId == Trim(raw)
  }

  predicate RunningAudited(s: Sys) {
    forall id :: id in s.db.queue && s.db.queue[id].status.Running? ==> Audited(s.db, s.db.queue[id])
  }

  /** A start in progress carries its row's payload and has stored what its stage says. */
  predicate StartOk(db: DB, start: Start) {
    && start.id in db.queue && db.queue[start.id].payload == start.payload
    && (start.stage.Linked? || start.stage.Recorded? ==> (start.payload.launchId, start.runId) in db.links)
    && (start.stage.Recorded? ==> IsRecorded(db, start.payload, start.runId))
  }

  predicate StartsOk(s: Sys) {
    forall call :: call in s.starts ==> StartOk(s.db, s.starts[call])
  }

  /** A scan's counters are not ahead of the row's. */
  predicate PendingOk(s: Sys, sweep: nat, id: string)
    requires sweep in s.sweeps && id in s.sweeps[sweep].pending
  {
    var lease := s.sweeps[sweep].pending[id];
    && s.sweeps[sweep].now != "" && id in s.db.queue && lease.id == id
    && lease.maxAttempts == s.db.queue[id].maxAttempts && lease.attempts <= s.db.queue[id].attempts
  }

  predicate SweepsOk(s: Sys) {
    forall sweep, id :: sweep in s.sweeps && id in s.sweeps[sweep].pending ==> PendingOk(s, sweep, id)
  }

  /** Kept by every run, whenever sweeps come to their updates. */
  predicate Inv(s: Sys) {
    LeasesOk(s) && RunningAudited(s) && StartsOk(s) && SweepsOk(s)
  }

  lemma UpdateRow(row: Item, lease: ExpiredLease, now: string)
    requires RowOk(row) && InTime(row, lease, now) && now != ""
    ensures RowOk(RecoverRow(row, lease.attempts, lease.maxAttempts, now))
  {
  }

  lemma WriteRow(s: Sys, e: Event, id: string, x: Item)
    requires id in s.db.queue ==> RowOk(s.db.queue[id])
    requires Admissible(s, e) && Timely(s, e) && SweepsOk(s) && Writes(s, e, id, x)
    ensures RowOk(x)
  {
    if e.Enqueue? {
      MaxAttemptsPositive(e.payload.policy);
    } else if e.Update? {
      UpdateRow(s.db.queue[id], s.sweeps[e.sweep].pending[id], s.sweeps[e.sweep].now);
    }
  }

  lemma RowStep(s: Sys, e: Event, id: string)
    requires id in s.db.queue ==> RowOk(s.db.queue[id])
    requires Admissible(s, e) && Timely(s, e) && SweepsOk(s) && id in Next(s, e).db.queue
    ensures RowOk(Next(s, e).db.queue[id])
  {
    var w := StepWrites(s, e);
    if w.Some? && w.value.0 == id {
      WriteRow(s, e, id, w.value.1);
    }
  }

  lemma WriteOrigin(s: Sys, e: Event, id: string, x: Item)
    requires Writes(s, e, id, x) && x.status.Live()
    ensures if e.Lease? then x.status.Leased? && e.id == id && e.leaseId == x.leaseId
      else id in s.db.queue && s.db.queue[id].status.Live() && s.db.queue[id].leaseId == x.leaseId
           && (x.status.Leased? ==> s.db.queue[id].status.Leased?)
    ensures x.status.Running? ==>
      && id in s.db.queue && x.payload == s.db.queue[id].payload
      && if e.MarkRun? then
           At(s, e.call, Recorded) && s.starts[e.call].id == id && x.runId == Trim(s.starts[e.call].runId)
         else s.db.queue[id].status.Running? && x.runId == s.db.queue[id].runId
  {
  }

  /** Where a live row's lease comes from, and where a running row's run comes from. */
  lemma LiveOrigin(s: Sys, e: Event, id: string)
    requires id in Next(s, e).db.queue && Next(s, e).db.queue[id].status.Live()
    ensures var row := Next(s, e).db.queue[id];
            || (id in s.db.queue && s.db.queue[id].status.Live() && s.db.queue[id].leaseId == row.leaseId
                && (row.status.Leased? ==> s.db.queue[id].status.Leased?))
            || (e.Lease? && e.id == id && e.leaseId == row.leaseId)
    ensures var row := Next(s, e).db.queue[id];
            row.status.Running? ==>
              && id in s.db.queue && row.payload == s.db.queue[id].payload
              && (|| (s.db.queue[id].status.Running? && row.runId == s.db.queue[id].runId)
                  || (e.MarkRun? && At(s, e.call, Recorded) && s.starts[e.call].id == id
                    && row.runId == Trim(s.starts[e.call].runId)))
  {
    var w := StepWrites(s, e);
    if w.Some? && w.value.0 == id {
      WriteOrigin(s, e, id, w.value.1);
    }
  }

  /** A row that asks for a target is owned by that one only. */
  predicate TargetsOk(s: Sys) {
    forall id :: id in s.db.queue && s.db.queue[id].status.Live() ==>
      var row := s.db.queue[id];
      row.payload.target.runtimeTargetId == "" || row.payload.target.runtimeTargetId == row.leasedBy
  }

  lemma WriteTarget(s: Sys, e: Event, id: string, x: Item)
    requires TargetsOk(s) && Writes(s, e, id, x) && x.status.Live()
    ensures x.payload.target.runtimeTargetId == "" || x.payload.target.runtimeTargetId == x.leasedBy
  {
  }

  lemma TargetsStep(s: Sys, e: Event)
    requires TargetsOk(s)
    ensures TargetsOk(Next(s, e))
  {
    var w := StepWrites(s, e);
    if w.Some? && w.value.1.status.Live() {
      WriteTarget(s, e, w.value.0, w.value.1);
    }
  }

  /** After every run, late updates included, no item is with a worker it was not meant for. */
  lemma {:induction false} TargetsAlways(s: Sys, es: seq<Event>)
    requires TargetsOk(s)
    ensures TargetsOk(After(s, es))
    decreases |es|
  {
    if es != [] {
      TargetsStep(s, es[0]);
      TargetsAlways(Next(s, es[0]), es[1..]);
    }
  }

  lemma LeasesStep(s: Sys, e: Event)
    requires LeasesOk(s) && Admissible(s, e)
    ensures LeasesOk(Next(s, e))
  {
    var t := Next(s, e);
    forall id | id in t.db.queue && t.db.queue[id].status.Live()
      ensures t.db.queue[id].leaseId in t.issued
      ensures forall b :: b in t.db.queue && b != id && t.db.queue[b].status.Live() ==>
        t.db.queue[id].leaseId != t.db.queue[b].leaseId
    {
      LiveOrigin(s, e, id);
      forall b | b in t.db.queue && b != id && t.db.queue[b].status.Live()
        ensures t.db.queue[id].leaseId != t.db.queue[b].leaseId
      {
        LiveOrigin(s, e, b);
      }
    }
  }

  /** Links and snapshots are only ever added. */
  lemma AuditTablesGrow(s: Sys, e: Event)
    ensures s.db.links <= Next(s, e).db.links
    ensures forall raw ::
      raw in s.db.snapshots ==> raw in Next(s, e).db.snapshots && Next(s, e).db.snapshots[raw] == s.db.snapshots[raw]
  {
    match e
    case LinkRun(_) =>
    case RecordRun(_) =>
    case OtherLink(_, _) =>
    case OtherSnapshot(_, _) =>
    case _ =>
  }

  /** A start is new, unchanged, or one stage further with what that stage stores. */
  lemma StartOrigin(s: Sys, e: Event, call: nat)
    requires call in Next(s, e).starts
    ensures var db, b := Next(s, e).db, Next(s, e).starts[call];
            if call in s.starts then
              var a := s.starts[call];
              && b.id == a.id && b.payload == a.payload
              && (|| b == a
                  || b.stage.RunbookStarted?
                  || (b.stage.Linked? && (b.payload.launchId, b.runId) in db.links)
                  || (b == a.(stage := Recorded) && a.stage.Linked? && b.runId in db.snapshots
                    && db.snapshots[b.runId] == SnapshotOf(b.payload)))
            else
              b.stage.ItemRead? && b.id in s.db.queue && b.payload == s.db.queue[b.id].payload
  {
    match e
    case BeginStart(_, _, _, _) =>
    case StartRunbook(_, _) =>
    case RunbookFails(_) =>
    case LinkRun(_) =>
    case RecordRun(_) =>
    case MarkRun(_, _) =>
    case _ =>
  }

  lemma StartStep(s: Sys, e: Event, call: nat)
    requires StartsOk(s) && call in Next(s, e).starts
    ensures StartOk(Next(s, e).db, Next(s, e).starts[call])
  {
    StartOrigin(s, e, call);
    if Next(s, e).starts[call].id in s.db.queue {
      StepKeeps(s, e, Next(s, e).starts[call].id);
    }
    AuditTablesGrow(s, e);
  }

  lemma AuditStep(s: Sys, e: Event)
    requires RunningAudited(s) && StartsOk(s)
    ensures RunningAudited(Next(s, e))
  {
    var t := Next(s, e);
    AuditTablesGrow(s, e);
    forall id | id in t.db.queue && t.db.queue[id].status.Running? ensures Audited(t.db, t.db.queue[id]) {
      LiveOrigin(s, e, id);
      if s.db.queue[id].status.Running? && t.db.queue[id].runId == s.db.queue[id].runId {
        var raw :| raw in s.db.snapshots && IsRecorded(s.db, s.db.queue[id].payload, raw)
          && s.db.queue[id].runId == Trim(raw);
        assert IsRecorded(t.db, t.db.queue[id].payload, raw);
      } else {
        assert IsRecorded(t.db, t.db.queue[id].payload, s.starts[e.call].runId);
      }
    }
  }

  lemma SweepsStep(s: Sys, e: Event)
    requires SweepsOk(s) && Admissible(s, e)
    ensures SweepsOk(Next(s, e))
  {
    var t := Next(s, e);
    forall sweep, id | sweep in t.sweeps && id in t.sweeps[sweep].pending
      ensures PendingOk(t, sweep, id)
    {
      SweepOrigin(s, e, sweep, id);
      assert sweep in s.sweeps && id in s.sweeps[sweep].pending ==> PendingOk(s, sweep, id);
      StepKeeps(s, e, id);
    }
  }

  /** A pending update was pending before, or its scan is this step. */
  lemma SweepOrigin(s: Sys, e: Event, sweep: nat, id: string)
    requires sweep in Next(s, e).sweeps && id in Next(s, e).sweeps[sweep].pending
    ensures var now, lease := Next(s, e).sweeps[sweep].now, Next(s, e).sweeps[sweep].pending[id];
            || (sweep in s.sweeps && id in s.sweeps[sweep].pending && s.sweeps[sweep].now == now
              && s.sweeps[sweep].pending[id] == lease)
            || (&& e.Scan? && e.now == now && id in s.db.queue && Expired(s.db.queue[id], now)
                && lease == ExpiredLease(id, s.db.queue[id].attempts, s.db.queue[id].maxAttempts))
  {
  }

  lemma InvStep(s: Sys, e: Event)
    requires Inv(s) && Admissible(s, e)
    ensures Inv(Next(s, e))
  {
    forall call | call in Next(s, e).starts ensures StartOk(Next(s, e).db, Next(s, e).starts[call]) {
      StartStep(s, e, call);
    }
    LeasesStep(s, e);
    AuditStep(s, e);
    SweepsStep(s, e);
  }

  /** The invariant holds after every run, late updates included. */
  lemma {:induction false} InvAlways(s: Sys, es: seq<Event>)
    requires Inv(s) && Run(s, es)
    ensures Inv(After(s, es))
    decreases |es|
  {
    if es != [] {
      InvStep(s, es[0]);
      InvAlways(Next(s, es[0]), es[1..]);
    }
  }

  lemma RowsStep(s: Sys, e: Event)
    requires Inv(s) && RowsOk(s) && Admissible(s, e) && Timely(s, e)
    ensures RowsOk(Next(s, e))
  {
    forall id | id in Next(s, e).db.queue ensures RowOk(Next(s, e).db.queue[id]) {
      RowStep(s, e, id);
    }
  }

  /** Every row stays well formed along every run whose updates come in time. */
  lemma {:induction false} RowsAlways(s: Sys, es: seq<Event>)
    requires Inv(s) && RowsOk(s) && Run(s, es) && Prompt(s, es)
    ensures RowsOk(After(s, es))
    decreases |es|
  {
    if es != [] {
      InvStep(s, es[0]);
      RowsStep(s, es[0]);
      RowsAlways(Next(s, es[0]), es[1..]);
    }
  }

  lemma Reachable(es: seq<Event>)
    requires Run(Init(), es)
    ensures Inv(After(Init(), es))
    ensures Prompt(Init(), es) ==> RowsOk(After(Init(), es))
  {
    InvAlways(Init(), es);
    if Prompt(Init(), es) {
      RowsAlways(Init(), es);
    }
  }

  // ----- rows over runs -----

  /** If updates come in time, a finished row never changes at all. */
  lemma {:induction false} RowsPersist(s: Sys, es: seq<Event>, id: string)
    requires id in s.db.queue && Prompt(s, es)
    ensures id in After(s, es).db.queue && Keeps(s.db.queue[id], After(s, es).db.queue[id])
    ensures s.db.queue[id].status.Terminal() ==> After(s, es).db.queue[id] == s.db.queue[id]
    decreases |es|
  {
    if es != [] {
      StepMoves(s, es[0], id);
      RowsPersist(Next(s, es[0]), es[1..], id);
    }
  }

  // ----- putting runs together -----

  lemma {:induction false} Extend(s: Sys, es: seq<Event>, e: Event)
    requires Run(s, es) && Admissible(After(s, es), e)
    ensures Run(s, es + [e]) && After(s, es + [e]) == Next(After(s, es), e)
    ensures Prompt(s, es) && Timely(After(s, es), e) ==> Prompt(s, es + [e])
    decreases |es|
  {
    if es == [] {
      assert (es + [e])[1..] == [];
    } else {
      assert (es + [e])[1..] == es[1..] + [e];
      Extend(Next(s, es[0]), es[1..], e);
    }
  }

  lemma {:induction false} AfterConcat(s: Sys, a: seq<Event>, b: seq<Event>)
    ensures After(s, a + b) == After(After(s, a), b)
    ensures Run(s, a + b) <==> Run(s, a) && Run(After(s, a), b)
    decreases |a|
  {
    if a == [] {
      assert a + b == b;
    } else {
      assert (a + b)[1..] == a[1..] + b;
      AfterConcat(Next(s, a[0]), a[1..], b);
    }
  }

  /** A row leased for the first time. */
  lemma ReadyLeased(payload: Payload) returns (es: seq<Event>, row: Item)
    requires 0 <= payload.policy.retryLimit < MAX_INT64 && payload.target.runtimeTargetId == ""
    ensures Run(Init(), es) && Prompt(Init(), es) && es == [Enqueue("q", payload, "t"), Lease("q", "w", "l", "x", "t")]
    ensures row == LeaseRow(NewItem(payload, "t"), "w", "l", "x", "t")
      && row.maxAttempts == payload.policy.retryLimit + 1
    ensures After(Init(), es) == Sys(DB(map["q" := row], {}, map[]), {"l"}, map[], map[])
  {
    es := [];
    MaxAttemptsPositive(payload.policy);
    Extend(Init(), es, Enqueue("q", payload, "t"));
    es := es + [Enqueue("q", payload, "t")];
    assert OldestEligible(After(Init(), es).db.queue, "w", "q");
    Extend(Init(), es, Lease("q", "w", "l", "x", "t"));
    es := es + [Lease("q", "w", "l", "x", "t")];
    row := After(Init(), es).db.queue["q"];
    assert After(Init(), es).db.queue == map["q" := row];
  }

  /** The same row, and a start that has read it. */
  lemma ReadyToStart(payload: Payload) returns (es: seq<Event>, row: Item)
    requires payload.policy.retryLimit == 0 && payload.target.runtimeTargetId == ""
    ensures Run(Init(), es) && Prompt(Init(), es) && row.status.Leased? && row.payload == payload && row.leaseId == "l"
    ensures After(Init(), es)
      == Sys(DB(map["q" := row], {}, map[]), {"l"}, map[0 := Start("q", "l", payload, "", ItemRead)], map[])
  {
    es, row := ReadyLeased(payload);
    Extend(Init(), es, BeginStart(0, "q", "l", false));
    es := es + [BeginStart(0, "q", "l", false)];
  }
}
