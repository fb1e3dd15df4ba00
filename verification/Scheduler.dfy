/** The scan that enqueues due scheduled launches. */
module Scheduler {
  import opened Text
  import opened RunQueue

  /** Quiet hours are minutes of the day, absent when blank or malformed. */
  datatype Schedule = Schedule(enabled: bool, quietStart: Option<nat>, quietEnd: Option<nat>, maxRuns: int)

  datatype Launch = Launch(id: string, policy: Policy, schedule: Schedule)

  /** The clock's answers for one launch (minute of the day, cron match, stop time passed),
      and whether the store can tell its count of all and of active runs. */
  datatype Reading = Reading(minute: nat, due: bool, stopped: bool, totalKnown: bool, activeKnown: bool)

  /** Resolving a launch for a run may fail, or leave input missing, or be decided against. */
  datatype Preview =
    | Unresolved(reason: string)
    | Resolved(payload: Payload, missingSetup: seq<string>, decision: string, reasons: seq<string>)

  const ALLOWED := "allowed"

  /** Why a launch may not be enqueued, if it may not. */
  function Refusal(preview: Preview): Option<string> {
    match preview
    case Unresolved(reason) => Some(reason)
    case Resolved(_, missingSetup, decision, reasons) =>
      if missingSetup != [] then Some("launch needs input: " + Join(missingSetup, ", "))
      else if decision != ALLOWED then Some("launch policy blocked enqueue: " + Join(reasons, "; "))
      else None
  }

  /** `Broken` ends the scan: the store could not tell a count. */
  datatype Verdict = Ignored | Skipped(reason: string) | Enqueued(queueId: string) | Broken

  /** What one scan sees of the world, launch by launch, and the ids it draws. */
  datatype World = World(reading: string -> Reading, preview: string -> Preview, queueId: string -> string, now: string)

  const ACTIVE: set<Status> := {Queued, Leased, Running}

  function Total(queue: map<string, Item>, launchId: string): nat {
    |Counted(queue, launchId, {})|
  }

  function Active(queue: map<string, Item>, launchId: string): nat {
    |Counted(queue, launchId, ACTIVE)|
  }

  function Parallelism(policy: Policy): int {
    if policy.maxParallelism <= 0 then 1 else policy.maxParallelism
  }

  const DAY: nat := 1440

  function InQuietHours(schedule: Schedule, minute: nat): bool {
    match (schedule.quietStart, schedule.quietEnd)
    case (Some(start), Some(end)) =>
      if start == end then false
      else if start < end then start <= minute < end
      else minute >= start || minute < end
    case _ => false
  }

  /** Quiet hours are the minutes reached from the start before the end is, going
      around midnight if need be. */
  lemma QuietHoursWrap(schedule: Schedule, start: nat, end: nat, minute: nat)
    requires schedule.quietStart == Some(start) && schedule.quietEnd == Some(end)
    requires start < DAY && end < DAY && minute < DAY
    ensures InQuietHours(schedule, minute) <==> (minute + DAY - start) % DAY < (end + DAY - start) % DAY
  {
  }

  predicate RunsLeft(queue: map<string, Item>, op: Launch) {
    op.schedule.maxRuns > 0 ==> Total(queue, Trim(op.id)) < op.schedule.maxRuns
  }

  predicate SlotFree(queue: map<string, Item>, op: Launch) {
    Active(queue, Trim(op.id)) < Parallelism(op.policy)
  }

  /** One turn of the scan's loop. */
  function ScanOne(db: DB, op: Launch, w: World): (DB, Verdict) {
    var reading := w.reading(op.id);
    if !op.schedule.enabled || !reading.due then (db, Ignored)
    else if reading.stopped then (db, Skipped("schedule window ended"))
    else if InQuietHours(op.schedule, reading.minute) then (db, Skipped("quiet hours"))
    else if op.schedule.maxRuns > 0 && !reading.totalKnown then (db, Broken)
    else if !RunsLeft(db.queue, op) then (db, Skipped("max scheduled runs reached"))
    else if !reading.activeKnown then (db, Broken)
    else if !SlotFree(db.queue, op) then (db, Skipped("max parallel runs active"))
    else EnqueueOne(db, w.preview(op.id), w.queueId(op.id), w.now)
  }

  function EnqueueOne(db: DB, preview: Preview, queueId: string, now: string): (DB, Verdict) {
    match Refusal(preview)
    case Some(reason) => (db, Skipped(reason))
    case None =>
      match InsertItem(db, queueId, NewItem(preview.payload, now))
      case Ok(next) => (next, Enqueued(queueId))
      case Err(_) => (db, Skipped("insert launch run queue item"))
  }

  predicate Ended(verdicts: seq<Verdict>) {
    verdicts != [] && verdicts[|verdicts| - 1].Broken?
  }

  /** The scan goes through the launches in order, as far as the store lets it. */
  function ScanAll(db: DB, ops: seq<Launch>, w: World): (r: (DB, seq<Verdict>))
    ensures |r.1| <= |ops| && (!Ended(r.1) ==> |r.1| == |ops|)
    decreases |ops|
  {
    if ops == [] then (db, [])
    else
      var (rest, verdicts) := ScanAll(db, ops[..|ops| - 1], w);
      if Ended(verdicts) then (rest, verdicts)
      else
        var (next, verdict) := ScanOne(rest, ops[|ops| - 1], w);
        (next, verdicts + [verdict])
  }

  datatype ScanResult = ScanResult(checked: nat, enqueued: seq<string>, skipped: seq<(string, string)>, failed: bool)

  function EnqueuedIds(verdicts: seq<Verdict>): seq<string> {
    if verdicts == [] then []
    else
      var last := verdicts[|verdicts| - 1];
      EnqueuedIds(verdicts[..|verdicts| - 1]) + if last.Enqueued? then [last.queueId] else []
  }

  function SkippedReasons(ops: seq<Launch>, verdicts: seq<Verdict>): seq<(string, string)>
    requires |ops| == |verdicts|
  {
    if ops == [] then []
    else
      var n := |ops| - 1;
      SkippedReasons(ops[..n], verdicts[..n]) + if verdicts[n].Skipped? then [(ops[n].id, verdicts[n].reason)] else []
  }

  /** What a scan reports: the launches it looked at have verdicts. */
  function Reported(ops: seq<Launch>, verdicts: seq<Verdict>, checked: nat): ScanResult
    requires |ops| == |verdicts|
  {
    ScanResult(checked, EnqueuedIds(verdicts), SkippedReasons(ops, verdicts), Ended(verdicts))
  }

  /** The scan's report after one more launch. */
  function Recorded(result: ScanResult, op: Launch, verdict: Verdict): ScanResult {
    match verdict
    case Ignored => result
    case Skipped(reason) => result.(skipped := result.skipped + [(op.id, reason)])
    case Enqueued(id) => result.(enqueued := result.enqueued + [id])
    case Broken => result.(failed := true)
  }

  lemma ReportedAppend(ops: seq<Launch>, verdicts: seq<Verdict>, op: Launch, verdict: Verdict, checked: nat)
    requires |ops| == |verdicts| && !Ended(verdicts)
    ensures var r := Reported(ops, verdicts, checked);
      Reported(ops + [op], verdicts + [verdict], checked) == Recorded(r, op, verdict)
  {
    assert (ops + [op])[..|ops|] == ops && (verdicts + [verdict])[..|verdicts|] == verdicts;
  }

  lemma ScanAllAppend(db: DB, ops: seq<Launch>, op: Launch, w: World)
    requires !Ended(ScanAll(db, ops, w).1)
    ensures var (before, verdicts) := ScanAll(db, ops, w);
      var (after, verdict) := ScanOne(before, op, w);
      ScanAll(db, ops + [op], w) == (after, verdicts + [verdict])
  {
    assert (ops + [op])[..|ops|] == ops;
  }

  /** A scan that has ended looks at no more launches. */
  lemma {:induction false} EndedStays(db: DB, ops: seq<Launch>, w: World, i: nat)
    requires i <= |ops| && Ended(ScanAll(db, ops[..i], w).1)
    ensures ScanAll(db, ops, w) == ScanAll(db, ops[..i], w)
    decreases |ops|
  {
    if i == |ops| {
      assert ops[..i] == ops;
    } else {
      var n := |ops| - 1;
      assert ops[..n][..i] == ops[..i];
      EndedStays(db, ops[..n], w, i);
    }
  }

  /** Waiting, untried, in nobody's hands. */
  predicate Waiting(row: Item, payload: Payload) {
    && row.payload == payload && row.status.Queued? && row.attempts == 0
    && row.leaseId == "" && row.leasedBy == "" && row.leaseExpiresAt == "" && row.runId == "" && row.lastError == ""
    && row.startedAt == "" && row.completedAt == ""
  }

  /** Stores a resolved launch as a queued run; a launch that may not run is refused untouched. */
  method EnqueueLaunchRun(store: Store, preview: Preview, queueId: string, now: string) returns (r: Result<Item, Error>)
    modifies store
    ensures Refusal(preview).Some? ==> store.Db() == old(store.Db()) && r == Err(Rejected(Refusal(preview).value))
    ensures Refusal(preview).None? ==>
      match InsertItem(old(store.Db()), queueId, NewItem(preview.payload, now))
      case Ok(db) => store.Db() == db && r == Ok(db.queue[queueId]) && Waiting(r.value, preview.payload)
      case Err(e) => store.Db() == old(store.Db()) && r == Err(e)
  {
    if preview.Unresolved? {
      return Err(Rejected(preview.reason));
    }
    if |preview.missingSetup| > 0 {
      return Err(Rejected("launch needs input: " + Join(preview.missingSetup, ", ")));
    }
    if preview.decision != ALLOWED {
      return Err(Rejected("launch policy blocked enqueue: " + Join(preview.reasons, "; ")));
    }
    var item := NewItem(preview.payload, now);
    var inserted := store.InsertRunQueueItem(queueId, item);
    r := if inserted.Ok? then Ok(item) else Err(inserted.error);
  }

  /** One turn of the loop, against the stored rows. */
  method ScanLaunch(store: Store, op: Launch, w: World) returns (verdict: Verdict)
    modifies store
    ensures (store.Db(), verdict) == ScanOne(old(store.Db()), op, w)
  {
    var reading := w.reading(op.id);
    if !op.schedule.enabled || !reading.due {
      return Ignored;
    }
    if reading.stopped {
      return Skipped("schedule window ended");
    }
    if InQuietHours(op.schedule, reading.minute) {
      return Skipped("quiet hours");
    }
    if op.schedule.maxRuns > 0 {
      if !reading.totalKnown {
        return Broken;
      }
      var count := store.CountRunQueueItems(op.id, {});
      if count >= op.schedule.maxRuns {
        return Skipped("max scheduled runs reached");
      }
    }
    var maxParallel := op.policy.maxParallelism;
    if maxParallel <= 0 {
      maxParallel := 1;
    }
    if !reading.activeKnown {
      return Broken;
    }
    var active := store.CountRunQueueItems(op.id, {Queued, Leased, Running});
    if active >= maxParallel {
      return Skipped("max parallel runs active");
    }
    var item := EnqueueLaunchRun(store, w.preview(op.id), w.queueId(op.id), w.now);
    if item.Err? {
      return Skipped(if item.error.Rejected? then item.error.reason else "insert launch run queue item");
    }
    verdict := Enqueued(w.queueId(op.id));
  }

  /** The scan reports on the launches it got to. */
  method EnqueueDueScheduledLaunchpad(store: Store, ops: seq<Launch>, w: World) returns (result: ScanResult)
    modifies store
    ensures var (db, verdicts) := ScanAll(old(store.Db()), ops, w);
      store.Db() == db && result == Reported(ops[..|verdicts|], verdicts, |ops|)
  {
    result := ScanResult(|ops|, [], [], false);
    ghost var db0 := store.Db();
    ghost var verdicts: seq<Verdict> := [];
    for i := 0 to |ops|
      invariant |verdicts| == i && !Ended(verdicts) && ScanAll(db0, ops[..i], w) == (store.Db(), verdicts)
      invariant result == Reported(ops[..i], verdicts, |ops|)
    {
      var verdict := ScanLaunch(store, ops[i], w);
      assert ops[..i + 1] == ops[..i] + [ops[i]];
      ScanAllAppend(db0, ops[..i], ops[i], w);
      ReportedAppend(ops[..i], verdicts, ops[i], verdict, |ops|);
      verdicts := verdicts + [verdict];
      result := Recorded(result, ops[i], verdict);
      if verdict.Broken? {
        EndedStays(db0, ops, w, i + 1);
        return;
      }
    }
    assert ops[..|ops|] == ops;
  }

  // ----- one scan -----

  lemma InsertCounted(queue: map<string, Item>, id: string, item: Item, launchId: string, statuses: set<Status>)
    requires id !in queue && (statuses == {} || item.status in statuses)
    ensures |Counted(queue[id := item], launchId, statuses)|
      == |Counted(queue, launchId, statuses)| + if item.payload.launchId == launchId then 1 else 0
  {
    CountedInsert(queue, id, item, launchId, statuses);
  }

  lemma CountedInsert(queue: map<string, Item>, id: string, item: Item, launchId: string, statuses: set<Status>)
    requires id !in queue
    ensures Counted(queue[id := item], launchId, statuses)
      == Counted(queue, launchId, statuses) + (if Counts(item, launchId, statuses) then {id} else {})
    ensures id !in Counted(queue, launchId, statuses)
  {
  }

  lemma InsertCounts(db: DB, id: string, item: Item, launchId: string)
    requires id !in db.queue && item.status.Queued?
    ensures var q, n := db.queue[id := item], if item.payload.launchId == launchId then 1 else 0;
            Total(q, launchId) == Total(db.queue, launchId) + n && Active(q, launchId) == Active(db.queue, launchId) + n
  {
    InsertCounted(db.queue, id, item, launchId, {});
    InsertCounted(db.queue, id, item, launchId, ACTIVE);
  }

  /** What a scan may do to one launch's counts: add at most one item, and only
      within the launch's own limits. */
  predicate WithinLimits(before: DB, after: DB, op: Launch) {
    && Total(before.queue, op.id) <= Total(after.queue, op.id) <= Total(before.queue, op.id) + 1
    && (Active(after.queue, op.id) == Active(before.queue, op.id)
        || Active(before.queue, op.id) < Active(after.queue, op.id) <= Parallelism(op.policy))
    && (op.schedule.maxRuns > 0 ==>
          Total(after.queue, op.id) == Total(before.queue, op.id) || Total(after.queue, op.id) <= op.schedule.maxRuns)
  }

  predicate SameCounts(before: DB, after: DB, launchId: string) {
    && Total(after.queue, launchId) == Total(before.queue, launchId)
    && Active(after.queue, launchId) == Active(before.queue, launchId)
  }

  /** Saved launches have ids without white space around them, and a preview resolves the
      launch it is asked for. */
  predicate Saved(op: Launch, w: World) {
    && Trim(op.id) == op.id
    && (Refusal(w.preview(op.id)).None? ==> w.preview(op.id).payload.launchId == op.id)
  }

  predicate AllSaved(ops: seq<Launch>, w: World) {
    forall i :: 0 <= i < |ops| ==> Saved(ops[i], w)
  }

  lemma ScanOneCounts(db: DB, op: Launch, w: World, launchId: string)
    requires Saved(op, w)
    ensures launchId == op.id ==> WithinLimits(db, ScanOne(db, op, w).0, op)
    ensures launchId != op.id ==> SameCounts(db, ScanOne(db, op, w).0, launchId)
  {
    var preview := w.preview(op.id);
    if Refusal(preview).None? && w.queueId(op.id) !in db.queue {
      InsertCounts(db, w.queueId(op.id), NewItem(preview.payload, w.now), launchId);
    }
  }

  lemma {:induction false} ScanLeavesOthers(db: DB, ops: seq<Launch>, w: World, launchId: string)
    requires AllSaved(ops, w) && forall i :: 0 <= i < |ops| ==> ops[i].id != launchId
    ensures SameCounts(db, ScanAll(db, ops, w).0, launchId)
    decreases |ops|
  {
    if ops != [] {
      ScanLeavesOthers(db, ops[..|ops| - 1], w, launchId);
      ScanOneCounts(ScanAll(db, ops[..|ops| - 1], w).0, ops[|ops| - 1], w, launchId);
    }
  }

  /** A scan enqueues each launch at most once, and never past its parallelism or its run limit. */
  lemma {:induction false} ScanWithinLimits(db: DB, ops: seq<Launch>, w: World, k: nat)
    requires AllSaved(ops, w) && k < |ops|
    requires forall i, j :: 0 <= i < j < |ops| ==> ops[i].id != ops[j].id
    ensures WithinLimits(db, ScanAll(db, ops, w).0, ops[k])
    decreases |ops|
  {
    var n := |ops| - 1;
    var mid := ScanAll(db, ops[..n], w).0;
    ScanOneCounts(mid, ops[n], w, ops[k].id);
    if k == n {
      ScanLeavesOthers(db, ops[..n], w, ops[n].id);
    } else {
      ScanWithinLimits(db, ops[..n], w, k);
    }
  }
}
