/** Which launches a schedule scan enqueues, told by their schedules and the stored rows. */
module ScheduleDue {
  import opened Text
  import opened RunQueue
  import opened Scheduler

  predicate OutsideQuietHours(s: Schedule, minute: nat) {
    || s.quietStart.None? || s.quietEnd.None?
    || if s.quietStart.value <= s.quietEnd.value then minute < s.quietStart.value || s.quietEnd.value <= minute
       else s.quietEnd.value <= minute < s.quietStart.value
  }

  /** The schedule is on and has come, has not ended, and leaves this minute free. */
  predicate Due(op: Launch, w: World) {
    && op.schedule.enabled && w.reading(op.id).due && !w.reading(op.id).stopped
    && OutsideQuietHours(op.schedule, w.reading(op.id).minute)
  }

  /** The launch resolves to a run that needs no input and that policy allows. */
  predicate Clear(preview: Preview) {
    preview.Resolved? && preview.missingSetup == [] && preview.decision == "allowed"
  }

  function RowsOf(queue: map<string, Item>, launchId: string): set<string> {
    set id | id in queue && queue[id].payload.launchId == launchId
  }

  function ActiveRowsOf(queue: map<string, Item>, launchId: string): set<string> {
    set id | id in RowsOf(queue, launchId)
      && (queue[id].status.Queued? || queue[id].status.Leased? || queue[id].status.Running?)
  }

  /** The stored rows are known and leave room for one more run, and for one more at a time. */
  predicate Room(queue: map<string, Item>, op: Launch, reading: Reading) {
    && reading.activeKnown
    && |ActiveRowsOf(queue, Trim(op.id))| < (if op.policy.maxParallelism >= 1 then op.policy.maxParallelism else 1)
    && (op.schedule.maxRuns > 0 ==> reading.totalKnown && |RowsOf(queue, Trim(op.id))| < op.schedule.maxRuns)
  }

  lemma CountedRows(queue: map<string, Item>, launchId: string)
    ensures Counted(queue, launchId, {}) == RowsOf(queue, launchId)
    ensures Counted(queue, launchId, ACTIVE) == ActiveRowsOf(queue, launchId)
  {
  }

  /** One turn of the scan enqueues a launch exactly if it is due, there is room, its run is
      clear to start and the drawn id is new; then it adds that one row, and otherwise none. */
  lemma EnqueuedExactly(db: DB, op: Launch, w: World)
    ensures var preview, id := w.preview(op.id), w.queueId(op.id);
      && (ScanOne(db, op, w).1.Enqueued? <==>
            Due(op, w) && Room(db.queue, op, w.reading(op.id)) && Clear(preview) && id !in db.queue)
      && (ScanOne(db, op, w).1.Enqueued? ==>
            var row := NewItem(preview.payload, w.now);
            && ScanOne(db, op, w) == (db.(queue := db.queue[id := row]), Enqueued(id))
            && Waiting(row, preview.payload) && row.enqueuedAt == row.updatedAt == w.now)
      && (!ScanOne(db, op, w).1.Enqueued? ==> ScanOne(db, op, w).0 == db)
  {
    CountedRows(db.queue, Trim(op.id));
  }

  /** A launch that could have been enqueued and was not is reported with a reason. */
  lemma NotEnqueuedHasReason(db: DB, op: Launch, w: World)
    requires op.schedule.enabled && w.reading(op.id).due
    ensures !ScanOne(db, op, w).1.Ignored?
    ensures ScanOne(db, op, w).1.Broken? ==>
      !w.reading(op.id).activeKnown || (op.schedule.maxRuns > 0 && !w.reading(op.id).totalKnown)
    ensures w.reading(op.id).stopped ==> ScanOne(db, op, w).1 == Skipped("schedule window ended")
  {
  }

  /** Some launch among these is due, is clear to start and draws this id. */
  predicate DrawnFor(ops: seq<Launch>, w: World, id: string) {
    exists i :: 0 <= i < |ops| && Due(ops[i], w) && Clear(w.preview(ops[i].id)) && w.queueId(ops[i].id) == id
  }

  lemma DrawnForMore(ops: seq<Launch>, w: World, id: string)
    requires ops != []
    ensures DrawnFor(ops[..|ops| - 1], w, id) ==> DrawnFor(ops, w, id)
    ensures Due(ops[|ops| - 1], w) && Clear(w.preview(ops[|ops| - 1].id)) && w.queueId(ops[|ops| - 1].id) == id ==>
      DrawnFor(ops, w, id)
  {
  }

  /** Whatever a whole scan reports as enqueued, and whatever row it adds, is of a launch that
      is due and clear to start; it touches no other row. */
  lemma {:induction false} OnlyDueEnqueued(db: DB, ops: seq<Launch>, w: World)
    ensures var (after, verdicts) := ScanAll(db, ops, w);
      && (forall id :: id in EnqueuedIds(verdicts) ==> id in after.queue && DrawnFor(ops, w, id))
      && (forall id :: id in after.queue ==> id in db.queue || DrawnFor(ops, w, id))
      && (forall id :: id in db.queue ==> id in after.queue && after.queue[id] == db.queue[id])
    decreases |ops|
  {
    if ops != [] {
      var n := |ops| - 1;
      var (rest, verdicts) := ScanAll(db, ops[..n], w);
      OnlyDueEnqueued(db, ops[..n], w);
      forall id ensures DrawnFor(ops[..n], w, id) ==> DrawnFor(ops, w, id) {
        DrawnForMore(ops, w, id);
      }
      if !Ended(verdicts) {
        EnqueuedExactly(rest, ops[n], w);
        DrawnForMore(ops, w, w.queueId(ops[n].id));
        assert (verdicts + [ScanOne(rest, ops[n], w).1])[..|verdicts|] == verdicts;
      }
    }
  }
}
