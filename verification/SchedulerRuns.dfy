/** Schedule scans interleaved with the queue and with each other: a scan checks a launch's
    counts in one step and enqueues it in a later one. */
module SchedulerRuns {
  import opened Text
  import opened RunQueue
  import opened Scheduler
  import QueueRuns

  /** The launch table, fixed; `scans` scans may be under way at once, and `checked` is the
      launch each has checked and not yet enqueued. */
  datatype Sys = Sys(queue: QueueRuns.Sys, launches: map<string, Launch>, checked: map<nat, string>, scans: nat)

  /** `Check` reads the counts; `Commit` inserts what it decided, later. */
  datatype Event =
    | Queue(event: QueueRuns.Event)
    | Check(scan: nat, launchId: string)
    | Commit(scan: nat, queueId: string, payload: Payload, now: string)
    | Abandon(scan: nat)

  function Init(launches: map<string, Launch>, scans: nat): Sys {
    Sys(QueueRuns.Init(), launches, map[], scans)
  }

  function Next(s: Sys, e: Event): Sys {
    match e
    case Queue(event) => s.(queue := QueueRuns.Next(s.queue, event))
    case Check(scan, launchId) =>
      if scan < s.scans && scan !in s.checked && launchId in s.launches
         && RunsLeft(s.queue.db.queue, s.launches[launchId]) && SlotFree(s.queue.db.queue, s.launches[launchId])
      then s.(checked := s.checked[scan := launchId]) else s
    case Commit(scan, queueId, payload, now) =>
      if scan in s.checked && s.checked[scan] == payload.launchId
      then s.(queue := QueueRuns.Next(s.queue, QueueRuns.Enqueue(queueId, payload, now)), checked := s.checked - {scan})
      else s
    case Abandon(scan) => s.(checked := s.checked - {scan})
  }

  function After(s: Sys, es: seq<Event>): Sys
    decreases |es|
  {
    if es == [] then s else After(Next(s, es[0]), es[1..])
  }

  /** Only scans enqueue, and sweeps come to their updates in time. */
  predicate Fits(s: Sys, e: Event) {
    e.Queue? ==> !e.event.Enqueue? && QueueRuns.Timely(s.queue, e.event)
  }

  predicate Run(s: Sys, es: seq<Event>)
    decreases |es|
  {
    es == [] || (Fits(s, es[0]) && Run(Next(s, es[0]), es[1..]))
  }

  // ----- the limits -----

  /** The scans that have checked a launch and not yet enqueued it. */
  function InFlight(s: Sys, launchId: string): set<nat> {
    set scan | scan in s.checked && s.checked[scan] == launchId
  }

  /** Runs that count and runs that scans are about to add stay below the limit by one, plus
      one for each scan that may be under way. */
  predicate LaunchBounded(s: Sys, op: Launch) {
    && Active(s.queue.db.queue, op.id) + |InFlight(s, op.id)| <= Parallelism(op.policy) - 1 + s.scans
    && (op.schedule.maxRuns > 0 ==>
          Total(s.queue.db.queue, op.id) + |InFlight(s, op.id)| <= op.schedule.maxRuns - 1 + s.scans)
  }

  predicate LaunchesSaved(s: Sys) {
    forall id :: id in s.launches ==> s.launches[id].id == id && Trim(id) == id
  }

  predicate Bounded(s: Sys) {
    && LaunchesSaved(s)
    && (forall scan :: scan in s.checked ==> scan < s.scans)
    && (forall id :: id in s.launches ==> LaunchBounded(s, s.launches[id]))
  }

  lemma ActiveBefore(s: QueueRuns.Sys, e: QueueRuns.Event, id: string)
    requires id in s.db.queue && QueueRuns.Timely(s, e)
    ensures var a, b := s.db.queue[id], QueueRuns.Next(s, e).db.queue[id];
      b.payload == a.payload && (b.status in ACTIVE ==> a.status in ACTIVE)
  {
    QueueRuns.StepMoves(s, e, id);
  }

  lemma KeysKept(s: QueueRuns.Sys, e: QueueRuns.Event)
    requires !e.Enqueue?
    ensures QueueRuns.Next(s, e).db.queue.Keys == s.db.queue.Keys
  {
    var w := QueueRuns.StepWrites(s, e);
  }

  /** Leasing, starting, recovering, releasing and cancelling never raise a count. */
  lemma QueueLowersCounts(s: QueueRuns.Sys, e: QueueRuns.Event, launchId: string)
    requires !e.Enqueue? && QueueRuns.Timely(s, e)
    ensures Total(QueueRuns.Next(s, e).db.queue, launchId) == Total(s.db.queue, launchId)
    ensures Active(QueueRuns.Next(s, e).db.queue, launchId) <= Active(s.db.queue, launchId)
  {
    var a, b := s.db.queue, QueueRuns.Next(s, e).db.queue;
    KeysKept(s, e);
    forall id | id in a
      ensures b[id].payload == a[id].payload && (b[id].status in ACTIVE ==> a[id].status in ACTIVE)
    {
      ActiveBefore(s, e, id);
    }
    assert Counted(b, launchId, {}) == Counted(a, launchId, {});
    SubsetCount(Counted(b, launchId, ACTIVE), Counted(a, launchId, ACTIVE));
  }

  lemma {:induction false} SubsetCount<T>(a: set<T>, b: set<T>)
    requires a <= b
    ensures |a| <= |b|
  {
    if x :| x in a {
      SubsetCount(a - {x}, b - {x});
    }
  }

  lemma {:induction false} BelowCount(a: set<nat>, n: nat)
    requires forall i :: i in a ==> i < n
    ensures |a| <= n
  {
    if n == 0 {
      assert a == {};
    } else {
      BelowCount(a - {n - 1}, n - 1);
      assert |a| <= |a - {n - 1}| + 1;
    }
  }

  lemma QueueStep(s: Sys, event: QueueRuns.Event, id: string)
    requires Fits(s, Queue(event)) && id in s.launches && LaunchBounded(s, s.launches[id])
    ensures LaunchBounded(Next(s, Queue(event)), s.launches[id])
  {
    QueueLowersCounts(s.queue, event, s.launches[id].id);
    assert InFlight(Next(s, Queue(event)), s.launches[id].id) == InFlight(s, s.launches[id].id);
  }

  lemma CheckStep(s: Sys, scan: nat, launchId: string, id: string)
    requires Bounded(s) && id in s.launches
    ensures LaunchBounded(Next(s, Check(scan, launchId)), s.launches[id])
  {
    var t := Next(s, Check(scan, launchId));
    if t != s && id == launchId {
      BelowCount(InFlight(t, id), s.scans);
    } else if t != s {
      assert InFlight(t, id) == InFlight(s, id);
    }
  }

  lemma CommitFlight(s: Sys, scan: nat, id: string)
    requires scan in s.checked
    ensures var t := s.(checked := s.checked - {scan});
      |InFlight(s, id)| == |InFlight(t, id)| + if s.checked[scan] == id then 1 else 0
  {
    var t := s.(checked := s.checked - {scan});
    var one := if s.checked[scan] == id then {scan} else {};
    assert InFlight(s, id) == InFlight(t, id) + one && InFlight(t, id) !! one;
  }

  lemma CommitCounts(s: QueueRuns.Sys, queueId: string, payload: Payload, now: string, id: string)
    ensures var t := QueueRuns.Next(s, QueueRuns.Enqueue(queueId, payload, now)).db.queue;
      var more := if payload.launchId == id && queueId !in s.db.queue then 1 else 0;
      Total(t, id) == Total(s.db.queue, id) + more && Active(t, id) == Active(s.db.queue, id) + more
  {
    if queueId !in s.db.queue {
      InsertCounts(s.db, queueId, NewItem(payload, now), id);
    }
  }

  lemma CommitStep(s: Sys, scan: nat, queueId: string, payload: Payload, now: string, id: string)
    requires Bounded(s) && id in s.launches
    ensures LaunchBounded(Next(s, Commit(scan, queueId, payload, now)), s.launches[id])
  {
    var t := Next(s, Commit(scan, queueId, payload, now));
    if scan in s.checked && s.checked[scan] == payload.launchId {
      CommitFlight(s, scan, id);
      CommitCounts(s.queue, queueId, payload, now, id);
      assert InFlight(t, id) == InFlight(s.(checked := s.checked - {scan}), id);
    }
  }

  lemma AbandonStep(s: Sys, scan: nat, id: string)
    requires id in s.launches && LaunchBounded(s, s.launches[id])
    ensures LaunchBounded(Next(s, Abandon(scan)), s.launches[id])
  {
    SubsetCount(InFlight(Next(s, Abandon(scan)), s.launches[id].id), InFlight(s, s.launches[id].id));
  }

  lemma BoundedStep(s: Sys, e: Event)
    requires Bounded(s) && Fits(s, e)
    ensures Bounded(Next(s, e))
  {
    forall id | id in s.launches ensures LaunchBounded(Next(s, e), s.launches[id]) {
      match e
      case Queue(event) => QueueStep(s, event, id);
      case Check(scan, launchId) => CheckStep(s, scan, launchId, id);
      case Commit(scan, queueId, payload, now) => CommitStep(s, scan, queueId, payload, now, id);
      case Abandon(scan) => AbandonStep(s, scan, id);
    }
  }

  lemma TableKept(s: Sys, e: Event)
    ensures Next(s, e).launches == s.launches && Next(s, e).scans == s.scans
  {
  }

  lemma {:induction false} BoundedAlways(s: Sys, es: seq<Event>)
    requires Bounded(s) && Run(s, es)
    ensures Bounded(After(s, es)) && After(s, es).launches == s.launches && After(s, es).scans == s.scans
    decreases |es|
  {
    if es != [] {
      BoundedStep(s, es[0]);
      TableKept(s, es[0]);
      BoundedAlways(Next(s, es[0]), es[1..]);
    }
  }

  /** From an empty queue on: with at most `scans` scans under way at once, a launch's active
      runs exceed its parallelism by at most `scans - 1`, and so do its runs a positive run
      limit; one scan at a time keeps both limits. */
  lemma LimitsAlwaysHold(launches: map<string, Launch>, scans: nat, es: seq<Event>, id: string)
    requires LaunchesSaved(Init(launches, scans)) && id in launches && scans > 0
    requires Run(Init(launches, scans), es)
    ensures var queue, op := After(Init(launches, scans), es).queue.db.queue, launches[id];
      && Active(queue, id) <= Parallelism(op.policy) + (scans - 1)
      && (op.schedule.maxRuns > 0 ==> Total(queue, id) <= op.schedule.maxRuns + (scans - 1))
  {
    var s := Init(launches, scans);
    forall k | k in launches ensures LaunchBounded(s, launches[k]) {
      assert Counted(map[], k, {}) == {} && Counted(map[], k, ACTIVE) == {} && InFlight(s, k) == {};
    }
    BoundedAlways(s, es);
  }

  // ----- the bound is reached -----

  /** The n-th queue id. */
  function Name(n: nat): string {
    seq(n + 1, i => 'q')
  }

  lemma NamesDiffer(m: nat, n: nat)
    ensures Name(m) == Name(n) <==> m == n
  {
    assert |Name(m)| == m + 1 && |Name(n)| == n + 1;
  }

  /** Of the one launch's `total` runs `active` are active, and scans 0 to `c` have checked it. */
  ghost predicate Filled(s: Sys, op: Launch, active: nat, total: nat, c: nat) {
    && s.launches == map[op.id := op] && c <= s.scans
    && Active(s.queue.db.queue, op.id) == active && Total(s.queue.db.queue, op.id) == total
    && (forall m: nat :: m >= total ==> Name(m) !in s.queue.db.queue)
    && (forall scan: nat :: scan in s.checked <==> scan < c)
    && (forall scan: nat :: scan in s.checked ==> s.checked[scan] == op.id)
  }

  /** Both limits leave room for one more run. */
  predicate Room(op: Launch, active: nat, total: nat) {
    && Trim(op.id) == op.id && active < Parallelism(op.policy)
    && (op.schedule.maxRuns > 0 ==> total < op.schedule.maxRuns)
  }

  lemma CheckMore(s: Sys, op: Launch, active: nat, total: nat, c: nat)
    requires Filled(s, op, active, total, c) && Room(op, active, total) && c < s.scans
    ensures Filled(Next(s, Check(c, op.id)), op, active, total, c + 1) && Next(s, Check(c, op.id)).scans == s.scans
  {
    assert SlotFree(s.queue.db.queue, op) && RunsLeft(s.queue.db.queue, op);
  }

  lemma CommitMore(s: Sys, op: Launch, payload: Payload, active: nat, total: nat, c: nat)
    requires Filled(s, op, active, total, c + 1) && payload.launchId == op.id
    ensures var t := Next(s, Commit(c, Name(total), payload, "t"));
      && Filled(t, op, active + 1, total + 1, c) && t.scans == s.scans
      && t.queue.db.queue == s.queue.db.queue[Name(total) := NewItem(payload, "t")]
  {
    var t := Next(s, Commit(c, Name(total), payload, "t"));
    InsertCounts(s.queue.db, Name(total), NewItem(payload, "t"), op.id);
    forall m | m >= total + 1 ensures Name(m) !in t.queue.db.queue {
      NamesDiffer(m, total);
    }
  }

  lemma {:induction false} AllCheck(s: Sys, op: Launch, active: nat, total: nat, c: nat) returns (es: seq<Event>)
    requires Filled(s, op, active, total, c) && Room(op, active, total)
    ensures Run(s, es) && Filled(After(s, es), op, active, total, s.scans) && After(s, es).scans == s.scans
    decreases s.scans - c
  {
    if c == s.scans {
      es := [];
    } else {
      CheckMore(s, op, active, total, c);
      var more := AllCheck(Next(s, Check(c, op.id)), op, active, total, c + 1);
      es := [Check(c, op.id)] + more;
    }
  }

  lemma {:induction false} AllCommit(s: Sys, op: Launch, payload: Payload, active: nat, total: nat, c: nat)
    returns (es: seq<Event>)
    requires Filled(s, op, active, total, c) && payload.launchId == op.id
    ensures Run(s, es) && Filled(After(s, es), op, active + c, total + c, 0)
    decreases c
  {
    if c == 0 {
      es := [];
    } else {
      CommitMore(s, op, payload, active, total, c - 1);
      var e := Commit(c - 1, Name(total), payload, "t");
      var more := AllCommit(Next(s, e), op, payload, active + 1, total + 1, c - 1);
      es := [e] + more;
    }
  }

  lemma {:induction false} RunConcat(s: Sys, a: seq<Event>, b: seq<Event>)
    ensures After(s, a + b) == After(After(s, a), b)
    ensures Run(s, a + b) <==> Run(s, a) && Run(After(s, a), b)
    decreases |a|
  {
    if a == [] {
      assert a + b == b;
    } else {
      assert (a + b)[1..] == a[1..] + b;
      RunConcat(Next(s, a[0]), a[1..], b);
    }
  }

  /** All scans check while there is room for one run, and then all of them enqueue. */
  lemma AllAtOnce(s: Sys, op: Launch, payload: Payload, active: nat, total: nat) returns (es: seq<Event>)
    requires Filled(s, op, active, total, 0) && Room(op, active, total) && payload.launchId == op.id
    ensures Run(s, es) && Filled(After(s, es), op, active + s.scans, total + s.scans, 0)
  {
    var a := AllCheck(s, op, active, total, 0);
    var b := AllCommit(After(s, a), op, payload, active, total, s.scans);
    RunConcat(s, a, b);
    es := a + b;
  }

  lemma StartsFilled(op: Launch, scans: nat)
    ensures Filled(Init(map[op.id := op], scans), op, 0, 0, 0)
  {
    assert Counted(map[], op.id, ACTIVE) == {} && Counted(map[], op.id, {}) == {};
  }

  /** One scan after another, up to one below the parallelism. */
  lemma {:induction false} FillUp(s: Sys, op: Launch, payload: Payload, n: nat) returns (es: seq<Event>)
    requires Filled(s, op, n, n, 0) && Room(op, n, n) && payload.launchId == op.id && s.scans > 0
    requires op.schedule.maxRuns > 0 ==> Parallelism(op.policy) <= op.schedule.maxRuns
    ensures var last := Parallelism(op.policy) - 1;
      Run(s, es) && Filled(After(s, es), op, last, last, 0) && After(s, es).scans == s.scans
    decreases Parallelism(op.policy) - n
  {
    if n == Parallelism(op.policy) - 1 {
      es := [];
    } else {
      var check, commit := Check(0, op.id), Commit(0, Name(n), payload, "t");
      CheckMore(s, op, n, n, 0);
      CommitMore(Next(s, check), op, payload, n, n, 0);
      var more := FillUp(Next(Next(s, check), commit), op, payload, n + 1);
      es := [check] + ([commit] + more);
      assert es[1..] == [commit] + more && es[1..][1..] == more;
    }
  }

  /** Some run has `n` of the launch's runs active. */
  ghost predicate ActiveReaches(op: Launch, scans: nat, n: int) {
    exists es :: Run(Init(map[op.id := op], scans), es)
      && Active(After(Init(map[op.id := op], scans), es).queue.db.queue, op.id) == n
  }

  ghost predicate TotalReaches(op: Launch, scans: nat, n: int) {
    exists es :: Run(Init(map[op.id := op], scans), es)
      && Total(After(Init(map[op.id := op], scans), es).queue.db.queue, op.id) == n
  }

  /** Whatever the number of scans, the bound on active runs is reached exactly if no run limit
      is below the parallelism. */
  lemma LimitReached(op: Launch, scans: nat, payload: Payload)
    requires Trim(op.id) == op.id && payload.launchId == op.id && scans > 0
    ensures ActiveReaches(op, scans, Parallelism(op.policy) + (scans - 1)) <==>
      op.schedule.maxRuns <= 0 || Parallelism(op.policy) <= op.schedule.maxRuns
  {
    var s, bound := Init(map[op.id := op], scans), Parallelism(op.policy) + (scans - 1);
    if op.schedule.maxRuns <= 0 || Parallelism(op.policy) <= op.schedule.maxRuns {
      StartsFilled(op, scans);
      var a := FillUp(s, op, payload, 0);
      var b := AllAtOnce(After(s, a), op, payload, Parallelism(op.policy) - 1, Parallelism(op.policy) - 1);
      RunConcat(s, a, b);
      assert Run(s, a + b);
    } else if es :| Run(s, es) && Active(After(s, es).queue.db.queue, op.id) == bound {
      LimitsAlwaysHold(map[op.id := op], scans, es, op.id);
      var queue := After(s, es).queue.db.queue;
      SubsetCount(Counted(queue, op.id, ACTIVE), Counted(queue, op.id, {}));
    }
  }

  lemma CanceledCounts(queue: map<string, Item>, id: string, item: Item, launchId: string)
    requires id !in queue && item.status.Canceled? && item.payload.launchId == launchId
    ensures Total(queue[id := item], launchId) == Total(queue, launchId) + 1
    ensures Active(queue[id := item], launchId) == Active(queue, launchId)
  {
    var q := queue[id := item];
    assert Counted(q, launchId, {}) == Counted(queue, launchId, {}) + {id} && id !in Counted(queue, launchId, {});
    assert Counted(q, launchId, ACTIVE) == Counted(queue, launchId, ACTIVE);
  }

  /** A run is enqueued and canceled. */
  function Round(total: nat, op: Launch, payload: Payload): seq<Event> {
    [Check(0, op.id), Commit(0, Name(total), payload, "t"), Queue(QueueRuns.Cancel(Name(total), "t"))]
  }

  lemma CancelNewest(s: Sys, op: Launch, payload: Payload, queue: map<string, Item>, active: nat, total: nat)
    requires Filled(s, op, active + 1, total + 1, 0) && payload.launchId == op.id && Name(total) !in queue
    requires s.queue.db.queue == queue[Name(total) := NewItem(payload, "t")] && Active(queue, op.id) == active
    ensures var t := Next(s, Queue(QueueRuns.Cancel(Name(total), "t")));
      Filled(t, op, active, total + 1, 0) && t.scans == s.scans
  {
    var t := Next(s, Queue(QueueRuns.Cancel(Name(total), "t")));
    var row := NewItem(payload, "t").(status := Canceled, completedAt := "t");
    InsertCounts(DB(queue, {}, map[]), Name(total), NewItem(payload, "t"), op.id);
    assert t.queue.db.queue == queue[Name(total) := row];
    CanceledCounts(queue, Name(total), row, op.id);
  }

  lemma OneRound(s: Sys, op: Launch, payload: Payload, total: nat)
    requires Filled(s, op, 0, total, 0) && Room(op, 0, total) && payload.launchId == op.id && s.scans > 0
    ensures var t := After(s, Round(total, op, payload));
      Run(s, Round(total, op, payload)) && Filled(t, op, 0, total + 1, 0) && t.scans == s.scans
  {
    var check, commit, cancel :=
      Check(0, op.id), Commit(0, Name(total), payload, "t"), Queue(QueueRuns.Cancel(Name(total), "t"));
    var a := Next(s, check);
    var b := Next(a, commit);
    CheckMore(s, op, 0, total, 0);
    CommitMore(a, op, payload, 0, total, 0);
    CancelNewest(b, op, payload, s.queue.db.queue, 0, total);
    TwoSteps(a, commit, cancel);
    assert Round(total, op, payload)[1..] == [commit, cancel];
  }

  lemma {:induction false} Rounds(s: Sys, op: Launch, payload: Payload, total: nat) returns (es: seq<Event>)
    requires Filled(s, op, 0, total, 0) && Room(op, 0, total) && payload.launchId == op.id && s.scans > 0
    requires op.schedule.maxRuns > 0
    ensures Run(s, es) && Filled(After(s, es), op, 0, op.schedule.maxRuns - 1, 0) && After(s, es).scans == s.scans
    decreases op.schedule.maxRuns - total
  {
    if total == op.schedule.maxRuns - 1 {
      es := [];
    } else {
      var round := Round(total, op, payload);
      OneRound(s, op, payload, total);
      var more := Rounds(After(s, round), op, payload, total + 1);
      RunConcat(s, round, more);
      es := round + more;
    }
  }

  /** Whatever the parallelism and the number of scans, the bound on a launch's runs is reached:
      runs are enqueued and canceled until one is left, and then all scans enqueue. */
  lemma TotalReached(op: Launch, scans: nat, payload: Payload)
    requires Trim(op.id) == op.id && payload.launchId == op.id && scans > 0 && op.schedule.maxRuns > 0
    ensures TotalReaches(op, scans, op.schedule.maxRuns + (scans - 1))
  {
    var s := Init(map[op.id := op], scans);
    StartsFilled(op, scans);
    var a := Rounds(s, op, payload, 0);
    var b := AllAtOnce(After(s, a), op, payload, 0, op.schedule.maxRuns - 1);
    RunConcat(s, a, b);
    assert Run(s, a + b);
  }

  // ----- a scan nothing interleaves with -----

  /** One turn of a scan, as events. */
  function TurnEvents(db: DB, scan: nat, op: Launch, w: World): seq<Event> {
    var reading, preview := w.reading(op.id), w.preview(op.id);
    if !op.schedule.enabled || !reading.due || reading.stopped || InQuietHours(op.schedule, reading.minute)
       || (op.schedule.maxRuns > 0 && !reading.totalKnown) || !RunsLeft(db.queue, op)
       || !reading.activeKnown || !SlotFree(db.queue, op)
    then []
    else if Refusal(preview).Some? then [Check(scan, op.id), Abandon(scan)]
    else [Check(scan, op.id), Commit(scan, w.queueId(op.id), preview.payload, w.now)]
  }

  predicate MayCheck(s: Sys, scan: nat, op: Launch) {
    && op.id in s.launches && s.launches[op.id] == op && scan < s.scans && scan !in s.checked
    && RunsLeft(s.queue.db.queue, op) && SlotFree(s.queue.db.queue, op)
  }

  lemma TurnAbandons(s: Sys, scan: nat, op: Launch)
    requires MayCheck(s, scan, op)
    ensures Next(Next(s, Check(scan, op.id)), Abandon(scan)) == s
  {
    assert s.checked[scan := op.id] - {scan} == s.checked;
  }

  lemma TurnCommits(s: Sys, scan: nat, op: Launch, queueId: string, payload: Payload, now: string)
    requires MayCheck(s, scan, op) && payload.launchId == op.id
    ensures Next(Next(s, Check(scan, op.id)), Commit(scan, queueId, payload, now))
      == s.(queue := QueueRuns.Next(s.queue, QueueRuns.Enqueue(queueId, payload, now)))
  {
    assert s.checked[scan := op.id] - {scan} == s.checked;
  }

  /** A turn of the scan that nothing interleaves with is one of the interleaved system's
      runs. */
  lemma TurnIsARun(s: Sys, scan: nat, op: Launch, w: World)
    requires op.id in s.launches && s.launches[op.id] == op && Saved(op, w) && scan < s.scans && scan !in s.checked
    ensures var es, t := TurnEvents(s.queue.db, scan, op, w), After(s, TurnEvents(s.queue.db, scan, op, w));
      && Run(s, es) && t.queue.db == ScanOne(s.queue.db, op, w).0
      && t.launches == s.launches && t.scans == s.scans && t.checked == s.checked
  {
    var es, preview := TurnEvents(s.queue.db, scan, op, w), w.preview(op.id);
    if es != [] {
      TwoSteps(s, es[0], es[1]);
      assert es == [es[0], es[1]];
      if Refusal(preview).Some? {
        TurnAbandons(s, scan, op);
      } else {
        TurnCommits(s, scan, op, w.queueId(op.id), preview.payload, w.now);
      }
    }
  }

  lemma TwoSteps(s: Sys, e: Event, f: Event)
    ensures After(s, [e, f]) == Next(Next(s, e), f)
    ensures Run(s, [e, f]) <==> Fits(s, e) && Fits(Next(s, e), f)
  {
    assert [e, f][1..] == [f] && [f][1..] == [];
    var t := Next(s, e);
    assert After(t, [f]) == After(Next(t, f), []);
    assert Run(t, [f]) == (Fits(t, f) && Run(Next(t, f), []));
  }

  /** And so is a whole scan. */
  lemma {:induction false} ScanIsARun(s: Sys, scan: nat, ops: seq<Launch>, w: World) returns (es: seq<Event>)
    requires AllSaved(ops, w) && scan < s.scans && scan !in s.checked
    requires forall i :: 0 <= i < |ops| ==> ops[i].id in s.launches && s.launches[ops[i].id] == ops[i]
    ensures Run(s, es) && After(s, es).queue.db == ScanAll(s.queue.db, ops, w).0
    ensures After(s, es).launches == s.launches && After(s, es).scans == s.scans && After(s, es).checked == s.checked
    decreases |ops|
  {
    if ops == [] {
      es := [];
    } else {
      var n := |ops| - 1;
      es := ScanIsARun(s, scan, ops[..n], w);
      if !Ended(ScanAll(s.queue.db, ops[..n], w).1) {
        var t := After(s, es);
        TurnIsARun(t, scan, ops[n], w);
        RunConcat(s, es, TurnEvents(t.queue.db, scan, ops[n], w));
        es := es + TurnEvents(t.queue.db, scan, ops[n], w);
      }
    }
  }
}
