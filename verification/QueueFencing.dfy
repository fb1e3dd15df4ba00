/** Lease fencing over every run of the queue, late recovery updates included. */
module QueueFencing {
  import opened Text
  import opened RunQueue
  import opened QueueRuns

  predicate HeldBy(s: Sys, id: string, lease: string) {
    id in s.db.queue && s.db.queue[id].status.Live() && s.db.queue[id].leaseId == lease
  }

  /** Issued, and no worker's any more. */
  predicate Retired(s: Sys, lease: string) {
    lease in s.issued && forall id :: id in s.db.queue ==> !HeldBy(s, id, lease)
  }

  lemma IssuedGrows(s: Sys, e: Event)
    ensures s.issued <= Next(s, e).issued
  {
  }

  lemma {:induction false} RetiredStays(s: Sys, es: seq<Event>, lease: string)
    requires Retired(s, lease) && Run(s, es)
    ensures Retired(After(s, es), lease)
    decreases |es|
  {
    if es != [] {
      var t := Next(s, es[0]);
      IssuedGrows(s, es[0]);
      forall id | id in t.db.queue ensures !HeldBy(t, id, lease) {
        if HeldBy(t, id, lease) {
          LiveOrigin(s, es[0], id);
        }
      }
      RetiredStays(t, es[1..], lease);
    }
  }

  predicate NeverRenewed(es: seq<Event>, lease: string) {
    forall i :: 0 <= i < |es| ==> !(es[i].Renew? && es[i].leaseId == lease)
  }

  lemma DeadlineKept(s: Sys, e: Event, id: string, lease: string)
    requires HeldBy(s, id, lease) && HeldBy(Next(s, e), id, lease) && !(e.Renew? && e.leaseId == lease)
    requires LeasesOk(s) && Admissible(s, e)
    ensures Next(s, e).db.queue[id].leaseExpiresAt == s.db.queue[id].leaseExpiresAt
  {
    var w := StepWrites(s, e);
  }

  /** The lease a worker's event uses: the one it presents, or the one its start was given. */
  function Used(s: Sys, e: Event): Option<string> {
    match e
    case Renew(_, leaseId, _, _) => Some(leaseId)
    case Release(_, leaseId, _, _, _, _) => Some(leaseId)
    case BeginStart(_, _, leaseId, _) => Some(leaseId)
    case StartRunbook(call, _) => UsedByCall(s, call)
    case RunbookFails(call) => UsedByCall(s, call)
    case LinkRun(call) => UsedByCall(s, call)
    case RecordRun(call) => UsedByCall(s, call)
    case MarkRun(call, _) => UsedByCall(s, call)
    case _ => None
  }

  function UsedByCall(s: Sys, call: nat): Option<string> {
    if call in s.starts then Some(s.starts[call].leaseId) else None
  }

  /** A lease that its row loses is no other row's. */
  lemma LosingRetires(s: Sys, e: Event, id: string, lease: string)
    requires LeasesOk(s) && Admissible(s, e) && HeldBy(s, id, lease) && !HeldBy(Next(s, e), id, lease)
    ensures Retired(Next(s, e), lease)
  {
    IssuedGrows(s, e);
    forall other | other in Next(s, e).db.queue ensures !HeldBy(Next(s, e), other, lease) {
      if HeldBy(Next(s, e), other, lease) {
        LiveOrigin(s, e, other);
      }
    }
  }

  /** A start stores its own link or its own snapshot, and nothing else. */
  lemma StartAdds(s: Sys, e: Event)
    requires (e.LinkRun? || e.RecordRun?) && e.call in s.starts
    ensures Next(s, e).db.queue == s.db.queue
    ensures e.LinkRun? ==>
      var start := s.starts[e.call];
      && Next(s, e).db.snapshots == s.db.snapshots
      && s.db.links <= Next(s, e).db.links <= s.db.links + {(start.payload.launchId, start.runId)}
    ensures e.RecordRun? ==>
      var start := s.starts[e.call];
      && Next(s, e).db.links == s.db.links
      && (|| Next(s, e).db.snapshots == s.db.snapshots
          || Next(s, e).db.snapshots == s.db.snapshots[start.runId := SnapshotOf(start.payload)])
  {
  }

  lemma CallsInert(s: Sys, e: Event, lease: string)
    requires Retired(s, lease) && Used(s, e) == Some(lease) && !e.LinkRun? && !e.RecordRun?
    ensures Next(s, e).db == s.db
    ensures e.BeginStart? ==> Next(s, e) == s
  {
    assert forall id :: id in s.db.queue ==> !HeldBy(s, id, lease);
    match e
    case Renew(_, _, _, _) =>
    case Release(_, _, _, _, _, _) =>
    case BeginStart(_, _, _, _) =>
    case StartRunbook(_, _) =>
    case RunbookFails(_) =>
    case MarkRun(_, _) =>
  }

  /** What a worker can still do under a lease that nobody holds: it changes no queue row and
      begins no start. A start already under way may go on to add its own link and its own
      snapshot, and nothing else. */
  lemma RetiredInert(s: Sys, e: Event, lease: string)
    requires Retired(s, lease) && Used(s, e) == Some(lease)
    ensures Next(s, e).db.queue == s.db.queue
    ensures !e.LinkRun? && !e.RecordRun? ==> Next(s, e).db == s.db
    ensures e.BeginStart? ==> Next(s, e) == s
    ensures e.LinkRun? ==>
      var start := s.starts[e.call];
      && Next(s, e).db.snapshots == s.db.snapshots
      && s.db.links <= Next(s, e).db.links <= s.db.links + {(start.payload.launchId, start.runId)}
    ensures e.RecordRun? ==>
      var start := s.starts[e.call];
      && Next(s, e).db.links == s.db.links
      && (|| Next(s, e).db.snapshots == s.db.snapshots
          || Next(s, e).db.snapshots == s.db.snapshots[start.runId := SnapshotOf(start.payload)])
  {
    if e.LinkRun? || e.RecordRun? {
      StartAdds(s, e);
    } else {
      CallsInert(s, e, lease);
    }
  }

  /** Once an item is recovered, released or canceled, nothing a worker does with its old
      lease, at any later time, changes any queue row; and only links and snapshots of starts
      that were under way change any table. */
  lemma Fenced(s: Sys, e: Event, es: seq<Event>, late: Event, id: string, lease: string)
    requires LeasesOk(s) && HeldBy(s, id, lease)
    requires Admissible(s, e) && Run(Next(s, e), es) && !HeldBy(Next(s, e), id, lease)
    requires Used(After(Next(s, e), es), late) == Some(lease)
    ensures Next(After(Next(s, e), es), late).db.queue == After(Next(s, e), es).db.queue
    ensures !late.LinkRun? && !late.RecordRun? ==> Next(After(Next(s, e), es), late).db == After(Next(s, e), es).db
  {
    LosingRetires(s, e, id, lease);
    RetiredStays(Next(s, e), es, lease);
    RetiredInert(After(Next(s, e), es), late, lease);
  }

  /** This step turns a row leased under `lease` into a running one. */
  predicate Marks(s: Sys, e: Event, lease: string) {
    exists id :: id in s.db.queue && id in Next(s, e).db.queue && s.db.queue[id].leaseId == lease
      && s.db.queue[id].status.Leased? && Next(s, e).db.queue[id].status.Running?
  }

  function TimesMarked(s: Sys, es: seq<Event>, lease: string): nat
    decreases |es|
  {
    if es == [] then 0
    else (if Marks(s, es[0], lease) then 1 else 0) + TimesMarked(Next(s, es[0]), es[1..], lease)
  }

  /** Issued, and not waiting to be started. */
  predicate Spent(s: Sys, lease: string) {
    && lease in s.issued
    && forall id :: id in s.db.queue && s.db.queue[id].status.Leased? ==> s.db.queue[id].leaseId != lease
  }

  lemma SpentStep(s: Sys, e: Event, lease: string)
    requires LeasesOk(s) && Admissible(s, e)
    requires Spent(s, lease) || Marks(s, e, lease)
    ensures Spent(Next(s, e), lease)
  {
    var t := Next(s, e);
    IssuedGrows(s, e);
    forall id | id in t.db.queue && t.db.queue[id].status.Leased? ensures t.db.queue[id].leaseId != lease {
      LiveOrigin(s, e, id);
    }
  }

  /** Each granted lease enters running at most once, and a spent one never. */
  lemma {:induction false} MarkedAtMostOnce(s: Sys, es: seq<Event>, lease: string)
    requires LeasesOk(s) && Run(s, es)
    ensures TimesMarked(s, es, lease) <= if Spent(s, lease) then 0 else 1
    decreases |es|
  {
    if es != [] {
      LeasesStep(s, es[0]);
      if Spent(s, lease) || Marks(s, es[0], lease) {
        SpentStep(s, es[0], lease);
      }
      MarkedAtMostOnce(Next(s, es[0]), es[1..], lease);
    }
  }

  // ----- starting the executor -----

  /** The event calls the executor for a start under `lease`, and the executor starts a run. A
      call that fails ends its start. */
  predicate Executes(s: Sys, e: Event, lease: string) {
    e.StartRunbook? && At(s, e.call, ItemRead) && s.starts[e.call].leaseId == lease
  }

  function Executions(s: Sys, es: seq<Event>, lease: string): nat
    decreases |es|
  {
    if es == [] then 0 else (if Executes(s, es[0], lease) then 1 else 0) + Executions(Next(s, es[0]), es[1..], lease)
  }

  predicate OneStart(s: Sys, lease: string) {
    forall c, d :: c in s.starts && d in s.starts && s.starts[c].leaseId == lease && s.starts[d].leaseId == lease ==>
      c == d
  }

  /** The event ends a start under `lease` because its link or its snapshot is taken. */
  predicate Collides(s: Sys, e: Event, lease: string) {
    && (e.LinkRun? || e.RecordRun?) && e.call in s.starts && s.starts[e.call].leaseId == lease
    && e.call !in Next(s, e).starts
  }

  /** Starts under `lease` neither overlap nor end on a taken run id. */
  predicate Orderly(s: Sys, es: seq<Event>, lease: string)
    decreases |es|
  {
    OneStart(s, lease) && (es != [] ==> !Collides(s, es[0], lease) && Orderly(Next(s, es[0]), es[1..], lease))
  }

  /** Starts under `lease` do not overlap. */
  predicate Separate(s: Sys, es: seq<Event>, lease: string)
    decreases |es|
  {
    OneStart(s, lease) && (es != [] ==> Separate(Next(s, es[0]), es[1..], lease))
  }

  /** A start under `lease` has called the executor and is not over. */
  predicate Executing(s: Sys, lease: string) {
    exists call :: call in s.starts && s.starts[call].leaseId == lease && !s.starts[call].stage.ItemRead?
  }

  /** A start's lease was issued, and no other row than the start's has it. */
  predicate StartsHome(s: Sys) {
    forall call :: call in s.starts ==>
      && s.starts[call].leaseId in s.issued
      && forall id :: id in s.db.queue && HeldBy(s, id, s.starts[call].leaseId) ==> id == s.starts[call].id
  }

  lemma StartsHomeStep(s: Sys, e: Event)
    requires LeasesOk(s) && StartsHome(s) && Admissible(s, e)
    ensures StartsHome(Next(s, e))
  {
    var t := Next(s, e);
    IssuedGrows(s, e);
    forall call | call in t.starts
      ensures t.starts[call].leaseId in t.issued
      ensures forall id :: id in t.db.queue && HeldBy(t, id, t.starts[call].leaseId) ==> id == t.starts[call].id
    {
      HomeOrigin(s, e, call);
      forall id | id in t.db.queue && HeldBy(t, id, t.starts[call].leaseId) ensures id == t.starts[call].id {
        LiveOrigin(s, e, id);
      }
    }
  }

  lemma HomeOrigin(s: Sys, e: Event, call: nat)
    requires call in Next(s, e).starts
    ensures var id, lease := Next(s, e).starts[call].id, Next(s, e).starts[call].leaseId;
      || (call in s.starts && s.starts[call].id == id && s.starts[call].leaseId == lease)
      || (e.BeginStart? && HeldBy(s, id, lease) && s.db.queue[id].status.Leased?)
  {
  }

  /** The executor has been called under `lease`, and no start is left that could call it. */
  predicate ExecutorDone(s: Sys, lease: string) {
    || Executing(s, lease)
    || (&& Spent(s, lease)
        && forall call :: call in s.starts && s.starts[call].leaseId == lease ==> !s.starts[call].stage.ItemRead?)
  }

  lemma MarkSucceeds(s: Sys, call: nat, now: string)
    requires At(s, call, Recorded) && Holds(s.db, s.starts[call].id, s.starts[call].leaseId)
    requires s.db.queue[s.starts[call].id].status.Leased?
    ensures Next(s, MarkRun(call, now)).db != s.db
  {
    assert Next(s, MarkRun(call, now)).db.queue[s.starts[call].id].status.Running?;
  }

  /** A mark that fails finds no row leased under its lease. */
  lemma FailedMark(s: Sys, call: nat, now: string)
    requires StartsHome(s) && At(s, call, Recorded)
    requires Next(s, MarkRun(call, now)).db == s.db
    ensures Spent(Next(s, MarkRun(call, now)), s.starts[call].leaseId)
  {
    var start := s.starts[call];
    if Holds(s.db, start.id, start.leaseId) && s.db.queue[start.id].status.Leased? {
      MarkSucceeds(s, call, now);
    }
    assert forall id :: id in s.db.queue && s.db.queue[id].status.Leased? && s.db.queue[id].leaseId == start.leaseId ==>
      HeldBy(s, id, start.leaseId);
  }

  lemma MarkFinishes(s: Sys, call: nat, now: string, lease: string)
    requires LeasesOk(s) && StartsHome(s) && Admissible(s, MarkRun(call, now))
    requires At(s, call, Recorded) && s.starts[call].leaseId == lease
    ensures Spent(Next(s, MarkRun(call, now)), lease)
  {
    var e := MarkRun(call, now);
    if Next(s, e).db == s.db {
      FailedMark(s, call, now);
    } else {
      var id := s.starts[call].id;
      assert s.db.queue[id].leaseId == lease && s.db.queue[id].status.Leased?
        && Next(s, e).db.queue[id].status.Running?;
      assert Marks(s, e, lease);
      SpentStep(s, e, lease);
    }
  }

  lemma ExecutingStep(s: Sys, e: Event, lease: string, call: nat)
    requires LeasesOk(s) && StartsHome(s) && Admissible(s, e) && OneStart(s, lease) && !Collides(s, e, lease)
    requires call in s.starts && s.starts[call].leaseId == lease && !s.starts[call].stage.ItemRead?
    ensures ExecutorDone(Next(s, e), lease)
  {
    var t := Next(s, e);
    if e.MarkRun? && e.call == call && At(s, call, Recorded) {
      MarkFinishes(s, call, e.now, lease);
      assert t.starts == s.starts - {call};
    } else {
      assert call in t.starts && t.starts[call].leaseId == lease && !t.starts[call].stage.ItemRead?;
    }
  }

  lemma DoneStep(s: Sys, e: Event, lease: string)
    requires LeasesOk(s) && StartsHome(s) && Admissible(s, e) && OneStart(s, lease) && !Collides(s, e, lease)
    requires ExecutorDone(s, lease) || Executes(s, e, lease)
    ensures ExecutorDone(Next(s, e), lease)
    ensures ExecutorDone(s, lease) ==> !Executes(s, e, lease)
  {
    var t := Next(s, e);
    if call :| call in s.starts && s.starts[call].leaseId == lease && !s.starts[call].stage.ItemRead? {
      ExecutingStep(s, e, lease, call);
    } else if Executes(s, e, lease) {
      assert t.starts[e.call].leaseId == lease && !t.starts[e.call].stage.ItemRead?;
    } else {
      SpentStep(s, e, lease);
      forall call | call in t.starts && t.starts[call].leaseId == lease ensures !t.starts[call].stage.ItemRead? {
        HomeOrigin(s, e, call);
      }
    }
  }

  /** A granted lease calls the executor at most once, unless two starts under it overlap or
      one ends because its run id is taken and leaves the row leased. */
  lemma {:induction false} ExecutorOnce(s: Sys, es: seq<Event>, lease: string)
    requires LeasesOk(s) && StartsHome(s) && Run(s, es) && Orderly(s, es, lease)
    ensures Executions(s, es, lease) <= if ExecutorDone(s, lease) then 0 else 1
    decreases |es|
  {
    if es != [] {
      LeasesStep(s, es[0]);
      StartsHomeStep(s, es[0]);
      if ExecutorDone(s, lease) || Executes(s, es[0], lease) {
        DoneStep(s, es[0], lease);
      }
      ExecutorOnce(Next(s, es[0]), es[1..], lease);
    }
  }

  // ----- when the executor can be called -----

  /** The start has its lease and its item, and has still to call the executor. */
  predicate MayCall(s: Sys, call: nat, lease: string) {
    At(s, call, ItemRead) && s.starts[call].leaseId == lease
  }

  /** Some start under `lease` has still to call the executor, or some row is leased under it. */
  predicate Callable(s: Sys, lease: string) {
    (exists call :: call in s.starts && MayCall(s, call, lease)) || LeasedUnder(s, lease)
  }

  predicate LeasedUnder(s: Sys, lease: string) {
    exists id :: id in s.db.queue && s.db.queue[id].status.Leased? && s.db.queue[id].leaseId == lease
  }

  /** A step makes an issued lease callable only if it was. */
  lemma CallableBefore(s: Sys, e: Event, lease: string)
    requires Admissible(s, e) && lease in s.issued && Callable(Next(s, e), lease)
    ensures Callable(s, lease)
  {
    var t := Next(s, e);
    if id :| id in t.db.queue && t.db.queue[id].status.Leased? && t.db.queue[id].leaseId == lease {
      LiveOrigin(s, e, id);
    } else {
      var call :| call in t.starts && MayCall(t, call, lease);
      HomeOrigin(s, e, call);
      assert call in s.starts && s.starts[call].leaseId == lease ==> MayCall(s, call, lease);
    }
  }

  lemma {:induction false} CalledWasCallable(s: Sys, es: seq<Event>, lease: string)
    requires lease in s.issued && Run(s, es) && Executions(s, es, lease) > 0
    ensures Callable(s, lease)
    decreases |es|
  {
    if !Executes(s, es[0], lease) {
      IssuedGrows(s, es[0]);
      CalledWasCallable(Next(s, es[0]), es[1..], lease);
      CallableBefore(s, es[0], lease);
    }
  }

  lemma {:induction false} FreshCall(calls: set<nat>) returns (call: nat)
    ensures forall c :: c in calls ==> c < call
  {
    if c :| c in calls {
      var above := FreshCall(calls - {c});
      assert forall k :: k in calls ==> k == c || k in calls - {c};
      call := if above > c then above else c + 1;
    } else {
      call := 0;
    }
  }

  lemma CallNow(s: Sys, call: nat, lease: string)
    requires MayCall(s, call, lease)
    ensures Run(s, [StartRunbook(call, "r")]) && Executions(s, [StartRunbook(call, "r")], lease) == 1
  {
    var t := Next(s, StartRunbook(call, "r"));
    assert [StartRunbook(call, "r")][1..] == [] && Executions(t, [], lease) == 0;
  }

  lemma StartAndCall(s: Sys, id: string, lease: string) returns (es: seq<Event>)
    requires id in s.db.queue && s.db.queue[id].status.Leased? && s.db.queue[id].leaseId == lease
    ensures Run(s, es) && Executions(s, es, lease) > 0
  {
    var call := FreshCall(s.starts.Keys);
    var begin := BeginStart(call, id, lease, false);
    CallNow(Next(s, begin), call, lease);
    es := [begin] + [StartRunbook(call, "r")];
  }

  /** An issued lease can still call the executor exactly while a start under it has not yet
      done so or a row is leased under it. */
  lemma ExecutorCallable(s: Sys, lease: string)
    requires lease in s.issued
    ensures (exists es :: Run(s, es) && Executions(s, es, lease) > 0) <==> Callable(s, lease)
  {
    if es :| Run(s, es) && Executions(s, es, lease) > 0 {
      CalledWasCallable(s, es, lease);
    }
    if call :| call in s.starts && MayCall(s, call, lease) {
      CallNow(s, call, lease);
    } else if id :| id in s.db.queue && s.db.queue[id].status.Leased? && s.db.queue[id].leaseId == lease {
      var es := StartAndCall(s, id, lease);
    }
  }

  /** Once a start under the lease has called the executor, a further call can follow exactly
      if another start under it has read its item, or its row is still leased. */
  lemma SecondCallExactly(s: Sys, e: Event, lease: string)
    requires lease in s.issued && Executes(s, e, lease)
    ensures (exists es :: Run(Next(s, e), es) && Executions(Next(s, e), es, lease) > 0) <==>
      || LeasedUnder(s, lease)
      || exists other :: other in s.starts && other != e.call && MayCall(s, other, lease)
  {
    var t := Next(s, e);
    ExecutorCallable(t, lease);
    assert LeasedUnder(t, lease) <==> LeasedUnder(s, lease);
    if other :| other in s.starts && other != e.call && MayCall(s, other, lease) {
      assert MayCall(t, other, lease);
    }
    if call :| call in t.starts && MayCall(t, call, lease) {
      assert call != e.call && MayCall(s, call, lease);
    }
  }

  // ----- it is called twice -----

  lemma {:induction false} ExecutionsAppend(s: Sys, es: seq<Event>, e: Event, lease: string)
    ensures Executions(s, es + [e], lease)
      == Executions(s, es, lease) + if Executes(After(s, es), e, lease) then 1 else 0
    decreases |es|
  {
    if es == [] {
      assert (es + [e])[1..] == [];
    } else {
      assert (es + [e])[1..] == es[1..] + [e];
      ExecutionsAppend(Next(s, es[0]), es[1..], e, lease);
    }
  }

  /** Reachable: two overlapping starts under one lease both call the executor. */
  lemma ExecutedTwice(payload: Payload)
    requires payload.policy.retryLimit == 0 && payload.target.runtimeTargetId == ""
    ensures exists es :: Run(Init(), es) && Prompt(Init(), es) && Executions(Init(), es, "l") >= 2
  {
    var es, row := ReadyToStart(payload);
    var more := [BeginStart(1, "q", "l", false), StartRunbook(0, "r"), StartRunbook(1, "r2")];
    for i := 0 to 3
      invariant Run(Init(), es) && Prompt(Init(), es) && Executions(Init(), es, "l") >= i - 1
      invariant After(Init(), es).db == DB(map["q" := row], {}, map[])
      invariant i == 0 ==> After(Init(), es).starts == map[0 := Start("q", "l", payload, "", ItemRead)]
      invariant i == 1 ==> At(After(Init(), es), 0, ItemRead) && After(Init(), es).starts[0].leaseId == "l"
      invariant i == 1 || i == 2 ==> At(After(Init(), es), 1, ItemRead) && After(Init(), es).starts[1].leaseId == "l"
    {
      Extend(Init(), es, more[i]);
      ExecutionsAppend(Init(), es, more[i], "l");
      es := es + [more[i]];
    }
  }

  lemma {:induction false} SeparateAppend(s: Sys, es: seq<Event>, e: Event, lease: string)
    requires Separate(s, es, lease) && OneStart(Next(After(s, es), e), lease)
    ensures Separate(s, es + [e], lease)
    decreases |es|
  {
    if es == [] {
      assert (es + [e])[1..] == [];
    } else {
      assert (es + [e])[1..] == es[1..] + [e];
      SeparateAppend(Next(s, es[0]), es[1..], e, lease);
    }
  }

  /** One more event, with what it does to the executions and the overlaps. */
  lemma AppendStart(es: seq<Event>, e: Event, lease: string)
    requires Run(Init(), es) && Prompt(Init(), es) && Separate(Init(), es, lease)
    requires var s := After(Init(), es); Admissible(s, e) && Timely(s, e) && OneStart(Next(s, e), lease)
    ensures Run(Init(), es + [e]) && Prompt(Init(), es + [e]) && Separate(Init(), es + [e], lease)
    ensures After(Init(), es + [e]) == Next(After(Init(), es), e)
    ensures Executions(Init(), es + [e], lease)
      == Executions(Init(), es, lease) + if Executes(After(Init(), es), e, lease) then 1 else 0
  {
    Extend(Init(), es, e);
    ExecutionsAppend(Init(), es, e, lease);
    SeparateAppend(Init(), es, e, lease);
  }

  lemma {:induction false} NoStarts(s: Sys, es: seq<Event>, lease: string)
    requires s.starts == map[] && forall i :: 0 <= i < |es| ==> es[i].Enqueue? || es[i].Lease?
    ensures Separate(s, es, lease)
    decreases |es|
  {
    if es != [] {
      assert forall i :: 0 <= i < |es[1..]| ==> es[1..][i] == es[i + 1];
      NoStarts(Next(s, es[0]), es[1..], lease);
    }
  }

  /** A start has called the executor, and somebody else has linked the same run. */
  lemma LinkWaits(payload: Payload) returns (es: seq<Event>, row: Item)
    requires payload.policy.retryLimit == 0 && payload.target.runtimeTargetId == ""
    ensures Run(Init(), es) && Prompt(Init(), es) && Separate(Init(), es, "l") && Executions(Init(), es, "l") >= 1
    ensures row.status.Leased? && row.leaseId == "l"
    ensures After(Init(), es) == Sys(
      DB(map["q" := row], {(payload.launchId, "r")}, map[]), {"l"},
      map[0 := Start("q", "l", payload, "r", RunbookStarted)], map[])
  {
    es, row := ReadyLeased(payload);
    NoStarts(Init(), es, "l");
    var e := OtherLink(payload.launchId, "r");
    AppendStart(es, e, "l");
    es := es + [e];
    e := BeginStart(0, "q", "l", false);
    AppendStart(es, e, "l");
    es := es + [e];
    e := StartRunbook(0, "r");
    AppendStart(es, e, "l");
    es := es + [e];
  }

  /** Its own link is refused, and it ends. */
  lemma LinkTaken(payload: Payload) returns (es: seq<Event>, row: Item)
    requires payload.policy.retryLimit == 0 && payload.target.runtimeTargetId == ""
    ensures Run(Init(), es) && Prompt(Init(), es) && Separate(Init(), es, "l") && Executions(Init(), es, "l") >= 1
    ensures row.status.Leased? && row.leaseId == "l"
    ensures After(Init(), es) == Sys(DB(map["q" := row], {(payload.launchId, "r")}, map[]), {"l"}, map[], map[])
  {
    es, row := LinkWaits(payload);
    AppendStart(es, LinkRun(0), "l");
    es := es + [LinkRun(0)];
    assert After(Init(), es).starts == map[];
  }

  /** Reachable without any overlap: the first start ends because its run id is taken, the
      row stays leased, and the second start calls the executor again. */
  lemma ExecutedAgain(payload: Payload)
    requires payload.policy.retryLimit == 0 && payload.target.runtimeTargetId == ""
    ensures exists es ::
      Run(Init(), es) && Prompt(Init(), es) && Separate(Init(), es, "l") && Executions(Init(), es, "l") >= 2
  {
    var es, row := LinkTaken(payload);
    var e := BeginStart(1, "q", "l", false);
    AppendStart(es, e, "l");
    es := es + [e];
    AppendStart(es, StartRunbook(1, "r2"), "l");
    es := es + [StartRunbook(1, "r2")];
  }
}
