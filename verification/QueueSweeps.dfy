/** Recovery scans first and then updates row by row, by id alone. What the updates do when
    nothing comes between, and when something does. */
module QueueSweeps {
  import opened Text
  import opened RunQueue
  import opened QueueRuns
  import opened QueueFencing

  // ----- one update -----

  /** A late update is a step a row may make, and leaves it well formed, exactly if it comes
      in time. */
  lemma InTimeExactly(row: Item, lease: ExpiredLease, now: string)
    requires RowOk(row) && now != ""
    ensures var after := RecoverRow(row, lease.attempts, lease.maxAttempts, now);
      Move(row, after) && RowOk(after) <==> InTime(row, lease, now)
  {
    if InTime(row, lease, now) {
      UpdateMoves(row, lease, now);
    }
  }

  /** While its row is still expired, an update recovers that row as atomic recovery would,
      exactly if the row's attempts are used up now if they were at the scan. */
  lemma UpdateRecovers(db: DB, lease: ExpiredLease, now: string)
    requires lease.id in db.queue && Expired(db.queue[lease.id], now)
    requires lease.maxAttempts == db.queue[lease.id].maxAttempts
    ensures UpdateExpired(db, lease, now).queue == Recovered(db.queue, {lease.id}, now)
      <==> (Exhausted(lease) <==> db.queue[lease.id].attempts >= db.queue[lease.id].maxAttempts)
  {
    var q, r := UpdateExpired(db, lease, now).queue, Recovered(db.queue, {lease.id}, now);
    assert q.Keys == r.Keys && forall id :: id in q && id != lease.id ==> q[id] == r[id];
    assert q[lease.id] == r[lease.id] ==> q == r;
  }

  /** Every row makes a step rows may make, and every row is well formed after it. */
  predicate Regular(s: Sys, t: Sys) {
    && (forall id :: id in s.db.queue ==> id in t.db.queue && Move(s.db.queue[id], t.db.queue[id]))
    && RowsOk(t)
  }

  predicate RegularRun(s: Sys, es: seq<Event>)
    decreases |es|
  {
    es == [] || (Regular(s, Next(s, es[0])) && RegularRun(Next(s, es[0]), es[1..]))
  }

  lemma TimelyExactly(s: Sys, e: Event)
    requires Inv(s) && RowsOk(s) && Admissible(s, e)
    ensures Timely(s, e) <==> Regular(s, Next(s, e))
  {
    if Timely(s, e) {
      forall id | id in s.db.queue ensures id in Next(s, e).db.queue && Move(s.db.queue[id], Next(s, e).db.queue[id]) {
        StepMoves(s, e, id);
      }
      RowsStep(s, e);
    } else {
      assert PendingOk(s, e.sweep, e.id);
      InTimeExactly(s.db.queue[e.id], s.sweeps[e.sweep].pending[e.id], s.sweeps[e.sweep].now);
      assert !(Move(s.db.queue[e.id], Next(s, e).db.queue[e.id]) && RowOk(Next(s, e).db.queue[e.id]));
    }
  }

  /** Rows stay well formed and move as rows may along a run exactly if every update comes in
      time. */
  lemma {:induction false} PromptExactly(s: Sys, es: seq<Event>)
    requires Inv(s) && RowsOk(s) && Run(s, es)
    ensures Prompt(s, es) <==> RegularRun(s, es)
    decreases |es|
  {
    if es != [] {
      TimelyExactly(s, es[0]);
      if Timely(s, es[0]) {
        InvStep(s, es[0]);
        PromptExactly(Next(s, es[0]), es[1..]);
      }
    }
  }

  // ----- a sweep nothing interleaves with -----

  function Updates(sweep: nat, ids: seq<string>): seq<Event> {
    seq(|ids|, i requires 0 <= i < |ids| => Update(sweep, ids[i]))
  }

  /** The rows `done` are recovered, and the other expired ones are pending. */
  predicate Underway(s: Sys, queue: map<string, Item>, sweep: nat, now: string, done: set<string>) {
    && sweep in s.sweeps && s.sweeps[sweep].now == now
    && s.db.queue == Recovered(queue, done, now)
    && s.sweeps[sweep].pending == Scanned(queue, now) - done
  }

  lemma UpdateOne(s: Sys, queue: map<string, Item>, sweep: nat, now: string, done: set<string>, id: string)
    requires Underway(s, queue, sweep, now, done) && id in ExpiredIds(queue, now) && id !in done
    ensures Timely(s, Update(sweep, id))
    ensures Underway(Next(s, Update(sweep, id)), queue, sweep, now, done + {id})
    ensures Next(s, Update(sweep, id)).db == s.db.(queue := Recovered(queue, done + {id}, now))
  {
    RecoveredStep(queue, done, id, now);
    assert Pending(s, sweep, id);
    assert Scanned(queue, now) - done - {id} == Scanned(queue, now) - (done + {id});
  }

  function Elements(ids: seq<string>): set<string> {
    set id | id in ids
  }

  predicate EachOnce(ids: seq<string>) {
    forall i, j :: 0 <= i < j < |ids| ==> ids[i] != ids[j]
  }

  lemma FirstAndRest(ids: seq<string>)
    requires ids != [] && EachOnce(ids)
    ensures Elements(ids) == {ids[0]} + Elements(ids[1..]) && ids[0] !in Elements(ids[1..]) && EachOnce(ids[1..])
  {
    assert ids == [ids[0]] + ids[1..];
  }

  lemma {:induction false} UpdatesRecover(
    s: Sys, queue: map<string, Item>, sweep: nat, now: string, done: set<string>, ids: seq<string>)
    requires Underway(s, queue, sweep, now, done)
    requires EachOnce(ids) && Elements(ids) <= ExpiredIds(queue, now) && Elements(ids) !! done
    ensures Run(s, Updates(sweep, ids)) && Prompt(s, Updates(sweep, ids))
    ensures After(s, Updates(sweep, ids)).db == s.db.(queue := Recovered(queue, done + Elements(ids), now))
    decreases |ids|
  {
    if ids == [] {
      assert done + Elements(ids) == done;
    } else {
      var id, more := ids[0], ids[1..];
      FirstAndRest(ids);
      UpdateOne(s, queue, sweep, now, done, id);
      assert Updates(sweep, ids)[0] == Update(sweep, id) && Updates(sweep, ids)[1..] == Updates(sweep, more);
      UpdatesRecover(Next(s, Update(sweep, id)), queue, sweep, now, done + {id}, more);
      assert done + {id} + Elements(more) == done + Elements(ids);
    }
  }

  lemma ScanStarts(s: Sys, sweep: nat, now: string)
    requires sweep !in s.sweeps
    ensures Underway(Next(s, Scan(sweep, now)), s.db.queue, sweep, now, {}) && Next(s, Scan(sweep, now)).db == s.db
  {
    assert Recovered(s.db.queue, {}, now) == s.db.queue;
    assert Scanned(s.db.queue, now) - {} == Scanned(s.db.queue, now);
  }

  /** A sweep that nothing interleaves with is atomic recovery, in whatever order it comes to
      the rows, and its updates come in time. */
  lemma UninterruptedSweep(s: Sys, sweep: nat, now: string, ids: seq<string>)
    requires sweep !in s.sweeps && now != ""
    requires EachOnce(ids) && Elements(ids) == ExpiredIds(s.db.queue, now)
    ensures var es := [Scan(sweep, now)] + Updates(sweep, ids);
      Run(s, es) && Prompt(s, es) && After(s, es).db == RecoverExpired(s.db, now)
  {
    var es := [Scan(sweep, now)] + Updates(sweep, ids);
    assert es[0] == Scan(sweep, now) && es[1..] == Updates(sweep, ids);
    ScanStarts(s, sweep, now);
    UpdatesRecover(Next(s, Scan(sweep, now)), s.db.queue, sweep, now, {}, ids);
    assert {} + Elements(ids) == ExpiredIds(s.db.queue, now);
  }

  // ----- when something comes between -----

  lemma Printed()
    ensures AtMost("x", "z") && !AtMost("zz", "z")
  {
    assert !Less("z", "x") && "zz"[1..] == "z" && "z"[1..] == "";
    assert Less("z", "zz");
  }

  /** A row leased for the first time, which a sweep has found expired. */
  lemma ReadyToUpdate(payload: Payload) returns (es: seq<Event>, row: Item)
    requires payload.policy.retryLimit == 1 && payload.target.runtimeTargetId == ""
    ensures Run(Init(), es) && Prompt(Init(), es)
    ensures row == LeaseRow(NewItem(payload, "t"), "w", "l", "x", "t") && row.maxAttempts == 2
    ensures After(Init(), es)
      == Sys(DB(map["q" := row], {}, map[]), {"l"}, map[], map[0 := Sweep("z", map["q" := ExpiredLease("q", 1, 2)])])
  {
    es, row := ReadyLeased(payload);
    Printed();
    assert Scanned(map["q" := row], "z") == map["q" := ExpiredLease("q", 1, 2)];
    Extend(Init(), es, Scan(0, "z"));
    es := es + [Scan(0, "z")];
  }

  /** Reachable: a run completes between the scan and its update, and is queued again. */
  lemma CompletedReopened(payload: Payload)
    requires payload.policy.retryLimit == 1 && payload.target.runtimeTargetId == ""
    ensures exists es, e ::
      Run(Init(), es + [e]) && Prompt(Init(), es) && Reopens(After(Init(), es), After(Init(), es + [e]), "q")
  {
    var es, row := ReadyToUpdate(payload);
    var done := Release("q", "l", "", "r", "", "u");
    TrimFixed("");
    Extend(Init(), es, done);
    es := es + [done];
    assert After(Init(), es).db.queue["q"].status.Completed?;
    Extend(Init(), es, Update(0, "q"));
    assert Run(Init(), es + [Update(0, "q")]);
  }

  predicate Reopens(s: Sys, t: Sys, id: string) {
    id in s.db.queue && id in t.db.queue && s.db.queue[id].status.Completed? && t.db.queue[id].status.Queued?
  }

  /** The row has been recovered by a second sweep and leased again, for the last time. */
  lemma ReadyForLate(payload: Payload) returns (es: seq<Event>, row: Item)
    requires payload.policy.retryLimit == 1 && payload.target.runtimeTargetId == ""
    ensures Run(Init(), es) && Prompt(Init(), es) && RowOk(row)
    ensures row.payload == payload && row.status.Leased? && row.attempts == 2 && row.maxAttempts == 2
    ensures var s := After(Init(), es);
      && s.db.queue == map["q" := row] && s.issued == {"l", "l2"}
      && 0 in s.sweeps && s.sweeps[0] == Sweep("z", map["q" := ExpiredLease("q", 1, 2)])
  {
    es, row := ReadyToUpdate(payload);
    Printed();
    assert Scanned(map["q" := row], "z") == map["q" := ExpiredLease("q", 1, 2)];
    Extend(Init(), es, Scan(1, "z"));
    es := es + [Scan(1, "z")];
    Extend(Init(), es, Update(1, "q"));
    es := es + [Update(1, "q")];
    var waiting := RecoverRow(row, 1, 2, "z");
    assert After(Init(), es).db.queue == map["q" := waiting];
    assert OldestEligible(map["q" := waiting], "w", "q");
    Extend(Init(), es, Lease("q", "w", "l2", "zz", "t"));
    es := es + [Lease("q", "w", "l2", "zz", "t")];
    row := LeaseRow(waiting, "w", "l2", "zz", "t");
    assert After(Init(), es).db.queue == map["q" := row];
  }

  predicate QueuedSpent(s: Sys, id: string) {
    id in s.db.queue && s.db.queue[id].status.Queued? && s.db.queue[id].attempts == s.db.queue[id].maxAttempts
  }

  predicate PastBound(s: Sys, id: string) {
    id in s.db.queue && s.db.queue[id].attempts > s.db.queue[id].maxAttempts
  }

  /** Reachable: the first sweep's update comes after the second lease. It queues a row that
      has no attempt left, which is then leased past its bound. */
  lemma AttemptsPassBound(payload: Payload)
    requires payload.policy.retryLimit == 1 && payload.target.runtimeTargetId == ""
    ensures exists es, more ::
      Run(Init(), es + more) && QueuedSpent(After(Init(), es), "q") && PastBound(After(Init(), es + more), "q")
  {
    var es, row := ReadyForLate(payload);
    Extend(Init(), es, Update(0, "q"));
    es := es + [Update(0, "q")];
    var waiting := RecoverRow(row, 1, 2, "z");
    assert After(Init(), es).db.queue == map["q" := waiting];
    assert OldestEligible(map["q" := waiting], "w", "q");
    var e := Lease("q", "w", "l3", "zz", "t");
    Extend(Init(), es, e);
    assert QueuedSpent(After(Init(), es), "q") && PastBound(After(Init(), es + [e]), "q");
  }

  /** The update of sweep `sweep` takes a lease whose deadline the sweep has not reached. */
  predicate StripsRenewed(s: Sys, t: Sys, sweep: nat, id: string, lease: string) {
    sweep in s.sweeps && HeldBy(s, id, lease) && !Expired(s.db.queue[id], s.sweeps[sweep].now) && !HeldBy(t, id, lease)
  }

  /** It does so exactly if the row's deadline is not behind the sweep. */
  lemma StripsExactly(s: Sys, sweep: nat, id: string, lease: string)
    requires Pending(s, sweep, id) && HeldBy(s, id, lease)
    ensures StripsRenewed(s, Next(s, Update(sweep, id)), sweep, id, lease)
      <==> !Expired(s.db.queue[id], s.sweeps[sweep].now)
  {
  }

  /** A scan's time stays, and its pending updates only get fewer. */
  lemma {:induction false} SweepKept(s: Sys, es: seq<Event>, sweep: nat)
    requires sweep in s.sweeps
    ensures var t := After(s, es);
      sweep in t.sweeps && t.sweeps[sweep].now == s.sweeps[sweep].now
      && t.sweeps[sweep].pending.Keys <= s.sweeps[sweep].pending.Keys
    decreases |es|
  {
    if es != [] {
      SweepKept(Next(s, es[0]), es[1..], sweep);
    }
  }

  /** A lease that was issued, if its row has it at all, stays expired until it is renewed. */
  lemma {:induction false} ExpiredUnlessRenewed(s: Sys, es: seq<Event>, id: string, lease: string, now: string)
    requires LeasesOk(s) && Run(s, es) && lease in s.issued && NeverRenewed(es, lease)
    requires HeldBy(s, id, lease) ==> Expired(s.db.queue[id], now)
    ensures HeldBy(After(s, es), id, lease) ==> Expired(After(s, es).db.queue[id], now)
    decreases |es|
  {
    if es != [] {
      var t := Next(s, es[0]);
      LeasesStep(s, es[0]);
      IssuedGrows(s, es[0]);
      assert forall i :: 0 <= i < |es[1..]| ==> es[1..][i] == es[i + 1];
      if HeldBy(t, id, lease) {
        LiveOrigin(s, es[0], id);
        DeadlineKept(s, es[0], id, lease);
      }
      ExpiredUnlessRenewed(t, es[1..], id, lease, now);
    }
  }

  /** Whatever comes between a scan and its update: the update takes a lease whose deadline the
      scan has not reached exactly if the row's deadline is not behind the scan's time, and
      that is so only if the lease was granted or renewed since the scan. */
  lemma StrippedSinceScan(s: Sys, sweep: nat, now: string, es: seq<Event>, id: string, lease: string)
    requires LeasesOk(s) && sweep !in s.sweeps && Run(s, [Scan(sweep, now)] + es)
    requires var t := After(s, [Scan(sweep, now)] + es); Pending(t, sweep, id) && HeldBy(t, id, lease)
    ensures var t := After(s, [Scan(sweep, now)] + es);
      && (StripsRenewed(t, Next(t, Update(sweep, id)), sweep, id, lease) <==> !Expired(t.db.queue[id], now))
      && (!Expired(t.db.queue[id], now) ==> lease !in s.issued || !NeverRenewed(es, lease))
  {
    var all, scanned := [Scan(sweep, now)] + es, Next(s, Scan(sweep, now));
    var t := After(s, all);
    assert all[0] == Scan(sweep, now) && all[1..] == es;
    SweepKept(scanned, es, sweep);
    StripsExactly(t, sweep, id, lease);
    assert id in scanned.sweeps[sweep].pending && Expired(scanned.db.queue[id], now);
    if lease in s.issued && NeverRenewed(es, lease) {
      assert HeldBy(scanned, id, lease) ==> Expired(scanned.db.queue[id], now);
      ExpiredUnlessRenewed(scanned, es, id, lease, now);
    }
  }

  /** Reachable with every update in time: a lease renewed between the scan and its update is
      lost all the same. */
  lemma RenewedLeaseStripped(payload: Payload)
    requires payload.policy.retryLimit == 1 && payload.target.runtimeTargetId == ""
    ensures exists es, e ::
      && Run(Init(), es + [e]) && Prompt(Init(), es + [e])
      && StripsRenewed(After(Init(), es), After(Init(), es + [e]), 0, "q", "l")
  {
    var es, row := ReadyToUpdate(payload);
    Printed();
    var renew := Renew("q", "l", "zz", "u");
    Extend(Init(), es, renew);
    es := es + [renew];
    Extend(Init(), es, Update(0, "q"));
    assert StripsRenewed(After(Init(), es), After(Init(), es + [Update(0, "q")]), 0, "q", "l");
  }
}
