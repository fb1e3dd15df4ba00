/** The audit rows of running items: what a run id finds. */
module QueueAudit {
  import opened Text
  import opened RunQueue
  import opened QueueRuns
  import opened QueueFencing

  /** The executor returns run ids without surrounding white space. */
  predicate PlainRunIds(es: seq<Event>) {
    forall i :: 0 <= i < |es| && es[i].StartRunbook? ==> Trim(es[i].runId) == es[i].runId
  }

  /** Recorded under the row's own run id, where a lookup by that id finds it. */
  predicate FoundByRunId(s: Sys) {
    forall id :: id in s.db.queue && s.db.queue[id].status.Running?
      ==> IsRecorded(s.db, s.db.queue[id].payload, s.db.queue[id].runId)
  }

  predicate PlainStarts(s: Sys) {
    forall call :: call in s.starts && !s.starts[call].stage.ItemRead? ==>
      Trim(s.starts[call].runId) == s.starts[call].runId
  }

  lemma FoundStep(s: Sys, e: Event)
    requires FoundByRunId(s) && PlainStarts(s) && StartsOk(s)
    ensures FoundByRunId(Next(s, e))
  {
    var t := Next(s, e);
    AuditTablesGrow(s, e);
    forall id | id in t.db.queue && t.db.queue[id].status.Running?
      ensures IsRecorded(t.db, t.db.queue[id].payload, t.db.queue[id].runId)
    {
      LiveOrigin(s, e, id);
      if !(s.db.queue[id].status.Running? && t.db.queue[id].runId == s.db.queue[id].runId) {
        assert IsRecorded(s.db, s.db.queue[id].payload, s.starts[e.call].runId);
      }
    }
  }

  lemma PlainStep(s: Sys, e: Event)
    requires PlainStarts(s) && (e.StartRunbook? ==> Trim(e.runId) == e.runId)
    ensures PlainStarts(Next(s, e))
  {
  }

  /** With plain run ids, every running item's run id has a link and a snapshot
      holding exactly the item's payload. */
  lemma {:induction false} RunningIsRecorded(s: Sys, es: seq<Event>)
    requires Inv(s) && FoundByRunId(s) && PlainStarts(s) && Run(s, es) && PlainRunIds(es)
    ensures FoundByRunId(After(s, es)) && PlainStarts(After(s, es))
    decreases |es|
  {
    if es != [] {
      InvStep(s, es[0]);
      FoundStep(s, es[0]);
      PlainStep(s, es[0]);
      assert forall i :: 0 <= i < |es[1..]| ==> es[1..][i] == es[i + 1];
      RunningIsRecorded(Next(s, es[0]), es[1..]);
    }
  }

  /** Exactly when marking leaves the row findable: its start recorded the run under
      the run id without white space, or somebody recorded the same run there. */
  lemma FoundAfterMark(s: Sys, call: nat, now: string)
    requires StartsOk(s) && At(s, call, Recorded)
    requires HeldBy(s, s.starts[call].id, s.starts[call].leaseId) && s.db.queue[s.starts[call].id].status.Leased?
    ensures var t, start := Next(s, MarkRun(call, now)), s.starts[call];
            && t.db.queue[start.id].status.Running?
            && (IsRecorded(t.db, start.payload, t.db.queue[start.id].runId)
                <==> start.runId == Trim(start.runId) || IsRecorded(s.db, start.payload, Trim(start.runId)))
  {
  }

  /** The same start, about to mark the row running under run id `raw`. */
  lemma ReadyToMark(payload: Payload, raw: string) returns (es: seq<Event>, row: Item)
    requires payload.policy.retryLimit == 0 && payload.target.runtimeTargetId == ""
    ensures Run(Init(), es) && Prompt(Init(), es) && row.status.Leased? && row.leaseId == "l" && row.payload == payload
    ensures After(Init(), es).db == DB(map["q" := row], {(payload.launchId, raw)}, map[raw := SnapshotOf(payload)])
    ensures After(Init(), es).starts == map[0 := Start("q", "l", payload, raw, Recorded)]
  {
    es, row := ReadyToStart(payload);
    Extend(Init(), es, StartRunbook(0, raw));
    es := es + [StartRunbook(0, raw)];
    Extend(Init(), es, LinkRun(0));
    es := es + [LinkRun(0)];
    Extend(Init(), es, RecordRun(0));
    es := es + [RecordRun(0)];
  }

  /** Reachable, and not findable: the row stores the trimmed run id, the link and
      the snapshot the untrimmed one. */
  lemma UntrimmedRunIdIsLost(payload: Payload)
    requires payload.policy.retryLimit == 0 && payload.target.runtimeTargetId == ""
    ensures exists es :: Run(Init(), es) && Prompt(Init(), es) && !FoundByRunId(After(Init(), es))
  {
    var es, row := ReadyToMark(payload, " r");
    var s := After(Init(), es);
    Reachable(es);
    FoundAfterMark(s, 0, "t");
    Extend(Init(), es, MarkRun(0, "t"));
    var t := Next(s, MarkRun(0, "t"));
    assert Trim(" r") == "r" by {
      TrimSpaces(" ", "r");
      assert " " + "r" == " r";
    }
    assert "r" !in s.db.snapshots;
    assert !IsRecorded(t.db, payload, t.db.queue["q"].runId);
  }
}
