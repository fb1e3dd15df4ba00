/** How many transitions a queued item can make: the phase count of its row and a rank
    that bounds them exactly. */
module QueueBounds {
  import opened RunQueue
  import opened QueueRuns

  function Phase(status: Status): nat {
    match status
    case Leased => 2
    case Running => 1
    case _ => 0
  }

  function PhaseRank(row: Item): nat
    requires RowOk(row)
  {
    3 * (row.maxAttempts - row.attempts) + Phase(row.status)
  }

  /** The phase count never rises, and every transition lowers it except one: cancelling a
      queued row. */
  lemma PhaseRankDrops(a: Item, b: Item)
    requires RowOk(a) && RowOk(b) && Move(a, b)
    ensures PhaseRank(b) <= PhaseRank(a)
    ensures a.status != b.status ==> (PhaseRank(b) < PhaseRank(a) <==> !(a.status.Queued? && b.status.Canceled?))
  {
  }

  /** Terminal rows rank below queued ones, so that cancelling costs a step too. */
  function Rank(row: Item): nat
    requires RowOk(row)
  {
    if row.status.Terminal() then 0 else PhaseRank(row)
  }

  /** Every transition lowers the rank. A step that keeps the status keeps the rank; of an
      owned row it changes the deadline and the update time only. */
  lemma RankDrops(a: Item, b: Item)
    requires RowOk(a) && RowOk(b) && Move(a, b)
    ensures if a.status != b.status then Rank(b) < Rank(a) else Rank(b) == Rank(a)
    ensures a.status == b.status && a.status.Live() ==>
      b == a.(leaseExpiresAt := b.leaseExpiresAt, updatedAt := b.updatedAt)
  {
  }

  /** The transitions, renewals not counted, that row `id` makes along a run. */
  function Transitions(s: Sys, es: seq<Event>, id: string): nat
    decreases |es|
  {
    if es == [] then 0
    else
      var t := Next(s, es[0]);
      (if id in s.db.queue && id in t.db.queue && s.db.queue[id].status != t.db.queue[id].status then 1 else 0)
      + Transitions(t, es[1..], id)
  }

  /** What the phase count leaves to a row, with one step for the cancellation it misses. */
  function PhasesLeft(row: Item): nat
    requires RowOk(row)
  {
    PhaseRank(row) + if row.status.Terminal() then 0 else 1
  }

  lemma LeftDrops(a: Item, b: Item)
    requires RowOk(a) && RowOk(b) && Move(a, b)
    ensures PhasesLeft(b) + (if a.status != b.status then 1 else 0) <= PhasesLeft(a)
  {
    PhaseRankDrops(a, b);
  }

  /** Along every run whose updates come in time, transitions made and steps left add up to
      no more than the steps left at the start, by the phase count and by the rank. */
  lemma {:induction false} TransitionsBounded(s: Sys, es: seq<Event>, id: string)
    requires Inv(s) && RowsOk(s) && Run(s, es) && Prompt(s, es) && id in s.db.queue
    ensures id in After(s, es).db.queue && RowOk(After(s, es).db.queue[id])
    ensures Transitions(s, es, id) + PhasesLeft(After(s, es).db.queue[id]) <= PhasesLeft(s.db.queue[id])
    ensures Transitions(s, es, id) + Rank(After(s, es).db.queue[id]) <= Rank(s.db.queue[id])
    decreases |es|
  {
    if es != [] {
      var t := Next(s, es[0]);
      InvStep(s, es[0]);
      RowsStep(s, es[0]);
      StepMoves(s, es[0], id);
      RankDrops(s.db.queue[id], t.db.queue[id]);
      LeftDrops(s.db.queue[id], t.db.queue[id]);
      TransitionsBounded(t, es[1..], id);
    }
  }

  lemma EnqueuedFresh(s: Sys, e: Event, id: string)
    requires id !in s.db.queue && id in Next(s, e).db.queue
    ensures Next(s, e).db.queue[id].status.Queued? && Next(s, e).db.queue[id].attempts == 0
  {
    var w := StepWrites(s, e);
  }

  /** An item makes at most three transitions for each attempt its policy grants. */
  lemma {:induction false} ThreePerAttempt(s: Sys, es: seq<Event>, id: string)
    requires Inv(s) && RowsOk(s) && Run(s, es) && Prompt(s, es)
    requires id !in s.db.queue && id in After(s, es).db.queue
    ensures Transitions(s, es, id) <= 3 * After(s, es).db.queue[id].maxAttempts
    decreases |es|
  {
    var t := Next(s, es[0]);
    InvStep(s, es[0]);
    RowsStep(s, es[0]);
    if id in t.db.queue {
      EnqueuedFresh(s, es[0], id);
      TransitionsBounded(t, es[1..], id);
      RowsKept(t, es[1..], id);
    } else {
      ThreePerAttempt(t, es[1..], id);
    }
  }

  /** The row makes a transition that its phase count does not show. */
  predicate Unseen(s: Sys, t: Sys, id: string) {
    && id in s.db.queue && id in t.db.queue && RowOk(s.db.queue[id]) && RowOk(t.db.queue[id])
    && s.db.queue[id].status != t.db.queue[id].status && PhaseRank(t.db.queue[id]) == PhaseRank(s.db.queue[id])
  }

  /** Reachable: an item is cancelled while it waits, a transition the phase count does
      not see. */
  lemma CancelKeepsPhaseRank(payload: Payload)
    requires 0 <= payload.policy.retryLimit < MAX_INT64
    ensures exists es, e ::
      Run(Init(), es + [e]) && Prompt(Init(), es + [e]) && Unseen(After(Init(), es), After(Init(), es + [e]), "q")
  {
    var e0, e := Enqueue("q", payload, "t"), Cancel("q", "t");
    MaxAttemptsPositive(payload.policy);
    Extend(Init(), [], e0);
    assert [] + [e0] == [e0];
    Extend(Init(), [e0], e);
    assert After(Init(), [e0]).db.queue == map["q" := NewItem(payload, "t")];
    assert Run(Init(), [e0] + [e]);
  }
}
