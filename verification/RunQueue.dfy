/** The launch run queue: its tables, its guarded updates, and the store that
    performs them in place. */
module RunQueue {
  import opened Text

  // ----- tables -----

  datatype Status = Queued | Leased | Running | Completed | Failed | Canceled {
    predicate Terminal() {
      Completed? || Failed? || Canceled?
    }

    /** Owned by a worker. */
    predicate Live() {
      Leased? || Running?
    }
  }

  datatype Target = Target(runtimeTargetId: string, agentProfileId: string)

  /** The two policy fields the queue reads; `rest` is the remaining encoded JSON. */
  datatype Policy = Policy(maxParallelism: int, retryLimit: int, rest: string)

  /** What is to be run. JSON columns are kept encoded. */
  datatype Payload = Payload(
    launchId: string, launchVersion: int, launchHash: string,
    runbookId: string, runbookVersion: string,
    target: Target, policy: Policy, policyDecision: string, secretRefs: string,
    resolvedInput: string, resolution: string, requestInput: string, source: string)

  datatype Item = Item(
    payload: Payload, status: Status, attempts: int, maxAttempts: int,
    leaseId: string, leasedBy: string, leaseExpiresAt: string,
    runId: string, lastError: string,
    enqueuedAt: string, updatedAt: string, startedAt: string, completedAt: string)

  datatype Snapshot = Snapshot(
    launchId: string, launchVersion: int, runbookId: string, runbookVersion: string,
    resolvedInput: string, resolution: string, target: Target, policy: Policy, secretRefs: string)

  datatype DB = DB(queue: map<string, Item>, links: set<(string, string)>, snapshots: map<string, Snapshot>)

  datatype Error = NoRows | Conflict | Rejected(reason: string)

  // ----- retry policy -----

  const MAX_INT64: int := 0x7FFF_FFFF_FFFF_FFFF

  /** Two's complement wrap-around of a 64-bit addition. */
  function Wrap64(n: int): int {
    (n + MAX_INT64 + 1) % (2 * MAX_INT64 + 2) - MAX_INT64 - 1
  }

  function MaxAttemptsForPolicy(policy: Policy): int {
    if policy.retryLimit < 0 then 1 else Wrap64(policy.retryLimit + 1)
  }

  /** Every policy grants at least one attempt, except the one whose limit is the largest integer. */
  lemma MaxAttemptsPositive(policy: Policy)
    requires policy.retryLimit <= MAX_INT64
    ensures MaxAttemptsForPolicy(policy) >= 1 <==> policy.retryLimit < MAX_INT64
    ensures 0 <= policy.retryLimit < MAX_INT64 ==> MaxAttemptsForPolicy(policy) == policy.retryLimit + 1
    ensures policy.retryLimit < 0 ==> MaxAttemptsForPolicy(policy) == 1
  {
    var n := policy.retryLimit + 1;
    if 0 <= policy.retryLimit < MAX_INT64 {
      assert (n + MAX_INT64 + 1) % (2 * MAX_INT64 + 2) == n + MAX_INT64 + 1;
    } else if policy.retryLimit == MAX_INT64 {
      assert n + MAX_INT64 + 1 == 2 * MAX_INT64 + 2;
    }
  }

  // ----- row updates and their guards -----

  function NewItem(payload: Payload, now: string): Item {
    Item(payload, Queued, 0, MaxAttemptsForPolicy(payload.policy), "", "", "", "", "", now, now, "", "")
  }

  function InsertItem(db: DB, id: string, item: Item): Result<DB, Error> {
    if id in db.queue then Err(Conflict) else Ok(db.(queue := db.queue[id := item]))
  }

  predicate Eligible(row: Item, targetId: string) {
    row.status == Queued
    && (row.payload.target.runtimeTargetId == "" || row.payload.target.runtimeTargetId == targetId)
  }

  /** ORDER BY enqueued_at ASC, id. */
  predicate Before(queue: map<string, Item>, a: string, b: string)
    requires a in queue && b in queue
  {
    Less(queue[a].enqueuedAt, queue[b].enqueuedAt)
    || (queue[a].enqueuedAt == queue[b].enqueuedAt && Less(a, b))
  }

  /** The row the leasing query returns. */
  predicate OldestEligible(queue: map<string, Item>, targetId: string, id: string) {
    && id in queue && Eligible(queue[id], targetId)
    && forall other :: other in queue && other != id && Eligible(queue[other], targetId) ==> Before(queue, id, other)
  }

  function LeaseRow(row: Item, targetId: string, leaseId: string, expiresAt: string, now: string): Item {
    row.(status := Leased, attempts := row.attempts + 1, leaseId := leaseId, leasedBy := targetId,
         leaseExpiresAt := expiresAt, updatedAt := now, lastError := "")
  }

  /** Leases row `id`, which must be the row the query selects. */
  function LeaseItem(db: DB, id: string, targetId: string, leaseId: string, expiresAt: string, now: string)
    : Result<DB, Error>
  {
    if targetId == "" then Err(Rejected("target id is required"))
    else if !OldestEligible(db.queue, targetId, id) then Err(NoRows)
    else Ok(db.(queue := db.queue[id := LeaseRow(db.queue[id], targetId, leaseId, expiresAt, now)]))
  }

  /** `WHERE id = ? AND lease_id = ? AND status IN (...)`. */
  predicate Holds(db: DB, id: string, leaseId: string) {
    id in db.queue && db.queue[id].leaseId == leaseId && db.queue[id].status.Live()
  }

  function RenewLease(db: DB, id: string, leaseId: string, expiresAt: string, now: string): Result<DB, Error> {
    if !Holds(db, id, leaseId) then Err(NoRows)
    else Ok(db.(queue := db.queue[id := db.queue[id].(leaseExpiresAt := expiresAt, updatedAt := now)]))
  }

  function MarkRunning(db: DB, id: string, leaseId: string, runId: string, now: string): Result<DB, Error> {
    if !Holds(db, id, leaseId) || !db.queue[id].status.Leased? then Err(NoRows)
    else
      Ok(db.(queue := db.queue[id := db.queue[id].(
        status := Running, runId := runId, startedAt := now, updatedAt := now)]))
  }

  function ReleaseRow(row: Item, status: Status, runId: string, error: string, now: string): Item {
    row.(status := status, runId := if runId == "" then row.runId else runId, lastError := error,
         leaseId := "", leasedBy := "", leaseExpiresAt := "", completedAt := now, updatedAt := now)
  }

  function ReleaseLease(
    db: DB, id: string, leaseId: string, status: Status, runId: string, error: string, now: string): Result<DB, Error>
  {
    if !Holds(db, id, leaseId) then Err(NoRows)
    else Ok(db.(queue := db.queue[id := ReleaseRow(db.queue[id], status, runId, error, now)]))
  }

  function CancelItem(db: DB, id: string, now: string): Result<DB, Error> {
    if id !in db.queue || !(db.queue[id].status.Queued? || db.queue[id].status.Leased?) then Err(NoRows)
    else
      Ok(db.(queue := db.queue[id := db.queue[id].(
        status := Canceled, leaseId := "", leasedBy := "", leaseExpiresAt := "",
        completedAt := now, updatedAt := now)]))
  }

  predicate Expired(row: Item, now: string) {
    row.status.Live() && row.leaseExpiresAt != "" && AtMost(row.leaseExpiresAt, now)
  }

  /** The update recovery applies, with the attempt counters its scan read. */
  function RecoverRow(row: Item, attempts: int, maxAttempts: int, now: string): Item {
    if attempts >= maxAttempts then
      row.(status := Failed, leaseId := "", leasedBy := "", leaseExpiresAt := "",
           lastError := "lease expired", completedAt := now, updatedAt := now)
    else
      row.(status := Queued, leaseId := "", leasedBy := "", leaseExpiresAt := "",
           lastError := "lease expired", completedAt := "", updatedAt := now)
  }

  /** Scan and updates as one step. */
  function RecoverExpired(db: DB, now: string): DB {
    db.(queue := Recovered(db.queue, ExpiredIds(db.queue, now), now))
  }

  function ExpiredIds(queue: map<string, Item>, now: string): set<string> {
    set id | id in queue && Expired(queue[id], now)
  }

  datatype ExpiredLease = ExpiredLease(id: string, attempts: int, maxAttempts: int)

  function Ids(leases: seq<ExpiredLease>): set<string> {
    set e | e in leases :: e.id
  }

  predicate Distinct(leases: seq<ExpiredLease>) {
    forall i, j :: 0 <= i < j < |leases| ==> leases[i].id != leases[j].id
  }

  /** The leases of the rows `ids`, each once, with their counters. */
  predicate IsScanOf(queue: map<string, Item>, ids: set<string>, leases: seq<ExpiredLease>) {
    && Ids(leases) == ids && Distinct(leases)
    && forall e :: e in leases ==>
      e.id in queue && e.attempts == queue[e.id].attempts && e.maxAttempts == queue[e.id].maxAttempts
  }

  /** What the recovery query returns. */
  predicate IsScan(queue: map<string, Item>, now: string, leases: seq<ExpiredLease>) {
    IsScanOf(queue, ExpiredIds(queue, now), leases)
  }

  lemma ScanAppend(queue: map<string, Item>, ids: set<string>, leases: seq<ExpiredLease>, e: ExpiredLease)
    requires IsScanOf(queue, ids, leases) && e.id in queue && e.id !in ids
    requires e.attempts == queue[e.id].attempts && e.maxAttempts == queue[e.id].maxAttempts
    ensures IsScanOf(queue, ids + {e.id}, leases + [e])
  {
    IdsAppend(leases, e);
    assert forall i :: 0 <= i < |leases| ==> leases[i] in leases && leases[i].id in Ids(leases);
  }

  lemma IdsAppend(leases: seq<ExpiredLease>, e: ExpiredLease)
    ensures Ids(leases + [e]) == Ids(leases) + {e.id}
  {
    forall id | id in Ids(leases) + {e.id} ensures id in Ids(leases + [e]) {
      if id == e.id {
        assert e in leases + [e];
      } else {
        var x :| x in leases && x.id == id;
        assert x in leases + [e];
      }
    }
  }

  /** The rows with those of `ids` recovered. */
  function Recovered(queue: map<string, Item>, ids: set<string>, now: string): map<string, Item> {
    map id | id in queue ::
      if id in ids then RecoverRow(queue[id], queue[id].attempts, queue[id].maxAttempts, now) else queue[id]
  }

  /** What a scan collects, by id. */
  function Scanned(queue: map<string, Item>, now: string): map<string, ExpiredLease> {
    map id | id in ExpiredIds(queue, now) :: ExpiredLease(id, queue[id].attempts, queue[id].maxAttempts)
  }

  /** The update of one scanned row: `WHERE id = ?`, whatever has become of the row. */
  function UpdateExpired(db: DB, lease: ExpiredLease, now: string): DB {
    if lease.id !in db.queue then db
    else db.(queue := db.queue[lease.id := RecoverRow(db.queue[lease.id], lease.attempts, lease.maxAttempts, now)])
  }

  lemma RecoveredStep(queue: map<string, Item>, ids: set<string>, id: string, now: string)
    requires id in queue && id !in ids
    ensures Recovered(queue, ids, now)[id] == queue[id]
    ensures Recovered(queue, ids + {id}, now)
      == Recovered(queue, ids, now)[id := RecoverRow(queue[id], queue[id].attempts, queue[id].maxAttempts, now)]
  {
  }

  function InsertLink(db: DB, launchId: string, runId: string): Result<DB, Error> {
    if (launchId, runId) in db.links then Err(Conflict) else Ok(db.(links := db.links + {(launchId, runId)}))
  }

  function InsertSnapshot(db: DB, runId: string, snapshot: Snapshot): Result<DB, Error> {
    if runId in db.snapshots then Err(Conflict) else Ok(db.(snapshots := db.snapshots[runId := snapshot]))
  }

  /** The guards of starting a queued run; `expired` is the clock's answer for its lease. */
  function ReadForStart(db: DB, id: string, leaseId: string, expired: bool): Result<Item, Error> {
    if id !in db.queue then Err(NoRows)
    else
      var row := db.queue[id];
      if !row.status.Leased? then Err(Rejected("not leased"))
      else if row.leaseId != leaseId then Err(Rejected("lease_id does not match queued run"))
      else if expired then Err(Rejected("queued run lease expired"))
      else Ok(row)
  }

  function SnapshotOf(payload: Payload): Snapshot {
    Snapshot(payload.launchId, payload.launchVersion, payload.runbookId, payload.runbookVersion,
             payload.resolvedInput, payload.resolution, payload.target, payload.policy, payload.secretRefs)
  }

  function StatusText(status: Status): string {
    match status
    case Queued => "queued"
    case Leased => "leased"
    case Running => "running"
    case Completed => "completed"
    case Failed => "failed"
    case Canceled => "canceled"
  }

  /** The status a release request asks for: a blank one is completed, any other must name a
      terminal status. */
  function ReleaseStatus(raw: string): (r: Option<Status>)
    ensures r.Some? ==> r.value.Terminal() && Trim(raw) == if Blank(raw) then "" else StatusText(r.value)
    ensures Blank(raw) ==> r == Some(Completed)
    ensures r.None? ==> forall status: Status :: status.Terminal() ==> Trim(raw) != StatusText(status)
  {
    var text := Trim(raw);
    if text == "" || text == "completed" then Some(Completed)
    else if text == "failed" then Some(Failed)
    else if text == "canceled" then Some(Canceled)
    else None
  }

  // ----- selection -----

  lemma BeforeTotal(queue: map<string, Item>, a: string, b: string)
    requires a in queue && b in queue && a != b
    ensures Before(queue, a, b) != Before(queue, b, a)
  {
    LessTotal(queue[a].enqueuedAt, queue[b].enqueuedAt);
    LessTotal(a, b);
  }

  lemma BeforeTransitive(queue: map<string, Item>, a: string, b: string, c: string)
    requires a in queue && b in queue && c in queue
    requires Before(queue, a, b) && Before(queue, b, c)
    ensures Before(queue, a, c)
  {
    var x, y, z := queue[a].enqueuedAt, queue[b].enqueuedAt, queue[c].enqueuedAt;
    if Less(x, y) && Less(y, z) {
      LessTransitive(x, y, z);
    } else if x == y == z {
      LessTransitive(a, b, c);
    }
  }

  /** Some row comes first in any non-empty set of rows. */
  lemma {:induction false} FirstExists(queue: map<string, Item>, ids: set<string>) returns (first: string)
    requires ids != {} && ids <= queue.Keys
    ensures first in ids && forall other :: other in ids && other != first ==> Before(queue, first, other)
  {
    var id :| id in ids;
    if ids == {id} {
      first := id;
    } else {
      var next := FirstExists(queue, ids - {id});
      BeforeTotal(queue, id, next);
      if Before(queue, id, next) {
        first := id;
        forall other | other in ids && other != id && other != next ensures Before(queue, id, other) {
          BeforeTransitive(queue, id, next, other);
        }
      } else {
        first := next;
      }
    }
  }

  /** Leasing finds a row exactly when one is eligible, and it is the only row it could find. */
  lemma OldestEligibleUnique(queue: map<string, Item>, targetId: string)
    ensures (exists id :: OldestEligible(queue, targetId, id)) <==>
      (exists id :: id in queue && Eligible(queue[id], targetId))
    ensures forall a, b :: OldestEligible(queue, targetId, a) && OldestEligible(queue, targetId, b) ==> a == b
  {
    var ids := set id | id in queue && Eligible(queue[id], targetId);
    if id :| id in queue && Eligible(queue[id], targetId) {
      assert id in ids;
      var first := FirstExists(queue, ids);
      assert OldestEligible(queue, targetId, first);
    }
    forall a, b | OldestEligible(queue, targetId, a) && OldestEligible(queue, targetId, b) ensures a == b {
      if a != b {
        BeforeTotal(queue, a, b);
      }
    }
  }

  // ----- counting -----

  /** No statuses means any status. */
  predicate Counts(row: Item, launchId: string, statuses: set<Status>) {
    row.payload.launchId == launchId && (statuses == {} || row.status in statuses)
  }

  /** The rows COUNT(*) counts for one launch. */
  function Counted(queue: map<string, Item>, launchId: string, statuses: set<Status>): set<string> {
    set id | id in queue && Counts(queue[id], launchId, statuses)
  }

  /** The rows seen so far that count. */
  function CountedAmong(queue: map<string, Item>, ids: set<string>, launchId: string, statuses: set<Status>)
    : set<string>
  {
    set id | id in ids && id in queue && Counts(queue[id], launchId, statuses)
  }

  lemma CountOne(queue: map<string, Item>, ids: set<string>, id: string, launchId: string, statuses: set<Status>)
    requires id in queue && id !in ids
    ensures |CountedAmong(queue, ids + {id}, launchId, statuses)|
      == |CountedAmong(queue, ids, launchId, statuses)| + if Counts(queue[id], launchId, statuses) then 1 else 0
  {
    var before := CountedAmong(queue, ids, launchId, statuses);
    var one := if Counts(queue[id], launchId, statuses) then {id} else {};
    assert CountedAmong(queue, ids + {id}, launchId, statuses) == before + one;
  }

  // ----- the store -----

  class Store {
    var queue: map<string, Item>
    var links: set<(string, string)>
    var snapshots: map<string, Snapshot>

    function Db(): DB
      reads this
    {
      DB(queue, links, snapshots)
    }

    constructor ()
      ensures Db() == DB(map[], {}, map[])
    {
      queue, links, snapshots := map[], {}, map[];
    }

    method InsertRunQueueItem(id: string, item: Item) returns (r: Result<(), Error>)
      modifies this
      ensures match InsertItem(old(Db()), id, item)
              case Ok(db) => Db() == db && r.Ok?
              case Err(e) => Db() == old(Db()) && r == Err(e)
    {
      if id in queue {
        return Err(Conflict);
      }
      queue := queue[id := item];
      r := Ok(());
    }

    method GetRunQueueItem(id: string) returns (r: Result<Item, Error>)
      ensures r == if Trim(id) in queue then Ok(queue[Trim(id)]) else Err(NoRows)
    {
      var key := Trim(id);
      r := if key in queue then Ok(queue[key]) else Err(NoRows);
    }

    method CountRunQueueItems(launchId: string, statuses: set<Status>) returns (n: nat)
      ensures n == |Counted(queue, Trim(launchId), statuses)|
    {
      n := 0;
      var key, rows := Trim(launchId), queue;
      var pending := rows.Keys;
      while pending != {}
        invariant pending <= rows.Keys
        invariant n == |CountedAmong(rows, rows.Keys - pending, key, statuses)|
        decreases |pending|
      {
        var id :| id in pending;
        CountOne(rows, rows.Keys - pending, id, key, statuses);
        assert rows.Keys - pending + {id} == rows.Keys - (pending - {id});
        pending := pending - {id};
        if rows[id].payload.launchId == key && (statuses == {} || rows[id].status in statuses) {
          n := n + 1;
        }
      }
      assert rows.Keys - pending == rows.Keys;
      assert CountedAmong(rows, rows.Keys, key, statuses) == Counted(rows, key, statuses);
    }

    method LeaseNextRunQueueItem(target: string, leaseId: string, expiresAt: string, now: string)
      returns (r: Result<Item, Error>, ghost chosen: string)
      modifies this
      ensures match LeaseItem(old(Db()), chosen, Trim(target), leaseId, expiresAt, now)
              case Ok(db) => Db() == db && r == Ok(db.queue[chosen])
              case Err(e) => Db() == old(Db()) && r == Err(e)
      ensures r.Err? ==> Trim(target) == "" || forall id :: id in old(queue) ==> !Eligible(old(queue)[id], Trim(target))
      ensures r.Ok? ==>
        && chosen in old(queue) && old(queue)[chosen].status.Queued?
        && old(queue)[chosen].payload.target.runtimeTargetId in {"", Trim(target)}
        && r.value == old(queue)[chosen].(
             status := Leased, attempts := old(queue)[chosen].attempts + 1, leaseId := leaseId,
             leasedBy := Trim(target), leaseExpiresAt := expiresAt, updatedAt := now, lastError := "")
      ensures r.Ok? ==> forall id ::
        id in old(queue) && id != chosen && old(queue)[id].status.Queued?
        && old(queue)[id].payload.target.runtimeTargetId in {"", Trim(target)} ==>
          || Less(old(queue)[chosen].enqueuedAt, old(queue)[id].enqueuedAt)
          || (old(queue)[chosen].enqueuedAt == old(queue)[id].enqueuedAt && Less(chosen, id))
      ensures r.Err? && Trim(target) != "" ==> forall id :: id in old(queue) && old(queue)[id].status.Queued? ==>
        old(queue)[id].payload.target.runtimeTargetId !in {"", Trim(target)}
    {
      chosen := "";
      var targetId := Trim(target);
      if targetId == "" {
        return Err(Rejected("target id is required")), chosen;
      }
      OldestEligibleUnique(queue, targetId);
      if !exists id :: id in queue && Eligible(queue[id], targetId) {
        return Err(NoRows), chosen;
      }
      var id :| id in queue && OldestEligible(queue, targetId, id);
      chosen := id;
      var row := queue[id];
      queue := queue[id := row.(
        status := Leased, attempts := row.attempts + 1, leaseId := leaseId, leasedBy := targetId,
        leaseExpiresAt := expiresAt, updatedAt := now, lastError := "")];
      r := Ok(queue[id]);
    }

    method RenewRunQueueLease(id: string, leaseId: string, expiresAt: string, now: string)
      returns (r: Result<Item, Error>)
      modifies this
      ensures match RenewLease(old(Db()), Trim(id), Trim(leaseId), expiresAt, now)
              case Ok(db) => Db() == db && r == Ok(db.queue[Trim(id)])
              case Err(e) => Db() == old(Db()) && r == Err(e)
    {
      var key := Trim(id);
      if key !in queue || queue[key].leaseId != Trim(leaseId) || !queue[key].status.Live() {
        return Err(NoRows);
      }
      queue := queue[key := queue[key].(leaseExpiresAt := expiresAt, updatedAt := now)];
      r := Ok(queue[key]);
    }

    method MarkRunQueueItemRunning(id: string, leaseId: string, runId: string, now: string)
      returns (r: Result<Item, Error>)
      modifies this
      ensures match MarkRunning(old(Db()), Trim(id), Trim(leaseId), Trim(runId), now)
              case Ok(db) => Db() == db && r == Ok(db.queue[Trim(id)])
              case Err(e) => Db() == old(Db()) && r == Err(e)
    {
      var key := Trim(id);
      if key !in queue || queue[key].leaseId != Trim(leaseId) || !queue[key].status.Leased? {
        return Err(NoRows);
      }
      queue := queue[key := queue[key].(status := Running, runId := Trim(runId), startedAt := now, updatedAt := now)];
      r := Ok(queue[key]);
    }

    method ReleaseRunQueueLease(id: string, leaseId: string, status: Status, runId: string, error: string, now: string)
      returns (r: Result<Item, Error>)
      modifies this
      ensures match ReleaseLease(old(Db()), Trim(id), Trim(leaseId), status, Trim(runId), Trim(error), now)
              case Ok(db) => Db() == db && r == Ok(db.queue[Trim(id)])
              case Err(e) => Db() == old(Db()) && r == Err(e)
    {
      var key := Trim(id);
      if key !in queue || queue[key].leaseId != Trim(leaseId) || !queue[key].status.Live() {
        return Err(NoRows);
      }
      var row := queue[key];
      if Trim(runId) != "" {
        row := row.(runId := Trim(runId));
      }
      queue := queue[key := row.(
        status := status, lastError := Trim(error), leaseId := "", leasedBy := "", leaseExpiresAt := "",
        completedAt := now, updatedAt := now)];
      r := Ok(queue[key]);
    }

    method CancelRunQueueItem(id: string, now: string) returns (r: Result<Item, Error>)
      modifies this
      ensures match CancelItem(old(Db()), Trim(id), now)
              case Ok(db) => Db() == db && r == Ok(db.queue[Trim(id)])
              case Err(e) => Db() == old(Db()) && r == Err(e)
    {
      var key := Trim(id);
      if key !in queue || !(queue[key].status.Queued? || queue[key].status.Leased?) {
        return Err(NoRows);
      }
      queue := queue[key := queue[key].(
        status := Canceled, leaseId := "", leasedBy := "", leaseExpiresAt := "", completedAt := now, updatedAt := now)];
      r := Ok(queue[key]);
    }

    /** The recovery scan: each expired row once, with the attempt counters it has now. */
    method ScanExpired(now: string) returns (expired: seq<ExpiredLease>)
      ensures IsScan(queue, now, expired)
      ensures |expired| == |ExpiredIds(queue, now)|
    {
      expired := [];
      var rows := queue;
      var all := ExpiredIds(rows, now);
      var pending := all;
      while pending != {}
        invariant pending <= all
        invariant IsScanOf(rows, all - pending, expired)
        invariant |expired| + |pending| == |all|
        decreases |pending|
      {
        var id :| id in pending;
        var lease := ExpiredLease(id, rows[id].attempts, rows[id].maxAttempts);
        ScanAppend(rows, all - pending, expired, lease);
        assert all - pending + {id} == all - (pending - {id});
        pending := pending - {id};
        expired := expired + [lease];
      }
      assert all - pending == all;
    }

    /** Collects the expired rows, then updates each by id alone, as the source does. */
    method RecoverExpiredRunQueueLeases(now: string) returns (recovered: nat)
      modifies this
      ensures Db() == RecoverExpired(old(Db()), now)
      ensures recovered == |ExpiredIds(old(queue), now)|
      ensures queue.Keys == old(queue).Keys
      ensures forall id :: id in old(queue) ==>
        var row := old(queue)[id];
        var expired := (row.status.Leased? || row.status.Running?) && row.leaseExpiresAt != ""
          && !Less(now, row.leaseExpiresAt);
        var final := row.attempts >= row.maxAttempts;
        queue[id] == if !expired then row else row.(
          status := if final then Failed else Queued, leaseId := "", leasedBy := "", leaseExpiresAt := "",
          lastError := "lease expired", completedAt := if final then now else "", updatedAt := now)
    {
      var expired := ScanExpired(now);
      ghost var before := queue;
      for k := 0 to |expired|
        invariant links == old(links) && snapshots == old(snapshots)
        invariant queue == Recovered(before, Ids(expired[..k]), now)
      {
        var lease := expired[k];
        assert lease in expired;
        IdsAppend(expired[..k], lease);
        assert expired[..k + 1] == expired[..k] + [lease];
        RecoveredStep(before, Ids(expired[..k]), lease.id, now);
        RecoverLease(lease, now);
      }
      assert expired[..|expired|] == expired;
      recovered := |expired|;
    }

    /** One update of recovery, by id alone and with the counters the scan read; a row that
        is gone is no error. */
    method RecoverLease(lease: ExpiredLease, now: string)
      modifies this`queue
      ensures Db() == UpdateExpired(old(Db()), lease, now)
    {
      if lease.id !in queue {
        return;
      }
      var status, completedAt := Queued, "";
      if lease.attempts >= lease.maxAttempts {
        status, completedAt := Failed, now;
      }
      queue := queue[lease.id := queue[lease.id].(
        status := status, leaseId := "", leasedBy := "", leaseExpiresAt := "", lastError := "lease expired",
        completedAt := completedAt, updatedAt := now)];
    }

    method InsertRunLink(launchId: string, runId: string) returns (r: Result<(), Error>)
      modifies this
      ensures match InsertLink(old(Db()), launchId, runId)
              case Ok(db) => Db() == db && r.Ok?
              case Err(e) => Db() == old(Db()) && r == Err(e)
    {
      if (launchId, runId) in links {
        return Err(Conflict);
      }
      links := links + {(launchId, runId)};
      r := Ok(());
    }

    method InsertRunSnapshot(runId: string, snapshot: Snapshot) returns (r: Result<(), Error>)
      modifies this
      ensures match InsertSnapshot(old(Db()), runId, snapshot)
              case Ok(db) => Db() == db && r.Ok?
              case Err(e) => Db() == old(Db()) && r == Err(e)
    {
      if runId in snapshots {
        return Err(Conflict);
      }
      snapshots := snapshots[runId := snapshot];
      r := Ok(());
    }
  }
}
