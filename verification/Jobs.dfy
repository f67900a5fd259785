/** The durable job queue: one table of rows, and every statement that changes it.
    Each statement is a function on the table; the class JobTable runs the statements in place. */
module Jobs {
  import opened Common

  type JobId = nat
  type WorkerId = nat
  type ProjectId = nat
  type OrgId = nat
  type DeliveryId = nat
  type MemoryId = nat

  datatype Status = Queued | Running | Done | Failed | Cancelled

  /** The job kind together with the part of its payload the queue and the worker look at. */
  datatype Work =
    | Ingest
    | Dream
    | DeliverWebhook(delivery: DeliveryId)
    | DeleteAllMemories
    | BulkMemories
    | PurgeProject(target: ProjectId)
    | ReindexMemory(memory: MemoryId)
    | Backfill
    | UnknownKind

  datatype Job = Job(
    work: Work,
    project: Option<ProjectId>,
    status: Status,
    attempts: nat,
    worker: Option<WorkerId>,
    createdAt: Time,
    runAfter: Time,
    leaseExpiresAt: Time,
    heartbeatAt: Option<Time>)

  type Rows = map<JobId, Job>

  const DEFAULT_LEASE_SECONDS := 300

  /** The configured lease length; `raw` is None when the setting is blank or not a number. */
  function LeaseSeconds(raw: Option<int>): (seconds: int)
    ensures 30 <= seconds <= 86_400
    ensures raw.Some? && 30 <= raw.value <= 86_400 ==> seconds == raw.value
    ensures raw.None? ==> seconds == 300
    ensures raw.Some? && !(30 <= raw.value <= 86_400) ==> seconds == if raw.value < 30 then 30 else 86_400
  {
    if raw.None? then DEFAULT_LEASE_SECONDS else Max(30, Min(86_400, raw.value))
  }

  // ---------------------------------------------------------------- predicates on one row

  predicate Terminal(job: Job) {
    job.status in {Done, Failed, Cancelled}
  }

  /** What the queue still owes: a row that is queued, or running under some worker. */
  predicate Outstanding(job: Job) {
    job.status in {Queued, Running}
  }

  predicate Claimable(job: Job, now: Time) {
    job.status == Queued && job.runAfter <= now
  }

  /** Running under a lease whose deadline has passed: no live worker can prove it holds the row. */
  predicate Stale(job: Job, now: Time) {
    job.status == Running && job.leaseExpiresAt < now
  }

  /** Only a running row carries a lease or a heartbeat. */
  predicate IdleHoldsNoLease(job: Job) {
    job.status != Running ==> job.leaseExpiresAt == 0.0 && job.heartbeatAt.None?
  }

  /** `id` is what claim's query returns: due, queued, and no due queued row was created earlier.
      Rows created at the same instant tie, and the query may return any of them. */
  predicate IsNextClaim(rows: Rows, id: JobId, now: Time) {
    && id in rows
    && Claimable(rows[id], now)
    && forall k | k in rows && Claimable(rows[k], now) :: rows[id].createdAt <= rows[k].createdAt
  }

  // ---------------------------------------------------------------- statements on the table

  function NewJob(work: Work, project: Option<ProjectId>, now: Time, runAfter: Time): Job {
    Job(work, project, Queued, 0, None, now, runAfter, 0.0, None)
  }

  function OrZero(t: Option<Time>): Time {
    if t.None? then 0.0 else t.value
  }

  function Enqueued(rows: Rows, id: JobId, work: Work, project: Option<ProjectId>, now: Time, runAfter: Time): Rows {
    rows[id := NewJob(work, project, now, runAfter)]
  }

  function ClaimedJob(job: Job, worker: WorkerId, deadline: Time, now: Time): Job {
    job.(status := Running, worker := Some(worker), attempts := job.attempts + 1,
    leaseExpiresAt := deadline, heartbeatAt := Some(now))
  }

  function Claimed(rows: Rows, id: JobId, worker: WorkerId, now: Time, ttl: int): Rows
    requires id in rows
  {
    rows[id := ClaimedJob(rows[id], worker, now + ttl as real, now)]
  }

  predicate HeartbeatAccepted(rows: Rows, id: JobId, now: Time) {
    id in rows && rows[id].status == Running && rows[id].leaseExpiresAt >= now
  }

  function Heartbeaten(rows: Rows, id: JobId, now: Time, ttl: int): Rows {
    if HeartbeatAccepted(rows, id, now) then
      rows[id := rows[id].(leaseExpiresAt := MaxTime(rows[id].leaseExpiresAt, now + ttl as real),
        heartbeatAt := Some(now))]
    else
      rows
  }

  function IdleJob(job: Job, status: Status): Job {
    job.(status := status, leaseExpiresAt := 0.0, heartbeatAt := None)
  }

  function ReapedJob(job: Job, now: Time): Job {
    if Stale(job, now) then IdleJob(job, Queued).(worker := None) else job
  }

  function Reaped(rows: Rows, now: Time): Rows {
    map j | j in rows :: ReapedJob(rows[j], now)
  }

  /** complete() and fail(): the row's worker column is left as it was. */
  function Closed(rows: Rows, id: JobId, status: Status): Rows {
    if id in rows then rows[id := IdleJob(rows[id], status)] else rows
  }

  function Requeued(rows: Rows, id: JobId, runAfter: Time): Rows {
    if id in rows then rows[id := IdleJob(rows[id], Queued).(worker := None, runAfter := runAfter)] else rows
  }

  /** update_result(): on a running row the lease is set, not extended, so it can also move back. */
  function Progressed(rows: Rows, id: JobId, now: Time, ttl: int): Rows {
    if id in rows && rows[id].status == Running then
      rows[id := rows[id].(leaseExpiresAt := now + ttl as real, heartbeatAt := Some(now))]
    else
      rows
  }

  predicate Cancellable(rows: Rows, id: JobId, now: Time) {
    id in rows && (rows[id].status == Queued || Stale(rows[id], now))
  }

  function CancelledRows(rows: Rows, id: JobId, now: Time): Rows {
    if Cancellable(rows, id, now) then rows[id := IdleJob(rows[id], Cancelled).(worker := None)] else rows
  }

  // ---------------------------------------------------------------- facts about the statements

  lemma {:induction false} EarliestExists(rows: Rows, ids: set<JobId>)
    requires ids <= rows.Keys && ids != {}
    ensures exists j | j in ids :: forall k | k in ids :: rows[j].createdAt <= rows[k].createdAt
    decreases ids
  {
    var x :| x in ids;
    if ids != {x} {
      EarliestExists(rows, ids - {x});
      var y :| y in ids - {x} && forall k | k in ids - {x} :: rows[y].createdAt <= rows[k].createdAt;
      var best := if rows[x].createdAt <= rows[y].createdAt then x else y;
      assert forall k | k in ids :: rows[best].createdAt <= rows[k].createdAt;
    } else {
      assert forall k | k in ids :: rows[x].createdAt <= rows[k].createdAt;
    }
  }

  /** claim() comes back empty-handed exactly when no queued row is due. */
  lemma NextClaimExists(rows: Rows, now: Time)
    ensures (exists j :: IsNextClaim(rows, j, now)) <==> (exists j | j in rows :: Claimable(rows[j], now))
  {
    var due := set j | j in rows && Claimable(rows[j], now);
    if k :| k in rows && Claimable(rows[k], now) {
      assert k in due;
      EarliestExists(rows, due);
      var j :| j in due && forall k | k in due :: rows[j].createdAt <= rows[k].createdAt;
      assert IsNextClaim(rows, j, now);
    }
  }

  /** The table as its statements change it in place. */
  class JobTable {
    var rows: Rows
    var nextId: JobId

    ghost predicate Valid()
      reads this
    {
      forall j | j in rows :: j < nextId && IdleHoldsNoLease(rows[j])
    }

    constructor ()
      ensures Valid() && rows == map[] && nextId == 0
    {
      rows, nextId := map[], 0;
    }

    method Enqueue(work: Work, project: Option<ProjectId>, runAfter: Option<Time>, now: Time) returns (id: JobId)
      requires Valid()
      modifies this
      ensures Valid()
      ensures id !in old(rows) && id == old(nextId) && nextId == id + 1
      ensures rows == Enqueued(old(rows), id, work, project, now, OrZero(runAfter))
      ensures rows == old(rows)[id := rows[id]]
      ensures rows[id] ==
        Job(work, project, Queued, 0, None, now, if runAfter.None? then 0.0 else runAfter.value, 0.0, None)
    {
      id := nextId;
      rows := rows[id := Job(work, project, Queued, 0, None, now, OrZero(runAfter), 0.0, None)];
      nextId := nextId + 1;
    }

    method Claim(worker: WorkerId, now: Time, ttl: int) returns (claimed: Option<JobId>)
      requires Valid()
      modifies this`rows
      ensures Valid()
      ensures claimed.None? <==> forall j | j in old(rows) :: !Claimable(old(rows)[j], now)
      ensures claimed.None? ==> rows == old(rows)
      ensures claimed.Some? ==>
        IsNextClaim(old(rows), claimed.value, now) &&
        rows == Claimed(old(rows), claimed.value, worker, now, ttl)
      ensures claimed.Some? ==>
        var row := old(rows)[claimed.value];
        && row.status == Queued && row.runAfter <= now
        && (forall k | k in old(rows) && old(rows)[k].status == Queued && old(rows)[k].runAfter <= now ::
             row.createdAt <= old(rows)[k].createdAt)
        && rows == old(rows)[claimed.value := row.(status := Running, worker := Some(worker),
             attempts := row.attempts + 1, leaseExpiresAt := now + ttl as real, heartbeatAt := Some(now))]
    {
      var deadline := now + ttl as real;
      NextClaimExists(rows, now);
      if exists j | j in rows :: Claimable(rows[j], now) {
        var id :| id in rows && IsNextClaim(rows, id, now);
        var row := rows[id];
        rows := rows[id := row.(status := Running, worker := Some(worker), attempts := row.attempts + 1,
                             leaseExpiresAt := deadline, heartbeatAt := Some(now))];
        claimed := Some(id);
      } else {
        claimed := None;
      }
    }

    method Heartbeat(id: JobId, now: Time, ttl: int) returns (accepted: bool)
      requires Valid()
      modifies this`rows
      ensures Valid()
      ensures rows == Heartbeaten(old(rows), id, now, ttl)
      ensures accepted <==> id in old(rows) && old(rows)[id].status == Running && !Stale(old(rows)[id], now)
      ensures accepted ==>
        rows[id].leaseExpiresAt >= old(rows)[id].leaseExpiresAt &&
        rows[id].leaseExpiresAt >= now + ttl as real
      ensures accepted ==>
        rows == old(rows)[id := old(rows)[id].(leaseExpiresAt := rows[id].leaseExpiresAt, heartbeatAt := Some(now))]
      ensures accepted ==> rows[id].leaseExpiresAt in {old(rows)[id].leaseExpiresAt, now + ttl as real}
      ensures !accepted ==> rows == old(rows)
    {
      accepted := id in rows && rows[id].status == Running && rows[id].leaseExpiresAt >= now;
      if accepted {
        var lease := MaxTime(rows[id].leaseExpiresAt, now + ttl as real);
        rows := rows[id := rows[id].(leaseExpiresAt := lease, heartbeatAt := Some(now))];
      }
    }

    method ReapStale(now: Time) returns (reaped: set<JobId>)
      requires Valid()
      modifies this`rows
      ensures Valid()
      ensures rows == Reaped(old(rows), now)
      ensures reaped == set j | j in old(rows) && Stale(old(rows)[j], now)
      ensures forall j | j in rows :: !Stale(rows[j], now)
      ensures forall j | j in rows :: rows[j].attempts == old(rows)[j].attempts
      ensures rows.Keys == old(rows).Keys
      ensures forall j | j in rows :: rows[j] == if j in reaped
        then old(rows)[j].(status := Queued, worker := None, leaseExpiresAt := 0.0, heartbeatAt := None)
        else old(rows)[j]
      ensures forall j :: j in reaped <==>
        j in old(rows) && old(rows)[j].status == Running && old(rows)[j].leaseExpiresAt < now
    {
      reaped := set j | j in rows && Stale(rows[j], now);
      if reaped == {} {
        assert forall j | j in rows :: j !in reaped && ReapedJob(rows[j], now) == rows[j];
        return;
      }
      rows := map j | j in rows ::
        if rows[j].status == Running && rows[j].leaseExpiresAt < now
        then rows[j].(status := Queued, worker := None, leaseExpiresAt := 0.0, heartbeatAt := None)
        else rows[j];
    }

    method Complete(id: JobId)
      requires Valid()
      modifies this`rows
      ensures Valid() && rows == Closed(old(rows), id, Done)
      ensures id !in old(rows) ==> rows == old(rows)
      ensures id in old(rows) ==>
        rows == old(rows)[id := old(rows)[id].(status := Done, leaseExpiresAt := 0.0, heartbeatAt := None)]
    {
      if id in rows {
        rows := rows[id := rows[id].(status := Done)];
        rows := rows[id := rows[id].(leaseExpiresAt := 0.0, heartbeatAt := None)];
      }
    }

    method Fail(id: JobId)
      requires Valid()
      modifies this`rows
      ensures Valid() && rows == Closed(old(rows), id, Failed)
      ensures id !in old(rows) ==> rows == old(rows)
      ensures id in old(rows) ==>
        rows == old(rows)[id := old(rows)[id].(status := Failed, leaseExpiresAt := 0.0, heartbeatAt := None)]
    {
      if id in rows {
        rows := rows[id := rows[id].(status := Failed)];
        rows := rows[id := rows[id].(leaseExpiresAt := 0.0, heartbeatAt := None)];
      }
    }

    method UpdateResult(id: JobId, now: Time, ttl: int)
      requires Valid()
      modifies this`rows
      ensures Valid() && rows == Progressed(old(rows), id, now, ttl)
      ensures id in rows && rows[id].status == Running ==>
        (rows[id].leaseExpiresAt < old(rows)[id].leaseExpiresAt <==> now + ttl as real < old(rows)[id].leaseExpiresAt)
      ensures rows == if id in old(rows) && old(rows)[id].status == Running
        then old(rows)[id := old(rows)[id].(leaseExpiresAt := now + ttl as real, heartbeatAt := Some(now))]
        else old(rows)
    {
      if id in rows && rows[id].status == Running {
        rows := rows[id := rows[id].(heartbeatAt := Some(now), leaseExpiresAt := now + ttl as real)];
      }
    }

    method Requeue(id: JobId, runAfter: Option<Time>)
      requires Valid()
      modifies this`rows
      ensures Valid() && rows == Requeued(old(rows), id, OrZero(runAfter))
      ensures id !in old(rows) ==> rows == old(rows)
      ensures id in old(rows) ==>
        rows == old(rows)[id := old(rows)[id].(status := Queued, worker := None,
          runAfter := if runAfter.None? then 0.0 else runAfter.value, leaseExpiresAt := 0.0, heartbeatAt := None)]
    {
      if id in rows {
        rows := rows[id := rows[id].(status := Queued, worker := None, runAfter := OrZero(runAfter),
                             leaseExpiresAt := 0.0, heartbeatAt := None)];
      }
    }

    method Cancel(id: JobId, now: Time) returns (changed: bool)
      requires Valid()
      modifies this`rows
      ensures Valid() && rows == CancelledRows(old(rows), id, now)
      ensures changed <==> Cancellable(old(rows), id, now)
      ensures id in old(rows) && old(rows)[id].status == Running && old(rows)[id].leaseExpiresAt >= now ==>
        !changed && rows == old(rows)
      ensures changed <==>
        id in old(rows) && (old(rows)[id].status == Queued ||
          (old(rows)[id].status == Running && old(rows)[id].leaseExpiresAt < now))
      ensures changed ==>
        rows == old(rows)[id := old(rows)[id].(status := Cancelled, worker := None, leaseExpiresAt := 0.0,
          heartbeatAt := None)]
      ensures !changed ==> rows == old(rows)
    {
      changed := id in rows && (rows[id].status == Queued ||
        (rows[id].status == Running && rows[id].leaseExpiresAt < now));
      if changed {
        rows := rows[id := rows[id].(status := Cancelled, worker := None, leaseExpiresAt := 0.0, heartbeatAt := None)];
      }
    }
  }
}
