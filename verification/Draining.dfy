/** Left alone, workers empty the queue: although ingest, dream, bulk and delete jobs spawn any number of
    further jobs and deliveries retry, every run of run_once is finite. The measure is lexicographic: the runs
    that jobs of rank 0, 1 and 2 can still cost, the attempts that deliveries have left, and the runs that
    jobs of rank 3 can still cost. */
module Draining {
  import opened Common
  import opened Jobs
  import opened Webhooks
  import opened Worker
  import Leases

  // ---------------------------------------------------------------- the measure

  /** Runs the row can still cost: an exception requeues it only below MAX_ATTEMPTS. */
  function Budget(job: Job): (b: nat)
    ensures 1 <= b <= Leases.MAX_ATTEMPTS
  {
    if job.attempts < Leases.MAX_ATTEMPTS then Leases.MAX_ATTEMPTS - job.attempts else 1
  }

  function Weight(rows: Rows, k: JobId, rank: nat): nat {
    if k in rows && rows[k].status == Queued && Rank(rows[k].work) == rank then Budget(rows[k]) else 0
  }

  function Load(rows: Rows, rank: nat, n: nat): nat {
    if n == 0 then 0 else Load(rows, rank, n - 1) + Weight(rows, n - 1, rank)
  }

  function Loads(db: Db, rank: nat): nat {
    Load(db.jobs, rank, db.nextJob)
  }

  /** Attempts the delivery has left before it is dead. */
  function AttemptsLeft(deliveries: map<DeliveryId, Delivery>, d: DeliveryId, maxAttempts: nat): nat {
    if d in deliveries && deliveries[d].attempts < maxAttempts then maxAttempts - deliveries[d].attempts else 0
  }

  function LeftUpTo(deliveries: map<DeliveryId, Delivery>, maxAttempts: nat, n: nat): nat {
    if n == 0 then 0
    else LeftUpTo(deliveries, maxAttempts, n - 1) + AttemptsLeft(deliveries, n - 1, maxAttempts)
  }

  function AllLeft(db: Db, maxAttempts: nat): nat {
    LeftUpTo(db.deliveries, maxAttempts, db.nextDelivery)
  }

  lemma {:induction false} LoadDrops(rows: Rows, next: Rows, rank: nat, n: nat, j: JobId)
    requires forall k | 0 <= k < n && k != j :: Weight(next, k, rank) <= Weight(rows, k, rank)
    requires Weight(next, j, rank) <= Weight(rows, j, rank)
    ensures Load(next, rank, n) <= Load(rows, rank, n)
    ensures j < n && Weight(next, j, rank) < Weight(rows, j, rank) ==> Load(next, rank, n) < Load(rows, rank, n)
  {
    if n > 0 {
      LoadDrops(rows, next, rank, n - 1, j);
    }
  }

  lemma {:induction false} NoNewLoad(rows: Rows, rank: nat, n: nat, m: nat)
    requires n <= m
    requires forall k | n <= k < m :: Weight(rows, k, rank) == 0
    ensures Load(rows, rank, m) == Load(rows, rank, n)
    decreases m
  {
    if n < m {
      NoNewLoad(rows, rank, n, m - 1);
    }
  }

  lemma {:induction false} LeftDrops(a: map<DeliveryId, Delivery>, b: map<DeliveryId, Delivery>, maxAttempts: nat,
      n: nat, d: DeliveryId)
    requires forall e | 0 <= e < n :: AttemptsLeft(b, e, maxAttempts) <= AttemptsLeft(a, e, maxAttempts)
    ensures LeftUpTo(b, maxAttempts, n) <= LeftUpTo(a, maxAttempts, n)
    ensures d < n && AttemptsLeft(b, d, maxAttempts) < AttemptsLeft(a, d, maxAttempts) ==>
      LeftUpTo(b, maxAttempts, n) < LeftUpTo(a, maxAttempts, n)
  {
    if n > 0 {
      LeftDrops(a, b, maxAttempts, n - 1, d);
    }
  }

  // ---------------------------------------------------------------- one run_once

  ghost predicate StepBy(db: Db, r: Db, j: JobId, worker: WorkerId, ttl: int, fx: Effects, maxAttempts: nat, now: Time)
  {
    IsNextClaim(db.jobs, j, now) && r == RanOnce(db, j, worker, ttl, fx, maxAttempts, now)
  }

  ghost predicate Step(db: Db, r: Db, maxAttempts: nat, now: Time) {
    exists j, worker, ttl, fx :: StepBy(db, r, j, worker, ttl, fx, maxAttempts, now)
  }

  /** Lighter at the rank of the job that ran, and no heavier below. At rank 3 either a delivery has spent an
      attempt that it had left, or none has got one and the jobs weigh less. */
  ghost predicate Lighter(db: Db, r: Db, rank: nat, maxAttempts: nat) {
    && (forall lower: nat | lower < rank :: Loads(r, lower) <= Loads(db, lower))
    && if rank < 3 then Loads(r, rank) < Loads(db, rank)
       else AllLeft(r, maxAttempts) < AllLeft(db, maxAttempts)
            || (AllLeft(r, maxAttempts) <= AllLeft(db, maxAttempts) && Loads(r, rank) < Loads(db, rank))
  }

  /** What every run_once on job j leaves of the jobs: j over, out of its worker's hands, or with one try less;
      the other rows as they were, but for when they run, or gone; new rows of higher rank. The one exception
      are retries of deliveries, and then one of them has spent an attempt. */
  ghost predicate Spent(db: Db, r: Db, j: JobId, maxAttempts: nat) {
    && j in db.jobs && db.jobs[j].status == Queued && db.nextJob <= r.nextJob
    && (forall k | k in r.jobs && k < db.nextJob && k != j :: k in db.jobs && SameButDue(r.jobs[k], db.jobs[k]))
    && (j in r.jobs ==> r.jobs[j].work == db.jobs[j].work)
    && (j in r.jobs && r.jobs[j].status == Queued ==>
          r.jobs[j].attempts == db.jobs[j].attempts + 1 < Leases.MAX_ATTEMPTS)
    && (forall k | k in r.jobs && db.nextJob <= k ::
          Rank(r.jobs[k].work) > Rank(db.jobs[j].work) || OneAttemptSpent(db, r, j, k, maxAttempts))
    && (Rank(db.jobs[j].work) == 3 ==> NoneGained(db, r, maxAttempts))
  }

  predicate SameButDue(a: Job, b: Job) {
    a.work == b.work && a.status == b.status && a.attempts == b.attempts
  }

  ghost predicate OneAttemptSpent(db: Db, r: Db, j: JobId, k: JobId, maxAttempts: nat)
    requires j in db.jobs && k in r.jobs
  {
    && Rank(db.jobs[j].work) == Rank(r.jobs[k].work) == 3
    && exists d: DeliveryId :: AttemptSpent(db, r, d, maxAttempts)
  }

  predicate AttemptSpent(db: Db, r: Db, d: DeliveryId, maxAttempts: nat) {
    && d < db.nextDelivery
    && AttemptsLeft(r.deliveries, d, maxAttempts) < AttemptsLeft(db.deliveries, d, maxAttempts)
  }

  ghost predicate NoneGained(db: Db, r: Db, maxAttempts: nat) {
    && r.nextDelivery == db.nextDelivery
    && forall d: DeliveryId :: AttemptsLeft(r.deliveries, d, maxAttempts) <= AttemptsLeft(db.deliveries, d, maxAttempts)
  }

  lemma RankDrops(db: Db, r: Db, j: JobId, maxAttempts: nat, rank: nat)
    requires Fresh(db) && Fresh(r) && Spent(db, r, j, maxAttempts) && rank <= Rank(db.jobs[j].work)
    requires forall k | k in r.jobs && db.nextJob <= k :: Rank(r.jobs[k].work) > rank
    ensures Loads(r, rank) <= Loads(db, rank)
    ensures rank == Rank(db.jobs[j].work) ==> Loads(r, rank) < Loads(db, rank)
  {
    LoadDrops(db.jobs, r.jobs, rank, db.nextJob, j);
    NoNewLoad(r.jobs, rank, db.nextJob, r.nextJob);
  }

  lemma SpentIsLighter(db: Db, r: Db, j: JobId, maxAttempts: nat)
    requires Fresh(db) && Fresh(r) && Spent(db, r, j, maxAttempts)
    ensures Lighter(db, r, Rank(db.jobs[j].work), maxAttempts)
  {
    var rank := Rank(db.jobs[j].work);
    forall lower: nat | lower < rank ensures Loads(r, lower) <= Loads(db, lower) {
      RankDrops(db, r, j, maxAttempts, lower);
    }
    if rank == 3 {
      LeftDrops(db.deliveries, r.deliveries, maxAttempts, db.nextDelivery, 0);
    }
    if d: DeliveryId :| rank == 3 && AttemptSpent(db, r, d, maxAttempts) {
      LeftDrops(db.deliveries, r.deliveries, maxAttempts, db.nextDelivery, d);
    } else {
      RankDrops(db, r, j, maxAttempts, rank);
    }
  }

  lemma ClaimTouchesOneRow(rows: Rows, j: JobId, worker: WorkerId, ttl: int, now: Time)
    requires j in rows
    ensures var s := Heartbeaten(Claimed(rows, j, worker, now, ttl), j, now, ttl);
      && s.Keys == rows.Keys && (forall k | k in rows && k != j :: s[k] == rows[k])
      && s[j].work == rows[j].work && s[j].status == Running && s[j].attempts == rows[j].attempts + 1
  {}

  lemma SettlingTouchesOneRow(rows: Rows, j: JobId, job: Job, outcome: Outcome)
    requires j in rows ==> rows[j].attempts == job.attempts && rows[j].status == Running
    ensures var s := SettledRows(rows, j, job, outcome);
      && s.Keys == rows.Keys && (forall k | k in rows && k != j :: s[k] == rows[k])
      && (j in rows ==> s[j].work == rows[j].work)
      && (j in rows && s[j].status == Queued ==> s[j].attempts == job.attempts < Leases.MAX_ATTEMPTS)
  {}

  /** What a handler leaves, before its job is settled. */
  ghost predicate Handled(db: Db, done: Db, j: JobId, maxAttempts: nat) {
    && Fresh(done) && j in db.jobs && db.nextJob <= done.nextJob
    && j in done.jobs && done.jobs[j] == db.jobs[j]
    && (forall k | k in done.jobs && k < db.nextJob :: k in db.jobs && SameButDue(done.jobs[k], db.jobs[k]))
    && (forall k | k in done.jobs && db.nextJob <= k ::
          Rank(done.jobs[k].work) > Rank(db.jobs[j].work) || OneAttemptSpent(db, done, j, k, maxAttempts))
    && (Rank(db.jobs[j].work) == 3 ==> NoneGained(db, done, maxAttempts))
  }

  lemma GrowthIsHandled(db: Db, done: Db, j: JobId, maxAttempts: nat)
    requires Fresh(db) && Fresh(done) && j in db.jobs && Rank(db.jobs[j].work) < 3
    requires Grows(db, done, Rank(db.jobs[j].work) + 1)
    ensures Handled(db, done, j, maxAttempts)
  {}

  lemma IngestGrows(db: Db, fx: Effects, now: Time)
    requires Fresh(db)
    ensures var r := EventsRecorded(if fx.dreams then Spawned(db, Dream, fx.project, now) else db, fx, now);
      Fresh(r) && Grows(db, r, 1)
  {
    var spawned := if fx.dreams then Spawned(db, Dream, fx.project, now) else db;
    assert Fresh(spawned) && Grows(db, spawned, 1);
    AllEventsGrow(spawned, fx, now);
  }

  lemma BulkGrows(db: Db, fx: Effects, now: Time)
    requires Fresh(db)
    ensures var r := ReindexesSpawned(EventsRecorded(db, fx, now), fx.reindexes, fx.project, now);
      Fresh(r) && Grows(db, r, 3)
  {
    AllEventsGrow(db, fx, now);
    ReindexesGrow(EventsRecorded(db, fx, now), fx.reindexes, fx.project, now);
  }

  /** Handlers that only insert: everything but deliveries and purges. */
  lemma HandlerGrows(db: Db, j: JobId, fx: Effects, maxAttempts: nat, now: Time)
    requires Fresh(db) && j in db.jobs && !db.jobs[j].work.DeliverWebhook? && !db.jobs[j].work.PurgeProject?
    ensures Handled(db, Dispatched(db, j, fx, maxAttempts, now), j, maxAttempts)
  {
    match db.jobs[j].work {
      case Ingest => IngestGrows(db, fx, now);
      case BulkMemories => BulkGrows(db, fx, now);
      case Dream => AllEventsGrow(db, fx, now);
      case DeleteAllMemories => AllEventsGrow(db, fx, now);
      case _ =>
    }
    if Rank(db.jobs[j].work) < 3 {
      GrowthIsHandled(db, Dispatched(db, j, fx, maxAttempts, now), j, maxAttempts);
    }
  }

  lemma PurgeRemoves(db: Db, j: JobId, fx: Effects, maxAttempts: nat, now: Time)
    requires Fresh(db) && j in db.jobs && db.jobs[j].work.PurgeProject?
    ensures Handled(db, Dispatched(db, j, fx, maxAttempts, now), j, maxAttempts)
  {}

  /** Committing the outcome of an attempt costs the delivery one of the attempts it had left, if any. */
  lemma MarkSpends(db: Db, d: DeliveryId, ok: bool, maxAttempts: nat, now: Time)
    requires d in db.deliveries
    ensures var attempt := db.deliveries[d].attempts + 1;
      var marked := AttemptMarked(db, d, attempt, ok, maxAttempts, now);
      && NoneGained(db, marked, maxAttempts) && marked == db.(deliveries := marked.deliveries)
      && marked.deliveries.Keys == db.deliveries.Keys
      && (attempt < maxAttempts ==>
            AttemptsLeft(marked.deliveries, d, maxAttempts) < AttemptsLeft(db.deliveries, d, maxAttempts))
  {}

  /** Scheduling a retry moves a queued row or inserts one. */
  lemma RetryAdds(db: Db, d: DeliveryId, project: Option<ProjectId>, now: Time, runAt: Time)
    requires Fresh(db) && d < db.nextDelivery
    ensures var r := RetryScheduled(db, d, project, now, runAt);
      && Fresh(r) && r.deliveries == db.deliveries && r.nextDelivery == db.nextDelivery && db.nextJob <= r.nextJob
      && (forall k | k in db.jobs && db.jobs[k].status != Queued :: k in r.jobs && r.jobs[k] == db.jobs[k])
      && (forall k | k in r.jobs && k < db.nextJob :: k in db.jobs && SameButDue(r.jobs[k], db.jobs[k]))
      && (forall k | k in r.jobs && db.nextJob <= k :: r.jobs[k].work == DeliverWebhook(d))
  {}

  lemma RetryHandled(db: Db, marked: Db, j: JobId, d: DeliveryId, project: Option<ProjectId>, maxAttempts: nat,
      now: Time, runAt: Time)
    requires Fresh(db) && j in db.jobs && db.jobs[j].status == Running && db.jobs[j].work == DeliverWebhook(d)
    requires Fresh(marked) && marked == db.(deliveries := marked.deliveries)
    requires NoneGained(db, marked, maxAttempts) && AttemptSpent(db, marked, d, maxAttempts)
    ensures Handled(db, RetryScheduled(marked, d, project, now, runAt), j, maxAttempts)
  {
    var done := RetryScheduled(marked, d, project, now, runAt);
    RetryAdds(marked, d, project, now, runAt);
    assert AttemptSpent(db, done, d, maxAttempts);
  }

  lemma AttemptSpends(db: Db, j: JobId, d: DeliveryId, fx: Effects, maxAttempts: nat, now: Time)
    requires Fresh(db) && j in db.jobs && db.jobs[j].status == Running && db.jobs[j].work == DeliverWebhook(d)
    ensures Handled(db, DeliveryHandled(db, d, fx, maxAttempts, now), j, maxAttempts)
  {
    if Judge(db, d, now) == Due && (RanThrough(fx) || fx.reach.Halfway?) {
      var attempt := db.deliveries[d].attempts + 1;
      var ok := RanThrough(fx) && fx.delivered;
      MarkSpends(db, d, ok, maxAttempts, now);
      if RanThrough(fx) && !ok && attempt < maxAttempts {
        RetrySpends(db, j, d, fx, attempt, maxAttempts, now);
      } else {
        var marked := AttemptMarked(db, d, attempt, ok, maxAttempts, now);
        MarkHandled(db, marked, j, maxAttempts);
        assert DeliveryHandled(db, d, fx, maxAttempts, now) == marked;
      }
    }
  }

  /** A failed attempt that is not the last, with its retry. */
  lemma RetrySpends(db: Db, j: JobId, d: DeliveryId, fx: Effects, attempt: nat, maxAttempts: nat, now: Time)
    requires Fresh(db) && j in db.jobs && db.jobs[j].status == Running && db.jobs[j].work == DeliverWebhook(d)
    requires Judge(db, d, now) == Due && attempt == db.deliveries[d].attempts + 1 < maxAttempts
    requires RanThrough(fx) && !fx.delivered
    ensures Handled(db, DeliveryHandled(db, d, fx, maxAttempts, now), j, maxAttempts)
  {
    var marked := AttemptMarked(db, d, attempt, false, maxAttempts, now);
    var runAt := now + Backoff(attempt) as real;
    MarkSpends(db, d, false, maxAttempts, now);
    RetryHandled(db, marked, j, d, fx.project, maxAttempts, now, runAt);
    assert DeliveryHandled(db, d, fx, maxAttempts, now) == RetryScheduled(marked, d, fx.project, now, runAt);
  }

  lemma MarkHandled(db: Db, marked: Db, j: JobId, maxAttempts: nat)
    requires Fresh(db) && j in db.jobs && marked == db.(deliveries := marked.deliveries)
    requires marked.deliveries.Keys == db.deliveries.Keys && NoneGained(db, marked, maxAttempts)
    ensures Handled(db, marked, j, maxAttempts)
  {}

  /** Every run_once, whatever its handler meets and however it ends, lightens the tables at the rank of the
      job it ran. */
  lemma StepLighter(db: Db, r: Db, j: JobId, worker: WorkerId, ttl: int, fx: Effects, maxAttempts: nat, now: Time)
    requires Fresh(db) && StepBy(db, r, j, worker, ttl, fx, maxAttempts, now)
    ensures Fresh(r) && Lighter(db, r, Rank(db.jobs[j].work), maxAttempts)
  {
    var claimed := db.(jobs := Heartbeaten(Claimed(db.jobs, j, worker, now, ttl), j, now, ttl));
    ClaimTouchesOneRow(db.jobs, j, worker, ttl, now);
    var done := Dispatched(claimed, j, fx, maxAttempts, now);
    match db.jobs[j].work {
      case DeliverWebhook(d) => AttemptSpends(claimed, j, d, fx, maxAttempts, now);
      case PurgeProject(_) => PurgeRemoves(claimed, j, fx, maxAttempts, now);
      case _ => HandlerGrows(claimed, j, fx, maxAttempts, now);
    }
    SettlingTouchesOneRow(done.jobs, j, claimed.jobs[j], fx.outcome);
    SettledIsSpent(db, claimed, done, r, j, maxAttempts);
    SpentIsLighter(db, r, j, maxAttempts);
  }

  lemma SettledIsSpent(db: Db, claimed: Db, done: Db, r: Db, j: JobId, maxAttempts: nat)
    requires Fresh(db) && j in db.jobs && db.jobs[j].status == Queued
    requires claimed == db.(jobs := claimed.jobs) && claimed.jobs.Keys == db.jobs.Keys
    requires forall k | k in db.jobs && k != j :: claimed.jobs[k] == db.jobs[k]
    requires claimed.jobs[j].work == db.jobs[j].work && claimed.jobs[j].attempts == db.jobs[j].attempts + 1
    requires Handled(claimed, done, j, maxAttempts)
    requires r == done.(jobs := r.jobs) && r.jobs.Keys == done.jobs.Keys
    requires forall k | k in done.jobs && k != j :: r.jobs[k] == done.jobs[k]
    requires r.jobs[j].work == done.jobs[j].work
    requires r.jobs[j].status == Queued ==> r.jobs[j].attempts == claimed.jobs[j].attempts < Leases.MAX_ATTEMPTS
    ensures Fresh(r) && Spent(db, r, j, maxAttempts)
  {
    forall k | k in r.jobs && db.nextJob <= k
      ensures Rank(r.jobs[k].work) > Rank(db.jobs[j].work) || OneAttemptSpent(db, r, j, k, maxAttempts)
    {
      assert k in done.jobs && k != j;
      if OneAttemptSpent(claimed, done, j, k, maxAttempts) {
        var d: DeliveryId :| AttemptSpent(claimed, done, d, maxAttempts);
        assert AttemptSpent(db, r, d, maxAttempts);
      }
    }
  }

  ghost predicate LexLighter(db: Db, r: Db, m: nat) {
    || Loads(r, 0) < Loads(db, 0)
    || (Loads(r, 0) == Loads(db, 0) &&
        (|| Loads(r, 1) < Loads(db, 1)
         || (Loads(r, 1) == Loads(db, 1) &&
             (|| Loads(r, 2) < Loads(db, 2)
              || (Loads(r, 2) == Loads(db, 2) &&
                  (|| AllLeft(r, m) < AllLeft(db, m)
                   || (AllLeft(r, m) == AllLeft(db, m) && Loads(r, 3) < Loads(db, 3))))))))
  }

  lemma StepLexLighter(db: Db, r: Db, j: JobId, worker: WorkerId, ttl: int, fx: Effects, maxAttempts: nat, now: Time)
    requires Fresh(db) && StepBy(db, r, j, worker, ttl, fx, maxAttempts, now)
    ensures Fresh(r) && LexLighter(db, r, maxAttempts)
  {
    StepLighter(db, r, j, worker, ttl, fx, maxAttempts, now);
    var rank := Rank(db.jobs[j].work);
    assert 0 < rank ==> Loads(r, 0) <= Loads(db, 0);
    assert 1 < rank ==> Loads(r, 1) <= Loads(db, 1);
    assert 2 < rank ==> Loads(r, 2) <= Loads(db, 2);
  }

  /** A job that is over is never claimed again, and whatever else runs leaves its row as it is, or a purge
      deletes it. */
  lemma OverIsOver(db: Db, r: Db, j: JobId, maxAttempts: nat, now: Time)
    requires Fresh(db) && Step(db, r, maxAttempts, now) && j in db.jobs && Terminal(db.jobs[j])
    ensures j in r.jobs ==> r.jobs[j] == db.jobs[j]
  {
    var k, worker, ttl, fx :| StepBy(db, r, k, worker, ttl, fx, maxAttempts, now);
    var claimed := db.(jobs := Heartbeaten(Claimed(db.jobs, k, worker, now, ttl), k, now, ttl));
    ClaimTouchesOneRow(db.jobs, k, worker, ttl, now);
    HandlerKeepsRow(claimed, k, fx, maxAttempts, now, j);
    var done := Dispatched(claimed, k, fx, maxAttempts, now);
    OtherRowsStay(done.jobs, k, claimed.jobs[k], fx.outcome, j);
  }

  lemma OtherRowsStay(rows: Rows, k: JobId, job: Job, outcome: Outcome, j: JobId)
    requires j != k
    ensures var s := SettledRows(rows, k, job, outcome); (j in s <==> j in rows) && (j in s ==> s[j] == rows[j])
  {}

  // ---------------------------------------------------------------- whole runs

  ghost predicate AnyTimeStep(db: Db, r: Db, maxAttempts: nat) {
    exists now :: Step(db, r, maxAttempts, now)
  }

  ghost predicate StepsAt(run: nat -> Db, i: nat, maxAttempts: nat) {
    AnyTimeStep(run(i), run(i + 1), maxAttempts)
  }

  /** From any point of an endless run one could descend forever. */
  lemma Descend(run: nat -> Db, i: nat, maxAttempts: nat)
    requires Fresh(run(i))
    requires forall k: nat :: StepsAt(run, k, maxAttempts)
    ensures false
    decreases Loads(run(i), 0), Loads(run(i), 1), Loads(run(i), 2), AllLeft(run(i), maxAttempts), Loads(run(i), 3)
  {
    assert StepsAt(run, i, maxAttempts);
    var now :| Step(run(i), run(i + 1), maxAttempts, now);
    var j, worker, ttl, fx :| StepBy(run(i), run(i + 1), j, worker, ttl, fx, maxAttempts, now);
    StepLexLighter(run(i), run(i + 1), j, worker, ttl, fx, maxAttempts, now);
    Descend(run, i + 1, maxAttempts);
  }

  /** No sequence of tables is an endless run: at whatever times the steps are taken, one of them is not
      a run_once. */
  lemma DrainingTerminates(run: nat -> Db, maxAttempts: nat)
    requires Fresh(run(0))
    ensures exists i: nat :: !StepsAt(run, i, maxAttempts)
  {
    if forall i: nat :: StepsAt(run, i, maxAttempts) {
      Descend(run, 0, maxAttempts);
    }
  }

  ghost predicate Idle(db: Db) {
    forall j | j in db.jobs :: db.jobs[j].status != Queued
  }

  /** A run can only stop at an empty queue: while a row is queued, moving the clock to the time it falls
      due lets some run_once happen; on an empty queue none does. */
  lemma StopsOnlyWhenIdle(db: Db, maxAttempts: nat)
    ensures Idle(db) <==> forall r :: !AnyTimeStep(db, r, maxAttempts)
  {
    if k :| k in db.jobs && db.jobs[k].status == Queued {
      var now := db.jobs[k].runAfter;
      NextClaimExists(db.jobs, now);
      assert Claimable(db.jobs[k], now);
      var j :| IsNextClaim(db.jobs, j, now);
      var fx := Effects(Returned, Through, [], None, false, [], true, {}, None);
      var r := RanOnce(db, j, 0, 30, fx, maxAttempts, now);
      assert StepBy(db, r, j, 0, 30, fx, maxAttempts, now);
      assert Step(db, r, maxAttempts, now);
      assert AnyTimeStep(db, r, maxAttempts);
    }
  }

  /** The worker's loop when nobody submits work: whatever the handlers meet and however they end, it
      comes to a table without a queued row. */
  method Drain(w: WorkerProcess, start: Time)
    requires w.outbox.queue.Valid() && Fresh(w.outbox.State())
    modifies w.outbox, w.outbox.queue
    ensures w.outbox.queue.Valid() && Idle(w.outbox.State())
  {
    var now := start;
    while exists j | j in w.outbox.queue.rows :: w.outbox.queue.rows[j].status == Queued
      invariant w.outbox.queue.Valid() && Fresh(w.outbox.State())
      decreases Loads(w.outbox.State(), 0), Loads(w.outbox.State(), 1), Loads(w.outbox.State(), 2),
                AllLeft(w.outbox.State(), w.maxAttempts), Loads(w.outbox.State(), 3)
    {
      ghost var before := w.outbox.State();
      var due :| due in w.outbox.queue.rows && w.outbox.queue.rows[due].status == Queued;
      now := MaxTime(now, w.outbox.queue.rows[due].runAfter);
      var fx: Effects := *;
      assert Claimable(before.jobs[due], now);
      var ran := w.RunOnce(fx, now);
      ghost var after := w.outbox.State();
      StepLexLighter(before, after, ran.value, w.id, w.ttl, fx, w.maxAttempts, now);
    }
  }
}
