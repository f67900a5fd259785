/** Runs of the outbox: recorded events, N workers delivering, replays, cancellations, crashes.
    A worker's handling of a delivery job is cut at every commit of deliver_delivery, so other
    workers and requests interleave between the mark, the retry and the completion. */
module OutboxRuns {
  import opened Common
  import opened Jobs
  import opened Webhooks
  import Leases

  /** How far the worker that runs a delivery job has got. */
  datatype Stage =
    | Taken                      // claimed, delivery row not read yet
    | Sending(attempt: nat)      // row read and due, waiting for the network
    | Owing(retryAt: Time)       // outcome committed, retry job not yet inserted
    | Answered                   // nothing left but complete()

  datatype Flight = Flight(delivery: DeliveryId, stage: Stage)

  /** `abandoned`: deliveries one of whose jobs has failed or been cancelled since the last replay. */
  datatype World = World(db: Db, flights: map<JobId, Flight>, abandoned: set<DeliveryId>, clock: Time)

  datatype Event =
    | Tick(to: Time)
    | Configure(webhooks: seq<Webhook>, projects: set<ProjectId>)
    | Record(project: Option<ProjectId>, eventType: EventType)
    | Claim(job: JobId, worker: WorkerId, ttl: int)
    | Renew(job: JobId, ttl: int)
    | Look(job: JobId)
    | Answer(job: JobId, ok: bool, maxAttempts: nat)
    | Schedule(job: JobId, project: Option<ProjectId>)
    | Finish(job: JobId)
    | Raise(job: JobId, permanent: bool)
    | Reap
    | CancelJob(job: JobId)
    | Replay(delivery: DeliveryId, project: Option<ProjectId>)
    | Drop(deliveries: set<DeliveryId>, jobs: set<JobId>)   // webhook or project deleted, retention sweep
    | Elsewhere(rows: Rows, nextJob: JobId)                 // whatever happens to jobs of other kinds

  const Start := World(Db(map[], 0, map[], 0, map[], 0, [], {}), map[], {}, 1.0)

  predicate IsDelivery(rows: Rows, j: JobId) {
    j in rows && rows[j].work.DeliverWebhook?
  }

  /** Before the outcome of the attempt is committed, a crash or an exception loses nothing. */
  predicate BeforeCommit(stage: Stage) {
    stage.Taken? || stage.Sending?
  }

  /** `safe` confines crashes and exceptions to the time before the outcome is committed. */
  predicate Enabled(s: World, e: Event, safe: bool) {
    match e
    case Tick(to) => s.clock <= to
    case Configure(_, _) => true
    case Record(_, _) => true
    case Claim(j, _, _) => IsNextClaim(s.db.jobs, j, s.clock) && IsDelivery(s.db.jobs, j)
    case Renew(j, _) => j in s.flights
    case Look(j) => j in s.flights && s.flights[j].stage.Taken?
    case Answer(j, _, _) => j in s.flights && s.flights[j].stage.Sending?
    case Schedule(j, _) => j in s.flights && s.flights[j].stage.Owing?
    case Finish(j) => j in s.flights && s.flights[j].stage.Answered?
    case Raise(j, _) => j in s.flights && (safe ==> BeforeCommit(s.flights[j].stage))
    case Reap => safe ==> forall j | j in s.flights && j in s.db.jobs && Stale(s.db.jobs[j], s.clock) ::
      BeforeCommit(s.flights[j].stage)
    case CancelJob(_) => true
    case Replay(_, _) => true
    case Drop(ds, js) =>
      forall j | j in js && IsDelivery(s.db.jobs, j) && Outstanding(s.db.jobs[j]) ::
        s.db.jobs[j].work.delivery in ds || s.db.jobs[j].work.delivery !in s.db.deliveries
    case Elsewhere(rows, nextJob) =>
      && s.db.nextJob <= nextJob
      && (forall j | j in rows :: j in s.db.jobs || s.db.nextJob <= j < nextJob)
      && (forall j | j in s.db.jobs && IsDelivery(s.db.jobs, j) :: j in rows && rows[j] == s.db.jobs[j])
      && (forall j | j in rows && IsDelivery(rows, j) :: j in s.db.jobs && rows[j] == s.db.jobs[j])
  }

  function AtStage(s: World, j: JobId, stage: Stage): World
    requires j in s.flights
  {
    s.(flights := s.flights[j := s.flights[j].(stage := stage)])
  }

  function Apply(s: World, e: Event, safe: bool): World
    requires Enabled(s, e, safe)
  {
    match e
    case Tick(to) => s.(clock := to)
    case Configure(webhooks, projects) => s.(db := s.db.(webhooks := webhooks, projects := projects))
    case Record(project, eventType) => s.(db := Recorded(s.db, project, eventType, s.clock))
    case Claim(j, w, ttl) =>
      s.(db := s.db.(jobs := Claimed(s.db.jobs, j, w, s.clock, ttl)),
         flights := s.flights[j := Flight(s.db.jobs[j].work.delivery, Taken)])
    case Renew(j, ttl) => s.(db := s.db.(jobs := Heartbeaten(s.db.jobs, j, s.clock, ttl)))
    case Look(j) =>
      var d := s.flights[j].delivery;
      if Judge(s.db, d, s.clock) == Due then AtStage(s, j, Sending(s.db.deliveries[d].attempts + 1))
        else AtStage(s, j, Answered)
    case Answer(j, ok, maxAttempts) =>
      var d, attempt := s.flights[j].delivery, s.flights[j].stage.attempt;
      AtStage(s.(db := AttemptMarked(s.db, d, attempt, ok, maxAttempts, s.clock)), j,
              if ok || attempt >= maxAttempts then Answered else Owing(s.clock + Backoff(attempt) as real))
    case Schedule(j, project) =>
      AtStage(s.(db := RetryScheduled(s.db, s.flights[j].delivery, project, s.clock, s.flights[j].stage.retryAt)), j,
        Answered)
    case Finish(j) => s.(db := s.db.(jobs := Closed(s.db.jobs, j, Done)), flights := s.flights - {j})
    case Raise(j, permanent) =>
      if permanent || (j in s.db.jobs && s.db.jobs[j].attempts >= Leases.MAX_ATTEMPTS) then
        s.(db := s.db.(jobs := Closed(s.db.jobs, j, Failed)), flights := s.flights - {j},
           abandoned := s.abandoned + {s.flights[j].delivery})
      else
        s.(db := s.db.(jobs := Requeued(s.db.jobs, j, 0.0)), flights := s.flights - {j})
    case Reap =>
      s.(db := s.db.(jobs := Reaped(s.db.jobs, s.clock)),
         flights := map j | j in s.flights && !(j in s.db.jobs && Stale(s.db.jobs[j], s.clock)) :: s.flights[j])
    case CancelJob(j) =>
      if !Cancellable(s.db.jobs, j, s.clock) then s else
      s.(db := s.db.(jobs := CancelledRows(s.db.jobs, j, s.clock)), flights := s.flights - {j},
         abandoned := s.abandoned + if IsDelivery(s.db.jobs, j) then {s.db.jobs[j].work.delivery} else {})
    case Replay(d, project) =>
      if !Replayable(s.db, d) then s else
      s.(db := Replayed(s.db, d, project, s.clock), abandoned := s.abandoned - {d})
    case Drop(ds, js) => s.(db := s.db.(deliveries := s.db.deliveries - ds, jobs := s.db.jobs - js))
    case Elsewhere(rows, nextJob) => s.(db := s.db.(jobs := rows, nextJob := nextJob))
  }

  ghost function Exec(run: seq<Event>, safe: bool): Option<World>
    decreases |run|
  {
    if run == [] then Some(Start) else
    var before := Exec(run[..|run| - 1], safe);
    var e := run[|run| - 1];
    if before.Some? && Enabled(before.value, e, safe) then Some(Apply(before.value, e, safe)) else None
  }

  ghost predicate Valid(run: seq<Event>, safe: bool) {
    Exec(run, safe).Some?
  }

  ghost function After(run: seq<Event>, safe: bool): World
    requires Valid(run, safe)
  {
    Exec(run, safe).value
  }

  // ---------------------------------------------------------------- the invariant

  /** The job that still has to bring delivery d forward: queued, or running and not past its retry. */
  predicate Token(s: World, j: JobId, d: DeliveryId) {
    || QueuedFor(s.db.jobs, j, d)
    || (RunningFor(s.db.jobs, j, d) && j in s.flights && !s.flights[j].stage.Answered?)
  }

  ghost predicate OnlyToken(s: World, j: JobId, d: DeliveryId) {
    Token(s, j, d) && forall k | k in s.db.jobs && Token(s, k, d) :: k == j
  }

  predicate DueBy(next: Option<Time>, t: Time) {
    next.None? || next.value <= t
  }

  /** Whoever gets to run job j finds delivery d due. */
  predicate OnTime(s: World, j: JobId, d: DeliveryId)
    requires d in s.db.deliveries && Token(s, j, d)
  {
    var next := s.db.deliveries[d].nextAttemptAt;
    if QueuedFor(s.db.jobs, j, d) then DueBy(next, MaxTime(s.db.jobs[j].runAfter, s.clock))
    else match s.flights[j].stage
      case Owing(t) => next == Some(t)
      case _ => DueBy(next, s.clock)
  }

  ghost predicate Sound(s: World, d: DeliveryId) {
    d in s.db.deliveries && d !in s.abandoned ==>
      if s.db.deliveries[d].status == Pending then
        exists j :: OnlyToken(s, j, d) && OnTime(s, j, d)
      else
        forall k | k in s.db.jobs :: !Token(s, k, d)
  }

  ghost predicate IdsInOrder(s: World) {
    && (forall j | j in s.db.jobs :: j < s.db.nextJob)
    && (forall j | IsDelivery(s.db.jobs, j) :: s.db.jobs[j].work.delivery < s.db.nextDelivery)
    && (forall j | j in s.flights :: j < s.db.nextJob && s.flights[j].delivery < s.db.nextDelivery)
    && (forall d | d in s.db.deliveries :: d < s.db.nextDelivery)
    && (forall d | d in s.abandoned :: d < s.db.nextDelivery)
  }

  ghost predicate FlightsMatchRows(s: World) {
    && (forall j | IsDelivery(s.db.jobs, j) && s.db.jobs[j].status == Running :: j in s.flights)
    && (forall j | j in s.flights :: if j in s.db.jobs then RunningFor(s.db.jobs, j, s.flights[j].delivery)
         else s.flights[j].delivery !in s.db.deliveries)
  }

  ghost predicate Basics(s: World) {
    IdsInOrder(s) && FlightsMatchRows(s)
  }

  ghost predicate Inv(s: World) {
    Basics(s) && forall d :: Sound(s, d)
  }

  lemma OneMoreDelivery(s: World, hook: Webhook, event: EventId, project: ProjectId)
    requires Inv(s)
    ensures Inv(s.(db := FannedOut(s.db, hook, event, project, s.clock)))
  {
    var t := s.(db := FannedOut(s.db, hook, event, project, s.clock));
    forall d ensures Sound(t, d) {
      assert Sound(s, d);
      if d == s.db.nextDelivery {
        assert OnlyToken(t, s.db.nextJob, d) && OnTime(t, s.db.nextJob, d);
      } else {
        assert forall k | k in t.db.jobs :: Token(t, k, d) == Token(s, k, d);
        if d in s.db.deliveries && d !in s.abandoned && s.db.deliveries[d].status == Pending {
          var j :| OnlyToken(s, j, d) && OnTime(s, j, d);
          assert OnlyToken(t, j, d) && OnTime(t, j, d);
        }
      }
    }
  }

  lemma {:induction false} AllDeliveries(s: World, hooks: seq<Webhook>, event: EventId, project: ProjectId,
      eventType: EventType)
    requires Inv(s)
    ensures Inv(s.(db := FannedOutAll(s.db, hooks, event, project, eventType, s.clock)))
    decreases |hooks|
  {
    if hooks != [] {
      var front := hooks[..|hooks| - 1];
      AllDeliveries(s, front, event, project, eventType);
      var t := s.(db := FannedOutAll(s.db, front, event, project, eventType, s.clock));
      OneMoreDelivery(t, hooks[|hooks| - 1], event, project);
    }
  }

  /** The token of d, if it has one, and every other job keep their roles. */
  lemma SoundIfTokensKept(s: World, t: World, d: DeliveryId)
    requires Sound(s, d)
    requires d in t.db.deliveries && d !in t.abandoned ==>
      d in s.db.deliveries && d !in s.abandoned && t.db.deliveries[d] == s.db.deliveries[d]
    requires forall k | k in t.db.jobs && Token(t, k, d) :: k in s.db.jobs && Token(s, k, d)
    requires d in t.db.deliveries && d !in t.abandoned ==>
               forall k | k in s.db.jobs && Token(s, k, d) :: Token(t, k, d) && (OnTime(s, k, d) ==> OnTime(t, k, d))
    ensures Sound(t, d)
  {
    if d in t.db.deliveries && d !in t.abandoned && t.db.deliveries[d].status == Pending {
      var j :| OnlyToken(s, j, d) && OnTime(s, j, d);
      assert j in s.db.jobs;
      assert OnlyToken(t, j, d) && OnTime(t, j, d);
    }
  }

  /** The flight of job j carries the only token of its delivery, if that is still there. */
  lemma FlightIsToken(s: World, j: JobId, d: DeliveryId)
    requires Basics(s) && Sound(s, d) && j in s.flights && s.flights[j].delivery == d && !s.flights[j].stage.Answered?
    requires d in s.db.deliveries && d !in s.abandoned
    ensures s.db.deliveries[d].status == Pending && RunningFor(s.db.jobs, j, d) && OnlyToken(s, j, d)
    ensures !HasQueued(s.db.jobs, d)
  {
    assert Token(s, j, d);
    assert forall k | k in s.db.jobs && k != j :: !Token(s, k, d);
  }

  lemma AnswerKeepsSound(s: World, e: Event, d: DeliveryId)
    requires e.Answer? && Basics(s) && Sound(s, d) && Enabled(s, e, true)
    ensures Sound(Apply(s, e, true), d)
  {
    if d !in s.db.deliveries || d in s.abandoned {
    } else if d != s.flights[e.job].delivery {
      OtherAnswerSound(s, Apply(s, e, true), e.job, d);
    } else {
      FlightIsToken(s, e.job, d);
      OwnAnswerSound(s, Apply(s, e, true), e.job, d);
    }
  }

  /** The outcome of an attempt at another delivery. */
  lemma OtherAnswerSound(s: World, t: World, j: JobId, d: DeliveryId)
    requires Basics(s) && Sound(s, d) && j in s.flights && s.flights[j].delivery != d && d in s.db.deliveries
    requires t.db.jobs == s.db.jobs && t.abandoned == s.abandoned && t.clock == s.clock
    requires d in t.db.deliveries && t.db.deliveries[d] == s.db.deliveries[d]
    requires t.flights.Keys == s.flights.Keys && (forall k | k in s.flights && k != j :: t.flights[k] == s.flights[k])
    ensures Sound(t, d)
  {
    assert forall k | k in s.db.jobs :: Token(t, k, d) == Token(s, k, d);
    SoundIfTokensKept(s, t, d);
  }

  /** The outcome of its attempt is committed, and perhaps a retry owed. */
  lemma OwnAnswerSound(s: World, t: World, j: JobId, d: DeliveryId)
    requires OnlyToken(s, j, d) && j in s.flights && s.flights[j].delivery == d && RunningFor(s.db.jobs, j, d)
    requires t.db.jobs == s.db.jobs && t.abandoned == s.abandoned && d in t.db.deliveries
    requires t.flights.Keys == s.flights.Keys && (forall k | k in s.flights && k != j :: t.flights[k] == s.flights[k])
    requires t.flights[j].delivery == d
    requires match t.flights[j].stage
      case Owing(at) => t.db.deliveries[d].status == Pending && t.db.deliveries[d].nextAttemptAt == Some(at)
      case Answered => t.db.deliveries[d].status != Pending
      case _ => false
    ensures Sound(t, d)
  {
    assert forall k | k in t.db.jobs && k != j :: Token(t, k, d) == Token(s, k, d);
    if t.flights[j].stage.Owing? {
      assert OnlyToken(t, j, d) && OnTime(t, j, d);
    }
  }

  lemma ScheduleKeepsSound(s: World, e: Event, d: DeliveryId)
    requires e.Schedule? && Basics(s) && Sound(s, d) && Enabled(s, e, true)
    ensures Sound(Apply(s, e, true), d)
  {
    var owed, retryAt := s.flights[e.job].delivery, s.flights[e.job].stage.retryAt;
    if d !in s.db.deliveries || d in s.abandoned {
    } else if d != owed {
      OtherRetrySound(s, e.job, e.project, d);
    } else {
      FlightIsToken(s, e.job, d);
      OwnRetrySound(s, e.job, e.project, d);
    }
  }

  /** The retry of another delivery. */
  lemma OtherRetrySound(s: World, j: JobId, project: Option<ProjectId>, d: DeliveryId)
    requires Basics(s) && Sound(s, d) && j in s.flights && s.flights[j].stage.Owing? && s.flights[j].delivery != d
    ensures Sound(AtStage(s.(db := RetryScheduled(s.db, s.flights[j].delivery, project, s.clock,
                                                  s.flights[j].stage.retryAt)), j, Answered), d)
  {
    var t := AtStage(s.(db := RetryScheduled(s.db, s.flights[j].delivery, project, s.clock,
                                             s.flights[j].stage.retryAt)), j, Answered);
    SoundIfTokensKept(s, t, d);
  }

  /** Its own retry takes the token over. */
  lemma OwnRetrySound(s: World, j: JobId, project: Option<ProjectId>, d: DeliveryId)
    requires Basics(s) && Sound(s, d) && OnlyToken(s, j, d) && RunningFor(s.db.jobs, j, d) && !HasQueued(s.db.jobs, d)
    requires j in s.flights && s.flights[j].delivery == d && s.flights[j].stage.Owing?
    requires d in s.db.deliveries && d !in s.abandoned && s.db.deliveries[d].status == Pending
    ensures Sound(AtStage(s.(db := RetryScheduled(s.db, d, project, s.clock, s.flights[j].stage.retryAt)), j,
                          Answered), d)
  {
    var t := AtStage(s.(db := RetryScheduled(s.db, d, project, s.clock, s.flights[j].stage.retryAt)), j, Answered);
    assert OnTime(s, j, d);
    assert OnlyToken(t, s.db.nextJob, d) && OnTime(t, s.db.nextJob, d);
  }

  lemma ReplayKeepsSound(s: World, e: Event, d: DeliveryId)
    requires e.Replay? && Basics(s) && Sound(s, d) && Enabled(s, e, true)
    ensures Sound(Apply(s, e, true), d)
  {
    if Replayable(s.db, e.delivery) {
      if d == e.delivery {
        OwnReplaySound(s, e.project, d);
      } else {
        OtherReplaySound(s, e.delivery, e.project, d);
      }
    }
  }

  function ReplayRan(s: World, d: DeliveryId, project: Option<ProjectId>): World {
    s.(db := Replayed(s.db, d, project, s.clock), abandoned := s.abandoned - {d})
  }

  lemma OwnReplaySound(s: World, project: Option<ProjectId>, d: DeliveryId)
    requires Basics(s) && Replayable(s.db, d)
    ensures Sound(ReplayRan(s, d, project), d)
  {
    var t := ReplayRan(s, d, project);
    var keep := if HasQueued(s.db.jobs, d) then FirstQueued(s.db.jobs, d) else s.db.nextJob;
    assert OnlyToken(t, keep, d) && OnTime(t, keep, d);
  }

  lemma OtherReplaySound(s: World, other: DeliveryId, project: Option<ProjectId>, d: DeliveryId)
    requires Basics(s) && Sound(s, d) && Replayable(s.db, other) && d != other
    ensures Sound(ReplayRan(s, other, project), d)
  {
    SoundIfTokensKept(s, ReplayRan(s, other, project), d);
  }

  lemma LookKeepsSound(s: World, e: Event, d: DeliveryId)
    requires e.Look? && Basics(s) && Sound(s, d) && Enabled(s, e, true)
    ensures Sound(Apply(s, e, true), d)
  {
    var t := Apply(s, e, true);
    if d == s.flights[e.job].delivery && d in s.db.deliveries && d !in s.abandoned {
      assert Token(s, e.job, d) && s.db.deliveries[d].status == Pending && OnlyToken(s, e.job, d);
      assert OnlyToken(t, e.job, d) && OnTime(t, e.job, d);
    } else {
      SoundIfTokensKept(s, t, d);
    }
  }

  lemma ClaimKeepsSound(s: World, e: Event, d: DeliveryId)
    requires e.Claim? || e.Renew?
    requires Basics(s) && Sound(s, d) && Enabled(s, e, true)
    ensures Sound(Apply(s, e, true), d)
  {
    var t := Apply(s, e, true);
    if d in t.db.deliveries && d !in t.abandoned {
      forall k | k in s.db.jobs && Token(s, k, d) ensures Token(t, k, d) && (OnTime(s, k, d) ==> OnTime(t, k, d)) {}
    }
    SoundIfTokensKept(s, t, d);
  }

  /** The worker is done with the job. */
  lemma FinishKeepsSound(s: World, e: Event, d: DeliveryId)
    requires e.Finish? && Basics(s) && Sound(s, d) && Enabled(s, e, true)
    ensures Sound(Apply(s, e, true), d)
  {
    SoundIfTokensKept(s, Apply(s, e, true), d);
  }

  /** The worker raises, before the outcome is committed. */
  lemma RaiseKeepsSound(s: World, e: Event, d: DeliveryId)
    requires e.Raise? && Basics(s) && Sound(s, d) && Enabled(s, e, true)
    ensures Sound(Apply(s, e, true), d)
  {
    var t := Apply(s, e, true);
    if d in t.db.deliveries && d !in t.abandoned {
      forall k | k in s.db.jobs && Token(s, k, d) ensures Token(t, k, d) && (OnTime(s, k, d) ==> OnTime(t, k, d)) {}
    }
    SoundIfTokensKept(s, t, d);
  }

  /** Workers whose leases have lapsed are taken to be dead, before they committed an outcome. */
  lemma ReapKeepsSound(s: World, e: Event, d: DeliveryId)
    requires e.Reap? && Basics(s) && Sound(s, d) && Enabled(s, e, true)
    ensures Sound(Apply(s, e, true), d)
  {
    var t := Apply(s, e, true);
    if d in t.db.deliveries && d !in t.abandoned {
      forall k | k in s.db.jobs && Token(s, k, d) ensures Token(t, k, d) && (OnTime(s, k, d) ==> OnTime(t, k, d)) {
        assert ReapedJob(s.db.jobs[k], s.clock).work == s.db.jobs[k].work;
      }
    }
    SoundIfTokensKept(s, t, d);
  }

  lemma TickKeepsSound(s: World, e: Event, d: DeliveryId)
    requires e.Tick? || e.Configure?
    requires Basics(s) && Sound(s, d) && Enabled(s, e, true)
    ensures Sound(Apply(s, e, true), d)
  {
    SoundIfTokensKept(s, Apply(s, e, true), d);
  }

  lemma OutsideStepKeepsSound(s: World, e: Event, d: DeliveryId)
    requires e.CancelJob? || e.Drop? || e.Elsewhere?
    requires Basics(s) && Sound(s, d) && Enabled(s, e, true)
    ensures Sound(Apply(s, e, true), d)
  {
    var t := Apply(s, e, true);
    SoundIfTokensKept(s, t, d);
  }

  lemma StepKeepsSound(s: World, e: Event, d: DeliveryId)
    requires Basics(s) && Sound(s, d) && Enabled(s, e, true) && !e.Record?
    ensures Sound(Apply(s, e, true), d)
  {
    match e
    case Answer(_, _, _) => AnswerKeepsSound(s, e, d);
    case Schedule(_, _) => ScheduleKeepsSound(s, e, d);
    case Replay(_, _) => ReplayKeepsSound(s, e, d);
    case Look(_) => LookKeepsSound(s, e, d);
    case Claim(_, _, _) => ClaimKeepsSound(s, e, d);
    case Renew(_, _) => ClaimKeepsSound(s, e, d);
    case Finish(_) => FinishKeepsSound(s, e, d);
    case Raise(_, _) => RaiseKeepsSound(s, e, d);
    case Reap => ReapKeepsSound(s, e, d);
    case Tick(_) => TickKeepsSound(s, e, d);
    case CancelJob(_) => OutsideStepKeepsSound(s, e, d);
    case Drop(_, _) => OutsideStepKeepsSound(s, e, d);
    case Elsewhere(_, _) => OutsideStepKeepsSound(s, e, d);
    case Configure(_, _) => TickKeepsSound(s, e, d);
  }

  lemma TakeKeepsBasics(s: World, e: Event)
    requires e.Claim? || e.Renew?
    requires Basics(s) && Enabled(s, e, true)
    ensures Basics(Apply(s, e, true))
  {}

  lemma FinishKeepsBasics(s: World, e: Event)
    requires e.Finish? && Basics(s) && Enabled(s, e, true)
    ensures Basics(Apply(s, e, true))
  {}

  lemma RaiseKeepsBasics(s: World, e: Event)
    requires e.Raise? && Basics(s) && Enabled(s, e, true)
    ensures Basics(Apply(s, e, true))
  {}

  lemma ReapKeepsBasics(s: World, e: Event)
    requires e.Reap? && Basics(s) && Enabled(s, e, true)
    ensures Basics(Apply(s, e, true))
  {}

  lemma OutsideKeepsBasics(s: World, e: Event)
    requires e.CancelJob? || e.Drop? || e.Elsewhere?
    requires Basics(s) && Enabled(s, e, true)
    ensures Basics(Apply(s, e, true))
  {}

  lemma LookKeepsBasics(s: World, e: Event)
    requires e.Tick? || e.Configure? || e.Look?
    requires Basics(s) && Enabled(s, e, true)
    ensures Basics(Apply(s, e, true))
  {}

  lemma AnswerKeepsBasics(s: World, e: Event)
    requires e.Answer? && Basics(s) && Enabled(s, e, true)
    ensures Basics(Apply(s, e, true))
  {}

  lemma ScheduleKeepsBasics(s: World, e: Event)
    requires e.Schedule? && Basics(s) && Enabled(s, e, true)
    ensures Basics(Apply(s, e, true))
  {}

  lemma ReplayKeepsBasics(s: World, e: Event)
    requires e.Replay? && Basics(s) && Enabled(s, e, true)
    ensures Basics(Apply(s, e, true))
  {}

  lemma StepKeepsBasics(s: World, e: Event)
    requires Basics(s) && Enabled(s, e, true) && !e.Record?
    ensures Basics(Apply(s, e, true))
  {
    match e
    case Claim(_, _, _) => TakeKeepsBasics(s, e);
    case Renew(_, _) => TakeKeepsBasics(s, e);
    case Finish(_) => FinishKeepsBasics(s, e);
    case Raise(_, _) => RaiseKeepsBasics(s, e);
    case Reap => ReapKeepsBasics(s, e);
    case Answer(_, _, _) => AnswerKeepsBasics(s, e);
    case Schedule(_, _) => ScheduleKeepsBasics(s, e);
    case Replay(_, _) => ReplayKeepsBasics(s, e);
    case CancelJob(_) => OutsideKeepsBasics(s, e);
    case Drop(_, _) => OutsideKeepsBasics(s, e);
    case Elsewhere(_, _) => OutsideKeepsBasics(s, e);
    case _ => LookKeepsBasics(s, e);
  }

  lemma RecordKeepsInv(s: World, e: Event)
    requires Inv(s) && e.Record?
    ensures Inv(Apply(s, e, true))
  {
    if e.eventType in SUPPORTED_EVENTS && e.project.Some? && e.project.value in s.db.projects {
      var started := s.(db := EventInserted(s.db, e.project.value));
      forall d ensures Sound(started, d) {
        assert Sound(s, d);
        SoundIfTokensKept(s, started, d);
      }
      AllDeliveries(started, s.db.webhooks, s.db.nextEvent, e.project.value, e.eventType);
    }
  }

  lemma StepKeepsInv(s: World, e: Event)
    requires Inv(s) && Enabled(s, e, true)
    ensures Inv(Apply(s, e, true))
  {
    if e.Record? {
      RecordKeepsInv(s, e);
    } else {
      StepKeepsBasics(s, e);
      forall d ensures Sound(Apply(s, e, true), d) {
        assert Sound(s, d);
        StepKeepsSound(s, e, d);
      }
    }
  }

  lemma {:induction false} OutboxInvariant(run: seq<Event>)
    requires Valid(run, true)
    ensures Inv(After(run, true))
    decreases |run|
  {
    if run != [] {
      OutboxInvariant(run[..|run| - 1]);
      StepKeepsInv(After(run[..|run| - 1], true), run[|run| - 1]);
    } else {
      forall d ensures Sound(Start, d) {}
    }
  }
}
