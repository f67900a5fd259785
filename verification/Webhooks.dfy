/** The webhook outbox: events fan out to one delivery per subscribed webhook, and every delivery is
    worked off by jobs in the shared job table. The class Outbox runs the statements in place; the
    functions on Db say what each of them does to the tables. */
module Webhooks {
  import opened Common
  import opened Jobs

  type EventId = nat
  type WebhookId = nat
  type EventType = string

  const SUPPORTED_EVENTS: set<EventType> :=
    {"memory_add", "memory_update", "memory_delete", "memory_categorize", "ingest_job_completed",
     "ingest_job_partially_completed", "ingest_job_failed", "ingest_job_cancelled"}

  datatype DeliveryStatus = Pending | Succeeded | Dead   // Pending is the column value 'queued'

  datatype Delivery = Delivery(
    event: EventId,
    webhook: WebhookId,
    status: DeliveryStatus,
    attempts: nat,
    nextAttemptAt: Option<Time>)

  datatype Webhook = Webhook(id: WebhookId, project: ProjectId, eventTypes: set<EventType>, active: bool)

  datatype Db = Db(
    jobs: Rows,
    nextJob: JobId,
    deliveries: map<DeliveryId, Delivery>,
    nextDelivery: DeliveryId,
    events: map<EventId, ProjectId>,
    nextEvent: EventId,
    webhooks: seq<Webhook>,        // in the order the subscription query returns them
    projects: set<ProjectId>)

  // ---------------------------------------------------------------- statements

  function JobFor(d: DeliveryId): Work { DeliverWebhook(d) }

  predicate QueuedFor(jobs: Rows, j: JobId, d: DeliveryId) {
    j in jobs && jobs[j].work == JobFor(d) && jobs[j].status == Queued
  }

  predicate RunningFor(jobs: Rows, j: JobId, d: DeliveryId) {
    j in jobs && jobs[j].work == JobFor(d) && jobs[j].status == Running
  }

  function DeliveryJobEnqueued(db: Db, d: DeliveryId, project: Option<ProjectId>, now: Time, runAfter: Time): Db {
    db.(jobs := Enqueued(db.jobs, db.nextJob, JobFor(d), project, now, runAfter), nextJob := db.nextJob + 1)
  }

  predicate Subscribed(hook: Webhook, project: ProjectId, eventType: EventType) {
    hook.project == project && hook.active && eventType in hook.eventTypes
  }

  /** One webhook's share of record_event: a delivery due at once, and its job. */
  function FannedOut(db: Db, hook: Webhook, event: EventId, project: ProjectId, now: Time): Db {
    var d := db.nextDelivery;
    DeliveryJobEnqueued(
      db.(deliveries := db.deliveries[d := Delivery(event, hook.id, Pending, 0, Some(now))], nextDelivery := d + 1),
      d, Some(project), now, now)
  }

  function FannedOutAll(db: Db, hooks: seq<Webhook>, event: EventId, project: ProjectId, eventType: EventType,
      now: Time): Db
  {
    if hooks == [] then db else
    var before := FannedOutAll(db, hooks[..|hooks| - 1], event, project, eventType, now);
    var hook := hooks[|hooks| - 1];
    if Subscribed(hook, project, eventType) then FannedOut(before, hook, event, project, now) else before
  }

  /** record_event; unsupported events, and events of no project or of a project that is gone, leave no trace. */
  function Recorded(db: Db, project: Option<ProjectId>, eventType: EventType, now: Time): Db {
    if eventType !in SUPPORTED_EVENTS || project.None? || project.value !in db.projects then db else
    FannedOutAll(EventInserted(db, project.value), db.webhooks, db.nextEvent, project.value, eventType, now)
  }

  function EventInserted(db: Db, project: ProjectId): Db {
    db.(events := db.events[db.nextEvent := project], nextEvent := db.nextEvent + 1)
  }

  function Marked(db: Db, d: DeliveryId, status: DeliveryStatus, attempts: nat, next: Option<Time>): Db {
    if d in db.deliveries then
      db.(deliveries := db.deliveries[d := db.deliveries[d].(status := status, attempts := attempts,
        nextAttemptAt := next)])
    else db
  }

  function Pow2(n: nat): (r: nat)
    ensures 1 <= r
  {
    if n == 0 then 1 else 2 * Pow2(n - 1)
  }

  /** Seconds to the next attempt after attempt number `attempt` failed. */
  function Backoff(attempt: nat): (seconds: nat)
    ensures 1 <= seconds <= 3600
  {
    Min(3600, Pow2(attempt))
  }

  /** The order of `ORDER BY created_at, id`. */
  predicate Before(jobs: Rows, j: JobId, k: JobId)
    requires j in jobs && k in jobs
  {
    jobs[j].createdAt < jobs[k].createdAt || (jobs[j].createdAt == jobs[k].createdAt && j <= k)
  }

  predicate FirstQueuedFor(jobs: Rows, j: JobId, d: DeliveryId) {
    QueuedFor(jobs, j, d) && forall k | k in jobs && QueuedFor(jobs, k, d) :: Before(jobs, j, k)
  }

  predicate HasQueued(jobs: Rows, d: DeliveryId) {
    exists j | j in jobs :: QueuedFor(jobs, j, d)
  }

  ghost predicate IsFirst(jobs: Rows, ids: set<JobId>, j: JobId)
    requires ids <= jobs.Keys
  {
    j in ids && forall k | k in ids :: Before(jobs, j, k)
  }

  lemma {:induction false} FirstExists(jobs: Rows, ids: set<JobId>) returns (first: JobId)
    requires ids <= jobs.Keys && ids != {}
    ensures IsFirst(jobs, ids, first)
    decreases ids
  {
    var x :| x in ids;
    var rest := ids - {x};
    first := x;
    if rest != {} {
      var y := FirstExists(jobs, rest);
      first := if Before(jobs, x, y) then x else y;
    }
    forall k | k in ids ensures Before(jobs, first, k) {
      if k != x {
        assert k in rest;
      }
    }
  }

  lemma FirstQueuedExists(jobs: Rows, d: DeliveryId)
    requires HasQueued(jobs, d)
    ensures exists j | j in jobs :: FirstQueuedFor(jobs, j, d)
  {
    var ids := set j | j in jobs && QueuedFor(jobs, j, d);
    var i :| i in jobs && QueuedFor(jobs, i, d);
    assert i in ids;
    var j := FirstExists(jobs, ids);
    assert FirstQueuedFor(jobs, j, d);
  }

  function FirstQueued(jobs: Rows, d: DeliveryId): (j: JobId)
    requires HasQueued(jobs, d)
    ensures FirstQueuedFor(jobs, j, d)
  {
    FirstQueuedExists(jobs, d);
    var j :| j in jobs && FirstQueuedFor(jobs, j, d);
    j
  }

  function RetryScheduled(db: Db, d: DeliveryId, project: Option<ProjectId>, now: Time, runAt: Time): Db {
    if HasQueued(db.jobs, d) then
      var j := FirstQueued(db.jobs, d);
      var current := db.jobs[j].runAfter;
      db.(jobs := db.jobs[j := db.jobs[j].(runAfter := if current > 0.0 then MinTime(current, runAt) else runAt)])
    else
      DeliveryJobEnqueued(db, d, project, now, runAt)
  }

  /** What deliver_delivery decides before anything goes over the network. */
  datatype Verdict = NotFound | Settled | Deferred | Due

  function Judge(db: Db, d: DeliveryId, now: Time): Verdict {
    if d !in db.deliveries then NotFound
    else if db.deliveries[d].status != Pending then Settled
    else if db.deliveries[d].nextAttemptAt.Some? && db.deliveries[d].nextAttemptAt.value > now then Deferred
    else Due
  }

  /** The commit that records the outcome of attempt number `attempt`. */
  function AttemptMarked(db: Db, d: DeliveryId, attempt: nat, ok: bool, maxAttempts: nat, now: Time): Db {
    if ok then Marked(db, d, Succeeded, attempt, None)
    else if attempt >= maxAttempts then Marked(db, d, Dead, attempt, None)
    else Marked(db, d, Pending, attempt, Some(now + Backoff(attempt) as real))
  }

  /** A whole deliver_delivery with nothing in between its two commits. */
  function Attempted(db: Db, d: DeliveryId, project: Option<ProjectId>, ok: bool, maxAttempts: nat, now: Time): Db {
    if Judge(db, d, now) != Due then db else
    var attempt := db.deliveries[d].attempts + 1;
    var marked := AttemptMarked(db, d, attempt, ok, maxAttempts, now);
    if ok || attempt >= maxAttempts then marked
    else RetryScheduled(marked, d, project, now, now + Backoff(attempt) as real)
  }

  predicate Replayable(db: Db, d: DeliveryId) {
    && d in db.deliveries
    && db.deliveries[d].status in {Dead, Pending}
    && forall j | j in db.jobs :: !RunningFor(db.jobs, j, d)
  }

  function ReplayedJob(job: Job, now: Time): Job {
    job.(worker := None, attempts := 0, runAfter := now)
  }

  function OnlyFirst(jobs: Rows, d: DeliveryId, now: Time): Rows
    requires HasQueued(jobs, d)
  {
    var keep := FirstQueued(jobs, d);
    map j | j in jobs && (j == keep || !QueuedFor(jobs, j, d)) ::
      if j == keep then ReplayedJob(jobs[j], now) else jobs[j]
  }

  function Replayed(db: Db, d: DeliveryId, project: Option<ProjectId>, now: Time): Db {
    if !Replayable(db, d) then db else
    var reset := Marked(db, d, Pending, 0, None);
    if HasQueued(db.jobs, d) then
      reset.(jobs := OnlyFirst(db.jobs, d, now))
    else
      DeliveryJobEnqueued(reset, d, project, now, now)
  }

  // ---------------------------------------------------------------- what the statements amount to

  /** The wait doubles with every attempt until it is an hour. */
  lemma BackoffDoubles(attempt: nat)
    ensures Backoff(0) == 1 && Backoff(attempt + 1) == if Backoff(attempt) < 1800 then 2 * Backoff(attempt) else 3600
  {}

  /** `at` lists, in order, exactly the webhooks of the project that are active and want the event. */
  ghost predicate AreSubscribers(hooks: seq<Webhook>, at: seq<nat>, project: ProjectId, eventType: EventType) {
    && (forall m, n | 0 <= m < n < |at| :: at[m] < at[n])
    && (forall i: nat :: i in at <==>
         i < |hooks| && hooks[i].project == project && hooks[i].active && eventType in hooks[i].eventTypes)
  }

  /** From db to r each webhook listed was given one pending delivery, due at once, and that delivery one queued
      job; nothing else changed. */
  ghost predicate Told(db: Db, r: Db, hooks: seq<Webhook>, at: seq<nat>, event: EventId, project: ProjectId, now: Time)
  {
    && r == db.(deliveries := r.deliveries, nextDelivery := db.nextDelivery + |at|, jobs := r.jobs,
                nextJob := db.nextJob + |at|)
    && (forall n | 0 <= n < |at| :: ToldAt(db, r, hooks, at, n, event, project, now))
    && (forall d | d < db.nextDelivery || d >= r.nextDelivery ::
         (d in r.deliveries <==> d in db.deliveries) && (d in r.deliveries ==> r.deliveries[d] == db.deliveries[d]))
    && (forall j | j < db.nextJob || j >= r.nextJob ::
         (j in r.jobs <==> j in db.jobs) && (j in r.jobs ==> r.jobs[j] == db.jobs[j]))
  }

  ghost predicate ToldAt(db: Db, r: Db, hooks: seq<Webhook>, at: seq<nat>, n: nat, event: EventId, project: ProjectId,
      now: Time)
  {
    var d, j := db.nextDelivery + n, db.nextJob + n;
    && n < |at| && at[n] < |hooks|
    && d in r.deliveries && r.deliveries[d] == Delivery(event, hooks[at[n]].id, Pending, 0, Some(now))
    && j in r.jobs && r.jobs[j] == Job(DeliverWebhook(d), Some(project), Queued, 0, None, now, now, 0.0, None)
  }

  /** One webhook more is told, if it is subscribed. */
  lemma ToldOneMore(db: Db, before: Db, hooks: seq<Webhook>, hook: Webhook, at: seq<nat>, event: EventId,
      project: ProjectId, now: Time)
    requires Told(db, before, hooks, at, event, project, now)
    ensures Told(db, FannedOut(before, hook, event, project, now), hooks + [hook], at + [|hooks|], event, project, now)
    ensures Told(db, before, hooks + [hook], at, event, project, now)
  {
    var r, all, more := FannedOut(before, hook, event, project, now), hooks + [hook], at + [|hooks|];
    forall n: nat | n < |at| ensures ToldAt(db, r, all, more, n, event, project, now) &&
      ToldAt(db, before, all, at, n, event, project, now)
    {
      assert ToldAt(db, before, hooks, at, n, event, project, now);
    }
    assert ToldAt(db, r, all, more, |at|, event, project, now);
  }

  lemma OneMoreSubscriber(hooks: seq<Webhook>, hook: Webhook, at: seq<nat>, project: ProjectId, eventType: EventType)
    requires AreSubscribers(hooks, at, project, eventType)
    ensures if hook.project == project && hook.active && eventType in hook.eventTypes
      then AreSubscribers(hooks + [hook], at + [|hooks|], project, eventType)
      else AreSubscribers(hooks + [hook], at, project, eventType)
  {
    var all, more := hooks + [hook], at + [|hooks|];
    assert forall m | 0 <= m < |at| :: at[m] in at;
    assert all[|hooks|] == hook && forall i | 0 <= i < |hooks| :: all[i] == hooks[i];
    assert forall i: nat :: i in more <==> i in at || i == |hooks|;
  }

  /** The fan-out of an event reaches exactly its subscribers, each once and in order. */
  lemma {:induction false} FanOutTells(db: Db, hooks: seq<Webhook>, event: EventId, project: ProjectId,
      eventType: EventType, now: Time) returns (at: seq<nat>)
    ensures AreSubscribers(hooks, at, project, eventType)
    ensures Told(db, FannedOutAll(db, hooks, event, project, eventType, now), hooks, at, event, project, now)
    decreases |hooks|
  {
    if hooks == [] {
      at := [];
    } else {
      var front, hook := hooks[..|hooks| - 1], hooks[|hooks| - 1];
      assert hooks == front + [hook];
      at := FanOutTells(db, front, event, project, eventType, now);
      var before := FannedOutAll(db, front, event, project, eventType, now);
      ToldOneMore(db, before, front, hook, at, event, project, now);
      OneMoreSubscriber(front, hook, at, project, eventType);
      if Subscribed(hook, project, eventType) {
        at := at + [|front|];
      }
    }
  }

  /** A supported event of a known project is inserted, and exactly its subscribers are told. */
  ghost predicate EventRecorded(db: Db, r: Db, project: ProjectId, eventType: EventType, now: Time) {
    exists at :: AreSubscribers(db.webhooks, at, project, eventType) &&
      Told(db.(events := db.events[db.nextEvent := project], nextEvent := db.nextEvent + 1), r, db.webhooks, at,
           db.nextEvent, project, now)
  }

  lemma RecordedIs(db: Db, project: Option<ProjectId>, eventType: EventType, now: Time)
    ensures var r := Recorded(db, project, eventType, now);
      if eventType in SUPPORTED_EVENTS && project.Some? && project.value in db.projects
      then EventRecorded(db, r, project.value, eventType, now) else r == db
  {
    if eventType in SUPPORTED_EVENTS && project.Some? && project.value in db.projects {
      var at := FanOutTells(EventInserted(db, project.value), db.webhooks, db.nextEvent, project.value, eventType, now);
    }
  }

  /** A retry is in: the first queued job of the delivery comes no later than runAt, or else one new job then. */
  ghost predicate RetryIsIn(db: Db, r: Db, d: DeliveryId, project: Option<ProjectId>, now: Time, runAt: Time) {
    if exists j :: QueuedFor(db.jobs, j, d) then
      exists j :: MovedUp(db, r, j, d, runAt)
    else
      r == db.(nextJob := db.nextJob + 1,
               jobs := db.jobs[db.nextJob := Job(DeliverWebhook(d), project, Queued, 0, None, now, runAt, 0.0, None)])
  }

  /** j, the oldest queued job of the delivery, runs at the earlier of the two times, zero counting as none. */
  ghost predicate MovedUp(db: Db, r: Db, j: JobId, d: DeliveryId, runAt: Time) {
    && QueuedFor(db.jobs, j, d)
    && (forall k | QueuedFor(db.jobs, k, d) ::
         db.jobs[j].createdAt < db.jobs[k].createdAt || (db.jobs[j].createdAt == db.jobs[k].createdAt && j <= k))
    && var due := db.jobs[j].runAfter;
       r == db.(jobs := db.jobs[j := db.jobs[j].(runAfter := if 0.0 < due < runAt then due else runAt)])
  }

  lemma RetryScheduledIs(db: Db, d: DeliveryId, project: Option<ProjectId>, now: Time, runAt: Time)
    ensures RetryIsIn(db, RetryScheduled(db, d, project, now, runAt), d, project, now, runAt)
  {
    if HasQueued(db.jobs, d) {
      var j := FirstQueued(db.jobs, d);
      assert MovedUp(db, RetryScheduled(db, d, project, now, runAt), j, d, runAt);
    } else {
      assert forall j :: !QueuedFor(db.jobs, j, d);
    }
  }

  /** What an attempt makes of the row of its delivery. */
  predicate RowAnswered(row: Delivery, next: Delivery, ok: bool, maxAttempts: nat, now: Time) {
    && next.event == row.event && next.webhook == row.webhook && next.attempts == row.attempts + 1
    && (ok ==> next.status == Succeeded)
    && (!ok ==> next.status == if row.attempts + 1 >= maxAttempts then Dead else Pending)
    && next.nextAttemptAt ==
         if next.status == Pending then Some(now + Backoff(row.attempts + 1) as real) else None
  }

  /** From db to r the delivery was attempted: its row says how that went, and a job is there if and only if there
      is to be another attempt; no other delivery changed. */
  ghost predicate AttemptDone(db: Db, r: Db, d: DeliveryId, project: Option<ProjectId>, ok: bool, maxAttempts: nat,
      now: Time)
  {
    && d in db.deliveries && d in r.deliveries && RowAnswered(db.deliveries[d], r.deliveries[d], ok, maxAttempts, now)
    && var marked := db.(deliveries := db.deliveries[d := r.deliveries[d]]);
       if r.deliveries[d].status == Pending
       then RetryIsIn(marked, r, d, project, now, r.deliveries[d].nextAttemptAt.value)
       else r == marked
  }

  lemma AttemptedIs(db: Db, d: DeliveryId, project: Option<ProjectId>, ok: bool, maxAttempts: nat, now: Time)
    ensures Judge(db, d, now) == Due ==>
      AttemptDone(db, Attempted(db, d, project, ok, maxAttempts, now), d, project, ok, maxAttempts, now)
  {
    if Judge(db, d, now) == Due && !ok && db.deliveries[d].attempts + 1 < maxAttempts {
      var attempt := db.deliveries[d].attempts + 1;
      var marked := AttemptMarked(db, d, attempt, ok, maxAttempts, now);
      RetryScheduledIs(marked, d, project, now, now + Backoff(attempt) as real);
    }
  }

  /** From db to r delivery d starts over: its row is fresh, and job j is the only one queued for it, due at once,
      the oldest of those there were or else a new one; no other delivery and no other kind of job changed. */
  ghost predicate StartedOver(db: Db, r: Db, d: DeliveryId, j: JobId, project: Option<ProjectId>, now: Time) {
    && d in db.deliveries
    && r == db.(jobs := r.jobs, nextJob := r.nextJob,
                deliveries := db.deliveries[d := Delivery(db.deliveries[d].event, db.deliveries[d].webhook, Pending, 0,
                                                          None)])
    && j in r.jobs && (forall k | k in r.jobs && k != j :: k in db.jobs && r.jobs[k] == db.jobs[k])
    && (forall k | k in db.jobs && k != j :: k in r.jobs <==> !QueuedFor(db.jobs, k, d))
    && if exists k :: QueuedFor(db.jobs, k, d) then
         && r.nextJob == db.nextJob && QueuedFor(db.jobs, j, d)
         && (forall k | QueuedFor(db.jobs, k, d) ::
              db.jobs[j].createdAt < db.jobs[k].createdAt || (db.jobs[j].createdAt == db.jobs[k].createdAt && j <= k))
         && r.jobs[j] == db.jobs[j].(worker := None, attempts := 0, runAfter := now)
       else
         && j == db.nextJob && r.nextJob == j + 1
         && r.jobs[j] == Job(DeliverWebhook(d), project, Queued, 0, None, now, now, 0.0, None)
  }

  lemma ReplayedIs(db: Db, d: DeliveryId, project: Option<ProjectId>, now: Time)
    requires Replayable(db, d)
    ensures StartedOver(db, Replayed(db, d, project, now), d,
      if HasQueued(db.jobs, d) then FirstQueued(db.jobs, d) else db.nextJob, project, now)
  {
    if !HasQueued(db.jobs, d) {
      assert forall j :: !QueuedFor(db.jobs, j, d);
    }
  }

  /** What record_event answers; the first is its ValueError. */
  datatype RecordAnswer = Unsupported | NoProject | Event(id: EventId)

  class Outbox {
    const queue: JobTable
    var deliveries: map<DeliveryId, Delivery>
    var nextDelivery: DeliveryId
    var events: map<EventId, ProjectId>
    var nextEvent: EventId
    var webhooks: seq<Webhook>
    var projects: set<ProjectId>

    constructor (queue: JobTable, webhooks: seq<Webhook>, projects: set<ProjectId>)
      ensures this.queue == queue
      ensures State() == Db(queue.rows, queue.nextId, map[], 0, map[], 0, webhooks, projects)
    {
      this.queue := queue;
      deliveries, nextDelivery, events, nextEvent := map[], 0, map[], 0;
      this.webhooks, this.projects := webhooks, projects;
    }

    function State(): Db
      reads this, queue
    {
      Db(queue.rows, queue.nextId, deliveries, nextDelivery, events, nextEvent, webhooks, projects)
    }

    method EnqueueDeliveryJob(d: DeliveryId, project: Option<ProjectId>, runAfter: Time, now: Time) returns (id: JobId)
      requires queue.Valid()
      modifies queue
      ensures queue.Valid() && id == old(queue.nextId)
      ensures State() == DeliveryJobEnqueued(old(State()), d, project, now, runAfter)
    {
      id := queue.Enqueue(DeliverWebhook(d), project, Some(runAfter), now);
    }

    method InsertDelivery(hook: WebhookId, event: EventId, now: Time) returns (d: DeliveryId)
      modifies this`deliveries, this`nextDelivery
      ensures d == old(nextDelivery) && nextDelivery == d + 1
      ensures deliveries == old(deliveries)[d := Delivery(event, hook, Pending, 0, Some(now))]
    {
      d := nextDelivery;
      deliveries := deliveries[d := Delivery(event, hook, Pending, 0, Some(now))];
      nextDelivery := nextDelivery + 1;
    }

    /** The loop of record_event over the webhooks. */
    method FanOut(hooks: seq<Webhook>, event: EventId, project: ProjectId, eventType: EventType, now: Time)
      requires queue.Valid()
      modifies this`deliveries, this`nextDelivery, queue
      ensures queue.Valid() && State() == FannedOutAll(old(State()), hooks, event, project, eventType, now)
    {
      for i := 0 to |hooks|
        invariant queue.Valid()
        invariant State() == FannedOutAll(old(State()), hooks[..i], event, project, eventType, now)
      {
        assert hooks[..i + 1][..i] == hooks[..i];
        var hook := hooks[i];
        if hook.project == project && hook.active {
          if eventType in hook.eventTypes {
            var d := InsertDelivery(hook.id, event, now);
            var _ := EnqueueDeliveryJob(d, Some(project), now, now);
          }
        }
      }
      assert hooks[..|hooks|] == hooks;
    }

    method RecordEvent(project: Option<ProjectId>, eventType: EventType, now: Time) returns (answer: RecordAnswer)
      requires queue.Valid()
      modifies this, queue
      ensures queue.Valid()
      ensures State() == Recorded(old(State()), project, eventType, now)
      ensures answer == Unsupported <==> eventType !in SUPPORTED_EVENTS
      ensures answer.Event? <==> eventType in SUPPORTED_EVENTS && project.Some? && project.value in old(projects)
      ensures answer.Event? ==> answer.id == old(nextEvent)
      ensures answer.Event? ==> EventRecorded(old(State()), State(), project.value, eventType, now)
      ensures !answer.Event? ==> State() == old(State())
    {
      RecordedIs(State(), project, eventType, now);
      if eventType !in SUPPORTED_EVENTS {
        return Unsupported;
      }
      if project.None? {
        return NoProject;
      }
      if project.value !in projects {
        return NoProject;
      }
      var e := nextEvent;
      events, nextEvent := events[e := project.value], nextEvent + 1;
      FanOut(webhooks, e, project.value, eventType, now);
      answer := Event(e);
    }

    method MarkDelivery(d: DeliveryId, status: DeliveryStatus, attempts: nat, next: Option<Time>)
      modifies this`deliveries
      ensures State() == Marked(old(State()), d, status, attempts, next)
      ensures deliveries == if d !in old(deliveries) then old(deliveries) else
        old(deliveries)[d := Delivery(old(deliveries)[d].event, old(deliveries)[d].webhook, status, attempts, next)]
    {
      if d in deliveries {
        deliveries := deliveries[d := deliveries[d].(status := status, attempts := attempts, nextAttemptAt := next)];
      }
    }

    method ScheduleDeliveryRetry(d: DeliveryId, project: Option<ProjectId>, runAt: Time, now: Time)
      requires queue.Valid()
      modifies queue
      ensures queue.Valid() && State() == RetryScheduled(old(State()), d, project, now, runAt)
      ensures RetryIsIn(old(State()), State(), d, project, now, runAt)
    {
      RetryScheduledIs(State(), d, project, now, runAt);
      if HasQueued(queue.rows, d) {
        var j := FirstQueued(queue.rows, d);
        var current := queue.rows[j].runAfter;
        queue.rows := queue.rows[j := queue.rows[j].(runAfter := if current > 0.0 then MinTime(current, runAt)
          else runAt)];
      } else {
        var _ := EnqueueDeliveryJob(d, project, runAt, now);
      }
    }

    method RequeueOrDead(d: DeliveryId, project: Option<ProjectId>, attempt: nat, maxAttempts: nat, now: Time)
      returns (next: Option<Time>)
      requires queue.Valid()
      modifies this`deliveries, queue
      ensures queue.Valid()
      ensures next == if attempt >= maxAttempts then None else Some(now + Backoff(attempt) as real)
      ensures next.Some? ==> now < next.value <= now + 3600.0
      ensures var marked := AttemptMarked(old(State()), d, attempt, false, maxAttempts, now);
              State() == if next.None? then marked else RetryScheduled(marked, d, project, now, next.value)
    {
      var dead := attempt >= maxAttempts;
      next := if dead then None else Some(now + Min(3600, Pow2(attempt)) as real);
      MarkDelivery(d, if dead then Dead else Pending, attempt, next);
      if !dead && next.Some? {
        ScheduleDeliveryRetry(d, project, next.value, now);
      }
    }

    /** `ok`: the target resolved to an allowed address and answered 2xx within the size limit. */
    method DeliverDelivery(d: DeliveryId, project: Option<ProjectId>, ok: bool, maxAttempts: nat, now: Time)
      returns (verdict: Verdict)
      requires queue.Valid()
      modifies this`deliveries, queue
      ensures queue.Valid()
      ensures verdict == Judge(old(State()), d, now)
      ensures verdict == NotFound <==> d !in old(deliveries)
      ensures verdict == Settled <==> d in old(deliveries) && old(deliveries)[d].status in {Succeeded, Dead}
      ensures verdict == Due <==>
        d in old(deliveries) && old(deliveries)[d].status == Pending &&
        (old(deliveries)[d].nextAttemptAt.Some? ==> old(deliveries)[d].nextAttemptAt.value <= now)
      ensures State() == Attempted(old(State()), d, project, ok, maxAttempts, now)
      ensures verdict == Due ==> AttemptDone(old(State()), State(), d, project, ok, maxAttempts, now)
      ensures verdict != Due ==> State() == old(State())
    {
      AttemptedIs(State(), d, project, ok, maxAttempts, now);
      if d !in deliveries {
        return NotFound;
      }
      var row := deliveries[d];
      if row.status in {Succeeded, Dead} {
        return Settled;
      }
      if row.nextAttemptAt.Some? && row.nextAttemptAt.value > now {
        return Deferred;
      }
      Attempt(d, project, ok, maxAttempts, now);
      verdict := Due;
    }

    /** An attempt at a delivery that is due. */
    method Attempt(d: DeliveryId, project: Option<ProjectId>, ok: bool, maxAttempts: nat, now: Time)
      requires queue.Valid() && Judge(State(), d, now) == Due
      modifies this`deliveries, queue
      ensures queue.Valid() && State() == Attempted(old(State()), d, project, ok, maxAttempts, now)
    {
      var currentAttempt := deliveries[d].attempts + 1;
      if ok {
        MarkDelivery(d, Succeeded, currentAttempt, None);
      } else {
        var _ := RequeueOrDead(d, project, currentAttempt, maxAttempts, now);
      }
    }

    /** The first queued job of the delivery starts over, and the other queued ones are deleted. */
    method KeepFirst(d: DeliveryId, queued: set<JobId>, now: Time) returns (keep: JobId)
      requires queue.Valid() && HasQueued(queue.rows, d)
      requires queued == set j | j in queue.rows && QueuedFor(queue.rows, j, d)
      modifies queue`rows
      ensures queue.Valid() && keep == FirstQueued(old(queue.rows), d) && QueuedFor(queue.rows, keep, d)
      ensures queue.rows == OnlyFirst(old(queue.rows), d, now)
    {
      keep := FirstQueued(queue.rows, d);
      queue.rows := queue.rows[keep := queue.rows[keep].(status := Queued, worker := None, attempts := 0,
        runAfter := now)];
      queue.rows := queue.rows - (queued - {keep});
    }

    method ReplayDelivery(d: DeliveryId, project: Option<ProjectId>, now: Time) returns (job: Option<JobId>)
      requires queue.Valid()
      modifies this`deliveries, queue
      ensures queue.Valid()
      ensures job.Some? <==> Replayable(old(State()), d)
      ensures State() == Replayed(old(State()), d, project, now)
      ensures job.Some? ==> QueuedFor(queue.rows, job.value, d)
      ensures job.Some? <==>
        d in old(deliveries) && old(deliveries)[d].status != Succeeded &&
        forall j :: !RunningFor(old(queue.rows), j, d)
      ensures job.Some? ==> StartedOver(old(State()), State(), d, job.value, project, now)
      ensures job.None? ==> State() == old(State())
    {
      if Replayable(State(), d) {
        ReplayedIs(State(), d, project, now);
      }
      if d !in deliveries || deliveries[d].status !in {Dead, Pending} {
        return None;
      }
      if exists j | j in queue.rows :: RunningFor(queue.rows, j, d) {
        return None;
      }
      var queued := set j | j in queue.rows && QueuedFor(queue.rows, j, d);
      MarkDelivery(d, Pending, 0, None);
      if !HasQueued(queue.rows, d) {
        var id := EnqueueDeliveryJob(d, project, now, now);
        job := Some(id);
      } else {
        var keep := KeepFirst(d, queued, now);
        job := Some(keep);
      }
    }
  }
}
