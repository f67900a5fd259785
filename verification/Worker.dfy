/** run_once: claim one job, dispatch it by kind, settle its row. What a handler does outside the job
    and outbox tables is not modelled; what it reads there (answers of providers, rows selected) comes
    in as `Effects`, a free parameter of every step. */
module Worker {
  import opened Common
  import opened Jobs
  import opened Webhooks
  import Leases

  /** How the guarded part of run_once ended: the handler and complete() behind it. In the last case nothing
      settled the row: the process died, or a statement outside the guarded part raised. */
  datatype Outcome = Returned | RaisedValueError | RaisedOther | Lost

  datatype EventCall = EventCall(project: Option<ProjectId>, eventType: EventType)

  /** A record_event call that raises on its way: the event is in, with the deliveries and jobs of the first
      `hooks` webhooks, and if `bare` with one delivery more that has no job yet. */
  datatype TornCall = TornCall(call: EventCall, hooks: nat, bare: Option<WebhookId>)

  /** How far the handler got before anything raised. */
  datatype Reach = Begun | Halfway | Through

  /** Everything the handler of one job draws from outside the tables. */
  datatype Effects = Effects(
    outcome: Outcome,
    reach: Reach,                  // only looked at if the outcome is not Returned
    events: seq<EventCall>,        // record_event calls of the handler, in order
    torn: Option<TornCall>,        // the one that raised, its rows committed by what settles the job
    dreams: bool,                  // an LLM is configured and the document was ingested
    reindexes: seq<MemoryId>,      // items of a bulk job whose vector call failed
    delivered: bool,               // the webhook target accepted the delivery
    purgedJobs: set<JobId>,        // rows a purge had deleted when it raised
    project: Option<ProjectId>)

  /** The handler ran to its end. complete() may still have raised behind it. */
  predicate RanThrough(fx: Effects) {
    fx.outcome.Returned? || fx.reach.Through?
  }

  function RecordedAll(db: Db, calls: seq<EventCall>, now: Time): Db {
    if calls == [] then db else
    var before := RecordedAll(db, calls[..|calls| - 1], now);
    var c := calls[|calls| - 1];
    Recorded(before, c.project, c.eventType, now)
  }

  function RecordTorn(db: Db, torn: Option<TornCall>, now: Time): Db {
    if torn.None? || torn.value.call.eventType !in SUPPORTED_EVENTS then db
    else if torn.value.call.project.None? || torn.value.call.project.value !in db.projects then db else
    var project := torn.value.call.project.value;
    var some := FannedOutAll(EventInserted(db, project), db.webhooks[..Min(torn.value.hooks, |db.webhooks|)],
                             db.nextEvent, project, torn.value.call.eventType, now);
    if torn.value.bare.None? then some else DeliveryInserted(some, torn.value.bare.value, db.nextEvent, now)
  }

  function DeliveryInserted(db: Db, hook: WebhookId, event: EventId, now: Time): Db {
    db.(deliveries := db.deliveries[db.nextDelivery := Delivery(event, hook, Pending, 0, Some(now))],
        nextDelivery := db.nextDelivery + 1)
  }

  /** The record_event calls of a handler, the last of which may have raised. */
  function EventsRecorded(db: Db, fx: Effects, now: Time): Db {
    RecordTorn(RecordedAll(db, fx.events, now), fx.torn, now)
  }

  function Spawned(db: Db, work: Work, project: Option<ProjectId>, now: Time): Db {
    db.(jobs := Enqueued(db.jobs, db.nextJob, work, project, now, 0.0), nextJob := db.nextJob + 1)
  }

  function ReindexesSpawned(db: Db, memories: seq<MemoryId>, project: Option<ProjectId>, now: Time): Db {
    if memories == [] then db else
    Spawned(ReindexesSpawned(db, memories[..|memories| - 1], project, now), ReindexMemory(memories[|memories| - 1]),
      project, now)
  }

  function HooksOutside(hooks: seq<Webhook>, project: ProjectId): seq<Webhook> {
    if hooks == [] then [] else
    HooksOutside(hooks[..|hooks| - 1], project) + if hooks[|hooks| - 1].project == project then []
      else [hooks[|hooks| - 1]]
  }

  /** purge_project of a project that is still there: every other job of the project goes, and with its webhooks
      and events their deliveries. */
  function ProjectPurged(db: Db, project: ProjectId, preserve: JobId): Db {
    db.(jobs := map j | j in db.jobs && (j == preserve || db.jobs[j].project != Some(project)) :: db.jobs[j],
        deliveries := map d | d in db.deliveries && (db.deliveries[d].event in db.events ==>
          db.events[db.deliveries[d].event] != project) :: db.deliveries[d],
        events := map e | e in db.events && db.events[e] != project :: db.events[e],
        webhooks := HooksOutside(db.webhooks, project),
        projects := db.projects - {project})
  }

  /** A purge that raises on its way through the tables: webhooks and their deliveries are gone, and some of
      the project's jobs. */
  function PartlyPurged(db: Db, project: ProjectId, preserve: JobId, purgedJobs: set<JobId>): Db {
    db.(jobs := map j | j in db.jobs && (j == preserve || db.jobs[j].project != Some(project) || j !in purgedJobs)
                  :: db.jobs[j],
        deliveries := map d | d in db.deliveries && !HookOf(db.webhooks, db.deliveries[d].webhook, project)
                        :: db.deliveries[d],
        webhooks := HooksOutside(db.webhooks, project))
  }

  predicate HookOf(hooks: seq<Webhook>, hook: WebhookId, project: ProjectId) {
    exists h | h in hooks :: h.id == hook && h.project == project
  }

  function PurgeHandled(db: Db, project: ProjectId, preserve: JobId, fx: Effects): Db {
    if project !in db.projects then db
    else if RanThrough(fx) then ProjectPurged(db, project, preserve)
    else if fx.reach.Halfway? then PartlyPurged(db, project, preserve, fx.purgedJobs)
    else db
  }

  /** deliver_delivery; halfway, its outcome is committed and its retry is not. */
  function DeliveryHandled(db: Db, d: DeliveryId, fx: Effects, maxAttempts: nat, now: Time): Db {
    if RanThrough(fx) then Attempted(db, d, fx.project, fx.delivered, maxAttempts, now)
    else if fx.reach.Halfway? && Judge(db, d, now) == Due then
      AttemptMarked(db, d, db.deliveries[d].attempts + 1, false, maxAttempts, now)
    else db
  }

  /** The handler of job j, which is running. Whether it raises or not, it has done as much as fx says. */
  function Dispatched(db: Db, j: JobId, fx: Effects, maxAttempts: nat, now: Time): Db
    requires j in db.jobs
  {
    match db.jobs[j].work
    case Ingest =>
      EventsRecorded(if fx.dreams then Spawned(db, Dream, fx.project, now) else db, fx, now)
    case Dream => EventsRecorded(db, fx, now)
    case DeleteAllMemories => EventsRecorded(db, fx, now)
    case BulkMemories => ReindexesSpawned(EventsRecorded(db, fx, now), fx.reindexes, fx.project, now)
    case DeliverWebhook(d) => DeliveryHandled(db, d, fx, maxAttempts, now)
    case PurgeProject(p) => PurgeHandled(db, p, j, fx)
    case ReindexMemory(_) => db
    case Backfill => db
    case UnknownKind => db
  }

  function OutcomeOf(work: Work, outcome: Outcome): Outcome {
    if work == UnknownKind && !outcome.Lost? then RaisedValueError else outcome
  }

  /** How run_once settles row j, given the row as it was claimed: unknown kinds raise ValueError, which
      is never retried. */
  function SettledRows(rows: Rows, j: JobId, job: Job, outcome: Outcome): Rows {
    match OutcomeOf(job.work, outcome)
    case Lost => rows
    case Returned => Closed(rows, j, Done)
    case RaisedValueError => Closed(rows, j, Failed)
    case RaisedOther => if job.attempts >= Leases.MAX_ATTEMPTS then Closed(rows, j, Failed) else Requeued(rows, j, 0.0)
  }

  /** One whole run_once on the job j that claim() picked. */
  function RanOnce(db: Db, j: JobId, worker: WorkerId, ttl: int, fx: Effects, maxAttempts: nat, now: Time): Db
    requires j in db.jobs
  {
    var claimed := db.(jobs := Heartbeaten(Claimed(db.jobs, j, worker, now, ttl), j, now, ttl));
    var done := Dispatched(claimed, j, fx, maxAttempts, now);
    done.(jobs := SettledRows(done.jobs, j, claimed.jobs[j], fx.outcome))
  }

  // ---------------------------------------------------------------- what a handler leaves alone

  /** Kinds by what they can spawn: a job only ever spawns jobs of higher rank, except that a delivery
      job spawns its own retry. */
  function Rank(work: Work): (rank: nat)
    ensures rank <= 3
  {
    match work
    case Ingest => 0
    case Dream => 1
    case DeleteAllMemories => 2
    case BulkMemories => 2
    case _ => 3
  }

  /** Old rows and deliveries unchanged; new rows are queued jobs of rank `least` or higher. */
  ghost predicate Grows(db: Db, r: Db, least: nat) {
    && db.nextJob <= r.nextJob
    && (forall k | k in db.jobs :: k in r.jobs && r.jobs[k] == db.jobs[k])
    && (forall k | k in r.jobs && k !in db.jobs :: db.nextJob <= k < r.nextJob && Rank(r.jobs[k].work) >= least &&
         r.jobs[k].status == Queued)
    && (forall d | d in db.deliveries :: d in r.deliveries && r.deliveries[d] == db.deliveries[d])
    && (forall d | d in r.deliveries && d !in db.deliveries :: db.nextDelivery <= d)
    && db.nextDelivery <= r.nextDelivery
  }

  ghost predicate Fresh(db: Db) {
    && (forall j | j in db.jobs :: j < db.nextJob)
    && (forall d | d in db.deliveries :: d < db.nextDelivery)
    && (forall j | j in db.jobs && db.jobs[j].work.DeliverWebhook? :: db.jobs[j].work.delivery < db.nextDelivery)
  }

  lemma {:induction false} FanOutGrows(db: Db, hooks: seq<Webhook>, event: EventId, project: ProjectId,
      eventType: EventType, now: Time)
    requires Fresh(db)
    ensures var r := FannedOutAll(db, hooks, event, project, eventType, now); Fresh(r) && Grows(db, r, 3)
    decreases |hooks|
  {
    if hooks != [] {
      FanOutGrows(db, hooks[..|hooks| - 1], event, project, eventType, now);
    }
  }

  lemma {:induction false} EventsGrow(db: Db, calls: seq<EventCall>, now: Time)
    requires Fresh(db)
    ensures var r := RecordedAll(db, calls, now); Fresh(r) && Grows(db, r, 3)
    decreases |calls|
  {
    if calls != [] {
      EventsGrow(db, calls[..|calls| - 1], now);
      var before := RecordedAll(db, calls[..|calls| - 1], now);
      var c := calls[|calls| - 1];
      if c.project.Some? && c.project.value in before.projects {
        var started := EventInserted(before, c.project.value);
        FanOutGrows(started, before.webhooks, before.nextEvent, c.project.value, c.eventType, now);
      }
    }
  }

  lemma DeliveryGrows(db: Db, hook: WebhookId, event: EventId, now: Time)
    requires Fresh(db)
    ensures var r := DeliveryInserted(db, hook, event, now); Fresh(r) && Grows(db, r, 3)
  {}

  lemma TornGrows(db: Db, torn: Option<TornCall>, now: Time)
    requires Fresh(db)
    ensures var r := RecordTorn(db, torn, now); Fresh(r) && Grows(db, r, 3)
  {
    if torn.Some? && torn.value.call.project.Some? && torn.value.call.project.value in db.projects {
      var project, hooks := torn.value.call.project.value, db.webhooks[..Min(torn.value.hooks, |db.webhooks|)];
      var started := EventInserted(db, project);
      assert Fresh(started);
      FanOutGrows(started, hooks, db.nextEvent, project, torn.value.call.eventType, now);
      var some := FannedOutAll(started, hooks, db.nextEvent, project, torn.value.call.eventType, now);
      if torn.value.bare.Some? {
        DeliveryGrows(some, torn.value.bare.value, db.nextEvent, now);
      }
      assert Grows(started, some, 3);
    }
  }

  lemma AllEventsGrow(db: Db, fx: Effects, now: Time)
    requires Fresh(db)
    ensures var r := EventsRecorded(db, fx, now); Fresh(r) && Grows(db, r, 3)
  {
    EventsGrow(db, fx.events, now);
    TornGrows(RecordedAll(db, fx.events, now), fx.torn, now);
  }

  lemma SpawnGrows(db: Db, r: Db, work: Work, project: Option<ProjectId>, now: Time)
    requires Fresh(r) && Grows(db, r, 3) && Rank(work) == 3 && !work.DeliverWebhook?
    ensures Fresh(Spawned(r, work, project, now)) && Grows(db, Spawned(r, work, project, now), 3)
  {}

  lemma {:induction false} ReindexesGrow(db: Db, memories: seq<MemoryId>, project: Option<ProjectId>, now: Time)
    requires Fresh(db)
    ensures var r := ReindexesSpawned(db, memories, project, now);
            Fresh(r) && Grows(db, r, 3)
    decreases |memories|
  {
    if memories != [] {
      var front, last := memories[..|memories| - 1], memories[|memories| - 1];
      ReindexesGrow(db, front, project, now);
      SpawnGrows(db, ReindexesSpawned(db, front, project, now), ReindexMemory(last), project, now);
    }
  }

  // ---------------------------------------------------------------- what a handler does

  /** One record_event call leads from s to t. */
  ghost predicate OneEvent(s: Db, t: Db, call: EventCall, now: Time) {
    if call.eventType in SUPPORTED_EVENTS && call.project.Some? && call.project.value in s.projects
    then EventRecorded(s, t, call.project.value, call.eventType, now) else t == s
  }

  /** The tables between the calls, one after the other. */
  ghost predicate EventChain(states: seq<Db>, calls: seq<EventCall>, now: Time) {
    && |states| == |calls| + 1
    && forall i | 0 <= i < |calls| :: OneEvent(states[i], states[i + 1], calls[i], now)
  }

  /** The call that raised: its event is in, and the first subscribers are told of it; of the next one there may be
      a delivery that has no job yet. */
  ghost predicate TornIn(s: Db, r: Db, torn: Option<TornCall>, now: Time) {
    if torn.Some? && torn.value.call.eventType in SUPPORTED_EVENTS && torn.value.call.project.Some? &&
      torn.value.call.project.value in s.projects
    then exists mid, at :: ToldInPart(s, mid, r, torn.value, at, now)
    else r == s
  }

  ghost predicate ToldInPart(s: Db, mid: Db, r: Db, torn: TornCall, at: seq<nat>, now: Time)
    requires torn.call.project.Some?
  {
    var project, hooks := torn.call.project.value, s.webhooks[..Min(torn.hooks, |s.webhooks|)];
    && AreSubscribers(hooks, at, project, torn.call.eventType)
    && Told(s.(events := s.events[s.nextEvent := project], nextEvent := s.nextEvent + 1), mid, hooks, at, s.nextEvent,
            project, now)
    && match torn.bare
       case None => r == mid
       case Some(hook) =>
         r == mid.(deliveries := mid.deliveries[mid.nextDelivery := Delivery(s.nextEvent, hook, Pending, 0, Some(now))],
                   nextDelivery := mid.nextDelivery + 1)
  }

  ghost predicate EventsIn(db: Db, r: Db, fx: Effects, now: Time) {
    exists states :: EventChain(states, fx.events, now) && states[0] == db &&
      TornIn(states[|fx.events|], r, fx.torn, now)
  }

  lemma {:induction false} AllRecordedIs(db: Db, calls: seq<EventCall>, now: Time) returns (states: seq<Db>)
    ensures EventChain(states, calls, now) && states[0] == db && states[|calls|] == RecordedAll(db, calls, now)
    decreases |calls|
  {
    if calls == [] {
      states := [db];
    } else {
      var front, c := calls[..|calls| - 1], calls[|calls| - 1];
      var before := AllRecordedIs(db, front, now);
      RecordedIs(before[|front|], c.project, c.eventType, now);
      states := before + [RecordedAll(db, calls, now)];
      forall i | 0 <= i < |calls| ensures OneEvent(states[i], states[i + 1], calls[i], now) {
        if i < |front| { assert OneEvent(before[i], before[i + 1], front[i], now); }
      }
    }
  }

  lemma RecordTornIs(db: Db, torn: Option<TornCall>, now: Time)
    ensures TornIn(db, RecordTorn(db, torn, now), torn, now)
  {
    if torn.Some? && torn.value.call.project.Some? && torn.value.call.project.value in db.projects {
      var project, hooks := torn.value.call.project.value, db.webhooks[..Min(torn.value.hooks, |db.webhooks|)];
      var started, eventType := EventInserted(db, project), torn.value.call.eventType;
      var at := FanOutTells(started, hooks, db.nextEvent, project, eventType, now);
      var mid := FannedOutAll(started, hooks, db.nextEvent, project, eventType, now);
      if eventType in SUPPORTED_EVENTS {
        assert ToldInPart(db, mid, RecordTorn(db, torn, now), torn.value, at, now);
      }
    }
  }

  lemma EventsRecordedIs(db: Db, fx: Effects, now: Time)
    ensures EventsIn(db, EventsRecorded(db, fx, now), fx, now)
  {
    var states := AllRecordedIs(db, fx.events, now);
    RecordTornIs(states[|fx.events|], fx.torn, now);
  }

  function QueuedJob(work: Work, project: Option<ProjectId>, now: Time): Job {
    Job(work, project, Queued, 0, None, now, 0.0, 0.0, None)
  }

  ghost predicate ReindexAt(first: JobId, r: Db, memories: seq<MemoryId>, i: nat, project: Option<ProjectId>,
      now: Time)
  {
    && i < |memories| && first + i in r.jobs
    && r.jobs[first + i] == QueuedJob(ReindexMemory(memories[i]), project, now)
  }

  /** From db to r every memory listed was given a reindex job, in order. */
  ghost predicate ReindexesIn(db: Db, r: Db, memories: seq<MemoryId>, project: Option<ProjectId>, now: Time) {
    && r == db.(jobs := r.jobs, nextJob := db.nextJob + |memories|)
    && (forall i: nat | i < |memories| :: ReindexAt(db.nextJob, r, memories, i, project, now))
    && (forall j | j < db.nextJob || j >= r.nextJob ::
         (j in r.jobs <==> j in db.jobs) && (j in r.jobs ==> r.jobs[j] == db.jobs[j]))
  }

  lemma {:induction false} ReindexesSpawnedIs(db: Db, memories: seq<MemoryId>, project: Option<ProjectId>, now: Time)
    ensures ReindexesIn(db, ReindexesSpawned(db, memories, project, now), memories, project, now)
    decreases |memories|
  {
    if memories != [] {
      var front := memories[..|memories| - 1];
      ReindexesSpawnedIs(db, front, project, now);
      forall i: nat | i < |memories|
        ensures ReindexAt(db.nextJob, ReindexesSpawned(db, memories, project, now), memories, i, project, now)
      {
        if i < |front| {
          assert ReindexAt(db.nextJob, ReindexesSpawned(db, front, project, now), front, i, project, now);
        }
      }
    }
  }

  /** From db to r the project is purged: its other jobs, its webhooks, its events and their deliveries. */
  ghost predicate Purged(db: Db, r: Db, project: ProjectId, preserve: JobId) {
    && r == db.(jobs := r.jobs, deliveries := r.deliveries, events := r.events, webhooks := r.webhooks,
                projects := db.projects - {project})
    && JobsKept(db, r, project, preserve, (set j | j in db.jobs))
    && (forall e :: e in r.events <==> e in db.events && db.events[e] != project)
    && (forall e | e in r.events :: r.events[e] == db.events[e])
    && (forall d :: d in r.deliveries <==>
         d in db.deliveries && !(db.deliveries[d].event in db.events && db.events[db.deliveries[d].event] == project))
    && (forall d | d in r.deliveries :: r.deliveries[d] == db.deliveries[d])
    && OthersHooks(db.webhooks, r.webhooks, project)
  }

  /** Of the jobs given the project's are gone but for one. */
  ghost predicate JobsKept(db: Db, r: Db, project: ProjectId, preserve: JobId, gone: set<JobId>) {
    && (forall j :: j in r.jobs <==>
         j in db.jobs && !(j in gone && j != preserve && db.jobs[j].project == Some(project)))
    && (forall j | j in r.jobs :: r.jobs[j] == db.jobs[j])
  }

  /** The webhooks of other projects are left, in order. */
  ghost predicate OthersHooks(hooks: seq<Webhook>, left: seq<Webhook>, project: ProjectId) {
    exists at: seq<nat> :: LeftAt(hooks, left, at, project)
  }

  ghost predicate LeftAt(hooks: seq<Webhook>, left: seq<Webhook>, at: seq<nat>, project: ProjectId) {
    && |at| == |left| && (forall m, n | 0 <= m < n < |at| :: at[m] < at[n])
    && (forall i: nat :: i in at <==> i < |hooks| && hooks[i].project != project)
    && (forall n | 0 <= n < |at| :: at[n] < |hooks| && left[n] == hooks[at[n]])
  }

  lemma {:induction false} HooksOutsideAt(hooks: seq<Webhook>, project: ProjectId) returns (at: seq<nat>)
    ensures LeftAt(hooks, HooksOutside(hooks, project), at, project)
    decreases |hooks|
  {
    if hooks == [] {
      at := [];
    } else {
      var front, hook := hooks[..|hooks| - 1], hooks[|hooks| - 1];
      at := HooksOutsideAt(front, project);
      LeftOneMore(front, hook, HooksOutside(front, project), at, project);
      assert front + [hook] == hooks;
      if hook.project != project { at := at + [|front|]; }
    }
  }

  lemma LeftOneMore(front: seq<Webhook>, hook: Webhook, left: seq<Webhook>, at: seq<nat>, project: ProjectId)
    requires LeftAt(front, left, at, project)
    ensures if hook.project == project then LeftAt(front + [hook], left, at, project)
      else LeftAt(front + [hook], left + [hook], at + [|front|], project)
  {
    var all, more := front + [hook], at + [|front|];
    assert forall n | 0 <= n < |at| :: at[n] in at;
    assert all[|front|] == hook && forall i | 0 <= i < |front| :: all[i] == front[i];
    assert forall i: nat :: i in more <==> i in at || i == |front|;
  }

  /** From db to r a purge got through the webhooks with their deliveries, and through some of the jobs. */
  ghost predicate PurgedInPart(db: Db, r: Db, project: ProjectId, preserve: JobId, gone: set<JobId>) {
    && r == db.(jobs := r.jobs, deliveries := r.deliveries, webhooks := r.webhooks)
    && JobsKept(db, r, project, preserve, gone)
    && (forall d :: d in r.deliveries <==>
         d in db.deliveries && !exists h | h in db.webhooks :: h.id == db.deliveries[d].webhook && h.project == project)
    && (forall d | d in r.deliveries :: r.deliveries[d] == db.deliveries[d])
    && OthersHooks(db.webhooks, r.webhooks, project)
  }

  /** From db to r the delivery was attempted if it was due; halfway, its outcome is in and its retry is not. */
  ghost predicate DeliveryIn(db: Db, r: Db, d: DeliveryId, fx: Effects, maxAttempts: nat, now: Time) {
    if d !in db.deliveries || db.deliveries[d].status != Pending ||
      (db.deliveries[d].nextAttemptAt.Some? && db.deliveries[d].nextAttemptAt.value > now) then r == db
    else if RanThrough(fx) then AttemptDone(db, r, d, fx.project, fx.delivered, maxAttempts, now)
    else if fx.reach.Halfway? then
      && d in r.deliveries && RowAnswered(db.deliveries[d], r.deliveries[d], false, maxAttempts, now)
      && r == db.(deliveries := db.deliveries[d := r.deliveries[d]])
    else r == db
  }

  /** What the handler of job j, which is running, does to the tables. */
  ghost predicate HandledAs(db: Db, r: Db, j: JobId, fx: Effects, maxAttempts: nat, now: Time)
    requires j in db.jobs
  {
    match db.jobs[j].work
    case Ingest =>
      EventsIn(if fx.dreams then db.(jobs := db.jobs[db.nextJob := QueuedJob(Dream, fx.project, now)],
                                     nextJob := db.nextJob + 1) else db, r, fx, now)
    case Dream => EventsIn(db, r, fx, now)
    case DeleteAllMemories => EventsIn(db, r, fx, now)
    case BulkMemories =>
      exists mid :: EventsIn(db, mid, fx, now) && ReindexesIn(mid, r, fx.reindexes, fx.project, now)
    case DeliverWebhook(d) => DeliveryIn(db, r, d, fx, maxAttempts, now)
    case PurgeProject(p) =>
      if p !in db.projects then r == db
      else if RanThrough(fx) then Purged(db, r, p, j)
      else if fx.reach.Halfway? then PurgedInPart(db, r, p, j, fx.purgedJobs)
      else r == db
    case _ => r == db
  }

  lemma DeliveryHandledIs(db: Db, d: DeliveryId, fx: Effects, maxAttempts: nat, now: Time)
    ensures DeliveryIn(db, DeliveryHandled(db, d, fx, maxAttempts, now), d, fx, maxAttempts, now)
  {
    AttemptedIs(db, d, fx.project, fx.delivered, maxAttempts, now);
  }

  lemma ProjectPurgedIs(db: Db, project: ProjectId, preserve: JobId)
    ensures Purged(db, ProjectPurged(db, project, preserve), project, preserve)
  {
    var at := HooksOutsideAt(db.webhooks, project);
  }

  lemma PurgeHandledIs(db: Db, p: ProjectId, j: JobId, fx: Effects)
    requires p in db.projects
    ensures var r := PurgeHandled(db, p, j, fx);
      if RanThrough(fx) then Purged(db, r, p, j)
      else if fx.reach.Halfway? then PurgedInPart(db, r, p, j, fx.purgedJobs) else r == db
  {
    ProjectPurgedIs(db, p, j);
    var at := HooksOutsideAt(db.webhooks, p);
  }

  lemma DispatchedIs(db: Db, j: JobId, fx: Effects, maxAttempts: nat, now: Time)
    requires j in db.jobs
    ensures HandledAs(db, Dispatched(db, j, fx, maxAttempts, now), j, fx, maxAttempts, now)
  {
    EventsRecordedIs(db, fx, now);
    match db.jobs[j].work {
      case Ingest => EventsRecordedIs(Spawned(db, Dream, fx.project, now), fx, now);
      case BulkMemories => ReindexesSpawnedIs(EventsRecorded(db, fx, now), fx.reindexes, fx.project, now);
      case DeliverWebhook(d) => DeliveryHandledIs(db, d, fx, maxAttempts, now);
      case PurgeProject(p) => if p in db.projects { PurgeHandledIs(db, p, j, fx); }
      case _ =>
    }
  }

  // ---- The row of the job itself ----

  /** How run_once leaves the row of its job: done if the handler returned, failed if it raised ValueError or knew no
      such kind, else queued again until the third attempt, and failed then; still running if nothing settled it. */
  predicate RowSettled(was: Job, row: Job, worker: WorkerId, ttl: int, outcome: Outcome, now: Time) {
    var claimed := was.(status := Running, worker := Some(worker), attempts := was.attempts + 1,
                        leaseExpiresAt := now + ttl as real, heartbeatAt := Some(now));
    var over := claimed.(leaseExpiresAt := 0.0, heartbeatAt := None);
    if outcome.Lost? then row == claimed
    else if was.work == UnknownKind || outcome.RaisedValueError? then row == over.(status := Failed)
    else if outcome.Returned? then row == over.(status := Done)
    else if was.attempts + 1 >= 3 then row == over.(status := Failed)
    else row == over.(status := Queued, worker := None, runAfter := 0.0)
  }

  ghost predicate KeepsRow(db: Db, r: Db, j: JobId) {
    j in db.jobs && j in r.jobs && r.jobs[j] == db.jobs[j] && db.nextJob <= r.nextJob
  }

  lemma {:induction false} EventsKeepRow(db: Db, calls: seq<EventCall>, now: Time, j: JobId)
    requires j in db.jobs && j < db.nextJob
    ensures KeepsRow(db, RecordedAll(db, calls, now), j)
    decreases |calls|
  {
    if calls != [] {
      var front, c := calls[..|calls| - 1], calls[|calls| - 1];
      EventsKeepRow(db, front, now, j);
      RecordedIs(RecordedAll(db, front, now), c.project, c.eventType, now);
    }
  }

  lemma AllEventsKeepRow(db: Db, fx: Effects, now: Time, j: JobId)
    requires j in db.jobs && j < db.nextJob
    ensures KeepsRow(db, EventsRecorded(db, fx, now), j)
  {
    EventsKeepRow(db, fx.events, now, j);
    RecordTornIs(RecordedAll(db, fx.events, now), fx.torn, now);
  }

  /** A handler leaves rows that are not queued alone, but for those that a purge deletes, and never deletes the row
      of its own job. */
  lemma HandlerKeepsRow(db: Db, j: JobId, fx: Effects, maxAttempts: nat, now: Time, k: JobId)
    requires j in db.jobs && k in db.jobs && k < db.nextJob && db.jobs[k].status != Queued
    ensures var r := Dispatched(db, j, fx, maxAttempts, now); KeepsRow(db, r, k) || (k != j && k !in r.jobs)
  {
    match db.jobs[j].work {
      case Ingest => AllEventsKeepRow(if fx.dreams then Spawned(db, Dream, fx.project, now) else db, fx, now, k);
      case Dream => AllEventsKeepRow(db, fx, now, k);
      case DeleteAllMemories => AllEventsKeepRow(db, fx, now, k);
      case BulkMemories =>
        AllEventsKeepRow(db, fx, now, k);
        ReindexesSpawnedIs(EventsRecorded(db, fx, now), fx.reindexes, fx.project, now);
      case DeliverWebhook(d) => AttemptedIs(db, d, fx.project, fx.delivered, maxAttempts, now);
      case _ =>
    }
  }

  /** From db to r one run_once happened: the job's row was claimed, its handler did its part, and the row was
      settled; everything else is as the handler left it. */
  ghost predicate RanAs(db: Db, r: Db, j: JobId, worker: WorkerId, ttl: int, fx: Effects, maxAttempts: nat, now: Time)
    requires j in db.jobs
  {
    exists mid :: HandledAndSettled(db, mid, r, j, worker, ttl, fx, maxAttempts, now)
  }

  ghost predicate HandledAndSettled(db: Db, mid: Db, r: Db, j: JobId, worker: WorkerId, ttl: int, fx: Effects,
      maxAttempts: nat, now: Time)
    requires j in db.jobs
  {
    var claimed := db.jobs[j].(status := Running, worker := Some(worker), attempts := db.jobs[j].attempts + 1,
                               leaseExpiresAt := now + ttl as real, heartbeatAt := Some(now));
    && HandledAs(db.(jobs := db.jobs[j := claimed]), mid, j, fx, maxAttempts, now)
    && j in r.jobs && r == mid.(jobs := mid.jobs[j := r.jobs[j]])
    && RowSettled(db.jobs[j], r.jobs[j], worker, ttl, fx.outcome, now)
  }

  lemma RanOnceIs(db: Db, j: JobId, worker: WorkerId, ttl: int, fx: Effects, maxAttempts: nat, now: Time)
    requires j in db.jobs && j < db.nextJob
    ensures RanAs(db, RanOnce(db, j, worker, ttl, fx, maxAttempts, now), j, worker, ttl, fx, maxAttempts, now)
  {
    var claimed := db.(jobs := Heartbeaten(Claimed(db.jobs, j, worker, now, ttl), j, now, ttl));
    var row := db.jobs[j].(status := Running, worker := Some(worker), attempts := db.jobs[j].attempts + 1,
                           leaseExpiresAt := now + ttl as real, heartbeatAt := Some(now));
    assert claimed.jobs[j] == row;
    assert claimed.jobs == db.jobs[j := row];
    var mid := Dispatched(claimed, j, fx, maxAttempts, now);
    DispatchedIs(claimed, j, fx, maxAttempts, now);
    HandlerKeepsRow(claimed, j, fx, maxAttempts, now, j);
    RowIsSettled(mid.jobs, j, db.jobs[j], worker, ttl, fx.outcome, now);
    assert HandledAndSettled(db, mid, RanOnce(db, j, worker, ttl, fx, maxAttempts, now), j, worker, ttl, fx,
      maxAttempts, now);
  }

  lemma RowIsSettled(rows: Rows, j: JobId, was: Job, worker: WorkerId, ttl: int, outcome: Outcome, now: Time)
    requires j in rows
    requires rows[j] == was.(status := Running, worker := Some(worker), attempts := was.attempts + 1,
                             leaseExpiresAt := now + ttl as real, heartbeatAt := Some(now))
    ensures var r := SettledRows(rows, j, rows[j], outcome);
      j in r && r == rows[j := r[j]] && RowSettled(was, r[j], worker, ttl, outcome, now)
  {}

  // ---------------------------------------------------------------- the worker in place

  lemma RowsPurged(db: Db, project: ProjectId, preserve: JobId, gone: set<EventId>)
    requires gone == set e | e in db.events && db.events[e] == project
    ensures ProjectPurged(db, project, preserve).deliveries ==
      map d | d in db.deliveries && db.deliveries[d].event !in gone :: db.deliveries[d]
    ensures ProjectPurged(db, project, preserve).jobs ==
      map j | j in db.jobs && !(j != preserve && db.jobs[j].project == Some(project)) :: db.jobs[j]
  {}

  class WorkerProcess {
    const id: WorkerId
    const ttl: int
    const maxAttempts: nat
    const outbox: Outbox

    constructor (id: WorkerId, ttl: int, maxAttempts: nat, outbox: Outbox)
      ensures this.id == id && this.ttl == ttl && this.maxAttempts == maxAttempts && this.outbox == outbox
    {
      this.id, this.ttl, this.maxAttempts, this.outbox := id, ttl, maxAttempts, outbox;
    }

    method RecordAll(calls: seq<EventCall>, now: Time)
      requires outbox.queue.Valid()
      modifies outbox, outbox.queue
      ensures outbox.queue.Valid() && outbox.State() == RecordedAll(old(outbox.State()), calls, now)
    {
      for i := 0 to |calls|
        invariant outbox.queue.Valid()
        invariant outbox.State() == RecordedAll(old(outbox.State()), calls[..i], now)
      {
        assert calls[..i + 1][..i] == calls[..i];
        var _ := outbox.RecordEvent(calls[i].project, calls[i].eventType, now);
      }
      assert calls[..|calls|] == calls;
    }

    /** record_event up to where it raised. */
    method RecordPart(torn: TornCall, now: Time)
      requires outbox.queue.Valid()
      modifies outbox, outbox.queue
      ensures outbox.queue.Valid() && outbox.State() == RecordTorn(old(outbox.State()), Some(torn), now)
    {
      if torn.call.eventType !in SUPPORTED_EVENTS || torn.call.project.None? ||
        torn.call.project.value !in outbox.projects {
        return;
      }
      var project := torn.call.project.value;
      var e := outbox.nextEvent;
      outbox.events, outbox.nextEvent := outbox.events[e := project], e + 1;
      outbox.FanOut(outbox.webhooks[..Min(torn.hooks, |outbox.webhooks|)], e, project, torn.call.eventType, now);
      if torn.bare.Some? {
        var _ := outbox.InsertDelivery(torn.bare.value, e, now);
      }
    }

    method RecordEvents(fx: Effects, now: Time)
      requires outbox.queue.Valid()
      modifies outbox, outbox.queue
      ensures outbox.queue.Valid() && outbox.State() == EventsRecorded(old(outbox.State()), fx, now)
    {
      RecordAll(fx.events, now);
      if fx.torn.Some? {
        RecordPart(fx.torn.value, now);
      }
    }

    method SpawnReindexes(memories: seq<MemoryId>, project: Option<ProjectId>, now: Time)
      requires outbox.queue.Valid()
      modifies outbox.queue
      ensures outbox.queue.Valid() && outbox.State() == ReindexesSpawned(old(outbox.State()), memories, project, now)
    {
      for i := 0 to |memories|
        invariant outbox.queue.Valid()
        invariant outbox.State() == ReindexesSpawned(old(outbox.State()), memories[..i], project, now)
      {
        assert memories[..i + 1][..i] == memories[..i];
        var _ := outbox.queue.Enqueue(ReindexMemory(memories[i]), project, None, now);
      }
      assert memories[..|memories|] == memories;
    }

    method PurgeProject(project: ProjectId, preserve: JobId)
      requires outbox.queue.Valid()
      modifies outbox, outbox.queue
      ensures outbox.queue.Valid() && outbox.State() == ProjectPurged(old(outbox.State()), project, preserve)
    {
      ghost var after := ProjectPurged(outbox.State(), project, preserve);
      var gone := set e | e in outbox.events && outbox.events[e] == project;
      RowsPurged(outbox.State(), project, preserve, gone);
      outbox.deliveries := map d | d in outbox.deliveries && outbox.deliveries[d].event !in gone ::
        outbox.deliveries[d];
      assert outbox.deliveries == after.deliveries;
      outbox.webhooks := HooksOutside(outbox.webhooks, project);
      outbox.queue.rows := map j | j in outbox.queue.rows &&
        !(j != preserve && outbox.queue.rows[j].project == Some(project)) :: outbox.queue.rows[j];
      assert outbox.queue.rows == after.jobs;
      outbox.events := map e | e in outbox.events && outbox.events[e] != project :: outbox.events[e];
      outbox.projects := outbox.projects - {project};
    }

    method PurgeUpTo(project: ProjectId, preserve: JobId, purgedJobs: set<JobId>)
      requires outbox.queue.Valid()
      modifies outbox, outbox.queue
      ensures outbox.queue.Valid()
      ensures outbox.State() == PartlyPurged(old(outbox.State()), project, preserve, purgedJobs)
    {
      outbox.deliveries := map d | d in outbox.deliveries &&
          !HookOf(outbox.webhooks, outbox.deliveries[d].webhook, project) :: outbox.deliveries[d];
      outbox.webhooks := HooksOutside(outbox.webhooks, project);
      outbox.queue.rows := map j | j in outbox.queue.rows &&
          !(j in purgedJobs && j != preserve && outbox.queue.rows[j].project == Some(project)) :: outbox.queue.rows[j];
    }

    method Dispatch(j: JobId, fx: Effects, now: Time)
      requires outbox.queue.Valid() && j in outbox.queue.rows
      modifies outbox, outbox.queue
      ensures outbox.queue.Valid() && outbox.State() == Dispatched(old(outbox.State()), j, fx, maxAttempts, now)
      ensures HandledAs(old(outbox.State()), outbox.State(), j, fx, maxAttempts, now)
    {
      DispatchedIs(outbox.State(), j, fx, maxAttempts, now);
      match outbox.queue.rows[j].work {
        case Ingest =>
          if fx.dreams {
            var _ := outbox.queue.Enqueue(Dream, fx.project, None, now);
          }
          RecordEvents(fx, now);
        case Dream => RecordEvents(fx, now);
        case DeleteAllMemories => RecordEvents(fx, now);
        case BulkMemories =>
          RecordEvents(fx, now);
          SpawnReindexes(fx.reindexes, fx.project, now);
        case DeliverWebhook(d) =>
          if RanThrough(fx) {
            var _ := outbox.DeliverDelivery(d, fx.project, fx.delivered, maxAttempts, now);
          } else if fx.reach.Halfway? && Judge(outbox.State(), d, now) == Due {
            var attempt := outbox.deliveries[d].attempts + 1;
            outbox.MarkDelivery(d, if attempt >= maxAttempts then Dead else Pending, attempt,
                                if attempt >= maxAttempts then None else Some(now + Backoff(attempt) as real));
          }
        case PurgeProject(p) =>
          if p in outbox.projects {
            if RanThrough(fx) {
              PurgeProject(p, j);
            } else if fx.reach.Halfway? {
              PurgeUpTo(p, j, fx.purgedJobs);
            }
          }
        case ReindexMemory(_) =>
        case Backfill =>
        case UnknownKind =>
      }
    }

    method RunOnce(fx: Effects, now: Time) returns (ran: Option<JobId>)
      requires outbox.queue.Valid()
      modifies outbox, outbox.queue
      ensures outbox.queue.Valid()
      ensures ran.None? <==> forall j | j in old(outbox.queue.rows) :: !Claimable(old(outbox.queue.rows)[j], now)
      ensures ran.None? ==> outbox.State() == old(outbox.State())
      ensures ran.Some? ==>
                && IsNextClaim(old(outbox.queue.rows), ran.value, now)
                && outbox.State() == RanOnce(old(outbox.State()), ran.value, id, ttl, fx, maxAttempts, now)
      ensures ran.Some? ==> RanAs(old(outbox.State()), outbox.State(), ran.value, id, ttl, fx, maxAttempts, now)
    {
      ran := outbox.queue.Claim(id, now, ttl);
      if ran.None? {
        return;
      }
      var j := ran.value;
      RanOnceIs(old(outbox.State()), j, id, ttl, fx, maxAttempts, now);
      var job := outbox.queue.rows[j];
      var _ := outbox.queue.Heartbeat(j, now, ttl);
      Dispatch(j, fx, now);
      match OutcomeOf(job.work, fx.outcome) {
        case Lost =>
        case Returned => outbox.queue.Complete(j);
        case RaisedValueError => outbox.queue.Fail(j);
        case RaisedOther =>
          if job.attempts >= Leases.MAX_ATTEMPTS {
            outbox.queue.Fail(j);
          } else {
            outbox.queue.Requeue(j, None);
          }
      }
    }
  }
}
