/** What the outbox invariant means for deliveries: one live job, never early, restored by replay, and how a
    crash can strand one. */
module OutboxGuarantees {
  import opened Common
  import opened Jobs
  import opened Webhooks
  import opened OutboxRuns

  // ---------------------------------------------------------------- what every run guarantees

  /** The jobs that are not over yet for delivery d. */
  function LiveJobs(jobs: Rows, d: DeliveryId): set<JobId> {
    set j | j in jobs && jobs[j].work == JobFor(d) && Outstanding(jobs[j])
  }

  /** No worker stands between committing an outcome for d and completing its job. */
  predicate Settled(s: World, d: DeliveryId) {
    forall j | j in s.flights && s.flights[j].delivery == d :: BeforeCommit(s.flights[j].stage)
  }

  /** In every run, a delivery that is still pending has exactly one job left to bring it forward;
      between steps that job is the delivery's only live job. A delivery that is over has none. */
  lemma ExactlyOneLiveJob(run: seq<Event>, d: DeliveryId)
    requires Valid(run, true) && d in After(run, true).db.deliveries && d !in After(run, true).abandoned
    ensures var s := After(run, true);
            && |set j | j in s.db.jobs && Token(s, j, d)| == (if s.db.deliveries[d].status == Pending then 1 else 0)
            && (Settled(s, d) ==> |LiveJobs(s.db.jobs, d)| == if s.db.deliveries[d].status == Pending then 1 else 0)
  {
    OutboxInvariant(run);
    var s := After(run, true);
    assert Sound(s, d);
    var tokens := set j | j in s.db.jobs && Token(s, j, d);
    if s.db.deliveries[d].status == Pending {
      var j :| OnlyToken(s, j, d) && OnTime(s, j, d);
      assert tokens == {j};
    } else {
      assert tokens == {};
    }
    if Settled(s, d) {
      assert LiveJobs(s.db.jobs, d) == tokens;
    }
  }

  /** Whatever job of a delivery claim() may hand out, and whatever job a worker is about to read,
      the delivery is due: deliver_delivery does not answer "deferred". */
  lemma NeverDeferred(run: seq<Event>, j: JobId)
    requires Valid(run, true)
    requires var s := After(run, true);
             || (IsDelivery(s.db.jobs, j) && IsNextClaim(s.db.jobs, j, s.clock))
             || (j in s.db.jobs && Enabled(s, Look(j), true))
    ensures var s := After(run, true); var d := s.db.jobs[j].work;
            && d.DeliverWebhook?
            && (d.delivery !in s.abandoned ==> Judge(s.db, d.delivery, s.clock) != Deferred)
  {
    OutboxInvariant(run);
    var s := After(run, true);
    var d := s.db.jobs[j].work.delivery;
    assert Sound(s, d) && Token(s, j, d);
    if d in s.db.deliveries && d !in s.abandoned && s.db.deliveries[d].status == Pending {
      assert OnTime(s, j, d);
    }
  }

  /** replay_delivery, from any tables whatever: if no job of the delivery is running, a delivery that is
      not yet delivered ends with exactly one live job, and both are due at once; nothing else changes. */
  lemma ReplayRestores(db: Db, d: DeliveryId, project: Option<ProjectId>, now: Time)
    requires forall j | j in db.jobs :: j < db.nextJob
    ensures var r := Replayed(db, d, project, now);
            if Replayable(db, d) then
              && (exists k :: LiveJobs(r.jobs, d) == {k} && QueuedFor(r.jobs, k, d) && r.jobs[k].runAfter == now &&
                   r.jobs[k].attempts == 0)
              && Judge(r, d, now) == Due && r.deliveries[d].attempts == 0
              && r.deliveries == db.deliveries[d := r.deliveries[d]]
              && forall j | j in db.jobs && db.jobs[j].work != JobFor(d) :: j in r.jobs && r.jobs[j] == db.jobs[j]
            else r == db
  {
    if Replayable(db, d) {
      var r := Replayed(db, d, project, now);
      var k := if HasQueued(db.jobs, d) then FirstQueued(db.jobs, d) else db.nextJob;
      assert forall j | j in db.jobs && db.jobs[j].work == JobFor(d) && Outstanding(db.jobs[j]) ::
        QueuedFor(db.jobs, j, d) || RunningFor(db.jobs, j, d);
      assert LiveJobs(r.jobs, d) == {k};
    }
  }

  // ---------------------------------------------------------------- how a delivery gets stranded

  /** One uninterrupted run of a delivery's only live job leaves the delivery pending with no job at
      all exactly when the job came too early for the delivery. */
  lemma StrandedIffDeferred(db: Db, d: DeliveryId, j: JobId, project: Option<ProjectId>, ok: bool, maxAttempts: nat,
      now: Time)
    requires forall k | k in db.jobs :: k < db.nextJob
    requires LiveJobs(db.jobs, d) == {j} && RunningFor(db.jobs, j, d)
    ensures var r := Attempted(db, d, project, ok, maxAttempts, now);
            var jobs := Closed(r.jobs, j, Done);
            (d in r.deliveries && r.deliveries[d].status == Pending && LiveJobs(jobs, d) == {}) <==>
              Judge(db, d, now) == Deferred
  {
    var r := Attempted(db, d, project, ok, maxAttempts, now);
    var jobs := Closed(r.jobs, j, Done);
    assert forall k | k in db.jobs && k != j && db.jobs[k].work == JobFor(d) :: k !in LiveJobs(db.jobs, d);
    assert !HasQueued(db.jobs, d);
    if Judge(db, d, now) == Due && !ok && db.deliveries[d].attempts + 1 < maxAttempts {
      assert db.nextJob in LiveJobs(jobs, d);
    }
  }

  lemma Extend(run: seq<Event>, e: Event, safe: bool)
    requires Valid(run, safe) && Enabled(After(run, safe), e, safe)
    ensures Valid(run + [e], safe) && After(run + [e], safe) == Apply(After(run, safe), e, safe)
  {
    assert (run + [e])[..|run + [e]| - 1] == run;
  }

  function Stranded(s: World, d: DeliveryId): bool {
    d in s.db.deliveries && d !in s.abandoned && s.db.deliveries[d].status == Pending && LiveJobs(s.db.jobs, d) == {}
  }

  lemma OneEvent(hook: Webhook, project: ProjectId, eventType: EventType, now: Time)
    requires Subscribed(hook, project, eventType) && eventType in SUPPORTED_EVENTS
    ensures Recorded(Start.db.(webhooks := [hook], projects := {project}), Some(project), eventType, now) ==
            Db(map[0 := NewJob(DeliverWebhook(0), Some(project), now, now)], 1,
               map[0 := Delivery(0, hook.id, Pending, 0, Some(now))], 1, map[0 := project], 1, [hook], {project})
  {
    var db := EventInserted(Start.db.(webhooks := [hook], projects := {project}), project);
    assert [hook][..0] == [];
    assert FannedOutAll(db, [], 0, project, eventType, now) == db;
    assert FannedOutAll(db, [hook], 0, project, eventType, now) == FannedOut(db, hook, 0, project, now);
  }

  /** One webhook, one event; a worker takes the delivery's job and waits for the network. */
  lemma FirstAttempt() returns (run: seq<Event>, s: World)
    ensures Valid(run, false) && After(run, false) == s
    ensures s.clock == 1.0 && s.abandoned == {} && s.flights == map[0 := Flight(0, Sending(1))]
    ensures s.db.jobs.Keys == {0} && RunningFor(s.db.jobs, 0, 0) && s.db.jobs[0].leaseExpiresAt == 31.0 &&
      s.db.jobs[0].runAfter == 1.0
    ensures 0 in s.db.deliveries && s.db.deliveries[0].status == Pending
  {
    var hook := Webhook(7, 3, {"memory_add"}, true);
    var e := Configure([hook], {3});
    run, s := [], Start;
    Extend(run, e, false);
    run, s := run + [e], Apply(s, e, false);
    e := Record(Some(3), "memory_add");
    Extend(run, e, false);
    run, s := run + [e], Apply(s, e, false);
    OneEvent(hook, 3, "memory_add", 1.0);
    e := Claim(0, 1, 30);
    assert IsNextClaim(s.db.jobs, 0, s.clock);
    Extend(run, e, false);
    run, s := run + [e], Apply(s, e, false);
    e := Look(0);
    Extend(run, e, false);
    run, s := run + [e], Apply(s, e, false);
  }

  /** The worker dies between its two commits, just before its lease ends. The reaped job is run
      again before the delivery is due. */
  lemma CrashedRun() returns (run: seq<Event>, s: World)
    ensures Valid(run, false) && After(run, false) == s && Stranded(s, 0)
  {
    run, s := FirstAttempt();
    var e := Tick(30.0);
    Extend(run, e, false);
    run, s := run + [e], Apply(s, e, false);
    e := Answer(0, false, 5);
    assert Backoff(1) == 2;
    Extend(run, e, false);
    run, s := run + [e], Apply(s, e, false);
    e := Tick(31.5);
    Extend(run, e, false);
    run, s := run + [e], Apply(s, e, false);
    Extend(run, Reap, false);
    run, s := run + [Reap], Apply(s, Reap, false);
    run, s := CrashedRunEnds(run, s);
  }

  lemma CrashedRunEnds(before: seq<Event>, s0: World) returns (run: seq<Event>, s: World)
    requires Valid(before, false) && After(before, false) == s0
    requires s0.clock == 31.5 && s0.abandoned == {} && s0.db.jobs.Keys == {0}
    requires QueuedFor(s0.db.jobs, 0, 0) && s0.db.jobs[0].runAfter <= 31.5
    requires 0 in s0.db.deliveries && s0.db.deliveries[0].status == Pending &&
      s0.db.deliveries[0].nextAttemptAt == Some(32.0)
    ensures Valid(run, false) && After(run, false) == s && Stranded(s, 0)
  {
    run, s := before, s0;
    var e := Claim(0, 2, 30);
    assert IsNextClaim(s.db.jobs, 0, s.clock);
    Extend(run, e, false);
    run, s := run + [e], Apply(s, e, false);
    e := Look(0);
    Extend(run, e, false);
    run, s := run + [e], Apply(s, e, false);
    e := Finish(0);
    Extend(run, e, false);
    run, s := run + [e], Apply(s, e, false);
    assert LiveJobs(s.db.jobs, 0) == {};
  }

  lemma CrashBetweenCommitsStrands()
    ensures exists run :: Valid(run, false) && Stranded(After(run, false), 0)
  {
    var run, s := CrashedRun();
  }

  /** With crashes confined to the time before the outcome is committed, nothing is ever stranded. */
  lemma NothingStranded(run: seq<Event>, d: DeliveryId)
    requires Valid(run, true)
    ensures !Stranded(After(run, true), d)
  {
    var s := After(run, true);
    OutboxInvariant(run);
    assert Sound(s, d);
    if d in s.db.deliveries && d !in s.abandoned && s.db.deliveries[d].status == Pending {
      var j :| OnlyToken(s, j, d) && OnTime(s, j, d);
      assert j in LiveJobs(s.db.jobs, d);
    }
  }

  // ---------------------------------------------------------------- what a status tells

  /** Event i of the run is the outcome of attempt number `attempt` at delivery d. */
  ghost predicate OutcomeAt(run: seq<Event>, safe: bool, i: nat, d: DeliveryId, ok: bool, attempt: nat) {
    && i < |run| && run[i].Answer? && run[i].ok == ok && Valid(run[..i], safe)
    && var flights := After(run[..i], safe).flights;
       run[i].job in flights && flights[run[i].job] == Flight(d, Sending(attempt))
  }

  /** From after event i to the end of the run the row of d is as it is. */
  ghost predicate KeptSince(run: seq<Event>, safe: bool, i: nat, d: DeliveryId, row: Delivery) {
    forall k: nat | i < k <= |run| :: RowAt(run, safe, k, d, row)
  }

  ghost predicate RowAt(run: seq<Event>, safe: bool, k: nat, d: DeliveryId, row: Delivery) {
    && k <= |run| && Valid(run[..k], safe)
    && var deliveries := After(run[..k], safe).db.deliveries; d in deliveries && deliveries[d] == row
  }

  /** The outcome of an attempt is in the row of its delivery, if that is still there. */
  lemma AnswerIsRecorded(s: World, e: Event, safe: bool)
    requires e.Answer? && Enabled(s, e, safe) && s.flights[e.job].delivery in s.db.deliveries
    ensures var d, attempt := s.flights[e.job].delivery, s.flights[e.job].stage.attempt;
      var r := Apply(s, e, safe).db.deliveries;
      && d in r && r == s.db.deliveries[d := r[d]] && r[d].attempts == attempt
      && (r[d].status == Succeeded <==> e.ok) && (r[d].status == Dead <==> !e.ok && attempt >= e.maxAttempts)
      && (r[d].nextAttemptAt.Some? <==> r[d].status == Pending)
      && (r[d].nextAttemptAt.Some? ==> s.clock < r[d].nextAttemptAt.value <= s.clock + 3600.0)
  {}

  /** Nothing but the outcome of an attempt settles a delivery. */
  lemma OnlyAnswersSettle(s: World, e: Event, safe: bool, d: DeliveryId)
    requires Enabled(s, e, safe)
    requires d in Apply(s, e, safe).db.deliveries && Apply(s, e, safe).db.deliveries[d].status != Pending
    ensures var row := Apply(s, e, safe).db.deliveries[d];
      || (d in s.db.deliveries && s.db.deliveries[d] == row)
      || (e.Answer? && s.flights[e.job] == Flight(d, Sending(row.attempts)) && (row.status == Succeeded <==> e.ok) &&
          (row.status == Dead ==> row.attempts >= e.maxAttempts))
  {
    if e.Record? {
      RecordedIs(s.db, e.project, e.eventType, s.clock);
      if d !in s.db.deliveries || Apply(s, e, safe).db.deliveries[d] != s.db.deliveries[d] {
        NewIsPending(s.db, e.project, e.eventType, s.clock, d);
        assert false;
      }
    }
  }

  /** A delivery that record_event inserts is pending. */
  lemma NewIsPending(db: Db, project: Option<ProjectId>, eventType: EventType, now: Time, d: DeliveryId)
    requires d in Recorded(db, project, eventType, now).deliveries
    requires d in db.deliveries ==> Recorded(db, project, eventType, now).deliveries[d] != db.deliveries[d]
    ensures Recorded(db, project, eventType, now).deliveries[d].status == Pending
  {
    RecordedIs(db, project, eventType, now);
    var r := Recorded(db, project, eventType, now);
    var started := db.(events := db.events[db.nextEvent := project.value], nextEvent := db.nextEvent + 1);
    var at: seq<nat> :| AreSubscribers(db.webhooks, at, project.value, eventType) &&
      Told(started, r, db.webhooks, at, db.nextEvent, project.value, now);
    assert db.nextDelivery <= d < r.nextDelivery;
    var n: nat := d - db.nextDelivery;
    assert ToldAt(started, r, db.webhooks, at, n, db.nextEvent, project.value, now);
  }

  /** Event i of the run is what settled delivery d: an attempt that was accepted, or the last one allowed. */
  ghost predicate SettledAt(run: seq<Event>, safe: bool, i: nat, d: DeliveryId, row: Delivery) {
    && OutcomeAt(run, safe, i, d, row.status == Succeeded, row.attempts) && KeptSince(run, safe, i, d, row)
    && (row.status == Dead ==> row.attempts >= run[i].maxAttempts)
  }

  /** A delivery is succeeded only after an attempt that was accepted, and dead only after one that was not and
      was the last allowed; its row has not changed since. */
  lemma {:induction false} StatusTellsOutcome(run: seq<Event>, safe: bool, d: DeliveryId)
    requires Valid(run, safe) && d in After(run, safe).db.deliveries
    ensures After(run, safe).db.deliveries[d].status != Pending ==>
      exists i: nat :: SettledAt(run, safe, i, d, After(run, safe).db.deliveries[d])
    decreases |run|
  {
    var row := After(run, safe).db.deliveries[d];
    if run != [] && row.status != Pending {
      var n: nat := |run| - 1;
      assert run[..|run|] == run;
      assert RowAt(run, safe, |run|, d, row);
      var s := After(run[..n], safe);
      OnlyAnswersSettle(s, run[n], safe, d);
      if d in s.db.deliveries && s.db.deliveries[d] == row {
        StatusTellsOutcome(run[..n], safe, d);
        var i: nat :| SettledAt(run[..n], safe, i, d, row);
        StillSettled(run, safe, i, d, row);
      } else {
        assert SettledAt(run, safe, n, d, row);
      }
    }
  }

  lemma StillSettled(run: seq<Event>, safe: bool, i: nat, d: DeliveryId, row: Delivery)
    requires run != [] && SettledAt(run[..|run| - 1], safe, i, d, row) && RowAt(run, safe, |run|, d, row)
    ensures SettledAt(run, safe, i, d, row)
  {
    StillKept(run, safe, i, d, row);
    assert run[..|run| - 1][..i] == run[..i];
  }

  lemma StillKept(run: seq<Event>, safe: bool, i: nat, d: DeliveryId, row: Delivery)
    requires run != [] && KeptSince(run[..|run| - 1], safe, i, d, row) && RowAt(run, safe, |run|, d, row)
    ensures KeptSince(run, safe, i, d, row)
  {
    forall k: nat | i < k <= |run| ensures RowAt(run, safe, k, d, row) {
      if k < |run| {
        assert RowAt(run[..|run| - 1], safe, k, d, row);
        assert run[..|run| - 1][..k] == run[..k];
      }
    }
  }
}
