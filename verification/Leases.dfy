/** N workers share the job table. A worker knows the last deadline it set for the job it took, and
    touches the job only up to that deadline. Runs are sequences of events from the empty table. */
module Leases {
  import opened Common
  import opened Jobs

  const MAX_ATTEMPTS := 3

  /** What a worker remembers of the job it claimed: the attempt number it saw and its deadline. */
  datatype Hold = Hold(job: JobId, attempts: nat, deadline: Time)

  datatype World = World(rows: Rows, nextId: JobId, holds: map<WorkerId, Hold>, clock: Time)

  datatype Event =
    | Tick(to: Time)
    | Submit(work: Work, project: Option<ProjectId>, runAfter: Option<Time>)
    | Claim(worker: WorkerId, job: JobId, ttl: int)
    | Renew(worker: WorkerId, ttl: int)           // heartbeat() answered True
    | ReportProgress(worker: WorkerId, ttl: int)  // update_result()
    | Finish(worker: WorkerId)                    // complete()
    | GiveUp(worker: WorkerId)                    // fail()
    | Retry(worker: WorkerId)                     // requeue()
    | Vanish(worker: WorkerId)                    // the worker dies, or drops the job without a word
    | Reap
    | CancelJob(job: JobId)
    | RemoveRows(jobs: set<JobId>)                // purge of a project, retention sweep

  /** Claims, heartbeats and progress reports set a lease. */
  predicate SetsLease(e: Event) {
    e.Claim? || e.Renew? || e.ReportProgress?
  }

  const Start := World(map[], 0, map[], 1.0)

  /** The worker may still act: it holds a job and its own deadline has not passed. */
  predicate InTime(s: World, w: WorkerId) {
    w in s.holds && s.clock <= s.holds[w].deadline
  }

  predicate HoldsJob(s: World, w: WorkerId, j: JobId) {
    InTime(s, w) && s.holds[w].job == j
  }

  /** `punctual` is the assumption that a worker acts on its job only up to its own deadline. */
  predicate Enabled(s: World, e: Event, punctual: bool) {
    match e
    case Tick(to) => s.clock <= to
    case Submit(_, _, _) => true
    case Claim(w, j, ttl) => w !in s.holds && ttl > 0 && IsNextClaim(s.rows, j, s.clock)
    case Renew(w, ttl) => w in s.holds && ttl > 0 && (punctual ==> InTime(s, w)) &&
      HeartbeatAccepted(s.rows, s.holds[w].job, s.clock)
    case ReportProgress(w, ttl) => w in s.holds && ttl > 0 && (punctual ==> InTime(s, w))
    case Finish(w) => w in s.holds && (punctual ==> InTime(s, w))
    case GiveUp(w) => w in s.holds && (punctual ==> InTime(s, w))
    case Retry(w) => w in s.holds && (punctual ==> InTime(s, w)) && s.holds[w].attempts < MAX_ATTEMPTS
    case Vanish(w) => w in s.holds
    case Reap => true
    case CancelJob(_) => true
    case RemoveRows(_) => true
  }

  function Release(s: World, w: WorkerId, rows: Rows): World {
    s.(rows := rows, holds := s.holds - {w})
  }

  function Apply(s: World, e: Event, punctual: bool): World
    requires Enabled(s, e, punctual)
  {
    match e
    case Tick(to) => s.(clock := to)
    case Submit(work, project, runAfter) =>
      s.(rows := Enqueued(s.rows, s.nextId, work, project, s.clock, OrZero(runAfter)), nextId := s.nextId + 1)
    case Claim(w, j, ttl) =>
      var rows := Claimed(s.rows, j, w, s.clock, ttl);
      s.(rows := rows, holds := s.holds[w := Hold(j, rows[j].attempts, s.clock + ttl as real)])
    case Renew(w, ttl) =>
      var h := s.holds[w];
      s.(rows := Heartbeaten(s.rows, h.job, s.clock, ttl),
         holds := s.holds[w := h.(deadline := MaxTime(h.deadline, s.clock + ttl as real))])
    case ReportProgress(w, ttl) =>
      var h := s.holds[w];
      s.(rows := Progressed(s.rows, h.job, s.clock, ttl), holds := s.holds[w := h.(deadline := s.clock + ttl as real)])
    case Finish(w) => Release(s, w, Closed(s.rows, s.holds[w].job, Done))
    case GiveUp(w) => Release(s, w, Closed(s.rows, s.holds[w].job, Failed))
    case Retry(w) => Release(s, w, Requeued(s.rows, s.holds[w].job, 0.0))
    case Vanish(w) => Release(s, w, s.rows)
    case Reap => s.(rows := Reaped(s.rows, s.clock))
    case CancelJob(j) => s.(rows := CancelledRows(s.rows, j, s.clock))
    case RemoveRows(js) => s.(rows := s.rows - js)
  }

  /** The state a run ends in, or None if some event of it was not enabled when its turn came. */
  ghost function Exec(run: seq<Event>, punctual: bool): Option<World>
    decreases |run|
  {
    if run == [] then Some(Start) else
    var before := Exec(run[..|run| - 1], punctual);
    var e := run[|run| - 1];
    if before.Some? && Enabled(before.value, e, punctual) then Some(Apply(before.value, e, punctual)) else None
  }

  ghost predicate Valid(run: seq<Event>, punctual: bool) {
    Exec(run, punctual).Some?
  }

  ghost function After(run: seq<Event>, punctual: bool): World
    requires Valid(run, punctual)
  {
    Exec(run, punctual).value
  }

  // ---------------------------------------------------------------- exclusivity

  ghost predicate RowsInOrder(s: World) {
    forall j | j in s.rows :: j < s.nextId && IdleHoldsNoLease(s.rows[j])
  }

  /** A worker that may still act is the one its row names, and the row's lease covers its deadline. */
  predicate HoldIsBacked(s: World, w: WorkerId) {
    InTime(s, w) && s.holds[w].job in s.rows ==>
      var row := s.rows[s.holds[w].job];
      row.status == Running && row.worker == Some(w) && row.leaseExpiresAt >= s.holds[w].deadline &&
        row.attempts == s.holds[w].attempts
  }

  ghost predicate Exclusive(s: World) {
    forall w, v, j :: HoldsJob(s, w, j) && HoldsJob(s, v, j) ==> w == v
  }

  ghost predicate Inv(s: World) {
    && s.clock > 0.0
    && RowsInOrder(s)
    && (forall w | w in s.holds :: s.holds[w].job < s.nextId)
    && (forall w | w in s.holds :: HoldIsBacked(s, w))
    && Exclusive(s)
  }

  lemma StepKeepsInv(s: World, e: Event)
    requires Inv(s) && Enabled(s, e, true)
    ensures Inv(Apply(s, e, true))
  {
    var t := Apply(s, e, true);
    forall w | w in t.holds ensures HoldIsBacked(t, w) && t.holds[w].job < t.nextId {
      StepKeepsBacking(s, e, w);
    }
    StepKeepsExclusive(s, e);
  }

  lemma StepKeepsBacking(s: World, e: Event, w: WorkerId)
    requires Inv(s) && Enabled(s, e, true) && w in Apply(s, e, true).holds
    ensures HoldIsBacked(Apply(s, e, true), w) && Apply(s, e, true).holds[w].job < Apply(s, e, true).nextId
  {
    assert w in s.holds || e.Claim?;
    if w in s.holds { assert HoldIsBacked(s, w); }
  }

  lemma StepKeepsExclusive(s: World, e: Event)
    requires Inv(s) && Enabled(s, e, true)
    ensures Exclusive(Apply(s, e, true))
  {
    var t := Apply(s, e, true);
    forall w, v, j | HoldsJob(t, w, j) && HoldsJob(t, v, j) ensures w == v {
      if e.Claim? && (w == e.worker || v == e.worker) {
        assert w in s.holds ==> HoldIsBacked(s, w);
        assert v in s.holds ==> HoldIsBacked(s, v);
      } else {
        assert HoldsJob(s, w, j) && HoldsJob(s, v, j);
      }
    }
  }

  /** In every interleaving of punctual workers, whatever is enqueued, cancelled, reaped or removed
      meanwhile: no two workers hold one job, a holder's row is running under its name with a lease
      that reaches at least its deadline, and a row that is not running has lease zero. */
  lemma {:induction false} LeaseExclusivity(run: seq<Event>)
    requires Valid(run, true)
    ensures Inv(After(run, true))
    decreases |run|
  {
    if run != [] {
      LeaseExclusivity(run[..|run| - 1]);
      StepKeepsInv(After(run[..|run| - 1], true), run[|run| - 1]);
    }
  }

  /** A punctual holder is never reaped, never cancelled and never loses its heartbeat. */
  lemma HolderIsSafe(run: seq<Event>, w: WorkerId)
    requires Valid(run, true) && InTime(After(run, true), w)
    requires After(run, true).holds[w].job in After(run, true).rows
    ensures var s := After(run, true); var j := s.holds[w].job;
            && Reaped(s.rows, s.clock)[j] == s.rows[j]
            && CancelledRows(s.rows, j, s.clock) == s.rows
            && HeartbeatAccepted(s.rows, j, s.clock)
            && !IsNextClaim(s.rows, j, s.clock)
  {
    LeaseExclusivity(run);
    assert HoldIsBacked(After(run, true), w);
  }

  // ---------------------------------------------------------------- why punctuality is needed

  lemma Extend(run: seq<Event>, e: Event, punctual: bool)
    requires Valid(run, punctual) && Enabled(After(run, punctual), e, punctual)
    ensures Valid(run + [e], punctual) && After(run + [e], punctual) == Apply(After(run, punctual), e, punctual)
  {
    assert (run + [e])[..|run + [e]| - 1] == run;
  }

  /** Worker v outlives its lease and worker w has taken the job over. */
  lemma TakenOverRun(v: WorkerId, w: WorkerId, a: int, b: int) returns (run: seq<Event>, s: World)
    requires v != w && a > 0 && b > 0
    ensures Valid(run, false) && After(run, false) == s && HoldsJob(s, w, 0) && !InTime(s, v)
    ensures s.holds.Keys == {v, w} && s.holds[v].job == 0 && s.holds[v].attempts == 1
    ensures s.clock > 0.0 && s.rows.Keys == {0}
    ensures s.rows[0].status == Running && s.rows[0].leaseExpiresAt == s.clock + b as real
    ensures forall e | e in run :: !e.Retry? && (SetsLease(e) ==> e == Claim(v, 0, a) || e == Claim(w, 0, b))
  {
    var e := Submit(Backfill, None, None);
    run, s := [], Start;
    Extend(run, e, false);
    run, s := run + [e], Apply(s, e, false);
    e := Claim(v, 0, a);
    assert IsNextClaim(s.rows, 0, s.clock);
    Extend(run, e, false);
    run, s := run + [e], Apply(s, e, false);
    e := Tick(2.0 + a as real);
    Extend(run, e, false);
    run, s := run + [e], Apply(s, e, false);
    Extend(run, Reap, false);
    run, s := run + [Reap], Apply(s, Reap, false);
    e := Claim(w, 0, b);
    assert IsNextClaim(s.rows, 0, s.clock);
    Extend(run, e, false);
    run, s := run + [e], Apply(s, e, false);
  }

  lemma LateRun() returns (run: seq<Event>, s: World)
    ensures Valid(run, false) && After(run, false) == s && HoldsJob(s, 2, 0) && HoldsJob(s, 3, 0)
    ensures forall e | e in run && SetsLease(e) :: e.Claim?
  {
    run, s := TakenOverRun(1, 2, 30, 300);
    var e := Retry(1);
    Extend(run, e, false);
    run, s := run + [e], Apply(s, e, false);
    e := Claim(3, 0, 300);
    assert IsNextClaim(s.rows, 0, s.clock);
    Extend(run, e, false);
    run, s := run + [e], Apply(s, e, false);
  }

  /** requeue does not ask who calls it. Worker 1 outlives its lease, the job is reaped and worker 2 takes it;
      worker 1 then requeues it under worker 2, and worker 3 takes it too. No lease is renewed on the way. */
  lemma LateWorkerBreaksExclusivity()
    ensures exists run ::
      Valid(run, false) && !Exclusive(After(run, false)) && forall e | e in run && SetsLease(e) :: e.Claim?
  {
    var run, s := LateRun();
    assert HoldsJob(After(run, false), 2, 0) && HoldsJob(After(run, false), 3, 0);
  }

  /** Nor does update_result: called by the late worker 1 while worker 2 runs the job, it gives worker 1 a new
      deadline, and both believe they hold the job. Nothing is requeued on the way. */
  lemma LateProgressBreaksExclusivity()
    ensures exists run :: Valid(run, false) && !Exclusive(After(run, false)) && forall e: Event | e in run :: !e.Retry?
  {
    var run, s := TakenOverRun(1, 2, 30, 300);
    var e := ReportProgress(1, 30);
    Extend(run, e, false);
    assert HoldsJob(After(run + [e], false), 1, 0) && HoldsJob(After(run + [e], false), 2, 0);
  }

  /** What a call by w could spoil: another worker that may still act holds the same job. */
  ghost predicate Contested(s: World, w: WorkerId)
    requires w in s.holds
  {
    exists v :: v != w && HoldsJob(s, v, s.holds[w].job)
  }

  /** The row still runs under w's own claim. */
  predicate StillOwn(s: World, w: WorkerId)
    requires w in s.holds
  {
    var h := s.holds[w];
    && h.job in s.rows
    && s.rows[h.job].status == Running && s.rows[h.job].worker == Some(w) && s.rows[h.job].attempts == h.attempts
  }

  predicate RowGone(s: World, w: WorkerId)
    requires w in s.holds
  {
    s.holds[w].job !in s.rows
  }

  /** Which calls of workers do no harm, however late they come. */
  ghost predicate Harmless(s: World, e: Event) {
    match e
    case Finish(w) => w in s.holds ==> InTime(s, w) || RowGone(s, w) || !Contested(s, w)
    case GiveUp(w) => w in s.holds ==> InTime(s, w) || RowGone(s, w) || !Contested(s, w)
    case Retry(w) => w in s.holds ==> InTime(s, w) || RowGone(s, w) || !Contested(s, w)
    case Renew(w, _) => w in s.holds ==> InTime(s, w) || StillOwn(s, w)
    case ReportProgress(w, _) => w in s.holds ==> InTime(s, w) || StillOwn(s, w) || (RowGone(s, w) && !Contested(s, w))
    case _ => true
  }

  predicate ActsFor(e: Event) {
    e.Finish? || e.GiveUp? || e.Retry? || e.Renew? || e.ReportProgress?
  }

  lemma HarmlessKeepsInv(s: World, e: Event)
    requires Inv(s) && Enabled(s, e, false) && Harmless(s, e)
    ensures Inv(Apply(s, e, false))
  {
    var t := Apply(s, e, false);
    forall w | w in t.holds ensures HoldIsBacked(t, w) && t.holds[w].job < t.nextId {
      HarmlessKeepsBacking(s, e, w);
    }
    if SetsLease(e) {
      HolderStaysAlone(s, e);
    } else {
      forall w, v, j | HoldsJob(t, w, j) && HoldsJob(t, v, j) ensures w == v {
        assert HoldsJob(s, w, j) && HoldsJob(s, v, j);
      }
    }
  }

  lemma HarmlessKeepsBacking(s: World, e: Event, w: WorkerId)
    requires Inv(s) && Enabled(s, e, false) && Harmless(s, e) && w in Apply(s, e, false).holds
    ensures HoldIsBacked(Apply(s, e, false), w) && Apply(s, e, false).holds[w].job < Apply(s, e, false).nextId
  {
    assert w in s.holds || e.Claim?;
    if w in s.holds {
      assert HoldIsBacked(s, w);
      if ActsFor(e) && e.worker != w && HoldsJob(s, w, s.holds[e.worker].job) {
        assert Contested(s, e.worker);
        assert InTime(s, e.worker) ==> HoldsJob(s, e.worker, s.holds[e.worker].job);
      }
    }
  }

  /** Taking or renewing a lease without harm makes no second holder. */
  lemma HolderStaysAlone(s: World, e: Event)
    requires Inv(s) && Enabled(s, e, false) && Harmless(s, e) && SetsLease(e)
    ensures Exclusive(Apply(s, e, false))
  {
    var t := Apply(s, e, false);
    forall w, v, j | HoldsJob(t, w, j) && HoldsJob(t, v, j) ensures w == v {
      if w == e.worker { OneOfTwo(s, e, w, v, j); }
      if v == e.worker { OneOfTwo(s, e, v, w, j); }
      assert w != e.worker && v != e.worker ==> HoldsJob(s, w, j) && HoldsJob(s, v, j);
    }
  }

  lemma OneOfTwo(s: World, e: Event, w: WorkerId, v: WorkerId, j: JobId)
    requires Inv(s) && Enabled(s, e, false) && Harmless(s, e) && SetsLease(e)
    requires w == e.worker && HoldsJob(Apply(s, e, false), w, j) && HoldsJob(Apply(s, e, false), v, j)
    ensures v == w
  {
    if v != w {
      assert HoldsJob(s, v, j) && HoldIsBacked(s, v);
      assert InTime(s, w) ==> HoldsJob(s, w, j);
      assert !e.Claim? ==> Contested(s, w);
    }
  }

  lemma HarmBreaksInv(s: World, e: Event)
    requires Inv(s) && Enabled(s, e, false) && !Harmless(s, e)
    ensures !Inv(Apply(s, e, false))
  {
    var t := Apply(s, e, false);
    var w := e.worker;
    var j := s.holds[w].job;
    if Contested(s, w) {
      var v :| v != w && HoldsJob(s, v, j);
      assert HoldsJob(t, v, j) && HoldIsBacked(s, v);
      if e.Renew? || e.ReportProgress? {
        assert HoldsJob(t, w, j);
      } else {
        assert !HoldIsBacked(t, v);
      }
    } else {
      assert HoldsJob(t, w, j) && !HoldIsBacked(t, w);
    }
  }

  /** One call more, by whichever worker and however late, keeps the protocol's invariant if and only if it is
      harmless. */
  lemma LateCallHarmlessIff(s: World, e: Event)
    requires Inv(s) && Enabled(s, e, false)
    ensures Inv(Apply(s, e, false)) <==> Harmless(s, e)
  {
    if Harmless(s, e) {
      HarmlessKeepsInv(s, e);
    } else {
      HarmBreaksInv(s, e);
    }
  }

  /** So lateness alone is not the danger: every run without a harmful call is exclusive. */
  lemma {:induction false} HarmlessRunsAreExclusive(run: seq<Event>)
    requires Valid(run, false)
    requires forall i: nat | i < |run| :: Valid(run[..i], false) && Harmless(After(run[..i], false), run[i])
    ensures Inv(After(run, false))
    decreases |run|
  {
    if run != [] {
      var n := |run| - 1;
      var before := run[..n];
      forall i: nat | i < n ensures Valid(before[..i], false) && Harmless(After(before[..i], false), before[i]) {
        assert before[..i] == run[..i] && before[i] == run[i];
      }
      HarmlessRunsAreExclusive(before);
      HarmlessKeepsInv(After(before, false), run[n]);
    }
  }

  /** Which calls make two holders at once: a late heartbeat or progress report on a job that another worker
      holds. A late complete, fail or requeue never does; requeue only lets a third worker claim the job. */
  lemma TwoHoldersAtOnceIff(s: World, e: Event)
    requires Inv(s) && Enabled(s, e, false)
    ensures Exclusive(Apply(s, e, false)) <==>
      !((e.Renew? || e.ReportProgress?) && !InTime(s, e.worker) && Contested(s, e.worker))
  {
    var t := Apply(s, e, false);
    if (e.Renew? || e.ReportProgress?) && !InTime(s, e.worker) && Contested(s, e.worker) {
      var v :| v != e.worker && HoldsJob(s, v, s.holds[e.worker].job);
      assert HoldsJob(t, v, s.holds[e.worker].job) && HoldsJob(t, e.worker, s.holds[e.worker].job);
    } else {
      forall a, b, j | HoldsJob(t, a, j) && HoldsJob(t, b, j) ensures a == b {
        if SetsLease(e) {
          if a == e.worker { SecondHolder(s, e, b, j); }
          if b == e.worker { SecondHolder(s, e, a, j); }
          assert a != e.worker && b != e.worker ==> HoldsJob(s, a, j) && HoldsJob(s, b, j);
        } else {
          assert HoldsJob(s, a, j) && HoldsJob(s, b, j);
        }
      }
    }
  }

  /** A second holder beside the caller was there before, and then the caller was late. */
  lemma SecondHolder(s: World, e: Event, v: WorkerId, j: JobId)
    requires Inv(s) && Enabled(s, e, false) && SetsLease(e)
    requires HoldsJob(Apply(s, e, false), e.worker, j) && HoldsJob(Apply(s, e, false), v, j)
    ensures v == e.worker || (!e.Claim? && !InTime(s, e.worker) && Contested(s, e.worker))
  {
    if v != e.worker {
      assert HoldsJob(s, v, j) && HoldIsBacked(s, v);
      assert !e.Claim? && InTime(s, e.worker) ==> HoldsJob(s, e.worker, j);
    }
  }

  // ---------------------------------------------------------------- update_result and the lease

  /** Worker w takes every lease for `length(w)` seconds, as its setting says. */
  ghost predicate Follows(run: seq<Event>, length: WorkerId -> int) {
    forall i | 0 <= i < |run| :: SetsOwnLength(run[i], length)
  }

  ghost predicate SetsOwnLength(e: Event, length: WorkerId -> int) {
    SetsLease(e) ==> e.ttl == length(e.worker)
  }

  ghost predicate OneLength(length: WorkerId -> int) {
    forall v, w :: length(v) == length(w)
  }

  /** A running row is leased no further than its worker's setting reaches from now. */
  ghost predicate Capped(s: World, length: WorkerId -> int) {
    forall j | j in s.rows && s.rows[j].status == Running ::
      s.rows[j].worker.Some? && s.rows[j].leaseExpiresAt <= s.clock + length(s.rows[j].worker.value) as real
  }

  lemma {:induction false} LeasesAreCapped(run: seq<Event>, length: WorkerId -> int, punctual: bool)
    requires Valid(run, punctual) && Follows(run, length) && (punctual || OneLength(length))
    ensures Capped(After(run, punctual), length)
    decreases |run|
  {
    if run != [] {
      var before, e := run[..|run| - 1], run[|run| - 1];
      LeasesAreCapped(before, length, punctual);
      assert SetsOwnLength(e, length);
      if punctual {
        LeaseExclusivity(before);
      }
      StepKeepsCapped(After(before, punctual), e, length, punctual);
    }
  }

  lemma StepKeepsCapped(s: World, e: Event, length: WorkerId -> int, punctual: bool)
    requires Capped(s, length) && Enabled(s, e, punctual) && SetsOwnLength(e, length)
    requires if punctual then Inv(s) else OneLength(length)
    ensures Capped(Apply(s, e, punctual), length)
  {
    if (e.Renew? || e.ReportProgress?) && punctual {
      assert HoldIsBacked(s, e.worker);
    }
  }

  /** update_result by w leaves its job with an earlier deadline than before. */
  ghost predicate Shortens(s: World, w: WorkerId, ttl: int) {
    && w in s.holds && s.holds[w].job in s.rows && s.rows[s.holds[w].job].status == Running
    && var j := s.holds[w].job;
       Progressed(s.rows, j, s.clock, ttl)[j].leaseExpiresAt < s.rows[j].leaseExpiresAt
  }

  /** Workers that keep to their own deadline never shorten a lease, whatever their settings. */
  lemma PunctualNeverShortens(run: seq<Event>, length: WorkerId -> int, w: WorkerId)
    requires Valid(run, true) && Follows(run, length) && InTime(After(run, true), w)
    ensures !Shortens(After(run, true), w, length(w))
  {
    LeaseExclusivity(run);
    LeasesAreCapped(run, length, true);
    assert HoldIsBacked(After(run, true), w);
  }

  /** Late calls included, no progress report of the run's end state could shorten a lease. */
  ghost predicate LateCallsKeepLeases(run: seq<Event>, length: WorkerId -> int) {
    Valid(run, false) && Follows(run, length) ==> forall w :: !Shortens(After(run, false), w, length(w))
  }

  lemma OneLengthNeverShortens(run: seq<Event>, length: WorkerId -> int)
    requires OneLength(length)
    ensures LateCallsKeepLeases(run, length)
  {
    if Valid(run, false) && Follows(run, length) {
      LeasesAreCapped(run, length, false);
      forall w ensures !Shortens(After(run, false), w, length(w)) {
        var s := After(run, false);
        if w in s.holds && s.holds[w].job in s.rows && s.rows[s.holds[w].job].status == Running {
          assert length(w) == length(s.rows[s.holds[w].job].worker.value);
        }
      }
    }
  }

  /** Two settings are enough: the worker with the shorter one comes late and cuts the lease of the other. */
  lemma TwoLengthsShorten(length: WorkerId -> int, v: WorkerId, w: WorkerId) returns (run: seq<Event>)
    requires 0 < length(v) < length(w)
    ensures !LateCallsKeepLeases(run, length)
  {
    var s;
    run, s := TakenOverRun(v, w, length(v), length(w));
    forall i | 0 <= i < |run| ensures SetsOwnLength(run[i], length) {
      assert run[i] in run;
    }
    assert Shortens(s, v, length(v));
  }

  /** With late workers about, update_result can shorten a lease if and only if two workers have different
      settings. */
  lemma ShortensIffSettingsDiffer(length: WorkerId -> int)
    requires forall w :: length(w) > 0
    ensures (exists run :: !LateCallsKeepLeases(run, length)) <==> !OneLength(length)
  {
    if OneLength(length) {
      forall run ensures LateCallsKeepLeases(run, length) {
        OneLengthNeverShortens(run, length);
      }
    } else {
      var v, w :| length(v) != length(w);
      var shorter, longer := if length(v) < length(w) then v else w, if length(v) < length(w) then w else v;
      var run := TwoLengthsShorten(length, shorter, longer);
    }
  }

  // ---------------------------------------------------------------- claim accounting

  function ClaimCount(run: seq<Event>, j: JobId): nat
    decreases |run|
  {
    if run == [] then 0 else
    ClaimCount(run[..|run| - 1], j) + if run[|run| - 1].Claim? && run[|run| - 1].job == j then 1 else 0
  }

  ghost function ReapCount(run: seq<Event>, j: JobId): nat
    requires Valid(run, true)
    decreases |run|
  {
    if run == [] then 0 else
    var s := After(run[..|run| - 1], true);
    ReapCount(run[..|run| - 1], j) + if run[|run| - 1].Reap? && j in s.rows && Stale(s.rows[j], s.clock) then 1 else 0
  }

  /** The row of a job counts its claims, and every claim beyond the third was paid for by a reap. */
  ghost predicate Accounted(s: World, j: JobId, claims: nat, reaps: nat) {
    && claims <= MAX_ATTEMPTS + reaps
    && (j >= s.nextId ==> claims == 0)
    && (j in s.rows ==> s.rows[j].attempts == claims)
    && (j in s.rows && s.rows[j].status == Queued ==> claims < MAX_ATTEMPTS + reaps)
  }

  lemma StepKeepsAccount(s: World, e: Event, j: JobId, claims: nat, reaps: nat)
    requires Inv(s) && Enabled(s, e, true) && Accounted(s, j, claims, reaps)
    ensures Accounted(Apply(s, e, true), j,
                      claims + if e.Claim? && e.job == j then 1 else 0,
                      reaps + if e.Reap? && j in s.rows && Stale(s.rows[j], s.clock) then 1 else 0)
  {
    if e.Retry? {
      assert HoldIsBacked(s, e.worker);
    }
  }

  /** In every punctual run: attempts is the number of claims, and a job is claimed at most
      MAX_ATTEMPTS times plus once for every time it was reaped. */
  lemma {:induction false} ClaimAccounting(run: seq<Event>, j: JobId)
    requires Valid(run, true)
    ensures ClaimCount(run, j) <= MAX_ATTEMPTS + ReapCount(run, j)
    ensures j in After(run, true).rows ==> After(run, true).rows[j].attempts == ClaimCount(run, j)
    ensures Accounted(After(run, true), j, ClaimCount(run, j), ReapCount(run, j))
    decreases |run|
  {
    if run != [] {
      var before := run[..|run| - 1];
      ClaimAccounting(before, j);
      LeaseExclusivity(before);
      StepKeepsAccount(After(before, true), run[|run| - 1], j, ClaimCount(before, j), ReapCount(before, j));
    }
  }
}
