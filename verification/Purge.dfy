/** Deleting a project: a route flags it and enqueues one purge job, a worker purges it, a cancel lifts
    the flag. Built on the leased runs of module Leases; every route and worker interleaves. */
module Purge {
  import opened Common
  import opened Jobs
  import Leases

  const LOCAL_PROJECT: ProjectId := 0

  /** The projects table: which projects exist, and whether each is flagged deleting. */
  type Projects = map<ProjectId, bool>

  predicate IsPurgeOf(rows: Rows, j: JobId, p: ProjectId) {
    j in rows && rows[j].work == PurgeProject(p)
  }

  /** A purge job of p that is queued, or running under a lease that has not lapsed at `now`. */
  predicate PurgeInFlight(rows: Rows, p: ProjectId, now: Time) {
    exists j | j in rows :: IsPurgeOf(rows, j, p) && Outstanding(rows[j]) && !Stale(rows[j], now)
  }

  predicate PurgeOutstanding(rows: Rows, p: ProjectId) {
    exists j | j in rows :: IsPurgeOf(rows, j, p) && Outstanding(rows[j])
  }

  function Wedged(rows: Rows, projects: Projects, now: Time): set<ProjectId> {
    set p | p in projects && projects[p] && p != LOCAL_PROJECT && !PurgeInFlight(rows, p, now)
  }

  /** Right after a reap, at the same clock, the wedged projects are exactly the deleting ones, other than
      the default project, that have no purge job which is not over. */
  lemma WedgedAfterReap(rows: Rows, projects: Projects, now: Time)
    ensures Wedged(Reaped(rows, now), projects, now) ==
            set p | p in projects && projects[p] && p != LOCAL_PROJECT && !PurgeOutstanding(rows, p)
  {
    var reaped := Reaped(rows, now);
    forall p ensures PurgeInFlight(reaped, p, now) <==> PurgeOutstanding(rows, p) {
      if j :| j in rows && IsPurgeOf(rows, j, p) && Outstanding(rows[j]) {
        assert IsPurgeOf(reaped, j, p) && Outstanding(reaped[j]) && !Stale(reaped[j], now);
      }
      if j :| j in reaped && IsPurgeOf(reaped, j, p) && Outstanding(reaped[j]) && !Stale(reaped[j], now) {
        assert IsPurgeOf(rows, j, p) && Outstanding(rows[j]);
      }
    }
  }

  /** The routes' own test for a job in flight. */
  predicate MayStillRun(job: Job, now: Time) {
    job.status == Queued || (job.status == Running && job.leaseExpiresAt >= now)
  }

  /** Some purge job of p is queued, or runs under a lease that has not lapsed. */
  predicate PurgeMayRun(rows: Rows, p: ProjectId, now: Time) {
    exists j | j in rows ::
      rows[j].work == PurgeProject(p) &&
      (rows[j].status == Queued || (rows[j].status == Running && rows[j].leaseExpiresAt >= now))
  }

  lemma InFlightIs(rows: Rows, p: ProjectId, now: Time)
    ensures PurgeInFlight(rows, p, now) <==> PurgeMayRun(rows, p, now)
  {
    if j :| j in rows && IsPurgeOf(rows, j, p) && Outstanding(rows[j]) && !Stale(rows[j], now) {
      assert rows[j].work == PurgeProject(p);
    }
    if j :| j in rows && rows[j].work == PurgeProject(p) && MayStillRun(rows[j], now) {
      assert IsPurgeOf(rows, j, p);
    }
  }

  /** Wedged are the flagged projects, other than the default one, none of whose purge jobs may run. */
  lemma WedgedIs(rows: Rows, projects: Projects, now: Time)
    ensures forall p :: p in Wedged(rows, projects, now) <==>
      p in projects && projects[p] && p != 0 && !PurgeMayRun(rows, p, now)
  {
    forall p ensures PurgeInFlight(rows, p, now) <==> PurgeMayRun(rows, p, now) { InFlightIs(rows, p, now); }
  }

  // ---------------------------------------------------------------- the routes in place

  datatype DeleteAnswer = NotFound | DefaultProject | InFlight | Stranded | Accepted(job: JobId)

  class Routes {
    const queue: JobTable
    var projects: Projects

    constructor (queue: JobTable, projects: Projects)
      ensures this.queue == queue && this.projects == projects
    {
      this.queue, this.projects := queue, projects;
    }

    /** delete_project, after the caller's credentials and organization were checked. */
    method DeleteProject(p: ProjectId, now: Time) returns (answer: DeleteAnswer)
      requires queue.Valid()
      modifies this, queue
      ensures queue.Valid()
      ensures answer == NotFound <==> p !in old(projects)
      ensures answer == DefaultProject <==> p in old(projects) && p == LOCAL_PROJECT
      ensures p in old(projects) && p != LOCAL_PROJECT ==>
                && (answer.Accepted? <==> !old(projects)[p])
                && (answer == InFlight <==> old(projects)[p] && PurgeInFlight(old(queue.rows), p, now))
      ensures answer.Accepted? ==>
                && answer.job == old(queue.nextId) && queue.nextId == old(queue.nextId) + 1
                && queue.rows == Enqueued(old(queue.rows), answer.job, PurgeProject(p), Some(p), now, 0.0)
                && queue.rows[answer.job] == Job(PurgeProject(p), Some(p), Queued, 0, None, now, 0.0, 0.0, None)
                && projects == old(projects)[p := true]
      ensures answer == InFlight <==>
        p in old(projects) && p != LOCAL_PROJECT && old(projects)[p] && PurgeMayRun(old(queue.rows), p, now)
      ensures answer == Stranded <==>
        p in old(projects) && p != LOCAL_PROJECT && old(projects)[p] && !PurgeMayRun(old(queue.rows), p, now)
      ensures !answer.Accepted? ==>
        queue.rows == old(queue.rows) && queue.nextId == old(queue.nextId) &&
        projects == old(projects)
    {
      InFlightIs(queue.rows, p, now);
      if p !in projects {
        return NotFound;
      }
      if p == LOCAL_PROJECT {
        return DefaultProject;
      }
      if projects[p] {
        if exists j | j in queue.rows :: queue.rows[j].work == PurgeProject(p) && MayStillRun(queue.rows[j], now) {
          assert PurgeInFlight(queue.rows, p, now) by {
            var j :| j in queue.rows && queue.rows[j].work == PurgeProject(p) && MayStillRun(queue.rows[j], now);
            assert IsPurgeOf(queue.rows, j, p) && Outstanding(queue.rows[j]) && !Stale(queue.rows[j], now);
          }
          return InFlight;
        }
        assert !PurgeInFlight(queue.rows, p, now);
        return Stranded;
      }
      var job := queue.Enqueue(PurgeProject(p), Some(p), None, now);
      projects := projects[p := true];
      answer := Accepted(job);
    }

    /** cancel_job, up to its events and audit row. */
    method CancelJob(j: JobId, now: Time) returns (cancelled: bool)
      requires queue.Valid()
      modifies this, queue`rows
      ensures queue.Valid()
      ensures cancelled <==> Cancellable(old(queue.rows), j, now)
      ensures queue.rows == CancelledRows(old(queue.rows), j, now)
      ensures cancelled <==>
        j in old(queue.rows) && (old(queue.rows)[j].status == Queued ||
          (old(queue.rows)[j].status == Running && old(queue.rows)[j].leaseExpiresAt < now))
      ensures queue.rows == if !cancelled then old(queue.rows) else
        old(queue.rows)[j := old(queue.rows)[j].(status := Cancelled, worker := None, leaseExpiresAt := 0.0,
          heartbeatAt := None)]
      ensures projects == if cancelled && old(queue.rows)[j].work.PurgeProject? &&
        old(queue.rows)[j].work.target in old(projects)
                          then old(projects)[old(queue.rows)[j].work.target := false] else old(projects)
    {
      if j !in queue.rows || queue.rows[j].status !in {Queued, Running} {
        return false;
      }
      var job := queue.rows[j];
      if job.status == Running && !(job.leaseExpiresAt < now) {
        return false;
      }
      cancelled := queue.Cancel(j, now);
      if cancelled && job.work.PurgeProject? && job.work.target in projects {
        projects := projects[job.work.target := false];
      }
    }

    method WedgedProjects(now: Time) returns (wedged: set<ProjectId>)
      ensures wedged == Wedged(queue.rows, projects, now)
      ensures forall p :: p in wedged <==> p in projects && projects[p] && p != 0 && !PurgeMayRun(queue.rows, p, now)
    {
      WedgedIs(queue.rows, projects, now);
      wedged := {};
      var todo := set p | p in projects && projects[p] && p != LOCAL_PROJECT;
      ghost var all := todo;
      while todo != {}
        invariant todo <= all && wedged == set p | p in all - todo && !PurgeInFlight(queue.rows, p, now)
      {
        var p :| p in todo;
        var active := set j | j in queue.rows && queue.rows[j].work == PurgeProject(p) &&
          MayStillRun(queue.rows[j], now);
        assert active == set j | j in queue.rows && IsPurgeOf(queue.rows, j, p) && Outstanding(queue.rows[j]) &&
          !Stale(queue.rows[j], now);
        assert PurgeInFlight(queue.rows, p, now) <==> active != {} by {
          if j :| j in active { assert IsPurgeOf(queue.rows, j, p); }
          if j :| IsPurgeOf(queue.rows, j, p) && Outstanding(queue.rows[j]) && !Stale(queue.rows[j], now) {
            assert j in active;
          }
        }
        if |active| == 0 {
          wedged := wedged + {p};
        }
        todo := todo - {p};
      }
    }
  }

  // ---------------------------------------------------------------- runs

  /** `clearing`: projects whose purge job a cancel route has just cancelled and whose flag it is about
      to lift, in its second commit. */
  datatype World = World(queue: Leases.World, projects: Projects, nextProject: ProjectId, clearing: set<ProjectId>)

  datatype Event =
    | Queue(event: Leases.Event)           // anything that happens to the queue but submitting or cancelling a purge
    | Create                               // a new project
    | Delete(project: ProjectId)
    | Cancel(job: JobId)                   // first commit of cancel_job on a purge job
    | ClearFlag(project: ProjectId)        // its second commit
    | CrashInCancel(project: ProjectId)    // the server dies between the two
    | PurgeData(worker: WorkerId)          // the commit of purge_project, by the worker that holds the job

  const Start := World(Leases.Start, map[LOCAL_PROJECT := false], 1, {})

  predicate QueueEventAllowed(s: World, e: Leases.Event) {
    && Leases.Enabled(s.queue, e, true)
    && (e.Submit? ==> !e.work.PurgeProject?)
    && (e.CancelJob? && e.job in s.queue.rows ==> !s.queue.rows[e.job].work.PurgeProject?)
    && (e.RemoveRows? ==> forall j | j in e.jobs && j in s.queue.rows :: Terminal(s.queue.rows[j]))
  }

  predicate Enabled(s: World, e: Event) {
    match e
    case Queue(q) => QueueEventAllowed(s, q)
    case Create => true
    case Delete(_) => true
    case Cancel(j) => j in s.queue.rows && s.queue.rows[j].work.PurgeProject? &&
      Cancellable(s.queue.rows, j, s.queue.clock)
    case ClearFlag(p) => p in s.clearing
    case CrashInCancel(p) => p in s.clearing
    case PurgeData(w) =>
      Leases.InTime(s.queue, w) && s.queue.holds[w].job in s.queue.rows &&
      s.queue.rows[s.queue.holds[w].job].work.PurgeProject?
  }

  function JobsOf(rows: Rows, p: ProjectId, preserve: JobId): set<JobId> {
    set j | j in rows && j != preserve && rows[j].project == Some(p)
  }

  function Apply(s: World, e: Event): World
    requires Enabled(s, e)
  {
    match e
    case Queue(q) => s.(queue := Leases.Apply(s.queue, q, true))
    case Create => s.(projects := s.projects[s.nextProject := false], nextProject := s.nextProject + 1)
    case Delete(p) =>
      if p !in s.projects || p == LOCAL_PROJECT || s.projects[p] then s else
      s.(queue := Leases.Apply(s.queue, Leases.Submit(PurgeProject(p), Some(p), None), true),
        projects := s.projects[p := true])
    case Cancel(j) =>
      s.(queue := Leases.Apply(s.queue, Leases.CancelJob(j), true),
        clearing := s.clearing + {s.queue.rows[j].work.target})
    case ClearFlag(p) =>
      s.(projects := if p in s.projects then s.projects[p := false] else s.projects, clearing := s.clearing - {p})
    case CrashInCancel(p) => s.(clearing := s.clearing - {p})
    case PurgeData(w) =>
      var j := s.queue.holds[w].job;
      var p := s.queue.rows[j].work.target;
      s.(queue := Leases.Apply(s.queue, Leases.RemoveRows(JobsOf(s.queue.rows, p, j)), true),
        projects := s.projects - {p})
  }

  ghost function Exec(run: seq<Event>): Option<World>
    decreases |run|
  {
    if run == [] then Some(Start) else
    var before := Exec(run[..|run| - 1]);
    var e := run[|run| - 1];
    if before.Some? && Enabled(before.value, e) then Some(Apply(before.value, e)) else None
  }

  ghost predicate Valid(run: seq<Event>) { Exec(run).Some? }

  ghost function After(run: seq<Event>): World
    requires Valid(run)
  {
    Exec(run).value
  }

  // ---------------------------------------------------------------- at most one purge job

  ghost predicate LiveFor(rows: Rows, j: JobId, p: ProjectId) {
    IsPurgeOf(rows, j, p) && Outstanding(rows[j])
  }

  ghost predicate OnePurge(s: World) {
    && (forall j, k, p: ProjectId :: LiveFor(s.queue.rows, j, p) && LiveFor(s.queue.rows, k, p) ==> j == k)
    && (forall j, p: ProjectId :: LiveFor(s.queue.rows, j, p) ==>
         p < s.nextProject && p != LOCAL_PROJECT && p !in s.clearing && (p in s.projects ==> s.projects[p]))
  }

  ghost predicate Inv(s: World) {
    && Leases.Inv(s.queue)
    && OnePurge(s)
    && (forall p | p in s.projects :: p < s.nextProject)
    && (forall p | p in s.clearing :: p < s.nextProject && (p in s.projects ==> s.projects[p]))
  }

  lemma QueueStepKeepsLive(s: World, q: Leases.Event, j: JobId, p: ProjectId)
    requires Leases.Inv(s.queue) && QueueEventAllowed(s, q)
    requires LiveFor(Leases.Apply(s.queue, q, true).rows, j, p)
    ensures LiveFor(s.queue.rows, j, p)
  {
    if q.Retry? || q.Finish? || q.GiveUp? {
      assert Leases.HoldIsBacked(s.queue, q.worker);
    }
  }

  lemma StepKeepsInv(s: World, e: Event)
    requires Inv(s) && Enabled(s, e)
    ensures Inv(Apply(s, e))
  {
    var t := Apply(s, e);
    match e {
      case Queue(q) =>
        Leases.StepKeepsInv(s.queue, q);
        forall j, p: ProjectId | LiveFor(t.queue.rows, j, p) ensures LiveFor(s.queue.rows, j, p) {
          QueueStepKeepsLive(s, q, j, p);
        }
      case Create =>
      case Delete(p) =>
        if p in s.projects && p != LOCAL_PROJECT && !s.projects[p] {
          Leases.StepKeepsInv(s.queue, Leases.Submit(PurgeProject(p), Some(p), None));
          forall j, q: ProjectId | LiveFor(t.queue.rows, j, q)
            ensures if j == s.queue.nextId then q == p else q != p && LiveFor(s.queue.rows, j, q) {
            assert j != s.queue.nextId ==> LiveFor(s.queue.rows, j, q);
          }
        }
      case Cancel(j) =>
        Leases.StepKeepsInv(s.queue, Leases.CancelJob(j));
        assert LiveFor(s.queue.rows, j, s.queue.rows[j].work.target);
        forall k, q: ProjectId | LiveFor(t.queue.rows, k, q) ensures k != j && LiveFor(s.queue.rows, k, q) {}
      case ClearFlag(p) =>
      case CrashInCancel(p) =>
      case PurgeData(w) =>
        var j := s.queue.holds[w].job;
        Leases.StepKeepsInv(s.queue, Leases.RemoveRows(JobsOf(s.queue.rows, s.queue.rows[j].work.target, j)));
        forall k, q: ProjectId | LiveFor(t.queue.rows, k, q) ensures LiveFor(s.queue.rows, k, q) {}
    }
  }

  /** In every run: a project has at most one purge job that is not over, and while it has one the project
      is flagged deleting or already gone. */
  lemma {:induction false} AtMostOnePurge(run: seq<Event>)
    requires Valid(run)
    ensures Inv(After(run))
    decreases |run|
  {
    if run != [] {
      AtMostOnePurge(run[..|run| - 1]);
      StepKeepsInv(After(run[..|run| - 1]), run[|run| - 1]);
    }
  }

  // ---------------------------------------------------------------- a wedge that stays

  /** Flagged deleting, no purge job that could still run, and nobody about to lift the flag. */
  ghost predicate Stuck(s: World, p: ProjectId) {
    && p in s.projects && s.projects[p] && p != LOCAL_PROJECT && p !in s.clearing
    && !PurgeOutstanding(s.queue.rows, p)
  }

  lemma StepKeepsStuck(s: World, e: Event, p: ProjectId)
    requires Inv(s) && Enabled(s, e) && Stuck(s, p)
    ensures Stuck(Apply(s, e), p)
  {
    var t := Apply(s, e);
    assert forall j | j in s.queue.rows :: !LiveFor(s.queue.rows, j, p);
    if e.PurgeData? {
      assert Leases.HoldIsBacked(s.queue, e.worker);
      assert LiveFor(s.queue.rows, s.queue.holds[e.worker].job, s.queue.rows[s.queue.holds[e.worker].job].work.target);
    }
    if e.Cancel? {
      assert LiveFor(s.queue.rows, e.job, s.queue.rows[e.job].work.target);
    }
    if j :| j in t.queue.rows && IsPurgeOf(t.queue.rows, j, p) && Outstanding(t.queue.rows[j]) {
      if e.Queue? {
        QueueStepKeepsLive(s, e.event, j, p);
      }
    }
  }

  lemma Extend(run: seq<Event>, e: Event)
    requires Valid(run) && Enabled(After(run), e)
    ensures Valid(run + [e]) && After(run + [e]) == Apply(After(run), e)
  {
    assert (run + [e])[..|run + [e]| - 1] == run;
  }

  /** Once its purge job has ended without purging, or the server has died while lifting its flag, a project
      is stuck for good: whatever routes, workers and reapers do afterwards, it stays flagged deleting with no
      job to purge it, and wedged_projects keeps reporting it. */
  lemma {:induction false} StuckForever(run: seq<Event>, more: seq<Event>, p: ProjectId)
    requires Valid(run) && Stuck(After(run), p) && Valid(run + more)
    ensures Stuck(After(run + more), p)
    ensures var s := After(run + more); p in Wedged(s.queue.rows, s.projects, s.queue.clock)
    decreases |more|
  {
    if more == [] {
      assert run + more == run;
    } else {
      var most := more[..|more| - 1];
      assert (run + more)[..|run + more| - 1] == run + most;
      StuckForever(run, most, p);
      AtMostOnePurge(run + most);
      StepKeepsStuck(After(run + most), more[|more| - 1], p);
    }
  }

  lemma FirstDeletion() returns (run: seq<Event>, s: World)
    ensures Valid(run) && After(run) == s && s.projects == map[LOCAL_PROJECT := false, 1 := true] && s.clearing == {}
    ensures s.queue.rows == map[0 := NewJob(PurgeProject(1), Some(1), 1.0, 0.0)]
    ensures s.queue.clock == 1.0 && s.queue.holds == map[]
    ensures forall e: Event | e in run :: !e.Queue?
  {
    run, s := [], Start;
    Extend(run, Create);
    run, s := run + [Create], Apply(s, Create);
    var e := Delete(1);
    Extend(run, e);
    run, s := run + [e], Apply(s, e);
  }

  /** Such a project can arise: one purge that raises ValueError is enough. */
  lemma FailedPurgeSticks()
    ensures exists run, p :: Valid(run) && Stuck(After(run), p)
  {
    var run, s := FirstDeletion();
    var e := Queue(Leases.Claim(1, 0, 300));
    assert IsNextClaim(s.queue.rows, 0, s.queue.clock);
    Extend(run, e);
    run, s := run + [e], Apply(s, e);
    e := Queue(Leases.GiveUp(1));
    Extend(run, e);
    run, s := run + [e], Apply(s, e);
    assert Stuck(After(run), 1);
  }

  /** So can one crash between the two commits of a cancelled deletion. */
  lemma CrashedCancelSticks()
    ensures exists run, p :: Valid(run) && Stuck(After(run), p) && forall e: Event | e in run :: !e.Queue?
  {
    var run, s := FirstDeletion();
    var e := Cancel(0);
    Extend(run, e);
    run, s := run + [e], Apply(s, e);
    e := CrashInCancel(1);
    Extend(run, e);
    run, s := run + [e], Apply(s, e);
    assert Stuck(After(run), 1);
  }

  // ---------------------------------------------------------------- which projects can be freed

  /** The project is gone, or no longer flagged. */
  predicate Freed(s: World, p: ProjectId) {
    p in s.projects ==> !s.projects[p]
  }

  ghost predicate LeadsToFreedom(run: seq<Event>, more: seq<Event>, p: ProjectId) {
    Valid(run + more) && Freed(After(run + more), p)
  }

  lemma ExtendMore(run: seq<Event>, more: seq<Event>, e: Event)
    requires Valid(run + more) && Enabled(After(run + more), e)
    ensures Valid(run + (more + [e])) && After(run + (more + [e])) == Apply(After(run + more), e)
  {
    Extend(run + more, e);
    assert run + more + [e] == run + (more + [e]);
  }

  /** A purge job that is not over can be cancelled once its lease has lapsed. */
  lemma CancelFrees(run: seq<Event>, p: ProjectId, j: JobId) returns (more: seq<Event>)
    requires Valid(run) && IsPurgeOf(After(run).queue.rows, j, p) && Outstanding(After(run).queue.rows[j])
    ensures LeadsToFreedom(run, more, p)
  {
    var s := After(run);
    assert run + [] == run;
    var wait := Queue(Leases.Tick(MaxTime(s.queue.clock, s.queue.rows[j].leaseExpiresAt + 1.0)));
    ExtendMore(run, [], wait);
    ExtendMore(run, [] + [wait], Cancel(j));
    ExtendMore(run, [] + [wait] + [Cancel(j)], ClearFlag(p));
    more := [] + [wait] + [Cancel(j)] + [ClearFlag(p)];
  }

  /** Which flagged projects some continuation can free: exactly those that are not stuck. */
  lemma FreedIffNotStuck(run: seq<Event>, p: ProjectId)
    requires Valid(run) && p != LOCAL_PROJECT && !Freed(After(run), p)
    ensures (exists more :: LeadsToFreedom(run, more, p)) <==> !Stuck(After(run), p)
  {
    var s := After(run);
    if p in s.clearing {
      assert run + [] == run;
      ExtendMore(run, [], ClearFlag(p));
      assert LeadsToFreedom(run, [] + [ClearFlag(p)], p);
    } else if j :| j in s.queue.rows && IsPurgeOf(s.queue.rows, j, p) && Outstanding(s.queue.rows[j]) {
      var more := CancelFrees(run, p, j);
    } else {
      forall more | Valid(run + more) ensures !LeadsToFreedom(run, more, p) {
        StuckForever(run, more, p);
      }
    }
  }

  /** No purge job of a stuck project can be cancelled, now or ever. */
  lemma StuckJobsCannotBeCancelled(run: seq<Event>, more: seq<Event>, p: ProjectId, j: JobId)
    requires Valid(run) && Stuck(After(run), p) && Valid(run + more)
    requires IsPurgeOf(After(run + more).queue.rows, j, p)
    ensures !Cancellable(After(run + more).queue.rows, j, After(run + more).queue.clock)
  {
    StuckForever(run, more, p);
  }

  /** The recovery instructions for a project that is wedged after a reap are to cancel its purge job. Unless a
      cancel is about to lift its flag anyway, that is refused, now and ever, and the project is never freed. */
  lemma AdviceIsRefused(run: seq<Event>, more: seq<Event>, p: ProjectId, j: JobId)
    requires Valid(run) && Valid(run + [Queue(Leases.Reap)] + more)
    requires var s := After(run + [Queue(Leases.Reap)]);
      p in Wedged(s.queue.rows, s.projects, s.queue.clock) && p !in s.clearing
    requires IsPurgeOf(After(run + [Queue(Leases.Reap)] + more).queue.rows, j, p)
    ensures var t := After(run + [Queue(Leases.Reap)] + more);
      !Cancellable(t.queue.rows, j, t.queue.clock) && !Freed(t, p)
  {
    var reaped := run + [Queue(Leases.Reap)];
    Extend(run, Queue(Leases.Reap));
    assert Stuck(After(reaped), p);
    StuckJobsCannotBeCancelled(reaped, more, p, j);
    StuckForever(reaped, more, p);
  }
}
