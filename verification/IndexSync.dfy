/** Keeping the vector index in step with the memory rows: routes and bulk jobs change rows, and what remains
    to be done about the point of a changed row, a vector call or a reindex job to enqueue, is an errand that
    ends later. Runs are cut at every commit and at every vector call, so whatever other routes and workers do
    comes in between. */
module IndexSync {
  import opened Common
  import opened Jobs
  import M = Memories
  import Database
  import Leases
  import Text
  import Worker

  /** What the index holds of a memory, but for its vector. */
  datatype Point = Point(text: string, metadata: M.Metadata)

  /** What a route or worker has still to do once its rows are committed. */
  datatype Errand =
    | ToEnqueue(memory: MemoryId)                                          // a reindex job
    | ToWrite(memory: MemoryId, point: Option<Point>, origin: Origin)      // upsert, or delete if there is no point
    | ToRemove(memories: set<MemoryId>)                                    // one delete call

  /** An operation of a bulk job, or a reindex job with its row as it was claimed. */
  datatype Origin = Bulk | Reindexer(job: JobId, row: Job)

  /** `abandoned` is kept for the statements below: the memories whose point was left behind by a failed vector
      call outside bulk items, by a crash between the commit of the row and what follows it, by a vector call
      that wrote what its row no longer said, by a purge of the row alone, or by a reindex job that failed for
      good or was cancelled; and has not been written or given a new reindex job since. */
  datatype Index = Index(
    store: M.Store,
    points: map<MemoryId, Point>,
    jobs: Rows,
    nextJob: JobId,
    errands: multiset<Errand>,
    abandoned: set<MemoryId>)

  const Empty := Index(M.Store(map[], 0, []), map[], map[], 0, multiset{}, {})

  function PointOf(row: M.Memory): Point {
    Point(row.text, row.metadata)
  }

  /** What the row says the index should hold. */
  function Wanted(s: Index, m: MemoryId): Option<Point> {
    if M.IsActive(s.store, m) then Some(PointOf(s.store.memories[m])) else None
  }

  // ---------------------------------------------------------------- errands

  function Begun(s: Index, e: Errand): Index {
    s.(errands := s.errands + multiset{e})
  }

  function Reindexing(s: Index, m: MemoryId, now: Time): Index {
    s.(jobs := Enqueued(s.jobs, s.nextJob, ReindexMemory(m), None, now, 0.0), nextJob := s.nextJob + 1,
       abandoned := s.abandoned - {m})
  }

  function LeftBehind(s: Index, ms: set<MemoryId>): Index {
    s.(abandoned := s.abandoned + ms)
  }

  /** A vector call wrote `point`, which may not be what the row says any more. */
  function Wrote(s: Index, m: MemoryId, point: Option<Point>): Index {
    s.(points := if point.None? then s.points - {m} else s.points[m := point.value],
       abandoned := if point == Wanted(s, m) then s.abandoned - {m} else s.abandoned + {m})
  }

  /** A reindex job that is over without having run through leaves its memory behind. */
  function Dropped(s: Index, j: JobId): Index {
    if j in s.jobs && s.jobs[j].work.ReindexMemory? && Terminal(s.jobs[j])
    then LeftBehind(s, {s.jobs[j].work.memory}) else s
  }

  /** run_once settles the reindex job, whoever holds it by now. */
  function Settled(s: Index, j: JobId, row: Job, outcome: Worker.Outcome): Index {
    var t := s.(jobs := Worker.SettledRows(s.jobs, j, row, outcome));
    if outcome.Lost? then t else Dropped(t, j)
  }

  /** The call went through, or failed, or never came: the process died. */
  datatype Call = Accepted | Refused | NeverMade

  /** How an errand ends; `outcome` is how run_once on a reindex job ends behind its vector call. */
  function Ended(s: Index, e: Errand, call: Call, outcome: Worker.Outcome, now: Time): Index {
    match e
    case ToEnqueue(m) => if call.Accepted? then Reindexing(s, m, now) else LeftBehind(s, {m})
    case ToRemove(ms) =>
      if call.Accepted? then s.(points := s.points - ms, abandoned := s.abandoned - ms) else LeftBehind(s, ms)
    case ToWrite(m, point, Bulk) =>
      (match call
       case Accepted => Wrote(s, m, point)
       case Refused => Reindexing(s, m, now)
       case NeverMade => LeftBehind(s, {m}))
    case ToWrite(m, point, Reindexer(j, row)) =>
      var t := Settled(s, j, row, outcome);
      if call.Accepted? then Wrote(t, m, point) else t
  }

  // ---------------------------------------------------------------- steps

  /** A route that writes one memory commits its row. */
  function RowWritten(s: Index, m: MemoryId, result: M.Result): Index {
    if result.Error? then s else Begun(s.(store := result.store), ToEnqueue(m))
  }

  function BulkRowWritten(s: Index, m: MemoryId, text: Option<string>, metadata: Option<M.Metadata>): Index {
    var result := M.Updated(s.store, m, text, metadata);
    if result.Error? then s else
    var t := s.(store := result.store);
    Begun(t, ToWrite(m, Wanted(t, m), Bulk))
  }

  function BulkRowRemoved(s: Index, m: MemoryId): Index {
    if !M.IsActive(s.store, m) then s
    else Begun(s.(store := M.Buried(s.store, m)), ToWrite(m, None, Bulk))
  }

  function Targets(rows: seq<MemoryId>): set<MemoryId> {
    set m | m in rows
  }

  function RowsDeleted(s: Index, rows: seq<MemoryId>): Index
    requires forall m | m in rows :: m in s.store.memories
  {
    Begun(s.(store := M.BuriedAll(s.store, rows)), ToRemove(Targets(rows)))
  }

  /** A worker claims a reindex job and reads the row; without a row it raises at once. */
  function ReindexStarted(s: Index, j: JobId, worker: WorkerId, ttl: int, now: Time): Index
    requires j in s.jobs && s.jobs[j].work.ReindexMemory?
  {
    var m := s.jobs[j].work.memory;
    var t := s.(jobs := Claimed(s.jobs, j, worker, now, ttl));
    if m !in s.store.memories then Settled(t, j, t.jobs[j], Worker.RaisedOther)
    else Begun(t, ToWrite(m, Wanted(s, m), Reindexer(j, t.jobs[j])))
  }

  /** A purge of a project or a tag deletes the points by tag, and then the rows. */
  function RowsWiped(s: Index, ids: set<MemoryId>): Index {
    s.(store := M.Store(s.store.memories - ids, s.store.nextMemory, HistoryOutside(s.store.history, ids)),
       abandoned := s.abandoned + ids * s.points.Keys)
  }

  function HistoryOutside(history: seq<M.Entry>, ids: set<MemoryId>): seq<M.Entry> {
    if history == [] then [] else
    HistoryOutside(history[..|history| - 1], ids)
      + if history[|history| - 1].memory in ids then [] else [history[|history| - 1]]
  }

  function CancelRan(s: Index, j: JobId, now: Time): Index {
    if Cancellable(s.jobs, j, now) then Dropped(s.(jobs := CancelledRows(s.jobs, j, now)), j) else s
  }

  datatype Event =
    | Create(text: string, metadata: M.Metadata)
    | Rewrite(memory: MemoryId, newText: Option<string>, newMetadata: Option<M.Metadata>)
    | Categorize(memory: MemoryId, category: string)
    | BulkUpdate(memory: MemoryId, newText: Option<string>, newMetadata: Option<M.Metadata>)
    | BulkRemove(memory: MemoryId)
    | Delete(rows: seq<MemoryId>)
    | StartReindex(job: JobId)
    | Finish(errand: Errand, call: Call, outcome: Worker.Outcome)
    | WipePoints(ids: set<MemoryId>)
    | WipeRows(ids: set<MemoryId>)
    | Cancel(job: JobId)
    | OtherJobs(table: Rows, next: JobId)

  /** Any other change of the job table keeps every reindex job that is not settled, adds none, and gives no id
      twice. */
  ghost predicate OnlyOthers(s: Index, table: Rows, next: JobId) {
    && s.nextJob <= next
    && (forall j | j in s.jobs && s.jobs[j].work.ReindexMemory? && Outstanding(s.jobs[j]) ::
          j in table && Outstanding(table[j]))
    && (forall j | j in table && table[j].work.ReindexMemory? && Outstanding(table[j]) ::
          j in s.jobs && Outstanding(s.jobs[j]))
    && (forall j | j in table && j in s.jobs :: table[j].work == s.jobs[j].work)
    && (forall j | j in table && j !in s.jobs :: s.nextJob <= j < next)
  }

  predicate QueuedAs(s: Index, j: JobId, work: Work) {
    j in s.jobs && s.jobs[j].status == Queued && s.jobs[j].work == work
  }

  predicate AllActive(s: Index, rows: seq<MemoryId>) {
    forall m | m in rows :: M.IsActive(s.store, m)
  }

  ghost predicate Enabled(s: Index, e: Event) {
    match e
    case Delete(rows) => AllActive(s, rows)
    case StartReindex(j) => j in s.jobs && s.jobs[j].status == Queued && s.jobs[j].work.ReindexMemory?
    case Finish(errand, call, outcome) => errand in s.errands && (outcome.Returned? ==> call.Accepted?)
    case OtherJobs(table, next) => OnlyOthers(s, table, next)
    case _ => true
  }

  ghost function Apply(s: Index, e: Event, now: Time): Index
    requires Enabled(s, e)
  {
    match e
    case Create(text, metadata) => RowWritten(s, s.store.nextMemory, M.Created(s.store, text, metadata, None))
    case Rewrite(m, text, metadata) => RowWritten(s, m, M.Updated(s.store, m, text, metadata))
    case Categorize(m, category) => RowWritten(s, m, M.Categorized(s.store, m, category))
    case BulkUpdate(m, text, metadata) => BulkRowWritten(s, m, text, metadata)
    case BulkRemove(m) => BulkRowRemoved(s, m)
    case Delete(rows) => RowsDeleted(s, rows)
    case StartReindex(j) => ReindexStarted(s, j, 0, 300, now)
    case Finish(errand, call, outcome) =>
      Ended(s.(errands := s.errands - multiset{errand}), errand, call, outcome, now)
    case WipePoints(ids) => s.(points := s.points - ids)
    case WipeRows(ids) => RowsWiped(s, ids)
    case Cancel(j) => CancelRan(s, j, now)
    case OtherJobs(table, next) => s.(jobs := table, nextJob := next)
  }

  datatype Stamped = Stamped(event: Event, now: Time)

  /** The state a run ends in, or None if some event of it was not enabled when its turn came. */
  ghost function Exec(s: Index, run: seq<Stamped>): Option<Index>
    decreases |run|
  {
    if run == [] then Some(s) else Then(Exec(s, run[..|run| - 1]), run[|run| - 1])
  }

  ghost function Then(before: Option<Index>, last: Stamped): Option<Index> {
    if before.Some? && Enabled(before.value, last.event) then Some(Apply(before.value, last.event, last.now)) else None
  }

  lemma ExecOneMore(s: Index, run: seq<Stamped>, e: Event, now: Time)
    requires Exec(s, run).Some? && Enabled(Exec(s, run).value, e)
    ensures Exec(s, run + [Stamped(e, now)]) == Some(Apply(Exec(s, run).value, e, now))
  {
    assert (run + [Stamped(e, now)])[..|run|] == run;
  }

  // ---------------------------------------------------------------- what every run keeps

  predicate InStep(s: Index, m: MemoryId) {
    m in s.points && Wanted(s, m) == Some(s.points[m])
  }

  ghost predicate PendingAt(s: Index, m: MemoryId, j: JobId) {
    j in s.jobs && s.jobs[j].work == ReindexMemory(m) && Outstanding(s.jobs[j])
  }

  ghost predicate Pending(s: Index, m: MemoryId) {
    exists j :: PendingAt(s, m, j)
  }

  /** However this errand ends, the point of m is written, or waited for by a reindex job, or left behind. */
  predicate Owes(e: Errand, m: MemoryId) {
    match e
    case ToEnqueue(k) => k == m
    case ToRemove(ms) => m in ms
    case ToWrite(k, _, origin) => k == m && origin.Bulk?
  }

  ghost predicate Owed(s: Index, m: MemoryId) {
    exists e :: e in s.errands && Owes(e, m)
  }

  /** A point that is not what its row says is waited for by a reindex job, or dealt with by an errand under way,
      or known to be left behind. */
  ghost predicate Covered(s: Index, m: MemoryId) {
    m in s.points ==> InStep(s, m) || Pending(s, m) || Owed(s, m) || m in s.abandoned
  }

  /** A reindex run knows its job. */
  predicate KnowsItsJob(s: Index, e: Errand) {
    e.ToWrite? && e.origin.Reindexer? ==>
      var j := e.origin.job;
      && j < s.nextJob && e.origin.row.work == ReindexMemory(e.memory)
      && (j in s.jobs ==> s.jobs[j].work == ReindexMemory(e.memory))
  }

  ghost predicate InOrder(s: Index) {
    && (forall j | j in s.jobs :: j < s.nextJob)
    && (forall m: MemoryId | m in s.store.memories :: m < s.store.nextMemory)
    && (forall e | e in s.errands :: KnowsItsJob(s, e))
  }

  ghost predicate Sound(s: Index) {
    InOrder(s) && forall m: MemoryId :: Covered(s, m)
  }

  lemma EmptySound()
    ensures Sound(Empty)
  {}

  /** Nothing about m but perhaps its row number in tables changes: reindex jobs not settled in s are not settled
      in t, its errands are still under way, its point and row are the same. */
  ghost predicate Untouched(s: Index, t: Index, m: MemoryId) {
    && (forall j | PendingAt(s, m, j) :: PendingAt(t, m, j))
    && (forall e | e in s.errands && Owes(e, m) :: e in t.errands)
    && (m in t.points ==> m in s.points && t.points[m] == s.points[m])
    && Wanted(t, m) == Wanted(s, m)
    && (m in s.abandoned ==> m in t.abandoned)
  }

  lemma StaysCovered(s: Index, t: Index, m: MemoryId)
    requires Covered(s, m) && Untouched(s, t, m)
    ensures Covered(t, m)
  {
    if Pending(s, m) {
      var j :| PendingAt(s, m, j);
      assert PendingAt(t, m, j);
    }
    if Owed(s, m) {
      var e :| e in s.errands && Owes(e, m);
      assert e in t.errands && Owes(e, m);
    }
  }

  lemma ReindexingCovers(s: Index, m: MemoryId, now: Time)
    ensures Pending(Reindexing(s, m, now), m)
  {
    assert PendingAt(Reindexing(s, m, now), m, s.nextJob);
  }

  /** The store of t is that of s with the row of m, and of no other memory, written. */
  ghost predicate OnlyRow(s: M.Store, t: M.Store, m: MemoryId) {
    && t.memories.Keys == s.memories.Keys + {m}
    && (forall k | k in s.memories && k != m :: t.memories[k] == s.memories[k])
    && s.nextMemory <= t.nextMemory && m < t.nextMemory
  }

  /** A commit that writes the row of m and begins an errand that owes it its point. */
  lemma CommitSound(s: Index, store: M.Store, m: MemoryId, e: Errand)
    requires Sound(s) && OnlyRow(s.store, store, m) && Owes(e, m)
    ensures Sound(Begun(s.(store := store), e))
  {
    var t := Begun(s.(store := store), e);
    forall k: MemoryId ensures Covered(t, k) {
      assert Covered(s, k);
      if k != m {
        StaysCovered(s, t, k);
      } else {
        assert e in t.errands;
      }
    }
  }

  lemma {:induction false} BuriedRows(s: M.Store, rows: seq<MemoryId>)
    requires forall m | m in rows :: m in s.memories
    ensures var t := M.BuriedAll(s, rows);
      && t.nextMemory == s.nextMemory && t.memories.Keys == s.memories.Keys
      && (forall m | m in rows :: t.memories[m].state == M.Deleted)
      && (forall m | m in s.memories && m !in rows :: t.memories[m] == s.memories[m])
    decreases |rows|
  {
    if rows != [] {
      var front, last := rows[..|rows| - 1], rows[|rows| - 1];
      assert rows == front + [last];
      BuriedRows(s, front);
    }
  }

  lemma DeleteSound(s: Index, rows: seq<MemoryId>)
    requires Sound(s) && forall m | m in rows :: m in s.store.memories
    ensures Sound(RowsDeleted(s, rows))
  {
    var t, e := RowsDeleted(s, rows), ToRemove(Targets(rows));
    BuriedRows(s.store, rows);
    forall k: MemoryId ensures Covered(t, k) {
      assert Covered(s, k);
      if k in rows {
        assert e in t.errands && Owes(e, k);
      } else {
        StaysCovered(s, t, k);
      }
    }
  }

  /** An errand that is over no longer counts. */
  function Without(s: Index, e: Errand): Index {
    s.(errands := s.errands - multiset{e})
  }

  lemma OthersStay(s: Index, e: Errand, t: Index, k: MemoryId)
    requires Covered(s, k) && !Owes(e, k) && Untouched(Without(s, e), t, k)
    ensures Covered(t, k)
  {
    assert forall x | x in s.errands && Owes(x, k) :: x in Without(s, e).errands;
    assert forall j | PendingAt(s, k, j) :: PendingAt(Without(s, e), k, j);
    StaysCovered(s, t, k);
  }

  /** An errand that owes m its point is over, and the point of m is dealt with; nothing else has changed. */
  lemma PaidSound(s: Index, e: Errand, t: Index, m: MemoryId)
    requires Sound(s) && InOrder(t) && Covered(t, m)
    requires forall k: MemoryId | k != m :: !Owes(e, k) && Untouched(Without(s, e), t, k)
    ensures Sound(t)
  {
    forall k: MemoryId ensures Covered(t, k) {
      assert Covered(s, k);
      if k != m {
        OthersStay(s, e, t, k);
      }
    }
  }

  lemma ReindexingSound(s: Index, e: Errand, m: MemoryId, now: Time)
    requires Sound(s) && Owes(e, m) && !e.ToRemove?
    ensures Sound(Reindexing(Without(s, e), m, now))
  {
    var t := Reindexing(Without(s, e), m, now);
    ReindexingCovers(Without(s, e), m, now);
    assert forall x | x in t.errands :: x in s.errands && KnowsItsJob(s, x);
    PaidSound(s, e, t, m);
  }

  lemma LeftBehindSound(s: Index, e: Errand, m: MemoryId)
    requires Sound(s) && Owes(e, m) && !e.ToRemove?
    ensures Sound(LeftBehind(Without(s, e), {m}))
  {
    var t := LeftBehind(Without(s, e), {m});
    assert forall x | x in t.errands :: x in s.errands && KnowsItsJob(s, x);
    PaidSound(s, e, t, m);
  }

  lemma BulkWroteSound(s: Index, e: Errand)
    requires Sound(s) && e.ToWrite? && e.origin.Bulk?
    ensures Sound(Wrote(Without(s, e), e.memory, e.point))
  {
    var t := Wrote(Without(s, e), e.memory, e.point);
    assert forall x | x in t.errands :: x in s.errands && KnowsItsJob(s, x);
    PaidSound(s, e, t, e.memory);
  }

  lemma EnqueueSound(s: Index, e: Errand, call: Call, outcome: Worker.Outcome, now: Time)
    requires Sound(s) && e in s.errands && (e.ToEnqueue? || (e.ToWrite? && e.origin.Bulk?))
    ensures Sound(Ended(Without(s, e), e, call, outcome, now))
  {
    if e.ToWrite? {
      BulkWroteSound(s, e);
    }
    ReindexingSound(s, e, e.memory, now);
    LeftBehindSound(s, e, e.memory);
  }

  lemma RemoveSound(s: Index, e: Errand, call: Call, outcome: Worker.Outcome, now: Time)
    requires Sound(s) && e in s.errands && e.ToRemove?
    ensures Sound(Ended(Without(s, e), e, call, outcome, now))
  {
    var t := Ended(Without(s, e), e, call, outcome, now);
    forall k: MemoryId ensures Covered(t, k) {
      assert Covered(s, k);
      if k !in e.memories {
        OthersStay(s, e, t, k);
      }
    }
  }

  /** Settling job j, of memory m, touches no other memory. */
  lemma SettlingTouches(s: Index, j: JobId, row: Job, outcome: Worker.Outcome, m: MemoryId)
    requires InOrder(s) && row.work == ReindexMemory(m) && (j in s.jobs ==> s.jobs[j].work == ReindexMemory(m))
    ensures var t := Settled(s, j, row, outcome);
      && InOrder(t) && t == s.(jobs := t.jobs, abandoned := t.abandoned) && t.jobs.Keys == s.jobs.Keys
      && (forall i | i in s.jobs && i != j :: t.jobs[i] == s.jobs[i])
      && (j in s.jobs ==> t.jobs[j].work == ReindexMemory(m))
      && s.abandoned <= t.abandoned <= s.abandoned + {m}
  {}

  /** Unless it is over without having run through, a job that was settled is still pending. */
  lemma SettledSound(s: Index, j: JobId, row: Job, outcome: Worker.Outcome, m: MemoryId)
    requires Sound(s) && row.work == ReindexMemory(m) && (j in s.jobs ==> s.jobs[j].work == ReindexMemory(m))
    ensures Sound(Settled(s, j, row, outcome))
  {
    var t := Settled(s, j, row, outcome);
    SettlingTouches(s, j, row, outcome, m);
    forall k: MemoryId ensures Covered(t, k) {
      assert Covered(s, k);
      if k != m || m !in t.abandoned {
        assert forall i | PendingAt(s, k, i) :: PendingAt(t, k, i);
        StaysCovered(s, t, k);
      }
    }
  }

  lemma WroteSound(s: Index, m: MemoryId, point: Option<Point>)
    requires Sound(s)
    ensures Sound(Wrote(s, m, point))
  {
    var t := Wrote(s, m, point);
    forall k: MemoryId ensures Covered(t, k) {
      assert Covered(s, k);
      if k != m {
        StaysCovered(s, t, k);
      }
    }
  }

  lemma ReindexEndSound(s: Index, e: Errand, call: Call, outcome: Worker.Outcome, now: Time)
    requires Sound(s) && e in s.errands && e.ToWrite? && e.origin.Reindexer?
    ensures Sound(Ended(Without(s, e), e, call, outcome, now))
  {
    var u := Without(s, e);
    forall k: MemoryId ensures Covered(u, k) {
      assert Covered(s, k);
      OthersStay(s, e, u, k);
    }
    assert KnowsItsJob(s, e);
    SettledSound(u, e.origin.job, e.origin.row, outcome, e.memory);
    WroteSound(Settled(u, e.origin.job, e.origin.row, outcome), e.memory, e.point);
  }

  /** The worker has the job and the row; nothing else has changed. */
  lemma ClaimSound(s: Index, j: JobId, now: Time)
    requires Sound(s) && Enabled(s, StartReindex(j))
    ensures Sound(s.(jobs := Claimed(s.jobs, j, 0, now, 300)))
  {
    var t := s.(jobs := Claimed(s.jobs, j, 0, now, 300));
    forall k: MemoryId ensures Covered(t, k) {
      assert Covered(s, k);
      assert forall i | PendingAt(s, k, i) :: PendingAt(t, k, i);
      StaysCovered(s, t, k);
    }
  }

  lemma StartSound(s: Index, j: JobId, now: Time)
    requires Sound(s) && Enabled(s, StartReindex(j))
    ensures Sound(ReindexStarted(s, j, 0, 300, now))
  {
    var m := s.jobs[j].work.memory;
    var t := s.(jobs := Claimed(s.jobs, j, 0, now, 300));
    ClaimSound(s, j, now);
    if m !in s.store.memories {
      SettledSound(t, j, t.jobs[j], Worker.RaisedOther, m);
    } else {
      var e := ToWrite(m, Wanted(s, m), Reindexer(j, t.jobs[j]));
      forall k: MemoryId ensures Covered(Begun(t, e), k) {
        assert Covered(t, k);
        StaysCovered(t, Begun(t, e), k);
      }
    }
  }

  lemma WipeSound(s: Index, e: Event, now: Time)
    requires Sound(s) && (e.WipePoints? || e.WipeRows?)
    ensures Sound(Apply(s, e, now))
  {
    var t := Apply(s, e, now);
    forall k: MemoryId ensures Covered(t, k) {
      assert Covered(s, k);
      if k !in e.ids {
        StaysCovered(s, t, k);
      }
    }
  }

  lemma CancelSound(s: Index, j: JobId, now: Time)
    requires Sound(s)
    ensures Sound(CancelRan(s, j, now))
  {
    var t := CancelRan(s, j, now);
    forall k: MemoryId ensures Covered(t, k) {
      assert Covered(s, k);
      if !(Cancellable(s.jobs, j, now) && s.jobs[j].work == ReindexMemory(k)) {
        assert forall i | PendingAt(s, k, i) :: PendingAt(t, k, i);
        StaysCovered(s, t, k);
      }
    }
  }

  lemma OthersSound(s: Index, table: Rows, next: JobId)
    requires Sound(s) && OnlyOthers(s, table, next)
    ensures Sound(s.(jobs := table, nextJob := next))
  {
    var t := s.(jobs := table, nextJob := next);
    assert forall e | e in s.errands :: KnowsItsJob(s, e);
    forall k: MemoryId ensures Covered(t, k) {
      assert Covered(s, k);
      assert forall i | PendingAt(s, k, i) :: PendingAt(t, k, i);
      StaysCovered(s, t, k);
    }
  }

  lemma RowSound(s: Index, m: MemoryId, result: M.Result)
    requires Sound(s) && (result.Ok? ==> OnlyRow(s.store, result.store, m))
    ensures Sound(RowWritten(s, m, result))
  {
    if result.Ok? {
      CommitSound(s, result.store, m, ToEnqueue(m));
    }
  }

  lemma StepSound(s: Index, e: Event, now: Time)
    requires Sound(s) && Enabled(s, e)
    ensures Sound(Apply(s, e, now))
  {
    match e
    case Create(text, metadata) => RowSound(s, s.store.nextMemory, M.Created(s.store, text, metadata, None));
    case Rewrite(m, text, metadata) => RowSound(s, m, M.Updated(s.store, m, text, metadata));
    case Categorize(m, category) => RowSound(s, m, M.Categorized(s.store, m, category));
    case BulkUpdate(m, text, metadata) =>
      var result := M.Updated(s.store, m, text, metadata);
      if result.Ok? {
        CommitSound(s, result.store, m, ToWrite(m, Wanted(s.(store := result.store), m), Bulk));
      }
    case BulkRemove(m) =>
      if M.IsActive(s.store, m) {
        CommitSound(s, M.Buried(s.store, m), m, ToWrite(m, None, Bulk));
      }
    case Delete(rows) => DeleteSound(s, rows);
    case StartReindex(j) => StartSound(s, j, now);
    case Finish(errand, call, outcome) =>
      if errand.ToRemove? {
        RemoveSound(s, errand, call, outcome, now);
      } else if errand.ToWrite? && errand.origin.Reindexer? {
        ReindexEndSound(s, errand, call, outcome, now);
      } else {
        EnqueueSound(s, errand, call, outcome, now);
      }
    case WipePoints(_) => WipeSound(s, e, now);
    case WipeRows(_) => WipeSound(s, e, now);
    case Cancel(j) => CancelSound(s, j, now);
    case OtherJobs(table, next) => OthersSound(s, table, next);
  }

  /** Index convergence: after every run, however routes and workers interleave between their commits and vector
      calls, a point that differs from its row has a reindex job that is not settled, or an errand under way
      that deals with it, unless its memory was left behind. */
  lemma {:induction false} NoSilentDrift(s: Index, run: seq<Stamped>)
    requires Sound(s) && Exec(s, run).Some?
    ensures Sound(Exec(s, run).value)
    decreases |run|
  {
    if run != [] {
      NoSilentDrift(s, run[..|run| - 1]);
      StepSound(Exec(s, run[..|run| - 1]).value, run[|run| - 1].event, run[|run| - 1].now);
    }
  }

  /** Once nobody is about to deal with it and it was not left behind, the index says what the row says. */
  lemma QuietIsInStep(s: Index, run: seq<Stamped>, m: MemoryId)
    requires Sound(s) && Exec(s, run).Some? && m in Exec(s, run).value.points
    requires var t := Exec(s, run).value; !Pending(t, m) && !Owed(t, m) && m !in t.abandoned
    ensures InStep(Exec(s, run).value, m)
  {
    NoSilentDrift(s, run);
    assert Covered(Exec(s, run).value, m);
  }

  // ---------------------------------------------------------------- points that come back

  predicate IsDeleted(s: Index, m: MemoryId) {
    m in s.store.memories && s.store.memories[m].state == M.Deleted
  }

  /** Deleted, or purged with its project or tag. */
  predicate Gone(s: Index, m: MemoryId) {
    m < s.store.nextMemory && !M.IsActive(s.store, m)
  }

  /** A vector call under way that read the row while it was active. */
  predicate BringsBack(e: Errand, m: MemoryId) {
    e.ToWrite? && e.memory == m && e.point.Some?
  }

  ghost predicate CanReturn(s: Index, m: MemoryId) {
    exists e :: e in s.errands && BringsBack(e, m)
  }

  ghost predicate Absent(s: Index, m: MemoryId) {
    Gone(s, m) && m !in s.points && !CanReturn(s, m)
  }

  lemma RowWrittenStaysAbsent(s: Index, m: MemoryId, k: MemoryId, result: M.Result)
    requires Sound(s) && Absent(s, m) && (result.Ok? ==> k != m && OnlyRow(s.store, result.store, k))
    ensures Absent(RowWritten(s, k, result), m)
  {
    var t := RowWritten(s, k, result);
    assert forall e | e in t.errands && BringsBack(e, m) :: e in s.errands;
  }

  lemma BulkStaysAbsent(s: Index, e: Event, now: Time, m: MemoryId)
    requires Sound(s) && Absent(s, m) && (e.BulkUpdate? || e.BulkRemove?)
    ensures Absent(Apply(s, e, now), m)
  {
    var t := Apply(s, e, now);
    assert forall x | x in t.errands && BringsBack(x, m) :: x in s.errands;
  }

  lemma DeleteStaysAbsent(s: Index, rows: seq<MemoryId>, m: MemoryId)
    requires Sound(s) && Absent(s, m) && AllActive(s, rows)
    ensures Absent(RowsDeleted(s, rows), m)
  {
    var t := RowsDeleted(s, rows);
    BuriedRows(s.store, rows);
    assert forall e | e in t.errands && BringsBack(e, m) :: e in s.errands;
  }

  lemma StartStaysAbsent(s: Index, j: JobId, now: Time, m: MemoryId)
    requires Sound(s) && Absent(s, m) && Enabled(s, StartReindex(j))
    ensures Absent(ReindexStarted(s, j, 0, 300, now), m)
  {
    var t := ReindexStarted(s, j, 0, 300, now);
    assert forall e | e in t.errands && BringsBack(e, m) :: e in s.errands;
  }

  lemma FewerErrandsStayAbsent(s: Index, t: Index, m: MemoryId)
    requires Absent(s, m) && t.errands <= s.errands && t.store == s.store && m !in t.points
    ensures Absent(t, m)
  {
    assert forall e | e in t.errands && BringsBack(e, m) :: e in s.errands;
  }

  lemma WroteStaysAbsent(s: Index, k: MemoryId, point: Option<Point>, m: MemoryId)
    requires Absent(s, m) && (k == m ==> point.None?)
    ensures Absent(Wrote(s, k, point), m)
  {
    FewerErrandsStayAbsent(s, Wrote(s, k, point), m);
  }

  lemma ReindexStaysAbsent(s: Index, e: Errand, call: Call, outcome: Worker.Outcome, now: Time, m: MemoryId)
    requires Sound(s) && Absent(s, m) && e in s.errands && e.ToWrite? && e.origin.Reindexer?
    ensures Absent(Ended(Without(s, e), e, call, outcome, now), m)
  {
    var u := Without(s, e);
    assert KnowsItsJob(s, e) && !BringsBack(e, m);
    var v := Settled(u, e.origin.job, e.origin.row, outcome);
    SettlingTouches(u, e.origin.job, e.origin.row, outcome, e.memory);
    FewerErrandsStayAbsent(s, v, m);
    WroteStaysAbsent(v, e.memory, e.point, m);
  }

  lemma BulkEndStaysAbsent(s: Index, e: Errand, call: Call, outcome: Worker.Outcome, now: Time, m: MemoryId)
    requires Absent(s, m) && e in s.errands && e.ToWrite? && e.origin.Bulk?
    ensures Absent(Ended(Without(s, e), e, call, outcome, now), m)
  {
    assert !BringsBack(e, m);
    FewerErrandsStayAbsent(s, Ended(Without(s, e), e, call, outcome, now), m);
  }

  lemma FinishStaysAbsent(s: Index, errand: Errand, call: Call, outcome: Worker.Outcome, now: Time, m: MemoryId)
    requires Sound(s) && Absent(s, m) && errand in s.errands
    ensures Absent(Ended(Without(s, errand), errand, call, outcome, now), m)
  {
    if !errand.ToWrite? {
      FewerErrandsStayAbsent(s, Ended(Without(s, errand), errand, call, outcome, now), m);
    } else if errand.origin.Bulk? {
      BulkEndStaysAbsent(s, errand, call, outcome, now, m);
    } else {
      ReindexStaysAbsent(s, errand, call, outcome, now, m);
    }
  }

  lemma OutsideStaysAbsent(s: Index, e: Event, now: Time, m: MemoryId)
    requires Sound(s) && Absent(s, m) && Enabled(s, e)
    requires e.WipePoints? || e.WipeRows? || e.Cancel? || e.OtherJobs?
    ensures Absent(Apply(s, e, now), m)
  {
    var t := Apply(s, e, now);
    assert t.errands == s.errands;
    assert forall x | x in t.errands && BringsBack(x, m) :: x in s.errands;
  }

  lemma AbsentStep(s: Index, e: Event, now: Time, m: MemoryId)
    requires Sound(s) && Enabled(s, e) && Absent(s, m)
    ensures Absent(Apply(s, e, now), m)
  {
    match e
    case Create(text, metadata) =>
      RowWrittenStaysAbsent(s, m, s.store.nextMemory, M.Created(s.store, text, metadata, None));
    case Rewrite(k, text, metadata) => RowWrittenStaysAbsent(s, m, k, M.Updated(s.store, k, text, metadata));
    case Categorize(k, category) => RowWrittenStaysAbsent(s, m, k, M.Categorized(s.store, k, category));
    case BulkUpdate(_, _, _) => BulkStaysAbsent(s, e, now, m);
    case BulkRemove(_) => BulkStaysAbsent(s, e, now, m);
    case Delete(rows) => DeleteStaysAbsent(s, rows, m);
    case StartReindex(j) => StartStaysAbsent(s, j, now, m);
    case Finish(errand, call, outcome) => FinishStaysAbsent(s, errand, call, outcome, now, m);
    case _ => OutsideStaysAbsent(s, e, now, m);
  }

  /** A reindex job left over from before a delete cannot bring the point back, whatever runs when: only a vector
      call that had read the row before it was deleted could. */
  lemma {:induction false} DeletedStaysGone(s: Index, run: seq<Stamped>, m: MemoryId)
    requires Sound(s) && Exec(s, run).Some? && Absent(s, m)
    ensures Absent(Exec(s, run).value, m)
    decreases |run|
  {
    if run != [] {
      var front, last := run[..|run| - 1], run[|run| - 1];
      DeletedStaysGone(s, front, m);
      NoSilentDrift(s, front);
      AbsentStep(Exec(s, front).value, last.event, last.now, m);
    }
  }

  ghost predicate ComesBack(s: Index, run: seq<Stamped>, m: MemoryId) {
    Exec(s, run).Some? && m in Exec(s, run).value.points
  }

  lemma ErrandBringsBack(s: Index, e: Errand, m: MemoryId)
    requires Sound(s) && Gone(s, m) && m !in s.points && e in s.errands && BringsBack(e, m)
    ensures exists run: seq<Stamped> :: ComesBack(s, run, m)
  {
    ExecOneMore(s, [], Finish(e, Accepted, Worker.Lost), 0.0);
    assert ComesBack(s, [] + [Stamped(Finish(e, Accepted, Worker.Lost), 0.0)], m);
  }

  /** The point of a memory that is gone can come back if and only if a vector call is under way that read the
      row before. */
  lemma PointReturnsIff(s: Index, m: MemoryId)
    requires Sound(s) && Gone(s, m) && m !in s.points
    ensures (exists run: seq<Stamped> :: ComesBack(s, run, m)) <==> CanReturn(s, m)
  {
    if CanReturn(s, m) {
      var e :| e in s.errands && BringsBack(e, m);
      ErrandBringsBack(s, e, m);
    } else {
      forall run: seq<Stamped> | Exec(s, run).Some? ensures !ComesBack(s, run, m) {
        DeletedStaysGone(s, run, m);
      }
    }
  }

  // ---------------------------------------------------------------- points that stay

  /** An errand under way that may yet remove the point of the deleted memory m, or lead to a job that does. */
  predicate MayRemove(s: Index, e: Errand, m: MemoryId) {
    || Owes(e, m)
    || (e.ToWrite? && e.memory == m && e.origin.Reindexer? &&
        (e.point.None? || (e.origin.job in s.jobs && e.origin.row.attempts < Leases.MAX_ATTEMPTS)))
  }

  ghost predicate Awaited(s: Index, m: MemoryId) {
    Pending(s, m) || exists e :: e in s.errands && MayRemove(s, e, m)
  }

  ghost predicate Stale(s: Index, m: MemoryId) {
    IsDeleted(s, m) && m in s.points && !Awaited(s, m)
  }

  predicate Spares(e: Event, m: MemoryId) {
    e.WipePoints? || e.WipeRows? ==> m !in e.ids
  }

  /** From s to t nobody new is about to deal with m, which keeps its row and its point. */
  ghost predicate NoNewHope(s: Index, t: Index, m: MemoryId) {
    && IsDeleted(t, m) && m in t.points
    && (forall j | PendingAt(t, m, j) :: PendingAt(s, m, j))
    && (forall e | e in t.errands && MayRemove(t, e, m) :: e in s.errands && MayRemove(s, e, m))
  }

  lemma StaysStale(s: Index, t: Index, m: MemoryId)
    requires Stale(s, m) && NoNewHope(s, t, m)
    ensures Stale(t, m)
  {}

  lemma CommitStaysStale(s: Index, store: M.Store, k: MemoryId, e: Errand, m: MemoryId)
    requires Sound(s) && Stale(s, m) && k != m && OnlyRow(s.store, store, k)
    requires e == ToEnqueue(k) || (e.ToWrite? && e.memory == k)
    ensures Stale(Begun(s.(store := store), e), m)
  {
    StaysStale(s, Begun(s.(store := store), e), m);
  }

  lemma DeleteStaysStale(s: Index, rows: seq<MemoryId>, m: MemoryId)
    requires Sound(s) && Stale(s, m) && AllActive(s, rows)
    ensures Stale(RowsDeleted(s, rows), m)
  {
    BuriedRows(s.store, rows);
    StaysStale(s, RowsDeleted(s, rows), m);
  }

  /** No reindex job of m is queued, so it is one of another memory that starts. */
  lemma StartStaysStale(s: Index, j: JobId, now: Time, m: MemoryId)
    requires Sound(s) && Stale(s, m) && Enabled(s, StartReindex(j))
    ensures Stale(ReindexStarted(s, j, 0, 300, now), m)
  {
    assert !PendingAt(s, m, j);
    var k, t := s.jobs[j].work.memory, s.(jobs := Claimed(s.jobs, j, 0, now, 300));
    if k !in s.store.memories {
      SettlingTouches(t, j, t.jobs[j], Worker.RaisedOther, k);
    }
    StaysStale(s, ReindexStarted(s, j, 0, 300, now), m);
  }

  /** Errands left in t were there in s, and may remove no more than they could. */
  lemma HopesStay(s: Index, t: Index, m: MemoryId)
    requires (forall e | e in s.errands :: KnowsItsJob(s, e)) && t.errands <= s.errands
    requires t.jobs.Keys <= s.jobs.Keys + {s.nextJob}
    ensures forall e | e in t.errands && MayRemove(t, e, m) :: e in s.errands && MayRemove(s, e, m)
  {
    forall e | e in t.errands && MayRemove(t, e, m) ensures e in s.errands && MayRemove(s, e, m) {
      assert e in s.errands && KnowsItsJob(s, e);
    }
  }

  lemma SettledStaysStale(s: Index, j: JobId, row: Job, outcome: Worker.Outcome, k: MemoryId, m: MemoryId)
    requires InOrder(s) && Stale(s, m) && k != m
    requires row.work == ReindexMemory(k) && (j in s.jobs ==> s.jobs[j].work == ReindexMemory(k))
    ensures Stale(Settled(s, j, row, outcome), m)
  {
    var t := Settled(s, j, row, outcome);
    SettlingTouches(s, j, row, outcome, k);
    HopesStay(s, t, m);
    StaysStale(s, t, m);
  }

  lemma WithoutStaysStale(s: Index, e: Errand, m: MemoryId)
    requires InOrder(s) && Stale(s, m)
    ensures InOrder(Without(s, e)) && Stale(Without(s, e), m)
  {
    var u := Without(s, e);
    assert forall x | x in u.errands :: x in s.errands && KnowsItsJob(s, x);
    HopesStay(s, u, m);
    StaysStale(s, u, m);
  }

  lemma WroteStaysStale(s: Index, k: MemoryId, point: Option<Point>, m: MemoryId)
    requires InOrder(s) && Stale(s, m) && k != m
    ensures Stale(Wrote(s, k, point), m)
  {
    HopesStay(s, Wrote(s, k, point), m);
    StaysStale(s, Wrote(s, k, point), m);
  }

  /** The run of a reindex job of another memory. */
  lemma OtherReindexStaysStale(s: Index, e: Errand, call: Call, outcome: Worker.Outcome, now: Time, m: MemoryId)
    requires Sound(s) && Stale(s, m) && e in s.errands && e.ToWrite? && e.origin.Reindexer? && e.memory != m
    ensures Stale(Ended(Without(s, e), e, call, outcome, now), m)
  {
    var u, j, row := Without(s, e), e.origin.job, e.origin.row;
    assert KnowsItsJob(s, e);
    WithoutStaysStale(s, e, m);
    SettlingTouches(u, j, row, outcome, e.memory);
    SettledStaysStale(u, j, row, outcome, e.memory, m);
    WroteStaysStale(Settled(u, j, row, outcome), e.memory, e.point, m);
  }

  /** An errand of another kind, about another memory. */
  lemma OtherErrandStaysStale(s: Index, e: Errand, call: Call, outcome: Worker.Outcome, now: Time, m: MemoryId)
    requires Sound(s) && Stale(s, m) && e in s.errands
    requires e.ToRemove? || (e.memory != m && (e.ToEnqueue? || e.origin.Bulk?))
    ensures Stale(Ended(Without(s, e), e, call, outcome, now), m)
  {
    assert !MayRemove(s, e, m);
    HopesStay(s, Ended(Without(s, e), e, call, outcome, now), m);
    StaysStale(s, Ended(Without(s, e), e, call, outcome, now), m);
  }

  /** The run of a reindex job that has read m before its delete, and cannot be tried again. */
  lemma LastWriteStaysStale(s: Index, e: Errand, call: Call, outcome: Worker.Outcome, now: Time, m: MemoryId)
    requires Sound(s) && Stale(s, m) && e in s.errands && !e.ToRemove? && e.memory == m
    ensures Stale(Ended(Without(s, e), e, call, outcome, now), m)
  {
    assert !MayRemove(s, e, m) && KnowsItsJob(s, e);
    var u, j, row := Without(s, e), e.origin.job, e.origin.row;
    WithoutStaysStale(s, e, m);
    LastSettledStaysStale(u, j, row, outcome, m);
    SettlingTouches(u, j, row, outcome, m);
    RewroteStaysStale(Settled(u, j, row, outcome), m, e.point);
  }

  lemma LastSettledStaysStale(s: Index, j: JobId, row: Job, outcome: Worker.Outcome, m: MemoryId)
    requires InOrder(s) && Stale(s, m) && row.work == ReindexMemory(m)
    requires j in s.jobs ==> s.jobs[j].work == ReindexMemory(m) && row.attempts >= Leases.MAX_ATTEMPTS
    ensures Stale(Settled(s, j, row, outcome), m)
  {
    var t := Settled(s, j, row, outcome);
    SettlingTouches(s, j, row, outcome, m);
    LastTry(s.jobs, j, row, outcome);
    assert forall i | PendingAt(t, m, i) :: PendingAt(s, m, i);
    HopesStay(s, t, m);
    StaysStale(s, t, m);
  }

  lemma RewroteStaysStale(s: Index, m: MemoryId, point: Option<Point>)
    requires InOrder(s) && Stale(s, m) && point.Some?
    ensures Stale(Wrote(s, m, point), m)
  {
    HopesStay(s, Wrote(s, m, point), m);
    StaysStale(s, Wrote(s, m, point), m);
  }

  /** Settling the last try of a job, or one whose row is gone, leaves no job outstanding that was not. */
  lemma LastTry(rows: Rows, j: JobId, row: Job, outcome: Worker.Outcome)
    requires j in rows ==> row.attempts >= Leases.MAX_ATTEMPTS
    ensures forall i | i in Worker.SettledRows(rows, j, row, outcome) &&
      Outstanding(Worker.SettledRows(rows, j, row, outcome)[i]) :: i in rows && Outstanding(rows[i])
  {}

  lemma OutsideStaysStale(s: Index, e: Event, now: Time, m: MemoryId)
    requires Sound(s) && Stale(s, m) && Enabled(s, e) && Spares(e, m)
    requires e.WipePoints? || e.WipeRows? || e.Cancel? || e.OtherJobs?
    ensures Stale(Apply(s, e, now), m)
  {
    var t := Apply(s, e, now);
    forall x | x in t.errands && MayRemove(t, x, m) ensures MayRemove(s, x, m) {
      assert KnowsItsJob(s, x);
    }
    StaysStale(s, t, m);
  }

  lemma FinishStaysStale(s: Index, e: Errand, call: Call, outcome: Worker.Outcome, now: Time, m: MemoryId)
    requires Sound(s) && Stale(s, m) && e in s.errands
    ensures Stale(Ended(Without(s, e), e, call, outcome, now), m)
  {
    if !e.ToRemove? && e.memory == m {
      LastWriteStaysStale(s, e, call, outcome, now, m);
    } else if e.ToWrite? && e.origin.Reindexer? {
      OtherReindexStaysStale(s, e, call, outcome, now, m);
    } else {
      OtherErrandStaysStale(s, e, call, outcome, now, m);
    }
  }

  lemma RowStaysStale(s: Index, k: MemoryId, result: M.Result, m: MemoryId)
    requires Sound(s) && Stale(s, m) && (result.Ok? ==> k != m && OnlyRow(s.store, result.store, k))
    ensures Stale(RowWritten(s, k, result), m)
  {
    if result.Ok? {
      CommitStaysStale(s, result.store, k, ToEnqueue(k), m);
    }
  }

  lemma BulkStaysStale(s: Index, e: Event, now: Time, m: MemoryId)
    requires Sound(s) && Stale(s, m) && (e.BulkUpdate? || e.BulkRemove?)
    ensures Stale(Apply(s, e, now), m)
  {
    if e.BulkUpdate? {
      var k, result := e.memory, M.Updated(s.store, e.memory, e.newText, e.newMetadata);
      if result.Ok? {
        CommitStaysStale(s, result.store, k, ToWrite(k, Wanted(s.(store := result.store), k), Bulk), m);
      }
    } else if M.IsActive(s.store, e.memory) {
      CommitStaysStale(s, M.Buried(s.store, e.memory), e.memory, ToWrite(e.memory, None, Bulk), m);
    }
  }

  lemma StaleStep(s: Index, e: Event, now: Time, m: MemoryId)
    requires Sound(s) && Enabled(s, e) && Stale(s, m) && Spares(e, m)
    ensures Stale(Apply(s, e, now), m)
  {
    match e
    case Create(text, metadata) =>
      RowStaysStale(s, s.store.nextMemory, M.Created(s.store, text, metadata, None), m);
    case Rewrite(k, text, metadata) => RowStaysStale(s, k, M.Updated(s.store, k, text, metadata), m);
    case Categorize(k, category) => RowStaysStale(s, k, M.Categorized(s.store, k, category), m);
    case BulkUpdate(_, _, _) => BulkStaysStale(s, e, now, m);
    case BulkRemove(_) => BulkStaysStale(s, e, now, m);
    case Delete(rows) => DeleteStaysStale(s, rows, m);
    case StartReindex(j) => StartStaysStale(s, j, now, m);
    case Finish(errand, call, outcome) =>
      FinishStaysStale(s, errand, call, outcome, now, m);
    case _ => OutsideStaysStale(s, e, now, m);
  }

  /** No event of the run purges the memory with its project or tag. */
  predicate AllSpare(run: seq<Stamped>, m: MemoryId) {
    forall i | 0 <= i < |run| :: Spares(run[i].event, m)
  }

  /** The point of a deleted memory that nobody is about to deal with is never removed again, unless its project
      or tag is purged. */
  lemma {:induction false} StaleForever(s: Index, run: seq<Stamped>, m: MemoryId)
    requires Sound(s) && Exec(s, run).Some? && Stale(s, m) && AllSpare(run, m)
    ensures Stale(Exec(s, run).value, m)
    decreases |run|
  {
    if run != [] {
      var front, last := run[..|run| - 1], run[|run| - 1];
      StaleForever(s, front, m);
      NoSilentDrift(s, front);
      assert Spares(run[|run| - 1].event, m);
      StaleStep(Exec(s, front).value, last.event, last.now, m);
    }
  }

  ghost predicate Removes(s: Index, run: seq<Stamped>, m: MemoryId) {
    Exec(s, run).Some? && AllSpare(run, m) && m !in Exec(s, run).value.points
  }

  /** The run so far leads to t and spares m. */
  ghost predicate LeadsTo(s: Index, run: seq<Stamped>, t: Index, m: MemoryId) {
    Exec(s, run) == Some(t) && AllSpare(run, m)
  }

  lemma OneMore(s: Index, run: seq<Stamped>, t: Index, e: Event, m: MemoryId) returns (more: seq<Stamped>, u: Index)
    requires LeadsTo(s, run, t, m) && Enabled(t, e) && Spares(e, m)
    ensures u == Apply(t, e, 0.0) && LeadsTo(s, more, u, m)
  {
    ExecOneMore(s, run, e, 0.0);
    more, u := run + [Stamped(e, 0.0)], Apply(t, e, 0.0);
  }

  /** Puts a job back in the queue, as reaping a crashed worker's job does. */
  function BackInQueue(rows: Rows, j: JobId): Rows
    requires j in rows
  {
    rows[j := IdleJob(rows[j], Queued)]
  }

  /** A reindex job that reads the deleted row removes the point. */
  lemma JobRemoves(s: Index, run: seq<Stamped>, t: Index, j: JobId, m: MemoryId) returns (more: seq<Stamped>)
    requires LeadsTo(s, run, t, m) && InOrder(t) && IsDeleted(t, m) && PendingAt(t, m, j)
    ensures Removes(s, more, m)
  {
    var u;
    more, u := OneMore(s, run, t, OtherJobs(BackInQueue(t.jobs, j), t.nextJob), m);
    more := QueuedJobRemoves(s, more, u, j, m);
  }

  lemma QueuedJobRemoves(s: Index, run: seq<Stamped>, t: Index, j: JobId, m: MemoryId) returns (more: seq<Stamped>)
    requires LeadsTo(s, run, t, m) && IsDeleted(t, m) && QueuedAs(t, j, ReindexMemory(m))
    ensures Removes(s, more, m)
  {
    var u, w;
    more, u := OneMore(s, run, t, StartReindex(j), m);
    var e := ToWrite(m, None, Reindexer(j, u.jobs[j]));
    assert u.errands == t.errands + multiset{e};
    more, w := OneMore(s, more, u, Finish(e, Accepted, Worker.Lost), m);
  }

  /** An errand that may remove the point does, or leads to a job that does. */
  lemma ErrandRemoves(s: Index, e: Errand, m: MemoryId) returns (more: seq<Stamped>)
    requires Sound(s) && IsDeleted(s, m) && e in s.errands && MayRemove(s, e, m)
    ensures Removes(s, more, m)
  {
    assert LeadsTo(s, [], s, m);
    if e.ToRemove? || (e.ToWrite? && e.point.None?) {
      var t;
      more, t := OneMore(s, [], s, Finish(e, Accepted, Worker.Lost), m);
    } else if e.ToEnqueue? || e.origin.Bulk? {
      more := EnqueuedRemoves(s, e, m);
    } else {
      more := RetryRemoves(s, e, m);
    }
  }

  /** An errand that enqueues a reindex job, or comes to it when its vector call fails. */
  lemma EnqueuedRemoves(s: Index, e: Errand, m: MemoryId) returns (more: seq<Stamped>)
    requires Sound(s) && IsDeleted(s, m) && e in s.errands && MayRemove(s, e, m)
    requires e.ToEnqueue? || (e.ToWrite? && e.point.Some? && e.origin.Bulk?)
    ensures Removes(s, more, m)
  {
    var finish := Finish(e, if e.ToEnqueue? then Accepted else Refused, Worker.Lost);
    var t;
    assert LeadsTo(s, [], s, m);
    more, t := OneMore(s, [], s, finish, m);
    StepSound(s, finish, 0.0);
    assert PendingAt(t, m, s.nextJob);
    more := JobRemoves(s, more, t, s.nextJob, m);
  }

  /** A reindex run whose job is tried again. */
  lemma RetryRemoves(s: Index, e: Errand, m: MemoryId) returns (more: seq<Stamped>)
    requires Sound(s) && IsDeleted(s, m) && e in s.errands && MayRemove(s, e, m)
    requires e.ToWrite? && e.point.Some? && e.origin.Reindexer?
    ensures Removes(s, more, m)
  {
    var finish := Finish(e, NeverMade, Worker.RaisedOther);
    var t;
    assert LeadsTo(s, [], s, m);
    more, t := OneMore(s, [], s, finish, m);
    StepSound(s, finish, 0.0);
    RetryIsPending(s, e, m);
    more := JobRemoves(s, more, t, e.origin.job, m);
  }

  lemma RetryIsPending(s: Index, e: Errand, m: MemoryId)
    requires Sound(s) && IsDeleted(s, m) && e in s.errands && MayRemove(s, e, m)
    requires e.ToWrite? && e.point.Some? && e.origin.Reindexer?
    ensures var t := Apply(s, Finish(e, NeverMade, Worker.RaisedOther), 0.0);
      IsDeleted(t, m) && PendingAt(t, m, e.origin.job)
  {
    assert KnowsItsJob(s, e);
  }

  /** Whether the point of a deleted memory can still go away without purging its project or tag: exactly when
      a reindex job waits for it, or an errand is under way that removes it or may lead to such a job. */
  lemma RemovedIffAwaited(s: Index, m: MemoryId)
    requires Sound(s) && IsDeleted(s, m) && m in s.points
    ensures (exists run: seq<Stamped> :: Removes(s, run, m)) <==> Awaited(s, m)
  {
    if Pending(s, m) {
      var j :| PendingAt(s, m, j);
      assert LeadsTo(s, [], s, m);
      var run := JobRemoves(s, [], s, j, m);
    } else if e :| e in s.errands && MayRemove(s, e, m) {
      var run := ErrandRemoves(s, e, m);
    } else {
      forall run: seq<Stamped> | Exec(s, run).Some? && AllSpare(run, m) ensures !Removes(s, run, m) {
        StaleForever(s, run, m);
      }
    }
  }

  // ---------------------------------------------------------------- how a point is left behind

  /** Nobody is about to deal with m. */
  ghost predicate Unattended(s: Index, m: MemoryId) {
    !Pending(s, m) && forall e | e in s.errands :: !Owes(e, m) && !(e.ToWrite? && e.memory == m)
  }

  /** A delete of m alone, and how its vector call ends. */
  lemma DeleteWith(s: Index, run: seq<Stamped>, t: Index, m: MemoryId, call: Call)
    returns (more: seq<Stamped>, w: Index)
    requires LeadsTo(s, run, t, m) && M.IsActive(t.store, m)
    ensures LeadsTo(s, more, w, m) && IsDeleted(w, m)
    ensures w == t.(store := M.BuriedAll(t.store, [m]), points := w.points, abandoned := w.abandoned)
    ensures w.points == if call.Accepted? then t.points - {m} else t.points
  {
    var u;
    JustOneDeleted(t, m);
    more, u := OneMore(s, run, t, Delete([m]), m);
    more, w := OneMore(s, more, u, Finish(ToRemove({m}), call, Worker.RaisedOther), m);
    assert u.errands - multiset{ToRemove({m})} == t.errands;
  }

  lemma JustOneDeleted(s: Index, m: MemoryId)
    requires M.IsActive(s.store, m)
    ensures AllActive(s, [m])
    ensures RowsDeleted(s, [m]) == Begun(s.(store := M.BuriedAll(s.store, [m])), ToRemove({m}))
    ensures IsDeleted(s.(store := M.BuriedAll(s.store, [m])), m)
  {
    assert m in [m];
    BuriedRows(s.store, [m]);
    assert Targets([m]) == {m};
  }

  /** delete_all_memories commits the rows first. If the vector store then fails, nothing will remove the
      point: the retry finds no row to delete. */
  lemma FailedDeleteAllLeavesPoint(s: Index, m: MemoryId, call: Call) returns (run: seq<Stamped>, t: Index)
    requires Sound(s) && M.IsActive(s.store, m) && m in s.points && Unattended(s, m) && !call.Accepted?
    ensures Exec(s, run) == Some(t) && Stale(t, m) && t.jobs == s.jobs
    ensures forall rows | AllActive(t, rows) :: m !in rows
  {
    assert LeadsTo(s, [], s, m);
    run, t := DeleteWith(s, [], s, m, call);
    assert forall j :: PendingAt(t, m, j) <==> PendingAt(s, m, j);
  }

  /** A reindex run reads the row, and while it waits for the embedder the memory is deleted, its point too; then
      the run writes what it had read. */
  lemma ReindexOvertaken(s: Index, j: JobId, m: MemoryId) returns (run: seq<Stamped>, t: Index)
    requires Sound(s) && M.IsActive(s.store, m) && QueuedAs(s, j, ReindexMemory(m))
    requires Unattended(s.(jobs := s.jobs - {j}), m)
    ensures Exec(s, run) == Some(t) && Stale(t, m)
  {
    assert LeadsTo(s, [], s, m);
    var u, w;
    run, u := OneMore(s, [], s, StartReindex(j), m);
    var e := ToWrite(m, Wanted(s, m), Reindexer(j, u.jobs[j]));
    assert u.errands == s.errands + multiset{e};
    run, w := DeleteWith(s, run, u, m, Accepted);
    assert e in w.errands;
    run, t := OneMore(s, run, w, Finish(e, Accepted, Worker.Returned), m);
    assert w.errands - multiset{e} == s.errands;
    OnlyJobSettled(s, u, t, j, m);
  }

  lemma OnlyJobSettled(s: Index, u: Index, t: Index, j: JobId, m: MemoryId)
    requires Unattended(s.(jobs := s.jobs - {j}), m) && j in s.jobs && s.jobs[j].work == ReindexMemory(m)
    requires j in u.jobs && u.jobs == s.jobs[j := u.jobs[j]] && t.jobs == Closed(u.jobs, j, Done)
    requires t.errands == s.errands
    ensures !Awaited(t, m)
  {
    assert forall i | PendingAt(t, m, i) :: PendingAt(s.(jobs := s.jobs - {j}), m, i);
  }

  /** Such a run from the empty tables. */
  lemma DeletedComesBack()
    ensures exists run: seq<Stamped>, t :: Exec(Empty, run) == Some(t) && Stale(t, 0)
  {
    EmptySound();
    assert LeadsTo(Empty, [], Empty, 0);
    Text.StripsToNothing("a");
    var run, s := OneMore(Empty, [], Empty, Create("a", map[]), 0);
    StepSound(Empty, Create("a", map[]), 0.0);
    assert ToEnqueue(0) in s.errands;
    var t;
    run, t := OneMore(Empty, run, s, Finish(ToEnqueue(0), Accepted, Worker.Lost), 0);
    StepSound(s, Finish(ToEnqueue(0), Accepted, Worker.Lost), 0.0);
    assert t.errands == multiset{} && t.jobs.Keys == {0};
    var rest, end := ReindexOvertaken(t, 0, 0);
    ExecAfter(Empty, run, rest);
    assert Exec(Empty, run + rest) == Some(end);
  }

  lemma {:induction false} ExecAfter(s: Index, run: seq<Stamped>, rest: seq<Stamped>)
    requires Exec(s, run).Some? && Exec(Exec(s, run).value, rest).Some?
    ensures Exec(s, run + rest) == Exec(Exec(s, run).value, rest)
    decreases |rest|
  {
    if rest == [] {
      assert run + rest == run;
    } else {
      var front, last := rest[..|rest| - 1], rest[|rest| - 1];
      ExecAfter(s, run, front);
      assert (run + rest)[..|run + rest| - 1] == run + front && (run + rest)[|run + rest| - 1] == last;
    }
  }

  // ---------------------------------------------------------------- with nothing in between

  /** A route that writes one memory; `alive` unless the server dies between its two commits. */
  function Written(s: Index, m: MemoryId, result: M.Result, alive: bool, now: Time): Index {
    if result.Error? then s
    else Ended(s.(store := result.store), ToEnqueue(m), if alive then Accepted else NeverMade, Worker.Lost, now)
  }

  /** A route or job that deletes memories: rows first, then the points, and no reindex job if that fails. */
  function Deleted(s: Index, rows: seq<MemoryId>, indexed: bool): Index
    requires forall m | m in rows :: m in s.store.memories
  {
    Ended(s.(store := M.BuriedAll(s.store, rows)), ToRemove(Targets(rows)),
          if indexed then Accepted else Refused, Worker.Lost, 0.0)
  }

  /** One operation of a bulk job. */
  datatype Item =
    | Update(memory: MemoryId, text: Option<string>, metadata: Option<M.Metadata>, vector: Call)
    | Remove(memory: MemoryId, vector: Call)

  function ItemDone(s: Index, item: Item, now: Time): Index {
    match item
    case Update(m, text, metadata, vector) =>
      var result := M.Updated(s.store, m, text, metadata);
      if result.Error? then s else
      var t := s.(store := result.store);
      Ended(t, ToWrite(m, Wanted(t, m), Bulk), vector, Worker.Lost, now)
    case Remove(m, vector) =>
      if !M.IsActive(s.store, m) then s
      else Ended(s.(store := M.Buried(s.store, m)), ToWrite(m, None, Bulk), vector, Worker.Lost, now)
  }

  function ItemsDone(s: Index, items: seq<Item>, now: Time): Index {
    if items == [] then s else ItemDone(ItemsDone(s, items[..|items| - 1], now), items[|items| - 1], now)
  }

  /** The operations of a bulk job that its stored progress does not report as finished. */
  function Unfinished(items: seq<Item>, finished: set<nat>): seq<Item> {
    if items == [] then [] else
    var n: nat := |items| - 1;
    Unfinished(items[..n], finished) + if n in finished then [] else [items[n]]
  }

  // ---- What a bulk job does ----

  /** Memories other than m, their points and all jobs are as they were. */
  ghost predicate OnlyTouches(s: Index, t: Index, m: MemoryId) {
    && t.errands == s.errands && s.nextJob <= t.nextJob
    && (forall j | j in s.jobs :: j in t.jobs && t.jobs[j] == s.jobs[j])
    && (forall j | j in t.jobs && j !in s.jobs :: j < t.nextJob)
    && (forall k | k != m :: MemoryKept(s, t, k))
  }

  ghost predicate MemoryKept(s: Index, t: Index, k: MemoryId) {
    && (k in t.store.memories <==> k in s.store.memories) && (k in s.abandoned <==> k in t.abandoned)
    && (k in s.store.memories ==> t.store.memories[k] == s.store.memories[k])
    && PointKept(s, t, k)
  }

  ghost predicate PointKept(s: Index, t: Index, m: MemoryId) {
    (m in t.points <==> m in s.points) && (m in s.points ==> t.points[m] == s.points[m])
  }

  /** The point of m follows its row if the vector call goes through; if it fails there is a reindex job for it; and
      if the process dies before, it is left behind. */
  ghost predicate PointFollows(s: Index, t: Index, m: MemoryId, point: Option<Point>, call: Call, now: Time) {
    match call
    case Accepted =>
      && t.jobs == s.jobs && m !in t.abandoned
      && (if point.None? then m !in t.points else m in t.points && t.points[m] == point.value)
    case Refused =>
      && PointKept(s, t, m) && m !in t.abandoned
      && t.jobs == s.jobs[s.nextJob := Job(ReindexMemory(m), None, Queued, 0, None, now, 0.0, 0.0, None)]
    case NeverMade => t.jobs == s.jobs && PointKept(s, t, m) && m in t.abandoned
  }

  ghost predicate HasWords(text: string) {
    exists c | c in text :: !Text.IsSpace(c)
  }

  /** The operation applies: its memory is active, and keeps a text that is not blank. */
  ghost predicate Applies(s: Index, item: Item) {
    && item.memory in s.store.memories && s.store.memories[item.memory].state == M.Active
    && (item.Update? ==> HasWords(if item.text.Some? then item.text.value else s.store.memories[item.memory].text))
  }

  /** One operation leads from s to t: its row changes, and its point after it; an operation that does not apply
      changes nothing. */
  ghost predicate CarriedOut(s: Index, t: Index, item: Item, now: Time) {
    var m := item.memory;
    if !Applies(s, item) then t == s else
    && OnlyTouches(s, t, m) && m in t.store.memories
    && match item
       case Update(_, text, changes, call) =>
         && M.MemoryUpdated(s.store, t.store, m, text, changes)
         && PointFollows(s, t, m, Some(Point(t.store.memories[m].text, t.store.memories[m].metadata)), call, now)
       case Remove(_, call) => M.MemoryDeleted(s.store, t.store, m) && PointFollows(s, t, m, None, call, now)
  }

  /** `at` lists in order exactly the operations that are not finished. */
  ghost predicate AreUnfinished(items: seq<Item>, finished: set<nat>, at: seq<nat>) {
    && (forall m, n | 0 <= m < n < |at| :: at[m] < at[n])
    && (forall i: nat :: i in at <==> i < |items| && i !in finished)
  }

  /** The operations listed lead from state to state, one after the other. */
  ghost predicate Carried(states: seq<Index>, items: seq<Item>, at: seq<nat>, now: Time) {
    && |states| == |at| + 1
    && forall n: nat | n < |at| :: CarriedAt(states, items, at, n, now)
  }

  ghost predicate CarriedAt(states: seq<Index>, items: seq<Item>, at: seq<nat>, n: nat, now: Time) {
    && n < |at| && at[n] < |items| && |states| == |at| + 1
    && CarriedOut(states[n], states[n + 1], items[at[n]], now)
  }

  /** A bulk job carries out its unfinished operations, each once and in order, and no others. */
  ghost predicate BulkDone(s: Index, t: Index, items: seq<Item>, finished: set<nat>, now: Time) {
    exists at: seq<nat>, states: seq<Index> :: AreUnfinished(items, finished, at) && Carried(states, items, at, now) &&
      states[0] == s && states[|at|] == t
  }

  ghost predicate JobsInOrder(s: Index) {
    forall j | j in s.jobs :: j < s.nextJob
  }

  lemma UpdateIsCarriedOut(s: Index, item: Item, now: Time)
    requires item.Update? && JobsInOrder(s)
    ensures CarriedOut(s, ItemDone(s, item, now), item, now)
  {
    M.UpdatedIs(s.store, item.memory, item.text, item.metadata);
  }

  lemma RemoveIsCarriedOut(s: Index, item: Item, now: Time)
    requires item.Remove? && JobsInOrder(s)
    ensures CarriedOut(s, ItemDone(s, item, now), item, now)
  {}

  lemma ItemDoneIs(s: Index, item: Item, now: Time)
    requires JobsInOrder(s)
    ensures CarriedOut(s, ItemDone(s, item, now), item, now) && JobsInOrder(ItemDone(s, item, now))
  {
    if item.Update? { UpdateIsCarriedOut(s, item, now); } else { RemoveIsCarriedOut(s, item, now); }
  }

  lemma UnfinishedGrow(items: seq<Item>, finished: set<nat>, item: Item, at: seq<nat>)
    requires AreUnfinished(items, finished, at)
    ensures AreUnfinished(items + [item], finished, if |items| in finished then at else at + [|items|])
  {
    var more := at + [|items|];
    assert forall m | 0 <= m < |at| :: at[m] in at;
    assert forall i: nat :: i in more <==> i in at || i == |items|;
  }

  lemma CarriedGrow(states: seq<Index>, items: seq<Item>, item: Item, at: seq<nat>, now: Time, t: Index)
    requires Carried(states, items, at, now)
    ensures Carried(states, items + [item], at, now)
    ensures CarriedOut(states[|at|], t, item, now) ==>
      Carried(states + [t], items + [item], at + [|items|], now)
  {
    forall n: nat | n < |at| ensures CarriedAt(states, items + [item], at, n, now) {
      assert CarriedAt(states, items, at, n, now);
    }
    if CarriedOut(states[|at|], t, item, now) {
      forall n: nat | n <= |at| ensures CarriedAt(states + [t], items + [item], at + [|items|], n, now) {
        if n < |at| { assert CarriedAt(states, items, at, n, now); }
      }
    }
  }

  lemma ItemJoins(s: Index, t: Index, items: seq<Item>, finished: set<nat>, item: Item, now: Time, r: Index)
    requires BulkDone(s, t, items, finished, now) && JobsInOrder(t)
    requires r == if |items| in finished then t else ItemDone(t, item, now)
    ensures BulkDone(s, r, items + [item], finished, now) && JobsInOrder(r)
  {
    var at: seq<nat>, states: seq<Index> :| AreUnfinished(items, finished, at) && Carried(states, items, at, now) &&
      states[0] == s && states[|at|] == t;
    var next := ItemDone(t, item, now);
    ItemDoneIs(t, item, now);
    UnfinishedGrow(items, finished, item, at);
    CarriedGrow(states, items, item, at, now, next);
    if |items| !in finished {
      assert (states + [next])[|at + [|items|]|] == next;
    }
  }

  lemma {:induction false} ItemsDoneIs(s: Index, items: seq<Item>, finished: set<nat>, now: Time)
    requires JobsInOrder(s)
    ensures var t := ItemsDone(s, Unfinished(items, finished), now);
      BulkDone(s, t, items, finished, now) && JobsInOrder(t)
    decreases |items|
  {
    if items == [] {
      NothingToDo(s, finished, now);
    } else {
      var front, item := items[..|items| - 1], items[|items| - 1];
      assert items == front + [item];
      ItemsDoneIs(s, front, finished, now);
      var t, r := OneMoreDone(s, front, item, finished, now);
      ItemJoins(s, t, front, finished, item, now, r);
    }
  }

  lemma NothingToDo(s: Index, finished: set<nat>, now: Time)
    ensures BulkDone(s, s, [], finished, now)
  {
    assert AreUnfinished([], finished, []) && Carried([s], [], [], now);
  }

  lemma OneMoreDone(s: Index, front: seq<Item>, item: Item, finished: set<nat>, now: Time) returns (t: Index, r: Index)
    ensures t == ItemsDone(s, Unfinished(front, finished), now)
    ensures r == ItemsDone(s, Unfinished(front + [item], finished), now)
    ensures r == if |front| in finished then t else ItemDone(t, item, now)
  {
    var done, more := Unfinished(front, finished), Unfinished(front + [item], finished);
    t, r := ItemsDone(s, done, now), ItemsDone(s, more, now);
    UnfinishedOneMore(front, item, finished);
    if |front| !in finished { LastItemDone(s, done, item, more, now); }
  }

  lemma UnfinishedOneMore(front: seq<Item>, item: Item, finished: set<nat>)
    ensures Unfinished(front + [item], finished) ==
      if |front| in finished then Unfinished(front, finished) else Unfinished(front, finished) + [item]
  {
    assert (front + [item])[..|front|] == front;
  }

  lemma LastItemDone(s: Index, done: seq<Item>, item: Item, more: seq<Item>, now: Time)
    requires more == done + [item]
    ensures ItemsDone(s, more, now) == ItemDone(ItemsDone(s, done, now), item, now)
  {
    assert more[..|more| - 1] == done && more[|more| - 1] == item;
  }

  // ---- What comes of one operation ----

  lemma KeptOn(s: Index, mid: Index, t: Index, m: MemoryId)
    requires MemoryKept(s, mid, m) && MemoryKept(mid, t, m)
    ensures MemoryKept(s, t, m)
  {}

  ghost predicate JobsKept(s: Index, t: Index) {
    forall j | j in s.jobs :: j in t.jobs && t.jobs[j] == s.jobs[j]
  }

  /** Operations on other memories leave m and all jobs alone. */
  lemma {:induction false} OthersKeep(states: seq<Index>, items: seq<Item>, at: seq<nat>, now: Time, a: nat, b: nat,
      m: MemoryId)
    requires Carried(states, items, at, now) && a <= b <= |at|
    requires forall n | a <= n < b :: at[n] < |items| && items[at[n]].memory != m
    ensures MemoryKept(states[a], states[b], m) && JobsKept(states[a], states[b])
    decreases b - a
  {
    if a < b {
      OthersKeep(states, items, at, now, a, b - 1, m);
      assert CarriedAt(states, items, at, b - 1, now);
      KeptOn(states[a], states[b - 1], states[b], m);
    }
  }

  /** A memory that no unfinished operation names keeps its row and its point. */
  lemma UnnamedIsKept(s: Index, t: Index, items: seq<Item>, finished: set<nat>, now: Time, m: MemoryId)
    requires BulkDone(s, t, items, finished, now)
    requires forall i: nat | i < |items| && i !in finished :: items[i].memory != m
    ensures MemoryKept(s, t, m)
  {
    var at: seq<nat>, states: seq<Index> :| AreUnfinished(items, finished, at) && Carried(states, items, at, now) &&
      states[0] == s && states[|at|] == t;
    assert forall n | 0 <= n < |at| :: at[n] in at;
    OthersKeep(states, items, at, now, 0, |at|, m);
  }

  /** Item i of a bulk job is not finished, and no other unfinished item names its memory. */
  ghost predicate OnlyOneFor(items: seq<Item>, finished: set<nat>, i: nat) {
    && i < |items| && i !in finished
    && forall k: nat | k < |items| && k != i && k !in finished :: items[k].memory != items[i].memory
  }

  /** An unfinished operation that no other one shares its memory with takes effect exactly once: from before to
      after it memory and point change as it says, and stay so. */
  lemma OnlyOneTakesEffect(s: Index, t: Index, items: seq<Item>, finished: set<nat>, now: Time, i: nat)
    returns (before: Index, after: Index)
    requires BulkDone(s, t, items, finished, now) && OnlyOneFor(items, finished, i)
    ensures CarriedOut(before, after, items[i], now)
    ensures MemoryKept(s, before, items[i].memory) && MemoryKept(after, t, items[i].memory) && JobsKept(after, t)
  {
    var at: seq<nat>, states: seq<Index> :| AreUnfinished(items, finished, at) && Carried(states, items, at, now) &&
      states[0] == s && states[|at|] == t;
    assert forall n | 0 <= n < |at| :: at[n] in at;
    assert i in at;
    var n: nat :| n < |at| && at[n] == i;
    before, after := states[n], states[n + 1];
    assert CarriedAt(states, items, at, n, now);
    OthersKeep(states, items, at, now, 0, n, items[i].memory);
    OthersKeep(states, items, at, now, n + 1, |at|, items[i].memory);
  }

  /** An unfinished update that applies: the row has the new text and one version more, and the point agrees with it,
      or a reindex job waits for it, or it was left behind, as the vector call went. */
  lemma UpdateLands(s: Index, t: Index, items: seq<Item>, finished: set<nat>, now: Time, i: nat)
    requires BulkDone(s, t, items, finished, now) && OnlyOneFor(items, finished, i)
    requires items[i].Update? && Applies(s, items[i])
    ensures var m := items[i].memory;
      && m in t.store.memories
      && var was, row := s.store.memories[m], t.store.memories[m];
         && row.text == (if items[i].text.Some? then items[i].text.value else was.text)
         && row.version == was.version + 1 && row.state == M.Active && row.fact == was.fact
         && M.IsMerged(row.metadata, was.metadata, items[i].metadata)
         && match items[i].vector
            case Accepted => m in t.points && t.points[m] == Point(row.text, row.metadata)
            case Refused => PointKept(s, t, m) && Pending(t, m)
            case NeverMade => PointKept(s, t, m) && m in t.abandoned
  {
    var before, after := OnlyOneTakesEffect(s, t, items, finished, now, i);
    assert items[i].vector.Refused? ==> PendingAt(t, items[i].memory, before.nextJob);
  }

  /** An unfinished delete of an active memory: the row is deleted with one version more, and the point gone, or
      waited for, or left behind. */
  lemma RemoveLands(s: Index, t: Index, items: seq<Item>, finished: set<nat>, now: Time, i: nat)
    requires BulkDone(s, t, items, finished, now) && OnlyOneFor(items, finished, i)
    requires items[i].Remove? && Applies(s, items[i])
    ensures var m := items[i].memory;
      && m in t.store.memories
      && t.store.memories[m] == s.store.memories[m].(state := M.Deleted, version := s.store.memories[m].version + 1)
      && match items[i].vector
         case Accepted => m !in t.points
         case Refused => PointKept(s, t, m) && Pending(t, m)
         case NeverMade => PointKept(s, t, m) && m in t.abandoned
  {
    var before, after := OnlyOneTakesEffect(s, t, items, finished, now, i);
    assert items[i].vector.Refused? ==> PendingAt(t, items[i].memory, before.nextJob);
  }

  /** The handler of a reindex job: the point becomes what the row says now, whatever it was enqueued for. */
  function PointRefreshed(s: Index, m: MemoryId): Index {
    if m in s.store.memories then Wrote(s, m, Wanted(s, m)) else s
  }

  // ---------------------------------------------------------------- in place

  /** Without its linked memories a delete has one target. */
  lemma JustItself(db: Database.Db, m: MemoryId, ids: seq<MemoryId>)
    requires Database.CascadeTargets(db, m, false, ids)
    ensures ids == [m] && [m][..0] == []
  {
    var first, last := ids[0], ids[|ids| - 1];
    assert first in ids && last in ids;
  }

  /** The tables, the index and the queue, as the routes and the worker change them. */
  class IndexedMemories {
    const tables: Database.Tables
    const queue: JobTable
    var points: map<MemoryId, Point>
    ghost var errands: multiset<Errand>   // of other routes and workers
    ghost var abandoned: set<MemoryId>

    ghost function State(): Index
      reads this, tables, queue
    {
      Index(tables.State().store, points, queue.rows, queue.nextId, errands, abandoned)
    }

    constructor (tables: Database.Tables, queue: JobTable)
      ensures this.tables == tables && this.queue == queue && points == map[] && abandoned == {}
    {
      this.tables, this.queue, points, errands, abandoned := tables, queue, map[], multiset{}, {};
    }

    /** Leaves the point of m to a reindex job. */
    method EnqueueReindex(m: MemoryId, now: Time) returns (id: JobId)
      requires queue.Valid()
      modifies queue, this`abandoned
      ensures queue.Valid() && State() == Reindexing(old(State()), m, now) && id == old(queue.nextId)
    {
      abandoned := abandoned - {m};
      id := queue.Enqueue(ReindexMemory(m), None, None, now);
    }

    /** The mem0 update route, once the request is accepted. Row and job are committed one after the other. */
    method UpdateMemory(m: MemoryId, text: Option<string>, metadata: Option<M.Metadata>, alive: bool, now: Time)
      returns (job: Option<JobId>)
      requires queue.Valid()
      modifies tables, this`abandoned, queue
      ensures queue.Valid()
      ensures State() == Written(old(State()), m, M.Updated(old(State()).store, m, text, metadata), alive, now)
      ensures job.Some? <==> alive && M.Updated(old(State()).store, m, text, metadata).Ok?
      ensures points == old(points) && (job.None? ==> queue.rows == old(queue.rows))
      ensures job.Some? ==>
        && M.MemoryUpdated(old(State()).store, State().store, m, text, metadata)
        && queue.rows == old(queue.rows)[job.value := Job(ReindexMemory(m), None, Queued, 0, None, now, 0.0, 0.0, None)]
    {
      var failure := tables.UpdateMemory(m, text, metadata);
      if failure.Some? {
        return None;
      }
      if !alive {
        abandoned := abandoned + {m};
        return None;
      }
      var id := EnqueueReindex(m, now);
      job := Some(id);
    }

    /** The mem0 delete route: the rows are committed before the vector call. */
    method DeleteMemory(m: MemoryId, deleteLinked: bool, indexed: bool) returns (ids: seq<MemoryId>)
      requires Database.DbInv(tables.State())
      modifies tables, this`points, this`abandoned
      ensures !M.IsActive(old(State()).store, m) ==> ids == [] && State() == old(State())
      ensures M.IsActive(old(State()).store, m) ==>
        && Database.CascadeTargets(old(tables.State()), m, deleteLinked, ids)
        && State() == Deleted(old(State()), ids, indexed)
      ensures forall k :: k in points <==> k in old(points) && !(indexed && k in ids)
      ensures forall k | k in points :: points[k] == old(points)[k]
    {
      var result := tables.SoftDeleteMemory(m, deleteLinked);
      if result.None? || !result.value.deleted {
        return [];
      }
      ids := result.value.ids;
      DeletePoints(ids, indexed);
    }

    /** The vector call behind a delete. */
    method DeletePoints(ids: seq<MemoryId>, indexed: bool)
      modifies this`points, this`abandoned
      ensures State() ==
        Ended(old(State()), ToRemove(Targets(ids)), if indexed then Accepted else Refused, Worker.Lost, 0.0)
      ensures forall k :: k in points <==> k in old(points) && !(indexed && k in ids)
      ensures forall k | k in points :: points[k] == old(points)[k]
    {
      if indexed {
        points := points - Targets(ids);
        abandoned := abandoned - Targets(ids);
      } else {
        abandoned := abandoned + Targets(ids);
      }
    }

    /** delete_all_memories and the batch delete: one row after the other in one transaction, then the points. */
    method DeleteMemories(rows: seq<MemoryId>, indexed: bool)
      requires AllActive(State(), rows) && M.Distinct(rows)
      modifies tables, this`points, this`abandoned
      ensures State() == Deleted(old(State()), rows, indexed)
      ensures forall k :: k in points <==> k in old(points) && !(indexed && k in rows)
      ensures forall k | k in points :: points[k] == old(points)[k]
    {
      ghost var before := State().store;
      for i := 0 to |rows|
        invariant points == old(points) && abandoned == old(abandoned)
        invariant AllActive(old(State()), rows[..i]) && tables.State().store == M.BuriedAll(before, rows[..i])
      {
        assert rows[i] in rows && rows[..i + 1][..i] == rows[..i] && rows[i] !in rows[..i];
        BuriedRows(before, rows[..i]);
        ghost var db := tables.State();
        var result := tables.SoftDeleteMemory(rows[i], false);
        JustItself(db, rows[i], result.value.ids);
      }
      assert rows[..|rows|] == rows;
      DeletePoints(rows, indexed);
    }

    /** How the point of a bulk operation follows its row. */
    method MovePoint(m: MemoryId, point: Option<Point>, vector: Call, now: Time)
      requires queue.Valid() && point == Wanted(State(), m)
      modifies this`points, this`abandoned, queue
      ensures queue.Valid() && State() == Ended(old(State()), ToWrite(m, point, Bulk), vector, Worker.Lost, now)
    {
      match vector
      case Accepted =>
        points := if point.None? then points - {m} else points[m := point.value];
        abandoned := abandoned - {m};
      case Refused =>
        var _ := EnqueueReindex(m, now);
      case NeverMade =>
        abandoned := abandoned + {m};
    }

    method BulkUpdate(m: MemoryId, text: Option<string>, metadata: Option<M.Metadata>, vector: Call, now: Time)
      requires queue.Valid()
      modifies tables, this`points, this`abandoned, queue
      ensures queue.Valid() && State() == ItemDone(old(State()), Update(m, text, metadata, vector), now)
    {
      var failure := tables.UpdateMemory(m, text, metadata);
      if failure.Some? {
        return;
      }
      var updated := tables.memories[m];
      MovePoint(m, Some(Point(updated.text, updated.metadata)), vector, now);
    }

    method BulkDelete(m: MemoryId, vector: Call, now: Time)
      requires queue.Valid()
      modifies tables, this`points, this`abandoned, queue
      ensures queue.Valid() && State() == ItemDone(old(State()), Remove(m, vector), now)
    {
      ghost var db := tables.State();
      var result := tables.SoftDeleteMemory(m, false);
      if result.None? || !result.value.deleted {
        return;
      }
      JustItself(db, m, result.value.ids);
      assert [m][..0] == [];
      MovePoint(m, None, vector, now);
    }

    /** The handler of a bulk job: every operation that an earlier try has not finished, one after the other. */
    method BulkMemories(items: seq<Item>, finished: set<nat>, now: Time)
      requires queue.Valid()
      modifies tables, this`points, this`abandoned, queue
      ensures queue.Valid() && State() == ItemsDone(old(State()), Unfinished(items, finished), now)
      ensures BulkDone(old(State()), State(), items, finished, now)
    {
      ItemsDoneIs(State(), items, finished, now);
      for i := 0 to |items|
        invariant queue.Valid() && State() == ItemsDone(old(State()), Unfinished(items[..i], finished), now)
      {
        assert items[..i + 1][..i] == items[..i];
        if i in finished {
          assert Unfinished(items[..i + 1], finished) == Unfinished(items[..i], finished);
          continue;
        }
        ghost var left := Unfinished(items[..i + 1], finished);
        assert left[..|left| - 1] == Unfinished(items[..i], finished) && left[|left| - 1] == items[i];
        match items[i]
        case Update(m, text, metadata, vector) => BulkUpdate(m, text, metadata, vector, now);
        case Remove(m, vector) => BulkDelete(m, vector, now);
      }
      assert items[..|items|] == items;
    }

    /** The handler of a reindex job, its vector call going through; without the row it raises. */
    method Reindex(m: MemoryId) returns (found: bool)
      modifies this`points, this`abandoned
      ensures State() == PointRefreshed(old(State()), m)
      ensures found <==> m in State().store.memories
      ensures found ==> (m in points <==> M.IsActive(State().store, m)) && (m in points ==> InStep(State(), m))
    {
      found := m in tables.memories;
      if found {
        var memory := tables.memories[m];
        abandoned := abandoned - {m};
        if memory.state == M.Deleted {
          points := points - {m};
        } else {
          points := points[m := Point(memory.text, memory.metadata)];
        }
      }
    }
  }
}
