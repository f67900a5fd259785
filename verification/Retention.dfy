/** The timed sweep: table by table, rows past their window go, children before parents. */
module Retention {
  import opened Common
  import opened Jobs
  import Webhooks

  type RowId = nat

  datatype Table =
    | WebhookDeliveries
    | DomainEvents
    | MemoryHistory
    | JobRows
    | ShareLinks
    | IdempotencyKeys
    | AuditEvents
    | RevokedKeys

  const SWEEP_ORDER := [
    WebhookDeliveries, DomainEvents, MemoryHistory, JobRows, ShareLinks, IdempotencyKeys, AuditEvents, RevokedKeys]

  datatype Dated<T> = Dated(row: T, createdAt: Time)

  datatype Share = Share(expiresAt: Time, revokedAt: Option<Time>)

  /** The swept tables, as far as a sweep looks at them: what it compares with the cutoff, and statuses. */
  datatype Tables = Tables(
    deliveries: map<DeliveryId, Dated<Webhooks.Delivery>>,
    events: map<Webhooks.EventId, Time>,
    history: map<RowId, Time>,
    jobs: Rows,
    shares: map<RowId, Share>,
    idempotency: map<RowId, Time>,
    audit: map<RowId, Time>,
    revoked: map<RowId, Time>)

  const SECONDS_A_DAY := 86400

  /** Days to keep, for the tables that have a window: the override, or else the policy table's row. */
  datatype Policy = Policy(days: map<Table, Option<nat>>, override: Option<nat>)

  function Window(policy: Policy, table: Table): Option<nat> {
    if policy.override.Some? then policy.override
    else if table in policy.days then policy.days[table] else None
  }

  function Cutoff(window: nat, now: Time): Time {
    now - (window * SECONDS_A_DAY) as real
  }

  // ---------------------------------------------------------------- one table

  predicate Referenced(t: Tables, e: Webhooks.EventId) {
    exists d | d in t.deliveries :: t.deliveries[d].row.event == e
  }

  predicate OldDelivery(d: Dated<Webhooks.Delivery>, cutoff: Time) {
    d.createdAt < cutoff && (d.row.status == Webhooks.Succeeded || d.row.status == Webhooks.Dead)
  }

  predicate OldShare(share: Share, cutoff: Time) {
    share.expiresAt < cutoff || (share.revokedAt.Some? && share.revokedAt.value < cutoff)
  }

  function OldIds(rows: map<RowId, Time>, cutoff: Time): set<RowId> {
    set r | r in rows && rows[r] < cutoff
  }

  /** The rows the statement for `table` deletes, or counts in a dry run. */
  function Doomed(t: Tables, table: Table, cutoff: Time): set<RowId> {
    match table
    case WebhookDeliveries => set d | d in t.deliveries && OldDelivery(t.deliveries[d], cutoff)
    case DomainEvents => set e | e in t.events && t.events[e] < cutoff && !Referenced(t, e)
    case MemoryHistory => OldIds(t.history, cutoff)
    case JobRows => set j | j in t.jobs && t.jobs[j].createdAt < cutoff && Terminal(t.jobs[j])
    case ShareLinks => set l | l in t.shares && OldShare(t.shares[l], cutoff)
    case IdempotencyKeys => OldIds(t.idempotency, cutoff)
    case AuditEvents => OldIds(t.audit, cutoff)
    case RevokedKeys => OldIds(t.revoked, cutoff)
  }

  /** Deletes rows of one table; events take the deliveries that refer to them along. */
  function Without(t: Tables, table: Table, ids: set<RowId>): Tables {
    match table
    case WebhookDeliveries => t.(deliveries := t.deliveries - ids)
    case DomainEvents =>
      t.(events := t.events - ids,
         deliveries := map d | d in t.deliveries && t.deliveries[d].row.event !in ids :: t.deliveries[d])
    case MemoryHistory => t.(history := t.history - ids)
    case JobRows => t.(jobs := t.jobs - ids)
    case ShareLinks => t.(shares := t.shares - ids)
    case IdempotencyKeys => t.(idempotency := t.idempotency - ids)
    case AuditEvents => t.(audit := t.audit - ids)
    case RevokedKeys => t.(revoked := t.revoked - ids)
  }

  function Swept(t: Tables, table: Table, policy: Policy, now: Time): Tables {
    match Window(policy, table)
    case None => t
    case Some(window) => Without(t, table, Doomed(t, table, Cutoff(window, now)))
  }

  function SweptAll(t: Tables, order: seq<Table>, policy: Policy, now: Time): Tables {
    if order == [] then t else
    Swept(SweptAll(t, order[..|order| - 1], policy, now), order[|order| - 1], policy, now)
  }

  /** What a sweep reports as deleted. */
  function Deleted(t: Tables, order: seq<Table>, policy: Policy, now: Time): map<Table, nat> {
    if order == [] then map[] else
    var front, last := order[..|order| - 1], order[|order| - 1];
    var before := Deleted(t, front, policy, now);
    if Window(policy, last).None? then before
    else before[last := |Doomed(SweptAll(t, front, policy, now), last, Cutoff(Window(policy, last).value, now))|]
  }

  /** What a dry run reports: every statement counts on the tables as they are. */
  function WouldDelete(t: Tables, order: seq<Table>, policy: Policy, now: Time): map<Table, nat> {
    if order == [] then map[] else
    var front, last := order[..|order| - 1], order[|order| - 1];
    var before := WouldDelete(t, front, policy, now);
    if Window(policy, last).None? then before
    else before[last := |Doomed(t, last, Cutoff(Window(policy, last).value, now))|]
  }

  // ---------------------------------------------------------------- what survives

  /** Between t and r nothing that is still owed went away, no row changed, and no delivery lost its event. */
  ghost predicate KeepsObligations(t: Tables, r: Tables) {
    && (forall d | d in t.deliveries && t.deliveries[d].row.status == Webhooks.Pending :: d in r.deliveries)
    && (forall d | d in r.deliveries :: d in t.deliveries && r.deliveries[d] == t.deliveries[d])
    && (forall d | d in r.deliveries && t.deliveries[d].row.event in t.events :: t.deliveries[d].row.event in r.events)
    && (forall j | j in t.jobs && Outstanding(t.jobs[j]) :: j in r.jobs)
    && (forall j | j in r.jobs :: j in t.jobs && r.jobs[j] == t.jobs[j])
  }

  lemma NothingCascades(t: Tables, cutoff: Time)
    ensures Without(t, DomainEvents, Doomed(t, DomainEvents, cutoff)).deliveries == t.deliveries
  {}

  lemma EventsKeepObligations(t: Tables, cutoff: Time)
    ensures KeepsObligations(t, Without(t, DomainEvents, Doomed(t, DomainEvents, cutoff)))
  {
    var doomed := Doomed(t, DomainEvents, cutoff);
    NothingCascades(t, cutoff);
    forall d | d in t.deliveries ensures t.deliveries[d].row.event !in doomed {
      assert t.deliveries[d].row.event in t.events ==> Referenced(t, t.deliveries[d].row.event);
    }
  }

  lemma DeliveriesKeepObligations(t: Tables, cutoff: Time)
    ensures KeepsObligations(t, Without(t, WebhookDeliveries, Doomed(t, WebhookDeliveries, cutoff)))
  {}

  lemma JobsKeepObligations(t: Tables, cutoff: Time)
    ensures KeepsObligations(t, Without(t, JobRows, Doomed(t, JobRows, cutoff)))
  {}

  lemma OneKeepsObligations(t: Tables, table: Table, policy: Policy, now: Time)
    ensures KeepsObligations(t, Swept(t, table, policy, now))
  {
    if Window(policy, table).Some? {
      var cutoff := Cutoff(Window(policy, table).value, now);
      match table
      case WebhookDeliveries => DeliveriesKeepObligations(t, cutoff);
      case DomainEvents => EventsKeepObligations(t, cutoff);
      case JobRows => JobsKeepObligations(t, cutoff);
      case _ => PlainKeepsObligations(t, table, cutoff);
    }
  }

  lemma PlainKeepsObligations(t: Tables, table: Table, cutoff: Time)
    requires table != WebhookDeliveries && table != DomainEvents && table != JobRows
    ensures KeepsObligations(t, Without(t, table, Doomed(t, table, cutoff)))
  {
    var r := Without(t, table, Doomed(t, table, cutoff));
    assert r.deliveries == t.deliveries && r.events == t.events && r.jobs == t.jobs;
  }

  /** A whole sweep, in any order, takes away no queued delivery and no queued or running job, not even
      through a cascade, and leaves every surviving delivery its event. */
  lemma {:induction false} SweepKeepsObligations(t: Tables, order: seq<Table>, policy: Policy, now: Time)
    ensures KeepsObligations(t, SweptAll(t, order, policy, now))
  {
    if order != [] {
      SweepKeepsObligations(t, order[..|order| - 1], policy, now);
      OneKeepsObligations(SweptAll(t, order[..|order| - 1], policy, now), order[|order| - 1], policy, now);
    }
  }

  // ---------------------------------------------------------------- sweeping twice

  predicate Clean(t: Tables, table: Table, policy: Policy, now: Time) {
    Window(policy, table).Some? ==> Doomed(t, table, Cutoff(Window(policy, table).value, now)) == {}
  }

  lemma OwnStepCleans(t: Tables, table: Table, policy: Policy, now: Time)
    ensures Clean(Swept(t, table, policy, now), table, policy, now)
  {
    if table == DomainEvents && Window(policy, table).Some? {
      NothingCascades(t, Cutoff(Window(policy, table).value, now));
    }
  }

  lemma OtherStepKeepsClean(t: Tables, table: Table, other: Table, policy: Policy, now: Time)
    requires Clean(t, table, policy, now) && !(table == DomainEvents && other == WebhookDeliveries)
    ensures Clean(Swept(t, other, policy, now), table, policy, now)
  {
    if other == DomainEvents && Window(policy, other).Some? {
      NothingCascades(t, Cutoff(Window(policy, other).value, now));
    }
  }

  /** Children before parents. */
  ghost predicate ChildrenFirst(order: seq<Table>) {
    forall i, j | 0 <= i < j < |order| :: !(order[i] == DomainEvents && order[j] == WebhookDeliveries)
  }

  lemma {:induction false} SweepCleans(t: Tables, order: seq<Table>, policy: Policy, now: Time, table: Table)
    requires ChildrenFirst(order) && table in order
    ensures Clean(SweptAll(t, order, policy, now), table, policy, now)
    decreases |order|
  {
    var front, last := order[..|order| - 1], order[|order| - 1];
    if table == last {
      OwnStepCleans(SweptAll(t, front, policy, now), last, policy, now);
    } else {
      assert order == front + [last];
      SweepCleans(t, front, policy, now, table);
      var i :| 0 <= i < |front| && front[i] == table;
      assert !(order[i] == DomainEvents && order[|order| - 1] == WebhookDeliveries);
      OtherStepKeepsClean(SweptAll(t, front, policy, now), table, last, policy, now);
    }
  }

  lemma CleanStaysAsItIs(t: Tables, table: Table, policy: Policy, now: Time)
    requires Clean(t, table, policy, now)
    ensures Swept(t, table, policy, now) == t
  {
    assert forall rows: map<RowId, Time> :: rows - {} == rows;
    assert t.jobs - {} == t.jobs && t.shares - {} == t.shares && t.deliveries - {} == t.deliveries;
    assert (map d | d in t.deliveries && t.deliveries[d].row.event !in {} :: t.deliveries[d]) == t.deliveries;
  }

  lemma {:induction false} AllCleanStaysAsItIs(t: Tables, order: seq<Table>, policy: Policy, now: Time)
    requires forall table | table in order :: Clean(t, table, policy, now)
    ensures SweptAll(t, order, policy, now) == t
    ensures forall table | table in Deleted(t, order, policy, now) :: Deleted(t, order, policy, now)[table] == 0
  {
    if order != [] {
      var front, last := order[..|order| - 1], order[|order| - 1];
      assert order == front + [last];
      AllCleanStaysAsItIs(t, front, policy, now);
      CleanStaysAsItIs(t, last, policy, now);
    }
  }

  /** A second sweep at the same clock deletes nothing. */
  lemma SecondSweepDeletesNothing(t: Tables, policy: Policy, now: Time)
    ensures var r := SweptAll(t, SWEEP_ORDER, policy, now);
      && SweptAll(r, SWEEP_ORDER, policy, now) == r
      && forall table | table in Deleted(r, SWEEP_ORDER, policy, now) ::
           Deleted(r, SWEEP_ORDER, policy, now)[table] == 0
  {
    var r := SweptAll(t, SWEEP_ORDER, policy, now);
    forall table | table in SWEEP_ORDER ensures Clean(r, table, policy, now) {
      SweepCleans(t, SWEEP_ORDER, policy, now, table);
    }
    AllCleanStaysAsItIs(r, SWEEP_ORDER, policy, now);
  }

  // ---------------------------------------------------------------- dry runs

  /** An old event that is only held by deliveries the same sweep deletes. */
  ghost predicate HeldBySwept(t: Tables, e: Webhooks.EventId, policy: Policy, now: Time) {
    && Window(policy, DomainEvents).Some? && Window(policy, WebhookDeliveries).Some?
    && e in t.events && t.events[e] < Cutoff(Window(policy, DomainEvents).value, now)
    && Referenced(t, e)
    && forall d | d in t.deliveries && t.deliveries[d].row.event == e ::
         OldDelivery(t.deliveries[d], Cutoff(Window(policy, WebhookDeliveries).value, now))
  }

  lemma OtherStepKeepsDoomed(t: Tables, table: Table, other: Table, policy: Policy, now: Time, cutoff: Time)
    requires table != other && table != DomainEvents
    ensures Doomed(Swept(t, other, policy, now), table, cutoff) == Doomed(t, table, cutoff)
  {
    if other == DomainEvents && Window(policy, other).Some? {
      NothingCascades(t, Cutoff(Window(policy, other).value, now));
    }
  }

  lemma {:induction false} EarlierStepsKeepDoomed(t: Tables, order: seq<Table>, table: Table, policy: Policy,
      now: Time, cutoff: Time)
    requires table !in order && table != DomainEvents
    ensures Doomed(SweptAll(t, order, policy, now), table, cutoff) == Doomed(t, table, cutoff)
    decreases |order|
  {
    if order != [] {
      var front, last := order[..|order| - 1], order[|order| - 1];
      assert order == front + [last];
      EarlierStepsKeepDoomed(t, front, table, policy, now, cutoff);
      OtherStepKeepsDoomed(SweptAll(t, front, policy, now), table, last, policy, now, cutoff);
    }
  }

  lemma SmallerSet<T>(a: set<T>, b: set<T>)
    requires a <= b
    ensures |a| <= |b| && (|a| == |b| <==> a == b)
  {
    assert b == a + (b - a);
    assert |b - a| == 0 ==> b - a == {};
  }

  /** The events found right after the deliveries' turn: those a dry run finds, and those that only swept
      deliveries held. */
  lemma EventsAfterDeliveries(t: Tables, policy: Policy, now: Time)
    requires Window(policy, DomainEvents).Some?
    ensures var cutoff := Cutoff(Window(policy, DomainEvents).value, now);
      var after := Doomed(Swept(t, WebhookDeliveries, policy, now), DomainEvents, cutoff);
      Doomed(t, DomainEvents, cutoff) <= after
      && forall e :: e in after <==> e in Doomed(t, DomainEvents, cutoff) || HeldBySwept(t, e, policy, now)
  {
    var s := Swept(t, WebhookDeliveries, policy, now);
    forall e | e in t.events ensures Referenced(s, e) ==> Referenced(t, e) {
      if Referenced(s, e) {
        var d :| d in s.deliveries && s.deliveries[d].row.event == e;
        assert d in t.deliveries;
      }
    }
    forall e | e in t.events && Referenced(t, e) && !Referenced(s, e) ensures Window(policy, WebhookDeliveries).Some? &&
      forall d | d in t.deliveries && t.deliveries[d].row.event == e ::
        OldDelivery(t.deliveries[d], Cutoff(Window(policy, WebhookDeliveries).value, now))
    {
      assert Window(policy, WebhookDeliveries).None? ==> s == t;
      forall d | d in t.deliveries && t.deliveries[d].row.event == e ensures d !in s.deliveries {
        if d in s.deliveries { assert Referenced(s, e); }
      }
    }
  }

  ghost predicate EachOnce(order: seq<Table>) {
    forall i, j | 0 <= i < j < |order| :: order[i] != order[j]
  }

  /** Where a table's two counts come from. */
  lemma {:induction false} Reported(t: Tables, order: seq<Table>, i: nat, policy: Policy, now: Time)
    requires EachOnce(order) && i < |order|
    ensures var table := order[i];
      && (table in Deleted(t, order, policy, now) <==> Window(policy, table).Some?)
      && (table in WouldDelete(t, order, policy, now) <==> Window(policy, table).Some?)
    ensures Window(policy, order[i]).Some? ==>
      var cutoff := Cutoff(Window(policy, order[i]).value, now);
      && WouldDelete(t, order, policy, now)[order[i]] == |Doomed(t, order[i], cutoff)|
      && Deleted(t, order, policy, now)[order[i]] == |Doomed(SweptAll(t, order[..i], policy, now), order[i], cutoff)|
    decreases |order|
  {
    var n := |order| - 1;
    var front, last := order[..n], order[n];
    if i < n {
      Reported(t, front, i, policy, now);
      assert front[..i] == order[..i] && front[i] == order[i] != last;
    } else {
      NotReported(t, front, last, policy, now);
    }
  }

  lemma {:induction false} NotReported(t: Tables, order: seq<Table>, table: Table, policy: Policy, now: Time)
    requires table !in order
    ensures table !in Deleted(t, order, policy, now) && table !in WouldDelete(t, order, policy, now)
    decreases |order|
  {
    if order != [] {
      var front, last := order[..|order| - 1], order[|order| - 1];
      assert table !in front && table != last;
      NotReported(t, front, table, policy, now);
    }
  }

  /** A dry run counts the rows of every table but domain_events that the sweep deletes. */
  lemma DryRunCounts(t: Tables, policy: Policy, now: Time, i: nat)
    requires i < |SWEEP_ORDER| && SWEEP_ORDER[i] != DomainEvents && Window(policy, SWEEP_ORDER[i]).Some?
    ensures SWEEP_ORDER[i] in WouldDelete(t, SWEEP_ORDER, policy, now) &&
      SWEEP_ORDER[i] in Deleted(t, SWEEP_ORDER, policy, now)
    ensures WouldDelete(t, SWEEP_ORDER, policy, now)[SWEEP_ORDER[i]] ==
      Deleted(t, SWEEP_ORDER, policy, now)[SWEEP_ORDER[i]]
  {
    Reported(t, SWEEP_ORDER, i, policy, now);
    EarlierStepsKeepDoomed(t, SWEEP_ORDER[..i], SWEEP_ORDER[i], policy, now,
      Cutoff(Window(policy, SWEEP_ORDER[i]).value, now));
  }

  /** Of domain_events a dry run never counts more than the sweep deletes, and as many exactly when no old
      event is held by swept deliveries alone. */
  lemma DryRunCountsEvents(t: Tables, policy: Policy, now: Time)
    requires Window(policy, DomainEvents).Some?
    ensures DomainEvents in WouldDelete(t, SWEEP_ORDER, policy, now) &&
      DomainEvents in Deleted(t, SWEEP_ORDER, policy, now)
    ensures WouldDelete(t, SWEEP_ORDER, policy, now)[DomainEvents] <= Deleted(t, SWEEP_ORDER, policy, now)[DomainEvents]
    ensures WouldDelete(t, SWEEP_ORDER, policy, now)[DomainEvents] == Deleted(t, SWEEP_ORDER, policy, now)[DomainEvents]
      <==> forall e | e in t.events :: !HeldBySwept(t, e, policy, now)
  {
    var cutoff := Cutoff(Window(policy, DomainEvents).value, now);
    var before := Doomed(t, DomainEvents, cutoff);
    var after := Doomed(Swept(t, WebhookDeliveries, policy, now), DomainEvents, cutoff);
    Reported(t, SWEEP_ORDER, 1, policy, now);
    SecondTable(t, policy, now);
    EventsAfterDeliveries(t, policy, now);
    SmallerSet(before, after);
    assert forall e | HeldBySwept(t, e, policy, now) :: e !in before;
  }

  /** One old event whose only delivery has long succeeded. */
  function OldEvent(past: Time): Tables {
    Tables(map[0 := Dated(Webhooks.Delivery(0, 0, Webhooks.Succeeded, 1, None), past)], map[0 := past],
           map[], map[], map[], map[], map[], map[])
  }

  const SEEDED := Policy(map[DomainEvents := Some(90), WebhookDeliveries := Some(90)], None)

  lemma OldEventIsHeld(past: Time, now: Time)
    requires past < Cutoff(90, now)
    ensures HeldBySwept(OldEvent(past), 0, SEEDED, now)
    ensures Doomed(OldEvent(past), DomainEvents, Cutoff(90, now)) == {}
  {
    var t := OldEvent(past);
    assert t.deliveries[0].row.event == 0;
    assert Referenced(t, 0);
  }

  lemma OldEventGoes(past: Time, now: Time)
    requires past < Cutoff(90, now)
    ensures Doomed(Swept(OldEvent(past), WebhookDeliveries, SEEDED, now), DomainEvents, Cutoff(90, now)) == {0}
  {
    var t := OldEvent(past);
    var swept := Swept(t, WebhookDeliveries, SEEDED, now);
    OldEventIsHeld(past, now);
    EventsAfterDeliveries(t, SEEDED, now);
    assert swept.events == t.events;
  }

  /** Under the seeded windows of 90 days the dry run counts no such event, and the sweep deletes one. */
  lemma DryRunUndercounts(past: Time, now: Time)
    requires past < now - (90 * SECONDS_A_DAY) as real
    ensures var t := OldEvent(past);
      && DomainEvents in WouldDelete(t, SWEEP_ORDER, SEEDED, now)
      && WouldDelete(t, SWEEP_ORDER, SEEDED, now)[DomainEvents] == 0
      && DomainEvents in Deleted(t, SWEEP_ORDER, SEEDED, now)
      && Deleted(t, SWEEP_ORDER, SEEDED, now)[DomainEvents] == 1
  {
    var t := OldEvent(past);
    OldEventIsHeld(past, now);
    OldEventGoes(past, now);
    SecondTable(t, SEEDED, now);
    Reported(t, SWEEP_ORDER, 1, SEEDED, now);
  }

  /** What the sweep of domain_events, the second in order, finds. */
  lemma SecondTable(t: Tables, policy: Policy, now: Time)
    ensures SWEEP_ORDER[1] == DomainEvents
    ensures SweptAll(t, SWEEP_ORDER[..1], policy, now) == Swept(t, WebhookDeliveries, policy, now)
  {
    var first := SWEEP_ORDER[..1];
    assert first == [WebhookDeliveries] && first[..0] == [];
  }

  // ---------------------------------------------------------------- which rows are left

  /** A row of that age is past the window of its table: the override's days, or else its own, if it has any. */
  predicate Past(policy: Policy, table: Table, at: Time, now: Time) {
    match if policy.override.Some? then policy.override else if table in policy.days then policy.days[table] else None
    case None => false
    case Some(days) => at < now - (days * 86400) as real
  }

  /** Of a table whose rows go by their age alone, those past its window are gone, if it was swept. */
  ghost predicate PlainLeft(rows: map<RowId, Time>, left: map<RowId, Time>, table: Table, swept: bool, policy: Policy,
      now: Time)
  {
    && (forall x :: x in left <==> x in rows && !(swept && Past(policy, table, rows[x], now)))
    && (forall x | x in left :: left[x] == rows[x])
  }

  /** Old deliveries are gone unless they are still owed. */
  ghost predicate DeliveriesLeft(rows: map<DeliveryId, Dated<Webhooks.Delivery>>,
      left: map<DeliveryId, Dated<Webhooks.Delivery>>, swept: bool, policy: Policy, now: Time)
  {
    && (forall d :: d in left <==>
         d in rows && !(swept && rows[d].row.status != Webhooks.Pending &&
           Past(policy, WebhookDeliveries, rows[d].createdAt, now)))
    && (forall d | d in left :: left[d] == rows[d])
  }

  /** Old events are gone unless a delivery that is left names them. */
  ghost predicate EventsLeft(rows: map<Webhooks.EventId, Time>, left: map<Webhooks.EventId, Time>, swept: bool,
      deliveries: map<DeliveryId, Dated<Webhooks.Delivery>>, policy: Policy, now: Time)
  {
    && (forall e :: e in left <==>
         e in rows && !(swept && Past(policy, DomainEvents, rows[e], now) &&
           !exists d | d in deliveries :: deliveries[d].row.event == e))
    && (forall e | e in left :: left[e] == rows[e])
  }

  /** Old jobs are gone unless they are queued or running. */
  ghost predicate JobsLeft(rows: Rows, left: Rows, swept: bool, policy: Policy, now: Time) {
    && (forall j :: j in left <==>
         j in rows && !(swept && rows[j].status in {Done, Failed, Cancelled} &&
           Past(policy, JobRows, rows[j].createdAt, now)))
    && (forall j | j in left :: left[j] == rows[j])
  }

  /** Share links go by the time they expired or were revoked. */
  ghost predicate SharesLeft(rows: map<RowId, Share>, left: map<RowId, Share>, swept: bool, policy: Policy, now: Time) {
    && (forall l :: l in left <==>
         l in rows && !(swept && (Past(policy, ShareLinks, rows[l].expiresAt, now) ||
           (rows[l].revokedAt.Some? && Past(policy, ShareLinks, rows[l].revokedAt.value, now)))))
    && (forall l | l in left :: left[l] == rows[l])
  }

  /** What is left of one table, row by row, if it was swept. */
  ghost predicate TableLeft(t: Tables, r: Tables, table: Table, swept: bool, policy: Policy, now: Time) {
    match table
    case WebhookDeliveries => DeliveriesLeft(t.deliveries, r.deliveries, swept, policy, now)
    case DomainEvents => EventsLeft(t.events, r.events, swept, r.deliveries, policy, now)
    case MemoryHistory => PlainLeft(t.history, r.history, table, swept, policy, now)
    case JobRows => JobsLeft(t.jobs, r.jobs, swept, policy, now)
    case ShareLinks => SharesLeft(t.shares, r.shares, swept, policy, now)
    case IdempotencyKeys => PlainLeft(t.idempotency, r.idempotency, table, swept, policy, now)
    case AuditEvents => PlainLeft(t.audit, r.audit, table, swept, policy, now)
    case RevokedKeys => PlainLeft(t.revoked, r.revoked, table, swept, policy, now)
  }

  ghost predicate RowsLeft(t: Tables, r: Tables, order: seq<Table>, policy: Policy, now: Time) {
    forall table :: TableLeft(t, r, table, table in order, policy, now)
  }

  /** The one step that sweeps a table takes out what the statement finds; a table without window is left alone. */
  lemma PlainStep(rows: map<RowId, Time>, left: map<RowId, Time>, table: Table, swept: bool, policy: Policy, now: Time)
    requires PlainLeft(rows, left, table, swept, policy, now)
    ensures Window(policy, table).Some? ==>
      PlainLeft(rows, left - OldIds(left, Cutoff(Window(policy, table).value, now)), table, true, policy, now)
    ensures Window(policy, table).None? ==> PlainLeft(rows, left, table, true, policy, now)
  {}

  lemma DeliveriesStep(rows: map<DeliveryId, Dated<Webhooks.Delivery>>, left: map<DeliveryId, Dated<Webhooks.Delivery>>,
      swept: bool, policy: Policy, now: Time)
    requires DeliveriesLeft(rows, left, swept, policy, now)
    ensures match Window(policy, WebhookDeliveries)
      case None => DeliveriesLeft(rows, left, true, policy, now)
      case Some(days) =>
        DeliveriesLeft(rows, left - (set d | d in left && OldDelivery(left[d], Cutoff(days, now))), true, policy, now)
  {}

  lemma EventsStep(rows: map<Webhooks.EventId, Time>, t: Tables, swept: bool, policy: Policy, now: Time)
    requires EventsLeft(rows, t.events, swept, t.deliveries, policy, now)
    ensures match Window(policy, DomainEvents)
      case None => EventsLeft(rows, t.events, true, t.deliveries, policy, now)
      case Some(days) =>
        EventsLeft(rows, t.events - Doomed(t, DomainEvents, Cutoff(days, now)), true, t.deliveries, policy, now)
  {}

  lemma JobsStep(rows: Rows, left: Rows, swept: bool, policy: Policy, now: Time)
    requires JobsLeft(rows, left, swept, policy, now)
    ensures match Window(policy, JobRows)
      case None => JobsLeft(rows, left, true, policy, now)
      case Some(days) =>
        JobsLeft(rows, left - (set j | j in left && left[j].createdAt < Cutoff(days, now) && Terminal(left[j])), true,
                 policy, now)
  {}

  lemma SharesStep(rows: map<RowId, Share>, left: map<RowId, Share>, swept: bool, policy: Policy, now: Time)
    requires SharesLeft(rows, left, swept, policy, now)
    ensures match Window(policy, ShareLinks)
      case None => SharesLeft(rows, left, true, policy, now)
      case Some(days) =>
        SharesLeft(rows, left - (set l | l in left && OldShare(left[l], Cutoff(days, now))), true, policy, now)
  {}

  /** A step changes its own table only. */
  lemma OthersStay(s: Tables, last: Table, policy: Policy, now: Time)
    ensures var r := Swept(s, last, policy, now);
      && (last != WebhookDeliveries ==> r.deliveries == s.deliveries) && (last != DomainEvents ==> r.events == s.events)
      && (last != MemoryHistory ==> r.history == s.history) && (last != JobRows ==> r.jobs == s.jobs)
      && (last != ShareLinks ==> r.shares == s.shares) && (last != IdempotencyKeys ==> r.idempotency == s.idempotency)
      && (last != AuditEvents ==> r.audit == s.audit) && (last != RevokedKeys ==> r.revoked == s.revoked)
  {
    if Window(policy, last).Some? {
      OthersStayWithout(s, last, Cutoff(Window(policy, last).value, now));
    }
  }

  lemma OthersStayWithout(s: Tables, last: Table, cutoff: Time)
    ensures var r := Without(s, last, Doomed(s, last, cutoff));
      && (last != WebhookDeliveries ==> r.deliveries == s.deliveries) && (last != DomainEvents ==> r.events == s.events)
      && (last != MemoryHistory ==> r.history == s.history) && (last != JobRows ==> r.jobs == s.jobs)
      && (last != ShareLinks ==> r.shares == s.shares) && (last != IdempotencyKeys ==> r.idempotency == s.idempotency)
      && (last != AuditEvents ==> r.audit == s.audit) && (last != RevokedKeys ==> r.revoked == s.revoked)
  {
    NothingCascades(s, cutoff);
  }

  lemma OwnTableLeft(t: Tables, s: Tables, table: Table, swept: bool, policy: Policy, now: Time)
    requires TableLeft(t, s, table, swept, policy, now)
    ensures TableLeft(t, Swept(s, table, policy, now), table, true, policy, now)
  {
    match table
    case WebhookDeliveries => DeliveriesStep(t.deliveries, s.deliveries, swept, policy, now);
    case DomainEvents => EventTableLeft(t, s, swept, policy, now);
    case MemoryHistory => PlainStep(t.history, s.history, table, swept, policy, now);
    case JobRows => JobsStep(t.jobs, s.jobs, swept, policy, now);
    case ShareLinks => SharesStep(t.shares, s.shares, swept, policy, now);
    case IdempotencyKeys => PlainStep(t.idempotency, s.idempotency, table, swept, policy, now);
    case AuditEvents => PlainStep(t.audit, s.audit, table, swept, policy, now);
    case RevokedKeys => PlainStep(t.revoked, s.revoked, table, swept, policy, now);
  }

  lemma EventTableLeft(t: Tables, s: Tables, swept: bool, policy: Policy, now: Time)
    requires TableLeft(t, s, DomainEvents, swept, policy, now)
    ensures TableLeft(t, Swept(s, DomainEvents, policy, now), DomainEvents, true, policy, now)
  {
    EventsStep(t.events, s, swept, policy, now);
    OthersStay(s, DomainEvents, policy, now);
  }

  lemma OneMoreTable(t: Tables, s: Tables, front: seq<Table>, last: Table, policy: Policy, now: Time)
    requires RowsLeft(t, s, front, policy, now) && !(last == WebhookDeliveries && DomainEvents in front)
    ensures RowsLeft(t, Swept(s, last, policy, now), front + [last], policy, now)
  {
    forall table ensures TableLeft(t, Swept(s, last, policy, now), table, table in front + [last], policy, now) {
      assert table in front + [last] <==> table in front || table == last;
      NextTableLeft(t, s, table, table in front, last, policy, now);
    }
  }

  lemma NextTableLeft(t: Tables, s: Tables, table: Table, swept: bool, last: Table, policy: Policy, now: Time)
    requires TableLeft(t, s, table, swept, policy, now)
    requires !(last == WebhookDeliveries && table == DomainEvents && swept)
    ensures TableLeft(t, Swept(s, last, policy, now), table, swept || table == last, policy, now)
  {
    if table == last {
      OwnTableLeft(t, s, last, swept, policy, now);
    } else {
      SameTableLeft(t, s, Swept(s, last, policy, now), table, last, swept, policy, now);
    }
  }

  lemma SameTableLeft(t: Tables, s: Tables, r: Tables, table: Table, last: Table, swept: bool, policy: Policy,
      now: Time)
    requires TableLeft(t, s, table, swept, policy, now) && table != last
    requires r == Swept(s, last, policy, now) && !(last == WebhookDeliveries && table == DomainEvents && swept)
    ensures TableLeft(t, r, table, swept, policy, now)
  {
    OthersStay(s, last, policy, now);
  }

  /** A sweep that takes deliveries before events leaves exactly the rows that are not past their window, or are
      held: deliveries that are owed, jobs that are not over, events that a delivery left over names. */
  lemma {:induction false} SweptRows(t: Tables, order: seq<Table>, policy: Policy, now: Time)
    requires ChildrenFirst(order)
    ensures RowsLeft(t, SweptAll(t, order, policy, now), order, policy, now)
  {
    if order != [] {
      var front, last := order[..|order| - 1], order[|order| - 1];
      assert order == front + [last];
      SweptRows(t, front, policy, now);
      EventsAfterChildren(order);
      OneMoreTable(t, SweptAll(t, front, policy, now), front, last, policy, now);
    }
  }

  lemma EventsAfterChildren(order: seq<Table>)
    requires ChildrenFirst(order) && order != []
    ensures !(order[|order| - 1] == WebhookDeliveries && DomainEvents in order[..|order| - 1])
  {
    assert forall i | 0 <= i < |order| - 1 :: !(order[i] == DomainEvents && order[|order| - 1] == WebhookDeliveries);
  }

  // ---- How many go ----

  function RowsOf(t: Tables, table: Table): set<RowId> {
    match table
    case WebhookDeliveries => t.deliveries.Keys
    case DomainEvents => t.events.Keys
    case MemoryHistory => t.history.Keys
    case JobRows => t.jobs.Keys
    case ShareLinks => t.shares.Keys
    case IdempotencyKeys => t.idempotency.Keys
    case AuditEvents => t.audit.Keys
    case RevokedKeys => t.revoked.Keys
  }

  lemma Counted<T>(all: set<T>, some: set<T>)
    requires some <= all
    ensures |all - some| == |all| - |some|
  {
    assert all == (all - some) + some;
  }

  lemma FoundAreRows(s: Tables, table: Table, cutoff: Time)
    ensures Doomed(s, table, cutoff) <= RowsOf(s, table)
    ensures RowsOf(Without(s, table, Doomed(s, table, cutoff)), table) == RowsOf(s, table) - Doomed(s, table, cutoff)
  {}

  lemma OwnRowsGo(s: Tables, table: Table, cutoff: Time)
    ensures |RowsOf(Without(s, table, Doomed(s, table, cutoff)), table)| ==
      |RowsOf(s, table)| - |Doomed(s, table, cutoff)|
  {
    FoundAreRows(s, table, cutoff);
    Counted(RowsOf(s, table), Doomed(s, table, cutoff));
  }

  lemma OtherRowsStay(s: Tables, last: Table, table: Table, policy: Policy, now: Time)
    requires last != table
    ensures RowsOf(Swept(s, last, policy, now), table) == RowsOf(s, table)
  {
    OthersStay(s, last, policy, now);
  }

  /** A table is reported exactly if it was swept under a window. */
  lemma {:induction false} SweptAreReported(t: Tables, order: seq<Table>, policy: Policy, now: Time, table: Table)
    ensures table in Deleted(t, order, policy, now) <==> table in order && Window(policy, table).Some?
    decreases |order|
  {
    if order != [] {
      assert order == order[..|order| - 1] + [order[|order| - 1]];
      SweptAreReported(t, order[..|order| - 1], policy, now, table);
    }
  }

  lemma {:induction false} UnsweptRowsStay(t: Tables, order: seq<Table>, policy: Policy, now: Time, table: Table)
    requires table !in order
    ensures RowsOf(SweptAll(t, order, policy, now), table) == RowsOf(t, table)
    decreases |order|
  {
    if order != [] {
      var front, last := order[..|order| - 1], order[|order| - 1];
      UnsweptRowsStay(t, front, policy, now, table);
      OtherRowsStay(SweptAll(t, front, policy, now), last, table, policy, now);
    }
  }

  /** What a sweep reports of a table is by how many rows the table got smaller. */
  lemma {:induction false} CountsAreRows(t: Tables, order: seq<Table>, policy: Policy, now: Time, table: Table)
    requires EachOnce(order) && table in Deleted(t, order, policy, now)
    ensures Deleted(t, order, policy, now)[table] ==
      |RowsOf(t, table)| - |RowsOf(SweptAll(t, order, policy, now), table)|
    decreases |order|
  {
    SweptAreReported(t, order, policy, now, table);
    var front, last := order[..|order| - 1], order[|order| - 1];
    var s := SweptAll(t, front, policy, now);
    if last == table {
      UnsweptRowsStay(t, front, policy, now, table);
      OwnRowsGo(s, table, Cutoff(Window(policy, table).value, now));
    } else {
      CountsAreRows(t, front, policy, now, table);
      OtherRowsStay(s, last, table, policy, now);
    }
  }

  // ---------------------------------------------------------------- in place

  /** What a loop over the tables in order leaves and has counted; a dry run leaves everything. */
  ghost predicate SoFar(was: Tables, t: Tables, counts: map<Table, nat>, order: seq<Table>, dryRun: bool,
      policy: Policy, now: Time)
  {
    if dryRun then t == was && counts == WouldDelete(was, order, policy, now)
    else t == SweptAll(was, order, policy, now) && counts == Deleted(was, order, policy, now)
  }

  /** One table is swept and counted, or counted only, or, without a window, left out. */
  ghost predicate OneTableDone(t: Tables, counts: map<Table, nat>, table: Table, dryRun: bool, policy: Policy,
      now: Time, t': Tables, counts': map<Table, nat>)
  {
    match Window(policy, table)
    case None => t' == t && counts' == counts
    case Some(days) =>
      var rows := Doomed(t, table, Cutoff(days, now));
      counts' == counts[table := |rows|] && t' == if dryRun then t else Without(t, table, rows)
  }

  lemma OneTableMore(was: Tables, t: Tables, counts: map<Table, nat>, order: seq<Table>, n: nat, dryRun: bool,
      policy: Policy, now: Time, t': Tables, counts': map<Table, nat>)
    requires n < |order| && SoFar(was, t, counts, order[..n], dryRun, policy, now)
    requires OneTableDone(t, counts, order[n], dryRun, policy, now, t', counts')
    ensures SoFar(was, t', counts', order[..n + 1], dryRun, policy, now)
  {
    assert order[..n + 1][..n] == order[..n];
  }

  /** The swept tables of the database. */
  class Database {
    var tables: Tables

    constructor (initial: Tables)
      ensures tables == initial
    {
      tables := initial;
    }

    method Sweep(policy: Policy, dryRun: bool, now: Time) returns (counts: map<Table, nat>)
      modifies this
      ensures dryRun ==> tables == old(tables) && counts == WouldDelete(old(tables), SWEEP_ORDER, policy, now)
      ensures !dryRun ==> tables == SweptAll(old(tables), SWEEP_ORDER, policy, now)
      ensures !dryRun ==> counts == Deleted(old(tables), SWEEP_ORDER, policy, now)
      ensures !dryRun ==> RowsLeft(old(tables), tables, SWEEP_ORDER, policy, now)
      ensures !dryRun ==> forall table | table in counts ::
        counts[table] == |RowsOf(old(tables), table)| - |RowsOf(tables, table)|
    {
      counts := SweepTables(SWEEP_ORDER, policy, dryRun, now);
      SweptRows(old(tables), SWEEP_ORDER, policy, now);
      forall table | table in Deleted(old(tables), SWEEP_ORDER, policy, now)
        ensures Deleted(old(tables), SWEEP_ORDER, policy, now)[table] == |RowsOf(old(tables), table)| -
          |RowsOf(SweptAll(old(tables), SWEEP_ORDER, policy, now), table)|
      {
        CountsAreRows(old(tables), SWEEP_ORDER, policy, now, table);
      }
    }

    method SweepTables(order: seq<Table>, policy: Policy, dryRun: bool, now: Time) returns (counts: map<Table, nat>)
      modifies this
      ensures SoFar(old(tables), tables, counts, order, dryRun, policy, now)
    {
      counts := map[];
      for n := 0 to |order|
        invariant SoFar(old(tables), tables, counts, order[..n], dryRun, policy, now)
      {
        ghost var before, counted := tables, counts;
        counts := SweepTable(order[n], policy, dryRun, now, counts);
        OneTableMore(old(tables), before, counted, order, n, dryRun, policy, now, tables, counts);
      }
      assert order[..|order|] == order;
    }

    method SweepTable(table: Table, policy: Policy, dryRun: bool, now: Time, counted: map<Table, nat>)
      returns (counts: map<Table, nat>)
      modifies this
      ensures OneTableDone(old(tables), counted, table, dryRun, policy, now, tables, counts)
    {
      counts := counted;
      var window := Window(policy, table);
      if window.Some? {
        var cutoff := now - (window.value * SECONDS_A_DAY) as real;
        var rows := Doomed(tables, table, cutoff);
        counts := counts[table := |rows|];
        if !dryRun {
          tables := Without(tables, table, rows);
        }
      }
    }
  }

  /** With events swept before deliveries a second sweep would find more: the order matters. */
  lemma ParentsFirstLeavesWork(t: Tables, e: Webhooks.EventId, policy: Policy, now: Time)
    requires HeldBySwept(t, e, policy, now)
    ensures !Clean(SweptAll(t, [DomainEvents, WebhookDeliveries], policy, now), DomainEvents, policy, now)
  {
    var cutoff := Cutoff(Window(policy, DomainEvents).value, now);
    var order := [DomainEvents, WebhookDeliveries];
    assert order[..1] == [DomainEvents] && [DomainEvents][..0] == [];
    var s := Swept(t, DomainEvents, policy, now);
    NothingCascades(t, cutoff);
    var r := Swept(s, WebhookDeliveries, policy, now);
    assert SweptAll(t, [DomainEvents], policy, now) == s;
    assert SweptAll(t, order, policy, now) == r;
    assert e in r.events && !Referenced(r, e);
    assert e in Doomed(r, DomainEvents, cutoff);
  }
}
