/** The two local vector stores, one over a dictionary, one over a table of rows, and their common contract.
    Cosine similarity is a parameter; ids are numbers in the order of the id strings. */
module VectorStores {
  import opened Common

  type Id = nat
  type Scope = nat
  type Vector = seq<real>
  type Labels = map<string, string>
  type Similarity = (Vector, Vector) -> real

  datatype Record = Record(
    id: Id, vector: Vector, text: string, kind: string,
    tag: string, org: Option<Scope>, project: Option<Scope>,
    metadata: Labels, createdAt: Time)

  /** A query's answer: the record as found, with its time of creation filled in, and its score. */
  datatype Hit = Hit(record: Record, score: real)

  // ---------------------------------------------------------------- queries

  datatype Query = Query(vector: Vector, tag: string, org: Option<Scope>, project: Option<Scope>, limit: int,
    filters: Labels)

  predicate InScope(r: Record, tag: string, org: Option<Scope>, project: Option<Scope>) {
    r.tag == tag && (org.Some? ==> r.org == org) && (project.Some? ==> r.project == project)
  }

  predicate Matches(metadata: Labels, filters: Labels) {
    forall k | k in filters :: k in metadata && metadata[k] == filters[k]
  }

  predicate Selected(r: Record, q: Query) {
    InScope(r, q.tag, q.org, q.project) && Matches(r.metadata, q.filters)
  }

  /** `created_at or time.time()` */
  function Stamp(r: Record, now: Time): Record {
    if r.createdAt == 0.0 then r.(createdAt := now) else r
  }

  function HitOf(r: Record, q: Query, cosine: Similarity, now: Time): Hit {
    Hit(Stamp(r, now), cosine(q.vector, r.vector))
  }

  predicate Precedes(a: Hit, b: Hit) {
    a.score > b.score || (a.score == b.score && a.record.id < b.record.id)
  }

  ghost predicate Ranked(hits: seq<Hit>) {
    forall i, j | 0 <= i < j < |hits| :: Precedes(hits[i], hits[j])
  }

  /** Ranked hits fall by score, and rise by id where scores are equal; no two have the same id and score. */
  lemma RankedFall(hits: seq<Hit>, i: nat, j: nat)
    requires Ranked(hits) && i < |hits| && j < |hits|
    ensures i < j ==> hits[i].score >= hits[j].score
    ensures i != j && hits[i].score == hits[j].score ==> (i < j <==> hits[i].record.id < hits[j].record.id)
  {}

  /** h is what q finds of one of the records. */
  ghost predicate IsHit(h: Hit, records: map<Id, Record>, q: Query, cosine: Similarity, now: Time) {
    var id := h.record.id;
    id in records && Selected(records[id], q) && h == HitOf(records[id], q, cosine, now)
  }

  /** A hit is a record of the tag, of the organization and project if the query names them, with all the labels asked
      for; it is scored by its vector, and dated as of now if it has no time of its own. */
  lemma HitIs(h: Hit, records: map<Id, Record>, q: Query, cosine: Similarity, now: Time)
    ensures IsHit(h, records, q, cosine, now) <==>
      && h.record.id in records
      && var r := records[h.record.id];
         && r.tag == q.tag && (q.org.None? || r.org == q.org) && (q.project.None? || r.project == q.project)
         && (forall k | k in q.filters :: k in r.metadata && r.metadata[k] == q.filters[k])
         && h == Hit(if r.createdAt == 0.0 then r.(createdAt := now) else r, cosine(q.vector, r.vector))
  {}

  /** hits are all hits of q among the records of a store, best first; ties go to the smaller id. */
  ghost predicate RanksAll(hits: seq<Hit>, records: map<Id, Record>, q: Query, cosine: Similarity, now: Time) {
    Ranked(hits) && forall h :: h in hits <==> IsHit(h, records, q, cosine, now)
  }

  function Cut(hits: seq<Hit>, limit: int): seq<Hit> {
    hits[..Min(|hits|, Max(0, limit))]
  }

  lemma RankedTail(a: seq<Hit>)
    requires Ranked(a) && a != []
    ensures Ranked(a[1..]) && a[0] !in a[1..]
  {}

  /** There is one ranking: what a store's own order is does not matter. */
  lemma {:induction false} RankingIsUnique(a: seq<Hit>, b: seq<Hit>)
    requires Ranked(a) && Ranked(b) && forall h :: h in a <==> h in b
    ensures a == b
  {
    assert b != [] ==> b[0] in b;
    if a != [] {
      assert a[0] in b && b != [];
      assert b[0] in a;
      assert a[0] == b[0];
      RankedTail(a);
      RankedTail(b);
      assert forall h :: h in a[1..] <==> h in a && h != a[0];
      assert forall h :: h in b[1..] <==> h in b && h != b[0];
      RankingIsUnique(a[1..], b[1..]);
    }
  }

  function Insert(hits: seq<Hit>, h: Hit): (r: seq<Hit>)
    ensures forall x :: x in r <==> x in hits || x == h
  {
    if hits == [] || Precedes(h, hits[0]) then [h] + hits
    else
      assert hits == [hits[0]] + hits[1..];
      [hits[0]] + Insert(hits[1..], h)
  }

  lemma {:induction false} InsertKeepsRank(hits: seq<Hit>, h: Hit)
    requires Ranked(hits) && forall x | x in hits :: x.record.id != h.record.id
    ensures Ranked(Insert(hits, h))
  {
    if hits != [] && !Precedes(h, hits[0]) {
      assert hits[0] in hits;
      assert forall x | x in hits[1..] :: x in hits;
      InsertKeepsRank(hits[1..], h);
      var rest := Insert(hits[1..], h);
      assert forall x | x in rest :: Precedes(hits[0], x);
    }
  }

  // ---------------------------------------------------------------- the contract, over a map

  ghost predicate Keyed(records: map<Id, Record>) {
    forall id | id in records :: records[id].id == id
  }

  function Upserted(records: map<Id, Record>, batch: seq<Record>): map<Id, Record> {
    if batch == [] then records else
    var last := batch[|batch| - 1];
    Upserted(records, batch[..|batch| - 1])[last.id := last]
  }

  ghost predicate IsLastFor(batch: seq<Record>, i: nat, id: Id) {
    i < |batch| && batch[i].id == id && forall j | i < j < |batch| :: batch[j].id != id
  }

  /** Every id of the batch holds the last record given for it; all others are as they were. */
  ghost predicate BatchIn(records: map<Id, Record>, r: map<Id, Record>, batch: seq<Record>) {
    && (forall i: nat, id | IsLastFor(batch, i, id) :: id in r && r[id] == batch[i])
    && (forall id | NotIn(batch, id) :: (id in r <==> id in records) && (id in r ==> r[id] == records[id]))
  }

  ghost predicate NotIn(batch: seq<Record>, id: Id) {
    forall j | 0 <= j < |batch| :: batch[j].id != id
  }

  lemma {:induction false} UpsertedIs(records: map<Id, Record>, batch: seq<Record>)
    ensures BatchIn(records, Upserted(records, batch), batch)
    decreases |batch|
  {
    if batch != [] {
      var n: nat := |batch| - 1;
      var front, r := batch[..n], Upserted(records, batch);
      UpsertedIs(records, front);
      forall i: nat, id | IsLastFor(batch, i, id) ensures id in r && r[id] == batch[i] {
        if i < n { assert batch[n].id != id && IsLastFor(front, i, id); }
      }
      forall id | NotIn(batch, id) ensures (id in r <==> id in records) && (id in r ==> r[id] == records[id]) {
        assert batch[n].id != id && NotIn(front, id);
      }
    }
  }

  /** From records to r exactly what the target names is gone: the ids; or what is under the tag, of the organization
      and project if it names them, and of none if only such are asked for. */
  ghost predicate TargetGone(records: map<Id, Record>, r: map<Id, Record>, target: Target) {
    && (forall id | id in r :: id in records && r[id] == records[id])
    && match target
       case Nothing => r == records
       case Ids(ids) => forall id :: id in r <==> id in records && id !in ids
       case Tagged(tag, org, project, unscopedOnly) =>
         forall id :: id in r <==>
           id in records && !(records[id].tag == tag && (org.None? || records[id].org == org) &&
             (project.None? || records[id].project == project) &&
             (!unscopedOnly || (records[id].org == None && records[id].project == None)))
  }

  lemma RemainingIs(records: map<Id, Record>, target: Target)
    requires Keyed(records)
    ensures TargetGone(records, Remaining(records, target), target)
  {}

  /** What a delete names: ids, or everything under a tag, or nothing. */
  datatype Target =
    | Ids(ids: seq<Id>)
    | Tagged(tag: string, org: Option<Scope>, project: Option<Scope>, unscopedOnly: bool)
    | Nothing

  predicate Named(r: Record, target: Target) {
    match target
    case Ids(ids) => r.id in ids
    case Tagged(tag, org, project, unscopedOnly) =>
      InScope(r, tag, org, project) && (unscopedOnly ==> r.org.None? && r.project.None?)
    case Nothing => false
  }

  function Remaining(records: map<Id, Record>, target: Target): map<Id, Record> {
    map id | id in records && !Named(records[id], target) :: records[id]
  }

  /** What delete returns: how many records went, or None for the ValueError. */
  function Removed(records: map<Id, Record>, target: Target): Option<int> {
    if target.Nothing? then None else Some(|records| - |Remaining(records, target)|)
  }

  /** What delete reports is how many ids are gone. */
  lemma RemovedIs(records: map<Id, Record>, target: Target)
    requires Keyed(records)
    ensures Removed(records, target) ==
      if target == Nothing then None else Some(|records.Keys - Remaining(records, target).Keys|)
  {
    KeysGone(records, Remaining(records, target), records.Keys, Remaining(records, target).Keys);
  }

  lemma KeysGone(records: map<Id, Record>, left: map<Id, Record>, all: set<Id>, some: set<Id>)
    requires all == records.Keys && some == left.Keys && some <= all
    ensures |all - some| == |records| - |left|
  {
    assert all == (all - some) + some;
  }

  // ---------------------------------------------------------------- the dictionary

  /** h is what q finds of one of the rows in scope. */
  ghost predicate HitAmong(h: Hit, scoped: seq<Record>, q: Query, cosine: Similarity, now: Time) {
    exists r | r in scoped :: Matches(r.metadata, q.filters) && h == HitOf(r, q, cosine, now)
  }

  /** hits are the best `limit` of all hits among the rows in scope. */
  ghost predicate IsRanking(hits: seq<Hit>, all: seq<Hit>, scoped: seq<Record>, q: Query, cosine: Similarity, now: Time)
  {
    hits == Cut(all, q.limit) && Ranked(all) && forall h :: h in all <==> HitAmong(h, scoped, q, cosine, now)
  }

  /** Filters, scores and sorts records that are in scope. */
  method Rank(scoped: seq<Record>, q: Query, cosine: Similarity, now: Time) returns (hits: seq<Hit>)
    requires forall i, j | 0 <= i < j < |scoped| :: scoped[i].id != scoped[j].id
    ensures exists all :: IsRanking(hits, all, scoped, q, cosine, now)
  {
    var found: seq<Hit> := [];
    for n := 0 to |scoped|
      invariant Ranked(found) && forall h :: h in found <==> HitAmong(h, scoped[..n], q, cosine, now)
    {
      assert scoped[..n + 1] == scoped[..n] + [scoped[n]];
      assert forall r | r in scoped[..n] :: r.id != scoped[n].id;
      var hit := HitOf(scoped[n], q, cosine, now);
      if Matches(scoped[n].metadata, q.filters) {
        InsertKeepsRank(found, hit);
        found := Insert(found, hit);
      }
      forall h ensures HitAmong(h, scoped[..n + 1], q, cosine, now) <==>
        HitAmong(h, scoped[..n], q, cosine, now) || (Matches(scoped[n].metadata, q.filters) && h == hit)
      {
        assert scoped[n] in scoped[..n + 1];
      }
    }
    assert scoped[..|scoped|] == scoped;
    hits := Cut(found, q.limit);
    assert IsRanking(hits, found, scoped, q, cosine, now);
  }

  /** The dictionary's values in whatever order. */
  method Values(records: map<Id, Record>) returns (values: seq<Record>)
    requires Keyed(records)
    ensures forall i, j | 0 <= i < j < |values| :: values[i].id != values[j].id
    ensures forall r :: r in values <==> r.id in records && records[r.id] == r
  {
    values := [];
    var left := records.Keys;
    while left != {}
      invariant left <= records.Keys
      invariant forall i, j | 0 <= i < j < |values| :: values[i].id != values[j].id
      invariant forall r :: r in values <==> r.id in records && r.id !in left && records[r.id] == r
      decreases left
    {
      var id :| id in left;
      values := values + [records[id]];
      left := left - {id};
    }
  }

  ghost predicate DistinctIds(records: seq<Record>) {
    forall i, j | 0 <= i < j < |records| :: records[i].id != records[j].id
  }

  /** What a query must answer over the records of a store. */
  ghost predicate IsAnswer(hits: seq<Hit>, records: map<Id, Record>, q: Query, cosine: Similarity, now: Time) {
    exists all :: RanksAll(all, records, q, cosine, now) && hits == Cut(all, q.limit)
  }

  /** The hits of a store whose records in scope are `scoped`. */
  lemma RankingOfScope(records: map<Id, Record>, scoped: seq<Record>, hits: seq<Hit>, all: seq<Hit>, q: Query,
      cosine: Similarity, now: Time)
    requires Keyed(records) && IsRanking(hits, all, scoped, q, cosine, now)
    requires forall r :: r in scoped <==> r.id in records && records[r.id] == r && InScope(r, q.tag, q.org, q.project)
    ensures IsAnswer(hits, records, q, cosine, now)
  {
    forall h ensures h in all <==> IsHit(h, records, q, cosine, now) {
      if IsHit(h, records, q, cosine, now) {
        assert records[h.record.id] in scoped;
      }
    }
    assert RanksAll(all, records, q, cosine, now);
  }

  method InScopeOnly(records: seq<Record>, q: Query) returns (scoped: seq<Record>)
    requires DistinctIds(records)
    ensures DistinctIds(scoped) && forall r :: r in scoped <==> r in records && InScope(r, q.tag, q.org, q.project)
  {
    scoped := [];
    for n := 0 to |records|
      invariant DistinctIds(scoped) && forall r :: r in scoped <==>
        r in records[..n] && InScope(r, q.tag, q.org, q.project)
    {
      assert records[..n + 1] == records[..n] + [records[n]];
      assert forall r | r in records[..n] :: r.id != records[n].id;
      if InScope(records[n], q.tag, q.org, q.project) {
        scoped := scoped + [records[n]];
      }
    }
    assert records[..|records|] == records;
  }

  /** InMemoryVectorStore. */
  class Dictionary {
    var records: map<Id, Record>

    ghost predicate Valid()
      reads this
    {
      Keyed(records)
    }

    constructor ()
      ensures Valid() && records == map[]
    {
      records := map[];
    }

    method Upsert(batch: seq<Record>)
      requires Valid()
      modifies this
      ensures Valid() && records == Upserted(old(records), batch)
      ensures BatchIn(old(records), records, batch)
    {
      UpsertedIs(records, batch);
      for n := 0 to |batch|
        invariant Valid() && records == Upserted(old(records), batch[..n])
      {
        assert batch[..n + 1][..n] == batch[..n];
        records := records[batch[n].id := batch[n]];
      }
      assert batch[..|batch|] == batch;
    }

    method Find(q: Query, cosine: Similarity, now: Time) returns (hits: seq<Hit>)
      requires Valid()
      ensures IsAnswer(hits, records, q, cosine, now)
    {
      var values := Values(records);
      var scoped := InScopeOnly(values, q);
      hits := Rank(scoped, q, cosine, now);
      ghost var all :| IsRanking(hits, all, scoped, q, cosine, now);
      RankingOfScope(records, scoped, hits, all, q, cosine, now);
    }

    method Delete(target: Target) returns (removed: Option<nat>)
      requires Valid()
      modifies this
      ensures Valid() && records == Remaining(old(records), target)
      ensures removed == Removed(old(records), target)
    {
      ghost var all := records;
      NamedIds(all, target);
      if target.Nothing? {
        return None;
      }
      var targets := NamedBy(records, target);
      var count := Pop(targets);
      assert records == all - targets == Remaining(all, target);
      removed := Some(count);
    }

    method Pop(targets: set<Id>) returns (count: nat)
      modifies this
      ensures records == old(records) - targets && count == |old(records)| - |records|
    {
      count := 0;
      var left := targets;
      ghost var all := records;
      while left != {}
        invariant left <= targets && records == all - (targets - left)
        invariant count == |all| - |records|
        decreases left
      {
        var id :| id in left;
        RemoveMore(all, targets, left, id);
        RemoveKey(records, id);
        if id in records {
          records := records - {id};
          count := count + 1;
        }
        left := left - {id};
      }
      assert targets - {} == targets;
    }
  }

  function NamedBy(records: map<Id, Record>, target: Target): set<Id> {
    match target
    case Ids(ids) => set id | id in ids
    case Tagged(_, _, _, _) => set id | id in records && Named(records[id], target) :: id
    case Nothing => {}
  }

  lemma NamedIds(records: map<Id, Record>, target: Target)
    requires Keyed(records)
    ensures records - NamedBy(records, target) == Remaining(records, target)
    ensures target.Nothing? ==> Remaining(records, target) == records
  {}

  lemma RemoveKey(records: map<Id, Record>, id: Id)
    ensures |records - {id}| == |records| - if id in records then 1 else 0
  {
    var less := records - {id};
    assert less.Keys == records.Keys - {id};
    assert |less| == |less.Keys| && |records| == |records.Keys|;
  }

  /** One target more is taken off the records. */
  lemma RemoveMore(all: map<Id, Record>, targets: set<Id>, left: set<Id>, id: Id)
    requires id in left && left <= targets
    ensures var now, next := all - (targets - left), all - (targets - (left - {id}));
      next == if id in now then now - {id} else now
  {
    assert targets - (left - {id}) == (targets - left) + {id};
  }

  // ---------------------------------------------------------------- the table

  /** rows hold exactly the records of the map, one row each. */
  ghost predicate Holds(rows: seq<Record>, records: map<Id, Record>) {
    && DistinctIds(rows) && Keyed(records)
    && (forall r :: r in rows <==> r.id in records && records[r.id] == r)
  }

  lemma {:induction false} OneRowEach(rows: seq<Record>, records: map<Id, Record>)
    requires Holds(rows, records)
    ensures |rows| == |records|
  {
    assert forall id | id in records :: records[id] in rows;
    if rows == [] {
      assert records == map[];
    } else {
      var front, last := rows[..|rows| - 1], rows[|rows| - 1];
      assert rows == front + [last];
      assert last in rows;
      RemoveKey(records, last.id);
      var less := records - {last.id};
      forall r ensures r in front <==> r.id in less && less[r.id] == r {
        assert r in rows <==> r in front || r == last;
      }
      OneRowEach(front, less);
    }
  }

  lemma Replaced(rows: seq<Record>, records: map<Id, Record>, i: nat, r: Record)
    requires Holds(rows, records) && i < |rows| && rows[i].id == r.id
    ensures Holds(rows[i := r], records[r.id := r])
  {
    var next := rows[i := r];
    forall x ensures x in next <==> x.id in records[r.id := r] && records[r.id := r][x.id] == x {
      if x in rows && x.id != r.id {
        var j :| 0 <= j < |rows| && rows[j] == x;
        assert next[j] == x;
      }
      assert next[i] == r;
    }
  }

  lemma Appended(rows: seq<Record>, records: map<Id, Record>, r: Record)
    requires Holds(rows, records) && forall x | x in rows :: x.id != r.id
    ensures Holds(rows + [r], records[r.id := r])
  {
    assert forall i | 0 <= i < |rows| :: rows[i] in rows;
    assert forall id | id in records :: records[id] in rows;
  }

  lemma Kept(rows: seq<Record>, records: map<Id, Record>, target: Target, kept: seq<Record>)
    requires Holds(rows, records) && DistinctIds(kept)
    requires forall r :: r in kept <==> r in rows && !Named(r, target)
    ensures Holds(kept, Remaining(records, target)) && |rows| - |kept| == |records| - |Remaining(records, target)|
  {
    OneRowEach(rows, records);
    OneRowEach(kept, Remaining(records, target));
  }

  function StampedAll(batch: seq<Record>, now: Time): seq<Record> {
    seq(|batch|, i requires 0 <= i < |batch| => Stamp(batch[i], now))
  }

  /** Records without a time are dated as of now. */
  ghost predicate AreStamped(batch: seq<Record>, stamped: seq<Record>, now: Time) {
    && |stamped| == |batch|
    && forall i | 0 <= i < |batch| ::
         stamped[i] == batch[i].(createdAt := if batch[i].createdAt == 0.0 then now else batch[i].createdAt)
  }

  /** SQLiteVectorStore: rows in the order they were inserted, and `view`, what they hold. */
  class Table {
    var rows: seq<Record>
    ghost var view: map<Id, Record>

    ghost predicate Valid()
      reads this
    {
      Holds(rows, view)
    }

    constructor ()
      ensures Valid() && view == map[]
    {
      rows, view := [], map[];
    }

    method UpsertRow(r: Record)
      requires Valid()
      modifies this
      ensures Valid() && view == old(view)[r.id := r]
    {
      var i := 0;
      while i < |rows| && rows[i].id != r.id
        invariant 0 <= i <= |rows|
        invariant forall j | 0 <= j < i :: rows[j].id != r.id
      {
        i := i + 1;
      }
      if i < |rows| {
        Replaced(rows, view, i, r);
        rows := rows[i := r];
      } else {
        Appended(rows, view, r);
        rows := rows + [r];
      }
      view := view[r.id := r];
    }

    method Upsert(batch: seq<Record>, now: Time)
      requires Valid()
      modifies this
      ensures Valid() && view == Upserted(old(view), StampedAll(batch, now))
      ensures exists stamped :: AreStamped(batch, stamped, now) && BatchIn(old(view), view, stamped)
    {
      ghost var stamped := StampedAll(batch, now);
      UpsertedIs(view, stamped);
      for n := 0 to |batch|
        invariant Valid() && view == Upserted(old(view), stamped[..n])
      {
        assert stamped[..n + 1][..n] == stamped[..n];
        UpsertRow(Stamp(batch[n], now));
      }
      assert stamped[..|batch|] == stamped;
    }

    method Find(q: Query, cosine: Similarity, now: Time) returns (hits: seq<Hit>)
      requires Valid()
      ensures IsAnswer(hits, view, q, cosine, now)
    {
      var scoped := InScopeOnly(rows, q);
      hits := Rank(scoped, q, cosine, now);
      ghost var all :| IsRanking(hits, all, scoped, q, cosine, now);
      RankingOfScope(view, scoped, hits, all, q, cosine, now);
    }

    /** The row count of the DELETE statement; None is the ValueError. */
    method Delete(target: Target) returns (removed: Option<nat>)
      requires Valid()
      modifies this
      ensures Valid() && view == Remaining(old(view), target)
      ensures removed == Removed(old(view), target)
    {
      var kept := Others(rows, target);
      Kept(rows, view, target, kept);
      if !target.Nothing? {
        var count: nat := |rows| - |kept|;
        removed := Some(count);
      } else {
        removed := None;
      }
      rows, view := kept, Remaining(view, target);
    }
  }

  method Others(rows: seq<Record>, target: Target) returns (kept: seq<Record>)
    requires DistinctIds(rows)
    ensures DistinctIds(kept) && |kept| <= |rows| && forall r :: r in kept <==> r in rows && !Named(r, target)
  {
    kept := [];
    for n := 0 to |rows|
      invariant DistinctIds(kept) && |kept| <= n && forall r :: r in kept <==> r in rows[..n] && !Named(r, target)
    {
      assert rows[..n + 1] == rows[..n] + [rows[n]];
      assert forall r | r in rows[..n] :: r.id != rows[n].id;
      if !Named(rows[n], target) {
        kept := kept + [rows[n]];
      }
    }
    assert rows[..|rows|] == rows;
  }

  // ---------------------------------------------------------------- one behaviour

  datatype Op = Put(batch: seq<Record>) | Ask(query: Query) | Drop(target: Target)

  datatype Answer = Stored | Found(hits: seq<Hit>) | Dropped(count: Option<nat>)

  predicate Timed(op: Op) {
    op.Put? ==> forall r | r in op.batch :: r.createdAt != 0.0
  }

  /** The record but for its time of creation. */
  function Bare(r: Record): Record {
    r.(createdAt := 0.0)
  }

  ghost predicate Alike(a: map<Id, Record>, b: map<Id, Record>) {
    a.Keys == b.Keys && Keyed(a) && Keyed(b) && forall id | id in a :: Bare(a[id]) == Bare(b[id])
  }

  /** b differs from a only in the times of records that have none in a. */
  ghost predicate TimesKept(a: map<Id, Record>, b: map<Id, Record>) {
    Alike(a, b) && forall id | id in a && a[id].createdAt != 0.0 :: b[id] == a[id]
  }

  ghost predicate SameHits(a: seq<Hit>, b: seq<Hit>) {
    |a| == |b| && forall i | 0 <= i < |a| :: a[i].score == b[i].score && Bare(a[i].record) == Bare(b[i].record)
  }

  ghost predicate SameAnswer(a: Answer, b: Answer) {
    if a.Found? && b.Found? then SameHits(a.hits, b.hits) else a == b
  }

  function Bared(hits: seq<Hit>): seq<Hit> {
    seq(|hits|, i requires 0 <= i < |hits| => Hit(Bare(hits[i].record), hits[i].score))
  }

  ghost predicate IsBareHit(h: Hit, records: map<Id, Record>, q: Query, cosine: Similarity) {
    var id := h.record.id;
    id in records && Selected(records[id], q) && h == Hit(Bare(records[id]), cosine(q.vector, records[id].vector))
  }

  lemma BaredIn(hits: seq<Hit>, records: map<Id, Record>, q: Query, cosine: Similarity, now: Time, h: Hit)
    requires Keyed(records) && RanksAll(hits, records, q, cosine, now)
    ensures h in Bared(hits) <==> IsBareHit(h, records, q, cosine)
  {
    if h in Bared(hits) {
      var i :| 0 <= i < |hits| && Bared(hits)[i] == h;
      assert hits[i] in hits;
    }
    if IsBareHit(h, records, q, cosine) {
      var full := HitOf(records[h.record.id], q, cosine, now);
      assert IsHit(full, records, q, cosine, now) && full in hits;
      var i :| 0 <= i < |hits| && hits[i] == full;
      assert Bared(hits)[i] == h;
    }
  }

  lemma BaredRanked(hits: seq<Hit>)
    requires Ranked(hits)
    ensures Ranked(Bared(hits))
  {}

  /** Stores that differ in times of creation at most rank alike. */
  lemma RankAlike(a: map<Id, Record>, b: map<Id, Record>, x: seq<Hit>, y: seq<Hit>, q: Query, cosine: Similarity,
      now: Time)
    requires Alike(a, b) && RanksAll(x, a, q, cosine, now) && RanksAll(y, b, q, cosine, now)
    ensures SameHits(x, y) && (a == b ==> x == y)
  {
    forall h ensures h in Bared(x) <==> h in Bared(y) {
      BaredIn(x, a, q, cosine, now, h);
      BaredIn(y, b, q, cosine, now, h);
    }
    BaredRanked(x);
    BaredRanked(y);
    RankingIsUnique(Bared(x), Bared(y));
    forall i | 0 <= i < |x| ensures x[i].score == y[i].score && Bare(x[i].record) == Bare(y[i].record) {
      assert Bared(x)[i] == Bared(y)[i];
    }
    if a == b {
      RankingIsUnique(x, y);
    }
  }

  lemma AnswersAlike(m: map<Id, Record>, n: map<Id, Record>, a: seq<Hit>, b: seq<Hit>, q: Query, cosine: Similarity,
      now: Time)
    requires Alike(m, n) && IsAnswer(a, m, q, cosine, now) && IsAnswer(b, n, q, cosine, now)
    ensures SameHits(a, b) && (m == n ==> a == b)
  {
    var x :| RanksAll(x, m, q, cosine, now) && a == Cut(x, q.limit);
    var y :| RanksAll(y, n, q, cosine, now) && b == Cut(y, q.limit);
    RankAlike(m, n, x, y, q, cosine, now);
  }

  // ---- Which records a query returns ----

  /** Record k is selected by q and ranks before record id. */
  predicate IsAhead(records: map<Id, Record>, k: Id, id: Id, q: Query, cosine: Similarity)
    requires id in records
  {
    && k in records && Selected(records[k], q)
    && var x, y := cosine(q.vector, records[k].vector), cosine(q.vector, records[id].vector);
       x > y || (x == y && k < id)
  }

  function Ahead(records: map<Id, Record>, id: Id, q: Query, cosine: Similarity): set<Id>
    requires id in records
  {
    set k | k in records && IsAhead(records, k, id, q, cosine)
  }

  /** The query selects the record, and fewer than `limit` of the records it selects rank before it. */
  predicate Returned(records: map<Id, Record>, id: Id, q: Query, cosine: Similarity) {
    id in records && Selected(records[id], q) && |Ahead(records, id, q, cosine)| < q.limit
  }

  function IdsOf(hits: seq<Hit>): set<Id> {
    set h | h in hits :: h.record.id
  }

  ghost predicate OnceEach(hits: seq<Hit>) {
    forall i, j | 0 <= i < j < |hits| :: hits[i].record.id != hits[j].record.id
  }

  lemma {:induction false} IdsCount(hits: seq<Hit>)
    requires OnceEach(hits)
    ensures |IdsOf(hits)| == |hits|
  {
    if hits != [] {
      var front, last := hits[..|hits| - 1], hits[|hits| - 1];
      IdsCount(front);
      assert hits == front + [last];
      assert last.record.id !in IdsOf(front);
      assert IdsOf(hits) == IdsOf(front) + {last.record.id};
    }
  }

  lemma RankedOnceEach(hits: seq<Hit>, records: map<Id, Record>, q: Query, cosine: Similarity, now: Time)
    requires RanksAll(hits, records, q, cosine, now)
    ensures OnceEach(hits)
  {
    forall i, j | 0 <= i < j < |hits| ensures hits[i].record.id != hits[j].record.id {
      assert hits[i] in hits && hits[j] in hits;
      assert Precedes(hits[i], hits[j]);
    }
  }

  /** Where a record stands in the ranking. */
  lemma AheadIsPrefix(hits: seq<Hit>, records: map<Id, Record>, q: Query, cosine: Similarity, now: Time, i: nat)
    requires Keyed(records) && RanksAll(hits, records, q, cosine, now) && i < |hits|
    ensures hits[i].record.id in records && Ahead(records, hits[i].record.id, q, cosine) == IdsOf(hits[..i])
  {
    var id := hits[i].record.id;
    assert hits[i] in hits;
    forall k | k in Ahead(records, id, q, cosine) ensures k in IdsOf(hits[..i]) {
      var h := HitOf(records[k], q, cosine, now);
      assert IsHit(h, records, q, cosine, now);
      var j :| 0 <= j < |hits| && hits[j] == h;
      assert Precedes(h, hits[i]);
      assert j < i && hits[..i][j] == h;
    }
    forall k | k in IdsOf(hits[..i]) ensures k in Ahead(records, id, q, cosine) {
      var j :| 0 <= j < i && hits[j].record.id == k;
      assert hits[j] in hits && Precedes(hits[j], hits[i]);
    }
  }

  /** A query returns exactly the records with fewer than `limit` selected records in front of them. */
  lemma ReturnedIff(records: map<Id, Record>, a: seq<Hit>, q: Query, cosine: Similarity, now: Time, id: Id)
    requires Keyed(records) && IsAnswer(a, records, q, cosine, now)
    ensures id in IdsOf(a) <==> Returned(records, id, q, cosine)
  {
    var all :| RanksAll(all, records, q, cosine, now) && a == Cut(all, q.limit);
    RankedOnceEach(all, records, q, cosine, now);
    if id in records && Selected(records[id], q) {
      var h := HitOf(records[id], q, cosine, now);
      assert IsHit(h, records, q, cosine, now);
      var i :| 0 <= i < |all| && all[i] == h;
      AheadIsPrefix(all, records, q, cosine, now, i);
      IdsCount(all[..i]);
      InCutIff(all, a, q.limit, i);
    } else {
      forall h | h in a ensures h.record.id != id {
        assert h in all;
      }
    }
  }

  lemma InCutIff(all: seq<Hit>, a: seq<Hit>, limit: int, i: nat)
    requires OnceEach(all) && a == Cut(all, limit) && i < |all|
    ensures all[i].record.id in IdsOf(a) <==> i < limit
  {
    if i < limit {
      assert a[i] == all[i];
    }
    if all[i].record.id in IdsOf(a) {
      var j :| 0 <= j < |a| && a[j].record.id == all[i].record.id;
      assert all[j] == a[j];
    }
  }

  /** When the two answers are the same to the last field: every record that the query returns came with its own
      time, or happens to be dated by the second store at the time of the query. */
  lemma AnswersEqualIff(m: map<Id, Record>, n: map<Id, Record>, a: seq<Hit>, b: seq<Hit>, q: Query, cosine: Similarity,
      now: Time)
    requires TimesKept(m, n) && IsAnswer(a, m, q, cosine, now) && IsAnswer(b, n, q, cosine, now)
    ensures a == b <==> forall id | id in m && Returned(m, id, q, cosine) ::
      m[id].createdAt != 0.0 || Stamp(n[id], now).createdAt == now
  {
    AnswersAlike(m, n, a, b, q, cosine, now);
    AnswersAreHits(m, a, q, cosine, now);
    AnswersAreHits(n, b, q, cosine, now);
    forall i | 0 <= i < |a|
      ensures a[i].record.id in m && Returned(m, a[i].record.id, q, cosine)
      ensures a[i] == b[i] <==> var id := a[i].record.id; m[id].createdAt != 0.0 || Stamp(n[id], now).createdAt == now
    {
      assert IsHit(a[i], m, q, cosine, now) && IsHit(b[i], n, q, cosine, now);
      assert Bare(a[i].record).id == Bare(b[i].record).id;
      SameButTime(a[i].record, b[i].record);
      assert a[i] in a;
      ReturnedIff(m, a, q, cosine, now, a[i].record.id);
    }
    forall id | id in m && Returned(m, id, q, cosine) ensures exists i :: 0 <= i < |a| && a[i].record.id == id {
      ReturnedIff(m, a, q, cosine, now, id);
    }
  }

  lemma AnswersAreHits(m: map<Id, Record>, a: seq<Hit>, q: Query, cosine: Similarity, now: Time)
    requires IsAnswer(a, m, q, cosine, now)
    ensures forall i | 0 <= i < |a| :: IsHit(a[i], m, q, cosine, now)
  {
    var all :| RanksAll(all, m, q, cosine, now) && a == Cut(all, q.limit);
    assert forall i | 0 <= i < |a| :: a[i] == all[i] && all[i] in all;
  }

  lemma SameButTime(r: Record, s: Record)
    requires Bare(r) == Bare(s)
    ensures r == s <==> r.createdAt == s.createdAt
  {
    assert r == Bare(r).(createdAt := r.createdAt) && s == Bare(s).(createdAt := s.createdAt);
  }

  lemma {:induction false} PutKeepsTimes(a: map<Id, Record>, b: map<Id, Record>, batch: seq<Record>, now: Time)
    requires TimesKept(a, b)
    ensures TimesKept(Upserted(a, batch), Upserted(b, StampedAll(batch, now)))
  {
    if batch != [] {
      var front, last := batch[..|batch| - 1], batch[|batch| - 1];
      PutKeepsTimes(a, b, front, now);
      assert StampedAll(batch, now)[..|batch| - 1] == StampedAll(front, now);
      OneKeepsTimes(Upserted(a, front), Upserted(b, StampedAll(front, now)), last, now);
    }
  }

  lemma OneKeepsTimes(a: map<Id, Record>, b: map<Id, Record>, r: Record, now: Time)
    requires TimesKept(a, b)
    ensures TimesKept(a[r.id := r], b[r.id := Stamp(r, now)])
  {}

  lemma DropKeepsTimes(a: map<Id, Record>, b: map<Id, Record>, target: Target)
    requires TimesKept(a, b)
    ensures TimesKept(Remaining(a, target), Remaining(b, target)) && Removed(a, target) == Removed(b, target)
  {
    RemainAlike(a, b, target);
    SameSize(a, b);
    SameSize(Remaining(a, target), Remaining(b, target));
  }

  lemma RemainAlike(a: map<Id, Record>, b: map<Id, Record>, target: Target)
    requires Alike(a, b)
    ensures Remaining(a, target).Keys == Remaining(b, target).Keys
  {
    forall id | id in a ensures Named(a[id], target) == Named(b[id], target) {
      NamedAlike(a[id], b[id], target);
    }
  }

  lemma NamedAlike(r: Record, s: Record, target: Target)
    requires Bare(r) == Bare(s)
    ensures Named(r, target) == Named(s, target)
  {}

  lemma SameSize(a: map<Id, Record>, b: map<Id, Record>)
    requires a.Keys == b.Keys
    ensures |a| == |b|
  {
    assert |a| == |a.Keys| && |b| == |b.Keys|;
  }

  lemma TimedBatch(batch: seq<Record>, now: Time)
    requires forall r | r in batch :: r.createdAt != 0.0
    ensures StampedAll(batch, now) == batch
  {}

  /** One operation on both stores. */
  method Both(op: Op, now: Time, cosine: Similarity, dictionary: Dictionary, table: Table)
    returns (a: Answer, b: Answer)
    requires dictionary.Valid() && table.Valid() && TimesKept(dictionary.records, table.view)
    modifies dictionary, table
    ensures dictionary.Valid() && table.Valid() && TimesKept(dictionary.records, table.view)
    ensures SameAnswer(a, b)
    ensures old(dictionary.records) == old(table.view) && Timed(op) ==> a == b && dictionary.records == table.view
  {
    match op
    case Put(batch) =>
      PutKeepsTimes(dictionary.records, table.view, batch, now);
      if Timed(op) { TimedBatch(batch, now); }
      dictionary.Upsert(batch);
      table.Upsert(batch, now);
      a, b := Stored, Stored;
    case Ask(q) =>
      var x, y := BothFind(q, now, cosine, dictionary, table);
      a, b := Found(x), Found(y);
    case Drop(target) =>
      var m, n := BothDelete(target, dictionary, table);
      a, b := Dropped(m), Dropped(n);
  }

  method BothFind(q: Query, now: Time, cosine: Similarity, dictionary: Dictionary, table: Table)
    returns (a: seq<Hit>, b: seq<Hit>)
    requires dictionary.Valid() && table.Valid() && TimesKept(dictionary.records, table.view)
    ensures SameHits(a, b) && (dictionary.records == table.view ==> a == b)
    ensures a == b <==>
      forall id | id in dictionary.records && Returned(dictionary.records, id, q, cosine) ::
        dictionary.records[id].createdAt != 0.0 || Stamp(table.view[id], now).createdAt == now
  {
    a := dictionary.Find(q, cosine, now);
    b := table.Find(q, cosine, now);
    AnswersAlike(dictionary.records, table.view, a, b, q, cosine, now);
    AnswersEqualIff(dictionary.records, table.view, a, b, q, cosine, now);
  }

  method BothDelete(target: Target, dictionary: Dictionary, table: Table) returns (a: Option<nat>, b: Option<nat>)
    requires dictionary.Valid() && table.Valid() && TimesKept(dictionary.records, table.view)
    modifies dictionary, table
    ensures dictionary.Valid() && table.Valid() && TimesKept(dictionary.records, table.view) && a == b
    ensures old(dictionary.records) == old(table.view) ==> dictionary.records == table.view
  {
    ghost var x, y := dictionary.records, table.view;
    DropKeepsTimes(x, y, target);
    a := dictionary.Delete(target);
    b := table.Delete(target);
  }

  /** Two stores, one behaviour: any sequence of operations on empty stores gets the same answers from both,
      up to the times filled in for records without one; with none of those, exactly the same. */
  method RunBoth(ops: seq<Op>, clock: seq<Time>, cosine: Similarity) returns (a: seq<Answer>, b: seq<Answer>)
    requires |clock| == |ops|
    ensures |a| == |b| == |ops| && forall i | 0 <= i < |ops| :: SameAnswer(a[i], b[i])
    ensures (forall op | op in ops :: Timed(op)) ==> a == b
  {
    var dictionary := new Dictionary();
    var table := new Table();
    a, b := [], [];
    for n := 0 to |ops|
      invariant fresh(dictionary) && fresh(table) && dictionary.Valid() && table.Valid()
      invariant TimesKept(dictionary.records, table.view)
      invariant |a| == |b| == n && forall i | 0 <= i < n :: SameAnswer(a[i], b[i])
      invariant (forall op | op in ops[..n] :: Timed(op)) ==> a == b && dictionary.records == table.view
    {
      assert ops[..n + 1] == ops[..n] + [ops[n]];
      var x, y := Both(ops[n], clock[n], cosine, dictionary, table);
      a, b := a + [x], b + [y];
    }
    assert ops[..|ops|] == ops;
  }

  lemma {:induction false} DatedAtUpsert(m: map<Id, Record>, batch: seq<Record>, stored: Time, id: Id)
    requires id in Upserted(m, batch) && Upserted(m, batch)[id].createdAt == 0.0
    requires id in m ==> m[id].createdAt != 0.0
    ensures id in Upserted(m, StampedAll(batch, stored)) &&
      Upserted(m, StampedAll(batch, stored))[id].createdAt == stored
  {
    if batch != [] {
      var front, last := batch[..|batch| - 1], batch[|batch| - 1];
      assert StampedAll(batch, stored)[..|batch| - 1] == StampedAll(front, stored);
      if last.id != id {
        DatedAtUpsert(m, front, stored, id);
      }
    }
  }

  /** Both stores hold the same records, each with its time; then a batch is put into both at `stored`, and both
      are asked at `asked`. The answers are the same if and only if both happen at once, or every selected record
      without a time of its own has at least `limit` selected records in front of it, or the clock stood at zero,
      which counts as no time. */
  lemma UntimedDiffers(m: map<Id, Record>, batch: seq<Record>, stored: Time, asked: Time, q: Query, cosine: Similarity,
      a: seq<Hit>, b: seq<Hit>)
    requires Keyed(m) && forall id | id in m :: m[id].createdAt != 0.0
    requires IsAnswer(a, Upserted(m, batch), q, cosine, asked)
    requires IsAnswer(b, Upserted(m, StampedAll(batch, stored)), q, cosine, asked)
    ensures var x := Upserted(m, batch);
      a == b <==>
        || stored == asked || stored == 0.0
        || forall id | id in x && Selected(x[id], q) && x[id].createdAt == 0.0 :: |Ahead(x, id, q, cosine)| >= q.limit
  {
    var x, y := Upserted(m, batch), Upserted(m, StampedAll(batch, stored));
    PutKeepsTimes(m, m, batch, stored);
    AnswersEqualIff(x, y, a, b, q, cosine, asked);
    forall id | id in x && x[id].createdAt == 0.0
      ensures id in y && Stamp(y[id], asked).createdAt == if stored == 0.0 then asked else stored
    {
      DatedAtUpsert(m, batch, stored, id);
    }
    forall id | id in x && Returned(x, id, q, cosine)
      ensures (x[id].createdAt != 0.0 || Stamp(y[id], asked).createdAt == asked) <==>
        (stored == asked || stored == 0.0 || x[id].createdAt != 0.0)
    {
      assert id in y;
    }
    SomeUntimed(x, q, cosine, stored == asked || stored == 0.0);
  }

  /** Every record returned has its own time exactly if every selected one without has enough in front of it. */
  lemma SomeUntimed(x: map<Id, Record>, q: Query, cosine: Similarity, atOnce: bool)
    ensures (forall id | id in x && Returned(x, id, q, cosine) :: atOnce || x[id].createdAt != 0.0) <==>
      (atOnce || forall id | id in x && Selected(x[id], q) && x[id].createdAt == 0.0 ::
        |Ahead(x, id, q, cosine)| >= q.limit)
  {
    if !atOnce && exists id :: id in x && Returned(x, id, q, cosine) && x[id].createdAt == 0.0 {
      var id :| id in x && Returned(x, id, q, cosine) && x[id].createdAt == 0.0;
      assert Selected(x[id], q) && |Ahead(x, id, q, cosine)| < q.limit;
    }
  }
}
