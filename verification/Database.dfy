/** The tables of facts, memories and history together, as db.py and facts.py change them in place, and
    the cascade delete that walks the supersession graph. */
module Database {
  import opened Common
  import Text
  import Facts
  import Memories

  type FactId = nat
  type MemoryId = nat

  datatype Db = Db(graph: Facts.Graph, store: Memories.Store)

  // ---------------------------------------------------------------- projection of facts into memories

  predicate Projects(store: Memories.Store, m: MemoryId, f: FactId) {
    m in store.memories && store.memories[m].fact == Some(f)
  }

  predicate Projected(store: Memories.Store, f: FactId) {
    exists m | m in store.memories :: Projects(store, m, f)
  }

  function EnsuredMemory(store: Memories.Store, f: FactId, text: string, metadata: Memories.Metadata): Memories.Store {
    if Projected(store, f) then store else Memories.Inserted(store, text, metadata, Some(f))
  }

  /** The fact has its memory: the one it had, or a new one with that text. */
  ghost predicate MemoryEnsured(store: Memories.Store, r: Memories.Store, f: FactId, text: string,
      metadata: Memories.Metadata)
  {
    if exists m | m in store.memories :: store.memories[m].fact == Some(f) then r == store
    else Memories.MemoryAdded(store, r, text, metadata, Some(f))
  }

  function FactText(topic: Facts.Topic, obj: string): string {
    topic.subj + " " + topic.pred + " " + obj
  }

  function FactAdded(db: Db, topic: Facts.Topic, obj: string, supersede: bool, metadata: Memories.Metadata,
      now: Time): Db
    requires Facts.Unique(db.graph)
  {
    Db(Facts.Added(db.graph, topic, obj, supersede, now),
       EnsuredMemory(db.store, Facts.Target(db.graph, topic, obj), FactText(topic, obj), metadata))
  }

  /** From db to r add_fact answers with `fact`: the row there was for the triple, live again; or a new row, in whose
      favour, if asked, every live fact of the topic is closed. It has its memory. Nothing else changed. */
  ghost predicate FactIsIn(db: Db, r: Db, topic: Facts.Topic, obj: string, supersede: bool, metadata: Memories.Metadata,
      now: Time, fact: FactId)
  {
    && MemoryEnsured(db.store, r.store, fact, topic.subj + " " + topic.pred + " " + obj, metadata)
    && var facts := db.graph.facts;
       if exists f | f in facts :: facts[f].topic == topic && facts[f].obj == obj then
         && fact in facts && facts[fact].topic == topic && facts[fact].obj == obj && r.graph.next == db.graph.next
         && r.graph.facts == facts[fact := facts[fact].(validTo := None, supersededBy := None)]
       else
         && fact == db.graph.next && r.graph.next == fact + 1 && r.graph.facts.Keys == facts.Keys + {fact}
         && r.graph.facts[fact] == Facts.Fact(topic, obj, None, None, now)
         && forall f | f in facts && f != fact :: r.graph.facts[f] ==
              if supersede && facts[f].topic == topic && facts[f].validTo.None?
              then facts[f].(validTo := Some(now), supersededBy := Some(fact)) else facts[f]
  }

  lemma FactAddedIs(db: Db, topic: Facts.Topic, obj: string, supersede: bool, metadata: Memories.Metadata, now: Time)
    requires DbInv(db)
    ensures FactIsIn(db, FactAdded(db, topic, obj, supersede, metadata, now), topic, obj, supersede, metadata, now,
      Facts.Target(db.graph, topic, obj))
  {
    var fact := Facts.Target(db.graph, topic, obj);
    GraphAddedIs(db.graph, topic, obj, supersede, now);
    Memories.InsertedIs(db.store, FactText(topic, obj), metadata, Some(fact));
  }

  lemma GraphAddedIs(g: Facts.Graph, topic: Facts.Topic, obj: string, supersede: bool, now: Time)
    requires Facts.GraphInv(g)
    ensures var r, fact := Facts.Added(g, topic, obj, supersede, now), Facts.Target(g, topic, obj);
      if exists f | f in g.facts :: g.facts[f].topic == topic && g.facts[f].obj == obj then
        && fact in g.facts && g.facts[fact].topic == topic && g.facts[fact].obj == obj && r.next == g.next
        && r.facts == g.facts[fact := g.facts[fact].(validTo := None, supersededBy := None)]
      else
        && fact == g.next && r.next == fact + 1 && r.facts.Keys == g.facts.Keys + {fact}
        && r.facts[fact] == Facts.Fact(topic, obj, None, None, now)
        && forall f | f in g.facts && f != fact :: r.facts[f] ==
             if supersede && g.facts[f].topic == topic && g.facts[f].validTo.None?
             then g.facts[f].(validTo := Some(now), supersededBy := Some(fact)) else g.facts[f]
  {
    if f :| f in g.facts && g.facts[f].topic == topic && g.facts[f].obj == obj {
      assert Facts.States(g, f, topic, obj);
    } else {
      assert !Facts.Known(g, topic, obj);
    }
  }

  /** Deleting a fact row unlinks the memories that project it. */
  function FactDeleted(db: Db, f: FactId): Db {
    if f !in db.graph.facts || Facts.Referenced(db.graph, f) then db else
    Db(Facts.Removed(db.graph, f),
       db.store.(memories := map m | m in db.store.memories ::
                   if db.store.memories[m].fact == Some(f) then db.store.memories[m].(fact := None)
                     else db.store.memories[m]))
  }

  // ---------------------------------------------------------------- the cascade

  /** The memory that still projects fact f, which the walk goes through. */
  predicate Carries(store: Memories.Store, m: MemoryId, f: FactId) {
    Projects(store, m, f) && store.memories[m].state == Memories.Active
  }

  ghost predicate Carried(store: Memories.Store, f: FactId) {
    exists m :: Carries(store, m, f)
  }

  /** A way back from path[0] over facts that all have active memories. */
  ghost predicate WayBack(db: Db, path: seq<FactId>) {
    && Facts.OlderPath(db.graph, path)
    && (forall i | 0 < i < |path| :: Carried(db.store, path[i]))
  }

  ghost predicate Reaches(db: Db, from: FactId, to: FactId) {
    exists path :: WayBack(db, path) && |path| > 1 && path[0] == from && path[|path| - 1] == to
  }

  /** The memories a cascade from fact f takes along. */
  ghost predicate Linked(db: Db, f: FactId, m: MemoryId) {
    exists g :: Reaches(db, f, g) && Carries(db.store, m, g)
  }

  /** At most one memory projects a fact. */
  ghost predicate OneMemoryPerFact(store: Memories.Store) {
    forall m, k, f :: Projects(store, m, f) && Projects(store, k, f) ==> m == k
  }

  ghost predicate DbInv(db: Db) {
    && Facts.GraphInv(db.graph)
    && Memories.HistoryInv(db.store)
    && OneMemoryPerFact(db.store)
    && (forall m | m in db.store.memories && db.store.memories[m].fact.Some? ::
         db.store.memories[m].fact.value in db.graph.facts)
  }

  lemma ReachesNext(db: Db, from: FactId, mid: FactId, older: FactId, m: MemoryId)
    requires from == mid || Reaches(db, from, mid)
    requires older in db.graph.facts && db.graph.facts[older].supersededBy == Some(mid) && Carries(db.store, m, older)
    ensures Reaches(db, from, older)
  {
    var path := [from];
    if from != mid {
      path :| WayBack(db, path) && |path| > 1 && path[0] == from && path[|path| - 1] == mid;
    }
    assert Carried(db.store, older);
    assert WayBack(db, path + [older]);
  }

  /** The start of a walk is never among the memories it finds: supersession has no cycles. */
  lemma NeverTheStart(db: Db, start: MemoryId, f: FactId)
    requires DbInv(db) && start in db.store.memories && db.store.memories[start].fact == Some(f)
    ensures !Linked(db, f, start)
  {
    forall g | Reaches(db, f, g) ensures g != f {
      var path :| WayBack(db, path) && |path| > 1 && path[0] == f && path[|path| - 1] == g;
      Facts.PathsGoBack(db.graph, path);
    }
  }

  /** What soft_delete_memory buries: the memory first, then, if asked to, all linked memories once each. */
  ghost predicate CascadeTargets(db: Db, m: MemoryId, deleteLinked: bool, ids: seq<MemoryId>) {
    && m in db.store.memories && ids != [] && ids[0] == m && Ascending(ids[1..]) && Memories.Distinct(ids)
    && (forall k | k in ids :: k in db.store.memories && Memories.IsActive(db.store, k))
    && (forall k :: k in ids <==>
          k == m || (deleteLinked && db.store.memories[m].fact.Some? && Linked(db, db.store.memories[m].fact.value, k)))
  }

  // ---------------------------------------------------------------- the state of a walk

  /** The walk from fact f has met the memories `seen`; each projects a fact it could reach. */
  ghost predicate Walk(db: Db, f: FactId, seen: set<MemoryId>) {
    forall k | k in seen :: Memories.IsActive(db.store, k) && db.store.memories[k].fact.Some? &&
      Reaches(db, f, db.store.memories[k].fact.value)
  }

  /** One step back from fact mid finds no memory that was not met. */
  ghost predicate Expanded(db: Db, seen: set<MemoryId>, mid: FactId) {
    forall older, k | older in db.graph.facts && db.graph.facts[older].supersededBy == Some(mid) &&
      Carries(db.store, k, older) :: k in seen
  }

  /** Every fact met is expanded, or waits on the frontier. */
  ghost predicate ExpandedBut(db: Db, f: FactId, seen: set<MemoryId>, frontier: seq<FactId>) {
    && (f in frontier || Expanded(db, seen, f))
    && (forall k | k in seen && k in db.store.memories && db.store.memories[k].fact.Some? ::
          db.store.memories[k].fact.value in frontier || Expanded(db, seen, db.store.memories[k].fact.value))
  }

  lemma {:induction false} WalkFollowsPath(db: Db, f: FactId, seen: set<MemoryId>, path: seq<FactId>, k: MemoryId)
    requires ExpandedBut(db, f, seen, []) && WayBack(db, path) && path[0] == f
    requires |path| > 1 && Carries(db.store, k, path[|path| - 1])
    ensures k in seen
    decreases |path|
  {
    var front := path[..|path| - 1];
    var mid := front[|front| - 1];
    assert forall i | 0 <= i < |front| :: front[i] == path[i];
    if |front| > 1 {
      assert Carried(db.store, mid);
      var j :| Carries(db.store, j, mid);
      WalkFollowsPath(db, f, seen, front, j);
    }
    assert Expanded(db, seen, mid);
  }

  lemma StepKeepsExpanded(db: Db, f: FactId, seen: set<MemoryId>, frontier: seq<FactId>, seen': set<MemoryId>,
      frontier': seq<FactId>, current: FactId)
    requires ExpandedBut(db, f, seen, frontier) && seen <= seen' && Expanded(db, seen', current)
    requires forall x | x in frontier && x != current :: x in frontier'
    requires forall k | k in seen' - seen ::
      k in db.store.memories && db.store.memories[k].fact.Some? && db.store.memories[k].fact.value in frontier'
    ensures ExpandedBut(db, f, seen', frontier')
  {
    forall mid | Expanded(db, seen, mid) ensures Expanded(db, seen', mid) {}
  }

  /** When nothing waits any more, the walk has met exactly the linked memories. */
  lemma WalkIsComplete(db: Db, f: FactId, seen: set<MemoryId>)
    requires DbInv(db) && Walk(db, f, seen) && ExpandedBut(db, f, seen, [])
    ensures forall k :: k in seen <==> Linked(db, f, k)
  {
    forall k | k in seen ensures Linked(db, f, k) {
      assert Carries(db.store, k, db.store.memories[k].fact.value);
    }
    forall k | Linked(db, f, k) ensures k in seen {
      var g :| Reaches(db, f, g) && Carries(db.store, k, g);
      var path :| WayBack(db, path) && |path| > 1 && path[0] == f && path[|path| - 1] == g;
      WalkFollowsPath(db, f, seen, path, k);
    }
  }

  // ---------------------------------------------------------------- sorted()

  ghost predicate Ascending(s: seq<MemoryId>) {
    forall i, j | 0 <= i < j < |s| :: s[i] < s[j]
  }

  predicate IsLeast(least: MemoryId, ids: set<MemoryId>) {
    least in ids && forall k | k in ids :: least <= k
  }

  lemma {:induction false} LeastExists(ids: set<MemoryId>) returns (least: MemoryId)
    requires ids != {}
    ensures IsLeast(least, ids)
    decreases ids
  {
    var x :| x in ids;
    least := x;
    if ids != {x} {
      var y := LeastExists(ids - {x});
      least := if x <= y then x else y;
      assert forall k | k in ids :: k == x || k in ids - {x};
    }
  }

  lemma SomeLeast(ids: set<MemoryId>)
    ensures ids != {} ==> exists m :: IsLeast(m, ids)
  {
    if ids != {} {
      var least := LeastExists(ids);
    }
  }

  function Least(ids: set<MemoryId>): (least: MemoryId)
    requires ids != {}
    ensures IsLeast(least, ids)
  {
    SomeLeast(ids);
    var least :| least in ids && IsLeast(least, ids);
    least
  }

  function Sorted(ids: set<MemoryId>): (s: seq<MemoryId>)
    ensures Ascending(s) && (forall m :: m in s <==> m in ids)
  {
    if ids == {} then [] else [Least(ids)] + Sorted(ids - {Least(ids)})
  }

  /** The walk from fact f has met `seen`, and all it can go on from waits in the frontier. */
  ghost predicate Walking(db: Db, f: FactId, seen: set<MemoryId>, frontier: seq<FactId>) {
    && Walk(db, f, seen) && ExpandedBut(db, f, seen, frontier)
    && forall x | x in frontier :: x == f || Reaches(db, f, x)
  }

  // ---------------------------------------------------------------- the tables in place

  datatype Deletion = Deletion(deleted: bool, ids: seq<MemoryId>)

  datatype DropAnswer = NoSuchFact | ForeignKeyError | Dropped

  class Tables {
    var facts: map<FactId, Facts.Fact>
    var nextFact: FactId
    var memories: map<MemoryId, Memories.Memory>
    var nextMemory: MemoryId
    var history: seq<Memories.Entry>

    constructor ()
      ensures State() == Db(Facts.Graph(map[], 0), Memories.Store(map[], 0, []))
    {
      facts, nextFact, memories, nextMemory, history := map[], 0, map[], 0, [];
    }

    function State(): Db
      reads this
    {
      Db(Facts.Graph(facts, nextFact), Memories.Store(memories, nextMemory, history))
    }

    method AppendHistory(m: MemoryId, change: Memories.Change, version: nat, oldText: Option<string>,
        newText: Option<string>, metadata: Memories.Metadata)
      modifies this`history
      ensures history == old(history) + [Memories.Entry(m, change, version, oldText, newText, metadata)]
    {
      history := history + [Memories.Entry(m, change, version, oldText, newText, metadata)];
    }

    method CreateMemory(text: string, metadata: Memories.Metadata, fact: Option<FactId>) returns (id: Option<MemoryId>)
      modifies this`memories, this`nextMemory, this`history
      ensures match Memories.Created(old(State()).store, text, metadata, fact)
              case Ok(store) => id == Some(old(nextMemory)) && State() == old(State()).(store := store)
              case Error(_) => id == None && State() == old(State())
      ensures id.None? <==> forall c | c in text :: Text.IsSpace(c)
      ensures id.Some? ==> Memories.MemoryAdded(old(State()).store, State().store, text, metadata, fact)
    {
      Text.StripsToNothing(text);
      Memories.InsertedIs(State().store, text, metadata, fact);
      if Text.Strip(text) == "" {
        return None;
      }
      var clean := Memories.Cleaned(metadata);
      var m := nextMemory;
      memories := memories[m := Memories.Memory(text, clean, fact, 1, Memories.Active)];
      nextMemory := nextMemory + 1;
      AppendHistory(m, Memories.ADD, 1, None, Some(text), clean);
      id := Some(m);
    }

    method EnsureFactMemory(f: FactId, text: string, metadata: Memories.Metadata) returns (id: MemoryId)
      modifies this`memories, this`nextMemory, this`history
      ensures State() == old(State()).(store := EnsuredMemory(old(State()).store, f, text, metadata))
      ensures Projects(State().store, id, f)
      ensures MemoryEnsured(old(State()).store, State().store, f, text, metadata)
    {
      Memories.InsertedIs(State().store, text, metadata, Some(f));
      var clean := Memories.Cleaned(metadata);
      if exists m | m in memories :: memories[m].fact == Some(f) {
        id :| id in memories && memories[id].fact == Some(f);
        assert Projects(State().store, id, f);
        return;
      }
      assert !Projected(State().store, f);
      id := nextMemory;
      memories := memories[id := Memories.Memory(text, clean, Some(f), 1, Memories.Active)];
      nextMemory := nextMemory + 1;
      AppendHistory(id, Memories.ADD, 1, None, Some(text), clean);
    }

    method UpdateMemory(m: MemoryId, text: Option<string>, metadata: Option<Memories.Metadata>)
      returns (failure: Option<Memories.Failure>)
      modifies this`memories, this`history
      ensures match Memories.Updated(old(State()).store, m, text, metadata)
              case Ok(store) => failure == None && State() == old(State()).(store := store)
              case Error(e) => failure == Some(e) && State() == old(State())
      ensures failure == Some(Memories.UnknownMemory) <==>
        m !in old(memories) || old(memories)[m].state == Memories.Deleted
      ensures failure == None ==> Memories.MemoryUpdated(old(State()).store, State().store, m, text, metadata)
    {
      Memories.UpdatedIs(State().store, m, text, metadata);
      if m !in memories || memories[m].state == Memories.Deleted {
        return Some(Memories.UnknownMemory);
      }
      var current := memories[m];
      var newText := if text.None? then current.text else text.value;
      Text.StripsToNothing(newText);
      if Text.Strip(newText) == "" {
        return Some(Memories.InvalidText);
      }
      var newMetadata := Memories.Cleaned(current.metadata + if metadata.None? then map[] else metadata.value);
      var version := current.version + 1;
      memories := memories[m := current.(text := newText, metadata := newMetadata, version := version)];
      AppendHistory(m, Memories.UPDATE, version, Some(current.text), Some(newText), newMetadata);
      failure := None;
    }

    method CategorizeMemory(m: MemoryId, category: string) returns (failure: Option<Memories.Failure>)
      modifies this`memories, this`history
      ensures match Memories.Categorized(old(State()).store, m, category)
              case Ok(store) => failure == None && State() == old(State()).(store := store)
              case Error(e) => failure == Some(e) && State() == old(State())
      ensures failure == Some(Memories.InvalidCategory) <==> !(0 < |Text.Strip(category)| <= 200)
      ensures failure == None ==>
        Memories.MemoryCategorized(old(State()).store, State().store, m, Text.Strip(category))
    {
      Memories.CategorizedIs(State().store, m, category);
      if Text.Strip(category) == "" || |Text.Strip(category)| > 200 {
        return Some(Memories.InvalidCategory);
      }
      if m !in memories || memories[m].state == Memories.Deleted {
        return Some(Memories.UnknownMemory);
      }
      var current := memories[m];
      var metadata := Memories.Cleaned(current.metadata["category" := Text.Strip(category)]);
      var version := current.version + 1;
      memories := memories[m := current.(metadata := metadata, version := version)];
      AppendHistory(m, Memories.UPDATE, version, Some(current.text), Some(current.text), metadata);
      failure := None;
    }

    /** One fact taken off the frontier: its older facts with live memories join the walk. */
    method StepBack(ghost f: FactId, current: FactId, seen: set<MemoryId>, frontier: seq<FactId>)
      returns (seen': set<MemoryId>, frontier': seq<FactId>)
      requires OneMemoryPerFact(State().store) && Walk(State(), f, seen) &&
        (current == f || Reaches(State(), f, current))
      ensures Walk(State(), f, seen') && Expanded(State(), seen', current) && seen <= seen'
      ensures seen' == seen ==> frontier' == frontier
      ensures forall x | x in frontier :: x in frontier'
      ensures forall x | x in frontier' :: x in frontier || Reaches(State(), f, x)
      ensures forall k | k in seen' - seen :: memories[k].fact.value in frontier'
    {
      seen', frontier' := seen, frontier;
      ghost var db := State();
      var rows := set r | r in facts && facts[r].supersededBy == Some(current);
      ghost var all := rows;
      while rows != {}
        invariant rows <= all
        invariant Walk(db, f, seen') && seen <= seen'
        invariant seen' == seen ==> frontier' == frontier
        invariant forall x | x in frontier :: x in frontier'
        invariant forall x | x in frontier' :: x in frontier || Reaches(db, f, x)
        invariant forall k | k in seen' - seen :: db.store.memories[k].fact.value in frontier'
        invariant forall older, k | older in all - rows && Carries(db.store, k, older) :: k in seen'
        decreases rows
      {
        var older :| older in rows;
        rows := rows - {older};
        if exists k | k in memories :: Carries(State().store, k, older) {
          var linked :| linked in memories && Carries(State().store, linked, older);
          ReachesNext(db, f, current, older, linked);
          if linked !in seen' {
            seen' := seen' + {linked};
            frontier' := frontier' + [older];
          }
        }
      }
    }

    /** The memories of the facts that the memory's fact superseded, directly or through facts that still
        have live memories; in ascending order. */
    method LinkedMemoryIds(m: MemoryId) returns (ids: seq<MemoryId>)
      requires DbInv(State()) && m in memories
      ensures Ascending(ids) && m !in ids
      ensures memories[m].fact.None? ==> ids == []
      ensures memories[m].fact.Some? ==> forall k :: k in ids <==> Linked(State(), memories[m].fact.value, k)
      ensures forall k | k in ids :: Memories.IsActive(State().store, k)
    {
      if memories[m].fact.None? {
        return [];
      }
      var f := memories[m].fact.value;
      var seen := WalkBack(f);
      NeverTheStart(State(), m, f);
      ids := Sorted(seen);
    }

    /** The worklist of linked_memory_ids. */
    method WalkBack(f: FactId) returns (seen: set<MemoryId>)
      requires DbInv(State())
      ensures forall k :: k in seen <==> Linked(State(), f, k)
      ensures forall k | k in seen :: Memories.IsActive(State().store, k)
    {
      seen := {};
      var frontier := [f];
      while frontier != []
        invariant Walking(State(), f, seen, frontier)
        decreases memories.Keys - seen, |frontier|
      {
        seen, frontier := WalkOn(f, seen, frontier);
      }
      WalkIsComplete(State(), f, seen);
    }

    /** The last fact of the frontier is taken off and followed back. */
    method WalkOn(ghost f: FactId, seen: set<MemoryId>, frontier: seq<FactId>)
      returns (seen': set<MemoryId>, frontier': seq<FactId>)
      requires DbInv(State()) && frontier != [] && Walking(State(), f, seen, frontier)
      ensures Walking(State(), f, seen', frontier')
      ensures seen <= seen' <= memories.Keys && (seen' == seen ==> |frontier'| < |frontier|)
    {
      var current := frontier[|frontier| - 1];
      var rest := frontier[..|frontier| - 1];
      assert frontier == rest + [current];
      seen', frontier' := StepBack(f, current, seen, rest);
      StepKeepsExpanded(State(), f, seen, frontier, seen', frontier', current);
    }

    method Bury(targets: seq<MemoryId>)
      requires forall k | k in targets :: k in memories
      modifies this`memories, this`history
      ensures State() == old(State()).(store := Memories.BuriedAll(old(State()).store, targets))
    {
      ghost var before := State();
      for i := 0 to |targets|
        invariant forall k | k in targets[..i] :: k in before.store.memories
        invariant State() == before.(store := Memories.BuriedAll(before.store, targets[..i]))
      {
        var target := targets[i];
        assert target in targets && targets[..i + 1][..i] == targets[..i];
        var row := memories[target];
        var version := row.version + 1;
        memories := memories[target := row.(state := Memories.Deleted, version := version)];
        AppendHistory(target, Memories.DELETE, version, None, None, map[]);
      }
      assert targets[..|targets|] == targets;
    }

    method SoftDeleteMemory(m: MemoryId, deleteLinked: bool) returns (result: Option<Deletion>)
      requires deleteLinked ==> DbInv(State())
      modifies this`memories, this`history
      ensures result.None? <==> m !in old(memories)
      ensures result.Some? ==> (result.value.deleted <==> Memories.IsActive(old(State()).store, m))
      ensures result == None || !result.value.deleted ==> State() == old(State())
      ensures result.Some? && result.value.deleted ==>
                && CascadeTargets(old(State()), m, deleteLinked, result.value.ids)
                && State() == old(State()).(store := Memories.BuriedAll(old(State()).store, result.value.ids))
    {
      if m !in memories {
        return None;
      }
      if memories[m].state == Memories.Deleted {
        return Some(Deletion(false, []));
      }
      var targets := [m];
      if deleteLinked {
        var linked := LinkedMemoryIds(m);
        targets := targets + linked;
        assert targets[1..] == linked;
      }
      Bury(targets);
      result := Some(Deletion(true, targets));
    }

    /** Closes the rows in favour of a newer fact, one after the other. */
    method Supersede(rows: set<FactId>, newer: FactId, now: Time)
      requires rows <= facts.Keys
      modifies this`facts
      ensures State().graph == Facts.Closed(old(State()).graph, rows, newer, now)
    {
      var left := rows;
      while left != {}
        invariant left <= rows && rows <= facts.Keys
        invariant State().graph == Facts.Closed(old(State()).graph, rows - left, newer, now)
      {
        var row :| row in left;
        facts := facts[row := facts[row].(validTo := Some(now), supersededBy := Some(newer))];
        left := left - {row};
      }
      assert rows - {} == rows;
    }

    method AddFact(topic: Facts.Topic, obj: string, supersede: bool, metadata: Memories.Metadata, now: Time)
      returns (fact: FactId)
      requires DbInv(State())
      modifies this
      ensures State() == FactAdded(old(State()), topic, obj, supersede, metadata, now)
      ensures fact == Facts.Target(old(State()).graph, topic, obj)
      ensures FactIsIn(old(State()), State(), topic, obj, supersede, metadata, now, fact)
    {
      FactAddedIs(State(), topic, obj, supersede, metadata, now);
      fact := AddTriple(topic, obj, supersede, now);
      var _ := EnsureFactMemory(fact, FactText(topic, obj), metadata);
    }

    /** The fact row of add_fact. */
    method AddTriple(topic: Facts.Topic, obj: string, supersede: bool, now: Time) returns (fact: FactId)
      requires Facts.GraphInv(State().graph)
      modifies this`facts, this`nextFact
      ensures State().graph == Facts.Added(old(State()).graph, topic, obj, supersede, now)
      ensures fact == Facts.Target(old(State()).graph, topic, obj)
    {
      var graph := State().graph;
      if exists f | f in facts :: Facts.States(graph, f, topic, obj) {
        var same :| same in facts && Facts.States(graph, same, topic, obj);
        if facts[same].validTo.Some? {
          facts := facts[same := facts[same].(validTo := None, supersededBy := None)];
        } else {
          assert Facts.EdgeInv(graph, same);
        }
        return same;
      }
      assert !Facts.Known(graph, topic, obj);
      var current := set f | f in facts && facts[f].topic == topic && facts[f].validTo.None?;
      fact := nextFact;
      facts := facts[fact := Facts.Fact(topic, obj, None, None, now)];
      nextFact := nextFact + 1;
      if supersede {
        assert current == Facts.LiveOn(graph, topic);
        Supersede(current, fact, now);
      }
    }

    method DeleteFact(f: FactId) returns (answer: DropAnswer)
      modifies this`facts, this`memories
      ensures State() == FactDeleted(old(State()), f)
      ensures answer == NoSuchFact <==> f !in old(facts)
      ensures answer == ForeignKeyError <==> f in old(facts) && Facts.Referenced(old(State()).graph, f)
      ensures answer == ForeignKeyError <==>
        f in old(facts) && exists k | k in old(facts) :: old(facts)[k].supersededBy == Some(f)
      ensures answer != Dropped ==> State() == old(State())
      ensures answer == Dropped ==>
        && facts == old(facts) - {f} && memories.Keys == old(memories).Keys
        && forall m | m in memories :: memories[m] ==
             if old(memories)[m].fact == Some(f) then old(memories)[m].(fact := None) else old(memories)[m]
    {
      if f !in facts {
        return NoSuchFact;
      }
      if exists k | k in facts :: facts[k].supersededBy == Some(f) {
        return ForeignKeyError;
      }
      facts := facts - {f};
      memories := map m | m in memories ::
        if memories[m].fact == Some(f) then memories[m].(fact := None) else memories[m];
      answer := Dropped;
    }
  }

  // ---------------------------------------------------------------- runs

  datatype Event =
    | Create(text: string, metadata: Memories.Metadata)
    | Update(memory: MemoryId, newText: Option<string>, changes: Option<Memories.Metadata>)
    | Categorize(memory: MemoryId, category: string)
    | SoftDelete(memory: MemoryId, deleteLinked: bool, ids: seq<MemoryId>)
    | AssertFact(topic: Facts.Topic, obj: string, supersede: bool, metadata: Memories.Metadata, now: Time)
    | DropFact(fact: FactId)

  ghost predicate Enabled(db: Db, e: Event) {
    e.SoftDelete? && Memories.IsActive(db.store, e.memory) ==> CascadeTargets(db, e.memory, e.deleteLinked, e.ids)
  }

  function Settled(db: Db, result: Memories.Result): Db {
    if result.Ok? then db.(store := result.store) else db
  }

  ghost function Apply(db: Db, e: Event): Db
    requires DbInv(db) && Enabled(db, e)
  {
    match e
    case Create(text, metadata) => Settled(db, Memories.Created(db.store, text, metadata, None))
    case Update(m, text, metadata) => Settled(db, Memories.Updated(db.store, m, text, metadata))
    case Categorize(m, category) => Settled(db, Memories.Categorized(db.store, m, category))
    case SoftDelete(m, _, ids) =>
      if Memories.IsActive(db.store, m) then db.(store := Memories.BuriedAll(db.store, ids)) else db
    case AssertFact(topic, obj, supersede, metadata, now) => FactAdded(db, topic, obj, supersede, metadata, now)
    case DropFact(f) => FactDeleted(db, f)
  }

  /** Same rows, same fact links. */
  lemma LinksKept(db: Db, store: Memories.Store)
    requires DbInv(db) && Memories.HistoryInv(store) && store.memories.Keys == db.store.memories.Keys
    requires forall m | m in store.memories :: store.memories[m].fact == db.store.memories[m].fact
    ensures DbInv(db.(store := store))
  {
    forall m, k, f | Projects(store, m, f) && Projects(store, k, f) ensures m == k {
      assert Projects(db.store, m, f) && Projects(db.store, k, f);
    }
  }

  lemma RewriteKeepsDbInv(db: Db, m: MemoryId, text: string, metadata: Memories.Metadata)
    requires DbInv(db) && Memories.IsActive(db.store, m) && metadata.Keys !! Memories.IDENTITY_KEYS
    ensures DbInv(db.(store := Memories.Rewritten(db.store, m, text, metadata)))
  {
    Memories.RewriteKeepsInv(db.store, m, text, metadata);
    LinksKept(db, Memories.Rewritten(db.store, m, text, metadata));
  }

  lemma InsertKeepsDbInv(db: Db, text: string, metadata: Memories.Metadata, fact: Option<FactId>)
    requires DbInv(db) && (fact.Some? ==> fact.value in db.graph.facts && !Projected(db.store, fact.value))
    ensures DbInv(db.(store := Memories.Inserted(db.store, text, metadata, fact)))
  {
    Memories.InsertKeepsInv(db.store, text, metadata, fact);
    var t := Memories.Inserted(db.store, text, metadata, fact);
    assert Memories.RowInv(db.store, db.store.nextMemory);
    forall m, k, f | Projects(t, m, f) && Projects(t, k, f) ensures m == k {
      assert m != db.store.nextMemory ==> Projects(db.store, m, f);
      assert k != db.store.nextMemory ==> Projects(db.store, k, f);
    }
  }

  lemma AssertKeepsDbInv(db: Db, topic: Facts.Topic, obj: string, supersede: bool, metadata: Memories.Metadata,
      now: Time)
    requires DbInv(db)
    ensures DbInv(FactAdded(db, topic, obj, supersede, metadata, now))
  {
    Facts.AddKeepsInv(db.graph, topic, obj, supersede, now);
    Facts.LiveAfterAdd(db.graph, topic, obj, supersede, now);
    var graph := Facts.Added(db.graph, topic, obj, supersede, now);
    assert db.graph.facts.Keys <= graph.facts.Keys;
    var f := Facts.Target(db.graph, topic, obj);
    assert Facts.States(graph, f, topic, obj);
    if !Projected(db.store, f) {
      InsertKeepsDbInv(db.(graph := graph), FactText(topic, obj), metadata, Some(f));
    }
  }

  lemma DropKeepsDbInv(db: Db, f: FactId)
    requires DbInv(db)
    ensures DbInv(FactDeleted(db, f))
  {
    Facts.RemoveKeepsInv(db.graph, f);
    var t := FactDeleted(db, f);
    forall m: MemoryId ensures Memories.RowInv(t.store, m) {
      assert Memories.RowInv(db.store, m);
    }
    forall m, k, g | Projects(t.store, m, g) && Projects(t.store, k, g) ensures m == k {
      assert Projects(db.store, m, g) && Projects(db.store, k, g);
    }
  }

  lemma {:induction false} BurialKeepsLinks(store: Memories.Store, targets: seq<MemoryId>)
    requires forall m | m in targets :: m in store.memories
    ensures forall m | m in store.memories ::
      Memories.BuriedAll(store, targets).memories[m].fact ==
      store.memories[m].fact
    decreases |targets|
  {
    if targets != [] {
      assert targets[|targets| - 1] in targets;
      BurialKeepsLinks(store, targets[..|targets| - 1]);
    }
  }

  lemma StepKeepsDbInv(db: Db, e: Event)
    requires DbInv(db) && Enabled(db, e)
    ensures DbInv(Apply(db, e))
  {
    match e {
      case Create(text, metadata) => InsertKeepsDbInv(db, text, metadata, None);
      case Update(m, text, metadata) =>
        if Memories.IsActive(db.store, m) {
          var row := db.store.memories[m];
          RewriteKeepsDbInv(db, m, if text.None? then row.text else text.value,
                            Memories.Cleaned(row.metadata + if metadata.None? then map[] else metadata.value));
        }
      case Categorize(m, category) =>
        if Memories.IsActive(db.store, m) {
          RewriteKeepsDbInv(db, m, db.store.memories[m].text,
                            Memories.Cleaned(db.store.memories[m].metadata["category" := Text.Strip(category)]));
        }
      case SoftDelete(m, _, ids) =>
        if Memories.IsActive(db.store, m) {
          Memories.BurialsExact(db.store, ids);
          BurialKeepsLinks(db.store, ids);
          LinksKept(db, Memories.BuriedAll(db.store, ids));
        }
      case AssertFact(topic, obj, supersede, metadata, now) =>
        AssertKeepsDbInv(db, topic, obj, supersede, metadata, now);
      case DropFact(f) => DropKeepsDbInv(db, f);
    }
  }

  const Empty := Db(Facts.Graph(map[], 0), Memories.Store(map[], 0, []))

  ghost function Exec(run: seq<Event>): (r: Option<Db>)
    ensures r.Some? ==> DbInv(r.value)
    decreases |run|
  {
    if run == [] then Some(Empty) else
    var before, e := Exec(run[..|run| - 1]), run[|run| - 1];
    if before.None? || !Enabled(before.value, e) then None else
    StepKeepsDbInv(before.value, e);
    Some(Apply(before.value, e))
  }

  /** After any run, each memory's history alone tells its row. */
  lemma HistoryIsTheMemory(run: seq<Event>, m: MemoryId)
    requires Exec(run).Some? && m in Exec(run).value.store.memories
    ensures Memories.TellsTheRow(Memories.HistoryOf(Exec(run).value.store.history, m),
      Exec(run).value.store.memories[m])
  {
    var store := Exec(run).value.store;
    assert Memories.RowInv(store, m);
    Memories.FaithfulTells(Memories.HistoryOf(store.history, m), store.memories[m]);
  }

  /** The cascade, from any reached state: it buries the memory and exactly the linked ones, never lists a
      memory twice, and gives each of them one version and one DELETE entry; nothing else changes. */
  lemma CascadeExact(run: seq<Event>, m: MemoryId, deleteLinked: bool, ids: seq<MemoryId>)
    requires Exec(run).Some? && Memories.IsActive(Exec(run).value.store, m) &&
      CascadeTargets(Exec(run).value, m, deleteLinked, ids)
    ensures Memories.ExactlyBuried(Exec(run).value.store, Memories.BuriedAll(Exec(run).value.store, ids), ids)
    ensures forall f | Exec(run).value.store.memories[m].fact == Some(f) :: !Linked(Exec(run).value, f, m)
  {
    var db := Exec(run).value;
    Memories.BurialsExact(db.store, ids);
    forall f | db.store.memories[m].fact == Some(f) ensures !Linked(db, f, m) {
      NeverTheStart(db, m, f);
    }
  }
}
