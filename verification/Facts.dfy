/** The temporal fact graph: a fact with a new object closes the live facts of its subject and predicate,
    and points from them to itself. */
module Facts {
  import opened Common

  type FactId = nat

  datatype Scope = Scope(tag: string, org: Option<nat>, project: Option<nat>)

  /** What add_fact is about: facts of one topic supersede each other. */
  datatype Topic = Topic(scope: Scope, subj: string, pred: string)

  datatype Fact = Fact(topic: Topic, obj: string, validTo: Option<Time>, supersededBy: Option<FactId>, createdAt: Time)

  /** Ids come from a counter, so a larger id is a later insertion. */
  datatype Graph = Graph(facts: map<FactId, Fact>, next: FactId)

  predicate Live(g: Graph, f: FactId) {
    f in g.facts && g.facts[f].validTo.None?
  }

  function LiveOn(g: Graph, topic: Topic): set<FactId> {
    set f | f in g.facts && Live(g, f) && g.facts[f].topic == topic
  }

  predicate States(g: Graph, f: FactId, topic: Topic, obj: string) {
    f in g.facts && g.facts[f].topic == topic && g.facts[f].obj == obj
  }

  predicate Known(g: Graph, topic: Topic, obj: string) {
    exists f | f in g.facts :: States(g, f, topic, obj)
  }

  // ---------------------------------------------------------------- statements

  function Revived(g: Graph, f: FactId): Graph
    requires f in g.facts
  {
    g.(facts := g.facts[f := g.facts[f].(validTo := None, supersededBy := None)])
  }

  function InsertedFact(g: Graph, topic: Topic, obj: string, now: Time): Graph {
    Graph(g.facts[g.next := Fact(topic, obj, None, None, now)], g.next + 1)
  }

  function Closed(g: Graph, olds: set<FactId>, newer: FactId, now: Time): Graph {
    g.(facts := map f | f in g.facts ::
         if f in olds then g.facts[f].(validTo := Some(now), supersededBy := Some(newer)) else g.facts[f])
  }

  function AddedNew(g: Graph, topic: Topic, obj: string, supersede: bool, now: Time): Graph {
    var inserted := InsertedFact(g, topic, obj, now);
    if supersede then Closed(inserted, LiveOn(g, topic), g.next, now) else inserted
  }

  /** The row add_fact finds for the same triple. */
  function Same(g: Graph, topic: Topic, obj: string): (f: FactId)
    requires Known(g, topic, obj) && Unique(g)
    ensures States(g, f, topic, obj)
  {
    var f :| f in g.facts && States(g, f, topic, obj);
    f
  }

  function Added(g: Graph, topic: Topic, obj: string, supersede: bool, now: Time): Graph
    requires Unique(g)
  {
    if Known(g, topic, obj) then Revived(g, Same(g, topic, obj)) else AddedNew(g, topic, obj, supersede, now)
  }

  /** The fact add_fact answers with. */
  function Target(g: Graph, topic: Topic, obj: string): FactId
    requires Unique(g)
  {
    if Known(g, topic, obj) then Same(g, topic, obj) else g.next
  }

  predicate Referenced(g: Graph, f: FactId) {
    exists k | k in g.facts :: g.facts[k].supersededBy == Some(f)
  }

  /** The foreign key refuses to delete a fact that another one names as its superseder. */
  function Removed(g: Graph, f: FactId): Graph {
    if f in g.facts && !Referenced(g, f) then g.(facts := g.facts - {f}) else g
  }

  // ---------------------------------------------------------------- the invariant

  ghost predicate Unique(g: Graph) {
    forall f, k | f in g.facts && k in g.facts
      && g.facts[f].topic == g.facts[k].topic && g.facts[f].obj == g.facts[k].obj :: f == k
  }

  /** The edge out of f, if any, goes to a later fact of the same topic; f is closed iff it has one. */
  ghost predicate EdgeInv(g: Graph, f: FactId)
    requires f in g.facts
  {
    var newer := g.facts[f].supersededBy;
    && (g.facts[f].validTo.Some? <==> newer.Some?)
    && (newer.Some? ==> newer.value in g.facts && f < newer.value && g.facts[newer.value].topic == g.facts[f].topic)
  }

  ghost predicate GraphInv(g: Graph) {
    && Unique(g)
    && (forall f | f in g.facts :: f < g.next && EdgeInv(g, f))
  }

  lemma AddKeepsInv(g: Graph, topic: Topic, obj: string, supersede: bool, now: Time)
    requires GraphInv(g)
    ensures GraphInv(Added(g, topic, obj, supersede, now))
  {
    AddKeepsEdges(g, topic, obj, supersede, now);
    AddKeepsUnique(g, topic, obj, supersede, now);
  }

  lemma AddKeepsEdges(g: Graph, topic: Topic, obj: string, supersede: bool, now: Time)
    requires GraphInv(g)
    ensures var r := Added(g, topic, obj, supersede, now); forall f | f in r.facts :: f < r.next && EdgeInv(r, f)
  {
    var r := Added(g, topic, obj, supersede, now);
    forall f | f in r.facts ensures f < r.next && EdgeInv(r, f) {
      assert f in g.facts ==> EdgeInv(g, f);
    }
  }

  lemma AddKeepsUnique(g: Graph, topic: Topic, obj: string, supersede: bool, now: Time)
    requires GraphInv(g)
    ensures Unique(Added(g, topic, obj, supersede, now))
  {
    var r := Added(g, topic, obj, supersede, now);
    forall f, k | f in r.facts && k in r.facts && r.facts[f].topic == r.facts[k].topic &&
      r.facts[f].obj == r.facts[k].obj ensures f == k
    {
      assert f in g.facts ==> States(g, f, r.facts[f].topic, r.facts[f].obj);
      assert k in g.facts ==> States(g, k, r.facts[f].topic, r.facts[f].obj);
    }
  }

  lemma RemoveKeepsInv(g: Graph, f: FactId)
    requires GraphInv(g)
    ensures GraphInv(Removed(g, f))
  {
    var r := Removed(g, f);
    forall k | k in r.facts ensures k < r.next && EdgeInv(r, k) {
      assert EdgeInv(g, k);
    }
  }

  // ---------------------------------------------------------------- what add_fact does to a topic

  /** The live facts of the topic after add_fact, in all cases. */
  lemma LiveAfterAdd(g: Graph, topic: Topic, obj: string, supersede: bool, now: Time)
    requires GraphInv(g)
    ensures var r := Added(g, topic, obj, supersede, now);
            && LiveOn(r, topic) == (if supersede && !Known(g, topic, obj) then {} else LiveOn(g, topic)) +
                 {Target(g, topic, obj)}
            && (forall other | other != topic :: LiveOn(r, other) == LiveOn(g, other))
            && States(r, Target(g, topic, obj), topic, obj)
  {
    var r := Added(g, topic, obj, supersede, now);
    var expectedOnTopic := (if supersede && !Known(g, topic, obj) then {} else LiveOn(g, topic)) +
      {Target(g, topic, obj)};
    forall t ensures LiveOn(r, t) == if t != topic then LiveOn(g, t) else expectedOnTopic {
      var expected := if t != topic then LiveOn(g, t) else expectedOnTopic;
      forall f ensures f in LiveOn(r, t) <==> f in expected {
        if f in r.facts && f in g.facts { assert r.facts[f].topic == g.facts[f].topic; }
      }
    }
  }

  /** With superseding on, the asserted fact ends up the only live one of its topic exactly when its object
      is new, or no other fact of the topic was live: an old fact that is asserted again comes back to life
      beside the live one. */
  lemma SoleLiveIff(g: Graph, topic: Topic, obj: string, now: Time)
    requires GraphInv(g)
    ensures LiveOn(Added(g, topic, obj, true, now), topic) == {Target(g, topic, obj)} <==>
            !Known(g, topic, obj) || LiveOn(g, topic) <= {Same(g, topic, obj)}
  {
    LiveAfterAdd(g, topic, obj, true, now);
    var added, t := LiveOn(Added(g, topic, obj, true, now), topic), Target(g, topic, obj);
    if Known(g, topic, obj) {
      assert added == LiveOn(g, topic) + {t};
      if added == {t} {
        assert forall f | f in LiveOn(g, topic) :: f in added;
      }
    }
  }

  /** The failing case is real: Paris, then Rome, then Paris again leaves both alive. */
  lemma RevivalLeavesTwo(topic: Topic, t1: Time, t2: Time, t3: Time)
    ensures var g1 := Added(Graph(map[], 0), topic, "Paris", true, t1);
            GraphInv(g1) &&
            var g2 := Added(g1, topic, "Rome", true, t2);
            GraphInv(g2) && LiveOn(g2, topic) == {1} &&
            LiveOn(Added(g2, topic, "Paris", true, t3), topic) == {0, 1}
  {
    var g0 := Graph(map[], 0);
    AddKeepsInv(g0, topic, "Paris", true, t1);
    LiveAfterAdd(g0, topic, "Paris", true, t1);
    var g1 := Added(g0, topic, "Paris", true, t1);
    assert g1.next == 1 && States(g1, 0, topic, "Paris") && g1.facts.Keys == {0};
    AddKeepsInv(g1, topic, "Rome", true, t2);
    LiveAfterAdd(g1, topic, "Rome", true, t2);
    var g2 := Added(g1, topic, "Rome", true, t2);
    assert States(g2, 0, topic, "Paris");
    LiveAfterAdd(g2, topic, "Paris", true, t3);
  }

  // ---------------------------------------------------------------- runs

  datatype Event =
    | Add(topic: Topic, obj: string, supersede: bool, now: Time)
    | Delete(fact: FactId)

  ghost function After(run: seq<Event>): (g: Graph)
    ensures GraphInv(g)
    decreases |run|
  {
    if run == [] then Graph(map[], 0) else
    var g, e := After(run[..|run| - 1]), run[|run| - 1];
    match e
    case Add(topic, obj, supersede, now) =>
      AddKeepsInv(g, topic, obj, supersede, now);
      Added(g, topic, obj, supersede, now)
    case Delete(f) => RemoveKeepsInv(g, f); Removed(g, f)
  }

  /** path[i + 1] is superseded by path[i]. */
  ghost predicate OlderPath(g: Graph, path: seq<FactId>) {
    && path != []
    && (forall i | 0 < i < |path| :: path[i] in g.facts && g.facts[path[i]].supersededBy == Some(path[i - 1]))
  }

  /** Following supersession backwards only ever reaches earlier facts, so there is no cycle. */
  lemma {:induction false} PathsGoBack(g: Graph, path: seq<FactId>)
    requires GraphInv(g) && OlderPath(g, path)
    ensures |path| > 1 ==>
      path[|path| - 1] < path[0] && path[|path| - 1] in g.facts &&
      (path[0] in g.facts ==> g.facts[path[|path| - 1]].topic == g.facts[path[0]].topic)
  {
    if |path| > 1 {
      var front, last := path[..|path| - 1], path[|path| - 1];
      assert forall i | 0 <= i < |front| :: front[i] == path[i];
      PathsGoBack(g, front);
      assert EdgeInv(g, last);
    }
  }

  /** In every state add_fact and delete_fact reach: edges go to later facts of the same topic, a fact is
      closed iff it is superseded, a triple has one row, and no chain of supersessions comes back. */
  lemma SupersessionGraph(run: seq<Event>)
    ensures var g := After(run);
            && (forall f, k | f in g.facts && k in g.facts && g.facts[f].topic == g.facts[k].topic &&
                 g.facts[f].obj == g.facts[k].obj :: f == k)
            && (forall f | f in g.facts :: g.facts[f].validTo.Some? <==> g.facts[f].supersededBy.Some?)
            && (forall f | f in g.facts && g.facts[f].supersededBy.Some? ::
                  var newer := g.facts[f].supersededBy.value;
                    newer in g.facts && f < newer && g.facts[newer].topic == g.facts[f].topic)
            && (forall path | OlderPath(g, path) && |path| > 1 :: path[|path| - 1] != path[0])
  {
    var g := After(run);
    forall f | f in g.facts ensures EdgeInv(g, f) {}
    forall path | OlderPath(g, path) && |path| > 1 ensures path[|path| - 1] != path[0] {
      PathsGoBack(g, path);
    }
  }
}
