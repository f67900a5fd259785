/** Reciprocal rank fusion: a vector leg and a keyword leg each give a candidate a term that falls with its
    rank, and the candidates are ordered by the sum. Similarities and overlaps are parameters. */
module Fusion {
  import opened Common

  datatype Key = Chunk(id: nat) | Memory(id: nat)

  datatype Scored = Scored(key: Key, score: real)

  const RRF_K := 60
  const VECTOR_WEIGHT := 0.6
  const KEYWORD_WEIGHT := 0.4

  // ---------------------------------------------------------------- terms

  function Share(weight: real, rank: nat): real {
    weight / (RRF_K + rank) as real
  }

  lemma SmallerFactor(x: real, b: real, y: real, a: real)
    requires x * b == y * a && 0.0 < a < b && x * b > 0.0
    ensures 0.0 < x < y
  {
    assert (y - x) * a == x * (b - a);
    assert x > 0.0;
    assert (y - x) * a > 0.0;
  }

  lemma QuotientFalls(w: real, a: real, b: real)
    requires w > 0.0 && 0.0 < a < b
    ensures 0.0 < w / b < w / a
  {
    assert w / b * b == w && w / a * a == w;
    SmallerFactor(w / b, b, w / a, a);
  }

  /** Shares are positive and fall with the rank. */
  lemma ShareFalls(weight: real, better: nat, worse: nat)
    requires weight > 0.0 && better < worse
    ensures 0.0 < Share(weight, worse) < Share(weight, better)
  {
    QuotientFalls(weight, (RRF_K + better) as real, (RRF_K + worse) as real);
  }

  ghost predicate Distinct<T>(s: seq<T>) {
    forall i, j | 0 <= i < j < |s| :: s[i] != s[j]
  }

  function IndexOf(leg: seq<Key>, key: Key): (i: nat)
    requires key in leg
    ensures i < |leg| && leg[i] == key
  {
    if leg[0] == key then 0 else 1 + IndexOf(leg[1..], key)
  }

  /** What a leg adds to the score of a key: its share by its rank in the leg, counted from one. */
  function Term(weight: real, leg: seq<Key>, key: Key): real {
    if key in leg then Share(weight, IndexOf(leg, key) + 1) else 0.0
  }

  lemma IndexIn(leg: seq<Key>, i: nat)
    requires Distinct(leg) && i < |leg|
    ensures IndexOf(leg, leg[i]) == i
  {
    assert leg[IndexOf(leg, leg[i])] == leg[i];
  }

  lemma TermBounds(weight: real, leg: seq<Key>, key: Key)
    requires weight > 0.0
    ensures 0.0 <= Term(weight, leg, key) <= Share(weight, 1) && (key in leg ==> Term(weight, leg, key) > 0.0)
  {
    ShareFalls(weight, 0, 1);
    if key in leg && IndexOf(leg, key) > 0 {
      ShareFalls(weight, 1, IndexOf(leg, key) + 1);
    }
  }

  function Get(scores: map<Key, real>, key: Key): real {
    if key in scores then scores[key] else 0.0
  }

  /** The first n keys of a leg have put their shares on the scores, if they are candidates. */
  ghost predicate Added(scores: map<Key, real>, sums: map<Key, real>, leg: seq<Key>, n: nat, weight: real,
      candidates: set<Key>)
    requires n <= |leg|
  {
    && (forall k :: k in sums <==> k in scores || (k in leg[..n] && k in candidates))
    && (forall k | k in sums ::
          sums[k] == Get(scores, k) + if k in leg[..n] && k in candidates then Term(weight, leg, k) else 0.0)
  }

  lemma AddOne(scores: map<Key, real>, sums: map<Key, real>, leg: seq<Key>, n: nat, weight: real, candidates: set<Key>)
    requires n < |leg| && Distinct(leg) && Added(scores, sums, leg, n, weight, candidates)
    ensures var next := if leg[n] in candidates then sums[leg[n] := Get(sums, leg[n]) + Share(weight, n + 1)] else sums;
      Added(scores, next, leg, n + 1, weight, candidates)
  {
    IndexIn(leg, n);
    assert leg[..n + 1] == leg[..n] + [leg[n]] && leg[n] !in leg[..n];
    assert leg[n] in leg && Term(weight, leg, leg[n]) == Share(weight, n + 1);
  }

  /** Adds a leg's shares to the scores of the candidates in it. */
  method AddLeg(scores: map<Key, real>, leg: seq<Key>, weight: real, candidates: set<Key>)
    returns (sums: map<Key, real>)
    requires Distinct(leg)
    ensures Added(scores, sums, leg, |leg|, weight, candidates)
  {
    sums := scores;
    for n := 0 to |leg|
      invariant Added(scores, sums, leg, n, weight, candidates)
    {
      AddOne(scores, sums, leg, n, weight, candidates);
      if leg[n] in candidates {
        sums := sums[leg[n] := Get(sums, leg[n]) + Share(weight, n + 1)];
      }
    }
  }

  // ---------------------------------------------------------------- sorting

  ghost predicate Descending(items: seq<Scored>) {
    forall i, j | 0 <= i < j < |items| :: items[i].score >= items[j].score
  }

  ghost predicate OncePerKey(items: seq<Scored>) {
    forall i, j | 0 <= i < j < |items| :: items[i].key != items[j].key
  }

  function Keys(items: seq<Scored>): seq<Key> {
    seq(|items|, i requires 0 <= i < |items| => items[i].key)
  }

  function Insert(items: seq<Scored>, x: Scored): (r: seq<Scored>)
    ensures |r| == |items| + 1 && forall y :: y in r <==> y in items || y == x
  {
    if items == [] || items[0].score < x.score then [x] + items
    else
      assert items == [items[0]] + items[1..];
      [items[0]] + Insert(items[1..], x)
  }

  /** Best first; equal scores stay in their order. */
  function Sorted(items: seq<Scored>): (r: seq<Scored>)
    ensures |r| == |items| && forall y :: y in r <==> y in items
  {
    if items == [] then []
    else
      assert items == items[..|items| - 1] + [items[|items| - 1]];
      Insert(Sorted(items[..|items| - 1]), items[|items| - 1])
  }

  lemma {:induction false} InsertSorts(items: seq<Scored>, x: Scored)
    requires Descending(items)
    ensures Descending(Insert(items, x))
  {
    if items != [] && items[0].score >= x.score {
      var rest := Insert(items[1..], x);
      InsertSorts(items[1..], x);
      assert forall y | y in rest :: items[0].score >= y.score;
    }
  }

  lemma {:induction false} InsertOnce(items: seq<Scored>, x: Scored)
    requires OncePerKey(items) && forall y | y in items :: y.key != x.key
    ensures OncePerKey(Insert(items, x))
  {
    if items != [] && items[0].score >= x.score {
      var rest := Insert(items[1..], x);
      assert items[0] in items && forall y | y in items[1..] :: y in items;
      InsertOnce(items[1..], x);
      assert forall y | y in rest :: y.key != items[0].key;
    }
  }

  lemma {:induction false} SortedSorts(items: seq<Scored>)
    ensures Descending(Sorted(items))
  {
    if items != [] {
      SortedSorts(items[..|items| - 1]);
      InsertSorts(Sorted(items[..|items| - 1]), items[|items| - 1]);
    }
  }

  lemma {:induction false} SortedOnce(items: seq<Scored>)
    requires OncePerKey(items)
    ensures OncePerKey(Sorted(items))
  {
    if items != [] {
      var front, last := items[..|items| - 1], items[|items| - 1];
      SortedOnce(front);
      assert forall y | y in front :: y.key != last.key;
      InsertOnce(Sorted(front), last);
    }
  }

  lemma KeysOnce(items: seq<Scored>)
    requires OncePerKey(items)
    ensures Distinct(Keys(items))
  {}

  lemma InKeys(items: seq<Scored>, key: Key)
    ensures key in Keys(items) <==> exists y | y in items :: y.key == key
  {
    if key in Keys(items) {
      var i :| 0 <= i < |items| && Keys(items)[i] == key;
      assert items[i] in items;
    }
    if y :| y in items && y.key == key {
      var i :| 0 <= i < |items| && items[i] == y;
      assert Keys(items)[i] == key;
    }
  }

  // ---------------------------------------------------------------- the legs

  datatype StoreHit = StoreHit(chunk: nat, score: real, text: string, matches: bool)

  /** A live fact's memory, its overlap with the query, and its similarity if it has an embedding. */
  datatype Fact = Fact(memory: nat, overlap: real, similarity: Option<real>)

  /** What the tables, the index and the providers answer for one query. `store` is None without a vector
      store, or when it fails. */
  datatype Inputs = Inputs(
    texts: map<Key, string>,
    wantChunks: bool,
    store: Option<seq<StoreHit>>,
    similarity: Key -> real,
    facts: seq<Fact>,
    keywordHits: seq<nat>,
    keywordLimit: nat)

  /** One memory per fact, every one a candidate; chunks only where they are wanted; each hit once. */
  ghost predicate Consistent(q: Inputs) {
    && (forall i, j | 0 <= i < j < |q.facts| :: q.facts[i].memory != q.facts[j].memory)
    && (forall f | f in q.facts :: Memory(f.memory) in q.texts)
    && (q.store.Some? ==> forall i, j | 0 <= i < j < |q.store.value| ::
         q.store.value[i].chunk != q.store.value[j].chunk)
    && Distinct(q.keywordHits)
    && (!q.wantChunks ==> forall k | k in q.texts :: k.Memory?)
  }

  ghost predicate FoundInStore(q: Inputs, hits: seq<StoreHit>, x: Scored) {
    exists i | 0 <= i < |hits| :: hits[i].matches && x == Scored(Chunk(hits[i].chunk), hits[i].score) &&
      x.key in q.texts
  }

  ghost predicate IsStoreLeg(q: Inputs, leg: seq<Scored>) {
    && Descending(leg) && OncePerKey(leg)
    && forall x :: x in leg <==> q.wantChunks && q.store.Some? && FoundInStore(q, q.store.value, x)
  }

  /** Hit i of the store brings its own text for candidate k. */
  predicate Overrides(q: Inputs, k: Key, i: nat) {
    && q.wantChunks && q.store.Some? && i < |q.store.value|
    && q.store.value[i].matches && q.store.value[i].text != "" && k == Chunk(q.store.value[i].chunk)
  }

  ghost predicate NotOverridden(q: Inputs, k: Key, n: nat) {
    forall i: nat | i < n :: !Overrides(q, k, i)
  }

  /** Candidates are shown with the text that one of the first n hits brings, or else with their own. */
  ghost predicate Shows(q: Inputs, shown: map<Key, string>, n: nat) {
    && shown.Keys == q.texts.Keys
    && (forall k, i: nat | k in shown && i < n && Overrides(q, k, i) :: shown[k] == q.store.value[i].text)
    && (forall k | k in shown && NotOverridden(q, k, n) :: shown[k] == q.texts[k])
  }

  ghost predicate ShowsTexts(q: Inputs, shown: map<Key, string>) {
    Shows(q, shown, if q.store.Some? then |q.store.value| else 0)
  }

  lemma ShowsNext(q: Inputs, shown: map<Key, string>, n: nat)
    requires Consistent(q) && q.wantChunks && q.store.Some? && n < |q.store.value| && Shows(q, shown, n)
    ensures var hit := q.store.value[n]; var key := Chunk(hit.chunk);
      Shows(q, if key in q.texts && hit.matches && hit.text != "" then shown[key := hit.text] else shown, n + 1)
  {
    var hit := q.store.value[n];
    var key := Chunk(hit.chunk);
    var next := if key in q.texts && hit.matches && hit.text != "" then shown[key := hit.text] else shown;
    forall k, i: nat | k in next && i < n + 1 && Overrides(q, k, i) ensures next[k] == q.store.value[i].text {
      if i < n { assert q.store.value[i].chunk != hit.chunk; }
    }
    forall k | k in next && NotOverridden(q, k, n + 1) ensures next[k] == q.texts[k] {
      assert !Overrides(q, k, n) && NotOverridden(q, k, n);
    }
  }

  /** The entries found are those of the given hits. */
  ghost predicate IsFound(q: Inputs, hits: seq<StoreHit>, found: seq<Scored>) {
    OncePerKey(found) && forall x :: x in found <==> FoundInStore(q, hits, x)
  }

  lemma FoundNext(q: Inputs, hits: seq<StoreHit>, hit: StoreHit, found: seq<Scored>)
    requires IsFound(q, hits, found) && forall h | h in hits :: h.chunk != hit.chunk
    ensures var x := Scored(Chunk(hit.chunk), hit.score);
      IsFound(q, hits + [hit], if x.key in q.texts && hit.matches then found + [x] else found)
  {
    var x := Scored(Chunk(hit.chunk), hit.score);
    assert forall y | y in found :: y.key != x.key;
    forall y ensures FoundInStore(q, hits + [hit], y) <==>
        FoundInStore(q, hits, y) || (hit.matches && y == x && x.key in q.texts)
    {
      if i :| 0 <= i < |hits| && hits[i].matches && y == Scored(Chunk(hits[i].chunk), hits[i].score) {
        assert (hits + [hit])[i] == hits[i];
      }
      assert (hits + [hit])[|hits|] == hit;
    }
  }

  /** The hits of the vector store that are candidates, best first; their text is taken from the store. */
  method StoreLeg(q: Inputs) returns (leg: seq<Scored>, shown: map<Key, string>)
    requires Consistent(q)
    ensures IsStoreLeg(q, leg) && ShowsTexts(q, shown)
  {
    var found: seq<Scored> := [];
    shown := q.texts;
    if q.store.Some? && q.wantChunks {
      found, shown := StoreEntries(q, q.store.value);
    }
    SortedSorts(found);
    SortedOnce(found);
    leg := Sorted(found);
  }

  method StoreEntries(q: Inputs, hits: seq<StoreHit>) returns (found: seq<Scored>, shown: map<Key, string>)
    requires Consistent(q) && q.wantChunks && q.store == Some(hits)
    ensures IsFound(q, hits, found) && Shows(q, shown, |hits|)
  {
    found, shown := [], q.texts;
    for n := 0 to |hits|
      invariant Shows(q, shown, n) && IsFound(q, hits[..n], found)
    {
      var key := Chunk(hits[n].chunk);
      ShowsNext(q, shown, n);
      FoundNext(q, hits[..n], hits[n], found);
      assert hits[..n + 1] == hits[..n] + [hits[n]];
      if key in q.texts && hits[n].matches {
        if hits[n].text != "" {
          shown := shown[key := hits[n].text];
        }
        found := found + [Scored(key, hits[n].score)];
      }
    }
    assert hits[..|hits|] == hits;
  }

  ghost predicate HasVector(q: Inputs, useChunks: bool, x: Scored) {
    || (useChunks && x.key in q.texts && x.key.Chunk? && x.score == q.similarity(x.key))
    || (exists f | f in q.facts :: x.key == Memory(f.memory) && f.similarity == Some(x.score))
  }

  ghost predicate IsVectorLeg(q: Inputs, useChunks: bool, leg: seq<Scored>) {
    Descending(leg) && OncePerKey(leg) && forall x :: x in leg <==> HasVector(q, useChunks, x)
  }

  /** The stored vectors against the query: of chunks only if the store had nothing, of facts always. */
  method VectorLeg(q: Inputs, useChunks: bool) returns (leg: seq<Scored>)
    requires Consistent(q)
    ensures IsVectorLeg(q, useChunks, leg)
  {
    var items: seq<Scored> := [];
    if useChunks {
      items := ChunkVectors(q);
    }
    ghost var chunks := items;
    for n := 0 to |q.facts|
      invariant OncePerKey(items)
      invariant forall x :: x in items <==> x in chunks || exists i | 0 <= i < n ::
        x.key == Memory(q.facts[i].memory) && q.facts[i].similarity == Some(x.score)
    {
      if q.facts[n].similarity.Some? {
        items := items + [Scored(Memory(q.facts[n].memory), q.facts[n].similarity.value)];
      }
    }
    SortedSorts(items);
    SortedOnce(items);
    leg := Sorted(items);
  }

  method ChunkVectors(q: Inputs) returns (items: seq<Scored>)
    ensures OncePerKey(items) && forall x :: x in items <==>
      x.key in q.texts && x.key.Chunk? && x.score == q.similarity(x.key)
  {
    items := [];
    var left := q.texts.Keys;
    while left != {}
      invariant left <= q.texts.Keys && OncePerKey(items)
      invariant forall x :: x in items <==>
        x.key in q.texts && x.key !in left && x.key.Chunk? && x.score == q.similarity(x.key)
      decreases left
    {
      var key :| key in left;
      if key.Chunk? {
        items := items + [Scored(key, q.similarity(key))];
      }
      left := left - {key};
    }
  }

  function FullTextHits(q: Inputs): seq<Scored> {
    var m := if q.wantChunks then Min(|q.keywordHits|, q.keywordLimit) else 0;
    seq(m, i requires 0 <= i < m => Scored(Chunk(q.keywordHits[i]), 1.0))
  }

  function Overlaps(q: Inputs): seq<Scored> {
    seq(|q.facts|, i requires 0 <= i < |q.facts| => Scored(Memory(q.facts[i].memory), q.facts[i].overlap))
  }

  function Positive(items: seq<Scored>): (r: seq<Scored>)
    ensures forall x :: x in r <==> x in items && x.score > 0.0
  {
    if items == [] then []
    else
      assert items == items[..|items| - 1] + [items[|items| - 1]];
      Positive(items[..|items| - 1]) + if items[|items| - 1].score > 0.0 then [items[|items| - 1]] else []
  }

  function Best(items: seq<Scored>, limit: nat): seq<Scored> {
    Sorted(items)[..Min(|items|, limit)]
  }

  /** Full-text hits score one each, facts by their overlap if they have any; the best of both together. */
  function KeywordLegOf(q: Inputs): seq<Scored> {
    Best(FullTextHits(q) + Positive(Best(Overlaps(q), q.keywordLimit)), q.keywordLimit)
  }

  lemma {:induction false} PositiveOnce(items: seq<Scored>)
    requires OncePerKey(items)
    ensures OncePerKey(Positive(items))
  {
    if items != [] {
      var front, last := items[..|items| - 1], items[|items| - 1];
      PositiveOnce(front);
      assert forall y | y in front :: y.key != last.key;
    }
  }

  lemma BestOnce(items: seq<Scored>, limit: nat)
    requires OncePerKey(items)
    ensures OncePerKey(Best(items, limit)) && Descending(Best(items, limit)) && |Best(items, limit)| <= limit
    ensures forall x | x in Best(items, limit) :: x in items
  {
    SortedOnce(items);
    SortedSorts(items);
    assert forall x | x in Best(items, limit) :: x in Sorted(items);
  }

  lemma Together(hits: seq<Scored>, facts: seq<Scored>)
    requires OncePerKey(hits) && OncePerKey(facts)
    requires (forall x | x in hits :: x.key.Chunk?) && (forall x | x in facts :: x.key.Memory?)
    ensures OncePerKey(hits + facts)
  {
    assert forall i | 0 <= i < |hits| :: hits[i] in hits;
    assert forall i | 0 <= i < |facts| :: facts[i] in facts;
  }

  lemma KeywordLegOnce(q: Inputs)
    requires Consistent(q)
    ensures OncePerKey(KeywordLegOf(q)) && Descending(KeywordLegOf(q)) && |KeywordLegOf(q)| <= q.keywordLimit
  {
    var best := Best(Overlaps(q), q.keywordLimit);
    BestOnce(Overlaps(q), q.keywordLimit);
    PositiveOnce(best);
    assert forall x | x in Overlaps(q) :: x.key.Memory?;
    Together(FullTextHits(q), Positive(best));
    BestOnce(FullTextHits(q) + Positive(best), q.keywordLimit);
  }

  // ---- What the keyword leg is ----

  function HitPlace(hits: seq<nat>, chunk: nat): (p: nat)
    ensures p <= |hits| && (p < |hits| ==> hits[p] == chunk)
  {
    if hits == [] || hits[0] == chunk then 0 else 1 + HitPlace(hits[1..], chunk)
  }

  function FactPlace(facts: seq<Fact>, memory: nat): (p: nat)
    ensures p <= |facts| && (p < |facts| ==> facts[p].memory == memory)
  {
    if facts == [] || facts[0].memory == memory then 0 else 1 + FactPlace(facts[1..], memory)
  }

  /** The order in which candidates come to the keyword leg: full-text hits, then facts. */
  function PlaceOf(q: Inputs, key: Key): nat {
    match key
    case Chunk(id) => HitPlace(q.keywordHits, id)
    case Memory(id) => |q.keywordHits| + FactPlace(q.facts, id)
  }

  predicate Ahead(q: Inputs, x: Scored, y: Scored) {
    x.score > y.score || (x.score == y.score && PlaceOf(q, x.key) < PlaceOf(q, y.key))
  }

  ghost predicate InOrder(q: Inputs, items: seq<Scored>) {
    forall i, j | 0 <= i < j < |items| :: Ahead(q, items[i], items[j])
  }

  ghost predicate IsFullTextHit(q: Inputs, x: Scored) {
    q.wantChunks && exists i | 0 <= i < |q.keywordHits| && i < q.keywordLimit ::
      x == Scored(Chunk(q.keywordHits[i]), 1.0)
  }

  ghost predicate IsOverlap(q: Inputs, x: Scored) {
    x.score > 0.0 && exists f | f in q.facts :: x == Scored(Memory(f.memory), f.overlap)
  }

  /** One of the first full-text hits, which all score one, or a fact that shares a word with the query. */
  ghost predicate IsKeyword(q: Inputs, x: Scored) {
    IsFullTextHit(q, x) || IsOverlap(q, x)
  }

  /** The first `keywordLimit` of all such entries by score, and by their order where scores are equal. */
  ghost predicate IsKeywordLeg(q: Inputs, leg: seq<Scored>) {
    && |leg| <= q.keywordLimit && OncePerKey(leg) && InOrder(q, leg)
    && (forall x | x in leg :: IsKeyword(q, x))
    && (forall x | IsKeyword(q, x) && x !in leg :: |leg| == q.keywordLimit && forall y | y in leg :: Ahead(q, y, x))
  }

  lemma {:induction false} HitPlaceAt(hits: seq<nat>, i: nat)
    requires Distinct(hits) && i < |hits|
    ensures HitPlace(hits, hits[i]) == i
  {
    if i > 0 {
      assert hits[0] != hits[i];
      HitPlaceAt(hits[1..], i - 1);
    }
  }

  lemma {:induction false} FactPlaceAt(facts: seq<Fact>, i: nat)
    requires i < |facts| && forall j, k | 0 <= j < k < |facts| :: facts[j].memory != facts[k].memory
    ensures FactPlace(facts, facts[i].memory) == i
  {
    if i > 0 {
      assert facts[0].memory != facts[i].memory;
      FactPlaceAt(facts[1..], i - 1);
    }
  }

  /** Where scores are equal the items stand by place. */
  ghost predicate ByPlace(q: Inputs, items: seq<Scored>) {
    forall i, j | 0 <= i < j < |items| && items[i].score == items[j].score ::
      PlaceOf(q, items[i].key) < PlaceOf(q, items[j].key)
  }

  lemma {:induction false} InsertInOrder(q: Inputs, items: seq<Scored>, x: Scored)
    requires InOrder(q, items) && forall y | y in items && y.score == x.score :: PlaceOf(q, y.key) < PlaceOf(q, x.key)
    ensures InOrder(q, Insert(items, x))
  {
    if items != [] && items[0].score >= x.score {
      assert items[0] in items && forall y | y in items[1..] :: y in items;
      InsertInOrder(q, items[1..], x);
      assert forall y | y in Insert(items[1..], x) :: Ahead(q, items[0], y);
    }
  }

  lemma {:induction false} SortedInOrder(q: Inputs, items: seq<Scored>)
    requires ByPlace(q, items)
    ensures InOrder(q, Sorted(items))
  {
    if items != [] {
      var front, last := items[..|items| - 1], items[|items| - 1];
      SortedInOrder(q, front);
      assert forall y | y in front && y.score == last.score :: PlaceOf(q, y.key) < PlaceOf(q, last.key);
      InsertInOrder(q, Sorted(front), last);
    }
  }

  /** What does not get among the best comes behind all of them. */
  lemma BestLeavesOut(q: Inputs, items: seq<Scored>, limit: nat, x: Scored)
    requires ByPlace(q, items) && x in items && x !in Best(items, limit)
    ensures |Best(items, limit)| == limit && forall y | y in Best(items, limit) :: Ahead(q, y, x)
  {
    SortedInOrder(q, items);
    var best := Best(items, limit);
    assert forall k | 0 <= k < |best| :: best[k] == Sorted(items)[k] && best[k] in best;
    var i :| 0 <= i < |items| && Sorted(items)[i] == x;
  }

  lemma BestInOrder(q: Inputs, items: seq<Scored>, limit: nat)
    requires ByPlace(q, items)
    ensures InOrder(q, Best(items, limit))
  {
    SortedInOrder(q, items);
  }

  lemma {:induction false} PositiveInOrder(q: Inputs, items: seq<Scored>)
    requires InOrder(q, items)
    ensures InOrder(q, Positive(items))
  {
    if items != [] {
      var front, last := items[..|items| - 1], items[|items| - 1];
      PositiveInOrder(q, front);
      assert forall y | y in front :: Ahead(q, y, last);
    }
  }

  lemma OverlapsByPlace(q: Inputs)
    requires Consistent(q)
    ensures ByPlace(q, Overlaps(q))
  {
    forall i | 0 <= i < |q.facts| ensures PlaceOf(q, Overlaps(q)[i].key) == |q.keywordHits| + i {
      FactPlaceAt(q.facts, i);
    }
  }

  lemma TogetherByPlace(q: Inputs, facts: seq<Scored>)
    requires Consistent(q) && InOrder(q, facts) && forall x | x in facts :: x.key.Memory?
    ensures ByPlace(q, FullTextHits(q) + facts)
  {
    var hits := FullTextHits(q);
    forall i | 0 <= i < |hits| ensures PlaceOf(q, hits[i].key) == i {
      HitPlaceAt(q.keywordHits, i);
    }
    forall i | 0 <= i < |facts| ensures PlaceOf(q, facts[i].key) >= |q.keywordHits| {
      assert facts[i] in facts;
    }
  }

  lemma Candidates(q: Inputs, x: Scored)
    ensures x in FullTextHits(q) <==> IsFullTextHit(q, x)
    ensures x in Overlaps(q) && x.score > 0.0 <==> IsOverlap(q, x)
  {
    if IsFullTextHit(q, x) {
      var i :| 0 <= i < |q.keywordHits| && i < q.keywordLimit && x == Scored(Chunk(q.keywordHits[i]), 1.0);
      assert FullTextHits(q)[i] == x;
    }
    if IsOverlap(q, x) {
      var i :| 0 <= i < |q.facts| && x == Scored(Memory(q.facts[i].memory), q.facts[i].overlap);
      assert Overlaps(q)[i] == x;
    }
  }

  lemma FewerDistinct(some: seq<Scored>, all: seq<Scored>)
    requires OncePerKey(some) && forall x | x in some :: x in all
    ensures |some| <= |all|
  {
    var a, b := set x | x in some, set x | x in all;
    CountOf(some);
    CountOf(all);
    assert a <= b;
    assert b == a + (b - a);
  }

  lemma {:induction false} CountOf(items: seq<Scored>)
    ensures |set x | x in items| <= |items|
    ensures OncePerKey(items) ==> |set x | x in items| == |items|
  {
    if items != [] {
      var front, last := items[..|items| - 1], items[|items| - 1];
      CountOf(front);
      assert items == front + [last];
      assert (set x | x in items) == (set x | x in front) + {last};
    }
  }

  /** A fact that is not among the best facts comes behind the whole leg: as many facts are in front of it as the
      leg has room for. */
  lemma CrowdedOut(q: Inputs, all: seq<Scored>, facts: seq<Scored>, x: Scored)
    requires ByPlace(q, all) && OncePerKey(facts) && |facts| == q.keywordLimit
    requires forall y | y in facts :: y in all && Ahead(q, y, x)
    ensures var leg := Best(all, q.keywordLimit);
      |leg| == q.keywordLimit && forall y | y in leg :: Ahead(q, y, x)
  {
    FewerDistinct(facts, all);
    SortedInOrder(q, all);
    var leg := Best(all, q.keywordLimit);
    forall y | y in leg ensures Ahead(q, y, x) {
      if !Ahead(q, y, x) {
        var i :| 0 <= i < |leg| && leg[i] == y;
        forall z | z in facts ensures z in Sorted(all)[..i] {
          var k :| 0 <= k < |all| && Sorted(all)[k] == z;
          assert Ahead(q, z, y);
        }
        FewerDistinct(facts, Sorted(all)[..i]);
        assert false;
      }
    }
  }

  lemma AllByPlace(q: Inputs)
    requires Consistent(q)
    ensures ByPlace(q, FullTextHits(q) + Positive(Best(Overlaps(q), q.keywordLimit)))
  {
    var best := Best(Overlaps(q), q.keywordLimit);
    OverlapsByPlace(q);
    BestInOrder(q, Overlaps(q), q.keywordLimit);
    PositiveInOrder(q, best);
    BestOnce(Overlaps(q), q.keywordLimit);
    TogetherByPlace(q, Positive(best));
  }

  lemma LegIsOfKeywords(q: Inputs, x: Scored)
    requires Consistent(q) && x in KeywordLegOf(q)
    ensures IsKeyword(q, x)
  {
    var best := Best(Overlaps(q), q.keywordLimit);
    SortedSorts(FullTextHits(q) + Positive(best));
    assert x in Sorted(FullTextHits(q) + Positive(best));
    assert x in Positive(best) ==> x in Sorted(Overlaps(q));
    Candidates(q, x);
  }

  lemma KeywordLegIs(q: Inputs)
    requires Consistent(q)
    ensures IsKeywordLeg(q, KeywordLegOf(q))
  {
    var best := Best(Overlaps(q), q.keywordLimit);
    var all := FullTextHits(q) + Positive(best);
    AllByPlace(q);
    BestInOrder(q, all, q.keywordLimit);
    KeywordLegOnce(q);
    BestOnce(Overlaps(q), q.keywordLimit);
    forall x | x in KeywordLegOf(q) ensures IsKeyword(q, x) {
      LegIsOfKeywords(q, x);
    }
    forall x | IsKeyword(q, x) && x !in KeywordLegOf(q)
      ensures |KeywordLegOf(q)| == q.keywordLimit && forall y | y in KeywordLegOf(q) :: Ahead(q, y, x)
    {
      LeftOut(q, x, best, all);
    }
  }

  lemma LeftOut(q: Inputs, x: Scored, best: seq<Scored>, all: seq<Scored>)
    requires Consistent(q) && best == Best(Overlaps(q), q.keywordLimit) && all == FullTextHits(q) + Positive(best)
    requires ByPlace(q, all) && OncePerKey(best) && IsKeyword(q, x) && x !in Best(all, q.keywordLimit)
    ensures |Best(all, q.keywordLimit)| == q.keywordLimit
    ensures forall y | y in Best(all, q.keywordLimit) :: Ahead(q, y, x)
  {
    Candidates(q, x);
    if x in all {
      BestLeavesOut(q, all, q.keywordLimit, x);
    } else {
      OverlapsByPlace(q);
      BestLeavesOut(q, Overlaps(q), q.keywordLimit, x);
      CrowdedOut(q, all, best, x);
    }
  }

  method KeepPositive(items: seq<Scored>) returns (kept: seq<Scored>)
    ensures kept == Positive(items)
  {
    kept := [];
    for n := 0 to |items|
      invariant kept == Positive(items[..n])
    {
      assert items[..n + 1][..n] == items[..n];
      if items[n].score > 0.0 {
        kept := kept + [items[n]];
      }
    }
    assert items[..|items|] == items;
  }

  /** Full-text hits and overlaps together, best first. */
  method KeywordLeg(q: Inputs) returns (leg: seq<Scored>)
    requires Consistent(q)
    ensures IsKeywordLeg(q, leg)
  {
    KeywordLegIs(q);
    var facts := KeepPositive(Best(Overlaps(q), q.keywordLimit));
    leg := Best(FullTextHits(q) + facts, q.keywordLimit);
  }

  // ---------------------------------------------------------------- fusion

  /** Two vector lists that share no candidate, and one keyword list. */
  ghost predicate AreLegs(q: Inputs, store: seq<Key>, vectors: seq<Key>, keywords: seq<Key>) {
    && Distinct(store) && Distinct(vectors) && Distinct(keywords) && |keywords| <= q.keywordLimit
    && (forall k | k in store :: k in q.texts && k !in vectors)
    && (forall k | k in vectors :: k in q.texts)
  }

  function Fused(store: seq<Key>, vectors: seq<Key>, keywords: seq<Key>, key: Key): real {
    Term(VECTOR_WEIGHT, store, key) + Term(VECTOR_WEIGHT, vectors, key) + Term(KEYWORD_WEIGHT, keywords, key)
  }

  /** A key's rank in a leg, counted from one; zero if it is not in it. */
  predicate IsRank(leg: seq<Key>, key: Key, rank: nat) {
    if rank == 0 then key !in leg else rank <= |leg| && leg[rank - 1] == key
  }

  /** The fused score by the three ranks of a candidate. */
  lemma FusedByRanks(q: Inputs, store: seq<Key>, vectors: seq<Key>, keywords: seq<Key>, key: Key, a: nat, b: nat,
      c: nat)
    requires AreLegs(q, store, vectors, keywords)
    requires IsRank(store, key, a) && IsRank(vectors, key, b) && IsRank(keywords, key, c)
    ensures Fused(store, vectors, keywords, key) ==
      (if a == 0 then 0.0 else 0.6 / (60 + a) as real) + (if b == 0 then 0.0 else 0.6 / (60 + b) as real) +
      (if c == 0 then 0.0 else 0.4 / (60 + c) as real)
  {
    if a > 0 { IndexIn(store, a - 1); }
    if b > 0 { IndexIn(vectors, b - 1); }
    if c > 0 { IndexIn(keywords, c - 1); }
  }

  predicate Ranks(store: seq<Key>, vectors: seq<Key>, keywords: seq<Key>, key: Key) {
    key in store || key in vectors || key in keywords
  }

  /** A candidate that some leg ranks scores more than nothing, and at most 1/61. */
  lemma FusedBounds(q: Inputs, store: seq<Key>, vectors: seq<Key>, keywords: seq<Key>, key: Key)
    requires AreLegs(q, store, vectors, keywords) && Ranks(store, vectors, keywords, key)
    ensures 0.0 < Fused(store, vectors, keywords, key) <= 1.0 / 61.0
  {
    TermBounds(VECTOR_WEIGHT, store, key);
    TermBounds(VECTOR_WEIGHT, vectors, key);
    TermBounds(KEYWORD_WEIGHT, keywords, key);
    assert Share(VECTOR_WEIGHT, 1) + Share(KEYWORD_WEIGHT, 1) == 1.0 / 61.0;
  }

  lemma TermFalls(weight: real, leg: seq<Key>, a: Key, b: Key)
    requires weight > 0.0 && a in leg && (b in leg ==> IndexOf(leg, a) < IndexOf(leg, b))
    ensures Term(weight, leg, a) > Term(weight, leg, b)
  {
    TermBounds(weight, leg, a);
    if b in leg { ShareFalls(weight, IndexOf(leg, a) + 1, IndexOf(leg, b) + 1); }
  }

  /** In front of b, or b not there at all, or a and b the same. */
  predicate NoWorse(leg: seq<Key>, a: Key, b: Key) {
    b in leg ==> a in leg && IndexOf(leg, a) <= IndexOf(leg, b)
  }

  lemma TermNoWorse(weight: real, leg: seq<Key>, a: Key, b: Key)
    requires weight > 0.0 && NoWorse(leg, a, b)
    ensures Term(weight, leg, a) >= Term(weight, leg, b)
  {
    TermBounds(weight, leg, a);
    if b in leg && IndexOf(leg, a) < IndexOf(leg, b) { TermFalls(weight, leg, a, b); }
  }

  /** Ranked no worse by every leg and better by one, a candidate scores strictly more. */
  lemma BetterRankScoresMore(store: seq<Key>, vectors: seq<Key>, keywords: seq<Key>, a: Key, b: Key)
    requires NoWorse(store, a, b) && NoWorse(vectors, a, b) && NoWorse(keywords, a, b)
    requires !(NoWorse(store, b, a) && NoWorse(vectors, b, a) && NoWorse(keywords, b, a))
    ensures Fused(store, vectors, keywords, a) > Fused(store, vectors, keywords, b)
  {
    TermNoWorse(VECTOR_WEIGHT, store, a, b);
    TermNoWorse(VECTOR_WEIGHT, vectors, a, b);
    TermNoWorse(KEYWORD_WEIGHT, keywords, a, b);
    if !NoWorse(store, b, a) { TermFalls(VECTOR_WEIGHT, store, a, b); }
    if !NoWorse(vectors, b, a) { TermFalls(VECTOR_WEIGHT, vectors, a, b); }
    if !NoWorse(keywords, b, a) { TermFalls(KEYWORD_WEIGHT, keywords, a, b); }
  }

  datatype Hit = Hit(key: Key, text: string, score: real)

  /** The entries of the score table, in whatever order. */
  method Entries(scores: map<Key, real>) returns (items: seq<Scored>)
    ensures OncePerKey(items) && forall x :: x in items <==> x.key in scores && x.score == scores[x.key]
  {
    items := [];
    var left := scores.Keys;
    while left != {}
      invariant left <= scores.Keys && OncePerKey(items)
      invariant forall x :: x in items <==> x.key in scores && x.key !in left && x.score == scores[x.key]
      decreases left
    {
      var key :| key in left;
      items := items + [Scored(key, scores[key])];
      left := left - {key};
    }
  }

  /** The scores after all three legs. */
  ghost predicate FusedScores(q: Inputs, store: seq<Key>, vectors: seq<Key>, keywords: seq<Key>, scores: map<Key, real>)
  {
    && (forall k :: k in scores <==> k in q.texts && Ranks(store, vectors, keywords, k))
    && (forall k | k in scores :: scores[k] == Fused(store, vectors, keywords, k))
  }

  method Score(q: Inputs)
    returns (scores: map<Key, real>, shown: map<Key, string>, ghost store: seq<Scored>, ghost vectors: seq<Scored>,
      ghost keywords: seq<Scored>)
    requires Consistent(q)
    ensures IsStoreLeg(q, store) && IsVectorLeg(q, store == [], vectors) && IsKeywordLeg(q, keywords)
    ensures AreLegs(q, Keys(store), Keys(vectors), Keys(keywords))
    ensures FusedScores(q, Keys(store), Keys(vectors), Keys(keywords), scores) && ShowsTexts(q, shown)
  {
    var storeLeg, vectorLeg, keywordLeg;
    storeLeg, shown := StoreLeg(q);
    vectorLeg := VectorLeg(q, storeLeg == []);
    keywordLeg := KeywordLeg(q);
    store, vectors, keywords := storeLeg, vectorLeg, keywordLeg;
    TheyAreLegs(q, storeLeg, vectorLeg, keywordLeg);
    var first := AddLeg(map[], Keys(storeLeg), VECTOR_WEIGHT, q.texts.Keys);
    var second := AddLeg(first, Keys(vectorLeg), VECTOR_WEIGHT, q.texts.Keys);
    scores := AddLeg(second, Keys(keywordLeg), KEYWORD_WEIGHT, q.texts.Keys);
    ThreeLegs(q, Keys(store), Keys(vectors), Keys(keywordLeg), first, second, scores);
  }

  lemma TheyAreLegs(q: Inputs, store: seq<Scored>, vectors: seq<Scored>, keywords: seq<Scored>)
    requires Consistent(q) && IsStoreLeg(q, store) && IsVectorLeg(q, store == [], vectors)
    requires OncePerKey(keywords) && |keywords| <= q.keywordLimit
    ensures AreLegs(q, Keys(store), Keys(vectors), Keys(keywords))
  {
    KeysOnce(store);
    KeysOnce(vectors);
    KeysOnce(keywords);
    forall k | k in Keys(store) ensures k in q.texts && k !in Keys(vectors) {
      InKeys(store, k);
      InKeys(vectors, k);
    }
    forall k | k in Keys(vectors) ensures k in q.texts {
      InKeys(vectors, k);
    }
  }

  lemma ThreeLegs(q: Inputs, store: seq<Key>, vectors: seq<Key>, keywords: seq<Key>,
      first: map<Key, real>, second: map<Key, real>, scores: map<Key, real>)
    requires AreLegs(q, store, vectors, keywords)
    requires Added(map[], first, store, |store|, VECTOR_WEIGHT, q.texts.Keys)
    requires Added(first, second, vectors, |vectors|, VECTOR_WEIGHT, q.texts.Keys)
    requires Added(second, scores, keywords, |keywords|, KEYWORD_WEIGHT, q.texts.Keys)
    ensures FusedScores(q, store, vectors, keywords, scores)
  {
    assert store[..|store|] == store && vectors[..|vectors|] == vectors && keywords[..|keywords|] == keywords;
  }

  /** What search promises of its hits, given the legs: distinct candidates, best first, none below the
      threshold, and what is left out for the limit scores no more than what is returned. */
  ghost predicate AreHits(q: Inputs, store: seq<Key>, vectors: seq<Key>, keywords: seq<Key>, limit: nat,
      threshold: real, hits: seq<Hit>)
  {
    && |hits| <= limit
    && (forall h | h in hits :: h.key in q.texts && Ranks(store, vectors, keywords, h.key))
    && (forall h | h in hits :: h.score == Fused(store, vectors, keywords, h.key) >= threshold)
    && (forall i, j | 0 <= i < j < |hits| :: hits[i].key != hits[j].key && hits[i].score >= hits[j].score)
    && (forall k | k in q.texts && Ranks(store, vectors, keywords, k) &&
         Fused(store, vectors, keywords, k) >= threshold ::
          Returned(hits, k) || (|hits| == limit && forall h | h in hits ::
            h.score >= Fused(store, vectors, keywords, k)))
  }

  /** The lists behind hits, the store's, the stored vectors' and the keywords', and the texts they are shown
      with. */
  ghost predicate Answers(q: Inputs, limit: nat, threshold: real, hits: seq<Hit>, store: seq<Scored>,
      vectors: seq<Scored>, keywords: seq<Scored>, shown: map<Key, string>)
  {
    && ShowsTexts(q, shown) && (forall h | h in hits :: h.key in shown && h.text == shown[h.key])
    && IsStoreLeg(q, store) && IsVectorLeg(q, store == [], vectors) && IsKeywordLeg(q, keywords)
    && AreLegs(q, Keys(store), Keys(vectors), Keys(keywords))
    && AreHits(q, Keys(store), Keys(vectors), Keys(keywords), limit, threshold, hits)
  }

  /** search without a reranker. */
  method Search(q: Inputs, limit: nat, threshold: real) returns (hits: seq<Hit>)
    requires Consistent(q)
    ensures exists store, vectors, keywords, shown ::
      Answers(q, limit, threshold, hits, store, vectors, keywords, shown)
  {
    var scores, shown;
    ghost var store, vectors, keywords;
    scores, shown, store, vectors, keywords := Score(q);
    var ranked := Entries(scores);
    SortedSorts(ranked);
    SortedOnce(ranked);
    ranked := Sorted(ranked);
    hits := TakeHits(ranked, shown, limit, threshold);
    TheyAreHits(q, Keys(store), Keys(vectors), Keys(keywords), scores, ranked, limit, threshold, hits);
    assert Answers(q, limit, threshold, hits, store, vectors, keywords, shown);
  }

  lemma TheyAreHits(q: Inputs, store: seq<Key>, vectors: seq<Key>, keywords: seq<Key>, scores: map<Key, real>,
      ranked: seq<Scored>, limit: nat, threshold: real, hits: seq<Hit>)
    requires FusedScores(q, store, vectors, keywords, scores) && |hits| <= limit
    requires forall x :: x in ranked <==> x.key in scores && x.score == scores[x.key]
    requires forall h | h in hits :: h.score >= threshold && Scored(h.key, h.score) in ranked
    requires forall i, j | 0 <= i < j < |hits| :: hits[i].key != hits[j].key && hits[i].score >= hits[j].score
    requires forall x | x in ranked && x.score >= threshold ::
      Returned(hits, x.key) || (|hits| == limit && forall h | h in hits :: h.score >= x.score)
    ensures AreHits(q, store, vectors, keywords, limit, threshold, hits)
  {
    forall k | k in q.texts && Ranks(store, vectors, keywords, k) && Fused(store, vectors, keywords, k) >= threshold
      ensures Returned(hits, k) || (|hits| == limit && forall h | h in hits ::
        h.score >= Fused(store, vectors, keywords, k))
    {
      assert Scored(k, scores[k]) in ranked;
    }
  }

  ghost predicate Returned(hits: seq<Hit>, key: Key) {
    exists h | h in hits :: h.key == key
  }

  /** An entry comes after better ones, and none of them has its key. */
  lemma EarlierIsBetter(ranked: seq<Scored>, n: nat)
    requires Descending(ranked) && OncePerKey(ranked) && n < |ranked|
    ensures ranked[n] in ranked
    ensures forall y | y in ranked[..n] :: y.key != ranked[n].key && y.score >= ranked[n].score
  {}

  /** A hit is an entry that reaches the threshold, with the text of its key. */
  predicate ShowsEntry(h: Hit, ranked: seq<Scored>, shown: map<Key, string>, threshold: real) {
    h.score >= threshold && Scored(h.key, h.score) in ranked && h.key in shown && h.text == shown[h.key]
  }

  predicate BestFirst(hits: seq<Hit>) {
    forall i, j | 0 <= i < j < |hits| :: hits[i].key != hits[j].key && hits[i].score >= hits[j].score
  }

  /** The entries that reach the threshold, as hits in the same order. */
  method AllHits(ranked: seq<Scored>, shown: map<Key, string>, threshold: real) returns (all: seq<Hit>)
    requires Descending(ranked) && OncePerKey(ranked) && forall x | x in ranked :: x.key in shown
    ensures forall h | h in all :: ShowsEntry(h, ranked, shown, threshold)
    ensures BestFirst(all)
    ensures forall x | x in ranked && x.score >= threshold :: Hit(x.key, shown[x.key], x.score) in all
  {
    all := [];
    for n := 0 to |ranked|
      invariant forall h | h in all :: ShowsEntry(h, ranked[..n], shown, threshold)
      invariant BestFirst(all)
      invariant forall x | x in ranked[..n] && x.score >= threshold :: Hit(x.key, shown[x.key], x.score) in all
    {
      var x := ranked[n];
      assert ranked[..n + 1] == ranked[..n] + [x];
      EarlierIsBetter(ranked, n);
      if x.score >= threshold {
        AppendedLast(all, Hit(x.key, shown[x.key], x.score));
        all := all + [Hit(x.key, shown[x.key], x.score)];
      }
    }
    assert ranked[..|ranked|] == ranked;
  }

  lemma AppendedLast(all: seq<Hit>, h: Hit)
    requires BestFirst(all) && forall y | y in all :: y.key != h.key && y.score >= h.score
    ensures BestFirst(all + [h])
  {
    forall i, j | 0 <= i < j < |all + [h]|
      ensures (all + [h])[i].key != (all + [h])[j].key && (all + [h])[i].score >= (all + [h])[j].score
    {
      assert all[i] in all;
    }
  }

  /** The first `limit` entries that reach the threshold, as hits. */
  method TakeHits(ranked: seq<Scored>, shown: map<Key, string>, limit: nat, threshold: real) returns (hits: seq<Hit>)
    requires Descending(ranked) && OncePerKey(ranked) && forall x | x in ranked :: x.key in shown
    ensures |hits| <= limit
    ensures forall h | h in hits :: ShowsEntry(h, ranked, shown, threshold)
    ensures BestFirst(hits)
    ensures forall x | x in ranked && x.score >= threshold ::
      Returned(hits, x.key) || (|hits| == limit && forall h | h in hits :: h.score >= x.score)
  {
    var all := AllHits(ranked, shown, threshold);
    hits := all[..Min(|all|, limit)];
    forall x | x in ranked && x.score >= threshold
      ensures Returned(hits, x.key) || (|hits| == limit && forall h | h in hits :: h.score >= x.score)
    {
      TakenOrFull(all, hits, limit, Hit(x.key, shown[x.key], x.score));
    }
  }

  /** A hit is among the first `limit`, or those are all at least as good. */
  lemma TakenOrFull(all: seq<Hit>, hits: seq<Hit>, limit: nat, x: Hit)
    requires x in all && hits == all[..Min(|all|, limit)]
    requires BestFirst(all)
    ensures Returned(hits, x.key) || (|hits| == limit && forall h | h in hits :: h.score >= x.score)
  {
    var i :| 0 <= i < |all| && all[i] == x;
    if i < |hits| {
      assert hits[i] == x;
    }
  }

  // ---------------------------------------------------------------- several queries

  ghost predicate Among(batches: seq<seq<Hit>>, h: Hit) {
    exists b | b in batches :: h in b
  }

  /** The best hit of every id seen so far. */
  ghost predicate IsBest(best: map<Key, Hit>, seen: set<Hit>) {
    && (forall k | k in best :: best[k].key == k && best[k] in seen)
    && (forall h | h in seen :: h.key in best && best[h.key].score >= h.score)
  }

  function Better(best: map<Key, Hit>, h: Hit): map<Key, Hit> {
    if h.key !in best || h.score > best[h.key].score then best[h.key := h] else best
  }

  /** merge_hits: every id once, at its best similarity, best first. */
  method MergeHits(batches: seq<seq<Hit>>, limit: nat) returns (merged: seq<Hit>)
    ensures |merged| <= limit
    ensures forall i, j | 0 <= i < j < |merged| :: merged[i].key != merged[j].key && merged[i].score >= merged[j].score
    ensures forall m | m in merged :: Among(batches, m)
    ensures forall m, h | m in merged && Among(batches, h) && h.key == m.key :: m.score >= h.score
    ensures forall h | Among(batches, h) ::
      Returned(merged, h.key) || (|merged| == limit && forall m | m in merged :: m.score >= h.score)
  {
    var best: map<Key, Hit> := map[];
    ghost var seen: set<Hit> := {};
    for n := 0 to |batches|
      invariant IsBest(best, seen) && forall h :: h in seen <==> Among(batches[..n], h)
    {
      best, seen := MergeBatch(best, seen, batches[n]);
      assert batches[..n + 1] == batches[..n] + [batches[n]];
      assert forall h :: Among(batches[..n + 1], h) <==> Among(batches[..n], h) || h in batches[n];
    }
    assert batches[..|batches|] == batches;
    merged := TopOf(best, limit);
  }

  method MergeBatch(best: map<Key, Hit>, ghost seen: set<Hit>, batch: seq<Hit>)
    returns (next: map<Key, Hit>, ghost all: set<Hit>)
    requires IsBest(best, seen)
    ensures IsBest(next, all) && forall h :: h in all <==> h in seen || h in batch
  {
    next, all := best, seen;
    for n := 0 to |batch|
      invariant IsBest(next, all) && forall h :: h in all <==> h in seen || h in batch[..n]
    {
      assert batch[..n + 1] == batch[..n] + [batch[n]];
      next, all := Better(next, batch[n]), all + {batch[n]};
    }
    assert batch[..|batch|] == batch;
  }

  method TopOf(best: map<Key, Hit>, limit: nat) returns (top: seq<Hit>)
    requires forall k | k in best :: best[k].key == k
    ensures |top| <= limit && forall h | h in top :: h.key in best && best[h.key] == h
    ensures forall i, j | 0 <= i < j < |top| :: top[i].key != top[j].key && top[i].score >= top[j].score
    ensures forall k | k in best :: Returned(top, k) || (|top| == limit && forall h | h in top ::
      h.score >= best[k].score)
  {
    var scores := map k | k in best :: best[k].score;
    var shown := map k | k in best :: best[k].text;
    var ranked := Entries(scores);
    SortedSorts(ranked);
    SortedOnce(ranked);
    ranked := Sorted(ranked);
    var least := Least(ranked);
    top := TakeHits(ranked, shown, limit, least);
    forall k | k in best ensures Returned(top, k) || (|top| == limit && forall h | h in top ::
      h.score >= best[k].score)
    {
      assert Scored(k, scores[k]) in ranked;
    }
  }

  /** No greater than any score. */
  function Least(items: seq<Scored>): (least: real)
    ensures forall x | x in items :: x.score >= least
  {
    if items == [] then 0.0
    else
      assert items == items[..|items| - 1] + [items[|items| - 1]];
      var least := Least(items[..|items| - 1]);
      if items[|items| - 1].score < least then items[|items| - 1].score else least
  }
}
