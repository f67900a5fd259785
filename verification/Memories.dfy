/** Memory rows and their append-only history. Every lifecycle function updates one row and appends one
    entry; folding a memory's entries gives the row back. */
module Memories {
  import opened Common
  import opened Text

  type MemoryId = nat
  type FactId = nat
  type Metadata = map<string, string>

  datatype State = Active | Deleted

  datatype Memory = Memory(text: string, metadata: Metadata, fact: Option<FactId>, version: nat, state: State)

  datatype Change = ADD | UPDATE | DELETE

  datatype Entry = Entry(
    memory: MemoryId,
    change: Change,
    version: nat,
    oldText: Option<string>,
    newText: Option<string>,
    metadata: Metadata)

  /** `history` is the table in insertion order. */
  datatype Store = Store(memories: map<MemoryId, Memory>, nextMemory: MemoryId, history: seq<Entry>)

  datatype Failure = UnknownMemory | InvalidText | InvalidCategory

  datatype Result = Ok(store: Store) | Error(failure: Failure)

  // ---------------------------------------------------------------- lifecycle functions

  const IDENTITY_KEYS := {"user_id", "agent_id", "app_id", "run_id", "actor_id"}

  function Cleaned(metadata: Metadata): Metadata {
    map k | k in metadata && k !in IDENTITY_KEYS :: metadata[k]
  }

  function Inserted(s: Store, text: string, metadata: Metadata, fact: Option<FactId>): Store {
    var clean := Cleaned(metadata);
    Store(s.memories[s.nextMemory := Memory(text, clean, fact, 1, Active)],
          s.nextMemory + 1,
          s.history + [Entry(s.nextMemory, ADD, 1, None, Some(text), clean)])
  }

  function Created(s: Store, text: string, metadata: Metadata, fact: Option<FactId>): Result {
    if IsBlank(text) then Error(InvalidText) else Ok(Inserted(s, text, metadata, fact))
  }

  predicate IsActive(s: Store, m: MemoryId) {
    m in s.memories && s.memories[m].state == Active
  }

  /** The write both update_memory and categorize_memory end in. */
  function Rewritten(s: Store, m: MemoryId, text: string, metadata: Metadata): Store
    requires m in s.memories
  {
    var row := s.memories[m];
    s.(memories := s.memories[m := row.(text := text, metadata := metadata, version := row.version + 1)],
       history := s.history + [Entry(m, UPDATE, row.version + 1, Some(row.text), Some(text), metadata)])
  }

  function Updated(s: Store, m: MemoryId, text: Option<string>, metadata: Option<Metadata>): Result {
    if !IsActive(s, m) then Error(UnknownMemory) else
    var row := s.memories[m];
    var newText := if text.None? then row.text else text.value;
    if IsBlank(newText) then Error(InvalidText) else
    Ok(Rewritten(s, m, newText, Cleaned(row.metadata + if metadata.None? then map[] else metadata.value)))
  }

  function Categorized(s: Store, m: MemoryId, category: string): Result {
    var name := Strip(category);
    if name == "" || |name| > 200 then Error(InvalidCategory)
    else if !IsActive(s, m) then Error(UnknownMemory)
    else Ok(Rewritten(s, m, s.memories[m].text, Cleaned(s.memories[m].metadata["category" := name])))
  }

  function Tombstone(m: MemoryId, version: nat): Entry {
    Entry(m, DELETE, version, None, None, map[])
  }

  /** One turn of soft_delete_memory's loop. */
  function Buried(s: Store, m: MemoryId): Store
    requires m in s.memories
  {
    var row := s.memories[m];
    s.(memories := s.memories[m := row.(state := Deleted, version := row.version + 1)],
       history := s.history + [Tombstone(m, row.version + 1)])
  }

  function BuriedAll(s: Store, targets: seq<MemoryId>): Store
    requires forall m | m in targets :: m in s.memories
    ensures BuriedAll(s, targets).memories.Keys == s.memories.Keys
    decreases |targets|
  {
    if targets == [] then s else
    var before := BuriedAll(s, targets[..|targets| - 1]);
    assert targets[|targets| - 1] in targets;
    Buried(before, targets[|targets| - 1])
  }

  // ---------------------------------------------------------------- what the functions do to a row

  /** What is kept of metadata: everything but the keys that say who wrote it. */
  ghost predicate IsCleaned(clean: Metadata, raw: Metadata) {
    && (forall k :: k in clean <==>
         k in raw && k !in {"user_id", "agent_id", "app_id", "run_id", "actor_id"})
    && (forall k | k in clean :: clean[k] == raw[k])
  }

  /** From s to t a new memory is there, with one history entry; nothing else changed. */
  ghost predicate MemoryAdded(s: Store, t: Store, text: string, metadata: Metadata, fact: Option<FactId>) {
    && s.nextMemory in t.memories && IsCleaned(t.memories[s.nextMemory].metadata, metadata)
    && var clean := t.memories[s.nextMemory].metadata;
       t == Store(s.memories[s.nextMemory := Memory(text, clean, fact, 1, Active)], s.nextMemory + 1,
                  s.history + [Entry(s.nextMemory, ADD, 1, None, Some(text), clean)])
  }

  lemma InsertedIs(s: Store, text: string, metadata: Metadata, fact: Option<FactId>)
    ensures MemoryAdded(s, Inserted(s, text, metadata, fact), text, metadata, fact)
  {}

  /** From s to t the active memory m has that text and metadata, one version more, and an entry that quotes what
      the text was. */
  ghost predicate MemoryRewritten(s: Store, t: Store, m: MemoryId, text: string) {
    && m in s.memories && m in t.memories && s.memories[m].state == Active
    && var row, metadata := s.memories[m], t.memories[m].metadata;
       t == Store(s.memories[m := Memory(text, metadata, row.fact, row.version + 1, Active)], s.nextMemory,
                  s.history + [Entry(m, UPDATE, row.version + 1, Some(row.text), Some(text), metadata)])
  }

  /** The text is replaced if there is a new one; of the metadata, keys in the changes win over those in the row. */
  ghost predicate MemoryUpdated(s: Store, t: Store, m: MemoryId, text: Option<string>, changes: Option<Metadata>) {
    && m in s.memories && MemoryRewritten(s, t, m, if text.Some? then text.value else s.memories[m].text)
    && IsMerged(t.memories[m].metadata, s.memories[m].metadata, changes)
  }

  ghost predicate IsMerged(next: Metadata, row: Metadata, changes: Option<Metadata>) {
    && (forall k :: k in next <==>
         (k in row || (changes.Some? && k in changes.value)) &&
         k !in {"user_id", "agent_id", "app_id", "run_id", "actor_id"})
    && (forall k | k in next :: next[k] == if changes.Some? && k in changes.value then changes.value[k] else row[k])
  }

  /** From s to t the active memory m is deleted, with one version more and an entry that says so. */
  ghost predicate MemoryDeleted(s: Store, t: Store, m: MemoryId) {
    && m in s.memories && s.memories[m].state == Active
    && var row := s.memories[m];
       t == Store(s.memories[m := row.(state := Deleted, version := row.version + 1)], s.nextMemory,
                  s.history + [Entry(m, DELETE, row.version + 1, None, None, map[])])
  }

  lemma UpdatedIs(s: Store, m: MemoryId, text: Option<string>, changes: Option<Metadata>)
    ensures match Updated(s, m, text, changes)
      case Ok(t) => MemoryUpdated(s, t, m, text, changes) &&
        exists i :: 0 <= i < |t.memories[m].text| && !IsSpace(t.memories[m].text[i])
      case Error(UnknownMemory) => m !in s.memories || s.memories[m].state == Deleted
      case Error(InvalidText) =>
        m in s.memories && s.memories[m].state == Active &&
        forall c | c in (if text.Some? then text.value else s.memories[m].text) :: IsSpace(c)
      case Error(InvalidCategory) => false
  {}

  /** The category goes into the metadata, without blanks around it; the text stays. */
  ghost predicate MemoryCategorized(s: Store, t: Store, m: MemoryId, name: string) {
    && m in s.memories && MemoryRewritten(s, t, m, s.memories[m].text)
    && IsCleaned(t.memories[m].metadata, s.memories[m].metadata["category" := name])
  }

  lemma CategorizedIs(s: Store, m: MemoryId, category: string)
    ensures match Categorized(s, m, category)
      case Ok(t) => 0 < |Strip(category)| <= 200 && MemoryCategorized(s, t, m, Strip(category))
      case Error(InvalidCategory) => !(0 < |Strip(category)| <= 200)
      case Error(UnknownMemory) => 0 < |Strip(category)| <= 200 && !IsActive(s, m)
      case Error(InvalidText) => false
  {}

  // ---------------------------------------------------------------- history

  function HistoryOf(history: seq<Entry>, m: MemoryId): seq<Entry> {
    if history == [] then [] else
    var before, last := HistoryOf(history[..|history| - 1], m), history[|history| - 1];
    if last.memory == m then before + [last] else before
  }

  lemma HistoryGrows(history: seq<Entry>, e: Entry, m: MemoryId)
    ensures HistoryOf(history + [e], m) == if e.memory == m then HistoryOf(history, m) + [e] else HistoryOf(history, m)
  {
    assert (history + [e])[..|history|] == history;
  }

  datatype Snapshot = Snapshot(text: string, metadata: Metadata, deleted: bool)

  /** What a reader of the history alone makes of it, oldest entry first. */
  function Fold(h: seq<Entry>): Option<Snapshot> {
    if h == [] then None else
    var e, before := h[|h| - 1], Fold(h[..|h| - 1]);
    match e.change
    case DELETE => if before.None? then None else Some(before.value.(deleted := true))
    case _ => if e.newText.None? then None else Some(Snapshot(e.newText.value, e.metadata, false))
  }

  /** If entry i is an UPDATE, its old text is the new text of the entry before it. */
  ghost predicate Quotes(h: seq<Entry>, i: nat) {
    0 < i < |h| && (h[i].change == UPDATE ==>
      h[i].newText.Some? && h[i].oldText.Some? &&
      h[i].oldText == h[i - 1].newText)
  }

  /** Versions count up from one without a gap; the first entry and only the first is an ADD; an UPDATE
      quotes the text it replaces; a DELETE is the last entry. */
  ghost predicate Chained(h: seq<Entry>) {
    && (forall i | 0 <= i < |h| :: h[i].version == i + 1)
    && (forall i | 0 <= i < |h| :: h[i].change == ADD <==> i == 0)
    && (forall i: nat | 0 < i < |h| :: Quotes(h, i))
    && (forall i | 0 <= i < |h| :: h[i].change == DELETE ==> i == |h| - 1 && h[i].newText.None? && h[i].oldText.None?)
  }

  ghost predicate Faithful(h: seq<Entry>, row: Memory) {
    && |h| == row.version > 0
    && Chained(h)
    && (row.state == Deleted <==> h[|h| - 1].change == DELETE)
    && Fold(h) == Some(Snapshot(row.text, row.metadata, row.state == Deleted))
  }

  /** h alone tells the row: versions 1 to the current one without a gap, one ADD in front, every UPDATE
      quoting the text before it, a DELETE only at the end and exactly when the row is deleted; and folding
      it gives the row's text and metadata. */
  ghost predicate TellsTheRow(h: seq<Entry>, row: Memory) {
    && |h| == row.version
    && (forall i | 0 <= i < |h| :: h[i].version == i + 1 && (h[i].change == ADD <==> i == 0))
    && (forall i: nat | 0 < i < |h| :: Quotes(h, i))
    && (forall i | 0 <= i < |h| :: h[i].change == DELETE <==> i == |h| - 1 && row.state == Deleted)
    && Fold(h) == Some(Snapshot(row.text, row.metadata, row.state == Deleted))
  }

  lemma FaithfulTells(h: seq<Entry>, row: Memory)
    requires Faithful(h, row)
    ensures TellsTheRow(h, row)
  {}

  ghost predicate RowInv(s: Store, m: MemoryId) {
    if m in s.memories then
      m < s.nextMemory && Faithful(HistoryOf(s.history, m), s.memories[m]) &&
        s.memories[m].metadata.Keys !! IDENTITY_KEYS
    else
      HistoryOf(s.history, m) == []
  }

  ghost predicate HistoryInv(s: Store) {
    forall m: MemoryId :: RowInv(s, m)
  }

  lemma FirstEntryFaithful(e: Entry, row: Memory)
    requires e.change == ADD && e.version == row.version == 1 && e.newText == Some(row.text) &&
      e.metadata == row.metadata && row.state == Active
    ensures Faithful([e], row)
  {
    assert [e][..0] == [];
  }

  lemma InsertKeepsInv(s: Store, text: string, metadata: Metadata, fact: Option<FactId>)
    requires HistoryInv(s)
    ensures HistoryInv(Inserted(s, text, metadata, fact))
  {
    var t := Inserted(s, text, metadata, fact);
    FirstRow(s, text, metadata, fact);
    forall m: MemoryId | m != s.nextMemory ensures RowInv(t, m) {
      assert RowInv(s, m);
      HistoryGrows(s.history, t.history[|s.history|], m);
    }
  }

  lemma FirstRow(s: Store, text: string, metadata: Metadata, fact: Option<FactId>)
    requires RowInv(s, s.nextMemory)
    ensures RowInv(Inserted(s, text, metadata, fact), s.nextMemory)
  {
    var t := Inserted(s, text, metadata, fact);
    var id, e := s.nextMemory, t.history[|s.history|];
    HistoryGrows(s.history, e, id);
    assert HistoryOf(t.history, id) == [e];
    FirstEntryFaithful(e, t.memories[id]);
  }

  /** e is the entry an update or a delete appends when it turns `row` into `next`. */
  ghost predicate Records(row: Memory, e: Entry, next: Memory) {
    && row.state == Active && e.version == row.version + 1 == next.version
    && if e.change == UPDATE then
         && e.oldText == Some(row.text) && e.newText == Some(next.text)
         && e.metadata == next.metadata && next.state == Active
       else
         && e.change == DELETE && e.oldText.None? && e.newText.None?
         && next == row.(state := Deleted, version := next.version)
  }

  lemma FaithfulNext(h: seq<Entry>, row: Memory, e: Entry, next: Memory)
    requires Faithful(h, row) && Records(row, e, next)
    ensures Faithful(h + [e], next)
  {
    var more := h + [e];
    assert more[..|h|] == h;
    var last := h[|h| - 1];
    forall i: nat | 0 < i < |more| ensures Quotes(more, i) {
      if i < |h| { assert Quotes(h, i); }
    }
    assert last.change != DELETE;
    assert Fold(h) == if last.newText.None? then None else Some(Snapshot(last.newText.value, last.metadata, false));
  }

  lemma EntryKeepsInv(s: Store, m: MemoryId, e: Entry, next: Memory)
    requires HistoryInv(s) && m in s.memories && e.memory == m && Records(s.memories[m], e, next) &&
      next.metadata.Keys !! IDENTITY_KEYS
    ensures HistoryInv(s.(memories := s.memories[m := next], history := s.history + [e]))
  {
    var t := s.(memories := s.memories[m := next], history := s.history + [e]);
    assert RowInv(s, m);
    FaithfulNext(HistoryOf(s.history, m), s.memories[m], e, next);
    forall k: MemoryId ensures RowInv(t, k) {
      assert RowInv(s, k);
      HistoryGrows(s.history, e, k);
    }
  }

  lemma RewriteKeepsInv(s: Store, m: MemoryId, text: string, metadata: Metadata)
    requires HistoryInv(s) && IsActive(s, m) && metadata.Keys !! IDENTITY_KEYS
    ensures HistoryInv(Rewritten(s, m, text, metadata))
  {
    var row := s.memories[m];
    EntryKeepsInv(s, m, Entry(m, UPDATE, row.version + 1, Some(row.text), Some(text), metadata),
                  row.(text := text, metadata := metadata, version := row.version + 1));
  }

  lemma BurialKeepsInv(s: Store, m: MemoryId)
    requires HistoryInv(s) && IsActive(s, m)
    ensures HistoryInv(Buried(s, m))
  {
    var row := s.memories[m];
    assert RowInv(s, m);
    EntryKeepsInv(s, m, Tombstone(m, row.version + 1), row.(state := Deleted, version := row.version + 1));
  }

  ghost predicate Distinct(targets: seq<MemoryId>) {
    forall i, j | 0 <= i < j < |targets| :: targets[i] != targets[j]
  }

  /** t is s with the memories of `targets` buried: each has one version more and one DELETE entry more,
      which carries that version; every other row and history is as it was. */
  ghost predicate ExactlyBuried(s: Store, t: Store, targets: seq<MemoryId>)
    requires forall m | m in targets :: m in s.memories
  {
    && t.nextMemory == s.nextMemory && t.memories.Keys == s.memories.Keys && |t.history| == |s.history| + |targets|
    && (forall m | m in targets ::
          && t.memories[m] == s.memories[m].(state := Deleted, version := s.memories[m].version + 1)
          && HistoryOf(t.history, m) == HistoryOf(s.history, m) +
               [Entry(m, DELETE, s.memories[m].version + 1, None, None, map[])])
    && (forall m | m in s.memories && m !in targets :: t.memories[m] == s.memories[m])
    && (forall m: MemoryId | m !in targets :: HistoryOf(t.history, m) == HistoryOf(s.history, m))
  }

  lemma OneMoreBurial(s: Store, b: Store, front: seq<MemoryId>, last: MemoryId)
    requires last in s.memories && last !in front && (forall m | m in front :: m in s.memories)
    requires ExactlyBuried(s, b, front)
    ensures ExactlyBuried(s, Buried(b, last), front + [last])
  {
    var t, e := Buried(b, last), Tombstone(last, s.memories[last].version + 1);
    assert forall m :: m in front + [last] <==> m in front || m == last;
    assert b.memories[last] == s.memories[last];
    assert t.history == b.history + [e];
    forall m: MemoryId ensures HistoryOf(t.history, m) == HistoryOf(b.history, m) + if m == last then [e] else [] {
      HistoryGrows(b.history, e, m);
    }
  }

  lemma {:induction false} EachBuriedOnce(s: Store, targets: seq<MemoryId>)
    requires Distinct(targets) && forall m | m in targets :: m in s.memories
    ensures ExactlyBuried(s, BuriedAll(s, targets), targets)
    decreases |targets|
  {
    if targets != [] {
      var front, last := targets[..|targets| - 1], targets[|targets| - 1];
      assert targets == front + [last] && last in targets;
      assert forall m | m in front :: m in targets;
      EachBuriedOnce(s, front);
      OneMoreBurial(s, BuriedAll(s, front), front, last);
    }
  }

  lemma {:induction false} BurialsExact(s: Store, targets: seq<MemoryId>)
    requires HistoryInv(s) && Distinct(targets) && forall m | m in targets :: m in s.memories && IsActive(s, m)
    ensures HistoryInv(BuriedAll(s, targets)) && ExactlyBuried(s, BuriedAll(s, targets), targets)
    decreases |targets|
  {
    if targets != [] {
      var front, last := targets[..|targets| - 1], targets[|targets| - 1];
      assert targets == front + [last] && last in targets;
      assert forall m | m in front :: m in targets;
      BurialsExact(s, front);
      BurialKeepsInv(BuriedAll(s, front), last);
    }
    EachBuriedOnce(s, targets);
  }
}
