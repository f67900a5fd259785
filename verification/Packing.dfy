/** Dreaming over pending documents: each document is cut into windows, the windows of a scope are packed
    into bundles, and every bundle is one call of the language model. */
module Packing {
  import opened Common
  import opened Text

  type DocId = nat

  datatype Scope = Scope(tag: string, org: Option<nat>, project: Option<nat>)

  datatype Doc = Doc(id: DocId, scope: Scope, content: string)

  datatype Window = Window(text: string, doc: DocId)

  const BUDGET := 8000

  // ---------------------------------------------------------------- windows

  function TextOf(doc: Doc): string {
    if doc.content == "" then " " else doc.content
  }

  function CutUp(text: string, doc: DocId): seq<Window> {
    if text == "" then []
    else if |text| <= BUDGET then [Window(text, doc)]
    else [Window(text[..BUDGET], doc)] + CutUp(text[BUDGET..], doc)
  }

  function WindowsOf(docs: seq<Doc>): seq<Window> {
    if docs == [] then [] else
    WindowsOf(docs[..|docs| - 1]) + CutUp(TextOf(docs[|docs| - 1]), docs[|docs| - 1].id)
  }

  function Texts(windows: seq<Window>): seq<string> {
    seq(|windows|, i requires 0 <= i < |windows| => windows[i].text)
  }

  /** The windows of a text put together are the text; none is empty or larger than the budget. */
  lemma {:induction false} WindowsAreTheText(text: string, doc: DocId)
    ensures Concat(Texts(CutUp(text, doc))) == text
    ensures forall w | w in CutUp(text, doc) :: w.doc == doc && 0 < |w.text| <= BUDGET
    ensures text != "" ==> CutUp(text, doc) != []
  {
    if text != "" {
      if |text| <= BUDGET {
        ConcatFront(text, []);
        assert Texts(CutUp(text, doc)) == [text] + [];
      } else {
        WindowsAreTheText(text[BUDGET..], doc);
        ConcatFront(text[..BUDGET], Texts(CutUp(text[BUDGET..], doc)));
        assert Texts(CutUp(text, doc)) == [text[..BUDGET]] + Texts(CutUp(text[BUDGET..], doc));
      }
    }
  }

  /** Window after window of 8000 characters; the last takes the rest. */
  ghost predicate AreWindows(text: string, doc: DocId, windows: seq<Window>) {
    && windows != [] && 8000 * (|windows| - 1) < |text| <= 8000 * |windows|
    && forall k: nat | k < |windows| :: IsWindow(text, doc, windows[k], 8000 * k)
  }

  ghost predicate IsWindow(text: string, doc: DocId, w: Window, from: nat) {
    && from <= from + |w.text| <= |text| && w == Window(text[from..from + |w.text|], doc)
    && (|w.text| == 8000 || from + |w.text| == |text|)
  }

  lemma WindowBehind(text: string, doc: DocId, w: Window, from: nat)
    requires |text| >= 8000 && IsWindow(text[8000..], doc, w, from)
    ensures IsWindow(text, doc, w, 8000 + from)
  {
    var rest, to := text[8000..], from + |w.text|;
    assert forall i | from <= i < to :: rest[i] == text[8000 + i];
    assert rest[from..to] == text[8000 + from..8000 + to];
  }

  lemma {:induction false} CutUpIs(text: string, doc: DocId)
    requires text != ""
    ensures AreWindows(text, doc, CutUp(text, doc))
  {
    var windows := CutUp(text, doc);
    if |text| <= BUDGET {
      assert text[0..|text|] == text;
    } else {
      CutUpIs(text[BUDGET..], doc);
      var rest := CutUp(text[BUDGET..], doc);
      assert IsWindow(text, doc, windows[0], 0);
      forall k: nat | k < |windows| ensures IsWindow(text, doc, windows[k], 8000 * k) {
        if k > 0 {
          assert IsWindow(text[BUDGET..], doc, rest[k - 1], 8000 * (k - 1));
          WindowBehind(text, doc, rest[k - 1], 8000 * (k - 1));
        }
      }
    }
  }

  /** The windows of several documents, one document after the other; an empty one counts as a blank. */
  ghost predicate AreWindowsOf(docs: seq<Doc>, parts: seq<seq<Window>>, windows: seq<Window>) {
    && |parts| == |docs| && Flat(parts) == windows
    && forall i | 0 <= i < |docs| ::
         AreWindows(if docs[i].content == "" then " " else docs[i].content, docs[i].id, parts[i])
  }

  lemma OneMoreDoc(docs: seq<Doc>, doc: Doc, parts: seq<seq<Window>>, cut: seq<Window>, windows: seq<Window>)
    requires AreWindowsOf(docs, parts, windows)
    requires AreWindows(if doc.content == "" then " " else doc.content, doc.id, cut)
    ensures AreWindowsOf(docs + [doc], parts + [cut], windows + cut)
  {
    FlatGrows(parts, cut);
  }

  lemma {:induction false} WindowsOfIs(docs: seq<Doc>) returns (parts: seq<seq<Window>>)
    ensures AreWindowsOf(docs, parts, WindowsOf(docs))
  {
    if docs == [] {
      parts := [];
    } else {
      var front, last := docs[..|docs| - 1], docs[|docs| - 1];
      var cut := CutUp(TextOf(last), last.id);
      parts := WindowsOfIs(front);
      CutUpIs(TextOf(last), last.id);
      OneMoreDoc(front, last, parts, cut, WindowsOf(front));
      assert front + [last] == docs;
      parts := parts + [cut];
    }
  }

  function DocsOf(windows: seq<Window>): set<DocId> {
    set w | w in windows :: w.doc
  }

  function Ids(docs: seq<Doc>): set<DocId> {
    set d | d in docs :: d.id
  }

  lemma {:induction false} WindowsFit(docs: seq<Doc>)
    ensures forall w | w in WindowsOf(docs) :: 0 < |w.text| <= BUDGET
  {
    if docs != [] {
      WindowsFit(docs[..|docs| - 1]);
      WindowsAreTheText(TextOf(docs[|docs| - 1]), docs[|docs| - 1].id);
    }
  }

  lemma DocsOfCut(text: string, doc: DocId)
    requires text != ""
    ensures DocsOf(CutUp(text, doc)) == {doc}
  {
    WindowsAreTheText(text, doc);
    assert CutUp(text, doc)[0] in CutUp(text, doc);
  }

  /** Every document has a window, an empty one too. */
  lemma {:induction false} EveryDocHasWindows(docs: seq<Doc>)
    ensures DocsOf(WindowsOf(docs)) == Ids(docs)
  {
    if docs != [] {
      var front, last := docs[..|docs| - 1], docs[|docs| - 1];
      var cut := CutUp(TextOf(last), last.id);
      EveryDocHasWindows(front);
      DocsOfCut(TextOf(last), last.id);
      assert DocsOf(WindowsOf(front) + cut) == DocsOf(WindowsOf(front)) + DocsOf(cut);
      assert docs == front + [last];
      assert Ids(docs) == Ids(front) + {last.id};
    }
  }

  // ---------------------------------------------------------------- bundles

  function Used(bundle: seq<Window>): nat {
    if bundle == [] then 0 else Used(bundle[..|bundle| - 1]) + |bundle[|bundle| - 1].text|
  }

  function Flat(bundles: seq<seq<Window>>): seq<Window> {
    if bundles == [] then [] else Flat(bundles[..|bundles| - 1]) + bundles[|bundles| - 1]
  }

  lemma {:induction false} UsedSplits(a: seq<Window>, b: seq<Window>)
    ensures Used(a + b) == Used(a) + Used(b)
    decreases |b|
  {
    if b == [] {
      assert a + b == a;
    } else {
      var front, last := b[..|b| - 1], b[|b| - 1];
      assert (a + b)[..|a + b| - 1] == a + front;
      UsedSplits(a, front);
    }
  }

  lemma FlatGrows(bundles: seq<seq<Window>>, b: seq<Window>)
    ensures Flat(bundles + [b]) == Flat(bundles) + b
  {
    assert (bundles + [b])[..|bundles|] == bundles;
  }

  /** Bundle k + 1 starts with a window for which bundle k had no room. */
  ghost predicate NoRoom(bundles: seq<seq<Window>>, k: nat) {
    k + 1 < |bundles| && bundles[k + 1] != [] && Used(bundles[k]) + |bundles[k + 1][0].text| > BUDGET
  }

  /** Next-fit: bundles are within the budget, and one is closed only when the next window does not fit. */
  ghost predicate Packed(bundles: seq<seq<Window>>) {
    && (forall i | 0 <= i < |bundles| :: bundles[i] != [] && Used(bundles[i]) <= BUDGET)
    && (forall k: nat | k + 1 < |bundles| :: NoRoom(bundles, k))
  }

  lemma PackedGrows(bundles: seq<seq<Window>>, b: seq<Window>)
    requires Packed(bundles) && b != [] && Used(b) <= BUDGET
    requires bundles != [] ==> Used(bundles[|bundles| - 1]) + |b[0].text| > BUDGET
    ensures Packed(bundles + [b])
  {
    var more := bundles + [b];
    forall k: nat | k + 1 < |more| ensures NoRoom(more, k) {
      if k + 1 < |bundles| {
        assert NoRoom(bundles, k) && more[k] == bundles[k] && more[k + 1] == bundles[k + 1];
      } else {
        assert more[k] == bundles[|bundles| - 1] && more[k + 1] == b;
      }
    }
  }

  lemma FirstIsUsed(b: seq<Window>)
    requires b != []
    ensures |b[0].text| <= Used(b)
  {
    assert b == [b[0]] + b[1..];
    UsedSplits([b[0]], b[1..]);
    assert [b[0]][..0] == [];
  }

  lemma PackedFront(bundles: seq<seq<Window>>, n: nat)
    requires Packed(bundles) && n <= |bundles|
    ensures Packed(bundles[..n])
  {
    forall k: nat | k + 1 < n ensures NoRoom(bundles[..n], k) {
      assert NoRoom(bundles, k);
    }
  }

  /** Two neighbours together exceed the budget, so there are fewer than 2 * total / budget + 1 bundles. */
  lemma {:induction false} NextFitBound(bundles: seq<seq<Window>>)
    requires Packed(bundles) && bundles != [] && forall w | w in Flat(bundles) :: |w.text| > 0
    ensures BUDGET * (|bundles| - 1) < 2 * Used(Flat(bundles))
  {
    var n := |bundles|;
    var front, last := bundles[..n - 1], bundles[n - 1];
    FirstIsUsed(last);
    UsedSplits(Flat(front), last);
    assert last[0] in Flat(bundles);
    if n > 1 {
      assert NoRoom(bundles, n - 2);
      var rest := bundles[..n - 2];
      assert front[..n - 2] == rest && front[n - 2] == bundles[n - 2];
      UsedSplits(Flat(rest), bundles[n - 2]);
      if n > 2 {
        PackedFront(bundles, n - 2);
        assert forall w | w in Flat(rest) :: w in Flat(front) && w in Flat(bundles);
        NextFitBound(rest);
      }
    }
  }

  // ---------------------------------------------------------------- calls

  const SEPARATOR := "\n\n---\n\n"

  function Join(texts: seq<string>): string {
    if texts == [] then ""
    else if |texts| == 1 then texts[0]
    else Join(texts[..|texts| - 1]) + SEPARATOR + texts[|texts| - 1]
  }

  function Prompt(bundle: seq<Window>): string {
    Join(Texts(bundle))
  }

  /** extract_facts passes on only so much of a prompt. */
  function Seen(prompt: string): (seen: string)
    ensures seen <= prompt && |seen| == if |prompt| <= 8000 then |prompt| else 8000
  {
    prompt[..Min(|prompt|, BUDGET)]
  }

  lemma {:induction false} PromptLength(bundle: seq<Window>)
    requires bundle != []
    ensures |Prompt(bundle)| == Used(bundle) + |SEPARATOR| * (|bundle| - 1)
  {
    var n := |bundle|;
    assert Texts(bundle)[..n - 1] == Texts(bundle[..n - 1]);
    if n > 1 {
      PromptLength(bundle[..n - 1]);
    } else {
      assert bundle[..0] == [];
    }
  }

  /** Window i stands at `from` in the prompt, with a separator in front unless it is the first. */
  ghost predicate ShowsWindow(prompt: string, w: Window, i: nat, from: nat) {
    && from + |w.text| <= |prompt| && prompt[from..from + |w.text|] == w.text
    && (i > 0 ==> from >= 7 && prompt[from - 7..from] == "\n\n---\n\n")
  }

  lemma ShowsOn(prompt: string, more: string, w: Window, i: nat, from: nat)
    requires ShowsWindow(prompt, w, i, from) && prompt <= more
    ensures ShowsWindow(more, w, i, from)
  {
    assert more[from..from + |w.text|] == prompt[from..from + |w.text|];
    if i > 0 { assert more[from - 7..from] == prompt[from - 7..from]; }
  }

  lemma PromptGrows(bundle: seq<Window>)
    requires |bundle| > 1
    ensures var front := bundle[..|bundle| - 1];
      Prompt(bundle) == Prompt(front) + SEPARATOR + bundle[|bundle| - 1].text
  {
    assert Texts(bundle)[..|bundle| - 1] == Texts(bundle[..|bundle| - 1]);
  }

  /** The prompt is the windows in order, a separator between each two, and nothing else. */
  lemma {:induction false} PromptShows(bundle: seq<Window>, i: nat) returns (from: nat)
    requires i < |bundle|
    ensures from == Used(bundle[..i]) + 7 * i && ShowsWindow(Prompt(bundle), bundle[i], i, from)
    ensures |Prompt(bundle)| == Used(bundle) + 7 * (|bundle| - 1)
    decreases |bundle|
  {
    PromptLength(bundle);
    assert |SEPARATOR| == 7;
    if |bundle| == 1 {
      assert bundle[..0] == [];
      from := 0;
    } else if i < |bundle| - 1 {
      from := PromptShows(bundle[..|bundle| - 1], i);
      ShowsFront(bundle, i, from);
    } else {
      from := ShowsLast(bundle);
    }
  }

  lemma ShowsFront(bundle: seq<Window>, i: nat, from: nat)
    requires i < |bundle| - 1
    requires ShowsWindow(Prompt(bundle[..|bundle| - 1]), bundle[i], i, from)
    ensures ShowsWindow(Prompt(bundle), bundle[i], i, from) && bundle[..|bundle| - 1][..i] == bundle[..i]
  {
    PromptGrows(bundle);
    ShowsOn(Prompt(bundle[..|bundle| - 1]), Prompt(bundle), bundle[i], i, from);
  }

  lemma ShowsLast(bundle: seq<Window>) returns (from: nat)
    requires |bundle| > 1
    ensures var i: nat := |bundle| - 1;
      from == Used(bundle[..i]) + 7 * i && ShowsWindow(Prompt(bundle), bundle[i], i, from)
  {
    var front := bundle[..|bundle| - 1];
    assert |SEPARATOR| == 7;
    PromptGrows(bundle);
    PromptLength(front);
    BehindSeparator(Prompt(front), bundle[|bundle| - 1], |bundle| - 1);
    from := |Prompt(front)| + 7;
  }

  lemma BehindSeparator(front: string, w: Window, i: nat)
    ensures ShowsWindow(front + SEPARATOR + w.text, w, i, |front| + 7)
  {
    assert |SEPARATOR| == 7;
    var whole := front + SEPARATOR + w.text;
    assert whole[|front|..|front| + 7] == SEPARATOR;
    assert whole[|front| + 7..|front| + 7 + |w.text|] == w.text;
  }

  /** The separators are not counted in the budget: the model sees a whole bundle exactly when they fit in
      what the windows leave. */
  lemma SeenWholeIff(bundle: seq<Window>)
    requires bundle != []
    ensures Seen(Prompt(bundle)) == Prompt(bundle) <==> Used(bundle) + 7 * (|bundle| - 1) <= BUDGET
  {
    PromptLength(bundle);
    assert |SEPARATOR| == 7;
    var p := Prompt(bundle);
    assert |p| <= BUDGET ==> p[..|p|] == p;
    assert |p| > BUDGET ==> |Seen(p)| < |p|;
  }

  /** Two windows of 4000 characters fit the budget, and lose the last seven. */
  lemma SeparatorsCutOff(a: Window, b: Window)
    requires |a.text| == |b.text| == 4000
    ensures Packed([[a, b]]) && |Prompt([a, b])| == 8007 && Seen(Prompt([a, b])) != Prompt([a, b])
  {
    assert [a, b] == [a] + [b] && [a][..0] == [] == [b][..0];
    UsedSplits([a], [b]);
    PromptLength([a, b]);
    SeenWholeIff([a, b]);
  }

  function Prompts(bundles: seq<seq<Window>>): seq<string> {
    seq(|bundles|, i requires 0 <= i < |bundles| => Seen(Prompt(bundles[i])))
  }

  // ---------------------------------------------------------------- scopes

  function OfScope(rows: seq<Doc>, scope: Scope): seq<Doc> {
    if rows == [] then [] else
    var front, last := OfScope(rows[..|rows| - 1], scope), rows[|rows| - 1];
    if last.scope == scope then front + [last] else front
  }

  /** `at` lists in order exactly the rows of the scope. */
  ghost predicate AreOfScope(rows: seq<Doc>, at: seq<nat>, scope: Scope, docs: seq<Doc>) {
    && (forall m, n | 0 <= m < n < |at| :: at[m] < at[n])
    && (forall i: nat :: i in at <==> i < |rows| && rows[i].scope == scope)
    && |docs| == |at| && (forall n | 0 <= n < |at| :: at[n] < |rows| && docs[n] == rows[at[n]])
  }

  lemma OneMoreRow(rows: seq<Doc>, at: seq<nat>, scope: Scope, docs: seq<Doc>, row: Doc)
    requires AreOfScope(rows, at, scope, docs)
    ensures if row.scope == scope then AreOfScope(rows + [row], at + [|rows|], scope, docs + [row])
      else AreOfScope(rows + [row], at, scope, docs)
  {
    var more := at + [|rows|];
    assert forall m | 0 <= m < |at| :: at[m] in at;
    assert forall i: nat :: i in more <==> i in at || i == |rows|;
  }

  lemma {:induction false} OfScopeIs(rows: seq<Doc>, scope: Scope) returns (at: seq<nat>)
    ensures AreOfScope(rows, at, scope, OfScope(rows, scope))
  {
    if rows == [] {
      at := [];
    } else {
      var front, last := rows[..|rows| - 1], rows[|rows| - 1];
      at := OfScopeIs(front, scope);
      OneMoreRow(front, at, scope, OfScope(front, scope), last);
      assert front + [last] == rows;
      if last.scope == scope { at := at + [|front|]; }
    }
  }

  /** Scope n comes up first in some row, and all rows before that are of scopes in front of it. */
  ghost predicate ComesUp(rows: seq<Doc>, order: seq<Scope>, n: nat) {
    n < |order| && exists r: nat | r < |rows| ::
      rows[r].scope == order[n] && forall i | 0 <= i < r :: rows[i].scope in order[..n]
  }

  lemma StillComesUp(rows: seq<Doc>, order: seq<Scope>, n: nat, row: Doc, more: seq<Scope>)
    requires ComesUp(rows, order, n) && order <= more
    ensures ComesUp(rows + [row], more, n)
  {
    var r: nat :| r < |rows| && rows[r].scope == order[n] && forall i | 0 <= i < r :: rows[i].scope in order[..n];
    assert (rows + [row])[r] == rows[r] && more[..n] == order[..n];
    assert forall i | 0 <= i < r :: (rows + [row])[i] == rows[i];
  }

  ghost predicate Distinct(scopes: seq<Scope>) {
    forall i, j | 0 <= i < j < |scopes| :: scopes[i] != scopes[j]
  }

  lemma ScopesComeUp(rows: seq<Doc>, order: seq<Scope>, row: Doc, more: seq<Scope>)
    requires (forall k: nat | k < |order| :: ComesUp(rows, order, k)) && forall d | d in rows :: d.scope in order
    requires more == order || (more == order + [row.scope] && row.scope !in order)
    ensures forall k: nat | k < |more| :: ComesUp(rows + [row], more, k)
  {
    forall k: nat | k < |more| ensures ComesUp(rows + [row], more, k) {
      if k < |order| {
        StillComesUp(rows, order, k, row, more);
      } else {
        assert (rows + [row])[|rows|] == row && more[..k] == order;
        assert forall i | 0 <= i < |rows| :: (rows + [row])[i] == rows[i] && rows[i] in rows;
      }
    }
  }

  /** by_scope: the rows of every scope in order, the scopes in the order they first come up. */
  method Group(rows: seq<Doc>) returns (order: seq<Scope>, groups: map<Scope, seq<Doc>>)
    ensures Distinct(order) && (forall s :: s in order <==> s in groups) && (forall d | d in rows :: d.scope in groups)
    ensures forall s | s in groups :: groups[s] == OfScope(rows, s)
    ensures forall n: nat | n < |order| :: ComesUp(rows, order, n)
  {
    order, groups := [], map[];
    for n := 0 to |rows|
      invariant Distinct(order) && (forall s :: s in order <==> s in groups) &&
        (forall d | d in rows[..n] :: d.scope in groups)
      invariant forall s | s in groups :: groups[s] == OfScope(rows[..n], s)
      invariant forall s | s !in groups :: OfScope(rows[..n], s) == []
      invariant forall k: nat | k < |order| :: ComesUp(rows[..n], order, k)
    {
      var row := rows[n];
      ghost var before := order;
      assert rows[..n + 1][..n] == rows[..n] && rows[..n + 1] == rows[..n] + [row];
      if row.scope !in groups {
        order, groups := order + [row.scope], groups[row.scope := []];
      }
      groups := groups[row.scope := groups[row.scope] + [row]];
      ScopesComeUp(rows[..n], before, row, order);
    }
    assert rows[..|rows|] == rows;
  }

  /** The bundles of every scope: next-fit over the windows of the scope's documents, in order. */
  ghost predicate AllPacked(rows: seq<Doc>, order: seq<Scope>, bundles: seq<seq<seq<Window>>>) {
    && |bundles| <= |order|
    && forall i | 0 <= i < |bundles| :: Packed(bundles[i]) && Flat(bundles[i]) == WindowsOf(OfScope(rows, order[i]))
  }

  function AllPrompts(bundles: seq<seq<seq<Window>>>): seq<string> {
    if bundles == [] then [] else AllPrompts(bundles[..|bundles| - 1]) + Prompts(bundles[|bundles| - 1])
  }

  /** One prompt for each bundle, in the order of the scopes and of the bundles in each. */
  lemma {:induction false} PromptOfBundle(bundles: seq<seq<seq<Window>>>, i: nat, k: nat)
    requires i < |bundles| && k < |bundles[i]|
    ensures |AllPrompts(bundles)| == Calls(bundles)
    ensures Calls(bundles[..i]) + k < Calls(bundles)
    ensures AllPrompts(bundles)[Calls(bundles[..i]) + k] == Seen(Prompt(bundles[i][k]))
    decreases |bundles|
  {
    var n := |bundles| - 1;
    var front := bundles[..n];
    PromptsCount(front);
    if i < n {
      PromptOfBundle(front, i, k);
      assert front[..i] == bundles[..i];
    }
  }

  lemma {:induction false} PromptsCount(bundles: seq<seq<seq<Window>>>)
    ensures |AllPrompts(bundles)| == Calls(bundles)
  {
    if bundles != [] { PromptsCount(bundles[..|bundles| - 1]); }
  }

  /** What dreaming leaves behind. */
  datatype Log = Log(dreamed: set<DocId>, prompts: seq<string>)

  function Told(log: Log, bundle: seq<Window>): Log {
    Log(log.dreamed + DocsOf(bundle), log.prompts + [Seen(Prompt(bundle))])
  }

  /** All bundles told, one after the other. */
  function ToldAll(log: Log, bundles: seq<seq<Window>>): Log {
    if bundles == [] then log else Told(ToldAll(log, bundles[..|bundles| - 1]), bundles[|bundles| - 1])
  }

  lemma ToldGrows(log: Log, bundles: seq<seq<Window>>, b: seq<Window>)
    ensures ToldAll(log, bundles + [b]) == Told(ToldAll(log, bundles), b)
  {
    assert (bundles + [b])[..|bundles|] == bundles;
  }

  lemma {:induction false} ToldIsAll(log: Log, bundles: seq<seq<Window>>)
    ensures ToldAll(log, bundles) == Log(log.dreamed + DocsOf(Flat(bundles)), log.prompts + Prompts(bundles))
  {
    if bundles != [] {
      var front, last := bundles[..|bundles| - 1], bundles[|bundles| - 1];
      ToldIsAll(log, front);
      assert DocsOf(Flat(bundles)) == DocsOf(Flat(front)) + DocsOf(last);
      assert Prompts(bundles) == Prompts(front) + [Seen(Prompt(last))];
    }
  }

  /** The documents marked as dreamed, and the prompts the language model was given. The facts it answers
      with are stored one by one. */
  class Dreamer {
    var dreamed: set<DocId>
    var prompts: seq<string>

    constructor ()
      ensures dreamed == {} && prompts == []
    {
      dreamed, prompts := {}, [];
    }

    function State(): Log
      reads this
    {
      Log(dreamed, prompts)
    }

    method DreamDocument(doc: Doc)
      modifies this
      ensures dreamed == old(dreamed) + {doc.id} && prompts == old(prompts) + [Seen(doc.content)]
    {
      prompts := prompts + [Seen(doc.content)];
      dreamed := dreamed + {doc.id};
    }

    method DreamBundle(bundle: seq<Window>) returns (calls: nat)
      modifies this
      ensures State() == Told(old(State()), bundle) && calls == 1
    {
      prompts := prompts + [Seen(Prompt(bundle))];
      dreamed := dreamed + set w | w in bundle :: w.doc;
      calls := 1;
    }

    /** One bundle more, behind those that have been told. */
    method NextCall(bundle: seq<Window>, ghost log: Log, ghost bundles: seq<seq<Window>>) returns (calls: nat)
      requires State() == ToldAll(log, bundles)
      modifies this
      ensures State() == ToldAll(log, bundles + [bundle]) && calls == 1
    {
      calls := DreamBundle(bundle);
      ToldGrows(log, bundles, bundle);
    }

    /** A bundle that has no room for window n is told. */
    method CloseBundle(bundle: seq<Window>, used: nat, ghost log: Log, ghost bundles: seq<seq<Window>>,
        ghost windows: seq<Window>, ghost n: nat) returns (calls: nat)
      requires State() == ToldAll(log, bundles) && Filling(bundles, bundle, used, windows, n)
      requires n < |windows| && bundle != [] && used + |windows[n].text| > BUDGET >= |windows[n].text|
      modifies this
      ensures State() == ToldAll(log, bundles + [bundle]) && calls == 1
      ensures Filling(bundles + [bundle], [windows[n]], |windows[n].text|, windows, n + 1)
    {
      NextBundle(bundles, bundle, used, windows, n);
      calls := NextCall(bundle, log, bundles);
    }

    /** What is left in the last bundle is told. */
    method LastCall(bundle: seq<Window>, ghost used: nat, ghost log: Log, ghost bundles: seq<seq<Window>>,
        ghost windows: seq<Window>) returns (calls: nat, ghost all: seq<seq<Window>>)
      requires State() == ToldAll(log, bundles) && Filling(bundles, bundle, used, windows, |windows|)
      modifies this
      ensures Packed(all) && Flat(all) == windows && |all| == |bundles| + calls
      ensures State() == ToldAll(log, all)
    {
      all := LastBundle(bundles, bundle, used, windows);
      calls := 0;
      if bundle != [] {
        calls := NextCall(bundle, log, bundles);
      }
    }

    /** The windows of some documents. */
    method CutAll(docs: seq<Doc>) returns (windows: seq<Window>)
      ensures windows == WindowsOf(docs)
    {
      windows := [];
      for n := 0 to |docs|
        invariant windows == WindowsOf(docs[..n])
      {
        var text, i := TextOf(docs[n]), 0;
        ghost var before := windows;
        while i < |text|
          invariant 0 <= i <= |text| && windows + CutUp(text[i..], docs[n].id) == before + CutUp(text, docs[n].id)
        {
          var end := Min(i + BUDGET, |text|);
          OneWindow(text, i, end, docs[n].id, windows);
          windows := windows + [Window(text[i..end], docs[n].id)];
          i := end;
        }
        assert docs[..n + 1][..n] == docs[..n];
      }
      assert docs[..|docs|] == docs;
    }

    /** The packing loop over one scope's windows. */
    method PackWindows(windows: seq<Window>) returns (calls: nat, ghost bundles: seq<seq<Window>>)
      requires forall w | w in windows :: |w.text| <= BUDGET
      modifies this
      ensures Packed(bundles) && Flat(bundles) == windows && calls == |bundles|
      ensures State() == ToldAll(old(State()), bundles)
    {
      calls, bundles := 0, [];
      var bundle: seq<Window>, used: nat := [], 0;
      ghost var log := State();
      for n := 0 to |windows|
        invariant Filling(bundles, bundle, used, windows, n) && calls == |bundles|
        invariant State() == ToldAll(log, bundles)
      {
        var window := windows[n];
        if bundle != [] && used + |window.text| > BUDGET {
          var call := CloseBundle(bundle, used, log, bundles, windows, n);
          calls, bundles := calls + call, bundles + [bundle];
          bundle, used := [window], |window.text|;
        } else {
          WindowJoins(bundles, bundle, used, windows, n);
          bundle, used := bundle + [window], used + |window.text|;
        }
      }
      var call;
      call, bundles := LastCall(bundle, used, log, bundles, windows);
      calls := calls + call;
    }
  }

  lemma {:induction false} RowsOfScope(rows: seq<Doc>, scope: Scope)
    ensures forall d :: d in OfScope(rows, scope) <==> d in rows && d.scope == scope
  {
    if rows != [] {
      var front, last := rows[..|rows| - 1], rows[|rows| - 1];
      assert rows == front + [last];
      RowsOfScope(front, scope);
    }
  }

  /** The windows read so far are in closed bundles and the one being filled, for whose first window the last
      closed bundle had no room. */
  ghost predicate Filling(bundles: seq<seq<Window>>, bundle: seq<Window>, used: nat, windows: seq<Window>, n: nat) {
    && n <= |windows| && Packed(bundles) && used == Used(bundle) <= BUDGET && Flat(bundles) + bundle == windows[..n]
    && (bundles != [] ==> bundle != [] && Used(bundles[|bundles| - 1]) + |bundle[0].text| > BUDGET)
  }

  lemma WindowJoins(bundles: seq<seq<Window>>, bundle: seq<Window>, used: nat, windows: seq<Window>, n: nat)
    requires Filling(bundles, bundle, used, windows, n) && n < |windows| &&
      (bundle == [] ==> |windows[n].text| <= BUDGET)
    requires bundle == [] || used + |windows[n].text| <= BUDGET
    ensures Filling(bundles, bundle + [windows[n]], used + |windows[n].text|, windows, n + 1)
  {
    UsedSplits(bundle, [windows[n]]);
    assert [windows[n]][..0] == [];
    assert Flat(bundles) + (bundle + [windows[n]]) == Flat(bundles) + bundle + [windows[n]] == windows[..n + 1];
  }

  lemma NextBundle(bundles: seq<seq<Window>>, bundle: seq<Window>, used: nat, windows: seq<Window>, n: nat)
    requires Filling(bundles, bundle, used, windows, n) && n < |windows| && bundle != []
    requires used + |windows[n].text| > BUDGET >= |windows[n].text|
    ensures Filling(bundles + [bundle], [windows[n]], |windows[n].text|, windows, n + 1)
  {
    BundleClosed(bundles, bundle);
    assert [windows[n]][..0] == [];
    assert windows[..n + 1] == windows[..n] + [windows[n]];
  }

  lemma LastBundle(bundles: seq<seq<Window>>, bundle: seq<Window>, used: nat, windows: seq<Window>)
    returns (all: seq<seq<Window>>)
    requires Filling(bundles, bundle, used, windows, |windows|)
    ensures all == (if bundle == [] then bundles else bundles + [bundle]) && Packed(all) && Flat(all) == windows
  {
    assert windows[..|windows|] == windows;
    if bundle == [] {
      all := bundles;
      assert Flat(bundles) + [] == Flat(bundles);
    } else {
      all := bundles + [bundle];
      BundleClosed(bundles, bundle);
    }
  }

  lemma OneWindow(text: string, i: nat, end: nat, doc: DocId, windows: seq<Window>)
    requires i < |text| && end == Min(i + BUDGET, |text|)
    ensures windows + CutUp(text[i..], doc) == windows + [Window(text[i..end], doc)] + CutUp(text[end..], doc)
  {
    var rest := text[i..];
    assert CutUp(rest, doc) == [Window(text[i..end], doc)] + CutUp(text[end..], doc) by {
      if |rest| <= BUDGET {
        assert text[i..end] == rest && text[end..] == "";
      } else {
        assert rest[..BUDGET] == text[i..end] && rest[BUDGET..] == text[end..];
      }
    }
  }

  lemma BundleClosed(bundles: seq<seq<Window>>, b: seq<Window>)
    requires Packed(bundles) && b != [] && Used(b) <= BUDGET
    requires bundles != [] ==> Used(bundles[|bundles| - 1]) + |b[0].text| > BUDGET
    ensures Packed(bundles + [b]) && Flat(bundles + [b]) == Flat(bundles) + b
  {
    PackedGrows(bundles, b);
    FlatGrows(bundles, b);
  }

  function Calls(bundles: seq<seq<seq<Window>>>): nat {
    if bundles == [] then 0 else Calls(bundles[..|bundles| - 1]) + |bundles[|bundles| - 1]|
  }

  /** Scope after scope told. */
  function ToldScopes(log: Log, bundles: seq<seq<seq<Window>>>): Log {
    if bundles == [] then log else ToldAll(ToldScopes(log, bundles[..|bundles| - 1]), bundles[|bundles| - 1])
  }

  lemma ScopeDone(log: Log, rows: seq<Doc>, order: seq<Scope>, bundles: seq<seq<seq<Window>>>, b: seq<seq<Window>>)
    requires AllPacked(rows, order, bundles) && |bundles| < |order|
    requires Packed(b) && Flat(b) == WindowsOf(OfScope(rows, order[|bundles|]))
    ensures AllPacked(rows, order, bundles + [b]) && Calls(bundles + [b]) == Calls(bundles) + |b|
    ensures ToldScopes(log, bundles + [b]) == ToldAll(ToldScopes(log, bundles), b)
  {
    assert (bundles + [b])[..|bundles|] == bundles;
  }

  /** Once every scope is told, every row is marked, and nothing else. */
  lemma {:induction false} ScopesTold(log: Log, rows: seq<Doc>, order: seq<Scope>, bundles: seq<seq<seq<Window>>>)
    requires AllPacked(rows, order, bundles)
    ensures var told := ToldScopes(log, bundles);
      && told.prompts == log.prompts + AllPrompts(bundles)
      && forall id :: id in told.dreamed <==> id in log.dreamed || MarkedUpTo(rows, order, |bundles|, id)
    decreases |bundles|
  {
    if bundles != [] {
      var n := |bundles| - 1;
      var front, last := bundles[..n], bundles[n];
      ScopesTold(log, rows, order, front);
      ToldIsAll(ToldScopes(log, front), last);
      EveryDocHasWindows(OfScope(rows, order[n]));
      assert DocsOf(Flat(last)) == Ids(OfScope(rows, order[n]));
      forall id ensures MarkedUpTo(rows, order, n + 1, id) <==>
        MarkedUpTo(rows, order, n, id) || id in Ids(OfScope(rows, order[n]))
      {
        MarkedOneMore(rows, order, n, id);
      }
    }
  }

  ghost predicate MarkedUpTo(rows: seq<Doc>, order: seq<Scope>, n: nat, id: DocId)
    requires n <= |order|
  {
    exists d | d in rows :: d.scope in order[..n] && d.id == id
  }

  lemma MarkedOneMore(rows: seq<Doc>, order: seq<Scope>, n: nat, id: DocId)
    requires n < |order|
    ensures MarkedUpTo(rows, order, n + 1, id) <==> MarkedUpTo(rows, order, n, id) || id in Ids(OfScope(rows, order[n]))
  {
    RowsOfScope(rows, order[n]);
    assert order[..n + 1] == order[..n] + [order[n]];
  }

  datatype Mode = Instant | Dynamic

  /** dream_pending on the rows its query selects, oldest first. */
  method DreamPending(mode: Mode, rows: seq<Doc>, dreamer: Dreamer)
    returns (calls: nat, ghost order: seq<Scope>, ghost bundles: seq<seq<seq<Window>>>)
    modifies dreamer
    ensures dreamer.dreamed == old(dreamer.dreamed) + Ids(rows)
    ensures mode == Instant ==> calls == |rows|
    ensures mode == Instant ==>
      dreamer.prompts == old(dreamer.prompts) + seq(|rows|, i requires 0 <= i < |rows| => Seen(rows[i].content))
    ensures mode == Dynamic ==> Distinct(order) && (forall d | d in rows :: d.scope in order)
    ensures mode == Dynamic ==> |bundles| == |order| && AllPacked(rows, order, bundles) && calls == Calls(bundles)
    ensures mode == Dynamic ==> dreamer.prompts == old(dreamer.prompts) + AllPrompts(bundles)
  {
    calls, order, bundles := 0, [], [];
    if mode == Dynamic {
      calls, order, bundles := DreamScopes(rows, dreamer);
      ScopesTold(old(dreamer.State()), rows, order, bundles);
      assert order[..|order|] == order;
      forall id ensures id in dreamer.dreamed <==> id in old(dreamer.dreamed) + Ids(rows) {
        assert MarkedUpTo(rows, order, |order|, id) <==> id in Ids(rows);
      }
    } else {
      for n := 0 to |rows|
        invariant calls == n && dreamer.dreamed == old(dreamer.dreamed) + Ids(rows[..n])
        invariant dreamer.prompts == old(dreamer.prompts) + seq(n, i requires 0 <= i < n => Seen(rows[i].content))
      {
        assert rows[..n + 1] == rows[..n] + [rows[n]];
        dreamer.DreamDocument(rows[n]);
        calls := calls + 1;
      }
      assert rows[..|rows|] == rows;
    }
  }

  method DreamScopes(rows: seq<Doc>, dreamer: Dreamer)
    returns (calls: nat, ghost scopes: seq<Scope>, ghost bundles: seq<seq<seq<Window>>>)
    modifies dreamer
    ensures Distinct(scopes) && forall d | d in rows :: d.scope in scopes
    ensures |bundles| == |scopes| && AllPacked(rows, scopes, bundles) && calls == Calls(bundles)
    ensures dreamer.State() == ToldScopes(old(dreamer.State()), bundles)
  {
    var order, groups := Group(rows);
    scopes := order;
    calls, bundles := 0, [];
    for n := 0 to |order|
      invariant |bundles| == n && AllPacked(rows, order, bundles) && calls == Calls(bundles)
      invariant dreamer.State() == ToldScopes(old(dreamer.State()), bundles)
    {
      assert order[n] in groups;
      var windows := dreamer.CutAll(groups[order[n]]);
      WindowsFit(groups[order[n]]);
      var made;
      ghost var b;
      made, b := dreamer.PackWindows(windows);
      ScopeDone(old(dreamer.State()), rows, order, bundles, b);
      calls, bundles := calls + made, bundles + [b];
    }
  }

  /** The calls of one scope stay under twice what its text needs, plus one. */
  lemma CallsBound(docs: seq<Doc>, bundles: seq<seq<Window>>)
    requires Packed(bundles) && Flat(bundles) == WindowsOf(docs) && bundles != []
    ensures BUDGET * (|bundles| - 1) < 2 * Length(docs)
  {
    WindowsFit(docs);
    NextFitBound(bundles);
    WindowsLength(docs);
  }

  function Length(docs: seq<Doc>): nat {
    if docs == [] then 0 else Length(docs[..|docs| - 1]) + |TextOf(docs[|docs| - 1])|
  }

  lemma {:induction false} WindowsLength(docs: seq<Doc>)
    ensures Used(WindowsOf(docs)) == Length(docs)
  {
    if docs != [] {
      var last := docs[|docs| - 1];
      WindowsLength(docs[..|docs| - 1]);
      UsedSplits(WindowsOf(docs[..|docs| - 1]), CutUp(TextOf(last), last.id));
      CutLength(TextOf(last), last.id);
    }
  }

  lemma {:induction false} CutLength(text: string, doc: DocId)
    ensures Used(CutUp(text, doc)) == |text|
  {
    if |text| > BUDGET {
      UsedSplits([Window(text[..BUDGET], doc)], CutUp(text[BUDGET..], doc));
      assert [Window(text[..BUDGET], doc)][..0] == [];
      CutLength(text[BUDGET..], doc);
    } else if text != "" {
      assert [Window(text, doc)][..0] == [];
    }
  }
}
