/** What the buffered reader makes of any chunks, well-formed or not: where it finds each record, how many chunks
    it has loaded by then, and how it ends. */
module ReaderSteps {
  import opened Common
  import opened Text
  import opened StreamReader
  import Json

  /** A record that stands from `at` to `to` in the file, read with the first `loaded` chunks in the buffer. */
  datatype Step = Step(at: nat, to: nat, loaded: nat)

  /** The file as far as it is loaded. */
  function Loaded(chunks: seq<string>, k: nat): string
    requires k <= |chunks|
  {
    Concat(chunks[..k])
  }

  /** q is the first position from p on that is not white space or a comma. */
  ghost predicate StopsAt(w: string, p: nat, q: nat) {
    p <= q <= |w| && (forall i | p <= i < q :: IsSeparator(w[i])) && (q < |w| ==> !IsSeparator(w[q]))
  }

  /** With k chunks loaded, what starts at q is not a whole value yet. */
  ghost predicate Truncated(chunks: seq<string>, decode: string -> Option<nat>, q: nat, k: nat) {
    && k <= |chunks| && q <= |Loaded(chunks, k)|
    && decode(Loaded(chunks, k)[q..]).None? && !Json.Closed(Json.Run(Json.Top(0), Loaded(chunks, k)[q..]))
  }

  /** From position p, with k chunks loaded, the reader comes to something at q and loads chunks until it is whole,
      i of them in all. */
  ghost predicate Comes(chunks: seq<string>, decode: string -> Option<nat>, p: nat, k: nat, q: nat, i: nat) {
    && k <= i <= |chunks| && StopsAt(Loaded(chunks, k), p, q)
    && q < |Loaded(chunks, k)| && Loaded(chunks, k)[q] != ']'
    && (forall j | k <= j < i :: Truncated(chunks, decode, q, j)) && !Truncated(chunks, decode, q, i)
    && q < |Loaded(chunks, i)|
  }

  /** The next record read from there. */
  ghost predicate IsStep(chunks: seq<string>, decode: string -> Option<nat>, p: nat, k: nat, s: Step) {
    && Comes(chunks, decode, p, k, s.at, s.loaded) && Loaded(chunks, s.loaded)[s.at] == '{'
    && s.at < s.to <= |Loaded(chunks, s.loaded)|
    && decode(Loaded(chunks, s.loaded)[s.at..]) == Some(s.to - s.at)
  }

  ghost predicate StepAt(chunks: seq<string>, decode: string -> Option<nat>, p: nat, k: nat, steps: seq<Step>, n: nat) {
    && n < |steps|
    && if n == 0 then IsStep(chunks, decode, p, k, steps[0])
       else IsStep(chunks, decode, steps[n - 1].to, steps[n - 1].loaded, steps[n])
  }

  /** Nothing more to read from there: the buffer is used up, the array is closed, or the file ends in the middle of
      a value. */
  ghost predicate AtEnd(chunks: seq<string>, decode: string -> Option<nat>, p: nat, k: nat) {
    && k <= |chunks|
    && exists q: nat :: StopsAt(Loaded(chunks, k), p, q) &&
         (q == |Loaded(chunks, k)| || Loaded(chunks, k)[q] == ']' ||
          forall j | k <= j <= |chunks| :: Truncated(chunks, decode, q, j))
  }

  /** From there the reader comes to a whole value that is not one, or not an object. */
  ghost predicate Refuses(chunks: seq<string>, decode: string -> Option<nat>, p: nat, k: nat, fault: Fault) {
    exists q: nat, i: nat :: Comes(chunks, decode, p, k, q, i) && RefusedAt(chunks, decode, q, i, fault)
  }

  ghost predicate RefusedAt(chunks: seq<string>, decode: string -> Option<nat>, q: nat, i: nat, fault: Fault) {
    && i <= |chunks| && q < |Loaded(chunks, i)|
    && match fault
       case Malformed => decode(Loaded(chunks, i)[q..]).None?
       case NotAnObject => decode(Loaded(chunks, i)[q..]).Some? && Loaded(chunks, i)[q] != '{'
       case _ => false
  }

  ghost predicate EndsAs(chunks: seq<string>, limit: nat, decode: string -> Option<nat>, p: nat, k: nat,
      steps: seq<Step>, outcome: Outcome)
  {
    match outcome
    case Records(texts) =>
      && |texts| == |steps| && (forall n: nat | n < |steps| :: TextAt(chunks, steps, texts, n))
      && (|steps| == limit || AtEnd(chunks, decode, p, k))
    case Failed(fault) => |steps| < limit && Refuses(chunks, decode, p, k, fault)
  }

  ghost predicate TextAt(chunks: seq<string>, steps: seq<Step>, texts: seq<string>, n: nat) {
    && n < |steps| && n < |texts| && steps[n].loaded <= |chunks|
    && steps[n].at <= steps[n].to <= |Loaded(chunks, steps[n].loaded)|
    && texts[n] == Loaded(chunks, steps[n].loaded)[steps[n].at..steps[n].to]
  }

  /** From position p, with k chunks loaded, the reader takes these steps, and ends as it should behind the last. */
  ghost predicate IsReading(chunks: seq<string>, limit: nat, decode: string -> Option<nat>, p: nat, k: nat,
      steps: seq<Step>, outcome: Outcome)
  {
    && |steps| <= limit && (forall n: nat | n < |steps| :: StepAt(chunks, decode, p, k, steps, n))
    && if steps == [] then EndsAs(chunks, limit, decode, p, k, steps, outcome)
       else var last := steps[|steps| - 1]; EndsAs(chunks, limit, decode, last.to, last.loaded, steps, outcome)
  }

  lemma {:induction false} SkipsTo(w: string, p: nat) returns (q: nat)
    requires p <= |w|
    ensures StopsAt(w, p, q) && Skipped(w[p..]) == w[q..]
    decreases |w| - p
  {
    if p < |w| && IsSeparator(w[p]) {
      q := SkipsTo(w, p + 1);
      assert w[p..][1..] == w[p + 1..];
    } else {
      q := p;
    }
  }

  lemma LoadsOn(chunks: seq<string>, k: nat)
    requires k < |chunks|
    ensures Loaded(chunks, k + 1) == Loaded(chunks, k) + chunks[k]
  {
    assert chunks[..k + 1] == chunks[..k] + [chunks[k]];
    ConcatGrows(chunks[..k], chunks[k]);
  }

  /** The value at q is truncated with k chunks loaded: what is read with one chunk more from q is read from here. */
  lemma ComesLater(chunks: seq<string>, decode: string -> Option<nat>, p: nat, k: nat, q: nat, at: nat, i: nat)
    requires k < |chunks| && StopsAt(Loaded(chunks, k), p, q) && q < |Loaded(chunks, k)|
    requires Loaded(chunks, k)[q] != ']' && Truncated(chunks, decode, q, k)
    requires Comes(chunks, decode, q, k + 1, at, i)
    ensures at == q && Comes(chunks, decode, p, k, at, i)
  {
    StillThere(chunks, p, k, q, at);
  }

  lemma StillThere(chunks: seq<string>, p: nat, k: nat, q: nat, at: nat)
    requires k < |chunks| && StopsAt(Loaded(chunks, k), p, q) && q < |Loaded(chunks, k)|
    requires StopsAt(Loaded(chunks, k + 1), q, at)
    ensures at == q < |Loaded(chunks, k + 1)| && Loaded(chunks, k + 1)[q] == Loaded(chunks, k)[q]
  {
    LoadsOn(chunks, k);
    assert Loaded(chunks, k + 1)[q] == Loaded(chunks, k)[q];
  }

  lemma EndsLater(chunks: seq<string>, decode: string -> Option<nat>, p: nat, k: nat, q: nat)
    requires k < |chunks| && StopsAt(Loaded(chunks, k), p, q) && q < |Loaded(chunks, k)|
    requires Loaded(chunks, k)[q] != ']' && Truncated(chunks, decode, q, k)
    requires AtEnd(chunks, decode, q, k + 1)
    ensures AtEnd(chunks, decode, p, k)
  {
    LoadsOn(chunks, k);
    var e: nat :| StopsAt(Loaded(chunks, k + 1), q, e) &&
      (e == |Loaded(chunks, k + 1)| || Loaded(chunks, k + 1)[e] == ']' ||
       forall j | k + 1 <= j <= |chunks| :: Truncated(chunks, decode, e, j));
    StillThere(chunks, p, k, q, e);
  }

  lemma ReadsLater(chunks: seq<string>, limit: nat, decode: string -> Option<nat>, p: nat, k: nat, q: nat,
      steps: seq<Step>, outcome: Outcome)
    requires k < |chunks| && StopsAt(Loaded(chunks, k), p, q) && q < |Loaded(chunks, k)|
    requires Loaded(chunks, k)[q] != ']' && Truncated(chunks, decode, q, k)
    requires IsReading(chunks, limit, decode, q, k + 1, steps, outcome)
    ensures IsReading(chunks, limit, decode, p, k, steps, outcome)
  {
    if steps == [] {
      match outcome
      case Records(_) => if limit > 0 { EndsLater(chunks, decode, p, k, q); }
      case Failed(fault) =>
        var at: nat, i: nat :| Comes(chunks, decode, q, k + 1, at, i) && RefusedAt(chunks, decode, at, i, fault);
        ComesLater(chunks, decode, p, k, q, at, i);
    } else {
      assert StepAt(chunks, decode, q, k + 1, steps, 0);
      ComesLater(chunks, decode, p, k, q, steps[0].at, steps[0].loaded);
      forall n: nat | n < |steps| ensures StepAt(chunks, decode, p, k, steps, n) {
        assert StepAt(chunks, decode, q, k + 1, steps, n);
      }
    }
  }

  lemma ReadsOneMore(chunks: seq<string>, limit: nat, decode: string -> Option<nat>, p: nat, k: nat, s: Step,
      text: string, rest: seq<Step>, outcome: Outcome)
    requires limit > 0 && IsStep(chunks, decode, p, k, s) && text == Loaded(chunks, s.loaded)[s.at..s.to]
    requires IsReading(chunks, limit - 1, decode, s.to, s.loaded, rest, outcome)
    ensures IsReading(chunks, limit, decode, p, k, [s] + rest, Prepend([text], outcome))
  {
    var steps := [s] + rest;
    forall n: nat | n < |steps| ensures StepAt(chunks, decode, p, k, steps, n) {
      if n > 0 { assert StepAt(chunks, decode, s.to, s.loaded, rest, n - 1); }
    }
    var last := steps[|steps| - 1];
    assert last == if rest == [] then s else rest[|rest| - 1];
    EndsOneMore(chunks, limit, decode, last.to, last.loaded, s, text, rest, outcome);
  }

  lemma EndsOneMore(chunks: seq<string>, limit: nat, decode: string -> Option<nat>, p: nat, k: nat, s: Step,
      text: string, rest: seq<Step>, outcome: Outcome)
    requires limit > 0 && EndsAs(chunks, limit - 1, decode, p, k, rest, outcome)
    requires s.loaded <= |chunks| && s.at <= s.to <= |Loaded(chunks, s.loaded)|
    requires text == Loaded(chunks, s.loaded)[s.at..s.to]
    ensures EndsAs(chunks, limit, decode, p, k, [s] + rest, Prepend([text], outcome))
  {
    if outcome.Records? {
      var steps, texts := [s] + rest, [text] + outcome.texts;
      forall n: nat | n < |steps| ensures TextAt(chunks, steps, texts, n) {
        if n > 0 { assert TextAt(chunks, rest, outcome.texts, n - 1); }
      }
    }
  }

  /** The reader's outcome from any position, with any number of chunks loaded. */
  lemma {:induction false} CollectedIs(chunks: seq<string>, limit: nat, decode: string -> Option<nat>, p: nat, k: nat,
      front: string, unread: seq<string>) returns (steps: seq<Step>)
    requires Advances(decode) && k <= |chunks| && p <= |Loaded(chunks, k)|
    requires front == Loaded(chunks, k)[p..] && unread == chunks[k..]
    ensures IsReading(chunks, limit, decode, p, k, steps, Collected(front, unread, limit, decode))
    decreases limit, |unread|, 1
  {
    steps := [];
    if limit > 0 {
      var w := Loaded(chunks, k);
      var q := SkipsTo(w, p);
      if q < |w| && w[q] != ']' {
        steps := RecordIs(chunks, limit, decode, p, k, q, w[q..], front, unread);
      }
    }
  }

  /** What the reader does with what it comes to. */
  lemma Unfolded(front: string, unread: seq<string>, limit: nat, decode: string -> Option<nat>, s: string)
    returns (outcome: Outcome)
    requires Advances(decode) && limit > 0 && s == Skipped(front) && s != "" && s[0] != ']'
    ensures outcome == Collected(front, unread, limit, decode)
    ensures outcome ==
      match decode(s)
      case None =>
        if Json.Closed(Json.Run(Json.Top(0), s)) then Failed(Malformed)
        else if unread == [] then Records([]) else Collected(s + unread[0], unread[1..], limit, decode)
      case Some(n) =>
        if s[0] != '{' then Failed(NotAnObject)
        else Prepend([s[..n]], Collected(s[n..], unread, limit - 1, decode))
  {
    outcome := Collected(front, unread, limit, decode);
  }

  lemma {:induction false} RecordIs(chunks: seq<string>, limit: nat, decode: string -> Option<nat>, p: nat, k: nat,
      q: nat, s: string, front: string, unread: seq<string>) returns (steps: seq<Step>)
    requires Advances(decode) && k <= |chunks| && limit > 0 && StopsAt(Loaded(chunks, k), p, q)
    requires q < |Loaded(chunks, k)| && Loaded(chunks, k)[q] != ']' && s == Loaded(chunks, k)[q..]
    requires s == Skipped(front) && unread == chunks[k..]
    ensures IsReading(chunks, limit, decode, p, k, steps, Collected(front, unread, limit, decode))
    decreases limit, |unread|, 0
  {
    steps := [];
    var outcome := Unfolded(front, unread, limit, decode, s);
    if Truncated(chunks, decode, q, k) {
      if k < |chunks| {
        steps := RestIs(chunks, limit, decode, p, k, q, s + unread[0], unread[1..]);
      } else {
        StopsInside(chunks, limit, decode, p, k, q);
      }
    } else if decode(s).Some? && s[0] == '{' {
      var n := decode(s).value;
      var rest := CollectedIs(chunks, limit - 1, decode, q + n, k, s[n..], unread);
      steps := ReadsOne(chunks, limit, decode, p, k, q, s, n, rest, Collected(s[n..], unread, limit - 1, decode));
    } else {
      RefusedHere(chunks, limit, decode, p, k, q, s);
    }
  }

  lemma {:induction false} RestIs(chunks: seq<string>, limit: nat, decode: string -> Option<nat>, p: nat, k: nat,
      q: nat, front: string, unread: seq<string>) returns (steps: seq<Step>)
    requires Advances(decode) && k < |chunks| && limit > 0 && StopsAt(Loaded(chunks, k), p, q)
    requires q < |Loaded(chunks, k)| && Loaded(chunks, k)[q] != ']' && Truncated(chunks, decode, q, k)
    requires front == Loaded(chunks, k)[q..] + chunks[k] && unread == chunks[k + 1..]
    ensures IsReading(chunks, limit, decode, p, k, steps, Collected(front, unread, limit, decode))
    decreases limit, |unread|, 2
  {
    LoadsOn(chunks, k);
    steps := CollectedIs(chunks, limit, decode, q, k + 1, front, unread);
    ReadsLater(chunks, limit, decode, p, k, q, steps, Collected(front, unread, limit, decode));
  }

  lemma StopsInside(chunks: seq<string>, limit: nat, decode: string -> Option<nat>, p: nat, k: nat, q: nat)
    requires k == |chunks| && StopsAt(Loaded(chunks, k), p, q) && Truncated(chunks, decode, q, k)
    ensures IsReading(chunks, limit, decode, p, k, [], Records([]))
  {
    assert AtEnd(chunks, decode, p, k);
  }

  lemma ReadsOne(chunks: seq<string>, limit: nat, decode: string -> Option<nat>, p: nat, k: nat, q: nat, s: string,
      n: nat, rest: seq<Step>, outcome: Outcome) returns (steps: seq<Step>)
    requires k <= |chunks| && limit > 0 && StopsAt(Loaded(chunks, k), p, q) && !Truncated(chunks, decode, q, k)
    requires q < |Loaded(chunks, k)| && s == Loaded(chunks, k)[q..]
    requires s[0] == '{' && decode(s) == Some(n) && 0 < n <= |s|
    requires IsReading(chunks, limit - 1, decode, q + n, k, rest, outcome)
    ensures IsReading(chunks, limit, decode, p, k, steps, Prepend([s[..n]], outcome))
  {
    var step := Step(q, q + n, k);
    assert s[..n] == Loaded(chunks, k)[q..q + n];
    ReadsOneMore(chunks, limit, decode, p, k, step, s[..n], rest, outcome);
    steps := [step] + rest;
  }

  lemma RefusedHere(chunks: seq<string>, limit: nat, decode: string -> Option<nat>, p: nat, k: nat, q: nat, s: string)
    requires k <= |chunks| && limit > 0 && StopsAt(Loaded(chunks, k), p, q) && !Truncated(chunks, decode, q, k)
    requires q < |Loaded(chunks, k)| && Loaded(chunks, k)[q] != ']' && s == Loaded(chunks, k)[q..]
    requires decode(s).None? || s[0] != '{'
    ensures IsReading(chunks, limit, decode, p, k, [], Failed(if decode(s).None? then Malformed else NotAnObject))
  {
    assert Comes(chunks, decode, p, k, q, k);
    assert RefusedAt(chunks, decode, q, k, if decode(s).None? then Malformed else NotAnObject);
  }

  /** The first chunk opens the array at q. */
  ghost predicate OpensAt(chunks: seq<string>, q: nat) {
    chunks != [] && q < |chunks[0]| && StopsAt(chunks[0], 0, q) && chunks[0][q] == '['
  }

  ghost predicate ReadsFrom(chunks: seq<string>, limit: nat, decode: string -> Option<nat>, p: nat, outcome: Outcome) {
    exists steps :: IsReading(chunks, limit, decode, p, 1, steps, outcome)
  }

  /** Whatever the file holds: a bad limit and a first chunk that does not open an array are refused; otherwise the
      reader takes its steps from behind the bracket. */
  lemma StreamedIs(chunks: seq<string>, limit: int, decode: string -> Option<nat>)
    requires Advances(decode)
    ensures var outcome := Streamed(chunks, limit, decode);
      && (outcome == Failed(BadLimit) <==> limit < 1)
      && (outcome == Failed(NotAnArray) <==> limit >= 1 && !exists q: nat :: OpensAt(chunks, q))
      && (limit >= 1 ==> forall q: nat | OpensAt(chunks, q) :: ReadsFrom(chunks, limit, decode, q + 1, outcome))
  {
    if limit >= 1 && chunks != [] {
      var first := chunks[0];
      var q := SkipsTo(first, 0);
      assert first[0..] == first;
      assert chunks[..1] == [] + [first];
      ConcatGrows([], first);
      if q < |first| && first[q] == '[' {
        assert OpensAt(chunks, q);
        assert first[q..][1..] == first[q + 1..];
        var steps := CollectedIs(chunks, limit, decode, q + 1, 1, first[q + 1..], chunks[1..]);
      } else {
        assert forall e: nat :: OpensAt(chunks, e) ==> e == q;
      }
      assert forall e: nat | OpensAt(chunks, e) :: e == q;
    }
  }
}
