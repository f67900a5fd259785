/** What the streaming reader makes of a well-formed array of objects, whatever chunks it arrives in. */
module Streaming {
  import opened Common
  import opened Text
  import opened StreamReader
  import Json

  /** A JSON array whose elements are all objects, as a whole-file parse would find it. */
  ghost predicate IsCorpus(v: Json.Value) {
    v.Arr? && Json.WellFormed(v) && forall e | e in v.elements :: e.value.Obj?
  }

  lemma ElementOf(v: Json.Value, r: nat)
    requires IsCorpus(v) && r < |v.elements|
    ensures Json.WellFormed(v.elements[r].value) && v.elements[r].value.Obj? && v.elements[r].key.None?
    ensures Json.AllSpace(v.elements[r].before) && Json.AllSpace(v.elements[r].after)
  {
    assert v.elements[r] in v.elements && Json.WellFormedElement(v.elements[r]);
  }

  function Record(v: Json.Value, r: nat): string
    requires v.Arr? && r < |v.elements|
  {
    Json.Text(v.elements[r].value)
  }

  function Records(v: Json.Value, from: nat, to: nat): seq<string>
    requires v.Arr? && from <= to <= |v.elements|
  {
    seq(to - from, i requires 0 <= i < to - from => Record(v, from + i))
  }

  function After(v: Json.Value, r: nat): string
    requires v.Arr? && r <= |v.elements|
  {
    if r > 0 then v.elements[r - 1].after else if v.elements == [] then v.space else ""
  }

  /** What stands between record r - 1, or the opening bracket, and record r, or the closing bracket. */
  function Gap(v: Json.Value, r: nat): string
    requires v.Arr? && r <= |v.elements|
  {
    if r < |v.elements| then After(v, r) + Json.Comma(r) + v.elements[r].before else After(v, r)
  }

  /** The file from the end of record r - 1 on. */
  function Rest(v: Json.Value, trail: string, r: nat): string
    requires v.Arr? && r <= |v.elements|
    decreases |v.elements| - r
  {
    Gap(v, r) + Beyond(v, trail, r)
  }

  /** The file from the start of record r on. */
  function Beyond(v: Json.Value, trail: string, r: nat): string
    requires v.Arr? && r <= |v.elements|
    decreases |v.elements| - r, 0
  {
    if r == |v.elements| then "]" + trail else Record(v, r) + Rest(v, trail, r + 1)
  }

  /** The array's inside up to the end of record r - 1. */
  function Before(v: Json.Value, r: nat): string
    requires v.Arr? && r <= |v.elements|
  {
    if r == 0 then "" else Json.Joined(v, r - 1) + Json.Comma(r - 1) + v.elements[r - 1].before + Record(v, r - 1)
  }

  lemma JoinedUpTo(v: Json.Value, r: nat)
    requires IsCorpus(v) && 0 < r <= |v.elements|
    ensures Json.Joined(v, r) == Before(v, r) + v.elements[r - 1].after
  {
    ElementOf(v, r - 1);
    var e := v.elements[r - 1];
    assert Json.KeyText(e.key) == "";
    Enclose(Json.Joined(v, r - 1) + Json.Comma(r - 1), e.before, Record(v, r - 1), e.after);
  }

  lemma Enclose(front: string, before: string, record: string, after: string)
    ensures front + (before + "" + record + after) == front + before + record + after
  {}

  lemma BeforeGrows(v: Json.Value, r: nat)
    requires IsCorpus(v) && r < |v.elements|
    ensures Before(v, r + 1) == Before(v, r) + Gap(v, r) + Record(v, r)
  {
    if r > 0 { JoinedUpTo(v, r); }
  }

  lemma Glue(before: string, gap: string, record: string, rest: string)
    ensures before + (gap + (record + rest)) == (before + gap + record) + rest
  {}

  lemma InsideEnds(v: Json.Value, trail: string)
    requires IsCorpus(v)
    ensures Before(v, |v.elements|) + Rest(v, trail, |v.elements|) == Json.Inside(v) + "]" + trail
  {
    var n := |v.elements|;
    if n > 0 { JoinedUpTo(v, n); }
    Glue(Before(v, n), After(v, n), "]", trail);
  }

  lemma SameFile(v: Json.Value, trail: string, r: nat)
    requires IsCorpus(v) && r < |v.elements|
    ensures Before(v, r) + Rest(v, trail, r) == Before(v, r + 1) + Rest(v, trail, r + 1)
  {
    BeforeGrows(v, r);
    var rest := Rest(v, trail, r + 1);
    Glue(Before(v, r), Gap(v, r), Record(v, r), rest);
  }

  /** Record by record, nothing of the file is lost. */
  lemma {:induction false} FileFrom(v: Json.Value, trail: string, r: nat)
    requires IsCorpus(v) && r <= |v.elements|
    ensures Before(v, r) + Rest(v, trail, r) == Json.Inside(v) + "]" + trail
    decreases |v.elements| - r
  {
    if r == |v.elements| {
      InsideEnds(v, trail);
    } else {
      FileFrom(v, trail, r + 1);
      SameFile(v, trail, r);
    }
  }

  // ---- Where chunks end ----

  /** A chunk that leaves `left` characters unread ends in the gap in front of record r, or at its edge. */
  predicate EndsInGap(v: Json.Value, trail: string, r: nat, left: nat)
    requires v.Arr? && r <= |v.elements|
  {
    |Beyond(v, trail, r)| <= left <= |Rest(v, trail, r)|
  }

  ghost predicate CutAt(v: Json.Value, trail: string, chunks: seq<string>, r: nat)
    requires v.Arr? && r <= |v.elements|
  {
    exists k: nat | 1 <= k <= |chunks| :: EndsInGap(v, trail, r, |Concat(chunks[k..])|)
  }

  /** The records in front of which a chunk ends, the closing bracket counting as one. */
  ghost function Cuts(v: Json.Value, trail: string, chunks: seq<string>): (cuts: set<nat>)
    requires v.Arr?
    ensures forall r: nat | r <= |v.elements| :: r in cuts <==> CutAt(v, trail, chunks, r)
  {
    set r: nat | r <= |v.elements| && CutAt(v, trail, chunks, r)
  }

  /** The number of the first record that is not read: limit, end of the array, or a chunk that ended just
      in front of it. */
  ghost function Stop(n: nat, cuts: set<nat>, limit: nat, r: nat): (m: nat)
    requires r <= n
    ensures r <= m <= n
    decreases n - r
  {
    if limit == 0 || r == n || r in cuts then r else Stop(n, cuts, limit - 1, r + 1)
  }

  lemma {:induction false} UnreadShrinks(chunks: seq<string>, j: nat, k: nat)
    requires j <= k <= |chunks|
    ensures |Concat(chunks[k..])| <= |Concat(chunks[j..])|
    decreases k - j
  {
    if j < k {
      UnreadShrinks(chunks, j + 1, k);
      assert chunks[j..] == [chunks[j]] + chunks[j + 1..];
      ConcatFront(chunks[j], chunks[j + 1..]);
    }
  }

  /** Chunks that end before the record in front, and chunks that end behind the gap, do not end in the gap. */
  lemma NotCut(v: Json.Value, trail: string, chunks: seq<string>, r: nat, k: nat)
    requires v.Arr? && r <= |v.elements| && 1 <= k <= |chunks|
    requires |Concat(chunks[k - 1..])| > |Rest(v, trail, r)| && |Concat(chunks[k..])| < |Beyond(v, trail, r)|
    ensures r !in Cuts(v, trail, chunks)
  {
    forall i: nat | 1 <= i <= |chunks| ensures !EndsInGap(v, trail, r, |Concat(chunks[i..])|) {
      if i < k { UnreadShrinks(chunks, i, k - 1); } else { UnreadShrinks(chunks, k, i); }
    }
  }

  // ---- Skipping gaps ----

  lemma {:induction false} SkipsTo(s: string, k: nat)
    requires k <= |s| && (forall i | 0 <= i < k :: IsSeparator(s[i])) && (k < |s| ==> !IsSeparator(s[k]))
    ensures Skipped(s) == s[k..]
  {
    if k > 0 {
      SkipsTo(s[1..], k - 1);
      assert s[1..][k - 1..] == s[k..];
    }
  }

  lemma GapIsSkipped(v: Json.Value, r: nat)
    requires IsCorpus(v) && r <= |v.elements|
    ensures forall i | 0 <= i < |Gap(v, r)| :: IsSeparator(Gap(v, r)[i])
  {
    if r > 0 { ElementOf(v, r - 1); }
    assert Json.AllSpace(After(v, r));
    if r < |v.elements| {
      ElementOf(v, r);
    }
  }

  lemma BeyondStarts(v: Json.Value, trail: string, r: nat)
    requires IsCorpus(v) && r <= |v.elements|
    ensures Beyond(v, trail, r) != "" && Beyond(v, trail, r)[0] == (if r == |v.elements| then ']' else '{')
  {
    if r < |v.elements| {
      ElementOf(v, r);
      Json.StartsAs(v.elements[r].value);
    }
  }

  /** The reader has consumed j characters of the gap in front of record r; `front` is in the buffer. */
  ghost predicate Reached(v: Json.Value, trail: string, r: nat, j: nat, front: string, unread: string)
    requires v.Arr? && r <= |v.elements|
  {
    j <= |Gap(v, r)| && front + unread == Rest(v, trail, r)[j..]
  }

  lemma SkipInGap(gap: string, beyond: string, j: nat, front: string, unread: string)
    requires j <= |gap| && front + unread == (gap + beyond)[j..] && |unread| >= |beyond|
    requires forall i | 0 <= i < |gap| :: IsSeparator(gap[i])
    ensures Skipped(front) == ""
  {
    assert forall i | 0 <= i < |front| :: front[i] == (front + unread)[i] == gap[j + i];
    SkipsTo(front, |front|);
  }

  lemma SkipBehindGap(gap: string, beyond: string, j: nat, front: string, unread: string)
    requires j <= |gap| && front + unread == (gap + beyond)[j..] && |unread| < |beyond|
    requires (forall i | 0 <= i < |gap| :: IsSeparator(gap[i])) && !IsSeparator(beyond[0])
    ensures Skipped(front) != "" && Skipped(front) + unread == beyond
  {
    var k := |gap| - j;
    assert k < |front|;
    assert forall i | 0 <= i < k :: front[i] == (front + unread)[i] == gap[j + i];
    assert front[k] == (front + unread)[k] == (gap + beyond)[|gap|] == beyond[0];
    SkipsTo(front, k);
    assert front[k..] + unread == (front + unread)[k..] == (gap + beyond)[j..][k..] == beyond;
  }

  lemma SkipGap(v: Json.Value, trail: string, r: nat, j: nat, front: string, unread: string)
    requires IsCorpus(v) && r <= |v.elements| && Reached(v, trail, r, j, front, unread)
    ensures |unread| >= |Beyond(v, trail, r)| ==> Skipped(front) == ""
    ensures |unread| < |Beyond(v, trail, r)| ==> Skipped(front) != "" && Skipped(front) + unread == Beyond(v, trail, r)
  {
    GapIsSkipped(v, r);
    BeyondStarts(v, trail, r);
    if |unread| >= |Beyond(v, trail, r)| {
      SkipInGap(Gap(v, r), Beyond(v, trail, r), j, front, unread);
    } else {
      SkipBehindGap(Gap(v, r), Beyond(v, trail, r), j, front, unread);
    }
  }

  // ---- One record ----

  lemma ReadsObject(decode: string -> Option<nat>, v: Json.Value, rest: string)
    requires IsDecoder(decode) && Json.WellFormed(v) && v.Obj?
    ensures decode(Json.Text(v) + rest) == Some(|Json.Text(v)|)
  {}

  lemma HeadOf(s: string, unread: string, head: string, rest: string)
    requires s + unread == head + rest && |unread| <= |rest|
    ensures |head| <= |s| && s == head + s[|head|..] && s[..|head|] == head && s[|head|..] + unread == rest
  {
    assert s[..|head|] == (s + unread)[..|head|] == head;
    assert s[|head|..] + unread == (s + unread)[|head|..];
  }

  /** A record that is whole in the buffer is decoded as it stands. */
  lemma WholeRecord(v: Json.Value, trail: string, r: nat, s: string, unread: string, decode: string -> Option<nat>)
    requires IsCorpus(v) && r < |v.elements| && IsDecoder(decode)
    requires s + unread == Beyond(v, trail, r) && |unread| <= |Rest(v, trail, r + 1)|
    ensures |Record(v, r)| <= |s| && decode(s) == Some(|Record(v, r)|) && s[..|Record(v, r)|] == Record(v, r)
    ensures s[|Record(v, r)|..] + unread == Rest(v, trail, r + 1)
  {
    var t, value := Record(v, r), v.elements[r].value;
    ElementOf(v, r);
    HeadOf(s, unread, t, Rest(v, trail, r + 1));
    ReadsObject(decode, value, s[|t|..]);
  }

  /** A record that goes on in the next chunk is not decoded, and not taken for malformed. */
  lemma TruncatedRecord(v: Json.Value, trail: string, r: nat, s: string, unread: string, decode: string -> Option<nat>)
    requires IsCorpus(v) && r < |v.elements| && IsDecoder(decode)
    requires s != "" && s + unread == Beyond(v, trail, r) && |unread| > |Rest(v, trail, r + 1)|
    ensures decode(s).None? && !Json.Closed(Json.Run(Json.Top(0), s))
  {
    var t, value := Record(v, r), v.elements[r].value;
    ElementOf(v, r);
    assert s == (s + unread)[..|s|] == t[..|s|];
    Json.TruncatedIsIncomplete(value, s);
    if decode(s).Some? {
      var k := decode(s).value;
      assert IsTextUpTo(s, k);
      var w :| Json.WellFormed(w) && Json.Text(w) == s[..k];
      Json.ObjectsArePrefixFree(value, w);
    }
  }

  /** What the reader yields from `front` on: the records from r up to the stop. */
  ghost predicate Yields(v: Json.Value, cuts: set<nat>, limit: nat, decode: string -> Option<nat>, r: nat,
      front: string, unread: seq<string>)
    requires v.Arr? && r <= |v.elements| && Advances(decode)
  {
    Collected(front, unread, limit, decode) == Outcome.Records(Records(v, r, Stop(|v.elements|, cuts, limit, r)))
  }

  lemma YieldsNothing(v: Json.Value, cuts: set<nat>, limit: nat, decode: string -> Option<nat>, r: nat, front: string,
      unread: seq<string>)
    requires v.Arr? && r <= |v.elements| && Advances(decode)
    requires limit == 0 || r == |v.elements| || r in cuts
    requires limit == 0 || Skipped(front) == "" || Skipped(front)[0] == ']'
    ensures Yields(v, cuts, limit, decode, r, front, unread)
  {
    assert Collected(front, unread, limit, decode) == Outcome.Records([]);
    assert Records(v, r, r) == [];
  }

  lemma RecordsFrom(v: Json.Value, r: nat, m: nat, record: string)
    requires v.Arr? && r < m <= |v.elements| && record == Record(v, r)
    ensures Records(v, r, m) == [record] + Records(v, r + 1, m)
  {}

  lemma YieldsRecord(v: Json.Value, cuts: set<nat>, limit: nat, decode: string -> Option<nat>, r: nat, front: string,
      unread: seq<string>,
      s: string, k: nat, less: nat, next: nat, rest: string)
    requires v.Arr? && r < |v.elements| && Advances(decode) && limit > 0 && r !in cuts
    requires s == Skipped(front) != "" && s[0] == '{' && decode(s) == Some(k) && s[..k] == Record(v, r)
    requires less == limit - 1 && next == r + 1 && rest == s[k..] && Yields(v, cuts, less, decode, next, rest, unread)
    ensures Yields(v, cuts, limit, decode, r, front, unread)
  {
    RecordsFrom(v, r, Stop(|v.elements|, cuts, limit, r), s[..k]);
    assert Collected(front, unread, limit, decode) == Prepend([s[..k]], Collected(rest, unread, less, decode));
  }

  lemma YieldsLater(v: Json.Value, cuts: set<nat>, limit: nat, decode: string -> Option<nat>, r: nat, front: string,
      unread: seq<string>,
      s: string)
    requires v.Arr? && r < |v.elements| && Advances(decode) && limit > 0
    requires s == Skipped(front) != "" && s[0] == '{' && unread != []
    requires decode(s).None? && !Json.Closed(Json.Run(Json.Top(0), s))
    requires Yields(v, cuts, limit, decode, r, s + unread[0], unread[1..])
    ensures Yields(v, cuts, limit, decode, r, front, unread)
  {
    assert Collected(front, unread, limit, decode) == Collected(s + unread[0], unread[1..], limit, decode);
  }

  /** Chunk k is the last one read. The records in front of r are read, the gap in front of r up to its j-th
      character too, and `front` is what is left of the chunk; no earlier chunk ended in the gap. */
  ghost predicate Standing(v: Json.Value, trail: string, chunks: seq<string>, r: nat, j: nat, k: nat, front: string)
    requires v.Arr? && r <= |v.elements| && 1 <= k <= |chunks|
  {
    && Reached(v, trail, r, j, front, Concat(chunks[k..]))
    && (r < |v.elements| ==> |Concat(chunks[k - 1..])| > |Rest(v, trail, r + 1)|)
    && (|Concat(chunks[k..])| < |Beyond(v, trail, r)| ==> r !in Cuts(v, trail, chunks))
  }

  lemma EndOfChunk(v: Json.Value, trail: string, chunks: seq<string>, limit: nat, decode: string -> Option<nat>,
      r: nat, j: nat, k: nat, front: string)
    requires IsCorpus(v) && Advances(decode) && r <= |v.elements| && 1 <= k <= |chunks|
    requires Standing(v, trail, chunks, r, j, k, front) && |Concat(chunks[k..])| >= |Beyond(v, trail, r)|
    ensures Yields(v, Cuts(v, trail, chunks), limit, decode, r, front, chunks[k..])
  {
    SkipGap(v, trail, r, j, front, Concat(chunks[k..]));
    assert EndsInGap(v, trail, r, |Concat(chunks[k..])|);
    YieldsNothing(v, Cuts(v, trail, chunks), limit, decode, r, front, chunks[k..]);
  }

  lemma AtRecord(v: Json.Value, trail: string, chunks: seq<string>, r: nat, j: nat, k: nat, front: string)
    returns (s: string)
    requires IsCorpus(v) && r <= |v.elements| && 1 <= k <= |chunks|
    requires Standing(v, trail, chunks, r, j, k, front) && |Concat(chunks[k..])| < |Beyond(v, trail, r)|
    ensures s == Skipped(front) != "" && s[0] == (if r < |v.elements| then '{' else ']')
    ensures s + Concat(chunks[k..]) == Beyond(v, trail, r) && r !in Cuts(v, trail, chunks)
    ensures r < |v.elements| ==> |Concat(chunks[k - 1..])| > |Rest(v, trail, r + 1)|
  {
    s := Skipped(front);
    SkipGap(v, trail, r, j, front, Concat(chunks[k..]));
    BeyondStarts(v, trail, r);
    assert s[0] == Beyond(v, trail, r)[0];
  }

  lemma StandsBehind(v: Json.Value, trail: string, chunks: seq<string>, r: nat, k: nat, rest: string)
    requires IsCorpus(v) && r < |v.elements| && 1 <= k <= |chunks|
    requires |Concat(chunks[k - 1..])| > |Rest(v, trail, r + 1)| && rest + Concat(chunks[k..]) == Rest(v, trail, r + 1)
    ensures Standing(v, trail, chunks, r + 1, 0, k, rest)
  {
    if |Concat(chunks[k..])| < |Beyond(v, trail, r + 1)| {
      NotCut(v, trail, chunks, r + 1, k);
    }
    assert Rest(v, trail, r + 1)[0..] == Rest(v, trail, r + 1);
  }

  lemma StandsOn(v: Json.Value, trail: string, chunks: seq<string>, r: nat, j: nat, k: nat, front: string, s: string)
    requires IsCorpus(v) && r < |v.elements| && 1 <= k < |chunks| && Standing(v, trail, chunks, r, j, k, front)
    requires |Rest(v, trail, r + 1)| < |Concat(chunks[k..])| < |Beyond(v, trail, r)|
    requires s + Concat(chunks[k..]) == Beyond(v, trail, r)
    ensures Standing(v, trail, chunks, r, |Gap(v, r)|, k + 1, s + chunks[k])
  {
    NextChunk(chunks, k, s);
    assert Rest(v, trail, r)[|Gap(v, r)|..] == Beyond(v, trail, r);
  }

  /** From any point in the gap before record r, the reader yields the records from r up to the stop. */
  lemma {:induction false} CollectsUpToStop(v: Json.Value, trail: string, chunks: seq<string>, limit: nat,
      decode: string -> Option<nat>,
      r: nat, j: nat, k: nat, front: string)
    requires IsCorpus(v) && IsDecoder(decode) && r <= |v.elements| && 1 <= k <= |chunks|
    requires Standing(v, trail, chunks, r, j, k, front)
    ensures Yields(v, Cuts(v, trail, chunks), limit, decode, r, front, chunks[k..])
    decreases limit, |chunks| - k, 1
  {
    if |Concat(chunks[k..])| >= |Beyond(v, trail, r)| {
      EndOfChunk(v, trail, chunks, limit, decode, r, j, k, front);
    } else {
      var s := AtRecord(v, trail, chunks, r, j, k, front);
      if limit == 0 || r == |v.elements| {
        YieldsNothing(v, Cuts(v, trail, chunks), limit, decode, r, front, chunks[k..]);
      } else if |Concat(chunks[k..])| <= |Rest(v, trail, r + 1)| {
        ReadsRecord(v, trail, chunks, limit, decode, r, k, front, s);
      } else {
        ReadsOn(v, trail, chunks, limit, decode, r, j, k, front, s);
      }
    }
  }

  lemma {:induction false} ReadsRecord(v: Json.Value, trail: string, chunks: seq<string>, limit: nat,
      decode: string -> Option<nat>,
      r: nat, k: nat, front: string, s: string)
    requires IsCorpus(v) && IsDecoder(decode) && r < |v.elements| && 1 <= k <= |chunks| && limit > 0
    requires r !in Cuts(v, trail, chunks) && |Concat(chunks[k - 1..])| > |Rest(v, trail, r + 1)|
    requires s == Skipped(front) != "" && s[0] == '{' && s + Concat(chunks[k..]) == Beyond(v, trail, r)
    requires |Concat(chunks[k..])| <= |Rest(v, trail, r + 1)|
    ensures Yields(v, Cuts(v, trail, chunks), limit, decode, r, front, chunks[k..])
    decreases limit, |chunks| - k, 0
  {
    var end := |Record(v, r)|;
    WholeRecord(v, trail, r, s, Concat(chunks[k..]), decode);
    var rest := s[end..];
    StandsBehind(v, trail, chunks, r, k, rest);
    var less: nat, next: nat := limit - 1, r + 1;
    CollectsUpToStop(v, trail, chunks, less, decode, next, 0, k, rest);
    YieldsRecord(v, Cuts(v, trail, chunks), limit, decode, r, front, chunks[k..], s, end, less, next, rest);
  }

  lemma {:induction false} ReadsOn(v: Json.Value, trail: string, chunks: seq<string>, limit: nat,
      decode: string -> Option<nat>,
      r: nat, j: nat, k: nat, front: string, s: string)
    requires IsCorpus(v) && IsDecoder(decode) && r < |v.elements| && 1 <= k <= |chunks| && limit > 0
    requires Standing(v, trail, chunks, r, j, k, front)
    requires |Rest(v, trail, r + 1)| < |Concat(chunks[k..])| < |Beyond(v, trail, r)|
    requires s == Skipped(front) != "" && s[0] == '{' && s + Concat(chunks[k..]) == Beyond(v, trail, r)
    ensures Yields(v, Cuts(v, trail, chunks), limit, decode, r, front, chunks[k..])
    decreases limit, |chunks| - k, 0
  {
    TruncatedRecord(v, trail, r, s, Concat(chunks[k..]), decode);
    NextChunk(chunks, k, s);
    StandsOn(v, trail, chunks, r, j, k, front, s);
    CollectsUpToStop(v, trail, chunks, limit, decode, r, |Gap(v, r)|, k + 1, s + chunks[k]);
    YieldsLater(v, Cuts(v, trail, chunks), limit, decode, r, front, chunks[k..], s);
  }

  lemma NextChunk(chunks: seq<string>, k: nat, s: string)
    requires k <= |chunks| && Concat(chunks[k..]) != ""
    ensures k < |chunks| && s + Concat(chunks[k..]) == s + chunks[k] + Concat(chunks[k + 1..])
    ensures chunks[k..][0] == chunks[k] && chunks[k..][1..] == chunks[k + 1..]
  {
    assert chunks[k..] == [chunks[k]] + chunks[k + 1..];
    ConcatFront(chunks[k], chunks[k + 1..]);
  }

  // ---- Whole files ----

  function FileText(lead: string, v: Json.Value, trail: string): string {
    lead + Json.Text(v) + trail
  }

  lemma FileParts(lead: string, v: Json.Value, trail: string)
    requires IsCorpus(v)
    ensures FileText(lead, v, trail) == (lead + "[") + Rest(v, trail, 0)
  {
    FileFrom(v, trail, 0);
    Associate(lead, Json.Inside(v), trail);
    assert Before(v, 0) + Rest(v, trail, 0) == Rest(v, trail, 0);
  }

  lemma Associate(lead: string, inside: string, trail: string)
    ensures lead + ("[" + inside + "]") + trail == (lead + "[") + (inside + "]" + trail)
  {}

  /** Where reading starts: right behind the opening bracket, if that is in the first chunk. */
  lemma Opens(lead: string, v: Json.Value, trail: string, first: string, unread: string)
    requires IsCorpus(v) && Json.AllSpace(lead) && first + unread == FileText(lead, v, trail)
    ensures |first| <= |lead| ==> Skipped(first) == ""
    ensures |first| > |lead| ==>
      Skipped(first) != "" && Skipped(first)[0] == '[' && Skipped(first)[1..] + unread == Rest(v, trail, 0)
  {
    FileParts(lead, v, trail);
    var open, rest := lead + "[", Rest(v, trail, 0);
    assert forall i | 0 <= i < |first| :: first[i] == (first + unread)[i] == (open + rest)[i];
    if |first| <= |lead| {
      SkipsTo(first, |first|);
    } else {
      SkipsTo(first, |lead|);
      assert first[|lead|..][1..] == first[|open|..];
      RestBehind(first, unread, open, rest);
    }
  }

  lemma RestBehind(first: string, unread: string, open: string, rest: string)
    requires first + unread == open + rest && |open| <= |first|
    ensures first[|open|..] + unread == rest
  {
    assert (first + unread)[|open|..] == first[|open|..] + unread;
    assert (open + rest)[|open|..] == rest;
  }

  /** Whatever the chunks, the reader yields the records up to the stop; only an array that does not open in
      the first chunk is refused. */
  lemma StreamsUpToStop(lead: string, v: Json.Value, trail: string, chunks: seq<string>, limit: int,
      decode: string -> Option<nat>)
    requires IsCorpus(v) && IsDecoder(decode) && Json.AllSpace(lead) && limit >= 1
    requires chunks != [] && Concat(chunks) == FileText(lead, v, trail)
    ensures |chunks[0]| <= |lead| ==> Streamed(chunks, limit, decode) == Failed(NotAnArray)
    ensures |chunks[0]| > |lead| ==>
      var m := Stop(|v.elements|, Cuts(v, trail, chunks), limit, 0);
      Streamed(chunks, limit, decode) == Outcome.Records(Records(v, 0, m))
  {
    var first, unread := chunks[0], Concat(chunks[1..]);
    assert chunks == [first] + chunks[1..] && chunks[0..] == chunks;
    ConcatFront(first, chunks[1..]);
    Opens(lead, v, trail, first, unread);
    FileParts(lead, v, trail);
    if |first| > |lead| {
      if |unread| < |Beyond(v, trail, 0)| {
        NotCut(v, trail, chunks, 0, 1);
      }
      var front := Skipped(first)[1..];
      assert Rest(v, trail, 0)[0..] == Rest(v, trail, 0);
      CollectsUpToStop(v, trail, chunks, limit, decode, 0, 0, 1, front);
    }
  }

  /** The stop is the limit, or the end of the array, or the first record with a chunk ending in front of it. */
  lemma {:induction false} StopIsFirstCut(n: nat, cuts: set<nat>, limit: nat, r: nat)
    requires r <= n
    ensures var m, full := Stop(n, cuts, limit, r), Min(r + limit, n);
      && r <= m <= full && (m < full ==> m in cuts) && forall i: nat | r <= i < m :: i !in cuts
    decreases limit
  {
    if limit > 0 && r < n && r !in cuts {
      StopIsFirstCut(n, cuts, limit - 1, r + 1);
    }
  }

  /** Streaming agrees with parsing the whole file and taking the first `limit` elements, if and only if the array
      opens in the first chunk and no chunk ends in front of one of them. */
  lemma AgreesUnlessCut(lead: string, v: Json.Value, trail: string, chunks: seq<string>, limit: int,
      decode: string -> Option<nat>)
    requires IsCorpus(v) && IsDecoder(decode) && Json.AllSpace(lead) && limit >= 1
    requires chunks != [] && Concat(chunks) == FileText(lead, v, trail)
    ensures var full := Min(limit, |v.elements|);
      Streamed(chunks, limit, decode) == Outcome.Records(Records(v, 0, full))
      <==> |chunks[0]| > |lead| && forall r: nat | r < full :: r !in Cuts(v, trail, chunks)
  {
    StreamsUpToStop(lead, v, trail, chunks, limit, decode);
    var full, cuts := Min(limit, |v.elements|), Cuts(v, trail, chunks);
    StopIsFirstCut(|v.elements|, cuts, limit, 0);
    var m := Stop(|v.elements|, cuts, limit, 0);
    assert |Records(v, 0, m)| == m && |Records(v, 0, full)| == full;
  }

  /** A file that arrives in one piece is read like a whole-file parse. */
  lemma OneChunkAgrees(lead: string, v: Json.Value, trail: string, limit: int, decode: string -> Option<nat>)
    requires IsCorpus(v) && IsDecoder(decode) && Json.AllSpace(lead) && limit >= 1
    ensures Streamed([FileText(lead, v, trail)], limit, decode) ==
      Outcome.Records(Records(v, 0, Min(limit, |v.elements|)))
  {
    var chunks := [FileText(lead, v, trail)];
    ConcatFront(chunks[0], []);
    assert chunks == [chunks[0]] + [];
    forall r: nat | r < Min(limit, |v.elements|) ensures r !in Cuts(v, trail, chunks) {
      BeyondStarts(v, trail, r);
      assert forall k: nat | 1 <= k <= 1 :: chunks[k..] == [];
    }
    AgreesUnlessCut(lead, v, trail, chunks, limit, decode);
  }

  // ---- Files as they are read ----

  /** How many characters every read asks for. */
  const CHUNK: nat := 1048576

  /** What read(CHUNK) returns until the end of the file. */
  function FileChunks(text: string): (chunks: seq<string>)
    ensures "" !in chunks && (text != "" ==> chunks != [] && |chunks[0]| == Min(CHUNK, |text|))
  {
    if text == "" then [] else if |text| <= CHUNK then [text] else [text[..CHUNK]] + FileChunks(text[CHUNK..])
  }

  lemma {:induction false} ChunksAreTheFile(text: string)
    ensures Concat(FileChunks(text)) == text
  {
    if |text| > CHUNK {
      ChunksAreTheFile(text[CHUNK..]);
      ConcatFront(text[..CHUNK], FileChunks(text[CHUNK..]));
      assert text == text[..CHUNK] + text[CHUNK..];
    } else if text != "" {
      ConcatFront(text, []);
      assert [text] + [] == [text];
    }
  }

  /** How much of the file is unread behind k chunks. */
  lemma UnreadBehind(text: string, k: nat)
    requires k <= |FileChunks(text)|
    ensures |Concat(FileChunks(text)[k..])| == Max(0, |text| - k * CHUNK)
  {
    UnreadOf(text, FileChunks(text), k);
  }

  lemma {:induction false} UnreadOf(text: string, chunks: seq<string>, k: nat)
    requires chunks == FileChunks(text) && k <= |chunks|
    ensures |Concat(chunks[k..])| == Max(0, |text| - k * CHUNK)
    decreases k
  {
    if k == 0 {
      ChunksAreTheFile(text);
      assert chunks[0..] == chunks;
    } else if |text| > CHUNK {
      var first, rest := FirstChunk(text);
      UnreadOf(text[CHUNK..], rest, k - 1);
      BehindFirst(chunks, first, rest, k);
    } else {
      NoneLeft(text, chunks, k);
    }
  }

  lemma FirstChunk(text: string) returns (first: string, rest: seq<string>)
    requires |text| > CHUNK
    ensures rest == FileChunks(text[CHUNK..]) && FileChunks(text) == [first] + rest
  {
    first, rest := text[..CHUNK], FileChunks(text[CHUNK..]);
  }

  lemma NoneLeft(text: string, chunks: seq<string>, k: nat)
    requires chunks == FileChunks(text) && |text| <= CHUNK && 0 < k <= |chunks|
    ensures Concat(chunks[k..]) == "" && |text| <= k * CHUNK
  {
    assert chunks[k..] == [];
  }

  lemma BehindFirst<T>(all: seq<T>, first: T, rest: seq<T>, k: nat)
    requires all == [first] + rest && 0 < k <= |all|
    ensures all[k..] == rest[k - 1..]
  {}

  lemma {:induction false} AllButLastFull(text: string, k: nat)
    requires k * CHUNK < |text|
    ensures k < |FileChunks(text)|
  {
    if k > 0 {
      AllButLastFull(text[CHUNK..], k - 1);
    }
  }

  /** The k-th boundary between reads lies in the gap in front of record r, or at its edge; `size` is the size
      of the file. */
  predicate BoundaryInGap(v: Json.Value, trail: string, size: nat, r: nat, k: nat)
    requires v.Arr? && r <= |v.elements|
  {
    |Beyond(v, trail, r)| <= size - k * CHUNK <= |Rest(v, trail, r)|
  }

  ghost predicate Misaligned(v: Json.Value, trail: string, size: nat, r: nat)
    requires v.Arr? && r <= |v.elements|
  {
    exists k: nat {:trigger BoundaryInGap(v, trail, size, r, k)} | k > 0 :: BoundaryInGap(v, trail, size, r, k)
  }

  lemma CutIffMisaligned(v: Json.Value, trail: string, text: string, r: nat)
    requires IsCorpus(v) && r <= |v.elements|
    ensures r in Cuts(v, trail, FileChunks(text)) <==> Misaligned(v, trail, |text|, r)
  {
    var chunks := FileChunks(text);
    BeyondStarts(v, trail, r);
    if CutAt(v, trail, chunks, r) {
      var k: nat :| 1 <= k <= |chunks| && EndsInGap(v, trail, r, |Concat(chunks[k..])|);
      UnreadBehind(text, k);
      assert BoundaryInGap(v, trail, |text|, r, k);
    }
    if k: nat :| k > 0 && BoundaryInGap(v, trail, |text|, r, k) {
      AllButLastFull(text, k);
      UnreadBehind(text, k);
      assert EndsInGap(v, trail, r, |Concat(chunks[k..])|);
    }
  }

  /** Reading a file agrees with parsing it whole and taking the first `limit` elements, if and only if less than
      a chunk of blanks comes first and no multiple of CHUNK lies in the gap in front of one of those records. */
  lemma FileAgreesIffAligned(lead: string, v: Json.Value, trail: string, limit: int, decode: string -> Option<nat>)
    requires IsCorpus(v) && IsDecoder(decode) && Json.AllSpace(lead) && limit >= 1
    ensures var text, full := FileText(lead, v, trail), Min(limit, |v.elements|);
      Streamed(FileChunks(text), limit, decode) == Outcome.Records(Records(v, 0, full))
      <==> |lead| < CHUNK && forall r: nat | r < full :: !Misaligned(v, trail, |text|, r)
  {
    var text := FileText(lead, v, trail);
    ChunksAreTheFile(text);
    forall r: nat | r <= |v.elements|
      ensures r in Cuts(v, trail, FileChunks(text)) <==> Misaligned(v, trail, |text|, r)
    {
      CutIffMisaligned(v, trail, text, r);
    }
    AgreesUnlessCut(lead, v, trail, FileChunks(text), limit, decode);
  }

  /** Two empty records with so many blanks behind the first that the first read ends among them. */
  function TwoRecords(blanks: string): Json.Value {
    var empty := Json.Obj("", []);
    Json.Arr("", [Json.Element("", None, empty, blanks), Json.Element("", None, empty, "")])
  }

  lemma TwoRecordsCorpus(blanks: string)
    requires Json.AllSpace(blanks)
    ensures IsCorpus(TwoRecords(blanks))
  {
    var empty := Json.Obj("", []);
    assert Json.WellFormed(empty);
  }

  lemma TwoRecordsParts(v: Json.Value, blanks: string)
    requires v == TwoRecords(blanks)
    ensures Record(v, 0) == Record(v, 1) == "{}" && Gap(v, 0) == Gap(v, 2) == "" && Gap(v, 1) == blanks + ","
  {
    assert Json.Inside(v.elements[0].value) == Json.Inside(v.elements[1].value) == "";
  }

  lemma TwoRecordsRest(v: Json.Value, r: nat, gap: string, record: string, beyond: string)
    requires IsCorpus(v) && r < |v.elements| && Gap(v, r) == gap && Record(v, r) == record
    requires Rest(v, "", r + 1) == beyond
    ensures Beyond(v, "", r) == record + beyond && Rest(v, "", r) == gap + (record + beyond)
  {}

  lemma TwoRecordsText(blanks: string)
    requires Json.AllSpace(blanks)
    ensures var v := TwoRecords(blanks);
      && IsCorpus(v) && Record(v, 0) == "{}" && FileText("", v, "") == "[{}" + blanks + ",{}]"
      && |Beyond(v, "", 1)| == 3 && |Rest(v, "", 1)| == |blanks| + 4
      && |Beyond(v, "", 0)| == |Rest(v, "", 0)| == |blanks| + 6
  {
    var v := TwoRecords(blanks);
    TwoRecordsCorpus(blanks);
    TwoRecordsParts(v, blanks);
    assert Rest(v, "", 2) == "]";
    TwoRecordsRest(v, 1, blanks + ",", "{}", "]");
    var tail := blanks + "," + ("{}" + "]");
    TwoRecordsRest(v, 0, "", "{}", tail);
    FileParts("", v, "");
    TextTogether(FileText("", v, ""), blanks);
  }

  lemma TextTogether(text: string, blanks: string)
    requires text == ("" + "[") + ("" + ("{}" + (blanks + "," + ("{}" + "]"))))
    ensures text == "[{}" + blanks + ",{}]"
  {}

  /** If the first read ends among those blanks, only the first record is found. */
  lemma SecondRecordMissed(blanks: string, decode: string -> Option<nat>)
    requires IsDecoder(decode) && Json.AllSpace(blanks) && |blanks| == CHUNK - 3
    ensures Streamed(FileChunks("[{}" + blanks + ",{}]"), 2, decode) == Outcome.Records(["{}"])
  {
    var v := TwoRecords(blanks);
    TwoRecordsText(blanks);
    var text := FileText("", v, "");
    var chunks := FileChunks(text);
    ChunksAreTheFile(text);
    CutIffMisaligned(v, "", text, 0);
    CutIffMisaligned(v, "", text, 1);
    assert BoundaryInGap(v, "", |text|, 1, 1);
    assert 0 !in Cuts(v, "", chunks) && 1 in Cuts(v, "", chunks);
    StreamsUpToStop("", v, "", chunks, 2, decode);
    assert Stop(2, Cuts(v, "", chunks), 2, 0) == Stop(2, Cuts(v, "", chunks), 1, 1) == 1;
    assert Records(v, 0, 1) == ["{}"];
  }

  // ---- There are decoders ----

  ghost predicate IsObjectUpTo(s: string, k: nat) {
    k <= |s| && exists v: Json.Value :: Json.WellFormed(v) && v.Obj? && Json.Text(v) == s[..k]
  }

  /** Reads objects and nothing else. */
  ghost function ReadObject(s: string): Option<nat> {
    if exists k: nat :: IsObjectUpTo(s, k) then
      var k: nat :| IsObjectUpTo(s, k);
      Some(k)
    else None
  }

  lemma OneEnd(s: string, j: nat, k: nat)
    requires IsObjectUpTo(s, j) && IsObjectUpTo(s, k)
    ensures j == k
  {
    var v :| Json.WellFormed(v) && v.Obj? && Json.Text(v) == s[..j];
    var w :| Json.WellFormed(w) && w.Obj? && Json.Text(w) == s[..k];
    assert s[..Min(j, k)] <= s[..Max(j, k)];
    Json.ObjectsArePrefixFree(v, w);
    Json.ObjectsArePrefixFree(w, v);
  }

  lemma ReadObjectIsDecoder()
    ensures IsDecoder(ReadObject)
  {
    forall s: string | ReadObject(s).Some? ensures 0 < ReadObject(s).value <= |s| &&
      IsTextUpTo(s, ReadObject(s).value)
    {
      var v :| Json.WellFormed(v) && v.Obj? && Json.Text(v) == s[..ReadObject(s).value];
      Json.StartsAs(v);
    }
    forall v: Json.Value, rest: string | Json.WellFormed(v) && v.Obj?
      ensures ReadObject(Json.Text(v) + rest) == Some(|Json.Text(v)|)
    {
      var s := Json.Text(v) + rest;
      assert s[..|Json.Text(v)|] == Json.Text(v);
      assert IsObjectUpTo(s, |Json.Text(v)|);
      OneEnd(s, |Json.Text(v)|, ReadObject(s).value);
    }
  }
}
