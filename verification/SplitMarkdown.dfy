/** The markdown chunker: a document is cut into sections at its headings, except inside fenced code, and
    every section into chunks that carry its heading. */
module SplitMarkdown {
  import opened Common
  import opened Text
  import opened SplitText

  function SplitLines(s: string): (lines: seq<string>)
    ensures lines != []
  {
    if s == "" then [""]
    else
      var rest := SplitLines(s[1..]);
      if s[0] == '\n' then [""] + rest else [[s[0]] + rest[0]] + rest[1..]
  }

  function JoinLines(lines: seq<string>): string {
    if lines == [] then "" else if |lines| == 1 then lines[0] else lines[0] + "\n" + JoinLines(lines[1..])
  }

  /** Lines are what stands between newlines. */
  lemma {:induction false} LinesRoundTrip(s: string)
    ensures JoinLines(SplitLines(s)) == s
    ensures forall line | line in SplitLines(s) :: '\n' !in line
  {
    if s != "" {
      var rest := SplitLines(s[1..]);
      LinesRoundTrip(s[1..]);
      assert rest[0] in rest;
      if s[0] == '\n' {
        assert ([""] + rest)[1..] == rest;
      } else {
        var lines := [[s[0]] + rest[0]] + rest[1..];
        assert lines[1..] == rest[1..];
        assert forall line | line in rest[1..] :: line in rest;
      }
      assert s == [s[0]] + s[1..];
    }
  }

  ghost predicate StandsAt(part: string, text: string, at: nat) {
    at + |part| <= |text| && text[at..at + |part|] == part
  }

  /** Where line i starts in the document. */
  function LineStart(lines: seq<string>, i: nat): nat
    requires i <= |lines|
  {
    if i == 0 then 0 else LineStart(lines, i - 1) + |lines[i - 1]| + 1
  }

  lemma {:induction false} LineStartBehind(lines: seq<string>, i: nat)
    requires 0 < i <= |lines|
    ensures LineStart(lines, i) == |lines[0]| + 1 + LineStart(lines[1..], i - 1)
  {
    if i > 1 {
      LineStartBehind(lines, i - 1);
    }
  }

  lemma {:induction false} LineStartsRise(lines: seq<string>, i: nat, j: nat)
    requires i < j <= |lines|
    ensures LineStart(lines, i) + |lines[i]| < LineStart(lines, j)
  {
    if i < j - 1 {
      LineStartsRise(lines, i, j - 1);
    }
  }

  lemma {:induction false} RunLength(lines: seq<string>, a: nat, b: nat)
    requires a < b <= |lines|
    ensures LineStart(lines, a) + |JoinLines(lines[a..b])| + 1 == LineStart(lines, b)
    decreases b - a
  {
    assert lines[a..b][1..] == lines[a + 1..b];
    if a + 1 < b {
      RunLength(lines, a + 1, b);
    }
  }

  /** A run of lines, joined again, stands in the document as it is, from the start of its first line. */
  lemma {:induction false} RunIsVerbatim(lines: seq<string>, a: nat, b: nat)
    requires a < b <= |lines|
    ensures StandsAt(JoinLines(lines[a..b]), JoinLines(lines), LineStart(lines, a))
    decreases |lines|
  {
    var run := JoinLines(lines[a..b]);
    if a > 0 {
      RunIsVerbatim(lines[1..], a - 1, b - 1);
      assert lines[1..][a - 1..b - 1] == lines[a..b];
      LineStartBehind(lines, a);
      BehindLine(lines[0], JoinLines(lines[1..]), run, LineStart(lines[1..], a - 1));
    } else {
      RunInFront(lines, b);
      assert lines[0..b] == lines[..b];
    }
  }

  lemma BehindLine(line: string, rest: string, part: string, at: nat)
    requires StandsAt(part, rest, at)
    ensures StandsAt(part, line + "\n" + rest, |line| + 1 + at)
  {
    var whole := line + "\n" + rest;
    assert |"\n"| == 1;
    assert forall i | 0 <= i < |part| :: part[i] == rest[at + i] == whole[|line| + 1 + at + i];
  }

  lemma {:induction false} RunInFront(lines: seq<string>, b: nat)
    requires 0 < b <= |lines|
    ensures JoinLines(lines[..b]) <= JoinLines(lines)
  {
    if b > 1 {
      RunInFront(lines[1..], b - 1);
      assert lines[..b][1..] == lines[1..][..b - 1];
    }
  }

  function Hashes(line: string): (n: nat)
    ensures n <= |line|
  {
    if line != "" && line[0] == '#' then 1 + Hashes(line[1..]) else 0
  }

  /** One to six '#', whitespace, and at least one more character. */
  predicate IsHeading(line: string) {
    var k := Hashes(line);
    1 <= k <= 6 && k + 2 <= |line| && IsSpace(line[k])
  }

  function HeadingText(line: string): string {
    Strip(line[Hashes(line)..])
  }

  predicate IsFence(line: string) {
    "```" <= Strip(line)
  }

  /** Whether a fence is open once the first n lines are read. */
  predicate Fenced(lines: seq<string>, n: nat)
    requires n <= |lines|
  {
    if n == 0 then false else if IsFence(lines[n - 1]) then !Fenced(lines, n - 1) else Fenced(lines, n - 1)
  }

  /** Line i is a heading, and not inside a fence. */
  predicate HeadingAt(lines: seq<string>, i: nat) {
    i < |lines| && IsHeading(lines[i]) && !Fenced(lines, i + 1)
  }

  predicate HasText(lines: seq<string>) {
    exists i | 0 <= i < |lines| :: Strip(lines[i]) != ""
  }

  datatype Section = Section(heading: Option<string>, lines: seq<string>)

  /** The heading in force for the lines from `start` on. */
  function HeadingBefore(lines: seq<string>, start: nat): Option<string>
    requires start <= |lines|
  {
    if start == 0 then None else Some(HeadingText(lines[start - 1]))
  }

  ghost predicate NoHeading(lines: seq<string>, lo: nat, hi: nat) {
    forall i: nat | lo <= i < hi :: !HeadingAt(lines, i)
  }

  /** A section is a run of lines from right behind a heading, or from the start of the document, to the
      next heading or the end; it has no heading inside and is not blank. */
  ghost predicate SectionAt(lines: seq<string>, start: nat, section: Section) {
    var end := start + |section.lines|;
    && end <= |lines| && section.lines == lines[start..end] && HasText(section.lines)
    && section.heading == HeadingBefore(lines, start)
    && (start == 0 || HeadingAt(lines, start - 1))
    && NoHeading(lines, start, end)
    && (end == |lines| || HeadingAt(lines, end))
  }

  ghost predicate InSection(sections: seq<Section>, starts: seq<nat>, i: nat)
    requires |starts| == |sections|
  {
    exists k | 0 <= k < |sections| :: starts[k] <= i < starts[k] + |sections[k].lines|
  }

  /** The sections are in order, and miss no line of lines[..end] but headings and blank lines. */
  ghost predicate Sectioned(lines: seq<string>, sections: seq<Section>, starts: seq<nat>, end: nat) {
    && AllAt(lines, sections, starts, end) && InOrder(sections, starts) && NoneMissed(lines, sections, starts, end)
  }

  ghost predicate AllAt(lines: seq<string>, sections: seq<Section>, starts: seq<nat>, end: nat) {
    && |starts| == |sections|
    && (forall k | 0 <= k < |sections| :: SectionAt(lines, starts[k], sections[k]))
    && (forall k | 0 <= k < |sections| :: starts[k] + |sections[k].lines| <= end)
  }

  lemma AllAtGrow(lines: seq<string>, sections: seq<Section>, starts: seq<nat>, end: nat, start: nat,
      section: Section, next: nat)
    requires AllAt(lines, sections, starts, end) && SectionAt(lines, start, section)
    requires end <= next && start + |section.lines| == next
    ensures AllAt(lines, sections + [section], starts + [start], next)
  {
    var all, from := sections + [section], starts + [start];
    forall k | 0 <= k < |all| ensures SectionAt(lines, from[k], all[k]) && from[k] + |all[k].lines| <= next {
      assert k < |sections| ==> all[k] == sections[k] && from[k] == starts[k];
    }
  }

  ghost predicate InOrder(sections: seq<Section>, starts: seq<nat>)
    requires |starts| == |sections|
  {
    forall j, k | 0 <= j < k < |sections| :: starts[j] + |sections[j].lines| < starts[k]
  }

  lemma OrderGrows(sections: seq<Section>, starts: seq<nat>, end: nat, start: nat, section: Section)
    requires |starts| == |sections| && InOrder(sections, starts) && (sections == [] || end < start)
    requires forall k | 0 <= k < |sections| :: starts[k] + |sections[k].lines| <= end
    ensures InOrder(sections + [section], starts + [start])
  {
    var all, from := sections + [section], starts + [start];
    forall j, k | 0 <= j < k < |all| ensures from[j] + |all[j].lines| < from[k] {
      assert all[j] == sections[j] && from[j] == starts[j];
    }
  }

  ghost predicate NoneMissed(lines: seq<string>, sections: seq<Section>, starts: seq<nat>, end: nat)
    requires |starts| == |sections|
  {
    end <= |lines| && forall i: nat {:trigger InSection(sections, starts, i)} |
      i < end && !HeadingAt(lines, i) && Strip(lines[i]) != "" :: InSection(sections, starts, i)
  }

  lemma NoneMissedGrows(lines: seq<string>, sections: seq<Section>, starts: seq<nat>, end: nat, start: nat,
      section: Section, next: nat)
    requires |starts| == |sections| && NoneMissed(lines, sections, starts, end)
    requires NoText(lines, end, start) && start + |section.lines| == next <= |lines|
    ensures NoneMissed(lines, sections + [section], starts + [start], next)
  {
    forall i: nat | i < next && !HeadingAt(lines, i) && Strip(lines[i]) != ""
      ensures InSection(sections + [section], starts + [start], i)
    {
      StillInSection(sections, starts, section, start, i);
    }
  }

  lemma SectionsGrow(lines: seq<string>, sections: seq<Section>, starts: seq<nat>, end: nat, start: nat,
      section: Section, next: nat)
    requires Sectioned(lines, sections, starts, end) && SectionAt(lines, start, section)
    requires sections == [] || end < start
    requires NoText(lines, end, start) && start + |section.lines| == next
    ensures Sectioned(lines, sections + [section], starts + [start], next)
  {
    AllAtGrow(lines, sections, starts, end, start, section, next);
    OrderGrows(sections, starts, end, start, section);
    NoneMissedGrows(lines, sections, starts, end, start, section, next);
  }

  lemma StillInSection(sections: seq<Section>, starts: seq<nat>, section: Section, start: nat, i: nat)
    requires |starts| == |sections| && (InSection(sections, starts, i) || start <= i < start + |section.lines|)
    ensures InSection(sections + [section], starts + [start], i)
  {
    var all, from := sections + [section], starts + [start];
    if InSection(sections, starts, i) {
      var k :| 0 <= k < |sections| && starts[k] <= i < starts[k] + |sections[k].lines|;
      assert all[k] == sections[k] && from[k] == starts[k];
    } else {
      assert all[|sections|] == section && from[|sections|] == start;
    }
  }

  /** Nothing between lo and hi but headings and blank lines. */
  ghost predicate NoText(lines: seq<string>, lo: nat, hi: nat) {
    lo <= hi <= |lines| && forall i: nat | lo <= i < hi :: HeadingAt(lines, i) || Strip(lines[i]) == ""
  }

  lemma NothingMissed(lines: seq<string>, sections: seq<Section>, starts: seq<nat>, end: nat, next: nat)
    requires Sectioned(lines, sections, starts, end) && NoText(lines, end, next)
    ensures Sectioned(lines, sections, starts, next)
  {}

  /** The run being read: lines[start..i], under the heading in front of it. */
  ghost predicate Reading(lines: seq<string>, start: nat, i: nat, heading: Option<string>, buf: seq<string>) {
    && start <= i <= |lines| && buf == lines[start..i]
    && heading == HeadingBefore(lines, start)
    && (start == 0 || HeadingAt(lines, start - 1)) && NoHeading(lines, start, i)
  }

  /** The sections so far end at `end`, and the run being read starts at `start`, behind its heading. */
  ghost predicate Scanned(lines: seq<string>, sections: seq<Section>, starts: seq<nat>, end: nat, start: nat) {
    Sectioned(lines, sections, starts, end) && NoText(lines, end, start) && (sections == [] || end < start)
  }

  lemma BehindHeading(lines: seq<string>, sections: seq<Section>, starts: seq<nat>, i: nat)
    requires Sectioned(lines, sections, starts, i) && HeadingAt(lines, i)
    ensures Scanned(lines, sections, starts, i, i + 1)
  {}

  lemma ReadOn(lines: seq<string>, start: nat, i: nat, heading: Option<string>, buf: seq<string>)
    requires Reading(lines, start, i, heading, buf) && i < |lines|
    ensures Fenced(lines, i + 1) == (if IsFence(lines[i]) then !Fenced(lines, i) else Fenced(lines, i))
    ensures HeadingAt(lines, i) <==> IsHeading(lines[i]) && !Fenced(lines, i + 1)
    ensures HeadingAt(lines, i) ==> Reading(lines, i + 1, i + 1, Some(HeadingText(lines[i])), [])
    ensures !HeadingAt(lines, i) ==> Reading(lines, start, i + 1, heading, buf + [lines[i]])
  {}

  /** Closes the run lines[start..i]: it becomes a section unless it is blank. */
  method Flush(sections: seq<Section>, heading: Option<string>, buf: seq<string>, ghost lines: seq<string>,
      ghost starts: seq<nat>, ghost end: nat, ghost start: nat, ghost i: nat)
    returns (more: seq<Section>, ghost from: seq<nat>)
    requires Reading(lines, start, i, heading, buf) && (i == |lines| || HeadingAt(lines, i))
    requires Scanned(lines, sections, starts, end, start)
    ensures Sectioned(lines, more, from, i)
  {
    if HasText(buf) {
      more, from := sections + [Section(heading, buf)], starts + [start];
      SectionsGrow(lines, sections, starts, end, start, Section(heading, buf), i);
    } else {
      more, from := sections, starts;
      assert forall j: nat | start <= j < i :: lines[j] == buf[j - start];
      NothingMissed(lines, sections, starts, end, i);
    }
  }

  /** Closes the run in front of the heading in line i. */
  method FlushAt(sections: seq<Section>, heading: Option<string>, buf: seq<string>, ghost lines: seq<string>,
      ghost starts: seq<nat>, ghost end: nat, ghost start: nat, ghost i: nat)
    returns (more: seq<Section>, ghost from: seq<nat>)
    requires Reading(lines, start, i, heading, buf) && HeadingAt(lines, i)
    requires Scanned(lines, sections, starts, end, start)
    ensures Scanned(lines, more, from, i, i + 1)
  {
    more, from := Flush(sections, heading, buf, lines, starts, end, start, i);
    BehindHeading(lines, more, from, i);
  }

  /** The sections of a document are its maximal runs without an unfenced heading, but for blank ones. */
  ghost predicate AreSections(lines: seq<string>, sections: seq<Section>) {
    exists starts :: Sectioned(lines, sections, starts, |lines|)
  }

  method Sections(lines: seq<string>) returns (sections: seq<Section>)
    ensures AreSections(lines, sections)
  {
    sections := [];
    ghost var starts: seq<nat> := [];
    var heading: Option<string> := None;
    var buf: seq<string> := [];
    var inFence := false;
    ghost var end: nat, start: nat := 0, 0;
    for i := 0 to |lines|
      invariant Reading(lines, start, i, heading, buf) && inFence == Fenced(lines, i)
      invariant Scanned(lines, sections, starts, end, start)
    {
      ReadOn(lines, start, i, heading, buf);
      var line := lines[i];
      if IsFence(line) {
        inFence := !inFence;
      }
      if IsHeading(line) && !inFence {
        sections, starts := FlushAt(sections, heading, buf, lines, starts, end, start, i);
        heading, buf := Some(HeadingText(line)), [];
        end, start := i, i + 1;
      } else {
        buf := buf + [line];
      }
    }
    sections, starts := Flush(sections, heading, buf, lines, starts, end, start, |lines|);
  }

  datatype Chunk = Chunk(text: string, heading: Option<string>)

  function Prefix(heading: Option<string>): string {
    if heading.Some? && heading.value != "" then "# " + heading.value + "\n\n" else ""
  }

  function Body(section: Section): string {
    Strip(JoinLines(section.lines))
  }

  /** The chunks of one section: its heading in front of every piece. */
  function Headed(section: Section, pieces: seq<string>): seq<Chunk> {
    seq(|pieces|, i requires 0 <= i < |pieces| => Chunk(Prefix(section.heading) + pieces[i], section.heading))
  }

  /** A section and the pieces its body is cut into, and how long each may be. */
  datatype Cutting = Cutting(section: Section, pieces: seq<string>, limit: int)

  function AllHeaded(cuttings: seq<Cutting>): seq<Chunk> {
    if cuttings == [] then [] else
    var n := |cuttings| - 1;
    AllHeaded(cuttings[..n]) + Headed(cuttings[n].section, cuttings[n].pieces)
  }

  const OVERLAP := 100

  /** The longest piece a section may be cut into: what the heading leaves of the chunk size, unless single
      units are longer. */
  function Limit(section: Section, chunkSize: int): int {
    LongestChunk(Body(section), chunkSize - |Prefix(section.heading)|, OVERLAP)
  }

  /** The pieces of a section, each a slice of its body, cover the body; and there is one. */
  ghost predicate CutUp(c: Cutting) {
    c.pieces != [] && IsChunking(Body(c.section), c.pieces, OVERLAP, c.limit)
  }

  lemma TextHasBody(section: Section)
    requires HasText(section.lines)
    ensures Body(section) != ""
  {
    var i :| 0 <= i < |section.lines| && Strip(section.lines[i]) != "";
    RunIsVerbatim(section.lines, i, i + 1);
    var at := LineStart(section.lines, i);
    assert section.lines[i..i + 1] == [section.lines[i]];
    var whole := JoinLines(section.lines);
    StripsToNothing(section.lines[i]);
    StripsToNothing(whole);
    var j :| 0 <= j < |section.lines[i]| && !IsSpace(section.lines[i][j]);
    assert whole[at + j] == whole[at..at + |section.lines[i]|][j];
  }

  /** A body that fits is one piece. */
  lemma WholeBody(section: Section, limit: int)
    requires Body(section) != "" && |Body(section)| <= limit
    ensures CutUp(Cutting(section, [Body(section)], limit))
  {
    var body := Body(section);
    StripTwice(JoinLines(section.lines));
    assert body[0..|body|] == body;
    var slices := [Slice(0, 0, |body|, |body|)];
    assert Cut(body, slices[0], body);
    forall i | 0 <= i < |body| ensures Covered(slices, i) {
      assert slices[0].from <= i < slices[0].to;
    }
    ChunkedIsChunking(body, [body], slices, OVERLAP, limit);
  }

  lemma StripTwice(s: string)
    ensures Strip(Strip(s)) == Strip(s)
    ensures Strip(s) != "" ==> !IsSpace(Strip(s)[0]) && !IsSpace(Strip(s)[|Strip(s)| - 1])
  {
    var lo, hi := StripBounds(s);
    var body := Strip(s);
    if body != "" {
      assert body[0] == s[lo] && body[|body| - 1] == s[hi - 1];
      assert LeftStrip(body) == body;
    }
  }

  lemma SomePiece(section: Section, pieces: seq<string>, bound: int)
    requires HasText(section.lines) && IsChunking(Body(section), pieces, OVERLAP, bound)
    ensures CutUp(Cutting(section, pieces, bound))
  {
    var slices: seq<Slice> :| Chunked(Body(section), pieces, slices, OVERLAP, bound, |Body(section)|);
    TextHasBody(section);
    StripTwice(JoinLines(section.lines));
    assert Covered(slices, 0);
  }

  lemma FitsWhole(section: Section, chunkSize: int)
    requires HasText(section.lines) && |Prefix(section.heading)| + |Body(section)| <= chunkSize
    ensures CutUp(Cutting(section, [Body(section)], Limit(section, chunkSize)))
  {
    TextHasBody(section);
    WholeBody(section, Limit(section, chunkSize));
  }

  /** A body that fits behind its heading stays in one piece; any other is split as text. */
  function Pieces(section: Section, chunkSize: int): seq<string> {
    var room := chunkSize - |Prefix(section.heading)|;
    if |Body(section)| <= room then [Body(section)] else SplitChunks(Body(section), room, OVERLAP)
  }

  method SplitSection(section: Section, chunkSize: int) returns (pieces: seq<string>)
    requires HasText(section.lines)
    ensures pieces == Pieces(section, chunkSize)
    ensures CutUp(Cutting(section, pieces, Limit(section, chunkSize)))
  {
    var prefix, body := Prefix(section.heading), Body(section);
    if |prefix| + |body| <= chunkSize {
      pieces := [body];
      FitsWhole(section, chunkSize);
    } else {
      var room := chunkSize - |prefix|;
      LongPieces(section, chunkSize, body, room);
      pieces := SplitText.Split(body, room, OVERLAP);
      CutAsText(section, chunkSize, body, room, pieces);
    }
  }

  lemma CutAsText(section: Section, chunkSize: int, body: string, room: int, pieces: seq<string>)
    requires HasText(section.lines) && body == Body(section) && room == chunkSize - |Prefix(section.heading)|
    requires IsChunking(body, pieces, OVERLAP, LongestChunk(body, room, OVERLAP))
    ensures CutUp(Cutting(section, pieces, Limit(section, chunkSize)))
  {
    SomePiece(section, pieces, Limit(section, chunkSize));
  }

  lemma LongPieces(section: Section, chunkSize: int, body: string, room: int)
    requires body == Body(section) && room == chunkSize - |Prefix(section.heading)| < |body|
    ensures Pieces(section, chunkSize) == SplitChunks(body, room, OVERLAP)
  {}

  ghost predicate AllCutUp(sections: seq<Section>, cuttings: seq<Cutting>) {
    && |cuttings| <= |sections|
    && forall k | 0 <= k < |cuttings| :: cuttings[k].section == sections[k] && CutUp(cuttings[k])
  }

  ghost predicate Limited(cuttings: seq<Cutting>, chunkSize: int) {
    forall c | c in cuttings :: c.limit == Limit(c.section, chunkSize) && c.pieces == Pieces(c.section, chunkSize)
  }

  lemma CutUpGrows(sections: seq<Section>, cuttings: seq<Cutting>, c: Cutting)
    requires AllCutUp(sections, cuttings) && |cuttings| < |sections|
    requires c.section == sections[|cuttings|] && CutUp(c)
    ensures AllCutUp(sections, cuttings + [c])
  {}

  lemma HeadedGrows(cuttings: seq<Cutting>, c: Cutting)
    ensures AllHeaded(cuttings + [c]) == AllHeaded(cuttings) + Headed(c.section, c.pieces)
  {
    assert (cuttings + [c])[..|cuttings|] == cuttings;
  }

  method ChunkSections(sections: seq<Section>, chunkSize: int)
    returns (chunks: seq<Chunk>, ghost cuttings: seq<Cutting>)
    requires forall k | 0 <= k < |sections| :: HasText(sections[k].lines)
    ensures |cuttings| == |sections| && AllCutUp(sections, cuttings) && Limited(cuttings, chunkSize)
    ensures chunks == AllHeaded(cuttings)
  {
    chunks, cuttings := [], [];
    for n := 0 to |sections|
      invariant |cuttings| == n && AllCutUp(sections, cuttings) && Limited(cuttings, chunkSize)
      invariant chunks == AllHeaded(cuttings)
    {
      var pieces := SplitSection(sections[n], chunkSize);
      ghost var c := Cutting(sections[n], pieces, Limit(sections[n], chunkSize));
      CutUpGrows(sections, cuttings, c);
      HeadedGrows(cuttings, c);
      chunks := chunks + Headed(sections[n], pieces);
      cuttings := cuttings + [c];
    }
  }

  /** The chunks of a document: its sections in order, each cut into pieces that carry its heading. */
  ghost predicate ChunkedAs(text: string, chunks: seq<Chunk>, chunkSize: int, sections: seq<Section>,
      cuttings: seq<Cutting>)
  {
    && AreSections(SplitLines(text), sections)
    && |cuttings| == |sections| && AllCutUp(sections, cuttings) && Limited(cuttings, chunkSize)
    && chunks == AllHeaded(cuttings)
  }

  method SplitMarkdown(text: string, chunkSize: int) returns (chunks: seq<Chunk>)
    ensures exists sections, cuttings :: ChunkedAs(text, chunks, chunkSize, sections, cuttings)
  {
    var lines := SplitLines(text);
    var sections := Sections(lines);
    SectionsHaveText(lines, sections);
    ghost var cuttings;
    chunks, cuttings := ChunkSections(sections, chunkSize);
    assert ChunkedAs(text, chunks, chunkSize, sections, cuttings);
  }

  lemma SectionsHaveText(lines: seq<string>, sections: seq<Section>)
    requires AreSections(lines, sections)
    ensures forall k | 0 <= k < |sections| :: HasText(sections[k].lines)
  {
    var starts: seq<nat> :| Sectioned(lines, sections, starts, |lines|);
    assert forall k | 0 <= k < |sections| :: SectionAt(lines, starts[k], sections[k]);
  }

  /** The nearest heading above line i, not counting what stands inside fences. */
  function NearestHeading(lines: seq<string>, i: nat): Option<string>
    requires i <= |lines|
  {
    if i == 0 then None
    else if HeadingAt(lines, i - 1) then Some(HeadingText(lines[i - 1]))
    else NearestHeading(lines, i - 1)
  }

  lemma {:induction false} NothingNearer(lines: seq<string>, start: nat, i: nat)
    requires start <= i <= |lines| && NoHeading(lines, start, i) && (start == 0 || HeadingAt(lines, start - 1))
    ensures NearestHeading(lines, i) == HeadingBefore(lines, start)
  {
    if start < i {
      NothingNearer(lines, start, i - 1);
    }
  }

  /** A section carries the heading nearest above each of its lines. */
  lemma SectionHeading(lines: seq<string>, start: nat, section: Section, i: nat)
    requires SectionAt(lines, start, section) && start <= i < start + |section.lines|
    ensures section.heading == NearestHeading(lines, i)
  {
    NothingNearer(lines, start, i);
  }

  /** Which section and which of its pieces chunk i is. */
  lemma {:induction false} ChunkOf(cuttings: seq<Cutting>, i: nat) returns (k: nat, j: nat)
    requires i < |AllHeaded(cuttings)|
    ensures k < |cuttings| && j < |cuttings[k].pieces|
    ensures AllHeaded(cuttings)[i] ==
      Chunk(Prefix(cuttings[k].section.heading) + cuttings[k].pieces[j], cuttings[k].section.heading)
  {
    var n := |cuttings| - 1;
    var before := |AllHeaded(cuttings[..n])|;
    if i < before {
      k, j := ChunkOf(cuttings[..n], i);
    } else {
      k, j := n, i - before;
    }
  }

  lemma SliceOfSlice(text: string, from: nat, whole: string, lo: nat, part: string, at: nat)
    requires StandsAt(whole, text, from) && StandsAt(part, whole, lo) && at == from + lo
    ensures StandsAt(part, text, at)
  {
    assert forall i | 0 <= i < |part| :: part[i] == whole[lo + i] == text[at + i];
  }

  /** text[at..end] lies in the lines of the section that starts at line `start`. */
  ghost predicate WithinLines(lines: seq<string>, start: nat, section: Section, at: nat, end: nat) {
    && section.lines != [] && start + |section.lines| <= |lines|
    && LineStart(lines, start) <= at && end < LineStart(lines, start + |section.lines|)
  }

  /** Where the lines of a section, stripped, stand in the document. */
  lemma BodyIsVerbatim(lines: seq<string>, start: nat, section: Section) returns (at: nat)
    requires SectionAt(lines, start, section)
    ensures StandsAt(Body(section), JoinLines(lines), at)
    ensures WithinLines(lines, start, section, at, at + |Body(section)|)
    ensures forall p: nat | !(at <= p < at + |Body(section)|)
              && LineStart(lines, start) <= p < LineStart(lines, start) + |JoinLines(section.lines)| ::
              p < |JoinLines(lines)| && IsSpace(JoinLines(lines)[p])
  {
    RunIsVerbatim(lines, start, start + |section.lines|);
    RunLength(lines, start, start + |section.lines|);
    at := StrippedStandsAt(JoinLines(lines), JoinLines(section.lines), LineStart(lines, start));
  }

  lemma StrippedStandsAt(text: string, whole: string, from: nat) returns (at: nat)
    requires StandsAt(whole, text, from)
    ensures StandsAt(Strip(whole), text, at) && from <= at && at + |Strip(whole)| <= from + |whole|
    ensures forall p: nat | from <= p < from + |whole| && !(at <= p < at + |Strip(whole)|) :: IsSpace(text[p])
  {
    var lo, hi := StripBounds(whole);
    at := from + lo;
    SliceOfSlice(text, from, whole, lo, Strip(whole), at);
    BlankAround(whole, lo, hi);
    forall p: nat | from <= p < from + |whole| ensures text[p] == whole[p - from] {
      assert text[from..from + |whole|][p - from] == text[p];
    }
  }

  lemma PieceIsVerbatim(c: Cutting, j: nat) returns (at: nat)
    requires CutUp(c) && j < |c.pieces|
    ensures StandsAt(c.pieces[j], Body(c.section), at) && c.pieces[j] != ""
  {
    at := ChunkStandsAt(Body(c.section), c.pieces, OVERLAP, c.limit, j);
  }

  lemma ChunkStandsAt(text: string, chunks: seq<string>, overlap: nat, bound: int, j: nat) returns (at: nat)
    requires IsChunking(text, chunks, overlap, bound) && j < |chunks|
    ensures StandsAt(chunks[j], text, at) && chunks[j] != ""
  {
    var slices: seq<Slice> :| Chunked(text, chunks, slices, overlap, bound, |text|);
    at := CutStandsAt(text, slices[j], chunks[j]);
  }

  lemma CutStandsAt(text: string, slice: Slice, chunk: string) returns (at: nat)
    requires Cut(text, slice, chunk)
    ensures at == slice.from && slice.to == at + |chunk| && StandsAt(chunk, text, at) && chunk != ""
  {
    at := slice.from;
  }

  ghost predicate SolidAt(s: string, q: nat) {
    q < |s| && !IsSpace(s[q])
  }

  /** A piece that holds the character at q. */
  lemma PieceAround(c: Cutting, q: nat) returns (j: nat, piece: string, at: nat)
    requires CutUp(c) && SolidAt(Body(c.section), q)
    ensures j < |c.pieces| && piece == c.pieces[j] && StandsAt(piece, Body(c.section), at) && at <= q < at + |piece|
  {
    var body := Body(c.section);
    var slices: seq<Slice> :| Chunked(body, c.pieces, slices, OVERLAP, c.limit, |body|);
    assert Covered(slices, q);
    j :| 0 <= j < |slices| && slices[j].from <= q < slices[j].to;
    piece := c.pieces[j];
    at := CutStandsAt(body, slices[j], piece);
  }

  lemma SectionIsVerbatim(lines: seq<string>, sections: seq<Section>, k: nat) returns (at: nat)
    requires AreSections(lines, sections) && k < |sections|
    ensures BodyStands(lines, sections[k], at)
  {
    var starts: seq<nat> :| Sectioned(lines, sections, starts, |lines|);
    at := BodyIsVerbatim(lines, starts[k], sections[k]);
  }

  /** Position p is in line i, or is the newline behind it. */
  ghost predicate InLine(lines: seq<string>, i: nat, p: nat) {
    i < |lines| && LineStart(lines, i) <= p <= LineStart(lines, i) + |lines[i]|
  }

  lemma LineOfSection(lines: seq<string>, start: nat, section: Section, at: nat, end: nat, p: nat, i: nat)
    requires WithinLines(lines, start, section, at, end) && at <= p < end && InLine(lines, i, p)
    ensures start <= i < start + |section.lines|
  {
    if i < start {
      LineStartsRise(lines, i, start);
    } else if i > start + |section.lines| {
      LineStartsRise(lines, start + |section.lines|, i);
    }
  }

  /** Every position of text[at..end] is under `heading`: that is the nearest unfenced heading above its line. */
  ghost predicate Under(lines: seq<string>, heading: Option<string>, at: nat, end: nat) {
    forall p: nat, i: nat | at <= p < end && InLine(lines, i, p) :: NearestHeading(lines, i) == heading
  }

  lemma UnderItsHeading(lines: seq<string>, start: nat, section: Section, from: nat, to: nat, at: nat, end: nat)
    requires SectionAt(lines, start, section) && WithinLines(lines, start, section, from, to) && from <= at && end <= to
    ensures Under(lines, section.heading, at, end)
  {
    forall p: nat, i: nat | at <= p < end && InLine(lines, i, p) ensures NearestHeading(lines, i) == section.heading {
      LineOfSection(lines, start, section, from, to, p, i);
      SectionHeading(lines, start, section, i);
    }
  }

  /** The chunk is its heading in front of a piece that stands at `at` in the document, under that heading. */
  ghost predicate StandsUnder(text: string, lines: seq<string>, chunk: Chunk, piece: string, at: nat) {
    && chunk.text == Prefix(chunk.heading) + piece && piece != "" && StandsAt(piece, text, at)
    && Under(lines, chunk.heading, at, at + |piece|)
  }

  lemma PieceStandsUnder(text: string, lines: seq<string>, section: Section, start: nat, from: nat, piece: string,
      lo: nat, at: nat)
    requires SectionAt(lines, start, section) && at == from + lo
    requires StandsAt(Body(section), text, from) && WithinLines(lines, start, section, from, from + |Body(section)|)
    requires StandsAt(piece, Body(section), lo) && piece != ""
    ensures StandsUnder(text, lines, Chunk(Prefix(section.heading) + piece, section.heading), piece, at)
  {
    SliceOfSlice(text, from, Body(section), lo, piece, at);
    UnderItsHeading(lines, start, section, from, from + |Body(section)|, at, at + |piece|);
  }

  /** Every chunk is a heading in front of text that stands in the document word for word, under that heading. */
  lemma ChunkIsVerbatim(text: string, chunks: seq<Chunk>, chunkSize: int, sections: seq<Section>,
      cuttings: seq<Cutting>, i: nat)
    returns (piece: string, at: nat)
    requires ChunkedAs(text, chunks, chunkSize, sections, cuttings) && i < |chunks|
    ensures StandsUnder(text, SplitLines(text), chunks[i], piece, at)
  {
    var k, lo;
    k, piece, lo := PieceOfChunk(sections, cuttings, i);
    LinesRoundTrip(text);
    at := PieceInDocument(SplitLines(text), sections, k, piece, lo);
  }

  lemma PieceOfChunk(sections: seq<Section>, cuttings: seq<Cutting>, i: nat) returns (k: nat, piece: string, lo: nat)
    requires AllCutUp(sections, cuttings) && i < |AllHeaded(cuttings)|
    ensures k < |sections| && piece != "" && StandsAt(piece, Body(sections[k]), lo)
    ensures AllHeaded(cuttings)[i] == Chunk(Prefix(sections[k].heading) + piece, sections[k].heading)
  {
    var j;
    k, j := ChunkOf(cuttings, i);
    piece := cuttings[k].pieces[j];
    lo := PieceIsVerbatim(cuttings[k], j);
  }

  lemma PieceInDocument(lines: seq<string>, sections: seq<Section>, k: nat, piece: string, lo: nat) returns (at: nat)
    requires AreSections(lines, sections) && k < |sections|
    requires StandsAt(piece, Body(sections[k]), lo) && piece != ""
    ensures var heading := sections[k].heading;
      StandsUnder(JoinLines(lines), lines, Chunk(Prefix(heading) + piece, heading), piece, at)
  {
    var section := sections[k];
    var from := SectionIsVerbatim(lines, sections, k);
    at := from + lo;
    PieceAtPlace(lines, section, from, piece, lo, at);
  }

  lemma {:induction false} ChunkAt(cuttings: seq<Cutting>, k: nat, j: nat) returns (i: nat)
    requires k < |cuttings| && j < |cuttings[k].pieces|
    ensures i < |AllHeaded(cuttings)|
    ensures AllHeaded(cuttings)[i] ==
      Chunk(Prefix(cuttings[k].section.heading) + cuttings[k].pieces[j], cuttings[k].section.heading)
  {
    var n := |cuttings| - 1;
    if k < n {
      i := ChunkAt(cuttings[..n], k, j);
    } else {
      i := |AllHeaded(cuttings[..n])| + j;
    }
  }

  /** A character of line i of a section stands in the section's run, and if it is not blank in its body. */
  lemma InBody(lines: seq<string>, start: nat, section: Section, i: nat, p: nat) returns (from: nat)
    requires SectionAt(lines, start, section) && start <= i < start + |section.lines|
    requires LineStart(lines, i) <= p < LineStart(lines, i) + |lines[i]| <= |JoinLines(lines)|
    requires !IsSpace(JoinLines(lines)[p])
    ensures StandsAt(Body(section), JoinLines(lines), from) && from <= p < from + |Body(section)|
    ensures WithinLines(lines, start, section, from, from + |Body(section)|)
  {
    from := BodyIsVerbatim(lines, start, section);
    RunLength(lines, start, start + |section.lines|);
    if start < i { LineStartsRise(lines, start, i); }
    LineStartsRise(lines, i, start + |section.lines|);
  }

  lemma LineIsThere(lines: seq<string>, i: nat)
    requires i < |lines|
    ensures StandsAt(lines[i], JoinLines(lines), LineStart(lines, i))
  {
    assert lines[i..i + 1] == [lines[i]];
    assert JoinLines([lines[i]]) == lines[i];
    RunIsVerbatim(lines, i, i + 1);
  }

  /** p is the position of a character of line i that is not blank. */
  ghost predicate SolidIn(lines: seq<string>, i: nat, p: nat) {
    i < |lines| && LineStart(lines, i) <= p && SolidAt(lines[i], p - LineStart(lines, i))
  }

  /** The chunk holds the document's character at p at its place, under `heading`. */
  ghost predicate CarriedBy(lines: seq<string>, chunk: Chunk, piece: string, at: nat, p: nat, heading: Option<string>) {
    && StandsUnder(JoinLines(lines), lines, chunk, piece, at) && at <= p < at + |piece|
    && chunk.heading == heading
  }

  ghost predicate Carried(lines: seq<string>, chunks: seq<Chunk>, p: nat, heading: Option<string>) {
    exists n: nat, piece, at | n < |chunks| :: CarriedBy(lines, chunks[n], piece, at, p, heading)
  }

  /** No line but headings is lost: every character of it that is not blank stands, at its place in the document,
      in a chunk with the line's nearest heading. */
  lemma NothingLost(text: string, chunks: seq<Chunk>, chunkSize: int, sections: seq<Section>, cuttings: seq<Cutting>,
      i: nat, p: nat)
    requires ChunkedAs(text, chunks, chunkSize, sections, cuttings)
    requires SolidIn(SplitLines(text), i, p) && !HeadingAt(SplitLines(text), i)
    ensures JoinLines(SplitLines(text)) == text
    ensures Carried(SplitLines(text), chunks, p, NearestHeading(SplitLines(text), i))
  {
    LinesRoundTrip(text);
    var k, from, q := PlaceInSection(SplitLines(text), sections, i, p);
    ChunkAround(SplitLines(text), sections, cuttings, k, from, q, p);
  }

  lemma ChunkAround(lines: seq<string>, sections: seq<Section>, cuttings: seq<Cutting>, k: nat, from: nat, q: nat,
      p: nat)
    requires AllCutUp(sections, cuttings) && k < |cuttings| && p == from + q
    requires BodyStands(lines, sections[k], from) && SolidAt(Body(sections[k]), q)
    ensures Carried(lines, AllHeaded(cuttings), p, sections[k].heading)
  {
    var j, piece, lo := PieceUnder(lines, cuttings[k], from, q);
    var n := ChunkAt(cuttings, k, j);
    assert CarriedBy(lines, AllHeaded(cuttings)[n], piece, from + lo, p, sections[k].heading);
  }

  lemma PieceUnder(lines: seq<string>, c: Cutting, from: nat, q: nat) returns (j: nat, piece: string, lo: nat)
    requires CutUp(c) && BodyStands(lines, c.section, from) && SolidAt(Body(c.section), q)
    ensures j < |c.pieces| && piece == c.pieces[j] && lo <= q < lo + |piece|
    ensures StandsUnder(JoinLines(lines), lines, Chunk(Prefix(c.section.heading) + piece, c.section.heading), piece,
                        from + lo)
  {
    j, piece, lo := PieceAround(c, q);
    PieceAtPlace(lines, c.section, from, piece, lo, from + lo);
  }

  /** Where the body of section k stands, and whose lines it is under. */
  ghost predicate BodyStands(lines: seq<string>, section: Section, from: nat) {
    exists start :: SectionAt(lines, start, section) && StandsAt(Body(section), JoinLines(lines), from)
      && WithinLines(lines, start, section, from, from + |Body(section)|)
  }

  lemma PieceAtPlace(lines: seq<string>, section: Section, from: nat, piece: string, lo: nat, at: nat)
    requires BodyStands(lines, section, from) && StandsAt(piece, Body(section), lo) && piece != "" && at == from + lo
    ensures var heading := section.heading;
      StandsUnder(JoinLines(lines), lines, Chunk(Prefix(heading) + piece, heading), piece, at)
  {
    var start :| SectionAt(lines, start, section) && StandsAt(Body(section), JoinLines(lines), from)
      && WithinLines(lines, start, section, from, from + |Body(section)|);
    PieceStandsUnder(JoinLines(lines), lines, section, start, from, piece, lo, at);
  }

  lemma PlaceInSection(lines: seq<string>, sections: seq<Section>, i: nat, p: nat)
    returns (k: nat, from: nat, q: nat)
    requires AreSections(lines, sections) && SolidIn(lines, i, p) && !HeadingAt(lines, i)
    ensures k < |sections| && BodyStands(lines, sections[k], from)
    ensures p == from + q && SolidAt(Body(sections[k]), q)
    ensures sections[k].heading == NearestHeading(lines, i)
  {
    var start;
    LineIsThere(lines, i);
    CharOfPart(JoinLines(lines), lines[i], LineStart(lines, i), p);
    k, start := SectionOfLine(lines, sections, i, p);
    from := InBody(lines, start, sections[k], i, p);
    q := p - from;
    SolidThere(JoinLines(lines), Body(sections[k]), from, p, q);
    SectionHeading(lines, start, sections[k], i);
  }

  lemma SolidThere(text: string, part: string, at: nat, p: nat, q: nat)
    requires StandsAt(part, text, at) && at <= p < at + |part| && q == p - at && SolidAt(text, p)
    ensures SolidAt(part, q)
  {
    CharOfPart(text, part, at, p);
  }

  lemma CharOfPart(text: string, part: string, at: nat, p: nat)
    requires StandsAt(part, text, at) && at <= p < at + |part|
    ensures part[p - at] == text[p]
  {
    assert text[at..at + |part|][p - at] == text[p];
  }

  lemma SectionOfLine(lines: seq<string>, sections: seq<Section>, i: nat, p: nat) returns (k: nat, start: nat)
    requires AreSections(lines, sections) && SolidIn(lines, i, p) && !HeadingAt(lines, i)
    ensures k < |sections| && SectionAt(lines, start, sections[k]) && start <= i < start + |sections[k].lines|
  {
    var starts: seq<nat> :| Sectioned(lines, sections, starts, |lines|);
    StripsToNothing(lines[i]);
    assert InSection(sections, starts, i);
    k :| 0 <= k < |sections| && starts[k] <= i < starts[k] + |sections[k].lines|;
    start := starts[k];
  }
}
