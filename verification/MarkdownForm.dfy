/** What headings, fences and chunks of a markdown document look like. */
module MarkdownForm {
  import opened Common
  import opened Text
  import opened SplitText
  import opened SplitMarkdown

  // ---------------------------------------------------------------- lines

  /** The line starts with k hash signs and a blank, and something stands behind them. */
  ghost predicate Marked(line: string, k: nat) {
    1 <= k <= 6 && k + 2 <= |line| && IsSpace(line[k]) && forall i | 0 <= i < k :: line[i] == '#'
  }

  lemma {:induction false} HashesAre(line: string)
    ensures forall i | 0 <= i < Hashes(line) :: line[i] == '#'
    ensures Hashes(line) < |line| ==> line[Hashes(line)] != '#'
  {
    if line != "" && line[0] == '#' {
      HashesAre(line[1..]);
      assert forall i | 0 < i < Hashes(line) :: line[i] == line[1..][i - 1];
    }
  }

  /** A heading has one to six hash signs and then a blank; its text is what stands behind, without blanks around. */
  lemma HeadingIs(line: string)
    ensures IsHeading(line) <==> exists k: nat :: Marked(line, k)
    ensures forall k: nat | Marked(line, k) :: HeadingText(line) == Strip(line[k..])
  {
    HashesAre(line);
    forall k: nat | Marked(line, k) ensures k == Hashes(line) {
      assert line[k] != '#';
    }
    if IsHeading(line) {
      assert Marked(line, Hashes(line));
    }
  }

  /** The lines in front of line n that open or close a fence. */
  function Fences(lines: seq<string>, n: nat): set<nat>
    requires n <= |lines|
  {
    set i: nat | i < n && IsFence(lines[i])
  }

  /** A fence is open where an odd number of them stands above. */
  lemma {:induction false} FencedIs(lines: seq<string>, n: nat)
    requires n <= |lines|
    ensures Fenced(lines, n) <==> |Fences(lines, n)| % 2 == 1
  {
    if n == 0 {
      assert Fences(lines, n) == {};
    } else {
      FencedIs(lines, n - 1);
      FencesCount(lines, n);
    }
  }

  lemma FencesCount(lines: seq<string>, n: nat)
    requires 0 < n <= |lines|
    ensures |Fences(lines, n)| == |Fences(lines, n - 1)| + if IsFence(lines[n - 1]) then 1 else 0
  {
    var before, all := Fences(lines, n - 1), Fences(lines, n);
    if IsFence(lines[n - 1]) {
      OneMore(before, n - 1, all);
    } else {
      assert all == before;
    }
  }

  lemma OneMore<T>(some: set<T>, x: T, all: set<T>)
    requires x !in some && forall y :: y in all <==> y in some || y == x
    ensures |all| == |some| + 1
  {
    assert all == some + {x};
  }

  /** A fence line starts with three backticks, blanks aside. */
  lemma FenceIs(line: string)
    ensures IsFence(line) <==>
      |Strip(line)| >= 3 && Strip(line)[0] == Strip(line)[1] == Strip(line)[2] == '`'
  {
    assert IsFence(line) ==> Strip(line)[..3] == "```";
  }

  /** Line j is the last heading above line i. */
  ghost predicate IsLastAbove(lines: seq<string>, i: nat, j: nat) {
    j < i <= |lines| && HeadingAt(lines, j) && NoHeading(lines, j + 1, i)
  }

  lemma StillLast(lines: seq<string>, i: nat, j: nat)
    requires 0 < i <= |lines| && IsLastAbove(lines, i - 1, j) && !HeadingAt(lines, i - 1)
    ensures IsLastAbove(lines, i, j)
  {}

  /** The heading in force at line i is that of the last heading line above it. */
  lemma {:induction false} NearestIs(lines: seq<string>, i: nat)
    requires i <= |lines|
    ensures NearestHeading(lines, i).None? ==> NoHeading(lines, 0, i)
    ensures NearestHeading(lines, i).Some? ==>
      exists j: nat :: IsLastAbove(lines, i, j) && NearestHeading(lines, i) == Some(HeadingText(lines[j]))
  {
    if i > 0 {
      if HeadingAt(lines, i - 1) {
        assert IsLastAbove(lines, i, i - 1);
      } else {
        NearestIs(lines, i - 1);
        if NearestHeading(lines, i).Some? {
          var j: nat :| IsLastAbove(lines, i - 1, j) && NearestHeading(lines, i - 1) == Some(HeadingText(lines[j]));
          StillLast(lines, i, j);
        }
      }
    }
  }

  // ---------------------------------------------------------------- chunks

  /** A body that fits behind its heading is one piece; any other is packed to what the heading leaves, with an
      overlap of a hundred characters. */
  lemma PiecesAre(section: Section, chunkSize: int, body: string, room: int) returns (turns: seq<Turn>)
    requires body == Strip(JoinLines(section.lines)) && room == chunkSize - |Prefix(section.heading)|
    ensures |body| <= room ==> Pieces(section, chunkSize) == [body]
    ensures |body| > room ==>
      ArePacked(body, Units(Parts(body)), room, 100, 0, 0, turns, Pieces(section, chunkSize))
  {
    turns := ChunksArePacked(body, room, 100);
    assert |body| > room ==> Pieces(section, chunkSize) == SplitChunks(body, room, 100);
  }

  /** Each piece stands behind its section's heading, as a heading of the first level and a blank line. */
  lemma HeadedIs(section: Section, pieces: seq<string>, j: nat)
    requires j < |pieces|
    ensures |Headed(section, pieces)| == |pieces| && Headed(section, pieces)[j].heading == section.heading
    ensures section.heading.None? || section.heading.value == "" ==> Headed(section, pieces)[j].text == pieces[j]
    ensures section.heading.Some? && section.heading.value != "" ==>
      Headed(section, pieces)[j].text == ['#', ' '] + section.heading.value + ['\n', '\n'] + pieces[j]
  {
    var prefix := Prefix(section.heading);
    assert "# " == ['#', ' '] && "\n\n" == ['\n', '\n'];
    assert Headed(section, pieces)[j].text == prefix + pieces[j];
    assert prefix == "" ==> prefix + pieces[j] == pieces[j];
  }

  function PieceCount(cuttings: seq<Cutting>): nat {
    if cuttings == [] then 0 else PieceCount(cuttings[..|cuttings| - 1]) + |cuttings[|cuttings| - 1].pieces|
  }

  /** The chunks come section by section, and in each section piece by piece. */
  lemma {:induction false} ChunkPlace(cuttings: seq<Cutting>, k: nat, j: nat)
    requires k < |cuttings| && j < |cuttings[k].pieces|
    ensures |AllHeaded(cuttings)| == PieceCount(cuttings) > PieceCount(cuttings[..k]) + j
    ensures AllHeaded(cuttings)[PieceCount(cuttings[..k]) + j] == Headed(cuttings[k].section, cuttings[k].pieces)[j]
    decreases |cuttings|
  {
    var front := cuttings[..|cuttings| - 1];
    HeadedCount(front);
    if k < |front| {
      ChunkPlace(front, k, j);
      assert front[..k] == cuttings[..k];
    }
  }

  lemma {:induction false} HeadedCount(cuttings: seq<Cutting>)
    ensures |AllHeaded(cuttings)| == PieceCount(cuttings)
  {
    if cuttings != [] { HeadedCount(cuttings[..|cuttings| - 1]); }
  }
}
