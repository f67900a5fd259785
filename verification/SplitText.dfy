/** The overlapping chunker: text is cut into units behind every separator, and units are packed into
    chunks that repeat the tail of the chunk before. */
module SplitText {
  import opened Common
  import opened Text

  /** Length of the separator at the head of s: a blank line, a newline, a full stop with a space, a
      space, in that order of preference; zero if there is none. */
  function SeparatorLength(s: string): (n: nat)
    ensures n <= |s|
  {
    if s == "" then 0
    else if s[0] == '\n' then (if |s| > 1 && s[1] == '\n' then 2 else 1)
    else if s[0] == '.' then (if |s| > 1 && s[1] == ' ' then 2 else 0)
    else if s[0] == ' ' then 1 else 0
  }

  predicate IsSeparator(s: string) {
    s in {"\n\n", "\n", ". ", " "}
  }

  function FirstSeparator(s: string): (i: nat)
    ensures i <= |s| && (i < |s| ==> SeparatorLength(s[i..]) > 0)
  {
    if s == "" || SeparatorLength(s) > 0 then 0 else FirstSeparator(s[1..]) + 1
  }

  lemma {:induction false} NoneBefore(s: string, k: nat)
    requires k < FirstSeparator(s)
    ensures SeparatorLength(s[k..]) == 0
  {
    if k == 0 {
      assert s[k..] == s;
    } else {
      NoneBefore(s[1..], k - 1);
      assert s[1..][k - 1..] == s[k..];
    }
  }

  /** What splitting at separators, keeping the separators, leaves once empty pieces are dropped. */
  function Parts(s: string): seq<string>
    decreases |s|, 1
  {
    if s == "" then [] else
    var i := FirstSeparator(s);
    if i == |s| then [s] else PartsAround(s, i, SeparatorLength(s[i..]))
  }

  /** The piece in front of a separator, unless it is empty, the separator, and the parts behind it. */
  function PartsAround(s: string, i: nat, n: nat): seq<string>
    requires i + n <= |s| && n > 0
    decreases |s|, 0
  {
    (if i > 0 then [s[..i]] else []) + [s[i..i + n]] + Parts(s[i + n..])
  }

  lemma ConcatThree(s: string, i: nat, n: nat, rest: seq<string>)
    requires i + n <= |s| && Concat(rest) == s[i + n..]
    ensures Concat((if i > 0 then [s[..i]] else []) + [s[i..i + n]] + rest) == s
  {
    var head := if i > 0 then [s[..i]] else [];
    ConcatGrows([], s[..i]);
    assert [] + [s[..i]] == [s[..i]] && Concat(head) == s[..i];
    ConcatGrows(head, s[i..i + n]);
    ConcatSplits(head + [s[i..i + n]], rest);
    ThreeSlices(s, i, i + n);
  }

  lemma ThreeSlices(s: string, i: nat, j: nat)
    requires i <= j <= |s|
    ensures s[..i] + s[i..j] + s[j..] == s
  {}

  lemma {:induction false} PartsConcat(s: string)
    ensures Concat(Parts(s)) == s
  {
    if s != "" {
      var i := FirstSeparator(s);
      if i == |s| {
        ConcatGrows([], s);
        assert [] + [s] == [s];
      } else {
        var n := SeparatorLength(s[i..]);
        PartsConcat(s[i + n..]);
        ConcatThree(s, i, n, Parts(s[i + n..]));
      }
    }
  }

  /** The separators, and which of them comes first where several fit. */
  lemma SeparatorIs(s: string)
    ensures SeparatorLength(s) ==
      if "\n\n" <= s then 2 else if "\n" <= s then 1 else if ". " <= s then 2 else if " " <= s then 1 else 0
  {
    if |s| > 1 { assert "\n\n" <= s <==> s[0] == '\n' && s[1] == '\n'; }
  }

  lemma NoneEmpty(s: string, i: nat, n: nat, rest: seq<string>)
    requires i + n <= |s| && n > 0 && "" !in rest
    ensures "" !in (if i > 0 then [s[..i]] else []) + [s[i..i + n]] + rest
  {
    assert |s[..i]| == i && |s[i..i + n]| == n;
  }

  lemma {:induction false} PartsNonempty(s: string)
    ensures "" !in Parts(s)
  {
    if s != "" {
      var i := FirstSeparator(s);
      if i < |s| {
        var n := SeparatorLength(s[i..]);
        var rest := Parts(s[i + n..]);
        PartsNonempty(s[i + n..]);
        NoneEmpty(s, i, n, rest);
        assert Parts(s) == PartsAround(s, i, n);
      }
    }
  }

  function Longest(units: seq<string>): (n: nat)
    ensures forall u | u in units :: |u| <= n
  {
    if units == [] then 0 else Max(Longest(units[..|units| - 1]), |units[|units| - 1]|)
  }

  /** Where a chunk comes from: the packed buffer was text[lo..hi], and what strip() left of it is
      text[from..to]. */
  datatype Slice = Slice(lo: nat, from: nat, to: nat, hi: nat)

  ghost predicate BlankRange(text: string, lo: nat, hi: nat) {
    lo <= hi <= |text| && forall i | lo <= i < hi :: IsSpace(text[i])
  }

  ghost predicate Cut(text: string, s: Slice, chunk: string) {
    && s.lo <= s.from < s.to <= s.hi <= |text|
    && chunk == text[s.from..s.to] == Strip(text[s.lo..s.hi])
    && BlankRange(text, s.lo, s.from) && BlankRange(text, s.to, s.hi)
    && !IsSpace(text[s.from]) && !IsSpace(text[s.to - 1])
  }

  /** Buffers end further and further on, each begins at most `overlap` before the end of the one before
      and never behind it. */
  ghost predicate Overlapping(slices: seq<Slice>, overlap: nat) {
    forall k: nat | 0 < k < |slices| :: Follows(slices, k, overlap)
  }

  ghost predicate Follows(slices: seq<Slice>, k: nat, overlap: nat) {
    && 0 < k < |slices|
    && slices[k - 1].hi < slices[k].hi
    && slices[k - 1].hi - overlap <= slices[k].lo <= slices[k - 1].hi
  }

  /** What strip() leaves of a chunk does not end before the chunk in front of it, and ends with it exactly if
      nothing but blanks has joined since: then the chunk is no more than a tail of that one. */
  ghost predicate EndsWith(text: string, slices: seq<Slice>, k: nat) {
    && 0 < k < |slices|
    && slices[k - 1].to <= slices[k].to
    && (slices[k - 1].to == slices[k].to <==> BlankRange(text, slices[k - 1].hi, slices[k].hi))
  }

  ghost predicate EndsInOrder(text: string, slices: seq<Slice>) {
    forall k: nat | 0 < k < |slices| :: EndsWith(text, slices, k)
  }

  ghost predicate Covered(slices: seq<Slice>, i: nat) {
    exists k | 0 <= k < |slices| :: slices[k].from <= i < slices[k].to
  }

  ghost predicate AllCut(text: string, chunks: seq<string>, slices: seq<Slice>, bound: int, end: nat) {
    && |slices| == |chunks|
    && (forall k | 0 <= k < |chunks| :: Cut(text, slices[k], chunks[k]) && |chunks[k]| <= bound && slices[k].hi <= end)
    && (slices != [] ==> slices[0].lo == 0)
  }

  ghost predicate AllCovered(text: string, slices: seq<Slice>, end: nat) {
    end <= |text| && forall i {:trigger Covered(slices, i)} | 0 <= i < end && !IsSpace(text[i]) :: Covered(slices, i)
  }

  /** Everything the chunker promises of text[..end]. */
  ghost predicate Chunked(text: string, chunks: seq<string>, slices: seq<Slice>, overlap: nat, bound: int, end: nat) {
    AllCut(text, chunks, slices, bound, end) && Overlapping(slices, overlap) && AllCovered(text, slices, end)
  }

  ghost predicate Holds(buf: string, text: string, lo: nat, hi: nat) {
    lo <= hi <= |text| && buf == text[lo..hi]
  }

  lemma StrippedEmpty(buf: string, text: string, lo: nat, hi: nat)
    requires Holds(buf, text, lo, hi)
    ensures |buf| == hi - lo && (Strip(buf) == "" <==> BlankRange(text, lo, hi))
  {
    StripsToNothing(buf);
    assert forall i | lo <= i < hi :: text[i] == buf[i - lo];
  }

  lemma BlankEnds(text: string, lo: nat, hi: nat, raw: string, a: nat, b: nat)
    requires Holds(raw, text, lo, hi) && StripsTo(raw, a, b)
    ensures BlankRange(text, lo, lo + a) && BlankRange(text, lo + b, hi)
  {
    assert forall i | lo <= i < lo + a :: text[i] == raw[..a][i - lo];
    assert forall i | lo + b <= i < hi :: text[i] == raw[b..][i - (lo + b)];
  }

  lemma SliceOf(text: string, lo: nat, core: nat, hi: nat) returns (s: Slice)
    requires lo <= core <= hi <= |text| && BlankRange(text, lo, core) && !BlankRange(text, lo, hi)
    ensures s.lo == lo && s.hi == hi && Cut(text, s, Strip(text[lo..hi])) && |Strip(text[lo..hi])| <= hi - core
  {
    var raw := text[lo..hi];
    var a, b := StripBounds(raw);
    s := Slice(lo, lo + a, lo + b, hi);
    BlankEnds(text, lo, hi, raw, a, b);
    assert raw[a..b] == text[s.from..s.to];
    StrippedEmpty(raw, text, lo, hi);
    assert raw[a] == text[s.from] && raw[b - 1] == text[s.to - 1];
  }

  lemma CoverageGrows(text: string, slices: seq<Slice>, s: Slice, chunk: string, end: nat)
    requires AllCovered(text, slices, end) && Cut(text, s, chunk) && s.lo <= end <= s.hi
    ensures AllCovered(text, slices + [s], s.hi)
  {
    forall i | 0 <= i < s.hi && !IsSpace(text[i]) ensures Covered(slices + [s], i) {
      if i < end {
        assert Covered(slices, i);
        var k :| 0 <= k < |slices| && slices[k].from <= i < slices[k].to;
        assert (slices + [s])[k] == slices[k];
      } else {
        assert (slices + [s])[|slices|] == s;
      }
    }
  }

  lemma CutsGrow(text: string, chunks: seq<string>, slices: seq<Slice>, bound: int, end: nat, s: Slice, chunk: string)
    requires AllCut(text, chunks, slices, bound, end) && Cut(text, s, chunk) && |chunk| <= bound && end <= s.hi
    requires slices == [] ==> s.lo == 0
    ensures AllCut(text, chunks + [chunk], slices + [s], bound, s.hi)
  {
    var more := chunks + [chunk];
    forall k | 0 <= k < |more| ensures Cut(text, (slices + [s])[k], more[k]) && |more[k]| <= bound &&
      (slices + [s])[k].hi <= s.hi
    {
      if k < |chunks| { assert Cut(text, slices[k], chunks[k]); }
    }
  }

  lemma OverlapGrows(slices: seq<Slice>, overlap: nat, s: Slice)
    requires Overlapping(slices, overlap)
    requires slices != [] ==>
      slices[|slices| - 1].hi < s.hi && slices[|slices| - 1].hi - overlap <= s.lo <= slices[|slices| - 1].hi
    ensures Overlapping(slices + [s], overlap)
  {
    var more := slices + [s];
    forall k: nat | 0 < k < |more| ensures Follows(more, k, overlap) {
      if k < |slices| { assert Follows(slices, k, overlap); }
    }
  }

  lemma NextChunk(text: string, chunks: seq<string>, slices: seq<Slice>, overlap: nat, bound: int,
      end: nat, lo: nat, core: nat, hi: nat, buf: string)
    returns (s: Slice)
    requires Chunked(text, chunks, slices, overlap, bound, end)
    requires Packing(text, slices, overlap, bound, lo, core, end, hi) && Holds(buf, text, lo, hi) &&
      !BlankRange(text, lo, hi)
    ensures s.lo == lo && s.hi == hi
    ensures Chunked(text, chunks + [Strip(buf)], slices + [s], overlap, bound, hi)
  {
    s := SliceOf(text, lo, core, hi);
    CoverageGrows(text, slices, s, Strip(buf), end);
    CutsGrow(text, chunks, slices, bound, end, s, Strip(buf));
    OverlapGrows(slices, overlap, s);
  }

  /** The units that are packed: each part together with the separator right behind it. */
  function Units(parts: seq<string>): seq<string> {
    if parts == [] then []
    else if |parts| > 1 && IsSeparator(parts[1]) then [parts[0] + parts[1]] + Units(parts[2..])
    else [parts[0]] + Units(parts[1..])
  }

  /** Attaching the separators loses nothing. */
  lemma {:induction false} UnitsConcat(parts: seq<string>)
    ensures Concat(Units(parts)) == Concat(parts)
    decreases |parts|
  {
    if parts != [] {
      if |parts| > 1 && IsSeparator(parts[1]) {
        UnitsConcat(parts[2..]);
        PairConcat(parts[0], parts[1], parts[2..], Units(parts[2..]));
        assert parts == [parts[0]] + ([parts[1]] + parts[2..]);
      } else {
        UnitsConcat(parts[1..]);
        OneConcat(parts[0], parts[1..], Units(parts[1..]));
        assert parts == [parts[0]] + parts[1..];
      }
    }
  }

  lemma OneConcat(part: string, rest: seq<string>, units: seq<string>)
    requires Concat(units) == Concat(rest)
    ensures Concat([part] + units) == Concat([part] + rest)
  {
    ConcatFront(part, units);
    ConcatFront(part, rest);
  }

  lemma PairConcat(part: string, separator: string, rest: seq<string>, units: seq<string>)
    requires Concat(units) == Concat(rest)
    ensures Concat([part + separator] + units) == Concat([part] + ([separator] + rest))
  {
    ConcatFront(part + separator, units);
    ConcatFront(separator, rest);
    ConcatFront(part, [separator] + rest);
    assert part + separator + Concat(units) == part + (separator + Concat(rest));
  }

  lemma {:induction false} UnitsNonempty(parts: seq<string>)
    requires "" !in parts
    ensures "" !in Units(parts)
    decreases |parts|
  {
    if parts != [] {
      assert parts[0] in parts;
      UnitsNonempty(if |parts| > 1 && IsSeparator(parts[1]) then parts[2..] else parts[1..]);
    }
  }

  /** Unit n starts with part at[n], takes along the part behind it if that is a separator, and nothing else. */
  ghost predicate AreUnits(parts: seq<string>, units: seq<string>, at: seq<nat>) {
    && |at| == |units| + 1 && at[0] == 0 && at[|units|] == |parts|
    && forall n: nat | n < |units| :: IsUnit(parts, units, at, n)
  }

  ghost predicate IsUnit(parts: seq<string>, units: seq<string>, at: seq<nat>, n: nat) {
    && n < |units| && |at| == |units| + 1 && at[n] < |parts|
    && if at[n] + 1 < |parts| && IsSeparator(parts[at[n] + 1])
       then at[n + 1] == at[n] + 2 && units[n] == parts[at[n]] + parts[at[n] + 1]
       else at[n + 1] == at[n] + 1 && units[n] == parts[at[n]]
  }

  lemma {:induction false} UnitsAre(parts: seq<string>) returns (at: seq<nat>)
    ensures AreUnits(parts, Units(parts), at)
    decreases |parts|
  {
    if parts == [] {
      at := [0];
    } else {
      var step: nat := if |parts| > 1 && IsSeparator(parts[1]) then 2 else 1;
      var rest := UnitsAre(parts[step..]);
      at := [0] + seq(|rest|, i requires 0 <= i < |rest| => rest[i] + step);
      NextUnits(parts, step, parts[step..], Units(parts[step..]), rest, Units(parts), at);
    }
  }

  /** The first unit takes `step` parts, and the units behind it are those of the other parts. */
  lemma NextUnits(parts: seq<string>, step: nat, others: seq<string>, rest: seq<string>,
      from: seq<nat>, units: seq<string>, at: seq<nat>)
    requires 0 < step <= |parts| && step == if |parts| > 1 && IsSeparator(parts[1]) then 2 else 1
    requires others == parts[step..] && AreUnits(others, rest, from)
    requires units == [if step == 2 then parts[0] + parts[1] else parts[0]] + rest
    requires |at| == |from| + 1 && at[0] == 0 && forall n | 0 <= n < |from| :: at[n + 1] == from[n] + step
    ensures AreUnits(parts, units, at)
  {
    forall n: nat | n < |units| ensures IsUnit(parts, units, at, n) {
      if n > 0 { assert IsUnit(others, rest, from, n - 1); }
    }
  }

  method AttachSeparators(parts: seq<string>) returns (units: seq<string>)
    ensures units == Units(parts)
  {
    units := [];
    var i := 0;
    while i < |parts|
      invariant 0 <= i <= |parts|
      invariant units + Units(parts[i..]) == Units(parts)
    {
      var unit := parts[i];
      NextUnit(parts, i);
      ghost var was := i;
      if i + 1 < |parts| && IsSeparator(parts[i + 1]) {
        unit := unit + parts[i + 1];
        i := i + 2;
      } else {
        i := i + 1;
      }
      Regroup(units, unit, Units(parts[i..]), Units(parts[was..]));
      units := units + [unit];
    }
  }

  lemma NextUnit(parts: seq<string>, i: nat)
    requires i < |parts|
    ensures if i + 1 < |parts| && IsSeparator(parts[i + 1])
      then Units(parts[i..]) == [parts[i] + parts[i + 1]] + Units(parts[i + 2..])
      else Units(parts[i..]) == [parts[i]] + Units(parts[i + 1..])
  {
    assert parts[i..][1..] == parts[i + 1..];
    if i + 1 < |parts| {
      assert parts[i..][1] == parts[i + 1] && parts[i..][2..] == parts[i + 2..];
    }
  }

  lemma Regroup<T>(front: seq<T>, x: T, rest: seq<T>, back: seq<T>)
    requires back == [x] + rest
    ensures front + [x] + rest == front + back
  {}

  /** The buffer text[lo..pos] while packing: the chunks so far account for text[..end], and but for blanks
      in front the buffer is within bounds. */
  ghost predicate Packing(text: string, slices: seq<Slice>, overlap: nat, bound: int, lo: nat, core: nat, end: nat,
      pos: nat)
  {
    && end <= pos <= |text| && lo <= core <= pos
    && BlankRange(text, lo, core) && pos - core <= bound
    && if slices == [] then lo == 0 && end == 0 else slices[|slices| - 1].hi == end < pos && end - overlap <= lo <= end
  }

  /** The unit text[pos..next] joins a buffer that starts with at most `overlap` characters of the last chunk. */
  lemma PackAfterFlush(text: string, slices: seq<Slice>, overlap: nat, bound: int, lo: nat, pos: nat, next: nat)
    requires slices != [] && slices[|slices| - 1].hi == pos && pos - overlap <= lo <= pos < next <= |text|
    requires overlap + (next - pos) <= bound
    ensures Packing(text, slices, overlap, bound, lo, lo, pos, next)
  {}

  /** The unit text[pos..next] joins the buffer as it is: the two fit, or the buffer is blank. */
  lemma PackOn(text: string, slices: seq<Slice>, overlap: nat, bound: int, lo: nat, core: nat, end: nat, pos: nat,
      next: nat, fits: bool)
    requires Packing(text, slices, overlap, bound, lo, core, end, pos) && pos < next <= |text| && next - pos <= bound
    requires if fits then next - lo <= bound else BlankRange(text, lo, pos)
    ensures Packing(text, slices, overlap, bound, lo, if fits then lo else pos, end, next)
  {}

  lemma BufferGrows(text: string, lo: nat, pos: nat, next: nat, buf: string, unit: string)
    requires lo <= pos <= next <= |text|
    requires Holds(buf, text, lo, pos) && Holds(unit, text, pos, next)
    ensures Holds(buf + unit, text, lo, next)
  {}

  lemma BlankRest(text: string, slices: seq<Slice>, lo: nat, end: nat)
    requires AllCovered(text, slices, end) && lo <= end && BlankRange(text, lo, |text|)
    ensures AllCovered(text, slices, |text|)
  {}

  /** What stays in the buffer once text[lo..pos] is a chunk: its last `overlap` characters, or nothing if
      they are blank. */
  method KeepTail(buf: string, overlap: nat, ghost text: string, ghost lo: nat, ghost pos: nat)
    returns (kept: string, ghost from: nat)
    requires Holds(buf, text, lo, pos)
    ensures lo <= from <= pos && pos - overlap <= from && Holds(kept, text, from, pos)
    ensures from == pos || !BlankRange(text, from, pos)
    ensures kept == Tail(buf, overlap)
  {
    var cut := Max(0, |buf| - overlap);
    var tail := buf[cut..];
    from := lo + cut;
    assert tail == text[from..pos];
    StrippedEmpty(tail, text, from, pos);
    if Strip(tail) != "" {
      kept := tail;
    } else {
      kept, from := "", pos;
      assert text[pos..pos] == "";
    }
  }

  lemma NextEnd(text: string, chunks: seq<string>, slices: seq<Slice>, overlap: nat, bound: int, k: nat)
    requires Chunked(text, chunks, slices, overlap, bound, |text|) && 0 < k < |slices|
    ensures EndsWith(text, slices, k)
  {
    var last, next := slices[k - 1], slices[k];
    assert Cut(text, last, chunks[k - 1]) && Cut(text, next, chunks[k]) && Follows(slices, k, overlap);
    EndsCompare(text, last, next, chunks[k - 1], chunks[k]);
  }

  /** A later slice, once stripped, ends later unless it adds blanks only. */
  lemma EndsCompare(text: string, last: Slice, next: Slice, chunk: string, other: string)
    requires Cut(text, last, chunk) && Cut(text, next, other) && next.lo <= last.hi < next.hi
    ensures last.to <= next.to && (last.to == next.to <==> BlankRange(text, last.hi, next.hi))
  {
    assert !IsSpace(text[last.to - 1]) && !IsSpace(text[next.to - 1]) && !IsSpace(text[next.from]);
  }

  /** How long a chunk may get: single units are not cut. */
  function LongestChunk(text: string, chunkSize: int, overlap: nat): int {
    Max(chunkSize, overlap + Longest(Units(Parts(text))))
  }

  /** Each chunk is a stripped slice of the text; the slices leave out no character but blanks. Before they are
      stripped they end further and further on and overlap by at most `overlap`; stripped, two in a row may end
      at one place, if only blanks lie between. */
  ghost predicate IsChunking(text: string, chunks: seq<string>, overlap: nat, bound: int) {
    exists slices :: Chunked(text, chunks, slices, overlap, bound, |text|) && EndsInOrder(text, slices)
  }

  lemma ChunkedIsChunking(text: string, chunks: seq<string>, slices: seq<Slice>, overlap: nat, bound: int)
    requires Chunked(text, chunks, slices, overlap, bound, |text|)
    ensures IsChunking(text, chunks, overlap, bound)
  {
    forall k: nat | 0 < k < |slices| ensures EndsWith(text, slices, k) {
      NextEnd(text, chunks, slices, overlap, bound, k);
    }
  }

  lemma UnitsFit(text: string, overlap: nat, bound: int)
    requires overlap + Longest(Units(Parts(text))) <= bound
    ensures Concat(Units(Parts(text))) == text
    ensures forall u | u in Units(Parts(text)) :: 0 < |u| <= bound - overlap
  {
    PartsConcat(text);
    PartsNonempty(text);
    UnitsConcat(Parts(text));
    UnitsNonempty(Parts(text));
  }

  /** What stays of a buffer behind its chunk. */
  function Tail(buf: string, overlap: nat): string {
    var tail := buf[Max(0, |buf| - overlap)..];
    if Strip(tail) == "" then "" else tail
  }

  /** The chunks of the units that are left, with `buf` packed so far: a chunk is closed only when the next unit
      does not fit and the buffer is not blank. */
  function Packed(units: seq<string>, chunkSize: int, overlap: nat, buf: string): seq<string> {
    if units == [] then (if Strip(buf) == "" then [] else [Strip(buf)])
    else if |buf| + |units[0]| > chunkSize && Strip(buf) != "" then
      [Strip(buf)] + Packed(units[1..], chunkSize, overlap, Tail(buf, overlap) + units[0])
    else Packed(units[1..], chunkSize, overlap, buf + units[0])
  }

  function SplitChunks(text: string, chunkSize: int, overlap: nat): seq<string> {
    Packed(Units(Parts(text)), chunkSize, overlap, "")
  }

  // ---- When chunks are closed ----

  function UnitAt(units: seq<string>, i: nat): nat
    requires i <= |units|
  {
    |Concat(units[..i])|
  }

  /** A chunk text[lo..hi] that is closed in front of unit `next`. */
  datatype Turn = Turn(lo: nat, hi: nat, next: nat)

  /** Unit j joins the buffer that starts at lo: there is room for it, or nothing in the buffer yet but blanks. */
  ghost predicate Joins(text: string, units: seq<string>, chunkSize: int, lo: nat, j: nat) {
    && j < |units|
    && (UnitAt(units, j) - lo + |units[j]| <= chunkSize || BlankRange(text, lo, UnitAt(units, j)))
  }

  /** The buffer that starts at lo takes every unit from `from` on up to the first for which it has no room. */
  ghost predicate Closes(text: string, units: seq<string>, chunkSize: int, from: nat, lo: nat, t: Turn) {
    && t.lo == lo && from <= t.next < |units| && t.hi == UnitAt(units, t.next)
    && (forall j | from <= j < t.next :: Joins(text, units, chunkSize, lo, j))
    && !Joins(text, units, chunkSize, lo, t.next)
  }

  /** Behind a closed chunk the buffer starts with its last `overlap` characters, unless those are blank. */
  ghost function Resumes(text: string, overlap: nat, t: Turn): nat {
    var cut := Max(t.lo, t.hi - overlap);
    if BlankRange(text, cut, t.hi) then t.hi else cut
  }

  ghost predicate ClosesAt(text: string, units: seq<string>, chunkSize: int, overlap: nat, from: nat, lo: nat,
      turns: seq<Turn>, k: nat)
  {
    && k < |turns|
    && if k == 0 then Closes(text, units, chunkSize, from, lo, turns[0])
       else Closes(text, units, chunkSize, turns[k - 1].next + 1, Resumes(text, overlap, turns[k - 1]), turns[k])
  }

  /** From unit `from` on, with a buffer that starts at lo, the chunks are closed at these turns; the unit in front
      of which one is closed goes behind the overlap. What is left at the end is the last chunk, unless blank. */
  ghost predicate ArePacked(text: string, units: seq<string>, chunkSize: int, overlap: nat, from: nat, lo: nat,
      turns: seq<Turn>, chunks: seq<string>)
  {
    && (forall k: nat | k < |turns| :: ClosesAt(text, units, chunkSize, overlap, from, lo, turns, k))
    && (if turns == [] then EndsPacked(text, units, chunkSize, from, lo, turns, chunks) else
        var last := turns[|turns| - 1];
        EndsPacked(text, units, chunkSize, last.next + 1, Resumes(text, overlap, last), turns, chunks))
  }

  ghost predicate EndsPacked(text: string, units: seq<string>, chunkSize: int, from: nat, lo: nat, turns: seq<Turn>,
      chunks: seq<string>)
  {
    && lo <= |text| && (forall j | from <= j < |units| :: Joins(text, units, chunkSize, lo, j))
    && |chunks| == |turns| + (if BlankRange(text, lo, |text|) then 0 else 1)
    && (forall k: nat | k < |turns| :: IsChunkOf(text, turns, chunks, k))
    && (!BlankRange(text, lo, |text|) ==> chunks[|turns|] == Strip(text[lo..]))
  }

  ghost predicate IsChunkOf(text: string, turns: seq<Turn>, chunks: seq<string>, k: nat) {
    && k < |turns| && k < |chunks| && turns[k].lo <= turns[k].hi <= |text|
    && chunks[k] == Strip(text[turns[k].lo..turns[k].hi])
  }

  lemma EndsBehind(text: string, units: seq<string>, chunkSize: int, from: nat, lo: nat, t: Turn, turns: seq<Turn>,
      chunk: string, chunks: seq<string>)
    requires EndsPacked(text, units, chunkSize, from, lo, turns, chunks)
    requires t.lo <= t.hi <= |text| && chunk == Strip(text[t.lo..t.hi])
    ensures EndsPacked(text, units, chunkSize, from, lo, [t] + turns, [chunk] + chunks)
  {
    var all, more := [t] + turns, [chunk] + chunks;
    forall k: nat | k < |all| ensures IsChunkOf(text, all, more, k) {
      if k > 0 { assert IsChunkOf(text, turns, chunks, k - 1); }
    }
  }

  lemma TurnTaken(text: string, units: seq<string>, chunkSize: int, overlap: nat, from: nat, lo: nat, t: Turn,
      turns: seq<Turn>, chunks: seq<string>)
    requires Closes(text, units, chunkSize, from, lo, t) && t.lo <= t.hi <= |text|
    requires ArePacked(text, units, chunkSize, overlap, t.next + 1, Resumes(text, overlap, t), turns, chunks)
    ensures ArePacked(text, units, chunkSize, overlap, from, lo, [t] + turns, [Strip(text[t.lo..t.hi])] + chunks)
  {
    var all := [t] + turns;
    forall k: nat | k < |all| ensures ClosesAt(text, units, chunkSize, overlap, from, lo, all, k) {
      if k > 0 {
        assert ClosesAt(text, units, chunkSize, overlap, t.next + 1, Resumes(text, overlap, t), turns, k - 1);
        assert all[k] == turns[k - 1] && all[k - 1] == if k == 1 then t else turns[k - 2];
      }
    }
    var last := all[|all| - 1];
    assert last == if turns == [] then t else turns[|turns| - 1];
    EndsBehind(text, units, chunkSize, last.next + 1, Resumes(text, overlap, last), t, turns,
               Strip(text[t.lo..t.hi]), chunks);
  }

  lemma TailIs(text: string, overlap: nat, t: Turn, buf: string)
    requires Holds(buf, text, t.lo, t.hi)
    ensures Resumes(text, overlap, t) <= t.hi && Holds(Tail(buf, overlap), text, Resumes(text, overlap, t), t.hi)
  {
    var cut := Max(t.lo, t.hi - overlap);
    assert buf[Max(0, |buf| - overlap)..] == text[cut..t.hi];
    StrippedEmpty(text[cut..t.hi], text, cut, t.hi);
  }

  /** Packing from unit i on, with the units from `from` on in the buffer that starts at lo. */
  lemma {:induction false} PackedIs(text: string, units: seq<string>, chunkSize: int, overlap: nat, from: nat, lo: nat,
      i: nat, buf: string) returns (turns: seq<Turn>)
    requires Concat(units) == text && from <= i <= |units| && Holds(buf, text, lo, UnitAt(units, i))
    requires forall j | from <= j < i :: Joins(text, units, chunkSize, lo, j)
    ensures ArePacked(text, units, chunkSize, overlap, from, lo, turns,
      Packed(units[i..], chunkSize, overlap, buf))
    decreases |units| - i
  {
    var pos := UnitAt(units, i);
    StrippedEmpty(buf, text, lo, pos);
    if i == |units| {
      assert units[..i] == units && text[lo..] == text[lo..pos];
      turns := [];
    } else {
      var unit := units[i];
      var next: nat := pos + |unit|;
      UnitFollows(text, units, i, pos, next);
      assert units[i..][0] == unit && units[i..][1..] == units[i + 1..];
      if |buf| + |unit| > chunkSize && Strip(buf) != "" {
        var t := Turn(lo, pos, i);
        TailIs(text, overlap, t, buf);
        BufferGrows(text, Resumes(text, overlap, t), pos, next, Tail(buf, overlap), unit);
        var kept := Tail(buf, overlap) + unit;
        turns := PackedIs(text, units, chunkSize, overlap, i + 1, Resumes(text, overlap, t), i + 1, kept);
        TurnTaken(text, units, chunkSize, overlap, from, lo, t, turns,
                  Packed(units[i + 1..], chunkSize, overlap, kept));
        turns := [t] + turns;
      } else {
        BufferGrows(text, lo, pos, next, buf, unit);
        turns := PackedIs(text, units, chunkSize, overlap, from, lo, i + 1, buf + unit);
      }
    }
  }

  lemma BlankFirst(s: string)
    requires s != "" && s[0] == ' '
    ensures Parts(s) == [[' ']] + Parts(s[1..]) && FirstSeparator(s) == 0 && SeparatorLength(s) == 1
  {
    assert SeparatorLength(s) == 1 && s[0..] == s;
    assert s[0..1] == [' '] && [] + [s[0..1]] == [[' ']];
  }

  predicate Solid(c: char) {
    !IsSpace(c) && c != '.'
  }

  lemma SolidFirst(s: string)
    requires s != "" && Solid(s[0])
    ensures FirstSeparator(s) == FirstSeparator(s[1..]) + 1
  {
    assert SeparatorLength(s) == 0;
  }

  lemma CutAt(s: string, i: nat, n: nat)
    requires FirstSeparator(s) == i < |s| && SeparatorLength(s[i..]) == n && i > 0 && n > 0
    ensures Parts(s) == [s[..i]] + [s[i..i + n]] + Parts(s[i + n..])
  {}

  lemma WordFirst(s: string)
    requires |s| > 2 && Solid(s[0]) && Solid(s[1]) && s[2] == ' '
    ensures Parts(s) == [s[..2], [' ']] + Parts(s[3..])
  {
    WordLength(s);
    CutAt(s, 2, 1);
    assert s[2..3] == [' '] && [s[..2]] + [[' ']] == [s[..2], [' ']];
  }

  lemma WordLength(s: string)
    requires |s| > 2 && Solid(s[0]) && Solid(s[1]) && s[2] == ' '
    ensures FirstSeparator(s) == 2 && SeparatorLength(s[2..]) == 1
  {
    SolidFirst(s);
    SolidFirst(s[1..]);
    assert s[1..][1..] == s[2..];
    BlankFirst(s[2..]);
  }

  lemma FourParts(parts: seq<string>, x: string, b: string)
    requires parts == [x, b, b, b] && IsSeparator(b)
    ensures Units(parts) == [x + b, b + b]
  {
    var none: seq<string> := [];
    assert parts[2..] == [b, b] && [b, b][2..] == none;
    assert Units([b, b]) == [b + b] + Units(none);
  }

  lemma BlankAround(s: string, lo: nat, hi: nat)
    requires StripsTo(s, lo, hi)
    ensures forall i | 0 <= i < lo || hi <= i < |s| :: IsSpace(s[i])
  {
    assert forall i | 0 <= i < lo :: s[i] == s[..lo][i];
    assert forall i | hi <= i < |s| :: s[i] == s[hi..][i - hi];
  }

  lemma OneStrip(s: string, core: string, blanks: string)
    requires s == core + blanks && core != "" && !IsSpace(core[0]) && !IsSpace(core[|core| - 1]) && IsBlank(blanks)
    ensures Strip(s) == core
  {
    var lo, hi := StripBounds(s);
    BlankAround(s, lo, hi);
    assert s[0] == core[0] && s[|core| - 1] == core[|core| - 1];
    assert forall i | |core| <= i < |s| :: s[i] == blanks[i - |core|];
  }

  /** A word of two letters with three spaces behind it. */
  predicate WordAndBlanks(s: string) {
    |s| == 5 && Solid(s[0]) && Solid(s[1]) && s[2] == s[3] == s[4] == ' '
  }

  lemma ExampleParts(s: string, blank: string)
    requires WordAndBlanks(s) && blank == [' ']
    ensures Parts(s) == [s[..2], blank, blank, blank]
  {
    WordFirst(s);
    BlankFirst(s[3..]);
    BlankFirst(s[4..]);
    assert s[3..][1..] == s[4..] && s[4..][1..] == s[5..] == "";
    assert Parts(s[5..]) == [];
  }

  lemma ExampleUnits(s: string)
    requires WordAndBlanks(s)
    ensures Units(Parts(s)) == [s[..3], s[3..]]
  {
    var x, blank := s[..2], [' '];
    assert x + blank == s[..3] && blank + blank == s[3..];
    ExampleParts(s, blank);
    FourParts(Parts(s), x, blank);
  }

  lemma ExampleStrips(s: string)
    requires WordAndBlanks(s)
    ensures Strip(s[..3]) == s[..2] && Strip(s[1..3]) == s[1..2] && Strip(s[1..]) == s[1..2]
  {
    assert s[..3] == s[..2] + s[2..3] && s[1..3] == s[1..2] + s[2..3] && s[1..] == s[1..2] + s[2..];
    OneStrip(s[..3], s[..2], s[2..3]);
    OneStrip(s[1..3], s[1..2], s[2..3]);
    OneStrip(s[1..], s[1..2], s[2..]);
  }

  /** Cut to three characters with an overlap of two, such a text ends in a chunk that repeats the end of the
      chunk in front. */
  lemma EndRepeated(s: string)
    requires WordAndBlanks(s)
    ensures SplitChunks(s, 3, 2) == [s[..2], s[1..2]]
  {
    ExampleUnits(s);
    ExampleStrips(s);
    assert s[..3][1..] == s[1..3] && s[1..3] + s[3..] == s[1..];
    ExamplePacked(s[..3], s[3..], s[1..3], s[1..]);
  }

  lemma ExamplePacked(first: string, second: string, tail: string, last: string)
    requires |first| == 3 && |second| == 2 && tail == first[1..] && last == tail + second
    requires Strip(first) != "" && Strip(tail) != "" && Strip(last) != ""
    ensures Packed([first, second], 3, 2, "") == [Strip(first), Strip(last)]
  {
    var units, none: seq<string> := [first, second], [];
    assert units[1..] == [second] && [second][1..] == none && "" + first == first;
    assert Strip("") == "";
    assert Tail(first, 2) == tail;
    assert Packed(none, 3, 2, last) == [Strip(last)];
    assert Packed([second], 3, 2, first) == [Strip(first)] + Packed(none, 3, 2, last);
  }

  /** When the chunks of a text are closed, and where each of them begins. */
  lemma ChunksArePacked(text: string, chunkSize: int, overlap: nat) returns (turns: seq<Turn>)
    ensures ArePacked(text, Units(Parts(text)), chunkSize, overlap, 0, 0, turns, SplitChunks(text, chunkSize, overlap))
  {
    var units := Units(Parts(text));
    PartsConcat(text);
    UnitsConcat(Parts(text));
    assert units[0..] == units && units[..0] == [];
    turns := PackedIs(text, units, chunkSize, overlap, 0, 0, 0, "");
  }

  method Split(text: string, chunkSize: int, overlap: nat) returns (chunks: seq<string>)
    ensures chunks == SplitChunks(text, chunkSize, overlap)
    ensures IsChunking(text, chunks, overlap, LongestChunk(text, chunkSize, overlap))
  {
    ghost var bound: nat := LongestChunk(text, chunkSize, overlap);
    UnitsFit(text, overlap, bound);
    var units := AttachSeparators(Parts(text));
    ghost var slices;
    chunks, slices := Pack(units, text, chunkSize, overlap, bound);
    ChunkedIsChunking(text, chunks, slices, overlap, bound);
  }

  /** The packing loop of the chunker. */
  method Pack(units: seq<string>, ghost text: string, chunkSize: int, overlap: nat, ghost bound: nat)
    returns (chunks: seq<string>, ghost slices: seq<Slice>)
    requires Concat(units) == text && forall u | u in units :: 0 < |u| <= bound - overlap
    requires chunkSize <= bound
    ensures Chunked(text, chunks, slices, overlap, bound, |text|)
    ensures chunks == Packed(units, chunkSize, overlap, "")
  {
    chunks, slices := [], [];
    assert units[0..] == units;
    var buf := "";
    ghost var lo: nat, core: nat, end: nat, pos: nat := 0, 0, 0, 0;
    for i := 0 to |units|
      invariant pos == |Concat(units[..i])|
      invariant Packing(text, slices, overlap, bound, lo, core, end, pos) && Holds(buf, text, lo, pos)
      invariant Chunked(text, chunks, slices, overlap, bound, end)
      invariant Leads(chunks, units, i, chunkSize, overlap, buf)
    {
      var unit := units[i];
      ghost var next: nat := pos + |unit|;
      UnitFollows(text, units, i, pos, next);
      StrippedEmpty(buf, text, lo, pos);
      if |buf| + |unit| > chunkSize && Strip(buf) != "" {
        LeadsPastFlush(chunks, units, i, chunkSize, overlap, buf);
        ghost var s := NextChunk(text, chunks, slices, overlap, bound, end, lo, core, pos, buf);
        chunks, slices := chunks + [Strip(buf)], slices + [s];
        buf, lo := KeepTail(buf, overlap, text, lo, pos);
        core, end := lo, pos;
        PackAfterFlush(text, slices, overlap, bound, lo, pos, next);
      } else {
        LeadsOn(chunks, units, i, chunkSize, overlap, buf);
        ghost var fits := |buf| + |unit| <= chunkSize;
        PackOn(text, slices, overlap, bound, lo, core, end, pos, next, fits);
        core := if fits then lo else pos;
      }
      BufferGrows(text, lo, pos, next, buf, unit);
      buf, pos := buf + unit, next;
    }
    assert units[..|units|] == units && units[|units|..] == [];
    chunks, slices := LastChunk(chunks, slices, buf, text, overlap, bound, lo, core, end);
  }

  /** The chunks so far and those still to come, with `buf` packed, are the chunks of all units. */
  ghost predicate Leads(chunks: seq<string>, units: seq<string>, i: nat, chunkSize: int, overlap: nat, buf: string) {
    i <= |units| && chunks + Packed(units[i..], chunkSize, overlap, buf) == Packed(units, chunkSize, overlap, "")
  }

  lemma LeadsOn(chunks: seq<string>, units: seq<string>, i: nat, chunkSize: int, overlap: nat, buf: string)
    requires Leads(chunks, units, i, chunkSize, overlap, buf) && i < |units|
    requires |buf| + |units[i]| <= chunkSize || Strip(buf) == ""
    ensures Leads(chunks, units, i + 1, chunkSize, overlap, buf + units[i])
  {
    assert units[i..][0] == units[i] && units[i..][1..] == units[i + 1..];
  }

  lemma LeadsPastFlush(chunks: seq<string>, units: seq<string>, i: nat, chunkSize: int, overlap: nat, buf: string)
    requires Leads(chunks, units, i, chunkSize, overlap, buf) && i < |units|
    requires |buf| + |units[i]| > chunkSize && Strip(buf) != ""
    ensures Leads(chunks + [Strip(buf)], units, i + 1, chunkSize, overlap, Tail(buf, overlap) + units[i])
  {
    assert units[i..][0] == units[i] && units[i..][1..] == units[i + 1..];
    Regroup(chunks, Strip(buf), Packed(units[i + 1..], chunkSize, overlap, Tail(buf, overlap) + units[i]),
            Packed(units[i..], chunkSize, overlap, buf));
  }

  /** Behind the loop: what is left in the buffer is the last chunk, unless it is blank. */
  method LastChunk(chunks: seq<string>, ghost slices: seq<Slice>, buf: string, ghost text: string, ghost overlap: nat,
      ghost bound: nat, ghost lo: nat, ghost core: nat, ghost end: nat)
    returns (all: seq<string>, ghost cuts: seq<Slice>)
    requires Packing(text, slices, overlap, bound, lo, core, end, |text|) && Holds(buf, text, lo, |text|)
    requires Chunked(text, chunks, slices, overlap, bound, end)
    ensures Chunked(text, all, cuts, overlap, bound, |text|)
    ensures all == chunks + if Strip(buf) == "" then [] else [Strip(buf)]
  {
    all, cuts := chunks, slices;
    StrippedEmpty(buf, text, lo, |text|);
    if Strip(buf) != "" {
      ghost var s := NextChunk(text, chunks, slices, overlap, bound, end, lo, core, |text|, buf);
      all, cuts := chunks + [Strip(buf)], slices + [s];
    } else {
      BlankRest(text, slices, lo, end);
    }
  }

  lemma UnitFollows(text: string, units: seq<string>, i: nat, pos: nat, next: nat)
    requires i < |units| && Concat(units) == text && pos == |Concat(units[..i])| <= |text| && next == pos + |units[i]|
    ensures Holds(units[i], text, pos, next) && |Concat(units[..i + 1])| == next
    ensures units[i] in units
  {
    assert units[..i + 1] == units[..i] + [units[i]];
    ConcatGrows(units[..i], units[i]);
    assert units == units[..i + 1] + units[i + 1..];
    ConcatSplits(units[..i + 1], units[i + 1..]);
    assert units[i] in units;
  }
}
