/** What the parts of a text are: its separators, and the pieces between them. */
module SplitParts {
  import opened SplitText
  import opened Text

  /** Length of the separator that starts at j. */
  function SeparatorAt(s: string, j: nat): nat {
    if j >= |s| then 0
    else if s[j] == '\n' then (if j + 1 < |s| && s[j + 1] == '\n' then 2 else 1)
    else if s[j] == '.' then (if j + 1 < |s| && s[j + 1] == ' ' then 2 else 0)
    else if s[j] == ' ' then 1 else 0
  }

  lemma SeparatorAtIs(s: string, j: nat, t: string)
    requires j <= |s| && t == s[j..]
    ensures SeparatorAt(s, j) == SeparatorLength(t)
  {}

  /** From o to end s has one separator, or what stands between two separators. */
  ghost predicate IsPart(s: string, o: nat, end: nat) {
    o < end <= |s| && (SeparatorAt(s, o) == end - o || IsPiece(s, o, end))
  }

  ghost predicate IsPiece(s: string, o: nat, end: nat) {
    (forall j: nat | o <= j < end :: SeparatorAt(s, j) == 0) && (end == |s| || SeparatorAt(s, end) > 0)
  }

  /** What stands in front of the first separator behind o. */
  lemma WordIsPart(s: string, o: nat, t: string, i: nat)
    requires o <= |s| && t == s[o..] && i == FirstSeparator(t) && 0 < i
    ensures IsPart(s, o, o + i)
  {
    forall j: nat | o <= j < o + i ensures SeparatorAt(s, j) == 0 {
      NoneAt(s, o, t, j - o);
    }
    SeparatorAtIs(s, o + i, t[i..]);
  }

  lemma NoneAt(s: string, o: nat, t: string, k: nat)
    requires o <= |s| && t == s[o..] && k < FirstSeparator(t)
    ensures SeparatorAt(s, o + k) == 0
  {
    NoneBefore(t, k);
    SeparatorAtIs(s, o + k, t[k..]);
  }

  /** The parts stand one behind the other from at[0] on, part k from at[k] to at[k + 1]. */
  ghost predicate AreParts(s: string, parts: seq<string>, at: seq<nat>) {
    |at| == |parts| + 1 && forall k: nat | k < |parts| :: PartAt(s, parts, at, k)
  }

  ghost predicate PartAt(s: string, parts: seq<string>, at: seq<nat>, k: nat) {
    k < |parts| && |at| == |parts| + 1 && at[k + 1] == at[k] + |parts[k]| && IsPart(s, at[k], at[k + 1])
  }

  /** Put together the parts are the text, and each of them is a separator, or a piece between two of them. */
  lemma PartsAre(s: string) returns (at: seq<nat>)
    ensures Concat(Parts(s)) == s && AreParts(s, Parts(s), at) && at[0] == 0
  {
    assert s[0..] == s;
    PartsConcat(s);
    at := PartsBehind(s, 0, s);
  }

  /** The same of the text behind o. */
  lemma {:induction false} PartsBehind(s: string, o: nat, t: string) returns (at: seq<nat>)
    requires o <= |s| && t == s[o..]
    ensures AreParts(s, Parts(t), at) && at[0] == o
    decreases |t|
  {
    if t == "" {
      at := [o];
    } else if FirstSeparator(t) == |t| {
      at := OnlyPart(s, o, t);
    } else {
      var front, from, next, u := UpToSeparator(s, o, t);
      var behind := PartsBehind(s, next, u);
      at := Joined(s, front, from, Parts(u), behind);
    }
  }

  /** The parts up to the first separator, and the text behind it. */
  lemma UpToSeparator(s: string, o: nat, t: string)
    returns (front: seq<string>, from: seq<nat>, next: nat, u: string)
    requires o <= |s| && t == s[o..] && FirstSeparator(t) < |t|
    ensures AreParts(s, front, from) && from[0] == o && from[|front|] == next
    ensures next <= |s| && u == s[next..] && |u| < |t| && Parts(t) == front + Parts(u)
  {
    var i, n, rest;
    i, n, front, rest := PartsFront(s, o, t);
    u := SuffixOf(s, o, t, i + n);
    from := FirstParts(s, o, t, i, n, front);
    next := o + i + n;
  }

  lemma Joined(s: string, front: seq<string>, from: seq<nat>, rest: seq<string>, behind: seq<nat>)
    returns (at: seq<nat>)
    requires AreParts(s, front, from) && AreParts(s, rest, behind) && behind[0] == from[|front|]
    ensures AreParts(s, front + rest, at) && at[0] == from[0] && at[|front + rest|] == behind[|rest|]
  {
    at := from[..|front|] + behind;
    forall k: nat | k < |front + rest| ensures PartAt(s, front + rest, at, k) {
      if k < |front| {
        assert PartAt(s, front, from, k);
      } else {
        assert PartAt(s, rest, behind, k - |front|);
      }
    }
  }

  lemma OnePart(s: string, from: nat, to: nat, p: string) returns (at: seq<nat>)
    requires IsPart(s, from, to) && |p| == to - from
    ensures AreParts(s, [p], at) && at[0] == from && at[1] == to
  {
    at := [from, to];
  }

  lemma OnlyPart(s: string, o: nat, t: string) returns (at: seq<nat>)
    requires o <= |s| && t == s[o..] && FirstSeparator(t) == |t| > 0
    ensures Parts(t) == [t] && AreParts(s, [t], at) && at[0] == o
  {
    WordIsPart(s, o, t, |t|);
    at := OnePart(s, o, o + |t|, t);
  }

  /** The parts up to the first separator, and those behind it. */
  lemma PartsFront(s: string, o: nat, t: string)
    returns (i: nat, n: nat, front: seq<string>, rest: seq<string>)
    requires o <= |s| && t == s[o..] && FirstSeparator(t) < |t|
    ensures i == FirstSeparator(t) && n == SeparatorAt(s, o + i) > 0 && i + n <= |t|
    ensures front == (if i > 0 then [t[..i], t[i..i + n]] else [t[i..i + n]])
    ensures rest == Parts(t[i + n..]) && Parts(t) == front + rest
  {
    i, n := Cut(s, o, t);
    front, rest := (if i > 0 then [t[..i]] else []) + [t[i..i + n]], Parts(t[i + n..]);
  }

  lemma Cut(s: string, o: nat, t: string) returns (i: nat, n: nat)
    requires o <= |s| && t == s[o..] && FirstSeparator(t) < |t|
    ensures i == FirstSeparator(t) && n == SeparatorAt(s, o + i) > 0 && i + n <= |t|
    ensures Parts(t) == PartsAround(t, i, n)
  {
    i := FirstSeparator(t);
    n := SeparatorLength(t[i..]);
    SeparatorAtIs(s, o + i, t[i..]);
  }

  lemma SuffixOf(s: string, o: nat, t: string, m: nat) returns (u: string)
    requires o <= |s| && t == s[o..] && m <= |t|
    ensures u == t[m..] && u == s[o + m..] && |u| == |t| - m
  {
    u := t[m..];
  }

  lemma FirstParts(s: string, o: nat, t: string, i: nat, n: nat, front: seq<string>) returns (at: seq<nat>)
    requires o <= |s| && t == s[o..] && i == FirstSeparator(t) < |t|
    requires n == SeparatorAt(s, o + i) > 0 && i + n <= |t|
    requires front == if i > 0 then [t[..i], t[i..i + n]] else [t[i..i + n]]
    ensures AreParts(s, front, at) && at[0] == o && at[|front|] == o + i + n
  {
    at := OnePart(s, o + i, o + i + n, t[i..i + n]);
    if i > 0 {
      WordIsPart(s, o, t, i);
      var first := OnePart(s, o, o + i, t[..i]);
      at := Joined(s, [t[..i]], first, [t[i..i + n]], at);
      assert [t[..i]] + [t[i..i + n]] == front;
    }
  }
}
