/** Whitespace, strip() and join(), as Python's str defines them. */
module Text {

  predicate IsSpace(c: char) {
    || '\t' <= c <= '\r' || '\U{1C}' <= c <= ' ' || c == '\U{85}' || c == '\U{A0}'
    || c == '\U{1680}' || '\U{2000}' <= c <= '\U{200A}'
    || '\U{2028}' <= c <= '\U{2029}' || c == '\U{202F}' || c == '\U{205F}' || c == '\U{3000}'
  }

  predicate IsBlank(s: string) {
    forall i | 0 <= i < |s| :: IsSpace(s[i])
  }

  function LeftStrip(s: string): string {
    if s != [] && IsSpace(s[0]) then LeftStrip(s[1..]) else s
  }

  function RightStrip(s: string): string {
    if s != [] && IsSpace(s[|s| - 1]) then RightStrip(s[..|s| - 1]) else s
  }

  function Strip(s: string): string {
    RightStrip(LeftStrip(s))
  }

  /** Where the stripped text sits: s[lo..hi] with blank text on both sides, and solid ends. */
  ghost predicate StripsTo(s: string, lo: nat, hi: nat) {
    && lo <= hi <= |s|
    && IsBlank(s[..lo]) && IsBlank(s[hi..])
    && (lo < hi ==> !IsSpace(s[lo]) && !IsSpace(s[hi - 1]))
  }

  lemma {:induction false} LeftStripBounds(s: string) returns (lo: nat)
    ensures lo <= |s| && LeftStrip(s) == s[lo..] && IsBlank(s[..lo]) && (lo < |s| ==> !IsSpace(s[lo]))
  {
    if s != [] && IsSpace(s[0]) {
      var k := LeftStripBounds(s[1..]);
      lo := k + 1;
      assert s[1..][k..] == s[lo..];
      assert forall i | 0 < i < lo :: s[i] == s[1..][..k][i - 1];
    } else {
      lo := 0;
    }
  }

  lemma {:induction false} RightStripBounds(s: string) returns (hi: nat)
    ensures hi <= |s| && RightStrip(s) == s[..hi] && IsBlank(s[hi..]) && (0 < hi ==> !IsSpace(s[hi - 1]))
  {
    if s != [] && IsSpace(s[|s| - 1]) {
      hi := RightStripBounds(s[..|s| - 1]);
      assert s[..|s| - 1][..hi] == s[..hi];
      assert forall i | hi <= i < |s| - 1 :: s[i] == s[..|s| - 1][hi..][i - hi];
    } else {
      hi := |s|;
    }
  }

  lemma StripBounds(s: string) returns (lo: nat, hi: nat)
    ensures StripsTo(s, lo, hi) && Strip(s) == s[lo..hi]
  {
    lo := LeftStripBounds(s);
    var k := RightStripBounds(s[lo..]);
    hi := lo + k;
    assert s[lo..][..k] == s[lo..hi];
    assert s[lo..][k..] == s[hi..];
    if lo < hi {
      assert s[lo..][k - 1] == s[hi - 1];
    } else {
      assert s[lo..] == s[hi..];
    }
  }

  lemma StripsToNothing(s: string)
    ensures Strip(s) == "" <==> IsBlank(s)
  {
    var lo, hi := StripBounds(s);
  }

  function Concat(parts: seq<string>): string {
    if parts == [] then "" else Concat(parts[..|parts| - 1]) + parts[|parts| - 1]
  }

  lemma ConcatGrows(parts: seq<string>, p: string)
    ensures Concat(parts + [p]) == Concat(parts) + p
  {
    assert (parts + [p])[..|parts|] == parts;
  }

  lemma {:induction false} ConcatSplits(a: seq<string>, b: seq<string>)
    ensures Concat(a + b) == Concat(a) + Concat(b)
    decreases |b|
  {
    if b == [] {
      assert a + b == a;
    } else {
      var front, last := b[..|b| - 1], b[|b| - 1];
      assert b == front + [last];
      Associative(a, front, [last]);
      ConcatSplits(a, front);
      ConcatGrows(a + front, last);
      Associative(Concat(a), Concat(front), last);
    }
  }

  lemma Associative<T>(x: seq<T>, y: seq<T>, z: seq<T>)
    ensures (x + y) + z == x + (y + z)
  {}

  lemma ConcatFront(p: string, rest: seq<string>)
    ensures Concat([p] + rest) == p + Concat(rest)
  {
    ConcatSplits([p], rest);
    ConcatGrows([], p);
    assert [] + [p] == [p];
  }
}
