/** JSON texts (RFC 8259): a value with everything its text says, whitespace and escapes included, so that
    the well-formed texts are exactly the texts of well-formed values. Python's reader also takes NaN,
    Infinity and -Infinity, and so does this grammar. */
module Json {
  import opened Common

  datatype Value =
    | Scalar(token: string)
    | Str(body: string)
    | Arr(space: string, elements: seq<Element>)
    | Obj(space: string, elements: seq<Element>)

  /** An array element, or an object member with its key. */
  datatype Element = Element(before: string, key: Option<Key>, value: Value, after: string)

  datatype Key = Key(body: string, after: string, before: string)

  predicate IsSpace(c: char) {
    c == ' ' || c == '\t' || c == '\n' || c == '\r'
  }

  predicate AllSpace(s: string) {
    forall i | 0 <= i < |s| :: IsSpace(s[i])
  }

  function Text(v: Value): string
    decreases v, if v.Arr? || v.Obj? then |v.elements| + 1 else 0
  {
    match v
    case Scalar(token) => token
    case Str(body) => Quoted(body)
    case Arr(_, _) => "[" + Inside(v) + "]"
    case Obj(_, _) => "{" + Inside(v) + "}"
  }

  function Quoted(body: string): string {
    "\"" + body + "\""
  }

  function Inside(v: Value): string
    requires v.Arr? || v.Obj?
    decreases v, |v.elements|, 1
  {
    if v.elements == [] then v.space else Joined(v, |v.elements|)
  }

  /** The first n elements with the commas between them. */
  function Joined(v: Value, n: nat): string
    requires (v.Arr? || v.Obj?) && n <= |v.elements|
    decreases v, n, 0
  {
    if n == 0 then "" else Joined(v, n - 1) + Comma(n - 1) + ElementText(v.elements[n - 1])
  }

  function Comma(before: nat): string {
    if before == 0 then "" else ","
  }

  function ElementText(e: Element): string
    decreases e
  {
    e.before + KeyText(e.key) + Text(e.value) + e.after
  }

  function KeyText(key: Option<Key>): string {
    match key
    case None => ""
    case Some(k) => Quoted(k.body) + k.after + ":" + k.before
  }

  predicate WellFormed(v: Value)
    decreases v
  {
    match v
    case Scalar(token) => IsLiteral(token) || IsNumber(token)
    case Str(body) => IsStringBody(body)
    case Arr(space, elements) => AllSpace(space) && forall e | e in elements :: e.key.None? && WellFormedElement(e)
    case Obj(space, elements) => AllSpace(space) && forall e | e in elements :: e.key.Some? && WellFormedElement(e)
  }

  predicate IsLiteral(s: string) {
    s == "true" || s == "false" || s == "null" || s == "NaN" || s == "Infinity" || s == "-Infinity"
  }

  predicate WellFormedElement(e: Element)
    decreases e
  {
    && AllSpace(e.before) && AllSpace(e.after) && WellFormed(e.value)
    && (e.key.Some? ==> IsStringBody(e.key.value.body) && AllSpace(e.key.value.after) && AllSpace(e.key.value.before))
  }

  predicate IsHex(c: char) {
    '0' <= c <= '9' || 'a' <= c <= 'f' || 'A' <= c <= 'F'
  }

  /** What may stand between quotes (section 7): no control character, quote or backslash, except escaped. */
  predicate IsStringBody(s: string) {
    if s == "" then true
    else if s[0] == '\\' then
      && |s| >= 2
      && if s[1] == 'u' then |s| >= 6 && IsHex(s[2]) && IsHex(s[3]) && IsHex(s[4]) && IsHex(s[5]) &&
           IsStringBody(s[6..])
         else s[1] in "\"\\/bfnrt" && IsStringBody(s[2..])
    else s[0] >= ' ' && s[0] != '"' && IsStringBody(s[1..])
  }

  predicate IsDigit(c: char) {
    '0' <= c <= '9'
  }

  function Digits(s: string): (n: nat)
    ensures n <= |s| && forall i | 0 <= i < n :: IsDigit(s[i])
  {
    if s != "" && IsDigit(s[0]) then 1 + Digits(s[1..]) else 0
  }

  /** [minus] int [frac] [exp] (section 6). */
  predicate IsNumber(s: string) {
    if s != "" && s[0] == '-' then IsUnsigned(s[1..]) else IsUnsigned(s)
  }

  predicate IsUnsigned(s: string) {
    var n := Digits(s);
    n > 0 && (s[0] == '0' ==> n == 1) && IsFraction(s[n..])
  }

  predicate IsFraction(s: string) {
    if s != "" && s[0] == '.' then
      var n := Digits(s[1..]);
      n > 0 && IsExponent(s[1..][n..])
    else IsExponent(s)
  }

  predicate IsExponent(s: string) {
    if s == "" then true
    else
      && (s[0] == 'e' || s[0] == 'E')
      && var digits := if |s| > 1 && (s[1] == '+' || s[1] == '-') then s[2..] else s[1..];
         digits != "" && Digits(digits) == |digits|
  }

  /** Not a character that opens or closes anything. */
  predicate IsPlain(c: char) {
    c != '"' && c != '[' && c != ']' && c != '{' && c != '}'
  }

  predicate AllPlain(s: string) {
    forall i | 0 <= i < |s| :: IsPlain(s[i])
  }

  lemma PlainRest(s: string, n: nat)
    requires n <= |s| && AllPlain(s[n..]) && forall i | 0 <= i < n :: IsPlain(s[i])
    ensures AllPlain(s)
  {
    assert forall i | n <= i < |s| :: s[i] == s[n..][i - n];
  }

  lemma ExponentIsPlain(s: string)
    requires IsExponent(s)
    ensures AllPlain(s)
  {
    if s != "" {
      PlainRest(s, if |s| > 1 && (s[1] == '+' || s[1] == '-') then 2 else 1);
    }
  }

  lemma FractionIsPlain(s: string)
    requires IsFraction(s)
    ensures AllPlain(s)
  {
    if s != "" && s[0] == '.' {
      var e := s[1..];
      ExponentIsPlain(e[Digits(e)..]);
      PlainRest(e, Digits(e));
      PlainRest(s, 1);
    } else {
      ExponentIsPlain(s);
    }
  }

  lemma NumberIsPlain(s: string)
    requires IsNumber(s)
    ensures AllPlain(s)
  {
    var u := if s[0] == '-' then s[1..] else s;
    FractionIsPlain(u[Digits(u)..]);
    PlainRest(u, Digits(u));
    PlainRest(s, if s[0] == '-' then 1 else 0);
  }

  lemma ScalarIsPlain(s: string)
    requires IsLiteral(s) || IsNumber(s)
    ensures AllPlain(s) && s != ""
  {
    if IsNumber(s) { NumberIsPlain(s); }
  }

  // ---- The scanner that tells a truncated record from a malformed one ----

  datatype Scan = Scan(depth: nat, inString: bool, escaped: bool) | Overclosed

  function Step(st: Scan, c: char): Scan {
    if st.Overclosed? then st
    else if st.inString then
      if st.escaped then st.(escaped := false)
      else if c == '\\' then st.(escaped := true)
      else if c == '"' then st.(inString := false)
      else st
    else if c == '"' then st.(inString := true)
    else if c == '[' || c == '{' then st.(depth := st.depth + 1)
    else if c == ']' || c == '}' then (if st.depth == 0 then Overclosed else st.(depth := st.depth - 1))
    else st
  }

  function Run(st: Scan, s: string): Scan {
    if s == "" then st else Step(Run(st, s[..|s| - 1]), s[|s| - 1])
  }

  function Top(depth: nat): Scan {
    Scan(depth, false, false)
  }

  /** The scanner's verdict: everything opened is closed, or more than that. */
  predicate Closed(st: Scan) {
    st.Overclosed? || (st.depth == 0 && !st.inString)
  }

  method IsComplete(buffer: string, recordStart: nat) returns (complete: bool)
    requires recordStart <= |buffer|
    ensures complete == Closed(Run(Top(0), buffer[recordStart..]))
  {
    var depth, inString, escaped := 0, false, false;
    ghost var record := buffer[recordStart..];
    for i := recordStart to |buffer|
      invariant depth >= 0 && Run(Top(0), record[..i - recordStart]) == Scan(depth, inString, escaped)
      invariant escaped ==> inString
    {
      var c := buffer[i];
      RunOn(Top(0), record, i - recordStart);
      if inString {
        if escaped {
          escaped := false;
        } else if c == '\\' {
          escaped := true;
        } else if c == '"' {
          inString := false;
        }
      } else if c == '"' {
        inString := true;
      } else if c == '[' || c == '{' {
        depth := depth + 1;
      } else if c == ']' || c == '}' {
        if depth == 0 {
          StaysOverclosed(Top(0), record, i + 1 - recordStart);
          return true;
        }
        depth := depth - 1;
      }
    }
    assert record[..|record|] == record;
    complete := depth == 0 && !inString;
  }

  lemma RunOn(st: Scan, s: string, i: nat)
    requires i < |s|
    ensures Run(st, s[..i + 1]) == Step(Run(st, s[..i]), s[i])
  {
    assert s[..i + 1][..i] == s[..i];
  }

  lemma {:induction false} RunAppend(st: Scan, a: string, b: string)
    ensures Run(st, a + b) == Run(Run(st, a), b)
    decreases |b|
  {
    if b == "" {
      assert a + b == a;
    } else {
      var front := b[..|b| - 1];
      assert (a + b)[..|a + b| - 1] == a + front;
      RunAppend(st, a, front);
    }
  }

  lemma StaysOverclosed(st: Scan, s: string, i: nat)
    requires i <= |s| && Run(st, s[..i]).Overclosed?
    ensures Run(st, s).Overclosed?
  {
    assert s[..i] + s[i..] == s;
    RunAppend(st, s[..i], s[i..]);
    OverclosedForGood(s[i..]);
  }

  lemma {:induction false} OverclosedForGood(s: string)
    ensures Run(Overclosed, s).Overclosed?
  {
    if s != "" {
      OverclosedForGood(s[..|s| - 1]);
    }
  }

  // ---- What the scanner makes of a well-formed text ----

  predicate AtLeast(st: Scan, depth: nat) {
    st.Scan? && st.depth >= depth
  }

  ghost predicate NeverBelow(st: Scan, s: string, depth: nat) {
    forall k: nat | k <= |s| :: AtLeast(Run(st, s[..k]), depth)
  }

  /** From depth d, outside strings, s leads back there and never below. */
  ghost predicate Level(s: string, d: nat) {
    Run(Top(d), s) == Top(d) && NeverBelow(Top(d), s, d)
  }

  lemma NeverBelowAppend(st: Scan, a: string, b: string, depth: nat)
    requires NeverBelow(st, a, depth) && NeverBelow(Run(st, a), b, depth)
    ensures NeverBelow(st, a + b, depth)
  {
    forall k: nat | k <= |a + b| ensures AtLeast(Run(st, (a + b)[..k]), depth) {
      if k <= |a| {
        assert (a + b)[..k] == a[..k];
      } else {
        assert (a + b)[..k] == a + b[..k - |a|];
        RunAppend(st, a, b[..k - |a|]);
      }
    }
  }

  lemma LevelAppend(a: string, b: string, d: nat)
    requires Level(a, d) && Level(b, d)
    ensures Level(a + b, d)
  {
    RunAppend(Top(d), a, b);
    NeverBelowAppend(Top(d), a, b, d);
  }

  lemma {:induction false} PlainLevel(s: string, d: nat)
    requires AllPlain(s)
    ensures Level(s, d)
  {
    if s != "" {
      var front := s[..|s| - 1];
      PlainLevel(front, d);
      forall k: nat | k <= |s| ensures AtLeast(Run(Top(d), s[..k]), d) {
        if k < |s| { assert s[..k] == front[..k]; } else { assert s[..k] == s; }
      }
    }
  }

  lemma OneStep(st: Scan, c: char)
    ensures Run(st, [c]) == Step(st, c)
  {
    assert [c][..0] == "";
  }

  /** Inside a string the depth stays, and an escaped quote does not end it. */
  lemma {:induction false} BodyStays(body: string, d: nat)
    requires IsStringBody(body)
    ensures Run(Scan(d, true, false), body) == Scan(d, true, false)
    ensures NeverBelow(Scan(d, true, false), body, d)
  {
    var st := Scan(d, true, false);
    if body != "" {
      var n := if body[0] != '\\' then 1 else if body[1] == 'u' then 6 else 2;
      BodyStays(body[n..], d);
      ItemStays(body[..n], d);
      assert body == body[..n] + body[n..];
      RunAppend(st, body[..n], body[n..]);
      NeverBelowAppend(st, body[..n], body[n..], d);
    }
  }

  lemma ItemStays(item: string, d: nat)
    requires 1 <= |item| && (item[0] != '\\' ==> |item| == 1 && item[0] != '"')
    requires item[0] == '\\' ==> 2 <= |item| && forall i | 2 <= i < |item| :: IsHex(item[i])
    ensures Run(Scan(d, true, false), item) == Scan(d, true, false) && NeverBelow(Scan(d, true, false), item, d)
  {
    var st := Scan(d, true, false);
    StringStep(st, item, 0);
    if item[0] == '\\' {
      StringStep(st, item, 1);
      HexStays(item, d, |item|);
    }
    assert item[..|item|] == item;
    forall k: nat | k <= |item| ensures AtLeast(Run(st, item[..k]), d) {
      if item[0] == '\\' && k >= 2 { HexStays(item, d, k); }
    }
  }

  lemma StringStep(st: Scan, s: string, i: nat)
    requires i < |s|
    ensures Run(st, s[..i + 1]) == Step(Run(st, s[..i]), s[i]) && Run(st, s[..0]) == st
  {
    RunOn(st, s, i);
  }

  lemma {:induction false} HexStays(item: string, d: nat, k: nat)
    requires 2 <= k <= |item| && item[0] == '\\' && forall i | 2 <= i < |item| :: IsHex(item[i])
    ensures Run(Scan(d, true, false), item[..k]) == Scan(d, true, false)
  {
    var st := Scan(d, true, false);
    if k == 2 {
      StringStep(st, item, 0);
      StringStep(st, item, 1);
    } else {
      HexStays(item, d, k - 1);
      StringStep(st, item, k - 1);
    }
  }

  /** What is enclosed stays above the level outside. */
  lemma Enclosed(open: char, inner: string, close: char, before: Scan, inside: Scan, after: Scan, low: nat)
    requires Step(before, open) == inside && Run(inside, inner) == inside && Step(inside, close) == after
    requires NeverBelow(inside, inner, low)
    ensures Run(before, [open] + inner + [close]) == after
    ensures forall k: nat | 0 < k < |[open] + inner + [close]| ::
      AtLeast(Run(before, ([open] + inner + [close])[..k]), low)
  {
    var s := [open] + inner + [close];
    OneStep(before, open);
    RunAppend(before, [open], inner);
    assert s[..|s| - 1] == [open] + inner;
    forall k: nat | 0 < k < |s| ensures AtLeast(Run(before, s[..k]), low) {
      assert s[..k] == [open] + inner[..k - 1];
      RunAppend(before, [open], inner[..k - 1]);
    }
  }

  lemma QuotedLevel(body: string, d: nat)
    requires IsStringBody(body)
    ensures Level(Quoted(body), d)
  {
    BodyStays(body, d);
    Enclosed('"', body, '"', Top(d), Scan(d, true, false), Top(d), d);
    var s := Quoted(body);
    assert s == ['"'] + body + ['"'] && s[..|s|] == s;
  }

  /** Strictly inside brackets the depth is higher than outside. */
  lemma BracketLevel(open: char, inner: string, close: char, d: nat)
    requires (open == '[' || open == '{') && (close == ']' || close == '}') && Level(inner, d + 1)
    ensures Level([open] + inner + [close], d)
    ensures forall k: nat | 0 < k < |[open] + inner + [close]| ::
      AtLeast(Run(Top(d), ([open] + inner + [close])[..k]), d + 1)
  {
    Enclosed(open, inner, close, Top(d), Top(d + 1), Top(d), d + 1);
    var s := [open] + inner + [close];
    assert s[..|s|] == s;
  }

  lemma {:induction false} InsideLevel(v: Value, n: nat, d: nat)
    requires (v.Arr? || v.Obj?) && WellFormed(v) && n <= |v.elements|
    ensures Level(Joined(v, n), d)
    decreases v, n
  {
    if n == 0 {
      PlainLevel("", d);
    } else {
      var e := v.elements[n - 1];
      assert e in v.elements;
      InsideLevel(v, n - 1, d);
      PlainLevel(Comma(n - 1), d);
      LevelAppend(Joined(v, n - 1), Comma(n - 1), d);
      ElementLevel(e, d);
      LevelAppend(Joined(v, n - 1) + Comma(n - 1), ElementText(e), d);
    }
  }

  lemma {:induction false} ElementLevel(e: Element, d: nat)
    requires WellFormedElement(e)
    ensures Level(ElementText(e), d)
    decreases e
  {
    PlainLevel(e.before, d);
    PlainLevel(e.after, d);
    KeyLevel(e.key, d);
    TextLevel(e.value, d);
    LevelAppend(e.before, KeyText(e.key), d);
    LevelAppend(e.before + KeyText(e.key), Text(e.value), d);
    LevelAppend(e.before + KeyText(e.key) + Text(e.value), e.after, d);
  }

  lemma KeyLevel(key: Option<Key>, d: nat)
    requires key.Some? ==> IsStringBody(key.value.body) && AllSpace(key.value.after) && AllSpace(key.value.before)
    ensures Level(KeyText(key), d)
  {
    match key
    case None =>
      PlainLevel("", d);
    case Some(k) =>
      QuotedLevel(k.body, d);
      PlainLevel(k.after, d);
      PlainLevel(":", d);
      PlainLevel(k.before, d);
      LevelAppend(Quoted(k.body), k.after, d);
      LevelAppend(Quoted(k.body) + k.after, ":", d);
      LevelAppend(Quoted(k.body) + k.after + ":", k.before, d);
  }

  /** A well-formed text leaves the scanner where it was. */
  lemma {:induction false} TextLevel(v: Value, d: nat)
    requires WellFormed(v)
    ensures Level(Text(v), d)
    decreases v, if v.Arr? || v.Obj? then |v.elements| + 1 else 0
  {
    match v
    case Scalar(token) =>
      ScalarIsPlain(token);
      PlainLevel(token, d);
    case Str(body) =>
      QuotedLevel(body, d);
    case Arr(space, elements) =>
      if elements == [] { PlainLevel(space, d + 1); } else { InsideLevel(v, |elements|, d + 1); }
      BracketLevel('[', Inside(v), ']', d);
    case Obj(space, elements) =>
      if elements == [] { PlainLevel(space, d + 1); } else { InsideLevel(v, |elements|, d + 1); }
      BracketLevel('{', Inside(v), '}', d);
  }

  /** A truncated object or array is never taken for a complete one. */
  lemma TruncatedIsIncomplete(v: Value, part: string)
    requires WellFormed(v) && (v.Obj? || v.Arr?) && part != "" && part < Text(v)
    ensures !Closed(Run(Top(0), part))
  {
    var open, close := if v.Obj? then '{' else '[', if v.Obj? then '}' else ']';
    if v.elements == [] { PlainLevel(v.space, 1); } else { InsideLevel(v, |v.elements|, 1); }
    BracketLevel(open, Inside(v), close, 0);
    assert Text(v) == [open] + Inside(v) + [close];
    assert part == ([open] + Inside(v) + [close])[..|part|];
    assert AtLeast(Run(Top(0), ([open] + Inside(v) + [close])[..|part|]), 1);
  }

  /** A complete text is seen to be complete. */
  lemma WholeIsComplete(v: Value)
    requires WellFormed(v)
    ensures Closed(Run(Top(0), Text(v)))
  {
    TextLevel(v, 0);
  }

  lemma StartsAs(v: Value)
    requires WellFormed(v)
    ensures Text(v) != "" && (Text(v)[0] == '{' <==> v.Obj?)
  {
    if v.Scalar? { ScalarIsPlain(v.token); }
  }

  /** No value text is a proper prefix of an object text: an object ends where its closing brace is. */
  lemma ObjectsArePrefixFree(v: Value, w: Value)
    requires WellFormed(v) && v.Obj? && WellFormed(w)
    ensures !(Text(w) < Text(v))
  {
    StartsAs(w);
    WholeIsComplete(w);
    if Text(w) < Text(v) {
      TruncatedIsIncomplete(v, Text(w));
    }
  }
}
