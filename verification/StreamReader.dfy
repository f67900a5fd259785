/** Reading the records of a JSON array from a file that arrives in chunks. */
module StreamReader {
  import opened Common
  import opened Text
  import Json

  datatype Fault = BadLimit | NotAnArray | Malformed | NotAnObject

  /** The records as they stand in the file, or the reason why reading failed. */
  datatype Outcome = Records(texts: seq<string>) | Failed(fault: Fault)

  predicate IsSeparator(c: char) {
    c == ' ' || c == '\t' || c == '\r' || c == '\n' || c == ','
  }

  function Skipped(s: string): string {
    if s != "" && IsSeparator(s[0]) then Skipped(s[1..]) else s
  }

  /** The decoder reads one value from the front of a string and says where it ended, or fails. Whatever it
      reads is a well-formed text, and an object with anything behind it is read to the end of the object. */
  ghost predicate IsDecoder(decode: string -> Option<nat>) {
    && Advances(decode)
    && (forall s: string | decode(s).Some? :: IsTextUpTo(s, decode(s).value))
    && (forall v: Json.Value, rest: string | Json.WellFormed(v) && v.Obj? ::
          decode(Json.Text(v) + rest) == Some(|Json.Text(v)|))
  }

  ghost predicate Advances(decode: string -> Option<nat>) {
    forall s: string | decode(s).Some? :: 0 < decode(s).value <= |s|
  }

  ghost predicate IsTextUpTo(s: string, k: nat) {
    k <= |s| && exists v: Json.Value :: Json.WellFormed(v) && Json.Text(v) == s[..k]
  }

  function Prepend(texts: seq<string>, rest: Outcome): Outcome {
    if rest.Failed? then rest else Records(texts + rest.texts)
  }

  /** What is read from `front`, the part of the buffer not yet consumed, and the chunks to come. */
  function Collected(front: string, unread: seq<string>, limit: nat, decode: string -> Option<nat>): Outcome
    requires Advances(decode)
    decreases limit, |unread|
  {
    if limit == 0 then Records([]) else
    var s := Skipped(front);
    if s == "" || s[0] == ']' then Records([])
    else match decode(s)
      case None =>
        if Json.Closed(Json.Run(Json.Top(0), s)) then Failed(Malformed)
        else if unread == [] then Records([])
        else Collected(s + unread[0], unread[1..], limit, decode)
      case Some(k) =>
        if s[0] != '{' then Failed(NotAnObject)
        else Prepend([s[..k]], Collected(s[k..], unread, limit - 1, decode))
  }

  function Streamed(chunks: seq<string>, limit: int, decode: string -> Option<nat>): Outcome
    requires Advances(decode)
  {
    if limit < 1 then Failed(BadLimit) else
    var s := Skipped(if chunks == [] then "" else chunks[0]);
    if s == "" || s[0] != '[' then Failed(NotAnArray)
    else Collected(s[1..], if chunks == [] then [] else chunks[1..], limit, decode)
  }

  method SkipSeparators(buffer: string, from: nat) returns (position: nat)
    requires from <= |buffer|
    ensures from <= position <= |buffer| && buffer[position..] == Skipped(buffer[from..])
  {
    position := from;
    while position < |buffer| && IsSeparator(buffer[position])
      invariant from <= position <= |buffer| && Skipped(buffer[position..]) == Skipped(buffer[from..])
    {
      assert buffer[position..][1..] == buffer[position + 1..];
      position := position + 1;
    }
  }

  /** With `out` put out already, up to `left` records are still to come from `front` and the unread chunks. */
  ghost predicate Owed(whole: Outcome, out: seq<string>, front: string, unread: seq<string>, left: nat,
      decode: string -> Option<nat>)
    requires Advances(decode)
  {
    whole == Prepend(out, Collected(front, unread, left, decode))
  }

  /** A truncated record asks for the next chunk. */
  lemma Refills(whole: Outcome, out: seq<string>, front: string, unread: seq<string>, left: nat,
      decode: string -> Option<nat>, s: string)
    requires Advances(decode) && Owed(whole, out, front, unread, left, decode) && left > 0
    requires s == Skipped(front) != "" && s[0] != ']'
    requires decode(s).None? && !Json.Closed(Json.Run(Json.Top(0), s)) && unread != []
    ensures Owed(whole, out, s + unread[0], unread[1..], left, decode)
  {}

  /** A record is put out and the rest read from where it ends. */
  lemma PutsOut(whole: Outcome, out: seq<string>, front: string, unread: seq<string>, left: nat,
      decode: string -> Option<nat>, s: string, k: nat)
    requires Advances(decode) && Owed(whole, out, front, unread, left, decode) && left > 0
    requires s == Skipped(front) != "" && s[0] == '{' && decode(s) == Some(k)
    ensures Owed(whole, out + [s[..k]], s[k..], unread, left - 1, decode)
  {
    var rest := Collected(s[k..], unread, left - 1, decode);
    assert Collected(front, unread, left, decode) == Prepend([s[..k]], rest);
    if rest.Records? {
      assert out + ([s[..k]] + rest.texts) == out + [s[..k]] + rest.texts;
    }
  }

  /** The array ends here, or the file does, or enough is read. */
  lemma Ends(whole: Outcome, out: seq<string>, front: string, unread: seq<string>, left: nat,
      decode: string -> Option<nat>, s: string)
    requires Advances(decode) && Owed(whole, out, front, unread, left, decode) && s == Skipped(front)
    requires left == 0 || s == "" || s[0] == ']' || (decode(s).None? && !Json.Closed(Json.Run(Json.Top(0), s)) &&
      unread == [])
    ensures whole == Records(out)
  {
    assert out + [] == out;
  }

  /** A whole value that cannot be read fails the whole. */
  lemma FailsMalformed(whole: Outcome, out: seq<string>, front: string, unread: seq<string>, left: nat,
      decode: string -> Option<nat>, s: string)
    requires Advances(decode) && Owed(whole, out, front, unread, left, decode) && left > 0
    requires s == Skipped(front) != "" && s[0] != ']'
    requires decode(s).None? && Json.Closed(Json.Run(Json.Top(0), s))
    ensures whole == Failed(Malformed)
  {}

  /** So does a value that is not an object. */
  lemma FailsNotAnObject(whole: Outcome, out: seq<string>, front: string, unread: seq<string>, left: nat,
      decode: string -> Option<nat>, s: string)
    requires Advances(decode) && Owed(whole, out, front, unread, left, decode) && left > 0
    requires s == Skipped(front) != "" && s[0] != ']' && decode(s).Some? && s[0] != '{'
    ensures whole == Failed(NotAnObject)
  {}

  lemma Slices(buffer: string, position: nat, k: nat, next: nat)
    requires next == position + k <= |buffer|
    ensures buffer[position..][..k] == buffer[position..next] && buffer[position..][k..] == buffer[next..]
    ensures buffer[next..][0..] == buffer[next..]
  {}

  const COMPACT_ABOVE := 524288

  /** The buffer loop: what is not yet consumed is buffer[position..], and what is consumed is dropped once it
      is more than half a megabyte. */
  method ReadRecords(start: string, from: nat, chunks: seq<string>, limit: nat, decode: string -> Option<nat>)
    returns (outcome: Outcome)
    requires Advances(decode) && from <= |start|
    ensures outcome == Collected(start[from..], chunks, limit, decode)
  {
    var buffer, position, unread := start, from, chunks;
    var out: seq<string> := [];
    ghost var whole, front, left := Collected(start[from..], chunks, limit, decode), start[from..], limit;
    while |out| < limit
      invariant 0 <= position <= |buffer| && front == buffer[position..] && left == limit - |out|
      invariant Owed(whole, out, front, unread, left, decode)
      decreases left, |unread|
    {
      position := SkipSeparators(buffer, position);
      ghost var s := buffer[position..];
      if position >= |buffer| || buffer[position] == ']' {
        Ends(whole, out, front, unread, left, decode, s);
        return Records(out);
      }
      var end := decode(buffer[position..]);
      if end.None? {
        var complete := Json.IsComplete(buffer, position);
        if complete {
          FailsMalformed(whole, out, front, unread, left, decode, s);
          return Failed(Malformed);
        }
        if unread == [] {
          Ends(whole, out, front, unread, left, decode, s);
          return Records(out);
        }
        Refills(whole, out, front, unread, left, decode, s);
        buffer, position := buffer[position..] + unread[0], 0;
        unread, front := unread[1..], buffer;
        assert buffer[0..] == buffer;
        continue;
      }
      if buffer[position] != '{' {
        FailsNotAnObject(whole, out, front, unread, left, decode, s);
        return Failed(NotAnObject);
      }
      PutsOut(whole, out, front, unread, left, decode, s, end.value);
      var next := position + end.value;
      Slices(buffer, position, end.value, next);
      out := out + [buffer[position..next]];
      position, front, left := next, buffer[next..], left - 1;
      if position > COMPACT_ABOVE {
        buffer, position := buffer[position..], 0;
      }
    }
    Ends(whole, out, front, unread, left, decode, Skipped(front));
    return Records(out);
  }

  /** chunks are what read() returns until the end of the file, so none of them is empty. */
  method IterRecords(chunks: seq<string>, limit: int, decode: string -> Option<nat>) returns (outcome: Outcome)
    requires Advances(decode) && "" !in chunks
    ensures outcome == Streamed(chunks, limit, decode)
  {
    if limit < 1 {
      return Failed(BadLimit);
    }
    var buffer := if chunks == [] then "" else chunks[0];
    var position := SkipSeparators(buffer, 0);
    assert buffer[0..] == buffer;
    if position >= |buffer| || buffer[position] != '[' {
      return Failed(NotAnArray);
    }
    assert buffer[position..][1..] == buffer[position + 1..];
    outcome := ReadRecords(buffer, position + 1, if chunks == [] then [] else chunks[1..], limit, decode);
  }
}
