/** The bounded line reader that feeds arep's events to the rdma rung
    (`sync_rdma._read_lines`): one capped read per line, overlong lines dropped whole. */
module LineReader {
  import opened Base

  const NEWLINE: Byte := 10
  const RETURN: Byte := 13
  const MAX_LINE: nat := 0x10_0000

  // ----- reference: split the whole stream, then keep the lines that fit -----------------

  /** How many bytes the first line has, its newline included; all of them if there is none. */
  function FirstLine(s: seq<Byte>): (n: nat)
    ensures n <= |s|
    ensures s != [] ==> n > 0
    ensures NEWLINE !in s[..n] || (s[n - 1] == NEWLINE && NEWLINE !in s[..n - 1])
    ensures n < |s| ==> s[n - 1] == NEWLINE
  {
    if s == [] then 0
    else if s[0] == NEWLINE then 1
    else
      var n := FirstLine(s[1..]);
      assert s[..n + 1] == [s[0]] + s[1..][..n];
      assert n > 0 ==> s[..n] == [s[0]] + s[1..][..n - 1];
      n + 1
  }

  /** The lines of a stream, each with its newline; only the last one may lack it. */
  function Lines(s: seq<Byte>): seq<seq<Byte>>
    decreases |s|
  {
    if s == [] then [] else [s[..FirstLine(s)]] + Lines(s[FirstLine(s)..])
  }

  predicate Terminated(line: seq<Byte>) {
    line != [] && line[|line| - 1] == NEWLINE
  }

  /** One read of at most `cap` bytes returns this line whole and can tell that it did. */
  predicate Whole(line: seq<Byte>, cap: nat) {
    |line| < cap || (|line| == cap && Terminated(line))
  }

  function KeepWhole(lines: seq<seq<Byte>>, cap: nat): seq<seq<Byte>> {
    if lines == [] then []
    else (if Whole(lines[0], cap) then [Stripped(lines[0])] else []) + KeepWhole(lines[1..], cap)
  }

  /** `rstrip("\r\n")`: trailing carriage returns and newlines go. */
  function Stripped(line: seq<Byte>): seq<Byte> {
    if line != [] && (line[|line| - 1] == NEWLINE || line[|line| - 1] == RETURN)
    then Stripped(line[..|line| - 1]) else line
  }

  /** What is left of a line is its front, up to the last byte that is no line end. */
  lemma {:induction false} StrippedIs(line: seq<Byte>)
    ensures |Stripped(line)| <= |line| && line[..|Stripped(line)|] == Stripped(line)
    ensures forall i :: |Stripped(line)| <= i < |line| ==> line[i] == 10 || line[i] == 13
    ensures Stripped(line) != [] ==> line[|Stripped(line)| - 1] != 10 && line[|Stripped(line)| - 1] != 13
  {
    if line != [] && (line[|line| - 1] == NEWLINE || line[|line| - 1] == RETURN) {
      var front := line[..|line| - 1];
      StrippedIs(front);
      assert front[..|Stripped(front)|] == line[..|Stripped(front)|];
      forall i | |Stripped(line)| <= i < |line| ensures line[i] == 10 || line[i] == 13 { if i < |front| { assert front[i] == line[i]; } }
    }
  }

  // ----- the reader --------------------------------------------------------------------

  /** The stream's buffered reader: what has not been read yet. */
  class Stream {
    var rest: seq<Byte>

    constructor (bytes: seq<Byte>)
      ensures rest == bytes
    {
      rest := bytes;
    }

    /** `readline(cap)`: up to the end of the line, at most `cap` bytes. */
    method ReadLine(cap: nat) returns (raw: seq<Byte>)
      modifies this
      ensures raw + rest == old(rest)
      ensures |raw| == if FirstLine(old(rest)) <= cap then FirstLine(old(rest)) else cap
    {
      var n := FirstLine(rest);
      var k := if n <= cap then n else cap;
      raw := rest[..k];
      rest := rest[k..];
    }
  }

  /** The outer loop. The delivered lines are the reference: split, keep what fits. */
  method ReadLines(stdout: Stream, cap: nat := MAX_LINE) returns (delivered: seq<seq<Byte>>)
    requires cap > 0
    modifies stdout
    ensures delivered == KeepWhole(Lines(old(stdout.rest)), cap)
    ensures stdout.rest == []
  {
    delivered := [];
    while true
      invariant delivered + KeepWhole(Lines(stdout.rest), cap) == KeepWhole(Lines(old(stdout.rest)), cap)
      decreases |stdout.rest|
    {
      ghost var before := stdout.rest;
      var raw := stdout.ReadLine(cap);
      if raw == [] {
        return;
      }
      FirstRead(before, raw, stdout.rest, cap);
      if |raw| >= cap && raw[|raw| - 1] != NEWLINE {
        DrainLine(stdout, cap);
      } else {
        Reassociate(delivered, [Stripped(raw)], KeepWhole(Lines(stdout.rest), cap));
        delivered := delivered + [Stripped(raw)];
      }
    }
  }

  /** The inner loop: drains what is left of the current line, and not a byte more. */
  method DrainLine(stdout: Stream, cap: nat)
    requires cap > 0
    modifies stdout
    ensures stdout.rest == AfterLine(old(stdout.rest))
  {
    while true
      invariant AfterLine(stdout.rest) == AfterLine(old(stdout.rest))
      decreases |stdout.rest|
    {
      ghost var before := stdout.rest;
      var more := stdout.ReadLine(cap);
      assert stdout.rest == before[|more|..] && more == before[..|more|];
      if more == [] {
        return;
      }
      if more[|more| - 1] == NEWLINE {
        NoNewlineInside(before);
        return;
      }
      DrainStep(before, |more|);
    }
  }

  function AfterLine(s: seq<Byte>): seq<Byte> {
    s[FirstLine(s)..]
  }

  lemma NoNewlineInside(s: seq<Byte>)
    ensures forall k :: 0 <= k < FirstLine(s) - 1 ==> s[k] != NEWLINE
  {
    var n: int := FirstLine(s);
    forall k | 0 <= k < n - 1 ensures s[k] != NEWLINE {
      assert s[..n][k] == s[k] && s[..n - 1][k] == s[k];
    }
  }

  /** A read that does not end in a newline leaves the reader inside the same line. */
  lemma DrainStep(s: seq<Byte>, k: nat)
    requires 0 < k <= FirstLine(s) && s[k - 1] != NEWLINE
    ensures AfterLine(s[k..]) == AfterLine(s)
  {
    if k < FirstLine(s) {
      LineFrom(s, k);
    }
  }

  /** Reading on inside a line sees the rest of that line. */
  lemma {:induction false} LineFrom(s: seq<Byte>, at: nat)
    requires at < FirstLine(s)
    ensures FirstLine(s[at..]) == FirstLine(s) - at
  {
    if at > 0 {
      LineFrom(s[1..], at - 1);
      assert s[1..][at - 1..] == s[at..];
    }
  }

  /** What the first read of a line tells: a short read or a newline means the whole line;
      otherwise the line is too long to be delivered. */
  lemma FirstRead(before: seq<Byte>, raw: seq<Byte>, rest: seq<Byte>, cap: nat)
    requires raw != [] && raw + rest == before && cap > 0
    requires |raw| == if FirstLine(before) <= cap then FirstLine(before) else cap
    ensures |raw| >= cap && raw[|raw| - 1] != NEWLINE
            ==> KeepWhole(Lines(before), cap) == KeepWhole(Lines(AfterLine(rest)), cap) && AfterLine(rest) == AfterLine(before)
    ensures !(|raw| >= cap && raw[|raw| - 1] != NEWLINE)
            ==> KeepWhole(Lines(before), cap) == [Stripped(raw)] + KeepWhole(Lines(rest), cap)
  {
    assert raw == before[..|raw|] && rest == before[|raw|..];
    if raw[|raw| - 1] != NEWLINE {
      ReadInsideLine(before, |raw|, cap);
    } else {
      ReadToLineEnd(before, |raw|, cap);
    }
  }

  lemma OneLineMore(s: seq<Byte>, cap: nat)
    requires s != []
    ensures var first := s[..FirstLine(s)];
            KeepWhole(Lines(s), cap) == (if Whole(first, cap) then [Stripped(first)] else []) + KeepWhole(Lines(AfterLine(s)), cap)
  {
    assert Lines(s)[0] == s[..FirstLine(s)] && Lines(s)[1..] == Lines(AfterLine(s));
  }

  lemma ReadToLineEnd(s: seq<Byte>, k: nat, cap: nat)
    requires 0 < k <= cap && k <= FirstLine(s) && s[k - 1] == NEWLINE
    ensures KeepWhole(Lines(s), cap) == [Stripped(s[..k])] + KeepWhole(Lines(s[k..]), cap)
  {
    NoNewlineInside(s);
    assert k == FirstLine(s);
    OneLineMore(s, cap);
  }

  lemma ReadInsideLine(s: seq<Byte>, k: nat, cap: nat)
    requires 0 < k && s != [] && k == (if FirstLine(s) <= cap then FirstLine(s) else cap) && s[k - 1] != NEWLINE
    ensures AfterLine(s[k..]) == AfterLine(s)
    ensures k >= cap ==> KeepWhole(Lines(s), cap) == KeepWhole(Lines(AfterLine(s)), cap)
    ensures k < cap ==> KeepWhole(Lines(s), cap) == [Stripped(s[..k])] + KeepWhole(Lines(s[k..]), cap)
  {
    DrainStep(s, k);
    OneLineMore(s, cap);
    var first := s[..FirstLine(s)];
    if k >= cap && |first| == cap {
      assert first[cap - 1] == s[cap - 1];
    }
  }

  // ----- the reference is a split ----------------------------------------------------------

  /** The lines are the stream cut after every newline: nothing is lost, a newline occurs
      only at the end of a line, and only the last line may lack one. */
  lemma {:induction false} LinesPartitionTheStream(s: seq<Byte>)
    ensures Joined(Lines(s)) == s
    ensures forall i :: 0 <= i < |Lines(s)| ==> OneLine(Lines(s)[i])
    ensures forall i :: 0 <= i < |Lines(s)| - 1 ==> Terminated(Lines(s)[i])
    decreases |s|
  {
    if s != [] {
      var n := FirstLine(s);
      FirstIsOneLine(s);
      LinesPartitionTheStream(s[n..]);
      assert s == s[..n] + s[n..];
      Behind(s[..n], Lines(s[n..]));
    }
  }

  /** Not empty, and no newline before the end. */
  ghost predicate OneLine(line: seq<Byte>) {
    line != [] && NEWLINE !in line[..|line| - 1]
  }

  lemma FirstIsOneLine(s: seq<Byte>)
    requires s != []
    ensures OneLine(s[..FirstLine(s)]) && (FirstLine(s) < |s| ==> Terminated(s[..FirstLine(s)]))
    ensures FirstLine(s) == |s| ==> Lines(s[FirstLine(s)..]) == []
  {
    NoNewlineInside(s);
  }

  lemma Behind(first: seq<Byte>, rest: seq<seq<Byte>>)
    requires OneLine(first) && (rest != [] ==> Terminated(first))
    requires forall i :: 0 <= i < |rest| ==> OneLine(rest[i])
    requires forall i :: 0 <= i < |rest| - 1 ==> Terminated(rest[i])
    ensures forall i :: 0 <= i < |[first] + rest| ==> OneLine(([first] + rest)[i])
    ensures forall i :: 0 <= i < |[first] + rest| - 1 ==> Terminated(([first] + rest)[i])
  {}

  function Joined(lines: seq<seq<Byte>>): seq<Byte> {
    if lines == [] then [] else lines[0] + Joined(lines[1..])
  }

  /** A line that does not fit is dropped and takes no neighbour with it. */
  lemma {:induction false} DroppingIsLocal(a: seq<seq<Byte>>, b: seq<seq<Byte>>, cap: nat)
    ensures KeepWhole(a + b, cap) == KeepWhole(a, cap) + KeepWhole(b, cap)
  {
    if a == [] {
      assert a + b == b;
    } else {
      assert (a + b)[0] == a[0] && (a + b)[1..] == a[1..] + b;
      DroppingIsLocal(a[1..], b, cap);
      Reassociate(if Whole(a[0], cap) then [Stripped(a[0])] else [], KeepWhole(a[1..], cap), KeepWhole(b, cap));
    }
  }
}
