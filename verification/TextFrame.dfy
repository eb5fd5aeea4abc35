/** What the splice does to the text outside the node's block. The source promises to keep every
    other line byte for byte (`refresh_tb.splice_node_tb_ids`); a line ends at ten characters and
    is joined again with a newline, so the promise holds exactly for texts whose only line break
    is the newline. */
module TextFrame {
  import opened Base
  import opened Splice
  import opened TextSplice
  import Wire

  ghost predicate OnlyNewlines(s: string) {
    forall c :: c in s && Wire.LineBreak(c) ==> c == '\n'
  }

  predicate EndsWith(s: string, back: string) {
    |back| <= |s| && s[|s| - |back|..] == back
  }

  /** Every line with a newline behind it. */
  function Ended(lines: seq<string>): string {
    if lines == [] then [] else lines[0] + "\n" + Ended(lines[1..])
  }

  // ----- where the lines of a text start ----------------------------------------------------------

  /** The length of the first line together with its break. */
  function FirstLength(s: string): (n: nat)
    requires s != []
    ensures 0 < n <= |s|
  {
    var n := Wire.FirstBreak(s);
    if n == |s| then n
    else if s[n] == '\r' && n + 1 < |s| && s[n + 1] == '\n' then n + 2
    else n + 1
  }

  /** Where line number `n` starts; the end of the text when there is no such line. */
  function Start(text: string, n: nat): (k: nat)
    ensures k <= |text|
    decreases n
  {
    if n == 0 || text == [] then 0 else
      var m := FirstLength(text);
      m + Start(text[m..], n - 1)
  }

  /** A text as its first line, the break behind it, and the rest. */
  ghost predicate Opens(text: string, line: string, brk: string, rest: string) {
    && text == line + brk + rest && Wire.OneLine(line)
    && Wire.SplitLines(text) == [line] + Wire.SplitLines(rest)
    && (brk == "" ==> rest == [] && line != [])
    && (brk != "" ==> Wire.LineBreak(brk[0]) && (brk[0] == '\n' ==> brk == "\n"))
    && (brk == "" || |brk| == 1 || brk == ['\r', '\n'])
  }

  lemma Opened(text: string) returns (line: string, brk: string, rest: string)
    requires text != []
    ensures Opens(text, line, brk, rest)
    ensures |line| + |brk| == FirstLength(text) && rest == text[FirstLength(text)..]
  {
    var n, m := Wire.FirstBreak(text), FirstLength(text);
    line, brk, rest := text[..n], text[n..m], text[m..];
    Concatenated(text, n, m);
    if n == |text| {
      assert rest == [] && brk == [];
      assert [line] + [] == [line];
    } else {
      assert brk[0] == text[n];
    }
  }

  lemma Concatenated(s: string, n: nat, m: nat)
    requires n <= m <= |s|
    ensures s == s[..n] + s[n..m] + s[m..]
  {}

  // ----- splitting and joining ----------------------------------------------------------------------

  /** What comes back when a text is split into lines and joined. */
  function Rejoined(text: string): string {
    JoinLines(Wire.SplitLines(text)) + Tail(text)
  }

  lemma RejoinedOpens(text: string, line: string, brk: string, rest: string)
    requires Opens(text, line, brk, rest)
    ensures rest == [] ==> Rejoined(text) == if brk != "" && brk[|brk| - 1] == '\n' then line + "\n" else line
    ensures rest != [] ==> Rejoined(text) == line + "\n" + Rejoined(rest)
  {
    if rest == [] {
      assert [line] + [] == [line];
      assert JoinLines([line]) == line;
      LastCharacter(text, line, brk);
      NoTail(line);
    } else {
      SplitIsNotEmpty(rest);
      JoinCons(line, Wire.SplitLines(rest));
      SameTail(line + brk, rest);
      Reassociate(line + "\n", JoinLines(Wire.SplitLines(rest)), Tail(rest));
    }
  }

  lemma LastCharacter(text: string, line: string, brk: string)
    requires Opens(text, line, brk, [])
    ensures Tail(text) == if brk != "" && brk[|brk| - 1] == '\n' then "\n" else ""
  {
    NoTail(line + brk);
    if brk == "" {
      NoTail(line);
      assert text[|text| - 1] in line;
    } else {
      assert text[|text| - 1] == brk[|brk| - 1];
    }
  }

  lemma SplitIsNotEmpty(text: string)
    requires text != []
    ensures Wire.SplitLines(text) != []
  {}

  lemma SameTail(front: string, back: string)
    requires back != []
    ensures Tail(front + back) == Tail(back)
  {}

  lemma OnlyNewlinesOpens(text: string, line: string, brk: string, rest: string)
    requires Opens(text, line, brk, rest)
    ensures OnlyNewlines(text) <==> (brk == "" || brk == "\n") && OnlyNewlines(rest)
  {
    OnlyNewlinesSum(line + brk, rest);
    OnlyNewlinesSum(line, brk);
    if brk != "" && brk != "\n" {
      assert brk[0] in brk;
    }
  }

  lemma OnlyNewlinesSum(a: string, b: string)
    ensures OnlyNewlines(a + b) <==> OnlyNewlines(a) && OnlyNewlines(b)
  {
    forall c | c in a + b ensures c in a || c in b {}
    forall c | c in a || c in b ensures c in a + b {}
  }

  /** Splitting and joining gives a text back exactly when it is not empty and has no break
      other than the newline. The empty text comes back as a newline, and a break of another
      kind at the end of the text is lost. */
  lemma {:induction false} RejoinedIff(text: string)
    ensures Rejoined(text) == text <==> text != [] && OnlyNewlines(text)
    decreases |text|
  {
    if text != [] {
      var line, brk, rest := Opened(text);
      RejoinedOpens(text, line, brk, rest);
      OnlyNewlinesOpens(text, line, brk, rest);
      if rest != [] {
        RejoinedIff(rest);
        SameFirstLine(line, brk, rest, Rejoined(rest));
      } else {
        NoTail(line + brk);
        NoTail(line);
      }
    }
  }

  /** Two texts with the same first line, where the second has a newline behind it. */
  lemma SameFirstLine(line: string, brk: string, a: string, b: string)
    requires brk != "" && (brk[0] == '\n' ==> brk == "\n")
    ensures line + brk + a == line + "\n" + b <==> brk == "\n" && a == b
    ensures line + brk + a <= line + "\n" + b <==> brk == "\n" && a <= b
  {
    var s, t, n := line + brk + a, line + "\n" + b, |line|;
    assert s[n] == brk[0] && t[n] == '\n' && t[n + 1..] == b;
    if brk == "\n" {
      assert s[n + 1..] == a;
      if a <= b {
        assert b == a + b[|a|..];
        assert t == s + b[|a|..];
      }
      if s <= t {
        assert a == s[n + 1..] == t[..|s|][n + 1..] == b[..|a|];
      }
    } else {
      assert s[n] != t[n];
    }
  }

  // ----- the part before and the part behind -----------------------------------------------------------

  /** The text of the first `n` lines opens what is written from them exactly when it has no other
      break, whatever is written behind. */
  lemma {:induction false} FrontIsKeptIff(text: string, n: nat, more: string)
    requires n < |Wire.SplitLines(text)|
    ensures text[..Start(text, n)] <= Ended(Wire.SplitLines(text)[..n]) + more <==> OnlyNewlines(text[..Start(text, n)])
    ensures OnlyNewlines(text[..Start(text, n)]) ==> Ended(Wire.SplitLines(text)[..n]) == text[..Start(text, n)]
    decreases n
  {
    if n > 0 {
      var line, brk, rest := Opened(text);
      var lines, k := Wire.SplitLines(rest), Start(rest, n - 1);
      FrontIsKeptIff(rest, n - 1, more);
      assert rest != [];
      FrontOpens(text, line, brk, rest, n);
      OnlyNewlinesFront(line, brk, rest[..k]);
      SameFirstLine(line, brk, rest[..k], Ended(lines[..n - 1]) + more);
      Reassociate(line + "\n", Ended(lines[..n - 1]), more);
    }
  }

  lemma FrontOpens(text: string, line: string, brk: string, rest: string, n: nat)
    requires Opens(text, line, brk, rest) && 0 < n <= |Wire.SplitLines(text)| && text != []
    requires |line| + |brk| == FirstLength(text) && rest == text[FirstLength(text)..]
    ensures text[..Start(text, n)] == line + brk + rest[..Start(rest, n - 1)]
    ensures text[Start(text, n)..] == rest[Start(rest, n - 1)..]
    ensures Wire.SplitLines(text)[..n] == [line] + Wire.SplitLines(rest)[..n - 1]
    ensures Wire.SplitLines(text)[n..] == Wire.SplitLines(rest)[n - 1..]
    ensures Ended(Wire.SplitLines(text)[..n]) == line + "\n" + Ended(Wire.SplitLines(rest)[..n - 1])
  {
    assert Start(text, n) == |line + brk| + Start(rest, n - 1);
    var lines := Wire.SplitLines(rest);
    assert ([line] + lines)[..n] == [line] + lines[..n - 1] && ([line] + lines)[n..] == lines[n - 1..];
    assert ([line] + lines[..n - 1])[1..] == lines[..n - 1];
  }

  lemma OnlyNewlinesFront(line: string, brk: string, more: string)
    requires Wire.OneLine(line) && brk != "" && Wire.LineBreak(brk[0]) && (brk[0] == '\n' ==> brk == "\n")
    ensures OnlyNewlines(line + brk + more) <==> brk == "\n" && OnlyNewlines(more)
  {
    OnlyNewlinesSum(line + brk, more);
    OnlyNewlinesSum(line, brk);
    assert brk[0] in brk;
  }

  /** The text behind the first `n` lines consists of the other lines. */
  lemma {:induction false} BackSplits(text: string, n: nat)
    requires n <= |Wire.SplitLines(text)|
    ensures Wire.SplitLines(text[Start(text, n)..]) == Wire.SplitLines(text)[n..]
    decreases n
  {
    if n > 0 {
      var line, brk, rest := Opened(text);
      BackSplits(rest, n - 1);
      FrontOpens(text, line, brk, rest, n);
      assert Wire.SplitLines(rest[Start(rest, n - 1)..]) == Wire.SplitLines(rest)[n - 1..];
    } else {
      WholeBack(text, Wire.SplitLines(text));
    }
  }

  lemma WholeBack(text: string, lines: seq<string>)
    ensures text[0..] == text && lines[0..] == lines
  {}

  /** The text of `n` lines from line `a` on. */
  function RunOf(text: string, a: nat, n: nat): string {
    text[Start(text, a)..][..Start(text[Start(text, a)..], n)]
  }

  /** Any run of lines but the last, inside the block too: written with a newline behind each, it
      is its text exactly when that has no other break. */
  lemma RunIsKeptIff(text: string, a: nat, n: nat)
    requires a + n < |Wire.SplitLines(text)|
    ensures Ended(Wire.SplitLines(text)[a..a + n]) == RunOf(text, a, n) <==> OnlyNewlines(RunOf(text, a, n))
  {
    BackSplits(text, a);
    SliceOfLines(Wire.SplitLines(text), a, n);
    FirstRunIsKeptIff(text[Start(text, a)..], Wire.SplitLines(text)[a..], n);
  }

  lemma FirstRunIsKeptIff(text: string, lines: seq<string>, n: nat)
    requires Wire.SplitLines(text) == lines && n < |lines|
    ensures Ended(lines[..n]) == text[..Start(text, n)] <==> OnlyNewlines(text[..Start(text, n)])
  {
    FrontIsKeptIff(text, n, []);
    NoTail(Ended(lines[..n]));
  }

  lemma SliceOfLines(lines: seq<string>, a: nat, n: nat)
    requires a + n <= |lines|
    ensures lines[a..][..n] == lines[a..a + n]
  {}

  function Newlines(s: string): nat { multiset(s)['\n'] }

  lemma NewlinesSum(a: string, b: string)
    ensures Newlines(a + b) == Newlines(a) + Newlines(b)
  {}

  /** Joining never makes fewer newlines than there were, and no break but newlines. */
  lemma {:induction false} RejoinedBreaks(text: string)
    requires text != []
    ensures Newlines(text) <= Newlines(Rejoined(text)) && OnlyNewlines(Rejoined(text))
    decreases |text|
  {
    var line, brk, rest := Opened(text);
    RejoinedOpens(text, line, brk, rest);
    NewlinesSum(line + brk, rest);
    FirstBreaks(line, brk);
    if rest != [] {
      RejoinedBreaks(rest);
      NewlinesSum(line + "\n", Rejoined(rest));
      OnlyNewlinesSum(line + "\n", Rejoined(rest));
    }
  }

  lemma FirstBreaks(line: string, brk: string)
    requires Wire.OneLine(line) && (brk == "" || |brk| == 1 || brk == ['\r', '\n'])
    ensures OnlyNewlines(line) && OnlyNewlines(line + "\n")
    ensures Newlines(line + brk) <= Newlines(line + "\n")
    ensures brk == "" || brk[|brk| - 1] != '\n' ==> Newlines(line + brk) <= Newlines(line)
  {
    NewlinesSum(line, brk);
    NewlinesSum(line, "\n");
    OnlyNewlinesSum(line, "\n");
  }

  /** A text closes what is written from it exactly when it has no other break, whatever is
      written before, as long as that ends in a newline. */
  lemma BackIsKeptIff(before: string, text: string)
    requires text != []
    ensures EndsWith(before + "\n" + Rejoined(text), text) <==> OnlyNewlines(text)
  {
    var joined := Rejoined(text);
    RejoinedIff(text);
    RejoinedBreaks(text);
    EndsBehind(before + "\n", joined);
    Reassociate(before, "\n", joined);
    if EndsWith(before + "\n" + joined, text) {
      if |text| <= |joined| + 1 {
        Reaches(before, "\n" + joined, text);
        OnlyNewlinesSum("\n", joined);
      } else {
        Exceeds(before, "\n" + joined, text);
        NewlinesSum("\n", joined);
      }
    }
  }

  lemma EndsBehind(front: string, back: string)
    ensures EndsWith(front + back, back)
  {
    assert (front + back)[|front|..] == back;
  }

  lemma Reaches(before: string, joined: string, text: string)
    requires |text| <= |joined|
    requires EndsWith(before + joined, text)
    ensures forall c :: c in text ==> c in joined
  {
    assert text == joined[|joined| - |text|..];
  }

  lemma Exceeds(before: string, joined: string, text: string)
    requires |joined| <= |text| && EndsWith(before + joined, text)
    ensures Newlines(joined) <= Newlines(text)
  {
    var s, n := before + joined, |text| - |joined|;
    assert text[n..] == s[|s| - |joined|..] == joined;
    assert text == text[..n] + joined;
    NewlinesSum(text[..n], joined);
  }

  // ----- the text a splice writes --------------------------------------------------------------------

  lemma {:induction false} JoinSum(a: seq<string>, b: seq<string>)
    requires b != []
    ensures JoinLines(a + b) == Ended(a) + JoinLines(b)
  {
    if a == [] {
      assert a + b == b;
    } else {
      JoinSum(a[1..], b);
      JoinMore(a[0], a[1..], b);
      assert a == [a[0]] + a[1..];
    }
  }

  lemma JoinMore(first: string, rest: seq<string>, b: seq<string>)
    requires b != [] && JoinLines(rest + b) == Ended(rest) + JoinLines(b)
    ensures JoinLines([first] + rest + b) == Ended([first] + rest) + JoinLines(b)
  {
    assert [first] + rest + b == [first] + (rest + b);
    JoinCons(first, rest + b);
    EndedCons([first] + rest);
    assert ([first] + rest)[1..] == rest;
    Reassociate(first + "\n", Ended(rest), JoinLines(b));
  }

  lemma EndedCons(lines: seq<string>)
    requires lines != []
    ensures Ended(lines) == lines[0] + "\n" + Ended(lines[1..])
  {}

  lemma {:induction false} EndedIsJoined(lines: seq<string>)
    requires lines != []
    ensures Ended(lines) == JoinLines(lines) + "\n"
  {
    if |lines| > 1 {
      EndedIsJoined(lines[1..]);
      Reassociate(lines[0] + "\n", JoinLines(lines[1..]), "\n");
    } else {
      NoTail(lines[0] + "\n");
    }
  }

  /** Where the node's block begins and ends in the text. */
  ghost function BlockStart(text: string, id: string): nat {
    Start(text, FirstBlock(Wire.SplitLines(text), id))
  }

  ghost function BlockEnd(text: string, id: string): nat
    requires FirstBlock(Wire.SplitLines(text), id) < |Wire.SplitLines(text)|
  {
    Start(text, EndOfBlock(Wire.SplitLines(text), FirstBlock(Wire.SplitLines(text), id) + 1))
  }

  /** The lines written in place of the block. */
  ghost function NewBlock(text: string, id: string, uuids: seq<string>, uids: seq<string>): seq<string>
    requires SplicedText(text, id, uuids, uids).Some?
  {
    var lines := Wire.SplitLines(text);
    Merged(Dropped(BlockOf(lines, FirstBlock(lines, id)), 0), id, NewIds(uuids, uids))
  }

  /** The new text. When the block runs to the end of the file, its last line gets a newline
      only if the file ended with one. */
  lemma SplicedTextIs(text: string, id: string, uuids: seq<string>, uids: seq<string>)
    requires SplicedText(text, id, uuids, uids).Some?
    ensures var lines, out := Wire.SplitLines(text), SplicedText(text, id, uuids, uids).value;
            var front, back := Ended(lines[..FirstBlock(lines, id)]), text[BlockEnd(text, id)..];
            var block := NewBlock(text, id, uuids, uids);
            && block != []
            && out == if back == [] then front + JoinLines(block) + Tail(text) else front + Ended(block) + Rejoined(back)
  {
    var lines := Wire.SplitLines(text);
    var h := FirstBlock(lines, id);
    var e := EndOfBlock(lines, h + 1);
    var block := NewBlock(text, id, uuids, uids);
    LastOfMerged(Dropped(BlockOf(lines, h), 0), id, uuids, uids);
    BackOfText(text, e);
    JoinThree(lines[..h], block, lines[e..], Tail(text));
  }

  lemma BackOfText(text: string, e: nat)
    requires e <= |Wire.SplitLines(text)|
    ensures var back, lines := text[Start(text, e)..], Wire.SplitLines(text)[e..];
            (back == [] <==> lines == []) && (back != [] ==> Rejoined(back) == JoinLines(lines) + Tail(text))
  {
    BackSplits(text, e);
    EmptySplit(text[Start(text, e)..], Wire.SplitLines(text)[e..]);
    TailOfBack(text, Start(text, e));
  }

  lemma EmptySplit(text: string, lines: seq<string>)
    requires Wire.SplitLines(text) == lines
    ensures text == [] <==> lines == []
  {}

  lemma TailOfBack(text: string, k: nat)
    requires k <= |text|
    ensures text[k..] != [] ==> Tail(text[k..]) == Tail(text)
  {}

  lemma JoinThree(front: seq<string>, block: seq<string>, back: seq<string>, tail: string)
    requires block != []
    ensures var out := JoinLines(front + block + back) + tail;
            out == if back == [] then Ended(front) + JoinLines(block) + tail
                   else Ended(front) + Ended(block) + (JoinLines(back) + tail)
  {
    if back == [] {
      assert front + block + back == front + block;
      JoinSum(front, block);
    } else {
      assert front + block + back == front + (block + back);
      JoinSum(front, block + back);
      JoinSum(block, back);
      Reassociate(Ended(front), Ended(block), JoinLines(back));
      Reassociate(Ended(front) + Ended(block), JoinLines(back), tail);
    }
  }

  /** The frame of the splice on text: what stands before the block opens the new text if and only
      if it has no break but newlines, and what stands behind the block closes it if and only if
      it has none. */
  lemma TextFrameIff(text: string, id: string, uuids: seq<string>, uids: seq<string>)
    requires SplicedText(text, id, uuids, uids).Some?
    ensures var out := SplicedText(text, id, uuids, uids).value;
            var front, back := text[..BlockStart(text, id)], text[BlockEnd(text, id)..];
            && (front <= out <==> OnlyNewlines(front))
            && (EndsWith(out, back) <==> OnlyNewlines(back))
  {
    var lines, out := Wire.SplitLines(text), SplicedText(text, id, uuids, uids).value;
    var h := FirstBlock(lines, id);
    var front, back := Ended(lines[..h]), text[BlockEnd(text, id)..];
    var block := NewBlock(text, id, uuids, uids);
    SplicedTextIs(text, id, uuids, uids);
    if back == [] {
      Reassociate(front, JoinLines(block), Tail(text));
      FrontIsKeptIff(text, h, JoinLines(block) + Tail(text));
    } else {
      Reassociate(front, Ended(block), Rejoined(back));
      FrontIsKeptIff(text, h, Ended(block) + Rejoined(back));
      EndedIsJoined(block);
      Reassociate(front, JoinLines(block), "\n");
      BackIsKeptIff(front + JoinLines(block), back);
    }
  }

  /** The text between them, when both are kept. */
  lemma FramedText(text: string, id: string, uuids: seq<string>, uids: seq<string>)
    requires SplicedText(text, id, uuids, uids).Some?
    requires OnlyNewlines(text[..BlockStart(text, id)]) && OnlyNewlines(text[BlockEnd(text, id)..])
    ensures var back, block := text[BlockEnd(text, id)..], NewBlock(text, id, uuids, uids);
            SplicedText(text, id, uuids, uids).value
            == text[..BlockStart(text, id)] + (if back == [] then JoinLines(block) + Tail(text) else Ended(block)) + back
  {
    var lines := Wire.SplitLines(text);
    var back, block := text[BlockEnd(text, id)..], NewBlock(text, id, uuids, uids);
    SplicedTextIs(text, id, uuids, uids);
    FrontIsKeptIff(text, FirstBlock(lines, id), []);
    if back == [] {
      Reassociate(text[..BlockStart(text, id)], JoinLines(block), Tail(text));
      NoTail(text[..BlockStart(text, id)] + (JoinLines(block) + Tail(text)));
    } else {
      RejoinedIff(back);
    }
  }

  /** `splice_node_tb_ids`: the spliced text, or nothing without a block for the node; and what
      becomes of the text outside the block. */
  method SpliceText(text: string, id: string, uuids: seq<string>, uids: seq<string>) returns (out: Option<string>)
    ensures out == SplicedText(text, id, uuids, uids)
    ensures out.Some? ==>
              var front, back := text[..BlockStart(text, id)], text[BlockEnd(text, id)..];
              && (front <= out.value <==> OnlyNewlines(front))
              && (EndsWith(out.value, back) <==> OnlyNewlines(back))
  {
    var lines := SpliceNodeTbIds(Wire.SplitLines(text), id, uuids, uids);
    if lines.None? {
      return None;
    }
    out := Some(JoinLines(lines.value) + Tail(text));
    TextFrameIff(text, id, uuids, uids);
  }

  /** A file is its lines, each with a newline behind it, exactly when it has no other break and
      ends in one. Such a file stays one, and its lines are the spliced ones. */
  lemma LinesAreLiteralIff(text: string, id: string, uuids: seq<string>, uids: seq<string>)
    requires SplicedText(text, id, uuids, uids).Some?
    ensures text == Ended(Wire.SplitLines(text)) <==> OnlyNewlines(text) && Tail(text) == "\n"
    ensures Tail(text) == "\n"
        ==> SplicedText(text, id, uuids, uids).value == Ended(Spliced(Wire.SplitLines(text), id, uuids, uids).value)
  {
    var lines := Wire.SplitLines(text);
    SplicedIsNotEmpty(lines, id, uuids, uids);
    EndedIsJoined(lines);
    EndedIsJoined(Spliced(lines, id, uuids, uids).value);
    RejoinedIff(text);
    var joined := JoinLines(lines) + "\n";
    assert joined[|joined| - 1] == '\n';
  }

  // ----- what becomes of a comment ------------------------------------------------------------------------

  /** Whatever break stands between two lines before the block, a newline stands there afterwards:
      the second becomes a line of its own, though for TOML it may have been part of the first. */
  lemma CutLineIsSplit(c: string, sep: char, d: string, rest: string, id: string, uuids: seq<string>, uids: seq<string>)
    requires Wire.OneLine(c) && Wire.OneLine(d) && !IsTable(c) && !IsTable(d) && Wire.LineBreak(sep) && sep != '\r'
    requires SplicedText(c + [sep] + (d + ['\n'] + rest), id, uuids, uids).Some?
    ensures c + "\n" + (d + "\n") <= SplicedText(c + [sep] + (d + ['\n'] + rest), id, uuids, uids).value
  {
    TwoLinesFirst(c, sep, d, rest);
    LinesOpen(c + [sep] + (d + ['\n'] + rest), c, d, Wire.SplitLines(rest), id, uuids, uids);
  }

  lemma LinesOpen(text: string, c: string, d: string, more: seq<string>, id: string, uuids: seq<string>, uids: seq<string>)
    requires SplicedText(text, id, uuids, uids).Some?
    requires Wire.SplitLines(text) == [c] + ([d] + more) && !IsTable(c) && !IsTable(d)
    ensures c + "\n" + (d + "\n") <= SplicedText(text, id, uuids, uids).value
  {
    var rest := FrontComesFirst(text, id, uuids, uids);
    TwoFirst(c, d, more);
    FrontOpensWith(Wire.SplitLines(text), c, d, id);
    PrefixOfMore(c + "\n" + (d + "\n"), Ended(Wire.SplitLines(text)[..FirstBlock(Wire.SplitLines(text), id)]), rest);
  }

  lemma FrontComesFirst(text: string, id: string, uuids: seq<string>, uids: seq<string>) returns (rest: string)
    requires SplicedText(text, id, uuids, uids).Some?
    ensures FirstBlock(Wire.SplitLines(text), id) < |Wire.SplitLines(text)|
    ensures SplicedText(text, id, uuids, uids).value == Ended(Wire.SplitLines(text)[..FirstBlock(Wire.SplitLines(text), id)]) + rest
  {
    SplicedTextIs(text, id, uuids, uids);
    var front := Ended(Wire.SplitLines(text)[..FirstBlock(Wire.SplitLines(text), id)]);
    var back, block := text[BlockEnd(text, id)..], NewBlock(text, id, uuids, uids);
    if back == [] {
      rest := JoinLines(block) + Tail(text);
      Reassociate(front, JoinLines(block), Tail(text));
    } else {
      rest := Ended(block) + Rejoined(back);
      Reassociate(front, Ended(block), Rejoined(back));
    }
  }

  lemma TwoFirst(c: string, d: string, more: seq<string>)
    ensures var lines := [c] + ([d] + more); |lines| >= 2 && lines[0] == c && lines[1] == d
  {}

  lemma PrefixOfMore(a: string, b: string, c: string)
    requires a <= b
    ensures a <= b + c
  {}

  lemma FrontOpensWith(lines: seq<string>, c: string, d: string, id: string)
    requires |lines| >= 2 && lines[0] == c && lines[1] == d && !IsTable(c) && !IsTable(d) && FirstBlock(lines, id) < |lines|
    ensures c + "\n" + (d + "\n") <= Ended(lines[..FirstBlock(lines, id)])
  {
    HeaderIsBehind(lines, id);
    EndedOpens(lines[..FirstBlock(lines, id)]);
  }

  lemma TwoLinesFirst(c: string, sep: char, d: string, rest: string)
    requires Wire.OneLine(c) && Wire.OneLine(d) && Wire.LineBreak(sep) && sep != '\r'
    ensures Wire.SplitLines(c + [sep] + (d + ['\n'] + rest)) == [c] + ([d] + Wire.SplitLines(rest))
  {
    Wire.SplitLinesCons(c, sep, d + ['\n'] + rest);
    Wire.SplitLinesCons(d, '\n', rest);
  }

  lemma HeaderIsBehind(lines: seq<string>, id: string)
    requires FirstBlock(lines, id) < |lines| && |lines| >= 2 && !IsTable(lines[0]) && !IsTable(lines[1])
    ensures FirstBlock(lines, id) >= 2
  {
    TableAtHeader(lines[FirstBlock(lines, id)]);
  }

  lemma EndedOpens(lines: seq<string>)
    requires |lines| >= 2
    ensures lines[0] + "\n" + (lines[1] + "\n") <= Ended(lines)
  {
    assert lines[1..][0] == lines[1];
    Reassociate(lines[0] + "\n", lines[1] + "\n", Ended(lines[1..][1..]));
  }

  /** A comment in front of the smallest block, cut by some break. */
  lemma CommentIsCut(c: string, sep: char, d: string, header: string, idLine: string, id: string,
                     uuids: seq<string>, uids: seq<string>)
    requires Wire.OneLine(c) && Wire.OneLine(d) && !IsTable(c) && !IsTable(d) && Wire.LineBreak(sep) && sep != '\r'
    requires SmallBlock(header, idLine, id)
    ensures SplicedText(c + [sep] + (d + ['\n'] + (header + ['\n'] + (idLine + ['\n'] + []))), id, uuids, uids)
         == Some(Ended([c, d] + [header, idLine] + NewIds(uuids, uids)))
  {
    var rest := header + ['\n'] + (idLine + ['\n'] + []);
    var text := c + [sep] + (d + ['\n'] + rest);
    TwoLinesFirst(c, sep, d, rest);
    TwoLinesFirst(header, '\n', idLine, []);
    FourLines(c, d, header, idLine);
    SmallSplice(c, d, header, idLine, id, uuids, uids);
    assert text[|text| - 1] == '\n';
    LinesAreLiteralIff(text, id, uuids, uids);
  }

  lemma FourLines(c: string, d: string, header: string, idLine: string)
    ensures [c] + ([d] + ([header] + ([idLine] + []))) == [c, d, header, idLine]
  {}

  ghost predicate SmallBlock(header: string, idLine: string, id: string) {
    && Wire.OneLine(header) && IsNodesHeader(header) && !IsIdKey(header) && !IsIdLine(header, id)
    && Wire.OneLine(idLine) && IsIdLine(idLine, id) && !IsIdKey(idLine) && !IsTable(idLine)
  }

  lemma SmallSplice(c: string, d: string, header: string, idLine: string, id: string, uuids: seq<string>, uids: seq<string>)
    requires !IsTable(c) && !IsTable(d) && SmallBlock(header, idLine, id)
    ensures Spliced([c, d, header, idLine], id, uuids, uids) == Some([c, d] + [header, idLine] + NewIds(uuids, uids))
  {
    var lines, block := [c, d, header, idLine], [header, idLine];
    EndIs(lines, 3, 4);
    assert lines[2..4] == block && block[1] == idLine;
    SmallIsFirst(lines, id);
    DropsNothing(header, idLine);
    IdAtIs(block, id, 0, 1);
    SplicedFrom(lines, id, uuids, uids, 2, block);
    SmallParts(c, d, header, idLine, NewIds(uuids, uids));
  }

  lemma SmallIsFirst(lines: seq<string>, id: string)
    requires |lines| == 4 && !IsTable(lines[0]) && !IsTable(lines[1]) && IsBlock(lines, id, 2)
    ensures FirstBlock(lines, id) == 2
  {
    forall k | 0 <= k < 2 ensures !IsBlock(lines, id, k) {
      if IsBlock(lines, id, k) {
        TableAtHeader(lines[k]);
      }
    }
    FirstBlockIs(lines, id, 0, 2);
  }

  lemma DropsNothing(header: string, idLine: string)
    requires !IsIdKey(header) && !IsIdKey(idLine)
    ensures Dropped([header, idLine], 0) == [header, idLine]
  {
    CleanStays([header, idLine]);
  }

  lemma SmallParts(c: string, d: string, header: string, idLine: string, ids: seq<string>)
    ensures var lines, block := [c, d, header, idLine], [header, idLine];
            lines[..2] + (block[..2] + ids + block[2..]) + lines[4..] == [c, d] + block + ids
  {}

  /** An assignment that was commented out is live afterwards: TOML ends a line at a newline and
      allows U+2028 in comments, and the splice ends the comment there. */
  lemma CommentBecomesLive(c: string, d: string, header: string, idLine: string, id: string,
                           uuids: seq<string>, uids: seq<string>)
    requires c == ['#', ' ', 'a'] && d == ['b', ' ', '=', ' ', '1'] && id == ['m']
    requires header == ['[', '[', 'n', 'o', 'd', 'e', 's', ']', ']'] && idLine == ['i', 'd', '=', '"', 'm', '"']
    ensures var text := c + ['\U{2028}'] + (d + ['\n'] + (header + ['\n'] + (idLine + ['\n'] + [])));
            SplicedText(text, id, uuids, uids) == Some(Ended([c, d] + [header, idLine] + NewIds(uuids, uids)))
    ensures KeyOf(c + ['\U{2028}'] + d).None? && KeyOf(d) == Some(['b'])
  {
    HeaderIs(header, id);
    IdLineIs(idLine, id);
    PlainLine(c);
    PlainLine(d);
    CommentIsCut(c, '\U{2028}', d, header, idLine, id, uuids, uids);
    AssignsB(d);
    HasNoKey(c + ['\U{2028}'] + d);
  }

  lemma PlainLine(line: string)
    requires line == ['#', ' ', 'a'] || line == ['b', ' ', '=', ' ', '1']
    ensures Wire.OneLine(line) && !IsTable(line)
  {
    assert SkipSpace(line) == line;
  }

  lemma HasNoKey(line: string)
    requires line != [] && line[0] == '#'
    ensures KeyOf(line).None?
  {}

  lemma AssignsB(d: string)
    requires d == ['b', ' ', '=', ' ', '1']
    ensures KeyOf(d) == Some(['b'])
  {
    AssignmentKey(['b'], d[1..]);
    assert ['b'] + d[1..] == d;
  }

  lemma HeaderIs(header: string, id: string)
    requires header == ['[', '[', 'n', 'o', 'd', 'e', 's', ']', ']']
    ensures Wire.OneLine(header) && IsNodesHeader(header) && !IsIdKey(header) && !IsIdLine(header, id)
  {
    assert header == "[[nodes]]" && SkipSpace(header) == header && header[9..] == [];
    assert WordLength(header) == 0;
  }

  lemma IdLineIs(idLine: string, id: string)
    requires idLine == ['i', 'd', '=', '"', 'm', '"'] && id == ['m']
    ensures Wire.OneLine(idLine) && IsIdLine(idLine, id) && !IsIdKey(idLine) && !IsTable(idLine)
  {
    assert SkipSpace(idLine) == idLine && "id" <= idLine;
    IdLineQuoted(idLine[4..]);
    assert idLine[2..][0] == '=' && idLine[2..][1..] == idLine[3..] && idLine[3..][1..] == idLine[4..];
    assert SkipSpace(idLine[2..]) == idLine[2..] && SkipSpace(idLine[3..]) == idLine[3..];
    KeyWord(idLine[..2], idLine[2..]);
    assert idLine[..2] + idLine[2..] == idLine;
    assert KeyOf(idLine) == Some(idLine[..2]);
  }

  lemma IdLineQuoted(s: string)
    requires s == ['m', '"']
    ensures ScanQuoted(s) == Some((['m'], []))
  {
    assert s[1..] == ['"'] && s[1..][0] == '"' && s[1..][1..] == [];
    assert ScanQuoted(s[1..]) == Some(([], []));
    assert s[..1] + [] == ['m'];
  }
}
