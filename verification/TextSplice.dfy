/** The splice on the file's text (`refresh_tb.splice_node_tb_ids`): split into lines, splice,
    and join with newlines. What a second splice makes of the text. */
module TextSplice {
  import opened Base
  import opened Splice
  import Wire

  function JoinLines(lines: seq<string>): string {
    if lines == [] then [] else if |lines| == 1 then lines[0] else lines[0] + "\n" + JoinLines(lines[1..])
  }

  function Tail(text: string): string {
    if text == [] || text[|text| - 1] == '\n' then "\n" else ""
  }

  ghost function SplicedText(text: string, id: string, uuids: seq<string>, uids: seq<string>): Option<string> {
    var out := Spliced(Wire.SplitLines(text), id, uuids, uids);
    if out.None? then None else Some(JoinLines(out.value) + Tail(text))
  }

  // ----- what is written reads back as lines --------------------------------------------------

  ghost predicate AllOneLine(lines: seq<string>) {
    forall ln :: ln in lines ==> Wire.OneLine(ln)
  }

  ghost predicate ReadsBack(lines: seq<string>) {
    && lines != []
    && Wire.SplitLines(JoinLines(lines) + "\n") == lines
    && Wire.SplitLines(JoinLines(lines)) == if lines[|lines| - 1] == "" then lines[..|lines| - 1] else lines
  }

  /** Joined lines split into the same lines again, except that an empty last line without a
      newline behind it is lost. */
  lemma {:induction false} JoinedSplits(lines: seq<string>)
    requires lines != [] && AllOneLine(lines)
    ensures ReadsBack(lines)
  {
    if |lines| == 1 {
      OneLineSplits(lines);
    } else {
      JoinedSplits(lines[1..]);
      OneLineMore(lines[0], lines[1..]);
      assert lines == [lines[0]] + lines[1..];
    }
  }

  lemma OneLineMore(first: string, rest: seq<string>)
    requires ReadsBack(rest) && Wire.OneLine(first)
    ensures ReadsBack([first] + rest)
  {
    ConsSplits(first, rest);
    LastOfCons(first, rest);
  }

  lemma OneLineSplits(lines: seq<string>)
    requires |lines| == 1 && AllOneLine(lines)
    ensures Wire.SplitLines(JoinLines(lines) + "\n") == lines
    ensures Wire.SplitLines(JoinLines(lines)) == if lines[0] == "" then lines[..0] else lines
  {
    assert Wire.OneLine(lines[0]);
    LastLineSplits(lines[0]);
    assert lines == [lines[0]] && lines[..0] == [];
  }

  lemma JoinCons(first: string, rest: seq<string>)
    requires rest != []
    ensures JoinLines([first] + rest) == first + "\n" + JoinLines(rest)
  {
    assert ([first] + rest)[1..] == rest;
  }

  lemma ConsSplits(first: string, rest: seq<string>)
    requires Wire.OneLine(first) && rest != []
    ensures Wire.SplitLines(JoinLines([first] + rest)) == [first] + Wire.SplitLines(JoinLines(rest))
    ensures Wire.SplitLines(JoinLines([first] + rest) + "\n") == [first] + Wire.SplitLines(JoinLines(rest) + "\n")
  {
    JoinCons(first, rest);
    FirstLineSplits(first, JoinLines(rest));
    FirstLineSplits(first, JoinLines(rest) + "\n");
    Reassociate(first + "\n", JoinLines(rest), "\n");
  }

  lemma LastOfCons(first: string, rest: seq<string>)
    requires rest != []
    ensures ([first] + rest)[|rest|] == rest[|rest| - 1] && ([first] + rest)[..|rest|] == [first] + rest[..|rest| - 1]
  {}

  lemma FirstLineSplits(line: string, more: string)
    requires Wire.OneLine(line)
    ensures Wire.SplitLines(line + "\n" + more) == [line] + Wire.SplitLines(more)
  {
    Wire.SplitLinesCons(line, '\n', more);
  }

  lemma LastLineSplits(line: string)
    requires Wire.OneLine(line)
    ensures Wire.SplitLines(line + "\n") == [line]
    ensures Wire.SplitLines(line) == if line == "" then [] else [line]
  {
    Wire.SplitsOne(line);
    Wire.WholeLine(line);
  }

  lemma {:induction false} JoinedEnd(lines: seq<string>)
    requires lines != [] && AllOneLine(lines) && lines[|lines| - 1] != ""
    ensures JoinLines(lines) != [] && Tail(JoinLines(lines)) == ""
  {
    if |lines| == 1 {
      assert lines[0] in lines && lines[0][|lines[0]| - 1] in lines[0];
    } else {
      JoinedEnd(lines[1..]);
    }
  }

  lemma {:induction false} JoinedWithBlank(lines: seq<string>)
    requires lines != []
    ensures JoinLines(lines + [""]) == JoinLines(lines) + "\n"
  {
    if |lines| == 1 {
      assert (lines + [""])[1..] == [""];
      assert lines[0] + "\n" + "" == lines[0] + "\n";
    } else {
      JoinedWithBlank(lines[1..]);
      assert (lines + [""])[1..] == lines[1..] + [""];
      Reassociate(lines[0] + "\n", JoinLines(lines[1..]), "\n");
    }
  }

  // ----- the lines a splice writes ---------------------------------------------------------------

  ghost predicate OneLineValues(values: seq<string>) {
    AllCalm(values) && AllOneLine(values)
  }

  lemma {:induction false} EscapedIsOneLine(v: string)
    requires Wire.OneLine(v)
    ensures Wire.OneLine(Escape(v))
  {
    if v != [] {
      assert v[0] in v;
      EscapedIsOneLine(v[1..]);
    }
  }

  lemma {:induction false} ValueLinesAreOneLine(values: seq<string>)
    requires AllOneLine(values)
    ensures AllOneLine(ValueLines(values))
  {
    if values != [] {
      EscapedIsOneLine(values[0]);
      ValueLinesAreOneLine(values[1..]);
      assert Wire.OneLine("  \"") && Wire.OneLine("\",");
    }
  }

  lemma ArrayIsOneLine(key: string, values: seq<string>)
    requires Wire.OneLine(key) && AllOneLine(values)
    ensures AllOneLine(ArrayLines(key, values))
  {
    ValueLinesAreOneLine(values);
    assert Wire.OneLine(" = []") && Wire.OneLine(" = [") && Wire.OneLine("]");
    forall ln | ln in ArrayLines(key, values) ensures Wire.OneLine(ln) { ArrayLineIs(key, values, ln); }
  }

  lemma SplicedIsOneLine(lines: seq<string>, id: string, uuids: seq<string>, uids: seq<string>)
    requires AllOneLine(lines) && AllOneLine(uuids) && AllOneLine(uids) && Spliced(lines, id, uuids, uids).Some?
    ensures Spliced(lines, id, uuids, uids).value != [] && AllOneLine(Spliced(lines, id, uuids, uids).value)
  {
    var h := FirstBlock(lines, id);
    var kept := Dropped(BlockOf(lines, h), 0);
    DroppedIsClean(BlockOf(lines, h), 0);
    KeysAreOneLine();
    ArrayIsOneLine(DOMAIN_KEY, uuids);
    ArrayIsOneLine(CONTROLLER_KEY, uids);
    var out := Spliced(lines, id, uuids, uids).value;
    forall ln | ln in out ensures Wire.OneLine(ln) {
      assert ln in lines[..h] || ln in Merged(kept, id, NewIds(uuids, uids)) || ln in lines[EndOfBlock(lines, h + 1)..];
      assert ln in lines || ln in BlockOf(lines, h) || ln in ArrayLines(DOMAIN_KEY, uuids) || ln in ArrayLines(CONTROLLER_KEY, uids);
    }
  }

  lemma KeysAreOneLine()
    ensures Wire.OneLine(DOMAIN_KEY) && Wire.OneLine(CONTROLLER_KEY)
  {}

  // ----- an empty line at the end -----------------------------------------------------------------

  lemma EndWithoutBlank(lines: seq<string>, from: nat)
    requires from <= |lines|
    ensures EndOfBlock(lines, from) == if EndOfBlock(lines + [""], from) <= |lines| then EndOfBlock(lines + [""], from) else |lines|
    decreases |lines| - from
  {
    var more := lines + [""];
    if from < |lines| && !IsTable(lines[from]) {
      EndWithoutBlank(lines, from + 1);
    }
  }

  lemma SameBlocks(lines: seq<string>, id: string, k: nat)
    requires k < |lines|
    ensures IsBlock(lines + [""], id, k) <==> IsBlock(lines, id, k)
    ensures var end := EndOfBlock(lines + [""], k + 1);
            BlockOf(lines + [""], k) == if end <= |lines| then BlockOf(lines, k) else BlockOf(lines, k) + [""]
  {
    var more := lines + [""];
    EndWithoutBlank(lines, k + 1);
    var block, longer := BlockOf(lines, k), BlockOf(more, k);
    assert longer == if EndOfBlock(more, k + 1) <= |lines| then block else block + [""];
    if i :| 0 <= i < |block| && IsIdLine(block[i], id) { assert IsIdLine(longer[i], id); }
    if i :| 0 <= i < |longer| && IsIdLine(longer[i], id) { assert IsIdLine(block[i], id); }
  }

  lemma SameFirstBlock(lines: seq<string>, id: string)
    requires FirstBlock(lines + [""], id) < |lines|
    ensures FirstBlock(lines, id) == FirstBlock(lines + [""], id)
  {
    var h := FirstBlock(lines + [""], id);
    forall k | 0 <= k < |lines| ensures IsBlock(lines + [""], id, k) <==> IsBlock(lines, id, k) { SameBlocks(lines, id, k); }
    FirstBlockIs(lines, id, 0, h);
  }

  lemma HeaderIsNotBlank(lines: seq<string>, id: string)
    requires FirstBlock(lines + [""], id) < |lines| + 1
    ensures FirstBlock(lines + [""], id) < |lines|
  {
    var h := FirstBlock(lines + [""], id);
    assert IsNodesHeader((lines + [""])[h]);
    TableAtHeader((lines + [""])[h]);
  }

  lemma {:induction false} IdAtIs(kept: seq<string>, id: string, from: nat, i: nat)
    requires from <= i < |kept| && IsIdLine(kept[i], id) && forall k :: from <= k < i ==> !IsIdLine(kept[k], id)
    ensures IdAt(kept, id, from) == i
    decreases i - from
  {
    if from < i {
      IdAtIs(kept, id, from + 1, i);
    }
  }

  lemma MergedWithBlank(kept: seq<string>, id: string, new_: seq<string>)
    requires IdAt(kept + [""], id) < |kept| + 1
    ensures IdAt(kept, id) == IdAt(kept + [""], id) < |kept|
    ensures Merged(kept + [""], id, new_) == Merged(kept, id, new_) + [""]
  {
    var longer := kept + [""];
    var i := IdAt(longer, id);
    assert IsIdLine(longer[i], id) && longer[|kept|] == "";
    forall k | 0 <= k < i ensures !IsIdLine(kept[k], id) { assert longer[k] == kept[k]; }
    IdAtIs(kept, id, 0, i);
    assert longer[..i + 1] == kept[..i + 1] && longer[i + 1..] == kept[i + 1..] + [""];
  }

  /** The block a splice leaves ends in an empty line only if the kept lines do. */
  lemma BlankIsKept(block: seq<string>, kept: seq<string>, id: string, uuids: seq<string>, uids: seq<string>)
    requires IdAt(kept, id) < |kept| && block + [""] == Merged(kept, id, NewIds(uuids, uids))
    ensures kept != [] && kept[|kept| - 1] == "" && kept == kept[..|kept| - 1] + [""]
    ensures IdAt(kept[..|kept| - 1], id) < |kept| - 1
    ensures block == Merged(kept[..|kept| - 1], id, NewIds(uuids, uids))
  {
    var new_ := NewIds(uuids, uids);
    LastOfMerged(kept, id, uuids, uids);
    assert (block + [""])[|block|] == "";
    WithoutBlank(kept);
    MergedWithBlank(kept[..|kept| - 1], id, new_);
    SameFront(block, Merged(kept[..|kept| - 1], id, new_));
  }

  lemma SameFront(a: seq<string>, b: seq<string>)
    requires a + [""] == b + [""]
    ensures a == b
  {
    assert |a + [""]| == |b + [""]|;
    assert a == (a + [""])[..|a|] && b == (b + [""])[..|a|];
  }

  lemma WithoutBlank(kept: seq<string>)
    requires kept != [] && kept[|kept| - 1] == ""
    ensures kept == kept[..|kept| - 1] + [""]
  {}

  lemma LastOfMerged(kept: seq<string>, id: string, uuids: seq<string>, uids: seq<string>)
    requires IdAt(kept, id) < |kept|
    ensures var merged := Merged(kept, id, NewIds(uuids, uids));
            merged != [] && (merged[|merged| - 1] == "" ==> kept[|kept| - 1] == "")
  {
    var n, new_ := IdAt(kept, id) + 1, NewIds(uuids, uids);
    var merged := Merged(kept, id, new_);
    if n == |kept| {
      LastOfNew(uuids, uids);
      LastOfSum(kept[..n], new_, kept[n..]);
    } else {
      LastOfSum(kept[..n] + new_, kept[n..], []);
      assert kept[n..][|kept| - n - 1] == kept[|kept| - 1];
      assert kept[..n] + new_ + kept[n..] + [] == merged;
    }
  }

  lemma LastOfSum(a: seq<string>, b: seq<string>, c: seq<string>)
    requires b != [] && c == []
    ensures var s := a + b + c; s != [] && s[|s| - 1] == b[|b| - 1]
  {}

  lemma LastOfNew(uuids: seq<string>, uids: seq<string>)
    ensures NewIds(uuids, uids) != [] && NewIds(uuids, uids)[|NewIds(uuids, uids)| - 1] != ""
  {
    LastOfArray(CONTROLLER_KEY, uids);
    var a, b := ArrayLines(DOMAIN_KEY, uuids), ArrayLines(CONTROLLER_KEY, uids);
    assert (a + b)[|a + b| - 1] == b[|b| - 1];
  }

  lemma LastOfArray(key: string, values: seq<string>)
    ensures ArrayLines(key, values) != [] && ArrayLines(key, values)[|ArrayLines(key, values)| - 1] != ""
  {
    var lines := ArrayLines(key, values);
    assert lines[|lines| - 1] == (if values == [] then key + " = []" else "]");
  }

  /** A file whose block is one that a splice left. */
  ghost predicate HasSpliced(lines: seq<string>, id: string, kept: seq<string>, uuids: seq<string>, uids: seq<string>) {
    && IdAt(kept, id) < |kept| && (forall ln :: ln in kept ==> !IsIdKey(ln)) && AllCalm(uuids) && AllCalm(uids)
    && FirstBlock(lines, id) < |lines|
    && BlockOf(lines, FirstBlock(lines, id)) == Merged(kept, id, NewIds(uuids, uids))
  }

  lemma SplicedAgain(lines: seq<string>, id: string, h: nat, kept: seq<string>, uuids: seq<string>, uids: seq<string>,
                     uuids': seq<string>, uids': seq<string>)
    requires HasSpliced(lines, id, kept, uuids, uids) && h == FirstBlock(lines, id)
    ensures Spliced(lines, id, uuids', uids')
            == Some(lines[..h] + Merged(kept, id, NewIds(uuids', uids')) + lines[EndOfBlock(lines, h + 1)..])
  {
    MergedDrops(kept, id, uuids, uids);
    SplicedFrom(lines, id, uuids', uids', h, kept);
  }

  /** A later splice of a spliced file gives the same with and without an empty last line. */
  lemma BlankCommutes(lines: seq<string>, id: string, kept: seq<string>, uuids: seq<string>, uids: seq<string>,
                      uuids': seq<string>, uids': seq<string>)
    requires HasSpliced(lines + [""], id, kept, uuids, uids)
    ensures Spliced(lines, id, uuids', uids').Some?
    ensures Spliced(lines + [""], id, uuids', uids') == Some(Spliced(lines, id, uuids', uids').value + [""])
  {
    var h, last := BlocksWithoutBlank(lines, id);
    SplicedAgain(lines + [""], id, h, kept, uuids, uids, uuids', uids');
    if last {
      BlankInBlock(lines, id, h, kept, uuids, uids, uuids', uids');
    } else {
      BlankBehindBlock(lines, id, h, kept, uuids, uids, uuids', uids');
    }
  }

  /** The node's block with and without the empty line: in the same place, and the same unless
      it is the last thing in the file. */
  lemma BlocksWithoutBlank(lines: seq<string>, id: string) returns (h: nat, last: bool)
    requires FirstBlock(lines + [""], id) < |lines| + 1
    ensures h == FirstBlock(lines, id) == FirstBlock(lines + [""], id) < |lines|
    ensures last ==> EndOfBlock(lines, h + 1) == |lines| && EndOfBlock(lines + [""], h + 1) == |lines| + 1
                     && BlockOf(lines + [""], h) == BlockOf(lines, h) + [""]
    ensures !last ==> EndOfBlock(lines, h + 1) == EndOfBlock(lines + [""], h + 1) <= |lines|
                      && BlockOf(lines + [""], h) == BlockOf(lines, h)
  {
    h := FirstBlock(lines + [""], id);
    HeaderIsNotBlank(lines, id);
    SameFirstBlock(lines, id);
    SameBlocks(lines, id, h);
    EndWithoutBlank(lines, h + 1);
    last := EndOfBlock(lines + [""], h + 1) > |lines|;
  }

  lemma FrontOfMore(lines: seq<string>, h: nat)
    requires h <= |lines|
    ensures (lines + [""])[..h] == lines[..h] && (lines + [""])[h..] == lines[h..] + [""] && (lines + [""])[|lines| + 1..] == []
  {}

  lemma BlankBehindBlock(lines: seq<string>, id: string, h: nat, kept: seq<string>, uuids: seq<string>, uids: seq<string>,
                         uuids': seq<string>, uids': seq<string>)
    requires h == FirstBlock(lines, id) < |lines| && HasSpliced(lines, id, kept, uuids, uids)
    requires EndOfBlock(lines, h + 1) == EndOfBlock(lines + [""], h + 1) <= |lines|
    ensures var merged := Merged(kept, id, NewIds(uuids', uids'));
            && Spliced(lines, id, uuids', uids').Some?
            && (lines + [""])[..h] + merged + (lines + [""])[EndOfBlock(lines + [""], h + 1)..]
               == Spliced(lines, id, uuids', uids').value + [""]
  {
    var end := EndOfBlock(lines, h + 1);
    SplicedAgain(lines, id, h, kept, uuids, uids, uuids', uids');
    FrontOfMore(lines, h);
    FrontOfMore(lines, end);
    BlankBehind(lines[..h], Merged(kept, id, NewIds(uuids', uids')), lines[end..]);
  }

  lemma BlankInBlock(lines: seq<string>, id: string, h: nat, kept: seq<string>, uuids: seq<string>, uids: seq<string>,
                     uuids': seq<string>, uids': seq<string>)
    requires h == FirstBlock(lines, id) < |lines| && EndOfBlock(lines, h + 1) == |lines| == EndOfBlock(lines + [""], h + 1) - 1
    requires IdAt(kept, id) < |kept| && (forall ln :: ln in kept ==> !IsIdKey(ln)) && AllCalm(uuids) && AllCalm(uids)
    requires BlockOf(lines, h) + [""] == Merged(kept, id, NewIds(uuids, uids))
    ensures var merged := Merged(kept, id, NewIds(uuids', uids'));
            && Spliced(lines, id, uuids', uids').Some?
            && (lines + [""])[..h] + merged + (lines + [""])[EndOfBlock(lines + [""], h + 1)..]
               == Spliced(lines, id, uuids', uids').value + [""]
  {
    FrontOfMore(lines, h);
    var shorter := kept[..|kept| - 1];
    BlankIsKept(BlockOf(lines, h), kept, id, uuids, uids);
    SplicedAgain(lines, id, h, shorter, uuids, uids, uuids', uids');
    MergedWithBlank(shorter, id, NewIds(uuids', uids'));
    BlankInside(lines[..h], Merged(shorter, id, NewIds(uuids', uids')));
    assert lines[|lines|..] == [];
  }

  lemma BlankBehind(a: seq<string>, b: seq<string>, c: seq<string>)
    ensures a + b + (c + [""]) == (a + b + c) + [""]
  {}

  lemma BlankInside(a: seq<string>, b: seq<string>)
    ensures a + (b + [""]) + [] == (a + b + []) + [""]
  {}

  // ----- the laws on text ---------------------------------------------------------------------------

  /** A later splice overrides an earlier one, on the text as it is stored. */
  lemma LaterTextSpliceOverrides(text: string, id: string, uuids: seq<string>, uids: seq<string>,
                                 uuids': seq<string>, uids': seq<string>)
    requires SplicedText(text, id, uuids, uids).Some? && OneLineValues(uuids) && OneLineValues(uids)
    ensures SplicedText(SplicedText(text, id, uuids, uids).value, id, uuids', uids') == SplicedText(text, id, uuids', uids')
  {
    var lines := Wire.SplitLines(text);
    var out := Spliced(lines, id, uuids, uids).value;
    SplicedIsOneLine(lines, id, uuids, uids);
    LaterSpliceOverrides(lines, id, uuids, uids, uuids', uids');
    if Tail(text) == "\n" {
      StoredWithNewline(out);
    } else if out[|out| - 1] != "" {
      StoredWithout(out);
    } else {
      WithoutBlank(out);
      BlankEnd(lines, id, uuids, uids, uuids', uids', out[..|out| - 1]);
      StoredBlank(out[..|out| - 1]);
    }
  }

  lemma StoredWithNewline(out: seq<string>)
    requires out != [] && AllOneLine(out)
    ensures Wire.SplitLines(JoinLines(out) + "\n") == out && Tail(JoinLines(out) + "\n") == "\n"
  {
    JoinedSplits(out);
    var s := JoinLines(out) + "\n";
    assert s[|s| - 1] == '\n';
  }

  lemma StoredWithout(out: seq<string>)
    requires out != [] && AllOneLine(out) && out[|out| - 1] != ""
    ensures Wire.SplitLines(JoinLines(out) + "") == out && Tail(JoinLines(out) + "") == ""
  {
    JoinedSplits(out);
    JoinedEnd(out);
    assert JoinLines(out) + "" == JoinLines(out);
  }

  lemma StoredBlank(front: seq<string>)
    requires front != [] && AllOneLine(front + [""])
    ensures Wire.SplitLines(JoinLines(front + [""]) + "") == front && Tail(JoinLines(front + [""]) + "") == "\n"
  {
    JoinedWithBlank(front);
    forall ln | ln in front ensures Wire.OneLine(ln) { assert ln in front + [""]; }
    StoredWithNewline(front);
    assert JoinLines(front + [""]) + "" == JoinLines(front) + "\n";
  }

  lemma BlankEnd(lines: seq<string>, id: string, uuids: seq<string>, uids: seq<string>,
                 uuids': seq<string>, uids': seq<string>, front: seq<string>)
    requires Spliced(lines, id, uuids, uids) == Some(front + [""]) && AllCalm(uuids) && AllCalm(uids)
    ensures front != [] && Spliced(front, id, uuids', uids').Some? && Spliced(front, id, uuids', uids').value != []
    ensures Spliced(lines, id, uuids', uids').Some?
    ensures JoinLines(Spliced(lines, id, uuids', uids').value) + "" == JoinLines(Spliced(front, id, uuids', uids').value) + "\n"
  {
    var h, kept := AfterSplice(lines, id, uuids, uids);
    BlankCommutes(front, id, kept, uuids, uids, uuids', uids');
    LaterSpliceOverrides(lines, id, uuids, uids, uuids', uids');
    SplicedIsNotEmpty(front, id, uuids', uids');
    var out := Spliced(front, id, uuids', uids').value;
    JoinedWithBlank(out);
    NoTail(JoinLines(out + [""]));
  }

  lemma NoTail(s: string)
    ensures s + "" == s
  {}

  lemma SplicedIsNotEmpty(lines: seq<string>, id: string, uuids: seq<string>, uids: seq<string>)
    requires Spliced(lines, id, uuids, uids).Some?
    ensures lines != [] && Spliced(lines, id, uuids, uids).value != []
  {
    LastOfNew(uuids, uids);
  }

  /** Splicing the same ids again leaves the text as it is. */
  lemma TextSpliceIsIdempotent(text: string, id: string, uuids: seq<string>, uids: seq<string>)
    requires SplicedText(text, id, uuids, uids).Some? && OneLineValues(uuids) && OneLineValues(uids)
    ensures SplicedText(SplicedText(text, id, uuids, uids).value, id, uuids, uids) == SplicedText(text, id, uuids, uids)
  {
    LaterTextSpliceOverrides(text, id, uuids, uids, uuids, uids);
  }
}
