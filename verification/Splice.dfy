/** The text splice of `config refresh-tb --apply` (`mapping/refresh_tb.py`): replace the two
    `tb_*` arrays of one `[[nodes]]` block of cluster.toml and keep every other line. */
module Splice {
  import opened Base

  const DOMAIN_KEY := "tb_domain_uuids"
  const CONTROLLER_KEY := "tb_controller_uids"

  // ----- what the regular expressions see in a line (ASCII classes) -----------------------

  predicate WordChar(c: char) { 'a' <= c <= 'z' || 'A' <= c <= 'Z' || '0' <= c <= '9' || c == '_' }

  function SkipSpace(s: string): string {
    if s != [] && Space(s[0]) then SkipSpace(s[1..]) else s
  }

  predicate EndsOrComment(s: string) {
    var t := SkipSpace(s);
    t == [] || t[0] == '#'
  }

  /** Any table header starts with a bracket. */
  predicate IsTable(line: string) {
    var t := SkipSpace(line);
    t != [] && t[0] == '['
  }

  predicate IsNodesHeader(line: string) {
    var t := SkipSpace(line);
    "[[nodes]]" <= t && EndsOrComment(t[9..])
  }

  function WordLength(s: string): (n: nat)
    ensures n <= |s|
  {
    if s != [] && WordChar(s[0]) then 1 + WordLength(s[1..]) else 0
  }

  /** The key of an assignment line. */
  function KeyOf(line: string): Option<string> {
    var t := SkipSpace(line);
    var n := WordLength(t);
    var u := SkipSpace(t[n..]);
    if n > 0 && u != [] && u[0] == '=' then Some(t[..n]) else None
  }

  predicate IsIdKey(line: string) {
    KeyOf(line) == Some(DOMAIN_KEY) || KeyOf(line) == Some(CONTROLLER_KEY)
  }

  /** Reads a quoted string behind its opening quote: the raw content and what follows. */
  function ScanQuoted(s: string): Option<(string, string)> {
    if s == [] then None
    else if s[0] == '"' then Some(([], s[1..]))
    else
      var n := if s[0] == '\\' then 2 else 1;
      if |s| < n then None
      else
        var rest := ScanQuoted(s[n..]);
        if rest.None? then None else Some((s[..n] + rest.value.0, rest.value.1))
  }

  predicate IsIdLine(line: string, id: string) {
    var t := SkipSpace(line);
    "id" <= t && var u := SkipSpace(t[2..]);
    u != [] && u[0] == '=' && var v := SkipSpace(u[1..]);
    v != [] && v[0] == '"' && var q := ScanQuoted(v[1..]);
    q.Some? && q.value.0 == id && EndsOrComment(q.value.1)
  }

  /** Opening minus closing brackets. */
  function Net(line: string): int {
    if line == [] then 0
    else (if line[0] == '[' then 1 else if line[0] == ']' then -1 else 0) + Net(line[1..])
  }

  // ----- the splice ----------------------------------------------------------------------

  function EndOfBlock(lines: seq<string>, from: nat): (end: nat)
    requires from <= |lines|
    ensures from <= end <= |lines|
    ensures forall j :: from <= j < end ==> !IsTable(lines[j])
    ensures end < |lines| ==> IsTable(lines[end])
    decreases |lines| - from
  {
    if from == |lines| || IsTable(lines[from]) then from else EndOfBlock(lines, from + 1)
  }

  predicate HasId(lines: seq<string>, id: string) {
    exists i :: 0 <= i < |lines| && IsIdLine(lines[i], id)
  }

  /** A `[[nodes]]` header at `h` and an id line before the next table. */
  predicate IsBlock(lines: seq<string>, id: string, h: nat)
    requires h < |lines|
  {
    IsNodesHeader(lines[h]) && HasId(lines[h..EndOfBlock(lines, h + 1)], id)
  }

  /** The first block of the node, as `_node_block` finds it. */
  method NodeBlock(lines: seq<string>, id: string) returns (block: Option<(nat, nat)>)
    ensures block.Some? ==> block.value.0 < |lines| && IsBlock(lines, id, block.value.0)
                            && block.value.1 == EndOfBlock(lines, block.value.0 + 1)
    ensures block.Some? ==> forall h :: 0 <= h < block.value.0 ==> !IsBlock(lines, id, h)
    ensures block.None? ==> forall h :: 0 <= h < |lines| ==> !IsBlock(lines, id, h)
  {
    for h := 0 to |lines|
      invariant forall k :: 0 <= k < h ==> !IsBlock(lines, id, k)
    {
      if IsNodesHeader(lines[h]) {
        var end := |lines|;
        var j := h + 1;
        while j < |lines|
          invariant h + 1 <= j <= |lines| == end
          invariant EndOfBlock(lines, h + 1) == EndOfBlock(lines, j)
        {
          if IsTable(lines[j]) {
            end := j;
            break;
          }
          j := j + 1;
        }
        assert end == EndOfBlock(lines, h + 1);
        if exists i :: 0 <= i < |lines[h..end]| && IsIdLine(lines[h..end][i], id) {
          return Some((h, end));
        }
      }
    }
    block := None;
  }

  ghost function FirstBlock(lines: seq<string>, id: string, from: nat := 0): (h: nat)
    requires from <= |lines|
    ensures from <= h <= |lines| && (forall k :: from <= k < h ==> !IsBlock(lines, id, k))
    ensures h < |lines| ==> IsBlock(lines, id, h)
    decreases |lines| - from
  {
    if from == |lines| || IsBlock(lines, id, from) then from else FirstBlock(lines, id, from + 1)
  }

  /** The lines left when `tb_*` assignments go, with their continuation lines while a bracket
      is open. */
  ghost function Dropped(block: seq<string>, depth: int): seq<string> {
    if block == [] then []
    else if depth > 0 then Dropped(block[1..], depth + Net(block[0]))
    else if IsIdKey(block[0]) then Dropped(block[1..], Net(block[0]))
    else [block[0]] + Dropped(block[1..], depth)
  }

  method DropIdArrays(block: seq<string>) returns (out: seq<string>)
    ensures out == Dropped(block, 0)
  {
    out := [];
    var depth := 0;
    for i := 0 to |block|
      invariant out + Dropped(block[i..], depth) == Dropped(block, 0)
    {
      assert block[i..][1..] == block[i + 1..];
      var ln := block[i];
      if depth > 0 {
        depth := depth + Net(ln);
        continue;
      }
      if IsIdKey(ln) {
        depth := Net(ln);
        continue;
      }
      out := out + [ln];
    }
  }

  function EscapedChar(c: char): string {
    if c == '\\' || c == '"' then ['\\', c] else [c]
  }

  function Escape(v: string): string {
    if v == [] then [] else EscapedChar(v[0]) + Escape(v[1..])
  }

  function ValueLine(v: string): string {
    "  \"" + Escape(v) + "\","
  }

  function ValueLines(values: seq<string>): seq<string> {
    if values == [] then [] else [ValueLine(values[0])] + ValueLines(values[1..])
  }

  /** `_array`. */
  function ArrayLines(key: string, values: seq<string>): seq<string> {
    if values == [] then [key + " = []"] else [key + " = ["] + ValueLines(values) + ["]"]
  }

  function NewIds(uuids: seq<string>, uids: seq<string>): seq<string> {
    ArrayLines(DOMAIN_KEY, uuids) + ArrayLines(CONTROLLER_KEY, uids)
  }

  ghost function IdAt(kept: seq<string>, id: string, from: nat := 0): (i: nat)
    requires from <= |kept|
    ensures from <= i <= |kept| && (forall k :: from <= k < i ==> !IsIdLine(kept[k], id))
    ensures i < |kept| ==> IsIdLine(kept[i], id)
    decreases |kept| - from
  {
    if from == |kept| || IsIdLine(kept[from], id) then from else IdAt(kept, id, from + 1)
  }

  /** The spliced block: the kept lines with the new arrays right behind the id line. */
  ghost function Merged(kept: seq<string>, id: string, new_: seq<string>): seq<string>
    requires IdAt(kept, id) < |kept|
  {
    kept[..IdAt(kept, id) + 1] + new_ + kept[IdAt(kept, id) + 1..]
  }

  ghost function BlockOf(lines: seq<string>, h: nat): seq<string>
    requires h < |lines|
  {
    lines[h..EndOfBlock(lines, h + 1)]
  }

  /** What a splice makes of a file: nothing when there is no block for the node, or when
      dropping the arrays loses the id line itself. */
  ghost function Spliced(lines: seq<string>, id: string, uuids: seq<string>, uids: seq<string>): Option<seq<string>> {
    var h := FirstBlock(lines, id);
    if h == |lines| then None else
      var kept := Dropped(BlockOf(lines, h), 0);
      if IdAt(kept, id) == |kept| then None
      else Some(lines[..h] + Merged(kept, id, NewIds(uuids, uids)) + lines[EndOfBlock(lines, h + 1)..])
  }

  method SpliceNodeTbIds(lines: seq<string>, id: string, uuids: seq<string>, uids: seq<string>)
    returns (out: Option<seq<string>>)
    ensures out == Spliced(lines, id, uuids, uids)
  {
    var block := NodeBlock(lines, id);
    if block.None? {
      assert FirstBlock(lines, id) == |lines|;
      return None;
    }
    var (start, end) := block.value;
    assert FirstBlock(lines, id) == start;
    var kept := DropIdArrays(lines[start..end]);
    var at := IdIndex(kept, id);
    if at == |kept| {
      return None;
    }
    var merged := kept[..at + 1] + NewIds(uuids, uids) + kept[at + 1..];
    assert merged == Merged(kept, id, NewIds(uuids, uids));
    out := Some(lines[..start] + merged + lines[end..]);
  }

  /** The first id line of the node, if there is one left. */
  method IdIndex(kept: seq<string>, id: string) returns (at: nat)
    ensures at == IdAt(kept, id)
  {
    at := 0;
    while at < |kept| && !IsIdLine(kept[at], id)
      invariant at <= |kept| && IdAt(kept, id) == IdAt(kept, id, at)
    {
      at := at + 1;
    }
  }

  // ----- shapes of the lines a splice writes ------------------------------------------------

  /** A value that cannot disturb the bracket count. */
  predicate Calm(v: string) { Net(v) == 0 }

  ghost predicate AllCalm(values: seq<string>) { forall v :: v in values ==> Calm(v) }

  /** A line that is no table header, no id line of any node and no `tb_*` assignment. */
  ghost predicate Inert(line: string) {
    !IsTable(line) && !IsIdKey(line) && forall id :: !IsIdLine(line, id)
  }

  lemma {:induction false} NetAppend(a: string, b: string)
    ensures Net(a + b) == Net(a) + Net(b)
  {
    if a == [] {
      assert a + b == b;
    } else {
      assert (a + b)[1..] == a[1..] + b;
      NetAppend(a[1..], b);
    }
  }

  lemma {:induction false} EscapeKeepsNet(v: string)
    ensures Net(Escape(v)) == Net(v)
  {
    if v != [] {
      EscapeKeepsNet(v[1..]);
      var e := EscapedChar(v[0]);
      NetAppend(e, Escape(v[1..]));
      assert e[1..] == if v[0] == '\\' || v[0] == '"' then [v[0]] else [];
    }
  }

  lemma ValueLineShape(v: string)
    requires Calm(v)
    ensures Inert(ValueLine(v)) && Net(ValueLine(v)) == 0
  {
    var open, close := "  \"", "\",";
    Reassociate(open, Escape(v), close);
    NetOfValueLine(v, open, close);
    QuotedIsInert(ValueLine(v));
  }

  lemma NetOfValueLine(v: string, open: string, close: string)
    requires Calm(v) && open == "  \"" && close == "\","
    ensures Net(open + (Escape(v) + close)) == 0
  {
    NetAppend(open, Escape(v) + close);
    NetAppend(Escape(v), close);
    EscapeKeepsNet(v);
    NoBrackets(open);
    NoBrackets(close);
  }

  lemma {:induction false} NoBrackets(s: string)
    requires forall c :: c in s ==> c != '[' && c != ']'
    ensures Net(s) == 0
  {
    if s != [] {
      assert s[0] in s && forall c :: c in s[1..] ==> c in s;
      NoBrackets(s[1..]);
    }
  }

  lemma QuotedIsInert(line: string)
    requires |line| > 2 && line[0] == ' ' && line[1] == ' ' && line[2] == '"'
    ensures Inert(line)
  {
    assert line[1..][1..] == line[2..] && line[2..][0] == '"';
    assert SkipSpace(line[1..]) == SkipSpace(line[2..]) == line[2..];
  }

  lemma {:induction false} KeyWord(key: string, rest: string)
    requires key != [] && (forall c :: c in key ==> WordChar(c)) && rest != [] && !WordChar(rest[0])
    ensures WordLength(key + rest) == |key|
  {
    assert (key + rest)[1..] == key[1..] + rest;
    if |key| > 1 {
      KeyWord(key[1..], rest);
    } else {
      assert key[1..] + rest == rest;
    }
  }

  /** The first line of a written array. */
  lemma KeyLineShape(key: string, tail: string)
    requires key == DOMAIN_KEY || key == CONTROLLER_KEY
    requires tail == " = [" || tail == " = []"
    ensures !IsTable(key + tail) && KeyOf(key + tail) == Some(key)
    ensures forall id :: !IsIdLine(key + tail, id)
    ensures Net(key + tail) == if tail == " = [" then 1 else 0
  {
    LineFromT(key + tail);
    KeyLineKey(key, tail);
    KeyIsWord(key);
    KeyLineNet(key, tail);
  }

  lemma LineFromT(line: string)
    requires line != [] && line[0] == 't'
    ensures SkipSpace(line) == line && !IsTable(line) && forall id :: !IsIdLine(line, id)
  {}

  lemma KeyIsWord(key: string)
    requires key == DOMAIN_KEY || key == CONTROLLER_KEY
    ensures forall c :: c in key ==> WordChar(c)
  {}

  lemma KeyLineNet(key: string, tail: string)
    requires (forall c :: c in key ==> WordChar(c)) && (tail == " = [" || tail == " = []")
    ensures Net(key + tail) == if tail == " = [" then 1 else 0
  {
    NetAppend(key, tail);
    WordsAreCalm(key);
    NetTail(tail);
  }

  lemma KeyLineKey(key: string, tail: string)
    requires key == DOMAIN_KEY || key == CONTROLLER_KEY
    requires tail == " = [" || tail == " = []"
    ensures KeyOf(key + tail) == Some(key)
  {
    KeyIsWord(key);
    AssignmentKey(key, tail);
  }

  lemma AssignmentKey(key: string, tail: string)
    requires key != [] && (forall c :: c in key ==> WordChar(c))
    requires |tail| > 1 && tail[0] == ' ' && tail[1] == '='
    ensures KeyOf(key + tail) == Some(key)
  {
    var line := key + tail;
    assert line[0] == key[0] && key[0] in key;
    assert SkipSpace(line) == line;
    KeyWord(key, tail);
    assert line[|key|..] == tail && line[..|key|] == key;
    assert SkipSpace(tail) == tail[1..] by { assert tail[1..][0] == '='; }
  }

  lemma NetTail(tail: string)
    requires tail == " = [" || tail == " = []"
    ensures Net(tail) == if tail == " = [" then 1 else 0
  {
    NetAppend(" = ", tail[3..]);
    assert tail == " = " + tail[3..];
    assert " = "[1..] == "= " && "= "[1..] == " " && " "[1..] == "";
    assert Net(" = ") == 0;
    if tail == " = [" {
      assert tail[3..] == "[" && "["[1..] == "";
    } else {
      assert tail[3..] == "[]" && "[]"[1..] == "]" && "]"[1..] == "";
    }
  }

  lemma WordsAreCalm(key: string)
    requires forall c :: c in key ==> WordChar(c)
    ensures Net(key) == 0
  {
    NoBrackets(key);
  }

  // ----- what dropping does --------------------------------------------------------------------

  lemma {:induction false} DepthFloor(block: seq<string>, depth: int)
    requires depth <= 0
    ensures Dropped(block, depth) == Dropped(block, 0)
  {
    if block != [] && !IsIdKey(block[0]) {
      DepthFloor(block[1..], depth);
    }
  }

  /** What is left holds no `tb_*` assignment and only lines that were there. */
  lemma {:induction false} DroppedIsClean(block: seq<string>, depth: int)
    ensures forall ln :: ln in Dropped(block, depth) ==> !IsIdKey(ln) && ln in block
  {
    if block != [] {
      if depth > 0 {
        DroppedIsClean(block[1..], depth + Net(block[0]));
      } else {
        DroppedIsClean(block[1..], if IsIdKey(block[0]) then Net(block[0]) else depth);
      }
    }
  }

  /** Lines without assignments pass through. */
  lemma {:induction false} CleanPassesThrough(clean: seq<string>, more: seq<string>)
    requires forall ln :: ln in clean ==> !IsIdKey(ln)
    ensures Dropped(clean + more, 0) == clean + Dropped(more, 0)
  {
    if clean == [] {
      assert clean + more == more;
    } else {
      assert (clean + more)[1..] == clean[1..] + more;
      CleanPassesThrough(clean[1..], more);
    }
  }

  lemma {:induction false} ValueLinesDrop(values: seq<string>, more: seq<string>)
    requires AllCalm(values)
    ensures Dropped(ValueLines(values) + ["]"] + more, 1) == Dropped(more, 0)
  {
    var all := ValueLines(values) + ["]"] + more;
    if values == [] {
      assert all[0] == "]" && all[1..] == more && "]"[1..] == "";
      assert Net("]") == -1;
    } else {
      ValueLineShape(values[0]);
      assert all[0] == ValueLine(values[0]);
      assert all[1..] == ValueLines(values[1..]) + ["]"] + more;
      ValueLinesDrop(values[1..], more);
    }
  }

  /** A written array is dropped whole. */
  lemma ArrayDrops(key: string, values: seq<string>, more: seq<string>)
    requires (key == DOMAIN_KEY || key == CONTROLLER_KEY) && AllCalm(values)
    ensures Dropped(ArrayLines(key, values) + more, 0) == Dropped(more, 0)
  {
    ArrayParts(key, values, more);
    if values == [] {
      KeyLineShape(key, " = []");
      AssignmentDrops(key + " = []", more);
    } else {
      KeyLineShape(key, " = [");
      AssignmentDrops(key + " = [", ValueLines(values) + ["]"] + more);
      ValueLinesDrop(values, more);
    }
  }

  lemma ArrayParts(key: string, values: seq<string>, more: seq<string>)
    ensures values == [] ==> ArrayLines(key, values) + more == [key + " = []"] + more
    ensures values != [] ==> ArrayLines(key, values) + more == [key + " = ["] + (ValueLines(values) + ["]"] + more)
  {}

  lemma AssignmentDrops(first: string, rest: seq<string>)
    requires IsIdKey(first)
    ensures Dropped([first] + rest, 0) == Dropped(rest, Net(first))
  {
    assert ([first] + rest)[1..] == rest;
  }

  lemma MergedDrops(kept: seq<string>, id: string, uuids: seq<string>, uids: seq<string>)
    requires (forall ln :: ln in kept ==> !IsIdKey(ln)) && IdAt(kept, id) < |kept|
    requires AllCalm(uuids) && AllCalm(uids)
    ensures Dropped(Merged(kept, id, NewIds(uuids, uids)), 0) == kept
  {
    var n := IdAt(kept, id) + 1;
    MergedParts(kept, id, ArrayLines(DOMAIN_KEY, uuids), ArrayLines(CONTROLLER_KEY, uids));
    ArraysDrop(kept[..n], uuids, uids, kept[n..]);
    assert kept[..n] + kept[n..] == kept;
  }

  lemma ArraysDrop(front: seq<string>, uuids: seq<string>, uids: seq<string>, back: seq<string>)
    requires (forall ln :: ln in front ==> !IsIdKey(ln)) && (forall ln :: ln in back ==> !IsIdKey(ln))
    requires AllCalm(uuids) && AllCalm(uids)
    ensures Dropped(front + (ArrayLines(DOMAIN_KEY, uuids) + (ArrayLines(CONTROLLER_KEY, uids) + back)), 0) == front + back
  {
    var b := ArrayLines(CONTROLLER_KEY, uids) + back;
    CleanPassesThrough(front, ArrayLines(DOMAIN_KEY, uuids) + b);
    ArrayDrops(DOMAIN_KEY, uuids, b);
    ArrayDrops(CONTROLLER_KEY, uids, back);
    CleanStays(back);
  }

  lemma MergedParts(kept: seq<string>, id: string, a: seq<string>, b: seq<string>)
    requires IdAt(kept, id) < |kept|
    ensures var n := IdAt(kept, id) + 1;
            Merged(kept, id, a + b) == kept[..n] + (a + (b + kept[n..]))
  {}

  lemma CleanStays(clean: seq<string>)
    requires forall ln :: ln in clean ==> !IsIdKey(ln)
    ensures Dropped(clean, 0) == clean
  {
    CleanPassesThrough(clean, []);
    assert clean + [] == clean;
  }

  // ----- the block stays where it is -----------------------------------------------------------

  lemma {:induction false} SameEnd(a: seq<string>, b: seq<string>, from: nat, h: nat)
    requires from <= h < |a| && h < |b| && a[..h + 1] == b[..h + 1] && IsTable(a[h])
    ensures EndOfBlock(a, from) == EndOfBlock(b, from) <= h
    decreases h - from
  {
    assert a[from] == a[..h + 1][from] == b[..h + 1][from] == b[from];
    if from < h && !IsTable(a[from]) {
      SameEnd(a, b, from + 1, h);
    }
  }

  lemma {:induction false} EndIs(lines: seq<string>, from: nat, end: nat)
    requires from <= end <= |lines| && (forall j :: from <= j < end ==> !IsTable(lines[j]))
    requires end < |lines| ==> IsTable(lines[end])
    ensures EndOfBlock(lines, from) == end
    decreases end - from
  {
    if from < end {
      EndIs(lines, from + 1, end);
    }
  }

  lemma {:induction false} FirstBlockIs(lines: seq<string>, id: string, from: nat, h: nat)
    requires from <= h < |lines| && (forall k :: from <= k < h ==> !IsBlock(lines, id, k)) && IsBlock(lines, id, h)
    ensures FirstBlock(lines, id, from) == h
    decreases h - from
  {
    if from < h {
      FirstBlockIs(lines, id, from + 1, h);
    }
  }

  lemma {:induction false} WrittenLinesAreNoTables(values: seq<string>)
    requires AllCalm(values)
    ensures forall ln :: ln in ValueLines(values) ==> Inert(ln)
  {
    if values != [] {
      ValueLineShape(values[0]);
      WrittenLinesAreNoTables(values[1..]);
    }
  }

  lemma ArrayHasNoTables(key: string, values: seq<string>)
    requires (key == DOMAIN_KEY || key == CONTROLLER_KEY) && AllCalm(values)
    ensures forall ln :: ln in ArrayLines(key, values) ==> !IsTable(ln)
  {
    KeyLineShape(key, " = [");
    KeyLineShape(key, " = []");
    WrittenLinesAreNoTables(values);
    CloseIsInert();
    forall ln | ln in ArrayLines(key, values) ensures !IsTable(ln) { ArrayLineIs(key, values, ln); }
  }

  lemma ArrayLineIs(key: string, values: seq<string>, ln: string)
    requires ln in ArrayLines(key, values)
    ensures ln == key + " = []" || ln == key + " = [" || ln in ValueLines(values) || ln == "]"
  {}

  lemma CloseIsInert()
    ensures Inert("]") && KeyOf("]").None?
  {
    var close := "]";
    assert close[0] == ']' && SkipSpace(close) == close && WordLength(close) == 0;
  }

  /** The header is the first kept line and no kept line after it is a table header. */
  lemma KeptShape(block: seq<string>)
    requires block != [] && IsNodesHeader(block[0]) && forall j :: 1 <= j < |block| ==> !IsTable(block[j])
    ensures var kept := Dropped(block, 0);
            && kept != [] && kept[0] == block[0]
            && forall j :: 1 <= j < |kept| ==> !IsTable(kept[j])
  {
    var t := SkipSpace(block[0]);
    assert t[0] == "[[nodes]]"[0] == '[';
    DroppedIsClean(block[1..], 0);
    var kept := Dropped(block, 0);
    assert kept == [block[0]] + Dropped(block[1..], 0);
    forall j | 1 <= j < |kept| ensures !IsTable(kept[j]) {
      assert kept[j] in block[1..];
      var i :| 0 <= i < |block[1..]| && block[1..][i] == kept[j];
      assert block[i + 1] == kept[j];
    }
  }

  ghost predicate CanReplace(lines: seq<string>, id: string, h: nat, block: seq<string>) {
    && h < |lines| && FirstBlock(lines, id) == h
    && block != [] && block[0] == lines[h] && HasId(block, id)
    && forall j :: 1 <= j < |block| ==> !IsTable(block[j])
  }

  ghost function Replaced(lines: seq<string>, h: nat, block: seq<string>): seq<string>
    requires h < |lines|
  {
    lines[..h] + block + lines[EndOfBlock(lines, h + 1)..]
  }

  lemma ReplacedEnds(lines: seq<string>, id: string, h: nat, block: seq<string>)
    requires CanReplace(lines, id, h, block)
    ensures var out := Replaced(lines, h, block);
            && out[..h + 1] == lines[..h + 1] && out[h + |block|..] == lines[EndOfBlock(lines, h + 1)..]
            && EndOfBlock(out, h + 1) == h + |block| && BlockOf(out, h) == block
  {
    var out, end := Replaced(lines, h, block), EndOfBlock(lines, h + 1);
    assert out[h + |block|..] == lines[end..];
    forall j | h + 1 <= j < h + |block| ensures !IsTable(out[j]) { assert out[j] == block[j - h]; }
    assert h + |block| < |out| ==> out[h + |block|] == lines[end];
    EndIs(out, h + 1, h + |block|);
    assert out[h..h + |block|] == block;
  }

  lemma ReplacedIsFirst(lines: seq<string>, id: string, h: nat, block: seq<string>)
    requires CanReplace(lines, id, h, block)
    ensures FirstBlock(Replaced(lines, h, block), id) == h
  {
    var out := Replaced(lines, h, block);
    ReplacedEnds(lines, id, h, block);
    assert out[h] == lines[h] && IsBlock(out, id, h);
    TableAtHeader(lines[h]);
    forall k | 0 <= k < h ensures !IsBlock(out, id, k) {
      SameEnd(lines, out, k + 1, h);
      SameSlice(lines, out, k, EndOfBlock(lines, k + 1), h);
      assert !IsBlock(lines, id, k);
    }
    FirstBlockIs(out, id, 0, h);
  }

  lemma ReplacedIsFound(lines: seq<string>, id: string, h: nat, block: seq<string>)
    requires CanReplace(lines, id, h, block)
    ensures var out := Replaced(lines, h, block);
            && FirstBlock(out, id) == h < |out| && BlockOf(out, h) == block
            && out[..h] == lines[..h] && out[EndOfBlock(out, h + 1)..] == lines[EndOfBlock(lines, h + 1)..]
  {
    ReplacedEnds(lines, id, h, block);
    ReplacedIsFirst(lines, id, h, block);
    assert Replaced(lines, h, block)[..h] == lines[..h];
  }

  lemma SameSlice(a: seq<string>, b: seq<string>, from: nat, to: nat, h: nat)
    requires from < to <= h < |a| && h < |b| && a[..h + 1] == b[..h + 1]
    ensures a[from] == b[from] && a[from..to] == b[from..to]
  {
    assert a[from..to] == a[..h + 1][from..to] && b[from..to] == b[..h + 1][from..to];
    assert a[from] == a[..h + 1][from] && b[from] == b[..h + 1][from];
  }

  /** After a splice the same block is found, and it is the spliced one. */
  lemma BlockIsFoundAgain(lines: seq<string>, id: string, uuids: seq<string>, uids: seq<string>)
    requires Spliced(lines, id, uuids, uids).Some? && AllCalm(uuids) && AllCalm(uids)
    ensures var h := FirstBlock(lines, id);
            var merged := Merged(Dropped(BlockOf(lines, h), 0), id, NewIds(uuids, uids));
            && CanReplace(lines, id, h, merged)
            && Spliced(lines, id, uuids, uids).value == Replaced(lines, h, merged)
  {
    var h := FirstBlock(lines, id);
    var kept := Dropped(BlockOf(lines, h), 0);
    var merged := Merged(kept, id, NewIds(uuids, uids));
    KeptShape(BlockOf(lines, h));
    MergedShape(kept, id, uuids, uids);
    assert IsIdLine(merged[IdAt(kept, id)], id);
  }

  lemma TableAtHeader(line: string)
    requires IsNodesHeader(line)
    ensures IsTable(line)
  {
    assert SkipSpace(line)[0] == "[[nodes]]"[0];
  }

  lemma MergedShape(kept: seq<string>, id: string, uuids: seq<string>, uids: seq<string>)
    requires IdAt(kept, id) < |kept| && AllCalm(uuids) && AllCalm(uids)
    requires forall j :: 1 <= j < |kept| ==> !IsTable(kept[j])
    ensures var merged := Merged(kept, id, NewIds(uuids, uids));
            && merged[0] == kept[0] && merged[IdAt(kept, id)] == kept[IdAt(kept, id)]
            && forall j :: 1 <= j < |merged| ==> !IsTable(merged[j])
  {
    ArrayHasNoTables(DOMAIN_KEY, uuids);
    ArrayHasNoTables(CONTROLLER_KEY, uids);
    var n, new_ := IdAt(kept, id) + 1, NewIds(uuids, uids);
    var merged := Merged(kept, id, new_);
    forall j | 1 <= j < |merged| ensures !IsTable(merged[j]) {
      if j < n {
        assert merged[j] == kept[j];
      } else if j < n + |new_| {
        assert merged[j] == new_[j - n] && new_[j - n] in new_;
      } else {
        assert merged[j] == kept[j - |new_|];
      }
    }
  }

  // ----- the laws ---------------------------------------------------------------------------------

  /** The file a splice leaves: the same block in the same place, now with the new ids. */
  lemma AfterSplice(lines: seq<string>, id: string, uuids: seq<string>, uids: seq<string>)
    returns (h: nat, kept: seq<string>)
    requires Spliced(lines, id, uuids, uids).Some? && AllCalm(uuids) && AllCalm(uids)
    ensures h == FirstBlock(lines, id) < |lines| && kept == Dropped(BlockOf(lines, h), 0) && IdAt(kept, id) < |kept|
    ensures forall ln :: ln in kept ==> !IsIdKey(ln)
    ensures var out := Spliced(lines, id, uuids, uids).value;
            && FirstBlock(out, id) == h < |out| && BlockOf(out, h) == Merged(kept, id, NewIds(uuids, uids))
            && out[..h] == lines[..h] && out[EndOfBlock(out, h + 1)..] == lines[EndOfBlock(lines, h + 1)..]
  {
    h := FirstBlock(lines, id);
    kept := Dropped(BlockOf(lines, h), 0);
    var merged := Merged(kept, id, NewIds(uuids, uids));
    BlockIsFoundAgain(lines, id, uuids, uids);
    ReplacedIsFound(lines, id, h, merged);
    DroppedIsClean(BlockOf(lines, h), 0);
  }

  lemma SplicedFrom(lines: seq<string>, id: string, uuids: seq<string>, uids: seq<string>, h: nat, kept: seq<string>)
    requires FirstBlock(lines, id) == h < |lines| && Dropped(BlockOf(lines, h), 0) == kept && IdAt(kept, id) < |kept|
    ensures Spliced(lines, id, uuids, uids)
         == Some(lines[..h] + Merged(kept, id, NewIds(uuids, uids)) + lines[EndOfBlock(lines, h + 1)..])
  {}

  /** A later splice overrides an earlier one completely: the file is as if the earlier one
      had never happened. */
  lemma LaterSpliceOverrides(lines: seq<string>, id: string, uuids: seq<string>, uids: seq<string>,
                             uuids': seq<string>, uids': seq<string>)
    requires Spliced(lines, id, uuids, uids).Some? && AllCalm(uuids) && AllCalm(uids)
    ensures Spliced(Spliced(lines, id, uuids, uids).value, id, uuids', uids') == Spliced(lines, id, uuids', uids')
  {
    var h, kept := AfterSplice(lines, id, uuids, uids);
    MergedDrops(kept, id, uuids, uids);
    SplicedFrom(Spliced(lines, id, uuids, uids).value, id, uuids', uids', h, kept);
    SplicedFrom(lines, id, uuids', uids', h, kept);
  }

  /** Splicing the same ids again changes nothing. */
  lemma SpliceIsIdempotent(lines: seq<string>, id: string, uuids: seq<string>, uids: seq<string>)
    requires Spliced(lines, id, uuids, uids).Some? && AllCalm(uuids) && AllCalm(uids)
    ensures Spliced(Spliced(lines, id, uuids, uids).value, id, uuids, uids) == Spliced(lines, id, uuids, uids)
  {
    LaterSpliceOverrides(lines, id, uuids, uids, uuids, uids);
  }

  /** Everything else keeps its text and order: all lines before and after the block, and in
      the block all lines that are not part of a `tb_*` assignment. */
  lemma SpliceKeepsTheRest(lines: seq<string>, id: string, uuids: seq<string>, uids: seq<string>)
    requires Spliced(lines, id, uuids, uids).Some? && AllCalm(uuids) && AllCalm(uids)
    ensures var h, out := FirstBlock(lines, id), Spliced(lines, id, uuids, uids).value;
            && FirstBlock(out, id) == h < |out|
            && out[..h] == lines[..h]
            && out[EndOfBlock(out, h + 1)..] == lines[EndOfBlock(lines, h + 1)..]
            && Dropped(BlockOf(out, h), 0) == Dropped(BlockOf(lines, h), 0)
  {
    var h, kept := AfterSplice(lines, id, uuids, uids);
    DropsAgain(Spliced(lines, id, uuids, uids).value, h, kept, id, uuids, uids);
  }

  lemma DropsAgain(out: seq<string>, h: nat, kept: seq<string>, id: string, uuids: seq<string>, uids: seq<string>)
    requires (forall ln :: ln in kept ==> !IsIdKey(ln)) && IdAt(kept, id) < |kept| && AllCalm(uuids) && AllCalm(uids)
    requires h < |out| && BlockOf(out, h) == Merged(kept, id, NewIds(uuids, uids))
    ensures Dropped(BlockOf(out, h), 0) == kept
  {
    MergedDrops(kept, id, uuids, uids);
  }

  /** A block as its author wrote it: ordinary lines, and `tb_*` assignments that run until
      their brackets close. */
  datatype Piece = Plain(line: string) | Assignment(lines: seq<string>)

  ghost predicate Closes(lines: seq<string>, depth: int) {
    if lines == [] then depth <= 0 else depth > 0 && Closes(lines[1..], depth + Net(lines[0]))
  }

  ghost predicate WellFormed(p: Piece) {
    match p
    case Plain(line) => !IsIdKey(line)
    case Assignment(lines) => lines != [] && IsIdKey(lines[0]) && Closes(lines[1..], Net(lines[0]))
  }

  ghost function Text(pieces: seq<Piece>): seq<string> {
    if pieces == [] then [] else
      (match pieces[0] case Plain(line) => [line] case Assignment(lines) => lines) + Text(pieces[1..])
  }

  ghost function PlainLines(pieces: seq<Piece>): seq<string> {
    if pieces == [] then []
    else (if pieces[0].Plain? then [pieces[0].line] else []) + PlainLines(pieces[1..])
  }

  /** Dropping takes out exactly the bracket-balanced assignments. */
  lemma {:induction false} DroppingKeepsPlainLines(pieces: seq<Piece>)
    requires forall p :: p in pieces ==> WellFormed(p)
    ensures Dropped(Text(pieces), 0) == PlainLines(pieces)
  {
    if pieces != [] {
      DroppingKeepsPlainLines(pieces[1..]);
      var more := Text(pieces[1..]);
      assert WellFormed(pieces[0]);
      match pieces[0]
      case Plain(line) =>
        assert ([line] + more)[1..] == more;
      case Assignment(lines) =>
        assert (lines + more)[0] == lines[0] && (lines + more)[1..] == lines[1..] + more;
        ClosedPartDrops(lines[1..], more, Net(lines[0]));
    }
  }

  lemma {:induction false} ClosedPartDrops(lines: seq<string>, more: seq<string>, depth: int)
    requires Closes(lines, depth)
    ensures Dropped(lines + more, depth) == Dropped(more, 0)
  {
    if lines == [] {
      assert lines + more == more;
      DepthFloor(more, depth);
    } else {
      assert (lines + more)[0] == lines[0] && (lines + more)[1..] == lines[1..] + more;
      ClosedPartDrops(lines[1..], more, depth + Net(lines[0]));
    }
  }

  // ----- reading the arrays back ---------------------------------------------------------------

  function Unescape(s: string): string {
    if s == [] then []
    else if s[0] == '\\' && |s| > 1 then [s[1]] + Unescape(s[2..])
    else [s[0]] + Unescape(s[1..])
  }

  /** One element line: two blanks, a quoted string, a comma. */
  function ReadItem(line: string): Option<string> {
    if |line| >= 3 && line[..3] == "  \"" then
      var q := ScanQuoted(line[3..]);
      if q.Some? && q.value.1 == "," then Some(Unescape(q.value.0)) else None
    else None
  }

  function ReadItems(lines: seq<string>): Option<seq<string>> {
    if lines == [] then None
    else if lines[0] == "]" then Some([])
    else
      var first, rest := ReadItem(lines[0]), ReadItems(lines[1..]);
      if first.None? || rest.None? then None else Some([first.value] + rest.value)
  }

  /** Reads the first assignment of a key in a block. */
  function ReadArray(block: seq<string>, key: string): Option<seq<string>> {
    if block == [] then None
    else if KeyOf(block[0]) != Some(key) then ReadArray(block[1..], key)
    else if block[0] == key + " = []" then Some([])
    else if block[0] == key + " = [" then ReadItems(block[1..])
    else None
  }

  lemma {:induction false} EscapeRoundTrip(v: string, rest: string)
    ensures Unescape(Escape(v)) == v
    ensures ScanQuoted(Escape(v) + "\"" + rest) == Some((Escape(v), rest))
  {
    var whole := Escape(v) + "\"" + rest;
    if v == [] {
      assert whole[0] == '"' && whole[1..] == rest;
    } else {
      EscapeRoundTrip(v[1..], rest);
      var tail := Escape(v[1..]) + "\"" + rest;
      assert whole == EscapedChar(v[0]) + tail;
      ScanStep(v[0], tail);
      UnescapeStep(v[0], Escape(v[1..]));
      assert v == [v[0]] + v[1..];
    }
  }

  lemma ScanStep(c: char, tail: string)
    requires ScanQuoted(tail).Some?
    ensures ScanQuoted(EscapedChar(c) + tail) == Some((EscapedChar(c) + ScanQuoted(tail).value.0, ScanQuoted(tail).value.1))
  {
    var e := EscapedChar(c);
    assert (e + tail)[..|e|] == e && (e + tail)[|e|..] == tail;
  }

  lemma UnescapeStep(c: char, tail: string)
    ensures Unescape(EscapedChar(c) + tail) == [c] + Unescape(tail)
  {
    var e := EscapedChar(c);
    assert (e + tail)[|e|..] == tail;
  }

  lemma {:induction false} ItemsReadBack(values: seq<string>, more: seq<string>)
    ensures ReadItems(ValueLines(values) + ["]"] + more) == Some(values)
  {
    var all := ValueLines(values) + ["]"] + more;
    if values != [] {
      ItemsReadBack(values[1..], more);
      assert all[0] == ValueLine(values[0]) && all[1..] == ValueLines(values[1..]) + ["]"] + more;
      ItemReadsBack(values[0]);
      assert ValueLine(values[0])[0] == ' ';
      assert values == [values[0]] + values[1..];
    }
  }

  lemma ItemReadsBack(v: string)
    ensures ReadItem(ValueLine(v)) == Some(v)
  {
    EscapeRoundTrip(v, ",");
    ValueLineParts(v);
  }

  lemma ValueLineParts(v: string)
    ensures var line := ValueLine(v);
            |line| >= 3 && line[..3] == "  \"" && line[3..] == Escape(v) + "\"" + ","
  {
    var open, rest := "  \"", Escape(v) + "\"" + ",";
    assert "\"," == "\"" + ",";
    assert ValueLine(v) == open + rest;
  }

  lemma {:induction false} SkipTo(before: seq<string>, more: seq<string>, key: string)
    requires forall ln :: ln in before ==> KeyOf(ln) != Some(key)
    ensures ReadArray(before + more, key) == ReadArray(more, key)
  {
    if before == [] {
      assert before + more == more;
    } else {
      assert (before + more)[0] == before[0] && (before + more)[1..] == before[1..] + more;
      SkipTo(before[1..], more, key);
    }
  }

  lemma ArrayReadsBack(key: string, values: seq<string>, more: seq<string>)
    requires key == DOMAIN_KEY || key == CONTROLLER_KEY
    ensures ReadArray(ArrayLines(key, values) + more, key) == Some(values)
  {
    KeyLineShape(key, " = [");
    KeyLineShape(key, " = []");
    ArrayParts(key, values, more);
    if values == [] {
      ReadsFirst(key + " = []", more, key);
    } else {
      assert |key + " = ["| != |key + " = []"|;
      ReadsFirst(key + " = [", ValueLines(values) + ["]"] + more, key);
      ItemsReadBack(values, more);
    }
  }

  lemma ReadsFirst(first: string, rest: seq<string>, key: string)
    requires KeyOf(first) == Some(key)
    ensures first == key + " = []" ==> ReadArray([first] + rest, key) == Some([])
    ensures first != key + " = []" && first == key + " = [" ==> ReadArray([first] + rest, key) == ReadItems(rest)
  {
    assert ([first] + rest)[1..] == rest;
  }

  lemma OtherKeyIsAbsent(values: seq<string>)
    requires AllCalm(values)
    ensures forall ln :: ln in ArrayLines(DOMAIN_KEY, values) ==> KeyOf(ln) != Some(CONTROLLER_KEY)
  {
    KeyLineShape(DOMAIN_KEY, " = [");
    KeyLineShape(DOMAIN_KEY, " = []");
    WrittenLinesAreNoTables(values);
    CloseIsInert();
    forall ln | ln in ArrayLines(DOMAIN_KEY, values) ensures KeyOf(ln) != Some(CONTROLLER_KEY) {
      ArrayLineIs(DOMAIN_KEY, values, ln);
    }
  }

  /** Reading the two arrays of the node's block after a splice gives the values written. */
  lemma SplicedIdsReadBack(lines: seq<string>, id: string, uuids: seq<string>, uids: seq<string>)
    requires Spliced(lines, id, uuids, uids).Some? && AllCalm(uuids) && AllCalm(uids)
    ensures var out := Spliced(lines, id, uuids, uids).value;
            && FirstBlock(out, id) < |out|
            && ReadArray(BlockOf(out, FirstBlock(out, id)), DOMAIN_KEY) == Some(uuids)
            && ReadArray(BlockOf(out, FirstBlock(out, id)), CONTROLLER_KEY) == Some(uids)
  {
    var h, kept := AfterSplice(lines, id, uuids, uids);
    MergedReadsBack(kept, id, uuids, uids);
  }

  lemma MergedReadsBack(kept: seq<string>, id: string, uuids: seq<string>, uids: seq<string>)
    requires (forall ln :: ln in kept ==> !IsIdKey(ln)) && IdAt(kept, id) < |kept|
    requires AllCalm(uuids) && AllCalm(uids)
    ensures ReadArray(Merged(kept, id, NewIds(uuids, uids)), DOMAIN_KEY) == Some(uuids)
    ensures ReadArray(Merged(kept, id, NewIds(uuids, uids)), CONTROLLER_KEY) == Some(uids)
  {
    var n := IdAt(kept, id) + 1;
    var a, b := ArrayLines(DOMAIN_KEY, uuids), ArrayLines(CONTROLLER_KEY, uids);
    MergedParts(kept, id, a, b);
    forall ln | ln in kept[..n] ensures KeyOf(ln) != Some(DOMAIN_KEY) && KeyOf(ln) != Some(CONTROLLER_KEY) {
      assert !IsIdKey(ln);
    }
    SkipTo(kept[..n], a + (b + kept[n..]), DOMAIN_KEY);
    SkipTo(kept[..n], a + (b + kept[n..]), CONTROLLER_KEY);
    ArrayReadsBack(DOMAIN_KEY, uuids, b + kept[n..]);
    OtherKeyIsAbsent(uuids);
    SkipTo(a, b + kept[n..], CONTROLLER_KEY);
    ArrayReadsBack(CONTROLLER_KEY, uids, kept[n..]);
  }
}
