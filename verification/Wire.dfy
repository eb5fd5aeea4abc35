/** The inventory wire format: the peer prints one `rel TAB mtime TAB size` line per file and
    `sync_inventory.parse_inventory_text` reads them back. */
module Wire {
  import opened Base
  import opened Planning
  import opened Paths
  import opened Numerals

  /** Where Python's `splitlines` ends a line. */
  predicate LineBreak(c: char) {
    c == '\n' || c == '\r' || c == '\U{0B}' || c == '\U{0C}' || c == '\U{1C}' || c == '\U{1D}' || c == '\U{1E}'
    || c == '\U{85}' || c == '\U{2028}' || c == '\U{2029}'
  }

  predicate OneLine(s: string) { forall c :: c in s ==> !LineBreak(c) }

  function FirstBreak(s: string): (n: nat)
    ensures n <= |s| && OneLine(s[..n]) && (n < |s| ==> LineBreak(s[n]))
  {
    if s == [] || LineBreak(s[0]) then 0
    else
      var n := 1 + FirstBreak(s[1..]);
      assert s[..n] == [s[0]] + s[1..][..n - 1];
      n
  }

  /** `str.splitlines`: a carriage return and a newline together end one line, and no empty
      line follows the last break. */
  function SplitLines(s: string): (lines: seq<string>)
    ensures forall l :: l in lines ==> OneLine(l)
  {
    if s == [] then [] else
      var n := FirstBreak(s);
      if n == |s| then [s[..n]]
      else if s[n] == '\r' && n + 1 < |s| && s[n + 1] == '\n' then [s[..n]] + SplitLines(s[n + 2..])
      else [s[..n]] + SplitLines(s[n + 1..])
  }

  /** These ten characters end a line, by their code points. */
  lemma LineBreakIs(c: char)
    ensures LineBreak(c) <==> var n := c as int;
              10 <= n <= 13 || 28 <= n <= 30 || n == 0x85 || n == 0x2028 || n == 0x2029
  {}

  /** `int(text)` on what `%d` prints: digits behind an optional minus sign. */
  function ParseInt(s: string): Option<int> {
    var negative := s != [] && s[0] == '-';
    var n := Parse(if negative then s[1..] else s, 10);
    if n.None? then None else if negative then Some(0 - n.value as int) else Some(n.value)
  }

  function PrintInt(n: int): string {
    if n < 0 then "-" + Print(-n, 10) else Print(n, 10)
  }

  /** What `%d` prints is the only text of decimal digits without a needless zero in front, a minus
      sign before them if and only if the number is below zero, that has its value. */
  lemma PrintIntIff(n: int, s: string)
    ensures s == PrintInt(n) <==>
              var digits := if n < 0 then (if s == [] then [] else s[1..]) else s;
              && (n < 0 ==> s != [] && s[0] == '-')
              && digits != [] && (forall c :: c in digits ==> c in "0123456789") && (|digits| > 1 ==> digits[0] != '0')
              && Parse(digits, 10) == Some(if n < 0 then -n else n)
  {
    var m: nat := if n < 0 then -n else n;
    var digits := if n < 0 then (if s == [] then [] else s[1..]) else s;
    assert "0123456789ABCDEF"[..10] == "0123456789";
    PaddedPrintIff(m, 1, digits, 10);
    PrintIsPrinted(m, 10);
    assert Padded(Print(m, 10), 1) == Print(m, 10);
    if n < 0 && s != [] && s[0] == '-' {
      assert s == "-" + digits;
    }
  }

  /** What one line adds to the inventory: a file, nothing, or a refusal of the whole text. */
  datatype LineResult = File(rel: Rel, meta: FileMeta) | Skip | Refuse

  function ReadLine(line: string): LineResult {
    if (forall c :: c in line ==> Space(c)) || '\t' !in line then Skip
    else
      var parts := Split(line, '\t');
      if |parts| < 3 then Skip
      else if !ValidRelpath(parts[0]) then Refuse
      else
        var mtime, size := ParseInt(parts[1]), ParseInt(parts[2]);
        if mtime.None? || size.None? then Skip
        else File(parts[0], FileMeta(mtime.value, size.value))
  }

  /** The inventory a list of lines stands for; `None` when a line is refused. */
  function ReadLines(lines: seq<string>): Option<Tree> {
    if lines == [] then Some(map[]) else
      var before, last := ReadLines(lines[..|lines| - 1]), ReadLine(lines[|lines| - 1]);
      if before.None? || last.Refuse? then None
      else if last.File? then Some(before.value[last.rel := last.meta])
      else before
  }

  method ParseInventoryText(text: string) returns (out: Option<Tree>)
    ensures out == ReadLines(SplitLines(text))
  {
    var lines := SplitLines(text);
    var files: Tree := map[];
    for i := 0 to |lines|
      invariant ReadLines(lines[..i]) == Some(files)
    {
      assert lines[..i + 1][..i] == lines[..i];
      match ReadLine(lines[i])
      case Skip =>
      case Refuse =>
        RefusedStaysRefused(lines, i + 1);
        return None;
      case File(rel, meta) => files := files[rel := meta];
    }
    assert lines[..|lines|] == lines;
    out := Some(files);
  }

  lemma {:induction false} RefusedStaysRefused(lines: seq<string>, n: nat)
    requires n <= |lines| && ReadLines(lines[..n]).None?
    ensures ReadLines(lines).None?
  {
    if n == |lines| {
      assert lines[..n] == lines;
    } else {
      assert lines[..|lines| - 1][..n] == lines[..n];
      RefusedStaysRefused(lines[..|lines| - 1], n);
    }
  }

  ghost predicate BadLine(line: string) {
    (exists c :: c in line && !Space(c)) && |Split(line, '\t')| >= 3 && !ValidRelpath(Split(line, '\t')[0])
  }

  /** A path that could leave the tree, or a line that holds one, never gets through: one such
      line refuses the whole text, and every path of an accepted text passes the path check. */
  lemma {:induction false} NoBadPathGetsThrough(lines: seq<string>)
    ensures ReadLines(lines).None? <==> exists line :: line in lines && BadLine(line)
    ensures ReadLines(lines).Some? ==> forall rel :: rel in ReadLines(lines).value ==> ValidRelpath(rel)
  {
    if lines != [] {
      var n := |lines| - 1;
      NoBadPathGetsThrough(lines[..n]);
      assert lines == lines[..n] + [lines[n]];
      RefusedIff(lines[n]);
    }
  }

  /** Which lines are refused: those with three fields or more and a bad path first. */
  lemma RefusedIff(line: string)
    ensures ReadLine(line).Refuse? <==> BadLine(line)
    ensures ReadLine(line).File? ==> ValidRelpath(ReadLine(line).rel)
  {
    if '\t' !in line {
      SplitPlain(line, '\t');
    }
  }

  // ----- the writer's side -----------------------------------------------------------------

  datatype FileLine = FileLine(rel: Rel, meta: FileMeta)

  function Shown(f: FileLine): string {
    f.rel + "\t" + PrintInt(f.meta.mtime) + "\t" + PrintInt(f.meta.size)
  }

  function Render(files: seq<FileLine>): string {
    if files == [] then [] else Shown(files[0]) + "\n" + Render(files[1..])
  }

  function ShownAll(files: seq<FileLine>): seq<string> {
    if files == [] then [] else [Shown(files[0])] + ShownAll(files[1..])
  }

  function AsTree(files: seq<FileLine>): Tree {
    if files == [] then map[] else
      var last := files[|files| - 1];
      AsTree(files[..|files| - 1])[last.rel := last.meta]
  }

  lemma PrintedInt(n: int)
    ensures ParseInt(PrintInt(n)) == Some(n)
    ensures PrintInt(n) != [] && forall c :: c in PrintInt(n) ==> c == '-' || '0' <= c <= '9'
  {
    var m := if n < 0 then -n else n;
    ParsePrint(m, 10);
    forall c | c in Print(m, 10) ensures '0' <= c <= '9' { assert IsDigit(c, 10); }
    DigitsRead(Print(m, 10), m);
  }

  lemma DigitsRead(digits: string, m: nat)
    requires Parse(digits, 10) == Some(m) && forall c :: c in digits ==> '0' <= c <= '9'
    ensures ParseInt(digits) == Some(m) && ParseInt("-" + digits) == Some(0 - m as int)
  {
    assert digits[0] in digits;
    assert ("-" + digits)[1..] == digits;
  }

  lemma ShownReadsBack(f: FileLine)
    requires '\t' !in f.rel
    ensures ReadLine(Shown(f)) == if ValidRelpath(f.rel) then File(f.rel, f.meta) else Refuse
  {
    PrintedInt(f.meta.mtime);
    PrintedInt(f.meta.size);
    ShownSplits(f);
    LastCharNotBlank(f);
  }

  lemma ShownSplits(f: FileLine)
    requires '\t' !in f.rel
    ensures Split(Shown(f), '\t') == [f.rel, PrintInt(f.meta.mtime), PrintInt(f.meta.size)]
    ensures '\t' in Shown(f)
  {
    var parts := [f.rel, PrintInt(f.meta.mtime), PrintInt(f.meta.size)];
    PrintedInt(f.meta.mtime);
    PrintedInt(f.meta.size);
    JoinThree(parts);
    SplitJoin(parts, '\t');
    assert Shown(f)[|f.rel|] == '\t';
  }

  lemma LastCharNotBlank(f: FileLine)
    ensures exists c :: c in Shown(f) && !Space(c)
  {
    PrintedInt(f.meta.size);
    var c := PrintInt(f.meta.size)[0];
    assert c in PrintInt(f.meta.size) && c in Shown(f) && !Space(c);
  }

  lemma JoinThree(parts: seq<string>)
    requires |parts| == 3
    ensures Join(parts, '\t') == parts[0] + "\t" + parts[1] + "\t" + parts[2]
  {
    assert parts[..2][..1] == parts[..1];
    assert Join(parts[..1], '\t') == parts[0];
    assert Join(parts[..2], '\t') == parts[0] + ['\t'] + parts[1];
  }

  lemma SplitLinesCons(line: string, sep: char, rest: string)
    requires OneLine(line) && LineBreak(sep) && sep != '\r'
    ensures SplitLines(line + [sep] + rest) == [line] + SplitLines(rest)
  {
    FirstBreakIs(line, sep, rest);
    var s := line + [sep] + rest;
    assert s[..|line|] == line && s[|line| + 1..] == rest && s[|line|] == sep;
  }

  lemma {:induction false} FirstBreakIs(line: string, sep: char, rest: string)
    requires OneLine(line) && LineBreak(sep)
    ensures FirstBreak(line + [sep] + rest) == |line|
  {
    var s := line + [sep] + rest;
    if line == [] {
      assert s[0] == sep;
    } else {
      assert s[0] == line[0] && line[0] in line && s[1..] == line[1..] + [sep] + rest;
      FirstBreakIs(line[1..], sep, rest);
    }
  }

  lemma {:induction false} RenderedLines(files: seq<FileLine>)
    requires forall f :: f in files ==> OneLine(Shown(f))
    ensures SplitLines(Render(files)) == ShownAll(files)
  {
    if files != [] {
      RenderedLines(files[1..]);
      SplitLinesCons(Shown(files[0]), '\n', Render(files[1..]));
    }
  }

  lemma {:induction false} ShownAllSnoc(files: seq<FileLine>)
    requires files != []
    ensures ShownAll(files) == ShownAll(files[..|files| - 1]) + [Shown(files[|files| - 1])]
  {
    if |files| > 1 {
      ShownAllSnoc(files[1..]);
      assert files[1..][..|files| - 2] == files[..|files| - 1][1..];
    }
  }

  lemma {:induction false} ShownAllReadsBack(files: seq<FileLine>)
    requires forall f :: f in files ==> ValidRelpath(f.rel)
    ensures ReadLines(ShownAll(files)) == Some(AsTree(files))
  {
    if files != [] {
      var n := |files| - 1;
      ShownAllSnoc(files);
      ShownAllReadsBack(files[..n]);
      NoTabInside(files[n].rel);
      ShownReadsBack(files[n]);
      assert ShownAll(files)[..|ShownAll(files)| - 1] == ShownAll(files[..n]);
    }
  }

  lemma NoTabInside(rel: Rel)
    requires ValidRelpath(rel)
    ensures '\t' !in rel
  {
    forall c | c in rel ensures c != '\t' { assert !ControlChar(c); }
  }

  lemma ShownIsOneLine(f: FileLine)
    requires OneLine(f.rel)
    ensures OneLine(Shown(f))
  {
    PrintedIsOneLine(f.meta.mtime);
    PrintedIsOneLine(f.meta.size);
  }

  lemma PrintedIsOneLine(n: int)
    ensures OneLine(PrintInt(n))
  {
    PrintedInt(n);
    forall c | c in PrintInt(n) ensures !LineBreak(c) {}
  }

  /** No line of a text yields a path that contains a line break. */
  lemma {:induction false} KeysAreOneLine(lines: seq<string>)
    requires forall l :: l in lines ==> OneLine(l)
    ensures ReadLines(lines).Some? ==> forall rel :: rel in ReadLines(lines).value ==> OneLine(rel)
  {
    if lines != [] {
      var n := |lines| - 1;
      KeysAreOneLine(lines[..n]);
      var last := lines[n];
      if ReadLine(last).File? {
        PartChars(last, '\t');
        var rel := Split(last, '\t')[0];
        assert rel in Split(last, '\t');
        assert last in lines && OneLine(last);
        forall c | c in rel ensures !LineBreak(c) { assert c in last; }
      }
    }
  }

  lemma PartChars(s: string, sep: char)
    ensures forall p, c :: p in Split(s, sep) && c in p ==> c in s
  {
    JoinSplit(s, sep);
    JoinChars(Split(s, sep), sep);
  }

  /** The inventory survives the wire exactly when no path contains one of the line breaks
      that are no control characters (U+0085, U+2028, U+2029): the path check admits those,
      `splitlines` does not. */
  lemma WireRoundTripIff(files: seq<FileLine>)
    requires forall f :: f in files ==> ValidRelpath(f.rel)
    ensures ReadLines(SplitLines(Render(files))) == Some(AsTree(files)) <==> forall f :: f in files ==> OneLine(f.rel)
  {
    if forall f :: f in files ==> OneLine(f.rel) {
      forall f | f in files ensures OneLine(Shown(f)) { ShownIsOneLine(f); }
      RenderedLines(files);
      ShownAllReadsBack(files);
    } else {
      var f :| f in files && !OneLine(f.rel);
      InTree(files, f);
      KeysAreOneLine(SplitLines(Render(files)));
    }
  }

  lemma {:induction false} InTree(files: seq<FileLine>, f: FileLine)
    requires f in files
    ensures f.rel in AsTree(files)
  {
    if f != files[|files| - 1] {
      InTree(files[..|files| - 1], f);
    }
  }

  /** Such a path passes the check. */
  lemma LineSeparatorIsAccepted(rel: Rel)
    requires rel == ['\U{2028}']
    ensures ValidRelpath(rel) && !OneLine(rel)
  {
    SplitPlain(rel, '/');
    assert rel[0] in rel;
  }

  /** How a path with such a separator reads: the part behind it is taken for the path, and
      refuses the whole text when it is no acceptable one. */
  lemma SplitPathReadsAs(front: string, sep: char, back: string, meta: FileMeta)
    requires LineBreak(sep) && sep != '\r' && OneLine(front) && OneLine(back) && '\t' !in front && '\t' !in back
    ensures var read := ReadLines(SplitLines(Render([FileLine(front + [sep] + back, meta)])));
            read == if ValidRelpath(back) then Some(map[back := meta]) else None
  {
    var g := FileLine(back, meta);
    TextSplits(front, sep, g);
    ShownReadsBack(g);
    TwoLines(front, Shown(g));
  }

  lemma TextSplits(front: string, sep: char, g: FileLine)
    requires LineBreak(sep) && sep != '\r' && OneLine(front) && OneLine(g.rel)
    ensures SplitLines(Render([FileLine(front + [sep] + g.rel, g.meta)])) == [front] + [Shown(g)]
  {
    var f := FileLine(front + [sep] + g.rel, g.meta);
    RenderOne(f);
    ShownBehind(front, sep, g);
    SplitLinesCons(front, sep, Shown(g) + "\n");
    ShownIsOneLine(g);
    SplitsOne(Shown(g));
  }

  lemma WholeLine(line: string)
    requires OneLine(line)
    ensures SplitLines(line) == if line == "" then [] else [line]
  {
    NoBreakInside(line);
    assert line[..|line|] == line;
  }

  lemma {:induction false} NoBreakInside(line: string)
    requires OneLine(line)
    ensures FirstBreak(line) == |line|
  {
    if line != [] {
      assert line[0] in line;
      NoBreakInside(line[1..]);
    }
  }

  lemma SplitsOne(line: string)
    requires OneLine(line)
    ensures SplitLines(line + "\n") == [line]
  {
    SplitLinesCons(line, '\n', []);
    assert line + ['\n'] + [] == line + "\n";
    assert [line] + SplitLines([]) == [line];
  }

  lemma RenderOne(f: FileLine)
    ensures Render([f]) == Shown(f) + "\n"
  {
    assert [f][1..] == [];
  }

  function Fields(meta: FileMeta): string {
    "\t" + PrintInt(meta.mtime) + "\t" + PrintInt(meta.size)
  }

  lemma ShownFields(f: FileLine)
    ensures Shown(f) == f.rel + Fields(f.meta)
  {}

  lemma ShownBehind(front: string, sep: char, g: FileLine)
    ensures Shown(FileLine(front + [sep] + g.rel, g.meta)) + "\n" == front + [sep] + (Shown(g) + "\n")
  {
    var f := FileLine(front + [sep] + g.rel, g.meta);
    ShownFields(f);
    ShownFields(g);
    Regroup(front + [sep], g.rel, Fields(g.meta), "\n");
  }

  lemma Regroup(a: string, b: string, c: string, d: string)
    ensures a + b + c + d == a + (b + c + d)
  {}

  lemma TwoLines(skipped: string, line: string)
    requires '\t' !in skipped && !ReadLine(line).Skip?
    ensures var last := ReadLine(line);
            ReadLines([skipped] + [line]) == if last.Refuse? then None else Some(map[last.rel := last.meta])
  {
    assert ReadLine(skipped).Skip?;
    assert ReadLines([skipped]) == ReadLines([]) == Some(map[]) by { assert [skipped][..0] == []; }
    assert ([skipped] + [line])[..1] == [skipped];
  }
}
