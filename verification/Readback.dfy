/** How printed inventory lines read back when paths hold line breaks
    (`sync_inventory.parse_inventory_text` on what the peer's scripts print). */
module Readback {
  import opened Base
  import opened Planning
  import opened Paths
  import Wire

  /** The part of a path behind its last break: what the reader takes for the path. */
  function LastPart(r: Rel): (p: Rel)
    ensures |p| <= |r| && Wire.OneLine(p) && (p == r <==> Wire.OneLine(r))
  {
    var n := Wire.FirstBreak(r);
    if n == |r| then
      assert r[..n] == r;
      r
    else
      assert r[n] in r;
      LastPart(r[n + 1..])
  }

  /** A path that the path check let through holds no carriage return and no tab. */
  ghost predicate Printable(r: Rel) { '\r' !in r && '\t' !in r }

  /** What the lines of printed files are taken for, later ones on top of earlier ones; nothing
      if one of them is taken for a path that is refused. */
  ghost function TakenFor(files: seq<Wire.FileLine>): Option<Tree> {
    if files == [] then Some(map[]) else
      var before, last := TakenFor(files[..|files| - 1]), files[|files| - 1];
      if before.None? || !ValidRelpath(LastPart(last.rel)) then None
      else Some(before.value[LastPart(last.rel) := last.meta])
  }

  /** Reading back what was printed, for all paths that can get into an inventory. */
  lemma PrintedReadsAs(files: seq<Wire.FileLine>)
    requires forall f :: f in files ==> ValidRelpath(f.rel)
    ensures Wire.ReadLines(Wire.SplitLines(Wire.Render(files))) == TakenFor(files)
  {
    forall f | f in files ensures Printable(f.rel) { ValidIsPrintable(f.rel); }
    RenderedPieces(files);
    PiecesReadAs(files);
  }

  lemma ValidIsPrintable(r: Rel)
    requires ValidRelpath(r)
    ensures Printable(r)
  {
    forall c | c in r ensures c != '\r' && c != '\t' { assert !ControlChar(c); }
  }

  // ----- the lines a path is cut into ------------------------------------------------------------

  /** The lines of a printed file: its path may be cut, and the last piece has the fields. */
  function Pieces(r: Rel, fields: string): seq<string> {
    var n := Wire.FirstBreak(r);
    if n == |r| then [r + fields] else [r[..n]] + Pieces(r[n + 1..], fields)
  }

  function AllPieces(files: seq<Wire.FileLine>): seq<string> {
    if files == [] then [] else Pieces(files[0].rel, Wire.Fields(files[0].meta)) + AllPieces(files[1..])
  }

  lemma {:induction false} PathSplits(r: Rel, fields: string, more: string)
    requires '\r' !in r && Wire.OneLine(fields)
    ensures Wire.SplitLines(r + fields + "\n" + more) == Pieces(r, fields) + Wire.SplitLines(more)
    decreases |r|
  {
    var n := Wire.FirstBreak(r);
    if n == |r| {
      assert r[..n] == r;
      OneLineSum(r, fields);
      Wire.SplitLinesCons(r + fields, '\n', more);
    } else {
      var front, back := r[..n], r[n + 1..];
      assert r[n] in r && forall c :: c in back ==> c in r;
      PathSplits(back, fields, more);
      Wire.SplitLinesCons(front, r[n], back + fields + "\n" + more);
      CutAt(r, n, fields, "\n", more);
      Reassociate([front], Pieces(back, fields), Wire.SplitLines(more));
    }
  }

  lemma OneLineSum(a: string, b: string)
    requires Wire.OneLine(a) && Wire.OneLine(b)
    ensures Wire.OneLine(a + b)
  {
    forall c | c in a + b ensures c in a || c in b {}
  }

  lemma CutAt(r: string, n: nat, a: string, b: string, c: string)
    requires n < |r|
    ensures r + a + b + c == r[..n] + [r[n]] + (r[n + 1..] + a + b + c)
  {
    assert r == r[..n] + [r[n]] + r[n + 1..];
  }

  lemma FieldsAreOneLine(meta: FileMeta)
    ensures Wire.OneLine(Wire.Fields(meta))
  {
    Wire.PrintedIsOneLine(meta.mtime);
    Wire.PrintedIsOneLine(meta.size);
  }

  lemma {:induction false} RenderedPieces(files: seq<Wire.FileLine>)
    requires forall f :: f in files ==> Printable(f.rel)
    ensures Wire.SplitLines(Wire.Render(files)) == AllPieces(files)
  {
    if files != [] {
      var f := files[0];
      RenderedPieces(files[1..]);
      FieldsAreOneLine(f.meta);
      Wire.ShownFields(f);
      PathSplits(f.rel, Wire.Fields(f.meta), Wire.Render(files[1..]));
    }
  }

  lemma {:induction false} AllPiecesSnoc(files: seq<Wire.FileLine>)
    requires files != []
    ensures var last := files[|files| - 1];
            AllPieces(files) == AllPieces(files[..|files| - 1]) + Pieces(last.rel, Wire.Fields(last.meta))
  {
    var first, last := files[0], files[|files| - 1];
    if |files| > 1 {
      AllPiecesSnoc(files[1..]);
      assert files[1..][..|files| - 2] == files[..|files| - 1][1..];
      Reassociate(Pieces(first.rel, Wire.Fields(first.meta)), AllPieces(files[..|files| - 1][1..]), Pieces(last.rel, Wire.Fields(last.meta)));
    } else {
      assert AllPieces([]) == [] && files[..0] == [] && files[1..] == [];
      assert [] + Pieces(last.rel, Wire.Fields(last.meta)) == Pieces(last.rel, Wire.Fields(last.meta)) + [];
    }
  }

  // ----- reading them ------------------------------------------------------------------------------

  lemma ReadOneMore(before: seq<string>, line: string)
    ensures var b, last := Wire.ReadLines(before), Wire.ReadLine(line);
            Wire.ReadLines(before + [line])
            == if b.None? || last.Refuse? then None else if last.File? then Some(b.value[last.rel := last.meta]) else b
  {
    assert (before + [line])[..|before|] == before;
  }

  lemma {:induction false} PathReadsAs(before: seq<string>, r: Rel, meta: FileMeta)
    requires '\t' !in r
    ensures var b := Wire.ReadLines(before);
            Wire.ReadLines(before + Pieces(r, Wire.Fields(meta)))
            == if b.None? || !ValidRelpath(LastPart(r)) then None else Some(b.value[LastPart(r) := meta])
    decreases |r|
  {
    var n := Wire.FirstBreak(r);
    if n == |r| {
      WholePathReads(before, r, meta);
    } else {
      var front, back := r[..n], r[n + 1..];
      assert forall c :: c in front || c in back ==> c in r;
      SkippedLine(before, front);
      PathReadsAs(before + [front], back, meta);
      Reassociate(before, [front], Pieces(back, Wire.Fields(meta)));
    }
  }

  lemma WholePathReads(before: seq<string>, r: Rel, meta: FileMeta)
    requires '\t' !in r && Wire.FirstBreak(r) == |r|
    ensures var b := Wire.ReadLines(before);
            Wire.ReadLines(before + Pieces(r, Wire.Fields(meta)))
            == if b.None? || !ValidRelpath(LastPart(r)) then None else Some(b.value[LastPart(r) := meta])
  {
    var f := Wire.FileLine(r, meta);
    assert r[..|r|] == r;
    Wire.ShownFields(f);
    Wire.ShownReadsBack(f);
    ReadOneMore(before, Wire.Shown(f));
  }

  lemma SkippedLine(before: seq<string>, line: string)
    requires '\t' !in line
    ensures Wire.ReadLines(before + [line]) == Wire.ReadLines(before)
  {
    ReadOneMore(before, line);
  }

  lemma {:induction false} PiecesReadAs(files: seq<Wire.FileLine>)
    requires forall f :: f in files ==> Printable(f.rel)
    ensures Wire.ReadLines(AllPieces(files)) == TakenFor(files)
  {
    if files != [] {
      var n, last := |files| - 1, files[|files| - 1];
      PiecesReadAs(files[..n]);
      AllPiecesSnoc(files);
      PathReadsAs(AllPieces(files[..n]), last.rel, last.meta);
    }
  }

  // ----- one path ------------------------------------------------------------------------------------

  /** Which paths the answer names, and when it is refused. */
  lemma {:induction false} TakenForNames(files: seq<Wire.FileLine>)
    ensures TakenFor(files).None? <==> exists f :: f in files && !ValidRelpath(LastPart(f.rel))
    ensures TakenFor(files).Some? ==>
              forall p :: p in TakenFor(files).value <==> exists f :: f in files && LastPart(f.rel) == p
  {
    if files != [] {
      var n := |files| - 1;
      TakenForNames(files[..n]);
      assert files == files[..n] + [files[n]];
      assert forall f :: f in files <==> f in files[..n] || f == files[n];
    }
  }

  /** The last line that is taken for a path decides what is read for it. */
  lemma {:induction false} LastLineDecides(files: seq<Wire.FileLine>, i: nat)
    requires i < |files| && TakenFor(files).Some?
    requires forall j :: i < j < |files| ==> LastPart(files[j].rel) != LastPart(files[i].rel)
    ensures var t := TakenFor(files).value; LastPart(files[i].rel) in t && t[LastPart(files[i].rel)] == files[i].meta
  {
    if i < |files| - 1 {
      LastLineDecides(files[..|files| - 1], i);
      assert LastPart(files[|files| - 1].rel) != LastPart(files[i].rel);
    }
  }
}
