/** The ssh transfer drivers `sync_push._transfer_push` and `sync_pull._transfer_pull`:
    large files one by one over scp, the rest in ditto archives, stop at the first failure.
    The external tools are steps with a contract; an adversary picks every outcome. */
module Transfer {
  import opened Base
  import opened Planning
  import opened Batching
  import opened Chunking

  /** How one scp call or one archive step ends. Exit code 0 means every file it was given
      arrived; any other end may leave any part of them copied. */
  datatype StepOutcome =
    | Exited(rc: int, copied: set<Rel>, bytes: nat)
    | Raised(copied: set<Rel>)
  {
    predicate Succeeded() { Exited? && rc == 0 }
    function Claims(): nat { if Exited? then bytes else 0 }
  }

  /** What a driver hands back: an exit code and the bytes it claims, or an exception. */
  datatype Xfer = Xfer(rc: int, bytes: int) | Thrown {
    predicate Ok() { Xfer? && rc == 0 }
  }

  function Copied(w: World, dir: Direction, rels: set<Rel>): World {
    if dir.Push? then Apply(w, rels, {}) else Apply(w, {}, rels)
  }

  lemma CopiedTwice(w: World, dir: Direction, a: set<Rel>, b: set<Rel>)
    ensures Copied(Copied(w, dir, a), dir, b) == Copied(w, dir, a + b)
  {
    OverlayTwice(w.remote, w.local, a, b);
    OverlayTwice(w.local, w.remote, a, b);
    OverlayNothing(w.local, w.remote);
    OverlayNothing(w.remote, w.local);
  }

  lemma OverlayTwice(dst: Tree, src: Tree, a: set<Rel>, b: set<Rel>)
    ensures Overlay(Overlay(dst, src, a), src, b) == Overlay(dst, src, a + b)
  {
    var once, twice := Overlay(dst, src, a + b), Overlay(Overlay(dst, src, a), src, b);
    forall rel ensures Get(once, rel) == Get(twice, rel) {}
    SameLookups(once, twice);
  }

  lemma OverlayNothing(dst: Tree, src: Tree)
    ensures Overlay(dst, src, {}) == dst
  {
    SameLookups(Overlay(dst, src, {}), dst);
  }

  /** The files one step moves. */
  function Effect(rels: seq<Rel>, outcome: StepOutcome): set<Rel> {
    if outcome.Succeeded() then Elems(rels) else outcome.copied * Elems(rels)
  }

  /** The files the first `n` steps move when all of them succeed. */
  ghost function Covered(units: seq<seq<Rel>>, n: nat): set<Rel>
    requires n <= |units|
  {
    Elems(Flat(units[..n]))
  }

  /** The steps of a transfer: each large file alone, then next-fit archives of the others. */
  ghost predicate AreUnits(units: seq<seq<Rel>>, rels: seq<Rel>, sizes: map<Rel, int>) {
    var large := Kept(rels, sizes, true);
    && |large| <= |units|
    && (forall i :: 0 <= i < |large| ==> units[i] == [large[i]])
    && Flat(units[|large|..]) == Kept(rels, sizes, false)
    && NextFit(units[|large|..], NormalSizes(rels, sizes), CHUNK_BYTES, CHUNK_FILES)
  }

  /** The driver passes the batcher the sizes of the files below the large-file limit. */
  ghost function NormalSizes(rels: seq<Rel>, sizes: map<Rel, int>): map<Rel, int> {
    map r | r in sizes && r in Elems(Kept(rels, sizes, false)) :: sizes[r]
  }

  /** What the driver did: `done` steps succeeded, the next one, if any, failed or raised
      and nothing after it ran. */
  ghost predicate StoppedAtFirstFailure(units: seq<seq<Rel>>, steps: nat -> StepOutcome, done: nat, moved: set<Rel>, x: Xfer) {
    && done <= |units|
    && (forall i :: 0 <= i < done ==> steps(i).Succeeded())
    && (done == |units| ==> x.Ok() && moved == Covered(units, done))
    && (done < |units| ==>
          && !steps(done).Succeeded()
          && moved == Covered(units, done) + Effect(units[done], steps(done))
          && (if steps(done).Raised? then x.Thrown? else x.Xfer? && x.rc == steps(done).rc))
  }

  /** The first `n` steps, those of the large files, succeeded and nothing else ran. */
  ghost predicate LargeAreDone(units: seq<seq<Rel>>, n: nat, steps: nat -> StepOutcome, moved: set<Rel>) {
    && n <= |units| && moved == Covered(units, n)
    && forall k :: 0 <= k < n ==> steps(k).Succeeded()
  }

  /** The bytes claimed by the steps from `lo` up to `hi`. */
  ghost function StepBytes(steps: nat -> StepOutcome, lo: nat, hi: nat): nat
    requires lo <= hi
  {
    if lo == hi then 0 else StepBytes(steps, lo, hi - 1) + steps(hi - 1).Claims()
  }

  /** The bytes a driver reports after `done` steps: nothing while large files are going out,
      then their planned sizes and what each archive step claims. */
  ghost function Reported(large: seq<Rel>, sizes: map<Rel, int>, steps: nat -> StepOutcome, done: nat): int {
    if done < |large| then 0 else Bytes(large, sizes) + StepBytes(steps, |large|, done)
  }

  /** What a driver does with a list: its steps, where they stopped, and what it reports. */
  ghost predicate Driven(rels: seq<Rel>, sizes: map<Rel, int>, steps: nat -> StepOutcome,
                         units: seq<seq<Rel>>, done: nat, moved: set<Rel>, x: Xfer)
  {
    && AreUnits(units, rels, sizes)
    && StoppedAtFirstFailure(units, steps, done, moved, x)
    && (x.Xfer? ==> x.bytes == Reported(Kept(rels, sizes, true), sizes, steps, done))
  }

  /** The two trees of one peer during a run; nobody else edits them. */
  class SyncPair {
    var local: Tree
    var remote: Tree

    constructor (local: Tree, remote: Tree)
      ensures Now() == World(local, remote)
    {
      this.local, this.remote := local, remote;
    }

    function Now(): World
      reads this
    {
      World(local, remote)
    }

    method CopyStep(dir: Direction, rels: seq<Rel>, outcome: StepOutcome) returns (x: Xfer)
      modifies this
      ensures Now() == Copied(old(Now()), dir, Effect(rels, outcome))
      ensures x == if outcome.Raised? then Thrown else Xfer(outcome.rc, outcome.bytes)
    {
      var moved := Effect(rels, outcome);
      OverlayNothing(local, remote);
      OverlayNothing(remote, local);
      if dir.Push? {
        remote := Overlay(remote, local, moved);
      } else {
        local := Overlay(local, remote, moved);
      }
      x := if outcome.Raised? then Thrown else Xfer(outcome.rc, outcome.bytes);
    }

    /** `_transfer_large_files_push` / `_pull`: one scp per file. The steps planned after them
        are only spoken of. */
    method TransferLargeFiles(dir: Direction, large: seq<Rel>, ghost after: seq<seq<Rel>>, sizes: map<Rel, int>,
                              steps: nat -> StepOutcome)
      returns (x: Xfer, ghost done: nat, ghost moved: set<Rel>)
      modifies this
      ensures Now() == Copied(old(Now()), dir, moved)
      ensures x.Ok() ==> LargeAreDone(Singles(large) + after, |large|, steps, moved) && x.bytes == Bytes(large, sizes)
      ensures !x.Ok() ==> done < |large| && StoppedAtFirstFailure(Singles(large) + after, steps, done, moved, x)
    {
      ghost var units := Singles(large) + after;
      SinglesAre(large);
      moved, done := {}, 0;
      var bytes := 0;
      CopiedNothing(Now(), dir);
      assert Covered(units, 0) == {};
      for i := 0 to |large|
        invariant done == i && moved == Covered(units, i)
        invariant Now() == Copied(old(Now()), dir, moved)
        invariant bytes == Bytes(large[..i], sizes)
        invariant forall k :: 0 <= k < i ==> steps(k).Succeeded()
      {
        x := CopyStep(dir, [large[i]], steps(i));
        CopiedTwice(old(Now()), dir, moved, Effect(units[i], steps(i)));
        moved := moved + Effect(units[i], steps(i));
        if !x.Ok() {
          return;
        }
        CoveredNext(units, i);
        assert large[..i + 1] == large[..i] + [large[i]];
        SumSnoc(large[..i], large[i], SizeFn(sizes));
        done := done + 1;
        bytes := bytes + SizeOr0(sizes, large[i]);
      }
      assert large[..|large|] == large;
      x := Xfer(0, bytes);
    }

    /** The driver of one direction. A failing large file is reported with no bytes done,
        whatever was copied before it. */
    method TransferList(dir: Direction, rels: seq<Rel>, sizes: map<Rel, int>, dryRun: bool, steps: nat -> StepOutcome)
      returns (x: Xfer, ghost units: seq<seq<Rel>>, ghost done: nat, ghost moved: set<Rel>)
      modifies this
      ensures Now() == Copied(old(Now()), dir, moved)
      ensures dryRun ==> moved == {} && x == Xfer(0, Bytes(rels, sizes))
      ensures !dryRun ==> Driven(rels, sizes, steps, units, done, moved, x)
    {
      units, done, moved := [], 0, {};
      CopiedNothing(Now(), dir);
      if rels == [] {
        NoUnits(sizes);
        x := Xfer(0, 0);
        return;
      }
      var normal, large := SplitLargeFiles(rels, sizes);
      if dryRun {
        x := Xfer(0, Bytes(rels, sizes));
        return;
      }
      x, units, done, moved := TransferParts(dir, rels, sizes, normal, large, steps);
    }

    /** Large files, then archives of the normal ones. */
    method TransferParts(dir: Direction, ghost rels: seq<Rel>, sizes: map<Rel, int>, normal: seq<Rel>, large: seq<Rel>,
                         steps: nat -> StepOutcome)
      returns (x: Xfer, ghost units: seq<seq<Rel>>, ghost done: nat, ghost moved: set<Rel>)
      requires normal == Kept(rels, sizes, false) && large == Kept(rels, sizes, true)
      modifies this
      ensures Now() == Copied(old(Now()), dir, moved)
      ensures Driven(rels, sizes, steps, units, done, moved, x)
    {
      var nSizes := map r | r in sizes && r in Elems(normal) :: sizes[r];
      var batches := ChunkRels(normal, nSizes, CHUNK_BYTES, CHUNK_FILES);
      assert nSizes == NormalSizes(rels, sizes);
      units := Singles(large) + batches;
      UnitsAre(units, rels, sizes, batches);
      CopiedNothing(Now(), dir);
      moved := {};
      var total := 0;
      if large != [] {
        x, done, moved := TransferLargeFiles(dir, large, batches, sizes, steps);
        if !x.Ok() {
          x := if x.Thrown? then Thrown else Xfer(x.rc, 0);
          StoppedAtLarge(rels, sizes, steps, units, done, moved, x);
          return;
        }
        total := x.bytes;
      }
      assert LargeAreDone(units, |large|, steps, moved) && total == Bytes(large, sizes);
      if normal == [] {
        NoArchives(batches, nSizes);
        x, done := Xfer(0, total), |large|;
        AllLarge(rels, sizes, steps, units, moved);
        return;
      }
      x, done, moved := TransferArchives(dir, batches, units, |large|, moved, old(Now()), total, steps);
      AfterArchives(rels, sizes, steps, units, done, moved, x);
    }

    /** The loop over the archives, after the large files went out. */
    method TransferArchives(dir: Direction, batches: seq<seq<Rel>>, ghost units: seq<seq<Rel>>, before: nat,
                            ghost sent: set<Rel>, ghost start: World, bytes: int, steps: nat -> StepOutcome)
      returns (x: Xfer, ghost done: nat, ghost moved: set<Rel>)
      requires LargeAreDone(units, before, steps, sent) && units[before..] == batches
      requires Now() == Copied(start, dir, sent)
      modifies this
      ensures Now() == Copied(start, dir, moved)
      ensures StoppedAtFirstFailure(units, steps, done, moved, x) && before <= done
      ensures x.Xfer? ==> x.bytes == bytes + StepBytes(steps, before, done)
    {
      done, moved := before, sent;
      var total := bytes;
      for i := 0 to |batches|
        invariant done == before + i && moved == Covered(units, done)
        invariant total == bytes + StepBytes(steps, before, done)
        invariant Now() == Copied(start, dir, moved)
        invariant forall k :: 0 <= k < done ==> steps(k).Succeeded()
      {
        x := CopyStep(dir, batches[i], steps(before + i));
        CopiedTwice(start, dir, moved, Effect(units[done], steps(done)));
        moved := moved + Effect(units[done], steps(done));
        if !x.Ok() {
          x := if x.Thrown? then Thrown else Xfer(x.rc, total);
          return;
        }
        CoveredNext(units, done);
        done := done + 1;
        total := total + x.bytes;
      }
      x := Xfer(0, total);
    }
  }

  function Singles(rels: seq<Rel>): seq<seq<Rel>> {
    seq(|rels|, i requires 0 <= i < |rels| => [rels[i]])
  }

  lemma {:induction false} SinglesAre(rels: seq<Rel>)
    ensures |Singles(rels)| == |rels| && forall i :: 0 <= i < |rels| ==> Singles(rels)[i] == [rels[i]]
    ensures Flat(Singles(rels)) == rels
  {
    if rels != [] {
      SinglesAre(rels[1..]);
      assert Singles(rels)[1..] == Singles(rels[1..]);
    }
  }

  lemma CopiedNothing(w: World, dir: Direction)
    ensures Copied(w, dir, {}) == w
  {
    OverlayNothing(w.local, w.remote);
    OverlayNothing(w.remote, w.local);
  }

  lemma CoveredNext(units: seq<seq<Rel>>, n: nat)
    requires n < |units|
    ensures Covered(units, n + 1) == Covered(units, n) + Elems(units[n])
  {
    assert units[..n + 1] == units[..n] + [units[n]];
    FlatSnoc(units[..n], units[n]);
  }

  lemma StoppedAtLarge(rels: seq<Rel>, sizes: map<Rel, int>, steps: nat -> StepOutcome,
                       units: seq<seq<Rel>>, done: nat, moved: set<Rel>, x: Xfer)
    requires AreUnits(units, rels, sizes) && done < |Kept(rels, sizes, true)|
    requires StoppedAtFirstFailure(units, steps, done, moved, x) && (x.Xfer? ==> x.bytes == 0)
    ensures Driven(rels, sizes, steps, units, done, moved, x)
  {}

  lemma AllLarge(rels: seq<Rel>, sizes: map<Rel, int>, steps: nat -> StepOutcome, units: seq<seq<Rel>>, moved: set<Rel>)
    requires AreUnits(units, rels, sizes) && |units| == |Kept(rels, sizes, true)|
    requires LargeAreDone(units, |units|, steps, moved)
    ensures Driven(rels, sizes, steps, units, |units|, moved, Xfer(0, Bytes(Kept(rels, sizes, true), sizes)))
  {}

  lemma AfterArchives(rels: seq<Rel>, sizes: map<Rel, int>, steps: nat -> StepOutcome,
                      units: seq<seq<Rel>>, done: nat, moved: set<Rel>, x: Xfer)
    requires AreUnits(units, rels, sizes) && StoppedAtFirstFailure(units, steps, done, moved, x)
    requires var large := Kept(rels, sizes, true);
             |large| <= done && (x.Xfer? ==> x.bytes == Bytes(large, sizes) + StepBytes(steps, |large|, done))
    ensures Driven(rels, sizes, steps, units, done, moved, x)
  {}

  lemma NoArchives(batches: seq<seq<Rel>>, sizes: map<Rel, int>)
    requires Flat(batches) == [] && NextFit(batches, sizes, CHUNK_BYTES, CHUNK_FILES)
    ensures batches == []
  {
    FlatIsEmptyIff(batches, sizes, CHUNK_BYTES, CHUNK_FILES);
  }

  lemma NoUnits(sizes: map<Rel, int>)
    ensures AreUnits([], [], sizes)
  {
    assert Kept([], sizes, true) == [] && Kept([], sizes, false) == [];
  }

  lemma UnitsAre(units: seq<seq<Rel>>, rels: seq<Rel>, sizes: map<Rel, int>, batches: seq<seq<Rel>>)
    requires units == Singles(Kept(rels, sizes, true)) + batches
    requires Flat(batches) == Kept(rels, sizes, false)
    requires NextFit(batches, NormalSizes(rels, sizes), CHUNK_BYTES, CHUNK_FILES)
    ensures AreUnits(units, rels, sizes)
  {
    var large := Kept(rels, sizes, true);
    SinglesAre(large);
    assert units[|large|..] == batches;
  }

  // ----- consequences ---------------------------------------------------------------------

  /** Every file of the list goes out in exactly one step. */
  lemma UnitsCoverTheListOnce(units: seq<seq<Rel>>, rels: seq<Rel>, sizes: map<Rel, int>)
    requires AreUnits(units, rels, sizes)
    ensures multiset(Flat(units)) == multiset(rels)
    ensures Covered(units, |units|) == Elems(rels)
  {
    var n := |Kept(rels, sizes, true)|;
    LargeFirst(units, rels, sizes);
    FlatSplit(units, n);
    NothingDropped(rels, sizes);
    SameElems(Flat(units), rels);
    assert units[..|units|] == units;
  }

  lemma FlatSplit(units: seq<seq<Rel>>, n: nat)
    requires n <= |units|
    ensures multiset(Flat(units)) == multiset(Flat(units[n..])) + multiset(Flat(units[..n]))
  {
    assert units == units[..n] + units[n..];
    FlatAppend(units[..n], units[n..]);
  }

  lemma LargeFirst(units: seq<seq<Rel>>, rels: seq<Rel>, sizes: map<Rel, int>)
    requires AreUnits(units, rels, sizes)
    ensures Flat(units[..|Kept(rels, sizes, true)|]) == Kept(rels, sizes, true)
  {
    var large := Kept(rels, sizes, true);
    SinglesAre(large);
    assert units[..|large|] == Singles(large);
  }

  lemma SameElems(a: seq<Rel>, b: seq<Rel>)
    requires multiset(a) == multiset(b)
    ensures Elems(a) == Elems(b)
  {
    forall r ensures r in a <==> r in b { assert r in multiset(a) <==> r in multiset(b); }
  }

  lemma {:induction false} FlatAppend(a: seq<seq<Rel>>, b: seq<seq<Rel>>)
    ensures Flat(a + b) == Flat(a) + Flat(b)
  {
    if a == [] {
      assert a + b == b;
    } else {
      FlatAppend(a[1..], b);
      assert (a + b)[0] == a[0] && (a + b)[1..] == a[1..] + b;
      Reassociate(a[0], Flat(a[1..]), Flat(b));
    }
  }

  /** The contract the ladder relies on: exit code 0 means the whole list arrived, and in any
      case only files of the list moved. */
  lemma DriverContract(units: seq<seq<Rel>>, rels: seq<Rel>, sizes: map<Rel, int>, steps: nat -> StepOutcome,
                       done: nat, moved: set<Rel>, x: Xfer)
    requires AreUnits(units, rels, sizes) && StoppedAtFirstFailure(units, steps, done, moved, x)
    ensures moved <= Elems(rels)
    ensures x.Ok() ==> moved == Elems(rels)
  {
    UnitsCoverTheListOnce(units, rels, sizes);
    if done < |units| {
      CoveredNext(units, done);
      CoveredGrows(units, done + 1, |units|);
    }
  }

  lemma {:induction false} CoveredGrows(units: seq<seq<Rel>>, n: nat, m: nat)
    requires n <= m <= |units|
    ensures Covered(units, n) <= Covered(units, m)
    decreases m - n
  {
    if n < m {
      CoveredNext(units, n);
      CoveredGrows(units, n + 1, m);
    }
  }

  /** No archive step carries 3 GiB or more. */
  lemma ArchiveStepsStaySmall(units: seq<seq<Rel>>, rels: seq<Rel>, sizes: map<Rel, int>, i: nat)
    requires AreUnits(units, rels, sizes) && |Kept(rels, sizes, true)| <= i < |units|
    ensures Bytes(units[i], sizes) < LARGE_FILE_BYTES && |units[i]| <= CHUNK_FILES
  {
    var n := |Kept(rels, sizes, true)|;
    var batches, kept := units[n..], NormalSizes(rels, sizes);
    forall r | r in Flat(batches) ensures SizeOr0(kept, r) == SizeOr0(sizes, r) {
      assert r in Elems(Kept(rels, sizes, false));
    }
    BatchesStaySmall(rels, sizes, kept, batches, i - n);
  }

  // ----- what a failing driver does not report --------------------------------------------------

  /** A driver stays silent about what it did: it stopped at a large file, or there is none and
      no archive that went out was claimed to hold a byte. */
  ghost predicate Silent(rels: seq<Rel>, sizes: map<Rel, int>, steps: nat -> StepOutcome, done: nat) {
    var large := Kept(rels, sizes, true);
    done < |large| || (large == [] && forall i :: 0 <= i < done ==> steps(i).Claims() == 0)
  }

  /** When files moved and none of it is reported: exactly when the driver is silent and either
      a step had succeeded or the failing one had copied some of its files. */
  lemma MovedUnreportedIff(rels: seq<Rel>, sizes: map<Rel, int>, steps: nat -> StepOutcome,
                           units: seq<seq<Rel>>, done: nat, moved: set<Rel>, x: Xfer)
    requires Driven(rels, sizes, steps, units, done, moved, x) && x.Xfer?
    ensures x.bytes == 0 <==> Silent(rels, sizes, steps, done)
    ensures moved != {} <==> done > 0 || (units != [] && Effect(units[0], steps(0)) != {})
  {
    var large := Kept(rels, sizes, true);
    LargeWeighs(rels, sizes);
    if |large| <= done {
      NoBytesIff(steps, |large|, done);
    }
    SomethingMovedIff(rels, sizes, steps, units, done, moved, x);
  }

  lemma LargeWeighs(rels: seq<Rel>, sizes: map<Rel, int>)
    ensures Bytes(Kept(rels, sizes, true), sizes) >= 0
    ensures Bytes(Kept(rels, sizes, true), sizes) == 0 <==> Kept(rels, sizes, true) == []
  {
    var large := Kept(rels, sizes, true);
    KeptAreOfOneKind(rels, sizes, true);
    if large != [] {
      assert large[0] in large;
      forall r | r in large[1..] ensures r in large {}
      SumNonNegative(large[1..], SizeFn(sizes));
    }
  }

  lemma {:induction false} NoBytesIff(steps: nat -> StepOutcome, lo: nat, hi: nat)
    requires lo <= hi
    ensures StepBytes(steps, lo, hi) == 0 <==> forall i :: lo <= i < hi ==> steps(i).Claims() == 0
  {
    if lo < hi {
      NoBytesIff(steps, lo, hi - 1);
    }
  }

  lemma SomethingMovedIff(rels: seq<Rel>, sizes: map<Rel, int>, steps: nat -> StepOutcome,
                          units: seq<seq<Rel>>, done: nat, moved: set<Rel>, x: Xfer)
    requires Driven(rels, sizes, steps, units, done, moved, x)
    ensures moved != {} <==> done > 0 || (units != [] && Effect(units[0], steps(0)) != {})
  {
    assert Covered(units, 0) == {};
    if done > 0 {
      FirstUnit(rels, sizes, units);
      InFlat(units[..done], 0, units[0][0]);
      assert units[0][0] in Covered(units, done);
    }
  }

  lemma FirstUnit(rels: seq<Rel>, sizes: map<Rel, int>, units: seq<seq<Rel>>)
    requires AreUnits(units, rels, sizes) && units != []
    ensures units[0] != []
  {
    var large := Kept(rels, sizes, true);
    if large == [] {
      assert Fits(units[|large|..][0], NormalSizes(rels, sizes), CHUNK_BYTES, CHUNK_FILES);
    }
  }

  /** Two small files in one archive, whose step fails behind the first of them: one file moved and
      no byte is reported. */
  lemma ArchiveMovedUnreported(a: Rel, b: Rel, sizes: map<Rel, int>, steps: nat -> StepOutcome)
    requires a == "a" && b == "b" && sizes == map[a := 1, b := 1] && steps(0) == Exited(1, {a}, 0)
    ensures Driven([a, b], sizes, steps, [[a, b]], 0, {a}, Xfer(1, 0))
  {
    var rels, units := [a, b], [[a, b]];
    OfOneKind(a, b, sizes, false);
    OneArchive(a, b, NormalSizes(rels, sizes));
    assert units[0..] == units && units[..0] == [];
    assert Covered(units, 0) == {};
    assert a in Elems(rels);
    assert Effect(units[0], steps(0)) == {a};
  }

  /** Two large files, of which the second fails: the first moved and no byte is reported. */
  lemma LargeFileMovedUnreported(a: Rel, b: Rel, sizes: map<Rel, int>, steps: nat -> StepOutcome)
    requires a == "a" && b == "b" && sizes == map[a := LARGE_FILE_BYTES, b := LARGE_FILE_BYTES]
    requires steps(0) == Exited(0, {}, 0) && steps(1) == Exited(1, {}, 0)
    ensures Driven([a, b], sizes, steps, [[a], [b]], 1, {a}, Xfer(1, 0))
  {
    var rels, units := [a, b], [[a], [b]];
    OfOneKind(a, b, sizes, true);
    assert units[2..] == [];
    CoveredFirst(a, units);
  }

  lemma CoveredFirst(a: Rel, units: seq<seq<Rel>>)
    requires units != [] && units[0] == [a]
    ensures Covered(units, 1) == {a}
  {
    assert units[..1] == [[a]] && [[a]][1..] == [];
    assert Flat([[a]]) == [a];
  }

  lemma OfOneKind(a: Rel, b: Rel, sizes: map<Rel, int>, large: bool)
    requires Large(a, sizes) == large && Large(b, sizes) == large
    ensures Kept([a, b], sizes, large) == [a, b] && Kept([a, b], sizes, !large) == []
  {
    assert [a, b][..1] == [a] && [a][..0] == [];
    assert Kept([a], sizes, large) == [a] && Kept([a], sizes, !large) == [];
  }

  lemma OneArchive(a: Rel, b: Rel, sizes: map<Rel, int>)
    requires sizes == map[a := 1, b := 1]
    ensures NextFit([[a, b]], sizes, CHUNK_BYTES, CHUNK_FILES) && Flat([[a, b]]) == [a, b]
  {
    assert [[a, b]][1..] == [];
    SumSnoc([a], b, SizeFn(sizes));
    SumSnoc([], a, SizeFn(sizes));
    assert [a] + [b] == [a, b] && [] + [a] == [a];
  }
}
