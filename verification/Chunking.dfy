/** Slicing a transfer list for ditto and scp: `sync_plan._chunk_rels` (next-fit batches)
    and `_split_large_files`. */
module Chunking {
  import opened Base
  import opened Batching

  const CHUNK_BYTES: int := 2 * 1024 * 1024 * 1024
  const CHUNK_FILES: int := 120
  const LARGE_FILE_BYTES: int := 3 * 1024 * 1024 * 1024

  function SizeFn(sizes: map<Rel, int>): Rel -> int {
    r => SizeOr0(sizes, r)
  }

  function Bytes(rels: seq<Rel>, sizes: map<Rel, int>): int {
    SumOf(rels, SizeFn(sizes))
  }

  /** The files of the batches, in order. */
  function Flat(batches: seq<seq<Rel>>): seq<Rel> {
    if batches == [] then [] else batches[0] + Flat(batches[1..])
  }

  /** Within both caps, or a single file; a byte cap of zero or less is no cap. */
  ghost predicate Fits(batch: seq<Rel>, sizes: map<Rel, int>, maxBytes: int, maxFiles: int) {
    && batch != []
    && (|batch| > 1 ==> |batch| <= maxFiles && (maxBytes > 0 ==> Bytes(batch, sizes) <= maxBytes))
  }

  /** A split after a full batch is due to the file cap; any other to the byte cap. */
  ghost predicate FileSplit(batch: seq<Rel>, maxFiles: int) {
    |batch| >= maxFiles
  }

  /** The next batch was opened only because its first file did not go into this one. */
  ghost predicate Forced(batch: seq<Rel>, next: seq<Rel>, sizes: map<Rel, int>, maxBytes: int, maxFiles: int) {
    && next != []
    && (FileSplit(batch, maxFiles)
        || (maxBytes > 0 && Bytes(batch, sizes) + SizeOr0(sizes, next[0]) > maxBytes))
  }

  /** Next-fit: every batch fits and every split was forced. */
  ghost predicate NextFit(batches: seq<seq<Rel>>, sizes: map<Rel, int>, maxBytes: int, maxFiles: int) {
    && (forall i :: 0 <= i < |batches| ==> Fits(batches[i], sizes, maxBytes, maxFiles))
    && (forall i :: 0 <= i < |batches| - 1 ==> Forced(batches[i], batches[i + 1], sizes, maxBytes, maxFiles))
  }

  method ChunkRels(rels: seq<Rel>, sizes: map<Rel, int>, maxBytes: int, maxFiles: int) returns (batches: seq<seq<Rel>>)
    ensures Flat(batches) == rels
    ensures NextFit(batches, sizes, maxBytes, maxFiles)
  {
    batches := [];
    if rels == [] {
      return;
    }
    var cur: seq<Rel> := [];
    var curBytes := 0;
    for i := 0 to |rels|
      invariant Flat(batches) + cur == rels[..i]
      invariant curBytes == Bytes(cur, sizes)
      invariant cur == [] ==> batches == []
      invariant cur != [] ==> NextFit(batches + [cur], sizes, maxBytes, maxFiles)
    {
      var r := rels[i];
      var sz := SizeOr0(sizes, r);
      assert rels[..i + 1] == rels[..i] + [r];
      SumSnoc(cur, r, SizeFn(sizes));
      SumSnoc([], r, SizeFn(sizes));
      if cur != [] && (|cur| >= maxFiles || (maxBytes > 0 && curBytes + sz > maxBytes)) {
        FlatSnoc(batches, cur);
        NextFitOpens(batches, cur, r, sizes, maxBytes, maxFiles);
        batches := batches + [cur];
        cur := [];
        curBytes := 0;
      } else {
        NextFitGrows(batches, cur, r, sizes, maxBytes, maxFiles);
      }
      assert [] + [r] == [r];
      cur := cur + [r];
      curBytes := curBytes + sz;
    }
    assert rels[..|rels|] == rels;
    FlatSnoc(batches, cur);
    if cur != [] {
      batches := batches + [cur];
    }
  }

  lemma NextFitOpens(batches: seq<seq<Rel>>, cur: seq<Rel>, r: Rel, sizes: map<Rel, int>, maxBytes: int, maxFiles: int)
    requires NextFit(batches + [cur], sizes, maxBytes, maxFiles)
    requires |cur| >= maxFiles || (maxBytes > 0 && Bytes(cur, sizes) + SizeOr0(sizes, r) > maxBytes)
    ensures NextFit(batches + [cur] + [[r]], sizes, maxBytes, maxFiles)
  {
    var before, after := batches + [cur], batches + [cur] + [[r]];
    forall i | 0 <= i < |after| - 1 ensures Forced(after[i], after[i + 1], sizes, maxBytes, maxFiles) {
      if i < |before| - 1 {
        assert after[i] == before[i] && after[i + 1] == before[i + 1];
      }
    }
  }

  lemma NextFitGrows(batches: seq<seq<Rel>>, cur: seq<Rel>, r: Rel, sizes: map<Rel, int>, maxBytes: int, maxFiles: int)
    requires if cur == [] then batches == [] else NextFit(batches + [cur], sizes, maxBytes, maxFiles)
    requires cur != [] ==> |cur| < maxFiles && (maxBytes > 0 ==> Bytes(cur, sizes) + SizeOr0(sizes, r) <= maxBytes)
    ensures NextFit(batches + [cur + [r]], sizes, maxBytes, maxFiles)
  {
    var before, after := batches + [cur], batches + [cur + [r]];
    SumSnoc(cur, r, SizeFn(sizes));
    forall i | 0 <= i < |after| ensures Fits(after[i], sizes, maxBytes, maxFiles) {
      if i < |batches| { assert after[i] == before[i]; }
    }
    forall i | 0 <= i < |after| - 1 ensures Forced(after[i], after[i + 1], sizes, maxBytes, maxFiles) {
      assert after[i] == before[i] && Forced(before[i], before[i + 1], sizes, maxBytes, maxFiles);
    }
  }

  // ----- the contract leaves no choice ---------------------------------------------

  /** Two next-fit slicings of one list are equal, so the contract of ChunkRels determines
      its result. */
  lemma {:induction false} NextFitIsUnique(a: seq<seq<Rel>>, b: seq<seq<Rel>>, sizes: map<Rel, int>, maxBytes: int, maxFiles: int)
    requires NextFit(a, sizes, maxBytes, maxFiles) && NextFit(b, sizes, maxBytes, maxFiles)
    requires Flat(a) == Flat(b) && NonNegative(sizes)
    ensures a == b
  {
    FlatIsEmptyIff(a, sizes, maxBytes, maxFiles);
    FlatIsEmptyIff(b, sizes, maxBytes, maxFiles);
    if a != [] {
      FirstBatchNotLonger(a, b, sizes, maxBytes, maxFiles);
      FirstBatchNotLonger(b, a, sizes, maxBytes, maxFiles);
      var l := Flat(a);
      assert a[0] == l[..|a[0]|] && b[0] == l[..|a[0]|];
      assert Flat(a[1..]) == l[|a[0]|..] && Flat(b[1..]) == l[|a[0]|..];
      NextFitTail(a, sizes, maxBytes, maxFiles);
      NextFitTail(b, sizes, maxBytes, maxFiles);
      NextFitIsUnique(a[1..], b[1..], sizes, maxBytes, maxFiles);
      assert a == [a[0]] + a[1..] && b == [b[0]] + b[1..];
    }
  }

  lemma FlatIsEmptyIff(a: seq<seq<Rel>>, sizes: map<Rel, int>, maxBytes: int, maxFiles: int)
    requires NextFit(a, sizes, maxBytes, maxFiles)
    ensures Flat(a) == [] <==> a == []
    ensures a != [] ==> a[0] != []
  {
    assert a != [] ==> Fits(a[0], sizes, maxBytes, maxFiles);
  }

  lemma {:induction false} FlatSnoc(batches: seq<seq<Rel>>, last: seq<Rel>)
    ensures Flat(batches + [last]) == Flat(batches) + last
  {
    if batches != [] {
      FlatSnoc(batches[1..], last);
      assert (batches + [last])[1..] == batches[1..] + [last];
    } else {
      assert ([] + [last])[1..] == [];
    }
  }

  lemma NextFitTail(a: seq<seq<Rel>>, sizes: map<Rel, int>, maxBytes: int, maxFiles: int)
    requires a != [] && NextFit(a, sizes, maxBytes, maxFiles)
    ensures NextFit(a[1..], sizes, maxBytes, maxFiles)
  {
    forall i | 0 <= i < |a[1..]| - 1 ensures Forced(a[1..][i], a[1..][i + 1], sizes, maxBytes, maxFiles) {
      assert Forced(a[i + 1], a[i + 2], sizes, maxBytes, maxFiles);
    }
  }

  ghost predicate NonNegative(sizes: map<Rel, int>) {
    forall r :: r in sizes ==> sizes[r] >= 0
  }

  lemma BytesPrefix(rels: seq<Rel>, k: nat, sizes: map<Rel, int>)
    requires k <= |rels| && NonNegative(sizes)
    ensures 0 <= Bytes(rels[..k], sizes) <= Bytes(rels, sizes)
  {
    assert rels == rels[..k] + rels[k..];
    SumAppend(rels[..k], rels[k..], SizeFn(sizes));
    SumNonNegative(rels[..k], SizeFn(sizes));
    SumNonNegative(rels[k..], SizeFn(sizes));
  }

  /** If `a` started with a shorter batch than `b`, its first split was not forced: `b`'s
      first batch takes that file as well. */
  lemma FirstBatchNotLonger(a: seq<seq<Rel>>, b: seq<seq<Rel>>, sizes: map<Rel, int>, maxBytes: int, maxFiles: int)
    requires a != [] && b != [] && NextFit(a, sizes, maxBytes, maxFiles) && NextFit(b, sizes, maxBytes, maxFiles)
    requires Flat(a) == Flat(b) && NonNegative(sizes)
    ensures |b[0]| <= |a[0]|
  {
    assert Fits(b[0], sizes, maxBytes, maxFiles);
    if |b[0]| > |a[0]| {
      NextFile(a, b, sizes, maxBytes, maxFiles);
      BytesPrefix(b[0], |a[0]| + 1, sizes);
      SumSnoc(a[0], a[1][0], SizeFn(sizes));
      assert false;
    }
  }

  /** The file that opens `a`'s second batch is the next one in `b`'s first. */
  lemma NextFile(a: seq<seq<Rel>>, b: seq<seq<Rel>>, sizes: map<Rel, int>, maxBytes: int, maxFiles: int)
    requires a != [] && b != [] && NextFit(a, sizes, maxBytes, maxFiles)
    requires Flat(a) == Flat(b) && |b[0]| > |a[0]|
    ensures |a| > 1 && Forced(a[0], a[1], sizes, maxBytes, maxFiles) && b[0][..|a[0]| + 1] == a[0] + [a[1][0]]
  {
    LongerFront(a[0], Flat(a[1..]), b[0], Flat(b[1..]));
    NextFitTail(a, sizes, maxBytes, maxFiles);
    FlatIsEmptyIff(a[1..], sizes, maxBytes, maxFiles);
    assert Flat(a[1..])[0] == a[1..][0][0];
  }

  lemma LongerFront<T>(x: seq<T>, y: seq<T>, u: seq<T>, v: seq<T>)
    requires x + y == u + v && |u| > |x|
    ensures y != [] && u[..|x| + 1] == x + [y[0]]
  {
    assert y != [] by { assert |x + y| == |u + v|; }
    assert u == (u + v)[..|u|];
    assert u[..|x| + 1] == (x + y)[..|x| + 1];
  }

  // ----- how many batches --------------------------------------------------------------

  ghost function FileSplits(batches: seq<seq<Rel>>, maxFiles: int): nat {
    if |batches| <= 1 then 0 else (if FileSplit(batches[0], maxFiles) then 1 else 0) + FileSplits(batches[1..], maxFiles)
  }

  ghost function ByteSplits(batches: seq<seq<Rel>>, maxFiles: int): nat {
    if |batches| <= 1 then 0 else (if FileSplit(batches[0], maxFiles) then 0 else 1) + ByteSplits(batches[1..], maxFiles)
  }

  /** The packing bound: every batch but the last is closed by one of the two caps, each
      file-cap split spends a full file cap, and each byte-cap split at least half a byte cap. */
  lemma {:induction false} PackingBound(batches: seq<seq<Rel>>, sizes: map<Rel, int>, maxBytes: int, maxFiles: int)
    requires NextFit(batches, sizes, maxBytes, maxFiles) && NonNegative(sizes)
    requires maxBytes > 0 && maxFiles > 0
    ensures batches != [] ==> |batches| == 1 + ByteSplits(batches, maxFiles) + FileSplits(batches, maxFiles)
    ensures FileSplits(batches, maxFiles) * maxFiles <= |Flat(batches)|
    ensures ByteSplits(batches, maxFiles) * maxBytes <= 2 * Bytes(Flat(batches), sizes) - FirstFile(batches, sizes)
  {
    if batches == [] {
    } else if |batches| == 1 {
      OneBatch(batches, sizes);
    } else {
      NextFitTail(batches, sizes, maxBytes, maxFiles);
      PackingBound(batches[1..], sizes, maxBytes, maxFiles);
      PackingStep(batches, sizes, maxBytes, maxFiles);
      OneMore(ByteSplits(batches[1..], maxFiles), maxBytes);
      OneMore(FileSplits(batches[1..], maxFiles), maxFiles);
    }
  }

  lemma OneBatch(batches: seq<seq<Rel>>, sizes: map<Rel, int>)
    requires |batches| == 1 && batches[0] != [] && NonNegative(sizes)
    ensures Flat(batches) == batches[0] && Bytes(batches[0], sizes) >= FirstFile(batches, sizes) >= 0
  {
    assert batches[0] + [] == batches[0] && batches[1..] == [];
    BytesPrefix(batches[0], 1, sizes);
    SumSnoc([], batches[0][0], SizeFn(sizes));
    assert batches[0][..1] == [] + [batches[0][0]];
  }

  lemma OneMore(n: int, cap: int)
    ensures (1 + n) * cap == cap + n * cap && (0 + n) * cap == n * cap
  {}

  ghost function FirstFile(batches: seq<seq<Rel>>, sizes: map<Rel, int>): int {
    if batches == [] || batches[0] == [] then 0 else SizeOr0(sizes, batches[0][0])
  }

  /** One split: the batch it closes and the file that opens the next one exceed the byte
      cap, unless the batch was full. */
  lemma PackingStep(batches: seq<seq<Rel>>, sizes: map<Rel, int>, maxBytes: int, maxFiles: int)
    requires |batches| > 1 && NextFit(batches, sizes, maxBytes, maxFiles) && NonNegative(sizes)
    requires maxBytes > 0 && maxFiles > 0
    ensures |Flat(batches)| == |batches[0]| + |Flat(batches[1..])|
    ensures Bytes(Flat(batches), sizes) == Bytes(batches[0], sizes) + Bytes(Flat(batches[1..]), sizes)
    ensures !FileSplit(batches[0], maxFiles) ==> Bytes(batches[0], sizes) + FirstFile(batches[1..], sizes) > maxBytes
    ensures FirstFile(batches[1..], sizes) >= 0 && Bytes(batches[0], sizes) >= FirstFile(batches, sizes)
  {
    SumAppend(batches[0], Flat(batches[1..]), SizeFn(sizes));
    assert Forced(batches[0], batches[1], sizes, maxBytes, maxFiles);
    assert batches[0] != [];
    BytesPrefix(batches[0], 1, sizes);
    SumSnoc([], batches[0][0], SizeFn(sizes));
    assert batches[0][..1] == [] + [batches[0][0]];
  }

  // ----- large files ---------------------------------------------------------------------

  predicate Large(r: Rel, sizes: map<Rel, int>) {
    SizeOr0(sizes, r) >= LARGE_FILE_BYTES
  }

  ghost function Kept(rels: seq<Rel>, sizes: map<Rel, int>, large: bool): seq<Rel> {
    if rels == [] then [] else
      var n := |rels| - 1;
      Kept(rels[..n], sizes, large) + if Large(rels[n], sizes) == large then [rels[n]] else []
  }

  method SplitLargeFiles(rels: seq<Rel>, sizes: map<Rel, int>) returns (normal: seq<Rel>, large: seq<Rel>)
    ensures normal == Kept(rels, sizes, false) && large == Kept(rels, sizes, true)
    ensures multiset(normal) + multiset(large) == multiset(rels)
  {
    normal, large := [], [];
    for i := 0 to |rels|
      invariant normal == Kept(rels[..i], sizes, false) && large == Kept(rels[..i], sizes, true)
    {
      assert rels[..i + 1] == rels[..i] + [rels[i]];
      assert rels[..i + 1][..i] == rels[..i];
      if SizeOr0(sizes, rels[i]) >= LARGE_FILE_BYTES {
        large := large + [rels[i]];
      } else {
        normal := normal + [rels[i]];
      }
    }
    assert rels[..|rels|] == rels;
    NothingDropped(rels, sizes);
  }

  lemma {:induction false} NothingDropped(rels: seq<Rel>, sizes: map<Rel, int>)
    ensures multiset(Kept(rels, sizes, false)) + multiset(Kept(rels, sizes, true)) == multiset(rels)
  {
    if rels != [] {
      var n := |rels| - 1;
      NothingDropped(rels[..n], sizes);
      assert rels == rels[..n] + [rels[n]];
      OneKindTakes(Kept(rels[..n], sizes, false), Kept(rels[..n], sizes, true), rels[..n], rels[n]);
    }
  }

  lemma OneKindTakes(a: seq<Rel>, b: seq<Rel>, all: seq<Rel>, r: Rel)
    requires multiset(a) + multiset(b) == multiset(all)
    ensures multiset(a + [r]) + multiset(b + []) == multiset(all + [r]) == multiset(a + []) + multiset(b + [r])
  {
    assert a + [] == a && b + [] == b;
  }

  lemma {:induction false} KeptAreOfOneKind(rels: seq<Rel>, sizes: map<Rel, int>, large: bool)
    ensures forall r :: r in Kept(rels, sizes, large) <==> r in rels && Large(r, sizes) == large
  {
    if rels != [] {
      var n := |rels| - 1;
      KeptAreOfOneKind(rels[..n], sizes, large);
      assert rels == rels[..n] + [rels[n]];
    }
  }

  /** No batch of the files below the limit, cut by their sizes alone, reaches the limit: it
      is within 2 GiB, or one file below 3 GiB. */
  lemma BatchesStaySmall(rels: seq<Rel>, sizes: map<Rel, int>, kept: map<Rel, int>, batches: seq<seq<Rel>>, i: nat)
    requires Flat(batches) == Kept(rels, sizes, false)
    requires forall r :: r in Flat(batches) ==> SizeOr0(kept, r) == SizeOr0(sizes, r)
    requires NextFit(batches, kept, CHUNK_BYTES, CHUNK_FILES) && i < |batches|
    ensures Bytes(batches[i], sizes) < LARGE_FILE_BYTES && |batches[i]| <= CHUNK_FILES
  {
    assert Fits(batches[i], kept, CHUNK_BYTES, CHUNK_FILES);
    forall r | r in batches[i] ensures SizeOr0(kept, r) == SizeOr0(sizes, r) < LARGE_FILE_BYTES {
      InFlat(batches, i, r);
      KeptAreOfOneKind(rels, sizes, false);
    }
    SameBytes(batches[i], sizes, kept);
    if |batches[i]| == 1 {
      OneFile(batches[i], sizes);
    }
  }

  lemma OneFile(batch: seq<Rel>, sizes: map<Rel, int>)
    requires |batch| == 1
    ensures Bytes(batch, sizes) == SizeOr0(sizes, batch[0]) && batch[0] in batch
  {
    SumSnoc([], batch[0], SizeFn(sizes));
    assert batch == [] + [batch[0]];
  }

  lemma {:induction false} SameBytes(rels: seq<Rel>, sizes: map<Rel, int>, others: map<Rel, int>)
    requires forall r :: r in rels ==> SizeOr0(sizes, r) == SizeOr0(others, r)
    ensures Bytes(rels, sizes) == Bytes(rels, others)
  {
    if rels != [] {
      SameBytes(rels[1..], sizes, others);
    }
  }

  lemma {:induction false} InFlat(batches: seq<seq<Rel>>, i: nat, r: Rel)
    requires i < |batches| && r in batches[i]
    ensures r in Flat(batches)
  {
    if i > 0 {
      InFlat(batches[1..], i - 1, r);
    }
  }
}
