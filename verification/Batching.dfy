/** `sync_plan.apply_batch_limits`: cap a plan by file count and bytes, smallest first. */
module Batching {
  import opened Base

  datatype Direction = Pull | Push

  /** A planned file as the limiter sorts it; "pull" sorts before "push". */
  datatype Cand = Cand(size: int, dir: Direction, rel: Rel)

  predicate CandLe(a: Cand, b: Cand) {
    a.size < b.size
    || (a.size == b.size && ((a.dir.Pull? && b.dir.Push?) || (a.dir == b.dir && RelLe(a.rel, b.rel))))
  }

  lemma CandLeIsTotalOrder()
    ensures TotalOrder(CandLe)
  {
    RelLeIsTotalOrder();
  }

  /** Smaller files come first; among files of one size those to be pulled, and then by path. */
  lemma CandLeMeans(a: Cand, b: Cand)
    ensures a.size != b.size ==> (CandLe(a, b) <==> a.size < b.size)
    ensures a.size == b.size && a.dir != b.dir ==> (CandLe(a, b) <==> a.dir.Pull?)
    ensures a.size == b.size && a.dir == b.dir ==>
              (CandLe(a, b) <==> a.rel <= b.rel || exists i :: 0 <= i < |a.rel| && i < |b.rel| && a.rel[..i] == b.rel[..i] && a.rel[i] < b.rel[i])
  {
    RelLeIff(a.rel, b.rel);
  }

  function Size(c: Cand): int { c.size }

  function SizeOr0(sizes: map<Rel, int>, r: Rel): int {
    if r in sizes then sizes[r] else 0
  }

  function Tagged(rels: seq<Rel>, dir: Direction, sizes: map<Rel, int>): seq<Cand> {
    if rels == [] then [] else
      var n := |rels| - 1;
      Tagged(rels[..n], dir, sizes) + [Cand(SizeOr0(sizes, rels[n]), dir, rels[n])]
  }

  function Candidates(toPush: seq<Rel>, toPull: seq<Rel>, pushSizes: map<Rel, int>, pullSizes: map<Rel, int>): seq<Cand> {
    Sort(Tagged(toPush, Push, pushSizes) + Tagged(toPull, Pull, pullSizes), CandLe)
  }

  /** The paths of one direction, in candidate order. */
  ghost function RelsOf(c: seq<Cand>, dir: Direction): seq<Rel> {
    if c == [] then [] else
      var n := |c| - 1;
      RelsOf(c[..n], dir) + if c[n].dir == dir then [c[n].rel] else []
  }

  /** Whether candidate `i` still fits after the ones before it. */
  ghost predicate Admits(c: seq<Cand>, i: nat, maxFiles: Option<int>, maxBytes: Option<int>)
    requires i < |c|
  {
    && (maxFiles.Some? ==> i < maxFiles.value)
    && (maxBytes.Some? && i > 0 ==> SumOf(c[..i + 1], Size) <= maxBytes.value)
  }

  /** How many candidates a run takes: the longest prefix admitted one by one. */
  ghost function Cut(c: seq<Cand>, maxFiles: Option<int>, maxBytes: Option<int>, from: nat := 0): (k: nat)
    requires from <= |c|
    ensures from <= k <= |c|
    ensures forall i :: from <= i < k ==> Admits(c, i, maxFiles, maxBytes)
    ensures k < |c| ==> !Admits(c, k, maxFiles, maxBytes)
    decreases |c| - from
  {
    if from < |c| && Admits(c, from, maxFiles, maxBytes) then Cut(c, maxFiles, maxBytes, from + 1) else from
  }

  method ApplyBatchLimits(toPush: seq<Rel>, toPull: seq<Rel>, pushSizes: map<Rel, int>, pullSizes: map<Rel, int>,
                          maxFiles: Option<int>, maxBytes: Option<int>)
    returns (outPush: seq<Rel>, outPull: seq<Rel>, truncated: bool)
    ensures maxFiles.None? && maxBytes.None? ==> outPush == toPush && outPull == toPull && !truncated
    ensures maxFiles.Some? || maxBytes.Some? ==>
              var c := Candidates(toPush, toPull, pushSizes, pullSizes);
              var k := Cut(c, maxFiles, maxBytes);
              && outPush == Sort(RelsOf(c[..k], Push), RelLe)
              && outPull == Sort(RelsOf(c[..k], Pull), RelLe)
              && (truncated <==> k < |c|)
  {
    if maxFiles.None? && maxBytes.None? {
      return toPush, toPull, false;
    }
    var c := Candidates(toPush, toPull, pushSizes, pullSizes);
    ghost var k := Cut(c, maxFiles, maxBytes);
    outPush, outPull := [], [];
    var files, bytes := 0, 0;
    for i := 0 to |c|
      invariant files == i && bytes == SumOf(c[..i], Size)
      invariant outPush == RelsOf(c[..i], Push) && outPull == RelsOf(c[..i], Pull)
      invariant Cut(c, maxFiles, maxBytes, i) == k
    {
      CutStep(c, i, bytes, maxFiles, maxBytes);
      PrefixGrows(c, i);
      if maxFiles.Some? && files >= maxFiles.value {
        return Sort(outPush, RelLe), Sort(outPull, RelLe), true;
      }
      if maxBytes.Some? && files > 0 && bytes + c[i].size > maxBytes.value {
        return Sort(outPush, RelLe), Sort(outPull, RelLe), true;
      }
      if c[i].dir.Push? {
        outPush := outPush + [c[i].rel];
      } else {
        outPull := outPull + [c[i].rel];
      }
      files := files + 1;
      bytes := bytes + c[i].size;
    }
    CountsMatch(toPush, toPull, pushSizes, pullSizes);
    assert c[..|c|] == c;
    truncated := |outPush| + |outPull| < |toPush| + |toPull|;
    outPush, outPull := Sort(outPush, RelLe), Sort(outPull, RelLe);
  }

  /** The loop stops at a candidate exactly when the cut is there. */
  lemma CutStep(c: seq<Cand>, i: nat, bytes: int, maxFiles: Option<int>, maxBytes: Option<int>)
    requires i < |c| && bytes == SumOf(c[..i], Size)
    ensures var stop := (maxFiles.Some? && i >= maxFiles.value) || (maxBytes.Some? && i > 0 && bytes + c[i].size > maxBytes.value);
            Cut(c, maxFiles, maxBytes, i) == if stop then i else Cut(c, maxFiles, maxBytes, i + 1)
  {
    PrefixGrows(c, i);
  }

  lemma CountsMatch(toPush: seq<Rel>, toPull: seq<Rel>, pushSizes: map<Rel, int>, pullSizes: map<Rel, int>)
    ensures var c := Candidates(toPush, toPull, pushSizes, pullSizes);
            |toPush| + |toPull| == |RelsOf(c, Push)| + |RelsOf(c, Pull)|
  {
    AllAccounted(toPush, toPull, pushSizes, pullSizes);
  }

  lemma PrefixGrows(c: seq<Cand>, i: nat)
    requires i < |c|
    ensures SumOf(c[..i + 1], Size) == SumOf(c[..i], Size) + c[i].size
    ensures forall dir :: RelsOf(c[..i + 1], dir) == RelsOf(c[..i], dir) + if c[i].dir == dir then [c[i].rel] else []
  {
    assert c[..i + 1] == c[..i] + [c[i]];
    SumSnoc(c[..i], c[i], Size);
    assert c[..i + 1][..i] == c[..i];
  }

  // ----- nothing is lost or invented --------------------------------------------------

  /** The candidates are the two lists: each path once, in its own direction. */
  lemma AllAccounted(toPush: seq<Rel>, toPull: seq<Rel>, pushSizes: map<Rel, int>, pullSizes: map<Rel, int>)
    ensures var c := Candidates(toPush, toPull, pushSizes, pullSizes);
            && Sorted(c, CandLe)
            && multiset(RelsOf(c, Push)) == multiset(toPush)
            && multiset(RelsOf(c, Pull)) == multiset(toPull)
            && |c| == |toPush| + |toPull| == |RelsOf(c, Push)| + |RelsOf(c, Pull)|
  {
    var a, b := Tagged(toPush, Push, pushSizes), Tagged(toPull, Pull, pullSizes);
    CandLeIsTotalOrder();
    SortSorts(a + b, CandLe);
    var c := Sort(a + b, CandLe);
    TaggedRels(toPush, Push, pushSizes);
    TaggedRels(toPull, Pull, pullSizes);
    RelsOfAppend(a, b, Push);
    RelsOfAppend(a, b, Pull);
    RelsOfPermutation(c, a + b, Push);
    RelsOfPermutation(c, a + b, Pull);
    assert |multiset(c)| == |multiset(a + b)|;
    assert |multiset(RelsOf(c, Push))| == |multiset(toPush)| && |multiset(RelsOf(c, Pull))| == |multiset(toPull)|;
  }

  /** Each weighs what its list says, and nothing when its size is not known. */
  lemma CandidatesWeigh(toPush: seq<Rel>, toPull: seq<Rel>, pushSizes: map<Rel, int>, pullSizes: map<Rel, int>)
    ensures forall x :: x in Candidates(toPush, toPull, pushSizes, pullSizes) ==>
              var sizes := if x.dir.Push? then pushSizes else pullSizes;
              x.size == if x.rel in sizes then sizes[x.rel] else 0
  {
    var a, b := Tagged(toPush, Push, pushSizes), Tagged(toPull, Pull, pullSizes);
    CandLeIsTotalOrder();
    SortSorts(a + b, CandLe);
    TaggedWeigh(toPush, Push, pushSizes);
    TaggedWeigh(toPull, Pull, pullSizes);
    forall x | x in Sort(a + b, CandLe) ensures x in a || x in b { assert x in multiset(a + b); }
  }

  lemma {:induction false} TaggedWeigh(rels: seq<Rel>, dir: Direction, sizes: map<Rel, int>)
    ensures forall x :: x in Tagged(rels, dir, sizes) ==> x.dir == dir && x.size == if x.rel in sizes then sizes[x.rel] else 0
  {
    if rels != [] {
      TaggedWeigh(rels[..|rels| - 1], dir, sizes);
    }
  }

  lemma {:induction false} TaggedRels(rels: seq<Rel>, dir: Direction, sizes: map<Rel, int>)
    ensures |Tagged(rels, dir, sizes)| == |rels|
    ensures RelsOf(Tagged(rels, dir, sizes), dir) == rels
    ensures forall other :: other != dir ==> RelsOf(Tagged(rels, dir, sizes), other) == []
  {
    if rels != [] {
      var n := |rels| - 1;
      TaggedRels(rels[..n], dir, sizes);
      RelsOfSnoc(Tagged(rels[..n], dir, sizes), Cand(SizeOr0(sizes, rels[n]), dir, rels[n]));
      assert rels == rels[..n] + [rels[n]];
    }
  }

  lemma RelsOfSnoc(a: seq<Cand>, x: Cand)
    ensures forall dir :: RelsOf(a + [x], dir) == RelsOf(a, dir) + if x.dir == dir then [x.rel] else []
  {
    assert (a + [x])[..|a|] == a;
  }

  lemma {:induction false} RelsOfAppend(a: seq<Cand>, b: seq<Cand>, dir: Direction)
    ensures RelsOf(a + b, dir) == RelsOf(a, dir) + RelsOf(b, dir)
  {
    if b == [] {
      assert a + b == a;
    } else {
      var n := |b| - 1;
      assert (a + b)[..|a| + n] == a + b[..n];
      RelsOfAppend(a, b[..n], dir);
    }
  }

  lemma {:induction false} RelsOfPermutation(a: seq<Cand>, b: seq<Cand>, dir: Direction)
    requires multiset(a) == multiset(b)
    ensures multiset(RelsOf(a, dir)) == multiset(RelsOf(b, dir))
    decreases |a|
  {
    if a == [] {
      assert |multiset(b)| == |b|;
    } else {
      assert a[0] in multiset(a);
      var j := Occurs(a[0], b);
      var a' := RelsWithout(a, 0, dir);
      var b' := RelsWithout(b, j, dir);
      RelsOfPermutation(a', b', dir);
    }
  }

  lemma Occurs<T>(x: T, b: seq<T>) returns (j: nat)
    requires x in multiset(b)
    ensures j < |b| && b[j] == x
  {
    j :| 0 <= j < |b| && b[j] == x;
  }

  /** Takes one candidate out; what is left, and what that means for the paths. */
  lemma RelsWithout(b: seq<Cand>, j: nat, dir: Direction) returns (rest: seq<Cand>)
    requires j < |b|
    ensures |rest| == |b| - 1 && multiset(rest) == multiset(b) - multiset{b[j]}
    ensures multiset(RelsOf(b, dir)) == multiset(RelsOf(rest, dir)) + if b[j].dir == dir then multiset{b[j].rel} else multiset{}
  {
    var front, back := b[..j], b[j + 1..];
    rest := front + back;
    WithoutIndex(b, j);
    RelsOfAppend(front, back, dir);
    RelsOfAppend(front, [b[j]] + back, dir);
    RelsOfCons(b[j], back, dir);
  }

  lemma RelsOfCons(x: Cand, back: seq<Cand>, dir: Direction)
    ensures RelsOf([x] + back, dir) == (if x.dir == dir then [x.rel] else []) + RelsOf(back, dir)
  {
    RelsOfAppend([x], back, dir);
  }

  // ----- greedy is optimal ----------------------------------------------------------

  ghost predicate Meets(sel: seq<Cand>, maxFiles: Option<int>, maxBytes: Option<int>) {
    && (maxFiles.Some? ==> |sel| <= maxFiles.value)
    && (maxBytes.Some? ==> SumOf(sel, Size) <= maxBytes.value)
  }

  /** No selection of the candidates that meets both caps has more files than the run takes. */
  lemma GreedyTakesTheMost(c: seq<Cand>, sel: seq<Cand>, maxFiles: Option<int>, maxBytes: Option<int>)
    requires Sorted(c, CandLe) && (forall x :: x in c ==> x.size >= 0)
    requires multiset(sel) <= multiset(c) && Meets(sel, maxFiles, maxBytes)
    ensures |sel| <= Cut(c, maxFiles, maxBytes)
  {
    var k := Cut(c, maxFiles, maxBytes);
    NoLonger(c, sel);
    if |sel| > k {
      assert !Admits(c, k, maxFiles, maxBytes);
      PrefixIsLightest(c, sel);
      assert c[..|sel|] == c[..k + 1] + c[k + 1..|sel|];
      SumAppend(c[..k + 1], c[k + 1..|sel|], Size);
      SumNonNegative(c[k + 1..|sel|], Size);
      assert false;
    }
  }

  lemma SubmultisetCard<T>(a: multiset<T>, b: multiset<T>)
    requires a <= b
    ensures |a| <= |b|
  {
    assert b == a + (b - a);
  }

  /** Among equally many candidates, a prefix of the sorted list weighs least. */
  lemma {:induction false} PrefixIsLightest(c: seq<Cand>, sel: seq<Cand>)
    requires Sorted(c, CandLe) && multiset(sel) <= multiset(c)
    ensures |sel| <= |c| && SumOf(c[..|sel|], Size) <= SumOf(sel, Size)
  {
    NoLonger(c, sel);
    if |sel| == |c| {
      WholeSelection(c, sel);
    } else {
      var rest, heaviest := c[..|c| - 1], c[|c| - 1];
      WithoutLast(c);
      if multiset(sel) <= multiset(rest) {
        PrefixIsLightest(rest, sel);
        PrefixOfPrefix(c, |sel|);
      } else {
        var sel' := TakeOut(sel, rest, heaviest);
        PrefixIsLightest(rest, sel');
        PrefixOfPrefix(c, |sel'|);
        PrefixSum(c, |sel'|);
      }
    }
  }

  lemma NoLonger(c: seq<Cand>, sel: seq<Cand>)
    requires multiset(sel) <= multiset(c)
    ensures |sel| <= |c|
  {
    SubmultisetCard(multiset(sel), multiset(c));
    assert |multiset(sel)| == |sel| && |multiset(c)| == |c|;
  }

  lemma WholeSelection(c: seq<Cand>, sel: seq<Cand>)
    requires multiset(sel) <= multiset(c) && |sel| == |c|
    ensures SumOf(c[..|sel|], Size) == SumOf(sel, Size)
  {
    SameCardSameMultiset(multiset(sel), multiset(c));
    SumPermutation(sel, c, Size);
    assert c[..|sel|] == c;
  }

  lemma PrefixOfPrefix(c: seq<Cand>, m: nat)
    requires m < |c|
    ensures c[..|c| - 1][..m] == c[..m]
  {}

  lemma WithoutLast(c: seq<Cand>)
    requires c != []
    ensures multiset(c) == multiset(c[..|c| - 1]) + multiset{c[|c| - 1]}
  {
    assert c == c[..|c| - 1] + [c[|c| - 1]];
  }

  lemma PrefixSum(c: seq<Cand>, m: nat)
    requires Sorted(c, CandLe) && m < |c|
    ensures SumOf(c[..m + 1], Size) <= SumOf(c[..m], Size) + c[|c| - 1].size
  {
    assert c[..m + 1] == c[..m] + [c[m]];
    SumSnoc(c[..m], c[m], Size);
    assert m < |c| - 1 ==> CandLe(c[m], c[|c| - 1]);
  }

  lemma SameCardSameMultiset<T>(a: multiset<T>, b: multiset<T>)
    requires a <= b && |a| == |b|
    ensures a == b
  {
    assert b == a + (b - a);
    assert |b - a| == 0;
  }

  /** A selection that does not fit without `x` contains `x`; this takes one `x` out. */
  lemma TakeOut(sel: seq<Cand>, rest: seq<Cand>, x: Cand) returns (sel': seq<Cand>)
    requires multiset(sel) <= multiset(rest) + multiset{x} && !(multiset(sel) <= multiset(rest))
    ensures multiset(sel') <= multiset(rest) && |sel'| == |sel| - 1
    ensures SumOf(sel, Size) == SumOf(sel', Size) + x.size
  {
    assert x in multiset(sel);
    var j :| 0 <= j < |sel| && sel[j] == x;
    sel' := sel[..j] + sel[j + 1..];
    WithoutIndex(sel, j);
    SumWithoutIndex(sel, j, Size);
  }

  /** What is sent is never larger than what is put off. */
  lemma SmallestFirst(c: seq<Cand>, maxFiles: Option<int>, maxBytes: Option<int>, i: nat, j: nat)
    requires Sorted(c, CandLe) && i < Cut(c, maxFiles, maxBytes) <= j < |c|
    ensures c[i].size <= c[j].size
  {
    assert CandLe(c[i], c[j]);
  }

  /** A run that sends anything keeps the file cap, and exceeds the byte cap only with a
      single file. */
  lemma WithinCaps(c: seq<Cand>, maxFiles: Option<int>, maxBytes: Option<int>)
    requires Cut(c, maxFiles, maxBytes) > 0
    ensures maxFiles.Some? ==> Cut(c, maxFiles, maxBytes) <= maxFiles.value
    ensures maxBytes.Some? && SumOf(c[..Cut(c, maxFiles, maxBytes)], Size) > maxBytes.value ==> Cut(c, maxFiles, maxBytes) == 1
  {
    assert Admits(c, Cut(c, maxFiles, maxBytes) - 1, maxFiles, maxBytes);
  }
}
