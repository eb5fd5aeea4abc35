/** Where repeated capped runs over rdma end. arep leaves denied files out and says nothing, so
    they stay planned, and as the smallest files go first they can keep others from their turn. */
module RdmaConvergence {
  import opened Base
  import opened Planning
  import opened Batching
  import opened Convergence

  // ----- a list of candidates ------------------------------------------------------------------

  /** The denied candidates of a list, in order. */
  ghost function Denied(c: seq<Cand>, denied: Rel -> bool): seq<Cand> {
    if c == [] then [] else (if denied(c[0].rel) then [c[0]] else []) + Denied(c[1..], denied)
  }

  /** How many candidates there are up to the last one that is not denied. */
  ghost function UpToLast(c: seq<Cand>, denied: Rel -> bool): (n: nat)
    ensures n <= |c| && (n > 0 ==> !denied(c[n - 1].rel))
    ensures forall i :: n <= i < |c| ==> denied(c[i].rel)
  {
    if c == [] || !denied(c[|c| - 1].rel) then |c| else UpToLast(c[..|c| - 1], denied)
  }

  /** The last candidate that is not denied fits within the caps even behind all the denied ones
      that sort before it. */
  ghost predicate LastFits(c: seq<Cand>, denied: Rel -> bool, maxFiles: Option<int>, maxBytes: Option<int>) {
    var n := UpToLast(c, denied);
    n == 0 || (var ahead := Denied(c[..n - 1], denied);
               Admits(ahead + [c[n - 1]], |ahead|, maxFiles, maxBytes))
  }

  /** The candidates after a run: what it took is gone unless it is denied. */
  ghost function Left(c: seq<Cand>, t: nat, denied: Rel -> bool): seq<Cand>
    requires t <= |c|
  {
    Denied(c[..t], denied) + c[t..]
  }

  lemma {:induction false} DeniedSum(a: seq<Cand>, b: seq<Cand>, denied: Rel -> bool)
    ensures Denied(a + b, denied) == Denied(a, denied) + Denied(b, denied)
  {
    if a == [] {
      assert a + b == b;
    } else {
      assert (a + b)[1..] == a[1..] + b;
      DeniedSum(a[1..], b, denied);
      Reassociate(if denied(a[0].rel) then [a[0]] else [], Denied(a[1..], denied), Denied(b, denied));
    }
  }

  lemma {:induction false} DeniedAre(c: seq<Cand>, denied: Rel -> bool)
    ensures |Denied(c, denied)| <= |c|
    ensures forall x :: x in Denied(c, denied) <==> x in c && denied(x.rel)
  {
    if c != [] {
      DeniedAre(c[1..], denied);
      assert forall x :: x in c <==> x == c[0] || x in c[1..];
    }
  }

  lemma DeniedTwice(c: seq<Cand>, denied: Rel -> bool)
    ensures Denied(Denied(c, denied), denied) == Denied(c, denied)
  {
    DeniedAre(c, denied);
    AllDenied(Denied(c, denied), denied);
  }

  lemma {:induction false} AllDenied(c: seq<Cand>, denied: Rel -> bool)
    requires forall x :: x in c ==> denied(x.rel)
    ensures Denied(c, denied) == c
  {
    if c != [] {
      AllDenied(c[1..], denied);
      assert c == [c[0]] + c[1..];
    }
  }

  lemma {:induction false} DeniedWeighLess(c: seq<Cand>, denied: Rel -> bool)
    requires forall x :: x in c ==> x.size >= 0
    ensures 0 <= SumOf(Denied(c, denied), Size) <= SumOf(c, Size)
  {
    if c != [] {
      DeniedWeighLess(c[1..], denied);
      var d := Denied(c[1..], denied);
      SumCons(c[0], d, Size);
      assert [] + d == d;
    }
  }

  lemma UpToLastIs(c: seq<Cand>, denied: Rel -> bool, n: nat)
    requires n <= |c| && (n > 0 ==> !denied(c[n - 1].rel)) && forall i :: n <= i < |c| ==> denied(c[i].rel)
    ensures UpToLast(c, denied) == n
  {}

  // ----- one run on the list --------------------------------------------------------------------

  /** A run does not change whether the last one fits. */
  lemma LastFitsStays(c: seq<Cand>, denied: Rel -> bool, maxFiles: Option<int>, maxBytes: Option<int>)
    requires maxBytes.Some? ==> forall x :: x in c ==> x.size >= 0
    ensures LastFits(Left(c, Cut(c, maxFiles, maxBytes), denied), denied, maxFiles, maxBytes)
       <==> LastFits(c, denied, maxFiles, maxBytes)
  {
    var t, n := Cut(c, maxFiles, maxBytes), UpToLast(c, denied);
    if n <= t {
      NothingLeft(c, t, denied);
      if n > 0 {
        TakenFits(c, n - 1, denied, maxFiles, maxBytes);
      }
    } else {
      SameLast(c, t, denied);
    }
  }

  lemma NothingLeft(c: seq<Cand>, t: nat, denied: Rel -> bool)
    requires UpToLast(c, denied) <= t <= |c|
    ensures UpToLast(Left(c, t, denied), denied) == 0
  {
    DeniedAre(c[..t], denied);
    var left := Left(c, t, denied);
    forall i | 0 <= i < |left| ensures denied(left[i].rel) {
      if i < |Denied(c[..t], denied)| {
        assert left[i] in Denied(c[..t], denied);
      } else {
        assert left[i] == c[t + i - |Denied(c[..t], denied)|];
      }
    }
    UpToLastIs(left, denied, 0);
  }

  lemma TakenFits(c: seq<Cand>, i: nat, denied: Rel -> bool, maxFiles: Option<int>, maxBytes: Option<int>)
    requires i < |c| && Admits(c, i, maxFiles, maxBytes)
    requires maxBytes.Some? ==> forall x :: x in c ==> x.size >= 0
    ensures var ahead := Denied(c[..i], denied); Admits(ahead + [c[i]], |ahead|, maxFiles, maxBytes)
  {
    var ahead := Denied(c[..i], denied);
    DeniedAre(c[..i], denied);
    if maxBytes.Some? {
      DeniedWeighLess(c[..i], denied);
    }
    SumSnoc(ahead, c[i], Size);
    SumSnoc(c[..i], c[i], Size);
    assert c[..i + 1] == c[..i] + [c[i]];
    WholePrefix(ahead, c[i]);
  }

  lemma WholePrefix(ahead: seq<Cand>, x: Cand)
    ensures (ahead + [x])[..|ahead| + 1] == ahead + [x]
  {}

  lemma SameLast(c: seq<Cand>, t: nat, denied: Rel -> bool)
    requires t < UpToLast(c, denied)
    ensures var n, left := UpToLast(c, denied), Left(c, t, denied);
            var m := UpToLast(left, denied);
            m > 0 && left[m - 1] == c[n - 1] && Denied(left[..m - 1], denied) == Denied(c[..n - 1], denied)
  {
    var n := UpToLast(c, denied);
    BehindGone(Denied(c[..t], denied), c[t..], n - t, denied);
    AheadStays(c, t, n - 1, denied);
    assert c[t..][n - t - 1] == c[n - 1];
  }

  lemma AheadStays(c: seq<Cand>, t: nat, i: nat, denied: Rel -> bool)
    requires t <= i < |c|
    ensures Denied(Denied(c[..t], denied) + c[t..][..i - t], denied) == Denied(c[..i], denied)
  {
    assert c[t..][..i - t] == c[t..i];
    SplitAhead(c, t, i, denied);
    DeniedSum(Denied(c[..t], denied), c[t..i], denied);
    DeniedTwice(c[..t], denied);
  }

  lemma BehindGone(gone: seq<Cand>, rest: seq<Cand>, n: nat, denied: Rel -> bool)
    requires 0 < n <= |rest| && !denied(rest[n - 1].rel) && forall i :: n <= i < |rest| ==> denied(rest[i].rel)
    ensures var left, m := gone + rest, |gone| + n;
            UpToLast(left, denied) == m && left[m - 1] == rest[n - 1] && left[..m - 1] == gone + rest[..n - 1]
  {
    UpToLastIs(gone + rest, denied, |gone| + n);
  }

  lemma SplitAhead(c: seq<Cand>, t: nat, i: nat, denied: Rel -> bool)
    requires t <= i <= |c|
    ensures Denied(c[..i], denied) == Denied(c[..t], denied) + Denied(c[t..i], denied)
  {
    assert c[..i] == c[..t] + c[t..i];
    DeniedSum(c[..t], c[t..i], denied);
  }

  /** A run whose files are all denied has the last one behind them for ever. */
  lemma StuckFitsIff(c: seq<Cand>, denied: Rel -> bool, maxFiles: Option<int>, maxBytes: Option<int>)
    requires Sorted(c, CandLe) && (maxBytes.Some? ==> forall x :: x in c ==> x.size >= 0)
    requires forall i :: 0 <= i < Cut(c, maxFiles, maxBytes) ==> denied(c[i].rel)
    ensures LastFits(c, denied, maxFiles, maxBytes) <==> UpToLast(c, denied) == 0
  {
    var t, n := Cut(c, maxFiles, maxBytes), UpToLast(c, denied);
    if n > t {
      SplitAhead(c, t, n - 1, denied);
      FrontDenied(c, t, denied);
      if maxBytes.Some? {
        DeniedWeighLess(c[t..n - 1], denied);
      }
      BlockedBehind(c, t, n - 1, Denied(c[t..n - 1], denied), maxFiles, maxBytes);
    }
  }

  lemma FrontDenied(c: seq<Cand>, t: nat, denied: Rel -> bool)
    requires t <= |c| && forall i :: 0 <= i < t ==> denied(c[i].rel)
    ensures Denied(c[..t], denied) == c[..t]
  {
    AllDenied(c[..t], denied);
  }

  lemma BlockedBehind(c: seq<Cand>, t: nat, i: nat, between: seq<Cand>, maxFiles: Option<int>, maxBytes: Option<int>)
    requires t <= i < |c| && Sorted(c, CandLe) && !Admits(c, t, maxFiles, maxBytes)
    requires maxBytes.Some? ==> SumOf(between, Size) >= 0
    ensures !Admits(c[..t] + between + [c[i]], |c[..t] + between|, maxFiles, maxBytes)
  {
    var ahead := c[..t] + between;
    SumAppend(c[..t], between, Size);
    SumSnoc(ahead, c[i], Size);
    SumSnoc(c[..t], c[t], Size);
    assert c[..t + 1] == c[..t] + [c[t]];
    assert t < i ==> CandLe(c[t], c[i]);
    WholePrefix(ahead, c[i]);
  }

  // ----- the candidates of a run ---------------------------------------------------------------------

  /** A list is what the limiter sees when it lists the plan in order, each file once. */
  ghost predicate Lists(c: seq<Cand>, w: World, policy: Policy, may: May) {
    Sorted(c, CandLe) && NoDups(c) && forall x :: x in c <==> IsPlanned(x, w, policy, may)
  }

  ghost predicate IsPlanned(x: Cand, w: World, policy: Policy, may: May) {
    if x.dir.Push? then x.rel in PushIn(w, policy, may) && x.size == SizeOr0(Sizes(w.local), x.rel)
    else x.rel in PullIn(w, policy, may) && x.size == SizeOr0(Sizes(w.remote), x.rel)
  }

  lemma {:induction false} TaggedAt(rels: seq<Rel>, dir: Direction, sizes: map<Rel, int>)
    ensures |Tagged(rels, dir, sizes)| == |rels|
    ensures forall i :: 0 <= i < |rels| ==> Tagged(rels, dir, sizes)[i] == Cand(SizeOr0(sizes, rels[i]), dir, rels[i])
  {
    if rels != [] {
      TaggedAt(rels[..|rels| - 1], dir, sizes);
    }
  }

  lemma TaggedElems(rels: seq<Rel>, dir: Direction, sizes: map<Rel, int>)
    requires NoDups(rels)
    ensures NoDups(Tagged(rels, dir, sizes))
    ensures forall x :: x in Tagged(rels, dir, sizes) <==> x.dir == dir && x.rel in rels && x.size == SizeOr0(sizes, x.rel)
  {
    var c := Tagged(rels, dir, sizes);
    TaggedAt(rels, dir, sizes);
    forall x ensures x in c <==> x.dir == dir && x.rel in rels && x.size == SizeOr0(sizes, x.rel) {
      if x.dir == dir && x.rel in rels && x.size == SizeOr0(sizes, x.rel) {
        var i :| 0 <= i < |rels| && rels[i] == x.rel;
        assert c[i] == x;
      }
    }
  }

  lemma CandidatesList(w: World, policy: Policy, may: May)
    ensures Lists(RunCandidates(w, policy, may), w, policy, may)
  {
    var push, pull := SortedRels(PushIn(w, policy, may)), SortedRels(PullIn(w, policy, may));
    SortedRelsSorts(PushIn(w, policy, may));
    SortedRelsSorts(PullIn(w, policy, may));
    TaggedElems(push, Push, Sizes(w.local));
    TaggedElems(pull, Pull, Sizes(w.remote));
    var a, b := Tagged(push, Push, Sizes(w.local)), Tagged(pull, Pull, Sizes(w.remote));
    SortedElems(a, b);
    forall x ensures x in RunCandidates(w, policy, may) <==> IsPlanned(x, w, policy, may) {
      assert x.rel in push <==> x.rel in Elems(push);
      assert x.rel in pull <==> x.rel in Elems(pull);
    }
  }

  lemma SortedElems(a: seq<Cand>, b: seq<Cand>)
    requires NoDups(a) && NoDups(b) && forall x :: x in a ==> x !in b
    ensures var c := Sort(a + b, CandLe);
            Sorted(c, CandLe) && NoDups(c) && forall x :: x in c <==> x in a || x in b
  {
    CandLeIsTotalOrder();
    SortSorts(a + b, CandLe);
    ApartNoDups(a, b);
    SameElements(Sort(a + b, CandLe), a + b);
    ElemsOfSum(Sort(a + b, CandLe), a, b);
  }

  lemma ElemsOfSum(c: seq<Cand>, a: seq<Cand>, b: seq<Cand>)
    requires Elems(c) == Elems(a + b)
    ensures forall x :: x in c <==> x in a || x in b
  {
    forall x ensures x in c <==> x in a || x in b {
      assert x in Elems(c) <==> x in Elems(a + b);
    }
  }

  lemma ApartNoDups(a: seq<Cand>, b: seq<Cand>)
    requires NoDups(a) && NoDups(b) && forall x :: x in a ==> x !in b
    ensures NoDups(a + b)
  {
    forall i, j | 0 <= i < j < |a + b| ensures (a + b)[i] != (a + b)[j] {
      if i < |a| <= j {
        assert a[i] in a && b[j - |a|] in b;
      }
    }
  }

  lemma SameElements(a: seq<Cand>, b: seq<Cand>)
    requires multiset(a) == multiset(b) && NoDups(b)
    ensures NoDups(a) && Elems(a) == Elems(b)
  {
    NoDupsMultiset(b);
    NoDupsIff(a, Elems(b));
  }

  lemma ListingIsUnique(c: seq<Cand>, d: seq<Cand>, w: World, policy: Policy, may: May)
    requires Lists(c, w, policy, may) && Lists(d, w, policy, may)
    ensures c == d
  {
    assert Elems(c) == Elems(d);
    NoDupsMultiset(c);
    NoDupsMultiset(d);
    CandLeIsTotalOrder();
    SortedUnique(c, d, CandLe);
  }

  lemma {:induction false} RelsOfAre(c: seq<Cand>, dir: Direction, rel: Rel)
    ensures rel in RelsOf(c, dir) <==> exists x :: x in c && x.dir == dir && x.rel == rel
  {
    if c != [] {
      var n := |c| - 1;
      RelsOfAre(c[..n], dir, rel);
      assert c == c[..n] + [c[n]];
      assert forall x :: x in c <==> x in c[..n] || x == c[n];
    }
  }

  lemma {:induction false} DeniedInOrder(c: seq<Cand>, denied: Rel -> bool)
    requires Sorted(c, CandLe) && NoDups(c)
    ensures Sorted(Denied(c, denied), CandLe) && NoDups(Denied(c, denied))
  {
    if c != [] {
      DeniedInOrder(c[1..], denied);
      DeniedAre(c[1..], denied);
      forall y | y in Denied(c[1..], denied) ensures CandLe(c[0], y) && c[0] != y { Apart(c, 1, c[0], y); }
      InFront(c[0], Denied(c[1..], denied));
      NothingInFront(Denied(c[1..], denied));
    }
  }

  lemma InFront(x: Cand, d: seq<Cand>)
    requires Sorted(d, CandLe) && NoDups(d) && forall i :: 0 <= i < |d| ==> CandLe(x, d[i]) && x != d[i]
    ensures Sorted([x] + d, CandLe) && NoDups([x] + d)
  {
    var s := [x] + d;
    forall i, j | 0 <= i < j < |s| ensures CandLe(s[i], s[j]) && s[i] != s[j] {
      assert s[j] == d[j - 1] && (i > 0 ==> s[i] == d[i - 1]);
    }
  }

  lemma NothingInFront(d: seq<Cand>)
    ensures [] + d == d
  {}

  lemma LeftInOrder(c: seq<Cand>, t: nat, denied: Rel -> bool)
    requires t <= |c| && Sorted(c, CandLe) && NoDups(c)
    ensures Sorted(Left(c, t, denied), CandLe) && NoDups(Left(c, t, denied))
    ensures forall x :: x in Left(c, t, denied) <==> x in c && (denied(x.rel) || x !in c[..t])
  {
    DeniedInOrder(c[..t], denied);
    DeniedAre(c[..t], denied);
    assert c == c[..t] + c[t..];
    var gone, rest := Denied(c[..t], denied), c[t..];
    forall x, y | x in c[..t] && y in rest ensures CandLe(x, y) && x != y { Apart(c, t, x, y); }
    ApartNoDups(gone, rest);
  }

  lemma Apart(c: seq<Cand>, t: nat, x: Cand, y: Cand)
    requires t <= |c| && Sorted(c, CandLe) && NoDups(c) && x in c[..t] && y in c[t..]
    ensures CandLe(x, y) && x != y
  {
    var i :| 0 <= i < t && c[..t][i] == x;
    var j :| 0 <= j < |c| - t && c[t..][j] == y;
    assert c[i] == x && c[t + j] == y;
  }

  /** What the limiter sees in the next run. */
  lemma CandidatesAfterRun(w: World, policy: Policy, may: May, maxFiles: Option<int>, maxBytes: Option<int>, denied: Rel -> bool)
    ensures RunCandidates(RdmaRun(w, policy, may, maxFiles, maxBytes, denied), policy, may)
         == Left(RunCandidates(w, policy, may), Taken(w, policy, may, maxFiles, maxBytes), denied)
  {
    var c, t := RunCandidates(w, policy, may), Taken(w, policy, may, maxFiles, maxBytes);
    var w' := RdmaRun(w, policy, may, maxFiles, maxBytes, denied);
    CandidatesList(w, policy, may);
    CandidatesList(w', policy, may);
    LeftInOrder(c, t, denied);
    forall x ensures x in Left(c, t, denied) <==> IsPlanned(x, w', policy, may) {
      StillPlanned(w, policy, may, maxFiles, maxBytes, denied, x);
    }
    ListingIsUnique(RunCandidates(w', policy, may), Left(c, t, denied), w', policy, may);
  }

  lemma StillPlanned(w: World, policy: Policy, may: May, maxFiles: Option<int>, maxBytes: Option<int>, denied: Rel -> bool, x: Cand)
    requires Lists(RunCandidates(w, policy, may), w, policy, may)
    ensures IsPlanned(x, RdmaRun(w, policy, may, maxFiles, maxBytes, denied), policy, may)
       <==> x in RunCandidates(w, policy, may)
            && (denied(x.rel) || x !in RunCandidates(w, policy, may)[..Taken(w, policy, may, maxFiles, maxBytes)])
  {
    var push := Allowed(TakenRels(w, policy, may, maxFiles, maxBytes, Push), denied);
    var pull := Allowed(TakenRels(w, policy, may, maxFiles, maxBytes, Pull), denied);
    RunTakesPartOfThePlan(w, policy, may, maxFiles, maxBytes);
    PlannedAfterApply(w, policy, may, push, pull, x);
    if x in RunCandidates(w, policy, may) {
      TakenIff(w, policy, may, maxFiles, maxBytes, x);
    }
  }

  lemma PlannedAfterApply(w: World, policy: Policy, may: May, push: set<Rel>, pull: set<Rel>, x: Cand)
    requires InPlan(w, policy, may, push, pull)
    ensures IsPlanned(x, Apply(w, push, pull), policy, may)
       <==> IsPlanned(x, w, policy, may) && x.rel !in if x.dir.Push? then push else pull
  {
    PartCarriedOut(w, policy, may, push, pull);
    NoFileBothWays(w, policy, true);
    AfterApply(w, policy, true, push, pull, x.rel);
    SizeStays(w.local, Apply(w, push, pull).local, x.rel);
    SizeStays(w.remote, Apply(w, push, pull).remote, x.rel);
  }

  lemma SizeStays(a: Tree, b: Tree, rel: Rel)
    ensures Get(a, rel) == Get(b, rel) ==> SizeOr0(Sizes(a), rel) == SizeOr0(Sizes(b), rel)
  {}

  lemma TakenIff(w: World, policy: Policy, may: May, maxFiles: Option<int>, maxBytes: Option<int>, x: Cand)
    requires Lists(RunCandidates(w, policy, may), w, policy, may) && x in RunCandidates(w, policy, may)
    ensures x.rel in TakenRels(w, policy, may, maxFiles, maxBytes, x.dir)
       <==> x in RunCandidates(w, policy, may)[..Taken(w, policy, may, maxFiles, maxBytes)]
  {
    var c, t := RunCandidates(w, policy, may), Taken(w, policy, may, maxFiles, maxBytes);
    RelsOfAre(c[..t], x.dir, x.rel);
    assert forall y :: y in c[..t] ==> y in c;
    SamePlanned(c, w, policy, may, x);
  }

  lemma SamePlanned(c: seq<Cand>, w: World, policy: Policy, may: May, x: Cand)
    requires Lists(c, w, policy, may) && x in c
    ensures forall y :: y in c && y.dir == x.dir && y.rel == x.rel ==> y == x
  {
    assert IsPlanned(x, w, policy, may);
    forall y | y in c && y.dir == x.dir && y.rel == x.rel ensures y == x { assert IsPlanned(y, w, policy, may); }
  }

  // ----- where the runs end -----------------------------------------------------------------------------

  /** The trees after an uncapped run: everything planned is copied but what is denied. */
  ghost function RdmaAll(w: World, policy: Policy, may: May, denied: Rel -> bool): World {
    Apply(w, Allowed(PushIn(w, policy, may), denied), Allowed(PullIn(w, policy, may), denied))
  }

  ghost predicate Weighed(w: World) {
    (forall r :: r in w.local ==> w.local[r].size >= 0) && (forall r :: r in w.remote ==> w.remote[r].size >= 0)
  }

  lemma WeighedCandidates(w: World, policy: Policy, may: May)
    requires Weighed(w)
    ensures forall x :: x in RunCandidates(w, policy, may) ==> x.size >= 0
  {
    CandidatesList(w, policy, may);
  }

  /** A run that shrinks something or stays where it is, repeated often enough, stays where it is. */
  lemma {:induction false} RepeatedStops(run: World -> World, weight: World -> nat, inv: World -> bool, w: World, n: nat)
    requires inv(w) && n >= weight(w)
    requires forall x :: inv(x) ==> inv(run(x)) && (run(x) == x || weight(run(x)) < weight(x))
    ensures inv(Repeated(run, w, n)) && run(Repeated(run, w, n)) == Repeated(run, w, n)
    decreases n
  {
    if run(w) == w {
      FixedPointStays(run, w, n);
    } else {
      RepeatedStops(run, weight, inv, run(w), n - 1);
    }
  }

  /** What no run changes: where an uncapped run leads, and whether the last file fits. */
  ghost predicate Alike(w: World, w': World, policy: Policy, may: May, maxFiles: Option<int>, maxBytes: Option<int>, denied: Rel -> bool) {
    && (maxBytes.Some? ==> Weighed(w'))
    && RdmaAll(w', policy, may, denied) == RdmaAll(w, policy, may, denied)
    && (LastFits(RunCandidates(w', policy, may), denied, maxFiles, maxBytes)
        <==> LastFits(RunCandidates(w, policy, may), denied, maxFiles, maxBytes))
  }

  /** Enough capped runs over rdma leave exactly the denied files behind if and only if the last
      planned file that is not denied fits within the caps behind all denied files that sort
      before it. As many runs as there are planned files are enough. */
  lemma RdmaRunsCompleteIff(w: World, policy: Policy, may: May, maxFiles: Option<int>, maxBytes: Option<int>, denied: Rel -> bool, n: nat)
    requires n >= Delta(w, policy, may) && (maxBytes.Some? ==> Weighed(w))
    ensures RdmaRuns(w, policy, may, maxFiles, maxBytes, denied, n) == RdmaAll(w, policy, may, denied)
       <==> LastFits(RunCandidates(w, policy, may), denied, maxFiles, maxBytes)
  {
    var end := EndOfRuns(w, policy, may, maxFiles, maxBytes, denied, n);
    StuckIsDoneIff(end, policy, may, maxFiles, maxBytes, denied);
  }

  /** Repeated runs end where nothing changes any more. */
  lemma EndOfRuns(w: World, policy: Policy, may: May, maxFiles: Option<int>, maxBytes: Option<int>, denied: Rel -> bool, n: nat)
    returns (end: World)
    requires n >= Delta(w, policy, may) && (maxBytes.Some? ==> Weighed(w))
    ensures end == RdmaRuns(w, policy, may, maxFiles, maxBytes, denied, n)
    ensures Alike(w, end, policy, may, maxFiles, maxBytes, denied) && !TakesSomething(end, policy, may, maxFiles, maxBytes, denied)
  {
    var run := RdmaStep(policy, may, maxFiles, maxBytes, denied);
    var inv := x => Alike(w, x, policy, may, maxFiles, maxBytes, denied);
    var weight := x => Delta(x, policy, may);
    forall x | inv(x) ensures inv(run(x)) && (run(x) == x || weight(run(x)) < weight(x)) {
      OneRunKeeps(w, x, policy, may, maxFiles, maxBytes, denied);
    }
    RepeatedStops(run, weight, inv, w, n);
    end := Repeated(run, w, n);
    StillIsStuck(end, policy, may, maxFiles, maxBytes, denied);
  }

  lemma StillIsStuck(w: World, policy: Policy, may: May, maxFiles: Option<int>, maxBytes: Option<int>, denied: Rel -> bool)
    requires RdmaStep(policy, may, maxFiles, maxBytes, denied)(w) == w
    ensures !TakesSomething(w, policy, may, maxFiles, maxBytes, denied)
  {
    RdmaProgressIff(w, policy, may, maxFiles, maxBytes, denied);
  }

  lemma OneRunKeeps(w: World, x: World, policy: Policy, may: May, maxFiles: Option<int>, maxBytes: Option<int>, denied: Rel -> bool)
    requires Alike(w, x, policy, may, maxFiles, maxBytes, denied)
    ensures var x' := RdmaRun(x, policy, may, maxFiles, maxBytes, denied);
            Alike(w, x', policy, may, maxFiles, maxBytes, denied) && (x' == x || Delta(x', policy, may) < Delta(x, policy, may))
  {
    RunIsAlike(x, policy, may, maxFiles, maxBytes, denied);
    RdmaProgressIff(x, policy, may, maxFiles, maxBytes, denied);
    if !TakesSomething(x, policy, may, maxFiles, maxBytes, denied) {
      RunIsNothing(x, policy, may, maxFiles, maxBytes, denied);
    }
  }

  lemma RunIsAlike(w: World, policy: Policy, may: May, maxFiles: Option<int>, maxBytes: Option<int>, denied: Rel -> bool)
    requires maxBytes.Some? ==> Weighed(w)
    ensures Alike(w, RdmaRun(w, policy, may, maxFiles, maxBytes, denied), policy, may, maxFiles, maxBytes, denied)
  {
    if maxBytes.Some? {
      WeighedCandidates(w, policy, may);
    }
    RunThenAll(w, policy, may, maxFiles, maxBytes, denied);
    CandidatesAfterRun(w, policy, may, maxFiles, maxBytes, denied);
    LastFitsStays(RunCandidates(w, policy, may), denied, maxFiles, maxBytes);
  }

  lemma StuckIsDoneIff(w: World, policy: Policy, may: May, maxFiles: Option<int>, maxBytes: Option<int>, denied: Rel -> bool)
    requires !TakesSomething(w, policy, may, maxFiles, maxBytes, denied) && (maxBytes.Some? ==> Weighed(w))
    ensures RdmaAll(w, policy, may, denied) == w <==> LastFits(RunCandidates(w, policy, may), denied, maxFiles, maxBytes)
  {
    var c := RunCandidates(w, policy, may);
    CandidatesList(w, policy, may);
    if maxBytes.Some? {
      WeighedCandidates(w, policy, may);
    }
    TakenAreDenied(w, policy, may, maxFiles, maxBytes, denied);
    StuckFitsIff(c, denied, maxFiles, maxBytes);
    NothingAllowedIff(c, w, policy, may, denied);
    AllIsNothingIff(w, policy, may, denied);
  }

  lemma TakenAreDenied(w: World, policy: Policy, may: May, maxFiles: Option<int>, maxBytes: Option<int>, denied: Rel -> bool)
    requires !TakesSomething(w, policy, may, maxFiles, maxBytes, denied)
    requires Lists(RunCandidates(w, policy, may), w, policy, may)
    ensures forall i :: 0 <= i < Taken(w, policy, may, maxFiles, maxBytes) ==> denied(RunCandidates(w, policy, may)[i].rel)
  {
    var c, t := RunCandidates(w, policy, may), Taken(w, policy, may, maxFiles, maxBytes);
    forall i | 0 <= i < t ensures denied(c[i].rel) {
      assert c[i] in c[..t];
      TakenIff(w, policy, may, maxFiles, maxBytes, c[i]);
    }
  }

  lemma NothingAllowedIff(c: seq<Cand>, w: World, policy: Policy, may: May, denied: Rel -> bool)
    requires Lists(c, w, policy, may)
    ensures UpToLast(c, denied) == 0
       <==> Allowed(PushIn(w, policy, may), denied) == {} && Allowed(PullIn(w, policy, may), denied) == {}
  {
    var n := UpToLast(c, denied);
    if n > 0 {
      assert c[n - 1] in c && IsPlanned(c[n - 1], w, policy, may);
      assert c[n - 1].rel in Allowed(PushIn(w, policy, may), denied) + Allowed(PullIn(w, policy, may), denied);
    } else {
      forall r | r in PushIn(w, policy, may) ensures denied(r) {
        var x := Cand(SizeOr0(Sizes(w.local), r), Push, r);
        assert x in c;
      }
      forall r | r in PullIn(w, policy, may) ensures denied(r) {
        var x := Cand(SizeOr0(Sizes(w.remote), r), Pull, r);
        assert x in c;
      }
    }
  }

  lemma AllIsNothingIff(w: World, policy: Policy, may: May, denied: Rel -> bool)
    ensures RdmaAll(w, policy, may, denied) == w
       <==> Allowed(PushIn(w, policy, may), denied) == {} && Allowed(PullIn(w, policy, may), denied) == {}
  {
    ApplyNothing(w);
    PartCarriedOut(w, policy, may, Allowed(PushIn(w, policy, may), denied), Allowed(PullIn(w, policy, may), denied));
  }

  lemma RunThenAll(w: World, policy: Policy, may: May, maxFiles: Option<int>, maxBytes: Option<int>, denied: Rel -> bool)
    ensures RdmaAll(RdmaRun(w, policy, may, maxFiles, maxBytes, denied), policy, may, denied) == RdmaAll(w, policy, may, denied)
    ensures Weighed(w) ==> Weighed(RdmaRun(w, policy, may, maxFiles, maxBytes, denied))
  {
    var push, pull := PushIn(w, policy, may), PullIn(w, policy, may);
    var p := Allowed(TakenRels(w, policy, may, maxFiles, maxBytes, Push), denied);
    var q := Allowed(TakenRels(w, policy, may, maxFiles, maxBytes, Pull), denied);
    RunTakesPartOfThePlan(w, policy, may, maxFiles, maxBytes);
    PartCarriedOut(w, policy, may, p, q);
    NoFileBothWays(w, policy, true);
    AllowedRest(push, p, denied);
    AllowedRest(pull, q, denied);
    ApplyTwice(w, p, q, Allowed(push, denied) - p, Allowed(pull, denied) - q);
  }

  lemma AllowedRest(all: set<Rel>, part: set<Rel>, denied: Rel -> bool)
    requires part <= all && forall r :: r in part ==> !denied(r)
    ensures Allowed(all - part, denied) == Allowed(all, denied) - part
    ensures part + (Allowed(all, denied) - part) == Allowed(all, denied)
  {}

  /** With a file cap of k alone: fewer than k denied files sort before the last one that is not. */
  lemma FileCapCompletesIff(w: World, policy: Policy, may: May, k: int, denied: Rel -> bool, n: nat)
    requires n >= Delta(w, policy, may)
    ensures var c := RunCandidates(w, policy, may);
            var last := UpToLast(c, denied);
            RdmaRuns(w, policy, may, Some(k), None, denied, n) == RdmaAll(w, policy, may, denied)
            <==> last == 0 || |Denied(c[..last - 1], denied)| < k
  {
    RdmaRunsCompleteIff(w, policy, may, Some(k), None, denied, n);
  }

  /** Two files, of which the smaller is denied, under a file cap of one: the other is planned,
      not denied, and stays behind however often arep runs. */
  lemma SmallDeniedFileBlocks(w: World, policy: Policy, may: May, a: Rel, b: Rel, denied: Rel -> bool, n: nat)
    requires a == ".env" && b == "b"
    requires w == World(map[a := FileMeta(0, 0), b := FileMeta(0, 1)], map[]) && may(Push, a) && may(Push, b)
    requires denied(a) && !denied(b)
    ensures b in PushIn(w, policy, may) && !denied(b)
    ensures RdmaRuns(w, policy, may, Some(1), None, denied, n) == w
  {
    BothPushed(w, policy, may, a, b);
    FirstIsTaken(w, policy, may, a, b);
    StuckForEver(w, policy, may, Some(1), None, denied, n);
  }

  lemma FirstIsTaken(w: World, policy: Policy, may: May, a: Rel, b: Rel)
    requires a != b && w == World(map[a := FileMeta(0, 0), b := FileMeta(0, 1)], map[]) && may(Push, a) && may(Push, b)
    ensures TakenRels(w, policy, may, Some(1), None, Push) == {a} && TakenRels(w, policy, may, Some(1), None, Pull) == {}
  {
    BothPushed(w, policy, may, a, b);
    CandidatesList(w, policy, may);
    var c, x, y := RunCandidates(w, policy, may), Cand(0, Push, a), Cand(1, Push, b);
    TwoPlanned(w, policy, may, a, b);
    FirstOfTwo(c, x, y);
    TakenUnderFileCap(c, 1);
    OneRel(c, x);
  }

  lemma OneRel(c: seq<Cand>, x: Cand)
    requires c != [] && c[0] == x && x.dir == Push
    ensures Elems(RelsOf(c[..1], Push)) == {x.rel} && Elems(RelsOf(c[..1], Pull)) == {}
  {
    assert c[..1] == [] + [x];
    RelsOfSnoc([], x);
    assert RelsOf([], Push) == [] && RelsOf([], Pull) == [];
  }

  lemma TwoPlanned(w: World, policy: Policy, may: May, a: Rel, b: Rel)
    requires a != b && w == World(map[a := FileMeta(0, 0), b := FileMeta(0, 1)], map[])
    requires PushIn(w, policy, may) == {a, b} && PullIn(w, policy, may) == {}
    ensures forall z :: IsPlanned(z, w, policy, may) <==> z == Cand(0, Push, a) || z == Cand(1, Push, b)
  {}

  lemma BothPushed(w: World, policy: Policy, may: May, a: Rel, b: Rel)
    requires a != b && w == World(map[a := FileMeta(0, 0), b := FileMeta(0, 1)], map[]) && may(Push, a) && may(Push, b)
    ensures PushIn(w, policy, may) == {a, b} && PullIn(w, policy, may) == {}
  {}

  lemma FirstOfTwo(c: seq<Cand>, x: Cand, y: Cand)
    requires Sorted(c, CandLe) && NoDups(c) && (forall z :: z in c <==> z == x || z == y) && x.size < y.size
    ensures |c| == 2 && c[0] == x
  {
    assert x in c && y in c;
    NoDupsMultiset(c);
    assert Elems(c) == {x, y};
    assert |multiset(c)| == |c| && |multiset({x, y})| == 2;
    assert c[0] in c && c[1] in c;
    assert CandLe(c[0], c[1]);
  }
}
