/** Bounded runs of `sync_service.sync_home` against one peer: plan, cap the plan,
    transfer what is left, and do the same again next time. */
module Convergence {
  import opened Base
  import opened Planning
  import opened Batching

  /** Which paths a run may carry in which direction: all of them, only one way, or only those a
      truncated listing names. */
  type May = (Direction, Rel) -> bool

  ghost function PushIn(w: World, policy: Policy, may: May): set<Rel> {
    set r | r in PushSet(w, policy, true) && may(Push, r)
  }

  ghost function PullIn(w: World, policy: Policy, may: May): set<Rel> {
    set r | r in PullSet(w, policy, true) && may(Pull, r)
  }

  ghost predicate InPlan(w: World, policy: Policy, may: May, push: set<Rel>, pull: set<Rel>) {
    push <= PushIn(w, policy, may) && pull <= PullIn(w, policy, may)
  }

  /** Carrying out a part leaves the rest. */
  lemma PartCarriedOut(w: World, policy: Policy, may: May, push: set<Rel>, pull: set<Rel>)
    requires InPlan(w, policy, may, push, pull)
    ensures SubPlan(w, policy, true, push, pull)
    ensures PushIn(Apply(w, push, pull), policy, may) == PushIn(w, policy, may) - push
    ensures PullIn(Apply(w, push, pull), policy, may) == PullIn(w, policy, may) - pull
  {
    PlanAfterPartialApply(w, policy, true, push, pull);
  }

  /** How many files a plan has. */
  ghost function Delta(w: World, policy: Policy, may: May): nat {
    |PushIn(w, policy, may)| + |PullIn(w, policy, may)|
  }

  function Sizes(inv: Tree): map<Rel, int> {
    map rel | rel in inv :: inv[rel].size
  }

  /** The candidates the limiter sees in one run. */
  ghost function RunCandidates(w: World, policy: Policy, may: May): seq<Cand> {
    Candidates(SortedRels(PushIn(w, policy, may)), SortedRels(PullIn(w, policy, may)),
               Sizes(w.local), Sizes(w.remote))
  }

  /** How many of them the run transfers; without caps, all. */
  ghost function Taken(w: World, policy: Policy, may: May, maxFiles: Option<int>, maxBytes: Option<int>): nat {
    Cut(RunCandidates(w, policy, may), maxFiles, maxBytes)
  }

  ghost function TakenRels(w: World, policy: Policy, may: May, maxFiles: Option<int>, maxBytes: Option<int>, dir: Direction): set<Rel> {
    Elems(RelsOf(RunCandidates(w, policy, may)[..Taken(w, policy, may, maxFiles, maxBytes)], dir))
  }

  /** The two trees after one successful bounded run. */
  ghost function Run(w: World, policy: Policy, may: May, maxFiles: Option<int>, maxBytes: Option<int>): World {
    Apply(w, TakenRels(w, policy, may, maxFiles, maxBytes, Push), TakenRels(w, policy, may, maxFiles, maxBytes, Pull))
  }

  /** One run takes part of the plan: `Taken` files of it, no path twice. */
  lemma RunTakesPartOfThePlan(w: World, policy: Policy, may: May, maxFiles: Option<int>, maxBytes: Option<int>)
    ensures InPlan(w, policy, may, TakenRels(w, policy, may, maxFiles, maxBytes, Push), TakenRels(w, policy, may, maxFiles, maxBytes, Pull))
    ensures |TakenRels(w, policy, may, maxFiles, maxBytes, Push)| + |TakenRels(w, policy, may, maxFiles, maxBytes, Pull)|
         == Taken(w, policy, may, maxFiles, maxBytes)
    ensures |RunCandidates(w, policy, may)| == Delta(w, policy, may)
  {
    var push, pull := PushIn(w, policy, may), PullIn(w, policy, may);
    SortedRelsSorts(push);
    SortedRelsSorts(pull);
    AllAccounted(SortedRels(push), SortedRels(pull), Sizes(w.local), Sizes(w.remote));
    var c, k := RunCandidates(w, policy, may), Taken(w, policy, may, maxFiles, maxBytes);
    PrefixTakes(c, k, push, Push);
    PrefixTakes(c, k, pull, Pull);
    SplitByDirection(c[..k]);
  }

  lemma PrefixTakes(c: seq<Cand>, k: nat, all: set<Rel>, dir: Direction)
    requires k <= |c| && multiset(RelsOf(c, dir)) == multiset(all)
    ensures Elems(RelsOf(c[..k], dir)) <= all
    ensures |Elems(RelsOf(c[..k], dir))| == |RelsOf(c[..k], dir)|
  {
    var taken, left := RelsOf(c[..k], dir), RelsOf(c[k..], dir);
    assert c == c[..k] + c[k..];
    RelsOfAppend(c[..k], c[k..], dir);
    NoDupsIff(taken + left, all);
    forall i, j | 0 <= i < j < |taken| ensures taken[i] != taken[j] {
      assert (taken + left)[i] == taken[i] && (taken + left)[j] == taken[j];
    }
    NoDupsIff(taken, Elems(taken));
    forall x | x in taken ensures x in all { assert x in taken + left; }
  }

  lemma {:induction false} SplitByDirection(c: seq<Cand>)
    ensures |RelsOf(c, Push)| + |RelsOf(c, Pull)| == |c|
  {
    if c != [] {
      SplitByDirection(c[..|c| - 1]);
    }
  }

  lemma DifferenceCard(all: set<Rel>, part: set<Rel>)
    requires part <= all
    ensures |all - part| == |all| - |part|
  {
    assert all == part + (all - part);
  }

  /** A run shrinks the plan by exactly the files it takes. */
  lemma RunShrinksThePlan(w: World, policy: Policy, may: May, maxFiles: Option<int>, maxBytes: Option<int>)
    ensures Delta(Run(w, policy, may, maxFiles, maxBytes), policy, may) == Delta(w, policy, may) - Taken(w, policy, may, maxFiles, maxBytes)
  {
    RunTakesPartOfThePlan(w, policy, may, maxFiles, maxBytes);
    var push, pull := TakenRels(w, policy, may, maxFiles, maxBytes, Push), TakenRels(w, policy, may, maxFiles, maxBytes, Pull);
    PartCarriedOut(w, policy, may, push, pull);
    DifferenceCard(PushIn(w, policy, may), push);
    DifferenceCard(PullIn(w, policy, may), pull);
  }

  /** The caps under which bounded runs make progress. */
  predicate Admissible(maxFiles: Option<int>) {
    maxFiles.Some? ==> maxFiles.value >= 1
  }

  /** A run with something to do makes progress exactly when the file cap is not below one;
      the byte cap alone never stops it. And the plan is reported truncated exactly when
      some of it is left. */
  lemma ProgressIff(w: World, policy: Policy, may: May, maxFiles: Option<int>, maxBytes: Option<int>)
    requires Delta(w, policy, may) > 0
    ensures Delta(Run(w, policy, may, maxFiles, maxBytes), policy, may) < Delta(w, policy, may) <==> Admissible(maxFiles)
    ensures Taken(w, policy, may, maxFiles, maxBytes) < |RunCandidates(w, policy, may)|
       <==> Delta(Run(w, policy, may, maxFiles, maxBytes), policy, may) > 0
  {
    RunTakesPartOfThePlan(w, policy, may, maxFiles, maxBytes);
    RunShrinksThePlan(w, policy, may, maxFiles, maxBytes);
    var c := RunCandidates(w, policy, may);
    assert Admits(c, 0, maxFiles, maxBytes) <==> Admissible(maxFiles);
  }

  /** How many runs transfer something before the plan is empty. */
  ghost function TransferringRuns(w: World, policy: Policy, may: May, maxFiles: Option<int>, maxBytes: Option<int>): nat
    requires Admissible(maxFiles)
    decreases Delta(w, policy, may)
  {
    if Delta(w, policy, may) == 0 then 0 else
      ProgressIff(w, policy, may, maxFiles, maxBytes);
      1 + TransferringRuns(Run(w, policy, may, maxFiles, maxBytes), policy, may, maxFiles, maxBytes)
  }

  /** The two trees after that many runs. */
  ghost function AfterRuns(w: World, policy: Policy, may: May, maxFiles: Option<int>, maxBytes: Option<int>): World
    requires Admissible(maxFiles)
    decreases Delta(w, policy, may)
  {
    if Delta(w, policy, may) == 0 then w else
      ProgressIff(w, policy, may, maxFiles, maxBytes);
      AfterRuns(Run(w, policy, may, maxFiles, maxBytes), policy, may, maxFiles, maxBytes)
  }

  /** Repeated bounded runs end, with the trees one unlimited run would have made and
      nothing left to plan. */
  lemma {:induction false} BoundedRunsEqualOneUnlimitedRun(w: World, policy: Policy, may: May, maxFiles: Option<int>, maxBytes: Option<int>)
    requires Admissible(maxFiles)
    ensures AfterRuns(w, policy, may, maxFiles, maxBytes) == ApplyPlan(w, policy, may)
    ensures Delta(AfterRuns(w, policy, may, maxFiles, maxBytes), policy, may) == 0
    decreases Delta(w, policy, may)
  {
    if Delta(w, policy, may) == 0 {
      assert PushIn(w, policy, may) == {} && PullIn(w, policy, may) == {};
      ApplyNothing(w);
    } else {
      ProgressIff(w, policy, may, maxFiles, maxBytes);
      BoundedRunsEqualOneUnlimitedRun(Run(w, policy, may, maxFiles, maxBytes), policy, may, maxFiles, maxBytes);
      RunThenTheRest(w, policy, may, maxFiles, maxBytes);
    }
  }

  /** One bounded run followed by all that is then left is one unlimited run. */
  lemma RunThenTheRest(w: World, policy: Policy, may: May, maxFiles: Option<int>, maxBytes: Option<int>)
    ensures ApplyPlan(Run(w, policy, may, maxFiles, maxBytes), policy, may) == ApplyPlan(w, policy, may)
  {
    RunTakesPartOfThePlan(w, policy, may, maxFiles, maxBytes);
    PartThenTheRest(w, policy, may, TakenRels(w, policy, may, maxFiles, maxBytes, Push), TakenRels(w, policy, may, maxFiles, maxBytes, Pull));
  }

  ghost function ApplyPlan(w: World, policy: Policy, may: May): World {
    Apply(w, PushIn(w, policy, may), PullIn(w, policy, may))
  }

  lemma PartThenTheRest(w: World, policy: Policy, may: May, somePush: set<Rel>, somePull: set<Rel>)
    requires InPlan(w, policy, may, somePush, somePull)
    ensures ApplyPlan(Apply(w, somePush, somePull), policy, may) == ApplyPlan(w, policy, may)
  {
    var push, pull := PushIn(w, policy, may), PullIn(w, policy, may);
    PartCarriedOut(w, policy, may, somePush, somePull);
    assert somePush + (push - somePush) == push && somePull + (pull - somePull) == pull;
    NoFileBothWays(w, policy, true);
    ApplyTwice(w, somePush, somePull, push - somePush, pull - somePull);
  }

  lemma ApplyNothing(w: World)
    ensures Apply(w, {}, {}) == w
  {
    assert Overlay(w.local, w.remote, {}) == w.local && Overlay(w.remote, w.local, {}) == w.remote;
  }

  /** With a file cap of k alone, n planned files take exactly n/k runs, rounded up. */
  lemma FileCapRunCount(w: World, policy: Policy, may: May, k: int)
    requires k >= 1
    ensures TransferringRuns(w, policy, may, Some(k), None) == (Delta(w, policy, may) + k - 1) / k
  {
    RunsTakeAway(w, policy, may, k);
    TimesRoundsUp(Delta(w, policy, may), k);
  }

  /** How many times `k` can be taken away from `n` before nothing is left. */
  function Times(n: nat, k: int): nat
    requires k >= 1
    decreases n
  {
    if n == 0 then 0 else 1 + Times(if n < k then 0 else n - k, k)
  }

  lemma {:induction false} RunsTakeAway(w: World, policy: Policy, may: May, k: int)
    requires k >= 1
    ensures TransferringRuns(w, policy, may, Some(k), None) == Times(Delta(w, policy, may), k)
    decreases Delta(w, policy, may)
  {
    if Delta(w, policy, may) > 0 {
      RunsStep(w, policy, may, k);
      RunsTakeAway(Run(w, policy, may, Some(k), None), policy, may, k);
    }
  }

  lemma {:induction false} TimesRoundsUp(n: nat, k: int)
    requires k >= 1
    ensures Times(n, k) == (n + k - 1) / k
    decreases n
  {
    if n == 0 {
      DivIs(k - 1, k, 0);
    } else {
      TimesRoundsUp(if n < k then 0 else n - k, k);
      OneRunLess(n, k);
    }
  }

  lemma RunsStep(w: World, policy: Policy, may: May, k: int)
    requires k >= 1 && Delta(w, policy, may) > 0
    ensures var w' := Run(w, policy, may, Some(k), None);
            && Delta(w', policy, may) < Delta(w, policy, may)
            && Delta(w', policy, may) == (if Delta(w, policy, may) < k then 0 else Delta(w, policy, may) - k)
            && TransferringRuns(w, policy, may, Some(k), None) == 1 + TransferringRuns(w', policy, may, Some(k), None)
  {
    ProgressIff(w, policy, may, Some(k), None);
    FileCapStep(w, policy, may, k);
  }

  lemma FileCapStep(w: World, policy: Policy, may: May, k: int)
    requires k >= 1
    ensures Delta(Run(w, policy, may, Some(k), None), policy, may) == if Delta(w, policy, may) < k then 0 else Delta(w, policy, may) - k
  {
    RunTakesPartOfThePlan(w, policy, may, Some(k), None);
    RunShrinksThePlan(w, policy, may, Some(k), None);
    TakenUnderFileCap(RunCandidates(w, policy, may), k);
  }

  lemma TakenUnderFileCap(c: seq<Cand>, k: int)
    requires k >= 1
    ensures Cut(c, Some(k), None) == if |c| < k then |c| else k
  {
    var t := Cut(c, Some(k), None);
    if t > 0 {
      assert Admits(c, t - 1, Some(k), None);
    }
  }

  lemma OneRunLess(n: int, k: int)
    requires n > 0 && k >= 1
    ensures (n + k - 1) / k == 1 + ((if n < k then 0 else n - k) + k - 1) / k
  {
    if n < k {
      DivIs(n + k - 1, k, 1);
      DivIs(k - 1, k, 0);
    } else {
      var q := (n - 1) / k;
      DivIs(n + k - 1, k, 1 + q);
    }
  }

  lemma DivIs(a: int, k: int, q: int)
    requires k >= 1 && q * k <= a < q * k + k
    ensures a / k == q
  {
    DivMod(a, k);
    Distribute(a / k - q, q, k);
    SmallMultiple(a / k - q, k);
  }

  lemma DivMod(a: int, k: int)
    requires k >= 1
    ensures 0 <= a - a / k * k < k
  {
    assert a == a / k * k + a % k;
  }

  lemma Distribute(x: int, y: int, k: int)
    ensures (x + y) * k == x * k + y * k
  {}

  lemma SmallMultiple(d: int, k: int)
    requires k >= 1 && -k < d * k < k
    ensures d == 0
  {
    if d >= 1 {
      AtLeastOnce(d, k);
    } else if d <= -1 {
      Negated(d, k);
      AtLeastOnce(-d, k);
    }
  }

  lemma AtLeastOnce(d: int, k: int)
    requires d >= 1 && k >= 1
    ensures d * k >= k
  {
    Distribute(d - 1, 1, k);
    NonNegativeProduct(d - 1, k);
  }

  lemma Negated(d: int, k: int)
    ensures -d * k == -(d * k)
  {
    Distribute(d, -d, k);
  }

  lemma NonNegativeProduct(x: nat, k: nat)
    ensures x * k >= 0
  {}

  // ----- runs that arep cuts short --------------------------------------------------------------

  /** The paths that are not denied. */
  function Allowed(all: set<Rel>, denied: Rel -> bool): set<Rel> {
    set r | r in all && !denied(r)
  }

  /** The two trees after a bounded run over rdma: what arep denies is left out, and the run ends
      well all the same. */
  ghost function RdmaRun(w: World, policy: Policy, may: May, maxFiles: Option<int>, maxBytes: Option<int>, denied: Rel -> bool): World {
    Apply(w, Allowed(TakenRels(w, policy, may, maxFiles, maxBytes, Push), denied),
             Allowed(TakenRels(w, policy, may, maxFiles, maxBytes, Pull), denied))
  }

  /** Some file the run takes is not denied. */
  ghost predicate TakesSomething(w: World, policy: Policy, may: May, maxFiles: Option<int>, maxBytes: Option<int>, denied: Rel -> bool) {
    || (exists r :: r in TakenRels(w, policy, may, maxFiles, maxBytes, Push) && !denied(r))
    || (exists r :: r in TakenRels(w, policy, may, maxFiles, maxBytes, Pull) && !denied(r))
  }

  /** Such a run shrinks the plan by exactly the files it takes that are not denied. */
  lemma RdmaRunShrinksThePlan(w: World, policy: Policy, may: May, maxFiles: Option<int>, maxBytes: Option<int>, denied: Rel -> bool)
    ensures Delta(RdmaRun(w, policy, may, maxFiles, maxBytes, denied), policy, may)
         == Delta(w, policy, may) - |Allowed(TakenRels(w, policy, may, maxFiles, maxBytes, Push), denied)|
                             - |Allowed(TakenRels(w, policy, may, maxFiles, maxBytes, Pull), denied)|
  {
    RunTakesPartOfThePlan(w, policy, may, maxFiles, maxBytes);
    var push := Allowed(TakenRels(w, policy, may, maxFiles, maxBytes, Push), denied);
    var pull := Allowed(TakenRels(w, policy, may, maxFiles, maxBytes, Pull), denied);
    PartCarriedOut(w, policy, may, push, pull);
    DifferenceCard(PushIn(w, policy, may), push);
    DifferenceCard(PullIn(w, policy, may), pull);
  }

  /** It makes progress exactly when some file it takes is not denied. */
  lemma RdmaProgressIff(w: World, policy: Policy, may: May, maxFiles: Option<int>, maxBytes: Option<int>, denied: Rel -> bool)
    ensures Delta(RdmaRun(w, policy, may, maxFiles, maxBytes, denied), policy, may) < Delta(w, policy, may)
       <==> TakesSomething(w, policy, may, maxFiles, maxBytes, denied)
  {
    RdmaRunShrinksThePlan(w, policy, may, maxFiles, maxBytes, denied);
    NoneAllowedIff(TakenRels(w, policy, may, maxFiles, maxBytes, Push), denied);
    NoneAllowedIff(TakenRels(w, policy, may, maxFiles, maxBytes, Pull), denied);
  }

  lemma NoneAllowedIff(all: set<Rel>, denied: Rel -> bool)
    ensures |Allowed(all, denied)| == 0 <==> forall r :: r in all ==> denied(r)
  {
    if r :| r in all && !denied(r) {
      assert r in Allowed(all, denied);
    } else {
      assert Allowed(all, denied) == {};
    }
  }

  ghost function Repeated(run: World -> World, w: World, n: nat): World
    decreases n
  {
    if n == 0 then w else Repeated(run, run(w), n - 1)
  }

  lemma {:induction false} FixedPointStays(run: World -> World, w: World, n: nat)
    requires run(w) == w
    ensures Repeated(run, w, n) == w
    decreases n
  {
    if n > 0 {
      FixedPointStays(run, w, n - 1);
    }
  }

  ghost function RdmaStep(policy: Policy, may: May, maxFiles: Option<int>, maxBytes: Option<int>, denied: Rel -> bool): World -> World {
    w => RdmaRun(w, policy, may, maxFiles, maxBytes, denied)
  }

  ghost function RdmaRuns(w: World, policy: Policy, may: May, maxFiles: Option<int>, maxBytes: Option<int>, denied: Rel -> bool, n: nat): World {
    Repeated(RdmaStep(policy, may, maxFiles, maxBytes, denied), w, n)
  }

  lemma RunIsNothing(w: World, policy: Policy, may: May, maxFiles: Option<int>, maxBytes: Option<int>, denied: Rel -> bool)
    requires !TakesSomething(w, policy, may, maxFiles, maxBytes, denied)
    ensures RdmaRun(w, policy, may, maxFiles, maxBytes, denied) == w
  {
    NoneAllowedIff(TakenRels(w, policy, may, maxFiles, maxBytes, Push), denied);
    NoneAllowedIff(TakenRels(w, policy, may, maxFiles, maxBytes, Pull), denied);
    ApplyNothing(w);
  }

  /** Denied files never leave the plan and the smallest go first. So once every file within the
      caps is denied, no run changes anything any more, although each ends well. */
  lemma StuckForEver(w: World, policy: Policy, may: May, maxFiles: Option<int>, maxBytes: Option<int>, denied: Rel -> bool, n: nat)
    requires !TakesSomething(w, policy, may, maxFiles, maxBytes, denied)
    ensures RdmaRuns(w, policy, may, maxFiles, maxBytes, denied, n) == w
  {
    RunIsNothing(w, policy, may, maxFiles, maxBytes, denied);
    FixedPointStays(RdmaStep(policy, may, maxFiles, maxBytes, denied), w, n);
  }
}
