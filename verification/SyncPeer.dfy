/** One peer of `sync_service.sync_home`, end to end: read the listing of the peer, plan against
    it, cap the plan, and run it over the transport ladder; and the same behind the walk of the
    local tree. */
module SyncPeer {
  import opened Base
  import opened Planning
  import opened Batching
  import opened Paths
  import opened Convergence
  import opened RdmaConvergence
  import opened Transfer
  import opened Ladder
  import opened Replan
  import opened ReplanLoss
  import opened Readback
  import Wire
  import Walk

  /** Which paths a run may carry: one way or both, and with an incomplete listing only those the
      listing names. */
  ghost function Scope(listed: Tree, complete: bool, pushOnly: bool, pullOnly: bool): May {
    Reaching(if complete then None else Some(listed.Keys), pushOnly, pullOnly)
  }

  ghost function Reaching(reached: Option<set<Rel>>, pushOnly: bool, pullOnly: bool): May {
    (dir: Direction, r: Rel) => (if dir.Push? then !pullOnly else !pushOnly) && (reached.Some? ==> r in reached.value)
  }

  /** The lists the caps are laid on: those of the planner, without a direction not asked for. */
  ghost function ListedPush(seen: World, policy: Policy, complete: bool, pullOnly: bool): set<Rel> {
    if pullOnly then {} else PushSet(seen, policy, complete)
  }

  ghost function ListedPull(seen: World, policy: Policy, complete: bool, pushOnly: bool): set<Rel> {
    if pushOnly then {} else PullSet(seen, policy, complete)
  }

  /** The plan of one run: the planner's lists, one direction dropped if only the other was
      asked for, then capped. */
  method PlanRun(local: Tree, listed: Tree, complete: bool, policy: Policy, maxFiles: Option<int>, maxBytes: Option<int>,
                 pushOnly: bool, pullOnly: bool)
    returns (plan: TransferPlan, truncated: bool)
    ensures PlannedFrom(plan, truncated, local, listed, complete, Options(policy, maxFiles, maxBytes, pushOnly, pullOnly, false))
    ensures Capped(plan, truncated, World(local, listed), ListedPush(World(local, listed), policy, complete, pullOnly),
                   ListedPull(World(local, listed), policy, complete, pushOnly), maxFiles, maxBytes)
  {
    var toPush, toPull, stats := PlanTransfers(local, listed, policy, complete);
    if pushOnly {
      toPull := [];
    }
    if pullOnly {
      toPush := [];
    }
    ListsInScope(toPush, toPull, local, listed, complete, policy, pushOnly, pullOnly);
    var outPush, outPull;
    outPush, outPull, truncated :=
      ApplyBatchLimits(toPush, toPull, SizesOfListed(toPush, local), SizesOfListed(toPull, listed), maxFiles, maxBytes);
    plan := TransferPlan(outPush, outPull, SizesOfListed(outPush, local), SizesOfListed(outPull, listed), local, listed, policy);
    LimitedPlan(plan, truncated, World(local, listed), policy, Scope(listed, complete, pushOnly, pullOnly), toPush, toPull, maxFiles, maxBytes);
  }

  lemma ListsInScope(toPush: seq<Rel>, toPull: seq<Rel>, local: Tree, listed: Tree, complete: bool, policy: Policy,
                     pushOnly: bool, pullOnly: bool)
    requires toPush == if pullOnly then [] else SortedRels(PushSet(World(local, listed), policy, complete))
    requires toPull == if pushOnly then [] else SortedRels(PullSet(World(local, listed), policy, complete))
    ensures var seen, may := World(local, listed), Scope(listed, complete, pushOnly, pullOnly);
            && toPush == SortedRels(PushIn(seen, policy, may)) && toPull == SortedRels(PullIn(seen, policy, may))
            && PushIn(seen, policy, may) == ListedPush(seen, policy, complete, pullOnly)
            && PullIn(seen, policy, may) == ListedPull(seen, policy, complete, pushOnly)
  {
    ScopeIsListed(local, listed, complete, policy, pushOnly, pullOnly);
    assert SortedRels({}) == [];
  }

  /** The capped lists make a plan as it is promised. */
  lemma LimitedPlan(plan: TransferPlan, truncated: bool, w: World, policy: Policy, may: May, toPush: seq<Rel>, toPull: seq<Rel>,
                    maxFiles: Option<int>, maxBytes: Option<int>)
    requires toPush == SortedRels(PushIn(w, policy, may)) && toPull == SortedRels(PullIn(w, policy, may))
    requires maxFiles.None? && maxBytes.None? ==> plan.toPush == toPush && plan.toPull == toPull && !truncated
    requires maxFiles.Some? || maxBytes.Some? ==>
               var c := Candidates(toPush, toPull, SizesOfListed(toPush, w.local), SizesOfListed(toPull, w.remote));
               var k := Cut(c, maxFiles, maxBytes);
               && plan.toPush == Sort(RelsOf(c[..k], Push), RelLe)
               && plan.toPull == Sort(RelsOf(c[..k], Pull), RelLe)
               && (truncated <==> k < |c|)
    ensures plan.toPush == SortedRels(TakenRels(w, policy, may, maxFiles, maxBytes, Push))
    ensures plan.toPull == SortedRels(TakenRels(w, policy, may, maxFiles, maxBytes, Pull))
    ensures truncated <==> Taken(w, policy, may, maxFiles, maxBytes) < Delta(w, policy, may)
    ensures Capped(plan, truncated, w, PushIn(w, policy, may), PullIn(w, policy, may), maxFiles, maxBytes)
  {
    LimitsTake(w, policy, may, toPush, toPull, maxFiles, maxBytes, plan.toPush, plan.toPull, truncated);
    TakenIsCapped(plan, truncated, w, policy, may, maxFiles, maxBytes);
  }

  /** A plan from two inventories: what a run takes, with its sizes and inventories. */
  ghost predicate PlannedFrom(plan: TransferPlan, truncated: bool, local: Tree, listed: Tree, complete: bool, o: Options) {
    var seen, may := World(local, listed), Scope(listed, complete, o.pushOnly, o.pullOnly);
    && plan.policy == o.policy && plan.localInv == local && plan.remoteInv == listed
    && plan.pushSizes == SizesOfListed(plan.toPush, local) && plan.pullSizes == SizesOfListed(plan.toPull, listed)
    && plan.toPush == SortedRels(TakenRels(seen, o.policy, may, o.maxFiles, o.maxBytes, Push))
    && plan.toPull == SortedRels(TakenRels(seen, o.policy, may, o.maxFiles, o.maxBytes, Pull))
    && (truncated <==> Taken(seen, o.policy, may, o.maxFiles, o.maxBytes) < Delta(seen, o.policy, may))
  }

  /** A selection of files, to be pushed from `push` and pulled from `pull`, within both caps. */
  ghost predicate Selection(sel: seq<Cand>, seen: World, push: set<Rel>, pull: set<Rel>, maxFiles: Option<int>, maxBytes: Option<int>) {
    && NoDups(sel) && Meets(sel, maxFiles, maxBytes)
    && forall x :: x in sel ==> if x.dir.Push? then x.rel in push && x.size == SizeOr0(Sizes(seen.local), x.rel)
                                else x.rel in pull && x.size == SizeOr0(Sizes(seen.remote), x.rel)
  }

  /** What the caps make of the lists they are laid on: sorted parts of them, cut short exactly
      when it is said so; something unless the file cap is below one or there is nothing; and as
      much as any selection within the caps. */
  ghost predicate Capped(plan: TransferPlan, truncated: bool, seen: World, push: set<Rel>, pull: set<Rel>,
                         maxFiles: Option<int>, maxBytes: Option<int>)
  {
    && Elems(plan.toPush) <= push && Elems(plan.toPull) <= pull
    && (truncated <==> plan.toPush != SortedRels(push) || plan.toPull != SortedRels(pull))
    && (Admissible(maxFiles) && (push != {} || pull != {}) ==> plan.toPush != [] || plan.toPull != [])
    && (maxFiles.Some? ==> |plan.toPush| + |plan.toPull| <= if maxFiles.value < 0 then 0 else maxFiles.value)
    && (maxFiles.None? && maxBytes.None? ==> !truncated)
    && (Weighed(seen) ==>
          forall sel :: Selection(sel, seen, push, pull, maxFiles, maxBytes) ==> |sel| <= |plan.toPush| + |plan.toPull|)
  }

  lemma ScopeIsListed(local: Tree, listed: Tree, complete: bool, policy: Policy, pushOnly: bool, pullOnly: bool)
    ensures var seen, may := World(local, listed), Scope(listed, complete, pushOnly, pullOnly);
            && PushIn(seen, policy, may) == ListedPush(seen, policy, complete, pullOnly)
            && PullIn(seen, policy, may) == ListedPull(seen, policy, complete, pushOnly)
  {
    var seen := World(local, listed);
    TruncatedListingIsSafe(local, listed, listed, policy);
    forall r | r in PullSet(seen, policy, true) ensures r in listed { assert Pulls(VerdictOf(seen, policy, true, r)); }
  }

  /** What the limiter returns is what a run takes. */
  lemma LimitsTake(w: World, policy: Policy, may: May, toPush: seq<Rel>, toPull: seq<Rel>, maxFiles: Option<int>, maxBytes: Option<int>,
                   outPush: seq<Rel>, outPull: seq<Rel>, truncated: bool)
    requires toPush == SortedRels(PushIn(w, policy, may)) && toPull == SortedRels(PullIn(w, policy, may))
    requires maxFiles.None? && maxBytes.None? ==> outPush == toPush && outPull == toPull && !truncated
    requires maxFiles.Some? || maxBytes.Some? ==>
               var c := Candidates(toPush, toPull, SizesOfListed(toPush, w.local), SizesOfListed(toPull, w.remote));
               var k := Cut(c, maxFiles, maxBytes);
               && outPush == Sort(RelsOf(c[..k], Push), RelLe)
               && outPull == Sort(RelsOf(c[..k], Pull), RelLe)
               && (truncated <==> k < |c|)
    ensures outPush == SortedRels(TakenRels(w, policy, may, maxFiles, maxBytes, Push))
    ensures outPull == SortedRels(TakenRels(w, policy, may, maxFiles, maxBytes, Pull))
    ensures truncated <==> Taken(w, policy, may, maxFiles, maxBytes) < Delta(w, policy, may)
  {
    SameCandidates(toPush, toPull, w.local, w.remote);
    RunTakesPartOfThePlan(w, policy, may, maxFiles, maxBytes);
    var c, k := RunCandidates(w, policy, may), Taken(w, policy, may, maxFiles, maxBytes);
    TakenOnce(w, policy, may, maxFiles, maxBytes);
    SortIsSortedRels(RelsOf(c[..k], Push), TakenRels(w, policy, may, maxFiles, maxBytes, Push));
    SortIsSortedRels(RelsOf(c[..k], Pull), TakenRels(w, policy, may, maxFiles, maxBytes, Pull));
    if maxFiles.None? && maxBytes.None? {
      NoCapsTakeAll(w, policy, may);
    }
  }

  lemma TakenOnce(w: World, policy: Policy, may: May, maxFiles: Option<int>, maxBytes: Option<int>)
    ensures var c, k := RunCandidates(w, policy, may), Taken(w, policy, may, maxFiles, maxBytes);
            && multiset(RelsOf(c[..k], Push)) == multiset(TakenRels(w, policy, may, maxFiles, maxBytes, Push))
            && multiset(RelsOf(c[..k], Pull)) == multiset(TakenRels(w, policy, may, maxFiles, maxBytes, Pull))
  {
    var c, k := RunCandidates(w, policy, may), Taken(w, policy, may, maxFiles, maxBytes);
    var push, pull := PushIn(w, policy, may), PullIn(w, policy, may);
    SortedRelsSorts(push);
    SortedRelsSorts(pull);
    AllAccounted(SortedRels(push), SortedRels(pull), Sizes(w.local), Sizes(w.remote));
    PrefixOnce(c, k, push, Push);
    PrefixOnce(c, k, pull, Pull);
  }

  lemma PrefixOnce(c: seq<Cand>, k: nat, all: set<Rel>, dir: Direction)
    requires k <= |c| && multiset(RelsOf(c, dir)) == multiset(all)
    ensures multiset(RelsOf(c[..k], dir)) == multiset(Elems(RelsOf(c[..k], dir)))
  {
    var taken, left := RelsOf(c[..k], dir), RelsOf(c[k..], dir);
    assert c == c[..k] + c[k..];
    RelsOfAppend(c[..k], c[k..], dir);
    NoDupsIff(taken + left, all);
    forall i, j | 0 <= i < j < |taken| ensures taken[i] != taken[j] {
      assert (taken + left)[i] == taken[i] && (taken + left)[j] == taken[j];
    }
    NoDupsMultiset(taken);
  }

  lemma NoCapsTakeAll(w: World, policy: Policy, may: May)
    ensures Taken(w, policy, may, None, None) == Delta(w, policy, may)
    ensures TakenRels(w, policy, may, None, None, Push) == PushIn(w, policy, may)
    ensures TakenRels(w, policy, may, None, None, Pull) == PullIn(w, policy, may)
  {
    var c, k := RunCandidates(w, policy, may), Taken(w, policy, may, None, None);
    RunTakesPartOfThePlan(w, policy, may, None, None);
    assert k == |c|;
    TakenAll(PushIn(w, policy, may), PullIn(w, policy, may),
             TakenRels(w, policy, may, None, None, Push), TakenRels(w, policy, may, None, None, Pull));
  }

  lemma TakenAll(push: set<Rel>, pull: set<Rel>, somePush: set<Rel>, somePull: set<Rel>)
    requires somePush <= push && somePull <= pull && |somePush| + |somePull| == |push| + |pull|
    ensures somePush == push && somePull == pull
  {
    DifferenceCard(push, somePush);
    DifferenceCard(pull, somePull);
  }

  lemma TakenIsCapped(plan: TransferPlan, truncated: bool, w: World, policy: Policy, may: May, maxFiles: Option<int>, maxBytes: Option<int>)
    requires plan.toPush == SortedRels(TakenRels(w, policy, may, maxFiles, maxBytes, Push))
    requires plan.toPull == SortedRels(TakenRels(w, policy, may, maxFiles, maxBytes, Pull))
    requires truncated <==> Taken(w, policy, may, maxFiles, maxBytes) < Delta(w, policy, may)
    ensures Capped(plan, truncated, w, PushIn(w, policy, may), PullIn(w, policy, may), maxFiles, maxBytes)
  {
    var push, pull := PushIn(w, policy, may), PullIn(w, policy, may);
    var somePush, somePull := TakenRels(w, policy, may, maxFiles, maxBytes, Push), TakenRels(w, policy, may, maxFiles, maxBytes, Pull);
    RunTakesPartOfThePlan(w, policy, may, maxFiles, maxBytes);
    SortedRelsSorts(somePush);
    SortedRelsSorts(somePull);
    SortedRelsSorts(push);
    SortedRelsSorts(pull);
    if !truncated {
      TakenAll(push, pull, somePush, somePull);
    }
    SomethingIsTaken(w, policy, may, maxFiles, maxBytes);
    if maxFiles.None? && maxBytes.None? {
      NoCapsTakeAll(w, policy, may);
    }
    if Weighed(w) {
      forall sel | Selection(sel, w, push, pull, maxFiles, maxBytes) ensures |sel| <= Taken(w, policy, may, maxFiles, maxBytes) {
        NoSelectionTakesMore(sel, w, policy, may, maxFiles, maxBytes);
      }
    }
  }

  lemma SomethingIsTaken(w: World, policy: Policy, may: May, maxFiles: Option<int>, maxBytes: Option<int>)
    ensures Admissible(maxFiles) && (PushIn(w, policy, may) != {} || PullIn(w, policy, may) != {}) ==> Taken(w, policy, may, maxFiles, maxBytes) > 0
    ensures maxFiles.Some? ==> Taken(w, policy, may, maxFiles, maxBytes) <= if maxFiles.value < 0 then 0 else maxFiles.value
  {
    var c, k := RunCandidates(w, policy, may), Taken(w, policy, may, maxFiles, maxBytes);
    if PushIn(w, policy, may) != {} || PullIn(w, policy, may) != {} {
      NotEmptyCard(PushIn(w, policy, may));
      NotEmptyCard(PullIn(w, policy, may));
      RunTakesPartOfThePlan(w, policy, may, maxFiles, maxBytes);
      assert Admissible(maxFiles) ==> Admits(c, 0, maxFiles, maxBytes);
    }
    if k > 0 {
      assert Admits(c, k - 1, maxFiles, maxBytes);
    }
  }

  lemma NotEmptyCard(s: set<Rel>)
    ensures s != {} ==> |s| > 0
  {}

  lemma NoSelectionTakesMore(sel: seq<Cand>, w: World, policy: Policy, may: May, maxFiles: Option<int>, maxBytes: Option<int>)
    requires Weighed(w) && Selection(sel, w, PushIn(w, policy, may), PullIn(w, policy, may), maxFiles, maxBytes)
    ensures |sel| <= Taken(w, policy, may, maxFiles, maxBytes)
  {
    var c := RunCandidates(w, policy, may);
    CandidatesList(w, policy, may);
    WeighedCandidates(w, policy, may);
    forall x | x in sel ensures x in c { assert IsPlanned(x, w, policy, may); }
    PartOfList(sel, c);
    GreedyTakesTheMost(c, sel, maxFiles, maxBytes);
  }

  lemma PartOfList(sel: seq<Cand>, c: seq<Cand>)
    requires NoDups(sel) && NoDups(c) && forall x :: x in sel ==> x in c
    ensures multiset(sel) <= multiset(c)
  {
    NoDupsMultiset(sel);
    NoDupsMultiset(c);
  }

  function SizesOfListed(rels: seq<Rel>, inv: Tree): map<Rel, int> {
    map r | r in rels && r in inv :: inv[r].size
  }

  /** The sizes of the listed files alone give the same candidates as all inventory sizes. */
  lemma SameCandidates(toPush: seq<Rel>, toPull: seq<Rel>, local: Tree, remote: Tree)
    ensures Candidates(toPush, toPull, SizesOfListed(toPush, local), SizesOfListed(toPull, remote))
         == Candidates(toPush, toPull, Sizes(local), Sizes(remote))
  {
    SameTags(toPush, Push, SizesOfListed(toPush, local), Sizes(local));
    SameTags(toPull, Pull, SizesOfListed(toPull, remote), Sizes(remote));
  }

  lemma {:induction false} SameTags(rels: seq<Rel>, dir: Direction, a: map<Rel, int>, b: map<Rel, int>)
    requires forall r :: r in rels ==> SizeOr0(a, r) == SizeOr0(b, r)
    ensures Tagged(rels, dir, a) == Tagged(rels, dir, b)
  {
    if rels != [] {
      SameTags(rels[..|rels| - 1], dir, a, b);
    }
  }

  // ----- the listing of the peer -------------------------------------------------------------

  /** What a listing text is taken to say; `None` when a line of it is refused. */
  function Read(text: string): Option<Tree> {
    Wire.ReadLines(Wire.SplitLines(text))
  }

  function Listing(text: string): Tree {
    if Read(text).Some? then Read(text).value else map[]
  }

  /** The peer printed whole lines for files it holds, each under its own path, all of which stay
      on one line; and when it says so, for all of its files. */
  ghost predicate Faithful(text: string, remote: Tree, complete: bool) {
    exists printed :: Printed(text, printed, remote, complete)
  }

  ghost predicate Printed(text: string, printed: seq<Wire.FileLine>, remote: Tree, complete: bool) {
    && text == Wire.Render(printed)
    && (forall f :: f in printed ==> ValidRelpath(f.rel) && Wire.OneLine(f.rel) && f.rel in remote && remote[f.rel] == f.meta)
    && (complete ==> forall r :: r in remote ==> Wire.FileLine(r, remote[r]) in printed)
  }

  lemma FaithfulIsRead(text: string, remote: Tree, complete: bool)
    requires Faithful(text, remote, complete)
    ensures Read(text).Some? && PartOf(Read(text).value, remote) && (complete ==> Read(text).value == remote)
  {
    var printed :| Printed(text, printed, remote, complete);
    Wire.WireRoundTripIff(printed);
    TreeOfLines(printed, remote);
    if complete {
      AllPrinted(printed, remote);
    }
  }

  lemma AllPrinted(printed: seq<Wire.FileLine>, remote: Tree)
    requires PartOf(Wire.AsTree(printed), remote) && forall r :: r in remote ==> Wire.FileLine(r, remote[r]) in printed
    ensures Wire.AsTree(printed) == remote
  {
    forall r | r in remote ensures r in Wire.AsTree(printed) { Wire.InTree(printed, Wire.FileLine(r, remote[r])); }
  }

  lemma {:induction false} TreeOfLines(printed: seq<Wire.FileLine>, remote: Tree)
    requires forall f :: f in printed ==> f.rel in remote && remote[f.rel] == f.meta
    ensures PartOf(Wire.AsTree(printed), remote)
  {
    if printed != [] {
      TreeOfLines(printed[..|printed| - 1], remote);
    }
  }

  lemma ReadIsValid(text: string)
    ensures Read(text).Some? ==> forall r :: r in Read(text).value ==> ValidRelpath(r) && Wire.OneLine(r)
  {
    Wire.NoBadPathGetsThrough(Wire.SplitLines(text));
    Wire.KeysAreOneLine(Wire.SplitLines(text));
  }

  // ----- one peer -----------------------------------------------------------------------------

  ghost function NoPlan(local: Tree, policy: Policy): TransferPlan {
    TransferPlan([], [], map[], map[], local, map[], policy)
  }

  /** What a run is given beside the trees. */
  datatype Options = Options(policy: Policy, maxFiles: Option<int>, maxBytes: Option<int>,
                             pushOnly: bool, pullOnly: bool, dryRun: bool)

  /** Both inventories tell what is there. */
  ghost predicate Honest(local: Tree, text: string, complete: bool, w: World) {
    local == w.local && Faithful(text, w.remote, complete)
  }

  /** No local path breaks a line of the peer's re-stat. Those of the listing never do. */
  ghost predicate LocalOneLined(local: Tree) {
    forall r :: r in local ==> Wire.OneLine(r)
  }

  /** No local path that breaks a line of the peer's re-stat reads there as another path either
      side has. */
  ghost predicate NothingHides(local: Tree, listed: Tree) {
    forall r :: r in local && !Wire.OneLine(r) ==> LastPart(r) !in local && LastPart(r) !in listed
  }

  /** One run against one peer, from any text the peer printed and any local inventory. Whatever
      they say, the trees end as one application of part of what was planned from them. When both
      are honest, that is part of what a full look at both sides plans, and what was carried out
      is never planned again; and when no local path can hide another in a re-plan as well, or none
      was needed, a run that ends well carried out all that was planned. */
  method SyncOnePeer(trees: SyncPair, local: Tree, text: string, complete: bool, o: Options,
                     rungs: seq<Rung>, denied: Rel -> bool, env: nat -> RungScript)
    returns (refused: bool, raised: bool, out: Outcome, truncated: bool, ghost sent: set<Rel>, ghost fetched: set<Rel>,
             ghost plan: TransferPlan, ghost trail: seq<Tried>)
    requires forall r :: r in local ==> ValidRelpath(r)
    modifies trees
    // the plan of the run, and how the ladder carried it out
    ensures !refused ==> PlannedFrom(plan, truncated, local, Listing(text), complete, o)
    ensures !refused ==> LadderRan(old(trees.Now()), rungs, plan, denied, o, env, raised, out, trail)
    ensures if refused then sent == {} && fetched == {} else sent == SentBy(trail) && fetched == FetchedBy(trail)
    ensures refused <==> Read(text).None?
    ensures refused ==> !raised && !truncated && out == Outcome(None, -1, -1, 0, 0, [])
    ensures trees.Now() == Apply(old(trees.Now()), sent, fetched)
    ensures !refused ==>
              var seen := World(local, Listing(text));
              sent <= PushSet(seen, o.policy, complete) && fetched <= PullSet(seen, o.policy, complete)
    ensures o.dryRun ==> sent == {} && fetched == {}
    ensures Honest(local, text, complete, old(trees.Now())) ==> Sound(old(trees.Now()), trees.Now(), o.policy, sent, fetched)
    ensures Honest(local, text, complete, old(trees.Now())) && LocalOneLined(local) && raised ==> SomethingRaised(env, |rungs|)
    ensures Honest(local, text, complete, old(trees.Now())) && (NothingHides(local, Listing(text)) || out.downgrades == []) && !raised
            && out.Ok() && !o.dryRun ==>
              Arrived(old(trees.Now()), trees.Now(), Listing(text), complete, o, out, denied, sent, fetched)
  {
    var answer := Wire.ParseInventoryText(text);
    refused, raised, truncated, sent, fetched := answer.None?, false, false, {}, {};
    out := Outcome(None, -1, -1, 0, 0, []);
    ghost var w0 := trees.Now();
    NothingApplied(w0);
    plan, trail := NoPlan(local, o.policy), [];
    if refused {
      if Honest(local, text, complete, w0) { FaithfulIsRead(text, w0.remote, complete); }
      return;
    }
    var listed := answer.value;
    assert listed == Listing(text);
    ReadIsValid(text);
    raised, out, truncated, sent, fetched, plan, trail := RunListed(trees, local, listed, complete, o, rungs, denied, env);
    if Honest(local, text, complete, w0) {
      FaithfulIsRead(text, w0.remote, complete);
      FairRun(w0, local, listed, complete, o, rungs, denied, env, raised, out, truncated, plan, trail);
    }
  }

  /** The ladder carried a plan out. */
  ghost predicate LadderRan(w0: World, rungs: seq<Rung>, plan: TransferPlan, denied: Rel -> bool, o: Options, env: nat -> RungScript,
                            raised: bool, out: Outcome, trail: seq<Tried>)
  {
    if rungs == [] then !raised && out == Outcome(None, -1, -1, 0, 0, []) && trail == []
    else Climbed(CourseOf(rungs, plan, denied, o.dryRun, o.pushOnly, o.pullOnly, env, w0), raised, out, trail)
  }

  /** The inventories tell what is there, as far as the listing goes. */
  ghost predicate Fair(local: Tree, listed: Tree, complete: bool, w: World) {
    local == w.local && PartOf(listed, w.remote) && (complete ==> listed == w.remote)
  }

  /** The run once the listing is read. */
  method RunListed(trees: SyncPair, local: Tree, listed: Tree, complete: bool, o: Options,
                   rungs: seq<Rung>, denied: Rel -> bool, env: nat -> RungScript)
    returns (raised: bool, out: Outcome, truncated: bool, ghost sent: set<Rel>, ghost fetched: set<Rel>,
             ghost plan: TransferPlan, ghost trail: seq<Tried>)
    requires forall r :: r in local ==> ValidRelpath(r)
    requires forall r :: r in listed ==> ValidRelpath(r) && Wire.OneLine(r)
    modifies trees
    ensures PlannedFrom(plan, truncated, local, listed, complete, o)
    ensures LadderRan(old(trees.Now()), rungs, plan, denied, o, env, raised, out, trail)
    ensures sent == SentBy(trail) && fetched == FetchedBy(trail)
    ensures trees.Now() == Apply(old(trees.Now()), sent, fetched)
    ensures sent <= PushSet(World(local, listed), o.policy, complete) && fetched <= PullSet(World(local, listed), o.policy, complete)
    ensures o.dryRun ==> sent == {} && fetched == {}
  {
    var made: TransferPlan;
    made, truncated := PlanRun(local, listed, complete, o.policy, o.maxFiles, o.maxBytes, o.pushOnly, o.pullOnly);
    plan := made;
    PlanIsRunnable(World(local, listed), complete, plan);
    raised, out, sent, fetched, trail := RunTransferLadder(trees, rungs, made, denied, o.dryRun, o.pushOnly, o.pullOnly, env);
  }

  /** What a run from fair inventories did. */
  lemma FairRun(w0: World, local: Tree, listed: Tree, complete: bool, o: Options, rungs: seq<Rung>, denied: Rel -> bool,
                env: nat -> RungScript, raised: bool, out: Outcome, truncated: bool, plan: TransferPlan, trail: seq<Tried>)
    requires Fair(local, listed, complete, w0) && forall r :: r in listed ==> Wire.OneLine(r)
    requires PlannedFrom(plan, truncated, local, listed, complete, o)
    requires LadderRan(w0, rungs, plan, denied, o, env, raised, out, trail)
    ensures Sound(w0, Apply(w0, SentBy(trail), FetchedBy(trail)), o.policy, SentBy(trail), FetchedBy(trail))
    ensures LocalOneLined(local) && raised ==> SomethingRaised(env, |rungs|)
    ensures (NothingHides(local, listed) || out.downgrades == []) && !raised && out.Ok() && !o.dryRun ==>
              Arrived(w0, Apply(w0, SentBy(trail), FetchedBy(trail)), listed, complete, o, out, denied, SentBy(trail), FetchedBy(trail))
  {
    var seen, may := World(local, listed), Scope(listed, complete, o.pushOnly, o.pullOnly);
    ScopeIsListed(local, listed, complete, o.policy, o.pushOnly, o.pullOnly);
    RunTakesPartOfThePlan(seen, o.policy, may, o.maxFiles, o.maxBytes);
    SortedRelsSorts(TakenRels(seen, o.policy, may, o.maxFiles, o.maxBytes, Push));
    SortedRelsSorts(TakenRels(seen, o.policy, may, o.maxFiles, o.maxBytes, Pull));
    PlannedAreListed(seen, o.policy);
    PlanKeys(seen, o.policy, complete);
    FairPlan(w0, listed, complete, plan);
    LadderWithin(w0, rungs, plan, denied, o, env, raised, out, trail);
    HonestRun(w0, listed, complete, o, plan, out, denied, SentBy(trail), FetchedBy(trail));
  }

  lemma PlanKeys(seen: World, policy: Policy, complete: bool)
    ensures PushSet(seen, policy, complete) <= seen.local.Keys && PullSet(seen, policy, complete) <= seen.remote.Keys
  {
    forall r | r in PushSet(seen, policy, complete) ensures r in seen.local { assert Pushes(VerdictOf(seen, policy, complete, r)); }
    forall r | r in PullSet(seen, policy, complete) ensures r in seen.remote { assert Pulls(VerdictOf(seen, policy, complete, r)); }
  }

  /** What the ladder says of its plan. */
  lemma LadderWithin(w0: World, rungs: seq<Rung>, plan: TransferPlan, denied: Rel -> bool, o: Options, env: nat -> RungScript,
                     raised: bool, out: Outcome, trail: seq<Tried>)
    requires LadderRan(w0, rungs, plan, denied, o, env, raised, out, trail)
    ensures SentBy(trail) <= Elems(plan.toPush) && FetchedBy(trail) <= Elems(plan.toPull)
    ensures raised ==> SomethingRaised(env, |rungs|) || !Exact(plan, w0)
    ensures !raised && out.Ok() && !o.dryRun && (Safe(plan, w0) || out.downgrades == []) ==>
              CarriedOut(plan, o, out, denied, SentBy(trail), FetchedBy(trail))
  {}

  lemma HonestRun(w0: World, listed: Tree, complete: bool, o: Options, plan: TransferPlan, out: Outcome, denied: Rel -> bool,
                  sent: set<Rel>, fetched: set<Rel>)
    requires Planned(plan, w0) && PartOf(listed, w0.remote) && (complete ==> listed == w0.remote) && plan.policy == o.policy
    requires sent <= Elems(plan.toPush) && fetched <= Elems(plan.toPull)
    requires var seen, may := World(w0.local, listed), Scope(listed, complete, o.pushOnly, o.pullOnly);
             && plan.toPush == SortedRels(TakenRels(seen, o.policy, may, o.maxFiles, o.maxBytes, Push))
             && plan.toPull == SortedRels(TakenRels(seen, o.policy, may, o.maxFiles, o.maxBytes, Pull))
    ensures Sound(w0, Apply(w0, sent, fetched), o.policy, sent, fetched)
    ensures CarriedOut(plan, o, out, denied, sent, fetched)
        ==> Arrived(w0, Apply(w0, sent, fetched), listed, complete, o, out, denied, sent, fetched)
  {
    PartIsSound(w0, o.policy, sent, fetched);
    if CarriedOut(plan, o, out, denied, sent, fetched) {
      AllArrived(w0, listed, complete, o, plan, out, denied, sent, fetched);
    }
  }

  /** What a run that ended well made of its plan. */
  ghost predicate CarriedOut(plan: TransferPlan, o: Options, out: Outcome, denied: Rel -> bool, sent: set<Rel>, fetched: set<Rel>) {
    && out.transport.Some?
    && Delivered(Enabled(plan.toPush, o.pullOnly), sent, out.transport.value, denied)
    && Delivered(Enabled(plan.toPull, o.pushOnly), fetched, out.transport.value, denied)
    && (out.downgrades == [] && out.transport == Some(Rdma) ==>
          sent == Allowed(Enabled(plan.toPush, o.pullOnly), denied) && fetched == Allowed(Enabled(plan.toPull, o.pushOnly), denied))
  }

  /** The trees moved along a full plan: part of it was carried out, and the next full plan is
      what is left. */
  ghost predicate Sound(w0: World, w: World, policy: Policy, sent: set<Rel>, fetched: set<Rel>) {
    && SubPlan(w0, policy, true, sent, fetched)
    && PushSet(w, policy, true) == PushSet(w0, policy, true) - sent
    && PullSet(w, policy, true) == PullSet(w0, policy, true) - fetched
  }

  /** All that was planned arrived: over ssh every file the run takes, at once over rdma every one
      that is not denied. These are the runs that converge: in the scope of the run the next plan
      is shorter, and everything still planned leads where it led before. */
  ghost predicate Arrived(w0: World, w: World, listed: Tree, complete: bool, o: Options, out: Outcome, denied: Rel -> bool,
                          sent: set<Rel>, fetched: set<Rel>)
  {
    var may := Scope(listed, complete, o.pushOnly, o.pullOnly);
    && out.transport.Some?
    && (!out.transport.value.Rdma? ==>
          && sent == TakenRels(w0, o.policy, may, o.maxFiles, o.maxBytes, Push)
          && fetched == TakenRels(w0, o.policy, may, o.maxFiles, o.maxBytes, Pull)
          && w == Run(w0, o.policy, may, o.maxFiles, o.maxBytes)
          && (Delta(w0, o.policy, may) > 0 && Admissible(o.maxFiles) ==> Delta(w, o.policy, may) < Delta(w0, o.policy, may))
          && ApplyPlan(w, o.policy, may) == ApplyPlan(w0, o.policy, may))
    && (out.transport.value.Rdma? && out.downgrades == [] ==> w == RdmaRun(w0, o.policy, may, o.maxFiles, o.maxBytes, denied))
  }

  lemma PartIsSound(w0: World, policy: Policy, sent: set<Rel>, fetched: set<Rel>)
    requires SubPlan(w0, policy, true, sent, fetched)
    ensures Sound(w0, Apply(w0, sent, fetched), policy, sent, fetched)
  {
    PlanAfterPartialApply(w0, policy, true, sent, fetched);
  }

  lemma AllArrived(w0: World, listed: Tree, complete: bool, o: Options, plan: TransferPlan, out: Outcome,
                   denied: Rel -> bool, sent: set<Rel>, fetched: set<Rel>)
    requires PartOf(listed, w0.remote) && (complete ==> listed == w0.remote)
    requires CarriedOut(plan, o, out, denied, sent, fetched)
    requires var seen, may := World(w0.local, listed), Scope(listed, complete, o.pushOnly, o.pullOnly);
             && plan.toPush == SortedRels(TakenRels(seen, o.policy, may, o.maxFiles, o.maxBytes, Push))
             && plan.toPull == SortedRels(TakenRels(seen, o.policy, may, o.maxFiles, o.maxBytes, Pull))
    ensures Arrived(w0, Apply(w0, sent, fetched), listed, complete, o, out, denied, sent, fetched)
  {
    var seen, may := World(w0.local, listed), Scope(listed, complete, o.pushOnly, o.pullOnly);
    var push := TakenRels(seen, o.policy, may, o.maxFiles, o.maxBytes, Push);
    var pull := TakenRels(seen, o.policy, may, o.maxFiles, o.maxBytes, Pull);
    SeenAsItIs(w0, listed, complete, o.policy, o.pushOnly, o.pullOnly);
    SortedRelsSorts(push);
    SortedRelsSorts(pull);
    OneWayOnly(seen, o.policy, listed, complete, o.pushOnly, o.pullOnly, o.maxFiles, o.maxBytes);
    assert Enabled(plan.toPush, o.pullOnly) == push && Enabled(plan.toPull, o.pushOnly) == pull;
    if Delta(w0, o.policy, may) > 0 {
      ProgressIff(w0, o.policy, may, o.maxFiles, o.maxBytes);
    }
    RunThenTheRest(w0, o.policy, may, o.maxFiles, o.maxBytes);
  }

  lemma OneWayOnly(seen: World, policy: Policy, listed: Tree, complete: bool, pushOnly: bool, pullOnly: bool,
                   maxFiles: Option<int>, maxBytes: Option<int>)
    ensures var may := Scope(listed, complete, pushOnly, pullOnly);
            && (pullOnly ==> TakenRels(seen, policy, may, maxFiles, maxBytes, Push) == {})
            && (pushOnly ==> TakenRels(seen, policy, may, maxFiles, maxBytes, Pull) == {})
  {
    RunTakesPartOfThePlan(seen, policy, Scope(listed, complete, pushOnly, pullOnly), maxFiles, maxBytes);
  }

  /** Within its scope a faithful listing shows what the peer holds: the limiter sees the same. */
  lemma SeenAsItIs(w0: World, listed: Tree, complete: bool, policy: Policy, pushOnly: bool, pullOnly: bool)
    requires PartOf(listed, w0.remote) && (complete ==> listed == w0.remote)
    ensures var may := Scope(listed, complete, pushOnly, pullOnly);
            RunCandidates(World(w0.local, listed), policy, may) == RunCandidates(w0, policy, may)
  {
    var seen, may := World(w0.local, listed), Scope(listed, complete, pushOnly, pullOnly);
    ScopeIsListed(w0.local, listed, complete, policy, pushOnly, pullOnly);
    TruncatedListingIsSafe(w0.local, listed, w0.remote, policy);
    SamePlanInScope(w0, listed, complete, policy, pushOnly, pullOnly);
    SortedRelsSorts(PushIn(w0, policy, may));
    SortedRelsSorts(PullIn(w0, policy, may));
    var pull := SortedRels(PullIn(w0, policy, may));
    forall r | r in pull ensures SizeOr0(Sizes(listed), r) == SizeOr0(Sizes(w0.remote), r) {
      assert r in Elems(pull) && r in PullIn(seen, policy, may);
      assert Pulls(VerdictOf(seen, policy, true, r));
      assert r in listed;
    }
    SameTags(pull, Pull, Sizes(listed), Sizes(w0.remote));
  }

  lemma SamePlanInScope(w0: World, listed: Tree, complete: bool, policy: Policy, pushOnly: bool, pullOnly: bool)
    requires PartOf(listed, w0.remote) && (complete ==> listed == w0.remote)
    ensures var seen, may := World(w0.local, listed), Scope(listed, complete, pushOnly, pullOnly);
            PushIn(seen, policy, may) == PushIn(w0, policy, may) && PullIn(seen, policy, may) == PullIn(w0, policy, may)
  {
    var seen := World(w0.local, listed);
    ScopeIsListed(w0.local, listed, complete, policy, pushOnly, pullOnly);
    TruncatedListingIsSafe(w0.local, listed, w0.remote, policy);
    TruncatedListingIsSafe(w0.local, listed, listed, policy);
    if complete {
      assert seen == w0;
    }
  }

  lemma PlanIsRunnable(seen: World, complete: bool, plan: TransferPlan)
    requires forall r :: r in seen.local || r in seen.remote ==> ValidRelpath(r)
    requires Elems(plan.toPush) <= PushSet(seen, plan.policy, complete) && Elems(plan.toPull) <= PullSet(seen, plan.policy, complete)
    ensures Runnable(plan)
    ensures PushSet(seen, plan.policy, complete) <= seen.local.Keys
    ensures PullSet(seen, plan.policy, complete) <= seen.remote.Keys
  {
    NoFileBothWays(seen, plan.policy, complete);
    PlanKeys(seen, plan.policy, complete);
    forall r | r in plan.toPush || r in plan.toPull ensures ValidRelpath(r) {
      assert r in Elems(plan.toPush) || r in Elems(plan.toPull);
    }
  }

  /** Planned from a part of what the peer holds, a plan is part of the full plan. */
  lemma PlanIsPlanned(w: World, listed: Tree, complete: bool, plan: TransferPlan)
    requires PartOf(listed, w.remote) && (complete ==> listed == w.remote)
    requires Elems(plan.toPush) <= PushSet(World(w.local, listed), plan.policy, complete)
    requires Elems(plan.toPull) <= PullSet(World(w.local, listed), plan.policy, complete)
    ensures Planned(plan, w)
  {
    TruncatedListingIsSafe(w.local, listed, w.remote, plan.policy);
  }

  /** What a plan from fair inventories is good for. */
  lemma FairPlan(w0: World, listed: Tree, complete: bool, plan: TransferPlan)
    requires PartOf(listed, w0.remote) && (complete ==> listed == w0.remote) && forall r :: r in listed ==> Wire.OneLine(r)
    requires Elems(plan.toPush) <= PushSet(World(w0.local, listed), plan.policy, complete) <= w0.local.Keys
    requires Elems(plan.toPull) <= PullSet(World(w0.local, listed), plan.policy, complete) <= listed.Keys
    ensures Planned(plan, w0)
    ensures LocalOneLined(w0.local) ==> OneLined(plan)
    ensures NothingHides(w0.local, listed) ==> Keeps(plan)
  {
    PlanIsPlanned(w0, listed, complete, plan);
    if NothingHides(w0.local, listed) {
      PlanKeeps(w0.local, listed, plan);
    }
    forall r | r in plan.toPush || r in plan.toPull ensures r in w0.local || r in listed {
      assert r in Elems(plan.toPush) || r in Elems(plan.toPull);
    }
  }

  /** The paths of a listing stay on one line, for they were read from one. */
  lemma PlanKeeps(local: Tree, listed: Tree, plan: TransferPlan)
    requires NothingHides(local, listed) && forall r :: r in listed ==> Wire.OneLine(r)
    requires Elems(plan.toPush) <= local.Keys && Elems(plan.toPull) <= listed.Keys
    ensures Keeps(plan)
  {
    forall r | r in plan.toPush ensures !Hides(plan, r) {
      assert r in Elems(plan.toPush);
      assert LastPart(r) in plan.toPush ==> LastPart(r) in Elems(plan.toPush);
      assert LastPart(r) in plan.toPull ==> LastPart(r) in Elems(plan.toPull);
    }
    forall r | r in plan.toPull ensures Wire.OneLine(r) { assert r in Elems(plan.toPull); }
  }

  // ----- behind the walk -------------------------------------------------------------------------

  ghost function Eligible(c: Walk.Rules, root: seq<Walk.Entry>): set<(Walk.Names, FileMeta)> {
    Walk.FilesOfJob(Walk.Job([], root), c)
  }

  /** The local tree is the eligible files of the home, each under its own path, as file systems
      name them. */
  ghost predicate IsHome(local: Tree, c: Walk.Rules, root: seq<Walk.Entry>) {
    Walk.DistinctNames(root) && Walk.PlainNames(Eligible(c, root)) && Walk.ExactFor(local, Eligible(c, root))
  }

  ghost predicate NoBackslashes(c: Walk.Rules, root: seq<Walk.Entry>) {
    forall x :: x in Eligible(c, root) ==> !Walk.Backslashed(x.0)
  }

  /** A real run from the walk of the home to the final trees. It stops before anything is sent
      when the walk aborts or the guard refuses. Otherwise, unless an eligible name holds a
      backslash, the walked inventory is the local tree, and against a faithful listing the run
      does what a full look at both sides plans. */
  method SyncWalkedHome(trees: SyncPair, c: Walk.Rules, root: seq<Walk.Entry>, clock: nat -> int, maxSec: int,
                        text: string, complete: bool, o: Options,
                        rungs: seq<Rung>, denied: Rel -> bool, env: nat -> RungScript)
    returns (stopped: bool, raised: bool, out: Outcome, ghost sent: set<Rel>, ghost fetched: set<Rel>, ghost readings: nat,
             ghost inv: Tree, ghost plan: TransferPlan, ghost trail: seq<Tried>)
    requires IsHome(trees.local, c, root) && !o.dryRun
    requires forall i: nat, j: nat :: i <= j ==> clock(i) <= clock(j)
    modifies trees
    ensures trees.Now() == Apply(old(trees.Now()), sent, fetched)
    ensures stopped ==> sent == {} && fetched == {} && out == Outcome(None, -1, -1, 0, 0, [])
    ensures stopped <==> Read(text).None? || CutShort(c, root, clock, maxSec, readings)
    // otherwise a run from the walked inventory, as SyncOnePeer makes it
    ensures !stopped ==>
              && Walk.Complete(inv, Eligible(c, root)) && (exists truncated :: PlannedFrom(plan, truncated, inv, Listing(text), complete, o))
              && sent == SentBy(trail) && fetched == FetchedBy(trail)
    ensures !stopped ==> LadderRan(old(trees.Now()), rungs, plan, denied, o, env, raised, out, trail)
    ensures NoBackslashes(c, root) && Faithful(text, old(trees.remote), complete) ==>
              Sound(old(trees.Now()), trees.Now(), o.policy, sent, fetched)
    ensures NoBackslashes(c, root) && Faithful(text, old(trees.remote), complete)
            && !stopped && !raised && out.Ok() && (NothingHides(old(trees.local), Listing(text)) || out.downgrades == []) ==>
              Arrived(old(trees.Now()), trees.Now(), Listing(text), complete, o, out, denied, sent, fetched)
  {
    var walked: Walk.Inventory;
    var guarded: Walk.Guarded;
    raised, walked, guarded, readings := Walk.GuardedHomeInventory(c, root, clock, maxSec, false);
    stopped, sent, fetched, out := raised || guarded.Refused?, {}, {}, Outcome(None, -1, -1, 0, 0, []);
    inv, plan, trail := walked.files, NoPlan(walked.files, o.policy), [];
    NothingApplied(trees.Now());
    PartIsSound(trees.Now(), o.policy, {}, {});
    if stopped {
      return;
    }
    if NoBackslashes(c, root) {
      WalkedIsLocal(trees.local, walked.files, c, root);
    }
    var refused, truncated;
    refused, raised, out, truncated, sent, fetched, plan, trail := SyncOnePeer(trees, walked.files, text, complete, o, rungs, denied, env);
    stopped := refused;
  }

  /** The walk of the home aborts at a path, meets a directory that hangs, or runs out of time. */
  ghost predicate CutShort(c: Walk.Rules, root: seq<Walk.Entry>, clock: nat -> int, maxSec: int, readings: nat) {
    var items := Walk.ItemsOfJob(Walk.Job([], root), c);
    !Walk.AllValid(items) || Walk.SomeHung(items, c) || exists i: nat :: i < readings && clock(i) - clock(0) > maxSec
  }

  lemma WalkedIsLocal(local: Tree, walked: Tree, c: Walk.Rules, root: seq<Walk.Entry>)
    requires IsHome(local, c, root) && NoBackslashes(c, root) && Walk.Complete(walked, Eligible(c, root))
    ensures walked == local
  {
    Walk.OneTreeIsFunctional(root, [], c);
    Walk.InventoryIsExactIff(walked, Eligible(c, root));
    Walk.ExactIsUnique(local, walked, Eligible(c, root));
  }
}
