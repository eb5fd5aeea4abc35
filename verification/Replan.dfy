/** The re-plan between two rungs (`sync_replan`): ask both sides for the planned paths and plan
    them afresh. The peer answers in lines of text. */
module Replan {
  import opened Base
  import opened Planning
  import opened Paths
  import opened Transfer
  import Wire

  datatype TransferPlan = TransferPlan(
    toPush: seq<Rel>, toPull: seq<Rel>, pushSizes: map<Rel, int>, pullSizes: map<Rel, int>,
    localInv: Tree, remoteInv: Tree, policy: Policy)

  /** How asking the peer ends: its script printed its lines, ssh or scp failed, or the call
      raised. */
  datatype RestatEnding = Answers | Unreachable | CallRaised

  /** What a plan must be to be run: no path goes both ways, and every path passed the path
      check on its way into an inventory. */
  ghost predicate Runnable(plan: TransferPlan) {
    && Elems(plan.toPush) !! Elems(plan.toPull)
    && forall r :: r in plan.toPush || r in plan.toPull ==> ValidRelpath(r)
  }

  /** Part of what a full plan of the two trees would transfer. */
  ghost predicate Planned(plan: TransferPlan, w: World) {
    SubPlan(w, plan.policy, true, Elems(plan.toPush), Elems(plan.toPull))
  }

  /** Every planned path stays on one line of the peer's answer. */
  ghost predicate OneLined(plan: TransferPlan) {
    forall r :: r in plan.toPush || r in plan.toPull ==> Wire.OneLine(r)
  }

  // ----- asking both sides ----------------------------------------------------------------

  /** `_stat_local`: what the asked paths are on this side. */
  method StatSide(tree: Tree, rels: seq<Rel>) returns (out: Tree)
    ensures out == Restricted(tree, rels)
  {
    out := map[];
    for i := 0 to |rels|
      invariant out == Restricted(tree, rels[..i])
    {
      assert rels[..i + 1] == rels[..i] + [rels[i]];
      if !HasDotDot(rels[i]) && rels[i] in tree {
        out := out[rels[i] := tree[rels[i]]];
      }
    }
    assert rels[..|rels|] == rels;
  }

  /** What the script on the peer prints: a line for each asked path that exists. */
  function StatLines(tree: Tree, rels: seq<Rel>): seq<Wire.FileLine> {
    if rels == [] then [] else
      var r := rels[|rels| - 1];
      StatLines(tree, rels[..|rels| - 1])
      + if !HasDotDot(r) && r in tree then [Wire.FileLine(r, tree[r])] else []
  }

  /** The peer's answer as this side reads it back; `None` when a line is refused. */
  function Answer(tree: Tree, rels: seq<Rel>): Option<Tree> {
    Wire.ReadLines(Wire.SplitLines(Wire.Render(StatLines(tree, rels))))
  }

  /** `_stat_remote`, when the peer answers. */
  method StatRemote(tree: Tree, rels: seq<Rel>) returns (answer: Option<Tree>)
    ensures answer == Answer(tree, rels)
  {
    var lines: seq<Wire.FileLine> := [];
    for i := 0 to |rels|
      invariant lines == StatLines(tree, rels[..i])
    {
      assert rels[..i + 1][..i] == rels[..i];
      if !HasDotDot(rels[i]) && rels[i] in tree {
        lines := lines + [Wire.FileLine(rels[i], tree[rels[i]])];
      }
    }
    assert rels[..|rels|] == rels;
    answer := Wire.ParseInventoryText(Wire.Render(lines));
  }

  lemma {:induction false} StatLinesAre(tree: Tree, rels: seq<Rel>)
    ensures forall f :: f in StatLines(tree, rels) <==> f.rel in rels && !HasDotDot(f.rel) && f.rel in tree && f.meta == tree[f.rel]
  {
    if rels != [] {
      StatLinesAre(tree, rels[..|rels| - 1]);
      assert rels == rels[..|rels| - 1] + [rels[|rels| - 1]];
    }
  }

  lemma {:induction false} StatLinesTree(tree: Tree, rels: seq<Rel>)
    ensures Wire.AsTree(StatLines(tree, rels)) == Restricted(tree, rels)
  {
    if rels == [] {
      assert Restricted(tree, rels) == map[];
    } else {
      var n, r := |rels| - 1, rels[|rels| - 1];
      StatLinesTree(tree, rels[..n]);
      RestrictedMore(tree, rels);
      if !HasDotDot(r) && r in tree {
        AsTreeSnoc(StatLines(tree, rels[..n]), Wire.FileLine(r, tree[r]));
      } else {
        assert StatLines(tree, rels[..n]) + [] == StatLines(tree, rels[..n]);
      }
    }
  }

  lemma AsTreeSnoc(before: seq<Wire.FileLine>, f: Wire.FileLine)
    ensures Wire.AsTree(before + [f]) == Wire.AsTree(before)[f.rel := f.meta]
  {
    assert (before + [f])[..|before|] == before;
  }

  lemma RestrictedMore(tree: Tree, rels: seq<Rel>)
    requires rels != []
    ensures var r, before := rels[|rels| - 1], Restricted(tree, rels[..|rels| - 1]);
            Restricted(tree, rels) == if !HasDotDot(r) && r in tree then before[r := tree[r]] else before
  {
    assert rels == rels[..|rels| - 1] + [rels[|rels| - 1]];
  }

  /** The answer tells what the peer holds exactly when every path it prints stays on one line. */
  lemma AnswerIsExactIff(tree: Tree, rels: seq<Rel>)
    requires forall r :: r in rels ==> ValidRelpath(r)
    ensures Answer(tree, rels) == Some(Restricted(tree, rels)) <==> forall r :: r in rels && r in tree ==> Wire.OneLine(r)
  {
    var lines := StatLines(tree, rels);
    StatLinesAre(tree, rels);
    StatLinesTree(tree, rels);
    forall f | f in lines ensures ValidRelpath(f.rel) {}
    Wire.WireRoundTripIff(lines);
    forall r | r in rels && r in tree ensures Wire.FileLine(r, tree[r]) in lines { assert !HasDotDot(r); }
    if forall r :: r in rels && r in tree ==> Wire.OneLine(r) {
      forall f | f in lines ensures Wire.OneLine(f.rel) {}
    } else {
      var r :| r in rels && r in tree && !Wire.OneLine(r);
      assert Wire.FileLine(r, tree[r]) in lines;
    }
  }

  /** Whatever it says, it never names a path that would break a line. */
  lemma AnswerIsOneLined(tree: Tree, rels: seq<Rel>)
    ensures Answer(tree, rels).Some? ==> forall r :: r in Answer(tree, rels).value ==> Wire.OneLine(r)
  {
    Wire.KeysAreOneLine(Wire.SplitLines(Wire.Render(StatLines(tree, rels))));
  }

  function Restricted(tree: Tree, rels: seq<Rel>): Tree {
    map rel | rel in tree && rel in rels && !HasDotDot(rel) :: tree[rel]
  }

  /** The planned paths, as both sides are asked for them. */
  ghost function Asked(plan: TransferPlan): seq<Rel> {
    SortedRels(Elems(plan.toPush + plan.toPull))
  }

  /** What a re-plan sees: this side as it is, the peer as its answer reads. */
  ghost function Seen(w: World, plan: TransferPlan): World
    requires Answer(w.remote, Asked(plan)).Some?
  {
    World(Restricted(w.local, Asked(plan)), Answer(w.remote, Asked(plan)).value)
  }

  /** What a re-plan makes of a plan: in list order, each path as often as it was listed if it is
      planned again in the same direction, and otherwise not at all. */
  ghost predicate Replanned(w: World, plan: TransferPlan, p: TransferPlan) {
    && Answer(w.remote, Asked(plan)).Some?
    && var seen := Seen(w, plan);
    && Thinned(plan.toPush, PushSet(seen, plan.policy, true), p.toPush)
    && Thinned(plan.toPull, PullSet(seen, plan.policy, true), p.toPull)
    && Stated(p.toPush, p.pushSizes, plan.pushSizes, seen.local)
    && Stated(p.toPull, p.pullSizes, plan.pullSizes, seen.remote)
    && p.localInv == plan.localInv + seen.local && p.remoteInv == plan.remoteInv + seen.remote
    && p.policy == plan.policy
  }

  /** `replan_remaining`: re-stat the planned paths on both sides, plan them afresh, and keep
      of the current plan what is planned again in the same direction. An answer with a refused
      path raises. */
  method ReplanRemaining(trees: SyncPair, plan: TransferPlan, restat: RestatEnding) returns (raised: bool, p: TransferPlan)
    ensures raised <==> (plan.toPush != [] || plan.toPull != [])
                        && (restat.CallRaised? || (restat.Answers? && Answer(trees.remote, Asked(plan)).None?))
    ensures !raised && restat.Answers? && (plan.toPush != [] || plan.toPull != []) ==> Replanned(trees.Now(), plan, p)
    ensures raised || !restat.Answers? || (plan.toPush == [] && plan.toPull == []) ==> p == plan
  {
    raised, p := false, plan;
    if plan.toPush + plan.toPull == [] {
      return;
    }
    var order := IterationOrder(Elems(plan.toPush + plan.toPull));
    var rels := Sort(order, RelLe);
    SortIsSortedRels(order, Elems(plan.toPush + plan.toPull));
    var localNow := StatSide(trees.local, rels);
    if restat.CallRaised? {
      raised := true;
      return;
    }
    if restat.Unreachable? {
      return;
    }
    var answer := StatRemote(trees.remote, rels);
    if answer.None? {
      raised := true;
      return;
    }
    var remoteNow := answer.value;
    var pushNow, pullNow, stats := PlanTransfers(localNow, remoteNow, plan.policy, true);
    var keepPush := KeepOnly(plan.toPush, Elems(pushNow));
    var keepPull := KeepOnly(plan.toPull, Elems(pullNow));
    WhatReplanKeeps(World(localNow, remoteNow), plan, pushNow, pullNow);
    p := plan.(
      toPush := keepPush,
      toPull := keepPull,
      pushSizes := SizesOf(keepPush, plan.pushSizes, localNow),
      pullSizes := SizesOf(keepPull, plan.pullSizes, remoteNow),
      localInv := plan.localInv + localNow,
      remoteInv := plan.remoteInv + remoteNow);
    assert World(localNow, remoteNow) == Seen(trees.Now(), plan);
    NarrowedIsReplanned(trees.Now(), plan, Elems(pushNow), Elems(pullNow), p);
  }

  lemma NarrowedIsReplanned(w: World, plan: TransferPlan, pushNow: set<Rel>, pullNow: set<Rel>, p: TransferPlan)
    requires Answer(w.remote, Asked(plan)).Some?
    requires pushNow == PushSet(Seen(w, plan), plan.policy, true) && pullNow == PullSet(Seen(w, plan), plan.policy, true)
    requires p.toPush == KeepOnly(plan.toPush, pushNow) && p.toPull == KeepOnly(plan.toPull, pullNow)
    requires Elems(p.toPush) <= Seen(w, plan).local.Keys && Elems(p.toPull) <= Seen(w, plan).remote.Keys
    requires p.pushSizes == SizesOf(p.toPush, plan.pushSizes, Seen(w, plan).local)
    requires p.pullSizes == SizesOf(p.toPull, plan.pullSizes, Seen(w, plan).remote)
    requires p.localInv == plan.localInv + Seen(w, plan).local && p.remoteInv == plan.remoteInv + Seen(w, plan).remote
    requires p.policy == plan.policy
    ensures Replanned(w, plan, p)
  {
    KeepOnlyThins(plan.toPush, pushNow);
    KeepOnlyThins(plan.toPull, pullNow);
    SizesAreStated(p.toPush, plan.pushSizes, Seen(w, plan).local);
    SizesAreStated(p.toPull, plan.pullSizes, Seen(w, plan).remote);
  }

  lemma SizesAreStated(kept: seq<Rel>, planned: map<Rel, int>, now: Tree)
    requires Elems(kept) <= now.Keys
    ensures Stated(kept, SizesOf(kept, planned, now), planned, now)
  {
    forall r | r in kept ensures r in now { assert r in Elems(kept); }
  }

  /** The kept paths and no others have a size: the planned one, or else the one it has now. */
  ghost predicate Stated(kept: seq<Rel>, sizes: map<Rel, int>, planned: map<Rel, int>, now: Tree) {
    sizes.Keys == Elems(kept) && forall r :: r in kept ==>
      if r in planned then r in sizes && sizes[r] == planned[r] else r in sizes && r in now && sizes[r] == now[r].size
  }

  /** The sizes a narrowed plan carries: the planned ones, or the stat'ed ones. Every lookup
      is defined. */
  function SizesOf(kept: seq<Rel>, planned: map<Rel, int>, now: Tree): (sizes: map<Rel, int>)
    requires Elems(kept) <= now.Keys
    ensures sizes.Keys == Elems(kept)
  {
    map r | r in kept :: if r in planned then planned[r] else now[r].size
  }

  lemma WhatReplanKeeps(seen: World, plan: TransferPlan, pushNow: seq<Rel>, pullNow: seq<Rel>)
    requires pushNow == SortedRels(PushSet(seen, plan.policy, true)) && pullNow == SortedRels(PullSet(seen, plan.policy, true))
    ensures Elems(pushNow) == PushSet(seen, plan.policy, true) && Elems(pullNow) == PullSet(seen, plan.policy, true)
    ensures Elems(KeepOnly(plan.toPush, Elems(pushNow))) <= seen.local.Keys
    ensures Elems(KeepOnly(plan.toPull, Elems(pullNow))) <= seen.remote.Keys
  {
    SortedRelsSorts(PushSet(seen, plan.policy, true));
    SortedRelsSorts(PullSet(seen, plan.policy, true));
    PlannedAreListed(seen, plan.policy);
    KeepOnlyElems(plan.toPush, Elems(pushNow));
    KeepOnlyElems(plan.toPull, Elems(pullNow));
  }

  lemma PlannedAreListed(w: World, policy: Policy)
    ensures PushSet(w, policy, true) <= w.local.Keys && PullSet(w, policy, true) <= w.remote.Keys
  {
    forall r | r in PushSet(w, policy, true) ensures r in w.local { assert Pushes(VerdictOf(w, policy, true, r)); }
    forall r | r in PullSet(w, policy, true) ensures r in w.remote { assert Pulls(VerdictOf(w, policy, true, r)); }
  }

  /** Planning only the stat'ed paths decides each of them as planning the whole trees does. */
  lemma PlanOfThePlanned(w: World, policy: Policy, rels: seq<Rel>)
    requires forall r :: r in rels ==> ValidRelpath(r)
    ensures var part := World(Restricted(w.local, rels), Restricted(w.remote, rels));
            forall r :: r in rels ==>
              && (r in PushSet(part, policy, true) <==> r in PushSet(w, policy, true))
              && (r in PullSet(part, policy, true) <==> r in PullSet(w, policy, true))
  {
    var part := World(Restricted(w.local, rels), Restricted(w.remote, rels));
    forall r | r in rels
      ensures r in PushSet(part, policy, true) <==> r in PushSet(w, policy, true)
      ensures r in PullSet(part, policy, true) <==> r in PullSet(w, policy, true)
    {
      assert !HasDotDot(r);
      assert Get(part.local, r) == Get(w.local, r) && Get(part.remote, r) == Get(w.remote, r);
      if r in w.Rels() {
        assert VerdictOf(part, policy, true, r) == VerdictOf(w, policy, true, r);
      }
    }
  }

  /** What a re-plan keeps of a plan, as sets; `None` when it raises. */
  ghost function Narrowed(w: World, plan: TransferPlan): Option<(set<Rel>, set<Rel>)> {
    if Answer(w.remote, Asked(plan)).None? then None
    else Some((Elems(plan.toPush) * PushSet(Seen(w, plan), plan.policy, true),
               Elems(plan.toPull) * PullSet(Seen(w, plan), plan.policy, true)))
  }

  /** A re-plan after `pushed` and `pulled` were copied leaves exactly the others. */
  ghost predicate ReplanIsExact(w0: World, plan: TransferPlan, pushed: set<Rel>, pulled: set<Rel>) {
    Narrowed(Apply(w0, pushed, pulled), plan) == Some((Elems(plan.toPush) - pushed, Elems(plan.toPull) - pulled))
  }

  lemma AskedAre(plan: TransferPlan)
    ensures forall r :: r in Asked(plan) <==> r in plan.toPush || r in plan.toPull
  {
    SortedRelsSorts(Elems(plan.toPush + plan.toPull));
    forall r ensures r in Asked(plan) <==> r in plan.toPush || r in plan.toPull {
      assert r in Asked(plan) <==> r in Elems(Asked(plan));
    }
  }

  /** After any part of the full plan was copied, the re-plan of a list cut from that plan is
      the list minus the part, as long as every path of the list stays on one line. */
  lemma ReplanDropsExactlyTheCopied(w0: World, plan: TransferPlan, pushed: set<Rel>, pulled: set<Rel>)
    requires SubPlan(w0, plan.policy, true, pushed, pulled)
    requires Runnable(plan) && Planned(plan, w0) && OneLined(plan)
    ensures ReplanIsExact(w0, plan, pushed, pulled)
  {
    var w := Apply(w0, pushed, pulled);
    AskedAre(plan);
    AnswerIsExactIff(w.remote, Asked(plan));
    PlanOfThePlanned(w, plan.policy, Asked(plan));
    PlanAfterPartialApply(w0, plan.policy, true, pushed, pulled);
    KeepsTheRest(Elems(plan.toPush), PushSet(w0, plan.policy, true), pushed, PushSet(Seen(w, plan), plan.policy, true));
    KeepsTheRest(Elems(plan.toPull), PullSet(w0, plan.policy, true), pulled, PullSet(Seen(w, plan), plan.policy, true));
  }

  lemma KeepsTheRest(list: set<Rel>, planned: set<Rel>, copied: set<Rel>, now: set<Rel>)
    requires list <= planned && forall r :: r in list ==> (r in now <==> r in planned - copied)
    ensures list * now == list - copied
  {}

  /** A pull of a path that does not stay on one line is dropped although nothing was copied. */
  lemma PullIsDropped(w0: World, plan: TransferPlan, r: Rel)
    requires r in plan.toPull && !Wire.OneLine(r)
    ensures !ReplanIsExact(w0, plan, {}, {})
  {
    var w := Apply(w0, {}, {});
    if Narrowed(w, plan).Some? {
      NotSeen(w, plan, r);
      assert r !in Narrowed(w, plan).value.1 && r in Elems(plan.toPull) - {};
    }
  }

  /** A push of one is kept although it was copied. */
  lemma PushIsKept(w0: World, plan: TransferPlan, r: Rel)
    requires r in plan.toPush && r in w0.local && ValidRelpath(r) && !Wire.OneLine(r)
    ensures !ReplanIsExact(w0, plan, {r}, {})
  {
    var w := Apply(w0, {r}, {});
    if Narrowed(w, plan).Some? {
      NotSeen(w, plan, r);
      AskedAre(plan);
      assert !HasDotDot(r) && r in w.local && r in Seen(w, plan).local;
      assert VerdictOf(Seen(w, plan), plan.policy, true, r) == OnlyLocal;
      assert r in Narrowed(w, plan).value.0 && r !in Elems(plan.toPush) - {r};
    }
  }

  lemma NotSeen(w: World, plan: TransferPlan, r: Rel)
    requires Narrowed(w, plan).Some? && !Wire.OneLine(r)
    ensures r !in Seen(w, plan).remote && r !in PullSet(Seen(w, plan), plan.policy, true)
  {
    AnswerIsOneLined(w.remote, Asked(plan));
    PlannedAreListed(Seen(w, plan), plan.policy);
  }

  /** Re-plan exactness: it is exact for every part of the plan that may have been copied, if
      and only if every planned path stays on one line of the peer's answer. */
  lemma ReplanIsExactIff(w0: World, plan: TransferPlan)
    requires Runnable(plan) && Planned(plan, w0)
    ensures (forall pushed, pulled :: pushed <= Elems(plan.toPush) && pulled <= Elems(plan.toPull) ==> ReplanIsExact(w0, plan, pushed, pulled))
       <==> OneLined(plan)
  {
    if OneLined(plan) {
      forall pushed, pulled | pushed <= Elems(plan.toPush) && pulled <= Elems(plan.toPull)
        ensures ReplanIsExact(w0, plan, pushed, pulled)
      {
        ReplanDropsExactlyTheCopied(w0, plan, pushed, pulled);
      }
    } else {
      var r :| (r in plan.toPush || r in plan.toPull) && !Wire.OneLine(r);
      assert {} <= Elems(plan.toPull) && {} <= Elems(plan.toPush);
      if r in plan.toPull {
        PullIsDropped(w0, plan, r);
      } else {
        PlannedAreListed(w0, plan.policy);
        PushIsKept(w0, plan, r);
        assert {r} <= Elems(plan.toPush);
      }
    }
  }

  /** One such pair of paths, `front` + separator + `back` and `back`, both to be pushed, and a
      rung that dies after the first: the peer's answer is taken to name the second, so the
      re-plan drops the file that never went out and keeps the one that did. A next rung that
      delivers all it is given leaves the peer without it. */
  lemma UncopiedFileIsDropped(front: string, sep: char, back: string, meta: FileMeta, policy: Policy) returns (w0: World, plan: TransferPlan)
    requires Wire.LineBreak(sep) && sep != '\r' && Wire.OneLine(front) && Wire.OneLine(back)
    requires ValidRelpath(front + [sep] + back) && ValidRelpath(back)
    ensures var long := front + [sep] + back;
            && Runnable(plan) && Planned(plan, w0) && plan.toPush == [long, back] && plan.toPull == []
            && Narrowed(Apply(w0, {long}, {}), plan) == Some(({long}, {}))
            && back in Apply(w0, Elems(plan.toPush), {}).remote
            && back !in Apply(Apply(w0, {long}, {}), {long}, {}).remote
  {
    var long := front + [sep] + back;
    assert |long| == |front| + 1 + |back|;
    w0 := World(map[long := meta, back := meta], map[]);
    plan := TransferPlan([long, back], [], map[], map[], w0.local, w0.remote, policy);
    OnlyHereIsPushed(w0, policy, long);
    OnlyHereIsPushed(w0, policy, back);
    PushesArePlanned(w0, plan, long, back);
    OneCopied(w0, long, back, meta);
    AnswerOfOne(front, sep, back, meta, plan);
    KeepsTheWrongOne(Apply(w0, {long}, {}), plan, long, back);
  }

  lemma OnlyHereIsPushed(w: World, policy: Policy, r: Rel)
    requires r in w.local && r !in w.remote
    ensures r in PushSet(w, policy, true)
  {
    assert VerdictOf(w, policy, true, r) == OnlyLocal;
  }

  lemma PushesArePlanned(w: World, plan: TransferPlan, a: Rel, b: Rel)
    requires plan.toPush == [a, b] && plan.toPull == [] && ValidRelpath(a) && ValidRelpath(b)
    requires a in PushSet(w, plan.policy, true) && b in PushSet(w, plan.policy, true)
    ensures Runnable(plan) && Planned(plan, w) && Elems(plan.toPush) == {a, b}
  {}

  lemma EqualStays(w: World, policy: Policy, r: Rel)
    requires r in w.local && r in w.remote && w.local[r] == w.remote[r]
    ensures r !in PushSet(w, policy, true)
  {
    assert VerdictOf(w, policy, true, r) == Equal;
  }

  lemma OneCopied(w0: World, long: Rel, back: Rel, meta: FileMeta)
    requires w0.local.Keys == {long, back} && w0.local[long] == meta && w0.remote == map[] && long != back
    ensures var w := Apply(w0, {long}, {});
            && w.local == w0.local && w.remote == map[long := meta]
            && back in Apply(w0, {long, back}, {}).remote && back !in Apply(w, {long}, {}).remote
  {}

  lemma KeepsTheWrongOne(w: World, plan: TransferPlan, long: Rel, back: Rel)
    requires plan.toPush == [long, back] && plan.toPull == [] && ValidRelpath(long) && ValidRelpath(back)
    requires long in w.local && back in w.local && Answer(w.remote, Asked(plan)).Some?
    requires var answer := Answer(w.remote, Asked(plan)).value; long !in answer && back in answer && answer[back] == w.local[back]
    ensures Narrowed(w, plan) == Some(({long}, {}))
  {
    var seen := Seen(w, plan);
    AskedAre(plan);
    assert !HasDotDot(long) && !HasDotDot(back);
    assert long in seen.local && back in seen.local;
    OnlyHereIsPushed(seen, plan.policy, long);
    EqualStays(seen, plan.policy, back);
    OnlyOneOf(plan.toPush, long, back, PushSet(seen, plan.policy, true));
    NoneOf(plan.toPull, PullSet(seen, plan.policy, true));
    assert Narrowed(w, plan).value.0 == {long};
    assert Narrowed(w, plan).value.1 == {};
  }

  lemma NoneOf(rels: seq<Rel>, keep: set<Rel>)
    requires rels == []
    ensures Elems(rels) * keep == {}
  {}

  lemma OnlyOneOf(rels: seq<Rel>, a: Rel, b: Rel, keep: set<Rel>)
    requires rels == [a, b] && a in keep && b !in keep
    ensures Elems(rels) * keep == {a}
  {}

  lemma AnswerOfOne(front: string, sep: char, back: string, meta: FileMeta, plan: TransferPlan)
    requires Wire.LineBreak(sep) && sep != '\r' && Wire.OneLine(front) && Wire.OneLine(back)
    requires ValidRelpath(front + [sep] + back) && front + [sep] + back in plan.toPush
    ensures Answer(map[front + [sep] + back := meta], Asked(plan)) == if ValidRelpath(back) then Some(map[back := meta]) else None
  {
    var long := front + [sep] + back;
    AskedAre(plan);
    SortedRelsSorts(Elems(plan.toPush + plan.toPull));
    OnlyLine(map[long := meta], Asked(plan), long);
    Wire.NoTabInside(long);
    forall c | c in front ensures c in long {}
    forall c | c in back ensures c in long {}
    Wire.SplitPathReadsAs(front, sep, back, meta);
  }

  lemma {:induction false} OnlyLine(tree: Tree, rels: seq<Rel>, long: Rel)
    requires tree.Keys == {long} && !HasDotDot(long) && NoDups(rels)
    ensures StatLines(tree, rels) == if long in rels then [Wire.FileLine(long, tree[long])] else []
  {
    if rels != [] {
      var n := |rels| - 1;
      OnlyLine(tree, rels[..n], long);
      assert rels == rels[..n] + [rels[n]];
      assert rels[n] !in rels[..n];
    }
  }

  /** When the part behind the separator is no acceptable path, the re-plan raises instead. */
  lemma ReplanRaises(front: string, sep: char, back: string, meta: FileMeta, policy: Policy) returns (w0: World, plan: TransferPlan)
    requires Wire.LineBreak(sep) && sep != '\r' && Wire.OneLine(front) && Wire.OneLine(back)
    requires ValidRelpath(front + [sep] + back) && !ValidRelpath(back)
    ensures Runnable(plan) && Planned(plan, w0) && plan.toPush == [front + [sep] + back] && plan.toPull == []
    ensures Narrowed(Apply(w0, Elems(plan.toPush), {}), plan).None?
  {
    var long := front + [sep] + back;
    w0 := World(map[long := meta], map[]);
    plan := TransferPlan([long], [], map[], map[], w0.local, w0.remote, policy);
    assert VerdictOf(w0, policy, true, long) == OnlyLocal;
    var w := Apply(w0, Elems(plan.toPush), {});
    assert w.remote == map[long := meta];
    AnswerOfOne(front, sep, back, meta, plan);
  }

  /** Such paths pass the path check: a file `a<U+2028>b` beside a file `b`. */
  lemma DroppedInput(long: Rel, back: Rel, meta: FileMeta, policy: Policy) returns (w0: World, plan: TransferPlan)
    requires long == ['a', '\U{2028}', 'b'] && back == ['b']
    ensures plan.toPush == [long, back] && plan.toPull == [] && Runnable(plan) && Planned(plan, w0)
    ensures Narrowed(Apply(w0, {long}, {}), plan) == Some(({long}, {}))
  {
    var front := long[..1];
    assert long == front + ['\U{2028}'] + back;
    NameIsAccepted(long);
    NameIsAccepted(back);
    w0, plan := UncopiedFileIsDropped(front, '\U{2028}', back, meta, policy);
  }

  /** And `a<U+2028>/b`: a file in a directory whose name ends in the separator. */
  lemma RaisingInput(dir: string, file: string, meta: FileMeta, policy: Policy) returns (w0: World, plan: TransferPlan)
    requires dir == ['a', '\U{2028}'] && file == ['b']
    ensures plan.toPush == [dir + ['/'] + file] && plan.toPull == [] && Runnable(plan) && Planned(plan, w0)
    ensures Narrowed(Apply(w0, Elems(plan.toPush), {}), plan).None?
  {
    var front, back := dir[..1], ['/'] + file;
    assert dir + ['/'] + file == front + ['\U{2028}'] + back;
    InDirectory(dir, file);
    assert back[0] == '/';
    w0, plan := ReplanRaises(front, '\U{2028}', back, meta, policy);
  }

  lemma NameIsAccepted(name: string)
    requires ValidComponent(name)
    ensures ValidRelpath(name)
  {
    assert name[0] in name;
    SplitPlain(name, '/');
  }

  lemma InDirectory(dir: string, file: string)
    requires ValidComponent(dir) && ValidComponent(file)
    ensures ValidRelpath(dir + ['/'] + file)
  {
    var parts := [dir, file];
    assert parts[..1] == [dir] && Join([dir], '/') == dir;
    assert Join(parts, '/') == dir + ['/'] + file;
    ProperNamesAreAccepted(parts);
  }
}
