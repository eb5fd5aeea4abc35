/** When a re-plan loses a file. A path that breaks a line of the peer's answer is read as the part
    behind its last break, so a pushed file can stand in for another planned one. */
module ReplanLoss {
  import opened Base
  import opened Planning
  import opened Paths
  import opened Replan
  import opened Readback
  import Wire

  /** After `pushed` and `pulled` were copied, a re-plan that does not raise keeps all that did not
      arrive. */
  ghost predicate LosesNothing(w0: World, plan: TransferPlan, pushed: set<Rel>, pulled: set<Rel>) {
    var n := Narrowed(Apply(w0, pushed, pulled), plan);
    n.Some? ==> Elems(plan.toPush) - pushed <= n.value.0 && Elems(plan.toPull) - pulled <= n.value.1
  }

  /** The policies that pull a file both sides have. */
  predicate PullsKnown(policy: Policy) { policy.Newer? || policy.Larger? || policy.PreferRemote? }

  /** Once pushed, a path whose line reads as another planned path and so can hide that that one is
      missing: one to be pushed, or one to be pulled that both sides have and whose own line does
      not come later. */
  ghost predicate Hides(plan: TransferPlan, r: Rel) {
    var p := LastPart(r);
    p != r && (p in plan.toPush || (p in plan.toPull && RelLe(p, r) && PullsKnown(plan.policy)))
  }

  ghost predicate Lossless(plan: TransferPlan) {
    (forall r :: r in plan.toPull ==> Wire.OneLine(r)) && (forall r :: r in plan.toPush ==> !Hides(plan, r))
  }

  /** The peer holds a path that reads as no acceptable one, so every answer is refused. */
  ghost predicate AlwaysRefused(plan: TransferPlan) {
    exists r :: r in plan.toPull && !ValidRelpath(LastPart(r))
  }

  lemma OneLinedIsLossless(plan: TransferPlan)
    requires OneLined(plan)
    ensures Lossless(plan)
  {}

  // ----- what the answer says ------------------------------------------------------------------

  /** An asked path that the peer holds reads as `p`. */
  ghost predicate Shows(tree: Tree, rels: seq<Rel>, p: Rel) {
    exists r :: r in rels && r in tree && LastPart(r) == p
  }

  lemma AnswerNames(tree: Tree, plan: TransferPlan)
    requires Runnable(plan)
    ensures Answer(tree, Asked(plan)) == TakenFor(StatLines(tree, Asked(plan)))
    ensures Answer(tree, Asked(plan)).None? <==> exists r :: r in Asked(plan) && r in tree && !ValidRelpath(LastPart(r))
    ensures Answer(tree, Asked(plan)).Some? ==>
              forall p :: p in Answer(tree, Asked(plan)).value <==> Shows(tree, Asked(plan), p)
  {
    var lines := StatLines(tree, Asked(plan));
    AskedAre(plan);
    StatLinesAre(tree, Asked(plan));
    PrintedReadsAs(lines);
    TakenForNames(lines);
    forall r | r in Asked(plan) && r in tree ensures Wire.FileLine(r, tree[r]) in lines { assert !HasDotDot(r); }
    if r :| r in Asked(plan) && r in tree && !ValidRelpath(LastPart(r)) {
      assert Wire.FileLine(r, tree[r]) in lines;
    }
    if Answer(tree, Asked(plan)).Some? {
      forall p ensures p in Answer(tree, Asked(plan)).value <==> Shows(tree, Asked(plan), p) {
        NameOfLines(tree, Asked(plan), lines, p);
      }
    }
  }

  lemma NameOfLines(tree: Tree, rels: seq<Rel>, lines: seq<Wire.FileLine>, p: Rel)
    requires forall r :: r in rels && r in tree ==> Wire.FileLine(r, tree[r]) in lines
    requires forall f :: f in lines ==> f.rel in rels && f.rel in tree
    ensures (exists f :: f in lines && LastPart(f.rel) == p) <==> Shows(tree, rels, p)
  {
    if r :| r in rels && r in tree && LastPart(r) == p {
      assert Wire.FileLine(r, tree[r]) in lines;
    }
  }

  ghost predicate InOrder(lines: seq<Wire.FileLine>) {
    forall i, j :: 0 <= i < j < |lines| ==> RelLe(lines[i].rel, lines[j].rel) && lines[i].rel != lines[j].rel
  }

  lemma {:induction false} StatLinesInOrder(tree: Tree, rels: seq<Rel>)
    requires Sorted(rels, RelLe) && NoDups(rels)
    ensures InOrder(StatLines(tree, rels))
  {
    if rels != [] {
      var n, front := |rels| - 1, StatLines(tree, rels[..|rels| - 1]);
      StatLinesInOrder(tree, rels[..n]);
      StatLinesAre(tree, rels[..n]);
      forall f | f in front ensures RelLe(f.rel, rels[n]) && f.rel != rels[n] { BeforeLast(rels, f.rel); }
      if !HasDotDot(rels[n]) && rels[n] in tree {
        OneMoreInOrder(front, Wire.FileLine(rels[n], tree[rels[n]]));
      } else {
        assert StatLines(tree, rels) == front + [] == front;
      }
    }
  }

  lemma OneMoreInOrder(front: seq<Wire.FileLine>, last: Wire.FileLine)
    requires InOrder(front) && forall f :: f in front ==> RelLe(f.rel, last.rel) && f.rel != last.rel
    ensures InOrder(front + [last])
  {
    forall i | 0 <= i < |front| ensures front[i] in front {}
  }

  lemma BeforeLast(rels: seq<Rel>, r: Rel)
    requires rels != [] && Sorted(rels, RelLe) && NoDups(rels) && r in rels[..|rels| - 1]
    ensures RelLe(r, rels[|rels| - 1]) && r != rels[|rels| - 1]
  {
    var i :| 0 <= i < |rels| - 1 && rels[..|rels| - 1][i] == r;
    assert rels[i] == r;
  }

  /** Of all paths that read the same, the last in order decides. */
  lemma AnswerSays(tree: Tree, plan: TransferPlan, r: Rel)
    requires Runnable(plan) && Answer(tree, Asked(plan)).Some? && r in Asked(plan) && r in tree
    requires forall x :: x in Asked(plan) && x in tree && LastPart(x) == LastPart(r) ==> RelLe(x, r)
    ensures var answer := Answer(tree, Asked(plan)).value; LastPart(r) in answer && answer[LastPart(r)] == tree[r]
  {
    AskedAre(plan);
    AnswerNames(tree, plan);
    SortedRelsSorts(Elems(plan.toPush + plan.toPull));
    LinesSay(tree, Asked(plan), r);
  }

  lemma LinesSay(tree: Tree, rels: seq<Rel>, r: Rel)
    requires Sorted(rels, RelLe) && NoDups(rels) && r in rels && r in tree && !HasDotDot(r)
    requires TakenFor(StatLines(tree, rels)).Some?
    requires forall x :: x in rels && x in tree && LastPart(x) == LastPart(r) ==> RelLe(x, r)
    ensures var t := TakenFor(StatLines(tree, rels)).value; LastPart(r) in t && t[LastPart(r)] == tree[r]
  {
    StatLinesAre(tree, rels);
    StatLinesInOrder(tree, rels);
    LastOfItsKind(StatLines(tree, rels), Wire.FileLine(r, tree[r]));
  }

  lemma LastOfItsKind(lines: seq<Wire.FileLine>, f: Wire.FileLine)
    requires InOrder(lines) && f in lines && TakenFor(lines).Some?
    requires forall g :: g in lines && LastPart(g.rel) == LastPart(f.rel) ==> RelLe(g.rel, f.rel)
    ensures var t := TakenFor(lines).value; LastPart(f.rel) in t && t[LastPart(f.rel)] == f.meta
  {
    var i :| 0 <= i < |lines| && lines[i] == f;
    forall j | i < j < |lines| ensures LastPart(lines[j].rel) != LastPart(f.rel) {
      assert lines[j] in lines;
      RelLeTotal(lines[j].rel, f.rel);
    }
    LastLineDecides(lines, i);
  }

  // ----- nothing is lost --------------------------------------------------------------------------

  /** A planned push that is still missing stays planned. */
  lemma PushStays(w: World, plan: TransferPlan, p: Rel)
    requires Runnable(plan) && Lossless(plan) && Narrowed(w, plan).Some?
    requires p in plan.toPush && p in PushSet(w, plan.policy, true)
    ensures p in PushSet(Seen(w, plan), plan.policy, true)
  {
    var seen := Seen(w, plan);
    AskedAre(plan);
    PlannedAreListed(w, plan.policy);
    assert !HasDotDot(p);
    assert Get(seen.local, p) == Get(w.local, p);
    AnswerNames(w.remote, plan);
    if !Wire.OneLine(p) {
      NotSeen(w, plan, p);
      OnlyHereIsPushed(seen, plan.policy, p);
    } else {
      forall x | x in Asked(plan) && LastPart(x) == p ensures x == p { assert x in plan.toPush ==> !Hides(plan, x); }
      if p in w.remote {
        RelLeTotal(p, p);
        AnswerSays(w.remote, plan, p);
      }
      assert Get(seen.remote, p) == Get(w.remote, p);
      assert VerdictOf(seen, plan.policy, true, p) == VerdictOf(w, plan.policy, true, p);
    }
  }

  /** So does a planned pull. */
  lemma PullStays(w: World, plan: TransferPlan, p: Rel)
    requires Runnable(plan) && Lossless(plan) && Narrowed(w, plan).Some?
    requires p in plan.toPull && p in PullSet(w, plan.policy, true)
    ensures p in PullSet(Seen(w, plan), plan.policy, true)
  {
    var seen := Seen(w, plan);
    AskedAre(plan);
    PlannedAreListed(w, plan.policy);
    assert !HasDotDot(p) && LastPart(p) == p;
    assert Get(seen.local, p) == Get(w.local, p);
    AnswerNames(w.remote, plan);
    assert p in seen.remote;
    if p in w.local {
      KnownIsPulled(w, plan.policy, p);
      forall x | x in Asked(plan) && x in w.remote && LastPart(x) == p ensures RelLe(x, p) {
        assert x in plan.toPush ==> !Hides(plan, x);
        RelLeTotal(x, p);
      }
      AnswerSays(w.remote, plan, p);
      assert VerdictOf(seen, plan.policy, true, p) == VerdictOf(w, plan.policy, true, p);
    } else {
      OnlyThereIsPulled(seen, plan.policy, p);
    }
  }

  lemma OnlyThereIsPulled(w: World, policy: Policy, r: Rel)
    requires r in w.remote && r !in w.local
    ensures r in PullSet(w, policy, true)
  {
    assert VerdictOf(w, policy, true, r) == OnlyRemote;
  }

  lemma KnownIsPulled(w: World, policy: Policy, r: Rel)
    requires r in w.local && r in w.remote && r in PullSet(w, policy, true)
    ensures PullsKnown(policy)
  {
    assert Pulls(VerdictOf(w, policy, true, r));
  }

  /** A re-plan of a lossless plan keeps all that did not arrive. */
  lemma LosslessKeepsAll(w0: World, plan: TransferPlan, pushed: set<Rel>, pulled: set<Rel>)
    requires SubPlan(w0, plan.policy, true, pushed, pulled)
    requires Runnable(plan) && Planned(plan, w0) && Lossless(plan)
    ensures LosesNothing(w0, plan, pushed, pulled)
  {
    var w := Apply(w0, pushed, pulled);
    PlanAfterPartialApply(w0, plan.policy, true, pushed, pulled);
    if Narrowed(w, plan).Some? {
      forall p | p in Elems(plan.toPush) - pushed ensures p in Narrowed(w, plan).value.0 { PushStays(w, plan, p); }
      forall p | p in Elems(plan.toPull) - pulled ensures p in Narrowed(w, plan).value.1 { PullStays(w, plan, p); }
    }
  }

  // ----- something is lost -------------------------------------------------------------------------

  /** Two trees that lead to a plan: files to be pushed are old, and so are some this side has of
      those to be pulled; those to be pulled are newer and larger. */
  ghost function Trial(plan: TransferPlan, known: set<Rel>): World {
    World(map r | r in Elems(plan.toPush) + known :: FileMeta(0, 0), map r | r in plan.toPull :: FileMeta(1, 1))
  }

  lemma TrialIsPlanned(plan: TransferPlan, known: set<Rel>)
    requires Runnable(plan) && (known <= Elems(plan.toPush) || (known <= Elems(plan.toPull) && PullsKnown(plan.policy)))
    ensures Planned(plan, Trial(plan, known))
  {
    var w := Trial(plan, known);
    forall r | r in Elems(plan.toPush) ensures r in PushSet(w, plan.policy, true) { OnlyHereIsPushed(w, plan.policy, r); }
    forall r | r in Elems(plan.toPull) ensures r in PullSet(w, plan.policy, true) {
      if r in w.local {
        assert VerdictOf(w, plan.policy, true, r) == RemoteNewer;
      } else {
        OnlyThereIsPulled(w, plan.policy, r);
      }
    }
  }

  lemma TrialAfter(plan: TransferPlan, known: set<Rel>, pushed: set<Rel>)
    requires Runnable(plan) && pushed <= Elems(plan.toPush)
    ensures var w := Apply(Trial(plan, known), pushed, {});
            && w.local.Keys == Elems(plan.toPush) + known && (forall r :: r in w.local ==> w.local[r] == FileMeta(0, 0))
            && w.remote.Keys == Elems(plan.toPull) + pushed && (forall r :: r in pushed ==> w.remote[r] == FileMeta(0, 0))
  {}

  /** A missing file that the re-plan no longer plans. */
  ghost predicate Lost(w: World, plan: TransferPlan, pushed: set<Rel>, p: Rel)
    requires Narrowed(w, plan).Some?
  {
    (p in Elems(plan.toPush) - pushed && p !in PushSet(Seen(w, plan), plan.policy, true))
    || (p in plan.toPull && p !in PullSet(Seen(w, plan), plan.policy, true))
  }

  lemma LostIsLoss(w0: World, plan: TransferPlan, pushed: set<Rel>, p: Rel)
    requires Narrowed(Apply(w0, pushed, {}), plan).Some? && Lost(Apply(w0, pushed, {}), plan, pushed, p)
    ensures !LosesNothing(w0, plan, pushed, {})
  {
    var n := Narrowed(Apply(w0, pushed, {}), plan).value;
    assert (p in Elems(plan.toPush) - pushed && p !in n.0) || (p in Elems(plan.toPull) - {} && p !in n.1);
  }

  /** A pulled path that breaks a line is lost before anything was copied. */
  lemma CutPullIsLost(plan: TransferPlan, r: Rel)
    requires Runnable(plan) && !AlwaysRefused(plan) && r in plan.toPull && !Wire.OneLine(r)
    ensures Planned(plan, Trial(plan, {})) && !LosesNothing(Trial(plan, {}), plan, {}, {})
  {
    var w := Apply(Trial(plan, {}), {}, {});
    TrialIsPlanned(plan, {});
    TrialAfter(plan, {}, {});
    AnswerNames(w.remote, plan);
    assert forall x :: x in w.remote ==> x in Elems(plan.toPull);
    NotSeen(w, plan, r);
    LostIsLoss(Trial(plan, {}), plan, {}, r);
  }

  /** A pushed path that hides another loses it. */
  lemma HiddenIsLost(plan: TransferPlan, r: Rel)
    requires Runnable(plan) && (forall x :: x in plan.toPull ==> Wire.OneLine(x)) && r in plan.toPush && Hides(plan, r)
    ensures Planned(plan, Trial(plan, {LastPart(r)})) && !LosesNothing(Trial(plan, {LastPart(r)}), plan, {r}, {})
  {
    var p := LastPart(r);
    var w := Apply(Trial(plan, {p}), {r}, {});
    TrialIsPlanned(plan, {p});
    TrialAfter(plan, {p}, {r});
    HiddenReads(plan, w, r, p);
    HiddenIsNotPlanned(plan, w, p);
    assert p in Elems(plan.toPush) - {r} || p in plan.toPull;
    LostIsLoss(Trial(plan, {p}), plan, {r}, p);
  }

  lemma HiddenIsNotPlanned(plan: TransferPlan, w: World, p: Rel)
    requires Runnable(plan) && (p in plan.toPush || p in plan.toPull) && Narrowed(w, plan).Some?
    requires p in w.local && p in Answer(w.remote, Asked(plan)).value
    requires w.local[p] == Answer(w.remote, Asked(plan)).value[p]
    ensures p !in PushSet(Seen(w, plan), plan.policy, true) && p !in PullSet(Seen(w, plan), plan.policy, true)
  {
    AskedAre(plan);
    assert !HasDotDot(p);
    SameIsNotPlanned(Seen(w, plan), plan.policy, p);
  }

  lemma HiddenReads(plan: TransferPlan, w: World, r: Rel, p: Rel)
    requires Runnable(plan) && (forall x :: x in plan.toPull ==> Wire.OneLine(x)) && r in plan.toPush && Hides(plan, r) && p == LastPart(r)
    requires w.remote.Keys == Elems(plan.toPull) + {r} && w.remote[r] == FileMeta(0, 0)
    ensures Answer(w.remote, Asked(plan)).Some?
    ensures var answer := Answer(w.remote, Asked(plan)).value; p in answer && answer[p] == FileMeta(0, 0)
  {
    AskedAre(plan);
    AnswerNames(w.remote, plan);
    forall x | x in Asked(plan) && x in w.remote ensures ValidRelpath(LastPart(x)) {
      assert x in Elems(plan.toPull) || x == r;
    }
    forall x | x in Asked(plan) && x in w.remote && LastPart(x) == p ensures RelLe(x, r) {
      assert x in Elems(plan.toPull) || x == r;
      RelLeTotal(r, r);
    }
    AnswerSays(w.remote, plan, r);
  }

  lemma SameIsNotPlanned(w: World, policy: Policy, r: Rel)
    requires r in w.local && r in w.remote && w.local[r] == w.remote[r]
    ensures r !in PushSet(w, policy, true) && r !in PullSet(w, policy, true)
  {
    assert VerdictOf(w, policy, true, r) == Equal;
  }

  /** When re-plans lose nothing, whatever the trees and whatever was copied: exactly if no pulled
      path breaks a line of the answer and no pushed path hides another planned one, or if every
      answer is refused. */
  lemma ReplanLosesNothingIff(plan: TransferPlan)
    requires Runnable(plan)
    ensures (forall w0, pushed, pulled :: Planned(plan, w0) && pushed <= Elems(plan.toPush) && pulled <= Elems(plan.toPull)
              ==> LosesNothing(w0, plan, pushed, pulled))
       <==> AlwaysRefused(plan) || Lossless(plan)
  {
    if AlwaysRefused(plan) {
      forall w0, pushed, pulled | Planned(plan, w0) && pushed <= Elems(plan.toPush) && pulled <= Elems(plan.toPull)
        ensures LosesNothing(w0, plan, pushed, pulled)
      {
        RefusedRaises(w0, plan, pushed, pulled);
      }
    } else if Lossless(plan) {
      forall w0, pushed, pulled | Planned(plan, w0) && pushed <= Elems(plan.toPush) && pulled <= Elems(plan.toPull)
        ensures LosesNothing(w0, plan, pushed, pulled)
      {
        LosslessKeepsAll(w0, plan, pushed, pulled);
      }
    } else if r :| r in plan.toPull && !Wire.OneLine(r) {
      CutPullIsLost(plan, r);
      assert {} <= Elems(plan.toPush) && {} <= Elems(plan.toPull);
    } else {
      var r :| r in plan.toPush && Hides(plan, r);
      HiddenIsLost(plan, r);
      assert {r} <= Elems(plan.toPush) && {} <= Elems(plan.toPull);
    }
  }

  lemma RefusedRaises(w0: World, plan: TransferPlan, pushed: set<Rel>, pulled: set<Rel>)
    requires Runnable(plan) && AlwaysRefused(plan) && Planned(plan, w0)
    ensures Narrowed(Apply(w0, pushed, pulled), plan).None?
  {
    var r :| r in plan.toPull && !ValidRelpath(LastPart(r));
    PlannedAreListed(w0, plan.policy);
    AskedAre(plan);
    AnswerNames(Apply(w0, pushed, pulled).remote, plan);
    assert r in Asked(plan) && r in Apply(w0, pushed, pulled).remote;
  }

  /** A plan no re-plan of which loses a file. */
  ghost predicate Keeps(plan: TransferPlan) {
    Lossless(plan) || AlwaysRefused(plan)
  }

  /** What is left of it is one again. */
  lemma KeepsOn(w0: World, plan: TransferPlan, pushed: set<Rel>, pulled: set<Rel>, p: TransferPlan)
    requires Runnable(plan) && Planned(plan, w0) && Keeps(plan) && SubPlan(w0, plan.policy, true, pushed, pulled)
    requires Narrowed(Apply(w0, pushed, pulled), plan) == Some((Elems(p.toPush), Elems(p.toPull))) && p.policy == plan.policy
    ensures Elems(plan.toPush) - pushed <= Elems(p.toPush) && Elems(plan.toPull) - pulled <= Elems(p.toPull)
    ensures Keeps(p)
  {
    if AlwaysRefused(plan) {
      RefusedRaises(w0, plan, pushed, pulled);
    }
    LosslessKeepsAll(w0, plan, pushed, pulled);
    PartIsLossless(plan, p);
  }

  lemma PartIsLossless(plan: TransferPlan, p: TransferPlan)
    requires Lossless(plan) && p.policy == plan.policy
    requires Elems(p.toPush) <= Elems(plan.toPush) && Elems(p.toPull) <= Elems(plan.toPull)
    ensures Lossless(p)
  {
    forall r | r in p.toPush ensures !Hides(p, r) {
      assert r in Elems(p.toPush) && !Hides(plan, r);
      assert LastPart(r) in p.toPush ==> LastPart(r) in Elems(p.toPush);
      assert LastPart(r) in p.toPull ==> LastPart(r) in Elems(p.toPull);
    }
    forall r | r in p.toPull ensures Wire.OneLine(r) { assert r in Elems(p.toPull); }
  }
}
