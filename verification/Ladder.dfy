/** The transport ladder of one peer (`sync_transport.run_transfer_ladder`): try the rungs
    in order, and between rungs narrow the plan by a re-stat. */
module Ladder {
  import opened Base
  import opened Planning
  import opened Batching
  import opened Paths
  import opened Transfer
  import opened Convergence
  import opened Replan
  import opened ReplanLoss

  datatype Rung = Rdma | Tb | Wifi

  /** Why a rung failed: the exit code of a direction, or an exception in it. */
  datatype Reason = ExitCode(dir: Direction, rc: int) | Exception(dir: Direction)

  /** How one `arep xfer` ends. Success copies the whole manifest. A failure after arep was
      started may leave any part of it copied. */
  datatype ArepOutcome =
    | ArepDone(bytes: int, progressed: bool)
    | ArepFailed(copied: set<Rel>, progressed: bool)
    | ArepNotStarted

  /** All the adversary decides about one rung and the re-stat after it. */
  datatype RungScript = RungScript(
    toolsFound: bool, pushSteps: nat -> StepOutcome, pullSteps: nat -> StepOutcome,
    arepPush: ArepOutcome, arepPull: ArepOutcome, restat: RestatEnding)

  /** What one rung did: what it recorded of the two directions and blames, whether it says that
      data moved, what it really moved, and how many steps of each direction succeeded. */
  datatype Work = Work(push: Xfer, pull: Xfer, reason: Option<Reason>, moved: bool,
                       pushed: set<Rel>, pulled: set<Rel>, pushDone: nat, pullDone: nat)

  datatype Downgrade = Downgrade(from: Rung, to: Rung, reason: Reason)

  datatype Outcome = Outcome(transport: Option<Rung>, pushRc: int, pullRc: int,
                             pushBytes: int, pullBytes: int, downgrades: seq<Downgrade>)
  {
    predicate Ok() { pushRc == 0 && pullRc == 0 }
  }

  /** The mutable record one rung fills in; a reason means the rung failed. */
  class RungResult {
    var push: Xfer
    var pull: Xfer
    var reason: Option<Reason>
    var moved: bool

    constructor ()
      ensures push == Xfer(0, 0) && pull == Xfer(0, 0) && reason.None? && !moved
    {
      push, pull, reason, moved := Xfer(0, 0), Xfer(0, 0), None, false;
    }

    /** The record of the work a rung did. */
    ghost predicate Tells(did: Work)
      reads this
    {
      push == did.push && pull == did.pull && reason == did.reason && moved == did.moved
    }

    /** A rung has a reason exactly when one of the two exit codes is not zero, and the reason
        is of the direction it blames. */
    ghost predicate Consistent()
      reads this
    {
      && push.Xfer? && pull.Xfer? && (reason.None? <==> push.rc == 0 && pull.rc == 0)
      && match reason
         case None => true
         case Some(ExitCode(dir, rc)) => rc != 0 && rc == if dir.Push? then push.rc else pull.rc
         case Some(Exception(dir)) => 1 == if dir.Push? then push.rc else pull.rc
    }
  }

  function Enabled(rels: seq<Rel>, excluded: bool): set<Rel> {
    if excluded then {} else Elems(rels)
  }

  // ----- one rung -------------------------------------------------------------------------

  /** One finished transfer: nothing but its list moved, exit code 0 means all of it, any other
      end is that of its first failing step, and it reports no bytes exactly when it was silent. */
  ghost predicate Ran(x: Xfer, rels: seq<Rel>, sizes: map<Rel, int>, dryRun: bool, steps: nat -> StepOutcome, done: nat, moved: set<Rel>) {
    && moved <= Elems(rels)
    && (x.Ok() && !dryRun ==> moved == Elems(rels))
    && (!x.Ok() ==> FailedAt(x, steps, done))
    && (dryRun ==> x.Ok() && moved == {})
    && (x.Xfer? && !dryRun ==> x.bytes >= 0 && (x.bytes == 0 <==> Silent(rels, sizes, steps, done)))
  }

  /** A transfer that ended the way its first failing step did. */
  ghost predicate FailedAt(x: Xfer, steps: nat -> StepOutcome, done: nat) {
    && (forall i :: 0 <= i < done ==> steps(i).Succeeded()) && !steps(done).Succeeded()
    && (if steps(done).Raised? then x.Thrown? else x.Xfer? && x.rc == steps(done).rc)
  }

  /** What the ladder takes for an ssh transfer of one direction: the driver, whose exit code 0
      means that the whole list arrived. */
  method SshTransfer(trees: SyncPair, dir: Direction, rels: seq<Rel>, sizes: map<Rel, int>, dryRun: bool, steps: nat -> StepOutcome)
    returns (x: Xfer, ghost done: nat, ghost moved: set<Rel>)
    modifies trees
    ensures trees.Now() == Copied(old(trees.Now()), dir, moved)
    ensures Ran(x, rels, sizes, dryRun, steps, done, moved)
  {
    ghost var units;
    x, units, done, moved := trees.TransferList(dir, rels, sizes, dryRun, steps);
    if !dryRun {
      DriverContract(units, rels, sizes, steps, done, moved, x);
      if x.Xfer? {
        MovedUnreportedIff(rels, sizes, steps, units, done, moved, x);
        LargeWeighs(rels, sizes);
      }
    }
  }

  /** `_run_ssh_rung`: a tool that is not found raises before anything is sent. */
  method RunSshRung(trees: SyncPair, plan: TransferPlan, dryRun: bool, pushOnly: bool, pullOnly: bool,
                    stopOnFail: bool, script: RungScript)
    returns (raised: bool, r: RungResult, ghost did: Work)
    modifies trees
    ensures raised <==> !script.toolsFound
    ensures raised ==> did.pushed == {} && did.pulled == {}
    ensures fresh(r) && r.Consistent() && (!raised ==> r.Tells(did))
    ensures trees.Now() == Copied(Copied(old(trees.Now()), Push, did.pushed), Pull, did.pulled)
    ensures !raised ==> SshRung(did, plan, dryRun, pushOnly, pullOnly, !stopOnFail, script)
  {
    if !script.toolsFound {
      r := new RungResult();
      raised, did := true, Work(Xfer(0, 0), Xfer(0, 0), None, false, {}, {}, 0, 0);
      CopiedNothing(trees.Now(), Push);
      CopiedNothing(trees.Now(), Pull);
      return;
    }
    raised := false;
    ghost var push, pull, pushed, pulled, pushDone, pullDone;
    r, push, pull, pushed, pulled, pushDone, pullDone := PushThenPull(trees, plan, dryRun, pushOnly, pullOnly, stopOnFail, script);
    did := Work(r.push, r.pull, r.reason, r.moved, pushed, pulled, pushDone, pullDone);
    AttemptedIsSshRung(push, pull, plan, dryRun, pushOnly, pullOnly, stopOnFail, script, did);
  }

  /** What an ssh rung did, by what it blames. A push that raised ends the rung; one that failed
      with an exit code ends it unless `goesOn`, and stays blamed when the pull fails as well. */
  ghost predicate SshRung(did: Work, plan: TransferPlan, dryRun: bool, pushOnly: bool, pullOnly: bool, goesOn: bool, script: RungScript) {
    && did.push.Xfer? && did.pull.Xfer?
    && did.pushed <= Enabled(plan.toPush, pullOnly) && did.pulled <= Enabled(plan.toPull, pushOnly)
    && (dryRun ==> did.reason.None? && did.pushed == {} && did.pulled == {})
    && (did.push.rc == 0 && !dryRun ==> did.pushed == Enabled(plan.toPush, pullOnly))
    && (match did.reason
        case None => did.push.rc == 0 && did.pull.rc == 0 && (!dryRun ==> did.pulled == Enabled(plan.toPull, pushOnly))
        case Some(Exception(Push)) => FailedAt(Thrown, script.pushSteps, did.pushDone) && NoPull(did)
        case Some(ExitCode(Push, rc)) =>
          && !pullOnly && did.push.rc == rc && FailedAt(Xfer(rc, 0), script.pushSteps, did.pushDone)
          && (if goesOn then PullRan(did, plan, pushOnly, script) else NoPull(did))
        case Some(_) => (did.push.rc == 0 || goesOn) && did.pull.rc != 0 && PullRan(did, plan, pushOnly, script))
    && SaysMoved(did, plan, dryRun, script)
  }

  ghost predicate NoPull(did: Work) { did.pull == Xfer(0, 0) && did.pulled == {} }

  /** A pull that was started: all of it arrived, or a step of it failed and is told. */
  ghost predicate PullRan(did: Work, plan: TransferPlan, pushOnly: bool, script: RungScript)
    requires did.pull.Xfer?
  {
    && (did.pull.rc == 0 ==> did.pulled == Enabled(plan.toPull, pushOnly))
    && (did.pull.rc != 0 ==> !pushOnly && FailedAt(if did.reason == Some(Exception(Pull)) then Thrown else did.pull, script.pullSteps, did.pullDone))
  }

  /** An ssh rung says that data moved after an exception and whenever a transfer reports bytes:
      it says so unless no driver raised and both were silent. */
  ghost predicate SaysMoved(did: Work, plan: TransferPlan, dryRun: bool, script: RungScript)
    requires did.push.Xfer? && did.pull.Xfer?
  {
    var thrown := did.reason.Some? && did.reason.value.Exception?;
    && (did.moved <==> did.push.bytes > 0 || did.pull.bytes > 0 || thrown)
    && (!dryRun ==>
          (!did.moved <==> !thrown && Silent(plan.toPush, plan.pushSizes, script.pushSteps, did.pushDone)
                                   && Silent(plan.toPull, plan.pullSizes, script.pullSteps, did.pullDone)))
  }

  /** What a rung records of a transfer; `None` was not attempted. */
  function Recorded(x: Option<Xfer>): Xfer {
    if x.None? then Xfer(0, 0) else if x.value.Thrown? then Xfer(1, 0) else x.value
  }

  /** What it blames: an exception, or else the first exit code that is not zero. */
  function Blamed(push: Option<Xfer>, pull: Option<Xfer>): Option<Reason> {
    if push == Some(Thrown) then Some(Exception(Push))
    else if pull == Some(Thrown) then Some(Exception(Pull))
    else if push.Some? && push.value.Xfer? && push.value.rc != 0 then Some(ExitCode(Push, push.value.rc))
    else if pull.Some? && pull.value.Xfer? && pull.value.rc != 0 then Some(ExitCode(Pull, pull.value.rc))
    else None
  }

  /** Which transfers a rung attempted, and that each was one. */
  ghost predicate Attempted(push: Option<Xfer>, pull: Option<Xfer>,
                            plan: TransferPlan, dryRun: bool, pushOnly: bool, pullOnly: bool, stopOnFail: bool, script: RungScript,
                            pushed: set<Rel>, pulled: set<Rel>, pushDone: nat, pullDone: nat)
  {
    && (push.None? <==> pullOnly)
    && (pull.None? <==> pushOnly || (push.Some? && (push.value.Thrown? || (push.value.rc != 0 && stopOnFail))))
    && (if push.None? then pushed == {} && pushDone == 0
        else Ran(push.value, plan.toPush, plan.pushSizes, dryRun, script.pushSteps, pushDone, pushed))
    && (if pull.None? then pulled == {} && pullDone == 0
        else Ran(pull.value, plan.toPull, plan.pullSizes, dryRun, script.pullSteps, pullDone, pulled))
  }

  lemma AttemptedIsSshRung(push: Option<Xfer>, pull: Option<Xfer>,
                           plan: TransferPlan, dryRun: bool, pushOnly: bool, pullOnly: bool, stopOnFail: bool, script: RungScript,
                           did: Work)
    requires Attempted(push, pull, plan, dryRun, pushOnly, pullOnly, stopOnFail, script, did.pushed, did.pulled, did.pushDone, did.pullDone)
    requires did.push == Recorded(push) && did.pull == Recorded(pull) && did.reason == Blamed(push, pull)
    requires did.moved <==> did.push.bytes > 0 || did.pull.bytes > 0 || push == Some(Thrown) || pull == Some(Thrown)
    ensures SshRung(did, plan, dryRun, pushOnly, pullOnly, !stopOnFail, script)
  {
    SilentAtStart(plan.toPush, plan.pushSizes, script.pushSteps);
    SilentAtStart(plan.toPull, plan.pullSizes, script.pullSteps);
  }

  /** One direction of a rung: the transfer, and what is recorded of it. */
  method Stage(trees: SyncPair, r: RungResult, dir: Direction, rels: seq<Rel>, sizes: map<Rel, int>, dryRun: bool, steps: nat -> StepOutcome)
    returns (x: Xfer, ghost done: nat, ghost moved: set<Rel>)
    requires (if dir.Push? then r.push else r.pull) == Xfer(0, 0)
    modifies trees, r
    ensures trees.Now() == Copied(old(trees.Now()), dir, moved)
    ensures Ran(x, rels, sizes, dryRun, steps, done, moved)
    ensures r.push == if dir.Push? then Recorded(Some(x)) else old(r.push)
    ensures r.pull == if dir.Pull? then Recorded(Some(x)) else old(r.pull)
    ensures r.reason == if x.Thrown? then Some(Exception(dir))
                        else if old(r.reason).None? && x.rc != 0 then Some(ExitCode(dir, x.rc))
                        else old(r.reason)
    ensures r.moved <==> old(r.moved) || x.Thrown? || x.bytes > 0
  {
    x, done, moved := SshTransfer(trees, dir, rels, sizes, dryRun, steps);
    if x.Thrown? {
      r.reason, r.moved := Some(Exception(dir)), true;
      if dir.Push? { r.push := Xfer(1, r.push.bytes); } else { r.pull := Xfer(1, r.pull.bytes); }
      return;
    }
    if dir.Push? { r.push := x; } else { r.pull := x; }
    r.moved := r.moved || x.bytes > 0;
    if x.rc != 0 && r.reason.None? {
      r.reason := Some(ExitCode(dir, x.rc));
    }
  }

  /** The rung proper: push, then pull; a failed push stops it unless it is the last. */
  method PushThenPull(trees: SyncPair, plan: TransferPlan, dryRun: bool, pushOnly: bool, pullOnly: bool,
                      stopOnFail: bool, script: RungScript)
    returns (r: RungResult, ghost push: Option<Xfer>, ghost pull: Option<Xfer>,
             ghost pushed: set<Rel>, ghost pulled: set<Rel>, ghost pushDone: nat, ghost pullDone: nat)
    modifies trees
    ensures fresh(r) && r.push == Recorded(push) && r.pull == Recorded(pull) && r.reason == Blamed(push, pull)
    ensures r.moved <==> r.push.bytes > 0 || r.pull.bytes > 0 || push == Some(Thrown) || pull == Some(Thrown)
    ensures trees.Now() == Copied(Copied(old(trees.Now()), Push, pushed), Pull, pulled)
    ensures Attempted(push, pull, plan, dryRun, pushOnly, pullOnly, stopOnFail, script, pushed, pulled, pushDone, pullDone)
  {
    r := new RungResult();
    push, pull, pushed, pulled, pushDone, pullDone := None, None, {}, {}, 0, 0;
    CopiedNothing(trees.Now(), Push);
    if !pullOnly {
      var x: Xfer;
      x, pushDone, pushed := Stage(trees, r, Push, plan.toPush, plan.pushSizes, dryRun, script.pushSteps);
      push := Some(x);
      if x.Thrown? || (x.rc != 0 && stopOnFail) {
        CopiedNothing(trees.Now(), Pull);
        return;
      }
    }
    CopiedNothing(trees.Now(), Pull);
    if !pushOnly {
      var x: Xfer;
      x, pullDone, pulled := Stage(trees, r, Pull, plan.toPull, plan.pullSizes, dryRun, script.pullSteps);
      pull := Some(x);
    }
  }

  lemma SilentAtStart(rels: seq<Rel>, sizes: map<Rel, int>, steps: nat -> StepOutcome)
    ensures Silent(rels, sizes, steps, 0)
  {}

  /** Whether the manifest can be written: every path known to the inventory and acceptable. */
  predicate ManifestOk(rels: seq<Rel>, inv: Tree) {
    forall r :: r in rels ==> r in inv && ValidRelpath(r)
  }

  /** arep is started for the files it may carry: there are some, and all can be listed. */
  ghost predicate ArepStarts(allowed: set<Rel>, inv: Tree, outcome: ArepOutcome) {
    allowed != {} && !outcome.ArepNotStarted? && forall r :: r in allowed ==> r in inv && ValidRelpath(r)
  }

  ghost predicate ArepFails(allowed: set<Rel>, inv: Tree, outcome: ArepOutcome) {
    allowed != {} && !(ArepStarts(allowed, inv, outcome) && outcome.ArepDone?)
  }

  /** What it moved: all of it, or when it died any part of it. */
  ghost function ArepMoved(allowed: set<Rel>, inv: Tree, outcome: ArepOutcome): set<Rel> {
    if !ArepFails(allowed, inv, outcome) then allowed
    else if ArepStarts(allowed, inv, outcome) && outcome.ArepFailed? then outcome.copied * allowed
    else {}
  }

  /** The bytes it reports when it ends well. */
  ghost function ArepBytes(allowed: set<Rel>, outcome: ArepOutcome): int {
    if allowed != {} && outcome.ArepDone? then outcome.bytes else 0
  }

  /** Whether it says that data moved: it made progress, died, or reports bytes. */
  ghost predicate ArepSaysMoved(allowed: set<Rel>, inv: Tree, outcome: ArepOutcome) {
    ArepStarts(allowed, inv, outcome) && (outcome.progressed || outcome.ArepFailed? || outcome.bytes > 0)
  }

  /** `run_rdma_transfer` for one direction: denied paths are dropped silently, a manifest
      that cannot be written stops the transfer before arep starts. */
  method RunArep(trees: SyncPair, dir: Direction, rels: seq<Rel>, inv: Tree, denied: Rel -> bool, outcome: ArepOutcome)
    returns (bytes: Option<int>, progressed: bool, partial: bool, ghost moved: set<Rel>)
    modifies trees
    ensures trees.Now() == Copied(old(trees.Now()), dir, moved)
    ensures var allowed := Allowed(Elems(rels), denied);
            && (bytes.None? <==> ArepFails(allowed, inv, outcome))
            && (bytes.Some? ==> bytes.value == ArepBytes(allowed, outcome))
            && moved == ArepMoved(allowed, inv, outcome)
            && (progressed || partial || (bytes.Some? && bytes.value > 0) <==> ArepSaysMoved(allowed, inv, outcome))
    ensures moved != {} && bytes.None? ==> partial
    ensures partial ==> bytes.None?
  {
    var kept := KeepOnly(rels, set r | r in rels && !denied(r));
    ghost var allowed := Allowed(Elems(rels), denied);
    assert allowed == set r | r in rels && !denied(r);
    KeepOnlyElems(rels, allowed);
    KeptAreAllowed(rels, kept, allowed);
    moved := {};
    CopiedNothing(trees.Now(), dir);
    if kept == [] {
      return Some(0), false, false, moved;
    }
    if !ManifestOk(kept, inv) || outcome.ArepNotStarted? {
      return None, false, false, moved;
    }
    var step := if outcome.ArepDone? then Exited(0, {}, 0) else Raised(outcome.copied);
    moved := Effect(kept, step);
    var x := trees.CopyStep(dir, kept, step);
    if outcome.ArepDone? {
      return Some(outcome.bytes), outcome.progressed, false, moved;
    }
    return None, outcome.progressed, true, moved;
  }

  lemma KeptAreAllowed(rels: seq<Rel>, kept: seq<Rel>, allowed: set<Rel>)
    requires allowed <= Elems(rels) && Elems(kept) == Elems(rels) * allowed
    ensures Elems(kept) == allowed && (kept == [] <==> allowed == {}) && forall r :: r in kept <==> r in allowed
  {
    assert kept != [] ==> kept[0] in Elems(kept);
    forall r ensures r in kept <==> r in allowed { assert r in kept <==> r in Elems(kept); }
  }

  /** `_run_rdma_rung`: push, then pull, through arep; the first failure ends the rung. */
  method RunRdmaRung(trees: SyncPair, plan: TransferPlan, pushOnly: bool, pullOnly: bool,
                     denied: Rel -> bool, script: RungScript)
    returns (r: RungResult, ghost did: Work)
    modifies trees
    ensures fresh(r) && r.Consistent() && r.Tells(did)
    ensures trees.Now() == Copied(Copied(old(trees.Now()), Push, did.pushed), Pull, did.pulled)
    ensures RdmaRung(did, plan, pushOnly, pullOnly, denied, script)
  {
    r := new RungResult();
    CopiedNothing(trees.Now(), Pull);
    ghost var pushed, pulled: set<Rel>;
    var failed: bool;
    failed, pushed := RdmaStage(trees, r, Push, if pullOnly then [] else plan.toPush, plan.localInv, denied, script.arepPush);
    CopiedNothing(trees.Now(), Pull);
    pulled := {};
    if !failed {
      failed, pulled := RdmaStage(trees, r, Pull, if pushOnly then [] else plan.toPull, plan.remoteInv, denied, script.arepPull);
    }
    did := Work(r.push, r.pull, r.reason, r.moved, pushed, pulled, 0, 0);
  }

  /** One direction of it. */
  method RdmaStage(trees: SyncPair, r: RungResult, dir: Direction, rels: seq<Rel>, inv: Tree, denied: Rel -> bool, outcome: ArepOutcome)
    returns (failed: bool, ghost moved: set<Rel>)
    requires (if dir.Push? then r.push else r.pull) == Xfer(0, 0)
    modifies trees, r
    ensures trees.Now() == Copied(old(trees.Now()), dir, moved)
    ensures var allowed := Allowed(Elems(rels), denied);
            && (failed <==> ArepFails(allowed, inv, outcome))
            && moved == ArepMoved(allowed, inv, outcome)
            && (r.moved <==> old(r.moved) || ArepSaysMoved(allowed, inv, outcome))
            && var told := if failed then Xfer(1, 0) else Xfer(0, ArepBytes(allowed, outcome));
            && r.push == (if dir.Push? then told else old(r.push)) && r.pull == (if dir.Pull? then told else old(r.pull))
    ensures r.reason == if failed then Some(Exception(dir)) else old(r.reason)
  {
    failed, moved := false, {};
    CopiedNothing(trees.Now(), dir);
    if rels == [] {
      assert Allowed(Elems(rels), denied) == {};
      return;
    }
    var bytes, progressed, partial, went := RunArep(trees, dir, rels, inv, denied, outcome);
    moved := went;
    r.moved := r.moved || progressed;
    if bytes.None? {
      failed := true;
      r.reason, r.moved := Some(Exception(dir)), r.moved || partial;
    } else {
      r.moved := r.moved || bytes.value > 0;
    }
    var told := if bytes.None? then Xfer(1, 0) else Xfer(0, bytes.value);
    if dir.Push? { r.push := told; } else { r.pull := told; }
  }

  /** What an rdma rung did. It fails only by an exception, in the push before any pull, and carries
      every enabled path that is not denied unless it fails. */
  ghost predicate RdmaRung(did: Work, plan: TransferPlan, pushOnly: bool, pullOnly: bool, denied: Rel -> bool, script: RungScript) {
    var toPush, toPull := Allowed(Enabled(plan.toPush, pullOnly), denied), Allowed(Enabled(plan.toPull, pushOnly), denied);
    var pushFails, pullFails := ArepFails(toPush, plan.localInv, script.arepPush), ArepFails(toPull, plan.remoteInv, script.arepPull);
    && did.reason == (if pushFails then Some(Exception(Push)) else if pullFails then Some(Exception(Pull)) else None)
    && did.push == (if pushFails then Xfer(1, 0) else Xfer(0, ArepBytes(toPush, script.arepPush)))
    && did.pushed == ArepMoved(toPush, plan.localInv, script.arepPush)
    && did.pull == (if pushFails then Xfer(0, 0) else if pullFails then Xfer(1, 0) else Xfer(0, ArepBytes(toPull, script.arepPull)))
    && did.pulled == (if pushFails then {} else ArepMoved(toPull, plan.remoteInv, script.arepPull))
    && (did.moved <==> ArepSaysMoved(toPush, plan.localInv, script.arepPush)
                       || (!pushFails && ArepSaysMoved(toPull, plan.remoteInv, script.arepPull)))
  }

  // ----- the ladder -------------------------------------------------------------------------

  /** A successful rung delivered all it was given; rdma leaves out the paths arep denies. */
  ghost predicate Delivered(all: set<Rel>, got: set<Rel>, rung: Rung, denied: Rel -> bool) {
    && got <= all
    && (rung != Rdma ==> got == all)
    && (forall r :: r in all && !denied(r) ==> r in got)
  }

  /** What a rung did in its place in the ladder; a dry run never starts arep. */
  ghost predicate Went(rung: Rung, did: Work, plan: TransferPlan, denied: Rel -> bool,
                       dryRun: bool, pushOnly: bool, pullOnly: bool, last: bool, script: RungScript)
  {
    if rung.Rdma? && !dryRun then RdmaRung(did, plan, pushOnly, pullOnly, denied, script)
    else script.toolsFound && SshRung(did, plan, dryRun, pushOnly, pullOnly, last, script)
  }

  /** One rung of either kind. */
  method RunRung(trees: SyncPair, rung: Rung, plan: TransferPlan, denied: Rel -> bool,
                 dryRun: bool, pushOnly: bool, pullOnly: bool, last: bool, script: RungScript)
    returns (raised: bool, r: RungResult, ghost did: Work)
    modifies trees
    ensures raised <==> !script.toolsFound && !(rung.Rdma? && !dryRun)
    ensures raised ==> did.pushed == {} && did.pulled == {}
    ensures fresh(r) && r.Consistent() && (!raised ==> r.Tells(did))
    ensures trees.Now() == Copied(Copied(old(trees.Now()), Push, did.pushed), Pull, did.pulled)
    ensures did.pushed <= Enabled(plan.toPush, pullOnly) && did.pulled <= Enabled(plan.toPull, pushOnly)
    ensures !raised ==> Went(rung, did, plan, denied, dryRun, pushOnly, pullOnly, last, script)
  {
    raised := false;
    if rung == Rdma && !dryRun {
      r, did := RunRdmaRung(trees, plan, pushOnly, pullOnly, denied, script);
    } else {
      raised, r, did := RunSshRung(trees, plan, dryRun, pushOnly, pullOnly, !last, script);
    }
    if !raised {
      WentDelivers(rung, did, plan, denied, dryRun, pushOnly, pullOnly, last, script);
    }
  }

  /** The pull of a rung is known to be complete: it reports no failure and was not put off. */
  ghost predicate PullCounts(did: Work, last: bool) {
    && did.pull.Xfer? && did.pull.rc == 0
    && (did.reason.None? || (last && did.reason.value.ExitCode?))
  }

  lemma WentDelivers(rung: Rung, did: Work, plan: TransferPlan, denied: Rel -> bool,
                     dryRun: bool, pushOnly: bool, pullOnly: bool, last: bool, script: RungScript)
    requires Went(rung, did, plan, denied, dryRun, pushOnly, pullOnly, last, script)
    ensures did.push.Xfer? && did.pull.Xfer?
    ensures did.pushed <= Enabled(plan.toPush, pullOnly) && did.pulled <= Enabled(plan.toPull, pushOnly)
    ensures !dryRun && did.push.rc == 0 ==> Delivered(Enabled(plan.toPush, pullOnly), did.pushed, rung, denied)
    ensures !dryRun && PullCounts(did, last) ==> Delivered(Enabled(plan.toPull, pushOnly), did.pulled, rung, denied)
    ensures !dryRun && rung.Rdma? && did.reason.None? ==>
              did.pushed == Allowed(Enabled(plan.toPush, pullOnly), denied) && did.pulled == Allowed(Enabled(plan.toPull, pushOnly), denied)
    ensures dryRun ==> did.reason.None? && did.pushed == {} && did.pulled == {}
  {}

  /** A plan whose re-plans are exact: part of a full plan, over paths that stay on one line. */
  ghost predicate Exact(plan: TransferPlan, w: World) {
    Planned(plan, w) && OneLined(plan)
  }

  /** A plan whose re-plans lose nothing: part of a full plan, and whatever was copied, no file
      that is still missing is taken for one that arrived. */
  ghost predicate Safe(plan: TransferPlan, w: World) {
    Planned(plan, w) && Keeps(plan)
  }

  /** Something outside the plan made the run raise: a tool that was not found, or a call. */
  ghost predicate SomethingRaised(env: nat -> RungScript, rungs: nat) {
    exists k :: 0 <= k < rungs && (!env(k).toolsFound || env(k).restat.CallRaised?)
  }

  /** Walks the rungs. `sent` and `fetched` are what arrived over the whole run. For every plan
      and whatever the adversary does, also when the run raises, the trees are one atomic
      application of them, they are part of the plan, and no other path is touched. The trail tells
      what every rung did. When no re-plan can lose a file, or no rung was given up, a push that
      ends well sent all of it and a pull that counts fetched all of it, except that a final rdma
      rung leaves out the paths arep denies. */
  method RunTransferLadder(trees: SyncPair, rungs: seq<Rung>, plan0: TransferPlan, denied: Rel -> bool,
                           dryRun: bool, pushOnly: bool, pullOnly: bool, env: nat -> RungScript)
    returns (raised: bool, out: Outcome, ghost sent: set<Rel>, ghost fetched: set<Rel>, ghost trail: seq<Tried>)
    requires Runnable(plan0)
    modifies trees
    ensures trees.Now() == Apply(old(trees.Now()), sent, fetched)
    ensures sent <= Enabled(plan0.toPush, pullOnly) && fetched <= Enabled(plan0.toPull, pushOnly)
    ensures raised ==> SomethingRaised(env, |rungs|) || !Exact(plan0, old(trees.Now()))
    ensures !raised && !dryRun && out.pushRc == 0 && (Safe(plan0, old(trees.Now())) || out.downgrades == []) ==>
              out.transport.Some? && Delivered(Enabled(plan0.toPush, pullOnly), sent, out.transport.value, denied)
    ensures !raised && !dryRun && (out.Ok() || PullWentOn(rungs, trail)) && (Safe(plan0, old(trees.Now())) || out.downgrades == []) ==>
              out.transport.Some? && Delivered(Enabled(plan0.toPull, pushOnly), fetched, out.transport.value, denied)
    // rdma at the first try: exactly what is not denied
    ensures !raised && !dryRun && out.Ok() && out.downgrades == [] && out.transport == Some(Rdma) ==>
              sent == Allowed(Enabled(plan0.toPush, pullOnly), denied) && fetched == Allowed(Enabled(plan0.toPull, pushOnly), denied)
    ensures dryRun ==> sent == {} && fetched == {}
    ensures rungs == [] ==> !raised && out == Outcome(None, -1, -1, 0, 0, []) && trail == []
    ensures sent == SentBy(trail) && fetched == FetchedBy(trail)
    ensures |trail| <= |rungs| && AllWent(Goes(rungs, denied, dryRun, pushOnly, pullOnly, env), trail)
    ensures Chained(plan0, trail, old(trees.Now()), env, dryRun, Exact(plan0, old(trees.Now())))
    ensures rungs != [] && !raised ==> Ended(rungs, trail) && Told(rungs, trail, out)
    ensures raised ==> RaisedAt(rungs, trail, old(trees.Now()), env, dryRun)
    ensures rungs != [] ==>
              Climbed(CourseOf(rungs, plan0, denied, dryRun, pushOnly, pullOnly, env, old(trees.Now())), raised, out, trail)
  {
    if rungs == [] {
      raised, out, sent, fetched, trail := false, Outcome(None, -1, -1, 0, 0, []), {}, {}, [];
      NothingApplied(trees.Now());
      return;
    }
    if OneLined(plan0) {
      OneLinedIsLossless(plan0);
    }
    ghost var w0 := trees.Now();
    ghost var c := CourseOf(rungs, plan0, denied, dryRun, pushOnly, pullOnly, env, w0);
    raised, out, trail := Climb(trees, rungs, plan0, denied, dryRun, pushOnly, pullOnly, env, c);
    sent, fetched := SentBy(trail), FetchedBy(trail);
    ClimbedDelivers(c, raised, out, trail);
  }

  /** What a climb that does not raise delivered. */
  lemma ClimbedDelivers(c: Course, raised: bool, out: Outcome, trail: seq<Tried>)
    requires c.Sound() && Climbed(c, raised, out, trail)
    ensures !raised ==> Ended(c.rungs, trail) && Told(c.rungs, trail, out)
    ensures !raised && !c.dryRun && out.pushRc == 0 && (c.safe || out.downgrades == []) ==>
              out.transport.Some? && Delivered(c.ToPush(), SentBy(trail), out.transport.value, c.denied)
    ensures !raised && !c.dryRun && (out.Ok() || PullWentOn(c.rungs, trail)) && (c.safe || out.downgrades == []) ==>
              out.transport.Some? && Delivered(c.ToPull(), FetchedBy(trail), out.transport.value, c.denied)
    ensures !raised && !c.dryRun && out.Ok() && out.downgrades == [] && out.transport == Some(Rdma) ==>
              SentBy(trail) == Allowed(c.ToPush(), c.denied) && FetchedBy(trail) == Allowed(c.ToPull(), c.denied)
  {}

  /** The last rung of all failed only with exit codes, and its pull reports none. */
  ghost predicate PullWentOn(rungs: seq<Rung>, trail: seq<Tried>) {
    trail != [] && |trail| == |rungs| && PullCounts(trail[|trail| - 1].did, true)
  }

  /** What is given for a run, and how good its re-plans are. */
  datatype Course = Course(rungs: seq<Rung>, plan0: TransferPlan, denied: Rel -> bool, dryRun: bool, pushOnly: bool, pullOnly: bool,
                           env: nat -> RungScript, w0: World, exact: bool, safe: bool)
  {
    ghost predicate Sound() {
      Runnable(plan0) && (exact ==> safe && Exact(plan0, w0)) && (safe ==> Safe(plan0, w0))
    }

    ghost function Going(): (nat, Tried) -> bool { Goes(rungs, denied, dryRun, pushOnly, pullOnly, env) }
    ghost function ToPush(): set<Rel> { Enabled(plan0.toPush, pullOnly) }
    ghost function ToPull(): set<Rel> { Enabled(plan0.toPull, pushOnly) }

    ghost predicate WentBy(k: nat, t: Tried)
      requires k < |rungs|
    {
      Went(rungs[k], t.did, t.plan, denied, dryRun, pushOnly, pullOnly, k + 1 == |rungs|, env(k))
    }
  }

  ghost function CourseOf(rungs: seq<Rung>, plan0: TransferPlan, denied: Rel -> bool, dryRun: bool, pushOnly: bool, pullOnly: bool,
                          env: nat -> RungScript, w0: World): Course
  {
    Course(rungs, plan0, denied, dryRun, pushOnly, pullOnly, env, w0, Exact(plan0, w0), Safe(plan0, w0))
  }

  /** What holds of a trail and the plan its last rung had. `known`: the plan covers all that is
      still missing. */
  ghost predicate Trailed(c: Course, plan: TransferPlan, trail: seq<Tried>, known: bool) {
    && |trail| <= |c.rungs| && AllWent(c.Going(), trail) && Chained(c.plan0, trail, c.w0, c.env, c.dryRun, c.exact)
    && Within(c.plan0, plan) && (c.safe ==> Keeps(plan))
    && SentBy(trail) <= c.ToPush() && FetchedBy(trail) <= c.ToPull()
    && (known ==> StillToDo(c.plan0, plan, SentBy(trail), FetchedBy(trail)))
    && (c.dryRun ==> SentBy(trail) == {} && FetchedBy(trail) == {})
  }

  /** Before rung `i`: all before it failed, and `plan` is what it gets. */
  ghost predicate Climbing(c: Course, plan: TransferPlan, trail: seq<Tried>, downgrades: seq<Downgrade>, i: nat) {
    && i < |c.rungs| && |trail| == i && Trailed(c, plan, trail, c.safe || i == 0) && Given(c, plan, trail)
    && Downgraded(c, trail, downgrades, i)
  }

  /** The plan is what the trail leaves. */
  ghost predicate Given(c: Course, plan: TransferPlan, trail: seq<Tried>) {
    if trail == [] then plan == c.plan0
    else trail[|trail| - 1].did.reason.Some?
         && NextPlan(trail[|trail| - 1], plan, c.w0, c.env(|trail| - 1).restat, c.dryRun, c.exact)
  }

  ghost predicate Downgraded(c: Course, trail: seq<Tried>, downgrades: seq<Downgrade>, i: nat) {
    && i <= |trail| && i < |c.rungs| && |downgrades| == i
    && forall k :: 0 <= k < i ==>
         trail[k].did.reason.Some? && downgrades[k] == Downgrade(c.rungs[k], c.rungs[k + 1], trail[k].did.reason.value)
  }

  /** Behind rung `i`. */
  ghost predicate Behind(c: Course, plan: TransferPlan, trail: seq<Tried>, downgrades: seq<Downgrade>, i: nat) {
    && i < |c.rungs| && |trail| == i + 1 && trail[i].plan == plan && Trailed(c, plan, trail, c.safe || i == 0)
    && Downgraded(c, trail, downgrades, i)
    && (c.safe || i == 0 ==> Arrived(c, trail))
    && (i == 0 ==> RdmaAtOnce(c, trail))
  }

  /** What counts arrived. */
  ghost predicate Arrived(c: Course, trail: seq<Tried>) {
    && 0 < |trail| <= |c.rungs|
    && var did, rung := trail[|trail| - 1].did, c.rungs[|trail| - 1];
    && (!c.dryRun && did.push.Xfer? && did.push.rc == 0 ==> Delivered(c.ToPush(), SentBy(trail), rung, c.denied))
    && (!c.dryRun && PullCounts(did, |trail| == |c.rungs|) ==> Delivered(c.ToPull(), FetchedBy(trail), rung, c.denied))
  }

  ghost predicate RdmaAtOnce(c: Course, trail: seq<Tried>) {
    trail != [] && c.rungs != [] && (trail[|trail| - 1].did.reason.None? && !c.dryRun && c.rungs[0].Rdma? ==>
      SentBy(trail) == Allowed(c.ToPush(), c.denied) && FetchedBy(trail) == Allowed(c.ToPull(), c.denied))
  }

  /** The loop over the rungs. */
  method Climb(trees: SyncPair, rungs: seq<Rung>, plan0: TransferPlan, denied: Rel -> bool,
               dryRun: bool, pushOnly: bool, pullOnly: bool, env: nat -> RungScript, ghost c: Course)
    returns (raised: bool, out: Outcome, ghost trail: seq<Tried>)
    requires c == Course(rungs, plan0, denied, dryRun, pushOnly, pullOnly, env, trees.Now(), c.exact, c.safe)
    requires c.Sound() && rungs != []
    modifies trees
    ensures trees.Now() == Apply(old(trees.Now()), SentBy(trail), FetchedBy(trail))
    ensures Climbed(c, raised, out, trail)
  {
    raised, out, trail := false, Outcome(None, -1, -1, 0, 0, []), [];
    NothingApplied(trees.Now());
    var plan, downgrades, i, done := plan0, [], 0, false;
    while !done
      invariant trees.Now() == Apply(c.w0, SentBy(trail), FetchedBy(trail))
      invariant if done then Climbed(c, raised, out, trail) else Climbing(c, plan, trail, downgrades, i)
      decreases if done then 0 else 1, |rungs| - i
    {
      done, raised, out, plan, downgrades, trail := ClimbOnce(trees, rungs, plan, denied, dryRun, pushOnly, pullOnly, env, i, downgrades, c, trail);
      i := i + 1;
    }
  }

  /** A run that ended, one way or the other. */
  ghost predicate Climbed(c: Course, raised: bool, out: Outcome, trail: seq<Tried>) {
    && |trail| <= |c.rungs| && AllWent(c.Going(), trail) && Chained(c.plan0, trail, c.w0, c.env, c.dryRun, c.exact)
    && SentBy(trail) <= c.ToPush() && FetchedBy(trail) <= c.ToPull()
    && (c.dryRun ==> SentBy(trail) == {} && FetchedBy(trail) == {})
    && (raised ==> RaisedAt(c.rungs, trail, c.w0, c.env, c.dryRun) && (SomethingRaised(c.env, |c.rungs|) || !c.exact))
    && (!raised ==> Ended(c.rungs, trail) && Told(c.rungs, trail, out))
    && (!raised && (c.safe || |trail| == 1) ==> Arrived(c, trail))
    && (!raised && |trail| == 1 ==> RdmaAtOnce(c, trail))
  }

  /** One turn of the loop. */
  method ClimbOnce(trees: SyncPair, rungs: seq<Rung>, plan: TransferPlan, denied: Rel -> bool,
                   dryRun: bool, pushOnly: bool, pullOnly: bool, env: nat -> RungScript, i: nat, downgrades: seq<Downgrade>,
                   ghost c: Course, ghost trail0: seq<Tried>)
    returns (done: bool, raised: bool, out: Outcome, next: TransferPlan, more: seq<Downgrade>, ghost trail: seq<Tried>)
    requires c == Course(rungs, c.plan0, denied, dryRun, pushOnly, pullOnly, env, c.w0, c.exact, c.safe)
    requires c.Sound() && Climbing(c, plan, trail0, downgrades, i)
    requires trees.Now() == Apply(c.w0, SentBy(trail0), FetchedBy(trail0))
    modifies trees
    ensures trees.Now() == Apply(c.w0, SentBy(trail), FetchedBy(trail))
    ensures if done then Climbed(c, raised, out, trail) else i + 1 < |rungs| && Climbing(c, next, trail, more, i + 1)
  {
    var rung, last := rungs[i], i + 1 == |rungs|;
    var r;
    done, out, next, more := true, Outcome(None, -1, -1, 0, 0, []), plan, downgrades;
    raised, r, trail := ClimbRung(trees, rung, plan, denied, dryRun, pushOnly, pullOnly, last, env(i), c, trail0, downgrades, i);
    if raised {
      return;
    }
    if r.reason.None? || last {
      out := Outcome(Some(rung), r.push.rc, r.pull.rc, r.push.bytes, r.pull.bytes, downgrades);
      ClimbEnds(c, plan, trail, downgrades, i, out);
      return;
    }
    raised, next, more := StepDown(trees, r, rung, rungs[i + 1], plan, dryRun, env(i).restat, downgrades, c, trail, i);
    done := raised;
  }

  /** A failed rung is told, and when it says that data moved the plan is made anew. */
  method StepDown(trees: SyncPair, r: RungResult, rung: Rung, next: Rung, plan: TransferPlan, dryRun: bool, restat: RestatEnding,
                  downgrades: seq<Downgrade>, ghost c: Course, ghost trail: seq<Tried>, ghost i: nat)
    returns (raised: bool, p: TransferPlan, more: seq<Downgrade>)
    requires c.Sound() && Behind(c, plan, trail, downgrades, i) && r.Tells(trail[i].did) && r.reason.Some?
    requires i + 1 < |c.rungs| && rung == c.rungs[i] && next == c.rungs[i + 1] && restat == c.env(i).restat && dryRun == c.dryRun
    requires trees.Now() == Apply(c.w0, SentBy(trail), FetchedBy(trail))
    ensures raised ==> RaisedAt(c.rungs, trail, c.w0, c.env, c.dryRun) && (SomethingRaised(c.env, |c.rungs|) || !c.exact)
    ensures !raised ==> Climbing(c, p, trail, more, i + 1)
  {
    raised, p := false, plan;
    more := downgrades + [Downgrade(rung, next, r.reason.value)];
    if r.moved && !dryRun {
      raised, p := ReplanAfterRung(trees, plan, restat, c, trail, downgrades, i);
      if raised {
        return;
      }
    }
    ClimbGoesOn(c, plan, p, trail, downgrades, more, i);
  }

  /** One rung on top of what arrived before it. */
  method ClimbRung(trees: SyncPair, rung: Rung, plan: TransferPlan, denied: Rel -> bool,
                   dryRun: bool, pushOnly: bool, pullOnly: bool, last: bool, script: RungScript,
                   ghost c: Course, ghost trail0: seq<Tried>, ghost downgrades: seq<Downgrade>, ghost i: nat)
    returns (raised: bool, r: RungResult, ghost trail: seq<Tried>)
    requires c.Sound() && Climbing(c, plan, trail0, downgrades, i)
    requires rung == c.rungs[i] && last == (i + 1 == |c.rungs|) && script == c.env(i) && denied == c.denied
    requires dryRun == c.dryRun && pushOnly == c.pushOnly && pullOnly == c.pullOnly
    requires trees.Now() == Apply(c.w0, SentBy(trail0), FetchedBy(trail0))
    modifies trees
    ensures raised ==> RaisedAt(c.rungs, trail, c.w0, c.env, c.dryRun) && SomethingRaised(c.env, |c.rungs|)
    ensures trees.Now() == Apply(c.w0, SentBy(trail), FetchedBy(trail))
    ensures fresh(r) && r.Consistent()
    ensures if raised then trail == trail0 else Behind(c, plan, trail, downgrades, i) && r.Tells(trail[i].did)
  {
    ghost var sent, fetched := SentBy(trail0), FetchedBy(trail0);
    ghost var did;
    raised, r, did := RunRung(trees, rung, plan, denied, dryRun, pushOnly, pullOnly, last, script);
    PartOfPlan(c, plan, did, sent, fetched);
    RungAdds(c.w0, sent, fetched, did.pushed, did.pulled);
    if raised {
      trail := trail0;
      StoppedByTools(c, plan, trail, downgrades, i);
    } else {
      trail := RungBehind(c, plan, trail0, downgrades, i, did);
    }
  }

  lemma RungBehind(c: Course, plan: TransferPlan, trail0: seq<Tried>, downgrades: seq<Downgrade>, i: nat, did: Work)
    returns (trail: seq<Tried>)
    requires c.Sound() && Climbing(c, plan, trail0, downgrades, i)
    requires Went(c.rungs[i], did, plan, c.denied, c.dryRun, c.pushOnly, c.pullOnly, i + 1 == |c.rungs|, c.env(i))
    ensures Behind(c, plan, trail, downgrades, i) && trail[i].did == did
    ensures SentBy(trail) == SentBy(trail0) + did.pushed && FetchedBy(trail) == FetchedBy(trail0) + did.pulled
  {
    var t := Tried(plan, did, SentBy(trail0) + did.pushed, FetchedBy(trail0) + did.pulled);
    trail := trail0 + [t];
    ClimbsOn(c, plan, trail0, downgrades, i, t);
  }

  /** One rung as it went: the plan it was given, what it did, and all that had arrived when it
      ended. */
  datatype Tried = Tried(plan: TransferPlan, did: Work, sent: set<Rel>, fetched: set<Rel>)

  ghost function SentBy(trail: seq<Tried>): set<Rel> { if trail == [] then {} else trail[|trail| - 1].sent }

  ghost function FetchedBy(trail: seq<Tried>): set<Rel> { if trail == [] then {} else trail[|trail| - 1].fetched }

  /** What the rung in place `k` may have done. */
  ghost function Goes(rungs: seq<Rung>, denied: Rel -> bool, dryRun: bool, pushOnly: bool, pullOnly: bool, env: nat -> RungScript)
    : (nat, Tried) -> bool
  {
    (k: nat, t: Tried) => k < |rungs| && Went(rungs[k], t.did, t.plan, denied, dryRun, pushOnly, pullOnly, k + 1 == |rungs|, env(k))
  }

  /** The rungs in order from the first: each did what a rung in its place does, and what arrived
      is all that they moved. */
  ghost predicate AllWent(goes: (nat, Tried) -> bool, trail: seq<Tried>) {
    forall k: nat :: k < |trail| ==> goes(k, trail[k]) && Adds(trail, k)
  }

  /** What arrived up to a rung is what had arrived before it and what it moved. */
  ghost predicate Adds(trail: seq<Tried>, k: nat)
    requires k < |trail|
  {
    && trail[k].sent == SentBy(trail[..k]) + trail[k].did.pushed
    && trail[k].fetched == FetchedBy(trail[..k]) + trail[k].did.pulled
  }

  /** A re-plan is due: the rung says that data moved and there is something left to ask for. */
  ghost predicate ReplanDue(t: Tried, dryRun: bool) {
    t.did.moved && !dryRun && (t.plan.toPush != [] || t.plan.toPull != [])
  }

  /** The plan for the next rung: after a due re-plan and an answer of the peer, what that makes of
      the plan, exactly what has not arrived yet when re-plans are exact; otherwise the same plan. */
  ghost predicate NextPlan(t: Tried, p: TransferPlan, w0: World, restat: RestatEnding, dryRun: bool, exact: bool) {
    if ReplanDue(t, dryRun) && !restat.Unreachable? then
      && restat.Answers? && Replanned(Apply(w0, t.sent, t.fetched), t.plan, p)
      && (exact ==> Elems(p.toPush) == Elems(t.plan.toPush) - t.sent && Elems(p.toPull) == Elems(t.plan.toPull) - t.fetched)
    else p == t.plan
  }

  /** Every rung but the last failed, and each got the plan its predecessor left. */
  ghost predicate Chained(plan0: TransferPlan, trail: seq<Tried>, w0: World, env: nat -> RungScript, dryRun: bool, exact: bool) {
    && (trail != [] ==> trail[0].plan == plan0)
    && (forall k :: 0 <= k < |trail| - 1 ==>
          trail[k].did.reason.Some? && NextPlan(trail[k], trail[k + 1].plan, w0, env(k).restat, dryRun, exact))
  }

  /** The climb ends at a rung that works, or at the last. */
  ghost predicate Ended(rungs: seq<Rung>, trail: seq<Tried>) {
    0 < |trail| <= |rungs| && (trail[|trail| - 1].did.reason.None? || |trail| == |rungs|)
  }

  /** Where a run raises: at an ssh rung whose tools are not found, or in a due re-plan whose call
      raises or whose answer is refused. */
  ghost predicate RaisedAt(rungs: seq<Rung>, trail: seq<Tried>, w0: World, env: nat -> RungScript, dryRun: bool) {
    && |trail| <= |rungs|
    && (|| (|trail| < |rungs| && !env(|trail|).toolsFound && !(rungs[|trail|].Rdma? && !dryRun))
        || (0 < |trail| < |rungs| && var t, restat := trail[|trail| - 1], env(|trail| - 1).restat;
            t.did.reason.Some? && ReplanDue(t, dryRun)
            && (restat.CallRaised? || (restat.Answers? && Answer(Apply(w0, t.sent, t.fetched).remote, Asked(t.plan)).None?))))
  }

  /** What the outcome tells of it: the last rung tried with its exit codes and bytes, and one
      downgrade for every rung given up. */
  ghost predicate Told(rungs: seq<Rung>, trail: seq<Tried>, out: Outcome) {
    && 0 < |trail| <= |rungs|
    && var last := trail[|trail| - 1].did;
    && last.push.Xfer? && last.pull.Xfer? && (last.reason.None? <==> out.Ok())
    && out.transport == Some(rungs[|trail| - 1])
    && out.pushRc == last.push.rc && out.pushBytes == last.push.bytes
    && out.pullRc == last.pull.rc && out.pullBytes == last.pull.bytes
    && |out.downgrades| == |trail| - 1
    && forall k :: 0 <= k < |trail| - 1 ==>
         trail[k].did.reason.Some? && out.downgrades[k] == Downgrade(rungs[k], rungs[k + 1], trail[k].did.reason.value)
  }

  /** After a push that failed with an exit code only the last rung pulls: an earlier one leaves the
      pull to the next, and the last one fetches all it was given unless the pull fails too. */
  lemma PullAfterFailedPush(rungs: seq<Rung>, denied: Rel -> bool, dryRun: bool, pushOnly: bool, pullOnly: bool,
                            env: nat -> RungScript, trail: seq<Tried>, k: nat)
    requires k < |trail| <= |rungs| && AllWent(Goes(rungs, denied, dryRun, pushOnly, pullOnly, env), trail)
    requires FailedPush(trail[k].did.reason)
    ensures k + 1 < |rungs| ==> trail[k].fetched == FetchedBy(trail[..k]) && trail[k].did.pull == Xfer(0, 0)
    ensures k + 1 == |rungs| && !pushOnly && (forall i :: env(k).pullSteps(i).Succeeded()) ==>
              trail[k].did.pulled == Elems(trail[k].plan.toPull) && trail[k].did.pull.Ok()
  {
    var t, last := trail[k], k + 1 == |rungs|;
    assert Goes(rungs, denied, dryRun, pushOnly, pullOnly, env)(k, t) && Adds(trail, k);
    assert Went(rungs[k], t.did, t.plan, denied, dryRun, pushOnly, pullOnly, last, env(k));
    PullOrNot(t.did, t.plan, dryRun, pushOnly, pullOnly, last, env(k));
    assert FetchedBy(trail[..k]) + {} == FetchedBy(trail[..k]);
  }

  predicate FailedPush(reason: Option<Reason>) {
    reason.Some? && reason.value.ExitCode? && reason.value.dir.Push?
  }

  lemma PullOrNot(did: Work, plan: TransferPlan, dryRun: bool, pushOnly: bool, pullOnly: bool, goesOn: bool, script: RungScript)
    requires SshRung(did, plan, dryRun, pushOnly, pullOnly, goesOn, script) && FailedPush(did.reason)
    ensures !goesOn ==> NoPull(did)
    ensures goesOn && !pushOnly && (forall i :: script.pullSteps(i).Succeeded()) ==> did.pulled == Elems(plan.toPull) && did.pull.Ok()
  {
    assert did.reason == Some(ExitCode(Push, did.reason.value.rc));
  }

  /** Nothing goes wrong in a rung. */
  ghost predicate Smooth(s: RungScript) {
    && s.toolsFound && (forall i :: s.pushSteps(i).Succeeded()) && (forall i :: s.pullSteps(i).Succeeded())
    && s.arepPush.ArepDone? && s.arepPull.ArepDone?
  }

  /** Then it works, and the climb ends there; over rdma if the files can be listed. */
  lemma SmoothRungWorks(rungs: seq<Rung>, denied: Rel -> bool, dryRun: bool, pushOnly: bool, pullOnly: bool,
                        env: nat -> RungScript, trail: seq<Tried>, k: nat)
    requires k < |trail| <= |rungs| && AllWent(Goes(rungs, denied, dryRun, pushOnly, pullOnly, env), trail)
    requires Smooth(env(k))
    requires var p := trail[k].plan;
             (forall r :: r in p.toPush ==> r in p.localInv && ValidRelpath(r)) && (forall r :: r in p.toPull ==> r in p.remoteInv && ValidRelpath(r))
    ensures trail[k].did.reason.None?
  {
    assert Goes(rungs, denied, dryRun, pushOnly, pullOnly, env)(k, trail[k]);
  }

  lemma WentOnceMore(goes: (nat, Tried) -> bool, trail: seq<Tried>, i: nat)
    requires |trail| == i + 1 && AllWent(goes, trail[..i]) && goes(i, trail[i]) && Adds(trail, i)
    ensures AllWent(goes, trail)
  {
    forall k: nat | k < |trail| ensures goes(k, trail[k]) && Adds(trail, k) {
      if k < i {
        assert trail[..i][k] == trail[k] && Adds(trail[..i], k);
        AddsInFront(trail, i, k);
      }
    }
  }

  lemma AddsInFront(trail: seq<Tried>, i: nat, k: nat)
    requires k < i <= |trail| && Adds(trail[..i], k)
    ensures Adds(trail, k)
  {
    assert trail[..i][..k] == trail[..k];
  }

  lemma ChainedOnceMore(c: Course, plan: TransferPlan, trail: seq<Tried>, t: Tried)
    requires Chained(c.plan0, trail, c.w0, c.env, c.dryRun, c.exact) && Given(c, plan, trail) && t.plan == plan
    ensures Chained(c.plan0, trail + [t], c.w0, c.env, c.dryRun, c.exact)
  {
    var longer := trail + [t];
    forall k | 0 <= k < |trail|
      ensures longer[k].did.reason.Some? && NextPlan(longer[k], longer[k + 1].plan, c.w0, c.env(k).restat, c.dryRun, c.exact)
    {
      assert longer[k] == trail[k];
    }
  }

  /** A rung that went, behind those before it. */
  lemma ClimbsOn(c: Course, plan: TransferPlan, trail: seq<Tried>, downgrades: seq<Downgrade>, i: nat, t: Tried)
    requires c.Sound() && Climbing(c, plan, trail, downgrades, i)
    requires t.plan == plan && c.WentBy(i, t)
    requires t.sent == SentBy(trail) + t.did.pushed && t.fetched == FetchedBy(trail) + t.did.pulled
    ensures Behind(c, plan, trail + [t], downgrades, i)
  {
    var longer := trail + [t];
    TrailGrows(c, plan, trail, i, t);
    assert Downgraded(c, longer, downgrades, i);
    assert SentBy(longer) == t.sent && FetchedBy(longer) == t.fetched;
    if c.safe || i == 0 {
      RungArrived(c, plan, SentBy(trail), FetchedBy(trail), longer, i);
    }
    if i == 0 {
      FirstRdma(c, longer);
    }
  }

  lemma TrailGrows(c: Course, plan: TransferPlan, trail: seq<Tried>, i: nat, t: Tried)
    requires c.Sound() && i < |c.rungs| && |trail| == i && Given(c, plan, trail) && Trailed(c, plan, trail, c.safe || i == 0)
    requires t.plan == plan && c.WentBy(i, t)
    requires t.sent == SentBy(trail) + t.did.pushed && t.fetched == FetchedBy(trail) + t.did.pulled
    ensures Trailed(c, plan, trail + [t], c.safe || i == 0)
  {
    var longer := trail + [t];
    assert longer[..i] == trail;
    WentOnceMore(c.Going(), longer, i);
    ChainedOnceMore(c, plan, trail, t);
    MoreArrived(c, plan, SentBy(trail), FetchedBy(trail), i, t);
  }

  lemma MoreArrived(c: Course, plan: TransferPlan, sent: set<Rel>, fetched: set<Rel>, i: nat, t: Tried)
    requires Runnable(c.plan0) && i < |c.rungs| && Within(c.plan0, plan) && sent <= c.ToPush() && fetched <= c.ToPull()
    requires t.plan == plan && c.WentBy(i, t) && t.sent == sent + t.did.pushed && t.fetched == fetched + t.did.pulled
    ensures t.sent <= c.ToPush() && t.fetched <= c.ToPull()
    ensures StillToDo(c.plan0, plan, sent, fetched) ==> StillToDo(c.plan0, plan, t.sent, t.fetched)
    ensures c.dryRun && sent == {} && fetched == {} ==> t.sent == {} && t.fetched == {}
  {
    WentDelivers(c.rungs[i], t.did, plan, c.denied, c.dryRun, c.pushOnly, c.pullOnly, i + 1 == |c.rungs|, c.env(i));
    ArrivedSoFar(c.plan0, plan, sent, t.did.pushed, fetched, t.did.pulled, c.pushOnly, c.pullOnly);
  }

  lemma FirstRdma(c: Course, trail: seq<Tried>)
    requires |trail| == 1 && c.rungs != [] && trail[0].plan == c.plan0 && c.WentBy(0, trail[0])
    requires trail[0].sent == {} + trail[0].did.pushed && trail[0].fetched == {} + trail[0].did.pulled
    ensures RdmaAtOnce(c, trail)
  {
    var did := trail[0].did;
    WentDelivers(c.rungs[0], did, c.plan0, c.denied, c.dryRun, c.pushOnly, c.pullOnly, 1 == |c.rungs|, c.env(0));
    assert {} + did.pushed == did.pushed && {} + did.pulled == did.pulled;
  }

  lemma StoppedByTools(c: Course, plan: TransferPlan, trail: seq<Tried>, downgrades: seq<Downgrade>, i: nat)
    requires Climbing(c, plan, trail, downgrades, i) && !c.env(i).toolsFound && !(c.rungs[i].Rdma? && !c.dryRun)
    ensures RaisedAt(c.rungs, trail, c.w0, c.env, c.dryRun) && SomethingRaised(c.env, |c.rungs|)
  {}

  lemma StoppedByReplan(c: Course, plan: TransferPlan, trail: seq<Tried>, downgrades: seq<Downgrade>, i: nat)
    requires Behind(c, plan, trail, downgrades, i) && i + 1 < |c.rungs| && trail[i].did.reason.Some? && ReplanDue(trail[i], c.dryRun)
    requires var restat := c.env(i).restat;
             restat.CallRaised? || (restat.Answers? && Answer(Apply(c.w0, trail[i].sent, trail[i].fetched).remote, Asked(plan)).None?)
    ensures RaisedAt(c.rungs, trail, c.w0, c.env, c.dryRun)
    ensures c.env(i).restat.CallRaised? ==> SomethingRaised(c.env, |c.rungs|)
  {}

  lemma ClimbEnds(c: Course, plan: TransferPlan, trail: seq<Tried>, downgrades: seq<Downgrade>, i: nat, out: Outcome)
    requires Behind(c, plan, trail, downgrades, i) && (trail[i].did.reason.None? || i + 1 == |c.rungs|)
    requires var did := trail[i].did;
             && did.push.Xfer? && did.pull.Xfer? && (did.reason.None? <==> did.push.rc == 0 && did.pull.rc == 0)
             && out == Outcome(Some(c.rungs[i]), did.push.rc, did.pull.rc, did.push.bytes, did.pull.bytes, downgrades)
    ensures Ended(c.rungs, trail) && Told(c.rungs, trail, out)
  {}

  lemma RungArrived(c: Course, plan: TransferPlan, sent: set<Rel>, fetched: set<Rel>, trail: seq<Tried>, i: nat)
    requires i < |c.rungs| && |trail| == i + 1 && c.WentBy(i, trail[i]) && trail[i].plan == plan
    requires Within(c.plan0, plan) && StillToDo(c.plan0, plan, sent, fetched) && sent <= c.ToPush() && fetched <= c.ToPull()
    requires trail[i].sent == sent + trail[i].did.pushed && trail[i].fetched == fetched + trail[i].did.pulled
    ensures Arrived(c, trail)
  {
    var did, last := trail[i].did, i + 1 == |c.rungs|;
    WentDelivers(c.rungs[i], did, plan, c.denied, c.dryRun, c.pushOnly, c.pullOnly, last, c.env(i));
    if !c.dryRun && did.push.rc == 0 {
      DeliveredOverall(c.plan0.toPush, plan.toPush, c.pullOnly, sent, did.pushed, c.rungs[i], c.denied);
    }
    if !c.dryRun && PullCounts(did, last) {
      DeliveredOverall(c.plan0.toPull, plan.toPull, c.pushOnly, fetched, did.pulled, c.rungs[i], c.denied);
    }
  }

  lemma PartOfPlan(c: Course, plan: TransferPlan, did: Work, sent: set<Rel>, fetched: set<Rel>)
    requires c.Sound() && Within(c.plan0, plan) && sent <= c.ToPush() && fetched <= c.ToPull()
    requires did.pushed <= Enabled(plan.toPush, c.pullOnly) && did.pulled <= Enabled(plan.toPull, c.pushOnly)
    ensures sent + did.pushed !! fetched + did.pulled
    ensures did.pushed == {} ==> sent + did.pushed == sent
    ensures did.pulled == {} ==> fetched + did.pulled == fetched
  {}

  /** A failed rung, the downgrade, and the plan for the next one. */
  lemma ClimbGoesOn(c: Course, plan: TransferPlan, next: TransferPlan, trail: seq<Tried>,
                    before: seq<Downgrade>, downgrades: seq<Downgrade>, i: nat)
    requires Behind(c, plan, trail, before, i) && i + 1 < |c.rungs| && trail[i].did.reason.Some?
    requires downgrades == before + [Downgrade(c.rungs[i], c.rungs[i + 1], trail[i].did.reason.value)]
    requires NextPlan(trail[i], next, c.w0, c.env(i).restat, c.dryRun, c.exact)
    requires Within(c.plan0, next) && (c.safe ==> Keeps(next) && StillToDo(c.plan0, next, trail[i].sent, trail[i].fetched))
    ensures Climbing(c, next, trail, downgrades, i + 1)
  {
    forall k | 0 <= k < i + 1
      ensures trail[k].did.reason.Some? && downgrades[k] == Downgrade(c.rungs[k], c.rungs[k + 1], trail[k].did.reason.value)
    {
      if k < i { assert before[k] == downgrades[k]; }
    }
  }

  /** The re-plan inside the ladder takes nothing in, it leaves out nothing that is missing when it
      can lose nothing, and exactly what arrived when re-plans are exact. */
  method ReplanAfterRung(trees: SyncPair, plan: TransferPlan, restat: RestatEnding,
                         ghost c: Course, ghost trail: seq<Tried>, ghost downgrades: seq<Downgrade>, ghost i: nat)
    returns (raised: bool, p: TransferPlan)
    requires c.Sound() && Behind(c, plan, trail, downgrades, i) && restat == c.env(i).restat
    requires trees.Now() == Apply(c.w0, SentBy(trail), FetchedBy(trail))
    requires trail[i].did.moved && !c.dryRun && trail[i].did.reason.Some? && i + 1 < |c.rungs|
    ensures raised ==> RaisedAt(c.rungs, trail, c.w0, c.env, c.dryRun) && (SomethingRaised(c.env, |c.rungs|) || !c.exact)
    ensures !raised ==> NextPlan(trail[i], p, c.w0, restat, c.dryRun, c.exact) && Within(c.plan0, p)
    ensures !raised && c.safe ==> Keeps(p) && StillToDo(c.plan0, p, SentBy(trail), FetchedBy(trail))
  {
    raised, p := ReplanRemaining(trees, plan, restat);
    if raised {
      StoppedByReplan(c, plan, trail, downgrades, i);
    }
    if !raised && restat.Answers? && (plan.toPush != [] || plan.toPull != []) {
      NarrowedIs(trees.Now(), plan, p);
      if c.safe {
        NextIsSafe(c.w0, c.plan0, plan, SentBy(trail), FetchedBy(trail), p);
      }
    }
    if c.exact {
      WithinIsExact(c.plan0, plan, c.w0);
      ReplanDropsExactlyTheCopied(c.w0, plan, SentBy(trail), FetchedBy(trail));
    }
  }

  lemma NarrowedIs(w: World, plan: TransferPlan, p: TransferPlan)
    requires Replanned(w, plan, p)
    ensures Narrowed(w, plan) == Some((Elems(p.toPush), Elems(p.toPull)))
    ensures Elems(p.toPush) <= Elems(plan.toPush) && Elems(p.toPull) <= Elems(plan.toPull)
  {
    ThinnedElems(plan.toPush, PushSet(Seen(w, plan), plan.policy, true), p.toPush);
    ThinnedElems(plan.toPull, PullSet(Seen(w, plan), plan.policy, true), p.toPull);
  }

  lemma NextIsSafe(w0: World, plan0: TransferPlan, plan: TransferPlan, sent: set<Rel>, fetched: set<Rel>, p: TransferPlan)
    requires Runnable(plan0) && Within(plan0, plan) && sent <= Elems(plan0.toPush) && fetched <= Elems(plan0.toPull)
    requires Planned(plan0, w0) && Keeps(plan) && StillToDo(plan0, plan, sent, fetched)
    requires Narrowed(Apply(w0, sent, fetched), plan) == Some((Elems(p.toPush), Elems(p.toPull))) && p.policy == plan.policy
    ensures Keeps(p) && StillToDo(plan0, p, sent, fetched)
  {
    WithinIsRunnable(plan0, plan);
    KeepsOn(w0, plan, sent, fetched, p);
  }

  lemma WithinIsRunnable(plan0: TransferPlan, plan: TransferPlan)
    requires Runnable(plan0) && Within(plan0, plan)
    ensures Runnable(plan)
  {
    forall r | r in plan.toPush || r in plan.toPull ensures r in plan0.toPush || r in plan0.toPull {
      assert r in Elems(plan.toPush) || r in Elems(plan.toPull);
    }
  }

  lemma WithinIsExact(plan0: TransferPlan, plan: TransferPlan, w0: World)
    requires Runnable(plan0) && Exact(plan0, w0) && Within(plan0, plan)
    ensures Runnable(plan) && Exact(plan, w0)
  {
    forall r | r in plan.toPush || r in plan.toPull ensures r in plan0.toPush || r in plan0.toPull {
      assert r in Elems(plan.toPush) || r in Elems(plan.toPull);
    }
  }

  lemma DeliveredOverall(rels0: seq<Rel>, rels: seq<Rel>, excluded: bool, before: set<Rel>, got: set<Rel>,
                         rung: Rung, denied: Rel -> bool)
    requires Elems(rels) <= Elems(rels0) <= Elems(rels) + before
    requires before <= Enabled(rels0, excluded) && Delivered(Enabled(rels, excluded), got, rung, denied)
    ensures Delivered(Enabled(rels0, excluded), before + got, rung, denied)
  {}

  /** A plan with nothing that is not in the other, in the same direction. */
  ghost predicate Within(plan0: TransferPlan, plan: TransferPlan) {
    plan.policy == plan0.policy && Elems(plan.toPush) <= Elems(plan0.toPush) && Elems(plan.toPull) <= Elems(plan0.toPull)
  }

  /** The current plan still holds everything of the original one that has not arrived. */
  ghost predicate StillToDo(plan0: TransferPlan, plan: TransferPlan, sent: set<Rel>, fetched: set<Rel>) {
    Elems(plan0.toPush) <= Elems(plan.toPush) + sent && Elems(plan0.toPull) <= Elems(plan.toPull) + fetched
  }

  lemma ArrivedSoFar(plan0: TransferPlan, plan: TransferPlan, sent: set<Rel>, pushed: set<Rel>,
                     fetched: set<Rel>, pulled: set<Rel>, pushOnly: bool, pullOnly: bool)
    requires Runnable(plan0) && Within(plan0, plan)
    requires sent <= Enabled(plan0.toPush, pullOnly) && fetched <= Enabled(plan0.toPull, pushOnly)
    requires pushed <= Enabled(plan.toPush, pullOnly) && pulled <= Enabled(plan.toPull, pushOnly)
    ensures sent + pushed <= Enabled(plan0.toPush, pullOnly) && fetched + pulled <= Enabled(plan0.toPull, pushOnly)
    ensures sent + pushed !! fetched + pulled
    ensures (pushed == {} ==> sent + pushed == sent) && (pulled == {} ==> fetched + pulled == fetched)
    ensures (sent == {} ==> sent + pushed == pushed) && (fetched == {} ==> fetched + pulled == pulled)
  {}

  lemma NothingApplied(w: World)
    ensures Apply(w, {}, {}) == w
  {
    CopiedNothing(w, Push);
  }

  /** A rung that copies more extends the one atomic application. */
  lemma RungAdds(w0: World, sent: set<Rel>, fetched: set<Rel>, pushed: set<Rel>, pulled: set<Rel>)
    requires sent + pushed !! fetched + pulled
    ensures Copied(Copied(Apply(w0, sent, fetched), Push, pushed), Pull, pulled) == Apply(w0, sent + pushed, fetched + pulled)
  {
    assert fetched + {} == fetched && sent + pushed + {} == sent + pushed;
    ApplyTwice(w0, sent, fetched, pushed, {});
    ApplyTwice(w0, sent + pushed, fetched, {}, pulled);
  }

  /** What a run means for one file: a path outside the plan is as before on both sides; a
      planned one is on the receiving side either as before or as on the sending side, and
      the sending side never changes. */
  lemma EveryFileOldOrPlanned(w0: World, push: set<Rel>, pull: set<Rel>, sent: set<Rel>, fetched: set<Rel>, rel: Rel)
    requires push !! pull && sent <= push && fetched <= pull
    ensures var w := Apply(w0, sent, fetched);
            && (rel !in push ==> Get(w.remote, rel) == Get(w0.remote, rel))
            && (rel !in pull ==> Get(w.local, rel) == Get(w0.local, rel))
            && (Get(w.remote, rel) == Get(w0.remote, rel) || Get(w.remote, rel) == Get(w0.local, rel))
            && (Get(w.local, rel) == Get(w0.local, rel) || Get(w.local, rel) == Get(w0.remote, rel))
            && (rel in sent && rel in w0.local ==> Get(w.remote, rel) == Get(w0.local, rel))
            && (rel in fetched && rel in w0.remote ==> Get(w.local, rel) == Get(w0.remote, rel))
  {}
}
