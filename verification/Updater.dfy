/** The package updater (`package_update.install_wheel`): retain the wheel in a
    content-addressed store, install it, verify, and roll back to the previous wheel when
    that is safe. Every external step may fail or time out. */
module Updater {
  import opened Base

  /** A verified wheel. Its digest names its content, so it determines the version. */
  datatype Artifact = Artifact(name: string, version: string, sha256: string)

  /** The bytes of a file: a wheel, known by its digest, or anything else. */
  datatype Content = Wheel(digest: string) | Garbage

  datatype Slot = Slot(digest: string, name: string)

  /** What the installed program reports when it can be asked. */
  datatype Live = Live(version: Option<string>, digest: Option<string>)

  /** The last receipt; a missing or unreadable one has no fields. */
  datatype Receipt = Receipt(version: Option<string>, sha256: Option<string>,
                             manager: Option<string>, program: Option<string>, wheel: Option<string>)

  datatype Command = Install(slot: Slot) | Rollback(slot: Slot)

  datatype Ending = Succeeded | Failed | TimedOut

  /** One run of the installer: how it ends, and whatever installation it leaves behind. */
  datatype InstallerRun = InstallerRun(ending: Ending, after: Live)

  /** Everything the adversary decides in one call. A probe that works tells the truth. */
  datatype CallScript = CallScript(
    sourceNow: Content, manager: Option<string>, program: string, copied: Option<Content>,
    probeWorks: nat -> bool, install: InstallerRun, rollback: InstallerRun, receiptWritten: bool)

  datatype Failure =
    | WheelChanged | NoInstallation | RetainFailed | RetainedWheelCorrupt
    | RollbackWithheld | NoRollback | RollbackFailed | RolledBack | ReceiptNotWritten

  datatype Result = Done(changed: bool) | Fail(why: Failure)

  predicate HexDigit(c: char) {
    '0' <= c <= '9' || 'a' <= c <= 'f'
  }

  predicate ValidDigest(d: string) {
    |d| == 64 && forall c :: c in d ==> HexDigit(c)
  }

  predicate WheelName(name: string) {
    |name| >= 4 && name[|name| - 4..] == ".whl" && '/' !in name
  }

  // ----- what is promised, in terms of what was there before a call --------------------------------

  /** What there was before a call. */
  datatype Before = Before(live: Live, receipt: Receipt, store: map<Slot, Content>, versionOf: string -> string) {
    /** Where the wheel of the receipt should be. */
    ghost function Kept(): Slot {
      Slot(if receipt.sha256.Some? then receipt.sha256.value else "", if receipt.wheel.Some? then receipt.wheel.value else "")
    }

    /** The receipt points at this installation and at a file in the store. */
    ghost predicate Points(manager: string, program: string) {
      && receipt.manager == Some(manager) && receipt.program == Some(program)
      && receipt.wheel.Some? && receipt.sha256.Some? && Kept() in store
      && |Kept().name| >= 4 && Kept().name[|Kept().name| - 4..] == ".whl" && '/' !in Kept().name
      && |Kept().digest| == 64 && (forall c :: c in Kept().digest ==> '0' <= c <= '9' || 'a' <= c <= 'f')
    }

    /** That file is the wheel of the receipt. */
    ghost predicate Whole() {
      Kept() in store && store[Kept()] == Wheel(Kept().digest) && receipt.version == Some(versionOf(Kept().digest))
    }

    ghost predicate Damaged(manager: string, program: string) { Points(manager, program) && !Whole() }

    /** It is, and the program that answers is that wheel. */
    ghost predicate Restorable(manager: string, program: string, probeWorks: nat -> bool) {
      && Points(manager, program) && Whole() && probeWorks(2) && probeWorks(3)
      && live == Live(Some(versionOf(Kept().digest)), Some(Kept().digest))
    }

    /** With the wheel to be installed in the store. */
    ghost function Retaining(a: Artifact): Before {
      this.(store := store[Slot(a.sha256, a.name) := Wheel(a.sha256)])
    }

    /** The receipt names this wheel and this installation, and the program answers as it. */
    ghost predicate Current(a: Artifact, script: CallScript) {
      && receipt.version == Some(a.version) && receipt.sha256 == Some(a.sha256)
      && receipt.manager == script.manager && receipt.program == Some(script.program)
      && script.probeWorks(0) && script.probeWorks(1) && live == Live(Some(a.version), Some(a.sha256))
    }

    ghost predicate Unchanged(a: Artifact, script: CallScript) {
      script.sourceNow == Wheel(a.sha256) && versionOf(a.sha256) == a.version
    }

    ghost predicate Accepted(a: Artifact, script: CallScript) {
      Unchanged(a, script) && script.manager.Some? && script.copied == Some(Wheel(a.sha256))
    }

    /** The installer is run. */
    ghost predicate Installs(a: Artifact, script: CallScript) {
      Accepted(a, script) && !Current(a, script) && !Retaining(a).Damaged(script.manager.value, script.program)
    }

    /** It fails without running out of time, and the wheel that was live can be restored. */
    ghost predicate RollsBack(a: Artifact, script: CallScript) {
      && Installs(a, script) && !Leaves(a, script) && !script.install.ending.TimedOut?
      && Retaining(a).Restorable(script.manager.value, script.program, script.probeWorks)
    }

    /** The restored program answers as that wheel. */
    ghost predicate Restores(script: CallScript) {
      && script.rollback.ending.Succeeded? && script.probeWorks(5) && script.probeWorks(6)
      && script.rollback.after == Live(Some(versionOf(Kept().digest)), Some(Kept().digest))
    }

    /** The answer of a call. */
    ghost predicate Answers(a: Artifact, script: CallScript, r: Result) {
      match r
      case Done(changed) =>
        && script.receiptWritten
        && if changed then Installs(a, script) && Leaves(a, script) else Accepted(a, script) && Current(a, script)
      case Fail(WheelChanged) => !Unchanged(a, script)
      case Fail(NoInstallation) => Unchanged(a, script) && script.manager.None?
      case Fail(RetainFailed) => Unchanged(a, script) && script.manager.Some? && script.copied != Some(Wheel(a.sha256))
      case Fail(RetainedWheelCorrupt) => Accepted(a, script) && !Current(a, script) && !Installs(a, script)
      case Fail(ReceiptNotWritten) =>
        && !script.receiptWritten
        && ((Accepted(a, script) && Current(a, script)) || (Installs(a, script) && Leaves(a, script)))
      case Fail(RollbackWithheld) => Installs(a, script) && script.install.ending.TimedOut?
      case Fail(NoRollback) =>
        Installs(a, script) && !Leaves(a, script) && !script.install.ending.TimedOut? && !RollsBack(a, script)
      case Fail(RolledBack) => RollsBack(a, script) && Restores(script)
      case Fail(RollbackFailed) => RollsBack(a, script) && !Restores(script)
    }

    /** The installer runs of a call. */
    ghost function Runs(a: Artifact, script: CallScript): seq<Command> {
      (if Installs(a, script) then [Install(Slot(a.sha256, a.name))] else []) + (if RollsBack(a, script) then [Rollback(Kept())] else [])
    }

    /** What there is after it. */
    ghost function After(a: Artifact, script: CallScript, r: Result): Before {
      Before(LiveAfter(a, script),
             if r.Done? then Receipt(Some(a.version), Some(a.sha256), script.manager, Some(script.program), Some(a.name)) else receipt,
             if Accepted(a, script) then Retaining(a).store else store, versionOf)
    }

    /** What is installed after it. */
    ghost function LiveAfter(a: Artifact, script: CallScript): Live {
      if RollsBack(a, script) then script.rollback.after else if Installs(a, script) then script.install.after else live
    }
  }

  /** The installer leaves the version asked for. */
  ghost predicate Leaves(a: Artifact, script: CallScript) {
    script.install.ending.Succeeded? && script.probeWorks(4) && script.install.after.version == Some(a.version)
  }

  /** An answer says exactly what happened: no two of them go together. */
  lemma OneAnswer(b: Before, a: Artifact, script: CallScript, r: Result, q: Result)
    requires b.Answers(a, script, r) && b.Answers(a, script, q)
    ensures r == q
  {}

  /** What answers mean: a wheel that is reported as restored is the one that was live, no rollback
      follows an installer that ran out of time, and the version reported as changed is the one
      asked for; the digest is that of the wheel if and only if nothing was installed or the
      installer left that very build. */
  lemma WhatAnswersMean(b: Before, a: Artifact, script: CallScript, r: Result)
    requires b.Answers(a, script, r)
    ensures r == Fail(RolledBack) ==>
              b.LiveAfter(a, script) == b.live && b.live == Live(b.receipt.version, b.receipt.sha256) && |b.Runs(a, script)| == 2
    ensures r == Fail(RollbackWithheld) <==> b.Runs(a, script) != [] && script.install.ending.TimedOut?
    ensures script.install.ending.TimedOut? ==> |b.Runs(a, script)| <= 1
    ensures r == Done(false) ==> b.Runs(a, script) == [] && b.LiveAfter(a, script) == b.live == Live(Some(a.version), Some(a.sha256))
    ensures r == Done(true) ==> b.LiveAfter(a, script) == script.install.after && script.install.after.version == Some(a.version)
    ensures r.Done? ==> (b.LiveAfter(a, script).digest == Some(a.sha256) <==> r == Done(false) || script.install.after.digest == Some(a.sha256))
    ensures r == Fail(NoRollback) ==> |b.Runs(a, script)| == 1 && !b.Retaining(a).Restorable(script.manager.value, script.program, script.probeWorks)
  {}

  /** Once the wheel is in the store, keeping it again changes nothing. */
  lemma KeptTwice(b: Before, a: Artifact, script: CallScript)
    ensures var kept := b.Retaining(a);
            && kept.Retaining(a) == kept && kept.Kept() == b.Kept()
            && (kept.Current(a, script) <==> b.Current(a, script)) && (kept.Accepted(a, script) <==> b.Accepted(a, script))
            && (kept.Installs(a, script) <==> b.Installs(a, script)) && (kept.RollsBack(a, script) <==> b.RollsBack(a, script))
            && (forall r :: kept.Answers(a, script, r) <==> b.Answers(a, script, r))
            && kept.Runs(a, script) == b.Runs(a, script) && kept.LiveAfter(a, script) == b.LiveAfter(a, script)
  {
    assert b.Retaining(a).store[Slot(a.sha256, a.name) := Wheel(a.sha256)] == b.Retaining(a).store;
  }

  class Machine {
    var live: Live
    var receipt: Receipt
    var store: map<Slot, Content>
    var ran: seq<Command>                // installer runs so far
    const versionOf: string -> string    // the metadata inside a wheel

    constructor (versionOf: string -> string, live: Live)
      ensures this.versionOf == versionOf && this.live == live
      ensures receipt == Receipt(None, None, None, None, None) && store == map[] && ran == []
    {
      this.versionOf, this.live := versionOf, live;
      receipt, store, ran := Receipt(None, None, None, None, None), map[], [];
    }

    /** The wheel a receipt names is in the store under its digest, whole and of the
        receipt's version. */
    ghost predicate ReceiptBacked()
      reads this
    {
      receipt.wheel.Some? ==>
        && receipt.sha256.Some? && receipt.version == Some(versionOf(receipt.sha256.value))
        && Slot(receipt.sha256.value, receipt.wheel.value) in store
        && store[Slot(receipt.sha256.value, receipt.wheel.value)] == Wheel(receipt.sha256.value)
    }

    ghost function Now(): Before
      reads this
    {
      Before(live, receipt, store, versionOf)
    }

    predicate LiveIs(version: string, digest: string)
      reads this`live
    {
      live == Live(Some(version), Some(digest))
    }

    /** `_live_version` and `_live_digest`: nothing, or the truth. */
    function ProbeVersion(works: bool): Option<string>
      reads this`live
    {
      if works then live.version else None
    }

    function ProbeDigest(works: bool): Option<string>
      reads this`live
    {
      if works then live.digest else None
    }

    predicate Names(a: Artifact, manager: string, program: string)
      reads this`receipt
    {
      receipt.version == Some(a.version) && receipt.sha256 == Some(a.sha256)
      && receipt.manager == Some(manager) && receipt.program == Some(program)
    }

    /** The receipt points at this installation and at a file in the store. */
    predicate HasCandidate(manager: string, program: string)
      reads this`receipt, this`store
    {
      && receipt.manager == Some(manager) && receipt.program == Some(program)
      && receipt.wheel.Some? && WheelName(receipt.wheel.value)
      && receipt.sha256.Some? && ValidDigest(receipt.sha256.value)
      && Slot(receipt.sha256.value, receipt.wheel.value) in store
    }

    /** `_retain_wheel`: copy, inspect the copy, then replace the store entry. */
    method RetainWheel(a: Artifact, copied: Option<Content>) returns (slot: Slot, ok: bool)
      modifies this`store
      ensures slot == Slot(a.sha256, a.name)
      ensures ok <==> copied == Some(Wheel(a.sha256)) && versionOf(a.sha256) == a.version
      ensures store == if ok then old(store)[slot := Wheel(a.sha256)] else old(store)
    {
      slot := Slot(a.sha256, a.name);
      if copied.None? || copied.value.Garbage? {
        return slot, false;
      }
      var content := copied.value;
      if versionOf(content.digest) != a.version || content.digest != a.sha256 {
        return slot, false;
      }
      store := store[slot := content];
      ok := true;
    }

    /** `_rollback_candidate`: the receipt's wheel, if the live program still is that wheel. */
    method RollbackCandidate(manager: string, program: string, probeWorks: nat -> bool)
      returns (corrupt: bool, candidate: Option<Slot>)
      ensures corrupt <==> Now().Damaged(manager, program)
      ensures candidate.Some? <==> Now().Restorable(manager, program, probeWorks)
      ensures candidate.Some? ==> candidate.value == Now().Kept()
    {
      if !HasCandidate(manager, program) {
        return false, None;
      }
      var digest := receipt.sha256.value;
      var slot := Slot(digest, receipt.wheel.value);
      var content := store[slot];
      if content.Garbage? || content.digest != digest || receipt.version != Some(versionOf(content.digest)) {
        return true, None;
      }
      if ProbeVersion(probeWorks(2)) != Some(versionOf(digest)) || ProbeDigest(probeWorks(3)) != Some(digest) {
        return false, None;
      }
      return false, Some(slot);
    }

    method RunInstaller(command: Command, run: InstallerRun)
      modifies this`live, this`ran
      ensures live == run.after && ran == old(ran) + [command]
    {
      ran := ran + [command];
      live := run.after;
    }

    /** One update, whatever the external steps do. */
    method InstallWheel(a: Artifact, script: CallScript) returns (r: Result)
      requires WheelName(a.name) && ValidDigest(a.sha256)
      modifies this
      // the answer, the installer runs and the installation left behind
      ensures old(Now()).Answers(a, script, r)
      ensures ran == old(ran) + old(Now()).Runs(a, script) && live == old(Now()).LiveAfter(a, script)
      // the receipt changes on a normal return and only then
      ensures receipt == if r.Done? then Receipt(Some(a.version), Some(a.sha256), script.manager, Some(script.program), Some(a.name))
                         else old(receipt)
      // the store gains the wheel as soon as it is kept, and nothing else
      ensures store == if old(Now()).Accepted(a, script) then old(store)[Slot(a.sha256, a.name) := Wheel(a.sha256)] else old(store)
      // the wheel a receipt names stays in the store under its digest
      ensures old(ReceiptBacked()) || r.Done? ==> ReceiptBacked()
    {
      if script.sourceNow.Garbage? || versionOf(script.sourceNow.digest) != a.version || script.sourceNow.digest != a.sha256 {
        return Fail(WheelChanged);
      }
      if script.manager.None? {
        return Fail(NoInstallation);
      }
      var manager, program := script.manager.value, script.program;
      var slot, retained := RetainWheel(a, script.copied);
      if !retained {
        return Fail(RetainFailed);
      }
      var written := Receipt(Some(a.version), Some(a.sha256), Some(manager), Some(program), Some(a.name));
      if Names(a, manager, program)
         && ProbeVersion(script.probeWorks(0)) == Some(a.version) && ProbeDigest(script.probeWorks(1)) == Some(a.sha256) {
        if !script.receiptWritten {
          return Fail(ReceiptNotWritten);
        }
        receipt := written;
        return Done(false);
      }
      ghost var before := old(Now());
      KeptTwice(before, a, script);
      assert Now() == before.Retaining(a);
      r := Reinstall(a, slot, script, written);
    }

    /** The update proper, once the wheel is kept: install it, verify, and roll back if that is
        safe. */
    method Reinstall(a: Artifact, slot: Slot, script: CallScript, written: Receipt) returns (r: Result)
      requires Now().Accepted(a, script) && !Now().Current(a, script) && Now().Retaining(a) == Now() && slot == Slot(a.sha256, a.name)
      modifies this`live, this`receipt, this`ran
      ensures old(Now()).Answers(a, script, r)
      ensures ran == old(ran) + old(Now()).Runs(a, script) && live == old(Now()).LiveAfter(a, script)
      ensures receipt == if r.Done? then written else old(receipt)
    {
      var corrupt, candidate := RollbackCandidate(script.manager.value, script.program, script.probeWorks);
      if corrupt {
        return Fail(RetainedWheelCorrupt);
      }
      RunInstaller(Install(slot), script.install);
      if script.install.ending.Succeeded? && ProbeVersion(script.probeWorks(4)) == Some(a.version) {
        if !script.receiptWritten {
          return Fail(ReceiptNotWritten);
        }
        receipt := written;
        return Done(true);
      }
      if script.install.ending.TimedOut? {
        return Fail(RollbackWithheld);
      }
      if candidate.None? {
        return Fail(NoRollback);
      }
      r := RollBack(candidate.value, script);
    }

    /** The rollback: look at the retained wheel again, install it, and read back what is live. */
    method RollBack(slot: Slot, script: CallScript) returns (r: Result)
      requires slot in store
      modifies this`live, this`ran
      ensures store[slot] == Wheel(slot.digest) ==> ran == old(ran) + [Rollback(slot)]
      ensures store[slot] != Wheel(slot.digest) ==> ran == old(ran) && live == old(live) && r == Fail(RollbackFailed)
      ensures r == Fail(RolledBack) || r == Fail(RollbackFailed)
      ensures store[slot] == Wheel(slot.digest) ==> live == script.rollback.after
      ensures r == Fail(RolledBack) <==>
                && store[slot] == Wheel(slot.digest) && script.rollback.ending.Succeeded? && script.probeWorks(5) && script.probeWorks(6)
                && LiveIs(versionOf(slot.digest), slot.digest)
    {
      if store[slot] != Wheel(slot.digest) {
        return Fail(RollbackFailed);
      }
      RunInstaller(Rollback(slot), script.rollback);
      if !script.rollback.ending.Succeeded?
         || ProbeVersion(script.probeWorks(5)) != Some(versionOf(slot.digest)) || ProbeDigest(script.probeWorks(6)) != Some(slot.digest) {
        return Fail(RollbackFailed);
      }
      return Fail(RolledBack);
    }
  }

  /** Any sequence of updates. The store always backs the receipt, and the receipt is the one
      of the last update that returned normally. */
  method UpdateAll(m: Machine, wheels: seq<Artifact>, scripts: seq<CallScript>)
    returns (results: seq<Result>, ghost states: seq<Before>)
    requires |scripts| == |wheels| && forall i :: 0 <= i < |wheels| ==> WheelName(wheels[i].name) && ValidDigest(wheels[i].sha256)
    requires m.ReceiptBacked()
    modifies m
    ensures |results| == |wheels| && m.ReceiptBacked()
    ensures |states| == |wheels| + 1 && states[0] == old(m.Now()) && states[|wheels|] == m.Now()
    ensures Chain(states, wheels, scripts, results)
    ensures LastWritten(wheels, results, old(m.receipt), m.receipt)
  {
    results, states := [], [m.Now()];
    for n := 0 to |wheels|
      invariant |results| == n && |states| == n + 1 && states[0] == old(m.Now()) && states[n] == m.Now()
      invariant Chain(states, wheels, scripts, results)
      invariant m.ReceiptBacked() && LastWritten(wheels, results, old(m.receipt), m.receipt)
    {
      ghost var before := m.Now();
      var r := m.InstallWheel(wheels[n], scripts[n]);
      ChainLonger(states, wheels, scripts, results, r, m.Now());
      LastOfMore(wheels, results, r, old(m.receipt), before.receipt, m.receipt);
      results := results + [r];
      states := states + [m.Now()];
    }
  }

  /** Each call answers by what the calls before it left. */
  ghost predicate Chain(states: seq<Before>, wheels: seq<Artifact>, scripts: seq<CallScript>, results: seq<Result>) {
    && |results| <= |wheels| && |results| <= |scripts| && |states| == |results| + 1
    && forall i :: 0 <= i < |results| ==>
         states[i].Answers(wheels[i], scripts[i], results[i]) && states[i + 1] == states[i].After(wheels[i], scripts[i], results[i])
  }

  /** The receipt is that of the last normal return, if there was one. */
  ghost predicate LastWritten(wheels: seq<Artifact>, results: seq<Result>, first: Receipt, now: Receipt) {
    var k := LastDone(results);
    && |results| <= |wheels|
    && (if k < 0 then now == first else now.sha256 == Some(wheels[k].sha256) && now.version == Some(wheels[k].version))
  }

  lemma ChainLonger(states: seq<Before>, wheels: seq<Artifact>, scripts: seq<CallScript>, results: seq<Result>, r: Result, next: Before)
    requires Chain(states, wheels, scripts, results)
    requires var n := |results|;
             && n < |wheels| && n < |scripts| && states[n].Answers(wheels[n], scripts[n], r)
             && next == states[n].After(wheels[n], scripts[n], r)
    ensures Chain(states + [next], wheels, scripts, results + [r])
  {}

  lemma LastOfMore(wheels: seq<Artifact>, results: seq<Result>, r: Result, first: Receipt, before: Receipt, now: Receipt)
    requires LastWritten(wheels, results, first, before) && |results| < |wheels|
    requires if r.Fail? then now == before
             else now.sha256 == Some(wheels[|results|].sha256) && now.version == Some(wheels[|results|].version)
    ensures LastWritten(wheels, results + [r], first, now)
  {
    assert (results + [r])[..|results|] == results;
  }

  /** The last update that returned normally, or -1. */
  function LastDone(results: seq<Result>): (k: int)
    ensures -1 <= k < |results|
    ensures k >= 0 ==> results[k].Done?
    ensures forall i :: k < i < |results| ==> results[i].Fail?
  {
    if results == [] then -1
    else if results[|results| - 1].Done? then |results| - 1
    else LastDone(results[..|results| - 1])
  }

  /** A normal return after a change vouches for the version alone: an installer that leaves
      another build of the same version is recorded with the digest of the wheel that was
      asked for. (After a normal return without a change the digest was read back as well.) */
  method AnotherBuildIsRecorded() returns (r: Result, receipt: Receipt, live: Live)
    ensures r == Done(true) && receipt.version == live.version && receipt.sha256 != live.digest
  {
    var asked, built := seq(64, _ => 'a'), seq(64, _ => 'b');
    assert asked[0] == 'a' && built[0] == 'b';
    var m := new Machine(_ => "1.0", Live(None, None));
    var run := InstallerRun(Succeeded, Live(Some("1.0"), Some(built)));
    var script := CallScript(Wheel(asked), Some("venv"), "maccluster", Some(Wheel(asked)), _ => true, run, run, true);
    var name := "w.whl";
    assert name[|name| - 4..] == ".whl";
    r := m.InstallWheel(Artifact(name, "1.0", asked), script);
    receipt, live := m.receipt, m.live;
  }
}
