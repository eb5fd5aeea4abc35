/** Unattended maintenance (`automation_service.run_automation`): isolated steps, a rollout
    that stops at the first unsuccessful peer, and local replacement last. */
module Rollout {
  import opened Base

  datatype StepName =
    | Configuration | Heal | Service | Build | RemoteInstall | Sync | Doctor | Update
    | Automation | LockTaken | ReceiptWrite

  datatype Status = Ok | Degraded | Failed | Skipped | Planned

  datatype Step = Step(name: StepName, target: string, status: Status)

  /** How one operation ends: a result that is judged, or one of two kinds of exception. */
  datatype Ending = Returned(judged: Status) | RaisedDegraded | RaisedOther

  /** Everything the adversary decides in one run. */
  datatype RunScript = RunScript(
    lockFree: bool, configuration: Option<seq<string>>, configurationDegraded: bool,
    heal: Ending, service: Ending, workDir: bool, build: Ending, peer: nat -> Ending,
    sync: Ending, doctor: Ending, update: Ending, cleanedUp: bool, receiptWritten: bool)

  /** The status of a step whose result is not judged: returning is enough. */
  function Unjudged(e: Ending): Status {
    match e
    case Returned(_) => Ok
    case RaisedDegraded => Degraded
    case RaisedOther => Failed
  }

  function Judged(e: Ending): Status {
    if e.Returned? then (if e.judged.Ok? || e.judged.Degraded? then e.judged else Failed) else Unjudged(e)
  }

  /** A remote install returns a result that is either good or failed. */
  function JudgedInstall(e: Ending): Status {
    if e.Returned? then (if e.judged.Ok? then Ok else Failed) else Unjudged(e)
  }

  /** What the statuses mean: a judged step is good or degraded when its result says so or it raised
      a degraded error; an install is good or failed by its result; any other step is good when it
      returns. Everything else failed, and none of them skips or plans. */
  lemma StatusesMean(e: Ending)
    ensures Judged(e).Ok? <==> e == Returned(Ok)
    ensures Judged(e).Degraded? <==> e == Returned(Degraded) || e.RaisedDegraded?
    ensures JudgedInstall(e).Ok? <==> e == Returned(Ok)
    ensures JudgedInstall(e).Degraded? <==> e.RaisedDegraded?
    ensures Unjudged(e).Ok? <==> e.Returned?
    ensures Unjudged(e).Degraded? <==> e.RaisedDegraded?
    ensures forall s :: s == Judged(e) || s == JudgedInstall(e) || s == Unjudged(e) ==> s.Ok? || s.Degraded? || s.Failed?
  {}

  function Names(steps: seq<Step>): seq<StepName> {
    seq(|steps|, i requires 0 <= i < |steps| => steps[i].name)
  }

  lemma NamesAppend(a: seq<Step>, b: seq<Step>)
    ensures Names(a + b) == Names(a) + Names(b)
  {}

  function Times(name: StepName, n: nat): seq<StepName> {
    seq(n, _ => name)
  }

  /** The steps of a run, in order, known before it starts. */
  function PlannedNames(peers: nat, noUpdate: bool, sync: bool): seq<StepName> {
    [Configuration, Heal, Service] + (if noUpdate then [] else [Build])
    + Times(if noUpdate then Heal else RemoteInstall, peers)
    + (if sync then [Sync] else []) + [Doctor] + (if noUpdate then [] else [Update])
  }

  predicate Unsuccessful(s: Status) { s.Degraded? || s.Failed? }

  /** The rollout over the peers stopped at `stop`: everyone before it went well, it was
      attempted and did not, and nobody after it was attempted. */
  ghost predicate StoppedAt(steps: seq<Step>, stop: nat) {
    && stop <= |steps|
    && (forall i :: 0 <= i < stop ==> steps[i].status.Ok?)
    && (stop < |steps| ==> Unsuccessful(steps[stop].status))
    && (forall i :: stop < i < |steps| ==> steps[i].status.Skipped?)
  }

  ghost predicate Occurs(steps: seq<Step>, status: Status) {
    exists s :: s in steps && s.status == status
  }

  /** 1 after a failed step, else 3 after a degraded one, else 0. */
  ghost predicate Exits(steps: seq<Step>, code: int) {
    && (code == 1 <==> Occurs(steps, Failed))
    && (code == 3 <==> !Occurs(steps, Failed) && Occurs(steps, Degraded))
    && (code == 0 <==> !Occurs(steps, Failed) && !Occurs(steps, Degraded))
  }

  // ----- what a run records ---------------------------------------------------------------------------

  /** Some peer before the `i`th was not installed well. */
  ghost predicate Stopped(outcome: nat -> Ending, i: nat) {
    exists k :: 0 <= k < i && outcome(k) != Returned(Ok)
  }

  /** The steps of the peers, in their order. Without an update each is healed. With one they are
      installed until one is not installed well, if there is a wheel; the others are skipped. */
  ghost function PeerSteps(peers: seq<string>, noUpdate: bool, built: bool, outcome: nat -> Ending): seq<Step> {
    seq(|peers|, i requires 0 <= i < |peers| =>
      if noUpdate then Step(Heal, peers[i], Judged(outcome(i)))
      else Step(RemoteInstall, peers[i], if !built || Stopped(outcome, i) then Skipped else JudgedInstall(outcome(i))))
  }

  ghost function HeadSteps(noUpdate: bool, script: RunScript): seq<Step> {
    [Step(Heal, "local", Unjudged(script.heal)), Step(Service, "local", Judged(script.service))]
    + if noUpdate then [] else [Step(Build, "local", Unjudged(script.build))]
  }

  /** Sync unless the rollout stopped, the doctor, and the local package if all went well. */
  ghost function TailSteps(noUpdate: bool, built: bool, stopped: bool, sync: bool, script: RunScript): seq<Step> {
    (if sync then [Step(Sync, "all peers", if stopped then Skipped else Judged(script.sync))] else [])
    + [Step(Doctor, "local", Judged(script.doctor))]
    + if noUpdate then [] else [Step(Update, "local", if built && !stopped then Unjudged(script.update) else Skipped)]
  }

  /** The record of a real run that could make its work directory. */
  ghost function Record(peers: seq<string>, noUpdate: bool, sync: bool, script: RunScript): seq<Step> {
    var built := !noUpdate && script.build.Returned?;
    [Step(Configuration, "local", Ok)] + HeadSteps(noUpdate, script) + PeerSteps(peers, noUpdate, built, script.peer)
    + TailSteps(noUpdate, built, built && Stopped(script.peer, |peers|), sync, script)
  }

  /** What a dry run lists after the configuration step. */
  ghost function PlannedSteps(peers: seq<string>, noUpdate: bool, sync: bool): seq<Step> {
    [Step(Heal, "local", Planned), Step(Service, "local", Planned)] + (if noUpdate then [] else [Step(Build, "local", Planned)])
    + seq(|peers|, i requires 0 <= i < |peers| => Step(if noUpdate then Heal else RemoteInstall, peers[i], Planned))
    + ((if sync then [Step(Sync, "selected peers", Planned)] else []) + [Step(Doctor, "local", Planned)]
       + if noUpdate then [] else [Step(Update, "local", Planned)])
  }

  /** What a real run records behind its steps: that it raised, because its work directory could
      not be made or removed, and that the receipt could not be written. */
  ghost function Extra(script: RunScript, noUpdate: bool): seq<Step> {
    (if !noUpdate && !(script.workDir && script.cleanedUp) then [Step(Automation, "local", Failed)] else [])
    + if script.receiptWritten then [] else [Step(ReceiptWrite, "local", Failed)]
  }

  class Report {
    var steps: seq<Step>
    var exitCode: int
    var receiptKept: bool

    constructor ()
      ensures steps == [] && exitCode == 0 && !receiptKept
    {
      steps, exitCode, receiptKept := [], 0, false;
    }

    method Add(name: StepName, target: string, status: Status)
      modifies this`steps
      ensures steps == old(steps) + [Step(name, target, status)]
    {
      steps := steps + [Step(name, target, status)];
    }

    /** `_finish`: the exit code, then the receipt; a receipt that cannot be written is one
        more failed step. */
    method Finish(persist: bool, written: bool)
      modifies this
      ensures steps == if persist && !written then old(steps) + [Step(ReceiptWrite, "local", Failed)] else old(steps)
      ensures Exits(steps, exitCode)
      ensures receiptKept <==> persist && written
    {
      exitCode := if exists s :: s in steps && s.status.Failed? then 1
                  else if exists s :: s in steps && s.status.Degraded? then 3 else 0;
      receiptKept := persist && written;
      if persist && !written {
        steps := steps + [Step(ReceiptWrite, "local", Failed)];
        exitCode := 1;
        assert steps[|steps| - 1].status.Failed?;
      }
    }

    /** `_plan`: what a dry run lists after the configuration step. */
    method Plan(peers: seq<string>, noUpdate: bool, sync: bool)
      modifies this`steps
      ensures steps == old(steps) + PlannedSteps(peers, noUpdate, sync)
    {
      ghost var before := steps;
      var head := [Step(Heal, "local", Planned), Step(Service, "local", Planned)]
                  + if noUpdate then [] else [Step(Build, "local", Planned)];
      var name := if noUpdate then Heal else RemoteInstall;
      var middle: seq<Step> := [];
      for i := 0 to |peers|
        invariant steps == old(steps) && |middle| == i
        invariant forall k :: 0 <= k < i ==> middle[k] == Step(name, peers[k], Planned)
      {
        middle := middle + [Step(name, peers[i], Planned)];
      }
      var tail := (if sync then [Step(Sync, "selected peers", Planned)] else []) + [Step(Doctor, "local", Planned)]
                  + if noUpdate then [] else [Step(Update, "local", Planned)];
      assert PlannedSteps(peers, noUpdate, sync) == head + middle + tail;
      Reassociate(steps, head, middle);
      Reassociate(steps, head + middle, tail);
      steps := steps + head + middle + tail;
    }

    /** The loop over the peers. */
    method RolloutPeers(peers: seq<string>, noUpdate: bool, built: bool, outcome: nat -> Ending)
      returns (blocked: bool, ghost stop: nat)
      modifies this`steps
      ensures steps == old(steps) + PeerSteps(peers, noUpdate, built, outcome)
      ensures blocked <==> !noUpdate && built && Stopped(outcome, |peers|)
      ensures !noUpdate && built ==> StoppedAt(PeerSteps(peers, noUpdate, built, outcome), stop) && (blocked <==> stop < |peers|)
    {
      blocked := false;
      ghost var added: seq<Step> := [];
      for i := 0 to |peers|
        invariant steps == old(steps) + added && added == PeerSteps(peers, noUpdate, built, outcome)[..i]
        invariant blocked <==> !noUpdate && built && Stopped(outcome, i)
      {
        if noUpdate {
          Add(Heal, peers[i], Judged(outcome(i)));
        } else if blocked {
          Add(RemoteInstall, peers[i], Skipped);
        } else if built {
          Add(RemoteInstall, peers[i], JudgedInstall(outcome(i)));
          if !steps[|steps| - 1].status.Ok? {
            blocked := true;
          }
        } else {
          Add(RemoteInstall, peers[i], Skipped);
        }
        StoppedNext(outcome, i);
        NextPeer(peers, noUpdate, built, outcome, i);
        added := added + [steps[|steps| - 1]];
      }
      stop := FirstStop(peers, outcome);
    }

    /** The body of a real run, after configuration. */
    method Execute(peers: seq<string>, noUpdate: bool, sync: bool, script: RunScript) returns (raised: bool)
      requires steps == [Step(Configuration, "local", Ok)]
      modifies this`steps
      ensures raised <==> !noUpdate && !(script.workDir && script.cleanedUp)
      ensures steps == if noUpdate || script.workDir then Record(peers, noUpdate, sync, script)
                       else [Step(Configuration, "local", Ok)] + HeadSteps(true, script)
    {
      Add(Heal, "local", Unjudged(script.heal));
      Add(Service, "local", Judged(script.service));
      var built := false;
      if !noUpdate {
        if !script.workDir {
          return true;
        }
        Add(Build, "local", Unjudged(script.build));
        built := script.build.Returned?;
      }
      assert steps == [Step(Configuration, "local", Ok)] + HeadSteps(noUpdate, script);
      var blocked, stop := RolloutPeers(peers, noUpdate, built, script.peer);
      AfterPeers(noUpdate, built, blocked, sync, script);
      // leaving the work directory's block removes it, and that may raise
      raised := !noUpdate && !script.cleanedUp;
    }

    /** A real run behind its configuration: the steps, one more when it raised, and the receipt. */
    method RealRun(peers: seq<string>, noUpdate: bool, sync: bool, script: RunScript)
      requires steps == [Step(Configuration, "local", Ok)]
      modifies this
      ensures Exits(steps, exitCode) && (receiptKept <==> script.receiptWritten)
      ensures steps == (if noUpdate || script.workDir then Record(peers, noUpdate, sync, script)
                        else [Step(Configuration, "local", Ok)] + HeadSteps(true, script)) + Extra(script, noUpdate)
    {
      var raised := Execute(peers, noUpdate, sync, script);
      ghost var body := steps;
      if raised {
        Add(Automation, "local", Failed);
      }
      Finish(true, script.receiptWritten);
      assert body + [] == body && steps + [] == steps;
    }

    /** What follows the peers: sync, doctor, and the replacement of the local package. */
    method AfterPeers(noUpdate: bool, built: bool, blocked: bool, sync: bool, script: RunScript)
      requires blocked ==> built && !noUpdate
      requires built ==> !noUpdate
      modifies this`steps
      ensures steps == old(steps) + TailSteps(noUpdate, built, blocked, sync, script)
    {
      if sync {
        if blocked {
          Add(Sync, "all peers", Skipped);
        } else {
          Add(Sync, "all peers", Judged(script.sync));
        }
      }
      Add(Doctor, "local", Judged(script.doctor));
      if blocked {
        Add(Update, "local", Skipped);
      } else if built {
        Add(Update, "local", Unjudged(script.update));
      } else if !noUpdate {
        Add(Update, "local", Skipped);
      }
    }
  }

  lemma OneStep(s: Step)
    ensures [] + [s] == [s] + [] == [s]
  {}

  lemma StoppedNext(outcome: nat -> Ending, i: nat)
    ensures Stopped(outcome, i + 1) <==> Stopped(outcome, i) || outcome(i) != Returned(Ok)
  {}

  lemma NextPeer(peers: seq<string>, noUpdate: bool, built: bool, outcome: nat -> Ending, i: nat)
    requires i < |peers|
    ensures var all := PeerSteps(peers, noUpdate, built, outcome);
            && all[..i + 1] == all[..i] + [all[i]]
            && all[i] == if noUpdate then Step(Heal, peers[i], Judged(outcome(i)))
                         else Step(RemoteInstall, peers[i], if !built || Stopped(outcome, i) then Skipped else JudgedInstall(outcome(i)))
  {}

  /** Where a rollout stops. */
  lemma FirstStop(peers: seq<string>, outcome: nat -> Ending) returns (stop: nat)
    ensures StoppedAt(PeerSteps(peers, false, true, outcome), stop) && (Stopped(outcome, |peers|) <==> stop < |peers|)
  {
    stop := 0;
    while stop < |peers| && outcome(stop) == Returned(Ok)
      invariant stop <= |peers| && forall k :: 0 <= k < stop ==> outcome(k) == Returned(Ok)
    {
      stop := stop + 1;
    }
    var steps := PeerSteps(peers, false, true, outcome);
    forall i | 0 <= i < |peers|
      ensures steps[i].status == if i > stop then Skipped else JudgedInstall(outcome(i))
    {
      NextPeer(peers, false, true, outcome, i);
      assert Stopped(outcome, i) <==> i > stop;
    }
  }

  /** A record has the planned names, and its steps the planned targets but for the words used for
      all peers. */
  lemma RecordIsAsPlanned(peers: seq<string>, noUpdate: bool, sync: bool, script: RunScript)
    ensures Names(Record(peers, noUpdate, sync, script)) == PlannedNames(|peers|, noUpdate, sync)
         == [Configuration] + Names(PlannedSteps(peers, noUpdate, sync))
  {
    var first := [Step(Configuration, "local", Ok)];
    var head, built := HeadSteps(noUpdate, script), !noUpdate && script.build.Returned?;
    var middle := PeerSteps(peers, noUpdate, built, script.peer);
    var tail := TailSteps(noUpdate, built, built && Stopped(script.peer, |peers|), sync, script);
    NamesInOrder(first, head, middle, tail, |peers|, noUpdate, sync);
    PlannedNamesAre(peers, noUpdate, sync);
  }

  lemma PlannedNamesAre(peers: seq<string>, noUpdate: bool, sync: bool)
    ensures [Configuration] + Names(PlannedSteps(peers, noUpdate, sync)) == PlannedNames(|peers|, noUpdate, sync)
  {
    var first := [Step(Configuration, "local", Ok)];
    var head := [Step(Heal, "local", Planned), Step(Service, "local", Planned)] + if noUpdate then [] else [Step(Build, "local", Planned)];
    var middle := seq(|peers|, i requires 0 <= i < |peers| => Step(if noUpdate then Heal else RemoteInstall, peers[i], Planned));
    var tail := (if sync then [Step(Sync, "selected peers", Planned)] else []) + [Step(Doctor, "local", Planned)]
                + if noUpdate then [] else [Step(Update, "local", Planned)];
    NamesInOrder(first, head, middle, tail, |peers|, noUpdate, sync);
    Reassociate(first, head, middle);
    Reassociate(first, head + middle, tail);
    NamesAppend(first, head + middle + tail);
    assert Names(first) == [Configuration];
  }

  /** A record put together from its parts has the planned names. */
  lemma NamesInOrder(first: seq<Step>, head: seq<Step>, middle: seq<Step>, tail: seq<Step>, peers: nat, noUpdate: bool, sync: bool)
    requires Names(first) == [Configuration]
    requires Names(head) == [Heal, Service] + if noUpdate then [] else [Build]
    requires Names(middle) == Times(if noUpdate then Heal else RemoteInstall, peers)
    requires Names(tail) == (if sync then [Sync] else []) + [Doctor] + if noUpdate then [] else [Update]
    ensures Names(first + head + middle + tail) == PlannedNames(peers, noUpdate, sync)
  {
    NamesAppend(first, head);
    NamesAppend(first + head, middle);
    NamesAppend(first + head + middle, tail);
    assert Names(first) + Names(head) == [Configuration, Heal, Service] + if noUpdate then [] else [Build];
  }

  /** The discipline of an updating run, read off its record: configuration, heal, service
      and build, then the remote installs, and local replacement as the last step. */
  ghost predicate Disciplined(steps: seq<Step>, installs: seq<Step>, peers: nat, sync: bool) {
    && |steps| == 4 + peers + (if sync then 1 else 0) + 2
    && |installs| == peers && installs == steps[4..4 + peers]
    && var built, replaced := steps[3].status, steps[|steps| - 1];
    // at most one peer install is attempted unsuccessfully, and none after it
    && (built.Ok? ==> exists stop :: StoppedAt(installs, stop))
    && (!built.Ok? ==> forall i :: 0 <= i < peers ==> installs[i].status.Skipped?)
    // local replacement comes last, and only if the build and every peer went well
    && replaced.name.Update?
    && (!replaced.status.Skipped? <==> built.Ok? && forall i :: 0 <= i < peers ==> installs[i].status.Ok?)
    // sync is skipped exactly when the rollout was stopped
    && (sync ==> (steps[4 + peers].status.Skipped? <==> exists i :: 0 <= i < peers && Unsuccessful(installs[i].status)))
  }

  /** Every record of an updating run keeps it. */
  lemma RecordIsDisciplined(peers: seq<string>, sync: bool, script: RunScript)
    ensures Disciplined(Record(peers, false, sync, script), PeerSteps(peers, false, script.build.Returned?, script.peer), |peers|, sync)
  {
    var built := script.build.Returned?;
    var steps, installs := Record(peers, false, sync, script), PeerSteps(peers, false, built, script.peer);
    var tail := TailSteps(false, built, built && Stopped(script.peer, |peers|), sync, script);
    var n := |installs|;
    assert steps[4..4 + n] == installs && steps[3] == Step(Build, "local", Unjudged(script.build));
    assert steps[|steps| - 1] == tail[|tail| - 1];
    if sync { assert steps[4 + n] == tail[0]; }
    if built {
      var stop := FirstStop(peers, script.peer);
      if stop < n { assert Unsuccessful(installs[stop].status); }
    }
  }

  /** One run under the automation lock. */
  method RunAutomation(script: RunScript, noUpdate: bool, dryRun: bool, sync: bool) returns (report: Report)
    ensures fresh(report) && Exits(report.steps, report.exitCode)
    // a held lock is all that is recorded
    ensures !dryRun && !script.lockFree ==> report.steps == [Step(LockTaken, "local", Failed)]
    // so is a configuration that cannot be read, but for the receipt
    ensures script.configuration.None? && (dryRun || script.lockFree) ==>
              report.steps == [Step(Configuration, "local", if script.configurationDegraded then Degraded else Failed)]
                              + if dryRun || script.receiptWritten then [] else [Step(ReceiptWrite, "local", Failed)]
    // once configuration succeeded, a real run records the dry run's steps, whatever fails
    ensures script.configuration.Some? && dryRun ==>
              report.steps == [Step(Configuration, "local", Ok)] + PlannedSteps(script.configuration.value, noUpdate, sync)
    ensures script.configuration.Some? && !dryRun && script.lockFree ==>
              report.steps == (if noUpdate || script.workDir then Record(script.configuration.value, noUpdate, sync, script)
                               else [Step(Configuration, "local", Ok)] + HeadSteps(true, script)) + Extra(script, noUpdate)
    ensures report.receiptKept <==> !dryRun && script.lockFree && script.receiptWritten
  {
    report := new Report();
    assert report.steps == [];
    if !dryRun && !script.lockFree {
      report.Add(LockTaken, "local", Failed);
      OneStep(Step(LockTaken, "local", Failed));
      report.Finish(false, false);
      return;
    }
    if script.configuration.None? {
      report.Add(Configuration, "local", if script.configurationDegraded then Degraded else Failed);
      OneStep(Step(Configuration, "local", if script.configurationDegraded then Degraded else Failed));
      report.Finish(!dryRun, script.receiptWritten);
      return;
    }
    report.Add(Configuration, "local", Ok);
    OneStep(Step(Configuration, "local", Ok));
    if dryRun {
      report.Plan(script.configuration.value, noUpdate, sync);
      report.Finish(false, false);
      return;
    }
    report.RealRun(script.configuration.value, noUpdate, sync, script);
  }
}
