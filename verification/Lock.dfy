/** The kernel-backed mutation lock (`adapters/lock_file.py`) and the bootstrap script that
    follows the same steps and then execs (`remote_install_script`): processes, open file
    descriptions and inodes, under every interleaving, timeout and crash. */
module Lock {
  import opened Base

  type Pid = nat
  type Ofd = nat  // an open file description; flock belongs to it, not to a process

  /** Where a process is in the protocol; the description its descriptor refers to. */
  datatype Phase =
    | Outside
    | Waiting(ofd: Ofd)
    | Holding(ofd: Ofd, wrote: bool)  // took the lock itself
    | Inherited(ofd: Ofd)             // child of a bootstrap that execed with the descriptor
  {
    predicate Refers(o: Ofd) { !Outside? && ofd == o }
    predicate Critical() { Holding? || Inherited? }
  }

  datatype State = State(
    path: Option<Inode>,         // what the lock path names
    next: nat,                   // above every inode and description in use
    inodeOf: map<Ofd, Inode>,
    locked: set<Ofd>,
    phase: map<Pid, Phase>,
    content: map<Inode, Pid>)    // whose pid a lock file shows

  datatype Event =
    | Open(p: Pid)       // open(O_CREAT): a file is made when the path names none
    | TryLock(p: Pid)    // flock(LOCK_EX | LOCK_NB) succeeds
    | Busy(p: Pid)       // flock would block; the caller sleeps and tries again
    | GiveUp(p: Pid)     // the deadline passed, or the file was refused
    | Write(p: Pid)      // truncate and write the pid
    | Leave(p: Pid)      // close on the way out, also after a failure
    | Fork(p: Pid, child: Pid)  // the execed script starts a child, which inherits the descriptor
    | Crash(p: Pid)      // the process dies at any point; the kernel closes what it had open
    | Unlink             // somebody removes the lock file: not a step of the protocol

  function PhaseOf(s: State, p: Pid): Phase {
    if p in s.phase then s.phase[p] else Outside
  }

  ghost predicate Referred(s: State, o: Ofd) {
    exists p :: PhaseOf(s, p).Refers(o)
  }

  /** flock's rule: one locked description per inode. */
  ghost predicate CanLock(s: State, o: Ofd)
    requires o in s.inodeOf
  {
    forall x :: x in s.locked && x in s.inodeOf ==> s.inodeOf[x] != s.inodeOf[o]
  }

  /** Closing a process's descriptor; the description, and with it a lock, goes only when no
      other process still refers to it. */
  ghost function Closed(s: State, p: Pid): State {
    var o := PhaseOf(s, p);
    var s1 := s.(phase := s.phase[p := Outside]);
    if o.Outside? || Referred(s1, o.ofd) then s1
    else s1.(inodeOf := s1.inodeOf - {o.ofd}, locked := s1.locked - {o.ofd})
  }

  /** One event, if it can happen. */
  ghost function Step(s: State, e: Event): Option<State> {
    match e
    case Open(p) =>
      if !PhaseOf(s, p).Outside? then None else
        var inode := if s.path.Some? then s.path.value else s.next;
        var o := s.next + 1;
        Some(s.(path := Some(inode), next := s.next + 2,
                inodeOf := s.inodeOf[o := inode], phase := s.phase[p := Waiting(o)]))
    case TryLock(p) =>
      var ph := PhaseOf(s, p);
      if ph.Waiting? && ph.ofd in s.inodeOf && CanLock(s, ph.ofd)
      then Some(s.(locked := s.locked + {ph.ofd}, phase := s.phase[p := Holding(ph.ofd, false)]))
      else None
    case Busy(p) =>
      var ph := PhaseOf(s, p);
      if ph.Waiting? && ph.ofd in s.inodeOf && !CanLock(s, ph.ofd) then Some(s) else None
    case GiveUp(p) =>
      if PhaseOf(s, p).Waiting? then Some(Closed(s, p)) else None
    case Write(p) =>
      var ph := PhaseOf(s, p);
      if ph.Holding? && ph.ofd in s.inodeOf
      then Some(s.(content := s.content[s.inodeOf[ph.ofd] := p], phase := s.phase[p := Holding(ph.ofd, true)]))
      else None
    case Leave(p) =>
      if PhaseOf(s, p).Critical() then Some(Closed(s, p)) else None
    case Fork(p, child) =>
      var ph := PhaseOf(s, p);
      if ph.Critical() && PhaseOf(s, child).Outside? && p != child
      then Some(s.(phase := s.phase[child := Inherited(ph.ofd)])) else None
    case Crash(p) =>
      Some(Closed(s, p))
    case Unlink =>
      Some(s.(path := None))
  }

  ghost function Run(s: State, events: seq<Event>): Option<State> {
    if events == [] then Some(s) else
      var before := Run(s, events[..|events| - 1]);
      if before.None? then None else Step(before.value, events[|events| - 1])
  }

  /** No process is anywhere in the protocol; a lock file may or may not exist already. */
  predicate Initial(s: State) {
    s.inodeOf == map[] && s.locked == {} && s.phase == map[] && (s.path.Some? ==> s.path.value < s.next)
  }

  // ----- what every run keeps ------------------------------------------------------------

  ghost predicate Inv(s: State) {
    // every open description is of the one file the path names
    && (forall o :: o in s.inodeOf ==> s.path == Some(s.inodeOf[o]) && o < s.next)
    && (s.path.Some? ==> s.path.value < s.next)
    // a process's descriptor is open; who is in the critical section refers to a locked one
    && (forall p :: !PhaseOf(s, p).Outside? ==> PhaseOf(s, p).ofd in s.inodeOf)
    && (forall p :: PhaseOf(s, p).Critical() ==> PhaseOf(s, p).ofd in s.locked)
    // a lock is kept by somebody in the critical section
    && (forall o :: o in s.locked ==> o in s.inodeOf && exists p :: PhaseOf(s, p).Critical() && PhaseOf(s, p).ofd == o)
    && (forall o, x :: o in s.locked && x in s.locked ==> o == x)
    // one opener per description; a waiting opener shares it with nobody
    && (forall p, q :: Opener(s, p) && Opener(s, q) && PhaseOf(s, p).ofd == PhaseOf(s, q).ofd ==> p == q)
    && (forall p, q :: PhaseOf(s, p).Waiting? && PhaseOf(s, q).Refers(PhaseOf(s, p).ofd) ==> p == q)
    // the holder's pid stays in the file once it wrote it
    && (forall p :: PhaseOf(s, p).Holding? && PhaseOf(s, p).wrote ==>
          s.path.Some? && s.path.value in s.content && s.content[s.path.value] == p)
  }

  ghost predicate Opener(s: State, p: Pid) {
    PhaseOf(s, p).Waiting? || PhaseOf(s, p).Holding?
  }

  /** Mutual exclusion: whoever is in the critical section entered it through one and the same
      acquisition, and at most one process acquired. */
  ghost predicate Exclusive(s: State) {
    && (forall p, q :: PhaseOf(s, p).Critical() && PhaseOf(s, q).Critical() ==> PhaseOf(s, p).ofd == PhaseOf(s, q).ofd)
    && (forall p, q :: PhaseOf(s, p).Holding? && PhaseOf(s, q).Holding? ==> p == q)
  }

  lemma ClosedKeepsInv(s: State, p: Pid)
    requires Inv(s)
    ensures Inv(Closed(s, p))
  {
    var s' := Closed(s, p);
    forall q ensures PhaseOf(s', q) == if q == p then Outside else PhaseOf(s, q) {}
    var ph := PhaseOf(s, p);
    forall o | o in s'.locked ensures exists q :: PhaseOf(s', q).Critical() && PhaseOf(s', q).ofd == o {
      var q :| PhaseOf(s, q).Critical() && PhaseOf(s, q).ofd == o;
      if q == p {
        var x :| PhaseOf(s', x).Refers(o);
        assert PhaseOf(s, x).Refers(o);
        assert !PhaseOf(s, x).Waiting?;
      } else {
        assert PhaseOf(s', q).Critical();
      }
    }
    var s1 := s.(phase := s.phase[p := Outside]);
    forall q | !PhaseOf(s', q).Outside?
      ensures PhaseOf(s', q).ofd in s'.inodeOf
      ensures PhaseOf(s', q).Critical() ==> PhaseOf(s', q).ofd in s'.locked
    {
      assert PhaseOf(s1, q) == PhaseOf(s, q) && PhaseOf(s1, q).Refers(PhaseOf(s, q).ofd);
    }
  }

  lemma StepKeepsInv(s: State, e: Event)
    requires Inv(s) && e != Unlink && Step(s, e).Some?
    ensures Inv(Step(s, e).value)
  {
    match e
    case Open(p) => OpenKeepsInv(s, p);
    case TryLock(p) => LockKeepsInv(s, p);
    case Busy(p) =>
    case GiveUp(p) => ClosedKeepsInv(s, p);
    case Write(p) => WriteKeepsInv(s, p);
    case Leave(p) => ClosedKeepsInv(s, p);
    case Fork(p, child) => ForkKeepsInv(s, p, child);
    case Crash(p) => ClosedKeepsInv(s, p);
  }

  lemma OpenKeepsInv(s: State, p: Pid)
    requires Inv(s) && Step(s, Open(p)).Some?
    ensures Inv(Step(s, Open(p)).value)
  {
    var s' := Step(s, Open(p)).value;
    forall q ensures PhaseOf(s', q) == if q == p then Waiting(s.next + 1) else PhaseOf(s, q) {}
    forall o | o in s'.locked ensures exists q :: PhaseOf(s', q).Critical() && PhaseOf(s', q).ofd == o {
      var q :| PhaseOf(s, q).Critical() && PhaseOf(s, q).ofd == o;
      assert PhaseOf(s', q).Critical();
    }
  }

  lemma LockKeepsInv(s: State, p: Pid)
    requires Inv(s) && Step(s, TryLock(p)).Some?
    ensures Inv(Step(s, TryLock(p)).value)
  {
    var s' := Step(s, TryLock(p)).value;
    var o := PhaseOf(s, p).ofd;
    forall q ensures PhaseOf(s', q) == if q == p then Holding(o, false) else PhaseOf(s, q) {}
    assert s.locked == {};
    assert PhaseOf(s', p).Critical() && PhaseOf(s', p).ofd == o;
  }

  lemma WriteKeepsInv(s: State, p: Pid)
    requires Inv(s) && Step(s, Write(p)).Some?
    ensures Inv(Step(s, Write(p)).value)
  {
    var s' := Step(s, Write(p)).value;
    var o := PhaseOf(s, p).ofd;
    forall q ensures PhaseOf(s', q) == if q == p then Holding(o, true) else PhaseOf(s, q) {}
    forall x | x in s'.locked ensures exists q :: PhaseOf(s', q).Critical() && PhaseOf(s', q).ofd == x {
      var q :| PhaseOf(s, q).Critical() && PhaseOf(s, q).ofd == x;
      assert PhaseOf(s', q).Critical();
    }
    forall q | PhaseOf(s', q).Holding? ensures q == p {
      assert PhaseOf(s, q).ofd in s.locked && o in s.locked;
    }
  }

  lemma ForkKeepsInv(s: State, p: Pid, child: Pid)
    requires Inv(s) && Step(s, Fork(p, child)).Some?
    ensures Inv(Step(s, Fork(p, child)).value)
  {
    var s' := Step(s, Fork(p, child)).value;
    var o := PhaseOf(s, p).ofd;
    forall q ensures PhaseOf(s', q) == if q == child then Inherited(o) else PhaseOf(s, q) {}
    forall x | x in s'.locked ensures exists q :: PhaseOf(s', q).Critical() && PhaseOf(s', q).ofd == x {
      var q :| PhaseOf(s, q).Critical() && PhaseOf(s, q).ofd == x;
      assert PhaseOf(s', q).Critical();
    }
    forall q | PhaseOf(s', q).Waiting? ensures PhaseOf(s', q).ofd != o {
      assert PhaseOf(s, p).Refers(o);
    }
  }

  /** Over every run of the protocol, from any start with or without a lock file: at most one
      acquisition is in the critical section, and a pid in the file is the holder's. */
  lemma {:induction false} EveryRunIsExclusive(s: State, events: seq<Event>)
    requires Initial(s) && Unlink !in events && Run(s, events).Some?
    ensures Inv(Run(s, events).value) && Exclusive(Run(s, events).value)
  {
    if events != [] {
      var n := |events| - 1;
      EveryRunIsExclusive(s, events[..n]);
      StepKeepsInv(Run(s, events[..n]).value, events[n]);
      assert events[n] in events;
    }
  }

  /** A dead holder blocks nobody: after any run, if no process is in the critical section,
      every waiting process gets the lock at its next try. */
  lemma NobodyInsideMeansFree(s: State, events: seq<Event>, p: Pid)
    requires Initial(s) && Unlink !in events && Run(s, events).Some?
    requires var t := Run(s, events).value; PhaseOf(t, p).Waiting? && forall q :: !PhaseOf(t, q).Critical()
    ensures Step(Run(s, events).value, TryLock(p)).Some?
    ensures PhaseOf(Step(Run(s, events).value, TryLock(p)).value, p).Holding?
  {
    EveryRunIsExclusive(s, events);
    var t := Run(s, events).value;
    assert t.locked == {};
  }

  /** And while any process is inside, even only a child the bootstrap left behind, no other
      process can acquire. */
  lemma SomebodyInsideMeansTaken(s: State, events: seq<Event>, p: Pid, q: Pid)
    requires Initial(s) && Unlink !in events && Run(s, events).Some?
    requires PhaseOf(Run(s, events).value, q).Critical()
    ensures Step(Run(s, events).value, TryLock(p)).None?
  {
    EveryRunIsExclusive(s, events);
    var t := Run(s, events).value;
    var o := PhaseOf(t, q).ofd;
    assert o in t.locked && o in t.inodeOf;
  }

  /** The process of the last write in a run. */
  ghost function LastWriter(events: seq<Event>): Option<Pid> {
    if events == [] then None else
      var last := events[|events| - 1];
      if last.Write? then Some(last.p) else LastWriter(events[..|events| - 1])
  }

  /** After any run lock files show what they showed before, except that the one the path names
      shows the pid of the last writer; a holder that wrote is that one. */
  ghost predicate Shows(s: State, events: seq<Event>, t: State) {
    var w := LastWriter(events);
    && (w.None? ==> t.content == s.content)
    && (w.Some? ==> t.path.Some? && t.content == s.content[t.path.value := w.value])
    && (forall p: Pid :: PhaseOf(t, p).Holding? && PhaseOf(t, p).wrote ==> w == Some(p))
  }

  lemma {:induction false} FileShowsTheLastWriter(s: State, events: seq<Event>)
    requires Initial(s) && Unlink !in events && Run(s, events).Some?
    ensures Shows(s, events, Run(s, events).value)
  {
    if events != [] {
      var n := |events| - 1;
      FileShowsTheLastWriter(s, events[..n]);
      EveryRunIsExclusive(s, events[..n]);
      assert events[n] in events;
      var t, t' := Run(s, events[..n]).value, Run(s, events).value;
      if events[n].Write? {
        WriteShows(s, events[..n], t, events[n].p, t');
      } else {
        OthersShowTheSame(t, events[n], t');
      }
    }
  }

  lemma WriteShows(s: State, before: seq<Event>, t: State, p: Pid, t': State)
    requires Inv(t) && Exclusive(t) && Shows(s, before, t) && Step(t, Write(p)) == Some(t')
    ensures t'.path.Some? && t'.content == s.content[t'.path.value := p]
    ensures forall q :: PhaseOf(t', q).Holding? ==> q == p
  {
    var o := PhaseOf(t, p).ofd;
    assert t.path == Some(t.inodeOf[o]);
    forall q | PhaseOf(t', q).Holding? ensures q == p { assert q != p ==> PhaseOf(t, q).Holding?; }
  }

  lemma OthersShowTheSame(t: State, e: Event, t': State)
    requires Inv(t) && Step(t, e) == Some(t') && !e.Write? && !e.Unlink?
    ensures t'.content == t.content && (t.path.Some? ==> t'.path == t.path)
    ensures forall q :: PhaseOf(t', q).Holding? && PhaseOf(t', q).wrote ==> PhaseOf(t, q) == PhaseOf(t', q)
  {}

  /** Why the file is never unlinked: one removal, and two processes hold the lock. */
  lemma UnlinkBreaksExclusion() returns (s: State, events: seq<Event>, t: State)
    ensures Initial(s) && events == [Open(0), TryLock(0), Unlink, Open(1), TryLock(1)]
    ensures Run(s, events) == Some(t) && PhaseOf(t, 0).Holding? && PhaseOf(t, 1).Holding?
  {
    s := State(None, 0, map[], {}, map[], map[]);
    var s1 := Step(s, Open(0)).value;
    assert PhaseOf(s1, 0) == Waiting(1) && CanLock(s1, 1);
    var s2 := Step(s1, TryLock(0)).value;
    var s3 := Step(s2, Unlink).value;
    var s4 := Step(s3, Open(1)).value;
    assert PhaseOf(s4, 1) == Waiting(3) && s4.inodeOf == map[1 := 0, 3 := 2] && s4.locked == {1};
    assert CanLock(s4, 3);
    var s5 := Step(s4, TryLock(1)).value;
    var e1, e2, e3, e4 := [Open(0)], [Open(0), TryLock(0)], [Open(0), TryLock(0), Unlink], [Open(0), TryLock(0), Unlink, Open(1)];
    var e5 := [Open(0), TryLock(0), Unlink, Open(1), TryLock(1)];
    assert e1[..0] == [] && e2[..1] == e1 && e3[..2] == e2 && e4[..3] == e3 && e5[..4] == e4;
    assert Run(s, e1) == Some(s1);
    assert Run(s, e2) == Some(s2);
    assert Run(s, e3) == Some(s3);
    assert Run(s, e4) == Some(s4);
    assert Run(s, e5) == Some(s5);
    events, t := e5, s5;
  }
}
