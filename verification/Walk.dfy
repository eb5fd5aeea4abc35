/** The local inventory walk (`sync_inventory.inventory_local`, safe mode): an explicit stack
    of directories, a killable lister and a time budget, and a `partial` flag that must never
    call a truncated walk complete. */
module Walk {
  import opened Base
  import opened Planning
  import opened Paths

  /** A path below the sync root, name by name. */
  type Names = seq<string>

  datatype Kind = Regular | Symlink | Special

  datatype Node =
    | File(kind: Kind, dataless: bool, meta: FileMeta)
    | Dir(entries: seq<Entry>)

  datatype Entry = Entry(name: string, node: Node)

  /** How one listing ends: the rows, or no rows and a reason. */
  datatype Reply = Listed | Unreadable | TimedOut | WorkerFailed

  predicate Hung(r: Reply) { r.TimedOut? || r.WorkerFailed? }

  /** What the walk is given: name and exclude rules, and how each directory will answer. */
  datatype Rules = Rules(skipNames: set<string>, excluded: Rel -> bool, reply: Names -> Reply)

  /** A directory to walk, known by its path. */
  datatype Job = Job(at: Names, entries: seq<Entry>)

  function Slashed(s: string): string {
    seq(|s|, i requires 0 <= i < |s| => if s[i] == '\\' then '/' else s[i])
  }

  /** The text a path is recorded under: its names joined, every backslash made a slash. */
  function RelText(path: Names): Rel {
    if path == [] then [] else Slashed(Join(path, '/'))
  }

  predicate SkippedName(c: Rules, name: string) {
    name in c.skipNames || name == ".DS_Store"
  }

  predicate HiddenDir(name: string) {
    name != "" && name[0] == '.' && name != ".ssh" && name != ".config"
  }

  /** The walk goes into a directory unless its name or an exclude pattern says not to. */
  predicate Entered(c: Rules, path: Names, name: string) {
    !SkippedName(c, name) && !HiddenDir(name) && !c.excluded(RelText(path)) && !c.excluded(RelText(path) + "/")
  }

  /** Of what it is offered, the walk records regular files and symlinks whose data is present. */
  predicate Recorded(c: Rules, path: Names, f: Node) {
    f.File? && !c.excluded(RelText(path)) && !f.kind.Special? && !f.dataless
  }

  // ----- what a walk should find ------------------------------------------------------

  /** The eligible files: those recorded in a directory reached through entered directories,
      none of which answered "unreadable". */
  ghost function Files(entries: seq<Entry>, at: Names, c: Rules): set<(Names, FileMeta)>
    decreases entries, 1
  {
    if entries == [] then {} else FilesOf(entries[0], at, c) + Files(entries[1..], at, c)
  }

  ghost function FilesOf(e: Entry, at: Names, c: Rules): set<(Names, FileMeta)>
    decreases e, 0
  {
    var path := at + [e.name];
    match e.node
    case File(kind, dataless, meta) =>
      if !SkippedName(c, e.name) && Recorded(c, path, e.node) then {(path, meta)} else {}
    case Dir(sub) => if Entered(c, path, e.name) && !c.reply(path).Unreadable? then Files(sub, path, c) else {}
  }

  ghost function FilesOfJob(j: Job, c: Rules): set<(Names, FileMeta)> {
    if c.reply(j.at).Unreadable? then {} else Files(j.entries, j.at, c)
  }

  ghost function FilesOfJobs(jobs: seq<Job>, c: Rules): set<(Names, FileMeta)> {
    if jobs == [] then {} else
      FilesOfJobs(jobs[..|jobs| - 1], c) + FilesOfJob(jobs[|jobs| - 1], c)
  }

  /** One meta record per path. */
  ghost predicate Functional(found: set<(Names, FileMeta)>) {
    forall x, y :: x in found && y in found && x.0 == y.0 ==> x == y
  }

  // ----- what a walk comes by ----------------------------------------------------------

  /** A file that is offered for recording, or a directory that is asked for its rows. */
  datatype Item = FileItem(path: Names, node: Node) | DirItem(path: Names)

  /** Everything a walk without a budget comes by: it sees into the directories that answer. */
  ghost function Items(entries: seq<Entry>, at: Names, c: Rules): set<Item>
    decreases entries, 1
  {
    if entries == [] then {} else ItemsOf(entries[0], at, c) + Items(entries[1..], at, c)
  }

  ghost function ItemsOf(e: Entry, at: Names, c: Rules): set<Item>
    decreases e, 0
  {
    var path := at + [e.name];
    match e.node
    case File(_, _, _) => if SkippedName(c, e.name) then {} else {FileItem(path, e.node)}
    case Dir(sub) =>
      if !Entered(c, path, e.name) then {}
      else {DirItem(path)} + if c.reply(path).Listed? then Items(sub, path, c) else {}
  }

  ghost function ItemsOfJob(j: Job, c: Rules): set<Item> {
    {DirItem(j.at)} + if c.reply(j.at).Listed? then Items(j.entries, j.at, c) else {}
  }

  ghost function ItemsOfJobs(jobs: seq<Job>, c: Rules): set<Item> {
    if jobs == [] then {} else
      ItemsOfJobs(jobs[..|jobs| - 1], c) + ItemsOfJob(jobs[|jobs| - 1], c)
  }

  ghost predicate SomeHung(items: set<Item>, c: Rules) {
    exists x :: x in items && x.DirItem? && Hung(c.reply(x.path))
  }

  /** Every offered path can be put on one line of a manifest. */
  ghost predicate AllValid(items: set<Item>) {
    forall x :: x in items && x.FileItem? ==> ValidRelpath(RelText(x.path))
  }

  /** What the offered files would leave in an inventory. */
  ghost function Recording(items: set<Item>, c: Rules): set<(Names, FileMeta)> {
    set x | x in items && x.FileItem? && Recorded(c, x.path, x.node) :: (x.path, x.node.meta)
  }

  // ----- termination -----------------------------------------------------------------------

  /** How many nodes hang below a list of entries. */
  ghost function Weight(entries: seq<Entry>): nat
    decreases entries, 1
  {
    if entries == [] then 0 else EntryWeight(entries[0]) + Weight(entries[1..])
  }

  ghost function EntryWeight(e: Entry): nat
    decreases e, 0
  {
    1 + if e.node.Dir? then Weight(e.node.entries) else 0
  }

  ghost function StackWeight(stack: seq<Job>): nat {
    if stack == [] then 0 else
      StackWeight(stack[..|stack| - 1]) + 1 + Weight(stack[|stack| - 1].entries)
  }

  // ----- the walk --------------------------------------------------------------------------

  class InventoryWalk {
    var out: map<Rel, FileMeta>
    var hungDirs: nat
    var skipped: seq<Names>
    var ticks: nat           // clock readings so far
    var maxSec: int
    const clock: nat -> int  // what successive clock readings show
    const c: Rules

    constructor (c: Rules, clock: nat -> int, maxSec: int)
      ensures out == map[] && hungDirs == 0 && skipped == [] && ticks == 1
      ensures this.c == c && this.clock == clock && this.maxSec == maxSec
    {
      this.c, this.clock, this.maxSec := c, clock, maxSec;
      out, hungDirs, skipped, ticks := map[], 0, [], 1;
    }

    ghost predicate Monotone() {
      forall i: nat, j: nat :: i <= j ==> clock(i) <= clock(j)
    }

    /** Some reading so far was over budget. */
    ghost predicate OverBudget()
      reads this
    {
      exists i: nat :: i < ticks && Late(i)
    }

    ghost predicate Late(i: nat)
      reads this`maxSec
    {
      clock(i) - clock(0) > maxSec
    }

    method BudgetOk() returns (ok: bool)
      modifies this`ticks
      ensures ticks == old(ticks) + 1
      ensures ok <==> !Late(old(ticks))
      ensures Monotone() ==> (ok <==> !OverBudget())
      ensures !ok ==> OverBudget()
    {
      ok := clock(ticks) - clock(0) <= maxSec;
      ticks := ticks + 1;
      assert !ok ==> Late(ticks - 1);
    }

    /** What the walk did with one item: a file is recorded if it should be, under a text that
        stays on its line; a directory that hung was counted. */
    ghost predicate Handled(x: Item)
      reads this
    {
      match x
      case FileItem(path, f) => ValidRelpath(RelText(path)) && (Recorded(c, path, f) ==> RelText(path) in out)
      case DirItem(path) => Hung(c.reply(path)) ==> hungDirs > 0
    }

    /** An item that accounts for one record. */
    ghost predicate Backs(x: Item, r: Rel, meta: FileMeta) {
      x.FileItem? && Recorded(c, x.path, x.node) && RelText(x.path) == r && x.node.meta == meta && ValidRelpath(r)
    }

    /** Sound so far: every record is an offered file's, and a hung directory is behind every
        count. */
    ghost predicate SoundIn(all: set<Item>)
      reads this
    {
      && (forall r :: r in out ==> exists x :: x in all && Backs(x, r, out[r]))
      && (hungDirs > 0 ==> SomeHung(all, c)) && |skipped| <= 50
    }

    /** Nothing lost so far, unless the budget ran out. */
    ghost predicate Keeps(wanted: set<Item>, pending: set<Item>)
      reads this
    {
      OverBudget() || forall x :: x in wanted && x !in pending ==> Handled(x)
    }

    /** `_emit_path`: a path that would corrupt a line-based manifest aborts the walk. */
    method EmitPath(path: Names, f: Node) returns (raised: bool)
      requires f.File? && path != []
      modifies this`out
      ensures raised <==> !ValidRelpath(RelText(path))
      ensures out == if !raised && Recorded(c, path, f) then old(out)[RelText(path) := f.meta] else old(out)
    {
      var rel := RelText(path);
      if !ValidRelpath(rel) {
        return true;
      }
      raised := false;
      if c.excluded(rel) {
        return;
      }
      if !(f.kind.Regular? || f.kind.Symlink?) {
        return;
      }
      if f.dataless {
        return;
      }
      out := out[rel := f.meta];
    }

    /** What a walk may change of what came before: records are added or renewed, counts and
        readings grow. */
    twostate predicate Grows()
      reads this
    {
      && maxSec == old(maxSec) && ticks >= old(ticks) && hungDirs >= old(hungDirs)
      && forall r :: r in old(out) ==> r in out
    }

    /** `_safe_walk` from one directory. */
    method SafeWalk(start: Job, ghost all: set<Item>) returns (raised: bool)
      requires Monotone() && ItemsOfJob(start, c) <= all && SoundIn(all)
      modifies this
      ensures Grows() && SoundIn(all)
      ensures raised ==> !AllValid(all)
      ensures !raised ==> Keeps(ItemsOfJob(start, c), {})
    {
      var stack := [start];
      raised := false;
      PendingOne(start, c);
      while stack != []
        invariant Grows() && SoundIn(all) && ItemsOfJobs(stack, c) <= all
        invariant Keeps(ItemsOfJob(start, c), ItemsOfJobs(stack, c))
        decreases StackWeight(stack)
      {
        var ok := BudgetOk();
        if !ok {
          break;
        }
        var cur := stack[|stack| - 1];
        stack := stack[..|stack| - 1];
        var answer := c.reply(cur.at);
        if answer.Listed? {
          stack, raised := WalkEntries(cur, stack, start, all);
          if raised {
            return;
          }
        } else {
          assert DirItem(cur.at) in all;
          RecordSkip(cur.at, answer);
        }
      }
    }

    /** `_record_skip`: only a killed or failed listing counts as hung. */
    method RecordSkip(at: Names, answer: Reply)
      modifies this`hungDirs, this`skipped
      ensures hungDirs == old(hungDirs) + if Hung(answer) then 1 else 0
      ensures skipped == if |old(skipped)| < 50 then old(skipped) + [at] else old(skipped)
    {
      if answer.TimedOut? || answer.WorkerFailed? {
        hungDirs := hungDirs + 1;
      }
      if |skipped| < 50 {
        skipped := skipped + [at];
      }
    }

    /** The rows of one listing, with the budget checked before each. */
    method WalkEntries(cur: Job, rest: seq<Job>, ghost start: Job, ghost all: set<Item>)
      returns (stack: seq<Job>, raised: bool)
      requires Monotone() && SoundIn(all) && c.reply(cur.at).Listed?
      requires ItemsOfJobs(rest, c) <= all && Items(cur.entries, cur.at, c) <= all
      requires Keeps(ItemsOfJob(start, c), ItemsOfJobs(rest, c) + ({DirItem(cur.at)} + Items(cur.entries, cur.at, c)))
      modifies this
      ensures Grows() && SoundIn(all) && ItemsOfJobs(stack, c) <= all
      ensures raised ==> !AllValid(all)
      ensures !raised ==> Keeps(ItemsOfJob(start, c), ItemsOfJobs(stack, c))
      ensures StackWeight(stack) <= StackWeight(rest) + Weight(cur.entries)
    {
      stack, raised := rest, false;
      assert cur.entries[0..] == cur.entries;
      assert Handled(DirItem(cur.at));
      for i := 0 to |cur.entries|
        invariant Grows() && SoundIn(all)
        invariant ItemsOfJobs(stack, c) <= all && Items(cur.entries[i..], cur.at, c) <= all
        invariant Keeps(ItemsOfJob(start, c), ItemsOfJobs(stack, c) + Items(cur.entries[i..], cur.at, c))
        invariant StackWeight(stack) + Weight(cur.entries[i..]) <= StackWeight(rest) + Weight(cur.entries)
      {
        NextEntry(cur, i, c);
        var ok := BudgetOk();
        if !ok {
          return;
        }
        assert (cur.at + [cur.entries[i].name])[..|cur.at|] == cur.at;
        stack, raised := WalkRow(cur.entries[i], cur.at + [cur.entries[i].name], stack, all);
        if raised {
          return;
        }
      }
    }

    /** One row: a directory goes on the stack, a file is offered. */
    method WalkRow(e: Entry, path: Names, rest: seq<Job>, ghost all: set<Item>) returns (stack: seq<Job>, raised: bool)
      requires path != [] && path[|path| - 1] == e.name && SoundIn(all)
      requires ItemsOfJobs(rest, c) <= all && ItemsOf(e, path[..|path| - 1], c) <= all
      modifies this`out
      ensures SoundIn(all) && (forall r :: r in old(out) ==> r in out)
      ensures ItemsOfJobs(rest, c) <= ItemsOfJobs(stack, c) <= all
      ensures raised ==> !AllValid(all)
      ensures !raised ==> forall x :: x in ItemsOf(e, path[..|path| - 1], c) && x !in ItemsOfJobs(stack, c) ==> Handled(x)
      ensures StackWeight(stack) <= StackWeight(rest) + EntryWeight(e)
    {
      stack, raised := rest, false;
      RowItems(e, path, c);
      if SkippedName(c, e.name) {
        return;
      }
      if e.node.Dir? {
        if !HiddenDir(e.name) && !c.excluded(RelText(path)) && !c.excluded(RelText(path) + "/") {
          PushedJob(stack, Job(path, e.node.entries), c);
          stack := stack + [Job(path, e.node.entries)];
        }
      } else {
        raised := Offer(path, e.node, all);
      }
    }

    /** One file row. */
    method Offer(path: Names, f: Node, ghost all: set<Item>) returns (raised: bool)
      requires f.File? && path != [] && FileItem(path, f) in all && SoundIn(all)
      modifies this`out
      ensures SoundIn(all) && forall r :: r in old(out) ==> r in out
      ensures raised ==> !AllValid(all)
      ensures !raised ==> Handled(FileItem(path, f))
    {
      raised := EmitPath(path, f);
      if !raised && Recorded(c, path, f) {
        assert Backs(FileItem(path, f), RelText(path), f.meta);
      }
    }
  }

  lemma NextEntry(cur: Job, i: nat, c: Rules)
    requires i < |cur.entries|
    ensures Items(cur.entries[i..], cur.at, c) == ItemsOf(cur.entries[i], cur.at, c) + Items(cur.entries[i + 1..], cur.at, c)
    ensures Weight(cur.entries[i..]) == EntryWeight(cur.entries[i]) + Weight(cur.entries[i + 1..])
  {
    assert cur.entries[i..][1..] == cur.entries[i + 1..];
  }

  lemma RowItems(e: Entry, path: Names, c: Rules)
    requires path != [] && path[|path| - 1] == e.name
    ensures ItemsOf(e, path[..|path| - 1], c)
         == if e.node.File? then (if SkippedName(c, e.name) then {} else {FileItem(path, e.node)})
            else if Entered(c, path, e.name) then ItemsOfJob(Job(path, e.node.entries), c) else {}
  {
    assert path[..|path| - 1] + [e.name] == path;
  }

  lemma PushedJob(stack: seq<Job>, j: Job, c: Rules)
    ensures ItemsOfJobs(stack + [j], c) == ItemsOfJobs(stack, c) + ItemsOfJob(j, c)
    ensures StackWeight(stack + [j]) == StackWeight(stack) + 1 + Weight(j.entries)
  {
    assert (stack + [j])[..|stack|] == stack;
  }

  lemma PendingOne(start: Job, c: Rules)
    ensures ItemsOfJobs([start], c) == ItemsOfJob(start, c) && FilesOfJobs([start], c) == FilesOfJob(start, c)
  {
    assert [start][..0] == [];
  }

  /** What the walk returns: the files, and whether and why its coverage was cut short. */
  datatype Inventory = Inventory(files: map<Rel, FileMeta>, partial: bool, hungDirs: nat, budgetHit: bool, skipped: seq<Names>)

  /** The whole walk over its start directories, told by what it comes by. Every record is an eligible file's; it is
      marked partial exactly when one of its clock readings was over budget or a directory it
      comes by hung; and when it is not, every eligible file left a record under its text. */
  method WalkJobs(c: Rules, jobs: seq<Job>, clock: nat -> int, maxSec: int)
    returns (raised: bool, inv: Inventory, ghost readings: nat)
    requires forall i: nat, j: nat :: i <= j ==> clock(i) <= clock(j)
    ensures forall r :: r in inv.files ==> ValidRelpath(r) && Recorded1(r, inv.files[r], FilesOfJobs(jobs, c))
    ensures !raised ==> readings >= 2 && (inv.budgetHit <==> exists i: nat :: i < readings && clock(i) - clock(0) > maxSec)
    ensures !raised ==> (inv.partial <==> inv.hungDirs > 0 || inv.budgetHit)
    ensures !raised ==> (inv.partial <==> inv.budgetHit || SomeHung(ItemsOfJobs(jobs, c), c))
    ensures inv.hungDirs > 0 ==> SomeHung(ItemsOfJobs(jobs, c), c)
    ensures !raised && !inv.partial ==> forall x :: x in FilesOfJobs(jobs, c) ==> RelText(x.0) in inv.files
    // the walk aborts at a path that cannot be put on one line
    ensures raised ==> !AllValid(ItemsOfJobs(jobs, c))
    ensures !raised && !inv.budgetHit ==> AllValid(ItemsOfJobs(jobs, c))
    ensures |inv.skipped| <= 50
  {
    var w := new InventoryWalk(c, clock, maxSec);
    ghost var all := ItemsOfJobs(jobs, c);
    var budgetHit := false;
    raised := false;
    assert jobs[..0] == [];
    for i := 0 to |jobs|
      invariant w.c == c && w.clock == clock && w.maxSec == maxSec && w.SoundIn(all) && w.ticks >= 1
      invariant w.Keeps(ItemsOfJobs(jobs[..i], c), {})
      invariant fresh(w) && !raised
      invariant budgetHit ==> w.OverBudget()
    {
      var ok := w.BudgetOk();
      if !ok {
        budgetHit := true;
        break;
      }
      JobAt(jobs, i, c);
      raised := w.SafeWalk(jobs[i], all);
      if raised {
        RecordsAreEligible(w, jobs, all);
        return raised, Inventory(w.out, false, w.hungDirs, false, w.skipped), w.ticks;
      }
    }
    assert jobs[..|jobs|] == jobs;
    var ok := w.BudgetOk();
    if !ok {
      budgetHit := true;
    }
    inv := Inventory(w.out, budgetHit || w.hungDirs > 0, w.hungDirs, budgetHit, w.skipped);
    readings := w.ticks;
    RecordsAreEligible(w, jobs, all);
    if budgetHit {
      ghost var i: nat :| i < w.ticks && w.Late(i);
      assert clock(i) - clock(0) > maxSec;
    } else {
      assert forall i: nat :: i < w.ticks ==> !w.Late(i);
      AllHandled(w, jobs, all);
    }
  }

  /** The walk as the source promises it: what it covers is told path by path. */
  method InventoryLocal(c: Rules, jobs: seq<Job>, clock: nat -> int, maxSec: int)
    returns (raised: bool, inv: Inventory, ghost readings: nat)
    requires forall i: nat, j: nat :: i <= j ==> clock(i) <= clock(j)
    ensures forall r :: r in inv.files ==> ValidRelpath(r) && Recorded1(r, inv.files[r], FilesOfJobs(jobs, c))
    ensures !raised ==> readings >= 2 && (inv.budgetHit <==> exists i: nat :: i < readings && clock(i) - clock(0) > maxSec)
    ensures !raised ==> (inv.partial <==> inv.hungDirs > 0 || inv.budgetHit)
    ensures !raised ==> (inv.partial <==> inv.budgetHit || SomeHung(ItemsOfJobs(jobs, c), c))
    ensures !raised && !inv.partial ==> forall x :: x in FilesOfJobs(jobs, c) ==> RelText(x.0) in inv.files
    ensures raised ==> !AllValid(ItemsOfJobs(jobs, c))
    ensures !raised && !inv.budgetHit ==> AllValid(ItemsOfJobs(jobs, c))
    ensures Covers(c, jobs, inv, raised) && |inv.skipped| <= 50
  {
    raised, inv, readings := WalkJobs(c, jobs, clock, maxSec);
    CoversPaths(c, jobs, inv, raised);
  }

  /** An eligible file accounts for a record. */
  ghost predicate Recorded1(r: Rel, meta: FileMeta, eligible: set<(Names, FileMeta)>) {
    exists x :: x in eligible && RelText(x.0) == r && x.1 == meta
  }

  lemma RecordsAreEligible(w: InventoryWalk, jobs: seq<Job>, all: set<Item>)
    requires all == ItemsOfJobs(jobs, w.c) && w.SoundIn(all)
    ensures forall r :: r in w.out ==> ValidRelpath(r) && Recorded1(r, w.out[r], FilesOfJobs(jobs, w.c))
  {
    JobsRecording(jobs, w.c);
    forall r | r in w.out ensures ValidRelpath(r) && Recorded1(r, w.out[r], FilesOfJobs(jobs, w.c)) {
      var x :| x in all && w.Backs(x, r, w.out[r]);
      assert (x.path, x.node.meta) in Recording(all, w.c);
      var y := (x.path, x.node.meta);
      assert RelText(y.0) == r && y.1 == w.out[r];
    }
  }

  /** Within the budget everything the walk came by was handled. */
  lemma AllHandled(w: InventoryWalk, jobs: seq<Job>, all: set<Item>)
    requires all == ItemsOfJobs(jobs, w.c) && w.Keeps(all, {}) && !w.OverBudget()
    ensures AllValid(all)
    ensures w.hungDirs == 0 ==> !SomeHung(all, w.c)
    ensures w.hungDirs == 0 ==> forall x :: x in FilesOfJobs(jobs, w.c) ==> RelText(x.0) in w.out
  {
    JobsRecording(jobs, w.c);
    forall x | x in all && x.FileItem? ensures ValidRelpath(RelText(x.path)) { assert w.Handled(x); }
    forall x | x in all && x.DirItem? ensures Hung(w.c.reply(x.path)) ==> w.hungDirs > 0 { assert w.Handled(x); }
    if w.hungDirs == 0 {
      forall y | y in FilesOfJobs(jobs, w.c) ensures RelText(y.0) in w.out {
        assert y in Recording(all, w.c);
        var x :| x in all && x.FileItem? && Recorded(w.c, x.path, x.node) && y == (x.path, x.node.meta);
        assert w.Handled(x);
      }
    }
  }

  lemma JobAt(jobs: seq<Job>, i: nat, c: Rules)
    requires i < |jobs|
    ensures ItemsOfJobs(jobs[..i + 1], c) == ItemsOfJobs(jobs[..i], c) + ItemsOfJob(jobs[i], c)
    ensures ItemsOfJob(jobs[i], c) <= ItemsOfJobs(jobs, c)
  {
    assert jobs[..i + 1][..i] == jobs[..i];
    JobsGrow(jobs, i + 1, c);
  }

  lemma {:induction false} JobsGrow(jobs: seq<Job>, n: nat, c: Rules)
    requires n <= |jobs|
    ensures ItemsOfJobs(jobs[..n], c) <= ItemsOfJobs(jobs, c)
  {
    if n == |jobs| {
      assert jobs[..n] == jobs;
    } else {
      var m := |jobs| - 1;
      JobsGrow(jobs[..m], n, c);
      assert jobs[..m][..n] == jobs[..n];
    }
  }

  // ----- items and eligible files ------------------------------------------------------------

  lemma RecordingOfUnion(a: set<Item>, b: set<Item>, c: Rules)
    ensures Recording(a + b, c) == Recording(a, c) + Recording(b, c)
  {}

  lemma RecordingOfDir(path: Names, c: Rules)
    ensures Recording({DirItem(path)}, c) == {}
  {}

  /** The offered files that are recorded are eligible, and when no directory hung they are all
      of them. */
  lemma {:induction false} EntriesRecording(entries: seq<Entry>, at: Names, c: Rules)
    ensures Recording(Items(entries, at, c), c) <= Files(entries, at, c)
    ensures !SomeHung(Items(entries, at, c), c) ==> Recording(Items(entries, at, c), c) == Files(entries, at, c)
    decreases entries, 1
  {
    if entries != [] {
      var first, rest := ItemsOf(entries[0], at, c), Items(entries[1..], at, c);
      EntryRecording(entries[0], at, c);
      EntriesRecording(entries[1..], at, c);
      RecordingOfUnion(first, rest, c);
      HungInUnion(first, rest, c);
    }
  }

  lemma HungInUnion(a: set<Item>, b: set<Item>, c: Rules)
    ensures SomeHung(a + b, c) <==> SomeHung(a, c) || SomeHung(b, c)
  {
    if x :| x in a && x.DirItem? && Hung(c.reply(x.path)) { assert x in a + b; }
    if x :| x in b && x.DirItem? && Hung(c.reply(x.path)) { assert x in a + b; }
  }

  lemma {:induction false} EntryRecording(e: Entry, at: Names, c: Rules)
    ensures Recording(ItemsOf(e, at, c), c) <= FilesOf(e, at, c)
    ensures !SomeHung(ItemsOf(e, at, c), c) ==> Recording(ItemsOf(e, at, c), c) == FilesOf(e, at, c)
    decreases e, 0
  {
    var path := at + [e.name];
    match e.node
    case File(_, _, _) =>
      if !SkippedName(c, e.name) {
        RecordingOfFile(path, e.node, c);
      }
    case Dir(sub) =>
      if Entered(c, path, e.name) {
        EntriesRecording(sub, path, c);
        DirRecording(path, sub, c);
      }
  }

  lemma RecordingOfFile(path: Names, f: Node, c: Rules)
    requires f.File?
    ensures Recording({FileItem(path, f)}, c) == if Recorded(c, path, f) then {(path, f.meta)} else {}
  {}

  lemma DirRecording(path: Names, sub: seq<Entry>, c: Rules)
    requires Recording(Items(sub, path, c), c) <= Files(sub, path, c)
    requires !SomeHung(Items(sub, path, c), c) ==> Recording(Items(sub, path, c), c) == Files(sub, path, c)
    ensures var j := Job(path, sub);
            && Recording(ItemsOfJob(j, c), c) <= FilesOfJob(j, c)
            && (!SomeHung(ItemsOfJob(j, c), c) ==> Recording(ItemsOfJob(j, c), c) == FilesOfJob(j, c))
  {
    var below := if c.reply(path).Listed? then Items(sub, path, c) else {};
    RecordingOfUnion({DirItem(path)}, below, c);
    RecordingOfDir(path, c);
    HungInUnion({DirItem(path)}, below, c);
    if Hung(c.reply(path)) {
      assert DirItem(path) in {DirItem(path)};
    }
  }

  lemma {:induction false} JobsRecording(jobs: seq<Job>, c: Rules)
    ensures Recording(ItemsOfJobs(jobs, c), c) <= FilesOfJobs(jobs, c)
    ensures !SomeHung(ItemsOfJobs(jobs, c), c) ==> Recording(ItemsOfJobs(jobs, c), c) == FilesOfJobs(jobs, c)
  {
    if jobs != [] {
      var n := |jobs| - 1;
      var j := jobs[n];
      JobsRecording(jobs[..n], c);
      EntriesRecording(j.entries, j.at, c);
      DirRecording(j.at, j.entries, c);
      RecordingOfUnion(ItemsOfJobs(jobs[..n], c), ItemsOfJob(j, c), c);
      HungInUnion(ItemsOfJobs(jobs[..n], c), ItemsOfJob(j, c), c);
    }
  }

  // ----- eligible files, path by path -----------------------------------------------------------

  /** The tree holds `node` at `path`, of which the first `m` names lead to these entries. */
  ghost predicate At(entries: seq<Entry>, path: Names, m: nat, node: Node)
    decreases |path| - m, 1
  {
    m < |path| && exists i :: 0 <= i < |entries| && EntryAt(entries[i], path, m, node)
  }

  ghost predicate EntryAt(e: Entry, path: Names, m: nat, node: Node)
    requires m < |path|
    decreases |path| - m, 0
  {
    && path[m] == e.name
    && if m + 1 == |path| then e.node == node else e.node.Dir? && At(e.node.entries, path, m + 1, node)
  }

  /** Behind its first `m` names a path holds no name to be skipped; up to `d` its directories are
      not hidden, but for two names that may be, and none of them is excluded. */
  ghost predicate Clear(c: Rules, path: Names, m: nat, d: nat)
    requires d <= |path|
  {
    && (forall k :: m <= k < |path| ==> path[k] !in c.skipNames && path[k] != ".DS_Store")
    && (forall k :: m <= k < d && path[k] != "" && path[k][0] == '.' ==> path[k] == ".ssh" || path[k] == ".config")
    && (forall k :: m < k <= d ==> !c.excluded(RelText(path[..k])) && !c.excluded(RelText(path[..k]) + "/"))
  }

  ghost predicate NoneUnreadable(c: Rules, path: Names, m: nat) {
    forall k :: m < k < |path| ==> !c.reply(path[..k]).Unreadable?
  }

  ghost predicate AllListed(c: Rules, path: Names, m: nat) {
    forall k :: m < k < |path| ==> c.reply(path[..k]).Listed?
  }

  /** A file to be recorded: a regular file or a symlink whose data is present, on a clear path
      with no unreadable directory above it, and not excluded itself. */
  ghost predicate Wanted(c: Rules, entries: seq<Entry>, m: nat, path: Names, meta: FileMeta) {
    && m < |path| && Clear(c, path, m, |path| - 1) && !c.excluded(RelText(path)) && NoneUnreadable(c, path, m)
    && FileAt(entries, path, m, meta)
  }

  lemma AtFirst(entries: seq<Entry>, path: Names, m: nat, node: Node)
    requires entries != [] && m < |path|
    ensures At(entries, path, m, node) <==> EntryAt(entries[0], path, m, node) || At(entries[1..], path, m, node)
  {
    if i :| 0 <= i < |entries[1..]| && EntryAt(entries[1..][i], path, m, node) { assert EntryAt(entries[i + 1], path, m, node); }
    if i :| 0 <= i < |entries| && EntryAt(entries[i], path, m, node) {
      if i > 0 { assert EntryAt(entries[1..][i - 1], path, m, node); }
    }
  }

  ghost predicate FileAt(entries: seq<Entry>, path: Names, m: nat, meta: FileMeta) {
    At(entries, path, m, File(Regular, false, meta)) || At(entries, path, m, File(Symlink, false, meta))
  }

  /** The files found below some entries are the wanted ones. */
  lemma {:induction false} FilesIff(entries: seq<Entry>, at: Names, c: Rules, path: Names, meta: FileMeta)
    requires |at| < |path| && path[..|at|] == at
    ensures (path, meta) in Files(entries, at, c) <==> Wanted(c, entries, |at|, path, meta)
    decreases entries, 1
  {
    if entries != [] {
      FileOfIff(entries[0], at, c, path, meta);
      FilesIff(entries[1..], at, c, path, meta);
      AtFirst(entries, path, |at|, File(Regular, false, meta));
      AtFirst(entries, path, |at|, File(Symlink, false, meta));
    }
  }

  ghost predicate WantedOf(c: Rules, e: Entry, m: nat, path: Names, meta: FileMeta) {
    && m < |path| && Clear(c, path, m, |path| - 1) && !c.excluded(RelText(path)) && NoneUnreadable(c, path, m)
    && (EntryAt(e, path, m, File(Regular, false, meta)) || EntryAt(e, path, m, File(Symlink, false, meta)))
  }

  lemma {:induction false} FileOfIff(e: Entry, at: Names, c: Rules, path: Names, meta: FileMeta)
    requires |at| < |path| && path[..|at|] == at
    ensures (path, meta) in FilesOf(e, at, c) <==> WantedOf(c, e, |at|, path, meta)
    decreases e, 0
  {
    var m, here := |at|, at + [e.name];
    assert path[..m + 1] == at + [path[m]];
    if e.node.File? {
      assert |path| == m + 1 ==> path == at + [path[m]];
    } else if path[m] == e.name && |path| > m + 1 {
      FilesIff(e.node.entries, here, c, path, meta);
      OneDirMore(c, path, m, |path| - 1);
    } else if path[m] != e.name {
      FilesAreBelow(e.node.entries, here, c);
      assert here[m] == e.name;
    } else {
      FilesAreBelow(e.node.entries, here, c);
    }
  }

  /** The directory behind `m` names joins the path. */
  lemma OneDirMore(c: Rules, path: Names, m: nat, d: nat)
    requires m < d <= |path|
    ensures Clear(c, path, m, d) <==> Entered(c, path[..m + 1], path[m]) && Clear(c, path, m + 1, d)
    ensures d < |path| ==> (NoneUnreadable(c, path, m) <==> !c.reply(path[..m + 1]).Unreadable? && NoneUnreadable(c, path, m + 1))
    ensures d < |path| ==> (AllListed(c, path, m) <==> c.reply(path[..m + 1]).Listed? && AllListed(c, path, m + 1))
  {}

  /** The files of a walk from one directory, path by path. */
  lemma FilesOfJobIff(j: Job, c: Rules, path: Names, meta: FileMeta)
    ensures (path, meta) in FilesOfJob(j, c) <==> WantedFrom(c, j, path, meta)
  {
    FilesAreBelow(j.entries, j.at, c);
    if |j.at| < |path| && path[..|j.at|] == j.at {
      FilesIff(j.entries, j.at, c, path, meta);
    }
  }

  ghost predicate WantedFrom(c: Rules, j: Job, path: Names, meta: FileMeta) {
    !c.reply(j.at).Unreadable? && |j.at| < |path| && path[..|j.at|] == j.at && Wanted(c, j.entries, |j.at|, path, meta)
  }

  ghost predicate WantedSomewhere(c: Rules, jobs: seq<Job>, path: Names, meta: FileMeta) {
    exists j :: j in jobs && WantedFrom(c, j, path, meta)
  }

  lemma {:induction false} FilesOfJobsIff(jobs: seq<Job>, c: Rules, path: Names, meta: FileMeta)
    ensures (path, meta) in FilesOfJobs(jobs, c) <==> WantedSomewhere(c, jobs, path, meta)
  {
    if jobs != [] {
      var n := |jobs| - 1;
      FilesOfJobsIff(jobs[..n], c, path, meta);
      FilesOfJobIff(jobs[n], c, path, meta);
      assert forall j :: j in jobs <==> j in jobs[..n] || j == jobs[n];
    }
  }

  /** A file the walk offers, and a directory it asks: on a clear path, with every directory above
      it listed. */
  ghost predicate Offered(c: Rules, j: Job, path: Names, f: Node) {
    && |j.at| < |path| && path[..|j.at|] == j.at && f.File? && c.reply(j.at).Listed?
    && At(j.entries, path, |j.at|, f) && Clear(c, path, |j.at|, |path| - 1) && AllListed(c, path, |j.at|)
  }

  ghost predicate AskedFor(c: Rules, j: Job, path: Names) {
    || path == j.at
    || (&& |j.at| < |path| && path[..|j.at|] == j.at && c.reply(j.at).Listed?
        && (exists sub :: At(j.entries, path, |j.at|, Dir(sub))) && Clear(c, path, |j.at|, |path|) && AllListed(c, path, |j.at|))
  }

  lemma {:induction false} FileItemsIff(entries: seq<Entry>, at: Names, c: Rules, path: Names, f: Node)
    requires |at| < |path| && path[..|at|] == at
    ensures FileItem(path, f) in Items(entries, at, c)
       <==> f.File? && At(entries, path, |at|, f) && Clear(c, path, |at|, |path| - 1) && AllListed(c, path, |at|)
    decreases entries, 1
  {
    if entries != [] {
      FileItemOfIff(entries[0], at, c, path, f);
      FileItemsIff(entries[1..], at, c, path, f);
      AtFirst(entries, path, |at|, f);
    }
  }

  lemma {:induction false} FileItemOfIff(e: Entry, at: Names, c: Rules, path: Names, f: Node)
    requires |at| < |path| && path[..|at|] == at
    ensures FileItem(path, f) in ItemsOf(e, at, c)
       <==> f.File? && EntryAt(e, path, |at|, f) && Clear(c, path, |at|, |path| - 1) && AllListed(c, path, |at|)
    decreases e, 0
  {
    var m, here := |at|, at + [e.name];
    assert path[..m + 1] == at + [path[m]];
    if e.node.File? {
      assert |path| == m + 1 ==> path == at + [path[m]];
    } else if path[m] == e.name && |path| > m + 1 {
      FileItemsIff(e.node.entries, here, c, path, f);
      OneDirMore(c, path, m, |path| - 1);
    } else {
      ItemsAreBelow(e.node.entries, here, c);
    }
  }

  lemma {:induction false} DirItemsIff(entries: seq<Entry>, at: Names, c: Rules, path: Names)
    requires |at| < |path| && path[..|at|] == at
    ensures DirItem(path) in Items(entries, at, c)
       <==> (exists sub :: At(entries, path, |at|, Dir(sub))) && Clear(c, path, |at|, |path|) && AllListed(c, path, |at|)
    decreases entries, 1
  {
    if entries != [] {
      DirItemOfIff(entries[0], at, c, path);
      DirItemsIff(entries[1..], at, c, path);
      forall sub ensures At(entries, path, |at|, Dir(sub))
                    <==> EntryAt(entries[0], path, |at|, Dir(sub)) || At(entries[1..], path, |at|, Dir(sub)) {
        AtFirst(entries, path, |at|, Dir(sub));
      }
    }
  }

  lemma {:induction false} DirItemOfIff(e: Entry, at: Names, c: Rules, path: Names)
    requires |at| < |path| && path[..|at|] == at
    ensures DirItem(path) in ItemsOf(e, at, c)
       <==> (exists sub :: EntryAt(e, path, |at|, Dir(sub))) && Clear(c, path, |at|, |path|) && AllListed(c, path, |at|)
    decreases e, 0
  {
    var m, here := |at|, at + [e.name];
    assert path[..m + 1] == at + [path[m]];
    if e.node.File? {
      assert forall sub :: !EntryAt(e, path, m, Dir(sub));
    } else if path[m] != e.name {
      ItemsAreBelow(e.node.entries, here, c);
    } else if |path| > m + 1 {
      DirItemsIff(e.node.entries, here, c, path);
      OneDirMore(c, path, m, |path|);
      ListedAbove(c, path, m);
      assert forall sub :: EntryAt(e, path, m, Dir(sub)) <==> At(e.node.entries, path, m + 1, Dir(sub));
    } else {
      assert path == at + [path[m]];
      assert EntryAt(e, path, m, Dir(e.node.entries));
      ItemsAreBelow(e.node.entries, here, c);
    }
  }

  lemma ListedAbove(c: Rules, path: Names, m: nat)
    requires m + 1 < |path|
    ensures AllListed(c, path, m) <==> c.reply(path[..m + 1]).Listed? && AllListed(c, path, m + 1)
  {}

  function PathOf(x: Item): Names { x.path }

  lemma {:induction false} ItemsAreBelow(entries: seq<Entry>, at: Names, c: Rules)
    ensures forall x :: x in Items(entries, at, c) ==> |PathOf(x)| > |at| && PathOf(x)[..|at|] == at
    decreases entries, 1
  {
    if entries != [] {
      ItemsOfAreBelow(entries[0], at, c);
      ItemsAreBelow(entries[1..], at, c);
    }
  }

  lemma {:induction false} ItemsOfAreBelow(e: Entry, at: Names, c: Rules)
    ensures forall x :: x in ItemsOf(e, at, c) ==> |PathOf(x)| > |at| && PathOf(x)[..|at|] == at
    decreases e, 0
  {
    var here := at + [e.name];
    if e.node.Dir? {
      ItemsAreBelow(e.node.entries, here, c);
      forall x | x in Items(e.node.entries, here, c) ensures PathOf(x)[..|at|] == at {
        assert PathOf(x)[..|here|][..|at|] == PathOf(x)[..|at|];
      }
    }
  }

  /** What a walk from one directory comes by, path by path. */
  lemma ItemsOfJobIff(j: Job, c: Rules, path: Names, f: Node)
    ensures FileItem(path, f) in ItemsOfJob(j, c) <==> Offered(c, j, path, f)
    ensures DirItem(path) in ItemsOfJob(j, c) <==> AskedFor(c, j, path)
  {
    ItemsAreBelow(j.entries, j.at, c);
    if |j.at| < |path| && path[..|j.at|] == j.at {
      FileItemsIff(j.entries, j.at, c, path, f);
      DirItemsIff(j.entries, j.at, c, path);
    }
  }

  ghost predicate OfferedSomewhere(c: Rules, jobs: seq<Job>, path: Names, f: Node) {
    exists j :: j in jobs && Offered(c, j, path, f)
  }

  ghost predicate AskedSomewhere(c: Rules, jobs: seq<Job>, path: Names) {
    exists j :: j in jobs && AskedFor(c, j, path)
  }

  lemma SomewhereSnoc(jobs: seq<Job>, c: Rules, path: Names, f: Node)
    requires jobs != []
    ensures var n := |jobs| - 1;
            && (OfferedSomewhere(c, jobs, path, f) <==> OfferedSomewhere(c, jobs[..n], path, f) || Offered(c, jobs[n], path, f))
            && (AskedSomewhere(c, jobs, path) <==> AskedSomewhere(c, jobs[..n], path) || AskedFor(c, jobs[n], path))
  {
    var n := |jobs| - 1;
    assert forall j :: j in jobs <==> j in jobs[..n] || j == jobs[n];
  }

  lemma {:induction false} ItemsOfJobsIff(jobs: seq<Job>, c: Rules, path: Names, f: Node)
    ensures FileItem(path, f) in ItemsOfJobs(jobs, c) <==> OfferedSomewhere(c, jobs, path, f)
    ensures DirItem(path) in ItemsOfJobs(jobs, c) <==> AskedSomewhere(c, jobs, path)
  {
    if jobs != [] {
      ItemsOfJobsIff(jobs[..|jobs| - 1], c, path, f);
      ItemsOfJobIff(jobs[|jobs| - 1], c, path, f);
      SomewhereSnoc(jobs, c, path, f);
    }
  }

  /** What an inventory covers, path by path. */
  ghost predicate Covers(c: Rules, jobs: seq<Job>, inv: Inventory, raised: bool) {
    && (forall r :: r in inv.files ==> exists path :: WantedSomewhere(c, jobs, path, inv.files[r]) && RelText(path) == r)
    && (!raised && !inv.partial ==> forall path, meta :: WantedSomewhere(c, jobs, path, meta) ==> RelText(path) in inv.files)
    && (!raised ==> (inv.partial <==> inv.budgetHit || exists path :: AskedSomewhere(c, jobs, path) && Hung(c.reply(path))))
    && (raised ==> exists path, f :: OfferedSomewhere(c, jobs, path, f) && !ValidRelpath(RelText(path)))
    && (!raised && !inv.budgetHit ==> forall path, f :: OfferedSomewhere(c, jobs, path, f) ==> ValidRelpath(RelText(path)))
  }

  lemma CoversPaths(c: Rules, jobs: seq<Job>, inv: Inventory, raised: bool)
    requires forall r :: r in inv.files ==> Recorded1(r, inv.files[r], FilesOfJobs(jobs, c))
    requires !raised && !inv.partial ==> forall x :: x in FilesOfJobs(jobs, c) ==> RelText(x.0) in inv.files
    requires !raised ==> (inv.partial <==> inv.budgetHit || SomeHung(ItemsOfJobs(jobs, c), c))
    requires raised ==> !AllValid(ItemsOfJobs(jobs, c))
    requires !raised && !inv.budgetHit ==> AllValid(ItemsOfJobs(jobs, c))
    ensures Covers(c, jobs, inv, raised)
  {
    forall r | r in inv.files ensures exists path :: WantedSomewhere(c, jobs, path, inv.files[r]) && RelText(path) == r {
      var x :| x in FilesOfJobs(jobs, c) && RelText(x.0) == r && x.1 == inv.files[r];
      FilesOfJobsIff(jobs, c, x.0, x.1);
    }
    forall path, meta | !raised && !inv.partial && WantedSomewhere(c, jobs, path, meta) ensures RelText(path) in inv.files {
      FilesOfJobsIff(jobs, c, path, meta);
      assert RelText((path, meta).0) in inv.files;
    }
    HungIff(c, jobs);
    ValidIff(c, jobs);
  }

  lemma HungIff(c: Rules, jobs: seq<Job>)
    ensures SomeHung(ItemsOfJobs(jobs, c), c) <==> exists path :: AskedSomewhere(c, jobs, path) && Hung(c.reply(path))
  {
    if x :| x in ItemsOfJobs(jobs, c) && x.DirItem? && Hung(c.reply(x.path)) {
      ItemsOfJobsIff(jobs, c, x.path, Dir([]));
    }
    if path :| AskedSomewhere(c, jobs, path) && Hung(c.reply(path)) {
      ItemsOfJobsIff(jobs, c, path, Dir([]));
      assert DirItem(path) in ItemsOfJobs(jobs, c);
    }
  }

  lemma ValidIff(c: Rules, jobs: seq<Job>)
    ensures AllValid(ItemsOfJobs(jobs, c)) <==> forall path, f :: OfferedSomewhere(c, jobs, path, f) ==> ValidRelpath(RelText(path))
  {
    forall path, f | AllValid(ItemsOfJobs(jobs, c)) && OfferedSomewhere(c, jobs, path, f) ensures ValidRelpath(RelText(path)) {
      ItemsOfJobsIff(jobs, c, path, f);
      assert FileItem(path, f) in ItemsOfJobs(jobs, c);
    }
    if x :| x in ItemsOfJobs(jobs, c) && x.FileItem? && !ValidRelpath(RelText(x.path)) {
      ItemsOfJobsIff(jobs, c, x.path, x.node);
    }
  }

  // ----- one tree -----------------------------------------------------------------------------

  /** No directory holds two entries of one name. */
  ghost predicate DistinctNames(entries: seq<Entry>)
    decreases entries, 1
  {
    entries == []
    || (DistinctBelow(entries[0]) && DistinctNames(entries[1..])
        && forall i :: 0 < i < |entries| ==> entries[i].name != entries[0].name)
  }

  ghost predicate DistinctBelow(e: Entry)
    decreases e, 0
  {
    e.node.Dir? ==> DistinctNames(e.node.entries)
  }

  /** Every path found below `at` starts with `at` and the name of one of its entries. */
  lemma {:induction false} FilesAreBelow(entries: seq<Entry>, at: Names, c: Rules)
    ensures forall x :: x in Files(entries, at, c) ==>
              |x.0| > |at| && x.0[..|at|] == at && exists i :: 0 <= i < |entries| && entries[i].name == x.0[|at|]
    decreases entries, 1
  {
    if entries != [] {
      FilesOfAreBelow(entries[0], at, c);
      FilesAreBelow(entries[1..], at, c);
      forall x | x in Files(entries[1..], at, c) ensures exists i :: 0 <= i < |entries| && entries[i].name == x.0[|at|] {
        var i :| 0 <= i < |entries[1..]| && entries[1..][i].name == x.0[|at|];
        assert entries[i + 1].name == x.0[|at|];
      }
    }
  }

  lemma {:induction false} FilesOfAreBelow(e: Entry, at: Names, c: Rules)
    ensures forall x :: x in FilesOf(e, at, c) ==> |x.0| > |at| && x.0[..|at|] == at && x.0[|at|] == e.name
    decreases e, 0
  {
    if e.node.Dir? {
      var path := at + [e.name];
      FilesAreBelow(e.node.entries, path, c);
      forall x | x in Files(e.node.entries, path, c) ensures x.0[..|at|] == at && x.0[|at|] == e.name {
        assert x.0[..|path|][..|at|] == x.0[..|at|] && x.0[..|path|][|at|] == x.0[|at|];
      }
    }
  }

  /** A walk of one directory tree meets each path once. */
  lemma {:induction false} OneTreeIsFunctional(entries: seq<Entry>, at: Names, c: Rules)
    requires DistinctNames(entries)
    ensures Functional(Files(entries, at, c))
    decreases entries, 1
  {
    if entries != [] {
      OneEntryIsFunctional(entries[0], at, c);
      OneTreeIsFunctional(entries[1..], at, c);
      FilesOfAreBelow(entries[0], at, c);
      FilesAreBelow(entries[1..], at, c);
      forall x, y | x in FilesOf(entries[0], at, c) && y in Files(entries[1..], at, c) ensures x.0 != y.0 {
        var i :| 0 <= i < |entries[1..]| && entries[1..][i].name == y.0[|at|];
        assert entries[i + 1].name != entries[0].name;
      }
    }
  }

  lemma {:induction false} OneEntryIsFunctional(e: Entry, at: Names, c: Rules)
    requires DistinctBelow(e)
    ensures Functional(FilesOf(e, at, c))
    decreases e, 0
  {
    if e.node.Dir? {
      OneTreeIsFunctional(e.node.entries, at + [e.name], c);
    }
  }

  // ----- the guard ----------------------------------------------------------------------------

  datatype Guarded = Proceed | ProceedWithNote | Refused

  /** `guard_partial_inventory`: a real run needs a complete inventory or an explicit waiver. */
  function GuardPartial(inv: Inventory, dryRun: bool, allowPartial: bool): (g: Guarded)
    ensures g.Proceed? <==> !inv.partial
    ensures g.Refused? <==> inv.partial && !dryRun && !allowPartial
  {
    if !inv.partial then Proceed
    else if dryRun then ProceedWithNote
    else if allowPartial then ProceedWithNote
    else Refused
  }

  /** The full-home walk behind the guard: unless it is refused, a real run without the waiver
      plans from an inventory in which every record is an eligible file's and every eligible
      file left a record. */
  method GuardedHomeInventory(c: Rules, root: seq<Entry>, clock: nat -> int, maxSec: int, dryRun: bool)
    returns (raised: bool, inv: Inventory, g: Guarded, ghost readings: nat)
    requires forall i: nat, j: nat :: i <= j ==> clock(i) <= clock(j)
    ensures forall r :: r in inv.files ==> ValidRelpath(r)
    ensures raised ==> !AllValid(ItemsOfJob(Job([], root), c))
    ensures !raised && !g.Refused? && !dryRun ==> Complete(inv.files, FilesOfJob(Job([], root), c)) && AllValid(ItemsOfJob(Job([], root), c))
    ensures Covers(c, [Job([], root)], inv, raised)
    ensures !raised ==> readings >= 2
    ensures !raised ==>
              (g.Refused? <==> !dryRun && (SomeHung(ItemsOfJob(Job([], root), c), c)
                                           || exists i: nat :: i < readings && clock(i) - clock(0) > maxSec))
  {
    PendingOne(Job([], root), c);
    raised, inv, readings := InventoryLocal(c, [Job([], root)], clock, maxSec);
    g := GuardPartial(inv, dryRun, false);
  }

  /** Every record is an eligible file's, under an acceptable text, and every eligible file has
      one under its text. */
  ghost predicate Complete(files: map<Rel, FileMeta>, eligible: set<(Names, FileMeta)>) {
    && (forall r :: r in files ==> ValidRelpath(r) && Recorded1(r, files[r], eligible))
    && forall x :: x in eligible ==> RelText(x.0) in files
  }

  // ----- when the inventory is exact ---------------------------------------------------------

  /** The inventory is the eligible files, each under its own path. */
  ghost predicate ExactFor(files: map<Rel, FileMeta>, eligible: set<(Names, FileMeta)>) {
    forall r, meta :: Holds(files, r, meta) <==> Spelled(r, meta, eligible)
  }

  predicate Holds(files: map<Rel, FileMeta>, r: Rel, meta: FileMeta) {
    r in files && files[r] == meta
  }

  ghost predicate Spelled(r: Rel, meta: FileMeta, eligible: set<(Names, FileMeta)>) {
    exists x :: x in eligible && PathText(x.0) == r && x.1 == meta
  }

  /** The path as the file system spells it. */
  function PathText(path: Names): Rel {
    if path == [] then [] else Join(path, '/')
  }

  predicate Backslashed(path: Names) {
    exists name :: name in path && '\\' in name
  }

  /** No name holds a slash: the file system has none that does. */
  ghost predicate PlainNames(eligible: set<(Names, FileMeta)>) {
    forall x :: x in eligible ==> x.0 != [] && forall name :: name in x.0 ==> '/' !in name
  }

  /** A complete inventory is exact if and only if no name on an eligible path holds a
      backslash. */
  lemma InventoryIsExactIff(files: map<Rel, FileMeta>, eligible: set<(Names, FileMeta)>)
    requires Complete(files, eligible) && Functional(eligible) && PlainNames(eligible)
    ensures ExactFor(files, eligible) <==> forall x :: x in eligible ==> !Backslashed(x.0)
  {
    if forall x :: x in eligible ==> !Backslashed(x.0) {
      forall r, meta ensures Holds(files, r, meta) <==> Spelled(r, meta, eligible) {
        ExactAt(files, eligible, r, meta);
      }
    }
    if ExactFor(files, eligible) {
      forall x | x in eligible ensures !Backslashed(x.0) {
        ExactHasNoBackslash(files, eligible, x);
      }
    }
  }

  /** Two exact inventories are one. */
  lemma ExactIsUnique(a: map<Rel, FileMeta>, b: map<Rel, FileMeta>, eligible: set<(Names, FileMeta)>)
    requires ExactFor(a, eligible) && ExactFor(b, eligible)
    ensures a == b
  {
    forall r | r in a ensures r in b && b[r] == a[r] { assert Holds(a, r, a[r]) && Holds(b, r, a[r]); }
    forall r | r in b ensures r in a { assert Holds(b, r, b[r]) && Holds(a, r, b[r]); }
  }

  lemma ExactHasNoBackslash(files: map<Rel, FileMeta>, eligible: set<(Names, FileMeta)>, x: (Names, FileMeta))
    requires Complete(files, eligible) && ExactFor(files, eligible) && x in eligible
    ensures !Backslashed(x.0)
  {
    assert Spelled(PathText(x.0), x.1, eligible);
    assert Holds(files, PathText(x.0), x.1);
    NoBackslashInTexts(files, eligible, PathText(x.0));
    BackslashStays(x.0);
  }

  lemma ExactAt(files: map<Rel, FileMeta>, eligible: set<(Names, FileMeta)>, r: Rel, meta: FileMeta)
    requires Complete(files, eligible) && Functional(eligible) && PlainNames(eligible)
    requires forall x :: x in eligible ==> !Backslashed(x.0)
    ensures Holds(files, r, meta) <==> Spelled(r, meta, eligible)
  {
    forall x | x in eligible ensures RelText(x.0) == PathText(x.0) { PlainIsKept(x.0); }
    if r in files && files[r] == meta {
      assert Recorded1(r, meta, eligible);
    }
    if x :| x in eligible && PathText(x.0) == r && x.1 == meta {
      assert Recorded1(r, files[r], eligible);
      var y :| y in eligible && RelText(y.0) == r && y.1 == files[r];
      PathTextIsInjective(x.0, y.0);
    }
  }

  lemma PathTextIsInjective(p: Names, q: Names)
    requires p != [] && q != [] && PathText(p) == PathText(q)
    requires (forall name :: name in p ==> '/' !in name) && forall name :: name in q ==> '/' !in name
    ensures p == q
  {
    SplitJoin(p, '/');
    SplitJoin(q, '/');
  }

  /** Without backslashes the recorded text is the path. */
  lemma PlainIsKept(path: Names)
    requires !Backslashed(path)
    ensures RelText(path) == PathText(path)
  {
    if path != [] {
      JoinChars(path, '/');
      var text := Join(path, '/');
      forall i | 0 <= i < |text| ensures text[i] != '\\' {
        assert text[i] in text;
      }
    }
  }

  lemma BackslashStays(path: Names)
    ensures Backslashed(path) ==> '\\' in PathText(path)
  {
    if Backslashed(path) {
      var name :| name in path && '\\' in name;
      JoinChars(path, '/');
    }
  }

  lemma NoBackslashInTexts(files: map<Rel, FileMeta>, eligible: set<(Names, FileMeta)>, r: Rel)
    requires Complete(files, eligible) && r in files
    ensures '\\' !in r
  {
    var x :| x in eligible && RelText(x.0) == r && x.1 == files[r];
    if x.0 != [] {
      var text := Join(x.0, '/');
      forall i | 0 <= i < |r| ensures r[i] != '\\' { assert Slashed(text)[i] == r[i]; }
    }
  }

  /** A file `a\b` is recorded as `a/b`: a path that names no file, or that of another file. */
  lemma BackslashRenames(a: string, b: string)
    requires '\\' !in a && '\\' !in b
    ensures RelText([a + ['\\'] + b]) == RelText([a, b]) == PathText([a, b]) != PathText([a + ['\\'] + b])
  {
    var one, two := a + ['\\'] + b, a + ['/'] + b;
    JoinOne(one);
    JoinTwo(a, b);
    SlashedPlain(a);
    SlashedPlain(b);
    assert Slashed(one) == Slashed(a) + ['/'] + Slashed(b);
    assert Slashed(two) == Slashed(a) + ['/'] + Slashed(b);
    assert one[|a|] != two[|a|];
  }

  lemma SlashedPlain(s: string)
    requires '\\' !in s
    ensures Slashed(s) == s
  {
    forall i | 0 <= i < |s| ensures s[i] != '\\' { assert s[i] in s; }
  }

  lemma JoinOne(s: string)
    ensures Join([s], '/') == s
  {}

  lemma JoinTwo(a: string, b: string)
    ensures Join([a, b], '/') == a + ['/'] + b
  {
    assert [a, b][..1] == [a];
  }

  /** A file `..\x` aborts the walk: its text climbs. */
  lemma ClimbingNameIsRefused(x: string)
    requires '\\' !in x && '/' !in x
    ensures !ValidRelpath(RelText(["..\\" + x]))
  {
    assert "..\\" + x == ".." + ['\\'] + x;
    BackslashRenames("..", x);
    JoinTwo("..", x);
    SplitJoin(["..", x], '/');
    assert ".." in ["..", x];
  }

  function TwoFiles(m: FileMeta, n: FileMeta): seq<Entry> {
    [Entry("a\\b", File(Regular, false, m)), Entry("a", Dir([Entry("b", File(Regular, false, n))]))]
  }

  const NO_RULES := Rules({}, _ => false, _ => Listed)

  lemma TwoFilesItems(m: FileMeta, n: FileMeta)
    ensures var j := Job([], TwoFiles(m, n));
            && FilesOfJob(j, NO_RULES) == {(["a\\b"], m), (["a", "b"], n)}
            && ItemsOfJob(j, NO_RULES)
               == {DirItem([]), DirItem(["a"]), FileItem(["a\\b"], File(Regular, false, m)), FileItem(["a", "b"], File(Regular, false, n))}
  {
    var f, g, root := File(Regular, false, m), File(Regular, false, n), TwoFiles(m, n);
    var sub := [Entry("b", g)];
    assert [] + ["a\\b"] == ["a\\b"] && [] + ["a"] == ["a"] && ["a"] + ["b"] == ["a", "b"];
    assert sub[1..] == [] && root[1..] == [Entry("a", Dir(sub))] && root[1..][1..] == [];
    assert Files(sub, ["a"], NO_RULES) == {(["a", "b"], n)};
    assert Items(sub, ["a"], NO_RULES) == {FileItem(["a", "b"], g)};
    assert Entered(NO_RULES, ["a"], "a");
    assert Files(root[1..], [], NO_RULES) == FilesOf(root[1], [], NO_RULES) == {(["a", "b"], n)};
    assert Items(root[1..], [], NO_RULES) == ItemsOf(root[1], [], NO_RULES) == {DirItem(["a"]), FileItem(["a", "b"], g)};
    assert FilesOf(root[0], [], NO_RULES) == {(["a\\b"], m)};
    assert ItemsOf(root[0], [], NO_RULES) == {FileItem(["a\\b"], f)};
  }

  lemma TwoFilesTexts()
    ensures RelText(["a\\b"]) == RelText(["a", "b"]) == "a/b" && ValidRelpath("a/b")
  {
    assert "a\\b" == "a" + ['\\'] + "b";
    BackslashRenames("a", "b");
    JoinTwo("a", "b");
    assert "a" + ['/'] + "b" == "a/b";
    ValidRelpathIff(["a", "b"]);
  }

  /** One such tree, `a\\b` beside a directory `a` that holds `b`: the walk ends well, it is not
      refused, and two files have left one record. */
  method TwoFilesOneRecord(m: FileMeta, n: FileMeta) returns (inv: Inventory)
    ensures FilesOfJob(Job([], TwoFiles(m, n)), NO_RULES) == {(["a\\b"], m), (["a", "b"], n)}
    ensures inv.files.Keys == {"a/b"} && !inv.partial
  {
    TwoFilesItems(m, n);
    TwoFilesTexts();
    PendingOne(Job([], TwoFiles(m, n)), NO_RULES);
    var raised;
    ghost var readings;
    raised, inv, readings := WalkJobs(NO_RULES, [Job([], TwoFiles(m, n))], _ => 0, 10);
    assert (["a", "b"], n) in FilesOfJob(Job([], TwoFiles(m, n)), NO_RULES);
    assert RelText((["a", "b"], n).0) in inv.files;
  }

  /** Why the guard: planned against an inventory that missed a newer local file, the peer's
      older copy is pulled over it. */
  lemma MissedLocalFileIsOverwritten(rel: Rel, older: FileMeta, newer: FileMeta)
    requires older.mtime < newer.mtime
    ensures rel in PullSet(World(map[], map[rel := older]), Newer, true)
    ensures rel in PushSet(World(map[rel := newer], map[rel := older]), Newer, true)
  {
    assert VerdictOf(World(map[], map[rel := older]), Newer, true, rel) == OnlyRemote;
    assert VerdictOf(World(map[rel := newer], map[rel := older]), Newer, true, rel) == LocalNewer;
  }
}
