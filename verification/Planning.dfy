/** The planner of the home sync (`sync_plan.plan_transfers`): two inventories and a
    conflict policy become a push list, a pull list and seven counters. */
module Planning {
  import opened Base

  datatype FileMeta = FileMeta(mtime: int, size: int)

  /** What an inventory says of one side: relative path to modification time and size. */
  type Tree = map<Rel, FileMeta>

  datatype Policy = Newer | Larger | PreferLocal | PreferRemote | SkipConflict

  /** The counter a file ends up in; two of them push the file and two pull it. */
  datatype Verdict =
    | OnlyLocal | OnlyRemote | RemoteUnknown | LocalNewer | RemoteNewer | Equal | ConflictsSkipped

  predicate Pushes(v: Verdict) { v.OnlyLocal? || v.LocalNewer? }
  predicate Pulls(v: Verdict) { v.OnlyRemote? || v.RemoteNewer? }
  function Is(v: Verdict): Verdict -> bool { u => u == v }

  /** Both sides of one peer. */
  datatype World = World(local: Tree, remote: Tree) {
    function Rels(): set<Rel> { local.Keys + remote.Keys }
    function Mirrored(): World { World(remote, local) }
  }

  // ----- reference semantics: who wins a file both sides have --------------------

  predicate LocalWins(policy: Policy, l: FileMeta, r: FileMeta) {
    match policy
    case Newer => l.mtime > r.mtime
    case Larger => l.size > r.size || (l.size == r.size && l.mtime > r.mtime)
    case PreferLocal => l != r
    case PreferRemote => false
    case SkipConflict => false
  }

  function Dual(policy: Policy): Policy {
    match policy
    case PreferLocal => PreferRemote
    case PreferRemote => PreferLocal
    case _ => policy
  }

  predicate RemoteWins(policy: Policy, l: FileMeta, r: FileMeta) {
    LocalWins(Dual(policy), r, l)
  }

  // ----- the decision per file ---------------------------------------------------

  /** Which of two copies a policy favours, case by case. */
  lemma PolicyFavours(l: FileMeta, r: FileMeta, complete: bool)
    ensures Pushes(Judge(Some(l), Some(r), Newer, complete)) <==> l.mtime > r.mtime
    ensures Pulls(Judge(Some(l), Some(r), Newer, complete)) <==> l.mtime < r.mtime
    ensures Pushes(Judge(Some(l), Some(r), Larger, complete)) <==> l.size > r.size || (l.size == r.size && l.mtime > r.mtime)
    ensures Pulls(Judge(Some(l), Some(r), Larger, complete)) <==> l.size < r.size || (l.size == r.size && l.mtime < r.mtime)
    ensures Pushes(Judge(Some(l), Some(r), PreferLocal, complete)) <==> l != r
    ensures !Pulls(Judge(Some(l), Some(r), PreferLocal, complete))
    ensures Pulls(Judge(Some(l), Some(r), PreferRemote, complete)) <==> l != r
    ensures !Pushes(Judge(Some(l), Some(r), PreferRemote, complete))
    ensures Judge(Some(l), Some(r), SkipConflict, complete) == if l == r then Equal else ConflictsSkipped
    ensures Judge(Some(l), None, Newer, complete) == if complete then OnlyLocal else RemoteUnknown
    ensures Judge(None, Some(r), Newer, complete) == OnlyRemote
  {}

  /** And on which side the copies end up. */
  lemma WinnerEndsOnBothSides(w: World, policy: Policy, rel: Rel)
    requires rel in w.local && rel in w.remote && !policy.SkipConflict?
    ensures var w' := Apply(w, PushSet(w, policy, true), PullSet(w, policy, true));
            && (policy.PreferLocal? ==> w'.local[rel] == w'.remote[rel] == w.local[rel])
            && (policy.PreferRemote? ==> w'.local[rel] == w'.remote[rel] == w.remote[rel])
            && (policy.Larger? && w.local[rel].size > w.remote[rel].size ==> w'.local[rel] == w'.remote[rel] == w.local[rel])
            && (policy.Larger? && w.local[rel].size < w.remote[rel].size ==> w'.local[rel] == w'.remote[rel] == w.remote[rel])
            && (policy.Newer? && w.local[rel].mtime > w.remote[rel].mtime ==> w'.local[rel] == w'.remote[rel] == w.local[rel])
            && (policy.Newer? && w.local[rel].mtime < w.remote[rel].mtime ==> w'.local[rel] == w'.remote[rel] == w.remote[rel])
  {
    AfterApply(w, policy, true, PushSet(w, policy, true), PullSet(w, policy, true), rel);
    PolicyFavours(w.local[rel], w.remote[rel], true);
    assert VerdictOf(w, policy, true, rel) == Judge(Some(w.local[rel]), Some(w.remote[rel]), policy, true);
  }

  /** One turn of the planner's loop, branch by branch. */
  function Judge(lm: Option<FileMeta>, rm: Option<FileMeta>, policy: Policy, remoteComplete: bool): (v: Verdict)
    requires lm.Some? || rm.Some?
    ensures Pushes(v) <==> lm.Some? && if rm.Some? then LocalWins(policy, lm.value, rm.value) else remoteComplete
    ensures Pulls(v) <==> rm.Some? && (lm.Some? ==> RemoteWins(policy, lm.value, rm.value))
    ensures v.RemoteUnknown? <==> rm.None? && !remoteComplete
    ensures v.ConflictsSkipped? <==> lm.Some? && rm.Some? && policy.SkipConflict? && lm != rm
    ensures v.OnlyLocal? || v.OnlyRemote? ==> lm.None? || rm.None?
  {
    if rm.None? then
      if !remoteComplete then RemoteUnknown else OnlyLocal
    else if lm.None? then
      OnlyRemote
    else
      var l, r := lm.value, rm.value;
      var same := l.mtime == r.mtime && l.size == r.size;
      if same || (l.mtime == r.mtime && policy.Newer?) then Equal
      else if policy.SkipConflict? then ConflictsSkipped
      else if policy.PreferLocal? then LocalNewer
      else if policy.PreferRemote? then RemoteNewer
      else if policy.Larger? then
        if l.size > r.size then LocalNewer
        else if r.size > l.size then RemoteNewer
        else if l.mtime > r.mtime then LocalNewer
        else if r.mtime > l.mtime then RemoteNewer
        else Equal
      else if l.mtime > r.mtime then LocalNewer
      else if r.mtime > l.mtime then RemoteNewer
      else Equal
  }

  function VerdictOf(w: World, policy: Policy, complete: bool, rel: Rel): Verdict
    requires rel in w.Rels()
  {
    Judge(Get(w.local, rel), Get(w.remote, rel), policy, complete)
  }

  function Verdicts(w: World, policy: Policy, complete: bool): map<Rel, Verdict> {
    map rel | rel in w.Rels() :: VerdictOf(w, policy, complete, rel)
  }

  function Chosen(verdicts: map<Rel, Verdict>, want: Verdict -> bool): set<Rel> {
    set rel | rel in verdicts && want(verdicts[rel])
  }

  function PushSet(w: World, policy: Policy, complete: bool): set<Rel> {
    Chosen(Verdicts(w, policy, complete), Pushes)
  }

  function PullSet(w: World, policy: Policy, complete: bool): set<Rel> {
    Chosen(Verdicts(w, policy, complete), Pulls)
  }

  function WithVerdict(w: World, policy: Policy, complete: bool, v: Verdict): set<Rel> {
    Chosen(Verdicts(w, policy, complete), Is(v))
  }

  const NO_STATS: map<Verdict, nat> :=
    map v: Verdict | v in {OnlyLocal, OnlyRemote, RemoteUnknown, LocalNewer, RemoteNewer, Equal, ConflictsSkipped} :: 0

  /** The loop over `set(local) | set(remote)`, in whatever order the set yields. The lists
      depend on the two inventories alone: they are the sorted lists of the two sets. */
  method PlanTransfers(local: Tree, remote: Tree, policy: Policy, remoteComplete: bool)
    returns (toPush: seq<Rel>, toPull: seq<Rel>, stats: map<Verdict, nat>)
    ensures toPush == SortedRels(PushSet(World(local, remote), policy, remoteComplete))
    ensures toPull == SortedRels(PullSet(World(local, remote), policy, remoteComplete))
    ensures forall v: Verdict ::
              v in stats && stats[v] == |WithVerdict(World(local, remote), policy, remoteComplete, v)|
  {
    var order := IterationOrder(local.Keys + remote.Keys);
    ghost var verdicts := TakeVerdicts(World(local, remote), policy, remoteComplete);
    toPush, toPull, stats := [], [], NO_STATS;
    NothingCounted(verdicts);
    for i := 0 to |order|
      invariant Counted(verdicts, order[..i], toPush, toPull, stats)
    {
      var rel := order[i];
      var v := Judge(Get(local, rel), Get(remote, rel), policy, remoteComplete);
      CountOneMore(verdicts, order, i, toPush, toPull, stats);
      if Pushes(v) {
        toPush := toPush + [rel];
      } else if Pulls(v) {
        toPull := toPull + [rel];
      }
      stats := stats[v := stats[v] + 1];
    }
    AllCounted(verdicts, order, toPush, toPull, stats);
    toPush := Sort(toPush, RelLe);
    toPull := Sort(toPull, RelLe);
  }

  /** The members of a set in the order some iteration over it yields them. */
  method IterationOrder(s: set<Rel>) returns (order: seq<Rel>)
    ensures multiset(order) == multiset(s) && Elems(order) == s
  {
    order := [];
    var todo := s;
    while todo != {}
      invariant todo <= s && multiset(order) == multiset(s - todo)
      decreases todo
    {
      var rel :| rel in todo;
      assert s - (todo - {rel}) == (s - todo) + {rel};
      order, todo := order + [rel], todo - {rel};
    }
    assert s - {} == s;
    NoDupsIff(order, s);
  }

  /** The loop invariant: what the lists and the counters say once `seen` was judged. */
  ghost predicate Counted(verdicts: map<Rel, Verdict>, seen: seq<Rel>,
                          toPush: seq<Rel>, toPull: seq<Rel>, stats: map<Verdict, nat>)
  {
    && (forall rel :: rel in seen ==> rel in verdicts)
    && toPush == Filtered(verdicts, seen, Pushes)
    && toPull == Filtered(verdicts, seen, Pulls)
    && forall v: Verdict :: v in stats && stats[v] == |Filtered(verdicts, seen, Is(v))|
  }

  lemma NothingCounted(verdicts: map<Rel, Verdict>)
    ensures Counted(verdicts, [], [], [], NO_STATS)
  {
    forall v: Verdict ensures v in NO_STATS && NO_STATS[v] == 0 {
      match v
      case OnlyLocal => case OnlyRemote => case RemoteUnknown => case LocalNewer =>
      case RemoteNewer => case Equal => case ConflictsSkipped =>
    }
  }

  lemma CountOneMore(verdicts: map<Rel, Verdict>, order: seq<Rel>, i: nat,
                     toPush: seq<Rel>, toPull: seq<Rel>, stats: map<Verdict, nat>)
    requires i < |order| && order[i] in verdicts && Counted(verdicts, order[..i], toPush, toPull, stats)
    ensures var v := verdicts[order[i]];
            Counted(verdicts, order[..i + 1],
                    if Pushes(v) then toPush + [order[i]] else toPush,
                    if !Pushes(v) && Pulls(v) then toPull + [order[i]] else toPull,
                    stats[v := stats[v] + 1])
  {
    assert order[..i + 1][..i] == order[..i];
  }

  lemma AllCounted(verdicts: map<Rel, Verdict>, order: seq<Rel>,
                   toPush: seq<Rel>, toPull: seq<Rel>, stats: map<Verdict, nat>)
    requires Counted(verdicts, order[..|order|], toPush, toPull, stats) && multiset(order) == multiset(verdicts.Keys)
    ensures Sort(toPush, RelLe) == SortedRels(Chosen(verdicts, Pushes))
    ensures Sort(toPull, RelLe) == SortedRels(Chosen(verdicts, Pulls))
    ensures forall v: Verdict :: v in stats && stats[v] == |Chosen(verdicts, Is(v))|
  {
    assert order[..|order|] == order;
    ListedChoice(verdicts, order, Pushes);
    ListedChoice(verdicts, order, Pulls);
    forall v: Verdict { ListedChoice(verdicts, order, Is(v)); }
  }

  lemma TakeVerdicts(w: World, policy: Policy, complete: bool) returns (verdicts: map<Rel, Verdict>)
    ensures verdicts.Keys == w.local.Keys + w.remote.Keys
    ensures forall rel :: rel in verdicts ==>
              verdicts[rel] == Judge(Get(w.local, rel), Get(w.remote, rel), policy, complete)
    ensures PushSet(w, policy, complete) == Chosen(verdicts, Pushes)
    ensures PullSet(w, policy, complete) == Chosen(verdicts, Pulls)
    ensures forall v :: WithVerdict(w, policy, complete, v) == Chosen(verdicts, Is(v))
  {
    verdicts := Verdicts(w, policy, complete);
  }

  /** The files of a list whose verdict is wanted, in list order. */
  ghost function Filtered(verdicts: map<Rel, Verdict>, seen: seq<Rel>, want: Verdict -> bool): seq<Rel>
    requires forall rel :: rel in seen ==> rel in verdicts
  {
    if seen == [] then [] else
      var n := |seen| - 1;
      Filtered(verdicts, seen[..n], want) + if want(verdicts[seen[n]]) then [seen[n]] else []
  }

  /** Filtering any listing of the files lists the chosen set; sorting it is canonical. */
  lemma ListedChoice(verdicts: map<Rel, Verdict>, seen: seq<Rel>, want: Verdict -> bool)
    requires multiset(seen) == multiset(verdicts.Keys) && forall rel :: rel in seen ==> rel in verdicts
    ensures Sort(Filtered(verdicts, seen, want), RelLe) == SortedRels(Chosen(verdicts, want))
    ensures |Filtered(verdicts, seen, want)| == |Chosen(verdicts, want)|
  {
    NoDupsIff(seen, verdicts.Keys);
    FilteredElems(verdicts, seen, want);
    var s := Chosen(verdicts, want);
    assert Elems(Filtered(verdicts, seen, want)) == s;
    NoDupsIff(Filtered(verdicts, seen, want), s);
    SortIsSortedRels(Filtered(verdicts, seen, want), s);
  }

  lemma {:induction false} FilteredElems(verdicts: map<Rel, Verdict>, seen: seq<Rel>, want: Verdict -> bool)
    requires NoDups(seen) && forall rel :: rel in seen ==> rel in verdicts
    ensures NoDups(Filtered(verdicts, seen, want))
    ensures forall rel :: rel in Filtered(verdicts, seen, want) <==> rel in seen && want(verdicts[rel])
  {
    if seen != [] {
      var n := |seen| - 1;
      assert seen == seen[..n] + [seen[n]];
      FilteredElems(verdicts, seen[..n], want);
    }
  }

  // ----- the lists and the counters ------------------------------------------------

  /** No file travels both ways. */
  lemma NoFileBothWays(w: World, policy: Policy, complete: bool)
    ensures PushSet(w, policy, complete) !! PullSet(w, policy, complete)
  {}

  /** The seven counters account for every file of either side exactly once, and the two
      that push and the two that pull add up to the two lists. */
  lemma CountersPartitionTheFiles(verdicts: map<Rel, Verdict>)
    ensures |Chosen(verdicts, Pushes)| == |Chosen(verdicts, Is(OnlyLocal))| + |Chosen(verdicts, Is(LocalNewer))|
    ensures |Chosen(verdicts, Pulls)| == |Chosen(verdicts, Is(OnlyRemote))| + |Chosen(verdicts, Is(RemoteNewer))|
    ensures |verdicts.Keys|
         == |Chosen(verdicts, Is(OnlyLocal))| + |Chosen(verdicts, Is(OnlyRemote))|
          + |Chosen(verdicts, Is(RemoteUnknown))| + |Chosen(verdicts, Is(LocalNewer))|
          + |Chosen(verdicts, Is(RemoteNewer))| + |Chosen(verdicts, Is(Equal))|
          + |Chosen(verdicts, Is(ConflictsSkipped))|
  {
    var seen := SortedRels(verdicts.Keys);
    SortedRelsSorts(verdicts.Keys);
    ListCountersPartition(verdicts, seen);
    ListedChoice(verdicts, seen, Pushes);
    ListedChoice(verdicts, seen, Pulls);
    forall v: Verdict { ListedChoice(verdicts, seen, Is(v)); }
  }

  lemma {:induction false} ListCountersPartition(verdicts: map<Rel, Verdict>, seen: seq<Rel>)
    requires forall rel :: rel in seen ==> rel in verdicts
    ensures |Filtered(verdicts, seen, Pushes)|
         == |Filtered(verdicts, seen, Is(OnlyLocal))| + |Filtered(verdicts, seen, Is(LocalNewer))|
    ensures |Filtered(verdicts, seen, Pulls)|
         == |Filtered(verdicts, seen, Is(OnlyRemote))| + |Filtered(verdicts, seen, Is(RemoteNewer))|
    ensures |seen|
         == |Filtered(verdicts, seen, Pushes)| + |Filtered(verdicts, seen, Pulls)|
          + |Filtered(verdicts, seen, Is(RemoteUnknown))| + |Filtered(verdicts, seen, Is(Equal))|
          + |Filtered(verdicts, seen, Is(ConflictsSkipped))|
  {
    if seen != [] {
      ListCountersPartition(verdicts, seen[..|seen| - 1]);
    }
  }

  /** Swapping the two sides, and the two `prefer-` policies, swaps the two lists. */
  lemma PlanningIsSymmetric(w: World, policy: Policy)
    ensures PushSet(w.Mirrored(), Dual(policy), true) == PullSet(w, policy, true)
    ensures PullSet(w.Mirrored(), Dual(policy), true) == PushSet(w, policy, true)
  {
    forall rel | rel in w.Rels()
      ensures Pushes(VerdictOf(w.Mirrored(), Dual(policy), true, rel)) <==> Pulls(VerdictOf(w, policy, true, rel))
      ensures Pulls(VerdictOf(w.Mirrored(), Dual(policy), true, rel)) <==> Pushes(VerdictOf(w, policy, true, rel))
    {}
  }

  // ----- carrying a plan out ---------------------------------------------------------

  /** Copies `rels` from `src` over `dst`; each copy keeps time stamp and size. */
  function Overlay(dst: Tree, src: Tree, rels: set<Rel>): Tree {
    map rel | rel in dst.Keys + (rels * src.Keys) :: if rel in rels && rel in src then src[rel] else dst[rel]
  }

  /** One atomic application of a set of pushes and a set of pulls. */
  function Apply(w: World, push: set<Rel>, pull: set<Rel>): World {
    World(Overlay(w.local, w.remote, pull), Overlay(w.remote, w.local, push))
  }

  predicate SubPlan(w: World, policy: Policy, complete: bool, push: set<Rel>, pull: set<Rel>) {
    push <= PushSet(w, policy, complete) && pull <= PullSet(w, policy, complete)
  }

  /** What one file looks like on both sides after part of a plan was carried out. */
  lemma AfterApply(w: World, policy: Policy, complete: bool, push: set<Rel>, pull: set<Rel>, rel: Rel)
    requires SubPlan(w, policy, complete, push, pull)
    ensures push <= w.local.Keys && pull <= w.remote.Keys
    ensures rel in push ==> rel !in pull
    ensures var w' := Apply(w, push, pull);
            && Get(w'.local, rel) == (if rel in pull then Get(w.remote, rel) else Get(w.local, rel))
            && Get(w'.remote, rel) == (if rel in push then Get(w.local, rel) else Get(w.remote, rel))
  {
    NoFileBothWays(w, policy, complete);
    forall r | r in push ensures r in w.local { assert Pushes(VerdictOf(w, policy, complete, r)); }
    forall r | r in pull ensures r in w.remote { assert Pulls(VerdictOf(w, policy, complete, r)); }
  }

  lemma VerdictAfterApply(w: World, policy: Policy, complete: bool, push: set<Rel>, pull: set<Rel>, rel: Rel)
    requires SubPlan(w, policy, complete, push, pull) && rel in w.Rels()
    ensures rel in Apply(w, push, pull).Rels()
    ensures VerdictOf(Apply(w, push, pull), policy, complete, rel)
         == if rel in push + pull then Equal else VerdictOf(w, policy, complete, rel)
  {
    AfterApply(w, policy, complete, push, pull, rel);
  }

  /** Carrying out any part of a plan leaves exactly the rest of it to plan: nothing is
      planned twice, nothing appears, and no file changes direction. */
  lemma PlanAfterPartialApply(w: World, policy: Policy, complete: bool, push: set<Rel>, pull: set<Rel>)
    requires SubPlan(w, policy, complete, push, pull)
    ensures PushSet(Apply(w, push, pull), policy, complete) == PushSet(w, policy, complete) - push
    ensures PullSet(Apply(w, push, pull), policy, complete) == PullSet(w, policy, complete) - pull
  {
    NoFileBothWays(w, policy, complete);
    forall rel
      ensures rel in PushSet(Apply(w, push, pull), policy, complete) <==> rel in PushSet(w, policy, complete) - push
      ensures rel in PullSet(Apply(w, push, pull), policy, complete) <==> rel in PullSet(w, policy, complete) - pull
    {
      FateAfterApply(w, policy, complete, push, pull, rel);
    }
  }

  lemma FateAfterApply(w: World, policy: Policy, complete: bool, push: set<Rel>, pull: set<Rel>, rel: Rel)
    requires SubPlan(w, policy, complete, push, pull)
    requires PushSet(w, policy, complete) !! PullSet(w, policy, complete)
    ensures rel in PushSet(Apply(w, push, pull), policy, complete) <==> rel in PushSet(w, policy, complete) && rel !in push
    ensures rel in PullSet(Apply(w, push, pull), policy, complete) <==> rel in PullSet(w, policy, complete) && rel !in pull
  {
    AfterApply(w, policy, complete, push, pull, rel);
    if rel in w.Rels() {
      VerdictAfterApply(w, policy, complete, push, pull, rel);
    }
  }

  /** Planning is a fixed point of carrying the plan out, under every policy. */
  lemma NothingLeftAfterApply(w: World, policy: Policy, complete: bool)
    ensures var w' := Apply(w, PushSet(w, policy, complete), PullSet(w, policy, complete));
            PushSet(w', policy, complete) == {} && PullSet(w', policy, complete) == {}
  {
    PlanAfterPartialApply(w, policy, complete, PushSet(w, policy, complete), PullSet(w, policy, complete));
  }

  /** Two transfers one after the other are their union at once, overlaps included, as long as
      no file goes both ways: sending a file again changes nothing. */
  lemma ApplyTwice(w: World, push0: set<Rel>, pull0: set<Rel>, push1: set<Rel>, pull1: set<Rel>)
    requires push0 + push1 !! pull0 + pull1
    ensures Apply(Apply(w, push0, pull0), push1, pull1) == Apply(w, push0 + push1, pull0 + pull1)
  {
    var w1 := Apply(w, push0, pull0);
    var once, twice := Apply(w, push0 + push1, pull0 + pull1), Apply(w1, push1, pull1);
    forall rel ensures Get(once.local, rel) == Get(twice.local, rel) && Get(once.remote, rel) == Get(twice.remote, rel) {
      assert rel in push0 + push1 ==> rel !in pull0 + pull1;
    }
    SameLookups(once.local, twice.local);
    SameLookups(once.remote, twice.remote);
  }

  lemma SameLookups(a: Tree, b: Tree)
    requires forall rel :: Get(a, rel) == Get(b, rel)
    ensures a == b
  {
    forall rel ensures rel in a <==> rel in b { assert Get(a, rel) == Get(b, rel); }
    forall rel | rel in a ensures a[rel] == b[rel] { assert Get(a, rel) == Get(b, rel); }
  }

  /** After a whole `newer` plan both sides hold every file, each with the later of the
      two time stamps. */
  lemma NewerEndsAtTheLaterTime(w: World, rel: Rel)
    requires rel in w.Rels()
    ensures var w' := Apply(w, PushSet(w, Newer, true), PullSet(w, Newer, true));
            && rel in w'.local && rel in w'.remote
            && w'.local[rel].mtime == w'.remote[rel].mtime
            && (rel in w.local ==> w'.local[rel].mtime >= w.local[rel].mtime)
            && (rel in w.remote ==> w'.local[rel].mtime >= w.remote[rel].mtime)
            && ((rel in w.local && w'.local[rel].mtime == w.local[rel].mtime)
                || (rel in w.remote && w'.local[rel].mtime == w.remote[rel].mtime))
  {
    var v := VerdictOf(w, Newer, true, rel);
    assert Pushes(v) <==> rel in PushSet(w, Newer, true);
    assert Pulls(v) <==> rel in PullSet(w, Newer, true);
  }

  /** A file whose two copies differ and that the policy sends nowhere. */
  predicate Stuck(w: World, policy: Policy, rel: Rel) {
    && rel in w.local && rel in w.remote && w.local[rel] != w.remote[rel]
    && (policy.SkipConflict? || (policy.Newer? && w.local[rel].mtime == w.remote[rel].mtime))
  }

  /** When one full run makes the two sides equal: exactly when no file is stuck. Under
      `larger` and both `prefer-` policies that is always. */
  lemma SidesAgreeAfterApplyIff(w: World, policy: Policy)
    ensures var w' := Apply(w, PushSet(w, policy, true), PullSet(w, policy, true));
            w'.local == w'.remote <==> forall rel :: rel in w.Rels() ==> !Stuck(w, policy, rel)
  {
    var w' := Apply(w, PushSet(w, policy, true), PullSet(w, policy, true));
    forall rel | rel in w.Rels()
      ensures rel in w'.local && rel in w'.remote && (w'.local[rel] == w'.remote[rel] <==> !Stuck(w, policy, rel))
    {
      AgreesUnlessStuck(w, policy, rel);
    }
    assert w'.local.Keys == w.Rels() && w'.remote.Keys == w.Rels();
  }

  lemma AgreesUnlessStuck(w: World, policy: Policy, rel: Rel)
    requires rel in w.Rels()
    ensures var w' := Apply(w, PushSet(w, policy, true), PullSet(w, policy, true));
            rel in w'.local && rel in w'.remote && (w'.local[rel] == w'.remote[rel] <==> !Stuck(w, policy, rel))
  {
    var v := VerdictOf(w, policy, true, rel);
    assert Pushes(v) <==> rel in PushSet(w, policy, true);
    assert Pulls(v) <==> rel in PullSet(w, policy, true);
  }

  // ----- an incomplete listing of the peer --------------------------------------------

  predicate PartOf(listed: Tree, whole: Tree) {
    listed.Keys <= whole.Keys && forall rel :: rel in listed ==> listed[rel] == whole[rel]
  }

  lemma ListedFate(local: Tree, listed: Tree, remote: Tree, policy: Policy, rel: Rel)
    requires PartOf(listed, remote)
    ensures rel in PushSet(World(local, listed), policy, false)
       <==> rel in PushSet(World(local, remote), policy, true) && rel in listed
    ensures rel in PullSet(World(local, listed), policy, false)
       <==> rel in PullSet(World(local, remote), policy, true) && rel in listed
  {
    var part, whole := World(local, listed), World(local, remote);
    if rel in listed {
      assert VerdictOf(part, policy, false, rel) == VerdictOf(whole, policy, true, rel);
    } else if rel in local {
      assert VerdictOf(part, policy, false, rel) == RemoteUnknown;
    }
  }

  /** Planning against a truncated listing of the peer, flagged as such, never plans a
      transfer that planning against the whole peer would not; and it misses exactly the
      files whose fate depends on the unlisted part. */
  lemma TruncatedListingIsSafe(local: Tree, listed: Tree, remote: Tree, policy: Policy)
    requires PartOf(listed, remote)
    ensures PushSet(World(local, listed), policy, false)
         == PushSet(World(local, remote), policy, true) * listed.Keys
    ensures PullSet(World(local, listed), policy, false)
         == PullSet(World(local, remote), policy, true) * listed.Keys
  {
    var part, whole := World(local, listed), World(local, remote);
    forall rel
      ensures rel in PushSet(part, policy, false) <==> rel in PushSet(whole, policy, true) && rel in listed
      ensures rel in PullSet(part, policy, false) <==> rel in PullSet(whole, policy, true) && rel in listed
    {
      ListedFate(local, listed, remote, policy, rel);
    }
  }

  /** Flagging the truncated listing as complete would not be safe: a file the peer holds
      in a newer version is then pushed over it. */
  lemma TruncatedListingUnflaggedOverwrites(rel: Rel, older: FileMeta, newer: FileMeta)
    requires older.mtime < newer.mtime
    ensures var local, listed, remote := map[rel := older], map[], map[rel := newer];
            && PartOf(listed, remote)
            && rel in PushSet(World(local, listed), Newer, true)
            && rel in PullSet(World(local, remote), Newer, true)
  {
    var w := World(map[rel := older], map[]);
    assert VerdictOf(w, Newer, true, rel) == OnlyLocal;
    assert VerdictOf(World(map[rel := older], map[rel := newer]), Newer, true, rel) == RemoteNewer;
  }
}
