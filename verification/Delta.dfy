/** The read-only views of the same diff: `classify_compare` (the `--compare` buckets)
    and `precise_delta` (buckets, lists and byte totals in one report). */
module Delta {
  import opened Base
  import opened Planning

  datatype Buckets = Buckets(onlyLocal: seq<Rel>, onlyRemote: seq<Rel>,
                             localNewer: seq<Rel>, remoteNewer: seq<Rel>, equal: seq<Rel>)

  datatype DeltaBucket = DeltaBucket(count: nat, bytes: int)

  datatype Report = Report(
    policy: Policy, localFiles: nat, remoteFiles: nat,
    onlyLocal: DeltaBucket, onlyRemote: DeltaBucket, localNewer: DeltaBucket,
    remoteNewer: DeltaBucket, equal: DeltaBucket, conflictsSkipped: nat,
    toPush: seq<Rel>, toPull: seq<Rel>, pushBytes: int, pullBytes: int)
  {
    function DeltaFiles(): nat { |toPush| + |toPull| }
    predicate InSync() { DeltaFiles() == 0 }
  }

  /** The sorted list of the files a complete `newer` plan judges `v`. */
  ghost function Listing(w: World, v: Verdict): seq<Rel> {
    SortedRels(WithVerdict(w, Newer, true, v))
  }

  /** The loop over the sorted union. Its five buckets are the planner's verdicts under
      `newer`, although the loop compares time stamps only and never looks at a size. */
  method ClassifyCompare(local: Tree, remote: Tree) returns (b: Buckets)
    ensures var w := World(local, remote);
            && b.onlyLocal == Listing(w, OnlyLocal)
            && b.onlyRemote == Listing(w, OnlyRemote)
            && b.localNewer == Listing(w, LocalNewer)
            && b.remoteNewer == Listing(w, RemoteNewer)
            && b.equal == Listing(w, Equal)
  {
    var all := IterationOrder(local.Keys + remote.Keys);
    var order := Sort(all, RelLe);
    ghost var verdicts := SortedVerdicts(World(local, remote), all);
    b := Buckets([], [], [], [], []);
    for i := 0 to |order|
      invariant b == Distributed(verdicts, order[..i])
    {
      var rel := order[i];
      var lm, rm := Get(local, rel), Get(remote, rel);
      DistributeOneMore(verdicts, order, i);
      if lm.Some? && rm.None? {
        b := b.(onlyLocal := b.onlyLocal + [rel]);
      } else if rm.Some? && lm.None? {
        b := b.(onlyRemote := b.onlyRemote + [rel]);
      } else if lm.Some? && rm.Some? {
        if lm.value.mtime > rm.value.mtime {
          b := b.(localNewer := b.localNewer + [rel]);
        } else if rm.value.mtime > lm.value.mtime {
          b := b.(remoteNewer := b.remoteNewer + [rel]);
        } else {
          b := b.(equal := b.equal + [rel]);
        }
      }
    }
    AllDistributed(verdicts, order);
  }

  ghost function Added(b: Buckets, v: Verdict, rel: Rel): Buckets {
    match v
    case OnlyLocal => b.(onlyLocal := b.onlyLocal + [rel])
    case OnlyRemote => b.(onlyRemote := b.onlyRemote + [rel])
    case LocalNewer => b.(localNewer := b.localNewer + [rel])
    case RemoteNewer => b.(remoteNewer := b.remoteNewer + [rel])
    case Equal => b.(equal := b.equal + [rel])
    case _ => b
  }

  /** What the loop has put where after the listed files. */
  ghost function Distributed(verdicts: map<Rel, Verdict>, seen: seq<Rel>): Buckets
    requires forall rel :: rel in seen ==> rel in verdicts
  {
    if seen == [] then Buckets([], [], [], [], []) else
      var n := |seen| - 1;
      Added(Distributed(verdicts, seen[..n]), verdicts[seen[n]], seen[n])
  }

  /** What the loop's comparison of two time stamps finds is the verdict under `newer`. */
  ghost function Compared(lm: Option<FileMeta>, rm: Option<FileMeta>): (v: Verdict)
    requires lm.Some? || rm.Some?
    ensures v == Judge(lm, rm, Newer, true)
  {
    if rm.None? then OnlyLocal else if lm.None? then OnlyRemote
    else if lm.value.mtime > rm.value.mtime then LocalNewer
    else if rm.value.mtime > lm.value.mtime then RemoteNewer
    else Equal
  }

  lemma SortedVerdicts(w: World, all: seq<Rel>) returns (verdicts: map<Rel, Verdict>)
    requires multiset(all) == multiset(w.Rels())
    ensures verdicts.Keys == w.local.Keys + w.remote.Keys
    ensures forall rel :: rel in verdicts ==>
              verdicts[rel] == Compared(Get(w.local, rel), Get(w.remote, rel))
    ensures forall v :: Listing(w, v) == SortedRels(Chosen(verdicts, Is(v)))
    ensures Sort(all, RelLe) == SortedRels(verdicts.Keys)
    ensures forall rel :: rel in Sort(all, RelLe) ==> rel in verdicts
  {
    verdicts := Verdicts(w, Newer, true);
    assert verdicts.Keys == w.Rels();
    SortIsSortedRels(all, w.Rels());
    SortedRelsSorts(w.Rels());
  }

  lemma DistributeOneMore(verdicts: map<Rel, Verdict>, order: seq<Rel>, i: nat)
    requires i < |order| && forall rel :: rel in order ==> rel in verdicts
    ensures Distributed(verdicts, order[..i + 1]) == Added(Distributed(verdicts, order[..i]), verdicts[order[i]], order[i])
  {
    assert order[..i + 1][..i] == order[..i];
  }

  lemma {:induction false} DistributedIsFiltered(verdicts: map<Rel, Verdict>, seen: seq<Rel>)
    requires forall rel :: rel in seen ==> rel in verdicts
    ensures Distributed(verdicts, seen)
         == Buckets(Filtered(verdicts, seen, Is(OnlyLocal)), Filtered(verdicts, seen, Is(OnlyRemote)),
                    Filtered(verdicts, seen, Is(LocalNewer)), Filtered(verdicts, seen, Is(RemoteNewer)),
                    Filtered(verdicts, seen, Is(Equal)))
  {
    if seen != [] {
      DistributedIsFiltered(verdicts, seen[..|seen| - 1]);
    }
  }

  lemma AllDistributed(verdicts: map<Rel, Verdict>, order: seq<Rel>)
    requires order == SortedRels(verdicts.Keys) && forall rel :: rel in order ==> rel in verdicts
    ensures Distributed(verdicts, order[..|order|])
         == Buckets(SortedRels(Chosen(verdicts, Is(OnlyLocal))), SortedRels(Chosen(verdicts, Is(OnlyRemote))),
                    SortedRels(Chosen(verdicts, Is(LocalNewer))), SortedRels(Chosen(verdicts, Is(RemoteNewer))),
                    SortedRels(Chosen(verdicts, Is(Equal))))
  {
    assert order[..|order|] == order;
    DistributedIsFiltered(verdicts, order);
    forall v: Verdict ensures Filtered(verdicts, order, Is(v)) == SortedRels(Chosen(verdicts, Is(v))) {
      FilteredInOrder(verdicts, order, Is(v));
    }
  }

  /** Filtering the sorted listing needs no sort afterwards. */
  lemma FilteredInOrder(verdicts: map<Rel, Verdict>, order: seq<Rel>, want: Verdict -> bool)
    requires order == SortedRels(verdicts.Keys) && forall rel :: rel in order ==> rel in verdicts
    ensures Filtered(verdicts, order, want) == SortedRels(Chosen(verdicts, want))
  {
    RelLeIsTotalOrder();
    SortedRelsSorts(verdicts.Keys);
    FilteredStaysSorted(verdicts, order, want);
    var f := Filtered(verdicts, order, want);
    SortSorts(f, RelLe);
    SortedUnique(f, Sort(f, RelLe), RelLe);
    ListedChoice(verdicts, order, want);
  }

  lemma {:induction false} FilteredStaysSorted(verdicts: map<Rel, Verdict>, seen: seq<Rel>, want: Verdict -> bool)
    requires Sorted(seen, RelLe) && forall rel :: rel in seen ==> rel in verdicts
    ensures Sorted(Filtered(verdicts, seen, want), RelLe)
    ensures forall rel :: rel in Filtered(verdicts, seen, want) ==> rel in seen
  {
    if seen != [] {
      var n := |seen| - 1;
      FilteredStaysSorted(verdicts, seen[..n], want);
      LastIsGreatest(seen);
      AppendGreatest(Filtered(verdicts, seen[..n], want), seen[n]);
    }
  }

  lemma AppendGreatest(s: seq<Rel>, x: Rel)
    requires Sorted(s, RelLe) && forall rel :: rel in s ==> RelLe(rel, x)
    ensures Sorted(s + [x], RelLe)
    ensures forall rel :: rel in s + [x] ==> rel in s || rel == x
  {
    forall i | 0 <= i < |s| ensures RelLe(s[i], x) { assert s[i] in s; }
  }

  lemma LastIsGreatest(seen: seq<Rel>)
    requires Sorted(seen, RelLe) && seen != []
    ensures forall rel :: rel in seen[..|seen| - 1] ==> RelLe(rel, seen[|seen| - 1]) && rel in seen
    ensures Sorted(seen[..|seen| - 1], RelLe) && seen[|seen| - 1] in seen
  {
    var n := |seen| - 1;
    forall rel | rel in seen[..n] ensures RelLe(rel, seen[n]) && rel in seen {
      var k :| 0 <= k < n && seen[..n][k] == rel;
    }
  }

  // ----- byte totals -------------------------------------------------------------

  /** What one path adds to a byte total: its size, negative sizes counted as nothing. */
  function SizeIn(inv: Tree): Rel -> int {
    rel => if rel in inv && inv[rel].size > 0 then inv[rel].size else 0
  }

  method BucketFrom(rels: seq<Rel>, inv: Tree) returns (bucket: DeltaBucket)
    ensures bucket == DeltaBucket(|rels|, SumOf(rels, SizeIn(inv)))
  {
    var total := 0;
    for i := 0 to |rels|
      invariant total == SumOf(rels[..i], SizeIn(inv))
    {
      assert rels[..i + 1] == rels[..i] + [rels[i]];
      SumSnoc(rels[..i], rels[i], SizeIn(inv));
      if rels[i] in inv {
        total := total + if inv[rels[i]].size > 0 then inv[rels[i]].size else 0;
      }
    }
    assert rels[..|rels|] == rels;
    bucket := DeltaBucket(|rels|, total);
  }

  /** The bucket of a verdict, weighed with one side's sizes. */
  ghost function BucketOf(w: World, v: Verdict, inv: Tree): DeltaBucket {
    DeltaBucket(|Listing(w, v)|, SumOf(Listing(w, v), SizeIn(inv)))
  }

  /** The whole report. Under `newer` the three views agree to the file and to the byte:
      the push list is the two local buckets, the pull list the two remote ones. */
  method PreciseDelta(local: Tree, remote: Tree, policy: Policy) returns (d: Report)
    ensures var w := World(local, remote);
            && d.toPush == SortedRels(PushSet(w, policy, true))
            && d.toPull == SortedRels(PullSet(w, policy, true))
            && d.conflictsSkipped == |WithVerdict(w, policy, true, ConflictsSkipped)|
            && d.onlyLocal == BucketOf(w, OnlyLocal, local) && d.localNewer == BucketOf(w, LocalNewer, local)
            && d.onlyRemote == BucketOf(w, OnlyRemote, remote) && d.remoteNewer == BucketOf(w, RemoteNewer, remote)
            && d.equal == BucketOf(w, Equal, local)
    ensures d.InSync() <==>
              && local.Keys == remote.Keys
              && forall rel :: rel in local && rel in remote && local[rel] != remote[rel] ==> Stuck(World(local, remote), policy, rel)
    ensures d.policy == policy && d.localFiles == |local| && d.remoteFiles == |remote|
    ensures d.pushBytes == SumOf(d.toPush, SizeIn(local)) && d.pullBytes == SumOf(d.toPull, SizeIn(remote))
    ensures policy.Newer? ==> d.pushBytes == d.onlyLocal.bytes + d.localNewer.bytes
    ensures policy.Newer? ==> d.pullBytes == d.onlyRemote.bytes + d.remoteNewer.bytes
    ensures policy.Newer? ==> |d.toPush| == d.onlyLocal.count + d.localNewer.count
    ensures policy.Newer? ==> |d.toPull| == d.onlyRemote.count + d.remoteNewer.count
    ensures |local.Keys + remote.Keys|
         == d.onlyLocal.count + d.onlyRemote.count + d.localNewer.count + d.remoteNewer.count + d.equal.count
  {
    var b := ClassifyCompare(local, remote);
    var toPush, toPull, stats := PlanTransfers(local, remote, policy, true);
    var onlyLocal := BucketFrom(b.onlyLocal, local);
    var onlyRemote := BucketFrom(b.onlyRemote, remote);
    var localNewer := BucketFrom(b.localNewer, local);
    var remoteNewer := BucketFrom(b.remoteNewer, remote);
    var equal := BucketFrom(b.equal, local);
    d := Report(policy, |local|, |remote|, onlyLocal, onlyRemote, localNewer, remoteNewer, equal,
                stats[ConflictsSkipped], toPush, toPull,
                SumOf(toPush, SizeIn(local)), SumOf(toPull, SizeIn(remote)));
    ThreeViewsAgree(World(local, remote), local);
    ThreeViewsAgree(World(local, remote), remote);
    InSyncIff(World(local, remote), d);
  }

  lemma EmptyLists(w: World, policy: Policy)
    ensures |SortedRels(PushSet(w, policy, true))| + |SortedRels(PullSet(w, policy, true))| == 0
       <==> PushSet(w, policy, true) == {} && PullSet(w, policy, true) == {}
  {
    SortedRelsSorts(PushSet(w, policy, true));
    SortedRelsSorts(PullSet(w, policy, true));
  }

  /** Under `newer` and a complete listing, push is only-local plus local-newer and pull is
      only-remote plus remote-newer: as lists up to order, in number and in bytes of any
      inventory; and the five buckets hold every file once. */
  lemma ThreeViewsAgree(w: World, inv: Tree)
    ensures multiset(SortedRels(PushSet(w, Newer, true))) == multiset(Listing(w, OnlyLocal) + Listing(w, LocalNewer))
    ensures multiset(SortedRels(PullSet(w, Newer, true))) == multiset(Listing(w, OnlyRemote) + Listing(w, RemoteNewer))
    ensures |SortedRels(PushSet(w, Newer, true))| == |Listing(w, OnlyLocal)| + |Listing(w, LocalNewer)|
    ensures |SortedRels(PullSet(w, Newer, true))| == |Listing(w, OnlyRemote)| + |Listing(w, RemoteNewer)|
    ensures SumOf(SortedRels(PushSet(w, Newer, true)), SizeIn(inv))
         == SumOf(Listing(w, OnlyLocal), SizeIn(inv)) + SumOf(Listing(w, LocalNewer), SizeIn(inv))
    ensures SumOf(SortedRels(PullSet(w, Newer, true)), SizeIn(inv))
         == SumOf(Listing(w, OnlyRemote), SizeIn(inv)) + SumOf(Listing(w, RemoteNewer), SizeIn(inv))
    ensures |w.Rels()| == |Listing(w, OnlyLocal)| + |Listing(w, OnlyRemote)| + |Listing(w, LocalNewer)|
                        + |Listing(w, RemoteNewer)| + |Listing(w, Equal)|
  {
    BucketsHoldAll(w);
    var verdicts := Verdicts(w, Newer, true);
    TwoBuckets(verdicts, Pushes, OnlyLocal, LocalNewer, inv);
    TwoBuckets(verdicts, Pulls, OnlyRemote, RemoteNewer, inv);
  }

  lemma BucketsHoldAll(w: World)
    ensures |w.Rels()| == |Listing(w, OnlyLocal)| + |Listing(w, OnlyRemote)| + |Listing(w, LocalNewer)|
                        + |Listing(w, RemoteNewer)| + |Listing(w, Equal)|
  {
    var verdicts := Verdicts(w, Newer, true);
    forall v ensures |Listing(w, v)| == |Chosen(verdicts, Is(v))| { SortedRelsSorts(Chosen(verdicts, Is(v))); }
    assert |Chosen(verdicts, Is(RemoteUnknown))| == 0 by { assert Chosen(verdicts, Is(RemoteUnknown)) == {}; }
    assert |Chosen(verdicts, Is(ConflictsSkipped))| == 0 by { assert Chosen(verdicts, Is(ConflictsSkipped)) == {}; }
    assert |verdicts.Keys| == |w.Rels()| by { assert verdicts.Keys == w.Rels(); }
    CountersPartitionTheFiles(verdicts);
  }

  lemma TwoBuckets(verdicts: map<Rel, Verdict>, want: Verdict -> bool, u: Verdict, v: Verdict, inv: Tree)
    requires u != v && forall x :: want(x) <==> x == u || x == v
    ensures var whole, a, b := SortedRels(Chosen(verdicts, want)), SortedRels(Chosen(verdicts, Is(u))), SortedRels(Chosen(verdicts, Is(v)));
            && multiset(whole) == multiset(a + b)
            && |whole| == |a| + |b|
            && SumOf(whole, SizeIn(inv)) == SumOf(a, SizeIn(inv)) + SumOf(b, SizeIn(inv))
  {
    var whole, a, b := Chosen(verdicts, want), Chosen(verdicts, Is(u)), Chosen(verdicts, Is(v));
    assert whole == a + b && a !! b;
    ListsOfUnion(whole, a, b, SizeIn(inv));
  }

  lemma UnionMultiset(whole: set<Rel>, a: set<Rel>, b: set<Rel>)
    requires whole == a + b && a !! b
    ensures multiset(whole) == multiset(a) + multiset(b) && |whole| == |a| + |b|
  {}

  lemma ListsOfUnion(whole: set<Rel>, a: set<Rel>, b: set<Rel>, size: Rel -> int)
    requires whole == a + b && a !! b
    ensures multiset(SortedRels(whole)) == multiset(SortedRels(a) + SortedRels(b))
    ensures |SortedRels(whole)| == |SortedRels(a)| + |SortedRels(b)|
    ensures SumOf(SortedRels(whole), size) == SumOf(SortedRels(a), size) + SumOf(SortedRels(b), size)
  {
    SortedRelsSorts(whole);
    SortedRelsSorts(a);
    SortedRelsSorts(b);
    UnionMultiset(whole, a, b);
    SumPermutation(SortedRels(whole), SortedRels(a) + SortedRels(b), size);
    SumAppend(SortedRels(a), SortedRels(b), size);
  }

  /** When a report says "in sync": exactly when both sides hold the same files and the only
      differing copies are ones the policy moves nowhere. */
  lemma InSyncIff(w: World, d: Report)
    requires d.toPush == SortedRels(PushSet(w, d.policy, true)) && d.toPull == SortedRels(PullSet(w, d.policy, true))
    ensures d.InSync()
       <==> w.local.Keys == w.remote.Keys
            && forall rel :: rel in w.local && rel in w.remote && w.local[rel] != w.remote[rel] ==> Stuck(w, d.policy, rel)
  {
    EmptyLists(w, d.policy);
    NothingPlannedIff(w, d.policy);
  }

  lemma NothingPlannedIff(w: World, policy: Policy)
    ensures PushSet(w, policy, true) == {} && PullSet(w, policy, true) == {}
       <==> w.local.Keys == w.remote.Keys
            && forall rel :: rel in w.local && rel in w.remote && w.local[rel] != w.remote[rel] ==> Stuck(w, policy, rel)
  {
    forall rel | rel in w.Rels()
      ensures rel !in PushSet(w, policy, true) && rel !in PullSet(w, policy, true)
         <==> rel in w.local && rel in w.remote && (w.local[rel] == w.remote[rel] || Stuck(w, policy, rel))
    {
      var v := VerdictOf(w, policy, true, rel);
    }
    assert PushSet(w, policy, true) <= w.Rels() && PullSet(w, policy, true) <= w.Rels();
    assert w.local.Keys <= w.Rels() && w.remote.Keys <= w.Rels();
  }
}
