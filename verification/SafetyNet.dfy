/** SafetyNet (`sync_safetynet.py`): before a pull overwrites local files, their content is
    copied into a run directory. Names point at inodes, so two names may share data. */
module SafetyNet {
  import opened Base

  datatype Content = Bytes(id: int) | LinkTo(target: string)

  /** A name in the tree being synced, or in the current run directory. */
  datatype Name = Home(rel: Rel) | Saved(rel: Rel)

  /** How backing up one file goes: whether ditto works, what a failed ditto leaves behind,
      and whether the plain copy works. */
  datatype CopyScript = CopyScript(ditto: bool, leftover: Option<Content>, copyWorks: bool)

  /** One effect of a pull on the local tree: writing into the file a name points at, which
      all its hard links see, or giving the name a new file. */
  datatype Write = InPlace(rel: Rel, content: Content) | Replacing(rel: Rel, content: Content)

  class FileSystem {
    var names: map<Name, Inode>
    var data: map<Inode, Content>
    var next: Inode

    constructor ()
      ensures Valid() && Separate() && names == map[]
    {
      names, data, next := map[], map[], 0;
    }

    ghost predicate Valid()
      reads this
    {
      && (forall n :: n in names ==> names[n] in data)
      && (forall i :: i in data ==> i < next)
    }

    /** No saved file shares its data with a file of the tree. */
    ghost predicate Separate()
      reads this
    {
      forall a, b :: Home(a) in names && Saved(b) in names ==> names[Home(a)] != names[Saved(b)]
    }

    function ContentOf(n: Name): Option<Content>
      reads this
    {
      ContentIn(n, names, data)
    }

    /** What the tree holds: every name with its content. */
    ghost predicate HomeIsUnchangedSince(oldNames: map<Name, Inode>, oldData: map<Inode, Content>)
      reads this
    {
      && (forall r :: Home(r) in names <==> Home(r) in oldNames)
      && (forall r :: Home(r) in oldNames ==> names[Home(r)] == oldNames[Home(r)])
      && (forall i :: i in oldData && (exists r :: Home(r) in oldNames && oldNames[Home(r)] == i) ==> i in data && data[i] == oldData[i])
    }

    method Create(n: Name, content: Content)
      requires Valid() && n !in names
      modifies this
      ensures Valid() && names == old(names)[n := old(next)] && data == old(data)[old(next) := content]
      ensures next == old(next) + 1
    {
      names := names[n := next];
      data := data[next := content];
      next := next + 1;
    }

    /** Backs up one existing file: away with an older copy, then a symlink for a symlink, or
        ditto, or a plain copy. Every way makes a new file. */
    method BackUpOne(rel: Rel, script: CopyScript) returns (ok: bool)
      requires Valid() && Separate() && Home(rel) in names
      modifies this
      ensures Valid() && Separate()
      ensures HomeIsUnchangedSince(old(names), old(data))
      ensures ok ==> ContentOf(Saved(rel)) == old(ContentOf(Home(rel)))
      ensures ok <==> old(data[names[Home(rel)]]).LinkTo? || script.ditto || script.copyWorks
      ensures forall r :: r != rel ==> ContentOf(Saved(r)) == old(ContentOf(Saved(r)))
    {
      var source := data[names[Home(rel)]];
      if Saved(rel) in names {
        names := names - {Saved(rel)};
      }
      if source.LinkTo? {
        Create(Saved(rel), source);
        return true;
      }
      if script.ditto {
        Create(Saved(rel), source);
        return true;
      }
      if script.leftover.Some? {
        Create(Saved(rel), script.leftover.value);
      }
      if !script.copyWorks {
        return false;
      }
      if Saved(rel) in names {
        data := data[names[Saved(rel)] := source];
      } else {
        Create(Saved(rel), source);
      }
      ok := true;
    }

    /** `backup_before_overwrite`: nothing, or the number of files backed up. */
    method BackupBeforeOverwrite(rels: seq<Rel>, scripts: nat -> CopyScript) returns (saved: Option<nat>)
      requires Valid() && Separate()
      modifies this
      ensures Valid() && Separate()
      ensures HomeIsUnchangedSince(old(names), old(data))
      ensures saved.Some? ==> forall r :: r in rels && Home(r) in old(names) ==> ContentOf(Saved(r)) == old(ContentOf(Home(r)))
      ensures saved.Some? ==> saved.value == Existing(rels, old(names))
      ensures saved.Some? <==> AllCopied(rels, scripts, old(names), old(data))
    {
      var n := 0;
      for i := 0 to |rels|
        invariant Valid() && Separate() && HomeIsUnchangedSince(old(names), old(data))
        invariant AllSaved(rels[..i], old(names), old(data), names, data)
        invariant n == Existing(rels[..i], old(names))
        invariant AllCopied(rels[..i], scripts, old(names), old(data))
      {
        OneMoreExists(rels, i, old(names));
        ghost var names0, data0 := names, data;
        if Home(rels[i]) in names {
          SameSource(old(names), old(data), rels[i]);
          var ok := BackUpOne(rels[i], scripts(i));
          if !ok {
            return None;
          }
          n := n + 1;
        }
        OneMoreSaved(rels, i, old(names), old(data), names0, data0, names, data);
        OneMoreCopied(rels, i, scripts, old(names), old(data));
      }
      assert rels[..|rels|] == rels;
      saved := Some(n);
    }

    lemma SameSource(oldNames: map<Name, Inode>, oldData: map<Inode, Content>, rel: Rel)
      requires Valid() && HomeIsUnchangedSince(oldNames, oldData) && Home(rel) in oldNames && oldNames[Home(rel)] in oldData
      ensures Home(rel) in names && names[Home(rel)] in data && data[names[Home(rel)]] == oldData[oldNames[Home(rel)]]
    {}

    /** One write of a transfer into the tree. */
    method WriteHome(w: Write)
      requires Valid() && Separate()
      modifies this
      ensures Valid() && Separate()
      ensures forall r :: ContentOf(Saved(r)) == old(ContentOf(Saved(r)))
      ensures ContentOf(Home(w.rel)) == Some(w.content)
      ensures forall r :: Home(r) in old(names) ==> Home(r) in names
    {
      if w.InPlace? && Home(w.rel) in names {
        data := data[names[Home(w.rel)] := w.content];
      } else {
        names := names - {Home(w.rel)};
        Create(Home(w.rel), w.content);
      }
    }

    /** The order of `sync_home`: back up what the pull will overwrite as far as the local
        inventory knows it, and pull only if that worked. Whatever the pull then writes, in
        place or not, the run directory holds the content these files had before. */
    method PullUnderSafetyNet(toPull: seq<Rel>, localInv: set<Rel>, scripts: nat -> CopyScript, writes: seq<Write>)
      returns (pulled: bool)
      requires Valid() && Separate()
      modifies this
      ensures Valid() && Separate()
      ensures pulled ==> forall r :: r in toPull && r in localInv && Home(r) in old(names) ==>
                           ContentOf(Saved(r)) == old(ContentOf(Home(r)))
      ensures !pulled ==> HomeIsUnchangedSince(old(names), old(data))
      ensures pulled <==> AllCopied(KeepOnly(toPull, localInv), scripts, old(names), old(data))
      ensures pulled ==> forall w :: w in writes ==> Home(w.rel) in names
      ensures pulled && writes != [] ==> ContentOf(Home(writes[|writes| - 1].rel)) == Some(writes[|writes| - 1].content)
    {
      // the pulled files the local inventory lists
      var overwrite := KeepOnly(toPull, localInv);
      KeepOnlyElems(toPull, localInv);
      InElems(toPull);
      InElems(overwrite);
      var saved := BackupBeforeOverwrite(overwrite, scripts);
      if saved.None? {
        return false;
      }
      for i := 0 to |writes|
        invariant Valid() && Separate()
        invariant forall r :: r in overwrite && Home(r) in old(names) ==> ContentOf(Saved(r)) == old(ContentOf(Home(r)))
        invariant forall k :: 0 <= k < i ==> Home(writes[k].rel) in names
        invariant i > 0 ==> ContentOf(Home(writes[i - 1].rel)) == Some(writes[i - 1].content)
      {
        WriteHome(writes[i]);
      }
      pulled := true;
    }
  }

  /** A symlink is copied by itself, a file by ditto or else by a plain copy. */
  ghost predicate Copies(rel: Rel, script: CopyScript, names: map<Name, Inode>, data: map<Inode, Content>) {
    Home(rel) in names && names[Home(rel)] in data && (data[names[Home(rel)]].LinkTo? || script.ditto || script.copyWorks)
  }

  function ContentIn(n: Name, names: map<Name, Inode>, data: map<Inode, Content>): Option<Content> {
    if n in names && names[n] in data then Some(data[names[n]]) else None
  }

  /** Every listed file that existed is saved with its content. */
  ghost predicate AllSaved(rels: seq<Rel>, names0: map<Name, Inode>, data0: map<Inode, Content>, names: map<Name, Inode>, data: map<Inode, Content>) {
    forall r :: r in rels && Home(r) in names0 ==> ContentIn(Saved(r), names, data) == ContentIn(Home(r), names0, data0)
  }

  lemma OneMoreExists(rels: seq<Rel>, i: nat, names: map<Name, Inode>)
    requires i < |rels|
    ensures Existing(rels[..i + 1], names) == Existing(rels[..i], names) + if Home(rels[i]) in names then 1 else 0
  {
    assert rels[..i + 1][..i] == rels[..i];
  }

  lemma OneMoreSaved(rels: seq<Rel>, i: nat, names0: map<Name, Inode>, data0: map<Inode, Content>,
                     names1: map<Name, Inode>, data1: map<Inode, Content>, names2: map<Name, Inode>, data2: map<Inode, Content>)
    requires i < |rels| && AllSaved(rels[..i], names0, data0, names1, data1)
    requires forall r :: r != rels[i] ==> ContentIn(Saved(r), names2, data2) == ContentIn(Saved(r), names1, data1)
    requires Home(rels[i]) in names0 ==> ContentIn(Saved(rels[i]), names2, data2) == ContentIn(Home(rels[i]), names0, data0)
    ensures AllSaved(rels[..i + 1], names0, data0, names2, data2)
  {
    forall r | r in rels[..i + 1] && Home(r) in names0
      ensures ContentIn(Saved(r), names2, data2) == ContentIn(Home(r), names0, data0)
    {
      assert r in rels[..i] || r == rels[i];
    }
  }

  lemma OneMoreCopied(rels: seq<Rel>, i: nat, scripts: nat -> CopyScript, names: map<Name, Inode>, data: map<Inode, Content>)
    requires i < |rels|
    ensures AllCopied(rels[..i + 1], scripts, names, data) <==>
              AllCopied(rels[..i], scripts, names, data) && (Home(rels[i]) in names ==> Copies(rels[i], scripts(i), names, data))
    ensures !AllCopied(rels[..i + 1], scripts, names, data) ==> !AllCopied(rels, scripts, names, data)
  {
    var longer := rels[..i + 1];
    forall k | 0 <= k < |longer| ensures longer[k] == rels[k] && (k < i ==> rels[..i][k] == rels[k]) {}
    if AllCopied(longer, scripts, names, data) {
      forall k | 0 <= k < i && Home(rels[..i][k]) in names ensures Copies(rels[..i][k], scripts(k), names, data) { assert longer[k] == rels[k]; }
      assert longer[i] == rels[i];
    }
    if AllCopied(rels, scripts, names, data) {
      forall k | 0 <= k < |longer| && Home(longer[k]) in names ensures Copies(longer[k], scripts(k), names, data) { assert longer[k] == rels[k]; }
    }
  }

  /** Every listed file that exists could be copied. */
  ghost predicate AllCopied(rels: seq<Rel>, scripts: nat -> CopyScript, names: map<Name, Inode>, data: map<Inode, Content>) {
    forall i :: 0 <= i < |rels| && Home(rels[i]) in names ==> Copies(rels[i], scripts(i), names, data)
  }

  /** How many entries of the list exist. */
  ghost function Existing(rels: seq<Rel>, names: map<Name, Inode>): nat {
    if rels == [] then 0 else
      Existing(rels[..|rels| - 1], names) + if Home(rels[|rels| - 1]) in names then 1 else 0
  }

  /** Why the copies own their data: were the backup a hard link, an in-place write would
      overwrite it together with the original. */
  method HardLinkIsNoBackup(rel: Rel, before: Content, after: Content) returns (fs: FileSystem)
    requires before != after
    ensures fs.ContentOf(Saved(rel)) == Some(after) != Some(before)
  {
    fs := new FileSystem();
    fs.Create(Home(rel), before);
    fs.names := fs.names[Saved(rel) := fs.names[Home(rel)]];
    fs.data := fs.data[fs.names[Home(rel)] := after];
  }

  // ----- pruning -------------------------------------------------------------------------------

  predicate Digit(c: char) { '0' <= c <= '9' }

  /** Run directories are named by a UTC stamp such as 20260131T235959Z. */
  predicate IsStamp(name: string) {
    |name| == 16 && name[8] == 'T' && name[15] == 'Z'
    && (forall i :: 0 <= i < 8 ==> Digit(name[i])) && (forall i :: 9 <= i < 15 ==> Digit(name[i]))
  }

  function Stamped(names: seq<string>): seq<string> {
    if names == [] then [] else
      Stamped(names[..|names| - 1]) + if IsStamp(names[|names| - 1]) then [names[|names| - 1]] else []
  }

  ghost predicate Digits(s: string, n: nat) {
    |s| == n && forall c :: c in s ==> 48 <= c as int <= 57
  }

  /** Eight digits, a T, six digits and a Z. */
  ghost predicate HasStamp(name: string) {
    exists day, time :: Digits(day, 8) && Digits(time, 6) && name == day + "T" + time + "Z"
  }

  lemma IsStampIff(name: string)
    ensures IsStamp(name) <==> HasStamp(name)
  {
    if IsStamp(name) {
      var day, time := name[..8], name[9..15];
      forall c | c in day ensures 48 <= c as int <= 57 { var i :| 0 <= i < 8 && day[i] == c; assert Digit(name[i]); }
      forall c | c in time ensures 48 <= c as int <= 57 { var i :| 0 <= i < 6 && time[i] == c; assert Digit(name[i + 9]); }
      assert name == day + "T" + time + "Z";
      assert Digits(day, 8) && Digits(time, 6);
    }
    if day, time :| Digits(day, 8) && Digits(time, 6) && name == day + "T" + time + "Z" {
      assert |name| == 16 && name[8] == 'T' && name[15] == 'Z';
      forall i | 0 <= i < 8 ensures Digit(name[i]) { assert name[i] == day[i] && day[i] in day; }
      forall i | 9 <= i < 15 ensures Digit(name[i]) { assert name[i] == time[i - 9] && time[i - 9] in time; }
    }
  }

  lemma {:induction false} StampedAre(names: seq<string>)
    ensures forall n :: multiset(Stamped(names))[n] == if HasStamp(n) then multiset(names)[n] else 0
  {
    if names != [] {
      var last := names[|names| - 1];
      StampedAre(names[..|names| - 1]);
      IsStampIff(last);
      assert names == names[..|names| - 1] + [last];
    }
  }

  /** `prune_old_runs`: the stale directories, all but the newest `keep`. The stamps sort by
      name; the source sorts newest first, so what it keeps is the end of the sorted list. */
  method PruneOldRuns(names: seq<string>, keep: nat) returns (stale: seq<string>, kept: seq<string>)
    ensures multiset(stale + kept) == multiset(Stamped(names))
    ensures forall n :: multiset(stale + kept)[n] == if HasStamp(n) then multiset(names)[n] else 0
    ensures |kept| == if |Stamped(names)| < keep then |Stamped(names)| else keep
    ensures forall a, b :: a in stale && b in kept ==> RelLe(a, b)
  {
    var runs := Sort(Stamped(names), RelLe);
    RelLeIsTotalOrder();
    SortSorts(Stamped(names), RelLe);
    assert |runs| == |multiset(runs)| == |multiset(Stamped(names))|;
    var cut := if |runs| < keep then 0 else |runs| - keep;
    stale, kept := runs[..cut], runs[cut..];
    assert stale + kept == runs;
    StampedAre(names);
    FrontIsOlder(runs, cut);
  }

  lemma FrontIsOlder(runs: seq<string>, cut: nat)
    requires cut <= |runs| && Sorted(runs, RelLe)
    ensures forall a, b :: a in runs[..cut] && b in runs[cut..] ==> RelLe(a, b)
  {
    forall a, b | a in runs[..cut] && b in runs[cut..] ensures RelLe(a, b) {
      var i :| 0 <= i < cut && runs[..cut][i] == a;
      var j :| 0 <= j < |runs[cut..]| && runs[cut..][j] == b;
      assert runs[i] == a && runs[cut + j] == b;
    }
  }

  /** The run in use survives: its stamp is the newest, and at least one run is kept. */
  lemma NewestRunIsKept(stamps: seq<string>, stale: seq<string>, kept: seq<string>, current: string)
    requires multiset(stale + kept) == multiset(stamps)
    requires kept != [] && forall a, b :: a in stale && b in kept ==> RelLe(a, b)
    requires current in stamps && forall s :: s in stamps ==> RelLe(s, current)
    ensures current in kept
  {
    var all := stale + kept;
    assert current in multiset(all);
    if current !in kept {
      assert current in stale;
      var b := kept[0];
      assert b in multiset(all) && b in stamps;
      RelLeTotal(current, b);
    }
  }
}
