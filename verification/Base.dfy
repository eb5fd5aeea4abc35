/** Vocabulary shared by every part of the model: relative paths and their
    order, library sorting, and sums over sequences. */
module Base {
  datatype Option<+T> = None | Some(value: T)

  /** A path relative to a sync root, as the inventories spell it. */
  type Rel = string

  type Byte = b: int | 0 <= b < 256

  /** A file as the kernel knows it, apart from its names. */
  type Inode = nat

  /** What Python's `strip`, `isspace` and regular expressions take for white space. */
  predicate Space(c: char) {
    '\t' <= c <= '\r' || '\U{1C}' <= c <= ' ' || c == '\U{85}' || c == '\U{A0}' || c == '\U{1680}'
    || '\U{2000}' <= c <= '\U{200A}' || c == '\U{2028}' || c == '\U{2029}' || c == '\U{202F}' || c == '\U{205F}' || c == '\U{3000}'
  }

  /** Nothing but white space, by its code points. */
  ghost predicate Blanks(s: string) {
    forall c :: c in s ==>
      var n := c as int;
      9 <= n <= 13 || 28 <= n <= 32 || n == 0x85 || n == 0xA0 || n == 0x1680 || 0x2000 <= n <= 0x200A
      || n == 0x2028 || n == 0x2029 || n == 0x202F || n == 0x205F || n == 0x3000
  }

  lemma SpaceIs(c: char)
    ensures Space(c) <==> Blanks([c])
  {
    assert c in [c];
  }

  function Elems<T>(s: seq<T>): set<T> {
    set x | x in s
  }

  lemma InElems<T>(s: seq<T>)
    ensures forall x :: x in s <==> x in Elems(s)
  {}

  ghost predicate NoDups<T>(s: seq<T>) {
    forall i, j :: 0 <= i < j < |s| ==> s[i] != s[j]
  }

  lemma Reassociate<T>(a: seq<T>, b: seq<T>, c: seq<T>)
    ensures a + b + c == a + (b + c)
  {}

  function Get<T>(m: map<Rel, T>, r: Rel): Option<T> {
    if r in m then Some(m[r]) else None
  }

  // ----- total orders ---------------------------------------------------------

  ghost predicate TotalOrder<T(!new)>(le: (T, T) -> bool) {
    && (forall a, b :: le(a, b) || le(b, a))
    && (forall a, b :: le(a, b) && le(b, a) ==> a == b)
    && (forall a, b, c :: le(a, b) && le(b, c) ==> le(a, c))
  }

  ghost predicate Sorted<T>(s: seq<T>, le: (T, T) -> bool) {
    forall i, j :: 0 <= i < j < |s| ==> le(s[i], s[j])
  }

  /** Code point order on strings, the order of Python's `list.sort` on paths. */
  predicate RelLe(a: Rel, b: Rel) {
    a == [] || (b != [] && (a[0] < b[0] || (a[0] == b[0] && RelLe(a[1..], b[1..]))))
  }

  /** It is the lexicographic order: a path comes first if it is the front of the other, or if it has
      the smaller character where the two first differ. */
  lemma {:induction false} RelLeIff(a: Rel, b: Rel)
    ensures RelLe(a, b) <==> a <= b || exists i :: 0 <= i < |a| && i < |b| && a[..i] == b[..i] && a[i] < b[i]
  {
    if a != [] && b != [] {
      assert a == [a[0]] + a[1..] && b == [b[0]] + b[1..];
      RelLeIff(a[1..], b[1..]);
      if a[0] < b[0] {
        assert a[..0] == b[..0];
      } else if a[0] == b[0] {
        SameHead(a, b);
      } else {
        forall i | 0 < i < |a| && i < |b| ensures a[..i] != b[..i] { OtherHead(a, b, i); }
      }
    }
  }

  lemma OtherHead(a: Rel, b: Rel, i: nat)
    requires 0 < i <= |a| && i <= |b| && a[0] != b[0]
    ensures a[..i] != b[..i]
  {
    assert a[..i][0] != b[..i][0];
  }

  lemma SameHead(a: Rel, b: Rel)
    requires a != [] && b != [] && a[0] == b[0]
    ensures a <= b <==> a[1..] <= b[1..]
    ensures (exists i :: 0 <= i < |a| && i < |b| && a[..i] == b[..i] && a[i] < b[i])
       <==> (exists i :: 0 <= i < |a[1..]| && i < |b[1..]| && a[1..][..i] == b[1..][..i] && a[1..][i] < b[1..][i])
  {
    assert a == [a[0]] + a[1..] && b == [b[0]] + b[1..];
    if i :| 0 <= i < |a| && i < |b| && a[..i] == b[..i] && a[i] < b[i] {
      assert a[1..][..i - 1] == a[..i][1..] && b[1..][..i - 1] == b[..i][1..];
      assert a[1..][i - 1] < b[1..][i - 1];
    }
    if i :| 0 <= i < |a[1..]| && i < |b[1..]| && a[1..][..i] == b[1..][..i] && a[1..][i] < b[1..][i] {
      assert a[..i + 1] == [a[0]] + a[1..][..i] && b[..i + 1] == [b[0]] + b[1..][..i];
      assert a[i + 1] < b[i + 1];
    }
  }

  lemma {:induction false} RelLeTotal(a: Rel, b: Rel)
    ensures RelLe(a, b) || RelLe(b, a)
    ensures RelLe(a, b) && RelLe(b, a) ==> a == b
  {
    if a != [] && b != [] && a[0] == b[0] {
      RelLeTotal(a[1..], b[1..]);
      assert a == [a[0]] + a[1..] && b == [b[0]] + b[1..];
    }
  }

  lemma {:induction false} RelLeTransitive(a: Rel, b: Rel, c: Rel)
    requires RelLe(a, b) && RelLe(b, c)
    ensures RelLe(a, c)
  {
    if a != [] && a[0] == b[0] && b[0] == c[0] {
      RelLeTransitive(a[1..], b[1..], c[1..]);
    }
  }

  lemma RelLeIsTotalOrder()
    ensures TotalOrder(RelLe)
  {
    forall a, b ensures (RelLe(a, b) || RelLe(b, a)) && (RelLe(a, b) && RelLe(b, a) ==> a == b) {
      RelLeTotal(a, b);
    }
    forall a, b, c | RelLe(a, b) && RelLe(b, c) ensures RelLe(a, c) {
      RelLeTransitive(a, b, c);
    }
  }

  // ----- sorting --------------------------------------------------------------

  function Insert<T>(x: T, s: seq<T>, le: (T, T) -> bool): seq<T> {
    if s == [] || le(x, s[0]) then [x] + s else [s[0]] + Insert(x, s[1..], le)
  }

  /** The library sort: what it returns is fixed by SortSorts and SortedUnique. */
  function Sort<T>(s: seq<T>, le: (T, T) -> bool): seq<T> {
    if s == [] then [] else Insert(s[0], Sort(s[1..], le), le)
  }

  lemma {:induction false} InsertSorts<T(!new)>(x: T, s: seq<T>, le: (T, T) -> bool)
    requires TotalOrder(le) && Sorted(s, le)
    ensures Sorted(Insert(x, s, le), le)
    ensures multiset(Insert(x, s, le)) == multiset{x} + multiset(s)
  {
    if s != [] && !le(x, s[0]) {
      var t := Insert(x, s[1..], le);
      InsertSorts(x, s[1..], le);
      WithoutHead(s);
      HeadBelow(x, s, t, le);
    }
  }

  lemma HeadBelow<T(!new)>(x: T, s: seq<T>, t: seq<T>, le: (T, T) -> bool)
    requires TotalOrder(le) && s != [] && Sorted(s, le) && Sorted(t, le) && !le(x, s[0])
    requires multiset(t) == multiset{x} + multiset(s[1..])
    ensures Sorted([s[0]] + t, le)
  {
    forall j | 0 <= j < |t| ensures le(s[0], t[j]) {
      assert t[j] in multiset(t);
      assert t[j] == x || t[j] in s[1..];
    }
  }

  lemma {:induction false} SortSorts<T(!new)>(s: seq<T>, le: (T, T) -> bool)
    requires TotalOrder(le)
    ensures Sorted(Sort(s, le), le)
    ensures multiset(Sort(s, le)) == multiset(s)
  {
    if s != [] {
      SortSorts(s[1..], le);
      InsertSorts(s[0], Sort(s[1..], le), le);
      assert s == [s[0]] + s[1..];
    }
  }

  lemma {:induction false} SortedUnique<T(!new)>(s: seq<T>, t: seq<T>, le: (T, T) -> bool)
    requires TotalOrder(le) && Sorted(s, le) && Sorted(t, le)
    requires multiset(s) == multiset(t)
    ensures s == t
  {
    assert |s| == |multiset(s)| == |multiset(t)| == |t|;
    if s != [] {
      assert s[0] in multiset(s) && t[0] in multiset(t);
      LeastFirst(s, t[0], le);
      LeastFirst(t, s[0], le);
      WithoutHead(s);
      WithoutHead(t);
      SortedUnique(s[1..], t[1..], le);
    }
  }

  lemma LeastFirst<T(!new)>(s: seq<T>, x: T, le: (T, T) -> bool)
    requires TotalOrder(le) && Sorted(s, le) && x in multiset(s)
    ensures s != [] && le(s[0], x)
  {
    var i :| 0 <= i < |s| && s[i] == x;
  }

  lemma WithoutHead<T>(s: seq<T>)
    requires s != []
    ensures s == [s[0]] + s[1..] && multiset(s[1..]) == multiset(s) - multiset{s[0]}
  {
    assert s == [s[0]] + s[1..];
  }

  lemma WithoutIndex<T>(s: seq<T>, j: nat)
    requires j < |s|
    ensures s == s[..j] + ([s[j]] + s[j + 1..])
    ensures multiset(s[..j] + s[j + 1..]) == multiset(s) - multiset{s[j]}
  {
    assert s == s[..j] + ([s[j]] + s[j + 1..]);
  }

  /** The sorted list of a set of paths: what sorting its members in any order gives. */
  ghost function SortedRels(s: set<Rel>): seq<Rel> {
    if s == {} then [] else
      var x :| x in s;
      Insert(x, SortedRels(s - {x}), RelLe)
  }

  lemma {:induction false} SortedRelsSorts(s: set<Rel>)
    ensures Sorted(SortedRels(s), RelLe)
    ensures multiset(SortedRels(s)) == multiset(s)
    ensures Elems(SortedRels(s)) == s && NoDups(SortedRels(s)) && |SortedRels(s)| == |s|
  {
    if s != {} {
      var x :| x in s && SortedRels(s) == Insert(x, SortedRels(s - {x}), RelLe);
      SortedRelsSorts(s - {x});
      RelLeIsTotalOrder();
      InsertSorts(x, SortedRels(s - {x}), RelLe);
      TakenOut(s, x);
    }
    NoDupsIff(SortedRels(s), s);
  }

  lemma TakenOut<T>(s: set<T>, x: T)
    requires x in s
    ensures multiset(s) == multiset{x} + multiset(s - {x})
  {}

  /** A list is the duplicate-free listing of a set exactly when their multisets agree. */
  lemma {:induction false} NoDupsIff<T>(l: seq<T>, s: set<T>)
    ensures multiset(l) == multiset(s) <==> NoDups(l) && Elems(l) == s
    ensures multiset(l) == multiset(s) ==> |l| == |s|
  {
    if multiset(l) == multiset(s) {
      forall i, j | 0 <= i < j < |l| ensures l[i] != l[j] {
        var before, after := l[..j], l[j + 1..];
        assert l == before + ([l[j]] + after);
        assert before[i] == l[i] && multiset(before)[l[i]] > 0;
        assert multiset(l)[l[j]] == multiset(before)[l[j]] + 1 + multiset(after)[l[j]];
        assert multiset(s)[l[j]] <= 1;
      }
      assert |multiset(l)| == |l|;
      forall x ensures x in Elems(l) <==> x in s {
        assert x in multiset(l) <==> x in multiset(s);
      }
    }
    if NoDups(l) && Elems(l) == s {
      NoDupsMultiset(l);
    }
  }

  lemma {:induction false} NoDupsMultiset<T>(l: seq<T>)
    requires NoDups(l)
    ensures multiset(l) == multiset(Elems(l))
  {
    if l != [] {
      var n := |l| - 1;
      NoDupsMultiset(l[..n]);
      assert l == l[..n] + [l[n]];
      assert l[n] !in Elems(l[..n]);
      assert Elems(l) == Elems(l[..n]) + {l[n]};
    }
  }

  lemma SortIsSortedRels(l: seq<Rel>, s: set<Rel>)
    requires multiset(l) == multiset(s)
    ensures Sort(l, RelLe) == SortedRels(s)
  {
    RelLeIsTotalOrder();
    SortSorts(l, RelLe);
    SortedRelsSorts(s);
    SortedUnique(Sort(l, RelLe), SortedRels(s), RelLe);
  }

  // ----- thinning a list -----------------------------------------------------

  function KeepOnly(rels: seq<Rel>, keep: set<Rel>): seq<Rel> {
    if rels == [] then [] else
      KeepOnly(rels[..|rels| - 1], keep) + if rels[|rels| - 1] in keep then [rels[|rels| - 1]] else []
  }

  /** What thinning a list to a set means: every path to be kept stays as often as it was and no
      other stays, and a sorted list without repeats stays one. */
  ghost predicate Thinned(rels: seq<Rel>, keep: set<Rel>, out: seq<Rel>) {
    && (forall r :: multiset(out)[r] == if r in keep then multiset(rels)[r] else 0)
    && (rels == SortedRels(Elems(rels)) ==> out == SortedRels(Elems(rels) * keep))
  }

  lemma {:induction false} KeepOnlyCounts(rels: seq<Rel>, keep: set<Rel>)
    ensures forall r :: multiset(KeepOnly(rels, keep))[r] == if r in keep then multiset(rels)[r] else 0
  {
    if rels != [] {
      KeepOnlyCounts(rels[..|rels| - 1], keep);
      assert rels == rels[..|rels| - 1] + [rels[|rels| - 1]];
    }
  }

  /** The order is that of the list: thinning goes part by part. */
  lemma {:induction false} KeepOnlySum(a: seq<Rel>, b: seq<Rel>, keep: set<Rel>)
    ensures KeepOnly(a + b, keep) == KeepOnly(a, keep) + KeepOnly(b, keep)
  {
    if b == [] {
      assert a + b == a;
    } else {
      var n := |b| - 1;
      assert (a + b)[..|a| + n] == a + b[..n];
      KeepOnlySum(a, b[..n], keep);
      Reassociate(KeepOnly(a, keep), KeepOnly(b[..n], keep), if b[n] in keep then [b[n]] else []);
    }
  }

  lemma {:induction false} KeepOnlySorted(rels: seq<Rel>, keep: set<Rel>)
    requires Sorted(rels, RelLe)
    ensures Sorted(KeepOnly(rels, keep), RelLe)
  {
    if rels != [] {
      var n := |rels| - 1;
      KeepOnlySorted(rels[..n], keep);
      KeepOnlyElems(rels[..n], keep);
      forall x | x in KeepOnly(rels[..n], keep) ensures RelLe(x, rels[n]) {
        assert x in Elems(KeepOnly(rels[..n], keep));
        var i :| 0 <= i < n && rels[..n][i] == x;
        assert rels[i] == x;
      }
    }
  }

  lemma KeepOnlyThins(rels: seq<Rel>, keep: set<Rel>)
    ensures Thinned(rels, keep, KeepOnly(rels, keep))
  {
    KeepOnlyCounts(rels, keep);
    if rels == SortedRels(Elems(rels)) {
      ThinnedList(rels, keep);
    }
  }

  lemma ThinnedList(rels: seq<Rel>, keep: set<Rel>)
    requires rels == SortedRels(Elems(rels))
    ensures KeepOnly(rels, keep) == SortedRels(Elems(rels) * keep)
  {
    var out, set_ := KeepOnly(rels, keep), Elems(rels) * keep;
    SortedRelsSorts(Elems(rels));
    SortedRelsSorts(set_);
    KeepOnlySorted(rels, keep);
    KeepOnlyCounts(rels, keep);
    forall r ensures multiset(out)[r] == multiset(set_)[r] {
      assert multiset(rels)[r] == multiset(Elems(rels))[r];
    }
    assert multiset(out) == multiset(SortedRels(set_));
    RelLeIsTotalOrder();
    SortedUnique(out, SortedRels(set_), RelLe);
  }

  lemma KeepOnlyElems(rels: seq<Rel>, keep: set<Rel>)
    ensures Elems(KeepOnly(rels, keep)) == Elems(rels) * keep
  {
    KeepOnlyCounts(rels, keep);
    ThinnedElems(rels, keep, KeepOnly(rels, keep));
  }

  lemma ThinnedElems(rels: seq<Rel>, keep: set<Rel>, out: seq<Rel>)
    requires forall r :: multiset(out)[r] == if r in keep then multiset(rels)[r] else 0
    ensures Elems(out) == Elems(rels) * keep
  {
    forall r ensures r in out <==> r in rels && r in keep {
      assert r in out <==> multiset(out)[r] > 0;
      assert r in rels <==> multiset(rels)[r] > 0;
    }
  }

  // ----- sums -----------------------------------------------------------------

  function SumOf<T>(s: seq<T>, f: T -> int): int {
    if s == [] then 0 else f(s[0]) + SumOf(s[1..], f)
  }

  lemma {:induction false} SumAppend<T>(s: seq<T>, t: seq<T>, f: T -> int)
    ensures SumOf(s + t, f) == SumOf(s, f) + SumOf(t, f)
  {
    if s == [] {
      assert s + t == t;
    } else {
      assert (s + t)[1..] == s[1..] + t;
      SumAppend(s[1..], t, f);
    }
  }

  lemma SumSnoc<T>(s: seq<T>, x: T, f: T -> int)
    ensures SumOf(s + [x], f) == SumOf(s, f) + f(x)
  {
    SumAppend(s, [x], f);
    assert [x][1..] == [];
  }

  lemma {:induction false} SumPermutation<T>(s: seq<T>, t: seq<T>, f: T -> int)
    requires multiset(s) == multiset(t)
    ensures SumOf(s, f) == SumOf(t, f)
  {
    if s == [] {
      assert |multiset(t)| == |t|;
    } else {
      assert s[0] in multiset(t);
      var j :| 0 <= j < |t| && t[j] == s[0];
      WithoutHead(s);
      WithoutIndex(t, j);
      SumPermutation(s[1..], t[..j] + t[j + 1..], f);
      SumWithoutIndex(t, j, f);
    }
  }

  lemma SumCons<T>(x: T, s: seq<T>, f: T -> int)
    ensures SumOf([x] + s, f) == f(x) + SumOf(s, f)
  {
    assert ([x] + s)[1..] == s;
  }

  lemma SumWithoutIndex<T>(t: seq<T>, j: nat, f: T -> int)
    requires j < |t|
    ensures SumOf(t, f) == SumOf(t[..j] + t[j + 1..], f) + f(t[j])
  {
    var front, back := t[..j], t[j + 1..];
    WithoutIndex(t, j);
    SumMiddle(front, t[j], back, f);
  }

  lemma SumMiddle<T>(front: seq<T>, x: T, back: seq<T>, f: T -> int)
    ensures SumOf(front + ([x] + back), f) == SumOf(front + back, f) + f(x)
  {
    SumCons(x, back, f);
    SumAppend(front, [x] + back, f);
    SumAppend(front, back, f);
  }

  lemma {:induction false} SumNonNegative<T>(s: seq<T>, f: T -> int)
    requires forall x :: x in s ==> f(x) >= 0
    ensures SumOf(s, f) >= 0
  {
    if s != [] {
      SumNonNegative(s[1..], f);
    }
  }
}
