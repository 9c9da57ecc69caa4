/**
  `Array.prototype.sort` with a comparator, as a stable insertion sort: each
  element, taken in order, goes after every element already placed that the
  comparator does not put after it. For a comparator that is a total preorder
  this is the one stable sort; for any comparator the result is a permutation.
*/
module Sorting {

  /** Puts `x` into `t`, behind the last element `e` with `cmp(e, x) <= 0`. */
  function Insert<T>(t: seq<T>, x: T, cmp: (T, T) -> real): (r: seq<T>)
    ensures |r| == |t| + 1
  {
    if t == [] then [x]
    else if cmp(t[|t| - 1], x) <= 0.0 then t + [x]
    else Insert(t[..|t| - 1], x, cmp) + [t[|t| - 1]]
  }

  /** `[...s].sort(cmp)`. */
  function Sort<T>(s: seq<T>, cmp: (T, T) -> real): (r: seq<T>)
    ensures |r| == |s|
  {
    if s == [] then [] else Insert(Sort(s[..|s| - 1], cmp), s[|s| - 1], cmp)
  }

  /** Inserting adds `x` to the elements and loses none. */
  lemma {:induction false} InsertPermutes<T>(t: seq<T>, x: T, cmp: (T, T) -> real)
    ensures multiset(Insert(t, x, cmp)) == multiset(t) + multiset{x}
  {
    if t != [] && cmp(t[|t| - 1], x) > 0.0 {
      var init, last := t[..|t| - 1], t[|t| - 1];
      InsertPermutes(init, x, cmp);
      assert t == init + [last];
    }
  }

  /** Whatever the comparator, the result is a permutation of the input. */
  lemma {:induction false} SortPermutes<T>(s: seq<T>, cmp: (T, T) -> real)
    ensures multiset(Sort(s, cmp)) == multiset(s)
  {
    if s != [] {
      var init := s[..|s| - 1];
      SortPermutes(init, cmp);
      InsertPermutes(Sort(init, cmp), s[|s| - 1], cmp);
      assert s == init + [s[|s| - 1]];
    }
  }

  /** No element is put after a later one. */
  predicate Sorted<T>(s: seq<T>, cmp: (T, T) -> real)
  {
    forall i, j :: 0 <= i < j < |s| ==> cmp(s[i], s[j]) <= 0.0
  }

  /** On the elements of `dom`, `cmp` orders every pair and is transitive. */
  ghost predicate TotalPreorderOn<T(!new)>(cmp: (T, T) -> real, dom: multiset<T>)
  {
    (forall a, b {:trigger InDomain(dom, a), InDomain(dom, b)} ::
       InDomain(dom, a) && InDomain(dom, b) ==> cmp(a, b) <= 0.0 || cmp(b, a) <= 0.0)
    && (forall a, b, c {:trigger InDomain(dom, a), InDomain(dom, b), InDomain(dom, c)} ::
          InDomain(dom, a) && InDomain(dom, b) && InDomain(dom, c) && cmp(a, b) <= 0.0 && cmp(b, c) <= 0.0
          ==> cmp(a, c) <= 0.0)
  }

  /** `a` is one of the elements the comparator is asked about. */
  predicate InDomain<T>(dom: multiset<T>, a: T)
  {
    a in dom
  }

  /** A total preorder on some elements is one on any of them. */
  lemma PreorderOnFewer<T(!new)>(cmp: (T, T) -> real, dom: multiset<T>, fewer: multiset<T>)
    requires TotalPreorderOn(cmp, dom) && fewer <= dom
    ensures TotalPreorderOn(cmp, fewer)
  {
    forall a, b | InDomain(fewer, a) && InDomain(fewer, b)
      ensures cmp(a, b) <= 0.0 || cmp(b, a) <= 0.0
    {
      Total(cmp, dom, a, b);
    }
    forall a, b, c | InDomain(fewer, a) && InDomain(fewer, b) && InDomain(fewer, c) && cmp(a, b) <= 0.0 && cmp(b, c) <= 0.0
      ensures cmp(a, c) <= 0.0
    {
      Transitive(cmp, dom, a, b, c);
    }
  }

  /** Where `Insert` puts `x`: behind the last element the comparator does not put after `x`. */
  function InsertPos<T>(t: seq<T>, x: T, cmp: (T, T) -> real): (k: nat)
    ensures k <= |t|
    ensures forall j :: k <= j < |t| ==> cmp(t[j], x) > 0.0
    ensures k > 0 ==> cmp(t[k - 1], x) <= 0.0
  {
    if t == [] then 0
    else if cmp(t[|t| - 1], x) <= 0.0 then |t|
    else InsertPos(t[..|t| - 1], x, cmp)
  }

  /** `Insert` keeps the elements before the insertion point, puts `x` there, and shifts the rest by one. */
  lemma {:induction false} InsertAt<T>(t: seq<T>, x: T, cmp: (T, T) -> real)
    ensures |Insert(t, x, cmp)| == |t| + 1
    ensures Insert(t, x, cmp)[InsertPos(t, x, cmp)] == x
    ensures forall i :: 0 <= i < InsertPos(t, x, cmp) ==> Insert(t, x, cmp)[i] == t[i]
    ensures forall i :: InsertPos(t, x, cmp) < i <= |t| ==> Insert(t, x, cmp)[i] == t[i - 1]
  {
    if t != [] && cmp(t[|t| - 1], x) > 0.0 {
      var init, last := t[..|t| - 1], t[|t| - 1];
      var u := Insert(init, x, cmp);
      var k := InsertPos(init, x, cmp);
      InsertAt(init, x, cmp);
      var r := u + [last];
      assert Insert(t, x, cmp) == r;
      assert InsertPos(t, x, cmp) == k;
      forall i | 0 <= i < k
        ensures r[i] == t[i]
      {
        assert r[i] == u[i] == init[i];
      }
      forall i | k < i <= |t|
        ensures r[i] == t[i - 1]
      {
        if i < |t| {
          assert r[i] == u[i] == init[i - 1];
        }
      }
    }
  }

  lemma InsertSorted<T(!new)>(t: seq<T>, x: T, cmp: (T, T) -> real, dom: multiset<T>)
    requires TotalPreorderOn(cmp, dom)
    requires multiset(t) <= dom && x in dom
    requires Sorted(t, cmp)
    ensures Sorted(Insert(t, x, cmp), cmp)
  {
    ElementsIn(t, dom);
    BeforeInsertPos(t, x, cmp, dom);
    AfterInsertPos(t, x, cmp, dom);
    SortedAroundX(t, x, cmp);
  }

  lemma ElementsIn<T>(t: seq<T>, dom: multiset<T>)
    requires multiset(t) <= dom
    ensures forall i :: 0 <= i < |t| ==> t[i] in dom
  {
    forall i | 0 <= i < |t|
      ensures t[i] in dom
    {
      assert t[i] in multiset(t);
    }
  }

  /** Under a total preorder, `x` comes after everything before its insertion point... */
  lemma BeforeInsertPos<T(!new)>(t: seq<T>, x: T, cmp: (T, T) -> real, dom: multiset<T>)
    requires TotalPreorderOn(cmp, dom)
    requires (forall i :: 0 <= i < |t| ==> t[i] in dom) && x in dom
    requires Sorted(t, cmp)
    ensures forall i :: 0 <= i < InsertPos(t, x, cmp) ==> cmp(t[i], x) <= 0.0
  {
    var k := InsertPos(t, x, cmp);
    forall i | 0 <= i < k
      ensures cmp(t[i], x) <= 0.0
    {
      if i < k - 1 {
        Transitive(cmp, dom, t[i], t[k - 1], x);
      }
    }
  }

  /** ...and before everything from it on. */
  lemma AfterInsertPos<T(!new)>(t: seq<T>, x: T, cmp: (T, T) -> real, dom: multiset<T>)
    requires TotalPreorderOn(cmp, dom)
    requires (forall i :: 0 <= i < |t| ==> t[i] in dom) && x in dom
    ensures forall j :: InsertPos(t, x, cmp) <= j < |t| ==> cmp(x, t[j]) <= 0.0
  {
    var k := InsertPos(t, x, cmp);
    forall j | k <= j < |t|
      ensures cmp(x, t[j]) <= 0.0
    {
      Total(cmp, dom, t[j], x);
    }
  }

  lemma Transitive<T(!new)>(cmp: (T, T) -> real, dom: multiset<T>, a: T, b: T, c: T)
    requires TotalPreorderOn(cmp, dom)
    requires a in dom && b in dom && c in dom
    requires cmp(a, b) <= 0.0 && cmp(b, c) <= 0.0
    ensures cmp(a, c) <= 0.0
  {
    assert InDomain(dom, a) && InDomain(dom, b) && InDomain(dom, c);
  }

  lemma Total<T(!new)>(cmp: (T, T) -> real, dom: multiset<T>, a: T, b: T)
    requires TotalPreorderOn(cmp, dom)
    requires a in dom && b in dom
    ensures cmp(a, b) <= 0.0 || cmp(b, a) <= 0.0
  {
    assert InDomain(dom, a) && InDomain(dom, b);
  }

  /** A sorted `t` with `x` between the elements put before it and those put after it stays sorted. */
  lemma SortedAroundX<T>(t: seq<T>, x: T, cmp: (T, T) -> real)
    requires Sorted(t, cmp)
    requires forall i :: 0 <= i < InsertPos(t, x, cmp) ==> cmp(t[i], x) <= 0.0
    requires forall j :: InsertPos(t, x, cmp) <= j < |t| ==> cmp(x, t[j]) <= 0.0
    ensures Sorted(Insert(t, x, cmp), cmp)
  {
    var k := InsertPos(t, x, cmp);
    var r := Insert(t, x, cmp);
    InsertAt(t, x, cmp);
    forall i, j | 0 <= i < j < |r|
      ensures cmp(r[i], r[j]) <= 0.0
    {
      if j < k {
        assert r[i] == t[i] && r[j] == t[j];
      } else if j == k {
        assert r[i] == t[i];
      } else if i < k {
        assert r[i] == t[i] && r[j] == t[j - 1];
      } else if i == k {
        assert r[j] == t[j - 1];
      } else {
        assert r[i] == t[i - 1] && r[j] == t[j - 1];
      }
    }
  }

  /** Under a comparator that is a total preorder on the elements, the result is sorted. */
  lemma {:induction false} SortSorted<T(!new)>(s: seq<T>, cmp: (T, T) -> real)
    requires TotalPreorderOn(cmp, multiset(s))
    ensures Sorted(Sort(s, cmp), cmp)
  {
    if s != [] {
      var init := s[..|s| - 1];
      assert s == init + [s[|s| - 1]];
      assert multiset(init) <= multiset(s);
      PreorderOnFewer(cmp, multiset(s), multiset(init));
      SortSorted(init, cmp);
      SortPermutes(init, cmp);
      InsertSorted(Sort(init, cmp), s[|s| - 1], cmp, multiset(s));
    }
  }

  /** Every element with property `p` comes after every element without it. */
  predicate Partitioned<T>(s: seq<T>, p: T -> bool)
  {
    forall i, j :: 0 <= i < j < |s| && p(s[i]) ==> p(s[j])
  }

  /** On the elements of `dom`, `cmp` puts every element with `p` after every element without it. */
  ghost predicate PutsLastOn<T(!new)>(cmp: (T, T) -> real, p: T -> bool, dom: multiset<T>)
  {
    (forall a, b {:trigger InDomain(dom, a), InDomain(dom, b)} ::
       InDomain(dom, a) && InDomain(dom, b) && p(a) && !p(b) ==> cmp(a, b) > 0.0)
    && (forall a, b {:trigger InDomain(dom, a), InDomain(dom, b)} ::
          InDomain(dom, a) && InDomain(dom, b) && !p(a) && p(b) ==> cmp(a, b) <= 0.0)
  }

  /** Putting the elements with `p` last among some elements does so among any of them. */
  lemma PutsLastOnFewer<T(!new)>(cmp: (T, T) -> real, p: T -> bool, dom: multiset<T>, fewer: multiset<T>)
    requires PutsLastOn(cmp, p, dom) && fewer <= dom
    ensures PutsLastOn(cmp, p, fewer)
  {
    forall a, b | InDomain(fewer, a) && InDomain(fewer, b) && p(a) && !p(b)
      ensures cmp(a, b) > 0.0
    {
      PutsLast(cmp, p, dom, a, b);
    }
    forall a, b | InDomain(fewer, a) && InDomain(fewer, b) && !p(a) && p(b)
      ensures cmp(a, b) <= 0.0
    {
      PutsLast(cmp, p, dom, b, a);
    }
  }

  lemma PutsLast<T(!new)>(cmp: (T, T) -> real, p: T -> bool, dom: multiset<T>, a: T, b: T)
    requires PutsLastOn(cmp, p, dom)
    requires a in dom && b in dom && p(a) && !p(b)
    ensures cmp(a, b) > 0.0 && cmp(b, a) <= 0.0
  {
    assert InDomain(dom, a) && InDomain(dom, b);
  }

  lemma InsertPartitioned<T(!new)>(t: seq<T>, x: T, cmp: (T, T) -> real, p: T -> bool, dom: multiset<T>)
    requires PutsLastOn(cmp, p, dom)
    requires multiset(t) <= dom && x in dom
    requires Partitioned(t, p)
    ensures Partitioned(Insert(t, x, cmp), p)
  {
    ElementsIn(t, dom);
    PartitionNearX(t, x, cmp, p, dom);
    PartitionAroundX(t, x, cmp, p);
  }

  /** Where the comparator puts the elements with `p` last, so does the insertion point. */
  lemma PartitionNearX<T(!new)>(t: seq<T>, x: T, cmp: (T, T) -> real, p: T -> bool, dom: multiset<T>)
    requires PutsLastOn(cmp, p, dom)
    requires (forall i :: 0 <= i < |t| ==> t[i] in dom) && x in dom
    requires Partitioned(t, p)
    ensures forall i :: 0 <= i < InsertPos(t, x, cmp) && p(t[i]) ==> p(x)
    ensures forall j :: InsertPos(t, x, cmp) <= j < |t| && p(x) ==> p(t[j])
  {
    var k := InsertPos(t, x, cmp);
    forall i | 0 <= i < k && p(t[i])
      ensures p(x)
    {
      assert p(t[k - 1]);
      if !p(x) {
        PutsLast(cmp, p, dom, t[k - 1], x);
        assert false;
      }
    }
    forall j | k <= j < |t| && p(x)
      ensures p(t[j])
    {
      if !p(t[j]) {
        PutsLast(cmp, p, dom, x, t[j]);
        assert false;
      }
    }
  }

  /** A partitioned `t`, with `x` placed consistently with its neighbours, stays partitioned. */
  lemma PartitionAroundX<T>(t: seq<T>, x: T, cmp: (T, T) -> real, p: T -> bool)
    requires Partitioned(t, p)
    requires forall i :: 0 <= i < InsertPos(t, x, cmp) && p(t[i]) ==> p(x)
    requires forall j :: InsertPos(t, x, cmp) <= j < |t| && p(x) ==> p(t[j])
    ensures Partitioned(Insert(t, x, cmp), p)
  {
    var k := InsertPos(t, x, cmp);
    var r := Insert(t, x, cmp);
    InsertAt(t, x, cmp);
    forall i, j | 0 <= i < j < |r| && p(r[i])
      ensures p(r[j])
    {
      if j < k {
        assert r[i] == t[i] && r[j] == t[j];
      } else if j == k {
        assert r[i] == t[i];
      } else if i < k {
        assert r[i] == t[i] && r[j] == t[j - 1];
      } else if i == k {
        assert r[j] == t[j - 1];
      } else {
        assert r[i] == t[i - 1] && r[j] == t[j - 1];
      }
    }
  }

  /** Under a comparator that puts the elements with `p` last, the sort does. */
  lemma {:induction false} SortPartitioned<T(!new)>(s: seq<T>, cmp: (T, T) -> real, p: T -> bool)
    requires PutsLastOn(cmp, p, multiset(s))
    ensures Partitioned(Sort(s, cmp), p)
  {
    if s != [] {
      var init := s[..|s| - 1];
      assert s == init + [s[|s| - 1]];
      assert multiset(init) <= multiset(s);
      PutsLastOnFewer(cmp, p, multiset(s), multiset(init));
      SortPartitioned(init, cmp, p);
      SortPermutes(init, cmp);
      InsertPartitioned(Sort(init, cmp), s[|s| - 1], cmp, p, multiset(s));
    }
  }
  /** No two elements share a key. */
  predicate DistinctBy<T, K(==)>(s: seq<T>, key: T -> K)
  {
    forall i, j :: 0 <= i < j < |s| ==> key(s[i]) != key(s[j])
  }

  lemma {:induction false} InsertDistinct<T, K>(t: seq<T>, x: T, cmp: (T, T) -> real, key: T -> K)
    requires DistinctBy(t, key)
    requires forall i :: 0 <= i < |t| ==> key(t[i]) != key(x)
    ensures DistinctBy(Insert(t, x, cmp), key)
  {
    var k := InsertPos(t, x, cmp);
    var r := Insert(t, x, cmp);
    InsertAt(t, x, cmp);
    forall i, j | 0 <= i < j < |r|
      ensures key(r[i]) != key(r[j])
    {
      if j < k {
        assert r[i] == t[i] && r[j] == t[j];
      } else if j == k {
        assert r[i] == t[i];
      } else if i < k {
        assert r[i] == t[i] && r[j] == t[j - 1];
      } else if i == k {
        assert r[j] == t[j - 1];
      } else {
        assert r[i] == t[i - 1] && r[j] == t[j - 1];
      }
    }
  }

  /** Sorting keeps keys that were distinct distinct. */
  lemma {:induction false} SortDistinct<T, K>(s: seq<T>, cmp: (T, T) -> real, key: T -> K)
    requires DistinctBy(s, key)
    ensures DistinctBy(Sort(s, cmp), key)
  {
    if s != [] {
      var init, last := s[..|s| - 1], s[|s| - 1];
      assert DistinctBy(init, key);
      SortDistinct(init, cmp, key);
      var u := Sort(init, cmp);
      SortPermutes(init, cmp);
      forall i | 0 <= i < |u|
        ensures key(u[i]) != key(last)
      {
        assert u[i] in multiset(u);
        assert u[i] in multiset(init);
        var k :| 0 <= k < |init| && init[k] == u[i];
      }
      InsertDistinct(u, last, cmp, key);
    }
  }
}
