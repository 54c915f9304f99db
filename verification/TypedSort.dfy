/**
 * TypedArray.prototype.sort.
 *
 * With a comparator the engine sorts an array of indices, breaking ties by index, and then
 * scatters the elements.  Without one it sorts the elements by value; for doubles that order
 * puts every NaN last and -0 before +0.
 */
module TypedSort {
  import opened Prelude
  import opened Comparators
  import Rqsort

  // ---------------------------------------------------------------- a user comparator

  /** js_TA_cmp_generic, for a comparator that returns and does not resize the array. */
  function CompareIndices<T>(a: seq<T>, f: Comparator<T>, i: nat, j: nat): int
    requires i < |a| && j < |a|
  {
    var c := Sign(f(a[i], a[j]));
    if c == 0 then Sign(i - j) else c
  }

  /** Breaking ties by index makes the comparison a strict total order. */
  lemma TieBreakIsStrict<T>(a: seq<T>, f: Comparator<T>, i: nat, j: nat, k: nat)
    requires Consistent(a, f) && i < |a| && j < |a| && k < |a|
    ensures CompareIndices(a, f, i, j) == 0 <==> i == j
    ensures CompareIndices(a, f, i, j) == -CompareIndices(a, f, j, i)
    ensures CompareIndices(a, f, i, j) < 0 && CompareIndices(a, f, j, k) < 0 ==> CompareIndices(a, f, i, k) < 0
  {
    var x, y, z := a[i], a[j], a[k];
    assert Transitive(f, x, y, z) && Transitive(f, y, z, x) && Transitive(f, z, x, y);
    assert Antisymmetric(f, x, y) && Antisymmetric(f, y, x) && Antisymmetric(f, y, z) && Antisymmetric(f, z, y);
    assert Antisymmetric(f, x, z) && Antisymmetric(f, z, x) && Antisymmetric(f, x, x);
  }

  /** The indices 0, 1, ..., n - 1. */
  function Iota(n: nat): (r: seq<nat>)
    ensures |r| == n && forall i :: 0 <= i < n ==> r[i] == i
  {
    seq(n, i => i)
  }

  predicate Indices(order: seq<nat>, n: nat) {
    multiset(order) == multiset(Iota(n))
  }

  lemma IndicesInRange(order: seq<nat>, n: nat)
    requires Indices(order, n)
    ensures |order| == n && forall i :: 0 <= i < |order| ==> order[i] < n
  {
    assert |multiset(order)| == |multiset(Iota(n))|;
    forall i | 0 <= i < |order| ensures order[i] < n {
      assert order[i] in multiset(order);
      assert order[i] in Iota(n);
    }
  }

  /** What rqsort leaves behind: a permutation of the indices in which no later index compares lower. */
  ghost predicate SortedIndices<T>(a: seq<T>, f: Comparator<T>, order: seq<nat>) {
    && Indices(order, |a|)
    && |order| == |a| && (forall i :: 0 <= i < |order| ==> order[i] < |a|)
    && (forall i, j :: 0 <= i < j < |order| ==> CompareIndices(a, f, order[i], order[j]) <= 0)
  }

  /** The independent description: sorted, a permutation, and equal elements in their original order. */
  ghost predicate StableOrder<T>(a: seq<T>, f: Comparator<T>, order: seq<nat>) {
    && Indices(order, |a|)
    && |order| == |a| && (forall i :: 0 <= i < |order| ==> order[i] < |a|)
    && (forall i, j :: 0 <= i < j < |order| ==>
          f(a[order[i]], a[order[j]]) < 0 || (f(a[order[i]], a[order[j]]) == 0 && order[i] < order[j]))
  }

  /** An index occurs once in a permutation of the indices. */
  lemma {:induction false} OccursOnce(order: seq<nat>, n: nat, i: nat, j: nat)
    requires Indices(order, n) && i < j < |order|
    ensures order[i] != order[j]
  {
    IndicesInRange(order, n);
    var x := order[i];
    IotaOnce(n, x);
    assert order == order[..i] + [x] + order[i + 1..j] + [order[j]] + order[j + 1..];
  }

  lemma {:induction false} IotaOnce(n: nat, x: nat)
    requires x < n
    ensures multiset(Iota(n))[x] == 1
  {
    var s := Iota(n);
    assert s == s[..x] + [x] + s[x + 1..];
    assert x !in s[..x] && x !in s[x + 1..];
  }

  lemma SortedIndicesAreStable<T>(a: seq<T>, f: Comparator<T>, order: seq<nat>)
    requires Consistent(a, f) && SortedIndices(a, f, order)
    ensures StableOrder(a, f, order)
  {
    forall i, j | 0 <= i < j < |order|
      ensures f(a[order[i]], a[order[j]]) < 0 || (f(a[order[i]], a[order[j]]) == 0 && order[i] < order[j])
    {
      OccursOnce(order, |a|, i, j);
      assert CompareIndices(a, f, order[i], order[j]) <= 0;
    }
  }

  ghost predicate Ordered(less: (nat, nat) -> bool, p: seq<nat>) {
    forall i, j :: 0 <= i < j < |p| ==> less(p[i], p[j])
  }

  ghost predicate Asymmetric(less: (nat, nat) -> bool) {
    forall x, y :: less(x, y) ==> !less(y, x)
  }

  /** Two sequences with the same members, strictly ordered by one asymmetric relation, are equal. */
  lemma {:induction false} StrictOrderUnique(less: (nat, nat) -> bool, p: seq<nat>, q: seq<nat>)
    requires Asymmetric(less) && multiset(p) == multiset(q) && Ordered(less, p) && Ordered(less, q)
    ensures p == q
    decreases |p|
  {
    SameSize(p, q);
    if p != [] {
      SameLast(less, p, q);
      DropSameLast(p, q);
      PrefixOrdered(less, p);
      PrefixOrdered(less, q);
      StrictOrderUnique(less, p[..|p| - 1], q[..|q| - 1]);
      EqualByLast(p, q);
    }
  }

  lemma PrefixOrdered(less: (nat, nat) -> bool, p: seq<nat>)
    requires p != [] && Ordered(less, p)
    ensures Ordered(less, p[..|p| - 1])
  {
  }

  lemma SameLast(less: (nat, nat) -> bool, p: seq<nat>, q: seq<nat>)
    requires Asymmetric(less) && multiset(p) == multiset(q) && |p| == |q| > 0 && Ordered(less, p) && Ordered(less, q)
    ensures p[|p| - 1] == q[|q| - 1]
  {
    var n := |p| - 1;
    assert p[n] in multiset(q) && q[n] in multiset(p);
    var i :| 0 <= i < |q| && q[i] == p[n];
    var j :| 0 <= j < |p| && p[j] == q[n];
    assert i < n ==> less(p[n], q[n]);
  }

  lemma StableIsStrict<T>(a: seq<T>, f: Comparator<T>, order: seq<nat>)
    requires Consistent(a, f) && StableOrder(a, f, order)
    ensures forall i, j :: 0 <= i < j < |order| ==> CompareIndices(a, f, order[i], order[j]) < 0
  {
  }

  /** There is one stable order; whatever routine permutes and orders the indices finds it. */
  lemma OneStableOrder<T>(a: seq<T>, f: Comparator<T>, p: seq<nat>, q: seq<nat>)
    requires Consistent(a, f) && SortedIndices(a, f, p) && StableOrder(a, f, q)
    ensures p == q
  {
    SortedIndicesAreStable(a, f, p);
    StableIsStrict(a, f, p);
    StableIsStrict(a, f, q);
    var less := (i: nat, j: nat) => i < |a| && j < |a| && CompareIndices(a, f, i, j) < 0;
    forall x, y | less(x, y) ensures !less(y, x) {
      TieBreakIsStrict(a, f, x, y, x);
    }
    StrictOrderUnique(less, p, q);
  }

  // ---------------------------------------------------------------- the reference: stable insertion sort

  /** Inserts x before the first element that is greater. */
  function Insert<T>(s: seq<T>, x: T, f: Comparator<T>): seq<T> {
    if s == [] then [x]
    else if f(s[|s| - 1], x) > 0 then Insert(s[..|s| - 1], x, f) + [s[|s| - 1]]
    else s + [x]
  }

  function StableSort<T>(a: seq<T>, f: Comparator<T>): seq<T> {
    if a == [] then [] else Insert(StableSort(a[..|a| - 1], f), a[|a| - 1], f)
  }

  function InsertIndex<T>(a: seq<T>, f: Comparator<T>, s: seq<nat>, x: nat): (r: seq<nat>)
    requires x < |a| && forall i :: 0 <= i < |s| ==> s[i] < |a|
    ensures |r| == |s| + 1 && forall i :: 0 <= i < |r| ==> r[i] < |a|
  {
    if s == [] then [x]
    else if f(a[s[|s| - 1]], a[x]) > 0 then InsertIndex(a, f, s[..|s| - 1], x) + [s[|s| - 1]]
    else s + [x]
  }

  /** The elements at the given indices. */
  function Pick<T>(a: seq<T>, order: seq<nat>): (r: seq<T>)
    requires forall i :: 0 <= i < |order| ==> order[i] < |a|
    ensures |r| == |order| && forall i :: 0 <= i < |r| ==> r[i] == a[order[i]]
  {
    seq(|order|, i requires 0 <= i < |order| => a[order[i]])
  }

  lemma {:induction false} InsertIndexPicks<T>(a: seq<T>, f: Comparator<T>, s: seq<nat>, x: nat)
    requires x < |a| && forall i :: 0 <= i < |s| ==> s[i] < |a|
    ensures Pick(a, InsertIndex(a, f, s, x)) == Insert(Pick(a, s), a[x], f)
    ensures multiset(InsertIndex(a, f, s, x)) == multiset(s) + multiset{x}
    decreases |s|
  {
    if s != [] {
      var n := |s| - 1;
      assert s == s[..n] + [s[n]];
      assert Pick(a, s)[..n] == Pick(a, s[..n]);
      if f(a[s[n]], a[x]) > 0 {
        InsertIndexPicks(a, f, s[..n], x);
      }
    }
  }

  lemma {:induction false} InsertIndexMembers<T>(a: seq<T>, f: Comparator<T>, s: seq<nat>, x: nat)
    requires x < |a| && forall i :: 0 <= i < |s| ==> s[i] < |a|
    ensures forall i :: 0 <= i <= |s| ==> InsertIndex(a, f, s, x)[i] == x || InsertIndex(a, f, s, x)[i] in s
    decreases |s|
  {
    if s != [] && f(a[s[|s| - 1]], a[x]) > 0 {
      InsertIndexMembers(a, f, s[..|s| - 1], x);
    }
  }

  /** x is larger than every index of s, and s is strictly ordered: so is the insertion. */
  lemma {:induction false} InsertIndexStrict<T>(a: seq<T>, f: Comparator<T>, s: seq<nat>, x: nat)
    requires Consistent(a, f) && x < |a| && (forall i :: 0 <= i < |s| ==> s[i] < x) && StrictlyOrdered(a, f, s)
    ensures StrictlyOrdered(a, f, InsertIndex(a, f, s, x))
    decreases |s|
  {
    if s != [] {
      var n := |s| - 1;
      if f(a[s[n]], a[x]) > 0 {
        InsertIndexStrict(a, f, s[..n], x);
        InsertIndexMembers(a, f, s[..n], x);
        var r := InsertIndex(a, f, s[..n], x);
        assert Antisymmetric(f, a[s[n]], a[x]);
        forall i | 0 <= i < |r| ensures CompareIndices(a, f, r[i], s[n]) < 0 {
          assert r[i] == x || r[i] in s[..n];
        }
        AppendStrict(a, f, r, s[n]);
      } else {
        forall i | 0 <= i < |s| ensures CompareIndices(a, f, s[i], x) < 0 {
          assert i < n ==> CompareIndices(a, f, s[i], s[n]) < 0;
          assert Transitive(f, a[s[i]], a[s[n]], a[x]);
          assert Antisymmetric(f, a[s[n]], a[s[n]]);
        }
        AppendStrict(a, f, s, x);
      }
    }
  }

  predicate StrictlyOrdered<T>(a: seq<T>, f: Comparator<T>, s: seq<nat>) {
    && (forall i :: 0 <= i < |s| ==> s[i] < |a|)
    && (forall i, j :: 0 <= i < j < |s| ==> CompareIndices(a, f, s[i], s[j]) < 0)
  }

  lemma AppendStrict<T>(a: seq<T>, f: Comparator<T>, s: seq<nat>, x: nat)
    requires StrictlyOrdered(a, f, s) && x < |a| && forall i :: 0 <= i < |s| ==> CompareIndices(a, f, s[i], x) < 0
    ensures StrictlyOrdered(a, f, s + [x])
  {
  }

  /** The order in which the reference sort visits the first n elements. */
  function InsertionOrder<T>(a: seq<T>, f: Comparator<T>, n: nat): (r: seq<nat>)
    requires n <= |a|
    ensures |r| == n && forall i :: 0 <= i < |r| ==> r[i] < |a|
  {
    if n == 0 then [] else InsertIndex(a, f, InsertionOrder(a, f, n - 1), n - 1)
  }

  lemma {:induction false} InsertionOrderPicks<T>(a: seq<T>, f: Comparator<T>, n: nat)
    requires n <= |a|
    ensures Pick(a, InsertionOrder(a, f, n)) == StableSort(a[..n], f)
    decreases n
  {
    if n > 0 {
      InsertionOrderPicks(a, f, n - 1);
      assert a[..n][..n - 1] == a[..n - 1];
      InsertIndexPicks(a, f, InsertionOrder(a, f, n - 1), n - 1);
    }
  }

  lemma IotaGrows(n: nat)
    ensures multiset(Iota(n + 1)) == multiset(Iota(n)) + multiset{n}
  {
    assert Iota(n + 1) == Iota(n) + [n];
  }

  lemma {:induction false} InsertionOrderPermutes<T>(a: seq<T>, f: Comparator<T>, n: nat)
    requires n <= |a|
    ensures Indices(InsertionOrder(a, f, n), n)
    decreases n
  {
    if n > 0 {
      InsertionOrderPermutes(a, f, n - 1);
      InsertIndexPicks(a, f, InsertionOrder(a, f, n - 1), n - 1);
      IotaGrows(n - 1);
    }
  }

  lemma InsertionOrderBelow<T>(a: seq<T>, f: Comparator<T>, n: nat)
    requires n <= |a|
    ensures forall i :: 0 <= i < n ==> InsertionOrder(a, f, n)[i] < n
  {
    InsertionOrderPermutes(a, f, n);
    IndicesInRange(InsertionOrder(a, f, n), n);
  }

  lemma InsertNext<T>(a: seq<T>, f: Comparator<T>, s: seq<nat>, n: nat)
    requires Consistent(a, f) && n < |a| && s == InsertionOrder(a, f, n) && StrictlyOrdered(a, f, s)
    ensures StrictlyOrdered(a, f, InsertIndex(a, f, s, n))
  {
    InsertionOrderBelow(a, f, n);
    InsertIndexStrict(a, f, s, n);
  }

  lemma {:induction false} InsertionOrderStrict<T>(a: seq<T>, f: Comparator<T>, n: nat)
    requires Consistent(a, f) && n <= |a|
    ensures StrictlyOrdered(a, f, InsertionOrder(a, f, n))
    decreases n
  {
    if n > 0 {
      InsertionOrderStrict(a, f, n - 1);
      InsertNext(a, f, InsertionOrder(a, f, n - 1), n - 1);
    }
  }

  /** Any routine that permutes and orders the index array produces the stable sort of the input. */
  lemma SortedIndicesGiveStableSort<T>(a: seq<T>, f: Comparator<T>, order: seq<nat>)
    requires Consistent(a, f) && SortedIndices(a, f, order)
    ensures Pick(a, order) == StableSort(a, f)
  {
    InsertionOrderPicks(a, f, |a|);
    InsertionOrderPermutes(a, f, |a|);
    InsertionOrderStrict(a, f, |a|);
    assert a[..|a|] == a;
    var q := InsertionOrder(a, f, |a|);
    assert SortedIndices(a, f, q);
    SortedIndicesAreStable(a, f, q);
    OneStableOrder(a, f, order, q);
  }

  // ---------------------------------------------------------------- the write-back

  /**
   * Copies the elements into sorted order through a temporary copy.  `len` is the length that
   * survived the comparator calls; an index beyond it leaves its slot alone.
   */
  method Scatter<T>(a: array<T>, order: seq<nat>, len: nat)
    requires len <= a.Length && len <= |order|
    modifies a
    ensures forall i :: 0 <= i < len ==> a[i] == (if order[i] < len then old(a[order[i]]) else old(a[i]))
    ensures forall i :: len <= i < a.Length ==> a[i] == old(a[i])
  {
    var tmp := a[..len];
    for i := 0 to len
      invariant forall k :: 0 <= k < i ==> a[k] == (if order[k] < len then tmp[order[k]] else tmp[k])
      invariant forall k :: i <= k < a.Length ==> a[k] == old(a[k])
    {
      var j := order[i];
      if j < len {
        a[i] := tmp[j];
      }
    }
  }

  /** js_TA_cmp_generic on any two indices; those past the end, which the sort never meets, come last. */
  function CompareSlots<T>(a: seq<T>, f: Comparator<T>, i: nat, j: nat): int {
    if i < |a| && j < |a| then CompareIndices(a, f, i, j) else i - j
  }

  lemma SlotsConsistent<T>(a: seq<T>, f: Comparator<T>)
    requires Consistent(a, f)
    ensures Consistent(Iota(|a|), (i: nat, j: nat) => CompareSlots(a, f, i, j))
  {
    var cmp: Comparator<nat> := (i: nat, j: nat) => CompareSlots(a, f, i, j);
    var slots := Iota(|a|);
    forall i: nat, j: nat | i in slots && j in slots ensures Antisymmetric(cmp, i, j) {
      TieBreakIsStrict(a, f, i, j, j);
    }
    forall i: nat, j: nat, k: nat | i in slots && j in slots && k in slots ensures Transitive(cmp, i, j, k) {
      TieBreakIsStrict(a, f, i, j, k);
      TieBreakIsStrict(a, f, j, k, i);
    }
  }

  /** Picking by a permutation of the indices permutes the elements. */
  lemma PickPermutes<T>(a: seq<T>, order: seq<nat>)
    requires Indices(order, |a|)
    ensures |order| == |a| && (forall i :: 0 <= i < |order| ==> order[i] < |a|)
    ensures multiset(Pick(a, order)) == multiset(a)
  {
    IndicesInRange(order, |a|);
    if a != [] {
      var at := (i: nat) => if i < |a| then a[i] else a[0];
      MapPermutes(at, order, Iota(|a|));
      assert Mapped(at, order) == Pick(a, order) && Mapped(at, Iota(|a|)) == a;
    }
  }

  lemma OrderedBySlots<T>(a: seq<T>, f: Comparator<T>, order: seq<nat>)
    requires Indices(order, |a|) && forall i, j :: 0 <= i < j < |order| ==> CompareSlots(a, f, order[i], order[j]) <= 0
    ensures SortedIndices(a, f, order)
  {
    IndicesInRange(order, |a|);
    forall i, j | 0 <= i < j < |order| ensures CompareIndices(a, f, order[i], order[j]) <= 0 {
      assert CompareSlots(a, f, order[i], order[j]) <= 0;
    }
  }

  /**
   * The comparator branch of js_typed_array_sort: with any comparator the array is permuted, with one
   * that is consistent on its elements it becomes its stable sort.
   */
  method SortWith<T>(a: array<T>, f: Comparator<T>)
    modifies a
    ensures multiset(a[..]) == multiset(old(a[..]))
    ensures Consistent(old(a[..]), f) ==> a[..] == StableSort(old(a[..]), f)
  {
    var s := a[..];
    var indices := new nat[a.Length](i requires i >= 0 => i);
    assert indices[..] == Iota(|s|);
    var cmp: Comparator<nat> := (i: nat, j: nat) => CompareSlots(s, f, i, j);
    Rqsort.Sort(indices, cmp);
    var order := indices[..];
    PickPermutes(s, order);
    if Consistent(s, f) {
      SlotsConsistent(s, f);
      OrderedBySlots(s, f, order);
      SortedIndicesGiveStableSort(s, f, order);
    }
    Scatter(a, order, a.Length);
    assert a[..] == Pick(s, order);
  }
}
