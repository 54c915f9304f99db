/**
 * The building blocks of the engine's in-place sort: comparing and exchanging two elements,
 * insertion sort, and heap sort on a part of an array.
 *
 * Proofs work with ranks: an integer for every element of the array, ordered as the comparator
 * orders the elements.  A comparator that is not consistent has no ranks; every method still ends,
 * stays within its part of the array and permutes it.
 */
module SortSteps {
  import opened Prelude
  import opened Comparators

  /** Ranks for the elements, or None when the comparator is not consistent and nothing is known about order. */
  type Ranking<!T> = Option<T -> int>

  ghost predicate Le<T>(rank: Ranking<T>, x: T, y: T) {
    rank.Some? ==> rank.value(x) <= rank.value(y)
  }

  ghost predicate Lt<T>(rank: Ranking<T>, x: T, y: T) {
    rank.Some? ==> rank.value(x) < rank.value(y)
  }

  ghost predicate Eq<T>(rank: Ranking<T>, x: T, y: T) {
    rank.Some? ==> rank.value(x) == rank.value(y)
  }

  /** The comparator orders the members of m as their ranks do, if there are ranks. */
  ghost predicate Agrees<T(!new)>(m: multiset<T>, cmp: Comparator<T>, rank: Ranking<T>) {
    rank.Some? ==> forall x, y :: x in m && y in m ==>
      (cmp(x, y) < 0 <==> rank.value(x) < rank.value(y)) && (cmp(x, y) > 0 <==> rank.value(x) > rank.value(y))
  }

  /** The array is a permutation of m. */
  ghost predicate Holds<T>(a: array<T>, m: multiset<T>)
    reads a
  {
    multiset(a[..]) == m
  }

  /** s and t differ at most in the cells from lo to hi. */
  ghost predicate Within<T>(s: seq<T>, t: seq<T>, lo: nat, hi: nat) {
    |s| == |t| && forall k :: 0 <= k < |s| && !(lo <= k < hi) ==> s[k] == t[k]
  }

  ghost predicate SortedRange<T>(s: seq<T>, rank: Ranking<T>, lo: nat, hi: nat) {
    hi <= |s| && forall i, j :: lo <= i < j < hi ==> Le(rank, s[i], s[j])
  }

  method Compare<T(!new)>(a: array<T>, cmp: Comparator<T>, i: nat, j: nat, ghost m: multiset<T>, ghost rank: Ranking<T>) returns (c: int)
    requires i < a.Length && j < a.Length && Holds(a, m) && Agrees(m, cmp, rank)
    ensures c < 0 ==> Lt(rank, a[i], a[j])
    ensures c == 0 ==> Eq(rank, a[i], a[j])
    ensures c > 0 ==> Lt(rank, a[j], a[i])
  {
    assert a[..][i] in multiset(a[..]) && a[..][j] in multiset(a[..]);
    return cmp(a[i], a[j]);
  }

  function Swapped<T>(s: seq<T>, i: nat, j: nat): (r: seq<T>)
    requires i < |s| && j < |s|
    ensures |r| == |s| && r[i] == s[j] && r[j] == s[i]
    ensures forall k :: 0 <= k < |s| && k != i && k != j ==> r[k] == s[k]
  {
    s[i := s[j]][j := s[i]]
  }

  lemma SwapPermutes<T>(s: seq<T>, i: nat, j: nat)
    requires i < |s| && j < |s|
    ensures multiset(Swapped(s, i, j)) == multiset(s)
  {
  }

  /** exchange_func's exchange of two elements. */
  method Swap<T>(a: array<T>, i: nat, j: nat, ghost m: multiset<T>)
    requires i < a.Length && j < a.Length && Holds(a, m)
    modifies a
    ensures a[..] == Swapped(old(a[..]), i, j) && Holds(a, m)
  {
    SwapPermutes(a[..], i, j);
    a[i], a[j] := a[j], a[i];
    assert a[..] == Swapped(old(a[..]), i, j);
  }

  lemma SwapWithin<T>(s: seq<T>, t: seq<T>, lo: nat, hi: nat, i: nat, j: nat)
    requires Within(s, t, lo, hi) && lo <= i < hi <= |s| && lo <= j < hi
    ensures Within(s, Swapped(t, i, j), lo, hi)
  {
  }

  lemma WithinTwice<T>(s: seq<T>, t: seq<T>, u: seq<T>, lo: nat, hi: nat)
    requires Within(s, t, lo, hi) && Within(t, u, lo, hi)
    ensures Within(s, u, lo, hi)
  {
  }

  /** A permutation that leaves the rest alone permutes the part. */
  lemma PartPermuted<T>(s: seq<T>, t: seq<T>, lo: nat, hi: nat)
    requires Within(s, t, lo, hi) && multiset(s) == multiset(t) && lo <= hi <= |s|
    ensures multiset(s[lo..hi]) == multiset(t[lo..hi])
  {
    InThree(s, lo, hi);
    InThree(t, lo, hi);
    assert s[..lo] == t[..lo] && s[hi..] == t[hi..];
    Cancel(multiset(s[..lo]), multiset(s[lo..hi]), multiset(t[lo..hi]), multiset(s[hi..]));
  }

  lemma InThree<T>(s: seq<T>, lo: nat, hi: nat)
    requires lo <= hi <= |s|
    ensures multiset(s) == multiset(s[..lo]) + multiset(s[lo..hi]) + multiset(s[hi..])
  {
    assert s == s[..lo] + s[lo..hi] + s[hi..];
  }

  lemma Cancel<T>(a: multiset<T>, b: multiset<T>, b': multiset<T>, c: multiset<T>)
    requires a + b + c == a + b' + c
    ensures b == b'
  {
    assert b == (a + b + c) - a - c && b' == (a + b' + c) - a - c;
  }

  /** So every element of the part was in the part before. */
  lemma PartMember<T>(s: seq<T>, t: seq<T>, lo: nat, hi: nat, k: nat) returns (j: nat)
    requires Within(s, t, lo, hi) && multiset(s) == multiset(t) && lo <= k < hi <= |s|
    ensures lo <= j < hi && t[k] == s[j]
  {
    PartPermuted(s, t, lo, hi);
    assert t[lo..hi][k - lo] in multiset(t[lo..hi]);
    assert t[k] in multiset(s[lo..hi]);
    var i :| 0 <= i < hi - lo && s[lo..hi][i] == t[k];
    j := lo + i;
  }

  // ---------------------------------------------------------------- insertion sort

  /** The insertion sort of small segments. */
  method InsertionSort<T(!new)>(a: array<T>, cmp: Comparator<T>, lo: nat, hi: nat, ghost m: multiset<T>, ghost rank: Ranking<T>)
    requires lo <= hi <= a.Length && Holds(a, m) && Agrees(m, cmp, rank)
    modifies a
    ensures Holds(a, m) && Within(old(a[..]), a[..], lo, hi) && SortedRange(a[..], rank, lo, hi)
  {
    var i := lo + 1;
    while i < hi
      invariant lo < i && (i <= hi || i == lo + 1) && Holds(a, m) && Within(old(a[..]), a[..], lo, hi)
      invariant SortedRange(a[..], rank, lo, Min(i, hi))
    {
      Insert(a, cmp, lo, i, m, rank);
      i := i + 1;
    }
  }

  /** Everything from lo to i is in order, except that the element at j may belong further down. */
  ghost predicate Sinking<T>(s: seq<T>, rank: Ranking<T>, lo: nat, i: nat, j: nat) {
    lo <= j <= i < |s| && forall x, y :: lo <= x < y <= i && y != j ==> Le(rank, s[x], s[y])
  }

  lemma Sinks<T>(s: seq<T>, rank: Ranking<T>, lo: nat, i: nat, j: nat)
    requires Sinking(s, rank, lo, i, j) && j > lo && Lt(rank, s[j], s[j - 1])
    ensures Sinking(Swapped(s, j, j - 1), rank, lo, i, j - 1)
  {
  }

  lemma Sunk<T>(s: seq<T>, rank: Ranking<T>, lo: nat, i: nat, j: nat)
    requires Sinking(s, rank, lo, i, j) && (j == lo || Le(rank, s[j - 1], s[j]))
    ensures SortedRange(s, rank, lo, i + 1)
  {
    forall x | lo <= x < j ensures Le(rank, s[x], s[j]) {
      assert x < j - 1 ==> Le(rank, s[x], s[j - 1]);
    }
  }

  /** The element at i sinks into the sorted part before it. */
  method Insert<T(!new)>(a: array<T>, cmp: Comparator<T>, lo: nat, i: nat, ghost m: multiset<T>, ghost rank: Ranking<T>)
    requires lo <= i < a.Length && Holds(a, m) && Agrees(m, cmp, rank) && SortedRange(a[..], rank, lo, i)
    modifies a
    ensures Holds(a, m) && Within(old(a[..]), a[..], lo, i + 1) && SortedRange(a[..], rank, lo, i + 1)
  {
    var j := i;
    while j > lo
      invariant lo <= j <= i && Holds(a, m) && Within(old(a[..]), a[..], lo, i + 1) && Sinking(a[..], rank, lo, i, j)
    {
      var c := Compare(a, cmp, j - 1, j, m, rank);
      if c <= 0 {
        break;
      }
      Sinks(a[..], rank, lo, i, j);
      SwapWithin(old(a[..]), a[..], lo, i + 1, j, j - 1);
      Swap(a, j, j - 1, m);
      j := j - 1;
    }
    Sunk(a[..], rank, lo, i, j);
  }

  // ---------------------------------------------------------------- heap sort

  function Parent(c: nat): nat
    requires c > 0
  {
    (c - 1) / 2
  }

  lemma ChildrenOf(c: nat, r: nat)
    requires c > 0
    ensures Parent(c) == r <==> c == 2 * r + 1 || c == 2 * r + 2
  {
  }

  /** The element at c is no larger than its parent in the heap that starts at lo. */
  ghost predicate Edge<T>(s: seq<T>, rank: Ranking<T>, lo: nat, c: nat)
    requires 0 < c && lo + c < |s|
  {
    Le(rank, s[lo + c], s[lo + Parent(c)])
  }

  /** The heap order holds below the parents numbered from `from`. */
  ghost predicate Heap<T>(s: seq<T>, rank: Ranking<T>, lo: nat, from: nat, n: nat) {
    && lo + n <= |s|
    && forall c: nat {:trigger Edge(s, rank, lo, c)} :: 0 < c < n && Parent(c) >= from ==> Edge(s, rank, lo, c)
  }

  /** The element at c is no larger than the parent of r. */
  ghost predicate Below<T>(s: seq<T>, rank: Ranking<T>, lo: nat, c: nat, r: nat)
    requires 0 < r && lo + c < |s| && lo + Parent(r) < |s|
  {
    Le(rank, s[lo + c], s[lo + Parent(r)])
  }

  /** The same with a hole at r, whose parent dominates the hole's children. */
  ghost predicate HeapButHole<T>(s: seq<T>, rank: Ranking<T>, lo: nat, from: nat, n: nat, r: nat) {
    && lo + n <= |s|
    && (forall c: nat {:trigger Edge(s, rank, lo, c)} :: 0 < c < n && Parent(c) >= from && Parent(c) != r ==> Edge(s, rank, lo, c))
    && (forall c: nat {:trigger Below(s, rank, lo, c, r)} :: 0 < c < n && Parent(c) == r && r > from && Parent(r) >= from ==>
          Below(s, rank, lo, c, r))
  }

  /** The larger child c of the hole goes up; the hole moves to c. */
  lemma HoleSinks<T>(s: seq<T>, rank: Ranking<T>, lo: nat, from: nat, n: nat, r: nat, c: nat)
    requires from <= r && HeapButHole(s, rank, lo, from, n, r) && 0 < c < n && Parent(c) == r
    requires Le(rank, s[lo + r], s[lo + c])
    requires forall d: nat :: 0 < d < n && Parent(d) == r ==> Le(rank, s[lo + d], s[lo + c])
    ensures HeapButHole(Swapped(s, lo + r, lo + c), rank, lo, from, n, c)
  {
    var t := Swapped(s, lo + r, lo + c);
    forall d: nat | 0 < d < n && Parent(d) >= from && Parent(d) != c ensures Edge(t, rank, lo, d) {
      if Parent(d) != r {
        assert Edge(s, rank, lo, d);
        if d == r {
          assert Below(s, rank, lo, c, r);
        }
      }
    }
    forall d: nat | 0 < d < n && Parent(d) == c ensures Below(t, rank, lo, d, c) {
      assert Edge(s, rank, lo, d);
    }
  }

  lemma HoleFilled<T>(s: seq<T>, rank: Ranking<T>, lo: nat, from: nat, n: nat, r: nat)
    requires HeapButHole(s, rank, lo, from, n, r)
    requires forall d: nat :: 0 < d < n && Parent(d) == r ==> Le(rank, s[lo + d], s[lo + r])
    ensures Heap(s, rank, lo, from, n)
  {
    forall d: nat | 0 < d < n && Parent(d) >= from ensures Edge(s, rank, lo, d) {
      assert Parent(d) == r || Edge(s, rank, lo, d);
    }
  }

  /** An element larger than its larger child is no hole. */
  lemma LargestFilled<T>(s: seq<T>, rank: Ranking<T>, lo: nat, from: nat, n: nat, r: nat, c: nat)
    requires HeapButHole(s, rank, lo, from, n, r) && 0 < c < n && Parent(c) == r && Lt(rank, s[lo + c], s[lo + r])
    requires forall d: nat :: 0 < d < n && Parent(d) == r ==> Le(rank, s[lo + d], s[lo + c])
    ensures Heap(s, rank, lo, from, n)
  {
    HoleFilled(s, rank, lo, from, n, r);
  }

  /** The sift-down loop: the heap order is extended to parent r0. */
  method Sift<T(!new)>(a: array<T>, cmp: Comparator<T>, lo: nat, r0: nat, n: nat, ghost m: multiset<T>, ghost rank: Ranking<T>)
    requires lo + n <= a.Length && Holds(a, m) && Agrees(m, cmp, rank) && Heap(a[..], rank, lo, r0 + 1, n)
    modifies a
    ensures Holds(a, m) && Within(old(a[..]), a[..], lo, lo + n) && Heap(a[..], rank, lo, r0, n)
  {
    var r := r0;
    assert HeapButHole(a[..], rank, lo, r0, n, r);
    while 2 * r + 1 < n
      invariant r0 <= r && Holds(a, m) && Within(old(a[..]), a[..], lo, lo + n) && HeapButHole(a[..], rank, lo, r0, n, r)
      decreases n - r
    {
      ghost var s := a[..];
      var done;
      r, done := SiftOne(a, cmp, lo, r0, r, n, m, rank);
      WithinTwice(old(a[..]), s, a[..], lo, lo + n);
      if done {
        return;
      }
    }
    HoleFilled(a[..], rank, lo, r0, n, r);
  }

  /** One step of the sift: done when the element is larger than both children, else it changes places with the larger one. */
  method SiftOne<T(!new)>(a: array<T>, cmp: Comparator<T>, lo: nat, ghost r0: nat, hole: nat, n: nat, ghost m: multiset<T>, ghost rank: Ranking<T>)
    returns (r: nat, done: bool)
    requires r0 <= hole && 2 * hole + 1 < n && lo + n <= a.Length && Holds(a, m) && Agrees(m, cmp, rank)
    requires HeapButHole(a[..], rank, lo, r0, n, hole)
    modifies a
    ensures Holds(a, m) && Within(old(a[..]), a[..], lo, lo + n)
    ensures if done then Heap(a[..], rank, lo, r0, n) else hole < r < n && HeapButHole(a[..], rank, lo, r0, n, r)
  {
    r := hole;
    var c := LargerChild(a, cmp, lo, r, n, m, rank);
    var d := Compare(a, cmp, lo + r, lo + c, m, rank);
    done := d > 0;
    if done {
      LargestFilled(a[..], rank, lo, r0, n, r, c);
    } else {
      SinkHole(a, lo, r0, r, c, n, m, rank);
      r := c;
    }
  }

  /** The element at r changes places with its larger child. */
  method SinkHole<T>(a: array<T>, lo: nat, ghost from: nat, r: nat, c: nat, ghost n: nat, ghost m: multiset<T>, ghost rank: Ranking<T>)
    requires lo + n <= a.Length && Holds(a, m) && from <= r && HeapButHole(a[..], rank, lo, from, n, r) && 0 < c < n && Parent(c) == r
    requires Le(rank, a[lo + r], a[lo + c])
    requires forall d: nat :: 0 < d < n && Parent(d) == r ==> Le(rank, a[lo + d], a[lo + c])
    modifies a
    ensures Holds(a, m) && Within(old(a[..]), a[..], lo, lo + n) && HeapButHole(a[..], rank, lo, from, n, c)
  {
    HoleSinks(a[..], rank, lo, from, n, r, c);
    SwapWithin(a[..], a[..], lo, lo + n, lo + r, lo + c);
    Swap(a, lo + r, lo + c, m);
  }

  method LargerChild<T(!new)>(a: array<T>, cmp: Comparator<T>, lo: nat, r: nat, n: nat, ghost m: multiset<T>, ghost rank: Ranking<T>) returns (c: nat)
    requires 2 * r + 1 < n && lo + n <= a.Length && Holds(a, m) && Agrees(m, cmp, rank)
    ensures 0 < c < n && Parent(c) == r < c
    ensures forall d: nat :: 0 < d < n && Parent(d) == r ==> Le(rank, a[lo + d], a[lo + c])
  {
    c := 2 * r + 1;
    if c < n - 1 {
      var e := Compare(a, cmp, lo + c, lo + c + 1, m, rank);
      if e <= 0 {
        c := c + 1;
      }
    }
    ChildrenOf(c, r);
    BothChildren(a[..], rank, lo, r, n, c);
  }

  lemma BothChildren<T>(s: seq<T>, rank: Ranking<T>, lo: nat, r: nat, n: nat, c: nat)
    requires lo + n <= |s| && c < n && 2 * r + 1 < n
    requires Le(rank, s[lo + (2 * r + 1)], s[lo + c]) && (2 * r + 2 < n ==> Le(rank, s[lo + (2 * r + 2)], s[lo + c]))
    ensures forall d: nat :: 0 < d < n && Parent(d) == r ==> Le(rank, s[lo + d], s[lo + c])
  {
    forall d: nat | 0 < d < n && Parent(d) == r ensures Le(rank, s[lo + d], s[lo + c]) {
      ChildrenOf(d, r);
    }
  }

  /** The root of a heap is its largest element. */
  lemma {:induction false} RootIsLargest<T>(s: seq<T>, rank: Ranking<T>, lo: nat, n: nat, c: nat)
    requires Heap(s, rank, lo, 0, n) && c < n
    ensures Le(rank, s[lo + c], s[lo])
    decreases c
  {
    if c > 0 {
      assert Edge(s, rank, lo, c);
      RootIsLargest(s, rank, lo, n, Parent(c));
    }
  }

  /** The cells from lo + i on are in order and no smaller than those before. */
  ghost predicate Tail<T>(s: seq<T>, rank: Ranking<T>, lo: nat, i: nat, n: nat) {
    && i <= n && lo + n <= |s| && SortedRange(s, rank, lo + i, lo + n)
    && forall x, y :: lo <= x < lo + i <= y < lo + n ==> Le(rank, s[x], s[y])
  }

  /** Moving the root to the end lengthens the tail and leaves a heap without its root. */
  lemma RootMoves<T>(s: seq<T>, rank: Ranking<T>, lo: nat, i: nat, n: nat)
    requires 0 < i < n && Heap(s, rank, lo, 0, i + 1) && Tail(s, rank, lo, i + 1, n)
    ensures Tail(Swapped(s, lo, lo + i), rank, lo, i, n) && Heap(Swapped(s, lo, lo + i), rank, lo, 1, i)
  {
    var t := Swapped(s, lo, lo + i);
    forall x | lo <= x < lo + i ensures Le(rank, t[x], s[lo]) {
      RootIsLargest(s, rank, lo, i + 1, if x == lo then i else x - lo);
    }
    forall c: nat | 0 < c < i && Parent(c) >= 1 ensures Edge(t, rank, lo, c) {
      assert Edge(s, rank, lo, c);
    }
  }

  /** Rearranging the cells before the tail keeps it. */
  lemma TailKept<T>(s: seq<T>, t: seq<T>, rank: Ranking<T>, lo: nat, i: nat, n: nat)
    requires Tail(s, rank, lo, i, n) && Within(s, t, lo, lo + i) && multiset(s) == multiset(t)
    ensures Tail(t, rank, lo, i, n)
  {
    forall x, y | lo <= x < lo + i <= y < lo + n ensures Le(rank, t[x], t[y]) {
      var j := PartMember(s, t, lo, lo + i, x);
    }
  }

  method BuildHeap<T(!new)>(a: array<T>, cmp: Comparator<T>, lo: nat, n: nat, ghost m: multiset<T>, ghost rank: Ranking<T>)
    requires lo + n <= a.Length && Holds(a, m) && Agrees(m, cmp, rank)
    modifies a
    ensures Holds(a, m) && Within(old(a[..]), a[..], lo, lo + n) && Heap(a[..], rank, lo, 0, n)
  {
    var i: nat := n / 2;
    while i > 0
      invariant Holds(a, m) && Within(old(a[..]), a[..], lo, lo + n) && Heap(a[..], rank, lo, i, n)
    {
      i := i - 1;
      Sift(a, cmp, lo, i, n, m, rank);
    }
  }

  /** The root of the first i + 1 elements joins the tail. */
  method TakeRoot<T(!new)>(a: array<T>, cmp: Comparator<T>, lo: nat, i: nat, n: nat, ghost m: multiset<T>, ghost rank: Ranking<T>)
    requires 0 < i < n && Holds(a, m) && Agrees(m, cmp, rank) && Heap(a[..], rank, lo, 0, i + 1) && Tail(a[..], rank, lo, i + 1, n)
    modifies a
    ensures Holds(a, m) && Within(old(a[..]), a[..], lo, lo + n) && Heap(a[..], rank, lo, 0, i) && Tail(a[..], rank, lo, i, n)
  {
    MoveRoot(a, lo, i, n, m, rank);
    ghost var s := a[..];
    Sift(a, cmp, lo, 0, i, m, rank);
    ghost var t := a[..];
    TailKept(s, t, rank, lo, i, n);
    WithinWider(s, t, lo, lo + i, lo + n);
    WithinTwice(old(a[..]), s, t, lo, lo + n);
  }

  /** The root goes to the end of the heap. */
  method MoveRoot<T>(a: array<T>, lo: nat, i: nat, ghost n: nat, ghost m: multiset<T>, ghost rank: Ranking<T>)
    requires 0 < i < n && Holds(a, m) && Heap(a[..], rank, lo, 0, i + 1) && Tail(a[..], rank, lo, i + 1, n)
    modifies a
    ensures Holds(a, m) && Within(old(a[..]), a[..], lo, lo + n) && Heap(a[..], rank, lo, 1, i) && Tail(a[..], rank, lo, i, n)
  {
    RootMoves(a[..], rank, lo, i, n);
    SwapWithin(a[..], a[..], lo, lo + n, lo, lo + i);
    Swap(a, lo, lo + i, m);
  }

  lemma WithinWider<T>(s: seq<T>, t: seq<T>, lo: nat, hi: nat, hi': nat)
    requires Within(s, t, lo, hi) && hi <= hi'
    ensures Within(s, t, lo, hi')
  {
  }

  lemma TailIsAll<T>(s: seq<T>, rank: Ranking<T>, lo: nat, n: nat)
    requires 0 < n && Tail(s, rank, lo, 1, n)
    ensures SortedRange(s, rank, lo, lo + n)
  {
  }

  /** heapsortx */
  method HeapSort<T(!new)>(a: array<T>, cmp: Comparator<T>, lo: nat, n: nat, ghost m: multiset<T>, ghost rank: Ranking<T>)
    requires lo + n <= a.Length && Holds(a, m) && Agrees(m, cmp, rank)
    modifies a
    ensures Holds(a, m) && Within(old(a[..]), a[..], lo, lo + n) && SortedRange(a[..], rank, lo, lo + n)
  {
    if n > 1 {
      BuildHeap(a, cmp, lo, n, m, rank);
      var i: nat := n - 1;
      while i > 0
        invariant i < n && Holds(a, m) && Within(old(a[..]), a[..], lo, lo + n)
        invariant Heap(a[..], rank, lo, 0, i + 1) && Tail(a[..], rank, lo, i + 1, n)
      {
        TakeRoot(a, cmp, lo, i, n, m, rank);
        i := i - 1;
      }
      TailIsAll(a[..], rank, lo, n);
    }
  }
}
