/**
 * rqsort: quicksort with a three-way partition, an explicit stack of fifty segments, insertion sort
 * for small segments and heap sort once a segment is too deep.
 */
module Rqsort {
  import opened Prelude
  import opened Comparators
  import opened SortSteps

  // ---------------------------------------------------------------- partition

  /**
   * While segment [lo, hi) is partitioned around the pivot at lo: equal elements at both ends, then
   * smaller ones before i and larger ones from j, the rest unknown.
   */
  ghost predicate Split<T>(s: seq<T>, rank: Ranking<T>, lo: nat, lt: nat, i: nat, j: nat, gt: nat, hi: nat) {
    && lo < lt <= i <= j <= gt <= hi <= |s|
    && (forall k :: lo <= k < lt ==> Eq(rank, s[k], s[lo]))
    && (forall k :: lt <= k < i ==> Lt(rank, s[k], s[lo]))
    && (forall k :: j <= k < gt ==> Lt(rank, s[lo], s[k]))
    && (forall k :: gt <= k < hi ==> Eq(rank, s[k], s[lo]))
  }

  lemma SmallerBelow<T>(s: seq<T>, rank: Ranking<T>, lo: nat, lt: nat, i: nat, j: nat, gt: nat, hi: nat)
    requires Split(s, rank, lo, lt, i, j, gt, hi) && i < j && Lt(rank, s[i], s[lo])
    ensures Split(s, rank, lo, lt, i + 1, j, gt, hi)
  {
  }

  lemma EqualBelow<T>(s: seq<T>, rank: Ranking<T>, lo: nat, lt: nat, i: nat, j: nat, gt: nat, hi: nat)
    requires Split(s, rank, lo, lt, i, j, gt, hi) && i < j && Eq(rank, s[i], s[lo])
    ensures Split(Swapped(s, lt, i), rank, lo, lt + 1, i + 1, j, gt, hi)
  {
  }

  lemma LargerAbove<T>(s: seq<T>, rank: Ranking<T>, lo: nat, lt: nat, i: nat, j: nat, gt: nat, hi: nat)
    requires Split(s, rank, lo, lt, i, j + 1, gt, hi) && i <= j && Lt(rank, s[lo], s[j])
    ensures Split(s, rank, lo, lt, i, j, gt, hi)
  {
  }

  lemma EqualAbove<T>(s: seq<T>, rank: Ranking<T>, lo: nat, lt: nat, i: nat, j: nat, gt: nat, hi: nat)
    requires Split(s, rank, lo, lt, i, j + 1, gt, hi) && i <= j && Eq(rank, s[j], s[lo])
    ensures Split(Swapped(s, gt - 1, j), rank, lo, lt, i, j, gt - 1, hi)
  {
  }

  lemma Exchanged<T>(s: seq<T>, rank: Ranking<T>, lo: nat, lt: nat, i: nat, j: nat, gt: nat, hi: nat)
    requires Split(s, rank, lo, lt, i, j + 1, gt, hi) && i < j && Lt(rank, s[j], s[lo]) && Lt(rank, s[lo], s[i])
    ensures Split(Swapped(s, i, j), rank, lo, lt, i + 1, j, gt, hi)
  {
  }

  /** Passes over elements that are not larger than the pivot. */
  method ScanUp<T(!new)>(a: array<T>, cmp: Comparator<T>, lo: nat, lt0: nat, i0: nat, j: nat, ghost gt: nat, ghost hi: nat,
                         ghost m: multiset<T>, ghost rank: Ranking<T>)
    returns (lt: nat, i: nat)
    requires hi <= a.Length && Holds(a, m) && Agrees(m, cmp, rank) && Split(a[..], rank, lo, lt0, i0, j, gt, hi)
    modifies a
    ensures Holds(a, m) && Within(old(a[..]), a[..], lo, hi) && Split(a[..], rank, lo, lt, i, j, gt, hi)
    ensures i < j ==> Lt(rank, a[lo], a[i])
  {
    lt, i := lt0, i0;
    while i < j
      invariant Holds(a, m) && Within(old(a[..]), a[..], lo, hi) && Split(a[..], rank, lo, lt, i, j, gt, hi)
    {
      var c := Compare(a, cmp, lo, i, m, rank);
      if c < 0 {
        break;
      }
      if c == 0 {
        EqualBelow(a[..], rank, lo, lt, i, j, gt, hi);
        SwapWithin(old(a[..]), a[..], lo, hi, lt, i);
        Swap(a, lt, i, m);
        lt := lt + 1;
      } else {
        SmallerBelow(a[..], rank, lo, lt, i, j, gt, hi);
      }
      i := i + 1;
    }
  }

  /** Comes down over elements that are not smaller than the pivot; j is the last position looked at. */
  method ScanDown<T(!new)>(a: array<T>, cmp: Comparator<T>, lo: nat, ghost lt: nat, i: nat, j0: nat, gt0: nat, ghost hi: nat,
                           ghost m: multiset<T>, ghost rank: Ranking<T>)
    returns (j: nat, gt: nat)
    requires hi <= a.Length && Holds(a, m) && Agrees(m, cmp, rank) && Split(a[..], rank, lo, lt, i, j0, gt0, hi)
    requires i < j0 ==> Lt(rank, a[lo], a[i])
    modifies a
    ensures Holds(a, m) && Within(old(a[..]), a[..], lo, hi) && i <= j + 1 <= j0 && Split(a[..], rank, lo, lt, i, j + 1, gt, hi)
    ensures if i < j then Lt(rank, a[j], a[lo]) && Lt(rank, a[lo], a[i]) else Split(a[..], rank, lo, lt, i, i, gt, hi)
  {
    j, gt := j0 - 1, gt0;
    var stop := false;
    while i < j
      invariant i <= j + 1 <= j0 && Holds(a, m) && Within(old(a[..]), a[..], lo, hi) && Split(a[..], rank, lo, lt, i, j + 1, gt, hi)
      invariant i < j0 ==> Lt(rank, a[lo], a[i])
    {
      ghost var s := a[..];
      stop, gt := PassDown(a, cmp, lo, lt, i, j, gt, hi, m, rank);
      WithinTwice(old(a[..]), s, a[..], lo, hi);
      if stop {
        return;
      }
      j := j - 1;
    }
    if j == i {
      LargerAbove(a[..], rank, lo, lt, i, j, gt, hi);
    }
  }

  /** One step down; it stops at an element smaller than the pivot. */
  method PassDown<T(!new)>(a: array<T>, cmp: Comparator<T>, lo: nat, ghost lt: nat, i: nat, j: nat, gt0: nat, ghost hi: nat,
                           ghost m: multiset<T>, ghost rank: Ranking<T>)
    returns (stop: bool, gt: nat)
    requires hi <= a.Length && Holds(a, m) && Agrees(m, cmp, rank) && Split(a[..], rank, lo, lt, i, j + 1, gt0, hi) && i < j
    modifies a
    ensures Holds(a, m) && Within(old(a[..]), a[..], lo, hi) && a[i] == old(a[i]) && a[lo] == old(a[lo])
    ensures if stop then Lt(rank, a[j], a[lo]) && Split(a[..], rank, lo, lt, i, j + 1, gt, hi) else Split(a[..], rank, lo, lt, i, j, gt, hi)
  {
    gt := gt0;
    var c := Compare(a, cmp, lo, j, m, rank);
    stop := c > 0;
    if c == 0 {
      EqualAbove(a[..], rank, lo, lt, i, j, gt, hi);
      SwapWithin(a[..], a[..], lo, hi, gt - 1, j);
      gt := gt - 1;
      Swap(a, gt, j, m);
    } else if c < 0 {
      LargerAbove(a[..], rank, lo, lt, i, j, gt, hi);
    }
  }

  /** Both scans, and the exchange of the two elements they stopped at unless they met. */
  method Approach<T(!new)>(a: array<T>, cmp: Comparator<T>, lo: nat, lt0: nat, i0: nat, j0: nat, gt0: nat, ghost hi: nat,
                           ghost m: multiset<T>, ghost rank: Ranking<T>)
    returns (lt: nat, i: nat, j: nat, gt: nat, met: bool)
    requires hi <= a.Length && Holds(a, m) && Agrees(m, cmp, rank) && Split(a[..], rank, lo, lt0, i0, j0, gt0, hi)
    modifies a
    ensures Holds(a, m) && Within(old(a[..]), a[..], lo, hi) && j < j0
    ensures Split(a[..], rank, lo, lt, i, if met then i else j, gt, hi)
  {
    lt, i := ScanUp(a, cmp, lo, lt0, i0, j0, gt0, hi, m, rank);
    ghost var s := a[..];
    j, gt := ScanDown(a, cmp, lo, lt, i, j0, gt0, hi, m, rank);
    WithinTwice(old(a[..]), s, a[..], lo, hi);
    met := i >= j;
    if !met {
      Exchanged(a[..], rank, lo, lt, i, j, gt, hi);
      SwapWithin(old(a[..]), a[..], lo, hi, i, j);
      Swap(a, i, j, m);
      i := i + 1;
    }
  }

  /** The partition loop: everything is classified. */
  method Classify<T(!new)>(a: array<T>, cmp: Comparator<T>, lo: nat, hi: nat, ghost m: multiset<T>, ghost rank: Ranking<T>)
    returns (lt: nat, i: nat, gt: nat)
    requires lo < hi <= a.Length && Holds(a, m) && Agrees(m, cmp, rank)
    modifies a
    ensures Holds(a, m) && Within(old(a[..]), a[..], lo, hi) && Split(a[..], rank, lo, lt, i, i, gt, hi)
  {
    i, lt := lo + 1, lo + 1;
    var j, met := hi, false;
    gt := hi;
    while !met
      invariant Holds(a, m) && Within(old(a[..]), a[..], lo, hi) && Split(a[..], rank, lo, lt, i, if met then i else j, gt, hi)
      decreases !met, j
    {
      ghost var s := a[..];
      lt, i, j, gt, met := Approach(a, cmp, lo, lt, i, j, gt, hi, m, rank);
      WithinTwice(old(a[..]), s, a[..], lo, hi);
    }
  }

  /** Exchanges two blocks of n elements that do not overlap. */
  method SwapBlocks<T>(a: array<T>, x: nat, y: nat, n: nat, ghost m: multiset<T>)
    requires x + n <= y && y + n <= a.Length && Holds(a, m)
    modifies a
    ensures Holds(a, m)
    ensures forall k :: 0 <= k < a.Length ==>
      a[k] == if x <= k < x + n then old(a[y + (k - x)]) else if y <= k < y + n then old(a[x + (k - y)]) else old(a[k])
  {
    for d := 0 to n
      invariant Holds(a, m)
      invariant forall k :: 0 <= k < a.Length ==>
        a[k] == if x <= k < x + d then old(a[y + (k - x)]) else if y <= k < y + d then old(a[x + (k - y)]) else old(a[k])
    {
      Swap(a, x + d, y + d, m);
    }
  }

  /** Smaller elements, then those equal to the pivot, then larger ones. */
  ghost predicate Parted<T>(s: seq<T>, rank: Ranking<T>, p: T, lo: nat, l: nat, g: nat, hi: nat) {
    && lo <= l < g <= hi <= |s|
    && (forall k :: lo <= k < l ==> Lt(rank, s[k], p))
    && (forall k :: l <= k < g ==> Eq(rank, s[k], p))
    && (forall k :: g <= k < hi ==> Lt(rank, p, s[k]))
  }

  /** The equal elements at the front change places with the last of the smaller ones. */
  method GatherLeft<T>(a: array<T>, lo: nat, lt: nat, i: nat, ghost gt: nat, ghost hi: nat, ghost m: multiset<T>, ghost rank: Ranking<T>)
    returns (l: nat, ghost p: T)
    requires hi <= a.Length && Holds(a, m) && Split(a[..], rank, lo, lt, i, i, gt, hi)
    modifies a
    ensures Holds(a, m) && Within(old(a[..]), a[..], lo, hi) && Parted(a[..], rank, p, lo, l, i, i)
    ensures forall k :: i <= k < hi ==> a[k] == old(a[k])
    ensures p == old(a[lo])
  {
    p := a[lo];
    l := lo + (i - lt);
    var span := Min(lt - lo, i - lt);
    SwapBlocks(a, lo, i - span, span, m);
  }

  /** The equal elements at the end change places with the first of the larger ones. */
  method GatherRight<T>(a: array<T>, ghost lo: nat, ghost l: nat, i: nat, gt: nat, hi: nat, ghost p: T, ghost m: multiset<T>, ghost rank: Ranking<T>)
    returns (g: nat)
    requires i <= gt <= hi <= a.Length && Holds(a, m) && Parted(a[..], rank, p, lo, l, i, i)
    requires forall k :: i <= k < gt ==> Lt(rank, p, a[k])
    requires forall k :: gt <= k < hi ==> Eq(rank, a[k], p)
    modifies a
    ensures Holds(a, m) && Within(old(a[..]), a[..], lo, hi) && Parted(a[..], rank, p, lo, l, g, hi)
  {
    g := hi - (gt - i);
    var span := Min(hi - gt, gt - i);
    SwapBlocks(a, i, hi - span, span, m);
  }

  /** med3 */
  method Median<T(!new)>(a: array<T>, cmp: Comparator<T>, x: nat, y: nat, z: nat, ghost m: multiset<T>, ghost rank: Ranking<T>) returns (k: nat)
    requires x < a.Length && y < a.Length && z < a.Length && Holds(a, m) && Agrees(m, cmp, rank)
    ensures k == x || k == y || k == z
    ensures Ind(Le(rank, a[x], a[k])) + Ind(Le(rank, a[y], a[k])) + Ind(Le(rank, a[z], a[k])) >= 2
    ensures Ind(Le(rank, a[k], a[x])) + Ind(Le(rank, a[k], a[y])) + Ind(Le(rank, a[k], a[z])) >= 2
  {
    var xy := Compare(a, cmp, x, y, m, rank);
    var yz := Compare(a, cmp, y, z, m, rank);
    var xz := Compare(a, cmp, x, z, m, rank);
    if xy < 0 {
      return if yz < 0 then y else if xz < 0 then z else x;
    } else {
      return if yz > 0 then y else if xz < 0 then x else z;
    }
  }

  /** One partition step on [lo, hi): the pivot is the median of three. */
  method Partition<T(!new)>(a: array<T>, cmp: Comparator<T>, lo: nat, hi: nat, ghost m: multiset<T>, ghost rank: Ranking<T>)
    returns (l: nat, g: nat, ghost p: T)
    requires lo + 6 < hi <= a.Length && Holds(a, m) && Agrees(m, cmp, rank)
    modifies a
    ensures Holds(a, m) && Within(old(a[..]), a[..], lo, hi) && Parted(a[..], rank, p, lo, l, g, hi)
  {
    var m4 := (hi - lo) / 4;
    var pivot := Median(a, cmp, lo + m4, lo + 2 * m4, lo + 3 * m4, m, rank);
    SwapWithin(a[..], a[..], lo, hi, lo, pivot);
    Swap(a, lo, pivot, m);
    ghost var s := a[..];
    l, g, p := Divide(a, cmp, lo, hi, m, rank);
    WithinTwice(old(a[..]), s, a[..], lo, hi);
  }

  /** The partition around the element at lo. */
  method Divide<T(!new)>(a: array<T>, cmp: Comparator<T>, lo: nat, hi: nat, ghost m: multiset<T>, ghost rank: Ranking<T>)
    returns (l: nat, g: nat, ghost p: T)
    requires lo < hi <= a.Length && Holds(a, m) && Agrees(m, cmp, rank)
    modifies a
    ensures Holds(a, m) && Within(old(a[..]), a[..], lo, hi) && Parted(a[..], rank, p, lo, l, g, hi)
  {
    var lt, i, gt := Classify(a, cmp, lo, hi, m, rank);
    ghost var s := a[..];
    l, p := GatherLeft(a, lo, lt, i, gt, hi, m, rank);
    ghost var t := a[..];
    WithinTwice(old(a[..]), s, t, lo, hi);
    assert forall k :: i <= k < hi ==> t[k] == s[k];
    g := GatherRight(a, lo, l, i, gt, hi, p, m, rank);
    WithinTwice(old(a[..]), t, a[..], lo, hi);
  }

  // ---------------------------------------------------------------- pending segments

  /** A segment still to be sorted, and the number of partitions that led to it. */
  datatype Segment = Segment(base: nat, count: nat, depth: nat)

  function End(g: Segment): nat {
    g.base + g.count
  }

  /** Nothing before x is larger than anything from x on. */
  ghost predicate Cut<T>(s: seq<T>, rank: Ranking<T>, x: nat) {
    forall i, j :: 0 <= i < x <= j < |s| ==> Le(rank, s[i], s[j])
  }

  ghost predicate Inside(segs: seq<Segment>, x: nat) {
    exists k :: 0 <= k < |segs| && segs[k].base < x < End(segs[k])
  }

  predicate Apart(g: Segment, h: Segment) {
    End(g) <= h.base || End(h) <= g.base
  }

  /** The segments are disjoint, and every boundary that is not strictly inside one of them is a cut. */
  ghost predicate Pending<T>(s: seq<T>, rank: Ranking<T>, segs: seq<Segment>) {
    && (forall k :: 0 <= k < |segs| ==> End(segs[k]) <= |s| && Cut(s, rank, segs[k].base) && Cut(s, rank, End(segs[k])))
    && (forall j, k :: 0 <= j < k < |segs| ==> Apart(segs[j], segs[k]))
    && (forall x: nat {:trigger Cut(s, rank, x)} {:trigger Inside(segs, x)} :: x <= |s| ==> Cut(s, rank, x) || Inside(segs, x))
  }

  /** Rearranging [lo, hi) keeps the cuts outside its interior. */
  lemma CutKept<T>(s: seq<T>, t: seq<T>, rank: Ranking<T>, lo: nat, hi: nat, x: nat)
    requires Within(s, t, lo, hi) && multiset(s) == multiset(t) && lo <= hi <= |s| && Cut(s, rank, x) && (x <= lo || hi <= x)
    ensures Cut(t, rank, x)
  {
    forall i, j | 0 <= i < x <= j < |t| ensures Le(rank, t[i], t[j]) {
      var i' := i;
      if lo <= i < hi {
        i' := PartMember(s, t, lo, hi, i);
      }
      var j' := j;
      if lo <= j < hi {
        j' := PartMember(s, t, lo, hi, j);
      }
    }
  }

  /** What rearranging the last segment keeps for the others. */
  lemma OthersKept<T>(s: seq<T>, t: seq<T>, rank: Ranking<T>, segs: seq<Segment>, cur: Segment)
    requires Pending(s, rank, segs + [cur]) && Within(s, t, cur.base, End(cur)) && multiset(s) == multiset(t)
    ensures Cut(t, rank, cur.base) && Cut(t, rank, End(cur)) && End(cur) <= |t|
    ensures forall k :: 0 <= k < |segs| ==>
      End(segs[k]) <= |t| && Cut(t, rank, segs[k].base) && Cut(t, rank, End(segs[k])) && Apart(segs[k], cur)
    ensures forall j, k :: 0 <= j < k < |segs| ==> Apart(segs[j], segs[k])
    ensures forall x: nat :: x <= |t| && !(cur.base < x < End(cur)) ==> Cut(t, rank, x) || Inside(segs, x)
  {
    var all := segs + [cur];
    assert all[|segs|] == cur;
    CutKept(s, t, rank, cur.base, End(cur), cur.base);
    CutKept(s, t, rank, cur.base, End(cur), End(cur));
    forall k | 0 <= k < |segs|
      ensures End(segs[k]) <= |t| && Cut(t, rank, segs[k].base) && Cut(t, rank, End(segs[k])) && Apart(segs[k], cur)
    {
      assert all[k] == segs[k] && Apart(all[k], all[|segs|]);
      CutKept(s, t, rank, cur.base, End(cur), segs[k].base);
      CutKept(s, t, rank, cur.base, End(cur), End(segs[k]));
    }
    forall j, k | 0 <= j < k < |segs| ensures Apart(segs[j], segs[k]) {
      assert all[j] == segs[j] && all[k] == segs[k];
    }
    forall x: nat | x <= |t| && !(cur.base < x < End(cur)) ensures Cut(t, rank, x) || Inside(segs, x) {
      if Cut(s, rank, x) {
        CutKept(s, t, rank, cur.base, End(cur), x);
      } else {
        assert Inside(all, x);
        var k :| 0 <= k < |all| && all[k].base < x < End(all[k]);
        assert k < |segs| && segs[k] == all[k];
      }
    }
  }

  /** A sorted segment is no longer pending. */
  lemma SegmentDone<T>(s: seq<T>, t: seq<T>, rank: Ranking<T>, segs: seq<Segment>, cur: Segment)
    requires Pending(s, rank, segs + [cur]) && Within(s, t, cur.base, End(cur)) && multiset(s) == multiset(t)
    requires SortedRange(t, rank, cur.base, End(cur))
    ensures Pending(t, rank, segs)
  {
    OthersKept(s, t, rank, segs, cur);
    forall x: nat | cur.base < x < End(cur) ensures Cut(t, rank, x) {
      SortedCuts(t, rank, cur.base, End(cur), x);
    }
  }

  lemma SortedCuts<T>(t: seq<T>, rank: Ranking<T>, lo: nat, hi: nat, x: nat)
    requires SortedRange(t, rank, lo, hi) && Cut(t, rank, lo) && Cut(t, rank, hi) && lo < x < hi
    ensures Cut(t, rank, x)
  {
  }

  /** The boundaries from l to g of a partitioned segment are cuts. */
  lemma PartedCuts<T>(t: seq<T>, rank: Ranking<T>, p: T, lo: nat, l: nat, g: nat, hi: nat, x: nat)
    requires Parted(t, rank, p, lo, l, g, hi) && Cut(t, rank, lo) && Cut(t, rank, hi) && l <= x <= g
    ensures Cut(t, rank, x)
  {
    forall i, j | 0 <= i < x <= j < |t| ensures Le(rank, t[i], t[j]) {
      assert lo <= i ==> i >= hi || Le(rank, t[i], p);
      assert j < hi ==> j < lo || Le(rank, p, t[j]);
    }
  }

  /** A partitioned segment is replaced by its two outer parts, in either order. */
  lemma SegmentSplit<T>(s: seq<T>, t: seq<T>, rank: Ranking<T>, segs: seq<Segment>, cur: Segment, p: T, l: nat, g: nat, one: Segment, two: Segment)
    requires Pending(s, rank, segs + [cur]) && Within(s, t, cur.base, End(cur)) && multiset(s) == multiset(t)
    requires Parted(t, rank, p, cur.base, l, g, End(cur))
    requires (one.base == cur.base && End(one) == l && two.base == g && End(two) == End(cur))
          || (two.base == cur.base && End(two) == l && one.base == g && End(one) == End(cur))
    ensures Pending(t, rank, segs + [one, two])
  {
    OthersKept(s, t, rank, segs, cur);
    var all := segs + [one, two];
    assert all[|segs|] == one && all[|segs| + 1] == two;
    PartedCuts(t, rank, p, cur.base, l, g, End(cur), l);
    PartedCuts(t, rank, p, cur.base, l, g, End(cur), g);
    forall x: nat | x <= |t| ensures Cut(t, rank, x) || Inside(all, x) {
      if l <= x <= g {
        PartedCuts(t, rank, p, cur.base, l, g, End(cur), x);
      } else if cur.base < x < End(cur) {
        var k := if one.base < x < End(one) then |segs| else |segs| + 1;
        assert all[k].base < x < End(all[k]);
      } else if Inside(segs, x) {
        var k :| 0 <= k < |segs| && segs[k].base < x < End(segs[k]);
        assert all[k] == segs[k];
      }
    }
    forall j, k | 0 <= j < k < |all| ensures Apart(all[j], all[k]) {
      if k < |segs| {
        assert all[j] == segs[j] && all[k] == segs[k];
      } else if j < |segs| {
        assert all[j] == segs[j] && Apart(segs[j], cur);
      }
    }
    forall k | 0 <= k < |all| ensures End(all[k]) <= |t| && Cut(t, rank, all[k].base) && Cut(t, rank, End(all[k])) {
      if k < |segs| {
        assert all[k] == segs[k];
      }
    }
  }

  /** With nothing pending the whole array is sorted. */
  lemma NothingPending<T>(s: seq<T>, rank: Ranking<T>)
    requires Pending(s, rank, [])
    ensures SortedRange(s, rank, 0, |s|)
  {
    forall i, j | 0 <= i < j < |s| ensures Le(rank, s[i], s[j]) {
      assert !Inside([], j);
      assert Cut(s, rank, j);
    }
  }

  // ---------------------------------------------------------------- the sort

  const STACK_SIZE := 50
  const MAX_DEPTH := 50

  /** An entry of the stack lies at most as high as its depth, so depths up to fifty never need more than fifty entries. */
  predicate Shallow(stack: seq<Segment>) {
    |stack| <= STACK_SIZE && forall k :: 0 <= k < |stack| ==> k <= stack[k].depth <= MAX_DEPTH
  }

  /** What is left to do. */
  function Weight(segs: seq<Segment>): nat {
    if segs == [] then 0 else Weight(segs[..|segs| - 1]) + 2 * segs[|segs| - 1].count + 1
  }

  lemma WeightAppend(segs: seq<Segment>, g: Segment)
    ensures Weight(segs + [g]) == Weight(segs) + 2 * g.count + 1
  {
    assert (segs + [g])[..|segs|] == segs;
  }

  /** One more entry on the stack, which has room for fifty. */
  function Push(stack: seq<Segment>, g: Segment): (r: seq<Segment>)
    requires |stack| < STACK_SIZE
    ensures |r| <= STACK_SIZE
  {
    stack + [g]
  }

  /** One partition: the larger part goes on the stack, the smaller one is next. */
  method SplitSegment<T(!new)>(a: array<T>, cmp: Comparator<T>, stack: seq<Segment>, cur: Segment, ghost m: multiset<T>, ghost rank: Ranking<T>)
    returns (stack': seq<Segment>, cur': Segment)
    requires Holds(a, m) && Agrees(m, cmp, rank) && cur.count > 6 && Pending(a[..], rank, stack + [cur])
    requires Shallow(stack) && |stack| <= cur.depth < MAX_DEPTH
    modifies a
    ensures Holds(a, m) && Pending(a[..], rank, stack' + [cur'])
    ensures Shallow(stack') && |stack'| <= cur'.depth <= MAX_DEPTH
    ensures Weight(stack') + 2 * cur'.count < Weight(stack) + 2 * cur.count && cur'.count < cur.count
  {
    var depth := cur.depth + 1;
    assert (stack + [cur])[|stack|] == cur;
    ghost var s := a[..];
    var l, g, p := Partition(a, cmp, cur.base, End(cur), m, rank);
    var left := Segment(cur.base, l - cur.base, depth);
    var right := Segment(g, End(cur) - g, depth);
    var larger := if left.count > right.count then left else right;
    cur' := if left.count > right.count then right else left;
    SegmentSplit(s, a[..], rank, stack, cur, p, l, g, larger, cur');
    stack' := Push(stack, larger);
    assert stack + [larger, cur'] == stack' + [cur'];
    WeightAppend(stack, larger);
  }

  /** The inner loop and the insertion sort: the segment is sorted or its larger parts are on the stack. */
  method Process<T(!new)>(a: array<T>, cmp: Comparator<T>, stack0: seq<Segment>, cur0: Segment, ghost m: multiset<T>, ghost rank: Ranking<T>)
    returns (stack: seq<Segment>)
    requires Holds(a, m) && Agrees(m, cmp, rank) && Pending(a[..], rank, stack0 + [cur0])
    requires Shallow(stack0) && |stack0| <= cur0.depth <= MAX_DEPTH
    modifies a
    ensures Holds(a, m) && Pending(a[..], rank, stack) && Shallow(stack)
    ensures Weight(stack) <= Weight(stack0) + 2 * cur0.count
  {
    stack := stack0;
    var cur := cur0;
    while cur.count > 6
      invariant Holds(a, m) && Pending(a[..], rank, stack + [cur]) && Shallow(stack) && |stack| <= cur.depth <= MAX_DEPTH
      invariant Weight(stack) + 2 * cur.count <= Weight(stack0) + 2 * cur0.count
      decreases cur.count
    {
      if cur.depth == MAX_DEPTH {
        assert (stack + [cur])[|stack|] == cur;
        ghost var s := a[..];
        HeapSort(a, cmp, cur.base, cur.count, m, rank);
        SegmentDone(s, a[..], rank, stack, cur);
        return;
      }
      stack, cur := SplitSegment(a, cmp, stack, cur, m, rank);
    }
    assert (stack + [cur])[|stack|] == cur;
    ghost var s := a[..];
    InsertionSort(a, cmp, cur.base, End(cur), m, rank);
    SegmentDone(s, a[..], rank, stack, cur);
  }

  /** rqsort, given the ranks of the elements. */
  method SortRanked<T(!new)>(a: array<T>, cmp: Comparator<T>, ghost m: multiset<T>, ghost rank: Ranking<T>)
    requires Holds(a, m) && Agrees(m, cmp, rank)
    modifies a
    ensures Holds(a, m) && SortedRange(a[..], rank, 0, a.Length)
  {
    if a.Length < 2 {
      return;
    }
    var stack := [Segment(0, a.Length, 0)];
    WholePending(a[..], rank);
    while |stack| > 0
      invariant Holds(a, m) && Pending(a[..], rank, stack) && Shallow(stack)
      decreases Weight(stack)
    {
      var n := |stack| - 1;
      var cur := stack[n];
      assert stack == stack[..n] + [cur];
      WeightAppend(stack[..n], cur);
      stack := Process(a, cmp, stack[..n], cur, m, rank);
    }
    NothingPending(a[..], rank);
  }

  lemma WholePending<T>(s: seq<T>, rank: Ranking<T>)
    ensures Pending(s, rank, [Segment(0, |s|, 0)])
  {
    var segs := [Segment(0, |s|, 0)];
    forall x: nat | x <= |s| ensures Cut(s, rank, x) || Inside(segs, x) {
      if 0 < x < |s| {
        assert segs[0].base < x < End(segs[0]);
      }
    }
  }

  // ---------------------------------------------------------------- any consistent comparator

  /** How many elements compare below x. */
  function CountBelow<T>(s: seq<T>, cmp: Comparator<T>, x: T): nat {
    if s == [] then 0 else CountBelow(s[..|s| - 1], cmp, x) + Ind(cmp(s[|s| - 1], x) < 0)
  }

  lemma {:induction false} BelowGrows<T>(all: seq<T>, s: seq<T>, cmp: Comparator<T>, x: T, y: T)
    requires Consistent(all, cmp) && x in all && y in all && cmp(x, y) <= 0 && forall z :: z in s ==> z in all
    ensures CountBelow(s, cmp, x) <= CountBelow(s, cmp, y)
    ensures cmp(x, y) < 0 && x in s ==> CountBelow(s, cmp, x) < CountBelow(s, cmp, y)
    decreases |s|
  {
    if s != [] {
      var n := |s| - 1;
      BelowGrows(all, s[..n], cmp, x, y);
      BelowStep(all, cmp, s[n], x, y);
      assert s == s[..n] + [s[n]];
    }
  }

  lemma BelowStep<T>(all: seq<T>, cmp: Comparator<T>, z: T, x: T, y: T)
    requires Consistent(all, cmp) && x in all && y in all && z in all && cmp(x, y) <= 0
    ensures cmp(z, x) < 0 ==> cmp(z, y) < 0
    ensures !(cmp(x, x) < 0)
  {
    assert Transitive(cmp, x, y, z) && Antisymmetric(cmp, x, z) && Antisymmetric(cmp, y, z) && Antisymmetric(cmp, x, x);
    assert Antisymmetric(cmp, z, x) && Antisymmetric(cmp, z, y);
  }

  /** Counting gives the elements of a sequence ranks that agree with the comparator. */
  lemma CountingRanks<T(!new)>(s: seq<T>, cmp: Comparator<T>)
    requires Consistent(s, cmp)
    ensures Agrees(multiset(s), cmp, Some(x => CountBelow(s, cmp, x)))
  {
    forall x, y | x in multiset(s) && y in multiset(s)
      ensures cmp(x, y) < 0 <==> CountBelow(s, cmp, x) < CountBelow(s, cmp, y)
      ensures cmp(x, y) > 0 <==> CountBelow(s, cmp, x) > CountBelow(s, cmp, y)
    {
      assert x in s && y in s;
      assert Antisymmetric(cmp, x, y) && Antisymmetric(cmp, y, x);
      if cmp(x, y) <= 0 {
        BelowGrows(s, s, cmp, x, y);
      }
      if cmp(y, x) <= 0 {
        BelowGrows(s, s, cmp, y, x);
      }
    }
  }

  /**
   * rqsort.  With any comparator it ends and leaves a permutation of the array; with one that is
   * consistent on the array's elements the array is sorted.
   */
  method Sort<T(==, !new)>(a: array<T>, cmp: Comparator<T>)
    modifies a
    ensures multiset(a[..]) == multiset(old(a[..]))
    ensures Consistent(old(a[..]), cmp) ==> forall i, j :: 0 <= i < j < a.Length ==> cmp(a[i], a[j]) <= 0
  {
    ghost var s := a[..];
    ghost var rank: Ranking<T> := None;
    if Consistent(s, cmp) {
      CountingRanks(s, cmp);
      rank := Some(x => CountBelow(s, cmp, x));
    }
    SortRanked(a, cmp, multiset(s), rank);
    if Consistent(s, cmp) {
      RankedIsSorted(a[..], cmp, rank);
    }
  }

  lemma RankedIsSorted<T(!new)>(s: seq<T>, cmp: Comparator<T>, rank: Ranking<T>)
    requires rank.Some? && Agrees(multiset(s), cmp, rank) && SortedRange(s, rank, 0, |s|)
    ensures forall i, j :: 0 <= i < j < |s| ==> cmp(s[i], s[j]) <= 0
  {
    forall i, j | 0 <= i < j < |s| ensures cmp(s[i], s[j]) <= 0 {
      assert s[i] in multiset(s) && s[j] in multiset(s);
    }
  }
}
