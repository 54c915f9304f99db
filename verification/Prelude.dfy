/** Small shared definitions: an optional value and totals over sequences of counts. */
module Prelude {

  datatype Option<+T> = None | Some(value: T)

  function Min(a: int, b: int): int { if a < b then a else b }

  function Max(a: int, b: int): int { if a > b then a else b }

  /** One if the condition holds, zero otherwise. */
  function Ind(b: bool): nat { if b then 1 else 0 }

  /** The sum of a sequence of counts. */
  function Total(xs: seq<nat>): nat
  {
    if xs == [] then 0 else Total(xs[..|xs| - 1]) + xs[|xs| - 1]
  }

  lemma {:induction false} TotalAppend(xs: seq<nat>, x: nat)
    ensures Total(xs + [x]) == Total(xs) + x
  {
    assert (xs + [x])[..|xs|] == xs;
  }

  /** Replacing one count changes the total by the difference. */
  lemma {:induction false} TotalUpdate(xs: seq<nat>, i: nat, x: nat)
    requires i < |xs|
    ensures Total(xs[i := x]) == Total(xs) - xs[i] + x
  {
    var n := |xs| - 1;
    if i == n {
      assert xs[i := x][..n] == xs[..n];
    } else {
      assert xs[i := x][..n] == xs[..n][i := x];
      TotalUpdate(xs[..n], i, x);
    }
  }

  /** A total is at least each of its parts. */
  lemma {:induction false} TotalAtLeast(xs: seq<nat>, i: nat)
    requires i < |xs|
    ensures xs[i] <= Total(xs)
  {
    if i < |xs| - 1 {
      TotalAtLeast(xs[..|xs| - 1], i);
    }
  }

  lemma {:induction false} TotalZero(xs: seq<nat>)
    requires forall i :: 0 <= i < |xs| ==> xs[i] == 0
    ensures Total(xs) == 0
  {
    if xs != [] {
      TotalZero(xs[..|xs| - 1]);
    }
  }

  /** The same last part appended on both sides. */
  lemma ConcatLast<T>(all: seq<T>, a: seq<T>, b: seq<T>, init: seq<T>, last: seq<T>)
    requires all == a + init + last && b == init + last
    ensures all == a + b
  {
  }

  lemma WithoutLast<T>(s: seq<T>)
    requires s != []
    ensures multiset(s[..|s| - 1]) == multiset(s) - multiset{s[|s| - 1]}
  {
    assert s == s[..|s| - 1] + [s[|s| - 1]];
  }

  lemma SameSize<T>(p: seq<T>, q: seq<T>)
    requires multiset(p) == multiset(q)
    ensures |p| == |q|
  {
    assert |multiset(p)| == |p| && |multiset(q)| == |q|;
  }

  /** Permutations with the same last element are permutations without it. */
  lemma DropSameLast<T>(p: seq<T>, q: seq<T>)
    requires multiset(p) == multiset(q) && |p| == |q| > 0 && p[|p| - 1] == q[|q| - 1]
    ensures multiset(p[..|p| - 1]) == multiset(q[..|q| - 1])
  {
    WithoutLast(p);
    WithoutLast(q);
  }

  lemma EqualByLast<T>(p: seq<T>, q: seq<T>)
    requires |p| == |q| > 0 && p[..|p| - 1] == q[..|q| - 1] && p[|p| - 1] == q[|q| - 1]
    ensures p == q
  {
    assert p == p[..|p| - 1] + [p[|p| - 1]] && q == q[..|q| - 1] + [q[|q| - 1]];
  }

  lemma RemoveAt<T>(s: seq<T>, j: nat)
    requires j < |s|
    ensures multiset(s[..j] + s[j + 1..]) == multiset(s) - multiset{s[j]}
  {
    assert s == s[..j] + [s[j]] + s[j + 1..];
  }

  function Mapped<A, B>(f: A -> B, s: seq<A>): (r: seq<B>)
    ensures |r| == |s| && forall i :: 0 <= i < |s| ==> r[i] == f(s[i])
  {
    seq(|s|, i requires 0 <= i < |s| => f(s[i]))
  }

  lemma MappedWithout<A, B>(f: A -> B, s: seq<A>, j: nat)
    requires j < |s|
    ensures multiset(Mapped(f, s)) == multiset(Mapped(f, s[..j] + s[j + 1..])) + multiset{f(s[j])}
  {
    assert Mapped(f, s[..j] + s[j + 1..]) == Mapped(f, s)[..j] + Mapped(f, s)[j + 1..];
    RemoveAt(Mapped(f, s), j);
  }

  /** A function applied to permutations of each other gives permutations of each other. */
  lemma {:induction false} MapPermutes<A, B>(f: A -> B, p: seq<A>, q: seq<A>)
    requires multiset(p) == multiset(q)
    ensures multiset(Mapped(f, p)) == multiset(Mapped(f, q))
    decreases |p|
  {
    SameSize(p, q);
    if p != [] {
      var n := |p| - 1;
      assert p[n] in multiset(q);
      var j :| 0 <= j < |q| && q[j] == p[n];
      RemoveAt(p, n);
      RemoveAt(q, j);
      MapPermutes(f, p[..n] + p[n + 1..], q[..j] + q[j + 1..]);
      MappedWithout(f, p, n);
      MappedWithout(f, q, j);
    }
  }
}
