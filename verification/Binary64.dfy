/** Binary64 bit patterns: their numeric order, and the order in which doubles are sorted. */
module Binary64 {
  import opened Prelude
  import opened Comparators
  import Rqsort

  type Bits = b: int | 0 <= b < 0x1_0000_0000_0000_0000 witness 0

  const SIGN := 0x8000_0000_0000_0000
  const HIDDEN := 0x10_0000_0000_0000

  function Pow2(n: nat): (r: nat)
    ensures r > 0
  {
    if n == 0 then 1 else 2 * Pow2(n - 1)
  }

  function SignBit(x: Bits): bool { x >= SIGN }

  /** The pattern without its sign. */
  function Magnitude(x: Bits): (r: nat)
    ensures r < SIGN
  {
    x % SIGN
  }

  function Exponent(x: Bits): nat { Magnitude(x) / HIDDEN }

  function Mantissa(x: Bits): nat { Magnitude(x) % HIDDEN }

  predicate IsNaN(x: Bits) { Exponent(x) == 0x7ff && Mantissa(x) != 0 }

  /**
   * The absolute value in units of 2^-1074, the smallest subnormal: an integer for every finite
   * double.  Infinity is assigned the next power of two, above all of them.
   */
  function Scaled(x: Bits): nat {
    if Exponent(x) == 0 then Mantissa(x)
    else
      MulGrows(0, HIDDEN + Mantissa(x), 0, Pow2(Exponent(x) - 1));
      (HIDDEN + Mantissa(x)) * Pow2(Exponent(x) - 1)
  }

  function Numeric(x: Bits): int { if SignBit(x) then -(Scaled(x) as int) else Scaled(x) }

  /** The C operator <: false when either side is not a number. */
  predicate Less(x: Bits, y: Bits) {
    !IsNaN(x) && !IsNaN(y) && Numeric(x) < Numeric(y)
  }

  /** js_cmp_doubles */
  function CompareDoubles(x: Bits, y: Bits): int {
    if IsNaN(x) then (if IsNaN(y) then 0 else 1)
    else if IsNaN(y) then -1
    else if Less(x, y) then -1
    else if Less(y, x) then 1
    else if Numeric(x) != 0 then 0
    else if SignBit(x) then (if SignBit(y) then 0 else -1)
    else (if SignBit(y) then 1 else 0)
  }

  /** Where a pattern stands in the sorted order: an integer, the same for every NaN. */
  function Rank(x: Bits): int {
    if IsNaN(x) then SIGN else if SignBit(x) then -1 - Magnitude(x) else Magnitude(x)
  }

  lemma {:induction false} Pow2Grows(i: nat, j: nat)
    requires i <= j
    ensures Pow2(i) <= Pow2(j)
    decreases j
  {
    if i < j {
      Pow2Grows(i, j - 1);
    }
  }

  lemma MulGrows(a: nat, b: nat, c: nat, d: nat)
    requires a <= b && c <= d
    ensures a * c <= b * d
  {
    assert a * c <= b * c <= b * d;
  }

  lemma ScaledSameExponent(x: Bits, y: Bits)
    requires Exponent(x) == Exponent(y) && Mantissa(x) < Mantissa(y)
    ensures Scaled(x) < Scaled(y)
  {
    if Exponent(x) != 0 {
      var p := Pow2(Exponent(x) - 1);
      assert (HIDDEN + Mantissa(y)) * p - (HIDDEN + Mantissa(x)) * p == (Mantissa(y) - Mantissa(x)) * p;
      MulGrows(1, Mantissa(y) - Mantissa(x), 1, p);
    }
  }

  lemma ScaledLargerExponent(x: Bits, y: Bits)
    requires Exponent(x) < Exponent(y)
    ensures Scaled(x) < Scaled(y)
  {
    var ex, ey := Exponent(x), Exponent(y);
    // Scaled(x) < 2^(52 + ex) <= Scaled(y)
    assert Scaled(x) < HIDDEN * Pow2(ex) by {
      if ex > 0 {
        assert Pow2(ex) == 2 * Pow2(ex - 1);
        assert HIDDEN * Pow2(ex) - Scaled(x) == (HIDDEN - Mantissa(x)) * Pow2(ex - 1);
        MulGrows(1, HIDDEN - Mantissa(x), 1, Pow2(ex - 1));
      }
    }
    Pow2Grows(ex, ey - 1);
    MulGrows(HIDDEN, HIDDEN + Mantissa(y), Pow2(ex), Pow2(ey - 1));
  }

  /** Numeric order is the order of the patterns: more magnitude bits, larger value. */
  lemma ScaledIsMonotone(x: Bits, y: Bits)
    ensures Magnitude(x) < Magnitude(y) <==> Scaled(x) < Scaled(y)
    ensures Magnitude(x) == Magnitude(y) <==> Scaled(x) == Scaled(y)
  {
    MagnitudeSplits(x);
    MagnitudeSplits(y);
    if Exponent(x) < Exponent(y) {
      ScaledLargerExponent(x, y);
    } else if Exponent(y) < Exponent(x) {
      ScaledLargerExponent(y, x);
    } else if Mantissa(x) < Mantissa(y) {
      ScaledSameExponent(x, y);
    } else if Mantissa(y) < Mantissa(x) {
      ScaledSameExponent(y, x);
    }
  }

  lemma MagnitudeSplits(x: Bits)
    ensures Magnitude(x) == Exponent(x) * HIDDEN + Mantissa(x) && Mantissa(x) < HIDDEN
  {
  }

  lemma ScaledZero(x: Bits)
    ensures Scaled(x) == 0 <==> Magnitude(x) == 0
  {
    MagnitudeSplits(x);
    ScaledIsMonotone(x, 0);
  }

  /** The comparison used for sorting compares ranks: so it is a total preorder, with every NaN last and -0 just before +0. */
  lemma CompareIsByRank(x: Bits, y: Bits)
    ensures CompareDoubles(x, y) == Sign(Rank(x) - Rank(y))
  {
    ScaledIsMonotone(x, y);
    ScaledIsMonotone(y, x);
    ScaledZero(x);
    ScaledZero(y);
  }

  /** Patterns of one rank are equal, or both not a number. */
  lemma RankIsInjective(x: Bits, y: Bits)
    ensures Rank(x) == Rank(y) <==> x == y || (IsNaN(x) && IsNaN(y))
  {
  }

  /**
   * The order of two patterns in the words of the format alone: a pattern whose low 63 bits exceed those of
   * infinity, a NaN, has only such patterns after it; among the others patterns with the top bit come first,
   * those with it in descending and those without it in ascending order.
   */
  predicate PatternsInOrder(x: Bits, y: Bits) {
    && (x % 0x8000_0000_0000_0000 > 0x7FF0_0000_0000_0000 ==> y % 0x8000_0000_0000_0000 > 0x7FF0_0000_0000_0000)
    && (x % 0x8000_0000_0000_0000 <= 0x7FF0_0000_0000_0000 && y % 0x8000_0000_0000_0000 <= 0x7FF0_0000_0000_0000 ==>
          && (x < 0x8000_0000_0000_0000 && y < 0x8000_0000_0000_0000 ==> x <= y)
          && (x >= 0x8000_0000_0000_0000 && y >= 0x8000_0000_0000_0000 ==> x >= y)
          && !(x < 0x8000_0000_0000_0000 <= y))
  }

  lemma NaNByPattern(x: Bits)
    ensures IsNaN(x) <==> x % 0x8000_0000_0000_0000 > 0x7FF0_0000_0000_0000
  {
    MagnitudeSplits(x);
  }

  lemma LowBits(x: Bits)
    ensures x % 0x8000_0000_0000_0000 == if x < 0x8000_0000_0000_0000 then x else x - 0x8000_0000_0000_0000
  {
  }

  lemma RankByPattern(x: Bits, y: Bits)
    ensures Rank(x) <= Rank(y) <==> PatternsInOrder(x, y)
  {
    NaNByPattern(x);
    NaNByPattern(y);
    LowBits(x);
    LowBits(y);
  }

  /** The comparison puts x no later than y exactly when their patterns are in order. */
  lemma CompareIsByPattern(x: Bits, y: Bits)
    ensures CompareDoubles(x, y) <= 0 <==> PatternsInOrder(x, y)
  {
    CompareIsByRank(x, y);
    assert Sign(Rank(x) - Rank(y)) <= 0 <==> Rank(x) <= Rank(y);
    RankByPattern(x, y);
  }

  lemma {:induction false} Pow2Adds(i: nat, j: nat)
    ensures Pow2(i + j) == Pow2(i) * Pow2(j)
  {
    if i > 0 {
      Pow2Adds(i - 1, j);
      assert Pow2(i + j) == 2 * Pow2(i - 1 + j);
    }
  }

  lemma HiddenIsPow2()
    ensures HIDDEN == Pow2(52)
  {
    assert Pow2(4) == 16;
    Pow2Adds(4, 4);
    assert Pow2(8) == 256;
    Pow2Adds(8, 8);
    assert Pow2(16) == 0x1_0000;
    Pow2Adds(16, 16);
    assert Pow2(32) == 0x1_0000_0000;
    Pow2Adds(32, 16);
    Pow2Adds(48, 4);
  }

  /** A power of two from its exponent field. */
  lemma ScaledPower(x: Bits)
    requires Exponent(x) > 0 && Mantissa(x) == 0
    ensures Scaled(x) == Pow2(51 + Exponent(x))
  {
    HiddenIsPow2();
    Pow2Adds(52, Exponent(x) - 1);
    assert 52 + (Exponent(x) - 1) == 51 + Exponent(x);
  }

  /** One and minus one in units of 2^-1074. */
  lemma NumericOne()
    ensures Numeric(0x3FF0_0000_0000_0000) == Pow2(1074) && Numeric(0xBFF0_0000_0000_0000) == -(Pow2(1074) as int)
  {
    assert Exponent(0x3FF0_0000_0000_0000) == 1023 && Exponent(0xBFF0_0000_0000_0000) == 1023;
    ScaledPower(0x3FF0_0000_0000_0000);
    ScaledPower(0xBFF0_0000_0000_0000);
  }

  /** One half, two, and the smallest subnormal. */
  lemma NumericExamples()
    ensures Numeric(0x3FE0_0000_0000_0000) == Pow2(1073) && Numeric(0x4000_0000_0000_0000) == Pow2(1075)
    ensures Numeric(1) == 1 && Numeric(0x8000_0000_0000_0001) == -1
  {
    assert Exponent(0x3FE0_0000_0000_0000) == 1022 && Exponent(0x4000_0000_0000_0000) == 1024;
    ScaledPower(0x3FE0_0000_0000_0000);
    ScaledPower(0x4000_0000_0000_0000);
  }

  /** A sequence of doubles in the order rqsort leaves it. */
  predicate Sorted(s: seq<Bits>) {
    forall i, j :: 0 <= i < j < |s| ==> CompareDoubles(s[i], s[j]) <= 0
  }

  function Ranks(s: seq<Bits>): (r: seq<int>)
    ensures |r| == |s| && forall i :: 0 <= i < |s| ==> r[i] == Rank(s[i])
  {
    seq(|s|, i requires 0 <= i < |s| => Rank(s[i]))
  }

  lemma RanksPermute(p: seq<Bits>, q: seq<Bits>)
    requires multiset(p) == multiset(q)
    ensures multiset(Ranks(p)) == multiset(Ranks(q))
  {
    MapPermutes(Rank, p, q);
    assert Ranks(p) == Mapped(Rank, p) && Ranks(q) == Mapped(Rank, q);
  }

  ghost predicate Ascending(p: seq<int>) {
    forall i, j :: 0 <= i < j < |p| ==> p[i] <= p[j]
  }

  lemma SameGreatest(p: seq<int>, q: seq<int>)
    requires multiset(p) == multiset(q) && |p| == |q| > 0 && Ascending(p) && Ascending(q)
    ensures p[|p| - 1] == q[|q| - 1]
  {
    assert p[|p| - 1] in multiset(q) && q[|q| - 1] in multiset(p);
  }

  lemma PrefixAscending(p: seq<int>)
    requires p != [] && Ascending(p)
    ensures Ascending(p[..|p| - 1])
  {
  }

  /** Ascending sequences of integers with the same members are equal. */
  lemma {:induction false} AscendingUnique(p: seq<int>, q: seq<int>)
    requires multiset(p) == multiset(q) && Ascending(p) && Ascending(q)
    ensures p == q
    decreases |p|
  {
    SameSize(p, q);
    if p != [] {
      SameGreatest(p, q);
      DropSameLast(p, q);
      PrefixAscending(p);
      PrefixAscending(q);
      AscendingUnique(p[..|p| - 1], q[..|q| - 1]);
      EqualByLast(p, q);
    }
  }

  /** Sorting without a comparator needs no stability: any two sorted permutations agree, except in the payload of a NaN. */
  lemma DefaultSortUnique(p: seq<Bits>, q: seq<Bits>)
    requires multiset(p) == multiset(q) && Sorted(p) && Sorted(q)
    ensures |p| == |q| && forall i :: 0 <= i < |p| ==> p[i] == q[i] || (IsNaN(p[i]) && IsNaN(q[i]))
  {
    RanksPermute(p, q);
    forall i, j | 0 <= i < j < |p| ensures Rank(p[i]) <= Rank(p[j]) { CompareIsByRank(p[i], p[j]); }
    forall i, j | 0 <= i < j < |q| ensures Rank(q[i]) <= Rank(q[j]) { CompareIsByRank(q[i], q[j]); }
    AscendingUnique(Ranks(p), Ranks(q));
    forall i | 0 <= i < |p| ensures p[i] == q[i] || (IsNaN(p[i]) && IsNaN(q[i])) {
      assert Ranks(p)[i] == Ranks(q)[i];
      RankIsInjective(p[i], q[i]);
    }
  }

  lemma CompareConsistent(s: seq<Bits>)
    ensures Consistent(s, CompareDoubles)
  {
    forall x: Bits, y: Bits ensures Antisymmetric(CompareDoubles, x, y) {
      CompareIsByRank(x, y);
      CompareIsByRank(y, x);
    }
    forall x: Bits, y: Bits, z: Bits ensures Transitive(CompareDoubles, x, y, z) {
      CompareIsByRank(x, y);
      CompareIsByRank(y, z);
      CompareIsByRank(x, z);
    }
  }

  /** The default branch of js_typed_array_sort on a Float64Array. */
  method SortDoubles(a: array<Bits>)
    modifies a
    ensures multiset(a[..]) == multiset(old(a[..])) && Sorted(a[..])
    ensures forall i, j :: 0 <= i < j < a.Length ==> PatternsInOrder(a[i], a[j])
  {
    CompareConsistent(a[..]);
    Rqsort.Sort(a, CompareDoubles);
    forall i, j | 0 <= i < j < a.Length ensures PatternsInOrder(a[i], a[j]) {
      CompareIsByPattern(a[i], a[j]);
    }
  }
}
