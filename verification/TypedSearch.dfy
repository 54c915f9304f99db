/**
 * indexOf, lastIndexOf and includes on typed arrays of integers and BigInts.
 *
 * The code checks that the searched value is in the element type's range and then compares raw
 * cells with the value's bit pattern; the reference compares decoded elements with the value.
 */
module TypedSearch {
  import opened Prelude
  import opened TypedArrays

  datatype Element = Int8 | Uint8 | Uint8Clamped | Int16 | Uint16 | Int32 | Uint32 | BigInt64 | BigUint64

  /** A number that is an integer, any other number, a BigInt, undefined, or some other value. */
  datatype Value = Integer(n: int) | Fraction | Big(n: int) | Undefined | Other

  datatype Search = IndexOf | LastIndexOf | Includes

  const TWO8 := 0x100
  const TWO16 := 0x1_0000
  const TWO32 := 0x1_0000_0000
  const TWO64 := 0x1_0000_0000_0000_0000

  /** The number of different cells of the element type. */
  function Cells(e: Element): nat {
    match e
    case Int8 | Uint8 | Uint8Clamped => TWO8
    case Int16 | Uint16 => TWO16
    case Int32 | Uint32 => TWO32
    case BigInt64 | BigUint64 => TWO64
  }

  predicate Signed(e: Element) {
    e.Int8? || e.Int16? || e.Int32? || e.BigInt64?
  }

  predicate IsBig(e: Element) {
    e.BigInt64? || e.BigUint64?
  }

  predicate InRange(e: Element, n: int) {
    if Signed(e) then -(Cells(e) as int) / 2 <= n < Cells(e) / 2 else 0 <= n < Cells(e)
  }

  /** The element a raw cell stands for. */
  function Decode(e: Element, cell: nat): int {
    if Signed(e) && cell >= Cells(e) / 2 then cell - Cells(e) else cell
  }

  /** The numbers that each element type can hold. */
  lemma ElementRanges(n: int)
    ensures InRange(Int8, n) <==> -128 <= n <= 127
    ensures InRange(Uint8, n) <==> 0 <= n <= 255
    ensures InRange(Uint8Clamped, n) <==> 0 <= n <= 255
    ensures InRange(Int16, n) <==> -32_768 <= n <= 32_767
    ensures InRange(Uint16, n) <==> 0 <= n <= 65_535
    ensures InRange(Int32, n) <==> -2_147_483_648 <= n <= 2_147_483_647
    ensures InRange(Uint32, n) <==> 0 <= n <= 4_294_967_295
    ensures InRange(BigInt64, n) <==> -9_223_372_036_854_775_808 <= n <= 9_223_372_036_854_775_807
    ensures InRange(BigUint64, n) <==> 0 <= n <= 18_446_744_073_709_551_615
  {
  }

  /** Decoding is the one number of the type's range that is congruent to the cell. */
  lemma DecodeUnique(e: Element, cell: nat, n: int)
    requires cell < Cells(e)
    ensures Decode(e, cell) == n <==> InRange(e, n) && n % Cells(e) == cell
  {
    TwosComplement(Signed(e), Cells(e), cell, n);
  }

  /** Strict equality of an element with the searched value: a BigInt never equals a number. */
  predicate Equals(e: Element, cell: nat, v: Value) {
    if IsBig(e) then v.Big? && Decode(e, cell) == v.n else v.Integer? && Decode(e, cell) == v.n
  }

  predicate Cellular(e: Element, cells: seq<nat>) {
    forall i :: 0 <= i < |cells| ==> cells[i] < Cells(e)
  }

  /** An element equals the value exactly when the value is in range and its residue is the cell. */
  lemma EqualsByBits(e: Element, cell: nat, v: Value)
    requires cell < Cells(e)
    ensures Equals(e, cell, v) <==>
      (if IsBig(e) then v.Big? else v.Integer?) && InRange(e, v.n) && v.n % Cells(e) == cell
  {
    if v.Big? || v.Integer? {
      TwosComplement(Signed(e), Cells(e), cell, v.n);
    }
  }

  lemma TwosComplement(signed: bool, m: nat, cell: nat, n: int)
    requires m > 0 && m % 2 == 0 && cell < m
    ensures (if signed && cell >= m / 2 then cell - m else cell) == n <==>
      (if signed then -(m as int) / 2 <= n < m / 2 else 0 <= n < m) && n % m == cell
  {
    if -(m as int) <= n < m {
      Residue(n, m);
    }
  }

  lemma Residue(n: int, m: nat)
    requires m > 0 && -(m as int) <= n < m
    ensures n % m == if n < 0 then n + m else n
  {
    if n < 0 {
      assert n == -1 * m + (n + m);
    }
  }

  // ---------------------------------------------------------------- where to start

  /** The start of indexOf and includes. */
  function Start(from: Option<int>, len: nat): nat {
    if from.None? then 0 else Clamp(from.value, len)
  }

  /** JS_ToInt64Clamp(-1, len - 1, len) on an integral argument within int64_t. */
  function LastStart(from: Option<int>, len: nat): int {
    if from.None? then len - 1
    else
      var k := if from.value < 0 then from.value + len else from.value;
      if k < -1 then -1 else if k > len - 1 then len - 1 else k
  }

  /**
   * A search from the end starts at the last position that is not past `from`, a negative `from` counting back from the
   * length; if there is none the search is over before it begins.
   */
  lemma LastStartMeaning(from: Option<int>, len: nat, i: nat)
    requires i < len
    ensures -1 <= LastStart(from, len) < len
    ensures i <= LastStart(from, len) <==> from.None? || (if from.value < 0 then i - len <= from.value else i <= from.value)
  {
  }

  // ---------------------------------------------------------------- scans

  /** The first position from k on that holds v, or -1. */
  method ScanUp(cells: seq<nat>, k: nat, v: nat) returns (r: int)
    requires k <= |cells|
    ensures -1 <= r < |cells|
    ensures r >= 0 ==> k <= r && cells[r] == v
    ensures forall i :: k <= i < (if r >= 0 then r else |cells|) ==> cells[i] != v
  {
    var i := k;
    while i != |cells|
      invariant k <= i <= |cells|
      invariant forall j :: k <= j < i ==> cells[j] != v
    {
      if cells[i] == v {
        return i;
      }
      i := i + 1;
    }
    return -1;
  }

  /** The last position up to k that holds v, or -1. */
  method ScanDown(cells: seq<nat>, k: int, v: nat) returns (r: int)
    requires -1 <= k < |cells|
    ensures -1 <= r <= k
    ensures r >= 0 ==> cells[r] == v
    ensures forall i :: r < i <= k ==> cells[i] != v
  {
    var i := k;
    while i != -1
      invariant -1 <= i <= k
      invariant forall j :: i < j <= k ==> cells[j] != v
    {
      if cells[i] == v {
        return i;
      }
      i := i - 1;
    }
    return -1;
  }

  // ---------------------------------------------------------------- reference

  /** r is the position sections 23.2.3.16, 23.2.3.17 and 23.2.3.20 of ECMA-262 ask for. */
  ghost predicate Found(e: Element, cells: seq<nat>, lo: nat, hi: nat, last: bool, v: Value, r: int) {
    && -1 <= r
    && (r >= 0 ==> lo <= r < hi <= |cells| && Equals(e, cells[r], v))
    && (forall i :: lo <= i < hi <= |cells| && (r < 0 || (if last then r < i else i < r)) ==> !Equals(e, cells[i], v))
  }

  /** The one family of searches that goes wrong: a negative value looked up from the end of an Int8Array. */
  predicate Misses(e: Element, search: Search, v: Value) {
    e.Int8? && search.LastIndexOf? && v.Integer? && -128 <= v.n < 0
  }

  /** The pattern the scan compares with: 8-bit cells are compared with a 16-bit value when scanning down. */
  function Pattern(e: Element, search: Search, n: int): nat {
    if Cells(e) == TWO8 && search.LastIndexOf? then n % TWO16 else n % Cells(e)
  }

  lemma PatternMatches(e: Element, search: Search, cell: nat, v: Value)
    requires cell < Cells(e) && (if IsBig(e) then v.Big? else v.Integer?) && InRange(e, v.n)
    ensures !Misses(e, search, v) ==> (cell == Pattern(e, search, v.n) <==> Equals(e, cell, v))
    ensures Misses(e, search, v) ==> cell != Pattern(e, search, v.n)
  {
    EqualsByBits(e, cell, v);
    if Cells(e) == TWO8 {
      Residue(v.n, TWO16);
      Residue(v.n, TWO8);
    }
  }

  /** The type and range checks before the scans. */
  predicate Scannable(e: Element, v: Value) {
    if IsBig(e) then v.Big? && InRange(e, v.n) else v.Integer? && InRange(e, v.n)
  }

  /**
   * js_typed_array_indexOf.  `len` is the element count at the start, `cells` the view after the
   * conversions, `length` the byte length of the view divided by the element size.  When the view has not
   * shrunk the position found is the one asked for, unless the search is of the family that misses.
   */
  method Find(e: Element, cells: seq<nat>, len: nat, length: nat, search: Search, v: Value, from: Option<int>) returns (r: int)
    requires Cellular(e, cells)
    ensures len <= |cells| && !Misses(e, search, v) ==>
      Found(e, cells, if search.LastIndexOf? then 0 else Start(from, len),
            if search.LastIndexOf? then LastStart(from, len) + 1 else len, search.LastIndexOf?, v, r)
    ensures len <= |cells| && Misses(e, search, v) ==> r == -1
    ensures len > |cells| ==>
      r == if search.Includes? && v.Undefined? && Start(from, len) < length then 0 else -1
  {
    if len == 0 {
      return -1;
    }
    var k: int := if search.LastIndexOf? then LastStart(from, len) else Start(from, len);
    if k < 0 {
      return -1;
    }
    if len > |cells| {
      return if search.Includes? && v.Undefined? && k < length then 0 else -1;
    }
    if !Scannable(e, v) {
      NothingFound(e, cells, v);
      return -1;
    }
    r := Scan(e, cells, len, search, v, k);
  }

  /** The raw comparison, from position k. */
  method Scan(e: Element, cells: seq<nat>, len: nat, search: Search, v: Value, k: nat) returns (r: int)
    requires Cellular(e, cells) && len <= |cells| && Scannable(e, v)
    requires if search.LastIndexOf? then k < len else k <= len
    ensures !Misses(e, search, v) ==>
      Found(e, cells, if search.LastIndexOf? then 0 else k, if search.LastIndexOf? then k + 1 else len, search.LastIndexOf?, v, r)
    ensures Misses(e, search, v) ==> r == -1
  {
    var p := Pattern(e, search, v.n);
    forall i | 0 <= i < |cells|
      ensures !Misses(e, search, v) ==> (cells[i] == p <==> Equals(e, cells[i], v))
      ensures Misses(e, search, v) ==> cells[i] != p
    {
      PatternMatches(e, search, cells[i], v);
    }
    if search.LastIndexOf? {
      r := ScanDown(cells[..len], k, p);
    } else {
      r := ScanUp(cells[..len], k, p);
    }
  }

  lemma NothingFound(e: Element, cells: seq<nat>, v: Value)
    requires Cellular(e, cells) && !Scannable(e, v)
    ensures forall i :: 0 <= i < |cells| ==> !Equals(e, cells[i], v)
  {
    forall i | 0 <= i < |cells| ensures !Equals(e, cells[i], v) {
      EqualsByBits(e, cells[i], v);
    }
  }

  /** A search that misses is wrong exactly when the value is there to be found. */
  lemma MissIsWrong(cells: seq<nat>, hi: nat, n: int)
    requires Cellular(Int8, cells) && hi <= |cells| && -128 <= n < 0
    ensures Found(Int8, cells, 0, hi, true, Integer(n), -1) <==> n + 256 !in cells[..hi]
  {
    forall i | 0 <= i < hi ensures Equals(Int8, cells[i], Integer(n)) <==> cells[i] == n + 256 {
    }
    if n + 256 in cells[..hi] {
      var i :| 0 <= i < hi && cells[..hi][i] == n + 256;
      assert Equals(Int8, cells[i], Integer(n));
    }
  }

  /** For instance the last -1 of an Int8Array holding one element -1. */
  lemma MissExample()
    ensures !Found(Int8, [255], 0, 1, true, Integer(-1), -1) && Found(Int8, [255], 0, 1, true, Integer(-1), 0)
  {
    assert Equals(Int8, [255][0], Integer(-1));
  }
}
