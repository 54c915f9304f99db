/**
 * Typed-array methods whose argument conversions may resize the buffer.
 *
 * `len` is the element count when the method starts, `count` the one after the arguments were
 * converted; the storage behind the view may be longer than either.
 */
module TypedArrays {
  import opened Prelude

  const INT32_MIN := -0x8000_0000
  const INT32_MAX := 0x7FFF_FFFF

  /** JS_ToInt32Sat on an integral argument. */
  function Saturate32(n: int): int {
    if n < INT32_MIN then INT32_MIN else if n > INT32_MAX then INT32_MAX else n
  }

  /** JS_ToInt32Clamp(0, len, len): negative positions count from the end. */
  function Clamp(n: int, len: nat): (r: nat)
    ensures r <= len
    ensures len <= INT32_MAX ==> r == if n < 0 then Max(len + n, 0) else Min(n, len)
  {
    var v := Saturate32(n);
    if v < 0 then (if v + len < 0 then 0 else v + len)
    else if v > len then len else v
  }

  // ---------------------------------------------------------------- copyWithin

  /** What a block move of n cells leaves behind, read from the contents before it. */
  function Moved<T>(s: seq<T>, to: nat, from: nat, n: nat): (r: seq<T>)
    requires to + n <= |s| && from + n <= |s|
    ensures |r| == |s|
    ensures forall i :: 0 <= i < |s| ==> r[i] == if to <= i < to + n then s[from + (i - to)] else s[i]
  {
    s[..to] + s[from..from + n] + s[to + n..]
  }

  /** Copying upwards, allowed when no source cell is overwritten before it is read. */
  method CopyUp<T>(data: array<T>, to: nat, from: nat, n: nat)
    requires to + n <= data.Length && from + n <= data.Length
    requires to <= from || from + n <= to
    modifies data
    ensures forall j :: 0 <= j < data.Length ==>
      data[j] == if to <= j < to + n then old(data[from + (j - to)]) else old(data[j])
  {
    for i := 0 to n
      invariant forall j :: 0 <= j < data.Length ==>
        data[j] == if to <= j < to + i then old(data[from + (j - to)]) else old(data[j])
    {
      data[to + i] := data[from + i];
    }
  }

  method CopyDown<T>(data: array<T>, to: nat, from: nat, n: nat)
    requires to + n <= data.Length && from <= to
    modifies data
    ensures forall j :: 0 <= j < data.Length ==>
      data[j] == if to <= j < to + n then old(data[from + (j - to)]) else old(data[j])
  {
    for i := n downto 0
      invariant forall j :: 0 <= j < data.Length ==>
        data[j] == if to + i <= j < to + n then old(data[from + (j - to)]) else old(data[j])
    {
      data[to + i] := data[from + i];
    }
  }

  /** memmove */
  method MemMove<T>(data: array<T>, to: nat, from: nat, n: nat)
    requires to + n <= data.Length && from + n <= data.Length
    modifies data
    ensures data[..] == Moved(old(data[..]), to, from, n)
  {
    if from < to {
      CopyDown(data, to, from, n);
    } else {
      CopyUp(data, to, from, n);
    }
  }

  /** How many cells of a copy lie inside the first `limit` cells. */
  function Kept(to: nat, from: nat, n: nat, limit: nat): (r: nat)
    ensures r <= n && Min(to, limit) + r <= limit && Min(from, limit) + r <= limit
  {
    Max(0, Min(n, limit - Max(to, from)))
  }

  lemma KeptExactly(to: nat, from: nat, n: nat, limit: nat, i: nat)
    requires i < n
    ensures i < Kept(to, from, n, limit) <==> from + i < limit && to + i < limit
  {
  }

  /** A block move that keeps to the first `limit` cells. */
  function MovedWithin<T>(s: seq<T>, to: nat, from: nat, n: nat, limit: nat): (r: seq<T>)
    requires limit <= |s|
    ensures |r| == |s| && r[limit..] == s[limit..]
  {
    Moved(s, Min(to, limit), Min(from, limit), Kept(to, from, n, limit))
  }

  lemma MovedWithinAt<T>(s: seq<T>, to: nat, from: nat, n: nat, limit: nat)
    requires limit <= |s|
    ensures
      var kept := Kept(to, from, n, limit);
      forall j :: 0 <= j < |s| ==>
        MovedWithin(s, to, from, n, limit)[j] == if to <= j < to + kept then s[from + (j - to)] else s[j]
  {
  }

  lemma ByteMoved<T>(s: seq<T>, to: nat, from: nat, n: nat, limit: nat, j: nat)
    requires limit <= |s| && j < |s|
    ensures MovedWithin(s, to, from, n, limit)[j] == if to <= j < to + Kept(to, from, n, limit) then s[from + (j - to)] else s[j]
  {
    MovedWithinAt(s, to, from, n, limit);
  }

  /**
   * The byte loop of section 23.2.3.6 of ECMA-262: it runs backwards when the target overlaps the
   * end of the source, and passes over every byte at or beyond `limit`.
   */
  method ReferenceCopy<T>(data: array<T>, to: nat, from: nat, n: nat, limit: nat)
    requires limit <= data.Length
    modifies data
    ensures data[..] == MovedWithin(old(data[..]), to, from, n, limit)
  {
    if from < to < from + n {
      ReferenceDown(data, to, from, n, limit);
    } else {
      ReferenceUp(data, to, from, n, limit);
    }
    forall j | 0 <= j < data.Length ensures data[..][j] == MovedWithin(old(data[..]), to, from, n, limit)[j] {
      ByteMoved(old(data[..]), to, from, n, limit, j);
    }
  }

  method ReferenceDown<T>(data: array<T>, to: nat, from: nat, n: nat, limit: nat)
    requires limit <= data.Length && from < to < from + n
    modifies data
    ensures forall j :: 0 <= j < data.Length ==>
      data[j] == if to <= j < to + Kept(to, from, n, limit) then old(data[from + (j - to)]) else old(data[j])
  {
    ghost var kept := Kept(to, from, n, limit);
    var i := n;
    while i > 0
      invariant 0 <= i <= n
      invariant forall j :: 0 <= j < data.Length ==>
        data[j] == if to + i <= j < to + kept then old(data[from + (j - to)]) else old(data[j])
    {
      i := i - 1;
      KeptExactly(to, from, n, limit, i);
      if from + i < limit && to + i < limit {
        data[to + i] := data[from + i];
      }
    }
  }

  method ReferenceUp<T>(data: array<T>, to: nat, from: nat, n: nat, limit: nat)
    requires limit <= data.Length && !(from < to < from + n)
    modifies data
    ensures forall j :: 0 <= j < data.Length ==>
      data[j] == if to <= j < to + Kept(to, from, n, limit) then old(data[from + (j - to)]) else old(data[j])
  {
    ghost var kept := Kept(to, from, n, limit);
    var i := 0;
    while i < n
      invariant 0 <= i <= n
      invariant forall j :: 0 <= j < data.Length ==>
        data[j] == if to <= j < to + Min(i, kept) then old(data[from + (j - to)]) else old(data[j])
    {
      KeptExactly(to, from, n, limit, i);
      if from + i < limit && to + i < limit {
        data[to + i] := data[from + i];
      }
      i := i + 1;
    }
  }

  lemma ScaleMonotone(a: int, b: int, size: nat)
    requires a <= b
    ensures a * size <= b * size
  {
  }

  /** Cutting the count in elements is cutting it in bytes. */
  lemma KeptInBytes(to: nat, from: nat, n: nat, limit: nat, size: nat)
    requires size > 0
    ensures Kept(to * size, from * size, n * size, limit * size) == Kept(to, from, n, limit) * size
    ensures Min(to * size, limit * size) == Min(to, limit) * size && Min(from * size, limit * size) == Min(from, limit) * size
  {
    MinScales(to, limit, size);
    MinScales(from, limit, size);
    MaxScales(to, from, size);
    RoomScales(Max(to, from), n, limit, size);
  }

  lemma RoomScales(m: nat, n: nat, limit: nat, size: nat)
    ensures Max(0, Min(n * size, limit * size - m * size)) == Max(0, Min(n, limit - m)) * size
  {
    assert (limit - m) * size == limit * size - m * size;
    MinScales(n, limit - m, size);
    MaxScales(0, Min(n, limit - m), size);
  }

  lemma MinScales(a: int, b: int, size: nat)
    ensures Min(a * size, b * size) == Min(a, b) * size
  {
    ScaleMonotone(Min(a, b), Max(a, b), size);
  }

  lemma MaxScales(a: int, b: int, size: nat)
    ensures Max(a * size, b * size) == Max(a, b) * size
  {
    ScaleMonotone(Min(a, b), Max(a, b), size);
  }

  /** Cutting the element count first gives the same bytes as a byte loop that stops at the view's end. */
  lemma ElementMove<T>(s: seq<T>, size: nat, to: nat, from: nat, n: nat, count: nat)
    requires size > 0 && count * size <= |s|
    ensures
      var m := Kept(to, from, n, count);
      if m == 0 then MovedWithin(s, to * size, from * size, n * size, count * size) == s
      else
        && to * size + m * size <= count * size && from * size + m * size <= count * size
        && MovedWithin(s, to * size, from * size, n * size, count * size) == Moved(s, to * size, from * size, m * size)
  {
    KeptInBytes(to, from, n, count, size);
    var m := Kept(to, from, n, count);
    if m > 0 {
      ScaleMonotone(to + m, count, size);
      ScaleMonotone(from + m, count, size);
    }
  }

  /** The effect of copyWithin on the bytes of the storage, for a view that now has `count` elements. */
  function CopiedWithin<T>(s: seq<T>, size: nat, len: nat, count: nat, target: int, start: int, end: Option<int>): (r: seq<T>)
    requires size > 0 && count * size <= |s|
    ensures |r| == |s| && r[count * size..] == s[count * size..]
  {
    var to, from := Clamp(target, len), Clamp(start, len);
    var final := if end.Some? then Clamp(end.value, len) else len;
    var n := Max(0, Min(final - from, len - to));
    MovedWithin(s, to * size, from * size, n * size, count * size)
  }

  /** The `size` bytes from position `at` on. */
  function Slot<T>(s: seq<T>, at: nat, size: nat): seq<T> {
    if at + size <= |s| then s[at..at + size] else []
  }

  lemma SlotByte<T>(s: seq<T>, to: nat, from: nat, n: nat, limit: nat, at: nat, source: nat, size: nat, k: nat)
    requires limit <= |s| && at + size <= |s| && source + size <= |s| && k < size
    requires var kept := Kept(to, from, n, limit);
             if to <= at && at + size <= to + kept then source == from + (at - to)
             else source == at && (at + size <= to || to + kept <= at)
    ensures MovedWithin(s, to, from, n, limit)[at + k] == s[source + k]
  {
    ByteMoved(s, to, from, n, limit, at + k);
  }

  /** A slot that lies inside the moved block comes from its source, one outside is as it was. */
  lemma SlotMoved<T>(s: seq<T>, to: nat, from: nat, n: nat, limit: nat, at: nat, source: nat, size: nat)
    requires limit <= |s| && at + size <= |s| && source + size <= |s|
    requires var kept := Kept(to, from, n, limit);
             if to <= at && at + size <= to + kept then source == from + (at - to)
             else source == at && (at + size <= to || to + kept <= at)
    ensures Slot(MovedWithin(s, to, from, n, limit), at, size) == Slot(s, source, size)
  {
    var moved := MovedWithin(s, to, from, n, limit);
    var a, b := moved[at..at + size], s[source..source + size];
    forall k | 0 <= k < size ensures a[k] == b[k] {
      SlotByte(s, to, from, n, limit, at, source, size, k);
    }
  }

  lemma InBlock(to: nat, m: nat, i: nat, size: nat)
    ensures to <= i < to + m ==> to * size <= i * size && i * size + size <= to * size + m * size
    ensures i < to ==> i * size + size <= to * size
    ensures to + m <= i ==> to * size + m * size <= i * size
  {
    assert to * size + m * size == (to + m) * size && i * size + size == (i + 1) * size;
    if i < to {
      ScaleMonotone(i + 1, to, size);
    } else if i < to + m {
      ScaleMonotone(to, i, size);
      ScaleMonotone(i + 1, to + m, size);
    } else {
      ScaleMonotone(to + m, i, size);
    }
  }

  lemma InView(i: nat, count: nat, size: nat)
    requires i < count
    ensures i * size + size <= count * size
  {
    ScaleMonotone(i + 1, count, size);
  }

  /** The source of element i in bytes. */
  lemma SourceBytes(to: nat, from: nat, i: nat, size: nat)
    requires to <= i
    ensures (from + (i - to)) * size == from * size + (i * size - to * size)
  {
  }

  lemma ElementPlaces(size: nat, to: nat, from: nat, n: nat, count: nat, i: nat, j: nat)
    requires size > 0 && i < count && j < count
    requires j == if to <= i < to + Kept(to, from, n, count) then from + (i - to) else i
    ensures i * size + size <= count * size && j * size + size <= count * size
    ensures var kept := Kept(to * size, from * size, n * size, count * size);
            if to * size <= i * size && i * size + size <= to * size + kept then j * size == from * size + (i * size - to * size)
            else j * size == i * size && (i * size + size <= to * size || to * size + kept <= i * size)
  {
    KeptInBytes(to, from, n, count, size);
    InBlock(to, Kept(to, from, n, count), i, size);
    InView(i, count, size);
    InView(j, count, size);
    if to <= i {
      SourceBytes(to, from, i, size);
    }
  }

  lemma ElementMoved<T>(s: seq<T>, size: nat, to: nat, from: nat, n: nat, count: nat, i: nat, j: nat)
    requires size > 0 && count * size <= |s| && i < count && j < count
    requires j == if to <= i < to + Kept(to, from, n, count) then from + (i - to) else i
    ensures Slot(MovedWithin(s, to * size, from * size, n * size, count * size), i * size, size) == Slot(s, j * size, size)
  {
    ElementPlaces(size, to, from, n, count, i, j);
    SlotMoved(s, to * size, from * size, n * size, count * size, i * size, j * size, size);
  }

  lemma KeptRange(to: nat, from: nat, final: nat, len: nat, count: nat, i: nat)
    requires to <= len && i < count
    ensures to <= i < to + Kept(to, from, Max(0, Min(final - from, len - to)), count) <==>
            to <= i < len && from + (i - to) < final && from + (i - to) < count
  {
  }

  /**
   * copyWithin element by element: position i receives what was at the same distance behind `start` as i is behind
   * `target`, provided both lie inside the old length, the source before `end`, and both in what is left of the view.
   */
  lemma CopiedWithinAt<T>(s: seq<T>, size: nat, len: nat, count: nat, target: int, start: int, end: Option<int>, i: nat)
    requires size > 0 && count * size <= |s| && i < count
    ensures var to, from := Clamp(target, len), Clamp(start, len);
            var final := if end.Some? then Clamp(end.value, len) else len;
            var j := if to <= i < len && from + (i - to) < final && from + (i - to) < count then from + (i - to) else i;
            Slot(CopiedWithin(s, size, len, count, target, start, end), i * size, size) == Slot(s, j * size, size)
  {
    var to, from := Clamp(target, len), Clamp(start, len);
    var final := if end.Some? then Clamp(end.value, len) else len;
    var n: nat := Max(0, Min(final - from, len - to));
    var j := if to <= i < len && from + (i - to) < final && from + (i - to) < count then from + (i - to) else i;
    KeptRange(to, from, final, len, count, i);
    ElementMoved(s, size, to, from, n, count, i, j);
  }

  /** js_typed_array_copyWithin; `oob` says that the view is out of bounds after the conversions. */
  method CopyWithin<T>(data: array<T>, size: nat, len: nat, count: nat, oob: bool, target: int, start: int, end: Option<int>)
    returns (ok: bool)
    requires size > 0 && count * size <= data.Length
    modifies data
    ensures ok == !oob
    ensures oob ==> data[..] == old(data[..])
    ensures ok ==> data[..] == CopiedWithin(old(data[..]), size, len, count, target, start, end)
  {
    var to := Clamp(target, len);
    var from := Clamp(start, len);
    var final := if end.Some? then Clamp(end.value, len) else len;
    if oob {
      return false;
    }
    MoveElements(data, size, to, from, Min(final - from, len - to), count);
    return true;
  }

  /** The tail of copyWithin: at most `wanted` elements, and no more than the view has left. */
  method MoveElements<T>(data: array<T>, size: nat, to: nat, from: nat, wanted: int, count: nat)
    requires size > 0 && count * size <= data.Length
    modifies data
    ensures data[..] == MovedWithin(old(data[..]), to * size, from * size, Max(0, wanted) * size, count * size)
  {
    var n := Min(wanted, count - Max(to, from));
    CutMove(data[..], size, to, from, wanted, count, n);
    if n > 0 {
      MoveBlock(data, to * size, from * size, n * size, MovedWithin(data[..], to * size, from * size, Max(0, wanted) * size, count * size));
    }
  }

  /** memmove, where it is known what it leaves behind. */
  method MoveBlock<T>(data: array<T>, to: nat, from: nat, n: nat, ghost result: seq<T>)
    requires to + n <= data.Length && from + n <= data.Length && result == Moved(data[..], to, from, n)
    modifies data
    ensures data[..] == result
  {
    MemMove(data, to, from, n);
  }

  lemma CutMove<T>(s: seq<T>, size: nat, to: nat, from: nat, wanted: int, count: nat, n: int)
    requires size > 0 && count * size <= |s| && n == Min(wanted, count - Max(to, from))
    ensures
      if n <= 0 then MovedWithin(s, to * size, from * size, Max(0, wanted) * size, count * size) == s
      else
        && to * size + n * size <= |s| && from * size + n * size <= |s| && n * size >= 0
        && MovedWithin(s, to * size, from * size, Max(0, wanted) * size, count * size) == Moved(s, to * size, from * size, n * size)
  {
    assert Kept(to, from, Max(0, wanted), count) == Max(0, n);
    ElementMove(s, size, to, from, Max(0, wanted), count);
  }

  /** The same call carried out by the byte loop of ECMA-262: it leaves the same bytes. */
  method CopyWithinByBytes<T>(data: array<T>, size: nat, len: nat, count: nat, target: int, start: int, end: Option<int>)
    requires size > 0 && count * size <= data.Length
    modifies data
    ensures data[..] == CopiedWithin(old(data[..]), size, len, count, target, start, end)
  {
    var to, from := Clamp(target, len), Clamp(start, len);
    var final := if end.Some? then Clamp(end.value, len) else len;
    CopyBytes(data, size, to, from, Min(final - from, len - to), count);
  }

  method CopyBytes<T>(data: array<T>, size: nat, to: nat, from: nat, wanted: int, count: nat)
    requires size > 0 && count * size <= data.Length
    modifies data
    ensures data[..] == MovedWithin(old(data[..]), to * size, from * size, Max(0, wanted) * size, count * size)
  {
    var n: nat := Max(0, wanted);
    ReferenceCopy(data, to * size, from * size, n * size, count * size);
  }

  // ---------------------------------------------------------------- fill

  /** The contents with positions k to final set to v. */
  function Filled<T>(s: seq<T>, k: nat, final: nat, v: T): (r: seq<T>)
    requires final <= |s|
    ensures |r| == |s|
    ensures forall i :: 0 <= i < |s| ==> r[i] == if k <= i < final then v else s[i]
  {
    seq(|s|, i requires 0 <= i < |s| => if k <= i < final then v else s[i])
  }

  /** js_typed_array_fill on elements; `v` is the converted value cut to the element width. */
  method Fill<T>(view: array<T>, len: nat, count: nat, oob: bool, v: T, start: Option<int>, end: Option<int>) returns (ok: bool)
    requires count <= view.Length
    modifies view
    ensures ok == !oob
    ensures oob ==> view[..] == old(view[..])
    ensures ok ==>
      var k := if start.Some? then Clamp(start.value, len) else 0;
      var final := if end.Some? then Clamp(end.value, len) else len;
      view[..] == Filled(old(view[..]), k, Min(final, count), v)
  {
    var k := 0;
    if start.Some? {
      k := Clamp(start.value, len);
    }
    var final := len;
    if end.Some? {
      final := Clamp(end.value, len);
    }
    if oob {
      return false;
    }
    final := Min(final, count);
    ghost var first := k;
    while k < final
      invariant first <= k && (k <= final || k == first)
      invariant forall i :: 0 <= i < view.Length ==> view[i] == if first <= i < k then v else old(view[i])
    {
      view[k] := v;
      k := k + 1;
    }
    return true;
  }

  // ---------------------------------------------------------------- slice

  /**
   * js_typed_array_slice, once the result `dst` exists.  The block move and the element loop leave
   * the same contents: the surviving part of the slice, converted to the element type of `dst`.
   */
  method Slice<T>(src: array<T>, dst: array<T>, len: nat, newLen: nat, sameType: bool, convert: T -> T, start: int, end: Option<int>)
    requires src != dst && newLen <= src.Length
    requires sameType ==> forall i :: 0 <= i < src.Length ==> convert(src[i]) == src[i]
    modifies dst
    ensures
      var from := Clamp(start, len);
      var final := if end.Some? then Clamp(end.value, len) else len;
      forall i :: 0 <= i < dst.Length ==>
        dst[i] == if i < final - from && from + i < newLen then convert(src[from + i]) else old(dst[i])
  {
    var from := Clamp(start, len);
    var final := len;
    if end.Some? {
      final := Clamp(end.value, len);
    }
    var count := Max(final - from, 0);
    if count > 0 {
      if len == newLen && sameType && dst.Length >= count && newLen >= from + count {
        BlockMove(dst, src, from, count);
      } else {
        var space := Max(0, newLen - from);
        count := Min(count, space);
        for n := 0 to count
          invariant forall i :: 0 <= i < dst.Length ==> dst[i] == if i < n then convert(src[from + i]) else old(dst[i])
        {
          if n < dst.Length {
            dst[n] := convert(src[from + n]);
          }
        }
      }
    }
  }

  /** memmove between different buffers. */
  method BlockMove<T>(dst: array<T>, src: array<T>, from: nat, n: nat)
    requires src != dst && from + n <= src.Length && n <= dst.Length
    modifies dst
    ensures forall i :: 0 <= i < dst.Length ==> dst[i] == if i < n then src[from + i] else old(dst[i])
  {
    for k := 0 to n
      invariant forall i :: 0 <= i < dst.Length ==> dst[i] == if i < k then src[from + i] else old(dst[i])
    {
      dst[k] := src[from + k];
    }
  }

  // ---------------------------------------------------------------- join

  /** The parts with one separator between neighbours. */
  function Join(parts: seq<string>, sep: string): string {
    if |parts| == 0 then ""
    else if |parts| == 1 then parts[0]
    else Join(parts[..|parts| - 1], sep) + sep + parts[|parts| - 1]
  }

  /** The elements as they are found after the conversion, extended by empty entries to the first length. */
  function Entries(elements: seq<string>, oldLen: nat): (r: seq<string>)
    ensures |r| == oldLen
    ensures forall i :: 0 <= i < oldLen ==> r[i] == if i < |elements| then elements[i] else ""
  {
    seq(oldLen, i => if 0 <= i < |elements| then elements[i] else "")
  }

  lemma JoinPrefix(parts: seq<string>, sep: string, n: nat)
    requires n < |parts|
    ensures Join(parts[..n + 1], sep) == if n == 0 then parts[0] else Join(parts[..n], sep) + sep + parts[n]
  {
    assert parts[..n + 1][..n] == parts[..n];
  }

  /** js_typed_array_join; `elements` is the view after the separator was converted. */
  method JoinElements(elements: seq<string>, oldLen: nat, sep: string) returns (r: string)
    ensures r == Join(Entries(elements, oldLen), sep)
  {
    var newLen := |elements|;
    var len := Min(oldLen, newLen);
    ghost var parts := Entries(elements, oldLen);
    r := "";
    for i := 0 to len
      invariant r == Join(parts[..i], sep)
    {
      JoinPrefix(parts, sep, i);
      if i > 0 {
        r := r + sep;
      }
      r := r + elements[i];
    }
    if oldLen <= newLen {
      assert parts[..len] == parts;
    } else {
      r := AddSeparators(r, parts, newLen, oldLen, sep);
    }
  }

  /** The separators for the entries that are gone; the first entry of all has none. */
  method AddSeparators(r0: string, ghost parts: seq<string>, newLen: nat, oldLen: nat, sep: string) returns (r: string)
    requires newLen < oldLen == |parts| && r0 == Join(parts[..newLen], sep)
    requires forall i :: newLen <= i < |parts| ==> parts[i] == ""
    ensures r == Join(parts, sep)
  {
    r := r0;
    if newLen == 0 {
      JoinPrefix(parts, sep, 0);
    }
    var i := Max(1, newLen);
    while i < oldLen
      invariant Max(1, newLen) <= i <= oldLen && r == Join(parts[..i], sep)
    {
      JoinPrefix(parts, sep, i);
      r := r + sep;
      i := i + 1;
    }
    assert parts[..oldLen] == parts;
  }

  function TotalLength(parts: seq<string>): nat {
    if parts == [] then 0 else TotalLength(parts[..|parts| - 1]) + |parts[|parts| - 1]|
  }

  /** However the buffer was resized, join emits one separator less than the first length. */
  lemma {:induction false} JoinLength(parts: seq<string>, sep: string)
    ensures |Join(parts, sep)| == TotalLength(parts) + Max(|parts| - 1, 0) * |sep|
  {
    if |parts| > 1 {
      var n := |parts| - 1;
      JoinLength(parts[..n], sep);
      assert n * |sep| == (n - 1) * |sep| + |sep|;
    } else if |parts| == 1 {
      assert parts[..0] == [];
    }
  }

  /** Where part k begins in the joined text. */
  function Offset(parts: seq<string>, sep: string, k: nat): nat
    requires k <= |parts|
  {
    TotalLength(parts[..k]) + k * |sep|
  }

  /** Every part stands at its offset, and the separator after every part but the last. */
  lemma {:induction false} JoinAt(parts: seq<string>, sep: string, k: nat)
    requires k < |parts|
    ensures var from := Offset(parts, sep, k); var to := from + |parts[k]|;
            && to <= |Join(parts, sep)| && Join(parts, sep)[from..to] == parts[k]
            && (k < |parts| - 1 ==> to + |sep| <= |Join(parts, sep)| && Join(parts, sep)[to..to + |sep|] == sep)
    decreases |parts|
  {
    var n := |parts| - 1;
    var init := parts[..n];
    if |parts| == 1 {
      assert parts[..0] == [];
    } else if k == n {
      JoinLength(init, sep);
      LastBegins(n, |sep|);
    } else {
      JoinAt(init, sep, k);
      assert init[..k] == parts[..k];
      if k == n - 1 {
        LastOffset(init, sep);
      }
    }
  }

  lemma LastBegins(n: nat, m: nat)
    requires n > 0
    ensures n * m == Max(n - 1, 0) * m + m
  {
  }

  lemma LastOffset(parts: seq<string>, sep: string)
    requires parts != []
    ensures Offset(parts, sep, |parts| - 1) + |parts[|parts| - 1]| == |Join(parts, sep)|
  {
    JoinLength(parts, sep);
  }
}
