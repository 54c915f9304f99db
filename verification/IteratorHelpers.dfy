/**
 * Iterator helpers: the lazy map, filter, take, drop and flatMap objects.
 *
 * The source iterator is the list of what its next() will still do; it may throw at any point.
 * Callbacks are functions of the item and its index, and may raise.
 */
module IteratorHelpers {
  import opened Prelude

  datatype Event<V> = Item(value: V) | Throws

  datatype Call<R> = Returns(value: R) | Raises

  datatype Kind<!V> =
    | Drop
    | Take
    | Map(f: (V, int) -> Call<V>)
    | Filter(p: (V, int) -> Call<bool>)
    | FlatMap(g: (V, int) -> Call<seq<Event<V>>>)

  datatype Outcome<V> = Yield(value: V) | Threw | Finished

  /** What the source's return() does: whether the source is finished afterwards, and whether the call throws. */
  datatype Closing = Closing(ends: bool, throws: bool)

  // ---------------------------------------------------------------- what is still to come

  /** The source after a failing call of next() has closed it. */
  function Shut<V>(closing: Closing, source: seq<Event<V>>): seq<Event<V>> {
    if closing.ends then [] else source
  }

  /** An iterator passed through unchanged. */
  function All<V>(source: seq<Event<V>>, closing: Closing): seq<Outcome<V>>
    decreases |source|
  {
    if source == [] then []
    else if source[0].Throws? then [Threw] + All(Shut(closing, source[1..]), closing)
    else [Yield(source[0].value)] + All(source[1..], closing)
  }

  function Dropping<V>(source: seq<Event<V>>, count: int, closing: Closing): seq<Outcome<V>>
    decreases |source|
  {
    if count <= 0 then All(source, closing)
    else if source == [] then []
    else if source[0].Throws? then [Threw] + Dropping(Shut(closing, source[1..]), count - 1, closing)
    else Dropping(source[1..], count - 1, closing)
  }

  /** When the limit is reached the source is closed, which may throw. */
  function Taking<V>(source: seq<Event<V>>, count: int, closing: Closing): seq<Outcome<V>>
    decreases |source|
  {
    if count <= 0 then (if closing.throws then [Threw] else [])
    else if source == [] then []
    else if source[0].Throws? then [Threw] + Taking(Shut(closing, source[1..]), count - 1, closing)
    else [Yield(source[0].value)] + Taking(source[1..], count - 1, closing)
  }

  function Mapping<V>(f: (V, int) -> Call<V>, source: seq<Event<V>>, i: int, closing: Closing): seq<Outcome<V>>
    decreases |source|
  {
    if source == [] then []
    else if source[0].Throws? then [Threw] + Mapping(f, Shut(closing, source[1..]), i, closing)
    else
      var c := f(source[0].value, i);
      if c.Raises? then [Threw] + Mapping(f, Shut(closing, source[1..]), i + 1, closing)
      else [Yield(c.value)] + Mapping(f, source[1..], i + 1, closing)
  }

  function Filtering<V>(p: (V, int) -> Call<bool>, source: seq<Event<V>>, i: int, closing: Closing): seq<Outcome<V>>
    decreases |source|
  {
    if source == [] then []
    else if source[0].Throws? then [Threw] + Filtering(p, Shut(closing, source[1..]), i, closing)
    else
      var c := p(source[0].value, i);
      if c.Raises? then [Threw] + Filtering(p, Shut(closing, source[1..]), i + 1, closing)
      else (if c.value then [Yield(source[0].value)] else []) + Filtering(p, source[1..], i + 1, closing)
  }

  /** The items of an inner iterator, cut at its first exception. */
  function Inner<V>(events: seq<Event<V>>): seq<Outcome<V>> {
    if events == [] then []
    else if events[0].Throws? then [Threw]
    else [Yield(events[0].value)] + Inner(events[1..])
  }

  /** The source once an inner iterator is through: an exception of the inner one closes it. */
  function AfterInner<V>(events: seq<Event<V>>, source: seq<Event<V>>, closing: Closing): (r: seq<Event<V>>)
    ensures |r| <= |source|
  {
    if events == [] then source
    else if events[0].Throws? then Shut(closing, source)
    else AfterInner(events[1..], source, closing)
  }

  function FlatMapping<V>(g: (V, int) -> Call<seq<Event<V>>>, source: seq<Event<V>>, i: int, closing: Closing): seq<Outcome<V>>
    decreases |source|
  {
    if source == [] then []
    else if source[0].Throws? then [Threw] + FlatMapping(g, Shut(closing, source[1..]), i, closing)
    else
      var c := g(source[0].value, i);
      if c.Raises? then [Threw] + FlatMapping(g, Shut(closing, source[1..]), i + 1, closing)
      else Inner(c.value) + FlatMapping(g, AfterInner(c.value, source[1..], closing), i + 1, closing)
  }

  function Flat<V>(g: (V, int) -> Call<seq<Event<V>>>, source: seq<Event<V>>, i: int, inner: Option<seq<Event<V>>>, closing: Closing): seq<Outcome<V>> {
    if inner.Some? then Inner(inner.value) + FlatMapping(g, AfterInner(inner.value, source, closing), i, closing)
    else FlatMapping(g, source, i, closing)
  }

  /** Starting an inner iterator changes nothing of what is to come. */
  lemma FlatEnters<V>(g: (V, int) -> Call<seq<Event<V>>>, source: seq<Event<V>>, i: int, closing: Closing)
    requires source != [] && source[0].Item? && g(source[0].value, i).Returns?
    ensures Flat(g, source, i, None, closing) == Flat(g, source[1..], i + 1, Some(g(source[0].value, i).value), closing)
  {
  }

  /** Neither does leaving an exhausted one; otherwise its first event comes next. */
  lemma FlatInner<V>(g: (V, int) -> Call<seq<Event<V>>>, source: seq<Event<V>>, i: int, events: seq<Event<V>>, closing: Closing)
    ensures events == [] ==> Flat(g, source, i, Some(events), closing) == Flat(g, source, i, None, closing)
    ensures events != [] && events[0].Throws? ==>
      Flat(g, source, i, Some(events), closing) == [Threw] + Flat(g, Shut(closing, source), i, None, closing)
    ensures events != [] && events[0].Item? ==>
      Flat(g, source, i, Some(events), closing) == [Yield(events[0].value)] + Flat(g, source, i, Some(events[1..]), closing)
  {
  }

  /** What a helper over the given source will produce, before its first call. */
  function Outcomes<V>(kind: Kind<V>, source: seq<Event<V>>, count: int, closing: Closing): seq<Outcome<V>> {
    match kind
    case Drop => Dropping(source, count, closing)
    case Take => Taking(source, count, closing)
    case Map(f) => Mapping(f, source, count, closing)
    case Filter(p) => Filtering(p, source, count, closing)
    case FlatMap(g) => Flat(g, source, count, None, closing)
  }

  /** The source holds nothing the helper would deliver. */
  predicate NothingLeft<V>(kind: Kind<V>, source: seq<Event<V>>, count: int) {
    match kind
    case Drop => |source| <= Max(count, 0) && forall k :: 0 <= k < |source| ==> source[k].Item?
    case Take => source == []
    case Map(_) => source == []
    case Filter(p) => forall k :: 0 <= k < |source| ==> source[k].Item? && p(source[k].value, count + k) == Returns(false)
    case FlatMap(g) => forall k :: 0 <= k < |source| ==> source[k].Item? && g(source[k].value, count + k) == Returns([])
  }

  /** Nothing is to come exactly when the source holds nothing to deliver, or take is at its limit and closing does not throw. */
  lemma NothingLeftToDeliver<V>(kind: Kind<V>, source: seq<Event<V>>, count: int, closing: Closing)
    ensures Outcomes(kind, source, count, closing) == [] <==>
      if kind.Take? && count <= 0 then !closing.throws else NothingLeft(kind, source, count)
  {
    match kind {
      case Drop => NothingDropped(source, count, closing);
      case Take =>
      case Map(_) =>
      case Filter(_) => NothingSelected(kind, source, count, closing);
      case FlatMap(_) => NothingFlattened(kind, source, count, closing);
    }
  }

  lemma {:induction false} NothingDropped<V>(source: seq<Event<V>>, count: int, closing: Closing)
    ensures Dropping(source, count, closing) == [] <==> NothingLeft<V>(Drop, source, count)
  {
    if count > 0 && source != [] && source[0].Item? {
      NothingDropped(source[1..], count - 1, closing);
      assert (forall k :: 0 <= k < |source| ==> source[k].Item?) <==> forall k :: 0 <= k < |source[1..]| ==> source[1..][k].Item? by {
        assert forall k :: 0 < k < |source| ==> source[k] == source[1..][k - 1];
      }
    }
  }

  lemma {:induction false} NothingSelected<V>(kind: Kind<V>, source: seq<Event<V>>, i: int, closing: Closing)
    requires kind.Filter?
    ensures Filtering(kind.p, source, i, closing) == [] <==> NothingLeft(kind, source, i)
    decreases |source|
  {
    if source != [] && source[0].Item? && kind.p(source[0].value, i) == Returns(false) {
      NothingSelected(kind, source[1..], i + 1, closing);
      assert forall k :: 0 < k < |source| ==> source[k] == source[1..][k - 1] && i + 1 + (k - 1) == i + k;
    }
  }

  lemma {:induction false} NothingFlattened<V>(kind: Kind<V>, source: seq<Event<V>>, i: int, closing: Closing)
    requires kind.FlatMap?
    ensures FlatMapping(kind.g, source, i, closing) == [] <==> NothingLeft(kind, source, i)
    decreases |source|
  {
    if source != [] && source[0].Item? && kind.g(source[0].value, i) == Returns([]) {
      NothingFlattened(kind, source[1..], i + 1, closing);
      assert forall k :: 0 < k < |source| ==> source[k] == source[1..][k - 1] && i + 1 + (k - 1) == i + k;
    }
  }

  /** 2^63: limits from here on do not survive the conversion to int64_t. */
  const TWO63 := 0x8000_0000_0000_0000

  /** JS_ToInt64: reduction modulo 2^64 to the signed range. */
  function ToInt64(n: int): int {
    var m := n % (2 * TWO63);
    if m < TWO63 then m else m - 2 * TWO63
  }

  /** The number argument of take and drop. */
  datatype Limit = NaN | PlusInfinity | MinusInfinity | Finite(n: int)

  const MAX_SAFE_INTEGER := 0x1F_FFFF_FFFF_FFFF

  function LimitCount(limit: Limit): int {
    match limit
    case NaN => -1
    case MinusInfinity => -1
    case PlusInfinity => MAX_SAFE_INTEGER
    case Finite(n) => ToInt64(n)
  }

  /** Whether creation succeeds, and what the new helper will produce. */
  function Created<V>(kind: Kind<V>, source: seq<Event<V>>, limit: Limit, closing: Closing): Option<seq<Outcome<V>>> {
    if !(kind.Drop? || kind.Take?) then Some(Outcomes(kind, source, 0, closing))
    else if LimitCount(limit) < 0 then None
    else Some(Outcomes(kind, source, LimitCount(limit), closing))
  }

  /** js_create_iterator_helper: a range error when the converted limit is negative. */
  method Create<V>(kind: Kind<V>, source: seq<Event<V>>, limit: Limit, closing: Closing) returns (r: Option<Helper<V>>)
    ensures r.None? <==> Created(kind, source, limit, closing).None?
    ensures r.Some? ==> fresh(r.value) && !r.value.executing && !r.value.done && r.value.kind == kind
    ensures r.Some? ==> r.value.Pending() == Created(kind, source, limit, closing).value
  {
    var count := 0;
    if kind.Drop? || kind.Take? {
      count := LimitCount(limit);
      if count < 0 {
        return None;
      }
    }
    var h := new Helper(kind, source, count, closing);
    return Some(h);
  }

  /** JS_CLASS_ITERATOR_HELPER */
  class Helper<V> {
    const kind: Kind<V>
    const closing: Closing
    var source: seq<Event<V>>
    var count: int
    var inner: Option<seq<Event<V>>>
    var executing: bool
    var done: bool

    constructor (kind: Kind<V>, source: seq<Event<V>>, count: int, closing: Closing)
      ensures this.kind == kind && this.closing == closing && this.source == source && this.count == count
      ensures inner.None? && !executing && !done
    {
      this.kind := kind;
      this.closing := closing;
      this.source := source;
      this.count := count;
      this.inner := None;
      this.executing := false;
      this.done := false;
    }

    /** What calls of next() will still produce before the helper is finished. */
    function Pending(): seq<Outcome<V>>
      reads this`source, this`count, this`inner, this`done
    {
      if done then []
      else if kind.FlatMap? then Flat(kind.g, source, count, inner, closing)
      else Outcomes(kind, source, count, closing)
    }

    /** JS_IteratorNext on the underlying iterator: None when it is done.  User code runs only while `executing` is set. */
    method Pull() returns (e: Option<Event<V>>)
      requires executing
      modifies this`source
      ensures old(source) == [] ==> e.None? && source == []
      ensures old(source) != [] ==> e == Some(old(source)[0]) && source == old(source)[1..]
    {
      if source == [] {
        e := None;
      } else {
        e := Some(source[0]);
        source := source[1..];
      }
    }

    /** The failing exit: JS_IteratorClose on the underlying iterator. */
    method Fail() returns (r: Outcome<V>)
      requires executing
      modifies this`source
      ensures r.Threw? && source == Shut(closing, old(source))
    {
      if closing.ends {
        source := [];
      }
      return Threw;
    }

    method NextDrop() returns (r: Outcome<V>)
      requires executing
      requires kind.Drop? && !done
      modifies this`source, this`count
      ensures r.Finished? <==> old(Pending()) == []
      ensures r.Finished? ==> Pending() == []
      ensures old(Pending()) != [] ==> r == old(Pending())[0] && Pending() == old(Pending())[1..]
      ensures r.Threw? && closing.ends ==> source == []
    {
      while count > 0
        invariant Pending() == old(Pending())
        decreases |source|
      {
        count := count - 1;
        var e := Pull();
        if e.None? {
          return Finished;
        }
        if e.value.Throws? {
          r := Fail();
          return;
        }
      }
      var e := Pull();
      if e.None? {
        return Finished;
      }
      if e.value.Throws? {
        r := Fail();
        return;
      }
      return Yield(e.value.value);
    }

    method NextTake() returns (r: Outcome<V>, pdone: bool)
      requires executing
      requires kind.Take? && !done
      modifies this`source, this`count
      ensures pdone <==> old(count) <= 0 || old(source) == []
      ensures r.Finished? <==> old(Pending()) == []
      ensures r.Finished? ==> pdone
      ensures old(Pending()) != [] ==> r == old(Pending())[0] && (if pdone then old(Pending())[1..] == [] else Pending() == old(Pending())[1..])
      ensures r.Threw? && !pdone && closing.ends ==> source == []
    {
      if count > 0 {
        count := count - 1;
        var e := Pull();
        if e.None? {
          return Finished, true;
        }
        if e.value.Throws? {
          r := Fail();
          return r, false;
        }
        return Yield(e.value.value), false;
      }
      return if closing.throws then Threw else Finished, true;
    }

    method NextMap() returns (r: Outcome<V>)
      requires executing
      requires kind.Map? && !done
      modifies this`source, this`count
      ensures r.Finished? <==> old(Pending()) == []
      ensures r.Finished? ==> Pending() == []
      ensures old(Pending()) != [] ==> r == old(Pending())[0] && Pending() == old(Pending())[1..]
      ensures r.Threw? && closing.ends ==> source == []
    {
      var e := Pull();
      if e.None? {
        return Finished;
      }
      if e.value.Throws? {
        r := Fail();
        return;
      }
      var c := kind.f(e.value.value, count);
      count := count + 1;
      if c.Raises? {
        r := Fail();
        return;
      }
      return Yield(c.value);
    }

    /** The next item of the source is offered to the callback; None when it is not selected. */
    method FilterOne() returns (r: Option<Outcome<V>>)
      requires executing
      requires kind.Filter? && !done
      modifies this`source, this`count
      ensures r.None? ==> |source| < |old(source)| && Pending() == old(Pending())
      ensures r.Some? ==> (r.value.Finished? <==> old(Pending()) == [])
      ensures r.Some? && r.value.Finished? ==> Pending() == []
      ensures r.Some? && !r.value.Finished? ==> old(Pending()) == [r.value] + Pending()
      ensures r.Some? && r.value.Threw? && closing.ends ==> source == []
    {
      var e := Pull();
      if e.None? {
        return Some(Finished);
      }
      if e.value.Throws? {
        var f := Fail();
        return Some(f);
      }
      var selected := kind.p(e.value.value, count);
      count := count + 1;
      if selected.Raises? {
        var f := Fail();
        return Some(f);
      }
      return if selected.value then Some(Yield(e.value.value)) else None;
    }

    method NextFilter() returns (r: Outcome<V>)
      requires executing
      requires kind.Filter? && !done
      modifies this`source, this`count
      ensures r.Finished? <==> old(Pending()) == []
      ensures r.Finished? ==> Pending() == []
      ensures old(Pending()) != [] ==> r == old(Pending())[0] && Pending() == old(Pending())[1..]
      ensures r.Threw? && closing.ends ==> source == []
    {
      while true
        invariant Pending() == old(Pending())
        decreases |source|
      {
        var o := FilterOne();
        if o.Some? {
          return o.value;
        }
      }
    }

    /** The next item of the source is mapped and its result becomes the inner iterator. */
    method OpenInner() returns (r: Option<Outcome<V>>)
      requires executing
      requires kind.FlatMap? && !done && inner.None?
      modifies this`source, this`count, this`inner
      ensures r.None? ==> inner.Some? && |source| < |old(source)| && Pending() == old(Pending())
      ensures r.Some? ==> inner.None? && (r.value.Finished? <==> old(Pending()) == [])
      ensures r.Some? && r.value.Finished? ==> Pending() == []
      ensures r.Some? && !r.value.Finished? ==> old(Pending()) == [r.value] + Pending()
      ensures r.Some? && r.value.Threw? && closing.ends ==> source == []
    {
      var e := Pull();
      if e.None? {
        return Some(Finished);
      }
      if e.value.Throws? {
        var f := Fail();
        return Some(f);
      }
      var c := kind.g(e.value.value, count);
      count := count + 1;
      if c.Raises? {
        var f := Fail();
        return Some(f);
      }
      FlatEnters(kind.g, old(source), old(count), closing);
      inner := Some(c.value);
      return None;
    }

    method NextFlatMap() returns (r: Outcome<V>)
      requires executing
      requires kind.FlatMap? && !done
      modifies this`source, this`count, this`inner
      ensures r.Finished? <==> old(Pending()) == []
      ensures r.Finished? ==> Pending() == []
      ensures old(Pending()) != [] ==> r == old(Pending())[0] && Pending() == old(Pending())[1..]
      ensures r.Threw? ==> inner.None? && (closing.ends ==> source == [])
    {
      while true
        invariant Pending() == old(Pending())
        decreases |source|, inner.Some?
      {
        if inner.None? {
          var o := OpenInner();
          if o.Some? {
            return o.value;
          }
        }
        FlatInner(kind.g, source, count, inner.value, closing);
        if inner.value == [] {
          inner := None;
        } else if inner.value[0].Throws? {
          inner := None;
          r := Fail();
          return;
        } else {
          r := Yield(inner.value[0].value);
          inner := Some(inner.value[1..]);
          return;
        }
      }
    }

    /**
     * js_iterator_helper_next.  A call from inside a callback is refused and changes nothing;
     * otherwise the call delivers the next pending outcome, `executing` is cleared on every
     * exit, and once finished the helper stays finished.  A call that throws closes the source; the
     * call after it is finished exactly when that ended the source, or the rest of the source has
     * nothing to deliver, or take is at its limit and closing the source again does not throw.
     */
    method Next() returns (r: Outcome<V>)
      modifies this
      ensures old(executing) ==> r.Threw? && unchanged(this)
      ensures !old(executing) ==> !executing
      ensures !old(executing) && old(done) ==> r.Finished? && unchanged(this)
      ensures r.Finished? <==> !old(executing) && old(Pending()) == []
      ensures r.Finished? ==> done
      ensures !old(executing) && old(Pending()) != [] ==> r == old(Pending())[0] && Pending() == old(Pending())[1..]
      ensures !old(executing) && r.Threw? ==>
        (Pending() == [] <==>
          done || (if kind.Take? && count <= 0 then !closing.throws else closing.ends || NothingLeft(kind, source, count)))
    {
      if executing {
        return Threw;
      }
      if done {
        return Finished;
      }
      executing := true;
      var pdone;
      match kind {
        case Drop => r := NextDrop(); pdone := r.Finished?;
        case Take => r, pdone := NextTake();
        case Map(_) => r := NextMap(); pdone := r.Finished?;
        case Filter(_) => r := NextFilter(); pdone := r.Finished?;
        case FlatMap(_) => r := NextFlatMap(); pdone := r.Finished?;
      }
      done := pdone;
      executing := false;
      NothingLeftToDeliver(kind, source, count, closing);
    }

    /** js_iterator_proto_toArray on the helper: the values of all outcomes, or nothing if one of them threw. */
    method ToArray() returns (r: Option<seq<V>>)
      requires !executing
      modifies this
      ensures r.None? <==> Threw in old(Pending())
      ensures r.Some? ==> old(Pending()) == Yields(r.value) && done
    {
      var items: seq<V> := [];
      while true
        invariant !executing && old(Pending()) == Yields(items) + Pending()
        decreases |Pending()|
      {
        ghost var before := Pending();
        var o := Next();
        match o {
          case Finished =>
            assert before == [];
            YieldsNeverThrow(items);
            return Some(items);
          case Threw =>
            assert before[0] == Threw;
            return None;
          case Yield(v) =>
            Collected(items, before, v);
            items := items + [v];
        }
      }
    }
  }

  function Yields<V>(xs: seq<V>): (r: seq<Outcome<V>>)
    ensures |r| == |xs| && forall i :: 0 <= i < |xs| ==> r[i] == Yield(xs[i])
  {
    seq(|xs|, i requires 0 <= i < |xs| => Yield(xs[i]))
  }

  lemma Collected<V>(items: seq<V>, rest: seq<Outcome<V>>, v: V)
    requires rest != [] && rest[0] == Yield(v)
    ensures Yields(items) + rest == Yields(items + [v]) + rest[1..]
  {
  }

  lemma YieldsNeverThrow<V>(xs: seq<V>)
    ensures Threw !in Yields(xs)
  {
  }

  // ---------------------------------------------------------------- list meaning

  /** A source that never throws. */
  function Items<V>(xs: seq<V>): (r: seq<Event<V>>)
    ensures |r| == |xs| && forall i :: 0 <= i < |xs| ==> r[i] == Item(xs[i])
  {
    seq(|xs|, i requires 0 <= i < |xs| => Item(xs[i]))
  }

  lemma {:induction false} AllYields<V>(xs: seq<V>, closing: Closing)
    ensures All(Items(xs), closing) == Yields(xs)
    decreases |xs|
  {
    if xs != [] {
      assert Items(xs)[1..] == Items(xs[1..]);
      AllYields(xs[1..], closing);
    }
  }

  /** drop(n) leaves exactly the suffix after the first n items. */
  lemma {:induction false} DropIsSuffix<V>(xs: seq<V>, n: nat, closing: Closing)
    ensures Dropping(Items(xs), n, closing) == Yields(xs[Min(n, |xs|)..])
    decreases n
  {
    if n == 0 {
      AllYields(xs, closing);
      assert xs[0..] == xs;
    } else if xs != [] {
      assert Items(xs)[1..] == Items(xs[1..]);
      DropIsSuffix(xs[1..], n - 1, closing);
      assert xs[1..][Min(n - 1, |xs| - 1)..] == xs[Min(n, |xs|)..];
    }
  }

  /** take(n) gives the first n items; the source is closed only if it has that many. */
  lemma {:induction false} TakeIsPrefix<V>(xs: seq<V>, n: nat, closing: Closing)
    ensures Taking(Items(xs), n, closing)
         == Yields(xs[..Min(n, |xs|)]) + (if closing.throws && n <= |xs| then [Threw] else [])
    decreases n
  {
    if n > 0 && xs != [] {
      assert Items(xs)[1..] == Items(xs[1..]);
      TakeIsPrefix(xs[1..], n - 1, closing);
      var rest := xs[1..][..Min(n - 1, |xs| - 1)];
      assert xs[..Min(n, |xs|)] == [xs[0]] + rest;
      YieldsConcat([xs[0]], rest);
      Regroup(Yields([xs[0]]), Yields(rest), if closing.throws && n <= |xs| then [Threw] else []);
    }
  }

  /** map applies the callback to each item with its index in the source. */
  lemma {:induction false} MapIsPointwise<V>(h: (V, int) -> V, xs: seq<V>, i: int, closing: Closing)
    ensures Mapping((v: V, k: int) => Returns(h(v, k)), Items(xs), i, closing)
         == Yields(seq(|xs|, j requires 0 <= j < |xs| => h(xs[j], i + j)))
    decreases |xs|
  {
    if xs != [] {
      assert Items(xs)[1..] == Items(xs[1..]);
      MapIsPointwise(h, xs[1..], i + 1, closing);
    }
  }

  /** The indices below n whose items are selected, in increasing order. */
  function Kept<V>(p: (V, int) -> bool, xs: seq<V>, n: nat): (ks: seq<nat>)
    requires n <= |xs|
    ensures forall j :: 0 <= j < |ks| ==> ks[j] < n && p(xs[ks[j]], ks[j])
    ensures forall j, l :: 0 <= j < l < |ks| ==> ks[j] < ks[l]
    ensures forall k :: 0 <= k < n && p(xs[k], k) ==> k in ks
  {
    if n == 0 then [] else Kept(p, xs, n - 1) + (if p(xs[n - 1], n - 1) then [n - 1] else [])
  }

  function At<V>(xs: seq<V>, ks: seq<nat>): (r: seq<V>)
    requires forall j :: 0 <= j < |ks| ==> ks[j] < |xs|
    ensures |r| == |ks| && forall j :: 0 <= j < |ks| ==> r[j] == xs[ks[j]]
  {
    seq(|ks|, j requires 0 <= j < |ks| => xs[ks[j]])
  }

  /** The items selected among the first n. */
  function Chosen<V>(p: (V, int) -> bool, xs: seq<V>, n: nat): seq<Outcome<V>>
    requires n <= |xs|
  {
    Yields(At(xs, Kept(p, xs, n)))
  }

  function Accepts<V>(p: (V, int) -> bool): (V, int) -> Call<bool> {
    (v: V, k: int) => Returns(p(v, k))
  }

  /** filter yields the items at the selected indices, each once and in order. */
  lemma FilterIsSelection<V>(p: (V, int) -> bool, xs: seq<V>, closing: Closing)
    ensures Filtering(Accepts(p), Items(xs), 0, closing) == Yields(At(xs, Kept(p, xs, |xs|)))
  {
    FilterFrom(p, xs, 0, closing);
    assert Items(xs)[0..] == Items(xs);
  }

  lemma {:induction false} FilterFrom<V>(p: (V, int) -> bool, xs: seq<V>, n: nat, closing: Closing)
    requires n <= |xs|
    ensures Chosen(p, xs, n) + Filtering(Accepts(p), Items(xs)[n..], n, closing) == Chosen(p, xs, |xs|)
    decreases |xs| - n
  {
    if n < |xs| {
      FilterFrom(p, xs, n + 1, closing);
      FilterStep(p, xs, n, closing);
      ChosenStep(p, xs, n);
      Regroup(Chosen(p, xs, n), if p(xs[n], n) then [Yield(xs[n])] else [], Filtering(Accepts(p), Items(xs)[n + 1..], n + 1, closing));
    } else {
      assert Items(xs)[n..] == [];
    }
  }

  lemma FilterStep<V>(p: (V, int) -> bool, xs: seq<V>, n: nat, closing: Closing)
    requires n < |xs|
    ensures Filtering(Accepts(p), Items(xs)[n..], n, closing)
         == (if p(xs[n], n) then [Yield(xs[n])] else []) + Filtering(Accepts(p), Items(xs)[n + 1..], n + 1, closing)
  {
    var rest := Items(xs)[n..];
    assert rest[0] == Item(xs[n]) && rest[1..] == Items(xs)[n + 1..];
  }

  lemma ChosenStep<V>(p: (V, int) -> bool, xs: seq<V>, n: nat)
    requires n < |xs|
    ensures Chosen(p, xs, n + 1) == Chosen(p, xs, n) + (if p(xs[n], n) then [Yield(xs[n])] else [])
  {
  }

  /** The concatenation of the first n lists. */
  function Flatten<V>(lists: seq<seq<V>>): seq<V> {
    if lists == [] then [] else Flatten(lists[..|lists| - 1]) + lists[|lists| - 1]
  }

  function Results<V>(h: (V, int) -> seq<V>, xs: seq<V>): (r: seq<seq<V>>)
    ensures |r| == |xs| && forall i :: 0 <= i < |xs| ==> r[i] == h(xs[i], i)
  {
    seq(|xs|, i requires 0 <= i < |xs| => h(xs[i], i))
  }

  lemma {:induction false} InnerYields<V>(xs: seq<V>)
    ensures Inner(Items(xs)) == Yields(xs)
  {
    if xs != [] {
      assert Items(xs)[1..] == Items(xs[1..]);
      InnerYields(xs[1..]);
    }
  }

  /** flatMap yields the concatenation of the lists the callback returned. */
  lemma FlatMapIsFlatten<V>(h: (V, int) -> seq<V>, xs: seq<V>, closing: Closing)
    ensures Flat((v: V, k: int) => Returns(Items(h(v, k))), Items(xs), 0, None, closing) == Yields(Flatten(Results(h, xs)))
  {
    FlatMapFrom(h, xs, 0, closing);
    assert Items(xs)[0..] == Items(xs);
    assert Results(h, xs)[..0] == [];
    assert Yields(Flatten(Results(h, xs)[..0])) == [];
  }

  lemma {:induction false} FlatMapFrom<V>(h: (V, int) -> seq<V>, xs: seq<V>, n: nat, closing: Closing)
    requires n <= |xs|
    ensures Yields(Flatten(Results(h, xs)[..n])) + FlatMapping((v: V, k: int) => Returns(Items(h(v, k))), Items(xs)[n..], n, closing)
         == Yields(Flatten(Results(h, xs)))
    decreases |xs| - n
  {
    var lists := Results(h, xs);
    if n == |xs| {
      assert lists[..n] == lists;
    } else {
      FlatMapFrom(h, xs, n + 1, closing);
      FlatMapStep(h, xs, n, closing);
      assert lists[..n + 1][..n] == lists[..n];
      YieldsConcat(Flatten(lists[..n]), lists[n]);
      Regroup(Yields(Flatten(lists[..n])), Yields(lists[n]), FlatMapping((v: V, k: int) => Returns(Items(h(v, k))), Items(xs)[n + 1..], n + 1, closing));
    }
  }

  lemma FlatMapStep<V>(h: (V, int) -> seq<V>, xs: seq<V>, n: nat, closing: Closing)
    requires n < |xs|
    ensures var g := (v: V, k: int) => Returns(Items(h(v, k)));
            FlatMapping(g, Items(xs)[n..], n, closing) == Yields(h(xs[n], n)) + FlatMapping(g, Items(xs)[n + 1..], n + 1, closing)
  {
    var rest := Items(xs)[n..];
    assert rest[0] == Item(xs[n]) && rest[1..] == Items(xs)[n + 1..];
    InnerYields(h(xs[n], n));
    InnerKeeps(h(xs[n], n), rest[1..], closing);
  }

  lemma {:induction false} InnerKeeps<V>(xs: seq<V>, source: seq<Event<V>>, closing: Closing)
    ensures AfterInner(Items(xs), source, closing) == source
    decreases |xs|
  {
    if xs != [] {
      assert Items(xs)[1..] == Items(xs[1..]);
      InnerKeeps(xs[1..], source, closing);
    }
  }

  lemma YieldsConcat<V>(xs: seq<V>, ys: seq<V>)
    ensures Yields(xs + ys) == Yields(xs) + Yields(ys)
  {
  }

  lemma Regroup<V>(a: seq<V>, b: seq<V>, c: seq<V>)
    ensures a + (b + c) == a + b + c
  {
  }

  // ---------------------------------------------------------------- creating and draining

  /** A helper whose callback never raises, with the number argument of take and drop. */
  datatype Operation<!V> =
    | Dropped(n: nat)
    | Taken(n: nat)
    | Mapped(f: (V, int) -> V)
    | Filtered(p: (V, int) -> bool)
    | FlatMapped(g: (V, int) -> seq<V>)

  function KindOf<V>(op: Operation<V>): Kind<V> {
    match op
    case Dropped(_) => Drop
    case Taken(_) => Take
    case Mapped(f) => Map((v: V, k: int) => Returns(f(v, k)))
    case Filtered(p) => Filter(Accepts(p))
    case FlatMapped(g) => FlatMap((v: V, k: int) => Returns(Items(g(v, k))))
  }

  function LimitOf<V>(op: Operation<V>): Limit {
    match op
    case Dropped(n) => Finite(n)
    case Taken(n) => Finite(n)
    case _ => NaN
  }

  /** The list function an operation stands for; callbacks see the position of the item in the source, from 0. */
  function ListOf<V>(op: Operation<V>, xs: seq<V>): seq<V> {
    match op
    case Dropped(n) => xs[Min(n, |xs|)..]
    case Taken(n) => xs[..Min(n, |xs|)]
    case Mapped(f) => seq(|xs|, j requires 0 <= j < |xs| => f(xs[j], j))
    case Filtered(p) => At(xs, Kept(p, xs, |xs|))
    case FlatMapped(g) => Flatten(Results(g, xs))
  }

  predicate LimitFits<V>(op: Operation<V>) {
    op.Dropped? || op.Taken? ==> op.n < TWO63
  }

  /** What a helper created for the operation over the list will produce. */
  function Drained<V>(op: Operation<V>, xs: seq<V>, ends: bool): Option<seq<Outcome<V>>> {
    Created(KindOf(op), Items(xs), LimitOf(op), Closing(ends, false))
  }

  lemma DrainedLimited<V>(op: Operation<V>, xs: seq<V>, ends: bool)
    requires (op.Dropped? || op.Taken?) && op.n < TWO63
    ensures Drained(op, xs, ends) == Some(Yields(ListOf(op, xs)))
  {
    assert ToInt64(op.n) == op.n;
    CreatedOverList(op.Taken?, xs, Finite(op.n), ends);
    assert KindOf(op) == Limited(op.Taken?);
  }

  lemma DrainedMap<V>(op: Operation<V>, xs: seq<V>, ends: bool)
    requires op.Mapped?
    ensures Drained(op, xs, ends) == Some(Yields(ListOf(op, xs)))
  {
    MapIsPointwise(op.f, xs, 0, Closing(ends, false));
    assert ListOf(op, xs) == seq(|xs|, j requires 0 <= j < |xs| => op.f(xs[j], 0 + j));
  }

  lemma DrainedFilter<V>(op: Operation<V>, xs: seq<V>, ends: bool)
    requires op.Filtered?
    ensures Drained(op, xs, ends) == Some(Yields(ListOf(op, xs)))
  {
    FilterIsSelection(op.p, xs, Closing(ends, false));
  }

  lemma DrainedFlatMap<V>(op: Operation<V>, xs: seq<V>, ends: bool)
    requires op.FlatMapped?
    ensures Drained(op, xs, ends) == Some(Yields(ListOf(op, xs)))
  {
    FlatMapIsFlatten(op.g, xs, Closing(ends, false));
  }

  /** A created helper will produce exactly the list function of its source. */
  lemma CreatedIsList<V>(op: Operation<V>, xs: seq<V>, ends: bool)
    requires LimitFits(op)
    ensures Drained(op, xs, ends) == Some(Yields(ListOf(op, xs)))
  {
    match op {
      case Dropped(_) => DrainedLimited(op, xs, ends);
      case Taken(_) => DrainedLimited(op, xs, ends);
      case Mapped(_) => DrainedMap(op, xs, ends);
      case Filtered(_) => DrainedFilter(op, xs, ends);
      case FlatMapped(_) => DrainedFlatMap(op, xs, ends);
    }
  }

  /** Creating a helper over a list and collecting what it delivers gives the list function of that list. */
  method CreateAndDrain<V>(op: Operation<V>, xs: seq<V>, ends: bool) returns (r: Option<seq<V>>)
    requires LimitFits(op)
    ensures r == Some(ListOf(op, xs))
  {
    CreatedIsList(op, xs, ends);
    var h := Create(KindOf(op), Items(xs), LimitOf(op), Closing(ends, false));
    YieldsNeverThrow(ListOf(op, xs));
    r := h.value.ToArray();
    YieldsInjective(ListOf(op, xs), r.value);
  }

  lemma YieldsInjective<V>(xs: seq<V>, ys: seq<V>)
    requires Yields(xs) == Yields(ys)
    ensures xs == ys
  {
    forall i | 0 <= i < |xs| ensures xs[i] == ys[i] {
      assert Yields(xs)[i] == Yields(ys)[i];
    }
  }

  // ---------------------------------------------------------------- after a throw

  /** The first event of the source, or the callback on it, throws. */
  predicate FirstFails<V>(kind: Kind<V>, source: seq<Event<V>>, count: int)
    requires source != []
  {
    source[0].Throws? ||
    match kind
    case Map(f) => f(source[0].value, count).Raises?
    case Filter(p) => p(source[0].value, count).Raises?
    case FlatMap(g) => g(source[0].value, count).Raises?
    case _ => false
  }

  /** Then that is the next outcome, for every kind, and what follows comes from the closed source. */
  lemma FailureComesNext<V>(kind: Kind<V>, source: seq<Event<V>>, count: int, closing: Closing) returns (count': int)
    requires source != [] && FirstFails(kind, source, count) && (kind.Take? ==> count > 0)
    ensures Outcomes(kind, source, count, closing) == [Threw] + Outcomes(kind, Shut(closing, source[1..]), count', closing)
    ensures count' == if kind.Take? || (kind.Drop? && count > 0) then count - 1
                      else if kind.Drop? || source[0].Throws? then count else count + 1
  {
    count' := if kind.Take? || (kind.Drop? && count > 0) then count - 1
              else if kind.Drop? || source[0].Throws? then count else count + 1;
  }

  /** A map over 1, 2 whose callback raises on the first item: the second call goes on unless closing ended the source. */
  method ThrowThenNext(ends: bool) returns (first: Outcome<int>, second: Outcome<int>)
    ensures first.Threw? && second == if ends then Finished else Yield(2)
  {
    var f := (v: int, i: int) => if i == 0 then Raises else Returns(v);
    var closing := Closing(ends, false);
    var h := new Helper(Map(f), [Item(1), Item(2)], 0, closing);
    assert [Item(1), Item(2)][1..] == [Item(2)];
    first := h.Next();
    assert [Item(2)][1..] == [];
    second := h.Next();
  }

  // ---------------------------------------------------------------- the limit

  /** What section 27.1.4 of ECMA-262 asks of take(n) and drop(n) over a list: refused when n is negative. */
  function Asked<V>(take: bool, xs: seq<V>, n: int): Option<seq<Outcome<V>>> {
    if n < 0 then None else Some(Yields(if take then xs[..Min(n, |xs|)] else xs[Min(n, |xs|)..]))
  }

  function Limited<V>(take: bool): Kind<V> {
    if take then Take else Drop
  }

  /** The limits that survive the conversion to int64_t. */
  predicate Survives(n: int) {
    if n >= 0 then n < TWO63 else ToInt64(n) < 0
  }

  /** What creation gives for a list and a limit that is an integer. */
  lemma CreatedOverList<V>(take: bool, xs: seq<V>, limit: Limit, ends: bool)
    ensures Created(Limited(take), Items(xs), limit, Closing(ends, false)) == Asked(take, xs, LimitCount(limit))
  {
    if LimitCount(limit) >= 0 {
      TakeIsPrefix(xs, LimitCount(limit), Closing(ends, false));
      var prefix := Yields(xs[..Min(LimitCount(limit), |xs|)]);
      assert prefix + [] == prefix;
      DropIsSuffix(xs, LimitCount(limit), Closing(ends, false));
    }
  }

  /** Creation over the list does what is asked. */
  ghost predicate Right(take: bool, xs: seq<int>, n: int, ends: bool) {
    Created(Limited(take), Items(xs), Finite(n), Closing(ends, false)) == Asked(take, xs, n)
  }

  /** take(n) and drop(n) do what is asked, for every source, exactly when the limit survives the conversion. */
  lemma LimitIsExact(take: bool, n: int, ends: bool)
    ensures (forall xs: seq<int> :: Right(take, xs, n, ends)) <==> Survives(n)
  {
    if Survives(n) {
      forall xs: seq<int> ensures Right(take, xs, n, ends) {
        RightFor(take, xs, n, ends);
      }
    } else {
      var xs := WrongSource(take, n, ends);
    }
  }

  lemma RightFor(take: bool, xs: seq<int>, n: int, ends: bool)
    requires Survives(n)
    ensures Right(take, xs, n, ends)
  {
    CreatedOverList(take, xs, Finite(n), ends);
    SurvivesAs(n);
    if n < 0 {
      assert Asked(take, xs, LimitCount(Finite(n))) == None == Asked(take, xs, n);
    } else {
      assert LimitCount(Finite(n)) == n;
    }
  }

  lemma SurvivesAs(n: int)
    requires Survives(n)
    ensures if n >= 0 then ToInt64(n) == n else ToInt64(n) < 0
  {
  }

  lemma WrongSource(take: bool, n: int, ends: bool) returns (xs: seq<int>)
    requires !Survives(n)
    ensures !Right(take, xs, n, ends)
  {
    var m := ToInt64(n);
    xs := seq(Max(m, 0) + 1, i => 0);
    CreatedOverList(take, xs, Finite(n), ends);
    if n >= 0 && m >= 0 {
      AskedLength(take, xs, m);
      AskedLength(take, xs, n);
    }
  }

  lemma AskedLength(take: bool, xs: seq<int>, n: nat)
    ensures |Asked(take, xs, n).value| == if take then Min(n, |xs|) else |xs| - Min(n, |xs|)
  {
  }

  /** 2^63 is refused, 2^64 counts as zero, and so does -2^64, which ought to be refused. */
  lemma LimitExamples<V>(take: bool, xs: seq<V>, ends: bool)
    ensures Created(Limited(take), Items(xs), Finite(TWO63), Closing(ends, false)) == None
    ensures Created(Limited(take), Items(xs), Finite(2 * TWO63), Closing(ends, false)) == Asked(take, xs, 0)
    ensures Created(Limited(take), Items(xs), Finite(-2 * TWO63), Closing(ends, false)) == Asked(take, xs, 0)
    ensures Asked(take, xs, 0) == Some(Yields(if take then [] else xs))
  {
    ExampleCounts();
    CreatedOverList(take, xs, Finite(TWO63), ends);
    CreatedOverList(take, xs, Finite(2 * TWO63), ends);
    CreatedOverList(take, xs, Finite(-2 * TWO63), ends);
    AskedZero(take, xs);
  }

  lemma ExampleCounts()
    ensures LimitCount(Finite(TWO63)) < 0 && LimitCount(Finite(2 * TWO63)) == 0 && LimitCount(Finite(-2 * TWO63)) == 0
  {
  }

  lemma AskedZero<V>(take: bool, xs: seq<V>)
    ensures Asked(take, xs, 0) == Some(Yields(if take then [] else xs))
  {
    assert xs[0..] == xs && xs[..0] == [];
  }

  /** An infinite limit stands for 2^53 - 1, which is right exactly for lists that are not longer. */
  lemma InfinityIsExact<V>(take: bool, xs: seq<V>, ends: bool)
    ensures Created(Limited(take), Items(xs), PlusInfinity, Closing(ends, false)) == Some(Yields(if take then xs else [])) <==>
      |xs| <= MAX_SAFE_INTEGER
  {
    CreatedOverList(take, xs, PlusInfinity, ends);
    if |xs| <= MAX_SAFE_INTEGER {
      assert xs[..|xs|] == xs && xs[|xs|..] == [];
    } else {
      assert |Asked(take, xs, MAX_SAFE_INTEGER).value| != |Yields(if take then xs else [])|;
    }
  }
}
