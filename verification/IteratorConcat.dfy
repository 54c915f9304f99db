/**
 * Iterator.concat: several iterables joined lazily, with the references the object owns.
 *
 * Every reference the object acquires (an iterable, its iterator method, an open iterator, its
 * next method) is a token numbered in the order of acquisition; `frees` counts its releases.
 */
module IteratorConcat {
  import opened Prelude
  import opened IteratorHelpers

  /**
   * What one iterable will do: opening it throws `opening` times, then fetching its next method
   * throws `fetching` times, then its next() goes through `events`.
   */
  datatype Source<V> = Source(opening: nat, fetching: nat, events: seq<Event<V>>)

  datatype Argument<V> = NotAnObject | GetterThrows | NotAFunction | Iterable(source: Source<V>)

  /** Looking up `return` on the open iterator and calling it. */
  datatype ReturnCall = LookupThrows | CallThrows | Closes

  function Failures<V>(n: nat): (r: seq<Outcome<V>>)
    ensures |r| == n && forall i :: 0 <= i < n ==> r[i] == Threw
  {
    seq(n, i => Threw)
  }

  /** A failing call of next() leaves the sources as they are. */
  const NEVER_CLOSED := Closing(false, false)

  function SourceOutcomes<V>(s: Source<V>): seq<Outcome<V>> {
    Failures(s.opening) + (Failures(s.fetching) + All(s.events, NEVER_CLOSED))
  }

  /** The outcomes of all sources, one source after the other. */
  function Joined<V>(sources: seq<Source<V>>): seq<Outcome<V>> {
    if sources == [] then [] else SourceOutcomes(sources[0]) + Joined(sources[1..])
  }

  /** An iterable's slot holds the token acquired after that of its method, and the other way round. */
  function Pair(i: nat): nat {
    if i % 2 == 0 then i + 1 else i - 1
  }

  lemma PairIsInverse(i: nat)
    ensures Pair(Pair(i)) == i && forall t: nat :: Pair(t) == i ==> t == Pair(i)
  {
  }

  // ---------------------------------------------------------------- one step of a source

  lemma JoinedHead<V>(s: Source<V>, rest: seq<Source<V>>)
    ensures Joined([s] + rest) == SourceOutcomes(s) + Joined(rest)
  {
    assert ([s] + rest)[1..] == rest;
  }

  lemma OpeningFails<V>(s: Source<V>, rest: seq<Source<V>>)
    requires s.opening > 0
    ensures Joined([s] + rest) == [Threw] + Joined([s.(opening := s.opening - 1)] + rest)
  {
    JoinedHead(s, rest);
    JoinedHead(s.(opening := s.opening - 1), rest);
    assert Failures<V>(s.opening) == [Threw] + Failures(s.opening - 1);
    Regroup([Threw], Failures(s.opening - 1), Failures(s.fetching) + All(s.events, NEVER_CLOSED));
    Regroup([Threw], SourceOutcomes(s.(opening := s.opening - 1)), Joined(rest));
  }

  lemma FetchingFails<V>(s: Source<V>, rest: seq<Source<V>>)
    requires s.opening == 0 && s.fetching > 0
    ensures Joined([s] + rest) == [Threw] + Joined([s.(fetching := s.fetching - 1)] + rest)
  {
    JoinedHead(s, rest);
    JoinedHead(s.(fetching := s.fetching - 1), rest);
    assert Failures<V>(s.fetching) == [Threw] + Failures(s.fetching - 1);
    assert SourceOutcomes(s) == Failures(s.fetching) + All(s.events, NEVER_CLOSED);
    assert SourceOutcomes(s.(fetching := s.fetching - 1)) == Failures(s.fetching - 1) + All(s.events, NEVER_CLOSED);
    Regroup([Threw], Failures(s.fetching - 1), All(s.events, NEVER_CLOSED));
    Regroup([Threw], SourceOutcomes(s.(fetching := s.fetching - 1)), Joined(rest));
  }

  lemma NextEvent<V>(s: Source<V>, rest: seq<Source<V>>)
    requires s.opening == 0 && s.fetching == 0
    ensures s.events == [] ==> Joined([s] + rest) == Joined(rest)
    ensures s.events != [] ==>
      Joined([s] + rest) == [if s.events[0].Item? then Yield(s.events[0].value) else Threw] + Joined([s.(events := s.events[1..])] + rest)
  {
    JoinedHead(s, rest);
    assert SourceOutcomes(s) == All(s.events, NEVER_CLOSED);
    if s.events != [] {
      JoinedHead(s.(events := s.events[1..]), rest);
      assert SourceOutcomes(s.(events := s.events[1..])) == All(s.events[1..], NEVER_CLOSED);
    }
  }

  // ---------------------------------------------------------------- the object

  /** JSIteratorConcatData */
  class Concat<V> {
    var values: seq<nat>
    var index: nat
    var count: nat
    var iter: Option<nat>
    var next: Option<nat>
    var running: bool

    var frees: seq<nat>
    var sources: seq<Source<V>>

    predicate Held(t: nat)
      reads this`values, this`index, this`count, this`iter, this`next, this`frees
    {
      (t < count && index <= Pair(t)) || iter == Some(t) || next == Some(t)
    }

    /** No reference is lost and none is released twice. */
    ghost predicate Conserved()
      reads this`values, this`index, this`count, this`iter, this`next, this`frees
    {
      forall t :: 0 <= t < |frees| ==> frees[t] == if Held(t) then 0 else 1
    }

    ghost predicate Stored()
      reads this`values, this`index, this`count, this`iter, this`next, this`frees
    {
      && index <= count == |values| <= |frees|
      && count % 2 == 0
      && (forall i :: 0 <= i < count ==> values[i] == Pair(i))
      && (iter.Some? ==> count <= iter.value < |frees|)
      && (next.Some? ==> count <= next.value < |frees| && iter != next)
    }

    ghost predicate Valid()
      reads this`values, this`index, this`count, this`iter, this`next, this`frees, this`sources
    {
      && Stored()
      && count - index == 2 * |sources|
      && (iter.Some? ==> sources != [] && sources[0].opening == 0)
      && (next.Some? ==> iter.Some? && sources[0].fetching == 0)
      && Conserved()
    }

    /** Every reference ever acquired was released exactly once. */
    ghost predicate AllReleased()
      reads this`frees
    {
      forall t :: 0 <= t < |frees| ==> frees[t] == 1
    }

    function Pending(): seq<Outcome<V>>
      reads this`sources
    {
      Joined(sources)
    }

    constructor ()
      ensures Valid() && values == [] && frees == [] && sources == []
      ensures index == 0 && iter.None? && next.None? && !running
    {
      values, index, count := [], 0, 0;
      iter, next, running := None, None, false;
      frees, sources := [], [];
    }

    /** A new reference. */
    method Acquire() returns (t: nat)
      modifies this`frees
      ensures t == |old(frees)| && frees == old(frees) + [0]
    {
      t := |frees|;
      frees := frees + [0];
    }

    /** JS_FreeValue on one reference. */
    method Free(t: nat)
      requires t < |frees|
      modifies this`frees
      ensures frees == old(frees)[t := old(frees)[t] + 1]
    {
      frees := frees[t := frees[t] + 1];
    }

    /** The references to the open iterator and its next method are released. */
    method Close()
      requires Stored() && Conserved()
      modifies this`iter, this`next, this`frees
      ensures Stored() && Conserved() && iter.None? && next.None? && |frees| == |old(frees)|
    {
      if iter.Some? {
        Free(iter.value);
        iter := None;
      }
      if next.Some? {
        Free(next.value);
        next := None;
      }
    }

    /** One argument accepted: a duplicate of the object and its iterator method are stored. */
    method Store(source: Source<V>)
      requires Valid() && index == 0 && iter.None? && next.None? && |frees| == count
      modifies this
      ensures Valid() && index == 0 && iter.None? && next.None? && |frees| == count
      ensures sources == old(sources) + [source] && running == old(running)
    {
      var meth := Acquire();
      var obj := Acquire();
      values := values + [obj, meth];
      count := count + 2;
      sources := sources + [source];
    }

    /** The stored references from `index` to the limit are released. */
    method FreeValues(limit: nat)
      requires Stored() && Conserved() && index <= limit <= count
      modifies this`index, this`frees
      ensures index == limit && Stored() && Conserved() && |frees| == |old(frees)|
    {
      while index < limit
        invariant index <= limit && Stored() && Conserved() && |frees| == |old(frees)|
      {
        FreeNext();
      }
    }

    method FreeNext()
      requires Stored() && Conserved() && index < count
      modifies this`index, this`frees
      ensures index == old(index) + 1 && Stored() && Conserved() && |frees| == |old(frees)|
    {
      PairIsInverse(index);
      Free(values[index]);
      index := index + 1;
    }

    /** The failing exit of js_iterator_concat: a method that is no function is released, then everything stored. */
    method Discard(extraMethod: bool)
      requires Valid() && index == 0 && iter.None? && next.None?
      modifies this`index, this`frees
      ensures AllReleased()
    {
      if extraMethod {
        var meth := Acquire();
        Free(meth);
      }
      FreeValues(count);
    }

    /** js_iterator_concat_finalizer */
    method Finalize()
      requires Valid()
      modifies this
      ensures AllReleased() && |frees| == |old(frees)|
    {
      Close();
      FreeValues(count);
    }

    /** The open iterator is exhausted: it, its next method and its pair are released. */
    method FinishSource()
      requires Valid() && iter.Some? && next.Some? && sources[0].events == []
      modifies this`index, this`iter, this`next, this`frees, this`sources
      ensures Valid() && iter.None? && next.None?
      ensures sources == old(sources)[1..] && Pending() == old(Pending())
    {
      NextEvent(sources[0], sources[1..]);
      assert sources == [sources[0]] + sources[1..];
      Close();
      FreeValues(index + 2);
      sources := sources[1..];
    }

    /** The current source is opened unless it is open already; false when that throws. */
    method Open() returns (ok: bool)
      requires running
      requires Valid() && sources != []
      modifies this`iter, this`frees, this`sources
      ensures Valid() && |sources| == |old(sources)|
      ensures ok ==> iter.Some? && sources == old(sources)
      ensures !ok ==> old(Pending()) == [Threw] + Pending()
    {
      if iter.None? {
        if sources[0].opening > 0 {
          assert sources == [sources[0]] + sources[1..];
          OpeningFails(sources[0], sources[1..]);
          sources := [sources[0].(opening := sources[0].opening - 1)] + sources[1..];
          return false;
        }
        var t := Acquire();
        iter := Some(t);
      }
      return true;
    }

    /** Its next method is fetched unless it is there already; false when that throws. */
    method Fetch() returns (ok: bool)
      requires running
      requires Valid() && iter.Some?
      modifies this`next, this`frees, this`sources
      ensures Valid() && |sources| == |old(sources)|
      ensures ok ==> next.Some? && sources == old(sources)
      ensures !ok ==> old(Pending()) == [Threw] + Pending()
    {
      if next.None? {
        if sources[0].fetching > 0 {
          assert sources == [sources[0]] + sources[1..];
          FetchingFails(sources[0], sources[1..]);
          sources := [sources[0].(fetching := sources[0].fetching - 1)] + sources[1..];
          return false;
        }
        var t := Acquire();
        next := Some(t);
      }
      return true;
    }

    /** One call of the open iterator's next method. */
    method Call() returns (r: Outcome<V>)
      requires running
      requires Valid() && iter.Some? && next.Some? && sources[0].events != []
      modifies this`sources
      ensures Valid() && !r.Finished? && old(Pending()) == [r] + Pending()
    {
      assert sources == [sources[0]] + sources[1..];
      NextEvent(sources[0], sources[1..]);
      var e := sources[0].events[0];
      sources := [sources[0].(events := sources[0].events[1..])] + sources[1..];
      return if e.Item? then Yield(e.value) else Threw;
    }

    /** One round on the current source: an outcome, or None when the source is exhausted and finished. */
    method Round() returns (r: Option<Outcome<V>>)
      requires running
      requires Valid() && sources != []
      modifies this`index, this`iter, this`next, this`frees, this`sources
      ensures Valid()
      ensures r.None? ==> |sources| < |old(sources)| && Pending() == old(Pending())
      ensures r.Some? ==> !r.value.Finished? && old(Pending()) == [r.value] + Pending()
    {
      var ok := Open();
      if !ok {
        return Some(Threw);
      }
      ok := Fetch();
      if !ok {
        return Some(Threw);
      }
      if sources[0].events == [] {
        FinishSource();
        return None;
      }
      var o := Call();
      return Some(o);
    }

    /**
     * js_iterator_concat_next: refused without effect while running; otherwise the next outcome of
     * the concatenation of all sources is delivered, and no reference is lost or released twice.
     */
    method Next() returns (r: Outcome<V>)
      requires Valid()
      modifies this
      ensures Valid()
      ensures old(running) ==> r.Threw? && unchanged(this)
      ensures !old(running) ==> !running
      ensures r.Finished? <==> !old(running) && old(Pending()) == []
      ensures r.Finished? ==> Pending() == []
      ensures !old(running) && old(Pending()) != [] ==> r == old(Pending())[0] && Pending() == old(Pending())[1..]
    {
      if running {
        return Threw;
      }
      running := true;
      r := Deliver();
      running := false;
    }

    /** Rounds until one of them has an outcome or no source is left. */
    method Deliver() returns (r: Outcome<V>)
      requires running
      requires Valid()
      modifies this`index, this`iter, this`next, this`frees, this`sources
      ensures Valid()
      ensures r.Finished? <==> old(Pending()) == []
      ensures r.Finished? ==> Pending() == []
      ensures !r.Finished? ==> old(Pending()) == [r] + Pending()
    {
      while index < count
        invariant Valid() && Pending() == old(Pending())
        decreases |sources|
      {
        var o := Round();
        if o.Some? {
          return o.value;
        }
      }
      return Finished;
    }

    /**
     * js_iterator_concat_return: nothing changes when looking up `return` throws; otherwise
     * everything held is released, whether or not the call throws, and the object is finished.
     */
    method Return(closing: ReturnCall) returns (threw: bool)
      requires Valid()
      modifies this
      ensures Valid() && running == old(running)
      ensures threw <==> old(running) || (old(iter).Some? && !closing.Closes?)
      ensures old(running) || (old(iter).Some? && closing.LookupThrows?) ==> unchanged(this)
      ensures !old(running) && (old(iter).None? || !closing.LookupThrows?) ==>
        Pending() == [] && AllReleased() && |frees| == |old(frees)|
    {
      if running {
        return true;
      }
      threw := false;
      if iter.Some? {
        if closing.LookupThrows? {
          return true;
        }
        threw := closing.CallThrows?;
      }
      FreeValues(count);
      Close();
      sources := [];
    }
  }

  /** The sources of the arguments. */
  function Sources<V>(args: seq<Argument<V>>): (r: seq<Source<V>>)
    requires forall i :: 0 <= i < |args| ==> args[i].Iterable?
    ensures |r| == |args| && forall i :: 0 <= i < |args| ==> r[i] == args[i].source
  {
    seq(|args|, i requires 0 <= i < |args| => args[i].source)
  }

  /**
   * js_iterator_concat: with an unusable argument everything already acquired is released;
   * otherwise the object will deliver the outcomes of its arguments in order.
   */
  method Create<V>(args: seq<Argument<V>>) returns (c: Concat<V>, ok: bool)
    ensures fresh(c)
    ensures ok <==> forall i :: 0 <= i < |args| ==> args[i].Iterable?
    ensures ok ==> c.Valid() && !c.running && |c.frees| == 2 * |args| && c.Pending() == Joined(Sources(args))
    ensures !ok ==> c.AllReleased()
  {
    c := new Concat();
    for i := 0 to |args|
      invariant fresh(c) && c.Valid() && c.index == 0 && c.iter.None? && c.next.None?
      invariant !c.running && |c.frees| == c.count
      invariant forall k :: 0 <= k < i ==> args[k].Iterable?
      invariant c.sources == Sources(args[..i])
    {
      if args[i].Iterable? {
        c.Store(args[i].source);
      } else {
        c.Discard(args[i].NotAFunction?);
        return c, false;
      }
    }
    assert args[..|args|] == args;
    return c, true;
  }

  lemma {:induction false} JoinedAppend<V>(sources: seq<Source<V>>, s: Source<V>)
    ensures Joined(sources + [s]) == Joined(sources) + SourceOutcomes(s)
  {
    if sources == [] {
      assert [] + [s] == [s] + [];
      JoinedHead(s, []);
    } else {
      JoinedAppend(sources[1..], s);
      assert sources + [s] == [sources[0]] + (sources[1..] + [s]);
      JoinedHead(sources[0], sources[1..] + [s]);
      Regroup(SourceOutcomes(sources[0]), Joined(sources[1..]), SourceOutcomes(s));
    }
  }

  /** A list as an iterable that never throws. */
  function Plain<V>(lists: seq<seq<V>>): (r: seq<Source<V>>)
    ensures |r| == |lists| && forall i :: 0 <= i < |lists| ==> r[i] == Source(0, 0, Items(lists[i]))
  {
    seq(|lists|, i requires 0 <= i < |lists| => Source(0, 0, Items(lists[i])))
  }

  /** Without exceptions, Iterator.concat delivers exactly the concatenation of its arguments. */
  lemma {:induction false} ConcatIsFlatten<V>(lists: seq<seq<V>>)
    ensures Joined(Plain(lists)) == Yields(Flatten(lists))
    decreases |lists|
  {
    if lists != [] {
      var n := |lists| - 1;
      ConcatIsFlatten(lists[..n]);
      assert Plain(lists) == Plain(lists[..n]) + [Plain(lists)[n]];
      JoinedAppend(Plain(lists[..n]), Plain(lists)[n]);
      AllYields(lists[n], NEVER_CLOSED);
      assert SourceOutcomes(Plain(lists)[n]) == Yields(lists[n]);
      YieldsConcat(Flatten(lists[..n]), lists[n]);
    }
  }
}
