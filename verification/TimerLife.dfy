/**
 * The life of one timer through any run, at whatever instants its operations and steps happen: how often
 * it fires, when, and how long it stays in the list.
 */
module TimerLife {
  import opened Prelude
  import opened Timers
  import opened TimerTheorems

  ghost predicate Known(s: State, u: nat) {
    exists i :: 0 <= i < |s.timers| && s.timers[i].uid == u
  }

  /** The operation clears a timer of x's id. */
  predicate ClearsIt(op: Op, x: Timer) {
    op.Clear? && x.id > 0 && Narrow(op.id) == x.id
  }

  predicate Spares(ops: seq<Op>, x: Timer) {
    forall k :: 0 <= k < |ops| ==> !ClearsIt(ops[k], x)
  }

  /** No operation of the run clears x. */
  predicate RunSpares(events: seq<Event>, x: Timer) {
    forall k :: 0 <= k < |events| ==> match events[k] case Direct(_, op) => !ClearsIt(op, x) case Step(_, ops) => Spares(ops, x)
  }

  /** The timer a step at this instant fires. */
  function Fires(s: State, now: int): Option<Timer> {
    var i := FirstExpired(s.timers, now);
    if i < |s.timers| then Some(s.timers[i]) else None
  }

  // ---------------------------------------------------------------- one event

  lemma UnlinkKeepsTimer(timers: seq<Timer>, i: nat, x: Timer)
    requires i < |timers| && x in timers && x != timers[i]
    ensures x in Unlinked(timers, i)
  {
    var j :| 0 <= j < |timers| && timers[j] == x;
    assert Unlinked(timers, i)[if j < i then j else j - 1] == x;
  }

  lemma ApplyKeepsTimer(s: State, now: int, op: Op, x: Timer)
    requires x in s.timers && !ClearsIt(op, x)
    ensures x in Applied(s, now, op).timers
  {
    if op.Clear? && Narrow(op.id) > 0 {
      var i := Position(s.timers, Narrow(op.id));
      if i < |s.timers| {
        UnlinkKeepsTimer(s.timers, i, x);
      }
    }
  }

  lemma {:induction false} AllApplyKeepsTimer(s: State, now: int, ops: seq<Op>, x: Timer)
    requires x in s.timers && Spares(ops, x)
    ensures x in AllApplied(s, now, ops).timers
    decreases |ops|
  {
    if ops != [] {
      ApplyKeepsTimer(s, now, ops[0], x);
      AllApplyKeepsTimer(Applied(s, now, ops[0]), now, ops[1..], x);
    }
  }

  lemma ApplyNeverRevives(s: State, now: int, op: Op, u: nat)
    requires u < s.nextUid && !Known(s, u)
    ensures !Known(Applied(s, now, op), u) && u < Applied(s, now, op).nextUid
  {
    var s' := Applied(s, now, op);
    forall i | 0 <= i < |s'.timers| ensures s'.timers[i].uid != u {
      assert i < |s.timers| ==> s.timers[i].uid != u;
      if op.Clear? && |s'.timers| < |s.timers| {
        assert s.timers[i + 1].uid != u;
      }
    }
  }

  lemma {:induction false} AllApplyNeverRevives(s: State, now: int, ops: seq<Op>, u: nat)
    requires u < s.nextUid && !Known(s, u)
    ensures !Known(AllApplied(s, now, ops), u) && u < AllApplied(s, now, ops).nextUid
    decreases |ops|
  {
    if ops != [] {
      ApplyNeverRevives(s, now, ops[0], u);
      AllApplyNeverRevives(Applied(s, now, ops[0]), now, ops[1..], u);
    }
  }

  /** Firing one timer leaves the others alone. */
  lemma FiringKeepsTimer(s: State, now: int, ops: seq<Op>, x: Timer)
    requires x in s.timers && Fires(s, now) != Some(x) && Spares(ops, x)
    ensures x in Fired(s, now, ops).timers
  {
    var i := FirstExpired(s.timers, now);
    if i < |s.timers| {
      if s.timers[i].repeats {
        var j :| 0 <= j < |s.timers| && s.timers[j] == x;
        assert Taken(s, now, i).timers[j] == x;
      } else {
        UnlinkKeepsTimer(s.timers, i, x);
      }
      AllApplyKeepsTimer(Taken(s, now, i), now, ops, x);
    }
  }

  /** An interval that fires at this instant is armed for one delay later. */
  lemma FiringRearms(s: State, now: int, ops: seq<Op>, x: Timer)
    requires Fires(s, now) == Some(x) && x.repeats && Spares(ops, x)
    ensures x.(timeout := now + x.delay) in Fired(s, now, ops).timers
  {
    var i := FirstExpired(s.timers, now);
    assert Taken(s, now, i).timers[i] == x.(timeout := now + x.delay);
    AllApplyKeepsTimer(Taken(s, now, i), now, ops, x.(timeout := now + x.delay));
  }

  /** A one-shot that fires is gone. */
  lemma FiringUnlinks(s: State, now: int, ops: seq<Op>, x: Timer)
    requires Valid(s) && Fires(s, now) == Some(x) && !x.repeats
    ensures !Known(Fired(s, now, ops), x.uid) && x.uid < Fired(s, now, ops).nextUid
  {
    var i := FirstExpired(s.timers, now);
    var t := Taken(s, now, i);
    forall j | 0 <= j < |t.timers| ensures t.timers[j].uid != x.uid {
      assert t.timers[j] == s.timers[if j < i then j else j + 1];
    }
    AllApplyNeverRevives(t, now, ops, x.uid);
  }

  // ---------------------------------------------------------------- runs

  datatype Firing = Firing(uid: nat, now: int)

  /** What the last event of a run fires. */
  function FiringOf(s: State, e: Event): seq<Firing> {
    if e.Step? && Fires(s, e.now).Some? then [Firing(Fires(s, e.now).value.uid, e.now)] else []
  }

  /** Every firing of the run, in order. */
  function Firings(s: State, events: seq<Event>): seq<Firing> {
    if events == [] then []
    else
      var n := |events| - 1;
      Firings(s, events[..n]) + FiringOf(After(s, events[..n]), events[n])
  }

  function FiringsOf(trace: seq<Firing>, u: nat): nat {
    if trace == [] then 0 else FiringsOf(trace[..|trace| - 1], u) + Ind(trace[|trace| - 1].uid == u)
  }

  lemma CountAppend(trace: seq<Firing>, last: seq<Firing>, u: nat)
    requires |last| <= 1
    ensures FiringsOf(trace + last, u) == FiringsOf(trace, u) + (if last == [] then 0 else Ind(last[0].uid == u))
  {
    if last == [] {
      assert trace + last == trace;
    } else {
      assert (trace + last)[..|trace|] == trace;
    }
  }

  lemma {:induction false} ValidAfter(s: State, events: seq<Event>)
    requires Valid(s)
    ensures Valid(After(s, events))
    decreases |events|
  {
    if events != [] {
      var n := |events| - 1;
      ValidAfter(s, events[..n]);
      var before := After(s, events[..n]);
      match events[n] {
        case Direct(now, op) => ApplyKeeps(before, now, op);
        case Step(now, ops) =>
          if FirstExpired(before.timers, now) < |before.timers| {
            FiringProgress(before, now, ops);
          }
      }
    }
  }

  /** Two timers of one node are one timer. */
  lemma SameNode(s: State, x: Timer, y: Timer)
    requires Valid(s) && x in s.timers && y in s.timers && x.uid == y.uid
    ensures x == y
  {
    var i :| 0 <= i < |s.timers| && s.timers[i] == x;
    var j :| 0 <= j < |s.timers| && s.timers[j] == y;
  }

  /** One event and a one-shot: the timer stays, or fires and is gone; once gone it neither fires nor returns. */
  lemma OneShotEvent(s: State, e: Event, x: Timer)
    requires Valid(s) && !x.repeats && RunSpares([e], x) && (x in s.timers || (!Known(s, x.uid) && x.uid < s.nextUid))
    ensures var s' := After(s, [e]);
            if x in s.timers && FiringOf(s, e) == [] then x in s'.timers
            else if x in s.timers && FiringOf(s, e)[0].uid != x.uid then x in s'.timers
            else !Known(s', x.uid) && x.uid < s'.nextUid
    ensures x !in s.timers ==> FiringOf(s, e) == [] || FiringOf(s, e)[0].uid != x.uid
    ensures x in s.timers && FiringOf(s, e) != [] && FiringOf(s, e)[0].uid == x.uid ==> e.now >= x.timeout
  {
    assert [e][0] == e;
    assert [e][..0] == [];
    match e {
      case Direct(now, op) =>
        if x in s.timers {
          ApplyKeepsTimer(s, now, op, x);
        } else {
          ApplyNeverRevives(s, now, op, x.uid);
        }
      case Step(now, ops) => OneShotStep(s, now, ops, x);
    }
  }

  lemma OneShotStep(s: State, now: int, ops: seq<Op>, x: Timer)
    requires Valid(s) && !x.repeats && Spares(ops, x) && (x in s.timers || (!Known(s, x.uid) && x.uid < s.nextUid))
    ensures var s' := Fired(s, now, ops);
            if x in s.timers && Fires(s, now) != Some(x) then x in s'.timers else !Known(s', x.uid) && x.uid < s'.nextUid
    ensures Fires(s, now).Some? && Fires(s, now).value.uid == x.uid ==> Fires(s, now) == Some(x) && x in s.timers
  {
    var f := Fires(s, now);
    var i := FirstExpired(s.timers, now);
    if x in s.timers {
      if f.Some? && f.value.uid == x.uid {
        SameNode(s, f.value, x);
      }
      if f == Some(x) {
        FiringUnlinks(s, now, ops, x);
      } else {
        FiringKeepsTimer(s, now, ops, x);
      }
    } else if f.Some? {
      assert s.timers[i].uid != x.uid;
      forall j | 0 <= j < |Taken(s, now, i).timers| ensures Taken(s, now, i).timers[j].uid != x.uid {
        assert s.timers[if s.timers[i].repeats || j < i then j else j + 1].uid != x.uid;
      }
      AllApplyNeverRevives(Taken(s, now, i), now, ops, x.uid);
    }
  }

  /** Runs are put together from events. */
  lemma AfterLast(s: State, events: seq<Event>)
    requires events != []
    ensures var n := |events| - 1; After(s, events) == After(After(s, events[..n]), [events[n]])
  {
    var n := |events| - 1;
    assert [events[n]][..0] == [];
    assert After(After(s, events[..n]), []) == After(s, events[..n]);
  }

  /** The timer is listed and has not fired, or is gone and has fired once; it never fires early. */
  ghost predicate OneShotSoFar(s: State, x: Timer, trace: seq<Firing>) {
    && (if x in s.timers then FiringsOf(trace, x.uid) == 0
        else FiringsOf(trace, x.uid) == 1 && !Known(s, x.uid) && x.uid < s.nextUid)
    && forall k :: 0 <= k < |trace| && trace[k].uid == x.uid ==> trace[k].now >= x.timeout
  }

  lemma OneShotExtends(s: State, e: Event, x: Timer, trace: seq<Firing>)
    requires Valid(s) && !x.repeats && RunSpares([e], x) && OneShotSoFar(s, x, trace)
    ensures OneShotSoFar(After(s, [e]), x, trace + FiringOf(s, e))
  {
    var f := FiringOf(s, e);
    OneShotEvent(s, e, x);
    CountAppend(trace, f, x.uid);
    NeverEarly(trace, f, x);
    ListedIsKnown(After(s, [e]), x);
  }

  lemma ListedIsKnown(s: State, x: Timer)
    ensures x in s.timers ==> Known(s, x.uid)
  {
  }

  lemma NeverEarly(trace: seq<Firing>, last: seq<Firing>, x: Timer)
    requires |last| <= 1 && (last != [] && last[0].uid == x.uid ==> last[0].now >= x.timeout)
    requires forall k :: 0 <= k < |trace| && trace[k].uid == x.uid ==> trace[k].now >= x.timeout
    ensures forall k :: 0 <= k < |trace + last| && (trace + last)[k].uid == x.uid ==> (trace + last)[k].now >= x.timeout
  {
  }

  /**
   * A one-shot or a sleep, in any run that does not clear it: it is in the list until the step that fires it and
   * not afterwards; so it fires at most once, exactly if it is no longer listed, and not before its time.
   */
  lemma {:induction false} OneShotLife(s: State, events: seq<Event>, x: Timer)
    requires Valid(s) && x in s.timers && !x.repeats && RunSpares(events, x)
    ensures OneShotSoFar(After(s, events), x, Firings(s, events))
    decreases |events|
  {
    if events != [] {
      var n := |events| - 1;
      OneShotLife(s, events[..n], x);
      ValidAfter(s, events[..n]);
      assert RunSpares([events[n]], x);
      AfterLast(s, events);
      OneShotExtends(After(s, events[..n]), events[n], x, Firings(s, events[..n]));
    }
  }

  // ---------------------------------------------------------------- intervals

  /** When an interval is due next: one delay after its last firing, or at its first expiry. */
  function Rearmed(x: Timer, trace: seq<Firing>): Timer {
    if trace == [] then x
    else if trace[|trace| - 1].uid == x.uid then x.(timeout := trace[|trace| - 1].now + x.delay)
    else Rearmed(x, trace[..|trace| - 1])
  }

  lemma RearmedAppend(x: Timer, trace: seq<Firing>, last: seq<Firing>)
    requires |last| <= 1
    ensures Rearmed(x, trace + last) ==
      if last != [] && last[0].uid == x.uid then x.(timeout := last[0].now + x.delay) else Rearmed(x, trace)
  {
    if last == [] {
      assert trace + last == trace;
    } else {
      assert (trace + last)[..|trace|] == trace;
    }
  }

  lemma IntervalEvent(s: State, e: Event, y: Timer)
    requires Valid(s) && y in s.timers && y.repeats && RunSpares([e], y)
    ensures var f := FiringOf(s, e);
            if f != [] && f[0].uid == y.uid then e.now >= y.timeout && y.(timeout := e.now + y.delay) in After(s, [e]).timers
            else y in After(s, [e]).timers
  {
    assert [e][0] == e;
    assert [e][..0] == [];
    match e {
      case Direct(now, op) => ApplyKeepsTimer(s, now, op, y);
      case Step(now, ops) =>
        var f := Fires(s, now);
        if f.Some? && f.value.uid == y.uid {
          SameNode(s, f.value, y);
          FiringRearms(s, now, ops, y);
        } else {
          FiringKeepsTimer(s, now, ops, y);
        }
    }
  }

  /** Firings of u come at least d apart and not before the first expiry. */
  predicate Spaced(trace: seq<Firing>, x: Timer) {
    && (forall k :: 0 <= k < |trace| && trace[k].uid == x.uid ==> trace[k].now >= x.timeout)
    && (forall j, k :: 0 <= j < k < |trace| && trace[j].uid == x.uid == trace[k].uid ==> trace[k].now >= trace[j].now + x.delay)
  }

  /** Every firing so far lies at least one delay before the next expiry. */
  predicate Past(trace: seq<Firing>, x: Timer, next: int) {
    next >= x.timeout && forall k :: 0 <= k < |trace| && trace[k].uid == x.uid ==> trace[k].now + x.delay <= next
  }

  lemma SpacedAppend(trace: seq<Firing>, last: seq<Firing>, x: Timer, next: int)
    requires |last| <= 1 && x.delay >= 0 && Spaced(trace, x) && Past(trace, x, next)
    requires last != [] && last[0].uid == x.uid ==> last[0].now >= next
    ensures Spaced(trace + last, x)
    ensures Past(trace + last, x, if last != [] && last[0].uid == x.uid then last[0].now + x.delay else next)
  {
  }

  /**
   * An interval, in any run that does not clear it: it stays in the list, due one delay after its last firing and
   * not before; so its firings come at least one delay apart.
   */
  lemma {:induction false} IntervalLife(s: State, events: seq<Event>, x: Timer)
    requires Valid(s) && x in s.timers && x.repeats && RunSpares(events, x)
    ensures Rearmed(x, Firings(s, events)) in After(s, events).timers
    ensures Spaced(Firings(s, events), x) && Past(Firings(s, events), x, Rearmed(x, Firings(s, events)).timeout)
    decreases |events|
  {
    if events != [] {
      var n := |events| - 1;
      IntervalLife(s, events[..n], x);
      ValidAfter(s, events[..n]);
      RearmedKeeps(x, Firings(s, events[..n]));
      assert RunSpares([events[n]], x);
      AfterLast(s, events);
      IntervalStep(After(s, events[..n]), events[n], x, Firings(s, events[..n]));
    }
  }

  lemma IntervalStep(s: State, e: Event, x: Timer, trace: seq<Firing>)
    requires Valid(s) && x.repeats && RunSpares([e], x)
    requires Rearmed(x, trace) in s.timers && Rearmed(x, trace).(timeout := x.timeout) == x
    requires Spaced(trace, x) && Past(trace, x, Rearmed(x, trace).timeout)
    ensures Rearmed(x, trace + FiringOf(s, e)) in After(s, [e]).timers
    ensures Spaced(trace + FiringOf(s, e), x) && Past(trace + FiringOf(s, e), x, Rearmed(x, trace + FiringOf(s, e)).timeout)
  {
    var y, f := Rearmed(x, trace), FiringOf(s, e);
    var i :| 0 <= i < |s.timers| && s.timers[i] == y;
    assert y.delay >= 1;
    assert RunSpares([e], y);
    IntervalEvent(s, e, y);
    RearmedAppend(x, trace, f);
    SpacedAppend(trace, f, x, y.timeout);
  }

  lemma {:induction false} RearmedKeeps(x: Timer, trace: seq<Firing>)
    ensures Rearmed(x, trace).(timeout := x.timeout) == x
    decreases |trace|
  {
    if trace != [] {
      RearmedKeeps(x, trace[..|trace| - 1]);
    }
  }

  // ---------------------------------------------------------------- where timers come from

  /** The timer setTimeout and setInterval add: expired from one delay, at least 1, after the call, and repeating only if asked. */
  function NewTimer(s: State, now: int, delay: int, repeats: bool): (x: Timer)
    ensures x.uid == s.nextUid && x.id == s.nextId && x.repeats == repeats
    ensures x.delay == (if delay < 1 then 1 else delay) && x.timeout == now + x.delay
    ensures forall later :: Expired(x, later) <==> later >= now + x.delay
  {
    Timer(s.nextUid, s.nextId, repeats, now + Max(delay, 1), Max(delay, 1))
  }

  lemma StartedTimer(s: State, now: int, delay: int, repeats: bool)
    ensures After(s, [Direct(now, Start(delay, repeats))]).timers == s.timers + [NewTimer(s, now, delay, repeats)]
  {
    AfterDirect(s, now, Start(delay, repeats));
    assert Applied(s, now, Start(delay, repeats)).timers == s.timers + [NewTimer(s, now, delay, repeats)];
  }

  lemma AfterDirect(s: State, now: int, op: Op)
    ensures After(s, [Direct(now, op)]) == Applied(s, now, op)
  {
    var e := Direct(now, op);
    assert [e][..0] == [] && [e][0] == e;
    assert After(s, []) == s;
  }

  /** The timer sleepAsync adds: a one-shot without an id, expired from the given delay after the call. */
  function NewSleep(s: State, now: int, delay: int): (x: Timer)
    ensures x.uid == s.nextUid && x.id == -1 && !x.repeats && x.timeout == now + delay
    ensures forall later :: Expired(x, later) <==> later >= now + delay
  {
    Timer(s.nextUid, -1, false, now + delay, 0)
  }

  lemma SleepingTimer(s: State, now: int, delay: int)
    ensures After(s, [Direct(now, Sleep(delay))]).timers == s.timers + [NewSleep(s, now, delay)]
  {
    AfterDirect(s, now, Sleep(delay));
    assert Applied(s, now, Sleep(delay)).timers == s.timers + [NewSleep(s, now, delay)];
  }

  // ---------------------------------------------------------------- expired timers do fire

  lemma {:induction false} UnfiredStays(s: State, now: int, scripts: seq<seq<Op>>, x: Timer)
    requires Valid(s) && x in s.timers && x.uid !in Trace(s, now, scripts)
    requires forall k :: 0 <= k < |scripts| ==> Spares(scripts[k], x)
    ensures x in Run(s, now, scripts).timers
    decreases |scripts|
  {
    if scripts != [] {
      var s' := Fired(s, now, scripts[0]);
      if Fires(s, now).Some? {
        FiringProgress(s, now, scripts[0]);
        FiringKeepsTimer(s, now, scripts[0], x);
      }
      UnfiredStays(s', now, scripts[1..], x);
    }
  }

  /** Without sleeps that are already over, every expired timer fires, once, within as many steps as timers were expired. */
  lemma ExpiredTimersFire(s: State, now: int, scripts: seq<seq<Op>>, x: Timer)
    requires Valid(s) && x in s.timers && Expired(x, now) && |scripts| >= Due(s.timers, now)
    requires forall k :: 0 <= k < |scripts| ==> EarlySleeps(scripts[k]) == 0 && Spares(scripts[k], x)
    ensures x.uid in Trace(s, now, scripts) && Distinct(Trace(s, now, scripts))
  {
    Settles(s, now, scripts);
    FiresAtMostOnce(s, now, scripts);
    if x.uid !in Trace(s, now, scripts) {
      UnfiredStays(s, now, scripts, x);
    }
  }
}
