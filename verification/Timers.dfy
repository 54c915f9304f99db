/**
 * The timer list of one thread: setTimeout, setInterval, clearTimeout, sleepAsync and the step of
 * the event loop that runs at most one expired timer.
 *
 * A timer's `uid` stands for its list node; what a callback does to the timers is a list of
 * operations, carried out at the instant the callback runs.
 */
module Timers {
  import opened Prelude

  const INT32_MAX := 0x7FFF_FFFF
  const TWO32 := 0x1_0000_0000
  const MAX_SAFE_INTEGER := 0x1F_FFFF_FFFF_FFFF

  datatype Timer = Timer(uid: nat, id: int, repeats: bool, timeout: int, delay: int)

  datatype Op = Start(delay: int, repeats: bool) | Clear(id: int) | Sleep(delay: int)

  datatype State = State(timers: seq<Timer>, nextId: int, nextUid: nat)

  /** Conversion of an int64_t to int. */
  function Narrow(n: int): int {
    var m := n % TWO32;
    if m <= INT32_MAX then m else m - TWO32
  }

  // ---------------------------------------------------------------- what the operations do

  function Started(s: State, now: int, delay: int, repeats: bool): State {
    var d := Max(delay, 1);
    State(s.timers + [Timer(s.nextUid, s.nextId, repeats, now + d, d)],
          if s.nextId + 1 > MAX_SAFE_INTEGER then 1 else s.nextId + 1, s.nextUid + 1)
  }

  function Slept(s: State, now: int, delay: int): State {
    State(s.timers + [Timer(s.nextUid, -1, false, now + delay, 0)], s.nextId, s.nextUid + 1)
  }

  /** The position of the first timer with the given id, or the length of the list. */
  function Position(timers: seq<Timer>, id: int): (i: nat)
    ensures i <= |timers|
    ensures i < |timers| ==> timers[i].id == id
    ensures forall j :: 0 <= j < i ==> timers[j].id != id
  {
    if timers == [] || timers[0].id == id then 0 else 1 + Position(timers[1..], id)
  }

  function Unlinked(timers: seq<Timer>, i: nat): seq<Timer> {
    if i < |timers| then timers[..i] + timers[i + 1..] else timers
  }

  function Cleared(s: State, id: int): State {
    var n := Narrow(id);
    if n <= 0 then s else s.(timers := Unlinked(s.timers, Position(s.timers, n)))
  }

  function Applied(s: State, now: int, op: Op): State {
    match op
    case Start(delay, repeats) => Started(s, now, delay, repeats)
    case Clear(id) => Cleared(s, id)
    case Sleep(delay) => Slept(s, now, delay)
  }

  function AllApplied(s: State, now: int, ops: seq<Op>): State
    decreases |ops|
  {
    if ops == [] then s else AllApplied(Applied(s, now, ops[0]), now, ops[1..])
  }

  predicate Expired(t: Timer, now: int) {
    t.timeout <= now
  }

  /** The position of the first expired timer, or the length of the list. */
  function FirstExpired(timers: seq<Timer>, now: int): (i: nat)
    ensures i <= |timers|
    ensures i < |timers| ==> Expired(timers[i], now)
    ensures forall j :: 0 <= j < i ==> !Expired(timers[j], now)
  {
    if timers == [] || Expired(timers[0], now) then 0 else 1 + FirstExpired(timers[1..], now)
  }

  /** The list as the callback of the i-th timer finds it: intervals are re-armed, others are gone. */
  function Taken(s: State, now: int, i: nat): State
    requires i < |s.timers|
  {
    var t := s.timers[i];
    if t.repeats then s.(timers := s.timers[i := t.(timeout := now + t.delay)])
    else s.(timers := Unlinked(s.timers, i))
  }

  /** One step: the first expired timer is taken and its callback does `ops`. */
  function Fired(s: State, now: int, ops: seq<Op>): State {
    var i := FirstExpired(s.timers, now);
    if i == |s.timers| then s else AllApplied(Taken(s, now, i), now, ops)
  }

  /** The wait computed from the first n timers; every delay passes through an int. */
  function WaitOf(timers: seq<Timer>, now: int, n: nat): int
    requires n <= |timers|
  {
    if n == 0 then INT32_MAX else Min(WaitOf(timers, now, n - 1), Narrow(timers[n - 1].timeout - now))
  }

  // ---------------------------------------------------------------- the thread state

  class Thread {
    var timers: seq<Timer>
    var nextId: int
    var nextUid: nat

    constructor ()
      ensures Current() == State([], 1, 0)
    {
      timers, nextId, nextUid := [], 1, 0;
    }

    function Current(): State
      reads this
    {
      State(timers, nextId, nextUid)
    }

    /** js_os_setTimeout and setInterval */
    method SetTimeout(now: int, delay: int, repeats: bool) returns (id: int)
      modifies this
      ensures id == old(nextId) && Current() == Started(old(Current()), now, delay, repeats)
      ensures timers == old(timers) + [Timer(old(nextUid), id, repeats, now + Max(delay, 1), Max(delay, 1))]
      ensures nextUid == old(nextUid) + 1 && nextId == if id < MAX_SAFE_INTEGER then id + 1 else 1
    {
      var d := delay;
      if d < 1 {
        d := 1;
      }
      id := nextId;
      nextId := nextId + 1;
      if nextId > MAX_SAFE_INTEGER {
        nextId := 1;
      }
      timers := timers + [Timer(nextUid, id, repeats, now + d, d)];
      nextUid := nextUid + 1;
    }

    /** js_os_clearTimeout with find_timer_by_id, whose parameter is an int */
    method ClearTimeout(id: int)
      modifies this
      ensures Current() == Cleared(old(Current()), id)
    {
      var n := Narrow(id);
      if n <= 0 {
        return;
      }
      var i := 0;
      while i < |timers|
        invariant i <= |timers| && unchanged(this)
        invariant i + Position(timers[i..], n) == Position(timers, n)
      {
        if timers[i].id == n {
          timers := timers[..i] + timers[i + 1..];
          return;
        }
        i := i + 1;
      }
    }

    /** js_os_sleepAsync: the promise's resolver becomes a timer without an id */
    method SleepAsync(now: int, delay: int)
      modifies this
      ensures Current() == Slept(old(Current()), now, delay)
      ensures timers == old(timers) + [Timer(old(nextUid), -1, false, now + delay, 0)]
      ensures nextUid == old(nextUid) + 1 && nextId == old(nextId)
    {
      timers := timers + [Timer(nextUid, -1, false, now + delay, 0)];
      nextUid := nextUid + 1;
    }

    /** A callback running at `now`. */
    method Callback(now: int, ops: seq<Op>)
      modifies this
      ensures Current() == AllApplied(old(Current()), now, ops)
    {
      for k := 0 to |ops|
        invariant AllApplied(Current(), now, ops[k..]) == AllApplied(old(Current()), now, ops)
      {
        assert ops[k..][1..] == ops[k + 1..];
        match ops[k] {
          case Start(delay, repeats) => var _ := SetTimeout(now, delay, repeats);
          case Clear(id) => ClearTimeout(id);
          case Sleep(delay) => SleepAsync(now, delay);
        }
      }
    }

    /** js_os_run_timers: the timer that fired, if any, and the wait handed to poll. */
    method RunTimers(now: int, ops: seq<Op>) returns (fired: Option<nat>, minDelay: int)
      modifies this
      ensures old(timers) == [] ==> minDelay == -1
      ensures Current() == Fired(old(Current()), now, ops)
      ensures
        var i := FirstExpired(old(timers), now);
        if i < |old(timers)| then fired == Some(old(timers)[i].uid) && minDelay == 0
        else fired.None? && (old(timers) != [] ==> minDelay == WaitOf(timers, now, |timers|))
    {
      if timers == [] {
        return None, -1;
      }
      minDelay := INT32_MAX;
      var i := 0;
      while i < |timers|
        invariant i <= |timers| && unchanged(this)
        invariant minDelay == WaitOf(timers, now, i)
        invariant i + FirstExpired(timers[i..], now) == FirstExpired(timers, now)
      {
        var t := timers[i];
        var delay := t.timeout - now;
        if delay > 0 {
          minDelay := Min(minDelay, Narrow(delay));
        } else {
          minDelay := 0;
          if t.repeats {
            timers := timers[i := t.(timeout := now + t.delay)];
          } else {
            timers := timers[..i] + timers[i + 1..];
          }
          Callback(now, ops);
          return Some(t.uid), 0;
        }
        i := i + 1;
      }
      return None, minDelay;
    }
  }
}
