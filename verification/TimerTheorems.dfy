/** Properties of runs of the timer step with the clock held at one instant. */
module TimerTheorems {
  import opened Prelude
  import opened Timers

  // ---------------------------------------------------------------- invariant

  /** Nodes are distinct and intervals re-arm strictly later. */
  ghost predicate Valid(s: State) {
    && (forall i :: 0 <= i < |s.timers| ==> s.timers[i].uid < s.nextUid)
    && (forall i :: 0 <= i < |s.timers| && s.timers[i].repeats ==> s.timers[i].delay >= 1)
    && (forall i, j :: 0 <= i < j < |s.timers| ==> s.timers[i].uid != s.timers[j].uid)
  }

  ghost predicate IsDue(s: State, now: int, u: nat) {
    exists i :: 0 <= i < |s.timers| && s.timers[i].uid == u && Expired(s.timers[i], now)
  }

  /** How many timers are expired. */
  function Due(timers: seq<Timer>, now: int): nat {
    if timers == [] then 0 else Ind(Expired(timers[0], now)) + Due(timers[1..], now)
  }

  lemma {:induction false} DueConcat(a: seq<Timer>, b: seq<Timer>, now: int)
    ensures Due(a + b, now) == Due(a, now) + Due(b, now)
  {
    if a == [] {
      assert a + b == b;
    } else {
      assert (a + b)[1..] == a[1..] + b;
      DueConcat(a[1..], b, now);
    }
  }

  lemma DueSplit(timers: seq<Timer>, i: nat, now: int)
    requires i < |timers|
    ensures Due(timers, now) == Due(timers[..i], now) + Ind(Expired(timers[i], now)) + Due(timers[i + 1..], now)
  {
    assert timers == timers[..i] + timers[i..];
    DueConcat(timers[..i], timers[i..], now);
    assert timers[i..][1..] == timers[i + 1..];
  }

  lemma DueAppend(timers: seq<Timer>, t: Timer, now: int)
    ensures Due(timers + [t], now) == Due(timers, now) + Ind(Expired(t, now))
  {
    DueConcat(timers, [t], now);
    assert [t][1..] == [];
  }

  lemma {:induction false} NoneDue(timers: seq<Timer>, now: int)
    ensures Due(timers, now) == 0 <==> FirstExpired(timers, now) == |timers|
  {
    if timers != [] {
      NoneDue(timers[1..], now);
    }
  }

  // ---------------------------------------------------------------- one operation

  /** No operation makes an existing timer expire. */
  ghost predicate NoNewlyDue(s: State, s': State, now: int) {
    && s.nextUid <= s'.nextUid
    && forall u: nat :: IsDue(s', now, u) ==> u >= s.nextUid || IsDue(s, now, u)
  }

  predicate EarlySleep(op: Op) {
    op.Sleep? && op.delay <= 0
  }

  lemma AddKeeps(s: State, s': State, t: Timer, now: int)
    requires Valid(s) && s'.timers == s.timers + [t] && t.uid == s.nextUid && s'.nextUid == s.nextUid + 1
    requires t.repeats ==> t.delay >= 1
    ensures Valid(s') && NoNewlyDue(s, s', now)
    ensures Due(s'.timers, now) == Due(s.timers, now) + Ind(Expired(t, now))
  {
    DueAppend(s.timers, t, now);
    forall u: nat | IsDue(s', now, u) && u < s.nextUid ensures IsDue(s, now, u) {
      var i :| 0 <= i < |s'.timers| && s'.timers[i].uid == u && Expired(s'.timers[i], now);
      assert s.timers[i] == s'.timers[i];
    }
  }

  lemma UnlinkKeeps(s: State, s': State, i: nat, now: int)
    requires Valid(s) && i < |s.timers| && s' == s.(timers := s.timers[..i] + s.timers[i + 1..])
    ensures Valid(s') && NoNewlyDue(s, s', now)
    ensures Due(s'.timers, now) == Due(s.timers, now) - Ind(Expired(s.timers[i], now))
    ensures !IsDue(s', now, s.timers[i].uid)
  {
    DueSplit(s.timers, i, now);
    DueConcat(s.timers[..i], s.timers[i + 1..], now);
    forall j | 0 <= j < |s'.timers|
      ensures s'.timers[j] == s.timers[if j < i then j else j + 1] && s'.timers[j].uid != s.timers[i].uid
    {
    }
    forall u: nat | IsDue(s', now, u) ensures IsDue(s, now, u) {
      var j :| 0 <= j < |s'.timers| && s'.timers[j].uid == u && Expired(s'.timers[j], now);
      assert s.timers[if j < i then j else j + 1] == s'.timers[j];
    }
  }

  lemma ApplyKeeps(s: State, now: int, op: Op)
    requires Valid(s)
    ensures Valid(Applied(s, now, op)) && NoNewlyDue(s, Applied(s, now, op), now)
    ensures Due(Applied(s, now, op).timers, now) <= Due(s.timers, now) + Ind(EarlySleep(op))
  {
    var s' := Applied(s, now, op);
    match op {
      case Start(_, _) => AddKeeps(s, s', s'.timers[|s.timers|], now);
      case Sleep(_) => AddKeeps(s, s', s'.timers[|s.timers|], now);
      case Clear(id) =>
        var i := Position(s.timers, Narrow(id));
        if Narrow(id) > 0 && i < |s.timers| {
          UnlinkKeeps(s, s', i, now);
        }
    }
  }

  function EarlySleeps(ops: seq<Op>): nat {
    if ops == [] then 0 else Ind(EarlySleep(ops[0])) + EarlySleeps(ops[1..])
  }

  lemma {:induction false} AllApplyKeeps(s: State, now: int, ops: seq<Op>)
    requires Valid(s)
    ensures Valid(AllApplied(s, now, ops)) && NoNewlyDue(s, AllApplied(s, now, ops), now)
    ensures Due(AllApplied(s, now, ops).timers, now) <= Due(s.timers, now) + EarlySleeps(ops)
    decreases |ops|
  {
    if ops != [] {
      ApplyKeeps(s, now, ops[0]);
      AllApplyKeeps(Applied(s, now, ops[0]), now, ops[1..]);
    }
  }

  // ---------------------------------------------------------------- one firing

  /** The timer that fires is no longer due when its callback starts: one-shots are unlinked, intervals re-armed. */
  lemma TakenIsNotDue(s: State, now: int)
    requires Valid(s) && FirstExpired(s.timers, now) < |s.timers|
    ensures
      var i := FirstExpired(s.timers, now);
      var s' := Taken(s, now, i);
      && Valid(s') && NoNewlyDue(s, s', now) && !IsDue(s', now, s.timers[i].uid)
      && s'.nextUid == s.nextUid
      && Due(s'.timers, now) == Due(s.timers, now) - 1
      && (s.timers[i].repeats ==> s'.timers[i].timeout > now)
  {
    var i := FirstExpired(s.timers, now);
    if s.timers[i].repeats {
      RearmKeeps(s, now, i);
    } else {
      UnlinkKeeps(s, Taken(s, now, i), i, now);
    }
  }

  lemma RearmKeeps(s: State, now: int, i: nat)
    requires Valid(s) && i < |s.timers| && s.timers[i].repeats && Expired(s.timers[i], now)
    ensures
      var s' := Taken(s, now, i);
      && Valid(s') && NoNewlyDue(s, s', now) && !IsDue(s', now, s.timers[i].uid)
      && Due(s'.timers, now) == Due(s.timers, now) - 1
  {
    var s' := Taken(s, now, i);
    DueSplit(s.timers, i, now);
    DueSplit(s'.timers, i, now);
    assert s'.timers[..i] == s.timers[..i] && s'.timers[i + 1..] == s.timers[i + 1..];
    forall u: nat | IsDue(s', now, u) ensures IsDue(s, now, u) && u != s.timers[i].uid {
      var j :| 0 <= j < |s'.timers| && s'.timers[j].uid == u && Expired(s'.timers[j], now);
      assert j != i && s.timers[j] == s'.timers[j];
    }
  }

  /** Every step with an expired timer lowers their number, but for sleeps the callback starts already expired. */
  lemma FiringProgress(s: State, now: int, ops: seq<Op>)
    requires Valid(s) && FirstExpired(s.timers, now) < |s.timers|
    ensures
      var s' := Fired(s, now, ops);
      && Valid(s')
      && Due(s'.timers, now) <= Due(s.timers, now) - 1 + EarlySleeps(ops)
      && NoNewlyDue(s, s', now)
      && !IsDue(s', now, s.timers[FirstExpired(s.timers, now)].uid)
  {
    var i := FirstExpired(s.timers, now);
    TakenIsNotDue(s, now);
    AllApplyKeeps(Taken(s, now, i), now, ops);
  }

  // ---------------------------------------------------------------- runs at one instant

  /** The timers fired by repeated steps at the same instant, the k-th callback doing scripts[k]. */
  function Trace(s: State, now: int, scripts: seq<seq<Op>>): seq<nat>
    decreases |scripts|
  {
    var i := FirstExpired(s.timers, now);
    if scripts == [] || i == |s.timers| then []
    else [s.timers[i].uid] + Trace(Fired(s, now, scripts[0]), now, scripts[1..])
  }

  function Run(s: State, now: int, scripts: seq<seq<Op>>): State
    decreases |scripts|
  {
    if scripts == [] then s else Run(Fired(s, now, scripts[0]), now, scripts[1..])
  }

  lemma {:induction false} TraceIsDue(s: State, now: int, scripts: seq<seq<Op>>, u: nat)
    requires Valid(s) && u in Trace(s, now, scripts)
    ensures u >= s.nextUid || IsDue(s, now, u)
    decreases |scripts|
  {
    var i := FirstExpired(s.timers, now);
    if u != s.timers[i].uid {
      FiringProgress(s, now, scripts[0]);
      TraceIsDue(Fired(s, now, scripts[0]), now, scripts[1..], u);
    }
  }

  ghost predicate Distinct(us: seq<nat>) {
    forall i, j :: 0 <= i < j < |us| ==> us[i] != us[j]
  }

  lemma Prepend(u: nat, us: seq<nat>)
    requires Distinct(us) && u !in us
    ensures Distinct([u] + us)
  {
  }

  /** Whatever the callbacks do, no timer fires twice at one instant. */
  lemma {:induction false} FiresAtMostOnce(s: State, now: int, scripts: seq<seq<Op>>)
    requires Valid(s)
    ensures Distinct(Trace(s, now, scripts))
    decreases |scripts|
  {
    var i := FirstExpired(s.timers, now);
    if scripts != [] && i < |s.timers| {
      var s' := Fired(s, now, scripts[0]);
      var u := s.timers[i].uid;
      FiringProgress(s, now, scripts[0]);
      FiresAtMostOnce(s', now, scripts[1..]);
      var rest := Trace(s', now, scripts[1..]);
      if u in rest {
        TraceIsDue(s', now, scripts[1..], u);
      }
      Prepend(u, rest);
    }
  }

  /** Without sleeps that are already over, all expired timers have fired after as many steps as there were. */
  lemma {:induction false} Settles(s: State, now: int, scripts: seq<seq<Op>>)
    requires Valid(s)
    requires forall k :: 0 <= k < |scripts| ==> EarlySleeps(scripts[k]) == 0
    ensures |Trace(s, now, scripts)| <= Due(s.timers, now)
    ensures |scripts| >= Due(s.timers, now) ==>
      var s' := Run(s, now, scripts);
      FirstExpired(s'.timers, now) == |s'.timers|
    decreases |scripts|
  {
    NoneDue(s.timers, now);
    if scripts != [] {
      if FirstExpired(s.timers, now) < |s.timers| {
        FiringProgress(s, now, scripts[0]);
      }
      Settles(Fired(s, now, scripts[0]), now, scripts[1..]);
    }
  }

  /** A sleep of zero started by each callback keeps one timer expired for ever. */
  lemma {:induction false} EarlySleepNeverSettles(s: State, now: int, n: nat)
    requires Valid(s) && Due(s.timers, now) == 1
    ensures Due(Run(s, now, seq(n, _ => [Sleep(0)])).timers, now) == 1
    decreases n
  {
    if n > 0 {
      var scripts := seq(n, _ => [Sleep(0)]);
      assert scripts[0] == [Sleep(0)] && scripts[1..] == seq(n - 1, _ => [Sleep(0)]);
      NoneDue(s.timers, now);
      TakenIsNotDue(s, now);
      var t := Taken(s, now, FirstExpired(s.timers, now));
      assert AllApplied(t, now, [Sleep(0)]) == Slept(t, now, 0);
      DueAppend(t.timers, Timer(t.nextUid, -1, false, now, 0), now);
      ApplyKeeps(t, now, Sleep(0));
      EarlySleepNeverSettles(Slept(t, now, 0), now, n - 1);
    }
  }

  // ---------------------------------------------------------------- any run

  /** An operation of the program, or a step of the loop, at some instant. */
  datatype Event = Direct(now: int, op: Op) | Step(now: int, ops: seq<Op>)

  function After(s: State, events: seq<Event>): State {
    if events == [] then s
    else
      var before := After(s, events[..|events| - 1]);
      match events[|events| - 1]
      case Direct(now, op) => Applied(before, now, op)
      case Step(now, ops) => Fired(before, now, ops)
  }

  /** The invariant holds in every reachable state. */
  lemma {:induction false} ReachableValid(events: seq<Event>)
    ensures Valid(After(State([], 1, 0), events))
    decreases |events|
  {
    if events != [] {
      var n := |events| - 1;
      ReachableValid(events[..n]);
      var before := After(State([], 1, 0), events[..n]);
      match events[n] {
        case Direct(now, op) => ApplyKeeps(before, now, op);
        case Step(now, ops) =>
          if FirstExpired(before.timers, now) < |before.timers| {
            FiringProgress(before, now, ops);
          }
      }
    }
  }

  // ---------------------------------------------------------------- the wait

  /** The smallest remaining delay, capped at INT32_MAX. */
  function Soonest(timers: seq<Timer>, now: int): (m: int)
    ensures m <= INT32_MAX
    ensures forall i :: 0 <= i < |timers| ==> m <= timers[i].timeout - now
    ensures m == INT32_MAX || exists i :: 0 <= i < |timers| && m == timers[i].timeout - now
  {
    if timers == [] then INT32_MAX
    else
      var n := |timers| - 1;
      var m := Soonest(timers[..n], now);
      assert forall i :: 0 <= i < n ==> timers[..n][i] == timers[i];
      Min(m, timers[n].timeout - now)
  }

  lemma {:induction false} WaitIsLeast(timers: seq<Timer>, now: int, n: nat)
    requires n <= |timers|
    ensures WaitOf(timers, now, n) <= INT32_MAX
    ensures forall i :: 0 <= i < n ==> WaitOf(timers, now, n) <= Narrow(timers[i].timeout - now)
    ensures WaitOf(timers, now, n) == INT32_MAX || exists i :: 0 <= i < n && WaitOf(timers, now, n) == Narrow(timers[i].timeout - now)
  {
    if n > 0 {
      WaitIsLeast(timers, now, n - 1);
    }
  }

  lemma NarrowSmall(d: int)
    requires 0 < d <= INT32_MAX
    ensures Narrow(d) == d
  {
  }

  /** The wait is the smallest remaining delay exactly when no longer delay narrows to less. */
  lemma WaitIsExact(timers: seq<Timer>, now: int)
    requires FirstExpired(timers, now) == |timers|
    ensures WaitOf(timers, now, |timers|) == Soonest(timers, now) <==>
      forall i :: 0 <= i < |timers| && timers[i].timeout - now > INT32_MAX ==> Narrow(timers[i].timeout - now) >= Soonest(timers, now)
  {
    WaitIsLeast(timers, now, |timers|);
    forall i | 0 <= i < |timers| && timers[i].timeout - now <= INT32_MAX
      ensures Narrow(timers[i].timeout - now) == timers[i].timeout - now
    {
      NarrowSmall(timers[i].timeout - now);
    }
  }

  /** In particular when every remaining delay fits in an int. */
  lemma WaitFits(timers: seq<Timer>, now: int)
    requires FirstExpired(timers, now) == |timers|
    requires forall i :: 0 <= i < |timers| ==> timers[i].timeout - now <= INT32_MAX
    ensures WaitOf(timers, now, |timers|) == Soonest(timers, now) > 0
  {
    WaitIsExact(timers, now);
  }

  /** One timer 2^31 ms ahead gives a negative wait, which the loop reads as there being no timers. */
  lemma LongTimerLost(now: int)
    ensures
      var s := Started(State([], 1, 0), now, INT32_MAX + 1, false);
      FirstExpired(s.timers, now) == 1 && WaitOf(s.timers, now, 1) < 0
  {
    var s := Started(State([], 1, 0), now, INT32_MAX + 1, false);
    assert s.timers[1..] == [];
    assert WaitOf(s.timers, now, 0) == INT32_MAX;
  }

  // ---------------------------------------------------------------- clearing

  ghost predicate DistinctIds(timers: seq<Timer>) {
    forall i, j :: 0 <= i < j < |timers| && timers[i].id == timers[j].id ==> timers[i].id == -1
  }

  /** The list without the timer of the given id; sleeps have no id and always stay. */
  function WithoutId(timers: seq<Timer>, id: int): seq<Timer> {
    if timers == [] then []
    else (if id > 0 && timers[0].id == id then [] else [timers[0]]) + WithoutId(timers[1..], id)
  }

  lemma {:induction false} WithoutAbsent(timers: seq<Timer>, id: int)
    requires id <= 0 || forall i :: 0 <= i < |timers| ==> timers[i].id != id
    ensures WithoutId(timers, id) == timers
  {
    if timers != [] {
      WithoutAbsent(timers[1..], id);
    }
  }

  lemma UnlinkLater(timers: seq<Timer>, i: nat)
    requires timers != []
    ensures Unlinked(timers, i + 1) == [timers[0]] + Unlinked(timers[1..], i)
  {
  }

  lemma TailDistinct(timers: seq<Timer>)
    requires timers != [] && DistinctIds(timers)
    ensures DistinctIds(timers[1..])
    ensures timers[0].id != -1 ==> forall i :: 0 <= i < |timers| - 1 ==> timers[1..][i].id != timers[0].id
  {
    forall i | 0 <= i < |timers| - 1 && timers[1..][i].id == timers[0].id ensures timers[0].id == -1 {
      assert timers[1..][i] == timers[i + 1];
    }
  }

  lemma UnlinkHead(timers: seq<Timer>, id: int)
    requires timers != [] && DistinctIds(timers) && timers[0].id == id > 0
    ensures Unlinked(timers, Position(timers, id)) == WithoutId(timers, id)
  {
    TailDistinct(timers);
    WithoutAbsent(timers[1..], id);
    assert Unlinked(timers, 0) == timers[1..];
  }

  lemma UnlinkTail(timers: seq<Timer>, id: int)
    requires timers != [] && timers[0].id != id
    requires Unlinked(timers[1..], Position(timers[1..], id)) == WithoutId(timers[1..], id)
    ensures Unlinked(timers, Position(timers, id)) == WithoutId(timers, id)
  {
    UnlinkLater(timers, Position(timers[1..], id));
  }

  lemma {:induction false} UnlinkIsWithout(timers: seq<Timer>, id: int)
    requires DistinctIds(timers) && id > 0
    ensures Unlinked(timers, Position(timers, id)) == WithoutId(timers, id)
  {
    if timers != [] {
      if timers[0].id == id {
        UnlinkHead(timers, id);
      } else {
        TailDistinct(timers);
        UnlinkIsWithout(timers[1..], id);
        UnlinkTail(timers, id);
      }
    }
  }

  /** The ids clearTimeout treats correctly whatever timers there are. */
  predicate ClearableId(id: int) {
    if id > 0 then id <= INT32_MAX else Narrow(id) <= 0
  }

  /** clearTimeout removes the timer with the given id and nothing else, for every list, exactly when the id survives the narrowing. */
  lemma ClearIsExact(id: int)
    ensures
      (forall s: State :: DistinctIds(s.timers) ==> Cleared(s, id).timers == WithoutId(s.timers, id)) <==> ClearableId(id)
  {
    if ClearableId(id) {
      forall s: State | DistinctIds(s.timers) ensures Cleared(s, id).timers == WithoutId(s.timers, id) {
        if id > 0 {
          NarrowSmall(id);
          UnlinkIsWithout(s.timers, id);
        } else {
          WithoutAbsent(s.timers, id);
        }
      }
    } else {
      var s := State([Timer(0, if Narrow(id) > 0 then Narrow(id) else id, false, 1, 1)], 2, 1);
      assert s.timers[1..] == [];
      assert Narrow(id) <= INT32_MAX;
      assert DistinctIds(s.timers) && Cleared(s, id).timers != WithoutId(s.timers, id);
    }
  }

  lemma SleepsSurvive(s: State, id: int, i: nat)
    requires i < |s.timers| && s.timers[i].id == -1
    ensures s.timers[i] in Cleared(s, id).timers
  {
    var n := Narrow(id);
    if n > 0 {
      var k := Position(s.timers, n);
      if k < |s.timers| {
        assert i != k;
        assert Unlinked(s.timers, k)[if i < k then i else i - 1] == s.timers[i];
      }
    }
  }

  /** Ids below the next one, none twice. */
  ghost predicate FreshIds(s: State) {
    && s.nextId >= 1 && DistinctIds(s.timers)
    && forall i :: 0 <= i < |s.timers| ==> s.timers[i].id == -1 || 1 <= s.timers[i].id < s.nextId
  }

  /** Until the ids start again from 1, no two timers share an id. */
  lemma IdsStayFresh(s: State, now: int, op: Op)
    requires FreshIds(s) && s.nextId + Ind(op.Start?) <= MAX_SAFE_INTEGER
    ensures FreshIds(Applied(s, now, op)) && Applied(s, now, op).nextId == s.nextId + Ind(op.Start?)
  {
    match op {
      case Start(_, _) =>
      case Sleep(_) =>
      case Clear(id) =>
        var k := Position(s.timers, Narrow(id));
        if Narrow(id) > 0 && k < |s.timers| {
          var rest := Unlinked(s.timers, k);
          forall i | 0 <= i < |rest| ensures rest[i] == s.timers[if i < k then i else i + 1] {
          }
        }
    }
  }

  function StartsIn(ops: seq<Op>): nat {
    if ops == [] then 0 else Ind(ops[0].Start?) + StartsIn(ops[1..])
  }

  /** The timers with an id that a run can have started. */
  function Starts(events: seq<Event>): nat {
    if events == [] then 0
    else
      Starts(events[..|events| - 1])
      + match events[|events| - 1] case Direct(_, op) => Ind(op.Start?) case Step(_, ops) => StartsIn(ops)
  }

  lemma {:induction false} IdsStayFreshAll(s: State, now: int, ops: seq<Op>)
    requires FreshIds(s) && s.nextId + StartsIn(ops) <= MAX_SAFE_INTEGER
    ensures FreshIds(AllApplied(s, now, ops)) && AllApplied(s, now, ops).nextId <= s.nextId + StartsIn(ops)
    decreases |ops|
  {
    if ops != [] {
      IdsStayFresh(s, now, ops[0]);
      IdsStayFreshAll(Applied(s, now, ops[0]), now, ops[1..]);
    }
  }

  /** Taking the expired timer changes no id. */
  lemma TakenKeepsIds(s: State, now: int, i: nat)
    requires FreshIds(s) && i < |s.timers|
    ensures FreshIds(Taken(s, now, i)) && Taken(s, now, i).nextId == s.nextId
  {
    var rest := Taken(s, now, i).timers;
    if s.timers[i].repeats {
      forall j | 0 <= j < |rest| ensures rest[j].id == s.timers[j].id {
      }
    } else {
      forall j | 0 <= j < |rest| ensures rest[j] == s.timers[if j < i then j else j + 1] {
      }
    }
  }

  lemma IdsStayFreshFired(s: State, now: int, ops: seq<Op>)
    requires FreshIds(s) && s.nextId + StartsIn(ops) <= MAX_SAFE_INTEGER
    ensures FreshIds(Fired(s, now, ops)) && Fired(s, now, ops).nextId <= s.nextId + StartsIn(ops)
  {
    var i := FirstExpired(s.timers, now);
    if i < |s.timers| {
      TakenKeepsIds(s, now, i);
      IdsStayFreshAll(Taken(s, now, i), now, ops);
    }
  }

  /** In every run that starts fewer than 2^53 - 1 timers, no two timers share an id. */
  lemma {:induction false} ReachableFreshIds(events: seq<Event>)
    requires Starts(events) < MAX_SAFE_INTEGER
    ensures FreshIds(After(State([], 1, 0), events)) && After(State([], 1, 0), events).nextId <= 1 + Starts(events)
    decreases |events|
  {
    if events != [] {
      var n := |events| - 1;
      ReachableFreshIds(events[..n]);
      var before := After(State([], 1, 0), events[..n]);
      match events[n] {
        case Direct(now, op) => IdsStayFresh(before, now, op);
        case Step(now, ops) => IdsStayFreshFired(before, now, ops);
      }
    }
  }
}
