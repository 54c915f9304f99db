/**
 * What a thread achieves when it runs on its own: a post puts exactly its message into the pipe, a take hands the
 * oldest message and its buffers to the receiver.
 */
module WorkerDelivery {
  import opened Prelude
  import opened Workers
  import opened WorkerSafety
  import opened WorkerTheorems

  /** The state after thread t made n steps while no other thread ran; None if it was blocked. */
  function Alone(s: State, t: nat, n: nat): Option<State>
    decreases n
  {
    if n == 0 then Some(s) else if CanAdvance(s, t) then Alone(Step(s, t), t, n - 1) else None
  }

  lemma {:induction false} AloneThen(s: State, t: nat, m: nat, n: nat)
    requires Alone(s, t, m).Some?
    ensures Alone(s, t, m + n) == Alone(Alone(s, t, m).value, t, n)
    decreases m
  {
    if m > 0 {
      AloneThen(Step(s, t), t, m - 1, n);
    }
  }

  /** Thread t, running on its own, comes from s to s'. */
  ghost predicate Leads(s: State, t: nat, s': State) {
    exists n: nat :: Alone(s, t, n) == Some(s')
  }

  lemma Stays(s: State, t: nat)
    ensures Leads(s, t, s)
  {
    assert Alone(s, t, 0) == Some(s);
  }

  lemma OneStep(s: State, t: nat)
    requires CanAdvance(s, t)
    ensures Leads(s, t, Step(s, t))
  {
    assert Alone(Step(s, t), t, 0) == Some(Step(s, t));
    assert Alone(s, t, 1) == Some(Step(s, t));
  }

  lemma Onward(s: State, t: nat, s1: State, s2: State)
    requires Leads(s, t, s1) && Leads(s1, t, s2)
    ensures Leads(s, t, s2)
  {
    var m: nat :| Alone(s, t, m) == Some(s1);
    var n: nat :| Alone(s1, t, n) == Some(s2);
    AloneThen(s, t, m, n);
  }

  // ---------------------------------------------------------------- reachability

  lemma {:induction false} RunsOn(s: State, events: seq<Event>, more: seq<Event>)
    requires Runs(s, events) && Runs(After(s, events), more)
    ensures Runs(s, events + more) && After(s, events + more) == After(After(s, events), more)
    decreases |events|
  {
    if events == [] {
      assert [] + more == more;
    } else {
      RunsOn(Next(s, events[0]), events[1..], more);
      assert (events + more)[1..] == events[1..] + more;
    }
  }

  lemma NextReachable(s: State, e: Event)
    requires Reachable(s) && Enabled(s, e)
    ensures Reachable(Next(s, e))
  {
    var events :| Runs(Initial(), events) && s == After(Initial(), events);
    assert [e][1..] == [];
    RunsOn(Initial(), events, [e]);
  }

  lemma AloneFirst(s: State, t: nat, n: nat)
    requires n > 0 && Alone(s, t, n).Some?
    ensures CanAdvance(s, t) && Alone(Step(s, t), t, n - 1) == Alone(s, t, n)
  {
  }

  lemma {:induction false} AloneRuns(s: State, t: nat, n: nat, s': State)
    requires Alone(s, t, n) == Some(s')
    ensures var events := seq(n, _ => Event(t, Advance)); Runs(s, events) && After(s, events) == s'
    decreases n
  {
    if n > 0 {
      AloneFirst(s, t, n);
      AloneRuns(Step(s, t), t, n - 1, s');
      assert seq(n, _ => Event(t, Advance))[1..] == seq(n - 1, _ => Event(t, Advance));
    }
  }

  lemma LeadsReachable(s: State, t: nat, s': State)
    requires Reachable(s) && Leads(s, t, s')
    ensures Reachable(s')
  {
    var events :| Runs(Initial(), events) && s == After(Initial(), events);
    var n: nat :| Alone(s, t, n) == Some(s');
    AloneRuns(s, t, n, s');
    RunsOn(Initial(), events, seq(n, _ => Event(t, Advance)));
  }

  // ---------------------------------------------------------------- taking a message

  /** The head of the queue is gone, counted as taken, and thread t is about to read it. */
  function HandedOver(s: State, t: nat, p: nat): State
    requires t < |s.threads| && p < |s.pipes| && s.pipes[p].queue != []
  {
    var pipe := s.pipes[p];
    SetPc(SetPipe(s, p, pipe.(queue := pipe.queue[1..], taken := pipe.taken + [pipe.queue[0]], takers := pipe.takers + {t},
                              waker := if |pipe.queue| == 1 then 0 else pipe.waker)),
          t, Reading(pipe.queue[0], 0))
  }

  lemma SetTwice<T>(xs: seq<T>, i: nat, a: T, b: T)
    requires i < |xs|
    ensures xs[i := a][i := b] == xs[i := b]
  {
  }

  /** Thread t holds the mutex of pipe p and is at program counter pc; the rest is as in s. */
  function Holding(s: State, t: nat, p: nat, pipe: Pipe, pc: Pc): State
    requires t < |s.threads| && p < |s.pipes|
  {
    SetPc(SetPipe(s, p, pipe.(lock := Some(t))), t, pc)
  }

  lemma LockStep(s: State, t: nat, w: nat, p: nat)
    requires CanAdvance(s, t) && s.threads[t].pc == TakeLock(w) && p == s.workers[w].recv
    ensures Step(s, t) == Holding(s, t, p, s.pipes[p], TakeTest(w))
  {
  }

  lemma UnlinkStep(s: State, t: nat, w: nat, p: nat)
    requires t < |s.threads| && Owns(s, t, w) && p == s.workers[w].recv && s.pipes[p].queue != []
    ensures var held := Holding(s, t, p, s.pipes[p], TakeTest(w)); var pipe := s.pipes[p]; var msg := pipe.queue[0];
            && CanAdvance(held, t)
            && Step(held, t) == Holding(s, t, p, pipe.(queue := pipe.queue[1..], taken := pipe.taken + [msg], takers := pipe.takers + {t}),
                                        if |pipe.queue| == 1 then TakeClear(w, msg) else TakeUnlock(w, msg))
  {
    var held := Holding(s, t, p, s.pipes[p], TakeTest(w));
    SetTwice(s.pipes, p, held.pipes[p], Step(held, t).pipes[p]);
    SetTwice(s.threads, t, held.threads[t], Step(held, t).threads[t]);
  }

  lemma ClearStep(s: State, t: nat, w: nat, p: nat, pipe: Pipe, msg: Message)
    requires t < |s.threads| && Owns(s, t, w) && p == s.workers[w].recv && 0 < pipe.waker <= 16
    ensures var held := Holding(s, t, p, pipe, TakeClear(w, msg));
            CanAdvance(held, t) && Step(held, t) == Holding(s, t, p, pipe.(waker := 0), TakeUnlock(w, msg))
  {
    var held := Holding(s, t, p, pipe, TakeClear(w, msg));
    SetTwice(s.pipes, p, held.pipes[p], Step(held, t).pipes[p]);
    SetTwice(s.threads, t, held.threads[t], Step(held, t).threads[t]);
  }

  lemma UnlockStep(s: State, t: nat, w: nat, p: nat, pipe: Pipe, msg: Message)
    requires t < |s.threads| && Owns(s, t, w) && p == s.workers[w].recv
    ensures var held := Holding(s, t, p, pipe, TakeUnlock(w, msg));
            CanAdvance(held, t) && Step(held, t) == SetPc(SetPipe(s, p, pipe.(lock := None)), t, Reading(msg, 0))
  {
    var held := Holding(s, t, p, pipe, TakeUnlock(w, msg));
    SetTwice(s.pipes, p, held.pipes[p], Step(held, t).pipes[p]);
    SetTwice(s.threads, t, held.threads[t], Step(held, t).threads[t]);
  }

  /** From an unlocked pipe with a message, the receiver takes exactly the oldest one. */
  lemma TakesOldest(s: State, t: nat, w: nat)
    requires Reachable(s) && t < |s.threads| && s.threads[t].pc == TakeLock(w) && Owns(s, t, w)
    requires var pipe := s.pipes[s.workers[w].recv]; pipe.lock.None? && pipe.queue != []
    ensures Leads(s, t, HandedOver(s, t, s.workers[w].recv))
  {
    var p := s.workers[w].recv;
    var pipe := s.pipes[p];
    var msg := pipe.queue[0];
    ReachableInv(s);
    OwnedPipesAreAlive(s, t, w);
    NoLostWakeup(s, p);
    LockStep(s, t, w, p);
    UnlinkStep(s, t, w, p);
    TwoSteps(s, t);
    var rest := pipe.(queue := pipe.queue[1..], taken := pipe.taken + [msg], takers := pipe.takers + {t});
    var s2 := Step(Step(s, t), t);
    if |pipe.queue| == 1 {
      ClearStep(s, t, w, p, rest, msg);
      UnlockStep(s, t, w, p, rest.(waker := 0), msg);
      TwoSteps(s2, t);
    } else {
      UnlockStep(s, t, w, p, rest, msg);
      OneStep(s2, t);
    }
    Onward(s, t, s2, HandedOver(s, t, p));
  }

  lemma TwoSteps(s: State, t: nat)
    requires CanAdvance(s, t) && CanAdvance(Step(s, t), t)
    ensures Leads(s, t, Step(Step(s, t), t))
  {
    OneStep(s, t);
    OneStep(Step(s, t), t);
    Onward(s, t, Step(s, t), Step(Step(s, t), t));
  }

  // ---------------------------------------------------------------- reading and freeing a message

  /** The buffers' counts have moved by the given multisets; nothing else about the buffers is said. */
  ghost predicate Counted(s: State, s': State, more: multiset<nat>, less: multiset<nat>) {
    |s'.sabs| == |s.sabs| && forall b :: 0 <= b < |s.sabs| ==> s'.sabs[b].refs == s.sabs[b].refs + more[b] - less[b]
  }

  /** Thread t has the given record; pipes, objects and the other threads are as they were. */
  ghost predicate OnlyThread(s: State, s': State, t: nat, th: Thread) {
    t < |s.threads| && s'.threads == s.threads[t := th] && s'.pipes == s.pipes && s'.workers == s.workers
  }

  lemma OnlyThreadThen(s: State, s1: State, s2: State, t: nat, th1: Thread, th2: Thread)
    requires OnlyThread(s, s1, t, th1) && OnlyThread(s1, s2, t, th2)
    ensures OnlyThread(s, s2, t, th2)
  {
    SetTwice(s.threads, t, th1, th2);
  }

  lemma CountedThen(s: State, s1: State, s2: State, m1: multiset<nat>, l1: multiset<nat>, m2: multiset<nat>, l2: multiset<nat>)
    requires Counted(s, s1, m1, l1) && Counted(s1, s2, m2, l2)
    ensures Counted(s, s2, m1 + m2, l1 + l2)
  {
  }

  lemma ReadStep(s: State, t: nat, msg: Message, i: nat)
    requires t < |s.threads| && s.threads[t].pc == Reading(msg, i) && i < |msg.sabs| && SabsIn(s, msg.sabs)
    ensures CanAdvance(s, t)
    ensures var th := s.threads[t];
            && OnlyThread(s, Step(s, t), t, th.(pc := Reading(msg, i + 1), handles := th.handles + multiset{msg.sabs[i]}))
            && Counted(s, Step(s, t), multiset{msg.sabs[i]}, multiset{})
  {
  }

  lemma {:induction false} ReadsAll(s: State, t: nat, msg: Message, i: nat) returns (s': State)
    requires t < |s.threads| && s.threads[t].pc == Reading(msg, i) && i <= |msg.sabs| && SabsIn(s, msg.sabs)
    ensures Leads(s, t, s')
    ensures var th := s.threads[t];
            OnlyThread(s, s', t, th.(pc := Reading(msg, |msg.sabs|), handles := th.handles + multiset(msg.sabs[i..])))
    ensures Counted(s, s', multiset(msg.sabs[i..]), multiset{})
    decreases |msg.sabs| - i
  {
    var th := s.threads[t];
    if i == |msg.sabs| {
      s' := s;
      Stays(s, t);
      assert msg.sabs[i..] == [] && th.handles + multiset([]) == th.handles;
      assert s.threads == s.threads[t := th];
    } else {
      var s1, b := Step(s, t), msg.sabs[i];
      ReadStep(s, t, msg, i);
      s' := ReadsAll(s1, t, msg, i + 1);
      HeadOf(msg.sabs, i);
      AddTwice(th.handles, multiset{b}, multiset(msg.sabs[i + 1..]));
      OneStep(s, t);
      Onward(s, t, s1, s');
      OnlyThreadThen(s, s1, s', t, s1.threads[t], s'.threads[t]);
      CountedThen(s, s1, s', multiset{b}, multiset{}, multiset(msg.sabs[i + 1..]), multiset{});
    }
  }

  lemma AddTwice(a: multiset<nat>, b: multiset<nat>, c: multiset<nat>)
    ensures a + b + c == a + (b + c)
  {
  }

  lemma HeadOf(xs: seq<nat>, i: nat)
    requires i < |xs|
    ensures multiset(xs[i..]) == multiset{xs[i]} + multiset(xs[i + 1..])
  {
    assert xs[i..] == [xs[i]] + xs[i + 1..];
  }

  function AfterFreeing(of: Option<nat>): Pc {
    if of.Some? then Draining(of.value) else Idle
  }

  lemma FreeStep(s: State, t: nat, rest: seq<nat>, of: Option<nat>)
    requires t < |s.threads| && s.threads[t].pc == Freeing(rest, of) && rest != [] && SabsIn(s, rest)
    ensures CanAdvance(s, t)
    ensures OnlyThread(s, Step(s, t), t, s.threads[t].(pc := Freeing(rest[1..], of)))
    ensures Counted(s, Step(s, t), multiset{}, multiset{rest[0]})
  {
  }

  lemma FreeEnds(s: State, t: nat, of: Option<nat>)
    requires t < |s.threads| && s.threads[t].pc == Freeing([], of)
    ensures CanAdvance(s, t)
    ensures OnlyThread(s, Step(s, t), t, s.threads[t].(pc := AfterFreeing(of)))
    ensures Counted(s, Step(s, t), multiset{}, multiset{})
  {
  }

  lemma {:induction false} FreesAll(s: State, t: nat, rest: seq<nat>, of: Option<nat>) returns (s': State)
    requires t < |s.threads| && s.threads[t].pc == Freeing(rest, of) && SabsIn(s, rest)
    ensures Leads(s, t, s')
    ensures OnlyThread(s, s', t, s.threads[t].(pc := AfterFreeing(of))) && Counted(s, s', multiset{}, multiset(rest))
    decreases |rest|
  {
    if rest == [] {
      FreeEnds(s, t, of);
      OneStep(s, t);
      s' := Step(s, t);
    } else {
      FreeStep(s, t, rest, of);
      OneStep(s, t);
      var s1 := Step(s, t);
      s' := FreesAll(s1, t, rest[1..], of);
      Onward(s, t, s1, s');
      HeadOf(rest, 0);
      assert rest[0..] == rest;
      OnlyThreadThen(s, s1, s', t, s1.threads[t], s'.threads[t]);
      CountedThen(s, s1, s', multiset{}, multiset{rest[0]}, multiset{}, multiset(rest[1..]));
    }
  }

  /** Reading to the end without a failure gives the thread one handle per buffer of the message and leaves the counts as they were. */
  lemma ReadsAndFrees(s: State, t: nat, msg: Message) returns (s': State)
    requires t < |s.threads| && s.threads[t].pc == Reading(msg, 0) && SabsIn(s, msg.sabs)
    ensures Leads(s, t, s')
    ensures var th := s.threads[t]; OnlyThread(s, s', t, th.(pc := Idle, handles := th.handles + multiset(msg.sabs)))
    ensures Counted(s, s', multiset{}, multiset{})
  {
    var s1 := ReadsAll(s, t, msg, 0);
    assert msg.sabs[0..] == msg.sabs;
    var s2 := Step(s1, t);
    OneStep(s1, t);
    Onward(s, t, s1, s2);
    assert OnlyThread(s1, s2, t, s1.threads[t].(pc := Freeing(msg.sabs, None))) && s2.sabs == s1.sabs;
    s' := FreesAll(s2, t, msg.sabs, None);
    OnlyThreadThen(s, s1, s2, t, s1.threads[t], s2.threads[t]);
    OnlyThreadThen(s, s2, s', t, s2.threads[t], s'.threads[t]);
    CountedThen(s, s1, s', multiset(msg.sabs), multiset{}, multiset{}, multiset(msg.sabs));
    Onward(s, t, s2, s');
  }

  /**
   * onmessage: a receiver that runs from an unlocked pipe with messages q back to rest has taken exactly the oldest
   * one, q[0]; the others stay queued in order; and it holds one more handle for each of that message's buffers.
   */
  lemma TakeReceives(s: State, t: nat, w: nat) returns (s': State)
    requires Reachable(s) && t < |s.threads| && s.threads[t].pc == TakeLock(w) && Owns(s, t, w)
    requires var pipe := s.pipes[s.workers[w].recv]; pipe.lock.None? && pipe.queue != []
    ensures Leads(s, t, s')
    ensures Received(s, s', t, s.workers[w].recv)
  {
    var p := s.workers[w].recv;
    TakesOldest(s, t, w);
    var s1 := HandedOver(s, t, p);
    ReachableInv(s);
    assert PipeInv(s, p) && SabsIn(s, s.pipes[p].queue[0].sabs);
    s' := ReadsAndFrees(s1, t, s.pipes[p].queue[0]);
    HandedOverReceived(s, s', t, p);
    Onward(s, t, s1, s');
  }

  /** Thread t rests, holding one more handle per buffer of the oldest message; that message, and no other, left the queue. */
  ghost predicate Received(s: State, s': State, t: nat, p: nat)
    requires t < |s.threads| && p < |s.pipes| && s.pipes[p].queue != []
  {
    var q, th := s.pipes[p].queue, s.threads[t];
    && s'.threads == s.threads[t := th.(pc := Idle, handles := th.handles + multiset(q[0].sabs))]
    && |s'.pipes| == |s.pipes| && s'.pipes[p].queue == q[1..] && s'.pipes[p].taken == s.pipes[p].taken + [q[0]]
    && (forall r :: 0 <= r < |s.pipes| && r != p ==> s'.pipes[r] == s.pipes[r])
    && s'.workers == s.workers && Counted(s, s', multiset{}, multiset{})
  }

  lemma HandedOverReceived(s: State, s': State, t: nat, p: nat)
    requires t < |s.threads| && p < |s.pipes| && s.pipes[p].queue != []
    requires var s1 := HandedOver(s, t, p); var th := s1.threads[t];
             && OnlyThread(s1, s', t, th.(pc := Idle, handles := th.handles + multiset(s.pipes[p].queue[0].sabs)))
             && Counted(s1, s', multiset{}, multiset{})
    ensures Received(s, s', t, p)
  {
    SetTwice(s.threads, t, HandedOver(s, t, p).threads[t], s'.threads[t]);
  }

  /** With nothing queued the receiver comes back empty-handed and nothing has changed. */
  lemma TakeFindsNothing(s: State, t: nat, w: nat)
    requires t < |s.threads| && s.threads[t].pc == TakeLock(w) && Owns(s, t, w)
    requires var pipe := s.pipes[s.workers[w].recv]; pipe.lock.None? && pipe.queue == []
    ensures Leads(s, t, SetPc(s, t, Idle))
  {
    var p := s.workers[w].recv;
    LockStep(s, t, w, p);
    var s1 := Step(s, t);
    var s2 := Step(s1, t);
    var s3 := Step(s2, t);
    SetTwice(s.threads, t, s1.threads[t], s2.threads[t]);
    SetTwice(s.threads, t, s2.threads[t], s3.threads[t]);
    SetTwice(s.pipes, p, s1.pipes[p], s3.pipes[p]);
    assert s.pipes[p := s.pipes[p]] == s.pipes;
    OneStep(s, t);
    TwoSteps(s1, t);
    Onward(s, t, s1, s3);
  }

  /** The command Take, from rest to rest. */
  lemma TakeCommand(s: State, t: nat, w: nat) returns (s': State)
    requires Reachable(s) && CanStart(s, t, Take(w))
    requires var pipe := s.pipes[s.workers[w].recv]; pipe.lock.None? && pipe.queue != []
    ensures Leads(StartStep(s, t, Take(w)), t, s')
    ensures Received(s, s', t, s.workers[w].recv)
  {
    var s0 := StartStep(s, t, Take(w));
    NextReachable(s, Event(t, Start(Take(w))));
    s' := TakeReceives(s0, t, w);
    SetTwice(s.threads, t, s0.threads[t], s'.threads[t]);
  }

  // ---------------------------------------------------------------- posting a message

  lemma DupStep(s: State, t: nat, w: nat, msg: Message, i: nat)
    requires t < |s.threads| && s.threads[t].pc == PostDup(w, msg, i) && i < |msg.sabs| && SabsIn(s, msg.sabs) && Owns(s, t, w)
    ensures CanAdvance(s, t)
    ensures OnlyThread(s, Step(s, t), t, s.threads[t].(pc := PostDup(w, msg, i + 1)))
    ensures Counted(s, Step(s, t), multiset{msg.sabs[i]}, multiset{})
  {
  }

  /** The message's buffers are counted once more each before the pipe is touched. */
  lemma {:induction false} DupsAll(s: State, t: nat, w: nat, msg: Message, i: nat) returns (s': State)
    requires t < |s.threads| && s.threads[t].pc == PostDup(w, msg, i) && i <= |msg.sabs| && SabsIn(s, msg.sabs) && Owns(s, t, w)
    ensures Leads(s, t, s')
    ensures OnlyThread(s, s', t, s.threads[t].(pc := PostDup(w, msg, |msg.sabs|)))
    ensures Counted(s, s', multiset(msg.sabs[i..]), multiset{})
    decreases |msg.sabs| - i
  {
    if i == |msg.sabs| {
      s' := s;
      Stays(s, t);
      assert msg.sabs[i..] == [];
      assert s.threads == s.threads[t := s.threads[t]];
    } else {
      var s1 := Step(s, t);
      DupStep(s, t, w, msg, i);
      s' := DupsAll(s1, t, w, msg, i + 1);
      HeadOf(msg.sabs, i);
      OneStep(s, t);
      Onward(s, t, s1, s');
      OnlyThreadThen(s, s1, s', t, s1.threads[t], s'.threads[t]);
      CountedThen(s, s1, s', multiset{msg.sabs[i]}, multiset{}, multiset(msg.sabs[i + 1..]), multiset{});
    }
  }

  lemma PostLockStep(s: State, t: nat, w: nat, p: nat, msg: Message)
    requires CanAdvance(s, t) && s.threads[t].pc == PostDup(w, msg, |msg.sabs|) && p == s.workers[w].send
    ensures Step(s, t) == Holding(s, t, p, s.pipes[p], PostTest(w, msg))
  {
  }

  lemma WakeStep(s: State, t: nat, w: nat, p: nat, pipe: Pipe, msg: Message)
    requires t < |s.threads| && Owns(s, t, w) && p == s.workers[w].send
    ensures var held := Holding(s, t, p, pipe, PostTest(w, msg));
            && CanAdvance(held, t)
            && Step(held, t) == Holding(s, t, p, if pipe.queue == [] then pipe.(waker := pipe.waker + 1) else pipe, PostLink(w, msg))
  {
    var held := Holding(s, t, p, pipe, PostTest(w, msg));
    SetTwice(s.pipes, p, held.pipes[p], Step(held, t).pipes[p]);
    SetTwice(s.threads, t, held.threads[t], Step(held, t).threads[t]);
  }

  lemma LinkStep(s: State, t: nat, w: nat, p: nat, pipe: Pipe, msg: Message)
    requires t < |s.threads| && Owns(s, t, w) && p == s.workers[w].send
    ensures var held := Holding(s, t, p, pipe, PostLink(w, msg));
            && CanAdvance(held, t)
            && Step(held, t) == Holding(s, t, p, pipe.(queue := pipe.queue + [msg], posted := pipe.posted + [msg]), PostUnlock(w))
  {
    var held := Holding(s, t, p, pipe, PostLink(w, msg));
    SetTwice(s.pipes, p, held.pipes[p], Step(held, t).pipes[p]);
    SetTwice(s.threads, t, held.threads[t], Step(held, t).threads[t]);
  }

  lemma PostUnlockStep(s: State, t: nat, w: nat, p: nat, pipe: Pipe)
    requires t < |s.threads| && Owns(s, t, w) && p == s.workers[w].send
    ensures var held := Holding(s, t, p, pipe, PostUnlock(w));
            CanAdvance(held, t) && Step(held, t) == SetPc(SetPipe(s, p, pipe.(lock := None)), t, Idle)
  {
    var held := Holding(s, t, p, pipe, PostUnlock(w));
    SetTwice(s.pipes, p, held.pipes[p], Step(held, t).pipes[p]);
    SetTwice(s.threads, t, held.threads[t], Step(held, t).threads[t]);
  }

  /** The pipe with one more message, and its byte in the waker. */
  function Extended(pipe: Pipe, msg: Message): Pipe {
    pipe.(queue := pipe.queue + [msg], posted := pipe.posted + [msg], waker := 1)
  }

  /** The locked part of a post. */
  lemma PostLinks(s: State, t: nat, w: nat, p: nat, msg: Message)
    requires t < |s.threads| && s.threads[t].pc == PostDup(w, msg, |msg.sabs|) && Owns(s, t, w) && p == s.workers[w].send
    requires s.pipes[p].lock.None? && s.pipes[p].waker == (if s.pipes[p].queue == [] then 0 else 1)
    ensures Leads(s, t, SetPc(SetPipe(s, p, Extended(s.pipes[p], msg)), t, Idle))
  {
    var pipe := s.pipes[p];
    PostLockStep(s, t, w, p, msg);
    WakeStep(s, t, w, p, pipe, msg);
    TwoSteps(s, t);
    LinkStep(s, t, w, p, pipe.(waker := 1), msg);
    PostUnlockStep(s, t, w, p, Extended(pipe, msg));
    var s2 := Step(Step(s, t), t);
    assert s2 == Holding(s, t, p, pipe.(waker := 1), PostLink(w, msg));
    TwoSteps(s2, t);
    Onward(s, t, s2, Step(Step(s2, t), t));
  }

  /** Pipe p has one more message and the message's buffers one more reference each; the rest is as it was. */
  ghost predicate Delivered(s: State, s': State, p: nat, msg: Message)
    requires p < |s.pipes|
  {
    && s'.threads == s.threads && s'.workers == s.workers
    && s'.pipes == s.pipes[p := Extended(s.pipes[p], msg)]
    && Counted(s, s', multiset(msg.sabs), multiset{})
  }

  /** postMessage: from rest to rest, exactly the posted message is appended, and the pipe becomes readable. */
  lemma PostDelivers(s: State, t: nat, w: nat, body: nat, sabs: seq<nat>) returns (s': State)
    requires Reachable(s) && CanStart(s, t, Post(w, body, sabs)) && s.pipes[s.workers[w].send].lock.None?
    ensures Leads(StartStep(s, t, Post(w, body, sabs)), t, s')
    ensures Delivered(s, s', s.workers[w].send, Message(t, body, sabs))
  {
    var p, msg := s.workers[w].send, Message(t, body, sabs);
    SenderReady(s, t, w, sabs);
    var s0 := StartStep(s, t, Post(w, body, sabs));
    var s1 := DupsAll(s0, t, w, msg, 0);
    assert sabs[0..] == sabs;
    PostLinks(s1, t, w, p, msg);
    s' := SetPc(SetPipe(s1, p, Extended(s1.pipes[p], msg)), t, Idle);
    Onward(s0, t, s1, s');
    BackToRest(s, t, s0.threads[t], s1.threads[t]);
  }

  lemma BackToRest(s: State, t: nat, th0: Thread, th1: Thread)
    requires t < |s.threads|
    ensures s.threads[t := th0][t := th1][t := s.threads[t]] == s.threads
  {
  }

  lemma SenderReady(s: State, t: nat, w: nat, sabs: seq<nat>)
    requires Reachable(s) && t < |s.threads| && Owns(s, t, w) && s.pipes[s.workers[w].send].lock.None?
    requires forall i :: 0 <= i < |sabs| ==> sabs[i] in s.threads[t].handles
    ensures SabsIn(s, sabs)
    ensures var pipe := s.pipes[s.workers[w].send]; pipe.waker == (if pipe.queue == [] then 0 else 1)
  {
    ReachableInv(s);
    assert ThreadInv(s, t);
    OwnedPipesAreAlive(s, t, w);
    NoLostWakeup(s, s.workers[w].send);
  }

  /**
   * From end to end: what t posts into an empty pipe is what the receiver at the other end takes, with a handle for
   * each buffer; the sender's record is untouched and the pipe is empty again.
   */
  lemma MessageArrives(s: State, t: nat, w: nat, body: nat, sabs: seq<nat>, u: nat, v: nat) returns (s1: State, s2: State)
    requires Reachable(s) && CanStart(s, t, Post(w, body, sabs)) && CanStart(s, u, Take(v))
    requires var p := s.workers[w].send; s.workers[v].recv == p && s.pipes[p].lock.None? && s.pipes[p].queue == []
    ensures Leads(StartStep(s, t, Post(w, body, sabs)), t, s1)
    ensures CanStart(s1, u, Take(v)) && Leads(StartStep(s1, u, Take(v)), u, s2)
    ensures var th := s.threads[u]; s2.threads == s.threads[u := th.(handles := th.handles + multiset(sabs))]
    ensures var p := s.workers[w].send;
            p < |s2.pipes| && s2.pipes[p].queue == [] && s2.pipes[p].taken == s.pipes[p].taken + [Message(t, body, sabs)]
    ensures Counted(s, s2, multiset(sabs), multiset{})
  {
    var p := s.workers[w].send;
    s1 := PostDelivers(s, t, w, body, sabs);
    NextReachable(s, Event(t, Start(Post(w, body, sabs))));
    LeadsReachable(StartStep(s, t, Post(w, body, sabs)), t, s1);
    s2 := TakeCommand(s1, u, v);
    CountedThen(s, s1, s2, multiset(sabs), multiset{}, multiset{}, multiset{});
    assert multiset(sabs) + multiset{} == multiset(sabs);
  }
}
