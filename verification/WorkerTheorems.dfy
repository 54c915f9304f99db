/** What holds in every reachable state of the worker protocol. */
module WorkerTheorems {
  import opened Prelude
  import opened Workers
  import opened WorkerSafety
  import WorkerSteps

  lemma InitialInv()
    ensures Inv(Initial())
  {
  }

  lemma {:induction false} RunKeeps(s: State, events: seq<Event>)
    requires Inv(s) && Runs(s, events)
    ensures Inv(After(s, events))
    decreases |events|
  {
    if events != [] {
      WorkerSteps.NextKeeps(s, events[0]);
      RunKeeps(Next(s, events[0]), events[1..]);
    }
  }

  ghost predicate Reachable(s: State) {
    exists events :: Runs(Initial(), events) && s == After(Initial(), events)
  }

  lemma ReachableInv(s: State)
    requires Reachable(s)
    ensures Inv(s)
  {
    var events :| Runs(Initial(), events) && s == After(Initial(), events);
    InitialInv();
    RunKeeps(Initial(), events);
  }

  /** poll() reports a live, unlocked pipe exactly when a message waits; one byte stands for all of them. */
  lemma NoLostWakeup(s: State, p: nat)
    requires Reachable(s) && p < |s.pipes| && s.pipes[p].lock.None? && s.pipes[p].refs > 0
    ensures s.pipes[p].waker == (if s.pipes[p].queue == [] then 0 else 1)
  {
    ReachableInv(s);
    assert PipeInv(s, p);
  }

  /** The number of steps a thread that holds a mutex still needs to release it. */
  function StepsToUnlock(pc: Pc): nat {
    match pc
    case PostTest(_, _) => 3
    case PostLink(_, _) => 2
    case PostUnlock(_) => 1
    case TakeTest(_) => 3
    case TakeClear(_, _) => 2
    case TakeUnlock(_, _) => 1
    case TakeNone(_) => 1
    case _ => 0
  }

  lemma HolderRunsLocal(s: State, t: nat, p: nat)
    requires t < |s.threads| && p < |s.pipes| && s.pipes[p].lock == Some(t) && s.pipes[p].life.Live?
    requires ThreadInv(s, t) && LockInv(s, p)
    ensures CanAdvance(s, t) && 1 <= StepsToUnlock(s.threads[t].pc) <= 3
    ensures var s' := Step(s, t);
            if StepsToUnlock(s.threads[t].pc) == 1 then s'.pipes[p].lock.None?
            else s'.pipes[p].lock == Some(t) && StepsToUnlock(s'.threads[t].pc) < StepsToUnlock(s.threads[t].pc)
  {
  }

  /** A thread that holds a mutex never blocks, not even in the blocking read of the waker, and unlocks in at most three steps. */
  lemma HolderRuns(s: State, t: nat, p: nat)
    requires Reachable(s) && p < |s.pipes| && s.pipes[p].lock == Some(t)
    ensures t < |s.threads| && CanAdvance(s, t) && 1 <= StepsToUnlock(s.threads[t].pc) <= 3
    ensures var s' := Step(s, t);
            if StepsToUnlock(s.threads[t].pc) == 1 then s'.pipes[p].lock.None?
            else s'.pipes[p].lock == Some(t) && StepsToUnlock(s'.threads[t].pc) < StepsToUnlock(s.threads[t].pc)
  {
    ReachableInv(s);
    assert PipeInv(s, p);
    assert ThreadInv(s, t);
    OwnedPipesAreAlive(s, t, s.threads[t].pc.w);
    HolderRunsLocal(s, t, p);
  }

  /** The pipe whose mutex a thread is about to take. */
  function Waits(s: State, t: nat): Option<nat>
    requires t < |s.threads|
  {
    match s.threads[t].pc
    case PostDup(w, msg, i) => if i == |msg.sabs| && w < |s.workers| then Some(s.workers[w].send) else None
    case TakeLock(w) => if w < |s.workers| then Some(s.workers[w].recv) else None
    case _ => None
  }

  /** No deadlock: every busy thread can step, unless it waits for a mutex whose holder is another thread that can. */
  lemma NoDeadlock(s: State, t: nat)
    requires Reachable(s) && t < |s.threads| && !s.threads[t].pc.Idle?
    ensures CanAdvance(s, t)
         || (Waits(s, t).Some? && Waits(s, t).value < |s.pipes|
             && var lock := s.pipes[Waits(s, t).value].lock;
                lock.Some? && lock.value != t && CanAdvance(s, lock.value))
  {
    ReachableInv(s);
    assert ThreadInv(s, t);
    var q := Waits(s, t);
    if q.Some? {
      if s.pipes[q.value].lock.Some? {
        HolderRuns(s, s.pipes[q.value].lock.value, q.value);
      }
    } else if Held(s, t).Some? {
      HolderRuns(s, t, Held(s, t).value);
    }
  }

  /** First in, first out, each message once; messages are dropped only once the last reference is gone. */
  lemma Fifo(s: State, p: nat)
    requires Reachable(s) && p < |s.pipes|
    ensures s.pipes[p].posted == s.pipes[p].taken + s.pipes[p].dropped + s.pipes[p].queue
    ensures s.pipes[p].dropped != [] ==> s.pipes[p].refs == 0
  {
    ReachableInv(s);
    assert PipeInv(s, p);
    assert s.pipes[p].refs == PipeHolders(s, p);
  }

  /** A pipe's count is the number of its holders, a buffer's count the number of its references; neither goes negative. */
  lemma CountsAreHolders(s: State)
    requires Reachable(s)
    ensures forall p :: 0 <= p < |s.pipes| ==> s.pipes[p].refs == PipeHolders(s, p)
    ensures forall b :: 0 <= b < |s.sabs| ==> s.sabs[b].refs == SabHolders(s, b)
  {
    ReachableInv(s);
  }

  /** Freed at most once and exactly when nothing refers to it any more (for a pipe: once its last holder finished destroying it). */
  lemma FreedExactlyOnce(s: State)
    requires Reachable(s)
    ensures forall b :: 0 <= b < |s.sabs| ==> s.sabs[b].frees == (if SabHolders(s, b) == 0 then 1 else 0)
    ensures forall p :: 0 <= p < |s.pipes| ==>
              if PipeHolders(s, p) > 0 then s.pipes[p].frees == 0
              else s.pipes[p].frees == 1
                   || exists t :: 0 <= t < |s.threads| && Drained(s.threads[t].pc) == Some(p)
  {
    ReachableInv(s);
    forall p | 0 <= p < |s.pipes|
      ensures if PipeHolders(s, p) > 0 then s.pipes[p].frees == 0
              else s.pipes[p].frees == 1 || exists t :: 0 <= t < |s.threads| && Drained(s.threads[t].pc) == Some(p)
    {
      assert PipeInv(s, p);
      assert s.pipes[p].refs == PipeHolders(s, p);
      if s.pipes[p].life.Dying? {
        var t := s.pipes[p].life.thread;
        assert Drained(s.threads[t].pc) == Some(p);
      }
    }
  }

  /** A buffer in a thread's handles or in the message it is sending or receiving has not been freed: hand-over never lets the count reach zero. */
  lemma BuffersInUseAlive(s: State, t: nat, b: nat)
    requires Reachable(s) && t < |s.threads| && ThreadSabs(s.threads[t], b) > 0
    ensures b < |s.sabs| && s.sabs[b].refs > 0 && s.sabs[b].frees == 0
  {
    ReachableInv(s);
    assert ThreadInv(s, t);
    if |s.sabs| <= b {
      WorkerSteps.NoThreadSabs(s, t, b);
    } else {
      HeldSabIsAlive(s, t, b);
    }
  }

  /** A pipe that a thread's state, arguments or pending releases refer to has not been freed. */
  lemma ThreadPipesAlive(s: State, t: nat, p: nat)
    requires Reachable(s) && t < |s.threads| && ThreadPipes(s.threads[t], p) > 0
    ensures p < |s.pipes| && s.pipes[p].refs > 0 && s.pipes[p].frees == 0
  {
    ReachableInv(s);
    assert ThreadInv(s, t);
    if |s.pipes| <= p {
      WorkerSteps.NoThreadPipes(s, t, p);
    } else {
      HeldPipeIsAlive(s, t, p);
      assert PipeInv(s, p);
    }
  }

  /** Neither pipe of a live worker object has been freed. */
  lemma ObjectPipesAlive(s: State, w: nat)
    requires Reachable(s) && w < |s.workers| && s.workers[w].alive
    ensures s.workers[w].recv < |s.pipes| && s.pipes[s.workers[w].recv].frees == 0
    ensures s.workers[w].send < |s.pipes| && s.pipes[s.workers[w].send].frees == 0
  {
    ReachableInv(s);
    assert WorkerInv(s, w);
    OwnedPipesAreAlive(s, s.workers[w].owner, w);
    assert PipeInv(s, s.workers[w].recv) && PipeInv(s, s.workers[w].send);
  }

  /** Every thread rests and neither it nor a worker object refers to a pipe or buffer. */
  predicate Quiescent(s: State) {
    && (forall t :: 0 <= t < |s.threads| ==>
          s.threads[t].pc.Idle? && s.threads[t].todo == [] && !s.threads[t].attached && s.threads[t].handles == multiset{})
    && (forall w :: 0 <= w < |s.workers| ==> !s.workers[w].alive)
  }

  lemma QuiescentPipe(s: State, p: nat)
    requires Inv(s) && Quiescent(s) && p < |s.pipes|
    ensures s.pipes[p].frees == 1 && s.pipes[p].queue == []
  {
    TotalZero(ThreadPipeCounts(s.threads, p));
    TotalZero(WorkerPipeCounts(s.workers, p));
    assert PipeInv(s, p);
  }

  lemma QuiescentSab(s: State, b: nat)
    requires Inv(s) && Quiescent(s) && b < |s.sabs| && forall p :: 0 <= p < |s.pipes| ==> s.pipes[p].queue == []
    ensures s.sabs[b].frees == 1
  {
    TotalZero(ThreadSabCounts(s.threads, b));
    TotalZero(QueueSabCounts(s.pipes, b));
  }

  lemma IdleHasNoTodo(s: State, t: nat)
    requires Inv(s) && t < |s.threads| && s.threads[t].pc.Idle?
    ensures s.threads[t].todo == []
  {
    assert ThreadInv(s, t);
  }

  /** Nothing leaks: once every thread rests without references, each pipe and each buffer has been freed exactly once. */
  lemma NoLeak(s: State)
    requires Reachable(s)
    requires forall t :: 0 <= t < |s.threads| ==>
               s.threads[t].pc.Idle? && !s.threads[t].attached && s.threads[t].handles == multiset{}
    requires forall w :: 0 <= w < |s.workers| ==> !s.workers[w].alive
    ensures forall p :: 0 <= p < |s.pipes| ==> s.pipes[p].frees == 1
    ensures forall b :: 0 <= b < |s.sabs| ==> s.sabs[b].frees == 1
  {
    ReachableInv(s);
    forall t | 0 <= t < |s.threads| ensures s.threads[t].todo == [] { IdleHasNoTodo(s, t); }
    forall p | 0 <= p < |s.pipes| ensures s.pipes[p].frees == 1 && s.pipes[p].queue == [] { QuiescentPipe(s, p); }
    forall b | 0 <= b < |s.sabs| ensures s.sabs[b].frees == 1 { QuiescentSab(s, b); }
  }

  /** Queued buffers are alive as well, for as long as the message is queued. */
  lemma QueuedBuffersAlive(s: State, p: nat, k: nat, i: nat)
    requires Reachable(s) && p < |s.pipes| && k < |s.pipes[p].queue| && i < |s.pipes[p].queue[k].sabs|
    ensures var b := s.pipes[p].queue[k].sabs[i]; b < |s.sabs| && s.sabs[b].frees == 0
  {
    ReachableInv(s);
    assert PipeInv(s, p);
    var b := s.pipes[p].queue[k].sabs[i];
    assert SabsIn(s, s.pipes[p].queue[k].sabs);
    QueueCountsMember(s.pipes[p].queue, k, b);
    TotalAtLeast(QueueSabCounts(s.pipes, b), p);
  }

  lemma {:induction false} QueueCountsMember(q: seq<Message>, k: nat, b: nat)
    requires k < |q| && b in q[k].sabs
    ensures QueueSabs(q, b) > 0
  {
    if k > 0 {
      assert q[1..][k - 1] == q[k];
      QueueCountsMember(q[1..], k - 1, b);
    }
  }

  lemma SameEndSameThread(s: State, t: nat, u: nat)
    requires Shape(s) && 0 < t < |s.threads| && 0 < u < |s.threads|
    requires s.threads[u].recv == s.threads[t].recv || s.threads[u].send == s.threads[t].send
    ensures u == t
  {
    assert ThreadInv(s, t) && ThreadInv(s, u);
  }

  /**
   * The constructor crosses the ends.  What worker thread t receives on is what the main
   * thread's object sends on, and the other way round; on either pipe only the one side posts
   * and only the other side takes.
   */
  lemma CrossedWiring(s: State, t: nat)
    requires Reachable(s) && 0 < t < |s.threads|
    ensures var th := s.threads[t];
            && th.partner < |s.workers| && s.workers[th.partner].owner == 0
            && s.workers[th.partner].send == th.recv && s.workers[th.partner].recv == th.send
            && th.recv < |s.pipes| && th.send < |s.pipes|
            && (forall k :: 0 <= k < |s.pipes[th.recv].posted| ==> s.pipes[th.recv].posted[k].sender == 0)
            && s.pipes[th.recv].takers <= {t}
            && (forall k :: 0 <= k < |s.pipes[th.send].posted| ==> s.pipes[th.send].posted[k].sender == t)
            && s.pipes[th.send].takers <= {0}
  {
    ReachableInv(s);
    var th := s.threads[t];
    assert ThreadInv(s, t) && WorkerInv(s, th.partner) && ThreadInv(s, 0);
    assert PipeInv(s, th.recv) && PipeInv(s, th.send);
    forall u | 0 < u < |s.threads| && (s.threads[u].recv == th.recv || s.threads[u].send == th.send) ensures u == t {
      SameEndSameThread(s, t, u);
    }
    forall k | 0 <= k < |s.pipes[th.recv].posted| ensures s.pipes[th.recv].posted[k].sender == 0 {
      assert IsSender(s, th.recv, s.pipes[th.recv].posted[k].sender);
    }
    forall k | k in s.pipes[th.recv].takers ensures k == t { assert IsReceiver(s, th.recv, k); }
    forall k | 0 <= k < |s.pipes[th.send].posted| ensures s.pipes[th.send].posted[k].sender == t {
      assert IsSender(s, th.send, s.pipes[th.send].posted[k].sender);
    }
    forall k | k in s.pipes[th.send].takers ensures k == 0 { assert IsReceiver(s, th.send, k); }
  }
}
