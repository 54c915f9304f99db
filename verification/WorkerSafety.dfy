/** What every step of every interleaving keeps. */
module WorkerSafety {
  import opened Prelude
  import opened Workers

  // ---------------------------------------------------------------- the invariant

  predicate SabsIn(s: State, xs: seq<nat>) {
    forall k :: 0 <= k < |xs| ==> xs[k] < |s.sabs|
  }

  predicate PipesIn(s: State, xs: seq<nat>) {
    forall k :: 0 <= k < |xs| ==> xs[k] < |s.pipes|
  }

  /** The pipe whose mutex a thread holds. */
  function Held(s: State, t: nat): Option<nat>
    requires t < |s.threads|
  {
    match s.threads[t].pc
    case PostTest(w, _) => if w < |s.workers| then Some(s.workers[w].send) else None
    case PostLink(w, _) => if w < |s.workers| then Some(s.workers[w].send) else None
    case PostUnlock(w) => if w < |s.workers| then Some(s.workers[w].send) else None
    case TakeTest(w) => if w < |s.workers| then Some(s.workers[w].recv) else None
    case TakeClear(w, _) => if w < |s.workers| then Some(s.workers[w].recv) else None
    case TakeUnlock(w, _) => if w < |s.workers| then Some(s.workers[w].recv) else None
    case TakeNone(w) => if w < |s.workers| then Some(s.workers[w].recv) else None
    case _ => None
  }

  /** The pipe a thread is destroying. */
  function Drained(pc: Pc): Option<nat> {
    match pc
    case Draining(p) => Some(p)
    case Freeing(_, of) => of
    case _ => None
  }

  /** The bytes the waker holds, as seen by the thread that holds the mutex. */
  function WakerUnder(pc: Pc, queue: seq<Message>): nat {
    if pc.PostLink? || pc.TakeClear? then 1 else Ind(queue != [])
  }

  predicate PcInv(s: State, t: nat)
    requires t < |s.threads|
  {
    var th := s.threads[t];
    match th.pc
    case Idle => true
    case PostDup(w, msg, i) =>
      Owns(s, t, w) && msg.sender == t && i <= |msg.sabs| && forall k :: 0 <= k < |msg.sabs| ==> msg.sabs[k] in th.handles
    case PostTest(w, msg) => Owns(s, t, w) && msg.sender == t && SabsIn(s, msg.sabs)
    case PostLink(w, msg) => Owns(s, t, w) && msg.sender == t && SabsIn(s, msg.sabs)
    case PostUnlock(w) => Owns(s, t, w)
    case TakeLock(w) => Owns(s, t, w) && s.workers[w].port
    case TakeTest(w) => Owns(s, t, w) && s.workers[w].port
    case TakeClear(w, msg) => Owns(s, t, w) && s.workers[w].port && SabsIn(s, msg.sabs)
    case TakeUnlock(w, msg) => Owns(s, t, w) && s.workers[w].port && SabsIn(s, msg.sabs)
    case TakeNone(w) => Owns(s, t, w) && s.workers[w].port
    case Reading(msg, i) => SabsIn(s, msg.sabs)
    case Freeing(rest, of) => SabsIn(s, rest)
    case Releasing => true
    case Draining(p) => true
    case Ctor1(recv) => t == 0 && recv + 1 == |s.pipes| && s.pipes[recv].down
    case Ctor2(recv, send) => CtorInv(s, t, recv, send)
    case Ctor3(recv, send) => CtorInv(s, t, recv, send)
    case Ctor4(recv, send, w) =>
      CtorInv(s, t, recv, send) && w < |s.workers| && s.workers[w] == Worker(0, send, recv, false, true)
    case Parent(recv, send) => t > 0 && th.attached && recv == th.recv && send == th.send
  }

  predicate CtorInv(s: State, t: nat, recv: nat, send: nat) {
    && t == 0 && send == recv + 1 && send + 1 == |s.pipes|
    && s.pipes[recv].down && !s.pipes[send].down
  }

  /** The first pipe of the constructor that the main thread is running, or the end of the pipes. */
  function Frontier(s: State): nat
    requires |s.threads| > 0
  {
    match s.threads[0].pc
    case Ctor1(recv) => recv
    case Ctor2(recv, _) => recv
    case Ctor3(recv, _) => recv
    case Ctor4(recv, _, _) => recv
    case _ => |s.pipes|
  }

  predicate ThreadInv(s: State, t: nat)
    requires t < |s.threads|
  {
    var th := s.threads[t];
    && PcInv(s, t)
    && (th.todo != [] ==> th.pc.Releasing? || th.pc.Draining? || (th.pc.Freeing? && th.pc.of.Some?))
    && PipesIn(s, th.todo)
    && (forall b :: b in th.handles ==> b < |s.sabs|)
    && (Held(s, t).Some? ==> Held(s, t).value < |s.pipes| && s.pipes[Held(s, t).value].lock == Some(t))
    && (Drained(th.pc).Some? ==> Drained(th.pc).value < |s.pipes| && s.pipes[Drained(th.pc).value].life == Dying(t))
    && (t == 0 ==> !th.attached)
    && (t > 0 ==>
          && th.send == th.recv + 1 && th.send < Frontier(s) <= |s.pipes|
          && s.pipes[th.recv].down && !s.pipes[th.send].down
          && th.partner < |s.workers| && s.workers[th.partner].owner == 0 && s.workers[th.partner].send == th.recv)
  }

  predicate ThreadsOrdered(s: State) {
    forall t, u :: 0 < t < u < |s.threads| ==> s.threads[t].send < s.threads[u].recv
  }

  predicate WorkerInv(s: State, w: nat)
    requires w < |s.workers|
  {
    var o := s.workers[w];
    && o.owner < |s.threads| && o.recv < |s.pipes| && o.send < |s.pipes|
    && (o.owner == 0 ==> o.recv == o.send + 1 && s.pipes[o.send].down && !s.pipes[o.recv].down)
    && (o.owner > 0 ==> o.recv == s.threads[o.owner].recv && o.send == s.threads[o.owner].send)
  }

  /** Thread k may post to the pipe: the main thread downwards, its own worker upwards. */
  predicate IsSender(s: State, p: nat, k: nat)
    requires p < |s.pipes|
  {
    if s.pipes[p].down then k == 0 else 0 < k < |s.threads| && s.threads[k].send == p
  }

  predicate IsReceiver(s: State, p: nat, k: nat)
    requires p < |s.pipes|
  {
    if s.pipes[p].down then 0 < k < |s.threads| && s.threads[k].recv == p else k == 0
  }

  predicate LifeInv(s: State, p: nat)
    requires p < |s.pipes|
  {
    var x := s.pipes[p];
    && (x.life.Live? <==> x.refs > 0)
    && x.frees == Ind(x.life.Dead?)
    && (x.life.Dying? ==> x.life.thread < |s.threads| && Drained(s.threads[x.life.thread].pc) == Some(p))
  }

  predicate LockInv(s: State, p: nat)
    requires p < |s.pipes|
  {
    var x := s.pipes[p];
    && (x.lock.Some? ==> x.lock.value < |s.threads| && Held(s, x.lock.value) == Some(p))
    && (x.life.Live? ==>
          if x.lock.None? then x.waker == Ind(x.queue != [])
          else x.waker == WakerUnder(s.threads[x.lock.value].pc, x.queue)
               && (s.threads[x.lock.value].pc.TakeClear? ==> x.queue == []))
  }

  predicate QueueInv(s: State, p: nat)
    requires p < |s.pipes|
  {
    var x := s.pipes[p];
    && x.posted == x.taken + x.dropped + x.queue
    && (x.life.Live? ==> x.dropped == [])
    && (x.life.Dead? ==> x.queue == [])
    && (forall k :: 0 <= k < |x.queue| ==> SabsIn(s, x.queue[k].sabs))
    && (forall k :: 0 <= k < |x.posted| ==> IsSender(s, p, x.posted[k].sender))
    && (forall k :: k in x.takers ==> IsReceiver(s, p, k))
  }

  predicate PipeInv(s: State, p: nat)
    requires p < |s.pipes|
  {
    LifeInv(s, p) && LockInv(s, p) && QueueInv(s, p)
  }

  predicate Shape(s: State) {
    && |s.threads| > 0
    && (forall t :: 0 <= t < |s.threads| ==> ThreadInv(s, t))
    && ThreadsOrdered(s)
    && (forall w :: 0 <= w < |s.workers| ==> WorkerInv(s, w))
    && (forall p :: 0 <= p < |s.pipes| ==> PipeInv(s, p))
    && (forall b :: 0 <= b < |s.sabs| ==> s.sabs[b].frees == Ind(s.sabs[b].refs == 0))
  }

  /** Every reference count equals the number of references that exist. */
  predicate Conserved(s: State) {
    && (forall p :: 0 <= p < |s.pipes| ==> s.pipes[p].refs == PipeHolders(s, p))
    && (forall b :: 0 <= b < |s.sabs| ==> s.sabs[b].refs == SabHolders(s, b))
  }

  predicate Inv(s: State) {
    Shape(s) && Conserved(s)
  }

  // ---------------------------------------------------------------- local steps

  /**
   * Thread t acted, changing at most pipe p, buffer b and worker object w besides itself.
   * An index past the end means that nothing of that kind changed.
   */
  predicate Touch(s: State, s': State, t: nat, p: nat, b: nat, w: nat) {
    && t < |s.threads| == |s'.threads|
    && |s.pipes| == |s'.pipes| && |s.sabs| == |s'.sabs| && |s.workers| == |s'.workers|
    && s'.threads == s.threads[t := s'.threads[t]]
    && s'.threads[t].recv == s.threads[t].recv && s'.threads[t].send == s.threads[t].send
    && (if p < |s.pipes| then s'.pipes == s.pipes[p := s'.pipes[p]] && s'.pipes[p].down == s.pipes[p].down
        else s'.pipes == s.pipes)
    && (if b < |s.sabs| then s'.sabs == s.sabs[b := s'.sabs[b]] else s'.sabs == s.sabs)
    && (if w < |s.workers| then
          && s'.workers == s.workers[w := s'.workers[w]]
          && s.workers[w].owner == s'.workers[w].owner == t
          && s'.workers[w].recv == s.workers[w].recv && s'.workers[w].send == s.workers[w].send
        else s'.workers == s.workers)
  }

  /** The touched parts are in order again. */
  predicate TouchedOk(s: State, s': State, t: nat, p: nat, b: nat, w: nat)
    requires Touch(s, s', t, p, b, w)
  {
    && ThreadInv(s', t)
    && (t == 0 ==> Frontier(s) <= Frontier(s') <= |s.pipes|)
    && (Held(s, t).Some? ==> Held(s, t).value == p)
    && (Drained(s.threads[t].pc).Some? ==> Drained(s.threads[t].pc).value == p)
    && (p < |s.pipes| ==>
          && PipeInv(s', p)
          && (s'.pipes[p].lock == s.pipes[p].lock || s.pipes[p].lock.None? || s.pipes[p].lock == Some(t))
          && (s'.pipes[p].life == s.pipes[p].life || !s.pipes[p].life.Dying? || s.pipes[p].life == Dying(t)))
    && (b < |s.sabs| ==> s'.sabs[b].frees == Ind(s'.sabs[b].refs == 0))
  }

  lemma TouchKeepsOtherPcs(s: State, s': State, t: nat, p: nat, b: nat, w: nat, u: nat)
    requires Touch(s, s', t, p, b, w) && u < |s.threads| && u != t && PcInv(s, u)
    ensures PcInv(s', u) && Held(s', u) == Held(s, u)
  {
  }

  lemma TouchKeepsThreads(s: State, s': State, t: nat, p: nat, b: nat, w: nat, u: nat)
    requires Shape(s) && Touch(s, s', t, p, b, w) && TouchedOk(s, s', t, p, b, w) && u < |s.threads|
    ensures ThreadInv(s', u)
  {
    if u != t {
      assert ThreadInv(s, u);
      TouchKeepsOtherPcs(s, s', t, p, b, w, u);
      assert Frontier(s) <= Frontier(s') || u == 0;
    }
  }

  lemma TouchKeepsLocks(s: State, s': State, t: nat, p: nat, b: nat, w: nat, q: nat)
    requires Shape(s) && Touch(s, s', t, p, b, w) && TouchedOk(s, s', t, p, b, w) && q < |s.pipes| && q != p
    ensures LockInv(s', q)
  {
    assert PipeInv(s, q);
    var x := s.pipes[q];
    if x.lock.Some? {
      assert ThreadInv(s, x.lock.value);
      TouchKeepsOtherPcs(s, s', t, p, b, w, x.lock.value);
    }
  }

  lemma TouchKeepsQueues(s: State, s': State, t: nat, p: nat, b: nat, w: nat, q: nat)
    requires Shape(s) && Touch(s, s', t, p, b, w) && TouchedOk(s, s', t, p, b, w) && q < |s.pipes| && q != p
    ensures LifeInv(s', q) && QueueInv(s', q)
  {
    assert PipeInv(s, q);
  }

  lemma TouchKeepsShape(s: State, s': State, t: nat, p: nat, b: nat, w: nat)
    requires Shape(s) && Touch(s, s', t, p, b, w) && TouchedOk(s, s', t, p, b, w)
    ensures Shape(s')
  {
    forall u | 0 <= u < |s'.threads| ensures ThreadInv(s', u) { TouchKeepsThreads(s, s', t, p, b, w, u); }
    forall q | 0 <= q < |s'.pipes| ensures PipeInv(s', q) {
      if q != p {
        TouchKeepsLocks(s, s', t, p, b, w, q);
        TouchKeepsQueues(s, s', t, p, b, w, q);
      }
    }
    forall v | 0 <= v < |s'.workers| ensures WorkerInv(s', v) { assert WorkerInv(s, v); }
  }

  /** Counts move exactly with the references that t, w and the queue of p gained or lost. */
  predicate Balanced(s: State, s': State, t: nat, p: nat, b: nat, w: nat)
    requires Touch(s, s', t, p, b, w)
  {
    && (forall q :: 0 <= q < |s.pipes| ==>
          s'.pipes[q].refs - s.pipes[q].refs
          == ThreadPipes(s'.threads[t], q) - ThreadPipes(s.threads[t], q)
             + (if w < |s.workers| then WorkerPipes(s'.workers[w], q) - WorkerPipes(s.workers[w], q) else 0))
    && (forall c :: 0 <= c < |s.sabs| ==>
          s'.sabs[c].refs - s.sabs[c].refs
          == ThreadSabs(s'.threads[t], c) - ThreadSabs(s.threads[t], c)
             + (if p < |s.pipes| then QueueSabs(s'.pipes[p].queue, c) - QueueSabs(s.pipes[p].queue, c) else 0))
  }

  lemma PipeHoldersMove(s: State, s': State, t: nat, p: nat, b: nat, w: nat, q: nat)
    requires Touch(s, s', t, p, b, w)
    ensures PipeHolders(s', q) - PipeHolders(s, q)
         == ThreadPipes(s'.threads[t], q) - ThreadPipes(s.threads[t], q)
            + (if w < |s.workers| then WorkerPipes(s'.workers[w], q) - WorkerPipes(s.workers[w], q) else 0)
  {
    TotalUpdate(ThreadPipeCounts(s.threads, q), t, ThreadPipes(s'.threads[t], q));
    assert ThreadPipeCounts(s'.threads, q) == ThreadPipeCounts(s.threads, q)[t := ThreadPipes(s'.threads[t], q)];
    if w < |s.workers| {
      TotalUpdate(WorkerPipeCounts(s.workers, q), w, WorkerPipes(s'.workers[w], q));
      assert WorkerPipeCounts(s'.workers, q) == WorkerPipeCounts(s.workers, q)[w := WorkerPipes(s'.workers[w], q)];
    }
  }

  lemma SabHoldersMove(s: State, s': State, t: nat, p: nat, b: nat, w: nat, c: nat)
    requires Touch(s, s', t, p, b, w)
    ensures SabHolders(s', c) - SabHolders(s, c)
         == ThreadSabs(s'.threads[t], c) - ThreadSabs(s.threads[t], c)
            + (if p < |s.pipes| then QueueSabs(s'.pipes[p].queue, c) - QueueSabs(s.pipes[p].queue, c) else 0)
  {
    TotalUpdate(ThreadSabCounts(s.threads, c), t, ThreadSabs(s'.threads[t], c));
    assert ThreadSabCounts(s'.threads, c) == ThreadSabCounts(s.threads, c)[t := ThreadSabs(s'.threads[t], c)];
    if p < |s.pipes| {
      TotalUpdate(QueueSabCounts(s.pipes, c), p, QueueSabs(s'.pipes[p].queue, c));
      assert QueueSabCounts(s'.pipes, c) == QueueSabCounts(s.pipes, c)[p := QueueSabs(s'.pipes[p].queue, c)];
    }
  }

  lemma TouchConservesPipes(s: State, s': State, t: nat, p: nat, b: nat, w: nat)
    requires Conserved(s) && Touch(s, s', t, p, b, w) && Balanced(s, s', t, p, b, w)
    ensures forall q :: 0 <= q < |s'.pipes| ==> s'.pipes[q].refs == PipeHolders(s', q)
  {
    forall q | 0 <= q < |s'.pipes| ensures s'.pipes[q].refs == PipeHolders(s', q) {
      PipeHoldersMove(s, s', t, p, b, w, q);
      assert s.pipes[q].refs == PipeHolders(s, q);
    }
  }

  lemma TouchConservesSabs(s: State, s': State, t: nat, p: nat, b: nat, w: nat)
    requires Conserved(s) && Touch(s, s', t, p, b, w) && Balanced(s, s', t, p, b, w)
    ensures forall c :: 0 <= c < |s'.sabs| ==> s'.sabs[c].refs == SabHolders(s', c)
  {
    forall c | 0 <= c < |s'.sabs| ensures s'.sabs[c].refs == SabHolders(s', c) {
      SabHoldersMove(s, s', t, p, b, w, c);
      assert s.sabs[c].refs == SabHolders(s, c);
    }
  }

  lemma TouchConserves(s: State, s': State, t: nat, p: nat, b: nat, w: nat)
    requires Conserved(s) && Touch(s, s', t, p, b, w) && Balanced(s, s', t, p, b, w)
    ensures Conserved(s')
  {
    TouchConservesPipes(s, s', t, p, b, w);
    TouchConservesSabs(s, s', t, p, b, w);
  }

  /** A local step: what it touched is in order and its counts balance. */
  predicate Local(s: State, s': State, t: nat, p: nat, b: nat, w: nat) {
    Touch(s, s', t, p, b, w) && TouchedOk(s, s', t, p, b, w) && Balanced(s, s', t, p, b, w)
  }

  lemma LocalKeeps(s: State, s': State, t: nat, p: nat, b: nat, w: nat)
    requires Inv(s) && Local(s, s', t, p, b, w)
    ensures Inv(s')
  {
    TouchKeepsShape(s, s', t, p, b, w);
    TouchConserves(s, s', t, p, b, w);
  }

  // ---------------------------------------------------------------- what is held is alive

  lemma HeldSabIsAlive(s: State, t: nat, b: nat)
    requires Inv(s) && t < |s.threads| && b < |s.sabs| && ThreadSabs(s.threads[t], b) > 0
    ensures s.sabs[b].refs > 0 && s.sabs[b].frees == 0
  {
    TotalAtLeast(ThreadSabCounts(s.threads, b), t);
  }

  lemma HeldPipeIsAlive(s: State, t: nat, p: nat)
    requires Inv(s) && t < |s.threads| && p < |s.pipes| && ThreadPipes(s.threads[t], p) > 0
    ensures s.pipes[p].refs > 0 && s.pipes[p].life.Live?
  {
    TotalAtLeast(ThreadPipeCounts(s.threads, p), t);
    assert PipeInv(s, p);
  }

  lemma OwnedPipesAreAlive(s: State, t: nat, w: nat)
    requires Inv(s) && t < |s.threads| && Owns(s, t, w)
    ensures s.pipes[s.workers[w].recv].refs > 0 && s.pipes[s.workers[w].recv].life.Live?
    ensures s.pipes[s.workers[w].send].refs > 0 && s.pipes[s.workers[w].send].life.Live?
  {
    var o := s.workers[w];
    TotalAtLeast(WorkerPipeCounts(s.workers, o.recv), w);
    TotalAtLeast(WorkerPipeCounts(s.workers, o.send), w);
    assert PipeInv(s, o.recv) && PipeInv(s, o.send);
  }
}
