/**
 * Workers: threads that exchange messages over reference-counted pipes.
 *
 * A pipe has a mutex, a FIFO of messages and a waker (a byte channel that poll() watches).
 * Messages carry reference-counted shared array buffers.  Every thread is a program counter
 * over the atomic steps of the C code; a run is any interleaving of those steps.  The fields
 * posted, taken, takers, dropped, frees and life of a pipe are history: no step reads them.
 */
module Workers {
  import opened Prelude

  datatype Message = Message(sender: nat, body: nat, sabs: seq<nat>)

  datatype Life = Live | Dying(thread: nat) | Dead

  datatype Pipe = Pipe(
    refs: int, lock: Option<nat>, queue: seq<Message>, waker: nat, down: bool,
    posted: seq<Message>, taken: seq<Message>, takers: set<nat>, dropped: seq<Message>,
    frees: nat, life: Life)

  datatype Sab = Sab(refs: int, frees: nat)

  /** A JS Worker object of thread `owner`; `port` says whether onmessage is set. */
  datatype Worker = Worker(owner: nat, recv: nat, send: nat, port: bool, alive: bool)

  datatype Pc =
    | Idle
    // js_worker_postMessage
    | PostDup(w: nat, msg: Message, i: nat)
    | PostTest(w: nat, msg: Message)
    | PostLink(w: nat, msg: Message)
    | PostUnlock(w: nat)
    // handle_posted_message
    | TakeLock(w: nat)
    | TakeTest(w: nat)
    | TakeClear(w: nat, msg: Message)
    | TakeUnlock(w: nat, msg: Message)
    | TakeNone(w: nat)
    | Reading(msg: Message, i: nat)
    // js_free_message, for a message just read (None) or of a pipe being destroyed (Some)
    | Freeing(rest: seq<nat>, of: Option<nat>)
    // js_free_message_pipe, for each pipe of the thread's to-do list
    | Releasing
    | Draining(p: nat)
    // js_worker_ctor: `recv` and `send` are the fields of its WorkerFuncArgs
    | Ctor1(recv: nat)
    | Ctor2(recv: nat, send: nat)
    | Ctor3(recv: nat, send: nat)
    | Ctor4(recv: nat, send: nat, w: nat)
    // Worker.parent, between its two calls of js_dup_message_pipe
    | Parent(recv: nat, send: nat)

  /** `attached`: the thread state still holds its references to recv and send. */
  datatype Thread = Thread(
    pc: Pc, recv: nat, send: nat, attached: bool, stopped: bool, partner: nat,
    todo: seq<nat>, handles: multiset<nat>)

  datatype State = State(pipes: seq<Pipe>, sabs: seq<Sab>, workers: seq<Worker>, threads: seq<Thread>)

  /** What an idle thread may start. */
  datatype Command =
    | NewSab
    | DupHandle(b: nat)
    | DropHandle(b: nat)
    | Post(w: nat, body: nat, sabs: seq<nat>)
    | Take(w: nat)
    | SetPort(w: nat)
    | ClearPort(w: nat)
    | Finalize(w: nat)
    | NewWorker
    | NewParent
    | Stop

  /** Start a command, perform the next atomic step, or take the failing branch of that step. */
  datatype Action = Start(command: Command) | Advance | Fail

  datatype Event = Event(thread: nat, action: Action)

  function NewThread(recv: nat, send: nat, attached: bool, partner: nat): Thread {
    Thread(Idle, recv, send, attached, false, partner, [], multiset{})
  }

  function NewPipe(down: bool): Pipe {
    Pipe(1, None, [], 0, down, [], [], {}, [], 0, Live)
  }

  /** Only the main thread, thread 0, exists. */
  function Initial(): State {
    State([], [], [], [NewThread(0, 0, false, 0)])
  }

  // ---------------------------------------------------------------- steps

  function SetThread(s: State, t: nat, th: Thread): State
    requires t < |s.threads|
  {
    s.(threads := s.threads[t := th])
  }

  function SetPc(s: State, t: nat, pc: Pc): State
    requires t < |s.threads|
  {
    SetThread(s, t, s.threads[t].(pc := pc))
  }

  function SetPipe(s: State, p: nat, pipe: Pipe): State
    requires p < |s.pipes|
  {
    s.(pipes := s.pipes[p := pipe])
  }

  /** Adds `d` to a pipe's reference count. */
  function AddRef(s: State, p: nat, d: int): State
    requires p < |s.pipes|
  {
    SetPipe(s, p, s.pipes[p].(refs := s.pipes[p].refs + d))
  }

  /** js_sab_dup */
  function DupSab(s: State, b: nat): State
    requires b < |s.sabs|
  {
    s.(sabs := s.sabs[b := s.sabs[b].(refs := s.sabs[b].refs + 1)])
  }

  /** js_sab_free: decrement, and free at zero. */
  function FreeSab(s: State, b: nat): State
    requires b < |s.sabs|
  {
    var n := s.sabs[b].refs - 1;
    s.(sabs := s.sabs[b := Sab(n, s.sabs[b].frees + Ind(n == 0))])
  }

  /** Thread t owns the live worker object w. */
  predicate Owns(s: State, t: nat, w: nat) {
    && w < |s.workers| && s.workers[w].alive && s.workers[w].owner == t
    && s.workers[w].recv < |s.pipes| && s.workers[w].send < |s.pipes|
  }

  /** The step may be performed: the data it touches exists and it does not block. */
  predicate CanAdvance(s: State, t: nat) {
    t < |s.threads| &&
    match s.threads[t].pc
    case Idle => false
    case PostDup(w, msg, i) =>
      Owns(s, t, w) &&
      if i < |msg.sabs| then msg.sabs[i] < |s.sabs| else s.pipes[s.workers[w].send].lock.None?
    case PostTest(w, _) => Owns(s, t, w)
    case PostLink(w, _) => Owns(s, t, w)
    case PostUnlock(w) => Owns(s, t, w)
    case TakeLock(w) => Owns(s, t, w) && s.pipes[s.workers[w].recv].lock.None?
    case TakeTest(w) => Owns(s, t, w)
    // a blocking read
    case TakeClear(w, _) => Owns(s, t, w) && s.pipes[s.workers[w].recv].waker > 0
    case TakeUnlock(w, _) => Owns(s, t, w)
    case TakeNone(w) => Owns(s, t, w)
    case Reading(msg, i) => i < |msg.sabs| ==> msg.sabs[i] < |s.sabs|
    case Freeing(rest, _) => rest != [] ==> rest[0] < |s.sabs|
    case Releasing => s.threads[t].todo != [] ==> s.threads[t].todo[0] < |s.pipes|
    case Draining(p) => p < |s.pipes|
    case Ctor1(_) => true
    case Ctor2(_, send) => send < |s.pipes|
    case Ctor3(recv, _) => recv < |s.pipes|
    case Ctor4(_, _, _) => true
    case Parent(_, send) => send < |s.pipes|
  }

  function Step(s: State, t: nat): State
    requires CanAdvance(s, t)
  {
    var th := s.threads[t];
    match th.pc
    case PostDup(w, msg, i) =>
      if i < |msg.sabs| then
        SetPc(DupSab(s, msg.sabs[i]), t, PostDup(w, msg, i + 1))
      else
        var p := s.workers[w].send;
        SetPc(SetPipe(s, p, s.pipes[p].(lock := Some(t))), t, PostTest(w, msg))
    case PostTest(w, msg) =>
      var p := s.workers[w].send;
      var pipe := s.pipes[p];
      SetPc(SetPipe(s, p, if pipe.queue == [] then pipe.(waker := pipe.waker + 1) else pipe), t, PostLink(w, msg))
    case PostLink(w, msg) =>
      var p := s.workers[w].send;
      var pipe := s.pipes[p];
      SetPc(SetPipe(s, p, pipe.(queue := pipe.queue + [msg], posted := pipe.posted + [msg])), t, PostUnlock(w))
    case PostUnlock(w) =>
      var p := s.workers[w].send;
      SetPc(SetPipe(s, p, s.pipes[p].(lock := None)), t, Idle)
    case TakeLock(w) =>
      var p := s.workers[w].recv;
      SetPc(SetPipe(s, p, s.pipes[p].(lock := Some(t))), t, TakeTest(w))
    case TakeTest(w) =>
      var p := s.workers[w].recv;
      var pipe := s.pipes[p];
      if pipe.queue == [] then
        SetPc(s, t, TakeNone(w))
      else
        var msg := pipe.queue[0];
        SetPc(SetPipe(s, p, pipe.(queue := pipe.queue[1..], taken := pipe.taken + [msg], takers := pipe.takers + {t})),
              t, if |pipe.queue| == 1 then TakeClear(w, msg) else TakeUnlock(w, msg))
    case TakeClear(w, msg) =>
      var p := s.workers[w].recv;
      var pipe := s.pipes[p];
      SetPc(SetPipe(s, p, pipe.(waker := pipe.waker - Min(16, pipe.waker))), t, TakeUnlock(w, msg))
    case TakeUnlock(w, msg) =>
      var p := s.workers[w].recv;
      SetPc(SetPipe(s, p, s.pipes[p].(lock := None)), t, Reading(msg, 0))
    case TakeNone(w) =>
      var p := s.workers[w].recv;
      SetPc(SetPipe(s, p, s.pipes[p].(lock := None)), t, Idle)
    case Reading(msg, i) =>
      // JS_ReadObject takes one reference per buffer
      if i < |msg.sabs| then
        var b := msg.sabs[i];
        SetThread(DupSab(s, b), t, th.(pc := Reading(msg, i + 1), handles := th.handles + multiset{b}))
      else
        SetPc(s, t, Freeing(msg.sabs, None))
    case Freeing(rest, pipe) =>
      if rest != [] then
        SetPc(FreeSab(s, rest[0]), t, Freeing(rest[1..], pipe))
      else
        SetPc(s, t, if pipe.Some? then Draining(pipe.value) else Idle)
    case Releasing =>
      if th.todo == [] then
        SetPc(s, t, Idle)
      else
        var p := th.todo[0];
        var n := s.pipes[p].refs - 1;
        SetThread(SetPipe(s, p, s.pipes[p].(refs := n, life := if n == 0 then Dying(t) else s.pipes[p].life)),
                  t, th.(todo := th.todo[1..], pc := if n == 0 then Draining(p) else Releasing))
    case Draining(p) =>
      var pipe := s.pipes[p];
      if pipe.queue != [] then
        var msg := pipe.queue[0];
        SetPc(SetPipe(s, p, pipe.(queue := pipe.queue[1..], dropped := pipe.dropped + [msg])),
              t, Freeing(msg.sabs, Some(p)))
      else
        SetPc(SetPipe(s, p, pipe.(frees := pipe.frees + 1, life := Dead)), t, Releasing)
    case Ctor1(recv) =>
      SetPc(s.(pipes := s.pipes + [NewPipe(false)]), t, Ctor2(recv, |s.pipes|))
    case Ctor2(recv, send) =>
      // js_worker_ctor_internal(send_pipe, recv_pipe): the object's ends are crossed
      SetPc(AddRef(s, send, 1), t, Ctor3(recv, send))
    case Ctor3(recv, send) =>
      var s1 := AddRef(s, recv, 1);
      SetPc(s1.(workers := s.workers + [Worker(t, send, recv, false, true)]), t, Ctor4(recv, send, |s.workers|))
    case Ctor4(recv, send, w) =>
      var s1 := SetPc(s, t, Idle);
      s1.(threads := s1.threads + [NewThread(recv, send, true, w)])
    case Parent(recv, send) =>
      var s1 := AddRef(s, send, 1);
      SetPc(s1.(workers := s.workers + [Worker(t, recv, send, false, true)]), t, Idle)
  }

  /** JS_ReadObject, or one of the allocations of js_worker_ctor, fails. */
  predicate CanFail(s: State, t: nat) {
    t < |s.threads| &&
    var pc := s.threads[t].pc;
    pc.Reading? || pc.Ctor1? || pc.Ctor2? || (pc.Ctor4? && pc.w < |s.workers|)
  }

  function FailStep(s: State, t: nat): State
    requires CanFail(s, t)
  {
    var th := s.threads[t];
    match th.pc
    case Reading(msg, _) => SetPc(s, t, Freeing(msg.sabs, None))
    case Ctor1(recv) => SetThread(s, t, th.(pc := Releasing, todo := [recv]))
    case Ctor2(recv, send) => SetThread(s, t, th.(pc := Releasing, todo := [recv, send]))
    case Ctor4(recv, send, w) =>
      // the object is released last; its finalizer drops the object's own references
      var s1 := s.(workers := s.workers[w := s.workers[w].(alive := false)]);
      SetThread(s1, t, th.(pc := Releasing, todo := [recv, send, s.workers[w].recv, s.workers[w].send]))
  }

  predicate CanStart(s: State, t: nat, c: Command) {
    t < |s.threads| && s.threads[t].pc.Idle? &&
    var th := s.threads[t];
    match c
    case NewSab => !th.stopped
    case DupHandle(b) => !th.stopped && b in th.handles && b < |s.sabs|
    case DropHandle(b) => b in th.handles
    case Post(w, _, sabs) => !th.stopped && Owns(s, t, w) && forall i :: 0 <= i < |sabs| ==> sabs[i] in th.handles
    case Take(w) => !th.stopped && Owns(s, t, w) && s.workers[w].port
    case SetPort(w) => !th.stopped && Owns(s, t, w)
    case ClearPort(w) => !th.stopped && Owns(s, t, w)
    case Finalize(w) => Owns(s, t, w)
    // a worker cannot create workers
    case NewWorker => !th.stopped && t == 0
    case NewParent => !th.stopped && th.attached && th.recv < |s.pipes|
    case Stop => !th.stopped && th.attached
  }

  function StartStep(s: State, t: nat, c: Command): State
    requires CanStart(s, t, c)
  {
    var th := s.threads[t];
    match c
    case NewSab =>
      var s1 := s.(sabs := s.sabs + [Sab(1, 0)]);
      SetThread(s1, t, th.(handles := th.handles + multiset{|s.sabs|}))
    case DupHandle(b) => SetThread(DupSab(s, b), t, th.(handles := th.handles + multiset{b}))
    case DropHandle(b) => SetThread(s, t, th.(handles := th.handles - multiset{b}, pc := Freeing([b], None)))
    case Post(w, body, sabs) => SetPc(s, t, PostDup(w, Message(t, body, sabs), 0))
    case Take(w) => SetPc(s, t, TakeLock(w))
    case SetPort(w) =>
      if s.workers[w].port then s
      else AddRef(s, s.workers[w].recv, 1).(workers := s.workers[w := s.workers[w].(port := true)])
    case ClearPort(w) =>
      if !s.workers[w].port then s
      else
        var s1 := s.(workers := s.workers[w := s.workers[w].(port := false)]);
        SetThread(s1, t, th.(pc := Releasing, todo := [s.workers[w].recv]))
    case Finalize(w) =>
      var o := s.workers[w];
      var s1 := s.(workers := s.workers[w := o.(alive := false)]);
      SetThread(s1, t, th.(pc := Releasing, todo := [o.recv, o.send] + (if o.port then [o.recv] else [])))
    case NewWorker => SetPc(s.(pipes := s.pipes + [NewPipe(true)]), t, Ctor1(|s.pipes|))
    case NewParent => SetPc(AddRef(s, th.recv, 1), t, Parent(th.recv, th.send))
    case Stop => SetThread(s, t, th.(pc := Releasing, todo := [th.recv, th.send], attached := false, stopped := true))
  }

  predicate Enabled(s: State, e: Event) {
    match e.action
    case Start(c) => CanStart(s, e.thread, c)
    case Advance => CanAdvance(s, e.thread)
    case Fail => CanFail(s, e.thread)
  }

  function Next(s: State, e: Event): State
    requires Enabled(s, e)
  {
    match e.action
    case Start(c) => StartStep(s, e.thread, c)
    case Advance => Step(s, e.thread)
    case Fail => FailStep(s, e.thread)
  }

  /** `events` is an interleaving that can happen from s. */
  predicate Runs(s: State, events: seq<Event>)
    decreases |events|
  {
    events != [] ==> Enabled(s, events[0]) && Runs(Next(s, events[0]), events[1..])
  }

  function After(s: State, events: seq<Event>): State
    requires Runs(s, events)
    decreases |events|
  {
    if events == [] then s else After(Next(s, events[0]), events[1..])
  }

  // ---------------------------------------------------------------- who holds what

  function PcPipes(pc: Pc, p: nat): nat {
    match pc
    case Ctor1(recv) => Ind(recv == p)
    case Ctor2(recv, send) => Ind(recv == p) + Ind(send == p)
    case Ctor3(recv, send) => Ind(recv == p) + 2 * Ind(send == p)
    case Ctor4(recv, send, _) => Ind(recv == p) + Ind(send == p)
    case Parent(recv, _) => Ind(recv == p)
    case _ => 0
  }

  /** References to pipe p held by a thread: thread state, constructor arguments, pending releases. */
  function ThreadPipes(th: Thread, p: nat): nat {
    (if th.attached then Ind(th.recv == p) + Ind(th.send == p) else 0) + multiset(th.todo)[p] + PcPipes(th.pc, p)
  }

  /** References to pipe p held by a worker object and its port. */
  function WorkerPipes(o: Worker, p: nat): nat {
    if o.alive then Ind(o.recv == p) + Ind(o.send == p) + (if o.port then Ind(o.recv == p) else 0) else 0
  }

  function PcSabs(pc: Pc, b: nat): nat {
    match pc
    case PostDup(_, msg, i) => if i <= |msg.sabs| then multiset(msg.sabs[..i])[b] else 0
    case PostTest(_, msg) => multiset(msg.sabs)[b]
    case PostLink(_, msg) => multiset(msg.sabs)[b]
    case TakeClear(_, msg) => multiset(msg.sabs)[b]
    case TakeUnlock(_, msg) => multiset(msg.sabs)[b]
    case Reading(msg, _) => multiset(msg.sabs)[b]
    case Freeing(rest, _) => multiset(rest)[b]
    case _ => 0
  }

  /** References to buffer b held by a thread: live handles and the message in flight. */
  function ThreadSabs(th: Thread, b: nat): nat {
    th.handles[b] + PcSabs(th.pc, b)
  }

  /** References to buffer b in a queue of messages. */
  function QueueSabs(q: seq<Message>, b: nat): nat {
    if q == [] then 0 else multiset(q[0].sabs)[b] + QueueSabs(q[1..], b)
  }

  function ThreadPipeCounts(ts: seq<Thread>, p: nat): (r: seq<nat>)
    ensures |r| == |ts| && forall i :: 0 <= i < |ts| ==> r[i] == ThreadPipes(ts[i], p)
  {
    seq(|ts|, i requires 0 <= i < |ts| => ThreadPipes(ts[i], p))
  }

  function WorkerPipeCounts(ws: seq<Worker>, p: nat): (r: seq<nat>)
    ensures |r| == |ws| && forall i :: 0 <= i < |ws| ==> r[i] == WorkerPipes(ws[i], p)
  {
    seq(|ws|, i requires 0 <= i < |ws| => WorkerPipes(ws[i], p))
  }

  function ThreadSabCounts(ts: seq<Thread>, b: nat): (r: seq<nat>)
    ensures |r| == |ts| && forall i :: 0 <= i < |ts| ==> r[i] == ThreadSabs(ts[i], b)
  {
    seq(|ts|, i requires 0 <= i < |ts| => ThreadSabs(ts[i], b))
  }

  function QueueSabCounts(ps: seq<Pipe>, b: nat): (r: seq<nat>)
    ensures |r| == |ps| && forall i :: 0 <= i < |ps| ==> r[i] == QueueSabs(ps[i].queue, b)
  {
    seq(|ps|, i requires 0 <= i < |ps| => QueueSabs(ps[i].queue, b))
  }

  /** All references to pipe p: thread states, constructor arguments, worker objects and ports. */
  function PipeHolders(s: State, p: nat): nat {
    Total(ThreadPipeCounts(s.threads, p)) + Total(WorkerPipeCounts(s.workers, p))
  }

  /** All references to buffer b: live handles, messages in flight and queued messages. */
  function SabHolders(s: State, b: nat): nat {
    Total(ThreadSabCounts(s.threads, b)) + Total(QueueSabCounts(s.pipes, b))
  }
}
