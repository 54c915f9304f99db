/**
 * Creating and releasing, each from rest to rest: a new worker gets two fresh pipes and a thread with the ends crossed,
 * and dropping references takes exactly those references away, destroying the pipes that lose their last one.
 */
module WorkerLifecycle {
  import opened Prelude
  import opened Workers
  import opened WorkerSafety
  import opened WorkerTheorems
  import opened WorkerDelivery

  // ---------------------------------------------------------------- creating

  /** new Worker: two pipes with two holders each, a worker object and a thread that share them crosswise. */
  lemma NewWorkerCreates(s: State)
    requires CanStart(s, 0, NewWorker)
    ensures var down, up := |s.pipes|, |s.pipes| + 1;
            Leads(StartStep(s, 0, NewWorker), 0,
                  State(s.pipes + [NewPipe(true).(refs := 2), NewPipe(false).(refs := 2)],
                        s.sabs,
                        s.workers + [Worker(0, up, down, false, true)],
                        s.threads + [NewThread(down, up, true, |s.workers|)]))
  {
    var down, up := |s.pipes|, |s.pipes| + 1;
    var s0 := StartStep(s, 0, NewWorker);
    var s2 := SetPc(s.(pipes := s.pipes + [NewPipe(true), NewPipe(false).(refs := 2)]), 0, Ctor3(down, up));
    FirstPipes(s, s0, s2);
    ObjectAndThread(s, s2);
    Onward(s0, 0, s2, Step(Step(s2, 0), 0));
  }

  lemma ObjectAndThread(s: State, s2: State)
    requires CanStart(s, 0, NewWorker)
    requires s2 == SetPc(s.(pipes := s.pipes + [NewPipe(true), NewPipe(false).(refs := 2)]), 0, Ctor3(|s.pipes|, |s.pipes| + 1))
    ensures CanAdvance(s2, 0) && CanAdvance(Step(s2, 0), 0) && Leads(s2, 0, Step(Step(s2, 0), 0))
    ensures var down, up := |s.pipes|, |s.pipes| + 1;
            Step(Step(s2, 0), 0) == State(s.pipes + [NewPipe(true).(refs := 2), NewPipe(false).(refs := 2)],
                                          s.sabs,
                                          s.workers + [Worker(0, up, down, false, true)],
                                          s.threads + [NewThread(down, up, true, |s.workers|)])
  {
    assert Step(s2, 0).pipes == s.pipes + [NewPipe(true).(refs := 2), NewPipe(false).(refs := 2)];
    assert Step(Step(s2, 0), 0).threads == s.threads + [NewThread(|s.pipes|, |s.pipes| + 1, true, |s.workers|)];
    TwoSteps(s2, 0);
  }

  lemma FirstPipes(s: State, s0: State, s2: State)
    requires CanStart(s, 0, NewWorker) && s0 == StartStep(s, 0, NewWorker)
    requires s2 == SetPc(s.(pipes := s.pipes + [NewPipe(true), NewPipe(false).(refs := 2)]), 0, Ctor3(|s.pipes|, |s.pipes| + 1))
    ensures Leads(s0, 0, s2)
  {
    var s1 := Step(s0, 0);
    assert s1.pipes == s.pipes + [NewPipe(true), NewPipe(false)];
    assert Step(s1, 0).pipes == s2.pipes;
    assert Step(s1, 0).threads == s2.threads;
    TwoSteps(s0, 0);
  }

  /** Worker.parent: one more object on the thread's own pipes, each with one more holder. */
  lemma NewParentCreates(s: State, t: nat)
    requires Reachable(s) && CanStart(s, t, NewParent)
    ensures var th := s.threads[t];
            && th.recv < |s.pipes| && th.send < |s.pipes| && th.recv != th.send
            && Leads(StartStep(s, t, NewParent), t,
                     s.(pipes := s.pipes[th.recv := s.pipes[th.recv].(refs := s.pipes[th.recv].refs + 1)]
                                        [th.send := s.pipes[th.send].(refs := s.pipes[th.send].refs + 1)],
                        workers := s.workers + [Worker(t, th.recv, th.send, false, true)]))
  {
    OwnEnds(s, t);
    ParentSteps(s, t);
  }

  lemma OwnEnds(s: State, t: nat)
    requires Reachable(s) && t < |s.threads| && s.threads[t].attached
    ensures s.threads[t].recv < |s.pipes| && s.threads[t].send < |s.pipes| && s.threads[t].recv != s.threads[t].send
  {
    ReachableInv(s);
    assert ThreadInv(s, t);
  }

  lemma ParentSteps(s: State, t: nat)
    requires CanStart(s, t, NewParent)
    requires var th := s.threads[t]; th.recv < |s.pipes| && th.send < |s.pipes| && th.recv != th.send
    ensures var th := s.threads[t];
            Leads(StartStep(s, t, NewParent), t,
                  s.(pipes := s.pipes[th.recv := s.pipes[th.recv].(refs := s.pipes[th.recv].refs + 1)]
                                     [th.send := s.pipes[th.send].(refs := s.pipes[th.send].refs + 1)],
                     workers := s.workers + [Worker(t, th.recv, th.send, false, true)]))
  {
    var s0 := StartStep(s, t, NewParent);
    OneStep(s0, t);
    assert Step(s0, t).threads == s.threads;
  }

  // ---------------------------------------------------------------- destroying a pipe

  /** The pipe with its messages dropped, freed once more. */
  function Emptied(pipe: Pipe): Pipe {
    pipe.(queue := [], dropped := pipe.dropped + pipe.queue, frees := pipe.frees + 1, life := Dead)
  }

  /** Only thread t and pipe p have changed, apart from the buffers' counts. */
  ghost predicate Acted(s: State, s': State, t: nat, th: Thread, p: nat, pipe: Pipe) {
    && t < |s.threads| && s'.threads == s.threads[t := th]
    && p < |s.pipes| && s'.pipes == s.pipes[p := pipe]
    && s'.workers == s.workers && |s'.sabs| == |s.sabs|
  }

  lemma ActedThen(s: State, s1: State, s2: State, t: nat, th1: Thread, th2: Thread, p: nat, pipe1: Pipe, pipe2: Pipe)
    requires Acted(s, s1, t, th1, p, pipe1) && Acted(s1, s2, t, th2, p, pipe2)
    ensures Acted(s, s2, t, th2, p, pipe2)
  {
    SetTwice(s.threads, t, th1, th2);
    SetTwice(s.pipes, p, pipe1, pipe2);
  }

  predicate QueueIn(s: State, queue: seq<Message>) {
    forall k :: 0 <= k < |queue| ==> SabsIn(s, queue[k].sabs)
  }

  lemma DrainStep(s: State, t: nat, p: nat)
    requires t < |s.threads| && s.threads[t].pc == Draining(p) && p < |s.pipes|
    ensures CanAdvance(s, t)
    ensures var pipe := s.pipes[p];
            if pipe.queue == [] then
              Acted(s, Step(s, t), t, s.threads[t].(pc := Releasing), p, Emptied(pipe)) && Step(s, t).sabs == s.sabs
            else
              Acted(s, Step(s, t), t, s.threads[t].(pc := Freeing(pipe.queue[0].sabs, Some(p))), p,
                    pipe.(queue := pipe.queue[1..], dropped := pipe.dropped + [pipe.queue[0]]))
  {
    assert s.pipes[p].dropped + [] == s.pipes[p].dropped;
  }

  lemma DropsHead(s: State, t: nat, p: nat) returns (s': State)
    requires t < |s.threads| && s.threads[t].pc == Draining(p) && p < |s.pipes|
    requires s.pipes[p].queue != [] && SabsIn(s, s.pipes[p].queue[0].sabs)
    ensures Leads(s, t, s')
    ensures var pipe := s.pipes[p];
            Acted(s, s', t, s.threads[t], p, pipe.(queue := pipe.queue[1..], dropped := pipe.dropped + [pipe.queue[0]]))
  {
    DrainStep(s, t, p);
    OneStep(s, t);
    var s1 := Step(s, t);
    s' := FreesAll(s1, t, s.pipes[p].queue[0].sabs, Some(p));
    Onward(s, t, s1, s');
    ActedThen(s, s1, s', t, s1.threads[t], s'.threads[t], p, s1.pipes[p], s1.pipes[p]);
  }

  lemma {:induction false} DrainsAll(s: State, t: nat, p: nat) returns (s': State)
    requires t < |s.threads| && s.threads[t].pc == Draining(p) && p < |s.pipes| && QueueIn(s, s.pipes[p].queue)
    ensures Leads(s, t, s')
    ensures Acted(s, s', t, s.threads[t].(pc := Releasing), p, Emptied(s.pipes[p]))
    decreases |s.pipes[p].queue|
  {
    var pipe := s.pipes[p];
    if pipe.queue == [] {
      DrainStep(s, t, p);
      OneStep(s, t);
      s' := Step(s, t);
    } else {
      var s1 := DropsHead(s, t, p);
      s' := DrainsAll(s1, t, p);
      Onward(s, t, s1, s');
      assert pipe.dropped + [pipe.queue[0]] + pipe.queue[1..] == pipe.dropped + pipe.queue;
      ActedThen(s, s1, s', t, s1.threads[t], s'.threads[t], p, s1.pipes[p], s'.pipes[p]);
    }
  }

  // ---------------------------------------------------------------- dropping references

  /** A pipe that n holders let go of: it loses n references, and is destroyed if those were the last. */
  function LetGo(pipe: Pipe, n: nat): Pipe {
    if n > 0 && pipe.refs == n then Emptied(pipe.(refs := 0)) else pipe.(refs := pipe.refs - n)
  }

  /** Every reference that is to be dropped is counted. */
  predicate Releasable(s: State, todo: seq<nat>) {
    PipesIn(s, todo) && forall p :: 0 <= p < |s.pipes| ==> multiset(todo)[p] <= s.pipes[p].refs && QueueIn(s, s.pipes[p].queue)
  }

  /** Thread t rests, every pipe has lost the listed references, and buffers change only if a pipe was destroyed. */
  ghost predicate Released(s: State, s': State, t: nat, todo: seq<nat>) {
    && t < |s.threads| && s'.threads == s.threads[t := s.threads[t].(pc := Idle, todo := [])]
    && s'.workers == s.workers && |s'.pipes| == |s.pipes|
    && (forall p :: 0 <= p < |s.pipes| ==> s'.pipes[p] == LetGo(s.pipes[p], multiset(todo)[p]))
    && (AllSurvive(s, todo) ==> s'.sabs == s.sabs)
  }

  /** No pipe of the list loses its last reference. */
  predicate AllSurvive(s: State, todo: seq<nat>) {
    forall p :: 0 <= p < |s.pipes| && p in todo ==> multiset(todo)[p] < s.pipes[p].refs
  }

  /** The next pipe has lost its reference and, if that was the last, is gone. */
  ghost predicate ReleasedOne(s: State, s': State, t: nat) {
    && t < |s.threads| && s.threads[t].todo != [] && s.threads[t].todo[0] < |s.pipes|
    && var p, th := s.threads[t].todo[0], s.threads[t];
       && Acted(s, s', t, th.(todo := th.todo[1..]), p, LetGo(s.pipes[p], 1))
       && (s.pipes[p].refs != 1 ==> s'.sabs == s.sabs)
  }

  lemma ReleasesOne(s: State, t: nat) returns (s': State)
    requires t < |s.threads| && s.threads[t].pc == Releasing && s.threads[t].todo != [] && Releasable(s, s.threads[t].todo)
    ensures Leads(s, t, s') && ReleasedOne(s, s', t)
  {
    var th := s.threads[t];
    var p := th.todo[0];
    var s1 := Step(s, t);
    OneStep(s, t);
    if s.pipes[p].refs == 1 {
      s' := DrainsAll(s1, t, p);
      Onward(s, t, s1, s');
      ActedThen(s, s1, s', t, s1.threads[t], s'.threads[t], p, s1.pipes[p], s'.pipes[p]);
    } else {
      s' := s1;
    }
  }

  lemma LetGoThen(pipe: Pipe, m: nat, n: nat)
    requires m + n <= pipe.refs
    ensures LetGo(LetGo(pipe, m), n) == LetGo(pipe, m + n)
  {
  }

  lemma StillReleasable(s: State, s1: State, t: nat)
    requires ReleasedOne(s, s1, t) && Releasable(s, s.threads[t].todo)
    ensures Releasable(s1, s.threads[t].todo[1..])
  {
    HeadOf(s.threads[t].todo, 0);
    assert s.threads[t].todo[0..] == s.threads[t].todo;
  }

  lemma OneLetGo(s: State, s1: State, t: nat, p: nat)
    requires ReleasedOne(s, s1, t) && p < |s.pipes|
    ensures s1.pipes[p] == LetGo(s.pipes[p], multiset{s.threads[t].todo[0]}[p])
  {
  }

  lemma LetGoBoth(pipe: Pipe, pipe1: Pipe, pipe': Pipe, todo: seq<nat>, p: nat)
    requires todo != [] && multiset(todo)[p] <= pipe.refs
    requires pipe1 == LetGo(pipe, multiset{todo[0]}[p]) && pipe' == LetGo(pipe1, multiset(todo[1..])[p])
    ensures pipe' == LetGo(pipe, multiset(todo)[p])
  {
    HeadOf(todo, 0);
    assert todo[0..] == todo;
    LetGoThen(pipe, multiset{todo[0]}[p], multiset(todo[1..])[p]);
  }

  lemma RestSurvives(s: State, s1: State, t: nat)
    requires ReleasedOne(s, s1, t) && AllSurvive(s, s.threads[t].todo)
    ensures AllSurvive(s1, s.threads[t].todo[1..]) && s1.sabs == s.sabs
  {
    var todo := s.threads[t].todo;
    HeadOf(todo, 0);
    assert todo[0..] == todo;
    assert todo[0] in todo;
  }

  lemma ReleasedThen(s: State, s1: State, s': State, t: nat)
    requires ReleasedOne(s, s1, t) && Releasable(s, s.threads[t].todo) && Released(s1, s', t, s.threads[t].todo[1..])
    ensures Released(s, s', t, s.threads[t].todo)
  {
    SetTwice(s.threads, t, s1.threads[t], s'.threads[t]);
    forall p | 0 <= p < |s.pipes| ensures s'.pipes[p] == LetGo(s.pipes[p], multiset(s.threads[t].todo)[p]) {
      OneLetGo(s, s1, t, p);
      LetGoBoth(s.pipes[p], s1.pipes[p], s'.pipes[p], s.threads[t].todo, p);
    }
    if AllSurvive(s, s.threads[t].todo) {
      RestSurvives(s, s1, t);
    }
  }

  lemma {:induction false} ReleasesAll(s: State, t: nat) returns (s': State)
    requires t < |s.threads| && s.threads[t].pc == Releasing && Releasable(s, s.threads[t].todo)
    ensures Leads(s, t, s') && Released(s, s', t, s.threads[t].todo)
    decreases |s.threads[t].todo|
  {
    if s.threads[t].todo == [] {
      OneStep(s, t);
      s' := Step(s, t);
    } else {
      var s1 := ReleasesOne(s, t);
      StillReleasable(s, s1, t);
      s' := ReleasesAll(s1, t);
      Onward(s, t, s1, s');
      ReleasedThen(s, s1, s', t);
    }
  }

  lemma TodoReleasable(s: State, t: nat)
    requires Inv(s) && t < |s.threads|
    ensures Releasable(s, s.threads[t].todo)
  {
    assert ThreadInv(s, t);
    forall p | 0 <= p < |s.pipes| ensures multiset(s.threads[t].todo)[p] <= s.pipes[p].refs && QueueIn(s, s.pipes[p].queue) {
      assert PipeInv(s, p);
      TotalAtLeast(ThreadPipeCounts(s.threads, p), t);
    }
  }

  /** Whatever a thread has to release, running on its own it releases all of it and comes to rest. */
  lemma ReleaseFinishes(s: State, t: nat) returns (s': State)
    requires Reachable(s) && t < |s.threads| && s.threads[t].pc == Releasing
    ensures Leads(s, t, s') && Released(s, s', t, s.threads[t].todo)
  {
    ReachableInv(s);
    TodoReleasable(s, t);
    s' := ReleasesAll(s, t);
  }

  /** The thread let go of exactly the listed pipes and is otherwise as it was. */
  ghost predicate Dropped(s: State, s': State, pipes: multiset<nat>) {
    |s'.pipes| == |s.pipes| && forall p :: 0 <= p < |s.pipes| ==> s'.pipes[p] == LetGo(s.pipes[p], pipes[p])
  }

  /** The finalizer: the object is gone with its two references, and a third one if its port was open. */
  lemma FinalizeReleases(s: State, t: nat, w: nat) returns (s': State)
    requires Reachable(s) && CanStart(s, t, Finalize(w))
    ensures Leads(StartStep(s, t, Finalize(w)), t, s')
    ensures s'.threads == s.threads && s'.workers == s.workers[w := s.workers[w].(alive := false)]
    ensures var o := s.workers[w];
            Dropped(s, s', multiset{o.recv, o.send} + if o.port then multiset{o.recv} else multiset{})
  {
    var c := Finalize(w);
    NextReachable(s, Event(t, Start(c)));
    IdleTodo(s, t);
    s' := ReleaseFinishes(StartStep(s, t, c), t);
    BackToRest(s, t, StartStep(s, t, c).threads[t], s.threads[t]);
    var o := s.workers[w];
    assert multiset([o.recv, o.send] + (if o.port then [o.recv] else []))
        == multiset{o.recv, o.send} + if o.port then multiset{o.recv} else multiset{};
  }

  /** A worker thread that ends gives up its references to its own two pipes and never attaches again. */
  lemma StopReleases(s: State, t: nat) returns (s': State)
    requires Reachable(s) && CanStart(s, t, Stop)
    ensures Leads(StartStep(s, t, Stop), t, s')
    ensures s'.threads == s.threads[t := s.threads[t].(attached := false, stopped := true)] && s'.workers == s.workers
    ensures Dropped(s, s', multiset{s.threads[t].recv, s.threads[t].send})
  {
    NextReachable(s, Event(t, Start(Stop)));
    IdleTodo(s, t);
    s' := ReleaseFinishes(StartStep(s, t, Stop), t);
    SetTwice(s.threads, t, StartStep(s, t, Stop).threads[t], s'.threads[t]);
    assert multiset([s.threads[t].recv, s.threads[t].send]) == multiset{s.threads[t].recv, s.threads[t].send};
  }

  lemma IdleTodo(s: State, t: nat)
    requires Reachable(s) && t < |s.threads| && s.threads[t].pc.Idle?
    ensures s.threads[t].todo == []
  {
    ReachableInv(s);
    IdleHasNoTodo(s, t);
  }

  lemma ClearPortReleases(s: State, t: nat, w: nat) returns (s': State)
    requires Reachable(s) && CanStart(s, t, ClearPort(w)) && s.workers[w].port
    ensures Leads(StartStep(s, t, ClearPort(w)), t, s')
    ensures s'.threads == s.threads && s'.workers == s.workers[w := s.workers[w].(port := false)]
    ensures Dropped(s, s', multiset{s.workers[w].recv})
    ensures s.pipes[s.workers[w].recv].refs > 1 ==> s'.sabs == s.sabs
  {
    var c := ClearPort(w);
    NextReachable(s, Event(t, Start(c)));
    IdleTodo(s, t);
    s' := ReleaseFinishes(StartStep(s, t, c), t);
    BackToRest(s, t, StartStep(s, t, c).threads[t], s.threads[t]);
    assert multiset([s.workers[w].recv]) == multiset{s.workers[w].recv};
  }

  /** onmessage = f makes the object listen and counts its port; onmessage = null undoes both. */
  lemma PortRoundTrip(s: State, t: nat, w: nat)
    requires Reachable(s) && CanStart(s, t, SetPort(w)) && !s.workers[w].port
    ensures var s1 := StartStep(s, t, SetPort(w));
            && s1.workers == s.workers[w := s.workers[w].(port := true)]
            && s1.pipes[s.workers[w].recv].refs == s.pipes[s.workers[w].recv].refs + 1
            && CanStart(s1, t, ClearPort(w)) && Leads(StartStep(s1, t, ClearPort(w)), t, s)
  {
    var s1, p := StartStep(s, t, SetPort(w)), s.workers[w].recv;
    ReachableInv(s);
    OwnedPipesAreAlive(s, t, w);
    NextReachable(s, Event(t, Start(SetPort(w))));
    var s2 := ClearPortReleases(s1, t, w);
    PortUndone(s, s1, s2, w, p);
  }

  lemma PortUndone(s: State, s1: State, s2: State, w: nat, p: nat)
    requires w < |s.workers| && !s.workers[w].port && p < |s.pipes| && s.pipes[p].refs > 0
    requires s1 == AddRef(s, p, 1).(workers := s.workers[w := s.workers[w].(port := true)])
    requires s2.threads == s1.threads && s2.sabs == s1.sabs && s2.workers == s1.workers[w := s1.workers[w].(port := false)]
    requires Dropped(s1, s2, multiset{p})
    ensures s2 == s
  {
    SetTwice(s.workers, w, s1.workers[w], s2.workers[w]);
    assert s2.workers == s.workers;
    forall q | 0 <= q < |s.pipes| ensures s2.pipes[q] == s.pipes[q] {
      assert s2.pipes[q] == LetGo(s1.pipes[q], multiset{p}[q]);
    }
    assert s2.pipes == s.pipes;
  }

  // ---------------------------------------------------------------- handles

  /** Dropping a handle takes one reference of its buffer away, and frees the buffer with the last. */
  lemma DropHandleFrees(s: State, t: nat, b: nat) returns (s': State)
    requires Reachable(s) && CanStart(s, t, DropHandle(b))
    ensures Leads(StartStep(s, t, DropHandle(b)), t, s')
    ensures s'.pipes == s.pipes && s'.workers == s.workers
    ensures s'.threads == s.threads[t := s.threads[t].(handles := s.threads[t].handles - multiset{b})]
    ensures b < |s.sabs| && var sab := s.sabs[b];
            s'.sabs == s.sabs[b := if sab.refs == 1 then Sab(0, 1) else sab.(refs := sab.refs - 1)]
  {
    BuffersInUseAlive(s, t, b);
    var s0 := StartStep(s, t, DropHandle(b));
    assert [b][1..] == [];
    TwoSteps(s0, t);
    s' := Step(Step(s0, t), t);
    SetTwice(s.threads, t, s0.threads[t], Step(s0, t).threads[t]);
    SetTwice(s.threads, t, Step(s0, t).threads[t], s'.threads[t]);
  }

  /** A new buffer has one reference, its creator's handle; dropping that frees it, once. */
  lemma NewSabRoundTrip(s: State, t: nat)
    requires Reachable(s) && CanStart(s, t, NewSab)
    ensures var s1, b := StartStep(s, t, NewSab), |s.sabs|;
            && CanStart(s1, t, DropHandle(b))
            && Leads(StartStep(s1, t, DropHandle(b)), t, s.(sabs := s.sabs + [Sab(0, 1)]))
  {
    var s1, b, th := StartStep(s, t, NewSab), |s.sabs|, s.threads[t];
    NextReachable(s, Event(t, Start(NewSab)));
    var s2 := DropHandleFrees(s1, t, b);
    assert th.handles + multiset{b} - multiset{b} == th.handles;
    assert s2.threads == s.threads;
    assert s2.sabs == s.sabs + [Sab(0, 1)];
  }

  /** A duplicated handle that is dropped again leaves no trace. */
  lemma DupHandleRoundTrip(s: State, t: nat, b: nat)
    requires Reachable(s) && CanStart(s, t, DupHandle(b))
    ensures var s1 := StartStep(s, t, DupHandle(b));
            && s1.sabs[b].refs == s.sabs[b].refs + 1 && s1.threads[t].handles == s.threads[t].handles + multiset{b}
            && CanStart(s1, t, DropHandle(b)) && Leads(StartStep(s1, t, DropHandle(b)), t, s)
  {
    var s1, th := StartStep(s, t, DupHandle(b)), s.threads[t];
    BuffersInUseAlive(s, t, b);
    NextReachable(s, Event(t, Start(DupHandle(b))));
    var s2 := DropHandleFrees(s1, t, b);
    assert th.handles + multiset{b} - multiset{b} == th.handles;
    assert s2.threads == s.threads;
    assert s2.sabs == s.sabs;
  }
}
