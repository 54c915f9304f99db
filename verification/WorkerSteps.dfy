/** Every atomic step of the worker protocol is local: it keeps its own thread and pipe in order. */
module WorkerSteps {
  import opened Prelude
  import opened Workers
  import opened WorkerSafety

  // ---------------------------------------------------------------- js_worker_postMessage

  lemma TakeOne(xs: seq<nat>, i: nat)
    requires i < |xs|
    ensures multiset(xs[..i + 1]) == multiset(xs[..i]) + multiset{xs[i]}
  {
    assert xs[..i + 1] == xs[..i] + [xs[i]];
  }

  lemma DropOne(xs: seq<nat>)
    requires xs != []
    ensures multiset(xs) == multiset{xs[0]} + multiset(xs[1..])
  {
    assert xs == [xs[0]] + xs[1..];
  }

  predicate SabAlive(s: State, b: nat) {
    b < |s.sabs| && s.sabs[b].refs > 0 && s.sabs[b].frees == 0
  }

  lemma DupOneCounts(s: State, t: nat, b: nat)
    requires CanAdvance(s, t) && s.threads[t].pc.PostDup? && s.threads[t].pc.i < |s.threads[t].pc.msg.sabs|
    requires ThreadInv(s, t) && b == s.threads[t].pc.msg.sabs[s.threads[t].pc.i] && SabAlive(s, b)
    ensures Touch(s, Step(s, t), t, |s.pipes|, b, |s.workers|)
    ensures Balanced(s, Step(s, t), t, |s.pipes|, b, |s.workers|)
  {
    TakeOne(s.threads[t].pc.msg.sabs, s.threads[t].pc.i);
  }

  lemma DupOneThread(s: State, t: nat, b: nat)
    requires CanAdvance(s, t) && s.threads[t].pc.PostDup? && s.threads[t].pc.i < |s.threads[t].pc.msg.sabs|
    requires ThreadInv(s, t) && b == s.threads[t].pc.msg.sabs[s.threads[t].pc.i] && SabAlive(s, b)
    ensures ThreadInv(Step(s, t), t)
  {
  }

  lemma DupOneLocal(s: State, t: nat, b: nat)
    requires CanAdvance(s, t) && s.threads[t].pc.PostDup? && s.threads[t].pc.i < |s.threads[t].pc.msg.sabs|
    requires ThreadInv(s, t) && b == s.threads[t].pc.msg.sabs[s.threads[t].pc.i] && SabAlive(s, b)
    ensures Local(s, Step(s, t), t, |s.pipes|, b, |s.workers|)
  {
    DupOneCounts(s, t, b);
    DupOneThread(s, t, b);
  }

  lemma PostLockCounts(s: State, t: nat, p: nat)
    requires CanAdvance(s, t) && s.threads[t].pc.PostDup? && s.threads[t].pc.i == |s.threads[t].pc.msg.sabs|
    requires p == s.workers[s.threads[t].pc.w].send
    ensures Touch(s, Step(s, t), t, p, |s.sabs|, |s.workers|)
    ensures Balanced(s, Step(s, t), t, p, |s.sabs|, |s.workers|)
  {
    var msg := s.threads[t].pc.msg;
    assert msg.sabs[..|msg.sabs|] == msg.sabs;
  }

  lemma PostLockThread(s: State, t: nat, p: nat)
    requires CanAdvance(s, t) && s.threads[t].pc.PostDup? && s.threads[t].pc.i == |s.threads[t].pc.msg.sabs|
    requires ThreadInv(s, t) && p == s.workers[s.threads[t].pc.w].send
    ensures ThreadInv(Step(s, t), t)
  {
  }

  lemma PostLockPipe(s: State, t: nat, p: nat)
    requires CanAdvance(s, t) && s.threads[t].pc.PostDup? && s.threads[t].pc.i == |s.threads[t].pc.msg.sabs|
    requires ThreadInv(s, t) && p == s.workers[s.threads[t].pc.w].send && PipeInv(s, p)
    ensures PipeInv(Step(s, t), p)
  {
  }

  lemma PostLockLocal(s: State, t: nat, p: nat)
    requires CanAdvance(s, t) && s.threads[t].pc.PostDup? && s.threads[t].pc.i == |s.threads[t].pc.msg.sabs|
    requires ThreadInv(s, t) && p == s.workers[s.threads[t].pc.w].send && PipeInv(s, p)
    ensures Local(s, Step(s, t), t, p, |s.sabs|, |s.workers|)
  {
    PostLockCounts(s, t, p);
    PostLockThread(s, t, p);
    PostLockPipe(s, t, p);
  }

  lemma PostTestShapeTouch(s: State, t: nat, p: nat)
    requires CanAdvance(s, t) && s.threads[t].pc.PostTest?
    requires p == s.workers[s.threads[t].pc.w].send
    ensures Touch(s, Step(s, t), t, p, |s.sabs|, |s.workers|)
  {
  }

  lemma PostTestThread(s: State, t: nat, p: nat)
    requires CanAdvance(s, t) && s.threads[t].pc.PostTest?
    requires ThreadInv(s, t) && p == s.workers[s.threads[t].pc.w].send
    ensures ThreadInv(Step(s, t), t)
  {
  }

  lemma PostTestPipe(s: State, t: nat, p: nat)
    requires CanAdvance(s, t) && s.threads[t].pc.PostTest?
    requires ThreadInv(s, t) && p == s.workers[s.threads[t].pc.w].send && PipeInv(s, p)
    ensures PipeInv(Step(s, t), p)
  {
  }

  lemma PostTestShape(s: State, t: nat, p: nat)
    requires CanAdvance(s, t) && s.threads[t].pc.PostTest?
    requires ThreadInv(s, t) && p == s.workers[s.threads[t].pc.w].send && PipeInv(s, p)
    ensures Touch(s, Step(s, t), t, p, |s.sabs|, |s.workers|) && TouchedOk(s, Step(s, t), t, p, |s.sabs|, |s.workers|)
  {
    PostTestShapeTouch(s, t, p);
    PostTestThread(s, t, p);
    PostTestPipe(s, t, p);
  }

  lemma PostTestBalanced(s: State, t: nat, p: nat)
    requires CanAdvance(s, t) && s.threads[t].pc.PostTest? && p == s.workers[s.threads[t].pc.w].send
    requires Touch(s, Step(s, t), t, p, |s.sabs|, |s.workers|)
    ensures Balanced(s, Step(s, t), t, p, |s.sabs|, |s.workers|)
  {
  }

  lemma {:induction false} QueueSabsAppend(q: seq<Message>, msg: Message, b: nat)
    ensures QueueSabs(q + [msg], b) == QueueSabs(q, b) + multiset(msg.sabs)[b]
  {
    if q == [] {
      assert q + [msg] == [msg];
    } else {
      QueueSabsAppend(q[1..], msg, b);
      assert (q + [msg])[1..] == q[1..] + [msg];
    }
  }

  lemma PostLinkShape(s: State, t: nat, p: nat)
    requires CanAdvance(s, t) && s.threads[t].pc.PostLink?
    requires ThreadInv(s, t) && p == s.workers[s.threads[t].pc.w].send && PipeInv(s, p) && WorkerInv(s, s.threads[t].pc.w)
    requires s.pipes[p].life.Live?
    ensures Touch(s, Step(s, t), t, p, |s.sabs|, |s.workers|) && TouchedOk(s, Step(s, t), t, p, |s.sabs|, |s.workers|)
  {
  }

  lemma PostLinkBalanced(s: State, t: nat, p: nat)
    requires CanAdvance(s, t) && s.threads[t].pc.PostLink? && p == s.workers[s.threads[t].pc.w].send
    requires Touch(s, Step(s, t), t, p, |s.sabs|, |s.workers|)
    ensures Balanced(s, Step(s, t), t, p, |s.sabs|, |s.workers|)
  {
    var msg := s.threads[t].pc.msg;
    forall c | 0 <= c < |s.sabs| ensures QueueSabs(s.pipes[p].queue + [msg], c) == QueueSabs(s.pipes[p].queue, c) + multiset(msg.sabs)[c] {
      QueueSabsAppend(s.pipes[p].queue, msg, c);
    }
  }

  lemma PostUnlockCounts(s: State, t: nat, p: nat)
    requires CanAdvance(s, t) && s.threads[t].pc.PostUnlock?
    requires p == s.workers[s.threads[t].pc.w].send
    ensures Touch(s, Step(s, t), t, p, |s.sabs|, |s.workers|)
    ensures Balanced(s, Step(s, t), t, p, |s.sabs|, |s.workers|)
  {
  }

  lemma PostUnlockThread(s: State, t: nat, p: nat)
    requires CanAdvance(s, t) && s.threads[t].pc.PostUnlock?
    requires ThreadInv(s, t) && p == s.workers[s.threads[t].pc.w].send
    ensures ThreadInv(Step(s, t), t)
  {
  }

  lemma PostUnlockPipe(s: State, t: nat, p: nat)
    requires CanAdvance(s, t) && s.threads[t].pc.PostUnlock?
    requires ThreadInv(s, t) && p == s.workers[s.threads[t].pc.w].send && PipeInv(s, p)
    ensures PipeInv(Step(s, t), p)
  {
  }

  lemma PostUnlockLocal(s: State, t: nat, p: nat)
    requires CanAdvance(s, t) && s.threads[t].pc.PostUnlock?
    requires ThreadInv(s, t) && p == s.workers[s.threads[t].pc.w].send && PipeInv(s, p)
    ensures Local(s, Step(s, t), t, p, |s.sabs|, |s.workers|)
  {
    PostUnlockCounts(s, t, p);
    PostUnlockThread(s, t, p);
    PostUnlockPipe(s, t, p);
  }

  lemma PostDupKeeps(s: State, t: nat)
    requires Inv(s) && CanAdvance(s, t) && s.threads[t].pc.PostDup?
    ensures Inv(Step(s, t))
  {
    var pc := s.threads[t].pc;
    assert ThreadInv(s, t);
    if pc.i < |pc.msg.sabs| {
      var b := pc.msg.sabs[pc.i];
      HeldSabIsAlive(s, t, b);
      DupOneLocal(s, t, b);
      LocalKeeps(s, Step(s, t), t, |s.pipes|, b, |s.workers|);
    } else {
      var p := s.workers[pc.w].send;
      assert PipeInv(s, p);
      PostLockLocal(s, t, p);
      LocalKeeps(s, Step(s, t), t, p, |s.sabs|, |s.workers|);
    }
  }

  lemma PostPipe(s: State, t: nat)
    requires Inv(s) && CanAdvance(s, t)
    requires s.threads[t].pc.PostTest? || s.threads[t].pc.PostLink? || s.threads[t].pc.PostUnlock?
    ensures var w := s.threads[t].pc.w;
            && ThreadInv(s, t) && Owns(s, t, w) && WorkerInv(s, w)
            && s.workers[w].send < |s.pipes| && PipeInv(s, s.workers[w].send) && s.pipes[s.workers[w].send].life.Live?
  {
    var w := s.threads[t].pc.w;
    assert ThreadInv(s, t);
    assert WorkerInv(s, w);
    OwnedPipesAreAlive(s, t, w);
    assert PipeInv(s, s.workers[w].send);
  }

  lemma PostKeeps(s: State, t: nat)
    requires Inv(s) && CanAdvance(s, t)
    requires s.threads[t].pc.PostTest? || s.threads[t].pc.PostLink? || s.threads[t].pc.PostUnlock?
    ensures Inv(Step(s, t))
  {
    PostPipe(s, t);
    PostLocal(s, t, s.workers[s.threads[t].pc.w].send);
    LocalKeeps(s, Step(s, t), t, s.workers[s.threads[t].pc.w].send, |s.sabs|, |s.workers|);
  }

  lemma PostLocal(s: State, t: nat, p: nat)
    requires CanAdvance(s, t) && (s.threads[t].pc.PostTest? || s.threads[t].pc.PostLink? || s.threads[t].pc.PostUnlock?)
    requires ThreadInv(s, t) && WorkerInv(s, s.threads[t].pc.w) && p == s.workers[s.threads[t].pc.w].send
    requires PipeInv(s, p) && s.pipes[p].life.Live?
    ensures Local(s, Step(s, t), t, p, |s.sabs|, |s.workers|)
  {
    match s.threads[t].pc {
      case PostTest(_, _) =>
        PostTestShape(s, t, p);
        PostTestBalanced(s, t, p);
      case PostLink(_, _) =>
        PostLinkShape(s, t, p);
        PostLinkBalanced(s, t, p);
      case PostUnlock(_) => PostUnlockLocal(s, t, p);
    }
  }

  // ---------------------------------------------------------------- handle_posted_message

  lemma TakeLockCounts(s: State, t: nat, p: nat)
    requires CanAdvance(s, t) && s.threads[t].pc.TakeLock?
    requires p == s.workers[s.threads[t].pc.w].recv
    ensures Touch(s, Step(s, t), t, p, |s.sabs|, |s.workers|)
    ensures Balanced(s, Step(s, t), t, p, |s.sabs|, |s.workers|)
  {
  }

  lemma TakeLockThread(s: State, t: nat, p: nat)
    requires CanAdvance(s, t) && s.threads[t].pc.TakeLock?
    requires ThreadInv(s, t) && p == s.workers[s.threads[t].pc.w].recv
    ensures ThreadInv(Step(s, t), t)
  {
  }

  lemma TakeLockPipe(s: State, t: nat, p: nat)
    requires CanAdvance(s, t) && s.threads[t].pc.TakeLock?
    requires ThreadInv(s, t) && p == s.workers[s.threads[t].pc.w].recv && PipeInv(s, p)
    ensures PipeInv(Step(s, t), p)
  {
  }

  lemma TakeLockLocal(s: State, t: nat, p: nat)
    requires CanAdvance(s, t) && s.threads[t].pc.TakeLock?
    requires ThreadInv(s, t) && p == s.workers[s.threads[t].pc.w].recv && PipeInv(s, p)
    ensures Local(s, Step(s, t), t, p, |s.sabs|, |s.workers|)
  {
    TakeLockCounts(s, t, p);
    TakeLockThread(s, t, p);
    TakeLockPipe(s, t, p);
  }

  lemma UnlinkShapeTouch(s: State, t: nat, p: nat)
    requires CanAdvance(s, t) && s.threads[t].pc.TakeTest?
    requires p == s.workers[s.threads[t].pc.w].recv
    requires s.pipes[p].life.Live?
    requires s.pipes[p].queue != []
    ensures Touch(s, Step(s, t), t, p, |s.sabs|, |s.workers|)
  {
  }

  lemma UnlinkThread(s: State, t: nat, p: nat)
    requires CanAdvance(s, t) && s.threads[t].pc.TakeTest?
    requires ThreadInv(s, t) && p == s.workers[s.threads[t].pc.w].recv && PipeInv(s, p) && WorkerInv(s, s.threads[t].pc.w)
    requires s.pipes[p].life.Live?
    requires s.pipes[p].queue != []
    ensures ThreadInv(Step(s, t), t)
  {
  }

  lemma UnlinkPipe(s: State, t: nat, p: nat)
    requires CanAdvance(s, t) && s.threads[t].pc.TakeTest?
    requires ThreadInv(s, t) && p == s.workers[s.threads[t].pc.w].recv && PipeInv(s, p) && WorkerInv(s, s.threads[t].pc.w)
    requires s.pipes[p].life.Live?
    requires s.pipes[p].queue != []
    ensures PipeInv(Step(s, t), p)
  {
  }

  lemma UnlinkShape(s: State, t: nat, p: nat)
    requires CanAdvance(s, t) && s.threads[t].pc.TakeTest?
    requires ThreadInv(s, t) && p == s.workers[s.threads[t].pc.w].recv && PipeInv(s, p) && WorkerInv(s, s.threads[t].pc.w)
    requires s.pipes[p].life.Live?
    requires s.pipes[p].queue != []
    ensures Touch(s, Step(s, t), t, p, |s.sabs|, |s.workers|) && TouchedOk(s, Step(s, t), t, p, |s.sabs|, |s.workers|)
  {
    UnlinkShapeTouch(s, t, p);
    UnlinkThread(s, t, p);
    UnlinkPipe(s, t, p);
  }

  lemma EmptyShape(s: State, t: nat, p: nat)
    requires CanAdvance(s, t) && s.threads[t].pc.TakeTest?
    requires ThreadInv(s, t) && p == s.workers[s.threads[t].pc.w].recv && PipeInv(s, p) && WorkerInv(s, s.threads[t].pc.w)
    requires s.pipes[p].life.Live?
    requires s.pipes[p].queue == []
    ensures Touch(s, Step(s, t), t, p, |s.sabs|, |s.workers|) && TouchedOk(s, Step(s, t), t, p, |s.sabs|, |s.workers|)
  {
  }

  lemma TakeTestBalanced(s: State, t: nat, p: nat)
    requires CanAdvance(s, t) && s.threads[t].pc.TakeTest? && p == s.workers[s.threads[t].pc.w].recv
    requires Touch(s, Step(s, t), t, p, |s.sabs|, |s.workers|)
    ensures Balanced(s, Step(s, t), t, p, |s.sabs|, |s.workers|)
  {
    if s.pipes[p].queue == [] {
      assert Step(s, t).pipes == s.pipes;
    } else {
      TakeOneBalanced(s, t, p);
    }
  }

  lemma TakeOneBalanced(s: State, t: nat, p: nat)
    requires CanAdvance(s, t) && s.threads[t].pc.TakeTest? && p == s.workers[s.threads[t].pc.w].recv
    requires Touch(s, Step(s, t), t, p, |s.sabs|, |s.workers|) && s.pipes[p].queue != []
    ensures Balanced(s, Step(s, t), t, p, |s.sabs|, |s.workers|)
  {
    forall c | 0 <= c < |s.sabs|
      ensures QueueSabs(s.pipes[p].queue, c) == multiset(s.pipes[p].queue[0].sabs)[c] + QueueSabs(Step(s, t).pipes[p].queue, c)
    {
    }
  }

  lemma TakeClearCounts(s: State, t: nat, p: nat)
    requires CanAdvance(s, t) && s.threads[t].pc.TakeClear?
    requires p == s.workers[s.threads[t].pc.w].recv
    ensures Touch(s, Step(s, t), t, p, |s.sabs|, |s.workers|)
    ensures Balanced(s, Step(s, t), t, p, |s.sabs|, |s.workers|)
  {
  }

  lemma TakeClearThread(s: State, t: nat, p: nat)
    requires CanAdvance(s, t) && s.threads[t].pc.TakeClear?
    requires ThreadInv(s, t) && p == s.workers[s.threads[t].pc.w].recv
    ensures ThreadInv(Step(s, t), t)
  {
  }

  lemma TakeClearPipe(s: State, t: nat, p: nat)
    requires CanAdvance(s, t) && s.threads[t].pc.TakeClear?
    requires ThreadInv(s, t) && p == s.workers[s.threads[t].pc.w].recv && PipeInv(s, p)
    ensures PipeInv(Step(s, t), p)
  {
  }

  lemma TakeClearLocal(s: State, t: nat, p: nat)
    requires CanAdvance(s, t) && s.threads[t].pc.TakeClear?
    requires ThreadInv(s, t) && p == s.workers[s.threads[t].pc.w].recv && PipeInv(s, p)
    ensures Local(s, Step(s, t), t, p, |s.sabs|, |s.workers|)
  {
    TakeClearCounts(s, t, p);
    TakeClearThread(s, t, p);
    TakeClearPipe(s, t, p);
  }

  lemma TakeUnlockShapeTouch(s: State, t: nat, p: nat)
    requires CanAdvance(s, t) && (s.threads[t].pc.TakeUnlock? || s.threads[t].pc.TakeNone?)
    requires p == s.workers[s.threads[t].pc.w].recv
    ensures Touch(s, Step(s, t), t, p, |s.sabs|, |s.workers|)
  {
  }

  lemma TakeUnlockThread(s: State, t: nat, p: nat)
    requires CanAdvance(s, t) && (s.threads[t].pc.TakeUnlock? || s.threads[t].pc.TakeNone?)
    requires ThreadInv(s, t) && p == s.workers[s.threads[t].pc.w].recv
    ensures ThreadInv(Step(s, t), t)
  {
  }

  lemma TakeUnlockPipe(s: State, t: nat, p: nat)
    requires CanAdvance(s, t) && (s.threads[t].pc.TakeUnlock? || s.threads[t].pc.TakeNone?)
    requires ThreadInv(s, t) && p == s.workers[s.threads[t].pc.w].recv && PipeInv(s, p)
    ensures PipeInv(Step(s, t), p)
  {
  }

  lemma TakeUnlockShape(s: State, t: nat, p: nat)
    requires CanAdvance(s, t) && (s.threads[t].pc.TakeUnlock? || s.threads[t].pc.TakeNone?)
    requires ThreadInv(s, t) && p == s.workers[s.threads[t].pc.w].recv && PipeInv(s, p)
    ensures Touch(s, Step(s, t), t, p, |s.sabs|, |s.workers|) && TouchedOk(s, Step(s, t), t, p, |s.sabs|, |s.workers|)
  {
    TakeUnlockShapeTouch(s, t, p);
    TakeUnlockThread(s, t, p);
    TakeUnlockPipe(s, t, p);
  }

  lemma TakeUnlockBalanced(s: State, t: nat, p: nat)
    requires CanAdvance(s, t) && (s.threads[t].pc.TakeUnlock? || s.threads[t].pc.TakeNone?)
    requires p == s.workers[s.threads[t].pc.w].recv
    requires Touch(s, Step(s, t), t, p, |s.sabs|, |s.workers|)
    ensures Balanced(s, Step(s, t), t, p, |s.sabs|, |s.workers|)
  {
  }

  lemma TakeLockKeeps(s: State, t: nat)
    requires Inv(s) && CanAdvance(s, t) && (s.threads[t].pc.TakeLock? || s.threads[t].pc.TakeTest?)
    ensures Inv(Step(s, t))
  {
    var pc := s.threads[t].pc;
    assert ThreadInv(s, t);
    var p := s.workers[pc.w].recv;
    assert PipeInv(s, p) && WorkerInv(s, pc.w);
    OwnedPipesAreAlive(s, t, pc.w);
    if pc.TakeLock? {
      TakeLockLocal(s, t, p);
    } else {
      if s.pipes[p].queue != [] {
        UnlinkShape(s, t, p);
      } else {
        EmptyShape(s, t, p);
      }
      TakeTestBalanced(s, t, p);
    }
    LocalKeeps(s, Step(s, t), t, p, |s.sabs|, |s.workers|);
  }

  lemma TakeUnlockKeeps(s: State, t: nat)
    requires Inv(s) && CanAdvance(s, t)
    requires s.threads[t].pc.TakeClear? || s.threads[t].pc.TakeUnlock? || s.threads[t].pc.TakeNone?
    ensures Inv(Step(s, t))
  {
    var pc := s.threads[t].pc;
    assert ThreadInv(s, t);
    var p := s.workers[pc.w].recv;
    assert PipeInv(s, p);
    if pc.TakeClear? {
      TakeClearLocal(s, t, p);
    } else {
      TakeUnlockShape(s, t, p);
      TakeUnlockBalanced(s, t, p);
    }
    LocalKeeps(s, Step(s, t), t, p, |s.sabs|, |s.workers|);
  }

  // ---------------------------------------------------------------- JS_ReadObject, js_free_message

  lemma ReadOneCounts(s: State, t: nat, b: nat)
    requires CanAdvance(s, t) && s.threads[t].pc.Reading? && s.threads[t].pc.i < |s.threads[t].pc.msg.sabs|
    requires b == s.threads[t].pc.msg.sabs[s.threads[t].pc.i] && SabAlive(s, b)
    ensures Touch(s, Step(s, t), t, |s.pipes|, b, |s.workers|)
    ensures Balanced(s, Step(s, t), t, |s.pipes|, b, |s.workers|)
  {
  }

  lemma ReadOneThread(s: State, t: nat, b: nat)
    requires CanAdvance(s, t) && s.threads[t].pc.Reading? && s.threads[t].pc.i < |s.threads[t].pc.msg.sabs|
    requires ThreadInv(s, t) && b == s.threads[t].pc.msg.sabs[s.threads[t].pc.i] && SabAlive(s, b)
    ensures ThreadInv(Step(s, t), t)
  {
  }

  lemma ReadOneLocal(s: State, t: nat, b: nat)
    requires CanAdvance(s, t) && s.threads[t].pc.Reading? && s.threads[t].pc.i < |s.threads[t].pc.msg.sabs|
    requires ThreadInv(s, t) && b == s.threads[t].pc.msg.sabs[s.threads[t].pc.i] && SabAlive(s, b)
    ensures Local(s, Step(s, t), t, |s.pipes|, b, |s.workers|)
  {
    ReadOneCounts(s, t, b);
    ReadOneThread(s, t, b);
  }

  lemma ReadEndLocal(s: State, t: nat)
    requires t < |s.threads| && s.threads[t].pc.Reading? && ThreadInv(s, t)
    ensures Local(s, SetPc(s, t, Freeing(s.threads[t].pc.msg.sabs, None)), t, |s.pipes|, |s.sabs|, |s.workers|)
  {
  }

  lemma FreeOneLocal(s: State, t: nat, b: nat, p: nat)
    requires CanAdvance(s, t) && s.threads[t].pc.Freeing? && s.threads[t].pc.rest != []
    requires ThreadInv(s, t) && b == s.threads[t].pc.rest[0] && SabAlive(s, b)
    requires p == (if s.threads[t].pc.of.Some? then s.threads[t].pc.of.value else |s.pipes|)
    requires p < |s.pipes| ==> PipeInv(s, p)
    ensures Local(s, Step(s, t), t, p, b, |s.workers|)
  {
    FreeOneShape(s, t, b, p);
    FreeOneBalanced(s, t, b, p);
  }

  lemma FreeOneShapeTouch(s: State, t: nat, b: nat, p: nat)
    requires CanAdvance(s, t) && s.threads[t].pc.Freeing? && s.threads[t].pc.rest != []
    requires b == s.threads[t].pc.rest[0] && SabAlive(s, b)
    requires p == (if s.threads[t].pc.of.Some? then s.threads[t].pc.of.value else |s.pipes|)
    ensures Touch(s, Step(s, t), t, p, b, |s.workers|)
  {
  }

  lemma FreeOneThread(s: State, t: nat, b: nat, p: nat)
    requires CanAdvance(s, t) && s.threads[t].pc.Freeing? && s.threads[t].pc.rest != []
    requires ThreadInv(s, t) && b == s.threads[t].pc.rest[0] && SabAlive(s, b)
    requires p == (if s.threads[t].pc.of.Some? then s.threads[t].pc.of.value else |s.pipes|)
    ensures ThreadInv(Step(s, t), t)
  {
  }

  lemma FreeOnePipe(s: State, t: nat, b: nat, p: nat)
    requires CanAdvance(s, t) && s.threads[t].pc.Freeing? && s.threads[t].pc.rest != []
    requires ThreadInv(s, t) && b == s.threads[t].pc.rest[0] && SabAlive(s, b)
    requires p == (if s.threads[t].pc.of.Some? then s.threads[t].pc.of.value else |s.pipes|)
    requires p < |s.pipes| ==> PipeInv(s, p)
    ensures p < |s.pipes| ==> PipeInv(Step(s, t), p)
  {
  }

  lemma FreeOneShape(s: State, t: nat, b: nat, p: nat)
    requires CanAdvance(s, t) && s.threads[t].pc.Freeing? && s.threads[t].pc.rest != []
    requires ThreadInv(s, t) && b == s.threads[t].pc.rest[0] && SabAlive(s, b)
    requires p == (if s.threads[t].pc.of.Some? then s.threads[t].pc.of.value else |s.pipes|)
    requires p < |s.pipes| ==> PipeInv(s, p)
    ensures Touch(s, Step(s, t), t, p, b, |s.workers|) && TouchedOk(s, Step(s, t), t, p, b, |s.workers|)
  {
    FreeOneShapeTouch(s, t, b, p);
    FreeOneThread(s, t, b, p);
    FreeOnePipe(s, t, b, p);
  }

  lemma FreeOneBalanced(s: State, t: nat, b: nat, p: nat)
    requires CanAdvance(s, t) && s.threads[t].pc.Freeing? && s.threads[t].pc.rest != []
    requires b == s.threads[t].pc.rest[0] < |s.sabs|
    requires Touch(s, Step(s, t), t, p, b, |s.workers|)
    ensures Balanced(s, Step(s, t), t, p, b, |s.workers|)
  {
    DropOne(s.threads[t].pc.rest);
  }

  lemma FreeEndCounts(s: State, t: nat, p: nat)
    requires CanAdvance(s, t) && s.threads[t].pc.Freeing? && s.threads[t].pc.rest == []
    requires p == (if s.threads[t].pc.of.Some? then s.threads[t].pc.of.value else |s.pipes|)
    ensures Touch(s, Step(s, t), t, p, |s.sabs|, |s.workers|)
    ensures Balanced(s, Step(s, t), t, p, |s.sabs|, |s.workers|)
  {
  }

  lemma FreeEndThread(s: State, t: nat, p: nat)
    requires CanAdvance(s, t) && s.threads[t].pc.Freeing? && s.threads[t].pc.rest == [] && ThreadInv(s, t)
    requires p == (if s.threads[t].pc.of.Some? then s.threads[t].pc.of.value else |s.pipes|)
    ensures ThreadInv(Step(s, t), t)
  {
  }

  lemma FreeEndPipe(s: State, t: nat, p: nat)
    requires CanAdvance(s, t) && s.threads[t].pc.Freeing? && s.threads[t].pc.rest == [] && ThreadInv(s, t)
    requires p == (if s.threads[t].pc.of.Some? then s.threads[t].pc.of.value else |s.pipes|)
    requires p < |s.pipes| ==> PipeInv(s, p)
    ensures p < |s.pipes| ==> PipeInv(Step(s, t), p)
  {
  }

  lemma FreeEndLocal(s: State, t: nat, p: nat)
    requires CanAdvance(s, t) && s.threads[t].pc.Freeing? && s.threads[t].pc.rest == [] && ThreadInv(s, t)
    requires p == (if s.threads[t].pc.of.Some? then s.threads[t].pc.of.value else |s.pipes|)
    requires p < |s.pipes| ==> PipeInv(s, p)
    ensures Local(s, Step(s, t), t, p, |s.sabs|, |s.workers|)
  {
    FreeEndCounts(s, t, p);
    FreeEndThread(s, t, p);
    FreeEndPipe(s, t, p);
  }

  lemma ReadKeeps(s: State, t: nat)
    requires Inv(s) && CanAdvance(s, t) && s.threads[t].pc.Reading?
    ensures Inv(Step(s, t))
  {
    var pc := s.threads[t].pc;
    assert ThreadInv(s, t);
    if pc.i < |pc.msg.sabs| {
      var b := pc.msg.sabs[pc.i];
      HeldSabIsAlive(s, t, b);
      ReadOneLocal(s, t, b);
      LocalKeeps(s, Step(s, t), t, |s.pipes|, b, |s.workers|);
    } else {
      ReadEndLocal(s, t);
      LocalKeeps(s, Step(s, t), t, |s.pipes|, |s.sabs|, |s.workers|);
    }
  }

  lemma FreeKeeps(s: State, t: nat)
    requires Inv(s) && CanAdvance(s, t) && s.threads[t].pc.Freeing?
    ensures Inv(Step(s, t))
  {
    var pc := s.threads[t].pc;
    assert ThreadInv(s, t);
    var p := if pc.of.Some? then pc.of.value else |s.pipes|;
    assert p < |s.pipes| ==> PipeInv(s, p);
    if pc.rest != [] {
      HeldSabIsAlive(s, t, pc.rest[0]);
      FreeOneLocal(s, t, pc.rest[0], p);
      LocalKeeps(s, Step(s, t), t, p, pc.rest[0], |s.workers|);
    } else {
      FreeEndLocal(s, t, p);
      LocalKeeps(s, Step(s, t), t, p, |s.sabs|, |s.workers|);
    }
  }

  // ---------------------------------------------------------------- js_free_message_pipe

  lemma ReleaseShapeTouch(s: State, t: nat, p: nat)
    requires CanAdvance(s, t) && s.threads[t].pc.Releasing? && s.threads[t].todo != [] && p == s.threads[t].todo[0]
    requires s.pipes[p].life.Live?
    ensures Touch(s, Step(s, t), t, p, |s.sabs|, |s.workers|)
  {
  }

  lemma ReleaseThread(s: State, t: nat, p: nat)
    requires CanAdvance(s, t) && s.threads[t].pc.Releasing? && s.threads[t].todo != [] && p == s.threads[t].todo[0]
    requires ThreadInv(s, t) && s.pipes[p].life.Live?
    ensures ThreadInv(Step(s, t), t)
  {
  }

  lemma ReleasePipe(s: State, t: nat, p: nat)
    requires CanAdvance(s, t) && s.threads[t].pc.Releasing? && s.threads[t].todo != [] && p == s.threads[t].todo[0]
    requires ThreadInv(s, t) && PipeInv(s, p) && s.pipes[p].life.Live?
    ensures PipeInv(Step(s, t), p)
  {
  }

  lemma ReleaseShape(s: State, t: nat, p: nat)
    requires CanAdvance(s, t) && s.threads[t].pc.Releasing? && s.threads[t].todo != [] && p == s.threads[t].todo[0]
    requires ThreadInv(s, t) && PipeInv(s, p) && s.pipes[p].life.Live?
    ensures Touch(s, Step(s, t), t, p, |s.sabs|, |s.workers|) && TouchedOk(s, Step(s, t), t, p, |s.sabs|, |s.workers|)
  {
    ReleaseShapeTouch(s, t, p);
    ReleaseThread(s, t, p);
    ReleasePipe(s, t, p);
  }

  lemma ReleaseBalanced(s: State, t: nat, p: nat)
    requires CanAdvance(s, t) && s.threads[t].pc.Releasing? && s.threads[t].todo != [] && p == s.threads[t].todo[0]
    requires Touch(s, Step(s, t), t, p, |s.sabs|, |s.workers|)
    ensures Balanced(s, Step(s, t), t, p, |s.sabs|, |s.workers|)
  {
    DropOne(s.threads[t].todo);
  }

  lemma ReleaseEndLocal(s: State, t: nat)
    requires CanAdvance(s, t) && s.threads[t].pc.Releasing? && s.threads[t].todo == [] && ThreadInv(s, t)
    ensures Local(s, Step(s, t), t, |s.pipes|, |s.sabs|, |s.workers|)
  {
  }

  lemma DrainOneShape(s: State, t: nat, p: nat)
    requires CanAdvance(s, t) && s.threads[t].pc == Draining(p)
    requires ThreadInv(s, t) && PipeInv(s, p)
    requires s.pipes[p].queue != []
    ensures Touch(s, Step(s, t), t, p, |s.sabs|, |s.workers|) && TouchedOk(s, Step(s, t), t, p, |s.sabs|, |s.workers|)
  {
  }

  lemma DrainEndShape(s: State, t: nat, p: nat)
    requires CanAdvance(s, t) && s.threads[t].pc == Draining(p)
    requires ThreadInv(s, t) && PipeInv(s, p)
    requires s.pipes[p].queue == []
    ensures Touch(s, Step(s, t), t, p, |s.sabs|, |s.workers|) && TouchedOk(s, Step(s, t), t, p, |s.sabs|, |s.workers|)
  {
  }

  lemma DrainBalanced(s: State, t: nat, p: nat)
    requires CanAdvance(s, t) && s.threads[t].pc == Draining(p)
    requires Touch(s, Step(s, t), t, p, |s.sabs|, |s.workers|)
    ensures Balanced(s, Step(s, t), t, p, |s.sabs|, |s.workers|)
  {
  }

  lemma ReleaseKeeps(s: State, t: nat)
    requires Inv(s) && CanAdvance(s, t)
    requires var pc := s.threads[t].pc; pc.Releasing? || pc.Draining?
    ensures Inv(Step(s, t))
  {
    assert ThreadInv(s, t);
    if s.threads[t].pc.Draining? {
      DrainKeeps(s, t, s.threads[t].pc.p);
    } else if s.threads[t].todo == [] {
      ReleaseEndLocal(s, t);
      LocalKeeps(s, Step(s, t), t, |s.pipes|, |s.sabs|, |s.workers|);
    } else {
      var p := s.threads[t].todo[0];
      assert PipeInv(s, p);
      HeldPipeIsAlive(s, t, p);
      ReleaseShape(s, t, p);
      ReleaseBalanced(s, t, p);
      LocalKeeps(s, Step(s, t), t, p, |s.sabs|, |s.workers|);
    }
  }

  lemma DrainKeeps(s: State, t: nat, p: nat)
    requires Inv(s) && CanAdvance(s, t) && s.threads[t].pc == Draining(p)
    ensures Inv(Step(s, t))
  {
    assert ThreadInv(s, t) && PipeInv(s, p);
    if s.pipes[p].queue != [] {
      DrainOneShape(s, t, p);
    } else {
      DrainEndShape(s, t, p);
    }
    DrainBalanced(s, t, p);
    LocalKeeps(s, Step(s, t), t, p, |s.sabs|, |s.workers|);
  }

  // ---------------------------------------------------------------- things that grow

  lemma NoThreadPipes(s: State, t: nat, p: nat)
    requires t < |s.threads| && ThreadInv(s, t) && |s.pipes| <= p
    ensures ThreadPipes(s.threads[t], p) == 0
  {
    var th := s.threads[t];
    assert p !in th.todo;
  }

  /** Nothing refers to a pipe that does not exist yet. */
  lemma NoPipeHolders(s: State, p: nat)
    requires Shape(s) && |s.pipes| <= p
    ensures PipeHolders(s, p) == 0
  {
    forall i | 0 <= i < |s.threads| ensures ThreadPipeCounts(s.threads, p)[i] == 0 {
      assert ThreadInv(s, i);
      NoThreadPipes(s, i, p);
    }
    forall i | 0 <= i < |s.workers| ensures WorkerPipeCounts(s.workers, p)[i] == 0 {
      assert WorkerInv(s, i);
    }
    TotalZero(ThreadPipeCounts(s.threads, p));
    TotalZero(WorkerPipeCounts(s.workers, p));
  }

  lemma NoThreadSabs(s: State, t: nat, b: nat)
    requires t < |s.threads| && ThreadInv(s, t) && |s.sabs| <= b
    ensures ThreadSabs(s.threads[t], b) == 0
  {
    var th := s.threads[t];
    assert b !in th.handles;
    match th.pc
    case PostDup(_, msg, i) => assert b !in msg.sabs[..i];
    case PostTest(_, msg) => assert b !in msg.sabs;
    case PostLink(_, msg) => assert b !in msg.sabs;
    case TakeClear(_, msg) => assert b !in msg.sabs;
    case TakeUnlock(_, msg) => assert b !in msg.sabs;
    case Reading(msg, _) => assert b !in msg.sabs;
    case Freeing(rest, _) => assert b !in rest;
    case _ =>
  }

  lemma {:induction false} NoQueueSabs(s: State, q: seq<Message>, b: nat)
    requires |s.sabs| <= b && forall k :: 0 <= k < |q| ==> SabsIn(s, q[k].sabs)
    ensures QueueSabs(q, b) == 0
  {
    if q != [] {
      assert SabsIn(s, q[0].sabs);
      assert b !in q[0].sabs;
      NoQueueSabs(s, q[1..], b);
    }
  }

  lemma NoSabHolders(s: State, b: nat)
    requires Shape(s) && |s.sabs| <= b
    ensures SabHolders(s, b) == 0
  {
    forall i | 0 <= i < |s.threads| ensures ThreadSabCounts(s.threads, b)[i] == 0 {
      assert ThreadInv(s, i);
      NoThreadSabs(s, i, b);
    }
    forall i | 0 <= i < |s.pipes| ensures QueueSabCounts(s.pipes, b)[i] == 0 {
      assert PipeInv(s, i);
      NoQueueSabs(s, s.pipes[i].queue, b);
    }
    TotalZero(ThreadSabCounts(s.threads, b));
    TotalZero(QueueSabCounts(s.pipes, b));
  }

  /** The lists only get longer, and of the existing threads only t, which holds no mutex, may change. */
  predicate Extends(s: State, s': State, t: nat) {
    && 0 < |s.threads| <= |s'.threads| && t < |s.threads|
    && (forall u :: 0 <= u < |s.threads| && u != t ==> s'.threads[u] == s.threads[u])
    && s.pipes <= s'.pipes && s.sabs <= s'.sabs && s.workers <= s'.workers
    && (t != 0 ==> |s.pipes| == |s'.pipes|)
    && s'.threads[t].recv == s.threads[t].recv && s'.threads[t].send == s.threads[t].send
    && Held(s, t).None? && Held(s', t).None?
    && Drained(s.threads[t].pc).None? && Drained(s'.threads[t].pc).None?
    && Frontier(s) <= Frontier(s') <= |s'.pipes|
  }

  lemma ExtendThread(s: State, s': State, t: nat, u: nat)
    requires Extends(s, s', t) && u < |s.threads| && u != t && ThreadInv(s, u)
    ensures ThreadInv(s', u) && Held(s', u) == Held(s, u)
  {
    ExtendPc(s, s', t, u);
  }

  lemma ExtendPc(s: State, s': State, t: nat, u: nat)
    requires Extends(s, s', t) && u < |s.threads| && u != t && PcInv(s, u)
    ensures PcInv(s', u) && Held(s', u) == Held(s, u)
  {
  }

  lemma ExtendPipe(s: State, s': State, t: nat, p: nat)
    requires Extends(s, s', t) && p < |s.pipes| && PipeInv(s, p)
    requires s.pipes[p].lock.Some? ==> Held(s', s.pipes[p].lock.value) == Held(s, s.pipes[p].lock.value)
    ensures PipeInv(s', p)
  {
    var x := s'.pipes[p];
    assert x == s.pipes[p];
    forall k | k in x.takers ensures IsReceiver(s', p, k) { assert IsReceiver(s, p, k); }
    forall k | 0 <= k < |x.posted| ensures IsSender(s', p, x.posted[k].sender) { assert IsSender(s, p, x.posted[k].sender); }
  }

  lemma ExtendShape(s: State, s': State, t: nat)
    requires Shape(s) && Extends(s, s', t) && ThreadInv(s', t)
    requires forall u :: |s.threads| <= u < |s'.threads| ==> ThreadInv(s', u)
    requires ThreadsOrdered(s')
    requires forall p :: |s.pipes| <= p < |s'.pipes| ==> PipeInv(s', p)
    requires forall w :: |s.workers| <= w < |s'.workers| ==> WorkerInv(s', w)
    requires forall b :: |s.sabs| <= b < |s'.sabs| ==> s'.sabs[b].frees == Ind(s'.sabs[b].refs == 0)
    ensures Shape(s')
  {
    forall u | 0 <= u < |s.threads| ensures ThreadInv(s', u) {
      if u != t {
        assert ThreadInv(s, u);
        ExtendThread(s, s', t, u);
      }
    }
    forall p | 0 <= p < |s.pipes| ensures PipeInv(s', p) {
      assert PipeInv(s, p);
      var k := s.pipes[p].lock;
      if k.Some? {
        assert ThreadInv(s, k.value);
        ExtendThread(s, s', t, k.value);
      }
      ExtendPipe(s, s', t, p);
    }
    forall w | 0 <= w < |s.workers| ensures WorkerInv(s', w) {
      assert WorkerInv(s, w);
    }
  }

  /** State s with a buffer that nobody refers to yet. */
  function WithSab(s: State): State { s.(sabs := s.sabs + [Sab(0, 1)]) }

  /** State s with another worker object. */
  function WithWorker(s: State, o: Worker): State { s.(workers := s.workers + [o]) }

  lemma GrowSabHolders(s: State, b: nat)
    ensures SabHolders(WithSab(s), b) == SabHolders(s, b)
  {
  }

  lemma GrowSabPipeHolders(s: State, p: nat)
    ensures PipeHolders(WithSab(s), p) == PipeHolders(s, p)
  {
  }

  lemma GrowSabConserves(s: State)
    requires Conserved(s) && SabHolders(s, |s.sabs|) == 0
    ensures Conserved(WithSab(s))
  {
    forall p | 0 <= p < |s.pipes| ensures s.pipes[p].refs == PipeHolders(WithSab(s), p) {
      GrowSabPipeHolders(s, p);
    }
    forall b | 0 <= b <= |s.sabs| ensures WithSab(s).sabs[b].refs == SabHolders(WithSab(s), b) {
      GrowSabHolders(s, b);
    }
  }

  lemma GrowSabSelf(s: State, t: nat)
    requires t < |s.threads| && ThreadInv(s, t) && ThreadInv(s, 0) && s.threads[t].pc.Idle?
    ensures Extends(s, WithSab(s), t) && ThreadInv(WithSab(s), t)
  {
  }

  lemma GrowSab(s: State, t: nat)
    requires Inv(s) && t < |s.threads| && s.threads[t].pc.Idle?
    ensures Inv(WithSab(s))
  {
    assert ThreadInv(s, t) && ThreadInv(s, 0);
    GrowSabSelf(s, t);
    ExtendShape(s, WithSab(s), t);
    NoSabHolders(s, |s.sabs|);
    GrowSabConserves(s);
  }

  lemma GrowWorkerConserves(s: State, o: Worker)
    requires Conserved(s) && !o.alive
    ensures Conserved(WithWorker(s, o))
  {
    var s' := WithWorker(s, o);
    forall p | 0 <= p < |s.pipes| ensures PipeHolders(s', p) == PipeHolders(s, p) {
      assert WorkerPipeCounts(s'.workers, p) == WorkerPipeCounts(s.workers, p) + [0];
      TotalAppend(WorkerPipeCounts(s.workers, p), 0);
    }
    forall b | 0 <= b < |s.sabs| ensures SabHolders(s', b) == SabHolders(s, b) {}
  }

  lemma GrowWorkerSelf(s: State, t: nat, o: Worker)
    requires t < |s.threads| && ThreadInv(s, t) && ThreadInv(s, 0) && Held(s, t).None? && Drained(s.threads[t].pc).None?
    requires s.threads[t].pc.Ctor3? || s.threads[t].pc.Parent?
    ensures Extends(s, WithWorker(s, o), t) && ThreadInv(WithWorker(s, o), t)
  {
  }

  lemma GrowWorker(s: State, t: nat, o: Worker)
    requires Inv(s) && !o.alive && t < |s.threads|
    requires s.threads[t].pc.Ctor3? || s.threads[t].pc.Parent?
    requires o.owner < |s.threads| && o.recv < |s.pipes| && o.send < |s.pipes|
    requires o.owner == 0 ==> o.recv == o.send + 1 && s.pipes[o.send].down && !s.pipes[o.recv].down
    requires o.owner > 0 ==> o.recv == s.threads[o.owner].recv && o.send == s.threads[o.owner].send
    ensures Inv(WithWorker(s, o))
  {
    GrowWorkerShape(s, t, o);
    GrowWorkerConserves(s, o);
  }

  lemma GrowWorkerShape(s: State, t: nat, o: Worker)
    requires Shape(s) && t < |s.threads| && (s.threads[t].pc.Ctor3? || s.threads[t].pc.Parent?)
    requires WorkerInv(WithWorker(s, o), |s.workers|)
    ensures Shape(WithWorker(s, o))
  {
    assert ThreadInv(s, t) && ThreadInv(s, 0);
    GrowWorkerSelf(s, t, o);
    ExtendShape(s, WithWorker(s, o), t);
  }

  /** The main thread allocates a pipe and holds its only reference. */
  function WithPipe(s: State, down: bool, pc: Pc): State
    requires 0 < |s.threads|
  {
    SetPc(s.(pipes := s.pipes + [NewPipe(down)]), 0, pc)
  }

  lemma GrowPipeConserves(s: State, down: bool, pc: Pc)
    requires 0 < |s.threads| && Conserved(s) && PipeHolders(s, |s.pipes|) == 0
    requires forall q :: PcPipes(pc, q) == PcPipes(s.threads[0].pc, q) + Ind(q == |s.pipes|)
    requires forall c :: PcSabs(pc, c) == PcSabs(s.threads[0].pc, c)
    ensures Conserved(WithPipe(s, down, pc))
  {
    var s' := WithPipe(s, down, pc);
    forall q | 0 <= q <= |s.pipes| ensures s'.pipes[q].refs == PipeHolders(s', q) {
      GrowPipeHolders(s, down, pc, q);
    }
    forall c | 0 <= c < |s.sabs| ensures s'.sabs[c].refs == SabHolders(s', c) {
      GrowPipeSabHolders(s, down, pc, c);
    }
  }

  lemma GrowPipeHolders(s: State, down: bool, pc: Pc, q: nat)
    requires 0 < |s.threads| && PcPipes(pc, q) == PcPipes(s.threads[0].pc, q) + Ind(q == |s.pipes|)
    ensures PipeHolders(WithPipe(s, down, pc), q) == PipeHolders(s, q) + Ind(q == |s.pipes|)
  {
    var s' := WithPipe(s, down, pc);
    TotalUpdate(ThreadPipeCounts(s.threads, q), 0, ThreadPipes(s'.threads[0], q));
    assert ThreadPipeCounts(s'.threads, q) == ThreadPipeCounts(s.threads, q)[0 := ThreadPipes(s'.threads[0], q)];
  }

  lemma GrowPipeSabHolders(s: State, down: bool, pc: Pc, c: nat)
    requires 0 < |s.threads| && PcSabs(pc, c) == PcSabs(s.threads[0].pc, c)
    ensures SabHolders(WithPipe(s, down, pc), c) == SabHolders(s, c)
  {
    var s' := WithPipe(s, down, pc);
    assert ThreadSabCounts(s'.threads, c) == ThreadSabCounts(s.threads, c);
    assert QueueSabCounts(s'.pipes, c) == QueueSabCounts(s.pipes, c) + [0];
    TotalAppend(QueueSabCounts(s.pipes, c), 0);
  }

  lemma GrowPipeSelf(s: State, down: bool, pc: Pc)
    requires 0 < |s.threads| && ThreadInv(s, 0)
    requires (s.threads[0].pc.Idle? && down && pc == Ctor1(|s.pipes|))
          || (s.threads[0].pc.Ctor1? && !down && pc == Ctor2(s.threads[0].pc.recv, |s.pipes|))
    ensures Extends(s, WithPipe(s, down, pc), 0) && ThreadInv(WithPipe(s, down, pc), 0)
    ensures PipeInv(WithPipe(s, down, pc), |s.pipes|)
  {
  }

  lemma GrowPipe(s: State, down: bool, pc: Pc)
    requires Inv(s)
    requires (s.threads[0].pc.Idle? && down && pc == Ctor1(|s.pipes|))
          || (s.threads[0].pc.Ctor1? && !down && pc == Ctor2(s.threads[0].pc.recv, |s.pipes|))
    ensures Inv(WithPipe(s, down, pc))
  {
    GrowPipeShape(s, down, pc);
    NoPipeHolders(s, |s.pipes|);
    GrowPipeConserves(s, down, pc);
  }

  lemma GrowPipeShape(s: State, down: bool, pc: Pc)
    requires Shape(s)
    requires (s.threads[0].pc.Idle? && down && pc == Ctor1(|s.pipes|))
          || (s.threads[0].pc.Ctor1? && !down && pc == Ctor2(s.threads[0].pc.recv, |s.pipes|))
    ensures Shape(WithPipe(s, down, pc))
  {
    assert ThreadInv(s, 0);
    GrowPipeSelf(s, down, pc);
    ExtendShape(s, WithPipe(s, down, pc), 0);
  }

  // ---------------------------------------------------------------- js_worker_ctor, Worker.parent

  /** The references of the constructor's arguments become those of the new thread. */
  lemma SpawnMovesPipes(s: State, q: nat)
    requires CanAdvance(s, 0) && s.threads[0].pc.Ctor4?
    ensures PipeHolders(Step(s, 0), q) == PipeHolders(s, q)
  {
    var s' := Step(s, 0);
    var counts, mine, theirs := ThreadPipeCounts(s.threads, q), ThreadPipes(s'.threads[0], q), ThreadPipes(s'.threads[|s.threads|], q);
    SpawnSplits(s, q);
    assert ThreadPipeCounts(s'.threads, q) == counts[0 := mine] + [theirs];
    TotalUpdate(counts, 0, mine);
    TotalAppend(counts[0 := mine], theirs);
  }

  lemma SpawnSplits(s: State, q: nat)
    requires CanAdvance(s, 0) && s.threads[0].pc.Ctor4?
    ensures var s' := Step(s, 0);
            ThreadPipes(s'.threads[0], q) + ThreadPipes(s'.threads[|s.threads|], q) == ThreadPipes(s.threads[0], q)
  {
  }

  lemma SpawnMovesSabs(s: State, c: nat)
    requires CanAdvance(s, 0) && s.threads[0].pc.Ctor4?
    ensures SabHolders(Step(s, 0), c) == SabHolders(s, c)
  {
    assert ThreadSabCounts(Step(s, 0).threads, c) == ThreadSabCounts(s.threads, c) + [0];
    TotalAppend(ThreadSabCounts(s.threads, c), 0);
  }

  lemma SpawnConserves(s: State)
    requires CanAdvance(s, 0) && s.threads[0].pc.Ctor4? && Conserved(s)
    ensures Conserved(Step(s, 0))
  {
    forall q | 0 <= q < |s.pipes| ensures PipeHolders(Step(s, 0), q) == PipeHolders(s, q) { SpawnMovesPipes(s, q); }
    forall c | 0 <= c < |s.sabs| ensures SabHolders(Step(s, 0), c) == SabHolders(s, c) { SpawnMovesSabs(s, c); }
  }

  lemma SpawnSelf(s: State)
    requires CanAdvance(s, 0) && s.threads[0].pc.Ctor4? && ThreadInv(s, 0)
    ensures Extends(s, Step(s, 0), 0) && ThreadInv(Step(s, 0), 0) && ThreadInv(Step(s, 0), |s.threads|)
  {
  }

  lemma SpawnOrdered(s: State)
    requires CanAdvance(s, 0) && s.threads[0].pc.Ctor4? && ThreadsOrdered(s)
    requires forall t :: 0 <= t < |s.threads| ==> ThreadInv(s, t)
    ensures ThreadsOrdered(Step(s, 0))
  {
    forall t | 0 < t < |s.threads| ensures s.threads[t].send < s.threads[0].pc.recv {
      assert ThreadInv(s, t);
    }
  }

  lemma SpawnShape(s: State)
    requires Shape(s) && CanAdvance(s, 0) && s.threads[0].pc.Ctor4?
    ensures Shape(Step(s, 0))
  {
    assert ThreadInv(s, 0);
    SpawnSelf(s);
    SpawnOrdered(s);
    ExtendShape(s, Step(s, 0), 0);
  }

  lemma SpawnKeeps(s: State)
    requires Inv(s) && CanAdvance(s, 0) && s.threads[0].pc.Ctor4?
    ensures Inv(Step(s, 0))
  {
    SpawnShape(s);
    SpawnConserves(s);
  }

  lemma CtorObjectCounts(s: State)
    requires CanAdvance(s, 0) && s.threads[0].pc.Ctor2?
    requires s.pipes[s.threads[0].pc.send].life.Live?
    ensures Touch(s, Step(s, 0), 0, s.threads[0].pc.send, |s.sabs|, |s.workers|)
    ensures Balanced(s, Step(s, 0), 0, s.threads[0].pc.send, |s.sabs|, |s.workers|)
  {
  }

  lemma CtorObjectThread(s: State)
    requires CanAdvance(s, 0) && s.threads[0].pc.Ctor2? && ThreadInv(s, 0)
    requires s.pipes[s.threads[0].pc.send].life.Live?
    ensures ThreadInv(Step(s, 0), 0)
  {
  }

  lemma CtorObjectPipe(s: State)
    requires CanAdvance(s, 0) && s.threads[0].pc.Ctor2? && ThreadInv(s, 0)
    requires PipeInv(s, s.threads[0].pc.send) && s.pipes[s.threads[0].pc.send].life.Live?
    ensures PipeInv(Step(s, 0), s.threads[0].pc.send)
  {
  }

  lemma CtorObjectLocal(s: State)
    requires CanAdvance(s, 0) && s.threads[0].pc.Ctor2? && ThreadInv(s, 0)
    requires PipeInv(s, s.threads[0].pc.send) && s.pipes[s.threads[0].pc.send].life.Live?
    ensures Local(s, Step(s, 0), 0, s.threads[0].pc.send, |s.sabs|, |s.workers|)
  {
    CtorObjectCounts(s);
    CtorObjectThread(s);
    CtorObjectPipe(s);
  }

  /** The object becomes live on the worker slot `w`, gaining the second of its two references. */
  function Born(s: State, t: nat, p: nat, w: nat, pc: Pc): State
    requires t < |s.threads| && p < |s.pipes| && w < |s.workers|
  {
    SetPc(AddRef(s, p, 1).(workers := s.workers[w := s.workers[w].(alive := true)]), t, pc)
  }

  lemma CtorBornCounts(s: State, w: nat)
    requires 0 < |s.threads| && s.threads[0].pc.Ctor3? && ThreadInv(s, 0)
    requires var Ctor3(recv, send) := s.threads[0].pc; w < |s.workers| && s.workers[w] == Worker(0, send, recv, false, false)
    requires s.pipes[s.threads[0].pc.recv].life.Live?
    ensures var Ctor3(recv, send) := s.threads[0].pc; var s' := Born(s, 0, recv, w, Ctor4(recv, send, w));
            Touch(s, s', 0, recv, |s.sabs|, w) && Balanced(s, s', 0, recv, |s.sabs|, w)
  {
  }

  lemma CtorBornThread(s: State, w: nat)
    requires 0 < |s.threads| && s.threads[0].pc.Ctor3? && ThreadInv(s, 0)
    requires var Ctor3(recv, send) := s.threads[0].pc; w < |s.workers| && s.workers[w] == Worker(0, send, recv, false, false)
    requires s.pipes[s.threads[0].pc.recv].life.Live?
    ensures var Ctor3(recv, send) := s.threads[0].pc; ThreadInv(Born(s, 0, recv, w, Ctor4(recv, send, w)), 0)
  {
  }

  lemma CtorBornPipe(s: State, w: nat)
    requires 0 < |s.threads| && s.threads[0].pc.Ctor3? && ThreadInv(s, 0)
    requires var Ctor3(recv, send) := s.threads[0].pc; w < |s.workers| && s.workers[w] == Worker(0, send, recv, false, false)
    requires PipeInv(s, s.threads[0].pc.recv) && s.pipes[s.threads[0].pc.recv].life.Live?
    ensures var Ctor3(recv, send) := s.threads[0].pc; PipeInv(Born(s, 0, recv, w, Ctor4(recv, send, w)), recv)
  {
  }

  lemma CtorBornLocal(s: State, w: nat)
    requires 0 < |s.threads| && s.threads[0].pc.Ctor3? && ThreadInv(s, 0)
    requires var Ctor3(recv, send) := s.threads[0].pc; w < |s.workers| && s.workers[w] == Worker(0, send, recv, false, false)
    requires PipeInv(s, s.threads[0].pc.recv) && s.pipes[s.threads[0].pc.recv].life.Live?
    ensures var Ctor3(recv, send) := s.threads[0].pc;
            Local(s, Born(s, 0, recv, w, Ctor4(recv, send, w)), 0, recv, |s.sabs|, w)
  {
    CtorBornCounts(s, w);
    CtorBornThread(s, w);
    CtorBornPipe(s, w);
  }

  lemma ParentBornCounts(s: State, t: nat, w: nat)
    requires 0 < t < |s.threads| && s.threads[t].pc.Parent? && ThreadInv(s, t)
    requires var Parent(recv, send) := s.threads[t].pc; w < |s.workers| && s.workers[w] == Worker(t, recv, send, false, false)
    requires s.pipes[s.threads[t].send].life.Live?
    ensures Touch(s, Born(s, t, s.threads[t].send, w, Idle), t, s.threads[t].send, |s.sabs|, w)
    ensures Balanced(s, Born(s, t, s.threads[t].send, w, Idle), t, s.threads[t].send, |s.sabs|, w)
  {
  }

  lemma ParentBornThread(s: State, t: nat, w: nat)
    requires 0 < t < |s.threads| && s.threads[t].pc.Parent? && ThreadInv(s, t)
    requires var Parent(recv, send) := s.threads[t].pc; w < |s.workers| && s.workers[w] == Worker(t, recv, send, false, false)
    requires s.pipes[s.threads[t].send].life.Live?
    ensures ThreadInv(Born(s, t, s.threads[t].send, w, Idle), t)
  {
  }

  lemma ParentBornPipe(s: State, t: nat, w: nat)
    requires 0 < t < |s.threads| && s.threads[t].pc.Parent? && ThreadInv(s, t)
    requires var Parent(recv, send) := s.threads[t].pc; w < |s.workers| && s.workers[w] == Worker(t, recv, send, false, false)
    requires PipeInv(s, s.threads[t].send) && s.pipes[s.threads[t].send].life.Live?
    ensures PipeInv(Born(s, t, s.threads[t].send, w, Idle), s.threads[t].send)
  {
  }

  lemma ParentBornLocal(s: State, t: nat, w: nat)
    requires 0 < t < |s.threads| && s.threads[t].pc.Parent? && ThreadInv(s, t)
    requires var Parent(recv, send) := s.threads[t].pc; w < |s.workers| && s.workers[w] == Worker(t, recv, send, false, false)
    requires PipeInv(s, s.threads[t].send) && s.pipes[s.threads[t].send].life.Live?
    ensures Local(s, Born(s, t, s.threads[t].send, w, Idle), t, s.threads[t].send, |s.sabs|, w)
  {
    ParentBornCounts(s, t, w);
    ParentBornThread(s, t, w);
    ParentBornPipe(s, t, w);
  }

  lemma CtorObjectKeeps(s: State)
    requires Inv(s) && CanAdvance(s, 0) && s.threads[0].pc.Ctor2?
    ensures Inv(Step(s, 0))
  {
    assert ThreadInv(s, 0);
    var send := s.threads[0].pc.send;
    assert PipeInv(s, send);
    HeldPipeIsAlive(s, 0, send);
    CtorObjectLocal(s);
    LocalKeeps(s, Step(s, 0), 0, send, |s.sabs|, |s.workers|);
  }

  lemma CtorIsBorn(s: State)
    requires CanAdvance(s, 0) && s.threads[0].pc.Ctor3?
    ensures var Ctor3(recv, send) := s.threads[0].pc; var w := |s.workers|;
            Step(s, 0) == Born(WithWorker(s, Worker(0, send, recv, false, false)), 0, recv, w, Ctor4(recv, send, w))
  {
    var Ctor3(recv, send) := s.threads[0].pc;
    var dead := Worker(0, send, recv, false, false);
    assert (s.workers + [dead])[|s.workers| := dead.(alive := true)] == s.workers + [dead.(alive := true)];
  }

  lemma ParentIsBorn(s: State, t: nat)
    requires CanAdvance(s, t) && s.threads[t].pc.Parent? && s.threads[t].pc == Parent(s.threads[t].recv, s.threads[t].send)
    ensures var th := s.threads[t];
            Step(s, t) == Born(WithWorker(s, Worker(t, th.recv, th.send, false, false)), t, th.send, |s.workers|, Idle)
  {
    var dead := Worker(t, s.threads[t].recv, s.threads[t].send, false, false);
    assert (s.workers + [dead])[|s.workers| := dead.(alive := true)] == s.workers + [dead.(alive := true)];
  }

  lemma CtorBornKeeps(s: State)
    requires Inv(s) && CanAdvance(s, 0) && s.threads[0].pc.Ctor3?
    ensures Inv(Step(s, 0))
  {
    var Ctor3(recv, send) := s.threads[0].pc;
    assert ThreadInv(s, 0);
    var w := |s.workers|;
    var s1 := WithWorker(s, Worker(0, send, recv, false, false));
    GrowWorker(s, 0, Worker(0, send, recv, false, false));
    assert ThreadInv(s1, 0) && PipeInv(s1, recv);
    HeldPipeIsAlive(s1, 0, recv);
    CtorBornLocal(s1, w);
    LocalKeeps(s1, Born(s1, 0, recv, w, Ctor4(recv, send, w)), 0, recv, |s.sabs|, w);
    CtorIsBorn(s);
  }

  lemma ParentBornKeeps(s: State, t: nat)
    requires Inv(s) && CanAdvance(s, t) && s.threads[t].pc.Parent?
    ensures Inv(Step(s, t))
  {
    assert ThreadInv(s, t);
    var recv, send := s.threads[t].recv, s.threads[t].send;
    var w := |s.workers|;
    var s1 := WithWorker(s, Worker(t, recv, send, false, false));
    GrowWorker(s, t, Worker(t, recv, send, false, false));
    assert ThreadInv(s1, t) && PipeInv(s1, send);
    HeldPipeIsAlive(s1, t, send);
    ParentBornLocal(s1, t, w);
    LocalKeeps(s1, Born(s1, t, send, w, Idle), t, send, |s.sabs|, w);
    ParentIsBorn(s, t);
  }

  // ---------------------------------------------------------------- failing branches

  lemma CtorFailLocal(s: State)
    requires CanFail(s, 0) && (s.threads[0].pc.Ctor1? || s.threads[0].pc.Ctor2?) && ThreadInv(s, 0)
    ensures Local(s, FailStep(s, 0), 0, |s.pipes|, |s.sabs|, |s.workers|)
  {
  }

  lemma CtorUndoCounts(s: State)
    requires CanFail(s, 0) && s.threads[0].pc.Ctor4? && ThreadInv(s, 0)
    ensures Touch(s, FailStep(s, 0), 0, |s.pipes|, |s.sabs|, s.threads[0].pc.w)
    ensures Balanced(s, FailStep(s, 0), 0, |s.pipes|, |s.sabs|, s.threads[0].pc.w)
  {
    var th := s.threads[0];
    var th' := FailStep(s, 0).threads[0];
    forall q | 0 <= q < |s.pipes| ensures ThreadPipes(th', q) == ThreadPipes(th, q) + WorkerPipes(s.workers[th.pc.w], q) {
      UndoMoves(th, s.workers[th.pc.w], q);
    }
  }

  /** The references of the constructor and of its object become pending releases. */
  lemma UndoMoves(th: Thread, o: Worker, q: nat)
    requires th.pc.Ctor4? && th.todo == [] && o.alive && !o.port
    ensures ThreadPipes(th.(pc := Releasing, todo := [th.pc.recv, th.pc.send, o.recv, o.send]), q) == ThreadPipes(th, q) + WorkerPipes(o, q)
  {
    FourOf(th.pc.recv, th.pc.send, o.recv, o.send, q);
  }

  lemma FourOf(x: nat, y: nat, z: nat, u: nat, q: nat)
    ensures multiset([x, y, z, u])[q] == Ind(x == q) + Ind(y == q) + Ind(z == q) + Ind(u == q)
  {
    TwoOf(x, y, q);
    TwoOf(z, u, q);
    assert [x, y, z, u] == [x, y] + [z, u];
    assert multiset([x, y] + [z, u]) == multiset([x, y]) + multiset([z, u]);
  }

  lemma CtorUndoThread(s: State)
    requires CanFail(s, 0) && s.threads[0].pc.Ctor4? && ThreadInv(s, 0)
    ensures ThreadInv(FailStep(s, 0), 0)
  {
  }

  lemma CtorUndoLocal(s: State)
    requires CanFail(s, 0) && s.threads[0].pc.Ctor4? && ThreadInv(s, 0)
    ensures Local(s, FailStep(s, 0), 0, |s.pipes|, |s.sabs|, s.threads[0].pc.w)
  {
    CtorUndoCounts(s);
    CtorUndoThread(s);
  }

  lemma FailKeeps(s: State, t: nat)
    requires Inv(s) && CanFail(s, t)
    ensures Inv(FailStep(s, t))
  {
    assert ThreadInv(s, t);
    if s.threads[t].pc.Reading? {
      ReadEndLocal(s, t);
      LocalKeeps(s, FailStep(s, t), t, |s.pipes|, |s.sabs|, |s.workers|);
    } else {
      CtorFailKeeps(s);
    }
  }

  lemma CtorFailKeeps(s: State)
    requires Inv(s) && CanFail(s, 0) && !s.threads[0].pc.Reading?
    ensures Inv(FailStep(s, 0))
  {
    assert ThreadInv(s, 0);
    if s.threads[0].pc.Ctor4? {
      CtorUndoLocal(s);
      LocalKeeps(s, FailStep(s, 0), 0, |s.pipes|, |s.sabs|, s.threads[0].pc.w);
    } else {
      CtorFailLocal(s);
      LocalKeeps(s, FailStep(s, 0), 0, |s.pipes|, |s.sabs|, |s.workers|);
    }
  }

  // ---------------------------------------------------------------- commands of an idle thread

  /** Thread t takes the first reference to the unused buffer b. */
  function Claimed(s: State, t: nat, b: nat): State
    requires t < |s.threads| && b < |s.sabs|
  {
    var th := s.threads[t];
    SetThread(s.(sabs := s.sabs[b := Sab(1, 0)]), t, th.(handles := th.handles + multiset{b}))
  }

  lemma ClaimLocal(s: State, t: nat, b: nat)
    requires t < |s.threads| && s.threads[t].pc.Idle? && ThreadInv(s, t) && b < |s.sabs| && s.sabs[b] == Sab(0, 1)
    ensures Local(s, Claimed(s, t, b), t, |s.pipes|, b, |s.workers|)
  {
  }

  lemma NewSabIsClaimed(s: State, t: nat)
    requires CanStart(s, t, NewSab)
    ensures StartStep(s, t, NewSab) == Claimed(WithSab(s), t, |s.sabs|)
  {
    assert (s.sabs + [Sab(0, 1)])[|s.sabs| := Sab(1, 0)] == s.sabs + [Sab(1, 0)];
  }

  lemma NewSabKeeps(s: State, t: nat)
    requires Inv(s) && CanStart(s, t, NewSab)
    ensures Inv(StartStep(s, t, NewSab))
  {
    GrowSab(s, t);
    assert ThreadInv(WithSab(s), t);
    ClaimLocal(WithSab(s), t, |s.sabs|);
    LocalKeeps(WithSab(s), Claimed(WithSab(s), t, |s.sabs|), t, |s.pipes|, |s.sabs|, |s.workers|);
    NewSabIsClaimed(s, t);
  }

  lemma HandleLocal(s: State, t: nat, c: Command, b: nat)
    requires CanStart(s, t, c) && ThreadInv(s, t) && b < |s.sabs|
    requires c == DupHandle(b) && SabAlive(s, b)
    ensures Local(s, StartStep(s, t, c), t, |s.pipes|, b, |s.workers|)
  {
  }

  lemma LeaveLocal(s: State, t: nat, c: Command)
    requires CanStart(s, t, c) && ThreadInv(s, t)
    requires c.DropHandle? || c.Stop?
    ensures Local(s, StartStep(s, t, c), t, |s.pipes|, |s.sabs|, |s.workers|)
  {
    LeaveInOrder(s, t, c);
    LeaveBalances(s, t, c);
  }

  lemma LeaveInOrder(s: State, t: nat, c: Command)
    requires CanStart(s, t, c) && ThreadInv(s, t)
    requires c.DropHandle? || c.Stop?
    ensures
      var s' := StartStep(s, t, c);
      Touch(s, s', t, |s.pipes|, |s.sabs|, |s.workers|) && TouchedOk(s, s', t, |s.pipes|, |s.sabs|, |s.workers|)
  {
  }

  lemma LeaveBalances(s: State, t: nat, c: Command)
    requires CanStart(s, t, c) && s.threads[t].todo == []
    requires (c.DropHandle? || c.Stop?) && Touch(s, StartStep(s, t, c), t, |s.pipes|, |s.sabs|, |s.workers|)
    ensures Balanced(s, StartStep(s, t, c), t, |s.pipes|, |s.sabs|, |s.workers|)
  {
    if c.Stop? {
      StopBalances(s, t);
    } else {
      DropBalances(s, t, c);
    }
  }

  lemma DropBalances(s: State, t: nat, c: Command)
    requires CanStart(s, t, c) && c.DropHandle? && Touch(s, StartStep(s, t, c), t, |s.pipes|, |s.sabs|, |s.workers|)
    ensures Balanced(s, StartStep(s, t, c), t, |s.pipes|, |s.sabs|, |s.workers|)
  {
  }

  lemma StopBalances(s: State, t: nat)
    requires CanStart(s, t, Stop) && s.threads[t].todo == []
    requires Touch(s, StartStep(s, t, Stop), t, |s.pipes|, |s.sabs|, |s.workers|)
    ensures Balanced(s, StartStep(s, t, Stop), t, |s.pipes|, |s.sabs|, |s.workers|)
  {
    var th := s.threads[t];
    forall q | 0 <= q < |s.pipes| ensures ThreadPipes(StartStep(s, t, Stop).threads[t], q) == ThreadPipes(th, q) {
      TwoOf(th.recv, th.send, q);
    }
  }

  lemma BeginLocal(s: State, t: nat, c: Command)
    requires CanStart(s, t, c) && ThreadInv(s, t)
    requires c.Post? || c.Take?
    ensures Local(s, StartStep(s, t, c), t, |s.pipes|, |s.sabs|, |s.workers|)
  {
  }

  lemma SetPortLocal(s: State, t: nat, w: nat)
    requires CanStart(s, t, SetPort(w)) && !s.workers[w].port && ThreadInv(s, t)
    requires PipeInv(s, s.workers[w].recv) && s.pipes[s.workers[w].recv].life.Live?
    ensures Local(s, StartStep(s, t, SetPort(w)), t, s.workers[w].recv, |s.sabs|, w)
  {
  }

  lemma FinalizeLocal(s: State, t: nat, c: Command)
    requires CanStart(s, t, c) && ThreadInv(s, t)
    requires c.Finalize?
    ensures Local(s, StartStep(s, t, c), t, |s.pipes|, |s.sabs|, c.w)
  {
    FinalizeInOrder(s, t, c);
    FinalizeBalances(s, t, c);
  }

  lemma FinalizeInOrder(s: State, t: nat, c: Command)
    requires CanStart(s, t, c) && ThreadInv(s, t)
    requires c.Finalize?
    ensures Touch(s, StartStep(s, t, c), t, |s.pipes|, |s.sabs|, c.w) && TouchedOk(s, StartStep(s, t, c), t, |s.pipes|, |s.sabs|, c.w)
  {
  }

  lemma FinalizeBalances(s: State, t: nat, c: Command)
    requires CanStart(s, t, c) && s.threads[t].todo == []
    requires c.Finalize? && Touch(s, StartStep(s, t, c), t, |s.pipes|, |s.sabs|, c.w)
    ensures Balanced(s, StartStep(s, t, c), t, |s.pipes|, |s.sabs|, c.w)
  {
    var th, o := s.threads[t], s.workers[c.w];
    var th' := Released(th, o);
    assert StartStep(s, t, c).threads[t] == th';
    forall q | 0 <= q < |s.pipes| ensures ThreadPipes(th', q) == ThreadPipes(th, q) + WorkerPipes(o, q) {
      FinalizeMoves(th, o, q);
    }
    forall b | 0 <= b < |s.sabs| ensures ThreadSabs(th', b) == ThreadSabs(th, b) {
    }
  }

  function Released(th: Thread, o: Worker): Thread {
    th.(pc := Releasing, todo := [o.recv, o.send] + (if o.port then [o.recv] else []))
  }

  lemma TwoOf(x: nat, y: nat, q: nat)
    ensures multiset([x, y])[q] == Ind(x == q) + Ind(y == q)
  {
  }

  /** The references of a worker object move to the thread that finalizes it. */
  lemma FinalizeMoves(th: Thread, o: Worker, q: nat)
    requires th.pc.Idle? && th.todo == [] && o.alive
    ensures ThreadPipes(Released(th, o), q) == ThreadPipes(th, q) + WorkerPipes(o, q)
  {
    TwoOf(o.recv, o.send, q);
    assert [o.recv, o.send] + [] == [o.recv, o.send];
    assert multiset([o.recv, o.send] + [o.recv])[q] == multiset([o.recv, o.send])[q] + multiset([o.recv])[q];
  }

  lemma ClearPortCounts(s: State, t: nat, c: Command)
    requires CanStart(s, t, c) && ThreadInv(s, t)
    requires c.ClearPort? && s.workers[c.w].port
    ensures Touch(s, StartStep(s, t, c), t, |s.pipes|, |s.sabs|, c.w)
    ensures Balanced(s, StartStep(s, t, c), t, |s.pipes|, |s.sabs|, c.w)
  {
    var recv := s.workers[c.w].recv;
    forall q | 0 <= q < |s.pipes| ensures multiset([recv])[q] == Ind(recv == q) {
    }
  }

  lemma ClearPortThread(s: State, t: nat, c: Command)
    requires CanStart(s, t, c) && ThreadInv(s, t)
    requires c.ClearPort? && s.workers[c.w].port
    ensures ThreadInv(StartStep(s, t, c), t)
  {
  }

  lemma ClearPortLocal(s: State, t: nat, c: Command)
    requires CanStart(s, t, c) && ThreadInv(s, t)
    requires c.ClearPort? && s.workers[c.w].port
    ensures Local(s, StartStep(s, t, c), t, |s.pipes|, |s.sabs|, c.w)
  {
    ClearPortCounts(s, t, c);
    ClearPortThread(s, t, c);
  }

  lemma NewParentCounts(s: State, t: nat)
    requires CanStart(s, t, NewParent)
    requires s.pipes[s.threads[t].recv].life.Live?
    ensures Touch(s, StartStep(s, t, NewParent), t, s.threads[t].recv, |s.sabs|, |s.workers|)
    ensures Balanced(s, StartStep(s, t, NewParent), t, s.threads[t].recv, |s.sabs|, |s.workers|)
  {
  }

  lemma NewParentThread(s: State, t: nat)
    requires CanStart(s, t, NewParent) && ThreadInv(s, t)
    requires s.pipes[s.threads[t].recv].life.Live?
    ensures ThreadInv(StartStep(s, t, NewParent), t)
  {
  }

  lemma NewParentPipe(s: State, t: nat)
    requires CanStart(s, t, NewParent) && ThreadInv(s, t)
    requires PipeInv(s, s.threads[t].recv) && s.pipes[s.threads[t].recv].life.Live?
    ensures PipeInv(StartStep(s, t, NewParent), s.threads[t].recv)
  {
  }

  lemma NewParentLocal(s: State, t: nat)
    requires CanStart(s, t, NewParent) && ThreadInv(s, t)
    requires PipeInv(s, s.threads[t].recv) && s.pipes[s.threads[t].recv].life.Live?
    ensures Local(s, StartStep(s, t, NewParent), t, s.threads[t].recv, |s.sabs|, |s.workers|)
  {
    NewParentCounts(s, t);
    NewParentThread(s, t);
    NewParentPipe(s, t);
  }

  lemma HandleKeeps(s: State, t: nat, c: Command)
    requires Inv(s) && CanStart(s, t, c) && (c.NewSab? || c.DupHandle? || c.DropHandle? || c.Stop?)
    ensures Inv(StartStep(s, t, c))
  {
    assert ThreadInv(s, t);
    if c.NewSab? {
      NewSabKeeps(s, t);
    } else if c.DupHandle? {
      HeldSabIsAlive(s, t, c.b);
      HandleLocal(s, t, c, c.b);
      LocalKeeps(s, StartStep(s, t, c), t, |s.pipes|, c.b, |s.workers|);
    } else {
      LeaveLocal(s, t, c);
      LocalKeeps(s, StartStep(s, t, c), t, |s.pipes|, |s.sabs|, |s.workers|);
    }
  }

  lemma ObjectKeeps(s: State, t: nat, c: Command)
    requires Inv(s) && CanStart(s, t, c) && (c.SetPort? || c.ClearPort? || c.Finalize?)
    ensures Inv(StartStep(s, t, c))
  {
    assert ThreadInv(s, t);
    if c.SetPort? && !s.workers[c.w].port {
      SetPortKeeps(s, t, c.w);
    } else if c.ClearPort? && s.workers[c.w].port {
      ClearPortLocal(s, t, c);
      LocalKeeps(s, StartStep(s, t, c), t, |s.pipes|, |s.sabs|, c.w);
    } else if c.Finalize? {
      FinalizeLocal(s, t, c);
      LocalKeeps(s, StartStep(s, t, c), t, |s.pipes|, |s.sabs|, c.w);
    }
  }

  lemma SetPortKeeps(s: State, t: nat, w: nat)
    requires Inv(s) && CanStart(s, t, SetPort(w)) && !s.workers[w].port
    ensures Inv(StartStep(s, t, SetPort(w)))
  {
    assert ThreadInv(s, t) && PipeInv(s, s.workers[w].recv);
    OwnedPipesAreAlive(s, t, w);
    SetPortLocal(s, t, w);
    LocalKeeps(s, StartStep(s, t, SetPort(w)), t, s.workers[w].recv, |s.sabs|, w);
  }

  lemma BeginKeeps(s: State, t: nat, c: Command)
    requires Inv(s) && CanStart(s, t, c) && (c.Post? || c.Take? || c.NewWorker? || c.NewParent?)
    ensures Inv(StartStep(s, t, c))
  {
    assert ThreadInv(s, t);
    if c.NewWorker? {
      GrowPipe(s, true, Ctor1(|s.pipes|));
    } else if c.NewParent? {
      var p := s.threads[t].recv;
      assert PipeInv(s, p);
      HeldPipeIsAlive(s, t, p);
      NewParentLocal(s, t);
      LocalKeeps(s, StartStep(s, t, c), t, p, |s.sabs|, |s.workers|);
    } else {
      BeginLocal(s, t, c);
      LocalKeeps(s, StartStep(s, t, c), t, |s.pipes|, |s.sabs|, |s.workers|);
    }
  }

  // ---------------------------------------------------------------- every step

  lemma CtorKeeps(s: State, t: nat)
    requires Inv(s) && CanAdvance(s, t)
    requires var pc := s.threads[t].pc; pc.Ctor1? || pc.Ctor2? || pc.Ctor3? || pc.Ctor4? || pc.Parent?
    ensures Inv(Step(s, t))
  {
    assert ThreadInv(s, t);
    match s.threads[t].pc {
      case Ctor1(recv) => GrowPipe(s, false, Ctor2(recv, |s.pipes|));
      case Ctor2(_, _) => CtorObjectKeeps(s);
      case Ctor3(_, _) => CtorBornKeeps(s);
      case Ctor4(_, _, _) => SpawnKeeps(s);
      case Parent(_, _) => ParentBornKeeps(s, t);
    }
  }

  /** Every event of every thread keeps the invariant. */
  lemma NextKeeps(s: State, e: Event)
    requires Inv(s) && Enabled(s, e)
    ensures Inv(Next(s, e))
  {
    var t := e.thread;
    match e.action {
      case Fail => FailKeeps(s, t);
      case Start(c) =>
        if c.NewSab? || c.DupHandle? || c.DropHandle? || c.Stop? { HandleKeeps(s, t, c); }
        else if c.SetPort? || c.ClearPort? || c.Finalize? { ObjectKeeps(s, t, c); }
        else { BeginKeeps(s, t, c); }
      case Advance =>
        var pc := s.threads[t].pc;
        if pc.PostDup? { PostDupKeeps(s, t); }
        else if pc.PostTest? || pc.PostLink? || pc.PostUnlock? { PostKeeps(s, t); }
        else if pc.TakeLock? || pc.TakeTest? { TakeLockKeeps(s, t); }
        else if pc.TakeClear? || pc.TakeUnlock? || pc.TakeNone? { TakeUnlockKeeps(s, t); }
        else if pc.Reading? { ReadKeeps(s, t); }
        else if pc.Freeing? { FreeKeeps(s, t); }
        else if pc.Releasing? || pc.Draining? { ReleaseKeeps(s, t); }
        else { CtorKeeps(s, t); }
    }
  }
}
