/**
 * The loop of one thread: drain the job queue, then poll, where poll runs at most one signal,
 * timer, descriptor or message handler.
 *
 * What user code does is a parameter: a callback changes the timers and the lists in any way, adds
 * jobs and may throw.  The log records drains, jobs, polls and handler calls in order.
 */
module EventLoop {
  import opened Prelude
  import T = Timers
  import H = Handlers
  import TimerTheorems

  datatype ListOp = SetHandler(fd: int, side: H.Side, func: H.Argument) | SetOnMessage(worker: nat, func: H.Argument)

  datatype Callback = Callback(timerOps: seq<T.Op>, listOps: seq<ListOp>, jobs: nat, throws: bool)

  datatype Entry = Drain | Job(added: nat) | Poll | Call(added: nat)

  /** An element of the set handed to poll. */
  datatype Polled = Descriptor(fd: int, read: bool, write: bool) | Waker(worker: nat)

  /** What poll reported for one element. */
  datatype Ready = Ready(read: bool, write: bool)

  /**
   * The surroundings of one poll: the instant, the handler of a pending signal if there is one, what
   * the handler that gets called does, poll's reports (None for an error) and the workers with a queued message.
   */
  datatype Surroundings = Surroundings(now: int, signal: bool, callback: Callback, reports: Option<seq<Ready>>, messages: set<nat>)

  /** How the thread waited: not at all, asleep for some time, or in poll with a set and a time limit. */
  datatype Wait = NoWait | Asleep(ms: int) | Polling(entries: seq<Polled>, ms: int)

  datatype Status = Continue | Stop

  // ---------------------------------------------------------------- the poll set

  function HandlerSet(hs: seq<H.Handler>): seq<Polled> {
    if hs == [] then []
    else HandlerSet(hs[..|hs| - 1]) + EntryOf(hs[|hs| - 1])
  }

  function EntryOf(h: H.Handler): seq<Polled> {
    if h.read.Some? || h.write.Some? then [Descriptor(h.fd, h.read.Some?, h.write.Some?)] else []
  }

  function PortSet(ports: seq<H.Port>): seq<Polled> {
    if ports == [] then []
    else PortSet(ports[..|ports| - 1]) + (if ports[|ports| - 1].func.Some? then [Waker(ports[|ports| - 1].worker)] else [])
  }

  /** Every listed descriptor and port is polled. */
  lemma {:induction false} HandlersArePolled(hs: seq<H.Handler>)
    requires H.Valid(hs)
    ensures |HandlerSet(hs)| == |hs|
    ensures forall i :: 0 <= i < |hs| ==> HandlerSet(hs)[i] == Descriptor(hs[i].fd, hs[i].read.Some?, hs[i].write.Some?)
  {
    if hs != [] {
      HandlersArePolled(hs[..|hs| - 1]);
    }
  }

  lemma {:induction false} PortsArePolled(ports: seq<H.Port>)
    requires H.ValidPorts(ports)
    ensures |PortSet(ports)| == |ports|
    ensures forall i :: 0 <= i < |ports| ==> PortSet(ports)[i] == Waker(ports[i].worker)
  {
    if ports != [] {
      PortsArePolled(ports[..|ports| - 1]);
    }
  }

  /** A reported element with a handler for what was reported, or a port with a message waiting. */
  ghost predicate Serves(hs: seq<H.Handler>, ports: seq<H.Port>, e: Polled, report: Ready, messages: set<nat>) {
    match e
    case Descriptor(fd, _, _) =>
      (report.read && H.Lookup(hs, fd, H.Read).Some?) || (report.write && H.Lookup(hs, fd, H.Write).Some?)
    case Waker(worker) =>
      worker in messages && exists i :: 0 <= i < |ports| && ports[i].worker == worker && ports[i].func.Some?
  }

  // ---------------------------------------------------------------- the order of events

  /** What the log allows next: jobs while draining, then a poll, then at most one call. */
  datatype Phase = Draining(jobs: int) | InPoll | Called(jobs: int)

  function Advance(p: Option<Phase>, e: Entry): Option<Phase> {
    match (p, e)
    case (Some(Draining(j)), Job(added)) => if j > 0 then Some(Draining(j - 1 + added)) else None
    case (Some(Draining(j)), Poll) => if j == 0 then Some(InPoll) else None
    case (Some(InPoll), Call(added)) => Some(Called(added))
    case (Some(InPoll), Drain) => Some(Draining(0))
    case (Some(Called(j)), Drain) => Some(Draining(j))
    case _ => None
  }

  function Reached(start: nat, log: seq<Entry>): Option<Phase> {
    if log == [] then Some(Called(start)) else Advance(Reached(start, log[..|log| - 1]), log[|log| - 1])
  }

  lemma ReachedAppend(start: nat, log: seq<Entry>, e: Entry)
    ensures Reached(start, log + [e]) == Advance(Reached(start, log), e)
  {
    assert (log + [e])[..|log|] == log;
  }

  /** The jobs waiting after a log: those added, less those run. */
  function Waiting(start: nat, log: seq<Entry>): int {
    if log == [] then start
    else
      var before := Waiting(start, log[..|log| - 1]);
      match log[|log| - 1]
      case Job(added) => before - 1 + added
      case Call(added) => before + added
      case _ => before
  }

  lemma {:induction false} WaitingInPhase(start: nat, log: seq<Entry>)
    requires Reached(start, log).Some?
    ensures Waiting(start, log) ==
      match Reached(start, log).value { case Draining(j) => j case InPoll => 0 case Called(j) => j }
    decreases |log|
  {
    if log != [] {
      WaitingInPhase(start, log[..|log| - 1]);
    }
  }

  lemma {:induction false} PrefixAllowed(start: nat, log: seq<Entry>, k: nat)
    requires Reached(start, log).Some? && k <= |log|
    ensures Reached(start, log[..k]).Some?
    decreases |log|
  {
    if k == |log| {
      assert log[..k] == log;
    } else {
      PrefixAllowed(start, log[..|log| - 1], k);
      assert log[..|log| - 1][..k] == log[..k];
    }
  }

  /** No poll is entered while jobs are waiting. */
  lemma PollsWithEmptyQueue(start: nat, log: seq<Entry>, k: nat)
    requires Reached(start, log).Some? && k < |log| && log[k].Poll?
    ensures Waiting(start, log[..k]) == 0
  {
    PrefixAllowed(start, log, k + 1);
    assert log[..k + 1][..k] == log[..k];
    PrefixAllowed(start, log, k);
    WaitingInPhase(start, log[..k]);
  }

  /** Between two handler calls lies a drain. */
  lemma {:induction false} OneCallBetweenDrains(start: nat, log: seq<Entry>, i: nat, j: nat)
    requires Reached(start, log).Some? && i < j < |log| && log[i].Call? && log[j].Call?
    ensures Drain in log[i..j]
  {
    if Drain !in log[i..j] {
      CallsStay(start, log, i, j);
      PrefixAllowed(start, log, j + 1);
    }
  }

  /** After a call nothing but a drain is possible. */
  lemma {:induction false} CallsStay(start: nat, log: seq<Entry>, i: nat, j: nat)
    requires Reached(start, log).Some? && i < j <= |log| && log[i].Call? && Drain !in log[i..j]
    ensures Reached(start, log[..j]).Some? && Reached(start, log[..j]).value.Called?
    decreases j
  {
    PrefixAllowed(start, log, j);
    assert log[..j][..j - 1] == log[..j - 1];
    if i + 1 < j {
      assert log[i..j] == log[i..j - 1] + [log[j - 1]];
      CallsStay(start, log, i, j - 1);
    } else {
      PrefixAllowed(start, log, i);
    }
  }

  // ---------------------------------------------------------------- what user code changes

  /** Everything callbacks can change but the job queue. */
  datatype World = World(timers: T.State, handlers: seq<H.Handler>, ports: seq<H.Port>)

  ghost predicate ValidWorld(w: World) {
    H.Valid(w.handlers) && H.ValidPorts(w.ports)
  }

  function Changed(w: World, op: ListOp): World {
    match op
    case SetHandler(fd, side, func) =>
      if func.NotAFunction? then w else w.(handlers := H.Changed(w.handlers, fd, side, H.Wanted(func)))
    case SetOnMessage(worker, func) =>
      if func.NotAFunction? then w else w.(ports := H.ChangedPorts(w.ports, worker, H.Wanted(func)))
  }

  function AllChanged(w: World, ops: seq<ListOp>): World {
    if ops == [] then w else Changed(AllChanged(w, ops[..|ops| - 1]), ops[|ops| - 1])
  }

  /** The world after a callback ran. */
  function Ran(w: World, now: int, c: Callback): World {
    AllChanged(w.(timers := T.AllApplied(w.timers, now, c.timerOps)), c.listOps)
  }

  function AllRan(w: World, now: int, cs: seq<Callback>): World {
    if cs == [] then w else Ran(AllRan(w, now, cs[..|cs| - 1]), now, cs[|cs| - 1])
  }

  // ---------------------------------------------------------------- what one poll does

  /** A timer has expired. */
  predicate TimerDue(w: World, now: int) {
    T.FirstExpired(w.timers.timers, now) < |w.timers.timers|
  }

  /** The wait computed from the timers: -1 when there are none. */
  function WaitFor(w: World, now: int): int {
    if w.timers.timers == [] then -1 else T.WaitOf(w.timers.timers, now, |w.timers.timers|)
  }

  function Entries(w: World): seq<Polled> {
    HandlerSet(w.handlers) + PortSet(w.ports)
  }

  lemma EntriesCount(w: World)
    requires ValidWorld(w)
    ensures |Entries(w)| == |w.handlers| + |w.ports|
  {
    HandlersArePolled(w.handlers);
    PortsArePolled(w.ports);
  }

  /** The first element, from k on, among those reported that has a handler to serve; or the number of them. */
  ghost function FirstServed(w: World, env: Surroundings, reports: seq<Ready>, k: nat): (r: nat)
    requires k <= Min(|Entries(w)|, |reports|)
    ensures k <= r <= Min(|Entries(w)|, |reports|)
    ensures r < Min(|Entries(w)|, |reports|) ==> Serves(w.handlers, w.ports, Entries(w)[r], reports[r], env.messages)
    ensures forall i :: k <= i < r ==> !Serves(w.handlers, w.ports, Entries(w)[i], reports[i], env.messages)
    decreases |reports| - k
  {
    if k == Min(|Entries(w)|, |reports|) || Serves(w.handlers, w.ports, Entries(w)[k], reports[k], env.messages) then k
    else FirstServed(w, env, reports, k + 1)
  }

  /** The thread waits in poll: no signal, nothing expired, and something is listed. */
  ghost predicate Polls(w: World, env: Surroundings) {
    !env.signal && !TimerDue(w, env.now) && WaitFor(w, env.now) != 0 && (w.handlers != [] || w.ports != [])
  }

  /** The element whose handler poll calls. */
  ghost function Served(w: World, env: Surroundings): Option<Polled> {
    if Polls(w, env) && env.reports.Some? && FirstServed(w, env, env.reports.value, 0) < Min(|Entries(w)|, |env.reports.value|)
    then Some(Entries(w)[FirstServed(w, env, env.reports.value, 0)]) else None
  }

  /** A handler is called. */
  ghost predicate Calls(w: World, env: Surroundings) {
    env.signal || TimerDue(w, env.now) || Served(w, env).Some?
  }

  /**
   * The loop ends: the handler of the signal, timer or descriptor threw, poll failed, or nothing is listed and
   * the computed wait is negative.  An exception of a message handler is only reported.
   */
  ghost predicate Ends(w: World, env: Surroundings) {
    if env.signal || TimerDue(w, env.now) then env.callback.throws
    else if Polls(w, env) then env.reports.None? || (Served(w, env).Some? && Served(w, env).value.Descriptor? && env.callback.throws)
    else WaitFor(w, env.now) < 0
  }

  ghost function PollWorld(w: World, env: Surroundings): World {
    if env.signal then Ran(w, env.now, env.callback)
    else if TimerDue(w, env.now) then AllChanged(w.(timers := T.Fired(w.timers, env.now, env.callback.timerOps)), env.callback.listOps)
    else if Served(w, env).Some? then Ran(w, env.now, env.callback)
    else w
  }

  /** No timer is expired and every remaining delay fits in an int. */
  ghost predicate Quiet(ts: seq<T.Timer>, now: int) {
    && T.FirstExpired(ts, now) == |ts|
    && forall i :: 0 <= i < |ts| ==> ts[i].timeout - now <= T.INT32_MAX
  }

  /** In other words: a handler other than a message handler threw, poll failed, or there was nothing to call or poll and the wait is negative. */
  lemma EndsMeaning(w: World, env: Surroundings)
    ensures Ends(w, env) <==>
      || (Calls(w, env) && env.callback.throws && !(Served(w, env).Some? && Served(w, env).value.Waker?))
      || (Polls(w, env) && env.reports.None?)
      || (!Calls(w, env) && !Polls(w, env) && WaitFor(w, env.now) < 0)
  {
  }

  /** With nothing expired and delays that fit, and no failure, the loop ends exactly when there is nothing left to wait for. */
  lemma EndsWhenNothingIsLeft(w: World, env: Surroundings)
    requires !env.signal && Quiet(w.timers.timers, env.now) && env.reports.Some? && !env.callback.throws
    ensures Ends(w, env) <==> w.timers.timers == [] && w.handlers == [] && w.ports == []
  {
    if w.timers.timers != [] {
      TimerTheorems.WaitFits(w.timers.timers, env.now);
    }
  }

  /** A timer beyond the range of an int can end the loop although it is still waiting. */
  lemma LongTimerEndsLoop(now: int, env: Surroundings)
    requires !env.signal && env.now == now
    ensures Ends(World(T.Started(T.State([], 1, 0), now, T.INT32_MAX + 1, false), [], []), env)
  {
    TimerTheorems.LongTimerLost(now);
  }

  // ---------------------------------------------------------------- draining

  /** How many jobs a drain runs: until none waits, one throws, or the script is over. */
  function JobsRun(jobs: nat, script: seq<Callback>): (k: nat)
    ensures k <= |script|
    decreases |script|
  {
    if jobs == 0 || script == [] then 0
    else if script[0].throws then 1
    else 1 + JobsRun(jobs - 1 + script[0].jobs, script[1..])
  }

  /** The jobs waiting after the first k ran. */
  function Left(jobs: nat, script: seq<Callback>, k: nat): int
    requires k <= |script|
  {
    if k == 0 then jobs else Left(jobs, script, k - 1) - 1 + script[k - 1].jobs
  }

  lemma {:induction false} LeftShift(jobs: nat, script: seq<Callback>, k: nat)
    requires jobs > 0 && 1 <= k <= |script|
    ensures Left(jobs, script, k) == Left(jobs - 1 + script[0].jobs, script[1..], k - 1)
  {
    if k > 1 {
      LeftShift(jobs, script, k - 1);
    }
  }

  /** Every job run was waiting and none before it threw; the drain goes on while it can. */
  lemma {:induction false} JobsRunMeaning(jobs: nat, script: seq<Callback>)
    ensures var k := JobsRun(jobs, script);
            && (forall i :: 0 <= i < k ==> Left(jobs, script, i) > 0)
            && (forall i :: 0 <= i < k - 1 ==> !script[i].throws)
            && (k < |script| ==> Left(jobs, script, k) == 0 || (k > 0 && script[k - 1].throws))
            && Left(jobs, script, k) >= 0
    decreases |script|
  {
    var k := JobsRun(jobs, script);
    if jobs > 0 && script != [] {
      var jobs', rest := jobs - 1 + script[0].jobs, script[1..];
      if !script[0].throws {
        JobsRunMeaning(jobs', rest);
        forall i | 0 <= i < k ensures Left(jobs, script, i) > 0 {
          if i > 0 {
            LeftShift(jobs, script, i);
            assert Left(jobs', rest, i - 1) > 0;
          }
        }
        forall i | 0 <= i < k - 1 ensures !script[i].throws {
          assert i > 0 ==> script[i] == rest[i - 1];
        }
      }
      LeftShift(jobs, script, k);
    }
  }

  /** The drain ends with an empty queue. */
  predicate Empties(jobs: nat, script: seq<Callback>) {
    var k := JobsRun(jobs, script);
    Left(jobs, script, k) == 0 && (k == 0 || !script[k - 1].throws)
  }

  function JobEntries(cs: seq<Callback>): (r: seq<Entry>)
    ensures |r| == |cs| && forall i :: 0 <= i < |cs| ==> r[i] == Job(cs[i].jobs)
  {
    seq(|cs|, i requires 0 <= i < |cs| => Job(cs[i].jobs))
  }

  /** One more callback at the end of those that ran. */
  lemma OneMoreRan(w: World, now: int, script: seq<Callback>, k: nat)
    requires k < |script|
    ensures AllRan(w, now, script[..k + 1]) == Ran(AllRan(w, now, script[..k]), now, script[k])
    ensures JobEntries(script[..k + 1]) == JobEntries(script[..k]) + [Job(script[k].jobs)]
  {
    assert script[..k + 1][..k] == script[..k];
  }

  lemma EntriesGrow(log: seq<Entry>, script: seq<Callback>, k: nat)
    requires k < |script|
    ensures log + JobEntries(script[..k + 1]) == log + JobEntries(script[..k]) + [Job(script[k].jobs)]
  {
  }

  lemma OneMoreRun(jobs: nat, script: seq<Callback>, k: nat)
    requires k < |script| && jobs > 0
    ensures JobsRun(jobs, script[k..]) == if script[k].throws then 1 else 1 + JobsRun(jobs - 1 + script[k].jobs, script[k + 1..])
  {
    assert script[k..][0] == script[k] && script[k..][1..] == script[k + 1..];
  }

  // ---------------------------------------------------------------- rounds and runs

  datatype Config = Config(world: World, jobs: nat, log: seq<Entry>)

  datatype RoundInput = RoundInput(script: seq<Callback>, env: Surroundings)

  /** The state once the first k jobs of the script ran. */
  ghost function MidDrain(c: Config, script: seq<Callback>, now: int, k: nat): Config
    requires k <= |script| && Left(c.jobs, script, k) >= 0
  {
    Config(AllRan(c.world, now, script[..k]), Left(c.jobs, script, k), c.log + JobEntries(script[..k]))
  }

  lemma MidDrainStarts(c: Config, script: seq<Callback>, now: int)
    ensures MidDrain(c, script, now, 0) == c
  {
    assert script[..0] == [] && c.log + JobEntries([]) == c.log;
  }

  /** The state after one job. */
  ghost function JobDone(c: Config, job: Callback, now: int): Config
    requires c.jobs > 0
  {
    Config(Ran(c.world, now, job), c.jobs - 1 + job.jobs, c.log + [Job(job.jobs)])
  }

  ghost predicate AtJob(c: Config, script: seq<Callback>, now: int, k: nat, m: Config) {
    k <= |script| && Left(c.jobs, script, k) == m.jobs && m == MidDrain(c, script, now, k)
  }

  /** The jobs still to be run, after the first k, complete the drain. */
  predicate Counted(jobs: nat, script: seq<Callback>, k: nat, left: nat) {
    k <= |script| && k + JobsRun(left, script[k..]) == JobsRun(jobs, script)
  }

  lemma AtNextJob(c: Config, script: seq<Callback>, now: int, k: nat, m: Config)
    requires AtJob(c, script, now, k, m) && k < |script| && m.jobs > 0
    ensures AtJob(c, script, now, k + 1, JobDone(m, script[k], now))
  {
    OneMoreRan(c.world, now, script, k);
    EntriesGrow(c.log, script, k);
  }

  /** The state after the drain of a round. */
  ghost function AfterDrain(c: Config, script: seq<Callback>, now: int): Config {
    var k := JobsRun(c.jobs, script);
    JobsRunMeaning(c.jobs, script);
    MidDrain(c, script, now, k)
  }

  ghost function AfterPoll(c: Config, env: Surroundings): Config {
    Config(PollWorld(c.world, env),
           c.jobs + (if Calls(c.world, env) then env.callback.jobs else 0),
           c.log + [Poll] + (if Calls(c.world, env) then [Call(env.callback.jobs)] else []))
  }

  ghost function DrainedConfig(c: Config, r: RoundInput): Config {
    AfterDrain(c.(log := c.log + [Drain]), r.script, r.env.now)
  }

  /** The loop goes on after the round: the queue was emptied, polling is possible, and the poll did not end the loop. */
  ghost predicate GoesOn(c: Config, canPoll: bool, r: RoundInput) {
    Empties(c.jobs, r.script) && canPoll && !Ends(DrainedConfig(c, r).world, r.env)
  }

  ghost function AfterRound(c: Config, canPoll: bool, r: RoundInput): Config {
    if Empties(c.jobs, r.script) && canPoll then AfterPoll(DrainedConfig(c, r), r.env) else DrainedConfig(c, r)
  }

  ghost function AfterRun(c: Config, canPoll: bool, rounds: seq<RoundInput>): Config
    decreases |rounds|
  {
    if rounds == [] then c
    else if GoesOn(c, canPoll, rounds[0]) then AfterRun(AfterRound(c, canPoll, rounds[0]), canPoll, rounds[1..])
    else AfterRound(c, canPoll, rounds[0])
  }

  /** How many rounds the loop makes: all of them, or as many as it takes to one that does not go on. */
  ghost function RoundsMade(c: Config, canPoll: bool, rounds: seq<RoundInput>): (n: nat)
    ensures n <= |rounds| && (rounds != [] ==> n > 0)
    decreases |rounds|
  {
    if rounds == [] then 0
    else if GoesOn(c, canPoll, rounds[0]) then 1 + RoundsMade(AfterRound(c, canPoll, rounds[0]), canPoll, rounds[1..])
    else 1
  }

  function Drains(log: seq<Entry>): nat {
    if log == [] then 0 else Drains(log[..|log| - 1]) + Ind(log[|log| - 1].Drain?)
  }

  lemma {:induction false} DrainsConcat(a: seq<Entry>, b: seq<Entry>)
    ensures Drains(a + b) == Drains(a) + Drains(b)
    decreases |b|
  {
    if b == [] {
      assert a + b == a;
    } else {
      var n := |b| - 1;
      assert (a + b)[..|a + b| - 1] == a + b[..n];
      DrainsConcat(a, b[..n]);
    }
  }

  lemma {:induction false} JobsAreNoDrains(cs: seq<Callback>)
    ensures Drains(JobEntries(cs)) == 0
    decreases |cs|
  {
    if cs != [] {
      var n := |cs| - 1;
      assert JobEntries(cs)[..n] == JobEntries(cs[..n]);
      JobsAreNoDrains(cs[..n]);
    }
  }

  /** Each round leaves one drain in the log. */
  lemma RoundDrainsOnce(c: Config, canPoll: bool, r: RoundInput)
    ensures Drains(AfterRound(c, canPoll, r).log) == Drains(c.log) + 1
  {
    DrainDrainsOnce(c, r);
    PollDrainsNothing(DrainedConfig(c, r), r.env);
  }

  lemma DrainDrainsOnce(c: Config, r: RoundInput)
    ensures Drains(DrainedConfig(c, r).log) == Drains(c.log) + 1
  {
    var k := JobsRun(c.jobs, r.script);
    DrainsAppend(c.log, Drain);
    DrainsConcat(c.log + [Drain], JobEntries(r.script[..k]));
    JobsAreNoDrains(r.script[..k]);
  }

  lemma PollDrainsNothing(c: Config, env: Surroundings)
    ensures Drains(AfterPoll(c, env).log) == Drains(c.log)
  {
    DrainsAppend(c.log, Poll);
    if Calls(c.world, env) {
      DrainsAppend(c.log + [Poll], Call(env.callback.jobs));
    } else {
      assert c.log + [Poll] + [] == c.log + [Poll];
    }
  }

  lemma DrainsAppend(log: seq<Entry>, e: Entry)
    ensures Drains(log + [e]) == Drains(log) + Ind(e.Drain?)
  {
    assert (log + [e])[..|log|] == log;
  }

  /** A run that makes n rounds leaves n drains in the log. */
  lemma {:induction false} RunDrains(c: Config, canPoll: bool, rounds: seq<RoundInput>)
    ensures Drains(AfterRun(c, canPoll, rounds).log) == Drains(c.log) + RoundsMade(c, canPoll, rounds)
    decreases |rounds|
  {
    if rounds != [] {
      RoundDrainsOnce(c, canPoll, rounds[0]);
      if GoesOn(c, canPoll, rounds[0]) {
        RunDrains(AfterRound(c, canPoll, rounds[0]), canPoll, rounds[1..]);
      }
    }
  }

  // ---------------------------------------------------------------- the order of events in a run

  /** A round is over: the last poll called nothing, or one handler that queued all waiting jobs. */
  ghost predicate Rested(start: nat, c: Config) {
    Reached(start, c.log) == Some(Called(c.jobs)) || (c.jobs == 0 && Reached(start, c.log) == Some(InPoll))
  }

  lemma JobAllowed(start: nat, log: seq<Entry>, waiting: int, added: nat)
    requires Reached(start, log) == Some(Draining(waiting)) && waiting > 0
    ensures Reached(start, log + [Job(added)]) == Some(Draining(waiting - 1 + added))
  {
    ReachedAppend(start, log, Job(added));
  }

  lemma {:induction false} JobsAllowed(start: nat, log: seq<Entry>, jobs: nat, script: seq<Callback>, k: nat)
    requires k <= |script| && Reached(start, log) == Some(Draining(jobs)) && forall i :: 0 <= i < k ==> Left(jobs, script, i) > 0
    ensures Reached(start, log + JobEntries(script[..k])) == Some(Draining(Left(jobs, script, k)))
    decreases k
  {
    if k == 0 {
      assert log + JobEntries(script[..0]) == log;
    } else {
      JobsAllowed(start, log, jobs, script, k - 1);
      EntriesGrow(log, script, k - 1);
      JobAllowed(start, log + JobEntries(script[..k - 1]), Left(jobs, script, k - 1), script[k - 1].jobs);
    }
  }

  lemma DrainAllowed(start: nat, c: Config, r: RoundInput)
    requires Rested(start, c)
    ensures Reached(start, DrainedConfig(c, r).log) == Some(Draining(DrainedConfig(c, r).jobs))
  {
    ReachedAppend(start, c.log, Drain);
    JobsRunMeaning(c.jobs, r.script);
    JobsAllowed(start, c.log + [Drain], c.jobs, r.script, JobsRun(c.jobs, r.script));
  }

  lemma PollAllowed(start: nat, c: Config, env: Surroundings)
    requires c.jobs == 0 && Reached(start, c.log) == Some(Draining(0))
    ensures Rested(start, AfterPoll(c, env))
  {
    ReachedAppend(start, c.log, Poll);
    if Calls(c.world, env) {
      ReachedAppend(start, c.log + [Poll], Call(env.callback.jobs));
    } else {
      assert c.log + [Poll] + [] == c.log + [Poll];
    }
  }

  lemma RoundAllowed(start: nat, c: Config, canPoll: bool, r: RoundInput)
    requires Rested(start, c)
    ensures Reached(start, AfterRound(c, canPoll, r).log).Some?
    ensures GoesOn(c, canPoll, r) ==> Rested(start, AfterRound(c, canPoll, r))
  {
    DrainAllowed(start, c, r);
    if Empties(c.jobs, r.script) && canPoll {
      PollAllowed(start, DrainedConfig(c, r), r.env);
    }
  }

  /** The log of every run is one the order of events allows. */
  lemma {:induction false} RunAllowed(start: nat, c: Config, canPoll: bool, rounds: seq<RoundInput>)
    requires Rested(start, c)
    ensures Reached(start, AfterRun(c, canPoll, rounds).log).Some?
    decreases |rounds|
  {
    if rounds != [] {
      RoundAllowed(start, c, canPoll, rounds[0]);
      if GoesOn(c, canPoll, rounds[0]) {
        RunAllowed(start, AfterRound(c, canPoll, rounds[0]), canPoll, rounds[1..]);
      }
    }
  }

  // ---------------------------------------------------------------- the loop

  class Loop {
    const timers: T.Thread
    const lists: H.Lists
    const canPoll: bool
    var jobs: nat
    var log: seq<Entry>

    function Current(): World
      reads timers, lists
    {
      World(timers.Current(), lists.handlers, lists.ports)
    }

    function Now(): Config
      reads this, timers, lists
    {
      Config(Current(), jobs, log)
    }

    ghost predicate Valid()
      reads this, timers, lists
    {
      ValidWorld(Current())
    }

    constructor (jobs: nat, canPoll: bool)
      ensures Valid() && Now() == Config(World(T.State([], 1, 0), [], []), jobs, []) && this.canPoll == canPoll
      ensures fresh(timers) && fresh(lists)
    {
      timers := new T.Thread();
      lists := new H.Lists();
      this.jobs, this.canPoll := jobs, canPoll;
      log := [];
    }

    /** What user code does to the descriptor handlers and ports. */
    method ChangeLists(ops: seq<ListOp>)
      requires Valid()
      modifies lists
      ensures Valid() && Current() == AllChanged(old(Current()), ops)
    {
      for k := 0 to |ops|
        invariant Valid() && Current() == AllChanged(old(Current()), ops[..k])
      {
        assert ops[..k + 1][..k] == ops[..k];
        match ops[k] {
          case SetHandler(fd, side, func) => var _ := lists.SetHandler(fd, side, func);
          case SetOnMessage(worker, func) => var _ := lists.SetOnMessage(worker, func);
        }
      }
      assert ops[..|ops|] == ops;
    }

    /** User code runs. */
    method RunCallback(c: Callback, now: int)
      requires Valid()
      modifies lists, timers
      ensures Valid() && Current() == Ran(old(Current()), now, c)
    {
      timers.Callback(now, c.timerOps);
      ChangeLists(c.listOps);
    }

    /** call_handler: the call is logged, and the status says whether it threw. */
    method CallHandler(c: Callback, now: int) returns (s: Status)
      requires Valid()
      modifies this, lists, timers
      ensures Valid() && Now() == Config(Ran(old(Current()), now, c), old(jobs) + c.jobs, old(log) + [Call(c.jobs)])
      ensures s.Stop? <==> c.throws
    {
      RunCallback(c, now);
      jobs := jobs + c.jobs;
      log := log + [Call(c.jobs)];
      return if c.throws then Stop else Continue;
    }

    /** The set handed to poll. */
    method BuildSet() returns (entries: seq<Polled>)
      ensures entries == Entries(Current())
    {
      var hs, ports := lists.handlers, lists.ports;
      entries := [];
      for i := 0 to |hs|
        invariant entries == HandlerSet(hs[..i])
      {
        assert hs[..i + 1][..i] == hs[..i];
        entries := entries + EntryOf(hs[i]);
      }
      assert hs[..|hs|] == hs;
      for i := 0 to |ports|
        invariant entries == HandlerSet(hs) + PortSet(ports[..i])
      {
        assert ports[..i + 1][..i] == ports[..i];
        if ports[i].func.Some? {
          entries := entries + [Waker(ports[i].worker)];
        }
      }
      assert ports[..|ports|] == ports;
    }

    /** Whether the report for one element makes a handler run. */
    method Hit(e: Polled, report: Ready, messages: set<nat>) returns (hit: bool)
      ensures hit <==> Serves(lists.handlers, lists.ports, e, report, messages)
    {
      match e {
        case Descriptor(fd, _, _) =>
          var i := lists.FindHandler(fd);
          if i == |lists.handlers| {
            H.LookupAbsent(lists.handlers, fd, H.Read);
            H.LookupAbsent(lists.handlers, fd, H.Write);
            return false;
          }
          H.LookupAt(lists.handlers, i, H.Read);
          H.LookupAt(lists.handlers, i, H.Write);
          return (report.read && lists.handlers[i].read.Some?) || (report.write && lists.handlers[i].write.Some?);
        case Waker(worker) =>
          for i := 0 to |lists.ports|
            invariant forall j :: 0 <= j < i && lists.ports[j].worker == worker && lists.ports[j].func.Some? ==> worker !in messages
          {
            if lists.ports[i].func.Some? && lists.ports[i].worker == worker && worker in messages {
              return true;
            }
          }
          return false;
      }
    }

    /** The dispatch after poll: the first element with a handler to serve gets it called, and no other. */
    method Dispatch(entries: seq<Polled>, reports: seq<Ready>, env: Surroundings) returns (s: Status)
      requires Valid() && entries == Entries(Current())
      modifies this, lists, timers
      ensures Valid()
      ensures
        var k := FirstServed(old(Current()), env, reports, 0);
        if k == Min(|entries|, |reports|) then s.Continue? && Now() == old(Now())
        else
          && (s.Stop? <==> entries[k].Descriptor? && env.callback.throws)
          && Now() == Config(Ran(old(Current()), env.now, env.callback), old(jobs) + env.callback.jobs, old(log) + [Call(env.callback.jobs)])
    {
      for k := 0 to Min(|reports|, |entries|)
        invariant Now() == old(Now()) && FirstServed(Current(), env, reports, k) == FirstServed(old(Current()), env, reports, 0)
      {
        var hit := Hit(entries[k], reports[k], env.messages);
        if hit {
          s := CallHandler(env.callback, env.now);
          if entries[k].Waker? {
            s := Continue;
          }
          return;
        }
      }
      return Continue;
    }

    /** js_os_run_timers within the loop: a status when a timer was expired, which then fired; otherwise the wait. */
    method Tick(env: Surroundings) returns (s: Option<Status>, minDelay: int)
      requires Valid()
      modifies this, lists, timers
      ensures Valid() && (s.Some? <==> TimerDue(old(Current()), env.now))
      ensures s.None? ==> Now() == old(Now()) && minDelay == WaitFor(old(Current()), env.now)
      ensures s.Some? ==>
        && minDelay == 0 && (s.value.Stop? <==> env.callback.throws)
        && Now() == Config(AllChanged(old(Current()).(timers := T.Fired(old(Current()).timers, env.now, env.callback.timerOps)), env.callback.listOps),
                           old(jobs) + env.callback.jobs, old(log) + [Call(env.callback.jobs)])
    {
      var fired;
      fired, minDelay := timers.RunTimers(env.now, env.callback.timerOps);
      if fired.None? {
        return None, minDelay;
      }
      ChangeLists(env.callback.listOps);
      jobs := jobs + env.callback.jobs;
      log := log + [Call(env.callback.jobs)];
      return Some(if env.callback.throws then Stop else Continue), minDelay;
    }

    /**
     * js_os_poll.  The status, the call made and the new state are those of the poll; with nothing expired and
     * delays that fit in an int the thread waits on everything listed, and for the smallest remaining delay.
     */
    method PollOnce(env: Surroundings) returns (s: Status, wait: Wait)
      requires Valid()
      modifies this, lists, timers
      ensures Valid() && Now() == AfterPoll(old(Now()), env)
      ensures s.Stop? <==> Ends(old(Current()), env)
      ensures !env.signal && Quiet(old(timers.timers), env.now) ==> RightWait(old(Current()), env.now, wait)
    {
      log := log + [Poll];
      wait := NoWait;
      if env.signal {
        s := CallHandler(env.callback, env.now);
        return;
      }
      var status, minDelay := Tick(env);
      if status.Some? {
        return status.value, NoWait;
      }
      ghost var ts := timers.timers;
      if ts != [] && Quiet(ts, env.now) {
        TimerTheorems.WaitFits(ts, env.now);
      }
      if minDelay == 0 {
        return Continue, NoWait;
      }
      s, wait := WaitAndDispatch(env, minDelay);
    }

    /** The rest of js_os_poll once the wait is known and nothing was called. */
    method WaitAndDispatch(env: Surroundings, minDelay: int) returns (s: Status, wait: Wait)
      requires Valid() && !env.signal && !TimerDue(Current(), env.now) && minDelay == WaitFor(Current(), env.now) != 0
      modifies this, lists, timers
      ensures Valid() && (s.Stop? <==> Ends(old(Current()), env))
      ensures Now() == Config(PollWorld(old(Current()), env), old(jobs) + (if Calls(old(Current()), env) then env.callback.jobs else 0),
                              old(log) + (if Calls(old(Current()), env) then [Call(env.callback.jobs)] else []))
      ensures wait ==
        if old(lists.handlers) == [] && old(lists.ports) == [] then (if minDelay < 0 then NoWait else Asleep(minDelay))
        else Polling(Entries(old(Current())), minDelay)
    {
      if minDelay < 0 && lists.handlers == [] && lists.ports == [] {
        return Stop, NoWait;
      }
      EntriesCount(Current());
      var entries := BuildSet();
      if |entries| == 0 {
        return Continue, Asleep(minDelay);
      }
      wait := Polling(entries, minDelay);
      if env.reports.None? {
        return Stop, wait;
      }
      s := Dispatch(entries, env.reports.value, env);
    }

    /** The inner loop of js_std_loop: false when a job threw or the script is over before the queue is empty. */
    method DrainJobs(script: seq<Callback>, now: int) returns (empty: bool)
      requires Valid()
      modifies this, lists, timers
      ensures Valid() && Now() == AfterDrain(old(Now()), script, now)
      ensures empty <==> Empties(old(jobs), script)
    {
      var ran;
      empty, ran := RunJobs(script, now);
    }

    method RunJobs(script: seq<Callback>, now: int) returns (empty: bool, ran: nat)
      requires Valid()
      modifies this, lists, timers
      ensures Valid() && ran == JobsRun(old(jobs), script) && AtJob(old(Now()), script, now, ran, Now())
      ensures empty <==> jobs == 0 && (ran == 0 || !script[ran - 1].throws)
    {
      ghost var before := Now();
      ran := 0;
      MidDrainStarts(before, script, now);
      assert script[0..] == script;
      while jobs > 0
        invariant Valid() && AtJob(before, script, now, ran, Now()) && Counted(before.jobs, script, ran, jobs)
        invariant ran > 0 ==> !script[ran - 1].throws
        decreases |script| - ran
      {
        if ran == |script| {
          return false, ran;
        }
        NextScripted(script, ran, now, before);
        ran := ran + 1;
        if script[ran - 1].throws {
          return false, ran;
        }
      }
      return true, ran;
    }

    method NextScripted(script: seq<Callback>, ran: nat, now: int, ghost before: Config)
      requires Valid() && jobs > 0 && ran < |script|
      requires AtJob(before, script, now, ran, Now()) && Counted(before.jobs, script, ran, jobs)
      modifies this, lists, timers
      ensures Valid() && AtJob(before, script, now, ran + 1, Now())
      ensures if script[ran].throws then ran + 1 == JobsRun(before.jobs, script) else Counted(before.jobs, script, ran + 1, jobs)
    {
      OneMoreRun(jobs, script, ran);
      AtNextJob(before, script, now, ran, Now());
      RunJob(script[ran], now);
    }

    method RunJob(c: Callback, now: int)
      requires Valid() && jobs > 0
      modifies this, lists, timers
      ensures Valid() && Now() == JobDone(old(Now()), c, now)
    {
      RunCallback(c, now);
      jobs := jobs - 1 + c.jobs;
      log := log + [Job(c.jobs)];
    }

    /** One round of js_std_loop: drain, then poll. */
    method Round(r: RoundInput) returns (goOn: bool)
      requires Valid()
      modifies this, lists, timers
      ensures Valid() && Now() == AfterRound(old(Now()), canPoll, r)
      ensures goOn <==> GoesOn(old(Now()), canPoll, r)
    {
      log := log + [Drain];
      var empty := DrainJobs(r.script, r.env.now);
      if !empty || !canPoll {
        return false;
      }
      var s, _ := PollOnce(r.env);
      return s.Continue?;
    }

    /** js_std_loop over a finite run: it makes the rounds up to the first that does not go on. */
    method Run(rounds: seq<RoundInput>) returns (made: nat)
      requires Valid() && log == []
      modifies this, lists, timers
      ensures Valid() && Now() == AfterRun(old(Now()), canPoll, rounds) && made == RoundsMade(old(Now()), canPoll, rounds)
      ensures Reached(old(jobs), log).Some? && Drains(log) == made
    {
      RunAllowed(jobs, Now(), canPoll, rounds);
      RunDrains(Now(), canPoll, rounds);
      made := 0;
      while made < |rounds|
        invariant made <= |rounds| && Valid()
        invariant AfterRun(Now(), canPoll, rounds[made..]) == AfterRun(old(Now()), canPoll, rounds)
        invariant made + RoundsMade(Now(), canPoll, rounds[made..]) == RoundsMade(old(Now()), canPoll, rounds)
      {
        assert rounds[made..][0] == rounds[made] && rounds[made..][1..] == rounds[made + 1..];
        var goOn := Round(rounds[made]);
        made := made + 1;
        if !goOn {
          return;
        }
      }
    }
  }

  /** How long the thread waits, and on what: on everything listed, for the smallest remaining delay. */
  ghost predicate RightWait(w: World, now: int, wait: Wait) {
    && (wait.NoWait? <==> w.timers.timers == [] && w.handlers == [] && w.ports == [])
    && (wait.Asleep? ==> w.handlers == [] && w.ports == [] && wait.ms == TimerTheorems.Soonest(w.timers.timers, now))
    && (wait.Polling? ==>
          && (w.handlers != [] || w.ports != [])
          && wait.entries == Entries(w)
          && wait.ms == if w.timers.timers == [] then -1 else TimerTheorems.Soonest(w.timers.timers, now))
  }
}
