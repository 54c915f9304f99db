/**
 * The parallel-move resolver of the optimizing tier: it turns a set of simultaneous copies
 * between registers and spill slots into a sequence of copies, breaking cycles through a
 * scratch location.
 *
 * The sequence does what the parallel moves mean exactly when the moves contain no cycle:
 * the cycle-breaking branch saves the right value but restores it into the wrong place.
 */
module ParallelMoves {
  import opened Prelude

  datatype Kind = Register | SpillSlot | Scratch

  datatype RegisterClass = Integer | Float64

  datatype Location = Location(kind: Kind, cls: RegisterClass, index: int)

  datatype Move = Move(source: Location, destination: Location)

  datatype Status = Ok | InvalidArgument

  // ---------------------------------------------------------------- meaning

  type File = Location -> int

  /** The value of l after performing the copies one after the other. */
  function Value(moves: seq<Move>, f: File, l: Location): int
  {
    if moves == [] then f(l)
    else
      var m := moves[|moves| - 1];
      Value(moves[..|moves| - 1], f, if m.destination == l then m.source else l)
  }

  /** The value of l after performing all copies at once. */
  ghost function Simultaneous(moves: seq<Move>, f: File, l: Location): int {
    if k :| 0 <= k < |moves| && moves[k].destination == l then f(moves[k].source) else f(l)
  }

  /** For every register file, every location but the scratch ones gets the value the parallel moves give it. */
  ghost predicate Implements(out: seq<Move>, moves: seq<Move>) {
    forall f: File, l: Location :: !l.kind.Scratch? ==> Value(out, f, l) == Simultaneous(moves, f, l)
  }

  /** What a caller passes: no two moves to one place, and no scratch location among the operands. */
  predicate WellFormed(moves: seq<Move>) {
    && (forall i, j :: 0 <= i < j < |moves| ==> moves[i].destination != moves[j].destination)
    && (forall i :: 0 <= i < |moves| ==> !moves[i].source.kind.Scratch? && !moves[i].destination.kind.Scratch?)
  }

  predicate Proper(m: Move) { m.source != m.destination }

  /** Move k + 1 of the cycle reads what move k writes, all the way round. */
  predicate Cycle(moves: seq<Move>, c: seq<nat>) {
    && |c| >= 2
    && (forall k :: 0 <= k < |c| ==> c[k] < |moves| && Proper(moves[c[k]]))
    && (forall k :: 0 <= k < |c| - 1 ==> moves[c[k + 1]].source == moves[c[k]].destination)
    && moves[c[0]].source == moves[c[|c| - 1]].destination
  }

  ghost predicate Cyclic(moves: seq<Move>) {
    exists c :: Cycle(moves, c)
  }

  /** A set of proper moves in which each one's destination is read by another one: a knot. */
  ghost predicate Knot(moves: seq<Move>, knot: set<nat>) {
    && knot != {}
    && (forall i :: i in knot ==> i < |moves| && Proper(moves[i]))
    && (forall i {:trigger ReadWithin(moves, knot, i)} :: i in knot ==> ReadWithin(moves, knot, i))
  }

  /** Some move of the set reads the destination of move i. */
  ghost predicate ReadWithin(moves: seq<Move>, knot: set<nat>, i: nat)
    requires i < |moves| && forall k :: k in knot ==> k < |moves|
  {
    exists j :: j in knot && moves[j].source == moves[i].destination
  }

  ghost predicate Knotted(moves: seq<Move>) {
    exists knot :: Knot(moves, knot)
  }

  lemma CycleIsKnot(moves: seq<Move>, c: seq<nat>)
    requires Cycle(moves, c)
    ensures Knotted(moves)
  {
    var knot := set x | x in c;
    assert c[0] in knot;
    forall i | i in knot ensures ReadWithin(moves, knot, i) {
      var k :| 0 <= k < |c| && c[k] == i;
      assert (if k + 1 < |c| then c[k + 1] else c[0]) in knot;
    }
    assert Knot(moves, knot);
  }

  /** A path of moves within the knot, each reading what the one before writes. */
  ghost predicate Path(moves: seq<Move>, knot: set<nat>, path: seq<nat>)
    requires Knot(moves, knot)
  {
    && |path| > 0
    && (forall k :: 0 <= k < |path| ==> path[k] in knot)
    && (forall k :: 0 <= k < |path| - 1 ==> moves[path[k + 1]].source == moves[path[k]].destination)
  }

  /** Following a path inside a finite knot must come back to a move already visited. */
  lemma {:induction false} PathCloses(moves: seq<Move>, knot: set<nat>, path: seq<nat>, unvisited: set<nat>)
    requires Knot(moves, knot) && Path(moves, knot, path)
    requires forall x :: x in knot ==> x in path || x in unvisited
    ensures Cyclic(moves)
    decreases |unvisited|
  {
    var last := path[|path| - 1];
    assert ReadWithin(moves, knot, last);
    var y :| y in knot && moves[y].source == moves[last].destination;
    if y in path {
      var a :| 0 <= a < |path| && path[a] == y;
      assert a < |path| - 1;
      assert Cycle(moves, path[a..]);
    } else {
      PathCloses(moves, knot, path + [y], unvisited - {y});
    }
  }

  lemma KnottedIffCyclic(moves: seq<Move>)
    ensures Knotted(moves) <==> Cyclic(moves)
  {
    if knot :| Knot(moves, knot) {
      var x :| x in knot;
      PathCloses(moves, knot, [x], knot);
    }
    if c :| Cycle(moves, c) {
      CycleIsKnot(moves, c);
    }
  }

  // ---------------------------------------------------------------- tracing values back

  /** The place whose initial value l holds after the copies. */
  function Origin(moves: seq<Move>, l: Location): Location
  {
    if moves == [] then l
    else
      var m := moves[|moves| - 1];
      Origin(moves[..|moves| - 1], if m.destination == l then m.source else l)
  }

  lemma {:induction false} ValueIsOrigin(moves: seq<Move>, f: File, l: Location)
    ensures Value(moves, f, l) == f(Origin(moves, l))
    decreases |moves|
  {
    if moves != [] {
      var m := moves[|moves| - 1];
      ValueIsOrigin(moves[..|moves| - 1], f, if m.destination == l then m.source else l);
    }
  }

  lemma OriginAppend(moves: seq<Move>, m: Move, l: Location)
    ensures Origin(moves + [m], l) == Origin(moves, if m.destination == l then m.source else l)
  {
    assert (moves + [m])[..|moves|] == moves;
  }

  predicate Done(moves: seq<Move>, done: seq<bool>, b: int)
    requires |done| == |moves|
  {
    0 <= b < |moves| && done[b] && Proper(moves[b])
  }

  /** Location l has not been written. */
  predicate Untouched(moves: seq<Move>, done: seq<bool>, l: Location)
    requires |done| == |moves|
  {
    forall b :: 0 <= b < |moves| && Done(moves, done, b) ==> moves[b].destination != l
  }

  /** No cycle has been met: finished moves are right, and pending moves can still read their source. */
  ghost predicate Clean(moves: seq<Move>, done: seq<bool>, out: seq<Move>) {
    && |done| == |moves|
    && (forall l: Location :: !l.kind.Scratch? && Untouched(moves, done, l) ==> Origin(out, l) == l)
    && (forall b :: Done(moves, done, b) ==> Origin(out, moves[b].destination) == moves[b].source)
    && (forall p :: 0 <= p < |moves| && !done[p] ==> Proper(moves[p]) && Untouched(moves, done, moves[p].source))
    && (forall knot, x :: Knot(moves, knot) && x in knot ==> !done[x])
  }

  /** Some finished move delivered a value from the wrong place. */
  ghost predicate Spoilt(moves: seq<Move>, done: seq<bool>, out: seq<Move>) {
    && |done| == |moves|
    && (forall p :: 0 <= p < |moves| && !done[p] ==> Proper(moves[p]))
    && (exists b :: Done(moves, done, b) && Origin(out, moves[b].destination) != moves[b].source)
    && Knotted(moves)
  }

  function Pending(done: seq<bool>): nat {
    if done == [] then 0 else Pending(done[1..]) + Ind(!done[0])
  }

  lemma {:induction false} PendingDrops(done: seq<bool>, k: nat)
    requires k < |done| && !done[k]
    ensures Pending(done[k := true]) == Pending(done) - 1
  {
    if k > 0 {
      assert done[k := true][1..] == done[1..][k - 1 := true];
      PendingDrops(done[1..], k - 1);
    } else {
      assert done[k := true][1..] == done[1..];
    }
  }

  lemma {:induction false} SomePending(done: seq<bool>)
    ensures Pending(done) > 0 <==> exists k :: 0 <= k < |done| && !done[k]
  {
    if done != [] {
      SomePending(done[1..]);
      if Pending(done[1..]) > 0 {
        var k :| 0 <= k < |done[1..]| && !done[1..][k];
        assert !done[k + 1];
      }
      if k :| 0 < k < |done| && !done[k] {
        assert !done[1..][k - 1];
      }
    }
  }

  /** source_used: some pending move reads d. */
  method SourceUsed(moves: seq<Move>, done: seq<bool>, d: Location) returns (used: bool)
    requires |done| == |moves|
    ensures used <==> exists i :: 0 <= i < |moves| && !done[i] && moves[i].source == d && Proper(moves[i])
  {
    for i := 0 to |moves|
      invariant forall k :: 0 <= k < i ==> done[k] || moves[k].source != d || !Proper(moves[k])
    {
      if !done[i] && moves[i].source == d && Proper(moves[i]) {
        return true;
      }
    }
    return false;
  }

  /** Emitting a move whose destination no pending move reads. */
  lemma EmitKeepsClean(moves: seq<Move>, done: seq<bool>, out: seq<Move>, i: nat)
    requires WellFormed(moves) && Clean(moves, done, out) && i < |moves| && !done[i]
    requires forall k :: 0 <= k < |moves| && !done[k] && Proper(moves[k]) ==> moves[k].source != moves[i].destination
    ensures Clean(moves, done[i := true], out + [moves[i]])
  {
    var done', out' := done[i := true], out + [moves[i]];
    forall l: Location | !l.kind.Scratch? && Untouched(moves, done', l) ensures Origin(out', l) == l {
      assert Done(moves, done', i);
      assert Untouched(moves, done, l) by {
        forall b | Done(moves, done, b) ensures moves[b].destination != l { assert Done(moves, done', b); }
      }
      OriginAppend(out, moves[i], l);
    }
    forall b | Done(moves, done', b) ensures Origin(out', moves[b].destination) == moves[b].source {
      OriginAppend(out, moves[i], moves[b].destination);
      if b != i { assert Done(moves, done, b); }
    }
    forall knot, x | Knot(moves, knot) && x in knot ensures !done'[x] {
      assert i in knot ==> ReadWithin(moves, knot, i);
    }
  }

  lemma EmitKeepsSpoilt(moves: seq<Move>, done: seq<bool>, out: seq<Move>, i: nat, m: Move)
    requires WellFormed(moves) && Spoilt(moves, done, out) && i < |moves| && !done[i] && m.destination == moves[i].destination
    ensures Spoilt(moves, done[i := true], out + [m])
  {
    var b :| Done(moves, done, b) && Origin(out, moves[b].destination) != moves[b].source;
    OriginAppend(out, m, moves[b].destination);
    assert Done(moves, done[i := true], b);
  }

  lemma ScratchKeepsSpoilt(moves: seq<Move>, done: seq<bool>, out: seq<Move>, m: Move)
    requires WellFormed(moves) && Spoilt(moves, done, out) && m.destination.kind.Scratch?
    ensures Spoilt(moves, done, out + [m])
  {
    var b :| Done(moves, done, b) && Origin(out, moves[b].destination) != moves[b].source;
    OriginAppend(out, m, moves[b].destination);
  }

  // ---------------------------------------------------------------- when nothing can be emitted

  /** The destination of every pending move is read by a pending move. */
  ghost predicate Stuck(moves: seq<Move>, done: seq<bool>) {
    && |done| == |moves|
    && (forall i :: 0 <= i < |moves| && !done[i] ==> Proper(moves[i]))
    && (forall i {:trigger ReadWithin(moves, PendingSet(done), i)} :: i in PendingSet(done) ==> ReadWithin(moves, PendingSet(done), i))
  }

  ghost function PendingSet(done: seq<bool>): set<nat> {
    set i: nat | i < |done| && !done[i]
  }

  lemma StuckIsKnot(moves: seq<Move>, done: seq<bool>, i: nat)
    requires Stuck(moves, done) && i < |done| && !done[i]
    ensures Knot(moves, PendingSet(done))
  {
    assert i in PendingSet(done);
  }

  ghost function Sources(moves: seq<Move>, xs: set<nat>): set<Location>
    requires forall i :: i in xs ==> i < |moves|
  {
    set i | i in xs :: moves[i].source
  }

  ghost function Destinations(moves: seq<Move>, xs: set<nat>): set<Location>
    requires forall i :: i in xs ==> i < |moves|
  {
    set i | i in xs :: moves[i].destination
  }

  lemma {:induction false} AtMostOneSourceEach(moves: seq<Move>, xs: set<nat>)
    requires forall i :: i in xs ==> i < |moves|
    ensures |Sources(moves, xs)| <= |xs|
    decreases |xs|
  {
    if xs != {} {
      var x :| x in xs;
      AtMostOneSourceEach(moves, xs - {x});
      assert Sources(moves, xs) == Sources(moves, xs - {x}) + {moves[x].source};
    }
  }

  lemma {:induction false} OneDestinationEach(moves: seq<Move>, xs: set<nat>)
    requires WellFormed(moves) && forall i :: i in xs ==> i < |moves|
    ensures |Destinations(moves, xs)| == |xs|
    decreases |xs|
  {
    if xs != {} {
      var x :| x in xs;
      OneDestinationEach(moves, xs - {x});
      DestinationsWithout(moves, xs, x);
    }
  }

  lemma DestinationsWithout(moves: seq<Move>, xs: set<nat>, x: nat)
    requires WellFormed(moves) && (forall i :: i in xs ==> i < |moves|) && x in xs
    ensures Destinations(moves, xs) == Destinations(moves, xs - {x}) + {moves[x].destination}
    ensures moves[x].destination !in Destinations(moves, xs - {x})
  {
  }

  lemma SubsetOfSameSize<T>(a: set<T>, b: set<T>)
    requires a <= b && |b| <= |a|
    ensures a == b
  {
    assert b == a + (b - a);
  }

  lemma StuckBalances(moves: seq<Move>, done: seq<bool>)
    requires WellFormed(moves) && Stuck(moves, done)
    ensures Destinations(moves, PendingSet(done)) == Sources(moves, PendingSet(done))
    ensures |Sources(moves, PendingSet(done))| == |PendingSet(done)|
  {
    var xs := PendingSet(done);
    OneDestinationEach(moves, xs);
    AtMostOneSourceEach(moves, xs);
    StuckCovers(moves, done);
    SubsetOfSameSize(Destinations(moves, xs), Sources(moves, xs));
  }

  /** Pigeonhole: when stuck, what a pending move reads is written by a pending move, ... */
  lemma StuckWrites(moves: seq<Move>, done: seq<bool>, j: nat) returns (k: nat)
    requires WellFormed(moves) && Stuck(moves, done) && j < |moves| && !done[j]
    ensures k < |moves| && !done[k] && moves[k].destination == moves[j].source
  {
    var xs := PendingSet(done);
    StuckBalances(moves, done);
    assert moves[j].source in Sources(moves, xs) by { assert j in xs; }
    var d :| d in xs && moves[d].destination == moves[j].source;
    k := d;
  }

  /** ... and no two pending moves read one place: the pending moves are made of cycles. */
  lemma StuckReadsApart(moves: seq<Move>, done: seq<bool>, i: nat, j: nat)
    requires WellFormed(moves) && Stuck(moves, done) && i < |moves| && j < |moves| && !done[i] && !done[j]
    requires moves[i].source == moves[j].source
    ensures i == j
  {
    var xs := PendingSet(done);
    StuckBalances(moves, done);
    if i != j {
      SharedSource(moves, xs, i, j);
      AtMostOneSourceEach(moves, xs - {i});
    }
  }

  lemma SharedSource(moves: seq<Move>, xs: set<nat>, i: nat, j: nat)
    requires forall x :: x in xs ==> x < |moves|
    requires i in xs && j in xs && i != j && moves[i].source == moves[j].source
    ensures Sources(moves, xs) == Sources(moves, xs - {i})
  {
    assert j in xs - {i};
  }

  lemma StuckCovers(moves: seq<Move>, done: seq<bool>)
    requires Stuck(moves, done)
    ensures Destinations(moves, PendingSet(done)) <= Sources(moves, PendingSet(done))
  {
    forall d | d in Destinations(moves, PendingSet(done)) ensures d in Sources(moves, PendingSet(done)) {
      var i :| i in PendingSet(done) && moves[i].destination == d;
      assert ReadWithin(moves, PendingSet(done), i);
    }
  }

  // ---------------------------------------------------------------- scratch locations

  /** The scratch location for values of a register class. */
  function ScratchFor(cls: RegisterClass, intScratch: Location, floatScratch: Location): Location {
    match cls
    case Integer => intScratch
    case Float64 => floatScratch
  }

  predicate Usable(cls: RegisterClass, intScratch: Location, floatScratch: Location) {
    ScratchFor(cls, intScratch, floatScratch).kind.Scratch?
  }

  /** Some move of the cycle reads a class whose scratch location is usable. */
  ghost predicate Breakable(moves: seq<Move>, c: seq<nat>, intScratch: Location, floatScratch: Location) {
    exists x :: x in c && x < |moves| && Usable(moves[x].source.cls, intScratch, floatScratch)
  }

  /** Some cycle has a move whose own class has no usable scratch location. */
  ghost predicate Unbreakable(moves: seq<Move>, intScratch: Location, floatScratch: Location) {
    exists c :: Cycle(moves, c) && !Usable(moves[c[0]].source.cls, intScratch, floatScratch)
  }

  /** A cycle of which some move is finished could be broken. */
  ghost predicate Served(moves: seq<Move>, done: seq<bool>, intScratch: Location, floatScratch: Location)
    requires |done| == |moves|
  {
    forall c, x :: Cycle(moves, c) && x in c && done[x] ==> Breakable(moves, c, intScratch, floatScratch)
  }

  /** A copy the resolver may emit: one of the moves, or a save into or restore from the scratch of the saved value's class. */
  predicate Permitted(moves: seq<Move>, m: Move, intScratch: Location, floatScratch: Location) {
    || m in moves
    || m.destination == ScratchFor(m.source.cls, intScratch, floatScratch)
    || exists i :: 0 <= i < |moves| && m.source == ScratchFor(moves[i].source.cls, intScratch, floatScratch)
  }

  ghost predicate AllPermitted(moves: seq<Move>, out: seq<Move>, intScratch: Location, floatScratch: Location) {
    forall k :: 0 <= k < |out| ==> Permitted(moves, out[k], intScratch, floatScratch)
  }

  lemma PermittedMore(moves: seq<Move>, out: seq<Move>, m: Move, intScratch: Location, floatScratch: Location)
    requires AllPermitted(moves, out, intScratch, floatScratch) && Permitted(moves, m, intScratch, floatScratch)
    ensures AllPermitted(moves, out + [m], intScratch, floatScratch)
  {
  }

  /** The writer of what a move of a cycle reads belongs to the cycle. */
  lemma WriterInCycle(moves: seq<Move>, c: seq<nat>, x: nat, y: nat)
    requires WellFormed(moves) && Cycle(moves, c) && x in c && y < |moves| && moves[y].destination == moves[x].source
    ensures y in c
  {
    var k :| 0 <= k < |c| && c[k] == x;
    var p := if k > 0 then c[k - 1] else c[|c| - 1];
    assert moves[p].destination == moves[x].source;
    assert p == y;
  }

  lemma ReaderInCycle(moves: seq<Move>, c: seq<nat>, x: nat) returns (y: nat)
    requires Cycle(moves, c) && x in c
    ensures y in c && y < |moves| && Proper(moves[y]) && moves[y].source == moves[x].destination
  {
    var k :| 0 <= k < |c| && c[k] == x;
    y := if k + 1 < |c| then c[k + 1] else c[0];
  }

  lemma EmitKeepsServed(moves: seq<Move>, done: seq<bool>, i: nat, intScratch: Location, floatScratch: Location)
    requires |done| == |moves| && Served(moves, done, intScratch, floatScratch) && i < |moves|
    requires forall k :: 0 <= k < |moves| && !done[k] && Proper(moves[k]) ==> moves[k].source != moves[i].destination
    ensures Served(moves, done[i := true], intScratch, floatScratch)
  {
    forall c, x | Cycle(moves, c) && x in c && done[i := true][x] ensures Breakable(moves, c, intScratch, floatScratch) {
      if x == i {
        var y := ReaderInCycle(moves, c, i);
        assert done[y];
      }
    }
  }

  /** The moves visited on the way back from move i, each writing what the one before reads. */
  ghost predicate Trail(moves: seq<Move>, i: nat, trail: seq<nat>) {
    && |trail| > 0 && trail[0] == i
    && (forall a :: 0 <= a < |trail| ==> trail[a] < |moves|)
    && (forall a :: 0 <= a < |trail| - 1 ==> moves[trail[a + 1]].destination == moves[trail[a]].source)
  }

  /** A cycle through any visited move goes through the first. */
  lemma {:induction false} TrailInCycle(moves: seq<Move>, i: nat, trail: seq<nat>, c: seq<nat>, a: nat)
    requires WellFormed(moves) && Trail(moves, i, trail) && Cycle(moves, c) && a < |trail| && trail[a] in c
    requires moves[trail[|trail| - 1]].source == moves[i].destination
    ensures i in c
    decreases |trail| - a
  {
    if a == |trail| - 1 {
      WriterInCycle(moves, c, trail[a], i);
    } else {
      WriterInCycle(moves, c, trail[a], trail[a + 1]);
      TrailInCycle(moves, i, trail, c, a + 1);
    }
  }

  /** Exactly the moves on the trail behind the first have been finished. */
  ghost predicate Marked(done0: seq<bool>, done: seq<bool>, trail: seq<nat>) {
    |done| == |done0| && forall x :: 0 <= x < |done| && done[x] ==> done0[x] || x in trail
  }

  lemma BreakKeepsServed(moves: seq<Move>, done0: seq<bool>, done: seq<bool>, i: nat, trail: seq<nat>, intScratch: Location, floatScratch: Location)
    requires WellFormed(moves) && |done0| == |moves| && Served(moves, done0, intScratch, floatScratch)
    requires Trail(moves, i, trail) && moves[trail[|trail| - 1]].source == moves[i].destination && Marked(done0, done, trail)
    requires Usable(moves[i].source.cls, intScratch, floatScratch)
    ensures Served(moves, done, intScratch, floatScratch)
  {
    forall c, x | Cycle(moves, c) && x in c && done[x] ensures Breakable(moves, c, intScratch, floatScratch) {
      if !done0[x] {
        var a :| 0 <= a < |trail| && trail[a] == x;
        TrailInCycle(moves, i, trail, c, a);
      }
    }
  }

  lemma TrailGrows(moves: seq<Move>, i: nat, trail: seq<nat>, done0: seq<bool>, done: seq<bool>, k: nat)
    requires Trail(moves, i, trail) && Marked(done0, done, trail) && |done| == |moves| && k < |moves|
    requires moves[k].destination == moves[trail[|trail| - 1]].source
    ensures Trail(moves, i, trail + [k]) && Marked(done0, done[k := true], trail + [k])
  {
  }

  /** When nothing can be emitted every pending move lies on a cycle: following the readers comes back to where it began. */
  lemma {:induction false} PendingOnCycle(moves: seq<Move>, done: seq<bool>, path: seq<nat>, unvisited: set<nat>) returns (c: seq<nat>)
    requires WellFormed(moves) && Knot(moves, PendingSet(done)) && Path(moves, PendingSet(done), path)
    requires forall a, b :: 0 <= a < b < |path| ==> path[a] != path[b]
    requires forall x :: x in PendingSet(done) ==> x in path || x in unvisited
    ensures Cycle(moves, c) && c[0] == path[0]
    decreases |unvisited|
  {
    var knot, last := PendingSet(done), path[|path| - 1];
    assert ReadWithin(moves, knot, last);
    var y :| y in knot && moves[y].source == moves[last].destination;
    if y in path {
      var a :| 0 <= a < |path| && path[a] == y;
      ClosesAtStart(moves, path, a);
      c := path;
    } else {
      c := PendingOnCycle(moves, done, path + [y], unvisited - {y});
    }
  }

  lemma ClosesAtStart(moves: seq<Move>, path: seq<nat>, a: nat)
    requires WellFormed(moves) && |path| > 0 && a < |path|
    requires forall k :: 0 <= k < |path| ==> path[k] < |moves| && Proper(moves[path[k]])
    requires forall k :: 0 <= k < |path| - 1 ==> moves[path[k + 1]].source == moves[path[k]].destination
    requires forall x, y :: 0 <= x < y < |path| ==> path[x] != path[y]
    requires moves[path[a]].source == moves[path[|path| - 1]].destination
    ensures a == 0 && Cycle(moves, path)
  {
    if a > 0 {
      SameWriter(moves, path, a - 1);
    }
  }

  lemma SameWriter(moves: seq<Move>, path: seq<nat>, a: nat)
    requires WellFormed(moves) && a + 1 < |path| && forall k :: 0 <= k < |path| ==> path[k] < |moves|
    requires moves[path[a + 1]].source == moves[path[a]].destination
    requires moves[path[a + 1]].source == moves[path[|path| - 1]].destination
    ensures path[a] == path[|path| - 1]
  {
  }

  lemma FailureIsUnbreakable(moves: seq<Move>, done: seq<bool>, i: nat, intScratch: Location, floatScratch: Location)
    requires WellFormed(moves) && Stuck(moves, done) && i < |done| && !done[i]
    requires !Usable(moves[i].source.cls, intScratch, floatScratch)
    ensures Unbreakable(moves, intScratch, floatScratch)
  {
    StuckIsKnot(moves, done, i);
    assert i in PendingSet(done);
    var c := PendingOnCycle(moves, done, [i], PendingSet(done));
  }

  /** No move changes the register class. */
  predicate KeepsClass(moves: seq<Move>) {
    forall i :: 0 <= i < |moves| ==> moves[i].source.cls == moves[i].destination.cls
  }

  lemma {:induction false} OneClass(moves: seq<Move>, c: seq<nat>, k: nat)
    requires KeepsClass(moves) && Cycle(moves, c) && k < |c|
    ensures moves[c[k]].source.cls == moves[c[0]].source.cls
  {
    if k > 0 {
      OneClass(moves, c, k - 1);
    }
  }

  /** When moves keep their class, no cycle is both breakable and a reason to fail. */
  lemma BreakableUniform(moves: seq<Move>, intScratch: Location, floatScratch: Location)
    requires KeepsClass(moves) && forall c :: Cycle(moves, c) ==> Breakable(moves, c, intScratch, floatScratch)
    ensures !Unbreakable(moves, intScratch, floatScratch)
  {
    forall c | Cycle(moves, c) ensures Usable(moves[c[0]].source.cls, intScratch, floatScratch) {
      var x :| x in c && x < |moves| && Usable(moves[x].source.cls, intScratch, floatScratch);
      var k :| 0 <= k < |c| && c[k] == x;
      OneClass(moves, c, k);
    }
  }

  // ---------------------------------------------------------------- the resolver

  /** The first pending move that writes d, or the number of moves. */
  method FindWriter(moves: seq<Move>, done: seq<bool>, d: Location) returns (k: nat)
    requires |done| == |moves|
    ensures k <= |moves|
    ensures k < |moves| ==> !done[k] && moves[k].destination == d
    ensures k == |moves| ==> forall x :: 0 <= x < |moves| && !done[x] ==> moves[x].destination != d
  {
    k := 0;
    while k < |moves|
      invariant k <= |moves|
      invariant forall x :: 0 <= x < k && !done[x] ==> moves[x].destination != d
    {
      if !done[k] && moves[k].destination == d {
        return;
      }
      k := k + 1;
    }
  }

  /** The two states between rounds: everything delivered so far is right, or something is wrong already. */
  ghost predicate Between(spoilt: bool, moves: seq<Move>, done: seq<bool>, out: seq<Move>) {
    if spoilt then Spoilt(moves, done, out) else Clean(moves, done, out)
  }

  /** Move i was emitted while no pending move read its destination. */
  ghost predicate EmitsMove(moves: seq<Move>, done0: seq<bool>, out0: seq<Move>, done: seq<bool>, out: seq<Move>, i: nat) {
    && |done0| == |moves| && i < |moves| && done == done0[i := true] && out == out0 + [moves[i]]
    && forall k :: 0 <= k < |moves| && !done0[k] && Proper(moves[k]) ==> moves[k].source != moves[i].destination
  }

  /** What holds between rounds whether or not a value went astray. */
  ghost predicate Fair(moves: seq<Move>, done: seq<bool>, out: seq<Move>, intScratch: Location, floatScratch: Location) {
    |done| == |moves| && Served(moves, done, intScratch, floatScratch) && AllPermitted(moves, out, intScratch, floatScratch)
  }

  lemma EmitKeepsFair(moves: seq<Move>, done0: seq<bool>, out0: seq<Move>, done: seq<bool>, out: seq<Move>, i: nat, intScratch: Location, floatScratch: Location)
    requires Fair(moves, done0, out0, intScratch, floatScratch) && EmitsMove(moves, done0, out0, done, out, i)
    ensures Fair(moves, done, out, intScratch, floatScratch)
  {
    EmitKeepsServed(moves, done0, i, intScratch, floatScratch);
    assert moves[i] in moves;
    PermittedMore(moves, out0, moves[i], intScratch, floatScratch);
  }

  /** Emits move i if it is pending and no pending move reads its destination. */
  method EmitOne(ghost spoilt: bool, moves: seq<Move>, done0: seq<bool>, out0: seq<Move>, i: nat)
    returns (done: seq<bool>, out: seq<Move>, emitted: bool)
    requires WellFormed(moves) && Between(spoilt, moves, done0, out0) && i < |moves|
    ensures Between(spoilt, moves, done, out)
    ensures emitted ==> EmitsMove(moves, done0, out0, done, out, i)
    ensures |out| + Pending(done) == |out0| + Pending(done0)
    ensures emitted ==> Pending(done) == Pending(done0) - 1
    ensures !emitted ==> done == done0 && out == out0 && (done[i] || ReadWithin(moves, PendingSet(done), i))
  {
    done, out, emitted := done0, out0, false;
    if !done[i] {
      var used := SourceUsed(moves, done, moves[i].destination);
      if used {
        var k :| 0 <= k < |moves| && !done[k] && moves[k].source == moves[i].destination && Proper(moves[k]);
        assert k in PendingSet(done);
      } else {
        if spoilt {
          EmitKeepsSpoilt(moves, done, out, i, moves[i]);
        } else {
          EmitKeepsClean(moves, done, out, i);
        }
        PendingDrops(done, i);
        out := out + [moves[i]];
        done := done[i := true];
        emitted := true;
      }
    }
  }

  /** Emits every pending move whose destination no pending move reads. */
  method EmitFree(ghost spoilt: bool, moves: seq<Move>, done0: seq<bool>, out0: seq<Move>, left0: nat,
                  ghost intScratch: Location, ghost floatScratch: Location)
    returns (done: seq<bool>, out: seq<Move>, left: nat, progress: bool)
    requires WellFormed(moves) && Between(spoilt, moves, done0, out0) && left0 == Pending(done0)
    requires Fair(moves, done0, out0, intScratch, floatScratch)
    ensures Between(spoilt, moves, done, out) && left == Pending(done) && Fair(moves, done, out, intScratch, floatScratch)
    ensures |out| + Pending(done) == |out0| + Pending(done0)
    ensures progress ==> Pending(done) < Pending(done0)
    ensures !progress ==> done == done0 && out == out0 && Stuck(moves, done)
  {
    done, out, left, progress := done0, out0, left0, false;
    for i := 0 to |moves|
      invariant Between(spoilt, moves, done, out) && left == Pending(done) && Fair(moves, done, out, intScratch, floatScratch)
      invariant |out| + Pending(done) == |out0| + Pending(done0)
      invariant progress ==> Pending(done) < Pending(done0)
      invariant !progress ==> done == done0 && out == out0
      invariant !progress ==> forall x :: x in PendingSet(done) && x < i ==> ReadWithin(moves, PendingSet(done), x)
    {
      var emitted;
      ghost var done1, out1 := done, out;
      done, out, emitted := EmitOne(spoilt, moves, done, out, i);
      if emitted {
        EmitKeepsFair(moves, done1, out1, done, out, i, intScratch, floatScratch);
        left := left - 1;
        progress := true;
      }
    }
  }

  /** While a cycle is being walked: the saved source, and what has not been written, are intact. */
  ghost predicate Walking(moves: seq<Move>, done: seq<bool>, out: seq<Move>, i: nat, scratch: Location)
    requires i < |moves|
  {
    && |done| == |moves|
    && Origin(out, scratch) == moves[i].source
    && (forall l: Location :: !l.kind.Scratch? && Untouched(moves, done, l) ==> Origin(out, l) == l)
  }

  lemma SaveStartsWalk(moves: seq<Move>, done: seq<bool>, out: seq<Move>, i: nat, scratch: Location)
    requires WellFormed(moves) && Clean(moves, done, out) && i < |moves| && !done[i] && scratch.kind.Scratch?
    ensures Walking(moves, done, out + [Move(moves[i].source, scratch)], i, scratch)
  {
    var m := Move(moves[i].source, scratch);
    OriginAppend(out, m, scratch);
    forall l: Location | !l.kind.Scratch? && Untouched(moves, done, l) ensures Origin(out + [m], l) == l {
      OriginAppend(out, m, l);
    }
  }

  lemma StepKeepsWalk(moves: seq<Move>, done: seq<bool>, out: seq<Move>, i: nat, scratch: Location, k: nat)
    requires WellFormed(moves) && i < |moves| && Walking(moves, done, out, i, scratch) && scratch.kind.Scratch?
    requires k < |moves| && !done[k] && Proper(moves[k])
    ensures Walking(moves, done[k := true], out + [moves[k]], i, scratch)
  {
    OriginAppend(out, moves[k], scratch);
    var done' := done[k := true];
    forall l: Location | !l.kind.Scratch? && Untouched(moves, done', l) ensures Origin(out + [moves[k]], l) == l {
      assert Done(moves, done', k);
      assert Untouched(moves, done, l) by {
        forall b | Done(moves, done, b) ensures moves[b].destination != l { assert Done(moves, done', b); }
      }
      OriginAppend(out, moves[k], l);
    }
  }

  /** The last step of the walk stores the saved value where the value of the walk's first destination belongs. */
  lemma LastStepSpoils(moves: seq<Move>, done: seq<bool>, out: seq<Move>, i: nat, scratch: Location, k: nat)
    requires WellFormed(moves) && Knotted(moves) && i < |moves| && Walking(moves, done, out, i, scratch) && scratch.kind.Scratch?
    requires forall p :: 0 <= p < |moves| && !done[p] ==> Proper(moves[p])
    requires k < |moves| && !done[k] && Proper(moves[i]) && moves[k].source == moves[i].destination
    ensures Spoilt(moves, done[k := true], out + [Move(scratch, moves[k].destination)])
  {
    OriginAppend(out, Move(scratch, moves[k].destination), moves[k].destination);
    assert Done(moves, done[k := true], k);
  }

  /** Which moves a walk from move i has finished: each one's destination is read by i or by an earlier one. */
  ghost predicate Walked(moves: seq<Move>, done0: seq<bool>, done: seq<bool>, i: nat, j: nat) {
    && |done0| == |done| == |moves| && i < |moves| && j < |moves| && !done[i] && !done0[j]
    && (if j == i then done == done0 else done[j])
    && (forall x :: 0 <= x < |moves| && done0[x] ==> done[x])
    && (forall x {:trigger ReadEarlier(moves, done0, done, i, j, x)} :: 0 <= x < |moves| && done[x] && !done0[x] ==> ReadEarlier(moves, done0, done, i, j, x))
  }

  ghost predicate ReadEarlier(moves: seq<Move>, done0: seq<bool>, done: seq<bool>, i: nat, j: nat, x: nat)
    requires |done0| == |done| == |moves| && i < |moves| && x < |moves|
  {
    exists y: nat :: y < |moves| && !done0[y] && (y == i || (done[y] && y != j)) && moves[y].source == moves[x].destination
  }

  /** The walk closes at i: the writer of what move j reads is still pending. */
  lemma WalkGoesOn(moves: seq<Move>, done0: seq<bool>, done: seq<bool>, i: nat, j: nat)
    requires WellFormed(moves) && Stuck(moves, done0) && Walked(moves, done0, done, i, j)
    requires j != i ==> moves[j].source != moves[i].destination
    ensures exists k :: 0 <= k < |moves| && !done[k] && moves[k].destination == moves[j].source && k != i
  {
    var k := StuckWrites(moves, done0, j);
    if done[k] {
      assert ReadEarlier(moves, done0, done, i, j, k);
      var y: nat :| y < |moves| && !done0[y] && (y == i || (done[y] && y != j)) && moves[y].source == moves[k].destination;
      StuckReadsApart(moves, done0, y, j);
    }
  }

  ghost predicate OnWalk(spoilt: bool, moves: seq<Move>, done: seq<bool>, out: seq<Move>, i: nat, scratch: Location)
    requires i < |moves|
  {
    if spoilt then Spoilt(moves, done, out) else Walking(moves, done, out, i, scratch)
  }

  lemma WalkStarts(spoilt: bool, moves: seq<Move>, done: seq<bool>, out: seq<Move>, i: nat, scratch: Location)
    requires WellFormed(moves) && Between(spoilt, moves, done, out) && i < |moves| && !done[i] && scratch.kind.Scratch?
    ensures OnWalk(spoilt, moves, done, out + [Move(moves[i].source, scratch)], i, scratch)
  {
    if spoilt {
      ScratchKeepsSpoilt(moves, done, out, Move(moves[i].source, scratch));
    } else {
      SaveStartsWalk(moves, done, out, i, scratch);
    }
  }

  lemma WalkContinues(spoilt: bool, moves: seq<Move>, done: seq<bool>, out: seq<Move>, i: nat, scratch: Location, k: nat)
    requires WellFormed(moves) && i < |moves| && OnWalk(spoilt, moves, done, out, i, scratch) && scratch.kind.Scratch?
    requires k < |moves| && !done[k] && Proper(moves[k])
    ensures OnWalk(spoilt, moves, done[k := true], out + [moves[k]], i, scratch)
  {
    if spoilt {
      EmitKeepsSpoilt(moves, done, out, k, moves[k]);
    } else {
      StepKeepsWalk(moves, done, out, i, scratch, k);
    }
  }

  lemma WalkEnds(spoilt: bool, moves: seq<Move>, done: seq<bool>, out: seq<Move>, i: nat, scratch: Location, k: nat)
    requires WellFormed(moves) && Knotted(moves) && i < |moves| && OnWalk(spoilt, moves, done, out, i, scratch) && scratch.kind.Scratch?
    requires forall p :: 0 <= p < |moves| && !done[p] ==> Proper(moves[p])
    requires k < |moves| && !done[k] && Proper(moves[i]) && moves[k].source == moves[i].destination
    ensures Spoilt(moves, done[k := true], out + [Move(scratch, moves[k].destination)])
  {
    if spoilt {
      EmitKeepsSpoilt(moves, done, out, k, Move(scratch, moves[k].destination));
    } else {
      LastStepSpoils(moves, done, out, i, scratch, k);
    }
  }

  /** One step back along the cycle: the writer of what move j reads. */
  method FollowBack(ghost spoilt: bool, moves: seq<Move>, ghost done0: seq<bool>, done1: seq<bool>, out1: seq<Move>, i: nat, j: nat, scratch: Location)
    returns (done: seq<bool>, out: seq<Move>, k: nat, closed: bool)
    requires WellFormed(moves) && Knotted(moves) && Stuck(moves, done0) && Walked(moves, done0, done1, i, j) && scratch.kind.Scratch?
    requires j != i ==> moves[j].source != moves[i].destination
    requires OnWalk(spoilt, moves, done1, out1, i, scratch)
    ensures |done| == |done1| && Pending(done) == Pending(done1) - 1 && |out| == |out1| + 1
    ensures k < |moves| && moves[k].destination == moves[j].source && done == done1[k := true]
    ensures out == out1 + [if closed then Move(scratch, moves[k].destination) else moves[k]]
    ensures closed <==> moves[k].source == moves[i].destination
    ensures closed ==> Spoilt(moves, done, out)
    ensures !closed ==>
      k != i && Walked(moves, done0, done, i, k) && OnWalk(spoilt, moves, done, out, i, scratch) && moves[k].source != moves[i].destination
  {
    WalkGoesOn(moves, done0, done1, i, j);
    k := FindWriter(moves, done1, moves[j].source);
    if k == |moves| {
      assert false;
    }
    WalkStep(moves, done0, done1, i, j, k);
    PendingDrops(done1, k);
    done := done1[k := true];
    closed := moves[k].source == moves[i].destination;
    if closed {
      WalkEnds(spoilt, moves, done1, out1, i, scratch, k);
      out := out1 + [Move(scratch, moves[k].destination)];
    } else {
      WalkContinues(spoilt, moves, done1, out1, i, scratch, k);
      out := out1 + [moves[k]];
    }
  }

  method FirstPending(done: seq<bool>) returns (i: nat)
    requires Pending(done) > 0
    ensures i < |done| && !done[i]
  {
    SomePending(done);
    i := 0;
    while done[i]
      invariant i < |done| && forall k :: 0 <= k < i ==> done[k]
      decreases |done| - i
    {
      i := i + 1;
    }
  }

  /** Nothing can be emitted: save a source in the scratch location of its class and walk its cycle backwards. */
  method BreakCycle(ghost spoilt: bool, moves: seq<Move>, done0: seq<bool>, out0: seq<Move>, left0: nat, intScratch: Location, floatScratch: Location)
    returns (status: Status, done: seq<bool>, out: seq<Move>, left: nat)
    requires WellFormed(moves) && Stuck(moves, done0) && left0 == Pending(done0) > 0 && Between(spoilt, moves, done0, out0)
    requires Fair(moves, done0, out0, intScratch, floatScratch)
    ensures status.InvalidArgument? ==> Unbreakable(moves, intScratch, floatScratch)
    ensures status.Ok? ==>
              && Spoilt(moves, done, out) && left == Pending(done) < Pending(done0)
              && |out| + 2 * Pending(done) <= |out0| + 2 * Pending(done0)
              && Fair(moves, done, out, intScratch, floatScratch)
  {
    done, out, left := done0, out0, left0;
    var i := FirstPending(done);
    StuckIsKnot(moves, done0, i);
    var scratch := if moves[i].source.cls.Float64? then floatScratch else intScratch;
    if !scratch.kind.Scratch? {
      FailureIsUnbreakable(moves, done, i, intScratch, floatScratch);
      return InvalidArgument, done, out, left;
    }
    WalkStarts(spoilt, moves, done, out, i, scratch);
    PermittedMore(moves, out, Move(moves[i].source, scratch), intScratch, floatScratch);
    out := out + [Move(moves[i].source, scratch)];
    done, out, left := WalkBack(spoilt, moves, done0, out, left, i, scratch, intScratch, floatScratch);
    status := Ok;
  }

  /** Walks the cycle of move i from reader to writer until it closes. */
  method WalkBack(ghost spoilt: bool, moves: seq<Move>, done0: seq<bool>, out0: seq<Move>, left0: nat, i: nat, scratch: Location,
                  ghost intScratch: Location, ghost floatScratch: Location)
    returns (done: seq<bool>, out: seq<Move>, left: nat)
    requires WellFormed(moves) && Knotted(moves) && Stuck(moves, done0) && left0 == Pending(done0)
    requires Fair(moves, done0, out0, intScratch, floatScratch)
    requires Walked(moves, done0, done0, i, i) && OnWalk(spoilt, moves, done0, out0, i, scratch)
    requires i < |moves| && scratch.kind.Scratch? && scratch == ScratchFor(moves[i].source.cls, intScratch, floatScratch)
    ensures Spoilt(moves, done, out) && left == Pending(done) < Pending(done0)
    ensures |out| + Pending(done) == |out0| + Pending(done0)
    ensures Fair(moves, done, out, intScratch, floatScratch)
  {
    done, out, left := done0, out0, left0;
    var j, closed := i, false;
    ghost var trail := [i];
    while !closed
      invariant closed ==> Spoilt(moves, done, out)
      invariant !closed ==> Walked(moves, done0, done, i, j) && OnWalk(spoilt, moves, done, out, i, scratch)
      invariant !closed && j != i ==> moves[j].source != moves[i].destination
      invariant left == Pending(done) <= Pending(done0) && (closed || j != i ==> Pending(done) < Pending(done0))
      invariant |out| + Pending(done) == |out0| + Pending(done0)
      invariant Trail(moves, i, trail) && trail[|trail| - 1] == j && Marked(done0, done, trail)
      invariant closed ==> moves[j].source == moves[i].destination
      invariant AllPermitted(moves, out, intScratch, floatScratch)
      decreases Pending(done)
    {
      ghost var done1, out1 := done, out;
      done, out, j, closed := FollowBack(spoilt, moves, done0, done, out, i, j, scratch);
      left := left - 1;
      TrailGrows(moves, i, trail, done0, done1, j);
      trail := trail + [j];
      PermittedStep(moves, out1, out, i, j, closed, scratch, intScratch, floatScratch);
    }
    BreakKeepsServed(moves, done0, done, i, trail, intScratch, floatScratch);
  }

  lemma PermittedStep(moves: seq<Move>, out0: seq<Move>, out: seq<Move>, i: nat, k: nat, closed: bool, scratch: Location,
                      intScratch: Location, floatScratch: Location)
    requires AllPermitted(moves, out0, intScratch, floatScratch) && i < |moves| && k < |moves|
    requires scratch == ScratchFor(moves[i].source.cls, intScratch, floatScratch)
    requires out == out0 + [if closed then Move(scratch, moves[k].destination) else moves[k]]
    ensures AllPermitted(moves, out, intScratch, floatScratch)
  {
    assert moves[k] in moves;
    PermittedMore(moves, out0, if closed then Move(scratch, moves[k].destination) else moves[k], intScratch, floatScratch);
  }

  lemma WalkStep(moves: seq<Move>, done0: seq<bool>, done: seq<bool>, i: nat, j: nat, k: nat)
    requires WellFormed(moves) && Stuck(moves, done0) && Walked(moves, done0, done, i, j)
    requires j != i ==> moves[j].source != moves[i].destination
    requires k < |moves| && !done[k] && moves[k].destination == moves[j].source
    ensures k != i && Walked(moves, done0, done[k := true], i, k)
  {
    var done' := done[k := true];
    forall x: nat | x < |moves| && done'[x] && !done0[x] ensures ReadEarlier(moves, done0, done', i, k, x) {
      if x == k {
        assert j == i || done[j];
      } else {
        assert ReadEarlier(moves, done0, done, i, j, x);
        var y: nat :| y < |moves| && !done0[y] && (y == i || (done[y] && y != j)) && moves[y].source == moves[x].destination;
        assert y == i || done'[y];
      }
    }
  }

  lemma CleanImplements(moves: seq<Move>, done: seq<bool>, out: seq<Move>)
    requires WellFormed(moves) && Clean(moves, done, out) && forall k :: 0 <= k < |done| ==> done[k]
    ensures Implements(out, moves)
  {
    forall f: File, l: Location | !l.kind.Scratch? ensures Value(out, f, l) == Simultaneous(moves, f, l) {
      ValueIsOrigin(out, f, l);
      CleanOrigin(moves, done, out, f, l);
    }
  }

  lemma CleanAcyclic(moves: seq<Move>, done: seq<bool>, out: seq<Move>)
    requires Clean(moves, done, out) && forall k :: 0 <= k < |done| ==> done[k]
    ensures !Knotted(moves)
  {
  }

  lemma SpoiltFails(moves: seq<Move>, done: seq<bool>, out: seq<Move>)
    requires WellFormed(moves) && Spoilt(moves, done, out)
    ensures !Implements(out, moves)
  {
    var b :| Done(moves, done, b) && Origin(out, moves[b].destination) != moves[b].source;
    var d := moves[b].destination;
    var f: File := l => if l == moves[b].source then 1 else 0;
    ValueIsOrigin(out, f, d);
    assert Simultaneous(moves, f, d) == f(moves[b].source);
  }

  lemma CleanOrigin(moves: seq<Move>, done: seq<bool>, out: seq<Move>, f: File, l: Location)
    requires WellFormed(moves) && Clean(moves, done, out) && (forall k :: 0 <= k < |done| ==> done[k]) && !l.kind.Scratch?
    ensures f(Origin(out, l)) == Simultaneous(moves, f, l)
  {
    if k :| 0 <= k < |moves| && moves[k].destination == l {
      if Proper(moves[k]) {
        assert Done(moves, done, k);
      } else {
        assert Untouched(moves, done, l);
      }
    } else {
      assert Untouched(moves, done, l);
    }
  }

  /**
   * TurboJS_ResolveParallelMoves.  Its result does what the moves mean if and only if the moves
   * contain no cycle; it fits the 2n slots allocated for it; and it fails only for a cycle with a
   * move whose own class has no usable scratch location - exactly then, if moves keep their class.
   */
  method Resolve(moves: seq<Move>, intScratch: Location, floatScratch: Location) returns (status: Status, out: seq<Move>)
    requires WellFormed(moves)
    ensures status.Ok? ==> (Implements(out, moves) <==> !Cyclic(moves))
    ensures status.InvalidArgument? ==> Cyclic(moves) && (!intScratch.kind.Scratch? || !floatScratch.kind.Scratch?)
    ensures status.InvalidArgument? ==> Unbreakable(moves, intScratch, floatScratch)
    ensures status.Ok? ==> forall c :: Cycle(moves, c) ==> Breakable(moves, c, intScratch, floatScratch)
    ensures KeepsClass(moves) ==> (status.InvalidArgument? <==> Unbreakable(moves, intScratch, floatScratch))
    ensures AllPermitted(moves, out, intScratch, floatScratch)
    ensures |out| <= 2 * |moves|
  {
    var done := seq(|moves|, i requires 0 <= i < |moves| => !Proper(moves[i]));
    out := [];
    status := Ok;
    var left := CountPending(done);
    StartsClean(moves, done);
    StartsFair(moves, done, intScratch, floatScratch);
    PendingAtMost(done);
    ghost var spoilt := false;
    while left > 0
      invariant status.Ok? && Between(spoilt, moves, done, out) && left == Pending(done)
      invariant Fair(moves, done, out, intScratch, floatScratch)
      invariant |out| + 2 * Pending(done) <= 2 * |moves|
    {
      status, done, out, left, spoilt := Round(spoilt, moves, done, out, left, intScratch, floatScratch);
      if status.InvalidArgument? {
        UnbreakableIsCyclic(moves, intScratch, floatScratch);
        out := [];
        return;
      }
    }
    SomePending(done);
    AllServed(moves, done, intScratch, floatScratch);
    Delivered(spoilt, moves, done, out);
  }

  /** Emits what can be emitted or, if that is nothing, breaks a cycle. */
  method Round(ghost spoilt0: bool, moves: seq<Move>, done0: seq<bool>, out0: seq<Move>, left0: nat, intScratch: Location, floatScratch: Location)
    returns (status: Status, done: seq<bool>, out: seq<Move>, left: nat, ghost spoilt: bool)
    requires WellFormed(moves) && Between(spoilt0, moves, done0, out0) && left0 == Pending(done0) > 0
    requires Fair(moves, done0, out0, intScratch, floatScratch)
    ensures status.InvalidArgument? ==> Unbreakable(moves, intScratch, floatScratch)
    ensures status.Ok? ==>
              && Between(spoilt, moves, done, out) && left == Pending(done) < Pending(done0)
              && |out| + 2 * Pending(done) <= |out0| + 2 * Pending(done0)
              && Fair(moves, done, out, intScratch, floatScratch)
  {
    var progress;
    status, spoilt := Ok, spoilt0;
    done, out, left, progress := EmitFree(spoilt, moves, done0, out0, left0, intScratch, floatScratch);
    if !progress {
      status, done, out, left := BreakCycle(spoilt, moves, done, out, left, intScratch, floatScratch);
      spoilt := true;
    }
  }

  /** What has been emitted once every move is finished. */
  lemma Delivered(spoilt: bool, moves: seq<Move>, done: seq<bool>, out: seq<Move>)
    requires WellFormed(moves) && Between(spoilt, moves, done, out) && forall k :: 0 <= k < |done| ==> done[k]
    ensures Implements(out, moves) <==> !Cyclic(moves)
  {
    KnottedIffCyclic(moves);
    if spoilt {
      SpoiltFails(moves, done, out);
    } else {
      CleanImplements(moves, done, out);
      CleanAcyclic(moves, done, out);
    }
  }

  lemma UnbreakableIsCyclic(moves: seq<Move>, intScratch: Location, floatScratch: Location)
    requires Unbreakable(moves, intScratch, floatScratch)
    ensures Cyclic(moves) && (!intScratch.kind.Scratch? || !floatScratch.kind.Scratch?)
  {
  }

  lemma StartsFair(moves: seq<Move>, done: seq<bool>, intScratch: Location, floatScratch: Location)
    requires |done| == |moves| && forall i :: 0 <= i < |moves| ==> done[i] == !Proper(moves[i])
    ensures Fair(moves, done, [], intScratch, floatScratch)
  {
    forall c, x | Cycle(moves, c) && x in c ensures !done[x] {
      var k :| 0 <= k < |c| && c[k] == x;
    }
  }

  lemma AllServed(moves: seq<Move>, done: seq<bool>, intScratch: Location, floatScratch: Location)
    requires |done| == |moves| && Served(moves, done, intScratch, floatScratch) && forall k :: 0 <= k < |done| ==> done[k]
    ensures forall c :: Cycle(moves, c) ==> Breakable(moves, c, intScratch, floatScratch)
    ensures KeepsClass(moves) ==> !Unbreakable(moves, intScratch, floatScratch)
  {
    forall c | Cycle(moves, c) ensures Breakable(moves, c, intScratch, floatScratch) {
      assert c[0] in c;
    }
    if KeepsClass(moves) {
      BreakableUniform(moves, intScratch, floatScratch);
    }
  }

  method CountPending(done: seq<bool>) returns (left: nat)
    ensures left == Pending(done)
  {
    left := 0;
    var i := |done|;
    assert done[i..] == [];
    while i > 0
      invariant 0 <= i <= |done| && left == Pending(done[i..])
    {
      i := i - 1;
      assert done[i..][1..] == done[i + 1..];
      if !done[i] {
        left := left + 1;
      }
    }
    assert done[0..] == done;
  }

  lemma {:induction false} PendingAtMost(done: seq<bool>)
    ensures Pending(done) <= |done|
  {
    if done != [] {
      PendingAtMost(done[1..]);
    }
  }

  lemma StartsClean(moves: seq<Move>, done: seq<bool>)
    requires |done| == |moves| && forall i :: 0 <= i < |moves| ==> done[i] == !Proper(moves[i])
    ensures Clean(moves, done, [])
  {
    forall knot, x | Knot(moves, knot) && x in knot ensures !done[x] {
      assert Proper(moves[x]);
    }
  }

  /** Exchanging two registers: both end up with the first one's value. */
  lemma SwapIsWrong(a: Location, b: Location, scratch: Location)
    requires a != b && a.kind.Register? && b.kind.Register? && scratch.kind.Scratch?
    ensures var swap := [Move(a, b), Move(b, a)];
            && WellFormed(swap) && Cyclic(swap)
            && !Implements([Move(a, scratch), Move(scratch, a), Move(a, b)], swap)
  {
    var swap := [Move(a, b), Move(b, a)];
    assert Cycle(swap, [0, 1]);
    var out := [Move(a, scratch), Move(scratch, a), Move(a, b)];
    var f: File := l => if l == b then 1 else 0;
    assert out[..2][..1] == [Move(a, scratch)] && out[..2] == [Move(a, scratch), Move(scratch, a)];
    assert Value(out[..2], f, a) == Value(out[..1], f, scratch) == f(a);
    assert swap[1].destination == a;
    assert Simultaneous(swap, f, a) == f(b);
  }
}
