/**
 * The lists the event loop polls: read/write handlers of file descriptors and the message ports of
 * worker objects.  Functions are numbered.
 */
module Handlers {
  import opened Prelude

  datatype Handler = Handler(fd: int, read: Option<nat>, write: Option<nat>)

  datatype Side = Read | Write

  /** The argument of setReadHandler, setWriteHandler and onmessage. */
  datatype Argument = Null | NotAFunction | Function(f: nat)

  function Of(h: Handler, side: Side): Option<nat> {
    if side.Read? then h.read else h.write
  }

  function With(h: Handler, side: Side, f: Option<nat>): Handler {
    if side.Read? then h.(read := f) else h.(write := f)
  }

  /** What a list of handlers says about one side of a descriptor. */
  function Lookup(hs: seq<Handler>, fd: int, side: Side): Option<nat> {
    if hs == [] then None else if hs[0].fd == fd then Of(hs[0], side) else Lookup(hs[1..], fd, side)
  }

  /** One entry per descriptor and no entry without a function: the list is a finite map. */
  ghost predicate Valid(hs: seq<Handler>) {
    && (forall i, j :: 0 <= i < j < |hs| ==> hs[i].fd != hs[j].fd)
    && (forall i :: 0 <= i < |hs| ==> hs[i].read.Some? || hs[i].write.Some?)
  }

  lemma {:induction false} LookupAt(hs: seq<Handler>, i: nat, side: Side)
    requires i < |hs| && forall j :: 0 <= j < i ==> hs[j].fd != hs[i].fd
    ensures Lookup(hs, hs[i].fd, side) == Of(hs[i], side)
  {
    if i > 0 {
      LookupAt(hs[1..], i - 1, side);
    }
  }

  lemma {:induction false} LookupAbsent(hs: seq<Handler>, fd: int, side: Side)
    requires forall i :: 0 <= i < |hs| ==> hs[i].fd != fd
    ensures Lookup(hs, fd, side) == None
  {
    if hs != [] {
      LookupAbsent(hs[1..], fd, side);
    }
  }

  /** Lists whose entries for one descriptor agree, or are both missing, say the same about it. */
  lemma {:induction false} LookupSame(hs: seq<Handler>, hs': seq<Handler>, fd: int, side: Side)
    requires |hs| == |hs'|
    requires forall i :: 0 <= i < |hs| ==> hs[i].fd == hs'[i].fd && (hs[i].fd == fd ==> hs[i] == hs'[i])
    ensures Lookup(hs, fd, side) == Lookup(hs', fd, side)
  {
    if hs != [] {
      LookupSame(hs[1..], hs'[1..], fd, side);
    }
  }

  lemma {:induction false} LookupRemoved(hs: seq<Handler>, i: nat, fd: int, side: Side)
    requires i < |hs| && hs[i].fd != fd
    ensures Lookup(hs[..i] + hs[i + 1..], fd, side) == Lookup(hs, fd, side)
  {
    var rest := hs[..i] + hs[i + 1..];
    if i == 0 {
      assert rest == hs[1..];
    } else {
      assert rest[0] == hs[0] && rest[1..] == hs[1..][..i - 1] + hs[1..][i..];
      LookupRemoved(hs[1..], i - 1, fd, side);
    }
  }

  lemma {:induction false} LookupAppend(hs: seq<Handler>, h: Handler, fd: int, side: Side)
    requires forall i :: 0 <= i < |hs| ==> hs[i].fd != h.fd
    ensures Lookup(hs + [h], fd, side) == if fd == h.fd then Of(h, side) else Lookup(hs, fd, side)
  {
    if hs == [] {
      assert hs + [h] == [h];
    } else {
      assert (hs + [h])[1..] == hs[1..] + [h];
      LookupAppend(hs[1..], h, fd, side);
    }
  }

  /** The map after one side of one descriptor was set. */
  ghost predicate Updated(hs: seq<Handler>, hs': seq<Handler>, fd: int, side: Side, f: Option<nat>) {
    forall d: int, s: Side :: Lookup(hs', d, s) == if d == fd && s == side then f else Lookup(hs, d, s)
  }

  lemma ReplacedUpdates(hs: seq<Handler>, i: nat, side: Side, f: Option<nat>)
    requires Valid(hs) && i < |hs|
    ensures Updated(hs, hs[i := With(hs[i], side, f)], hs[i].fd, side, f)
  {
    var hs' := hs[i := With(hs[i], side, f)];
    forall d: int, s: Side ensures Lookup(hs', d, s) == if d == hs[i].fd && s == side then f else Lookup(hs, d, s) {
      if d == hs[i].fd {
        LookupAt(hs, i, s);
        LookupAt(hs', i, s);
      } else {
        LookupSame(hs, hs', d, s);
      }
    }
  }

  lemma RemovedUpdates(hs: seq<Handler>, i: nat, side: Side)
    requires Valid(hs) && i < |hs| && With(hs[i], side, None) == Handler(hs[i].fd, None, None)
    ensures Updated(hs, hs[..i] + hs[i + 1..], hs[i].fd, side, None) && Valid(hs[..i] + hs[i + 1..])
  {
    var hs' := hs[..i] + hs[i + 1..];
    forall j | 0 <= j < |hs'| ensures hs'[j] == hs[if j < i then j else j + 1] {
    }
    forall d: int, s: Side ensures Lookup(hs', d, s) == if d == hs[i].fd && s == side then None else Lookup(hs, d, s) {
      if d == hs[i].fd {
        LookupAbsent(hs', d, s);
        LookupAt(hs, i, s);
      } else {
        LookupRemoved(hs, i, d, s);
      }
    }
  }

  lemma AppendedUpdates(hs: seq<Handler>, fd: int, side: Side, f: nat)
    requires Valid(hs) && forall i :: 0 <= i < |hs| ==> hs[i].fd != fd
    ensures
      var hs' := hs + [With(Handler(fd, None, None), side, Some(f))];
      Updated(hs, hs', fd, side, Some(f)) && Valid(hs')
  {
    var h := With(Handler(fd, None, None), side, Some(f));
    forall d: int, s: Side ensures Lookup(hs + [h], d, s) == if d == fd && s == side then Some(f) else Lookup(hs, d, s) {
      LookupAppend(hs, h, d, s);
      if d == fd {
        LookupAbsent(hs, d, s);
      }
    }
  }

  /** The position of the descriptor's entry, or the length of the list. */
  function Slot(hs: seq<Handler>, fd: int): (i: nat)
    ensures i <= |hs|
    ensures i < |hs| ==> hs[i].fd == fd
    ensures forall j :: 0 <= j < i ==> hs[j].fd != fd
  {
    if hs == [] || hs[0].fd == fd then 0 else 1 + Slot(hs[1..], fd)
  }

  lemma SlotIs(hs: seq<Handler>, fd: int, i: nat)
    requires i <= |hs| && (i < |hs| ==> hs[i].fd == fd) && forall j :: 0 <= j < i ==> hs[j].fd != fd
    ensures i == Slot(hs, fd)
  {
  }

  /** The list after one side of one descriptor was set: entries keep their places, new ones come last, empty ones go. */
  function Changed(hs: seq<Handler>, fd: int, side: Side, f: Option<nat>): seq<Handler> {
    var i := Slot(hs, fd);
    if i == |hs| then (if f.None? then hs else hs + [With(Handler(fd, None, None), side, f)])
    else if With(hs[i], side, f) == Handler(fd, None, None) then hs[..i] + hs[i + 1..]
    else hs[i := With(hs[i], side, f)]
  }

  /** As a map from descriptors and sides to functions, that is an update; and the list stays a map. */
  lemma ChangedUpdates(hs: seq<Handler>, fd: int, side: Side, f: Option<nat>)
    requires Valid(hs)
    ensures Valid(Changed(hs, fd, side, f)) && Updated(hs, Changed(hs, fd, side, f), fd, side, f)
  {
    var i := Slot(hs, fd);
    if i == |hs| {
      if f.None? {
        LookupAbsent(hs, fd, side);
      } else {
        AppendedUpdates(hs, fd, side, f.value);
      }
    } else if With(hs[i], side, f) == Handler(fd, None, None) {
      RemovedUpdates(hs, i, side);
    } else {
      ReplacedUpdates(hs, i, side, f);
    }
  }

  datatype Port = Port(worker: nat, func: Option<nat>)

  function PortSlot(ports: seq<Port>, worker: nat): (i: nat)
    ensures i <= |ports|
    ensures i < |ports| ==> ports[i].worker == worker
    ensures forall j :: 0 <= j < i ==> ports[j].worker != worker
  {
    if ports == [] || ports[0].worker == worker then 0 else 1 + PortSlot(ports[1..], worker)
  }

  function ChangedPorts(ports: seq<Port>, worker: nat, f: Option<nat>): seq<Port> {
    var i := PortSlot(ports, worker);
    if i == |ports| then (if f.None? then ports else ports + [Port(worker, f)])
    else if f.None? then ports[..i] + ports[i + 1..]
    else ports[i := Port(worker, f)]
  }

  /** The ports after the change are those of other workers and the one set. */
  lemma ChangedPortsUpdates(ports: seq<Port>, worker: nat, f: Option<nat>)
    requires ValidPorts(ports)
    ensures ValidPorts(ChangedPorts(ports, worker, f))
    ensures forall p :: p in ChangedPorts(ports, worker, f) <==> (p in ports && p.worker != worker) || (f.Some? && p == Port(worker, f))
  {
    var i := PortSlot(ports, worker);
    if i < |ports| {
      if f.None? {
        RemovedPort(ports, i);
      } else {
        ReplacedPort(ports, i, f.value);
      }
    }
  }

  /** The function an argument sets; None to remove. */
  function Wanted(func: Argument): Option<nat> {
    if func.Function? then Some(func.f) else None
  }

  ghost predicate ValidPorts(ports: seq<Port>) {
    && (forall i :: 0 <= i < |ports| ==> ports[i].func.Some?)
    && (forall i, j :: 0 <= i < j < |ports| ==> ports[i].worker != ports[j].worker)
  }

  class Lists {
    var handlers: seq<Handler>
    var ports: seq<Port>

    constructor ()
      ensures handlers == [] && ports == []
    {
      handlers, ports := [], [];
    }

    /** find_rh: the position of the descriptor's entry, or the length of the list. */
    method FindHandler(fd: int) returns (i: nat)
      ensures i <= |handlers|
      ensures i < |handlers| ==> handlers[i].fd == fd
      ensures forall j :: 0 <= j < i ==> handlers[j].fd != fd
    {
      i := 0;
      while i < |handlers| && handlers[i].fd != fd
        invariant i <= |handlers|
        invariant forall j :: 0 <= j < i ==> handlers[j].fd != fd
      {
        i := i + 1;
      }
    }

    /** js_os_setReadHandler and setWriteHandler: an update of the map, whose empty entries disappear. */
    method SetHandler(fd: int, side: Side, func: Argument) returns (ok: bool)
      requires Valid(handlers)
      modifies this`handlers
      ensures Valid(handlers)
      ensures ok <==> !func.NotAFunction?
      ensures handlers == if ok then Changed(old(handlers), fd, side, Wanted(func)) else old(handlers)
      ensures ok ==> Updated(old(handlers), handlers, fd, side, if func.Null? then None else Some(func.f))
    {
      if func.NotAFunction? {
        return false;
      }
      ChangedUpdates(handlers, fd, side, Wanted(func));
      var i := FindHandler(fd);
      SlotIs(handlers, fd, i);
      if func.Null? {
        if i < |handlers| {
          var h := With(handlers[i], side, None);
          if h.read.None? && h.write.None? {
            handlers := handlers[..i] + handlers[i + 1..];
          } else {
            handlers := handlers[i := h];
          }
        }
      } else if i < |handlers| {
        handlers := handlers[i := With(handlers[i], side, Some(func.f))];
      } else {
        handlers := handlers + [With(Handler(fd, None, None), side, Some(func.f))];
      }
      return true;
    }

    /** js_worker_set_onmessage and js_free_port: the ports are a finite map from worker objects to functions. */
    method SetOnMessage(worker: nat, func: Argument) returns (ok: bool)
      requires ValidPorts(ports)
      modifies this`ports
      ensures ValidPorts(ports)
      ensures ok <==> !func.NotAFunction?
      ensures ports == if ok then ChangedPorts(old(ports), worker, Wanted(func)) else old(ports)
      ensures ok ==> forall p :: p in ports <==>
        (p in old(ports) && p.worker != worker) || (func.Function? && p == Port(worker, Some(func.f)))
    {
      if func.NotAFunction? {
        return false;
      }
      ChangedPortsUpdates(ports, worker, Wanted(func));
      var i := 0;
      while i < |ports| && ports[i].worker != worker
        invariant i <= |ports|
        invariant forall j :: 0 <= j < i ==> ports[j].worker != worker
      {
        i := i + 1;
      }
      if func.Null? {
        if i < |ports| {
          ports := ports[..i] + ports[i + 1..];
        }
      } else if i < |ports| {
        ports := ports[i := Port(worker, Some(func.f))];
      } else {
        ports := ports + [Port(worker, Some(func.f))];
      }
      return true;
    }
  }

  lemma RemovedPort(ports: seq<Port>, i: nat)
    requires ValidPorts(ports) && i < |ports|
    ensures ValidPorts(ports[..i] + ports[i + 1..])
    ensures forall p :: p in ports[..i] + ports[i + 1..] <==> p in ports && p.worker != ports[i].worker
  {
    var rest := ports[..i] + ports[i + 1..];
    forall j | 0 <= j < |rest| ensures rest[j] == ports[if j < i then j else j + 1] {
    }
    forall p | p in ports && p.worker != ports[i].worker ensures p in rest {
      var j :| 0 <= j < |ports| && ports[j] == p;
      assert rest[if j < i then j else j - 1] == p;
    }
  }

  lemma ReplacedPort(ports: seq<Port>, i: nat, f: nat)
    requires ValidPorts(ports) && i < |ports|
    ensures
      var p' := Port(ports[i].worker, Some(f));
      && ValidPorts(ports[i := p'])
      && forall p :: p in ports[i := p'] <==> (p in ports && p.worker != ports[i].worker) || p == p'
  {
    var p' := Port(ports[i].worker, Some(f));
    var new_ := ports[i := p'];
    assert new_[i] == p';
    forall p | p in ports && p.worker != ports[i].worker ensures p in new_ {
      var j :| 0 <= j < |ports| && ports[j] == p;
      assert new_[j] == p;
    }
  }
}
