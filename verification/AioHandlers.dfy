/**
 The list of file descriptor handlers (aio.c), which the handlers themselves may change while it is
 being walked.  A handler's behaviour is a script of registrations; the walks take the scripts
 from a tape, one for each call.  Handlers are numbered, and 0 is the null pointer.
 */
module AioHandlers {
  import opened Sequences

  datatype Entry = Entry(read: nat, write: nat, flush: nat, queue: nat, arg: nat)

  datatype Node = Node(fd: int, entry: Entry, deleted: bool)

  /** A call of qemu_aio_set_fd_handler. */
  datatype Op = Op(fd: int, entry: Entry)

  datatype Event =
    | Registered(op: Op)
    | Called(node: nat, fd: int, write: bool, handler: nat, arg: nat)
    | Queued(node: nat, deleted: bool, result: bool)

  /** The list, its head first; the nodes not yet freed; walking_handlers; the next unused node;
      what has happened. */
  datatype State = State(list: seq<nat>, nodes: map<nat, Node>, walking: bool, next: nat, log: seq<Event>)

  /** What a handler does when called, and what it returns if it is asked. */
  datatype Behaviour = Behaviour(ops: seq<Op>, result: bool)

  type Tape = seq<Behaviour>

  const INITIAL: State := State([], map[], false, 0, [])

  datatype Found = None | Some(node: nat)

  predicate LiveOn(nodes: map<nat, Node>, n: nat, fd: int) {
    n in nodes && nodes[n].fd == fd && !nodes[n].deleted
  }

  /** find_aio_handler. */
  function Find(list: seq<nat>, nodes: map<nat, Node>, fd: int): (r: Found)
    ensures r.Some? ==> r.node in list && LiveOn(nodes, r.node, fd)
    ensures r.None? ==> forall n :: n in list ==> !LiveOn(nodes, n, fd)
  {
    if list == [] then None
    else if LiveOn(nodes, list[0], fd) then Some(list[0])
    else Find(list[1..], nodes, fd)
  }

  function Remove(list: seq<nat>, n: nat): seq<nat> {
    if list == [] then [] else if list[0] == n then list[1..] else [list[0]] + Remove(list[1..], n)
  }

  function Free(s: State, n: nat): State {
    s.(list := Remove(s.list, n), nodes := s.nodes - {n})
  }

  function Deletes(op: Op): bool {
    op.entry.read == 0 && op.entry.write == 0
  }

  /** qemu_aio_set_fd_handler. */
  function SetHandler(s: State, op: Op): State {
    var s1 := s.(log := s.log + [Registered(op)]);
    match Find(s.list, s.nodes, op.fd)
    case Some(n) =>
      if !Deletes(op) then s1.(nodes := s.nodes[n := s.nodes[n].(entry := op.entry)])
      else if s.walking then s1.(nodes := s.nodes[n := s.nodes[n].(deleted := true)])
      else Free(s1, n)
    case None =>
      if Deletes(op) then s1
      else s1.(list := [s.next] + s.list, nodes := s.nodes[s.next := Node(op.fd, op.entry, false)], next := s.next + 1)
  }

  function Script(s: State, ops: seq<Op>): State
    decreases |ops|
  {
    if ops == [] then s else Script(SetHandler(s, ops[0]), ops[1..])
  }

  function Handler(e: Entry, write: bool): nat {
    if write then e.write else e.read
  }

  predicate Wanted(s: State, n: nat, write: bool, ready: set<int>) {
    n in s.nodes && !s.nodes[n].deleted && s.nodes[n].fd in ready && Handler(s.nodes[n].entry, write) != 0
  }

  function LogCall(s: State, n: nat, write: bool): State
    requires n in s.nodes
  {
    var node := s.nodes[n];
    s.(log := s.log + [Called(n, node.fd, write, Handler(node.entry, write), node.entry.arg)])
  }

  /** The read or the write half of what the dispatch walk does at a node. */
  function Call(s: State, n: nat, write: bool, ready: set<int>, tape: Tape): (r: (State, Tape)) {
    if !Wanted(s, n, write, ready) then (s, tape)
    else if tape == [] then (LogCall(s, n, write), tape)
    else (Script(LogCall(s, n, write), tape[0].ops), tape[1..])
  }

  function CallBoth(s: State, n: nat, readable: set<int>, writable: set<int>, tape: Tape): (r: (State, Tape)) {
    var (s1, t1) := Call(s, n, false, readable, tape);
    Call(s1, n, true, writable, t1)
  }

  function Depart(s: State, n: nat): State {
    if n in s.nodes && s.nodes[n].deleted then Free(s, n) else s
  }

  /** What the dispatch walk does at a node, up to moving on. */
  function Visit(s: State, n: nat, readable: set<int>, writable: set<int>, tape: Tape): (r: (State, Tape)) {
    var (s2, t2) := CallBoth(s, n, readable, writable, tape);
    (Depart(s2, n), t2)
  }

  function Walk(s: State, rest: seq<nat>, readable: set<int>, writable: set<int>, tape: Tape): (r: (State, Tape))
    decreases |rest|
  {
    if rest == [] then (s, tape)
    else
      var (s1, t1) := Visit(s, rest[0], readable, writable, tape);
      Walk(s1, rest[1..], readable, writable, t1)
  }

  /** The dispatch walk of qemu_aio_wait, once select has answered. */
  function Dispatch(s: State, readable: set<int>, writable: set<int>, tape: Tape): (r: (State, Tape)) {
    var (s1, t1) := Walk(s.(walking := true), s.list, readable, writable, tape);
    (s1.(walking := false), t1)
  }

  /** The call that qemu_aio_process_queue makes at a node, deleted or not. */
  function QueueCall(s: State, n: nat, tape: Tape): seq<Event> {
    if n in s.nodes && s.nodes[n].entry.queue != 0
    then [Queued(n, s.nodes[n].deleted, tape != [] && tape[0].result)] else []
  }

  function QueueVisit(s: State, n: nat, tape: Tape): (r: (State, Tape)) {
    var call := QueueCall(s, n, tape);
    if call == [] then (s, tape)
    else
      var a := s.(log := s.log + call);
      if tape == [] then (a, tape) else (Script(a, tape[0].ops), tape[1..])
  }

  /** The third component tells whether a handler has returned nonzero. */
  function QueueWalk(s: State, rest: seq<nat>, tape: Tape): (r: (State, Tape, bool))
    decreases |rest|
  {
    if rest == [] then (s, tape, false)
    else
      var call := QueueCall(s, rest[0], tape);
      var (s1, t1) := QueueVisit(s, rest[0], tape);
      var (s2, t2, ret) := QueueWalk(s1, rest[1..], t1);
      (s2, t2, (call != [] && call[0].result) || ret)
  }

  /** qemu_aio_process_queue. */
  function ProcessQueue(s: State, tape: Tape): (r: (State, Tape, bool)) {
    var (s1, t1, ret) := QueueWalk(s.(walking := true), s.list, tape);
    (s1.(walking := false), t1, ret)
  }

  // ---------------------------------------------------------------- what the registrations mean

  /** The handlers of each descriptor as the registrations so far ask for. */
  function Table(log: seq<Event>): map<int, Entry> {
    if log == [] then map[]
    else
      var m, e := Table(log[..|log| - 1]), log[|log| - 1];
      if !e.Registered? then m
      else if e.op.entry.read == 0 && e.op.entry.write == 0 then m - {e.op.fd}
      else m[e.op.fd := e.op.entry]
  }

  /** A call is of what is registered for its descriptor at that moment. */
  ghost predicate GoodCall(log: seq<Event>, k: nat)
    requires k < |log|
  {
    var e, m := log[k], Table(log[..k]);
    e.Called? ==>
      e.fd in m && (if e.write then m[e.fd].write else m[e.fd].read) == e.handler != 0 && m[e.fd].arg == e.arg
  }

  ghost predicate Linked(s: State) {
    NoDup(s.list) && (forall n :: n in s.list <==> n in s.nodes) && forall n :: n in s.nodes ==> n < s.next
  }

  /** A descriptor has at most one live node. */
  ghost predicate OnePerFd(s: State) {
    forall n, m, fd :: LiveOn(s.nodes, n, fd) && LiveOn(s.nodes, m, fd) ==> n == m
  }

  /** The live nodes are the registrations in force. */
  ghost predicate Agrees(s: State) {
    (forall n, fd :: LiveOn(s.nodes, n, fd) ==> fd in Table(s.log) && Table(s.log)[fd] == s.nodes[n].entry) &&
    (forall fd :: fd in Table(s.log) ==> exists n :: LiveOn(s.nodes, n, fd))
  }

  ghost predicate Wf(s: State) {
    Linked(s) && OnePerFd(s) && Agrees(s) && forall k :: 0 <= k < |s.log| ==> GoodCall(s.log, k)
  }

  lemma TableAppend(log: seq<Event>, e: Event)
    ensures Table(log + [e]) ==
      if !e.Registered? then Table(log)
      else if Deletes(e.op) then Table(log) - {e.op.fd}
      else Table(log)[e.op.fd := e.op.entry]
  {
    assert (log + [e])[..|log|] == log;
  }

  lemma GoodCalls(log: seq<Event>, e: Event)
    requires forall k :: 0 <= k < |log| ==> GoodCall(log, k)
    requires e.Called? ==>
      e.fd in Table(log) && Handler(Table(log)[e.fd], e.write) == e.handler != 0 && Table(log)[e.fd].arg == e.arg
    ensures forall k :: 0 <= k < |log + [e]| ==> GoodCall(log + [e], k)
  {
    forall k | 0 <= k < |log + [e]| ensures GoodCall(log + [e], k) {
      if k < |log| {
        assert GoodCall(log, k) && (log + [e])[..k] == log[..k];
      } else {
        assert (log + [e])[..k] == log;
      }
    }
  }

  lemma {:induction false} RemoveMeans(list: seq<nat>, n: nat)
    requires NoDup(list)
    ensures NoDup(Remove(list, n)) && forall m :: m in Remove(list, n) <==> m in list && m != n
    ensures n !in list ==> Remove(list, n) == list
  {
    if list != [] {
      assert list == [list[0]] + list[1..];
      assert forall m :: m in list[1..] ==> m != list[0];
      RemoveMeans(list[1..], n);
      Headed(list[0], Remove(list[1..], n));
    }
  }

  lemma Headed(head: nat, list: seq<nat>)
    ensures NoDup([head] + list) <==> NoDup(list) && head !in list
  {
    var l := [head] + list;
    assert forall j :: 0 <= j < |list| ==> list[j] == l[j + 1];
    if NoDup(l) {
      forall j | 0 <= j < |list| ensures list[j] != head { assert l[0] != l[j + 1]; }
    }
  }

  /** The live node of a descriptor is the one that is found. */
  lemma FindIs(s: State, fd: int)
    requires Wf(s)
    ensures forall n :: LiveOn(s.nodes, n, fd) ==> Find(s.list, s.nodes, fd) == Some(n)
    ensures Find(s.list, s.nodes, fd).Some? ==> Find(s.list, s.nodes, fd).node in s.nodes
  {
    hide Find, Agrees, GoodCall;
  }

  lemma FreeIsWf(s: State, n: nat)
    requires Wf(s) && n in s.nodes && s.nodes[n].deleted
    ensures Wf(Free(s, n))
  {
    var r := Free(s, n);
    RemoveMeans(s.list, n);
    hide GoodCall, Table, Remove;
    assert Linked(r);
    assert forall m, fd :: LiveOn(r.nodes, m, fd) <==> LiveOn(s.nodes, m, fd);
    hide Linked;
  }

  // --------------------------------------------------------------------------- one registration

  lemma SetHandlerIsWf(s: State, op: Op)
    requires Wf(s)
    ensures Wf(SetHandler(s, op))
  {
    GoodCalls(s.log, Registered(op));
    SetHandlerLinks(s, op);
    SetHandlerOnePerFd(s, op);
    SetHandlerAgrees(s, op);
  }

  lemma SetHandlerLinks(s: State, op: Op)
    requires Wf(s)
    ensures Linked(SetHandler(s, op))
  {
    hide Table, GoodCall, Agrees, OnePerFd;
    match Find(s.list, s.nodes, op.fd)
    case Some(n) =>
      hide Find;
      if Deletes(op) && !s.walking { RemoveMeans(s.list, n); }
    case None => Headed(s.next, s.list);
  }

  /** Which nodes are live on which descriptor after a registration. */
  lemma SetHandlerLive(s: State, op: Op, n: nat, fd: int)
    requires Wf(s)
    ensures LiveOn(SetHandler(s, op).nodes, n, fd) <==>
      if fd != op.fd then LiveOn(s.nodes, n, fd)
      else !Deletes(op) && match Find(s.list, s.nodes, fd) case Some(m) => n == m case None => n == s.next
  {
    FindIs(s, op.fd);
    assert s.next !in s.nodes;
    hide Table, GoodCall, Agrees, OnePerFd, Find, Remove;
    assert LiveOn(s.nodes, n, fd) ==> n in s.nodes;
    match Find(s.list, s.nodes, op.fd)
    case Some(m) => assert LiveOn(s.nodes, m, op.fd);
    case None =>
  }

  /** With a read or a write handler the lookup finds the entry just given, in the same node if there was
      one; with neither it finds nothing any more, and the node is gone unless a walk is under way. */
  ghost predicate TakesEffect(s: State, r: State, op: Op) {
    var was, now := Find(s.list, s.nodes, op.fd), Find(r.list, r.nodes, op.fd);
    if op.entry.read != 0 || op.entry.write != 0 then
      && now.Some? && r.nodes[now.node] == Node(op.fd, op.entry, false) && (was.Some? ==> now == was)
      && r.list == if was.Some? then s.list else [now.node] + s.list
    else
      && now.None?
      && (was.Some? ==> if s.walking then was.node in r.nodes && r.nodes[was.node] == s.nodes[was.node].(deleted := true)
                        else was.node !in r.nodes && was.node !in r.list)
      && (was.None? || s.walking ==> r.list == s.list)
  }

  /** What a registration does to its own descriptor, and that it leaves all others alone. */
  ghost predicate Registers(s: State, r: State, op: Op) {
    && TakesEffect(s, r, op)
    && (forall fd :: fd != op.fd ==> Find(r.list, r.nodes, fd) == Find(s.list, s.nodes, fd))
    && (forall n :: n in s.nodes && Find(s.list, s.nodes, op.fd) != Some(n) ==> n in r.nodes && r.nodes[n] == s.nodes[n])
    && r.walking == s.walking && r.log == s.log + [Registered(op)]
  }

  lemma SetHandlerRegisters(s: State, op: Op)
    requires Wf(s)
    ensures Registers(s, SetHandler(s, op), op)
  {
    var r := SetHandler(s, op);
    SetHandlerIsWf(s, op);
    RegisteredNodes(s, op);
    forall fd ensures fd != op.fd ==> Find(r.list, r.nodes, fd) == Find(s.list, s.nodes, fd) {
      if fd != op.fd { OthersFound(s, op, fd); }
    }
    FoundAfter(s, op);
    hide Wf, Find, SetHandler, Remove, TakesEffect;
  }

  lemma RegisteredNodes(s: State, op: Op)
    requires Wf(s)
    ensures var r, was := SetHandler(s, op), Find(s.list, s.nodes, op.fd);
      && (forall n :: n in s.nodes && was != Some(n) ==> n in r.nodes && r.nodes[n] == s.nodes[n])
      && r.walking == s.walking && r.log == s.log + [Registered(op)]
  {
    FindIs(s, op.fd);
    assert s.next !in s.nodes;
    hide Wf, Find, Remove;
  }

  lemma OthersFound(s: State, op: Op, fd: int)
    requires Wf(s) && fd != op.fd
    ensures Find(SetHandler(s, op).list, SetHandler(s, op).nodes, fd) == Find(s.list, s.nodes, fd)
  {
    var r := SetHandler(s, op);
    SetHandlerIsWf(s, op);
    FindIs(s, fd);
    FindIs(r, fd);
    match Find(s.list, s.nodes, fd)
    case Some(n) => SetHandlerLive(s, op, n, fd);
    case None =>
      match Find(r.list, r.nodes, fd)
      case Some(m) => SetHandlerLive(s, op, m, fd);
      case None =>
  }

  lemma FoundAfter(s: State, op: Op)
    requires Wf(s)
    ensures TakesEffect(s, SetHandler(s, op), op)
  {
    var r := SetHandler(s, op);
    SetHandlerIsWf(s, op);
    FindIs(s, op.fd);
    FindIs(r, op.fd);
    assert s.next !in s.nodes;
    assert NoDup(s.list);
    match Find(s.list, s.nodes, op.fd) {
      case Some(n) =>
        SetHandlerLive(s, op, n, op.fd);
        RemoveMeans(s.list, n);
        if Deletes(op) { NoneFound(s, op); }
      case None =>
        SetHandlerLive(s, op, s.next, op.fd);
        if Deletes(op) { NoneFound(s, op); }
    }
    hide Wf, Find, Remove, LiveOn;
  }

  lemma NoneFound(s: State, op: Op)
    requires Wf(s) && Deletes(op)
    ensures Find(SetHandler(s, op).list, SetHandler(s, op).nodes, op.fd).None?
  {
    var r := SetHandler(s, op);
    match Find(r.list, r.nodes, op.fd)
    case Some(n) => SetHandlerLive(s, op, n, op.fd);
    case None =>
  }

  lemma SetHandlerOnePerFd(s: State, op: Op)
    requires Wf(s)
    ensures OnePerFd(SetHandler(s, op))
  {
    var r := SetHandler(s, op);
    forall n, m, fd | LiveOn(r.nodes, n, fd) && LiveOn(r.nodes, m, fd) ensures n == m {
      SetHandlerLive(s, op, n, fd);
      SetHandlerLive(s, op, m, fd);
    }
  }

  lemma SetHandlerAgrees(s: State, op: Op)
    requires Wf(s)
    ensures Agrees(SetHandler(s, op))
  {
    var r, m, m' := SetHandler(s, op), Table(s.log), Table(SetHandler(s, op).log);
    TableAppend(s.log, Registered(op));
    assert m' == if Deletes(op) then m - {op.fd} else m[op.fd := op.entry];
    FindIs(s, op.fd);
    forall n, fd | LiveOn(r.nodes, n, fd) ensures fd in m' && m'[fd] == r.nodes[n].entry {
      SetHandlerLive(s, op, n, fd);
      if fd != op.fd { assert LiveOn(s.nodes, n, fd) && r.nodes[n] == s.nodes[n]; }
    }
    forall fd | fd in m' ensures exists n :: LiveOn(r.nodes, n, fd) {
      if fd != op.fd {
        var n :| LiveOn(s.nodes, n, fd);
        SetHandlerLive(s, op, n, fd);
      } else {
        match Find(s.list, s.nodes, fd)
        case Some(n) => SetHandlerLive(s, op, n, fd);
        case None => SetHandlerLive(s, op, s.next, fd);
      }
    }
  }
}
