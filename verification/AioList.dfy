/**
 The handler list of aio.c changed in place: each operation does what AioHandlers says of it.
 Every node is looked up in the map of nodes not yet freed, so none is used after it was freed.
 */
module AioList {
  import opened Sequences
  import opened AioHandlers
  import opened AioWalks

  class HandlerList {
    var list: seq<nat>
    var nodes: map<nat, Node>
    var walking: bool
    var next: nat
    ghost var log: seq<Event>

    ghost function Now(): State
      reads this
    {
      State(list, nodes, walking, next, log)
    }

    ghost predicate Valid()
      reads this
    {
      Wf(Now())
    }

    constructor ()
      ensures Valid() && Now() == INITIAL
    {
      list, nodes, walking, next, log := [], map[], false, 0, [];
    }

    /** find_aio_handler. */
    method FindHandler(fd: int) returns (r: Found)
      requires Valid()
      ensures r == Find(list, nodes, fd)
    {
      var i := 0;
      assert list[0..] == list;
      while i < |list|
        invariant 0 <= i <= |list|
        invariant Find(list, nodes, fd) == Find(list[i..], nodes, fd)
      {
        var n := list[i];
        assert list[i..][0] == n && list[i..][1..] == list[i + 1..];
        if nodes[n].fd == fd {
          if !nodes[n].deleted { return Some(n); }
        }
        i := i + 1;
      }
      return None;
    }

    /** qemu_aio_set_fd_handler. */
    method SetFdHandler(fd: int, entry: Entry)
      requires Valid()
      modifies this
      ensures Valid() && Now() == SetHandler(old(Now()), Op(fd, entry))
      ensures Registers(old(Now()), Now(), Op(fd, entry))
    {
      SetHandlerRegisters(Now(), Op(fd, entry));
      hide Registers;
      SetHandlerIsWf(Now(), Op(fd, entry));
      FindIs(Now(), fd);
      hide Wf, Remove, Find;
      var found := FindHandler(fd);
      if entry.read == 0 && entry.write == 0 {
        if found.Some? { DeleteHandler(found.node); }
      } else {
        UpdateHandler(fd, entry, found);
      }
      log := log + [Registered(Op(fd, entry))];
    }

    /** A handler is only marked while the list is being walked. */
    method DeleteHandler(n: nat)
      requires n in nodes
      modifies this`list, this`nodes
      ensures list == if walking then old(list) else Remove(old(list), n)
      ensures nodes == if walking then old(nodes)[n := old(nodes)[n].(deleted := true)] else old(nodes) - {n}
    {
      if walking {
        nodes := nodes[n := nodes[n].(deleted := true)];
      } else {
        list, nodes := Remove(list, n), nodes - {n};
      }
    }

    /** A node is put in front of the list if there is none yet; it gets all of the entry. */
    method UpdateHandler(fd: int, entry: Entry, found: Found)
      requires found.Some? ==> found.node in nodes
      modifies this`list, this`nodes, this`next
      ensures match found
        case Some(n) => list == old(list) && next == old(next) && nodes == old(nodes)[n := old(nodes)[n].(entry := entry)]
        case None => list == [old(next)] + old(list) && next == old(next) + 1 && nodes == old(nodes)[old(next) := Node(fd, entry, false)]
    {
      var n;
      if found.None? {
        n, next := next, next + 1;
        nodes := nodes[n := Node(fd, entry, false)];
        list := [n] + list;
      } else {
        n := found.node;
      }
      ghost var was := nodes;
      nodes := nodes[n := nodes[n].(entry := entry)];
      assert found.None? ==> nodes == was;
    }

    /** What a handler does. */
    method RunScript(ops: seq<Op>)
      requires Valid()
      modifies this
      ensures Valid() && Now() == Script(old(Now()), ops)
    {
      ghost var s := Now();
      var i := 0;
      assert ops[0..] == ops;
      while i < |ops|
        invariant 0 <= i <= |ops| && Valid() && Script(Now(), ops[i..]) == Script(s, ops)
      {
        ScriptUnfolds(Now(), ops[i..]);
        assert ops[i..][1..] == ops[i + 1..];
        hide Wf, SetHandler;
        SetFdHandler(ops[i].fd, ops[i].entry);
        i := i + 1;
      }
    }

    /** The read or the write half of a visit. */
    method CallHandler(n: nat, write: bool, ready: set<int>, tape: Tape) returns (rest: Tape)
      requires Valid() && walking && n in nodes
      modifies this
      ensures Valid() && (Now(), rest) == Call(old(Now()), n, write, ready, tape) && walking && n in nodes
      ensures forall tail :: IsTail(tail, old(list)) ==> IsTail(tail, list)
    {
      CallEvolves(Now(), n, write, ready, tape);
      CallKeepsTails(Now(), n, write, ready, tape);
      rest := tape;
      var node := nodes[n];
      var handler := if write then node.entry.write else node.entry.read;
      if !node.deleted && node.fd in ready && handler != 0 {
        LogCallEvolves(Now(), n, write, ready);
        ghost var s := Now();
        log := log + [Called(n, node.fd, write, handler, node.entry.arg)];
        assert Now() == LogCall(s, n, write);
        hide Wf, Evolves, Script;
        if tape != [] {
          RunScript(tape[0].ops);
          rest := tape[1..];
        }
      }
    }

    /** The dispatch walk of qemu_aio_wait.  Handlers may put nodes in front of the list and mark nodes
        deleted, but the node in hand stays linked until its successor has been read. */
    method DispatchWalk(readable: set<int>, writable: set<int>, tape: Tape) returns (rest: Tape)
      requires Valid() && !walking
      modifies this
      ensures Valid() && (Now(), rest) == Dispatch(old(Now()), readable, writable, tape)
    {
      WalkingIsWf(Now(), true);
      walking := true;
      ghost var tail := list;
      ghost var all := Walk(Now(), tail, readable, writable, tape);
      rest := tape;
      var node := First(list);
      assert list[0..] == list;
      while node != Null
        invariant Valid() && walking && IsTail(tail, list) && node == First(tail)
        invariant Walk(Now(), tail, readable, writable, rest) == all
        decreases |tail|
      {
        WalkUnfolds(Now(), tail, readable, writable, rest);
        hide Wf, Walk, Visit;
        node, rest := VisitNode(node.node, tail, readable, writable, rest);
        tail := tail[1..];
      }
      WalkingIsWf(Now(), false);
      walking := false;
    }

    /** One round at node n. */
    method VisitNode(n: nat, ghost tail: seq<nat>, readable: set<int>, writable: set<int>, tape: Tape)
      returns (node: Link, rest: Tape)
      requires Valid() && walking && IsTail(tail, list) && First(tail) == At(n)
      modifies this
      ensures Valid() && walking && IsTail(tail[1..], list) && node == First(tail[1..])
      ensures (Now(), rest) == Visit(old(Now()), n, readable, writable, tape)
    {
      LinkedNode(Now(), tail);
      hide Wf, CallBoth, Depart, IsTail;
      rest := CallHandlers(n, readable, writable, tape);
      node := Leave(n, tail);
    }

    /** The two calls of a round. */
    method CallHandlers(n: nat, readable: set<int>, writable: set<int>, tape: Tape) returns (rest: Tape)
      requires Valid() && walking && n in nodes
      modifies this
      ensures Valid() && walking && n in nodes
      ensures (Now(), rest) == CallBoth(old(Now()), n, readable, writable, tape)
      ensures forall tail :: IsTail(tail, old(list)) ==> IsTail(tail, list)
    {
      hide Wf, Call, IsTail;
      rest := CallHandler(n, false, readable, tape);
      rest := CallHandler(n, true, writable, rest);
    }

    /** The end of a round: the successor of node n is read while n is linked in, and only then is n
        freed if it is marked.  The successor is still there when the walk comes to it. */
    method Leave(n: nat, ghost tail: seq<nat>) returns (node: Link)
      requires Valid() && IsTail(tail, list) && First(tail) == At(n)
      modifies this`list, this`nodes
      ensures Valid() && Now() == Depart(old(Now()), n)
      ensures IsTail(tail[1..], list) && node == First(tail[1..])
      ensures node != Null ==> node.node in list && node.node in nodes
    {
      ghost var s := Now();
      LinkedNode(s, tail);
      DepartKeeps(s, tail);
      hide Wf, IsTail, Remove;
      node := Next(list, n);
      if nodes[n].deleted {
        list, nodes := Remove(list, n), nodes - {n};
      }
      if node != Null { LinkedNode(Now(), tail[1..]); }
    }

    /** qemu_aio_process_queue: nothing is freed here, so the list only grows in front. */
    method ProcessQueues(tape: Tape) returns (ret: bool, rest: Tape)
      requires Valid() && !walking
      modifies this
      ensures Valid() && (Now(), rest, ret) == ProcessQueue(old(Now()), tape)
    {
      WalkingIsWf(Now(), true);
      walking := true;
      ghost var tail := list;
      ghost var all := QueueWalk(Now(), tail, tape);
      ret, rest := false, tape;
      var node := First(list);
      assert list[0..] == list;
      while node != Null
        invariant Valid() && walking && IsTail(tail, list) && node == First(tail)
        invariant var w := QueueWalk(Now(), tail, rest); all == (w.0, w.1, ret || w.2)
        decreases |tail|
      {
        QueueWalkUnfolds(Now(), tail, rest);
        hide Wf, QueueWalk, QueueVisit, QueueCall;
        var result;
        node, result, rest := QueueNode(node.node, tail, rest);
        if result { ret := true; }
        tail := tail[1..];
      }
      WalkingIsWf(Now(), false);
      walking := false;
    }

    /** One round at node n. */
    method QueueNode(n: nat, ghost tail: seq<nat>, tape: Tape) returns (node: Link, result: bool, rest: Tape)
      requires Valid() && walking && IsTail(tail, list) && First(tail) == At(n)
      modifies this
      ensures Valid() && walking && IsTail(tail[1..], list) && node == First(tail[1..])
      ensures (Now(), rest) == QueueVisit(old(Now()), n, tape)
      ensures result == old(var call := QueueCall(Now(), n, tape); call != [] && call[0].result)
    {
      ghost var s := Now();
      LinkedNode(s, tail);
      QueueVisitRuns(s, n, tape);
      TailKept(tail, s, QueueVisit(s, n, tape).0);
      TailOfTail(tail, QueueVisit(s, n, tape).0.list);
      hide Wf, Evolves, QueueVisit, IsTail, NothingFreed;
      result, rest := CallQueue(n, tape);
      LinkedNode(Now(), tail);
      node := Next(list, n);
    }

    /** The call of a node's queue handler, if it has one. */
    method CallQueue(n: nat, tape: Tape) returns (result: bool, rest: Tape)
      requires Valid() && n in nodes
      modifies this
      ensures (Now(), rest) == QueueVisit(old(Now()), n, tape)
      ensures result == old(var call := QueueCall(Now(), n, tape); call != [] && call[0].result)
    {
      result, rest := false, tape;
      QueuedEvolves(Now(), n, tape);
      hide Wf, Evolves, Script, NothingFreed;
      if nodes[n].entry.queue != 0 {
        result := rest != [] && rest[0].result;
        log := log + [Queued(n, nodes[n].deleted, result)];
        if rest != [] {
          RunScript(rest[0].ops);
          rest := rest[1..];
        }
      }
    }
  }

  /** The node that the walk has come to is linked in, not freed, and leads to the rest. */
  lemma LinkedNode(s: State, tail: seq<nat>)
    requires Wf(s) && IsTail(tail, s.list) && tail != []
    ensures tail[0] in s.list && tail[0] in s.nodes && Next(s.list, tail[0]) == First(tail[1..]) && Linked(s)
  {
    NextInTail(tail, s.list);
  }

  lemma DepartKeeps(s: State, tail: seq<nat>)
    requires Wf(s) && IsTail(tail, s.list) && tail != []
    ensures Wf(Depart(s, tail[0])) && IsTail(tail[1..], Depart(s, tail[0]).list)
  {
    var n := tail[0];
    assert Linked(s);
    if n in s.nodes && s.nodes[n].deleted {
      RemoveHead(tail, s.list);
      hide Wf;
      FreeIsWf(s, n);
    } else {
      TailOfTail(tail, s.list);
    }
  }

  lemma CallKeepsTails(s: State, n: nat, write: bool, ready: set<int>, tape: Tape)
    requires Wf(s) && s.walking
    ensures forall tail :: IsTail(tail, s.list) ==> IsTail(tail, Call(s, n, write, ready, tape).0.list)
  {
    var r := Call(s, n, write, ready, tape).0;
    CallEvolves(s, n, write, ready, tape);
    assert Linked(s) && Shape(s, r);
    hide Wf, Call, Evolves;
    forall tail | IsTail(tail, s.list) ensures IsTail(tail, r.list) { TailKept(tail, s, r); }
  }
}
