/**
 Walking the handler list of AioHandlers while its handlers change it: what one walk calls, what
 it frees and what it leaves.
 */
module AioWalks {
  import opened Sequences
  import opened AioHandlers

  // ---------------------------------------------------------------------- how the list may change

  /** The nodes of a list that are still there. */
  function Keep(list: seq<nat>, nodes: map<nat, Node>): seq<nat> {
    if list == [] then [] else (if list[0] in nodes then [list[0]] else []) + Keep(list[1..], nodes)
  }

  /** New nodes in front, and the old ones that are still there in their old order. */
  ghost predicate Shape(s: State, r: State) {
    exists added: seq<nat> :: Added(s, r, added)
  }

  ghost predicate Added(s: State, r: State, added: seq<nat>) {
    r.list == added + Keep(s.list, r.nodes) && forall n :: n in added ==> n >= s.next
  }

  /** After the first `from` events there was a registration for the descriptor. */
  ghost predicate Touched(log: seq<Event>, from: nat, fd: int) {
    exists k :: from <= k < |log| && log[k].Registered? && log[k].op.fd == fd
  }

  ghost predicate SameNodes(s: State, r: State) {
    (forall n :: n in s.nodes && n in r.nodes ==>
      r.nodes[n].fd == s.nodes[n].fd && (s.nodes[n].deleted ==> r.nodes[n] == s.nodes[n])) &&
    (forall n :: n in r.nodes && n !in s.nodes ==> n >= s.next)
  }

  /** A live node whose descriptor no registration names stays live, with its handlers. */
  ghost predicate Persist(s: State, r: State) {
    forall n, fd :: LiveOn(s.nodes, n, fd) && !Touched(r.log, |s.log|, fd) ==>
      LiveOn(r.nodes, n, fd) && r.nodes[n].entry == s.nodes[n].entry
  }

  /** What any piece of execution does to the handlers. */
  ghost predicate Evolves(s: State, r: State) {
    r.walking == s.walking && s.log <= r.log && s.next <= r.next && Shape(s, r) && SameNodes(s, r) && Persist(s, r)
  }

  ghost predicate NothingFreed(s: State, r: State) {
    forall n :: n in s.nodes ==> n in r.nodes
  }

  lemma KeepAll(list: seq<nat>, nodes: map<nat, Node>)
    requires forall n :: n in list ==> n in nodes
    ensures Keep(list, nodes) == list
  {}

  lemma KeepConcat(x: seq<nat>, y: seq<nat>, nodes: map<nat, Node>)
    ensures Keep(x + y, nodes) == Keep(x, nodes) + Keep(y, nodes)
  {
    if x != [] {
      assert (x + y)[1..] == x[1..] + y;
      KeepConcat(x[1..], y, nodes);
    } else {
      assert x + y == y;
    }
  }

  lemma KeepTwice(list: seq<nat>, a: map<nat, Node>, r: map<nat, Node>)
    requires forall n :: n in list && n in r ==> n in a
    ensures Keep(Keep(list, a), r) == Keep(list, r)
  {
    if list != [] {
      KeepTwice(list[1..], a, r);
      KeepConcat(if list[0] in a then [list[0]] else [], Keep(list[1..], a), r);
    }
  }

  lemma KeepIn(list: seq<nat>, nodes: map<nat, Node>)
    ensures forall n :: n in Keep(list, nodes) <==> n in list && n in nodes
  {}

  lemma {:induction false} KeepIsRemove(list: seq<nat>, nodes: map<nat, Node>, n: nat)
    requires NoDup(list) && forall m :: m in list ==> m in nodes
    ensures Keep(list, nodes - {n}) == Remove(list, n)
  {
    if list != [] {
      assert list == [list[0]] + list[1..];
      Headed(list[0], list[1..]);
      if list[0] == n {
        KeepAll(list[1..], nodes - {n});
      } else {
        KeepIsRemove(list[1..], nodes, n);
      }
    }
  }

  lemma ShapeCompose(s: State, a: State, r: State)
    requires Linked(s) && Shape(s, a) && Shape(a, r) && SameNodes(s, a) && SameNodes(a, r) && s.next <= a.next
    ensures Shape(s, r)
  {
    var x :| Added(s, a, x);
    var y :| Added(a, r, y);
    var k := Keep(s.list, a.nodes);
    assert forall n :: n in s.list && n in r.nodes ==> n in a.nodes;
    hide SameNodes, Shape, Keep;
    KeepConcat(x, k, r.nodes);
    KeepTwice(s.list, a.nodes, r.nodes);
    KeepIn(x, r.nodes);
    var added := y + Keep(x, r.nodes);
    Assoc(y, Keep(x, r.nodes), Keep(k, r.nodes));
    assert r.list == added + Keep(s.list, r.nodes);
    ShapeIntro(s, r, added);
  }

  lemma ShapeIntro(s: State, r: State, added: seq<nat>)
    requires Added(s, r, added)
    ensures Shape(s, r)
  {}

  lemma TouchedGrows(log: seq<Event>, log': seq<Event>, from: nat, from': nat, fd: int)
    requires log <= log' && from' <= from && Touched(log, from, fd)
    ensures Touched(log', from', fd)
  {
    var k :| from <= k < |log| && log[k].Registered? && log[k].op.fd == fd;
    assert log'[k] == log[k];
  }

  lemma EvolvesCompose(s: State, a: State, r: State)
    requires Wf(s) && Evolves(s, a) && Evolves(a, r)
    ensures Evolves(s, r)
    ensures NothingFreed(s, a) && NothingFreed(a, r) ==> NothingFreed(s, r)
  {
    ShapeCompose(s, a, r);
    assert SameNodes(s, r);
    hide Shape, SameNodes, Wf, Touched;
    forall n, fd | LiveOn(s.nodes, n, fd) && !Touched(r.log, |s.log|, fd)
      ensures LiveOn(r.nodes, n, fd) && r.nodes[n].entry == s.nodes[n].entry
    {
      if Touched(a.log, |s.log|, fd) { TouchedGrows(a.log, r.log, |s.log|, |s.log|, fd); }
      if Touched(r.log, |a.log|, fd) { TouchedGrows(r.log, r.log, |a.log|, |s.log|, fd); }
    }
  }

  lemma SetHandlerEvolves(s: State, op: Op)
    requires Wf(s)
    ensures Evolves(s, SetHandler(s, op)) && (s.walking ==> NothingFreed(s, SetHandler(s, op)))
  {
    var r := SetHandler(s, op);
    SetHandlerShape(s, op);
    SetHandlerPersist(s, op);
    FindIs(s, op.fd);
    assert forall n :: n in s.nodes ==> n < s.next;
    hide Shape, SameNodes, Find, Remove, Wf, Persist;
  }

  lemma SetHandlerPersist(s: State, op: Op)
    requires Wf(s)
    ensures Persist(s, SetHandler(s, op))
  {
    var r := SetHandler(s, op);
    assert r.log[|s.log|] == Registered(op);
    forall n, fd | LiveOn(s.nodes, n, fd) && !Touched(r.log, |s.log|, fd)
      ensures LiveOn(r.nodes, n, fd) && r.nodes[n].entry == s.nodes[n].entry
    {
      SetHandlerLive(s, op, n, fd);
      FindIs(s, op.fd);
    }
  }

  lemma ShapeSame(s: State, r: State)
    requires Linked(s) && NothingFreed(s, r) && (r.list == s.list || r.list == [s.next] + s.list)
    ensures Shape(s, r)
  {
    KeepAll(s.list, r.nodes);
    assert [] + s.list == s.list;
    assert Added(s, r, if r.list == s.list then [] else [s.next]);
  }

  lemma FreeShape(s: State, r: State, n: nat)
    requires Linked(s) && r.list == Remove(s.list, n) && r.nodes == s.nodes - {n}
    ensures Shape(s, r) && SameNodes(s, r)
  {
    KeepIsRemove(s.list, s.nodes, n);
    assert [] + r.list == r.list;
    assert Added(s, r, []);
  }

  lemma SetHandlerShape(s: State, op: Op)
    requires Wf(s)
    ensures Shape(s, SetHandler(s, op)) && SameNodes(s, SetHandler(s, op))
  {
    var r := SetHandler(s, op);
    FindIs(s, op.fd);
    assert Linked(s);
    hide Find, Wf, Shape, Remove, SameNodes;
    match Find(s.list, s.nodes, op.fd)
    case Some(n) =>
      if Deletes(op) && !s.walking { FreeShape(s, r, n); } else { ShapeSame(s, r); SetsOne(s, r, n); }
    case None =>
      ShapeSame(s, r);
      SetsOne(s, r, s.next);
  }

  lemma SetsOne(s: State, r: State, n: nat)
    requires Linked(s) && (r.nodes == s.nodes || (n in r.nodes && r.nodes == s.nodes[n := r.nodes[n]]))
    requires n in s.nodes && n in r.nodes ==> r.nodes[n].fd == s.nodes[n].fd && (s.nodes[n].deleted ==> r.nodes[n] == s.nodes[n])
    requires n in s.nodes || n == s.next
    ensures SameNodes(s, r)
  {}

  lemma EvolvesNot(s: State)
    requires Wf(s)
    ensures Evolves(s, s) && NothingFreed(s, s)
  {
    KeepAll(s.list, s.nodes);
    assert [] + s.list == s.list;
    assert Added(s, s, []);
  }

  // ------------------------------------------------------------------------------------- calls

  /** The calls of read and write handlers, in order. */
  function Calls(log: seq<Event>): (r: seq<Event>)
    ensures forall e :: e in r ==> e.Called?
  {
    if log == [] then []
    else
      var e := log[|log| - 1];
      if e.Called? then Calls(log[..|log| - 1]) + [e] else Calls(log[..|log| - 1])
  }

  lemma CallsAppend(log: seq<Event>, e: Event)
    ensures Calls(log + [e]) == if e.Called? then Calls(log) + [e] else Calls(log)
  {
    assert (log + [e])[..|log|] == log;
  }

  lemma ScriptUnfolds(s: State, ops: seq<Op>)
    requires ops != []
    ensures Script(s, ops) == Script(SetHandler(s, ops[0]), ops[1..])
    ensures SetHandler(s, ops[0]).walking == s.walking && SetHandler(s, ops[0]).log == s.log + [Registered(ops[0])]
  {}

  lemma ScriptEvolves(s: State, ops: seq<Op>)
    requires Wf(s)
    ensures var r := Script(s, ops); Wf(r) && Evolves(s, r) && (s.walking ==> NothingFreed(s, r))
    ensures Calls(Script(s, ops).log) == Calls(s.log)
    decreases |ops|
  {
    EvolvesNot(s);
    if ops != [] {
      ScriptUnfolds(s, ops);
      hide *;
      var a := SetHandler(s, ops[0]);
      SetHandlerIsWf(s, ops[0]);
      SetHandlerEvolves(s, ops[0]);
      CallsAppend(s.log, Registered(ops[0]));
      ScriptEvolves(a, ops[1..]);
      EvolvesCompose(s, a, Script(s, ops));
    }
  }

  lemma EvolvesWalking(s: State, r: State)
    requires Evolves(s, r)
    ensures r.walking == s.walking && s.log <= r.log && s.next <= r.next
  {}

  lemma FreeEvolves(s: State, n: nat)
    requires Wf(s) && n in s.nodes && s.nodes[n].deleted
    ensures Wf(Free(s, n)) && Evolves(s, Free(s, n))
  {
    FreeIsWf(s, n);
    FreeShape(s, Free(s, n), n);
    assert Linked(s);
    hide Wf, Shape, SameNodes, Remove, Touched, Linked;
    FreePersist(s, n);
    hide Persist;
  }

  lemma FreePersist(s: State, n: nat)
    requires n in s.nodes && s.nodes[n].deleted
    ensures Persist(s, Free(s, n))
  {
    hide Touched, Remove;
    forall m, fd | LiveOn(s.nodes, m, fd) ensures LiveOn(Free(s, n).nodes, m, fd) {
      assert m != n;
    }
  }

  /** The call that one half of a visit makes. */
  function CallOf(s: State, n: nat, write: bool, ready: set<int>): (r: seq<Event>) {
    if !Wanted(s, n, write, ready) then []
    else
      var node := s.nodes[n];
      [Called(n, node.fd, write, Handler(node.entry, write), node.entry.arg)]
  }

  lemma LogEvolves(s: State, e: Event)
    requires Linked(s)
    ensures Evolves(s, s.(log := s.log + [e])) && NothingFreed(s, s.(log := s.log + [e]))
  {
    var r := s.(log := s.log + [e]);
    ShapeSame(s, r);
    hide Shape, Touched;
  }

  lemma LogCallEvolves(s: State, n: nat, write: bool, ready: set<int>)
    requires Wf(s) && Wanted(s, n, write, ready)
    ensures var r := LogCall(s, n, write);
      Wf(r) && Evolves(s, r) && NothingFreed(s, r) && Calls(r.log) == Calls(s.log) + CallOf(s, n, write, ready)
  {
    var r := LogCall(s, n, write);
    var e := CallOf(s, n, write, ready)[0];
    assert r.log == s.log + [e];
    assert LiveOn(s.nodes, n, s.nodes[n].fd);
    GoodCalls(s.log, e);
    TableAppend(s.log, e);
    CallsAppend(s.log, e);
    hide GoodCall, Table, Calls, Evolves;
    LogEvolves(s, e);
  }

  lemma CallEvolves(s: State, n: nat, write: bool, ready: set<int>, tape: Tape)
    requires Wf(s) && s.walking
    ensures var r := Call(s, n, write, ready, tape).0; Wf(r) && Evolves(s, r) && NothingFreed(s, r) && r.walking
    ensures Calls(Call(s, n, write, ready, tape).0.log) == Calls(s.log) + CallOf(s, n, write, ready)
  {
    var r := Call(s, n, write, ready, tape).0;
    if !Wanted(s, n, write, ready) {
      EvolvesNot(s);
    } else {
      LogCallEvolves(s, n, write, ready);
      var a := LogCall(s, n, write);
      assert r == if tape == [] then a else Script(a, tape[0].ops);
      hide Wf, Calls, Evolves, CallOf, NothingFreed;
      if tape != [] {
        ScriptEvolves(a, tape[0].ops);
        EvolvesCompose(s, a, r);
        EvolvesWalking(s, r);
      }
    }
  }

  // ------------------------------------------------------------------------------------- walks

  lemma TailBehind(tail: seq<nat>, added: seq<nat>, list: seq<nat>)
    requires IsTail(tail, list)
    ensures IsTail(tail, added + list)
  {
    assert (added + list)[|added| + |list| - |tail|..] == list[|list| - |tail|..];
  }

  lemma TailKept(tail: seq<nat>, s: State, r: State)
    requires Linked(s) && Shape(s, r) && NothingFreed(s, r) && IsTail(tail, s.list)
    ensures IsTail(tail, r.list)
  {
    var added :| Added(s, r, added);
    KeepAll(s.list, r.nodes);
    TailBehind(tail, added, s.list);
  }

  lemma {:induction false} RemoveHead(tail: seq<nat>, list: seq<nat>)
    requires tail != [] && IsTail(tail, list) && NoDup(list)
    ensures IsTail(tail[1..], Remove(list, tail[0]))
  {
    assert list[|list| - |tail|] == tail[0];
    if |list| > |tail| {
      assert list == [list[0]] + list[1..];
      Headed(list[0], list[1..]);
      assert list[1..][|list| - 1 - |tail|..] == tail;
      RemoveHead(tail, list[1..]);
      assert Remove(list, tail[0]) == [list[0]] + Remove(list[1..], tail[0]);
      hide Remove, IsTail, NoDup;
      TailBehind(tail[1..], [list[0]], Remove(list[1..], tail[0]));
    } else {
      assert list == tail;
    }
  }

  /** The calls made at a node. */
  function VisitCalls(s: State, n: nat, readable: set<int>, writable: set<int>, tape: Tape): seq<Event> {
    CallOf(s, n, false, readable) + CallOf(Call(s, n, false, readable, tape).0, n, true, writable)
  }

  lemma VisitUnfolds(s: State, n: nat, readable: set<int>, writable: set<int>, tape: Tape)
    ensures var (s1, t1) := Call(s, n, false, readable, tape);
      var s2 := Call(s1, n, true, writable, t1).0;
      Visit(s, n, readable, writable, tape).0 == if n in s2.nodes && s2.nodes[n].deleted then Free(s2, n) else s2
  {}

  /** Visiting a node: the walk goes on behind it, and only the node itself may be freed. */
  lemma VisitRuns(s: State, tail: seq<nat>, readable: set<int>, writable: set<int>, tape: Tape)
    requires Wf(s) && s.walking && tail != [] && IsTail(tail, s.list)
    ensures var r, n := Visit(s, tail[0], readable, writable, tape).0, tail[0];
      Wf(r) && Evolves(s, r) && r.walking && IsTail(tail[1..], r.list) &&
      (forall m :: m in s.nodes && m != n ==> m in r.nodes) && (n in r.nodes ==> !r.nodes[n].deleted)
    ensures var r := Visit(s, tail[0], readable, writable, tape).0;
      Calls(r.log) == Calls(s.log) + VisitCalls(s, tail[0], readable, writable, tape)
  {
    var n := tail[0];
    var (s1, t1) := Call(s, n, false, readable, tape);
    var s2 := Call(s1, n, true, writable, t1).0;
    VisitUnfolds(s, n, readable, writable, tape);
    hide Visit, Call, Calls, Evolves, CallOf, NothingFreed, Wf;
    CallEvolves(s, n, false, readable, tape);
    CallEvolves(s1, n, true, writable, t1);
    EvolvesCompose(s, s1, s2);
    VisitEnds(s, s2, tail);
    Assoc(Calls(s.log), CallOf(s, n, false, readable), CallOf(s1, n, true, writable));
  }

  /** If no registration meddles, a visit calls what was registered before. */
  lemma VisitUntouched(s: State, n: nat, fd: int, readable: set<int>, writable: set<int>, tape: Tape)
    requires Wf(s) && s.walking && LiveOn(s.nodes, n, fd)
    requires !Touched(Visit(s, n, readable, writable, tape).0.log, |s.log|, fd)
    ensures VisitCalls(s, n, readable, writable, tape) == CallOf(s, n, false, readable) + CallOf(s, n, true, writable)
  {
    var (s1, t1) := Call(s, n, false, readable, tape);
    var s2 := Call(s1, n, true, writable, t1).0;
    VisitUnfolds(s, n, readable, writable, tape);
    hide Visit, Call, Calls, Evolves, CallOf, NothingFreed, Wf;
    CallEvolves(s, n, false, readable, tape);
    CallEvolves(s1, n, true, writable, t1);
    EvolvesWalking(s1, s2);
    CallUntouched(s, s1, s2.log, n, fd, writable);
  }

  lemma CallUntouched(s: State, a: State, log: seq<Event>, n: nat, fd: int, ready: set<int>)
    requires LiveOn(s.nodes, n, fd) && Evolves(s, a) && a.log <= log && !Touched(log, |s.log|, fd)
    ensures CallOf(a, n, true, ready) == CallOf(s, n, true, ready)
  {
    if Touched(a.log, |s.log|, fd) { TouchedGrows(a.log, log, |s.log|, |s.log|, fd); }
  }

  lemma DepartEvolves(a: State, n: nat)
    requires Wf(a) && n in a.nodes && a.nodes[n].deleted
    ensures Wf(Free(a, n)) && Evolves(a, Free(a, n))
    ensures Free(a, n).walking == a.walking && Free(a, n).log == a.log && n !in Free(a, n).nodes
    ensures forall m :: m in a.nodes && m != n ==> m in Free(a, n).nodes
  {
    hide Wf, Evolves, Remove;
    FreeEvolves(a, n);
  }

  lemma VisitEnds(s: State, a: State, tail: seq<nat>)
    requires Wf(s) && Wf(a) && a.walking && Evolves(s, a) && NothingFreed(s, a) && tail != [] && IsTail(tail, s.list)
    ensures var n := tail[0];
      var r := if n in a.nodes && a.nodes[n].deleted then Free(a, n) else a;
      Wf(r) && Evolves(s, r) && r.walking && r.log == a.log && IsTail(tail[1..], r.list) &&
      (forall m :: m in s.nodes && m != n ==> m in r.nodes) && (n in r.nodes ==> !r.nodes[n].deleted)
  {
    var n := tail[0];
    assert Shape(s, a) && Linked(a) && Linked(s);
    hide Wf, Evolves, Shape, Remove, IsTail;
    TailKept(tail, s, a);
    if n in a.nodes && a.nodes[n].deleted {
      RemoveHead(tail, a.list);
      DepartEvolves(a, n);
      assert forall m :: m in s.nodes ==> m in a.nodes;
      hide Linked, NothingFreed, Free;
      EvolvesCompose(s, a, Free(a, n));
    } else {
      TailOfTail(tail, a.list);
    }
  }

  function Strip(ran: seq<Event>, n: nat, write: bool): (r: seq<Event>)
    ensures |r| <= |ran|
  {
    if ran != [] && ran[0].Called? && ran[0].node == n && ran[0].write == write then ran[1..] else ran
  }

  /** The calls go through the list in its order: for each node at most one call of its read
      handler and then at most one of its write handler. */
  predicate InOrder(ran: seq<Event>, list: seq<nat>)
    decreases |list|
  {
    if list == [] then ran == []
    else InOrder(Strip(Strip(ran, list[0], false), list[0], true), list[1..])
  }

  /** No two calls of the same handler of the same node. */
  predicate Once(ran: seq<Event>) {
    (forall e :: e in ran ==> e.Called?) &&
    forall i, j :: 0 <= i < j < |ran| ==> ran[i].node != ran[j].node || ran[i].write != ran[j].write
  }

  lemma StripOnce(ran: seq<Event>, n: nat, write: bool)
    requires var a := Strip(ran, n, write); Once(a) && forall e :: e in a ==> e.node != n || e.write != write
    ensures Once(ran)
    ensures forall e :: e in ran ==> e in Strip(ran, n, write) || (e.node == n && e.write == write)
  {
    var a := Strip(ran, n, write);
    if a != ran {
      assert ran == [ran[0]] + a;
      assert forall i :: 0 <= i < |a| ==> a[i] in a;
    }
  }

  lemma {:induction false} InOrderOnce(ran: seq<Event>, list: seq<nat>)
    requires InOrder(ran, list) && NoDup(list)
    ensures Once(ran) && forall e :: e in ran ==> e.node in list
    decreases |list|
  {
    if list != [] {
      var a := Strip(ran, list[0], false);
      assert list == [list[0]] + list[1..];
      Headed(list[0], list[1..]);
      InOrderOnce(Strip(a, list[0], true), list[1..]);
      hide Strip, InOrder, Once, NoDup;
      StripOnce(a, list[0], true);
      StripOnce(ran, list[0], false);
    }
  }

  lemma StripFirst(x: seq<Event>, later: seq<Event>, n: nat, write: bool)
    requires |x| <= 1 && forall e :: e in x ==> e.Called? && e.node == n && e.write == write
    requires forall e :: e in later ==> e.Called? && (e.node != n || e.write != write)
    ensures Strip(x + later, n, write) == later
  {
    if x == [] {
      assert x + later == later;
      assert later != [] ==> later[0] in later;
    } else {
      assert x[0] in x && (x + later)[1..] == later;
    }
  }

  lemma InOrderStep(x: seq<Event>, y: seq<Event>, later: seq<Event>, list: seq<nat>)
    requires list != [] && NoDup(list) && InOrder(later, list[1..])
    requires |x| <= 1 && forall e :: e in x ==> e.Called? && e.node == list[0] && !e.write
    requires |y| <= 1 && forall e :: e in y ==> e.Called? && e.node == list[0] && e.write
    ensures InOrder(x + y + later, list)
  {
    assert list == [list[0]] + list[1..];
    Headed(list[0], list[1..]);
    InOrderOnce(later, list[1..]);
    hide Strip, Once, NoDup;
    StripFirst(y, later, list[0], true);
    StripFirst(x, y + later, list[0], false);
    Assoc(x, y, later);
  }

  /** The last registration of a descriptor. */
  ghost predicate LastFor(log: seq<Event>, k: nat, fd: int) {
    k < |log| && log[k].Registered? && log[k].op.fd == fd && !Touched(log, k + 1, fd)
  }

  /** It decides what is registered. */
  lemma {:induction false} TableIsLast(log: seq<Event>, k: nat, fd: int)
    requires LastFor(log, k, fd)
    ensures fd in Table(log) <==> log[k].op.entry.read != 0 || log[k].op.entry.write != 0
    ensures fd in Table(log) ==> Table(log)[fd] == log[k].op.entry
    decreases |log|
  {
    var n := |log| - 1;
    if k < n {
      var e := log[n];
      assert e.Registered? ==> e.op.fd != fd;
      forall j | k + 1 <= j < n ensures !(log[..n][j].Registered? && log[..n][j].op.fd == fd) {
        assert log[..n][j] == log[j];
      }
      TableIsLast(log[..n], k, fd);
    }
  }

  // --------------------------------------------------------------------------------- whole walks

  function WalkCalls(s: State, rest: seq<nat>, readable: set<int>, writable: set<int>, tape: Tape): seq<Event>
    decreases |rest|
  {
    if rest == [] then []
    else
      var (s1, t1) := Visit(s, rest[0], readable, writable, tape);
      VisitCalls(s, rest[0], readable, writable, tape) + WalkCalls(s1, rest[1..], readable, writable, t1)
  }

  /** Every call of a walk is for a descriptor that is ready for it. */
  lemma {:induction false} CallsReady(s: State, rest: seq<nat>, readable: set<int>, writable: set<int>, tape: Tape)
    ensures forall e :: e in WalkCalls(s, rest, readable, writable, tape) ==>
      e.Called? && e.fd in if e.write then writable else readable
    decreases |rest|
  {
    if rest != [] {
      var (s1, t1) := Visit(s, rest[0], readable, writable, tape);
      hide Visit, Call;
      CallsReady(s1, rest[1..], readable, writable, t1);
    }
  }

  lemma WalkUnfolds(s: State, rest: seq<nat>, readable: set<int>, writable: set<int>, tape: Tape)
    requires rest != []
    ensures var (s1, t1) := Visit(s, rest[0], readable, writable, tape);
      Walk(s, rest, readable, writable, tape) == Walk(s1, rest[1..], readable, writable, t1) &&
      WalkCalls(s, rest, readable, writable, tape)
        == VisitCalls(s, rest[0], readable, writable, tape) + WalkCalls(s1, rest[1..], readable, writable, t1)
  {}

  lemma WalkRuns(s: State, rest: seq<nat>, readable: set<int>, writable: set<int>, tape: Tape)
    requires Wf(s) && s.walking && IsTail(rest, s.list)
    ensures var r := Walk(s, rest, readable, writable, tape).0; Wf(r) && Evolves(s, r) && r.walking
    ensures Calls(Walk(s, rest, readable, writable, tape).0.log)
      == Calls(s.log) + WalkCalls(s, rest, readable, writable, tape)
    ensures InOrder(WalkCalls(s, rest, readable, writable, tape), rest)
    decreases |rest|
  {
    if rest == [] {
      EvolvesNot(s);
    } else {
      WalkUnfolds(s, rest, readable, writable, tape);
      var (s1, t1) := Visit(s, rest[0], readable, writable, tape);
      var x := VisitCalls(s, rest[0], readable, writable, tape);
      var y := WalkCalls(s1, rest[1..], readable, writable, t1);
      assert NoDup(rest) by { TailNoDup(rest, s.list); }
      hide Visit, VisitCalls, Walk, WalkCalls, Calls, Evolves, Wf, InOrder;
      VisitRuns(s, rest, readable, writable, tape);
      WalkRuns(s1, rest[1..], readable, writable, t1);
      EvolvesCompose(s, s1, Walk(s, rest, readable, writable, tape).0);
      Assoc(Calls(s.log), x, y);
      VisitStep(s, rest, readable, writable, tape, y);
    }
  }

  lemma TailNoDup(tail: seq<nat>, list: seq<nat>)
    requires NoDup(list) && IsTail(tail, list)
    ensures NoDup(tail)
  {
    var d := |list| - |tail|;
    assert forall i :: 0 <= i < |tail| ==> tail[i] == list[d + i];
  }

  lemma VisitStep(s: State, rest: seq<nat>, readable: set<int>, writable: set<int>, tape: Tape, later: seq<Event>)
    requires rest != [] && NoDup(rest) && InOrder(later, rest[1..])
    ensures InOrder(VisitCalls(s, rest[0], readable, writable, tape) + later, rest)
  {
    hide Call, InOrder, NoDup, Wanted;
    InOrderStep(CallOf(s, rest[0], false, readable),
      CallOf(Call(s, rest[0], false, readable, tape).0, rest[0], true, writable), later, rest);
  }

  /** What was marked deleted when the walk began is freed, and nothing is but what it visits. */
  lemma WalkFrees(s: State, rest: seq<nat>, readable: set<int>, writable: set<int>, tape: Tape)
    requires Wf(s) && s.walking && IsTail(rest, s.list)
    ensures var r := Walk(s, rest, readable, writable, tape).0;
      (forall n :: n in rest && n in s.nodes && s.nodes[n].deleted ==> n !in r.nodes) &&
      (forall n :: n in s.nodes && n !in rest ==> n in r.nodes)
    decreases |rest|
  {
    if rest != [] {
      WalkUnfolds(s, rest, readable, writable, tape);
      var (s1, t1) := Visit(s, rest[0], readable, writable, tape);
      var r := Walk(s, rest, readable, writable, tape).0;
      TailNoDup(rest, s.list);
      assert Linked(s);
      hide Visit, Walk, Calls, Wf, VisitCalls;
      VisitRuns(s, rest, readable, writable, tape);
      WalkFrees(s1, rest[1..], readable, writable, t1);
      WalkRuns(s1, rest[1..], readable, writable, t1);
      hide Shape, Persist, InOrder;
      var n0 := rest[0];
      assert forall n :: n in rest ==> n == n0 || n in rest[1..];
      assert n0 !in rest[1..];
      forall n | n in rest && n in s.nodes && s.nodes[n].deleted ensures n !in r.nodes {
        assert n in s1.nodes ==> s1.nodes[n].deleted;
      }
    }
  }

  lemma StaysWanted(s: State, a: State, n: nat, fd: int, readable: set<int>, writable: set<int>)
    requires Evolves(s, a) && LiveOn(s.nodes, n, fd) && !Touched(a.log, |s.log|, fd)
    ensures LiveOn(a.nodes, n, fd)
    ensures CallOf(a, n, false, readable) == CallOf(s, n, false, readable)
    ensures CallOf(a, n, true, writable) == CallOf(s, n, true, writable)
  {
    hide Shape, SameNodes, Touched;
  }

  /** A handler that was registered for a ready descriptor is called, unless some registration
      named the descriptor during the walk. */
  lemma WalkServes(s: State, rest: seq<nat>, readable: set<int>, writable: set<int>, tape: Tape, n: nat, fd: int)
    requires Wf(s) && s.walking && IsTail(rest, s.list) && n in rest && LiveOn(s.nodes, n, fd)
    requires !Touched(Walk(s, rest, readable, writable, tape).0.log, |s.log|, fd)
    ensures forall e :: e in CallOf(s, n, false, readable) + CallOf(s, n, true, writable) ==>
      e in WalkCalls(s, rest, readable, writable, tape)
    decreases |rest|
  {
    WalkUnfolds(s, rest, readable, writable, tape);
    var (s1, t1) := Visit(s, rest[0], readable, writable, tape);
    var r := Walk(s, rest, readable, writable, tape).0;
    hide Visit, Walk, Calls, Wf, VisitCalls, WalkCalls;
    VisitRuns(s, rest, readable, writable, tape);
    WalkRuns(s1, rest[1..], readable, writable, t1);
    EvolvesWalking(s, s1);
    EvolvesWalking(s1, r);
    if Touched(s1.log, |s.log|, fd) { TouchedGrows(s1.log, r.log, |s.log|, |s.log|, fd); }
    if n == rest[0] {
      hide Evolves, InOrder, Touched;
      VisitUntouched(s, n, fd, readable, writable, tape);
    } else {
      if Touched(r.log, |s1.log|, fd) { TouchedGrows(r.log, r.log, |s1.log|, |s.log|, fd); }
      StaysWanted(s, s1, n, fd, readable, writable);
      hide Evolves, InOrder, Touched, CallOf;
      assert n in rest[1..];
      WalkServes(s1, rest[1..], readable, writable, t1, n, fd);
    }
  }

  lemma WalkingIsWf(s: State, walking: bool)
    requires Wf(s)
    ensures Wf(s.(walking := walking))
  {}

  lemma EvolvesAround(s: State, r: State, walking: bool)
    requires Evolves(s.(walking := true), r) && s.walking == walking
    ensures Evolves(s, r.(walking := walking))
  {
    assert Shape(s, r.(walking := walking)) by {
      var added :| Added(s.(walking := true), r, added);
      assert Added(s, r.(walking := walking), added);
    }
    hide Shape, Touched;
  }

  /** The dispatch walk: it goes through the nodes of the list it began with, in order, calls each
      handler at most once, cleans up what was marked deleted before, and keeps every registration. */
  lemma DispatchRuns(s: State, readable: set<int>, writable: set<int>, tape: Tape) returns (ran: seq<Event>)
    requires Wf(s) && !s.walking
    ensures var r := Dispatch(s, readable, writable, tape).0;
      Wf(r) && Evolves(s, r) && Calls(r.log) == Calls(s.log) + ran &&
      (forall n :: n in s.nodes && s.nodes[n].deleted ==> n !in r.nodes)
    ensures InOrder(ran, s.list) && Once(ran) && forall e :: e in ran ==> e.node in s.list
    ensures forall e :: e in ran ==> e.Called? && e.fd in if e.write then writable else readable
  {
    var m := s.(walking := true);
    CallsReady(m, s.list, readable, writable, tape);
    var w := Walk(m, s.list, readable, writable, tape).0;
    ran := WalkCalls(m, s.list, readable, writable, tape);
    assert Dispatch(s, readable, writable, tape).0 == w.(walking := false);
    WalkingIsWf(s, true);
    assert s.list[0..] == s.list;
    assert IsTail(s.list, m.list) && Linked(s);
    hide Walk, WalkCalls, Calls, Wf, InOrder, Once, Evolves;
    WalkRuns(m, s.list, readable, writable, tape);
    WalkFrees(m, s.list, readable, writable, tape);
    InOrderOnce(ran, s.list);
    WalkingIsWf(w, false);
    EvolvesAround(s, w, false);
  }

  /** In terms of the last registration before the walk: a read or a write handler given then is called
      if the descriptor is ready for it. */
  lemma DispatchServesLast(s: State, readable: set<int>, writable: set<int>, tape: Tape, fd: int, k: nat)
    returns (ran: seq<Event>)
    requires Wf(s) && !s.walking && LastFor(s.log, k, fd)
    requires !Touched(Dispatch(s, readable, writable, tape).0.log, |s.log|, fd)
    ensures Calls(Dispatch(s, readable, writable, tape).0.log) == Calls(s.log) + ran
    ensures var e := s.log[k].op.entry;
      (fd in readable && e.read != 0 ==> exists n :: Called(n, fd, false, e.read, e.arg) in ran) &&
      (fd in writable && e.write != 0 ==> exists n :: Called(n, fd, true, e.write, e.arg) in ran)
  {
    TableIsLast(s.log, k, fd);
    hide LastFor, Touched, Dispatch, Calls, Wf;
    if fd in Table(s.log) {
      ran := DispatchServes(s, readable, writable, tape, fd);
    } else {
      ran := DispatchRuns(s, readable, writable, tape);
    }
  }

  /** The dispatch walk calls what is registered for the ready descriptors. */
  lemma DispatchServes(s: State, readable: set<int>, writable: set<int>, tape: Tape, fd: int) returns (ran: seq<Event>)
    requires Wf(s) && !s.walking && fd in Table(s.log)
    requires !Touched(Dispatch(s, readable, writable, tape).0.log, |s.log|, fd)
    ensures Calls(Dispatch(s, readable, writable, tape).0.log) == Calls(s.log) + ran
    ensures var e := Table(s.log)[fd];
      (fd in readable && e.read != 0 ==> exists n :: Called(n, fd, false, e.read, e.arg) in ran) &&
      (fd in writable && e.write != 0 ==> exists n :: Called(n, fd, true, e.write, e.arg) in ran)
  {
    var m := s.(walking := true);
    ran := WalkCalls(m, s.list, readable, writable, tape);
    assert Dispatch(s, readable, writable, tape).0.log == Walk(m, s.list, readable, writable, tape).0.log;
    WalkingIsWf(s, true);
    assert s.list[0..] == s.list;
    assert IsTail(s.list, m.list);
    var n :| LiveOn(s.nodes, n, fd);
    var e := Table(s.log)[fd];
    assert s.nodes[n].entry == e && n in s.list;
    hide Walk, WalkCalls, Calls, Wf, InOrder, Table, Touched;
    WalkRuns(m, s.list, readable, writable, tape);
    WalkServes(m, s.list, readable, writable, tape, n, fd);
    var x, y := CallOf(m, n, false, readable), CallOf(m, n, true, writable);
    hide Evolves, Dispatch;
    if fd in readable && e.read != 0 {
      assert x[0] in x + y && x[0] == Called(n, fd, false, e.read, e.arg);
    }
    if fd in writable && e.write != 0 {
      assert y[0] in x + y && y[0] == Called(n, fd, true, e.write, e.arg);
    }
  }

  // ------------------------------------------------------------------------------ queued requests

  lemma QueuedEvolves(s: State, n: nat, tape: Tape)
    requires Wf(s) && n in s.nodes
    ensures var r := s.(log := s.log + QueueCall(s, n, tape));
      Wf(r) && Evolves(s, r) && NothingFreed(s, r) && Calls(r.log) == Calls(s.log)
  {
    var call := QueueCall(s, n, tape);
    if call == [] {
      assert s.log + call == s.log;
      EvolvesNot(s);
    } else {
      var e := call[0];
      hide GoodCall, Table, Calls, Evolves;
      GoodCalls(s.log, e);
      TableAppend(s.log, e);
      CallsAppend(s.log, e);
      LogEvolves(s, e);
      hide NothingFreed;
    }
  }

  lemma QueueWalkUnfolds(s: State, rest: seq<nat>, tape: Tape)
    requires rest != []
    ensures var (s1, t1) := QueueVisit(s, rest[0], tape);
      var call, later := QueueCall(s, rest[0], tape), QueueWalk(s1, rest[1..], t1);
      QueueWalk(s, rest, tape) == (later.0, later.1, (call != [] && call[0].result) || later.2)
  {}

  lemma QueueVisitRuns(s: State, n: nat, tape: Tape)
    requires Wf(s) && s.walking
    ensures var r := QueueVisit(s, n, tape).0;
      Wf(r) && Evolves(s, r) && NothingFreed(s, r) && r.walking && Calls(r.log) == Calls(s.log)
  {
    EvolvesNot(s);
    if QueueCall(s, n, tape) != [] {
      var a := s.(log := s.log + QueueCall(s, n, tape));
      var r := QueueVisit(s, n, tape).0;
      assert r == if tape == [] then a else Script(a, tape[0].ops);
      QueuedEvolves(s, n, tape);
      hide QueueVisit, Wf, Calls, Evolves, NothingFreed, Script;
      if tape != [] {
        ScriptEvolves(a, tape[0].ops);
        EvolvesWalking(a, r);
        EvolvesCompose(s, a, r);
      }
    }
  }

  lemma QueueWalkRuns(s: State, rest: seq<nat>, tape: Tape)
    requires Wf(s) && s.walking
    ensures var r := QueueWalk(s, rest, tape).0; Wf(r) && Evolves(s, r) && NothingFreed(s, r)
    ensures Calls(QueueWalk(s, rest, tape).0.log) == Calls(s.log)
    decreases |rest|
  {
    EvolvesNot(s);
    if rest != [] {
      QueueWalkUnfolds(s, rest, tape);
      hide QueueWalk, QueueVisit, Wf, Calls, Evolves, NothingFreed;
      var (s1, t1) := QueueVisit(s, rest[0], tape);
      QueueVisitRuns(s, rest[0], tape);
      QueueWalkRuns(s1, rest[1..], t1);
      EvolvesCompose(s, s1, QueueWalk(s, rest, tape).0);
    }
  }

  lemma ProcessQueueRuns(s: State, tape: Tape)
    requires Wf(s) && !s.walking
    ensures var r := ProcessQueue(s, tape).0;
      Wf(r) && Evolves(s, r) && NothingFreed(s, r) && Calls(r.log) == Calls(s.log)
  {
    var m := s.(walking := true);
    var w := QueueWalk(m, s.list, tape).0;
    assert ProcessQueue(s, tape).0 == w.(walking := false);
    WalkingIsWf(s, true);
    hide QueueWalk, Wf, Calls, Evolves;
    QueueWalkRuns(m, s.list, tape);
    WalkingIsWf(w, false);
    EvolvesAround(s, w, false);
  }

  // -------------------------------------------------------------------------------- main results

  datatype Step = Register(op: Op) | DispatchReady(readable: set<int>, writable: set<int>) | RunQueues

  /** Any sequence of registrations and walks, the handlers doing as the tape says. */
  function Run(s: State, steps: seq<Step>, tape: Tape): State
    decreases |steps|
  {
    if steps == [] then s
    else
      match steps[0]
      case Register(op) => Run(SetHandler(s, op), steps[1..], tape)
      case DispatchReady(r, w) =>
        var (a, t) := Dispatch(s, r, w, tape);
        Run(a, steps[1..], t)
      case RunQueues =>
        var (a, t, _) := ProcessQueue(s, tape);
        Run(a, steps[1..], t)
  }

  lemma {:induction false} RunKeeps(s: State, steps: seq<Step>, tape: Tape)
    requires Wf(s) && !s.walking
    ensures Wf(Run(s, steps, tape)) && !Run(s, steps, tape).walking
    decreases |steps|
  {
    if steps != [] {
      hide Wf, Evolves, Calls, InOrder;
      match steps[0]
      case Register(op) =>
        SetHandlerIsWf(s, op);
        SetHandlerEvolves(s, op);
        EvolvesWalking(s, SetHandler(s, op));
        RunKeeps(SetHandler(s, op), steps[1..], tape);
      case DispatchReady(r, w) =>
        var _ := DispatchRuns(s, r, w, tape);
        EvolvesWalking(s, Dispatch(s, r, w, tape).0);
        RunKeeps(Dispatch(s, r, w, tape).0, steps[1..], Dispatch(s, r, w, tape).1);
      case RunQueues =>
        ProcessQueueRuns(s, tape);
        EvolvesWalking(s, ProcessQueue(s, tape).0);
        RunKeeps(ProcessQueue(s, tape).0, steps[1..], ProcessQueue(s, tape).1);
    }
  }

  /** In every run: the lookup finds exactly what the registrations so far ask for, no descriptor
      has two live nodes, and every call was of what was registered at that moment. */
  lemma RegistrationsInForce(steps: seq<Step>, tape: Tape)
    ensures var s := Run(INITIAL, steps, tape);
      (forall fd :: match Find(s.list, s.nodes, fd)
        case Some(n) => n in s.nodes && fd in Table(s.log) && s.nodes[n].entry == Table(s.log)[fd]
        case None => fd !in Table(s.log)) &&
      OnePerFd(s) && forall k :: 0 <= k < |s.log| ==> GoodCall(s.log, k)
  {
    var s := Run(INITIAL, steps, tape);
    RunKeeps(INITIAL, steps, tape);
    forall fd
      ensures match Find(s.list, s.nodes, fd)
        case Some(n) => n in s.nodes && fd in Table(s.log) && s.nodes[n].entry == Table(s.log)[fd]
        case None => fd !in Table(s.log)
    {
      FindIs(s, fd);
      if fd in Table(s.log) {
        var n :| LiveOn(s.nodes, n, fd);
      }
    }
  }
}
