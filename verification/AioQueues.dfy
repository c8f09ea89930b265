/**
 Which queue handlers qemu_aio_process_queue calls, in what order and how often, and exactly when
 it calls one of a node that is marked deleted.
 */
module AioQueues {
  import opened Sequences
  import opened AioHandlers
  import opened AioWalks

  /** The calls of queue handlers, in order. */
  function Queues(log: seq<Event>): (r: seq<Event>)
    ensures forall e :: e in r ==> e.Queued?
  {
    if log == [] then []
    else
      var e := log[|log| - 1];
      if e.Queued? then Queues(log[..|log| - 1]) + [e] else Queues(log[..|log| - 1])
  }

  lemma QueuesAppend(log: seq<Event>, e: Event)
    ensures Queues(log + [e]) == if e.Queued? then Queues(log) + [e] else Queues(log)
  {
    assert (log + [e])[..|log|] == log;
  }

  lemma {:induction false} ScriptQueuesNothing(s: State, ops: seq<Op>)
    ensures Queues(Script(s, ops).log) == Queues(s.log)
    decreases |ops|
  {
    if ops != [] {
      ScriptUnfolds(s, ops);
      QueuesAppend(s.log, Registered(ops[0]));
      ScriptQueuesNothing(SetHandler(s, ops[0]), ops[1..]);
    }
  }

  /** The calls of a walk. */
  function QueueCalls(s: State, rest: seq<nat>, tape: Tape): seq<Event>
    decreases |rest|
  {
    if rest == [] then []
    else
      var (s1, t1) := QueueVisit(s, rest[0], tape);
      QueueCall(s, rest[0], tape) + QueueCalls(s1, rest[1..], t1)
  }

  predicate AnyResult(ran: seq<Event>) {
    exists e :: e in ran && e.Queued? && e.result
  }

  lemma AnyResultConcat(x: seq<Event>, y: seq<Event>)
    ensures AnyResult(x + y) <==> AnyResult(x) || AnyResult(y)
  {
    assert forall e :: e in x + y <==> e in x || e in y;
  }

  lemma VisitQueues(s: State, n: nat, tape: Tape)
    ensures Queues(QueueVisit(s, n, tape).0.log) == Queues(s.log) + QueueCall(s, n, tape)
  {
    var call := QueueCall(s, n, tape);
    if call != [] {
      var a := s.(log := s.log + call);
      QueuesAppend(s.log, call[0]);
      if tape != [] { ScriptQueuesNothing(a, tape[0].ops); }
    } else {
      assert Queues(s.log) + [] == Queues(s.log);
    }
  }

  lemma {:induction false} WalkQueues(s: State, rest: seq<nat>, tape: Tape)
    ensures Queues(QueueWalk(s, rest, tape).0.log) == Queues(s.log) + QueueCalls(s, rest, tape)
    ensures QueueWalk(s, rest, tape).2 <==> AnyResult(QueueCalls(s, rest, tape))
    decreases |rest|
  {
    if rest != [] {
      var (s1, t1) := QueueVisit(s, rest[0], tape);
      var call, later := QueueCall(s, rest[0], tape), QueueCalls(s1, rest[1..], t1);
      QueueWalkUnfolds(s, rest, tape);
      VisitQueues(s, rest[0], tape);
      WalkQueues(s1, rest[1..], t1);
      assert QueueCalls(s, rest, tape) == call + later;
      AnyResultConcat(call, later);
      assert AnyResult(call) <==> call != [] && call[0].result by { assert call != [] ==> call[0] in call; }
      hide QueueWalk, QueueVisit, QueueCalls, QueueCall, Queues, AnyResult;
      assert Queues(s.log) + call + later == Queues(s.log) + (call + later);
    }
  }

  // ---------------------------------------------------------------------------- order and number

  /** The calls go through the list in its order, with at most one call for each node. */
  predicate QueueOrder(ran: seq<Event>, list: seq<nat>)
    decreases |list|
  {
    if list == [] then ran == []
    else if ran != [] && ran[0].Queued? && ran[0].node == list[0] then QueueOrder(ran[1..], list[1..])
    else QueueOrder(ran, list[1..])
  }

  lemma {:induction false} QueueOrderOnce(ran: seq<Event>, list: seq<nat>)
    requires QueueOrder(ran, list) && NoDup(list)
    ensures forall e :: e in ran ==> e.Queued? && e.node in list
    ensures forall i, j :: 0 <= i < j < |ran| ==> ran[i].node != ran[j].node
    decreases |list|
  {
    if list != [] {
      assert list == [list[0]] + list[1..];
      Headed(list[0], list[1..]);
      if ran != [] && ran[0].Queued? && ran[0].node == list[0] {
        assert ran == [ran[0]] + ran[1..];
        QueueOrderOnce(ran[1..], list[1..]);
        assert forall i :: 0 <= i < |ran[1..]| ==> ran[1..][i] in ran[1..];
      } else {
        QueueOrderOnce(ran, list[1..]);
      }
    }
  }

  lemma {:induction false} WalkInOrder(s: State, rest: seq<nat>, tape: Tape)
    requires NoDup(rest)
    ensures QueueOrder(QueueCalls(s, rest, tape), rest)
    decreases |rest|
  {
    if rest != [] {
      var (s1, t1) := QueueVisit(s, rest[0], tape);
      var call, later := QueueCall(s, rest[0], tape), QueueCalls(s1, rest[1..], t1);
      assert rest == [rest[0]] + rest[1..];
      Headed(rest[0], rest[1..]);
      WalkInOrder(s1, rest[1..], t1);
      QueueOrderOnce(later, rest[1..]);
      hide QueueVisit, NoDup;
      assert QueueCalls(s, rest, tape) == call + later;
      if call == [] {
        assert call + later == later;
        assert later != [] ==> later[0] in later;
      } else {
        assert (call + later)[1..] == later;
      }
    }
  }

  // ------------------------------------------------------------------------------ who is called

  /** Nothing that happens up to the end of the log changes the node: it is marked deleted, or no
      registration names its descriptor. */
  ghost predicate Undisturbed(s: State, log: seq<Event>, n: nat) {
    n in s.nodes && (s.nodes[n].deleted || !Touched(log, |s.log|, s.nodes[n].fd))
  }

  lemma UndisturbedStays(s: State, a: State, log: seq<Event>, n: nat)
    requires Evolves(s, a) && NothingFreed(s, a) && a.log <= log && Undisturbed(s, log, n)
    ensures Undisturbed(a, log, n) && a.nodes[n] == s.nodes[n]
  {
    if !s.nodes[n].deleted {
      var fd := s.nodes[n].fd;
      if Touched(a.log, |s.log|, fd) { TouchedGrows(a.log, log, |s.log|, |s.log|, fd); }
      assert LiveOn(s.nodes, n, fd);
      if Touched(log, |a.log|, fd) { TouchedGrows(log, log, |a.log|, |s.log|, fd); }
    }
  }

  ghost predicate CalledAt(ran: seq<Event>, n: nat) {
    exists e :: e in ran && e.Queued? && e.node == n
  }

  lemma WalkCallsUnfold(s: State, rest: seq<nat>, tape: Tape)
    requires rest != [] && NoDup(rest)
    ensures var (s1, t1) := QueueVisit(s, rest[0], tape);
      var call, later := QueueCall(s, rest[0], tape), QueueCalls(s1, rest[1..], t1);
      NoDup(rest[1..]) && rest[0] !in rest[1..] &&
      (forall e :: e in QueueCalls(s, rest, tape) <==> e in call || e in later) &&
      (forall e :: e in call ==> e.Queued? && e.node == rest[0]) &&
      forall e :: e in later ==> e.Queued? && e.node in rest[1..]
  {
    var (s1, t1) := QueueVisit(s, rest[0], tape);
    assert rest == [rest[0]] + rest[1..];
    Headed(rest[0], rest[1..]);
    WalkInOrder(s1, rest[1..], t1);
    QueueOrderOnce(QueueCalls(s1, rest[1..], t1), rest[1..]);
  }

  /** A walk calls the queue handler of an undisturbed node exactly if it has one, deleted or not. */
  lemma {:induction false} QueueServes(s: State, rest: seq<nat>, tape: Tape, n: nat)
    requires Wf(s) && s.walking && NoDup(rest) && n in rest
    requires Undisturbed(s, QueueWalk(s, rest, tape).0.log, n)
    ensures CalledAt(QueueCalls(s, rest, tape), n) <==> s.nodes[n].entry.queue != 0
    ensures forall e :: e in QueueCalls(s, rest, tape) && e.Queued? && e.node == n ==> e.deleted == s.nodes[n].deleted
    decreases |rest|
  {
    var (s1, t1) := QueueVisit(s, rest[0], tape);
    var call := QueueCall(s, rest[0], tape);
    var log := QueueWalk(s, rest, tape).0.log;
    WalkCallsUnfold(s, rest, tape);
    if n == rest[0] {
      hide QueueWalk, QueueVisit, QueueCalls, Wf, NoDup, Touched;
      if s.nodes[n].entry.queue != 0 { assert call[0] in call; }
    } else {
      QueueWalkUnfolds(s, rest, tape);
      hide QueueWalk, QueueVisit, QueueCalls, Wf, NoDup, Calls;
      QueueVisitRuns(s, rest[0], tape);
      QueueWalkRuns(s1, rest[1..], t1);
      EvolvesWalking(s1, QueueWalk(s1, rest[1..], t1).0);
      UndisturbedStays(s, s1, log, n);
      assert n in rest[1..];
      hide Evolves, Undisturbed, QueueCall;
      QueueServes(s1, rest[1..], t1, n);
    }
  }

  // --------------------------------------------------------------------------- the deleted nodes

  ghost predicate CallsDeleted(ran: seq<Event>) {
    exists e :: e in ran && e.Queued? && e.deleted
  }

  /** A marked node of the list that has a queue handler. */
  ghost predicate MarkedWithQueue(s: State, list: seq<nat>) {
    exists n :: n in list && n in s.nodes && s.nodes[n].deleted && s.nodes[n].entry.queue != 0
  }

  predicate NoDeletes(tape: Tape) {
    forall k, j :: 0 <= k < |tape| && 0 <= j < |tape[k].ops| ==> !Deletes(tape[k].ops[j])
  }

  lemma QuietStep(s: State, op: Op)
    requires Wf(s) && s.walking && !Deletes(op)
    ensures Wf(SetHandler(s, op)) && SetHandler(s, op).walking && s.nodes.Keys <= SetHandler(s, op).nodes.Keys
    ensures forall n :: n in s.nodes ==> SetHandler(s, op).nodes[n].deleted == s.nodes[n].deleted
  {
    FindIs(s, op.fd);
    SetHandlerIsWf(s, op);
    assert forall n :: n in s.nodes ==> n < s.next;
    hide Wf, Find;
  }

  lemma {:induction false} QuietScript(s: State, ops: seq<Op>)
    requires Wf(s) && s.walking && forall j :: 0 <= j < |ops| ==> !Deletes(ops[j])
    ensures forall n :: n in s.nodes && n in Script(s, ops).nodes ==>
      Script(s, ops).nodes[n].deleted == s.nodes[n].deleted
    decreases |ops|
  {
    if ops != [] {
      QuietStep(s, ops[0]);
      ScriptUnfolds(s, ops);
      hide Wf, SetHandler, Script;
      QuietScript(SetHandler(s, ops[0]), ops[1..]);
    }
  }

  lemma QuietVisit(s: State, n: nat, tape: Tape)
    requires Wf(s) && s.walking && NoDeletes(tape)
    ensures forall m :: m in s.nodes && m in QueueVisit(s, n, tape).0.nodes ==>
      QueueVisit(s, n, tape).0.nodes[m].deleted == s.nodes[m].deleted
    ensures NoDeletes(QueueVisit(s, n, tape).1)
  {
    if QueueCall(s, n, tape) != [] && tape != [] {
      QueuedEvolves(s, n, tape);
      QuietScript(s.(log := s.log + QueueCall(s, n, tape)), tape[0].ops);
    }
  }

  /** Without deletions, a call finds its node deleted only if it was so from the start. */
  lemma {:induction false} QuietCalls(s: State, rest: seq<nat>, tape: Tape)
    requires Wf(s) && s.walking && NoDeletes(tape) && forall n :: n in rest ==> n in s.nodes
    ensures forall e :: e in QueueCalls(s, rest, tape) ==>
      e.Queued? && e.node in rest && e.node in s.nodes && e.deleted == s.nodes[e.node].deleted
    decreases |rest|
  {
    if rest != [] {
      var (s1, t1) := QueueVisit(s, rest[0], tape);
      var call, later := QueueCall(s, rest[0], tape), QueueCalls(s1, rest[1..], t1);
      QueueVisitRuns(s, rest[0], tape);
      QuietVisit(s, rest[0], tape);
      QuietCalls(s1, rest[1..], t1);
      assert QueueCalls(s, rest, tape) == call + later;
      assert forall e :: e in call + later <==> e in call || e in later;
      assert forall n :: n in rest[1..] ==> n in rest;
      hide QueueVisit, QueueCalls, Wf, Evolves;
    }
  }

  /** Handlers that do not delete: a marked node is called exactly if one with a queue handler was there. */
  lemma QuietQueueExact(s: State, list: seq<nat>, tape: Tape)
    requires Wf(s) && s.walking && NoDeletes(tape) && NoDup(list) && forall n :: n in list ==> n in s.nodes
    ensures CallsDeleted(QueueCalls(s, list, tape)) <==> MarkedWithQueue(s, list)
  {
    var ran := QueueCalls(s, list, tape);
    QuietCalls(s, list, tape);
    hide QueueCalls, Wf, NoDup;
    if CallsDeleted(ran) {
      var e :| e in ran && e.Queued? && e.deleted;
      QueueServes(s, list, tape, e.node);
      assert CalledAt(ran, e.node);
    }
    if MarkedWithQueue(s, list) {
      var n :| n in list && n in s.nodes && s.nodes[n].deleted && s.nodes[n].entry.queue != 0;
      MarkedIsCalled(s, list, tape, n);
    }
  }

  lemma MarkedIsCalled(s: State, list: seq<nat>, tape: Tape, n: nat)
    requires Wf(s) && s.walking && NoDup(list) && n in list
    requires n in s.nodes && s.nodes[n].deleted && s.nodes[n].entry.queue != 0
    ensures CallsDeleted(QueueCalls(s, list, tape))
  {
    QueueServes(s, list, tape, n);
  }

  /** What makes the walk safe whatever the handlers do: no marked node has a queue handler, and behind
      a node that has one there are only marked nodes. */
  ghost predicate QueueSafe(s: State, list: seq<nat>) {
    !MarkedWithQueue(s, list) &&
    forall i, j :: 0 <= i < j < |list| && list[i] in s.nodes && list[j] in s.nodes && s.nodes[list[i]].entry.queue != 0 ==>
      s.nodes[list[j]].deleted
  }

  lemma {:induction false} SafeCalls(s: State, rest: seq<nat>, tape: Tape)
    requires Wf(s) && s.walking && NoDup(rest) && (forall n :: n in rest ==> n in s.nodes) && QueueSafe(s, rest)
    ensures !CallsDeleted(QueueCalls(s, rest, tape))
    decreases |rest|
  {
    if rest != [] {
      var (s1, t1) := QueueVisit(s, rest[0], tape);
      WalkCallsUnfold(s, rest, tape);
      assert rest[0] in rest;
      if QueueCall(s, rest[0], tape) == [] {
        assert s1 == s && QueueSafe(s, rest[1..]);
        hide QueueVisit, QueueCalls, Wf, QueueSafe, NoDup;
        SafeCalls(s, rest[1..], t1);
      } else {
        AllMarked(s, rest);
        NothingBehind(s, rest, tape);
      }
    }
  }

  lemma NothingBehind(s: State, rest: seq<nat>, tape: Tape)
    requires Wf(s) && s.walking && rest != [] && forall n :: n in rest ==> n in s.nodes
    requires forall n :: n in rest[1..] ==> s.nodes[n].deleted && s.nodes[n].entry.queue == 0
    ensures var (s1, t1) := QueueVisit(s, rest[0], tape); QueueCalls(s1, rest[1..], t1) == []
  {
    var (s1, t1) := QueueVisit(s, rest[0], tape);
    hide QueueVisit, QueueCalls, Wf, Shape, Persist;
    QueueVisitRuns(s, rest[0], tape);
    NoneHasQueue(s1, rest[1..], t1);
  }

  lemma {:induction false} NoneHasQueue(s: State, rest: seq<nat>, tape: Tape)
    requires forall n :: n in rest && n in s.nodes ==> s.nodes[n].entry.queue == 0
    ensures QueueCalls(s, rest, tape) == []
    decreases |rest|
  {
    if rest != [] {
      assert rest[0] in rest && QueueCall(s, rest[0], tape) == [];
      NoneHasQueue(s, rest[1..], tape);
    }
  }

  lemma AllMarked(s: State, rest: seq<nat>)
    requires QueueSafe(s, rest) && rest != [] && forall n :: n in rest ==> n in s.nodes
    requires s.nodes[rest[0]].entry.queue != 0
    ensures forall n :: n in rest[1..] ==> s.nodes[n].deleted && s.nodes[n].entry.queue == 0
  {
    forall n | n in rest[1..] ensures s.nodes[n].deleted && s.nodes[n].entry.queue == 0 {
      var j :| 1 <= j < |rest| && rest[j] == n;
      assert rest[0] in s.nodes && rest[j] in s.nodes;
      assert n in rest;
    }
  }

  /** A handler can give a live node a queue handler and then delete it. */
  function Spoil(fd: int): Behaviour {
    Behaviour([Op(fd, Entry(1, 0, 0, 1, 0)), Op(fd, Entry(0, 0, 0, 0, 0))], false)
  }

  lemma SpoilSpoils(s: State, n: nat)
    requires Wf(s) && s.walking && n in s.nodes && !s.nodes[n].deleted
    ensures var r := Script(s, Spoil(s.nodes[n].fd).ops);
      n in r.nodes && r.nodes[n].deleted && r.nodes[n].entry.queue != 0
  {
    var fd := s.nodes[n].fd;
    var ops := Spoil(fd).ops;
    assert LiveOn(s.nodes, n, fd);
    FindIs(s, fd);
    var a := SetHandler(s, ops[0]);
    SetHandlerIsWf(s, ops[0]);
    assert a.nodes == s.nodes[n := s.nodes[n].(entry := ops[0].entry)] && a.walking;
    assert LiveOn(a.nodes, n, fd);
    FindIs(a, fd);
    hide Wf, Find;
    ScriptUnfolds(s, ops);
    ScriptUnfolds(a, ops[1..]);
    assert ops[1..][0] == ops[1] && ops[1..][1..] == [];
  }

  lemma {:induction false} UnsafeTape(s: State, rest: seq<nat>) returns (tape: Tape)
    requires Wf(s) && s.walking && NoDup(rest) && (forall n :: n in rest ==> n in s.nodes) && !QueueSafe(s, rest)
    ensures CallsDeleted(QueueCalls(s, rest, tape))
    decreases |rest|
  {
    tape := [];
    if MarkedWithQueue(s, rest) {
      var n :| n in rest && n in s.nodes && s.nodes[n].deleted && s.nodes[n].entry.queue != 0;
      MarkedIsCalled(s, rest, tape, n);
    } else {
      var i, j :| 0 <= i < j < |rest| && s.nodes[rest[i]].entry.queue != 0 && !s.nodes[rest[j]].deleted;
      WalkCallsUnfold(s, rest, tape);
      var n := rest[j];
      assert n == rest[1..][j - 1] && n in rest[1..];
      hide NoDup, Wf;
      if s.nodes[rest[0]].entry.queue == 0 {
        assert rest[1..][i - 1] == rest[i];
        assert !QueueSafe(s, rest[1..]);
        tape := UnsafeTape(s, rest[1..]);
        assert QueueCall(s, rest[0], tape) == [];
        assert QueueCalls(s, rest, tape) == [] + QueueCalls(s, rest[1..], tape) == QueueCalls(s, rest[1..], tape);
      } else {
        tape := [Spoil(s.nodes[n].fd)];
        SpoiledWalk(s, rest, n);
      }
    }
  }

  lemma SpoiledWalk(s: State, rest: seq<nat>, n: nat)
    requires Wf(s) && s.walking && rest != [] && NoDup(rest[1..]) && rest[0] in s.nodes && n in rest[1..] && n in s.nodes
    requires s.nodes[rest[0]].entry.queue != 0 && !s.nodes[n].deleted
    ensures CallsDeleted(QueueCalls(s, rest, [Spoil(s.nodes[n].fd)]))
  {
    var tape := [Spoil(s.nodes[n].fd)];
    var call := QueueCall(s, rest[0], tape);
    var a := s.(log := s.log + call);
    QueuedEvolves(s, rest[0], tape);
    QueueVisitRuns(s, rest[0], tape);
    SpoilSpoils(a, n);
    var s1, t1 := QueueVisit(s, rest[0], tape).0, QueueVisit(s, rest[0], tape).1;
    assert s1 == Script(a, tape[0].ops);
    hide Script, Spoil, Wf, Evolves;
    var later := QueueCalls(s1, rest[1..], t1);
    MarkedIsCalled(s1, rest[1..], t1, n);
    assert QueueCalls(s, rest, tape) == call + later;
    var e :| e in later && e.Queued? && e.deleted;
    assert e in call + later;
  }

  // -------------------------------------------------------------------------------- main results

  /** One run of the queues: the handlers are called in list order, each at most once; those of nodes
      that nothing disturbs exactly if there are any; and the result tells whether one returned nonzero. */
  lemma ProcessQueueCalls(s: State, tape: Tape) returns (ran: seq<Event>)
    requires Wf(s) && !s.walking
    ensures var r := ProcessQueue(s, tape);
      Queues(r.0.log) == Queues(s.log) + ran && (r.2 <==> AnyResult(ran)) &&
      QueueOrder(ran, s.list) && (forall i, j :: 0 <= i < j < |ran| ==> ran[i].node != ran[j].node) &&
      forall n :: n in s.list && Undisturbed(s, r.0.log, n) ==> (CalledAt(ran, n) <==> s.nodes[n].entry.queue != 0)
  {
    var m := s.(walking := true);
    ran := QueueCalls(m, s.list, tape);
    assert ProcessQueue(s, tape).0.log == QueueWalk(m, s.list, tape).0.log;
    WalkingIsWf(s, true);
    WalkQueues(m, s.list, tape);
    WalkInOrder(m, s.list, tape);
    QueueOrderOnce(ran, s.list);
    hide QueueWalk, QueueCalls, Wf, Queues, CalledAt;
    forall n | n in s.list && Undisturbed(s, ProcessQueue(s, tape).0.log, n)
      ensures CalledAt(ran, n) <==> s.nodes[n].entry.queue != 0
    {
      assert Undisturbed(m, QueueWalk(m, s.list, tape).0.log, n);
      QueueServes(m, s.list, tape, n);
    }
  }

  /** Deleted nodes and the queues.  If no handler deletes, one is called exactly if a marked node has
      a queue handler; and whatever the handlers do none is called, exactly if the list is safe. */
  lemma DeletedCallsExact(s: State)
    requires Wf(s) && !s.walking
    ensures var m := s.(walking := true);
      (forall tape :: NoDeletes(tape) ==> (CallsDeleted(QueueCalls(m, s.list, tape)) <==> MarkedWithQueue(s, s.list))) &&
      ((forall tape :: !CallsDeleted(QueueCalls(m, s.list, tape))) <==> QueueSafe(s, s.list))
  {
    var m := s.(walking := true);
    WalkingIsWf(s, true);
    assert NoDup(m.list) && forall n :: n in m.list ==> n in m.nodes;
    assert MarkedWithQueue(s, s.list) <==> MarkedWithQueue(m, m.list);
    assert QueueSafe(s, s.list) <==> QueueSafe(m, m.list);
    hide Wf, QueueCalls, CallsDeleted, MarkedWithQueue, QueueSafe;
    forall tape | NoDeletes(tape)
      ensures CallsDeleted(QueueCalls(m, s.list, tape)) <==> MarkedWithQueue(s, s.list)
    {
      QuietQueueExact(m, m.list, tape);
    }
    if QueueSafe(m, m.list) {
      forall tape ensures !CallsDeleted(QueueCalls(m, s.list, tape)) { SafeCalls(m, m.list, tape); }
    } else {
      var tape := UnsafeTape(m, m.list);
      assert CallsDeleted(QueueCalls(m, s.list, tape));
    }
  }

  /** Two handlers that have queues are enough to be unsafe. */
  lemma UnsafeIsReachable(x: int, y: int, e: Entry, f: Entry)
    requires x != y && e.read != 0 && e.queue != 0 && f.read != 0 && f.queue != 0
    ensures var s := Run(INITIAL, [Register(Op(x, e)), Register(Op(y, f))], []);
      Wf(s) && !s.walking && !QueueSafe(s, s.list)
  {
    var steps := [Register(Op(x, e)), Register(Op(y, f))];
    RunKeeps(INITIAL, steps, []);
    var a := SetHandler(INITIAL, Op(x, e));
    var s := SetHandler(a, Op(y, f));
    assert a == State([0], map[0 := Node(x, e, false)], false, 1, [Registered(Op(x, e))]);
    assert Find([], a.nodes, y) == None;
    assert s.list == [1, 0] && 0 in s.nodes && 1 in s.nodes;
    assert steps[1..] == [Register(Op(y, f))] && steps[1..][1..] == [];
    assert Run(s, [], []) == s && Run(a, steps[1..], []) == s;
    hide Wf;
    assert s.list[0] == 1 && s.list[1] == 0;
  }
}
