/**
 Bottom halves and the stack of contexts they belong to (async.c).

 A callback may do anything the interface offers: create, schedule, cancel and delete bottom halves
 of any context, and enter a context of its own, work there and leave it again, which polls.  What
 the callbacks do is a tape of scripts, one for each call in the order of the calls; a run has
 ended if the tape was long enough.  A poll from within a poll of the same context, and any use of
 a freed bottom half, are outside what the code supports and have no effect here.
 */
module BottomHalves {

  /** home is the serial number of the context that was current at creation; completion marks the
      bottom half of async_context_pop, whose callback deletes it before it does anything else. */
  datatype Bh = Bh(scheduled: bool, idle: bool, deleted: bool, home: nat, completion: bool)

  /** A context, with the list of its bottom halves.  No two contexts ever have the same serial. */
  datatype Context = Context(id: nat, serial: nat, list: seq<nat>, polling: bool)

  datatype Event =
    | Ran(bh: nat, home: nat, current: nat, idle: bool)
    | Cancelled(bh: nat)
    | Deleted(bh: nat)

  /** The stack of contexts, the current one last; the bottom halves not yet freed; the next unused
      bottom half and serial; what has happened. */
  datatype State = State(contexts: seq<Context>, bhs: map<nat, Bh>, next: nat, serials: nat, log: seq<Event>)

  datatype Op =
    | New
    | Schedule(bh: nat)
    | ScheduleIdle(bh: nat)
    | Cancel(bh: nat)
    | Delete(bh: nat)
    | PollNow
    | Nested(body: seq<Op>)

  type Tape = seq<seq<Op>>

  datatype Outcome = Running | Ended(s: State, tape: Tape, ret: bool)

  const INITIAL: State := State([Context(0, 0, [], false)], map[], 0, 1, [])

  // ------------------------------------------------------------------------------- operations

  function Top(s: State): Context
    requires s.contexts != []
  {
    s.contexts[|s.contexts| - 1]
  }

  function WithTop(s: State, c: Context): (r: State)
    requires s.contexts != []
  {
    s.(contexts := s.contexts[|s.contexts| - 1 := c])
  }

  function PushContext(s: State): State
    requires s.contexts != []
  {
    s.(contexts := s.contexts + [Context(Top(s).id + 1, s.serials, [], false)], serials := s.serials + 1)
  }

  function NewBh(s: State, completion: bool): State
    requires s.contexts != []
  {
    WithTop(s, Top(s).(list := [s.next] + Top(s).list))
    .(bhs := s.bhs[s.next := Bh(false, false, false, Top(s).serial, completion)], next := s.next + 1)
  }

  /** The operations that change the current context or one bottom half only. */
  function Basic(s: State, op: Op): State
    requires s.contexts != []
  {
    match op
    case New => NewBh(s, false)
    case Schedule(bh) =>
      if bh in s.bhs && !s.bhs[bh].scheduled
      then s.(bhs := s.bhs[bh := s.bhs[bh].(scheduled := true, idle := false)]) else s
    case ScheduleIdle(bh) =>
      if bh in s.bhs && !s.bhs[bh].scheduled
      then s.(bhs := s.bhs[bh := s.bhs[bh].(scheduled := true, idle := true)]) else s
    case Cancel(bh) =>
      if bh in s.bhs then s.(bhs := s.bhs[bh := s.bhs[bh].(scheduled := false)], log := s.log + [Cancelled(bh)]) else s
    case Delete(bh) =>
      if bh in s.bhs
      then s.(bhs := s.bhs[bh := s.bhs[bh].(scheduled := false, deleted := true)], log := s.log + [Deleted(bh)]) else s
    case _ => s
  }

  /** The bottom halves of a list that are not marked deleted. */
  function Live(list: seq<nat>, bhs: map<nat, Bh>): seq<nat> {
    if list == [] then []
    else (if list[0] in bhs && bhs[list[0]].deleted then [] else [list[0]]) + Live(list[1..], bhs)
  }

  /** What is left of the bottom halves when the deleted ones of a list have been freed. */
  function Unfreed(list: seq<nat>, bhs: map<nat, Bh>): map<nat, Bh> {
    map bh | bh in bhs && !(bh in list && bhs[bh].deleted) :: bhs[bh]
  }

  function Sweep(s: State): State
    requires s.contexts != []
  {
    WithTop(s, Top(s).(list := Live(Top(s).list, s.bhs), polling := false))
    .(bhs := Unfreed(Top(s).list, s.bhs))
  }

  /** The bottom half is about to be called. */
  function Begin(s: State, bh: nat): State
    requires s.contexts != [] && bh in s.bhs
  {
    s.(bhs := s.bhs[bh := s.bhs[bh].(scheduled := false, idle := false)],
       log := s.log + [Ran(bh, s.bhs[bh].home, Top(s).serial, s.bhs[bh].idle)])
  }

  predicate Due(s: State, bh: nat) {
    bh in s.bhs && !s.bhs[bh].deleted && s.bhs[bh].scheduled
  }

  /** One round of the loop of qemu_bh_poll. */
  function Visit(s: State, bh: nat, tape: Tape): (r: Outcome)
    requires s.contexts != []
    ensures r.Ended? ==> |r.s.contexts| == |s.contexts| && |r.tape| <= |tape|
    ensures r.Ended? && r.ret ==> |r.tape| < |tape|
    decreases |tape|, 0
  {
    if !Due(s, bh) then Ended(s, tape, false)
    else if tape == [] then Running
    else
      var s1 := Begin(s, bh);
      var s2 := if s.bhs[bh].completion then Basic(s1, Delete(bh)) else s1;
      match Run(s2, tape[0], tape[1..])
      case Running => Running
      case Ended(s3, t, _) => Ended(s3, t, !s.bhs[bh].idle)
  }

  function Walk(s: State, rest: seq<nat>, tape: Tape): (r: Outcome)
    requires s.contexts != []
    ensures r.Ended? ==> |r.s.contexts| == |s.contexts| && |r.tape| <= |tape|
    ensures r.Ended? && r.ret ==> |r.tape| < |tape|
    decreases |tape|, 1, |rest|
  {
    if rest == [] then Ended(s, tape, false)
    else
      match Visit(s, rest[0], tape)
      case Running => Running
      case Ended(s1, t1, ret1) =>
        match Walk(s1, rest[1..], t1)
        case Running => Running
        case Ended(s2, t2, ret2) => Ended(s2, t2, ret1 || ret2)
  }

  /** qemu_bh_poll. */
  function Poll(s: State, tape: Tape): (r: Outcome)
    requires s.contexts != []
    ensures r.Ended? ==> |r.s.contexts| == |s.contexts| && |r.tape| <= |tape|
    ensures r.Ended? && r.ret ==> |r.tape| < |tape|
    decreases |tape|, 2
  {
    match Walk(WithTop(s, Top(s).(polling := true)), Top(s).list, tape)
    case Running => Running
    case Ended(s1, t, ret) => Ended(Sweep(s1), t, ret)
  }

  /** The loop of async_context_pop. */
  function Drain(s: State, tape: Tape): (r: Outcome)
    requires s.contexts != []
    ensures r.Ended? ==> |r.s.contexts| == |s.contexts| && |r.tape| <= |tape|
    decreases |tape|, 3
  {
    match Poll(s, tape)
    case Running => Running
    case Ended(s1, t, ret) => if ret then Drain(s1, t) else Ended(s1, t, false)
  }

  /** Back to the parent context, where a bottom half is to deal with the queued completions. */
  function Leave(s: State): State
    requires |s.contexts| >= 2
  {
    Basic(NewBh(s.(contexts := s.contexts[..|s.contexts| - 1]), true), Schedule(s.next))
  }

  /** async_context_pop. */
  function PopContext(s: State, tape: Tape): (r: Outcome)
    requires |s.contexts| >= 2
    ensures r.Ended? ==> |r.s.contexts| == |s.contexts| - 1 && |r.tape| <= |tape|
    decreases |tape|, 4
  {
    match Drain(s, tape)
    case Running => Running
    case Ended(s1, t, _) => Ended(Leave(s1), t, false)
  }

  /** A sequence of operations, by a callback or by the main program. */
  function Run(s: State, script: seq<Op>, tape: Tape): (r: Outcome)
    requires s.contexts != []
    ensures r.Ended? ==> |r.s.contexts| == |s.contexts| && |r.tape| <= |tape|
    decreases |tape|, 5, script
  {
    if script == [] then Ended(s, tape, false)
    else
      var first :=
        match script[0]
        case PollNow => if Top(s).polling then Ended(s, tape, false) else Poll(s, tape)
        case Nested(body) =>
          (match Run(PushContext(s), body, tape)
           case Running => Running
           case Ended(s1, t, _) => PopContext(s1, t))
        case op => Ended(Basic(s, op), tape, false);
      match first
      case Running => Running
      case Ended(s2, t2, _) => Run(s2, script[1..], t2)
  }
}
