/**
 When leaving a context can strand a bottom half that is scheduled in it: exact conditions on the
 context before it is left.
 */
module BottomHalfDrain {
  import opened Sequences
  import opened BottomHalves
  import opened BottomHalfRuns

  predicate IdleDue(s: State, bh: nat) { Due(s, bh) && s.bhs[bh].idle }

  /** The first bottom half of the list that is due is an idle one. */
  predicate FirstDueIsIdle(s: State, list: seq<nat>) {
    list != [] && if Due(s, list[0]) then s.bhs[list[0]].idle else FirstDueIsIdle(s, list[1..])
  }

  /** No operation of the script, nested ones included, schedules a bottom half as idle. */
  predicate Plain(script: seq<Op>)
    decreases script
  {
    script == [] ||
    ((match script[0]
      case ScheduleIdle(_) => false
      case Nested(body) => Plain(body)
      case _ => true) &&
     Plain(script[1..]))
  }

  predicate PlainTape(tape: Tape) {
    forall k :: 0 <= k < |tape| ==> Plain(tape[k])
  }

  // -------------------------------------------------- plain callbacks make nothing idle and due

  ghost predicate NoNewIdle(s: State, r: State) {
    forall bh :: IdleDue(r, bh) ==> IdleDue(s, bh)
  }

  lemma BasicNoNewIdle(s: State, op: Op)
    requires s.contexts != [] && !op.ScheduleIdle?
    ensures NoNewIdle(s, Basic(s, op))
  {}

  lemma BeginNoIdle(s: State, bh: nat)
    requires s.contexts != [] && bh in s.bhs
    ensures NoNewIdle(s, Begin(s, bh)) && !IdleDue(Begin(s, bh), bh)
  {}

  lemma PlainTail(tape: Tape)
    requires PlainTape(tape) && tape != []
    ensures Plain(tape[0]) && PlainTape(tape[1..])
  {}

  /** The first callback of a visit starts from here. */
  function Entered(s: State, bh: nat): (r: State)
    requires s.contexts != [] && bh in s.bhs
    ensures |r.contexts| == |s.contexts|
  {
    if s.bhs[bh].completion then Basic(Begin(s, bh), Delete(bh)) else Begin(s, bh)
  }

  lemma VisitIs(s: State, bh: nat, tape: Tape)
    requires s.contexts != []
    ensures Visit(s, bh, tape) ==
      if !Due(s, bh) then Ended(s, tape, false)
      else if tape == [] then Running
      else match Run(Entered(s, bh), tape[0], tape[1..])
        case Running => Running
        case Ended(r, t, _) => Ended(r, t, !s.bhs[bh].idle)
  {}

  lemma VisitPlain(s: State, bh: nat, tape: Tape)
    requires s.contexts != [] && PlainTape(tape) && Visit(s, bh, tape).Ended?
    ensures var o := Visit(s, bh, tape); NoNewIdle(s, o.s) && PlainTape(o.tape) && !IdleDue(o.s, bh)
    decreases |tape|, 0
  {
    VisitIs(s, bh, tape);
    if Due(s, bh) {
      BeginNoIdle(s, bh);
      BasicNoNewIdle(Begin(s, bh), Delete(bh));
      PlainTail(tape);
      hide Visit, Run, Due;
      RunPlain(Entered(s, bh), tape[0], tape[1..]);
    }
  }

  /** A poll leaves nothing of its list idle and due. */
  lemma WalkPlain(s: State, rest: seq<nat>, tape: Tape)
    requires s.contexts != [] && PlainTape(tape) && Walk(s, rest, tape).Ended?
    ensures var o := Walk(s, rest, tape);
      NoNewIdle(s, o.s) && PlainTape(o.tape) && forall bh :: bh in rest ==> !IdleDue(o.s, bh)
    decreases |tape|, 1, |rest|
  {
    if rest != [] {
      WalkUnfolds(s, rest, tape);
      WalkTape(s, rest, tape);
      hide Walk, Visit, IdleDue, PlainTape;
      VisitPlain(s, rest[0], tape);
      var o := Visit(s, rest[0], tape);
      WalkPlain(o.s, rest[1..], o.tape);
      assert forall bh :: bh in rest ==> bh == rest[0] || bh in rest[1..];
    }
  }

  lemma WalkTape(s: State, rest: seq<nat>, tape: Tape)
    requires s.contexts != [] && rest != [] && Walk(s, rest, tape).Ended?
    ensures var o := Visit(s, rest[0], tape); o.Ended? && Walk(s, rest, tape).tape == Walk(o.s, rest[1..], o.tape).tape
  {}

  lemma SweepNoNewIdle(s: State)
    requires s.contexts != []
    ensures NoNewIdle(s, Sweep(s))
  {
    hide Live;
  }

  lemma PollTape(s: State, tape: Tape)
    requires s.contexts != [] && Poll(s, tape).Ended?
    ensures Poll(s, tape).tape == Walk(Marked(s), Top(s).list, tape).tape
  {}

  lemma PollPlain(s: State, tape: Tape)
    requires s.contexts != [] && PlainTape(tape) && Poll(s, tape).Ended?
    ensures var o := Poll(s, tape);
      NoNewIdle(s, o.s) && PlainTape(o.tape) && forall bh :: bh in Top(s).list ==> !IdleDue(o.s, bh)
    decreases |tape|, 2
  {
    PollUnfolds(s, tape);
    PollTape(s, tape);
    var w := Walk(Marked(s), Top(s).list, tape);
    assert NoNewIdle(s, Marked(s));
    SweepNoNewIdle(w.s);
    hide Walk, Poll, IdleDue, PlainTape, Sweep;
    WalkPlain(Marked(s), Top(s).list, tape);
  }

  lemma DrainTape(s: State, tape: Tape)
    requires s.contexts != [] && Drain(s, tape).Ended?
    ensures var o := Poll(s, tape);
      o.Ended? && Drain(s, tape).tape == if o.ret then Drain(o.s, o.tape).tape else o.tape
  {}

  lemma DrainPlain(s: State, tape: Tape)
    requires s.contexts != [] && PlainTape(tape) && Drain(s, tape).Ended?
    ensures var o := Drain(s, tape); NoNewIdle(s, o.s) && PlainTape(o.tape)
    decreases |tape|, 3
  {
    DrainUnfolds(s, tape);
    DrainTape(s, tape);
    hide Drain, Poll, IdleDue, PlainTape;
    PollPlain(s, tape);
    var o := Poll(s, tape);
    if o.ret { DrainPlain(o.s, o.tape); }
  }

  lemma NestedPlain(s: State, body: seq<Op>, tape: Tape)
    requires s.contexts != [] && Plain(body) && PlainTape(tape) && RunFirst(s, Nested(body), tape).Ended?
    ensures var o := RunFirst(s, Nested(body), tape); NoNewIdle(s, o.s) && PlainTape(o.tape)
    decreases |tape|, 5, body, 1
  {
    var p := PushContext(s);
    hide Run, Drain, PlainTape, Plain;
    RunPlain(p, body, tape);
    var o := Run(p, body, tape);
    DrainPlain(o.s, o.tape);
    var d := Drain(o.s, o.tape).s;
    var n := NewBh(Dropped(d), true);
    assert Leave(d) == Basic(n, Schedule(d.next));
    BasicNoNewIdle(n, Schedule(d.next));
    assert NoNewIdle(d, n);
    hide IdleDue;
  }

  lemma RunTape(s: State, script: seq<Op>, tape: Tape)
    requires s.contexts != [] && script != [] && Run(s, script, tape).Ended?
    ensures var o := RunFirst(s, script[0], tape); o.Ended? && Run(s, script, tape) == Run(o.s, script[1..], o.tape)
  {}

  lemma RunPlain(s: State, script: seq<Op>, tape: Tape)
    requires s.contexts != [] && Plain(script) && PlainTape(tape) && Run(s, script, tape).Ended?
    ensures var o := Run(s, script, tape); NoNewIdle(s, o.s) && PlainTape(o.tape)
    decreases |tape|, 5, script, 0
  {
    if script != [] {
      RunTape(s, script, tape);
      var op, o := script[0], RunFirst(s, script[0], tape);
      hide Run, Poll, PopContext, Basic, PlainTape, IdleDue;
      if op.PollNow? {
        if !Top(s).polling { PollPlain(s, tape); }
      } else if op.Nested? {
        NestedPlain(s, op.body, tape);
      } else {
        BasicNoNewIdle(s, op);
      }
      hide RunFirst;
      RunPlain(o.s, script[1..], o.tape);
    }
  }

  // ----------------------------------------------------------------- when nothing is stranded

  predicate AnyDue(s: State, list: seq<nat>) {
    exists bh :: bh in list && Due(s, bh)
  }

  /** A walk whose first due bottom half is not idle reports it; one with nothing due does nothing. */
  lemma {:induction false} WalkFirst(s: State, rest: seq<nat>, tape: Tape)
    requires s.contexts != [] && Walk(s, rest, tape).Ended? && !FirstDueIsIdle(s, rest)
    ensures var o := Walk(s, rest, tape); if AnyDue(s, rest) then o.ret else o.s == s && !o.ret
    decreases |rest|
  {
    if rest != [] {
      VisitIs(s, rest[0], tape);
      WalkUnfolds(s, rest, tape);
      assert forall bh :: bh in rest <==> bh == rest[0] || bh in rest[1..];
      hide Walk, Visit, Run, Due;
      if !Due(s, rest[0]) { WalkFirst(s, rest[1..], tape); }
    }
  }

  ghost predicate NoneIdleDue(s: State)
    requires s.contexts != []
  {
    forall bh :: bh in Top(s).list ==> !IdleDue(s, bh)
  }

  lemma {:induction false} NotFirst(s: State, list: seq<nat>)
    requires forall bh :: bh in list ==> !IdleDue(s, bh)
    ensures !FirstDueIsIdle(s, list)
  {
    if list != [] {
      assert list[0] in list;
      NotFirst(s, list[1..]);
    }
  }

  lemma PollLeavesNoIdle(s: State, tape: Tape)
    requires Wf(s) && !Top(s).polling && PlainTape(tape) && Poll(s, tape).Ended?
    ensures Wf(Poll(s, tape).s) && NoneIdleDue(Poll(s, tape).s)
  {
    PollPlain(s, tape);
    var _, _ := PollRuns(s, tape);
    var r := Poll(s, tape).s;
    MovesTop(s, r, []);
    GoodTop(r);
    assert SameBhs(s, r, Top(s).serial);
    assert GoodContext(s, |s.contexts| - 1);
    hide Poll, Moves, Wf, PlainTape;
    forall bh | bh in Top(r).list ensures !IdleDue(r, bh) {
      assert IdleDue(r, bh) ==> IdleDue(s, bh);
      assert bh in s.bhs ==> s.bhs[bh].home == Top(s).serial;
    }
  }

  /** What a poll that does nothing leaves. */
  lemma SweepNoneDue(s: State)
    requires Wf(s) && !AnyDue(s, Top(s).list)
    ensures NoneDue(Sweep(s))
  {
    LiveMeans(Top(s).list, s.bhs);
    hide Wf, Live;
    forall bh | bh in Top(Sweep(s)).list ensures !Due(Sweep(s), bh) {
      assert !Due(s, bh);
    }
  }

  lemma PollFirst(s: State, tape: Tape)
    requires Wf(s) && Poll(s, tape).Ended? && !FirstDueIsIdle(s, Top(s).list)
    ensures if AnyDue(s, Top(s).list) then Poll(s, tape).ret else !Poll(s, tape).ret && NoneDue(Poll(s, tape).s)
  {
    PollUnfolds(s, tape);
    var m := Marked(s);
    SameFirst(s, m, Top(s).list);
    assert AnyDue(m, Top(s).list) <==> AnyDue(s, Top(s).list) by { assert forall bh :: Due(m, bh) <==> Due(s, bh); }
    assert s.contexts != [] && m.contexts != [] && Sweep(m) == Sweep(s);
    hide Poll, Walk, Wf, FirstDueIsIdle, AnyDue;
    WalkFirst(m, Top(s).list, tape);
    if !Poll(s, tape).ret { SweepNoneDue(s); }
  }

  lemma {:induction false} SameFirst(s: State, r: State, list: seq<nat>)
    requires r.bhs == s.bhs
    ensures FirstDueIsIdle(r, list) <==> FirstDueIsIdle(s, list)
  {
    if list != [] { SameFirst(s, r, list[1..]); }
  }

  lemma DrainsIfNotIdle(s: State, tape: Tape)
    requires Wf(s) && !Top(s).polling && PlainTape(tape) && Drain(s, tape).Ended?
    requires !FirstDueIsIdle(s, Top(s).list)
    ensures NoneDue(Drain(s, tape).s)
    decreases |tape|
  {
    assert s.contexts != [];
    DrainUnfolds(s, tape);
    PollFirst(s, tape);
    var o := Poll(s, tape);
    if o.ret {
      PollPlain(s, tape);
      PollLeavesNoIdle(s, tape);
      var _, _ := PollRuns(s, tape);
      MovesTop(s, o.s, []);
      NotFirst(o.s, Top(o.s).list);
      hide Drain, Poll, Wf, Moves, PlainTape, FirstDueIsIdle, NoneDue, IdleDue;
      DrainsIfNotIdle(o.s, o.tape);
    }
  }

  // ----------------------------------------------------------------------- how to be stranded

  function Kill(list: seq<nat>): seq<Op> {
    if list == [] then [] else [Cancel(list[0])] + Kill(list[1..])
  }

  function Killed(s: State, list: seq<nat>): (r: State)
    requires s.contexts != []
    ensures r.contexts == s.contexts && r.next == s.next && r.serials == s.serials
    decreases |list|
  {
    if list == [] then s else Killed(Basic(s, Cancel(list[0])), list[1..])
  }

  lemma {:induction false} KillRuns(s: State, list: seq<nat>, more: seq<Op>, tape: Tape)
    requires s.contexts != []
    ensures Run(s, Kill(list) + more, tape) == Run(Killed(s, list), more, tape)
    decreases |list|
  {
    if list == [] {
      assert [] + more == more;
    } else {
      var script := Kill(list) + more;
      assert script[0] == Cancel(list[0]) && script[1..] == Kill(list[1..]) + more;
      RunBasic(s, script, tape);
      hide Run, Basic;
      KillRuns(Basic(s, Cancel(list[0])), list[1..], more, tape);
    }
  }

  lemma RunBasic(s: State, script: seq<Op>, tape: Tape)
    requires s.contexts != [] && script != [] && !script[0].PollNow? && !script[0].Nested?
    ensures Run(s, script, tape) == Run(Basic(s, script[0]), script[1..], tape)
  {}

  lemma CancelFacts(s: State, bh: nat)
    requires Wf(s)
    ensures Wf(Basic(s, Cancel(bh))) && Basic(s, Cancel(bh)).bhs.Keys == s.bhs.Keys
    ensures forall b :: b in s.bhs ==>
      Basic(s, Cancel(bh)).bhs[b] == if b == bh then s.bhs[b].(scheduled := false) else s.bhs[b]
  {
    BasicKeeps(s, Cancel(bh));
    hide Wf, Moves;
  }

  lemma {:induction false} KilledFacts(s: State, list: seq<nat>)
    requires Wf(s)
    ensures Wf(Killed(s, list)) && Killed(s, list).bhs.Keys == s.bhs.Keys
    ensures forall bh :: bh in s.bhs ==>
      Killed(s, list).bhs[bh] == if bh in list then s.bhs[bh].(scheduled := false) else s.bhs[bh]
    decreases |list|
  {
    if list != [] {
      CancelFacts(s, list[0]);
      hide Wf, Basic;
      KilledFacts(Basic(s, Cancel(list[0])), list[1..]);
      assert forall bh :: bh in list <==> bh == list[0] || bh in list[1..];
    }
  }

  lemma KillStep(list: seq<nat>, more: seq<Op>)
    requires list != []
    ensures var script := Kill(list) + more;
      script != [] && script[0] == Cancel(list[0]) && script[1..] == Kill(list[1..]) + more
  {
    assert Kill(list) == [Cancel(list[0])] + Kill(list[1..]);
    hide Kill;
    ConsFront(Cancel(list[0]), Kill(list[1..]), more);
  }

  lemma {:induction false} KillIsPlain(list: seq<nat>, more: seq<Op>)
    requires Plain(more)
    ensures Plain(Kill(list) + more)
  {
    if list == [] {
      assert [] + more == more;
    } else {
      KillIsPlain(list[1..], more);
      KillStep(list, more);
      hide Kill;
    }
  }

  function Last(idle: bool, bh: nat): Op { if idle then ScheduleIdle(bh) else Schedule(bh) }

  /** A callback that cancels all bottom halves of the current context and schedules a new one. */
  function Spoil(s: State, idle: bool): seq<Op>
    requires s.contexts != []
  {
    Kill(Top(s).list) + [New, Last(idle, s.next)]
  }

  function Spoiled(s: State, bh: nat, idle: bool): (r: State)
    requires s.contexts != [] && bh in s.bhs
    ensures |r.contexts| == |s.contexts|
  {
    Basic(NewBh(Killed(Entered(s, bh), Top(s).list), false), Last(idle, s.next))
  }

  lemma VisitSpoils(s: State, bh: nat, idle: bool, tape: Tape)
    requires Wf(s) && Due(s, bh)
    ensures Visit(s, bh, [Spoil(s, idle)] + tape) == Ended(Spoiled(s, bh, idle), tape, !s.bhs[bh].idle)
  {
    var all := [Spoil(s, idle)] + tape;
    assert all[0] == Spoil(s, idle) && all[1..] == tape;
    VisitIs(s, bh, all);
    var e := Entered(s, bh);
    assert s.contexts != [] && Top(e) == Top(s) && e.next == s.next;
    var last := [New, Last(idle, s.next)];
    KillRuns(e, Top(s).list, last, tape);
    var k := Killed(e, Top(s).list);
    hide Visit, Due, Entered, Killed, Kill, Wf;
    assert last[1..] == [Last(idle, s.next)] && last[1..][1..] == [];
    RunBasic(k, last, tape);
    RunBasic(NewBh(k, false), last[1..], tape);
  }

  lemma EnteredFacts(s: State, bh: nat)
    requires Wf(s) && Top(s).polling && bh in Top(s).list && Due(s, bh)
    ensures var e := Entered(s, bh);
      Wf(e) && e.contexts == s.contexts && e.next == s.next && e.bhs.Keys == s.bhs.Keys
  {
    assert s.contexts != [];
    GoodTop(s);
    var b := Begin(s, bh);
    assert b.contexts == s.contexts && b.next == s.next && b.bhs.Keys == s.bhs.Keys;
    BeginIsWf(s, bh);
    hide Wf, Moves, Begin, Due;
    DeleteFacts(b, bh);
  }

  lemma BeginIsWf(s: State, bh: nat)
    requires Wf(s) && Top(s).polling && bh in Top(s).list
    ensures bh in s.bhs && Wf(Begin(s, bh))
  {
    hide Wf, Begin, Moves;
    BeginMoves(s, bh);
  }

  lemma DeleteFacts(s: State, bh: nat)
    requires Wf(s) && bh in s.bhs
    ensures var r := Basic(s, Delete(bh));
      Wf(r) && r.contexts == s.contexts && r.next == s.next && r.bhs.Keys == s.bhs.Keys
  {
    hide Wf, Moves;
    BasicKeeps(s, Delete(bh));
  }

  /** Afterwards the new bottom half is in front, and it alone is due. */
  lemma SpoiledFacts(s: State, bh: nat, idle: bool)
    requires Wf(s) && Top(s).polling && bh in Top(s).list && Due(s, bh)
    ensures var r := Spoiled(s, bh, idle);
      Wf(r) && Top(r) == Top(s).(list := [s.next] + Top(s).list) &&
      Due(r, s.next) && (r.bhs[s.next].idle <==> idle) && forall x :: x in Top(s).list ==> !Due(r, x)
  {
    var e, list := Entered(s, bh), Top(s).list;
    GoodTop(s);
    forall x | x in list ensures x < s.next { assert GoodBh(s, x); }
    assert s.contexts != [];
    hide Wf, Moves, Entered, Killed, Due;
    EnteredFacts(s, bh);
    KilledFacts(e, list);
    LastFacts(Killed(e, list), list, s.next, idle);
  }

  lemma LastFacts(k: State, list: seq<nat>, n: nat, idle: bool)
    requires Wf(k) && Top(k).list == list && k.next == n
    requires forall x :: x in list ==> x < n && (x in k.bhs ==> !k.bhs[x].scheduled)
    ensures var r := Basic(NewBh(k, false), Last(idle, n));
      Wf(r) && Top(r) == Top(k).(list := [n] + list) &&
      Due(r, n) && (r.bhs[n].idle <==> idle) && forall x :: x in list ==> !Due(r, x)
  {
    assert k.contexts != [];
    hide Wf, Moves;
    NewIsWf(k, false);
    var a := NewBh(k, false);
    BasicKeeps(a, Last(idle, n));
    assert a.bhs[n] == Bh(false, false, false, Top(k).serial, false);
  }

  lemma {:induction false} WalkNothing(s: State, rest: seq<nat>, tape: Tape)
    requires s.contexts != [] && forall bh :: bh in rest ==> !Due(s, bh)
    ensures Walk(s, rest, tape) == Ended(s, tape, false)
    decreases |rest|
  {
    if rest != [] {
      VisitIs(s, rest[0], tape);
      WalkNothing(s, rest[1..], tape);
    }
  }

  function FirstDue(s: State, list: seq<nat>): (bh: nat)
    requires AnyDue(s, list)
    ensures bh in list && Due(s, bh)
  {
    if Due(s, list[0]) then list[0]
    else
      assert forall x :: x in list <==> x == list[0] || x in list[1..];
      FirstDue(s, list[1..])
  }

  lemma {:induction false} WalkSpoils(s: State, rest: seq<nat>, idle: bool, tape: Tape)
    requires Wf(s) && Top(s).polling && AnyDue(s, rest) && forall x :: x in rest ==> x in Top(s).list
    ensures Walk(s, rest, [Spoil(s, idle)] + tape)
      == Ended(Spoiled(s, FirstDue(s, rest), idle), tape, !FirstDueIsIdle(s, rest))
    decreases |rest|
  {
    var all := [Spoil(s, idle)] + tape;
    assert forall x :: x in rest <==> x == rest[0] || x in rest[1..];
    if Due(s, rest[0]) {
      var bh := rest[0];
      VisitSpoils(s, bh, idle, tape);
      SpoiledFacts(s, bh, idle);
      hide Spoil, Wf, Visit;
      WalkNothing(Spoiled(s, bh, idle), rest[1..], tape);
    } else {
      VisitIs(s, rest[0], all);
      WalkSpoils(s, rest[1..], idle, tape);
    }
  }

  function SpoiledPoll(s: State, idle: bool): (r: State)
    requires s.contexts != [] && AnyDue(Marked(s), Top(s).list)
    ensures |r.contexts| == |s.contexts|
  {
    Sweep(Spoiled(Marked(s), FirstDue(Marked(s), Top(s).list), idle))
  }

  lemma SameDue(s: State, list: seq<nat>)
    requires s.contexts != []
    ensures AnyDue(Marked(s), list) <==> AnyDue(s, list)
  {
    assert forall bh :: Due(Marked(s), bh) <==> Due(s, bh);
  }

  /** A poll in which the first callback spoils everything: it reports a call exactly if that was not an
      idle one, and leaves a new bottom half that is due in front. */
  lemma PollSpoils(s: State, idle: bool, tape: Tape)
    requires Wf(s) && !Top(s).polling && AnyDue(Marked(s), Top(s).list)
    ensures var r := SpoiledPoll(s, idle);
      Poll(s, [Spoil(s, idle)] + tape) == Ended(r, tape, !FirstDueIsIdle(s, Top(s).list)) &&
      Wf(r) && !Top(r).polling && Top(r).list != [] &&
      Due(r, Top(r).list[0]) && (r.bhs[Top(r).list[0]].idle <==> idle)
  {
    var m, list := Marked(s), Top(s).list;
    MarkedIsWf(s);
    SameFirst(s, m, list);
    assert Spoil(m, idle) == Spoil(s, idle) && Top(m).list == list && Top(m).polling;
    PollIs(s, [Spoil(s, idle)] + tape);
    hide Spoiled, Spoil, Walk, Poll, Wf, FirstDueIsIdle, FirstDue, Marked, Due, Sweep;
    WalkSpoils(m, list, idle, tape);
    var bh := FirstDue(m, list);
    SpoiledFacts(m, bh, idle);
    SweptFront(Spoiled(m, bh, idle), m.next, list, idle);
  }

  /** The sweep leaves a live bottom half in front where it was. */
  lemma SweptFront(c: State, n: nat, list: seq<nat>, idle: bool)
    requires Wf(c) && Top(c).list == [n] + list && Due(c, n) && (c.bhs[n].idle <==> idle)
    ensures var r := Sweep(c);
      Wf(r) && !Top(r).polling && Top(r).list != [] && Top(r).list[0] == n && Due(r, n) && (r.bhs[n].idle <==> idle)
  {
    SweepIsWf(c);
    hide Wf;
    assert ([n] + list)[1..] == list;
    assert Live([n] + list, c.bhs) == [n] + Live(list, c.bhs);
  }

  lemma PollIs(s: State, tape: Tape)
    requires s.contexts != []
    ensures var w := Walk(Marked(s), Top(s).list, tape);
      Poll(s, tape) == match w case Running => Running case Ended(a, t, ret) => Ended(Sweep(a), t, ret)
  {}

  /** If the first due bottom half is an idle one, there is a plain tape that strands another. */
  lemma IdleFirstStrands(s: State) returns (tape: Tape)
    requires Wf(s) && !Top(s).polling && FirstDueIsIdle(s, Top(s).list)
    ensures PlainTape(tape) && Drain(s, tape).Ended? && !NoneDue(Drain(s, tape).s)
  {
    assert s.contexts != [];
    SomeDue(s, Top(s).list);
    SameDue(s, Top(s).list);
    tape := [Spoil(s, false)] + [];
    var last := [New, Schedule(s.next)];
    assert last[1..] == [Schedule(s.next)] && last[1..][1..] == [];
    assert Plain(last[1..][1..]) && Plain(last[1..]) && Plain(last);
    KillIsPlain(Top(s).list, last);
    assert PlainTape(tape);
    hide Spoil, Plain, SpoiledPoll, Wf, FirstDueIsIdle, Poll, Due;
    PollSpoils(s, false, []);
    var r := SpoiledPoll(s, false);
    assert Drain(s, tape) == Ended(r, [], false);
    assert Top(r).list[0] in Top(r).list;
  }

  lemma {:induction false} SomeDue(s: State, list: seq<nat>)
    requires FirstDueIsIdle(s, list)
    ensures AnyDue(s, list)
  {
    if Due(s, list[0]) {
      assert list[0] in list;
    } else {
      SomeDue(s, list[1..]);
      var bh :| bh in list[1..] && Due(s, bh);
      assert bh in list;
    }
  }

  /** If anything is due, there is some tape that strands a bottom half: the first callback schedules a
      new one as idle, and the callback of that one spoils the next poll. */
  lemma DueStrands(s: State) returns (tape: Tape)
    requires Wf(s) && !Top(s).polling && AnyDue(s, Top(s).list)
    ensures Drain(s, tape).Ended? && !NoneDue(Drain(s, tape).s)
  {
    if FirstDueIsIdle(s, Top(s).list) {
      tape := IdleFirstStrands(s);
    } else {
      assert s.contexts != [];
      SameDue(s, Top(s).list);
      PollSpoils(s, true, []);
      var r := SpoiledPoll(s, true);
      assert r.contexts != [] && FirstDueIsIdle(r, Top(r).list);
      hide Spoil, SpoiledPoll, Wf, FirstDueIsIdle, Poll, Due, NoneDue, Drain;
      var later := IdleFirstStrands(r);
      tape := [Spoil(s, true)] + later;
      PollSpoils(s, true, later);
      DrainAgain(s, tape, r, later);
    }
  }

  lemma DrainAgain(s: State, tape: Tape, r: State, later: Tape)
    requires s.contexts != [] && Poll(s, tape) == Ended(r, later, true) && r.contexts != [] && Drain(r, later).Ended?
    ensures Drain(s, tape).Ended? && Drain(s, tape).s == Drain(r, later).s
  {}

  // -------------------------------------------------------------------------------- main results

  /** Leaving the context destroys it while something in it is still due. */
  ghost predicate Strands(s: State, tape: Tape)
    requires |s.contexts| >= 2
  {
    var o := PopContext(s, tape);
    o.Ended? && exists bh :: bh in o.s.bhs && o.s.bhs[bh].home == Top(s).serial && Due(o.s, bh)
  }

  /** What is stranded is what is due when the polling is over. */
  lemma StrandsMeans(s: State, tape: Tape)
    requires Wf(s) && |s.contexts| >= 2 && !Top(s).polling && Drain(s, tape).Ended?
    ensures PopContext(s, tape).Ended? && (Strands(s, tape) <==> !NoneDue(Drain(s, tape).s))
  {
    var d, n := Drain(s, tape).s, |s.contexts| - 1;
    assert s.contexts != [] && s.contexts[n - 1].serial < s.contexts[n].serial;
    assert PopContext(s, tape) == Ended(Leave(d), Drain(s, tape).tape, false);
    hide Drain, Wf, Moves, PopContext, NoneDue;
    var _ := DrainRuns(s, tape);
    MovesTop(s, d, []);
    assert d.contexts[n - 1] == s.contexts[n - 1] by { MovesBelow(s, d, []); }
    LeaveDue(d);
  }

  /** Before a context is left: as long as no callback schedules an idle bottom half, nothing can be
      stranded exactly if the first due bottom half in its list is not an idle one; and if callbacks
      may do anything, exactly if nothing in it is due at all. */
  lemma PopStrandsExact(s: State)
    requires Wf(s) && |s.contexts| >= 2 && !Top(s).polling
    ensures (forall tape :: PlainTape(tape) ==> !Strands(s, tape)) <==> !FirstDueIsIdle(s, Top(s).list)
    ensures (forall tape :: !Strands(s, tape)) <==> !AnyDue(s, Top(s).list)
  {
    hide Wf, FirstDueIsIdle, Strands, NoneDue, PlainTape, Due;
    if FirstDueIsIdle(s, Top(s).list) {
      var tape := IdleFirstStrands(s);
      StrandsMeans(s, tape);
      assert Strands(s, tape);
    } else {
      forall tape | PlainTape(tape) ensures !Strands(s, tape) { NotStranded(s, tape); }
    }
    if AnyDue(s, Top(s).list) {
      var tape := DueStrands(s);
      StrandsMeans(s, tape);
      assert Strands(s, tape);
    } else {
      forall tape ensures !Strands(s, tape) { NothingToStrand(s, tape); }
    }
  }

  lemma NotStranded(s: State, tape: Tape)
    requires Wf(s) && |s.contexts| >= 2 && !Top(s).polling && PlainTape(tape) && !FirstDueIsIdle(s, Top(s).list)
    ensures !Strands(s, tape)
  {
    hide Wf, FirstDueIsIdle, NoneDue, PlainTape, Due, Drain;
    if Drain(s, tape).Ended? {
      DrainsIfNotIdle(s, tape);
      StrandsMeans(s, tape);
    }
  }

  lemma NothingToStrand(s: State, tape: Tape)
    requires Wf(s) && |s.contexts| >= 2 && !Top(s).polling && !AnyDue(s, Top(s).list)
    ensures !Strands(s, tape)
  {
    if FirstDueIsIdle(s, Top(s).list) { SomeDue(s, Top(s).list); }
    assert s.contexts != [];
    if Drain(s, tape).Ended? {
      DrainUnfolds(s, tape);
      PollFirst(s, tape);
      StrandsMeans(s, tape);
    }
  }
}
