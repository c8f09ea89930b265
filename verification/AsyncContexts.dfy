/**
 The global state of async.c changed in place: each operation does what BottomHalves says of it.
 The bottom halves not yet freed are a map from identity to fields, each context's linked list is
 a sequence, and the callbacks' scripts come from the tape.
 */
module AsyncContexts {
  import opened Sequences
  import opened BottomHalves
  import opened BottomHalfRuns

  class Async {
    var contexts: seq<Context>
    var bhs: map<nat, Bh>
    var next: nat
    var serials: nat
    ghost var log: seq<Event>

    ghost function Now(): State
      reads this
    {
      State(contexts, bhs, next, serials, log)
    }

    ghost predicate Valid()
      reads this
    {
      Wf(Now())
    }

    constructor ()
      ensures Valid() && Now() == INITIAL
    {
      contexts, bhs, next, serials, log := [Context(0, 0, [], false)], map[], 0, 1, [];
    }

    /** async_context_push. */
    method Push()
      requires Valid()
      modifies this
      ensures Valid() && Now() == PushContext(old(Now()))
      ensures contexts == old(contexts) + [Context(|old(contexts)|, old(serials), [], false)] && serials == old(serials) + 1
      ensures bhs == old(bhs) && next == old(next) && log == old(log)
    {
      PushIsWf(Now());
      assert GoodContext(Now(), |contexts| - 1);
      contexts := contexts + [Context(contexts[|contexts| - 1].id + 1, serials, [], false)];
      serials := serials + 1;
    }

    /** qemu_bh_new. */
    method New(completion: bool) returns (bh: nat)
      requires Valid()
      modifies this
      ensures Valid() && Now() == NewBh(old(Now()), completion) && bh == old(next)
      ensures bh !in old(bhs) && next == bh + 1 && serials == old(serials) && log == old(log)
      ensures |contexts| == |old(contexts)| > 0
      ensures var n, was := |contexts| - 1, old(contexts);
        && (forall i :: 0 <= i < n ==> contexts[i] == was[i])
        && contexts[n] == was[n].(list := [bh] + was[n].list)
        && bhs == old(bhs)[bh := Bh(false, false, false, was[n].serial, completion)]
    {
      NewIsWf(Now(), completion);
      var top := contexts[|contexts| - 1];
      bh, next := next, next + 1;
      bhs := bhs[bh := Bh(false, false, false, top.serial, completion)];
      contexts := contexts[|contexts| - 1 := top.(list := [bh] + top.list)];
    }

    method Schedule(bh: nat)
      requires Valid() && bh in bhs
      modifies this
      ensures Valid() && Now() == Basic(old(Now()), Op.Schedule(bh))
      ensures bhs == if old(bhs[bh].scheduled) then old(bhs) else old(bhs)[bh := old(bhs[bh]).(scheduled := true, idle := false)]
      ensures contexts == old(contexts) && next == old(next) && serials == old(serials) && log == old(log)
    {
      BasicKeeps(Now(), Op.Schedule(bh));
      if bhs[bh].scheduled { return; }
      bhs := bhs[bh := bhs[bh].(scheduled := true, idle := false)];
    }

    method ScheduleIdle(bh: nat)
      requires Valid() && bh in bhs
      modifies this
      ensures Valid() && Now() == Basic(old(Now()), Op.ScheduleIdle(bh))
      ensures bhs == if old(bhs[bh].scheduled) then old(bhs) else old(bhs)[bh := old(bhs[bh]).(scheduled := true, idle := true)]
      ensures contexts == old(contexts) && next == old(next) && serials == old(serials) && log == old(log)
    {
      BasicKeeps(Now(), Op.ScheduleIdle(bh));
      if bhs[bh].scheduled { return; }
      bhs := bhs[bh := bhs[bh].(scheduled := true, idle := true)];
    }

    method Cancel(bh: nat)
      requires Valid() && bh in bhs
      modifies this
      ensures Valid() && Now() == Basic(old(Now()), Op.Cancel(bh))
      ensures bhs == old(bhs)[bh := old(bhs[bh]).(scheduled := false)]
      ensures contexts == old(contexts) && next == old(next) && serials == old(serials) && log == old(log) + [Cancelled(bh)]
    {
      BasicKeeps(Now(), Op.Cancel(bh));
      bhs := bhs[bh := bhs[bh].(scheduled := false)];
      log := log + [Cancelled(bh)];
    }

    method Delete(bh: nat)
      requires Valid() && bh in bhs
      modifies this
      ensures Valid() && Now() == Basic(old(Now()), Op.Delete(bh))
      ensures bhs == old(bhs)[bh := old(bhs[bh]).(scheduled := false, deleted := true)]
      ensures contexts == old(contexts) && next == old(next) && serials == old(serials) && log == old(log) + [Deleted(bh)]
    {
      BasicKeeps(Now(), Op.Delete(bh));
      bhs := bhs[bh := bhs[bh].(scheduled := false, deleted := true)];
      log := log + [Deleted(bh)];
    }

    /** The second loop of qemu_bh_poll: unlink and free what is marked deleted. */
    method FreeDeleted()
      requires Valid()
      modifies this
      ensures Valid() && Now() == Sweep(old(Now()))
    {
      SweepIsWf(Now());
      GoodTop(Now());
      var top := contexts[|contexts| - 1];
      var kept;
      kept, bhs := Unlink(top.list, bhs);
      contexts := contexts[|contexts| - 1 := top.(list := kept, polling := false)];
    }

    /** qemu_bh_poll. */
    method BhPoll(tape: Tape) returns (ret: bool, rest: Tape)
      requires Valid() && !Top(Now()).polling && Poll(Now(), tape).Ended?
      modifies this
      ensures Valid() && Poll(old(Now()), tape) == Ended(Now(), rest, ret)
      decreases |tape|, 2
    {
      MarkedIsWf(Now());
      contexts := contexts[|contexts| - 1 := contexts[|contexts| - 1].(polling := true)];
      ret, rest := VisitAll(tape);
      FreeDeleted();
    }

    /** The first loop of qemu_bh_poll, along the next pointers.  Callbacks may put nodes in front of the
        list, but the node in hand stays linked: what is deleted is only marked. */
    method VisitAll(tape: Tape) returns (ret: bool, rest: Tape)
      requires Valid() && Top(Now()).polling && Walk(Now(), Top(Now()).list, tape).Ended?
      modifies this
      ensures Valid() && Walk(old(Now()), old(Top(Now()).list), tape) == Ended(Now(), rest, ret)
      decreases |tape|, 1
    {
      ghost var tail := Top(Now()).list;
      ghost var all := Walk(Now(), tail, tape);
      ret, rest := false, tape;
      var bh := First(contexts[|contexts| - 1].list);
      hide Wf, Visit, Walk, Prepended, Due, Run;
      assert tail[|tail| - |tail|..] == tail;
      while bh != Null
        invariant contexts != [] && Valid() && Top(Now()).polling && |rest| <= |tape|
        invariant IsTail(tail, Top(Now()).list) && bh == First(tail)
        invariant Walk(Now(), tail, rest).Ended?
        invariant all == Walk(Now(), tail, rest).(ret := ret || Walk(Now(), tail, rest).ret)
        decreases |tail|
      {
        var called;
        bh, called, rest := VisitNext(bh.node, tail, rest);
        ret := ret || called;
        tail := tail[1..];
      }
      WalkEnds(Now(), rest);
    }

    /** One round of that loop: after the callback the successor is read from the list as it is then. */
    method VisitNext(bh: nat, ghost tail: seq<nat>, tape: Tape) returns (succ: Link, ret: bool, rest: Tape)
      requires Valid() && Top(Now()).polling && IsTail(tail, Top(Now()).list) && First(tail) == At(bh)
      requires Walk(Now(), tail, tape).Ended?
      modifies this
      ensures Valid() && contexts != [] && Top(Now()).polling && IsTail(tail[1..], Top(Now()).list)
      ensures succ == First(tail[1..]) && |rest| <= |tape|
      ensures var w := Walk(Now(), tail[1..], rest);
        w.Ended? && old(Walk(Now(), tail, tape)) == w.(ret := ret || w.ret)
      decreases |tape|, 0, 2
    {
      WalkUnfolds(Now(), tail, tape);
      LinkedNode(Now(), tail);
      hide Wf, Visit, Walk, Due, Run, IsTail;
      ret, rest := VisitBh(bh, tape);
      succ := Follow(bh, tail);
    }

    /** bh = bh->next. */
    method Follow(bh: nat, ghost tail: seq<nat>) returns (succ: Link)
      requires Valid() && contexts != [] && IsTail(tail, Top(Now()).list) && First(tail) == At(bh)
      ensures succ == First(tail[1..]) && IsTail(tail[1..], Top(Now()).list)
    {
      LinkedNode(Now(), tail);
      TailOfTail(tail, Top(Now()).list);
      succ := Next(contexts[|contexts| - 1].list, bh);
    }

    /** The bottom half at that node. */
    method VisitBh(bh: nat, tape: Tape) returns (ret: bool, rest: Tape)
      requires Valid() && Top(Now()).polling && bh in Top(Now()).list && Visit(Now(), bh, tape).Ended?
      modifies this
      ensures Valid() && Visit(old(Now()), bh, tape) == Ended(Now(), rest, ret)
      ensures contexts != [] && Top(Now()).polling && |rest| <= |tape|
      ensures forall tail :: IsTail(tail, old(Top(Now()).list)) ==> IsTail(tail, Top(Now()).list)
      decreases |tape|, 0, 1
    {
      ghost var s, v := Now(), Visit(Now(), bh, tape);
      ghost var ran := VisitRuns(s, bh, tape);
      MovesTop(s, v.s, ran);
      TailsKept(Top(s).list, Top(v.s).list, s.next);
      GoodTop(s);
      ret, rest := false, tape;
      if !bhs[bh].deleted && bhs[bh].scheduled {
        hide Visit;
        ret := !bhs[bh].idle;
        rest := Call(bh, tape);
      }
    }

    /** The call of a bottom half that is due. */
    method Call(bh: nat, tape: Tape) returns (rest: Tape)
      requires Valid() && Top(Now()).polling && bh in Top(Now()).list
      requires Due(Now(), bh) && Visit(Now(), bh, tape).Ended?
      modifies this
      ensures Valid() && Visit(old(Now()), bh, tape) == Ended(Now(), rest, old(!bhs[bh].idle))
      decreases |tape|, 0, 0
    {
      VisitUnfolds(Now(), bh, tape);
      assert bh in bhs;
      hide Wf, Run, Visit, Basic;
      var completion := bhs[bh].completion;
      BeginCall(bh);
      if completion { Delete(bh); }
      rest := RunScript(tape[0], tape[1..]);
    }

    /** Its flags are cleared before the callback runs. */
    method BeginCall(bh: nat)
      requires Valid() && Top(Now()).polling && bh in Top(Now()).list
      modifies this
      ensures Valid() && bh in old(bhs) && bh in bhs && Now() == Begin(old(Now()), bh)
      ensures bhs == old(bhs)[bh := old(bhs[bh]).(scheduled := false, idle := false)]
      ensures contexts == old(contexts) && next == old(next)
    {
      BeginMoves(Now(), bh);
      hide Moves;
      assert contexts != [];
      log := log + [Ran(bh, bhs[bh].home, contexts[|contexts| - 1].serial, bhs[bh].idle)];
      bhs := bhs[bh := bhs[bh].(scheduled := false, idle := false)];
    }

    /** async_context_pop. */
    method Pop(tape: Tape) returns (rest: Tape)
      requires Valid() && |contexts| >= 2 && !Top(Now()).polling && PopContext(Now(), tape).Ended?
      modifies this
      ensures Valid() && PopContext(old(Now()), tape) == Ended(Now(), rest, false)
      decreases |tape|, 4
    {
      ghost var d := Drain(Now(), tape);
      var ret := true;
      rest := tape;
      while ret
        invariant Valid() && |contexts| >= 2 && !Top(Now()).polling && |rest| <= |tape|
        invariant if ret then Drain(Now(), rest) == d else d == Ended(Now(), rest, false)
        decreases |rest|, ret
      {
        ghost var s := Now();
        ghost var _, _ := PollRuns(s, rest);
        MovesTop(s, Poll(s, rest).s, []);
        ret, rest := BhPoll(rest);
      }
      LeaveContext();
    }

    /** The switch to the parent context, with a bottom half for the queued completions. */
    method LeaveContext()
      requires Valid() && |contexts| >= 2
      modifies this
      ensures Valid() && Now() == Leave(old(Now()))
    {
      DroppedIsWf(Now());
      hide Wf;
      contexts := contexts[..|contexts| - 1];
      var bh := New(true);
      Schedule(bh);
    }

    /** What a callback, or the main program, does. */
    method RunScript(script: seq<Op>, tape: Tape) returns (rest: Tape)
      requires Valid() && Run(Now(), script, tape).Ended?
      modifies this
      ensures Valid() && Run(old(Now()), script, tape) == Ended(Now(), rest, false)
      decreases |tape|, 5, script
    {
      if script == [] { return tape; }
      ghost var s := Now();
      RunUnfolds(s, script, tape);
      rest := tape;
      match script[0] {
        case PollNow =>
          if !contexts[|contexts| - 1].polling { var ret; ret, rest := BhPoll(tape); }
        case Nested(body) =>
          Push();
          ghost var p := Now();
          RunKeeps(p, body, tape);
          MovesTop(p, Run(p, body, tape).s, []);
          rest := RunScript(body, tape);
          rest := Pop(rest);
        case New => var _ := New(false);
        case Schedule(bh) => if bh in bhs { Schedule(bh); }
        case ScheduleIdle(bh) => if bh in bhs { ScheduleIdle(bh); }
        case Cancel(bh) => if bh in bhs { Cancel(bh); }
        case Delete(bh) => if bh in bhs { Delete(bh); }
      }
      rest := RunScript(script[1..], rest);
    }
  }

  /** Walking a list and taking the deleted bottom halves out of it. */
  method Unlink(list: seq<nat>, bhs: map<nat, Bh>) returns (kept: seq<nat>, unfreed: map<nat, Bh>)
    requires NoDup(list) && forall bh :: bh in list ==> bh in bhs
    ensures kept == Live(list, bhs) && unfreed == Unfreed(list, bhs)
  {
    kept, unfreed := list, bhs;
    var i := 0;
    ghost var k := 0;
    while i < |kept|
      invariant 0 <= i <= |kept| && 0 <= k <= |list| && kept[i..] == list[k..]
      invariant Live(list, bhs) == kept[..i] + Live(list[k..], bhs)
      invariant unfreed == Unfreed(list[..k], bhs)
      decreases |list| - k
    {
      var bh := kept[i];
      assert bh == kept[i..][0] == list[k] && kept[i..][1..] == list[k..][1..];
      assert list[k..][1..] == list[k + 1..] && kept[i..][1..] == kept[i + 1..];
      UnfreedStep(list, k, bhs);
      hide Unfreed, NoDup;
      assert Live(list[k..], bhs) == (if bhs[bh].deleted then [] else [bh]) + Live(list[k + 1..], bhs);
      hide Live;
      if unfreed[bh].deleted {
        Rejoin(kept, i);
        kept, unfreed := kept[..i] + kept[i + 1..], unfreed - {bh};
      } else {
        LiveAssoc(kept, i, Live(list[k + 1..], bhs));
        i := i + 1;
      }
      k := k + 1;
    }
    assert list[..k] == list && kept[..i] == kept;
  }

  lemma WalkEnds(s: State, tape: Tape)
    requires s.contexts != []
    ensures Walk(s, [], tape) == Ended(s, tape, false)
  {}

  /** Putting nodes in front changes nothing behind. */
  lemma TailsKept(l: seq<nat>, l': seq<nat>, next: nat)
    requires Prepended(l, l', next)
    ensures forall tail :: IsTail(tail, l) ==> IsTail(tail, l')
  {
    forall tail | IsTail(tail, l) ensures IsTail(tail, l') {
      assert l'[|l'| - |tail|..] == l'[|l'| - |l|..][|l| - |tail|..];
    }
  }

  /** The bottom half that the walk has come to is linked in, not freed, and leads to the rest. */
  lemma LinkedNode(s: State, tail: seq<nat>)
    requires Wf(s) && IsTail(tail, Top(s).list) && tail != []
    ensures tail[0] in Top(s).list && tail[0] in s.bhs && Next(Top(s).list, tail[0]) == First(tail[1..])
  {
    GoodTop(s);
    NextInTail(tail, Top(s).list);
  }

  lemma Rejoin(s: seq<nat>, i: nat)
    requires i < |s|
    ensures (s[..i] + s[i + 1..])[i..] == s[i + 1..] && (s[..i] + s[i + 1..])[..i] == s[..i]
  {}

  lemma LiveAssoc(s: seq<nat>, i: nat, rest: seq<nat>)
    requires i < |s|
    ensures s[..i] + ([s[i]] + rest) == s[..i + 1] + rest
  {}

  lemma UnfreedStep(list: seq<nat>, k: nat, bhs: map<nat, Bh>)
    requires k < |list| && NoDup(list) && list[k] in bhs
    ensures list[k] in Unfreed(list[..k], bhs) && Unfreed(list[..k], bhs)[list[k]] == bhs[list[k]]
    ensures Unfreed(list[..k + 1], bhs) ==
      if bhs[list[k]].deleted then Unfreed(list[..k], bhs) - {list[k]} else Unfreed(list[..k], bhs)
  {
    assert list[..k + 1] == list[..k] + [list[k]];
    assert list[k] !in list[..k];
  }
}
