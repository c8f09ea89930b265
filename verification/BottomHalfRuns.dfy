/**
 What every run of BottomHalves keeps: each callback runs in the context its bottom half was
 created in, polls run bottom halves once and in order, and contexts are left only when drained.
 */
module BottomHalfRuns {
  import opened Sequences
  import opened BottomHalves

  // ------------------------------------------------------------------------- well-formed states

  ghost predicate GoodContext(s: State, i: nat)
    requires i < |s.contexts|
  {
    var c := s.contexts[i];
    c.id == i && c.serial < s.serials && NoDup(c.list) &&
    (forall bh :: bh in c.list ==> bh in s.bhs && s.bhs[bh].home == c.serial) &&
    (forall bh :: bh in s.bhs && s.bhs[bh].home == c.serial ==> bh in c.list)
  }

  /** A call happened in the context its bottom half was created in; later bottom halves are new. */
  predicate GoodEvent(e: Event, next: nat) {
    e.bh < next && (e.Ran? ==> e.home == e.current)
  }

  ghost predicate GoodBh(s: State, bh: nat)
    requires bh in s.bhs
  {
    bh < s.next && s.bhs[bh].home < s.serials && (s.bhs[bh].deleted <==> Deleted(bh) in s.log)
  }

  ghost predicate Wf(s: State) {
    s.contexts != [] &&
    (forall i :: 0 <= i < |s.contexts| ==> GoodContext(s, i)) &&
    (forall i, j :: 0 <= i < j < |s.contexts| ==> s.contexts[i].serial < s.contexts[j].serial) &&
    (forall bh :: bh in s.bhs ==> GoodBh(s, bh)) &&
    (forall e :: e in s.log ==> GoodEvent(e, s.next))
  }

  lemma GoodTop(s: State)
    requires Wf(s)
    ensures NoDup(Top(s).list) && forall bh :: bh in Top(s).list ==> bh in s.bhs && s.bhs[bh].home == Top(s).serial
  {
    assert GoodContext(s, |s.contexts| - 1);
  }

  /** The calls made while the context with the given serial was current, in order. */
  function Runs(log: seq<Event>, context: nat): (r: seq<Event>)
    ensures forall e :: e in r ==> e.Ran? && e in log
  {
    if log == [] then []
    else
      var e := log[|log| - 1];
      Runs(log[..|log| - 1], context) + if e.Ran? && e.current == context then [e] else []
  }

  lemma RunsAppend(log: seq<Event>, e: Event, context: nat)
    ensures Runs(log + [e], context) == Runs(log, context) + if e.Ran? && e.current == context then [e] else []
  {
    assert (log + [e])[..|log|] == log;
  }

  /** After the first `from` events the bottom half was cancelled or deleted. */
  ghost predicate Stopped(bh: nat, log: seq<Event>, from: nat) {
    exists k :: from <= k < |log| && (log[k] == Cancelled(bh) || log[k] == Deleted(bh))
  }

  ghost predicate Called(bh: nat, ran: seq<Event>) {
    exists e :: e in ran && e.bh == bh
  }

  // ------------------------------------------------------------ what a piece of execution may do

  ghost predicate SameStack(s: State, r: State)
    requires s.contexts != []
  {
    |r.contexts| == |s.contexts| &&
    (forall i :: 0 <= i < |s.contexts| - 1 ==> r.contexts[i] == s.contexts[i]) &&
    Top(r) == Top(s).(list := Top(r).list) && s.next <= r.next && s.serials <= r.serials && s.log <= r.log
  }

  /** Bottom halves are only added in front. */
  predicate Prepended(list: seq<nat>, list': seq<nat>, next: nat) {
    |list| <= |list'| && list'[|list'| - |list|..] == list &&
    forall k :: 0 <= k < |list'| - |list| ==> list'[k] >= next
  }

  ghost predicate SameBhs(s: State, r: State, context: nat) {
    (forall bh :: bh in s.bhs && s.bhs[bh].home != context ==> bh in r.bhs) &&
    (forall bh :: bh in r.bhs && bh in s.bhs ==>
      r.bhs[bh].home == s.bhs[bh].home && r.bhs[bh].completion == s.bhs[bh].completion) &&
    (forall bh :: bh in r.bhs && bh !in s.bhs ==>
      bh >= s.next && (r.bhs[bh].home == context || r.bhs[bh].home >= s.serials))
  }

  /** What was scheduled and not called is still scheduled, in the same way, unless stopped. */
  ghost predicate StillDue(s: State, r: State, bh: nat)
    requires bh in s.bhs && bh in r.bhs
  {
    s.bhs[bh].scheduled ==>
      (r.bhs[bh].scheduled && r.bhs[bh].idle == s.bhs[bh].idle) || Stopped(bh, r.log, |s.log|)
  }

  ghost predicate AllStillDue(s: State, r: State, ran: seq<Event>)
    requires s.contexts != []
  {
    forall bh ::
      bh in s.bhs && bh in r.bhs && (s.bhs[bh].home != Top(s).serial || (Top(s).polling && !Called(bh, ran))) ==>
      StillDue(s, r, bh)
  }

  /** No other live context makes a call; a context that is being polled makes exactly these. */
  ghost predicate OnlyCalls(s: State, r: State, ran: seq<Event>)
    requires s.contexts != []
  {
    (forall u: nat :: u < s.serials && u != Top(s).serial ==> Runs(r.log, u) == Runs(s.log, u)) &&
    (Top(s).polling ==> Runs(r.log, Top(s).serial) == Runs(s.log, Top(s).serial) + ran)
  }

  /** From s to r something ran with the same current context; if that context is being polled,
      the poll made exactly the calls `ran` in between. */
  ghost predicate Moves(s: State, r: State, ran: seq<Event>)
    requires s.contexts != []
  {
    SameStack(s, r) && SameBhs(s, r, Top(s).serial) && OnlyCalls(s, r, ran) && AllStillDue(s, r, ran) &&
    (Top(s).polling ==> Prepended(Top(s).list, Top(r).list, s.next))
  }

  lemma MovesTop(s: State, r: State, ran: seq<Event>)
    requires s.contexts != [] && Moves(s, r, ran)
    ensures |r.contexts| == |s.contexts| && Top(r).serial == Top(s).serial && Top(r).polling == Top(s).polling
    ensures s.next <= r.next && s.log <= r.log && s.serials <= r.serials
    ensures Top(s).polling ==> Prepended(Top(s).list, Top(r).list, s.next)
    ensures Top(s).polling ==> forall bh :: bh in Top(s).list ==> bh in Top(r).list
  {
    if Top(s).polling {
      assert Top(r).list == Top(r).list[..|Top(r).list| - |Top(s).list|] + Top(s).list;
    }
  }

  lemma StoppedGrows(bh: nat, log: seq<Event>, log': seq<Event>, from: nat, from': nat)
    requires log <= log' && from' <= from
    requires Stopped(bh, log, from)
    ensures Stopped(bh, log', from')
  {
    var k :| from <= k < |log| && (log[k] == Cancelled(bh) || log[k] == Deleted(bh));
    assert log'[k] == log[k];
  }

  lemma SameBhsCompose(s: State, a: State, r: State, context: nat)
    requires Wf(s) && Wf(a) && SameBhs(s, a, context) && SameBhs(a, r, context)
    requires s.next <= a.next && s.serials <= a.serials
    ensures SameBhs(s, r, context)
    ensures forall bh :: bh in s.bhs && bh in r.bhs ==> bh in a.bhs && a.bhs[bh].home == s.bhs[bh].home
  {
    forall bh | bh in s.bhs && bh in r.bhs ensures bh in a.bhs && a.bhs[bh].home == s.bhs[bh].home {
      assert GoodBh(s, bh);
    }
    forall bh | bh in r.bhs && bh !in s.bhs
      ensures bh >= s.next && (r.bhs[bh].home == context || r.bhs[bh].home >= s.serials)
    {
      if bh in a.bhs { assert r.bhs[bh].home == a.bhs[bh].home; }
    }
  }

  lemma StillDueCompose(s: State, a: State, r: State, bh: nat)
    requires bh in s.bhs && bh in a.bhs && bh in r.bhs && s.log <= a.log && a.log <= r.log
    requires StillDue(s, a, bh) && StillDue(a, r, bh)
    ensures StillDue(s, r, bh)
  {
    if Stopped(bh, a.log, |s.log|) { StoppedGrows(bh, a.log, r.log, |s.log|, |s.log|); }
    if Stopped(bh, r.log, |a.log|) { StoppedGrows(bh, r.log, r.log, |a.log|, |s.log|); }
  }

  lemma CallsCompose(s: State, a: State, r: State, x: seq<Event>, y: seq<Event>)
    requires SameTop(s, a) && s.serials <= a.serials && OnlyCalls(s, a, x) && OnlyCalls(a, r, y)
    ensures OnlyCalls(s, r, x + y)
  {
    hide Runs;
  }

  ghost predicate SameTop(s: State, r: State) {
    s.contexts != [] && r.contexts != [] && Top(r).serial == Top(s).serial && Top(r).polling == Top(s).polling
  }

  lemma DueCompose(s: State, a: State, r: State, x: seq<Event>, y: seq<Event>)
    requires SameTop(s, a) && s.log <= a.log && a.log <= r.log && AllStillDue(s, a, x) && AllStillDue(a, r, y)
    requires forall bh :: bh in s.bhs && bh in r.bhs ==> bh in a.bhs && a.bhs[bh].home == s.bhs[bh].home
    ensures AllStillDue(s, r, x + y)
  {
    forall bh | bh in s.bhs && bh in r.bhs && (s.bhs[bh].home != Top(s).serial || (Top(s).polling && !Called(bh, x + y)))
      ensures StillDue(s, r, bh)
    {
      CalledConcat(bh, x, y);
      hide StillDue, Called;
      StillDueCompose(s, a, r, bh);
    }
  }

  lemma MovesCompose(s: State, a: State, r: State, x: seq<Event>, y: seq<Event>)
    requires Wf(s) && Wf(a) && Moves(s, a, x) && Moves(a, r, y)
    ensures Moves(s, r, x + y)
  {
    var c := Top(s);
    hide Wf, OnlyCalls, AllStillDue, Prepended, SameBhs;
    if c.polling {
      PrependedCompose(c.list, Top(a).list, Top(r).list, s.next, a.next);
    }
    SameBhsCompose(s, a, r, c.serial);
    CallsCompose(s, a, r, x, y);
    DueCompose(s, a, r, x, y);
  }

  lemma KeepsCompose(s: State, a: State, r: State)
    requires Wf(s) && Wf(a) && Moves(s, a, []) && Moves(a, r, [])
    ensures Moves(s, r, [])
  {
    MovesCompose(s, a, r, [], []);
    var none: seq<Event> := [];
    assert none + none == none;
  }

  lemma CalledConcat(bh: nat, x: seq<Event>, y: seq<Event>)
    ensures Called(bh, x + y) <==> Called(bh, x) || Called(bh, y)
  {
    assert forall e :: e in x + y <==> e in x || e in y;
  }

  lemma PrependedCompose(x: seq<nat>, y: seq<nat>, z: seq<nat>, m: nat, n: nat)
    requires m <= n && Prepended(x, y, m) && Prepended(y, z, n)
    ensures Prepended(x, z, m)
  {
    forall k | 0 <= k < |z| - |x| ensures z[k] >= m {
      if k >= |z| - |y| {
        assert z[|z| - |y|..][k - (|z| - |y|)] == z[k];
      }
    }
    assert z[|z| - |x|..] == z[|z| - |y|..][|y| - |x|..];
  }

  // ---------------------------------------------------------------------------- the basic steps

  lemma NewIsWf(s: State, completion: bool)
    requires Wf(s)
    ensures Wf(NewBh(s, completion))
  {
    var r := NewBh(s, completion);
    var n := |s.contexts| - 1;
    forall bh | bh in s.bhs ensures bh < s.next { assert GoodBh(s, bh); }
    forall e | e in s.log ensures e.bh < s.next { assert GoodEvent(e, s.next); }
    assert GoodContext(s, n);
    forall i | 0 <= i < |r.contexts| ensures GoodContext(r, i) {
      assert GoodContext(s, i);
      if i < n {
        assert s.contexts[i].serial < s.contexts[n].serial;
        assert r.contexts[i] == s.contexts[i];
      } else {
        var list := Top(s).list;
        assert forall j :: 0 <= j < |list| ==> list[j] in list;
        assert NoDup([s.next] + list);
      }
    }
    assert Deleted(s.next).bh == s.next;
    forall bh | bh in r.bhs ensures GoodBh(r, bh) {
      if bh != s.next { assert GoodBh(s, bh); }
    }
  }

  lemma NewMoves(s: State, completion: bool)
    requires Wf(s)
    ensures Moves(s, NewBh(s, completion), [])
  {
    forall bh | bh in s.bhs ensures bh < s.next { assert GoodBh(s, bh); }
    hide GoodContext, GoodEvent;
    assert Top(NewBh(s, completion)).list[1..] == Top(s).list;
  }

  /** Setting one bottom half's flags, with at most one event. */
  function Flagged(s: State, bh: nat, b: Bh, more: seq<Event>): State {
    s.(bhs := s.bhs[bh := b], log := s.log + more)
  }

  /** A change of flags that the log tells of. */
  predicate Told(s: State, bh: nat, b: Bh, more: seq<Event>) {
    bh in s.bhs && b.home == s.bhs[bh].home && b.completion == s.bhs[bh].completion &&
    (b.deleted <==> s.bhs[bh].deleted || more == [Deleted(bh)]) &&
    |more| <= 1 && forall e :: e in more ==> e.bh == bh && (e.Ran? ==> e.home == e.current == b.home)
  }

  lemma FlaggedIsWf(s: State, bh: nat, b: Bh, more: seq<Event>)
    requires Wf(s) && Told(s, bh, b, more)
    ensures Wf(Flagged(s, bh, b, more))
  {
    var r := Flagged(s, bh, b, more);
    assert GoodBh(s, bh);
    forall i | 0 <= i < |r.contexts| ensures GoodContext(r, i) { assert GoodContext(s, i); }
    hide GoodContext;
    forall x | x in r.bhs ensures GoodBh(r, x) {
      assert GoodBh(s, x);
      assert Deleted(x) in r.log <==> Deleted(x) in s.log || Deleted(x) in more;
    }
    forall e | e in r.log ensures GoodEvent(e, r.next) {
      assert e in s.log ==> GoodEvent(e, s.next);
    }
  }

  lemma FlaggedDue(s: State, bh: nat, b: Bh, more: seq<Event>, ran: seq<Event>)
    requires s.contexts != [] && Told(s, bh, b, more) && (ran == [] || (ran == more && b.home == Top(s).serial))
    requires more == [] && s.bhs[bh].scheduled ==> b.scheduled && b.idle == s.bhs[bh].idle
    requires more != [] && more[0].Ran? ==> ran == more
    ensures AllStillDue(s, Flagged(s, bh, b, more), ran)
  {
    var r := Flagged(s, bh, b, more);
    forall x | x in s.bhs && (s.bhs[x].home != Top(s).serial || (Top(s).polling && !Called(x, ran)))
      ensures StillDue(s, r, x)
    {
      if x == bh && more != [] {
        assert more[0] in more && r.log[|s.log|] == more[0];
        assert ran == [] ==> Stopped(x, r.log, |s.log|);
      }
    }
  }

  lemma FlaggedCalls(s: State, bh: nat, b: Bh, more: seq<Event>, ran: seq<Event>)
    requires s.contexts != [] && Told(s, bh, b, more)
    requires ran == if more != [] && more[0].Ran? then more else []
    requires ran != [] ==> b.home == Top(s).serial
    ensures OnlyCalls(s, Flagged(s, bh, b, more), ran)
  {
    var log := s.log + more;
    if more == [] {
      assert log == s.log;
    } else {
      assert more[0] in more && more == [more[0]];
    }
    forall u: nat ensures Runs(log, u) == if u == Top(s).serial then Runs(s.log, u) + ran else Runs(s.log, u) {
      if more != [] { RunsAppend(s.log, more[0], u); }
    }
  }

  lemma FlaggedFrame(s: State, bh: nat, b: Bh, more: seq<Event>)
    requires s.contexts != [] && Told(s, bh, b, more)
    ensures var r := Flagged(s, bh, b, more);
      SameStack(s, r) && SameBhs(s, r, Top(s).serial) && Prepended(Top(s).list, Top(r).list, s.next)
  {}

  lemma FlagsKeep(s: State, bh: nat, b: Bh, more: seq<Event>)
    requires Wf(s) && Told(s, bh, b, more) && (more == [] || !more[0].Ran?)
    requires more == [] && s.bhs[bh].scheduled ==> b.scheduled && b.idle == s.bhs[bh].idle
    ensures Wf(Flagged(s, bh, b, more)) && Moves(s, Flagged(s, bh, b, more), [])
  {
    hide Flagged, Told, SameStack, SameBhs, OnlyCalls, AllStillDue, Prepended;
    FlaggedIsWf(s, bh, b, more);
    FlaggedDue(s, bh, b, more, []);
    FlaggedCalls(s, bh, b, more, []);
    FlaggedFrame(s, bh, b, more);
  }

  lemma BasicKeeps(s: State, op: Op)
    requires Wf(s)
    ensures Wf(Basic(s, op)) && Moves(s, Basic(s, op), [])
  {
    if op.New? {
      NewIsWf(s, false);
      NewMoves(s, false);
    } else if op.Cancel? && op.bh in s.bhs {
      FlagsKeep(s, op.bh, s.bhs[op.bh].(scheduled := false), [Cancelled(op.bh)]);
    } else if op.Delete? && op.bh in s.bhs {
      FlagsKeep(s, op.bh, s.bhs[op.bh].(scheduled := false, deleted := true), [Deleted(op.bh)]);
    } else if op.Schedule? && op.bh in s.bhs && !s.bhs[op.bh].scheduled {
      FlagsKeep(s, op.bh, s.bhs[op.bh].(scheduled := true, idle := false), []);
      assert s.log + [] == s.log;
    } else if op.ScheduleIdle? && op.bh in s.bhs && !s.bhs[op.bh].scheduled {
      FlagsKeep(s, op.bh, s.bhs[op.bh].(scheduled := true, idle := true), []);
      assert s.log + [] == s.log;
    } else {
      MovesNothing(s);
    }
  }

  lemma MovesNothing(s: State)
    requires s.contexts != []
    ensures Moves(s, s, [])
  {}

  lemma BeginMoves(s: State, bh: nat)
    requires Wf(s) && Top(s).polling && bh in Top(s).list
    ensures bh in s.bhs && Wf(Begin(s, bh))
    ensures Moves(s, Begin(s, bh), [Ran(bh, Top(s).serial, Top(s).serial, s.bhs[bh].idle)])
  {
    GoodTop(s);
    var t := Top(s).serial;
    var b := s.bhs[bh].(scheduled := false, idle := false);
    var ran := [Ran(bh, t, t, s.bhs[bh].idle)];
    assert Begin(s, bh) == Flagged(s, bh, b, ran) && Told(s, bh, b, ran);
    hide Begin, Flagged, Told, SameStack, SameBhs, OnlyCalls, AllStillDue, Prepended;
    FlaggedIsWf(s, bh, b, ran);
    FlaggedDue(s, bh, b, ran, ran);
    FlaggedCalls(s, bh, b, ran, ran);
    FlaggedFrame(s, bh, b, ran);
  }

  // --------------------------------------------------------------------------- entering, leaving

  lemma PushIsWf(s: State)
    requires Wf(s)
    ensures Wf(PushContext(s))
  {
    var r := PushContext(s);
    assert GoodContext(s, |s.contexts| - 1);
    forall i | 0 <= i < |r.contexts| ensures GoodContext(r, i) {
      if i < |s.contexts| {
        assert GoodContext(s, i);
      } else {
        forall bh | bh in r.bhs ensures r.bhs[bh].home < s.serials { assert GoodBh(s, bh); }
      }
    }
    hide GoodContext;
    forall bh | bh in r.bhs ensures GoodBh(r, bh) { assert GoodBh(s, bh); }
    forall i | 0 <= i < |s.contexts| ensures s.contexts[i].serial < s.serials { OneSerial(s, i); }
  }

  lemma OneSerial(s: State, i: nat)
    requires Wf(s) && i < |s.contexts|
    ensures s.contexts[i].serial < s.serials && s.contexts[i].id == i
  {
    assert GoodContext(s, i);
  }

  function Dropped(s: State): State
    requires |s.contexts| >= 2
  {
    s.(contexts := s.contexts[..|s.contexts| - 1])
  }

  lemma DroppedIsWf(s: State)
    requires Wf(s) && |s.contexts| >= 2
    ensures Wf(Dropped(s))
  {
    var r := Dropped(s);
    forall i | 0 <= i < |r.contexts| ensures GoodContext(r, i) { assert GoodContext(s, i); }
    forall bh | bh in r.bhs ensures GoodBh(r, bh) { assert GoodBh(s, bh); }
  }

  /** Whatever happens inside an inner context looks from outside like a step. */
  lemma DroppedMoves(s: State, s1: State)
    requires Wf(s) && Moves(PushContext(s), s1, [])
    ensures |s1.contexts| == |s.contexts| + 1 && Moves(s, Dropped(s1), [])
  {
    OneSerial(s, |s.contexts| - 1);
    var p, r := PushContext(s), Dropped(s1);
    assert Top(p).serial == s.serials;
    assert p.contexts[|s.contexts| - 1] == Top(s);
    assert Top(r) == Top(s);
    forall bh | bh in s.bhs ensures s.bhs[bh].home < s.serials { assert GoodBh(s, bh); }
    hide Wf, GoodBh, Runs, Called;
    assert SameBhs(s, r, Top(s).serial);
    forall bh | bh in s.bhs && bh in r.bhs ensures StillDue(s, r, bh) {
      assert StillDue(p, s1, bh);
    }
  }

  lemma LeaveMoves(s: State, s1: State)
    requires Wf(s) && Wf(s1) && Moves(PushContext(s), s1, [])
    ensures |s1.contexts| >= 2 && Wf(Leave(s1)) && Moves(s, Leave(s1), [])
  {
    DroppedMoves(s, s1);
    DroppedIsWf(s1);
    var r := Dropped(s1);
    var r1 := NewBh(r, true);
    NewIsWf(r, true);
    NewMoves(r, true);
    BasicKeeps(r1, Schedule(r.next));
    KeepsCompose(s, r, r1);
    KeepsCompose(s, r1, Leave(s1));
  }

  // ------------------------------------------------------------------------------ what polls do

  /** The calls are of bottom halves of the list, in its order, each at most once. */
  predicate InOrder(ran: seq<Event>, list: seq<nat>) {
    ran == [] ||
    (list != [] && ran[0].Ran? &&
     if ran[0].bh == list[0] then InOrder(ran[1..], list[1..]) else InOrder(ran, list[1..]))
  }

  lemma {:induction false} InOrderOnce(ran: seq<Event>, list: seq<nat>)
    requires InOrder(ran, list) && NoDup(list)
    ensures forall e :: e in ran ==> e.bh in list
    ensures forall i, j :: 0 <= i < j < |ran| ==> ran[i].bh != ran[j].bh
  {
    if ran != [] {
      if ran[0].bh == list[0] {
        InOrderOnce(ran[1..], list[1..]);
      } else {
        InOrderOnce(ran, list[1..]);
      }
    }
  }

  /** Some call was of a bottom half that is not an idle one. */
  ghost predicate Busy(ran: seq<Event>) {
    exists e :: e in ran && e.Ran? && !e.idle
  }

  ghost predicate NoIdle(ran: seq<Event>) {
    forall e :: e in ran && e.Ran? ==> !e.idle
  }

  lemma BusyConcat(x: seq<Event>, y: seq<Event>)
    ensures Busy(x + y) <==> Busy(x) || Busy(y)
  {
    assert forall e :: e in x + y <==> e in x || e in y;
  }

  /** What was due has been called as it was, or cancelled or deleted meanwhile. */
  ghost predicate Served(s: State, r: State, ran: seq<Event>, bh: nat)
    requires s.contexts != []
  {
    Due(s, bh) ==>
      Ran(bh, Top(s).serial, Top(s).serial, s.bhs[bh].idle) in ran || Stopped(bh, r.log, |s.log|)
  }

  lemma VisitUnfolds(s: State, bh: nat, tape: Tape)
    requires s.contexts != [] && Due(s, bh) && Visit(s, bh, tape).Ended?
    ensures tape != [] &&
      var s2 := if s.bhs[bh].completion then Basic(Begin(s, bh), Delete(bh)) else Begin(s, bh);
      Run(s2, tape[0], tape[1..]).Ended? &&
      Visit(s, bh, tape) == Run(s2, tape[0], tape[1..]).(ret := !s.bhs[bh].idle)
  {}

  lemma KeepsAfter(s: State, a: State, r: State, ran: seq<Event>)
    requires Wf(s) && Wf(a) && Moves(s, a, ran) && Moves(a, r, [])
    ensures Moves(s, r, ran)
  {
    MovesCompose(s, a, r, ran, []);
    assert ran + [] == ran;
  }

  lemma VisitRuns(s: State, bh: nat, tape: Tape) returns (ran: seq<Event>)
    requires Wf(s) && Top(s).polling && bh in Top(s).list && Visit(s, bh, tape).Ended?
    ensures var o := Visit(s, bh, tape);
      Wf(o.s) && Moves(s, o.s, ran) && (o.ret <==> Busy(ran)) && (ran == [] ==> o.s == s)
    ensures ran == if Due(s, bh) then [Ran(bh, Top(s).serial, Top(s).serial, s.bhs[bh].idle)] else []
    decreases |tape|, 0
  {
    if Due(s, bh) {
      ran := [Ran(bh, Top(s).serial, Top(s).serial, s.bhs[bh].idle)];
      assert Busy(ran) <==> !s.bhs[bh].idle by { assert ran[0] in ran; }
      VisitUnfolds(s, bh, tape);
      assert s.contexts != [] && bh in s.bhs;
      hide *;
      BeginMoves(s, bh);
      var s1 := Begin(s, bh);
      var s2 := if s.bhs[bh].completion then Basic(s1, Delete(bh)) else s1;
      if s.bhs[bh].completion { BasicKeeps(s1, Delete(bh)); } else { MovesNothing(s1); }
      KeepsAfter(s, s1, s2, ran);
      RunKeeps(s2, tape[0], tape[1..]);
      KeepsAfter(s, s2, Visit(s, bh, tape).s, ran);
    } else {
      ran := [];
      MovesNothing(s);
    }
  }

  lemma ServedStep(s: State, a: State, r: State, x: seq<Event>, y: seq<Event>, bh: nat)
    requires s.contexts != [] && a.contexts != [] && bh in s.bhs && bh in a.bhs && GoodBh(s, bh) && GoodBh(a, bh)
    requires Top(s).serial == Top(a).serial && s.log <= a.log && a.log <= r.log
    requires StillDue(s, a, bh) && Served(a, r, y, bh)
    ensures Served(s, r, x + y, bh)
  {
    if Due(s, bh) {
      if a.bhs[bh].deleted {
        var k :| 0 <= k < |a.log| && a.log[k] == Deleted(bh);
        assert k >= |s.log|;
        assert Stopped(bh, a.log, |s.log|);
      }
      if Stopped(bh, a.log, |s.log|) {
        StoppedGrows(bh, a.log, r.log, |s.log|, |s.log|);
      } else if Stopped(bh, r.log, |a.log|) {
        StoppedGrows(bh, r.log, r.log, |a.log|, |s.log|);
      }
    }
  }

  lemma ServedLater(s: State, a: State, r: State, x: seq<Event>, y: seq<Event>, bh: nat)
    requires Wf(s) && Wf(a) && Top(s).polling && bh in Top(s).list && bh in Top(a).list
    requires Moves(s, a, x) && Moves(a, r, y) && !Called(bh, x) && Served(a, r, y, bh)
    ensures Served(s, r, x + y, bh)
  {
    GoodTop(s);
    GoodTop(a);
    assert StillDue(s, a, bh) && GoodBh(s, bh) && GoodBh(a, bh);
    MovesTop(s, a, x);
    MovesTop(a, r, y);
    hide *;
    ServedStep(s, a, r, x, y, bh);
  }

  lemma InOrderStep(first: seq<Event>, later: seq<Event>, list: seq<nat>)
    requires list != [] && InOrder(later, list[1..])
    requires first == [] || (|first| == 1 && first[0].Ran? && first[0].bh == list[0])
    requires NoDup(list)
    ensures InOrder(first + later, list)
  {
    if first == [] {
      assert first + later == later;
      if later != [] {
        InOrderOnce(later, list[1..]);
        assert later[0] in later;
      }
    } else {
      assert (first + later)[1..] == later;
    }
  }

  lemma WalkUnfolds(s: State, rest: seq<nat>, tape: Tape)
    requires s.contexts != [] && rest != [] && Walk(s, rest, tape).Ended?
    ensures var o1, o := Visit(s, rest[0], tape), Walk(s, rest, tape);
      o1.Ended? && var o2 := Walk(o1.s, rest[1..], o1.tape);
      o2.Ended? && o.s == o2.s && (o.ret <==> o1.ret || o2.ret)
  {}

  lemma WalkRuns(s: State, rest: seq<nat>, tape: Tape) returns (ran: seq<Event>)
    requires Wf(s) && Top(s).polling && NoDup(rest) && (forall bh :: bh in rest ==> bh in Top(s).list)
    requires Walk(s, rest, tape).Ended?
    ensures var o := Walk(s, rest, tape);
      Wf(o.s) && Moves(s, o.s, ran) && (o.ret <==> Busy(ran)) && (ran == [] ==> o.s == s)
    ensures InOrder(ran, rest) && forall bh :: bh in rest ==> Served(s, Walk(s, rest, tape).s, ran, bh)
    decreases |tape|, 1, |rest|
  {
    if rest == [] {
      assert Walk(s, rest, tape) == Ended(s, tape, false);
      hide Moves, Wf, Walk;
      ran := [];
      assert !Busy(ran);
      MovesNothing(s);
    } else {
      assert s.contexts != [] && NoDup(rest[1..]);
      WalkUnfolds(s, rest, tape);
      hide *;
      var first := VisitRuns(s, rest[0], tape);
      var o1 := Visit(s, rest[0], tape);
      MovesTop(s, o1.s, first);
      var later := WalkRuns(o1.s, rest[1..], o1.tape);
      ran := first + later;
      BusyConcat(first, later);
      WalkJoin(s, o1.s, Walk(s, rest, tape).s, first, later, rest);
    }
  }

  lemma WalkJoin(s: State, a: State, r: State, first: seq<Event>, later: seq<Event>, rest: seq<nat>)
    requires Wf(s) && Wf(a) && Top(s).polling && rest != [] && NoDup(rest)
    requires forall bh :: bh in rest ==> bh in Top(s).list
    requires first == if Due(s, rest[0]) then [Ran(rest[0], Top(s).serial, Top(s).serial, s.bhs[rest[0]].idle)] else []
    requires Moves(s, a, first) && Moves(a, r, later)
    requires InOrder(later, rest[1..]) && forall bh :: bh in rest[1..] ==> Served(a, r, later, bh)
    ensures Moves(s, r, first + later) && InOrder(first + later, rest)
    ensures forall bh :: bh in rest ==> Served(s, r, first + later, bh)
  {
    assert s.contexts != [];
    MovesTop(s, a, first);
    hide *;
    MovesCompose(s, a, r, first, later);
    InOrderStep(first, later, rest);
    forall bh | bh in rest ensures Served(s, r, first + later, bh) {
      WalkServes(s, a, r, first, later, rest, bh);
    }
  }

  lemma WalkServes(s: State, a: State, r: State, first: seq<Event>, later: seq<Event>, rest: seq<nat>, bh: nat)
    requires Wf(s) && Wf(a) && Top(s).polling && bh in rest && bh in Top(s).list
    requires first == if Due(s, rest[0]) then [Ran(rest[0], Top(s).serial, Top(s).serial, s.bhs[rest[0]].idle)] else []
    requires Moves(s, a, first) && Moves(a, r, later)
    requires forall x :: x in rest[1..] ==> Served(a, r, later, x)
    ensures Served(s, r, first + later, bh)
  {
    MovesTop(s, a, first);
    hide Wf, Moves;
    if bh == rest[0] {
      assert Due(s, bh) ==> (first + later)[0] == first[0];
    } else {
      assert bh in rest[1..];
      assert !Called(bh, first);
      hide Called, Served;
      ServedLater(s, a, r, first, later, bh);
    }
  }

  /** The bottom halves of a list that nobody ever deleted. */
  function Undeleted(list: seq<nat>, log: seq<Event>): seq<nat> {
    if list == [] then []
    else (if Deleted(list[0]) in log then [] else [list[0]]) + Undeleted(list[1..], log)
  }

  lemma LiveMeans(list: seq<nat>, bhs: map<nat, Bh>)
    ensures forall bh :: bh in Live(list, bhs) <==> bh in list && !(bh in bhs && bhs[bh].deleted)
    ensures NoDup(list) ==> NoDup(Live(list, bhs))
  {
    if list != [] { LiveMeans(list[1..], bhs); }
  }

  lemma LiveIsUndeleted(s: State, list: seq<nat>)
    requires Wf(s) && forall bh :: bh in list ==> bh in s.bhs
    ensures Live(list, s.bhs) == Undeleted(list, s.log)
  {
    if list != [] {
      assert GoodBh(s, list[0]);
      LiveIsUndeleted(s, list[1..]);
    }
  }

  lemma SweepIsWf(s: State)
    requires Wf(s)
    ensures Wf(Sweep(s))
  {
    var r := Sweep(s);
    var n := |s.contexts| - 1;
    LiveMeans(Top(s).list, s.bhs);
    assert GoodContext(s, n);
    forall i | 0 <= i < |r.contexts| ensures GoodContext(r, i) {
      assert GoodContext(s, i);
      if i < n { assert s.contexts[i].serial < s.contexts[n].serial; }
    }
    forall bh | bh in r.bhs ensures GoodBh(r, bh) { assert GoodBh(s, bh); }
  }

  function Marked(s: State): State
    requires s.contexts != []
  {
    WithTop(s, Top(s).(polling := true))
  }

  lemma MarkedIsWf(s: State)
    requires Wf(s)
    ensures Wf(Marked(s))
  {
    var r := Marked(s);
    forall i | 0 <= i < |r.contexts| ensures GoodContext(r, i) { assert GoodContext(s, i); }
    forall bh | bh in r.bhs ensures GoodBh(r, bh) { assert GoodBh(s, bh); }
  }

  lemma MovesRuns(s: State, r: State, ran: seq<Event>)
    requires s.contexts != [] && Moves(s, r, ran) && Top(s).polling
    ensures Runs(r.log, Top(s).serial) == Runs(s.log, Top(s).serial) + ran
  {}

  lemma SweepDue(s: State, a: State, ran: seq<Event>)
    requires s.contexts != [] && a.contexts != [] && !Top(s).polling && AllStillDue(Marked(s), a, ran)
    ensures AllStillDue(s, Sweep(a), [])
  {
    var r := Sweep(a);
    forall bh | bh in s.bhs && bh in r.bhs && s.bhs[bh].home != Top(s).serial ensures StillDue(s, r, bh) {
      assert StillDue(Marked(s), a, bh);
    }
  }

  lemma SweepFrame(s: State, a: State)
    requires Wf(a) && s.contexts != [] && !Top(s).polling
    requires SameStack(Marked(s), a) && SameBhs(Marked(s), a, Top(s).serial)
    ensures SameStack(s, Sweep(a)) && SameBhs(s, Sweep(a), Top(s).serial)
  {
    GoodTop(a);
    hide Wf, Live;
  }

  lemma SweepMoves(s: State, a: State, ran: seq<Event>)
    requires Wf(s) && Wf(a) && !Top(s).polling && Moves(Marked(s), a, ran)
    ensures Moves(s, Sweep(a), [])
  {
    MovesTop(Marked(s), a, ran);
    assert OnlyCalls(s, Sweep(a), []) by { hide Runs; }
    hide Wf, SameStack, SameBhs, OnlyCalls, AllStillDue, Prepended, Sweep;
    SweepDue(s, a, ran);
    SweepFrame(s, a);
  }

  lemma SweepLeaves(s: State, a: State, ran: seq<Event>) returns (added: seq<nat>)
    requires Wf(s) && Wf(a) && Prepended(Top(s).list, Top(a).list, s.next)
    requires Top(a).serial == Top(s).serial
    requires forall bh :: bh in Top(s).list ==> Served(Marked(s), a, ran, bh)
    ensures forall bh :: bh in added ==> bh >= s.next
    ensures Top(Sweep(a)).list == Undeleted(added + Top(s).list, Sweep(a).log)
    ensures forall bh :: bh in Top(s).list ==> Served(s, Sweep(a), ran, bh)
    ensures Sweep(a).log == a.log
  {
    var list := Top(s).list;
    added := Top(a).list[..|Top(a).list| - |list|];
    assert Top(a).list == added + list;
    GoodTop(a);
    LiveIsUndeleted(a, Top(a).list);
    hide Live, Unfreed, NoDup;
    forall bh | bh in list ensures Served(s, Sweep(a), ran, bh) {
      assert Served(Marked(s), a, ran, bh);
    }
  }

  lemma PollUnfolds(s: State, tape: Tape)
    requires s.contexts != [] && Poll(s, tape).Ended?
    ensures var w, o := Walk(Marked(s), Top(s).list, tape), Poll(s, tape);
      w.Ended? && o.s == Sweep(w.s) && o.ret == w.ret
  {}

  /** One poll: which bottom halves it calls, what it returns and what it leaves. */
  lemma PollRuns(s: State, tape: Tape) returns (ran: seq<Event>, added: seq<nat>)
    requires Wf(s) && !Top(s).polling && Poll(s, tape).Ended?
    ensures var o := Poll(s, tape);
      Wf(o.s) && Moves(s, o.s, []) && (o.ret <==> Busy(ran))
    ensures Runs(Poll(s, tape).s.log, Top(s).serial) == Runs(s.log, Top(s).serial) + ran
    ensures InOrder(ran, Top(s).list) && forall bh :: bh in Top(s).list ==> Served(s, Poll(s, tape).s, ran, bh)
    ensures forall bh :: bh in added ==> bh >= s.next
    ensures Top(Poll(s, tape).s).list == Undeleted(added + Top(s).list, Poll(s, tape).s.log)
    ensures ran == [] ==> Poll(s, tape).s == Sweep(s)
    decreases |tape|, 2, 0
  {
    var m := Marked(s);
    MarkedIsWf(s);
    GoodTop(s);
    PollUnfolds(s, tape);
    assert s.contexts != [] && Top(m) == Top(s).(polling := true) && m.log == s.log && m.next == s.next;
    assert Sweep(m) == Sweep(s);
    hide *;
    ran := WalkRuns(m, Top(s).list, tape);
    var a := Walk(m, Top(s).list, tape).s;
    MovesTop(m, a, ran);
    MovesRuns(m, a, ran);
    SweepIsWf(a);
    SweepMoves(s, a, ran);
    added := SweepLeaves(s, a, ran);
  }

  lemma DrainUnfolds(s: State, tape: Tape)
    requires s.contexts != [] && Drain(s, tape).Ended?
    ensures var o := Poll(s, tape);
      o.Ended? &&
      if o.ret then Drain(o.s, o.tape).Ended? && Drain(s, tape).s == Drain(o.s, o.tape).s
      else Drain(s, tape).s == o.s
  {}

  lemma PollCalls(s: State, tape: Tape) returns (ran: seq<Event>)
    requires Wf(s) && !Top(s).polling && Poll(s, tape).Ended?
    ensures Wf(Poll(s, tape).s)
    ensures Moves(s, Poll(s, tape).s, [])
    ensures Runs(Poll(s, tape).s.log, Top(s).serial) == Runs(s.log, Top(s).serial) + ran
    ensures !Poll(s, tape).ret ==> NoIdle(ran) ==> NoneDue(Poll(s, tape).s)
    decreases |tape|, 2, 1
  {
    var added;
    ran, added := PollRuns(s, tape);
    var o := Poll(s, tape);
    hide *;
    if !o.ret && NoIdle(ran) {
      NoCalls(ran, Top(s).list);
      NothingDue(s, o.s);
    }
  }

  /** Draining a context: if none of the calls was an idle one, nothing in it remains due. */
  lemma DrainRuns(s: State, tape: Tape) returns (ran: seq<Event>)
    requires Wf(s) && !Top(s).polling && Drain(s, tape).Ended?
    ensures var r := Drain(s, tape).s; Wf(r) && Moves(s, r, [])
    ensures Runs(Drain(s, tape).s.log, Top(s).serial) == Runs(s.log, Top(s).serial) + ran
    ensures NoIdle(ran) ==> NoneDue(Drain(s, tape).s)
    decreases |tape|, 3
  {
    assert s.contexts != [];
    DrainUnfolds(s, tape);
    hide *;
    var first := PollCalls(s, tape);
    var o := Poll(s, tape);
    if o.ret {
      MovesTop(s, o.s, []);
      var later := DrainRuns(o.s, o.tape);
      ran := first + later;
      Assoc(Runs(s.log, Top(s).serial), first, later);
      KeepsCompose(s, o.s, Drain(s, tape).s);
    } else {
      ran := first;
    }
  }

  ghost predicate NoneDue(s: State)
    requires s.contexts != []
  {
    forall bh :: bh in Top(s).list ==> !Due(s, bh)
  }

  lemma NoCalls(ran: seq<Event>, list: seq<nat>)
    requires InOrder(ran, list) && NoIdle(ran) && !Busy(ran)
    ensures ran == []
  {
    assert forall i :: 0 <= i < |ran| ==> ran[i] in ran;
  }

  lemma NothingDue(s: State, r: State)
    requires Wf(s) && r == Sweep(s) && forall bh :: bh in Top(s).list ==> Served(s, r, [], bh)
    ensures NoneDue(r)
  {
    LiveMeans(Top(s).list, s.bhs);
    assert GoodContext(s, |s.contexts| - 1);
    forall bh | bh in Top(r).list ensures !Due(r, bh) {
      assert Served(s, r, [], bh);
      assert !Stopped(bh, r.log, |s.log|);
    }
  }

  /** What Run does for its first operation. */
  function RunFirst(s: State, op: Op, tape: Tape): (r: Outcome)
    requires s.contexts != []
    ensures r.Ended? ==> |r.s.contexts| == |s.contexts| && |r.tape| <= |tape|
  {
    match op
    case PollNow => if Top(s).polling then Ended(s, tape, false) else Poll(s, tape)
    case Nested(body) =>
      (match Run(PushContext(s), body, tape)
       case Running => Running
       case Ended(s1, t, _) => PopContext(s1, t))
    case op => Ended(Basic(s, op), tape, false)
  }

  lemma RunUnfolds(s: State, script: seq<Op>, tape: Tape)
    requires s.contexts != [] && script != [] && Run(s, script, tape).Ended?
    ensures var o := RunFirst(s, script[0], tape);
      o.Ended? && Run(s, script, tape) == Run(o.s, script[1..], o.tape)
  {}

  lemma NestedRuns(s: State, body: seq<Op>, tape: Tape)
    requires Wf(s) && RunFirst(s, Nested(body), tape).Ended?
    ensures Wf(RunFirst(s, Nested(body), tape).s) && Moves(s, RunFirst(s, Nested(body), tape).s, [])
    decreases |tape|, 5, body, 1
  {
    var p := PushContext(s);
    PushIsWf(s);
    hide Wf, Moves, Basic, Poll, Drain, Run, NewBh;
    RunKeeps(p, body, tape);
    var o := Run(p, body, tape);
    MovesTop(p, o.s, []);
    var _ := DrainRuns(o.s, o.tape);
    var d := Drain(o.s, o.tape);
    KeepsCompose(p, o.s, d.s);
    LeaveMoves(s, d.s);
  }

  /** Every run from a well-formed state ends in one, and looks like a step to what is outside. */
  lemma RunKeeps(s: State, script: seq<Op>, tape: Tape)
    requires Wf(s) && Run(s, script, tape).Ended?
    ensures Wf(Run(s, script, tape).s) && Moves(s, Run(s, script, tape).s, [])
    decreases |tape|, 5, script, 0
  {
    assert s.contexts != [];
    MovesNothing(s);
    if script != [] {
      hide Wf, Moves, Basic, Poll, PopContext;
      RunUnfolds(s, script, tape);
      var op := script[0];
      var o := RunFirst(s, op, tape);
      if op.PollNow? {
        if !Top(s).polling { var _, _ := PollRuns(s, tape); }
      } else if op.Nested? {
        NestedRuns(s, op.body, tape);
      } else {
        BasicKeeps(s, op);
      }
      hide Run, RunFirst;
      RunKeeps(o.s, script[1..], o.tape);
      KeepsCompose(s, o.s, Run(s, script, tape).s);
    }
  }

  // ------------------------------------------------------------------------------- main results

  /** Over whole runs: every call happened in the context the bottom half was created in, the ids
      are the stack positions, and no bottom half is in two contexts or twice in one. */
  lemma CallsInOwnContext(script: seq<Op>, tape: Tape)
    requires Run(INITIAL, script, tape).Ended?
    ensures var r := Run(INITIAL, script, tape).s;
      (forall e :: e in r.log && e.Ran? ==> e.home == e.current) && StackInOrder(r) && r.contexts != []
  {
    RunKeeps(INITIAL, script, tape);
    var r := Run(INITIAL, script, tape).s;
    forall e | e in r.log && e.Ran? ensures e.home == e.current { assert GoodEvent(e, r.next); }
    WfStack(r);
  }

  ghost predicate StackInOrder(s: State) {
    (forall i :: 0 <= i < |s.contexts| ==> s.contexts[i].id == i && NoDup(s.contexts[i].list)) &&
    forall i, j, bh :: 0 <= i < j < |s.contexts| && bh in s.contexts[i].list ==> bh !in s.contexts[j].list
  }

  lemma WfStack(s: State)
    requires Wf(s)
    ensures StackInOrder(s)
  {
    forall i | 0 <= i < |s.contexts| ensures s.contexts[i].id == i && NoDup(s.contexts[i].list) {
      assert GoodContext(s, i);
    }
    forall i, j, bh | 0 <= i < j < |s.contexts| && bh in s.contexts[i].list ensures bh !in s.contexts[j].list {
      assert GoodContext(s, i) && GoodContext(s, j);
    }
  }

  /** A poll calls nothing twice and nothing that was created meanwhile, and what nobody stopped
      has been called. */
  lemma PollOnce(s: State, tape: Tape) returns (ran: seq<Event>)
    requires Wf(s) && !Top(s).polling && Poll(s, tape).Ended?
    ensures var r := Poll(s, tape).s;
      Runs(r.log, Top(s).serial) == Runs(s.log, Top(s).serial) + ran &&
      (forall i, j :: 0 <= i < j < |ran| ==> ran[i].bh != ran[j].bh) &&
      (forall e :: e in ran ==> e.bh in Top(s).list && e.bh < s.next) &&
      (forall bh :: Due(s, bh) && bh in Top(s).list && !Stopped(bh, r.log, |s.log|) ==> Called(bh, ran))
  {
    var added;
    ran, added := PollRuns(s, tape);
    GoodTop(s);
    InOrderOnce(ran, Top(s).list);
    forall e | e in ran ensures e.bh < s.next { assert GoodBh(s, e.bh); }
    hide Wf, Moves, Runs, InOrder, Undeleted;
    forall bh | Due(s, bh) && bh in Top(s).list && !Stopped(bh, Poll(s, tape).s.log, |s.log|) ensures Called(bh, ran) {
      assert Served(s, Poll(s, tape).s, ran, bh);
    }
  }

  lemma MovesBelow(s: State, r: State, ran: seq<Event>)
    requires s.contexts != [] && Moves(s, r, ran)
    ensures |r.contexts| == |s.contexts| && forall i :: 0 <= i < |s.contexts| - 1 ==> r.contexts[i] == s.contexts[i]
  {}

  lemma LeaveDue(d: State)
    requires Wf(d) && |d.contexts| >= 2 && d.contexts[|d.contexts| - 2].serial < Top(d).serial
    ensures (exists bh :: bh in Leave(d).bhs && Leave(d).bhs[bh].home == Top(d).serial && Due(Leave(d), bh)) <==> !NoneDue(d)
  {
    var r, n := Leave(d), |d.contexts| - 1;
    forall bh | bh in d.bhs ensures bh < d.next { assert GoodBh(d, bh); }
    assert GoodContext(d, n) && d.contexts[n] == Top(d);
    hide Wf;
    assert r.bhs == d.bhs[d.next := Bh(true, false, false, d.contexts[n - 1].serial, true)];
    hide Leave;
    if !NoneDue(d) {
      var bh :| bh in Top(d).list && Due(d, bh);
      assert r.bhs[bh] == d.bhs[bh] && Due(r, bh);
    }
    forall bh | bh in r.bhs && r.bhs[bh].home == Top(d).serial && Due(r, bh) ensures !NoneDue(d) {
      assert bh in Top(d).list && Due(d, bh);
    }
  }

  /** What the parent gets. */
  lemma LeaveFacts(d: State)
    requires Wf(d) && |d.contexts| >= 2
    ensures var r, n := Leave(d), |d.contexts| - 1;
      Wf(r) && r.log == d.log && |r.contexts| == n && (forall i :: 0 <= i < n - 1 ==> r.contexts[i] == d.contexts[i]) &&
      Top(r) == d.contexts[n - 1].(list := [d.next] + d.contexts[n - 1].list) &&
      d.next in r.bhs && r.bhs[d.next] == Bh(true, false, false, Top(r).serial, true)
  {
    DroppedIsWf(d);
    NewIsWf(Dropped(d), true);
    var a := NewBh(Dropped(d), true);
    hide Wf, Moves;
    BasicKeeps(a, Schedule(d.next));
    assert Leave(d) == Basic(a, Schedule(d.next));
  }

  /** Leaving a context: the parent gets one new bottom half, already scheduled; and unless an idle
      bottom half was called, nothing that belongs to the destroyed context is left due. */
  lemma PopLeavesNothingDue(s: State, tape: Tape) returns (ran: seq<Event>)
    requires Wf(s) && |s.contexts| >= 2 && !Top(s).polling && PopContext(s, tape).Ended?
    ensures var r, n := PopContext(s, tape).s, |s.contexts| - 1;
      Wf(r) && Runs(r.log, Top(s).serial) == Runs(s.log, Top(s).serial) + ran &&
      |r.contexts| == n && (forall i :: 0 <= i < n - 1 ==> r.contexts[i] == s.contexts[i]) &&
      (exists bh :: bh >= s.next && Top(r) == s.contexts[n - 1].(list := [bh] + s.contexts[n - 1].list) &&
        bh in r.bhs && r.bhs[bh] == Bh(true, false, false, Top(r).serial, true))
    ensures NoIdle(ran) ==>
      forall bh :: bh in PopContext(s, tape).s.bhs && PopContext(s, tape).s.bhs[bh].home == Top(s).serial ==>
        !Due(PopContext(s, tape).s, bh)
  {
    var d, n := Drain(s, tape).s, |s.contexts| - 1;
    assert s.contexts != [] && s.contexts[n - 1].serial < s.contexts[n].serial;
    assert PopContext(s, tape).s == Leave(d);
    hide Drain, Wf, Moves, PopContext, NoneDue, Leave, Runs, NoIdle, Due;
    ran := DrainRuns(s, tape);
    MovesTop(s, d, []);
    MovesBelow(s, d, []);
    assert d.contexts[n - 1] == s.contexts[n - 1];
    LeaveFacts(d);
    LeaveDue(d);
  }

  /** An inner context with an idle bottom half 0 that is scheduled, and 1 in front of it. */
  const IDLE_SCHEDULED: State := Basic(Basic(Basic(PushContext(INITIAL), New), New), ScheduleIdle(0))

  /** After the callback of 0 has scheduled 1. */
  const PASSED: State := Basic(Begin(Marked(IDLE_SCHEDULED), 0), Schedule(1))

  lemma IdleDrain()
    ensures Drain(IDLE_SCHEDULED, [[Schedule(1)]]) == Ended(Sweep(PASSED), [], false)
  {
    var m, b := Marked(IDLE_SCHEDULED), Begin(Marked(IDLE_SCHEDULED), 0);
    var tape := [[Schedule(1)]];
    assert Top(m).list == [1, 0] && [1, 0][1..] == [0] && [0][1..] == [];
    assert Visit(m, 1, tape) == Ended(m, tape, false);
    assert [Schedule(1)][1..] == [] && tape[1..] == [];
    assert Run(b, [Schedule(1)], []) == Ended(PASSED, [], false);
    assert Visit(m, 0, tape) == Ended(PASSED, [], false);
    assert Walk(m, [0], tape) == Ended(PASSED, [], false);
    assert Walk(m, [1, 0], tape) == Ended(PASSED, [], false);
  }

  lemma RunOne(s: State, op: Op, tape: Tape)
    requires s.contexts != [] && RunFirst(s, op, tape).Ended?
    ensures Run(s, [op], tape).Ended? && Run(s, [op], tape).s == RunFirst(s, op, tape).s
  {
    assert [op][1..] == [];
  }

  lemma IdleBody()
    ensures Run(PushContext(INITIAL), [New, New, ScheduleIdle(0)], [[Schedule(1)]])
      == Ended(IDLE_SCHEDULED, [[Schedule(1)]], false)
  {
    var body := [New, New, ScheduleIdle(0)];
    assert body[1..] == [New, ScheduleIdle(0)] && body[1..][1..] == [ScheduleIdle(0)] && body[1..][1..][1..] == [];
  }

  lemma LostAtTheEnd()
    ensures |Sweep(PASSED).contexts| == 2
    ensures var r := Leave(Sweep(PASSED)); Due(r, 1) && |r.contexts| == 1 && r.contexts[0].list == [2]
  {
    hide Live;
  }

  /** With idle bottom halves it can go wrong: the callback of an idle one schedules another that
      the poll has passed already, the poll reports that nothing happened, and the context is left
      with that other one scheduled for good. */
  lemma IdleCallbackLosesBottomHalf()
    ensures
      var script := [Nested([New, New, ScheduleIdle(0)])];
      var o := Run(INITIAL, script, [[Schedule(1)]]);
      o.Ended? && Due(o.s, 1) && forall i :: 0 <= i < |o.s.contexts| ==> 1 !in o.s.contexts[i].list
  {
    IdleBody();
    IdleDrain();
    LostAtTheEnd();
    hide Drain, Leave, Sweep, Due, IDLE_SCHEDULED, PASSED, Run, PushContext;
    RunOne(INITIAL, Nested([New, New, ScheduleIdle(0)]), [[Schedule(1)]]);
  }
}
