/**
 Completion of a multi-write (multiwrite_cb and bdrv_aio_multiwrite in block.c): how often and
 with what status the user callbacks run, and when the shared record is freed.
 */
module MultiwriteCompletion {

  const EIO := 5

  /** The shared record.  calls lists the user callbacks run so far with the status they got. */
  datatype Record = Record(error: int, pending: int, callbacks: nat, calls: seq<(nat, int)>, freed: nat)

  /** One round of multiwrite_user_cb: every callback, in order. */
  function Round(callbacks: nat, status: int): (r: seq<(nat, int)>)
    ensures |r| == callbacks
  {
    seq(callbacks, i requires 0 <= i => (i, status))
  }

  function RunCallbacks(m: Record): Record {
    m.(calls := m.calls + Round(m.callbacks, m.error))
  }

  /** multiwrite_cb. */
  function Complete(m: Record, ret: int): Record {
    var m1 := if ret < 0 then RunCallbacks(m.(error := ret)) else m;
    var m2 := m1.(pending := m1.pending - 1);
    if m2.pending == 0 then
      var m3 := if m2.error == 0 then RunCallbacks(m2) else m2;
      m3.(freed := m3.freed + 1)
    else m2
  }

  function CompleteAll(m: Record, rets: seq<int>): Record
    decreases |rets|
  {
    if |rets| == 0 then m else CompleteAll(Complete(m, rets[0]), rets[1..])
  }

  /** How often callback i has run. */
  function Runs(calls: seq<(nat, int)>, i: nat): nat {
    if |calls| == 0 then 0 else (if calls[|calls| - 1].0 == i then 1 else 0) + Runs(calls[..|calls| - 1], i)
  }

  function Failures(rets: seq<int>): nat {
    if |rets| == 0 then 0 else (if rets[0] < 0 then 1 else 0) + Failures(rets[1..])
  }

  lemma {:induction false} RunsAppend(a: seq<(nat, int)>, b: seq<(nat, int)>, i: nat)
    ensures Runs(a + b, i) == Runs(a, i) + Runs(b, i)
    decreases |b|
  {
    if |b| == 0 {
      assert a + b == a;
    } else {
      assert (a + b)[..|a + b| - 1] == a + b[..|b| - 1];
      RunsAppend(a, b[..|b| - 1], i);
    }
  }

  lemma {:induction false} RunsRound(callbacks: nat, status: int, i: nat)
    ensures Runs(Round(callbacks, status), i) == if i < callbacks then 1 else 0
    decreases callbacks
  {
    if callbacks > 0 {
      assert Round(callbacks, status)[..callbacks - 1] == Round(callbacks - 1, status);
      RunsRound(callbacks - 1, status, i);
    }
  }

  /** Every failed completion runs all callbacks once; if none fails and no submission failed, the last
      one does.  The record is freed by the last completion and by no other. */
  lemma {:induction false} CallbackCount(m: Record, rets: seq<int>, i: nat)
    requires |rets| > 0 && m.pending == |rets| && i < m.callbacks
    ensures var m' := CompleteAll(m, rets);
            && Runs(m'.calls, i) ==
                 Runs(m.calls, i) + Failures(rets) + (if m.error == 0 && Failures(rets) == 0 then 1 else 0)
            && m'.freed == m.freed + 1 && m'.pending == 0
    decreases |rets|
  {
    var m1 := Complete(m, rets[0]);
    var failed := m.(error := rets[0]);
    RunsAppend(m.calls, Round(m.callbacks, rets[0]), i);
    RunsRound(m.callbacks, rets[0], i);
    RunsAppend(m.calls, Round(m.callbacks, m.error), i);
    RunsRound(m.callbacks, m.error, i);
    if |rets| == 1 {
      assert rets[1..] == [];
    } else {
      assert m1.freed == m.freed;
      CallbackCount(m1, rets[1..], i);
    }
  }

  /** No completion but the last frees the record. */
  lemma {:induction false} NotFreedEarly(m: Record, rets: seq<int>)
    requires |rets| < m.pending
    ensures CompleteAll(m, rets).freed == m.freed
    decreases |rets|
  {
    if |rets| > 0 { NotFreedEarly(Complete(m, rets[0]), rets[1..]); }
  }

  // ---------- submission ----------

  datatype Submission = Submission(m: Record, status: int)

  /** The submission loop of bdrv_aio_multiwrite from request k on: accepted tells which requests the
      driver takes.  A first request that is refused fails the whole call. */
  function Submit(m: Record, accepted: seq<bool>): Submission
    decreases |accepted|
  {
    if |accepted| == 0 then Submission(m, 0)
    else if accepted[0] then Submit(m.(pending := m.pending + 1), accepted[1..])
    else if m.pending == 0 then Submission(m.(freed := m.freed + 1), -1)
    else Submission(m.(error := EIO), 0)
  }

  function Accepted(accepted: seq<bool>): nat {
    if |accepted| == 0 || !accepted[0] then 0 else 1 + Accepted(accepted[1..])
  }

  lemma {:induction false} SubmitMeaning(m: Record, accepted: seq<bool>)
    requires m.pending >= 0 && m.error == 0
    ensures var s := Submit(m, accepted);
            && (s.status == 0 ==>
                  s.m == m.(pending := m.pending + Accepted(accepted),
                            error := if Accepted(accepted) == |accepted| then 0 else EIO))
            && (s.status != 0 <==> m.pending == 0 && 0 < |accepted| && !accepted[0])
            && (s.status != 0 ==> s.status == -1 && s.m == m.(freed := m.freed + 1))
    decreases |accepted|
  {
    if |accepted| > 0 && accepted[0] {
      SubmitMeaning(m.(pending := m.pending + 1), accepted[1..]);
    }
  }

  function Fresh(callbacks: nat): Record { Record(0, 0, callbacks, [], 0) }

  /** The exact condition for the promise that every user callback runs once: with all requests
      accepted, at most one completion may fail; if the driver refused a later request, exactly one
      completion must fail.  Otherwise callbacks run several times, or never. */
  lemma ExactlyOnce(callbacks: nat, accepted: seq<bool>, rets: seq<int>, i: nat)
    requires 0 < |accepted| && accepted[0] && i < callbacks
    requires |rets| == Accepted(accepted)
    ensures var m := CompleteAll(Submit(Fresh(callbacks), accepted).m, rets);
            && m.freed == 1
            && (Runs(m.calls, i) == 1 <==>
                  if Accepted(accepted) == |accepted| then Failures(rets) <= 1 else Failures(rets) == 1)
  {
    SubmitMeaning(Fresh(callbacks), accepted);
    CallbackCount(Submit(Fresh(callbacks), accepted).m, rets, i);
  }

  /** Two requests that both fail: every callback runs twice. */
  lemma TwoFailuresCallTwice(callbacks: nat, r1: int, r2: int, i: nat)
    requires r1 < 0 && r2 < 0 && i < callbacks
    ensures var m := CompleteAll(Submit(Fresh(callbacks), [true, true]).m, [r1, r2]);
            Runs(m.calls, i) == 2 && m.freed == 1
  {
    var accepted, rets := [true, true], [r1, r2];
    assert accepted[1..] == [true] && [true][1..] == [] && rets[1..] == [r2] && [r2][1..] == [];
    assert Accepted(accepted) == 1 + Accepted([true]) == 2;
    assert Failures(rets) == 1 + Failures([r2]) == 2;
    SubmitMeaning(Fresh(callbacks), accepted);
    CallbackCount(Submit(Fresh(callbacks), accepted).m, rets, i);
  }

  /** The one failing status, or 0. */
  function Verdict(rets: seq<int>): int {
    if |rets| == 0 then 0 else if rets[0] < 0 then rets[0] else Verdict(rets[1..])
  }

  /** A round for every failing completion, in the order of the completions. */
  function FailingRounds(callbacks: nat, rets: seq<int>): seq<(nat, int)> {
    if |rets| == 0 then []
    else (if rets[0] < 0 then Round(callbacks, rets[0]) else []) + FailingRounds(callbacks, rets[1..])
  }

  lemma AssocUnit(a: seq<(nat, int)>, b: seq<(nat, int)>, c: seq<(nat, int)>)
    ensures a + b + c == a + (b + c) && a + [] == a && [] + a == a
  {}

  /** All calls of a run, with their statuses. */
  lemma {:induction false} CallsExact(m: Record, rets: seq<int>)
    requires |rets| > 0 && m.pending == |rets|
    ensures CompleteAll(m, rets).calls ==
            m.calls + (FailingRounds(m.callbacks, rets)
                       + if m.error == 0 && Failures(rets) == 0 then Round(m.callbacks, 0) else [])
    decreases |rets|
  {
    var m1 := Complete(m, rets[0]);
    var first := if rets[0] < 0 then Round(m.callbacks, rets[0]) else [];
    var later := FailingRounds(m.callbacks, rets[1..]);
    var final := if m.error == 0 && Failures(rets) == 0 then Round(m.callbacks, 0) else [];
    AssocUnit(m.calls, first, later + final);
    AssocUnit(first, later, final);
    if |rets| == 1 {
      assert rets[1..] == [];
    } else {
      CallsExact(m1, rets[1..]);
    }
  }

  lemma {:induction false} OneFailingRound(callbacks: nat, rets: seq<int>)
    ensures Failures(rets) == 0 ==> FailingRounds(callbacks, rets) == [] && Verdict(rets) == 0
    ensures Failures(rets) == 1 ==> FailingRounds(callbacks, rets) == Round(callbacks, Verdict(rets))
  {
    if |rets| > 0 { OneFailingRound(callbacks, rets[1..]); }
  }

  /** In whatever order the requests complete, there is a round with its own status for every failing
      one; without a failure there is one successful round, but none at all if the driver had refused
      a later request.  So wherever the callbacks run exactly once, they get the one failure there is,
      or 0. */
  lemma RightStatus(callbacks: nat, accepted: seq<bool>, rets: seq<int>)
    requires 0 < |accepted| && accepted[0] && |rets| == Accepted(accepted)
    ensures var all := Accepted(accepted) == |accepted|;
            var calls := CompleteAll(Submit(Fresh(callbacks), accepted).m, rets).calls;
            && calls == (if Failures(rets) == 0 && all then Round(callbacks, 0) else FailingRounds(callbacks, rets))
            && ((if all then Failures(rets) <= 1 else Failures(rets) == 1) ==> calls == Round(callbacks, Verdict(rets)))
  {
    SubmitMeaning(Fresh(callbacks), accepted);
    CallsExact(Submit(Fresh(callbacks), accepted).m, rets);
    OneFailingRound(callbacks, rets);
    AssocUnit(FailingRounds(callbacks, rets), [], []);
    AssocUnit(Round(callbacks, 0), [], []);
  }

  // ---------- the code ----------

  class MultiwriteCB {
    var error: int
    var numRequests: int
    var numCallbacks: nat
    ghost var calls: seq<(nat, int)>
    ghost var freed: nat

    ghost function Snap(): Record
      reads this
    {
      Record(error, numRequests, numCallbacks, calls, freed)
    }

    constructor (n: nat)
      ensures Snap() == Fresh(n)
    {
      error, numRequests, numCallbacks := 0, 0, n;
      calls, freed := [], 0;
    }

    /** multiwrite_user_cb. */
    method UserCb()
      modifies this`calls
      ensures Snap() == RunCallbacks(old(Snap()))
    {
      var i := 0;
      while i < numCallbacks
        invariant 0 <= i <= numCallbacks
        invariant calls == old(calls) + Round(numCallbacks, error)[..i]
      {
        assert Round(numCallbacks, error)[i] == (i, error);
        calls := calls + [(i, error)];
        i := i + 1;
      }
    }

    /** multiwrite_cb; the record must still exist. */
    method Cb(ret: int)
      requires freed == 0
      modifies this
      ensures Snap() == Complete(old(Snap()), ret)
    {
      if ret < 0 {
        error := ret;
        UserCb();
      }
      numRequests := numRequests - 1;
      if numRequests == 0 {
        if error == 0 {
          UserCb();
        }
        freed := freed + 1;
      }
    }

    /** The submission loop of bdrv_aio_multiwrite; completions come after it. */
    method SubmitAll(accepted: seq<bool>) returns (status: int)
      modifies this
      ensures Submission(Snap(), status) == Submit(old(Snap()), accepted)
    {
      var i := 0;
      assert accepted[0..] == accepted;
      while i < |accepted|
        invariant 0 <= i <= |accepted|
        invariant Submit(old(Snap()), accepted) == Submit(Snap(), accepted[i..])
      {
        if !accepted[i] {
          if numRequests == 0 {
            freed := freed + 1;
            return -1;
          } else {
            error := EIO;
            return 0;
          }
        }
        numRequests := numRequests + 1;
        assert accepted[i..][1..] == accepted[i + 1..];
        i := i + 1;
      }
      return 0;
    }
  }
}
