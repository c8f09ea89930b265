/**
 The rate-limited output buffer of a migration (buffered_file.c) over a backend that may take
 fewer bytes than offered, ask to be tried again later, or fail.
 */
module BufferedFile {

  type Byte = b: int | 0 <= b < 256
  type Bytes = seq<Byte>

  const EAGAIN := 11
  const EINVAL := 22

  /** An answer of the backend: bytes taken, try again, or an error. */
  datatype Reply = Accept(n: nat) | Again | Fail

  /** The state: what the backend has taken, what is buffered, everything ever put, and the flags.
      replies are the answers still to come from the backend; once they run out it takes everything. */
  datatype State = State(
    delivered: Bytes,
    buffer: Bytes,
    puts: Bytes,
    hasError: bool,
    frozen: bool,
    xfer: nat,
    limit: nat,
    replies: seq<Reply>)

  /** The return value of put_buffer for size bytes. */
  function Answer(replies: seq<Reply>, size: nat): (ret: int)
    ensures ret <= size
  {
    if replies == [] then size
    else match replies[0]
      case Accept(n) => if n < size then n else size
      case Again => -EAGAIN
      case Fail => -1
  }

  function Next(replies: seq<Reply>): seq<Reply> { if replies == [] then [] else replies[1..] }

  /** The loop of buffered_flush. */
  function FlushLoop(s: State): State
    decreases |s.buffer|
  {
    if s.buffer == [] then s
    else
      var ret := Answer(s.replies, |s.buffer|);
      var s' := s.(replies := Next(s.replies));
      if ret == -EAGAIN then s'.(frozen := true)
      else if ret <= 0 then s'.(hasError := true)
      else FlushLoop(s'.(delivered := s.delivered + s.buffer[..ret], buffer := s.buffer[ret..]))
  }

  /** buffered_flush. */
  function Flush(s: State): State { if s.hasError then s else FlushLoop(s) }

  /** The outcome of the direct transfer: the state, what is left to buffer, and whether it failed. */
  datatype Transfer = Transfer(s: State, rest: Bytes, failed: bool)

  /** The loop of buffered_put_buffer. */
  function PutLoop(s: State, data: Bytes): Transfer
    decreases |data|
  {
    if s.frozen || data == [] || s.xfer > s.limit then Transfer(s, data, false)
    else
      var ret := Answer(s.replies, |data|);
      var s' := s.(replies := Next(s.replies));
      if ret == -EAGAIN then Transfer(s'.(frozen := true), data, false)
      else if ret <= 0 then Transfer(s'.(hasError := true), data, true)
      else PutLoop(s'.(delivered := s.delivered + data[..ret], xfer := s.xfer + ret), data[ret..])
  }

  /** buffered_put_buffer; the second component is its return value. */
  function Put(s: State, data: Bytes): (State, int) {
    if s.hasError then (s, -EINVAL)
    else
      var t := PutLoop(Flush(s.(frozen := false, puts := s.puts + data)), data);
      if t.failed then (t.s, -EINVAL)
      else (t.s.(buffer := t.s.buffer + t.rest), |data|)
  }

  /** buffered_rate_tick up to the call of put_ready, whose puts are further events. */
  function Tick(s: State): State {
    if s.hasError || s.frozen then s else Flush(s.(xfer := 0))
  }

  /** buffered_set_rate_limit. */
  function SetLimit(s: State, rate: nat): State {
    if s.hasError then s else s.(limit := rate / 10)
  }

  // ---------- no byte is lost, repeated or reordered ----------

  /** Bytes taken by the backend followed by the buffered ones are all bytes ever put. */
  predicate Lossless(s: State) { s.hasError || s.delivered + s.buffer == s.puts }

  lemma PutLoopStep(s: State, data: Bytes)
    requires !s.frozen && data != [] && s.xfer <= s.limit
    ensures var ret, s' := Answer(s.replies, |data|), s.(replies := Next(s.replies));
      PutLoop(s, data) ==
        if ret == -EAGAIN then Transfer(s'.(frozen := true), data, false)
        else if ret <= 0 then Transfer(s'.(hasError := true), data, true)
        else PutLoop(s'.(delivered := s.delivered + data[..ret], xfer := s.xfer + ret), data[ret..])
  {}

  lemma PutLoopStops(s: State, data: Bytes)
    requires s.frozen || data == [] || s.xfer > s.limit
    ensures PutLoop(s, data) == Transfer(s, data, false)
  {}

  lemma FlushLoopEnds(s: State)
    ensures s.buffer == [] ==> FlushLoop(s) == s
  {}

  lemma FlushLoopStep(s: State)
    requires s.buffer != []
    ensures var ret, s' := Answer(s.replies, |s.buffer|), s.(replies := Next(s.replies));
      FlushLoop(s) ==
        if ret == -EAGAIN then s'.(frozen := true)
        else if ret <= 0 then s'.(hasError := true)
        else FlushLoop(s'.(delivered := s.delivered + s.buffer[..ret], buffer := s.buffer[ret..]))
  {}

  lemma Moved(a: Bytes, b: Bytes, n: nat)
    requires n <= |b|
    ensures a + b[..n] + b[n..] == a + b
  {
    assert b == b[..n] + b[n..];
  }

  lemma {:induction false} FlushLoopKeeps(s: State)
    ensures var s' := FlushLoop(s);
            && s'.delivered + s'.buffer == s.delivered + s.buffer && s'.puts == s.puts
            && s'.xfer == s.xfer && s'.limit == s.limit
            && (!s'.hasError && !s'.frozen ==> s'.buffer == [])
            && s.delivered <= s'.delivered
    decreases |s.buffer|
  {
    FlushLoopEnds(s);
    if s.buffer != [] {
      FlushLoopStep(s);
      var ret := Answer(s.replies, |s.buffer|);
      hide FlushLoop, Answer, Next;
      if ret > 0 {
        Moved(s.delivered, s.buffer, ret);
        FlushLoopKeeps(s.(replies := Next(s.replies), delivered := s.delivered + s.buffer[..ret], buffer := s.buffer[ret..]));
      }
    }
  }

  predicate Takes(r: Reply) { r.Accept? && r.n > 0 }

  /** What a flush is for: bytes go from the front of the buffer to the backend, in order, while the
      first k answers are good.  It ends with an empty buffer, or the backend has asked to be left
      alone, or it has failed. */
  ghost predicate Flushed(s: State, s': State, m: nat, k: nat) {
    && m <= |s.buffer| && s'.delivered == s.delivered + s.buffer[..m] && s'.buffer == s.buffer[m..]
    && s'.puts == s.puts && s'.xfer == s.xfer && s'.limit == s.limit
    && k <= |s.replies| && (forall i :: 0 <= i < k ==> Takes(s.replies[i]))
    && (if m == |s.buffer| then
          s'.replies == s.replies[k..] && s'.hasError == s.hasError && s'.frozen == s.frozen
        else
          && k < |s.replies| && !Takes(s.replies[k]) && s'.replies == s.replies[k + 1..]
          && s'.frozen == (s.frozen || s.replies[k].Again?) && s'.hasError == (s.hasError || !s.replies[k].Again?))
  }

  lemma {:induction false} FlushLoopMeans(s: State) returns (m: nat, k: nat)
    ensures Flushed(s, FlushLoop(s), m, k)
    decreases |s.buffer|
  {
    m, k := 0, 0;
    if s.buffer == [] {
      FlushLoopEnds(s);
      assert s.delivered + s.buffer[..0] == s.delivered && s.replies[0..] == s.replies;
    } else {
      FlushLoopStep(s);
      hide FlushLoop;
      var ret := Answer(s.replies, |s.buffer|);
      if ret > 0 {
        var s1 := s.(replies := Next(s.replies), delivered := s.delivered + s.buffer[..ret], buffer := s.buffer[ret..]);
        var m1, k1 := FlushLoopMeans(s1);
        m, k := ret + m1, if s.replies == [] then 0 else k1 + 1;
        FlushedMore(s, s1, FlushLoop(s), ret, m1, k1);
      } else {
        assert s.delivered + s.buffer[..0] == s.delivered && s.buffer[0..] == s.buffer;
      }
    }
  }

  lemma FlushedMore(s: State, s1: State, s': State, ret: nat, m: nat, k: nat)
    requires 0 < ret <= |s.buffer| && Flushed(s1, s', m, k) && s1.replies == Next(s.replies)
    requires s.replies != [] ==> Takes(s.replies[0])
    requires s1 == s.(replies := s1.replies, delivered := s.delivered + s.buffer[..ret], buffer := s.buffer[ret..])
    ensures Flushed(s, s', ret + m, if s.replies == [] then 0 else k + 1)
  {
    assert s.buffer[ret..][m..] == s.buffer[ret + m..];
    assert s.buffer[..ret] + s.buffer[ret..][..m] == s.buffer[..ret + m];
    assert s.delivered + s.buffer[..ret] + s1.buffer[..m] == s.delivered + (s.buffer[..ret] + s1.buffer[..m]);
    if s.replies != [] {
      assert forall i :: 0 <= i < |s1.replies| ==> s1.replies[i] == s.replies[i + 1];
      assert s1.replies[k..] == s.replies[k + 1..];
      if k < |s1.replies| { assert s1.replies[k + 1..] == s.replies[k + 2..]; }
      forall i | 0 <= i < k + 1 ensures Takes(s.replies[i]) {
        if i > 0 { assert Takes(s1.replies[i - 1]); }
      }
    }
  }

  lemma {:induction false} PutLoopKeeps(s: State, data: Bytes)
    ensures var t := PutLoop(s, data);
            && (!t.failed ==> t.s.hasError == s.hasError)
            && (t.failed ==> t.s.hasError)
            && |t.rest| <= |data|
            && t.s.delivered + t.rest == s.delivered + data
            && t.s.buffer == s.buffer && t.s.puts == s.puts
            && (s.frozen ==> t.rest == data && t.s.delivered == s.delivered)
    decreases |data|
  {
    if s.frozen || data == [] || s.xfer > s.limit {
      PutLoopStops(s, data);
    } else {
      PutLoopStep(s, data);
      hide PutLoop;
      var ret := Answer(s.replies, |data|);
      if ret > 0 {
        Moved(s.delivered, data, ret);
        PutLoopKeeps(s.(replies := Next(s.replies), delivered := s.delivered + data[..ret], xfer := s.xfer + ret), data[ret..]);
      }
    }
  }

  /** The transfer stops only when all bytes are gone, the backend asks for it or fails, or the limit is
      exceeded; what it hands over counts against the limit. */
  lemma {:induction false} PutLoopStopsFor(s: State, data: Bytes)
    ensures var t := PutLoop(s, data);
      && |t.rest| <= |data| && t.s.xfer == s.xfer + (|data| - |t.rest|) && t.s.limit == s.limit
      && (s.frozen || s.xfer > s.limit ==> t.rest == data && t.s.frozen == s.frozen)
      && (t.rest != [] ==> t.s.frozen || t.failed || t.s.xfer > t.s.limit)
      && (s.hasError || t.failed <==> t.s.hasError)
    decreases |data|
  {
    if s.frozen || data == [] || s.xfer > s.limit {
      PutLoopStops(s, data);
    } else {
      PutLoopStep(s, data);
      hide PutLoop;
      var ret := Answer(s.replies, |data|);
      if ret > 0 {
        PutLoopStopsFor(s.(replies := Next(s.replies), delivered := s.delivered + data[..ret], xfer := s.xfer + ret), data[ret..]);
      }
    }
  }

  /** A put keeps the buffer lossless: new bytes reach the backend directly only when nothing older is
      still buffered. */
  lemma PutKeeps(s: State, data: Bytes)
    requires Lossless(s)
    ensures Lossless(Put(s, data).0)
  {
    if !s.hasError {
      var s1 := s.(frozen := false, puts := s.puts + data);
      FlushLoopKeeps(s1);
      var s2 := Flush(s1);
      if !s2.hasError {
        PutLoopKeeps(s2, data);
        var t := PutLoop(s2, data);
        if s2.frozen {
          assert t.s.delivered + (t.s.buffer + t.rest) == (s2.delivered + s2.buffer) + data;
        } else {
          assert t.s.delivered + (t.s.buffer + t.rest) == s2.delivered + data;
        }
      } else {
        PutLoopError(s2, data);
      }
    }
  }

  lemma {:induction false} PutLoopError(s: State, data: Bytes)
    requires s.hasError
    ensures PutLoop(s, data).s.hasError
    decreases |data|
  {
    if !(s.frozen || data == [] || s.xfer > s.limit) {
      var ret := Answer(s.replies, |data|);
      if ret > 0 {
        PutLoopError(s.(replies := Next(s.replies), delivered := s.delivered + data[..ret], xfer := s.xfer + ret), data[ret..]);
      }
    }
  }

  datatype Op = DoPut(data: Bytes) | DoTick | DoLimit(rate: nat)

  function Apply(s: State, op: Op): State {
    match op
    case DoPut(data) => Put(s, data).0
    case DoTick => Tick(s)
    case DoLimit(rate) => SetLimit(s, rate)
  }

  function ApplyAll(s: State, ops: seq<Op>): State
    decreases |ops|
  {
    if |ops| == 0 then s else ApplyAll(Apply(s, ops[0]), ops[1..])
  }

  /** A FIFO without loss, for every interleaving of puts and ticks and every behaviour of the backend,
      until an error is noticed. */
  lemma {:induction false} RunLossless(s: State, ops: seq<Op>)
    requires Lossless(s)
    ensures Lossless(ApplyAll(s, ops))
    decreases |ops|
  {
    if |ops| > 0 {
      if ops[0].DoPut? { PutKeeps(s, ops[0].data); }
      if ops[0].DoTick? { FlushLoopKeeps(s.(xfer := 0)); }
      RunLossless(Apply(s, ops[0]), ops[1..]);
    }
  }

  /** A tick starts a new budget and flushes, unless the file is frozen or has an error. */
  ghost predicate IsTick(s: State, s': State) {
    if s.hasError || s.frozen then s' == s
    else
      && s'.xfer == 0 && s'.limit == s.limit && s'.puts == s.puts && s.delivered <= s'.delivered
      && s'.delivered + s'.buffer == s.delivered + s.buffer
      && (s'.buffer != [] ==> s'.hasError || s'.frozen)
      && ((forall k :: 0 <= k < |s.replies| ==> Takes(s.replies[k])) ==> s'.buffer == [] && !s'.hasError && !s'.frozen)
  }

  lemma TickMeans(s: State)
    ensures IsTick(s, Tick(s))
  {
    if !(s.hasError || s.frozen) {
      var s1 := s.(xfer := 0);
      var m, k := FlushLoopMeans(s1);
      hide FlushLoop;
      Moved(s.delivered, s.buffer, m);
    }
  }

  /** So ticks alone get everything out once the backend takes what it is given. */
  lemma TickDelivers(s: State)
    requires Lossless(s) && !s.hasError && !s.frozen && forall k :: 0 <= k < |s.replies| ==> Takes(s.replies[k])
    ensures Tick(s).delivered == s.puts && Tick(s).buffer == []
  {
    TickMeans(s);
    var s' := Tick(s);
    assert s'.delivered + [] == s'.delivered;
  }

  // ---------- what happens after an error ----------

  /** All bytes are the same. */
  predicate Uniform(b: Bytes) {
    forall i, j :: 0 <= i < j < |b| ==> b[i] == b[j]
  }

  /** What makes a put harmless whatever the backend answers: the transfer limit holds it back, nothing
      is buffered, nothing is put, or the bytes cannot be told apart. */
  predicate Harmless(s: State, data: Bytes) {
    s.xfer > s.limit || s.buffer == [] || data == [] || Uniform(s.buffer + data)
  }

  /** What a put does: m buffered bytes and then n of the new ones reach the backend, the new ones count
      against the limit, and the rest is buffered.  Old bytes stay behind only when the backend asks
      for it or fails, new ones also when the limit is exceeded. */
  ghost predicate IsPut(s: State, s': State, ret: int, data: Bytes, m: nat, n: nat) {
    && m <= |s.buffer| && n <= |data| && s'.delivered == s.delivered + s.buffer[..m] + data[..n]
    && s'.puts == s.puts + data && s'.limit == s.limit && s'.xfer == s.xfer + n
    && (m < |s.buffer| ==> s'.frozen || s'.hasError)
    && (n < |data| ==> s'.frozen || s'.hasError || s'.xfer > s'.limit)
    && (n > 0 ==> s.xfer <= s.limit && (m == |s.buffer| || s'.hasError))
    && (if ret == |data| then s'.buffer == s.buffer[m..] + data[n..] else ret == -EINVAL && s'.hasError)
  }

  lemma PutDelivers(s: State, data: Bytes) returns (m: nat, n: nat)
    requires !s.hasError
    ensures IsPut(s, Put(s, data).0, Put(s, data).1, data, m, n)
  {
    hide PutLoop, FlushLoop, IsTransfer, IsPut, Flushed;
    var s1 := s.(frozen := false, puts := s.puts + data);
    var k;
    m, k := FlushLoopMeans(s1);
    n := TransferMeans(Flush(s1), data);
    PutComposes(s, s1, Flush(s1), PutLoop(Flush(s1), data), data, m, k, n);
  }

  ghost predicate IsTransfer(s: State, t: Transfer, data: Bytes, n: nat) {
    && n <= |data| && t.s.delivered == s.delivered + data[..n] && t.rest == data[n..]
    && t.s.xfer == s.xfer + n && t.s.limit == s.limit && t.s.puts == s.puts && t.s.buffer == s.buffer
    && (s.frozen || s.xfer > s.limit ==> n == 0 && t.s.frozen == s.frozen)
    && (n < |data| ==> t.s.frozen || t.failed || t.s.xfer > t.s.limit)
    && (s.hasError || t.failed <==> t.s.hasError)
  }

  lemma TransferMeans(s: State, data: Bytes) returns (n: nat)
    ensures IsTransfer(s, PutLoop(s, data), data, n)
  {
    PutLoopKeeps(s, data);
    PutLoopStopsFor(s, data);
    hide PutLoop;
    var t := PutLoop(s, data);
    n := |data| - |t.rest|;
    PrefixParts(s.delivered, data, t.s.delivered, t.rest);
  }

  lemma PutComposes(s: State, s1: State, s2: State, t: Transfer, data: Bytes, m: nat, k: nat, n: nat)
    requires !s.hasError && s1 == s.(frozen := false, puts := s.puts + data)
    requires Flushed(s1, s2, m, k) && IsTransfer(s2, t, data, n)
    ensures IsPut(s, if t.failed then t.s else t.s.(buffer := t.s.buffer + t.rest),
                  if t.failed then -EINVAL else |data|, data, m, n)
  {}

  lemma PrefixParts(a: Bytes, b: Bytes, c: Bytes, d: Bytes)
    requires c + d == a + b && |a| <= |c|
    ensures c == a + b[..|c| - |a|] && d == b[|c| - |a|..]
  {
    assert c == (a + b)[..|c|] && d == (a + b)[|c|..];
  }

  /** Some of the buffered bytes followed by some of the new ones come first in all of them, if no two
      bytes differ. */
  lemma UniformPrefix(buffer: Bytes, data: Bytes, m: nat, n: nat)
    requires Uniform(buffer + data) && m <= |buffer| && n <= |data|
    ensures buffer[..m] + data[..n] <= buffer + data
  {
    var all := buffer + data;
    forall k | 0 <= k < m + n ensures (buffer[..m] + data[..n])[k] == all[k] {
      if k >= m { assert data[k - m] == all[|buffer| + k - m]; }
    }
  }

  /** If new bytes may follow any part of the buffered ones, all of them are the same. */
  lemma FollowsEverywhere(buffer: Bytes, data: Bytes)
    requires buffer != [] && data != []
    requires forall m :: 0 <= m < |buffer| ==> data <= buffer[m..] + data
    ensures Uniform(buffer + data)
  {
    forall m | 0 <= m < |buffer| ensures buffer[m] == data[0] {
      assert data[0] == (buffer[m..] + data)[0];
    }
    var last := |buffer| - 1;
    SameThroughout(buffer[last..], data);
  }

  lemma {:induction false} SameThroughout(one: Bytes, data: Bytes)
    requires |one| == 1 && data != [] && data <= one + data && one[0] == data[0]
    ensures forall k :: 0 <= k < |data| ==> data[k] == data[0]
  {
    var k := 1;
    while k < |data|
      invariant 1 <= k <= |data| && forall i :: 0 <= i < k ==> data[i] == data[0]
    {
      assert data[k] == (one + data)[k] == data[k - 1];
      k := k + 1;
    }
  }

  /** The backend takes the first m buffered bytes, fails, and then takes all it is given. */
  function FailAfter(m: nat): seq<Reply> { if m == 0 then [Fail] else [Accept(m), Fail] }

  lemma FailingFlush(s: State, m: nat)
    requires m < |s.buffer| && s.replies == FailAfter(m)
    ensures FlushLoop(s) ==
            s.(delivered := s.delivered + s.buffer[..m], buffer := s.buffer[m..], replies := [], hasError := true)
  {
    if m > 0 {
      var s1 := s.(delivered := s.delivered + s.buffer[..m], buffer := s.buffer[m..], replies := [Fail]);
      assert s.replies[1..] == [Fail];
      assert FlushLoop(s) == FlushLoop(s1);
      assert s1.replies[1..] == [];
    } else {
      assert s.delivered + s.buffer[..m] == s.delivered && s.buffer[m..] == s.buffer;
    }
  }

  lemma OvertakingPut(s: State, data: Bytes, m: nat)
    requires !s.hasError && s.xfer <= s.limit && data != [] && m < |s.buffer|
    ensures Put(s.(replies := FailAfter(m)), data).0.delivered == s.delivered + s.buffer[..m] + data
    ensures Put(s.(replies := FailAfter(m)), data).0.hasError
  {
    var s1 := s.(replies := FailAfter(m), frozen := false, puts := s.puts + data);
    FailingFlush(s1, m);
    var s2 := Flush(s1);
    var s3 := s2.(delivered := s2.delivered + data, xfer := s2.xfer + |data|);
    assert data[..|data|] == data && data[|data|..] == [];
    assert PutLoop(s3, []) == Transfer(s3, [], false);
    assert PutLoop(s2, data) == PutLoop(s3, []);
  }

  /** A put leaves the backend with a prefix of all bytes put, whatever the backend answers, exactly if
      it is harmless.  Otherwise the flush inside it may fail and the put then hands its own bytes to
      the backend, over the head of what is buffered. */
  lemma PutPrefixExact(s: State, data: Bytes)
    requires !s.hasError && s.delivered + s.buffer == s.puts
    ensures (forall replies :: Put(s.(replies := replies), data).0.delivered <= s.puts + data) <==> Harmless(s, data)
  {
    if Harmless(s, data) {
      forall replies ensures Put(s.(replies := replies), data).0.delivered <= s.puts + data {
        var m, n := PutDelivers(s.(replies := replies), data);
        HarmlessPrefix(s, data, m, n);
      }
    } else {
      if forall m :: 0 <= m < |s.buffer| ==> data <= s.buffer[m..] + data {
        FollowsEverywhere(s.buffer, data);
      } else {
        var m: nat :| m < |s.buffer| && !(data <= s.buffer[m..] + data);
        OvertakingPut(s, data, m);
        Overtakes(s.delivered, s.buffer, data, m);
        assert !(Put(s.(replies := FailAfter(m)), data).0.delivered <= s.puts + data);
      }
    }
  }

  lemma HarmlessPrefix(s: State, data: Bytes, m: nat, n: nat)
    requires s.delivered + s.buffer == s.puts && Harmless(s, data) && m <= |s.buffer| && n <= |data|
    requires s.xfer > s.limit && m < |s.buffer| ==> n == 0
    ensures s.delivered + s.buffer[..m] + data[..n] <= s.puts + data
  {
    if Uniform(s.buffer + data) {
      UniformPrefix(s.buffer, data, m, n);
      assert s.delivered + s.buffer[..m] + data[..n] == s.delivered + (s.buffer[..m] + data[..n]);
      assert s.puts + data == s.delivered + (s.buffer + data);
    } else if m == |s.buffer| {
      assert s.buffer[..m] == s.buffer;
    }
  }

  lemma Overtakes(delivered: Bytes, buffer: Bytes, data: Bytes, m: nat)
    requires m < |buffer|
    ensures delivered + buffer[..m] + data <= delivered + buffer + data ==> data <= buffer[m..] + data
  {
    var x, y, tail := delivered + buffer[..m] + data, delivered + buffer + data, buffer[m..] + data;
    var k := |delivered| + m;
    assert forall i :: 0 <= i < |data| ==> x[k + i] == data[i] && y[k + i] == tail[i];
  }

  /** Such a put can happen: from a fresh file, the first put finds the backend busy, and the flush in
      the second fails.  Only the second put's bytes arrive. */
  lemma ErrorOvertakes(limit: nat, x: Bytes, y: Bytes)
    requires x != [] && y != []
    ensures var s := ApplyAll(State([], [], [], false, false, 0, limit, [Again, Fail]), [DoPut(x), DoPut(y)]);
            s.delivered == y && s.puts == x + y && s.hasError
  {
    var s0 := State([], [], [], false, false, 0, limit, [Again, Fail]);
    var s1 := State([], x, x, false, true, 0, limit, [Fail]);
    assert [Again, Fail][1..] == [Fail] && [] + x == x;
    assert Put(s0, x) == (s1, |x|);
    OvertakingPut(s1, y, 0);
    assert s1.(replies := FailAfter(0)) == s1;
    PutKeepsPuts(s1, y);
    var s2 := Put(s1, y).0;
    hide Put;
    assert [DoPut(x), DoPut(y)][1..] == [DoPut(y)] && [DoPut(y)][1..] == [];
    assert [] + x[..0] + y == y;
    assert ApplyAll(s2, []) == s2 && ApplyAll(s1, [DoPut(y)]) == s2;
    assert ApplyAll(s0, [DoPut(x), DoPut(y)]) == s2;
  }

  lemma PutKeepsPuts(s: State, data: Bytes)
    requires !s.hasError
    ensures Put(s, data).0.puts == s.puts + data
  {
    var s1 := s.(frozen := false, puts := s.puts + data);
    FlushLoopKeeps(s1);
    PutLoopKeeps(Flush(s1), data);
  }

  /** The loop of buffered_close; waiting for the backend consumes no answer of its own. */
  function CloseLoop(s: State): State
    decreases |s.replies| + |s.buffer|
  {
    if s.hasError || s.buffer == [] then s
    else
      FlushShrinks(s);
      CloseLoop(Flush(s))
  }

  lemma {:induction false} FlushShrinks(s: State)
    requires s.buffer != []
    ensures |FlushLoop(s).replies| + |FlushLoop(s).buffer| < |s.replies| + |s.buffer|
    decreases |s.buffer|
  {
    var ret := Answer(s.replies, |s.buffer|);
    if ret > 0 {
      var s1 := s.(replies := Next(s.replies), delivered := s.delivered + s.buffer[..ret], buffer := s.buffer[ret..]);
      if s1.buffer != [] { FlushShrinks(s1); }
    }
  }

  /** Closing ends with an error or with every byte delivered. */
  lemma {:induction false} CloseDelivers(s: State)
    requires Lossless(s)
    ensures var s' := CloseLoop(s); s'.hasError || s'.delivered == s.puts
    decreases |s.replies| + |s.buffer|
  {
    if !(s.hasError || s.buffer == []) {
      FlushShrinks(s);
      FlushLoopKeeps(s);
      CloseDelivers(Flush(s));
    }
  }

  // ---------- the code ----------

  class QEMUFileBuffered {
    var hasError: bool
    var freezeOutput: bool
    var bytesXfer: nat
    var xferLimit: nat
    /** The buffer; its length is the capacity. */
    var buffer: array<Byte>
    var bufferSize: nat
    /** The backend. */
    var replies: seq<Reply>
    ghost var delivered: Bytes
    ghost var puts: Bytes

    ghost predicate Valid()
      reads this
    {
      bufferSize <= buffer.Length
    }

    ghost function Snap(): State
      requires Valid()
      reads this, buffer
    {
      State(delivered, buffer[..bufferSize], puts, hasError, freezeOutput, bytesXfer, xferLimit, replies)
    }

    constructor (bytesPerSec: nat, replies: seq<Reply>)
      ensures Valid() && fresh(buffer)
      ensures Snap() == State([], [], [], false, false, 0, bytesPerSec / 10, replies)
    {
      hasError, freezeOutput := false, false;
      bytesXfer, xferLimit := 0, bytesPerSec / 10;
      buffer := new Byte[0];
      bufferSize := 0;
      this.replies := replies;
      delivered, puts := [], [];
    }

    /** The backend's put_buffer. */
    method Backend(data: Bytes) returns (ret: int)
      modifies this`replies, this`delivered
      ensures ret == Answer(old(replies), |data|) && replies == Next(old(replies))
      ensures delivered == old(delivered) + if ret > 0 then data[..ret] else []
    {
      ret := Answer(replies, |data|);
      replies := Next(replies);
      if ret > 0 { delivered := delivered + data[..ret]; }
    }

    /** buffered_append: grows the buffer when needed and keeps what it holds. */
    method Append(data: Bytes)
      requires Valid()
      modifies this`buffer, this`bufferSize, buffer
      ensures Valid() && (buffer == old(buffer) || fresh(buffer))
      ensures buffer[..bufferSize] == old(buffer[..bufferSize]) + data
      ensures buffer.Length >= old(buffer.Length)
    {
      if |data| > buffer.Length - bufferSize {
        var tmp := new Byte[buffer.Length + |data| + 1024];
        forall k | 0 <= k < bufferSize {
          tmp[k] := buffer[k];
        }
        buffer := tmp;
      }
      forall k | 0 <= k < |data| {
        buffer[bufferSize + k] := data[k];
      }
      bufferSize := bufferSize + |data|;
    }

    /** The memmove at the end of buffered_flush: drops the first offset bytes. */
    method Discard(offset: nat)
      requires Valid() && offset <= bufferSize
      modifies this`bufferSize, buffer
      ensures Valid() && buffer[..bufferSize] == old(buffer[offset..bufferSize])
    {
      ghost var kept := buffer[offset..bufferSize];
      forall k | 0 <= k < bufferSize - offset {
        buffer[k] := buffer[offset + k];
      }
      bufferSize := bufferSize - offset;
      assert buffer[..bufferSize] == kept;
    }

    /** The loop of buffered_flush. */
    method SendBuffered() returns (offset: nat)
      requires Valid() && !hasError
      modifies this`replies, this`delivered, this`freezeOutput, this`hasError
      ensures offset <= bufferSize
      ensures FlushLoop(old(Snap())) == Snap().(buffer := buffer[offset..bufferSize])
    {
      hide FlushLoop, Answer, Next;
      offset := 0;
      ghost var all, s0 := buffer[..bufferSize], Snap();
      assert all[0..] == all;
      while offset < bufferSize
        invariant offset <= bufferSize && !hasError
        invariant FlushLoop(s0) == FlushLoop(Snap().(buffer := all[offset..]))
      {
        assert buffer[offset..bufferSize] == all[offset..];
        FlushLoopStep(Snap().(buffer := all[offset..]));
        var ret := Backend(buffer[offset..bufferSize]);
        if ret == -EAGAIN {
          freezeOutput := true;
          return;
        }
        if ret <= 0 {
          hasError := true;
          return;
        }
        SliceTwice(all, offset, ret);
        offset := offset + ret;
      }
      assert buffer[offset..bufferSize] == all[offset..] == [];
      FlushLoopEnds(Snap().(buffer := all[offset..]));
    }

    /** buffered_flush. */
    method DoFlush() returns (ghost m: nat, ghost k: nat)
      requires Valid()
      modifies this`replies, this`delivered, this`freezeOutput, this`hasError, this`bufferSize, buffer
      ensures Valid() && Snap() == Flush(old(Snap()))
      ensures if old(hasError) then Snap() == old(Snap()) else Flushed(old(Snap()), Snap(), m, k)
    {
      m, k := 0, 0;
      if hasError { return; }
      m, k := FlushLoopMeans(Snap());
      hide FlushLoop, Flushed;
      var offset := SendBuffered();
      Discard(offset);
    }

    /** The loop of buffered_put_buffer: hands bytes to the backend directly. */
    method PutDirect(data: Bytes) returns (offset: nat, failed: bool)
      requires Valid()
      modifies this`replies, this`delivered, this`freezeOutput, this`hasError, this`bytesXfer
      ensures offset <= |data| && PutLoop(old(Snap()), data) == Transfer(Snap(), data[offset..], failed)
    {
      hide PutLoop, Answer, Next;
      ghost var s0 := Snap();
      offset := 0;
      assert data[0..] == data;
      while !freezeOutput && offset < |data|
        invariant offset <= |data| && PutLoop(s0, data) == PutLoop(Snap(), data[offset..])
        decreases |data| - offset
      {
        if bytesXfer > xferLimit { break; }
        PutLoopStep(Snap(), data[offset..]);
        var n := Backend(data[offset..]);
        if n == -EAGAIN {
          freezeOutput := true;
          return offset, false;
        }
        if n <= 0 {
          hasError := true;
          return offset, true;
        }
        SliceTwice(data, offset, n);
        offset := offset + n;
        bytesXfer := bytesXfer + n;
      }
      PutLoopStops(Snap(), data[offset..]);
      failed := false;
    }

    /** buffered_put_buffer. */
    method PutBuffer(data: Bytes) returns (ret: int, ghost m: nat, ghost n: nat)
      requires Valid()
      modifies this, buffer
      ensures Valid() && (buffer == old(buffer) || fresh(buffer)) && buffer.Length >= old(buffer.Length)
      ensures (Snap(), ret) == Put(old(Snap()), data)
      ensures if old(hasError) then ret == -EINVAL && Snap() == old(Snap())
              else IsPut(old(Snap()), Snap(), ret, data, m, n)
    {
      m, n := 0, 0;
      if hasError { return -EINVAL, m, n; }
      m, n := PutDelivers(Snap(), data);
      hide IsPut, Flushed, FlushLoop, PutLoop;
      freezeOutput := false;
      puts := puts + data;
      ghost var _, _ := DoFlush();
      var offset, failed := PutDirect(data);
      if failed { return -EINVAL, m, n; }
      Append(data[offset..]);
      ret := |data|;
    }

    /** The part of buffered_rate_tick before put_ready is called. */
    method RateTick()
      requires Valid()
      modifies this, buffer
      ensures Valid() && buffer == old(buffer) && Snap() == Tick(old(Snap()))
      ensures IsTick(old(Snap()), Snap())
    {
      TickMeans(Snap());
      if hasError { return; }
      if freezeOutput { return; }
      hide IsTick, Flushed;
      bytesXfer := 0;
      ghost var _, _ := DoFlush();
    }

    /** buffered_rate_limit. */
    method RateLimit() returns (limited: bool)
      ensures limited <==> !hasError && (freezeOutput || bytesXfer > xferLimit)
    {
      if hasError { return false; }
      if freezeOutput { return true; }
      if bytesXfer > xferLimit { return true; }
      return false;
    }

    /** buffered_set_rate_limit. */
    method SetRateLimit(rate: nat) returns (limit: nat)
      requires Valid()
      modifies this`xferLimit
      ensures Valid() && Snap() == SetLimit(old(Snap()), rate)
      ensures limit == xferLimit == if hasError then old(xferLimit) else rate / 10
    {
      if !hasError {
        xferLimit := rate / 10;
      }
      return xferLimit;
    }

    /** The loop of buffered_close. */
    method Close()
      requires Valid()
      modifies this, buffer
      ensures Valid() && buffer == old(buffer) && Snap() == CloseLoop(old(Snap()))
      ensures old(Lossless(Snap())) ==> hasError || delivered == puts == old(puts)
    {
      ghost var s0 := Snap();
      if Lossless(s0) { CloseDelivers(s0); }
      while !hasError && bufferSize != 0
        invariant Valid() && buffer == old(buffer) && puts == old(puts)
        invariant CloseLoop(s0) == CloseLoop(Snap())
        decreases |replies| + bufferSize
      {
        FlushShrinks(Snap());
        FlushLoopKeeps(Snap());
        ghost var _, _ := DoFlush();
      }
    }
  }

  lemma SliceTwice(data: Bytes, offset: nat, n: nat)
    requires offset + n <= |data|
    ensures data[offset..][n..] == data[offset + n..] && data[offset..][..n] == data[offset..offset + n]
  {}

}
