/**
 The bulk phase: every step of it keeps the migration invariant and makes progress.
 */
module MigrationBulk {
  import opened DirtyBitmap
  import opened Migration
  import opened MigrationInvariant

  lemma AlignedRange(start: nat, count: nat)
    requires start % CHUNK == 0 && 0 < count <= CHUNK
    ensures ChunksOf(start, count) == {start / CHUNK}
  {
    assert LastChunk(start, count) == start / CHUNK;
  }

  /** The position of the next bulk read: never behind the bulk position, and everything that is
      skipped on the way is unallocated. */
  lemma ScanFacts(d: Dev, base: Disk)
    requires DevOk(d, base)
    ensures d.curSector <= Scan(d) <= |d.disk|
    ensures forall x :: d.curSector <= x < Scan(d) ==> d.disk[x] == base[x]
    ensures Scan(d) < |d.disk| ==>
              var start := AlignDown(Scan(d));
              && d.curSector <= start <= Scan(d) < start + Count(d, start)
              && start % CHUNK == 0 && 0 < Count(d, start) <= CHUNK
  {}

  // ---------- what a bulk step does ----------

  /** There is nothing to send at x: the base image on the other side has it. */
  predicate InBase(d: Dev, x: nat) { d.sharedBase && x !in d.alloc }

  /** The first sector from the bulk position on that has to be sent. */
  ghost predicate FirstToSend(d: Dev, x: nat) {
    d.curSector <= x < |d.disk| && !InBase(d, x) && forall y :: d.curSector <= y < x ==> InBase(d, y)
  }

  /** The chunk of sector x is read: all of it, or what the device has of it.  It is clean from then on. */
  ghost predicate ReadsChunk(s: State, s': State, i: nat, x: nat, o: ReadOutcome)
    requires i < |s.devs| && x < |s.devs[i].disk|
  {
    var d, c := s.devs[i], x / CHUNK;
    var start := CHUNK * c;
    var n := if start + CHUNK <= |d.disk| then CHUNK else |d.disk| - start;
    var d' := d.(completedSectors := x, dirty := d.dirty - {c}, curSector := start + n, bulkCompleted := start + n == |d.disk|);
    match o
    case Failed => s' == s.(devs := s.devs[i := d.(completedSectors := x)], hasError := true)
    case Done(leftover) =>
      s' == s.(devs := s.devs[i := d'], out := s.out + [DeviceBlock(i, start, d.disk[start..start + n] + leftover)])
    case Submitted =>
      && s' == s.(devs := s.devs[i := d'], flight := s'.flight, submitted := s.submitted + 1, asyncReads := s.asyncReads + 1)
      && |s'.flight| == |s.flight| + 1 && s.flight <= s'.flight
      && var f := s'.flight[|s.flight|];
         f.dev == i && f.sector == start && |f.seen| == n && forall k :: 0 <= k < n ==> f.seen[k] == {d.disk[start + k]}
  }

  /** Either nothing is left to send and the device is done, or the first chunk with something to send is read. */
  ghost predicate BulkStep(s: State, s': State, i: nat, o: ReadOutcome)
    requires i < |s.devs|
  {
    var d := s.devs[i];
    if forall x :: d.curSector <= x < |d.disk| ==> InBase(d, x) then
      s' == s.(devs := s.devs[i := d.(curSector := |d.disk|, completedSectors := |d.disk|, bulkCompleted := true)])
    else
      exists x: nat :: FirstToSend(d, x) && ReadsChunk(s, s', i, x, o)
  }

  lemma BulkStepMeans(s: State, i: nat, o: ReadOutcome)
    requires i < |s.devs| && s.devs[i].curSector <= |s.devs[i].disk|
    ensures BulkStep(s, SaveDeviceBulk(s, i, o), i, o)
  {
    var d := s.devs[i];
    var x := Scan(d);
    ScanIsFirst(d);
    if x < |d.disk| {
      ReadsChunkMeans(s, i, o);
      hide SaveDeviceBulk, ReadsChunk, Scan;
      assert FirstToSend(d, x) && ReadsChunk(s, SaveDeviceBulk(s, i, o), i, x, o);
      assert !InBase(d, x);
    }
  }

  lemma ScanIsFirst(d: Dev)
    requires d.curSector <= |d.disk|
    ensures Scan(d) < |d.disk| ==> FirstToSend(d, Scan(d))
    ensures Scan(d) >= |d.disk| ==> forall x :: d.curSector <= x < |d.disk| ==> InBase(d, x)
  {}

  lemma ReadsChunkMeans(s: State, i: nat, o: ReadOutcome)
    requires i < |s.devs| && s.devs[i].curSector <= |s.devs[i].disk| && Scan(s.devs[i]) < |s.devs[i].disk|
    ensures ReadsChunk(s, SaveDeviceBulk(s, i, o), i, Scan(s.devs[i]), o)
  {
    var d := s.devs[i];
    var x := Scan(d);
    hide Scan;
    assert AlignDown(x) == CHUNK * (x / CHUNK) && AlignDown(x) <= x < AlignDown(x) + CHUNK;
    AlignedRange(AlignDown(x), Count(d, AlignDown(x)));
    hide AlignDown;
  }

  /** A chunk the bulk phase skipped has never been sent and still reads like the base image. */
  lemma SkippedSettles(s: State, base: seq<Disk>, i: nat, c: nat, upTo: nat)
    requires Shape(s, base) && i < |base| && CHUNK * c + CHUNK <= |base[i]|
    requires s.devs[i].curSector <= CHUNK * c && CHUNK * c + CHUNK <= upTo <= Scan(s.devs[i])
    ensures Copy(Pipeline(s), i, CHUNK * c, ChunkData(base[i], c)) == ChunkData(s.devs[i].disk, c)
  {
    var d := s.devs[i];
    assert DevOk(d, base[i]);
    ScanFacts(d, base[i]);
    assert ChunkData(base[i], c) == ChunkData(d.disk, c);
    forall k | 0 <= k < |Pipeline(s)| && Pipeline(s)[k].DeviceBlock? && Pipeline(s)[k].dev == i
      ensures Pipeline(s)[k].sector < CHUNK * c
    {
      if k < |s.out| {
        assert RecordOk(s.out[k], s.devs);
      } else {
        assert RecordOk(AsRecord(s.blkList[k - |s.out|]), s.devs);
      }
    }
    CopyAbsent(Pipeline(s), i, CHUNK * c, ChunkData(base[i], c));
  }

  lemma FinishInv(s: State, base: seq<Disk>, i: nat)
    requires Inv(s, base) && i < |s.devs| && Scan(s.devs[i]) >= |s.devs[i].disk|
    ensures Inv(s.(devs := s.devs[i := Finish(s.devs[i])]), base)
  {
    var s' := s.(devs := s.devs[i := Finish(s.devs[i])]);
    assert DevOk(s.devs[i], base[i]);
    assert Shape(s', base);
    assert Pipeline(s') == Pipeline(s);
    if !s.hasError {
      forall j, c: nat | 0 <= j < |base| && CHUNK * c + CHUNK <= |base[j]|
        ensures Settled(s', base, j, c)
      {
        assert DevOk(s.devs[j], base[j]);
        assert Settled(s, base, j, c);
        assert InFlight(s, j, c) == InFlight(s', j, c) && FailedRead(s, j, c) == FailedRead(s', j, c);
        if j == i && CHUNK * c >= s.devs[i].curSector {
          SkippedSettles(s, base, i, c, |s.devs[i].disk|);
        }
      }
    }
  }

  /** The state with only the device advanced: not yet settled, because the data is still to come. */
  lemma AdvanceShape(s: State, base: seq<Disk>, i: nat)
    requires Shape(s, base) && i < |s.devs| && Scan(s.devs[i]) < |s.devs[i].disk|
    ensures var d := s.devs[i];
            var start := AlignDown(Scan(d));
            var d' := Advance(d, Scan(d), start, Count(d, start));
            DevOk(d', base[i]) && Shape(s.(devs := s.devs[i := d']), base)
  {
    var d := s.devs[i];
    assert DevOk(d, base[i]);
    ScanFacts(d, base[i]);
    var start := AlignDown(Scan(d));
    var count := Count(d, start);
    AlignedRange(start, count);
    var d' := Advance(d, Scan(d), start, count);
    var s' := s.(devs := s.devs[i := d']);
    assert DevOk(d', base[i]);
    forall k | 0 <= k < |s.flight|
      ensures FlightOk(s.flight[k], s'.devs[s.flight[k].dev])
    {
      assert FlightOk(s.flight[k], s.devs[s.flight[k].dev]);
    }
    assert forall r: Record | RecordOk(r, s.devs) :: RecordOk(r, s'.devs);
  }

  /** Every chunk but the one being read is settled by what is already in the pipeline. */
  lemma AdvanceSettles(s: State, base: seq<Disk>, i: nat, j: nat, c: nat)
    requires Inv(s, base) && !s.hasError && i < |s.devs| && Scan(s.devs[i]) < |s.devs[i].disk|
    requires j < |base| && CHUNK * c + CHUNK <= |base[j]|
    requires j == i ==> CHUNK * c != AlignDown(Scan(s.devs[i]))
    ensures var d := s.devs[i];
            var start := AlignDown(Scan(d));
            var d' := Advance(d, Scan(d), start, Count(d, start));
            var s' := s.(devs := s.devs[i := d']);
            |s'.devs[j].disk| == |base[j]| && Settled(s', base, j, c)
  {
    var d := s.devs[i];
    assert DevOk(d, base[i]) && DevOk(s.devs[j], base[j]);
    ScanFacts(d, base[i]);
    var start := AlignDown(Scan(d));
    var count := Count(d, start);
    AlignedRange(start, count);
    var s' := s.(devs := s.devs[i := Advance(d, Scan(d), start, count)]);
    assert Pipeline(s') == Pipeline(s);
    assert Settled(s, base, j, c);
    assert InFlight(s, j, c) == InFlight(s', j, c) && FailedRead(s, j, c) == FailedRead(s', j, c);
    if j == i && d.curSector <= CHUNK * c < start {
      assert CHUNK * c + CHUNK <= start;
      SkippedSettles(s, base, i, c, start);
    }
  }

  lemma SubmitInv(s: State, base: seq<Disk>, i: nat)
    requires Inv(s, base) && i < |s.devs| && Scan(s.devs[i]) < |s.devs[i].disk|
    ensures Inv(SaveDeviceBulk(s, i, Submitted), base)
  {
    var d := s.devs[i];
    var s' := SaveDeviceBulk(s, i, Submitted);
    assert DevOk(d, base[i]);
    ScanFacts(d, base[i]);
    AdvanceShape(s, base, i);
    var start := AlignDown(Scan(d));
    var n := |s.flight|;
    assert s'.flight[n].dev == i && s'.flight[n].sector == start && FlightOk(s'.flight[n], s'.devs[i]);
    forall k | 0 <= k < |s'.flight|
      ensures s'.flight[k].dev < |s'.devs| && FlightOk(s'.flight[k], s'.devs[s'.flight[k].dev])
    {
      if k < n { assert s'.flight[k] == s.flight[k]; }
    }
    assert Shape(s', base);
    if !s.hasError {
      forall j, c: nat | 0 <= j < |base| && CHUNK * c + CHUNK <= |base[j]|
        ensures Settled(s', base, j, c)
      {
        if j == i && CHUNK * c == start {
          assert InFlight(s', j, c);
        } else {
          AdvanceSettles(s, base, i, j, c);
          assert FailedRead(s, j, c) == FailedRead(s', j, c);
          if InFlight(s, j, c) {
            var k :| 0 <= k < n && s.flight[k].dev == j && s.flight[k].sector == CHUNK * c;
            assert s'.flight[k] == s.flight[k];
          }
        }
      }
    }
  }

  lemma DoneShape(s: State, base: seq<Disk>, i: nat, leftover: seq<Sector>)
    requires Inv(s, base) && i < |s.devs| && Scan(s.devs[i]) < |s.devs[i].disk|
    requires Count(s.devs[i], AlignDown(Scan(s.devs[i]))) + |leftover| == CHUNK
    ensures Shape(SaveDeviceBulk(s, i, Done(leftover)), base)
  {
    var d := s.devs[i];
    var s' := SaveDeviceBulk(s, i, Done(leftover));
    assert DevOk(d, base[i]);
    ScanFacts(d, base[i]);
    AdvanceShape(s, base, i);
    hide Scan, Count, Advance;
    assert RecordOk(s'.out[|s.out|], s'.devs);
  }

  lemma DoneSettles(s: State, base: seq<Disk>, i: nat, leftover: seq<Sector>, j: nat, c: nat)
    requires Inv(s, base) && !s.hasError && i < |s.devs| && Scan(s.devs[i]) < |s.devs[i].disk|
    requires Count(s.devs[i], AlignDown(Scan(s.devs[i]))) + |leftover| == CHUNK
    requires j < |base| && CHUNK * c + CHUNK <= |base[j]|
    ensures var s' := SaveDeviceBulk(s, i, Done(leftover)); |s'.devs[j].disk| == |base[j]| && Settled(s', base, j, c)
  {
    var d, s' := s.devs[i], SaveDeviceBulk(s, i, Done(leftover));
    var start, queue := AlignDown(Scan(d)), AsRecords(s.blkList);
    var r := s'.out[|s.out|];
    assert DevOk(d, base[i]) && DevOk(s.devs[j], base[j]);
    assert Pipeline(s') == s.out + [r] + queue;
    if j == i && CHUNK * c == start {
      forall k | 0 <= k < |queue|
        ensures !About(queue[k], j, CHUNK * c)
      {
        assert RecordOk(AsRecord(s.blkList[k]), s.devs);
      }
      CopyMiddle(s.out, r, queue, j, CHUNK * c, ChunkData(base[j], c));
      assert leftover == [] && r.data == ChunkData(d.disk, c);
    } else {
      CopySkips(s.out, r, queue, j, CHUNK * c, ChunkData(base[j], c));
      AdvanceSettles(s, base, i, j, c);
      assert InFlight(s, j, c) == InFlight(s', j, c) && FailedRead(s, j, c) == FailedRead(s', j, c);
    }
  }

  lemma DoneInv(s: State, base: seq<Disk>, i: nat, leftover: seq<Sector>)
    requires Inv(s, base) && i < |s.devs| && Scan(s.devs[i]) < |s.devs[i].disk|
    requires Count(s.devs[i], AlignDown(Scan(s.devs[i]))) + |leftover| == CHUNK
    ensures Inv(SaveDeviceBulk(s, i, Done(leftover)), base)
  {
    DoneShape(s, base, i, leftover);
    var s' := SaveDeviceBulk(s, i, Done(leftover));
    assert Counts(s') && s'.hasError == s.hasError;
    if !s.hasError {
      hide SaveDeviceBulk, Settled, Shape, Counts;
      forall j, c: nat | 0 <= j < |base| && CHUNK * c + CHUNK <= |base[j]|
        ensures |s'.devs[j].disk| == |base[j]| && Settled(s', base, j, c)
      {
        DoneSettles(s, base, i, leftover, j, c);
      }
    }
  }

  /** A refused read changes nothing but the reported position and the error flag. */
  lemma RefusedInv(s: State, base: seq<Disk>, i: nat)
    requires Inv(s, base) && i < |s.devs| && Scan(s.devs[i]) < |s.devs[i].disk|
    ensures Inv(SaveDeviceBulk(s, i, Failed), base)
  {
    var d := s.devs[i];
    assert DevOk(d, base[i]);
    var s' := SaveDeviceBulk(s, i, Failed);
    assert DevOk(s'.devs[i], base[i]);
    assert Shape(s', base);
  }

  lemma InvInRange(s: State, base: seq<Disk>)
    requires Shape(s, base)
    ensures InRange(s)
  {
    forall i | 0 <= i < |s.devs|
      ensures s.devs[i].curSector <= |s.devs[i].disk|
    {
      assert DevOk(s.devs[i], base[i]);
    }
    assert DevOk(s.devs[|s.devs| - 1], base[|s.devs| - 1]);
  }

  lemma SumBound(devs: seq<Dev>, n: nat)
    requires n <= |devs| && forall i :: 0 <= i < |devs| ==> devs[i].completedSectors <= |devs[i].disk|
    ensures CompletedSum(devs, n) <= TotalSum(devs)
    decreases |devs|
  {
    if |devs| > 0 {
      var m := |devs| - 1;
      if n == |devs| {
        SumPrefix(devs, devs[..m], m);
        SumBound(devs[..m], m);
      } else {
        SumPrefix(devs, devs[..m], n);
        SumBound(devs[..m], n);
      }
    }
  }

  lemma SumPrefix(devs: seq<Dev>, devs': seq<Dev>, n: nat)
    requires n <= |devs| && n <= |devs'| && forall i :: 0 <= i < n ==> devs[i] == devs'[i]
    ensures CompletedSum(devs, n) == CompletedSum(devs', n)
  {
    if n > 0 { SumPrefix(devs, devs', n - 1); }
  }

  /** The reported percentage stays between 0 and 100. */
  lemma PercentBounds(s: State, base: seq<Disk>, i: nat)
    requires Shape(s, base) && i <= |s.devs| && 0 < TotalSum(s.devs)
    ensures 0 <= Percent(s.devs, i) <= 100
  {
    forall k | 0 <= k < |s.devs|
      ensures s.devs[k].completedSectors <= |s.devs[k].disk|
    {
      assert DevOk(s.devs[k], base[k]);
    }
    var n := if i < |s.devs| then i + 1 else i;
    SumBound(s.devs, n);
    Ratio(CompletedSum(s.devs, n), TotalSum(s.devs));
  }

  lemma Ratio(a: nat, b: nat)
    requires 0 < b && a <= b
    ensures 0 <= a * 100 / b <= 100
  {
    if a * 100 / b > 100 { Times(101, a * 100 / b, b); }
  }

  lemma Times(x: nat, y: nat, b: nat)
    requires x <= y
    ensures x * b <= y * b
  {}

  /** blk_mig_save_bulked_block keeps the invariant, whatever the driver answers. */
  lemma BulkInv(s: State, base: seq<Disk>, o: ReadOutcome)
    requires Inv(s, base) && Possible(s, Bulk(o))
    ensures Inv(SaveBulked(s, o), base)
  {
    var i := Pending(s.devs, 0);
    var s' := BulkCore(s, o);
    if i < |s.devs| {
      if Scan(s.devs[i]) >= |s.devs[i].disk| {
        FinishInv(s, base, i);
      } else if o.Submitted? {
        SubmitInv(s, base, i);
      } else if o.Done? {
        DoneInv(s, base, i, o.leftover);
      } else {
        RefusedInv(s, base, i);
      }
    }
    TotalSumUnchanged(s.devs, s'.devs);
    var p := Percent(s'.devs, i);
    PercentBounds(s', base, i);
    if p != s'.prevProgress { PlainRecordInv(s', base, Progress(p), p); }
  }

  // ---------- progress ----------

  /** Without an error the reported position of a device is never ahead of its bulk position. */
  predicate Paced(s: State) {
    s.hasError || forall i :: 0 <= i < |s.devs| ==> s.devs[i].completedSectors <= s.devs[i].curSector
  }

  /** With a read that works, a bulk step moves the bulk position of its device strictly forward in
      spite of the alignment, or ends the bulk phase of that device; the reported position never
      goes back. */
  lemma BulkProgress(s: State, base: seq<Disk>, o: ReadOutcome)
    requires Shape(s, base) && Paced(s) && !s.hasError && Possible(s, Bulk(o)) && !o.Failed?
    requires Pending(s.devs, 0) < |s.devs|
    ensures var i := Pending(s.devs, 0);
            var d, d' := s.devs[i], SaveBulked(s, o).devs[i];
            && (d.curSector < d'.curSector || (d'.bulkCompleted && d'.curSector == |d.disk|))
            && d.completedSectors <= d'.completedSectors <= |d'.disk|
  {
    var i := Pending(s.devs, 0);
    assert DevOk(s.devs[i], base[i]);
    ScanFacts(s.devs[i], base[i]);
    assert SaveBulked(s, o).devs == BulkCore(s, o).devs;
  }

  lemma BulkPaced(s: State, base: seq<Disk>, o: ReadOutcome)
    requires Shape(s, base) && Paced(s) && Possible(s, Bulk(o))
    ensures Paced(SaveBulked(s, o))
  {
    var i := Pending(s.devs, 0);
    if i < |s.devs| {
      assert DevOk(s.devs[i], base[i]);
      ScanFacts(s.devs[i], base[i]);
    }
    assert SaveBulked(s, o).devs == BulkCore(s, o).devs;
  }
}
