/**
 The migration code itself: the global block_mig_state as an object whose methods update its
 fields, each tied to the step it performs on the abstract state.
 */
module MigrationEngine {
  import opened DirtyBitmap
  import opened Migration
  import opened MigrationInvariant
  import opened MigrationBulk
  import opened MigrationRuns
  import opened MigrationEnd

  const BLOCK_SIZE := CHUNK * SECTOR_SIZE

  /** What the driver reports for an allocation query: at least one sector, all of them allocated or
      all of them not. */
  ghost predicate GoodRuns(d: Dev, run: nat -> nat) {
    forall x :: 0 <= x < |d.disk| ==>
      1 <= run(x) && forall k :: x <= k < x + run(x) && k < |d.disk| ==> (k in d.alloc <==> x in d.alloc)
  }

  lemma {:induction false} FirstAllocatedUnique(alloc: set<nat>, cur: nat, total: nat, r: nat)
    requires cur <= r <= total && (r < total ==> r in alloc)
    requires forall x :: cur <= x < r ==> x !in alloc
    ensures FirstAllocated(alloc, cur, total) == r
    decreases total - cur
  {
    if cur < r { FirstAllocatedUnique(alloc, cur + 1, total, r); }
  }

  /** The driver's answer to a bulk read.  junk is what the malloc'ed buffer happens to hold. */
  function Answer(d: Dev, isAsync: bool, refused: bool, junk: seq<Sector>): ReadOutcome
    requires d.curSector <= |d.disk| && |junk| == CHUNK
  {
    if refused then Failed else if isAsync then Submitted
    else if Scan(d) < |d.disk| then Done(junk[Count(d, AlignDown(Scan(d)))..])
    else Done([])
  }

  /** The flush loop: limited holds the rate limiter's answers, which is open once they run out. */
  function FlushWhile(s: State, limited: seq<bool>): State
    decreases |s.blkList|
  {
    if s.blkList == [] || (limited != [] && limited[0]) then s
    else if s.blkList[0].ret < 0 then FlushOne(s)
    else FlushWhile(FlushOne(s), Later(limited))
  }

  /** The rate limiter lets iteration k through. */
  predicate Open(limited: seq<bool>, k: nat) { k >= |limited| || !limited[k] }

  predicate NeverLimited(limited: seq<bool>) { forall k :: 0 <= k < |limited| ==> !limited[k] }

  predicate NeverRefused(refusals: seq<bool>) { forall k :: 0 <= k < |refusals| ==> !refusals[k] }

  /** No queued read has failed. */
  predicate NoneFailed(blks: seq<Blk>) { forall k :: 0 <= k < |blks| ==> blks[k].ret >= 0 }

  /** What a flush is for: the first n queued reads, none of which has failed, are sent in order and
      leave the queue.  It stops there because the queue is empty, because the rate limiter bites, or
      because the next read has failed, and the last of these is an error. */
  ghost predicate Flushed(s: State, s': State, limited: seq<bool>, n: nat) {
    && n <= |s.blkList| && s'.blkList == s.blkList[n..]
    && |s'.out| == |s.out| + n && s.out <= s'.out
    && (forall k :: 0 <= k < n ==>
          var b := s.blkList[k]; s'.out[|s.out| + k] == DeviceBlock(b.dev, b.sector, b.buf))
    && s'.readDone == s.readDone - n && s'.transferred == s.transferred + n
    && (forall k :: 0 <= k < n ==> s.blkList[k].ret >= 0 && Open(limited, k))
    && (n < |s.blkList| && Open(limited, n) ==> s.blkList[n].ret < 0)
    && s'.hasError == (s.hasError || (n < |s.blkList| && Open(limited, n)))
    && s'.devs == s.devs && s'.flight == s.flight && s'.submitted == s.submitted
    && s'.prevProgress == s.prevProgress && s'.asyncReads == s.asyncReads
  }

  function Later(limited: seq<bool>): (r: seq<bool>)
    ensures forall k: nat :: Open(r, k) == Open(limited, k + 1)
  {
    if limited == [] then [] else limited[1..]
  }

  lemma FlushUnfolds(s: State, limited: seq<bool>)
    ensures FlushWhile(s, limited) ==
      if s.blkList == [] || (limited != [] && limited[0]) then s
      else if s.blkList[0].ret < 0 then FlushOne(s)
      else FlushWhile(FlushOne(s), Later(limited))
  {}

  /** The flush loop does that. */
  lemma {:induction false} FlushSends(s: State, limited: seq<bool>) returns (n: nat)
    ensures Flushed(s, FlushWhile(s, limited), limited, n)
    decreases |s.blkList|
  {
    n := 0;
    if s.blkList != [] && Open(limited, 0) && s.blkList[0].ret >= 0 {
      var m := FlushSends(FlushOne(s), Later(limited));
      n := m + 1;
      FlushedMore(s, FlushWhile(s, limited), limited, m);
    }
  }

  lemma FlushedMore(s: State, s': State, limited: seq<bool>, m: nat)
    requires s.blkList != [] && Open(limited, 0) && s.blkList[0].ret >= 0
    requires Flushed(FlushOne(s), s', Later(limited), m)
    ensures Flushed(s, s', limited, m + 1)
  {
    var blks, rest := s.blkList, s.blkList[1..];
    assert forall k :: 0 <= k < |rest| ==> rest[k] == blks[k + 1];
    assert rest[m..] == blks[m + 1..];
    forall k | 0 <= k < m + 1
      ensures blks[k].ret >= 0 && Open(limited, k)
      ensures s'.out[|s.out| + k] == DeviceBlock(blks[k].dev, blks[k].sector, blks[k].buf)
    {
      if k > 0 { assert rest[k - 1] == blks[k] && Open(Later(limited), k - 1) == Open(limited, k); }
    }
    assert Open(Later(limited), m) == Open(limited, m + 1);
  }

  /** So a flush that is never limited empties the queue or meets a failed read. */
  lemma FlushEmpties(s: State, s': State, limited: seq<bool>, n: nat)
    requires Flushed(s, s', limited, n)
    ensures NeverLimited(limited) && !s'.hasError ==> n == |s.blkList| && s'.blkList == [] && NoneFailed(s.blkList)
    ensures NoneFailed(s.blkList) ==> s'.hasError == s.hasError && NoneFailed(s'.blkList)
  {
    assert forall k :: 0 <= k < |s'.blkList| ==> s'.blkList[k] == s.blkList[n + k];
  }

  /** A bulk step on one device leaves the others and all data alone; only an accepted asynchronous
      read adds to what is outstanding. */
  lemma DeviceBulkFrame(s: State, i: nat, o: ReadOutcome)
    requires i < |s.devs| && s.devs[i].curSector <= |s.devs[i].disk|
    ensures var s' := SaveDeviceBulk(s, i, o);
            && |s'.devs| == |s.devs|
            && s'.devs[i].disk == s.devs[i].disk && s'.devs[i].alloc == s.devs[i].alloc
            && (forall j :: 0 <= j < |s.devs| && j != i ==> s'.devs[j] == s.devs[j])
            && s'.prevProgress == s.prevProgress && s'.blkList == s.blkList
            && (!o.Submitted? ==> s'.flight == s.flight && s'.submitted == s.submitted)
            && (!o.Failed? ==> s'.hasError == s.hasError) && s'.transferred == s.transferred
  {}

  /** The same for a step of the whole bulk phase, progress report included. */
  lemma BulkFrame(s: State, o: ReadOutcome)
    requires InRange(s)
    ensures var s', core := SaveBulked(s, o), BulkCore(s, o);
            && s'.devs == core.devs && s'.blkList == s.blkList && SameDisks(s.devs, s'.devs)
            && (!o.Submitted? || Pending(s.devs, 0) == |s.devs| ==> s'.flight == s.flight && s'.submitted == s.submitted)
            && (!o.Failed? || Pending(s.devs, 0) == |s.devs| ==> s'.hasError == s.hasError)
            && (AllBulked(s) ==> AllBulked(s') && Pending(s.devs, 0) == |s.devs|)
            && (Pending(s.devs, 0) == |s.devs| ==> AllBulked(s'))
            && s'.transferred == s.transferred
  {
    hide SaveDeviceBulk;
    var i := Pending(s.devs, 0);
    if i < |s.devs| { DeviceBulkFrame(s, i, o); }
    TotalSumUnchanged(s.devs, BulkCore(s, o).devs);
  }

  lemma BulkSizes(s: State, o: ReadOutcome)
    requires InRange(s)
    ensures var core := BulkCore(s, o);
      |core.devs| == |s.devs| && core.prevProgress == s.prevProgress &&
      forall i :: 0 <= i < |s.devs| ==> |core.devs[i].disk| == |s.devs[i].disk|
  {}

  /** now is what SaveDeviceBulk makes of was, except that the verdict is returned and not yet stored. */
  ghost predicate WithoutVerdict(now: State, was: State, i: nat, o: ReadOutcome, over: bool)
    requires i < |was.devs| && was.devs[i].curSector <= |was.devs[i].disk|
  {
    var s' := SaveDeviceBulk(was, i, o);
    && over == s'.devs[i].bulkCompleted
    && now == s'.(devs := s'.devs[i := s'.devs[i].(bulkCompleted := false)])
  }

  class BlockMigration {
    var bmdsList: seq<Dev>
    var blkList: seq<Blk>
    var submitted: int
    var readDone: int
    var transferred: int
    var totalSectorSum: nat
    var prevProgress: int
    /** The outgoing file: what has been put, and its error flag. */
    var out: seq<Record>
    var fileError: bool
    /** The driver's outstanding reads. */
    var flight: seq<Flight>
    ghost var asyncReads: nat

    ghost function Snap(): State
      reads this
    {
      State(bmdsList, flight, blkList, submitted, readDone, transferred, out, fileError, prevProgress, asyncReads)
    }

    /** init_blk_migration and the start of dirty tracking.  A bitmap left over from an earlier
        migration is kept, so the dirty sets are arbitrary. */
    constructor (disks: seq<Disk>, dirty: seq<set<nat>>, alloc: seq<set<nat>>, sharedBase: bool)
      requires |disks| == |dirty| == |alloc|
      ensures Snap() == Init(disks, dirty, alloc, sharedBase) && totalSectorSum == TotalSum(bmdsList)
      ensures |bmdsList| == |disks| &&
        forall i :: 0 <= i < |disks| ==> bmdsList[i] == Dev(disks[i], dirty[i], alloc[i], sharedBase, false, 0, 0)
      ensures blkList == [] && flight == [] && out == [] && !fileError && prevProgress == -1
      ensures submitted == readDone == transferred == 0
    {
      bmdsList := seq(|disks|, i requires 0 <= i < |disks| => Dev(disks[i], dirty[i], alloc[i], sharedBase, false, 0, 0));
      blkList, out, flight := [], [], [];
      submitted, readDone, transferred, prevProgress := 0, 0, 0, -1;
      fileError := false;
      asyncReads := 0;
      totalSectorSum := 0;
      new;
      var i := 0;
      while i < |disks|
        invariant 0 <= i <= |disks| == |bmdsList| && totalSectorSum == TotalSum(bmdsList[..i])
        invariant Snap() == Init(disks, dirty, alloc, sharedBase)
      {
        totalSectorSum := totalSectorSum + |disks[i]|;
        i := i + 1;
        assert bmdsList[..i][..i - 1] == bmdsList[..i - 1];
      }
      assert bmdsList[..i] == bmdsList;
    }

    /** blk_mig_read_cb. */
    method ReadCb(k: nat, buf: seq<Sector>, ret: int)
      requires k < |flight|
      modifies this
      ensures Snap() == ReadCallback(old(Snap()), k, buf, ret) && totalSectorSum == old(totalSectorSum)
      ensures blkList == old(blkList) + [Blk(old(flight[k]).dev, old(flight[k]).sector, buf, ret)]
      ensures flight == old(flight[..k] + flight[k + 1..])
      ensures submitted == old(submitted) - 1 && readDone == old(readDone) + 1 && transferred == old(transferred)
      ensures bmdsList == old(bmdsList) && out == old(out) && fileError == old(fileError)
    {
      var f := flight[k];
      flight := flight[..k] + flight[k + 1..];
      blkList := blkList + [Blk(f.dev, f.sector, buf, ret)];
      submitted := submitted - 1;
      readDone := readDone + 1;
    }

    /** A guest write between two migration steps. */
    method Write(dev: nat, sector: nat, data: seq<Sector>, grown: set<nat>)
      requires dev < |bmdsList| && sector + |data| <= |bmdsList[dev].disk|
      modifies this
      ensures Snap() == GuestWrite(old(Snap()), dev, sector, data, grown) && totalSectorSum == old(totalSectorSum)
      ensures |bmdsList| == |old(bmdsList)| &&
        forall i :: 0 <= i < |bmdsList| && i != dev ==> bmdsList[i] == old(bmdsList)[i]
      ensures var d, d' := old(bmdsList)[dev], bmdsList[dev];
        && d' == d.(disk := d'.disk, dirty := d'.dirty, alloc := d.alloc + grown) && |d'.disk| == |d.disk|
        && (forall x :: 0 <= x < |d.disk| ==>
              d'.disk[x] == if sector <= x < sector + |data| then data[x - sector] else d.disk[x])
        && d'.dirty == d.dirty + ChunksOf(sector, |data|)
    {
      var d := bmdsList[dev];
      bmdsList := bmdsList[dev := d.(disk := Overwrite(d.disk, sector, data),
                                     dirty := d.dirty + ChunksOf(sector, |data|), alloc := d.alloc + grown)];
      flight := seq(|flight|, k requires 0 <= k < |flight| reads this => Observe(flight[k], dev, sector, data));
    }

    /** blk_send. */
    method BlkSend(dev: nat, sector: nat, data: seq<Sector>)
      modifies this`out
      ensures out == old(out) + [DeviceBlock(dev, sector, data)]
    {
      out := out + [DeviceBlock(dev, sector, data)];
    }

    /** The scan over a shared base: steps over runs of unallocated sectors as the driver reports them. */
    static method SkipUnallocated(d: Dev, run: nat -> nat) returns (cur: nat)
      requires d.sharedBase && d.curSector <= |d.disk| && GoodRuns(d, run)
      ensures if cur < |d.disk| then cur == Scan(d) else Scan(d) == |d.disk|
    {
      var total := |d.disk|;
      cur := d.curSector;
      while cur < total && cur !in d.alloc
        invariant d.curSector <= cur
        invariant forall x :: d.curSector <= x < cur && x < total ==> x !in d.alloc
        decreases total - cur
      {
        cur := cur + run(cur);
      }
      FirstAllocatedUnique(d.alloc, d.curSector, total, if cur < total then cur else total);
    }

    /** bdrv_aio_readv accepted: the read is outstanding from now on. */
    method SubmitRead(i: nat, disk: Disk, start: nat, count: nat)
      requires start + count <= |disk|
      modifies this`flight, this`submitted, this`asyncReads
      ensures flight == old(flight) + [Flight(i, start, seq(count, k requires 0 <= k < count => {disk[start + k]}))]
      ensures submitted == old(submitted) + 1 && asyncReads == old(asyncReads) + 1
    {
      flight := flight + [Flight(i, start, seq(count, k requires 0 <= k < count => {disk[start + k]}))];
      submitted := submitted + 1;
      asyncReads := asyncReads + 1;
    }

    /** The second half of mig_save_device_bulk: reads and hands on the chunk that holds sector scan. */
    method ReadChunk(i: nat, scan: nat, isAsync: bool, refused: bool, junk: seq<Sector>) returns (over: bool)
      requires i < |bmdsList| && bmdsList[i].curSector <= |bmdsList[i].disk| && |junk| == CHUNK
      requires scan == Scan(bmdsList[i]) < |bmdsList[i].disk| && !bmdsList[i].bulkCompleted
      modifies this`bmdsList, this`flight, this`submitted, this`asyncReads, this`fileError, this`out
      ensures WithoutVerdict(Snap(), old(Snap()), i, Answer(old(bmdsList[i]), isAsync, refused, junk), over)
    {
      hide Scan, ChunksOf;
      var d := bmdsList[i];
      var total, cur := |d.disk|, scan;
      bmdsList := bmdsList[i := d.(completedSectors := cur)];
      cur := cur - cur % CHUNK;
      var count := CHUNK;
      if total - cur < CHUNK {
        count := total - cur;
      }
      if refused {
        fileError := true;
        return false;
      }
      if isAsync {
        SubmitRead(i, d.disk, cur, count);
      } else {
        BlkSend(i, cur, d.disk[cur..cur + count] + junk[count..]);
      }
      d := bmdsList[i];
      bmdsList := bmdsList[i := d.(dirty := d.dirty - ChunksOf(cur, count), curSector := cur + count)];
      return cur + count >= total;
    }

    /** mig_save_device_bulk: reports whether the bulk phase of the device is over; the caller
        records that. */
    method SaveDevice(i: nat, isAsync: bool, refused: bool, junk: seq<Sector>, run: nat -> nat) returns (over: bool)
      requires i < |bmdsList| && bmdsList[i].curSector <= |bmdsList[i].disk| && |junk| == CHUNK
      requires GoodRuns(bmdsList[i], run) && !bmdsList[i].bulkCompleted
      modifies this`bmdsList, this`flight, this`submitted, this`asyncReads, this`fileError, this`out
      ensures WithoutVerdict(Snap(), old(Snap()), i, Answer(old(bmdsList[i]), isAsync, refused, junk), over)
    {
      var d := bmdsList[i];
      var cur := d.curSector;
      if d.sharedBase {
        cur := SkipUnallocated(d, run);
      }
      if cur >= |d.disk| {
        bmdsList := bmdsList[i := d.(curSector := |d.disk|, completedSectors := |d.disk|)];
        return true;
      }
      over := ReadChunk(i, cur, isAsync, refused, junk);
    }

    /** The bulk step on one device, and the caller's note that its bulk phase is over. */
    method BulkDevice(i: nat, isAsync: bool, refused: bool, junk: seq<Sector>, run: nat -> nat)
      requires i < |bmdsList| && bmdsList[i].curSector <= |bmdsList[i].disk| && |junk| == CHUNK
      requires GoodRuns(bmdsList[i], run) && !bmdsList[i].bulkCompleted
      modifies this`bmdsList, this`flight, this`submitted, this`asyncReads, this`fileError, this`out
      ensures Snap() == SaveDeviceBulk(old(Snap()), i, Answer(old(bmdsList[i]), isAsync, refused, junk))
      ensures BulkStep(old(Snap()), Snap(), i, Answer(old(bmdsList[i]), isAsync, refused, junk))
    {
      hide SaveDeviceBulk, Answer, GoodRuns, BulkStep;
      DeviceBulkFrame(Snap(), i, Answer(bmdsList[i], isAsync, refused, junk));
      BulkStepMeans(Snap(), i, Answer(bmdsList[i], isAsync, refused, junk));
      var over := SaveDevice(i, isAsync, refused, junk, run);
      if over {
        bmdsList := bmdsList[i := bmdsList[i].(bulkCompleted := true)];
      }
    }

    /** The loop of blk_mig_save_bulked_block: one step on the first device that is not done.  sum is
        what the devices up to it have completed. */
    method BulkFirst(isAsync: bool, refused: bool, junk: seq<Sector>, run: (nat, nat) -> nat)
      returns (ret: bool, sum: nat)
      requires InRange(Snap()) && |junk| == CHUNK
      requires forall i :: 0 <= i < |bmdsList| ==> GoodRuns(bmdsList[i], x => run(i, x))
      modifies this`bmdsList, this`flight, this`submitted, this`asyncReads, this`fileError, this`out
      ensures ret <==> Pending(old(bmdsList), 0) < |old(bmdsList)|
      ensures Snap() == BulkCore(old(Snap()), NextAnswer(old(Snap()), isAsync, refused, junk))
      ensures var i := Pending(old(bmdsList), 0);
        i <= |bmdsList| == |old(bmdsList)| && sum == CompletedSum(bmdsList, if ret then i + 1 else i)
    {
      hide SaveDeviceBulk, Answer, GoodRuns;
      ghost var s0 := Snap();
      var i: nat := 0;
      sum, ret := 0, false;
      while i < |bmdsList|
        invariant 0 <= i <= |bmdsList| && Snap() == s0 && !ret
        invariant sum == CompletedSum(bmdsList, i)
        invariant Pending(bmdsList, 0) == Pending(bmdsList, i)
      {
        if !bmdsList[i].bulkCompleted {
          assert GoodRuns(bmdsList[i], x => run(i, x));
          DeviceBulkFrame(s0, i, Answer(bmdsList[i], isAsync, refused, junk));
          BulkDevice(i, isAsync, refused, junk, x => run(i, x));
          SumPrefix(s0.devs, bmdsList, i);
          sum := sum + bmdsList[i].completedSectors;
          return true, sum;
        } else {
          sum := sum + bmdsList[i].completedSectors;
        }
        i := i + 1;
      }
    }

    /** blk_mig_save_bulked_block. */
    method SaveBulkedBlock(isAsync: bool, refused: bool, junk: seq<Sector>, run: (nat, nat) -> nat)
      returns (ret: bool)
      requires InRange(Snap()) && |junk| == CHUNK && totalSectorSum == TotalSum(bmdsList)
      requires forall i :: 0 <= i < |bmdsList| ==> GoodRuns(bmdsList[i], x => run(i, x))
      modifies this
      ensures ret <==> Pending(old(bmdsList), 0) < |old(bmdsList)|
      ensures Snap() == SaveBulked(old(Snap()), NextAnswer(old(Snap()), isAsync, refused, junk))
      ensures totalSectorSum == old(totalSectorSum)
      ensures var core := BulkCore(old(Snap()), NextAnswer(old(Snap()), isAsync, refused, junk));
        out == core.out + if prevProgress == old(prevProgress) then [] else [Progress(prevProgress)]
    {
      hide SaveDeviceBulk, NextAnswer, GoodRuns, BulkCore;
      ghost var s0 := Snap();
      ghost var o := NextAnswer(s0, isAsync, refused, junk);
      BulkFrame(s0, o);
      BulkSizes(s0, o);
      var sum;
      ret, sum := BulkFirst(isAsync, refused, junk, run);
      TotalSumUnchanged(s0.devs, bmdsList);
      var progress := sum * 100 / totalSectorSum;
      if progress != prevProgress {
        prevProgress := progress;
        out := out + [Progress(progress)];
      }
    }

    /** flush_blks. */
    method FlushBlks(limited: seq<bool>) returns (ghost sent: nat)
      modifies this`blkList, this`out, this`readDone, this`transferred, this`fileError
      ensures Flushed(old(Snap()), Snap(), limited, sent)
      ensures Snap() == FlushWhile(old(Snap()), limited)
    {
      sent := FlushSends(Snap(), limited);
      hide Flushed, FlushWhile, Later;
      var rest := limited;
      while blkList != []
        invariant FlushWhile(old(Snap()), limited) == FlushWhile(Snap(), rest)
        decreases |blkList|
      {
        FlushUnfolds(Snap(), rest);
        if rest != [] && rest[0] { break; }
        var blk := blkList[0];
        if blk.ret < 0 {
          fileError := true;
          return;
        }
        BlkSend(blk.dev, blk.sector, blk.buf);
        blkList := blkList[1..];
        readDone := readDone - 1;
        transferred := transferred + 1;
        rest := Later(rest);
      }
      FlushUnfolds(Snap(), rest);
    }

    /** blk_mig_save_dirty_blocks. */
    method SaveDirtyBlocks(bad: set<(nat, nat)>) returns (ghost sent: seq<Record>)
      modifies this`bmdsList, this`out, this`fileError
      ensures Snap() == DirtyPass(old(Snap()), 0, bad).s
      ensures old(InRange(Snap())) && !old(fileError) ==>
                out == old(out) + sent && PassSends(0, old(bmdsList), bmdsList, !fileError, bad, sent)
    {
      sent := SentInPass(Snap(), bad);
      hide PassSends, InRange;
      var i := 0;
      while i < |bmdsList|
        invariant 0 <= i <= |bmdsList|
        invariant DirtyPass(old(Snap()), 0, bad) == DirtyPass(Snap(), i, bad)
      {
        ghost var s0 := Snap();
        ghost var p := DirtyDevice(s0, i, 0, bad);
        DirtyDeviceFrame(s0, i, 0, bad);
        var sector: nat := 0;
        while sector < bmdsList[i].curSector
          invariant |bmdsList| == |s0.devs| && p == DirtyDevice(Snap(), i, sector, bad)
          invariant bmdsList[i].curSector == s0.devs[i].curSector && bmdsList[i].disk == s0.devs[i].disk
          decreases bmdsList[i].curSector - sector
        {
          var d := bmdsList[i];
          if sector < |d.disk| && ChunkOf(sector) in d.dirty {
            if sector + CHUNK > |d.disk| || (i, sector) in bad {
              fileError := true;
              return;
            }
            BlkSend(i, sector, d.disk[sector..sector + CHUNK]);
            bmdsList := bmdsList[i := d.(dirty := d.dirty - ChunksOf(sector, CHUNK))];
          }
          sector := sector + CHUNK;
        }
        i := i + 1;
      }
    }

    /** is_stage2_completed. */
    method Stage2Completed() returns (done: bool)
      ensures done == IsStage2Completed(Snap())
    {
      if submitted > 0 { return false; }
      var i := 0;
      while i < |bmdsList|
        invariant 0 <= i <= |bmdsList|
        invariant forall j :: 0 <= j < i ==> bmdsList[j].bulkCompleted
      {
        if !bmdsList[i].bulkCompleted { return false; }
        i := i + 1;
      }
      return true;
    }

    // ---------- block_save_live ----------

    /** One round of the bulk loops, as a step of the run that began at s0. */
    method BulkRound(isAsync: bool, refused: bool, junk: seq<Sector>, run: (nat, nat) -> nat,
                     ghost s0: State, ghost events: seq<Event>, ghost base: seq<Disk>)
      returns (more: bool, ghost longer: seq<Event>)
      requires Inv(Snap(), base) && |junk| == CHUNK && totalSectorSum == TotalSum(bmdsList)
      requires Reaches(s0, events, Snap()) && SameDisks(s0.devs, bmdsList)
      requires forall i :: 0 <= i < |s0.devs| ==> GoodRuns(s0.devs[i], x => run(i, x))
      modifies this
      ensures Inv(Snap(), base) && Reaches(s0, longer, Snap()) && SameDisks(s0.devs, bmdsList)
      ensures totalSectorSum == old(totalSectorSum) == TotalSum(bmdsList)
      ensures if more then Work(bmdsList) <= old(Work(bmdsList)) && (!refused ==> Work(bmdsList) < old(Work(bmdsList)))
              else AllBulked(Snap())
      ensures blkList == old(blkList) && transferred == old(transferred) && (!refused ==> fileError == old(fileError))
      ensures !isAsync || old(AllBulked(Snap())) ==> flight == old(flight) && submitted == old(submitted)
      ensures old(AllBulked(Snap())) ==> AllBulked(Snap())
    {
      hide Inv, Work, SaveBulked, NextAnswer, Possible, GoodRuns, SameDisks, AllBulked;
      ghost var s := Snap();
      InvParts(s, base);
      RunsKept(s0.devs, bmdsList, run);
      ghost var o := NextAnswer(s, isAsync, refused, junk);
      NextAnswerFacts(s, isAsync, refused, junk);
      more := SaveBulkedBlock(isAsync, refused, junk, run);
      longer := BulkEvent(s0, events, s, o, base);
      BulkFrame(s, o);
      SameDisksLaws(s0.devs, s.devs, bmdsList);
      if more { BulkWork(s, base, o); }
    }

    /** The loop that controls the rate of transfer: bulk reads are issued while the reads outstanding
        and queued stay below the limit.  refusals are the driver's answers, favourable once they
        run out. */
    method BulkWhileBelow(rateLimit: nat, refusals: seq<bool>, junk: seq<Sector>, run: (nat, nat) -> nat,
                          ghost base: seq<Disk>)
      returns (ghost events: seq<Event>)
      requires Inv(Snap(), base) && |junk| == CHUNK && totalSectorSum == TotalSum(bmdsList)
      requires forall i :: 0 <= i < |bmdsList| ==> GoodRuns(bmdsList[i], x => run(i, x))
      modifies this
      ensures Inv(Snap(), base) && Reaches(old(Snap()), events, Snap()) && SameDisks(old(bmdsList), bmdsList)
      ensures totalSectorSum == old(totalSectorSum)
      ensures AllBulked(Snap()) || (submitted + readDone) * BLOCK_SIZE >= rateLimit
      ensures blkList == old(blkList) && (old(AllBulked(Snap())) ==> AllBulked(Snap()) && flight == old(flight))
      ensures transferred == old(transferred)
      ensures NeverRefused(refusals) ==> fileError == old(fileError)
    {
      hide Inv, Work, GoodRuns, SameDisks, AllBulked;
      SameDisksLaws(bmdsList, bmdsList, bmdsList);
      events := [];
      var rest := refusals;
      while (submitted + readDone) * BLOCK_SIZE < rateLimit
        invariant Inv(Snap(), base) && Reaches(old(Snap()), events, Snap()) && SameDisks(old(bmdsList), bmdsList)
        invariant totalSectorSum == old(totalSectorSum) == TotalSum(bmdsList)
        invariant transferred == old(transferred)
        invariant blkList == old(blkList) && (old(AllBulked(Snap())) ==> AllBulked(Snap()) && flight == old(flight))
        invariant NeverRefused(refusals) ==> NeverRefused(rest) && fileError == old(fileError)
        decreases Work(bmdsList) + |rest|
      {
        var more;
        more, events := BulkRound(true, rest != [] && rest[0], junk, run, old(Snap()), events, base);
        if !more { break; }
        rest := if rest == [] then [] else rest[1..];
      }
    }

    /** The loop of the last stage that finishes the bulk phase with synchronous reads. */
    method BulkToTheEnd(refusals: seq<bool>, junk: seq<Sector>, run: (nat, nat) -> nat, ghost base: seq<Disk>)
      returns (ghost events: seq<Event>)
      requires Inv(Snap(), base) && |junk| == CHUNK && totalSectorSum == TotalSum(bmdsList)
      requires forall i :: 0 <= i < |bmdsList| ==> GoodRuns(bmdsList[i], x => run(i, x))
      modifies this
      ensures Inv(Snap(), base) && Reaches(old(Snap()), events, Snap()) && SameDisks(old(bmdsList), bmdsList)
      ensures forall i :: 0 <= i < |bmdsList| ==> bmdsList[i].bulkCompleted
      ensures flight == old(flight) && blkList == old(blkList) && submitted == old(submitted)
      ensures NeverRefused(refusals) ==> fileError == old(fileError)
    {
      hide Inv, Work, GoodRuns, SameDisks;
      SameDisksLaws(bmdsList, bmdsList, bmdsList);
      events := [];
      var rest := refusals;
      while true
        invariant Inv(Snap(), base) && Reaches(old(Snap()), events, Snap()) && SameDisks(old(bmdsList), bmdsList)
        invariant totalSectorSum == old(totalSectorSum) == TotalSum(bmdsList)
        invariant flight == old(flight) && blkList == old(blkList) && submitted == old(submitted)
        invariant NeverRefused(refusals) ==> NeverRefused(rest) && fileError == old(fileError)
        decreases Work(bmdsList) + |rest|
      {
        var more;
        more, events := BulkRound(false, rest != [] && rest[0], junk, run, old(Snap()), events, base);
        if !more { return; }
        rest := if rest == [] then [] else rest[1..];
      }
    }

    /** blk_mig_cleanup: whatever is still queued is dropped. */
    method Cleanup()
      modifies this`bmdsList, this`blkList
      ensures bmdsList == [] && blkList == []
    {
      bmdsList := [];
      blkList := [];
    }

    /** The part all stages share: flush, bulk reads up to the rate limit, flush again. */
    method FlushBulkFlush(env: Env, run: (nat, nat) -> nat, ghost base: seq<Disk>)
      returns (ghost events: seq<Event>)
      requires Inv(Snap(), base) && |env.junk| == CHUNK && totalSectorSum == TotalSum(bmdsList)
      requires forall i :: 0 <= i < |bmdsList| ==> GoodRuns(bmdsList[i], x => run(i, x))
      modifies this
      ensures Inv(Snap(), base) && Reaches(old(Snap()), events, Snap()) && SameDisks(old(bmdsList), bmdsList)
      ensures totalSectorSum == old(totalSectorSum)
      ensures !fileError && (NeverLimited(env.limitedFirst) || NeverLimited(env.limitedSecond)) ==> blkList == []
      ensures !fileError && NeverLimited(env.limitedFirst) ==> NoneFailed(old(blkList))
      ensures !fileError && NeverLimited(env.limitedFirst) ==>
                AllBulked(Snap()) || (Begun(Snap()) - old(transferred) - |old(blkList)|) * BLOCK_SIZE >= env.rateLimit
      ensures NoneFailed(old(blkList)) ==> NoneFailed(blkList)
      ensures NoneFailed(old(blkList)) && NeverRefused(env.refusals) ==> fileError == old(fileError)
      ensures old(fileError) ==> fileError
      ensures old(AllBulked(Snap())) && !fileError ==> AllBulked(Snap()) && flight == old(flight)
    {
      hide Inv, Flushed, Reaches, GoodRuns, SameDisks, FlushWhile;
      ghost var s0 := Snap();
      events := FlushAll(env.limitedFirst, base);
      RunsKept(s0.devs, bmdsList, run);
      SameDisksLaws(s0.devs, bmdsList, bmdsList);
      if fileError { return; }
      ghost var s1 := Snap();
      ghost var more := BulkWhileBelow(env.rateLimit, env.refusals, env.junk, run, base);
      ReachesAppend(s0, events, s1, more, Snap());
      events := events + more;
      ghost var s2 := Snap();
      SameDisksLaws(s0.devs, s1.devs, s2.devs);
      more := FlushAll(env.limitedSecond, base);
      ReachesAppend(s0, events, s2, more, Snap());
      SameDisksLaws(s0.devs, s2.devs, bmdsList);
      events := events + more;
    }

    /** A flush as a part of the run. */
    method FlushAll(limited: seq<bool>, ghost base: seq<Disk>) returns (ghost events: seq<Event>)
      requires Inv(Snap(), base)
      modifies this`blkList, this`out, this`readDone, this`transferred, this`fileError
      ensures Inv(Snap(), base) && Reaches(old(Snap()), events, Snap())
      ensures NeverLimited(limited) && !fileError ==> blkList == [] && NoneFailed(old(blkList))
      ensures NoneFailed(old(blkList)) ==> fileError == old(fileError) && NoneFailed(blkList)
      ensures bmdsList == old(bmdsList) && flight == old(flight) && (old(blkList) == [] ==> blkList == [])
      ensures Begun(Snap()) == old(Begun(Snap())) && submitted == old(submitted)
      ensures NeverLimited(limited) && !fileError ==> transferred == old(transferred) + |old(blkList)|
      ensures old(fileError) ==> fileError
    {
      hide Inv, Reaches, FlushWhile;
      ghost var s0 := Snap();
      events := FlushEvents(s0, limited);
      ghost var sent := FlushBlks(limited);
      RunInv(s0, events, Snap(), base);
      FlushEmpties(s0, Snap(), limited, sent);
    }

    /** block_save_live in stages 1 and 2, after the set-up of stage 1.  Without an error the result is
        a run of the state machine followed by the end-of-section mark. */
    method SaveLive(stage: int, env: Env, run: (nat, nat) -> nat, ghost base: seq<Disk>)
      returns (ret: bool, ghost events: seq<Event>)
      requires stage == 1 || stage == 2
      requires Inv(Snap(), base) && |env.junk| == CHUNK && totalSectorSum == TotalSum(bmdsList)
      requires forall i :: 0 <= i < |bmdsList| ==> GoodRuns(bmdsList[i], x => run(i, x))
      modifies this
      ensures totalSectorSum == old(totalSectorSum)
      ensures fileError ==> !ret && bmdsList == [] && blkList == []
      ensures !fileError ==>
                && Reaches(old(Snap()), events, Snap()) && Inv(Snap(), base) && SameDisks(old(bmdsList), bmdsList)
                && out != [] && out[|out| - 1] == Eos
                && (ret <==> stage == 2 && flight == [] && forall i :: 0 <= i < |bmdsList| ==> bmdsList[i].bulkCompleted)
      ensures !fileError && (NeverLimited(env.limitedFirst) || NeverLimited(env.limitedSecond)) ==> blkList == []
      ensures !fileError && NeverLimited(env.limitedFirst) ==> NoneFailed(old(blkList))
      ensures !fileError && NeverLimited(env.limitedFirst) ==>
                AllBulked(Snap()) || (Begun(Snap()) - old(transferred) - |old(blkList)|) * BLOCK_SIZE >= env.rateLimit
      ensures NoneFailed(old(blkList)) ==> NoneFailed(blkList)
      ensures NoneFailed(old(blkList)) && NeverRefused(env.refusals) ==> fileError == old(fileError)
    {
      hide Inv, Reaches, GoodRuns, SameDisks;
      ghost var s0 := Snap();
      events := FlushBulkFlush(env, run, base);
      if fileError {
        Cleanup();
        return false, events;
      }
      ghost var s1 := Snap();
      out := out + [Eos];
      StepInv(s1, base, EndOfSection);
      EndOfSectionReached(s1, Snap());
      ReachesAppend(s0, events, s1, [EndOfSection], Snap());
      events := events + [EndOfSection];
      InvParts(Snap(), base);
      var done := Stage2Completed();
      ret := stage == 2 && done;
    }

    /** block_save_live in stage 3.  If the file shows no error in the end, the complete stream rebuilds
        every source disk but for what was lost: the sectors behind the last chunk boundary of a
        device, and the clean chunks that were still being read or queued when the dirty pass began,
        which is when `last` was the state.  If drained, there are none of the latter; so it is if stage 2
        was complete and a flush is not limited.  No error arises unless a queued read has failed, the
        driver refuses one, or the dirty pass meets a chunk that cannot be read. */
    method SaveLiveLast(env: Env, run: (nat, nat) -> nat, ghost base: seq<Disk>)
      returns (drained: bool, ghost last: State)
      requires Inv(Snap(), base) && ReadOnce(Snap()) && |env.junk| == CHUNK && totalSectorSum == TotalSum(bmdsList)
      requires forall i :: 0 <= i < |bmdsList| ==> GoodRuns(bmdsList[i], x => run(i, x))
      modifies this
      ensures bmdsList == [] && blkList == []
      ensures SameDisks(old(bmdsList), last.devs) && Inv(last, base)
      ensures !fileError ==> Rebuilds(base, out, last)
      ensures drained && !fileError ==> last.flight == [] && last.blkList == []
      ensures (old(IsStage2Completed(Snap())) && (NeverLimited(env.limitedFirst) || NeverLimited(env.limitedSecond))) ==>
                fileError || drained
      ensures !fileError ==> AllReadable(last, env.bad) && !old(fileError)
      ensures (!old(fileError) && NoneFailed(old(blkList)) && NeverRefused(env.refusals + env.syncRefusals)) ==>
                AllReadable(last, env.bad) ==> !fileError
    {
      hide Inv, ReadOnce, Possible, GoodRuns, SameDisks, Reaches, AllBulked, AllReadable;
      ghost var s0 := Snap();
      Stage2Drained(s0, base);
      BothNeverRefused(env.refusals, env.syncRefusals);
      ghost var events := FlushBulkFlush(env, run, base);
      RunOnce(s0, events, Snap(), base);
      drained, last := flight == [] && blkList == [], Snap();
      if fileError {
        Cleanup();
        return;
      }
      RunsKept(s0.devs, bmdsList, run);
      SameDisksLaws(s0.devs, s0.devs, bmdsList);
      ghost var s1 := Snap();
      last := FinishBulk(env, run, base);
      SameDisksLaws(s0.devs, s1.devs, last.devs);
      SendTheRest(env, base, last);
    }

    /** The bulk loop of the last stage, seen from the dirty pass. */
    method FinishBulk(env: Env, run: (nat, nat) -> nat, ghost base: seq<Disk>) returns (ghost last: State)
      requires Inv(Snap(), base) && ReadOnce(Snap()) && |env.junk| == CHUNK && totalSectorSum == TotalSum(bmdsList)
      requires forall i :: 0 <= i < |bmdsList| ==> GoodRuns(bmdsList[i], x => run(i, x))
      modifies this
      ensures last == Snap() && Inv(last, base) && ReadOnce(last) && AllBulked(last)
      ensures SameDisks(old(bmdsList), bmdsList) && flight == old(flight) && blkList == old(blkList)
      ensures NeverRefused(env.syncRefusals) ==> fileError == old(fileError)
    {
      hide Inv, ReadOnce, Possible, GoodRuns, SameDisks, Reaches;
      ghost var s0 := Snap();
      ghost var events := BulkToTheEnd(env.syncRefusals, env.junk, run, base);
      last := Snap();
      RunOnce(s0, events, last, base);
    }

    /** The dirty pass, the clean-up and the closing records. */
    method SendTheRest(env: Env, ghost base: seq<Disk>, ghost last: State)
      requires last == Snap() && Inv(last, base) && ReadOnce(last) && AllBulked(last)
      modifies this
      ensures bmdsList == [] && blkList == []
      ensures !fileError ==> Rebuilds(base, out, last) && |out| >= 2 && out[|out| - 2..] == [Progress(100), Eos]
      ensures fileError <==> last.hasError || !AllReadable(last, env.bad)
    {
      hide Inv, ReadOnce, AllBulked, Rebuilds, DirtyPass, AllReadable;
      InvParts(last, base);
      ghost var _ := SaveDirtyBlocks(env.bad);
      DirtyPassVerdict(last, env.bad);
      ghost var s' := Snap();
      Cleanup();
      out := out + [Progress(100)];
      if fileError { return; }
      out := out + [Eos];
      assert out == FinalStream(s');
      DeliveredAll(last, base, env.bad);
    }
  }

  /** The reads begun since the set-up: outstanding, queued and sent. */
  function Begun(s: State): int { s.submitted + s.readDone + s.transferred }

  /** The answers of everything outside this file during one call. */
  datatype Env = Env(
    rateLimit: nat,
    limitedFirst: seq<bool>,
    limitedSecond: seq<bool>,
    refusals: seq<bool>,
    syncRefusals: seq<bool>,
    junk: seq<Sector>,
    bad: set<(nat, nat)>)

  ghost predicate Rebuilds(base: seq<Disk>, stream: seq<Record>, s: State) {
    && |base| == |s.devs|
    && (forall i :: 0 <= i < |base| ==> |s.devs[i].disk| == |base[i]|)
    && forall i, x :: 0 <= i < |base| && 0 <= x < |base[i]| ==>
         Replay(base, stream)[i][x] ==
           if x < WholeSectors(base[i]) && !Lost(s, i, x / CHUNK) then s.devs[i].disk[x] else base[i][x]
  }

  predicate SameDisks(a: seq<Dev>, b: seq<Dev>) {
    |a| == |b| && forall i :: 0 <= i < |a| ==> a[i].disk == b[i].disk && a[i].alloc == b[i].alloc
  }

  lemma SameDisksLaws(a: seq<Dev>, b: seq<Dev>, c: seq<Dev>)
    ensures SameDisks(a, a)
    ensures SameDisks(a, b) ==> TotalSum(a) == TotalSum(b)
    ensures SameDisks(a, b) && SameDisks(b, c) ==> SameDisks(a, c) && TotalSum(a) == TotalSum(c)
  {
    if SameDisks(a, b) {
      TotalSumUnchanged(a, b);
      if SameDisks(b, c) { TotalSumUnchanged(b, c); }
    }
  }

  lemma InvParts(s: State, base: seq<Disk>)
    requires Inv(s, base)
    ensures Shape(s, base) && Counts(s) && InRange(s) && |s.devs| == |base|
  {
    InvInRange(s, base);
  }

  lemma NextAnswerFacts(s: State, isAsync: bool, refused: bool, junk: seq<Sector>)
    requires InRange(s) && |junk| == CHUNK
    ensures var o := NextAnswer(s, isAsync, refused, junk);
            && Possible(s, Bulk(o))
            && (Pending(s.devs, 0) < |s.devs| ==> (o.Failed? <==> refused) && (!isAsync ==> !o.Submitted?))
  {}

  lemma DeliveredAll(s: State, base: seq<Disk>, bad: set<(nat, nat)>)
    requires Inv(s, base) && ReadOnce(s) && !s.hasError && AllBulked(s) && DirtyPass(s, 0, bad).ok
    ensures Rebuilds(base, FinalStream(DirtyPass(s, 0, bad).s), s)
  {
    forall i | 0 <= i < |base| ensures |s.devs[i].disk| == |base[i]| { assert DevOk(s.devs[i], base[i]); }
    forall i, x | 0 <= i < |base| && 0 <= x < |base[i]|
      ensures |s.devs[i].disk| == |base[i]| && |s.devs| == |base|
      ensures Replay(base, FinalStream(DirtyPass(s, 0, bad).s))[i][x] ==
              if x < WholeSectors(base[i]) && !Lost(s, i, x / CHUNK) then s.devs[i].disk[x] else base[i][x]
    {
      Delivered(s, base, bad, i, x);
    }
  }

  lemma RunsKept(a: seq<Dev>, b: seq<Dev>, run: (nat, nat) -> nat)
    requires SameDisks(a, b)
    requires forall i :: 0 <= i < |a| ==> GoodRuns(a[i], x => run(i, x))
    ensures forall i :: 0 <= i < |b| ==> GoodRuns(b[i], x => run(i, x))
  {
    forall i | 0 <= i < |b|
      ensures GoodRuns(b[i], x => run(i, x))
    {
      assert GoodRuns(a[i], x => run(i, x));
    }
  }

  // ---------- composing runs ----------

  lemma {:induction false} ReachesAppend(s: State, events: seq<Event>, s': State, more: seq<Event>, s'': State)
    requires Reaches(s, events, s') && Reaches(s', more, s'')
    ensures Reaches(s, events + more, s'')
    decreases |events|
  {
    if events == [] {
      assert events + more == more;
    } else {
      ReachesAppend(Step(s, events[0]), events[1..], s', more, s'');
      assert (events + more)[1..] == events[1..] + more && (events + more)[0] == events[0];
    }
  }

  lemma Stage2Drained(s: State, base: seq<Disk>)
    requires Inv(s, base)
    ensures IsStage2Completed(s) ==> s.flight == [] && AllBulked(s)
  {}

  lemma BothNeverRefused(a: seq<bool>, b: seq<bool>)
    ensures NeverRefused(a + b) ==> NeverRefused(a) && NeverRefused(b)
  {
    assert forall k :: 0 <= k < |a| ==> (a + b)[k] == a[k];
    assert forall k :: 0 <= k < |b| ==> (a + b)[|a| + k] == b[k];
  }

  lemma EndOfSectionReached(s: State, s': State)
    requires s' == s.(out := s.out + [Eos])
    ensures Reaches(s, [EndOfSection], s') && s' == Step(s, EndOfSection)
  {
    assert Reaches(Step(s, EndOfSection), [], s');
    assert [EndOfSection][1..] == [];
  }

  /** A bulk step is a possible event and keeps the invariant. */
  lemma BulkEvent(s0: State, events: seq<Event>, s: State, o: ReadOutcome, base: seq<Disk>) returns (longer: seq<Event>)
    requires Inv(s, base) && Reaches(s0, events, s) && Possible(s, Bulk(o))
    ensures Reaches(s0, longer, SaveBulked(s, o)) && Inv(SaveBulked(s, o), base)
  {
    longer := events + [Bulk(o)];
    BulkInv(s, base, o);
    assert Reaches(Step(s, Bulk(o)), [], SaveBulked(s, o));
    ReachesAppend(s0, events, s, [Bulk(o)], SaveBulked(s, o));
  }

  /** The flush loop is a run of flush events. */
  lemma {:induction false} FlushEvents(s: State, limited: seq<bool>) returns (events: seq<Event>)
    ensures Reaches(s, events, FlushWhile(s, limited))
    ensures FlushWhile(s, limited).devs == s.devs
    decreases |s.blkList|
  {
    if s.blkList == [] || (limited != [] && limited[0]) {
      events := [];
    } else if s.blkList[0].ret < 0 {
      events := [Flush];
      assert Reaches(FlushOne(s), [], FlushOne(s));
    } else {
      var more := FlushEvents(FlushOne(s), Later(limited));
      events := [Flush] + more;
    }
  }

  // ---------- termination of the bulk loops ----------

  function DevWork(d: Dev): nat {
    (if d.curSector <= |d.disk| then |d.disk| - d.curSector else 0) + (if d.bulkCompleted then 0 else 1)
  }

  /** What the bulk phase still has to do. */
  function Work(devs: seq<Dev>): nat {
    if |devs| == 0 then 0 else DevWork(devs[0]) + Work(devs[1..])
  }

  lemma {:induction false} WorkUpdate(devs: seq<Dev>, i: nat, d: Dev)
    requires i < |devs|
    ensures Work(devs[i := d]) == Work(devs) - DevWork(devs[i]) + DevWork(d)
    decreases |devs|
  {
    if i == 0 {
      assert devs[i := d][1..] == devs[1..];
    } else {
      WorkUpdate(devs[1..], i - 1, d);
      assert devs[i := d][1..] == devs[1..][i - 1 := d];
    }
  }

  /** Every bulk step that is not refused leaves less to do, and a refused one not more. */
  lemma BulkWork(s: State, base: seq<Disk>, o: ReadOutcome)
    requires Shape(s, base) && InRange(s) && Pending(s.devs, 0) < |s.devs|
    ensures Work(SaveBulked(s, o).devs) <= Work(s.devs)
    ensures !o.Failed? ==> Work(SaveBulked(s, o).devs) < Work(s.devs)
  {
    var i := Pending(s.devs, 0);
    var s' := BulkCore(s, o);
    BulkFrame(s, o);
    DeviceBulkFrame(s, i, o);
    DeviceWork(s, base, i, o);
    hide SaveBulked, SaveDeviceBulk, DevWork;
    WorkUpdate(s.devs, i, s'.devs[i]);
    assert s'.devs == s.devs[i := s'.devs[i]];
  }

  lemma DeviceWork(s: State, base: seq<Disk>, i: nat, o: ReadOutcome)
    requires Shape(s, base) && i < |s.devs| && !s.devs[i].bulkCompleted && s.devs[i].curSector <= |s.devs[i].disk|
    ensures DevWork(SaveDeviceBulk(s, i, o).devs[i]) <= DevWork(s.devs[i])
    ensures !o.Failed? ==> DevWork(SaveDeviceBulk(s, i, o).devs[i]) < DevWork(s.devs[i])
  {
    assert DevOk(s.devs[i], base[i]);
    ScanFacts(s.devs[i], base[i]);
  }

  /** The last pass raises the error flag exactly when it comes to a dirty chunk that cannot be read. */
  lemma DirtyPassVerdict(s: State, bad: set<(nat, nat)>)
    requires forall i :: 0 <= i < |s.devs| ==> s.devs[i].curSector <= |s.devs[i].disk|
    ensures DirtyPass(s, 0, bad).ok <==> AllReadable(s, bad)
    ensures DirtyPass(s, 0, bad).s.hasError <==> s.hasError || !AllReadable(s, bad)
  {
    DirtyPassOk(s, 0, bad);
    GivesUpWithError(s, 0, bad);
  }

  lemma SentInPass(s: State, bad: set<(nat, nat)>) returns (sent: seq<Record>)
    ensures var p := DirtyPass(s, 0, bad);
      InRange(s) && !s.hasError ==>
        p.s.out == s.out + sent && PassSends(0, s.devs, p.s.devs, !p.s.hasError, bad, sent)
  {
    sent := [];
    if InRange(s) && !s.hasError {
      sent := DirtyPassSends(s, 0, bad);
      GivesUpWithError(s, 0, bad);
      hide PassSends, DirtyPass;
      assert s.devs[0..] == s.devs && DirtyPass(s, 0, bad).s.devs[0..] == DirtyPass(s, 0, bad).s.devs;
    }
  }

  lemma {:induction false} GivesUpWithError(s: State, i: nat, bad: set<(nat, nat)>)
    requires i <= |s.devs|
    ensures DirtyPass(s, i, bad).s.hasError <==> s.hasError || !DirtyPass(s, i, bad).ok
    decreases |s.devs| - i
  {
    if i < |s.devs| {
      DirtyDeviceFrame(s, i, 0, bad);
      DirtyDeviceVerdict(s, i, 0, bad);
      var p := DirtyDevice(s, i, 0, bad);
      if p.ok { GivesUpWithError(p.s, i + 1, bad); }
    }
  }

  lemma {:induction false} DirtyDeviceVerdict(s: State, i: nat, sector: nat, bad: set<(nat, nat)>)
    requires i < |s.devs|
    ensures !DirtyDevice(s, i, sector, bad).ok ==> DirtyDevice(s, i, sector, bad).s.hasError
    decreases |s.devs[i].disk| + s.devs[i].curSector - sector
  {
    var d := s.devs[i];
    if sector < d.curSector {
      if sector < |d.disk| && ChunkOf(sector) in d.dirty {
        if !(sector + CHUNK > |d.disk| || (i, sector) in bad) {
          DirtyDeviceVerdict(SendChunk(s, i, sector), i, sector + CHUNK, bad);
        }
      } else {
        DirtyDeviceVerdict(s, i, sector + CHUNK, bad);
      }
    }
  }

  /** The answer the next bulk step will get. */
  function NextAnswer(s: State, isAsync: bool, refused: bool, junk: seq<Sector>): ReadOutcome
    requires InRange(s) && |junk| == CHUNK
  {
    var i := Pending(s.devs, 0);
    if i < |s.devs| then Answer(s.devs[i], isAsync, refused, junk) else Submitted
  }

}
