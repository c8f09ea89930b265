/**
 What every step of a live migration keeps, and what the last stage delivers.

 The central notion is the copy a chunk will have at the destination once everything sent or
 queued so far has been loaded.  A chunk the bulk phase has passed is settled: it is dirty, or
 a read of it is outstanding, or that copy equals the source.
 */
module MigrationInvariant {
  import opened Sequences
  import opened DirtyBitmap
  import opened Migration

  // ---------- the copy a chunk will have ----------

  function AsRecord(b: Blk): Record { DeviceBlock(b.dev, b.sector, b.buf) }

  function AsRecords(bs: seq<Blk>): (r: seq<Record>)
    ensures |r| == |bs| && forall k :: 0 <= k < |bs| ==> r[k] == AsRecord(bs[k])
  {
    seq(|bs|, k requires 0 <= k < |bs| => AsRecord(bs[k]))
  }

  /** Everything sent and everything queued, in the order the loader will see it. */
  function Pipeline(s: State): seq<Record> { s.out + AsRecords(s.blkList) }

  /** The last data sent for a sector of a device, or the given default. */
  function Copy(rs: seq<Record>, dev: nat, sector: nat, default: seq<Sector>): seq<Sector> {
    if |rs| == 0 then default
    else
      var r := rs[|rs| - 1];
      if About(r, dev, sector) then r.data
      else Copy(rs[..|rs| - 1], dev, sector, default)
  }

  lemma CopyAppend(rs: seq<Record>, r: Record, dev: nat, sector: nat, default: seq<Sector>)
    ensures Copy(rs + [r], dev, sector, default) ==
            if About(r, dev, sector) then r.data else Copy(rs, dev, sector, default)
  {
    assert (rs + [r])[..|rs|] == rs;
  }

  predicate About(r: Record, dev: nat, sector: nat) {
    r.DeviceBlock? && r.dev == dev && r.sector == sector
  }

  /** A record that is not about this sector makes no difference anywhere in the stream. */
  lemma {:induction false} CopySkips(rs: seq<Record>, r: Record, ts: seq<Record>, dev: nat, sector: nat, default: seq<Sector>)
    requires !About(r, dev, sector)
    ensures Copy(rs + [r] + ts, dev, sector, default) == Copy(rs + ts, dev, sector, default)
    decreases |ts|
  {
    if |ts| == 0 {
      assert rs + [r] + ts == rs + [r] && rs + ts == rs;
      CopyAppend(rs, r, dev, sector, default);
    } else {
      var n := |ts| - 1;
      assert rs + [r] + ts == (rs + [r] + ts[..n]) + [ts[n]] && rs + ts == (rs + ts[..n]) + [ts[n]];
      CopyAppend(rs + [r] + ts[..n], ts[n], dev, sector, default);
      CopyAppend(rs + ts[..n], ts[n], dev, sector, default);
      CopySkips(rs, r, ts[..n], dev, sector, default);
    }
  }

  /** The last record about a sector decides, whatever else follows. */
  lemma {:induction false} CopyMiddle(rs: seq<Record>, r: Record, ts: seq<Record>, dev: nat, sector: nat, default: seq<Sector>)
    requires About(r, dev, sector) && forall k :: 0 <= k < |ts| ==> !About(ts[k], dev, sector)
    ensures Copy(rs + [r] + ts, dev, sector, default) == r.data
    decreases |ts|
  {
    if |ts| == 0 {
      assert rs + [r] + ts == rs + [r];
      CopyAppend(rs, r, dev, sector, default);
    } else {
      var n := |ts| - 1;
      assert rs + [r] + ts == (rs + [r] + ts[..n]) + [ts[n]];
      CopyAppend(rs + [r] + ts[..n], ts[n], dev, sector, default);
      CopyMiddle(rs, r, ts[..n], dev, sector, default);
    }
  }

  lemma {:induction false} CopyAbsent(rs: seq<Record>, dev: nat, sector: nat, default: seq<Sector>)
    requires forall k :: 0 <= k < |rs| && rs[k].DeviceBlock? && rs[k].dev == dev ==> rs[k].sector < sector
    ensures Copy(rs, dev, sector, default) == default
  {
    if |rs| > 0 { CopyAbsent(rs[..|rs| - 1], dev, sector, default); }
  }

  // ---------- the invariant ----------

  function ChunkData(disk: Disk, c: nat): seq<Sector>
    requires CHUNK * c + CHUNK <= |disk|
  {
    disk[CHUNK * c..CHUNK * c + CHUNK]
  }

  predicate DevOk(d: Dev, base: Disk) {
    && 0 < |d.disk| == |base|
    && d.completedSectors <= |d.disk| && d.curSector <= |d.disk|
    && (d.curSector % CHUNK == 0 || d.curSector == |d.disk|)
    && (d.bulkCompleted ==> d.curSector == |d.disk|)
    && (d.sharedBase ==> forall x :: 0 <= x < |d.disk| && x !in d.alloc ==> d.disk[x] == base[x])
  }

  /** An outstanding read lies below the bulk position; while its chunk stays clean, every sector
      has had one single value since the read was issued. */
  predicate FlightOk(f: Flight, d: Dev) {
    && f.sector % CHUNK == 0 && f.sector < d.curSector
    && f.sector + |f.seen| <= |d.disk| && |f.seen| == Count(d, f.sector)
    && (f.sector / CHUNK !in d.dirty ==> forall k :: 0 <= k < |f.seen| ==> f.seen[k] == {d.disk[f.sector + k]})
  }

  /** What is sent or queued is whole chunks below the bulk position, and sensible percentages. */
  predicate RecordOk(r: Record, devs: seq<Dev>) {
    match r
    case DeviceBlock(dev, sector, data) =>
      dev < |devs| && sector % CHUNK == 0 && sector < devs[dev].curSector && |data| == CHUNK
    case Progress(p) => 0 <= p <= 100
    case Eos => true
  }

  predicate Shape(s: State, base: seq<Disk>) {
    && 0 < |s.devs| == |base|
    && (forall i :: 0 <= i < |s.devs| ==> DevOk(s.devs[i], base[i]))
    && (forall k :: 0 <= k < |s.flight| ==> s.flight[k].dev < |s.devs| && FlightOk(s.flight[k], s.devs[s.flight[k].dev]))
    && (forall k :: 0 <= k < |s.out| ==> RecordOk(s.out[k], s.devs))
    && (forall k :: 0 <= k < |s.blkList| ==> RecordOk(AsRecord(s.blkList[k]), s.devs))
  }

  /** Every read is accounted for: outstanding, queued or sent. */
  predicate Counts(s: State) {
    && s.submitted == |s.flight| && s.readDone == |s.blkList|
    && s.submitted + s.readDone + s.transferred == s.asyncReads
  }

  predicate InFlight(s: State, i: nat, c: nat) {
    exists k :: 0 <= k < |s.flight| && s.flight[k].dev == i && s.flight[k].sector == CHUNK * c
  }

  /** A read of the chunk has failed, which the flush has yet to notice. */
  predicate FailedRead(s: State, i: nat, c: nat) {
    exists k :: 0 <= k < |s.blkList| && AboutBlk(s.blkList[k], i, CHUNK * c) && s.blkList[k].ret < 0
  }

  predicate AboutBlk(b: Blk, dev: nat, sector: nat) { b.dev == dev && b.sector == sector }

  predicate Settled(s: State, base: seq<Disk>, i: nat, c: nat)
    requires i < |s.devs| == |base| && |s.devs[i].disk| == |base[i]|
    requires CHUNK * c + CHUNK <= |base[i]|
  {
    || CHUNK * c >= s.devs[i].curSector
    || c in s.devs[i].dirty
    || InFlight(s, i, c) || FailedRead(s, i, c)
    || Copy(Pipeline(s), i, CHUNK * c, ChunkData(base[i], c)) == ChunkData(s.devs[i].disk, c)
  }

  ghost predicate AllSettled(s: State, base: seq<Disk>)
    requires |s.devs| == |base| && forall i :: 0 <= i < |base| ==> |s.devs[i].disk| == |base[i]|
  {
    forall i, c: nat :: 0 <= i < |base| && CHUNK * c + CHUNK <= |base[i]| ==> Settled(s, base, i, c)
  }

  ghost predicate Inv(s: State, base: seq<Disk>) {
    Shape(s, base) && Counts(s) && (s.hasError || AllSettled(s, base))
  }

  // ---------- the start ----------

  /** The destination starts from base.  Without a shared base it may hold anything; with one, the
      source's unallocated sectors read through to the same base. */
  predicate GoodStart(disks: seq<Disk>, alloc: seq<set<nat>>, sharedBase: bool, base: seq<Disk>) {
    && 0 < |disks| == |alloc| == |base|
    && (forall i :: 0 <= i < |disks| ==> 0 < |disks[i]| == |base[i]|)
    && (sharedBase ==>
          forall i, x :: 0 <= i < |disks| && 0 <= x < |disks[i]| && x !in alloc[i] ==> disks[i][x] == base[i][x])
  }

  lemma InitInv(disks: seq<Disk>, dirty: seq<set<nat>>, alloc: seq<set<nat>>, sharedBase: bool, base: seq<Disk>)
    requires |disks| == |dirty| && GoodStart(disks, alloc, sharedBase, base)
    ensures Inv(Init(disks, dirty, alloc, sharedBase), base)
  {}

  // ---------- one lemma for each kind of step ----------

  /** Appending a record that carries no data settles nothing and unsettles nothing. */
  lemma PlainRecordInv(s: State, base: seq<Disk>, r: Record, prev: int)
    requires Inv(s, base) && !r.DeviceBlock? && RecordOk(r, s.devs)
    ensures Inv(s.(out := s.out + [r], prevProgress := prev), base)
  {
    var s' := s.(out := s.out + [r], prevProgress := prev);
    if !s.hasError {
      forall i, c: nat | 0 <= i < |base| && CHUNK * c + CHUNK <= |base[i]|
        ensures Settled(s', base, i, c)
      {
        assert Settled(s, base, i, c);
        assert FailedRead(s, i, c) == FailedRead(s', i, c);
        CopySkips(s.out, r, AsRecords(s.blkList), i, CHUNK * c, ChunkData(base[i], c));
        assert InFlight(s, i, c) == InFlight(s', i, c);
      }
    }
  }

  lemma FlushPipeline(s: State)
    requires s.blkList != [] && s.blkList[0].ret >= 0
    ensures Pipeline(FlushOne(s)) == Pipeline(s)
  {
    var r, rest := AsRecord(s.blkList[0]), AsRecords(s.blkList[1..]);
    assert AsRecords(s.blkList) == [r] + rest;
    Regroup(s.out, r, rest);
  }

  lemma FlushShape(s: State, base: seq<Disk>)
    requires Shape(s, base) && s.blkList != [] && s.blkList[0].ret >= 0
    ensures Shape(FlushOne(s), base)
  {
    var s' := FlushOne(s);
    forall k | 0 <= k < |s'.out|
      ensures RecordOk(s'.out[k], s'.devs)
    {
      if k == |s.out| { assert s'.out[k] == AsRecord(s.blkList[0]); }
    }
    assert forall k :: 0 <= k < |s'.blkList| ==> s'.blkList[k] == s.blkList[k + 1];
  }

  /** Sending the head of the queue leaves the pipeline, and with it every chunk, as it was. */
  lemma FlushInv(s: State, base: seq<Disk>)
    requires Inv(s, base) && s.blkList != []
    ensures Inv(FlushOne(s), base)
  {
    var s' := FlushOne(s);
    if s.blkList[0].ret >= 0 {
      FlushShape(s, base);
      FlushPipeline(s);
      if !s.hasError {
        forall i, c: nat | FailedRead(s, i, c) ensures FailedRead(s', i, c) {
          var k :| 0 <= k < |s.blkList| && AboutBlk(s.blkList[k], i, CHUNK * c) && s.blkList[k].ret < 0;
          assert s'.blkList[k - 1] == s.blkList[k];
        }
        SettledByPipeline(s, s', base);
      }
    }
  }

  /** Settledness depends on the devices, the outstanding and failed reads and the pipeline only. */
  lemma SettledByPipeline(s: State, s': State, base: seq<Disk>)
    requires Shape(s, base) && AllSettled(s, base)
    requires s'.devs == s.devs && s'.flight == s.flight && Pipeline(s') == Pipeline(s)
    requires forall i, c: nat :: FailedRead(s, i, c) ==> FailedRead(s', i, c)
    ensures AllSettled(s', base)
  {
    forall i, c: nat | 0 <= i < |base| && CHUNK * c + CHUNK <= |base[i]|
      ensures Settled(s', base, i, c)
    {
      assert Settled(s, base, i, c);
      assert InFlight(s, i, c) == InFlight(s', i, c);
    }
  }

  /** A completed read settles its chunk: a clean chunk has not changed since the read was issued. */
  lemma CompletionInv(s: State, base: seq<Disk>, k: nat, buf: seq<Sector>, ret: int)
    requires Inv(s, base) && Possible(s, Completion(k, buf, ret))
    ensures Inv(ReadCallback(s, k, buf, ret), base)
  {
    var s' := ReadCallback(s, k, buf, ret);
    var f := s.flight[k];
    assert forall m :: 0 <= m < |s'.flight| ==> s'.flight[m] == s.flight[if m < k then m else m + 1];
    var b := Blk(f.dev, f.sector, buf, ret);
    assert s'.blkList[|s.blkList|] == b;
    if !s.hasError {
      assert AsRecords(s'.blkList) == AsRecords(s.blkList) + [AsRecord(b)];
      assert Pipeline(s') == Pipeline(s) + [AsRecord(b)];
      forall i, c: nat | 0 <= i < |base| && CHUNK * c + CHUNK <= |base[i]|
        ensures Settled(s', base, i, c)
      {
        CompletionSettles(s, base, k, buf, ret, i, c);
      }
    }
  }

  /** A read of a chunk that has stayed clean delivers what is on the disk now. */
  lemma CleanBuffer(f: Flight, d: Dev, buf: seq<Sector>, c: nat)
    requires FlightOk(f, d) && f.sector == CHUNK * c && CHUNK * c + CHUNK <= |d.disk| && c !in d.dirty
    requires |buf| == CHUNK && |f.seen| <= CHUNK && forall j :: 0 <= j < |f.seen| ==> buf[j] in f.seen[j]
    ensures buf == ChunkData(d.disk, c)
  {
    assert f.sector / CHUNK == c && |f.seen| == CHUNK;
    assert forall j :: 0 <= j < CHUNK ==> buf[j] == d.disk[CHUNK * c + j];
  }

  /** The chunk that was read. */
  lemma CompletionSettlesOwn(s: State, base: seq<Disk>, k: nat, buf: seq<Sector>, ret: int, i: nat, c: nat)
    requires Inv(s, base) && Possible(s, Completion(k, buf, ret)) && !s.hasError
    requires i < |base| && CHUNK * c + CHUNK <= |base[i]| && s.flight[k].dev == i && s.flight[k].sector == CHUNK * c
    requires var b := Blk(s.flight[k].dev, s.flight[k].sector, buf, ret);
             Pipeline(ReadCallback(s, k, buf, ret)) == Pipeline(s) + [AsRecord(b)]
    ensures Settled(ReadCallback(s, k, buf, ret), base, i, c)
  {
    var s', f, d := ReadCallback(s, k, buf, ret), s.flight[k], s.devs[i];
    assert DevOk(d, base[i]) && FlightOk(f, d);
    if ret < 0 {
      var b := Blk(f.dev, f.sector, buf, ret);
      assert s'.blkList[|s.blkList|] == b && AboutBlk(b, i, CHUNK * c);
    } else if c !in d.dirty {
      CleanBuffer(f, d, buf, c);
      CopyAppend(Pipeline(s), DeviceBlock(f.dev, f.sector, buf), i, CHUNK * c, ChunkData(base[i], c));
    }
  }

  /** Any other chunk. */
  lemma CompletionSettlesOther(s: State, base: seq<Disk>, k: nat, buf: seq<Sector>, ret: int, i: nat, c: nat)
    requires Inv(s, base) && Possible(s, Completion(k, buf, ret)) && !s.hasError
    requires i < |base| && CHUNK * c + CHUNK <= |base[i]| && !(s.flight[k].dev == i && s.flight[k].sector == CHUNK * c)
    requires var b := Blk(s.flight[k].dev, s.flight[k].sector, buf, ret);
             Pipeline(ReadCallback(s, k, buf, ret)) == Pipeline(s) + [AsRecord(b)]
    ensures Settled(ReadCallback(s, k, buf, ret), base, i, c)
  {
    var s', f := ReadCallback(s, k, buf, ret), s.flight[k];
    assert DevOk(s.devs[i], base[i]) && Settled(s, base, i, c);
    hide Inv;
    CopyAppend(Pipeline(s), DeviceBlock(f.dev, f.sector, buf), i, CHUNK * c, ChunkData(base[i], c));
    hide Pipeline, Copy, ChunkData;
    if FailedRead(s, i, c) {
      var m :| 0 <= m < |s.blkList| && AboutBlk(s.blkList[m], i, CHUNK * c) && s.blkList[m].ret < 0;
      assert s'.blkList[m] == s.blkList[m];
    } else if InFlight(s, i, c) {
      var m :| 0 <= m < |s.flight| && s.flight[m].dev == i && s.flight[m].sector == CHUNK * c;
      assert s'.flight[if m < k then m else m - 1] == s.flight[m];
    }
  }

  lemma CompletionSettles(s: State, base: seq<Disk>, k: nat, buf: seq<Sector>, ret: int, i: nat, c: nat)
    requires Inv(s, base) && Possible(s, Completion(k, buf, ret)) && !s.hasError
    requires i < |base| && CHUNK * c + CHUNK <= |base[i]|
    requires var b := Blk(s.flight[k].dev, s.flight[k].sector, buf, ret);
             Pipeline(ReadCallback(s, k, buf, ret)) == Pipeline(s) + [AsRecord(b)]
    ensures Settled(ReadCallback(s, k, buf, ret), base, i, c)
  {
    if s.flight[k].dev == i && s.flight[k].sector == CHUNK * c {
      CompletionSettlesOwn(s, base, k, buf, ret, i, c);
    } else {
      CompletionSettlesOther(s, base, k, buf, ret, i, c);
    }
  }

  /** A chunk outside the visited ones keeps all its sectors. */
  lemma WriteSpares(disk: Disk, sector: nat, data: seq<Sector>, c: nat, x: nat)
    requires sector + |data| <= |disk| && CHUNK * c <= x < CHUNK * c + CHUNK && x < |disk|
    requires c !in ChunksOf(sector, |data|)
    ensures !(sector <= x < sector + |data|) && Overwrite(disk, sector, data)[x] == disk[x]
  {
    if sector <= x < sector + |data| {
      assert ChunkOf(x) == c;
      ChunksOfMeaning(sector, |data|, c);
      assert false;
    }
  }

  lemma WriteDev(s: State, base: seq<Disk>, dev: nat, sector: nat, data: seq<Sector>, grown: set<nat>)
    requires Shape(s, base) && Possible(s, DiskWrite(dev, sector, data, grown))
    ensures DevOk(GuestWrite(s, dev, sector, data, grown).devs[dev], base[dev])
  {
    var d := s.devs[dev];
    var d' := GuestWrite(s, dev, sector, data, grown).devs[dev];
    assert DevOk(d, base[dev]);
    forall x | d.sharedBase && 0 <= x < |d'.disk| && x !in d'.alloc
      ensures d'.disk[x] == base[dev][x]
    {}
  }

  lemma WriteFlight(s: State, base: seq<Disk>, dev: nat, sector: nat, data: seq<Sector>, grown: set<nat>, k: nat)
    requires Shape(s, base) && Possible(s, DiskWrite(dev, sector, data, grown)) && k < |s.flight|
    ensures var s' := GuestWrite(s, dev, sector, data, grown); FlightOk(s'.flight[k], s'.devs[s'.flight[k].dev])
  {
    var f := s.flight[k];
    assert FlightOk(f, s.devs[f.dev]);
    hide Shape, DevOk;
    if f.dev == dev { FlightSeesWrite(f, s.devs[dev], dev, sector, data, grown); }
  }

  /** A read that the write overlaps has its chunk dirty from now on; any other sees no change. */
  lemma FlightSeesWrite(f: Flight, d: Dev, dev: nat, sector: nat, data: seq<Sector>, grown: set<nat>)
    requires FlightOk(f, d) && f.dev == dev && sector + |data| <= |d.disk|
    ensures var d' := d.(disk := Overwrite(d.disk, sector, data), dirty := d.dirty + ChunksOf(sector, |data|),
                         alloc := d.alloc + grown);
      FlightOk(Observe(f, dev, sector, data), d')
  {
    var f', disk, c := Observe(f, dev, sector, data), Overwrite(d.disk, sector, data), f.sector / CHUNK;
    assert f.sector == CHUNK * c && |f.seen| <= CHUNK;
    hide ChunksOf;
    if c !in d.dirty + ChunksOf(sector, |data|) {
      forall j | 0 <= j < |f.seen| ensures f'.seen[j] == {disk[f.sector + j]} {
        WriteSpares(d.disk, sector, data, c, f.sector + j);
      }
    }
  }

  /** A guest write dirties every chunk it changes. */
  lemma WriteInv(s: State, base: seq<Disk>, dev: nat, sector: nat, data: seq<Sector>, grown: set<nat>)
    requires Inv(s, base) && Possible(s, DiskWrite(dev, sector, data, grown))
    ensures Inv(GuestWrite(s, dev, sector, data, grown), base)
  {
    var s' := GuestWrite(s, dev, sector, data, grown);
    WriteDev(s, base, dev, sector, data, grown);
    forall k | 0 <= k < |s'.flight|
      ensures s'.flight[k].dev < |s'.devs| && FlightOk(s'.flight[k], s'.devs[s'.flight[k].dev])
    {
      WriteFlight(s, base, dev, sector, data, grown, k);
    }
    assert forall r: Record | RecordOk(r, s.devs) :: RecordOk(r, s'.devs);
    if !s.hasError {
      forall i, c: nat | 0 <= i < |base| && CHUNK * c + CHUNK <= |base[i]|
        ensures Settled(s', base, i, c)
      {
        WriteSettles(s, base, dev, sector, data, grown, i, c);
      }
    }
  }

  lemma WriteSettles(s: State, base: seq<Disk>, dev: nat, sector: nat, data: seq<Sector>, grown: set<nat>, i: nat, c: nat)
    requires Inv(s, base) && !s.hasError && Possible(s, DiskWrite(dev, sector, data, grown))
    requires i < |base| && CHUNK * c + CHUNK <= |base[i]|
    ensures |GuestWrite(s, dev, sector, data, grown).devs[i].disk| == |base[i]|
    ensures Settled(GuestWrite(s, dev, sector, data, grown), base, i, c)
  {
    var s' := GuestWrite(s, dev, sector, data, grown);
    assert Settled(s, base, i, c);
    assert DevOk(s.devs[i], base[i]);
    if i == dev && c !in s'.devs[i].dirty {
      forall x | CHUNK * c <= x < CHUNK * c + CHUNK
        ensures s'.devs[i].disk[x] == s.devs[i].disk[x]
      {
        WriteSpares(s.devs[i].disk, sector, data, c, x);
      }
      assert ChunkData(s'.devs[i].disk, c) == ChunkData(s.devs[i].disk, c);
    }
    assert FailedRead(s, i, c) == FailedRead(s', i, c);
    if InFlight(s, i, c) {
      var k :| 0 <= k < |s.flight| && s.flight[k].dev == i && s.flight[k].sector == CHUNK * c;
      assert s'.flight[k].dev == i && s'.flight[k].sector == CHUNK * c;
    }
  }
}
