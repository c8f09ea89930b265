/**
 The end of a migration: the last stage, the loader on the other side, and the theorem that says
 when the destination ends up with the source's data.
 */
module MigrationEnd {
  import opened Sequences
  import opened DirtyBitmap
  import opened Migration
  import opened MigrationInvariant
  import opened MigrationBulk
  import opened MigrationRuns

  predicate IsStage2Completed(s: State) {
    s.submitted <= 0 && forall i :: 0 <= i < |s.devs| ==> s.devs[i].bulkCompleted
  }

  // ---------- the last pass over the dirty chunks ----------

  datatype Pass = Pass(s: State, ok: bool)

  function SendChunk(s: State, i: nat, sector: nat): State
    requires i < |s.devs| && sector + CHUNK <= |s.devs[i].disk|
  {
    var d := s.devs[i];
    s.(out := s.out + [DeviceBlock(i, sector, d.disk[sector..sector + CHUNK])],
       devs := s.devs[i := d.(dirty := d.dirty - ChunksOf(sector, CHUNK))])
  }

  /** The inner loop of blk_mig_save_dirty_blocks from one sector on; bad holds the reads the driver
      refuses, and a read past the end of the device is always refused. */
  function DirtyDevice(s: State, i: nat, sector: nat, bad: set<(nat, nat)>): Pass
    requires i < |s.devs|
    decreases |s.devs[i].disk| + s.devs[i].curSector - sector
  {
    var d := s.devs[i];
    if sector >= d.curSector then Pass(s, true)
    else if sector < |d.disk| && ChunkOf(sector) in d.dirty then
      if sector + CHUNK > |d.disk| || (i, sector) in bad then Pass(s.(hasError := true), false)
      else DirtyDevice(SendChunk(s, i, sector), i, sector + CHUNK, bad)
    else DirtyDevice(s, i, sector + CHUNK, bad)
  }

  /** The outer loop from device i on; the first refused read ends it. */
  function DirtyPass(s: State, i: nat, bad: set<(nat, nat)>): Pass
    requires i <= |s.devs|
    decreases |s.devs| - i
  {
    if i == |s.devs| then Pass(s, true)
    else
      var p := DirtyDevice(s, i, 0, bad);
      DirtyDeviceFrame(s, i, 0, bad);
      if p.ok then DirtyPass(p.s, i + 1, bad) else p
  }

  /** The pass over one device changes its dirty chunks and the stream, nothing else. */
  lemma {:induction false} DirtyDeviceFrame(s: State, i: nat, sector: nat, bad: set<(nat, nat)>)
    requires i < |s.devs|
    ensures var p := DirtyDevice(s, i, sector, bad);
            && |p.s.devs| == |s.devs|
            && (forall j :: 0 <= j < |s.devs| && j != i ==> p.s.devs[j] == s.devs[j])
            && p.s.devs[i] == s.devs[i].(dirty := p.s.devs[i].dirty) && p.s.devs[i].dirty <= s.devs[i].dirty
            && p.s.flight == s.flight && p.s.blkList == s.blkList
            && (p.ok ==> p.s.hasError == s.hasError)
    decreases |s.devs[i].disk| + s.devs[i].curSector - sector
  {
    var d := s.devs[i];
    if sector < d.curSector {
      if sector < |d.disk| && ChunkOf(sector) in d.dirty {
        if !(sector + CHUNK > |d.disk| || (i, sector) in bad) {
          DirtyDeviceFrame(SendChunk(s, i, sector), i, sector + CHUNK, bad);
        }
      } else {
        DirtyDeviceFrame(s, i, sector + CHUNK, bad);
      }
    }
  }

  /** The pass comes to this chunk and finds it dirty. */
  predicate Sends(d: Dev, c: nat) { c in d.dirty && CHUNK * c < d.curSector }

  predicate Readable(s: State, i: nat, c: nat, bad: set<(nat, nat)>)
    requires i < |s.devs|
  {
    CHUNK * c + CHUNK <= |s.devs[i].disk| && (i, CHUNK * c) !in bad
  }

  /** Every dirty chunk that the pass comes to can be read. */
  ghost predicate AllReadable(s: State, bad: set<(nat, nat)>) {
    forall i, c: nat :: 0 <= i < |s.devs| && Sends(s.devs[i], c) ==> Readable(s, i, c, bad)
  }

  /** The pass over one device succeeds exactly if every dirty chunk it comes to lies on the device
      with all its sectors and is not refused by the driver. */
  lemma {:induction false} DirtyDeviceOk(s: State, i: nat, c0: nat, bad: set<(nat, nat)>)
    requires i < |s.devs| && s.devs[i].curSector <= |s.devs[i].disk|
    ensures DirtyDevice(s, i, CHUNK * c0, bad).ok <==>
            forall c: nat :: c0 <= c && Sends(s.devs[i], c) ==> Readable(s, i, c, bad)
    decreases |s.devs[i].disk| + s.devs[i].curSector - CHUNK * c0
  {
    var d, sector := s.devs[i], CHUNK * c0;
    assert ChunkOf(sector) == c0 && sector + CHUNK == CHUNK * (c0 + 1);
    if sector < d.curSector {
      if c0 !in d.dirty {
        DirtyDeviceOk(s, i, c0 + 1, bad);
      } else if Readable(s, i, c0, bad) {
        var s' := SendChunk(s, i, sector);
        DirtyDeviceOk(s', i, c0 + 1, bad);
        AlignedRange(sector, CHUNK);
        assert forall c: nat :: c0 < c ==> (Sends(s'.devs[i], c) <==> Sends(d, c));
        assert forall c: nat :: Readable(s', i, c, bad) <==> Readable(s, i, c, bad);
      } else {
        assert Sends(d, c0);
      }
    }
  }

  /** The pass over all devices from i0 on succeeds exactly if the pass over each of them does. */
  lemma {:induction false} DirtyPassOk(s: State, i0: nat, bad: set<(nat, nat)>)
    requires i0 <= |s.devs| && forall i :: 0 <= i < |s.devs| ==> s.devs[i].curSector <= |s.devs[i].disk|
    ensures DirtyPass(s, i0, bad).ok <==>
            forall i, c: nat :: i0 <= i < |s.devs| && Sends(s.devs[i], c) ==> Readable(s, i, c, bad)
    decreases |s.devs| - i0
  {
    if i0 < |s.devs| {
      var p := DirtyDevice(s, i0, 0, bad);
      DirtyDeviceFrame(s, i0, 0, bad);
      DirtyDeviceOk(s, i0, 0, bad);
      if p.ok {
        DirtyPassOk(p.s, i0 + 1, bad);
        assert forall i, c: nat :: i0 < i < |s.devs| ==> (Sends(p.s.devs[i], c) <==> Sends(s.devs[i], c));
        assert forall i, c: nat :: i0 < i < |s.devs| ==> (Readable(p.s, i, c, bad) <==> Readable(s, i, c, bad));
      }
    }
  }

  /** One round of the inner loop. */
  lemma DirtyDeviceStep(s: State, i: nat, c0: nat, bad: set<(nat, nat)>)
    requires i < |s.devs| && s.devs[i].curSector <= |s.devs[i].disk| && DirtyDevice(s, i, CHUNK * c0, bad).ok
    requires CHUNK * c0 < s.devs[i].curSector
    ensures c0 in s.devs[i].dirty ==> CHUNK * c0 + CHUNK <= |s.devs[i].disk|
    ensures DirtyDevice(s, i, CHUNK * c0, bad) ==
            DirtyDevice(if c0 in s.devs[i].dirty then SendChunk(s, i, CHUNK * c0) else s, i, CHUNK * (c0 + 1), bad)
  {
    assert ChunkOf(CHUNK * c0) == c0 && CHUNK * c0 + CHUNK == CHUNK * (c0 + 1);
  }

  /** What sending a chunk changes. */
  lemma SendChunkFacts(s: State, i: nat, c0: nat)
    requires i < |s.devs| && CHUNK * c0 + CHUNK <= |s.devs[i].disk|
    ensures var s' := SendChunk(s, i, CHUNK * c0);
      && |s'.devs| == |s.devs| && s'.devs[i] == s.devs[i].(dirty := s.devs[i].dirty - {c0})
      && (forall j :: 0 <= j < |s.devs| && j != i ==> s'.devs[j] == s.devs[j])
      && s'.out == s.out + [DeviceBlock(i, CHUNK * c0, ChunkData(s.devs[i].disk, c0))]
  {
    AlignedRange(CHUNK * c0, CHUNK);
  }

  /** Sending a chunk changes its last copy and no other. */
  lemma SendChunkCopies(s: State, i: nat, c0: nat, j: nat, c: nat, default: seq<Sector>)
    requires i < |s.devs| && CHUNK * c0 + CHUNK <= |s.devs[i].disk|
    requires j < |s.devs| && CHUNK * c + CHUNK <= |s.devs[j].disk|
    ensures var s' := SendChunk(s, i, CHUNK * c0);
      && |s'.devs| == |s.devs| && s'.devs[j].disk == s.devs[j].disk && s'.devs[i].curSector == s.devs[i].curSector
      && (Sends(s'.devs[i], c) <==> Sends(s.devs[i], c) && c != c0)
      && Copy(s'.out, j, CHUNK * c, default) ==
         if j == i && c == c0 then ChunkData(s.devs[i].disk, c) else Copy(s.out, j, CHUNK * c, default)
  {
    var r := DeviceBlock(i, CHUNK * c0, ChunkData(s.devs[i].disk, c0));
    SendChunkFacts(s, i, c0);
    CopyAppend(s.out, r, j, CHUNK * c, default);
    assert About(r, j, CHUNK * c) <==> j == i && c == c0;
    hide SendChunk, Copy, ChunkData;
  }

  /** The stream after the pass over one device: a chunk it sends has the disk's data as its last copy,
      every other chunk has the copy it had. */
  lemma {:induction false} DirtyDeviceCopies(s: State, i: nat, c0: nat, bad: set<(nat, nat)>, j: nat, c: nat, default: seq<Sector>)
    requires i < |s.devs| && s.devs[i].curSector <= |s.devs[i].disk| && DirtyDevice(s, i, CHUNK * c0, bad).ok
    requires j < |s.devs| && CHUNK * c + CHUNK <= |s.devs[j].disk|
    ensures Copy(DirtyDevice(s, i, CHUNK * c0, bad).s.out, j, CHUNK * c, default) ==
            if j == i && c0 <= c && Sends(s.devs[i], c) then ChunkData(s.devs[i].disk, c)
            else Copy(s.out, j, CHUNK * c, default)
    decreases |s.devs[i].disk| + s.devs[i].curSector - CHUNK * c0
  {
    if CHUNK * c0 >= s.devs[i].curSector {
      DirtyDeviceDone(s, i, c0, bad);
    } else {
      DirtyDeviceStep(s, i, c0, bad);
      hide DirtyDevice, SendChunk, Copy, ChunkData;
      if c0 in s.devs[i].dirty {
        SendChunkCopies(s, i, c0, j, c, default);
        DirtyDeviceCopies(SendChunk(s, i, CHUNK * c0), i, c0 + 1, bad, j, c, default);
      } else {
        DirtyDeviceCopies(s, i, c0 + 1, bad, j, c, default);
      }
    }
  }

  lemma DirtyDeviceDone(s: State, i: nat, c0: nat, bad: set<(nat, nat)>)
    requires i < |s.devs| && CHUNK * c0 >= s.devs[i].curSector
    ensures DirtyDevice(s, i, CHUNK * c0, bad) == Pass(s, true)
    ensures forall c: nat :: c0 <= c ==> !Sends(s.devs[i], c)
  {}

  lemma {:induction false} DirtyPassCopies(s: State, i0: nat, bad: set<(nat, nat)>, j: nat, c: nat, default: seq<Sector>)
    requires i0 <= |s.devs| && DirtyPass(s, i0, bad).ok
    requires forall i :: 0 <= i < |s.devs| ==> s.devs[i].curSector <= |s.devs[i].disk|
    requires j < |s.devs| && CHUNK * c + CHUNK <= |s.devs[j].disk|
    ensures Copy(DirtyPass(s, i0, bad).s.out, j, CHUNK * c, default) ==
            if i0 <= j && Sends(s.devs[j], c) then ChunkData(s.devs[j].disk, c) else Copy(s.out, j, CHUNK * c, default)
    decreases |s.devs| - i0
  {
    if i0 < |s.devs| {
      var p := DirtyDevice(s, i0, 0, bad);
      DirtyDeviceFrame(s, i0, 0, bad);
      DirtyDeviceCopies(s, i0, 0, bad, j, c, default);
      DirtyPassCopies(p.s, i0 + 1, bad, j, c, default);
    }
  }

  /** What has been sent is whole chunks below the bulk position. */
  predicate OutOk(s: State) {
    forall k :: 0 <= k < |s.out| ==> RecordOk(s.out[k], s.devs)
  }

  lemma {:induction false} DirtyDeviceOut(s: State, i: nat, sector: nat, bad: set<(nat, nat)>)
    requires i < |s.devs| && sector % CHUNK == 0 && OutOk(s)
    ensures OutOk(DirtyDevice(s, i, sector, bad).s)
    decreases |s.devs[i].disk| + s.devs[i].curSector - sector
  {
    var d := s.devs[i];
    if sector < d.curSector {
      if sector < |d.disk| && ChunkOf(sector) in d.dirty {
        if !(sector + CHUNK > |d.disk| || (i, sector) in bad) {
          DirtyDeviceOut(SendChunk(s, i, sector), i, sector + CHUNK, bad);
        }
      } else {
        DirtyDeviceOut(s, i, sector + CHUNK, bad);
      }
    }
  }

  lemma {:induction false} DirtyPassOut(s: State, i0: nat, bad: set<(nat, nat)>)
    requires i0 <= |s.devs| && OutOk(s)
    ensures OutOk(DirtyPass(s, i0, bad).s) && SameSizes(s, DirtyPass(s, i0, bad).s)
    decreases |s.devs| - i0
  {
    if i0 < |s.devs| {
      DirtyDeviceFrame(s, i0, 0, bad);
      DirtyDeviceOut(s, i0, 0, bad);
      if DirtyDevice(s, i0, 0, bad).ok { DirtyPassOut(DirtyDevice(s, i0, 0, bad).s, i0 + 1, bad); }
    }
  }

  predicate SameSizes(s: State, s': State) {
    && |s'.devs| == |s.devs|
    && forall i :: 0 <= i < |s.devs| ==> |s'.devs[i].disk| == |s.devs[i].disk| && s'.devs[i].curSector == s.devs[i].curSector
  }

  // ---------- what the last pass sends ----------

  predicate Rising(cs: seq<nat>) { forall a, b :: 0 <= a < b < |cs| ==> cs[a] < cs[b] }

  /** The dirty chunks of a device in order, from c0 up to but without upTo, as far as the pass comes. */
  ghost predicate DirtyChunks(d: Dev, c0: nat, upTo: nat, cs: seq<nat>) {
    Rising(cs) && forall c: nat :: c in cs <==> c0 <= c < upTo && Sends(d, c)
  }

  predicate OnDevice(d: Dev, cs: seq<nat>) { forall k :: 0 <= k < |cs| ==> CHUNK * cs[k] + CHUNK <= |d.disk| }

  /** Chunks as the stream carries them. */
  function Blocks(i: nat, d: Dev, cs: seq<nat>): (rs: seq<Record>)
    requires OnDevice(d, cs)
    ensures |rs| == |cs|
  {
    if cs == [] then []
    else
      assert OnDevice(d, cs[1..]);
      [DeviceBlock(i, CHUNK * cs[0], ChunkData(d.disk, cs[0]))] + Blocks(i, d, cs[1..])
  }

  /** The dirty chunks of the device after those of cs have been sent. */
  ghost predicate Cleaned(d: Dev, d': Dev, cs: seq<nat>) {
    d' == d.(dirty := d'.dirty) && forall c: nat :: c in d'.dirty <==> c in d.dirty && c !in cs
  }

  /** The pass over a device sends its dirty chunks one after the other, each once and with the data of
      now, and clears them; it stops in front of the first that cannot be read. */
  ghost predicate DeviceSwept(s: State, p: Pass, i: nat, c0: nat, bad: set<(nat, nat)>, cs: seq<nat>, upTo: nat)
    requires i < |s.devs|
  {
    var d := s.devs[i];
    && |p.s.devs| == |s.devs| && OnDevice(d, cs)
    && c0 <= upTo && DirtyChunks(d, c0, upTo, cs) && (forall c :: c in cs ==> Readable(s, i, c, bad))
    && p.s.out == s.out + Blocks(i, d, cs) && Cleaned(d, p.s.devs[i], cs)
    && if p.ok then CHUNK * upTo >= d.curSector else Sends(d, upTo) && !Readable(s, i, upTo, bad)
  }

  lemma {:induction false} DirtyDeviceSends(s: State, i: nat, c0: nat, bad: set<(nat, nat)>) returns (cs: seq<nat>, upTo: nat)
    requires i < |s.devs| && s.devs[i].curSector <= |s.devs[i].disk|
    ensures DeviceSwept(s, DirtyDevice(s, i, CHUNK * c0, bad), i, c0, bad, cs, upTo)
    decreases |s.devs[i].disk| + s.devs[i].curSector - CHUNK * c0
  {
    var d := s.devs[i];
    cs, upTo := [], c0;
    NothingSent(s, i);
    assert ChunkOf(CHUNK * c0) == c0 && CHUNK * c0 + CHUNK == CHUNK * (c0 + 1);
    if CHUNK * c0 < d.curSector {
      if c0 !in d.dirty {
        hide DeviceSwept;
        cs, upTo := DirtyDeviceSends(s, i, c0 + 1, bad);
        SkipsClean(s, DirtyDevice(s, i, CHUNK * (c0 + 1), bad), i, c0, bad, cs, upTo);
      } else if Readable(s, i, c0, bad) {
        hide DeviceSwept;
        var s' := SendChunk(s, i, CHUNK * c0);
        SendChunkFacts(s, i, c0);
        var later;
        later, upTo := DirtyDeviceSends(s', i, c0 + 1, bad);
        cs := [c0] + later;
        hide SendChunk;
        SendsDirty(s, s', DirtyDevice(s', i, CHUNK * (c0 + 1), bad), i, c0, bad, later, upTo);
      }
    }
  }

  lemma NothingSent(s: State, i: nat)
    requires i < |s.devs|
    ensures s.out + Blocks(i, s.devs[i], []) == s.out && Cleaned(s.devs[i], s.devs[i], [])
  {}

  lemma SkipsClean(s: State, p: Pass, i: nat, c0: nat, bad: set<(nat, nat)>, cs: seq<nat>, upTo: nat)
    requires i < |s.devs| && c0 !in s.devs[i].dirty && DeviceSwept(s, p, i, c0 + 1, bad, cs, upTo)
    ensures DeviceSwept(s, p, i, c0, bad, cs, upTo)
  {}

  lemma MoreDirty(d: Dev, d': Dev, c0: nat, upTo: nat, later: seq<nat>)
    requires d' == d.(dirty := d.dirty - {c0}) && Sends(d, c0) && c0 < upTo && DirtyChunks(d', c0 + 1, upTo, later)
    ensures DirtyChunks(d, c0, upTo, [c0] + later) && (forall c :: c in [c0] + later <==> c == c0 || c in later)
  {
    assert forall k :: 0 <= k < |later| ==> later[k] in later;
    assert forall c: nat :: c0 < c ==> (Sends(d', c) <==> Sends(d, c));
  }

  lemma SendsDirty(s: State, s': State, p: Pass, i: nat, c0: nat, bad: set<(nat, nat)>, later: seq<nat>, upTo: nat)
    requires i < |s.devs| == |s'.devs| && Sends(s.devs[i], c0) && Readable(s, i, c0, bad)
    requires s'.devs[i] == s.devs[i].(dirty := s.devs[i].dirty - {c0})
    requires s'.out == s.out + [DeviceBlock(i, CHUNK * c0, ChunkData(s.devs[i].disk, c0))]
    requires DeviceSwept(s', p, i, c0 + 1, bad, later, upTo)
    ensures DeviceSwept(s, p, i, c0, bad, [c0] + later, upTo)
  {
    var d, d', cs := s.devs[i], s'.devs[i], [c0] + later;
    assert cs[1..] == later;
    assert forall c: nat :: Readable(s', i, c, bad) <==> Readable(s, i, c, bad);
    MoreDirty(d, d', c0, upTo, later);
    hide DirtyChunks;
    SameBlocks(i, d, d', later);
    Regroup(s.out, DeviceBlock(i, CHUNK * c0, ChunkData(d.disk, c0)), Blocks(i, d, later));
    hide ChunkData;
  }

  /** The dirty chunks of the device have all been sent, in order, or those in front of the first that
      cannot be read. */
  ghost predicate SentFrom(i: nat, d: Dev, ok: bool, bad: set<(nat, nat)>, cs: seq<nat>) {
    exists upTo ::
      && DirtyChunks(d, 0, upTo, cs)
      && if ok then CHUNK * upTo >= d.curSector
         else Sends(d, upTo) && !(CHUNK * upTo + CHUNK <= |d.disk| && (i, CHUNK * upTo) !in bad)
  }

  /** What the last pass sends of the devices ds, the first of which is number i: device after device its
      dirty chunks, each once, with the data of now; what has been sent is clean afterwards.  A chunk
      that cannot be read ends the pass. */
  ghost predicate PassSends(i: nat, ds: seq<Dev>, ds': seq<Dev>, ok: bool, bad: set<(nat, nat)>, rs: seq<Record>)
    decreases |ds|
  {
    |ds'| == |ds| &&
    if ds == [] then ok && rs == []
    else
      exists cs: seq<nat>, later: seq<Record> ::
        && OnDevice(ds[0], cs) && Cleaned(ds[0], ds'[0], cs) && rs == Blocks(i, ds[0], cs) + later
        && (|| (SentFrom(i, ds[0], true, bad, cs) && PassSends(i + 1, ds[1..], ds'[1..], ok, bad, later))
            || (!ok && later == [] && ds'[1..] == ds[1..] && SentFrom(i, ds[0], false, bad, cs)))
  }

  lemma {:induction false} DirtyPassSends(s: State, i: nat, bad: set<(nat, nat)>) returns (rs: seq<Record>)
    requires i <= |s.devs| && forall k :: 0 <= k < |s.devs| ==> s.devs[k].curSector <= |s.devs[k].disk|
    ensures var p := DirtyPass(s, i, bad);
      && |p.s.devs| == |s.devs| && p.s.devs[..i] == s.devs[..i] && p.s.out == s.out + rs
      && PassSends(i, s.devs[i..], p.s.devs[i..], p.ok, bad, rs)
    decreases |s.devs| - i
  {
    rs := [];
    if i == |s.devs| {
      assert s.out + [] == s.out;
    } else {
      var p, q := DirtyDevice(s, i, 0, bad), DirtyPass(s, i, bad);
      DirtyDeviceFrame(s, i, 0, bad);
      var cs, upTo := DirtyDeviceSends(s, i, 0, bad);
      assert SentFrom(i, s.devs[i], p.ok, bad, cs);
      var first := Blocks(i, s.devs[i], cs);
      var later := [];
      if p.ok { later := DirtyPassSends(p.s, i + 1, bad); }
      rs := first + later;
      hide DirtyDevice, DirtyPass, DeviceSwept, SentFrom, Blocks;
      Assoc(s.out, first, later);
      Passed(s, p, q, i, bad, cs, later);
    }
  }

  lemma Passed(s: State, p: Pass, q: Pass, i: nat, bad: set<(nat, nat)>, cs: seq<nat>, later: seq<Record>)
    requires i < |s.devs| == |p.s.devs| == |q.s.devs| && OnDevice(s.devs[i], cs) && Cleaned(s.devs[i], p.s.devs[i], cs)
    requires SentFrom(i, s.devs[i], p.ok, bad, cs)
    requires forall k :: 0 <= k < |s.devs| && k != i ==> p.s.devs[k] == s.devs[k]
    requires if p.ok then q.s.devs[..i + 1] == p.s.devs[..i + 1] &&
               PassSends(i + 1, p.s.devs[i + 1..], q.s.devs[i + 1..], q.ok, bad, later)
             else q == p && later == []
    ensures q.s.devs[..i] == s.devs[..i]
    ensures PassSends(i, s.devs[i..], q.s.devs[i..], q.ok, bad, Blocks(i, s.devs[i], cs) + later)
  {
    hide Blocks, SentFrom, Cleaned;
    var ds, ds' := s.devs[i..], q.s.devs[i..];
    assert ds[1..] == s.devs[i + 1..] == p.s.devs[i + 1..] && ds'[1..] == q.s.devs[i + 1..];
    assert ds[0] == s.devs[i] && ds'[0] == q.s.devs[i];
    if p.ok { assert q.s.devs[i] == q.s.devs[..i + 1][i] == p.s.devs[i]; }
    forall k | 0 <= k < i ensures q.s.devs[k] == s.devs[k] {
      if p.ok { assert q.s.devs[k] == q.s.devs[..i + 1][k]; }
    }
  }

  lemma {:induction false} SameBlocks(i: nat, d: Dev, d': Dev, cs: seq<nat>)
    requires d.disk == d'.disk && OnDevice(d, cs)
    ensures OnDevice(d', cs) && Blocks(i, d', cs) == Blocks(i, d, cs)
  {
    if cs != [] {
      assert OnDevice(d, cs[1..]);
      SameBlocks(i, d, d', cs[1..]);
    }
  }

  // ---------- the loader ----------

  /** What block_load does with one record.  A write that does not fit the device is rejected by the
      block layer, and the loader ignores the rejection. */
  function Load(disks: seq<Disk>, r: Record): (d: seq<Disk>)
    ensures |d| == |disks| && forall i :: 0 <= i < |disks| ==> |d[i]| == |disks[i]|
  {
    if r.DeviceBlock? && r.dev < |disks| && r.sector + |r.data| <= |disks[r.dev]| then
      disks[r.dev := Overwrite(disks[r.dev], r.sector, r.data)]
    else disks
  }

  function Replay(disks: seq<Disk>, rs: seq<Record>): (d: seq<Disk>)
    ensures |d| == |disks| && forall i :: 0 <= i < |disks| ==> |d[i]| == |disks[i]|
  {
    if |rs| == 0 then disks else Load(Replay(disks, rs[..|rs| - 1]), rs[|rs| - 1])
  }

  predicate WholeChunks(rs: seq<Record>) {
    forall k :: 0 <= k < |rs| && rs[k].DeviceBlock? ==> rs[k].sector % CHUNK == 0 && |rs[k].data| == CHUNK
  }

  /** Replaying a stream of whole chunks leaves in every chunk the last copy sent for it. */
  lemma {:induction false} ReplayChunk(base: seq<Disk>, rs: seq<Record>, i: nat, c: nat)
    requires WholeChunks(rs) && i < |base| && CHUNK * c + CHUNK <= |base[i]|
    ensures ChunkData(Replay(base, rs)[i], c) == Copy(rs, i, CHUNK * c, ChunkData(base[i], c))
  {
    if |rs| > 0 {
      var n := |rs| - 1;
      ReplayChunk(base, rs[..n], i, c);
      LoadChunk(Replay(base, rs[..n]), rs[n], i, c);
    }
  }

  lemma LoadChunk(disks: seq<Disk>, r: Record, i: nat, c: nat)
    requires r.DeviceBlock? ==> r.sector % CHUNK == 0 && |r.data| == CHUNK
    requires i < |disks| && CHUNK * c + CHUNK <= |disks[i]|
    ensures ChunkData(Load(disks, r)[i], c) == if About(r, i, CHUNK * c) then r.data else ChunkData(disks[i], c)
  {
    var after := Load(disks, r)[i];
    if r.DeviceBlock? && r.dev == i {
      var c' := r.sector / CHUNK;
      assert r.sector == CHUNK * c';
      if c' != c {
        assert forall x :: CHUNK * c <= x < CHUNK * c + CHUNK ==> after[x] == disks[i][x];
      }
    }
  }

  /** The sectors before the last chunk boundary of a device. */
  function WholeSectors(d: Disk): nat { CHUNK * (|d| / CHUNK) }

  /** Sectors behind the last chunk boundary are never written. */
  lemma {:induction false} ReplayTail(base: seq<Disk>, rs: seq<Record>, i: nat, x: nat)
    requires WholeChunks(rs) && i < |base| && WholeSectors(base[i]) <= x < |base[i]|
    ensures Replay(base, rs)[i][x] == base[i][x]
  {
    if |rs| > 0 {
      var n := |rs| - 1;
      ReplayTail(base, rs[..n], i, x);
      var r := rs[n];
      if r.DeviceBlock? && r.dev == i && r.sector + CHUNK <= |base[i]| {
        assert r.sector == CHUNK * (r.sector / CHUNK);
        assert r.sector / CHUNK + 1 <= |base[i]| / CHUNK;
      }
    }
  }

  // ---------- end to end ----------

  /** The stream of a whole migration: everything of the live stages, the last pass, and the two
      closing records. */
  function FinalStream(s: State): seq<Record> { s.out + [Progress(100), Eos] }

  function Sources(s: State): (d: seq<Disk>)
    ensures |d| == |s.devs| && forall i :: 0 <= i < |d| ==> d[i] == s.devs[i].disk
  {
    seq(|s.devs|, i requires 0 <= i < |s.devs| => s.devs[i].disk)
  }

  /** The last stage may start: stage 2 is complete and the flush has emptied the queue. */
  predicate ReadyToFinish(s: State) {
    IsStage2Completed(s) && s.blkList == []
  }

  predicate AllBulked(s: State) {
    forall i :: 0 <= i < |s.devs| ==> s.devs[i].bulkCompleted
  }

  predicate Waiting(s: State, i: nat, c: nat) {
    exists k :: 0 <= k < |s.blkList| && AboutBlk(s.blkList[k], i, CHUNK * c)
  }

  /** A clean chunk whose only copy is still being read or waits in the queue: the clean-up of the last
      stage throws it away. */
  predicate Lost(s: State, i: nat, c: nat)
    requires i < |s.devs|
  {
    c !in s.devs[i].dirty && (InFlight(s, i, c) || Waiting(s, i, c))
  }

  lemma HeldMeans(s: State, i: nat, c: nat)
    ensures InFlight(s, i, c) || Waiting(s, i, c) ==> (i, CHUNK * c) in Held(s)
  {
    if InFlight(s, i, c) {
      var k :| 0 <= k < |s.flight| && s.flight[k].dev == i && s.flight[k].sector == CHUNK * c;
      assert FlightSpots(s.flight)[k] == (i, CHUNK * c);
    } else if Waiting(s, i, c) {
      var k :| 0 <= k < |s.blkList| && AboutBlk(s.blkList[k], i, CHUNK * c);
      assert BlkSpots(s.blkList)[k] == (i, CHUNK * c);
    }
  }

  lemma {:induction false} CopyUnsent(rs: seq<Record>, dev: nat, sector: nat, default: seq<Sector>)
    requires !Sent(rs, (dev, sector))
    ensures Copy(rs, dev, sector, default) == default
  {
    if |rs| > 0 {
      var n := |rs| - 1;
      assert rs == rs[..n] + [rs[n]];
      SentAppend(rs[..n], rs[n], (dev, sector));
      CopyUnsent(rs[..n], dev, sector, default);
    }
  }

  lemma {:induction false} CopyAbsentTail(rs: seq<Record>, ts: seq<Record>, dev: nat, sector: nat, default: seq<Sector>)
    requires forall k :: 0 <= k < |ts| ==> !About(ts[k], dev, sector)
    ensures Copy(rs + ts, dev, sector, default) == Copy(rs, dev, sector, default)
    decreases |ts|
  {
    if |ts| == 0 {
      assert rs + ts == rs;
    } else {
      var n := |ts| - 1;
      assert rs + ts == (rs + ts[..n]) + [ts[n]];
      CopyAppend(rs + ts[..n], ts[n], dev, sector, default);
      CopyAbsentTail(rs, ts[..n], dev, sector, default);
    }
  }

  /** What the stream holds of a chunk before the last pass, if the pass will not send it. */
  lemma CleanChunk(s: State, base: seq<Disk>, i: nat, c: nat)
    requires Inv(s, base) && ReadOnce(s) && !s.hasError && AllBulked(s)
    requires i < |base| && CHUNK * c + CHUNK <= |base[i]| && c !in s.devs[i].dirty
    ensures |s.devs[i].disk| == |base[i]|
    ensures Copy(s.out, i, CHUNK * c, ChunkData(base[i], c)) ==
            if Lost(s, i, c) then ChunkData(base[i], c) else ChunkData(s.devs[i].disk, c)
  {
    assert DevOk(s.devs[i], base[i]) && Settled(s, base, i, c);
    if Lost(s, i, c) {
      HeldMeans(s, i, c);
      CopyUnsent(s.out, i, CHUNK * c, ChunkData(base[i], c));
    } else {
      assert FailedRead(s, i, c) ==> Waiting(s, i, c);
      var queue := AsRecords(s.blkList);
      forall k | 0 <= k < |queue| ensures !About(queue[k], i, CHUNK * c) {
        assert !AboutBlk(s.blkList[k], i, CHUNK * c);
      }
      CopyAbsentTail(s.out, queue, i, CHUNK * c, ChunkData(base[i], c));
    }
  }

  /** What the whole stream holds of a chunk. */
  lemma FinishedChunk(s: State, base: seq<Disk>, bad: set<(nat, nat)>, i: nat, c: nat)
    requires Inv(s, base) && ReadOnce(s) && !s.hasError && AllBulked(s) && DirtyPass(s, 0, bad).ok
    requires i < |base| && CHUNK * c + CHUNK <= |base[i]|
    ensures |s.devs[i].disk| == |base[i]|
    ensures Copy(FinalStream(DirtyPass(s, 0, bad).s), i, CHUNK * c, ChunkData(base[i], c)) ==
            if Lost(s, i, c) then ChunkData(base[i], c) else ChunkData(s.devs[i].disk, c)
  {
    var out, default := DirtyPass(s, 0, bad).s.out, ChunkData(base[i], c);
    forall j | 0 <= j < |s.devs| ensures s.devs[j].curSector <= |s.devs[j].disk| {
      assert DevOk(s.devs[j], base[j]);
    }
    assert DevOk(s.devs[i], base[i]);
    DirtyPassCopies(s, 0, bad, i, c, default);
    if c !in s.devs[i].dirty { CleanChunk(s, base, i, c); }
    CopyAbsentTail(out, [Progress(100), Eos], i, CHUNK * c, default);
  }

  lemma StreamIsWholeChunks(s: State, base: seq<Disk>, bad: set<(nat, nat)>)
    requires Shape(s, base)
    ensures WholeChunks(FinalStream(DirtyPass(s, 0, bad).s))
  {
    DirtyPassOut(s, 0, bad);
    var s' := DirtyPass(s, 0, bad).s;
    assert forall k :: 0 <= k < |s'.out| ==> RecordOk(s'.out[k], s'.devs);
  }

  /** The destination after the last stage, sector by sector: the source's data in every whole chunk
      that was not lost, and everywhere else what the destination held before. */
  lemma Delivered(s: State, base: seq<Disk>, bad: set<(nat, nat)>, i: nat, x: nat)
    requires Inv(s, base) && ReadOnce(s) && !s.hasError && AllBulked(s) && DirtyPass(s, 0, bad).ok
    requires i < |base| && x < |base[i]|
    ensures |s.devs[i].disk| == |base[i]| && |s.devs| == |base|
    ensures Replay(base, FinalStream(DirtyPass(s, 0, bad).s))[i][x] ==
            if x < WholeSectors(base[i]) && !Lost(s, i, x / CHUNK) then s.devs[i].disk[x] else base[i][x]
  {
    var stream := FinalStream(DirtyPass(s, 0, bad).s);
    StreamIsWholeChunks(s, base, bad);
    assert DevOk(s.devs[i], base[i]);
    hide Inv, ReadOnce, DirtyPass, FinalStream, WholeChunks, Replay, Copy, Lost, AllBulked;
    if x < WholeSectors(base[i]) {
      FinishedChunk(s, base, bad, i, x / CHUNK);
      ReplayChunk(base, stream, i, x / CHUNK);
      SectorOfChunk(Replay(base, stream)[i], if Lost(s, i, x / CHUNK) then base[i] else s.devs[i].disk, x);
    } else {
      ReplayTail(base, stream, i, x);
    }
  }

  lemma SectorOfChunk(a: Disk, b: Disk, x: nat)
    requires x < WholeSectors(a) && |a| == |b| && ChunkData(a, x / CHUNK) == ChunkData(b, x / CHUNK)
    ensures a[x] == b[x]
  {
    var c := x / CHUNK;
    assert ChunkData(a, c)[x - CHUNK * c] == a[x] && ChunkData(b, c)[x - CHUNK * c] == b[x];
  }

  /** Every lost chunk already reads at the destination as it does at the source. */
  ghost predicate LostAgree(s: State, base: seq<Disk>)
    requires |s.devs| == |base| && forall i :: 0 <= i < |base| ==> |base[i]| == |s.devs[i].disk|
  {
    forall i, c: nat :: 0 <= i < |base| && CHUNK * c + CHUNK <= |base[i]| && Lost(s, i, c) ==>
      ChunkData(base[i], c) == ChunkData(s.devs[i].disk, c)
  }

  predicate TailsAgree(base: seq<Disk>, disks: seq<Disk>)
    requires |base| == |disks| && forall i :: 0 <= i < |base| ==> |base[i]| == |disks[i]|
  {
    forall i, x :: 0 <= i < |base| && WholeSectors(base[i]) <= x < |base[i]| ==> base[i][x] == disks[i][x]
  }

  /** The stream rebuilds the disks exactly if nothing that does not arrive differs. */
  lemma CopiesExactly(s: State, base: seq<Disk>, bad: set<(nat, nat)>)
    requires Inv(s, base) && ReadOnce(s) && !s.hasError && AllBulked(s) && DirtyPass(s, 0, bad).ok
    ensures |s.devs| == |base| && forall i :: 0 <= i < |base| ==> |base[i]| == |s.devs[i].disk|
    ensures Replay(base, FinalStream(DirtyPass(s, 0, bad).s)) == Sources(s) <==>
            TailsAgree(base, Sources(s)) && LostAgree(s, base)
  {
    forall i | 0 <= i < |base| ensures |base[i]| == |s.devs[i].disk| {
      assert DevOk(s.devs[i], base[i]);
    }
    var dest, src := Replay(base, FinalStream(DirtyPass(s, 0, bad).s)), Sources(s);
    forall i, x | 0 <= i < |base| && 0 <= x < |base[i]|
      ensures dest[i][x] == if x < WholeSectors(base[i]) && !Lost(s, i, x / CHUNK) then src[i][x] else base[i][x]
    {
      Delivered(s, base, bad, i, x);
    }
    hide Inv, ReadOnce, DirtyPass, FinalStream, Replay, Lost, AllBulked;
    if TailsAgree(base, src) && LostAgree(s, base) {
      forall i | 0 <= i < |base| ensures dest[i] == src[i] {
        forall x | 0 <= x < |base[i]| ensures dest[i][x] == src[i][x] {
          if x < WholeSectors(base[i]) && Lost(s, i, x / CHUNK) { SectorOfChunk(base[i], src[i], x); }
        }
      }
    }
    if dest == src {
      forall i, x | 0 <= i < |base| && WholeSectors(base[i]) <= x < |base[i]| ensures base[i][x] == src[i][x] {
        assert dest[i][x] == base[i][x];
      }
      forall i, c: nat | 0 <= i < |base| && CHUNK * c + CHUNK <= |base[i]| && Lost(s, i, c)
        ensures ChunkData(base[i], c) == ChunkData(s.devs[i].disk, c)
      {
        LostChunk(dest[i], base[i], src[i], c);
      }
    }
  }

  lemma LostChunk(dest: Disk, base: Disk, src: Disk, c: nat)
    requires |dest| == |base| == |src| && CHUNK * c + CHUNK <= |base| && dest == src
    requires forall x :: CHUNK * c <= x < CHUNK * c + CHUNK && x / CHUNK == c && x < WholeSectors(base) ==> dest[x] == base[x]
    ensures ChunkData(base, c) == ChunkData(src, c)
  {
    forall x | CHUNK * c <= x < CHUNK * c + CHUNK ensures base[x] == src[x] {
      assert x / CHUNK == c && c + 1 <= |base| / CHUNK;
    }
  }

  /** The main theorem.  For every run of the live stages from every start, if the bulk phase is over
      and the last stage meets no error, then replaying the stream makes every destination disk equal
      to its source exactly when two kinds of data agreed already: the sectors behind the last chunk
      boundary, and the chunks lost with a read that was outstanding or a queue that was not empty.
      If the last stage begins drained and the devices are whole chunks, that is always. */
  lemma MigrationCopies(disks: seq<Disk>, dirty: seq<set<nat>>, alloc: seq<set<nat>>, sharedBase: bool,
                        base: seq<Disk>, events: seq<Event>, s: State, bad: set<(nat, nat)>)
    requires |disks| == |dirty| && GoodStart(disks, alloc, sharedBase, base)
    requires Reaches(Init(disks, dirty, alloc, sharedBase), events, s)
    requires AllBulked(s) && !s.hasError && DirtyPass(s, 0, bad).ok
    ensures |s.devs| == |base| && forall i :: 0 <= i < |base| ==> |base[i]| == |s.devs[i].disk|
    ensures Replay(base, FinalStream(DirtyPass(s, 0, bad).s)) == Sources(s) <==>
            TailsAgree(base, Sources(s)) && LostAgree(s, base)
    ensures ReadyToFinish(s) ==> LostAgree(s, base)
    ensures (forall i :: 0 <= i < |base| ==> |base[i]| % CHUNK == 0) ==> TailsAgree(base, Sources(s))
  {
    var s0 := Init(disks, dirty, alloc, sharedBase);
    InitInv(disks, dirty, alloc, sharedBase, base);
    InitOnce(disks, dirty, alloc, sharedBase);
    RunInv(s0, events, s, base);
    RunOnce(s0, events, s, base);
    CopiesExactly(s, base, bad);
  }

  // ---------- why the hypotheses are there ----------

  /** Chunks do get lost.  If the rate limiter stops the flushes of the last stage, the clean-up throws
      the queued blocks away: here one device of one chunk is read, never written by the guest, and
      still nothing arrives, although stage 2 is complete and no error is reported. */
  lemma DroppedQueueLoses(d: Disk, b: Disk) returns (s: State)
    requires |d| == CHUNK && |b| == CHUNK
    ensures Reaches(Init([d], [{}], [{}], false), [Bulk(Submitted), Completion(0, d, 0)], s)
    ensures IsStage2Completed(s) && s.blkList != [] && !s.hasError && DirtyPass(s, 0, {}).ok
    ensures Replay([b], FinalStream(DirtyPass(s, 0, {}).s)) == [b]
  {
    var s0 := Init([d], [{}], [{}], false);
    var s1 := ShortBulk(d);
    var done := Completion(0, d, 0);
    hide TotalSum, SaveBulked, Pending, Init;
    s := Step(s1, done);
    assert Reaches(s, [], s);
    OneEvent(s1, done, s, []);
    assert [done] + [] == [done];
    OneEvent(s0, Bulk(Submitted), s, [done]);
    assert s.devs[0].dirty == {};
    assert DirtyDevice(s, 0, 0, {}) == DirtyDevice(s, 0, CHUNK, {}) == Pass(s, true);
    assert DirtyPass(s, 0, {}) == Pass(s, true);
    OnlyDataCounts([b], FinalStream(s));
  }

  lemma {:induction false} OnlyDataCounts(base: seq<Disk>, rs: seq<Record>)
    requires forall k :: 0 <= k < |rs| ==> !rs[k].DeviceBlock?
    ensures Replay(base, rs) == base
  {
    if |rs| > 0 { OnlyDataCounts(base, rs[..|rs| - 1]); }
  }

  /** A device of at most one chunk is submitted as a whole. */
  lemma ShortBulk(d: Disk) returns (s: State)
    requires 0 < |d| <= CHUNK
    ensures Possible(Init([d], [{}], [{}], false), Bulk(Submitted))
    ensures s == Step(Init([d], [{}], [{}], false), Bulk(Submitted))
    ensures forall k :: 0 <= k < |s.out| ==> !s.out[k].DeviceBlock?
    ensures s.devs == [Dev(d, {}, {}, false, true, |d|, 0)] && s.submitted == 1 && s.blkList == [] && !s.hasError
    ensures |s.flight| == 1 && s.flight[0].dev == 0 && s.flight[0].sector == 0 && |s.flight[0].seen| == |d|
    ensures forall k :: 0 <= k < |d| ==> s.flight[0].seen[k] == {d[k]}
  {
    var s0 := Init([d], [{}], [{}], false);
    assert TotalSum(s0.devs) == |d|;
    assert Pending(s0.devs, 0) == 0 && Scan(s0.devs[0]) == 0;
    s := Step(s0, Bulk(Submitted));
    assert s.devs[0] == Advance(s0.devs[0], 0, 0, |d|) && s.devs[0].dirty == {};
  }

  /** The last pass must not meet a dirty partial chunk.  A device shorter than a chunk is read, its
      read completes and is sent, and then the guest writes to it: the last stage begins drained and
      without an error, and yet its pass fails, whatever the driver would have accepted. */
  lemma DirtyPartialChunkFails(d: Disk, buf: seq<Sector>, v: Sector, bad: set<(nat, nat)>) returns (s: State)
    requires 0 < |d| < CHUNK == |buf| && forall k :: 0 <= k < |d| ==> buf[k] == d[k]
    ensures Reaches(Init([d], [{}], [{}], false), [Bulk(Submitted), Completion(0, buf, 0), Flush, DiskWrite(0, 0, [v], {0})], s)
    ensures ReadyToFinish(s) && !s.hasError && !DirtyPass(s, 0, bad).ok
  {
    var s0 := Init([d], [{}], [{}], false);
    var s1 := ShortBulk(d);
    hide TotalSum, SaveBulked, Pending, Init;
    var done, write := Completion(0, buf, 0), DiskWrite(0, 0, [v], {0});
    assert Possible(s1, done);
    var s2 := Step(s1, done);
    var s3 := Step(s2, Flush);
    s := Step(s3, write);
    assert Possible(s3, write) && Possible(s2, Flush);
    assert s.devs[0].curSector == |d| && |s.devs[0].disk| == |d| && s.devs[0].bulkCompleted;
    ChunksOfMeaning(0, 1, 0);
    assert ChunkOf(0) == 0 && Sends(s.devs[0], 0);
    hide GuestWrite, ReadCallback, FlushOne, Possible, Step, DirtyPass, ChunksOf;
    FourEvents(s0, Bulk(Submitted), s1, done, s2, Flush, s3, write, s);
    assert !Readable(s, 0, 0, bad);
    DirtyPassOk(s, 0, bad);
  }

  lemma FourEvents(s0: State, e0: Event, s1: State, e1: Event, s2: State, e2: Event, s3: State, e3: Event, s4: State)
    requires Possible(s0, e0) && s1 == Step(s0, e0) && Possible(s1, e1) && s2 == Step(s1, e1)
    requires Possible(s2, e2) && s3 == Step(s2, e2) && Possible(s3, e3) && s4 == Step(s3, e3)
    ensures Reaches(s0, [e0, e1, e2, e3], s4)
  {
    hide Possible, Step;
    assert Reaches(s4, [], s4);
    OneEvent(s3, e3, s4, []);
    assert [e3] + [] == [e3];
    OneEvent(s2, e2, s4, [e3]);
    OneEvent(s1, e1, s4, [e2, e3]);
    OneEvent(s0, e0, s4, [e1, e2, e3]);
    assert [e0] + ([e1] + ([e2] + [e3])) == [e0, e1, e2, e3];
  }

  lemma OneEvent(s: State, e: Event, s': State, later: seq<Event>)
    requires Possible(s, e) && Reaches(Step(s, e), later, s')
    ensures Reaches(s, [e] + later, s')
  {
    assert ([e] + later)[1..] == later;
  }
}
