/**
 Live block migration (block-migration.c) as a state machine.  The source copies every disk in
 bulk with asynchronous reads while the guest keeps writing; a dirty set records re-written
 chunks and the last stage sends those again.  A run is any interleaving of guest writes, bulk
 submissions, read completions in any order and partial flushes.

 Asynchronous reads are as weak as they can be: the driver may fetch each sector of the buffer
 at any moment between submission and completion, independently of the others.
 */
module Migration {
  import opened DirtyBitmap

  const CHUNK := SECTORS_PER_CHUNK

  const SECTOR_SIZE := 512

  type Byte = b: int | 0 <= b < 256
  type Sector = s: seq<Byte> | |s| == SECTOR_SIZE witness seq(SECTOR_SIZE, _ => 0)
  type Disk = seq<Sector>

  // ---------- the state ----------

  /** One migrated device: the source disk with its dirty chunks and allocated sectors, and the
      progress fields the migration keeps for it. */
  datatype Dev = Dev(
    disk: Disk,
    dirty: set<nat>,
    alloc: set<nat>,
    sharedBase: bool,
    bulkCompleted: bool,
    curSector: nat,
    completedSectors: nat)

  /** A submitted read.  seen[k] holds every value sector k of the request has had since. */
  datatype Flight = Flight(dev: nat, sector: nat, seen: seq<set<Sector>>)

  /** A finished read waiting to be sent; ret is the driver's status. */
  datatype Blk = Blk(dev: nat, sector: nat, buf: seq<Sector>, ret: int)

  /** What the stream carries. */
  datatype Record =
    | DeviceBlock(dev: nat, sector: nat, data: seq<Sector>)
    | Progress(percent: int)
    | Eos

  datatype State = State(
    devs: seq<Dev>,
    flight: seq<Flight>,
    blkList: seq<Blk>,
    submitted: int,
    readDone: int,
    transferred: int,
    out: seq<Record>,
    hasError: bool,
    prevProgress: int,
    asyncReads: nat)

  function Init(disks: seq<Disk>, dirty: seq<set<nat>>, alloc: seq<set<nat>>, sharedBase: bool): State
    requires |disks| == |dirty| == |alloc|
  {
    State(seq(|disks|, i requires 0 <= i < |disks| => Dev(disks[i], dirty[i], alloc[i], sharedBase, false, 0, 0)),
          [], [], 0, 0, 0, [], false, -1, 0)
  }

  // ---------- the bulk phase ----------

  /** The first allocated sector at or after cur, or total. */
  function FirstAllocated(alloc: set<nat>, cur: nat, total: nat): (r: nat)
    requires cur <= total
    ensures cur <= r <= total && (r < total ==> r in alloc)
    ensures forall x :: cur <= x < r ==> x !in alloc
    decreases total - cur
  {
    if cur == total || cur in alloc then cur else FirstAllocated(alloc, cur + 1, total)
  }

  /** Where the next bulk read looks for data. */
  function Scan(d: Dev): nat
    requires d.curSector <= |d.disk|
  {
    if d.sharedBase then FirstAllocated(d.alloc, d.curSector, |d.disk|) else d.curSector
  }

  function AlignDown(sector: nat): nat { sector - sector % CHUNK }

  /** The number of sectors a bulk read at this position asks for. */
  function Count(d: Dev, start: nat): nat
    requires start <= |d.disk|
  {
    if |d.disk| - start < CHUNK then |d.disk| - start else CHUNK
  }

  /** The device after its last sector has been passed over. */
  function Finish(d: Dev): Dev {
    d.(curSector := |d.disk|, completedSectors := |d.disk|, bulkCompleted := true)
  }

  /** The device after a read of count sectors at start has been issued: the range is clean from now on. */
  function Advance(d: Dev, scan: nat, start: nat, count: nat): Dev {
    d.(completedSectors := scan,
       dirty := d.dirty - ChunksOf(start, count),
       curSector := start + count,
       bulkCompleted := start + count >= |d.disk|)
  }

  /** The outcome of one bulk read: refused by the driver, submitted, or done at once with the
      leftover bytes of a short buffer. */
  datatype ReadOutcome = Failed | Submitted | Done(leftover: seq<Sector>)

  /** mig_save_device_bulk on device i. */
  function SaveDeviceBulk(s: State, i: nat, o: ReadOutcome): State
    requires i < |s.devs| && s.devs[i].curSector <= |s.devs[i].disk|
  {
    var d := s.devs[i];
    var scan := Scan(d);
    if scan >= |d.disk| then s.(devs := s.devs[i := Finish(d)])
    else
      var start := AlignDown(scan);
      var count := Count(d, start);
      var s' := s.(devs := s.devs[i := Advance(d, scan, start, count)]);
      match o
      case Failed => s.(devs := s.devs[i := d.(completedSectors := scan)], hasError := true)
      case Submitted =>
        s'.(flight := s.flight + [Flight(i, start, seq(count, k requires 0 <= k < count => {d.disk[start + k]}))],
            submitted := s.submitted + 1, asyncReads := s.asyncReads + 1)
      case Done(leftover) =>
        s'.(out := s.out + [DeviceBlock(i, start, d.disk[start..start + count] + leftover)])
  }

  /** The first device, from i on, whose bulk phase is not over. */
  function Pending(devs: seq<Dev>, i: nat): (r: nat)
    requires i <= |devs|
    ensures i <= r <= |devs|
    ensures forall k :: i <= k < r ==> devs[k].bulkCompleted
    ensures r < |devs| ==> !devs[r].bulkCompleted
    decreases |devs| - i
  {
    if i == |devs| || !devs[i].bulkCompleted then i else Pending(devs, i + 1)
  }

  function CompletedSum(devs: seq<Dev>, n: nat): nat
    requires n <= |devs|
  {
    if n == 0 then 0 else CompletedSum(devs, n - 1) + devs[n - 1].completedSectors
  }

  function TotalSum(devs: seq<Dev>): nat {
    if |devs| == 0 then 0 else TotalSum(devs[..|devs| - 1]) + |devs[|devs| - 1].disk|
  }

  /** The percentage reported after a bulk step that stopped at device i. */
  function Percent(devs: seq<Dev>, i: nat): int
    requires i <= |devs| && 0 < TotalSum(devs)
  {
    var n := if i < |devs| then i + 1 else i;
    CompletedSum(devs, n) * 100 / TotalSum(devs)
  }

  function Report(s: State, i: nat): State
    requires i <= |s.devs| && 0 < TotalSum(s.devs)
  {
    var p := Percent(s.devs, i);
    if p == s.prevProgress then s else s.(prevProgress := p, out := s.out + [Progress(p)])
  }

  predicate InRange(s: State) {
    && 0 < TotalSum(s.devs)
    && forall i :: 0 <= i < |s.devs| ==> s.devs[i].curSector <= |s.devs[i].disk|
  }

  /** The device part of blk_mig_save_bulked_block, before the progress report. */
  function BulkCore(s: State, o: ReadOutcome): State
    requires InRange(s)
  {
    var i := Pending(s.devs, 0);
    if i < |s.devs| then SaveDeviceBulk(s, i, o) else s
  }

  lemma TotalSumUnchanged(devs: seq<Dev>, devs': seq<Dev>)
    requires |devs| == |devs'| && forall i :: 0 <= i < |devs| ==> |devs[i].disk| == |devs'[i].disk|
    ensures TotalSum(devs) == TotalSum(devs')
  {
    if |devs| > 0 { TotalSumUnchanged(devs[..|devs| - 1], devs'[..|devs| - 1]); }
  }

  /** blk_mig_save_bulked_block. */
  function SaveBulked(s: State, o: ReadOutcome): State
    requires InRange(s)
  {
    var s' := BulkCore(s, o);
    TotalSumUnchanged(s.devs, s'.devs);
    Report(s', Pending(s.devs, 0))
  }

  // ---------- completions, flushing, guest writes ----------

  /** blk_mig_read_cb for the k-th outstanding read. */
  function ReadCallback(s: State, k: nat, buf: seq<Sector>, ret: int): State
    requires k < |s.flight|
  {
    var f := s.flight[k];
    s.(flight := s.flight[..k] + s.flight[k + 1..],
       blkList := s.blkList + [Blk(f.dev, f.sector, buf, ret)],
       submitted := s.submitted - 1, readDone := s.readDone + 1)
  }

  /** One iteration of flush_blks that the rate limiter lets through. */
  function FlushOne(s: State): State
    requires s.blkList != []
  {
    var b := s.blkList[0];
    if b.ret < 0 then s.(hasError := true)
    else s.(out := s.out + [DeviceBlock(b.dev, b.sector, b.buf)], blkList := s.blkList[1..],
            readDone := s.readDone - 1, transferred := s.transferred + 1)
  }

  function Overwrite(disk: Disk, sector: nat, data: seq<Sector>): (d: Disk)
    requires sector + |data| <= |disk|
    ensures |d| == |disk|
    ensures forall x :: 0 <= x < |disk| ==>
              d[x] == if sector <= x < sector + |data| then data[x - sector] else disk[x]
  {
    disk[..sector] + data + disk[sector + |data|..]
  }

  function Observe(f: Flight, dev: nat, sector: nat, data: seq<Sector>): (f': Flight)
    ensures f'.dev == f.dev && f'.sector == f.sector && |f'.seen| == |f.seen|
  {
    if f.dev != dev then f
    else f.(seen := seq(|f.seen|, k requires 0 <= k < |f.seen| =>
      if sector <= f.sector + k < sector + |data| then f.seen[k] + {data[f.sector + k - sector]} else f.seen[k]))
  }

  /** bdrv_write by the guest.  data is what the range holds afterwards, which also covers a driver
      that failed half way; grown are the sectors the driver allocated for it. */
  function GuestWrite(s: State, dev: nat, sector: nat, data: seq<Sector>, grown: set<nat>): State
    requires dev < |s.devs| && sector + |data| <= |s.devs[dev].disk|
  {
    var d := s.devs[dev];
    var d' := d.(disk := Overwrite(d.disk, sector, data), dirty := d.dirty + ChunksOf(sector, |data|),
                 alloc := d.alloc + grown);
    s.(devs := s.devs[dev := d'],
       flight := seq(|s.flight|, k requires 0 <= k < |s.flight| => Observe(s.flight[k], dev, sector, data)))
  }

  // ---------- runs ----------

  datatype Event =
    | DiskWrite(dev: nat, sector: nat, data: seq<Sector>, grown: set<nat>)
    | Bulk(outcome: ReadOutcome)
    | Completion(k: nat, buf: seq<Sector>, ret: int)
    | Flush
    | EndOfSection

  /** What the environment may do: writes stay on the disk and allocate what they cover; a completed
      read returns, sector by sector, some value the sector had while the read was outstanding. */
  predicate Possible(s: State, e: Event) {
    match e
    case DiskWrite(dev, sector, data, grown) =>
      && dev < |s.devs| && sector + |data| <= |s.devs[dev].disk|
      && forall x :: sector <= x < sector + |data| ==> x in grown
    case Bulk(o) =>
      InRange(s) && (o.Done? ==> LeftoverFits(s, o.leftover))
    case Completion(k, buf, ret) =>
      && k < |s.flight| && |buf| == CHUNK && |s.flight[k].seen| <= CHUNK
      && (ret >= 0 ==> forall j :: 0 <= j < |s.flight[k].seen| ==> buf[j] in s.flight[k].seen[j])
    case Flush => s.blkList != []
    case EndOfSection => true
  }

  /** A buffer always has room for a whole chunk. */
  predicate LeftoverFits(s: State, leftover: seq<Sector>)
    requires InRange(s)
  {
    var i := Pending(s.devs, 0);
    i < |s.devs| ==>
      var d := s.devs[i];
      Scan(d) < |d.disk| ==> Count(d, AlignDown(Scan(d))) + |leftover| == CHUNK
  }

  function Step(s: State, e: Event): State
    requires Possible(s, e)
  {
    match e
    case DiskWrite(dev, sector, data, grown) => GuestWrite(s, dev, sector, data, grown)
    case Bulk(o) => SaveBulked(s, o)
    case Completion(k, buf, ret) => ReadCallback(s, k, buf, ret)
    case Flush => FlushOne(s)
    case EndOfSection => s.(out := s.out + [Eos])
  }

  /** s' is reached from s by a sequence of possible events. */
  predicate Reaches(s: State, events: seq<Event>, s': State)
    decreases |events|
  {
    if events == [] then s == s'
    else Possible(s, events[0]) && Reaches(Step(s, events[0]), events[1..], s')
  }
}
