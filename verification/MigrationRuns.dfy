/**
 Whole runs of the live stages: the migration invariant, that no chunk is read twice, and that
 the bulk phase never goes back.
 */
module MigrationRuns {
  import opened DirtyBitmap
  import opened Migration
  import opened MigrationInvariant
  import opened MigrationBulk

  lemma StepInv(s: State, base: seq<Disk>, e: Event)
    requires Inv(s, base) && Possible(s, e)
    ensures Inv(Step(s, e), base)
  {
    match e
    case DiskWrite(dev, sector, data, grown) => WriteInv(s, base, dev, sector, data, grown);
    case Bulk(o) => BulkInv(s, base, o);
    case Completion(k, buf, ret) => CompletionInv(s, base, k, buf, ret);
    case Flush => FlushInv(s, base);
    case EndOfSection => PlainRecordInv(s, base, Eos, s.prevProgress);
  }

  /** The migration invariant holds in every reachable state. */
  lemma {:induction false} RunInv(s: State, events: seq<Event>, s': State, base: seq<Disk>)
    requires Inv(s, base) && Reaches(s, events, s')
    ensures Inv(s', base)
    decreases |events|
  {
    if events != [] {
      StepInv(s, base, events[0]);
      RunInv(Step(s, events[0]), events[1..], s', base);
    }
  }

  // ---------- every chunk is read once ----------

  type Spot = (nat, nat)

  function FlightSpots(fs: seq<Flight>): (r: seq<Spot>)
    ensures |r| == |fs| && forall k :: 0 <= k < |fs| ==> r[k] == (fs[k].dev, fs[k].sector)
  {
    seq(|fs|, k requires 0 <= k < |fs| => (fs[k].dev, fs[k].sector))
  }

  function BlkSpots(bs: seq<Blk>): (r: seq<Spot>)
    ensures |r| == |bs| && forall k :: 0 <= k < |bs| ==> r[k] == (bs[k].dev, bs[k].sector)
  {
    seq(|bs|, k requires 0 <= k < |bs| => (bs[k].dev, bs[k].sector))
  }

  /** Where the reads began that are outstanding or waiting to be sent. */
  function Held(s: State): multiset<Spot> {
    multiset(FlightSpots(s.flight)) + multiset(BlkSpots(s.blkList))
  }

  predicate Sent(rs: seq<Record>, p: Spot) {
    exists k :: 0 <= k < |rs| && About(rs[k], p.0, p.1)
  }

  /** No chunk is outstanding or waiting twice, and none that is has been sent before. */
  ghost predicate ReadOnce(s: State) {
    forall p :: Held(s)[p] <= 1 && (p in Held(s) ==> !Sent(s.out, p))
  }

  lemma SentAppend(rs: seq<Record>, r: Record, p: Spot)
    ensures Sent(rs + [r], p) <==> Sent(rs, p) || About(r, p.0, p.1)
  {
    if Sent(rs, p) {
      var k :| 0 <= k < |rs| && About(rs[k], p.0, p.1);
      assert (rs + [r])[k] == rs[k];
    }
    if About(r, p.0, p.1) { assert (rs + [r])[|rs|] == r; }
  }

  /** Everything held or sent lies below the bulk position. */
  lemma SpotsBelow(s: State, base: seq<Disk>, p: Spot)
    requires Shape(s, base) && (p in Held(s) || Sent(s.out, p))
    ensures p.0 < |s.devs| && p.1 < s.devs[p.0].curSector
  {
    if Sent(s.out, p) {
      var k :| 0 <= k < |s.out| && About(s.out[k], p.0, p.1);
      assert RecordOk(s.out[k], s.devs);
    } else if p in FlightSpots(s.flight) {
      var k :| 0 <= k < |s.flight| && FlightSpots(s.flight)[k] == p;
      assert FlightOk(s.flight[k], s.devs[s.flight[k].dev]);
    } else {
      var k :| 0 <= k < |s.blkList| && BlkSpots(s.blkList)[k] == p;
      assert RecordOk(AsRecord(s.blkList[k]), s.devs);
    }
  }

  /** ReadOnce depends on what is held and on the data sent. */
  lemma OnceByParts(s: State, s': State)
    requires ReadOnce(s) && Held(s') == Held(s) && forall p :: Sent(s'.out, p) ==> Sent(s.out, p)
    ensures ReadOnce(s')
  {
    hide Held, Sent;
    forall p ensures Held(s')[p] <= 1 && (p in Held(s') ==> !Sent(s'.out, p)) {
      assert Held(s)[p] <= 1;
    }
  }

  lemma WriteOnce(s: State, dev: nat, sector: nat, data: seq<Sector>, grown: set<nat>)
    requires ReadOnce(s) && dev < |s.devs| && sector + |data| <= |s.devs[dev].disk|
    ensures ReadOnce(GuestWrite(s, dev, sector, data, grown))
  {
    var s' := GuestWrite(s, dev, sector, data, grown);
    assert FlightSpots(s'.flight) == FlightSpots(s.flight) && s'.blkList == s.blkList && s'.out == s.out;
    assert Held(s') == Held(s);
    hide GuestWrite;
    OnceByParts(s, s');
  }

  lemma CompletionOnce(s: State, k: nat, buf: seq<Sector>, ret: int)
    requires ReadOnce(s) && k < |s.flight|
    ensures ReadOnce(ReadCallback(s, k, buf, ret))
  {
    var s' := ReadCallback(s, k, buf, ret);
    var fs, p := FlightSpots(s.flight), (s.flight[k].dev, s.flight[k].sector);
    assert FlightSpots(s'.flight) == fs[..k] + fs[k + 1..];
    assert fs == fs[..k] + [p] + fs[k + 1..];
    assert BlkSpots(s'.blkList) == BlkSpots(s.blkList) + [p];
    assert Held(s') == Held(s);
    OnceByParts(s, s');
  }

  lemma FlushOnce(s: State)
    requires ReadOnce(s) && s.blkList != []
    ensures ReadOnce(FlushOne(s))
  {
    var s' := FlushOne(s);
    if s.blkList[0].ret >= 0 {
      var b := s.blkList[0];
      var p := (b.dev, b.sector);
      assert BlkSpots(s.blkList) == [p] + BlkSpots(s'.blkList);
      assert Held(s) == Held(s') + multiset{p};
      forall q ensures Held(s')[q] <= 1 && (q in Held(s') ==> !Sent(s'.out, q)) {
        assert Held(s)[q] <= 1;
        SentAppend(s.out, DeviceBlock(b.dev, b.sector, b.buf), q);
      }
    }
  }

  lemma PlainRecordOnce(s: State, r: Record, prev: int)
    requires ReadOnce(s) && !r.DeviceBlock?
    ensures ReadOnce(s.(out := s.out + [r], prevProgress := prev))
  {
    forall p ensures Sent(s.out + [r], p) ==> Sent(s.out, p) { SentAppend(s.out, r, p); }
    OnceByParts(s, s.(out := s.out + [r], prevProgress := prev));
  }

  /** The bulk position only moves on, so what is read next is neither held nor sent. */
  lemma DeviceBulkOnce(s: State, base: seq<Disk>, i: nat, o: ReadOutcome)
    requires Shape(s, base) && ReadOnce(s) && i < |s.devs| && s.devs[i].curSector <= |s.devs[i].disk|
    ensures ReadOnce(SaveDeviceBulk(s, i, o))
  {
    var d, s' := s.devs[i], SaveDeviceBulk(s, i, o);
    assert DevOk(d, base[i]);
    ScanFacts(d, base[i]);
    if Scan(d) < |d.disk| && !o.Failed? {
      var p := (i, AlignDown(Scan(d)));
      if p in Held(s) || Sent(s.out, p) { SpotsBelow(s, base, p); }
      if o.Submitted? {
        assert FlightSpots(s'.flight) == FlightSpots(s.flight) + [p];
        assert Held(s') == Held(s) + multiset{p};
      } else {
        var r := s'.out[|s.out|];
        forall q ensures Sent(s'.out, q) <==> Sent(s.out, q) || q == p { SentAppend(s.out, r, q); }
      }
    } else {
      OnceByParts(s, s');
    }
  }

  lemma BulkOnce(s: State, base: seq<Disk>, o: ReadOutcome)
    requires Shape(s, base) && ReadOnce(s) && Possible(s, Bulk(o))
    ensures ReadOnce(SaveBulked(s, o))
  {
    var i := Pending(s.devs, 0);
    var s' := BulkCore(s, o);
    if i < |s.devs| { DeviceBulkOnce(s, base, i, o); }
    assert InRange(s) && |s'.devs| == |s.devs|;
    TotalSumUnchanged(s.devs, s'.devs);
    hide ReadOnce, SaveDeviceBulk, TotalSum, InRange;
    var p := Percent(s'.devs, i);
    PlainRecordOnce(s', Progress(p), p);
  }

  lemma StepOnce(s: State, base: seq<Disk>, e: Event)
    requires Inv(s, base) && ReadOnce(s) && Possible(s, e)
    ensures ReadOnce(Step(s, e))
  {
    hide ReadOnce, SaveBulked, GuestWrite;
    match e
    case DiskWrite(dev, sector, data, grown) => WriteOnce(s, dev, sector, data, grown);
    case Bulk(o) => BulkOnce(s, base, o);
    case Completion(k, buf, ret) => CompletionOnce(s, k, buf, ret);
    case Flush => FlushOnce(s);
    case EndOfSection => PlainRecordOnce(s, Eos, s.prevProgress);
  }

  lemma InitOnce(disks: seq<Disk>, dirty: seq<set<nat>>, alloc: seq<set<nat>>, sharedBase: bool)
    requires |disks| == |dirty| == |alloc|
    ensures ReadOnce(Init(disks, dirty, alloc, sharedBase))
  {}

  /** In every reachable state each chunk has been read at most once. */
  lemma {:induction false} RunOnce(s: State, events: seq<Event>, s': State, base: seq<Disk>)
    requires Inv(s, base) && ReadOnce(s) && Reaches(s, events, s')
    ensures ReadOnce(s')
    decreases |events|
  {
    if events != [] {
      hide Inv, ReadOnce, Possible, Step;
      StepInv(s, base, events[0]);
      StepOnce(s, base, events[0]);
      RunOnce(Step(s, events[0]), events[1..], s', base);
    }
  }

  // ---------- the bulk phase never goes back ----------

  /** No device has lost ground, unless there has been an error. */
  predicate Forward(s: State, s': State) {
    && |s'.devs| == |s.devs| && (s.hasError ==> s'.hasError)
    && forall i :: 0 <= i < |s.devs| ==>
         && |s'.devs[i].disk| == |s.devs[i].disk| && (s.devs[i].bulkCompleted ==> s'.devs[i].bulkCompleted)
         && (!s'.hasError ==>
               && s.devs[i].curSector <= s'.devs[i].curSector
               && s.devs[i].completedSectors <= s'.devs[i].completedSectors)
  }

  lemma DeviceForward(s: State, base: seq<Disk>, i: nat, o: ReadOutcome)
    requires Shape(s, base) && Paced(s) && i < |s.devs| && s.devs[i].curSector <= |s.devs[i].disk| && !s.devs[i].bulkCompleted
    ensures Forward(s, SaveDeviceBulk(s, i, o))
  {
    assert DevOk(s.devs[i], base[i]);
    ScanFacts(s.devs[i], base[i]);
    hide Scan, Shape;
  }

  lemma BulkForward(s: State, base: seq<Disk>, o: ReadOutcome)
    requires Shape(s, base) && Paced(s) && Possible(s, Bulk(o))
    ensures Forward(s, SaveBulked(s, o))
  {
    var i := Pending(s.devs, 0);
    hide SaveDeviceBulk, Paced, Shape;
    if i < |s.devs| { DeviceForward(s, base, i, o); }
    assert SaveBulked(s, o).devs == BulkCore(s, o).devs;
  }

  lemma StepForward(s: State, base: seq<Disk>, e: Event)
    requires Shape(s, base) && Paced(s) && Possible(s, e)
    ensures Forward(s, Step(s, e)) && Paced(Step(s, e))
  {
    hide SaveBulked, Shape;
    if e.Bulk? {
      BulkPaced(s, base, e.outcome);
      BulkForward(s, base, e.outcome);
    }
  }

  /** In every reachable state the reported position is not ahead of the bulk position, and along
      every run without an error both of them, and the ends of bulk phases, are never taken back. */
  lemma {:induction false} RunForward(s: State, events: seq<Event>, s': State, base: seq<Disk>)
    requires Inv(s, base) && Paced(s) && Reaches(s, events, s')
    ensures Forward(s, s') && Paced(s')
    decreases |events|
  {
    if events != [] {
      var s1 := Step(s, events[0]);
      StepInv(s, base, events[0]);
      StepForward(s, base, events[0]);
      RunForward(s1, events[1..], s', base);
    }
  }

  /** The bulk phase makes progress in every state that a migration can reach. */
  lemma ReachableProgress(disks: seq<Disk>, dirty: seq<set<nat>>, alloc: seq<set<nat>>, sharedBase: bool,
                          base: seq<Disk>, events: seq<Event>, s: State, o: ReadOutcome)
    requires |disks| == |dirty| && GoodStart(disks, alloc, sharedBase, base)
    requires Reaches(Init(disks, dirty, alloc, sharedBase), events, s)
    requires !s.hasError && Possible(s, Bulk(o)) && !o.Failed? && Pending(s.devs, 0) < |s.devs|
    ensures var i := Pending(s.devs, 0);
            var d, d' := s.devs[i], SaveBulked(s, o).devs[i];
            && (d.curSector < d'.curSector || (d'.bulkCompleted && d'.curSector == |d.disk|))
            && d.completedSectors <= d'.completedSectors <= |d'.disk|
  {
    var s0 := Init(disks, dirty, alloc, sharedBase);
    InitInv(disks, dirty, alloc, sharedBase, base);
    RunInv(s0, events, s, base);
    RunForward(s0, events, s, base);
    BulkProgress(s, base, o);
  }

  // ---------- what is reported ----------

  predicate Untouched(d: Dev) { d.curSector == 0 && d.completedSectors == 0 && !d.bulkCompleted }

  /** The devices are read one after the other. */
  predicate InOrder(devs: seq<Dev>) {
    forall i, j :: 0 <= i < j < |devs| && !devs[i].bulkCompleted ==> Untouched(devs[j])
  }

  lemma BulkInOrder(s: State, o: ReadOutcome)
    requires InRange(s) && InOrder(s.devs)
    ensures InOrder(BulkCore(s, o).devs) && |BulkCore(s, o).devs| == |s.devs|
    ensures forall j :: Pending(s.devs, 0) < j < |s.devs| ==> Untouched(BulkCore(s, o).devs[j])
  {
    var i := Pending(s.devs, 0);
    var devs' := BulkCore(s, o).devs;
    assert forall j :: 0 <= j < |s.devs| && j != i ==> devs'[j] == s.devs[j];
  }

  lemma StepInOrder(s: State, e: Event)
    requires Possible(s, e) && InOrder(s.devs)
    ensures InOrder(Step(s, e).devs)
  {
    if e.Bulk? {
      BulkInOrder(s, e.outcome);
      TotalSumUnchanged(s.devs, BulkCore(s, e.outcome).devs);
      hide BulkCore, InOrder;
    }
  }

  lemma {:induction false} RunInOrder(s: State, events: seq<Event>, s': State)
    requires InOrder(s.devs) && Reaches(s, events, s')
    ensures InOrder(s'.devs)
    decreases |events|
  {
    if events != [] {
      StepInOrder(s, events[0]);
      hide InOrder, Step, Possible;
      RunInOrder(Step(s, events[0]), events[1..], s');
    }
  }

  lemma {:induction false} SumOfUntouched(devs: seq<Dev>, n: nat)
    requires n <= |devs| && forall j :: n <= j < |devs| ==> Untouched(devs[j])
    ensures CompletedSum(devs, |devs|) == CompletedSum(devs, n)
    decreases |devs| - n
  {
    if n < |devs| { SumOfUntouched(devs, n + 1); }
  }

  /** A bulk step of a migration reports the share that all devices together have completed, and it
      sends the report exactly if it differs from the last one. */
  lemma ReportedShare(disks: seq<Disk>, dirty: seq<set<nat>>, alloc: seq<set<nat>>, sharedBase: bool,
                      events: seq<Event>, s: State, o: ReadOutcome)
    requires |disks| == |dirty| == |alloc| && Reaches(Init(disks, dirty, alloc, sharedBase), events, s)
    requires Possible(s, Bulk(o))
    ensures var s' := SaveBulked(s, o);
      && 0 < TotalSum(s'.devs)
      && s'.prevProgress == CompletedSum(s'.devs, |s'.devs|) * 100 / TotalSum(s'.devs)
      && s'.out == BulkCore(s, o).out + if s'.prevProgress == s.prevProgress then [] else [Progress(s'.prevProgress)]
  {
    var s0, core, i := Init(disks, dirty, alloc, sharedBase), BulkCore(s, o), Pending(s.devs, 0);
    assert forall j :: 0 <= j < |s0.devs| ==> Untouched(s0.devs[j]);
    RunInOrder(s0, events, s);
    BulkInOrder(s, o);
    CoreKeepsReport(s, o);
    hide BulkCore, InOrder, CompletedSum, TotalSum;
    TotalSumUnchanged(s.devs, core.devs);
    SumOfUntouched(core.devs, if i < |s.devs| then i + 1 else i);
  }

  lemma CoreKeepsReport(s: State, o: ReadOutcome)
    requires InRange(s)
    ensures var core := BulkCore(s, o);
      core.prevProgress == s.prevProgress && |core.devs| == |s.devs| &&
      forall j :: 0 <= j < |s.devs| ==> |core.devs[j].disk| == |s.devs[j].disk|
  {}

  lemma {:induction false} SumIsTotal(devs: seq<Dev>)
    requires forall i :: 0 <= i < |devs| ==> devs[i].completedSectors <= |devs[i].disk|
    ensures CompletedSum(devs, |devs|) <= TotalSum(devs)
    ensures CompletedSum(devs, |devs|) == TotalSum(devs) <==>
            forall i :: 0 <= i < |devs| ==> devs[i].completedSectors == |devs[i].disk|
    decreases |devs|
  {
    if |devs| > 0 {
      var n := |devs| - 1;
      SumPrefix(devs, devs[..n], n);
      SumIsTotal(devs[..n]);
    }
  }

  /** The report is 100 percent exactly if every sector of every device is completed. */
  lemma HundredExact(s: State, base: seq<Disk>)
    requires Shape(s, base)
    ensures 0 < TotalSum(s.devs)
    ensures CompletedSum(s.devs, |s.devs|) * 100 / TotalSum(s.devs) == 100 <==>
            forall i :: 0 <= i < |s.devs| ==> s.devs[i].completedSectors == |s.devs[i].disk|
  {
    InvInRange(s, base);
    forall i | 0 <= i < |s.devs| ensures s.devs[i].completedSectors <= |s.devs[i].disk| {
      assert DevOk(s.devs[i], base[i]);
    }
    SumIsTotal(s.devs);
    WholeShare(CompletedSum(s.devs, |s.devs|), TotalSum(s.devs));
  }

  lemma WholeShare(a: nat, b: nat)
    requires a <= b && 0 < b
    ensures a * 100 / b == 100 <==> a == b
  {
    Ratio(a, b);
    Share(a * 100, b, a * 100 / b);
  }

  /** A quotient q of x and b is 100 or more exactly if x is at least 100 * b. */
  lemma Share(x: nat, b: nat, q: nat)
    requires 0 < b && q * b <= x < q * b + b
    ensures q >= 100 <==> x >= 100 * b
  {
    if q >= 100 { Times(100, q, b); } else { Times(q + 1, 100, b); }
  }
}
