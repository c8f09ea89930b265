/**
 A migration from beginning to end on the source side: the set-up, any number of live stages with
 guest writes and read completions in between, and the last stage.
 */
module MigrationWhole {
  import opened DirtyBitmap
  import opened Migration
  import opened MigrationInvariant
  import opened MigrationBulk
  import opened MigrationRuns
  import opened MigrationEnd
  import opened MigrationEngine

  /** What happens before the last stage. */
  datatype Action =
    | Live(stage: int, env: Env)
    | Guest(dev: nat, sector: nat, data: seq<Sector>, grown: set<nat>)
    | Completes(k: nat, buf: seq<Sector>, ret: int)

  predicate GoodAction(a: Action) {
    match a
    case Live(stage, env) => (stage == 1 || stage == 2) && |env.junk| == CHUNK
    case Guest(_, _, _, _) => true
    case Completes(_, buf, _) => |buf| == CHUNK
  }

  /** The sectors from sector on. */
  function Span(sector: nat, n: nat): (r: set<nat>)
    ensures forall x: nat :: x in r <==> sector <= x < sector + n
  {
    if n == 0 then {} else Span(sector, n - 1) + {sector + n - 1}
  }

  /** A write that fits its device. */
  predicate Fits(disks: seq<Disk>, a: Action) {
    a.Guest? && a.dev < |disks| && a.sector + |a.data| <= |disks[a.dev]|
  }

  /** The disks after the guest's writes; a write that does not fit is rejected. */
  function Written(disks: seq<Disk>, actions: seq<Action>): (d: seq<Disk>)
    ensures |d| == |disks| && forall i :: 0 <= i < |d| ==> |d[i]| == |disks[i]|
  {
    if actions == [] then disks
    else
      var n := |actions| - 1;
      var d, a := Written(disks, actions[..n]), actions[n];
      if Fits(d, a) then d[a.dev := Overwrite(d[a.dev], a.sector, a.data)] else d
  }

  lemma WrittenStep(disks: seq<Disk>, actions: seq<Action>, n: nat)
    requires n < |actions|
    ensures var d, a := Written(disks, actions[..n]), actions[n];
      Written(disks, actions[..n + 1]) == if Fits(d, a) then d[a.dev := Overwrite(d[a.dev], a.sector, a.data)] else d
  {
    assert actions[..n + 1][..n] == actions[..n];
  }

  /** The driver's answers to allocation queries, which depend on what is allocated by then. */
  ghost predicate GoodDriver(runs: Dev -> nat -> nat) {
    forall d: Dev :: GoodRuns(d, runs(d))
  }

  function Driver(runs: Dev -> nat -> nat, devs: seq<Dev>): (nat, nat) -> nat {
    (i: nat, x: nat) => if i < |devs| then runs(devs[i])(x) else 1
  }

  lemma DriverIsGood(runs: Dev -> nat -> nat, devs: seq<Dev>)
    requires GoodDriver(runs)
    ensures forall i :: 0 <= i < |devs| ==> GoodRuns(devs[i], x => Driver(runs, devs)(i, x))
  {
    forall i | 0 <= i < |devs| ensures GoodRuns(devs[i], x => Driver(runs, devs)(i, x)) {
      assert GoodRuns(devs[i], runs(devs[i]));
      assert forall x :: Driver(runs, devs)(i, x) == runs(devs[i])(x);
      SameRuns(devs[i], runs(devs[i]), x => Driver(runs, devs)(i, x));
    }
  }

  lemma SameRuns(d: Dev, f: nat -> nat, g: nat -> nat)
    requires GoodRuns(d, f) && forall x :: g(x) == f(x)
    ensures GoodRuns(d, g)
  {
    forall x | 0 <= x < |d.disk|
      ensures 1 <= g(x) && forall k :: x <= k < x + g(x) && k < |d.disk| ==> (k in d.alloc <==> x in d.alloc)
    {
      assert g(x) == f(x);
    }
  }

  /** Where a migration stands that has met no error, the source disks being as given. */
  ghost predicate Standing(s: State, sum: nat, base: seq<Disk>, disks: seq<Disk>) {
    Inv(s, base) && ReadOnce(s) && sum == TotalSum(s.devs) && Sources(s) == disks
  }

  lemma StandingStep(s: State, sum: nat, base: seq<Disk>, disks: seq<Disk>, e: Event)
    requires Standing(s, sum, base, disks) && Possible(s, e)
    ensures Inv(Step(s, e), base) && ReadOnce(Step(s, e))
  {
    hide ReadOnce;
    StepInv(s, base, e);
    StepOnce(s, base, e);
  }

  lemma WriteStanding(s: State, sum: nat, base: seq<Disk>, disks: seq<Disk>, dev: nat, sector: nat, data: seq<Sector>,
                      grown: set<nat>)
    requires Standing(s, sum, base, disks) && Possible(s, DiskWrite(dev, sector, data, grown))
    ensures dev < |disks| && sector + |data| <= |disks[dev]|
    ensures Standing(GuestWrite(s, dev, sector, data, grown), sum, base,
                     disks[dev := Overwrite(disks[dev], sector, data)])
  {
    var s' := GuestWrite(s, dev, sector, data, grown);
    StandingStep(s, sum, base, disks, DiskWrite(dev, sector, data, grown));
    hide Inv, ReadOnce;
    assert Sources(s)[dev] == s.devs[dev].disk;
    TotalSumUnchanged(s.devs, s'.devs);
    assert Sources(s') == disks[dev := Overwrite(disks[dev], sector, data)];
  }

  lemma CompletionStanding(s: State, sum: nat, base: seq<Disk>, disks: seq<Disk>, k: nat, buf: seq<Sector>, ret: int)
    requires Standing(s, sum, base, disks) && Possible(s, Completion(k, buf, ret))
    ensures Standing(ReadCallback(s, k, buf, ret), sum, base, disks)
  {
    StandingStep(s, sum, base, disks, Completion(k, buf, ret));
    hide Inv, ReadOnce;
  }

  lemma RunStanding(s: State, sum: nat, base: seq<Disk>, disks: seq<Disk>, events: seq<Event>, s': State)
    requires Standing(s, sum, base, disks) && Reaches(s, events, s') && SameDisks(s.devs, s'.devs) && Inv(s', base)
    ensures Standing(s', sum, base, disks)
  {
    RunOnce(s, events, s', base);
    hide Inv, ReadOnce, Reaches;
    SameDisksLaws(s.devs, s'.devs, s'.devs);
    assert Sources(s') == Sources(s);
  }

  /** Nothing goes wrong: no read fails and none is refused. */
  predicate Smooth(a: Action) {
    match a
    case Live(_, env) => NeverRefused(env.refusals)
    case Guest(_, _, _, _) => true
    case Completes(_, _, ret) => ret >= 0
  }

  predicate WholeChunkDisks(disks: seq<Disk>) { forall i :: 0 <= i < |disks| ==> |disks[i]| % CHUNK == 0 }

  /** A device of whole chunks has no dirty chunk that the last pass could not read. */
  lemma WholeIsReadable(s: State, base: seq<Disk>)
    requires Inv(s, base) && WholeChunkDisks(Sources(s))
    ensures AllReadable(s, {})
  {
    forall i, c: nat | 0 <= i < |s.devs| && Sends(s.devs[i], c) ensures Readable(s, i, c, {}) {
      assert DevOk(s.devs[i], base[i]) && |Sources(s)[i]| % CHUNK == 0;
    }
  }

  /** If nothing is lost and there are no partial chunks, the disks are rebuilt completely. */
  lemma RebuiltCompletely(base: seq<Disk>, out: seq<Record>, last: State)
    requires Rebuilds(base, out, last) && WholeChunkDisks(Sources(last)) && last.flight == [] && last.blkList == []
    ensures Replay(base, out) == Sources(last)
  {
    var dest := Replay(base, out);
    forall i | 0 <= i < |base| ensures dest[i] == Sources(last)[i] {
      assert |Sources(last)[i]| == |base[i]| == WholeSectors(base[i]);
      forall x | 0 <= x < |base[i]| ensures dest[i][x] == last.devs[i].disk[x] {
        assert !Lost(last, i, x / CHUNK);
      }
    }
  }

  /** One action.  A guest write that does not fit and a completion of nothing are no actions. */
  method Act(m: BlockMigration, a: Action, runs: Dev -> nat -> nat, ghost base: seq<Disk>, ghost disks: seq<Disk>)
    returns (ok: bool)
    requires Standing(m.Snap(), m.totalSectorSum, base, disks) && GoodAction(a) && GoodDriver(runs)
    modifies m
    ensures ok ==> Standing(m.Snap(), m.totalSectorSum, base,
                            if Fits(disks, a) then disks[a.dev := Overwrite(disks[a.dev], a.sector, a.data)] else disks)
    ensures !ok ==> m.fileError
    ensures Smooth(a) && NoneFailed(old(m.blkList)) ==> m.fileError == old(m.fileError) && NoneFailed(m.blkList)
    ensures !old(m.fileError) && ok ==> !m.fileError
  {
    ghost var s := m.Snap();
    ok := true;
    match a {
      case Live(stage, env) =>
        DriverIsGood(runs, m.bmdsList);
        hide Inv, ReadOnce, Standing, Reaches, GoodRuns;
        StandingParts(s, m.totalSectorSum, base, disks);
        ghost var events;
        var done;
        done, events := m.SaveLive(stage, env, Driver(runs, m.bmdsList), base);
        ok := !m.fileError;
        if ok { RunStanding(s, m.totalSectorSum, base, disks, events, m.Snap()); }
      case Guest(dev, sector, data, grown) =>
        if dev < |m.bmdsList| && sector + |data| <= |m.bmdsList[dev].disk| {
          var all := grown + Span(sector, |data|);
          WriteStanding(s, m.totalSectorSum, base, disks, dev, sector, data, all);
          hide Inv, ReadOnce, Standing, GuestWrite;
          m.Write(dev, sector, data, all);
        } else {
          assert Sources(s) == disks;
        }
      case Completes(k, buf, ret) =>
        if k < |m.flight| && |m.flight[k].seen| <= CHUNK &&
           (ret >= 0 ==> forall j :: 0 <= j < |m.flight[k].seen| ==> buf[j] in m.flight[k].seen[j]) {
          CompletionStanding(s, m.totalSectorSum, base, disks, k, buf, ret);
          hide Inv, ReadOnce, Standing, ReadCallback;
          m.ReadCb(k, buf, ret);
        }
    }
  }

  lemma StandingParts(s: State, sum: nat, base: seq<Disk>, disks: seq<Disk>)
    requires Standing(s, sum, base, disks)
    ensures Inv(s, base) && ReadOnce(s) && sum == TotalSum(s.devs) && Sources(s) == disks
  {}

  /** The source side of a whole migration.  If it finishes without an error, what has been sent rebuilds
      the disks as the guest's last write left them, but for what was lost (`last` is the state in which
      the last pass began; if drained, nothing was outstanding or queued in it).  Nothing is lost if the
      devices are whole chunks and the last stage, begun when stage 2 was complete, is not limited; and
      there is no error if no read fails or is refused. */
  method Migrate(disks: seq<Disk>, dirty: seq<set<nat>>, alloc: seq<set<nat>>, sharedBase: bool, ghost base: seq<Disk>,
                 actions: seq<Action>, final: Env, runs: Dev -> nat -> nat)
    returns (m: BlockMigration, finished: bool, ready: bool, drained: bool, ghost last: State)
    requires |disks| == |dirty| && GoodStart(disks, alloc, sharedBase, base)
    requires (forall k :: 0 <= k < |actions| ==> GoodAction(actions[k])) && |final.junk| == CHUNK && GoodDriver(runs)
    ensures finished && !m.fileError ==> Sources(last) == Written(disks, actions) && Rebuilds(base, m.out, last)
    ensures finished && !m.fileError && drained ==> last.flight == [] && last.blkList == []
    ensures !finished ==> m.fileError
    ensures (finished && !m.fileError && ready && WholeChunkDisks(disks) && NeverLimited(final.limitedFirst)) ==>
              Replay(base, m.out) == Written(disks, actions)
    ensures ((forall k :: 0 <= k < |actions| ==> Smooth(actions[k])) && NeverRefused(final.refusals + final.syncRefusals) &&
             final.bad == {} && WholeChunkDisks(disks)) ==> finished && !m.fileError
  {
    m := new BlockMigration(disks, dirty, alloc, sharedBase);
    last, drained, ready := m.Snap(), false, false;
    InitStanding(disks, dirty, alloc, sharedBase, base);
    hide Inv, ReadOnce, Standing, Written, Rebuilds, GoodStart;
    var k := 0;
    assert Written(disks, actions[..0]) == disks by { WrittenNothing(disks); assert actions[..0] == []; }
    while k < |actions|
      invariant 0 <= k <= |actions| && fresh(m)
      invariant Standing(m.Snap(), m.totalSectorSum, base, Written(disks, actions[..k])) && !m.fileError
      invariant (forall j :: 0 <= j < |actions| ==> Smooth(actions[j])) ==> NoneFailed(m.blkList)
    {
      var ok := Act(m, actions[k], runs, base, Written(disks, actions[..k]));
      if !ok { return m, false, false, false, last; }
      WrittenStep(disks, actions, k);
      k := k + 1;
    }
    assert actions[..k] == actions;
    finished := true;
    ready, drained, last := LastStage(m, final, runs, base, Written(disks, actions));
  }

  /** The last stage of a migration that has met no error. */
  method LastStage(m: BlockMigration, final: Env, runs: Dev -> nat -> nat, ghost base: seq<Disk>, ghost disks: seq<Disk>)
    returns (ready: bool, drained: bool, ghost last: State)
    requires Standing(m.Snap(), m.totalSectorSum, base, disks) && !m.fileError && |final.junk| == CHUNK && GoodDriver(runs)
    modifies m
    ensures Sources(last) == disks
    ensures !m.fileError ==> Rebuilds(base, m.out, last)
    ensures !m.fileError && drained ==> last.flight == [] && last.blkList == []
    ensures (!m.fileError && ready && WholeChunkDisks(disks) && NeverLimited(final.limitedFirst)) ==>
              Replay(base, m.out) == disks
    ensures (NoneFailed(old(m.blkList)) && NeverRefused(final.refusals + final.syncRefusals) && final.bad == {} &&
             WholeChunkDisks(disks)) ==> !m.fileError
  {
    ghost var s := m.Snap();
    StandingParts(s, m.totalSectorSum, base, disks);
    DriverIsGood(runs, m.bmdsList);
    hide Inv, ReadOnce, GoodRuns, Rebuilds, AllReadable;
    ready := m.Stage2Completed();
    drained, last := m.SaveLiveLast(final, Driver(runs, m.bmdsList), base);
    assert Sources(last) == Sources(s);
    if WholeChunkDisks(disks) { WholeIsReadable(last, base); }
    if !m.fileError {
      if drained && WholeChunkDisks(disks) { RebuiltCompletely(base, m.out, last); }
    }
  }

  lemma WrittenNothing(disks: seq<Disk>)
    ensures Written(disks, []) == disks
  {}

  lemma InitStanding(disks: seq<Disk>, dirty: seq<set<nat>>, alloc: seq<set<nat>>, sharedBase: bool, base: seq<Disk>)
    requires |disks| == |dirty| && GoodStart(disks, alloc, sharedBase, base)
    ensures var s := Init(disks, dirty, alloc, sharedBase); Standing(s, TotalSum(s.devs), base, disks)
  {
    InitInv(disks, dirty, alloc, sharedBase, base);
    InitOnce(disks, dirty, alloc, sharedBase);
    var s := Init(disks, dirty, alloc, sharedBase);
    assert Sources(s) == disks;
  }
}
