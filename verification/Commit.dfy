/**
 Committing a copy-on-write image into its backing image (bdrv_commit in block.c).  The guest
 sees the overlay where it is allocated and the backing image elsewhere; the commit may stop at
 any read or write error and must never change what the guest sees.
 */
module Commit {

  const EIO := 5
  const EACCES := 13
  const ENOTSUP := 95
  const ENOMEDIUM := 123

  type Byte = b: int | 0 <= b < 256
  type Sector = seq<Byte>

  /** What a sector reads as when neither image has it. */
  function Blank(): Sector { seq(512, _ => 0) }

  /** What the guest reads at sector x. */
  function View(overlay: map<nat, Sector>, backing: seq<Sector>, x: nat): Sector {
    if x in overlay then overlay[x] else if x < |backing| then backing[x] else Blank()
  }

  ghost predicate SameView(o: map<nat, Sector>, b: seq<Sector>, o': map<nat, Sector>, b': seq<Sector>) {
    |b| == |b'| && forall x: nat {:trigger View(o', b', x)} :: View(o, b, x) == View(o', b', x)
  }

  /** Every allocated sector below n has its overlay contents in the backing image. */
  predicate CommittedBelow(overlay: map<nat, Sector>, backing: seq<Sector>, n: nat) {
    forall x :: x in overlay && x < n ==> x < |backing| && backing[x] == overlay[x]
  }

  /** Once everything is committed, the guest sees the same with any part of the overlay left. */
  lemma OverlayIsDispensable(o: map<nat, Sector>, o': map<nat, Sector>, backing: seq<Sector>, n: nat)
    requires CommittedBelow(o, backing, n) && (forall x :: x in o ==> x < n)
    requires forall x :: x in o' ==> x in o && o'[x] == o[x]
    ensures SameView(o, backing, o', backing)
  {}

  /** What the drivers will do: answers for the reads and writes of the loop, and for emptying the
      overlay, which on failure keeps some of it. */
  datatype Env = Env(readFails: set<nat>, writeFails: set<nat>, written: set<nat>, canEmpty: bool, emptyFails: bool, kept: set<nat>)

  /** Sector x can be read from the image and written to a backing image of the given size. */
  predicate Copyable(x: nat, size: nat, env: Env) {
    x < size && x !in env.readFails && x !in env.writeFails
  }

  class CowImage {
    /** Allocated sectors of the overlay. */
    var overlay: map<nat, Sector>
    /** The backing image, if there is one. */
    const backing: array?<Sector>
    /** Length of the overlay in sectors. */
    const total: nat
    var hasDriver: bool
    var readOnly: bool

    ghost predicate Valid()
      reads this
    {
      forall x :: x in overlay ==> x < total
    }

    constructor (total: nat, backing: array?<Sector>, readOnly: bool)
      ensures Valid() && this.backing == backing && overlay == map[]
    {
      this.total, this.backing := total, backing;
      overlay, hasDriver, this.readOnly := map[], true, readOnly;
    }

    /** The driver's allocation query: a run of sectors of the same kind inside the image. */
    ghost predicate GoodRuns(run: nat -> nat)
      reads this
    {
      forall i :: 0 <= i < total ==>
        1 <= run(i) <= total - i && forall k :: i <= k < i + run(i) ==> (k in overlay <==> i in overlay)
    }

    /** The commit will go through: nothing that the overlay holds fails to be read, to fit or to be written. */
    ghost predicate CanCommit(env: Env)
      reads this
    {
      hasDriver && !readOnly && backing != null && !(env.canEmpty && env.emptyFails) &&
      var size := backing.Length;
      forall x :: x in overlay ==> Copyable(x, size, env)
    }

    /** One round of the inner loop: bdrv_read of a sector of the image, bdrv_write of it to the backing. */
    method CopySector(i: nat, env: Env) returns (ok: bool)
      requires Valid() && backing != null && i < total
      modifies backing
      ensures forall x :: 0 <= x < backing.Length && x != i ==> backing[x] == old(backing[x])
      ensures i in overlay && i < backing.Length ==> backing[i] == old(backing[i]) || backing[i] == overlay[i]
      ensures i !in overlay && i < backing.Length ==> backing[i] == old(backing[i])
      ensures ok <==> Copyable(i, backing.Length, env)
      ensures ok ==> i < backing.Length && backing[i] == View(overlay, old(backing[..]), i)
    {
      if i in env.readFails { return false; }
      var sector := View(overlay, backing[..], i);
      if i >= backing.Length { return false; }
      if i in env.writeFails {
        if i in env.written { backing[i] := sector; }
        return false;
      }
      backing[i] := sector;
      return true;
    }

    /** Where the commit stands after the sectors below i: the guest sees the same, these are in the
        backing image, and nothing else of it has changed. */
    ghost predicate Standing(o: map<nat, Sector>, b: seq<Sector>, i: nat, env: Env)
      requires backing != null
      reads this, backing
    {
      overlay == o && SameView(o, b, o, backing[..]) && CommittedBelow(o, backing[..], i) &&
      (forall x :: 0 <= x < backing.Length && x !in o ==> backing[x] == b[x]) &&
      forall x :: x in o && x < i ==> Copyable(x, backing.Length, env)
    }

    /** The inner loop: the next n sectors are all allocated. */
    method CopyRun(start: nat, n: nat, env: Env, ghost o: map<nat, Sector>, ghost b: seq<Sector>) returns (ok: bool)
      requires Valid() && backing != null && Standing(o, b, start, env)
      requires start + n <= total && forall k :: start <= k < start + n ==> k in o
      modifies backing
      ensures SameView(o, b, o, backing[..])
      ensures if ok then Standing(o, b, start + n, env) else exists x :: x in o && !Copyable(x, backing.Length, env)
    {
      var j: nat, i: nat := 0, start;
      while j < n
        invariant j <= n && i == start + j && Standing(o, b, i, env)
      {
        var copied := CopySector(i, env);
        if !copied { return false; }
        i := i + 1;
        j := j + 1;
      }
      return true;
    }

    /** bdrv_commit.  Whatever happens the guest keeps seeing the same; if it reports success, the
        backing image alone reads like the merged image did. */
    method DoCommit(run: nat -> nat, env: Env) returns (ret: int)
      requires Valid() && GoodRuns(run)
      modifies this`overlay, if backing == null then {} else {backing}
      ensures Valid()
      ensures backing != null ==> SameView(old(overlay), old(backing[..]), overlay, backing[..])
      ensures backing == null ==> overlay == old(overlay)
      ensures ret == 0 <==> old(CanCommit(env))
      ensures ret == 0 ==> SameView(old(overlay), old(backing[..]), map[], backing[..])
      ensures ret == 0 ==> overlay == if env.canEmpty then map[] else old(overlay)
      ensures !hasDriver ==> ret == -ENOMEDIUM
      ensures hasDriver && readOnly ==> ret == -EACCES
      ensures hasDriver && !readOnly && backing == null ==> ret == -ENOTSUP
      ensures hasDriver && !readOnly && backing != null ==> ret == 0 || ret == -EIO
    {
      if !hasDriver { return -ENOMEDIUM; }
      if readOnly { return -EACCES; }
      if backing == null { return -ENOTSUP; }
      ghost var o, b := overlay, backing[..];
      var i: nat := 0;
      while i < total
        invariant i <= total && Valid() && GoodRuns(run) && Standing(o, b, i, env)
        decreases total - i
      {
        var n: nat := run(i);
        if i in overlay {
          var ok := CopyRun(i, n, env, o, b);
          if !ok { return -EIO; }
        }
        i := i + n;
      }
      OverlayIsDispensable(o, map[], backing[..], total);
      if env.canEmpty {
        if env.emptyFails {
          overlay := map x | x in overlay && x in env.kept :: overlay[x];
          OverlayIsDispensable(o, overlay, backing[..], total);
          return -EIO;
        }
        overlay := map[];
      }
      return 0;
    }
  }
}
