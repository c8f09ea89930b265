/**
 Byte-granular access on top of sectors (bdrv_pread and bdrv_pwrite in block.c): the device
 behaves like a flat array of bytes for every offset and length.
 */
module ByteIo {

  const SECTOR_SIZE := 512
  const EIO := 5
  const ENOMEDIUM := 123
  const EACCES := 13

  type Byte = b: int | 0 <= b < 256
  type Bytes = seq<Byte>

  /** What the driver does with a request: it may fail, having already written some sectors. */
  datatype Outcome = Succeeds | Fails(code: nat, written: set<nat>)

  /** The bytes of the sectors first .. first + n lie on the device. */
  predicate OnDevice(length: nat, first: int, n: nat) {
    0 <= first && SECTOR_SIZE * (first + n) <= length
  }

  function RoundUp(x: nat): nat { (x + SECTOR_SIZE - 1) / SECTOR_SIZE * SECTOR_SIZE }

  /** The sectors that hold a range of bytes all lie on the device; an empty range has none. */
  predicate Reachable(length: nat, offset: int, count: nat) {
    count == 0 || (0 <= offset && RoundUp(offset + count) <= length)
  }

  /** after agrees with before outside the range, and inside every byte is the old or the new one. */
  predicate Between(before: Bytes, after: Bytes, offset: int, data: Bytes) {
    && |after| == |before|
    && forall x :: 0 <= x < |before| ==>
         after[x] == before[x] || (offset <= x < offset + |data| && after[x] == data[x - offset])
  }

  /** after is before with the range replaced. */
  predicate Replaced(before: Bytes, after: Bytes, offset: int, data: Bytes) {
    && |after| == |before|
    && forall x :: 0 <= x < |before| ==>
         after[x] == if offset <= x < offset + |data| then data[x - offset] else before[x]
  }

  // The three parts of a byte range: up to the next sector boundary, whole sectors, and the rest.

  function Head(offset: int, count: nat): nat {
    var len := (SECTOR_SIZE - offset) % SECTOR_SIZE;
    if len > count then count else len
  }

  /** The sector that holds the byte behind the head. */
  function Second(offset: int, count: nat): int {
    offset / SECTOR_SIZE + if Head(offset, count) > 0 then 1 else 0
  }

  lemma HeadFacts(offset: int, count: nat)
    ensures Head(offset, count) < SECTOR_SIZE
    ensures 0 < Head(offset, count) ==> offset % SECTOR_SIZE + Head(offset, count) <= SECTOR_SIZE
    ensures Head(offset, count) < count ==> SECTOR_SIZE * Second(offset, count) == offset + Head(offset, count)
  {}

  /** The range is reachable exactly when the requests for its parts all are. */
  lemma ReachableParts(length: nat, offset: int, count: nat)
    ensures var head := Head(offset, count);
            var n, tail := (count - head) / SECTOR_SIZE, (count - head) % SECTOR_SIZE;
            Reachable(length, offset, count) <==>
              && (0 < head ==> OnDevice(length, offset / SECTOR_SIZE, 1))
              && (0 < n ==> OnDevice(length, Second(offset, count), n))
              && (0 < tail ==> OnDevice(length, Second(offset, count) + n, 1))
  {
    var head := Head(offset, count);
    HeadFacts(offset, count);
    if 0 < count && 0 <= offset {
      if head == count {
        LastSector(offset, count, offset / SECTOR_SIZE + 1);
      } else {
        var rest := count - head;
        var n, tail := rest / SECTOR_SIZE, rest % SECTOR_SIZE;
        LastSector(offset, count, Second(offset, count) + n + if 0 < tail then 1 else 0);
      }
    }
  }

  /** The first boundary at or behind the end of a range. */
  lemma LastSector(offset: nat, count: nat, sectors: nat)
    requires 0 < count && offset + count <= SECTOR_SIZE * sectors < offset + count + SECTOR_SIZE
    ensures RoundUp(offset + count) == SECTOR_SIZE * sectors
  {}

  class BlockDevice {
    /** The medium; its length need not be a whole number of sectors. */
    const data: array<Byte>
    var hasDriver: bool
    var readOnly: bool
    /** The driver's answers to come; after them it always succeeds. */
    var outcomes: seq<Outcome>

    constructor (length: nat, readOnly: bool, outcomes: seq<Outcome>)
      ensures fresh(data) && data.Length == length && hasDriver
    {
      data := new Byte[length](_ => 0);
      hasDriver, this.readOnly, this.outcomes := true, readOnly, outcomes;
    }

    method NextOutcome() returns (o: Outcome)
      modifies this`outcomes
      ensures old(outcomes) == [] ==> o == Succeeds && outcomes == []
      ensures old(outcomes) != [] ==> o == old(outcomes)[0] && outcomes == old(outcomes)[1..]
    {
      if outcomes == [] { return Succeeds; }
      o := outcomes[0];
      outcomes := outcomes[1..];
    }

    /** No refusal is to be expected from the driver or the device. */
    predicate Willing()
      reads this
    {
      hasDriver && forall k :: 0 <= k < |outcomes| ==> outcomes[k].Succeeds?
    }

    /** bdrv_check_request for a device that cannot grow. */
    method CheckRequest(sector: int, n: nat) returns (ok: bool)
      ensures ok <==> OnDevice(data.Length, sector, n)
    {
      var offset, size, len := sector * SECTOR_SIZE, n * SECTOR_SIZE, data.Length;
      if offset < 0 { return false; }
      if offset > len || len - offset < size { return false; }
      return true;
    }

    /** bdrv_read of n sectors into buf at position o. */
    method Read(sector: int, buf: array<Byte>, o: nat, n: nat) returns (ret: int)
      requires buf != data && o + SECTOR_SIZE * n <= buf.Length
      modifies this`outcomes, buf
      ensures ret >= 0 ==> OnDevice(data.Length, sector, n)
      ensures ret >= 0 ==> forall k :: o <= k < o + SECTOR_SIZE * n ==> buf[k] == data[SECTOR_SIZE * sector + (k - o)]
      ensures forall k :: 0 <= k < buf.Length && !(o <= k < o + SECTOR_SIZE * n) ==> buf[k] == old(buf[k])
      ensures old(Willing()) ==> Willing()
      ensures old(Willing()) ==> (ret >= 0 <==> OnDevice(data.Length, sector, n))
    {
      if !hasDriver { return -ENOMEDIUM; }
      var ok := CheckRequest(sector, n);
      if !ok { return -EIO; }
      var outcome := NextOutcome();
      if outcome.Fails? { return -(outcome.code + 1); }
      forall k | o <= k < o + SECTOR_SIZE * n {
        buf[k] := data[SECTOR_SIZE * sector + (k - o)];
      }
      return 0;
    }

    /** bdrv_write of whole sectors.  A failing driver leaves every sector old or new. */
    method Write(sector: int, src: Bytes, n: nat) returns (ret: int)
      requires |src| == SECTOR_SIZE * n
      modifies this`outcomes, data
      ensures ret >= 0 ==> OnDevice(data.Length, sector, n) && Replaced(old(data[..]), data[..], SECTOR_SIZE * sector, src)
      ensures Between(old(data[..]), data[..], SECTOR_SIZE * sector, src)
      ensures old(Willing()) ==> Willing()
      ensures old(Willing()) ==> (ret >= 0 <==> !readOnly && OnDevice(data.Length, sector, n))
    {
      if !hasDriver { return -ENOMEDIUM; }
      if readOnly { return -EACCES; }
      var ok := CheckRequest(sector, n);
      if !ok { return -EIO; }
      var outcome := NextOutcome();
      forall k | 0 <= k < SECTOR_SIZE * n && (outcome.Succeeds? || k / SECTOR_SIZE in outcome.written) {
        data[SECTOR_SIZE * sector + k] := src[k];
      }
      if outcome.Fails? { return -(outcome.code + 1); }
      return 0;
    }

    /** Reads a sector into tmp_buf and copies len bytes of it, from position at, to the buffer. */
    method ReadPart(sector: int, at: nat, buf: array<Byte>, o: nat, len: nat) returns (ret: int)
      requires buf != data && at + len <= SECTOR_SIZE && o + len <= buf.Length
      modifies this`outcomes, buf
      ensures ret >= 0 ==> OnDevice(data.Length, sector, 1)
      ensures ret >= 0 ==> forall k :: o <= k < o + len ==> buf[k] == data[SECTOR_SIZE * sector + at + (k - o)]
      ensures forall k :: 0 <= k < buf.Length && !(o <= k < o + len) ==> buf[k] == old(buf[k])
      ensures old(Willing()) ==> Willing()
      ensures old(Willing()) ==> (ret >= 0 <==> OnDevice(data.Length, sector, 1))
    {
      hide Willing;
      var tmp := new Byte[SECTOR_SIZE];
      ret := Read(sector, tmp, 0, 1);
      if ret < 0 { return; }
      forall k | o <= k < o + len {
        buf[k] := tmp[at + (k - o)];
      }
    }

    /** bdrv_pread: on success the buffer holds exactly the requested bytes.  A cooperating driver makes
        it succeed exactly when the sectors around the range lie on the device. */
    method Pread(offset: int, buf: array<Byte>) returns (ret: int)
      requires buf != data
      modifies this`outcomes, buf
      ensures ret >= 0 ==> ret == buf.Length && Reachable(data.Length, offset, buf.Length)
      ensures ret >= 0 ==> forall k :: 0 <= k < buf.Length ==> buf[k] == data[offset + k]
      ensures old(Willing()) ==> (ret >= 0 <==> Reachable(data.Length, offset, buf.Length))
    {
      hide Reachable, Willing, OnDevice;
      var count1 := buf.Length;
      var count, at := count1, 0;
      var len := (SECTOR_SIZE - offset) % SECTOR_SIZE;
      if len > count { len := count; }
      var sector := offset / SECTOR_SIZE;
      assert len == Head(offset, count1);
      ReachableParts(data.Length, offset, count1);
      ReachableStart(data.Length, offset, count1);
      HeadFacts(offset, count1);
      if len > 0 {
        ret := ReadPart(sector, offset % SECTOR_SIZE, buf, 0, len);
        if ret < 0 { return; }
        count := count - len;
        if count == 0 { return count1; }
        sector := sector + 1;
        at := len;
      }
      assert sector == Second(offset, count1);
      hide Head, Second;
      assert 0 < count ==> SECTOR_SIZE * sector == offset + at;
      ret := ReadRest(sector, buf, at, count);
      if ret < 0 { return; }
      return count1;
    }

    /** The part of bdrv_pread from a sector boundary on: whole sectors in place, then the last one. */
    method ReadRest(first: int, buf: array<Byte>, o: nat, bytes: nat) returns (ret: int)
      requires buf != data && o + bytes == buf.Length
      modifies this`outcomes, buf
      ensures ret >= 0 && 0 < bytes ==> 0 <= SECTOR_SIZE * first && SECTOR_SIZE * first + bytes <= data.Length
      ensures ret >= 0 ==> forall k :: o <= k < buf.Length ==> buf[k] == data[SECTOR_SIZE * first + (k - o)]
      ensures forall k :: 0 <= k < o ==> buf[k] == old(buf[k])
      ensures var n, tail := bytes / SECTOR_SIZE, bytes % SECTOR_SIZE;
        && (ret >= 0 ==> (0 < n ==> OnDevice(data.Length, first, n)) && (0 < tail ==> OnDevice(data.Length, first + n, 1)))
        && (old(Willing()) ==> (ret >= 0 <==>
              (0 < n ==> OnDevice(data.Length, first, n)) && (0 < tail ==> OnDevice(data.Length, first + n, 1))))
    {
      hide Willing;
      var at, count, sector := o, bytes, first;
      ret := 0;
      var n := count / SECTOR_SIZE;
      if n > 0 {
        ret := Read(sector, buf, at, n);
        if ret < 0 { return; }
        sector := sector + n;
        at := at + n * SECTOR_SIZE;
        count := count - n * SECTOR_SIZE;
      }
      assert count == bytes % SECTOR_SIZE;
      if count > 0 {
        ret := ReadPart(sector, 0, buf, at, count);
      }
    }

    /** Reads a sector, overlays part of it and writes it back. */
    method PatchSector(sector: int, at: nat, piece: Bytes) returns (ret: int)
      requires at + |piece| <= SECTOR_SIZE
      modifies this`outcomes, data
      ensures Between(old(data[..]), data[..], SECTOR_SIZE * sector + at, piece)
      ensures ret >= 0 ==> OnDevice(data.Length, sector, 1) && Replaced(old(data[..]), data[..], SECTOR_SIZE * sector + at, piece)
      ensures old(Willing()) ==> Willing() && (ret >= 0 <==> !readOnly && OnDevice(data.Length, sector, 1))
    {
      var tmp := new Byte[SECTOR_SIZE];
      ghost var before := data[..];
      ret := Read(sector, tmp, 0, 1);
      if ret < 0 { return; }
      ghost var was := tmp[..];
      forall k | at <= k < at + |piece| {
        tmp[k] := piece[k - at];
      }
      ret := Write(sector, tmp[..], 1);
      Overlay(before, data[..], sector, was, tmp[..], at, piece, ret >= 0);
    }

    /** The part of bdrv_pwrite behind the head: whole sectors in place, then the last, partial one. */
    method WriteAligned(first: int, src: Bytes) returns (ret: int)
      modifies this`outcomes, data
      ensures Between(old(data[..]), data[..], SECTOR_SIZE * first, src)
      ensures ret >= 0 ==> AlignedOnDevice(data.Length, first, |src|) && Replaced(old(data[..]), data[..], SECTOR_SIZE * first, src)
      ensures old(Willing()) ==> (ret >= 0 <==> src == [] || (!readOnly && AlignedOnDevice(data.Length, first, |src|)))
    {
      hide Willing, OnDevice, Replaced, Between;
      var sector, count, at := first, |src|, 0;
      ghost var b0 := data[..];
      Unchanged(b0, SECTOR_SIZE * first);
      var n := count / SECTOR_SIZE;
      if n > 0 {
        ret := Write(sector, src[..n * SECTOR_SIZE], n);
        BetweenGrows(b0, data[..], SECTOR_SIZE * first, src[..n * SECTOR_SIZE], src);
        if ret < 0 { return; }
        sector := sector + n;
        at := n * SECTOR_SIZE;
        count := count - n * SECTOR_SIZE;
      }
      assert Replaced(b0, data[..], SECTOR_SIZE * first, src[..at]);
      ret := WriteTail(sector, src, at, count, b0, SECTOR_SIZE * first);
    }

    /** The last sector of an aligned write, of which count bytes are left, behind the at bytes written. */
    method WriteTail(sector: int, src: Bytes, at: nat, count: nat, ghost b0: Bytes, ghost offset: int) returns (ret: int)
      requires at + count == |src| && count < SECTOR_SIZE && offset + at == SECTOR_SIZE * sector
      requires Replaced(b0, data[..], offset, src[..at])
      modifies this`outcomes, data
      ensures Between(b0, data[..], offset, src)
      ensures ret >= 0 ==> (0 < count ==> OnDevice(data.Length, sector, 1)) && Replaced(b0, data[..], offset, src)
      ensures old(Willing()) ==> (ret >= 0 <==> count == 0 || (!readOnly && OnDevice(data.Length, sector, 1)))
    {
      hide Willing, OnDevice, Replaced, Between;
      if count > 0 {
        ghost var b1 := data[..];
        ret := PatchSector(sector, 0, src[at..]);
        Compose(b0, b1, data[..], offset, src[..at], src[at..]);
        assert src[..at] + src[at..] == src;
        if ret < 0 { return; }
      } else {
        assert src[..at] == src;
      }
      ReplacedIsBetween(b0, data[..], offset, src);
      return 0;
    }

    /** bdrv_pwrite: success changes exactly the bytes of the range; even a failure changes nothing
        outside it and leaves every byte inside old or new. */
    method Pwrite(offset: int, src: Bytes) returns (ret: int)
      modifies this`outcomes, data
      ensures Between(old(data[..]), data[..], offset, src)
      ensures ret >= 0 ==> ret == |src| && Reachable(data.Length, offset, |src|) && Replaced(old(data[..]), data[..], offset, src)
      ensures old(Willing()) ==> (ret >= 0 <==> src == [] || (!readOnly && Reachable(data.Length, offset, |src|)))
    {
      hide Reachable, Willing, OnDevice, Replaced, Between, AlignedOnDevice;
      var len := (SECTOR_SIZE - offset) % SECTOR_SIZE;
      if len > |src| { len := |src|; }
      var sector := offset / SECTOR_SIZE;
      ghost var b0 := data[..];
      ReachableSplit(data.Length, offset, |src|);
      HeadFacts(offset, |src|);
      Unchanged(b0, offset);
      if len > 0 {
        ret := PatchSector(sector, offset % SECTOR_SIZE, src[..len]);
        BetweenGrows(b0, data[..], offset, src[..len], src);
        if ret < 0 { return; }
        if len == |src| {
          assert src[..len] == src;
          return |src|;
        }
        sector := sector + 1;
      }
      if len == |src| {
        ReplacedIsBetween(b0, data[..], offset, src);
        return |src|;
      }
      ghost var b1 := data[..];
      ret := WriteAligned(sector, src[len..]);
      Compose(b0, b1, data[..], offset, src[..len], src[len..]);
      assert src[..len] + src[len..] == src;
      if ret >= 0 { ret := |src|; }
    }
  }

  /** A range that starts on a sector boundary lies on the device as far as requests for it reach. */
  predicate AlignedOnDevice(length: nat, first: int, count: nat) {
    && (0 < count / SECTOR_SIZE ==> OnDevice(length, first, count / SECTOR_SIZE))
    && (0 < count % SECTOR_SIZE ==> OnDevice(length, first + count / SECTOR_SIZE, 1))
  }

  lemma ReachableSplit(length: nat, offset: int, count: nat)
    ensures var head := Head(offset, count);
            Reachable(length, offset, count) <==>
              && (0 < head ==> OnDevice(length, offset / SECTOR_SIZE, 1))
              && (head < count ==> AlignedOnDevice(length, Second(offset, count), count - head))
  {
    ReachableParts(length, offset, count);
  }

  /** Writing back an overlaid sector changes the overlaid bytes only. */
  lemma Overlay(before: Bytes, after: Bytes, sector: int, was: Bytes, tmp: Bytes, at: nat, piece: Bytes, done: bool)
    requires |was| == |tmp| == SECTOR_SIZE && at + |piece| <= SECTOR_SIZE && OnDevice(|before|, sector, 1)
    requires forall k :: 0 <= k < SECTOR_SIZE ==> was[k] == before[SECTOR_SIZE * sector + k]
    requires forall k :: 0 <= k < SECTOR_SIZE ==> tmp[k] == if at <= k < at + |piece| then piece[k - at] else was[k]
    requires Between(before, after, SECTOR_SIZE * sector, tmp)
    requires done ==> Replaced(before, after, SECTOR_SIZE * sector, tmp)
    ensures Between(before, after, SECTOR_SIZE * sector + at, piece)
    ensures done ==> Replaced(before, after, SECTOR_SIZE * sector + at, piece)
  {
    var start := SECTOR_SIZE * sector;
    forall x | start <= x < start + SECTOR_SIZE
      ensures tmp[x - start] == if start + at <= x < start + at + |piece| then piece[x - start - at] else before[x]
    {
      assert was[x - start] == before[SECTOR_SIZE * sector + (x - start)];
    }
  }

  lemma Unchanged(b: Bytes, offset: int)
    ensures Replaced(b, b, offset, [])
  {}

  lemma ReplacedIsBetween(before: Bytes, after: Bytes, offset: int, data: Bytes)
    requires Replaced(before, after, offset, data)
    ensures Between(before, after, offset, data)
  {}

  lemma BetweenGrows(before: Bytes, after: Bytes, offset: int, part: Bytes, data: Bytes)
    requires Between(before, after, offset, part) && part <= data
    ensures Between(before, after, offset, data)
  {}

  /** A replaced range followed by another write right behind it. */
  lemma Compose(b0: Bytes, b1: Bytes, b2: Bytes, offset: int, p: Bytes, q: Bytes)
    requires Replaced(b0, b1, offset, p) && Between(b1, b2, offset + |p|, q)
    ensures Between(b0, b2, offset, p + q)
    ensures Replaced(b1, b2, offset + |p|, q) ==> Replaced(b0, b2, offset, p + q)
  {}

  lemma ReachableStart(length: nat, offset: int, count: nat)
    ensures Reachable(length, offset, count) && 0 < count ==> 0 <= offset && offset + count <= length
  {}
}
