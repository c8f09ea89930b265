/**
 The bytes of the migration stream: what blk_send and the progress and end marks put on the
 wire, and the loader that takes them off again and writes the destination disks.
 */
module MigrationWire {
  import opened Sequences
  import opened DirtyBitmap
  import opened Migration
  import opened MigrationInvariant
  import opened MigrationRuns
  import opened MigrationEnd

  const FLAG_DEVICE_BLOCK := 1
  const FLAG_EOS := 2
  const FLAG_PROGRESS := 4

  type Bytes = seq<Byte>
  type Name = seq<Byte>

  // ---------- big-endian numbers ----------

  function Pow256(n: nat): (p: nat)
    ensures 0 < p
  {
    if n == 0 then 1 else 256 * Pow256(n - 1)
  }

  function BigEndian(v: nat, n: nat): (b: Bytes)
    ensures |b| == n
  {
    if n == 0 then [] else BigEndian(v / 256, n - 1) + [v % 256]
  }

  function Value(b: Bytes): nat {
    if |b| == 0 then 0 else Value(b[..|b| - 1]) * 256 + b[|b| - 1]
  }

  lemma {:induction false} ValueOfBigEndian(v: nat, n: nat)
    requires v < Pow256(n)
    ensures Value(BigEndian(v, n)) == v
  {
    if n > 0 {
      assert v / 256 < Pow256(n - 1);
      ValueOfBigEndian(v / 256, n - 1);
      assert BigEndian(v, n)[..n - 1] == BigEndian(v / 256, n - 1);
    }
  }

  lemma Pow256Of8()
    ensures Pow256(8) == 0x1_0000_0000_0000_0000
  {
    assert Pow256(2) == 65536;
    assert Pow256(4) == 65536 * 65536;
  }

  // ---------- the payload ----------

  function Flatten(data: seq<Sector>): (b: Bytes)
    ensures |b| == SECTOR_SIZE * |data|
  {
    if |data| == 0 then [] else Flatten(data[..|data| - 1]) + data[|data| - 1]
  }

  function Sectors(b: Bytes, n: nat): (data: seq<Sector>)
    requires |b| == SECTOR_SIZE * n
    ensures |data| == n
  {
    if n == 0 then [] else Sectors(b[..SECTOR_SIZE * (n - 1)], n - 1) + [b[SECTOR_SIZE * (n - 1)..]]
  }

  lemma {:induction false} SectorsOfFlatten(data: seq<Sector>)
    ensures Sectors(Flatten(data), |data|) == data
  {
    if |data| > 0 {
      var n := |data| - 1;
      SectorsOfFlatten(data[..n]);
      assert Flatten(data)[..SECTOR_SIZE * n] == Flatten(data[..n]);
      assert Flatten(data)[SECTOR_SIZE * n..] == data[n];
    }
  }

  // ---------- one record ----------

  /** Device names as the block layer keeps them: distinct, and short enough for the length byte. */
  predicate GoodNames(names: seq<Name>) {
    && (forall i :: 0 <= i < |names| ==> |names[i]| < 256)
    && forall i, j :: 0 <= i < j < |names| ==> names[i] != names[j]
  }

  predicate Encodable(r: Record, names: seq<Name>) {
    match r
    case DeviceBlock(dev, sector, data) =>
      dev < |names| && |names[dev]| < 256 && sector < 0x40_0000_0000_0000 && |data| == CHUNK
    case Progress(p) => 0 <= p < 0x40_0000_0000_0000
    case Eos => true
  }

  function Header(sector: nat, flag: nat): (b: Bytes)
    ensures |b| == 8
  {
    BigEndian(sector * SECTOR_SIZE + flag, 8)
  }

  /** blk_send, and the two marks put by the save functions. */
  function Encode(r: Record, names: seq<Name>): Bytes
    requires Encodable(r, names)
  {
    match r
    case DeviceBlock(dev, sector, data) =>
      Header(sector, FLAG_DEVICE_BLOCK) + [|names[dev]|] + names[dev] + Flatten(data)
    case Progress(p) => Header(p, FLAG_PROGRESS)
    case Eos => Header(0, FLAG_EOS)
  }

  lemma {:induction false} BigEndianAt(v: nat, n: nat, k: nat)
    requires k < n
    ensures BigEndian(v, n)[k] == v / Pow256(n - 1 - k) % 256
  {
    if k < n - 1 {
      BigEndianAt(v / 256, n - 1, k);
      DivideTwice(v, Pow256(n - 2 - k));
    }
  }

  lemma DivideTwice(v: nat, p: nat)
    requires 0 < p
    ensures 0 < 256 * p && v / 256 / p == v / (256 * p)
  {
    var a := v / 256;
    var q := a / p;
    assert a == q * p + a % p && v == a * 256 + v % 256;
    QuotientIs(v, 256 * p, q, a % p * 256 + v % 256);
  }

  lemma QuotientIs(v: nat, d: nat, q: nat, r: nat)
    requires r < d && v == q * d + r
    ensures v / d == q
  {
    if v / d < q { Product(v / d + 1, q, d); } else if v / d > q { Product(q + 1, v / d, d); }
  }

  lemma Product(x: nat, y: nat, d: nat)
    requires x <= y
    ensures x * d <= y * d
  {}

  lemma {:induction false} FlattenAt(data: seq<Sector>, i: nat, j: nat)
    requires i < |data| && j < SECTOR_SIZE
    ensures SECTOR_SIZE * i + j < |Flatten(data)| && Flatten(data)[SECTOR_SIZE * i + j] == data[i][j]
    decreases |data|
  {
    var n := |data| - 1;
    if i < n { FlattenAt(data[..n], i, j); }
  }

  /** Every byte of an encoded block: the sector number above nine bits of flags, the highest byte
      first, the name with its length in front, and the data, sector after sector. */
  lemma BlockBytes(dev: nat, sector: nat, data: seq<Sector>, names: seq<Name>)
    requires Encodable(DeviceBlock(dev, sector, data), names)
    ensures var b, name := Encode(DeviceBlock(dev, sector, data), names), names[dev];
      && |b| == 9 + |name| + SECTOR_SIZE * CHUNK
      && (forall k :: 0 <= k < 8 ==> b[k] == (sector * 512 + 1) / Pow256(7 - k) % 256)
      && b[8] == |name| && b[9..9 + |name|] == name
      && forall x :: 0 <= x < SECTOR_SIZE * CHUNK ==> b[9 + |name|..][x] == data[x / SECTOR_SIZE][x % SECTOR_SIZE]
  {
    var name, v := names[dev], sector * 512 + 1;
    forall k | 0 <= k < 8 ensures BigEndian(v, 8)[k] == v / Pow256(7 - k) % 256 { BigEndianAt(v, 8, k); }
    forall x | 0 <= x < SECTOR_SIZE * CHUNK ensures Flatten(data)[x] == data[x / SECTOR_SIZE][x % SECTOR_SIZE] {
      FlattenAt(data, x / SECTOR_SIZE, x % SECTOR_SIZE);
    }
    hide BigEndian, Pow256, Flatten;
    BytesInPlace(Header(sector, FLAG_DEVICE_BLOCK), name, Flatten(data));
  }

  lemma BytesInPlace(header: Bytes, name: Name, payload: Bytes)
    requires |header| == 8 && |name| < 256
    ensures var b := header + [|name|] + name + payload;
      b[..8] == header && b[8] == |name| && b[9..9 + |name|] == name && b[9 + |name|..] == payload
  {}

  /** The two marks are headers alone. */
  lemma MarkBytes(p: nat, names: seq<Name>, k: nat)
    requires p < 0x40_0000_0000_0000 && k < 8
    ensures |Encode(Progress(p), names)| == |Encode(Eos, names)| == 8
    ensures Encode(Progress(p), names)[k] == (p * 512 + 4) / Pow256(7 - k) % 256
    ensures Encode(Eos, names)[k] == 2 / Pow256(7 - k) % 256
  {
    BigEndianAt(p * 512 + 4, 8, k);
    BigEndianAt(2, 8, k);
  }

  /** The outcome of one iteration; last is the end-of-section bit of the flags, cut whether the stream
      ended before the record did. */
  datatype Parsed =
    | Parsed(r: Record, last: bool, cut: bool, rest: Bytes)
    | UnknownDevice
    | UnknownFlags

  /** What the loader's buffers happen to hold before they are read into. */
  datatype Memory = Memory(name: Bytes, block: Bytes)

  predicate GoodMemory(mem: Memory) { |mem.name| == 256 && |mem.block| == SECTOR_SIZE * CHUNK }

  /** qemu_get_buffer of n bytes: where the stream has ended the buffer keeps what it held. */
  function Read(b: Bytes, n: nat, held: Bytes): (r: Bytes)
    requires n <= |held|
    ensures |r| == n && (n <= |b| ==> r == b[..n])
  {
    if n <= |b| then b[..n] else b + held[|b|..n]
  }

  function After(b: Bytes, n: nat): Bytes { if n <= |b| then b[n..] else [] }

  /** bdrv_find: the first device with this name. */
  function Find(names: seq<Name>, name: Name, i: nat): (r: nat)
    requires i <= |names|
    ensures i <= r <= |names| && (r < |names| ==> names[r] == name)
    ensures forall k :: i <= k < r ==> names[k] != name
    decreases |names| - i
  {
    if i == |names| || names[i] == name then i else Find(names, name, i + 1)
  }

  /** What follows the header of a block: the length of the name, the name and the data. */
  function ParseBody(sector: nat, last: bool, b: Bytes, names: seq<Name>, mem: Memory): (p: Parsed)
    requires GoodMemory(mem)
    ensures p.Parsed? ==> |p.rest| <= |b|
  {
    var len := if b == [] then 0 else b[0];
    var name := After(b, 1);
    var dev := Find(names, Read(name, len, mem.name), 0);
    if dev == |names| then UnknownDevice
    else
      var block := After(name, len);
      var payload := Read(block, SECTOR_SIZE * CHUNK, mem.block);
      Parsed(DeviceBlock(dev, sector, Sectors(payload, CHUNK)), last,
        |b| < 1 + len + SECTOR_SIZE * CHUNK, After(block, SECTOR_SIZE * CHUNK))
  }

  /** One iteration of the loop of block_load, without the write.  At the end of the stream bytes read
      as 0, so a cut header has no flag set. */
  function Parse(b: Bytes, names: seq<Name>, mem: Memory): (p: Parsed)
    requires GoodMemory(mem)
    ensures p.Parsed? ==> |p.rest| < |b|
  {
    if |b| < 8 then UnknownFlags
    else
      var addr := Value(b[..8]);
      var flags, sector := addr % SECTOR_SIZE, addr / SECTOR_SIZE;
      var last := flags / 2 % 2 == 1;
      if flags % 2 == 1 then ParseBody(sector, last, b[8..], names, mem)
      else if flags / 4 % 2 == 1 then Parsed(Progress(sector), last, false, b[8..])
      else if last then Parsed(Eos, last, false, b[8..])
      else UnknownFlags
  }

  lemma Quotient(sector: nat, flag: nat)
    requires flag < SECTOR_SIZE
    ensures (sector * SECTOR_SIZE + flag) % SECTOR_SIZE == flag && (sector * SECTOR_SIZE + flag) / SECTOR_SIZE == sector
  {}

  lemma HeaderValue(sector: nat, flag: nat, rest: Bytes)
    requires sector < 0x40_0000_0000_0000 && flag < SECTOR_SIZE
    ensures var b := Header(sector, flag) + rest;
            && |Header(sector, flag)| == 8 && b[..8] == Header(sector, flag) && b[8..] == rest
            && Value(b[..8]) % SECTOR_SIZE == flag && Value(b[..8]) / SECTOR_SIZE == sector
  {
    Pow256Of8();
    var v := sector * SECTOR_SIZE + flag;
    ValueOfBigEndian(v, 8);
    Quotient(sector, flag);
    hide BigEndian, Value, Pow256;
    var b := Header(sector, flag) + rest;
    assert b[..8] == Header(sector, flag) == BigEndian(v, 8);
  }

  /** The loader takes off the wire exactly the record that was put on it, whatever follows. */
  lemma ParseEncode(r: Record, names: seq<Name>, mem: Memory, rest: Bytes)
    requires GoodNames(names) && Encodable(r, names) && GoodMemory(mem)
    ensures Parse(Encode(r, names) + rest, names, mem) == Parsed(r, r.Eos?, false, rest)
  {
    match r
    case Progress(p) => HeaderValue(p, FLAG_PROGRESS, rest);
    case Eos => HeaderValue(0, FLAG_EOS, rest);
    case DeviceBlock(dev, sector, data) => ParseBlock(dev, sector, data, names, mem, rest);
  }

  lemma ParseBlock(dev: nat, sector: nat, data: seq<Sector>, names: seq<Name>, mem: Memory, rest: Bytes)
    requires GoodNames(names) && Encodable(DeviceBlock(dev, sector, data), names) && GoodMemory(mem)
    ensures Parse(Encode(DeviceBlock(dev, sector, data), names) + rest, names, mem)
      == Parsed(DeviceBlock(dev, sector, data), false, false, rest)
  {
    hide Header, Flatten, Sectors, Parse, ParseBody, Read, After;
    var name, payload := names[dev], Flatten(data);
    EncodedBlock(dev, sector, data, names, rest);
    assert Find(names, name, 0) == dev;
    hide Find, Encode, GoodNames;
    ReadPayload(payload, rest, mem);
    ParseHeader(sector, [|name|] + name + (payload + rest), names, mem);
    ParseFields(sector, name, payload + rest, names, mem);
    SectorsOfFlatten(data);
  }

  lemma EncodedBlock(dev: nat, sector: nat, data: seq<Sector>, names: seq<Name>, rest: Bytes)
    requires Encodable(DeviceBlock(dev, sector, data), names)
    ensures Encode(DeviceBlock(dev, sector, data), names) + rest ==
            Header(sector, FLAG_DEVICE_BLOCK) + ([|names[dev]|] + names[dev] + (Flatten(data) + rest))
  {
    hide Header, Flatten;
  }

  lemma ReadPayload(payload: Bytes, rest: Bytes, mem: Memory)
    requires GoodMemory(mem) && |payload| == SECTOR_SIZE * CHUNK
    ensures Read(payload + rest, SECTOR_SIZE * CHUNK, mem.block) == payload
    ensures After(payload + rest, SECTOR_SIZE * CHUNK) == rest
  {}

  lemma ParseHeader(sector: nat, body: Bytes, names: seq<Name>, mem: Memory)
    requires GoodMemory(mem) && sector < 0x40_0000_0000_0000
    ensures Parse(Header(sector, FLAG_DEVICE_BLOCK) + body, names, mem) == ParseBody(sector, false, body, names, mem)
  {
    HeaderValue(sector, FLAG_DEVICE_BLOCK, body);
    hide Header, Value, ParseBody;
  }

  /** Parsing follows the fields, however much of the data is there. */
  lemma ParseFields(sector: nat, name: Name, part: Bytes, names: seq<Name>, mem: Memory)
    requires GoodMemory(mem) && |name| < 256
    ensures ParseBody(sector, false, [|name|] + name + part, names, mem) ==
      var dev := Find(names, name, 0);
      if dev == |names| then UnknownDevice
      else Parsed(DeviceBlock(dev, sector, Sectors(Read(part, SECTOR_SIZE * CHUNK, mem.block), CHUNK)), false,
                  |part| < SECTOR_SIZE * CHUNK, After(part, SECTOR_SIZE * CHUNK))
  {
    hide Sectors, Find;
    var b := [|name|] + name + part;
    assert b[1..] == name + part;
    assert (name + part)[..|name|] == name && (name + part)[|name|..] == part;
  }

  // ---------- the loader ----------

  datatype Loaded =
    | Ended(disks: seq<Disk>, rest: Bytes)
    | Invalid(disks: seq<Disk>)
    | Truncated(disks: seq<Disk>)

  /** block_load: one section, up to its end mark. */
  function LoadSection(disks: seq<Disk>, names: seq<Name>, mem: Memory, b: Bytes): Loaded
    requires GoodMemory(mem)
    decreases |b|
  {
    match Parse(b, names, mem)
    case Parsed(r, last, cut, rest) =>
      if cut then Truncated(Load(disks, r))
      else if last then Ended(Load(disks, r), rest)
      else LoadSection(Load(disks, r), names, mem, rest)
    case UnknownDevice => Invalid(disks)
    case UnknownFlags => Invalid(disks)
  }

  lemma {:induction false} SectionShrinks(disks: seq<Disk>, names: seq<Name>, mem: Memory, b: Bytes)
    requires GoodMemory(mem)
    ensures LoadSection(disks, names, mem, b).Ended? ==> |LoadSection(disks, names, mem, b).rest| < |b|
    decreases |b|
  {
    hide Parse;
    var p := Parse(b, names, mem);
    if p.Parsed? && !p.cut && !p.last { SectionShrinks(Load(disks, p.r), names, mem, p.rest); }
  }

  /** All sections of a stream, one call of block_load for each. */
  function LoadAll(disks: seq<Disk>, names: seq<Name>, mem: Memory, b: Bytes): Loaded
    requires GoodMemory(mem)
    decreases |b|
  {
    if b == [] then Ended(disks, [])
    else
      var section := LoadSection(disks, names, mem, b);
      SectionShrinks(disks, names, mem, b);
      if section.Ended? then LoadAll(section.disks, names, mem, section.rest) else section
  }

  const EINVAL := 22
  const EIO := 5

  /** block_load as a loop that writes the destination disks in place.  A block that is cut short is
      still written, its end being whatever the buffer held. */
  method BlockLoad(disks: array<Disk>, names: seq<Name>, mem: Memory, stream: Bytes) returns (status: int, rest: Bytes)
    requires GoodMemory(mem)
    modifies disks
    ensures disks[..] == LoadSection(old(disks[..]), names, mem, stream).disks
    ensures match LoadSection(old(disks[..]), names, mem, stream)
            case Ended(_, tail) => status == 0 && rest == tail
            case Invalid(_) => status == -EINVAL
            case Truncated(_) => status == -EIO
  {
    hide Parse;
    rest := stream;
    while true
      invariant LoadSection(old(disks[..]), names, mem, stream) == LoadSection(disks[..], names, mem, rest)
      decreases |rest|
    {
      match Parse(rest, names, mem) {
        case UnknownDevice => return -EINVAL, rest;
        case UnknownFlags => return -EINVAL, rest;
        case Parsed(r, last, cut, tail) =>
          ghost var after := Load(disks[..], r);
          if r.DeviceBlock? && r.dev < disks.Length && r.sector + |r.data| <= |disks[r.dev]| {
            disks[r.dev] := Overwrite(disks[r.dev], r.sector, r.data);
          }
          assert disks[..] == after;
          if cut { return -EIO, rest; }
          rest := tail;
          if last { return 0, rest; }
      }
    }
  }

  // ---------- the whole stream over the wire ----------

  predicate AllEncodable(rs: seq<Record>, names: seq<Name>) {
    forall k :: 0 <= k < |rs| ==> Encodable(rs[k], names)
  }

  function EncodeAll(rs: seq<Record>, names: seq<Name>): Bytes
    requires AllEncodable(rs, names)
  {
    if |rs| == 0 then [] else Encode(rs[0], names) + EncodeAll(rs[1..], names)
  }

  lemma {:induction false} ReplayFirst(disks: seq<Disk>, r: Record, rs: seq<Record>)
    ensures Replay(disks, [r] + rs) == Replay(Load(disks, r), rs)
    decreases |rs|
  {
    if |rs| == 0 {
      assert ([r] + rs)[..0] == [] && [r] + rs == [r];
    } else {
      var n := |rs| - 1;
      assert ([r] + rs)[..n + 1] == [r] + rs[..n];
      ReplayFirst(disks, r, rs[..n]);
    }
  }

  /** The end mark ends a section. */
  lemma LoadEos(disks: seq<Disk>, names: seq<Name>, mem: Memory, tail: Bytes)
    requires GoodNames(names) && GoodMemory(mem)
    ensures LoadAll(disks, names, mem, Encode(Eos, names) + tail) == LoadAll(disks, names, mem, tail)
  {
    var b := Encode(Eos, names) + tail;
    ParseEncode(Eos, names, mem, tail);
    EncodeNotEmpty(Eos, names);
    hide Parse, Encode;
    assert LoadSection(disks, names, mem, b) == Ended(disks, tail);
  }

  /** Any other record is loaded, and the section goes on. */
  lemma LoadOther(disks: seq<Disk>, names: seq<Name>, mem: Memory, r: Record, tail: Bytes)
    requires GoodNames(names) && Encodable(r, names) && GoodMemory(mem) && !r.Eos? && tail != []
    ensures LoadAll(disks, names, mem, Encode(r, names) + tail) == LoadAll(Load(disks, r), names, mem, tail)
  {
    var b := Encode(r, names) + tail;
    ParseEncode(r, names, mem, tail);
    EncodeNotEmpty(r, names);
    hide Parse, Encode;
    assert LoadSection(disks, names, mem, b) == LoadSection(Load(disks, r), names, mem, tail);
  }

  /** Loading the bytes of a stream is replaying its records. */
  lemma {:induction false} LoadEncoded(disks: seq<Disk>, names: seq<Name>, mem: Memory, rs: seq<Record>)
    requires GoodNames(names) && AllEncodable(rs, names) && GoodMemory(mem)
    requires rs != [] ==> rs[|rs| - 1] == Eos
    ensures LoadAll(disks, names, mem, EncodeAll(rs, names)) == Ended(Replay(disks, rs), [])
    decreases |rs|
  {
    if rs != [] {
      var r, ts := rs[0], rs[1..];
      assert rs == [r] + ts && Encodable(r, names) && AllEncodable(ts, names);
      ReplayFirst(disks, r, ts);
      LoadEncoded(Load(disks, r), names, mem, ts);
      if r.Eos? {
        assert Load(disks, r) == disks;
        LoadEos(disks, names, mem, EncodeAll(ts, names));
      } else {
        assert ts != [];
        EncodeNotEmpty(ts[0], names);
        LoadOther(disks, names, mem, r, EncodeAll(ts, names));
      }
      hide Encode, LoadAll, Load, Encodable, GoodNames;
    }
  }

  lemma EncodeNotEmpty(r: Record, names: seq<Name>)
    requires Encodable(r, names)
    ensures Encode(r, names) != []
  {}

  // ---------- streams that are not sections ----------

  predicate NoEnd(rs: seq<Record>) { forall k :: 0 <= k < |rs| ==> !rs[k].Eos? }

  /** Whatever follows, the complete records in front of it are loaded first. */
  lemma {:induction false} LoadFront(disks: seq<Disk>, names: seq<Name>, mem: Memory, rs: seq<Record>, tail: Bytes)
    requires GoodNames(names) && AllEncodable(rs, names) && GoodMemory(mem) && NoEnd(rs)
    ensures LoadSection(disks, names, mem, EncodeAll(rs, names) + tail) ==
            LoadSection(Replay(disks, rs), names, mem, tail)
    decreases |rs|
  {
    if rs == [] {
      assert [] + tail == tail;
    } else {
      var r, ts := rs[0], rs[1..];
      assert rs == [r] + ts && Encodable(r, names) && AllEncodable(ts, names);
      ReplayFirst(disks, r, ts);
      Assoc(Encode(r, names), EncodeAll(ts, names), tail);
      ParseEncode(r, names, mem, EncodeAll(ts, names) + tail);
      LoadFront(Load(disks, r), names, mem, ts, tail);
      hide Encode, Load, Encodable, GoodNames, Parse;
    }
  }

  /** A header without any known flag: an invalid stream, of which the records before it are loaded. */
  lemma LoadUnknownFlags(disks: seq<Disk>, names: seq<Name>, mem: Memory, rs: seq<Record>, sector: nat, flag: nat, tail: Bytes)
    requires GoodNames(names) && AllEncodable(rs, names) && GoodMemory(mem) && NoEnd(rs)
    requires sector < 0x40_0000_0000_0000 && flag < SECTOR_SIZE && flag % 8 == 0
    ensures LoadSection(disks, names, mem, EncodeAll(rs, names) + (Header(sector, flag) + tail)) == Invalid(Replay(disks, rs))
  {
    LoadFront(disks, names, mem, rs, Header(sector, flag) + tail);
    hide Header, Replay, EncodeAll, Parse;
    ParseNoFlag(sector, flag, names, mem, tail);
  }

  lemma ParseNoFlag(sector: nat, flag: nat, names: seq<Name>, mem: Memory, tail: Bytes)
    requires GoodMemory(mem) && sector < 0x40_0000_0000_0000 && flag < SECTOR_SIZE && flag % 8 == 0
    ensures Parse(Header(sector, flag) + tail, names, mem) == UnknownFlags
  {
    HeaderValue(sector, flag, tail);
    NoFlag(flag);
    hide Header, Value, ParseBody;
  }

  lemma NoFlag(flag: nat)
    requires flag % 8 == 0
    ensures flag % 2 == 0 && flag / 2 % 2 == 0 && flag / 4 % 2 == 0
  {}

  /** A block for a device that the destination does not have: likewise. */
  lemma LoadUnknownDevice(disks: seq<Disk>, names: seq<Name>, mem: Memory, rs: seq<Record>, sector: nat, name: Name, tail: Bytes)
    requires GoodNames(names) && AllEncodable(rs, names) && GoodMemory(mem) && NoEnd(rs)
    requires sector < 0x40_0000_0000_0000 && |name| < 256 && name !in names
    ensures LoadSection(disks, names, mem, EncodeAll(rs, names) + (Header(sector, FLAG_DEVICE_BLOCK) + ([|name|] + name + tail)))
      == Invalid(Replay(disks, rs))
  {
    var more := [|name|] + name + tail;
    var b := Header(sector, FLAG_DEVICE_BLOCK) + more;
    LoadFront(disks, names, mem, rs, b);
    hide Header, Parse, ParseBody, Replay, EncodeAll;
    ParseHeader(sector, more, names, mem);
    ParseFields(sector, name, tail, names, mem);
  }

  /** A stream that ends before a header does is invalid: the missing bytes read as 0. */
  lemma LoadCutHeader(disks: seq<Disk>, names: seq<Name>, mem: Memory, rs: seq<Record>, part: Bytes)
    requires GoodNames(names) && AllEncodable(rs, names) && GoodMemory(mem) && NoEnd(rs) && |part| < 8
    ensures LoadSection(disks, names, mem, EncodeAll(rs, names) + part) == Invalid(Replay(disks, rs))
  {
    LoadFront(disks, names, mem, rs, part);
  }

  /** A stream that ends within the data of a block is an I/O error, and the block is written all the
      same: the data that came, and behind it what the buffer held. */
  lemma LoadCutBlock(disks: seq<Disk>, names: seq<Name>, mem: Memory, rs: seq<Record>, dev: nat, sector: nat, part: Bytes)
    requires GoodNames(names) && AllEncodable(rs, names) && GoodMemory(mem) && NoEnd(rs)
    requires dev < |names| && sector < 0x40_0000_0000_0000 && |part| < SECTOR_SIZE * CHUNK
    ensures LoadSection(disks, names, mem,
              EncodeAll(rs, names) + (Header(sector, FLAG_DEVICE_BLOCK) + ([|names[dev]|] + names[dev] + part))) ==
            Truncated(Load(Replay(disks, rs), DeviceBlock(dev, sector, Sectors(part + mem.block[|part|..], CHUNK))))
  {
    var name := names[dev];
    var more := [|name|] + name + part;
    var b := Header(sector, FLAG_DEVICE_BLOCK) + more;
    LoadFront(disks, names, mem, rs, b);
    assert Find(names, name, 0) == dev;
    assert Read(part, SECTOR_SIZE * CHUNK, mem.block) == part + mem.block[|part|..];
    hide Header, Parse, ParseBody, Replay, EncodeAll, Sectors, Load, Find, Read;
    ParseHeader(sector, more, names, mem);
    ParseFields(sector, name, part, names, mem);
  }

  /** A section that is cut short anywhere never loads successfully. */
  lemma {:induction false} CutNeverSucceeds(disks: seq<Disk>, names: seq<Name>, mem: Memory, rs: seq<Record>, k: nat)
    requires GoodNames(names) && AllEncodable(rs, names) && GoodMemory(mem)
    requires NoEnd(rs) && k < |EncodeAll(rs + [Eos], names)|
    ensures !LoadSection(disks, names, mem, EncodeAll(rs + [Eos], names)[..k]).Ended?
    decreases |rs|
  {
    var all := rs + [Eos];
    var r, ts := all[0], all[1..];
    var first, later := Encode(r, names), EncodeAll(ts, names);
    var b := EncodeAll(all, names)[..k];
    if k >= |first| {
      assert rs == [] ==> ts == [] && later == [];
      if rs != [] {
        assert ts == rs[1..] + [Eos];
        assert b == first + later[..k - |first|];
        ParseEncode(r, names, mem, later[..k - |first|]);
        CutNeverSucceeds(Load(disks, r), names, mem, rs[1..], k - |first|);
        hide Parse, Encode, Load;
      }
    } else {
      assert b == first[..k];
      CutRecord(r, names, mem, k);
      hide Parse, Encode;
    }
  }

  lemma CutRecord(r: Record, names: seq<Name>, mem: Memory, k: nat)
    requires GoodNames(names) && Encodable(r, names) && GoodMemory(mem) && k < |Encode(r, names)|
    ensures var p := Parse(Encode(r, names)[..k], names, mem); p.Parsed? ==> p.cut
  {
    hide Header, Parse, Flatten;
    if k < 8 {
      ParseShort(Encode(r, names)[..k], names, mem);
    } else {
      assert r.DeviceBlock?;
      var name := names[r.dev];
      var body := [|name|] + name + Flatten(r.data);
      EncodedBlock(r.dev, r.sector, r.data, names, []);
      hide Encode;
      assert Encode(r, names) + [] == Encode(r, names) && Flatten(r.data) + [] == Flatten(r.data);
      CutAfterHeader(Header(r.sector, FLAG_DEVICE_BLOCK), body, k);
      ParseHeader(r.sector, body[..k - 8], names, mem);
      CutBody(r.sector, body, k - 8, names, mem);
    }
  }

  lemma ParseShort(b: Bytes, names: seq<Name>, mem: Memory)
    requires GoodMemory(mem) && |b| < 8
    ensures Parse(b, names, mem) == UnknownFlags
  {}

  lemma CutAfterHeader(header: Bytes, body: Bytes, k: nat)
    requires |header| == 8 <= k < 8 + |body|
    ensures (header + body)[..k] == header + body[..k - 8]
  {}

  lemma CutBody(sector: nat, body: Bytes, k: nat, names: seq<Name>, mem: Memory)
    requires GoodMemory(mem) && k < |body| && |body| == 1 + body[0] + SECTOR_SIZE * CHUNK
    ensures var p := ParseBody(sector, false, body[..k], names, mem); p.Parsed? ==> p.cut
  {
    hide Find, Sectors, Read, After;
    assert k > 0 ==> body[..k][0] == body[0];
  }

  /** Sector numbers fit the header field: 54 bits above the 9 flag bits and the sign. */
  predicate SmallDisks(disks: seq<Disk>) {
    forall i :: 0 <= i < |disks| ==> |disks[i]| <= 0x40_0000_0000_0000
  }

  lemma StreamEncodable(s: State, base: seq<Disk>, names: seq<Name>, bad: set<(nat, nat)>)
    requires Shape(s, base) && SmallDisks(base) && |names| == |base| && GoodNames(names)
    ensures AllEncodable(FinalStream(DirtyPass(s, 0, bad).s), names)
  {
    DirtyPassOut(s, 0, bad);
    var s' := DirtyPass(s, 0, bad).s;
    forall k | 0 <= k < |FinalStream(s')|
      ensures Encodable(FinalStream(s')[k], names)
    {
      var r := FinalStream(s')[k];
      if k < |s'.out| {
        assert RecordOk(r, s'.devs);
        if r.DeviceBlock? { assert DevOk(s.devs[r.dev], base[r.dev]); }
      }
    }
  }

  /** End to end over bytes: loading the bytes of the stream is replaying it, and after a migration of
      devices of whole chunks whose last stage began drained it turns the destination disks into the
      source disks. */
  lemma MigrationCopiesBytes(disks: seq<Disk>, dirty: seq<set<nat>>, alloc: seq<set<nat>>, sharedBase: bool,
                             base: seq<Disk>, names: seq<Name>, mem: Memory, events: seq<Event>, s: State, bad: set<(nat, nat)>)
    requires |disks| == |dirty| && GoodStart(disks, alloc, sharedBase, base)
    requires SmallDisks(base) && |names| == |base| && GoodNames(names) && GoodMemory(mem)
    requires Reaches(Init(disks, dirty, alloc, sharedBase), events, s)
    requires AllBulked(s) && !s.hasError && DirtyPass(s, 0, bad).ok
    ensures |s.devs| == |base| && forall i :: 0 <= i < |base| ==> |base[i]| == |s.devs[i].disk|
    ensures var stream := FinalStream(DirtyPass(s, 0, bad).s);
            && AllEncodable(stream, names)
            && (LoadAll(base, names, mem, EncodeAll(stream, names)) == Ended(Sources(s), []) <==>
                  TailsAgree(base, Sources(s)) && LostAgree(s, base))
            && (ReadyToFinish(s) && (forall i :: 0 <= i < |base| ==> |base[i]| % CHUNK == 0) ==>
                  LoadAll(base, names, mem, EncodeAll(stream, names)) == Ended(Sources(s), []))
  {
    InitInv(disks, dirty, alloc, sharedBase, base);
    RunInv(Init(disks, dirty, alloc, sharedBase), events, s, base);
    MigrationCopies(disks, dirty, alloc, sharedBase, base, events, s, bad);
    StreamEncodable(s, base, names, bad);
    LoadEncoded(base, names, mem, FinalStream(DirtyPass(s, 0, bad).s));
  }
}
