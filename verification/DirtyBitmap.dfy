/**
 Dirty tracking of a block device (block.c): one bit for every chunk of 2048 sectors, packed
 in 32-bit words.  The class refines a set of chunk numbers: after any sequence of writes and
 resets a bit is set exactly when its chunk is in the set, and no operation touches a bit
 outside the chunks it is given.
 */
module DirtyBitmap {

  const SECTORS_PER_CHUNK := 2048
  const WORD_BITS := 32

  function ChunkOf(sector: nat): nat { sector / SECTORS_PER_CHUNK }

  /** Truncating division by the chunk size, as C divides the possibly negative last sector. */
  function LastChunk(sector: nat, count: nat): int {
    var last := sector + count - 1;
    if last < 0 then 0 else last / SECTORS_PER_CHUNK
  }

  predicate Visits(sector: nat, count: nat, c: nat) {
    ChunkOf(sector) <= c <= LastChunk(sector, count)
  }

  /** The chunks the loop visits for a request of count sectors. */
  function ChunksOf(sector: nat, count: nat): set<nat> {
    set c: nat | c <= LastChunk(sector, count) && Visits(sector, count, c)
  }

  /** For a non-empty request these are exactly the chunks that contain one of its sectors. */
  lemma ChunksOfMeaning(sector: nat, count: nat, c: nat)
    requires 0 < count
    ensures c in ChunksOf(sector, count) <==> exists s: nat :: sector <= s < sector + count && ChunkOf(s) == c
  {
    if Visits(sector, count, c) {
      if c == ChunkOf(sector) {
        assert sector <= sector < sector + count && ChunkOf(sector) == c;
      } else {
        var s: nat := SECTORS_PER_CHUNK * c;
        assert sector <= s < sector + count && ChunkOf(s) == c;
      }
    }
    forall s: nat | sector <= s < sector + count && ChunkOf(s) == c
      ensures Visits(sector, count, c)
    {
      var last := sector + count - 1;
      assert sector / SECTORS_PER_CHUNK <= s / SECTORS_PER_CHUNK <= last / SECTORS_PER_CHUNK;
    }
  }

  // ---------- what a history of writes and resets leaves dirty ----------

  datatype Op = Write(sector: nat, count: nat) | Reset(sector: nat, count: nat)

  function Touched(op: Op): set<nat> { ChunksOf(op.sector, op.count) }

  function After(ops: seq<Op>): set<nat> {
    if |ops| == 0 then {}
    else
      var last := ops[|ops| - 1];
      if last.Write? then After(ops[..|ops| - 1]) + Touched(last) else After(ops[..|ops| - 1]) - Touched(last)
  }

  predicate WrittenAt(ops: seq<Op>, i: nat, c: nat) {
    && i < |ops| && ops[i].Write? && c in Touched(ops[i])
    && forall j :: i < j < |ops| && ops[j].Reset? ==> c !in Touched(ops[j])
  }

  /** A chunk is dirty exactly when some write touched it and no later reset did. */
  lemma {:induction false} DirtyMeaning(ops: seq<Op>, c: nat)
    ensures c in After(ops) <==> exists i: nat :: WrittenAt(ops, i, c)
  {
    if |ops| > 0 {
      var n := |ops| - 1;
      var before := ops[..n];
      DirtyMeaning(before, c);
      if c in Touched(ops[n]) {
        if ops[n].Write? { assert WrittenAt(ops, n, c); }
      } else {
        if i: nat :| WrittenAt(before, i, c) { assert WrittenAt(ops, i, c); }
        if i: nat :| WrittenAt(ops, i, c) { assert WrittenAt(before, i, c); }
      }
    }
  }

  /** The mask of a bit, the expression 1 << bit. */
  function Mask(bit: nat): bv32
    requires bit < WORD_BITS
  {
    (1 as bv32) << bit
  }

  function Meet(v: bv32, m: bv32): bv32 { v & m }
  function Join(v: bv32, m: bv32): bv32 { v | m }
  function Drop(v: bv32, m: bv32): bv32 { v & !m }

  predicate TestBit(w: bv32, bit: nat)
    requires bit < WORD_BITS
  {
    Meet(w, Mask(bit)) != 0
  }

  /** A word with one bit set or cleared. */
  function WithBit(w: bv32, bit: nat, dirty: bool): bv32
    requires bit < WORD_BITS
  {
    if dirty then Join(w, Mask(bit)) else Drop(w, Mask(bit))
  }

  lemma MasksApart(b: nat, c: nat)
    requires b < c < WORD_BITS
    ensures Meet(Mask(b), Mask(c)) == 0 && Meet(Mask(c), Mask(b)) == 0
  {}

  lemma DistinctMasks(b: nat, b': nat)
    requires b < WORD_BITS && b' < WORD_BITS
    ensures if b == b' then Mask(b) != 0 else Meet(Mask(b), Mask(b')) == 0
  {
    if b < b' {
      MasksApart(b, b');
      hide Meet;
    } else if b' < b {
      MasksApart(b', b);
      hide Meet;
    }
  }

  lemma SetSame(w: bv32, m: bv32)
    requires m != 0
    ensures Meet(Join(w, m), m) != 0
  {}

  lemma SetOther(w: bv32, m: bv32, n: bv32)
    requires Meet(m, n) == 0
    ensures Meet(Join(w, m), n) == Meet(w, n)
  {}

  lemma ClearSame(w: bv32, m: bv32)
    ensures Meet(Drop(w, m), m) == 0
  {}

  lemma ClearOther(w: bv32, m: bv32, n: bv32)
    requires Meet(m, n) == 0
    ensures Meet(Drop(w, m), n) == Meet(w, n)
  {}

  /** Setting or clearing one bit changes that bit and no other. */
  lemma WithBitTest(w: bv32, b: nat, b': nat, dirty: bool)
    requires b < WORD_BITS && b' < WORD_BITS
    ensures TestBit(WithBit(w, b, dirty), b') <==> if b == b' then dirty else TestBit(w, b')
  {
    hide Mask, Meet, Join, Drop;
    var m, n := Mask(b), Mask(b');
    DistinctMasks(b, b');
    if b == b' {
      if dirty { SetSame(w, m); } else { ClearSame(w, m); }
    } else {
      if dirty { SetOther(w, m, n); } else { ClearOther(w, m, n); }
    }
  }

  lemma SamePlace(c: nat, d: nat)
    ensures c == d <==> c / WORD_BITS == d / WORD_BITS && c % WORD_BITS == d % WORD_BITS
  {}

  class DirtyBitmap {
    /** Length of the device in sectors. */
    const sectors: nat
    /** One bit for every chunk of the device, in words of WORD_BITS bits. */
    const words: array<bv32>

    ghost predicate Valid() {
      sectors <= SECTORS_PER_CHUNK * WORD_BITS * words.Length
    }

    predicate Bit(c: nat)
      requires c / WORD_BITS < words.Length
      reads words
    {
      TestBit(words[c / WORD_BITS], c % WORD_BITS)
    }

    /** The set this bitmap stands for. */
    ghost function Dirty(): (d: set<nat>)
      reads words
      ensures forall c: nat :: c in d <==> c < WORD_BITS * words.Length && Bit(c)
    {
      set c: nat | c < WORD_BITS * words.Length && Bit(c)
    }

    /** A fresh bitmap has no bit set. */
    constructor (sectors: nat)
      ensures Valid() && fresh(words) && this.sectors == sectors && Dirty() == {}
    {
      this.sectors := sectors;
      var n := (sectors + SECTORS_PER_CHUNK * WORD_BITS - 1) / (SECTORS_PER_CHUNK * WORD_BITS);
      words := new bv32[n](_ => 0);
      new;
      assert n == words.Length;
    }

    /** One iteration of the loop: rewrites the word that holds the bit of this chunk. */
    method Put(chunk: nat, dirty: bool)
      requires chunk < WORD_BITS * words.Length
      modifies words
      ensures forall c: nat | c < WORD_BITS * words.Length :: Bit(c) <==> if c == chunk then dirty else old(Bit(c))
    {
      hide TestBit, WithBit;
      var idx, bit := chunk / WORD_BITS, chunk % WORD_BITS;
      var val := words[idx];
      words[idx] := WithBit(val, bit, dirty);
      forall c: nat | c < WORD_BITS * words.Length
        ensures Bit(c) <==> if c == chunk then dirty else old(Bit(c))
      {
        SamePlace(c, chunk);
        WithBitTest(val, bit, c % WORD_BITS, dirty);
      }
    }

    /** The loop of set_dirty_bitmap: sets or clears the bits of the visited chunks, in place. */
    method Set(sector: nat, count: nat, dirty: bool)
      requires Valid() && sector + count <= sectors && 0 < sectors
      modifies words
      ensures Dirty() == if dirty then old(Dirty()) + ChunksOf(sector, count) else old(Dirty()) - ChunksOf(sector, count)
    {
      hide Bit;
      var start, end := ChunkOf(sector), LastChunk(sector, count);
      ghost var first, bits := start, WORD_BITS * words.Length;
      assert end < bits;
      while start <= end
        invariant first <= start && (first <= end + 1 ==> start <= end + 1) && (end + 1 < first ==> start == first)
        invariant forall c: nat | c < bits :: Bit(c) <==> if first <= c < start then dirty else old(Bit(c))
        decreases end - start
      {
        Put(start, dirty);
        start := start + 1;
      }
      assert forall c: nat | c < bits :: first <= c < start <==> c in ChunksOf(sector, count);
    }

    /** bdrv_get_dirty, with the null-bitmap case left to the caller. */
    method Get(sector: nat) returns (dirty: bool)
      requires Valid()
      ensures dirty <==> sector < sectors && ChunkOf(sector) in Dirty()
    {
      var chunk := ChunkOf(sector);
      if sector < sectors {
        dirty := TestBit(words[chunk / WORD_BITS], chunk % WORD_BITS);
      } else {
        dirty := false;
      }
    }
  }

  predicate AllFit(ops: seq<Op>, sectors: nat) {
    forall i :: 0 <= i < |ops| ==> ops[i].sector + ops[i].count <= sectors
  }

  /** A whole history on a fresh bitmap: in the end a sector on the device tests dirty exactly if its
      chunk was written and has not been reset since. */
  method TestAfter(sectors: nat, ops: seq<Op>, sector: nat) returns (dirty: bool)
    requires 0 < sectors && AllFit(ops, sectors)
    ensures dirty <==> sector < sectors && exists i: nat :: WrittenAt(ops, i, ChunkOf(sector))
  {
    var bitmap := new DirtyBitmap(sectors);
    var i := 0;
    while i < |ops|
      invariant 0 <= i <= |ops| && bitmap.Valid() && bitmap.sectors == sectors && fresh(bitmap.words)
      invariant bitmap.Dirty() == After(ops[..i])
    {
      bitmap.Set(ops[i].sector, ops[i].count, ops[i].Write?);
      assert ops[..i + 1][..i] == ops[..i];
      i := i + 1;
    }
    assert ops[..i] == ops;
    dirty := bitmap.Get(sector);
    DirtyMeaning(ops, ChunkOf(sector));
  }

  // ---------- the allocation ----------

  const WORD_BYTES := 4

  /** What bdrv_set_dirty_tracking allocates: a bit for every chunk, rounded up to bytes. */
  function AllocatedBytes(sectors: nat): nat { (sectors + SECTORS_PER_CHUNK * 8 - 1) / (SECTORS_PER_CHUNK * 8) }

  /** The word of the sector's chunk, which is read and written as a whole, lies in the allocation. */
  predicate WordAllocated(sectors: nat, sector: nat) {
    WORD_BYTES * (ChunkOf(sector) / WORD_BITS) + WORD_BYTES <= AllocatedBytes(sectors)
  }

  /** All words in use lie in the allocation exactly if that is a multiple of the word size. */
  lemma WordsAllocatedExact(sectors: nat)
    requires 0 < sectors
    ensures (forall sector :: 0 <= sector < sectors ==> WordAllocated(sectors, sector)) <==>
            AllocatedBytes(sectors) % WORD_BYTES == 0
  {
    var last := sectors - 1;
    LastByte(last);
    var bytes := AllocatedBytes(sectors);
    assert WordAllocated(sectors, last) <==> WORD_BYTES * ((bytes - 1) / WORD_BYTES) + WORD_BYTES <= bytes;
    if bytes % WORD_BYTES == 0 {
      forall sector | 0 <= sector < sectors ensures WordAllocated(sectors, sector) {
        Smaller(sector, last);
      }
    }
  }

  /** The last chunk has its bit in the last byte. */
  lemma LastByte(last: nat)
    ensures AllocatedBytes(last + 1) == ChunkOf(last) / 8 + 1
    ensures ChunkOf(last) / WORD_BITS == ChunkOf(last) / 8 / WORD_BYTES
  {}

  lemma Smaller(a: nat, b: nat)
    requires a <= b
    ensures ChunkOf(a) <= ChunkOf(b) && ChunkOf(a) / WORD_BITS <= ChunkOf(b) / WORD_BITS
  {}

  /** A device of one chunk has one byte, and its word reaches beyond. */
  lemma OneChunkNotAllocated(sectors: nat)
    requires 0 < sectors <= SECTORS_PER_CHUNK
    ensures AllocatedBytes(sectors) == 1 && !WordAllocated(sectors, 0)
  {}
}
