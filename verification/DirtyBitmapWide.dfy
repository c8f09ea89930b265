/**
 Why DirtyBitmap has words of 32 bits.  The mask `1 << bit` of block.c is an int, which is
 sign-extended when it meets a wider word.  With words of 64 bits, chunk 31 of a word takes the
 upper half of the word with it (and from chunk 32 on the shift has no meaning at all).
 */
module DirtyBitmapWide {

  const INT_BITS: bv64 := 32
  const WORD_BITS: bv64 := 64

  /** Conversion of an int to the wider word. */
  function SignExtend(v: bv32): bv64 {
    if v & 0x8000_0000 != 0 then (v as bv64) | 0xFFFF_FFFF_0000_0000 else v as bv64
  }

  function Mask(bit: bv64): bv64
    requires bit < INT_BITS
  {
    SignExtend((1 as bv32) << bit)
  }

  function Meet(v: bv64, m: bv64): bv64 { v & m }
  function Join(v: bv64, m: bv64): bv64 { v | m }
  function Drop(v: bv64, m: bv64): bv64 { v & !m }

  /** The bit that a chunk really has in a word. */
  function Bit(c: bv64): bv64
    requires c < WORD_BITS
  {
    (1 as bv64) << c
  }

  predicate Test(w: bv64, c: bv64)
    requires c < WORD_BITS
  {
    Meet(w, Bit(c)) != 0
  }

  function WithBit(w: bv64, bit: bv64, dirty: bool): bv64
    requires bit < INT_BITS
  {
    if dirty then Join(w, Mask(bit)) else Drop(w, Mask(bit))
  }

  lemma LowMask(bit: bv64)
    requires bit < 31
    ensures Mask(bit) == Bit(bit)
  {}

  lemma DistinctBits(b: bv64, c: bv64)
    requires b < WORD_BITS && c < WORD_BITS
    ensures Bit(c) != 0 && Meet(Bit(b), Bit(c)) == if b == c then Bit(c) else 0
  {}

  lemma TopMask(c: bv64)
    requires c < WORD_BITS
    ensures Meet(Mask(31), Bit(c)) == if 31 <= c then Bit(c) else 0
  {}

  /** The mask of a bit covers that bit, and that of bit 31 the upper half too. */
  lemma MaskCovers(bit: bv64, c: bv64)
    requires bit < INT_BITS && c < WORD_BITS
    ensures Bit(c) != 0
    ensures Meet(Mask(bit), Bit(c)) == if c == bit || (bit == 31 && 32 <= c) then Bit(c) else 0
  {
    DistinctBits(bit, c);
    if bit < 31 { LowMask(bit); } else { TopMask(c); }
    hide Mask, Bit, Meet;
  }

  lemma Covered(w: bv64, m: bv64, n: bv64)
    requires Meet(m, n) == n
    ensures Meet(Join(w, m), n) == n && Meet(Drop(w, m), n) == 0
  {}

  lemma SetOther(w: bv64, m: bv64, n: bv64)
    requires Meet(m, n) == 0
    ensures Meet(Join(w, m), n) == Meet(w, n)
  {
    hide Mask, Bit, SignExtend, Drop;
  }

  lemma ClearOther(w: bv64, m: bv64, n: bv64)
    requires Meet(m, n) == 0
    ensures Meet(Drop(w, m), n) == Meet(w, n)
  {
    hide Mask, Bit, SignExtend, Join;
  }

  lemma Changed(w: bv64, m: bv64, n: bv64, dirty: bool, covered: bool)
    requires Meet(m, n) == (if covered then n else 0) && n != 0
    ensures Meet(if dirty then Join(w, m) else Drop(w, m), n) != 0 <==> if covered then dirty else Meet(w, n) != 0
  {
    hide *;
    if covered {
      Covered(w, m, n);
    } else {
      SetOther(w, m, n);
      ClearOther(w, m, n);
    }
  }

  lemma WithBitTest(w: bv64, bit: bv64, dirty: bool, c: bv64)
    requires bit < INT_BITS && c < WORD_BITS
    ensures Test(WithBit(w, bit, dirty), c) <==> if c == bit || (bit == 31 && 32 <= c) then dirty else Test(w, c)
  {
    hide Mask, Bit, Meet, Join, Drop, SignExtend;
    MaskCovers(bit, c);
    Changed(w, Mask(bit), Bit(c), dirty, c == bit || (bit == 31 && 32 <= c));
  }

  /** In a word of 64 bits, setting or clearing one of the lower 32 changes that bit and no other
      exactly if it is not bit 31, or the whole upper half was so already. */
  lemma WideWordExact(w: bv64, bit: bv64, dirty: bool)
    requires bit < INT_BITS
    ensures (forall c: bv64 | c < WORD_BITS :: Test(WithBit(w, bit, dirty), c) <==> if c == bit then dirty else Test(w, c))
            <==> bit < 31 || forall c: bv64 | 32 <= c < WORD_BITS :: Test(w, c) == dirty
  {
    hide Test, WithBit;
    forall c: bv64 | c < WORD_BITS
      ensures Test(WithBit(w, bit, dirty), c) <==> if c == bit || (bit == 31 && 32 <= c) then dirty else Test(w, c)
    {
      WithBitTest(w, bit, dirty, c);
    }
  }

  /** So marking chunk 31 of a clean word makes all of the upper half test dirty. */
  lemma Chunk31Spills(c: bv64)
    requires 32 <= c < WORD_BITS
    ensures !Test(0, c) && Test(WithBit(0, 31, true), c)
  {
    hide WithBit;
    WithBitTest(0, 31, true, c);
  }
}
