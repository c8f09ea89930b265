/**
 Instruction words of the CRIS disassembler, first as bit-vectors.
 */
module CrisWords {

  type Insn = bv16

  function Either(v: Insn, w: Insn): Insn { v | w }
  function Meet(v: Insn, w: Insn): Insn { v & w }
  function Without(v: Insn, w: Insn): Insn { v & !w }

  predicate Test(v: Insn, b: Insn)
    requires b < 16
  {
    (v >> b) & 1 != 0
  }

  lemma MeetTest(v: Insn, w: Insn, b: Insn)
    requires b < 16
    ensures Test(Meet(v, w), b) <==> Test(v, b) && Test(w, b)
  {}

  lemma WithoutTest(v: Insn, w: Insn, b: Insn)
    requires b < 16
    ensures Test(Without(v, w), b) <==> Test(v, b) && !Test(w, b)
  {}

  lemma Contained(m: Insn, v: Insn)
    ensures Meet(m, v) == m <==> Without(m, v) == 0
  {}

  lemma SomeBit(v: Insn)
    ensures v == 0 <==>
      !Test(v, 0) && !Test(v, 1) && !Test(v, 2) && !Test(v, 3) && !Test(v, 4) && !Test(v, 5) && !Test(v, 6) && !Test(v, 7) &&
      !Test(v, 8) && !Test(v, 9) && !Test(v, 10) && !Test(v, 11) && !Test(v, 12) && !Test(v, 13) && !Test(v, 14) && !Test(v, 15)
  {}
}

/**
 The same words as sets of bits.
 */
module CrisBits {
  import opened CrisWords

  predicate IsSet(v: Insn, k: nat) { k < 16 && Test(v, k as Insn) }

  function BitCount(v: Insn, n: nat): nat
    requires n <= 16
  {
    if n == 0 then 0 else BitCount(v, n - 1) + (if IsSet(v, n - 1) then 1 else 0)
  }

  /** number_of_bits. */
  function NumberOfBits(v: Insn): nat { BitCount(v, 16) }

  /** The instruction has all bits of the template and none of the losing bits. */
  predicate BitMatch(mask: Insn, lose: Insn, insn: Insn) { Meet(mask, insn) == mask && Meet(lose, insn) == 0 }

  ghost function BitsSet(v: Insn, n: nat): set<nat> { set k: nat | k < n && IsSet(v, k) }

  lemma {:induction false} BitCountMeans(v: Insn, n: nat)
    requires n <= 16
    ensures BitCount(v, n) == |BitsSet(v, n)|
  {
    hide IsSet;
    if n > 0 {
      BitCountMeans(v, n - 1);
      if IsSet(v, n - 1) {
        assert BitsSet(v, n) == BitsSet(v, n - 1) + {n - 1};
      } else {
        assert BitsSet(v, n) == BitsSet(v, n - 1);
      }
    } else {
      assert BitsSet(v, 0) == {};
    }
  }

  lemma ZeroMeans(v: Insn)
    ensures v == 0 <==> forall k :: 0 <= k < 16 ==> !IsSet(v, k)
  {
    hide Test;
    SomeBit(v);
    if v != 0 {
      assert IsSet(v, 0) || IsSet(v, 1) || IsSet(v, 2) || IsSet(v, 3) || IsSet(v, 4) || IsSet(v, 5) || IsSet(v, 6) ||
        IsSet(v, 7) || IsSet(v, 8) || IsSet(v, 9) || IsSet(v, 10) || IsSet(v, 11) || IsSet(v, 12) || IsSet(v, 13) ||
        IsSet(v, 14) || IsSet(v, 15);
    }
  }

  /** The test of the bits, one by one. */
  lemma BitMatchMeans(mask: Insn, lose: Insn, insn: Insn)
    ensures BitMatch(mask, lose, insn) <==>
      forall k :: 0 <= k < 16 ==> (IsSet(mask, k) ==> IsSet(insn, k)) && (IsSet(lose, k) ==> !IsSet(insn, k))
  {
    hide Test, Meet, Without;
    Contained(mask, insn);
    ZeroMeans(Without(mask, insn));
    ZeroMeans(Meet(lose, insn));
    forall k | 0 <= k < 16
      ensures IsSet(Without(mask, insn), k) <==> IsSet(mask, k) && !IsSet(insn, k)
      ensures IsSet(Meet(lose, insn), k) <==> IsSet(lose, k) && IsSet(insn, k)
    {
      WithoutTest(mask, insn, k as Insn);
      MeetTest(lose, insn, k as Insn);
    }
    hide IsSet;
  }
}
