/**
 The byte arithmetic behind AES: multiplication in GF(2^8) modulo x^8+x^4+x^3+x+1
 (section 4.2 of FIPS-197) and the substitution box with its inverse.

 The box is kept the way the program keeps it, as a table of literals; its meaning is
 stated separately, as the affine image of the multiplicative inverse.
 */
module AesField {

  /** Multiplication by {02}. */
  function XTime(x: bv8): bv8 {
    (x << 1) ^ ((x >> 7) * 0x1b)
  }

  /** Full multiplication, one conditional addition per bit of b. */
  function Mul(a: bv8, b: bv8): bv8 {
    var a1 := XTime(a);
    var a2 := XTime(a1);
    var a3 := XTime(a2);
    var a4 := XTime(a3);
    var a5 := XTime(a4);
    var a6 := XTime(a5);
    var a7 := XTime(a6);
    (if b & 0x01 != 0 then a else 0) ^ (if b & 0x02 != 0 then a1 else 0) ^
    (if b & 0x04 != 0 then a2 else 0) ^ (if b & 0x08 != 0 then a3 else 0) ^
    (if b & 0x10 != 0 then a4 else 0) ^ (if b & 0x20 != 0 then a5 else 0) ^
    (if b & 0x40 != 0 then a6 else 0) ^ (if b & 0x80 != 0 then a7 else 0)
  }

  function Affine(x: bv8): bv8 {
    x ^ x.RotateLeft(1) ^ x.RotateLeft(2) ^ x.RotateLeft(3) ^ x.RotateLeft(4) ^ 0x63
  }

  /** Sixteen entries of the substitution box packed in one word, first entry in the top byte. */
  function SBoxRow(h: bv8): bv128 {
    if h == 0x0 then 0x637c777b_f26b6fc5_3001672b_fed7ab76
    else if h == 0x1 then 0xca82c97d_fa5947f0_add4a2af_9ca472c0
    else if h == 0x2 then 0xb7fd9326_363ff7cc_34a5e5f1_71d83115
    else if h == 0x3 then 0x04c723c3_1896059a_071280e2_eb27b275
    else if h == 0x4 then 0x09832c1a_1b6e5aa0_523bd6b3_29e32f84
    else if h == 0x5 then 0x53d100ed_20fcb15b_6acbbe39_4a4c58cf
    else if h == 0x6 then 0xd0efaafb_434d3385_45f9027f_503c9fa8
    else if h == 0x7 then 0x51a3408f_929d38f5_bcb6da21_10fff3d2
    else if h == 0x8 then 0xcd0c13ec_5f974417_c4a77e3d_645d1973
    else if h == 0x9 then 0x60814fdc_222a9088_46eeb814_de5e0bdb
    else if h == 0xa then 0xe0323a0a_4906245c_c2d3ac62_9195e479
    else if h == 0xb then 0xe7c8376d_8dd54ea9_6c56f4ea_657aae08
    else if h == 0xc then 0xba78252e_1ca6b4c6_e8dd741f_4bbd8b8a
    else if h == 0xd then 0x703eb566_4803f60e_613557b9_86c11d9e
    else if h == 0xe then 0xe1f89811_69d98e94_9b1e87e9_ce5528df
    else 0x8ca1890d_bfe64268_41992d0f_b054bb16
  }

  function InvSBoxRow(h: bv8): bv128 {
    if h == 0x0 then 0x52096ad5_3036a538_bf40a39e_81f3d7fb
    else if h == 0x1 then 0x7ce33982_9b2fff87_348e4344_c4dee9cb
    else if h == 0x2 then 0x547b9432_a6c2233d_ee4c950b_42fac34e
    else if h == 0x3 then 0x082ea166_28d924b2_765ba249_6d8bd125
    else if h == 0x4 then 0x72f8f664_86689816_d4a45ccc_5d65b692
    else if h == 0x5 then 0x6c704850_fdedb9da_5e154657_a78d9d84
    else if h == 0x6 then 0x90d8ab00_8cbcd30a_f7e45805_b8b34506
    else if h == 0x7 then 0xd02c1e8f_ca3f0f02_c1afbd03_01138a6b
    else if h == 0x8 then 0x3a911141_4f67dcea_97f2cfce_f0b4e673
    else if h == 0x9 then 0x96ac7422_e7ad3585_e2f937e8_1c75df6e
    else if h == 0xa then 0x47f11a71_1d29c589_6fb7620e_aa18be1b
    else if h == 0xb then 0xfc563e4b_c6d27920_9adbc0fe_78cd5af4
    else if h == 0xc then 0x1fdda833_8807c731_b1121059_2780ec5f
    else if h == 0xd then 0x60517fa9_19b54a0d_2de57a9f_93c99cef
    else if h == 0xe then 0xa0e03b4d_ae2af5b0_c8ebbb3c_83539961
    else 0x172b047e_ba77d626_e1691463_55210c7d
  }

  function SBox(x: bv8): bv8 {
    ((SBoxRow(x >> 4) >> (120 - 8 * (x & 15))) & 0xff) as bv8
  }

  function InvSBox(x: bv8): bv8 {
    ((InvSBoxRow(x >> 4) >> (120 - 8 * (x & 15))) & 0xff) as bv8
  }

  /** The inverse of Affine. */
  function AffineInverse(y: bv8): bv8 {
    y.RotateLeft(1) ^ y.RotateLeft(3) ^ y.RotateLeft(6) ^ 0x05
  }

  // The two exhaustive facts below are proved for one part of the byte range at a time.

  lemma Undo0(x: bv8)
    requires x & 0xE0 == 0x00
    ensures InvSBox(SBox(x)) == x
  {}

  lemma Undo1(x: bv8)
    requires x & 0xE0 == 0x20
    ensures InvSBox(SBox(x)) == x
  {}

  lemma Undo2(x: bv8)
    requires x & 0xE0 == 0x40
    ensures InvSBox(SBox(x)) == x
  {}

  lemma Undo3(x: bv8)
    requires x & 0xE0 == 0x60
    ensures InvSBox(SBox(x)) == x
  {}

  lemma Undo4(x: bv8)
    requires x & 0xE0 == 0x80
    ensures InvSBox(SBox(x)) == x
  {}

  lemma Undo5(x: bv8)
    requires x & 0xE0 == 0xA0
    ensures InvSBox(SBox(x)) == x
  {}

  lemma Undo6(x: bv8)
    requires x & 0xE0 == 0xC0
    ensures InvSBox(SBox(x)) == x
  {}

  lemma Undo7(x: bv8)
    requires x & 0xE0 == 0xE0
    ensures InvSBox(SBox(x)) == x
  {}

  /** The inverse box undoes the box, on every byte. */
  lemma InvSBoxUndoes(x: bv8)
    ensures InvSBox(SBox(x)) == x
  {
    hide InvSBox, SBox;
    if x & 0xE0 == 0 { Undo0(x); }
    else if x & 0xE0 == 0x20 { Undo1(x); }
    else if x & 0xE0 == 0x40 { Undo2(x); }
    else if x & 0xE0 == 0x60 { Undo3(x); }
    else if x & 0xE0 == 0x80 { Undo4(x); }
    else if x & 0xE0 == 0xA0 { Undo5(x); }
    else if x & 0xE0 == 0xC0 { Undo6(x); }
    else { Undo7(x); }
  }

  /** b is the multiplicative inverse of x, with 0 standing for the missing inverse of 0. */
  predicate IsInverse(x: bv8, b: bv8) {
    if x == 0 then b == 0 else Mul(x, b) == 1
  }

  lemma Meaning0(x: bv8)
    requires x & 0xF0 == 0x00
    ensures IsInverse(x, AffineInverse(SBox(x)))
  {}

  lemma Meaning1(x: bv8)
    requires x & 0xF0 == 0x10
    ensures IsInverse(x, AffineInverse(SBox(x)))
  {}

  lemma Meaning2(x: bv8)
    requires x & 0xF0 == 0x20
    ensures IsInverse(x, AffineInverse(SBox(x)))
  {}

  lemma Meaning3(x: bv8)
    requires x & 0xF0 == 0x30
    ensures IsInverse(x, AffineInverse(SBox(x)))
  {}

  lemma Meaning4(x: bv8)
    requires x & 0xF0 == 0x40
    ensures IsInverse(x, AffineInverse(SBox(x)))
  {}

  lemma Meaning5(x: bv8)
    requires x & 0xF0 == 0x50
    ensures IsInverse(x, AffineInverse(SBox(x)))
  {}

  lemma Meaning6(x: bv8)
    requires x & 0xF0 == 0x60
    ensures IsInverse(x, AffineInverse(SBox(x)))
  {}

  lemma Meaning7(x: bv8)
    requires x & 0xF0 == 0x70
    ensures IsInverse(x, AffineInverse(SBox(x)))
  {}

  lemma Meaning8(x: bv8)
    requires x & 0xF0 == 0x80
    ensures IsInverse(x, AffineInverse(SBox(x)))
  {}

  lemma Meaning9(x: bv8)
    requires x & 0xF0 == 0x90
    ensures IsInverse(x, AffineInverse(SBox(x)))
  {}

  lemma MeaningA(x: bv8)
    requires x & 0xF0 == 0xA0
    ensures IsInverse(x, AffineInverse(SBox(x)))
  {}

  lemma MeaningB(x: bv8)
    requires x & 0xF0 == 0xB0
    ensures IsInverse(x, AffineInverse(SBox(x)))
  {}

  lemma MeaningC(x: bv8)
    requires x & 0xF0 == 0xC0
    ensures IsInverse(x, AffineInverse(SBox(x)))
  {}

  lemma MeaningD(x: bv8)
    requires x & 0xF0 == 0xD0
    ensures IsInverse(x, AffineInverse(SBox(x)))
  {}

  lemma MeaningE(x: bv8)
    requires x & 0xF0 == 0xE0
    ensures IsInverse(x, AffineInverse(SBox(x)))
  {}

  lemma MeaningF(x: bv8)
    requires x & 0xF0 == 0xF0
    ensures IsInverse(x, AffineInverse(SBox(x)))
  {}

  lemma EntryMeaning(x: bv8)
    ensures IsInverse(x, AffineInverse(SBox(x)))
  {
    hide IsInverse, AffineInverse, SBox;
    if x & 0xF0 == 0 { Meaning0(x); }
    else if x & 0xF0 == 0x10 { Meaning1(x); }
    else if x & 0xF0 == 0x20 { Meaning2(x); }
    else if x & 0xF0 == 0x30 { Meaning3(x); }
    else if x & 0xF0 == 0x40 { Meaning4(x); }
    else if x & 0xF0 == 0x50 { Meaning5(x); }
    else if x & 0xF0 == 0x60 { Meaning6(x); }
    else if x & 0xF0 == 0x70 { Meaning7(x); }
    else if x & 0xF0 == 0x80 { Meaning8(x); }
    else if x & 0xF0 == 0x90 { Meaning9(x); }
    else if x & 0xF0 == 0xA0 { MeaningA(x); }
    else if x & 0xF0 == 0xB0 { MeaningB(x); }
    else if x & 0xF0 == 0xC0 { MeaningC(x); }
    else if x & 0xF0 == 0xD0 { MeaningD(x); }
    else if x & 0xF0 == 0xE0 { MeaningE(x); }
    else { MeaningF(x); }
  }

  /** Every entry of the table is the affine image of the inverse of its index,
      section 5.1.1 of FIPS-197. */
  lemma SBoxMeaning(x: bv8)
    ensures exists b :: IsInverse(x, b) && SBox(x) == Affine(b)
  {
    EntryMeaning(x);
    assert Affine(AffineInverse(SBox(x))) == SBox(x);
  }
}
