/**
 The fast form of the AES rounds: each output column is the sum of four table entries and a
 round-key word.  The tables are given by the formulas in the program's own comment; every
 lemma equates a table expression of the program with the transformation it stands for.
 */
module AesTables {
  import opened AesField
  import opened AesCipher

  function Te0(x: bv8): bv32 { Pack(XTime(SBox(x)), SBox(x), SBox(x), Times3(SBox(x))) }
  function Te1(x: bv8): bv32 { Pack(Times3(SBox(x)), XTime(SBox(x)), SBox(x), SBox(x)) }
  function Te2(x: bv8): bv32 { Pack(SBox(x), Times3(SBox(x)), XTime(SBox(x)), SBox(x)) }
  function Te3(x: bv8): bv32 { Pack(SBox(x), SBox(x), Times3(SBox(x)), XTime(SBox(x))) }
  function Te4(x: bv8): bv32 { Pack(SBox(x), SBox(x), SBox(x), SBox(x)) }

  /** The columns of the inverse mixing matrix, as Td0..Td3 hold them for an already inverted byte. */
  function Ud0(s: bv8): bv32 { Pack(TimesE(s), Times9(s), TimesD(s), TimesB(s)) }
  function Ud1(s: bv8): bv32 { Pack(TimesB(s), TimesE(s), Times9(s), TimesD(s)) }
  function Ud2(s: bv8): bv32 { Pack(TimesD(s), TimesB(s), TimesE(s), Times9(s)) }
  function Ud3(s: bv8): bv32 { Pack(Times9(s), TimesD(s), TimesB(s), TimesE(s)) }

  function Td0(x: bv8): bv32 { Ud0(InvSBox(x)) }
  function Td1(x: bv8): bv32 { Ud1(InvSBox(x)) }
  function Td2(x: bv8): bv32 { Ud2(InvSBox(x)) }
  function Td3(x: bv8): bv32 { Ud3(InvSBox(x)) }
  function Td4(x: bv8): bv32 { Pack(InvSBox(x), InvSBox(x), InvSBox(x), InvSBox(x)) }

  function AddFour(p: bv32, q: bv32, r: bv32, s: bv32): bv32 { AddWord(AddWord(p, q), AddWord(r, s)) }

  lemma XorIsAdd(p: bv32, q: bv32, r: bv32, s: bv32)
    ensures p ^ q ^ r ^ s == AddFour(p, q, r, s)
  {
    hide AddWord;
    XorGroups(p, q, r, s);
  }

  lemma XorGroups(p: bv32, q: bv32, r: bv32, s: bv32)
    ensures p ^ q ^ r ^ s == AddWord(AddWord(p, q), AddWord(r, s))
  {}

  lemma XorIsAddKey(p: bv32, q: bv32, r: bv32, s: bv32, k: bv32)
    ensures p ^ q ^ r ^ s ^ k == AddWord(AddFour(p, q, r, s), k)
  {
    hide AddFour;
    XorIsAdd(p, q, r, s);
  }

  /** Adding four packed words adds them row by row. */
  lemma PackSum(p0: bv8, p1: bv8, p2: bv8, p3: bv8, q0: bv8, q1: bv8, q2: bv8, q3: bv8,
                r0: bv8, r1: bv8, r2: bv8, r3: bv8, s0: bv8, s1: bv8, s2: bv8, s3: bv8)
    ensures AddFour(Pack(p0, p1, p2, p3), Pack(q0, q1, q2, q3), Pack(r0, r1, r2, r3), Pack(s0, s1, s2, s3)) ==
            Pack(Sum4(p0, q0, r0, s0), Sum4(p1, q1, r1, s1), Sum4(p2, q2, r2, s2), Sum4(p3, q3, r3, s3))
  {
    hide Add, AddWord, Pack;
    PackAdd(p0, p1, p2, p3, q0, q1, q2, q3);
    PackAdd(r0, r1, r2, r3, s0, s1, s2, s3);
    PackAdd(Add(p0, q0), Add(p1, q1), Add(p2, q2), Add(p3, q3), Add(r0, s0), Add(r1, s1), Add(r2, s2), Add(r3, s3));
  }

  lemma SumTurn(a: bv8, b: bv8, c: bv8, d: bv8)
    ensures Sum4(a, b, c, d) == Sum4(b, c, d, a) == Sum4(c, d, a, b) == Sum4(d, a, b, c)
  {
    hide Add;
    AddLaws(a, b, c, d);
    AddLaws(b, c, d, a);
    AddLaws(c, d, a, b);
    AddLaws(d, a, b, c);
  }

  /** Four table entries add up to one mixed column. */
  lemma TeColumn(a: bv8, b: bv8, c: bv8, d: bv8)
    ensures AddFour(Te0(a), Te1(b), Te2(c), Te3(d)) == MixBytes(SBox(a), SBox(b), SBox(c), SBox(d))
  {
    hide AddFour, Sum4, Pack, XTime, Times3, SBox;
    var p, q, r, s := SBox(a), SBox(b), SBox(c), SBox(d);
    PackSum(XTime(p), p, p, Times3(p), Times3(q), XTime(q), q, q, r, Times3(r), XTime(r), r, s, s, Times3(s), XTime(s));
    SumTurn(p, XTime(q), Times3(r), s);
    SumTurn(p, q, XTime(r), Times3(s));
    SumTurn(Times3(p), q, r, XTime(s));
  }

  lemma UdColumn(p: bv8, q: bv8, r: bv8, s: bv8)
    ensures AddFour(Ud0(p), Ud1(q), Ud2(r), Ud3(s)) == InvMixBytes(p, q, r, s)
  {
    hide AddFour, Sum4, Pack, TimesE, TimesB, TimesD, Times9;
    PackSum(TimesE(p), Times9(p), TimesD(p), TimesB(p), TimesB(q), TimesE(q), Times9(q), TimesD(q),
            TimesD(r), TimesB(r), TimesE(r), Times9(r), Times9(s), TimesD(s), TimesB(s), TimesE(s));
    SumTurn(Times9(p), TimesE(q), TimesB(r), TimesD(s));
    SumTurn(TimesD(p), Times9(q), TimesE(r), TimesB(s));
    SumTurn(TimesB(p), TimesD(q), Times9(r), TimesE(s));
  }

  /** One column of a full round. */
  lemma RoundColumn(s0: bv32, s1: bv32, s2: bv32, s3: bv32, k: bv32)
    ensures Te0(Byte0(s0)) ^ Te1(Byte1(s1)) ^ Te2(Byte2(s2)) ^ Te3(Byte3(s3)) ^ k ==
            AddWord(MixColumn(Diagonal(SubWord(s0), SubWord(s1), SubWord(s2), SubWord(s3))), k)
  {
    hide AddFour, AddWord, Te0, Te1, Te2, Te3, MixBytes, SBox, Pack, Byte0, Byte1, Byte2, Byte3;
    XorIsAddKey(Te0(Byte0(s0)), Te1(Byte1(s1)), Te2(Byte2(s2)), Te3(Byte3(s3)), k);
    TeColumn(Byte0(s0), Byte1(s1), Byte2(s2), Byte3(s3));
    SubDiagonal(s0, s1, s2, s3);
    BytesPack(SBox(Byte0(s0)), SBox(Byte1(s1)), SBox(Byte2(s2)), SBox(Byte3(s3)));
  }

  lemma SubDiagonal(s0: bv32, s1: bv32, s2: bv32, s3: bv32)
    ensures Diagonal(SubWord(s0), SubWord(s1), SubWord(s2), SubWord(s3)) ==
            Pack(SBox(Byte0(s0)), SBox(Byte1(s1)), SBox(Byte2(s2)), SBox(Byte3(s3)))
  {
    hide SBox, Pack, Byte0, Byte1, Byte2, Byte3;
    BytesPack(SBox(Byte0(s0)), SBox(Byte1(s0)), SBox(Byte2(s0)), SBox(Byte3(s0)));
    BytesPack(SBox(Byte0(s1)), SBox(Byte1(s1)), SBox(Byte2(s1)), SBox(Byte3(s1)));
    BytesPack(SBox(Byte0(s2)), SBox(Byte1(s2)), SBox(Byte2(s2)), SBox(Byte3(s2)));
    BytesPack(SBox(Byte0(s3)), SBox(Byte1(s3)), SBox(Byte2(s3)), SBox(Byte3(s3)));
  }

  lemma InvSubDiagonal(s0: bv32, s1: bv32, s2: bv32, s3: bv32)
    ensures Diagonal(InvSubWord(s0), InvSubWord(s1), InvSubWord(s2), InvSubWord(s3)) ==
            Pack(InvSBox(Byte0(s0)), InvSBox(Byte1(s1)), InvSBox(Byte2(s2)), InvSBox(Byte3(s3)))
  {
    hide InvSBox, Pack, Byte0, Byte1, Byte2, Byte3;
    BytesPack(InvSBox(Byte0(s0)), InvSBox(Byte1(s0)), InvSBox(Byte2(s0)), InvSBox(Byte3(s0)));
    BytesPack(InvSBox(Byte0(s1)), InvSBox(Byte1(s1)), InvSBox(Byte2(s1)), InvSBox(Byte3(s1)));
    BytesPack(InvSBox(Byte0(s2)), InvSBox(Byte1(s2)), InvSBox(Byte2(s2)), InvSBox(Byte3(s2)));
    BytesPack(InvSBox(Byte0(s3)), InvSBox(Byte1(s3)), InvSBox(Byte2(s3)), InvSBox(Byte3(s3)));
  }

  /** One column of a full inverse round. */
  lemma InvRoundColumn(s0: bv32, s1: bv32, s2: bv32, s3: bv32, k: bv32)
    ensures Td0(Byte0(s0)) ^ Td1(Byte1(s1)) ^ Td2(Byte2(s2)) ^ Td3(Byte3(s3)) ^ k ==
            AddWord(InvMixColumn(Diagonal(InvSubWord(s0), InvSubWord(s1), InvSubWord(s2), InvSubWord(s3))), k)
  {
    hide AddFour, AddWord, Ud0, Ud1, Ud2, Ud3, InvMixBytes, InvSBox, Pack, Byte0, Byte1, Byte2, Byte3;
    XorIsAddKey(Td0(Byte0(s0)), Td1(Byte1(s1)), Td2(Byte2(s2)), Td3(Byte3(s3)), k);
    UdColumn(InvSBox(Byte0(s0)), InvSBox(Byte1(s1)), InvSBox(Byte2(s2)), InvSBox(Byte3(s3)));
    InvSubDiagonal(s0, s1, s2, s3);
    BytesPack(InvSBox(Byte0(s0)), InvSBox(Byte1(s1)), InvSBox(Byte2(s2)), InvSBox(Byte3(s3)));
  }

  lemma Masks(a: bv8, b: bv8, c: bv8, d: bv8, k: bv32)
    ensures (Pack(a, a, a, a) & 0xff00_0000) ^ (Pack(b, b, b, b) & 0x00ff_0000) ^
            (Pack(c, c, c, c) & 0x0000_ff00) ^ (Pack(d, d, d, d) & 0x0000_00ff) ^ k == AddWord(Pack(a, b, c, d), k)
  {}

  /** One column of the last round, which selects single bytes instead of mixing. */
  lemma LastColumn(s0: bv32, s1: bv32, s2: bv32, s3: bv32, k: bv32)
    ensures (Te4(Byte0(s0)) & 0xff00_0000) ^ (Te4(Byte1(s1)) & 0x00ff_0000) ^
            (Te4(Byte2(s2)) & 0x0000_ff00) ^ (Te4(Byte3(s3)) & 0x0000_00ff) ^ k ==
            AddWord(Diagonal(SubWord(s0), SubWord(s1), SubWord(s2), SubWord(s3)), k)
  {
    hide AddFour, AddWord, SBox, Pack, Byte0, Byte1, Byte2, Byte3;
    Masks(SBox(Byte0(s0)), SBox(Byte1(s1)), SBox(Byte2(s2)), SBox(Byte3(s3)), k);
    SubDiagonal(s0, s1, s2, s3);
  }

  lemma InvLastColumn(s0: bv32, s1: bv32, s2: bv32, s3: bv32, k: bv32)
    ensures (Td4(Byte0(s0)) & 0xff00_0000) ^ (Td4(Byte1(s1)) & 0x00ff_0000) ^
            (Td4(Byte2(s2)) & 0x0000_ff00) ^ (Td4(Byte3(s3)) & 0x0000_00ff) ^ k ==
            AddWord(Diagonal(InvSubWord(s0), InvSubWord(s1), InvSubWord(s2), InvSubWord(s3)), k)
  {
    hide AddFour, AddWord, InvSBox, Pack, Byte0, Byte1, Byte2, Byte3;
    Masks(InvSBox(Byte0(s0)), InvSBox(Byte1(s1)), InvSBox(Byte2(s2)), InvSBox(Byte3(s3)), k);
    InvSubDiagonal(s0, s1, s2, s3);
  }

  /** Sending a byte through Te4 and then a Td table leaves only the mixing: the two boxes cancel. */
  lemma KeyColumn(w: bv32)
    ensures Td0(Byte3(Te4(Byte0(w)))) ^ Td1(Byte3(Te4(Byte1(w)))) ^
            Td2(Byte3(Te4(Byte2(w)))) ^ Td3(Byte3(Te4(Byte3(w)))) == InvMixColumn(w)
  {
    hide AddFour, AddWord, Ud0, Ud1, Ud2, Ud3, InvMixBytes, SBox, InvSBox, Pack, Byte0, Byte1, Byte2, Byte3;
    var a, b, c, d := Byte0(w), Byte1(w), Byte2(w), Byte3(w);
    BytesPack(SBox(a), SBox(a), SBox(a), SBox(a));
    BytesPack(SBox(b), SBox(b), SBox(b), SBox(b));
    BytesPack(SBox(c), SBox(c), SBox(c), SBox(c));
    BytesPack(SBox(d), SBox(d), SBox(d), SBox(d));
    InvSBoxUndoes(a);
    InvSBoxUndoes(b);
    InvSBoxUndoes(c);
    InvSBoxUndoes(d);
    UdColumn(a, b, c, d);
    XorIsAdd(Td0(SBox(a)), Td1(SBox(b)), Td2(SBox(c)), Td3(SBox(d)));
  }
}
