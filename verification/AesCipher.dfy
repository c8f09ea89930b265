/**
 The AES cipher of FIPS-197 on four 32-bit columns: the forward rounds of section 5.1, the
 equivalent inverse cipher of section 5.3.5, and the proof that the second undoes the
 first under any key schedule.  No table appears here; the table form is proved equal to
 these definitions where the program uses it.
 */
module AesCipher {
  import opened AesField

  // ---------- words and bytes ----------

  // Byte r of a column, row 0 in the most significant position.
  function Byte0(w: bv32): bv8 { (w >> 24) as bv8 }
  function Byte1(w: bv32): bv8 { ((w >> 16) & 0xff) as bv8 }
  function Byte2(w: bv32): bv8 { ((w >> 8) & 0xff) as bv8 }
  function Byte3(w: bv32): bv8 { (w & 0xff) as bv8 }

  function Pack(a: bv8, b: bv8, c: bv8, d: bv8): bv32 {
    ((a as bv32) << 24) ^ ((b as bv32) << 16) ^ ((c as bv32) << 8) ^ (d as bv32)
  }

  lemma PackBytes(w: bv32)
    ensures Pack(Byte0(w), Byte1(w), Byte2(w), Byte3(w)) == w
  {}

  lemma BytesPack(a: bv8, b: bv8, c: bv8, d: bv8)
    ensures Byte0(Pack(a, b, c, d)) == a && Byte1(Pack(a, b, c, d)) == b
    ensures Byte2(Pack(a, b, c, d)) == c && Byte3(Pack(a, b, c, d)) == d
  {}

  // ---------- addition ----------

  // Addition in GF(2^8) and of columns.  Proofs below hide these two bodies and reason by
  // the few laws stated here, which keeps them free of bit-level search.
  function Add(a: bv8, b: bv8): bv8 { a ^ b }
  function AddWord(v: bv32, w: bv32): bv32 { v ^ w }

  lemma AddLaws(a: bv8, b: bv8, c: bv8, d: bv8)
    ensures Add(Add(a, b), Add(c, d)) == Add(Add(a, c), Add(b, d))
    ensures Add(Add(a, b), Add(c, d)) == Add(Add(d, a), Add(b, c))
    ensures Add(a, 0) == a && Add(0, 0) == 0
  {}

  lemma AddWordLaws(v: bv32, w: bv32)
    ensures AddWord(AddWord(v, w), w) == v
  {}

  lemma BytesXor(v: bv32, w: bv32)
    ensures Byte0(v ^ w) == Byte0(v) ^ Byte0(w) && Byte1(v ^ w) == Byte1(v) ^ Byte1(w)
    ensures Byte2(v ^ w) == Byte2(v) ^ Byte2(w) && Byte3(v ^ w) == Byte3(v) ^ Byte3(w)
  {}

  lemma BytesAdd(v: bv32, w: bv32)
    ensures Byte0(AddWord(v, w)) == Add(Byte0(v), Byte0(w)) && Byte1(AddWord(v, w)) == Add(Byte1(v), Byte1(w))
    ensures Byte2(AddWord(v, w)) == Add(Byte2(v), Byte2(w)) && Byte3(AddWord(v, w)) == Add(Byte3(v), Byte3(w))
  {
    hide Byte0, Byte1, Byte2, Byte3;
    BytesXor(v, w);
  }

  lemma PackAdd(a: bv8, b: bv8, c: bv8, d: bv8, a': bv8, b': bv8, c': bv8, d': bv8)
    ensures Pack(Add(a, a'), Add(b, b'), Add(c, c'), Add(d, d')) == AddWord(Pack(a, b, c, d), Pack(a', b', c', d'))
  {}

  // ---------- multiplication by the constants of the two mixing matrices ----------

  function Times3(x: bv8): bv8 { Add(XTime(x), x) }
  function Times4(x: bv8): bv8 { XTime(XTime(x)) }
  function Times8(x: bv8): bv8 { XTime(Times4(x)) }
  function Times9(x: bv8): bv8 { Add(Times8(x), x) }
  function TimesB(x: bv8): bv8 { Add(Times8(x), Times3(x)) }
  function TimesD(x: bv8): bv8 { Add(Times9(x), Times4(x)) }
  function TimesE(x: bv8): bv8 { Add(Times8(x), XTime(Times3(x))) }

  /** The short forms are multiplications by the constants they are named after. */
  lemma TimesAreProducts(x: bv8)
    ensures XTime(x) == Mul(x, 0x02) && Times3(x) == Mul(x, 0x03)
    ensures Times9(x) == Mul(x, 0x09) && TimesB(x) == Mul(x, 0x0b)
    ensures TimesD(x) == Mul(x, 0x0d) && TimesE(x) == Mul(x, 0x0e)
  {}

  lemma XTimeAdd(a: bv8, b: bv8)
    ensures XTime(Add(a, b)) == Add(XTime(a), XTime(b))
  {}

  lemma Times3Add(a: bv8, b: bv8)
    ensures Times3(Add(a, b)) == Add(Times3(a), Times3(b))
  {
    hide Add, XTime;
    XTimeAdd(a, b);
    AddLaws(XTime(a), XTime(b), a, b);
  }

  lemma Times8Add(a: bv8, b: bv8)
    ensures Times4(Add(a, b)) == Add(Times4(a), Times4(b))
    ensures Times8(Add(a, b)) == Add(Times8(a), Times8(b))
  {
    hide Add, XTime;
    XTimeAdd(a, b);
    XTimeAdd(XTime(a), XTime(b));
    XTimeAdd(Times4(a), Times4(b));
  }

  /** Every multiplication of the inverse matrix is additive. */
  lemma TimesAdd(a: bv8, b: bv8)
    ensures Times9(Add(a, b)) == Add(Times9(a), Times9(b))
    ensures TimesB(Add(a, b)) == Add(TimesB(a), TimesB(b))
    ensures TimesD(Add(a, b)) == Add(TimesD(a), TimesD(b))
    ensures TimesE(Add(a, b)) == Add(TimesE(a), TimesE(b))
  {
    hide Add, XTime, Times3, Times4, Times8;
    Times3Add(a, b);
    Times8Add(a, b);
    XTimeAdd(Times3(a), Times3(b));
    AddLaws(Times8(a), Times8(b), a, b);
    AddLaws(Times8(a), Times8(b), Times3(a), Times3(b));
    AddLaws(Times9(a), Times9(b), Times4(a), Times4(b));
    AddLaws(Times8(a), Times8(b), XTime(Times3(a)), XTime(Times3(b)));
  }

  // ---------- column transformations ----------

  function SubWord(w: bv32): bv32 {
    Pack(SBox(Byte0(w)), SBox(Byte1(w)), SBox(Byte2(w)), SBox(Byte3(w)))
  }

  function InvSubWord(w: bv32): bv32 {
    Pack(InvSBox(Byte0(w)), InvSBox(Byte1(w)), InvSBox(Byte2(w)), InvSBox(Byte3(w)))
  }

  function Sum4(a: bv8, b: bv8, c: bv8, d: bv8): bv8 { Add(Add(a, b), Add(c, d)) }

  /** One row of the circulant matrix {02} {03} {01} {01}. */
  function MixRow(a: bv8, b: bv8, c: bv8, d: bv8): bv8 {
    Sum4(XTime(a), Times3(b), c, d)
  }

  /** One row of the circulant matrix {0e} {0b} {0d} {09}. */
  function InvMixRow(a: bv8, b: bv8, c: bv8, d: bv8): bv8 {
    Sum4(TimesE(a), TimesB(b), TimesD(c), Times9(d))
  }

  function MixBytes(a: bv8, b: bv8, c: bv8, d: bv8): bv32 {
    Pack(MixRow(a, b, c, d), MixRow(b, c, d, a), MixRow(c, d, a, b), MixRow(d, a, b, c))
  }

  function InvMixBytes(a: bv8, b: bv8, c: bv8, d: bv8): bv32 {
    Pack(InvMixRow(a, b, c, d), InvMixRow(b, c, d, a), InvMixRow(c, d, a, b), InvMixRow(d, a, b, c))
  }

  function MixColumn(w: bv32): bv32 { MixBytes(Byte0(w), Byte1(w), Byte2(w), Byte3(w)) }
  function InvMixColumn(w: bv32): bv32 { InvMixBytes(Byte0(w), Byte1(w), Byte2(w), Byte3(w)) }

  lemma InvMixRowAdd(a: bv8, b: bv8, c: bv8, d: bv8, a': bv8, b': bv8, c': bv8, d': bv8)
    ensures InvMixRow(Add(a, a'), Add(b, b'), Add(c, c'), Add(d, d')) ==
            Add(InvMixRow(a, b, c, d), InvMixRow(a', b', c', d'))
  {
    hide Add, TimesE, TimesB, TimesD, Times9;
    TimesAdd(a, a');
    TimesAdd(b, b');
    TimesAdd(c, c');
    TimesAdd(d, d');
    AddLaws(TimesE(a), TimesE(a'), TimesB(b), TimesB(b'));
    AddLaws(TimesD(c), TimesD(c'), Times9(d), Times9(d'));
    AddLaws(Add(TimesE(a), TimesB(b)), Add(TimesE(a'), TimesB(b')), Add(TimesD(c), Times9(d)), Add(TimesD(c'), Times9(d')));
  }

  /** InvMixColumns distributes over the addition of a round key. */
  lemma InvMixColumnAdd(v: bv32, w: bv32)
    ensures InvMixColumn(AddWord(v, w)) == AddWord(InvMixColumn(v), InvMixColumn(w))
  {
    hide Add, AddWord, InvMixRow, Pack, Byte0, Byte1, Byte2, Byte3;
    BytesAdd(v, w);
    var a, b, c, d := Byte0(v), Byte1(v), Byte2(v), Byte3(v);
    var a', b', c', d' := Byte0(w), Byte1(w), Byte2(w), Byte3(w);
    InvMixRowAdd(a, b, c, d, a', b', c', d');
    InvMixRowAdd(b, c, d, a, b', c', d', a');
    InvMixRowAdd(c, d, a, b, c', d', a', b');
    InvMixRowAdd(d, a, b, c, d', a', b', c');
    PackAdd(InvMixRow(a, b, c, d), InvMixRow(b, c, d, a), InvMixRow(c, d, a, b), InvMixRow(d, a, b, c),
            InvMixRow(a', b', c', d'), InvMixRow(b', c', d', a'), InvMixRow(c', d', a', b'), InvMixRow(d', a', b', c'));
  }

  /** The first row of the product of the two matrices, one input byte at a time. */
  lemma RowProducts(x: bv8)
    ensures InvMixRow(XTime(x), x, x, Times3(x)) == x
    ensures InvMixRow(Times3(x), XTime(x), x, x) == 0
    ensures InvMixRow(x, Times3(x), XTime(x), x) == 0
    ensures InvMixRow(x, x, Times3(x), XTime(x)) == 0
  {
    RowProductsAC(x);
    RowProductsBD(x);
  }

  lemma RowProductsAC(x: bv8)
    ensures InvMixRow(XTime(x), x, x, Times3(x)) == x
    ensures InvMixRow(x, Times3(x), XTime(x), x) == 0
  {}

  lemma RowProductsBD(x: bv8)
    ensures InvMixRow(Times3(x), XTime(x), x, x) == 0
    ensures InvMixRow(x, x, Times3(x), XTime(x)) == 0
  {}

  lemma InvMixRowUndoes(a: bv8, b: bv8, c: bv8, d: bv8)
    ensures InvMixRow(MixRow(a, b, c, d), MixRow(b, c, d, a), MixRow(c, d, a, b), MixRow(d, a, b, c)) == a
  {
    hide Add, InvMixRow, XTime, Times3;
    var a2, a3, b2, b3 := XTime(a), Times3(a), XTime(b), Times3(b);
    var c2, c3, d2, d3 := XTime(c), Times3(c), XTime(d), Times3(d);
    // turn every row so that its terms come in the order a, b, c, d
    AddLaws(b2, c3, d, a);
    AddLaws(c2, d3, a, b);
    AddLaws(b, c2, d3, a);
    AddLaws(d2, a3, b, c);
    AddLaws(c, d2, a3, b);
    AddLaws(b, c, d2, a3);
    InvMixRowAdd(Add(a2, b3), Add(a, b2), Add(a, b), Add(a3, b), Add(c, d), Add(c3, d), Add(c2, d3), Add(c, d2));
    InvMixRowAdd(a2, a, a, a3, b3, b2, b, b);
    InvMixRowAdd(c, c3, c2, c, d, d, d3, d2);
    RowProducts(a);
    RowProducts(b);
    RowProducts(c);
    RowProducts(d);
    AddLaws(a, 0, 0, 0);
  }

  lemma InvMixColumnUndoes(w: bv32)
    ensures InvMixColumn(MixColumn(w)) == w
  {
    hide MixRow, InvMixRow, Pack, Byte0, Byte1, Byte2, Byte3;
    var a, b, c, d := Byte0(w), Byte1(w), Byte2(w), Byte3(w);
    BytesPack(MixRow(a, b, c, d), MixRow(b, c, d, a), MixRow(c, d, a, b), MixRow(d, a, b, c));
    InvMixRowUndoes(a, b, c, d);
    InvMixRowUndoes(b, c, d, a);
    InvMixRowUndoes(c, d, a, b);
    InvMixRowUndoes(d, a, b, c);
    PackBytes(w);
  }

  lemma InvSubWordUndoes(w: bv32)
    ensures InvSubWord(SubWord(w)) == w
  {
    hide SBox, InvSBox, Pack, Byte0, Byte1, Byte2, Byte3;
    var a, b, c, d := Byte0(w), Byte1(w), Byte2(w), Byte3(w);
    BytesPack(SBox(a), SBox(b), SBox(c), SBox(d));
    InvSBoxUndoes(a);
    InvSBoxUndoes(b);
    InvSBoxUndoes(c);
    InvSBoxUndoes(d);
    PackBytes(w);
  }

  // ---------- the state and its transformations ----------

  /** The 4x4 state of section 3.4, held as four columns. */
  datatype Columns = Columns(c0: bv32, c1: bv32, c2: bv32, c3: bv32)

  function SubBytes(s: Columns): Columns {
    Columns(SubWord(s.c0), SubWord(s.c1), SubWord(s.c2), SubWord(s.c3))
  }

  function InvSubBytes(s: Columns): Columns {
    Columns(InvSubWord(s.c0), InvSubWord(s.c1), InvSubWord(s.c2), InvSubWord(s.c3))
  }

  /** Takes row r of the result from the column with the same argument position. */
  function Diagonal(w0: bv32, w1: bv32, w2: bv32, w3: bv32): bv32 {
    Pack(Byte0(w0), Byte1(w1), Byte2(w2), Byte3(w3))
  }

  function ShiftRows(s: Columns): Columns {
    Columns(Diagonal(s.c0, s.c1, s.c2, s.c3), Diagonal(s.c1, s.c2, s.c3, s.c0),
            Diagonal(s.c2, s.c3, s.c0, s.c1), Diagonal(s.c3, s.c0, s.c1, s.c2))
  }

  function InvShiftRows(s: Columns): Columns {
    Columns(Diagonal(s.c0, s.c3, s.c2, s.c1), Diagonal(s.c1, s.c0, s.c3, s.c2),
            Diagonal(s.c2, s.c1, s.c0, s.c3), Diagonal(s.c3, s.c2, s.c1, s.c0))
  }

  function MixColumns(s: Columns): Columns {
    Columns(MixColumn(s.c0), MixColumn(s.c1), MixColumn(s.c2), MixColumn(s.c3))
  }

  function InvMixColumns(s: Columns): Columns {
    Columns(InvMixColumn(s.c0), InvMixColumn(s.c1), InvMixColumn(s.c2), InvMixColumn(s.c3))
  }

  function AddRoundKey(s: Columns, k: Columns): Columns {
    Columns(AddWord(s.c0, k.c0), AddWord(s.c1, k.c1), AddWord(s.c2, k.c2), AddWord(s.c3, k.c3))
  }

  function RoundKey(w: seq<bv32>, r: nat): Columns
    requires 4 * r + 4 <= |w|
  {
    Columns(w[4 * r], w[4 * r + 1], w[4 * r + 2], w[4 * r + 3])
  }

  function Substitute(s: Columns): Columns { ShiftRows(SubBytes(s)) }
  function InvSubstitute(s: Columns): Columns { InvShiftRows(InvSubBytes(s)) }

  /** The state after the initial key addition and r full rounds. */
  function Forward(s: Columns, w: seq<bv32>, r: nat): Columns
    requires 4 * r + 4 <= |w|
  {
    if r == 0 then AddRoundKey(s, RoundKey(w, 0))
    else AddRoundKey(MixColumns(Substitute(Forward(s, w, r - 1))), RoundKey(w, r))
  }

  /** Cipher() of section 5.1: nr rounds, the last one without MixColumns. */
  function Cipher(s: Columns, w: seq<bv32>, nr: nat): Columns
    requires 1 <= nr && 4 * nr + 4 <= |w|
  {
    AddRoundKey(Substitute(Forward(s, w, nr - 1)), RoundKey(w, nr))
  }

  function Backward(s: Columns, dw: seq<bv32>, r: nat): Columns
    requires 4 * r + 4 <= |dw|
  {
    if r == 0 then AddRoundKey(s, RoundKey(dw, 0))
    else AddRoundKey(InvMixColumns(InvSubstitute(Backward(s, dw, r - 1))), RoundKey(dw, r))
  }

  /** EqInvCipher() of section 5.3.5, over the transformed schedule dw. */
  function EqInvCipher(s: Columns, dw: seq<bv32>, nr: nat): Columns
    requires 1 <= nr && 4 * nr + 4 <= |dw|
  {
    AddRoundKey(InvSubstitute(Backward(s, dw, nr - 1)), RoundKey(dw, nr))
  }

  /** dw holds the round keys of w in reverse order, all but the outer two through InvMixColumns. */
  predicate IsInverseSchedule(w: seq<bv32>, dw: seq<bv32>, nr: nat)
    requires 4 * nr + 4 <= |w| && 4 * nr + 4 <= |dw|
  {
    forall r :: 0 <= r <= nr ==>
      RoundKey(dw, r) == if r == 0 || r == nr then RoundKey(w, nr - r) else InvMixColumns(RoundKey(w, nr - r))
  }

  // ---------- each transformation has its inverse ----------

  lemma InvShiftRowsUndoes(s: Columns)
    ensures InvShiftRows(ShiftRows(s)) == s
  {
    hide Pack, Byte0, Byte1, Byte2, Byte3;
    BytesPack(Byte0(s.c0), Byte1(s.c1), Byte2(s.c2), Byte3(s.c3));
    BytesPack(Byte0(s.c1), Byte1(s.c2), Byte2(s.c3), Byte3(s.c0));
    BytesPack(Byte0(s.c2), Byte1(s.c3), Byte2(s.c0), Byte3(s.c1));
    BytesPack(Byte0(s.c3), Byte1(s.c0), Byte2(s.c1), Byte3(s.c2));
    PackBytes(s.c0);
    PackBytes(s.c1);
    PackBytes(s.c2);
    PackBytes(s.c3);
  }

  lemma InvSubWordDiagonal(w0: bv32, w1: bv32, w2: bv32, w3: bv32)
    ensures InvSubWord(Diagonal(w0, w1, w2, w3)) ==
            Diagonal(InvSubWord(w0), InvSubWord(w1), InvSubWord(w2), InvSubWord(w3))
  {
    hide InvSBox, Pack, Byte0, Byte1, Byte2, Byte3;
    BytesPack(Byte0(w0), Byte1(w1), Byte2(w2), Byte3(w3));
    BytesPack(InvSBox(Byte0(w0)), InvSBox(Byte1(w0)), InvSBox(Byte2(w0)), InvSBox(Byte3(w0)));
    BytesPack(InvSBox(Byte0(w1)), InvSBox(Byte1(w1)), InvSBox(Byte2(w1)), InvSBox(Byte3(w1)));
    BytesPack(InvSBox(Byte0(w2)), InvSBox(Byte1(w2)), InvSBox(Byte2(w2)), InvSBox(Byte3(w2)));
    BytesPack(InvSBox(Byte0(w3)), InvSBox(Byte1(w3)), InvSBox(Byte2(w3)), InvSBox(Byte3(w3)));
  }

  /** The substitution layer of a round is undone by the substitution layer of the inverse round,
      although the two apply their halves in the same order. */
  lemma InvSubstituteUndoes(s: Columns)
    ensures InvSubstitute(Substitute(s)) == s
  {
    hide InvSubWord, SubWord, Diagonal;
    var t := SubBytes(s);
    InvSubWordDiagonal(t.c0, t.c1, t.c2, t.c3);
    InvSubWordDiagonal(t.c1, t.c2, t.c3, t.c0);
    InvSubWordDiagonal(t.c2, t.c3, t.c0, t.c1);
    InvSubWordDiagonal(t.c3, t.c0, t.c1, t.c2);
    InvSubWordUndoes(s.c0);
    InvSubWordUndoes(s.c1);
    InvSubWordUndoes(s.c2);
    InvSubWordUndoes(s.c3);
    InvShiftRowsUndoes(s);
  }

  lemma AddRoundKeyUndoes(s: Columns, k: Columns)
    ensures AddRoundKey(AddRoundKey(s, k), k) == s
  {
    AddWordLaws(s.c0, k.c0);
    AddWordLaws(s.c1, k.c1);
    AddWordLaws(s.c2, k.c2);
    AddWordLaws(s.c3, k.c3);
  }

  /** The heart of the equivalent inverse cipher: InvMixColumns moves past the key addition. */
  lemma InvMixColumnsUndoes(s: Columns, k: Columns)
    ensures AddRoundKey(InvMixColumns(AddRoundKey(MixColumns(s), k)), InvMixColumns(k)) == s
  {
    hide AddWord, MixColumn, InvMixColumn;
    InvMixColumnAdd(MixColumn(s.c0), k.c0);
    InvMixColumnAdd(MixColumn(s.c1), k.c1);
    InvMixColumnAdd(MixColumn(s.c2), k.c2);
    InvMixColumnAdd(MixColumn(s.c3), k.c3);
    InvMixColumnUndoes(s.c0);
    InvMixColumnUndoes(s.c1);
    InvMixColumnUndoes(s.c2);
    InvMixColumnUndoes(s.c3);
    AddRoundKeyUndoes(s, InvMixColumns(k));
  }

  // ---------- the inverse cipher undoes the cipher ----------

  /** After r inverse rounds the state is the one the forward rounds had before substitution number nr - r. */
  lemma {:induction false} BackwardMeetsForward(s: Columns, w: seq<bv32>, dw: seq<bv32>, nr: nat, r: nat)
    requires r < nr && 4 * nr + 4 <= |w| && 4 * nr + 4 <= |dw|
    requires IsInverseSchedule(w, dw, nr)
    ensures Backward(Cipher(s, w, nr), dw, r) == Substitute(Forward(s, w, nr - 1 - r))
  {
    hide AddRoundKey, Substitute, InvSubstitute, MixColumns, InvMixColumns, RoundKey;
    if r == 0 {
      AddRoundKeyUndoes(Substitute(Forward(s, w, nr - 1)), RoundKey(w, nr));
    } else {
      BackwardMeetsForward(s, w, dw, nr, r - 1);
      var x := Forward(s, w, nr - r);
      InvSubstituteUndoes(x);
      InvMixColumnsUndoes(Substitute(Forward(s, w, nr - r - 1)), RoundKey(w, nr - r));
    }
  }

  /** Decryption undoes encryption, for every block, every schedule and every number of rounds. */
  lemma EqInvCipherUndoes(s: Columns, w: seq<bv32>, dw: seq<bv32>, nr: nat)
    requires 1 <= nr && 4 * nr + 4 <= |w| && 4 * nr + 4 <= |dw|
    requires IsInverseSchedule(w, dw, nr)
    ensures EqInvCipher(Cipher(s, w, nr), dw, nr) == s
  {
    hide AddRoundKey, Substitute, InvSubstitute, MixColumns, InvMixColumns, RoundKey;
    BackwardMeetsForward(s, w, dw, nr, nr - 1);
    InvSubstituteUndoes(Forward(s, w, 0));
    AddRoundKeyUndoes(s, RoundKey(w, 0));
  }
}
