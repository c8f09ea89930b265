/**
 Key expansion: the three in-place loops of AES_set_encrypt_key against the recurrence of
 section 5.2 of FIPS-197, and the reversal and InvMixColumns pass of AES_set_decrypt_key
 against the schedule the equivalent inverse cipher needs.
 */
module AesKeySchedule {
  import opened AesField
  import opened AesCipher
  import opened AesTables

  const MAX_WORDS := 60
  const ERR_NULL := -1
  const ERR_BITS := -2

  // ---------- the recurrence ----------

  function RotWord(w: bv32): bv32 { (w << 8) ^ (w >> 24) }

  /** {02} to the power n - 1. */
  function RconByte(n: int): bv8 {
    if n <= 1 then 1 else XTime(RconByte(n - 1))
  }

  function Rcon(n: int): bv32 { (RconByte(n) as bv32) << 24 }

  function KeyWordAt(key: seq<bv8>, j: nat): bv32
    requires 4 * j + 4 <= |key|
  {
    Pack(key[4 * j], key[4 * j + 1], key[4 * j + 2], key[4 * j + 3])
  }

  /** The value mixed into word i, computed from word i - 1. */
  function Temp(prev: bv32, nk: nat, i: nat): bv32
    requires nk > 0
  {
    if i % nk == 0 then AddWord(SubWord(RotWord(prev)), Rcon(i / nk))
    else if nk > 6 && i % nk == 4 then SubWord(prev)
    else prev
  }

  /** Word i of the expansion of a key of nk words. */
  function Word(key: seq<bv8>, nk: nat, i: nat): bv32
    requires nk > 0 && |key| >= 4 * nk
  {
    if i < nk then KeyWordAt(key, i)
    else AddWord(Word(key, nk, i - nk), Temp(Word(key, nk, i - 1), nk, i))
  }

  /** The first n words of w are the expansion of the key. */
  predicate Expanded(w: seq<bv32>, key: seq<bv8>, nk: nat, n: nat)
    requires nk > 0 && |key| >= 4 * nk && n <= |w|
  {
    forall j :: 0 <= j < n ==> w[j] == Word(key, nk, j)
  }

  // ---------- the program's forms of Temp ----------

  lemma RotBytes(w: bv32)
    ensures Byte0(RotWord(w)) == Byte1(w) && Byte1(RotWord(w)) == Byte2(w)
    ensures Byte2(RotWord(w)) == Byte3(w) && Byte3(RotWord(w)) == Byte0(w)
  {}

  /** The masked table sum of the loops is SubWord, after a rotation where the byte order is shifted. */
  lemma SubWordByTables(a: bv8, b: bv8, c: bv8, d: bv8, k: bv32)
    ensures k ^ (Te4(a) & 0xff00_0000) ^ (Te4(b) & 0x00ff_0000) ^ (Te4(c) & 0x0000_ff00) ^ (Te4(d) & 0x0000_00ff) ==
            AddWord(k, Pack(SBox(a), SBox(b), SBox(c), SBox(d)))
  {
    hide SBox, Pack, AddWord;
    MasksLeft(SBox(a), SBox(b), SBox(c), SBox(d), k);
  }

  lemma MasksLeft(a: bv8, b: bv8, c: bv8, d: bv8, k: bv32)
    ensures k ^ (Pack(a, a, a, a) & 0xff00_0000) ^ (Pack(b, b, b, b) & 0x00ff_0000) ^
            (Pack(c, c, c, c) & 0x0000_ff00) ^ (Pack(d, d, d, d) & 0x0000_00ff) == AddWord(k, Pack(a, b, c, d))
  {}

  function RotatedTerm(k: bv32, temp: bv32, rc: bv32): bv32 {
    k ^ (Te4(Byte1(temp)) & 0xff00_0000) ^ (Te4(Byte2(temp)) & 0x00ff_0000) ^
    (Te4(Byte3(temp)) & 0x0000_ff00) ^ (Te4(Byte0(temp)) & 0x0000_00ff) ^ rc
  }

  function PlainTerm(k: bv32, temp: bv32): bv32 {
    k ^ (Te4(Byte0(temp)) & 0xff00_0000) ^ (Te4(Byte1(temp)) & 0x00ff_0000) ^
    (Te4(Byte2(temp)) & 0x0000_ff00) ^ (Te4(Byte3(temp)) & 0x0000_00ff)
  }

  lemma AddThreeLeft(k: bv32, s: bv32, rc: bv32)
    ensures k ^ s ^ rc == AddWord(k, s) ^ rc
  {}

  lemma AddThreeRight(k: bv32, s: bv32, rc: bv32)
    ensures k ^ s ^ rc == AddWord(k, AddWord(s, rc))
  {}

  lemma RotatedTermIsRecurrence(k: bv32, temp: bv32, rc: bv32)
    ensures RotatedTerm(k, temp, rc) == AddWord(k, AddWord(SubWord(RotWord(temp)), rc))
  {
    hide Te4, SBox, Pack, AddWord, RotWord, Byte0, Byte1, Byte2, Byte3;
    SubWordByTables(Byte1(temp), Byte2(temp), Byte3(temp), Byte0(temp), k);
    RotBytes(temp);
    AddThreeLeft(k, SubWord(RotWord(temp)), rc);
    AddThreeRight(k, SubWord(RotWord(temp)), rc);
  }

  lemma PlainTermIsRecurrence(k: bv32, temp: bv32)
    ensures PlainTerm(k, temp) == AddWord(k, SubWord(temp))
  {
    hide Te4, SBox, Pack, AddWord, Byte0, Byte1, Byte2, Byte3;
    SubWordByTables(Byte0(temp), Byte1(temp), Byte2(temp), Byte3(temp), k);
  }

  /** The literal constants of the program are the powers of {02} they stand for. */
  const RCON: seq<bv32> := [
    0x01000000, 0x02000000, 0x04000000, 0x08000000, 0x10000000,
    0x20000000, 0x40000000, 0x80000000, 0x1B000000, 0x36000000]

  lemma RconTable(i: nat)
    requires i < 10
    ensures RCON[i] == Rcon(i + 1)
  {
    assert RconByte(1) == 0x01;
    assert RconByte(2) == 0x02;
    assert RconByte(3) == 0x04;
    assert RconByte(4) == 0x08;
    assert RconByte(5) == 0x10;
    assert RconByte(6) == 0x20;
    assert RconByte(7) == 0x40;
    assert RconByte(8) == 0x80;
    assert RconByte(9) == 0x1b;
    assert RconByte(10) == 0x36;
  }

  // One step of the recurrence in each of its three forms.  Word number c of group q has
  // index nk * q + c.

  predicate IsKeyLength(nk: nat) { nk == 4 || nk == 6 || nk == 8 }

  lemma Slot(nk: nat, q: nat, c: nat)
    requires IsKeyLength(nk) && c < nk
    ensures (nk * q + c) % nk == c && (nk * q + c) / nk == q
  {
    if nk == 4 {
      assert (4 * q + c) % 4 == c && (4 * q + c) / 4 == q;
    } else if nk == 6 {
      assert (6 * q + c) % 6 == c && (6 * q + c) / 6 == q;
    } else {
      assert (8 * q + c) % 8 == c && (8 * q + c) / 8 == q;
    }
  }

  lemma WordRotated(key: seq<bv8>, nk: nat, q: nat, i: nat)
    requires IsKeyLength(nk) && 1 <= q && |key| >= 4 * nk && i == nk * q && nk <= i
    ensures Word(key, nk, i) == RotatedTerm(Word(key, nk, i - nk), Word(key, nk, i - 1), Rcon(q))
  {
    hide AddWord, RotatedTerm, SubWord, RotWord, Rcon;
    Slot(nk, q, 0);
    RotatedTermIsRecurrence(Word(key, nk, i - nk), Word(key, nk, i - 1), Rcon(q));
  }

  lemma WordPlain(key: seq<bv8>, q: nat, i: nat)
    requires 1 <= q && |key| >= 32 && i == 8 * q + 4
    ensures Word(key, 8, i) == PlainTerm(Word(key, 8, i - 8), Word(key, 8, i - 1))
  {
    hide AddWord, PlainTerm, SubWord, RotWord, Rcon;
    Slot(8, q, 4);
    PlainTermIsRecurrence(Word(key, 8, i - 8), Word(key, 8, i - 1));
  }

  lemma WordXor(key: seq<bv8>, nk: nat, q: nat, c: nat, i: nat)
    requires IsKeyLength(nk) && 1 <= q && 0 < c < nk && (nk == 8 ==> c != 4)
    requires |key| >= 4 * nk && i == nk * q + c && nk <= i
    ensures Word(key, nk, i) == AddWord(Word(key, nk, i - nk), Word(key, nk, i - 1))
  {
    hide AddWord, SubWord, RotWord, Rcon;
    Slot(nk, q, c);
  }

  // ---------- the key object ----------

  class AesKey {
    const rdKey: array<bv32>
    var rounds: int

    constructor ()
      ensures rdKey.Length == MAX_WORDS && fresh(rdKey)
    {
      rdKey := new bv32[MAX_WORDS];
      rounds := 0;
    }
  }

  function RoundsFor(bits: int): int {
    if bits == 128 then 10 else if bits == 192 then 12 else 14
  }

  predicate GoodBits(bits: int) { bits == 128 || bits == 192 || bits == 256 }

  /** Words of key material for a key of the given size. */
  function KeyWords(bits: int): nat
    requires GoodBits(bits)
  {
    bits / 32
  }

  /** Loads word j of the schedule from the user key. */
  method LoadWord(rk: array<bv32>, userKey: array<bv8>, j: nat, ghost key: seq<bv8>, ghost nk: nat)
    requires j < nk <= rk.Length && 4 * nk <= userKey.Length && key == userKey[..]
    requires Expanded(rk[..], key, nk, j)
    modifies rk
    ensures Expanded(rk[..], key, nk, j + 1)
    ensures forall m :: j < m < rk.Length ==> rk[m] == old(rk[m])
  {
    hide Pack, Temp;
    rk[j] := Pack(userKey[4 * j], userKey[4 * j + 1], userKey[4 * j + 2], userKey[4 * j + 3]);
  }

  // The three assignments the loops are made of.  Each extends the expanded prefix by one word.

  method SetXor(rk: array<bv32>, d: nat, ghost key: seq<bv8>, nk: nat, ghost q: nat, ghost c: nat)
    requires IsKeyLength(nk) && 1 <= q && 0 < c < nk && (nk == 8 ==> c != 4) && d == nk * q + c
    requires nk <= d < rk.Length && |key| >= 4 * nk && Expanded(rk[..], key, nk, d)
    modifies rk
    ensures Expanded(rk[..], key, nk, d + 1)
    ensures forall m :: d < m < rk.Length ==> rk[m] == old(rk[m])
  {
    hide AddWord, Temp, Word;
    WordXor(key, nk, q, c, d);
    rk[d] := AddWord(rk[d - nk], rk[d - 1]);
  }

  method SetRotated(rk: array<bv32>, d: nat, i: nat, ghost key: seq<bv8>, nk: nat)
    requires IsKeyLength(nk) && i < 10 && d == nk * (i + 1)
    requires nk <= d < rk.Length && |key| >= 4 * nk && Expanded(rk[..], key, nk, d)
    modifies rk
    ensures Expanded(rk[..], key, nk, d + 1)
    ensures forall m :: d < m < rk.Length ==> rk[m] == old(rk[m])
  {
    hide RotatedTerm, Temp, Word, Rcon;
    WordRotated(key, nk, i + 1, d);
    RconTable(i);
    var temp := rk[d - 1];
    rk[d] := RotatedTerm(rk[d - nk], temp, RCON[i]);
  }

  method SetPlain(rk: array<bv32>, d: nat, ghost key: seq<bv8>, ghost q: nat)
    requires 1 <= q && d == 8 * q + 4 && d < rk.Length && |key| >= 32 && Expanded(rk[..], key, 8, d)
    modifies rk
    ensures Expanded(rk[..], key, 8, d + 1)
    ensures forall m :: d < m < rk.Length ==> rk[m] == old(rk[m])
  {
    hide PlainTerm, Temp, Word;
    WordPlain(key, q, d);
    var temp := rk[d - 1];
    rk[d] := PlainTerm(rk[d - 8], temp);
  }

  method Expand128(rk: array<bv32>, ghost key: seq<bv8>)
    requires rk.Length == MAX_WORDS && |key| >= 16 && Expanded(rk[..], key, 4, 4)
    modifies rk
    ensures Expanded(rk[..], key, 4, 44)
    ensures forall m :: 44 <= m < rk.Length ==> rk[m] == old(rk[m])
  {
    var i, p := 0, 0;
    while true
      invariant 0 <= i < 10 && p == 4 * i
      invariant Expanded(rk[..], key, 4, p + 4)
      invariant forall m :: 44 <= m < rk.Length ==> rk[m] == old(rk[m])
      decreases 10 - i
    {
      SetRotated(rk, p + 4, i, key, 4);
      SetXor(rk, p + 5, key, 4, i + 1, 1);
      SetXor(rk, p + 6, key, 4, i + 1, 2);
      SetXor(rk, p + 7, key, 4, i + 1, 3);
      i := i + 1;
      if i == 10 { return; }
      p := p + 4;
    }
  }

  method Expand192(rk: array<bv32>, ghost key: seq<bv8>)
    requires rk.Length == MAX_WORDS && |key| >= 24 && Expanded(rk[..], key, 6, 6)
    modifies rk
    ensures Expanded(rk[..], key, 6, 52)
    ensures forall m :: 52 <= m < rk.Length ==> rk[m] == old(rk[m])
  {
    var i, p := 0, 0;
    while true
      invariant 0 <= i < 8 && p == 6 * i
      invariant Expanded(rk[..], key, 6, p + 6)
      invariant forall m :: 52 <= m < rk.Length ==> rk[m] == old(rk[m])
      decreases 8 - i
    {
      SetRotated(rk, p + 6, i, key, 6);
      SetXor(rk, p + 7, key, 6, i + 1, 1);
      SetXor(rk, p + 8, key, 6, i + 1, 2);
      SetXor(rk, p + 9, key, 6, i + 1, 3);
      i := i + 1;
      if i == 8 { return; }
      SetXor(rk, p + 10, key, 6, i, 4);
      SetXor(rk, p + 11, key, 6, i, 5);
      p := p + 6;
    }
  }

  method Expand256(rk: array<bv32>, ghost key: seq<bv8>)
    requires rk.Length == MAX_WORDS && |key| >= 32 && Expanded(rk[..], key, 8, 8)
    modifies rk
    ensures Expanded(rk[..], key, 8, 60)
  {
    var i, p := 0, 0;
    while true
      invariant 0 <= i < 7 && p == 8 * i
      invariant Expanded(rk[..], key, 8, p + 8)
      decreases 7 - i
    {
      SetRotated(rk, p + 8, i, key, 8);
      SetXor(rk, p + 9, key, 8, i + 1, 1);
      SetXor(rk, p + 10, key, 8, i + 1, 2);
      SetXor(rk, p + 11, key, 8, i + 1, 3);
      i := i + 1;
      if i == 7 { return; }
      SetPlain(rk, p + 12, key, i);
      SetXor(rk, p + 13, key, 8, i, 5);
      SetXor(rk, p + 14, key, 8, i, 6);
      SetXor(rk, p + 15, key, 8, i, 7);
      p := p + 8;
    }
  }

  /** Words written for a key of the given size: four for every round key. */
  function WordsFor(bits: int): (n: nat)
    ensures n <= MAX_WORDS
  {
    4 * (RoundsFor(bits) + 1)
  }

  /** The first words are the key itself, byte by byte. */
  predicate HoldsKey(w: seq<bv32>, key: seq<bv8>, nk: nat)
    requires 4 * nk <= |key| && nk <= |w|
  {
    forall j :: 0 <= j < nk ==>
      && Byte0(w[j]) == key[4 * j] && Byte1(w[j]) == key[4 * j + 1]
      && Byte2(w[j]) == key[4 * j + 2] && Byte3(w[j]) == key[4 * j + 3]
  }

  lemma ExpandedHoldsKey(w: seq<bv32>, key: seq<bv8>, nk: nat, n: nat)
    requires 0 < nk <= n <= |w| && 4 * nk <= |key| && Expanded(w, key, nk, n)
    ensures HoldsKey(w, key, nk)
  {
    hide Pack, Byte0, Byte1, Byte2, Byte3, Temp;
    forall j | 0 <= j < nk
      ensures Byte0(w[j]) == key[4 * j] && Byte1(w[j]) == key[4 * j + 1]
      ensures Byte2(w[j]) == key[4 * j + 2] && Byte3(w[j]) == key[4 * j + 3]
    {
      assert w[j] == Word(key, nk, j) == KeyWordAt(key, j);
      BytesPack(key[4 * j], key[4 * j + 1], key[4 * j + 2], key[4 * j + 3]);
    }
  }

  method SetEncryptKey(userKey: array?<bv8>, bits: int, key: AesKey?) returns (status: int)
    requires key != null ==> key.rdKey.Length == MAX_WORDS
    requires userKey != null && GoodBits(bits) ==> bits <= 8 * userKey.Length
    modifies if key == null then {} else {key, key.rdKey}
    ensures status == if userKey == null || key == null then ERR_NULL else if !GoodBits(bits) then ERR_BITS else 0
    ensures status != 0 && key != null ==> key.rounds == old(key.rounds) && key.rdKey[..] == old(key.rdKey[..])
    ensures status == 0 ==>
              && key.rounds == RoundsFor(bits)
              && Expanded(key.rdKey[..], userKey[..], KeyWords(bits), WordsFor(bits))
              && HoldsKey(key.rdKey[..], userKey[..], KeyWords(bits))
              && forall m :: WordsFor(bits) <= m < MAX_WORDS ==> key.rdKey[m] == old(key.rdKey[m])
  {
    if userKey == null || key == null { return ERR_NULL; }
    if bits != 128 && bits != 192 && bits != 256 { return ERR_BITS; }
    var rk := key.rdKey;
    if bits == 128 {
      key.rounds := 10;
    } else if bits == 192 {
      key.rounds := 12;
    } else {
      key.rounds := 14;
    }
    hide Word, Temp, HoldsKey;
    ghost var k, nk := userKey[..], KeyWords(bits);
    LoadWord(rk, userKey, 0, k, nk);
    LoadWord(rk, userKey, 1, k, nk);
    LoadWord(rk, userKey, 2, k, nk);
    LoadWord(rk, userKey, 3, k, nk);
    if bits == 128 {
      Expand128(rk, k);
      ExpandedHoldsKey(rk[..], k, nk, WordsFor(bits));
      return 0;
    }
    LoadWord(rk, userKey, 4, k, nk);
    LoadWord(rk, userKey, 5, k, nk);
    if bits == 192 {
      Expand192(rk, k);
      ExpandedHoldsKey(rk[..], k, nk, WordsFor(bits));
      return 0;
    }
    LoadWord(rk, userKey, 6, k, nk);
    LoadWord(rk, userKey, 7, k, nk);
    Expand256(rk, k);
    ExpandedHoldsKey(rk[..], k, nk, WordsFor(bits));
    return 0;
  }

  // ---------- the decryption schedule ----------

  /** The word of the inverse schedule that the loop computes from word w. */
  function MixedKeyWord(w: bv32): bv32 {
    Td0(Byte3(Te4(Byte0(w)))) ^ Td1(Byte3(Te4(Byte1(w)))) ^
    Td2(Byte3(Te4(Byte2(w)))) ^ Td3(Byte3(Te4(Byte3(w))))
  }

  /** Exchanges the words i and j. */
  method SwapWords(rk: array<bv32>, i: nat, j: nat)
    requires i < rk.Length && j < rk.Length
    modifies rk
    ensures rk[..] == old(rk[..])[i := old(rk[j])][j := old(rk[i])]
  {
    var temp := rk[i];
    rk[i] := rk[j];
    rk[j] := temp;
  }

  function Swapped(w: seq<bv32>, i: nat, j: nat): (r: seq<bv32>)
    requires i < |w| && j < |w|
    ensures |r| == |w|
  {
    w[i := w[j]][j := w[i]]
  }

  /** Four exchanges. */
  lemma SwappedFour(w: seq<bv32>, i: nat, j: nat)
    requires i + 4 <= j && j + 4 <= |w|
    ensures var r := Swapped(Swapped(Swapped(Swapped(w, i, j), i + 1, j + 1), i + 2, j + 2), i + 3, j + 3);
      && Four(r, i, w, j) && Four(r, j, w, i)
      && forall m :: 0 <= m < |w| && !(i <= m < i + 4) && !(j <= m < j + 4) ==> r[m] == w[m]
  {}

  /** The four words of v from i on are those of w from j on. */
  predicate Four(v: seq<bv32>, i: nat, w: seq<bv32>, j: nat)
    requires i + 4 <= |v| && j + 4 <= |w|
  {
    v[i] == w[j] && v[i + 1] == w[j + 1] && v[i + 2] == w[j + 2] && v[i + 3] == w[j + 3]
  }

  lemma FourIsRoundKey(v: seq<bv32>, r: nat, w: seq<bv32>, q: nat)
    requires 4 * r + 4 <= |v| && 4 * q + 4 <= |w| && Four(v, 4 * r, w, 4 * q)
    ensures RoundKey(v, r) == RoundKey(w, q)
  {}

  lemma SameRoundKey(v: seq<bv32>, w: seq<bv32>, r: nat)
    requires 4 * r + 4 <= |v| == |w| && forall m :: 4 * r <= m < 4 * r + 4 ==> v[m] == w[m]
    ensures RoundKey(v, r) == RoundKey(w, r)
  {}

  /** Exchanges round keys a and b. */
  method SwapRoundKeys(rk: array<bv32>, i: nat, j: nat, ghost a: nat, ghost b: nat)
    requires a < b && i == 4 * a && j == 4 * b && j + 4 <= rk.Length
    modifies rk
    ensures RoundKey(rk[..], a) == old(RoundKey(rk[..], b)) && RoundKey(rk[..], b) == old(RoundKey(rk[..], a))
    ensures forall m :: 0 <= m < rk.Length && !(i <= m < i + 4) && !(j <= m < j + 4) ==> rk[m] == old(rk[m])
  {
    ghost var was := rk[..];
    SwappedFour(was, i, j);
    SwapWords(rk, i, j);
    SwapWords(rk, i + 1, j + 1);
    SwapWords(rk, i + 2, j + 2);
    SwapWords(rk, i + 3, j + 3);
    hide Four, RoundKey;
    FourIsRoundKey(rk[..], a, was, b);
    FourIsRoundKey(rk[..], b, was, a);
  }

  /** The round keys below a and above b are in their new places, those between still in their old ones. */
  predicate Reversing(v: seq<bv32>, was: seq<bv32>, nr: nat, a: int, b: int)
    requires 4 * nr + 4 <= |v| == |was|
  {
    (forall r :: 0 <= r <= nr && (r < a || b < r) ==> RoundKey(v, r) == RoundKey(was, nr - r)) &&
    (forall r :: 0 <= r <= nr && a <= r <= b ==> RoundKey(v, r) == RoundKey(was, r)) &&
    forall m :: 4 * nr + 4 <= m < |v| ==> v[m] == was[m]
  }

  lemma ReversingStep(v: seq<bv32>, v': seq<bv32>, was: seq<bv32>, nr: nat, a: nat, b: nat)
    requires 4 * nr + 4 <= |v| == |v'| == |was| && a < b && a + b == nr && Reversing(v, was, nr, a, b)
    requires RoundKey(v', a) == RoundKey(v, b) && RoundKey(v', b) == RoundKey(v, a)
    requires forall m :: 0 <= m < |v| && !(4 * a <= m < 4 * a + 4) && !(4 * b <= m < 4 * b + 4) ==> v'[m] == v[m]
    ensures Reversing(v', was, nr, a + 1, b - 1)
  {
    forall r | 0 <= r <= nr && r != a && r != b ensures RoundKey(v', r) == RoundKey(v, r) {
      SameRoundKey(v', v, r);
    }
    hide RoundKey;
  }

  /** The first loop of AES_set_decrypt_key: afterwards round key r is what round key nr - r was, and
      what lies behind the schedule is as it was. */
  method ReverseRoundKeys(rk: array<bv32>, nr: nat)
    requires 4 * nr + 4 <= rk.Length
    modifies rk
    ensures forall r :: 0 <= r <= nr ==> RoundKey(rk[..], r) == old(RoundKey(rk[..], nr - r))
    ensures forall m :: 4 * nr + 4 <= m < rk.Length ==> rk[m] == old(rk[m])
  {
    hide RoundKey;
    ghost var was := rk[..];
    var i, j := 0, 4 * nr;
    ghost var a := 0;
    while i < j
      invariant 0 <= a <= nr && i == 4 * a && j == 4 * (nr - a) && a <= nr - a + 1
      invariant Reversing(rk[..], was, nr, a, nr - a)
    {
      ghost var before := rk[..];
      SwapRoundKeys(rk, i, j, a, nr - a);
      ReversingStep(before, rk[..], was, nr, a, nr - a);
      i, j, a := i + 4, j - 4, a + 1;
    }
  }

  method MixRoundKey(rk: array<bv32>, p: nat, ghost r: nat)
    requires p == 4 * r && p + 4 <= rk.Length
    modifies rk
    ensures RoundKey(rk[..], r) == InvMixColumns(old(RoundKey(rk[..], r)))
    ensures forall m :: 0 <= m < rk.Length && !(p <= m < p + 4) ==> rk[m] == old(rk[m])
  {
    hide MixedKeyWord, InvMixColumn;
    MixedKeyWordIsInvMix(rk[p]);
    MixedKeyWordIsInvMix(rk[p + 1]);
    MixedKeyWordIsInvMix(rk[p + 2]);
    MixedKeyWordIsInvMix(rk[p + 3]);
    rk[p] := MixedKeyWord(rk[p]);
    rk[p + 1] := MixedKeyWord(rk[p + 1]);
    rk[p + 2] := MixedKeyWord(rk[p + 2]);
    rk[p + 3] := MixedKeyWord(rk[p + 3]);
  }

  /** The second loop of AES_set_decrypt_key, over the round keys 1 to nr - 1. */
  method MixInnerKeys(rk: array<bv32>, nr: nat)
    requires 1 <= nr && 4 * nr + 4 <= rk.Length
    modifies rk
    ensures forall r :: 0 < r < nr ==> RoundKey(rk[..], r) == InvMixColumns(old(RoundKey(rk[..], r)))
    ensures RoundKey(rk[..], 0) == old(RoundKey(rk[..], 0)) && RoundKey(rk[..], nr) == old(RoundKey(rk[..], nr))
    ensures forall m :: 4 * nr + 4 <= m < rk.Length ==> rk[m] == old(rk[m])
  {
    hide InvMixColumns;
    var i, p := 1, 0;
    while i < nr
      invariant 1 <= i <= nr && p == 4 * (i - 1)
      invariant forall r :: 0 < r < i ==> RoundKey(rk[..], r) == InvMixColumns(old(RoundKey(rk[..], r)))
      invariant forall m :: 0 <= m < 4 ==> rk[m] == old(rk[m])
      invariant forall m :: p + 4 <= m < rk.Length ==> rk[m] == old(rk[m])
    {
      p := p + 4;
      MixRoundKey(rk, p, i);
      i := i + 1;
    }
  }

  lemma MixedKeyWordIsInvMix(w: bv32)
    ensures MixedKeyWord(w) == InvMixColumn(w)
  {
    hide Td0, Td1, Td2, Td3, Te4, Byte0, Byte1, Byte2, Byte3, InvMixBytes;
    KeyColumn(w);
  }

  /** The expanded key as a sequence: the schedule a block cipher of this key size uses. */
  function Schedule(key: seq<bv8>, bits: int): (w: seq<bv32>)
    requires GoodBits(bits) && bits <= 8 * |key|
    ensures |w| == WordsFor(bits) && Expanded(w, key, KeyWords(bits), |w|)
  {
    hide Word;
    seq(WordsFor(bits), i requires 0 <= i => Word(key, KeyWords(bits), i))
  }

  method SetDecryptKey(userKey: array?<bv8>, bits: int, key: AesKey?) returns (status: int)
    requires key != null ==> key.rdKey.Length == MAX_WORDS
    requires userKey != null && GoodBits(bits) ==> bits <= 8 * userKey.Length
    modifies if key == null then {} else {key, key.rdKey}
    ensures status == if userKey == null || key == null then ERR_NULL else if !GoodBits(bits) then ERR_BITS else 0
    ensures status != 0 && key != null ==> key.rounds == old(key.rounds) && key.rdKey[..] == old(key.rdKey[..])
    ensures status == 0 ==>
              && key.rounds == RoundsFor(bits)
              && IsInverseSchedule(Schedule(userKey[..], bits), key.rdKey[..], RoundsFor(bits))
              && forall m :: WordsFor(bits) <= m < MAX_WORDS ==> key.rdKey[m] == old(key.rdKey[m])
  {
    hide Expanded, IsInverseSchedule, RoundKey;
    status := SetEncryptKey(userKey, bits, key);
    if status < 0 { return; }
    ghost var w := Schedule(userKey[..], bits);
    ghost var nr := RoundsFor(bits);
    ghost var expanded := key.rdKey[..];
    SameExpansion(w, expanded, userKey[..], bits);
    ReverseRoundKeys(key.rdKey, key.rounds);
    ghost var reversed := key.rdKey[..];
    MixInnerKeys(key.rdKey, key.rounds);
    InverseFromSteps(w, reversed, key.rdKey[..], nr);
  }

  lemma SameExpansion(w: seq<bv32>, w': seq<bv32>, key: seq<bv8>, bits: int)
    requires GoodBits(bits) && bits <= 8 * |key| && |w| >= WordsFor(bits) && |w'| >= WordsFor(bits)
    requires Expanded(w, key, KeyWords(bits), WordsFor(bits)) && Expanded(w', key, KeyWords(bits), WordsFor(bits))
    ensures forall r :: 0 <= r <= RoundsFor(bits) ==> RoundKey(w, r) == RoundKey(w', r)
  {
    hide Word;
  }

  lemma InverseFromSteps(w: seq<bv32>, reversed: seq<bv32>, mixed: seq<bv32>, nr: nat)
    requires 1 <= nr && 4 * nr + 4 <= |w| && 4 * nr + 4 <= |reversed| && 4 * nr + 4 <= |mixed|
    requires forall r :: 0 <= r <= nr ==> RoundKey(reversed, r) == RoundKey(w, nr - r)
    requires forall r :: 0 < r < nr ==> RoundKey(mixed, r) == InvMixColumns(RoundKey(reversed, r))
    requires RoundKey(mixed, 0) == RoundKey(reversed, 0) && RoundKey(mixed, nr) == RoundKey(reversed, nr)
    ensures IsInverseSchedule(w, mixed, nr)
  {
    hide RoundKey, InvMixColumns;
  }
}
