/**
 AES_encrypt and AES_decrypt: the table-driven loops, two rounds per iteration, against the
 cipher and the equivalent inverse cipher; and the round trip from a user key to a block.
 */
module AesBlock {
  import opened AesField
  import opened AesCipher
  import opened AesTables
  import opened AesKeySchedule

  type Block = b: seq<bv8> | |b| == 16 witness seq(16, _ => 0)

  function Load(b: Block): Columns {
    Columns(Pack(b[0], b[1], b[2], b[3]), Pack(b[4], b[5], b[6], b[7]),
            Pack(b[8], b[9], b[10], b[11]), Pack(b[12], b[13], b[14], b[15]))
  }

  function WordBytes(w: bv32): seq<bv8> { [Byte0(w), Byte1(w), Byte2(w), Byte3(w)] }

  function Store(s: Columns): Block {
    WordBytes(s.c0) + WordBytes(s.c1) + WordBytes(s.c2) + WordBytes(s.c3)
  }

  lemma LoadStore(s: Columns)
    ensures Load(Store(s)) == s
  {
    hide Pack, Byte0, Byte1, Byte2, Byte3;
    PackBytes(s.c0);
    PackBytes(s.c1);
    PackBytes(s.c2);
    PackBytes(s.c3);
  }

  lemma StoreLoad(b: Block)
    ensures Store(Load(b)) == b
  {
    hide Pack, Byte0, Byte1, Byte2, Byte3;
    BytesPack(b[0], b[1], b[2], b[3]);
    BytesPack(b[4], b[5], b[6], b[7]);
    BytesPack(b[8], b[9], b[10], b[11]);
    BytesPack(b[12], b[13], b[14], b[15]);
  }

  function EncryptBlock(b: Block, w: seq<bv32>, nr: nat): Block
    requires 1 <= nr && 4 * nr + 4 <= |w|
  {
    Store(Cipher(Load(b), w, nr))
  }

  function DecryptBlock(b: Block, dw: seq<bv32>, nr: nat): Block
    requires 1 <= nr && 4 * nr + 4 <= |dw|
  {
    Store(EqInvCipher(Load(b), dw, nr))
  }

  /** Decrypting an encrypted block gives the block back. */
  lemma DecryptUndoesEncrypt(b: Block, w: seq<bv32>, dw: seq<bv32>, nr: nat)
    requires 1 <= nr && 4 * nr + 4 <= |w| && 4 * nr + 4 <= |dw|
    requires IsInverseSchedule(w, dw, nr)
    ensures DecryptBlock(EncryptBlock(b, w, nr), dw, nr) == b
  {
    hide Load, Store, Cipher, EqInvCipher, IsInverseSchedule;
    LoadStore(Cipher(Load(b), w, nr));
    EqInvCipherUndoes(Load(b), w, dw, nr);
    StoreLoad(b);
  }

  // ---------- the expressions of the round loops ----------

  function EncColumn(a: bv32, b: bv32, c: bv32, d: bv32, k: bv32): bv32 {
    Te0(Byte0(a)) ^ Te1(Byte1(b)) ^ Te2(Byte2(c)) ^ Te3(Byte3(d)) ^ k
  }

  function EncLast(a: bv32, b: bv32, c: bv32, d: bv32, k: bv32): bv32 {
    (Te4(Byte0(a)) & 0xff00_0000) ^ (Te4(Byte1(b)) & 0x00ff_0000) ^
    (Te4(Byte2(c)) & 0x0000_ff00) ^ (Te4(Byte3(d)) & 0x0000_00ff) ^ k
  }

  function DecColumn(a: bv32, b: bv32, c: bv32, d: bv32, k: bv32): bv32 {
    Td0(Byte0(a)) ^ Td1(Byte1(b)) ^ Td2(Byte2(c)) ^ Td3(Byte3(d)) ^ k
  }

  function DecLast(a: bv32, b: bv32, c: bv32, d: bv32, k: bv32): bv32 {
    (Td4(Byte0(a)) & 0xff00_0000) ^ (Td4(Byte1(b)) & 0x00ff_0000) ^
    (Td4(Byte2(c)) & 0x0000_ff00) ^ (Td4(Byte3(d)) & 0x0000_00ff) ^ k
  }

  /** Four table columns are one round of the cipher. */
  lemma EncRound(s: Columns, k: Columns)
    ensures Columns(EncColumn(s.c0, s.c1, s.c2, s.c3, k.c0), EncColumn(s.c1, s.c2, s.c3, s.c0, k.c1),
                    EncColumn(s.c2, s.c3, s.c0, s.c1, k.c2), EncColumn(s.c3, s.c0, s.c1, s.c2, k.c3)) ==
            AddRoundKey(MixColumns(Substitute(s)), k)
  {
    hide EncColumn, AddWord, MixColumn, Diagonal, SubWord;
    EncColumnMeaning(s.c0, s.c1, s.c2, s.c3, k.c0);
    EncColumnMeaning(s.c1, s.c2, s.c3, s.c0, k.c1);
    EncColumnMeaning(s.c2, s.c3, s.c0, s.c1, k.c2);
    EncColumnMeaning(s.c3, s.c0, s.c1, s.c2, k.c3);
  }

  lemma EncColumnMeaning(a: bv32, b: bv32, c: bv32, d: bv32, k: bv32)
    ensures EncColumn(a, b, c, d, k) == AddWord(MixColumn(Diagonal(SubWord(a), SubWord(b), SubWord(c), SubWord(d))), k)
  {
    hide Te0, Te1, Te2, Te3, Byte0, Byte1, Byte2, Byte3, AddWord, MixColumn, Diagonal, SubWord;
    RoundColumn(a, b, c, d, k);
  }

  lemma EncFinal(s: Columns, k: Columns)
    ensures Columns(EncLast(s.c0, s.c1, s.c2, s.c3, k.c0), EncLast(s.c1, s.c2, s.c3, s.c0, k.c1),
                    EncLast(s.c2, s.c3, s.c0, s.c1, k.c2), EncLast(s.c3, s.c0, s.c1, s.c2, k.c3)) ==
            AddRoundKey(Substitute(s), k)
  {
    hide EncLast, AddWord, Diagonal, SubWord;
    EncLastMeaning(s.c0, s.c1, s.c2, s.c3, k.c0);
    EncLastMeaning(s.c1, s.c2, s.c3, s.c0, k.c1);
    EncLastMeaning(s.c2, s.c3, s.c0, s.c1, k.c2);
    EncLastMeaning(s.c3, s.c0, s.c1, s.c2, k.c3);
  }

  /** One step of the loop, on the words of the round key it reads. */
  lemma EncStep(x: Columns, w: seq<bv32>, n: nat, s: Columns)
    requires 4 * n + 8 <= |w| && s == Forward(x, w, n)
    ensures Columns(EncColumn(s.c0, s.c1, s.c2, s.c3, w[4 * n + 4]), EncColumn(s.c1, s.c2, s.c3, s.c0, w[4 * n + 5]),
                    EncColumn(s.c2, s.c3, s.c0, s.c1, w[4 * n + 6]), EncColumn(s.c3, s.c0, s.c1, s.c2, w[4 * n + 7])) == Forward(x, w, n + 1)
  {
    hide EncColumn, AddRoundKey, MixColumns, Substitute;
    EncRound(s, RoundKey(w, n + 1));
  }

  lemma EncEnd(x: Columns, w: seq<bv32>, n: nat, s: Columns)
    requires 4 * n + 8 <= |w| && s == Forward(x, w, n)
    ensures Columns(EncLast(s.c0, s.c1, s.c2, s.c3, w[4 * n + 4]), EncLast(s.c1, s.c2, s.c3, s.c0, w[4 * n + 5]),
                    EncLast(s.c2, s.c3, s.c0, s.c1, w[4 * n + 6]), EncLast(s.c3, s.c0, s.c1, s.c2, w[4 * n + 7])) == Cipher(x, w, n + 1)
  {
    hide EncLast, AddRoundKey, MixColumns, Substitute;
    EncFinal(s, RoundKey(w, n + 1));
  }

  lemma EncLastMeaning(a: bv32, b: bv32, c: bv32, d: bv32, k: bv32)
    ensures EncLast(a, b, c, d, k) == AddWord(Diagonal(SubWord(a), SubWord(b), SubWord(c), SubWord(d)), k)
  {
    hide Te4, Byte0, Byte1, Byte2, Byte3, AddWord, Diagonal, SubWord;
    LastColumn(a, b, c, d, k);
  }

  /** Four table columns are one round of the equivalent inverse cipher; the columns come in the
      order of the inverse row shift. */
  lemma DecRound(s: Columns, k: Columns)
    ensures Columns(DecColumn(s.c0, s.c3, s.c2, s.c1, k.c0), DecColumn(s.c1, s.c0, s.c3, s.c2, k.c1),
                    DecColumn(s.c2, s.c1, s.c0, s.c3, k.c2), DecColumn(s.c3, s.c2, s.c1, s.c0, k.c3)) ==
            AddRoundKey(InvMixColumns(InvSubstitute(s)), k)
  {
    hide DecColumn, AddWord, InvMixColumn, Diagonal, InvSubWord;
    DecColumnMeaning(s.c0, s.c3, s.c2, s.c1, k.c0);
    DecColumnMeaning(s.c1, s.c0, s.c3, s.c2, k.c1);
    DecColumnMeaning(s.c2, s.c1, s.c0, s.c3, k.c2);
    DecColumnMeaning(s.c3, s.c2, s.c1, s.c0, k.c3);
  }

  lemma DecColumnMeaning(a: bv32, b: bv32, c: bv32, d: bv32, k: bv32)
    ensures DecColumn(a, b, c, d, k) ==
            AddWord(InvMixColumn(Diagonal(InvSubWord(a), InvSubWord(b), InvSubWord(c), InvSubWord(d))), k)
  {
    hide Td0, Td1, Td2, Td3, Byte0, Byte1, Byte2, Byte3, AddWord, InvMixColumn, Diagonal, InvSubWord;
    InvRoundColumn(a, b, c, d, k);
  }

  lemma DecFinal(s: Columns, k: Columns)
    ensures Columns(DecLast(s.c0, s.c3, s.c2, s.c1, k.c0), DecLast(s.c1, s.c0, s.c3, s.c2, k.c1),
                    DecLast(s.c2, s.c1, s.c0, s.c3, k.c2), DecLast(s.c3, s.c2, s.c1, s.c0, k.c3)) ==
            AddRoundKey(InvSubstitute(s), k)
  {
    hide DecLast, AddWord, Diagonal, InvSubWord;
    DecLastMeaning(s.c0, s.c3, s.c2, s.c1, k.c0);
    DecLastMeaning(s.c1, s.c0, s.c3, s.c2, k.c1);
    DecLastMeaning(s.c2, s.c1, s.c0, s.c3, k.c2);
    DecLastMeaning(s.c3, s.c2, s.c1, s.c0, k.c3);
  }

  /** One step of the loop, on the words of the round key it reads. */
  lemma DecStep(x: Columns, w: seq<bv32>, n: nat, s: Columns)
    requires 4 * n + 8 <= |w| && s == Backward(x, w, n)
    ensures Columns(DecColumn(s.c0, s.c3, s.c2, s.c1, w[4 * n + 4]), DecColumn(s.c1, s.c0, s.c3, s.c2, w[4 * n + 5]),
                    DecColumn(s.c2, s.c1, s.c0, s.c3, w[4 * n + 6]), DecColumn(s.c3, s.c2, s.c1, s.c0, w[4 * n + 7])) == Backward(x, w, n + 1)
  {
    hide DecColumn, AddRoundKey, InvMixColumns, InvSubstitute;
    DecRound(s, RoundKey(w, n + 1));
  }

  lemma DecEnd(x: Columns, w: seq<bv32>, n: nat, s: Columns)
    requires 4 * n + 8 <= |w| && s == Backward(x, w, n)
    ensures Columns(DecLast(s.c0, s.c3, s.c2, s.c1, w[4 * n + 4]), DecLast(s.c1, s.c0, s.c3, s.c2, w[4 * n + 5]),
                    DecLast(s.c2, s.c1, s.c0, s.c3, w[4 * n + 6]), DecLast(s.c3, s.c2, s.c1, s.c0, w[4 * n + 7])) == EqInvCipher(x, w, n + 1)
  {
    hide DecLast, AddRoundKey, InvMixColumns, InvSubstitute;
    DecFinal(s, RoundKey(w, n + 1));
  }

  lemma DecLastMeaning(a: bv32, b: bv32, c: bv32, d: bv32, k: bv32)
    ensures DecLast(a, b, c, d, k) ==
            AddWord(Diagonal(InvSubWord(a), InvSubWord(b), InvSubWord(c), InvSubWord(d)), k)
  {
    hide Td4, Byte0, Byte1, Byte2, Byte3, AddWord, Diagonal, InvSubWord;
    InvLastColumn(a, b, c, d, k);
  }

  // ---------- the block functions ----------

  predicate Even(n: nat) { n != 1 && (n < 2 || Even(n - 2)) }

  lemma {:induction false} EvenMeaning(n: nat)
    ensures Even(n) <==> n % 2 == 0
    ensures Even(n) <==> n == 2 * (n / 2)
  {
    if n >= 2 { EvenMeaning(n - 2); }
  }

  /** What the loops need of a key: an even number of rounds and a round key for each. */
  predicate Usable(key: AesKey)
    reads key
  {
    2 <= key.rounds && Even(key.rounds) && 4 * key.rounds + 4 <= key.rdKey.Length
  }

  method GetState(inp: array<bv8>, i: nat, rk: array<bv32>) returns (s0: bv32, s1: bv32, s2: bv32, s3: bv32)
    requires i + 16 <= inp.Length && 4 <= rk.Length
    ensures Columns(s0, s1, s2, s3) == AddRoundKey(Load(inp[i..i + 16]), RoundKey(rk[..], 0))
  {
    hide Pack, AddWord;
    s0 := AddWord(Pack(inp[i], inp[i + 1], inp[i + 2], inp[i + 3]), rk[0]);
    s1 := AddWord(Pack(inp[i + 4], inp[i + 5], inp[i + 6], inp[i + 7]), rk[1]);
    s2 := AddWord(Pack(inp[i + 8], inp[i + 9], inp[i + 10], inp[i + 11]), rk[2]);
    s3 := AddWord(Pack(inp[i + 12], inp[i + 13], inp[i + 14], inp[i + 15]), rk[3]);
  }

  /** The bytes of w stand at offset i. */
  predicate HasWord(b: seq<bv8>, i: nat, w: bv32)
    requires i + 4 <= |b|
  {
    b[i] == Byte0(w) && b[i + 1] == Byte1(w) && b[i + 2] == Byte2(w) && b[i + 3] == Byte3(w)
  }

  method PutWord(out: array<bv8>, o: nat, w: bv32)
    requires o + 4 <= out.Length
    modifies out
    ensures HasWord(out[..], o, w)
    ensures forall m :: 0 <= m < out.Length && !(o <= m < o + 4) ==> out[m] == old(out[m])
  {
    hide Byte0, Byte1, Byte2, Byte3;
    out[o] := Byte0(w);
    out[o + 1] := Byte1(w);
    out[o + 2] := Byte2(w);
    out[o + 3] := Byte3(w);
  }

  lemma KeepsWord(b: seq<bv8>, b': seq<bv8>, i: nat, w: bv32)
    requires i + 4 <= |b| == |b'| && HasWord(b, i, w) && forall m :: i <= m < i + 4 ==> b'[m] == b[m]
    ensures HasWord(b', i, w)
  {
    hide Byte0, Byte1, Byte2, Byte3;
  }

  lemma WordInSlice(b: seq<bv8>, o: nat, i: nat, w: bv32)
    requires o + i + 4 <= o + 16 <= |b| && HasWord(b, o + i, w)
    ensures HasWord(b[o..o + 16], i, w)
  {
    hide Byte0, Byte1, Byte2, Byte3;
    var s := b[o..o + 16];
    assert s[i] == b[o + i] && s[i + 1] == b[o + i + 1] && s[i + 2] == b[o + i + 2] && s[i + 3] == b[o + i + 3];
  }

  lemma FourBytes(s: seq<bv8>, i: nat, w: bv32)
    requires i + 4 <= |s| && HasWord(s, i, w)
    ensures s[i..i + 4] == WordBytes(w)
  {
    hide Byte0, Byte1, Byte2, Byte3;
  }

  /** Four words one after the other are a stored state. */
  lemma StoredWords(s: seq<bv8>, c: Columns)
    requires |s| == 16 && HasWord(s, 0, c.c0) && HasWord(s, 4, c.c1) && HasWord(s, 8, c.c2) && HasWord(s, 12, c.c3)
    ensures s == Store(c)
  {
    FourBytes(s, 0, c.c0);
    FourBytes(s, 4, c.c1);
    FourBytes(s, 8, c.c2);
    FourBytes(s, 12, c.c3);
    hide HasWord, WordBytes;
    Quarters(s);
  }

  lemma Quarters(s: seq<bv8>)
    requires |s| == 16
    ensures s == s[0..4] + s[4..8] + s[8..12] + s[12..16]
  {}

  method PutState(out: array<bv8>, o: nat, s0: bv32, s1: bv32, s2: bv32, s3: bv32)
    requires o + 16 <= out.Length
    modifies out
    ensures out[o..o + 16] == Store(Columns(s0, s1, s2, s3))
    ensures forall m :: 0 <= m < out.Length && !(o <= m < o + 16) ==> out[m] == old(out[m])
  {
    hide HasWord, Store;
    PutWord(out, o, s0);
    ghost var b0 := out[..];
    PutWord(out, o + 4, s1);
    ghost var b1 := out[..];
    PutWord(out, o + 8, s2);
    ghost var b2 := out[..];
    PutWord(out, o + 12, s3);
    ghost var b := out[..];
    KeepsWord(b0, b, o, s0);
    KeepsWord(b1, b, o + 4, s1);
    KeepsWord(b2, b, o + 8, s2);
    WordInSlice(b, o, 0, s0);
    WordInSlice(b, o, 4, s1);
    WordInSlice(b, o, 8, s2);
    WordInSlice(b, o, 12, s3);
    StoredWords(b[o..o + 16], Columns(s0, s1, s2, s3));
    assert out[o..o + 16] == b[o..o + 16];
  }

  method EncRounds(a0: bv32, a1: bv32, a2: bv32, a3: bv32, key: AesKey, ghost x: Columns)
    returns (s0: bv32, s1: bv32, s2: bv32, s3: bv32)
    requires Usable(key) && Columns(a0, a1, a2, a3) == AddRoundKey(x, RoundKey(key.rdKey[..], 0))
    ensures Columns(s0, s1, s2, s3) == Cipher(x, key.rdKey[..], key.rounds)
  {
    hide AddRoundKey, MixColumns, Substitute, EncColumn, EncLast;
    assert Columns(a0, a1, a2, a3) == Forward(x, key.rdKey[..], 0);
    hide RoundKey, Forward, Cipher;
    s0, s1, s2, s3 := a0, a1, a2, a3;
    var rk, p := key.rdKey, 0;
    ghost var w, n := rk[..], 0;
    var t0, t1, t2, t3;
    EvenMeaning(key.rounds);
    hide Even;
    var r := key.rounds / 2;
    while true
      invariant 1 <= r && p == 4 * n && n + 2 * r == key.rounds
      invariant Columns(s0, s1, s2, s3) == Forward(x, w, n)
      decreases r
    {
      EncStep(x, w, n, Columns(s0, s1, s2, s3));
      t0 := EncColumn(s0, s1, s2, s3, rk[p + 4]);
      t1 := EncColumn(s1, s2, s3, s0, rk[p + 5]);
      t2 := EncColumn(s2, s3, s0, s1, rk[p + 6]);
      t3 := EncColumn(s3, s0, s1, s2, rk[p + 7]);
      assert Columns(t0, t1, t2, t3) == Forward(x, w, n + 1);
      p := p + 8;
      r := r - 1;
      if r == 0 { break; }
      EncStep(x, w, n + 1, Columns(t0, t1, t2, t3));
      s0 := EncColumn(t0, t1, t2, t3, rk[p]);
      s1 := EncColumn(t1, t2, t3, t0, rk[p + 1]);
      s2 := EncColumn(t2, t3, t0, t1, rk[p + 2]);
      s3 := EncColumn(t3, t0, t1, t2, rk[p + 3]);
      n := n + 2;
    }
    EncEnd(x, w, n + 1, Columns(t0, t1, t2, t3));
    s0 := EncLast(t0, t1, t2, t3, rk[p]);
    s1 := EncLast(t1, t2, t3, t0, rk[p + 1]);
    s2 := EncLast(t2, t3, t0, t1, rk[p + 2]);
    s3 := EncLast(t3, t0, t1, t2, rk[p + 3]);
  }

  /** Encrypts one block; the two buffers may be the same. */
  method Encrypt(inp: array<bv8>, i: nat, out: array<bv8>, o: nat, key: AesKey)
    requires Usable(key) && i + 16 <= inp.Length && o + 16 <= out.Length
    modifies out
    ensures out[o..o + 16] == EncryptBlock(old(inp[i..i + 16]), key.rdKey[..], key.rounds)
    ensures forall m :: 0 <= m < out.Length && !(o <= m < o + 16) ==> out[m] == old(out[m])
  {
    hide Load, Store, Cipher, AddRoundKey, RoundKey;
    ghost var b, w := inp[i..i + 16], key.rdKey[..];
    var s0, s1, s2, s3 := GetState(inp, i, key.rdKey);
    s0, s1, s2, s3 := EncRounds(s0, s1, s2, s3, key, Load(b));
    PutState(out, o, s0, s1, s2, s3);
    assert key.rdKey[..] == w;
  }

  method DecRounds(a0: bv32, a1: bv32, a2: bv32, a3: bv32, key: AesKey, ghost x: Columns)
    returns (s0: bv32, s1: bv32, s2: bv32, s3: bv32)
    requires Usable(key) && Columns(a0, a1, a2, a3) == AddRoundKey(x, RoundKey(key.rdKey[..], 0))
    ensures Columns(s0, s1, s2, s3) == EqInvCipher(x, key.rdKey[..], key.rounds)
  {
    hide AddRoundKey, InvMixColumns, InvSubstitute, DecColumn, DecLast;
    assert Columns(a0, a1, a2, a3) == Backward(x, key.rdKey[..], 0);
    hide RoundKey, Backward, EqInvCipher;
    s0, s1, s2, s3 := a0, a1, a2, a3;
    var rk, p := key.rdKey, 0;
    ghost var w, n := rk[..], 0;
    var t0, t1, t2, t3;
    EvenMeaning(key.rounds);
    hide Even;
    var r := key.rounds / 2;
    while true
      invariant 1 <= r && p == 4 * n && n + 2 * r == key.rounds
      invariant Columns(s0, s1, s2, s3) == Backward(x, w, n)
      decreases r
    {
      DecStep(x, w, n, Columns(s0, s1, s2, s3));
      t0 := DecColumn(s0, s3, s2, s1, rk[p + 4]);
      t1 := DecColumn(s1, s0, s3, s2, rk[p + 5]);
      t2 := DecColumn(s2, s1, s0, s3, rk[p + 6]);
      t3 := DecColumn(s3, s2, s1, s0, rk[p + 7]);
      assert Columns(t0, t1, t2, t3) == Backward(x, w, n + 1);
      p := p + 8;
      r := r - 1;
      if r == 0 { break; }
      DecStep(x, w, n + 1, Columns(t0, t1, t2, t3));
      s0 := DecColumn(t0, t3, t2, t1, rk[p]);
      s1 := DecColumn(t1, t0, t3, t2, rk[p + 1]);
      s2 := DecColumn(t2, t1, t0, t3, rk[p + 2]);
      s3 := DecColumn(t3, t2, t1, t0, rk[p + 3]);
      n := n + 2;
    }
    DecEnd(x, w, n + 1, Columns(t0, t1, t2, t3));
    s0 := DecLast(t0, t3, t2, t1, rk[p]);
    s1 := DecLast(t1, t0, t3, t2, rk[p + 1]);
    s2 := DecLast(t2, t1, t0, t3, rk[p + 2]);
    s3 := DecLast(t3, t2, t1, t0, rk[p + 3]);
  }

  /** Decrypts one block under an inverse schedule; the two buffers may be the same. */
  method Decrypt(inp: array<bv8>, i: nat, out: array<bv8>, o: nat, key: AesKey)
    requires Usable(key) && i + 16 <= inp.Length && o + 16 <= out.Length
    modifies out
    ensures out[o..o + 16] == DecryptBlock(old(inp[i..i + 16]), key.rdKey[..], key.rounds)
    ensures forall m :: 0 <= m < out.Length && !(o <= m < o + 16) ==> out[m] == old(out[m])
  {
    hide Load, Store, EqInvCipher, AddRoundKey, RoundKey;
    ghost var b, w := inp[i..i + 16], key.rdKey[..];
    var s0, s1, s2, s3 := GetState(inp, i, key.rdKey);
    s0, s1, s2, s3 := DecRounds(s0, s1, s2, s3, key, Load(b));
    PutState(out, o, s0, s1, s2, s3);
    assert key.rdKey[..] == w;
  }

  /** From key to block: for every key of 128, 192 or 256 bits and every block, what is encrypted
      under the expanded key is decrypted under the schedule SetDecryptKey leaves behind. */
  lemma KeyRoundTrip(key: seq<bv8>, bits: int, ew: seq<bv32>, dw: seq<bv32>, b: Block)
    requires GoodBits(bits) && bits <= 8 * |key| && |ew| >= WordsFor(bits) && |dw| >= WordsFor(bits)
    requires Expanded(ew, key, KeyWords(bits), WordsFor(bits))
    requires IsInverseSchedule(Schedule(key, bits), dw, RoundsFor(bits))
    ensures DecryptBlock(EncryptBlock(b, ew, RoundsFor(bits)), dw, RoundsFor(bits)) == b
  {
    hide EncryptBlock, DecryptBlock, Expanded, RoundKey, InvMixColumns;
    SameExpansion(Schedule(key, bits), ew, key, bits);
    DecryptUndoesEncrypt(b, ew, dw, RoundsFor(bits));
  }
}
