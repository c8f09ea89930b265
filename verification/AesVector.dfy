/**
 The example of appendix C.1 of FIPS-197, a 128-bit key and one block: the expansion of that key
 and all ten rounds have the values printed there.  This ties the order of bits, bytes, words and
 rounds to the standard, which round trips alone do not.
 */
module AesVector {
  import opened AesField
  import opened AesCipher
  import opened AesKeySchedule
  import opened AesBlock

  const KEY: seq<bv8> := [0x00, 0x01, 0x02, 0x03, 0x04, 0x05, 0x06, 0x07, 0x08, 0x09, 0x0a, 0x0b, 0x0c, 0x0d, 0x0e, 0x0f]
  const PLAIN: seq<bv8> := [0x00, 0x11, 0x22, 0x33, 0x44, 0x55, 0x66, 0x77, 0x88, 0x99, 0xaa, 0xbb, 0xcc, 0xdd, 0xee, 0xff]
  const COVER: seq<bv8> := [0x69, 0xc4, 0xe0, 0xd8, 0x6a, 0x7b, 0x04, 0x30, 0xd8, 0xcd, 0xb7, 0x80, 0x70, 0xb4, 0xc5, 0x5a]

  /** The round keys. */
  function K(r: nat): Columns {
    if r == 0 then Columns(0x0001_0203, 0x0405_0607, 0x0809_0a0b, 0x0c0d_0e0f)
    else if r == 1 then Columns(0xd6aa_74fd, 0xd2af_72fa, 0xdaa6_78f1, 0xd6ab_76fe)
    else if r == 2 then Columns(0xb692_cf0b, 0x643d_bdf1, 0xbe9b_c500, 0x6830_b3fe)
    else if r == 3 then Columns(0xb6ff_744e, 0xd2c2_c9bf, 0x6c59_0cbf, 0x0469_bf41)
    else if r == 4 then Columns(0x47f7_f7bc, 0x9535_3e03, 0xf96c_32bc, 0xfd05_8dfd)
    else if r == 5 then Columns(0x3caa_a3e8, 0xa99f_9deb, 0x50f3_af57, 0xadf6_22aa)
    else if r == 6 then Columns(0x5e39_0f7d, 0xf7a6_9296, 0xa755_3dc1, 0x0aa3_1f6b)
    else if r == 7 then Columns(0x14f9_701a, 0xe35f_e28c, 0x440a_df4d, 0x4ea9_c026)
    else if r == 8 then Columns(0x4743_8735, 0xa41c_65b9, 0xe016_baf4, 0xaebf_7ad2)
    else if r == 9 then Columns(0x5499_32d1, 0xf085_5768, 0x1093_ed9c, 0xbe2c_974e)
    else Columns(0x1311_1d7f, 0xe394_4a17, 0xf307_a78b, 0x4d2b_30c5)
  }

  /** The state after r rounds. */
  function S(r: nat): Columns {
    if r == 0 then Columns(0x0010_2030, 0x4050_6070, 0x8090_a0b0, 0xc0d0_e0f0)
    else if r == 1 then Columns(0x89d8_10e8, 0x855a_ce68, 0x2d18_43d8, 0xcb12_8fe4)
    else if r == 2 then Columns(0x4915_598f, 0x55e5_d7a0, 0xdaca_94fa, 0x1f0a_63f7)
    else if r == 3 then Columns(0xfa63_6a28, 0x25b3_39c9, 0x4066_8a31, 0x5724_4d17)
    else if r == 4 then Columns(0x2472_4023, 0x6966_b3fa, 0x6ed2_7532, 0x8842_5b6c)
    else if r == 5 then Columns(0xc816_77bc, 0x9b7a_c93b, 0x2502_7992, 0xb026_1996)
    else if r == 6 then Columns(0xc62f_e109, 0xf75e_edc3, 0xcc79_395d, 0x84f9_cf5d)
    else if r == 7 then Columns(0xd187_6c0f, 0x79c4_300a, 0xb455_94ad, 0xd66f_f41f)
    else if r == 8 then Columns(0xfde3_bad2, 0x05e5_d0d7, 0x3547_964e, 0xf1fe_37f1)
    else if r == 9 then Columns(0xbd6e_7c3d, 0xf2b5_779e, 0x0b61_216e, 0x8b10_b689)
    else Columns(0x69c4_e0d8, 0x6a7b_0430, 0xd8cd_b780, 0x70b4_c55a)
  }

  lemma SubPacked(a: bv8, b: bv8, c: bv8, d: bv8)
    ensures SubWord(Pack(a, b, c, d)) == Pack(SBox(a), SBox(b), SBox(c), SBox(d))
  {
    hide SBox;
    BytesPack(a, b, c, d);
  }

  // ---------- the expansion ----------

  /** The words of a round key of a 128-bit key, from those of the one before. */
  function NextKey(k: Columns, rcon: bv32): Columns {
    var c0 := AddWord(k.c0, AddWord(SubWord(RotWord(k.c3)), rcon));
    var c1 := AddWord(k.c1, c0);
    var c2 := AddWord(k.c2, c1);
    Columns(c0, c1, c2, AddWord(k.c3, c2))
  }

  lemma Key1()
    ensures NextKey(K(0), RCON[0]) == K(1)
  {
    hide SubWord;
    SubPacked(0x0d, 0x0e, 0x0f, 0x0c);
  }

  lemma Key2()
    ensures NextKey(K(1), RCON[1]) == K(2)
  {
    hide SubWord;
    SubPacked(0xab, 0x76, 0xfe, 0xd6);
  }

  lemma Key3()
    ensures NextKey(K(2), RCON[2]) == K(3)
  {
    hide SubWord;
    SubPacked(0x30, 0xb3, 0xfe, 0x68);
  }

  lemma Key4()
    ensures NextKey(K(3), RCON[3]) == K(4)
  {
    hide SubWord;
    SubPacked(0x69, 0xbf, 0x41, 0x04);
  }

  lemma Key5()
    ensures NextKey(K(4), RCON[4]) == K(5)
  {
    hide SubWord;
    SubPacked(0x05, 0x8d, 0xfd, 0xfd);
  }

  lemma Key6()
    ensures NextKey(K(5), RCON[5]) == K(6)
  {
    hide SubWord;
    SubPacked(0xf6, 0x22, 0xaa, 0xad);
  }

  lemma Key7()
    ensures NextKey(K(6), RCON[6]) == K(7)
  {
    hide SubWord;
    SubPacked(0xa3, 0x1f, 0x6b, 0x0a);
  }

  lemma Key8()
    ensures NextKey(K(7), RCON[7]) == K(8)
  {
    hide SubWord;
    SubPacked(0xa9, 0xc0, 0x26, 0x4e);
  }

  lemma Key9()
    ensures NextKey(K(8), RCON[8]) == K(9)
  {
    hide SubWord;
    SubPacked(0xbf, 0x7a, 0xd2, 0xae);
  }

  lemma Key10()
    ensures NextKey(K(9), RCON[9]) == K(10)
  {
    hide SubWord;
    SubPacked(0x2c, 0x97, 0x4e, 0xbe);
  }

  lemma WordFirst(key: seq<bv8>, q: nat, i: nat)
    requires 1 <= q && |key| >= 16 && i == 4 * q
    ensures Word(key, 4, i) == AddWord(Word(key, 4, i - 4), AddWord(SubWord(RotWord(Word(key, 4, i - 1))), Rcon(q)))
  {
    hide AddWord, SubWord, RotWord, Rcon;
    Slot(4, q, 0);
  }

  lemma NextWords(key: seq<bv8>, r: nat)
    requires |key| >= 16 && r < 10
    ensures Word(key, 4, 4 * r + 4) ==
            AddWord(Word(key, 4, 4 * r), AddWord(SubWord(RotWord(Word(key, 4, 4 * r + 3))), RCON[r]))
    ensures Word(key, 4, 4 * r + 5) == AddWord(Word(key, 4, 4 * r + 1), Word(key, 4, 4 * r + 4))
    ensures Word(key, 4, 4 * r + 6) == AddWord(Word(key, 4, 4 * r + 2), Word(key, 4, 4 * r + 5))
    ensures Word(key, 4, 4 * r + 7) == AddWord(Word(key, 4, 4 * r + 3), Word(key, 4, 4 * r + 6))
  {
    hide SubWord, AddWord, RotWord, Rcon, Word;
    WordFirst(key, r + 1, 4 * r + 4);
    RconTable(r);
    hide RCON;
    WordXor(key, 4, r + 1, 1, 4 * r + 5);
    WordXor(key, 4, r + 1, 2, 4 * r + 6);
    WordXor(key, 4, r + 1, 3, 4 * r + 7);
  }

  lemma NextRoundKey(key: seq<bv8>, r: nat)
    requires |key| >= 16 && r < 10
    ensures RoundKey(Schedule(key, 128), r + 1) == NextKey(RoundKey(Schedule(key, 128), r), RCON[r])
  {
    hide SubWord, AddWord, RotWord, Word, Schedule, RCON;
    NextWords(key, r);
  }

  lemma FirstKey()
    ensures RoundKey(Schedule(KEY, 128), 0) == K(0)
  {
    hide Temp;
  }

  /** The whole expansion. */
  lemma ExpansionVector()
    ensures forall r :: 0 <= r <= 10 ==> RoundKey(Schedule(KEY, 128), r) == K(r)
  {
    hide NextKey, RoundKey, Schedule, K, RCON;
    FirstKey();
    NextRoundKey(KEY, 0);
    Key1();
    NextRoundKey(KEY, 1);
    Key2();
    NextRoundKey(KEY, 2);
    Key3();
    NextRoundKey(KEY, 3);
    Key4();
    NextRoundKey(KEY, 4);
    Key5();
    NextRoundKey(KEY, 5);
    Key6();
    NextRoundKey(KEY, 6);
    Key7();
    NextRoundKey(KEY, 7);
    Key8();
    NextRoundKey(KEY, 8);
    Key9();
    NextRoundKey(KEY, 9);
    Key10();
  }

  /** The key of appendix A.3. */
  const KEY256: seq<bv8> := [
    0x60, 0x3d, 0xeb, 0x10, 0x15, 0xca, 0x71, 0xbe, 0x2b, 0x73, 0xae, 0xf0, 0x85, 0x7d, 0x77, 0x81,
    0x1f, 0x35, 0x2c, 0x07, 0x3b, 0x61, 0x08, 0xd7, 0x2d, 0x98, 0x10, 0xa3, 0x09, 0x14, 0xdf, 0xf4]

  lemma LoadedKey256()
    ensures Word(KEY256, 8, 0) == 0x603d_eb10 && Word(KEY256, 8, 1) == 0x15ca_71be
    ensures Word(KEY256, 8, 2) == 0x2b73_aef0 && Word(KEY256, 8, 3) == 0x857d_7781
    ensures Word(KEY256, 8, 4) == 0x1f35_2c07 && Word(KEY256, 8, 7) == 0x0914_dff4
  {
    hide Word;
    LoadedWord(KEY256, 8, 0);
    LoadedWord(KEY256, 8, 1);
    LoadedWord(KEY256, 8, 2);
    LoadedWord(KEY256, 8, 3);
    LoadedWord(KEY256, 8, 4);
    LoadedWord(KEY256, 8, 7);
  }

  lemma LoadedWord(key: seq<bv8>, nk: nat, j: nat)
    requires j < nk && |key| >= 4 * nk
    ensures Word(key, nk, j) == Pack(key[4 * j], key[4 * j + 1], key[4 * j + 2], key[4 * j + 3])
  {
    hide Pack, Temp;
  }

  lemma SubWords256()
    ensures AddWord(SubWord(RotWord(0x0914_dff4)), RCON[0]) == 0xfb9e_bf01
    ensures SubWord(0x2067_fcde) == 0xb785_b01d
  {
    hide SubWord;
    SubPacked(0x14, 0xdf, 0xf4, 0x09);
    SubPacked(0x20, 0x67, 0xfc, 0xde);
  }

  /** The first words beyond that key, with the extra SubWord of long keys in the last one. */
  lemma ExpansionVector256()
    ensures Word(KEY256, 8, 8) == 0x9ba3_5411 && Word(KEY256, 8, 9) == 0x8e69_25af
    ensures Word(KEY256, 8, 10) == 0xa51a_8b5f && Word(KEY256, 8, 11) == 0x2067_fcde
    ensures Word(KEY256, 8, 12) == 0xa8b0_9c1a
  {
    hide SubWord, RotWord, Rcon, Word;
    LoadedKey256();
    SubWords256();
    RconTable(0);
    WordFirst256(KEY256);
    WordXor(KEY256, 8, 1, 1, 9);
    WordXor(KEY256, 8, 1, 2, 10);
    WordXor(KEY256, 8, 1, 3, 11);
    WordExtra256(KEY256);
  }

  lemma WordFirst256(key: seq<bv8>)
    requires |key| >= 32
    ensures Word(key, 8, 8) == AddWord(Word(key, 8, 0), AddWord(SubWord(RotWord(Word(key, 8, 7))), Rcon(1)))
  {
    hide AddWord, SubWord, RotWord, Rcon;
  }

  lemma WordExtra256(key: seq<bv8>)
    requires |key| >= 32
    ensures Word(key, 8, 12) == AddWord(Word(key, 8, 4), SubWord(Word(key, 8, 11)))
  {
    hide AddWord, SubWord, RotWord, Rcon;
  }

  // ---------- the rounds ----------

  lemma Round1()
    ensures AddRoundKey(MixColumns(Substitute(S(0))), K(1)) == S(1)
  {
    hide SubWord, SBox;
    SubBytes1();
    hide SubBytes;
  }

  lemma SubBytes1()
    ensures SubBytes(S(0)) == Columns(0x63ca_b704, 0x0953_d051, 0xcd60_e0e7, 0xba70_e18c)
  {
    hide SubWord;
    SubPacked(0x00, 0x10, 0x20, 0x30);
    SubPacked(0x40, 0x50, 0x60, 0x70);
    SubPacked(0x80, 0x90, 0xa0, 0xb0);
    SubPacked(0xc0, 0xd0, 0xe0, 0xf0);
  }

  lemma Round2()
    ensures AddRoundKey(MixColumns(Substitute(S(1))), K(2)) == S(2)
  {
    hide SubWord, SBox;
    SubBytes2();
    hide SubBytes;
  }

  lemma SubBytes2()
    ensures SubBytes(S(1)) == Columns(0xa761_ca9b, 0x97be_8b45, 0xd8ad_1a61, 0x1fc9_7369)
  {
    hide SubWord;
    SubPacked(0x89, 0xd8, 0x10, 0xe8);
    SubPacked(0x85, 0x5a, 0xce, 0x68);
    SubPacked(0x2d, 0x18, 0x43, 0xd8);
    SubPacked(0xcb, 0x12, 0x8f, 0xe4);
  }

  lemma Round3()
    ensures AddRoundKey(MixColumns(Substitute(S(2))), K(3)) == S(3)
  {
    hide SubWord, SBox;
    SubBytes3();
    hide SubBytes;
  }

  lemma SubBytes3()
    ensures SubBytes(S(2)) == Columns(0x3b59_cb73, 0xfcd9_0ee0, 0x5774_222d, 0xc067_fb68)
  {
    hide SubWord;
    SubPacked(0x49, 0x15, 0x59, 0x8f);
    SubPacked(0x55, 0xe5, 0xd7, 0xa0);
    SubPacked(0xda, 0xca, 0x94, 0xfa);
    SubPacked(0x1f, 0x0a, 0x63, 0xf7);
  }

  lemma Round4()
    ensures AddRoundKey(MixColumns(Substitute(S(3))), K(4)) == S(4)
  {
    hide SubWord, SBox;
    SubBytes4();
    hide SubBytes;
  }

  lemma SubBytes4()
    ensures SubBytes(S(3)) == Columns(0x2dfb_0234, 0x3f6d_12dd, 0x0933_7ec7, 0x5b36_e3f0)
  {
    hide SubWord;
    SubPacked(0xfa, 0x63, 0x6a, 0x28);
    SubPacked(0x25, 0xb3, 0x39, 0xc9);
    SubPacked(0x40, 0x66, 0x8a, 0x31);
    SubPacked(0x57, 0x24, 0x4d, 0x17);
  }

  lemma Round5()
    ensures AddRoundKey(MixColumns(Substitute(S(4))), K(5)) == S(5)
  {
    hide SubWord, SBox;
    SubBytes5();
    hide SubBytes;
  }

  lemma SubBytes5()
    ensures SubBytes(S(4)) == Columns(0x3640_0926, 0xf933_6d2d, 0x9fb5_9d23, 0xc42c_3950)
  {
    hide SubWord;
    SubPacked(0x24, 0x72, 0x40, 0x23);
    SubPacked(0x69, 0x66, 0xb3, 0xfa);
    SubPacked(0x6e, 0xd2, 0x75, 0x32);
    SubPacked(0x88, 0x42, 0x5b, 0x6c);
  }

  lemma Round6()
    ensures AddRoundKey(MixColumns(Substitute(S(5))), K(6)) == S(6)
  {
    hide SubWord, SBox;
    SubBytes6();
    hide SubBytes;
  }

  lemma SubBytes6()
    ensures SubBytes(S(5)) == Columns(0xe847_f565, 0x14da_dde2, 0x3f77_b64f, 0xe7f7_d490)
  {
    hide SubWord;
    SubPacked(0xc8, 0x16, 0x77, 0xbc);
    SubPacked(0x9b, 0x7a, 0xc9, 0x3b);
    SubPacked(0x25, 0x02, 0x79, 0x92);
    SubPacked(0xb0, 0x26, 0x19, 0x96);
  }

  lemma Round7()
    ensures AddRoundKey(MixColumns(Substitute(S(6))), K(7)) == S(7)
  {
    hide SubWord, SBox;
    SubBytes7();
    hide SubBytes;
  }

  lemma SubBytes7()
    ensures SubBytes(S(6)) == Columns(0xb415_f801, 0x6858_552e, 0x4bb6_124c, 0x5f99_8a4c)
  {
    hide SubWord;
    SubPacked(0xc6, 0x2f, 0xe1, 0x09);
    SubPacked(0xf7, 0x5e, 0xed, 0xc3);
    SubPacked(0xcc, 0x79, 0x39, 0x5d);
    SubPacked(0x84, 0xf9, 0xcf, 0x5d);
  }

  lemma Round8()
    ensures AddRoundKey(MixColumns(Substitute(S(7))), K(8)) == S(8)
  {
    hide SubWord, SBox;
    SubBytes8();
    hide SubBytes;
  }

  lemma SubBytes8()
    ensures SubBytes(S(7)) == Columns(0x3e17_5076, 0xb61c_0467, 0x8dfc_2295, 0xf6a8_bfc0)
  {
    hide SubWord;
    SubPacked(0xd1, 0x87, 0x6c, 0x0f);
    SubPacked(0x79, 0xc4, 0x30, 0x0a);
    SubPacked(0xb4, 0x55, 0x94, 0xad);
    SubPacked(0xd6, 0x6f, 0xf4, 0x1f);
  }

  lemma Round9()
    ensures AddRoundKey(MixColumns(Substitute(S(8))), K(9)) == S(9)
  {
    hide SubWord, SBox;
    SubBytes9();
    hide SubBytes;
  }

  lemma SubBytes9()
    ensures SubBytes(S(8)) == Columns(0x5411_f4b5, 0x6bd9_700e, 0x96a0_902f, 0xa1bb_9aa1)
  {
    hide SubWord;
    SubPacked(0xfd, 0xe3, 0xba, 0xd2);
    SubPacked(0x05, 0xe5, 0xd0, 0xd7);
    SubPacked(0x35, 0x47, 0x96, 0x4e);
    SubPacked(0xf1, 0xfe, 0x37, 0xf1);
  }

  lemma Round10()
    ensures AddRoundKey(Substitute(S(9)), K(10)) == S(10)
  {
    hide SubWord, SBox;
    SubBytes10();
    hide SubBytes;
  }

  lemma SubBytes10()
    ensures SubBytes(S(9)) == Columns(0x7a9f_1027, 0x89d5_f50b, 0x2bef_fd9f, 0x3dca_4ea7)
  {
    hide SubWord;
    SubPacked(0xbd, 0x6e, 0x7c, 0x3d);
    SubPacked(0xf2, 0xb5, 0x77, 0x9e);
    SubPacked(0x0b, 0x61, 0x21, 0x6e);
    SubPacked(0x8b, 0x10, 0xb6, 0x89);
  }

  /** The block. */
  lemma EncryptVector()
    ensures EncryptBlock(PLAIN, Schedule(KEY, 128), 10) == COVER
  {
    hide AddRoundKey, MixColumns, Substitute, RoundKey, Schedule, K, S, Load, Store;
    var w := Schedule(KEY, 128);
    var x := Load(PLAIN);
    ExpansionVector();
    LoadedVector();
    Round1();
    assert Forward(x, w, 1) == S(1);
    Round2();
    assert Forward(x, w, 2) == S(2);
    Round3();
    assert Forward(x, w, 3) == S(3);
    Round4();
    assert Forward(x, w, 4) == S(4);
    Round5();
    assert Forward(x, w, 5) == S(5);
    Round6();
    assert Forward(x, w, 6) == S(6);
    Round7();
    assert Forward(x, w, 7) == S(7);
    Round8();
    assert Forward(x, w, 8) == S(8);
    Round9();
    assert Forward(x, w, 9) == S(9);
    Round10();
    assert Cipher(x, w, 10) == S(10);
    hide Cipher;
    StoredVector();
  }

  lemma LoadedVector()
    ensures AddRoundKey(Load(PLAIN), K(0)) == S(0)
  {}

  lemma StoredVector()
    ensures Store(S(10)) == COVER
  {}
}
