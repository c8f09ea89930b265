/**
 AES_cbc_encrypt: chaining of blocks (section 6.2 of NIST SP 800-38A) with the program's own
 treatment of a partial last block, which is padded with the chaining value and therefore
 produces a whole block of ciphertext.
 */
module AesCbc {
  import opened Sequences
  import opened AesCipher
  import opened AesKeySchedule
  import opened AesBlock

  // ---------- the chaining as functions ----------

  /** The length of the ciphertext of n bytes: n rounded up to whole blocks. */
  function Padded(n: nat): (m: nat)
    ensures n <= m < n + 16
  {
    if n == 0 then 0 else if n < 16 then 16 else 16 + Padded(n - 16)
  }

  predicate WholeBlocks(n: nat) { Padded(n) == n }

  lemma {:induction false} WholeBlocksMeaning(n: nat)
    ensures WholeBlocks(n) <==> n % 16 == 0
  {
    if n >= 16 {
      WholeBlocksMeaning(n - 16);
      assert n % 16 == (n - 16) % 16;
    }
  }

  /** The block handed to the cipher: data added to the chaining value, which also fills the rest. */
  function Whiten(p: seq<bv8>, iv: Block): (b: Block)
    requires |p| <= 16
  {
    seq(16, n requires 0 <= n < 16 => if n < |p| then Add(p[n], iv[n]) else iv[n])
  }

  function CbcEncrypt(p: seq<bv8>, iv: Block, w: seq<bv32>, nr: nat): (c: seq<bv8>)
    requires 1 <= nr && 4 * nr + 4 <= |w|
    ensures |c| == Padded(|p|)
    decreases |p|
  {
    hide EncryptBlock, Whiten;
    if |p| == 0 then []
    else if |p| < 16 then EncryptBlock(Whiten(p, iv), w, nr)
    else
      assert Padded(|p|) == 16 + Padded(|p[16..]|);
      hide Padded;
      var c := EncryptBlock(Whiten(p[..16], iv), w, nr);
      c + CbcEncrypt(p[16..], c, w, nr)
  }

  /** The chaining value after a run is the last block of ciphertext. */
  function IvAfterEncrypt(p: seq<bv8>, iv: Block, w: seq<bv32>, nr: nat): Block
    requires 1 <= nr && 4 * nr + 4 <= |w|
  {
    var c := CbcEncrypt(p, iv, w, nr);
    if c == [] then iv else c[|c| - 16..]
  }

  /** Recovers len bytes from the ciphertext c. */
  function CbcDecrypt(c: seq<bv8>, len: nat, iv: Block, dw: seq<bv32>, nr: nat): (p: seq<bv8>)
    requires 1 <= nr && 4 * nr + 4 <= |dw| && |c| == Padded(len)
    ensures |p| == len
    decreases len
  {
    hide DecryptBlock, Whiten;
    if len == 0 then []
    else if len < 16 then Whiten(DecryptBlock(c[..16], dw, nr), iv)[..len]
    else Whiten(DecryptBlock(c[..16], dw, nr), iv) + CbcDecrypt(c[16..], len - 16, c[..16], dw, nr)
  }

  /** What the program leaves in ivec: after a partial block it is the decrypted block, not the ciphertext. */
  function IvAfterDecrypt(c: seq<bv8>, len: nat, iv: Block, dw: seq<bv32>, nr: nat): Block
    requires 1 <= nr && 4 * nr + 4 <= |dw| && |c| == Padded(len)
    decreases len
  {
    if len == 0 then iv
    else if len < 16 then DecryptBlock(c[..16], dw, nr)
    else IvAfterDecrypt(c[16..], len - 16, c[..16], dw, nr)
  }

  lemma WhitenTwice(p: seq<bv8>, iv: Block)
    requires |p| <= 16
    ensures Whiten(Whiten(p, iv), iv)[..|p|] == p
  {
    hide Add;
    forall n | 0 <= n < |p|
      ensures Whiten(Whiten(p, iv), iv)[n] == p[n]
    {
      XorTwice(p[n], iv[n]);
    }
  }

  lemma XorTwice(a: bv8, b: bv8)
    ensures Add(Add(a, b), b) == a
  {}

  /** Decrypting gives the message back, for every length including a partial last block. */
  lemma {:induction false} CbcRoundTrip(p: seq<bv8>, iv: Block, w: seq<bv32>, dw: seq<bv32>, nr: nat)
    requires 1 <= nr && 4 * nr + 4 <= |w| && 4 * nr + 4 <= |dw| && IsInverseSchedule(w, dw, nr)
    ensures CbcDecrypt(CbcEncrypt(p, iv, w, nr), |p|, iv, dw, nr) == p
    decreases |p|
  {
    hide EncryptBlock, DecryptBlock, Whiten, IsInverseSchedule;
    if 0 < |p| {
      var first := if |p| < 16 then p else p[..16];
      var c := EncryptBlock(Whiten(first, iv), w, nr);
      DecryptUndoesEncrypt(Whiten(first, iv), w, dw, nr);
      WhitenTwice(first, iv);
      var all := CbcEncrypt(p, iv, w, nr);
      assert all[..16] == c;
      if |p| >= 16 {
        CbcRoundTrip(p[16..], c, w, dw, nr);
        assert all[16..] == CbcEncrypt(p[16..], c, w, nr);
        assert p == p[..16] + p[16..];
      }
    }
  }

  /** The j-th input of the cipher: message bytes added to the block before, which alone fills what the
      message leaves of the last block. */
  function CbcInput(p: seq<bv8>, j: nat, prev: Block): Block {
    seq(16, n requires 0 <= n < 16 => if 16 * j + n < |p| then p[16 * j + n] ^ prev[n] else prev[n])
  }

  /** The block of ciphertext before the j-th, or the initial value. */
  function Before(c: seq<bv8>, iv: Block, j: nat): Block
    requires 16 * j <= |c|
  {
    if j == 0 then iv else c[16 * (j - 1)..16 * j]
  }

  /** Every block of the ciphertext is the cipher of its input. */
  lemma {:induction false} CbcBlocks(p: seq<bv8>, iv: Block, w: seq<bv32>, nr: nat, j: nat)
    requires 1 <= nr && 4 * nr + 4 <= |w| && 16 * j < |p|
    ensures var c := CbcEncrypt(p, iv, w, nr);
      16 * j + 16 <= |c| &&
      c[16 * j..16 * j + 16] == EncryptBlock(CbcInput(p, j, Before(c, iv, j)), w, nr)
    decreases j
  {
    hide EncryptBlock, CbcEncrypt, CbcInput, Padded, Whiten;
    CbcFirst(p, iv, w, nr);
    if j > 0 {
      var c := EncryptBlock(CbcInput(p, 0, iv), w, nr);
      var rest := CbcEncrypt(p[16..], c, w, nr);
      CbcAfterFirst(p, iv, w, nr);
      CbcBlocks(p[16..], c, w, nr, j - 1);
      CbcInputCons(p, j, Before(rest, c, j - 1));
      BehindFirst(c, rest, iv, j);
    }
  }

  lemma CbcFirst(p: seq<bv8>, iv: Block, w: seq<bv32>, nr: nat)
    requires 1 <= nr && 4 * nr + 4 <= |w| && 0 < |p|
    ensures var c := CbcEncrypt(p, iv, w, nr); 16 <= |c| && c[..16] == EncryptBlock(CbcInput(p, 0, iv), w, nr)
  {
    hide EncryptBlock;
    assert Whiten(if |p| < 16 then p else p[..16], iv) == CbcInput(p, 0, iv);
    hide Whiten, CbcInput;
  }

  lemma CbcAfterFirst(p: seq<bv8>, iv: Block, w: seq<bv32>, nr: nat)
    requires 1 <= nr && 4 * nr + 4 <= |w| && 16 <= |p|
    ensures var c := EncryptBlock(CbcInput(p, 0, iv), w, nr); CbcEncrypt(p, iv, w, nr) == c + CbcEncrypt(p[16..], c, w, nr)
  {
    hide EncryptBlock;
    assert Whiten(p[..16], iv) == CbcInput(p, 0, iv);
    hide Whiten, CbcInput;
  }

  lemma CbcInputCons(p: seq<bv8>, j: nat, prev: Block)
    requires 0 < j && 16 * j < |p|
    ensures CbcInput(p[16..], j - 1, prev) == CbcInput(p, j, prev)
  {}

  lemma BehindFirst(c: Block, rest: seq<bv8>, iv: Block, j: nat)
    requires 0 < j && 16 * (j - 1) <= |rest|
    ensures 16 * j <= |rest| ==> (c + rest)[16 * j..16 * j + 16] == rest[16 * (j - 1)..16 * j]
    ensures Before(c + rest, iv, j) == Before(rest, c, j - 1)
  {
    if 16 * j <= |rest| { SliceBehind(c, rest, 16 * (j - 1), 16 * j); }
    if j > 1 { SliceBehind(c, rest, 16 * (j - 2), 16 * (j - 1)); } else { assert (c + rest)[0..16] == c; }
  }

  lemma SliceBehind(c: Block, rest: seq<bv8>, i: nat, j: nat)
    requires i <= j <= |rest|
    ensures (c + rest)[i + 16..j + 16] == rest[i..j]
  {}

  /** A message may be cut at any block boundary if the chaining value is carried over. */
  lemma {:induction false} CbcSplit(a: seq<bv8>, b: seq<bv8>, iv: Block, w: seq<bv32>, nr: nat)
    requires 1 <= nr && 4 * nr + 4 <= |w| && WholeBlocks(|a|)
    ensures CbcEncrypt(a + b, iv, w, nr) == CbcEncrypt(a, iv, w, nr) + CbcEncrypt(b, IvAfterEncrypt(a, iv, w, nr), w, nr)
    decreases |a|
  {
    hide EncryptBlock, Whiten;
    if |a| == 0 {
      assert a + b == b;
    } else {
      var c := EncryptBlock(Whiten(a[..16], iv), w, nr);
      assert (a + b)[..16] == a[..16] && (a + b)[16..] == a[16..] + b;
      CbcSplit(a[16..], b, c, w, nr);
      IvAfterCons(a, iv, w, nr);
    }
  }

  lemma IvAfterCons(a: seq<bv8>, iv: Block, w: seq<bv32>, nr: nat)
    requires 1 <= nr && 4 * nr + 4 <= |w| && 16 <= |a|
    ensures var c := EncryptBlock(Whiten(a[..16], iv), w, nr);
            IvAfterEncrypt(a, iv, w, nr) == IvAfterEncrypt(a[16..], c, w, nr)
  {
    hide EncryptBlock, Whiten;
    var c := EncryptBlock(Whiten(a[..16], iv), w, nr);
    var rest := CbcEncrypt(a[16..], c, w, nr);
    var all: seq<bv8> := c + rest;
    assert CbcEncrypt(a, iv, w, nr) == all && |rest| == Padded(|a| - 16);
    hide CbcEncrypt;
    LastBlock(c, rest);
  }

  lemma LastBlock(c: Block, rest: seq<bv8>)
    requires rest == [] || 16 <= |rest|
    ensures var all: seq<bv8> := c + rest; all[|all| - 16..] == if rest == [] then c else rest[|rest| - 16..]
  {
    var all: seq<bv8> := c + rest;
    if rest == [] { assert all == c && all[0..] == all; }
  }

  /** On whole blocks both directions leave the same chaining value, so both can be continued. */
  lemma {:induction false} IvAgreesOnWholeBlocks(p: seq<bv8>, iv: Block, w: seq<bv32>, dw: seq<bv32>, nr: nat)
    requires 1 <= nr && 4 * nr + 4 <= |w| && 4 * nr + 4 <= |dw| && WholeBlocks(|p|)
    ensures IvAfterDecrypt(CbcEncrypt(p, iv, w, nr), |p|, iv, dw, nr) == IvAfterEncrypt(p, iv, w, nr)
    decreases |p|
  {
    hide EncryptBlock, DecryptBlock, Whiten;
    if |p| != 0 {
      var c := EncryptBlock(Whiten(p[..16], iv), w, nr);
      var all := CbcEncrypt(p, iv, w, nr);
      assert all[..16] == c && all[16..] == CbcEncrypt(p[16..], c, w, nr);
      IvAgreesOnWholeBlocks(p[16..], c, w, dw, nr);
      IvAfterCons(p, iv, w, nr);
    }
  }

  /** The last input of the cipher, for a message with j whole blocks and a partial one. */
  function LastInput(p: seq<bv8>, iv: Block, w: seq<bv32>, nr: nat, j: nat): Block
    requires 1 <= nr && 4 * nr + 4 <= |w| && 16 * j < |p|
  {
    CbcInput(p, j, Before(CbcEncrypt(p, iv, w, nr), iv, j))
  }

  /** Behind a partial block they do not: encrypting leaves the last block of ciphertext, decrypting the
      padded block that was encrypted to it. */
  lemma {:induction false} IvAfterPartial(p: seq<bv8>, iv: Block, w: seq<bv32>, dw: seq<bv32>, nr: nat, j: nat)
    requires 1 <= nr && 4 * nr + 4 <= |w| && 4 * nr + 4 <= |dw| && IsInverseSchedule(w, dw, nr)
    requires 16 * j < |p| < 16 * j + 16
    ensures IvAfterEncrypt(p, iv, w, nr) == EncryptBlock(LastInput(p, iv, w, nr, j), w, nr)
    ensures IvAfterDecrypt(CbcEncrypt(p, iv, w, nr), |p|, iv, dw, nr) == LastInput(p, iv, w, nr, j)
    decreases j
  {
    hide *;
    if j == 0 {
      IvAfterShort(p, iv, w, dw, nr);
    } else {
      var c := EncryptBlock(Whiten(p[..16], iv), w, nr);
      IvAfterPartial(p[16..], c, w, dw, nr, j - 1);
      IvAfterCons(p, iv, w, nr);
      LastInputCons(p, iv, w, nr, j);
      IvAfterDecryptCons(p, iv, w, dw, nr);
    }
  }

  lemma IvAfterShort(p: seq<bv8>, iv: Block, w: seq<bv32>, dw: seq<bv32>, nr: nat)
    requires 1 <= nr && 4 * nr + 4 <= |w| && 4 * nr + 4 <= |dw| && IsInverseSchedule(w, dw, nr) && 0 < |p| < 16
    ensures IvAfterEncrypt(p, iv, w, nr) == EncryptBlock(LastInput(p, iv, w, nr, 0), w, nr)
    ensures IvAfterDecrypt(CbcEncrypt(p, iv, w, nr), |p|, iv, dw, nr) == LastInput(p, iv, w, nr, 0)
  {
    hide EncryptBlock, DecryptBlock, IsInverseSchedule;
    var all := CbcEncrypt(p, iv, w, nr);
    assert Whiten(p, iv) == CbcInput(p, 0, iv);
    assert all[..16] == all && all[0..] == all;
    hide Whiten, CbcInput;
    DecryptUndoesEncrypt(CbcInput(p, 0, iv), w, dw, nr);
  }

  lemma LastInputCons(p: seq<bv8>, iv: Block, w: seq<bv32>, nr: nat, j: nat)
    requires 1 <= nr && 4 * nr + 4 <= |w| && 0 < j && 16 * j < |p|
    ensures LastInput(p, iv, w, nr, j) == LastInput(p[16..], EncryptBlock(Whiten(p[..16], iv), w, nr), w, nr, j - 1)
  {
    hide EncryptBlock, Whiten;
    var c := EncryptBlock(Whiten(p[..16], iv), w, nr);
    var all, rest := CbcEncrypt(p, iv, w, nr), CbcEncrypt(p[16..], c, w, nr);
    assert all == c + rest;
    hide CbcEncrypt, Padded;
    BehindFirst(c, rest, iv, j);
    CbcInputCons(p, j, Before(rest, c, j - 1));
  }

  lemma IvAfterDecryptCons(p: seq<bv8>, iv: Block, w: seq<bv32>, dw: seq<bv32>, nr: nat)
    requires 1 <= nr && 4 * nr + 4 <= |w| && 4 * nr + 4 <= |dw| && 16 <= |p|
    ensures var c := EncryptBlock(Whiten(p[..16], iv), w, nr);
      IvAfterDecrypt(CbcEncrypt(p, iv, w, nr), |p|, iv, dw, nr) ==
      IvAfterDecrypt(CbcEncrypt(p[16..], c, w, nr), |p| - 16, c, dw, nr)
  {
    hide EncryptBlock, DecryptBlock, Whiten;
    var c := EncryptBlock(Whiten(p[..16], iv), w, nr);
    var all, rest := CbcEncrypt(p, iv, w, nr), CbcEncrypt(p[16..], c, w, nr);
    assert all == c + rest && all[..16] == c && all[16..] == rest;
  }

  // ---------- the program's loops ----------

  /** tmp becomes the whitened data of the next block; only len bytes of input are read. */
  method WhitenInput(tmp: array<bv8>, inp: array<bv8>, off: nat, len: nat, ivec: array<bv8>)
    requires tmp.Length == 16 && ivec.Length == 16 && len <= 16 && off + len <= inp.Length
    requires tmp != inp && tmp != ivec
    modifies tmp
    ensures tmp[..] == Whiten(inp[off..off + len], ivec[..])
  {
    hide Whiten, Add;
    var n := 0;
    while n < len
      invariant 0 <= n <= len
      invariant forall m :: 0 <= m < n ==> tmp[m] == Add(inp[off + m], ivec[m])
    {
      tmp[n] := Add(inp[off + n], ivec[n]);
      n := n + 1;
    }
    n := len;
    while n < 16
      invariant len <= n <= 16
      invariant forall m :: 0 <= m < len ==> tmp[m] == Add(inp[off + m], ivec[m])
      invariant forall m :: len <= m < n ==> tmp[m] == ivec[m]
    {
      tmp[n] := ivec[n];
      n := n + 1;
    }
    IsWhitened(tmp[..], inp[off..off + len], ivec[..]);
  }

  lemma IsWhitened(b: seq<bv8>, p: seq<bv8>, iv: Block)
    requires |b| == 16 && |p| <= 16
    requires forall m :: 0 <= m < |p| ==> b[m] == Add(p[m], iv[m])
    requires forall m :: |p| <= m < 16 ==> b[m] == iv[m]
    ensures b == Whiten(p, iv)
  {
    hide Add;
    var w := Whiten(p, iv);
    assert forall m :: 0 <= m < 16 ==> b[m] == w[m];
  }

  /** Writes len bytes of src, added to the chaining value, at offset off. */
  method WhitenOutput(out: array<bv8>, off: nat, len: nat, src: array<bv8>, soff: nat, ivec: array<bv8>)
    requires ivec.Length == 16 && len <= 16 && off + len <= out.Length && soff + 16 <= src.Length
    requires out != ivec && (src == out ==> soff == off)
    modifies out
    ensures out[off..off + len] == Whiten(old(src[soff..soff + 16]), ivec[..])[..len]
    ensures forall m :: 0 <= m < out.Length && !(off <= m < off + len) ==> out[m] == old(out[m])
  {
    hide Whiten, Add;
    ghost var was, data, iv := out[..], src[soff..soff + 16], ivec[..];
    ghost var whitened := Whiten(data, iv);
    var n := 0;
    while n < len
      invariant 0 <= n <= len && ivec[..] == iv
      invariant forall m :: n <= m < 16 ==> src[soff + m] == data[m]
      invariant forall m :: 0 <= m < n ==> out[off + m] == whitened[m]
      invariant forall m :: 0 <= m < out.Length && !(off <= m < off + n) ==> out[m] == was[m]
    {
      WhitenAt(data, iv, n);
      out[off + n] := Add(src[soff + n], ivec[n]);
      n := n + 1;
    }
    Written(out[..], off, len, whitened);
    assert out[off..off + len] == out[..][off..off + len];
  }

  lemma Written(b: seq<bv8>, off: nat, len: nat, w: seq<bv8>)
    requires off + len <= |b| && len <= |w| && forall m :: 0 <= m < len ==> b[off + m] == w[m]
    ensures b[off..off + len] == w[..len]
  {}

  lemma WhitenAt(p: seq<bv8>, iv: Block, n: nat)
    requires n < |p| <= 16
    ensures Whiten(p, iv)[n] == Add(p[n], iv[n])
  {}

  method Copy16(dst: array<bv8>, d: nat, src: array<bv8>, o: nat)
    requires d + 16 <= dst.Length && o + 16 <= src.Length && dst != src
    modifies dst
    ensures dst[d..d + 16] == src[o..o + 16]
    ensures forall m :: 0 <= m < dst.Length && !(d <= m < d + 16) ==> dst[m] == old(dst[m])
  {
    forall m | 0 <= m < 16 {
      dst[d + m] := src[o + m];
    }
  }

  /** Encrypts the next len bytes, at most one block, and chains the ciphertext. */
  method EncryptNext(inp: array<bv8>, out: array<bv8>, off: nat, len: nat, key: AesKey, ivec: array<bv8>)
    requires Usable(key) && ivec.Length == 16 && ivec != out && ivec != inp
    requires 0 < len <= 16 && off + len <= inp.Length && off + 16 <= out.Length
    modifies out, ivec
    ensures ivec[..] == EncryptBlock(Whiten(old(inp[off..off + len]), old(ivec[..])), key.rdKey[..], key.rounds)
    ensures out[off..off + 16] == ivec[..]
    ensures forall m :: 0 <= m < out.Length && !(off <= m < off + 16) ==> out[m] == old(out[m])
  {
    hide EncryptBlock, Whiten;
    var tmp := new bv8[16];
    WhitenInput(tmp, inp, off, len, ivec);
    if len == 16 {
      assert tmp[0..16] == tmp[..];
      Encrypt(tmp, 0, out, off, key);
      Copy16(ivec, 0, out, off);
    } else {
      assert tmp[0..16] == tmp[..];
      Encrypt(tmp, 0, tmp, 0, key);
      Copy16(out, off, tmp, 0);
      Copy16(ivec, 0, tmp, 0);
    }
    assert ivec[..] == ivec[0..16];
  }

  /** Where encryption stands: the ciphertext so far has been written, and the rest of the text will give
      the rest of it. */
  ghost predicate Encrypting(inp: seq<bv8>, out: seq<bv8>, off: nat, end: nat, iv: Block, w: seq<bv32>, nr: nat,
                             total: seq<bv8>, last: Block)
    requires 1 <= nr && 4 * nr + 4 <= |w|
  {
    && off <= end <= |inp| && off <= |out|
    && total == out[..off] + CbcEncrypt(inp[off..end], iv, w, nr)
    && last == IvAfterEncrypt(inp[off..end], iv, w, nr)
  }

  /** One whole block further. */
  lemma EncryptingStep(inp: seq<bv8>, inp': seq<bv8>, out: seq<bv8>, out': seq<bv8>, off: nat, end: nat, iv: Block,
                       iv': Block, w: seq<bv32>, nr: nat, total: seq<bv8>, last: Block)
    requires 1 <= nr && 4 * nr + 4 <= |w| && off + 16 <= end && |inp'| == |inp| && |out'| == |out| && off + 16 <= |out|
    requires Encrypting(inp, out, off, end, iv, w, nr, total, last)
    requires forall m :: off + 16 <= m < |inp| ==> inp'[m] == inp[m]
    requires out'[..off] == out[..off] && out'[off..off + 16] == iv'
    requires iv' == EncryptBlock(Whiten(inp[off..off + 16], iv), w, nr)
    ensures Encrypting(inp', out', off + 16, end, iv', w, nr, total, last)
  {
    hide EncryptBlock, Whiten, IvAfterEncrypt, CbcEncrypt;
    var q := inp[off..end];
    Front(inp, off, end, q);
    CbcCons(q, iv, w, nr);
    assert inp'[off + 16..end] == inp[off + 16..end];
    assert out'[..off + 16] == out'[..off] + out'[off..off + 16];
    Assoc(out[..off], iv', CbcEncrypt(q[16..], iv', w, nr));
  }

  /** The loop over whole blocks of the encrypting branch. */
  method EncryptWholeBlocks(inp: array<bv8>, out: array<bv8>, length: nat, key: AesKey, ivec: array<bv8>,
                            ghost total: seq<bv8>, ghost last: Block) returns (off: nat)
    requires Usable(key) && ivec.Length == 16 && ivec != out && ivec != inp
    requires length <= inp.Length && Padded(length) <= out.Length
    requires Encrypting(inp[..], out[..], 0, length, ivec[..], key.rdKey[..], key.rounds, total, last)
    modifies out, ivec
    ensures off <= length < off + 16 && Padded(length) == off + Padded(length - off)
    ensures Encrypting(inp[..], out[..], off, length, ivec[..], key.rdKey[..], key.rounds, total, last)
    ensures forall m :: off <= m < inp.Length ==> inp[m] == old(inp[m])
    ensures forall m :: off <= m < out.Length ==> out[m] == old(out[m])
  {
    hide EncryptBlock, Whiten, Encrypting;
    ghost var w := key.rdKey[..];
    var len: nat := length;
    off := 0;
    while 16 <= len
      invariant off + len == length && Padded(length) == off + Padded(len) && key.rdKey[..] == w
      invariant Encrypting(inp[..], out[..], off, length, ivec[..], w, key.rounds, total, last)
      invariant forall m :: off <= m < inp.Length ==> inp[m] == old(inp[m])
      invariant forall m :: off <= m < out.Length ==> out[m] == old(out[m])
    {
      ghost var inp0, out0, iv0 := inp[..], out[..], ivec[..];
      assert inp0[off..off + 16] == inp[off..off + 16];
      EncryptNext(inp, out, off, 16, key, ivec);
      assert key.rdKey[..] == w && out[..][off..off + 16] == ivec[..];
      EncryptingStep(inp0, inp[..], out0, out[..], off, length, iv0, ivec[..], w, key.rounds, total, last);
      len := len - 16;
      off := off + 16;
    }
  }

  /** AES_cbc_encrypt with enc set.  The buffers are the same or disjoint; the output has room for
      the padded length and nothing beyond that length is written. */
  method CbcEncryptBuffer(inp: array<bv8>, out: array<bv8>, length: nat, key: AesKey, ivec: array<bv8>)
    requires Usable(key) && ivec.Length == 16 && ivec != out && ivec != inp
    requires length <= inp.Length && Padded(length) <= out.Length
    modifies out, ivec
    ensures out[..Padded(length)] == CbcEncrypt(old(inp[..length]), old(ivec[..]), key.rdKey[..], key.rounds)
    ensures ivec[..] == IvAfterEncrypt(old(inp[..length]), old(ivec[..]), key.rdKey[..], key.rounds)
    ensures forall m :: Padded(length) <= m < out.Length ==> out[m] == old(out[m])
  {
    hide EncryptBlock, Whiten, IvAfterEncrypt, CbcEncrypt, Encrypting;
    ghost var p, nr := inp[..length], key.rounds;
    ghost var total, last := CbcEncrypt(p, ivec[..], key.rdKey[..], nr), IvAfterEncrypt(p, ivec[..], key.rdKey[..], nr);
    ghost var w := key.rdKey[..];
    EncryptingStart(inp[..], out[..], length, ivec[..], w, nr);
    var off := EncryptWholeBlocks(inp, out, length, key, ivec, total, last);
    assert key.rdKey[..] == w;
    EncryptRest(inp, out, off, length, key, ivec, total, last);
    assert key.rdKey[..] == w;
  }

  lemma EncryptingStart(inp: seq<bv8>, out: seq<bv8>, length: nat, iv: Block, w: seq<bv32>, nr: nat)
    requires 1 <= nr && 4 * nr + 4 <= |w| && length <= |inp|
    ensures Encrypting(inp, out, 0, length, iv, w, nr,
                       CbcEncrypt(inp[..length], iv, w, nr), IvAfterEncrypt(inp[..length], iv, w, nr))
  {
    hide CbcEncrypt, IvAfterEncrypt;
    assert inp[0..length] == inp[..length];
    var total := CbcEncrypt(inp[..length], iv, w, nr);
    assert out[..0] + total == total;
  }

  lemma EncryptingEnd(inp: seq<bv8>, out: seq<bv8>, off: nat, end: nat, iv: Block, w: seq<bv32>, nr: nat,
                      total: seq<bv8>, last: Block)
    requires 1 <= nr && 4 * nr + 4 <= |w| && end < off + 16
    requires Encrypting(inp, out, off, end, iv, w, nr, total, last)
    ensures off == end ==> total == out[..off] && last == iv
    ensures off < end ==> var c := EncryptBlock(Whiten(inp[off..end], iv), w, nr); total == out[..off] + c && last == c
  {
    hide EncryptBlock, Whiten, CbcEncrypt, IvAfterEncrypt;
    CbcLast(inp[off..end], iv, w, nr);
  }

  /** The partial block at the end, if there is one. */
  method EncryptRest(inp: array<bv8>, out: array<bv8>, off: nat, length: nat, key: AesKey, ivec: array<bv8>,
                     ghost total: seq<bv8>, ghost last: Block)
    requires Usable(key) && ivec.Length == 16 && ivec != out && ivec != inp
    requires off <= length < off + 16 && length <= inp.Length && off + Padded(length - off) <= out.Length
    requires Encrypting(inp[..], out[..], off, length, ivec[..], key.rdKey[..], key.rounds, total, last)
    modifies out, ivec
    ensures out[..off + Padded(length - off)] == total && ivec[..] == last
    ensures forall m :: off + Padded(length - off) <= m < out.Length ==> out[m] == old(out[m])
  {
    hide EncryptBlock, Whiten, Encrypting;
    EncryptingEnd(inp[..], out[..], off, length, ivec[..], key.rdKey[..], key.rounds, total, last);
    if off < length {
      ghost var done := out[..off];
      assert inp[..][off..length] == inp[off..off + (length - off)];
      EncryptNext(inp, out, off, length - off, key, ivec);
      assert out[..off + 16] == done + out[off..off + 16] by { assert out[..off] == done; }
    }
  }

  lemma Front(s: seq<bv8>, off: nat, end: nat, q: seq<bv8>)
    requires off + 16 <= end <= |s| && s[off..end] == q
    ensures s[off..off + 16] == q[..16] && s[off + 16..end] == q[16..]
  {
    assert s[off..end][..16] == s[off..off + 16] && s[off..end][16..] == s[off + 16..end];
  }

  lemma CbcCons(q: seq<bv8>, iv: Block, w: seq<bv32>, nr: nat)
    requires 1 <= nr && 4 * nr + 4 <= |w| && 16 <= |q|
    ensures var c := EncryptBlock(Whiten(q[..16], iv), w, nr);
            && CbcEncrypt(q, iv, w, nr) == c + CbcEncrypt(q[16..], c, w, nr)
            && IvAfterEncrypt(q, iv, w, nr) == IvAfterEncrypt(q[16..], c, w, nr)
  {
    hide EncryptBlock, Whiten, IvAfterEncrypt;
    IvAfterCons(q, iv, w, nr);
  }

  lemma CbcLast(q: seq<bv8>, iv: Block, w: seq<bv32>, nr: nat)
    requires 1 <= nr && 4 * nr + 4 <= |w| && |q| < 16
    ensures CbcEncrypt(q, iv, w, nr) == if q == [] then [] else EncryptBlock(Whiten(q, iv), w, nr)
    ensures IvAfterEncrypt(q, iv, w, nr) == if q == [] then iv else EncryptBlock(Whiten(q, iv), w, nr)
  {
    hide EncryptBlock, Whiten;
  }

  /** Decrypts the next len bytes, at most one block.  The chaining value becomes the ciphertext
      block after a whole block and the decrypted block after a partial one. */
  method DecryptNext(inp: array<bv8>, out: array<bv8>, off: nat, len: nat, key: AesKey, ivec: array<bv8>)
    requires Usable(key) && ivec.Length == 16 && ivec != out && ivec != inp
    requires 0 < len <= 16 && off + 16 <= inp.Length && off + len <= out.Length
    modifies out, ivec
    ensures var plain := DecryptBlock(old(inp[off..off + 16]), key.rdKey[..], key.rounds);
            && out[off..off + len] == Whiten(plain, old(ivec[..]))[..len]
            && ivec[..] == if len == 16 then old(inp[off..off + 16]) else plain
    ensures forall m :: 0 <= m < out.Length && !(off <= m < off + len) ==> out[m] == old(out[m])
  {
    hide DecryptBlock, Whiten;
    ghost var c, w := inp[off..off + 16], key.rdKey[..];
    var tmp := new bv8[16];
    Copy16(tmp, 0, inp, off);
    assert tmp[..] == tmp[0..16] == c;
    if len == 16 {
      Decrypt(inp, off, out, off, key);
      assert key.rdKey[..] == w;
      WhitenOutput(out, off, 16, out, off, ivec);
    } else {
      Decrypt(tmp, 0, tmp, 0, key);
      assert key.rdKey[..] == w;
      assert tmp[0..16] == tmp[..];
      WhitenOutput(out, off, len, tmp, 0, ivec);
    }
    Copy16(ivec, 0, tmp, 0);
    assert ivec[..] == ivec[0..16];
  }

  /** Where decryption stands: done has been written, and the rest of the ciphertext will give the rest. */
  ghost predicate Decrypting(inp: seq<bv8>, out: seq<bv8>, off: nat, len: nat, iv: Block, w: seq<bv32>, nr: nat,
                             total: seq<bv8>, last: Block)
    requires 1 <= nr && 4 * nr + 4 <= |w|
  {
    && off + Padded(len) <= |inp| && off <= |out|
    && total == out[..off] + CbcDecrypt(inp[off..off + Padded(len)], len, iv, w, nr)
    && last == IvAfterDecrypt(inp[off..off + Padded(len)], len, iv, w, nr)
  }

  /** One whole block further. */
  lemma DecryptingStep(inp: seq<bv8>, inp': seq<bv8>, out: seq<bv8>, out': seq<bv8>, off: nat, len: nat, iv: Block,
                       w: seq<bv32>, nr: nat, total: seq<bv8>, last: Block)
    requires 1 <= nr && 4 * nr + 4 <= |w| && 16 <= len && |inp'| == |inp| && |out'| == |out| && off + 16 <= |out|
    requires Decrypting(inp, out, off, len, iv, w, nr, total, last)
    requires forall m :: off + 16 <= m < |inp| ==> inp'[m] == inp[m]
    requires out'[..off] == out[..off]
    requires out'[off..off + 16] == Whiten(DecryptBlock(inp[off..off + 16], w, nr), iv)[..16]
    ensures Decrypting(inp', out', off + 16, len - 16, inp[off..off + 16], w, nr, total, last)
  {
    hide DecryptBlock, Whiten, IvAfterDecrypt, CbcDecrypt;
    var end := off + Padded(len);
    var q := inp[off..end];
    assert Padded(len) == 16 + Padded(len - 16);
    Front(inp, off, end, q);
    DecryptCons(q, len, iv, w, nr);
    assert inp'[off + 16..end] == inp[off + 16..end];
    assert out'[..off + 16] == out'[..off] + out'[off..off + 16];
    Assoc(out[..off], out'[off..off + 16], CbcDecrypt(q[16..], len - 16, q[..16], w, nr));
  }

  /** The loop over whole blocks of the decrypting branch. */
  method DecryptWholeBlocks(inp: array<bv8>, out: array<bv8>, length: nat, key: AesKey, ivec: array<bv8>,
                            ghost total: seq<bv8>, ghost last: Block) returns (off: nat)
    requires Usable(key) && ivec.Length == 16 && ivec != out && ivec != inp
    requires Padded(length) <= inp.Length && length <= out.Length
    requires Decrypting(inp[..], out[..], 0, length, ivec[..], key.rdKey[..], key.rounds, total, last)
    modifies out, ivec
    ensures off <= length < off + 16 && Padded(length) == off + Padded(length - off)
    ensures Decrypting(inp[..], out[..], off, length - off, ivec[..], key.rdKey[..], key.rounds, total, last)
    ensures forall m :: off <= m < out.Length ==> out[m] == old(out[m])
  {
    hide DecryptBlock, Whiten, Decrypting;
    ghost var w := key.rdKey[..];
    var len: nat := length;
    off := 0;
    while 16 <= len
      invariant off + len == length && Padded(length) == off + Padded(len) && key.rdKey[..] == w
      invariant Decrypting(inp[..], out[..], off, len, ivec[..], w, key.rounds, total, last)
      invariant forall m :: off <= m < out.Length ==> out[m] == old(out[m])
    {
      ghost var inp0, out0, iv0 := inp[..], out[..], ivec[..];
      assert inp0[off..off + 16] == inp[off..off + 16];
      DecryptNext(inp, out, off, 16, key, ivec);
      assert key.rdKey[..] == w && out[..][off..off + 16] == out[off..off + 16];
      DecryptingStep(inp0, inp[..], out0, out[..], off, len, iv0, w, key.rounds, total, last);
      len := len - 16;
      off := off + 16;
    }
  }

  /** AES_cbc_encrypt with enc clear.  Exactly length bytes are written. */
  method CbcDecryptBuffer(inp: array<bv8>, out: array<bv8>, length: nat, key: AesKey, ivec: array<bv8>)
    requires Usable(key) && ivec.Length == 16 && ivec != out && ivec != inp
    requires Padded(length) <= inp.Length && length <= out.Length
    modifies out, ivec
    ensures out[..length] == CbcDecrypt(old(inp[..Padded(length)]), length, old(ivec[..]), key.rdKey[..], key.rounds)
    ensures ivec[..] == IvAfterDecrypt(old(inp[..Padded(length)]), length, old(ivec[..]), key.rdKey[..], key.rounds)
    ensures forall m :: length <= m < out.Length ==> out[m] == old(out[m])
  {
    hide DecryptBlock, Whiten, IvAfterDecrypt, CbcDecrypt, Decrypting;
    ghost var c, w, nr := inp[..Padded(length)], key.rdKey[..], key.rounds;
    ghost var total, last := CbcDecrypt(c, length, ivec[..], w, nr), IvAfterDecrypt(c, length, ivec[..], w, nr);
    DecryptingStart(inp[..], out[..], length, ivec[..], w, nr);
    var off := DecryptWholeBlocks(inp, out, length, key, ivec, total, last);
    assert key.rdKey[..] == w;
    DecryptRest(inp, out, off, length, key, ivec, total, last);
    assert key.rdKey[..] == w;
  }

  lemma DecryptingStart(inp: seq<bv8>, out: seq<bv8>, length: nat, iv: Block, w: seq<bv32>, nr: nat)
    requires 1 <= nr && 4 * nr + 4 <= |w| && Padded(length) <= |inp|
    ensures var c := inp[..Padded(length)];
      Decrypting(inp, out, 0, length, iv, w, nr, CbcDecrypt(c, length, iv, w, nr), IvAfterDecrypt(c, length, iv, w, nr))
  {
    hide CbcDecrypt, IvAfterDecrypt;
    assert inp[0..0 + Padded(length)] == inp[..Padded(length)];
    var total := CbcDecrypt(inp[..Padded(length)], length, iv, w, nr);
    assert out[..0] + total == total;
  }

  /** The partial block at the end, if there is one. */
  method DecryptRest(inp: array<bv8>, out: array<bv8>, off: nat, length: nat, key: AesKey, ivec: array<bv8>,
                     ghost total: seq<bv8>, ghost last: Block)
    requires Usable(key) && ivec.Length == 16 && ivec != out && ivec != inp
    requires off <= length < off + 16 && length <= out.Length
    requires Decrypting(inp[..], out[..], off, length - off, ivec[..], key.rdKey[..], key.rounds, total, last)
    modifies out, ivec
    ensures out[..length] == total && ivec[..] == last
    ensures forall m :: length <= m < out.Length ==> out[m] == old(out[m])
  {
    hide DecryptBlock, Whiten, CbcDecrypt, IvAfterDecrypt;
    ghost var q := inp[..][off..off + Padded(length - off)];
    DecryptLast(q, length - off, ivec[..], key.rdKey[..], key.rounds);
    if off < length {
      ghost var done := out[..off];
      assert q[..16] == inp[off..off + 16];
      DecryptNext(inp, out, off, length - off, key, ivec);
      assert out[..length] == done + out[off..length] by { assert out[..off] == done; }
    }
  }

  lemma DecryptCons(q: seq<bv8>, len: nat, iv: Block, dw: seq<bv32>, nr: nat)
    requires 1 <= nr && 4 * nr + 4 <= |dw| && 16 <= len && |q| == Padded(len)
    ensures CbcDecrypt(q, len, iv, dw, nr) ==
            Whiten(DecryptBlock(q[..16], dw, nr), iv)[..16] + CbcDecrypt(q[16..], len - 16, q[..16], dw, nr)
    ensures IvAfterDecrypt(q, len, iv, dw, nr) == IvAfterDecrypt(q[16..], len - 16, q[..16], dw, nr)
  {
    hide DecryptBlock, Whiten;
  }

  lemma DecryptLast(q: seq<bv8>, len: nat, iv: Block, dw: seq<bv32>, nr: nat)
    requires 1 <= nr && 4 * nr + 4 <= |dw| && len < 16 && |q| == Padded(len)
    ensures CbcDecrypt(q, len, iv, dw, nr) == if len == 0 then [] else Whiten(DecryptBlock(q[..16], dw, nr), iv)[..len]
    ensures IvAfterDecrypt(q, len, iv, dw, nr) == if len == 0 then iv else DecryptBlock(q[..16], dw, nr)
  {
    hide DecryptBlock, Whiten;
  }
}
