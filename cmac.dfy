/**
 * AES-CMAC (RFC 4493) as aes_crypt/lib/aes_cmac.cpp computes it, and the
 * older copies in aes-crypt/lib/aes_cmac.cpp and
 * aes-crypt/arduino_aes/aes_crypt.cpp, which expand a fixed built-in key
 * instead of using a caller's schedule.
 *
 * Mac states the algorithm of RFC 4493 section 2.4 on whole buffers; the
 * methods keep the C code's 16-byte work arrays (L, K1, K2, M_last, X, Y)
 * and are proved to compute it.
 */
module Cmac {
  import opened Bytes
  import opened Aes
  import opened AesBlock
  import Cbc

  /** verifyAesCMac's results. */
  const CMAC_VALID: int := 1
  const CMAC_INVALID: int := 0

  /** The built-in key of the older copies (pKey), the key of FIPS-197
    * Appendix B. */
  const PKEY: seq<byte> := [0x2b, 0x7e, 0x15, 0x16, 0x28, 0xae, 0xd2, 0xa6,
                            0xab, 0xf7, 0x15, 0x88, 0x09, 0xcf, 0x4f, 0x3c]

  /** constRb: fifteen zero bytes, then 0x87. */
  function ConstRb(): (r: seq<byte>)
    ensures |r| == BLOCK_BYTE_SIZE
    ensures r[BLOCK_BYTE_SIZE - 1] == 0x87 && forall i :: 0 <= i < BLOCK_BYTE_SIZE - 1 ==> r[i] == 0
  {
    Fill(15, 0) + [0x87]
  }

  // ------------------------------------------------------------ subkeys

  /** s shifted left by one bit as a big-endian bit string, with the bit c
    * shifted in at the bottom: byte i takes the top bit of byte i + 1. */
  function ShiftIn(s: seq<byte>, c: byte): (r: seq<byte>)
    ensures |r| == |s|
  {
    seq(|s|, i requires 0 <= i < |s| => ShiftedByte(s, i, c))
  }

  /** Byte i of ShiftIn(s, c). */
  function ShiftedByte(s: seq<byte>, i: nat, c: byte): byte
    requires i < |s|
  {
    (s[i] << 1) | (if i + 1 < |s| then s[i + 1] >> 7 else c)
  }

  /** leftShiftKey on a block: a zero comes in at the bottom. */
  function ShiftLeft(b: seq<byte>): (r: seq<byte>)
    requires |b| == BLOCK_BYTE_SIZE
    ensures |r| == BLOCK_BYTE_SIZE
  {
    ShiftIn(b, 0)
  }

  /** The number a buffer holds, most significant byte first. */
  function BigEndian(s: seq<byte>): nat
  {
    if |s| == 0 then 0 else BigEndian(s[..|s| - 1]) * 256 + s[|s| - 1] as nat
  }

  function Pow256(n: nat): (p: nat)
    ensures p > 0
  {
    if n == 0 then 1 else 256 * Pow256(n - 1)
  }

  /** expandMacKey: RFC 4493 section 2.3's step from L to K1 and from K1
    * to K2: shift left by one bit, and xor constRb in when the bit shifted
    * out was set. */
  function Subkey(k: seq<byte>): (r: seq<byte>)
    requires |k| == BLOCK_BYTE_SIZE
    ensures |r| == BLOCK_BYTE_SIZE
  {
    if k[0] & 0x80 != 0 then Xor(ShiftLeft(k), ConstRb()) else ShiftLeft(k)
  }

  /** The bit ShiftIn(s, c) shifts out at the top: the top bit of the
    * first byte, or c itself when s is empty. */
  function OutBit(s: seq<byte>, c: byte): byte
  {
    if |s| == 0 then c else s[0] >> 7
  }

  /** The byte fact behind a one-bit shift: twice x plus the incoming bit
    * is the outgoing bit followed by the shifted byte. */
  lemma ShiftByte(x: byte, c: byte)
    requires c <= 1
    ensures 2 * x as nat + c as nat == 256 * (x >> 7) as nat + ((x << 1) | c) as nat
  {
  }

  /** ShiftIn doubles the big-endian number and adds the incoming bit;
    * the bit that does not fit is OutBit. */
  lemma {:induction false} ShiftInValue(s: seq<byte>, c: byte)
    requires c <= 1
    ensures BigEndian(ShiftIn(s, c)) + Pow256(|s|) * OutBit(s, c) as nat == 2 * BigEndian(s) + c as nat
    decreases |s|
  {
    if |s| > 0 {
      var init := s[..|s| - 1];
      var x := s[|s| - 1];
      ShiftInLast(s, c);
      ShiftInValue(init, x >> 7);
      ShiftByte(x, c);
      CarryArithmetic(BigEndian(ShiftIn(s, c)), BigEndian(ShiftIn(init, x >> 7)), BigEndian(init),
                      Pow256(|init|), OutBit(s, c) as nat, (x >> 7) as nat, ((x << 1) | c) as nat,
                      x as nat, c as nat);
    }
  }

  /** The last byte of ShiftIn(s, c) is the last byte of s shifted, with c
    * coming in; the rest is the rest of s shifted, with the top bit of
    * that last byte coming in. */
  lemma ShiftInLast(s: seq<byte>, c: byte)
    requires |s| > 0
    ensures BigEndian(ShiftIn(s, c))
         == BigEndian(ShiftIn(s[..|s| - 1], s[|s| - 1] >> 7)) * 256 + ((s[|s| - 1] << 1) | c) as nat
    ensures OutBit(s, c) == OutBit(s[..|s| - 1], s[|s| - 1] >> 7)
  {
    var r := ShiftIn(s, c);
    ShiftInPrefix(s, c);
    assert r[..|r| - 1] == ShiftIn(s[..|s| - 1], s[|s| - 1] >> 7);
  }

  /** The integer step of ShiftInValue. */
  lemma CarryArithmetic(b: nat, bi: nat, v: nat, p: nat, t: nat, h: nat, low: nat, x: nat, c: nat)
    requires b == bi * 256 + low
    requires bi + p * t == 2 * v + h
    requires 2 * x + c == 256 * h + low
    ensures b + (256 * p) * t == 2 * (v * 256 + x) + c
  {
    assert (256 * p) * t == 256 * (p * t);
  }

  /** Dropping the last byte before or after the shift: the last byte of
    * s becomes the incoming bit of the rest. */
  lemma ShiftInPrefix(s: seq<byte>, c: byte)
    requires |s| > 0
    ensures ShiftIn(s, c)[..|s| - 1] == ShiftIn(s[..|s| - 1], s[|s| - 1] >> 7)
  {
    var init := s[..|s| - 1];
    forall i | 0 <= i < |init|
      ensures ShiftedByte(s, i, c) == ShiftedByte(init, i, s[|s| - 1] >> 7)
    {
    }
  }

  /** leftShiftKey doubles the 128-bit number the block holds; the top
    * bit of the first byte is the bit shifted out. */
  lemma ShiftLeftDoubles(b: seq<byte>)
    requires |b| == BLOCK_BYTE_SIZE
    ensures BigEndian(ShiftLeft(b)) + Pow256(BLOCK_BYTE_SIZE) * (b[0] >> 7) as nat == 2 * BigEndian(b)
  {
    ShiftInValue(b, 0);
  }

  /** With the subkey values of RFC 4493 section 4: L gives K1, and K1
    * gives K2. */
  lemma SubkeyVectorK1()
    ensures Subkey([0x7d, 0xf7, 0x6b, 0x0c, 0x1a, 0xb8, 0x99, 0xb3,
                    0x3e, 0x42, 0xf0, 0x47, 0xb9, 0x1b, 0x54, 0x6f])
         == [0xfb, 0xee, 0xd6, 0x18, 0x35, 0x71, 0x33, 0x66,
             0x7c, 0x85, 0xe0, 0x8f, 0x72, 0x36, 0xa8, 0xde]
  {
    var l: seq<byte> := [0x7d, 0xf7, 0x6b, 0x0c, 0x1a, 0xb8, 0x99, 0xb3,
                         0x3e, 0x42, 0xf0, 0x47, 0xb9, 0x1b, 0x54, 0x6f];
    assert l[0] & 0x80 == 0;
    assert ShiftLeft(l) == [0xfb, 0xee, 0xd6, 0x18, 0x35, 0x71, 0x33, 0x66,
                            0x7c, 0x85, 0xe0, 0x8f, 0x72, 0x36, 0xa8, 0xde];
  }

  lemma SubkeyVectorK2()
    ensures Subkey([0xfb, 0xee, 0xd6, 0x18, 0x35, 0x71, 0x33, 0x66,
                    0x7c, 0x85, 0xe0, 0x8f, 0x72, 0x36, 0xa8, 0xde])
         == [0xf7, 0xdd, 0xac, 0x30, 0x6a, 0xe2, 0x66, 0xcc,
             0xf9, 0x0b, 0xc1, 0x1e, 0xe4, 0x6d, 0x51, 0x3b]
  {
    var k1: seq<byte> := [0xfb, 0xee, 0xd6, 0x18, 0x35, 0x71, 0x33, 0x66,
                          0x7c, 0x85, 0xe0, 0x8f, 0x72, 0x36, 0xa8, 0xde];
    var shifted: seq<byte> := [0xf7, 0xdd, 0xac, 0x30, 0x6a, 0xe2, 0x66, 0xcc,
                               0xf9, 0x0b, 0xc1, 0x1e, 0xe4, 0x6d, 0x51, 0xbc];
    assert ShiftLeft(k1) == shifted;
    var k2 := Xor(shifted, ConstRb());
    assert k2[..15] == shifted[..15];
    assert k2[15] == 0x3b;
  }

  // ------------------------------------------------------------ padding

  /** The pad byte: the single '1' bit that starts the padding. */
  const PAD_BYTE: byte := 0x80

  /** padding(lastb, pad, length): the first length bytes of lastb, then
    * 0x80, then zeros, sixteen bytes in all; a length of 16 or more copies
    * sixteen bytes and adds no padding. */
  function Pad(lastb: seq<byte>, length: nat): (r: seq<byte>)
    requires length < BLOCK_BYTE_SIZE ==> length <= |lastb|
    requires length >= BLOCK_BYTE_SIZE ==> BLOCK_BYTE_SIZE <= |lastb|
    ensures |r| == BLOCK_BYTE_SIZE
    ensures length < BLOCK_BYTE_SIZE ==> r == lastb[..length] + [PAD_BYTE] + Fill(BLOCK_BYTE_SIZE - 1 - length, 0)
    ensures length >= BLOCK_BYTE_SIZE ==> r == lastb[..BLOCK_BYTE_SIZE]
  {
    seq(BLOCK_BYTE_SIZE, i requires 0 <= i < BLOCK_BYTE_SIZE =>
      if i < length then lastb[i] else if i == length then PAD_BYTE else 0)
  }

  /** The padding is unambiguous: a padded block determines how many
    * message bytes it holds and what they are. */
  lemma PadUnambiguous(a: seq<byte>, la: nat, b: seq<byte>, lb: nat)
    requires la < BLOCK_BYTE_SIZE && la <= |a| && lb < BLOCK_BYTE_SIZE && lb <= |b|
    requires Pad(a, la) == Pad(b, lb)
    ensures la == lb && a[..la] == b[..lb]
  {
    assert Pad(a, la)[la] == PAD_BYTE && Pad(b, lb)[lb] == PAD_BYTE;
    assert a[..la] == Pad(a, la)[..la];
    assert b[..lb] == Pad(b, lb)[..lb];
  }

  // ------------------------------------------------------------ the MAC

  /** RFC 4493 step 2 and 3: n = ceil(len / 16) blocks, and one
    * (incomplete) block for the empty message. */
  function MacBlockCount(len: nat): (n: nat)
    ensures 1 <= n && len <= BLOCK_BYTE_SIZE * n
    ensures len > 0 ==> BLOCK_BYTE_SIZE * (n - 1) < len
  {
    if len == 0 then 1 else (len + BLOCK_BYTE_SIZE - 1) / BLOCK_BYTE_SIZE
  }

  /** The last block needs no padding: the message is a non-empty whole
    * number of blocks. */
  predicate Complete(len: nat)
  {
    len > 0 && len % BLOCK_BYTE_SIZE == 0
  }

  /** The last block starts at 16 (n - 1) and holds the rest of the
    * message: sixteen bytes when complete, len % 16 otherwise. */
  lemma LastBlockBounds(len: nat)
    ensures BLOCK_BYTE_SIZE * (MacBlockCount(len) - 1) + (if Complete(len) then BLOCK_BYTE_SIZE else len % BLOCK_BYTE_SIZE) == len
  {
    if len > 0 {
      assert (len + BLOCK_BYTE_SIZE - 1) / BLOCK_BYTE_SIZE == len / BLOCK_BYTE_SIZE + (if len % BLOCK_BYTE_SIZE == 0 then 0 else 1);
    }
  }

  /** RFC 4493 step 4: M_last, the last block xor K1 when it is complete,
    * the padded last block xor K2 when it is not. */
  function LastBlock(m: seq<byte>, len: nat, k1: seq<byte>, k2: seq<byte>): (r: seq<byte>)
    requires len <= |m| && |k1| == BLOCK_BYTE_SIZE && |k2| == BLOCK_BYTE_SIZE
    ensures |r| == BLOCK_BYTE_SIZE
  {
    LastBlockBounds(len);
    var o := BLOCK_BYTE_SIZE * (MacBlockCount(len) - 1);
    if Complete(len) then Xor(m[o .. o + BLOCK_BYTE_SIZE], k1)
    else Xor(Pad(m[o..], len % BLOCK_BYTE_SIZE), k2)
  }

  /** RFC 4493 steps 5 and 6: X after the first i blocks, X_0 = 0 and
    * X_(j+1) = AES(K, X_j xor M_j). The recursion passes through CbcMacMid
    * so that X after i blocks stays a single term in the proofs about the
    * loop; CbcMacIs unfolds one step. */
  function CbcMac(m: seq<byte>, i: nat, keys: seq<byte>): (x: seq<byte>)
    requires BLOCK_BYTE_SIZE * i <= |m| && |keys| == SCHEDULE_SIZE
    ensures |x| == BLOCK_BYTE_SIZE
    decreases i, 2
  {
    CbcMacMid(m, i, keys)
  }

  function CbcMacMid(m: seq<byte>, i: nat, keys: seq<byte>): (x: seq<byte>)
    requires BLOCK_BYTE_SIZE * i <= |m| && |keys| == SCHEDULE_SIZE
    ensures |x| == BLOCK_BYTE_SIZE
    decreases i, 1
  {
    CbcMacStepOf(m, i, keys)
  }

  function CbcMacStepOf(m: seq<byte>, i: nat, keys: seq<byte>): (x: seq<byte>)
    requires BLOCK_BYTE_SIZE * i <= |m| && |keys| == SCHEDULE_SIZE
    ensures |x| == BLOCK_BYTE_SIZE
    decreases i, 0
  {
    if i == 0 then Fill(BLOCK_BYTE_SIZE, 0)
    else Encrypt(Xor(CbcMac(m, i - 1, keys), Cbc.BlockOf(m, i - 1)), keys)
  }

  /** One step of CbcMac. */
  lemma CbcMacIs(m: seq<byte>, i: nat, keys: seq<byte>)
    requires BLOCK_BYTE_SIZE * i <= |m| && |keys| == SCHEDULE_SIZE
    ensures CbcMac(m, i, keys) == if i == 0 then Fill(BLOCK_BYTE_SIZE, 0)
      else Encrypt(Xor(CbcMac(m, i - 1, keys), Cbc.BlockOf(m, i - 1)), keys)
  {
    assert CbcMac(m, i, keys) == CbcMacMid(m, i, keys);
    assert CbcMacMid(m, i, keys) == CbcMacStepOf(m, i, keys);
  }

  /** L = AES-K(0^128), the value both subkeys derive from. It is written
    * on EncryptAt directly, recursing on the first round-key byte, because
    * Encrypt recurses on the first block byte, which for the zero block is
    * known and would expose the whole cipher in every proof about Mac. */
  function SubkeyBase(keys: seq<byte>): (l: seq<byte>)
    requires |keys| == SCHEDULE_SIZE
    ensures |l| == BLOCK_BYTE_SIZE
  {
    EncryptAt(Fill(BLOCK_BYTE_SIZE, 0), keys, keys[0])
  }

  /** A buffer after EncryptBlock of the zero block holds L. */
  lemma SubkeyBaseBytes(p: seq<byte>, keys: seq<byte>)
    requires |p| == BLOCK_BYTE_SIZE && |keys| == SCHEDULE_SIZE
    requires BlockAt(p, 0) == Cipher(BlockAt(Fill(BLOCK_BYTE_SIZE, 0), 0), keys)
    ensures p == SubkeyBase(keys)
  {
    EncryptLeafIs(Fill(BLOCK_BYTE_SIZE, 0), keys, keys[0]);
    assert EncryptAt(Fill(BLOCK_BYTE_SIZE, 0), keys, keys[0]) == EncryptMid(Fill(BLOCK_BYTE_SIZE, 0), keys, keys[0]);
    ToBytesBlockAt(p, 0);
  }

  /** L is the AES encryption of the zero block. */
  lemma SubkeyBaseIsEncrypt(keys: seq<byte>)
    requires |keys| == SCHEDULE_SIZE
    ensures SubkeyBase(keys) == Encrypt(Fill(BLOCK_BYTE_SIZE, 0), keys)
  {
    EncryptLeafIs(Fill(BLOCK_BYTE_SIZE, 0), keys, keys[0]);
    assert EncryptAt(Fill(BLOCK_BYTE_SIZE, 0), keys, keys[0]) == EncryptMid(Fill(BLOCK_BYTE_SIZE, 0), keys, keys[0]);
    EncryptIs(Fill(BLOCK_BYTE_SIZE, 0), keys);
  }

  /** AES-CMAC of the first len bytes of m under the schedule keys:
    * L = AES(K, 0), K1 and K2 from L, T = AES(K, X xor M_last). */
  function Mac(keys: seq<byte>, m: seq<byte>, len: nat): (t: seq<byte>)
    requires |keys| == SCHEDULE_SIZE && len <= |m|
    ensures |t| == BLOCK_BYTE_SIZE
  {
    Tag(keys, CbcMac(m, MacBlockCount(len) - 1, keys), LastBlock(m, len, K1(keys), K2(keys)))
  }

  /** RFC 4493 step 2: K1 from L. */
  function K1(keys: seq<byte>): (k: seq<byte>)
    requires |keys| == SCHEDULE_SIZE
    ensures |k| == BLOCK_BYTE_SIZE
  {
    Subkey(SubkeyBase(keys))
  }

  /** RFC 4493 step 2: K2 from K1. */
  function K2(keys: seq<byte>): (k: seq<byte>)
    requires |keys| == SCHEDULE_SIZE
    ensures |k| == BLOCK_BYTE_SIZE
  {
    Subkey(K1(keys))
  }

  /** RFC 4493 step 6, the last block: T = AES-K(X xor M_last). */
  function Tag(keys: seq<byte>, x: seq<byte>, last: seq<byte>): (t: seq<byte>)
    requires |keys| == SCHEDULE_SIZE && |x| == BLOCK_BYTE_SIZE && |last| == BLOCK_BYTE_SIZE
    ensures |t| == BLOCK_BYTE_SIZE
  {
    Encrypt(Xor(x, last), keys)
  }

  /** Mac is the tag of the chain over all blocks but the last and of
    * M_last. */
  lemma MacOfParts(keys: seq<byte>, m: seq<byte>, len: nat, x: seq<byte>, last: seq<byte>)
    requires |keys| == SCHEDULE_SIZE && len <= |m|
    requires x == CbcMac(m, MacBlockCount(len) - 1, keys)
    requires last == LastBlock(m, len, K1(keys), K2(keys))
    ensures Tag(keys, x, last) == Mac(keys, m, len)
  {
  }

  /** The chain of RFC 4493 step 6 is CBC encryption with a zero IV: X
    * after i blocks is the last of the i chained blocks. */
  lemma {:induction false} CbcMacIsChain(m: seq<byte>, i: nat, keys: seq<byte>)
    requires BLOCK_BYTE_SIZE * i <= |m| && |keys| == SCHEDULE_SIZE
    ensures CbcMac(m, i, keys) == Cbc.Previous(Cbc.Chain(m, i, Fill(BLOCK_BYTE_SIZE, 0), keys), i, Fill(BLOCK_BYTE_SIZE, 0))
  {
    if i > 0 {
      CbcMacIsChain(m, i - 1, keys);
      CbcMacChainStep(m, i, keys);
    } else {
      CbcMacIs(m, 0, keys);
    }
  }

  /** The tag for a complete last block, from X after the other blocks. */
  lemma TagOfCompleteBlock(keys: seq<byte>, m: seq<byte>, len: nat, x: seq<byte>)
    requires |keys| == SCHEDULE_SIZE && len <= |m| && Complete(len)
    requires x == CbcMac(m, MacBlockCount(len) - 1, keys)
    ensures BLOCK_BYTE_SIZE <= len
    ensures Mac(keys, m, len) == Encrypt(Xor(Xor(x, m[len - BLOCK_BYTE_SIZE .. len]), K1(keys)), keys)
  {
    LastBlockBounds(len);
    var o := BLOCK_BYTE_SIZE * (MacBlockCount(len) - 1);
    assert o == len - BLOCK_BYTE_SIZE;
    var last := LastBlock(m, len, K1(keys), K2(keys));
    MacOfParts(keys, m, len, x, last);
    var mn := m[o .. o + BLOCK_BYTE_SIZE];
    assert last == Xor(mn, K1(keys));
    XorAssociates(x, mn, K1(keys));
  }

  /** The tag for a padded last block, from X after the other blocks. */
  lemma TagOfPaddedBlock(keys: seq<byte>, m: seq<byte>, len: nat, x: seq<byte>)
    requires |keys| == SCHEDULE_SIZE && len <= |m| && !Complete(len)
    requires x == CbcMac(m, MacBlockCount(len) - 1, keys)
    ensures Mac(keys, m, len) == Encrypt(Xor(Xor(x, Pad(m[len - len % BLOCK_BYTE_SIZE..], len % BLOCK_BYTE_SIZE)), K2(keys)), keys)
  {
    LastBlockBounds(len);
    var o := BLOCK_BYTE_SIZE * (MacBlockCount(len) - 1);
    assert o == len - len % BLOCK_BYTE_SIZE;
    var last := LastBlock(m, len, K1(keys), K2(keys));
    MacOfParts(keys, m, len, x, last);
    var mn := Pad(m[o..], len % BLOCK_BYTE_SIZE);
    assert mn == Pad(m[len - len % BLOCK_BYTE_SIZE..], len % BLOCK_BYTE_SIZE);
    assert last == Xor(mn, K2(keys));
    XorAssociates(x, mn, K2(keys));
    assert Mac(keys, m, len) == Encrypt(Xor(Xor(x, mn), K2(keys)), keys);
  }

  /** RFC 4493 section 2.4: with X the CBC-MAC of all blocks but the last
    * (by CbcMacIsChain, the last block of their zero-IV CBC encryption),
    * the tag is AES-K(X xor M_n xor K1) when the last block M_n (the last
    * sixteen bytes) is complete, and AES-K(X xor padding(M_n) xor K2) when
    * M_n is the len % 16 bytes after the last whole block. */
  lemma TagOfLastBlock(keys: seq<byte>, m: seq<byte>, len: nat)
    requires |keys| == SCHEDULE_SIZE && len <= |m|
    ensures Complete(len) ==> (BLOCK_BYTE_SIZE <= len &&
      Mac(keys, m, len) == Encrypt(Xor(Xor(CbcMac(m, MacBlockCount(len) - 1, keys), m[len - BLOCK_BYTE_SIZE .. len]), K1(keys)), keys))
    ensures !Complete(len) ==>
      Mac(keys, m, len) == Encrypt(Xor(Xor(CbcMac(m, MacBlockCount(len) - 1, keys), Pad(m[len - len % BLOCK_BYTE_SIZE..], len % BLOCK_BYTE_SIZE)), K2(keys)), keys)
  {
    if Complete(len) {
      TagOfCompleteBlock(keys, m, len, CbcMac(m, MacBlockCount(len) - 1, keys));
    } else {
      TagOfPaddedBlock(keys, m, len, CbcMac(m, MacBlockCount(len) - 1, keys));
    }
  }

  /** One block of CbcMacIsChain: the step from i - 1 to i. */
  lemma CbcMacChainStep(m: seq<byte>, i: nat, keys: seq<byte>)
    requires 0 < i && BLOCK_BYTE_SIZE * i <= |m| && |keys| == SCHEDULE_SIZE
    requires CbcMac(m, i - 1, keys) == Cbc.Previous(Cbc.Chain(m, i - 1, Fill(BLOCK_BYTE_SIZE, 0), keys), i - 1, Fill(BLOCK_BYTE_SIZE, 0))
    ensures CbcMac(m, i, keys) == Cbc.Previous(Cbc.Chain(m, i, Fill(BLOCK_BYTE_SIZE, 0), keys), i, Fill(BLOCK_BYTE_SIZE, 0))
  {
    var zero := Fill(BLOCK_BYTE_SIZE, 0);
    var prev := Cbc.Chain(m, i - 1, zero, keys);
    var x := CbcMac(m, i - 1, keys);
    var blk := Cbc.BlockOf(m, i - 1);
    XorCommutes(x, blk);
    var e := Encrypt(Xor(blk, x), keys);
    Cbc.ChainIs(m, i, zero, keys);
    Cbc.BlockOfAppend(prev, e, i - 1, i - 1);
    CbcMacIs(m, i, keys);
  }

  /** The chain reads only its blocks of the message. */
  lemma {:induction false} CbcMacReadsBlocks(m: seq<byte>, m': seq<byte>, i: nat, keys: seq<byte>)
    requires BLOCK_BYTE_SIZE * i <= |m| && BLOCK_BYTE_SIZE * i <= |m'| && |keys| == SCHEDULE_SIZE
    requires m[..BLOCK_BYTE_SIZE * i] == m'[..BLOCK_BYTE_SIZE * i]
    ensures CbcMac(m, i, keys) == CbcMac(m', i, keys)
  {
    if i > 0 {
      var o := BLOCK_BYTE_SIZE * (i - 1);
      assert m[..o] == m[..BLOCK_BYTE_SIZE * i][..o];
      assert m'[..o] == m'[..BLOCK_BYTE_SIZE * i][..o];
      CbcMacReadsBlocks(m, m', i - 1, keys);
      assert Cbc.BlockOf(m, i - 1) == m[..BLOCK_BYTE_SIZE * i][o..];
      assert Cbc.BlockOf(m', i - 1) == m'[..BLOCK_BYTE_SIZE * i][o..];
    }
    CbcMacIs(m, i, keys);
    CbcMacIs(m', i, keys);
  }

  /** M_last depends on the first len bytes of the buffer only. */
  lemma LastBlockReadsMessage(m: seq<byte>, m': seq<byte>, len: nat, k1: seq<byte>, k2: seq<byte>)
    requires len <= |m| && len <= |m'| && |k1| == BLOCK_BYTE_SIZE && |k2| == BLOCK_BYTE_SIZE
    requires m[..len] == m'[..len]
    ensures LastBlock(m, len, k1, k2) == LastBlock(m', len, k1, k2)
  {
    LastBlockBounds(len);
    var o := BLOCK_BYTE_SIZE * (MacBlockCount(len) - 1);
    if Complete(len) {
      assert m[o .. o + BLOCK_BYTE_SIZE] == m[..len][o..];
      assert m'[o .. o + BLOCK_BYTE_SIZE] == m'[..len][o..];
    } else {
      var r := len % BLOCK_BYTE_SIZE;
      assert m[o..][..r] == m[..len][o..];
      assert m'[o..][..r] == m'[..len][o..];
    }
  }

  /** The chain before the last block reads only the first len bytes. */
  lemma CbcMacReadsMessage(keys: seq<byte>, m: seq<byte>, m': seq<byte>, len: nat)
    requires |keys| == SCHEDULE_SIZE && len <= |m| && len <= |m'|
    requires m[..len] == m'[..len]
    ensures CbcMac(m, MacBlockCount(len) - 1, keys) == CbcMac(m', MacBlockCount(len) - 1, keys)
  {
    var n: nat := MacBlockCount(len) - 1;
    var o := BLOCK_BYTE_SIZE * n;
    assert o <= len;
    assert m[..o] == m'[..o] by {
      assert m[..o] == m[..len][..o];
      assert m'[..o] == m'[..len][..o];
    }
    CbcMacReadsBlocks(m, m', n, keys);
  }

  /** The MAC depends on the first len bytes of the buffer and on nothing
    * after them. */
  lemma MacReadsMessage(keys: seq<byte>, m: seq<byte>, m': seq<byte>, len: nat)
    requires |keys| == SCHEDULE_SIZE && len <= |m| && len <= |m'|
    requires m[..len] == m'[..len]
    ensures Mac(keys, m, len) == Mac(keys, m', len)
  {
    CbcMacReadsMessage(keys, m, m', len);
    LastBlockReadsMessage(m, m', len, K1(keys), K2(keys));
  }

  // ------------------------------------------------------ the C routines

  /** The carry leftShiftKey computes, (b & 0x80) ? 1 : 0, is the top bit. */
  lemma TopBit(b: byte)
    ensures (if b & 0x80 != 0 then 1 else 0) == b >> 7
  {
  }

  /** leftShiftKey: from byte 15 down to byte 0, each byte shifted left
    * with the carry of the byte after it, overFlow holding that carry. */
  method LeftShiftKey(orig: array<byte>, shifted: array<byte>)
    requires orig.Length == BLOCK_BYTE_SIZE && shifted.Length == BLOCK_BYTE_SIZE && orig != shifted
    modifies shifted
    ensures shifted[..] == ShiftLeft(orig[..])
  {
    var overFlow: byte := 0;
    var i: int := BLOCK_BYTE_SIZE - 1;
    while i >= 0
      invariant -1 <= i < BLOCK_BYTE_SIZE
      invariant overFlow == if i == BLOCK_BYTE_SIZE - 1 then 0 else orig[i + 1] >> 7
      invariant forall k :: i < k < BLOCK_BYTE_SIZE ==> shifted[k] == ShiftedByte(orig[..], k, 0)
    {
      shifted[i] := orig[i] << 1;
      shifted[i] := shifted[i] | overFlow;
      TopBit(orig[i]);
      overFlow := if orig[i] & 0x80 != 0 then 1 else 0;
      i := i - 1;
    }
    assert forall k :: 0 <= k < BLOCK_BYTE_SIZE ==> shifted[..][k] == ShiftLeft(orig[..])[k];
  }

  /** xorToLength: the 16 bytes at p + po xor the 16 bytes at q + qo, into
    * r. The output may be one of the inputs, at offset 0, as in
    * expandMacKey; each byte is read before it is written. */
  method XorToLength(p: array<byte>, po: nat, q: array<byte>, qo: nat, r: array<byte>)
    requires po + BLOCK_BYTE_SIZE <= p.Length && qo + BLOCK_BYTE_SIZE <= q.Length
    requires r.Length == BLOCK_BYTE_SIZE
    requires r == p ==> po == 0
    requires r == q ==> qo == 0
    modifies r
    ensures r[..] == Xor(old(p[po .. po + BLOCK_BYTE_SIZE]), old(q[qo .. qo + BLOCK_BYTE_SIZE]))
  {
    ghost var a := p[po .. po + BLOCK_BYTE_SIZE];
    ghost var b := q[qo .. qo + BLOCK_BYTE_SIZE];
    var i := 0;
    while i < BLOCK_BYTE_SIZE
      invariant 0 <= i <= BLOCK_BYTE_SIZE
      invariant forall k :: 0 <= k < i ==> r[k] == a[k] ^ b[k]
      invariant forall k :: i <= k < BLOCK_BYTE_SIZE ==> p[po + k] == a[k] && q[qo + k] == b[k]
    {
      r[i] := p[po + i] ^ q[qo + i];
      i := i + 1;
    }
    assert forall k :: 0 <= k < BLOCK_BYTE_SIZE ==> r[..][k] == Xor(a, b)[k];
  }

  /** The constRb table, as a buffer. */
  method NewConstRb() returns (rb: array<byte>)
    ensures fresh(rb) && rb[..] == ConstRb()
  {
    rb := new byte[BLOCK_BYTE_SIZE](i => if i == BLOCK_BYTE_SIZE - 1 then 0x87 else 0);
    assert forall k :: 0 <= k < BLOCK_BYTE_SIZE ==> rb[..][k] == ConstRb()[k];
  }

  /** expandMacKey: newKey = origKey << 1, xor constRb when the top bit of
    * origKey was set. */
  method ExpandMacKey(origKey: array<byte>, newKey: array<byte>)
    requires origKey.Length == BLOCK_BYTE_SIZE && newKey.Length == BLOCK_BYTE_SIZE && origKey != newKey
    modifies newKey
    ensures newKey[..] == Subkey(origKey[..])
  {
    LeftShiftKey(origKey, newKey);
    if origKey[0] & 0x80 != 0 {
      var rb := NewConstRb();
      XorToLength(newKey, 0, rb, 0, newKey);
    }
  }

  /** padding: the first length bytes of lastb + lo, then 0x80, then
    * zeros, sixteen bytes in all. */
  method Padding(lastb: array<byte>, lo: nat, pad: array<byte>, length: nat)
    requires pad.Length == BLOCK_BYTE_SIZE && pad != lastb && lo <= lastb.Length
    requires (if length < BLOCK_BYTE_SIZE then length else BLOCK_BYTE_SIZE) <= lastb.Length - lo
    modifies pad
    ensures pad[..] == Pad(lastb[lo..], length)
  {
    var i := 0;
    while i < BLOCK_BYTE_SIZE
      invariant 0 <= i <= BLOCK_BYTE_SIZE
      invariant forall k :: 0 <= k < i ==> pad[k] == Pad(lastb[lo..], length)[k]
    {
      if i < length {
        pad[i] := lastb[lo + i];
      } else if i == length {
        pad[i] := PAD_BYTE;
      } else {
        pad[i] := 0;
      }
      i := i + 1;
    }
    assert forall k :: 0 <= k < BLOCK_BYTE_SIZE ==> pad[..][k] == Pad(lastb[lo..], length)[k];
  }

  /** initBlockZero. */
  method InitBlockZero(block: array<byte>)
    requires block.Length == BLOCK_BYTE_SIZE
    modifies block
    ensures block[..] == Fill(BLOCK_BYTE_SIZE, 0)
  {
    var i := 0;
    while i < BLOCK_BYTE_SIZE
      invariant 0 <= i <= BLOCK_BYTE_SIZE
      invariant forall k :: 0 <= k < i ==> block[k] == 0
    {
      block[i] := 0;
      i := i + 1;
    }
    assert forall k :: 0 <= k < BLOCK_BYTE_SIZE ==> block[..][k] == Fill(BLOCK_BYTE_SIZE, 0)[k];
  }

  /** A local 16-byte buffer cleared by initBlockZero, as aesCMac
    * declares its work blocks. */
  method NewZeroBlock() returns (b: array<byte>)
    ensures fresh(b) && b.Length == BLOCK_BYTE_SIZE && b[..] == Fill(BLOCK_BYTE_SIZE, 0)
  {
    b := new byte[BLOCK_BYTE_SIZE];
    InitBlockZero(b);
  }

  /** Step 1 of aesCMac, L: a zeroed block encrypted in place. */
  method EncryptZero(keys: seq<byte>) returns (l: array<byte>)
    requires |keys| == SCHEDULE_SIZE
    ensures fresh(l) && l.Length == BLOCK_BYTE_SIZE && l[..] == SubkeyBase(keys)
  {
    l := NewZeroBlock();
    EncryptBlock(l, keys);
    SubkeyBaseBytes(l[..], keys);
  }

  /** Step 1 of aesCMac: L = AES-K(0), K1 and K2 by expandMacKey. */
  method MacSubkeys(keys: seq<byte>) returns (k1: array<byte>, k2: array<byte>)
    requires |keys| == SCHEDULE_SIZE
    ensures fresh(k1) && fresh(k2) && k1 != k2
    ensures k1.Length == BLOCK_BYTE_SIZE && k2.Length == BLOCK_BYTE_SIZE
    ensures k1[..] == K1(keys) && k2[..] == K2(keys)
  {
    k1 := NewZeroBlock();
    k2 := NewZeroBlock();
    var l := EncryptZero(keys);
    ExpandMacKey(l, k1);
    ExpandMacKey(k1, k2);
  }

  /** Steps 2 and 3 of aesCMac: the block count ceil(len / 16), raised to
    * one for the empty message, which is then incomplete. */
  method CountBlocks(mLength: nat) returns (blockCount: nat, isComplete: bool)
    ensures blockCount == MacBlockCount(mLength) && isComplete == Complete(mLength)
  {
    blockCount := (mLength + BLOCK_BYTE_SIZE - 1) / BLOCK_BYTE_SIZE;
    isComplete := true;
    if blockCount == 0 {
      blockCount := 1;
      isComplete := false;
    } else {
      isComplete := mLength % BLOCK_BYTE_SIZE == 0;
    }
  }

  /** Step 4 of aesCMac: M_last from the last block of m. */
  method MacLastBlock(m: array<byte>, mLength: nat, blockCount: nat, isComplete: bool,
                      k1: array<byte>, k2: array<byte>) returns (mLast: array<byte>)
    requires mLength <= m.Length && k1.Length == BLOCK_BYTE_SIZE && k2.Length == BLOCK_BYTE_SIZE
    requires blockCount == MacBlockCount(mLength) && isComplete == Complete(mLength)
    ensures fresh(mLast) && mLast.Length == BLOCK_BYTE_SIZE
    ensures mLast[..] == LastBlock(m[..], mLength, k1[..], k2[..])
  {
    LastBlockBounds(mLength);
    var o := BLOCK_BYTE_SIZE * (blockCount - 1);
    mLast := NewZeroBlock();
    if isComplete {
      XorToLength(m, o, k1, 0, mLast);
      assert m[o .. o + BLOCK_BYTE_SIZE] == m[..][o .. o + BLOCK_BYTE_SIZE];
    } else {
      var mLastPad := NewZeroBlock();
      Padding(m, o, mLastPad, mLength % BLOCK_BYTE_SIZE);
      XorToLength(mLastPad, 0, k2, 0, mLast);
      assert m[o..] == m[..][o..];
    }
  }

  /** One pass of step 6: Y := X xor M_i, Y := AES-K(Y), X := Y. */
  method CbcMacStep(keys: seq<byte>, m: array<byte>, i: nat, x: array<byte>, y: array<byte>)
    requires |keys| == SCHEDULE_SIZE && BLOCK_BYTE_SIZE * (i + 1) <= m.Length
    requires x.Length == BLOCK_BYTE_SIZE && y.Length == BLOCK_BYTE_SIZE
    requires x != y && x != m && y != m
    requires x[..] == CbcMac(m[..], i, keys)
    modifies x, y
    ensures x[..] == CbcMac(m[..], i + 1, keys)
  {
    XorToLength(x, 0, m, BLOCK_BYTE_SIZE * i, y);
    assert y[..] == Xor(CbcMac(m[..], i, keys), Cbc.BlockOf(m[..], i));
    ghost var y0 := y[..];
    EncryptBlock(y, keys);
    EncryptBlockBytes(y[..], y0, keys);
    CbcMacIs(m[..], i + 1, keys);
    Cbc.CopyBlock(x, y);
  }

  /** Step 6 of aesCMac, the chain over the first count blocks. */
  method CbcMacChain(keys: seq<byte>, m: array<byte>, count: nat) returns (x: array<byte>)
    requires |keys| == SCHEDULE_SIZE && BLOCK_BYTE_SIZE * count <= m.Length
    ensures fresh(x) && x.Length == BLOCK_BYTE_SIZE
    ensures x[..] == CbcMac(m[..], count, keys)
  {
    x := NewZeroBlock();
    var y := NewZeroBlock();
    CbcMacIs(m[..], 0, keys);
    var i := 0;
    while i < count
      invariant 0 <= i <= count
      invariant x[..] == CbcMac(m[..], i, keys)
      modifies x, y
    {
      CbcMacStep(keys, m, i, x, y);
      i := i + 1;
    }
  }

  /** The end of aesCMac: Y := X xor M_last, Y := AES-K(Y). */
  method MacTag(keys: seq<byte>, x: array<byte>, mLast: array<byte>) returns (y: array<byte>)
    requires |keys| == SCHEDULE_SIZE && x.Length == BLOCK_BYTE_SIZE && mLast.Length == BLOCK_BYTE_SIZE
    ensures fresh(y) && y.Length == BLOCK_BYTE_SIZE
    ensures y[..] == Tag(keys, x[..], mLast[..])
  {
    y := NewZeroBlock();
    XorToLength(x, 0, mLast, 0, y);
    ghost var y0 := y[..];
    assert y0 == Xor(x[..], mLast[..]) by {
      assert x[0..BLOCK_BYTE_SIZE] == x[..] && mLast[0..BLOCK_BYTE_SIZE] == mLast[..];
    }
    EncryptBlock(y, keys);
    EncryptBlockBytes(y[..], y0, keys);
  }

  /** aesCMac: the CMAC of the first mLength bytes of m under the schedule
    * keys, written to cmac and nowhere else. */
  method AesCMac(keys: seq<byte>, m: array<byte>, mLength: nat, cmac: array<byte>)
    requires |keys| == SCHEDULE_SIZE && mLength <= m.Length && cmac.Length == BLOCK_BYTE_SIZE
    modifies cmac
    ensures cmac[..] == Mac(keys, old(m[..]), mLength)
  {
    ghost var m0 := m[..];
    var k1, k2 := MacSubkeys(keys);
    assert m[..] == m0;
    var blockCount, isComplete := CountBlocks(mLength);
    var mLast := MacLastBlock(m, mLength, blockCount, isComplete, k1, k2);
    assert m[..] == m0;
    var x := CbcMacChain(keys, m, blockCount - 1);
    ghost var xs, lasts := x[..], mLast[..];
    assert m[..] == m0 && lasts == LastBlock(m0, mLength, K1(keys), K2(keys));
    assert xs == CbcMac(m0, blockCount - 1, keys);
    var y := MacTag(keys, x, mLast);
    assert x[..] == xs && mLast[..] == lasts;
    MacOfParts(keys, m0, mLength, xs, lasts);
    Cbc.CopyBlock(cmac, y);
  }

  // ------------------------------------------------------ verification

  /** The compare loop of verifyAesCMac: 1 when all sixteen bytes of the
    * computed tag equal those of the received one, 0 at the first that
    * differs. */
  method CompareMac(cmac: array<byte>, cmacm: array<byte>) returns (valid: int)
    requires cmac.Length == BLOCK_BYTE_SIZE && BLOCK_BYTE_SIZE <= cmacm.Length
    ensures valid == if cmac[..] == cmacm[..BLOCK_BYTE_SIZE] then CMAC_VALID else CMAC_INVALID
  {
    var i := 0;
    while i < BLOCK_BYTE_SIZE
      invariant 0 <= i <= BLOCK_BYTE_SIZE
      invariant cmac[..i] == cmacm[..i]
    {
      if cmac[i] != cmacm[i] {
        assert cmac[..][i] != cmacm[..BLOCK_BYTE_SIZE][i];
        return CMAC_INVALID;
      }
      assert cmac[..i + 1] == cmac[..i] + [cmac[i]];
      assert cmacm[..i + 1] == cmacm[..i] + [cmacm[i]];
      i := i + 1;
    }
    assert cmac[..] == cmac[..BLOCK_BYTE_SIZE];
    return CMAC_VALID;
  }

  /** verifyAesCMac (RFC 4493 section 2.5): expand the key, recompute the
    * tag and compare it with the received one. */
  method VerifyAesCMac(k: array<byte>, m: array<byte>, mLength: nat, cmacm: array<byte>) returns (valid: int)
    requires k.Length == 16 && mLength <= m.Length && BLOCK_BYTE_SIZE <= cmacm.Length
    ensures valid == if Mac(Schedule(k[..]), m[..], mLength) == cmacm[..BLOCK_BYTE_SIZE] then CMAC_VALID else CMAC_INVALID
  {
    var keys := new byte[SCHEDULE_SIZE];
    KeyExpansion(k, keys);
    IsScheduleOfIsSchedule(keys[..], k[..]);
    var cmac := new byte[BLOCK_BYTE_SIZE];
    AesCMac(keys[..], m, mLength, cmac);
    valid := CompareMac(cmac, cmacm);
  }

  // ------------------------------------------------- the older copies

  /** The older copies' pKey, as a buffer. */
  method NewPKey() returns (key: array<byte>)
    ensures fresh(key) && key[..] == PKEY
  {
    key := new byte[16](i => if 0 <= i < 16 then PKEY[i] else 0);
    assert forall i :: 0 <= i < 16 ==> key[..][i] == PKEY[i];
  }

  /** aesCMac of aes-crypt/lib and of the Arduino copy: the key argument k
    * is never read; the schedule is always that of the global pKey, which
    * the copies initialise to PKEY (NewPKey). */
  method LegacyAesCMac(pKey: array<byte>, k: array<byte>, m: array<byte>, mLength: nat, cmac: array<byte>)
    requires pKey.Length == 16 && mLength <= m.Length && cmac.Length == BLOCK_BYTE_SIZE
    modifies cmac
    ensures cmac[..] == Mac(Schedule(old(pKey[..])), old(m[..]), mLength)
  {
    var pKeys := new byte[SCHEDULE_SIZE];
    KeyExpansion(pKey, pKeys);
    IsScheduleOfIsSchedule(pKeys[..], pKey[..]);
    AesCMac(pKeys[..], m, mLength, cmac);
  }

  /** verifyAesCMac of the older copies: it compares against the tag under
    * pKey, whatever key it is given. */
  method LegacyVerifyAesCMac(pKey: array<byte>, k: array<byte>, m: array<byte>, mLength: nat,
                             cmacm: array<byte>) returns (valid: int)
    requires pKey.Length == 16 && mLength <= m.Length && BLOCK_BYTE_SIZE <= cmacm.Length
    ensures valid == if Mac(Schedule(pKey[..]), m[..], mLength) == cmacm[..BLOCK_BYTE_SIZE] then CMAC_VALID else CMAC_INVALID
  {
    var cmac := new byte[BLOCK_BYTE_SIZE];
    LegacyAesCMac(pKey, k, m, mLength, cmac);
    valid := CompareMac(cmac, cmacm);
  }
}
