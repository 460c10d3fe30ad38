/**
 * The in-place block transformations of aes_crypt/lib/aes_crypt.cpp.
 *
 * Each method works on a 16-byte buffer p, with the byte at row i and
 * column j at p[i + 4*j], and is specified by the function on State that
 * the Aes module defines; EncryptBlock and DecryptBlock are then the
 * Cipher and InvCipher functions, so DecryptBlock undoes EncryptBlock.
 */
module AesBlock {
  import opened Bytes
  import opened Gf
  import opened Tables
  import opened Aes

  /** AddRoundKey: xor the 16 schedule bytes of the round into the state.
    * The C code does this as four 32-bit xors, one per column; a 32-bit
    * xor is the xor of its four bytes, and no byte is read after it is
    * written, so the four can be made at once. */
  method AddRoundKey(p: array<byte>, keys: seq<byte>, round: nat)
    requires p.Length == BLOCK_BYTE_SIZE && |keys| == SCHEDULE_SIZE && round <= ROUNDS
    modifies p
    ensures BlockAt(p[..], 0) == AddRoundKeySpec(BlockAt(old(p[..]), 0), keys, round)
  {
    ghost var q := p[..];
    var roundOffset := round * 4;
    forall k | 0 <= k < BLOCK_BYTE_SIZE {
      p[k] := p[k] ^ keys[4 * roundOffset + k];
    }
    assert forall k | 0 <= k < BLOCK_BYTE_SIZE :: p[..][k] == q[k] ^ keys[16 * round + k];
    AddRoundKeyBytes(p[..], q, keys, round);
  }

  /** A buffer whose bytes are those of q xor-ed with round key r holds
    * AddRoundKeySpec of q's state. */
  lemma AddRoundKeyBytes(s: seq<byte>, q: seq<byte>, w: seq<byte>, round: nat)
    requires |s| == BLOCK_BYTE_SIZE && |q| == BLOCK_BYTE_SIZE && |w| == SCHEDULE_SIZE && round <= ROUNDS
    requires forall k | 0 <= k < BLOCK_BYTE_SIZE :: s[k] == q[k] ^ w[16 * round + k]
    ensures BlockAt(s, 0) == AddRoundKeySpec(BlockAt(q, 0), w, round)
  {
    var o := 16 * round;
    var kb := w[o..o + BLOCK_BYTE_SIZE];
    assert forall k | 0 <= k < BLOCK_BYTE_SIZE :: s[k] == q[k] ^ kb[k];
    XorBlocks(s, q, kb);
    BlockAtSlice(w, o);
  }

  /** A block whose bytes are those of q xor-ed with those of kb holds the
    * xor of their states. */
  lemma XorBlocks(s: seq<byte>, q: seq<byte>, kb: seq<byte>)
    requires |s| == BLOCK_BYTE_SIZE && |q| == BLOCK_BYTE_SIZE && |kb| == BLOCK_BYTE_SIZE
    requires forall k | 0 <= k < BLOCK_BYTE_SIZE :: s[k] == q[k] ^ kb[k]
    ensures BlockAt(s, 0) == XorState(BlockAt(q, 0), BlockAt(kb, 0))
  {
    XorWordOf(s, q, kb, 0);
    XorWordOf(s, q, kb, 4);
    XorWordOf(s, q, kb, 8);
    XorWordOf(s, q, kb, 12);
  }

  /** Word i of such a block is the xor of the two words. */
  lemma XorWordOf(s: seq<byte>, q: seq<byte>, kb: seq<byte>, i: nat)
    requires |s| == BLOCK_BYTE_SIZE && |q| == BLOCK_BYTE_SIZE && |kb| == BLOCK_BYTE_SIZE && i + 4 <= BLOCK_BYTE_SIZE
    requires forall k | 0 <= k < BLOCK_BYTE_SIZE :: s[k] == q[k] ^ kb[k]
    ensures WordAt(s, i) == XorWord(WordAt(q, i), WordAt(kb, i))
  {
    XorWordAt(s, q, kb, i, i);
  }

  /** The state of the 16 bytes at offset o is that of their slice. */
  lemma BlockAtSlice(w: seq<byte>, o: nat)
    requires o + BLOCK_BYTE_SIZE <= |w|
    ensures BlockAt(w[o..o + BLOCK_BYTE_SIZE], 0) == BlockAt(w, o)
  {
  }

  /** Four bytes of s that are those of q xor-ed with four bytes of w. */
  lemma XorWordAt(s: seq<byte>, q: seq<byte>, w: seq<byte>, i: nat, o: nat)
    requires i + 4 <= |s| && i + 4 <= |q| && o + 4 <= |w|
    requires s[i] == q[i] ^ w[o] && s[i + 1] == q[i + 1] ^ w[o + 1]
    requires s[i + 2] == q[i + 2] ^ w[o + 2] && s[i + 3] == q[i + 3] ^ w[o + 3]
    ensures WordAt(s, i) == XorWord(WordAt(q, i), WordAt(w, o))
  {
  }

  /** The byte SubAndShift moves to index k = i + 4*j (row i, column j):
    * the one at row i, column (j + i) mod 4. */
  function ShiftSource(k: nat): (r: nat)
    requires k < BLOCK_BYTE_SIZE
    ensures r < BLOCK_BYTE_SIZE && r % 4 == k % 4
  {
    k % 4 + 4 * ((k / 4 + k % 4) % 4)
  }

  /** The byte InvSubAndShift moves to index k: the one at row i, column
    * (j - i) mod 4. */
  function UnshiftSource(k: nat): (r: nat)
    requires k < BLOCK_BYTE_SIZE
    ensures r < BLOCK_BYTE_SIZE && r % 4 == k % 4
  {
    k % 4 + 4 * ((k / 4 + 4 - k % 4) % 4)
  }

  /** SubAndShift. The C code rotates each row in place through one
    * temporary and S-boxes every byte as it moves it; it reads each byte
    * before it overwrites it, so the sixteen assignments are the one
    * simultaneous assignment below. */
  method SubAndShift(p: array<byte>)
    requires p.Length == BLOCK_BYTE_SIZE
    modifies p
    ensures BlockAt(p[..], 0) == SubAndShiftSpec(BlockAt(old(p[..]), 0))
  {
    ghost var q := p[..];
    forall k | 0 <= k < BLOCK_BYTE_SIZE {
      p[k] := GetSboxValue(p[ShiftSource(k)]);
    }
    SubAndShiftBytes(p[..], q);
  }

  /** A buffer holding the bytes SubAndShift writes holds SubAndShiftSpec. */
  lemma SubAndShiftBytes(s: seq<byte>, q: seq<byte>)
    requires |s| == BLOCK_BYTE_SIZE && |q| == BLOCK_BYTE_SIZE
    requires forall k | 0 <= k < BLOCK_BYTE_SIZE :: s[k] == Sbox(q[ShiftSource(k)])
    ensures BlockAt(s, 0) == SubAndShiftSpec(BlockAt(q, 0))
  {
    ShiftSources();
  }

  /** ShiftSource, index by index. */
  lemma ShiftSources()
    ensures ShiftSource(0) == 0 && ShiftSource(1) == 5 && ShiftSource(2) == 10 && ShiftSource(3) == 15
    ensures ShiftSource(4) == 4 && ShiftSource(5) == 9 && ShiftSource(6) == 14 && ShiftSource(7) == 3
    ensures ShiftSource(8) == 8 && ShiftSource(9) == 13 && ShiftSource(10) == 2 && ShiftSource(11) == 7
    ensures ShiftSource(12) == 12 && ShiftSource(13) == 1 && ShiftSource(14) == 6 && ShiftSource(15) == 11
  {
  }

  /** InvSubAndShift: the inverse rotation, again one simultaneous
    * assignment. */
  method InvSubAndShift(p: array<byte>)
    requires p.Length == BLOCK_BYTE_SIZE
    modifies p
    ensures BlockAt(p[..], 0) == InvSubAndShiftSpec(BlockAt(old(p[..]), 0))
  {
    ghost var q := p[..];
    forall k | 0 <= k < BLOCK_BYTE_SIZE {
      p[k] := GetISboxValue(p[UnshiftSource(k)]);
    }
    InvSubAndShiftBytes(p[..], q);
  }

  /** A buffer holding the bytes InvSubAndShift writes holds
    * InvSubAndShiftSpec. */
  lemma InvSubAndShiftBytes(s: seq<byte>, q: seq<byte>)
    requires |s| == BLOCK_BYTE_SIZE && |q| == BLOCK_BYTE_SIZE
    requires forall k | 0 <= k < BLOCK_BYTE_SIZE :: s[k] == InvSbox(q[UnshiftSource(k)])
    ensures BlockAt(s, 0) == InvSubAndShiftSpec(BlockAt(q, 0))
  {
    UnshiftSources();
  }

  /** UnshiftSource, index by index. */
  lemma UnshiftSources()
    ensures UnshiftSource(0) == 0 && UnshiftSource(1) == 13 && UnshiftSource(2) == 10 && UnshiftSource(3) == 7
    ensures UnshiftSource(4) == 4 && UnshiftSource(5) == 1 && UnshiftSource(6) == 14 && UnshiftSource(7) == 11
    ensures UnshiftSource(8) == 8 && UnshiftSource(9) == 5 && UnshiftSource(10) == 2 && UnshiftSource(11) == 15
    ensures UnshiftSource(12) == 12 && UnshiftSource(13) == 9 && UnshiftSource(14) == 6 && UnshiftSource(15) == 3
  {
  }

  /** Columns 0 .. c - 1 of s hold f of the columns of q, the rest is q. */
  predicate MixedUpTo(s: seq<byte>, q: seq<byte>, c: nat, inverse: bool)
    requires |s| == BLOCK_BYTE_SIZE && |q| == BLOCK_BYTE_SIZE && c <= 4
  {
    (forall k :: 0 <= k < c ==>
       WordAt(s, 4 * k) == (if inverse then InvMixColumn(WordAt(q, 4 * k)) else MixColumn(WordAt(q, 4 * k)))) &&
    (forall m :: 4 * c <= m < BLOCK_BYTE_SIZE ==> s[m] == q[m])
  }

  /** All four columns done is the whole MixColumns (or InvMixColumns). */
  lemma MixedUpToAll(s: seq<byte>, q: seq<byte>, inverse: bool)
    requires |s| == BLOCK_BYTE_SIZE && |q| == BLOCK_BYTE_SIZE && MixedUpTo(s, q, 4, inverse)
    ensures BlockAt(s, 0) == if inverse then InvMixColumnsSpec(BlockAt(q, 0)) else MixColumnsSpec(BlockAt(q, 0))
  {
    assert WordAt(s, 0) == WordAt(s, 4 * 0) && WordAt(q, 0) == WordAt(q, 4 * 0);
    assert WordAt(s, 4) == WordAt(s, 4 * 1) && WordAt(q, 4) == WordAt(q, 4 * 1);
    assert WordAt(s, 8) == WordAt(s, 4 * 2) && WordAt(q, 8) == WordAt(q, 4 * 2);
    assert WordAt(s, 12) == WordAt(s, 4 * 3) && WordAt(q, 12) == WordAt(q, 4 * 3);
  }

  /** Replacing column c of s by its (inverse) mix extends MixedUpTo by one
    * column. */
  lemma MixedUpToStep(s: seq<byte>, t: seq<byte>, q: seq<byte>, c: nat, inverse: bool)
    requires |s| == BLOCK_BYTE_SIZE && |t| == BLOCK_BYTE_SIZE && |q| == BLOCK_BYTE_SIZE && c < 4
    requires MixedUpTo(s, q, c, inverse)
    requires t[..4 * c] == s[..4 * c] && t[4 * c + 4..] == s[4 * c + 4..]
    requires WordAt(t, 4 * c) == if inverse then InvMixColumn(WordAt(s, 4 * c)) else MixColumn(WordAt(s, 4 * c))
    ensures MixedUpTo(t, q, c + 1, inverse)
  {
    forall k | 0 <= k < c
      ensures WordAt(t, 4 * k) == WordAt(s, 4 * k)
    {
      assert t[4 * k] == t[..4 * c][4 * k] && t[4 * k + 1] == t[..4 * c][4 * k + 1];
      assert t[4 * k + 2] == t[..4 * c][4 * k + 2] && t[4 * k + 3] == t[..4 * c][4 * k + 3];
    }
    forall m | 4 * (c + 1) <= m < BLOCK_BYTE_SIZE
      ensures t[m] == s[m]
    {
      assert t[m] == t[4 * c + 4..][m - (4 * c + 4)];
    }
    assert WordAt(s, 4 * c) == WordAt(q, 4 * c);
  }

  /** MixColumns: for every column, a is the sum of its four bytes and
    * each byte becomes s_r ^ xtime(s_r ^ s_{r+1}) ^ a (TrickRow), which is
    * the FIPS-197 product by Gf.TrickRowIsMixColumn. */
  method MixColumns(p: array<byte>)
    requires p.Length == BLOCK_BYTE_SIZE
    modifies p
    ensures BlockAt(p[..], 0) == MixColumnsSpec(BlockAt(old(p[..]), 0))
  {
    ghost var q := p[..];
    var c := 0;
    while c < 4
      invariant 0 <= c <= 4
      invariant MixedUpTo(p[..], q, c, false)
    {
      ghost var before := p[..];
      var a := Add4(p[4 * c], p[1 + 4 * c], p[2 + 4 * c], p[3 + 4 * c]);
      var s0 := p[4 * c];
      TrickRowIsMixColumn(WordAt(p[..], 4 * c));
      p[4 * c] := TrickRow(p[4 * c], p[1 + 4 * c], a);
      p[1 + 4 * c] := TrickRow(p[1 + 4 * c], p[2 + 4 * c], a);
      p[2 + 4 * c] := TrickRow(p[2 + 4 * c], p[3 + 4 * c], a);
      p[3 + 4 * c] := TrickRow(p[3 + 4 * c], s0, a);
      MixedUpToStep(before, p[..], q, c, false);
      c := c + 1;
    }
    MixedUpToAll(p[..], q, false);
  }

  /** The bytes InvMixColumns writes for the column s0..s3. */
  lemma InvMixColumnBytes(s0: byte, s1: byte, s2: byte, s3: byte)
    ensures InvMixColumn(Word(s0, s1, s2, s3)) ==
      Word(Add4(Mul14(s0), Mul11(s1), Mul13(s2), Mul9(s3)), Add4(Mul9(s0), Mul14(s1), Mul11(s2), Mul13(s3)),
           Add4(Mul13(s0), Mul9(s1), Mul14(s2), Mul11(s3)), Add4(Mul11(s0), Mul13(s1), Mul9(s2), Mul14(s3)))
  {
  }

  /** InvMixColumns: every column, read into s0..s3, is replaced by the
    * products with {0e, 0b, 0d, 09} in the rotations of FIPS-197
    * equation (5.10). */
  method InvMixColumns(p: array<byte>)
    requires p.Length == BLOCK_BYTE_SIZE
    modifies p
    ensures BlockAt(p[..], 0) == InvMixColumnsSpec(BlockAt(old(p[..]), 0))
  {
    ghost var q := p[..];
    var c := 0;
    while c < 4
      invariant 0 <= c <= 4
      invariant MixedUpTo(p[..], q, c, true)
    {
      ghost var before := p[..];
      var s0, s1, s2, s3 := p[4 * c], p[1 + 4 * c], p[2 + 4 * c], p[3 + 4 * c];
      InvMixColumnBytes(s0, s1, s2, s3);
      p[4 * c] := Add4(Mul14(s0), Mul11(s1), Mul13(s2), Mul9(s3));
      p[1 + 4 * c] := Add4(Mul9(s0), Mul14(s1), Mul11(s2), Mul13(s3));
      p[2 + 4 * c] := Add4(Mul13(s0), Mul9(s1), Mul14(s2), Mul11(s3));
      p[3 + 4 * c] := Add4(Mul11(s0), Mul13(s1), Mul9(s2), Mul14(s3));
      MixedUpToStep(before, p[..], q, c, true);
      c := c + 1;
    }
    MixedUpToAll(p[..], q, true);
  }

  // ------------------------------------------------------- whole blocks

  /** EncryptBlock, with the loop over rounds 1..9: AddRoundKey(0), nine
    * rounds of SubAndShift, MixColumns, AddRoundKey(round), then
    * SubAndShift and AddRoundKey(10). */
  method EncryptBlock(p: array<byte>, keys: seq<byte>)
    requires p.Length == BLOCK_BYTE_SIZE && |keys| == SCHEDULE_SIZE
    modifies p
    ensures BlockAt(p[..], 0) == Cipher(BlockAt(old(p[..]), 0), keys)
  {
    ghost var s0 := AddRoundKeySpec(BlockAt(p[..], 0), keys, 0);
    AddRoundKey(p, keys, 0);
    var round := 1;
    while round < ROUNDS
      invariant 1 <= round <= ROUNDS
      invariant BlockAt(p[..], 0) == Rounds(s0, keys, round - 1)
    {
      TransformRound(p, keys, round);
      round := round + 1;
    }
    SubAndShift(p);
    AddRoundKey(p, keys, ROUNDS);
  }

  /** One ntransform step of the unrolled EncryptBlock. */
  method TransformRound(p: array<byte>, keys: seq<byte>, round: nat)
    requires p.Length == BLOCK_BYTE_SIZE && |keys| == SCHEDULE_SIZE && round <= ROUNDS
    modifies p
    ensures BlockAt(p[..], 0) == Round(BlockAt(old(p[..]), 0), keys, round)
  {
    ghost var before := BlockAt(p[..], 0);
    SubAndShift(p);
    MixColumns(p);
    AddRoundKey(p, keys, round);
    RoundIs(before, keys, round);
  }

  /** EncryptBlock with unroll_encrypt_loop defined: the nine rounds
    * written out. It computes what the loop computes. */
  method EncryptBlockUnrolled(p: array<byte>, keys: seq<byte>)
    requires p.Length == BLOCK_BYTE_SIZE && |keys| == SCHEDULE_SIZE
    modifies p
    ensures BlockAt(p[..], 0) == Cipher(BlockAt(old(p[..]), 0), keys)
  {
    ghost var s0 := AddRoundKeySpec(BlockAt(p[..], 0), keys, 0);
    AddRoundKey(p, keys, 0);
    TransformRound(p, keys, 1);
    assert BlockAt(p[..], 0) == Rounds(s0, keys, 1);
    TransformRound(p, keys, 2);
    assert BlockAt(p[..], 0) == Rounds(s0, keys, 2);
    TransformRound(p, keys, 3);
    assert BlockAt(p[..], 0) == Rounds(s0, keys, 3);
    TransformRound(p, keys, 4);
    assert BlockAt(p[..], 0) == Rounds(s0, keys, 4);
    TransformRound(p, keys, 5);
    assert BlockAt(p[..], 0) == Rounds(s0, keys, 5);
    TransformRound(p, keys, 6);
    assert BlockAt(p[..], 0) == Rounds(s0, keys, 6);
    TransformRound(p, keys, 7);
    assert BlockAt(p[..], 0) == Rounds(s0, keys, 7);
    TransformRound(p, keys, 8);
    assert BlockAt(p[..], 0) == Rounds(s0, keys, 8);
    TransformRound(p, keys, 9);
    assert BlockAt(p[..], 0) == Rounds(s0, keys, 9);
    SubAndShift(p);
    AddRoundKey(p, keys, ROUNDS);
  }

  /** DecryptBlock, with the loop over rounds 9 down to 1: AddRoundKey(10),
    * nine rounds of InvSubAndShift, AddRoundKey(round), InvMixColumns,
    * then InvSubAndShift and AddRoundKey(0). */
  method DecryptBlock(p: array<byte>, keys: seq<byte>)
    requires p.Length == BLOCK_BYTE_SIZE && |keys| == SCHEDULE_SIZE
    modifies p
    ensures BlockAt(p[..], 0) == InvCipher(BlockAt(old(p[..]), 0), keys)
  {
    ghost var s0 := AddRoundKeySpec(BlockAt(p[..], 0), keys, ROUNDS);
    AddRoundKey(p, keys, ROUNDS);
    var round := ROUNDS - 1;
    while round > 0
      invariant 0 <= round < ROUNDS
      invariant BlockAt(p[..], 0) == InvRoundsDownTo(s0, keys, round)
    {
      InvTransformRound(p, keys, round);
      round := round - 1;
    }
    InvSubAndShift(p);
    AddRoundKey(p, keys, 0);
  }

  /** One dtransform step of the unrolled DecryptBlock. */
  method InvTransformRound(p: array<byte>, keys: seq<byte>, round: nat)
    requires p.Length == BLOCK_BYTE_SIZE && |keys| == SCHEDULE_SIZE && round <= ROUNDS
    modifies p
    ensures BlockAt(p[..], 0) == InvRound(BlockAt(old(p[..]), 0), keys, round)
  {
    ghost var before := BlockAt(p[..], 0);
    InvSubAndShift(p);
    AddRoundKey(p, keys, round);
    InvMixColumns(p);
    InvRoundIs(before, keys, round);
  }

  /** DecryptBlock with unroll_decrypt_loop defined. */
  method DecryptBlockUnrolled(p: array<byte>, keys: seq<byte>)
    requires p.Length == BLOCK_BYTE_SIZE && |keys| == SCHEDULE_SIZE
    modifies p
    ensures BlockAt(p[..], 0) == InvCipher(BlockAt(old(p[..]), 0), keys)
  {
    ghost var s0 := AddRoundKeySpec(BlockAt(p[..], 0), keys, ROUNDS);
    AddRoundKey(p, keys, ROUNDS);
    InvTransformRound(p, keys, 9);
    assert BlockAt(p[..], 0) == InvRoundsDownTo(s0, keys, 8);
    InvTransformRound(p, keys, 8);
    assert BlockAt(p[..], 0) == InvRoundsDownTo(s0, keys, 7);
    InvTransformRound(p, keys, 7);
    assert BlockAt(p[..], 0) == InvRoundsDownTo(s0, keys, 6);
    InvTransformRound(p, keys, 6);
    assert BlockAt(p[..], 0) == InvRoundsDownTo(s0, keys, 5);
    InvTransformRound(p, keys, 5);
    assert BlockAt(p[..], 0) == InvRoundsDownTo(s0, keys, 4);
    InvTransformRound(p, keys, 4);
    assert BlockAt(p[..], 0) == InvRoundsDownTo(s0, keys, 3);
    InvTransformRound(p, keys, 3);
    assert BlockAt(p[..], 0) == InvRoundsDownTo(s0, keys, 2);
    InvTransformRound(p, keys, 2);
    assert BlockAt(p[..], 0) == InvRoundsDownTo(s0, keys, 1);
    InvTransformRound(p, keys, 1);
    assert BlockAt(p[..], 0) == InvRoundsDownTo(s0, keys, 0);
    InvSubAndShift(p);
    AddRoundKey(p, keys, 0);
  }

  // ------------------------------------------------ blocks as buffers

  /** The 16 bytes EncryptBlock leaves in a buffer that held b. Written
    * behind a recursion on the first byte of b xor the first key byte (so that it
    * stays symbolic even for a constant block), so that buffers
    * in terms of it stay single terms; EncryptIs unfolds it. */
  function Encrypt(b: seq<byte>, keys: seq<byte>): (c: seq<byte>)
    requires |b| == BLOCK_BYTE_SIZE && |keys| == SCHEDULE_SIZE
    ensures |c| == BLOCK_BYTE_SIZE
  {
    EncryptAt(b, keys, b[0])
  }

  function EncryptAt(b: seq<byte>, keys: seq<byte>, d: byte): (c: seq<byte>)
    requires |b| == BLOCK_BYTE_SIZE && |keys| == SCHEDULE_SIZE
    ensures |c| == BLOCK_BYTE_SIZE
    decreases d as int, 2
  {
    EncryptMid(b, keys, d)
  }

  function EncryptMid(b: seq<byte>, keys: seq<byte>, d: byte): (c: seq<byte>)
    requires |b| == BLOCK_BYTE_SIZE && |keys| == SCHEDULE_SIZE
    ensures |c| == BLOCK_BYTE_SIZE
    decreases d as int, 1
  {
    EncryptLeaf(b, keys, d)
  }

  function EncryptLeaf(b: seq<byte>, keys: seq<byte>, d: byte): (c: seq<byte>)
    requires |b| == BLOCK_BYTE_SIZE && |keys| == SCHEDULE_SIZE
    ensures |c| == BLOCK_BYTE_SIZE
    decreases d as int, 0
  {
    if d == 0 then ToBytes(Cipher(BlockAt(b, 0), keys)) else EncryptAt(b, keys, d - 1)
  }

  lemma {:induction false} EncryptLeafIs(b: seq<byte>, keys: seq<byte>, d: byte)
    requires |b| == BLOCK_BYTE_SIZE && |keys| == SCHEDULE_SIZE
    ensures EncryptLeaf(b, keys, d) == ToBytes(Cipher(BlockAt(b, 0), keys))
    decreases d as int
  {
    if d != 0 {
      EncryptLeafIs(b, keys, d - 1);
      assert EncryptAt(b, keys, d - 1) == EncryptMid(b, keys, d - 1);
    }
  }

  lemma EncryptIs(b: seq<byte>, keys: seq<byte>)
    requires |b| == BLOCK_BYTE_SIZE && |keys| == SCHEDULE_SIZE
    ensures Encrypt(b, keys) == ToBytes(Cipher(BlockAt(b, 0), keys))
  {
    EncryptLeafIs(b, keys, b[0]);
    assert EncryptAt(b, keys, b[0]) == EncryptMid(b, keys, b[0]);
  }

  /** The 16 bytes DecryptBlock leaves in a buffer that held c. */
  function Decrypt(c: seq<byte>, keys: seq<byte>): (b: seq<byte>)
    requires |c| == BLOCK_BYTE_SIZE && |keys| == SCHEDULE_SIZE
    ensures |b| == BLOCK_BYTE_SIZE
  {
    DecryptAt(c, keys, c[0])
  }

  function DecryptAt(c: seq<byte>, keys: seq<byte>, d: byte): (b: seq<byte>)
    requires |c| == BLOCK_BYTE_SIZE && |keys| == SCHEDULE_SIZE
    ensures |b| == BLOCK_BYTE_SIZE
    decreases d as int, 2
  {
    DecryptMid(c, keys, d)
  }

  function DecryptMid(c: seq<byte>, keys: seq<byte>, d: byte): (b: seq<byte>)
    requires |c| == BLOCK_BYTE_SIZE && |keys| == SCHEDULE_SIZE
    ensures |b| == BLOCK_BYTE_SIZE
    decreases d as int, 1
  {
    DecryptLeaf(c, keys, d)
  }

  function DecryptLeaf(c: seq<byte>, keys: seq<byte>, d: byte): (b: seq<byte>)
    requires |c| == BLOCK_BYTE_SIZE && |keys| == SCHEDULE_SIZE
    ensures |b| == BLOCK_BYTE_SIZE
    decreases d as int, 0
  {
    if d == 0 then ToBytes(InvCipher(BlockAt(c, 0), keys)) else DecryptAt(c, keys, d - 1)
  }

  lemma {:induction false} DecryptLeafIs(c: seq<byte>, keys: seq<byte>, d: byte)
    requires |c| == BLOCK_BYTE_SIZE && |keys| == SCHEDULE_SIZE
    ensures DecryptLeaf(c, keys, d) == ToBytes(InvCipher(BlockAt(c, 0), keys))
    decreases d as int
  {
    if d != 0 {
      DecryptLeafIs(c, keys, d - 1);
      assert DecryptAt(c, keys, d - 1) == DecryptMid(c, keys, d - 1);
    }
  }

  lemma DecryptIs(c: seq<byte>, keys: seq<byte>)
    requires |c| == BLOCK_BYTE_SIZE && |keys| == SCHEDULE_SIZE
    ensures Decrypt(c, keys) == ToBytes(InvCipher(BlockAt(c, 0), keys))
  {
    DecryptLeafIs(c, keys, c[0]);
    assert DecryptAt(c, keys, c[0]) == DecryptMid(c, keys, c[0]);
  }

  /** DecryptBlock(EncryptBlock(b)) == b, on buffers. */
  lemma DecryptOfEncrypt(b: seq<byte>, keys: seq<byte>)
    requires |b| == BLOCK_BYTE_SIZE && |keys| == SCHEDULE_SIZE
    ensures Decrypt(Encrypt(b, keys), keys) == b
  {
    EncryptIs(b, keys);
    DecryptIs(Encrypt(b, keys), keys);
    BlockAtToBytes(Cipher(BlockAt(b, 0), keys));
    InvCipherOfCipher(BlockAt(b, 0), keys);
    ToBytesBlockAt(b, 0);
  }

  /** A buffer after EncryptBlock holds Encrypt of what it held. */
  lemma EncryptBlockBytes(p: seq<byte>, q: seq<byte>, keys: seq<byte>)
    requires |p| == BLOCK_BYTE_SIZE && |q| == BLOCK_BYTE_SIZE && |keys| == SCHEDULE_SIZE
    requires BlockAt(p, 0) == Cipher(BlockAt(q, 0), keys)
    ensures p == Encrypt(q, keys)
  {
    EncryptIs(q, keys);
    ToBytesBlockAt(p, 0);
  }

  /** A buffer after DecryptBlock holds Decrypt of what it held. */
  lemma DecryptBlockBytes(p: seq<byte>, q: seq<byte>, keys: seq<byte>)
    requires |p| == BLOCK_BYTE_SIZE && |q| == BLOCK_BYTE_SIZE && |keys| == SCHEDULE_SIZE
    requires BlockAt(p, 0) == InvCipher(BlockAt(q, 0), keys)
    ensures p == Decrypt(q, keys)
  {
    DecryptIs(q, keys);
    ToBytesBlockAt(p, 0);
  }
}
