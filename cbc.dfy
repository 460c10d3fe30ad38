/**
 * Cipher-block chaining (NIST SP 800-38A section 6.2) as CBCEncrypt and
 * CBCDecrypt of aes_crypt/lib/aes_crypt.cpp do it, with the library's own
 * padding: every pad byte is 0x80, and the padding argument AUTOPAD (17)
 * asks CBCEncrypt to choose the padding itself.
 *
 * Chain and Unchain state the mode on whole buffers; the methods keep the
 * C code's buffers (the output buffer, lastblock, currblock, tempblock)
 * and are proved to compute them.
 */
module Cbc {
  import opened Bytes
  import opened Aes
  import opened AesBlock

  /** The padding argument that lets CBCEncrypt choose the padding. */
  const AUTOPAD: nat := BLOCK_BYTE_SIZE + 1
  /** The value of every pad byte. */
  const PAD_BYTE: byte := 0x80

  /** Which body of the CBC block loop is compiled: the loops, the
    * unrolled body of aes_crypt/lib (whose CBCDecrypt body is empty), or
    * the unrolled bodies of the tags/alpha-1.0-demo copy. */
  datatype Build = Looped | UnrolledReference | UnrolledTags

  predicate Aligned(n: nat)
  {
    n % BLOCK_BYTE_SIZE == 0
  }

  /** The padding CBCEncrypt uses: the argument itself, or for AUTOPAD the
    * least number of bytes that completes the last block. */
  function ResolvePadding(length: nat, padding: nat): (pad: nat)
    ensures padding != AUTOPAD ==> pad == padding
    ensures padding == AUTOPAD ==> pad < BLOCK_BYTE_SIZE && Aligned(length + pad)
    ensures padding == AUTOPAD ==> forall n :: length <= n < length + pad ==> !Aligned(n)
  {
    if padding != AUTOPAD then padding
    else if length % BLOCK_BYTE_SIZE == 0 then 0
    else BLOCK_BYTE_SIZE - length % BLOCK_BYTE_SIZE
  }

  /** The number of blocks CBCEncrypt encrypts. It is computed from the
    * padding argument before AUTOPAD is resolved. */
  function BlockCount(length: nat, padding: nat): nat
  {
    (length + padding) / BLOCK_BYTE_SIZE
  }

  /** With AUTOPAD the block count covers the padded text exactly, except
    * when length % 16 is 0 or 15: then one block more is encrypted. */
  lemma AutopadBlockCount(length: nat)
    ensures BLOCK_BYTE_SIZE * BlockCount(length, AUTOPAD)
         == length + ResolvePadding(length, AUTOPAD)
            + (if length % BLOCK_BYTE_SIZE == 0 || length % BLOCK_BYTE_SIZE == 15
               then BLOCK_BYTE_SIZE else 0)
  {
    var k := length / BLOCK_BYTE_SIZE;
    var m := length % BLOCK_BYTE_SIZE;
    assert length == BLOCK_BYTE_SIZE * k + m;
    if m == 0 {
      assert length + AUTOPAD == BLOCK_BYTE_SIZE * (k + 1) + 1;
    } else if m == 15 {
      assert length + AUTOPAD == BLOCK_BYTE_SIZE * (k + 2);
    } else {
      assert length + AUTOPAD == BLOCK_BYTE_SIZE * (k + 1) + (m + 1);
    }
  }

  /** The output buffer after the copy-and-pad loop: the text, pad bytes,
    * and whatever the buffer held beyond them. */
  function Staged(text: seq<byte>, prior: seq<byte>, length: nat, pad: nat): (s: seq<byte>)
    requires length <= |text| && length + pad <= |prior|
    ensures |s| == |prior|
  {
    text[..length] + Fill(pad, PAD_BYTE) + prior[length + pad..]
  }

  /** Block i of a buffer. */
  function BlockOf(s: seq<byte>, i: nat): (b: seq<byte>)
    requires BLOCK_BYTE_SIZE * i + BLOCK_BYTE_SIZE <= |s|
    ensures |b| == BLOCK_BYTE_SIZE
  {
    s[BLOCK_BYTE_SIZE * i .. BLOCK_BYTE_SIZE * i + BLOCK_BYTE_SIZE]
  }

  /** The block before block n: the IV before the first. */
  function Previous(c: seq<byte>, n: nat, iv: seq<byte>): (b: seq<byte>)
    requires BLOCK_BYTE_SIZE * n <= |c| && |iv| == BLOCK_BYTE_SIZE
    ensures |b| == BLOCK_BYTE_SIZE
  {
    if n == 0 then iv else BlockOf(c, n - 1)
  }

  /** CBC encryption of the first n blocks of p:
    * C_i = E(P_i xor C_(i-1)), C_0 = IV. */
  function Chain(p: seq<byte>, n: nat, iv: seq<byte>, keys: seq<byte>): (c: seq<byte>)
    requires BLOCK_BYTE_SIZE * n <= |p| && |iv| == BLOCK_BYTE_SIZE && |keys| == SCHEDULE_SIZE
    ensures |c| == BLOCK_BYTE_SIZE * n
    decreases n, 2
  {
    ChainMid(p, n, iv, keys)
  }

  // Chain reaches its step through two layers, so that the verifier
  // unfolds it only where ChainIs is called.
  function ChainMid(p: seq<byte>, n: nat, iv: seq<byte>, keys: seq<byte>): (c: seq<byte>)
    requires BLOCK_BYTE_SIZE * n <= |p| && |iv| == BLOCK_BYTE_SIZE && |keys| == SCHEDULE_SIZE
    ensures |c| == BLOCK_BYTE_SIZE * n
    decreases n, 1
  {
    ChainStepOf(p, n, iv, keys)
  }

  function ChainStepOf(p: seq<byte>, n: nat, iv: seq<byte>, keys: seq<byte>): (c: seq<byte>)
    requires BLOCK_BYTE_SIZE * n <= |p| && |iv| == BLOCK_BYTE_SIZE && |keys| == SCHEDULE_SIZE
    ensures |c| == BLOCK_BYTE_SIZE * n
    decreases n, 0
  {
    if n == 0 then []
    else
      var prev := Chain(p, n - 1, iv, keys);
      prev + Encrypt(Xor(BlockOf(p, n - 1), Previous(prev, n - 1, iv)), keys)
  }

  /** One step of Chain. */
  lemma ChainIs(p: seq<byte>, n: nat, iv: seq<byte>, keys: seq<byte>)
    requires BLOCK_BYTE_SIZE * n <= |p| && |iv| == BLOCK_BYTE_SIZE && |keys| == SCHEDULE_SIZE
    ensures Chain(p, n, iv, keys)
         == if n == 0 then []
            else Chain(p, n - 1, iv, keys)
                 + Encrypt(Xor(BlockOf(p, n - 1), Previous(Chain(p, n - 1, iv, keys), n - 1, iv)), keys)
  {
    assert Chain(p, n, iv, keys) == ChainMid(p, n, iv, keys);
    assert ChainMid(p, n, iv, keys) == ChainStepOf(p, n, iv, keys);
  }

  /** CBC decryption of the first n blocks of c:
    * P_i = D(C_i) xor C_(i-1), C_0 = IV. */
  function Unchain(c: seq<byte>, n: nat, iv: seq<byte>, keys: seq<byte>): (p: seq<byte>)
    requires BLOCK_BYTE_SIZE * n <= |c| && |iv| == BLOCK_BYTE_SIZE && |keys| == SCHEDULE_SIZE
    ensures |p| == BLOCK_BYTE_SIZE * n
    decreases n, 2
  {
    UnchainMid(c, n, iv, keys)
  }

  function UnchainMid(c: seq<byte>, n: nat, iv: seq<byte>, keys: seq<byte>): (p: seq<byte>)
    requires BLOCK_BYTE_SIZE * n <= |c| && |iv| == BLOCK_BYTE_SIZE && |keys| == SCHEDULE_SIZE
    ensures |p| == BLOCK_BYTE_SIZE * n
    decreases n, 1
  {
    UnchainStepOf(c, n, iv, keys)
  }

  function UnchainStepOf(c: seq<byte>, n: nat, iv: seq<byte>, keys: seq<byte>): (p: seq<byte>)
    requires BLOCK_BYTE_SIZE * n <= |c| && |iv| == BLOCK_BYTE_SIZE && |keys| == SCHEDULE_SIZE
    ensures |p| == BLOCK_BYTE_SIZE * n
    decreases n, 0
  {
    if n == 0 then []
    else Unchain(c, n - 1, iv, keys) + Xor(Decrypt(BlockOf(c, n - 1), keys), Previous(c, n - 1, iv))
  }

  /** One step of Unchain. */
  lemma UnchainIs(c: seq<byte>, n: nat, iv: seq<byte>, keys: seq<byte>)
    requires BLOCK_BYTE_SIZE * n <= |c| && |iv| == BLOCK_BYTE_SIZE && |keys| == SCHEDULE_SIZE
    ensures Unchain(c, n, iv, keys)
         == if n == 0 then []
            else Unchain(c, n - 1, iv, keys) + Xor(Decrypt(BlockOf(c, n - 1), keys), Previous(c, n - 1, iv))
  {
    assert Unchain(c, n, iv, keys) == UnchainMid(c, n, iv, keys);
    assert UnchainMid(c, n, iv, keys) == UnchainStepOf(c, n, iv, keys);
  }

  /** Unchain undoes Chain: any buffer that starts with the n chained
    * blocks of p unchains to the first n blocks of p. */
  lemma {:induction false} UnchainOfChain(p: seq<byte>, c: seq<byte>, n: nat, iv: seq<byte>, keys: seq<byte>)
    requires BLOCK_BYTE_SIZE * n <= |p| && BLOCK_BYTE_SIZE * n <= |c|
    requires |iv| == BLOCK_BYTE_SIZE && |keys| == SCHEDULE_SIZE
    requires c[..BLOCK_BYTE_SIZE * n] == Chain(p, n, iv, keys)
    ensures Unchain(c, n, iv, keys) == p[..BLOCK_BYTE_SIZE * n]
  {
    if n != 0 {
      var m := BLOCK_BYTE_SIZE * (n - 1);
      var prev := Chain(p, n - 1, iv, keys);
      var x := Xor(BlockOf(p, n - 1), Previous(prev, n - 1, iv));
      ChainIs(p, n, iv, keys);
      UnchainIs(c, n, iv, keys);
      assert c[..m] == prev;
      assert BlockOf(c, n - 1) == Encrypt(x, keys);
      assert Previous(c, n - 1, iv) == Previous(prev, n - 1, iv);
      UnchainOfChain(p, c, n - 1, iv, keys);
      DecryptOfEncrypt(x, keys);
      XorTwice(BlockOf(p, n - 1), Previous(prev, n - 1, iv));
      assert p[..BLOCK_BYTE_SIZE * n] == p[..m] + BlockOf(p, n - 1);
    } else {
      UnchainIs(c, 0, iv, keys);
    }
  }

  /** The blocks of a buffer of k blocks followed by one block d. */
  lemma BlockOfAppend(a: seq<byte>, d: seq<byte>, k: nat, i: nat)
    requires |a| == BLOCK_BYTE_SIZE * k && |d| == BLOCK_BYTE_SIZE && i <= k
    ensures BlockOf(a + d, i) == if i == k then d else BlockOf(a, i)
  {
  }

  /** Block i of Chain(p, n) is E(P_i xor C_(i-1)), block by block. */
  lemma {:induction false} ChainBlocks(p: seq<byte>, n: nat, iv: seq<byte>, keys: seq<byte>, i: nat)
    requires BLOCK_BYTE_SIZE * n <= |p| && |iv| == BLOCK_BYTE_SIZE && |keys| == SCHEDULE_SIZE
    requires i < n
    ensures BlockOf(Chain(p, n, iv, keys), i)
         == Encrypt(Xor(BlockOf(p, i), Previous(Chain(p, n, iv, keys), i, iv)), keys)
  {
    var prev := Chain(p, n - 1, iv, keys);
    var d := Encrypt(Xor(BlockOf(p, n - 1), Previous(prev, n - 1, iv)), keys);
    ChainIs(p, n, iv, keys);
    BlockOfAppend(prev, d, n - 1, i);
    if i != 0 {
      BlockOfAppend(prev, d, n - 1, i - 1);
    }
    if i != n - 1 {
      ChainBlocks(p, n - 1, iv, keys, i);
    }
  }

  /** Block i of Unchain(c, n) is D(C_i) xor C_(i-1), block by block. */
  lemma {:induction false} UnchainBlocks(c: seq<byte>, n: nat, iv: seq<byte>, keys: seq<byte>, i: nat)
    requires BLOCK_BYTE_SIZE * n <= |c| && |iv| == BLOCK_BYTE_SIZE && |keys| == SCHEDULE_SIZE
    requires i < n
    ensures BlockOf(Unchain(c, n, iv, keys), i) == Xor(Decrypt(BlockOf(c, i), keys), Previous(c, i, iv))
  {
    var prev := Unchain(c, n - 1, iv, keys);
    var d := Xor(Decrypt(BlockOf(c, n - 1), keys), Previous(c, n - 1, iv));
    UnchainIs(c, n, iv, keys);
    BlockOfAppend(prev, d, n - 1, i);
    if i != n - 1 {
      UnchainBlocks(c, n - 1, iv, keys, i);
    }
  }

  /** The buffer CBCEncrypt leaves: the staged text, with its first
    * BlockCount blocks chained. */
  function EncryptedBuffer(text: seq<byte>, prior: seq<byte>, length: nat, padding: nat,
                           keys: seq<byte>, iv: seq<byte>): (out: seq<byte>)
    requires |keys| == SCHEDULE_SIZE && |iv| == BLOCK_BYTE_SIZE && length <= |text|
    requires length + ResolvePadding(length, padding) <= |prior|
    requires BLOCK_BYTE_SIZE * BlockCount(length, padding) <= |prior|
    ensures |out| == |prior|
  {
    var s := Staged(text, prior, length, ResolvePadding(length, padding));
    var n := BlockCount(length, padding);
    Chain(s, n, iv, keys) + s[BLOCK_BYTE_SIZE * n..]
  }

  /** With AUTOPAD, or with a padding that completes the last block, the
    * first `length` bytes of CBCDecrypt(CBCEncrypt(text)) are the text. */
  lemma CbcRoundTrip(text: seq<byte>, prior: seq<byte>, length: nat, padding: nat,
                     keys: seq<byte>, iv: seq<byte>)
    requires |keys| == SCHEDULE_SIZE && |iv| == BLOCK_BYTE_SIZE && length <= |text|
    requires length + ResolvePadding(length, padding) <= |prior|
    requires BLOCK_BYTE_SIZE * BlockCount(length, padding) <= |prior|
    requires padding == AUTOPAD || Aligned(length + padding)
    ensures length <= BLOCK_BYTE_SIZE * BlockCount(length, padding)
    ensures Unchain(EncryptedBuffer(text, prior, length, padding, keys, iv),
                    BlockCount(length, padding), iv, keys)[..length]
         == text[..length]
  {
    var n := BlockCount(length, padding);
    var s := Staged(text, prior, length, ResolvePadding(length, padding));
    if padding == AUTOPAD {
      AutopadBlockCount(length);
    } else {
      assert (length + padding) / BLOCK_BYTE_SIZE * BLOCK_BYTE_SIZE == length + padding;
    }
    assert length <= BLOCK_BYTE_SIZE * n;
    var out := EncryptedBuffer(text, prior, length, padding, keys, iv);
    assert out[..BLOCK_BYTE_SIZE * n] == Chain(s, n, iv, keys);
    UnchainOfChain(s, out, n, iv, keys);
    assert s[..BLOCK_BYTE_SIZE * n][..length] == s[..length] == text[..length];
  }

  // ------------------------------------------------------------ methods

  /** currblock[j] = cBuffer[o + j] ^ lastblock[j] for the 16 j. */
  method XorIntoCurrent(currblock: array<byte>, buf: array<byte>, o: nat, lastblock: array<byte>, build: Build)
    requires currblock.Length == BLOCK_BYTE_SIZE && lastblock.Length == BLOCK_BYTE_SIZE
    requires o + BLOCK_BYTE_SIZE <= buf.Length && currblock != buf && currblock != lastblock
    modifies currblock
    ensures currblock[..] == Xor(buf[o .. o + BLOCK_BYTE_SIZE], lastblock[..])
  {
    if build == Looped {
      for j := 0 to BLOCK_BYTE_SIZE
        invariant forall t :: 0 <= t < j ==> currblock[t] == buf[o + t] ^ lastblock[t]
      {
        currblock[j] := buf[o + j] ^ lastblock[j];
      }
    } else {
      forall j | 0 <= j < BLOCK_BYTE_SIZE {
        currblock[j] := buf[o + j] ^ lastblock[j];
      }
    }
  }

  /** cBuffer[o + j] = currblock[j] for the 16 j. */
  method StoreBlock(buf: array<byte>, o: nat, currblock: array<byte>, build: Build)
    requires currblock.Length == BLOCK_BYTE_SIZE && o + BLOCK_BYTE_SIZE <= buf.Length && buf != currblock
    modifies buf
    ensures buf[..] == Splice(old(buf[..]), o, currblock[..])
  {
    ghost var q := buf[..];
    if build == Looped {
      for j := 0 to BLOCK_BYTE_SIZE
        invariant forall t :: 0 <= t < buf.Length ==> buf[t] == if o <= t < o + j then currblock[t - o] else q[t]
      {
        buf[o + j] := currblock[j];
      }
    } else {
      forall j | 0 <= j < BLOCK_BYTE_SIZE {
        buf[o + j] := currblock[j];
      }
    }
  }

  /** memcpy of one block. */
  method CopyBlock(dst: array<byte>, src: array<byte>)
    requires dst.Length == BLOCK_BYTE_SIZE && src.Length == BLOCK_BYTE_SIZE && dst != src
    modifies dst
    ensures dst[..] == src[..]
  {
    forall j | 0 <= j < BLOCK_BYTE_SIZE {
      dst[j] := src[j];
    }
  }

  /** One pass of CBCEncrypt's block loop: currblock = block i xor
    * lastblock, EncryptBlock(currblock), copy it back into block i and
    * into lastblock. */
  method EncryptChainBlock(buf: array<byte>, currblock: array<byte>, lastblock: array<byte>,
                           i: nat, keys: seq<byte>, build: Build)
    requires currblock.Length == BLOCK_BYTE_SIZE && lastblock.Length == BLOCK_BYTE_SIZE
    requires BLOCK_BYTE_SIZE * i + BLOCK_BYTE_SIZE <= buf.Length && |keys| == SCHEDULE_SIZE
    requires buf != currblock && buf != lastblock && currblock != lastblock
    modifies buf, currblock, lastblock
    ensures lastblock[..] == Encrypt(Xor(BlockOf(old(buf[..]), i), old(lastblock[..])), keys)
    ensures buf[..] == Splice(old(buf[..]), BLOCK_BYTE_SIZE * i, lastblock[..])
  {
    var o := i * BLOCK_BYTE_SIZE;
    XorIntoCurrent(currblock, buf, o, lastblock, build);
    ghost var x := currblock[..];
    EncryptBlock(currblock, keys);
    EncryptBlockBytes(currblock[..], x, keys);
    StoreBlock(buf, o, currblock, build);
    CopyBlock(lastblock, currblock);
  }

  /** The block loop keeps: the first i blocks are chained, the rest
    * staged, and lastblock holds the last ciphertext block. */
  lemma EncryptLoopStep(s: seq<byte>, iv: seq<byte>, keys: seq<byte>, i: nat,
                        b: seq<byte>, last: seq<byte>, b': seq<byte>, last': seq<byte>)
    requires |iv| == BLOCK_BYTE_SIZE && |keys| == SCHEDULE_SIZE
    requires BLOCK_BYTE_SIZE * i + BLOCK_BYTE_SIZE <= |s|
    requires b == Chain(s, i, iv, keys) + s[BLOCK_BYTE_SIZE * i..]
    requires last == Previous(Chain(s, i, iv, keys), i, iv)
    requires last' == Encrypt(Xor(BlockOf(b, i), last), keys)
    requires b' == Splice(b, BLOCK_BYTE_SIZE * i, last')
    ensures b' == Chain(s, i + 1, iv, keys) + s[BLOCK_BYTE_SIZE * i + BLOCK_BYTE_SIZE..]
    ensures last' == Previous(Chain(s, i + 1, iv, keys), i + 1, iv)
  {
    var o := BLOCK_BYTE_SIZE * i;
    var c := Chain(s, i, iv, keys);
    assert BlockOf(b, i) == BlockOf(s, i);
    ChainIs(s, i + 1, iv, keys);
    assert b' == c + last' + s[o + BLOCK_BYTE_SIZE..];
    assert BlockOf(c + last', i) == last';
  }

  /** CBCEncrypt's first loop: the first length bytes of the buffer get
    * the text, the next pad bytes get 0x80. */
  method StagePlaintext(text: seq<byte>, buf: array<byte>, length: nat, pad: nat)
    requires length <= |text| && length + pad <= buf.Length
    modifies buf
    ensures buf[..] == Staged(text, old(buf[..]), length, pad)
  {
    ghost var prior := buf[..];
    ghost var s := Staged(text, prior, length, pad);
    for i := 0 to length + pad
      modifies buf
      invariant forall k :: 0 <= k < buf.Length ==> buf[k] == if k < i then s[k] else prior[k]
    {
      if i < length {
        buf[i] := text[i];
      } else {
        buf[i] := PAD_BYTE;
      }
    }
    assert buf[..] == s;
  }

  /** One pass of CBCEncrypt's block loop keeps the loop invariant: the
    * first i blocks are chained, lastblock is the last of them. */
  method EncryptLoopBody(buf: array<byte>, currblock: array<byte>, lastblock: array<byte>, i: nat,
                         keys: seq<byte>, iv: seq<byte>, ghost s: seq<byte>, build: Build)
    requires currblock.Length == BLOCK_BYTE_SIZE && lastblock.Length == BLOCK_BYTE_SIZE
    requires |keys| == SCHEDULE_SIZE && |iv| == BLOCK_BYTE_SIZE
    requires BLOCK_BYTE_SIZE * i + BLOCK_BYTE_SIZE <= |s| == buf.Length
    requires buf != currblock && buf != lastblock && currblock != lastblock
    requires buf[..] == Chain(s, i, iv, keys) + s[BLOCK_BYTE_SIZE * i..]
    requires lastblock[..] == Previous(Chain(s, i, iv, keys), i, iv)
    modifies buf, currblock, lastblock
    ensures buf[..] == Chain(s, i + 1, iv, keys) + s[BLOCK_BYTE_SIZE * (i + 1)..]
    ensures lastblock[..] == Previous(Chain(s, i + 1, iv, keys), i + 1, iv)
  {
    ghost var b := buf[..];
    ghost var last := lastblock[..];
    EncryptChainBlock(buf, currblock, lastblock, i, keys, build);
    EncryptLoopStep(s, iv, keys, i, b, last, buf[..], lastblock[..]);
  }

  /** CBCEncrypt's block loop over a staged buffer, lastblock starting as
    * the IV. */
  method EncryptChainLoop(buf: array<byte>, blocks: nat, lastblock: array<byte>,
                          keys: seq<byte>, iv: seq<byte>, build: Build)
    requires |keys| == SCHEDULE_SIZE && |iv| == BLOCK_BYTE_SIZE && lastblock.Length == BLOCK_BYTE_SIZE
    requires BLOCK_BYTE_SIZE * blocks <= buf.Length
    requires buf != lastblock && lastblock[..] == iv
    modifies buf, lastblock
    ensures buf[..] == Chain(old(buf[..]), blocks, iv, keys) + old(buf[..])[BLOCK_BYTE_SIZE * blocks..]
  {
    ghost var s := buf[..];
    var currblock := new byte[BLOCK_BYTE_SIZE];
    ChainIs(s, 0, iv, keys);
    var i := 0;
    while i < blocks
      modifies buf, currblock, lastblock
      invariant 0 <= i <= blocks
      invariant buf[..] == Chain(s, i, iv, keys) + s[BLOCK_BYTE_SIZE * i..]
      invariant lastblock[..] == Previous(Chain(s, i, iv, keys), i, iv)
    {
      EncryptLoopBody(buf, currblock, lastblock, i, keys, iv, s, build);
      i := i + 1;
    }
  }

  /** CBCEncrypt: copy the text into the buffer, pad it with 0x80 bytes,
    * and chain the first BlockCount(length, padding) blocks in place.
    * As in the C code the block count comes from the unresolved padding
    * argument. */
  method CBCEncrypt(text: seq<byte>, buf: array<byte>, length: nat, padding: nat,
                    keys: seq<byte>, iv: seq<byte>, build: Build)
    requires |keys| == SCHEDULE_SIZE && |iv| == BLOCK_BYTE_SIZE && length <= |text|
    requires length + padding < 0x1_0000_0000
    requires length + ResolvePadding(length, padding) <= buf.Length
    requires BLOCK_BYTE_SIZE * BlockCount(length, padding) <= buf.Length
    modifies buf
    ensures buf[..] == EncryptedBuffer(text, old(buf[..]), length, padding, keys, iv)
  {
    var blocks := (length + padding) / BLOCK_BYTE_SIZE;
    var lastblock := new byte[BLOCK_BYTE_SIZE];
    forall t | 0 <= t < BLOCK_BYTE_SIZE {
      lastblock[t] := iv[t];
    }
    assert lastblock[..] == iv;
    var pad := padding;
    if pad == AUTOPAD {
      if length % BLOCK_BYTE_SIZE == 0 {
        pad := 0;
      } else {
        pad := BLOCK_BYTE_SIZE - length % BLOCK_BYTE_SIZE;
      }
    }
    assert pad == ResolvePadding(length, padding);
    assert blocks == BlockCount(length, padding);
    ghost var prior := buf[..];
    StagePlaintext(text, buf, length, pad);
    ghost var staged := buf[..];
    assert staged == Staged(text, prior, length, pad);
    EncryptChainLoop(buf, blocks, lastblock, keys, iv, build);
    assert buf[..] == Chain(staged, blocks, iv, keys) + staged[BLOCK_BYTE_SIZE * blocks..];
    assert prior == old(buf[..]);
    assert buf[..] == EncryptedBuffer(text, prior, length, padding, keys, iv);
  }

  /** currblock[j] = tempblock[j] = cText[o + j] for the 16 j. */
  method LoadBlock(currblock: array<byte>, tempblock: array<byte>, ctext: seq<byte>, o: nat, build: Build)
    requires currblock.Length == BLOCK_BYTE_SIZE && tempblock.Length == BLOCK_BYTE_SIZE
    requires o + BLOCK_BYTE_SIZE <= |ctext| && currblock != tempblock
    modifies currblock, tempblock
    ensures currblock[..] == ctext[o .. o + BLOCK_BYTE_SIZE] && tempblock[..] == currblock[..]
  {
    if build == Looped {
      for j := 0 to BLOCK_BYTE_SIZE
        invariant forall t :: 0 <= t < j ==> currblock[t] == ctext[o + t] && tempblock[t] == ctext[o + t]
      {
        currblock[j] := ctext[o + j];
        tempblock[j] := currblock[j];
      }
    } else {
      forall j | 0 <= j < BLOCK_BYTE_SIZE {
        currblock[j] := ctext[o + j];
      }
      forall j | 0 <= j < BLOCK_BYTE_SIZE {
        tempblock[j] := currblock[j];
      }
    }
  }

  /** cBuffer[o + j] = currblock[j] ^ lastblock[j], then lastblock[j] =
    * tempblock[j], for the 16 j. */
  method XorOutAndAdvance(buf: array<byte>, o: nat, currblock: array<byte>, tempblock: array<byte>,
                          lastblock: array<byte>, build: Build)
    requires currblock.Length == BLOCK_BYTE_SIZE && tempblock.Length == BLOCK_BYTE_SIZE
    requires lastblock.Length == BLOCK_BYTE_SIZE && o + BLOCK_BYTE_SIZE <= buf.Length
    requires buf != currblock && buf != tempblock && buf != lastblock
    requires currblock != lastblock && tempblock != lastblock
    modifies buf, lastblock
    ensures buf[..] == Splice(old(buf[..]), o, Xor(currblock[..], old(lastblock[..])))
    ensures lastblock[..] == tempblock[..]
  {
    ghost var q := buf[..];
    ghost var d := Xor(currblock[..], lastblock[..]);
    ghost var l := lastblock[..];
    if build == Looped {
      for j := 0 to BLOCK_BYTE_SIZE
        invariant forall t :: 0 <= t < buf.Length ==> buf[t] == if o <= t < o + j then d[t - o] else q[t]
        invariant forall t :: 0 <= t < BLOCK_BYTE_SIZE ==> lastblock[t] == if t < j then tempblock[t] else l[t]
      {
        buf[o + j] := currblock[j] ^ lastblock[j];
        lastblock[j] := tempblock[j];
      }
    } else {
      forall j | 0 <= j < BLOCK_BYTE_SIZE {
        buf[o + j] := currblock[j] ^ lastblock[j];
      }
      forall j | 0 <= j < BLOCK_BYTE_SIZE {
        lastblock[j] := tempblock[j];
      }
    }
  }

  /** One pass of CBCDecrypt's block loop: currblock and tempblock get
    * block i of the ciphertext, DecryptBlock(currblock), block i of the
    * output is currblock xor lastblock, and lastblock becomes tempblock. */
  method DecryptChainBlock(ctext: seq<byte>, buf: array<byte>, currblock: array<byte>,
                           tempblock: array<byte>, lastblock: array<byte>,
                           i: nat, keys: seq<byte>, build: Build)
    requires currblock.Length == BLOCK_BYTE_SIZE && tempblock.Length == BLOCK_BYTE_SIZE
    requires lastblock.Length == BLOCK_BYTE_SIZE && |keys| == SCHEDULE_SIZE
    requires BLOCK_BYTE_SIZE * i + BLOCK_BYTE_SIZE <= |ctext|
    requires BLOCK_BYTE_SIZE * i + BLOCK_BYTE_SIZE <= buf.Length
    requires buf != currblock && buf != tempblock && buf != lastblock
    requires currblock != tempblock && currblock != lastblock && tempblock != lastblock
    modifies buf, currblock, tempblock, lastblock
    ensures lastblock[..] == BlockOf(ctext, i)
    ensures buf[..] == Splice(old(buf[..]), BLOCK_BYTE_SIZE * i, Xor(Decrypt(BlockOf(ctext, i), keys), old(lastblock[..])))
  {
    var o := i * BLOCK_BYTE_SIZE;
    LoadBlock(currblock, tempblock, ctext, o, build);
    ghost var x := currblock[..];
    DecryptBlock(currblock, keys);
    DecryptBlockBytes(currblock[..], x, keys);
    XorOutAndAdvance(buf, o, currblock, tempblock, lastblock, build);
  }

  /** The decryption loop keeps: the first i output blocks are
    * unchained, the rest of the buffer is as it was. */
  lemma DecryptLoopStep(c: seq<byte>, prior: seq<byte>, iv: seq<byte>, keys: seq<byte>, i: nat,
                        b: seq<byte>, last: seq<byte>, b': seq<byte>)
    requires |iv| == BLOCK_BYTE_SIZE && |keys| == SCHEDULE_SIZE
    requires BLOCK_BYTE_SIZE * i + BLOCK_BYTE_SIZE <= |c|
    requires BLOCK_BYTE_SIZE * i + BLOCK_BYTE_SIZE <= |prior|
    requires b == Unchain(c, i, iv, keys) + prior[BLOCK_BYTE_SIZE * i..]
    requires last == Previous(c, i, iv)
    requires b' == Splice(b, BLOCK_BYTE_SIZE * i, Xor(Decrypt(BlockOf(c, i), keys), last))
    ensures b' == Unchain(c, i + 1, iv, keys) + prior[BLOCK_BYTE_SIZE * i + BLOCK_BYTE_SIZE..]
  {
    var o := BLOCK_BYTE_SIZE * i;
    var d := Xor(Decrypt(BlockOf(c, i), keys), last);
    UnchainIs(c, i + 1, iv, keys);
    assert b' == Unchain(c, i, iv, keys) + d + prior[o + BLOCK_BYTE_SIZE..];
  }

  /** One pass of CBCDecrypt's block loop keeps the loop invariant: the
    * first i output blocks are unchained, lastblock is ciphertext block
    * i - 1 (the IV for i = 0). */
  method DecryptLoopBody(ctext: seq<byte>, buf: array<byte>, currblock: array<byte>,
                         tempblock: array<byte>, lastblock: array<byte>, i: nat,
                         keys: seq<byte>, iv: seq<byte>, ghost prior: seq<byte>, build: Build)
    requires currblock.Length == BLOCK_BYTE_SIZE && tempblock.Length == BLOCK_BYTE_SIZE
    requires lastblock.Length == BLOCK_BYTE_SIZE && |keys| == SCHEDULE_SIZE && |iv| == BLOCK_BYTE_SIZE
    requires BLOCK_BYTE_SIZE * i + BLOCK_BYTE_SIZE <= |ctext|
    requires BLOCK_BYTE_SIZE * i + BLOCK_BYTE_SIZE <= |prior| == buf.Length
    requires buf != currblock && buf != tempblock && buf != lastblock
    requires currblock != tempblock && currblock != lastblock && tempblock != lastblock
    requires buf[..] == Unchain(ctext, i, iv, keys) + prior[BLOCK_BYTE_SIZE * i..]
    requires lastblock[..] == Previous(ctext, i, iv)
    modifies buf, currblock, tempblock, lastblock
    ensures buf[..] == Unchain(ctext, i + 1, iv, keys) + prior[BLOCK_BYTE_SIZE * (i + 1)..]
    ensures lastblock[..] == Previous(ctext, i + 1, iv)
  {
    ghost var b := buf[..];
    ghost var last := lastblock[..];
    DecryptChainBlock(ctext, buf, currblock, tempblock, lastblock, i, keys, build);
    DecryptLoopStep(ctext, prior, iv, keys, i, b, last, buf[..]);
  }

  /** CBCDecrypt's block loop, with a loop body compiled in: lastblock
    * starts as the IV. */
  method DecryptChainLoop(ctext: seq<byte>, buf: array<byte>, blocks: nat, lastblock: array<byte>,
                          keys: seq<byte>, iv: seq<byte>, build: Build)
    requires |keys| == SCHEDULE_SIZE && |iv| == BLOCK_BYTE_SIZE && lastblock.Length == BLOCK_BYTE_SIZE
    requires BLOCK_BYTE_SIZE * blocks <= |ctext| && BLOCK_BYTE_SIZE * blocks <= buf.Length
    requires buf != lastblock && lastblock[..] == iv
    modifies buf, lastblock
    ensures buf[..] == Unchain(ctext, blocks, iv, keys) + old(buf[..])[BLOCK_BYTE_SIZE * blocks..]
  {
    var tempblock := new byte[BLOCK_BYTE_SIZE];
    var currblock := new byte[BLOCK_BYTE_SIZE];
    ghost var prior := buf[..];
    UnchainIs(ctext, 0, iv, keys);
    var i := 0;
    while i < blocks
      modifies buf, currblock, tempblock, lastblock
      invariant 0 <= i <= blocks
      invariant buf[..] == Unchain(ctext, i, iv, keys) + prior[BLOCK_BYTE_SIZE * i..]
      invariant lastblock[..] == Previous(ctext, i, iv)
    {
      DecryptLoopBody(ctext, buf, currblock, tempblock, lastblock, i, keys, iv, prior, build);
      i := i + 1;
    }
  }

  /** CBCDecrypt: decrypt the first length / 16 blocks of ctext into the
    * buffer. The unrolled body of aes_crypt/lib is empty, so with it the
    * block loop writes nothing and the buffer is left as it was. */
  method CBCDecrypt(ctext: seq<byte>, buf: array<byte>, length: nat,
                    keys: seq<byte>, iv: seq<byte>, build: Build)
    requires |keys| == SCHEDULE_SIZE && |iv| == BLOCK_BYTE_SIZE
    requires BLOCK_BYTE_SIZE * (length / BLOCK_BYTE_SIZE) <= |ctext|
    requires BLOCK_BYTE_SIZE * (length / BLOCK_BYTE_SIZE) <= buf.Length
    modifies buf
    ensures build == UnrolledReference ==> buf[..] == old(buf[..])
    ensures build != UnrolledReference ==>
              buf[..] == Unchain(ctext, length / BLOCK_BYTE_SIZE, iv, keys)
                         + old(buf[..])[BLOCK_BYTE_SIZE * (length / BLOCK_BYTE_SIZE)..]
  {
    var blocks := length / BLOCK_BYTE_SIZE;
    var lastblock := new byte[BLOCK_BYTE_SIZE];
    forall t | 0 <= t < BLOCK_BYTE_SIZE {
      lastblock[t] := iv[t];
    }
    assert lastblock[..] == iv;
    if build != UnrolledReference {
      DecryptChainLoop(ctext, buf, blocks, lastblock, keys, iv, build);
    }
  }
}
