/**
 * What the TSense protocol functions share: the field sizes and message
 * types, the fixed IV, the little-endian byte images of the integer
 * fields, the struct message the pack and unpack functions fill in, and
 * encrypt-then-MAC on whole buffers (Seal, Open).
 */
module Wire {
  import opened Bytes
  import opened Aes
  import Cbc
  import Cmac

  const ID_SIZE: nat := 6
  const MSGTYPE_SIZE: nat := 1
  const TIMER_SIZE: nat := 4
  const KEY_BYTES: nat := 16

  /** One block holds MSG_T_GET_ID_R's ciphertext, two key-to-sink's. */
  const IDMSG_CRYPTSIZE: nat := 16
  const IDMSG_FULLSIZE: nat := MSGTYPE_SIZE + ID_SIZE + IDMSG_CRYPTSIZE + BLOCK_BYTE_SIZE
  const KEYTOSINK_CRYPTSIZE: nat := 32
  const KEYTOSINK_FULLSIZE: nat := MSGTYPE_SIZE + KEY_BYTES + TIMER_SIZE + KEYTOSINK_CRYPTSIZE + BLOCK_BYTE_SIZE
  const KEYTOSENS_FULLSIZE: nat := MSGTYPE_SIZE + KEYTOSINK_CRYPTSIZE + BLOCK_BYTE_SIZE

  const MSG_T_GET_ID_R: byte := 0x10
  const MSG_T_KEY_TO_SINK: byte := 0x11
  const MSG_T_REKEY_REQUEST: byte := 0x30
  const MSG_T_REKEY_HANDSHAKE: byte := 0x31

  /** The hard-coded IV: sixteen 0x30 bytes. */
  const IV: seq<byte> := Fill(BLOCK_BYTE_SIZE, 0x30)

  // ------------------------------------------------ integer fields

  /** The two bytes of a u_int16_ard as a little-endian machine stores
    * them, the bytes `(byte_ard*)&x` points to. */
  function Le16(x: bv16): (r: seq<byte>)
    ensures |r| == 2
  {
    [(x & 0xFF) as byte, (x >> 8) as byte]
  }

  /** The four bytes of a u_int32_ard, least significant first. */
  function Le32(x: bv32): (r: seq<byte>)
    ensures |r| == 4
  {
    [(x & 0xFF) as byte, ((x >> 8) & 0xFF) as byte, ((x >> 16) & 0xFF) as byte, (x >> 24) as byte]
  }

  /** The u_int16_ard whose image is s. */
  function Le16Value(s: seq<byte>): bv16
    requires |s| == 2
  {
    (s[1] as bv16 << 8) | s[0] as bv16
  }

  /** The u_int32_ard whose image is s. */
  function Le32Value(s: seq<byte>): bv32
    requires |s| == 4
  {
    (s[3] as bv32 << 24) | (s[2] as bv32 << 16) | (s[1] as bv32 << 8) | s[0] as bv32
  }

  /** Reading back a stored u_int16_ard gives it back. */
  lemma Le16ValueOfImage(x: bv16)
    ensures Le16Value(Le16(x)) == x
  {
    var b := Le16(x);
    JoinSplit16(x, b[1], b[0]);
  }

  /** Every two bytes are the image of their value. */
  lemma Le16ImageOfValue(s: seq<byte>)
    requires |s| == 2
    ensures Le16(Le16Value(s)) == s
  {
    SplitJoin16(s[1], s[0], Le16Value(s));
    assert s == [s[0], s[1]];
  }

  lemma JoinSplit16(x: bv16, h: byte, l: byte)
    requires h == (x >> 8) as byte && l == (x & 0xFF) as byte
    ensures (h as bv16 << 8) | l as bv16 == x
  {
  }

  lemma SplitJoin16(h: byte, l: byte, v: bv16)
    requires v == (h as bv16 << 8) | l as bv16
    ensures Le16(v) == [l, h]
  {
  }

  /** Reading back a stored u_int32_ard gives it back. */
  lemma Le32ValueOfImage(x: bv32)
    ensures Le32Value(Le32(x)) == x
  {
    var b := Le32(x);
    JoinSplit32(x, b[3], b[2], b[1], b[0]);
  }

  /** Every four bytes are the image of their value. */
  lemma Le32ImageOfValue(s: seq<byte>)
    requires |s| == 4
    ensures Le32(Le32Value(s)) == s
  {
    Le32ImageBytes(s);
    SameFourBytes(Le32(Le32Value(s)), s);
  }

  lemma Le32ImageBytes(s: seq<byte>)
    requires |s| == 4
    ensures var r := Le32(Le32Value(s)); r[0] == s[0] && r[1] == s[1] && r[2] == s[2] && r[3] == s[3]
  {
    SplitJoin32(s[3], s[2], s[1], s[0], Le32Value(s));
  }

  lemma SameFourBytes(r: seq<byte>, s: seq<byte>)
    requires |r| == 4 && |s| == 4
    requires r[0] == s[0] && r[1] == s[1] && r[2] == s[2] && r[3] == s[3]
    ensures r == s
  {
    assert forall i | 0 <= i < 4 :: r[i] == s[i];
  }

  lemma JoinSplit32(x: bv32, b3: byte, b2: byte, b1: byte, b0: byte)
    requires b3 == (x >> 24) as byte && b2 == ((x >> 16) & 0xFF) as byte
    requires b1 == ((x >> 8) & 0xFF) as byte && b0 == (x & 0xFF) as byte
    ensures (b3 as bv32 << 24) | (b2 as bv32 << 16) | (b1 as bv32 << 8) | b0 as bv32 == x
  {
  }

  lemma SplitJoin32(b3: byte, b2: byte, b1: byte, b0: byte, v: bv32)
    requires v == (b3 as bv32 << 24) | (b2 as bv32 << 16) | (b1 as bv32 << 8) | b0 as bv32
    ensures Le32(v)[0] == b0 && Le32(v)[1] == b1 && Le32(v)[2] == b2 && Le32(v)[3] == b3
  {
  }

  /** What `(u_int16_ard)*temp` reads from a byte pointer temp: its first
    * byte alone, widened. */
  function FirstByte16(s: seq<byte>): (v: bv16)
    requires |s| > 0
    ensures v < 0x100
  {
    s[0] as bv16
  }

  /** What `(u_int32_ard)*temp` reads: the first byte alone, widened. */
  function FirstByte32(s: seq<byte>): (v: bv32)
    requires |s| > 0
    ensures v < 0x100
  {
    s[0] as bv32
  }

  /** The first-byte read of a stored integer keeps only its low byte. */
  lemma FirstByteOfImage(x: bv16, y: bv32)
    ensures FirstByte16(Le16(x)) == x & 0xFF
    ensures FirstByte32(Le32(y)) == y & 0xFF
  {
    assert ((x & 0xFF) as byte) as bv16 == x & 0xFF;
    assert ((y & 0xFF) as byte) as bv32 == y & 0xFF;
  }

  // ---------------------------------------------------- the struct

  /** struct message. The pointer members are modelled as the bytes the
    * functions store through them or read through them. The u_int16_ard
    * nonce belongs to the aes_crypt/lib struct, the u_int32_ard nounce to
    * the struct of the trunk and aes-crypt/lib copies. */
  class Message {
    var msgtype: byte
    var pID: seq<byte>
    var pCipherID: seq<byte>
    var nonce: bv16
    var nounce: bv32
    var cmac: seq<byte>
    var key: seq<byte>
    var ciphertext: seq<byte>
    var timer: bv32

    constructor ()
      ensures msgtype == 0 && nonce == 0 && nounce == 0 && timer == 0
      ensures pID == [] && pCipherID == [] && cmac == [] && key == [] && ciphertext == []
    {
      msgtype, nonce, nounce, timer := 0, 0, 0, 0;
      pID, pCipherID, cmac, key, ciphertext := [], [], [], [], [];
    }
  }

  // ------------------------------------------- encrypt-then-MAC

  /** CBCEncrypt of the first length bytes of text with pad 0x80 bytes
    * into a buffer that the padded text fills exactly. */
  function Seal(keys: seq<byte>, text: seq<byte>, length: nat, pad: nat): (c: seq<byte>)
    requires |keys| == SCHEDULE_SIZE && length <= |text| && Cbc.Aligned(length + pad)
    ensures |c| == length + pad
  {
    SealAt(keys, text, length, pad, keys[0])
  }

  // Seal and Open reach Chain and Unchain through two layers, so that the
  // verifier does not unroll them on literal block counts except where
  // SealIs and OpenIs are called.
  function SealAt(keys: seq<byte>, text: seq<byte>, length: nat, pad: nat, d: byte): (c: seq<byte>)
    requires |keys| == SCHEDULE_SIZE && length <= |text| && Cbc.Aligned(length + pad)
    ensures |c| == length + pad
    decreases d as int, 2
  {
    SealMid(keys, text, length, pad, d)
  }

  function SealMid(keys: seq<byte>, text: seq<byte>, length: nat, pad: nat, d: byte): (c: seq<byte>)
    requires |keys| == SCHEDULE_SIZE && length <= |text| && Cbc.Aligned(length + pad)
    ensures |c| == length + pad
    decreases d as int, 1
  {
    SealLeaf(keys, text, length, pad, d)
  }

  function SealLeaf(keys: seq<byte>, text: seq<byte>, length: nat, pad: nat, d: byte): (c: seq<byte>)
    requires |keys| == SCHEDULE_SIZE && length <= |text| && Cbc.Aligned(length + pad)
    ensures |c| == length + pad
    decreases d as int, 0
  {
    if d == 0 then Cbc.Chain(text[..length] + Fill(pad, Cbc.PAD_BYTE), (length + pad) / BLOCK_BYTE_SIZE, IV, keys)
    else SealAt(keys, text, length, pad, d - 1)
  }

  lemma {:induction false} SealLeafIs(keys: seq<byte>, text: seq<byte>, length: nat, pad: nat, d: byte)
    requires |keys| == SCHEDULE_SIZE && length <= |text| && Cbc.Aligned(length + pad)
    ensures SealLeaf(keys, text, length, pad, d)
         == Cbc.Chain(text[..length] + Fill(pad, Cbc.PAD_BYTE), (length + pad) / BLOCK_BYTE_SIZE, IV, keys)
    decreases d as int
  {
    if d != 0 {
      SealLeafIs(keys, text, length, pad, d - 1);
      assert SealAt(keys, text, length, pad, d - 1) == SealMid(keys, text, length, pad, d - 1);
    }
  }

  lemma SealIs(keys: seq<byte>, text: seq<byte>, length: nat, pad: nat)
    requires |keys| == SCHEDULE_SIZE && length <= |text| && Cbc.Aligned(length + pad)
    ensures Seal(keys, text, length, pad)
         == Cbc.Chain(text[..length] + Fill(pad, Cbc.PAD_BYTE), (length + pad) / BLOCK_BYTE_SIZE, IV, keys)
  {
    SealLeafIs(keys, text, length, pad, keys[0]);
    assert SealAt(keys, text, length, pad, keys[0]) == SealMid(keys, text, length, pad, keys[0]);
  }

  /** CBCDecrypt of the n blocks of c. */
  function Open(keys: seq<byte>, c: seq<byte>, n: nat): (p: seq<byte>)
    requires |keys| == SCHEDULE_SIZE && BLOCK_BYTE_SIZE * n <= |c|
    ensures |p| == BLOCK_BYTE_SIZE * n
  {
    OpenAt(keys, c, n, keys[0])
  }

  function OpenAt(keys: seq<byte>, c: seq<byte>, n: nat, d: byte): (p: seq<byte>)
    requires |keys| == SCHEDULE_SIZE && BLOCK_BYTE_SIZE * n <= |c|
    ensures |p| == BLOCK_BYTE_SIZE * n
    decreases d as int, 2
  {
    OpenMid(keys, c, n, d)
  }

  function OpenMid(keys: seq<byte>, c: seq<byte>, n: nat, d: byte): (p: seq<byte>)
    requires |keys| == SCHEDULE_SIZE && BLOCK_BYTE_SIZE * n <= |c|
    ensures |p| == BLOCK_BYTE_SIZE * n
    decreases d as int, 1
  {
    OpenLeaf(keys, c, n, d)
  }

  function OpenLeaf(keys: seq<byte>, c: seq<byte>, n: nat, d: byte): (p: seq<byte>)
    requires |keys| == SCHEDULE_SIZE && BLOCK_BYTE_SIZE * n <= |c|
    ensures |p| == BLOCK_BYTE_SIZE * n
    decreases d as int, 0
  {
    if d == 0 then Cbc.Unchain(c, n, IV, keys) else OpenAt(keys, c, n, d - 1)
  }

  lemma {:induction false} OpenLeafIs(keys: seq<byte>, c: seq<byte>, n: nat, d: byte)
    requires |keys| == SCHEDULE_SIZE && BLOCK_BYTE_SIZE * n <= |c|
    ensures OpenLeaf(keys, c, n, d) == Cbc.Unchain(c, n, IV, keys)
    decreases d as int
  {
    if d != 0 {
      OpenLeafIs(keys, c, n, d - 1);
      assert OpenAt(keys, c, n, d - 1) == OpenMid(keys, c, n, d - 1);
    }
  }

  lemma OpenIs(keys: seq<byte>, c: seq<byte>, n: nat)
    requires |keys| == SCHEDULE_SIZE && BLOCK_BYTE_SIZE * n <= |c|
    ensures Open(keys, c, n) == Cbc.Unchain(c, n, IV, keys)
  {
    OpenLeafIs(keys, c, n, keys[0]);
    assert OpenAt(keys, c, n, keys[0]) == OpenMid(keys, c, n, keys[0]);
  }

  /** Opening a sealed buffer gives back the text and its padding. */
  lemma OpenSeal(keys: seq<byte>, text: seq<byte>, length: nat, pad: nat)
    requires |keys| == SCHEDULE_SIZE && length <= |text| && Cbc.Aligned(length + pad)
    ensures Open(keys, Seal(keys, text, length, pad), (length + pad) / BLOCK_BYTE_SIZE)
         == text[..length] + Fill(pad, Cbc.PAD_BYTE)
  {
    var p := text[..length] + Fill(pad, Cbc.PAD_BYTE);
    var n := (length + pad) / BLOCK_BYTE_SIZE;
    var c := Seal(keys, text, length, pad);
    SealIs(keys, text, length, pad);
    OpenIs(keys, c, n);
    assert c[..BLOCK_BYTE_SIZE * n] == c;
    Cbc.UnchainOfChain(p, c, n, IV, keys);
  }

  /** When the padded text fills the output buffer exactly and the block
    * count covers it, CBCEncrypt leaves Seal in the buffer, whatever the
    * buffer held before. */
  lemma EncryptedBufferIsSeal(text: seq<byte>, prior: seq<byte>, length: nat, padding: nat, keys: seq<byte>)
    requires |keys| == SCHEDULE_SIZE && length <= |text|
    requires |prior| == length + Cbc.ResolvePadding(length, padding)
    requires |prior| == BLOCK_BYTE_SIZE * Cbc.BlockCount(length, padding)
    ensures Cbc.EncryptedBuffer(text, prior, length, padding, keys, IV)
         == Seal(keys, text, length, Cbc.ResolvePadding(length, padding))
  {
    var pad := Cbc.ResolvePadding(length, padding);
    var s := Cbc.Staged(text, prior, length, pad);
    assert s == text[..length] + Fill(pad, Cbc.PAD_BYTE);
    assert (length + pad) / BLOCK_BYTE_SIZE == Cbc.BlockCount(length, padding);
    SealIs(keys, text, length, pad);
  }

  /** CBCEncrypt of the text into a fresh buffer of size bytes, which the
    * padded text fills exactly: the crypt_buff and cipher_buff of the
    * pack functions. */
  method SealBuffer(keys: seq<byte>, text: seq<byte>, length: nat, padding: nat, size: nat)
    returns (cipher: array<byte>)
    requires |keys| == SCHEDULE_SIZE && length <= |text| && length + padding < 0x1_0000_0000
    requires size == length + Cbc.ResolvePadding(length, padding)
    requires size == BLOCK_BYTE_SIZE * Cbc.BlockCount(length, padding)
    ensures fresh(cipher)
    ensures cipher[..] == Seal(keys, text, length, Cbc.ResolvePadding(length, padding))
  {
    cipher := new byte[size];
    ghost var prior := cipher[..];
    Cbc.CBCEncrypt(text, cipher, length, padding, keys, IV, Cbc.Looped);
    EncryptedBufferIsSeal(text, prior, length, padding, keys);
  }

  /** CBCDecrypt of the n blocks of c into a fresh buffer of n blocks:
    * the plain_buff of the unpack functions. */
  method OpenBuffer(keys: seq<byte>, c: seq<byte>, n: nat) returns (plain: array<byte>)
    requires |keys| == SCHEDULE_SIZE && BLOCK_BYTE_SIZE * n <= |c| && BLOCK_BYTE_SIZE * n < 0x1_0000_0000
    ensures fresh(plain) && plain[..] == Open(keys, c, n)
  {
    plain := new byte[BLOCK_BYTE_SIZE * n];
    ghost var prior := plain[..];
    Cbc.CBCDecrypt(c, plain, BLOCK_BYTE_SIZE * n, keys, IV, Cbc.Looped);
    assert prior[BLOCK_BYTE_SIZE * n..] == [];
    OpenIs(keys, c, n);
  }

  // ------------------------------------------------- the messages

  /** aesCMac of the whole of c. */
  function CmacOf(keys: seq<byte>, c: seq<byte>): (t: seq<byte>)
    requires |keys| == SCHEDULE_SIZE
    ensures |t| == BLOCK_BYTE_SIZE
  {
    CmacAt(keys, c, keys[0])
  }

  // CmacOf reaches Mac through two layers, so that the verifier unfolds
  // it only where CmacOfIs is called.
  function CmacAt(keys: seq<byte>, c: seq<byte>, d: byte): (t: seq<byte>)
    requires |keys| == SCHEDULE_SIZE
    ensures |t| == BLOCK_BYTE_SIZE
    decreases d as int, 2
  {
    CmacMid(keys, c, d)
  }

  function CmacMid(keys: seq<byte>, c: seq<byte>, d: byte): (t: seq<byte>)
    requires |keys| == SCHEDULE_SIZE
    ensures |t| == BLOCK_BYTE_SIZE
    decreases d as int, 1
  {
    CmacLeaf(keys, c, d)
  }

  function CmacLeaf(keys: seq<byte>, c: seq<byte>, d: byte): (t: seq<byte>)
    requires |keys| == SCHEDULE_SIZE
    ensures |t| == BLOCK_BYTE_SIZE
    decreases d as int, 0
  {
    if d == 0 then Cmac.Mac(keys, c, |c|) else CmacAt(keys, c, d - 1)
  }

  lemma {:induction false} CmacLeafIs(keys: seq<byte>, c: seq<byte>, d: byte)
    requires |keys| == SCHEDULE_SIZE
    ensures CmacLeaf(keys, c, d) == Cmac.Mac(keys, c, |c|)
    decreases d as int
  {
    if d != 0 {
      CmacLeafIs(keys, c, d - 1);
      assert CmacAt(keys, c, d - 1) == CmacMid(keys, c, d - 1);
    }
  }

  lemma CmacOfIs(keys: seq<byte>, c: seq<byte>)
    requires |keys| == SCHEDULE_SIZE
    ensures CmacOf(keys, c) == Cmac.Mac(keys, c, |c|)
  {
    CmacLeafIs(keys, c, keys[0]);
    assert CmacAt(keys, c, keys[0]) == CmacMid(keys, c, keys[0]);
  }

  /** aesCMac of a whole buffer into a fresh one (cmac_buff). */
  method CmacBuffer(keys: seq<byte>, m: array<byte>) returns (t: array<byte>)
    requires |keys| == SCHEDULE_SIZE
    ensures fresh(t) && t[..] == CmacOf(keys, m[..])
  {
    t := new byte[BLOCK_BYTE_SIZE];
    Cmac.AesCMac(keys, m, m.Length, t);
    CmacOfIs(keys, m[..]);
  }

  /** E(ID, nonce): the six ID bytes and the nonce image n, padded with
    * 0x80 to one block. */
  function IdCipher(keys: seq<byte>, id: seq<byte>, n: seq<byte>): (c: seq<byte>)
    requires |keys| == SCHEDULE_SIZE && ID_SIZE <= |id| && 0 < |n| <= 8
    ensures |c| == IDMSG_CRYPTSIZE
  {
    Seal(keys, id[..ID_SIZE] + n, ID_SIZE + |n|, IDMSG_CRYPTSIZE - (ID_SIZE + |n|))
  }

  /** Bytes 1 to 38 of the ID response and of the rekey message: the ID
    * in the clear, E(ID, nonce), and the CMAC of E(ID, nonce) under the
    * schedule macKeys. */
  function IdBody(keys: seq<byte>, macKeys: seq<byte>, id: seq<byte>, n: seq<byte>): (b: seq<byte>)
    requires |keys| == SCHEDULE_SIZE && |macKeys| == SCHEDULE_SIZE && ID_SIZE <= |id| && 0 < |n| <= 8
    ensures |b| == ID_SIZE + IDMSG_CRYPTSIZE + BLOCK_BYTE_SIZE
  {
    var c := IdCipher(keys, id, n);
    id[..ID_SIZE] + c + CmacOf(macKeys, c)
  }

  /** The MSG_T_GET_ID_R packet. */
  function IdResponse(keys: seq<byte>, macKeys: seq<byte>, id: seq<byte>, n: seq<byte>): (w: seq<byte>)
    requires |keys| == SCHEDULE_SIZE && |macKeys| == SCHEDULE_SIZE && ID_SIZE <= |id| && 0 < |n| <= 8
    ensures |w| == IDMSG_FULLSIZE
  {
    [MSG_T_GET_ID_R] + IdBody(keys, macKeys, id, n)
  }

  /** E(nonce, key, timer), padded with 0x80 to two blocks. */
  function KeyToSinkCipher(keys: seq<byte>, n: seq<byte>, key: seq<byte>, t: seq<byte>): (c: seq<byte>)
    requires |keys| == SCHEDULE_SIZE && 0 < |n| <= 8 && KEY_BYTES <= |key| && |t| == TIMER_SIZE
    ensures |c| == KEYTOSINK_CRYPTSIZE
  {
    Seal(keys, n + key[..KEY_BYTES] + t, |n| + KEY_BYTES + TIMER_SIZE,
         KEYTOSINK_CRYPTSIZE - (|n| + KEY_BYTES + TIMER_SIZE))
  }

  /** The key-to-sink packet: the key and the timer in the clear for the
    * sink, E(nonce, key, timer) and its CMAC for the sensor. */
  function KeyToSink(keys: seq<byte>, n: seq<byte>, key: seq<byte>, t: seq<byte>): (w: seq<byte>)
    requires |keys| == SCHEDULE_SIZE && 0 < |n| <= 8 && KEY_BYTES <= |key| && |t| == TIMER_SIZE
    ensures |w| == KEYTOSINK_FULLSIZE
  {
    var c := KeyToSinkCipher(keys, n, key, t);
    [MSG_T_KEY_TO_SINK] + key[..KEY_BYTES] + t + c + CmacOf(keys, c)
  }

  /** The key-to-sensor packet: the forwarded ciphertext and CMAC. */
  function KeyToSense(msgtype: byte, ct: seq<byte>, cm: seq<byte>): (w: seq<byte>)
    requires KEYTOSINK_CRYPTSIZE <= |ct| && BLOCK_BYTE_SIZE <= |cm|
    ensures |w| == KEYTOSENS_FULLSIZE
  {
    [msgtype] + ct[..KEYTOSINK_CRYPTSIZE] + cm[..BLOCK_BYTE_SIZE]
  }

  // ---------------------------------------------- what a receiver sees

  /** An ID response carries the ID in the clear at bytes 1 to 6; its
    * bytes 7 to 22 decrypt to the ID, the nonce image and the pad; its
    * bytes 23 to 38 are their CMAC under macKeys. */
  lemma IdResponseOpens(keys: seq<byte>, macKeys: seq<byte>, id: seq<byte>, n: seq<byte>)
    requires |keys| == SCHEDULE_SIZE && |macKeys| == SCHEDULE_SIZE && ID_SIZE <= |id| && 0 < |n| <= 8
    ensures var w := IdResponse(keys, macKeys, id, n);
            && w[0] == MSG_T_GET_ID_R
            && w[1..7] == id[..ID_SIZE]
            && Open(keys, w[7..23], 1) == id[..ID_SIZE] + n + Fill(IDMSG_CRYPTSIZE - (ID_SIZE + |n|), Cbc.PAD_BYTE)
            && w[23..39] == CmacOf(macKeys, w[7..23])
  {
    var c := IdCipher(keys, id, n);
    var w := IdResponse(keys, macKeys, id, n);
    Parts4([MSG_T_GET_ID_R], id[..ID_SIZE], c, CmacOf(macKeys, c));
    assert w[7..23] == c;
    OpenSeal(keys, id[..ID_SIZE] + n, ID_SIZE + |n|, IDMSG_CRYPTSIZE - (ID_SIZE + |n|));
    assert (id[..ID_SIZE] + n)[..ID_SIZE + |n|] == id[..ID_SIZE] + n;
  }

  /** A key-to-sink packet carries the key and the timer image in the
    * clear, and E(nonce, key, timer) with its CMAC. */
  lemma KeyToSinkFields(keys: seq<byte>, n: seq<byte>, key: seq<byte>, t: seq<byte>)
    requires |keys| == SCHEDULE_SIZE && 0 < |n| <= 8 && KEY_BYTES <= |key| && |t| == TIMER_SIZE
    ensures var w := KeyToSink(keys, n, key, t);
            && w[0] == MSG_T_KEY_TO_SINK
            && w[1..17] == key[..KEY_BYTES] && w[17..21] == t
            && w[21..53] == KeyToSinkCipher(keys, n, key, t)
            && w[53..69] == CmacOf(keys, w[21..53])
  {
    var c := KeyToSinkCipher(keys, n, key, t);
    var w := KeyToSink(keys, n, key, t);
    Parts5([MSG_T_KEY_TO_SINK], key[..KEY_BYTES], t, c, CmacOf(keys, c));
    assert w[21..53] == c;
  }

  /** E(nonce, key, timer) decrypts to the nonce image, the key, the
    * timer image and the pad. */
  lemma KeyToSinkCipherOpens(keys: seq<byte>, n: seq<byte>, key: seq<byte>, t: seq<byte>)
    requires |keys| == SCHEDULE_SIZE && 0 < |n| <= 8 && KEY_BYTES <= |key| && |t| == TIMER_SIZE
    ensures Open(keys, KeyToSinkCipher(keys, n, key, t), 2)
         == n + key[..KEY_BYTES] + t + Fill(KEYTOSINK_CRYPTSIZE - (|n| + KEY_BYTES + TIMER_SIZE), Cbc.PAD_BYTE)
  {
    var p := n + key[..KEY_BYTES] + t;
    OpenSeal(keys, p, |p|, KEYTOSINK_CRYPTSIZE - |p|);
    assert p[..|p|] == p;
  }

  /** The fields of a packet made of four parts. */
  lemma Parts4(a: seq<byte>, b: seq<byte>, c: seq<byte>, d: seq<byte>)
    ensures var w, i, j, k := a + b + c + d, |a|, |a| + |b|, |a| + |b| + |c|;
            w[..i] == a && w[i..j] == b && w[j..k] == c && w[k..] == d
  {
  }

  /** The fields of a packet made of five parts. */
  lemma Parts5(a: seq<byte>, b: seq<byte>, c: seq<byte>, d: seq<byte>, e: seq<byte>)
    ensures var w, i, j, k, l := a + b + c + d + e, |a|, |a| + |b|, |a| + |b| + |c|, |a| + |b| + |c| + |d|;
            w[..i] == a && w[i..j] == b && w[j..k] == c && w[k..l] == d && w[l..] == e
  {
  }

  // ------------------------------------------------- buffer writes

  /** The copy loops that place a field at offset o of the packet. */
  method WriteBytes(buf: array<byte>, o: nat, src: seq<byte>)
    requires o + |src| <= buf.Length
    modifies buf
    ensures buf[..] == Splice(old(buf[..]), o, src)
  {
    for i := 0 to |src|
      invariant buf[..] == Splice(old(buf[..]), o, src[..i])
    {
      buf[o + i] := src[i];
      assert src[..i + 1] == src[..i] + [src[i]];
    }
    assert src[..|src|] == src;
  }

  /** The three copy loops that place the ID, E(ID, nonce) and the CMAC
    * after the message type byte. */
  method WriteParts3(buf: array<byte>, o: nat, a: seq<byte>, b: seq<byte>, c: seq<byte>)
    requires o + |a| + |b| + |c| <= buf.Length
    modifies buf
    ensures buf[..] == Splice(old(buf[..]), o, a + b + c)
  {
    ghost var q := buf[..];
    WriteBytes(buf, o, a);
    WriteBytes(buf, o + |a|, b);
    SpliceAdjacent(q, o, a, b);
    WriteBytes(buf, o + |a| + |b|, c);
    SpliceAdjacent(q, o, a + b, c);
  }

  /** The loops that copy a field of a decrypted buffer into a fresh
    * temporary (the malloc'd nonce and timer buffers). */
  method ReadField(src: array<byte>, o: nat, len: nat) returns (temp: array<byte>)
    requires o + len <= src.Length
    ensures fresh(temp) && temp[..] == src[o..o + len]
  {
    temp := new byte[len];
    for i := 0 to len
      invariant forall j :: 0 <= j < i ==> temp[j] == src[o + j]
    {
      temp[i] := src[o + i];
    }
  }

  /** Two adjacent writes are one write of both. */
  lemma SpliceAdjacent(q: seq<byte>, o: nat, a: seq<byte>, b: seq<byte>)
    requires o + |a| + |b| <= |q|
    ensures Splice(Splice(q, o, a), o + |a|, b) == Splice(q, o, a + b)
  {
    assert forall t :: 0 <= t < |q| ==> Splice(Splice(q, o, a), o + |a|, b)[t] == Splice(q, o, a + b)[t];
  }

  /** Writing the four parts of a packet one after the other writes the
    * packet. */
  lemma WritePacket4(q: seq<byte>, a: seq<byte>, b: seq<byte>, c: seq<byte>, d: seq<byte>)
    requires |a| + |b| + |c| + |d| <= |q|
    ensures Splice(Splice(Splice(Splice(q, 0, a), |a|, b), |a| + |b|, c), |a| + |b| + |c|, d)
         == Splice(q, 0, a + b + c + d)
  {
    SpliceAdjacent(q, 0, a, b);
    SpliceAdjacent(q, 0, a + b, c);
    SpliceAdjacent(q, 0, a + b + c, d);
  }

  /** The same for five parts. */
  lemma WritePacket5(q: seq<byte>, a: seq<byte>, b: seq<byte>, c: seq<byte>, d: seq<byte>, e: seq<byte>)
    requires |a| + |b| + |c| + |d| + |e| <= |q|
    ensures Splice(Splice(Splice(Splice(Splice(q, 0, a), |a|, b), |a| + |b|, c), |a| + |b| + |c|, d),
                   |a| + |b| + |c| + |d|, e)
         == Splice(q, 0, a + b + c + d + e)
  {
    WritePacket4(q, a, b, c, d);
    SpliceAdjacent(q, 0, a + b + c + d, e);
  }
}
