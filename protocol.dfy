/**
 * The TSense protocol functions of aes_crypt/lib/protocol.cpp: the ID
 * response (the sensor proves its identity), the key exchange that the
 * authentication server sends through the sink to the sensor, and the
 * rekey message. Every ciphertext is CBCEncrypt under the sensor's
 * schedule with the fixed IV, followed by aesCMac of the ciphertext
 * (encrypt-then-MAC).
 *
 * In this copy the nonce is a u_int16_ard. The unpack functions read it
 * back with `(u_int16_ard)*temp` through a byte pointer, which takes the
 * first byte alone; the lemmas show what that keeps and what an intended
 * little-endian read would give.
 */
module Protocol {
  import opened Bytes
  import opened Aes
  import Cbc
  import opened Wire

  const NONCE_SIZE: nat := 2
  const KEYTOSINK_PADLEN: nat := BLOCK_BYTE_SIZE - (NONCE_SIZE + TIMER_SIZE)
  const REKEY_CRYPTSIZE: nat := IDMSG_CRYPTSIZE
  const REKEY_FULLSIZE: nat := IDMSG_FULLSIZE

  // ----------------------------------------------------- ID response

  /** pack_idresponse: MSG_T_GET_ID_R, the ID, E(ID, nonce) and its CMAC
    * into the first 39 bytes of the buffer; msgtype is set as well. */
  method PackIdResponse(msg: Message, keys: seq<byte>, buf: array<byte>)
    requires |keys| == SCHEDULE_SIZE && ID_SIZE <= |msg.pID| && IDMSG_FULLSIZE <= buf.Length
    modifies msg`msgtype, buf
    ensures msg.msgtype == MSG_T_GET_ID_R
    ensures buf[..] == Splice(old(buf[..]), 0, IdResponse(keys, keys, msg.pID, Le16(msg.nonce)))
  {
    var n := Le16(msg.nonce);
    var temp := msg.pID[..ID_SIZE] + n;
    var cryptBuff := SealBuffer(keys, temp, ID_SIZE + NONCE_SIZE, Cbc.AUTOPAD, IDMSG_CRYPTSIZE);
    var cmacBuff := CmacBuffer(keys, cryptBuff);
    var c, t := cryptBuff[..], cmacBuff[..];
    assert c == IdCipher(keys, msg.pID, n);

    ghost var q := buf[..];
    buf[0] := MSG_T_GET_ID_R;
    msg.msgtype := MSG_T_GET_ID_R;
    assert buf[..] == Splice(q, 0, [MSG_T_GET_ID_R]);
    WriteParts3(buf, MSGTYPE_SIZE, msg.pID[..ID_SIZE], c, t);
    SpliceAdjacent(q, 0, [MSG_T_GET_ID_R], msg.pID[..ID_SIZE] + c + t);
    assert [MSG_T_GET_ID_R] + (msg.pID[..ID_SIZE] + c + t) == IdResponse(keys, keys, msg.pID, n);
  }

  /** unpack_idresponse: the message type, the ciphertext, the ID and the
    * nonce decrypted from it (the ID NUL-terminated, the nonce read as
    * its first byte), and the CMAC. The ID in the clear is not read. */
  method UnpackIdResponse(stream: seq<byte>, keys: seq<byte>, msg: Message)
    requires |keys| == SCHEDULE_SIZE && IDMSG_FULLSIZE <= |stream|
    modifies msg`msgtype, msg`ciphertext, msg`pID, msg`nonce, msg`cmac
    ensures msg.msgtype == stream[0]
    ensures msg.ciphertext == stream[7..23]
    ensures msg.pID == Open(keys, stream[7..23], 1)[..ID_SIZE] + [0]
    ensures msg.nonce == FirstByte16(Open(keys, stream[7..23], 1)[ID_SIZE..ID_SIZE + NONCE_SIZE])
    ensures msg.cmac == stream[23..39]
  {
    msg.msgtype := stream[0];
    msg.ciphertext := stream[MSGTYPE_SIZE + ID_SIZE .. MSGTYPE_SIZE + ID_SIZE + IDMSG_CRYPTSIZE];
    var plainBuff := OpenBuffer(keys, msg.ciphertext, 1);
    msg.pID := plainBuff[..ID_SIZE] + [0];
    var temp := ReadField(plainBuff, ID_SIZE, NONCE_SIZE);
    msg.nonce := temp[0] as bv16;
    msg.cmac := stream[MSGTYPE_SIZE + ID_SIZE + IDMSG_CRYPTSIZE .. IDMSG_FULLSIZE];
  }

  /** What the receiver of an ID response recovers: the ID, the nonce's
    * low byte through the first-byte read, and the whole nonce through
    * a little-endian read; the CMAC in the packet is that of its
    * ciphertext. */
  lemma IdResponseRoundTrip(keys: seq<byte>, id: seq<byte>, nonce: bv16)
    requires |keys| == SCHEDULE_SIZE && ID_SIZE <= |id|
    ensures var w := IdResponse(keys, keys, id, Le16(nonce));
            var p := Open(keys, w[7..23], 1);
            && w[0] == MSG_T_GET_ID_R
            && p[..ID_SIZE] == id[..ID_SIZE]
            && FirstByte16(p[ID_SIZE..ID_SIZE + NONCE_SIZE]) == nonce & 0xFF
            && Le16Value(p[ID_SIZE..ID_SIZE + NONCE_SIZE]) == nonce
            && w[23..39] == CmacOf(keys, w[7..23])
  {
    var n := Le16(nonce);
    IdResponseOpens(keys, keys, id, n);
    var p := Open(keys, IdResponse(keys, keys, id, n)[7..23], 1);
    assert p[..ID_SIZE] == id[..ID_SIZE] && p[ID_SIZE..ID_SIZE + NONCE_SIZE] == n;
    FirstByteOfImage(nonce, 0);
    Le16ValueOfImage(nonce);
  }

  /** The first-byte read loses the nonce's high byte: 256 comes back
    * as 0. */
  lemma NonceReadLosesHighByte()
    ensures FirstByte16(Le16(0x100)) == 0 && Le16Value(Le16(0x100)) == 0x100
  {
    Le16ValueOfImage(0x100);
  }

  // ---------------------------------------------------- key exchange

  /** pack_keytosink: MSG_T_KEY_TO_SINK, the key and the timer in the
    * clear, E(nonce, key, timer) and its CMAC, which is also stored in
    * msg.cmac. */
  method PackKeyToSink(msg: Message, keys: seq<byte>, buf: array<byte>)
    requires |keys| == SCHEDULE_SIZE && KEY_BYTES <= |msg.key| && KEYTOSINK_FULLSIZE <= buf.Length
    modifies msg`msgtype, msg`cmac, buf
    ensures msg.msgtype == MSG_T_KEY_TO_SINK
    ensures msg.cmac == CmacOf(keys, KeyToSinkCipher(keys, Le16(msg.nonce), msg.key, Le32(msg.timer)))
    ensures buf[..] == Splice(old(buf[..]), 0, KeyToSink(keys, Le16(msg.nonce), msg.key, Le32(msg.timer)))
  {
    ghost var q := buf[..];
    msg.msgtype := MSG_T_KEY_TO_SINK;
    buf[0] := MSG_T_KEY_TO_SINK;
    assert buf[..] == Splice(q, 0, [MSG_T_KEY_TO_SINK]);
    WriteBytes(buf, MSGTYPE_SIZE, msg.key[..KEY_BYTES]);
    var pTimer := Le32(msg.timer);
    WriteBytes(buf, MSGTYPE_SIZE + KEY_BYTES, pTimer);

    var n := Le16(msg.nonce);
    var temp := n + msg.key[..KEY_BYTES] + pTimer;
    var cipherBuff := SealBuffer(keys, temp, NONCE_SIZE + KEY_BYTES + TIMER_SIZE, KEYTOSINK_PADLEN,
                                 KEYTOSINK_CRYPTSIZE);
    var cmacBuff := CmacBuffer(keys, cipherBuff);
    msg.cmac := cmacBuff[..];
    var c := cipherBuff[..];
    assert c == KeyToSinkCipher(keys, n, msg.key, pTimer);

    WriteBytes(buf, MSGTYPE_SIZE + KEY_BYTES + TIMER_SIZE, c);
    WriteBytes(buf, MSGTYPE_SIZE + KEY_BYTES + TIMER_SIZE + KEYTOSINK_CRYPTSIZE, msg.cmac);
    WritePacket5(q, [MSG_T_KEY_TO_SINK], msg.key[..KEY_BYTES], pTimer, c, msg.cmac);
  }

  /** unpack_keytosink, on the sink, which cannot decrypt: the message
    * type, the key, the timer (read as its first byte), and the
    * ciphertext and the CMAC to forward. */
  method UnpackKeyToSink(stream: seq<byte>, msg: Message)
    requires KEYTOSINK_FULLSIZE <= |stream|
    modifies msg`msgtype, msg`key, msg`timer, msg`ciphertext, msg`cmac
    ensures msg.msgtype == stream[0]
    ensures msg.key == stream[1..17]
    ensures msg.timer == FirstByte32(stream[17..21])
    ensures msg.ciphertext == stream[21..53]
    ensures msg.cmac == stream[53..69]
  {
    msg.msgtype := stream[0];
    msg.key := stream[MSGTYPE_SIZE .. MSGTYPE_SIZE + KEY_BYTES];
    var temp := stream[MSGTYPE_SIZE + KEY_BYTES .. MSGTYPE_SIZE + KEY_BYTES + TIMER_SIZE];
    msg.timer := temp[0] as bv32;
    msg.ciphertext := stream[MSGTYPE_SIZE + KEY_BYTES + TIMER_SIZE .. MSGTYPE_SIZE + KEY_BYTES + TIMER_SIZE + KEYTOSINK_CRYPTSIZE];
    msg.cmac := stream[MSGTYPE_SIZE + KEY_BYTES + TIMER_SIZE + KEYTOSINK_CRYPTSIZE .. KEYTOSINK_FULLSIZE];
  }

  /** pack_keytosens: the message type, the forwarded ciphertext and the
    * forwarded CMAC. The type byte is MSG_T_KEY_TO_SENSE here, whose
    * value the header does not show, and 0x11 in the trunk copy. */
  method PackKeyToSense(msg: Message, keyToSense: byte, buf: array<byte>)
    requires KEYTOSINK_CRYPTSIZE <= |msg.ciphertext| && BLOCK_BYTE_SIZE <= |msg.cmac|
    requires KEYTOSENS_FULLSIZE <= buf.Length
    modifies msg`msgtype, buf
    ensures msg.msgtype == keyToSense
    ensures buf[..] == Splice(old(buf[..]), 0, KeyToSense(keyToSense, msg.ciphertext, msg.cmac))
  {
    ghost var q := buf[..];
    buf[0] := keyToSense;
    msg.msgtype := keyToSense;
    assert buf[..] == Splice(q, 0, [keyToSense]);
    WriteBytes(buf, MSGTYPE_SIZE, msg.ciphertext[..KEYTOSINK_CRYPTSIZE]);
    WriteBytes(buf, MSGTYPE_SIZE + KEYTOSINK_CRYPTSIZE, msg.cmac[..BLOCK_BYTE_SIZE]);
    SpliceAdjacent(q, 0, [keyToSense], msg.ciphertext[..KEYTOSINK_CRYPTSIZE]);
    SpliceAdjacent(q, 0, [keyToSense] + msg.ciphertext[..KEYTOSINK_CRYPTSIZE], msg.cmac[..BLOCK_BYTE_SIZE]);
  }

  /** unpack_keytosens, on the sensor: the message type, the ciphertext
    * and the CMAC, and from the decrypted ciphertext the nonce (first
    * byte), the key and the timer (first byte). */
  method UnpackKeyToSense(stream: seq<byte>, keys: seq<byte>, msg: Message)
    requires |keys| == SCHEDULE_SIZE && KEYTOSENS_FULLSIZE <= |stream|
    modifies msg`msgtype, msg`ciphertext, msg`cmac, msg`nonce, msg`key, msg`timer
    ensures msg.msgtype == stream[0]
    ensures msg.ciphertext == stream[1..33]
    ensures msg.cmac == stream[33..49]
    ensures var p := Open(keys, stream[1..33], 2);
            && msg.nonce == FirstByte16(p[..NONCE_SIZE])
            && msg.key == p[NONCE_SIZE..NONCE_SIZE + KEY_BYTES]
            && msg.timer == FirstByte32(p[NONCE_SIZE + KEY_BYTES..NONCE_SIZE + KEY_BYTES + TIMER_SIZE])
  {
    msg.msgtype := stream[0];
    msg.ciphertext := stream[MSGTYPE_SIZE .. MSGTYPE_SIZE + KEYTOSINK_CRYPTSIZE];
    msg.cmac := stream[MSGTYPE_SIZE + KEYTOSINK_CRYPTSIZE .. KEYTOSENS_FULLSIZE];
    var plainBuff := OpenBuffer(keys, msg.ciphertext, 2);
    var nonceTemp := plainBuff[..NONCE_SIZE];
    msg.nonce := nonceTemp[0] as bv16;
    msg.key := plainBuff[NONCE_SIZE .. NONCE_SIZE + KEY_BYTES];
    var timerTemp := plainBuff[NONCE_SIZE + KEY_BYTES .. NONCE_SIZE + KEY_BYTES + TIMER_SIZE];
    msg.timer := timerTemp[0] as bv32;
  }

  /** The key exchange end to end: the sink reads the key and the timer's
    * low byte, forwards the ciphertext and the CMAC, and the sensor
    * decrypts the nonce, the key and the timer (their low bytes through
    * the first-byte reads, all of them through little-endian reads);
    * the forwarded CMAC is that of the forwarded ciphertext. */
  lemma KeyExchangeRoundTrip(keys: seq<byte>, nonce: bv16, key: seq<byte>, timer: bv32, keyToSense: byte)
    requires |keys| == SCHEDULE_SIZE && KEY_BYTES <= |key|
    ensures var w := KeyToSink(keys, Le16(nonce), key, Le32(timer));
            var f := KeyToSense(keyToSense, w[21..53], w[53..69]);
            var p := Open(keys, f[1..33], 2);
            && w[1..17] == key[..KEY_BYTES] && FirstByte32(w[17..21]) == timer & 0xFF
            && p[NONCE_SIZE..NONCE_SIZE + KEY_BYTES] == key[..KEY_BYTES]
            && FirstByte16(p[..NONCE_SIZE]) == nonce & 0xFF
            && FirstByte32(p[NONCE_SIZE + KEY_BYTES..NONCE_SIZE + KEY_BYTES + TIMER_SIZE]) == timer & 0xFF
            && Le16Value(p[..NONCE_SIZE]) == nonce
            && Le32Value(p[NONCE_SIZE + KEY_BYTES..NONCE_SIZE + KEY_BYTES + TIMER_SIZE]) == timer
            && f[33..49] == CmacOf(keys, f[1..33])
  {
    var n, t := Le16(nonce), Le32(timer);
    var w := KeyToSink(keys, n, key, t);
    var c := KeyToSinkCipher(keys, n, key, t);
    KeyToSinkFields(keys, n, key, t);
    var f := KeyToSense(keyToSense, w[21..53], w[53..69]);
    assert f[1..33] == c && f[33..49] == w[53..69];
    KeyToSinkCipherOpens(keys, n, key, t);
    var p := Open(keys, c, 2);
    assert p[..NONCE_SIZE] == n;
    assert p[NONCE_SIZE..NONCE_SIZE + KEY_BYTES] == key[..KEY_BYTES];
    assert p[NONCE_SIZE + KEY_BYTES..NONCE_SIZE + KEY_BYTES + TIMER_SIZE] == t;
    FirstByteOfImage(nonce, timer);
    Le16ValueOfImage(nonce);
    Le32ValueOfImage(timer);
  }

  // ---------------------------------------------------------- rekey

  /** The rekey message pack_rekey leaves: byte 0 is written only for a
    * handshake, so for any other message type it keeps the byte the
    * buffer held (prior0); the rest is the body of an ID response. */
  function Rekey(keys: seq<byte>, msgtype: byte, prior0: byte, id: seq<byte>, n: seq<byte>): (w: seq<byte>)
    requires |keys| == SCHEDULE_SIZE && ID_SIZE <= |id| && 0 < |n| <= 8
    ensures |w| == REKEY_FULLSIZE
  {
    [if msgtype == MSG_T_REKEY_HANDSHAKE then msgtype else prior0] + IdBody(keys, keys, id, n)
  }

  /** pack_rekey: a handshake keeps its type and writes it to byte 0; any
    * other message becomes MSG_T_REKEY_REQUEST and byte 0 is not
    * written. Then the ID, E(ID, nonce) and its CMAC, also stored in
    * msg.cmac. */
  method PackRekey(msg: Message, keys: seq<byte>, buf: array<byte>)
    requires |keys| == SCHEDULE_SIZE && ID_SIZE <= |msg.pID| && REKEY_FULLSIZE <= buf.Length
    modifies msg`msgtype, msg`cmac, buf
    ensures msg.msgtype == if old(msg.msgtype) == MSG_T_REKEY_HANDSHAKE then MSG_T_REKEY_HANDSHAKE
                           else MSG_T_REKEY_REQUEST
    ensures msg.cmac == CmacOf(keys, IdCipher(keys, msg.pID, Le16(msg.nonce)))
    ensures buf[..] == Splice(old(buf[..]), 0, Rekey(keys, old(msg.msgtype), old(buf[0]), msg.pID, Le16(msg.nonce)))
  {
    ghost var q := buf[..];
    ghost var b0 := if msg.msgtype == MSG_T_REKEY_HANDSHAKE then msg.msgtype else buf[0];
    if msg.msgtype == MSG_T_REKEY_HANDSHAKE {
      buf[0] := msg.msgtype;
    } else {
      msg.msgtype := MSG_T_REKEY_REQUEST;
    }
    assert buf[..] == Splice(q, 0, [b0]);

    var n := Le16(msg.nonce);
    var temp := msg.pID[..ID_SIZE] + n;
    var cipherBuff := SealBuffer(keys, temp, ID_SIZE + NONCE_SIZE, Cbc.AUTOPAD, REKEY_CRYPTSIZE);
    var c := cipherBuff[..];
    assert c == IdCipher(keys, msg.pID, n);
    var cmacBuff := CmacBuffer(keys, cipherBuff);
    msg.cmac := cmacBuff[..];
    WriteParts3(buf, MSGTYPE_SIZE, msg.pID[..ID_SIZE], c, msg.cmac);
    SpliceAdjacent(q, 0, [b0], msg.pID[..ID_SIZE] + c + msg.cmac);
    assert [b0] + (msg.pID[..ID_SIZE] + c + msg.cmac) == Rekey(keys, old(msg.msgtype), q[0], msg.pID, n);
  }

  /** unpack_rekey: the message type, the ciphertext and the CMAC, and
    * from the decrypted ciphertext the ID (NUL-terminated) and the nonce
    * (first byte). The nonce loop here copies NONCE_SIZE bytes; the
    * source's copies ID_SIZE bytes into its NONCE_SIZE-byte buffer (see
    * RekeyNonceLoopOverrun), which changes nothing the struct receives. */
  method UnpackRekey(stream: seq<byte>, keys: seq<byte>, msg: Message)
    requires |keys| == SCHEDULE_SIZE && REKEY_FULLSIZE <= |stream|
    modifies msg`msgtype, msg`ciphertext, msg`cmac, msg`pID, msg`nonce
    ensures msg.msgtype == stream[0]
    ensures msg.ciphertext == stream[7..23]
    ensures msg.cmac == stream[23..39]
    ensures msg.pID == Open(keys, stream[7..23], 1)[..ID_SIZE] + [0]
    ensures msg.nonce == FirstByte16(Open(keys, stream[7..23], 1)[ID_SIZE..ID_SIZE + NONCE_SIZE])
  {
    msg.msgtype := stream[0];
    msg.ciphertext := stream[MSGTYPE_SIZE + ID_SIZE .. MSGTYPE_SIZE + ID_SIZE + REKEY_CRYPTSIZE];
    msg.cmac := stream[MSGTYPE_SIZE + ID_SIZE + REKEY_CRYPTSIZE .. REKEY_FULLSIZE];
    var plainBuff := OpenBuffer(keys, msg.ciphertext, 1);
    msg.pID := plainBuff[..ID_SIZE] + [0];
    var tempNonce := ReadField(plainBuff, ID_SIZE, NONCE_SIZE);
    msg.nonce := tempNonce[0] as bv16;
  }

  /** What the receiver of a rekey message recovers: byte 0 as pack_rekey
    * left it, the ID, and the nonce (its low byte through the first-byte
    * read, all of it through a little-endian read); the CMAC in the
    * packet is that of its ciphertext. */
  lemma RekeyRoundTrip(keys: seq<byte>, msgtype: byte, prior0: byte, id: seq<byte>, nonce: bv16)
    requires |keys| == SCHEDULE_SIZE && ID_SIZE <= |id|
    ensures var w := Rekey(keys, msgtype, prior0, id, Le16(nonce));
            var p := Open(keys, w[7..23], 1);
            && w[0] == (if msgtype == MSG_T_REKEY_HANDSHAKE then MSG_T_REKEY_HANDSHAKE else prior0)
            && p[..ID_SIZE] == id[..ID_SIZE]
            && FirstByte16(p[ID_SIZE..ID_SIZE + NONCE_SIZE]) == nonce & 0xFF
            && Le16Value(p[ID_SIZE..ID_SIZE + NONCE_SIZE]) == nonce
            && w[23..39] == CmacOf(keys, w[7..23])
  {
    RekeyIsIdResponseBody(keys, msgtype, prior0, id, Le16(nonce));
    IdResponseRoundTrip(keys, id, nonce);
    var w := Rekey(keys, msgtype, prior0, id, Le16(nonce));
    var v := IdResponse(keys, keys, id, Le16(nonce));
    assert w[7..23] == v[7..23] && w[23..39] == v[23..39];
  }

  /** A rekey message and an ID response for the same ID and nonce
    * differ in byte 0 alone: the same ciphertext under the same key with
    * the same CMAC. */
  lemma RekeyIsIdResponseBody(keys: seq<byte>, msgtype: byte, prior0: byte, id: seq<byte>, n: seq<byte>)
    requires |keys| == SCHEDULE_SIZE && ID_SIZE <= |id| && 0 < |n| <= 8
    ensures Rekey(keys, msgtype, prior0, id, n)[1..] == IdResponse(keys, keys, id, n)[1..]
  {
    var b := IdBody(keys, keys, id, n);
    assert Rekey(keys, msgtype, prior0, id, n)[1..] == b;
    assert IdResponse(keys, keys, id, n)[1..] == b;
  }

  /** The bytes unpack_rekey's nonce loop copies: ID_SIZE of them from
    * offset ID_SIZE of the decrypted block. */
  function RekeyNonceLoopBytes(plain: seq<byte>): (r: seq<byte>)
    requires ID_SIZE + ID_SIZE <= |plain|
    ensures |r| == ID_SIZE
  {
    plain[ID_SIZE..ID_SIZE + ID_SIZE]
  }

  /** For a rekey message that pack_rekey built, the loop copies six bytes
    * into the two-byte nonce buffer: the nonce image, then four pad bytes
    * past the end of the buffer. */
  lemma RekeyNonceLoopOverrun(keys: seq<byte>, msgtype: byte, prior0: byte, id: seq<byte>, nonce: bv16)
    requires |keys| == SCHEDULE_SIZE && ID_SIZE <= |id|
    ensures var w := Rekey(keys, msgtype, prior0, id, Le16(nonce));
            var r := RekeyNonceLoopBytes(Open(keys, w[7..23], 1));
            && |r| > NONCE_SIZE
            && r[..NONCE_SIZE] == Le16(nonce)
            && r[NONCE_SIZE..] == Fill(ID_SIZE - NONCE_SIZE, Cbc.PAD_BYTE)
  {
    var n := Le16(nonce);
    RekeyIsIdResponseBody(keys, msgtype, prior0, id, n);
    IdResponseOpens(keys, keys, id, n);
    var w := Rekey(keys, msgtype, prior0, id, n);
    var v := IdResponse(keys, keys, id, n);
    assert w[7..23] == v[7..23];
    var p := Open(keys, w[7..23], 1);
    assert p == id[..ID_SIZE] + n + Fill(IDMSG_CRYPTSIZE - (ID_SIZE + NONCE_SIZE), Cbc.PAD_BYTE);
    assert RekeyNonceLoopBytes(p) == n + Fill(ID_SIZE - NONCE_SIZE, Cbc.PAD_BYTE);
  }
}
