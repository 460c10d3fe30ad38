/**
 * The protocol functions of trunk/aes_crypt/lib/protocol.cpp. They follow
 * the older struct: a four-byte u_int32_ard nounce (NOUNCE_SIZE 4, as in
 * trunk/aes-crypt/lib/protocol.h), a pCipherID that receives the
 * decrypted ID, and no ciphertext in the ID response. unpack_keytosink
 * is that of Protocol, and pack_keytosens is Protocol.PackKeyToSense
 * with the type byte 0x11.
 */
module ProtocolTrunk {
  import opened Bytes
  import opened Aes
  import Cbc
  import opened Wire

  const NOUNCE_SIZE: nat := 4
  const KEYTOSINK_PADLEN: nat := BLOCK_BYTE_SIZE - (NOUNCE_SIZE + TIMER_SIZE)
  /** The type byte pack_keytosens writes here. */
  const KEY_TO_SENSE_TYPE: byte := 0x11

  /** pack_idresponse: MSG_T_GET_ID_R, the ID, E(ID, nounce) and its CMAC
    * into the first 39 bytes of the buffer; msgtype is set as well. */
  method PackIdResponse(msg: Message, keys: seq<byte>, buf: array<byte>)
    requires |keys| == SCHEDULE_SIZE && ID_SIZE <= |msg.pID| && IDMSG_FULLSIZE <= buf.Length
    modifies msg`msgtype, buf
    ensures msg.msgtype == MSG_T_GET_ID_R
    ensures buf[..] == Splice(old(buf[..]), 0, IdResponse(keys, keys, msg.pID, Le32(msg.nounce)))
  {
    var n := Le32(msg.nounce);
    var temp := msg.pID[..ID_SIZE] + n;
    var cryptBuff := SealBuffer(keys, temp, ID_SIZE + NOUNCE_SIZE, Cbc.AUTOPAD, IDMSG_CRYPTSIZE);
    var cmacBuff := CmacBuffer(keys, cryptBuff);
    var c, t := cryptBuff[..], cmacBuff[..];
    assert c == IdCipher(keys, msg.pID, n);

    ghost var q := buf[..];
    buf[0] := MSG_T_GET_ID_R;
    msg.msgtype := MSG_T_GET_ID_R;
    assert buf[..] == Splice(q, 0, [MSG_T_GET_ID_R]);
    WriteParts3(buf, MSGTYPE_SIZE, msg.pID[..ID_SIZE], c, t);
    SpliceAdjacent(q, 0, [MSG_T_GET_ID_R], msg.pID[..ID_SIZE] + c + t);
    assert [MSG_T_GET_ID_R] + (msg.pID[..ID_SIZE] + c + t) == IdResponse(keys, keys, msg.pID, n);
  }

  /** unpack_idresponse (also that of aes-crypt/lib/protocol.cpp): the
    * message type, the ID in the clear and the decrypted ID, both
    * NUL-terminated, the nounce read as the first decrypted byte after
    * the ID, and the CMAC. */
  method UnpackIdResponse(stream: seq<byte>, keys: seq<byte>, msg: Message)
    requires |keys| == SCHEDULE_SIZE && IDMSG_FULLSIZE <= |stream|
    modifies msg`msgtype, msg`pID, msg`pCipherID, msg`nounce, msg`cmac
    ensures msg.msgtype == stream[0]
    ensures msg.pID == stream[1..7] + [0]
    ensures msg.pCipherID == Open(keys, stream[7..23], 1)[..ID_SIZE] + [0]
    ensures msg.nounce == FirstByte32(Open(keys, stream[7..23], 1)[ID_SIZE..ID_SIZE + NOUNCE_SIZE])
    ensures msg.cmac == stream[23..39]
  {
    msg.msgtype := stream[0];
    msg.pID := stream[MSGTYPE_SIZE .. MSGTYPE_SIZE + ID_SIZE] + [0];
    var cryptBuff := stream[MSGTYPE_SIZE + ID_SIZE .. MSGTYPE_SIZE + ID_SIZE + IDMSG_CRYPTSIZE];
    var plainBuff := OpenBuffer(keys, cryptBuff, 1);
    msg.pCipherID := plainBuff[..ID_SIZE] + [0];
    var temp := ReadField(plainBuff, ID_SIZE, NOUNCE_SIZE);
    msg.nounce := temp[0] as bv32;
    msg.cmac := stream[MSGTYPE_SIZE + ID_SIZE + IDMSG_CRYPTSIZE .. IDMSG_FULLSIZE];
  }

  /** What the receiver of an ID response recovers: the ID twice, in the
    * clear and decrypted, the nounce's low byte through the first-byte
    * read and the whole nounce through a little-endian read; the CMAC in
    * the packet is that of its ciphertext. */
  lemma IdResponseRoundTrip(keys: seq<byte>, id: seq<byte>, nounce: bv32)
    requires |keys| == SCHEDULE_SIZE && ID_SIZE <= |id|
    ensures var w := IdResponse(keys, keys, id, Le32(nounce));
            var p := Open(keys, w[7..23], 1);
            && w[0] == MSG_T_GET_ID_R
            && w[1..7] == id[..ID_SIZE]
            && p[..ID_SIZE] == id[..ID_SIZE]
            && FirstByte32(p[ID_SIZE..ID_SIZE + NOUNCE_SIZE]) == nounce & 0xFF
            && Le32Value(p[ID_SIZE..ID_SIZE + NOUNCE_SIZE]) == nounce
            && w[23..39] == CmacOf(keys, w[7..23])
  {
    var n := Le32(nounce);
    IdResponseOpens(keys, keys, id, n);
    var p := Open(keys, IdResponse(keys, keys, id, n)[7..23], 1);
    assert p[..ID_SIZE] == id[..ID_SIZE] && p[ID_SIZE..ID_SIZE + NOUNCE_SIZE] == n;
    FirstByteOfImage(0, nounce);
    Le32ValueOfImage(nounce);
  }

  /** pack_keytosink with the four-byte nounce: the key and the timer in
    * the clear, E(nounce, key, timer) padded with eight bytes, and its
    * CMAC, also stored in msg.cmac. */
  method PackKeyToSink(msg: Message, keys: seq<byte>, buf: array<byte>)
    requires |keys| == SCHEDULE_SIZE && KEY_BYTES <= |msg.key| && KEYTOSINK_FULLSIZE <= buf.Length
    modifies msg`msgtype, msg`cmac, buf
    ensures msg.msgtype == MSG_T_KEY_TO_SINK
    ensures msg.cmac == CmacOf(keys, KeyToSinkCipher(keys, Le32(msg.nounce), msg.key, Le32(msg.timer)))
    ensures buf[..] == Splice(old(buf[..]), 0, KeyToSink(keys, Le32(msg.nounce), msg.key, Le32(msg.timer)))
  {
    ghost var q := buf[..];
    msg.msgtype := MSG_T_KEY_TO_SINK;
    buf[0] := MSG_T_KEY_TO_SINK;
    assert buf[..] == Splice(q, 0, [MSG_T_KEY_TO_SINK]);
    WriteBytes(buf, MSGTYPE_SIZE, msg.key[..KEY_BYTES]);
    var pTimer := Le32(msg.timer);
    WriteBytes(buf, MSGTYPE_SIZE + KEY_BYTES, pTimer);

    var n := Le32(msg.nounce);
    var temp := n + msg.key[..KEY_BYTES] + pTimer;
    var cipherBuff := SealBuffer(keys, temp, NOUNCE_SIZE + KEY_BYTES + TIMER_SIZE, KEYTOSINK_PADLEN,
                                 KEYTOSINK_CRYPTSIZE);
    var cmacBuff := CmacBuffer(keys, cipherBuff);
    msg.cmac := cmacBuff[..];
    var c := cipherBuff[..];
    assert c == KeyToSinkCipher(keys, n, msg.key, pTimer);

    WriteBytes(buf, MSGTYPE_SIZE + KEY_BYTES + TIMER_SIZE, c);
    WriteBytes(buf, MSGTYPE_SIZE + KEY_BYTES + TIMER_SIZE + KEYTOSINK_CRYPTSIZE, msg.cmac);
    WritePacket5(q, [MSG_T_KEY_TO_SINK], msg.key[..KEY_BYTES], pTimer, c, msg.cmac);
  }

  /** unpack_keytosens with the four-byte nounce: the message type, the
    * ciphertext and the CMAC, and from the decrypted ciphertext the
    * nounce (first byte), the key and the timer (first byte). */
  method UnpackKeyToSense(stream: seq<byte>, keys: seq<byte>, msg: Message)
    requires |keys| == SCHEDULE_SIZE && KEYTOSENS_FULLSIZE <= |stream|
    modifies msg`msgtype, msg`ciphertext, msg`cmac, msg`nounce, msg`key, msg`timer
    ensures msg.msgtype == stream[0]
    ensures msg.ciphertext == stream[1..33]
    ensures msg.cmac == stream[33..49]
    ensures var p := Open(keys, stream[1..33], 2);
            && msg.nounce == FirstByte32(p[..NOUNCE_SIZE])
            && msg.key == p[NOUNCE_SIZE..NOUNCE_SIZE + KEY_BYTES]
            && msg.timer == FirstByte32(p[NOUNCE_SIZE + KEY_BYTES..NOUNCE_SIZE + KEY_BYTES + TIMER_SIZE])
  {
    msg.msgtype := stream[0];
    msg.ciphertext := stream[MSGTYPE_SIZE .. MSGTYPE_SIZE + KEYTOSINK_CRYPTSIZE];
    msg.cmac := stream[MSGTYPE_SIZE + KEYTOSINK_CRYPTSIZE .. KEYTOSENS_FULLSIZE];
    var plainbuff := OpenBuffer(keys, msg.ciphertext, 2);
    var nouncetemp := ReadField(plainbuff, 0, NOUNCE_SIZE);
    msg.nounce := nouncetemp[0] as bv32;
    msg.key := plainbuff[NOUNCE_SIZE .. NOUNCE_SIZE + KEY_BYTES];
    var timertemp := ReadField(plainbuff, NOUNCE_SIZE + KEY_BYTES, TIMER_SIZE);
    msg.timer := timertemp[0] as bv32;
  }

  /** The key exchange end to end with the four-byte nounce and the 0x11
    * key-to-sensor type: the sink reads the key and the timer's low byte,
    * the sensor decrypts the nounce, the key and the timer (their low
    * bytes through the first-byte reads, all of them through
    * little-endian reads); the forwarded CMAC is that of the forwarded
    * ciphertext. */
  lemma KeyExchangeRoundTrip(keys: seq<byte>, nounce: bv32, key: seq<byte>, timer: bv32)
    requires |keys| == SCHEDULE_SIZE && KEY_BYTES <= |key|
    ensures var w := KeyToSink(keys, Le32(nounce), key, Le32(timer));
            var f := KeyToSense(KEY_TO_SENSE_TYPE, w[21..53], w[53..69]);
            var p := Open(keys, f[1..33], 2);
            && w[1..17] == key[..KEY_BYTES] && FirstByte32(w[17..21]) == timer & 0xFF
            && f[0] == KEY_TO_SENSE_TYPE
            && p[NOUNCE_SIZE..NOUNCE_SIZE + KEY_BYTES] == key[..KEY_BYTES]
            && FirstByte32(p[..NOUNCE_SIZE]) == nounce & 0xFF
            && FirstByte32(p[NOUNCE_SIZE + KEY_BYTES..NOUNCE_SIZE + KEY_BYTES + TIMER_SIZE]) == timer & 0xFF
            && Le32Value(p[..NOUNCE_SIZE]) == nounce
            && Le32Value(p[NOUNCE_SIZE + KEY_BYTES..NOUNCE_SIZE + KEY_BYTES + TIMER_SIZE]) == timer
            && f[33..49] == CmacOf(keys, f[1..33])
  {
    var n, t := Le32(nounce), Le32(timer);
    var w := KeyToSink(keys, n, key, t);
    var c := KeyToSinkCipher(keys, n, key, t);
    KeyToSinkFields(keys, n, key, t);
    var f := KeyToSense(KEY_TO_SENSE_TYPE, w[21..53], w[53..69]);
    assert f[1..33] == c && f[33..49] == w[53..69];
    KeyToSinkCipherOpens(keys, n, key, t);
    var p := Open(keys, c, 2);
    assert p[..NOUNCE_SIZE] == n;
    assert p[NOUNCE_SIZE..NOUNCE_SIZE + KEY_BYTES] == key[..KEY_BYTES];
    assert p[NOUNCE_SIZE + KEY_BYTES..NOUNCE_SIZE + KEY_BYTES + TIMER_SIZE] == t;
    FirstByteOfImage(0, nounce);
    FirstByteOfImage(0, timer);
    Le32ValueOfImage(nounce);
    Le32ValueOfImage(timer);
  }
}
