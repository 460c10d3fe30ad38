/**
 * The protocol functions of aes-crypt/lib/protocol.cpp, the oldest copy:
 * the ID response with a four-byte nounce and a fixed IDMSG_PADLEN of 6,
 * MACed by the aesCMac of aes-crypt/lib, which ignores the key it is
 * given and uses the schedule of the global pKey; and the helpers
 * neededblocks and padding. Its unpack_idresponse is that of
 * ProtocolTrunk.
 */
module ProtocolLegacy {
  import opened Bytes
  import opened Aes
  import Cbc
  import Cmac
  import opened Wire

  const NOUNCE_SIZE: nat := 4
  /** BLOCK_SIZE - (ID_SIZE + NOUNCE_SIZE). */
  const IDMSG_PADLEN: nat := BLOCK_BYTE_SIZE - (ID_SIZE + NOUNCE_SIZE)
  const U32_MODULUS: int := 0x1_0000_0000
  const U16_MODULUS: int := 0x1_0000

  /** The older aesCMac of a whole buffer into a fresh one: the tag under
    * the schedule of pKey, whatever key argument k it is passed. */
  method LegacyCmacBuffer(pKey: array<byte>, k: array<byte>, m: array<byte>) returns (t: array<byte>)
    requires pKey.Length == 16
    ensures fresh(t) && t[..] == CmacOf(Schedule(pKey[..]), m[..])
  {
    t := new byte[BLOCK_BYTE_SIZE];
    Cmac.LegacyAesCMac(pKey, k, m, m.Length, t);
    CmacOfIs(Schedule(pKey[..]), m[..]);
  }

  /** The copy loop of pack_idresponse: one loop over ID_SIZE +
    * NOUNCE_SIZE bytes that takes the ID for the first six and the bytes
    * of the nounce for the rest. */
  method IdAndNounce(id: seq<byte>, n: seq<byte>) returns (temp: array<byte>)
    requires ID_SIZE <= |id| && |n| == NOUNCE_SIZE
    ensures fresh(temp) && temp[..] == id[..ID_SIZE] + n
  {
    temp := new byte[ID_SIZE + NOUNCE_SIZE];
    for i := 0 to ID_SIZE + NOUNCE_SIZE
      invariant forall j :: 0 <= j < i ==> temp[j] == (id[..ID_SIZE] + n)[j]
    {
      if i < ID_SIZE {
        temp[i] := id[i];
      } else {
        temp[i] := n[i - ID_SIZE];
      }
    }
  }

  /** pack_idresponse: MSG_T_GET_ID_R, the ID, E(ID, nounce) under pKeys
    * and the CMAC of that ciphertext under the schedule of pKey. msgtype
    * is not set in this copy. */
  method PackIdResponse(msg: Message, pKeys: array<byte>, pKey: array<byte>, buf: array<byte>)
    requires pKeys.Length == SCHEDULE_SIZE && pKey.Length == 16 && ID_SIZE <= |msg.pID|
    requires IDMSG_FULLSIZE <= buf.Length && buf != pKeys && buf != pKey
    modifies buf
    ensures buf[..] == Splice(old(buf[..]), 0,
                              IdResponse(pKeys[..], Schedule(pKey[..]), msg.pID, Le32(msg.nounce)))
  {
    var n := Le32(msg.nounce);
    var temp := IdAndNounce(msg.pID, n);
    var cryptBuff := SealBuffer(pKeys[..], temp[..], ID_SIZE + NOUNCE_SIZE, IDMSG_PADLEN, IDMSG_CRYPTSIZE);
    var cmacBuff := LegacyCmacBuffer(pKey, pKeys, cryptBuff);
    var c, t := cryptBuff[..], cmacBuff[..];
    assert c == IdCipher(pKeys[..], msg.pID, n);

    ghost var q := buf[..];
    buf[0] := MSG_T_GET_ID_R;
    assert buf[..] == Splice(q, 0, [MSG_T_GET_ID_R]);
    WriteParts3(buf, MSGTYPE_SIZE, msg.pID[..ID_SIZE], c, t);
    SpliceAdjacent(q, 0, [MSG_T_GET_ID_R], msg.pID[..ID_SIZE] + c + t);
    assert [MSG_T_GET_ID_R] + (msg.pID[..ID_SIZE] + c + t)
        == IdResponse(pKeys[..], Schedule(pKey[..]), msg.pID, n);
  }

  // ------------------------------------------------ the helpers

  /** The least number of 16-byte blocks that holds len bytes. */
  function NumBlocks(len: nat): (n: nat)
    ensures len <= BLOCK_BYTE_SIZE * n
    ensures n == 0 || BLOCK_BYTE_SIZE * (n - 1) < len
  {
    (len + BLOCK_BYTE_SIZE - 1) / BLOCK_BYTE_SIZE
  }

  /** neededblocks: count i up from 0 until len <= i * 16, with the
    * product taken in u_int32_ard, and return i as a u_int16_ard. The
    * loop ends only when len <= 0xFFFFFFF0 (NeededBlocksNeverExits);
    * then the result is the least block count, truncated to 16 bits. */
  method NeededBlocks(len: nat) returns (r: nat)
    requires len <= U32_MODULUS - BLOCK_BYTE_SIZE
    ensures r == NumBlocks(len) % U16_MODULUS
  {
    var i: nat := 0;
    while true
      invariant i <= NumBlocks(len)
      decreases NumBlocks(len) - i
    {
      assert BLOCK_BYTE_SIZE * i <= BLOCK_BYTE_SIZE * NumBlocks(len) < U32_MODULUS;
      if len <= (i * BLOCK_BYTE_SIZE) % U32_MODULUS {
        break;
      }
      i := i + 1;
    }
    r := i % U16_MODULUS;
  }

  /** i * 16 in u_int32_ard never exceeds 0xFFFFFFF0. */
  lemma WrappedBlockBytes(i: nat)
    requires i < U32_MODULUS
    ensures (i * BLOCK_BYTE_SIZE) % U32_MODULUS <= U32_MODULUS - BLOCK_BYTE_SIZE
  {
    var k := i / 0x1000_0000;
    var m := i % 0x1000_0000;
    assert i * BLOCK_BYTE_SIZE == U32_MODULUS * k + BLOCK_BYTE_SIZE * m;
    ModOfMultiple(i * BLOCK_BYTE_SIZE, U32_MODULUS, k, BLOCK_BYTE_SIZE * m);
  }

  lemma ModOfMultiple(x: int, d: int, k: int, m: int)
    requires d > 0 && 0 <= m < d && x == d * k + m
    ensures x % d == m
  {
    var q, r := x / d, x % d;
    assert d * (k - q) == r - m by {
      assert d * k - d * q == d * (k - q);
    }
    if k > q {
      MulAtLeast(d, k - q);
    } else if k < q {
      MulAtLeast(d, q - k);
    }
  }

  lemma MulAtLeast(d: int, a: int)
    requires d > 0 && a >= 1
    ensures d * a >= d
  {
  }

  /** For a length above 0xFFFFFFF0 no u_int32_ard counter passes the
    * test of neededblocks, so its loop never exits. */
  lemma NeededBlocksNeverExits(len: nat, i: nat)
    requires U32_MODULUS - BLOCK_BYTE_SIZE < len < U32_MODULUS && i < U32_MODULUS
    ensures !(len <= (i * BLOCK_BYTE_SIZE) % U32_MODULUS)
  {
    WrappedBlockBytes(i);
  }

  /** padding: the least number of bytes that completes the last block. */
  function Padding(strlen: nat): (pad: nat)
    ensures pad < BLOCK_BYTE_SIZE && Cbc.Aligned(strlen + pad)
    ensures forall n :: strlen <= n < strlen + pad ==> !Cbc.Aligned(n)
  {
    if strlen % BLOCK_BYTE_SIZE == 0 then 0 else BLOCK_BYTE_SIZE - strlen % BLOCK_BYTE_SIZE
  }

  /** padding is what CBCEncrypt chooses for AUTOPAD, and the padded text
    * fills the blocks neededblocks counts. */
  lemma PaddingFillsNeededBlocks(strlen: nat)
    ensures Padding(strlen) == Cbc.ResolvePadding(strlen, Cbc.AUTOPAD)
    ensures strlen + Padding(strlen) == BLOCK_BYTE_SIZE * NumBlocks(strlen)
  {
    var k := strlen / BLOCK_BYTE_SIZE;
    var m := strlen % BLOCK_BYTE_SIZE;
    assert strlen == BLOCK_BYTE_SIZE * k + m;
    if m == 0 {
      assert strlen + BLOCK_BYTE_SIZE - 1 == BLOCK_BYTE_SIZE * k + 15;
    } else {
      assert strlen + BLOCK_BYTE_SIZE - 1 == BLOCK_BYTE_SIZE * (k + 1) + (m - 1);
    }
  }
}
