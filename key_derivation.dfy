/**
 * TSense keys come in pairs: an encryption key and a CMAC key derived
 * from it as the AES-CMAC, under the schedule of a constant, of the
 * encryption key. TSenseKeyPair (tsensor/tsense_keypair.cpp, and the same
 * code in trunk/server/OpenSslServer/tsense_keypair.cpp) keeps both keys
 * and both schedules; deriveKeyScheds of
 * trunk/server/OpenSslServer/ts_db_basesensorprofile.cpp writes the two
 * schedules into the caller's buffers.
 */
module KeyDerivation {
  import opened Bytes
  import opened Aes
  import opened Wire
  import Cmac

  /** The CMAC key paired with key under constant. */
  function MacKeyOf(key: seq<byte>, constant: seq<byte>): (k: seq<byte>)
    requires |key| == 16 && |constant| == 16
    ensures |k| == 16
  {
    CmacOf(Schedule(constant), key)
  }

  /** KeyExpansion, stated with Schedule. */
  method Expand(key: array<byte>, keys: array<byte>)
    requires key.Length == 16 && keys.Length == SCHEDULE_SIZE && key != keys
    modifies keys
    ensures keys[..] == Schedule(key[..])
  {
    KeyExpansion(key, keys);
    IsScheduleOfIsSchedule(keys[..], key[..]);
  }

  /** The memcpy of a 16-byte key into a fresh buffer. */
  method CopyKey(key: array<byte>) returns (copy: array<byte>)
    requires key.Length == 16
    ensures fresh(copy) && copy[..] == key[..]
  {
    copy := new byte[16];
    forall t | 0 <= t < 16 {
      copy[t] := key[t];
    }
  }

  /** The schedule of the CMAC key paired with key: the constant's
    * schedule, the CMAC of a local copy of the key under it, and the
    * schedule of that tag. */
  method MacKeySchedule(key: array<byte>, constant: array<byte>) returns (macKey: array<byte>, macKeySched: array<byte>)
    requires key.Length == 16 && constant.Length == 16
    ensures fresh(macKey) && fresh(macKeySched)
    ensures macKey[..] == MacKeyOf(key[..], constant[..])
    ensures macKeySched[..] == Schedule(MacKeyOf(key[..], constant[..]))
  {
    var cryptoKey := CopyKey(key);
    var constKeySched := new byte[SCHEDULE_SIZE];
    Expand(constant, constKeySched);
    macKey := CmacBuffer(constKeySched[..], cryptoKey);
    macKeySched := new byte[SCHEDULE_SIZE];
    Expand(macKey, macKeySched);
  }

  /** deriveKeyScheds: the schedule of key and the schedule of its CMAC
    * key into the two output buffers; key and constant are only read. */
  method DeriveKeyScheds(key: array<byte>, constant: array<byte>, cryptoKeySched: array<byte>, macKeySched: array<byte>)
    requires key.Length == 16 && constant.Length == 16
    requires cryptoKeySched.Length == SCHEDULE_SIZE && macKeySched.Length == SCHEDULE_SIZE
    requires cryptoKeySched != macKeySched
    requires cryptoKeySched != key && cryptoKeySched != constant && macKeySched != key && macKeySched != constant
    modifies cryptoKeySched, macKeySched
    ensures cryptoKeySched[..] == Schedule(key[..])
    ensures macKeySched[..] == Schedule(MacKeyOf(key[..], constant[..]))
  {
    Expand(key, cryptoKeySched);
    var macKey, sched := MacKeySchedule(key, constant);
    CopyInto(sched, macKeySched);
  }

  /** The memcpy of a schedule into the caller's buffer. */
  method CopyInto(src: array<byte>, dst: array<byte>)
    requires src.Length == dst.Length && src != dst
    modifies dst
    ensures dst[..] == src[..]
  {
    forall t | 0 <= t < dst.Length {
      dst[t] := src[t];
    }
  }

  /** TSenseKeyPair: an encryption key, its schedule, the CMAC key derived
    * from it under a constant, and that key's schedule. */
  class KeyPair {
    const cryptoKey: array<byte>
    const cryptoKeySched: array<byte>
    const macKey: array<byte>
    const macKeySched: array<byte>
    /** The constant the CMAC key was derived under; it is not stored. */
    ghost const constant: seq<byte>

    ghost predicate Valid()
      reads this, cryptoKey, cryptoKeySched, macKey, macKeySched
    {
      && cryptoKey.Length == 16 && macKey.Length == 16 && |constant| == 16
      && cryptoKeySched.Length == SCHEDULE_SIZE && macKeySched.Length == SCHEDULE_SIZE
      && cryptoKeySched[..] == Schedule(cryptoKey[..])
      && macKey[..] == MacKeyOf(cryptoKey[..], constant)
      && macKeySched[..] == Schedule(macKey[..])
    }

    /** The constructor: copy the key, expand it, derive the CMAC key
      * under constant and expand that. */
    constructor (key: array<byte>, constant: array<byte>)
      requires key.Length == 16 && constant.Length == 16
      ensures Valid()
      ensures fresh(cryptoKey) && fresh(cryptoKeySched) && fresh(macKey) && fresh(macKeySched)
      ensures cryptoKey[..] == key[..] && this.constant == constant[..]
    {
      var copy := CopyKey(key);
      var sched := new byte[SCHEDULE_SIZE];
      Expand(key, sched);
      var mk, mks := MacKeySchedule(copy, constant);
      cryptoKey, cryptoKeySched, macKey, macKeySched := copy, sched, mk, mks;
      this.constant := constant[..];
    }

    /** getCryptoKey: the stored key itself, the copy of the key the pair
      * was built from. */
    method GetCryptoKey() returns (r: array<byte>)
      requires Valid()
      ensures r == cryptoKey && |r[..]| == 16
    {
      r := cryptoKey;
    }

    /** getCryptoKeySched: the stored schedule, that of the key. */
    method GetCryptoKeySched() returns (r: array<byte>)
      requires Valid()
      ensures r == cryptoKeySched && r[..] == Schedule(cryptoKey[..])
    {
      r := cryptoKeySched;
    }

    /** getMacKey: the stored CMAC key, derived from the key. */
    method GetMacKey() returns (r: array<byte>)
      requires Valid()
      ensures r == macKey && r[..] == MacKeyOf(cryptoKey[..], constant)
    {
      r := macKey;
    }

    /** getMacKeySched: the stored schedule of the CMAC key. */
    method GetMacKeySched() returns (r: array<byte>)
      requires Valid()
      ensures r == macKeySched && r[..] == Schedule(MacKeyOf(cryptoKey[..], constant))
    {
      r := macKeySched;
    }
  }

  /** A 16-byte key is one complete CMAC block, so the derived key is
    * AES under the constant's schedule of the key xor K1 (RFC 4493
    * section 2.4, steps 4 to 6 with n = 1). */
  lemma MacKeyIsOneBlock(key: seq<byte>, constant: seq<byte>)
    requires |key| == 16 && |constant| == 16
    ensures var s := Schedule(constant);
            MacKeyOf(key, constant) == Cmac.Tag(s, Fill(BLOCK_BYTE_SIZE, 0), Xor(key, Cmac.K1(s)))
  {
    OneBlockMac(Schedule(constant), key);
  }

  lemma OneBlockMac(keys: seq<byte>, m: seq<byte>)
    requires |keys| == SCHEDULE_SIZE && |m| == BLOCK_BYTE_SIZE
    ensures CmacOf(keys, m) == Cmac.Tag(keys, Fill(BLOCK_BYTE_SIZE, 0), Xor(m, Cmac.K1(keys)))
  {
    CmacOfIs(keys, m);
    var k1 := Cmac.K1(keys);
    assert Cmac.MacBlockCount(|m|) - 1 == 0;
    assert Cmac.CbcMac(m, 0, keys) == Fill(BLOCK_BYTE_SIZE, 0) by {
      Cmac.CbcMacIs(m, 0, keys);
    }
    assert Cmac.LastBlock(m, |m|, k1, Cmac.K2(keys)) == Xor(m, k1) by {
      assert Cmac.Complete(|m|);
      assert m[0..BLOCK_BYTE_SIZE] == m;
    }
    Cmac.MacOfParts(keys, m, |m|, Fill(BLOCK_BYTE_SIZE, 0), Xor(m, Cmac.K1(keys)));
  }
}
