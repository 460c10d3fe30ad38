/** Bytes as the library stores them (byte_ard, an unsigned char), and
  * whole-buffer helpers shared by the cipher, the MAC and the protocol. */
module Bytes {
  type byte = bv8

  /** Bytewise exclusive or of two equally long buffers. */
  function Xor(a: seq<byte>, b: seq<byte>): (r: seq<byte>)
    requires |a| == |b|
    ensures |r| == |a|
    ensures forall i :: 0 <= i < |a| ==> r[i] == a[i] ^ b[i]
  {
    seq(|a|, i requires 0 <= i < |a| => a[i] ^ b[i])
  }

  /** Xor-ing the same buffer twice restores the original. */
  lemma XorTwice(a: seq<byte>, b: seq<byte>)
    requires |a| == |b|
    ensures Xor(Xor(a, b), b) == a
  {
    assert forall i :: 0 <= i < |a| ==> Xor(Xor(a, b), b)[i] == a[i];
  }

  /** The order of the operands does not matter. */
  lemma XorCommutes(a: seq<byte>, b: seq<byte>)
    requires |a| == |b|
    ensures Xor(a, b) == Xor(b, a)
  {
    assert forall i :: 0 <= i < |a| ==> Xor(a, b)[i] == Xor(b, a)[i];
  }

  /** Xor-ing with b and then with c is xor-ing with the xor of b and c. */
  lemma XorAssociates(a: seq<byte>, b: seq<byte>, c: seq<byte>)
    requires |a| == |b| == |c|
    ensures Xor(Xor(a, b), c) == Xor(a, Xor(b, c))
  {
    assert forall i :: 0 <= i < |a| ==> Xor(Xor(a, b), c)[i] == Xor(a, Xor(b, c))[i];
  }

  /** A buffer of n copies of one byte. */
  function Fill(n: nat, v: byte): (r: seq<byte>)
    ensures |r| == n
    ensures forall i :: 0 <= i < n ==> r[i] == v
  {
    seq(n, _ => v)
  }

  /** The buffer q with the bytes at offset o replaced by blk. */
  function Splice(q: seq<byte>, o: nat, blk: seq<byte>): (r: seq<byte>)
    requires o + |blk| <= |q|
    ensures |r| == |q|
    ensures forall t :: 0 <= t < |q| ==> r[t] == if o <= t < o + |blk| then blk[t - o] else q[t]
  {
    q[..o] + blk + q[o + |blk|..]
  }
}
