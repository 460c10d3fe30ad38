/**
 * The AES-128 block cipher of aes_crypt/lib/aes_crypt.cpp (FIPS-197).
 *
 * The C code works in place on a 16-byte buffer p whose byte at row i and
 * column j is p[i + 4*j] (the `state` macro), and on the 176-byte key
 * schedule KeyExpansion fills. Here each transformation is a method on
 * arrays, specified by a function on the State the buffer holds; the
 * lemmas relate those functions to FIPS-197 and to each other.
 */
module Aes {
  import opened Bytes
  import opened Gf
  import opened Tables

  const ROUNDS := 10
  const BLOCK_BYTE_SIZE := 16
  const SCHEDULE_SIZE := 176

  // ------------------------------------------------------------ the state

  /** The cipher state as FIPS-197 section 3.4 draws it: four columns of
    * four bytes; column j is p[4j .. 4j+3]. */
  datatype State = State(c0: Word, c1: Word, c2: Word, c3: Word)

  /** The four bytes at offset o, as one column. */
  function WordAt(s: seq<byte>, o: nat): Word
    requires o + 4 <= |s|
  {
    Word(s[o], s[o + 1], s[o + 2], s[o + 3])
  }

  /** The 16 bytes at offset o, as a state. */
  function BlockAt(s: seq<byte>, o: nat): State
    requires o + BLOCK_BYTE_SIZE <= |s|
  {
    State(WordAt(s, o), WordAt(s, o + 4), WordAt(s, o + 8), WordAt(s, o + 12))
  }

  /** The buffer that holds a state. */
  function ToBytes(st: State): (b: seq<byte>)
    ensures |b| == BLOCK_BYTE_SIZE
  {
    [st.c0.b0, st.c0.b1, st.c0.b2, st.c0.b3, st.c1.b0, st.c1.b1, st.c1.b2, st.c1.b3,
     st.c2.b0, st.c2.b1, st.c2.b2, st.c2.b3, st.c3.b0, st.c3.b1, st.c3.b2, st.c3.b3]
  }

  /** Column c of a state. */
  function Col(st: State, c: nat): Word
    requires c < 4
  {
    if c == 0 then st.c0 else if c == 1 then st.c1 else if c == 2 then st.c2 else st.c3
  }

  /** The state macro: the byte at row i and column j. */
  function At(st: State, i: nat, j: nat): byte
    requires i < 4 && j < 4
  {
    ByteOf(Col(st, j), i)
  }

  /** Byte k of a word. */
  function ByteOf(a: Word, k: nat): byte
    requires k < 4
  {
    if k == 0 then a.b0 else if k == 1 then a.b1 else if k == 2 then a.b2 else a.b3
  }

  /** Reading a state back from its buffer gives the state. */
  lemma BlockAtToBytes(st: State)
    ensures BlockAt(ToBytes(st), 0) == st
  {}

  /** Writing out the state read at offset o gives the 16 bytes there. */
  lemma ToBytesBlockAt(s: seq<byte>, o: nat)
    requires o + BLOCK_BYTE_SIZE <= |s|
    ensures ToBytes(BlockAt(s, o)) == s[o .. o + BLOCK_BYTE_SIZE]
  {}

  /** A 16-byte buffer is determined by the state it holds. */
  lemma BlockAtInjective(s: seq<byte>, t: seq<byte>)
    requires |s| == BLOCK_BYTE_SIZE && |t| == BLOCK_BYTE_SIZE && BlockAt(s, 0) == BlockAt(t, 0)
    ensures s == t
  {
    ToBytesBlockAt(s, 0);
    ToBytesBlockAt(t, 0);
  }

  // ------------------------------------------------------- key schedule

  /** XOR of two words, byte by byte. */
  function XorWord(a: Word, b: Word): (r: Word)
    ensures r.b0 == a.b0 ^ b.b0 && r.b1 == a.b1 ^ b.b1 && r.b2 == a.b2 ^ b.b2 && r.b3 == a.b3 ^ b.b3
  {
    Word(a.b0 ^ b.b0, a.b1 ^ b.b1, a.b2 ^ b.b2, a.b3 ^ b.b3)
  }

  /** RotWord, SubWord and Rcon[i] as FIPS-197 section 5.2 names them. */
  function RotWord(a: Word): Word { Word(a.b1, a.b2, a.b3, a.b0) }
  function SubWord(a: Word): Word { Word(Sbox(a.b0), Sbox(a.b1), Sbox(a.b2), Sbox(a.b3)) }
  function RconWord(i: nat): Word
    requires i < 255
  {
    Word(Rcon(i), 0, 0, 0)
  }

  /** The FIPS-197 section 5.2 step for Nk = 4: word j of the schedule
    * from the words a = w[j-4] and b = w[j-1]; it is
    * a xor SubWord(RotWord(b)) xor Rcon[j/4] when 4 divides j and a xor b
    * otherwise. */
  function ExpandWord(a: Word, b: Word, j: nat): Word
    requires j < 4 * (ROUNDS + 1)
  {
    if j % 4 == 0 then XorWord(a, XorWord(SubWord(RotWord(b)), RconWord(j / 4)))
    else XorWord(a, b)
  }

  /** Word j of the key schedule: the first four words are the key, each
    * later one is ExpandWord of the words four and one places back. */
  function ScheduleWord(key: seq<byte>, j: nat): Word
    requires |key| == 16 && j < 4 * (ROUNDS + 1)
  {
    if j < 4 then WordAt(key, 4 * j)
    else ExpandWord(ScheduleWord(key, j - 4), ScheduleWord(key, j - 1), j)
  }

  /** w is the key schedule of key: word j of FIPS-197 sits at bytes
    * 4j .. 4j + 3, so round key r is bytes 16r .. 16r + 15. */
  predicate IsScheduleOf(w: seq<byte>, key: seq<byte>)
    requires |key| == 16
  {
    |w| == SCHEDULE_SIZE && forall j :: 0 <= j < 4 * (ROUNDS + 1) ==> WordAt(w, 4 * j) == ScheduleWord(key, j)
  }

  /** The key schedule of key, as bytes. */
  function Schedule(key: seq<byte>): (w: seq<byte>)
    requires |key| == 16
    ensures |w| == SCHEDULE_SIZE
  {
    seq(SCHEDULE_SIZE, t requires 0 <= t < SCHEDULE_SIZE => ByteOf(ScheduleWord(key, t / 4), t % 4))
  }

  /** Schedule lays the words of ScheduleWord out four bytes each. */
  lemma ScheduleIsScheduleOf(key: seq<byte>)
    requires |key| == 16
    ensures IsScheduleOf(Schedule(key), key)
  {
    var w := Schedule(key);
    forall j | 0 <= j < 4 * (ROUNDS + 1)
      ensures WordAt(w, 4 * j) == ScheduleWord(key, j)
    {
      assert (4 * j + 1) / 4 == j && (4 * j + 2) / 4 == j && (4 * j + 3) / 4 == j;
    }
  }

  /** Whatever holds the schedule of key holds Schedule(key). */
  lemma IsScheduleOfIsSchedule(w: seq<byte>, key: seq<byte>)
    requires |key| == 16 && IsScheduleOf(w, key)
    ensures w == Schedule(key)
  {
    ScheduleIsScheduleOf(key);
    ScheduleIsUnique(w, Schedule(key), key);
  }

  /** Adding a word whose last three bytes are zero, regrouped. */
  lemma XorWordRcon(a: Word, s: Word, rc: byte)
    ensures XorWord(a, XorWord(s, Word(rc, 0, 0, 0))) == Word(a.b0 ^ s.b0 ^ rc, a.b1 ^ s.b1, a.b2 ^ s.b2, a.b3 ^ s.b3)
  {
    XorByteAssoc(a.b0, s.b0, rc);
    XorByteZero(a.b1, s.b1);
    XorByteZero(a.b2, s.b2);
    XorByteZero(a.b3, s.b3);
  }

  lemma XorByteAssoc(a: byte, b: byte, c: byte)
    ensures a ^ b ^ c == a ^ (b ^ c)
  {}

  lemma XorByteZero(a: byte, b: byte)
    ensures a ^ (b ^ 0) == a ^ b
  {}

  /** ExpandWord byte by byte, as KeyExpansion computes it: when 4
    * divides j, byte k is byte k of a xor the S-box of byte k + 1 (mod 4)
    * of b, with Rcon[j/4] added to byte 0; otherwise byte k of a xor
    * byte k of b. */
  lemma ExpandWordBytes(a: Word, b: Word, j: nat)
    requires j < 4 * (ROUNDS + 1)
    ensures j % 4 == 0 ==> ExpandWord(a, b, j).b0 == a.b0 ^ Sbox(b.b1) ^ Rcon(j / 4)
    ensures j % 4 == 0 ==> ExpandWord(a, b, j).b1 == a.b1 ^ Sbox(b.b2)
    ensures j % 4 == 0 ==> ExpandWord(a, b, j).b2 == a.b2 ^ Sbox(b.b3)
    ensures j % 4 == 0 ==> ExpandWord(a, b, j).b3 == a.b3 ^ Sbox(b.b0)
    ensures j % 4 != 0 ==> ExpandWord(a, b, j) == XorWord(a, b)
  {
    if j % 4 == 0 {
      XorByteAssoc(a.b0, Sbox(b.b1), Rcon(j / 4));
      XorByteZero(a.b1, Sbox(b.b2));
      XorByteZero(a.b2, Sbox(b.b3));
      XorByteZero(a.b3, Sbox(b.b0));
    }
  }

  /** The first round key is the key. */
  lemma ScheduleStartsWithKey(w: seq<byte>, key: seq<byte>)
    requires |key| == 16 && IsScheduleOf(w, key)
    ensures w[..16] == key
  {
    assert WordAt(w, 4 * 0) == WordAt(key, 0);
    assert WordAt(w, 4 * 1) == WordAt(key, 4);
    assert WordAt(w, 4 * 2) == WordAt(key, 8);
    assert WordAt(w, 4 * 3) == WordAt(key, 12);
  }

  /** Two schedules of the same key are the same bytes. */
  lemma ScheduleIsUnique(w: seq<byte>, v: seq<byte>, key: seq<byte>)
    requires |key| == 16 && IsScheduleOf(w, key) && IsScheduleOf(v, key)
    ensures w == v
  {
    forall t | 0 <= t < SCHEDULE_SIZE
      ensures w[t] == v[t]
    {
      var j := t / 4;
      assert WordAt(w, 4 * j) == WordAt(v, 4 * j);
      assert t == 4 * j + t % 4;
    }
  }

  /** KeyExpansion's round-constant counter r satisfies
    * 16r <= i + 12 < 16r + 16 at word offset i: it equals i / 16 exactly
    * when i is a multiple of 16, and it is one ahead of the word in the
    * other three columns. */
  lemma RconIndex(i: nat, r: nat)
    requires i % 4 == 0 && 16 * r <= i + 12 <= 16 * r + 15
    ensures i % 16 == 0 <==> i == 16 * r
    ensures (i / 4) % 4 == 0 <==> i == 16 * r
    ensures i == 16 * r ==> (i / 4) / 4 == r
  {
  }

  /** The first n bytes of s (n a multiple of 4) are the first n / 4 words
    * of the schedule of key. */
  predicate SchedulePrefix(s: seq<byte>, key: seq<byte>, n: nat)
    requires |key| == 16 && n <= |s| && n <= SCHEDULE_SIZE && n % 4 == 0
  {
    forall o :: 0 <= o < n && o % 4 == 0 ==> WordAt(s, o) == ScheduleWord(key, o / 4)
  }

  /** Once the words before i are right, ExpandWord of the words at
    * i - 16 and i - 4 is schedule word i / 4. */
  lemma NextWordIsScheduleWord(s: seq<byte>, key: seq<byte>, i: nat)
    requires |key| == 16 && 16 <= i < |s| && i < SCHEDULE_SIZE && i % 4 == 0
    requires SchedulePrefix(s, key, i)
    ensures ExpandWord(WordAt(s, i - 16), WordAt(s, i - 4), i / 4) == ScheduleWord(key, i / 4)
  {
    assert (i - 16) / 4 == i / 4 - 4 && (i - 4) / 4 == i / 4 - 1 && (i - 16) % 4 == 0 && (i - 4) % 4 == 0;
    assert WordAt(s, i - 16) == ScheduleWord(key, i / 4 - 4);
    assert WordAt(s, i - 4) == ScheduleWord(key, i / 4 - 1);
  }

  /** The key itself is the first four words of its schedule. */
  lemma KeyIsSchedulePrefix(s: seq<byte>, key: seq<byte>)
    requires |key| == 16 && |s| == SCHEDULE_SIZE && s[..16] == key
    ensures SchedulePrefix(s, key, 16)
  {
    forall o | 0 <= o < 16 && o % 4 == 0
      ensures WordAt(s, o) == ScheduleWord(key, o / 4)
    {
      assert WordAt(s, o) == WordAt(key, o);
      assert o == 4 * (o / 4);
    }
  }

  /** A whole buffer of correct words is the schedule. */
  lemma SchedulePrefixIsSchedule(s: seq<byte>, key: seq<byte>)
    requires |key| == 16 && |s| == SCHEDULE_SIZE && SchedulePrefix(s, key, SCHEDULE_SIZE)
    ensures IsScheduleOf(s, key)
  {
    forall j | 0 <= j < 4 * (ROUNDS + 1)
      ensures WordAt(s, 4 * j) == ScheduleWord(key, j)
    {
      assert (4 * j) % 4 == 0 && (4 * j) / 4 == j;
    }
  }

  /** Writing schedule word i / 4 at i extends the prefix by one word. */
  lemma SchedulePrefixGrows(s: seq<byte>, t: seq<byte>, key: seq<byte>, i: nat)
    requires |key| == 16 && i + 4 <= |s| && i + 4 <= SCHEDULE_SIZE && i % 4 == 0
    requires SchedulePrefix(s, key, i)
    requires |t| == |s| && t[..i] == s[..i]
    requires Word(t[i], t[i + 1], t[i + 2], t[i + 3]) == ScheduleWord(key, i / 4)
    ensures SchedulePrefix(t, key, i + 4)
  {
    forall o | 0 <= o < i + 4 && o % 4 == 0
      ensures WordAt(t, o) == ScheduleWord(key, o / 4)
    {
      if o < i {
        assert o + 4 <= i;
        assert t[o] == t[..i][o] && t[o + 1] == t[..i][o + 1] && t[o + 2] == t[..i][o + 2] && t[o + 3] == t[..i][o + 3];
        assert WordAt(t, o) == WordAt(s, o);
      } else {
        assert o == i;
      }
    }
  }

  /** One step of KeyExpansion's loop on the buffer s: the four bytes at
    * i, computed from the bytes 16 and 4 places back, with round
    * constant r when i is a multiple of 16. */
  function KeyStep(s: seq<byte>, i: nat, r: nat): (t: seq<byte>)
    requires 16 <= i && i + 4 <= |s| && r < 255
    ensures |t| == |s|
  {
    if i % 16 == 0 then
      s[i := s[i - 16] ^ Sbox(s[i - 3]) ^ Rcon(r)]
       [i + 1 := s[i - 15] ^ Sbox(s[i - 2])]
       [i + 2 := s[i - 14] ^ Sbox(s[i - 1])]
       [i + 3 := s[i - 13] ^ Sbox(s[i - 4])]
    else
      s[i := s[i - 16] ^ s[i - 4]]
       [i + 1 := s[i - 15] ^ s[i - 3]]
       [i + 2 := s[i - 14] ^ s[i - 2]]
       [i + 3 := s[i - 13] ^ s[i - 1]]
  }

  /** A step leaves the bytes before i alone. */
  lemma KeyStepKeepsPrefix(s: seq<byte>, i: nat, r: nat)
    requires 16 <= i && i + 4 <= |s| && r < 255
    ensures KeyStep(s, i, r)[..i] == s[..i]
  {
  }

  /** The word a step writes is ExpandWord of the words 16 and 4 bytes
    * back: KeyExpansion's byte formulas are the FIPS-197 step. */
  lemma KeyStepWord(s: seq<byte>, i: nat, r: nat)
    requires |s| == SCHEDULE_SIZE && 16 <= i < SCHEDULE_SIZE && i % 4 == 0
    requires 16 * r <= i + 12 <= 16 * r + 15
    ensures var t := KeyStep(s, i, r);
      Word(t[i], t[i + 1], t[i + 2], t[i + 3]) == ExpandWord(WordAt(s, i - 16), WordAt(s, i - 4), i / 4)
  {
    RconIndex(i, r);
    if i % 16 == 0 {
      KeyStepWordRot(s, i, r);
    } else {
      KeyStepWordXor(s, i, r);
    }
  }

  lemma KeyStepWordRot(s: seq<byte>, i: nat, r: nat)
    requires |s| == SCHEDULE_SIZE && 16 <= i < SCHEDULE_SIZE && i == 16 * r
    ensures var t := KeyStep(s, i, r);
      Word(t[i], t[i + 1], t[i + 2], t[i + 3]) == ExpandWord(WordAt(s, i - 16), WordAt(s, i - 4), i / 4)
  {
    var t, a, b := KeyStep(s, i, r), WordAt(s, i - 16), WordAt(s, i - 4);
    assert (i / 4) % 4 == 0 && (i / 4) / 4 == r;
    assert a.b0 == s[i - 16] && a.b1 == s[i - 15] && a.b2 == s[i - 14] && a.b3 == s[i - 13];
    assert b.b0 == s[i - 4] && b.b1 == s[i - 3] && b.b2 == s[i - 2] && b.b3 == s[i - 1];
    ExpandWordBytes(a, b, i / 4);
  }

  lemma KeyStepWordXor(s: seq<byte>, i: nat, r: nat)
    requires |s| == SCHEDULE_SIZE && 16 <= i < SCHEDULE_SIZE && i % 4 == 0 && i % 16 != 0 && r < 255
    ensures var t := KeyStep(s, i, r);
      Word(t[i], t[i + 1], t[i + 2], t[i + 3]) == ExpandWord(WordAt(s, i - 16), WordAt(s, i - 4), i / 4)
  {
    assert (i / 4) % 4 != 0;
    ExpandWordBytes(WordAt(s, i - 16), WordAt(s, i - 4), i / 4);
  }

  /** A step of the loop extends a correct prefix of the schedule by one
    * word, as long as r counts the round constants as the loop does. */
  lemma KeyStepGrows(s: seq<byte>, key: seq<byte>, i: nat, r: nat)
    requires |key| == 16 && |s| == SCHEDULE_SIZE && 16 <= i < SCHEDULE_SIZE && i % 4 == 0
    requires 16 * r <= i + 12 <= 16 * r + 15
    requires SchedulePrefix(s, key, i)
    ensures SchedulePrefix(KeyStep(s, i, r), key, i + 4)
  {
    NextWordIsScheduleWord(s, key, i);
    KeyStepWord(s, i, r);
    KeyStepKeepsPrefix(s, i, r);
    SchedulePrefixGrows(s, KeyStep(s, i, r), key, i);
  }

  /** The body of KeyExpansion's loop: the four bytes at i, from the
    * bytes 16 and 4 places back, with Rcon[r] (and r moving on) when i is
    * a multiple of 16. */
  method KeyExpansionStep(keys: array<byte>, i: nat, r: nat) returns (r': nat)
    requires keys.Length == SCHEDULE_SIZE && 16 <= i < SCHEDULE_SIZE && i % 4 == 0
    requires 16 * r <= i + 12 <= 16 * r + 15
    modifies keys
    ensures keys[..] == KeyStep(old(keys[..]), i, r)
    ensures r' == if i % 16 == 0 then r + 1 else r
  {
    RconIndex(i, r);
    r' := r;
    var v0, v1, v2, v3;
    if i % 16 == 0 {
      v0 := keys[i - 16] ^ GetSboxValue(keys[i - 3]) ^ GetRconValue(r');
      r' := r' + 1;
      v1 := keys[i - 15] ^ GetSboxValue(keys[i - 2]);
      v2 := keys[i - 14] ^ GetSboxValue(keys[i - 1]);
      v3 := keys[i - 13] ^ GetSboxValue(keys[i - 4]);
    } else {
      v0 := keys[i - 16] ^ keys[i - 4];
      v1 := keys[i - 15] ^ keys[i - 3];
      v2 := keys[i - 14] ^ keys[i - 2];
      v3 := keys[i - 13] ^ keys[i - 1];
    }
    keys[i], keys[i + 1], keys[i + 2], keys[i + 3] := v0, v1, v2, v3;
  }

  /** KeyExpansion: copy the key, then fill bytes 16..175 four at a time;
    * r is the number of the next round constant. */
  method KeyExpansion(key: array<byte>, keys: array<byte>)
    requires key.Length == 16 && keys.Length == SCHEDULE_SIZE && key != keys
    modifies keys
    ensures IsScheduleOf(keys[..], key[..])
  {
    ghost var k := key[..];
    forall t | 0 <= t < 16 {
      keys[t] := key[t];
    }
    KeyIsSchedulePrefix(keys[..], k);
    var r := 1;
    var i := 16;
    while i < SCHEDULE_SIZE
      invariant 16 <= i <= SCHEDULE_SIZE && i % 4 == 0
      invariant 16 * r <= i + 12 <= 16 * r + 15
      invariant SchedulePrefix(keys[..], k, i)
    {
      KeyStepGrows(keys[..], k, i, r);
      RconIndex(i, r);
      r := KeyExpansionStep(keys, i, r);
      i := i + 4;
    }
    SchedulePrefixIsSchedule(keys[..], k);
    assert key[..] == k;
  }

  // --------------------------------------------------- round functions

  /** XOR of two states, column by column. */
  function XorState(a: State, b: State): State
  {
    State(XorWord(a.c0, b.c0), XorWord(a.c1, b.c1), XorWord(a.c2, b.c2), XorWord(a.c3, b.c3))
  }

  /** AddRoundKey: xor the 16 schedule bytes of the given round. */
  function AddRoundKeySpec(s: State, w: seq<byte>, round: nat): State
    requires |w| == SCHEDULE_SIZE && round <= ROUNDS
  {
    XorState(s, BlockAt(w, 16 * round))
  }

  /** SubBytes followed by ShiftRows (FIPS-197 sections 5.1.1-5.1.2), in
    * the assignments SubAndShift makes: the byte at row i of column j
    * becomes the S-box of the byte at row i of column (j + i) mod 4. */
  function SubAndShiftSpec(s: State): State
  {
    State(Word(Sbox(s.c0.b0), Sbox(s.c1.b1), Sbox(s.c2.b2), Sbox(s.c3.b3)),
          Word(Sbox(s.c1.b0), Sbox(s.c2.b1), Sbox(s.c3.b2), Sbox(s.c0.b3)),
          Word(Sbox(s.c2.b0), Sbox(s.c3.b1), Sbox(s.c0.b2), Sbox(s.c1.b3)),
          Word(Sbox(s.c3.b0), Sbox(s.c0.b1), Sbox(s.c1.b2), Sbox(s.c2.b3)))
  }

  /** InvShiftRows followed by InvSubBytes (FIPS-197 sections 5.3.1-5.3.2):
    * the byte at row i of column (j + i) mod 4 becomes the inverse S-box
    * of the byte at row i of column j. */
  function InvSubAndShiftSpec(s: State): State
  {
    State(Word(InvSbox(s.c0.b0), InvSbox(s.c3.b1), InvSbox(s.c2.b2), InvSbox(s.c1.b3)),
          Word(InvSbox(s.c1.b0), InvSbox(s.c0.b1), InvSbox(s.c3.b2), InvSbox(s.c2.b3)),
          Word(InvSbox(s.c2.b0), InvSbox(s.c1.b1), InvSbox(s.c0.b2), InvSbox(s.c3.b3)),
          Word(InvSbox(s.c3.b0), InvSbox(s.c2.b1), InvSbox(s.c1.b2), InvSbox(s.c0.b3)))
  }

  /** MixColumns (FIPS-197 section 5.1.3) on each of the four columns. */
  function MixColumnsSpec(s: State): State
  {
    State(MixColumn(s.c0), MixColumn(s.c1), MixColumn(s.c2), MixColumn(s.c3))
  }

  /** InvMixColumns (FIPS-197 section 5.3.3) on each of the four columns. */
  function InvMixColumnsSpec(s: State): State
  {
    State(InvMixColumn(s.c0), InvMixColumn(s.c1), InvMixColumn(s.c2), InvMixColumn(s.c3))
  }

  /** One full encryption round r (1 <= r <= 9): SubAndShift, MixColumns,
    * AddRoundKey(r). */
  function RoundBody(s: State, w: seq<byte>, r: nat): State
    requires |w| == SCHEDULE_SIZE && r <= ROUNDS
  {
    AddRoundKeySpec(MixColumnsSpec(SubAndShiftSpec(s)), w, r)
  }

  /** RoundBody behind a short recursion counted down from a byte of the
    * state itself: the verifier unfolds it only for a known state, so
    * proofs about symbolic states keep whole rounds as single terms. */
  function Round(s: State, w: seq<byte>, r: nat): State
    requires |w| == SCHEDULE_SIZE && r <= ROUNDS
  {
    RoundAt(s, w, r, s.c0.b0)
  }

  function RoundAt(s: State, w: seq<byte>, r: nat, d: byte): State
    requires |w| == SCHEDULE_SIZE && r <= ROUNDS
    decreases d as int, 2
  {
    RoundMid(s, w, r, d)
  }

  function RoundMid(s: State, w: seq<byte>, r: nat, d: byte): State
    requires |w| == SCHEDULE_SIZE && r <= ROUNDS
    decreases d as int, 1
  {
    RoundLeaf(s, w, r, d)
  }

  function RoundLeaf(s: State, w: seq<byte>, r: nat, d: byte): State
    requires |w| == SCHEDULE_SIZE && r <= ROUNDS
    decreases d as int, 0
  {
    if d == 0 then RoundBody(s, w, r) else RoundAt(s, w, r, d - 1)
  }

  lemma {:induction false} RoundLeafIs(s: State, w: seq<byte>, r: nat, d: byte)
    requires |w| == SCHEDULE_SIZE && r <= ROUNDS
    ensures RoundLeaf(s, w, r, d) == RoundBody(s, w, r)
    decreases d as int
  {
    if d != 0 {
      RoundLeafIs(s, w, r, d - 1);
      assert RoundAt(s, w, r, d - 1) == RoundMid(s, w, r, d - 1);
    }
  }

  lemma RoundIs(s: State, w: seq<byte>, r: nat)
    requires |w| == SCHEDULE_SIZE && r <= ROUNDS
    ensures Round(s, w, r) == AddRoundKeySpec(MixColumnsSpec(SubAndShiftSpec(s)), w, r)
  {
    RoundLeafIs(s, w, r, s.c0.b0);
    assert RoundAt(s, w, r, s.c0.b0) == RoundMid(s, w, r, s.c0.b0);
  }

  /** The state after rounds 1..n. */
  function Rounds(s: State, w: seq<byte>, n: nat): State
    requires |w| == SCHEDULE_SIZE && n < ROUNDS
  {
    if n == 0 then s else Round(Rounds(s, w, n - 1), w, n)
  }

  /** The cipher of FIPS-197 section 5.1 for Nr = 10. */
  function Cipher(s: State, w: seq<byte>): State
    requires |w| == SCHEDULE_SIZE
  {
    AddRoundKeySpec(SubAndShiftSpec(Rounds(AddRoundKeySpec(s, w, 0), w, ROUNDS - 1)), w, ROUNDS)
  }

  /** One decryption round r as DecryptBlock orders it: InvSubAndShift,
    * AddRoundKey(r), InvMixColumns. */
  function InvRoundBody(s: State, w: seq<byte>, r: nat): State
    requires |w| == SCHEDULE_SIZE && r <= ROUNDS
  {
    InvMixColumnsSpec(AddRoundKeySpec(InvSubAndShiftSpec(s), w, r))
  }

  /** InvRoundBody, kept whole for symbolic states as Round is. */
  function InvRound(s: State, w: seq<byte>, r: nat): State
    requires |w| == SCHEDULE_SIZE && r <= ROUNDS
  {
    InvRoundAt(s, w, r, s.c0.b0)
  }

  function InvRoundAt(s: State, w: seq<byte>, r: nat, d: byte): State
    requires |w| == SCHEDULE_SIZE && r <= ROUNDS
    decreases d as int, 2
  {
    InvRoundMid(s, w, r, d)
  }

  function InvRoundMid(s: State, w: seq<byte>, r: nat, d: byte): State
    requires |w| == SCHEDULE_SIZE && r <= ROUNDS
    decreases d as int, 1
  {
    InvRoundLeaf(s, w, r, d)
  }

  function InvRoundLeaf(s: State, w: seq<byte>, r: nat, d: byte): State
    requires |w| == SCHEDULE_SIZE && r <= ROUNDS
    decreases d as int, 0
  {
    if d == 0 then InvRoundBody(s, w, r) else InvRoundAt(s, w, r, d - 1)
  }

  lemma {:induction false} InvRoundLeafIs(s: State, w: seq<byte>, r: nat, d: byte)
    requires |w| == SCHEDULE_SIZE && r <= ROUNDS
    ensures InvRoundLeaf(s, w, r, d) == InvRoundBody(s, w, r)
    decreases d as int
  {
    if d != 0 {
      InvRoundLeafIs(s, w, r, d - 1);
      assert InvRoundAt(s, w, r, d - 1) == InvRoundMid(s, w, r, d - 1);
    }
  }

  lemma InvRoundIs(s: State, w: seq<byte>, r: nat)
    requires |w| == SCHEDULE_SIZE && r <= ROUNDS
    ensures InvRound(s, w, r) == InvMixColumnsSpec(AddRoundKeySpec(InvSubAndShiftSpec(s), w, r))
  {
    InvRoundLeafIs(s, w, r, s.c0.b0);
    assert InvRoundAt(s, w, r, s.c0.b0) == InvRoundMid(s, w, r, s.c0.b0);
  }

  /** The state after decryption rounds 9 down to r + 1. */
  function InvRoundsDownTo(s: State, w: seq<byte>, r: nat): State
    requires |w| == SCHEDULE_SIZE && r < ROUNDS
    decreases ROUNDS - r
  {
    if r == ROUNDS - 1 then s else InvRound(InvRoundsDownTo(s, w, r + 1), w, r + 1)
  }

  /** The inverse cipher of FIPS-197 section 5.3. */
  function InvCipher(s: State, w: seq<byte>): State
    requires |w| == SCHEDULE_SIZE
  {
    AddRoundKeySpec(InvSubAndShiftSpec(InvRoundsDownTo(AddRoundKeySpec(s, w, ROUNDS), w, 0)), w, 0)
  }

  // ------------------------------------------------ inverse properties

  /** Adding the same round key twice restores the state. */
  lemma AddRoundKeyTwice(s: State, w: seq<byte>, round: nat)
    requires |w| == SCHEDULE_SIZE && round <= ROUNDS
    ensures AddRoundKeySpec(AddRoundKeySpec(s, w, round), w, round) == s
  {
    XorStateTwice(s, BlockAt(w, 16 * round));
  }

  lemma XorStateTwice(a: State, b: State)
    ensures XorState(XorState(a, b), b) == a
  {
    XorWordTwice(a.c0, b.c0);
    XorWordTwice(a.c1, b.c1);
    XorWordTwice(a.c2, b.c2);
    XorWordTwice(a.c3, b.c3);
  }

  lemma XorWordTwice(a: Word, b: Word)
    ensures XorWord(XorWord(a, b), b) == a
  {
    XorByteTwice(a.b0, b.b0);
    XorByteTwice(a.b1, b.b1);
    XorByteTwice(a.b2, b.b2);
    XorByteTwice(a.b3, b.b3);
  }

  lemma XorByteTwice(a: byte, b: byte)
    ensures a ^ b ^ b == a
  {}

  /** Row i of SubAndShift is row i of the input, S-boxed and rotated left
    * by i (FIPS-197 equation 5.5), and InvSubAndShift rotates it back. */
  lemma SubAndShiftRotatesRows(s: State, i: nat, j: nat)
    requires i < 4 && j < 4
    ensures At(SubAndShiftSpec(s), i, j) == Sbox(At(s, i, (j + i) % 4))
    ensures At(InvSubAndShiftSpec(s), i, (j + i) % 4) == InvSbox(At(s, i, j))
  {
    var k := (j + i) % 4;
    assert k == if j + i < 4 then j + i else j + i - 4;
  }

  lemma InvSubAndShiftOfSubAndShift(s: State)
    ensures InvSubAndShiftSpec(SubAndShiftSpec(s)) == s
  {
    InvSboxOfSbox(s.c0.b0); InvSboxOfSbox(s.c0.b1); InvSboxOfSbox(s.c0.b2); InvSboxOfSbox(s.c0.b3);
    InvSboxOfSbox(s.c1.b0); InvSboxOfSbox(s.c1.b1); InvSboxOfSbox(s.c1.b2); InvSboxOfSbox(s.c1.b3);
    InvSboxOfSbox(s.c2.b0); InvSboxOfSbox(s.c2.b1); InvSboxOfSbox(s.c2.b2); InvSboxOfSbox(s.c2.b3);
    InvSboxOfSbox(s.c3.b0); InvSboxOfSbox(s.c3.b1); InvSboxOfSbox(s.c3.b2); InvSboxOfSbox(s.c3.b3);
  }

  lemma SubAndShiftOfInvSubAndShift(s: State)
    ensures SubAndShiftSpec(InvSubAndShiftSpec(s)) == s
  {
    SboxOfInvSbox(s.c0.b0); SboxOfInvSbox(s.c0.b1); SboxOfInvSbox(s.c0.b2); SboxOfInvSbox(s.c0.b3);
    SboxOfInvSbox(s.c1.b0); SboxOfInvSbox(s.c1.b1); SboxOfInvSbox(s.c1.b2); SboxOfInvSbox(s.c1.b3);
    SboxOfInvSbox(s.c2.b0); SboxOfInvSbox(s.c2.b1); SboxOfInvSbox(s.c2.b2); SboxOfInvSbox(s.c2.b3);
    SboxOfInvSbox(s.c3.b0); SboxOfInvSbox(s.c3.b1); SboxOfInvSbox(s.c3.b2); SboxOfInvSbox(s.c3.b3);
  }

  lemma InvMixColumnsOfMixColumns(s: State)
    ensures InvMixColumnsSpec(MixColumnsSpec(s)) == s
  {
    InvMixColumnOfMixColumn(s.c0);
    InvMixColumnOfMixColumn(s.c1);
    InvMixColumnOfMixColumn(s.c2);
    InvMixColumnOfMixColumn(s.c3);
  }

  /** Decryption round r undoes encryption round r, up to one SubAndShift. */
  lemma InvRoundOfRound(x: State, w: seq<byte>, r: nat)
    requires |w| == SCHEDULE_SIZE && r <= ROUNDS
    ensures InvRound(SubAndShiftSpec(Round(x, w, r)), w, r) == SubAndShiftSpec(x)
  {
    RoundIs(x, w, r);
    InvRoundIs(SubAndShiftSpec(Round(x, w, r)), w, r);
    var t := MixColumnsSpec(SubAndShiftSpec(x));
    InvSubAndShiftOfSubAndShift(AddRoundKeySpec(t, w, r));
    AddRoundKeyTwice(t, w, r);
    InvMixColumnsOfMixColumns(SubAndShiftSpec(x));
  }

  /** The inverse rounds meet the forward states S-boxed. */
  lemma {:induction false} InvRoundsMeetRounds(s: State, w: seq<byte>, r: nat)
    requires |w| == SCHEDULE_SIZE && r < ROUNDS
    ensures InvRoundsDownTo(SubAndShiftSpec(Rounds(s, w, ROUNDS - 1)), w, r)
         == SubAndShiftSpec(Rounds(s, w, r))
    decreases ROUNDS - r
  {
    if r < ROUNDS - 1 {
      InvRoundsMeetRounds(s, w, r + 1);
      InvRoundOfRound(Rounds(s, w, r), w, r + 1);
    } else {
      assert r == ROUNDS - 1;
    }
  }

  /** DecryptBlock inverts EncryptBlock under every schedule. */
  lemma InvCipherOfCipher(s: State, w: seq<byte>)
    requires |w| == SCHEDULE_SIZE
    ensures InvCipher(Cipher(s, w), w) == s
  {
    var s0 := AddRoundKeySpec(s, w, 0);
    var z := SubAndShiftSpec(Rounds(s0, w, ROUNDS - 1));
    AddRoundKeyTwice(z, w, ROUNDS);
    InvRoundsMeetRounds(s0, w, 0);
    InvSubAndShiftOfSubAndShift(s0);
    AddRoundKeyTwice(s, w, 0);
  }
}
