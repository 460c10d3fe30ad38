/**
 * Known-answer values for the cipher and the MAC. The key
 * 2b7e1516 28aed2a6 abf71588 09cf4f3c is the one of FIPS-197 appendices
 * A.1 and B and of the AES-CMAC examples of RFC 4493 section 4; it is also
 * the older copies' global pKey (Cmac.PKEY). The CMAC test program
 * aes_crypt/test_cases/aes_cmac_test.cpp expands it, MACs the first 0, 16,
 * 40 and 64 bytes of the RFC's message with it, and verifies a tag.
 *
 * A cipher here is followed three rounds per lemma: the verifier computes
 * each state from the one before it and the round key, looking the S-box up
 * in its table. The schedule is taken the same way, one expansion round per
 * lemma. A proof about a cipher only assumes that the schedule holds the
 * round keys of FIPS-197 appendix A.1 (HoldsRoundKeys), so no proof unfolds
 * the schedule and the cipher at once.
 */
module Vectors {
  import opened Bytes
  import opened Tables
  import opened Gf
  import opened Aes
  import opened AesBlock
  import Cbc
  import Cmac

  /** The key of FIPS-197 appendix A.1 and RFC 4493 section 4 (Key[] of the
    * CMAC test). */
  const KEY: seq<byte> := [0x2b, 0x7e, 0x15, 0x16, 0x28, 0xae, 0xd2, 0xa6,
     0xab, 0xf7, 0x15, 0x88, 0x09, 0xcf, 0x4f, 0x3c]

  /** The input and output blocks of FIPS-197 appendix B. */
  const PLAINTEXT: seq<byte> := [0x32, 0x43, 0xf6, 0xa8, 0x88, 0x5a, 0x30, 0x8d,
     0x31, 0x31, 0x98, 0xa2, 0xe0, 0x37, 0x07, 0x34]
  const CIPHERTEXT: seq<byte> := [0x39, 0x25, 0x84, 0x1d, 0x02, 0xdc, 0x09, 0xfb,
     0xdc, 0x11, 0x85, 0x97, 0x19, 0x6a, 0x0b, 0x32]

  /** The 64-byte message of RFC 4493 section 4 (M[] of the CMAC test),
    * block by block. */
  const M1: seq<byte> := [0x6b, 0xc1, 0xbe, 0xe2, 0x2e, 0x40, 0x9f, 0x96,
     0xe9, 0x3d, 0x7e, 0x11, 0x73, 0x93, 0x17, 0x2a]
  const M2: seq<byte> := [0xae, 0x2d, 0x8a, 0x57, 0x1e, 0x03, 0xac, 0x9c,
     0x9e, 0xb7, 0x6f, 0xac, 0x45, 0xaf, 0x8e, 0x51]
  const M3: seq<byte> := [0x30, 0xc8, 0x1c, 0x46, 0xa3, 0x5c, 0xe4, 0x11,
     0xe5, 0xfb, 0xc1, 0x19, 0x1a, 0x0a, 0x52, 0xef]
  const M4: seq<byte> := [0xf6, 0x9f, 0x24, 0x45, 0xdf, 0x4f, 0x9b, 0x17,
     0xad, 0x2b, 0x41, 0x7b, 0xe6, 0x6c, 0x37, 0x10]
  const MESSAGE: seq<byte> := M1 + M2 + M3 + M4

  /** The tags of the first 0, 16, 40 and 64 bytes of MESSAGE (CMAC0,
    * CMAC16, CMAC40 and CMAC64 of the CMAC test). */
  const CMAC0: seq<byte> := [0xbb, 0x1d, 0x69, 0x29, 0xe9, 0x59, 0x37, 0x28,
     0x7f, 0xa3, 0x7d, 0x12, 0x9b, 0x75, 0x67, 0x46]
  const CMAC16: seq<byte> := [0x07, 0x0a, 0x16, 0xb4, 0x6b, 0x4d, 0x41, 0x44,
     0xf7, 0x9b, 0xdd, 0x9d, 0xd0, 0x4a, 0x28, 0x7c]
  const CMAC40: seq<byte> := [0xdf, 0xa6, 0x67, 0x47, 0xde, 0x9a, 0xe6, 0x30,
     0x30, 0xca, 0x32, 0x61, 0x14, 0x97, 0xc8, 0x27]
  const CMAC64: seq<byte> := [0x51, 0xf0, 0xbe, 0xbf, 0x7e, 0x3b, 0x9d, 0x92,
     0xfc, 0x49, 0x74, 0x17, 0x79, 0x36, 0x3c, 0xfe]

  /** The CMAC values L = E(0), K1 and K2 of RFC 4493 section 4. */
  const L: seq<byte> := [0x7d, 0xf7, 0x6b, 0x0c, 0x1a, 0xb8, 0x99, 0xb3,
     0x3e, 0x42, 0xf0, 0x47, 0xb9, 0x1b, 0x54, 0x6f]
  const K1: seq<byte> := [0xfb, 0xee, 0xd6, 0x18, 0x35, 0x71, 0x33, 0x66,
     0x7c, 0x85, 0xe0, 0x8f, 0x72, 0x36, 0xa8, 0xde]
  const K2: seq<byte> := [0xf7, 0xdd, 0xac, 0x30, 0x6a, 0xe2, 0x66, 0xcc,
     0xf9, 0x0b, 0xc1, 0x1e, 0xe4, 0x6d, 0x51, 0x3b]

  // ------------------------------------------------------ the schedule

  /** w holds the round keys of FIPS-197 appendix A.1: round key r is
    * BlockAt(w, 16 * r). */
  predicate HoldsRoundKeys(w: seq<byte>)
  {
    |w| == SCHEDULE_SIZE
    && BlockAt(w, 0) == State(Word(0x2b, 0x7e, 0x15, 0x16), Word(0x28, 0xae, 0xd2, 0xa6), Word(0xab, 0xf7, 0x15, 0x88), Word(0x09, 0xcf, 0x4f, 0x3c))
    && BlockAt(w, 16) == State(Word(0xa0, 0xfa, 0xfe, 0x17), Word(0x88, 0x54, 0x2c, 0xb1), Word(0x23, 0xa3, 0x39, 0x39), Word(0x2a, 0x6c, 0x76, 0x05))
    && BlockAt(w, 32) == State(Word(0xf2, 0xc2, 0x95, 0xf2), Word(0x7a, 0x96, 0xb9, 0x43), Word(0x59, 0x35, 0x80, 0x7a), Word(0x73, 0x59, 0xf6, 0x7f))
    && BlockAt(w, 48) == State(Word(0x3d, 0x80, 0x47, 0x7d), Word(0x47, 0x16, 0xfe, 0x3e), Word(0x1e, 0x23, 0x7e, 0x44), Word(0x6d, 0x7a, 0x88, 0x3b))
    && BlockAt(w, 64) == State(Word(0xef, 0x44, 0xa5, 0x41), Word(0xa8, 0x52, 0x5b, 0x7f), Word(0xb6, 0x71, 0x25, 0x3b), Word(0xdb, 0x0b, 0xad, 0x00))
    && BlockAt(w, 80) == State(Word(0xd4, 0xd1, 0xc6, 0xf8), Word(0x7c, 0x83, 0x9d, 0x87), Word(0xca, 0xf2, 0xb8, 0xbc), Word(0x11, 0xf9, 0x15, 0xbc))
    && BlockAt(w, 96) == State(Word(0x6d, 0x88, 0xa3, 0x7a), Word(0x11, 0x0b, 0x3e, 0xfd), Word(0xdb, 0xf9, 0x86, 0x41), Word(0xca, 0x00, 0x93, 0xfd))
    && BlockAt(w, 112) == State(Word(0x4e, 0x54, 0xf7, 0x0e), Word(0x5f, 0x5f, 0xc9, 0xf3), Word(0x84, 0xa6, 0x4f, 0xb2), Word(0x4e, 0xa6, 0xdc, 0x4f))
    && BlockAt(w, 128) == State(Word(0xea, 0xd2, 0x73, 0x21), Word(0xb5, 0x8d, 0xba, 0xd2), Word(0x31, 0x2b, 0xf5, 0x60), Word(0x7f, 0x8d, 0x29, 0x2f))
    && BlockAt(w, 144) == State(Word(0xac, 0x77, 0x66, 0xf3), Word(0x19, 0xfa, 0xdc, 0x21), Word(0x28, 0xd1, 0x29, 0x41), Word(0x57, 0x5c, 0x00, 0x6e))
    && BlockAt(w, 160) == State(Word(0xd0, 0x14, 0xf9, 0xa8), Word(0xc9, 0xee, 0x25, 0x89), Word(0xe1, 0x3f, 0x0c, 0xc8), Word(0xb6, 0x63, 0x0c, 0xa6))
  }

  /** Expansion round 1: schedule words 4 to 7 from the four before. */
  lemma ExpansionRound1(key: seq<byte>)
    requires |key| == 16
    requires ScheduleWord(key, 0) == Word(0x2b, 0x7e, 0x15, 0x16)
      && ScheduleWord(key, 1) == Word(0x28, 0xae, 0xd2, 0xa6)
      && ScheduleWord(key, 2) == Word(0xab, 0xf7, 0x15, 0x88)
      && ScheduleWord(key, 3) == Word(0x09, 0xcf, 0x4f, 0x3c)
    ensures ScheduleWord(key, 4) == Word(0xa0, 0xfa, 0xfe, 0x17)
      && ScheduleWord(key, 5) == Word(0x88, 0x54, 0x2c, 0xb1)
      && ScheduleWord(key, 6) == Word(0x23, 0xa3, 0x39, 0x39)
      && ScheduleWord(key, 7) == Word(0x2a, 0x6c, 0x76, 0x05)
  {
    SboxIsTable(0x09); SboxIsTable(0xcf); SboxIsTable(0x4f); SboxIsTable(0x3c);
    RconIsTable(1);
  }

  /** Expansion round 2: schedule words 8 to 11 from the four before. */
  lemma ExpansionRound2(key: seq<byte>)
    requires |key| == 16
    requires ScheduleWord(key, 4) == Word(0xa0, 0xfa, 0xfe, 0x17)
      && ScheduleWord(key, 5) == Word(0x88, 0x54, 0x2c, 0xb1)
      && ScheduleWord(key, 6) == Word(0x23, 0xa3, 0x39, 0x39)
      && ScheduleWord(key, 7) == Word(0x2a, 0x6c, 0x76, 0x05)
    ensures ScheduleWord(key, 8) == Word(0xf2, 0xc2, 0x95, 0xf2)
      && ScheduleWord(key, 9) == Word(0x7a, 0x96, 0xb9, 0x43)
      && ScheduleWord(key, 10) == Word(0x59, 0x35, 0x80, 0x7a)
      && ScheduleWord(key, 11) == Word(0x73, 0x59, 0xf6, 0x7f)
  {
    SboxIsTable(0x2a); SboxIsTable(0x6c); SboxIsTable(0x76); SboxIsTable(0x05);
    RconIsTable(2);
  }

  /** Expansion round 3: schedule words 12 to 15 from the four before. */
  lemma ExpansionRound3(key: seq<byte>)
    requires |key| == 16
    requires ScheduleWord(key, 8) == Word(0xf2, 0xc2, 0x95, 0xf2)
      && ScheduleWord(key, 9) == Word(0x7a, 0x96, 0xb9, 0x43)
      && ScheduleWord(key, 10) == Word(0x59, 0x35, 0x80, 0x7a)
      && ScheduleWord(key, 11) == Word(0x73, 0x59, 0xf6, 0x7f)
    ensures ScheduleWord(key, 12) == Word(0x3d, 0x80, 0x47, 0x7d)
      && ScheduleWord(key, 13) == Word(0x47, 0x16, 0xfe, 0x3e)
      && ScheduleWord(key, 14) == Word(0x1e, 0x23, 0x7e, 0x44)
      && ScheduleWord(key, 15) == Word(0x6d, 0x7a, 0x88, 0x3b)
  {
    SboxIsTable(0x73); SboxIsTable(0x59); SboxIsTable(0xf6); SboxIsTable(0x7f);
    RconIsTable(3);
  }

  /** Expansion round 4: schedule words 16 to 19 from the four before. */
  lemma ExpansionRound4(key: seq<byte>)
    requires |key| == 16
    requires ScheduleWord(key, 12) == Word(0x3d, 0x80, 0x47, 0x7d)
      && ScheduleWord(key, 13) == Word(0x47, 0x16, 0xfe, 0x3e)
      && ScheduleWord(key, 14) == Word(0x1e, 0x23, 0x7e, 0x44)
      && ScheduleWord(key, 15) == Word(0x6d, 0x7a, 0x88, 0x3b)
    ensures ScheduleWord(key, 16) == Word(0xef, 0x44, 0xa5, 0x41)
      && ScheduleWord(key, 17) == Word(0xa8, 0x52, 0x5b, 0x7f)
      && ScheduleWord(key, 18) == Word(0xb6, 0x71, 0x25, 0x3b)
      && ScheduleWord(key, 19) == Word(0xdb, 0x0b, 0xad, 0x00)
  {
    SboxIsTable(0x6d); SboxIsTable(0x7a); SboxIsTable(0x88); SboxIsTable(0x3b);
    RconIsTable(4);
  }

  /** Expansion round 5: schedule words 20 to 23 from the four before. */
  lemma ExpansionRound5(key: seq<byte>)
    requires |key| == 16
    requires ScheduleWord(key, 16) == Word(0xef, 0x44, 0xa5, 0x41)
      && ScheduleWord(key, 17) == Word(0xa8, 0x52, 0x5b, 0x7f)
      && ScheduleWord(key, 18) == Word(0xb6, 0x71, 0x25, 0x3b)
      && ScheduleWord(key, 19) == Word(0xdb, 0x0b, 0xad, 0x00)
    ensures ScheduleWord(key, 20) == Word(0xd4, 0xd1, 0xc6, 0xf8)
      && ScheduleWord(key, 21) == Word(0x7c, 0x83, 0x9d, 0x87)
      && ScheduleWord(key, 22) == Word(0xca, 0xf2, 0xb8, 0xbc)
      && ScheduleWord(key, 23) == Word(0x11, 0xf9, 0x15, 0xbc)
  {
    SboxIsTable(0xdb); SboxIsTable(0x0b); SboxIsTable(0xad); SboxIsTable(0x00);
    RconIsTable(5);
  }

  /** Expansion round 6: schedule words 24 to 27 from the four before. */
  lemma ExpansionRound6(key: seq<byte>)
    requires |key| == 16
    requires ScheduleWord(key, 20) == Word(0xd4, 0xd1, 0xc6, 0xf8)
      && ScheduleWord(key, 21) == Word(0x7c, 0x83, 0x9d, 0x87)
      && ScheduleWord(key, 22) == Word(0xca, 0xf2, 0xb8, 0xbc)
      && ScheduleWord(key, 23) == Word(0x11, 0xf9, 0x15, 0xbc)
    ensures ScheduleWord(key, 24) == Word(0x6d, 0x88, 0xa3, 0x7a)
      && ScheduleWord(key, 25) == Word(0x11, 0x0b, 0x3e, 0xfd)
      && ScheduleWord(key, 26) == Word(0xdb, 0xf9, 0x86, 0x41)
      && ScheduleWord(key, 27) == Word(0xca, 0x00, 0x93, 0xfd)
  {
    SboxIsTable(0x11); SboxIsTable(0xf9); SboxIsTable(0x15); SboxIsTable(0xbc);
    RconIsTable(6);
  }

  /** Expansion round 7: schedule words 28 to 31 from the four before. */
  lemma ExpansionRound7(key: seq<byte>)
    requires |key| == 16
    requires ScheduleWord(key, 24) == Word(0x6d, 0x88, 0xa3, 0x7a)
      && ScheduleWord(key, 25) == Word(0x11, 0x0b, 0x3e, 0xfd)
      && ScheduleWord(key, 26) == Word(0xdb, 0xf9, 0x86, 0x41)
      && ScheduleWord(key, 27) == Word(0xca, 0x00, 0x93, 0xfd)
    ensures ScheduleWord(key, 28) == Word(0x4e, 0x54, 0xf7, 0x0e)
      && ScheduleWord(key, 29) == Word(0x5f, 0x5f, 0xc9, 0xf3)
      && ScheduleWord(key, 30) == Word(0x84, 0xa6, 0x4f, 0xb2)
      && ScheduleWord(key, 31) == Word(0x4e, 0xa6, 0xdc, 0x4f)
  {
    SboxIsTable(0xca); SboxIsTable(0x00); SboxIsTable(0x93); SboxIsTable(0xfd);
    RconIsTable(7);
  }

  /** Expansion round 8: schedule words 32 to 35 from the four before. */
  lemma ExpansionRound8(key: seq<byte>)
    requires |key| == 16
    requires ScheduleWord(key, 28) == Word(0x4e, 0x54, 0xf7, 0x0e)
      && ScheduleWord(key, 29) == Word(0x5f, 0x5f, 0xc9, 0xf3)
      && ScheduleWord(key, 30) == Word(0x84, 0xa6, 0x4f, 0xb2)
      && ScheduleWord(key, 31) == Word(0x4e, 0xa6, 0xdc, 0x4f)
    ensures ScheduleWord(key, 32) == Word(0xea, 0xd2, 0x73, 0x21)
      && ScheduleWord(key, 33) == Word(0xb5, 0x8d, 0xba, 0xd2)
      && ScheduleWord(key, 34) == Word(0x31, 0x2b, 0xf5, 0x60)
      && ScheduleWord(key, 35) == Word(0x7f, 0x8d, 0x29, 0x2f)
  {
    SboxIsTable(0x4e); SboxIsTable(0xa6); SboxIsTable(0xdc); SboxIsTable(0x4f);
    RconIsTable(8);
  }

  /** Expansion round 9: schedule words 36 to 39 from the four before. */
  lemma ExpansionRound9(key: seq<byte>)
    requires |key| == 16
    requires ScheduleWord(key, 32) == Word(0xea, 0xd2, 0x73, 0x21)
      && ScheduleWord(key, 33) == Word(0xb5, 0x8d, 0xba, 0xd2)
      && ScheduleWord(key, 34) == Word(0x31, 0x2b, 0xf5, 0x60)
      && ScheduleWord(key, 35) == Word(0x7f, 0x8d, 0x29, 0x2f)
    ensures ScheduleWord(key, 36) == Word(0xac, 0x77, 0x66, 0xf3)
      && ScheduleWord(key, 37) == Word(0x19, 0xfa, 0xdc, 0x21)
      && ScheduleWord(key, 38) == Word(0x28, 0xd1, 0x29, 0x41)
      && ScheduleWord(key, 39) == Word(0x57, 0x5c, 0x00, 0x6e)
  {
    SboxIsTable(0x7f); SboxIsTable(0x8d); SboxIsTable(0x29); SboxIsTable(0x2f);
    RconIsTable(9);
  }

  /** Expansion round 10: schedule words 40 to 43 from the four before. */
  lemma ExpansionRound10(key: seq<byte>)
    requires |key| == 16
    requires ScheduleWord(key, 36) == Word(0xac, 0x77, 0x66, 0xf3)
      && ScheduleWord(key, 37) == Word(0x19, 0xfa, 0xdc, 0x21)
      && ScheduleWord(key, 38) == Word(0x28, 0xd1, 0x29, 0x41)
      && ScheduleWord(key, 39) == Word(0x57, 0x5c, 0x00, 0x6e)
    ensures ScheduleWord(key, 40) == Word(0xd0, 0x14, 0xf9, 0xa8)
      && ScheduleWord(key, 41) == Word(0xc9, 0xee, 0x25, 0x89)
      && ScheduleWord(key, 42) == Word(0xe1, 0x3f, 0x0c, 0xc8)
      && ScheduleWord(key, 43) == Word(0xb6, 0x63, 0x0c, 0xa6)
  {
    SboxIsTable(0x57); SboxIsTable(0x5c); SboxIsTable(0x00); SboxIsTable(0x6e);
    RconIsTable(10);
  }

  /** Word j of a schedule is ScheduleWord j. */
  lemma WordOfSchedule(key: seq<byte>, j: nat)
    requires |key| == 16 && j < 4 * (ROUNDS + 1)
    ensures WordAt(Schedule(key), 4 * j) == ScheduleWord(key, j)
  {
    ScheduleIsScheduleOf(key);
  }

  /** Round key r of a schedule is made of schedule words 4r to 4r + 3. */
  lemma BlockOfSchedule(key: seq<byte>, r: nat)
    requires |key| == 16 && r <= ROUNDS
    ensures BlockAt(Schedule(key), 16 * r)
         == State(ScheduleWord(key, 4 * r), ScheduleWord(key, 4 * r + 1),
                  ScheduleWord(key, 4 * r + 2), ScheduleWord(key, 4 * r + 3))
  {
    WordOfSchedule(key, 4 * r);
    WordOfSchedule(key, 4 * r + 1);
    WordOfSchedule(key, 4 * r + 2);
    WordOfSchedule(key, 4 * r + 3);
    assert 4 * (4 * r) == 16 * r && 4 * (4 * r + 1) == 16 * r + 4;
    assert 4 * (4 * r + 2) == 16 * r + 8 && 4 * (4 * r + 3) == 16 * r + 12;
  }

  /** Round keys 0 to 5 of a key whose words are those of KEY, and the
    * words round key 6 is expanded from. */
  lemma RoundKeysLow(key: seq<byte>)
    requires |key| == 16 && BlockAt(key, 0) == State(Word(0x2b, 0x7e, 0x15, 0x16), Word(0x28, 0xae, 0xd2, 0xa6), Word(0xab, 0xf7, 0x15, 0x88), Word(0x09, 0xcf, 0x4f, 0x3c))
    ensures BlockAt(Schedule(key), 0) == State(Word(0x2b, 0x7e, 0x15, 0x16), Word(0x28, 0xae, 0xd2, 0xa6), Word(0xab, 0xf7, 0x15, 0x88), Word(0x09, 0xcf, 0x4f, 0x3c))
         && BlockAt(Schedule(key), 16) == State(Word(0xa0, 0xfa, 0xfe, 0x17), Word(0x88, 0x54, 0x2c, 0xb1), Word(0x23, 0xa3, 0x39, 0x39), Word(0x2a, 0x6c, 0x76, 0x05))
         && BlockAt(Schedule(key), 32) == State(Word(0xf2, 0xc2, 0x95, 0xf2), Word(0x7a, 0x96, 0xb9, 0x43), Word(0x59, 0x35, 0x80, 0x7a), Word(0x73, 0x59, 0xf6, 0x7f))
         && BlockAt(Schedule(key), 48) == State(Word(0x3d, 0x80, 0x47, 0x7d), Word(0x47, 0x16, 0xfe, 0x3e), Word(0x1e, 0x23, 0x7e, 0x44), Word(0x6d, 0x7a, 0x88, 0x3b))
         && BlockAt(Schedule(key), 64) == State(Word(0xef, 0x44, 0xa5, 0x41), Word(0xa8, 0x52, 0x5b, 0x7f), Word(0xb6, 0x71, 0x25, 0x3b), Word(0xdb, 0x0b, 0xad, 0x00))
         && BlockAt(Schedule(key), 80) == State(Word(0xd4, 0xd1, 0xc6, 0xf8), Word(0x7c, 0x83, 0x9d, 0x87), Word(0xca, 0xf2, 0xb8, 0xbc), Word(0x11, 0xf9, 0x15, 0xbc))
    ensures ScheduleWord(key, 20) == Word(0xd4, 0xd1, 0xc6, 0xf8)
      && ScheduleWord(key, 21) == Word(0x7c, 0x83, 0x9d, 0x87)
      && ScheduleWord(key, 22) == Word(0xca, 0xf2, 0xb8, 0xbc)
      && ScheduleWord(key, 23) == Word(0x11, 0xf9, 0x15, 0xbc)
  {
    ExpansionRound1(key);
    ExpansionRound2(key);
    ExpansionRound3(key);
    ExpansionRound4(key);
    ExpansionRound5(key);
    BlockOfSchedule(key, 0);
    BlockOfSchedule(key, 1);
    BlockOfSchedule(key, 2);
    BlockOfSchedule(key, 3);
    BlockOfSchedule(key, 4);
    BlockOfSchedule(key, 5);
  }

  /** Round keys 6 to 10 of a key whose round key 5 is that of KEY. */
  lemma RoundKeysHigh(key: seq<byte>)
    requires |key| == 16
    requires ScheduleWord(key, 20) == Word(0xd4, 0xd1, 0xc6, 0xf8)
      && ScheduleWord(key, 21) == Word(0x7c, 0x83, 0x9d, 0x87)
      && ScheduleWord(key, 22) == Word(0xca, 0xf2, 0xb8, 0xbc)
      && ScheduleWord(key, 23) == Word(0x11, 0xf9, 0x15, 0xbc)
    ensures BlockAt(Schedule(key), 96) == State(Word(0x6d, 0x88, 0xa3, 0x7a), Word(0x11, 0x0b, 0x3e, 0xfd), Word(0xdb, 0xf9, 0x86, 0x41), Word(0xca, 0x00, 0x93, 0xfd))
         && BlockAt(Schedule(key), 112) == State(Word(0x4e, 0x54, 0xf7, 0x0e), Word(0x5f, 0x5f, 0xc9, 0xf3), Word(0x84, 0xa6, 0x4f, 0xb2), Word(0x4e, 0xa6, 0xdc, 0x4f))
         && BlockAt(Schedule(key), 128) == State(Word(0xea, 0xd2, 0x73, 0x21), Word(0xb5, 0x8d, 0xba, 0xd2), Word(0x31, 0x2b, 0xf5, 0x60), Word(0x7f, 0x8d, 0x29, 0x2f))
         && BlockAt(Schedule(key), 144) == State(Word(0xac, 0x77, 0x66, 0xf3), Word(0x19, 0xfa, 0xdc, 0x21), Word(0x28, 0xd1, 0x29, 0x41), Word(0x57, 0x5c, 0x00, 0x6e))
         && BlockAt(Schedule(key), 160) == State(Word(0xd0, 0x14, 0xf9, 0xa8), Word(0xc9, 0xee, 0x25, 0x89), Word(0xe1, 0x3f, 0x0c, 0xc8), Word(0xb6, 0x63, 0x0c, 0xa6))
  {
    ExpansionRound6(key);
    ExpansionRound7(key);
    ExpansionRound8(key);
    ExpansionRound9(key);
    ExpansionRound10(key);
    BlockOfSchedule(key, 6);
    BlockOfSchedule(key, 7);
    BlockOfSchedule(key, 8);
    BlockOfSchedule(key, 9);
    BlockOfSchedule(key, 10);
  }

  /** A key whose words are those of KEY expands to the round keys of
    * FIPS-197 appendix A.1. */
  lemma RoundKeysOfSchedule(key: seq<byte>)
    requires |key| == 16 && BlockAt(key, 0) == State(Word(0x2b, 0x7e, 0x15, 0x16), Word(0x28, 0xae, 0xd2, 0xa6), Word(0xab, 0xf7, 0x15, 0x88), Word(0x09, 0xcf, 0x4f, 0x3c))
    ensures HoldsRoundKeys(Schedule(key))
  {
    RoundKeysLow(key);
    RoundKeysHigh(key);
  }

  /** The schedule of KEY is that of FIPS-197 appendix A.1. */
  lemma ScheduleExample()
    ensures HoldsRoundKeys(Schedule(KEY))
  {
    RoundKeysOfSchedule(KEY);
  }

  // ------------------------------------------------------ the ciphers

  /** The cipher of a block whose states after the first AddRoundKey (s0)
    * and after round 9 (s9) are known. */
  lemma CipherOfStates(b: seq<byte>, w: seq<byte>, s0: State, s9: State)
    requires |b| == BLOCK_BYTE_SIZE && HoldsRoundKeys(w)
    requires XorState(BlockAt(b, 0), State(Word(0x2b, 0x7e, 0x15, 0x16), Word(0x28, 0xae, 0xd2, 0xa6), Word(0xab, 0xf7, 0x15, 0x88), Word(0x09, 0xcf, 0x4f, 0x3c))) == s0 && Rounds(s0, w, ROUNDS - 1) == s9
    ensures Encrypt(b, w) == ToBytes(XorState(SubAndShiftSpec(s9), State(Word(0xd0, 0x14, 0xf9, 0xa8), Word(0xc9, 0xee, 0x25, 0x89), Word(0xe1, 0x3f, 0x0c, 0xc8), Word(0xb6, 0x63, 0x0c, 0xa6))))
  {
    EncryptIs(b, w);
  }

  /** Rounds 1 to 3 of the cipher of the FIPS-197 appendix B input block. */
  lemma PlaintextRounds1(w: seq<byte>)
    requires HoldsRoundKeys(w)
    ensures Round(State(Word(0x19, 0x3d, 0xe3, 0xbe), Word(0xa0, 0xf4, 0xe2, 0x2b), Word(0x9a, 0xc6, 0x8d, 0x2a), Word(0xe9, 0xf8, 0x48, 0x08)), w, 1)
         == State(Word(0xa4, 0x9c, 0x7f, 0xf2), Word(0x68, 0x9f, 0x35, 0x2b), Word(0x6b, 0x5b, 0xea, 0x43), Word(0x02, 0x6a, 0x50, 0x49))
         && Round(State(Word(0xa4, 0x9c, 0x7f, 0xf2), Word(0x68, 0x9f, 0x35, 0x2b), Word(0x6b, 0x5b, 0xea, 0x43), Word(0x02, 0x6a, 0x50, 0x49)), w, 2)
         == State(Word(0xaa, 0x8f, 0x5f, 0x03), Word(0x61, 0xdd, 0xe3, 0xef), Word(0x82, 0xd2, 0x4a, 0xd2), Word(0x68, 0x32, 0x46, 0x9a))
         && Round(State(Word(0xaa, 0x8f, 0x5f, 0x03), Word(0x61, 0xdd, 0xe3, 0xef), Word(0x82, 0xd2, 0x4a, 0xd2), Word(0x68, 0x32, 0x46, 0x9a)), w, 3)
         == State(Word(0x48, 0x6c, 0x4e, 0xee), Word(0x67, 0x1d, 0x9d, 0x0d), Word(0x4d, 0xe3, 0xb1, 0x38), Word(0xd6, 0x5f, 0x58, 0xe7))
  {
    RoundIs(State(Word(0x19, 0x3d, 0xe3, 0xbe), Word(0xa0, 0xf4, 0xe2, 0x2b), Word(0x9a, 0xc6, 0x8d, 0x2a), Word(0xe9, 0xf8, 0x48, 0x08)), w, 1);
    SboxIsTable(0x19); SboxIsTable(0x3d); SboxIsTable(0xe3); SboxIsTable(0xbe);
    SboxIsTable(0xa0); SboxIsTable(0xf4); SboxIsTable(0xe2); SboxIsTable(0x2b);
    SboxIsTable(0x9a); SboxIsTable(0xc6); SboxIsTable(0x8d); SboxIsTable(0x2a);
    SboxIsTable(0xe9); SboxIsTable(0xf8); SboxIsTable(0x48); SboxIsTable(0x08);
    RoundIs(State(Word(0xa4, 0x9c, 0x7f, 0xf2), Word(0x68, 0x9f, 0x35, 0x2b), Word(0x6b, 0x5b, 0xea, 0x43), Word(0x02, 0x6a, 0x50, 0x49)), w, 2);
    SboxIsTable(0xa4); SboxIsTable(0x9c); SboxIsTable(0x7f); SboxIsTable(0xf2);
    SboxIsTable(0x68); SboxIsTable(0x9f); SboxIsTable(0x35); SboxIsTable(0x2b);
    SboxIsTable(0x6b); SboxIsTable(0x5b); SboxIsTable(0xea); SboxIsTable(0x43);
    SboxIsTable(0x02); SboxIsTable(0x6a); SboxIsTable(0x50); SboxIsTable(0x49);
    RoundIs(State(Word(0xaa, 0x8f, 0x5f, 0x03), Word(0x61, 0xdd, 0xe3, 0xef), Word(0x82, 0xd2, 0x4a, 0xd2), Word(0x68, 0x32, 0x46, 0x9a)), w, 3);
    SboxIsTable(0xaa); SboxIsTable(0x8f); SboxIsTable(0x5f); SboxIsTable(0x03);
    SboxIsTable(0x61); SboxIsTable(0xdd); SboxIsTable(0xe3); SboxIsTable(0xef);
    SboxIsTable(0x82); SboxIsTable(0xd2); SboxIsTable(0x4a); SboxIsTable(0xd2);
    SboxIsTable(0x68); SboxIsTable(0x32); SboxIsTable(0x46); SboxIsTable(0x9a);
  }

  /** Rounds 4 to 6 of the cipher of the FIPS-197 appendix B input block. */
  lemma PlaintextRounds4(w: seq<byte>)
    requires HoldsRoundKeys(w)
    ensures Round(State(Word(0x48, 0x6c, 0x4e, 0xee), Word(0x67, 0x1d, 0x9d, 0x0d), Word(0x4d, 0xe3, 0xb1, 0x38), Word(0xd6, 0x5f, 0x58, 0xe7)), w, 4)
         == State(Word(0xe0, 0x92, 0x7f, 0xe8), Word(0xc8, 0x63, 0x63, 0xc0), Word(0xd9, 0xb1, 0x35, 0x50), Word(0x85, 0xb8, 0xbe, 0x01))
         && Round(State(Word(0xe0, 0x92, 0x7f, 0xe8), Word(0xc8, 0x63, 0x63, 0xc0), Word(0xd9, 0xb1, 0x35, 0x50), Word(0x85, 0xb8, 0xbe, 0x01)), w, 5)
         == State(Word(0xf1, 0x00, 0x6f, 0x55), Word(0xc1, 0x92, 0x4c, 0xef), Word(0x7c, 0xc8, 0x8b, 0x32), Word(0x5d, 0xb5, 0xd5, 0x0c))
         && Round(State(Word(0xf1, 0x00, 0x6f, 0x55), Word(0xc1, 0x92, 0x4c, 0xef), Word(0x7c, 0xc8, 0x8b, 0x32), Word(0x5d, 0xb5, 0xd5, 0x0c)), w, 6)
         == State(Word(0x26, 0x0e, 0x2e, 0x17), Word(0x3d, 0x41, 0xb7, 0x7d), Word(0xe8, 0x64, 0x72, 0xa9), Word(0xfd, 0xd2, 0x8b, 0x25))
  {
    RoundIs(State(Word(0x48, 0x6c, 0x4e, 0xee), Word(0x67, 0x1d, 0x9d, 0x0d), Word(0x4d, 0xe3, 0xb1, 0x38), Word(0xd6, 0x5f, 0x58, 0xe7)), w, 4);
    SboxIsTable(0x48); SboxIsTable(0x6c); SboxIsTable(0x4e); SboxIsTable(0xee);
    SboxIsTable(0x67); SboxIsTable(0x1d); SboxIsTable(0x9d); SboxIsTable(0x0d);
    SboxIsTable(0x4d); SboxIsTable(0xe3); SboxIsTable(0xb1); SboxIsTable(0x38);
    SboxIsTable(0xd6); SboxIsTable(0x5f); SboxIsTable(0x58); SboxIsTable(0xe7);
    RoundIs(State(Word(0xe0, 0x92, 0x7f, 0xe8), Word(0xc8, 0x63, 0x63, 0xc0), Word(0xd9, 0xb1, 0x35, 0x50), Word(0x85, 0xb8, 0xbe, 0x01)), w, 5);
    SboxIsTable(0xe0); SboxIsTable(0x92); SboxIsTable(0x7f); SboxIsTable(0xe8);
    SboxIsTable(0xc8); SboxIsTable(0x63); SboxIsTable(0x63); SboxIsTable(0xc0);
    SboxIsTable(0xd9); SboxIsTable(0xb1); SboxIsTable(0x35); SboxIsTable(0x50);
    SboxIsTable(0x85); SboxIsTable(0xb8); SboxIsTable(0xbe); SboxIsTable(0x01);
    RoundIs(State(Word(0xf1, 0x00, 0x6f, 0x55), Word(0xc1, 0x92, 0x4c, 0xef), Word(0x7c, 0xc8, 0x8b, 0x32), Word(0x5d, 0xb5, 0xd5, 0x0c)), w, 6);
    SboxIsTable(0xf1); SboxIsTable(0x00); SboxIsTable(0x6f); SboxIsTable(0x55);
    SboxIsTable(0xc1); SboxIsTable(0x92); SboxIsTable(0x4c); SboxIsTable(0xef);
    SboxIsTable(0x7c); SboxIsTable(0xc8); SboxIsTable(0x8b); SboxIsTable(0x32);
    SboxIsTable(0x5d); SboxIsTable(0xb5); SboxIsTable(0xd5); SboxIsTable(0x0c);
  }

  /** Rounds 7 to 9 of the cipher of the FIPS-197 appendix B input block. */
  lemma PlaintextRounds7(w: seq<byte>)
    requires HoldsRoundKeys(w)
    ensures Round(State(Word(0x26, 0x0e, 0x2e, 0x17), Word(0x3d, 0x41, 0xb7, 0x7d), Word(0xe8, 0x64, 0x72, 0xa9), Word(0xfd, 0xd2, 0x8b, 0x25)), w, 7)
         == State(Word(0x5a, 0x41, 0x42, 0xb1), Word(0x19, 0x49, 0xdc, 0x1f), Word(0xa3, 0xe0, 0x19, 0x65), Word(0x7a, 0x8c, 0x04, 0x0c))
         && Round(State(Word(0x5a, 0x41, 0x42, 0xb1), Word(0x19, 0x49, 0xdc, 0x1f), Word(0xa3, 0xe0, 0x19, 0x65), Word(0x7a, 0x8c, 0x04, 0x0c)), w, 8)
         == State(Word(0xea, 0x83, 0x5c, 0xf0), Word(0x04, 0x45, 0x33, 0x2d), Word(0x65, 0x5d, 0x98, 0xad), Word(0x85, 0x96, 0xb0, 0xc5))
         && Round(State(Word(0xea, 0x83, 0x5c, 0xf0), Word(0x04, 0x45, 0x33, 0x2d), Word(0x65, 0x5d, 0x98, 0xad), Word(0x85, 0x96, 0xb0, 0xc5)), w, 9)
         == State(Word(0xeb, 0x40, 0xf2, 0x1e), Word(0x59, 0x2e, 0x38, 0x84), Word(0x8b, 0xa1, 0x13, 0xe7), Word(0x1b, 0xc3, 0x42, 0xd2))
  {
    RoundIs(State(Word(0x26, 0x0e, 0x2e, 0x17), Word(0x3d, 0x41, 0xb7, 0x7d), Word(0xe8, 0x64, 0x72, 0xa9), Word(0xfd, 0xd2, 0x8b, 0x25)), w, 7);
    SboxIsTable(0x26); SboxIsTable(0x0e); SboxIsTable(0x2e); SboxIsTable(0x17);
    SboxIsTable(0x3d); SboxIsTable(0x41); SboxIsTable(0xb7); SboxIsTable(0x7d);
    SboxIsTable(0xe8); SboxIsTable(0x64); SboxIsTable(0x72); SboxIsTable(0xa9);
    SboxIsTable(0xfd); SboxIsTable(0xd2); SboxIsTable(0x8b); SboxIsTable(0x25);
    RoundIs(State(Word(0x5a, 0x41, 0x42, 0xb1), Word(0x19, 0x49, 0xdc, 0x1f), Word(0xa3, 0xe0, 0x19, 0x65), Word(0x7a, 0x8c, 0x04, 0x0c)), w, 8);
    SboxIsTable(0x5a); SboxIsTable(0x41); SboxIsTable(0x42); SboxIsTable(0xb1);
    SboxIsTable(0x19); SboxIsTable(0x49); SboxIsTable(0xdc); SboxIsTable(0x1f);
    SboxIsTable(0xa3); SboxIsTable(0xe0); SboxIsTable(0x19); SboxIsTable(0x65);
    SboxIsTable(0x7a); SboxIsTable(0x8c); SboxIsTable(0x04); SboxIsTable(0x0c);
    RoundIs(State(Word(0xea, 0x83, 0x5c, 0xf0), Word(0x04, 0x45, 0x33, 0x2d), Word(0x65, 0x5d, 0x98, 0xad), Word(0x85, 0x96, 0xb0, 0xc5)), w, 9);
    SboxIsTable(0xea); SboxIsTable(0x83); SboxIsTable(0x5c); SboxIsTable(0xf0);
    SboxIsTable(0x04); SboxIsTable(0x45); SboxIsTable(0x33); SboxIsTable(0x2d);
    SboxIsTable(0x65); SboxIsTable(0x5d); SboxIsTable(0x98); SboxIsTable(0xad);
    SboxIsTable(0x85); SboxIsTable(0x96); SboxIsTable(0xb0); SboxIsTable(0xc5);
  }

  /** The cipher of the FIPS-197 appendix B input block: any block b that holds it encrypts to the
    * block after it. */
  lemma EncryptPlaintext(b: seq<byte>, w: seq<byte>)
    requires |b| == BLOCK_BYTE_SIZE && HoldsRoundKeys(w)
    requires BlockAt(b, 0) == State(Word(0x32, 0x43, 0xf6, 0xa8), Word(0x88, 0x5a, 0x30, 0x8d), Word(0x31, 0x31, 0x98, 0xa2), Word(0xe0, 0x37, 0x07, 0x34))
    ensures Encrypt(b, w)
         == [0x39, 0x25, 0x84, 0x1d, 0x02, 0xdc, 0x09, 0xfb, 0xdc, 0x11, 0x85, 0x97, 0x19, 0x6a, 0x0b, 0x32]
  {
    var s0 := State(Word(0x19, 0x3d, 0xe3, 0xbe), Word(0xa0, 0xf4, 0xe2, 0x2b), Word(0x9a, 0xc6, 0x8d, 0x2a), Word(0xe9, 0xf8, 0x48, 0x08));
    PlaintextRounds1(w); PlaintextRounds4(w); PlaintextRounds7(w);
    assert Rounds(s0, w, 1) == State(Word(0xa4, 0x9c, 0x7f, 0xf2), Word(0x68, 0x9f, 0x35, 0x2b), Word(0x6b, 0x5b, 0xea, 0x43), Word(0x02, 0x6a, 0x50, 0x49));
    assert Rounds(s0, w, 2) == State(Word(0xaa, 0x8f, 0x5f, 0x03), Word(0x61, 0xdd, 0xe3, 0xef), Word(0x82, 0xd2, 0x4a, 0xd2), Word(0x68, 0x32, 0x46, 0x9a));
    assert Rounds(s0, w, 3) == State(Word(0x48, 0x6c, 0x4e, 0xee), Word(0x67, 0x1d, 0x9d, 0x0d), Word(0x4d, 0xe3, 0xb1, 0x38), Word(0xd6, 0x5f, 0x58, 0xe7));
    assert Rounds(s0, w, 4) == State(Word(0xe0, 0x92, 0x7f, 0xe8), Word(0xc8, 0x63, 0x63, 0xc0), Word(0xd9, 0xb1, 0x35, 0x50), Word(0x85, 0xb8, 0xbe, 0x01));
    assert Rounds(s0, w, 5) == State(Word(0xf1, 0x00, 0x6f, 0x55), Word(0xc1, 0x92, 0x4c, 0xef), Word(0x7c, 0xc8, 0x8b, 0x32), Word(0x5d, 0xb5, 0xd5, 0x0c));
    assert Rounds(s0, w, 6) == State(Word(0x26, 0x0e, 0x2e, 0x17), Word(0x3d, 0x41, 0xb7, 0x7d), Word(0xe8, 0x64, 0x72, 0xa9), Word(0xfd, 0xd2, 0x8b, 0x25));
    assert Rounds(s0, w, 7) == State(Word(0x5a, 0x41, 0x42, 0xb1), Word(0x19, 0x49, 0xdc, 0x1f), Word(0xa3, 0xe0, 0x19, 0x65), Word(0x7a, 0x8c, 0x04, 0x0c));
    assert Rounds(s0, w, 8) == State(Word(0xea, 0x83, 0x5c, 0xf0), Word(0x04, 0x45, 0x33, 0x2d), Word(0x65, 0x5d, 0x98, 0xad), Word(0x85, 0x96, 0xb0, 0xc5));
    assert Rounds(s0, w, 9) == State(Word(0xeb, 0x40, 0xf2, 0x1e), Word(0x59, 0x2e, 0x38, 0x84), Word(0x8b, 0xa1, 0x13, 0xe7), Word(0x1b, 0xc3, 0x42, 0xd2));
    SboxIsTable(0xeb); SboxIsTable(0x40); SboxIsTable(0xf2); SboxIsTable(0x1e);
    SboxIsTable(0x59); SboxIsTable(0x2e); SboxIsTable(0x38); SboxIsTable(0x84);
    SboxIsTable(0x8b); SboxIsTable(0xa1); SboxIsTable(0x13); SboxIsTable(0xe7);
    SboxIsTable(0x1b); SboxIsTable(0xc3); SboxIsTable(0x42); SboxIsTable(0xd2);
    CipherOfStates(b, w, s0, State(Word(0xeb, 0x40, 0xf2, 0x1e), Word(0x59, 0x2e, 0x38, 0x84), Word(0x8b, 0xa1, 0x13, 0xe7), Word(0x1b, 0xc3, 0x42, 0xd2)));
  }

  /** Rounds 1 to 3 of the cipher of the zero block, whose cipher is the CMAC value L. */
  lemma ZeroRounds1(w: seq<byte>)
    requires HoldsRoundKeys(w)
    ensures Round(State(Word(0x2b, 0x7e, 0x15, 0x16), Word(0x28, 0xae, 0xd2, 0xa6), Word(0xab, 0xf7, 0x15, 0x88), Word(0x09, 0xcf, 0x4f, 0x3c)), w, 1)
         == State(Word(0xdc, 0xd8, 0x7f, 0x6f), Word(0x9b, 0x60, 0xaa, 0x8f), Word(0x1f, 0x01, 0x0f, 0x04), Word(0x57, 0x90, 0xa2, 0xd3))
         && Round(State(Word(0xdc, 0xd8, 0x7f, 0x6f), Word(0x9b, 0x60, 0xaa, 0x8f), Word(0x1f, 0x01, 0x0f, 0x04), Word(0x57, 0x90, 0xa2, 0xd3)), w, 2)
         == State(Word(0x9e, 0x03, 0x85, 0x09), Word(0x44, 0x9c, 0x46, 0x72), Word(0xc3, 0x2b, 0x0a, 0x75), Word(0x38, 0xdd, 0x82, 0xa0))
         && Round(State(Word(0x9e, 0x03, 0x85, 0x09), Word(0x44, 0x9c, 0x46, 0x72), Word(0xc3, 0x2b, 0x0a, 0x75), Word(0x38, 0xdd, 0x82, 0xa0)), w, 3)
         == State(Word(0xd5, 0x65, 0x67, 0x02), Word(0x6b, 0xc0, 0x31, 0xf3), Word(0xcd, 0x76, 0x64, 0xe0), Word(0x29, 0xf8, 0xfc, 0x32))
  {
    RoundIs(State(Word(0x2b, 0x7e, 0x15, 0x16), Word(0x28, 0xae, 0xd2, 0xa6), Word(0xab, 0xf7, 0x15, 0x88), Word(0x09, 0xcf, 0x4f, 0x3c)), w, 1);
    SboxIsTable(0x2b); SboxIsTable(0x7e); SboxIsTable(0x15); SboxIsTable(0x16);
    SboxIsTable(0x28); SboxIsTable(0xae); SboxIsTable(0xd2); SboxIsTable(0xa6);
    SboxIsTable(0xab); SboxIsTable(0xf7); SboxIsTable(0x15); SboxIsTable(0x88);
    SboxIsTable(0x09); SboxIsTable(0xcf); SboxIsTable(0x4f); SboxIsTable(0x3c);
    RoundIs(State(Word(0xdc, 0xd8, 0x7f, 0x6f), Word(0x9b, 0x60, 0xaa, 0x8f), Word(0x1f, 0x01, 0x0f, 0x04), Word(0x57, 0x90, 0xa2, 0xd3)), w, 2);
    SboxIsTable(0xdc); SboxIsTable(0xd8); SboxIsTable(0x7f); SboxIsTable(0x6f);
    SboxIsTable(0x9b); SboxIsTable(0x60); SboxIsTable(0xaa); SboxIsTable(0x8f);
    SboxIsTable(0x1f); SboxIsTable(0x01); SboxIsTable(0x0f); SboxIsTable(0x04);
    SboxIsTable(0x57); SboxIsTable(0x90); SboxIsTable(0xa2); SboxIsTable(0xd3);
    RoundIs(State(Word(0x9e, 0x03, 0x85, 0x09), Word(0x44, 0x9c, 0x46, 0x72), Word(0xc3, 0x2b, 0x0a, 0x75), Word(0x38, 0xdd, 0x82, 0xa0)), w, 3);
    SboxIsTable(0x9e); SboxIsTable(0x03); SboxIsTable(0x85); SboxIsTable(0x09);
    SboxIsTable(0x44); SboxIsTable(0x9c); SboxIsTable(0x46); SboxIsTable(0x72);
    SboxIsTable(0xc3); SboxIsTable(0x2b); SboxIsTable(0x0a); SboxIsTable(0x75);
    SboxIsTable(0x38); SboxIsTable(0xdd); SboxIsTable(0x82); SboxIsTable(0xa0);
  }

  /** Rounds 4 to 6 of the cipher of the zero block, whose cipher is the CMAC value L. */
  lemma ZeroRounds4(w: seq<byte>)
    requires HoldsRoundKeys(w)
    ensures Round(State(Word(0xd5, 0x65, 0x67, 0x02), Word(0x6b, 0xc0, 0x31, 0xf3), Word(0xcd, 0x76, 0x64, 0xe0), Word(0x29, 0xf8, 0xfc, 0x32)), w, 4)
         == State(Word(0x5c, 0xce, 0xff, 0xfb), Word(0xd9, 0xe1, 0xfe, 0x98), Word(0x9c, 0xd7, 0xdf, 0x39), Word(0x7b, 0x87, 0xe8, 0xa7))
         && Round(State(Word(0x5c, 0xce, 0xff, 0xfb), Word(0xd9, 0xe1, 0xfe, 0x98), Word(0x9c, 0xd7, 0xdf, 0x39), Word(0x7b, 0x87, 0xe8, 0xa7)), w, 5)
         == State(Word(0x91, 0x95, 0xb7, 0xf8), Word(0x90, 0x13, 0x9a, 0x53), Word(0x04, 0x7e, 0x97, 0x48), Word(0x7c, 0x11, 0xe4, 0xcb))
         && Round(State(Word(0x91, 0x95, 0xb7, 0xf8), Word(0x90, 0x13, 0x9a, 0x53), Word(0x04, 0x7e, 0x97, 0x48), Word(0x7c, 0x11, 0xe4, 0xcb)), w, 6)
         == State(Word(0x64, 0x6f, 0x75, 0x29), Word(0xf7, 0x6c, 0xbc, 0x45), Word(0xfd, 0x19, 0x93, 0xa6), Word(0x7e, 0xc5, 0x34, 0xfb))
  {
    RoundIs(State(Word(0xd5, 0x65, 0x67, 0x02), Word(0x6b, 0xc0, 0x31, 0xf3), Word(0xcd, 0x76, 0x64, 0xe0), Word(0x29, 0xf8, 0xfc, 0x32)), w, 4);
    SboxIsTable(0xd5); SboxIsTable(0x65); SboxIsTable(0x67); SboxIsTable(0x02);
    SboxIsTable(0x6b); SboxIsTable(0xc0); SboxIsTable(0x31); SboxIsTable(0xf3);
    SboxIsTable(0xcd); SboxIsTable(0x76); SboxIsTable(0x64); SboxIsTable(0xe0);
    SboxIsTable(0x29); SboxIsTable(0xf8); SboxIsTable(0xfc); SboxIsTable(0x32);
    RoundIs(State(Word(0x5c, 0xce, 0xff, 0xfb), Word(0xd9, 0xe1, 0xfe, 0x98), Word(0x9c, 0xd7, 0xdf, 0x39), Word(0x7b, 0x87, 0xe8, 0xa7)), w, 5);
    SboxIsTable(0x5c); SboxIsTable(0xce); SboxIsTable(0xff); SboxIsTable(0xfb);
    SboxIsTable(0xd9); SboxIsTable(0xe1); SboxIsTable(0xfe); SboxIsTable(0x98);
    SboxIsTable(0x9c); SboxIsTable(0xd7); SboxIsTable(0xdf); SboxIsTable(0x39);
    SboxIsTable(0x7b); SboxIsTable(0x87); SboxIsTable(0xe8); SboxIsTable(0xa7);
    RoundIs(State(Word(0x91, 0x95, 0xb7, 0xf8), Word(0x90, 0x13, 0x9a, 0x53), Word(0x04, 0x7e, 0x97, 0x48), Word(0x7c, 0x11, 0xe4, 0xcb)), w, 6);
    SboxIsTable(0x91); SboxIsTable(0x95); SboxIsTable(0xb7); SboxIsTable(0xf8);
    SboxIsTable(0x90); SboxIsTable(0x13); SboxIsTable(0x9a); SboxIsTable(0x53);
    SboxIsTable(0x04); SboxIsTable(0x7e); SboxIsTable(0x97); SboxIsTable(0x48);
    SboxIsTable(0x7c); SboxIsTable(0x11); SboxIsTable(0xe4); SboxIsTable(0xcb);
  }

  /** Rounds 7 to 9 of the cipher of the zero block, whose cipher is the CMAC value L. */
  lemma ZeroRounds7(w: seq<byte>)
    requires HoldsRoundKeys(w)
    ensures Round(State(Word(0x64, 0x6f, 0x75, 0x29), Word(0xf7, 0x6c, 0xbc, 0x45), Word(0xfd, 0x19, 0x93, 0xa6), Word(0x7e, 0xc5, 0x34, 0xfb)), w, 7)
         == State(Word(0xeb, 0xc7, 0x56, 0x59), Word(0x55, 0x09, 0xb1, 0xd6), Word(0x2e, 0x77, 0x2e, 0xa9), Word(0x11, 0x95, 0x21, 0xc4))
         && Round(State(Word(0xeb, 0xc7, 0x56, 0x59), Word(0x55, 0x09, 0xb1, 0xd6), Word(0x2e, 0x77, 0x2e, 0xa9), Word(0x11, 0x95, 0x21, 0xc4)), w, 8)
         == State(Word(0x0d, 0x76, 0xdd, 0x09), Word(0x64, 0x57, 0x14, 0x48), Word(0x6a, 0x70, 0x96, 0x5f), Word(0x2a, 0x08, 0x88, 0x01))
         && Round(State(Word(0x0d, 0x76, 0xdd, 0x09), Word(0x64, 0x57, 0x14, 0x48), Word(0x6a, 0x70, 0x96, 0x5f), Word(0x2a, 0x08, 0x88, 0x01)), w, 9)
         == State(Word(0x18, 0xc1, 0x55, 0xa2), Word(0xa9, 0x4d, 0x5e, 0x73), Word(0xef, 0xb9, 0x74, 0x12), Word(0xfb, 0x13, 0x78, 0x1d))
  {
    RoundIs(State(Word(0x64, 0x6f, 0x75, 0x29), Word(0xf7, 0x6c, 0xbc, 0x45), Word(0xfd, 0x19, 0x93, 0xa6), Word(0x7e, 0xc5, 0x34, 0xfb)), w, 7);
    SboxIsTable(0x64); SboxIsTable(0x6f); SboxIsTable(0x75); SboxIsTable(0x29);
    SboxIsTable(0xf7); SboxIsTable(0x6c); SboxIsTable(0xbc); SboxIsTable(0x45);
    SboxIsTable(0xfd); SboxIsTable(0x19); SboxIsTable(0x93); SboxIsTable(0xa6);
    SboxIsTable(0x7e); SboxIsTable(0xc5); SboxIsTable(0x34); SboxIsTable(0xfb);
    RoundIs(State(Word(0xeb, 0xc7, 0x56, 0x59), Word(0x55, 0x09, 0xb1, 0xd6), Word(0x2e, 0x77, 0x2e, 0xa9), Word(0x11, 0x95, 0x21, 0xc4)), w, 8);
    SboxIsTable(0xeb); SboxIsTable(0xc7); SboxIsTable(0x56); SboxIsTable(0x59);
    SboxIsTable(0x55); SboxIsTable(0x09); SboxIsTable(0xb1); SboxIsTable(0xd6);
    SboxIsTable(0x2e); SboxIsTable(0x77); SboxIsTable(0x2e); SboxIsTable(0xa9);
    SboxIsTable(0x11); SboxIsTable(0x95); SboxIsTable(0x21); SboxIsTable(0xc4);
    RoundIs(State(Word(0x0d, 0x76, 0xdd, 0x09), Word(0x64, 0x57, 0x14, 0x48), Word(0x6a, 0x70, 0x96, 0x5f), Word(0x2a, 0x08, 0x88, 0x01)), w, 9);
    SboxIsTable(0x0d); SboxIsTable(0x76); SboxIsTable(0xdd); SboxIsTable(0x09);
    SboxIsTable(0x64); SboxIsTable(0x57); SboxIsTable(0x14); SboxIsTable(0x48);
    SboxIsTable(0x6a); SboxIsTable(0x70); SboxIsTable(0x96); SboxIsTable(0x5f);
    SboxIsTable(0x2a); SboxIsTable(0x08); SboxIsTable(0x88); SboxIsTable(0x01);
  }

  /** The cipher of the zero block, whose cipher is the CMAC value L: any block b that holds it encrypts to the
    * block after it. */
  lemma EncryptZero(b: seq<byte>, w: seq<byte>)
    requires |b| == BLOCK_BYTE_SIZE && HoldsRoundKeys(w)
    requires BlockAt(b, 0) == State(Word(0x00, 0x00, 0x00, 0x00), Word(0x00, 0x00, 0x00, 0x00), Word(0x00, 0x00, 0x00, 0x00), Word(0x00, 0x00, 0x00, 0x00))
    ensures Encrypt(b, w)
         == [0x7d, 0xf7, 0x6b, 0x0c, 0x1a, 0xb8, 0x99, 0xb3, 0x3e, 0x42, 0xf0, 0x47, 0xb9, 0x1b, 0x54, 0x6f]
  {
    var s0 := State(Word(0x2b, 0x7e, 0x15, 0x16), Word(0x28, 0xae, 0xd2, 0xa6), Word(0xab, 0xf7, 0x15, 0x88), Word(0x09, 0xcf, 0x4f, 0x3c));
    ZeroRounds1(w); ZeroRounds4(w); ZeroRounds7(w);
    assert Rounds(s0, w, 1) == State(Word(0xdc, 0xd8, 0x7f, 0x6f), Word(0x9b, 0x60, 0xaa, 0x8f), Word(0x1f, 0x01, 0x0f, 0x04), Word(0x57, 0x90, 0xa2, 0xd3));
    assert Rounds(s0, w, 2) == State(Word(0x9e, 0x03, 0x85, 0x09), Word(0x44, 0x9c, 0x46, 0x72), Word(0xc3, 0x2b, 0x0a, 0x75), Word(0x38, 0xdd, 0x82, 0xa0));
    assert Rounds(s0, w, 3) == State(Word(0xd5, 0x65, 0x67, 0x02), Word(0x6b, 0xc0, 0x31, 0xf3), Word(0xcd, 0x76, 0x64, 0xe0), Word(0x29, 0xf8, 0xfc, 0x32));
    assert Rounds(s0, w, 4) == State(Word(0x5c, 0xce, 0xff, 0xfb), Word(0xd9, 0xe1, 0xfe, 0x98), Word(0x9c, 0xd7, 0xdf, 0x39), Word(0x7b, 0x87, 0xe8, 0xa7));
    assert Rounds(s0, w, 5) == State(Word(0x91, 0x95, 0xb7, 0xf8), Word(0x90, 0x13, 0x9a, 0x53), Word(0x04, 0x7e, 0x97, 0x48), Word(0x7c, 0x11, 0xe4, 0xcb));
    assert Rounds(s0, w, 6) == State(Word(0x64, 0x6f, 0x75, 0x29), Word(0xf7, 0x6c, 0xbc, 0x45), Word(0xfd, 0x19, 0x93, 0xa6), Word(0x7e, 0xc5, 0x34, 0xfb));
    assert Rounds(s0, w, 7) == State(Word(0xeb, 0xc7, 0x56, 0x59), Word(0x55, 0x09, 0xb1, 0xd6), Word(0x2e, 0x77, 0x2e, 0xa9), Word(0x11, 0x95, 0x21, 0xc4));
    assert Rounds(s0, w, 8) == State(Word(0x0d, 0x76, 0xdd, 0x09), Word(0x64, 0x57, 0x14, 0x48), Word(0x6a, 0x70, 0x96, 0x5f), Word(0x2a, 0x08, 0x88, 0x01));
    assert Rounds(s0, w, 9) == State(Word(0x18, 0xc1, 0x55, 0xa2), Word(0xa9, 0x4d, 0x5e, 0x73), Word(0xef, 0xb9, 0x74, 0x12), Word(0xfb, 0x13, 0x78, 0x1d));
    SboxIsTable(0x18); SboxIsTable(0xc1); SboxIsTable(0x55); SboxIsTable(0xa2);
    SboxIsTable(0xa9); SboxIsTable(0x4d); SboxIsTable(0x5e); SboxIsTable(0x73);
    SboxIsTable(0xef); SboxIsTable(0xb9); SboxIsTable(0x74); SboxIsTable(0x12);
    SboxIsTable(0xfb); SboxIsTable(0x13); SboxIsTable(0x78); SboxIsTable(0x1d);
    CipherOfStates(b, w, s0, State(Word(0x18, 0xc1, 0x55, 0xa2), Word(0xa9, 0x4d, 0x5e, 0x73), Word(0xef, 0xb9, 0x74, 0x12), Word(0xfb, 0x13, 0x78, 0x1d)));
  }

  /** Rounds 1 to 3 of the cipher of the last block of the empty message: the padded empty block xor K2. */
  lemma Last0Rounds1(w: seq<byte>)
    requires HoldsRoundKeys(w)
    ensures Round(State(Word(0x5c, 0xa3, 0xb9, 0x26), Word(0x42, 0x4c, 0xb4, 0x6a), Word(0x52, 0xfc, 0xd4, 0x96), Word(0xed, 0xa2, 0x1e, 0x07)), w, 1)
         == State(Word(0xc2, 0xff, 0x59, 0x39), Word(0x9e, 0x62, 0x56, 0xf2), Word(0x39, 0x2f, 0xa9, 0x51), Word(0x83, 0x31, 0x83, 0x46))
         && Round(State(Word(0xc2, 0xff, 0x59, 0x39), Word(0x9e, 0x62, 0x56, 0xf2), Word(0x39, 0x2f, 0xa9, 0x51), Word(0x83, 0x31, 0x83, 0x46)), w, 2)
         == State(Word(0xd4, 0x9c, 0x49, 0x50), Word(0xad, 0x8a, 0x52, 0x83), Word(0x6d, 0x7d, 0x58, 0x49), Word(0xea, 0x80, 0x1d, 0x4e))
         && Round(State(Word(0xd4, 0x9c, 0x49, 0x50), Word(0xad, 0x8a, 0x52, 0x83), Word(0x6d, 0x7d, 0x58, 0x49), Word(0xea, 0x80, 0x1d, 0x4e)), w, 3)
         == State(Word(0x6a, 0xa5, 0xd4, 0xef), Word(0x9b, 0xc2, 0x32, 0x67), Word(0xfd, 0x3f, 0xd6, 0x35), Word(0x3a, 0x61, 0x9c, 0x01))
  {
    RoundIs(State(Word(0x5c, 0xa3, 0xb9, 0x26), Word(0x42, 0x4c, 0xb4, 0x6a), Word(0x52, 0xfc, 0xd4, 0x96), Word(0xed, 0xa2, 0x1e, 0x07)), w, 1);
    SboxIsTable(0x5c); SboxIsTable(0xa3); SboxIsTable(0xb9); SboxIsTable(0x26);
    SboxIsTable(0x42); SboxIsTable(0x4c); SboxIsTable(0xb4); SboxIsTable(0x6a);
    SboxIsTable(0x52); SboxIsTable(0xfc); SboxIsTable(0xd4); SboxIsTable(0x96);
    SboxIsTable(0xed); SboxIsTable(0xa2); SboxIsTable(0x1e); SboxIsTable(0x07);
    RoundIs(State(Word(0xc2, 0xff, 0x59, 0x39), Word(0x9e, 0x62, 0x56, 0xf2), Word(0x39, 0x2f, 0xa9, 0x51), Word(0x83, 0x31, 0x83, 0x46)), w, 2);
    SboxIsTable(0xc2); SboxIsTable(0xff); SboxIsTable(0x59); SboxIsTable(0x39);
    SboxIsTable(0x9e); SboxIsTable(0x62); SboxIsTable(0x56); SboxIsTable(0xf2);
    SboxIsTable(0x39); SboxIsTable(0x2f); SboxIsTable(0xa9); SboxIsTable(0x51);
    SboxIsTable(0x83); SboxIsTable(0x31); SboxIsTable(0x83); SboxIsTable(0x46);
    RoundIs(State(Word(0xd4, 0x9c, 0x49, 0x50), Word(0xad, 0x8a, 0x52, 0x83), Word(0x6d, 0x7d, 0x58, 0x49), Word(0xea, 0x80, 0x1d, 0x4e)), w, 3);
    SboxIsTable(0xd4); SboxIsTable(0x9c); SboxIsTable(0x49); SboxIsTable(0x50);
    SboxIsTable(0xad); SboxIsTable(0x8a); SboxIsTable(0x52); SboxIsTable(0x83);
    SboxIsTable(0x6d); SboxIsTable(0x7d); SboxIsTable(0x58); SboxIsTable(0x49);
    SboxIsTable(0xea); SboxIsTable(0x80); SboxIsTable(0x1d); SboxIsTable(0x4e);
  }

  /** Rounds 4 to 6 of the cipher of the last block of the empty message: the padded empty block xor K2. */
  lemma Last0Rounds4(w: seq<byte>)
    requires HoldsRoundKeys(w)
    ensures Round(State(Word(0x6a, 0xa5, 0xd4, 0xef), Word(0x9b, 0xc2, 0x32, 0x67), Word(0xfd, 0x3f, 0xd6, 0x35), Word(0x3a, 0x61, 0x9c, 0x01)), w, 4)
         == State(Word(0x0e, 0x71, 0xf1, 0x6c), Word(0x1e, 0x0a, 0xe7, 0x4d), Word(0xf9, 0xbd, 0x9a, 0x71), Word(0x7f, 0x74, 0xcc, 0x89))
         && Round(State(Word(0x0e, 0x71, 0xf1, 0x6c), Word(0x1e, 0x0a, 0xe7, 0x4d), Word(0xf9, 0xbd, 0x9a, 0x71), Word(0x7f, 0x74, 0xcc, 0x89)), w, 5)
         == State(Word(0x2f, 0xc0, 0x93, 0x94), Word(0x0d, 0x88, 0xf3, 0x80), Word(0x0c, 0x4f, 0xd4, 0xe2), Word(0x67, 0x72, 0xa9, 0xbb))
         && Round(State(Word(0x2f, 0xc0, 0x93, 0x94), Word(0x0d, 0x88, 0xf3, 0x80), Word(0x0c, 0x4f, 0xd4, 0xe2), Word(0x67, 0x72, 0xa9, 0xbb)), w, 6)
         == State(Word(0xb2, 0x3c, 0xc7, 0x06), Word(0xc2, 0x83, 0xb6, 0x8c), Word(0xed, 0x35, 0xd7, 0x45), Word(0x9b, 0x65, 0x05, 0xf5))
  {
    RoundIs(State(Word(0x6a, 0xa5, 0xd4, 0xef), Word(0x9b, 0xc2, 0x32, 0x67), Word(0xfd, 0x3f, 0xd6, 0x35), Word(0x3a, 0x61, 0x9c, 0x01)), w, 4);
    SboxIsTable(0x6a); SboxIsTable(0xa5); SboxIsTable(0xd4); SboxIsTable(0xef);
    SboxIsTable(0x9b); SboxIsTable(0xc2); SboxIsTable(0x32); SboxIsTable(0x67);
    SboxIsTable(0xfd); SboxIsTable(0x3f); SboxIsTable(0xd6); SboxIsTable(0x35);
    SboxIsTable(0x3a); SboxIsTable(0x61); SboxIsTable(0x9c); SboxIsTable(0x01);
    RoundIs(State(Word(0x0e, 0x71, 0xf1, 0x6c), Word(0x1e, 0x0a, 0xe7, 0x4d), Word(0xf9, 0xbd, 0x9a, 0x71), Word(0x7f, 0x74, 0xcc, 0x89)), w, 5);
    SboxIsTable(0x0e); SboxIsTable(0x71); SboxIsTable(0xf1); SboxIsTable(0x6c);
    SboxIsTable(0x1e); SboxIsTable(0x0a); SboxIsTable(0xe7); SboxIsTable(0x4d);
    SboxIsTable(0xf9); SboxIsTable(0xbd); SboxIsTable(0x9a); SboxIsTable(0x71);
    SboxIsTable(0x7f); SboxIsTable(0x74); SboxIsTable(0xcc); SboxIsTable(0x89);
    RoundIs(State(Word(0x2f, 0xc0, 0x93, 0x94), Word(0x0d, 0x88, 0xf3, 0x80), Word(0x0c, 0x4f, 0xd4, 0xe2), Word(0x67, 0x72, 0xa9, 0xbb)), w, 6);
    SboxIsTable(0x2f); SboxIsTable(0xc0); SboxIsTable(0x93); SboxIsTable(0x94);
    SboxIsTable(0x0d); SboxIsTable(0x88); SboxIsTable(0xf3); SboxIsTable(0x80);
    SboxIsTable(0x0c); SboxIsTable(0x4f); SboxIsTable(0xd4); SboxIsTable(0xe2);
    SboxIsTable(0x67); SboxIsTable(0x72); SboxIsTable(0xa9); SboxIsTable(0xbb);
  }

  /** Rounds 7 to 9 of the cipher of the last block of the empty message: the padded empty block xor K2. */
  lemma Last0Rounds7(w: seq<byte>)
    requires HoldsRoundKeys(w)
    ensures Round(State(Word(0xb2, 0x3c, 0xc7, 0x06), Word(0xc2, 0x83, 0xb6, 0x8c), Word(0xed, 0x35, 0xd7, 0x45), Word(0x9b, 0x65, 0x05, 0xf5)), w, 7)
         == State(Word(0xe7, 0x54, 0x01, 0x62), Word(0xb0, 0x9f, 0x1d, 0xbf), Word(0x5b, 0x5c, 0x6c, 0x0e), Word(0x60, 0xc3, 0x0d, 0x0a))
         && Round(State(Word(0xe7, 0x54, 0x01, 0x62), Word(0xb0, 0x9f, 0x1d, 0xbf), Word(0x5b, 0x5c, 0x6c, 0x0e), Word(0x60, 0xc3, 0x0d, 0x0a)), w, 8)
         == State(Word(0x98, 0x7c, 0x35, 0xc3), Word(0xc3, 0x36, 0x47, 0x32), Word(0x45, 0xc2, 0x02, 0x69), Word(0xab, 0x41, 0x6c, 0x8d))
         && Round(State(Word(0x98, 0x7c, 0x35, 0xc3), Word(0xc3, 0x36, 0x47, 0x32), Word(0x45, 0xc2, 0x02, 0x69), Word(0xab, 0x41, 0x6c, 0x8d)), w, 9)
         == State(Word(0x05, 0xff, 0x2c, 0xf1), Word(0x54, 0x40, 0x05, 0x7a), Word(0xdf, 0x20, 0x96, 0xa0), Word(0xfa, 0x1c, 0x39, 0x91))
  {
    RoundIs(State(Word(0xb2, 0x3c, 0xc7, 0x06), Word(0xc2, 0x83, 0xb6, 0x8c), Word(0xed, 0x35, 0xd7, 0x45), Word(0x9b, 0x65, 0x05, 0xf5)), w, 7);
    SboxIsTable(0xb2); SboxIsTable(0x3c); SboxIsTable(0xc7); SboxIsTable(0x06);
    SboxIsTable(0xc2); SboxIsTable(0x83); SboxIsTable(0xb6); SboxIsTable(0x8c);
    SboxIsTable(0xed); SboxIsTable(0x35); SboxIsTable(0xd7); SboxIsTable(0x45);
    SboxIsTable(0x9b); SboxIsTable(0x65); SboxIsTable(0x05); SboxIsTable(0xf5);
    RoundIs(State(Word(0xe7, 0x54, 0x01, 0x62), Word(0xb0, 0x9f, 0x1d, 0xbf), Word(0x5b, 0x5c, 0x6c, 0x0e), Word(0x60, 0xc3, 0x0d, 0x0a)), w, 8);
    SboxIsTable(0xe7); SboxIsTable(0x54); SboxIsTable(0x01); SboxIsTable(0x62);
    SboxIsTable(0xb0); SboxIsTable(0x9f); SboxIsTable(0x1d); SboxIsTable(0xbf);
    SboxIsTable(0x5b); SboxIsTable(0x5c); SboxIsTable(0x6c); SboxIsTable(0x0e);
    SboxIsTable(0x60); SboxIsTable(0xc3); SboxIsTable(0x0d); SboxIsTable(0x0a);
    RoundIs(State(Word(0x98, 0x7c, 0x35, 0xc3), Word(0xc3, 0x36, 0x47, 0x32), Word(0x45, 0xc2, 0x02, 0x69), Word(0xab, 0x41, 0x6c, 0x8d)), w, 9);
    SboxIsTable(0x98); SboxIsTable(0x7c); SboxIsTable(0x35); SboxIsTable(0xc3);
    SboxIsTable(0xc3); SboxIsTable(0x36); SboxIsTable(0x47); SboxIsTable(0x32);
    SboxIsTable(0x45); SboxIsTable(0xc2); SboxIsTable(0x02); SboxIsTable(0x69);
    SboxIsTable(0xab); SboxIsTable(0x41); SboxIsTable(0x6c); SboxIsTable(0x8d);
  }

  /** The cipher of the last block of the empty message: the padded empty block xor K2: any block b that holds it encrypts to the
    * block after it. */
  lemma EncryptLast0(b: seq<byte>, w: seq<byte>)
    requires |b| == BLOCK_BYTE_SIZE && HoldsRoundKeys(w)
    requires BlockAt(b, 0) == State(Word(0x77, 0xdd, 0xac, 0x30), Word(0x6a, 0xe2, 0x66, 0xcc), Word(0xf9, 0x0b, 0xc1, 0x1e), Word(0xe4, 0x6d, 0x51, 0x3b))
    ensures Encrypt(b, w)
         == [0xbb, 0x1d, 0x69, 0x29, 0xe9, 0x59, 0x37, 0x28, 0x7f, 0xa3, 0x7d, 0x12, 0x9b, 0x75, 0x67, 0x46]
  {
    var s0 := State(Word(0x5c, 0xa3, 0xb9, 0x26), Word(0x42, 0x4c, 0xb4, 0x6a), Word(0x52, 0xfc, 0xd4, 0x96), Word(0xed, 0xa2, 0x1e, 0x07));
    Last0Rounds1(w); Last0Rounds4(w); Last0Rounds7(w);
    assert Rounds(s0, w, 1) == State(Word(0xc2, 0xff, 0x59, 0x39), Word(0x9e, 0x62, 0x56, 0xf2), Word(0x39, 0x2f, 0xa9, 0x51), Word(0x83, 0x31, 0x83, 0x46));
    assert Rounds(s0, w, 2) == State(Word(0xd4, 0x9c, 0x49, 0x50), Word(0xad, 0x8a, 0x52, 0x83), Word(0x6d, 0x7d, 0x58, 0x49), Word(0xea, 0x80, 0x1d, 0x4e));
    assert Rounds(s0, w, 3) == State(Word(0x6a, 0xa5, 0xd4, 0xef), Word(0x9b, 0xc2, 0x32, 0x67), Word(0xfd, 0x3f, 0xd6, 0x35), Word(0x3a, 0x61, 0x9c, 0x01));
    assert Rounds(s0, w, 4) == State(Word(0x0e, 0x71, 0xf1, 0x6c), Word(0x1e, 0x0a, 0xe7, 0x4d), Word(0xf9, 0xbd, 0x9a, 0x71), Word(0x7f, 0x74, 0xcc, 0x89));
    assert Rounds(s0, w, 5) == State(Word(0x2f, 0xc0, 0x93, 0x94), Word(0x0d, 0x88, 0xf3, 0x80), Word(0x0c, 0x4f, 0xd4, 0xe2), Word(0x67, 0x72, 0xa9, 0xbb));
    assert Rounds(s0, w, 6) == State(Word(0xb2, 0x3c, 0xc7, 0x06), Word(0xc2, 0x83, 0xb6, 0x8c), Word(0xed, 0x35, 0xd7, 0x45), Word(0x9b, 0x65, 0x05, 0xf5));
    assert Rounds(s0, w, 7) == State(Word(0xe7, 0x54, 0x01, 0x62), Word(0xb0, 0x9f, 0x1d, 0xbf), Word(0x5b, 0x5c, 0x6c, 0x0e), Word(0x60, 0xc3, 0x0d, 0x0a));
    assert Rounds(s0, w, 8) == State(Word(0x98, 0x7c, 0x35, 0xc3), Word(0xc3, 0x36, 0x47, 0x32), Word(0x45, 0xc2, 0x02, 0x69), Word(0xab, 0x41, 0x6c, 0x8d));
    assert Rounds(s0, w, 9) == State(Word(0x05, 0xff, 0x2c, 0xf1), Word(0x54, 0x40, 0x05, 0x7a), Word(0xdf, 0x20, 0x96, 0xa0), Word(0xfa, 0x1c, 0x39, 0x91));
    SboxIsTable(0x05); SboxIsTable(0xff); SboxIsTable(0x2c); SboxIsTable(0xf1);
    SboxIsTable(0x54); SboxIsTable(0x40); SboxIsTable(0x05); SboxIsTable(0x7a);
    SboxIsTable(0xdf); SboxIsTable(0x20); SboxIsTable(0x96); SboxIsTable(0xa0);
    SboxIsTable(0xfa); SboxIsTable(0x1c); SboxIsTable(0x39); SboxIsTable(0x91);
    CipherOfStates(b, w, s0, State(Word(0x05, 0xff, 0x2c, 0xf1), Word(0x54, 0x40, 0x05, 0x7a), Word(0xdf, 0x20, 0x96, 0xa0), Word(0xfa, 0x1c, 0x39, 0x91)));
  }

  /** Rounds 1 to 3 of the cipher of the last block of the 16-byte message: M_1 xor K1. */
  lemma Last16Rounds1(w: seq<byte>)
    requires HoldsRoundKeys(w)
    ensures Round(State(Word(0xbb, 0x51, 0x7d, 0xec), Word(0x33, 0x9f, 0x7e, 0x56), Word(0x3e, 0x4f, 0x8b, 0x16), Word(0x08, 0x6a, 0xf0, 0xc8)), w, 1)
         == State(Word(0xcc, 0x12, 0x96, 0x1f), Word(0xc0, 0xc5, 0x21, 0x60), Word(0x14, 0xbe, 0xa4, 0x70), Word(0x96, 0xac, 0xa3, 0xf9))
         && Round(State(Word(0xcc, 0x12, 0x96, 0x1f), Word(0xc0, 0xc5, 0x21, 0x60), Word(0x14, 0xbe, 0xa4, 0x70), Word(0x96, 0xac, 0xa3, 0xf9)), w, 2)
         == State(Word(0x45, 0x9c, 0x5a, 0xe9), Word(0x36, 0xb5, 0xe2, 0xa9), Word(0x5e, 0x8d, 0xbb, 0xd5), Word(0xa4, 0x0d, 0xbd, 0x42))
         && Round(State(Word(0x45, 0x9c, 0x5a, 0xe9), Word(0x36, 0xb5, 0xe2, 0xa9), Word(0x5e, 0x8d, 0xbb, 0xd5), Word(0xa4, 0x0d, 0xbd, 0x42)), w, 3)
         == State(Word(0x43, 0x56, 0x47, 0xa8), Word(0xce, 0x39, 0x70, 0x2a), Word(0xa1, 0xc4, 0xf8, 0x78), Word(0x1d, 0x24, 0x31, 0xa0))
  {
    RoundIs(State(Word(0xbb, 0x51, 0x7d, 0xec), Word(0x33, 0x9f, 0x7e, 0x56), Word(0x3e, 0x4f, 0x8b, 0x16), Word(0x08, 0x6a, 0xf0, 0xc8)), w, 1);
    SboxIsTable(0xbb); SboxIsTable(0x51); SboxIsTable(0x7d); SboxIsTable(0xec);
    SboxIsTable(0x33); SboxIsTable(0x9f); SboxIsTable(0x7e); SboxIsTable(0x56);
    SboxIsTable(0x3e); SboxIsTable(0x4f); SboxIsTable(0x8b); SboxIsTable(0x16);
    SboxIsTable(0x08); SboxIsTable(0x6a); SboxIsTable(0xf0); SboxIsTable(0xc8);
    RoundIs(State(Word(0xcc, 0x12, 0x96, 0x1f), Word(0xc0, 0xc5, 0x21, 0x60), Word(0x14, 0xbe, 0xa4, 0x70), Word(0x96, 0xac, 0xa3, 0xf9)), w, 2);
    SboxIsTable(0xcc); SboxIsTable(0x12); SboxIsTable(0x96); SboxIsTable(0x1f);
    SboxIsTable(0xc0); SboxIsTable(0xc5); SboxIsTable(0x21); SboxIsTable(0x60);
    SboxIsTable(0x14); SboxIsTable(0xbe); SboxIsTable(0xa4); SboxIsTable(0x70);
    SboxIsTable(0x96); SboxIsTable(0xac); SboxIsTable(0xa3); SboxIsTable(0xf9);
    RoundIs(State(Word(0x45, 0x9c, 0x5a, 0xe9), Word(0x36, 0xb5, 0xe2, 0xa9), Word(0x5e, 0x8d, 0xbb, 0xd5), Word(0xa4, 0x0d, 0xbd, 0x42)), w, 3);
    SboxIsTable(0x45); SboxIsTable(0x9c); SboxIsTable(0x5a); SboxIsTable(0xe9);
    SboxIsTable(0x36); SboxIsTable(0xb5); SboxIsTable(0xe2); SboxIsTable(0xa9);
    SboxIsTable(0x5e); SboxIsTable(0x8d); SboxIsTable(0xbb); SboxIsTable(0xd5);
    SboxIsTable(0xa4); SboxIsTable(0x0d); SboxIsTable(0xbd); SboxIsTable(0x42);
  }

  /** Rounds 4 to 6 of the cipher of the last block of the 16-byte message: M_1 xor K1. */
  lemma Last16Rounds4(w: seq<byte>)
    requires HoldsRoundKeys(w)
    ensures Round(State(Word(0x43, 0x56, 0x47, 0xa8), Word(0xce, 0x39, 0x70, 0x2a), Word(0xa1, 0xc4, 0xf8, 0x78), Word(0x1d, 0x24, 0x31, 0xa0)), w, 4)
         == State(Word(0x4c, 0x59, 0x14, 0xe7), Word(0x84, 0x71, 0x04, 0xbd), Word(0xcd, 0x31, 0x4e, 0x2a), Word(0xad, 0x99, 0xc5, 0x74))
         && Round(State(Word(0x4c, 0x59, 0x14, 0xe7), Word(0x84, 0x71, 0x04, 0xbd), Word(0xcd, 0x31, 0x4e, 0x2a), Word(0xad, 0x99, 0xc5, 0x74)), w, 5)
         == State(Word(0xc5, 0x46, 0xbf, 0x30), Word(0xa2, 0x2c, 0xf5, 0x34), Word(0x02, 0xe7, 0x8a, 0x80), Word(0x71, 0x09, 0x80, 0xf0))
         && Round(State(Word(0xc5, 0x46, 0xbf, 0x30), Word(0xa2, 0x2c, 0xf5, 0x34), Word(0x02, 0xe7, 0x8a, 0x80), Word(0x71, 0x09, 0x80, 0xf0)), w, 6)
         == State(Word(0x5b, 0xc2, 0x07, 0x87), Word(0x0b, 0x4a, 0x1d, 0xe2), Word(0x26, 0x8c, 0xc8, 0xe1), Word(0x52, 0xeb, 0xf1, 0x3e))
  {
    RoundIs(State(Word(0x43, 0x56, 0x47, 0xa8), Word(0xce, 0x39, 0x70, 0x2a), Word(0xa1, 0xc4, 0xf8, 0x78), Word(0x1d, 0x24, 0x31, 0xa0)), w, 4);
    SboxIsTable(0x43); SboxIsTable(0x56); SboxIsTable(0x47); SboxIsTable(0xa8);
    SboxIsTable(0xce); SboxIsTable(0x39); SboxIsTable(0x70); SboxIsTable(0x2a);
    SboxIsTable(0xa1); SboxIsTable(0xc4); SboxIsTable(0xf8); SboxIsTable(0x78);
    SboxIsTable(0x1d); SboxIsTable(0x24); SboxIsTable(0x31); SboxIsTable(0xa0);
    RoundIs(State(Word(0x4c, 0x59, 0x14, 0xe7), Word(0x84, 0x71, 0x04, 0xbd), Word(0xcd, 0x31, 0x4e, 0x2a), Word(0xad, 0x99, 0xc5, 0x74)), w, 5);
    SboxIsTable(0x4c); SboxIsTable(0x59); SboxIsTable(0x14); SboxIsTable(0xe7);
    SboxIsTable(0x84); SboxIsTable(0x71); SboxIsTable(0x04); SboxIsTable(0xbd);
    SboxIsTable(0xcd); SboxIsTable(0x31); SboxIsTable(0x4e); SboxIsTable(0x2a);
    SboxIsTable(0xad); SboxIsTable(0x99); SboxIsTable(0xc5); SboxIsTable(0x74);
    RoundIs(State(Word(0xc5, 0x46, 0xbf, 0x30), Word(0xa2, 0x2c, 0xf5, 0x34), Word(0x02, 0xe7, 0x8a, 0x80), Word(0x71, 0x09, 0x80, 0xf0)), w, 6);
    SboxIsTable(0xc5); SboxIsTable(0x46); SboxIsTable(0xbf); SboxIsTable(0x30);
    SboxIsTable(0xa2); SboxIsTable(0x2c); SboxIsTable(0xf5); SboxIsTable(0x34);
    SboxIsTable(0x02); SboxIsTable(0xe7); SboxIsTable(0x8a); SboxIsTable(0x80);
    SboxIsTable(0x71); SboxIsTable(0x09); SboxIsTable(0x80); SboxIsTable(0xf0);
  }

  /** Rounds 7 to 9 of the cipher of the last block of the 16-byte message: M_1 xor K1. */
  lemma Last16Rounds7(w: seq<byte>)
    requires HoldsRoundKeys(w)
    ensures Round(State(Word(0x5b, 0xc2, 0x07, 0x87), Word(0x0b, 0x4a, 0x1d, 0xe2), Word(0x26, 0x8c, 0xc8, 0xe1), Word(0x52, 0xeb, 0xf1, 0x3e)), w, 7)
         == State(Word(0x07, 0x4b, 0x1e, 0x04), Word(0x13, 0x53, 0xe6, 0x65), Word(0x0c, 0x54, 0x73, 0xb7), Word(0x7d, 0xe3, 0xb9, 0x25))
         && Round(State(Word(0x07, 0x4b, 0x1e, 0x04), Word(0x13, 0x53, 0xe6, 0x65), Word(0x0c, 0x54, 0x73, 0xb7), Word(0x7d, 0xe3, 0xb9, 0x25)), w, 8)
         == State(Word(0xe7, 0x63, 0x1f, 0x69), Word(0x8b, 0xb8, 0x46, 0xdc), Word(0xda, 0x2c, 0x29, 0x80), Word(0x73, 0x2f, 0x82, 0x41))
         && Round(State(Word(0xe7, 0x63, 0x1f, 0x69), Word(0x8b, 0xb8, 0x46, 0xdc), Word(0xda, 0x2c, 0x29, 0x80), Word(0x73, 0x2f, 0x82, 0x41)), w, 9)
         == State(Word(0x0d, 0x4c, 0x51, 0x80), Word(0x1a, 0xe9, 0xa6, 0xed), Word(0xff, 0x71, 0x61, 0x7a), Word(0xd3, 0x1d, 0x8c, 0xc4))
  {
    RoundIs(State(Word(0x5b, 0xc2, 0x07, 0x87), Word(0x0b, 0x4a, 0x1d, 0xe2), Word(0x26, 0x8c, 0xc8, 0xe1), Word(0x52, 0xeb, 0xf1, 0x3e)), w, 7);
    SboxIsTable(0x5b); SboxIsTable(0xc2); SboxIsTable(0x07); SboxIsTable(0x87);
    SboxIsTable(0x0b); SboxIsTable(0x4a); SboxIsTable(0x1d); SboxIsTable(0xe2);
    SboxIsTable(0x26); SboxIsTable(0x8c); SboxIsTable(0xc8); SboxIsTable(0xe1);
    SboxIsTable(0x52); SboxIsTable(0xeb); SboxIsTable(0xf1); SboxIsTable(0x3e);
    RoundIs(State(Word(0x07, 0x4b, 0x1e, 0x04), Word(0x13, 0x53, 0xe6, 0x65), Word(0x0c, 0x54, 0x73, 0xb7), Word(0x7d, 0xe3, 0xb9, 0x25)), w, 8);
    SboxIsTable(0x07); SboxIsTable(0x4b); SboxIsTable(0x1e); SboxIsTable(0x04);
    SboxIsTable(0x13); SboxIsTable(0x53); SboxIsTable(0xe6); SboxIsTable(0x65);
    SboxIsTable(0x0c); SboxIsTable(0x54); SboxIsTable(0x73); SboxIsTable(0xb7);
    SboxIsTable(0x7d); SboxIsTable(0xe3); SboxIsTable(0xb9); SboxIsTable(0x25);
    RoundIs(State(Word(0xe7, 0x63, 0x1f, 0x69), Word(0x8b, 0xb8, 0x46, 0xdc), Word(0xda, 0x2c, 0x29, 0x80), Word(0x73, 0x2f, 0x82, 0x41)), w, 9);
    SboxIsTable(0xe7); SboxIsTable(0x63); SboxIsTable(0x1f); SboxIsTable(0x69);
    SboxIsTable(0x8b); SboxIsTable(0xb8); SboxIsTable(0x46); SboxIsTable(0xdc);
    SboxIsTable(0xda); SboxIsTable(0x2c); SboxIsTable(0x29); SboxIsTable(0x80);
    SboxIsTable(0x73); SboxIsTable(0x2f); SboxIsTable(0x82); SboxIsTable(0x41);
  }

  /** The cipher of the last block of the 16-byte message: M_1 xor K1: any block b that holds it encrypts to the
    * block after it. */
  lemma EncryptLast16(b: seq<byte>, w: seq<byte>)
    requires |b| == BLOCK_BYTE_SIZE && HoldsRoundKeys(w)
    requires BlockAt(b, 0) == State(Word(0x90, 0x2f, 0x68, 0xfa), Word(0x1b, 0x31, 0xac, 0xf0), Word(0x95, 0xb8, 0x9e, 0x9e), Word(0x01, 0xa5, 0xbf, 0xf4))
    ensures Encrypt(b, w)
         == [0x07, 0x0a, 0x16, 0xb4, 0x6b, 0x4d, 0x41, 0x44, 0xf7, 0x9b, 0xdd, 0x9d, 0xd0, 0x4a, 0x28, 0x7c]
  {
    var s0 := State(Word(0xbb, 0x51, 0x7d, 0xec), Word(0x33, 0x9f, 0x7e, 0x56), Word(0x3e, 0x4f, 0x8b, 0x16), Word(0x08, 0x6a, 0xf0, 0xc8));
    Last16Rounds1(w); Last16Rounds4(w); Last16Rounds7(w);
    assert Rounds(s0, w, 1) == State(Word(0xcc, 0x12, 0x96, 0x1f), Word(0xc0, 0xc5, 0x21, 0x60), Word(0x14, 0xbe, 0xa4, 0x70), Word(0x96, 0xac, 0xa3, 0xf9));
    assert Rounds(s0, w, 2) == State(Word(0x45, 0x9c, 0x5a, 0xe9), Word(0x36, 0xb5, 0xe2, 0xa9), Word(0x5e, 0x8d, 0xbb, 0xd5), Word(0xa4, 0x0d, 0xbd, 0x42));
    assert Rounds(s0, w, 3) == State(Word(0x43, 0x56, 0x47, 0xa8), Word(0xce, 0x39, 0x70, 0x2a), Word(0xa1, 0xc4, 0xf8, 0x78), Word(0x1d, 0x24, 0x31, 0xa0));
    assert Rounds(s0, w, 4) == State(Word(0x4c, 0x59, 0x14, 0xe7), Word(0x84, 0x71, 0x04, 0xbd), Word(0xcd, 0x31, 0x4e, 0x2a), Word(0xad, 0x99, 0xc5, 0x74));
    assert Rounds(s0, w, 5) == State(Word(0xc5, 0x46, 0xbf, 0x30), Word(0xa2, 0x2c, 0xf5, 0x34), Word(0x02, 0xe7, 0x8a, 0x80), Word(0x71, 0x09, 0x80, 0xf0));
    assert Rounds(s0, w, 6) == State(Word(0x5b, 0xc2, 0x07, 0x87), Word(0x0b, 0x4a, 0x1d, 0xe2), Word(0x26, 0x8c, 0xc8, 0xe1), Word(0x52, 0xeb, 0xf1, 0x3e));
    assert Rounds(s0, w, 7) == State(Word(0x07, 0x4b, 0x1e, 0x04), Word(0x13, 0x53, 0xe6, 0x65), Word(0x0c, 0x54, 0x73, 0xb7), Word(0x7d, 0xe3, 0xb9, 0x25));
    assert Rounds(s0, w, 8) == State(Word(0xe7, 0x63, 0x1f, 0x69), Word(0x8b, 0xb8, 0x46, 0xdc), Word(0xda, 0x2c, 0x29, 0x80), Word(0x73, 0x2f, 0x82, 0x41));
    assert Rounds(s0, w, 9) == State(Word(0x0d, 0x4c, 0x51, 0x80), Word(0x1a, 0xe9, 0xa6, 0xed), Word(0xff, 0x71, 0x61, 0x7a), Word(0xd3, 0x1d, 0x8c, 0xc4));
    SboxIsTable(0x0d); SboxIsTable(0x4c); SboxIsTable(0x51); SboxIsTable(0x80);
    SboxIsTable(0x1a); SboxIsTable(0xe9); SboxIsTable(0xa6); SboxIsTable(0xed);
    SboxIsTable(0xff); SboxIsTable(0x71); SboxIsTable(0x61); SboxIsTable(0x7a);
    SboxIsTable(0xd3); SboxIsTable(0x1d); SboxIsTable(0x8c); SboxIsTable(0xc4);
    CipherOfStates(b, w, s0, State(Word(0x0d, 0x4c, 0x51, 0x80), Word(0x1a, 0xe9, 0xa6, 0xed), Word(0xff, 0x71, 0x61, 0x7a), Word(0xd3, 0x1d, 0x8c, 0xc4)));
  }

  /** Rounds 1 to 3 of the cipher of M_1, the first step of the CBC-MAC chain. */
  lemma Block1Rounds1(w: seq<byte>)
    requires HoldsRoundKeys(w)
    ensures Round(State(Word(0x40, 0xbf, 0xab, 0xf4), Word(0x06, 0xee, 0x4d, 0x30), Word(0x42, 0xca, 0x6b, 0x99), Word(0x7a, 0x5c, 0x58, 0x16)), w, 1)
         == State(Word(0xf2, 0x65, 0xe8, 0xd5), Word(0x1f, 0xd2, 0x39, 0x7b), Word(0xc3, 0xb9, 0x97, 0x6d), Word(0x90, 0x76, 0x50, 0x5c))
         && Round(State(Word(0xf2, 0x65, 0xe8, 0xd5), Word(0x1f, 0xd2, 0x39, 0x7b), Word(0xc3, 0xb9, 0x97, 0x6d), Word(0x90, 0x76, 0x50, 0x5c)), w, 2)
         == State(Word(0xfd, 0xf3, 0x7c, 0xdb), Word(0x4b, 0x0c, 0x8c, 0x1b), Word(0xf7, 0xfc, 0xd8, 0xe9), Word(0x4a, 0xa9, 0xbb, 0xf8))
         && Round(State(Word(0xfd, 0xf3, 0x7c, 0xdb), Word(0x4b, 0x0c, 0x8c, 0x1b), Word(0xf7, 0xfc, 0xd8, 0xe9), Word(0x4a, 0xa9, 0xbb, 0xf8)), w, 3)
         == State(Word(0xac, 0xd1, 0xec, 0x9c), Word(0xa2, 0x42, 0xe2, 0xc3), Word(0x1f, 0x69, 0x0f, 0x7a), Word(0xb7, 0x04, 0xb9, 0x0f))
  {
    RoundIs(State(Word(0x40, 0xbf, 0xab, 0xf4), Word(0x06, 0xee, 0x4d, 0x30), Word(0x42, 0xca, 0x6b, 0x99), Word(0x7a, 0x5c, 0x58, 0x16)), w, 1);
    SboxIsTable(0x40); SboxIsTable(0xbf); SboxIsTable(0xab); SboxIsTable(0xf4);
    SboxIsTable(0x06); SboxIsTable(0xee); SboxIsTable(0x4d); SboxIsTable(0x30);
    SboxIsTable(0x42); SboxIsTable(0xca); SboxIsTable(0x6b); SboxIsTable(0x99);
    SboxIsTable(0x7a); SboxIsTable(0x5c); SboxIsTable(0x58); SboxIsTable(0x16);
    RoundIs(State(Word(0xf2, 0x65, 0xe8, 0xd5), Word(0x1f, 0xd2, 0x39, 0x7b), Word(0xc3, 0xb9, 0x97, 0x6d), Word(0x90, 0x76, 0x50, 0x5c)), w, 2);
    SboxIsTable(0xf2); SboxIsTable(0x65); SboxIsTable(0xe8); SboxIsTable(0xd5);
    SboxIsTable(0x1f); SboxIsTable(0xd2); SboxIsTable(0x39); SboxIsTable(0x7b);
    SboxIsTable(0xc3); SboxIsTable(0xb9); SboxIsTable(0x97); SboxIsTable(0x6d);
    SboxIsTable(0x90); SboxIsTable(0x76); SboxIsTable(0x50); SboxIsTable(0x5c);
    RoundIs(State(Word(0xfd, 0xf3, 0x7c, 0xdb), Word(0x4b, 0x0c, 0x8c, 0x1b), Word(0xf7, 0xfc, 0xd8, 0xe9), Word(0x4a, 0xa9, 0xbb, 0xf8)), w, 3);
    SboxIsTable(0xfd); SboxIsTable(0xf3); SboxIsTable(0x7c); SboxIsTable(0xdb);
    SboxIsTable(0x4b); SboxIsTable(0x0c); SboxIsTable(0x8c); SboxIsTable(0x1b);
    SboxIsTable(0xf7); SboxIsTable(0xfc); SboxIsTable(0xd8); SboxIsTable(0xe9);
    SboxIsTable(0x4a); SboxIsTable(0xa9); SboxIsTable(0xbb); SboxIsTable(0xf8);
  }

  /** Rounds 4 to 6 of the cipher of M_1, the first step of the CBC-MAC chain. */
  lemma Block1Rounds4(w: seq<byte>)
    requires HoldsRoundKeys(w)
    ensures Round(State(Word(0xac, 0xd1, 0xec, 0x9c), Word(0xa2, 0x42, 0xe2, 0xc3), Word(0x1f, 0x69, 0x0f, 0x7a), Word(0xb7, 0x04, 0xb9, 0x0f)), w, 4)
         == State(Word(0xa2, 0x61, 0x6e, 0x5f), Word(0x44, 0xa5, 0x4d, 0x39), Word(0xc0, 0x29, 0xe2, 0x00), Word(0x92, 0xb7, 0x64, 0xe9))
         && Round(State(Word(0xa2, 0x61, 0x6e, 0x5f), Word(0x44, 0xa5, 0x4d, 0x39), Word(0xc0, 0x29, 0xe2, 0x00), Word(0x92, 0xb7, 0x64, 0xe9)), w, 5)
         == State(Word(0x2c, 0x4a, 0xf3, 0x14), Word(0x32, 0xc3, 0xef, 0xc9), Word(0xc8, 0xa9, 0xb8, 0x7b), Word(0x25, 0x2e, 0xcd, 0xa7))
         && Round(State(Word(0x2c, 0x4a, 0xf3, 0x14), Word(0x32, 0xc3, 0xef, 0xc9), Word(0xc8, 0xa9, 0xb8, 0x7b), Word(0x25, 0x2e, 0xcd, 0xa7)), w, 6)
         == State(Word(0xcd, 0x4d, 0xc0, 0x13), Word(0x7e, 0xb3, 0xba, 0x19), Word(0x93, 0xb9, 0x39, 0xff), Word(0x2b, 0xd3, 0xbc, 0xf7))
  {
    RoundIs(State(Word(0xac, 0xd1, 0xec, 0x9c), Word(0xa2, 0x42, 0xe2, 0xc3), Word(0x1f, 0x69, 0x0f, 0x7a), Word(0xb7, 0x04, 0xb9, 0x0f)), w, 4);
    SboxIsTable(0xac); SboxIsTable(0xd1); SboxIsTable(0xec); SboxIsTable(0x9c);
    SboxIsTable(0xa2); SboxIsTable(0x42); SboxIsTable(0xe2); SboxIsTable(0xc3);
    SboxIsTable(0x1f); SboxIsTable(0x69); SboxIsTable(0x0f); SboxIsTable(0x7a);
    SboxIsTable(0xb7); SboxIsTable(0x04); SboxIsTable(0xb9); SboxIsTable(0x0f);
    RoundIs(State(Word(0xa2, 0x61, 0x6e, 0x5f), Word(0x44, 0xa5, 0x4d, 0x39), Word(0xc0, 0x29, 0xe2, 0x00), Word(0x92, 0xb7, 0x64, 0xe9)), w, 5);
    SboxIsTable(0xa2); SboxIsTable(0x61); SboxIsTable(0x6e); SboxIsTable(0x5f);
    SboxIsTable(0x44); SboxIsTable(0xa5); SboxIsTable(0x4d); SboxIsTable(0x39);
    SboxIsTable(0xc0); SboxIsTable(0x29); SboxIsTable(0xe2); SboxIsTable(0x00);
    SboxIsTable(0x92); SboxIsTable(0xb7); SboxIsTable(0x64); SboxIsTable(0xe9);
    RoundIs(State(Word(0x2c, 0x4a, 0xf3, 0x14), Word(0x32, 0xc3, 0xef, 0xc9), Word(0xc8, 0xa9, 0xb8, 0x7b), Word(0x25, 0x2e, 0xcd, 0xa7)), w, 6);
    SboxIsTable(0x2c); SboxIsTable(0x4a); SboxIsTable(0xf3); SboxIsTable(0x14);
    SboxIsTable(0x32); SboxIsTable(0xc3); SboxIsTable(0xef); SboxIsTable(0xc9);
    SboxIsTable(0xc8); SboxIsTable(0xa9); SboxIsTable(0xb8); SboxIsTable(0x7b);
    SboxIsTable(0x25); SboxIsTable(0x2e); SboxIsTable(0xcd); SboxIsTable(0xa7);
  }

  /** Rounds 7 to 9 of the cipher of M_1, the first step of the CBC-MAC chain. */
  lemma Block1Rounds7(w: seq<byte>)
    requires HoldsRoundKeys(w)
    ensures Round(State(Word(0xcd, 0x4d, 0xc0, 0x13), Word(0x7e, 0xb3, 0xba, 0x19), Word(0x93, 0xb9, 0x39, 0xff), Word(0x2b, 0xd3, 0xbc, 0xf7)), w, 7)
         == State(Word(0xe2, 0x6d, 0xbb, 0x7d), Word(0x40, 0xd2, 0x21, 0x34), Word(0xe3, 0xb7, 0xfd, 0xa2), Word(0x6b, 0x9b, 0x07, 0x7c))
         && Round(State(Word(0xe2, 0x6d, 0xbb, 0x7d), Word(0x40, 0xd2, 0x21, 0x34), Word(0xe3, 0xb7, 0xfd, 0xa2), Word(0x6b, 0x9b, 0x07, 0x7c)), w, 8)
         == State(Word(0x41, 0xd7, 0xc6, 0x53), Word(0x7d, 0x66, 0x91, 0x40), Word(0xdd, 0x2f, 0x17, 0x9d), Word(0x02, 0xac, 0xc5, 0x1b))
         && Round(State(Word(0x41, 0xd7, 0xc6, 0x53), Word(0x7d, 0x66, 0x91, 0x40), Word(0xdd, 0x2f, 0x17, 0x9d), Word(0x02, 0xac, 0xc5, 0x1b)), w, 9)
         == State(Word(0xbb, 0x36, 0xc7, 0xeb), Word(0x88, 0x33, 0x4d, 0x49), Word(0xa4, 0xe7, 0x11, 0x2e), Word(0x74, 0xf1, 0x82, 0xc4))
  {
    RoundIs(State(Word(0xcd, 0x4d, 0xc0, 0x13), Word(0x7e, 0xb3, 0xba, 0x19), Word(0x93, 0xb9, 0x39, 0xff), Word(0x2b, 0xd3, 0xbc, 0xf7)), w, 7);
    SboxIsTable(0xcd); SboxIsTable(0x4d); SboxIsTable(0xc0); SboxIsTable(0x13);
    SboxIsTable(0x7e); SboxIsTable(0xb3); SboxIsTable(0xba); SboxIsTable(0x19);
    SboxIsTable(0x93); SboxIsTable(0xb9); SboxIsTable(0x39); SboxIsTable(0xff);
    SboxIsTable(0x2b); SboxIsTable(0xd3); SboxIsTable(0xbc); SboxIsTable(0xf7);
    RoundIs(State(Word(0xe2, 0x6d, 0xbb, 0x7d), Word(0x40, 0xd2, 0x21, 0x34), Word(0xe3, 0xb7, 0xfd, 0xa2), Word(0x6b, 0x9b, 0x07, 0x7c)), w, 8);
    SboxIsTable(0xe2); SboxIsTable(0x6d); SboxIsTable(0xbb); SboxIsTable(0x7d);
    SboxIsTable(0x40); SboxIsTable(0xd2); SboxIsTable(0x21); SboxIsTable(0x34);
    SboxIsTable(0xe3); SboxIsTable(0xb7); SboxIsTable(0xfd); SboxIsTable(0xa2);
    SboxIsTable(0x6b); SboxIsTable(0x9b); SboxIsTable(0x07); SboxIsTable(0x7c);
    RoundIs(State(Word(0x41, 0xd7, 0xc6, 0x53), Word(0x7d, 0x66, 0x91, 0x40), Word(0xdd, 0x2f, 0x17, 0x9d), Word(0x02, 0xac, 0xc5, 0x1b)), w, 9);
    SboxIsTable(0x41); SboxIsTable(0xd7); SboxIsTable(0xc6); SboxIsTable(0x53);
    SboxIsTable(0x7d); SboxIsTable(0x66); SboxIsTable(0x91); SboxIsTable(0x40);
    SboxIsTable(0xdd); SboxIsTable(0x2f); SboxIsTable(0x17); SboxIsTable(0x9d);
    SboxIsTable(0x02); SboxIsTable(0xac); SboxIsTable(0xc5); SboxIsTable(0x1b);
  }

  /** The cipher of M_1, the first step of the CBC-MAC chain: any block b that holds it encrypts to the
    * block after it. */
  lemma EncryptBlock1(b: seq<byte>, w: seq<byte>)
    requires |b| == BLOCK_BYTE_SIZE && HoldsRoundKeys(w)
    requires BlockAt(b, 0) == State(Word(0x6b, 0xc1, 0xbe, 0xe2), Word(0x2e, 0x40, 0x9f, 0x96), Word(0xe9, 0x3d, 0x7e, 0x11), Word(0x73, 0x93, 0x17, 0x2a))
    ensures Encrypt(b, w)
         == [0x3a, 0xd7, 0x7b, 0xb4, 0x0d, 0x7a, 0x36, 0x60, 0xa8, 0x9e, 0xca, 0xf3, 0x24, 0x66, 0xef, 0x97]
  {
    var s0 := State(Word(0x40, 0xbf, 0xab, 0xf4), Word(0x06, 0xee, 0x4d, 0x30), Word(0x42, 0xca, 0x6b, 0x99), Word(0x7a, 0x5c, 0x58, 0x16));
    Block1Rounds1(w); Block1Rounds4(w); Block1Rounds7(w);
    assert Rounds(s0, w, 1) == State(Word(0xf2, 0x65, 0xe8, 0xd5), Word(0x1f, 0xd2, 0x39, 0x7b), Word(0xc3, 0xb9, 0x97, 0x6d), Word(0x90, 0x76, 0x50, 0x5c));
    assert Rounds(s0, w, 2) == State(Word(0xfd, 0xf3, 0x7c, 0xdb), Word(0x4b, 0x0c, 0x8c, 0x1b), Word(0xf7, 0xfc, 0xd8, 0xe9), Word(0x4a, 0xa9, 0xbb, 0xf8));
    assert Rounds(s0, w, 3) == State(Word(0xac, 0xd1, 0xec, 0x9c), Word(0xa2, 0x42, 0xe2, 0xc3), Word(0x1f, 0x69, 0x0f, 0x7a), Word(0xb7, 0x04, 0xb9, 0x0f));
    assert Rounds(s0, w, 4) == State(Word(0xa2, 0x61, 0x6e, 0x5f), Word(0x44, 0xa5, 0x4d, 0x39), Word(0xc0, 0x29, 0xe2, 0x00), Word(0x92, 0xb7, 0x64, 0xe9));
    assert Rounds(s0, w, 5) == State(Word(0x2c, 0x4a, 0xf3, 0x14), Word(0x32, 0xc3, 0xef, 0xc9), Word(0xc8, 0xa9, 0xb8, 0x7b), Word(0x25, 0x2e, 0xcd, 0xa7));
    assert Rounds(s0, w, 6) == State(Word(0xcd, 0x4d, 0xc0, 0x13), Word(0x7e, 0xb3, 0xba, 0x19), Word(0x93, 0xb9, 0x39, 0xff), Word(0x2b, 0xd3, 0xbc, 0xf7));
    assert Rounds(s0, w, 7) == State(Word(0xe2, 0x6d, 0xbb, 0x7d), Word(0x40, 0xd2, 0x21, 0x34), Word(0xe3, 0xb7, 0xfd, 0xa2), Word(0x6b, 0x9b, 0x07, 0x7c));
    assert Rounds(s0, w, 8) == State(Word(0x41, 0xd7, 0xc6, 0x53), Word(0x7d, 0x66, 0x91, 0x40), Word(0xdd, 0x2f, 0x17, 0x9d), Word(0x02, 0xac, 0xc5, 0x1b));
    assert Rounds(s0, w, 9) == State(Word(0xbb, 0x36, 0xc7, 0xeb), Word(0x88, 0x33, 0x4d, 0x49), Word(0xa4, 0xe7, 0x11, 0x2e), Word(0x74, 0xf1, 0x82, 0xc4));
    SboxIsTable(0xbb); SboxIsTable(0x36); SboxIsTable(0xc7); SboxIsTable(0xeb);
    SboxIsTable(0x88); SboxIsTable(0x33); SboxIsTable(0x4d); SboxIsTable(0x49);
    SboxIsTable(0xa4); SboxIsTable(0xe7); SboxIsTable(0x11); SboxIsTable(0x2e);
    SboxIsTable(0x74); SboxIsTable(0xf1); SboxIsTable(0x82); SboxIsTable(0xc4);
    CipherOfStates(b, w, s0, State(Word(0xbb, 0x36, 0xc7, 0xeb), Word(0x88, 0x33, 0x4d, 0x49), Word(0xa4, 0xe7, 0x11, 0x2e), Word(0x74, 0xf1, 0x82, 0xc4)));
  }

  /** Rounds 1 to 3 of the cipher of X_1 xor M_2, the second step of the chain. */
  lemma Block2Rounds1(w: seq<byte>)
    requires HoldsRoundKeys(w)
    ensures Round(State(Word(0xbf, 0x84, 0xe4, 0xf5), Word(0x3b, 0xd7, 0x48, 0x5a), Word(0x9d, 0xde, 0xb0, 0xd7), Word(0x68, 0x06, 0x2e, 0xfa)), w, 1)
         == State(Word(0x68, 0xf1, 0x5a, 0xbc), Word(0xa7, 0x39, 0x80, 0x77), Word(0xf9, 0x26, 0x03, 0xba), Word(0x1d, 0x6f, 0xda, 0xdb))
         && Round(State(Word(0x68, 0xf1, 0x5a, 0xbc), Word(0xa7, 0x39, 0x80, 0x77), Word(0xf9, 0x26, 0x03, 0xba), Word(0x1d, 0x6f, 0xda, 0xdb)), w, 2)
         == State(Word(0x8c, 0x97, 0xe4, 0x3d), Word(0xf2, 0xa3, 0x13, 0xcd), Word(0xd8, 0xcb, 0xd2, 0x2d), Word(0xe1, 0x1c, 0x75, 0x17))
         && Round(State(Word(0x8c, 0x97, 0xe4, 0x3d), Word(0xf2, 0xa3, 0x13, 0xcd), Word(0xd8, 0xcb, 0xd2, 0x2d), Word(0xe1, 0x1c, 0x75, 0x17)), w, 3)
         == State(Word(0xae, 0xc4, 0x53, 0x95), Word(0xd5, 0x3a, 0x20, 0x72), Word(0xb7, 0x67, 0x8d, 0x73), Word(0xa0, 0xd6, 0x71, 0x76))
  {
    RoundIs(State(Word(0xbf, 0x84, 0xe4, 0xf5), Word(0x3b, 0xd7, 0x48, 0x5a), Word(0x9d, 0xde, 0xb0, 0xd7), Word(0x68, 0x06, 0x2e, 0xfa)), w, 1);
    SboxIsTable(0xbf); SboxIsTable(0x84); SboxIsTable(0xe4); SboxIsTable(0xf5);
    SboxIsTable(0x3b); SboxIsTable(0xd7); SboxIsTable(0x48); SboxIsTable(0x5a);
    SboxIsTable(0x9d); SboxIsTable(0xde); SboxIsTable(0xb0); SboxIsTable(0xd7);
    SboxIsTable(0x68); SboxIsTable(0x06); SboxIsTable(0x2e); SboxIsTable(0xfa);
    RoundIs(State(Word(0x68, 0xf1, 0x5a, 0xbc), Word(0xa7, 0x39, 0x80, 0x77), Word(0xf9, 0x26, 0x03, 0xba), Word(0x1d, 0x6f, 0xda, 0xdb)), w, 2);
    SboxIsTable(0x68); SboxIsTable(0xf1); SboxIsTable(0x5a); SboxIsTable(0xbc);
    SboxIsTable(0xa7); SboxIsTable(0x39); SboxIsTable(0x80); SboxIsTable(0x77);
    SboxIsTable(0xf9); SboxIsTable(0x26); SboxIsTable(0x03); SboxIsTable(0xba);
    SboxIsTable(0x1d); SboxIsTable(0x6f); SboxIsTable(0xda); SboxIsTable(0xdb);
    RoundIs(State(Word(0x8c, 0x97, 0xe4, 0x3d), Word(0xf2, 0xa3, 0x13, 0xcd), Word(0xd8, 0xcb, 0xd2, 0x2d), Word(0xe1, 0x1c, 0x75, 0x17)), w, 3);
    SboxIsTable(0x8c); SboxIsTable(0x97); SboxIsTable(0xe4); SboxIsTable(0x3d);
    SboxIsTable(0xf2); SboxIsTable(0xa3); SboxIsTable(0x13); SboxIsTable(0xcd);
    SboxIsTable(0xd8); SboxIsTable(0xcb); SboxIsTable(0xd2); SboxIsTable(0x2d);
    SboxIsTable(0xe1); SboxIsTable(0x1c); SboxIsTable(0x75); SboxIsTable(0x17);
  }

  /** Rounds 4 to 6 of the cipher of X_1 xor M_2, the second step of the chain. */
  lemma Block2Rounds4(w: seq<byte>)
    requires HoldsRoundKeys(w)
    ensures Round(State(Word(0xae, 0xc4, 0x53, 0x95), Word(0xd5, 0x3a, 0x20, 0x72), Word(0xb7, 0x67, 0x8d, 0x73), Word(0xa0, 0xd6, 0x71, 0x76)), w, 4)
         == State(Word(0xc2, 0x64, 0x33, 0xdb), Word(0xb3, 0x94, 0xfe, 0x08), Word(0x53, 0x43, 0x7b, 0x40), Word(0x1c, 0x9e, 0xae, 0x95))
         && Round(State(Word(0xc2, 0x64, 0x33, 0xdb), Word(0xb3, 0x94, 0xfe, 0x08), Word(0x53, 0x43, 0x7b, 0x40), Word(0x1c, 0x9e, 0xae, 0x95)), w, 5)
         == State(Word(0xf3, 0xf9, 0xfd, 0xc0), Word(0xd5, 0x54, 0xe9, 0xa7), Word(0xe5, 0x67, 0x93, 0x38), Word(0x45, 0x3c, 0xbc, 0xe9))
         && Round(State(Word(0xf3, 0xf9, 0xfd, 0xc0), Word(0xd5, 0x54, 0xe9, 0xa7), Word(0xe5, 0x67, 0x93, 0x38), Word(0x45, 0x3c, 0xbc, 0xe9)), w, 6)
         == State(Word(0xd5, 0xa4, 0x0f, 0xad), Word(0x5c, 0x0c, 0xa7, 0x77), Word(0x5c, 0x4d, 0xf8, 0x36), Word(0xbf, 0x62, 0x51, 0xc6))
  {
    RoundIs(State(Word(0xae, 0xc4, 0x53, 0x95), Word(0xd5, 0x3a, 0x20, 0x72), Word(0xb7, 0x67, 0x8d, 0x73), Word(0xa0, 0xd6, 0x71, 0x76)), w, 4);
    SboxIsTable(0xae); SboxIsTable(0xc4); SboxIsTable(0x53); SboxIsTable(0x95);
    SboxIsTable(0xd5); SboxIsTable(0x3a); SboxIsTable(0x20); SboxIsTable(0x72);
    SboxIsTable(0xb7); SboxIsTable(0x67); SboxIsTable(0x8d); SboxIsTable(0x73);
    SboxIsTable(0xa0); SboxIsTable(0xd6); SboxIsTable(0x71); SboxIsTable(0x76);
    RoundIs(State(Word(0xc2, 0x64, 0x33, 0xdb), Word(0xb3, 0x94, 0xfe, 0x08), Word(0x53, 0x43, 0x7b, 0x40), Word(0x1c, 0x9e, 0xae, 0x95)), w, 5);
    SboxIsTable(0xc2); SboxIsTable(0x64); SboxIsTable(0x33); SboxIsTable(0xdb);
    SboxIsTable(0xb3); SboxIsTable(0x94); SboxIsTable(0xfe); SboxIsTable(0x08);
    SboxIsTable(0x53); SboxIsTable(0x43); SboxIsTable(0x7b); SboxIsTable(0x40);
    SboxIsTable(0x1c); SboxIsTable(0x9e); SboxIsTable(0xae); SboxIsTable(0x95);
    RoundIs(State(Word(0xf3, 0xf9, 0xfd, 0xc0), Word(0xd5, 0x54, 0xe9, 0xa7), Word(0xe5, 0x67, 0x93, 0x38), Word(0x45, 0x3c, 0xbc, 0xe9)), w, 6);
    SboxIsTable(0xf3); SboxIsTable(0xf9); SboxIsTable(0xfd); SboxIsTable(0xc0);
    SboxIsTable(0xd5); SboxIsTable(0x54); SboxIsTable(0xe9); SboxIsTable(0xa7);
    SboxIsTable(0xe5); SboxIsTable(0x67); SboxIsTable(0x93); SboxIsTable(0x38);
    SboxIsTable(0x45); SboxIsTable(0x3c); SboxIsTable(0xbc); SboxIsTable(0xe9);
  }

  /** Rounds 7 to 9 of the cipher of X_1 xor M_2, the second step of the chain. */
  lemma Block2Rounds7(w: seq<byte>)
    requires HoldsRoundKeys(w)
    ensures Round(State(Word(0xd5, 0xa4, 0x0f, 0xad), Word(0x5c, 0x0c, 0xa7, 0x77), Word(0x5c, 0x4d, 0xf8, 0x36), Word(0xbf, 0x62, 0x51, 0xc6)), w, 7)
         == State(Word(0xa4, 0xc7, 0x4f, 0xc7), Word(0xb1, 0x35, 0x7d, 0x2e), Word(0x76, 0xcc, 0x47, 0x41), Word(0xdc, 0xdd, 0x2a, 0x48))
         && Round(State(Word(0xa4, 0xc7, 0x4f, 0xc7), Word(0xb1, 0x35, 0x7d, 0x2e), Word(0x76, 0xcc, 0x47, 0x41), Word(0xdc, 0xdd, 0x2a, 0x48)), w, 8)
         == State(Word(0x2b, 0x05, 0x01, 0x68), Word(0xc0, 0x21, 0xb9, 0xa8), Word(0xac, 0x2c, 0x4c, 0x0f), Word(0x45, 0x05, 0x12, 0x9a))
         && Round(State(Word(0x2b, 0x05, 0x01, 0x68), Word(0xc0, 0x21, 0xb9, 0xa8), Word(0xac, 0x2c, 0x4c, 0x0f), Word(0x45, 0x05, 0x12, 0x9a)), w, 9)
         == State(Word(0xd8, 0xa4, 0xeb, 0x44), Word(0x69, 0xa7, 0x51, 0xc6), Word(0x12, 0xd0, 0x76, 0x61), Word(0x16, 0x68, 0x33, 0x0d))
  {
    RoundIs(State(Word(0xd5, 0xa4, 0x0f, 0xad), Word(0x5c, 0x0c, 0xa7, 0x77), Word(0x5c, 0x4d, 0xf8, 0x36), Word(0xbf, 0x62, 0x51, 0xc6)), w, 7);
    SboxIsTable(0xd5); SboxIsTable(0xa4); SboxIsTable(0x0f); SboxIsTable(0xad);
    SboxIsTable(0x5c); SboxIsTable(0x0c); SboxIsTable(0xa7); SboxIsTable(0x77);
    SboxIsTable(0x5c); SboxIsTable(0x4d); SboxIsTable(0xf8); SboxIsTable(0x36);
    SboxIsTable(0xbf); SboxIsTable(0x62); SboxIsTable(0x51); SboxIsTable(0xc6);
    RoundIs(State(Word(0xa4, 0xc7, 0x4f, 0xc7), Word(0xb1, 0x35, 0x7d, 0x2e), Word(0x76, 0xcc, 0x47, 0x41), Word(0xdc, 0xdd, 0x2a, 0x48)), w, 8);
    SboxIsTable(0xa4); SboxIsTable(0xc7); SboxIsTable(0x4f); SboxIsTable(0xc7);
    SboxIsTable(0xb1); SboxIsTable(0x35); SboxIsTable(0x7d); SboxIsTable(0x2e);
    SboxIsTable(0x76); SboxIsTable(0xcc); SboxIsTable(0x47); SboxIsTable(0x41);
    SboxIsTable(0xdc); SboxIsTable(0xdd); SboxIsTable(0x2a); SboxIsTable(0x48);
    RoundIs(State(Word(0x2b, 0x05, 0x01, 0x68), Word(0xc0, 0x21, 0xb9, 0xa8), Word(0xac, 0x2c, 0x4c, 0x0f), Word(0x45, 0x05, 0x12, 0x9a)), w, 9);
    SboxIsTable(0x2b); SboxIsTable(0x05); SboxIsTable(0x01); SboxIsTable(0x68);
    SboxIsTable(0xc0); SboxIsTable(0x21); SboxIsTable(0xb9); SboxIsTable(0xa8);
    SboxIsTable(0xac); SboxIsTable(0x2c); SboxIsTable(0x4c); SboxIsTable(0x0f);
    SboxIsTable(0x45); SboxIsTable(0x05); SboxIsTable(0x12); SboxIsTable(0x9a);
  }

  /** The cipher of X_1 xor M_2, the second step of the chain: any block b that holds it encrypts to the
    * block after it. */
  lemma EncryptBlock2(b: seq<byte>, w: seq<byte>)
    requires |b| == BLOCK_BYTE_SIZE && HoldsRoundKeys(w)
    requires BlockAt(b, 0) == State(Word(0x94, 0xfa, 0xf1, 0xe3), Word(0x13, 0x79, 0x9a, 0xfc), Word(0x36, 0x29, 0xa5, 0x5f), Word(0x61, 0xc9, 0x61, 0xc6))
    ensures Encrypt(b, w)
         == [0xb1, 0x48, 0xc1, 0x7f, 0x30, 0x9e, 0xe6, 0x92, 0x28, 0x7a, 0xe5, 0x7c, 0xf1, 0x2a, 0xdd, 0x49]
  {
    var s0 := State(Word(0xbf, 0x84, 0xe4, 0xf5), Word(0x3b, 0xd7, 0x48, 0x5a), Word(0x9d, 0xde, 0xb0, 0xd7), Word(0x68, 0x06, 0x2e, 0xfa));
    Block2Rounds1(w); Block2Rounds4(w); Block2Rounds7(w);
    assert Rounds(s0, w, 1) == State(Word(0x68, 0xf1, 0x5a, 0xbc), Word(0xa7, 0x39, 0x80, 0x77), Word(0xf9, 0x26, 0x03, 0xba), Word(0x1d, 0x6f, 0xda, 0xdb));
    assert Rounds(s0, w, 2) == State(Word(0x8c, 0x97, 0xe4, 0x3d), Word(0xf2, 0xa3, 0x13, 0xcd), Word(0xd8, 0xcb, 0xd2, 0x2d), Word(0xe1, 0x1c, 0x75, 0x17));
    assert Rounds(s0, w, 3) == State(Word(0xae, 0xc4, 0x53, 0x95), Word(0xd5, 0x3a, 0x20, 0x72), Word(0xb7, 0x67, 0x8d, 0x73), Word(0xa0, 0xd6, 0x71, 0x76));
    assert Rounds(s0, w, 4) == State(Word(0xc2, 0x64, 0x33, 0xdb), Word(0xb3, 0x94, 0xfe, 0x08), Word(0x53, 0x43, 0x7b, 0x40), Word(0x1c, 0x9e, 0xae, 0x95));
    assert Rounds(s0, w, 5) == State(Word(0xf3, 0xf9, 0xfd, 0xc0), Word(0xd5, 0x54, 0xe9, 0xa7), Word(0xe5, 0x67, 0x93, 0x38), Word(0x45, 0x3c, 0xbc, 0xe9));
    assert Rounds(s0, w, 6) == State(Word(0xd5, 0xa4, 0x0f, 0xad), Word(0x5c, 0x0c, 0xa7, 0x77), Word(0x5c, 0x4d, 0xf8, 0x36), Word(0xbf, 0x62, 0x51, 0xc6));
    assert Rounds(s0, w, 7) == State(Word(0xa4, 0xc7, 0x4f, 0xc7), Word(0xb1, 0x35, 0x7d, 0x2e), Word(0x76, 0xcc, 0x47, 0x41), Word(0xdc, 0xdd, 0x2a, 0x48));
    assert Rounds(s0, w, 8) == State(Word(0x2b, 0x05, 0x01, 0x68), Word(0xc0, 0x21, 0xb9, 0xa8), Word(0xac, 0x2c, 0x4c, 0x0f), Word(0x45, 0x05, 0x12, 0x9a));
    assert Rounds(s0, w, 9) == State(Word(0xd8, 0xa4, 0xeb, 0x44), Word(0x69, 0xa7, 0x51, 0xc6), Word(0x12, 0xd0, 0x76, 0x61), Word(0x16, 0x68, 0x33, 0x0d));
    SboxIsTable(0xd8); SboxIsTable(0xa4); SboxIsTable(0xeb); SboxIsTable(0x44);
    SboxIsTable(0x69); SboxIsTable(0xa7); SboxIsTable(0x51); SboxIsTable(0xc6);
    SboxIsTable(0x12); SboxIsTable(0xd0); SboxIsTable(0x76); SboxIsTable(0x61);
    SboxIsTable(0x16); SboxIsTable(0x68); SboxIsTable(0x33); SboxIsTable(0x0d);
    CipherOfStates(b, w, s0, State(Word(0xd8, 0xa4, 0xeb, 0x44), Word(0x69, 0xa7, 0x51, 0xc6), Word(0x12, 0xd0, 0x76, 0x61), Word(0x16, 0x68, 0x33, 0x0d)));
  }

  /** Rounds 1 to 3 of the cipher of X_2 xor the last block of the 40-byte message: the padded third block xor K2. */
  lemma Last40Rounds1(w: seq<byte>)
    requires HoldsRoundKeys(w)
    ensures Round(State(Word(0x5d, 0x23, 0x64, 0x1f), Word(0xd1, 0x8e, 0xb6, 0xe9), Word(0xfa, 0x86, 0x31, 0xea), Word(0x1c, 0x88, 0xc3, 0x4e)), w, 1)
         == State(Word(0xfb, 0xf9, 0x4f, 0x43), Word(0xd6, 0x50, 0x51, 0x02), Word(0x73, 0xc6, 0x74, 0xf5), Word(0xaa, 0xe9, 0xc2, 0xc7))
         && Round(State(Word(0xfb, 0xf9, 0x4f, 0x43), Word(0xd6, 0x50, 0x51, 0x02), Word(0x73, 0xc6, 0x74, 0xf5), Word(0xaa, 0xe9, 0xc2, 0xc7)), w, 2)
         == State(Word(0x4d, 0x00, 0xa7, 0xb5), Word(0x75, 0x66, 0x9f, 0xe7), Word(0x8d, 0x66, 0x9b, 0x84), Word(0xb7, 0x52, 0x4b, 0x0f))
         && Round(State(Word(0x4d, 0x00, 0xa7, 0xb5), Word(0x75, 0x66, 0x9f, 0xe7), Word(0x8d, 0x66, 0x9b, 0x84), Word(0xb7, 0x52, 0x4b, 0x0f)), w, 3)
         == State(Word(0xd7, 0x4f, 0x25, 0x88), Word(0x55, 0xf6, 0x49, 0xb3), Word(0x6c, 0x0e, 0x3c, 0xcc), Word(0x05, 0x3c, 0x0e, 0xdd))
  {
    RoundIs(State(Word(0x5d, 0x23, 0x64, 0x1f), Word(0xd1, 0x8e, 0xb6, 0xe9), Word(0xfa, 0x86, 0x31, 0xea), Word(0x1c, 0x88, 0xc3, 0x4e)), w, 1);
    SboxIsTable(0x5d); SboxIsTable(0x23); SboxIsTable(0x64); SboxIsTable(0x1f);
    SboxIsTable(0xd1); SboxIsTable(0x8e); SboxIsTable(0xb6); SboxIsTable(0xe9);
    SboxIsTable(0xfa); SboxIsTable(0x86); SboxIsTable(0x31); SboxIsTable(0xea);
    SboxIsTable(0x1c); SboxIsTable(0x88); SboxIsTable(0xc3); SboxIsTable(0x4e);
    RoundIs(State(Word(0xfb, 0xf9, 0x4f, 0x43), Word(0xd6, 0x50, 0x51, 0x02), Word(0x73, 0xc6, 0x74, 0xf5), Word(0xaa, 0xe9, 0xc2, 0xc7)), w, 2);
    SboxIsTable(0xfb); SboxIsTable(0xf9); SboxIsTable(0x4f); SboxIsTable(0x43);
    SboxIsTable(0xd6); SboxIsTable(0x50); SboxIsTable(0x51); SboxIsTable(0x02);
    SboxIsTable(0x73); SboxIsTable(0xc6); SboxIsTable(0x74); SboxIsTable(0xf5);
    SboxIsTable(0xaa); SboxIsTable(0xe9); SboxIsTable(0xc2); SboxIsTable(0xc7);
    RoundIs(State(Word(0x4d, 0x00, 0xa7, 0xb5), Word(0x75, 0x66, 0x9f, 0xe7), Word(0x8d, 0x66, 0x9b, 0x84), Word(0xb7, 0x52, 0x4b, 0x0f)), w, 3);
    SboxIsTable(0x4d); SboxIsTable(0x00); SboxIsTable(0xa7); SboxIsTable(0xb5);
    SboxIsTable(0x75); SboxIsTable(0x66); SboxIsTable(0x9f); SboxIsTable(0xe7);
    SboxIsTable(0x8d); SboxIsTable(0x66); SboxIsTable(0x9b); SboxIsTable(0x84);
    SboxIsTable(0xb7); SboxIsTable(0x52); SboxIsTable(0x4b); SboxIsTable(0x0f);
  }

  /** Rounds 4 to 6 of the cipher of X_2 xor the last block of the 40-byte message: the padded third block xor K2. */
  lemma Last40Rounds4(w: seq<byte>)
    requires HoldsRoundKeys(w)
    ensures Round(State(Word(0xd7, 0x4f, 0x25, 0x88), Word(0x55, 0xf6, 0x49, 0xb3), Word(0x6c, 0x0e, 0x3c, 0xcc), Word(0x05, 0x3c, 0x0e, 0xdd)), w, 4)
         == State(Word(0x1f, 0x29, 0x7c, 0x63), Word(0xc2, 0xc1, 0x16, 0xf3), Word(0x62, 0xc0, 0x57, 0xc5), Word(0xea, 0x75, 0xe9, 0x94))
         && Round(State(Word(0x1f, 0x29, 0x7c, 0x63), Word(0xc2, 0xc1, 0x16, 0xf3), Word(0x62, 0xc0, 0x57, 0xc5), Word(0xea, 0x75, 0xe9, 0x94)), w, 5)
         == State(Word(0xbe, 0x2e, 0xae, 0xc4), Word(0x06, 0x10, 0x28, 0xa1), Word(0x24, 0x44, 0xb8, 0xce), Word(0x11, 0x40, 0x48, 0x9b))
         && Round(State(Word(0xbe, 0x2e, 0xae, 0xc4), Word(0x06, 0x10, 0x28, 0xa1), Word(0x24, 0x44, 0xb8, 0xce), Word(0x11, 0x40, 0x48, 0x9b)), w, 6)
         == State(Word(0x17, 0x09, 0x23, 0x1d), Word(0xac, 0xb8, 0xca, 0x3d), Word(0x7a, 0xd8, 0x3c, 0x92), Word(0x39, 0x37, 0xce, 0x68))
  {
    RoundIs(State(Word(0xd7, 0x4f, 0x25, 0x88), Word(0x55, 0xf6, 0x49, 0xb3), Word(0x6c, 0x0e, 0x3c, 0xcc), Word(0x05, 0x3c, 0x0e, 0xdd)), w, 4);
    SboxIsTable(0xd7); SboxIsTable(0x4f); SboxIsTable(0x25); SboxIsTable(0x88);
    SboxIsTable(0x55); SboxIsTable(0xf6); SboxIsTable(0x49); SboxIsTable(0xb3);
    SboxIsTable(0x6c); SboxIsTable(0x0e); SboxIsTable(0x3c); SboxIsTable(0xcc);
    SboxIsTable(0x05); SboxIsTable(0x3c); SboxIsTable(0x0e); SboxIsTable(0xdd);
    RoundIs(State(Word(0x1f, 0x29, 0x7c, 0x63), Word(0xc2, 0xc1, 0x16, 0xf3), Word(0x62, 0xc0, 0x57, 0xc5), Word(0xea, 0x75, 0xe9, 0x94)), w, 5);
    SboxIsTable(0x1f); SboxIsTable(0x29); SboxIsTable(0x7c); SboxIsTable(0x63);
    SboxIsTable(0xc2); SboxIsTable(0xc1); SboxIsTable(0x16); SboxIsTable(0xf3);
    SboxIsTable(0x62); SboxIsTable(0xc0); SboxIsTable(0x57); SboxIsTable(0xc5);
    SboxIsTable(0xea); SboxIsTable(0x75); SboxIsTable(0xe9); SboxIsTable(0x94);
    RoundIs(State(Word(0xbe, 0x2e, 0xae, 0xc4), Word(0x06, 0x10, 0x28, 0xa1), Word(0x24, 0x44, 0xb8, 0xce), Word(0x11, 0x40, 0x48, 0x9b)), w, 6);
    SboxIsTable(0xbe); SboxIsTable(0x2e); SboxIsTable(0xae); SboxIsTable(0xc4);
    SboxIsTable(0x06); SboxIsTable(0x10); SboxIsTable(0x28); SboxIsTable(0xa1);
    SboxIsTable(0x24); SboxIsTable(0x44); SboxIsTable(0xb8); SboxIsTable(0xce);
    SboxIsTable(0x11); SboxIsTable(0x40); SboxIsTable(0x48); SboxIsTable(0x9b);
  }

  /** Rounds 7 to 9 of the cipher of X_2 xor the last block of the 40-byte message: the padded third block xor K2. */
  lemma Last40Rounds7(w: seq<byte>)
    requires HoldsRoundKeys(w)
    ensures Round(State(Word(0x17, 0x09, 0x23, 0x1d), Word(0xac, 0xb8, 0xca, 0x3d), Word(0x7a, 0xd8, 0x3c, 0x92), Word(0x39, 0x37, 0xce, 0x68)), w, 7)
         == State(Word(0xaf, 0x1f, 0x69, 0x08), Word(0xea, 0x2e, 0xc3, 0xe2), Word(0x9f, 0x1e, 0x2a, 0x35), Word(0x52, 0x65, 0xf6, 0x92))
         && Round(State(Word(0xaf, 0x1f, 0x69, 0x08), Word(0xea, 0x2e, 0xc3, 0xe2), Word(0x9f, 0x1e, 0x2a, 0x35), Word(0x52, 0x65, 0xf6, 0x92)), w, 8)
         == State(Word(0xe1, 0xb2, 0x3b, 0xe0), Word(0x44, 0x18, 0x9b, 0x10), Word(0x2a, 0xe2, 0x39, 0x89), Word(0x9c, 0xf2, 0x14, 0xf6))
         && Round(State(Word(0xe1, 0xb2, 0x3b, 0xe0), Word(0x44, 0x18, 0x9b, 0x10), Word(0x2a, 0xe2, 0x39, 0x89), Word(0x9c, 0xf2, 0x14, 0xf6)), w, 9)
         == State(Word(0xfb, 0xba, 0xd1, 0xdb), Word(0x87, 0x3e, 0x88, 0xb7), Word(0x51, 0xca, 0xdf, 0x91), Word(0x1a, 0x77, 0x33, 0x61))
  {
    RoundIs(State(Word(0x17, 0x09, 0x23, 0x1d), Word(0xac, 0xb8, 0xca, 0x3d), Word(0x7a, 0xd8, 0x3c, 0x92), Word(0x39, 0x37, 0xce, 0x68)), w, 7);
    SboxIsTable(0x17); SboxIsTable(0x09); SboxIsTable(0x23); SboxIsTable(0x1d);
    SboxIsTable(0xac); SboxIsTable(0xb8); SboxIsTable(0xca); SboxIsTable(0x3d);
    SboxIsTable(0x7a); SboxIsTable(0xd8); SboxIsTable(0x3c); SboxIsTable(0x92);
    SboxIsTable(0x39); SboxIsTable(0x37); SboxIsTable(0xce); SboxIsTable(0x68);
    RoundIs(State(Word(0xaf, 0x1f, 0x69, 0x08), Word(0xea, 0x2e, 0xc3, 0xe2), Word(0x9f, 0x1e, 0x2a, 0x35), Word(0x52, 0x65, 0xf6, 0x92)), w, 8);
    SboxIsTable(0xaf); SboxIsTable(0x1f); SboxIsTable(0x69); SboxIsTable(0x08);
    SboxIsTable(0xea); SboxIsTable(0x2e); SboxIsTable(0xc3); SboxIsTable(0xe2);
    SboxIsTable(0x9f); SboxIsTable(0x1e); SboxIsTable(0x2a); SboxIsTable(0x35);
    SboxIsTable(0x52); SboxIsTable(0x65); SboxIsTable(0xf6); SboxIsTable(0x92);
    RoundIs(State(Word(0xe1, 0xb2, 0x3b, 0xe0), Word(0x44, 0x18, 0x9b, 0x10), Word(0x2a, 0xe2, 0x39, 0x89), Word(0x9c, 0xf2, 0x14, 0xf6)), w, 9);
    SboxIsTable(0xe1); SboxIsTable(0xb2); SboxIsTable(0x3b); SboxIsTable(0xe0);
    SboxIsTable(0x44); SboxIsTable(0x18); SboxIsTable(0x9b); SboxIsTable(0x10);
    SboxIsTable(0x2a); SboxIsTable(0xe2); SboxIsTable(0x39); SboxIsTable(0x89);
    SboxIsTable(0x9c); SboxIsTable(0xf2); SboxIsTable(0x14); SboxIsTable(0xf6);
  }

  /** The cipher of X_2 xor the last block of the 40-byte message: the padded third block xor K2: any block b that holds it encrypts to the
    * block after it. */
  lemma EncryptLast40(b: seq<byte>, w: seq<byte>)
    requires |b| == BLOCK_BYTE_SIZE && HoldsRoundKeys(w)
    requires BlockAt(b, 0) == State(Word(0x76, 0x5d, 0x71, 0x09), Word(0xf9, 0x20, 0x64, 0x4f), Word(0x51, 0x71, 0x24, 0x62), Word(0x15, 0x47, 0x8c, 0x72))
    ensures Encrypt(b, w)
         == [0xdf, 0xa6, 0x67, 0x47, 0xde, 0x9a, 0xe6, 0x30, 0x30, 0xca, 0x32, 0x61, 0x14, 0x97, 0xc8, 0x27]
  {
    var s0 := State(Word(0x5d, 0x23, 0x64, 0x1f), Word(0xd1, 0x8e, 0xb6, 0xe9), Word(0xfa, 0x86, 0x31, 0xea), Word(0x1c, 0x88, 0xc3, 0x4e));
    Last40Rounds1(w); Last40Rounds4(w); Last40Rounds7(w);
    assert Rounds(s0, w, 1) == State(Word(0xfb, 0xf9, 0x4f, 0x43), Word(0xd6, 0x50, 0x51, 0x02), Word(0x73, 0xc6, 0x74, 0xf5), Word(0xaa, 0xe9, 0xc2, 0xc7));
    assert Rounds(s0, w, 2) == State(Word(0x4d, 0x00, 0xa7, 0xb5), Word(0x75, 0x66, 0x9f, 0xe7), Word(0x8d, 0x66, 0x9b, 0x84), Word(0xb7, 0x52, 0x4b, 0x0f));
    assert Rounds(s0, w, 3) == State(Word(0xd7, 0x4f, 0x25, 0x88), Word(0x55, 0xf6, 0x49, 0xb3), Word(0x6c, 0x0e, 0x3c, 0xcc), Word(0x05, 0x3c, 0x0e, 0xdd));
    assert Rounds(s0, w, 4) == State(Word(0x1f, 0x29, 0x7c, 0x63), Word(0xc2, 0xc1, 0x16, 0xf3), Word(0x62, 0xc0, 0x57, 0xc5), Word(0xea, 0x75, 0xe9, 0x94));
    assert Rounds(s0, w, 5) == State(Word(0xbe, 0x2e, 0xae, 0xc4), Word(0x06, 0x10, 0x28, 0xa1), Word(0x24, 0x44, 0xb8, 0xce), Word(0x11, 0x40, 0x48, 0x9b));
    assert Rounds(s0, w, 6) == State(Word(0x17, 0x09, 0x23, 0x1d), Word(0xac, 0xb8, 0xca, 0x3d), Word(0x7a, 0xd8, 0x3c, 0x92), Word(0x39, 0x37, 0xce, 0x68));
    assert Rounds(s0, w, 7) == State(Word(0xaf, 0x1f, 0x69, 0x08), Word(0xea, 0x2e, 0xc3, 0xe2), Word(0x9f, 0x1e, 0x2a, 0x35), Word(0x52, 0x65, 0xf6, 0x92));
    assert Rounds(s0, w, 8) == State(Word(0xe1, 0xb2, 0x3b, 0xe0), Word(0x44, 0x18, 0x9b, 0x10), Word(0x2a, 0xe2, 0x39, 0x89), Word(0x9c, 0xf2, 0x14, 0xf6));
    assert Rounds(s0, w, 9) == State(Word(0xfb, 0xba, 0xd1, 0xdb), Word(0x87, 0x3e, 0x88, 0xb7), Word(0x51, 0xca, 0xdf, 0x91), Word(0x1a, 0x77, 0x33, 0x61));
    SboxIsTable(0xfb); SboxIsTable(0xba); SboxIsTable(0xd1); SboxIsTable(0xdb);
    SboxIsTable(0x87); SboxIsTable(0x3e); SboxIsTable(0x88); SboxIsTable(0xb7);
    SboxIsTable(0x51); SboxIsTable(0xca); SboxIsTable(0xdf); SboxIsTable(0x91);
    SboxIsTable(0x1a); SboxIsTable(0x77); SboxIsTable(0x33); SboxIsTable(0x61);
    CipherOfStates(b, w, s0, State(Word(0xfb, 0xba, 0xd1, 0xdb), Word(0x87, 0x3e, 0x88, 0xb7), Word(0x51, 0xca, 0xdf, 0x91), Word(0x1a, 0x77, 0x33, 0x61)));
  }

  /** Rounds 1 to 3 of the cipher of X_2 xor M_3, the third step of the chain. */
  lemma Block3Rounds1(w: seq<byte>)
    requires HoldsRoundKeys(w)
    ensures Round(State(Word(0xaa, 0xfe, 0xc8, 0x2f), Word(0xbb, 0x6c, 0xd0, 0x25), Word(0x66, 0x76, 0x31, 0xed), Word(0xe2, 0xef, 0xc0, 0x9a)), w, 1)
         == State(Word(0x6c, 0x1c, 0x44, 0x04), Word(0xa0, 0x0e, 0xae, 0x3c), Word(0xe8, 0x29, 0x5f, 0x25), Word(0xf2, 0x5c, 0x4a, 0xd7))
         && Round(State(Word(0x6c, 0x1c, 0x44, 0x04), Word(0xa0, 0x0e, 0xae, 0x3c), Word(0xe8, 0x29, 0x5f, 0x25), Word(0xf2, 0x5c, 0x4a, 0xd7)), w, 2)
         == State(Word(0x75, 0x9b, 0xf9, 0x7a), Word(0x71, 0xb4, 0x46, 0xf4), Word(0x5a, 0xfc, 0x41, 0x50), Word(0x1e, 0xfb, 0x71, 0xf9))
         && Round(State(Word(0x75, 0x9b, 0xf9, 0x7a), Word(0x71, 0xb4, 0x46, 0xf4), Word(0x5a, 0xfc, 0x41, 0x50), Word(0x1e, 0xfb, 0x71, 0xf9)), w, 3)
         == State(Word(0x8a, 0x1b, 0xfa, 0xe6), Word(0xa8, 0xea, 0xc5, 0x7c), Word(0x4e, 0x8c, 0x3c, 0x6e), Word(0xbc, 0x9d, 0xaf, 0x45))
  {
    RoundIs(State(Word(0xaa, 0xfe, 0xc8, 0x2f), Word(0xbb, 0x6c, 0xd0, 0x25), Word(0x66, 0x76, 0x31, 0xed), Word(0xe2, 0xef, 0xc0, 0x9a)), w, 1);
    SboxIsTable(0xaa); SboxIsTable(0xfe); SboxIsTable(0xc8); SboxIsTable(0x2f);
    SboxIsTable(0xbb); SboxIsTable(0x6c); SboxIsTable(0xd0); SboxIsTable(0x25);
    SboxIsTable(0x66); SboxIsTable(0x76); SboxIsTable(0x31); SboxIsTable(0xed);
    SboxIsTable(0xe2); SboxIsTable(0xef); SboxIsTable(0xc0); SboxIsTable(0x9a);
    RoundIs(State(Word(0x6c, 0x1c, 0x44, 0x04), Word(0xa0, 0x0e, 0xae, 0x3c), Word(0xe8, 0x29, 0x5f, 0x25), Word(0xf2, 0x5c, 0x4a, 0xd7)), w, 2);
    SboxIsTable(0x6c); SboxIsTable(0x1c); SboxIsTable(0x44); SboxIsTable(0x04);
    SboxIsTable(0xa0); SboxIsTable(0x0e); SboxIsTable(0xae); SboxIsTable(0x3c);
    SboxIsTable(0xe8); SboxIsTable(0x29); SboxIsTable(0x5f); SboxIsTable(0x25);
    SboxIsTable(0xf2); SboxIsTable(0x5c); SboxIsTable(0x4a); SboxIsTable(0xd7);
    RoundIs(State(Word(0x75, 0x9b, 0xf9, 0x7a), Word(0x71, 0xb4, 0x46, 0xf4), Word(0x5a, 0xfc, 0x41, 0x50), Word(0x1e, 0xfb, 0x71, 0xf9)), w, 3);
    SboxIsTable(0x75); SboxIsTable(0x9b); SboxIsTable(0xf9); SboxIsTable(0x7a);
    SboxIsTable(0x71); SboxIsTable(0xb4); SboxIsTable(0x46); SboxIsTable(0xf4);
    SboxIsTable(0x5a); SboxIsTable(0xfc); SboxIsTable(0x41); SboxIsTable(0x50);
    SboxIsTable(0x1e); SboxIsTable(0xfb); SboxIsTable(0x71); SboxIsTable(0xf9);
  }

  /** Rounds 4 to 6 of the cipher of X_2 xor M_3, the third step of the chain. */
  lemma Block3Rounds4(w: seq<byte>)
    requires HoldsRoundKeys(w)
    ensures Round(State(Word(0x8a, 0x1b, 0xfa, 0xe6), Word(0xa8, 0xea, 0xc5, 0x7c), Word(0x4e, 0x8c, 0x3c, 0x6e), Word(0xbc, 0x9d, 0xaf, 0x45)), w, 4)
         == State(Word(0x04, 0x67, 0x23, 0x73), Word(0x6c, 0x5d, 0x86, 0x38), Word(0x37, 0x85, 0x3e, 0x19), Word(0xc2, 0x45, 0x8a, 0x83))
         && Round(State(Word(0x04, 0x67, 0x23, 0x73), Word(0x6c, 0x5d, 0x86, 0x38), Word(0x37, 0x85, 0x3e, 0x19), Word(0xc2, 0x45, 0x8a, 0x83)), w, 5)
         == State(Word(0xa1, 0x9a, 0x28, 0xc8), Word(0x8f, 0xeb, 0x2c, 0x9b), Word(0x76, 0xd9, 0x09, 0x4f), Word(0x5f, 0xd5, 0x5a, 0xa1))
         && Round(State(Word(0xa1, 0x9a, 0x28, 0xc8), Word(0x8f, 0xeb, 0x2c, 0x9b), Word(0x76, 0xd9, 0x09, 0x4f), Word(0x5f, 0xd5, 0x5a, 0xa1)), w, 6)
         == State(Word(0x1a, 0x42, 0x2c, 0xa0), Word(0xfe, 0x23, 0x3c, 0x28), Word(0x8e, 0x8f, 0xe9, 0x16), Word(0x69, 0xb3, 0x91, 0x6d))
  {
    RoundIs(State(Word(0x8a, 0x1b, 0xfa, 0xe6), Word(0xa8, 0xea, 0xc5, 0x7c), Word(0x4e, 0x8c, 0x3c, 0x6e), Word(0xbc, 0x9d, 0xaf, 0x45)), w, 4);
    SboxIsTable(0x8a); SboxIsTable(0x1b); SboxIsTable(0xfa); SboxIsTable(0xe6);
    SboxIsTable(0xa8); SboxIsTable(0xea); SboxIsTable(0xc5); SboxIsTable(0x7c);
    SboxIsTable(0x4e); SboxIsTable(0x8c); SboxIsTable(0x3c); SboxIsTable(0x6e);
    SboxIsTable(0xbc); SboxIsTable(0x9d); SboxIsTable(0xaf); SboxIsTable(0x45);
    RoundIs(State(Word(0x04, 0x67, 0x23, 0x73), Word(0x6c, 0x5d, 0x86, 0x38), Word(0x37, 0x85, 0x3e, 0x19), Word(0xc2, 0x45, 0x8a, 0x83)), w, 5);
    SboxIsTable(0x04); SboxIsTable(0x67); SboxIsTable(0x23); SboxIsTable(0x73);
    SboxIsTable(0x6c); SboxIsTable(0x5d); SboxIsTable(0x86); SboxIsTable(0x38);
    SboxIsTable(0x37); SboxIsTable(0x85); SboxIsTable(0x3e); SboxIsTable(0x19);
    SboxIsTable(0xc2); SboxIsTable(0x45); SboxIsTable(0x8a); SboxIsTable(0x83);
    RoundIs(State(Word(0xa1, 0x9a, 0x28, 0xc8), Word(0x8f, 0xeb, 0x2c, 0x9b), Word(0x76, 0xd9, 0x09, 0x4f), Word(0x5f, 0xd5, 0x5a, 0xa1)), w, 6);
    SboxIsTable(0xa1); SboxIsTable(0x9a); SboxIsTable(0x28); SboxIsTable(0xc8);
    SboxIsTable(0x8f); SboxIsTable(0xeb); SboxIsTable(0x2c); SboxIsTable(0x9b);
    SboxIsTable(0x76); SboxIsTable(0xd9); SboxIsTable(0x09); SboxIsTable(0x4f);
    SboxIsTable(0x5f); SboxIsTable(0xd5); SboxIsTable(0x5a); SboxIsTable(0xa1);
  }

  /** Rounds 7 to 9 of the cipher of X_2 xor M_3, the third step of the chain. */
  lemma Block3Rounds7(w: seq<byte>)
    requires HoldsRoundKeys(w)
    ensures Round(State(Word(0x1a, 0x42, 0x2c, 0xa0), Word(0xfe, 0x23, 0x3c, 0x28), Word(0x8e, 0x8f, 0xe9, 0x16), Word(0x69, 0xb3, 0x91, 0x6d)), w, 7)
         == State(Word(0x59, 0xa4, 0x0b, 0xb3), Word(0xc6, 0x7a, 0x23, 0x0c), Word(0x44, 0xc2, 0x85, 0xed), Word(0x7f, 0x66, 0x0d, 0x16))
         && Round(State(Word(0x59, 0xa4, 0x0b, 0xb3), Word(0xc6, 0x7a, 0x23, 0x0c), Word(0x44, 0xc2, 0x85, 0xed), Word(0x7f, 0x66, 0x0d, 0x16)), w, 8)
         == State(Word(0xc2, 0x53, 0x9e, 0xa4), Word(0x13, 0x7c, 0x29, 0x3d), Word(0x87, 0xd5, 0x92, 0xb2), Word(0x68, 0xf2, 0x01, 0x87))
         && Round(State(Word(0xc2, 0x53, 0x9e, 0xa4), Word(0x13, 0x7c, 0x29, 0x3d), Word(0x87, 0xd5, 0x92, 0xb2), Word(0x68, 0xf2, 0x01, 0x87)), w, 9)
         == State(Word(0x8e, 0xb4, 0xf4, 0xed), Word(0xd3, 0x4c, 0x81, 0x4b), Word(0xaa, 0xf5, 0xc8, 0xb4), Word(0x63, 0x1b, 0xa0, 0x87))
  {
    RoundIs(State(Word(0x1a, 0x42, 0x2c, 0xa0), Word(0xfe, 0x23, 0x3c, 0x28), Word(0x8e, 0x8f, 0xe9, 0x16), Word(0x69, 0xb3, 0x91, 0x6d)), w, 7);
    SboxIsTable(0x1a); SboxIsTable(0x42); SboxIsTable(0x2c); SboxIsTable(0xa0);
    SboxIsTable(0xfe); SboxIsTable(0x23); SboxIsTable(0x3c); SboxIsTable(0x28);
    SboxIsTable(0x8e); SboxIsTable(0x8f); SboxIsTable(0xe9); SboxIsTable(0x16);
    SboxIsTable(0x69); SboxIsTable(0xb3); SboxIsTable(0x91); SboxIsTable(0x6d);
    RoundIs(State(Word(0x59, 0xa4, 0x0b, 0xb3), Word(0xc6, 0x7a, 0x23, 0x0c), Word(0x44, 0xc2, 0x85, 0xed), Word(0x7f, 0x66, 0x0d, 0x16)), w, 8);
    SboxIsTable(0x59); SboxIsTable(0xa4); SboxIsTable(0x0b); SboxIsTable(0xb3);
    SboxIsTable(0xc6); SboxIsTable(0x7a); SboxIsTable(0x23); SboxIsTable(0x0c);
    SboxIsTable(0x44); SboxIsTable(0xc2); SboxIsTable(0x85); SboxIsTable(0xed);
    SboxIsTable(0x7f); SboxIsTable(0x66); SboxIsTable(0x0d); SboxIsTable(0x16);
    RoundIs(State(Word(0xc2, 0x53, 0x9e, 0xa4), Word(0x13, 0x7c, 0x29, 0x3d), Word(0x87, 0xd5, 0x92, 0xb2), Word(0x68, 0xf2, 0x01, 0x87)), w, 9);
    SboxIsTable(0xc2); SboxIsTable(0x53); SboxIsTable(0x9e); SboxIsTable(0xa4);
    SboxIsTable(0x13); SboxIsTable(0x7c); SboxIsTable(0x29); SboxIsTable(0x3d);
    SboxIsTable(0x87); SboxIsTable(0xd5); SboxIsTable(0x92); SboxIsTable(0xb2);
    SboxIsTable(0x68); SboxIsTable(0xf2); SboxIsTable(0x01); SboxIsTable(0x87);
  }

  /** The cipher of X_2 xor M_3, the third step of the chain: any block b that holds it encrypts to the
    * block after it. */
  lemma EncryptBlock3(b: seq<byte>, w: seq<byte>)
    requires |b| == BLOCK_BYTE_SIZE && HoldsRoundKeys(w)
    requires BlockAt(b, 0) == State(Word(0x81, 0x80, 0xdd, 0x39), Word(0x93, 0xc2, 0x02, 0x83), Word(0xcd, 0x81, 0x24, 0x65), Word(0xeb, 0x20, 0x8f, 0xa6))
    ensures Encrypt(b, w)
         == [0xc9, 0x3d, 0x11, 0xbf, 0xaf, 0x08, 0xc5, 0xdc, 0x4d, 0x90, 0xb3, 0x7b, 0x4d, 0xee, 0x00, 0x2b]
  {
    var s0 := State(Word(0xaa, 0xfe, 0xc8, 0x2f), Word(0xbb, 0x6c, 0xd0, 0x25), Word(0x66, 0x76, 0x31, 0xed), Word(0xe2, 0xef, 0xc0, 0x9a));
    Block3Rounds1(w); Block3Rounds4(w); Block3Rounds7(w);
    assert Rounds(s0, w, 1) == State(Word(0x6c, 0x1c, 0x44, 0x04), Word(0xa0, 0x0e, 0xae, 0x3c), Word(0xe8, 0x29, 0x5f, 0x25), Word(0xf2, 0x5c, 0x4a, 0xd7));
    assert Rounds(s0, w, 2) == State(Word(0x75, 0x9b, 0xf9, 0x7a), Word(0x71, 0xb4, 0x46, 0xf4), Word(0x5a, 0xfc, 0x41, 0x50), Word(0x1e, 0xfb, 0x71, 0xf9));
    assert Rounds(s0, w, 3) == State(Word(0x8a, 0x1b, 0xfa, 0xe6), Word(0xa8, 0xea, 0xc5, 0x7c), Word(0x4e, 0x8c, 0x3c, 0x6e), Word(0xbc, 0x9d, 0xaf, 0x45));
    assert Rounds(s0, w, 4) == State(Word(0x04, 0x67, 0x23, 0x73), Word(0x6c, 0x5d, 0x86, 0x38), Word(0x37, 0x85, 0x3e, 0x19), Word(0xc2, 0x45, 0x8a, 0x83));
    assert Rounds(s0, w, 5) == State(Word(0xa1, 0x9a, 0x28, 0xc8), Word(0x8f, 0xeb, 0x2c, 0x9b), Word(0x76, 0xd9, 0x09, 0x4f), Word(0x5f, 0xd5, 0x5a, 0xa1));
    assert Rounds(s0, w, 6) == State(Word(0x1a, 0x42, 0x2c, 0xa0), Word(0xfe, 0x23, 0x3c, 0x28), Word(0x8e, 0x8f, 0xe9, 0x16), Word(0x69, 0xb3, 0x91, 0x6d));
    assert Rounds(s0, w, 7) == State(Word(0x59, 0xa4, 0x0b, 0xb3), Word(0xc6, 0x7a, 0x23, 0x0c), Word(0x44, 0xc2, 0x85, 0xed), Word(0x7f, 0x66, 0x0d, 0x16));
    assert Rounds(s0, w, 8) == State(Word(0xc2, 0x53, 0x9e, 0xa4), Word(0x13, 0x7c, 0x29, 0x3d), Word(0x87, 0xd5, 0x92, 0xb2), Word(0x68, 0xf2, 0x01, 0x87));
    assert Rounds(s0, w, 9) == State(Word(0x8e, 0xb4, 0xf4, 0xed), Word(0xd3, 0x4c, 0x81, 0x4b), Word(0xaa, 0xf5, 0xc8, 0xb4), Word(0x63, 0x1b, 0xa0, 0x87));
    SboxIsTable(0x8e); SboxIsTable(0xb4); SboxIsTable(0xf4); SboxIsTable(0xed);
    SboxIsTable(0xd3); SboxIsTable(0x4c); SboxIsTable(0x81); SboxIsTable(0x4b);
    SboxIsTable(0xaa); SboxIsTable(0xf5); SboxIsTable(0xc8); SboxIsTable(0xb4);
    SboxIsTable(0x63); SboxIsTable(0x1b); SboxIsTable(0xa0); SboxIsTable(0x87);
    CipherOfStates(b, w, s0, State(Word(0x8e, 0xb4, 0xf4, 0xed), Word(0xd3, 0x4c, 0x81, 0x4b), Word(0xaa, 0xf5, 0xc8, 0xb4), Word(0x63, 0x1b, 0xa0, 0x87)));
  }

  /** Rounds 1 to 3 of the cipher of X_3 xor the last block of the 64-byte message: M_4 xor K1. */
  lemma Last64Rounds1(w: seq<byte>)
    requires HoldsRoundKeys(w)
    ensures Round(State(Word(0xef, 0x32, 0xf6, 0xf4), Word(0x6d, 0x98, 0xbf, 0x0b), Word(0x37, 0xc9, 0x07, 0x07), Word(0xd0, 0x7b, 0xd0, 0xd9)), w, 1)
         == State(Word(0x3f, 0xc8, 0xa9, 0x84), Word(0x43, 0xe6, 0xf7, 0x3d), Word(0x06, 0x96, 0x7b, 0xb9), Word(0x62, 0x87, 0x61, 0x2f))
         && Round(State(Word(0x3f, 0xc8, 0xa9, 0x84), Word(0x43, 0xe6, 0xf7, 0x3d), Word(0x06, 0x96, 0x7b, 0xb9), Word(0x62, 0x87, 0x61, 0x2f)), w, 2)
         == State(Word(0xa5, 0xc6, 0x13, 0xe8), Word(0x55, 0xc2, 0x17, 0xac), Word(0x4a, 0x3d, 0x2c, 0x41), Word(0x21, 0xd6, 0x9e, 0xb6))
         && Round(State(Word(0xa5, 0xc6, 0x13, 0xe8), Word(0x55, 0xc2, 0x17, 0xac), Word(0x4a, 0x3d, 0x2c, 0x41), Word(0x21, 0xd6, 0x9e, 0xb6)), w, 3)
         == State(Word(0x61, 0x11, 0x54, 0xbf), Word(0x5d, 0x22, 0x85, 0x20), Word(0x44, 0x14, 0x0c, 0x97), Word(0x38, 0x7c, 0xa4, 0x7e))
  {
    RoundIs(State(Word(0xef, 0x32, 0xf6, 0xf4), Word(0x6d, 0x98, 0xbf, 0x0b), Word(0x37, 0xc9, 0x07, 0x07), Word(0xd0, 0x7b, 0xd0, 0xd9)), w, 1);
    SboxIsTable(0xef); SboxIsTable(0x32); SboxIsTable(0xf6); SboxIsTable(0xf4);
    SboxIsTable(0x6d); SboxIsTable(0x98); SboxIsTable(0xbf); SboxIsTable(0x0b);
    SboxIsTable(0x37); SboxIsTable(0xc9); SboxIsTable(0x07); SboxIsTable(0x07);
    SboxIsTable(0xd0); SboxIsTable(0x7b); SboxIsTable(0xd0); SboxIsTable(0xd9);
    RoundIs(State(Word(0x3f, 0xc8, 0xa9, 0x84), Word(0x43, 0xe6, 0xf7, 0x3d), Word(0x06, 0x96, 0x7b, 0xb9), Word(0x62, 0x87, 0x61, 0x2f)), w, 2);
    SboxIsTable(0x3f); SboxIsTable(0xc8); SboxIsTable(0xa9); SboxIsTable(0x84);
    SboxIsTable(0x43); SboxIsTable(0xe6); SboxIsTable(0xf7); SboxIsTable(0x3d);
    SboxIsTable(0x06); SboxIsTable(0x96); SboxIsTable(0x7b); SboxIsTable(0xb9);
    SboxIsTable(0x62); SboxIsTable(0x87); SboxIsTable(0x61); SboxIsTable(0x2f);
    RoundIs(State(Word(0xa5, 0xc6, 0x13, 0xe8), Word(0x55, 0xc2, 0x17, 0xac), Word(0x4a, 0x3d, 0x2c, 0x41), Word(0x21, 0xd6, 0x9e, 0xb6)), w, 3);
    SboxIsTable(0xa5); SboxIsTable(0xc6); SboxIsTable(0x13); SboxIsTable(0xe8);
    SboxIsTable(0x55); SboxIsTable(0xc2); SboxIsTable(0x17); SboxIsTable(0xac);
    SboxIsTable(0x4a); SboxIsTable(0x3d); SboxIsTable(0x2c); SboxIsTable(0x41);
    SboxIsTable(0x21); SboxIsTable(0xd6); SboxIsTable(0x9e); SboxIsTable(0xb6);
  }

  /** Rounds 4 to 6 of the cipher of X_3 xor the last block of the 64-byte message: M_4 xor K1. */
  lemma Last64Rounds4(w: seq<byte>)
    requires HoldsRoundKeys(w)
    ensures Round(State(Word(0x61, 0x11, 0x54, 0xbf), Word(0x5d, 0x22, 0x85, 0x20), Word(0x44, 0x14, 0x0c, 0x97), Word(0x38, 0x7c, 0xa4, 0x7e)), w, 4)
         == State(Word(0x89, 0x7c, 0x30, 0xfb), Word(0x64, 0x22, 0x67, 0x08), Word(0x27, 0x9d, 0xac, 0x53), Word(0x57, 0x39, 0x9e, 0x17))
         && Round(State(Word(0x89, 0x7c, 0x30, 0xfb), Word(0x64, 0x22, 0x67, 0x08), Word(0x27, 0x9d, 0xac, 0x53), Word(0x57, 0x39, 0x9e, 0x17)), w, 5)
         == State(Word(0x4e, 0x13, 0xc0, 0xf3), Word(0x1c, 0x6e, 0x87, 0x09), Word(0x4b, 0x26, 0x3e, 0x85), Word(0xff, 0xfb, 0x63, 0x05))
         && Round(State(Word(0x4e, 0x13, 0xc0, 0xf3), Word(0x1c, 0x6e, 0x87, 0x09), Word(0x4b, 0x26, 0x3e, 0x85), Word(0xff, 0xfb, 0x63, 0x05)), w, 6)
         == State(Word(0x50, 0x24, 0xd1, 0xf0), Word(0xc6, 0x79, 0xaf, 0x54), Word(0x0c, 0x80, 0x56, 0x38), Word(0xe1, 0x42, 0x74, 0x98))
  {
    RoundIs(State(Word(0x61, 0x11, 0x54, 0xbf), Word(0x5d, 0x22, 0x85, 0x20), Word(0x44, 0x14, 0x0c, 0x97), Word(0x38, 0x7c, 0xa4, 0x7e)), w, 4);
    SboxIsTable(0x61); SboxIsTable(0x11); SboxIsTable(0x54); SboxIsTable(0xbf);
    SboxIsTable(0x5d); SboxIsTable(0x22); SboxIsTable(0x85); SboxIsTable(0x20);
    SboxIsTable(0x44); SboxIsTable(0x14); SboxIsTable(0x0c); SboxIsTable(0x97);
    SboxIsTable(0x38); SboxIsTable(0x7c); SboxIsTable(0xa4); SboxIsTable(0x7e);
    RoundIs(State(Word(0x89, 0x7c, 0x30, 0xfb), Word(0x64, 0x22, 0x67, 0x08), Word(0x27, 0x9d, 0xac, 0x53), Word(0x57, 0x39, 0x9e, 0x17)), w, 5);
    SboxIsTable(0x89); SboxIsTable(0x7c); SboxIsTable(0x30); SboxIsTable(0xfb);
    SboxIsTable(0x64); SboxIsTable(0x22); SboxIsTable(0x67); SboxIsTable(0x08);
    SboxIsTable(0x27); SboxIsTable(0x9d); SboxIsTable(0xac); SboxIsTable(0x53);
    SboxIsTable(0x57); SboxIsTable(0x39); SboxIsTable(0x9e); SboxIsTable(0x17);
    RoundIs(State(Word(0x4e, 0x13, 0xc0, 0xf3), Word(0x1c, 0x6e, 0x87, 0x09), Word(0x4b, 0x26, 0x3e, 0x85), Word(0xff, 0xfb, 0x63, 0x05)), w, 6);
    SboxIsTable(0x4e); SboxIsTable(0x13); SboxIsTable(0xc0); SboxIsTable(0xf3);
    SboxIsTable(0x1c); SboxIsTable(0x6e); SboxIsTable(0x87); SboxIsTable(0x09);
    SboxIsTable(0x4b); SboxIsTable(0x26); SboxIsTable(0x3e); SboxIsTable(0x85);
    SboxIsTable(0xff); SboxIsTable(0xfb); SboxIsTable(0x63); SboxIsTable(0x05);
  }

  /** Rounds 7 to 9 of the cipher of X_3 xor the last block of the 64-byte message: M_4 xor K1. */
  lemma Last64Rounds7(w: seq<byte>)
    requires HoldsRoundKeys(w)
    ensures Round(State(Word(0x50, 0x24, 0xd1, 0xf0), Word(0xc6, 0x79, 0xaf, 0x54), Word(0x0c, 0x80, 0x56, 0x38), Word(0xe1, 0x42, 0x74, 0x98)), w, 7)
         == State(Word(0xde, 0xfe, 0xa1, 0x70), Word(0x7e, 0x4b, 0x00, 0x68), Word(0x09, 0x62, 0x81, 0xf9), Word(0x81, 0xbe, 0xe9, 0x1d))
         && Round(State(Word(0xde, 0xfe, 0xa1, 0x70), Word(0x7e, 0x4b, 0x00, 0x68), Word(0x09, 0x62, 0x81, 0xf9), Word(0x81, 0xbe, 0xe9, 0x1d)), w, 8)
         == State(Word(0xb6, 0x02, 0x32, 0xea), Word(0xe2, 0x42, 0x2c, 0xca), Word(0xad, 0x7e, 0xf1, 0x75), Word(0x4b, 0xd0, 0xe8, 0xca))
         && Round(State(Word(0xb6, 0x02, 0x32, 0xea), Word(0xe2, 0x42, 0x2c, 0xca), Word(0xad, 0x7e, 0xf1, 0x75), Word(0x4b, 0xd0, 0xe8, 0xca)), w, 9)
         == State(Word(0x91, 0xed, 0xc1, 0x44), Word(0x20, 0xae, 0x08, 0xef), Word(0xde, 0xb5, 0x16, 0x5e), Word(0x5f, 0x0f, 0x9a, 0x87))
  {
    RoundIs(State(Word(0x50, 0x24, 0xd1, 0xf0), Word(0xc6, 0x79, 0xaf, 0x54), Word(0x0c, 0x80, 0x56, 0x38), Word(0xe1, 0x42, 0x74, 0x98)), w, 7);
    SboxIsTable(0x50); SboxIsTable(0x24); SboxIsTable(0xd1); SboxIsTable(0xf0);
    SboxIsTable(0xc6); SboxIsTable(0x79); SboxIsTable(0xaf); SboxIsTable(0x54);
    SboxIsTable(0x0c); SboxIsTable(0x80); SboxIsTable(0x56); SboxIsTable(0x38);
    SboxIsTable(0xe1); SboxIsTable(0x42); SboxIsTable(0x74); SboxIsTable(0x98);
    RoundIs(State(Word(0xde, 0xfe, 0xa1, 0x70), Word(0x7e, 0x4b, 0x00, 0x68), Word(0x09, 0x62, 0x81, 0xf9), Word(0x81, 0xbe, 0xe9, 0x1d)), w, 8);
    SboxIsTable(0xde); SboxIsTable(0xfe); SboxIsTable(0xa1); SboxIsTable(0x70);
    SboxIsTable(0x7e); SboxIsTable(0x4b); SboxIsTable(0x00); SboxIsTable(0x68);
    SboxIsTable(0x09); SboxIsTable(0x62); SboxIsTable(0x81); SboxIsTable(0xf9);
    SboxIsTable(0x81); SboxIsTable(0xbe); SboxIsTable(0xe9); SboxIsTable(0x1d);
    RoundIs(State(Word(0xb6, 0x02, 0x32, 0xea), Word(0xe2, 0x42, 0x2c, 0xca), Word(0xad, 0x7e, 0xf1, 0x75), Word(0x4b, 0xd0, 0xe8, 0xca)), w, 9);
    SboxIsTable(0xb6); SboxIsTable(0x02); SboxIsTable(0x32); SboxIsTable(0xea);
    SboxIsTable(0xe2); SboxIsTable(0x42); SboxIsTable(0x2c); SboxIsTable(0xca);
    SboxIsTable(0xad); SboxIsTable(0x7e); SboxIsTable(0xf1); SboxIsTable(0x75);
    SboxIsTable(0x4b); SboxIsTable(0xd0); SboxIsTable(0xe8); SboxIsTable(0xca);
  }

  /** The cipher of X_3 xor the last block of the 64-byte message: M_4 xor K1: any block b that holds it encrypts to the
    * block after it. */
  lemma EncryptLast64(b: seq<byte>, w: seq<byte>)
    requires |b| == BLOCK_BYTE_SIZE && HoldsRoundKeys(w)
    requires BlockAt(b, 0) == State(Word(0xc4, 0x4c, 0xe3, 0xe2), Word(0x45, 0x36, 0x6d, 0xad), Word(0x9c, 0x3e, 0x12, 0x8f), Word(0xd9, 0xb4, 0x9f, 0xe5))
    ensures Encrypt(b, w)
         == [0x51, 0xf0, 0xbe, 0xbf, 0x7e, 0x3b, 0x9d, 0x92, 0xfc, 0x49, 0x74, 0x17, 0x79, 0x36, 0x3c, 0xfe]
  {
    var s0 := State(Word(0xef, 0x32, 0xf6, 0xf4), Word(0x6d, 0x98, 0xbf, 0x0b), Word(0x37, 0xc9, 0x07, 0x07), Word(0xd0, 0x7b, 0xd0, 0xd9));
    Last64Rounds1(w); Last64Rounds4(w); Last64Rounds7(w);
    assert Rounds(s0, w, 1) == State(Word(0x3f, 0xc8, 0xa9, 0x84), Word(0x43, 0xe6, 0xf7, 0x3d), Word(0x06, 0x96, 0x7b, 0xb9), Word(0x62, 0x87, 0x61, 0x2f));
    assert Rounds(s0, w, 2) == State(Word(0xa5, 0xc6, 0x13, 0xe8), Word(0x55, 0xc2, 0x17, 0xac), Word(0x4a, 0x3d, 0x2c, 0x41), Word(0x21, 0xd6, 0x9e, 0xb6));
    assert Rounds(s0, w, 3) == State(Word(0x61, 0x11, 0x54, 0xbf), Word(0x5d, 0x22, 0x85, 0x20), Word(0x44, 0x14, 0x0c, 0x97), Word(0x38, 0x7c, 0xa4, 0x7e));
    assert Rounds(s0, w, 4) == State(Word(0x89, 0x7c, 0x30, 0xfb), Word(0x64, 0x22, 0x67, 0x08), Word(0x27, 0x9d, 0xac, 0x53), Word(0x57, 0x39, 0x9e, 0x17));
    assert Rounds(s0, w, 5) == State(Word(0x4e, 0x13, 0xc0, 0xf3), Word(0x1c, 0x6e, 0x87, 0x09), Word(0x4b, 0x26, 0x3e, 0x85), Word(0xff, 0xfb, 0x63, 0x05));
    assert Rounds(s0, w, 6) == State(Word(0x50, 0x24, 0xd1, 0xf0), Word(0xc6, 0x79, 0xaf, 0x54), Word(0x0c, 0x80, 0x56, 0x38), Word(0xe1, 0x42, 0x74, 0x98));
    assert Rounds(s0, w, 7) == State(Word(0xde, 0xfe, 0xa1, 0x70), Word(0x7e, 0x4b, 0x00, 0x68), Word(0x09, 0x62, 0x81, 0xf9), Word(0x81, 0xbe, 0xe9, 0x1d));
    assert Rounds(s0, w, 8) == State(Word(0xb6, 0x02, 0x32, 0xea), Word(0xe2, 0x42, 0x2c, 0xca), Word(0xad, 0x7e, 0xf1, 0x75), Word(0x4b, 0xd0, 0xe8, 0xca));
    assert Rounds(s0, w, 9) == State(Word(0x91, 0xed, 0xc1, 0x44), Word(0x20, 0xae, 0x08, 0xef), Word(0xde, 0xb5, 0x16, 0x5e), Word(0x5f, 0x0f, 0x9a, 0x87));
    SboxIsTable(0x91); SboxIsTable(0xed); SboxIsTable(0xc1); SboxIsTable(0x44);
    SboxIsTable(0x20); SboxIsTable(0xae); SboxIsTable(0x08); SboxIsTable(0xef);
    SboxIsTable(0xde); SboxIsTable(0xb5); SboxIsTable(0x16); SboxIsTable(0x5e);
    SboxIsTable(0x5f); SboxIsTable(0x0f); SboxIsTable(0x9a); SboxIsTable(0x87);
    CipherOfStates(b, w, s0, State(Word(0x91, 0xed, 0xc1, 0x44), Word(0x20, 0xae, 0x08, 0xef), Word(0xde, 0xb5, 0x16, 0x5e), Word(0x5f, 0x0f, 0x9a, 0x87)));
  }

  // ------------------------------------------------------ the MAC

  /** m is MESSAGE, block by block. */
  predicate IsMessage(m: seq<byte>)
  {
    |m| == 64 && Cbc.BlockOf(m, 0) == M1 && Cbc.BlockOf(m, 1) == M2
    && Cbc.BlockOf(m, 2) == M3 && Cbc.BlockOf(m, 3) == M4
  }

  /** The blocks of a four-block concatenation are its parts. */
  lemma BlocksOfConcat(a: seq<byte>, b: seq<byte>, c: seq<byte>, d: seq<byte>)
    requires |a| == 16 && |b| == 16 && |c| == 16 && |d| == 16
    ensures Cbc.BlockOf(a + b + c + d, 0) == a && Cbc.BlockOf(a + b + c + d, 1) == b
    ensures Cbc.BlockOf(a + b + c + d, 2) == c && Cbc.BlockOf(a + b + c + d, 3) == d
  {
    var s := a + b + c + d;
    assert s[0..16] == a && s[16..32] == b && s[32..48] == c && s[48..64] == d;
  }

  lemma MessageBlocks()
    ensures IsMessage(MESSAGE)
  {
    BlocksOfConcat(M1, M2, M3, M4);
  }

  /** L, K1 and K2 of RFC 4493 section 4 under the appendix A.1 round keys:
    * L is the cipher of the zero block, K1 and K2 follow from it. */
  lemma SubkeysOf(w: seq<byte>)
    requires HoldsRoundKeys(w)
    ensures Cmac.SubkeyBase(w) == L && Cmac.K1(w) == K1 && Cmac.K2(w) == K2
  {
    Cmac.SubkeyBaseIsEncrypt(w);
    EncryptZero(Fill(BLOCK_BYTE_SIZE, 0), w);
    Cmac.SubkeyVectorK1();
    Cmac.SubkeyVectorK2();
  }

  /** One step of the chain: X_i from X_(i-1), block i - 1 of m and the
    * cipher of their xor. */
  lemma ChainStep(m: seq<byte>, w: seq<byte>, i: nat, x: seq<byte>, y: seq<byte>)
    requires 0 < i && BLOCK_BYTE_SIZE * i <= |m| && |w| == SCHEDULE_SIZE
    requires Cmac.CbcMac(m, i - 1, w) == x && Encrypt(Xor(x, Cbc.BlockOf(m, i - 1)), w) == y
    ensures Cmac.CbcMac(m, i, w) == y
  {
    Cmac.CbcMacIs(m, i, w);
  }

  /** X_2 of the CBC-MAC chain over m. */
  lemma ChainTwo(m: seq<byte>, w: seq<byte>)
    requires IsMessage(m) && HoldsRoundKeys(w)
    ensures Cmac.CbcMac(m, 2, w)
         == [0xb1, 0x48, 0xc1, 0x7f, 0x30, 0x9e, 0xe6, 0x92, 0x28, 0x7a, 0xe5, 0x7c, 0xf1, 0x2a, 0xdd, 0x49]
  {
    var x0, x1 := Fill(BLOCK_BYTE_SIZE, 0),
      [0x3a, 0xd7, 0x7b, 0xb4, 0x0d, 0x7a, 0x36, 0x60, 0xa8, 0x9e, 0xca, 0xf3, 0x24, 0x66, 0xef, 0x97];
    Cmac.CbcMacIs(m, 0, w);
    EncryptBlock1(Xor(x0, Cbc.BlockOf(m, 0)), w);
    ChainStep(m, w, 1, x0, x1);
    EncryptBlock2(Xor(x1, Cbc.BlockOf(m, 1)), w);
    ChainStep(m, w, 2, x1, [0xb1, 0x48, 0xc1, 0x7f, 0x30, 0x9e, 0xe6, 0x92, 0x28, 0x7a, 0xe5, 0x7c, 0xf1, 0x2a, 0xdd, 0x49]);
  }

  /** X_3 of the CBC-MAC chain over m. */
  lemma ChainThree(m: seq<byte>, w: seq<byte>)
    requires IsMessage(m) && HoldsRoundKeys(w)
    ensures Cmac.CbcMac(m, 3, w)
         == [0xc9, 0x3d, 0x11, 0xbf, 0xaf, 0x08, 0xc5, 0xdc, 0x4d, 0x90, 0xb3, 0x7b, 0x4d, 0xee, 0x00, 0x2b]
  {
    var x2 := [0xb1, 0x48, 0xc1, 0x7f, 0x30, 0x9e, 0xe6, 0x92, 0x28, 0x7a, 0xe5, 0x7c, 0xf1, 0x2a, 0xdd, 0x49];
    ChainTwo(m, w);
    EncryptBlock3(Xor(x2, Cbc.BlockOf(m, 2)), w);
    ChainStep(m, w, 3, x2, [0xc9, 0x3d, 0x11, 0xbf, 0xaf, 0x08, 0xc5, 0xdc, 0x4d, 0x90, 0xb3, 0x7b, 0x4d, 0xee, 0x00, 0x2b]);
  }

  /** The MAC of the first len bytes of m from its parts: the chain X
    * before the last block, and the cipher of X xor M_last. */
  lemma MacOfTag(m: seq<byte>, w: seq<byte>, len: nat, x: seq<byte>, t: seq<byte>)
    requires len <= |m| && |w| == SCHEDULE_SIZE && Cmac.K1(w) == K1 && Cmac.K2(w) == K2
    requires Cmac.CbcMac(m, Cmac.MacBlockCount(len) - 1, w) == x
    requires Encrypt(Xor(x, Cmac.LastBlock(m, len, K1, K2)), w) == t
    ensures Cmac.Mac(w, m, len) == t
  {
    Cmac.MacOfParts(w, m, len, x, Cmac.LastBlock(m, len, K1, K2));
  }

  /** RFC 4493 step 4 on the first 0 bytes of m: M_last. */
  lemma LastBlockOf0(m: seq<byte>)
    requires IsMessage(m)
    ensures BlockAt(Cmac.LastBlock(m, 0, K1, K2), 0)
         == State(Word(0x77, 0xdd, 0xac, 0x30), Word(0x6a, 0xe2, 0x66, 0xcc), Word(0xf9, 0x0b, 0xc1, 0x1e), Word(0xe4, 0x6d, 0x51, 0x3b))
  {
    assert Cmac.MacBlockCount(0) == 1;
  }

  /** The input of the last cipher of the MAC of the first 0 bytes of m:
    * X xor M_last. */
  lemma TagInputOf0(m: seq<byte>)
    requires IsMessage(m)
    ensures BlockAt(Xor(Fill(BLOCK_BYTE_SIZE, 0), Cmac.LastBlock(m, 0, K1, K2)), 0)
         == State(Word(0x77, 0xdd, 0xac, 0x30), Word(0x6a, 0xe2, 0x66, 0xcc), Word(0xf9, 0x0b, 0xc1, 0x1e), Word(0xe4, 0x6d, 0x51, 0x3b))
  {
    var x, last := Fill(BLOCK_BYTE_SIZE, 0), Cmac.LastBlock(m, 0, K1, K2);
    LastBlockOf0(m);
    XorBlocks(Xor(x, last), x, last);
  }

  /** The tag of the first 0 bytes of m under the appendix A.1 round
    * keys. */
  lemma MacOf0(m: seq<byte>, w: seq<byte>)
    requires IsMessage(m) && HoldsRoundKeys(w)
    ensures Cmac.Mac(w, m, 0) == CMAC0
  {
    SubkeysOf(w);
    Cmac.CbcMacIs(m, 0, w);
    assert Cmac.MacBlockCount(0) == 1;
    TagInputOf0(m);
    EncryptLast0(Xor(Fill(BLOCK_BYTE_SIZE, 0), Cmac.LastBlock(m, 0, K1, K2)), w);
    MacOfTag(m, w, 0, Fill(BLOCK_BYTE_SIZE, 0), CMAC0);
  }

  /** RFC 4493 step 4 on the first 16 bytes of m: M_last. */
  lemma LastBlockOf16(m: seq<byte>)
    requires IsMessage(m)
    ensures BlockAt(Cmac.LastBlock(m, 16, K1, K2), 0)
         == State(Word(0x90, 0x2f, 0x68, 0xfa), Word(0x1b, 0x31, 0xac, 0xf0), Word(0x95, 0xb8, 0x9e, 0x9e), Word(0x01, 0xa5, 0xbf, 0xf4))
  {
    assert Cmac.MacBlockCount(16) == 1;
    assert m[0..16] == Cbc.BlockOf(m, 0);
  }

  /** The input of the last cipher of the MAC of the first 16 bytes of m:
    * X xor M_last. */
  lemma TagInputOf16(m: seq<byte>)
    requires IsMessage(m)
    ensures BlockAt(Xor(Fill(BLOCK_BYTE_SIZE, 0), Cmac.LastBlock(m, 16, K1, K2)), 0)
         == State(Word(0x90, 0x2f, 0x68, 0xfa), Word(0x1b, 0x31, 0xac, 0xf0), Word(0x95, 0xb8, 0x9e, 0x9e), Word(0x01, 0xa5, 0xbf, 0xf4))
  {
    var x, last := Fill(BLOCK_BYTE_SIZE, 0), Cmac.LastBlock(m, 16, K1, K2);
    LastBlockOf16(m);
    XorBlocks(Xor(x, last), x, last);
  }

  /** The tag of the first 16 bytes of m under the appendix A.1 round
    * keys. */
  lemma MacOf16(m: seq<byte>, w: seq<byte>)
    requires IsMessage(m) && HoldsRoundKeys(w)
    ensures Cmac.Mac(w, m, 16) == CMAC16
  {
    SubkeysOf(w);
    Cmac.CbcMacIs(m, 0, w);
    assert Cmac.MacBlockCount(16) == 1;
    TagInputOf16(m);
    EncryptLast16(Xor(Fill(BLOCK_BYTE_SIZE, 0), Cmac.LastBlock(m, 16, K1, K2)), w);
    MacOfTag(m, w, 16, Fill(BLOCK_BYTE_SIZE, 0), CMAC16);
  }

  /** RFC 4493 step 4 on the first 40 bytes of m: M_last. */
  lemma LastBlockOf40(m: seq<byte>)
    requires IsMessage(m)
    ensures BlockAt(Cmac.LastBlock(m, 40, K1, K2), 0)
         == State(Word(0xc7, 0x15, 0xb0, 0x76), Word(0xc9, 0xbe, 0x82, 0xdd), Word(0x79, 0x0b, 0xc1, 0x1e), Word(0xe4, 0x6d, 0x51, 0x3b))
  {
    assert Cmac.MacBlockCount(40) == 3;
    assert m[32..][..8] == Cbc.BlockOf(m, 2)[..8];
  }

  /** The input of the last cipher of the MAC of the first 40 bytes of m:
    * X xor M_last. */
  lemma TagInputOf40(m: seq<byte>)
    requires IsMessage(m)
    ensures BlockAt(Xor([0xb1, 0x48, 0xc1, 0x7f, 0x30, 0x9e, 0xe6, 0x92, 0x28, 0x7a, 0xe5, 0x7c, 0xf1, 0x2a, 0xdd, 0x49], Cmac.LastBlock(m, 40, K1, K2)), 0)
         == State(Word(0x76, 0x5d, 0x71, 0x09), Word(0xf9, 0x20, 0x64, 0x4f), Word(0x51, 0x71, 0x24, 0x62), Word(0x15, 0x47, 0x8c, 0x72))
  {
    var x, last := [0xb1, 0x48, 0xc1, 0x7f, 0x30, 0x9e, 0xe6, 0x92, 0x28, 0x7a, 0xe5, 0x7c, 0xf1, 0x2a, 0xdd, 0x49], Cmac.LastBlock(m, 40, K1, K2);
    LastBlockOf40(m);
    XorBlocks(Xor(x, last), x, last);
  }

  /** The tag of the first 40 bytes of m under the appendix A.1 round
    * keys. */
  lemma MacOf40(m: seq<byte>, w: seq<byte>)
    requires IsMessage(m) && HoldsRoundKeys(w)
    ensures Cmac.Mac(w, m, 40) == CMAC40
  {
    SubkeysOf(w);
    ChainTwo(m, w);
    assert Cmac.MacBlockCount(40) == 3;
    TagInputOf40(m);
    EncryptLast40(Xor([0xb1, 0x48, 0xc1, 0x7f, 0x30, 0x9e, 0xe6, 0x92, 0x28, 0x7a, 0xe5, 0x7c, 0xf1, 0x2a, 0xdd, 0x49], Cmac.LastBlock(m, 40, K1, K2)), w);
    MacOfTag(m, w, 40, [0xb1, 0x48, 0xc1, 0x7f, 0x30, 0x9e, 0xe6, 0x92, 0x28, 0x7a, 0xe5, 0x7c, 0xf1, 0x2a, 0xdd, 0x49], CMAC40);
  }

  /** RFC 4493 step 4 on the first 64 bytes of m: M_last. */
  lemma LastBlockOf64(m: seq<byte>)
    requires IsMessage(m)
    ensures BlockAt(Cmac.LastBlock(m, 64, K1, K2), 0)
         == State(Word(0x0d, 0x71, 0xf2, 0x5d), Word(0xea, 0x3e, 0xa8, 0x71), Word(0xd1, 0xae, 0xa1, 0xf4), Word(0x94, 0x5a, 0x9f, 0xce))
  {
    assert Cmac.MacBlockCount(64) == 4;
    assert m[48..64] == Cbc.BlockOf(m, 3);
  }

  /** The input of the last cipher of the MAC of the first 64 bytes of m:
    * X xor M_last. */
  lemma TagInputOf64(m: seq<byte>)
    requires IsMessage(m)
    ensures BlockAt(Xor([0xc9, 0x3d, 0x11, 0xbf, 0xaf, 0x08, 0xc5, 0xdc, 0x4d, 0x90, 0xb3, 0x7b, 0x4d, 0xee, 0x00, 0x2b], Cmac.LastBlock(m, 64, K1, K2)), 0)
         == State(Word(0xc4, 0x4c, 0xe3, 0xe2), Word(0x45, 0x36, 0x6d, 0xad), Word(0x9c, 0x3e, 0x12, 0x8f), Word(0xd9, 0xb4, 0x9f, 0xe5))
  {
    var x, last := [0xc9, 0x3d, 0x11, 0xbf, 0xaf, 0x08, 0xc5, 0xdc, 0x4d, 0x90, 0xb3, 0x7b, 0x4d, 0xee, 0x00, 0x2b], Cmac.LastBlock(m, 64, K1, K2);
    LastBlockOf64(m);
    XorBlocks(Xor(x, last), x, last);
  }

  /** The tag of the first 64 bytes of m under the appendix A.1 round
    * keys. */
  lemma MacOf64(m: seq<byte>, w: seq<byte>)
    requires IsMessage(m) && HoldsRoundKeys(w)
    ensures Cmac.Mac(w, m, 64) == CMAC64
  {
    SubkeysOf(w);
    ChainThree(m, w);
    assert Cmac.MacBlockCount(64) == 4;
    TagInputOf64(m);
    EncryptLast64(Xor([0xc9, 0x3d, 0x11, 0xbf, 0xaf, 0x08, 0xc5, 0xdc, 0x4d, 0x90, 0xb3, 0x7b, 0x4d, 0xee, 0x00, 0x2b], Cmac.LastBlock(m, 64, K1, K2)), w);
    MacOfTag(m, w, 64, [0xc9, 0x3d, 0x11, 0xbf, 0xaf, 0x08, 0xc5, 0xdc, 0x4d, 0x90, 0xb3, 0x7b, 0x4d, 0xee, 0x00, 0x2b], CMAC64);
  }

  /** The cipher of PLAINTEXT under the appendix A.1 round keys. */
  lemma CipherOf(w: seq<byte>)
    requires HoldsRoundKeys(w)
    ensures Encrypt(PLAINTEXT, w) == CIPHERTEXT
  {
    EncryptPlaintext(PLAINTEXT, w);
  }

  /** FIPS-197 appendix B: KEY encrypts PLAINTEXT to CIPHERTEXT. */
  lemma CipherExample()
    ensures Encrypt(PLAINTEXT, Schedule(KEY)) == CIPHERTEXT
  {
    ScheduleExample();
    CipherOf(Schedule(KEY));
  }

  /** RFC 4493 section 4, the subkeys: L, K1 and K2 of KEY. */
  lemma SubkeyExample()
    ensures Cmac.SubkeyBase(Schedule(KEY)) == L
    ensures Cmac.K1(Schedule(KEY)) == K1 && Cmac.K2(Schedule(KEY)) == K2
  {
    ScheduleExample();
    SubkeysOf(Schedule(KEY));
  }

  /** RFC 4493 section 4 and the CMAC test: the tags of the first 0, 16, 40
    * and 64 bytes of MESSAGE under KEY. */
  lemma MacExamples()
    ensures Cmac.Mac(Schedule(KEY), MESSAGE, 0) == CMAC0
    ensures Cmac.Mac(Schedule(KEY), MESSAGE, 16) == CMAC16
    ensures Cmac.Mac(Schedule(KEY), MESSAGE, 40) == CMAC40
    ensures Cmac.Mac(Schedule(KEY), MESSAGE, 64) == CMAC64
  {
    ScheduleExample();
    MessageBlocks();
    MacOf0(MESSAGE, Schedule(KEY));
    MacOf16(MESSAGE, Schedule(KEY));
    MacOf40(MESSAGE, Schedule(KEY));
    MacOf64(MESSAGE, Schedule(KEY));
  }

  /** The verification of the CMAC test, in the terms of VerifyAesCMac
    * with key KEY and the 64-byte MESSAGE: against the tag just computed
    * (CMAC64) it returns CMAC_VALID (1), against CMAC40 CMAC_INVALID (0). */
  lemma VerifyExamples()
    ensures (if Cmac.Mac(Schedule(KEY), MESSAGE, 64) == CMAC64 then Cmac.CMAC_VALID else Cmac.CMAC_INVALID) == 1
    ensures (if Cmac.Mac(Schedule(KEY), MESSAGE, 64) == CMAC40 then Cmac.CMAC_VALID else Cmac.CMAC_INVALID) == 0
  {
    MacExamples();
    assert CMAC40[0] != CMAC64[0];
  }
}
