/**
 * The lookup tables of aes_crypt/lib/aes_crypt.cpp: the S-box, its inverse
 * and the key-schedule round constants, with their accessors.
 *
 * Each table is written as a decision tree (on the high and low nibble
 * for the S-boxes, on the index for Rcon) so that a lookup costs the
 * verifier a few comparisons rather than a walk along a 256-entry
 * sequence.
 *
 * The lookups Sbox, InvSbox and Rcon reach the tree through a short
 * recursion (SboxAt and SboxLeaf, and the same for the others) counted
 * down from the looked-up index itself. Every count gives the tree's
 * value (SboxIsTable and the like), but the verifier unfolds such a
 * recursion only when the index is a known constant, so in the round and
 * key-schedule proofs, which never need an entry, a lookup stays closed.
 */
module Tables {
  import opened Bytes
  import Gf

  /** The S-box of FIPS-197 figure 7. */
  function SboxTable(x: byte): byte
  {
    var c := x & 0x0f;
    if x < 0x80 then
      if x < 0x40 then
        if x < 0x20 then
          if x < 0x10 then
            (if c < 8 then (if c < 4 then (if c < 2 then (if c < 1 then 0x63 else 0x7c) else (if c < 3 then 0x77 else 0x7b)) else (if c < 6 then (if c < 5 then 0xf2 else 0x6b) else (if c < 7 then 0x6f else 0xc5))) else (if c < 12 then (if c < 10 then (if c < 9 then 0x30 else 0x01) else (if c < 11 then 0x67 else 0x2b)) else (if c < 14 then (if c < 13 then 0xfe else 0xd7) else (if c < 15 then 0xab else 0x76))))
          else
            (if c < 8 then (if c < 4 then (if c < 2 then (if c < 1 then 0xca else 0x82) else (if c < 3 then 0xc9 else 0x7d)) else (if c < 6 then (if c < 5 then 0xfa else 0x59) else (if c < 7 then 0x47 else 0xf0))) else (if c < 12 then (if c < 10 then (if c < 9 then 0xad else 0xd4) else (if c < 11 then 0xa2 else 0xaf)) else (if c < 14 then (if c < 13 then 0x9c else 0xa4) else (if c < 15 then 0x72 else 0xc0))))
        else
          if x < 0x30 then
            (if c < 8 then (if c < 4 then (if c < 2 then (if c < 1 then 0xb7 else 0xfd) else (if c < 3 then 0x93 else 0x26)) else (if c < 6 then (if c < 5 then 0x36 else 0x3f) else (if c < 7 then 0xf7 else 0xcc))) else (if c < 12 then (if c < 10 then (if c < 9 then 0x34 else 0xa5) else (if c < 11 then 0xe5 else 0xf1)) else (if c < 14 then (if c < 13 then 0x71 else 0xd8) else (if c < 15 then 0x31 else 0x15))))
          else
            (if c < 8 then (if c < 4 then (if c < 2 then (if c < 1 then 0x04 else 0xc7) else (if c < 3 then 0x23 else 0xc3)) else (if c < 6 then (if c < 5 then 0x18 else 0x96) else (if c < 7 then 0x05 else 0x9a))) else (if c < 12 then (if c < 10 then (if c < 9 then 0x07 else 0x12) else (if c < 11 then 0x80 else 0xe2)) else (if c < 14 then (if c < 13 then 0xeb else 0x27) else (if c < 15 then 0xb2 else 0x75))))
      else
        if x < 0x60 then
          if x < 0x50 then
            (if c < 8 then (if c < 4 then (if c < 2 then (if c < 1 then 0x09 else 0x83) else (if c < 3 then 0x2c else 0x1a)) else (if c < 6 then (if c < 5 then 0x1b else 0x6e) else (if c < 7 then 0x5a else 0xa0))) else (if c < 12 then (if c < 10 then (if c < 9 then 0x52 else 0x3b) else (if c < 11 then 0xd6 else 0xb3)) else (if c < 14 then (if c < 13 then 0x29 else 0xe3) else (if c < 15 then 0x2f else 0x84))))
          else
            (if c < 8 then (if c < 4 then (if c < 2 then (if c < 1 then 0x53 else 0xd1) else (if c < 3 then 0x00 else 0xed)) else (if c < 6 then (if c < 5 then 0x20 else 0xfc) else (if c < 7 then 0xb1 else 0x5b))) else (if c < 12 then (if c < 10 then (if c < 9 then 0x6a else 0xcb) else (if c < 11 then 0xbe else 0x39)) else (if c < 14 then (if c < 13 then 0x4a else 0x4c) else (if c < 15 then 0x58 else 0xcf))))
        else
          if x < 0x70 then
            (if c < 8 then (if c < 4 then (if c < 2 then (if c < 1 then 0xd0 else 0xef) else (if c < 3 then 0xaa else 0xfb)) else (if c < 6 then (if c < 5 then 0x43 else 0x4d) else (if c < 7 then 0x33 else 0x85))) else (if c < 12 then (if c < 10 then (if c < 9 then 0x45 else 0xf9) else (if c < 11 then 0x02 else 0x7f)) else (if c < 14 then (if c < 13 then 0x50 else 0x3c) else (if c < 15 then 0x9f else 0xa8))))
          else
            (if c < 8 then (if c < 4 then (if c < 2 then (if c < 1 then 0x51 else 0xa3) else (if c < 3 then 0x40 else 0x8f)) else (if c < 6 then (if c < 5 then 0x92 else 0x9d) else (if c < 7 then 0x38 else 0xf5))) else (if c < 12 then (if c < 10 then (if c < 9 then 0xbc else 0xb6) else (if c < 11 then 0xda else 0x21)) else (if c < 14 then (if c < 13 then 0x10 else 0xff) else (if c < 15 then 0xf3 else 0xd2))))
    else
      if x < 0xc0 then
        if x < 0xa0 then
          if x < 0x90 then
            (if c < 8 then (if c < 4 then (if c < 2 then (if c < 1 then 0xcd else 0x0c) else (if c < 3 then 0x13 else 0xec)) else (if c < 6 then (if c < 5 then 0x5f else 0x97) else (if c < 7 then 0x44 else 0x17))) else (if c < 12 then (if c < 10 then (if c < 9 then 0xc4 else 0xa7) else (if c < 11 then 0x7e else 0x3d)) else (if c < 14 then (if c < 13 then 0x64 else 0x5d) else (if c < 15 then 0x19 else 0x73))))
          else
            (if c < 8 then (if c < 4 then (if c < 2 then (if c < 1 then 0x60 else 0x81) else (if c < 3 then 0x4f else 0xdc)) else (if c < 6 then (if c < 5 then 0x22 else 0x2a) else (if c < 7 then 0x90 else 0x88))) else (if c < 12 then (if c < 10 then (if c < 9 then 0x46 else 0xee) else (if c < 11 then 0xb8 else 0x14)) else (if c < 14 then (if c < 13 then 0xde else 0x5e) else (if c < 15 then 0x0b else 0xdb))))
        else
          if x < 0xb0 then
            (if c < 8 then (if c < 4 then (if c < 2 then (if c < 1 then 0xe0 else 0x32) else (if c < 3 then 0x3a else 0x0a)) else (if c < 6 then (if c < 5 then 0x49 else 0x06) else (if c < 7 then 0x24 else 0x5c))) else (if c < 12 then (if c < 10 then (if c < 9 then 0xc2 else 0xd3) else (if c < 11 then 0xac else 0x62)) else (if c < 14 then (if c < 13 then 0x91 else 0x95) else (if c < 15 then 0xe4 else 0x79))))
          else
            (if c < 8 then (if c < 4 then (if c < 2 then (if c < 1 then 0xe7 else 0xc8) else (if c < 3 then 0x37 else 0x6d)) else (if c < 6 then (if c < 5 then 0x8d else 0xd5) else (if c < 7 then 0x4e else 0xa9))) else (if c < 12 then (if c < 10 then (if c < 9 then 0x6c else 0x56) else (if c < 11 then 0xf4 else 0xea)) else (if c < 14 then (if c < 13 then 0x65 else 0x7a) else (if c < 15 then 0xae else 0x08))))
      else
        if x < 0xe0 then
          if x < 0xd0 then
            (if c < 8 then (if c < 4 then (if c < 2 then (if c < 1 then 0xba else 0x78) else (if c < 3 then 0x25 else 0x2e)) else (if c < 6 then (if c < 5 then 0x1c else 0xa6) else (if c < 7 then 0xb4 else 0xc6))) else (if c < 12 then (if c < 10 then (if c < 9 then 0xe8 else 0xdd) else (if c < 11 then 0x74 else 0x1f)) else (if c < 14 then (if c < 13 then 0x4b else 0xbd) else (if c < 15 then 0x8b else 0x8a))))
          else
            (if c < 8 then (if c < 4 then (if c < 2 then (if c < 1 then 0x70 else 0x3e) else (if c < 3 then 0xb5 else 0x66)) else (if c < 6 then (if c < 5 then 0x48 else 0x03) else (if c < 7 then 0xf6 else 0x0e))) else (if c < 12 then (if c < 10 then (if c < 9 then 0x61 else 0x35) else (if c < 11 then 0x57 else 0xb9)) else (if c < 14 then (if c < 13 then 0x86 else 0xc1) else (if c < 15 then 0x1d else 0x9e))))
        else
          if x < 0xf0 then
            (if c < 8 then (if c < 4 then (if c < 2 then (if c < 1 then 0xe1 else 0xf8) else (if c < 3 then 0x98 else 0x11)) else (if c < 6 then (if c < 5 then 0x69 else 0xd9) else (if c < 7 then 0x8e else 0x94))) else (if c < 12 then (if c < 10 then (if c < 9 then 0x9b else 0x1e) else (if c < 11 then 0x87 else 0xe9)) else (if c < 14 then (if c < 13 then 0xce else 0x55) else (if c < 15 then 0x28 else 0xdf))))
          else
            (if c < 8 then (if c < 4 then (if c < 2 then (if c < 1 then 0x8c else 0xa1) else (if c < 3 then 0x89 else 0x0d)) else (if c < 6 then (if c < 5 then 0xbf else 0xe6) else (if c < 7 then 0x42 else 0x68))) else (if c < 12 then (if c < 10 then (if c < 9 then 0x41 else 0x99) else (if c < 11 then 0x2d else 0x0f)) else (if c < 14 then (if c < 13 then 0xb0 else 0x54) else (if c < 15 then 0xbb else 0x16))))
  }

  /** The inverse S-box (FIPS-197 figure 14). */
  function InvSboxTable(x: byte): byte
  {
    var c := x & 0x0f;
    if x < 0x80 then
      if x < 0x40 then
        if x < 0x20 then
          if x < 0x10 then
            (if c < 8 then (if c < 4 then (if c < 2 then (if c < 1 then 0x52 else 0x09) else (if c < 3 then 0x6a else 0xd5)) else (if c < 6 then (if c < 5 then 0x30 else 0x36) else (if c < 7 then 0xa5 else 0x38))) else (if c < 12 then (if c < 10 then (if c < 9 then 0xbf else 0x40) else (if c < 11 then 0xa3 else 0x9e)) else (if c < 14 then (if c < 13 then 0x81 else 0xf3) else (if c < 15 then 0xd7 else 0xfb))))
          else
            (if c < 8 then (if c < 4 then (if c < 2 then (if c < 1 then 0x7c else 0xe3) else (if c < 3 then 0x39 else 0x82)) else (if c < 6 then (if c < 5 then 0x9b else 0x2f) else (if c < 7 then 0xff else 0x87))) else (if c < 12 then (if c < 10 then (if c < 9 then 0x34 else 0x8e) else (if c < 11 then 0x43 else 0x44)) else (if c < 14 then (if c < 13 then 0xc4 else 0xde) else (if c < 15 then 0xe9 else 0xcb))))
        else
          if x < 0x30 then
            (if c < 8 then (if c < 4 then (if c < 2 then (if c < 1 then 0x54 else 0x7b) else (if c < 3 then 0x94 else 0x32)) else (if c < 6 then (if c < 5 then 0xa6 else 0xc2) else (if c < 7 then 0x23 else 0x3d))) else (if c < 12 then (if c < 10 then (if c < 9 then 0xee else 0x4c) else (if c < 11 then 0x95 else 0x0b)) else (if c < 14 then (if c < 13 then 0x42 else 0xfa) else (if c < 15 then 0xc3 else 0x4e))))
          else
            (if c < 8 then (if c < 4 then (if c < 2 then (if c < 1 then 0x08 else 0x2e) else (if c < 3 then 0xa1 else 0x66)) else (if c < 6 then (if c < 5 then 0x28 else 0xd9) else (if c < 7 then 0x24 else 0xb2))) else (if c < 12 then (if c < 10 then (if c < 9 then 0x76 else 0x5b) else (if c < 11 then 0xa2 else 0x49)) else (if c < 14 then (if c < 13 then 0x6d else 0x8b) else (if c < 15 then 0xd1 else 0x25))))
      else
        if x < 0x60 then
          if x < 0x50 then
            (if c < 8 then (if c < 4 then (if c < 2 then (if c < 1 then 0x72 else 0xf8) else (if c < 3 then 0xf6 else 0x64)) else (if c < 6 then (if c < 5 then 0x86 else 0x68) else (if c < 7 then 0x98 else 0x16))) else (if c < 12 then (if c < 10 then (if c < 9 then 0xd4 else 0xa4) else (if c < 11 then 0x5c else 0xcc)) else (if c < 14 then (if c < 13 then 0x5d else 0x65) else (if c < 15 then 0xb6 else 0x92))))
          else
            (if c < 8 then (if c < 4 then (if c < 2 then (if c < 1 then 0x6c else 0x70) else (if c < 3 then 0x48 else 0x50)) else (if c < 6 then (if c < 5 then 0xfd else 0xed) else (if c < 7 then 0xb9 else 0xda))) else (if c < 12 then (if c < 10 then (if c < 9 then 0x5e else 0x15) else (if c < 11 then 0x46 else 0x57)) else (if c < 14 then (if c < 13 then 0xa7 else 0x8d) else (if c < 15 then 0x9d else 0x84))))
        else
          if x < 0x70 then
            (if c < 8 then (if c < 4 then (if c < 2 then (if c < 1 then 0x90 else 0xd8) else (if c < 3 then 0xab else 0x00)) else (if c < 6 then (if c < 5 then 0x8c else 0xbc) else (if c < 7 then 0xd3 else 0x0a))) else (if c < 12 then (if c < 10 then (if c < 9 then 0xf7 else 0xe4) else (if c < 11 then 0x58 else 0x05)) else (if c < 14 then (if c < 13 then 0xb8 else 0xb3) else (if c < 15 then 0x45 else 0x06))))
          else
            (if c < 8 then (if c < 4 then (if c < 2 then (if c < 1 then 0xd0 else 0x2c) else (if c < 3 then 0x1e else 0x8f)) else (if c < 6 then (if c < 5 then 0xca else 0x3f) else (if c < 7 then 0x0f else 0x02))) else (if c < 12 then (if c < 10 then (if c < 9 then 0xc1 else 0xaf) else (if c < 11 then 0xbd else 0x03)) else (if c < 14 then (if c < 13 then 0x01 else 0x13) else (if c < 15 then 0x8a else 0x6b))))
    else
      if x < 0xc0 then
        if x < 0xa0 then
          if x < 0x90 then
            (if c < 8 then (if c < 4 then (if c < 2 then (if c < 1 then 0x3a else 0x91) else (if c < 3 then 0x11 else 0x41)) else (if c < 6 then (if c < 5 then 0x4f else 0x67) else (if c < 7 then 0xdc else 0xea))) else (if c < 12 then (if c < 10 then (if c < 9 then 0x97 else 0xf2) else (if c < 11 then 0xcf else 0xce)) else (if c < 14 then (if c < 13 then 0xf0 else 0xb4) else (if c < 15 then 0xe6 else 0x73))))
          else
            (if c < 8 then (if c < 4 then (if c < 2 then (if c < 1 then 0x96 else 0xac) else (if c < 3 then 0x74 else 0x22)) else (if c < 6 then (if c < 5 then 0xe7 else 0xad) else (if c < 7 then 0x35 else 0x85))) else (if c < 12 then (if c < 10 then (if c < 9 then 0xe2 else 0xf9) else (if c < 11 then 0x37 else 0xe8)) else (if c < 14 then (if c < 13 then 0x1c else 0x75) else (if c < 15 then 0xdf else 0x6e))))
        else
          if x < 0xb0 then
            (if c < 8 then (if c < 4 then (if c < 2 then (if c < 1 then 0x47 else 0xf1) else (if c < 3 then 0x1a else 0x71)) else (if c < 6 then (if c < 5 then 0x1d else 0x29) else (if c < 7 then 0xc5 else 0x89))) else (if c < 12 then (if c < 10 then (if c < 9 then 0x6f else 0xb7) else (if c < 11 then 0x62 else 0x0e)) else (if c < 14 then (if c < 13 then 0xaa else 0x18) else (if c < 15 then 0xbe else 0x1b))))
          else
            (if c < 8 then (if c < 4 then (if c < 2 then (if c < 1 then 0xfc else 0x56) else (if c < 3 then 0x3e else 0x4b)) else (if c < 6 then (if c < 5 then 0xc6 else 0xd2) else (if c < 7 then 0x79 else 0x20))) else (if c < 12 then (if c < 10 then (if c < 9 then 0x9a else 0xdb) else (if c < 11 then 0xc0 else 0xfe)) else (if c < 14 then (if c < 13 then 0x78 else 0xcd) else (if c < 15 then 0x5a else 0xf4))))
      else
        if x < 0xe0 then
          if x < 0xd0 then
            (if c < 8 then (if c < 4 then (if c < 2 then (if c < 1 then 0x1f else 0xdd) else (if c < 3 then 0xa8 else 0x33)) else (if c < 6 then (if c < 5 then 0x88 else 0x07) else (if c < 7 then 0xc7 else 0x31))) else (if c < 12 then (if c < 10 then (if c < 9 then 0xb1 else 0x12) else (if c < 11 then 0x10 else 0x59)) else (if c < 14 then (if c < 13 then 0x27 else 0x80) else (if c < 15 then 0xec else 0x5f))))
          else
            (if c < 8 then (if c < 4 then (if c < 2 then (if c < 1 then 0x60 else 0x51) else (if c < 3 then 0x7f else 0xa9)) else (if c < 6 then (if c < 5 then 0x19 else 0xb5) else (if c < 7 then 0x4a else 0x0d))) else (if c < 12 then (if c < 10 then (if c < 9 then 0x2d else 0xe5) else (if c < 11 then 0x7a else 0x9f)) else (if c < 14 then (if c < 13 then 0x93 else 0xc9) else (if c < 15 then 0x9c else 0xef))))
        else
          if x < 0xf0 then
            (if c < 8 then (if c < 4 then (if c < 2 then (if c < 1 then 0xa0 else 0xe0) else (if c < 3 then 0x3b else 0x4d)) else (if c < 6 then (if c < 5 then 0xae else 0x2a) else (if c < 7 then 0xf5 else 0xb0))) else (if c < 12 then (if c < 10 then (if c < 9 then 0xc8 else 0xeb) else (if c < 11 then 0xbb else 0x3c)) else (if c < 14 then (if c < 13 then 0x83 else 0x53) else (if c < 15 then 0x99 else 0x61))))
          else
            (if c < 8 then (if c < 4 then (if c < 2 then (if c < 1 then 0x17 else 0x2b) else (if c < 3 then 0x04 else 0x7e)) else (if c < 6 then (if c < 5 then 0xba else 0x77) else (if c < 7 then 0xd6 else 0x26))) else (if c < 12 then (if c < 10 then (if c < 9 then 0xe1 else 0x69) else (if c < 11 then 0x14 else 0x63)) else (if c < 14 then (if c < 13 then 0x55 else 0x21) else (if c < 15 then 0x0c else 0x7d))))
  }

  /** The 255-entry round-constant table; entry 0 is the unused 0x8d. */
  function RconTable(i: int): byte
    requires 0 <= i < 255
  {
    if i < 127 then
      if i < 63 then
        if i < 31 then
          if i < 15 then
            (if i < 7 then (if i < 3 then (if i < 1 then 0x8d else (if i < 2 then 0x01 else 0x02)) else (if i < 5 then (if i < 4 then 0x04 else 0x08) else (if i < 6 then 0x10 else 0x20))) else (if i < 11 then (if i < 9 then (if i < 8 then 0x40 else 0x80) else (if i < 10 then 0x1b else 0x36)) else (if i < 13 then (if i < 12 then 0x6c else 0xd8) else (if i < 14 then 0xab else 0x4d))))
          else
            (if i < 23 then (if i < 19 then (if i < 17 then (if i < 16 then 0x9a else 0x2f) else (if i < 18 then 0x5e else 0xbc)) else (if i < 21 then (if i < 20 then 0x63 else 0xc6) else (if i < 22 then 0x97 else 0x35))) else (if i < 27 then (if i < 25 then (if i < 24 then 0x6a else 0xd4) else (if i < 26 then 0xb3 else 0x7d)) else (if i < 29 then (if i < 28 then 0xfa else 0xef) else (if i < 30 then 0xc5 else 0x91))))
        else
          if i < 47 then
            (if i < 39 then (if i < 35 then (if i < 33 then (if i < 32 then 0x39 else 0x72) else (if i < 34 then 0xe4 else 0xd3)) else (if i < 37 then (if i < 36 then 0xbd else 0x61) else (if i < 38 then 0xc2 else 0x9f))) else (if i < 43 then (if i < 41 then (if i < 40 then 0x25 else 0x4a) else (if i < 42 then 0x94 else 0x33)) else (if i < 45 then (if i < 44 then 0x66 else 0xcc) else (if i < 46 then 0x83 else 0x1d))))
          else
            (if i < 55 then (if i < 51 then (if i < 49 then (if i < 48 then 0x3a else 0x74) else (if i < 50 then 0xe8 else 0xcb)) else (if i < 53 then (if i < 52 then 0x8d else 0x01) else (if i < 54 then 0x02 else 0x04))) else (if i < 59 then (if i < 57 then (if i < 56 then 0x08 else 0x10) else (if i < 58 then 0x20 else 0x40)) else (if i < 61 then (if i < 60 then 0x80 else 0x1b) else (if i < 62 then 0x36 else 0x6c))))
      else
        if i < 95 then
          if i < 79 then
            (if i < 71 then (if i < 67 then (if i < 65 then (if i < 64 then 0xd8 else 0xab) else (if i < 66 then 0x4d else 0x9a)) else (if i < 69 then (if i < 68 then 0x2f else 0x5e) else (if i < 70 then 0xbc else 0x63))) else (if i < 75 then (if i < 73 then (if i < 72 then 0xc6 else 0x97) else (if i < 74 then 0x35 else 0x6a)) else (if i < 77 then (if i < 76 then 0xd4 else 0xb3) else (if i < 78 then 0x7d else 0xfa))))
          else
            (if i < 87 then (if i < 83 then (if i < 81 then (if i < 80 then 0xef else 0xc5) else (if i < 82 then 0x91 else 0x39)) else (if i < 85 then (if i < 84 then 0x72 else 0xe4) else (if i < 86 then 0xd3 else 0xbd))) else (if i < 91 then (if i < 89 then (if i < 88 then 0x61 else 0xc2) else (if i < 90 then 0x9f else 0x25)) else (if i < 93 then (if i < 92 then 0x4a else 0x94) else (if i < 94 then 0x33 else 0x66))))
        else
          if i < 111 then
            (if i < 103 then (if i < 99 then (if i < 97 then (if i < 96 then 0xcc else 0x83) else (if i < 98 then 0x1d else 0x3a)) else (if i < 101 then (if i < 100 then 0x74 else 0xe8) else (if i < 102 then 0xcb else 0x8d))) else (if i < 107 then (if i < 105 then (if i < 104 then 0x01 else 0x02) else (if i < 106 then 0x04 else 0x08)) else (if i < 109 then (if i < 108 then 0x10 else 0x20) else (if i < 110 then 0x40 else 0x80))))
          else
            (if i < 119 then (if i < 115 then (if i < 113 then (if i < 112 then 0x1b else 0x36) else (if i < 114 then 0x6c else 0xd8)) else (if i < 117 then (if i < 116 then 0xab else 0x4d) else (if i < 118 then 0x9a else 0x2f))) else (if i < 123 then (if i < 121 then (if i < 120 then 0x5e else 0xbc) else (if i < 122 then 0x63 else 0xc6)) else (if i < 125 then (if i < 124 then 0x97 else 0x35) else (if i < 126 then 0x6a else 0xd4))))
    else
      if i < 191 then
        if i < 159 then
          if i < 143 then
            (if i < 135 then (if i < 131 then (if i < 129 then (if i < 128 then 0xb3 else 0x7d) else (if i < 130 then 0xfa else 0xef)) else (if i < 133 then (if i < 132 then 0xc5 else 0x91) else (if i < 134 then 0x39 else 0x72))) else (if i < 139 then (if i < 137 then (if i < 136 then 0xe4 else 0xd3) else (if i < 138 then 0xbd else 0x61)) else (if i < 141 then (if i < 140 then 0xc2 else 0x9f) else (if i < 142 then 0x25 else 0x4a))))
          else
            (if i < 151 then (if i < 147 then (if i < 145 then (if i < 144 then 0x94 else 0x33) else (if i < 146 then 0x66 else 0xcc)) else (if i < 149 then (if i < 148 then 0x83 else 0x1d) else (if i < 150 then 0x3a else 0x74))) else (if i < 155 then (if i < 153 then (if i < 152 then 0xe8 else 0xcb) else (if i < 154 then 0x8d else 0x01)) else (if i < 157 then (if i < 156 then 0x02 else 0x04) else (if i < 158 then 0x08 else 0x10))))
        else
          if i < 175 then
            (if i < 167 then (if i < 163 then (if i < 161 then (if i < 160 then 0x20 else 0x40) else (if i < 162 then 0x80 else 0x1b)) else (if i < 165 then (if i < 164 then 0x36 else 0x6c) else (if i < 166 then 0xd8 else 0xab))) else (if i < 171 then (if i < 169 then (if i < 168 then 0x4d else 0x9a) else (if i < 170 then 0x2f else 0x5e)) else (if i < 173 then (if i < 172 then 0xbc else 0x63) else (if i < 174 then 0xc6 else 0x97))))
          else
            (if i < 183 then (if i < 179 then (if i < 177 then (if i < 176 then 0x35 else 0x6a) else (if i < 178 then 0xd4 else 0xb3)) else (if i < 181 then (if i < 180 then 0x7d else 0xfa) else (if i < 182 then 0xef else 0xc5))) else (if i < 187 then (if i < 185 then (if i < 184 then 0x91 else 0x39) else (if i < 186 then 0x72 else 0xe4)) else (if i < 189 then (if i < 188 then 0xd3 else 0xbd) else (if i < 190 then 0x61 else 0xc2))))
      else
        if i < 223 then
          if i < 207 then
            (if i < 199 then (if i < 195 then (if i < 193 then (if i < 192 then 0x9f else 0x25) else (if i < 194 then 0x4a else 0x94)) else (if i < 197 then (if i < 196 then 0x33 else 0x66) else (if i < 198 then 0xcc else 0x83))) else (if i < 203 then (if i < 201 then (if i < 200 then 0x1d else 0x3a) else (if i < 202 then 0x74 else 0xe8)) else (if i < 205 then (if i < 204 then 0xcb else 0x8d) else (if i < 206 then 0x01 else 0x02))))
          else
            (if i < 215 then (if i < 211 then (if i < 209 then (if i < 208 then 0x04 else 0x08) else (if i < 210 then 0x10 else 0x20)) else (if i < 213 then (if i < 212 then 0x40 else 0x80) else (if i < 214 then 0x1b else 0x36))) else (if i < 219 then (if i < 217 then (if i < 216 then 0x6c else 0xd8) else (if i < 218 then 0xab else 0x4d)) else (if i < 221 then (if i < 220 then 0x9a else 0x2f) else (if i < 222 then 0x5e else 0xbc))))
        else
          if i < 239 then
            (if i < 231 then (if i < 227 then (if i < 225 then (if i < 224 then 0x63 else 0xc6) else (if i < 226 then 0x97 else 0x35)) else (if i < 229 then (if i < 228 then 0x6a else 0xd4) else (if i < 230 then 0xb3 else 0x7d))) else (if i < 235 then (if i < 233 then (if i < 232 then 0xfa else 0xef) else (if i < 234 then 0xc5 else 0x91)) else (if i < 237 then (if i < 236 then 0x39 else 0x72) else (if i < 238 then 0xe4 else 0xd3))))
          else
            (if i < 247 then (if i < 243 then (if i < 241 then (if i < 240 then 0xbd else 0x61) else (if i < 242 then 0xc2 else 0x9f)) else (if i < 245 then (if i < 244 then 0x25 else 0x4a) else (if i < 246 then 0x94 else 0x33))) else (if i < 251 then (if i < 249 then (if i < 248 then 0x66 else 0xcc) else (if i < 250 then 0x83 else 0x1d)) else (if i < 253 then (if i < 252 then 0x3a else 0x74) else (if i < 254 then 0xe8 else 0xcb))))
  }

  function SboxAt(x: byte, y: byte): byte
    decreases y as int, 1
  {
    SboxLeaf(x, y)
  }

  function SboxLeaf(x: byte, y: byte): byte
    decreases y as int, 0
  {
    if y == 0 then SboxTable(x) else SboxAt(x, y - 1)
  }

  function InvSboxAt(x: byte, y: byte): byte
    decreases y as int, 1
  {
    InvSboxLeaf(x, y)
  }

  function InvSboxLeaf(x: byte, y: byte): byte
    decreases y as int, 0
  {
    if y == 0 then InvSboxTable(x) else InvSboxAt(x, y - 1)
  }

  function RconAt(i: int, n: nat): byte
    requires 0 <= i < 255
    decreases n, 1
  {
    RconLeaf(i, n)
  }

  function RconLeaf(i: int, n: nat): byte
    requires 0 <= i < 255
    decreases n, 0
  {
    if n == 0 then RconTable(i) else RconAt(i, n - 1)
  }

  /** The table lookups sbox[x], isbox[x] and Rcon[i]. */
  function Sbox(x: byte): byte
  {
    SboxAt(x, x)
  }

  function InvSbox(x: byte): byte
  {
    InvSboxAt(x, x)
  }

  function Rcon(i: int): byte
    requires 0 <= i < 255
  {
    RconAt(i, i)
  }

  lemma {:induction false} SboxLeafIsTable(x: byte, y: byte)
    ensures SboxLeaf(x, y) == SboxTable(x)
    decreases y as int
  {
    if y != 0 {
      SboxLeafIsTable(x, y - 1);
    }
  }

  lemma SboxIsTable(x: byte)
    ensures Sbox(x) == SboxTable(x)
  {
    SboxLeafIsTable(x, x);
  }

  lemma {:induction false} InvSboxLeafIsTable(x: byte, y: byte)
    ensures InvSboxLeaf(x, y) == InvSboxTable(x)
    decreases y as int
  {
    if y != 0 {
      InvSboxLeafIsTable(x, y - 1);
    }
  }

  lemma InvSboxIsTable(x: byte)
    ensures InvSbox(x) == InvSboxTable(x)
  {
    InvSboxLeafIsTable(x, x);
  }

  lemma {:induction false} RconLeafIsTable(i: int, n: nat)
    requires 0 <= i < 255
    ensures RconLeaf(i, n) == RconTable(i)
    decreases n
  {
    if n != 0 {
      RconLeafIsTable(i, n - 1);
    }
  }

  lemma RconIsTable(i: int)
    requires 0 <= i < 255
    ensures Rcon(i) == RconTable(i)
  {
    RconLeafIsTable(i, i);
  }

  /** getSboxValue, getISboxValue and getRconValue on the in-memory tables. */
  function GetSboxValue(index: byte): byte
  {
    Sbox(index)
  }

  function GetISboxValue(index: byte): byte
  {
    InvSbox(index)
  }

  function GetRconValue(index: int): byte
    requires 0 <= index < 255
  {
    Rcon(index)
  }

  /** Each accessor returns the entry of its table at the index. */
  lemma AccessorsReadTables(x: byte, i: int)
    requires 0 <= i < 255
    ensures GetSboxValue(x) == SboxTable(x)
    ensures GetISboxValue(x) == InvSboxTable(x)
    ensures GetRconValue(i) == RconTable(i)
  {
    SboxIsTable(x);
    InvSboxIsTable(x);
    RconIsTable(i);
  }

  lemma InvTableOfTable(x: byte)
    ensures InvSboxTable(SboxTable(x)) == x
  {}

  lemma TableOfInvTable(y: byte)
    ensures SboxTable(InvSboxTable(y)) == y
  {}

  /** The inverse table undoes the S-box on every byte, */
  lemma InvSboxOfSbox(x: byte)
    ensures InvSbox(Sbox(x)) == x
  {
    SboxIsTable(x);
    InvSboxIsTable(Sbox(x));
    InvTableOfTable(x);
  }

  /** and the S-box undoes the inverse table: both are permutations. */
  lemma SboxOfInvSbox(y: byte)
    ensures Sbox(InvSbox(y)) == y
  {
    InvSboxIsTable(y);
    SboxIsTable(InvSbox(y));
    TableOfInvTable(y);
  }

  /** Rcon[i] is x^(i-1) in GF(2^8) (FIPS-197 section 5.2): entry 1 is
    * {01} and every entry is {02} times the one before it. */
  lemma RconPowers(i: int)
    requires 0 <= i < 254
    ensures Rcon(1) == 0x01
    ensures Rcon(i + 1) == Gf.Xtime(Rcon(i))
  {
    RconIsTable(1);
    RconIsTable(i);
    RconIsTable(i + 1);
    if i < 16 { RconStep0(i); }
    else if i < 32 { RconStep1(i); }
    else if i < 48 { RconStep2(i); }
    else if i < 64 { RconStep3(i); }
    else if i < 80 { RconStep4(i); }
    else if i < 96 { RconStep5(i); }
    else if i < 112 { RconStep6(i); }
    else if i < 128 { RconStep7(i); }
    else if i < 144 { RconStep8(i); }
    else if i < 160 { RconStep9(i); }
    else if i < 176 { RconStep10(i); }
    else if i < 192 { RconStep11(i); }
    else if i < 208 { RconStep12(i); }
    else if i < 224 { RconStep13(i); }
    else if i < 240 { RconStep14(i); }
    else { RconStep15(i); }
  }

  lemma RconStep0(i: int)
    requires 0 <= i < 16
    ensures RconTable(i + 1) == Gf.Xtime(RconTable(i))
  {}

  lemma RconStep1(i: int)
    requires 16 <= i < 32
    ensures RconTable(i + 1) == Gf.Xtime(RconTable(i))
  {}

  lemma RconStep2(i: int)
    requires 32 <= i < 48
    ensures RconTable(i + 1) == Gf.Xtime(RconTable(i))
  {}

  lemma RconStep3(i: int)
    requires 48 <= i < 64
    ensures RconTable(i + 1) == Gf.Xtime(RconTable(i))
  {}

  lemma RconStep4(i: int)
    requires 64 <= i < 80
    ensures RconTable(i + 1) == Gf.Xtime(RconTable(i))
  {}

  lemma RconStep5(i: int)
    requires 80 <= i < 96
    ensures RconTable(i + 1) == Gf.Xtime(RconTable(i))
  {}

  lemma RconStep6(i: int)
    requires 96 <= i < 112
    ensures RconTable(i + 1) == Gf.Xtime(RconTable(i))
  {}

  lemma RconStep7(i: int)
    requires 112 <= i < 128
    ensures RconTable(i + 1) == Gf.Xtime(RconTable(i))
  {}

  lemma RconStep8(i: int)
    requires 128 <= i < 144
    ensures RconTable(i + 1) == Gf.Xtime(RconTable(i))
  {}

  lemma RconStep9(i: int)
    requires 144 <= i < 160
    ensures RconTable(i + 1) == Gf.Xtime(RconTable(i))
  {}

  lemma RconStep10(i: int)
    requires 160 <= i < 176
    ensures RconTable(i + 1) == Gf.Xtime(RconTable(i))
  {}

  lemma RconStep11(i: int)
    requires 176 <= i < 192
    ensures RconTable(i + 1) == Gf.Xtime(RconTable(i))
  {}

  lemma RconStep12(i: int)
    requires 192 <= i < 208
    ensures RconTable(i + 1) == Gf.Xtime(RconTable(i))
  {}

  lemma RconStep13(i: int)
    requires 208 <= i < 224
    ensures RconTable(i + 1) == Gf.Xtime(RconTable(i))
  {}

  lemma RconStep14(i: int)
    requires 224 <= i < 240
    ensures RconTable(i + 1) == Gf.Xtime(RconTable(i))
  {}

  lemma RconStep15(i: int)
    requires 240 <= i < 254
    ensures RconTable(i + 1) == Gf.Xtime(RconTable(i))
  {}

  /** The accessors index the tables they name, so the two S-box
    * accessors undo each other. */
  lemma AccessorsInvert(x: byte)
    ensures GetISboxValue(GetSboxValue(x)) == x
    ensures GetSboxValue(GetISboxValue(x)) == x
  {
    InvSboxOfSbox(x);
    SboxOfInvSbox(x);
  }
}
