# TSense cryptographic core in Dafny

TSense is a sensor network. Its sensors, sinks and authentication server
protect their messages with one small C/C++ library:

- AES-128 (FIPS-197), written with byte tables and an in-place state;
- CBC mode with a library-specific padding;
- AES-CMAC (RFC 4493);
- the TSense message formats. Each message is encrypt-then-MAC: CBC under
  the sensor's key schedule, followed by the CMAC of the ciphertext.

Every key comes in a pair: an encryption key, and a CMAC key derived from it
under a fixed constant. Servers keep those pairs in `TSenseKeyPair` objects
and in sensor profiles.

This project models that library and proves properties of it. The model
follows the C/C++ code.

The modules follow the library's structure:

| module | models |
|---|---|
| `Bytes` | bytes (`bv8`), xor, fills, splicing into a buffer |
| `Gf` | the GF(2^8) macros (`xtime`, `twotimes`, `threetimes`, `four`, `eight`) and the products used by (Inv)MixColumns |
| `Tables` | `sbox`, `isbox`, `Rcon` and their accessors |
| `Aes` | the key schedule and the round functions, stated on a 4x4 `State` |
| `AesBlock` | the in-place block operations on a 16-byte array |
| `Cbc` | `CBCEncrypt` and `CBCDecrypt` |
| `Cmac` | `aes_cmac.cpp`: subkeys, padding, `aesCMac`, `verifyAesCMac`, and the older copies that MAC under the global `pKey` |
| `Wire` | the message struct, little-endian fields, and the sealed (CBC) and MACed fields shared by the protocol copies |
| `Protocol` | `aes_crypt/lib/protocol.cpp` |
| `ProtocolTrunk` | `trunk/aes_crypt/lib/protocol.cpp` |
| `ProtocolLegacy` | `aes-crypt/lib/protocol.cpp` |
| `KeyDerivation` | `TSenseKeyPair` and `deriveKeyScheds` |
| `SinkProfile` | the sink's sensor profile (`SinkSensorProfile`) |
| `Vectors` | the FIPS-197 and RFC 4493 example vectors of aes_crypt/test_cases/aes_cmac_test.cpp, proved of the model |

Style of the model:

- Functions that work in place on buffers are methods on `array<byte>`.
  Each is proved against a function on sequences (`Schedule`, `Cipher`,
  `Chain`, `Mac`, `Seal`, ...).
- The properties the library relies on are lemmas about those functions:
  decryption inverts encryption, the schedule is unique, the CMAC subkeys
  double, padding is unambiguous, and every packed message unpacks to its
  fields.
- Table lookups and recursive cipher functions are written as a chain
  `F`, `FAt`, `FMid` and `FLeaf` (for example `Sbox`, `SboxAt`, `SboxLeaf`,
  or `Encrypt`, `EncryptAt`, `EncryptMid`, `EncryptLeaf`). The chain
  recurses on a byte argument down to its value. The verifier therefore
  does not unfold a 256-entry table or a ten-round cipher wherever one is
  mentioned. Small lemmas (`SboxIsTable`, `EncryptIs`, `RoundIs`, ...) take
  one step down the chain when a proof needs it. They are not listed below.
- Several copies of the same code exist in the repository (`tags/`, the
  Arduino sketch, `trunk/`). Where a copy has the same code, the same
  member models it.

## Model

| member | source | states |
|---|---|---|
| `Bytes.XorTwice` | aes_crypt/lib/aes_cmac.cpp:26-31 | xoring the same block twice gives the original back |
| `Bytes.XorCommutes` | aes_crypt/lib/aes_cmac.cpp:26-31 | the xor of two blocks does not depend on their order |
| `Gf.XtimeIsTwotimes` | aes_crypt/lib/aes_crypt.cpp:44-46 | the branching `xtime` (`Gf.Xtime`) and the branch-free `twotimes` (`Gf.Twotimes`) macros are the same product by {02} |
| `Gf.InvMixColumnOfMixColumn` | aes_crypt/lib/aes_crypt.cpp:320-417 | the inverse column mix undoes the column mix for every column |
| `Gf.TrickRowIsMixColumn` | aes_crypt/lib/aes_crypt.cpp:320-379 | the shortcut MixColumns computes (s_r xor twotimes(s_r xor s_next) xor the column sum) is the FIPS-197 column mix |
| `Gf.ProductsAreFieldProducts` | aes_crypt/lib/aes_crypt.cpp:44-51 | `twotimes`, `threetimes` (`Gf.Twotimes`, `Gf.Threetimes`) and the nine/eleven/thirteen/fourteen sums are the field products by {02}, {03}, {09}, {0b}, {0d} and {0e} |
| `Tables.SboxIsTable` | aes_crypt/lib/aes_crypt.cpp:87-104 | the S-box used by the model is the `sbox` table |
| `Tables.InvSboxIsTable` | aes_crypt/lib/aes_crypt.cpp:66-83 | the inverse S-box used by the model is the `isbox` table |
| `Tables.RconIsTable` | aes_crypt/lib/aes_crypt.cpp:110-126 | `Rcon` used by the model is the 255-entry `Rcon` table |
| `Tables.InvSboxOfSbox` | aes_crypt/lib/aes_crypt.cpp:66-104 | `isbox` inverts `sbox` on every byte |
| `Tables.SboxOfInvSbox` | aes_crypt/lib/aes_crypt.cpp:66-104 | `sbox` inverts `isbox` on every byte, so both tables are bijections |
| `Tables.RconPowers` | aes_crypt/lib/aes_crypt.cpp:110-126 | `Rcon[1]` is 1 and every entry after index 0 is `xtime` of the one before (the powers of {02}) |
| `Tables.AccessorsReadTables` | aes_crypt/lib/aes_crypt.cpp:711-754 | the in-memory paths of `getSboxValue`, `getISboxValue` and `getRconValue` (`Tables.GetSboxValue`, `Tables.GetISboxValue`, `Tables.GetRconValue`) return the table entry at the index |
| `Tables.AccessorsInvert` | aes_crypt/lib/aes_crypt.cpp:711-737 | `getISboxValue` inverts `getSboxValue` and back; tags/alpha-1.0-demo/aes_crypt/lib/aes_crypt.cpp:712-755 has the same accessors |
| `Aes.ScheduleIsScheduleOf` | aes_crypt/lib/aes_crypt.cpp:139-181 | the schedule function meets the FIPS-197 key-expansion recurrence word by word |
| `Aes.IsScheduleOfIsSchedule` | aes_crypt/lib/aes_crypt.cpp:139-181 | any 176 bytes that meet the recurrence are the schedule function's value |
| `Aes.ScheduleStartsWithKey` | aes_crypt/lib/aes_crypt.cpp:141 | the first 16 bytes of the schedule are the key |
| `Aes.ScheduleIsUnique` | aes_crypt/lib/aes_crypt.cpp:139-181 | one key has exactly one schedule |
| `Aes.ExpandWordBytes` | aes_crypt/lib/aes_crypt.cpp:158-175 | one step of the expansion byte by byte: every fourth word is RotWord, SubWord and Rcon xored into the word four back; the others are a plain xor |
| `Aes.KeyExpansionStep` | aes_crypt/lib/aes_crypt.cpp:152-176 | one iteration of the expansion loop writes the next word and advances the Rcon index exactly on 16-byte boundaries |
| `Aes.KeyExpansion` | aes_crypt/lib/aes_crypt.cpp:139-181 | `KeyExpansion` fills the 176-byte buffer with the FIPS-197 schedule of the key; tags/alpha-1.0-demo/aes_crypt/lib/aes_crypt.cpp:74-116 and aes-crypt/arduino_aes/aes_crypt.cpp:242-283 are the same loop |
| `Aes.AddRoundKeyTwice` | aes_crypt/lib/aes_crypt.cpp:190-208 | adding the same round key twice gives the state back |
| `Aes.SubAndShiftRotatesRows` | aes_crypt/lib/aes_crypt.cpp:221-305 | SubAndShift puts sbox of the byte at column (j + i) mod 4 into row i, column j; InvSubAndShift moves it back through isbox |
| `Aes.InvSubAndShiftOfSubAndShift` | aes_crypt/lib/aes_crypt.cpp:221-305 | InvSubAndShift undoes SubAndShift |
| `Aes.SubAndShiftOfInvSubAndShift` | aes_crypt/lib/aes_crypt.cpp:221-305 | SubAndShift undoes InvSubAndShift |
| `Aes.InvMixColumnsOfMixColumns` | aes_crypt/lib/aes_crypt.cpp:320-417 | InvMixColumns undoes MixColumns on a whole state |
| `Aes.InvRoundOfRound` | aes_crypt/lib/aes_crypt.cpp:422-498 | the decryption round `dtransform` undoes the encryption round `ntransform` (in the shifted order the library uses) |
| `Aes.InvCipherOfCipher` | aes_crypt/lib/aes_crypt.cpp:440-535 | DecryptBlock's cipher inverts EncryptBlock's for every state and schedule |
| `AesBlock.AddRoundKey` | aes_crypt/lib/aes_crypt.cpp:190-208 | the block becomes the state xor round key `round` of the schedule; the same in tags/alpha-1.0-demo/aes_crypt/lib/aes_crypt.cpp:125-143 and aes-crypt/arduino_aes/aes_crypt.cpp:291-309 |
| `AesBlock.SubAndShift` | aes_crypt/lib/aes_crypt.cpp:221-257 | the block becomes SubBytes then ShiftRows of itself; the same in tags/alpha-1.0-demo/aes_crypt/lib/aes_crypt.cpp:156-192 and aes-crypt/arduino_aes/aes_crypt.cpp:323-359 |
| `AesBlock.InvSubAndShift` | aes_crypt/lib/aes_crypt.cpp:264-305 | the block becomes InvShiftRows then InvSubBytes of itself; the same in tags/alpha-1.0-demo/aes_crypt/lib/aes_crypt.cpp:199-240 |
| `AesBlock.MixColumns` | aes_crypt/lib/aes_crypt.cpp:320-379 | the block becomes the FIPS-197 column mix of itself; the same in tags/alpha-1.0-demo/aes_crypt/lib/aes_crypt.cpp:255-314 and aes-crypt/arduino_aes/aes_crypt.cpp:373-432 |
| `AesBlock.InvMixColumns` | aes_crypt/lib/aes_crypt.cpp:385-417 | the block becomes the inverse column mix of itself; the same in tags/alpha-1.0-demo/aes_crypt/lib/aes_crypt.cpp:320-352 |
| `AesBlock.TransformRound` | aes_crypt/lib/aes_crypt.cpp:422 | `ntransform` takes the block through one cipher round |
| `AesBlock.InvTransformRound` | aes_crypt/lib/aes_crypt.cpp:498 | `dtransform` takes the block through one inverse round |
| `AesBlock.EncryptBlock` | aes_crypt/lib/aes_crypt.cpp:440-486 | the looped EncryptBlock leaves the AES-128 cipher of the block under the schedule; the same in tags/alpha-1.0-demo/aes_crypt/lib/aes_crypt.cpp:375-421 and aes-crypt/arduino_aes/aes_crypt.cpp:497-564 |
| `AesBlock.EncryptBlockUnrolled` | aes_crypt/lib/aes_crypt.cpp:451-460 | the `unroll_encrypt_loop` body computes the same cipher |
| `AesBlock.DecryptBlock` | aes_crypt/lib/aes_crypt.cpp:499-535 | the looped DecryptBlock leaves the inverse cipher of the block; the same in tags/alpha-1.0-demo/aes_crypt/lib/aes_crypt.cpp:434-470 |
| `AesBlock.DecryptBlockUnrolled` | aes_crypt/lib/aes_crypt.cpp:504-513 | the `unroll_decrypt_loop` body computes the same inverse cipher |
| `AesBlock.DecryptOfEncrypt` | aes_crypt/lib/aes_crypt.cpp:440-535 | decrypting an encrypted 16-byte block gives it back, for every schedule |
| `Cbc.ResolvePadding` | aes_crypt/lib/aes_crypt.cpp:570-577 | an explicit padding is kept; AUTOPAD (17) becomes the least pad, below 16, that makes the length a multiple of 16 |
| `Cbc.AutopadBlockCount` | aes_crypt/lib/aes_crypt.cpp:566-577 | with AUTOPAD the number of blocks encrypted is (length + 17) / 16: one block more than the padded text when length mod 16 is 0 or 15 |
| `Cbc.UnchainOfChain` | aes_crypt/lib/aes_crypt.cpp:558-703 | CBC decryption of the CBC encryption of n blocks gives the n blocks back |
| `Cbc.ChainBlocks` | aes_crypt/lib/aes_crypt.cpp:596-655 | every block i < n of the CBC output is E(P_i xor C_(i-1)), with the IV for C_(-1) |
| `Cbc.UnchainBlocks` | aes_crypt/lib/aes_crypt.cpp:676-701 | every block i < n of the CBC decryption is D(C_i) xor C_(i-1), with the IV for C_(-1) |
| `Cbc.CbcRoundTrip` | aes_crypt/lib/aes_crypt.cpp:558-703 | decrypting what CBCEncrypt leaves in the buffer, over the blocks it encrypted, gives the text back in its first `length` bytes (for AUTOPAD or a padding that aligns the length) |
| `Cbc.EncryptChainLoop` | aes_crypt/lib/aes_crypt.cpp:596-655 | the block loop of CBCEncrypt, with lastblock starting as the IV, CBC-encrypts the first `blocks` blocks of the buffer in place and leaves the rest |
| `Cbc.DecryptChainLoop` | aes_crypt/lib/aes_crypt.cpp:676-701 | the block loop of CBCDecrypt writes the CBC decryption of the first `blocks` ciphertext blocks and leaves the rest of the buffer |
| `Cbc.CBCEncrypt` | aes_crypt/lib/aes_crypt.cpp:558-656 | the buffer becomes the text, 0x80 pad bytes and the old tail, CBC-encrypted in place over (length + padding) / 16 blocks, for the looped body and both unrolled bodies; tags/alpha-1.0-demo/aes_crypt/lib/aes_crypt.cpp:493-591 has the same function |
| `Cbc.CBCDecrypt` | aes_crypt/lib/aes_crypt.cpp:666-703 | the looped and the tags/alpha-1.0-demo (601-704) bodies leave CBC decryption of length / 16 blocks followed by the old tail; the reference unrolled body is empty and leaves the buffer unchanged |
| `Cmac.ConstRb` | aes_crypt/lib/aes_cmac.cpp:39-45 | Rb is fifteen zero bytes followed by 0x87 |
| `Cmac.LeftShiftKey` | aes_crypt/lib/aes_cmac.cpp:13-22 | `leftShiftKey` writes the 128-bit left shift by one of the block |
| `Cmac.ShiftLeftDoubles` | aes_crypt/lib/aes_cmac.cpp:13-22 | as a 128-bit big-endian number the shifted block is twice the block minus the carried-out top bit |
| `Cmac.XorToLength` | aes_crypt/lib/aes_cmac.cpp:26-31 | `xorToLength` writes the xor of the two 16-byte blocks, also when the output is one of the inputs |
| `Cmac.ExpandMacKey` | aes_crypt/lib/aes_cmac.cpp:39-45 | `expandMacKey` writes the RFC 4493 subkey step: the shift, xored with Rb when the top bit was set |
| `Cmac.SubkeyVectorK1` | aes_crypt/lib/aes_cmac.cpp:39-45 | on L of the RFC 4493 section 4 example the subkey step gives its K1 |
| `Cmac.SubkeyVectorK2` | aes_crypt/lib/aes_cmac.cpp:39-45 | on that K1 the subkey step gives the example's K2 |
| `Cmac.Pad` | aes_crypt/lib/aes_cmac.cpp:50-62 | a short last block is its bytes, 0x80 and zeros; a full one is unchanged |
| `Cmac.PadUnambiguous` | aes_crypt/lib/aes_cmac.cpp:50-62 | two short last blocks with the same padding have the same length and the same bytes |
| `Cmac.Padding` | aes_crypt/lib/aes_cmac.cpp:50-62 | `padding` writes the padded last block |
| `Cmac.InitBlockZero` | aes_crypt/lib/aes_cmac.cpp:65-70 | `initBlockZero` zeroes the 16 bytes |
| `Cmac.MacBlockCount` | aes_crypt/lib/aes_cmac.cpp:112-125 | the block count is the least n >= 1 with len <= 16 n |
| `Cmac.CbcMacIsChain` | aes_crypt/lib/aes_cmac.cpp:141-160 | the CMAC's running block after i blocks is the last block of the CBC chain of those blocks from a zero IV |
| `Cmac.TagOfLastBlock` | aes_crypt/lib/aes_cmac.cpp:127-165 | RFC 4493 section 2.4: with X the CBC-MAC of the first n - 1 blocks, the tag is E(X xor M_n xor K1) with M_n the last sixteen bytes when the last block is complete, and E(X xor padding(M_n) xor K2) with M_n the bytes after the last whole block otherwise |
| `Cmac.MacSubkeys` | aes_crypt/lib/aes_cmac.cpp:102-107 | step 1 of `aesCMac` leaves K1 and K2 derived from L = E(0) in two fresh blocks |
| `Cmac.CountBlocks` | aes_crypt/lib/aes_cmac.cpp:109-125 | steps 2 and 3 give the least n >= 1 with len <= 16 n, and "complete" exactly when the message is a non-empty whole number of blocks |
| `Cmac.CbcMacChain` | aes_crypt/lib/aes_cmac.cpp:141-160 | the step 6 loop leaves X, the CBC-MAC of the first `count` blocks |
| `Cmac.MacTag` | aes_crypt/lib/aes_cmac.cpp:162-165 | the last step leaves E(X xor M_last) |
| `Cmac.MacReadsMessage` | aes_crypt/lib/aes_cmac.cpp:87-171 | the tag depends on the first `M_length` bytes of the message only |
| `Cmac.AesCMac` | aes_crypt/lib/aes_cmac.cpp:87-171 | `aesCMac` writes the RFC 4493 AES-CMAC of the first `M_length` bytes under the given schedule |
| `Cmac.CompareMac` | aes_crypt/lib/aes_cmac.cpp:198-206 | the compare loop returns CMAC_VALID exactly when all sixteen bytes agree, else CMAC_INVALID |
| `Cmac.VerifyAesCMac` | aes_crypt/lib/aes_cmac.cpp:189-206 | `verifyAesCMac` expands the key, computes the tag and returns CMAC_VALID exactly when it equals the 16 bytes given, else CMAC_INVALID |
| `Cmac.NewPKey` | aes-crypt/arduino_aes/aes_crypt.cpp:231 | the global `pKey` holds the FIPS key 2b7e1516 28aed2a6 abf71588 09cf4f3c |
| `Cmac.LegacyAesCMac` | aes-crypt/lib/aes_cmac.cpp:87-163 | the older `aesCMac` (also aes-crypt/arduino_aes/aes_crypt.cpp:683-759) ignores its key argument and writes the CMAC under the schedule of the global `pKey` |
| `Cmac.LegacyVerifyAesCMac` | aes-crypt/lib/aes_cmac.cpp:181-194 | the older `verifyAesCMac` (also aes-crypt/arduino_aes/aes_crypt.cpp:777-790) returns CMAC_VALID exactly when the tag under `pKey` matches |
| `Wire.Le16ValueOfImage` | aes_crypt/lib/protocol.cpp:28-37 | reading two little-endian bytes back gives the 16-bit value written |
| `Wire.Le16ImageOfValue` | aes_crypt/lib/protocol.cpp:28-37 | writing the value read from two bytes gives those bytes back |
| `Wire.Le32ValueOfImage` | aes_crypt/lib/protocol.cpp:131-135 | reading four little-endian bytes back gives the 32-bit value written |
| `Wire.Le32ImageOfValue` | trunk/aes_crypt/lib/protocol.cpp:22-31 | writing the value read from four bytes gives those bytes back |
| `Wire.FirstByteOfImage` | aes_crypt/lib/protocol.cpp:98-103 | the `(u_intN_ard)*temp` read through a byte pointer keeps only the low byte of a little-endian value |
| `Wire.OpenSeal` | aes_crypt/lib/protocol.cpp:40-88 | opening a sealed field gives the field and its padding back |
| `Wire.EncryptedBufferIsSeal` | aes_crypt/lib/protocol.cpp:25-41 | the buffer CBCEncrypt leaves, when it is exactly the padded size, is the sealed field |
| `Wire.SealBuffer` | aes_crypt/lib/protocol.cpp:160-161 | the cipher buffer the pack functions allocate and encrypt holds the sealed field |
| `Wire.OpenBuffer` | aes_crypt/lib/protocol.cpp:350-352 | the plain buffer the unpack functions allocate and decrypt holds the opened field |
| `Wire.CmacBuffer` | aes_crypt/lib/protocol.cpp:162 | the MAC buffer holds the CMAC of the ciphertext |
| `Wire.IdResponseOpens` | aes_crypt/lib/protocol.cpp:23-69 | an ID response is the type 0x10, the plain ID, E(ID, nonce, padding) and the CMAC of that ciphertext |
| `Wire.KeyToSinkFields` | aes_crypt/lib/protocol.cpp:118-175 | a key-to-sink message is the type 0x11, the new key, the timer, E(nonce, key, timer, padding) and the CMAC of that ciphertext |
| `Wire.KeyToSinkCipherOpens` | aes_crypt/lib/protocol.cpp:118-175 | opening the key-to-sink ciphertext gives the nonce, the key, the timer and the 0x80 padding |
| `Wire.WriteBytes` | aes_crypt/lib/protocol.cpp:54-57 | a field copy loop writes the field at its offset and nothing else |
| `Wire.WriteParts3` | aes_crypt/lib/protocol.cpp:53-68 | three consecutive field copies write the three fields in order |
| `Wire.ReadField` | aes_crypt/lib/protocol.cpp:98-102 | a field read loop copies exactly the field's bytes |
| `Wire.SpliceAdjacent` | aes_crypt/lib/protocol.cpp:50-68 | writing two fields one after the other is writing their concatenation |
| `Wire.WritePacket4` | aes_crypt/lib/protocol.cpp:221-229 | four consecutive field writes from offset 0 write the concatenated message |
| `Wire.WritePacket5` | aes_crypt/lib/protocol.cpp:122-174 | five consecutive field writes from offset 0 write the concatenated message |
| `Protocol.PackIdResponse` | aes_crypt/lib/protocol.cpp:23-69 | `pack_idresponse` sets msgtype to MSG_T_GET_ID_R and writes the ID response of the ID and the 16-bit nonce into the first 39 bytes; the rest of the buffer is unchanged |
| `Protocol.UnpackIdResponse` | aes_crypt/lib/protocol.cpp:70-112 | `unpack_idresponse` stores the type, the ciphertext, the decrypted ID (NUL-terminated), the nonce as read through a byte pointer and the MAC |
| `Protocol.IdResponseRoundTrip` | aes_crypt/lib/protocol.cpp:23-112 | unpacking a packed ID response gives the ID and a valid MAC; the two nonce bytes are the nonce, but the stored nonce is only its low byte |
| `Protocol.NonceReadLosesHighByte` | aes_crypt/lib/protocol.cpp:98-103 | the nonce 0x100 is stored as 0 by the byte-pointer read, although its two bytes encode 0x100 |
| `Protocol.PackKeyToSink` | aes_crypt/lib/protocol.cpp:118-175 | `pack_keytosink` sets msgtype and the MAC field and writes the key-to-sink message into the first 69 bytes |
| `Protocol.UnpackKeyToSink` | aes_crypt/lib/protocol.cpp:177-212 | `unpack_keytosink` stores the type, the plain key, the timer as read through a byte pointer, the ciphertext and the MAC, without decrypting; trunk/aes_crypt/lib/protocol.cpp:179-214 is the same function |
| `Protocol.PackKeyToSense` | aes_crypt/lib/protocol.cpp:214-230 | `pack_keytosens` sets msgtype to the key-to-sense type and forwards the ciphertext and the MAC unchanged; trunk/aes_crypt/lib/protocol.cpp:216-232 is the same with type 0x11 |
| `Protocol.UnpackKeyToSense` | aes_crypt/lib/protocol.cpp:232-273 | `unpack_keytosens` stores the type, the ciphertext and the MAC and the decrypted nonce, key and timer |
| `Protocol.KeyExchangeRoundTrip` | aes_crypt/lib/protocol.cpp:118-273 | a key packed for the sink and forwarded to the sensor decrypts to the same key, the nonce's and timer's bytes, and a valid MAC; the stored nonce and timer are their low bytes |
| `Protocol.PackRekey` | aes_crypt/lib/protocol.cpp:278-330 | `pack_rekey` keeps MSG_T_REKEY_HANDSHAKE or else sets MSG_T_REKEY_REQUEST, writes the type byte only for a handshake, and writes the ID, E(ID, nonce) and its CMAC |
| `Protocol.UnpackRekey` | aes_crypt/lib/protocol.cpp:331-369 | `unpack_rekey` stores the type, ciphertext, MAC, decrypted ID and the nonce read from its NONCE_SIZE bytes |
| `Protocol.RekeyRoundTrip` | aes_crypt/lib/protocol.cpp:278-369 | unpacking a packed rekey message gives the ID, the nonce's bytes and a valid MAC |
| `Protocol.RekeyIsIdResponseBody` | aes_crypt/lib/protocol.cpp:278-330 | after the type byte a rekey message is exactly an ID response |
| `Protocol.RekeyNonceLoopOverrun` | aes_crypt/lib/protocol.cpp:362-367 | the nonce loop of `unpack_rekey` copies ID_SIZE (6) bytes, more than NONCE_SIZE (2): the nonce and four pad bytes |
| `ProtocolTrunk.PackIdResponse` | trunk/aes_crypt/lib/protocol.cpp:17-63 | the trunk `pack_idresponse` writes the ID response with the 32-bit nounce |
| `ProtocolTrunk.UnpackIdResponse` | trunk/aes_crypt/lib/protocol.cpp:64-118 | the trunk `unpack_idresponse` stores the plain ID, the decrypted ID as pCipherID, the nounce as read through a byte pointer and the MAC; aes-crypt/lib/protocol.cpp:68-122 is the same |
| `ProtocolTrunk.IdResponseRoundTrip` | trunk/aes_crypt/lib/protocol.cpp:17-118 | unpacking a packed trunk ID response gives the plain ID, the same decrypted ID, the nounce's bytes and a valid MAC |
| `ProtocolTrunk.PackKeyToSink` | trunk/aes_crypt/lib/protocol.cpp:120-177 | the trunk `pack_keytosink` writes the key-to-sink message with the 32-bit nounce |
| `ProtocolTrunk.UnpackKeyToSense` | trunk/aes_crypt/lib/protocol.cpp:234-277 | the trunk `unpack_keytosens` stores the ciphertext, the MAC and the decrypted nounce, key and timer |
| `ProtocolTrunk.KeyExchangeRoundTrip` | trunk/aes_crypt/lib/protocol.cpp:120-277 | the trunk key exchange delivers the key, the nounce's and timer's bytes and a valid MAC to the sensor |
| `ProtocolLegacy.LegacyCmacBuffer` | aes-crypt/lib/protocol.cpp:42 | the MAC of the oldest copy is the CMAC under the schedule of `pKey`, whatever key is passed |
| `ProtocolLegacy.IdAndNounce` | aes-crypt/lib/protocol.cpp:25-35 | the combined copy loop lays out the ID followed by the four nounce bytes |
| `ProtocolLegacy.PackIdResponse` | aes-crypt/lib/protocol.cpp:18-67 | the oldest `pack_idresponse` writes type, ID, E(ID, nounce) with padding 6 and the CMAC under `pKey` |
| `ProtocolLegacy.NumBlocks` | aes-crypt/lib/protocol.cpp:127-147 | the least number of 16-byte blocks that holds `len` bytes |
| `ProtocolLegacy.NeededBlocks` | aes-crypt/lib/protocol.cpp:127-147 | `neededblocks` returns that least count, truncated to 16 bits |
| `ProtocolLegacy.NeededBlocksNeverExits` | aes-crypt/lib/protocol.cpp:134-146 | for a length above 0xFFFFFFF0 no 32-bit counter passes the loop's test |
| `ProtocolLegacy.Padding` | aes-crypt/lib/protocol.cpp:149-157 | `padding` is the least pad below 16 that aligns the length |
| `ProtocolLegacy.PaddingFillsNeededBlocks` | aes-crypt/lib/protocol.cpp:127-157 | `padding` agrees with CBCEncrypt's AUTOPAD choice, and the padded text fills exactly the blocks `neededblocks` counts |
| `KeyDerivation.MacKeyOf` | tsensor/tsense_keypair.cpp:25-34 | the CMAC key is 16 bytes: the CMAC of the key under the schedule of the constant |
| `KeyDerivation.MacKeyIsOneBlock` | tsensor/tsense_keypair.cpp:29-34 | since the key is one complete block, the CMAC key is E(key xor K1) under the constant's schedule (RFC 4493 with one block) |
| `KeyDerivation.Expand` | tsensor/tsense_keypair.cpp:23 | `KeyExpansion` of the key buffer writes its schedule |
| `KeyDerivation.CopyKey` | tsensor/tsense_keypair.cpp:20 | the key is copied into a fresh 16-byte buffer |
| `KeyDerivation.MacKeySchedule` | trunk/server/OpenSslServer/ts_db_basesensorprofile.cpp:88-105 | the CMAC key is the CMAC of a copy of the key under the constant's schedule, and its schedule is expanded from it |
| `KeyDerivation.DeriveKeyScheds` | trunk/server/OpenSslServer/ts_db_basesensorprofile.cpp:81-106 | `deriveKeyScheds` writes the key's schedule and the schedule of its CMAC key into the two output buffers |
| `KeyDerivation.KeyPair.constructor` | tsensor/tsense_keypair.cpp:18-38 | the pair holds a copy of the key, its schedule, the CMAC key under the constant, and that key's schedule; trunk/server/OpenSslServer/tsense_keypair.cpp:11-31 is the same |
| `KeyDerivation.KeyPair.GetCryptoKey` | tsensor/tsense_keypair.cpp:40-42 | returns the stored copy of the key |
| `KeyDerivation.KeyPair.GetCryptoKeySched` | tsensor/tsense_keypair.cpp:44-46 | returns the stored schedule, that of the key |
| `KeyDerivation.KeyPair.GetMacKey` | tsensor/tsense_keypair.cpp:48-50 | returns the stored CMAC key derived from the key |
| `KeyDerivation.KeyPair.GetMacKeySched` | tsensor/tsense_keypair.cpp:52-54 | returns the stored schedule of the CMAC key |
| `SinkProfile.Zero` | server/OpenSslServer/ts_db_sinksensorprofile.cpp:40-46 | a key buffer is zeroed |
| `SinkProfile.Store` | server/OpenSslServer/ts_db_sinksensorprofile.cpp:157-161 | a decoded field is copied into its buffer |
| `SinkProfile.SinkSensorProfile.GenerateKeyScheds` | server/OpenSslServer/ts_db_sinksensorprofile.cpp:92-114 | `generateKeyScheds` makes the schedules of K_ST, of its CMAC key under cBeta, of K_STE (the CMAC of R under the schedule of cGamma) and of K_STE's CMAC key under cEpsilon |
| `SinkProfile.SinkSensorProfile.WithKey` | server/OpenSslServer/ts_db_sinksensorprofile.cpp:23-30 | the K_ST constructor stores the ID, K_ST and R and derives all four schedules |
| `SinkProfile.SinkSensorProfile.FromDatabase` | server/OpenSslServer/ts_db_sinksensorprofile.cpp:36-51 | the ID-only constructor zeroes the keys and schedules; when the profile exists it loads ID, K_ST and R from the row and derives the schedules |
| `SinkProfile.SinkSensorProfile.Clear` | server/OpenSslServer/ts_db_sinksensorprofile.cpp:40-46 | all keys and schedules are zero |
| `SinkProfile.SinkSensorProfile.Retrieve` | server/OpenSslServer/ts_db_sinksensorprofile.cpp:157-165 | the decoded row's ID, K_ST and R are stored and the schedules derived from them |
| `SinkProfile.SinkSensorProfile.SetKeys` | server/OpenSslServer/ts_db_sinksensorprofile.cpp:157-165 | K_ST and R are stored and `generateKeyScheds` derives the schedules |
| `SinkProfile.SinkSensorProfile.GetKstSched` | server/OpenSslServer/ts_db_sinksensorprofile.cpp:56-58 | the schedule of K_ST, or zeros for a profile that was not found |
| `SinkProfile.SinkSensorProfile.GetKstaSched` | server/OpenSslServer/ts_db_sinksensorprofile.cpp:63-65 | the schedule of K_ST's CMAC key under cBeta, or zeros |
| `SinkProfile.SinkSensorProfile.GetKsteSched` | server/OpenSslServer/ts_db_sinksensorprofile.cpp:70-72 | the schedule of K_STE, or zeros |
| `SinkProfile.SinkSensorProfile.GetKsteaSched` | server/OpenSslServer/ts_db_sinksensorprofile.cpp:77-79 | the schedule of K_STE's CMAC key under cEpsilon, or zeros |
| `SinkProfile.SinkSensorProfile.GetKst` | server/OpenSslServer/ts_db_sinksensorprofile.cpp:81-83 | the stored K_ST, zeros for a profile that was not found |
| `SinkProfile.SinkSensorProfile.GetR` | server/OpenSslServer/ts_db_sinksensorprofile.cpp:85-87 | the stored R, zeros for a profile that was not found |
| `Vectors.ScheduleExample` | aes_crypt/lib/aes_crypt.cpp:139-181 | the schedule of the key 2b7e1516 28aed2a6 abf71588 09cf4f3c has the eleven round keys of FIPS-197 Appendix A.1 |
| `Vectors.CipherExample` | aes_crypt/lib/aes_crypt.cpp:440-486 | under that schedule the block 3243f6a8 885a308d 313198a2 e0370734 encrypts to 3925841d 02dc09fb dc118597 196a0b32 (FIPS-197 Appendix B) |
| `Vectors.SubkeyExample` | aes_crypt/lib/aes_cmac.cpp:102-107 | L, K1 and K2 of that key are those of section 4 of RFC 4493 |
| `Vectors.MacExamples` | aes_crypt/test_cases/aes_cmac_test.cpp:36-88 | the tags of the 0-, 16-, 40- and 64-byte messages under that key are CMAC0, CMAC16, CMAC40 and CMAC64 |
| `Vectors.VerifyExamples` | aes_crypt/test_cases/aes_cmac_test.cpp:91-92 | verifying the 64-byte message against its own tag gives 1, against CMAC40 gives 0 |

## Left out

- Randomness and I/O: `generateKey` reads `/dev/urandom`. The keys, R and the nonces are inputs.
- The database: the query in `retrieve`, `persist`, `profileExists`, the base64 coding and `printProfile`. A profile lookup is an input (`Missing` or a decoded `Row`).
- Console and EEPROM output: `verbose_debug` printing and the Arduino sketches' EEPROM code.
- The Arduino T-box path: `initializeTboxes`, `ttransform` and `lttransform`. The Arduino copy's textbook path is modelled by the `AesBlock` methods.
- The float `ceil`/`ceilf` of the CMAC block count is modelled as integer division rounding up. Float rounding above 2^24 bytes is not modelled.
- Pointer aliasing: methods require their buffers to be distinct where the C code passes distinct buffers. The message struct's byte pointers are sequences.
- `SinkProfile.SinkSensorProfile.Retrieve`, `SinkProfile.SinkSensorProfile.FromDatabase`: the stored ID is a value of its own. In the C code `devicePublicId` points to the caller's `pID` buffer (the base-class constructor stores the pointer), so the `base64Decode` of row[0] in `retrieve` (server/OpenSslServer/ts_db_sinksensorprofile.cpp:157) writes into the caller's buffer. That write is not modelled.
- Integer widths: lengths are natural numbers below 2^32, and the message fields are `bv16`/`bv32`.
- Endianness: the byte-pointer writes of multi-byte fields assume a little-endian machine.
- Header constants not among the source files are taken, or passed, as follows:
  - MSG_T_GET_ID_R = 0x10, MSG_T_KEY_TO_SINK = 0x11, MSG_T_REKEY_REQUEST = 0x30 and MSG_T_REKEY_HANDSHAKE = 0x31, following tags/alpha-1.0-demo/server/OpenSslServer/tls_sinkserver.cpp:93-100;
  - the key-to-sense type of `Protocol.PackKeyToSense` is a parameter;
  - REKEY_CRYPTSIZE is 16;
  - the trunk NOUNCE_SIZE is 4 and its nounce 32 bits, as in trunk/aes-crypt/lib/protocol.h;
  - cBeta, cGamma and cEpsilon are constructor arguments.
- `pack_newkey` and `unpack_newkey` of aes_crypt/lib/protocol.cpp:370-428 are empty, so they are not modelled.
- The trunk copy of ts_db_sinksensorprofile is not part of this model. server/OpenSslServer/ts_db_basesensorprofile.cpp is not part of this model either; `deriveKeyScheds` follows the trunk copy.
- The Python bridge and server scripts: TLS and serial plumbing.
- `ProtocolTrunk.PackKeyToSink`: uses a padding of 16 - (NOUNCE_SIZE + TIMER_SIZE) = 8 from NOUNCE_SIZE 4, so the 24 bytes of nounce, key and timer and the padding fill a 32-byte cipher buffer. The header beside the trunk source, trunk/aes_crypt/lib/protocol.h:30-43, defines no NOUNCE_SIZE. It sets NONCE_SIZE to 2, so KEYTOSINK_PADLEN is 10 and the cipher buffer has 32 bytes. With NOUNCE_SIZE 4, `CBCEncrypt` at trunk/aes_crypt/lib/protocol.cpp:162-163 stages 24 + 10 = 34 bytes into that 32-byte buffer. That 2-byte overrun is not modelled.
- `ProtocolLegacy.NeededBlocks`: requires len <= 0xFFFFFFF0, because for larger lengths the C loop never exits (`ProtocolLegacy.NeededBlocksNeverExits`).
- `SinkProfile.SinkSensorProfile.FromDatabase`: requires a found row to decode into a 6-byte ID and two 16-byte keys. The C code copies from the decoded base64 without checking its size.
- `Protocol.UnpackRekey`: stores the nonce from its NONCE_SIZE bytes. The C loop's out-of-bounds write of ID_SIZE bytes into a NONCE_SIZE allocation is shown by `Protocol.RekeyNonceLoopOverrun` instead.
- `Protocol.UnpackIdResponse`, `Protocol.UnpackKeyToSense`, `Protocol.UnpackRekey`, `ProtocolTrunk.UnpackIdResponse`, `ProtocolTrunk.UnpackKeyToSense`: the AES-CMAC is not checked on unpacking, as in the C code; the MAC is stored for the caller.

## Findings

| source | as written | input that shows it | evidently intended | confidence | as-written member | corrected member |
|---|---|---|---|---|---|---|
| aes_crypt/lib/protocol.cpp:98-103 | the nonce is read back as `(u_int16_ard)*temp` with `temp` a byte pointer, which keeps only the first byte | nonce 0x100: packed as bytes 00 01, unpacked as 0 | the little-endian 16-bit value of the two bytes | high, not executed | `Protocol.NonceReadLosesHighByte` | `Protocol.IdResponseRoundTrip` |
| aes_crypt/lib/protocol.cpp:362-367 | `unpack_rekey` copies ID_SIZE bytes into a NONCE_SIZE allocation | any rekey message: 6 bytes, the nonce and four pad bytes, go into 2 | copy NONCE_SIZE bytes | high, not executed | `Protocol.RekeyNonceLoopOverrun` | `Protocol.UnpackRekey` |
| aes-crypt/lib/protocol.cpp:134-146 | `neededblocks` counts i up until len <= i * 16 in 32 bits | len = 0xFFFFFFF1: i * 16 mod 2^32 never reaches it, so the loop never exits | the least block count | medium, not executed | `ProtocolLegacy.NeededBlocksNeverExits` | `ProtocolLegacy.NumBlocks` |
| aes_crypt/lib/aes_crypt.cpp:566-577 | CBCEncrypt computes the block count from the padding argument before AUTOPAD (17) is resolved | length 16 with AUTOPAD: 2 blocks are encrypted for 16 bytes of padded text | (length + resolved padding) / 16 blocks | medium, not executed | `Cbc.AutopadBlockCount` | `ProtocolLegacy.PaddingFillsNeededBlocks` |
