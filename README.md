# Simplified DES in Dafny

A verified model of a teaching variant of DES ("Simplified DES"), together with
the file codec built on it:

- **sdes.c.** The block cipher on 12-bit blocks.
  - A block is two 6-bit halves.
  - Each round swaps the halves and mixes in an S-box-based Feistel function of one half with an 8-bit round key.
  - Encryption ends with a final half-swap.
  - Decryption is the same computation with the round keys in reverse order.
  - The key schedule derives up to nine 8-bit round keys from a 9-bit master key, using two sliding masks.
- **encrypt.c, `encrypt_file`.** The encrypted file starts with one unencrypted byte giving the padding count (0, 1 or 2). Then, for every three plaintext bytes (the last group zero-filled), it holds three bytes carrying two independently enciphered 12-bit blocks.
- **decrypt.c, `decrypt_file`.** The inverse:
  - It rejects an input whose length is not 1 more than a multiple of 3.
  - It decrypts each group.
  - It writes only `3 - padding` bytes of the last group.

Modules:

| module | file | models |
|---|---|---|
| `Wrappers` | wrappers.dfy | `Option` (a NULL result) and `Result` (an error exit) |
| `Sdes` | sdes.dfy | S-boxes, `expand`, `confuse`, `feistel`, `feistel_round`, `encrypt`, `decrypt`, `generate_round_keys` |
| `ByteGroups` | groups.dfy | 3-byte groups read into and written from a 32-bit buffer |
| `Encryptor` | encryptor.dfy | `encrypt_file` over byte sequences |
| `Decryptor` | decryptor.dfy | `decrypt_file` over byte sequences, and the round trip through both |

### Modelling choices

- **Widths.** C's `uint8_t`, `uint16_t` and `uint32_t` become `bv8`, `bv16` and `bv32`. Every truncation the C code performs on assignment is written out, e.g. `Low8` and `Low12`.
- **The code as loops.** `encrypt`, `decrypt`, `generate_round_keys`, `encrypt_file` and `decrypt_file` are methods whose loops keep the source's structure:
  - `generate_round_keys` fills an array while shifting the two masks.
  - `decrypt` counts down from `num_rounds - 1`.
  - `decrypt_file` counts down `remaining_reads` and trims `output_val` on the last group.
- **Specifications.** Each method is proved equal to a function:
  - `encrypt` and `decrypt` to `Cipher`;
  - `generate_round_keys` to `RoundKeys`;
  - `encrypt_file` to `Encoded`;
  - `decrypt_file` to `Decoded`.

  The properties are lemmas about those functions: the cipher inverse, the rotation form of the key schedule, and the file round trip.
- **Files.** A file is a `seq<bv8>`.
  - A read of up to three bytes into a zeroed `uint32_t` is `Pack`, with the little-endian byte order the code relies on written out.
  - A 3-byte `fwrite` of a `uint32_t` is `Unpack`.
- **Key width.** The key schedule is modelled for any 16-bit key, as the C function accepts one. The command-line front ends reject keys above 0x1FF (encrypt.c:42, decrypt.c:39). The comment at encrypt.c:113-114 says the seven high bits are ignored, but the mask loop does read them. `HighKeyBitsMatter` shows this, so the rotation form of the schedule is stated for 9-bit keys.

## Model

| member | source | states |
|---|---|---|
| Sdes.SBoxEntriesFit | sdes.c:15-16 | both S-boxes have 16 entries, each a 3-bit value |
| Sdes.ExpandPattern | sdes.c:19-31 | with input bits numbered 1..6 from the most significant, output bit j is input bit `12434356`[j] |
| Sdes.Confuse | sdes.c:42-44 | the result is 6 bits; its top 3 bits are `s1_box[input >> 4]` and its low 3 bits `s2_box[input & 15]` |
| Sdes.Feistel | sdes.c:55-57 | the Feistel value of a half and a round key is a 6-bit value |
| Sdes.FeistelRound | sdes.c:71-73 | for a 12-bit block the result is 12 bits; its high half is the old low half, and its low half is `feistel(low, key) ^ high` |
| Sdes.Mix | sdes.c:72 | the round layout for a Feistel value f is always 12 bits; for a 12-bit input its high half is the old low half and its low half is `f ^ high` |
| Sdes.HalfSwap | sdes.c:137-141 | the final swap yields 12 bits, with the halves of its input exchanged |
| Sdes.HalfSwapInvolution | sdes.c:164-168 | swapping twice restores a 12-bit block |
| Sdes.MixUndo | sdes.c:72 | mixing the same Feistel value twice, with a half-swap between, gives the swapped input |
| Sdes.RoundUndo | sdes.c:71-73 | a round with key k, a half-swap and a round with k again gives the half-swapped block |
| Sdes.ApplyRounds | sdes.c:132-134 | a round sequence maps 12-bit blocks to 12-bit blocks |
| Sdes.ApplyRoundsAppend | sdes.c:132-134 | running rounds with keys s and then t is running rounds with s + t |
| Sdes.RoundsUndo | sdes.c:159-161 | the rounds with reversed keys, after a half-swap, unwind the forward rounds up to a half-swap |
| Sdes.Cipher | sdes.c:129-143 | the cipher always yields a 12-bit block |
| Sdes.CipherInverse | sdes.c:129-170 | for every 12-bit block and any subkeys, deciphering the ciphertext with the keys reversed gives the block back, and so does the opposite order |
| Sdes.Encrypt | sdes.c:129-143 | the loop over subkeys 0..n-1 plus the final swap computes `Cipher(block, keys[..n])`, a 12-bit block |
| Sdes.Decrypt | sdes.c:156-170 | the loop over subkeys n-1..0 plus the final swap computes `Cipher(block, reverse(keys[..n]))`; re-encrypting its result gives back any 12-bit input |
| Sdes.EncryptThenDecryptBlock | sdes.c:129-170 | `decrypt(encrypt(b, keys, n), keys, n) == b` for every 12-bit b when at least n subkeys are given |
| Sdes.Low8 | sdes.c:108 | the store into `uint8_t` reduces the value modulo 2^8, and the dropped high bits together with the result rebuild the value |
| Sdes.KeyFromMasks | sdes.c:104-108 | plain definition, no contract: the loop body, which shifts the two masked parts of the key into line, joins them, shifts right by 10 and keeps eight bits |
| Sdes.MaskedRoundKey | sdes.c:95-112 | plain definition, no contract: round i's key uses the masks `0x1FE >> i` and `0x3FC00 >> i`; `RoundKeyIsRotation` gives it meaning |
| Sdes.RoundKeys | sdes.c:95-113 | the schedule has exactly n entries, entry i computed through round i's masks; for a 9-bit key the schedule equals `RotationSchedule`, whose entry i is the key rotated left by i places in 9 bits, less its lowest bit |
| Sdes.RoundKeyIsRotation | sdes.c:95-113 | for a 9-bit key, round key i is the key rotated left by i in 9 bits, then shifted right by 1; key 0 is K >> 1 and key 1 is K & 0xFF |
| Sdes.HighKeyBitsMatter | sdes.c:98-105 | key 0x200 and key 0 give different round keys at round 1, so bits above bit 8 are not ignored |
| Sdes.MaskStep | sdes.c:111-112 | one more right shift of a mask gives the mask for the next round |
| Sdes.ScheduleStep | sdes.c:104-108 | the key computed from round i's masks is entry i of the schedule |
| Sdes.ScheduleIsRotation | sdes.c:101-113 | keys computed from the masks of every round are the schedule, and for a 9-bit key the rotation schedule |
| Sdes.GenerateRoundKeys | sdes.c:86-117 | returns none exactly when more than 9 rounds are asked for; otherwise exactly n keys, equal to the schedule, and for a 9-bit key to the rotation schedule |
| ByteGroups.Join | encrypt.c:155-159 | three bytes in a 32-bit buffer make a 24-bit value |
| ByteGroups.Pack | encrypt.c:155-159 | up to three bytes read into a zeroed buffer make a 24-bit value |
| ByteGroups.Unpack | encrypt.c:182 | a 3-byte write produces exactly three bytes |
| ByteGroups.Low12 | encrypt.c:172 | `block1` is 12 bits: the low 12 bits of the group |
| ByteGroups.High12 | encrypt.c:173 | `block2` is the group shifted down by 12, which for a 24-bit group is under 4096 |
| ByteGroups.Join12 | encrypt.c:180 | two 12-bit blocks join into a 24-bit value whose low and high 12 bits are the blocks |
| ByteGroups.JoinSplit | encrypt.c:172-180 | splitting a 24-bit value into its blocks and joining them gives it back |
| ByteGroups.UnpackJoin | encrypt.c:182 | writing the little-endian value of three bytes writes those bytes |
| ByteGroups.ZeroFilled | encrypt.c:155-159 | the buffer's bytes are the bytes read, followed by zeros |
| ByteGroups.UnpackPack | encrypt.c:155-182 | writing back a packed group gives the bytes read, then the zero fill |
| ByteGroups.PackUnpack | decrypt.c:150-152 | reading back three written bytes gives the 24-bit value written |
| Encryptor.Padding | encrypt.c:143-147 | the padding count is in {0,1,2} and completes the input length to a multiple of 3 |
| Encryptor.PaddingIsLeastFill | encrypt.c:143-147 | the padding count is `(3 - L mod 3) mod 3`; it is 0 exactly for multiples of 3, and no smaller count completes the group |
| Encryptor.EncryptGroup | encrypt.c:172-182 | each group is written as exactly three bytes |
| Encryptor.EncodeGroups | encrypt.c:154-184 | the groups together are the input length plus the padding count |
| Encryptor.Encoded | encrypt.c:143-183 | the file is `1 + L + padding` bytes, which is 1 mod 3; its first byte is the padding count, followed by the groups; an empty input gives exactly `[0]` |
| Encryptor.EncryptFile | encrypt.c:122-190 | the loop writes the padding byte, then each group encrypted with the one key schedule: the result equals `Encoded(input, RoundKeys(key, n))` |
| Decryptor.DecryptGroup | decrypt.c:159-167 | each group decrypts to three bytes |
| Decryptor.DecodeGroups | decrypt.c:149-182 | the decoded groups total 3 bytes per group less the padding, and nothing for no groups |
| Decryptor.DecodeGroupsFirst | decrypt.c:155-175 | a group's bytes come first: all three bytes for every group but the last, and `3 - padding` for the last |
| Decryptor.Decoded | decrypt.c:134-175 | a length other than 1 mod 3 is an error; otherwise the output is `3*groups - padding` bytes, and empty for a lone padding byte |
| Decryptor.DecryptFile | decrypt.c:116-188 | the loop over `(size - 1) / 3` groups rejects a bad length before reading any group; otherwise it equals `Decoded(file, RoundKeys(key, n))`, of length `3*groups - padding` |
| Decryptor.GroupRoundTrip | decrypt.c:159-167 | decrypting an encrypted group of one to three bytes gives those bytes, then the zero fill |
| Decryptor.DecodeAppend | decrypt.c:149-175 | decoding a full group followed by more groups decodes that group entirely, then the rest |
| Decryptor.LastGroupRoundTrip | decrypt.c:170-175 | trimming the last group by its padding count recovers its one to three plaintext bytes |
| Decryptor.GroupsRoundTrip | decrypt.c:149-182 | decoding the encrypted groups of any data with its padding count reproduces the data |
| Decryptor.RoundTrip | decrypt.c:134-175 | every encrypted file has a valid header, and decoding it with the same subkeys gives the original bytes exactly |
| Decryptor.EncryptThenDecrypt | decrypt.c:116-188 | running `encrypt_file` and then `decrypt_file` with the same key and round count reproduces the input |

## Left out

- Command-line handling is not part of this model: `main` and `print_usage` in both programs (argument parsing, range checks, messages). Its checks on the key (at most 0x1FF) and the round count (1..9) are not needed as preconditions, except as noted below.
- **File I/O.** Files are byte sequences.
  - `fopen`, `fseek`, `ftell`, `feof`, `fread`, `fwrite` and `fclose` are not modelled.
  - The `open`-failure returns are not modelled, nor the files left open on those paths.
  - For the format error, `decrypt_file` has already created the output file, empty.
- **Read errors.** The exits on a read error in the middle of the stream (encrypt.c:161-165, decrypt.c:178-181) are left out, because a byte sequence cannot fail to be read.
- **The `feof` loop.** Both loops are modelled as running over the groups only: `ceil(L / 3)` when encrypting and `(size - 1) / 3` when decrypting. In `decrypt_file`, and in `encrypt_file` when L is a multiple of 3 (including L = 0), a final pass reads zero bytes and writes nothing. In `encrypt_file` with a short last group, the short `fread` sets end-of-file and the loop stops right after that group, with no extra pass.
- **`pow()`.** The floating-point `pow(2, 8) - 1` in the mask initialisation is exactly 255, so the mask is the integer `0xFF << 1`.
- **Memory management.** The `calloc` and `free` of the key buffer are left out. The buffer is a Dafny array that the method copies into the sequence it returns.
- **Byte order.** Host endianness is fixed: the code's reads and writes through a `uint32_t` are modelled as little-endian.
- Encryptor.EncryptFile: requires at most 9 rounds. For more, the source gets no keys back and reads through a NULL pointer on the first block.
- Decryptor.DecryptFile: requires at most 9 rounds, for the same reason as EncryptFile. It also requires a padding byte of at most 3 when at least one group follows. For bytes 4..254, `output_val -= padding` (decrypt.c:155, 171) wraps to a count of 5..255, and the `fwrite` at decrypt.c:175 reads past the 4-byte `decrypted_data`, which C leaves undefined. For 0xFF the count wraps to 4, which is well defined: the last group is written as its three decrypted bytes followed by a zero byte (bits 24-31 of `decrypted_data`). That well-defined 0xFF case is excluded by the precondition and not modelled.
- Sdes.Encrypt, Sdes.Decrypt: `num_rounds` is an `int` in C, and a negative count runs no rounds. The model takes a `nat`, and the file operations only ever pass counts 0..9.
