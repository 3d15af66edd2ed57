/**
 * Simplified DES: a teaching cipher on 12-bit blocks with a 9-bit master key.
 *
 * A block is two 6-bit halves (left = bits 6..11, right = bits 0..5).  Each
 * round swaps the halves and mixes the new right half with the Feistel
 * function of the old right half; a final half-swap makes decryption the same
 * computation with the round keys taken in reverse order.
 *
 * Bit-vector widths follow the C types: `bv8` for `uint8_t`, `bv16` for
 * `uint16_t`, `bv32` for `uint32_t`.
 */
module Sdes {
  import opened Wrappers

  /** Number of bits in the master key; also the largest number of rounds. */
  const KeyLength: nat := 9

  /** The two substitution tables: each maps a 4-bit value to a 3-bit value. */
  const S1: seq<bv8> := [5, 2, 1, 6, 3, 4, 7, 0, 1, 4, 6, 2, 0, 7, 5, 3]
  const S2: seq<bv8> := [4, 0, 6, 5, 7, 1, 3, 2, 5, 3, 0, 7, 6, 2, 1, 4]

  /** Every S-box entry is a 3-bit value. */
  lemma SBoxEntriesFit()
    ensures |S1| == 16 && |S2| == 16
    ensures forall n :: 0 <= n < 16 ==> S1[n] < 8 && S2[n] < 8
  {
    forall n | 0 <= n < 16
      ensures S1[n] < 8 && S2[n] < 8
    {
      assert n in {0, 1, 2, 3, 4, 5, 6, 7, 8, 9, 10, 11, 12, 13, 14, 15};
    }
  }

  // ------------------------------------------------------------------
  // Bit primitives
  // ------------------------------------------------------------------

  /**
   * Where each bit of the expanded value comes from: reading the 6-bit input
   * as bits "123456" from its most significant end, the 8-bit output reads
   * "12434356" from its most significant end.
   */
  const ExpansionOrder: seq<nat> := [1, 2, 4, 3, 4, 3, 5, 6]

  /** Bit number `j` (0 is the most significant) of the low `width` bits of `x`. */
  function BitFromTop(x: bv8, width: nat, j: nat): bv8
    requires j < width <= 8
  {
    (x >> (width - 1 - j)) & 1
  }

  /** Expansion of a 6-bit half to 8 bits, duplicating the middle bits. */
  function Expand(input: bv8): (r: bv8)
  {
    ((input & 48) << 2) | ((input & 4) << 3) | ((input & 12) << 1) | ((input & 8) >> 1) | (input & 3)
  }

  /** Expand places input bit ExpansionOrder[j] at output bit j, for all eight j. */
  lemma {:induction false} ExpandPattern(input: bv8)
    ensures forall j :: 0 <= j < 8 ==>
      BitFromTop(Expand(input), 8, j) == BitFromTop(input, 6, ExpansionOrder[j] - 1)
  {
    forall j | 0 <= j < 8
      ensures BitFromTop(Expand(input), 8, j) == BitFromTop(input, 6, ExpansionOrder[j] - 1)
    {
      assert j == 0 || j == 1 || j == 2 || j == 3 || j == 4 || j == 5 || j == 6 || j == 7;
    }
  }

  /** Substitution of an 8-bit value by the two S-boxes, one per nibble. */
  function Confuse(input: bv8): (r: bv8)
    ensures r < 64
    ensures r >> 3 == S1[(input >> 4) as int]
    ensures r & 7 == S2[(input & 15) as int]
  {
    SBoxEntriesFit();
    (S1[(input >> 4) as int] << 3) | S2[(input & 15) as int]
  }

  /** The Feistel function: expand the half, mix in the round key, substitute. */
  function Feistel(input: bv8, key: bv8): (r: bv8)
    ensures r < 64
  {
    Confuse(Expand(input) ^ key)
  }

  /**
   * One round on a 12-bit block: the old right half becomes the left half, and
   * the new right half is the Feistel function of the old right half XORed
   * with the old left half.
   */
  function FeistelRound(input: bv16, key: bv8): (r: bv16)
    ensures r < 4096
    ensures input < 4096 ==> r >> 6 == input & 63
    ensures input < 4096 ==> r & 63 == (Feistel((input & 63) as bv8, key) as bv16) ^ (input >> 6)
  {
    Mix(input, Feistel((input & 63) as bv8, key))
  }

  /** The bit layout of a round, for a given value `f` of the Feistel function. */
  function Mix(input: bv16, f: bv8): (r: bv16)
    requires f < 64
    ensures r < 4096
    ensures input < 4096 ==> r >> 6 == input & 63 && r & 63 == (f as bv16) ^ (input >> 6)
  {
    ((input & 63) << 6) | ((f as bv16) ^ (input >> 6))
  }

  /** Exchange the two 6-bit halves of a block, dropping bits above bit 11. */
  function HalfSwap(x: bv16): (r: bv16)
    ensures r < 4096
    ensures r >> 6 == x & 63
    ensures r & 63 == (x >> 6) & 63
  {
    ((x & 0x03F) << 6) | ((x & 0xFC0) >> 6)
  }

  lemma HalfSwapInvolution(x: bv16)
    requires x < 4096
    ensures HalfSwap(HalfSwap(x)) == x
  {
  }

  /** Mixing the same Feistel value in twice, with a half-swap between, cancels out. */
  lemma MixUndo(x: bv16, f: bv8)
    requires x < 4096 && f < 64
    ensures HalfSwap(Mix(x, f)) & 63 == x & 63
    ensures Mix(HalfSwap(Mix(x, f)), f) == HalfSwap(x)
  {
  }

  /** A round undoes itself once the halves are swapped back between the two applications. */
  lemma RoundUndo(x: bv16, key: bv8)
    requires x < 4096
    ensures FeistelRound(HalfSwap(FeistelRound(x, key)), key) == HalfSwap(x)
  {
    var f := Feistel((x & 63) as bv8, key);
    MixUndo(x, f);
    var s := HalfSwap(Mix(x, f));
    assert (s & 63) as bv8 == (x & 63) as bv8;
  }

  // ------------------------------------------------------------------
  // Block cipher, as functions of the subkey sequence
  // ------------------------------------------------------------------

  /** The rounds applied to `block` with the subkeys of `keys`, first to last. */
  function ApplyRounds(block: bv16, keys: seq<bv8>): (r: bv16)
    ensures block < 4096 || |keys| > 0 ==> r < 4096
    decreases |keys|
  {
    if |keys| == 0 then block
    else FeistelRound(ApplyRounds(block, keys[..|keys| - 1]), keys[|keys| - 1])
  }

  /** The whole cipher: the rounds followed by the corrective half-swap. */
  function Cipher(block: bv16, keys: seq<bv8>): (r: bv16)
    ensures r < 4096
  {
    HalfSwap(ApplyRounds(block, keys))
  }

  function Reversed<T>(s: seq<T>): (r: seq<T>)
    ensures |r| == |s|
  {
    if s == [] then [] else Reversed(s[1..]) + [s[0]]
  }

  lemma {:induction false} ReversedAppend<T>(s: seq<T>, x: T)
    ensures Reversed(s + [x]) == [x] + Reversed(s)
  {
    if s != [] {
      assert (s + [x])[1..] == s[1..] + [x];
      ReversedAppend(s[1..], x);
    }
  }

  lemma {:induction false} ReversedReversed<T>(s: seq<T>)
    ensures Reversed(Reversed(s)) == s
  {
    if s != [] {
      ReversedReversed(s[1..]);
      ReversedAppend(Reversed(s[1..]), s[0]);
      assert [s[0]] + s[1..] == s;
    }
  }

  /** One more subkey is one more round. */
  lemma ApplyRoundsSnoc(block: bv16, s: seq<bv8>, k: bv8)
    ensures ApplyRounds(block, s + [k]) == FeistelRound(ApplyRounds(block, s), k)
  {
    assert (s + [k])[..|s|] == s;
  }

  /** Reversing the subkeys from `i` on puts subkey `i` last. */
  lemma ReversedStep<T>(keys: seq<T>, i: nat, n: nat)
    requires i < n <= |keys|
    ensures Reversed(keys[i..n]) == Reversed(keys[i + 1..n]) + [keys[i]]
  {
    assert keys[i..n][1..] == keys[i + 1..n];
  }

  /** Running the rounds of `s` and then of `t` is running the rounds of `s + t`. */
  lemma {:induction false} ApplyRoundsAppend(block: bv16, s: seq<bv8>, t: seq<bv8>)
    ensures ApplyRounds(block, s + t) == ApplyRounds(ApplyRounds(block, s), t)
    decreases |t|
  {
    if |t| > 0 {
      var u := s + t;
      assert u[..|u| - 1] == s + t[..|t| - 1];
      assert u[|u| - 1] == t[|t| - 1];
      ApplyRoundsAppend(block, s, t[..|t| - 1]);
    } else {
      assert s + t == s;
    }
  }

  /** The rounds with reversed subkeys, after a half-swap, unwind the forward rounds. */
  lemma {:induction false} RoundsUndo(x: bv16, keys: seq<bv8>)
    requires x < 4096
    ensures ApplyRounds(HalfSwap(ApplyRounds(x, keys)), Reversed(keys)) == HalfSwap(x)
    decreases |keys|
  {
    if |keys| > 0 {
      var prefix, k := keys[..|keys| - 1], keys[|keys| - 1];
      var y := ApplyRounds(x, prefix);
      assert keys == prefix + [k];
      ReversedAppend(prefix, k);
      ApplyRoundsAppend(HalfSwap(FeistelRound(y, k)), [k], Reversed(prefix));
      assert ApplyRounds(HalfSwap(FeistelRound(y, k)), [k])
          == FeistelRound(HalfSwap(FeistelRound(y, k)), k);
      RoundUndo(y, k);
      RoundsUndo(x, prefix);
    }
  }

  /** Deciphering with the subkeys reversed recovers every 12-bit block. */
  lemma CipherInverse(block: bv16, keys: seq<bv8>)
    requires block < 4096
    ensures Cipher(Cipher(block, keys), Reversed(keys)) == block
    ensures Cipher(Cipher(block, Reversed(keys)), keys) == block
  {
    RoundsUndo(block, keys);
    HalfSwapInvolution(block);
    RoundsUndo(block, Reversed(keys));
    ReversedReversed(keys);
  }

  // ------------------------------------------------------------------
  // Block cipher, as the C loops
  // ------------------------------------------------------------------

  /** Encrypt one block: the rounds with subkeys 0 .. numRounds-1, then the half-swap. */
  method Encrypt(unencryptedData: bv16, roundKeys: seq<bv8>, numRounds: nat) returns (r: bv16)
    requires numRounds <= |roundKeys|
    ensures r < 4096
    ensures r == Cipher(unencryptedData, roundKeys[..numRounds])
  {
    var data := unencryptedData;
    var i := 0;
    while i < numRounds
      invariant 0 <= i <= numRounds
      invariant data == ApplyRounds(unencryptedData, roundKeys[..i])
    {
      assert roundKeys[..i + 1] == roundKeys[..i] + [roundKeys[i]];
      ApplyRoundsSnoc(unencryptedData, roundKeys[..i], roundKeys[i]);
      data := FeistelRound(data, roundKeys[i]);
      i := i + 1;
    }
    var lEncrypted := (data & 0x03F) << 6;
    var rEncrypted := (data & 0xFC0) >> 6;
    r := lEncrypted | rEncrypted;
  }

  /** Decrypt one block: the rounds with subkeys numRounds-1 .. 0, then the half-swap. */
  method Decrypt(encryptedData: bv16, roundKeys: seq<bv8>, numRounds: nat) returns (r: bv16)
    requires numRounds <= |roundKeys|
    ensures r < 4096
    ensures r == Cipher(encryptedData, Reversed(roundKeys[..numRounds]))
    ensures encryptedData < 4096 ==> Cipher(r, roundKeys[..numRounds]) == encryptedData
  {
    var data := encryptedData;
    var i: int := numRounds - 1;
    while i >= 0
      invariant -1 <= i < numRounds
      invariant data == ApplyRounds(encryptedData, Reversed(roundKeys[i + 1..numRounds]))
    {
      ReversedStep(roundKeys, i, numRounds);
      ApplyRoundsSnoc(encryptedData, Reversed(roundKeys[i + 1..numRounds]), roundKeys[i]);
      data := FeistelRound(data, roundKeys[i]);
      i := i - 1;
    }
    var lUnencrypted := (data & 0x03F) << 6;
    var rUnencrypted := (data & 0xFC0) >> 6;
    r := lUnencrypted | rUnencrypted;
    if encryptedData < 4096 {
      CipherInverse(encryptedData, roundKeys[..numRounds]);
    }
  }

  /** Decrypting an encrypted block with the same subkeys and round count gives the block back. */
  method EncryptThenDecryptBlock(block: bv16, roundKeys: seq<bv8>, numRounds: nat) returns (r: bv16)
    requires block < 4096 && numRounds <= |roundKeys|
    ensures r == block
  {
    var encrypted := Encrypt(block, roundKeys, numRounds);
    r := Decrypt(encrypted, roundKeys, numRounds);
    CipherInverse(block, roundKeys[..numRounds]);
  }

  // ------------------------------------------------------------------
  // Key schedule
  // ------------------------------------------------------------------

  /** Keep the low eight bits, as an assignment of a wider value to `uint8_t` does. */
  function Low8(x: bv32): (r: bv8)
    ensures r as bv32 == x % 256
    ensures ((x >> 8) << 8) | (r as bv32) == x
  {
    (x & 0xFF) as bv8
  }

  /**
   * The key of round `round` computed from that round's two masks: the
   * masked parts of the key are shifted into line, joined, and the low eight
   * bits of the result above bit 9 are kept.
   */
  function KeyFromMasks(originalKey: bv16, lMask: bv32, rMask: bv32, round: bv32): bv8
    requires round < 9
  {
    var lKey := ((originalKey as bv32) & lMask) << (9 + round);
    var rKey := ((originalKey as bv32) & rMask) << round;
    Low8((lKey | rKey) >> 10)
  }

  /**
   * Round key `round` as the mask loop computes it: at that round the left mask
   * is 0x1FE shifted right `round` times and the right mask is 0x1FE << 9
   * shifted right `round` times.  The round number is the C loop's 32-bit
   * unsigned counter.
   */
  function MaskedRoundKey(originalKey: bv16, round: bv32): bv8
    requires round < 9
  {
    KeyFromMasks(originalKey, 0x1FE >> round, 0x3FC00 >> round, round)
  }

  /**
   * The key schedule as a sequence: round keys 0 .. numRounds-1.  For a 9-bit
   * key, round key i is the key rotated left by i places, less its lowest bit.
   */
  function RoundKeys(originalKey: bv16, numRounds: nat): (keys: seq<bv8>)
    requires numRounds <= KeyLength
    ensures |keys| == numRounds
    ensures forall i :: 0 <= i < numRounds ==> keys[i] == MaskedRoundKey(originalKey, i as bv32)
    ensures originalKey <= 0x1FF ==> keys == RotationSchedule(originalKey, numRounds)
  {
    var keys := seq(numRounds, i requires 0 <= i < numRounds => MaskedRoundKey(originalKey, i as bv32));
    MaskedKeysAreRotations(originalKey, keys);
    keys
  }

  /**
   * Left rotation of a 9-bit value by `n` places, for `n` up to 9; a larger
   * count (which no round has) leaves the value as it is.
   */
  function RotateLeft9(x: bv32, n: bv32): (r: bv32)
  {
    var k := if n <= 9 then n else 0;
    ((x << k) | (x >> (9 - k))) & 0x1FF
  }

  /** Independent description of a round key: rotate the 9-bit key left by the round number, drop its lowest bit. */
  function RotatedKey(originalKey: bv16, round: bv32): bv8
    requires originalKey <= 0x1FF
  {
    Low8(RotateLeft9(originalKey as bv32, round) >> 1)
  }

  /** The rotation form of a whole schedule of `numRounds` keys. */
  function RotationSchedule(originalKey: bv16, numRounds: nat): (keys: seq<bv8>)
    requires originalKey <= 0x1FF && numRounds <= KeyLength
    ensures |keys| == numRounds
    ensures forall i :: 0 <= i < numRounds ==> keys[i] == RotatedKey(originalKey, i as bv32)
  {
    seq(numRounds, i requires 0 <= i < numRounds => RotatedKey(originalKey, i as bv32))
  }

  /** For a 9-bit key, the mask computation is a left rotation followed by a right shift. */
  lemma RoundKeyIsRotation(originalKey: bv16, round: bv32)
    requires originalKey <= 0x1FF && round < 9
    ensures MaskedRoundKey(originalKey, round) == RotatedKey(originalKey, round)
    ensures round == 0 ==> MaskedRoundKey(originalKey, round) == (originalKey >> 1) as bv8
    ensures round == 1 ==> MaskedRoundKey(originalKey, round) == (originalKey & 0xFF) as bv8
  {
  }

  /** Mask-computed round keys of a 9-bit key are its rotations (RoundKeyIsRotation, round by round). */
  lemma MaskedKeysAreRotations(originalKey: bv16, keys: seq<bv8>)
    requires |keys| <= KeyLength
    requires forall j :: 0 <= j < |keys| ==> keys[j] == MaskedRoundKey(originalKey, j as bv32)
    ensures originalKey <= 0x1FF ==> keys == RotationSchedule(originalKey, |keys|)
  {
    if originalKey <= 0x1FF {
      forall j | 0 <= j < |keys|
        ensures keys[j] == RotatedKey(originalKey, j as bv32)
      {
        RoundKeyIsRotation(originalKey, j as bv32);
      }
    }
  }

  /**
   * The schedule does not ignore key bits above bit 8: at round 1 the right
   * mask reaches bit 9, so key 0x200 yields round key 1 where key 0 yields 0.
   */
  lemma HighKeyBitsMatter()
    ensures RoundKeys(0x200, 2)[1] == 1 && RoundKeys(0, 2)[1] == 0
  {
  }

  /** One more right shift of a shifted mask is the mask shifted by the next round number. */
  lemma MaskStep(mask: bv32, i: nat)
    requires i < KeyLength
    ensures (mask >> (i as bv32)) >> 1 == mask >> ((i + 1) as bv32)
  {
    NextRound(i);
    ShiftStep(mask, i as bv32);
  }

  /** Shifting right by `n` and then by one is shifting right by `n + 1`. */
  lemma ShiftStep(mask: bv32, n: bv32)
    requires n < 9
    ensures (mask >> n) >> 1 == mask >> (n + 1)
  {
  }

  /** The bit-vector form of a round number below the key length commutes with adding one. */
  lemma NextRound(i: nat)
    requires i < KeyLength
    ensures i as bv32 < 9 && (i + 1) as bv32 == (i as bv32) + 1
  {
  }

  /** The key computed from the masks of pass `i` of the loop is entry `i` of the schedule. */
  lemma ScheduleStep(originalKey: bv16, lMask: bv32, rMask: bv32, i: nat, numRounds: nat)
    requires i < numRounds <= KeyLength
    requires lMask == 0x1FE >> (i as bv32) && rMask == 0x3FC00 >> (i as bv32)
    ensures KeyFromMasks(originalKey, lMask, rMask, i as bv32) == RoundKeys(originalKey, numRounds)[i]
  {
  }

  /** A sequence of mask-computed round keys is the key schedule, and for a 9-bit key it is the rotation schedule. */
  lemma ScheduleIsRotation(originalKey: bv16, keys: seq<bv8>)
    requires |keys| <= KeyLength
    requires forall j :: 0 <= j < |keys| ==> keys[j] == MaskedRoundKey(originalKey, j as bv32)
    ensures keys == RoundKeys(originalKey, |keys|)
    ensures originalKey <= 0x1FF ==>
      forall j :: 0 <= j < |keys| ==> keys[j] == RotatedKey(originalKey, j as bv32)
  {
    MaskedKeysAreRotations(originalKey, keys);
  }

  /**
   * Generate `numRounds` round keys from the master key, or None when more
   * rounds are asked for than the key has bits.
   */
  method GenerateRoundKeys(originalKey: bv16, numRounds: nat) returns (roundKeys: Option<seq<bv8>>)
    ensures roundKeys.None? <==> numRounds > KeyLength
    ensures roundKeys.Some? ==> |roundKeys.value| == numRounds
    ensures roundKeys.Some? ==> roundKeys.value == RoundKeys(originalKey, numRounds)
    ensures roundKeys.Some? && originalKey <= 0x1FF ==>
      forall i :: 0 <= i < numRounds ==> roundKeys.value[i] == RotatedKey(originalKey, i as bv32)
  {
    if numRounds > KeyLength {
      return None;
    }
    var keys := new bv8[numRounds];
    var lMask: bv32 := 0xFF << 1;
    var rMask: bv32 := lMask << 9;
    ghost var schedule := RoundKeys(originalKey, numRounds);
    for i := 0 to numRounds
      invariant lMask == 0x1FE >> (i as bv32)
      invariant rMask == 0x3FC00 >> (i as bv32)
      invariant keys[..i] == schedule[..i]
    {
      keys[i] := KeyFromMasks(originalKey, lMask, rMask, i as bv32);
      ScheduleStep(originalKey, lMask, rMask, i, numRounds);
      assert keys[..i + 1] == keys[..i] + [keys[i]];
      MaskStep(0x1FE, i);
      MaskStep(0x3FC00, i);
      lMask := lMask >> 1;
      rMask := rMask >> 1;
    }
    assert keys[..] == schedule;
    ScheduleIsRotation(originalKey, keys[..]);
    roundKeys := Some(keys[..]);
  }
}
