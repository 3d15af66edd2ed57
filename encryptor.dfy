/**
 * The encrypting half of the file codec (`encrypt_file`), over byte
 * sequences instead of files.  The output is one unencrypted byte giving the
 * padding count, then one 3-byte group per (up to) three input bytes; each
 * group carries two independently enciphered 12-bit blocks.
 */
module Encryptor {
  import opened Sdes
  import opened ByteGroups

  /** How many zero bytes complete the last group of an input of `inputSize` bytes. */
  function Padding(inputSize: nat): (padding: nat)
    ensures padding < 3
    ensures (inputSize + padding) % 3 == 0
  {
    var leftover := inputSize % 3;
    if leftover > 0 then 3 - leftover else 0
  }

  /** The padding count is `(3 - n mod 3) mod 3`, the fewest bytes that complete the last group. */
  lemma PaddingIsLeastFill(inputSize: nat)
    ensures Padding(inputSize) == (3 - inputSize % 3) % 3
    ensures Padding(inputSize) == 0 <==> inputSize % 3 == 0
    ensures Padding(inputSize) == 2 ==> (inputSize + 1) % 3 != 0
  {
  }

  /**
   * One group: pack up to three bytes, encipher the low and the high 12 bits
   * separately, and write the two results back as three bytes.
   */
  function EncryptGroup(group: seq<bv8>, keys: seq<bv8>): (out: seq<bv8>)
    requires 1 <= |group| <= 3
    ensures |out| == 3
  {
    var data := Pack(group);
    Unpack(Join12(Cipher(Low12(data), keys), Cipher(High12(data), keys)))
  }

  /** The groups for `data`, three bytes at a time, the last group possibly short. */
  function EncodeGroups(data: seq<bv8>, keys: seq<bv8>): (out: seq<bv8>)
    ensures |out| == |data| + Padding(|data|)
    decreases |data|
  {
    if |data| == 0 then []
    else
      var n := if |data| < 3 then |data| else 3;
      EncryptGroup(data[..n], keys) + EncodeGroups(data[n..], keys)
  }

  /** The whole encrypted file: the padding byte, then the groups, all with the same subkeys. */
  function Encoded(input: seq<bv8>, keys: seq<bv8>): (file: seq<bv8>)
    ensures |file| == 1 + |input| + Padding(|input|)
    ensures |file| % 3 == 1
    ensures file[0] as int == Padding(|input|)
    ensures file[1..] == EncodeGroups(input, keys)
    ensures input == [] ==> file == [0]
  {
    [Padding(|input|) as bv8] + EncodeGroups(input, keys)
  }

  /**
   * Encrypt a whole input: write the padding count, generate the round keys
   * once, then encrypt and write each group of up to three bytes.
   */
  method EncryptFile(input: seq<bv8>, key: bv16, numRounds: nat) returns (output: seq<bv8>)
    requires numRounds <= KeyLength
    ensures output == Encoded(input, RoundKeys(key, numRounds))
    ensures |output| == 1 + |input| + Padding(|input|)
    ensures output[0] as int == Padding(|input|)
  {
    var inputSize := |input|;
    var leftover := inputSize % 3;
    var padding: bv8 := 0;
    if leftover > 0 {
      padding := (3 - leftover) as bv8;
    }
    output := [padding];

    var keys := GenerateRoundKeys(key, numRounds);
    var roundKeys := keys.value;
    assert roundKeys[..numRounds] == roundKeys;

    // `unread` is what the input stream has left; each pass reads up to three bytes.
    var unread := input;
    while |unread| > 0
      invariant output + EncodeGroups(unread, roundKeys) == Encoded(input, roundKeys)
      decreases |unread|
    {
      var numRead := if |unread| < 3 then |unread| else 3;
      var unencryptedData := Pack(unread[..numRead]);

      var block1 := Low12(unencryptedData);
      var block2 := High12(unencryptedData);
      var encryptedBlock1 := Encrypt(block1, roundKeys, numRounds);
      var encryptedBlock2 := Encrypt(block2, roundKeys, numRounds);

      var outputVal := Join12(encryptedBlock1, encryptedBlock2);
      assert Unpack(outputVal) == EncryptGroup(unread[..numRead], roundKeys);
      assert EncodeGroups(unread, roundKeys) == Unpack(outputVal) + EncodeGroups(unread[numRead..], roundKeys);
      AppendAssoc(output, Unpack(outputVal), EncodeGroups(unread[numRead..], roundKeys));
      output := output + Unpack(outputVal);
      unread := unread[numRead..];
    }
  }
}
