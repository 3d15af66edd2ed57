/**
 * The decrypting half of the file codec (`decrypt_file`), over byte
 * sequences instead of files, and the round trip through both halves.
 */
module Decryptor {
  import opened Wrappers
  import opened Sdes
  import opened ByteGroups
  import Encryptor

  /** Why an encrypted input was refused. */
  datatype DecodeError = FormatError

  /**
   * One group: its high 12 bits and its low 12 bits are deciphered (subkeys in
   * reverse order) and put back in the same places.
   */
  function DecryptGroup(group: seq<bv8>, keys: seq<bv8>): (out: seq<bv8>)
    requires |group| == 3
    ensures |out| == 3
  {
    var inputVal := Pack(group);
    var lDecrypted := Cipher(High12(inputVal), Reversed(keys));
    var rDecrypted := Cipher(Low12(inputVal), Reversed(keys));
    Unpack(Join12(rDecrypted, lDecrypted))
  }

  /**
   * The plaintext for the groups in `body`: three bytes per group, except
   * that the last group gives only its first `3 - padding` bytes.
   */
  function DecodeGroups(body: seq<bv8>, keys: seq<bv8>, padding: bv8): (out: seq<bv8>)
    requires |body| % 3 == 0
    requires |body| > 0 ==> padding <= 3
    ensures |out| == if |body| == 0 then 0 else |body| - padding as int
    decreases |body|
  {
    if |body| == 0 then []
    else if |body| == 3 then DecryptGroup(body, keys)[..3 - padding as int]
    else DecryptGroup(body[..3], keys) + DecodeGroups(body[3..], keys, padding)
  }

  /** One step of DecodeGroups: the bytes of the first group, then the rest. */
  lemma DecodeGroupsFirst(body: seq<bv8>, keys: seq<bv8>, padding: bv8, piece: seq<bv8>)
    requires |body| % 3 == 0 && |body| > 0 && padding <= 3
    requires piece == DecryptGroup(body[..3], keys)[..if |body| == 3 then 3 - padding as int else 3]
    ensures DecodeGroups(body, keys, padding) == piece + DecodeGroups(body[3..], keys, padding)
  {
    if |body| == 3 {
      assert body[..3] == body;
      assert body[3..] == [];
      assert piece + [] == piece;
    } else {
      assert DecryptGroup(body[..3], keys)[..3] == DecryptGroup(body[..3], keys);
    }
  }

  /** A body of `n` groups is a whole number of groups, and so is what follows its first group. */
  lemma WholeGroups(body: seq<bv8>, n: nat)
    requires |body| == 3 * n
    ensures |body| % 3 == 0
    ensures n > 0 ==> |body[3..]| == 3 * (n - 1) && |body[3..]| % 3 == 0
  {
  }

  /**
   * What the decoder needs of its input's first byte: a padding count of at
   * most 3 whenever at least one group follows.  A count of 4..254 makes the
   * byte count of the last write wrap around past the 4-byte buffer, which C
   * leaves undefined; 0xFF wraps to 4 and is left out.
   */
  predicate PaddingHeaderOk(file: seq<bv8>)
  {
    |file| % 3 == 1 && |file| > 1 ==> file[0] <= 3
  }

  /** The decrypted file, or FormatError when the length is not 1 more than a multiple of 3. */
  function Decoded(file: seq<bv8>, keys: seq<bv8>): (r: Result<seq<bv8>, DecodeError>)
    requires PaddingHeaderOk(file)
    ensures r.Failure? <==> |file| % 3 != 1
    ensures r.Success? ==> |r.value| == if |file| == 1 then 0 else |file| - 1 - file[0] as int
  {
    if |file| % 3 != 1 then Failure(FormatError)
    else Success(DecodeGroups(file[1..], keys, file[0]))
  }

  /**
   * Decrypt a whole encrypted input: check its length, read the padding
   * count, generate the round keys once, then decrypt each group, writing
   * three bytes for every group but the last and `3 - padding` for the last.
   */
  method DecryptFile(encrypted: seq<bv8>, key: bv16, numRounds: nat) returns (result: Result<seq<bv8>, DecodeError>)
    requires numRounds <= KeyLength
    requires PaddingHeaderOk(encrypted)
    ensures result == Decoded(encrypted, RoundKeys(key, numRounds))
    ensures result.Failure? <==> |encrypted| % 3 != 1
    ensures result.Success? && |encrypted| > 1 ==>
      |result.value| == 3 * ((|encrypted| - 1) / 3) - encrypted[0] as int
  {
    var fileSize := |encrypted|;
    if fileSize % 3 != 1 {
      return Failure(FormatError);
    }

    var remainingReads := (fileSize - 1) / 3;
    var padding := encrypted[0];

    var keys := GenerateRoundKeys(key, numRounds);
    var roundKeys := keys.value;
    assert roundKeys[..numRounds] == roundKeys;

    var output: seq<bv8> := [];
    // `unread` is what the input stream has left after the padding byte.
    var unread := encrypted[1..];
    ghost var body := unread;
    while remainingReads > 0
      invariant |unread| == 3 * remainingReads
      invariant remainingReads > 0 ==> padding <= 3
      invariant output + DecodeGroups(unread, roundKeys, padding) == DecodeGroups(body, roundKeys, padding)
      decreases remainingReads
    {
      var inputVal := Pack(unread[..3]);
      remainingReads := remainingReads - 1;

      var outputSize: bv8 := 3;
      var lHalf := High12(inputVal);
      var rHalf := Low12(inputVal);
      var lDecrypted := Decrypt(lHalf, roundKeys, numRounds);
      var rDecrypted := Decrypt(rHalf, roundKeys, numRounds);
      var decryptedData := Join12(rDecrypted, lDecrypted);

      if remainingReads == 0 {
        outputSize := outputSize - padding;
      }
      ghost var piece := Unpack(decryptedData)[..outputSize];
      assert Unpack(decryptedData) == DecryptGroup(unread[..3], roundKeys);
      assert outputSize as int == if |unread| == 3 then 3 - padding as int else 3;
      WholeGroups(unread, remainingReads + 1);
      DecodeGroupsFirst(unread, roundKeys, padding, piece);
      AppendAssoc(output, piece, DecodeGroups(unread[3..], roundKeys, padding));
      output := output + Unpack(decryptedData)[..outputSize];
      unread := unread[3..];
    }
    assert unread == [];
    assert output == DecodeGroups(body, roundKeys, padding);
    return Success(output);
  }

  // ------------------------------------------------------------------
  // Round trip
  // ------------------------------------------------------------------

  /** Decrypting an encrypted group restores the bytes it was made from, zero-filled. */
  lemma GroupRoundTrip(group: seq<bv8>, keys: seq<bv8>)
    requires 1 <= |group| <= 3
    ensures DecryptGroup(Encryptor.EncryptGroup(group, keys), keys) == group + Zeros(3 - |group|)
  {
    var data := Pack(group);
    var block1, block2 := Low12(data), High12(data);
    var encrypted1, encrypted2 := Cipher(block1, keys), Cipher(block2, keys);
    var joined := Join12(encrypted1, encrypted2);
    PackUnpack(joined);
    CipherInverse(block1, keys);
    CipherInverse(block2, keys);
    JoinSplit(data);
    UnpackPack(group);
  }

  /** Decoding a group followed by further groups decodes the group in full, then the rest. */
  lemma DecodeAppend(first: seq<bv8>, rest: seq<bv8>, keys: seq<bv8>, padding: bv8)
    requires |first| == 3 && |rest| % 3 == 0 && |rest| > 0 && padding <= 3
    ensures DecodeGroups(first + rest, keys, padding) == DecryptGroup(first, keys) + DecodeGroups(rest, keys, padding)
  {
    assert (first + rest)[..3] == first;
    assert (first + rest)[3..] == rest;
  }

  /** Round trip of a final group of one to three bytes. */
  lemma LastGroupRoundTrip(data: seq<bv8>, keys: seq<bv8>)
    requires 1 <= |data| <= 3
    ensures DecodeGroups(Encryptor.EncodeGroups(data, keys), keys, Encryptor.Padding(|data|) as bv8) == data
  {
    assert data[..|data|] == data && data[|data|..] == [];
    assert Encryptor.EncodeGroups(data, keys) == Encryptor.EncryptGroup(data, keys) + [];
    GroupRoundTrip(data, keys);
    assert (data + Zeros(3 - |data|))[..|data|] == data;
  }

  /** Decoding the groups of any data with its padding count gives the data back. */
  lemma {:induction false} GroupsRoundTrip(data: seq<bv8>, keys: seq<bv8>)
    ensures |Encryptor.EncodeGroups(data, keys)| % 3 == 0
    ensures DecodeGroups(Encryptor.EncodeGroups(data, keys), keys, Encryptor.Padding(|data|) as bv8) == data
    decreases |data|
  {
    if |data| == 0 {
    } else if |data| <= 3 {
      LastGroupRoundTrip(data, keys);
    } else {
      var first := Encryptor.EncryptGroup(data[..3], keys);
      var rest := Encryptor.EncodeGroups(data[3..], keys);
      assert Encryptor.EncodeGroups(data, keys) == first + rest;
      assert Encryptor.Padding(|data[3..]|) == Encryptor.Padding(|data|);
      GroupsRoundTrip(data[3..], keys);
      DecodeAppend(first, rest, keys, Encryptor.Padding(|data|) as bv8);
      GroupRoundTrip(data[..3], keys);
      assert data[..3] + Zeros(0) == data[..3];
      assert data[..3] + data[3..] == data;
    }
  }

  /** Decrypting an encrypted file with the same subkeys gives back exactly the original bytes. */
  lemma RoundTrip(input: seq<bv8>, keys: seq<bv8>)
    ensures PaddingHeaderOk(Encryptor.Encoded(input, keys))
    ensures Decoded(Encryptor.Encoded(input, keys), keys) == Success(input)
  {
    GroupsRoundTrip(input, keys);
  }

  /** Encrypting and then decrypting with the same key and round count reproduces the input. */
  method EncryptThenDecrypt(input: seq<bv8>, key: bv16, numRounds: nat) returns (recovered: Result<seq<bv8>, DecodeError>)
    requires numRounds <= KeyLength
    ensures recovered == Success(input)
  {
    var encrypted := Encryptor.EncryptFile(input, key, numRounds);
    RoundTrip(input, RoundKeys(key, numRounds));
    recovered := DecryptFile(encrypted, key, numRounds);
  }
}
