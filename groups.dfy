/**
 * The 3-byte groups of the file format.  Both programs read a group with
 * `fread` into a zero-initialised 32-bit buffer and write one with `fwrite`
 * from a 32-bit value, on a little-endian host: byte 0 of the file is bits
 * 0..7 of the value, byte 1 bits 8..15 and byte 2 bits 16..23.
 */
module ByteGroups {

  /** Three bytes as the little-endian value they occupy in a 32-bit buffer. */
  function Join(b0: bv8, b1: bv8, b2: bv8): (v: bv32)
    ensures v < 0x100_0000
  {
    (b0 as bv32) | ((b1 as bv32) << 8) | ((b2 as bv32) << 16)
  }

  /** Byte `i` of what was read, or 0 where the buffer kept its initial zero. */
  function ByteOrZero(bytes: seq<bv8>, i: nat): bv8
  {
    if i < |bytes| then bytes[i] else 0
  }

  /** Bytes read into a zeroed 32-bit buffer: missing bytes stay zero. */
  function Pack(bytes: seq<bv8>): (v: bv32)
    requires |bytes| <= 3
    ensures v < 0x100_0000
  {
    Join(ByteOrZero(bytes, 0), ByteOrZero(bytes, 1), ByteOrZero(bytes, 2))
  }

  /** The three low bytes of a 32-bit value, as `fwrite(&v, 1, 3, f)` writes them. */
  function Unpack(v: bv32): (bytes: seq<bv8>)
    ensures |bytes| == 3
  {
    [(v & 0xFF) as bv8, ((v >> 8) & 0xFF) as bv8, ((v >> 16) & 0xFF) as bv8]
  }

  /** Bits 0..11 of a group value, as `v & 0xFFF` stored in a `uint16_t`. */
  function Low12(v: bv32): (b: bv16)
    ensures b < 4096
    ensures b as bv32 == v & 0xFFF
  {
    (v & 0xFFF) as bv16
  }

  /** The bits of a group value from bit 12 up, as `v >> 12` stored in a `uint16_t`. */
  function High12(v: bv32): (b: bv16)
    ensures b as bv32 == (v >> 12) & 0xFFFF
    ensures v < 0x100_0000 ==> b < 4096
  {
    ((v >> 12) & 0xFFFF) as bv16
  }

  /** Two blocks side by side in a group value: `low | (high << 12)`. */
  function Join12(low: bv16, high: bv16): (v: bv32)
    ensures low < 4096 && high < 4096 ==> v < 0x100_0000
    ensures low < 4096 && high < 4096 ==> Low12(v) == low && High12(v) == high
  {
    (low as bv32) | ((high as bv32) << 12)
  }

  /** A 24-bit value is the join of its two 12-bit halves. */
  lemma JoinSplit(v: bv32)
    requires v < 0x100_0000
    ensures Join12(Low12(v), High12(v)) == v
  {
  }

  /** Appending is associative; stated once so that callers need no extensionality argument. */
  lemma AppendAssoc<T>(a: seq<T>, b: seq<T>, c: seq<T>)
    ensures (a + b) + c == a + (b + c)
  {
  }

  /** `n` zero bytes. */
  function Zeros(n: nat): (z: seq<bv8>)
    ensures |z| == n && forall i :: 0 <= i < n ==> z[i] == 0
  {
    seq(n, _ => 0)
  }

  lemma UnpackJoin(b0: bv8, b1: bv8, b2: bv8)
    ensures Unpack(Join(b0, b1, b2)) == [b0, b1, b2]
  {
  }

  /** The three buffer bytes are what was read, followed by the zero fill. */
  lemma ZeroFilled(bytes: seq<bv8>)
    requires |bytes| <= 3
    ensures [ByteOrZero(bytes, 0), ByteOrZero(bytes, 1), ByteOrZero(bytes, 2)] == bytes + Zeros(3 - |bytes|)
  {
    var filled := bytes + Zeros(3 - |bytes|);
    assert forall i :: 0 <= i < 3 ==> filled[i] == ByteOrZero(bytes, i);
  }

  /** Writing back a packed group gives the bytes read, followed by the zero fill. */
  lemma UnpackPack(bytes: seq<bv8>)
    requires |bytes| <= 3
    ensures Unpack(Pack(bytes)) == bytes + Zeros(3 - |bytes|)
  {
    UnpackJoin(ByteOrZero(bytes, 0), ByteOrZero(bytes, 1), ByteOrZero(bytes, 2));
    ZeroFilled(bytes);
  }

  /** Reading back three written bytes gives the 24-bit value written. */
  lemma PackUnpack(v: bv32)
    requires v < 0x100_0000
    ensures Pack(Unpack(v)) == v
  {
  }
}
