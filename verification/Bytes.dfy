/** Big-endian integers over byte strings, as `unpack1("N")` and `unpack1("Q>")` read them. */
module Bytes {

  type Byte = b: int | 0 <= b < 256

  type ByteString = seq<Byte>

  const TWO_TO_THE_32 := 0x1_0000_0000
  const TWO_TO_THE_64 := 0x1_0000_0000_0000_0000

  /** The 32-bit number stored at `at`. */
  function Word32(s: ByteString, at: nat): (n: nat)
    requires at + 4 <= |s|
    ensures n < TWO_TO_THE_32
  {
    var a, b, c, d: nat := s[at], s[at + 1], s[at + 2], s[at + 3];
    a * 0x100_0000 + b * 0x1_0000 + c * 0x100 + d
  }

  /** The 64-bit number stored at `at`. */
  function Word64(s: ByteString, at: nat): nat
    requires at + 8 <= |s|
  {
    Word32(s, at) * TWO_TO_THE_32 + Word32(s, at + 4)
  }

  /** The four bytes of a 32-bit number. */
  function Encode32(n: nat): (s: ByteString)
    requires n < TWO_TO_THE_32
    ensures |s| == 4
  {
    [n / 0x100_0000, n / 0x1_0000 % 256, n / 256 % 256, n % 256]
  }

  /** The eight bytes of a 64-bit number. */
  function Encode64(n: nat): (s: ByteString)
    requires n < TWO_TO_THE_64
    ensures |s| == 8
  {
    Encode32(n / TWO_TO_THE_32) + Encode32(n % TWO_TO_THE_32)
  }

  /** `part` stands in `bytes` at position `at`. */
  ghost predicate Holds(bytes: ByteString, at: nat, part: ByteString) {
    at + |part| <= |bytes| && forall k | 0 <= k < |part| :: bytes[at + k] == part[k]
  }

  lemma HoldsConcat(bytes: ByteString, at: nat, whole: ByteString, left: ByteString, middle: nat, right: ByteString)
    requires Holds(bytes, at, whole) && whole == left + right && middle == at + |left|
    ensures Holds(bytes, at, left) && Holds(bytes, middle, right)
  {
    forall k | 0 <= k < |left| ensures bytes[at + k] == left[k] {
      assert whole[k] == left[k];
    }
    forall k | 0 <= k < |right| ensures bytes[middle + k] == right[k] {
      assert bytes[at + (|left| + k)] == whole[|left| + k] == right[k];
    }
  }

  lemma Digits(n: nat)
    ensures n == n / 0x100_0000 * 0x100_0000 + n / 0x1_0000 % 256 * 0x1_0000 + n / 0x100 % 256 * 0x100 + n % 256
  {
  }

  lemma ReadEncode32(bytes: ByteString, at: nat, n: nat)
    requires n < TWO_TO_THE_32 && Holds(bytes, at, Encode32(n))
    ensures Word32(bytes, at) == n
  {
    var s := Encode32(n);
    assert bytes[at + 0] == s[0] && bytes[at + 1] == s[1] && bytes[at + 2] == s[2] && bytes[at + 3] == s[3];
    Digits(n);
  }

  lemma ReadEncode64(bytes: ByteString, at: nat, n: nat)
    requires n < TWO_TO_THE_64 && Holds(bytes, at, Encode64(n))
    ensures Word64(bytes, at) == n
  {
    HoldsConcat(bytes, at, Encode64(n), Encode32(n / TWO_TO_THE_32), at + 4, Encode32(n % TWO_TO_THE_32));
    ReadEncode32(bytes, at, n / TWO_TO_THE_32);
    ReadEncode32(bytes, at + 4, n % TWO_TO_THE_32);
  }
}
