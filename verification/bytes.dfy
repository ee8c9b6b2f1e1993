/** Unsigned integers of fixed width and their big-endian byte encoding,
    the layout every multi-byte field of a NAT-PMP message uses. */
module Bytes {

  type uint8 = x: int | 0 <= x < 0x100
  type uint16 = x: int | 0 <= x < 0x1_0000
  type uint32 = x: int | 0 <= x < 0x1_0000_0000

  /** 256 to the power n: one more than the largest value n bytes can hold. */
  function Pow256(n: nat): nat
  {
    if n == 0 then 1 else 256 * Pow256(n - 1)
  }

  /** The unsigned value of a byte string read most significant byte first. */
  function BigEndian(bs: seq<uint8>): (v: nat)
    ensures v < Pow256(|bs|)
  {
    if |bs| == 0 then 0
    else BigEndian(bs[..|bs| - 1]) * 256 + bs[|bs| - 1]
  }

  /** The n bytes, most significant first, whose big-endian value is v. */
  function ToBigEndian(v: nat, n: nat): (bs: seq<uint8>)
    requires v < Pow256(n)
    ensures |bs| == n
  {
    if n == 0 then [] else ToBigEndian(v / 256, n - 1) + [v % 256]
  }

  /** Encoding a value and reading it back yields the value. */
  lemma {:induction false} BigEndianOfToBigEndian(v: nat, n: nat)
    requires v < Pow256(n)
    ensures BigEndian(ToBigEndian(v, n)) == v
  {
    if n > 0 {
      var bs := ToBigEndian(v, n);
      assert bs[..n - 1] == ToBigEndian(v / 256, n - 1);
      BigEndianOfToBigEndian(v / 256, n - 1);
    }
  }

  /** Reading a byte string and encoding its value at the same width yields the bytes. */
  lemma {:induction false} ToBigEndianOfBigEndian(bs: seq<uint8>)
    ensures ToBigEndian(BigEndian(bs), |bs|) == bs
  {
    if |bs| > 0 {
      var n := |bs|;
      var hi := BigEndian(bs[..n - 1]);
      var v := BigEndian(bs);
      assert v / 256 == hi && v % 256 == bs[n - 1];
      ToBigEndianOfBigEndian(bs[..n - 1]);
      assert bs == bs[..n - 1] + [bs[n - 1]];
    }
  }

  /** A two-byte string holds its first byte times 256 plus its second. */
  lemma BigEndianOfTwo(bs: seq<uint8>)
    requires |bs| == 2
    ensures BigEndian(bs) == bs[0] as int * 0x100 + bs[1]
  {
  }

  /** A four-byte string holds its bytes as the digits of a base-256 number. */
  lemma BigEndianOfFour(bs: seq<uint8>)
    requires |bs| == 4
    ensures BigEndian(bs) == ((bs[0] as int * 0x100 + bs[1]) * 0x100 + bs[2]) * 0x100 + bs[3]
  {
    assert bs[..3][..2] == bs[..2];
    BigEndianOfTwo(bs[..2]);
  }
}
