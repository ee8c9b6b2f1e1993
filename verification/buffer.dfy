/** The bounds-checked reads of a Node.js Buffer that the response parser uses.
    Each read covers `width` bytes starting at `offset` and throws when they do
    not all lie inside the buffer; here the throw is a Failure value. */
module Buffer {
  import opened Results
  import opened Bytes

  /** The read of `width` bytes at `offset` ran past the end of a buffer of `length` bytes. */
  datatype RangeError = OutOfRange(offset: nat, width: nat, length: nat)

  /** The value of the `width` bytes at `offset`, big-endian, or the range error.
      On success the value is the one number below 256^width whose `width`-byte
      big-endian encoding is exactly the bytes read. */
  function ReadUIntBE(buf: seq<uint8>, offset: nat, width: nat): (r: Result<nat, RangeError>)
    ensures r.Success? <==> offset + width <= |buf|
    ensures r.Success? ==> r.value < Pow256(width)
    ensures r.Success? ==> ToBigEndian(r.value, width) == buf[offset..offset + width]
    ensures r.Failure? ==> r.error == OutOfRange(offset, width, |buf|)
  {
    if offset + width <= |buf| then
      ToBigEndianOfBigEndian(buf[offset..offset + width]);
      Success(BigEndian(buf[offset..offset + width]))
    else Failure(OutOfRange(offset, width, |buf|))
  }

  /** `buf.readUInt8(offset)`: the byte at `offset`. */
  function ReadUInt8(buf: seq<uint8>, offset: nat): (r: Result<uint8, RangeError>)
    ensures r.Success? <==> offset < |buf|
    ensures r.Success? ==> r.value == buf[offset]
    ensures r.Failure? ==> r.error == OutOfRange(offset, 1, |buf|)
  {
    var v :- ReadUIntBE(buf, offset, 1);
    BigEndianOfToBigEndian(v, 1);
    assert buf[offset..offset + 1][..0] == [];
    Success(v)
  }

  /** `buf.readUInt16BE(offset)`: the two bytes at `offset`, most significant first. */
  function ReadUInt16BE(buf: seq<uint8>, offset: nat): (r: Result<uint16, RangeError>)
    ensures r.Success? <==> offset + 2 <= |buf|
    ensures r.Success? ==> r.value == buf[offset] as int * 0x100 + buf[offset + 1]
    ensures r.Failure? ==> r.error == OutOfRange(offset, 2, |buf|)
  {
    var v :- ReadUIntBE(buf, offset, 2);
    BigEndianOfToBigEndian(v, 2);
    BigEndianOfTwo(buf[offset..offset + 2]);
    Success(v)
  }

  /** `buf.readUInt32BE(offset)`: the four bytes at `offset`, most significant first. */
  function ReadUInt32BE(buf: seq<uint8>, offset: nat): (r: Result<uint32, RangeError>)
    ensures r.Success? <==> offset + 4 <= |buf|
    ensures r.Success? ==> r.value == ((buf[offset] as int * 0x100 + buf[offset + 1])
                                       * 0x100 + buf[offset + 2]) * 0x100 + buf[offset + 3]
    ensures r.Failure? ==> r.error == OutOfRange(offset, 4, |buf|)
  {
    var v :- ReadUIntBE(buf, offset, 4);
    BigEndianOfToBigEndian(v, 4);
    assert Pow256(4) == 0x1_0000_0000;
    BigEndianOfFour(buf[offset..offset + 4]);
    Success(v)
  }
}
