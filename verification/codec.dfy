/** The NAT-PMP messages of index.js: the "determine external address" request
    the client builds and the parser for the gateway's answer. The layout is
    that of section 3.2 of RFC 6886 (the code cites its predecessor,
    draft-cheshire-nat-pmp-03). */
module Codec {
  import opened Results
  import opened Bytes
  import opened Buffer

  /** The protocol version written into, and first read from, every message. */
  const VERSION: uint8 := 0
  /** Opcode 0: "determine external address". */
  const OP_EXTERNAL_ADDRESS: uint8 := 0
  /** Bytes the parser consumes: version, opcode, result code, seconds, four address octets. */
  const RESPONSE_LENGTH: nat := 12

  /** The reads the parser performs, in order, as (offset, width) pairs. */
  const RESPONSE_FIELDS: seq<(nat, nat)> :=
    [(0, 1), (1, 1), (2, 2), (4, 4), (8, 1), (9, 1), (10, 1), (11, 1)]

  /** The record the parser builds: `vers`, `OP`, `resultCode`, `seconds` and `ip`. */
  datatype Response = Response(
    vers: uint8,
    op: uint8,
    resultCode: uint16,
    seconds: uint32,
    ip: seq<uint8>)

  /** Why a buffer was not turned into a Response: one of the bounds-checked
      reads ran past its end, or bytes remained after the last field. */
  datatype DecodeError =
    | ReadFailed(cause: RangeError)
    | LengthMismatch(actual: nat, expected: nat)

  /** The two bytes `request` builds (index.js:58-62). Whatever operation and
      argument it is called with, they are the external-address request. */
  function EncodeRequest<Op, Obj>(op: Op, obj: Obj): (message: seq<uint8>)
    ensures |message| == 2
    ensures message[0] == VERSION && message[1] == OP_EXTERNAL_ADDRESS
  {
    [VERSION, OP_EXTERNAL_ADDRESS]
  }

  function ReadField<T>(r: Result<T, RangeError>): Result<T, DecodeError>
  {
    r.MapFailure(e => ReadFailed(e))
  }

  /** Parses a gateway datagram field by field, then insists that nothing is left over.
      Version, opcode and result code are returned as read, never checked. */
  function Decode(msg: seq<uint8>): (r: Result<Response, DecodeError>)
    ensures r.Success? <==> |msg| == RESPONSE_LENGTH
    ensures r.Success? ==>
      && r.value.vers == msg[0]
      && r.value.op == msg[1]
      && r.value.resultCode == msg[2] as int * 0x100 + msg[3]
      && r.value.seconds == ((msg[4] as int * 0x100 + msg[5]) * 0x100 + msg[6]) * 0x100 + msg[7]
      && r.value.ip == msg[8..12]
    ensures |msg| < RESPONSE_LENGTH ==>
      && r.Failure? && r.error.ReadFailed?
      && (r.error.cause.offset, r.error.cause.width) in RESPONSE_FIELDS
      && r.error.cause.offset <= |msg| < r.error.cause.offset + r.error.cause.width
      && r.error.cause.length == |msg|
    ensures |msg| > RESPONSE_LENGTH ==> r == Failure(LengthMismatch(|msg|, RESPONSE_LENGTH))
  {
    var vers :- ReadField(ReadUInt8(msg, 0));
    var op :- ReadField(ReadUInt8(msg, 1));
    var resultCode :- ReadField(ReadUInt16BE(msg, 2));
    var seconds :- ReadField(ReadUInt32BE(msg, 4));
    var ip0 :- ReadField(ReadUInt8(msg, 8));
    var ip1 :- ReadField(ReadUInt8(msg, 9));
    var ip2 :- ReadField(ReadUInt8(msg, 10));
    var ip3 :- ReadField(ReadUInt8(msg, 11));
    if |msg| != RESPONSE_LENGTH then Failure(LengthMismatch(|msg|, RESPONSE_LENGTH))
    else Success(Response(vers, op, resultCode, seconds, [ip0, ip1, ip2, ip3]))
  }

  /** A response record whose address has the four octets the parser produces. */
  predicate WellFormed(r: Response)
  {
    |r.ip| == 4
  }

  /** Lays a response record out as the parser reads it: byte, byte,
      big-endian 16-bit, big-endian 32-bit, four octets. */
  function Encode(r: Response): (msg: seq<uint8>)
    requires WellFormed(r)
    ensures |msg| == RESPONSE_LENGTH
  {
    [r.vers, r.op] + ToBigEndian(r.resultCode, 2) + ToBigEndian(r.seconds, 4) + r.ip
  }

  /** Where each field of a record lands in its serialisation. */
  lemma EncodeLayout(r: Response)
    requires WellFormed(r)
    ensures Encode(r)[0] == r.vers && Encode(r)[1] == r.op
    ensures Encode(r)[2..4] == ToBigEndian(r.resultCode, 2)
    ensures Encode(r)[4..8] == ToBigEndian(r.seconds, 4)
    ensures Encode(r)[8..12] == r.ip
  {
    var head, rc, secs := [r.vers, r.op], ToBigEndian(r.resultCode, 2), ToBigEndian(r.seconds, 4);
    assert Encode(r) == head + rc + secs + r.ip;
  }

  /** The 16-bit result code of a parsed datagram is the big-endian value of bytes 2..3. */
  lemma DecodedResultCode(msg: seq<uint8>)
    requires |msg| == RESPONSE_LENGTH
    ensures Decode(msg).Success? && Decode(msg).value.resultCode == BigEndian(msg[2..4])
  {
    BigEndianOfTwo(msg[2..4]);
  }

  /** The 32-bit seconds field of a parsed datagram is the big-endian value of bytes 4..7. */
  lemma DecodedSeconds(msg: seq<uint8>)
    requires |msg| == RESPONSE_LENGTH
    ensures Decode(msg).Success? && Decode(msg).value.seconds == BigEndian(msg[4..8])
  {
    BigEndianOfFour(msg[4..8]);
  }

  /** Re-serialising a parsed response reproduces the datagram: the fields
      occupy disjoint byte ranges that together cover all twelve bytes. */
  lemma {:induction false} EncodeDecode(msg: seq<uint8>)
    requires |msg| == RESPONSE_LENGTH
    ensures Decode(msg).Success? && Encode(Decode(msg).value) == msg
  {
    var r := Decode(msg).value;
    DecodedResultCode(msg);
    ToBigEndianOfBigEndian(msg[2..4]);
    DecodedSeconds(msg);
    ToBigEndianOfBigEndian(msg[4..8]);
    var e := Encode(r);
    EncodeLayout(r);
    assert e[2..4] == msg[2..4] && e[4..8] == msg[4..8] && e[8..12] == msg[8..12];
    assert forall i | 0 <= i < RESPONSE_LENGTH :: e[i] == msg[i] by {
      forall i | 2 <= i < 4 ensures e[i] == msg[i] {
        assert e[i] == e[2..4][i - 2];
      }
      forall i | 4 <= i < 8 ensures e[i] == msg[i] {
        assert e[i] == e[4..8][i - 4];
      }
      forall i | 8 <= i < 12 ensures e[i] == msg[i] {
        assert e[i] == e[8..12][i - 8];
      }
    }
  }

  /** Parsing a serialised well-formed record gives the record back. */
  lemma {:induction false} DecodeEncode(r: Response)
    requires WellFormed(r)
    ensures Decode(Encode(r)) == Success(r)
  {
    var msg := Encode(r);
    EncodeLayout(r);
    DecodedResultCode(msg);
    BigEndianOfToBigEndian(r.resultCode, 2);
    DecodedSeconds(msg);
    BigEndianOfToBigEndian(r.seconds, 4);
  }
}
