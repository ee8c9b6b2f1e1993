# NAT-PMP client core, modelled in Dafny

This project models the working part of `node-nat-pmp`, a Node.js client for
the NAT Port Mapping Protocol. The layout is the one in section 3.2 of RFC 6886;
the code cites its predecessor, draft-cheshire-nat-pmp-03. The project covers:

- the "determine external address" request that `request` builds, which is two bytes: version 0, opcode 0 (it is never sent: see "Left out");
- the parser of the gateway's reply (`onmessage`). It reads a version byte, an opcode byte, a
  big-endian 16-bit result code, a big-endian 32-bit "seconds since start of
  epoch", and four address octets. It then asserts that exactly twelve bytes were consumed;
- the client's own state: the pending-work queue whose head `_next` removes and discards, the `listening` flag
  that the socket's `listening` and `close` events toggle, and the state a new client starts in.

Files:

- `results.dfy` (`Results`): `Option` and a `Result` that carries a thrown error as a value.
- `bytes.dfy` (`Bytes`): `uint8`/`uint16`/`uint32`, big-endian value and encoding of a byte
  string, and both round trips between them.
- `buffer.dfy` (`Buffer`): the bounds-checked Node.js `Buffer` reads the parser calls
  (`readUInt8`, `readUInt16BE`, `readUInt32BE`). A read of `width` bytes at
  `offset` fails with `OutOfRange` when `offset + width` exceeds the length.
- `codec.dfy` (`Codec`): the request encoder and the response decoder, and a serialiser for the
  parsed record, used as the decoder's inverse.
- `client.dfy` (`ClientState`): the client record, `_next`, the three socket-event handlers, and a
  run of events from any starting state.

The decoder follows the code, not the protocol's prose. It checks only the length.
Version, opcode and result code come back as read, even though the protocol says a
reply carries version 0 and the request opcode plus 128. The request encoder also follows the code: it ignores
its operation and argument and always builds the external-address request.
A short buffer fails at the first read that runs past its end. A longer buffer
passes every read and then fails the final length assertion. Both failures are
thrown exceptions in the source, and here they are `Failure` values.

In `_next`, the test `if (!req)` only chooses between two branches that both
return. A falsy queued item is therefore shifted off like any other, and the model
shifts the head in every case.

## Model

| member | source | states |
|---|---|---|
| Codec.EncodeRequest | index.js:57-62 | whatever operation and argument it is called with, the request is two bytes: version 0, then opcode 0 (external address) |
| Codec.Decode | index.js:82-94 | decoding succeeds iff the buffer is exactly 12 bytes; then vers = byte 0, OP = byte 1, resultCode = big-endian bytes 2..3, seconds = big-endian bytes 4..7, ip = bytes 8, 9, 10, 11 in order, with no check on version, opcode or result code, so any values come back unchanged; a shorter buffer fails at a field read that straddles its end, reporting that read's offset and width and the buffer's length; a longer one fails the length assertion with (length, 12) |
| Codec.EncodeDecode | index.js:84-94 | the parsed fields cover all twelve bytes without overlap: re-serialising a parsed response (byte, byte, BE16, BE32, four octets) reproduces the input buffer |
| Codec.DecodeEncode | index.js:84-94 | parsing the serialisation of any record with a four-octet address returns that record, so no field value is lost or altered |
| Buffer.ReadUIntBE | index.js:87-88 | a big-endian read of width bytes succeeds iff it lies inside the buffer; its value is below 256^width and its width-byte big-endian encoding is exactly the bytes read, which fixes it uniquely; otherwise it fails with (offset, width, buffer length) |
| Buffer.ReadUInt8 | index.js:85-86 | `readUInt8` succeeds iff the offset is inside the buffer and yields that byte, a value in [0,255] |
| Buffer.ReadUInt16BE | index.js:87 | `readUInt16BE` succeeds iff two bytes remain and yields first*256 + second, a value below 2^16 |
| Buffer.ReadUInt32BE | index.js:88 | `readUInt32BE` succeeds iff four bytes remain and yields them as a base-256 number, most significant first, below 2^32 |
| Bytes.BigEndian | index.js:87-88 | the big-endian value of an n-byte string is below 256^n |
| Bytes.BigEndianOfToBigEndian | index.js:87-88 | encoding a value that fits in n bytes and reading it back big-endian gives the value |
| Bytes.ToBigEndianOfBigEndian | index.js:87-88 | reading a byte string big-endian and encoding the value at the same width gives the bytes back |
| Bytes.BigEndianOfFour | index.js:88 | the big-endian value of four bytes is their base-256 number, most significant first |
| ClientState.NewClient | index.js:39-40 | a new client starts with an empty queue, not listening, and holds its gateway |
| ClientState.Next | index.js:108-114 | `_next` on an empty queue changes nothing; otherwise it removes exactly the head, which is discarded unprocessed (it only lands in an unused local), and the remaining queue is the rest in order; flag and gateway unchanged |
| ClientState.OnListening | index.js:73-76 | `onlistening` sets the flag and then drops exactly one queued request, unprocessed (none if the queue is empty) |
| ClientState.OnClose | index.js:100-102 | `onclose` clears the flag and leaves the queue and gateway as they were |
| ClientState.OnMessage | index.js:82-94 | `onmessage` leaves the client state unchanged; its parse succeeds iff the datagram has 12 bytes, and a successful parse re-serialises to the datagram |
| ClientState.RunQueue | index.js:73-114 | after any sequence of socket events, the queue is the original with as many requests dropped from its front as there were `listening` events, while it lasted; the gateway never changes |
| ClientState.RunListening | index.js:73-102 | after any sequence of socket events, the flag equals the effect of the most recent `listening` (true) or `close` (false), or its initial value if there was neither |
| ClientState.NewClientRun | index.js:39-40 | a fresh client's queue stays empty under any events, and it is listening exactly when the latest `listening`/`close` event was `listening` |

## Left out

- Codec.EncodeRequest: every call to `request` throws a ReferenceError at index.js:64, because `client` is declared nowhere in index.js, so nothing is ever sent and `request` never returns normally; only the two bytes built at index.js:58-62 are modelled.
- Socket creation, binding and sending (`dgram.createSocket`, `socket.bind`, `client.send`, index.js:43-48, 64-66) are I/O. The send at line 64 also names `client` and `gateway`, which are not defined in its scope.
- The event-wiring helper `on` and the forwarding of socket errors through `onerror` (index.js:104-106, 117-122) are callback plumbing over Node's EventEmitter. The model lists the events as a sequence and applies them in order.
- The `debug` and `console.log` output (index.js:36, 96-97, 111) is logging only.
- The parser's exception (index.js:94, or a read at 85-93) escapes the `message` listener installed by the helper at index.js:117-121. It becomes an uncaught exception, which ends the process unless the application has installed a `process.on('uncaughtException')` handler. The model returns the error as a value and leaves the client unchanged. `ClientState.Run` continuing after a failed `Message` event therefore covers only the case where such a handler exists.
- The port constants 5350/5351 (index.js:25-26) are data with no behaviour here.
- Retransmission backoff, mapping requests (opcodes 1 and 2), result-code-to-error translation, renewal timers and gateway-reboot detection are described for the protocol but are not in index.js. They are not modelled.
- The scripts test.js, test/test-error.js and test/test-mapping.js call `externalIp`, `portMapping` and `close`, which index.js does not define, and they need a live gateway. They say nothing about the code modelled here.
- Nothing in index.js adds to `_queue`. The queue's element type is therefore a type parameter, and the gateway address is one too.
