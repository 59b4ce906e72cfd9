# Art-Net ArtDmx: packet codec, Port-Address and receive loop in Dafny

This project models the core of a Unity Art-Net library: the ArtDmx packet of the
Art-Net 4 protocol (DMX512 lighting data over UDP) and the receiver that turns
datagrams into DMX updates.

- `Wrappers.dfy` (module `Wrappers`): `Option` and `Result`. A C# constructor that throws
  becomes a function that returns `Failure(error)`.
- `ArtNetDefine.dfy` (module `Core`): byte and ushort types, the 8-byte ID `"Art-Net\0"`,
  port 6454, the op-codes `OpDmx = 0x5000` and `OpNone = 0`, one `Error` constructor per
  throw site, and `Word(hi, lo)` for `hi << 8 | lo`.
- `ArtDmxData.dfy` (module `Data`): the 15-bit Port-Address (Net 7 bits, Sub-Net 4 bits,
  Universe 4 bits). It can be built from its three fields or from its flat value, and turned
  back with `ToUniverse`. It also holds the DMX update `ArtDmxData`: a Port-Address and 1 to
  512 channel bytes.
- `ArtDmxPacket.dfy` (module `Packet`): the ArtDmx wire format. The frame is an 18-byte
  header and the payload. OpCode and Port-Address are little-endian. ProtVer and Length are
  big-endian.
  - `Decode` and `Encode` give the meaning of the decoding constructor and of `ToBytes()`.
  - `FromBytes` and `ToBytes` are those two operations as written: loops that fill fresh
    arrays byte by byte, each proved equal to its function.
  - The encoding constructors are `Create` and `CreateDefault`.
- `ArtNetReceiver.dfy` (module `Receiver`): the ID check, the op-code extraction, and the
  per-datagram decision `Dispatch`, which returns ignore, publish one update, or fault.
  - `Run` is the receive loop over a sequence of datagrams.
  - The class `ArtNetReceiver` holds the disposal flag, the cancellation request, the socket
    and subject, whether the loop has ended and why, and the log of published updates.

Payloads and datagrams are immutable byte sequences. Received datagrams are an input
sequence in arrival order.

Where the code and its stated intent differ, the model follows the code:
- The receive loop catches only `ObjectDisposedException`. An ArtDmx datagram that makes a
  constructor throw therefore ends the loop; it is not discarded. The model records this as
  a fault that stops the loop.
- Such datagrams are: 10 to 17 bytes long (too short for a header); longer than 530 bytes;
  declaring Length 0; declaring a Length that runs past the end of the buffer; or carrying a
  Net byte above 127.
- The decoder never checks `18 + Length` against the buffer size. Its copy loop faults at the
  first index past the end. `FromBytes` models this as `PayloadIndexOutOfRange`.

## Model

| member | source | states |
|---|---|---|
| `Data.PortAddress.ToUniverse` | Runtime/Scritps/Data/ArtDmxData.cs:99-102 | the flat Port-Address is at most 32767, and its high byte, bits 7-4 and bits 3-0 give back Net, Sub-Net and Universe |
| `Data.PortAddressFromParts` | Runtime/Scritps/Data/ArtDmxData.cs:74-83 | succeeds exactly when net <= 127, subNet <= 15 and universe <= 15, and stores them unchanged; otherwise fails on the first field out of range, checked in the order Net, Sub-Net, Universe |
| `Data.PortAddressFromUniverse` | Runtime/Scritps/Data/ArtDmxData.cs:89-93 | succeeds exactly when u <= 32767; flat to parts to flat gives back u; every failure is the chained Net check, so the explicit 32767 check never rejects |
| `Data.PortAddressPartsRoundTrip` | Runtime/Scritps/Data/ArtDmxData.cs:74-102 | parts to flat to parts: valid fields survive `ToUniverse` followed by the flat constructor |
| `Data.ToUniverseInjective` | Runtime/Scritps/Data/ArtDmxData.cs:99-102 | two Port-Addresses with the same flat value are equal |
| `Data.ArtDmxData.Universe` | Runtime/Scritps/Data/ArtDmxData.cs:46 | an update's Universe is its Port-Address's flat value; it is at most 32767 and the flat constructor gives back the same Port-Address |
| `Data.DmxFromPortAddress` | Runtime/Scritps/Data/ArtDmxData.cs:20-26 | succeeds exactly when the payload has 1 to 512 bytes, keeping Port-Address and data unchanged; otherwise fails with the payload length |
| `Data.DmxFromParts` | Runtime/Scritps/Data/ArtDmxData.cs:35 | succeeds exactly when the three fields are in range and the payload has 1 to 512 bytes; a field error is reported before a length error |
| `Data.DmxFromUniverse` | Runtime/Scritps/Data/ArtDmxData.cs:42 | succeeds exactly when universe <= 32767 and the payload has 1 to 512 bytes; the update's Universe is the value given |
| `Packet.Decode` | Runtime/Scritps/Packets/ArtDmxPacket.cs:17-40 | rejects buffers shorter than 18 or longer than 530 bytes; otherwise faults at the buffer end when 18 + Length exceeds the size; otherwise accepts: ID is bytes 0-7, OpCode bytes 8-9 little-endian, ProtVer bytes 10-11 big-endian, Sequence byte 12, Physical byte 13, Port-Address bytes 14-15 little-endian, Length bytes 16-17 big-endian, and Data exactly bytes 18 to 18 + Length |
| `Packet.FromBytes` | Runtime/Scritps/Packets/ArtDmxPacket.cs:17-40 | the byte-by-byte copy into fresh ID and payload arrays returns what `Decode` specifies, including the fault in the middle of the payload copy |
| `Packet.Create` | Runtime/Scritps/Packets/ArtDmxPacket.cs:50-65 | rejects payloads of 0 or more than 512 bytes; otherwise sets ID to the Art-Net ID, OpCode to OpDmx and Length to the payload size, and keeps the other fields as given |
| `Packet.CreateDefault` | Runtime/Scritps/Packets/ArtDmxPacket.cs:73 | the two-argument constructor is the five-argument one with protocol version 14, sequence 0 and physical 0: it rejects payloads of 0 or more than 512 bytes, and otherwise sets ID to the Art-Net ID, OpCode to OpDmx and Length to the payload size, keeps universe and data, and yields a well-formed packet |
| `Packet.Encode` | Runtime/Scritps/Packets/ArtDmxPacket.cs:84-122 | the frame has 18 + Length bytes: the ID in bytes 0-7, OpCode low then high, ProtVer high then low, Sequence, Physical, Port-Address low then high, Length high then low, and the data from byte 18 |
| `Packet.ToBytes` | Runtime/Scritps/Packets/ArtDmxPacket.cs:100-122 | the fresh array filled index by index holds exactly the frame `Encode` specifies |
| `Packet.EncodeThenDecode` | Runtime/Scritps/Packets/ArtDmxPacket.cs:17-40 | every well-formed packet with at most 512 data bytes is accepted by the decoder from its own bytes, and every field comes back |
| `Packet.DecodeThenEncode` | Runtime/Scritps/Packets/ArtDmxPacket.cs:29-39 | an accepted buffer, cut after its declared payload, is exactly the encoding of the decoded packet; trailing bytes are ignored |
| `Packet.CreateRoundTrip` | Runtime/Scritps/Packets/ArtDmxPacket.cs:50-122 | a packet from the encoding constructor encodes to at most 530 bytes, and decoding them gives back the same packet |
| `Receiver.IsArtNetID` | Runtime/Scritps/ArtNetReceiver.cs:108-121 | true exactly when the buffer has at least 8 bytes and its first 8 bytes are the Art-Net ID; later bytes do not matter |
| `Receiver.GetOpCodeType` | Runtime/Scritps/ArtNetReceiver.cs:128-134 | None for buffers under 10 bytes; otherwise the 16-bit value whose low byte is byte 8 and whose high byte is byte 9 |
| `Receiver.Dispatch` | Runtime/Scritps/ArtNetReceiver.cs:79-95 | a datagram without the ID, or with an op-code other than OpDmx, publishes nothing; a published update is valid and carries the decoded Port-Address and payload |
| `Receiver.DispatchFaultsExactly` | Runtime/Scritps/ArtNetReceiver.cs:82-84 | a datagram ends the loop exactly when it has the ID and the OpDmx op-code and is malformed: outside 18..530 bytes, Length 0, Length past the end, or Net byte above 127 |
| `Receiver.DispatchPublishesWellFormed` | Runtime/Scritps/ArtNetReceiver.cs:82-85 | a well-formed ArtDmx datagram publishes one update whose Universe is bytes 14-15 (little-endian) and whose data is bytes 18 to 18 + Length |
| `Receiver.Run` | Runtime/Scritps/ArtNetReceiver.cs:73-96 | the loop publishes at most one update per datagram |
| `Receiver.RunAppend` | Runtime/Scritps/ArtNetReceiver.cs:73-100 | the updates of a later batch of datagrams follow those of an earlier one; after a fault, later datagrams have no effect |
| `Receiver.RunSnoc` | Runtime/Scritps/ArtNetReceiver.cs:73-96 | one more datagram appends exactly the update `Dispatch` publishes for it, or ends the loop with its fault |
| `Receiver.RunEventsComeFromDatagrams` | Runtime/Scritps/ArtNetReceiver.cs:82-85 | every published update is what `Dispatch` publishes for some received datagram |
| `Receiver.ArtNetReceiver.constructor` | Runtime/Scritps/ArtNetReceiver.cs:27-41 | a new receiver is not disposed, its loop runs and nothing has been published |
| `Receiver.ArtNetReceiver.Dispose` | Runtime/Scritps/ArtNetReceiver.cs:51-62 | the first call sets the flag, closes the socket, cancels the token and disposes the subject; a later call changes nothing; published updates are kept |
| `Receiver.ArtNetReceiver.Receive` | Runtime/Scritps/ArtNetReceiver.cs:69-101 | an ended loop reads nothing; after cancellation the loop ends without publishing; otherwise the datagram is ignored, appends one update, or ends the loop with its fault, as `Dispatch` says |
| `Receiver.ArtNetReceiver.ReceiveAll` | Runtime/Scritps/ArtNetReceiver.cs:69-101 | fed a sequence of datagrams, the loop appends exactly the updates of `Run` in order, ends exactly when `Run` faults; once cancelled it publishes nothing and ends without a fault as soon as a datagram arrives |
| `Receiver.SentFrameIsReceived` | Runtime/Scritps/ArtNetSender.cs:64-65 | the frame the sender builds for a valid update is published by the receiver as that same update |

## Left out

- UDP sockets and async I/O: `UdpClient`, `ReceiveAsync` and `SendAsync` are not modelled. Received datagrams are an input sequence. The hostname and port binding is not modelled; the default port is only a constant.
- Threads and cancellation: the cancellation token is a boolean checked at each turn of the loop. A `Dispose` that races with a datagram in the middle of dispatch is not modelled.
- The R3 `Subject` and `ObserveOnMainThread`: publishing is appending to the event log. Subscribers and thread marshalling are not modelled.
- Finalizers `~ArtNetReceiver` and `~ArtNetSender`: garbage-collector cleanup, not deterministic.
- `ArtNetSender`: only the frame it builds (`ToBytes` of the two-argument packet) is modelled, in `Receiver.SentFrameIsReceived`. Its socket, its disposal and its fire-and-forget sends are I/O.
- `ToString` overrides and Unity serialization attributes: presentation and editor concerns.
- Array aliasing: payloads, IDs and datagrams are immutable sequences, so the model does not capture three things:
  - The encoding constructor keeps the caller's payload array, so a later write by the caller changes the packet.
  - The encoding constructor shares the static `ArtNetDefine.ID` array, and the public `ID` getter exposes it. A write through a packet's `ID` would change the constant that `IsArtNetID` compares against. The model's `ID` is a constant that cannot change.
  - A null array makes the C# constructors throw `NullReferenceException`. A sequence cannot be null, so this error path is not modelled.
- The `OpCodeType` enum is not part of this model. Op-codes are plain 16-bit values, and only `OpDmx` and `None` are named.
