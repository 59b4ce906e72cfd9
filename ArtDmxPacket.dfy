/**
 * The ArtDmx packet codec (class ArtDmxPacket): an 18-byte header followed by the
 * channel data. OpCode and Port-Address are little-endian, ProtVer and Length are
 * big-endian.
 */
module Packet {
  import opened Wrappers
  import opened Core

  /** Size of the fixed header. */
  const HeaderSize: int := 18

  /** The largest payload an ArtDmx packet carries. */
  const MaxDataLength: int := 512

  /** The largest buffer the decoding constructor accepts: a header and a full payload. */
  const MaxFrameSize: int := HeaderSize + MaxDataLength

  /** The protocol version the two-argument constructor uses. */
  const DefaultProtVer: uint16 := 14

  /** The fields of a packet; they are only set by the constructors. */
  datatype ArtDmxPacket = ArtDmxPacket(
    id: seq<uint8>,
    opCode: OpCode,
    protVer: uint16,
    sequence: uint8,
    physical: uint8,
    universe: uint16,
    length: uint16,
    data: seq<uint8>)
  {
    /** What both constructors establish: an 8-byte ID and exactly `length` data bytes. */
    predicate WellFormed() {
      |id| == 8 && |data| == length
    }
  }

  /** The big-endian Length field of a buffer holding a header. */
  function DeclaredLength(b: seq<uint8>): (r: uint16)
    requires |b| >= HeaderSize
    ensures r / 256 == b[16] && r % 256 == b[17]
  {
    Word(b[16], b[17])
  }

  /**
   * What the decoding constructor `ArtDmxPacket(byte[])` produces. A buffer outside
   * 18..530 bytes is rejected before anything is read; a declared Length that runs
   * past the end of the buffer faults in the payload copy; extra bytes after the
   * payload are ignored. The ID is copied, not checked.
   */
  function Decode(b: seq<uint8>): (r: Result<ArtDmxPacket, Error>)
    ensures r.Success? <==>
      HeaderSize <= |b| <= MaxFrameSize && HeaderSize + DeclaredLength(b) <= |b|
    ensures |b| < HeaderSize || |b| > MaxFrameSize ==> r == Failure(FrameLengthOutOfRange(|b|))
    ensures HeaderSize <= |b| <= MaxFrameSize && HeaderSize + DeclaredLength(b) > |b| ==>
      r == Failure(PayloadIndexOutOfRange(|b|))
    ensures r.Success? ==> r.value.WellFormed() && r.value.length == DeclaredLength(b)
    ensures r.Success? ==> r.value.id == b[..8] && r.value.data == b[HeaderSize..HeaderSize + r.value.length]
    ensures r.Success? ==> r.value.opCode == Word(b[9], b[8]) && r.value.protVer == Word(b[10], b[11])
    ensures r.Success? ==> r.value.sequence == b[12] && r.value.physical == b[13]
    ensures r.Success? ==> r.value.universe == Word(b[15], b[14])
  {
    if |b| < HeaderSize || |b| > MaxFrameSize then Failure(FrameLengthOutOfRange(|b|))
    else
      var length := DeclaredLength(b);
      if HeaderSize + length > |b| then Failure(PayloadIndexOutOfRange(|b|))
      else
        Success(ArtDmxPacket(
          b[..8],
          Word(b[9], b[8]),        // little-endian OpCode
          Word(b[10], b[11]),      // big-endian ProtVer
          b[12],
          b[13],
          Word(b[15], b[14]),      // little-endian Port-Address
          length,
          b[HeaderSize..HeaderSize + length]))
  }

  /**
   * The decoding constructor as written: checks the bounds, then copies the ID and
   * the payload byte by byte into fresh arrays. The payload copy faults at the first
   * index past the end of the buffer.
   */
  method FromBytes(b: seq<uint8>) returns (r: Result<ArtDmxPacket, Error>)
    ensures r == Decode(b)
  {
    if |b| < HeaderSize || |b| > MaxFrameSize {
      return Failure(FrameLengthOutOfRange(|b|));
    }
    var id := new uint8[8];
    for i := 0 to 8
      invariant id[..i] == b[..i]
    {
      id[i] := b[i];
    }
    var opCode := Word(b[9], b[8]);
    var protVer := Word(b[10], b[11]);
    var sequence := b[12];
    var physical := b[13];
    var universe := Word(b[15], b[14]);
    var length := Word(b[16], b[17]);
    var data := new uint8[length];
    for i := 0 to length
      invariant id[..] == b[..8]
      invariant HeaderSize + i <= |b|
      invariant data[..i] == b[HeaderSize..HeaderSize + i]
    {
      if HeaderSize + i >= |b| {
        return Failure(PayloadIndexOutOfRange(HeaderSize + i));
      }
      data[i] := b[HeaderSize + i];
    }
    assert id[..] == id[..8] && data[..] == data[..length];
    r := Success(ArtDmxPacket(id[..], opCode, protVer, sequence, physical, universe, length, data[..]));
  }

  /**
   * The encoding constructor `ArtDmxPacket(protVer, sequence, physical, universe, data)`:
   * rejects payloads of fewer than 1 or more than 512 bytes, fills in the ID, the
   * ArtDmx op-code and the length, and keeps the other fields as given.
   */
  function Create(protVer: uint16, sequence: uint8, physical: uint8, universe: uint16, data: seq<uint8>)
    : (r: Result<ArtDmxPacket, Error>)
    ensures r.Success? <==> 1 <= |data| <= MaxDataLength
    ensures r.Failure? ==> r.error == PacketDataLengthOutOfRange(|data|)
    ensures r.Success? ==> r.value.WellFormed() && r.value.id == ID && r.value.opCode == OpDmx
    ensures r.Success? ==> r.value.length == |data| && r.value.data == data
    ensures r.Success? ==> r.value.protVer == protVer && r.value.sequence == sequence
    ensures r.Success? ==> r.value.physical == physical && r.value.universe == universe
  {
    if |data| < 1 || |data| > MaxDataLength then Failure(PacketDataLengthOutOfRange(|data|))
    else Success(ArtDmxPacket(ID, OpDmx, protVer, sequence, physical, universe, |data|, data))
  }

  /** The two-argument encoding constructor: protocol version 14, sequence 0, physical 0. */
  function CreateDefault(universe: uint16, data: seq<uint8>): (r: Result<ArtDmxPacket, Error>)
    ensures r.Success? <==> 1 <= |data| <= MaxDataLength
    ensures r.Success? ==> r.value.protVer == DefaultProtVer && r.value.sequence == 0 && r.value.physical == 0
    ensures r.Success? ==> r.value.universe == universe && r.value.data == data && r.value.opCode == OpDmx
    ensures r.Success? ==> r.value.WellFormed() && r.value.id == ID && r.value.length == |data|
    ensures r.Failure? ==> r.error == PacketDataLengthOutOfRange(|data|)
  {
    Create(DefaultProtVer, 0, 0, universe, data)
  }

  /**
   * The bytes `ToBytes()` returns: the ID, then OpCode low and high, ProtVer high and
   * low, Sequence, Physical, SubUni (low byte of the Port-Address), Net (high byte),
   * Length high and low, then the data.
   */
  function Encode(p: ArtDmxPacket): (r: seq<uint8>)
    requires p.WellFormed()
    ensures |r| == HeaderSize + p.length
    ensures r[..8] == p.id && r[HeaderSize..] == p.data
    ensures Word(r[9], r[8]) == p.opCode && Word(r[10], r[11]) == p.protVer
    ensures r[12] == p.sequence && r[13] == p.physical
    ensures Word(r[15], r[14]) == p.universe && Word(r[16], r[17]) == p.length
  {
    p.id
    + [p.opCode % 256, p.opCode / 256,
       p.protVer / 256, p.protVer % 256,
       p.sequence, p.physical,
       p.universe % 256, p.universe / 256,
       p.length / 256, p.length % 256]
    + p.data
  }

  /** `ToBytes()` as written: a fresh array of 18 + Length bytes filled index by index. */
  method ToBytes(p: ArtDmxPacket) returns (bytes: array<uint8>)
    requires p.WellFormed()
    ensures fresh(bytes)
    ensures bytes[..] == Encode(p)
  {
    bytes := new uint8[HeaderSize + p.length];
    for i := 0 to 8
      invariant bytes[..i] == p.id[..i]
    {
      bytes[i] := p.id[i];
    }
    bytes[8] := p.opCode % 256;
    bytes[9] := p.opCode / 256;
    bytes[10] := p.protVer / 256;
    bytes[11] := p.protVer % 256;
    bytes[12] := p.sequence;
    bytes[13] := p.physical;
    bytes[14] := p.universe % 256;
    bytes[15] := p.universe / 256;
    bytes[16] := p.length / 256;
    bytes[17] := p.length % 256;
    for i := 0 to p.length
      invariant bytes[..HeaderSize] == Encode(p)[..HeaderSize]
      invariant bytes[HeaderSize..HeaderSize + i] == p.data[..i]
    {
      bytes[HeaderSize + i] := p.data[i];
    }
    assert bytes[..] == bytes[..HeaderSize] + bytes[HeaderSize..HeaderSize + p.length];
  }

  /**
   * Encode then decode: every well-formed packet of at most 512 data bytes (in
   * particular every packet the encoding constructor builds) is accepted by the
   * decoder and recovered field for field.
   */
  lemma EncodeThenDecode(p: ArtDmxPacket)
    requires p.WellFormed() && p.length <= MaxDataLength
    ensures Decode(Encode(p)) == Success(p)
  {
    var b := Encode(p);
    assert b[HeaderSize..HeaderSize + p.length] == p.data;
  }

  /**
   * Decode then encode: an accepted buffer is the encoding of the decoded packet,
   * followed by whatever trailing bytes the decoder ignored.
   */
  lemma DecodeThenEncode(b: seq<uint8>)
    requires Decode(b).Success?
    ensures Encode(Decode(b).value) == b[..HeaderSize + Decode(b).value.length]
  {
    var p := Decode(b).value;
    var e := Encode(p);
    forall k | 0 <= k < |e| ensures e[k] == b[k] {
      if k < 8 {
        assert e[k] == e[..8][k];
      } else if k >= HeaderSize {
        assert e[k] == e[HeaderSize..][k - HeaderSize];
      }
    }
  }

  /** A packet the encoding constructor builds round-trips through its own bytes. */
  lemma CreateRoundTrip(protVer: uint16, sequence: uint8, physical: uint8, universe: uint16, data: seq<uint8>)
    requires 1 <= |data| <= MaxDataLength
    ensures Create(protVer, sequence, physical, universe, data).Success?
    ensures var p := Create(protVer, sequence, physical, universe, data).value;
      |Encode(p)| <= MaxFrameSize && Decode(Encode(p)) == Success(p)
  {
    EncodeThenDecode(Create(protVer, sequence, physical, universe, data).value);
  }
}
