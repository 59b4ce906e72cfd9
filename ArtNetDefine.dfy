/** Constants, byte types and error kinds shared by the Art-Net model. */
module Core {

  /** An unsigned 8-bit value (a C# byte). */
  type uint8 = x: int | 0 <= x < 0x100

  /** An unsigned 16-bit value (a C# ushort). */
  type uint16 = x: int | 0 <= x < 0x1_0000

  /** The 16-bit value whose high byte is `hi` and low byte is `lo`: `hi << 8 | lo`. */
  function Word(hi: uint8, lo: uint8): (r: uint16)
    ensures r / 256 == hi && r % 256 == lo
  {
    hi as int * 256 + lo as int
  }

  /** The UDP port Art-Net uses by default. */
  const Port: int := 6454

  /** The protocol identifier every Art-Net frame starts with: "Art-Net" and a zero byte. */
  const ID: seq<uint8> := [0x41, 0x72, 0x74, 0x2d, 0x4e, 0x65, 0x74, 0x00]

  /** An Art-Net op-code: any 16-bit value. Only the two below are named by this core. */
  type OpCode = uint16

  /** The value `GetOpCodeType` reports for a buffer too short to hold an op-code. */
  const OpNone: OpCode := 0

  /** The op-code of an ArtDmx packet (Art-Net 4, ArtDmx packet definition). */
  const OpDmx: OpCode := 0x5000

  /** The exceptions the constructors of the core throw, one constructor per throw site. */
  datatype Error =
    | NetOutOfRange(net: int)                 // PortAddressData: Net must be 0 to 127
    | SubNetOutOfRange(subNet: int)           // PortAddressData: Sub-Net must be 0 to 15
    | UniverseOutOfRange(universe: int)       // PortAddressData: Universe must be 0 to 15
    | FlatUniverseOutOfRange(flat: int)       // PortAddressData: Universe must be 0 to 32767
    | DmxDataLengthOutOfRange(length: int)    // ArtDmxData: data length must be 1 to 512
    | PacketDataLengthOutOfRange(length: int) // encoding ArtDmxPacket: data must be 1 to 512 bytes
    | FrameLengthOutOfRange(length: int)      // decoding ArtDmxPacket: data must be 18 to 530 bytes
    | PayloadIndexOutOfRange(index: int)      // decoding ArtDmxPacket: payload read past the buffer end
}
