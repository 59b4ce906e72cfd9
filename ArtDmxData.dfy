/**
 * The Art-Net Port-Address and the DMX update that pairs it with channel data
 * (the struct ArtDmxData.PortAddressData and the class ArtDmxData).
 */
module Data {
  import opened Wrappers
  import opened Core

  /** The 7-bit Net field of a Port-Address. */
  type Net = x: int | 0 <= x < 128

  /** A 4-bit field of a Port-Address (Sub-Net or Universe). */
  type Nibble = x: int | 0 <= x < 16

  /** The largest flat Port-Address: 15 bits. */
  const MaxPortAddress: int := 0x7FFF

  /** The number of DMX512 channels one update may carry at most. */
  const MaxChannels: int := 512

  /**
   * A Port-Address split into its three fields. The fields' types hold the range
   * checks of the constructors, the only way the source builds a value.
   */
  datatype PortAddress = PortAddress(net: Net, subNet: Nibble, universe: Nibble) {

    /**
     * The flat 15-bit Port-Address, `net << 8 | subNet << 4 | universe`. The three
     * fields occupy disjoint bits, so the bitwise or is a sum.
     */
    function ToUniverse(): (r: uint16)
      ensures r <= MaxPortAddress
      ensures r / 256 == net && r % 256 / 16 == subNet && r % 16 == universe
    {
      net * 256 + subNet * 16 + universe
    }
  }

  /** `PortAddressData(net, subNet, universe)`: the checks run in the order Net, Sub-Net, Universe. */
  function PortAddressFromParts(net: uint8, subNet: uint8, universe: uint8): (r: Result<PortAddress, Error>)
    ensures r.Success? <==> net <= 127 && subNet <= 15 && universe <= 15
    ensures r.Success? ==> r.value.net == net && r.value.subNet == subNet && r.value.universe == universe
    ensures net > 127 ==> r == Failure(NetOutOfRange(net))
    ensures net <= 127 && subNet > 15 ==> r == Failure(SubNetOutOfRange(subNet))
    ensures net <= 127 && subNet <= 15 && universe > 15 ==> r == Failure(UniverseOutOfRange(universe))
  {
    if net > 127 then Failure(NetOutOfRange(net))
    else if subNet > 15 then Failure(SubNetOutOfRange(subNet))
    else if universe > 15 then Failure(UniverseOutOfRange(universe))
    else Success(PortAddress(net, subNet, universe))
  }

  /**
   * `PortAddressData(ushort universe)`: chains to the three-field constructor with
   * `u >> 8`, `(u & 0xF0) >> 4` and `u & 0x0F`, and only then checks `u > 32767`.
   * The chained Net check already rejects every such `u`, so the flat check is never
   * the one that fails.
   */
  function PortAddressFromUniverse(u: uint16): (r: Result<PortAddress, Error>)
    ensures r.Success? <==> u <= MaxPortAddress
    ensures r.Success? ==> r.value.ToUniverse() == u
    ensures r.Failure? ==> r.error == NetOutOfRange(u / 256)
  {
    var p :- PortAddressFromParts(u / 256, u % 256 / 16, u % 16);
    if u > MaxPortAddress then Failure(FlatUniverseOutOfRange(u)) else Success(p)
  }

  /** Parts to flat to parts: the flat form of a valid Port-Address decodes to the same fields. */
  lemma PortAddressPartsRoundTrip(net: uint8, subNet: uint8, universe: uint8)
    requires net <= 127 && subNet <= 15 && universe <= 15
    ensures PortAddressFromParts(net, subNet, universe).Success?
    ensures PortAddressFromUniverse(PortAddressFromParts(net, subNet, universe).value.ToUniverse())
         == Success(PortAddress(net, subNet, universe))
  {
    var p := PortAddress(net, subNet, universe);
    var u := p.ToUniverse();
    assert PortAddressFromParts(u / 256, u % 256 / 16, u % 16) == Success(p);
  }

  /** Distinct Port-Addresses have distinct flat forms. */
  lemma ToUniverseInjective(p: PortAddress, q: PortAddress)
    requires p.ToUniverse() == q.ToUniverse()
    ensures p == q
  {
  }

  /** A DMX update: a Port-Address and the channel values sent to it. */
  datatype ArtDmxData = ArtDmxData(portAddress: PortAddress, data: seq<uint8>) {

    /** What every constructor establishes: one to 512 channels. */
    predicate Valid() {
      1 <= |data| <= MaxChannels
    }

    /** The flat Port-Address of this update. */
    function Universe(): (r: uint16)
      ensures r <= MaxPortAddress
      ensures PortAddressFromUniverse(r) == Success(portAddress)
    {
      PortAddressPartsRoundTrip(portAddress.net, portAddress.subNet, portAddress.universe);
      portAddress.ToUniverse()
    }
  }

  /** `ArtDmxData(portAddress, data)`: rejects payloads of fewer than 1 or more than 512 bytes. */
  function DmxFromPortAddress(portAddress: PortAddress, data: seq<uint8>): (r: Result<ArtDmxData, Error>)
    ensures r.Success? <==> 1 <= |data| <= MaxChannels
    ensures r.Success? ==> r.value.Valid() && r.value.portAddress == portAddress && r.value.data == data
    ensures r.Failure? ==> r.error == DmxDataLengthOutOfRange(|data|)
  {
    if |data| < 1 || |data| > MaxChannels then Failure(DmxDataLengthOutOfRange(|data|))
    else Success(ArtDmxData(portAddress, data))
  }

  /** `ArtDmxData(net, subNet, universe, data)`: the Port-Address checks run before the length check. */
  function DmxFromParts(net: uint8, subNet: uint8, universe: uint8, data: seq<uint8>): (r: Result<ArtDmxData, Error>)
    ensures r.Success? <==> net <= 127 && subNet <= 15 && universe <= 15 && 1 <= |data| <= MaxChannels
    ensures r.Success? ==> r.value.Valid() && r.value.data == data
    ensures r.Success? ==> r.value.portAddress == PortAddress(net, subNet, universe)
    ensures PortAddressFromParts(net, subNet, universe).Failure? ==>
      r.Failure? && r.error == PortAddressFromParts(net, subNet, universe).error
  {
    var portAddress :- PortAddressFromParts(net, subNet, universe);
    DmxFromPortAddress(portAddress, data)
  }

  /** `ArtDmxData(ushort universe, data)`: the flat Port-Address is kept as given. */
  function DmxFromUniverse(universe: uint16, data: seq<uint8>): (r: Result<ArtDmxData, Error>)
    ensures r.Success? <==> universe <= MaxPortAddress && 1 <= |data| <= MaxChannels
    ensures r.Success? ==> r.value.Valid() && r.value.Universe() == universe && r.value.data == data
    ensures universe > MaxPortAddress ==> r == Failure(NetOutOfRange(universe / 256))
  {
    var portAddress :- PortAddressFromUniverse(universe);
    DmxFromPortAddress(portAddress, data)
  }
}
