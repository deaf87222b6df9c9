/** How the scanner describes one advertising record: the kind of
    advertisement named by its event type, and its signal strength. */
module Advertising {
  import opened Ble

  /** A signed 8-bit integer, the type of the RSSI field. */
  newtype int8 = x: int | -128 <= x < 128

  /** The advertising event types of an LE advertising report; any other
      code the controller sends is kept as `Unrecognised`. */
  datatype EventType =
    | AdvInd          // connectable undirected
    | AdvDirectInd    // connectable directed
    | AdvScanInd      // scannable undirected
    | AdvNonconnInd   // non-connectable undirected
    | ScanRsp         // scan response
    | Unrecognised(code: nat)
  {
    /** The four advertising PDUs proper, as opposed to scan responses. */
    predicate IsAdvertisingPdu() {
      AdvInd? || AdvDirectInd? || AdvScanInd? || AdvNonconnInd?
    }
  }

  /** The label printed after "Found device: <address>". */
  datatype DeviceKind =
    | ConnectableUndirected
    | ConnectableDirected
    | Scannable
    | NonConnectable
    | ScanResponse

  /** An advertising record as the scan source hands it over. */
  datatype Record = Record(
    address: Address,
    eventType: EventType,
    rssi: int8,
    localName: Option<string>,
    uuids: seq<Uuid>)

  /** The label of an event type: one label for each advertising PDU and
      "Scan response" for everything else. */
  function KindOf(t: EventType): (k: DeviceKind)
    ensures k == ScanResponse <==> !t.IsAdvertisingPdu()
  {
    if t == AdvInd then ConnectableUndirected
    else if t == AdvDirectInd then ConnectableDirected
    else if t == AdvScanInd then Scannable
    else if t == AdvNonconnInd then NonConnectable
    else ScanResponse
  }

  /** The four advertising PDUs get four distinct labels. */
  lemma KindsDistinct(t: EventType, u: EventType)
    requires t.IsAdvertisingPdu() && u.IsAdvertisingPdu()
    ensures KindOf(t) == KindOf(u) <==> t == u
  {
  }

  /** How the RSSI line describes the signal strength. */
  datatype RssiReading =
    | Unavailable            // "RSSI: unavailable"
    | Dbm(dbm: int)          // "RSSI = <dbm> dBm"
    | UnknownByte(byte: nat) // "RSSI = <byte in hex> unknown"

  /** The C cast of a signed byte to `uint8_t`: the byte with the same bits. */
  function AsUnsignedByte(x: int8): (b: nat)
    ensures b < 256 && (b - x as int) % 256 == 0
  {
    if x < 0 then x as int + 256 else x as int
  }

  /** The three-way RSSI rule. 127 means "not available"; every value up to
      20, negatives included, is a reading in dBm; 21 to 126 are shown as a
      raw byte labelled unknown. Exactly one case applies to each value. */
  function ClassifyRssi(rssi: int8): (r: RssiReading)
    ensures r == Unavailable <==> rssi == 127
    ensures r.Dbm? <==> rssi <= 20
    ensures r.UnknownByte? <==> 21 <= rssi <= 126
    ensures r.Dbm? ==> r.dbm == rssi as int && -128 <= r.dbm <= 20
    ensures r.UnknownByte? ==> r.byte == rssi as int
  {
    if rssi == 127 then Unavailable
    else if rssi <= 20 then Dbm(rssi as int)
    else UnknownByte(AsUnsignedByte(rssi))
  }

  /** The boundary values of the RSSI rule. */
  lemma RssiBoundaries()
    ensures ClassifyRssi(-128) == Dbm(-128)
    ensures ClassifyRssi(0) == Dbm(0)
    ensures ClassifyRssi(20) == Dbm(20)
    ensures ClassifyRssi(21) == UnknownByte(21)
    ensures ClassifyRssi(126) == UnknownByte(126)
    ensures ClassifyRssi(127) == Unavailable
  {
  }
}
