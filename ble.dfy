/** Values shared by the scanner and the GATT workflow: optional values,
    Bluetooth UUIDs and device addresses. */
module Ble {

  datatype Option<+T> = None | Some(value: T)

  /** A Bluetooth UUID, by the value of its 128-bit form. Two UUIDs are equal
      exactly when their 128-bit forms are; nothing here depends on the width. */
  datatype Uuid = Uuid(value: nat)

  /** The Bluetooth Base UUID 00000000-0000-1000-8000-00805F9B34FB, into which
      a 16-bit UUID is placed (Bluetooth Core Specification, Vol 3, Part B,
      section 2.5.1). */
  const BaseUuid: int := 0x0000_0000_0000_1000_8000_0080_5f9b_34fb

  /** The 128-bit form of a 16-bit UUID such as "2a00". */
  function FromShort(short: int): Uuid
    requires 0 <= short < 0x1_0000
  {
    Uuid(short * 0x1_0000_0000_0000_0000_0000_0000 + BaseUuid)
  }

  /** A device address in its textual form, "AA:BB:CC:DD:EE:FF". */
  type Address = string
}
