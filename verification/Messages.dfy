/** The control-plane messages and limits of crates/farbus-protocol/src/lib.rs. */
module Messages {
  import opened Bytes
  import opened Utf8

  const VERSION: byte := 2
  const MAX_PAYLOAD: nat := 65_600
  const HEADER_LEN: nat := 10
  const MAGIC: seq<byte> := [0x46, 0x41, 0x52, 0x42]

  type DeviceId = u32

  datatype UsbSpeed = Low | Full | High | Super

  datatype TransferType = Control | Interrupt | Bulk | Isochronous

  datatype ErrorCode = Unauthorized | NotFound | Conflict | Unsupported

  datatype UsbInterfaceInfo = UsbInterfaceInfo(
    interfaceNumber: byte, interfaceClass: byte, interfaceSubclass: byte, interfaceProtocol: byte,
    endpoints: seq<byte>)

  datatype DeviceInfo = DeviceInfo(
    id: DeviceId, busId: Utf8String, vid: u16, pid: u16, usbClass: byte, speed: UsbSpeed,
    product: Utf8String, exported: bool, interfaces: seq<UsbInterfaceInfo>)

  datatype UrbSubmit = UrbSubmit(
    seqNum: u32, deviceId: DeviceId, endpoint: byte, transfer: TransferType,
    requestedLength: u32, data: seq<byte>)

  datatype UrbComplete = UrbComplete(seqNum: u32, status: i32, data: seq<byte>)

  datatype Message =
    | Hello(protocolMin: byte, protocolMax: byte, fingerprint: Bytes32, hostname: Utf8String)
    | Error(code: ErrorCode, detail: Utf8String)
    | Detach(detached: DeviceId)
    | DetachRequest(detachId: DeviceId, detachToken: Bytes32)
    | DeviceList(devices: seq<DeviceInfo>)
    | DeviceListRequest(listToken: Bytes32)
    | PairRequest(clientFingerprint: Bytes32, pinHash: Bytes32, clientName: Utf8String)
    | PairResponse(paired: bool, serverFingerprint: Bytes32, authToken: Bytes32)
    | AttachRequest(attachId: DeviceId, attachToken: Bytes32)
    | AttachResponse(attachedId: DeviceId, attached: bool, usbipPort: u16, busId: Utf8String)
    | SubmitUrb(urb: UrbSubmit)
    | CompleteUrb(complete: UrbComplete)
    | UnlinkUrb(unlinkSeq: u32, unlinkDevice: DeviceId)
    | UrbUnlinked(unlinkedSeq: u32, unlinkStatus: i32)

  datatype ProtocolError =
    | Truncated
    | BadMagic
    | UnsupportedVersion(version: byte)
    | PayloadTooLarge(len: nat, max: nat)
    | FieldTooLong(field: string, fieldLen: nat, fieldMax: nat)
    | UnknownType(ty: byte)
    | InvalidPayload
}
