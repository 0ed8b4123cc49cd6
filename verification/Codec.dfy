/**
 The wire codec of crates/farbus-protocol/src/lib.rs as pure functions, and the proof that
 encoding and decoding are inverse to each other.

 Encoders are written with the bytes that follow as their last argument, so that the layout
 of a message reads field by field in wire order.  Parsers return the value read and the rest.
 */
module Codec {
  import opened Results
  import opened Bytes
  import opened Utf8
  import opened Messages

  type Parsed<+T> = Result<(T, seq<byte>), ProtocolError>

  // ---------------------------------------------------------------- counted lists

  /** The first element a check rejects, in list order. */
  function FirstError<T>(check: T -> Option<ProtocolError>, list: seq<T>): Option<ProtocolError> {
    if list == [] then None
    else if check(list[0]).Some? then check(list[0])
    else FirstError(check, list[1..])
  }

  /** The elements of a list one after the other, then `rest`. */
  function ManyBytes<T>(put: (T, seq<byte>) -> seq<byte>, list: seq<T>, rest: seq<byte>): seq<byte> {
    if list == [] then rest else put(list[0], ManyBytes(put, list[1..], rest))
  }

  /** `count` elements read one after the other; the first failure stops. */
  function ReadMany<T>(read: seq<byte> -> Parsed<T>, count: nat, c: seq<byte>): (r: Parsed<seq<T>>)
    ensures r.Ok? ==> |r.value.0| == count
  {
    if count == 0 then Ok(([], c))
    else
      var (head, c1) :- read(c);
      var (tail, rest) :- ReadMany(read, count - 1, c1);
      Ok(([head] + tail, rest))
  }

  /** A list is read back if each of its elements is. */
  lemma {:induction false} ManyBack<T(!new)>(
      check: T -> Option<ProtocolError>, put: (T, seq<byte>) -> seq<byte>, read: seq<byte> -> Parsed<T>,
      list: seq<T>, rest: seq<byte>)
    requires forall x, r :: check(x).None? ==> read(put(x, r)) == Ok((x, r))
    requires FirstError(check, list).None?
    ensures ReadMany(read, |list|, ManyBytes(put, list, rest)) == Ok((list, rest))
  {
    if list != [] {
      ManyBack(check, put, read, list[1..], rest);
      assert list == [list[0]] + list[1..];
    }
  }

  /** A list that was read is laid out element by element if each element is. */
  lemma {:induction false} ManyCanonical<T>(
      check: T -> Option<ProtocolError>, put: (T, seq<byte>) -> seq<byte>, read: seq<byte> -> Parsed<T>,
      count: nat, c: seq<byte>)
    requires forall b :: read(b).Ok? ==> check(read(b).value.0).None? && b == put(read(b).value.0, read(b).value.1)
    requires ReadMany(read, count, c).Ok?
    ensures var (list, rest) := ReadMany(read, count, c).value;
            FirstError(check, list).None? && c == ManyBytes(put, list, rest)
  {
    if count > 0 {
      var (head, c1) := read(c).value;
      ManyCanonical(check, put, read, count - 1, c1);
      var (tail, rest) := ReadMany(read, count - 1, c1).value;
      assert ([head] + tail)[1..] == tail;
    }
  }

  // ---------------------------------------------------------------- enum tags

  function TypeTag(m: Message): byte {
    match m
    case Hello(_, _, _, _) => 1
    case Error(_, _) => 2
    case Detach(_) => 3
    case DeviceList(_) => 4
    case PairRequest(_, _, _) => 5
    case PairResponse(_, _, _) => 6
    case AttachRequest(_, _) => 7
    case AttachResponse(_, _, _, _) => 8
    case SubmitUrb(_) => 9
    case CompleteUrb(_) => 10
    case DeviceListRequest(_) => 11
    case DetachRequest(_, _) => 12
    case UnlinkUrb(_, _) => 13
    case UrbUnlinked(_, _) => 14
  }

  function SpeedTag(speed: UsbSpeed): byte {
    match speed case Low => 1 case Full => 2 case High => 3 case Super => 4
  }

  function SpeedOf(tag: byte): (r: Result<UsbSpeed, ProtocolError>)
    ensures r.Ok? ==> SpeedTag(r.value) == tag
    ensures if 1 <= tag <= 4 then r.Ok? else r == Err(InvalidPayload)
  {
    match tag
    case 1 => Ok(Low)
    case 2 => Ok(Full)
    case 3 => Ok(High)
    case 4 => Ok(Super)
    case _ => Err(InvalidPayload)
  }

  function TransferTag(t: TransferType): byte {
    match t case Control => 1 case Interrupt => 2 case Bulk => 3 case Isochronous => 4
  }

  function TransferOf(tag: byte): (r: Result<TransferType, ProtocolError>)
    ensures r.Ok? ==> TransferTag(r.value) == tag
    ensures if 1 <= tag <= 4 then r.Ok? else r == Err(InvalidPayload)
  {
    match tag
    case 1 => Ok(Control)
    case 2 => Ok(Interrupt)
    case 3 => Ok(Bulk)
    case 4 => Ok(Isochronous)
    case _ => Err(InvalidPayload)
  }

  function CodeTag(code: ErrorCode): u16 {
    match code case Unauthorized => 1 case NotFound => 2 case Conflict => 3 case Unsupported => 4
  }

  function CodeOf(tag: u16): (r: Result<ErrorCode, ProtocolError>)
    ensures r.Ok? ==> CodeTag(r.value) == tag
    ensures if 1 <= tag <= 4 then r.Ok? else r == Err(InvalidPayload)
  {
    match tag
    case 1 => Ok(Unauthorized)
    case 2 => Ok(NotFound)
    case 3 => Ok(Conflict)
    case 4 => Ok(Unsupported)
    case _ => Err(InvalidPayload)
  }

  function BoolTag(b: bool): byte {
    if b then 1 else 0
  }

  function BoolOf(tag: byte): (r: Result<bool, ProtocolError>)
    ensures r.Ok? ==> BoolTag(r.value) == tag
    ensures if tag <= 1 then r.Ok? else r == Err(InvalidPayload)
  {
    match tag
    case 0 => Ok(false)
    case 1 => Ok(true)
    case _ => Err(InvalidPayload)
  }

  // ---------------------------------------------------------------- encoding

  function StringError(field: string, s: seq<byte>, max: nat): Option<ProtocolError> {
    if |s| > max then Some(FieldTooLong(field, |s|, max)) else None
  }

  /** The first of two checks to fail, in the order the encoder makes them. */
  function OrElse(first: Option<ProtocolError>, second: Option<ProtocolError>): Option<ProtocolError> {
    if first.Some? then first else second
  }

  function InterfaceError(i: UsbInterfaceInfo): Option<ProtocolError> {
    StringError("interface.endpoints", i.endpoints, 255)
  }

  function InterfacesError(list: seq<UsbInterfaceInfo>): Option<ProtocolError> {
    FirstError(InterfaceError, list)
  }

  function DeviceError(d: DeviceInfo): Option<ProtocolError> {
    OrElse(StringError("bus_id", d.busId, 255),
    OrElse(StringError("product", d.product, 255),
    OrElse(if |d.interfaces| > 255 then Some(FieldTooLong("device.interfaces", |d.interfaces|, 255)) else None,
           InterfacesError(d.interfaces))))
  }

  function ListError(list: seq<DeviceInfo>): Option<ProtocolError> {
    OrElse(if |list| > 65_535 then Some(FieldTooLong("devices", |list|, 65_535)) else None, FirstError(DeviceError, list))
  }

  function UrbDataError(data: seq<byte>): Option<ProtocolError> {
    if |data| > MAX_U32 then Some(FieldTooLong("urb.data", |data|, MAX_PAYLOAD)) else None
  }

  /** The first field of `m` that does not fit its wire representation. */
  function FieldError(m: Message): Option<ProtocolError> {
    match m
    case Hello(_, _, _, hostname) => StringError("hostname", hostname, 255)
    case Error(_, detail) => StringError("detail", detail, 65_535)
    case DeviceList(devices) => ListError(devices)
    case PairRequest(_, _, name) => StringError("client_name", name, 255)
    case AttachResponse(_, _, _, busId) => StringError("bus_id", busId, 255)
    case SubmitUrb(urb) => UrbDataError(urb.data)
    case CompleteUrb(complete) => UrbDataError(complete.data)
    case _ => None
  }

  /** Length prefixes; the zero stands for lengths that `FieldError` has already rejected. */
  function Length8(n: nat): byte {
    if n <= 0xff then n else 0
  }

  function Length16(n: nat): u16 {
    if n <= 0xffff then n else 0
  }

  function Length32(n: nat): u32 {
    if n <= MAX_U32 then n else 0
  }

  /** Text or endpoints preceded by their length. */
  function ShortText(s: seq<byte>, rest: seq<byte>): seq<byte> {
    [Length8(|s|)] + (s + rest)
  }

  function LongText(s: seq<byte>, rest: seq<byte>): seq<byte> {
    U16Bytes(Length16(|s|)) + (s + rest)
  }

  function UrbData(data: seq<byte>, rest: seq<byte>): seq<byte> {
    U32Bytes(Length32(|data|)) + (data + rest)
  }

  function InterfaceBytes(i: UsbInterfaceInfo, rest: seq<byte>): seq<byte> {
    [i.interfaceNumber] + ([i.interfaceClass] + ([i.interfaceSubclass] + ([i.interfaceProtocol] +
      ShortText(i.endpoints, rest))))
  }

  /** The fixed-width middle of a device record. */
  function DescriptorBytes(vid: u16, pid: u16, usbClass: byte, speed: UsbSpeed, rest: seq<byte>): seq<byte> {
    U16Bytes(vid) + (U16Bytes(pid) + ([usbClass] + ([SpeedTag(speed)] + rest)))
  }

  /** The end of a device record: export flag and counted interfaces. */
  function ExportBytes(exported: bool, interfaces: seq<UsbInterfaceInfo>, rest: seq<byte>): seq<byte> {
    [BoolTag(exported)] + ([Length8(|interfaces|)] + ManyBytes(InterfaceBytes, interfaces, rest))
  }

  function DeviceBytes(d: DeviceInfo, rest: seq<byte>): seq<byte> {
    U32Bytes(d.id) + ShortText(d.busId, DescriptorBytes(d.vid, d.pid, d.usbClass, d.speed,
      ShortText(d.product, ExportBytes(d.exported, d.interfaces, rest))))
  }

  function ListBytes(list: seq<DeviceInfo>): seq<byte> {
    U16Bytes(Length16(|list|)) + ManyBytes(DeviceBytes, list, [])
  }

  function SubmitBytes(u: UrbSubmit): seq<byte> {
    U32Bytes(u.seqNum) + (U32Bytes(u.deviceId) + ([u.endpoint] + ([TransferTag(u.transfer)] +
      (U32Bytes(u.requestedLength) + UrbData(u.data, [])))))
  }

  function CompleteBytes(c: UrbComplete): seq<byte> {
    U32Bytes(c.seqNum) + (I32Bytes(c.status) + UrbData(c.data, []))
  }

  /** The payload of a message, laid out in wire order; used for messages whose fields all fit. */
  function PayloadBytes(m: Message): seq<byte> {
    match m
    case Hello(min, max, fingerprint, hostname) =>
      [min] + ([max] + (fingerprint + ShortText(hostname, [])))
    case Error(code, detail) => U16Bytes(CodeTag(code)) + LongText(detail, [])
    case Detach(id) => U32Bytes(id) + []
    case DetachRequest(id, token) => U32Bytes(id) + (token + [])
    case DeviceListRequest(token) => token + []
    case DeviceList(devices) => ListBytes(devices)
    case PairRequest(fingerprint, pinHash, name) => fingerprint + (pinHash + ShortText(name, []))
    case PairResponse(paired, fingerprint, token) => [BoolTag(paired)] + (fingerprint + (token + []))
    case AttachRequest(id, token) => U32Bytes(id) + (token + [])
    case AttachResponse(id, attached, port, busId) =>
      U32Bytes(id) + ([BoolTag(attached)] + (U16Bytes(port) + ShortText(busId, [])))
    case SubmitUrb(urb) => SubmitBytes(urb)
    case CompleteUrb(complete) => CompleteBytes(complete)
    case UnlinkUrb(seqNum, device) => U32Bytes(seqNum) + (U32Bytes(device) + [])
    case UrbUnlinked(seqNum, status) => U32Bytes(seqNum) + (I32Bytes(status) + [])
  }

  function Header(ty: byte, payloadLen: u32): (h: seq<byte>)
    ensures |h| == HEADER_LEN
    ensures h[..4] == MAGIC && h[4] == VERSION && h[5] == ty && U32Value(h[6..10]) == payloadLen
  {
    var h := MAGIC + [VERSION, ty] + U32Bytes(payloadLen);
    assert h[6..10] == U32Bytes(payloadLen);
    h
  }

  function Encode(m: Message): (r: Result<seq<byte>, ProtocolError>) {
    match FieldError(m)
    case Some(e) => Err(e)
    case None =>
      var payload := PayloadBytes(m);
      if |payload| > MAX_PAYLOAD then Err(PayloadTooLarge(|payload|, MAX_PAYLOAD))
      else Ok(Header(TypeTag(m), |payload|) + payload)
  }

  // ---------------------------------------------------------------- decoding

  function Take(c: seq<byte>, n: nat): (r: Parsed<seq<byte>>)
    ensures r.Ok? ==> |r.value.0| == n && c == r.value.0 + r.value.1
    ensures if n <= |c| then r.Ok? else r == Err(Truncated)
  {
    if |c| < n then Err(Truncated) else Ok((c[..n], c[n..]))
  }

  function ReadU8(c: seq<byte>): (r: Parsed<byte>)
    ensures r.Ok? ==> c == [r.value.0] + r.value.1
  {
    var (b, rest) :- Take(c, 1);
    Ok((b[0], rest))
  }

  function ReadU16(c: seq<byte>): (r: Parsed<u16>)
    ensures r.Ok? ==> c == U16Bytes(r.value.0) + r.value.1
  {
    var (b, rest) :- Take(c, 2);
    U16BytesOfValue(b);
    Ok((U16Value(b), rest))
  }

  function ReadU32(c: seq<byte>): (r: Parsed<u32>)
    ensures r.Ok? ==> c == U32Bytes(r.value.0) + r.value.1
  {
    var (b, rest) :- Take(c, 4);
    U32BytesOfValue(b);
    Ok((U32Value(b), rest))
  }

  function ReadI32(c: seq<byte>): (r: Parsed<i32>)
    ensures r.Ok? ==> c == I32Bytes(r.value.0) + r.value.1
  {
    var (b, rest) :- Take(c, 4);
    I32BytesOfValue(b);
    Ok((I32Value(b), rest))
  }

  function ReadBytes32(c: seq<byte>): (r: Parsed<Bytes32>)
    ensures r.Ok? ==> c == r.value.0 + r.value.1
  {
    var (b, rest) :- Take(c, 32);
    Ok((b, rest))
  }

  function Text(b: seq<byte>): (r: Result<Utf8String, ProtocolError>)
    ensures r == if ValidUtf8(b) then Ok(b) else Err(InvalidPayload)
  {
    if ValidUtf8(b) then Ok(b) else Err(InvalidPayload)
  }

  function ReadShortBytes(c: seq<byte>): (r: Parsed<seq<byte>>)
    ensures r.Ok? ==> |r.value.0| <= 255 && c == ShortText(r.value.0, r.value.1)
  {
    var (n, c1) :- ReadU8(c);
    Take(c1, n)
  }

  function ReadShortText(c: seq<byte>): (r: Parsed<Utf8String>)
    ensures r.Ok? ==> |r.value.0| <= 255 && c == ShortText(r.value.0, r.value.1)
  {
    var (b, rest) :- ReadShortBytes(c);
    var s :- Text(b);
    Ok((s, rest))
  }

  function ReadLongText(c: seq<byte>): (r: Parsed<Utf8String>)
    ensures r.Ok? ==> |r.value.0| <= 65_535 && c == LongText(r.value.0, r.value.1)
  {
    var (n, c1) :- ReadU16(c);
    var (b, rest) :- Take(c1, n);
    var s :- Text(b);
    Ok((s, rest))
  }

  function ReadBool(c: seq<byte>): (r: Parsed<bool>)
    ensures r.Ok? ==> c == [BoolTag(r.value.0)] + r.value.1
  {
    var (b, rest) :- ReadU8(c);
    var v :- BoolOf(b);
    Ok((v, rest))
  }

  function ReadInterface(c: seq<byte>): Parsed<UsbInterfaceInfo> {
    var (number, c1) :- ReadU8(c);
    var (class_, c2) :- ReadU8(c1);
    var (subclass, c3) :- ReadU8(c2);
    var (protocol, c4) :- ReadU8(c3);
    var (endpoints, rest) :- ReadShortBytes(c4);
    Ok((UsbInterfaceInfo(number, class_, subclass, protocol, endpoints), rest))
  }

  function ReadDescriptor(c: seq<byte>): Parsed<(u16, u16, byte, UsbSpeed)> {
    var (vid, c1) :- ReadU16(c);
    var (pid, c2) :- ReadU16(c1);
    var (usbClass, c3) :- ReadU8(c2);
    var (tag, c4) :- ReadU8(c3);
    var speed :- SpeedOf(tag);
    Ok(((vid, pid, usbClass, speed), c4))
  }

  function ReadExport(c: seq<byte>): Parsed<(bool, seq<UsbInterfaceInfo>)> {
    var (exported, c1) :- ReadBool(c);
    var (count, c2) :- ReadU8(c1);
    var (interfaces, c3) :- ReadMany(ReadInterface, count, c2);
    Ok(((exported, interfaces), c3))
  }

  function ReadDevice(c: seq<byte>): Parsed<DeviceInfo> {
    var (id, c1) :- ReadU32(c);
    var (busId, c2) :- ReadShortText(c1);
    var (d, c3) :- ReadDescriptor(c2);
    var (product, c4) :- ReadShortText(c3);
    var (e, rest) :- ReadExport(c4);
    Ok((DeviceInfo(id, busId, d.0, d.1, d.2, d.3, product, e.0, e.1), rest))
  }

  function ReadList(c: seq<byte>): Parsed<seq<DeviceInfo>> {
    var (count, c1) :- ReadU16(c);
    ReadMany(ReadDevice, count, c1)
  }

  function ReadSubmit(c: seq<byte>): (r: Parsed<UrbSubmit>)
    ensures r.Ok? && r.value.1 == [] ==> UrbDataError(r.value.0.data).None? && c == SubmitBytes(r.value.0)
  {
    var (seqNum, c1) :- ReadU32(c);
    var (device, c2) :- ReadU32(c1);
    var (endpoint, c3) :- ReadU8(c2);
    var (tag, c4) :- ReadU8(c3);
    var transfer :- TransferOf(tag);
    var (requested, c5) :- ReadU32(c4);
    var (n, c6) :- ReadU32(c5);
    var (data, rest) :- Take(c6, n);
    Ok((UrbSubmit(seqNum, device, endpoint, transfer, requested, data), rest))
  }

  function ReadComplete(c: seq<byte>): (r: Parsed<UrbComplete>)
    ensures r.Ok? && r.value.1 == [] ==> UrbDataError(r.value.0.data).None? && c == CompleteBytes(r.value.0)
  {
    var (seqNum, c1) :- ReadU32(c);
    var (status, c2) :- ReadI32(c1);
    var (n, c3) :- ReadU32(c2);
    var (data, rest) :- Take(c3, n);
    Ok((UrbComplete(seqNum, status, data), rest))
  }

  /** The value, provided the cursor has reached the end of the payload. */
  function Finish(m: Message, rest: seq<byte>): Result<Message, ProtocolError> {
    if rest == [] then Ok(m) else Err(InvalidPayload)
  }

  /** What every body parser promises: a body read to its end is exactly the message's payload. */
  ghost predicate Canonical(ty: byte, c: seq<byte>, r: Parsed<Message>) {
    r.Ok? && r.value.1 == [] ==>
      TypeTag(r.value.0) == ty && FieldError(r.value.0).None? && PayloadBytes(r.value.0) == c
  }

  function ReadHello(c: seq<byte>): (r: Parsed<Message>)
    ensures Canonical(1, c, r)
  {
    var (min, c1) :- ReadU8(c);
    var (max, c2) :- ReadU8(c1);
    var (fingerprint, c3) :- ReadBytes32(c2);
    var (hostname, c4) :- ReadShortText(c3);
    Ok((Hello(min, max, fingerprint, hostname), c4))
  }

  function ReadError(c: seq<byte>): (r: Parsed<Message>)
    ensures Canonical(2, c, r)
  {
    var (tag, c1) :- ReadU16(c);
    var code :- CodeOf(tag);
    var (detail, c2) :- ReadLongText(c1);
    Ok((Error(code, detail), c2))
  }

  function ReadDeviceAndToken(c: seq<byte>): (r: Parsed<(DeviceId, Bytes32)>)
    ensures r.Ok? ==> c == U32Bytes(r.value.0.0) + (r.value.0.1 + r.value.1)
  {
    var (id, c1) :- ReadU32(c);
    var (token, c2) :- ReadBytes32(c1);
    Ok(((id, token), c2))
  }

  function ReadPairRequest(c: seq<byte>): (r: Parsed<Message>)
    ensures Canonical(5, c, r)
  {
    var (fingerprint, c1) :- ReadBytes32(c);
    var (pinHash, c2) :- ReadBytes32(c1);
    var (name, c3) :- ReadShortText(c2);
    Ok((PairRequest(fingerprint, pinHash, name), c3))
  }

  function ReadPairResponse(c: seq<byte>): (r: Parsed<Message>)
    ensures Canonical(6, c, r)
  {
    var (paired, c1) :- ReadBool(c);
    var (fingerprint, c2) :- ReadBytes32(c1);
    var (token, c3) :- ReadBytes32(c2);
    Ok((PairResponse(paired, fingerprint, token), c3))
  }

  function ReadAttachResponse(c: seq<byte>): (r: Parsed<Message>)
    ensures Canonical(8, c, r)
  {
    var (id, c1) :- ReadU32(c);
    var (attached, c2) :- ReadBool(c1);
    var (port, c3) :- ReadU16(c2);
    var (busId, c4) :- ReadShortText(c3);
    Ok((AttachResponse(id, attached, port, busId), c4))
  }

  function ReadDetach(c: seq<byte>): (r: Parsed<Message>)
    ensures Canonical(3, c, r)
  {
    var (id, rest) :- ReadU32(c);
    Ok((Detach(id), rest))
  }

  function ReadDeviceList(c: seq<byte>): Parsed<Message> {
    var (devices, rest) :- ReadList(c);
    Ok((DeviceList(devices), rest))
  }

  function ReadAttachRequest(c: seq<byte>): (r: Parsed<Message>)
    ensures Canonical(7, c, r)
  {
    var (p, rest) :- ReadDeviceAndToken(c);
    Ok((AttachRequest(p.0, p.1), rest))
  }

  function ReadSubmitUrb(c: seq<byte>): (r: Parsed<Message>)
    ensures Canonical(9, c, r)
  {
    var (u, rest) :- ReadSubmit(c);
    Ok((SubmitUrb(u), rest))
  }

  function ReadCompleteUrb(c: seq<byte>): (r: Parsed<Message>)
    ensures Canonical(10, c, r)
  {
    var (u, rest) :- ReadComplete(c);
    Ok((CompleteUrb(u), rest))
  }

  function ReadDeviceListRequest(c: seq<byte>): (r: Parsed<Message>)
    ensures Canonical(11, c, r)
  {
    var (token, rest) :- ReadBytes32(c);
    Ok((DeviceListRequest(token), rest))
  }

  function ReadDetachRequest(c: seq<byte>): (r: Parsed<Message>)
    ensures Canonical(12, c, r)
  {
    var (p, rest) :- ReadDeviceAndToken(c);
    Ok((DetachRequest(p.0, p.1), rest))
  }

  function ReadUnlink(c: seq<byte>): (r: Parsed<Message>)
    ensures Canonical(13, c, r)
  {
    var (s, c1) :- ReadU32(c);
    var (d, rest) :- ReadU32(c1);
    Ok((UnlinkUrb(s, d), rest))
  }

  function ReadUnlinked(c: seq<byte>): (r: Parsed<Message>)
    ensures Canonical(14, c, r)
  {
    var (s, c1) :- ReadU32(c);
    var (status, rest) :- ReadI32(c1);
    Ok((UrbUnlinked(s, status), rest))
  }

  /** One message body of the given type, and the bytes after it. */
  function ReadBody(ty: byte, c: seq<byte>): Parsed<Message> {
    match ty
    case 1 => ReadHello(c)
    case 2 => ReadError(c)
    case 3 => ReadDetach(c)
    case 4 => ReadDeviceList(c)
    case 5 => ReadPairRequest(c)
    case 6 => ReadPairResponse(c)
    case 7 => ReadAttachRequest(c)
    case 8 => ReadAttachResponse(c)
    case 9 => ReadSubmitUrb(c)
    case 10 => ReadCompleteUrb(c)
    case 11 => ReadDeviceListRequest(c)
    case 12 => ReadDetachRequest(c)
    case 13 => ReadUnlink(c)
    case 14 => ReadUnlinked(c)
    case _ => Err(UnknownType(ty))
  }

  function ParsePayload(ty: byte, payload: seq<byte>): Result<Message, ProtocolError> {
    var (m, rest) :- ReadBody(ty, payload);
    Finish(m, rest)
  }

  function Decode(b: seq<byte>): (r: Result<Message, ProtocolError>) {
    if |b| < HEADER_LEN then Err(Truncated)
    else if b[..4] != MAGIC then Err(BadMagic)
    else if b[4] != VERSION then Err(UnsupportedVersion(b[4]))
    else
      var len := U32Value(b[6..10]);
      if len > MAX_PAYLOAD then Err(PayloadTooLarge(len, MAX_PAYLOAD))
      else if |b| < HEADER_LEN + len then Err(Truncated)
      else if |b| != HEADER_LEN + len then Err(InvalidPayload)
      else ParsePayload(b[5], b[HEADER_LEN..])
  }

  // ---------------------------------------------------------------- what was written is read back

  lemma TakeBack(x: seq<byte>, rest: seq<byte>)
    ensures Take(x + rest, |x|) == Ok((x, rest))
  {
    assert (x + rest)[..|x|] == x && (x + rest)[|x|..] == rest;
  }

  lemma U8Back(x: byte, rest: seq<byte>)
    ensures ReadU8([x] + rest) == Ok((x, rest))
  {
    TakeBack([x], rest);
  }

  lemma U16Back(x: u16, rest: seq<byte>)
    ensures ReadU16(U16Bytes(x) + rest) == Ok((x, rest))
  {
    TakeBack(U16Bytes(x), rest);
  }

  lemma U32Back(x: u32, rest: seq<byte>)
    ensures ReadU32(U32Bytes(x) + rest) == Ok((x, rest))
  {
    TakeBack(U32Bytes(x), rest);
  }

  lemma I32Back(x: i32, rest: seq<byte>)
    ensures ReadI32(I32Bytes(x) + rest) == Ok((x, rest))
  {
    TakeBack(I32Bytes(x), rest);
  }

  lemma Bytes32Back(x: Bytes32, rest: seq<byte>)
    ensures ReadBytes32(x + rest) == Ok((x, rest))
  {
    TakeBack(x, rest);
  }

  lemma ShortBytesBack(s: seq<byte>, rest: seq<byte>)
    requires |s| <= 255
    ensures ReadShortBytes(ShortText(s, rest)) == Ok((s, rest))
  {
    U8Back(|s|, s + rest);
    TakeBack(s, rest);
  }

  lemma ShortTextBack(s: Utf8String, rest: seq<byte>)
    requires |s| <= 255
    ensures ReadShortText(ShortText(s, rest)) == Ok((s, rest))
  {
    ShortBytesBack(s, rest);
  }

  lemma InterfaceBack(i: UsbInterfaceInfo, rest: seq<byte>)
    requires InterfaceError(i).None?
    ensures ReadInterface(InterfaceBytes(i, rest)) == Ok((i, rest))
  {
    var c4 := ShortText(i.endpoints, rest);
    var c3 := [i.interfaceProtocol] + c4;
    var c2 := [i.interfaceSubclass] + c3;
    U8Back(i.interfaceNumber, [i.interfaceClass] + c2);
    U8Back(i.interfaceClass, c2);
    U8Back(i.interfaceSubclass, c3);
    U8Back(i.interfaceProtocol, c4);
    ShortBytesBack(i.endpoints, rest);
  }

  lemma InterfacesBack(list: seq<UsbInterfaceInfo>, rest: seq<byte>)
    requires InterfacesError(list).None?
    ensures ReadMany(ReadInterface, |list|, ManyBytes(InterfaceBytes, list, rest)) == Ok((list, rest))
  {
    forall i, r | InterfaceError(i).None? ensures ReadInterface(InterfaceBytes(i, r)) == Ok((i, r)) {
      InterfaceBack(i, r);
    }
    ManyBack(InterfaceError, InterfaceBytes, ReadInterface, list, rest);
  }

  lemma DescriptorBack(vid: u16, pid: u16, usbClass: byte, speed: UsbSpeed, rest: seq<byte>)
    ensures ReadDescriptor(DescriptorBytes(vid, pid, usbClass, speed, rest)) == Ok(((vid, pid, usbClass, speed), rest))
  {
    var c3 := [SpeedTag(speed)] + rest;
    var c2 := [usbClass] + c3;
    U16Back(vid, U16Bytes(pid) + c2);
    U16Back(pid, c2);
    U8Back(usbClass, c3);
    U8Back(SpeedTag(speed), rest);
  }

  lemma ExportBack(exported: bool, interfaces: seq<UsbInterfaceInfo>, rest: seq<byte>)
    requires |interfaces| <= 255 && InterfacesError(interfaces).None?
    ensures ReadExport(ExportBytes(exported, interfaces, rest)) == Ok(((exported, interfaces), rest))
  {
    var c2 := ManyBytes(InterfaceBytes, interfaces, rest);
    U8Back(BoolTag(exported), [|interfaces|] + c2);
    U8Back(|interfaces|, c2);
    InterfacesBack(interfaces, rest);
  }

  lemma DeviceBack(d: DeviceInfo, rest: seq<byte>)
    requires DeviceError(d).None?
    ensures ReadDevice(DeviceBytes(d, rest)) == Ok((d, rest))
  {
    var c4 := ExportBytes(d.exported, d.interfaces, rest);
    var c3 := ShortText(d.product, c4);
    var c2 := DescriptorBytes(d.vid, d.pid, d.usbClass, d.speed, c3);
    U32Back(d.id, ShortText(d.busId, c2));
    ShortTextBack(d.busId, c2);
    DescriptorBack(d.vid, d.pid, d.usbClass, d.speed, c3);
    ShortTextBack(d.product, c4);
    ExportBack(d.exported, d.interfaces, rest);
  }

  lemma SubmitBack(u: UrbSubmit)
    requires UrbDataError(u.data).None?
    ensures ReadSubmit(SubmitBytes(u)) == Ok((u, []))
  {
    var c6 := u.data + [];
    var c5 := U32Bytes(|u.data|) + c6;
    var c4 := U32Bytes(u.requestedLength) + c5;
    var c3 := [TransferTag(u.transfer)] + c4;
    var c2 := [u.endpoint] + c3;
    var c1 := U32Bytes(u.deviceId) + c2;
    U32Back(u.seqNum, c1);
    U32Back(u.deviceId, c2);
    U8Back(u.endpoint, c3);
    U8Back(TransferTag(u.transfer), c4);
    U32Back(u.requestedLength, c5);
    U32Back(|u.data|, c6);
    TakeBack(u.data, []);
  }

  lemma CompleteBack(c: UrbComplete)
    requires UrbDataError(c.data).None?
    ensures ReadComplete(CompleteBytes(c)) == Ok((c, []))
  {
    var c3 := c.data + [];
    var c2 := U32Bytes(|c.data|) + c3;
    var c1 := I32Bytes(c.status) + c2;
    U32Back(c.seqNum, c1);
    I32Back(c.status, c2);
    U32Back(|c.data|, c3);
    TakeBack(c.data, []);
  }

  lemma DeviceAndTokenBack(id: DeviceId, token: Bytes32)
    ensures ReadDeviceAndToken(U32Bytes(id) + (token + [])) == Ok(((id, token), []))
  {
    U32Back(id, token + []);
    Bytes32Back(token, []);
  }

  lemma HelloBack(m: Message)
    requires m.Hello? && FieldError(m).None?
    ensures ReadBody(1, PayloadBytes(m)) == Ok((m, []))
  {
    var c3 := ShortText(m.hostname, []);
    var c2 := m.fingerprint + c3;
    U8Back(m.protocolMin, [m.protocolMax] + c2);
    U8Back(m.protocolMax, c2);
    Bytes32Back(m.fingerprint, c3);
    ShortTextBack(m.hostname, []);
  }

  lemma ErrorBack(m: Message)
    requires m.Error? && FieldError(m).None?
    ensures ReadBody(2, PayloadBytes(m)) == Ok((m, []))
  {
    U16Back(CodeTag(m.code), U16Bytes(|m.detail|) + (m.detail + []));
    U16Back(|m.detail|, m.detail + []);
    TakeBack(m.detail, []);
  }

  lemma PairRequestBack(m: Message)
    requires m.PairRequest? && FieldError(m).None?
    ensures ReadBody(5, PayloadBytes(m)) == Ok((m, []))
  {
    Bytes32Back(m.clientFingerprint, m.pinHash + ShortText(m.clientName, []));
    Bytes32Back(m.pinHash, ShortText(m.clientName, []));
    ShortTextBack(m.clientName, []);
  }

  lemma PairResponseBack(m: Message)
    requires m.PairResponse?
    ensures ReadBody(6, PayloadBytes(m)) == Ok((m, []))
  {
    U8Back(BoolTag(m.paired), m.serverFingerprint + (m.authToken + []));
    Bytes32Back(m.serverFingerprint, m.authToken + []);
    Bytes32Back(m.authToken, []);
  }

  lemma AttachResponseBack(m: Message)
    requires m.AttachResponse? && FieldError(m).None?
    ensures ReadBody(8, PayloadBytes(m)) == Ok((m, []))
  {
    var c3 := ShortText(m.busId, []);
    var c2 := U16Bytes(m.usbipPort) + c3;
    U32Back(m.attachedId, [BoolTag(m.attached)] + c2);
    U8Back(BoolTag(m.attached), c2);
    U16Back(m.usbipPort, c3);
    ShortTextBack(m.busId, []);
  }

  lemma ListBack(list: seq<DeviceInfo>)
    requires ListError(list).None?
    ensures ReadList(ListBytes(list)) == Ok((list, []))
  {
    U16Back(|list|, ManyBytes(DeviceBytes, list, []));
    forall d, r | DeviceError(d).None? ensures ReadDevice(DeviceBytes(d, r)) == Ok((d, r)) {
      DeviceBack(d, r);
    }
    ManyBack(DeviceError, DeviceBytes, ReadDevice, list, []);
  }

  lemma ListPayload(devices: seq<DeviceInfo>)
    ensures PayloadBytes(DeviceList(devices)) == ListBytes(devices)
  {
  }

  lemma DeviceListFrom(c: seq<byte>, devices: seq<DeviceInfo>)
    requires ReadList(c) == Ok((devices, []))
    ensures ReadBody(4, c) == Ok((DeviceList(devices), []))
  {
  }

  lemma DeviceListBackFrom(devices: seq<DeviceInfo>)
    requires ReadList(ListBytes(devices)) == Ok((devices, []))
    ensures ReadBody(4, PayloadBytes(DeviceList(devices))) == Ok((DeviceList(devices), []))
  {
    ListPayload(devices);
    DeviceListFrom(ListBytes(devices), devices);
  }

  lemma DeviceListBack(devices: seq<DeviceInfo>)
    requires ListError(devices).None?
    ensures ReadBody(4, PayloadBytes(DeviceList(devices))) == Ok((DeviceList(devices), []))
  {
    ListBack(devices);
    DeviceListBackFrom(devices);
  }

  lemma SubmitUrbFrom(c: seq<byte>, u: UrbSubmit)
    requires ReadSubmit(c) == Ok((u, []))
    ensures ReadBody(9, c) == Ok((SubmitUrb(u), []))
  {
  }

  lemma SubmitUrbBack(u: UrbSubmit)
    requires UrbDataError(u.data).None?
    ensures ReadBody(9, PayloadBytes(SubmitUrb(u))) == Ok((SubmitUrb(u), []))
  {
    SubmitBack(u);
    SubmitUrbFrom(SubmitBytes(u), u);
  }

  lemma CompleteUrbBack(c: UrbComplete)
    requires UrbDataError(c.data).None?
    ensures ReadBody(10, PayloadBytes(CompleteUrb(c))) == Ok((CompleteUrb(c), []))
  {
    CompleteBack(c);
  }

  lemma DetachBack(id: DeviceId)
    ensures ReadBody(3, PayloadBytes(Detach(id))) == Ok((Detach(id), []))
  {
    U32Back(id, []);
  }

  lemma TokenBack(id: DeviceId, token: Bytes32)
    ensures ReadBody(12, PayloadBytes(DetachRequest(id, token))) == Ok((DetachRequest(id, token), []))
    ensures ReadBody(7, PayloadBytes(AttachRequest(id, token))) == Ok((AttachRequest(id, token), []))
    ensures ReadBody(11, PayloadBytes(DeviceListRequest(token))) == Ok((DeviceListRequest(token), []))
  {
    DeviceAndTokenBack(id, token);
    Bytes32Back(token, []);
  }

  lemma UnlinkBack(s: u32, d: DeviceId)
    ensures ReadBody(13, PayloadBytes(UnlinkUrb(s, d))) == Ok((UnlinkUrb(s, d), []))
  {
    U32Back(s, U32Bytes(d) + []);
    U32Back(d, []);
  }

  lemma UnlinkedBack(s: u32, status: i32)
    ensures ReadBody(14, PayloadBytes(UrbUnlinked(s, status))) == Ok((UrbUnlinked(s, status), []))
  {
    U32Back(s, I32Bytes(status) + []);
    I32Back(status, []);
  }

  /** Every payload the encoder can write is read back, with nothing left over. */
  lemma BodyBack(m: Message)
    requires FieldError(m).None?
    ensures ReadBody(TypeTag(m), PayloadBytes(m)) == Ok((m, []))
  {
    match m
    case Hello(_, _, _, _) => HelloBack(m);
    case Error(_, _) => ErrorBack(m);
    case Detach(id) => DetachBack(id);
    case DetachRequest(id, token) => TokenBack(id, token);
    case DeviceListRequest(token) => TokenBack(0, token);
    case DeviceList(devices) => DeviceListBack(devices);
    case PairRequest(_, _, _) => PairRequestBack(m);
    case PairResponse(_, _, _) => PairResponseBack(m);
    case AttachRequest(id, token) => TokenBack(id, token);
    case AttachResponse(_, _, _, _) => AttachResponseBack(m);
    case SubmitUrb(urb) => SubmitUrbBack(urb);
    case CompleteUrb(complete) => CompleteUrbBack(complete);
    case UnlinkUrb(s, d) => UnlinkBack(s, d);
    case UrbUnlinked(s, status) => UnlinkedBack(s, status);
  }

  // ---------------------------------------------------------------- what is read was written that way

  lemma InterfaceCanonical(c: seq<byte>)
    requires ReadInterface(c).Ok?
    ensures var (i, rest) := ReadInterface(c).value;
            InterfaceError(i).None? && c == InterfaceBytes(i, rest)
  {
  }

  lemma InterfacesCanonical(count: nat, c: seq<byte>)
    requires ReadMany(ReadInterface, count, c).Ok?
    ensures var (list, rest) := ReadMany(ReadInterface, count, c).value;
            InterfacesError(list).None? && c == ManyBytes(InterfaceBytes, list, rest)
  {
    forall b | ReadInterface(b).Ok?
      ensures InterfaceError(ReadInterface(b).value.0).None? &&
              b == InterfaceBytes(ReadInterface(b).value.0, ReadInterface(b).value.1)
    {
      InterfaceCanonical(b);
    }
    ManyCanonical(InterfaceError, InterfaceBytes, ReadInterface, count, c);
  }

  lemma DescriptorCanonical(c: seq<byte>)
    requires ReadDescriptor(c).Ok?
    ensures var (d, rest) := ReadDescriptor(c).value; c == DescriptorBytes(d.0, d.1, d.2, d.3, rest)
  {
  }

  lemma ExportCanonical(c: seq<byte>)
    requires ReadExport(c).Ok?
    ensures var (e, rest) := ReadExport(c).value;
            |e.1| <= 255 && InterfacesError(e.1).None? && c == ExportBytes(e.0, e.1, rest)
  {
    var (_, c1) := ReadBool(c).value;
    var (count, c2) := ReadU8(c1).value;
    InterfacesCanonical(count, c2);
  }

  lemma DeviceCanonical(c: seq<byte>)
    requires ReadDevice(c).Ok?
    ensures var (d, rest) := ReadDevice(c).value;
            DeviceError(d).None? && c == DeviceBytes(d, rest)
  {
    var (_, c1) := ReadU32(c).value;
    var (_, c2) := ReadShortText(c1).value;
    DescriptorCanonical(c2);
    var (_, c3) := ReadDescriptor(c2).value;
    var (_, c4) := ReadShortText(c3).value;
    ExportCanonical(c4);
  }

  lemma DevicesCanonical(count: nat, c: seq<byte>)
    requires ReadMany(ReadDevice, count, c).Ok?
    ensures var (list, rest) := ReadMany(ReadDevice, count, c).value;
            FirstError(DeviceError, list).None? && c == ManyBytes(DeviceBytes, list, rest)
  {
    forall b | ReadDevice(b).Ok?
      ensures DeviceError(ReadDevice(b).value.0).None? &&
              b == DeviceBytes(ReadDevice(b).value.0, ReadDevice(b).value.1)
    {
      DeviceCanonical(b);
    }
    ManyCanonical(DeviceError, DeviceBytes, ReadDevice, count, c);
  }

  lemma ListCanonical(c: seq<byte>)
    requires ReadList(c).Ok? && ReadList(c).value.1 == []
    ensures var list := ReadList(c).value.0; ListError(list).None? && c == ListBytes(list)
  {
    var (count, c1) := ReadU16(c).value;
    DevicesCanonical(count, c1);
  }

  lemma DeviceListCanonical(c: seq<byte>, devices: seq<DeviceInfo>, r: Parsed<Message>)
    requires r == Ok((DeviceList(devices), []))
    requires ListError(devices).None? && c == ListBytes(devices)
    ensures Canonical(4, c, r)
  {
    ListPayload(devices);
  }

  lemma ListBodyCanonical(c: seq<byte>)
    ensures Canonical(4, c, ReadBody(4, c))
  {
    if ReadList(c).Ok? && ReadList(c).value.1 == [] {
      var devices := ReadList(c).value.0;
      ListCanonical(c);
      DeviceListFrom(c, devices);
      DeviceListCanonical(c, devices, ReadBody(4, c));
    }
  }

  /** A body that parses to its end is the payload of the message it parsed to. */
  lemma BodyCanonical(ty: byte, c: seq<byte>)
    ensures Canonical(ty, c, ReadBody(ty, c))
  {
    if ty == 4 {
      ListBodyCanonical(c);
    }
  }

  // ---------------------------------------------------------------- the bijection

  /** decode(encode(m)) == m for every message kind. */
  lemma DecodeEncode(m: Message)
    ensures Encode(m).Ok? ==> Decode(Encode(m).value) == Ok(m)
  {
    if Encode(m).Err? {
      return;
    }
    var payload := PayloadBytes(m);
    var h := Header(TypeTag(m), |payload|);
    var b := h + payload;
    assert b[..4] == h[..4] && b[6..10] == h[6..10] && b[HEADER_LEN..] == payload;
    BodyBack(m);
  }

  /** encode(decode(b)) == b: no two byte strings decode to the same message. */
  lemma EncodeDecode(b: seq<byte>)
    ensures Decode(b).Ok? ==> Encode(Decode(b).value) == Ok(b)
  {
    if Decode(b).Err? {
      return;
    }
    var payload := b[HEADER_LEN..];
    BodyCanonical(b[5], payload);
    U32BytesOfValue(b[6..10]);
    assert b == b[..4] + [b[4], b[5]] + b[6..10] + payload;
  }
}
