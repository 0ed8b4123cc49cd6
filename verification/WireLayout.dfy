/**
 The bytes of the wire format, position by position, and exactly what is refused: the layout of
 crates/farbus-protocol/src/lib.rs stated without its encoder and decoder.
 */
module WireLayout {
  import opened Results
  import opened Bytes
  import opened Messages
  import opened Codec

  // ---------------------------------------------------------------- numbers

  /** Numbers are big-endian, signed ones in two's complement. */
  lemma BigEndian(b: seq<byte>)
    requires |b| == 4
    ensures U16Value(b[..2]) == 256 * (b[0] as int) + b[1] as int
    ensures U32Value(b) == 16_777_216 * (b[0] as int) + 65_536 * (b[1] as int) + 256 * (b[2] as int) + b[3] as int
    ensures I32Value(b) == U32Value(b) - if b[0] >= 128 then 4_294_967_296 else 0
  {
  }

  // ---------------------------------------------------------------- messages

  /** The sixth byte of a frame. */
  ghost predicate HasTypeCode(m: Message, ty: byte) {
    match m
    case Hello(_, _, _, _) => ty == 0x01
    case Error(_, _) => ty == 0x02
    case Detach(_) => ty == 0x03
    case DeviceList(_) => ty == 0x04
    case PairRequest(_, _, _) => ty == 0x05
    case PairResponse(_, _, _) => ty == 0x06
    case AttachRequest(_, _) => ty == 0x07
    case AttachResponse(_, _, _, _) => ty == 0x08
    case SubmitUrb(_) => ty == 0x09
    case CompleteUrb(_) => ty == 0x0a
    case DeviceListRequest(_) => ty == 0x0b
    case DetachRequest(_, _) => ty == 0x0c
    case UnlinkUrb(_, _) => ty == 0x0d
    case UrbUnlinked(_, _) => ty == 0x0e
  }

  ghost predicate IsU16(b: seq<byte>, i: nat, x: int) {
    i + 2 <= |b| && U16Value(b[i..i + 2]) == x
  }

  ghost predicate IsU32(b: seq<byte>, i: nat, x: int) {
    i + 4 <= |b| && U32Value(b[i..i + 4]) == x
  }

  ghost predicate IsI32(b: seq<byte>, i: nat, x: int) {
    i + 4 <= |b| && I32Value(b[i..i + 4]) == x
  }

  /** The byte at `i`. */
  ghost predicate IsU8(b: seq<byte>, i: nat, x: int) {
    i < |b| && b[i] == x
  }

  /** The bytes from `i` on begin with `s`. */
  ghost predicate IsAt(b: seq<byte>, i: nat, s: seq<byte>) {
    i + |s| <= |b| && b[i..i + |s|] == s
  }

  ghost predicate IsFlag(b: seq<byte>, i: nat, flag: bool) {
    IsU8(b, i, if flag then 1 else 0)
  }

  ghost predicate HasErrorCode(b: seq<byte>, i: nat, code: ErrorCode) {
    match code
    case Unauthorized => IsU16(b, i, 1)
    case NotFound => IsU16(b, i, 2)
    case Conflict => IsU16(b, i, 3)
    case Unsupported => IsU16(b, i, 4)
  }

  ghost predicate HasTransfer(b: seq<byte>, i: nat, t: TransferType) {
    match t
    case Control => IsU8(b, i, 1)
    case Interrupt => IsU8(b, i, 2)
    case Bulk => IsU8(b, i, 3)
    case Isochronous => IsU8(b, i, 4)
  }

  ghost predicate HasSpeed(b: seq<byte>, i: nat, speed: UsbSpeed) {
    match speed
    case Low => IsU8(b, i, 1)
    case Full => IsU8(b, i, 2)
    case High => IsU8(b, i, 3)
    case Super => IsU8(b, i, 4)
  }

  /** One interface of a device record, at `i`. */
  ghost predicate LaidInterface(b: seq<byte>, i: nat, f: UsbInterfaceInfo) {
    && IsU8(b, i, f.interfaceNumber) && IsU8(b, i + 1, f.interfaceClass) && IsU8(b, i + 2, f.interfaceSubclass)
    && IsU8(b, i + 3, f.interfaceProtocol) && IsU8(b, i + 4, |f.endpoints|) && IsAt(b, i + 5, f.endpoints)
  }

  function InterfaceSize(f: UsbInterfaceInfo): nat {
    5 + |f.endpoints|
  }

  function InterfacesSize(list: seq<UsbInterfaceInfo>): nat {
    if list == [] then 0 else InterfaceSize(list[0]) + InterfacesSize(list[1..])
  }

  /** Interfaces one after the other from `i` on. */
  ghost predicate LaidInterfaces(b: seq<byte>, i: nat, list: seq<UsbInterfaceInfo>)
    decreases |list|
  {
    list == [] || (LaidInterface(b, i, list[0]) && LaidInterfaces(b, i + InterfaceSize(list[0]), list[1..]))
  }

  function DeviceSize(d: DeviceInfo): nat {
    14 + |d.busId| + |d.product| + InterfacesSize(d.interfaces)
  }

  function DevicesSize(list: seq<DeviceInfo>): nat {
    if list == [] then 0 else DeviceSize(list[0]) + DevicesSize(list[1..])
  }

  /** One device record, at `i`: id, bus id, vendor, product, class, speed, name, export flag, interfaces. */
  ghost predicate LaidDevice(b: seq<byte>, i: nat, d: DeviceInfo) {
    var k := i + |d.busId|;
    var p := k + |d.product|;
    && IsU32(b, i, d.id) && IsU8(b, i + 4, |d.busId|) && IsAt(b, i + 5, d.busId)
    && IsU16(b, k + 5, d.vid) && IsU16(b, k + 7, d.pid) && IsU8(b, k + 9, d.usbClass) && HasSpeed(b, k + 10, d.speed)
    && IsU8(b, k + 11, |d.product|) && IsAt(b, k + 12, d.product)
    && IsFlag(b, p + 12, d.exported) && IsU8(b, p + 13, |d.interfaces|) && LaidInterfaces(b, p + 14, d.interfaces)
  }

  /** Records one after the other from `i` on. */
  ghost predicate LaidDevices(b: seq<byte>, i: nat, list: seq<DeviceInfo>)
    decreases |list|
  {
    list == [] || (LaidDevice(b, i, list[0]) && LaidDevices(b, i + DeviceSize(list[0]), list[1..]))
  }

  /** The payload of a message: every field at its place, and no byte more. */
  ghost predicate Laid(m: Message, b: seq<byte>) {
    match m
    case Hello(min, max, fingerprint, hostname) =>
      && |b| == 35 + |hostname|
      && IsU8(b, 0, min) && IsU8(b, 1, max) && IsAt(b, 2, fingerprint) && IsU8(b, 34, |hostname|) && IsAt(b, 35, hostname)
    case Error(code, detail) =>
      |b| == 4 + |detail| && HasErrorCode(b, 0, code) && IsU16(b, 2, |detail|) && IsAt(b, 4, detail)
    case Detach(id) => |b| == 4 && IsU32(b, 0, id)
    case DetachRequest(id, token) => |b| == 36 && IsU32(b, 0, id) && IsAt(b, 4, token)
    case DeviceListRequest(token) => b == token
    case DeviceList(devices) => |b| == 2 + DevicesSize(devices) && IsU16(b, 0, |devices|) && LaidDevices(b, 2, devices)
    case PairRequest(fingerprint, pinHash, name) =>
      && |b| == 65 + |name|
      && IsAt(b, 0, fingerprint) && IsAt(b, 32, pinHash) && IsU8(b, 64, |name|) && IsAt(b, 65, name)
    case PairResponse(paired, fingerprint, token) =>
      |b| == 65 && IsFlag(b, 0, paired) && IsAt(b, 1, fingerprint) && IsAt(b, 33, token)
    case AttachRequest(id, token) => |b| == 36 && IsU32(b, 0, id) && IsAt(b, 4, token)
    case AttachResponse(id, attached, port, busId) =>
      && |b| == 8 + |busId|
      && IsU32(b, 0, id) && IsFlag(b, 4, attached) && IsU16(b, 5, port) && IsU8(b, 7, |busId|) && IsAt(b, 8, busId)
    case SubmitUrb(u) =>
      && |b| == 18 + |u.data|
      && IsU32(b, 0, u.seqNum) && IsU32(b, 4, u.deviceId) && IsU8(b, 8, u.endpoint) && HasTransfer(b, 9, u.transfer)
      && IsU32(b, 10, u.requestedLength) && IsU32(b, 14, |u.data|) && IsAt(b, 18, u.data)
    case CompleteUrb(c) =>
      && |b| == 12 + |c.data|
      && IsU32(b, 0, c.seqNum) && IsI32(b, 4, c.status) && IsU32(b, 8, |c.data|) && IsAt(b, 12, c.data)
    case UnlinkUrb(seqNum, id) => |b| == 8 && IsU32(b, 0, seqNum) && IsU32(b, 4, id)
    case UrbUnlinked(seqNum, status) => |b| == 8 && IsU32(b, 0, seqNum) && IsI32(b, 4, status)
  }

  // ---------------------------------------------------------------- what the encoder lays out

  /** The bytes of a list item start a longer string; what follows it does not matter. */
  lemma InterfaceParts(f: UsbInterfaceInfo, rest: seq<byte>)
    requires |f.endpoints| <= 255
    ensures InterfaceBytes(f, rest) ==
            [f.interfaceNumber, f.interfaceClass, f.interfaceSubclass, f.interfaceProtocol, |f.endpoints|] + f.endpoints + rest
  {
  }

  lemma InterfaceLaid(b: seq<byte>, i: nat, head: seq<byte>, f: UsbInterfaceInfo, rest: seq<byte>)
    requires |f.endpoints| <= 255 && b == head + InterfaceBytes(f, rest) && i == |head|
    ensures LaidInterface(b, i, f)
  {
    InterfaceParts(f, rest);
    assert b[i + 5..i + 5 + |f.endpoints|] == f.endpoints;
  }

  lemma InterfacesStep(b: seq<byte>, i: nat, next: nat, list: seq<UsbInterfaceInfo>, n: nat)
    requires list != [] && next == i + InterfaceSize(list[0])
    requires LaidInterface(b, i, list[0]) && LaidInterfaces(b, next, list[1..]) && |b| == next + InterfacesSize(list[1..]) + n
    ensures LaidInterfaces(b, i, list) && |b| == i + InterfacesSize(list) + n
  {
  }

  lemma {:induction false} InterfacesLaid(b: seq<byte>, head: seq<byte>, list: seq<UsbInterfaceInfo>, rest: seq<byte>, i: nat)
    requires InterfacesError(list).None? && b == head + ManyBytes(InterfaceBytes, list, rest) && i == |head|
    ensures LaidInterfaces(b, i, list) && |b| == i + InterfacesSize(list) + |rest|
    decreases |list|
  {
    if list != [] {
      var f, tail := list[0], ManyBytes(InterfaceBytes, list[1..], rest);
      var front := [f.interfaceNumber, f.interfaceClass, f.interfaceSubclass, f.interfaceProtocol, Length8(|f.endpoints|)] + f.endpoints;
      InterfaceParts(f, tail);
      InterfaceLaid(b, i, head, f, tail);
      assert b == head + front + tail;
      var next := i + InterfaceSize(f);
      InterfacesLaid(b, head + front, list[1..], rest, next);
      InterfacesStep(b, i, next, list, |rest|);
    }
  }

  /** The three pieces of a device record before its interfaces. */
  function Name(d: DeviceInfo): (b: seq<byte>)
    ensures |b| == 5 + |d.busId|
  {
    U32Bytes(d.id) + [Length8(|d.busId|)] + d.busId
  }

  function Kind(d: DeviceInfo): (b: seq<byte>)
    ensures |b| == 7
  {
    U16Bytes(d.vid) + U16Bytes(d.pid) + [d.usbClass, SpeedTag(d.speed), Length8(|d.product|)]
  }

  function Label(d: DeviceInfo): (b: seq<byte>)
    ensures |b| == 2 + |d.product|
  {
    d.product + [BoolTag(d.exported), Length8(|d.interfaces|)]
  }

  function DeviceFront(d: DeviceInfo): (b: seq<byte>)
    ensures |b| == 14 + |d.busId| + |d.product|
  {
    Name(d) + Kind(d) + Label(d)
  }

  lemma LabelParts(d: DeviceInfo, rest: seq<byte>)
    ensures ShortText(d.product, ExportBytes(d.exported, d.interfaces, rest)) ==
            [Length8(|d.product|)] + (Label(d) + ManyBytes(InterfaceBytes, d.interfaces, rest))
  {
  }

  lemma KindParts(d: DeviceInfo, rest: seq<byte>)
    ensures DescriptorBytes(d.vid, d.pid, d.usbClass, d.speed, [Length8(|d.product|)] + rest) == Kind(d) + rest
  {
  }

  lemma NameParts(d: DeviceInfo, rest: seq<byte>)
    ensures U32Bytes(d.id) + ShortText(d.busId, rest) == Name(d) + rest
  {
  }

  lemma DeviceParts(d: DeviceInfo, rest: seq<byte>)
    ensures DeviceBytes(d, rest) == DeviceFront(d) + ManyBytes(InterfaceBytes, d.interfaces, rest)
  {
    var tail := ManyBytes(InterfaceBytes, d.interfaces, rest);
    LabelParts(d, rest);
    KindParts(d, Label(d) + tail);
    NameParts(d, Kind(d) + (Label(d) + tail));
    ThreePieces(Name(d), Kind(d), Label(d), tail);
  }

  lemma ThreePieces(x: seq<byte>, y: seq<byte>, z: seq<byte>, rest: seq<byte>)
    ensures x + (y + (z + rest)) == x + y + z + rest
  {
  }

  lemma NameLaid(b: seq<byte>, i: nat, head: seq<byte>, d: DeviceInfo, rest: seq<byte>)
    requires b == head + Name(d) + rest && i == |head|
    requires |d.busId| <= 255
    ensures IsU32(b, i, d.id) && IsU8(b, i + 4, |d.busId|) && IsAt(b, i + 5, d.busId)
  {
    assert b[i..i + 4] == U32Bytes(d.id) && b[i + 5..i + 5 + |d.busId|] == d.busId;
  }

  lemma KindLaid(b: seq<byte>, k: nat, head: seq<byte>, d: DeviceInfo, rest: seq<byte>)
    requires b == head + Kind(d) + rest && |head| == k + 5 && |d.product| <= 255
    ensures IsU16(b, k + 5, d.vid) && IsU16(b, k + 7, d.pid) && IsU8(b, k + 9, d.usbClass)
    ensures HasSpeed(b, k + 10, d.speed) && IsU8(b, k + 11, |d.product|)
  {
    assert b[k + 5..k + 7] == U16Bytes(d.vid) && b[k + 7..k + 9] == U16Bytes(d.pid);
    assert b[k + 10] == SpeedTag(d.speed);
  }

  lemma LabelLaid(b: seq<byte>, k: nat, p: nat, head: seq<byte>, d: DeviceInfo, rest: seq<byte>)
    requires b == head + Label(d) + rest && |head| == k + 12 && p == k + |d.product| && |d.interfaces| <= 255
    ensures IsAt(b, k + 12, d.product) && IsFlag(b, p + 12, d.exported) && IsU8(b, p + 13, |d.interfaces|)
  {
    assert b[k + 12..k + 12 + |d.product|] == d.product;
  }

  lemma Regroup(b: seq<byte>, head: seq<byte>, x: seq<byte>, y: seq<byte>, z: seq<byte>, rest: seq<byte>)
    requires b == head + (x + y + z) + rest
    ensures b == head + x + (y + z + rest) && b == (head + x) + y + (z + rest) && b == (head + x + y) + z + rest
  {
  }

  /** The fields of a record whose three pieces start after `h1`, `h2` and `h3`. */
  lemma FrontLaid(b: seq<byte>, d: DeviceInfo, h1: seq<byte>, h2: seq<byte>, h3: seq<byte>, r1: seq<byte>, r2: seq<byte>,
                  r3: seq<byte>, i: nat, k: nat, p: nat)
    requires |d.busId| <= 255 && |d.product| <= 255 && |d.interfaces| <= 255
    requires b == h1 + Name(d) + r1 && b == h2 + Kind(d) + r2 && b == h3 + Label(d) + r3
    requires |h1| == i && |h2| == k + 5 && |h3| == k + 12 && k == i + |d.busId| && p == k + |d.product|
    requires LaidInterfaces(b, p + 14, d.interfaces)
    ensures LaidDevice(b, i, d)
  {
    NameLaid(b, i, h1, d, r1);
    KindLaid(b, k, h2, d, r2);
    LabelLaid(b, k, p, h3, d, r3);
    FieldsLaid(b, i, k, p, d);
  }

  lemma DeviceLaid(b: seq<byte>, head: seq<byte>, d: DeviceInfo, rest: seq<byte>, i: nat)
    requires DeviceError(d).None? && b == head + DeviceBytes(d, rest) && i == |head|
    ensures LaidDevice(b, i, d)
  {
    var front, tail := DeviceFront(d), ManyBytes(InterfaceBytes, d.interfaces, rest);
    DeviceParts(d, rest);
    assert b == head + front + tail;
    InterfacesLaid(b, head + front, d.interfaces, rest, |head + front|);
    PiecesLaid(b, head, d, Name(d), Kind(d), Label(d), tail, i);
  }

  lemma PiecesLaid(b: seq<byte>, head: seq<byte>, d: DeviceInfo, x: seq<byte>, y: seq<byte>, z: seq<byte>, tail: seq<byte>, i: nat)
    requires |d.busId| <= 255 && |d.product| <= 255 && |d.interfaces| <= 255
    requires b == head + (x + y + z) + tail && i == |head| && x == Name(d) && y == Kind(d) && z == Label(d)
    requires LaidInterfaces(b, |head + (x + y + z)|, d.interfaces)
    ensures LaidDevice(b, i, d)
  {
    var k, p := i + |d.busId|, i + |d.busId| + |d.product|;
    var h2, h3, r1, r2 := head + x, head + x + y, y + z + tail, z + tail;
    Regroup(b, head, x, y, z, tail);
    assert |h2| == k + 5 && |h3| == k + 12 && |head + (x + y + z)| == p + 14;
    FrontLaid(b, d, head, h2, h3, r1, r2, tail, i, k, p);
  }

  lemma FieldsLaid(b: seq<byte>, i: nat, k: nat, p: nat, d: DeviceInfo)
    requires k == i + |d.busId| && p == k + |d.product|
    requires IsU32(b, i, d.id) && IsU8(b, i + 4, |d.busId|) && IsAt(b, i + 5, d.busId)
    requires IsU16(b, k + 5, d.vid) && IsU16(b, k + 7, d.pid) && IsU8(b, k + 9, d.usbClass) && HasSpeed(b, k + 10, d.speed)
    requires IsU8(b, k + 11, |d.product|) && IsAt(b, k + 12, d.product)
    requires IsFlag(b, p + 12, d.exported) && IsU8(b, p + 13, |d.interfaces|) && LaidInterfaces(b, p + 14, d.interfaces)
    ensures LaidDevice(b, i, d)
  {
  }

  lemma {:induction false} DevicesLaid(b: seq<byte>, head: seq<byte>, list: seq<DeviceInfo>, i: nat)
    requires FirstError(DeviceError, list).None? && b == head + ManyBytes(DeviceBytes, list, []) && i == |head|
    ensures LaidDevices(b, i, list) && |b| == i + DevicesSize(list)
    decreases |list|
  {
    if list != [] {
      var d, tail := list[0], ManyBytes(DeviceBytes, list[1..], []);
      RecordPrefix(d, tail);
      RecordLength(d);
      DeviceLaid(b, head, d, tail, i);
      Associates(head, RecordBytes(d), tail);
      var next := i + DeviceSize(d);
      DevicesLaid(b, head + RecordBytes(d), list[1..], next);
      DevicesStep(b, i, next, list);
    }
  }

  lemma DevicesStep(b: seq<byte>, i: nat, next: nat, list: seq<DeviceInfo>)
    requires list != [] && next == i + DeviceSize(list[0])
    requires LaidDevice(b, i, list[0]) && LaidDevices(b, next, list[1..]) && |b| == next + DevicesSize(list[1..])
    ensures LaidDevices(b, i, list) && |b| == i + DevicesSize(list)
  {
  }

  /** A device record by itself. */
  function RecordBytes(d: DeviceInfo): seq<byte> {
    DeviceFront(d) + ManyBytes(InterfaceBytes, d.interfaces, [])
  }

  lemma Associates(a: seq<byte>, b: seq<byte>, c: seq<byte>)
    ensures a + (b + c) == a + b + c
  {
  }

  lemma RecordLength(d: DeviceInfo)
    requires DeviceError(d).None?
    ensures |RecordBytes(d)| == DeviceSize(d)
  {
    var interfaces := ManyBytes(InterfaceBytes, d.interfaces, []);
    assert [] + interfaces == interfaces;
    InterfacesLaid(interfaces, [], d.interfaces, [], 0);
  }

  /** A record is laid out the same whatever follows it. */
  lemma RecordPrefix(d: DeviceInfo, rest: seq<byte>)
    ensures DeviceBytes(d, rest) == RecordBytes(d) + rest
  {
    DeviceParts(d, rest);
    InterfacesPrefix(d.interfaces, rest);
    Associates(DeviceFront(d), ManyBytes(InterfaceBytes, d.interfaces, []), rest);
  }

  lemma {:induction false} InterfacesPrefix(list: seq<UsbInterfaceInfo>, rest: seq<byte>)
    ensures ManyBytes(InterfaceBytes, list, rest) == ManyBytes(InterfaceBytes, list, []) + rest
    decreases |list|
  {
    if list == [] {
      assert [] + rest == rest;
    } else {
      InterfacesPrefix(list[1..], rest);
    }
  }

  lemma SubmitLaid(u: UrbSubmit, b: seq<byte>)
    requires |u.data| <= MAX_U32 && b == SubmitBytes(u)
    ensures Laid(SubmitUrb(u), b)
  {
    var s, d, r, n := U32Bytes(u.seqNum), U32Bytes(u.deviceId), U32Bytes(u.requestedLength), U32Bytes(|u.data|);
    var e := [u.endpoint, TransferTag(u.transfer)];
    SixPieces(s, d, e, r, n, u.data, b);
  }

  lemma Between(head: seq<byte>, part: seq<byte>, rest: seq<byte>, i: nat, j: nat)
    requires |head| == i && |part| == j - i
    ensures (head + part + rest)[i..j] == part
  {
  }

  lemma SixPieces(s: seq<byte>, d: seq<byte>, e: seq<byte>, r: seq<byte>, n: seq<byte>, x: seq<byte>, b: seq<byte>)
    requires |s| == 4 && |d| == 4 && |e| == 2 && |r| == 4 && |n| == 4
    requires b == s + (d + ([e[0]] + ([e[1]] + (r + (n + (x + []))))))
    ensures |b| == 18 + |x| && b[0..4] == s && b[4..8] == d && b[8] == e[0] && b[9] == e[1]
    ensures b[10..14] == r && b[14..18] == n && b[18..18 + |x|] == x
  {
    assert b == s + d + (e + r + n + x);
    Between(s, d, e + r + n + x, 4, 8);
    assert b == (s + d) + e + (r + n + x);
    Between(s + d, e, r + n + x, 8, 10);
    assert b[8..10][0] == b[8] && b[8..10][1] == b[9];
    assert b == (s + d + e) + r + (n + x);
    Between(s + d + e, r, n + x, 10, 14);
    assert b == (s + d + e + r) + n + x;
    Between(s + d + e + r, n, x, 14, 18);
    assert b == (s + d + e + r + n) + x + [];
    Between(s + d + e + r + n, x, [], 18, 18 + |x|);
  }

  lemma CompleteLaid(c: UrbComplete, b: seq<byte>)
    requires |c.data| <= MAX_U32 && b == CompleteBytes(c)
    ensures Laid(CompleteUrb(c), b)
  {
    var s, t, n := U32Bytes(c.seqNum), I32Bytes(c.status), U32Bytes(|c.data|);
    assert b == s + t + n + c.data;
    assert b[0..4] == s && b[4..8] == t && b[8..12] == n && b[12..12 + |c.data|] == c.data;
  }

  lemma HelloLaid(m: Message, b: seq<byte>)
    requires m.Hello? && |m.hostname| <= 255 && b == PayloadBytes(m)
    ensures Laid(m, b)
  {
    assert b == [m.protocolMin] + [m.protocolMax] + m.fingerprint + [|m.hostname|] + m.hostname;
    assert b[2..2 + |m.fingerprint|] == m.fingerprint && b[35..35 + |m.hostname|] == m.hostname;
  }

  lemma ErrorLaid(m: Message, b: seq<byte>)
    requires m.Error? && |m.detail| <= 65_535 && b == PayloadBytes(m)
    ensures Laid(m, b)
  {
    var c, n := U16Bytes(CodeTag(m.code)), U16Bytes(|m.detail|);
    assert b == c + n + m.detail;
    assert b[0..2] == c && b[2..4] == n && b[4..4 + |m.detail|] == m.detail;
  }

  lemma PairingLaid(m: Message, b: seq<byte>)
    requires (m.PairRequest? && |m.clientName| <= 255) || m.PairResponse?
    requires b == PayloadBytes(m)
    ensures Laid(m, b)
  {
    if m.PairRequest? {
      assert b == m.clientFingerprint + m.pinHash + [|m.clientName|] + m.clientName;
      assert b[0..32] == m.clientFingerprint && b[32..64] == m.pinHash && b[65..65 + |m.clientName|] == m.clientName;
    } else {
      assert b == [BoolTag(m.paired)] + m.serverFingerprint + m.authToken;
      assert b[1..33] == m.serverFingerprint && b[33..65] == m.authToken;
    }
  }

  lemma TokenLaid(id: DeviceId, token: Bytes32, b: seq<byte>)
    requires b == U32Bytes(id) + (token + [])
    ensures |b| == 36 && IsU32(b, 0, id) && IsAt(b, 4, token)
  {
    assert b[0..4] == U32Bytes(id) && b[4..36] == token;
  }

  lemma AttachResponseLaid(m: Message, b: seq<byte>)
    requires m.AttachResponse? && |m.busId| <= 255 && b == PayloadBytes(m)
    ensures Laid(m, b)
  {
    var d, p := U32Bytes(m.attachedId), U16Bytes(m.usbipPort);
    assert b == d + [BoolTag(m.attached)] + p + [|m.busId|] + m.busId;
    assert b[0..4] == d && b[5..7] == p && b[8..8 + |m.busId|] == m.busId;
  }

  lemma TwoWordsLaid(x: seq<byte>, y: seq<byte>, b: seq<byte>)
    requires |x| == 4 && |y| == 4 && b == x + (y + [])
    ensures |b| == 8 && b[0..4] == x && b[4..8] == y
  {
  }

  lemma ListLaid(devices: seq<DeviceInfo>, b: seq<byte>)
    requires ListError(devices).None? && b == ListBytes(devices)
    ensures Laid(DeviceList(devices), b)
  {
    var n := U16Bytes(|devices|);
    DevicesLaid(b, n, devices, 2);
    assert b[0..2] == n;
  }

  /** Every message the encoder accepts has its fields at their places. */
  lemma PayloadLaid(m: Message, b: seq<byte>)
    requires FieldError(m).None? && b == PayloadBytes(m)
    ensures Laid(m, b)
  {
    match m
    case Hello(_, _, _, _) => HelloLaid(m, b);
    case Error(_, _) => ErrorLaid(m, b);
    case Detach(id) => assert b == U32Bytes(id) && b[0..4] == b;
    case DetachRequest(id, token) => TokenLaid(id, token, b);
    case DeviceListRequest(token) => assert b == token;
    case DeviceList(devices) => ListLaid(devices, b);
    case PairRequest(_, _, _) => PairingLaid(m, b);
    case PairResponse(_, _, _) => PairingLaid(m, b);
    case AttachRequest(id, token) => TokenLaid(id, token, b);
    case AttachResponse(_, _, _, _) => AttachResponseLaid(m, b);
    case SubmitUrb(u) => SubmitLaid(u, b);
    case CompleteUrb(c) => CompleteLaid(c, b);
    case UnlinkUrb(s, d) => TwoWordsLaid(U32Bytes(s), U32Bytes(d), b);
    case UrbUnlinked(s, status) => TwoWordsLaid(U32Bytes(s), I32Bytes(status), b);
  }

  /** A frame: `FARB`, version 2, the type code, the length of the payload, the payload. */
  lemma FrameLaid(m: Message)
    requires Encode(m).Ok?
    ensures var f := Encode(m).value;
            && |f| >= 10 && f[..4] == [0x46, 0x41, 0x52, 0x42] && f[4] == 2 && HasTypeCode(m, f[5])
            && IsU32(f, 6, |f| - 10) && Laid(m, f[10..])
  {
    var f, b := Encode(m).value, PayloadBytes(m);
    assert f == Header(TypeTag(m), |b|) + b;
    assert f[..4] == Header(TypeTag(m), |b|)[..4] && f[6..10] == Header(TypeTag(m), |b|)[6..10] && f[10..] == b;
    PayloadLaid(m, b);
  }

  // ---------------------------------------------------------------- what is refused

  ghost predicate DeviceFits(d: DeviceInfo) {
    && |d.busId| <= 255 && |d.product| <= 255 && |d.interfaces| <= 255
    && forall i :: 0 <= i < |d.interfaces| ==> |d.interfaces[i].endpoints| <= 255
  }

  /** Every text and list is within the range of its length field. */
  ghost predicate FieldsFit(m: Message) {
    match m
    case Hello(_, _, _, hostname) => |hostname| <= 255
    case Error(_, detail) => |detail| <= 65_535
    case DeviceList(devices) => |devices| <= 65_535 && forall i :: 0 <= i < |devices| ==> DeviceFits(devices[i])
    case PairRequest(_, _, name) => |name| <= 255
    case AttachResponse(_, _, _, busId) => |busId| <= 255
    case SubmitUrb(urb) => |urb.data| <= 0xffff_ffff
    case CompleteUrb(complete) => |complete.data| <= 0xffff_ffff
    case _ => true
  }

  /** How long the payload of a message is. */
  function PayloadSize(m: Message): nat {
    match m
    case Hello(_, _, _, hostname) => 35 + |hostname|
    case Error(_, detail) => 4 + |detail|
    case Detach(_) => 4
    case DetachRequest(_, _) => 36
    case DeviceListRequest(_) => 32
    case DeviceList(devices) => 2 + DevicesSize(devices)
    case PairRequest(_, _, name) => 65 + |name|
    case PairResponse(_, _, _) => 65
    case AttachRequest(_, _) => 36
    case AttachResponse(_, _, _, busId) => 8 + |busId|
    case SubmitUrb(u) => 18 + |u.data|
    case CompleteUrb(c) => 12 + |c.data|
    case UnlinkUrb(_, _) => 8
    case UrbUnlinked(_, _) => 8
  }

  lemma {:induction false} NoErrorIff<T>(check: T -> Option<ProtocolError>, list: seq<T>)
    ensures FirstError(check, list).None? <==> forall i :: 0 <= i < |list| ==> check(list[i]).None?
  {
    if list != [] {
      NoErrorIff(check, list[1..]);
      forall i | 0 <= i < |list| && FirstError(check, list).None? ensures check(list[i]).None? {
        if i > 0 {
          assert list[i] == list[1..][i - 1];
        }
      }
      if forall i :: 0 <= i < |list| ==> check(list[i]).None? {
        forall i | 0 <= i < |list[1..]| ensures check(list[1..][i]).None? {
          assert list[1..][i] == list[i + 1];
        }
      }
    }
  }

  lemma DeviceErrorIff(d: DeviceInfo)
    ensures DeviceError(d).None? <==> DeviceFits(d)
  {
    NoErrorIff(InterfaceError, d.interfaces);
    forall i | 0 <= i < |d.interfaces|
      ensures InterfaceError(d.interfaces[i]).None? <==> |d.interfaces[i].endpoints| <= 255
    {
    }
  }

  lemma FieldErrorIff(m: Message)
    ensures FieldError(m).None? <==> FieldsFit(m)
    ensures FieldError(m).Some? ==> FieldError(m).value.FieldTooLong?
  {
    match m
    case DeviceList(devices) =>
      NoErrorIff(DeviceError, devices);
      forall i | 0 <= i < |devices| ensures DeviceError(devices[i]).None? <==> DeviceFits(devices[i]) {
        DeviceErrorIff(devices[i]);
      }
      ListErrorKind(devices);
    case _ =>
  }

  lemma {:induction false} FirstErrorKind<T>(check: T -> Option<ProtocolError>, list: seq<T>)
    requires forall i :: 0 <= i < |list| && check(list[i]).Some? ==> check(list[i]).value.FieldTooLong?
    ensures FirstError(check, list).Some? ==> FirstError(check, list).value.FieldTooLong?
  {
    if list != [] {
      forall i | 0 <= i < |list[1..]| && check(list[1..][i]).Some? ensures check(list[1..][i]).value.FieldTooLong? {
        assert list[1..][i] == list[i + 1];
      }
      FirstErrorKind(check, list[1..]);
    }
  }

  lemma ListErrorKind(devices: seq<DeviceInfo>)
    ensures ListError(devices).Some? ==> ListError(devices).value.FieldTooLong?
  {
    forall i | 0 <= i < |devices| && DeviceError(devices[i]).Some? ensures DeviceError(devices[i]).value.FieldTooLong? {
      FirstErrorKind(InterfaceError, devices[i].interfaces);
    }
    FirstErrorKind(DeviceError, devices);
  }

  lemma LaidSize(m: Message, b: seq<byte>)
    requires Laid(m, b)
    ensures |b| == PayloadSize(m)
  {
  }

  /**
   A message encodes if and only if its fields fit and its payload has at most 65,600 bytes; otherwise
   the error says that a field is too long or, if none is, how long the payload is.
   */
  lemma EncodesIff(m: Message)
    ensures Encode(m).Ok? <==> FieldsFit(m) && PayloadSize(m) <= 65_600
    ensures Encode(m).Ok? ==> |Encode(m).value| == 10 + PayloadSize(m)
    ensures !FieldsFit(m) ==> Encode(m).error.FieldTooLong?
    ensures FieldsFit(m) && PayloadSize(m) > 65_600 ==> Encode(m) == Err(PayloadTooLarge(PayloadSize(m), 65_600))
  {
    FieldErrorIff(m);
    if FieldsFit(m) {
      PayloadLaid(m, PayloadBytes(m));
      LaidSize(m, PayloadBytes(m));
    }
  }

  /** What a decoder says of a frame before it looks at the payload, in this order. */
  lemma DecodeRefuses(b: seq<byte>)
    ensures |b| < 10 ==> Decode(b) == Err(Truncated)
    ensures |b| >= 10 && b[..4] != [0x46, 0x41, 0x52, 0x42] ==> Decode(b) == Err(BadMagic)
    ensures |b| >= 10 && b[..4] == [0x46, 0x41, 0x52, 0x42] && b[4] != 2 ==> Decode(b) == Err(UnsupportedVersion(b[4]))
    ensures |b| >= 10 && b[..4] == [0x46, 0x41, 0x52, 0x42] && b[4] == 2 ==>
              var n := U32Value(b[6..10]);
              && (n > 65_600 ==> Decode(b) == Err(PayloadTooLarge(n, 65_600)))
              && (n <= 65_600 && |b| < 10 + n ==> Decode(b) == Err(Truncated))
              && (n <= 65_600 && |b| > 10 + n ==> Decode(b) == Err(InvalidPayload))
              && (n <= 65_600 && |b| == 10 + n && (b[5] == 0 || b[5] > 14) ==> Decode(b) == Err(UnknownType(b[5])))
  {
  }
}
