/**
 The codec in the source's own form: a payload buffer that grows field by field, and a cursor
 that advances over the bytes it has read.  Each method is proved to compute the function of
 module `Codec` of the same meaning.
 */
module CodecMethods {
  import opened Results
  import opened Bytes
  import opened Utf8
  import opened Messages
  import opened Codec

  /** A step of the cursor did what the parser `spec` says: same value, same rest, same error. */
  ghost predicate Advanced<T(!new)>(spec: Parsed<T>, r: Result<T, ProtocolError>, rest: seq<byte>) {
    match spec
    case Ok(p) => r == Ok(p.0) && rest == p.1
    case Err(e) => r == Err(e)
  }

  /** What is left of a counted list after `done` has been read. */
  ghost function Prepend<T>(done: seq<T>, spec: Parsed<seq<T>>): Parsed<seq<T>> {
    match spec
    case Ok(p) => Ok((done + p.0, p.1))
    case Err(e) => Err(e)
  }

  lemma PrependNothing<T>(spec: Parsed<seq<T>>)
    ensures Prepend([], spec) == spec
  {
    if spec.Ok? {
      assert [] + spec.value.0 == spec.value.0;
    }
  }

  lemma ReadManyDone<T>(read: seq<byte> -> Parsed<T>, c: seq<byte>, done: seq<T>)
    ensures Prepend(done, ReadMany(read, 0, c)) == Ok((done, c))
  {
    assert done + [] == done;
  }

  /** `left` is what reading `n` device records amounts to. */
  ghost predicate AmountsTo(left: Parsed<seq<DeviceInfo>>, n: nat, c: seq<byte>) {
    left == ReadMany(ReadDevice, n, c)
  }

  /** One turn of the loop that reads a counted list. */
  lemma ReadManyTurn<T>(read: seq<byte> -> Parsed<T>, n: nat, m: nat, c: seq<byte>, done: seq<T>)
    requires n == m + 1
    ensures read(c).Err? ==> ReadMany(read, n, c) == Err(read(c).error)
    ensures read(c).Ok? ==>
      Prepend(done, ReadMany(read, n, c)) == Prepend(done + [read(c).value.0], ReadMany(read, m, read(c).value.1))
  {
    if read(c).Ok? {
      var (head, c1) := read(c).value;
      var after := ReadMany(read, m, c1);
      if after.Ok? {
        assert done + ([head] + after.value.0) == done + [head] + after.value.0;
      }
    }
  }

  class Cursor {
    var rest: seq<byte>

    constructor (payload: seq<byte>)
      ensures rest == payload
    {
      rest := payload;
    }

    method Take(n: nat) returns (r: Result<seq<byte>, ProtocolError>)
      modifies this
      ensures Advanced(Codec.Take(old(rest), n), r, rest)
    {
      if |rest| < n {
        return Err(Truncated);
      }
      r := Ok(rest[..n]);
      rest := rest[n..];
    }

    method U8() returns (r: Result<byte, ProtocolError>)
      modifies this
      ensures Advanced(ReadU8(old(rest)), r, rest)
    {
      var b :- Take(1);
      return Ok(b[0]);
    }

    method U16() returns (r: Result<u16, ProtocolError>)
      modifies this
      ensures Advanced(ReadU16(old(rest)), r, rest)
    {
      var b :- Take(2);
      return Ok(U16Value(b));
    }

    method U32() returns (r: Result<u32, ProtocolError>)
      modifies this
      ensures Advanced(ReadU32(old(rest)), r, rest)
    {
      var b :- Take(4);
      return Ok(U32Value(b));
    }

    method I32() returns (r: Result<i32, ProtocolError>)
      modifies this
      ensures Advanced(ReadI32(old(rest)), r, rest)
    {
      var b :- Take(4);
      return Ok(I32Value(b));
    }

    method Array32() returns (r: Result<Bytes32, ProtocolError>)
      modifies this
      ensures Advanced(ReadBytes32(old(rest)), r, rest)
    {
      var b :- Take(32);
      return Ok(b);
    }

    method ShortBytes() returns (r: Result<seq<byte>, ProtocolError>)
      modifies this
      ensures Advanced(ReadShortBytes(old(rest)), r, rest)
    {
      var n :- U8();
      r := Take(n);
    }

    method ShortString() returns (r: Result<Utf8String, ProtocolError>)
      modifies this
      ensures Advanced(ReadShortText(old(rest)), r, rest)
    {
      var b :- ShortBytes();
      r := Text(b);
    }

    method LongString() returns (r: Result<Utf8String, ProtocolError>)
      modifies this
      ensures Advanced(ReadLongText(old(rest)), r, rest)
    {
      var n :- U16();
      var b :- Take(n);
      r := Text(b);
    }

    method Bool() returns (r: Result<bool, ProtocolError>)
      modifies this
      ensures Advanced(ReadBool(old(rest)), r, rest)
    {
      var b :- U8();
      r := BoolOf(b);
    }

    method Interface() returns (r: Result<UsbInterfaceInfo, ProtocolError>)
      modifies this
      ensures Advanced(ReadInterface(old(rest)), r, rest)
    {
      var number :- U8();
      var class_ :- U8();
      var subclass :- U8();
      var protocol :- U8();
      var endpoints :- ShortBytes();
      return Ok(UsbInterfaceInfo(number, class_, subclass, protocol, endpoints));
    }

    method Interfaces(count: nat) returns (r: Result<seq<UsbInterfaceInfo>, ProtocolError>)
      modifies this
      ensures Advanced(ReadMany(ReadInterface, count, old(rest)), r, rest)
    {
      var interfaces := [];
      PrependNothing(ReadMany(ReadInterface, count, rest));
      for i := 0 to count
        invariant |interfaces| == i
        invariant ReadMany(ReadInterface, count, old(rest)) == Prepend(interfaces, ReadMany(ReadInterface, count - i, rest))
      {
        ReadManyTurn(ReadInterface, count - i, count - (i + 1), rest, interfaces);
        var head :- Interface();
        interfaces := interfaces + [head];
      }
      ReadManyDone(ReadInterface, rest, interfaces);
      return Ok(interfaces);
    }

    method Descriptor() returns (r: Result<(u16, u16, byte, UsbSpeed), ProtocolError>)
      modifies this
      ensures Advanced(ReadDescriptor(old(rest)), r, rest)
    {
      var vid :- U16();
      var pid :- U16();
      var usbClass :- U8();
      var tag :- U8();
      var speed :- SpeedOf(tag);
      return Ok((vid, pid, usbClass, speed));
    }

    method Export() returns (r: Result<(bool, seq<UsbInterfaceInfo>), ProtocolError>)
      modifies this
      ensures Advanced(ReadExport(old(rest)), r, rest)
    {
      var exported :- Bool();
      var count :- U8();
      var interfaces :- Interfaces(count);
      return Ok((exported, interfaces));
    }

    method Device() returns (r: Result<DeviceInfo, ProtocolError>)
      modifies this
      ensures Advanced(ReadDevice(old(rest)), r, rest)
    {
      var id :- U32();
      var busId :- ShortString();
      var d :- Descriptor();
      var product :- ShortString();
      var e :- Export();
      return Ok(DeviceInfo(id, busId, d.0, d.1, d.2, d.3, product, e.0, e.1));
    }

    /** One turn of the device loop: `left` is what reading the remaining `n` records amounts to, of which `m` remain after it. */
    method NextDevice(ghost n: nat, ghost m: nat, devices: seq<DeviceInfo>, ghost left: Parsed<seq<DeviceInfo>>)
      returns (r: Result<seq<DeviceInfo>, ProtocolError>, ghost after: Parsed<seq<DeviceInfo>>)
      requires n == m + 1 && AmountsTo(left, n, rest)
      modifies this
      ensures r.Err? ==> left == Err(r.error)
      ensures r.Ok? ==> |r.value| == |devices| + 1 && Prepend(devices, left) == Prepend(r.value, after)
      ensures r.Ok? ==> AmountsTo(after, m, rest)
    {
      ReadManyTurn(ReadDevice, n, m, rest, devices);
      var head := Device();
      after := ReadMany(ReadDevice, m, rest);
      if head.Err? {
        return Err(head.error), after;
      }
      r := Ok(devices + [head.value]);
    }

    method Devices(count: nat) returns (r: Result<seq<DeviceInfo>, ProtocolError>)
      modifies this
      ensures Advanced(ReadMany(ReadDevice, count, old(rest)), r, rest)
    {
      var devices := [];
      ghost var goal := ReadMany(ReadDevice, count, rest);
      ghost var left, n := goal, count;
      PrependNothing(goal);
      for i := 0 to count
        invariant |devices| == i && goal == Prepend(devices, left)
        invariant n == count - i && AmountsTo(left, n, rest)
      {
        ghost var m := n - 1;
        var next, after := NextDevice(n, m, devices, left);
        if next.Err? {
          return Err(next.error);
        }
        devices, left, n := next.value, after, m;
      }
      ReadManyDone(ReadDevice, rest, devices);
      return Ok(devices);
    }

    method DeviceListBody() returns (r: Result<Message, ProtocolError>)
      modifies this
      ensures Advanced(ReadDeviceList(old(rest)), r, rest)
    {
      var count :- U16();
      var devices :- Devices(count);
      return Ok(DeviceList(devices));
    }

    method HelloBody() returns (r: Result<Message, ProtocolError>)
      modifies this
      ensures Advanced(ReadHello(old(rest)), r, rest)
    {
      var min :- U8();
      var max :- U8();
      var fingerprint :- Array32();
      var hostname :- ShortString();
      return Ok(Hello(min, max, fingerprint, hostname));
    }

    method ErrorBody() returns (r: Result<Message, ProtocolError>)
      modifies this
      ensures Advanced(ReadError(old(rest)), r, rest)
    {
      var tag :- U16();
      var code :- CodeOf(tag);
      var detail :- LongString();
      return Ok(Error(code, detail));
    }

    method PairRequestBody() returns (r: Result<Message, ProtocolError>)
      modifies this
      ensures Advanced(ReadPairRequest(old(rest)), r, rest)
    {
      var fingerprint :- Array32();
      var pinHash :- Array32();
      var name :- ShortString();
      return Ok(PairRequest(fingerprint, pinHash, name));
    }

    method PairResponseBody() returns (r: Result<Message, ProtocolError>)
      modifies this
      ensures Advanced(ReadPairResponse(old(rest)), r, rest)
    {
      var paired :- Bool();
      var fingerprint :- Array32();
      var token :- Array32();
      return Ok(PairResponse(paired, fingerprint, token));
    }

    method DeviceAndToken() returns (r: Result<(DeviceId, Bytes32), ProtocolError>)
      modifies this
      ensures Advanced(ReadDeviceAndToken(old(rest)), r, rest)
    {
      var id :- U32();
      var token :- Array32();
      return Ok((id, token));
    }

    method AttachResponseBody() returns (r: Result<Message, ProtocolError>)
      modifies this
      ensures Advanced(ReadAttachResponse(old(rest)), r, rest)
    {
      var id :- U32();
      var attached :- Bool();
      var port :- U16();
      var busId :- ShortString();
      return Ok(AttachResponse(id, attached, port, busId));
    }

    method SubmitBody() returns (r: Result<UrbSubmit, ProtocolError>)
      modifies this
      ensures Advanced(ReadSubmit(old(rest)), r, rest)
    {
      var seqNum :- U32();
      var device :- U32();
      var endpoint :- U8();
      var tag :- U8();
      var transfer :- TransferOf(tag);
      var requested :- U32();
      var n :- U32();
      var data :- Take(n);
      return Ok(UrbSubmit(seqNum, device, endpoint, transfer, requested, data));
    }

    method CompleteBody() returns (r: Result<UrbComplete, ProtocolError>)
      modifies this
      ensures Advanced(ReadComplete(old(rest)), r, rest)
    {
      var seqNum :- U32();
      var status :- I32();
      var n :- U32();
      var data :- Take(n);
      return Ok(UrbComplete(seqNum, status, data));
    }

    method TwoWords() returns (r: Result<(u32, u32), ProtocolError>)
      modifies this
      ensures Advanced(ReadTwoWords(old(rest)), r, rest)
    {
      var a :- U32();
      var b :- U32();
      return Ok((a, b));
    }

    method UnlinkedBody() returns (r: Result<Message, ProtocolError>)
      modifies this
      ensures Advanced(ReadUnlinked(old(rest)), r, rest)
    {
      var s :- U32();
      var status :- I32();
      return Ok(UrbUnlinked(s, status));
    }

    /** The body of `parse_payload`'s match: one message of the given type. */
    method Body(ty: byte) returns (r: Result<Message, ProtocolError>)
      modifies this
      ensures Advanced(ReadBody(ty, old(rest)), r, rest)
    {
      match ty
      case 1 => r := HelloBody();
      case 2 => r := ErrorBody();
      case 3 => var id :- U32(); r := Ok(Detach(id));
      case 4 => r := DeviceListBody();
      case 5 => r := PairRequestBody();
      case 6 => r := PairResponseBody();
      case 7 => var p :- DeviceAndToken(); r := Ok(AttachRequest(p.0, p.1));
      case 8 => r := AttachResponseBody();
      case 9 => var u :- SubmitBody(); r := Ok(SubmitUrb(u));
      case 10 => var c :- CompleteBody(); r := Ok(CompleteUrb(c));
      case 11 => var token :- Array32(); r := Ok(DeviceListRequest(token));
      case 12 => var p :- DeviceAndToken(); r := Ok(DetachRequest(p.0, p.1));
      case 13 => var p :- TwoWords(); r := Ok(UnlinkUrb(p.0, p.1));
      case 14 => r := UnlinkedBody();
      case _ => r := Err(UnknownType(ty));
    }
  }

  ghost function ReadTwoWords(c: seq<byte>): Parsed<(u32, u32)> {
    var (a, c1) :- ReadU32(c);
    var (b, rest) :- ReadU32(c1);
    Ok(((a, b), rest))
  }

  method ParseMessage(ty: byte, payload: seq<byte>) returns (r: Result<Message, ProtocolError>)
    ensures r == ParsePayload(ty, payload)
  {
    var cursor := new Cursor(payload);
    var m :- cursor.Body(ty);
    r := Finish(m, cursor.rest);
  }

  method DecodeFrame(bytes: seq<byte>) returns (r: Result<Message, ProtocolError>)
    ensures r == Decode(bytes)
  {
    if |bytes| < HEADER_LEN {
      return Err(Truncated);
    }
    if bytes[..4] != MAGIC {
      return Err(BadMagic);
    }
    if bytes[4] != VERSION {
      return Err(UnsupportedVersion(bytes[4]));
    }
    var len := U32Value(bytes[6..10]);
    if len > MAX_PAYLOAD {
      return Err(PayloadTooLarge(len, MAX_PAYLOAD));
    }
    if |bytes| < HEADER_LEN + len {
      return Err(Truncated);
    }
    if |bytes| != HEADER_LEN + len {
      return Err(InvalidPayload);
    }
    assert bytes[HEADER_LEN..HEADER_LEN + len] == bytes[HEADER_LEN..];
    r := ParseMessage(bytes[5], bytes[HEADER_LEN..HEADER_LEN + len]);
  }

  // ---------------------------------------------------------------- encoding

  /** The outcome a check of the specification stands for. */
  ghost function Checked(error: Option<ProtocolError>): Outcome<ProtocolError> {
    match error
    case None => Pass
    case Some(e) => Fail(e)
  }

  lemma AppendThen(a: seq<byte>, b: seq<byte>, after: seq<byte>)
    ensures (a + b) + after == a + (b + after)
  {
  }

  /**
   The payload buffer.  `after` is the part of the layout still to be written: every method
   moves the fields it writes from that part into the buffer.
   */
  class Payload {
    var bytes: seq<byte>

    constructor ()
      ensures bytes == []
    {
      bytes := [];
    }

    method Extend(b: seq<byte>, ghost after: seq<byte>)
      modifies this
      ensures bytes == old(bytes) + b && bytes + after == old(bytes) + (b + after)
    {
      AppendThen(bytes, b, after);
      bytes := bytes + b;
    }

    method PutShort(field: string, value: seq<byte>, ghost after: seq<byte>) returns (r: Outcome<ProtocolError>)
      modifies this
      ensures r == Checked(StringError(field, value, 255))
      ensures r.Pass? ==> bytes + after == old(bytes) + ShortText(value, after)
    {
      if |value| > 255 {
        return Fail(FieldTooLong(field, |value|, 255));
      }
      Extend([|value|], value + after);
      Extend(value, after);
      return Pass;
    }

    method PutLong(field: string, value: seq<byte>, ghost after: seq<byte>) returns (r: Outcome<ProtocolError>)
      modifies this
      ensures r == Checked(StringError(field, value, 65_535))
      ensures r.Pass? ==> bytes + after == old(bytes) + LongText(value, after)
    {
      if |value| > 65_535 {
        return Fail(FieldTooLong(field, |value|, 65_535));
      }
      Extend(U16Bytes(|value|), value + after);
      Extend(value, after);
      return Pass;
    }

    method PutUrbData(data: seq<byte>, ghost after: seq<byte>) returns (r: Outcome<ProtocolError>)
      modifies this
      ensures r == Checked(UrbDataError(data))
      ensures r.Pass? ==> bytes + after == old(bytes) + UrbData(data, after)
    {
      if |data| > MAX_U32 {
        return Fail(FieldTooLong("urb.data", |data|, MAX_PAYLOAD));
      }
      Extend(U32Bytes(|data|), data + after);
      Extend(data, after);
      return Pass;
    }

    method PutInterface(i: UsbInterfaceInfo, ghost after: seq<byte>) returns (r: Outcome<ProtocolError>)
      modifies this
      ensures r == Checked(InterfaceError(i))
      ensures r.Pass? ==> bytes + after == old(bytes) + InterfaceBytes(i, after)
    {
      ghost var c4 := ShortText(i.endpoints, after);
      ghost var c3 := [i.interfaceProtocol] + c4;
      ghost var c2 := [i.interfaceSubclass] + c3;
      Extend([i.interfaceNumber], [i.interfaceClass] + c2);
      Extend([i.interfaceClass], c2);
      Extend([i.interfaceSubclass], c3);
      Extend([i.interfaceProtocol], c4);
      r := PutShort("interface.endpoints", i.endpoints, after);
    }

    method PutInterfaces(list: seq<UsbInterfaceInfo>, ghost after: seq<byte>) returns (r: Outcome<ProtocolError>)
      modifies this
      ensures r == Checked(InterfacesError(list))
      ensures r.Pass? ==> bytes + after == old(bytes) + ManyBytes(InterfaceBytes, list, after)
    {
      for i := 0 to |list|
        invariant InterfacesError(list) == InterfacesError(list[i..])
        invariant bytes + ManyBytes(InterfaceBytes, list[i..], after) == old(bytes) + ManyBytes(InterfaceBytes, list, after)
      {
        assert list[i..][1..] == list[i + 1..];
        :- PutInterface(list[i], ManyBytes(InterfaceBytes, list[i + 1..], after));
      }
      return Pass;
    }

    method PutDescriptor(vid: u16, pid: u16, usbClass: byte, speed: UsbSpeed, ghost after: seq<byte>)
      modifies this
      ensures bytes + after == old(bytes) + DescriptorBytes(vid, pid, usbClass, speed, after)
    {
      ghost var c3 := [SpeedTag(speed)] + after;
      ghost var c2 := [usbClass] + c3;
      Extend(U16Bytes(vid), U16Bytes(pid) + c2);
      Extend(U16Bytes(pid), c2);
      Extend([usbClass], c3);
      Extend([SpeedTag(speed)], after);
    }

    method PutExport(d: DeviceInfo, ghost after: seq<byte>) returns (r: Outcome<ProtocolError>)
      modifies this
      ensures r == Checked(OrElse(
        if |d.interfaces| > 255 then Some(FieldTooLong("device.interfaces", |d.interfaces|, 255)) else None,
        InterfacesError(d.interfaces)))
      ensures r.Pass? ==> bytes + after == old(bytes) + ExportBytes(d.exported, d.interfaces, after)
    {
      ghost var list := ManyBytes(InterfaceBytes, d.interfaces, after);
      Extend([BoolTag(d.exported)], [Length8(|d.interfaces|)] + list);
      if |d.interfaces| > 255 {
        return Fail(FieldTooLong("device.interfaces", |d.interfaces|, 255));
      }
      Extend([|d.interfaces|], list);
      r := PutInterfaces(d.interfaces, after);
    }

    method PutDevice(d: DeviceInfo, ghost after: seq<byte>) returns (r: Outcome<ProtocolError>)
      modifies this
      ensures r == Checked(DeviceError(d))
      ensures r.Pass? ==> bytes + after == old(bytes) + DeviceBytes(d, after)
    {
      ghost var c4 := ExportBytes(d.exported, d.interfaces, after);
      ghost var c3 := ShortText(d.product, c4);
      ghost var c2 := DescriptorBytes(d.vid, d.pid, d.usbClass, d.speed, c3);
      Extend(U32Bytes(d.id), ShortText(d.busId, c2));
      :- PutShort("bus_id", d.busId, c2);
      PutDescriptor(d.vid, d.pid, d.usbClass, d.speed, c3);
      :- PutShort("product", d.product, c4);
      r := PutExport(d, after);
    }

    method PutDevices(list: seq<DeviceInfo>) returns (r: Outcome<ProtocolError>)
      modifies this
      ensures r == Checked(FirstError(DeviceError, list))
      ensures r.Pass? ==> bytes == old(bytes) + ManyBytes(DeviceBytes, list, [])
    {
      for i := 0 to |list|
        invariant FirstError(DeviceError, list) == FirstError(DeviceError, list[i..])
        invariant bytes + ManyBytes(DeviceBytes, list[i..], []) == old(bytes) + ManyBytes(DeviceBytes, list, [])
      {
        :- NextDevice(list, i);
      }
      assert bytes + [] == bytes;
      return Pass;
    }

    /** One turn of the device loop. */
    method NextDevice(list: seq<DeviceInfo>, i: nat) returns (r: Outcome<ProtocolError>)
      requires i < |list|
      modifies this
      ensures r.Fail? ==> FirstError(DeviceError, list[i..]) == Some(r.error)
      ensures r.Pass? ==> FirstError(DeviceError, list[i..]) == FirstError(DeviceError, list[i + 1..])
      ensures r.Pass? ==> bytes + ManyBytes(DeviceBytes, list[i + 1..], []) == old(bytes) + ManyBytes(DeviceBytes, list[i..], [])
    {
      assert list[i..][1..] == list[i + 1..];
      r := PutDevice(list[i], ManyBytes(DeviceBytes, list[i + 1..], []));
    }

    method PutList(list: seq<DeviceInfo>) returns (r: Outcome<ProtocolError>)
      requires bytes == []
      modifies this
      ensures r == Checked(ListError(list))
      ensures r.Pass? ==> bytes == ListBytes(list)
    {
      if |list| > 65_535 {
        return Fail(FieldTooLong("devices", |list|, 65_535));
      }
      Extend(U16Bytes(|list|), []);
      r := PutDevices(list);
    }

    method PutSubmit(u: UrbSubmit) returns (r: Outcome<ProtocolError>)
      requires bytes == []
      modifies this
      ensures r == Checked(UrbDataError(u.data))
      ensures r.Pass? ==> bytes == SubmitBytes(u)
    {
      ghost var c5 := UrbData(u.data, []);
      ghost var c4 := U32Bytes(u.requestedLength) + c5;
      ghost var c3 := [TransferTag(u.transfer)] + c4;
      ghost var c2 := [u.endpoint] + c3;
      Extend(U32Bytes(u.seqNum), U32Bytes(u.deviceId) + c2);
      Extend(U32Bytes(u.deviceId), c2);
      Extend([u.endpoint], c3);
      Extend([TransferTag(u.transfer)], c4);
      Extend(U32Bytes(u.requestedLength), c5);
      r := PutUrbData(u.data, []);
      assert bytes + [] == bytes;
    }

    method PutComplete(c: UrbComplete) returns (r: Outcome<ProtocolError>)
      requires bytes == []
      modifies this
      ensures r == Checked(UrbDataError(c.data))
      ensures r.Pass? ==> bytes == CompleteBytes(c)
    {
      ghost var c2 := UrbData(c.data, []);
      Extend(U32Bytes(c.seqNum), I32Bytes(c.status) + c2);
      Extend(I32Bytes(c.status), c2);
      r := PutUrbData(c.data, []);
      assert bytes + [] == bytes;
    }

    method PutText(m: Message) returns (r: Outcome<ProtocolError>)
      requires bytes == [] && (m.Hello? || m.Error? || m.PairRequest? || m.AttachResponse?)
      modifies this
      ensures r == Checked(FieldError(m))
      ensures r.Pass? ==> bytes == PayloadBytes(m)
    {
      match m {
        case Hello(min, max, fingerprint, hostname) =>
          ghost var text := ShortText(hostname, []);
          Extend([min], [max] + (fingerprint + text));
          Extend([max], fingerprint + text);
          Extend(fingerprint, text);
          r := PutShort("hostname", hostname, []);
        case Error(code, detail) =>
          Extend(U16Bytes(CodeTag(code)), LongText(detail, []));
          r := PutLong("detail", detail, []);
        case PairRequest(fingerprint, pinHash, name) =>
          ghost var text := ShortText(name, []);
          Extend(fingerprint, pinHash + text);
          Extend(pinHash, text);
          r := PutShort("client_name", name, []);
        case AttachResponse(id, attached, port, busId) =>
          ghost var text := ShortText(busId, []);
          Extend(U32Bytes(id), [BoolTag(attached)] + (U16Bytes(port) + text));
          Extend([BoolTag(attached)], U16Bytes(port) + text);
          Extend(U16Bytes(port), text);
          r := PutShort("bus_id", busId, []);
      }
      assert bytes + [] == bytes;
    }

    method PutFixed(m: Message)
      requires bytes == []
      requires m.Detach? || m.DetachRequest? || m.DeviceListRequest? || m.PairResponse? || m.AttachRequest? ||
               m.UnlinkUrb? || m.UrbUnlinked?
      modifies this
      ensures bytes == PayloadBytes(m)
    {
      match m {
        case Detach(id) => Extend(U32Bytes(id), []);
        case DetachRequest(id, token) => Extend(U32Bytes(id), token + []); Extend(token, []);
        case DeviceListRequest(token) => Extend(token, []);
        case PairResponse(paired, fingerprint, token) =>
          Extend([BoolTag(paired)], fingerprint + (token + []));
          Extend(fingerprint, token + []);
          Extend(token, []);
        case AttachRequest(id, token) => Extend(U32Bytes(id), token + []); Extend(token, []);
        case UnlinkUrb(s, device) => Extend(U32Bytes(s), U32Bytes(device) + []); Extend(U32Bytes(device), []);
        case UrbUnlinked(s, status) => Extend(U32Bytes(s), I32Bytes(status) + []); Extend(I32Bytes(status), []);
      }
      assert bytes + [] == bytes;
    }

    method Put(m: Message) returns (r: Outcome<ProtocolError>)
      requires bytes == []
      modifies this
      ensures r == Checked(FieldError(m))
      ensures r.Pass? ==> bytes == PayloadBytes(m)
    {
      match m
      case DeviceList(devices) => r := PutList(devices);
      case SubmitUrb(urb) => r := PutSubmit(urb);
      case CompleteUrb(complete) => r := PutComplete(complete);
      case Hello(_, _, _, _) => r := PutText(m);
      case Error(_, _) => r := PutText(m);
      case PairRequest(_, _, _) => r := PutText(m);
      case AttachResponse(_, _, _, _) => r := PutText(m);
      case _ => PutFixed(m); r := Pass;
    }
  }

  /** `encode`: the payload, checked against its limit, behind a ten-byte header. */
  method EncodeMessage(m: Message) returns (r: Result<seq<byte>, ProtocolError>)
    ensures r == Encode(m)
  {
    var payload := new Payload();
    var written := payload.Put(m);
    if written.Fail? {
      return Err(written.error);
    }
    if |payload.bytes| > MAX_PAYLOAD {
      return Err(PayloadTooLarge(|payload.bytes|, MAX_PAYLOAD));
    }
    var out := MAGIC;
    out := out + [VERSION];
    out := out + [TypeTag(m)];
    out := out + U32Bytes(|payload.bytes|);
    assert out == Header(TypeTag(m), |payload.bytes|);
    out := out + payload.bytes;
    return Ok(out);
  }
}
