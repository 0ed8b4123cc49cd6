/**
 The DEVLIST and IMPORT exchanges of the USB/IP bridge: crates/farbus-core/src/usbip_proxy.rs and
 crates/farbus-core/src/usbip_forward.rs.
 */
module Devlist {
  import opened Results
  import opened Bytes
  import opened Utf8
  import opened Messages
  import opened Inventory
  import opened Streams
  import opened Usbip

  const VERSION_USBIP: u16 := 0x0111
  const REP_DEVLIST: u16 := 0x0005
  const RECORD: nat := 312

  // ---------------------------------------------------------------- fixed-size text

  function Zeros(n: nat): seq<byte> {
    seq(n, i => 0)
  }

  /** `padded`: at most n - 1 bytes of the text, then NULs. */
  function Padded(text: seq<byte>, n: nat): (b: seq<byte>)
    requires n > 0
    ensures |b| == n && b[n - 1] == 0
    ensures forall i :: 0 <= i < n ==> b[i] == if i < |text| && i < n - 1 then text[i] else 0
  {
    var k := if |text| < n - 1 then |text| else n - 1;
    text[..k] + Zeros(n - k)
  }

  // ---------------------------------------------------------------- the bus number

  predicate IsDigit(b: byte) {
    0x30 <= b <= 0x39
  }

  /** The value of a string of decimal digits. */
  function Digits(s: seq<byte>): Option<nat> {
    if s == [] then Some(0)
    else
      match Digits(s[..|s| - 1])
      case None => None
      case Some(n) => if IsDigit(s[|s| - 1]) then Some(10 * n + (s[|s| - 1] - 0x30)) else None
  }

  /** `str::parse::<u32>`: an optional plus sign, at least one digit, no overflow. */
  function ParseU32(s: seq<byte>): Option<u32> {
    var digits := if s != [] && s[0] == 0x2b then s[1..] else s;
    if digits == [] then None
    else
      match Digits(digits)
      case Some(n) => if n <= MAX_U32 then Some(n) else None
      case None => None
  }

  /** What precedes the first dash. */
  function BeforeDash(s: seq<byte>): seq<byte> {
    if s == [] || s[0] == 0x2d then [] else [s[0]] + BeforeDash(s[1..])
  }

  function BusNumber(busId: seq<byte>): u32 {
    match ParseU32(BeforeDash(busId))
    case Some(n) => n
    case None => 1
  }

  function Decimal(n: nat): (s: seq<byte>)
    ensures s != [] && forall i :: 0 <= i < |s| ==> IsDigit(s[i])
  {
    if n < 10 then [0x30 + n] else Decimal(n / 10) + [0x30 + n % 10]
  }

  lemma {:induction false} DigitsOfDecimal(n: nat)
    ensures Digits(Decimal(n)) == Some(n)
  {
    if n < 10 {
      assert Decimal(n)[..0] == [];
    } else {
      DigitsOfDecimal(n / 10);
      assert Decimal(n)[..|Decimal(n)| - 1] == Decimal(n / 10);
    }
  }

  lemma {:induction false} BeforeFirstDash(s: seq<byte>, rest: seq<byte>)
    requires forall i :: 0 <= i < |s| ==> s[i] != 0x2d
    ensures BeforeDash(s + [0x2d] + rest) == s
  {
    var all := s + [0x2d] + rest;
    if s != [] {
      BeforeFirstDash(s[1..], rest);
      assert all[1..] == s[1..] + [0x2d] + rest;
    }
  }

  lemma {:induction false} NoNumber(s: seq<byte>, i: nat)
    requires i < |s| && !IsDigit(s[i])
    ensures Digits(s).None?
  {
    if i < |s| - 1 {
      NoNumber(s[..|s| - 1], i);
    }
  }

  /** Text before the first dash that is no number leaves the bus number at 1. */
  lemma BusNumberDefault(s: seq<byte>, port: seq<byte>, i: nat)
    requires forall j :: 0 <= j < |s| ==> s[j] != 0x2d
    requires s == [] || (i < |s| && !IsDigit(s[i]) && (i == 0 ==> s[0] != 0x2b))
    ensures BusNumber(s + [0x2d] + port) == 1
  {
    BeforeFirstDash(s, port);
    if s != [] {
      var digits := if s[0] == 0x2b then s[1..] else s;
      NoNumber(digits, if s[0] == 0x2b then i - 1 else i);
    }
  }

  /** A bus id such as `3-1.2` names its bus. */
  lemma BusNumberOf(n: u32, port: seq<byte>)
    ensures BusNumber(Decimal(n) + [0x2d] + port) == n
  {
    BeforeFirstDash(Decimal(n), port);
    DigitsOfDecimal(n);
  }

  // ---------------------------------------------------------------- one device

  function SpeedCode(speed: UsbSpeed): u32 {
    match speed
    case Low => 1
    case Full => 2
    case High => 3
    case Super => 5
  }

  /** The interfaces announced; a device that lists none has one, of the device's class. */
  function InterfaceWords(d: LocalDevice): (w: seq<Word4>)
    ensures |w| == if d.info.interfaces == [] then 1 else |d.info.interfaces|
  {
    if d.info.interfaces == [] then [[d.info.usbClass, 0, 0, 0]]
    else
      seq(|d.info.interfaces|, i requires 0 <= i < |d.info.interfaces| =>
        var f := d.info.interfaces[i];
        [f.interfaceClass, f.interfaceSubclass, f.interfaceProtocol, 0])
  }

  /** The count byte; a count that does not fit becomes 1. */
  function CountByte(d: LocalDevice): byte {
    if |InterfaceWords(d)| <= 0xff then |InterfaceWords(d)| else 1
  }

  const SYSFS: Utf8String := Ascii("/sys/bus/usb/devices/")

  function PathOf(d: LocalDevice): seq<byte> {
    SYSFS + d.info.busId
  }

  function Numbers(d: LocalDevice): (b: seq<byte>)
    ensures |b| == 18
  {
    U32Bytes(BusNumber(d.info.busId)) + U32Bytes(d.info.id) + U32Bytes(SpeedCode(d.info.speed)) +
      U16Bytes(d.info.vid) + U16Bytes(d.info.pid) + U16Bytes(0x0100)
  }

  /** `encode_device_header`. */
  function DeviceHeader(d: LocalDevice): (b: seq<byte>)
    ensures |b| == RECORD && b[RECORD - 1] == CountByte(d)
  {
    Padded(PathOf(d), 256) + Padded(d.info.busId, 32) + Numbers(d) + Flags(d)
  }

  function DeviceBytes(d: LocalDevice): seq<byte> {
    DeviceHeader(d) + Join(InterfaceWords(d))
  }

  /** What a client learns about a device; `numbers` holds six big-endian numbers. */
  datatype Record = Record(
    path: seq<byte>, busid: seq<byte>, numbers: seq<byte>, usbClass: byte, rest: seq<byte>, interfaces: seq<Word4>)

  function RecordOf(d: LocalDevice): Record {
    Record(Padded(PathOf(d), 256), Padded(d.info.busId, 32), Numbers(d), d.info.usbClass, [0, 0, 1, 1], InterfaceWords(d))
  }

  /** The record a 312-byte header makes with the interfaces that follow it. */
  function HeaderRecord(h: seq<byte>, interfaces: seq<Word4>): Record
    requires |h| == RECORD
  {
    Record(h[..256], h[256..288], h[288..306], h[306], h[307..311], interfaces)
  }

  /** A client's reading of one record: byte 311 says how many interfaces follow the header. */
  function ReadRecord(b: seq<byte>): (r: Option<(Record, nat)>)
    ensures r.Some? ==> RECORD <= r.value.1 <= |b|
  {
    if |b| < RECORD then None
    else
      var h, tail := b[..RECORD], b[RECORD..];
      var n: nat := h[311];
      if |tail| < 4 * n then None else Some((HeaderRecord(h, FirstWords(tail, n)), RECORD + 4 * n))
  }

  function FirstWords(b: seq<byte>, n: nat): (w: seq<Word4>)
    requires 4 * n <= |b|
    ensures |w| == n
  {
    seq(n, k requires 0 <= k < n => WordAt(b, k))
  }

  predicate CountFits(d: LocalDevice) {
    |d.info.interfaces| <= 0xff
  }

  lemma SixParts(a: seq<byte>, b: seq<byte>, c: seq<byte>, d: seq<byte>, e: seq<byte>, f: seq<byte>)
    requires |a| == 4 && |b| == 4 && |c| == 4 && |d| == 2 && |e| == 2 && |f| == 2
    ensures var all := a + b + c + d + e + f;
            && all[..4] == a && all[4..8] == b && all[8..12] == c && all[12..14] == d && all[14..16] == e && all[16..18] == f
  {
  }

  /** The numbers of a record are the bus number, device id, speed code, vendor, product and version. */
  lemma NumbersAt(d: LocalDevice)
    ensures var b := Numbers(d);
            && U32Value(b[..4]) == BusNumber(d.info.busId) && U32Value(b[4..8]) == d.info.id
            && U32Value(b[8..12]) == SpeedCode(d.info.speed) && U16Value(b[12..14]) == d.info.vid
            && U16Value(b[14..16]) == d.info.pid && U16Value(b[16..18]) == 0x0100
  {
    SixParts(U32Bytes(BusNumber(d.info.busId)), U32Bytes(d.info.id), U32Bytes(SpeedCode(d.info.speed)),
             U16Bytes(d.info.vid), U16Bytes(d.info.pid), U16Bytes(0x0100));
  }

  lemma FirstWordsOfJoin(w: seq<Word4>, rest: seq<byte>)
    ensures FirstWords(Join(w) + rest, |w|) == w
  {
    forall k | 0 <= k < |w| ensures WordAt(Join(w) + rest, k) == w[k] {
      WordOfJoin(w, rest, k);
    }
  }

  lemma Parts(path: seq<byte>, busid: seq<byte>, numbers: seq<byte>, flags: seq<byte>)
    requires |path| == 256 && |busid| == 32 && |numbers| == 18 && |flags| == 6
    ensures var h := path + busid + numbers + flags;
            && h[..256] == path && h[256..288] == busid && h[288..306] == numbers && h[306] == flags[0] && h[307..311] == flags[1..5]
            && h[311] == flags[5]
  {
  }

  lemma RecordOfParts(path: seq<byte>, busid: seq<byte>, numbers: seq<byte>, flags: seq<byte>, w: seq<Word4>)
    requires |path| == 256 && |busid| == 32 && |numbers| == 18 && |flags| == 6
    ensures HeaderRecord(path + busid + numbers + flags, w) == Record(path, busid, numbers, flags[0], flags[1..5], w)
  {
    Parts(path, busid, numbers, flags);
  }

  lemma FlagsAre(d: LocalDevice)
    ensures Flags(d)[0] == d.info.usbClass && Flags(d)[1..5] == [0, 0, 1, 1]
  {
  }

  lemma HeaderRecordOf(d: LocalDevice, w: seq<Word4>)
    ensures HeaderRecord(DeviceHeader(d), w) == RecordOf(d).(interfaces := w)
  {
    FlagsAre(d);
    RecordOfParts(Padded(PathOf(d), 256), Padded(d.info.busId, 32), Numbers(d), Flags(d), w);
  }

  /** What a header and the bytes after it are read as. */
  lemma ReadAfterHeader(h: seq<byte>, tail: seq<byte>, n: nat)
    requires |h| == RECORD && h[311] == n && 4 * n <= |tail|
    ensures ReadRecord(h + tail) == Some((HeaderRecord(h, FirstWords(tail, n)), RECORD + 4 * n))
  {
    assert (h + tail)[..RECORD] == h && (h + tail)[RECORD..] == tail;
  }

  function Flags(d: LocalDevice): (b: seq<byte>)
    ensures |b| == 6 && b[5] == CountByte(d)
  {
    [d.info.usbClass, 0, 0, 1, 1, CountByte(d)]
  }

  lemma Tail(h: seq<byte>, j: seq<byte>, rest: seq<byte>)
    ensures h + j + rest == h + (j + rest)
  {
  }

  lemma ReadBack(h: seq<byte>, w: seq<Word4>, rest: seq<byte>)
    requires |h| == RECORD && h[311] == |w|
    ensures ReadRecord(h + Join(w) + rest) == Some((HeaderRecord(h, w), |h + Join(w)|))
  {
    Tail(h, Join(w), rest);
    FirstWordsOfJoin(w, rest);
    ReadAfterHeader(h, Join(w) + rest, |w|);
  }

  lemma Misread(h: seq<byte>, w: seq<Word4>, rest: seq<byte>)
    requires |h| == RECORD && h[311] == 1 && |w| > 1
    ensures var r := ReadRecord(h + Join(w) + rest); r.Some? && r.value.0.interfaces != w
  {
    Tail(h, Join(w), rest);
    ReadAfterHeader(h, Join(w) + rest, 1);
  }

  // ---------------------------------------------------------------- what a client is shown

  /** A NUL-padded text of fixed size. */
  ghost predicate Holds(field: seq<byte>, text: seq<byte>, n: nat) {
    |field| == n && forall i :: 0 <= i < n ==> field[i] == if i < |text| && i < n - 1 then text[i] else 0
  }

  /** The code of a speed on the wire; there is no 4. */
  ghost predicate CodesSpeed(code: u32, speed: UsbSpeed) {
    match speed
    case Low => code == 1
    case Full => code == 2
    case High => code == 3
    case Super => code == 5
  }

  /** One word per interface: class, subclass, protocol, zero; a device without interfaces shows one of its own class. */
  ghost predicate ShowsInterfaces(words: seq<Word4>, d: LocalDevice) {
    if d.info.interfaces == [] then words == [[d.info.usbClass, 0, 0, 0]]
    else
      && |words| == |d.info.interfaces|
      && forall k :: 0 <= k < |words| ==>
           && words[k][0] == d.info.interfaces[k].interfaceClass && words[k][1] == d.info.interfaces[k].interfaceSubclass
           && words[k][2] == d.info.interfaces[k].interfaceProtocol && words[k][3] == 0
  }

  /** The six numbers of a record, in order. */
  ghost predicate ShowsNumbers(b: seq<byte>, d: LocalDevice) {
    && |b| == 18
    && U32Value(b[..4]) == BusNumber(d.info.busId) && U32Value(b[4..8]) == d.info.id
    && CodesSpeed(U32Value(b[8..12]), d.info.speed)
    && U16Value(b[12..14]) == d.info.vid && U16Value(b[14..16]) == d.info.pid && U16Value(b[16..18]) == 0x0100
  }

  /** Every field of a record shows what the device is. */
  ghost predicate ShowsDevice(rec: Record, d: LocalDevice) {
    && Holds(rec.path, Ascii("/sys/bus/usb/devices/") + d.info.busId, 256) && Holds(rec.busid, d.info.busId, 32)
    && ShowsNumbers(rec.numbers, d)
    && rec.usbClass == d.info.usbClass && rec.rest == [0, 0, 1, 1]
    && ShowsInterfaces(rec.interfaces, d)
  }

  lemma NumbersShow(d: LocalDevice)
    ensures ShowsNumbers(Numbers(d), d)
  {
    NumbersAt(d);
    SpeedIsCoded(d.info.speed);
  }

  lemma SpeedIsCoded(speed: UsbSpeed)
    ensures CodesSpeed(SpeedCode(speed), speed)
  {
  }

  lemma PaddedHolds(text: seq<byte>, n: nat)
    requires n > 0
    ensures Holds(Padded(text, n), text, n)
  {
  }

  lemma WordsShow(d: LocalDevice)
    ensures ShowsInterfaces(InterfaceWords(d), d)
  {
  }

  lemma RecordShows(d: LocalDevice)
    ensures ShowsDevice(RecordOf(d), d)
  {
    PaddedHolds(PathOf(d), 256);
    PaddedHolds(d.info.busId, 32);
    NumbersShow(d);
    WordsShow(d);
  }

  // ---------------------------------------------------------------- reading a record back

  /** A record whose count fits is read back whole, whatever follows it. */
  lemma RecordReadBack(d: LocalDevice, rest: seq<byte>)
    requires CountFits(d)
    ensures ReadRecord(DeviceBytes(d) + rest) == Some((RecordOf(d), |DeviceBytes(d)|)) && ShowsDevice(RecordOf(d), d)
  {
    RecordShows(d);
    HeaderRecordOf(d, InterfaceWords(d));
    ReadBack(DeviceHeader(d), InterfaceWords(d), rest);
  }

  /** One whose count does not fit is not. */
  lemma RecordMisread(d: LocalDevice, rest: seq<byte>)
    requires !CountFits(d)
    ensures var r := ReadRecord(DeviceBytes(d) + rest); r.Some? && r.value.0 != RecordOf(d)
  {
    Misread(DeviceHeader(d), InterfaceWords(d), rest);
  }

  // ---------------------------------------------------------------- the DEVLIST reply

  function ReplyHead(code: u16, count: nat): (b: seq<byte>)
    ensures |b| == 12 && b[8..] == U32Bytes(if count <= MAX_U32 then count else 0)
  {
    U16Bytes(VERSION_USBIP) + U16Bytes(code) + U32Bytes(0) + U32Bytes(if count <= MAX_U32 then count else 0)
  }

  function DevlistReply(devices: seq<LocalDevice>): seq<byte> {
    ReplyHead(REP_DEVLIST, |devices|) + Glue(DeviceBytes, devices)
  }

  /** Version 1.1.1, reply code 5, status 0. */
  predicate GoodHead(b: seq<byte>) {
    |b| >= 12 && b[..8] == [0x01, 0x11, 0x00, 0x05, 0, 0, 0, 0]
  }

  /** A client's reading of the whole reply: as many records as the count says, and nothing after them. */
  function ReadDevlist(b: seq<byte>): Option<seq<Record>> {
    if !GoodHead(b) then None
    else
      match ReadCount(ReadRecord, U32Value(b[8..12]), b[12..])
      case None => None
      case Some((records, rest)) => if rest == [] then Some(records) else None
  }

  lemma RecordReadIff(d: LocalDevice)
    ensures ReadOrMisread(ReadRecord, DeviceBytes, RecordOf, CountFits, d)
  {
    if CountFits(d) {
      forall rest ensures ReadRecord(DeviceBytes(d) + rest) == Some((RecordOf(d), |DeviceBytes(d)|)) {
        RecordReadBack(d, rest);
      }
    } else {
      forall rest ensures ReadRecord(DeviceBytes(d) + rest).Some? && ReadRecord(DeviceBytes(d) + rest).value.0 != RecordOf(d) {
        RecordMisread(d, rest);
      }
    }
  }

  lemma HeadIs(count: nat)
    ensures ReplyHead(REP_DEVLIST, count)[..8] == [0x01, 0x11, 0x00, 0x05, 0, 0, 0, 0]
  {
    assert U16Bytes(VERSION_USBIP) == [0x01, 0x11] && U16Bytes(REP_DEVLIST) == [0x00, 0x05];
    assert U32Bytes(0) == [0, 0, 0, 0];
  }

  lemma CountOnly(count: nat, body: seq<byte>)
    ensures var b := ReplyHead(REP_DEVLIST, count) + body;
            GoodHead(b) && U32Value(b[8..12]) == (if count <= MAX_U32 then count else 0) && b[12..] == body
  {
    var b := ReplyHead(REP_DEVLIST, count) + body;
    assert b[8..12] == ReplyHead(REP_DEVLIST, count)[8..];
    HeadIs(count);
    assert b[..8] == ReplyHead(REP_DEVLIST, count)[..8];
  }

  lemma RecordsReadIff(devices: seq<LocalDevice>)
    ensures ReadCount(ReadRecord, |devices|, Glue(DeviceBytes, devices)) == Some((Each(RecordOf, devices), [])) <==>
            AllFit(CountFits, devices)
  {
    forall i | 0 <= i < |devices| ensures ReadOrMisread(ReadRecord, DeviceBytes, RecordOf, CountFits, devices[i]) {
      RecordReadIff(devices[i]);
    }
    ReadCountIff(ReadRecord, DeviceBytes, RecordOf, CountFits, devices);
  }

  /** Reading a reply whose head is known. */
  lemma ReadDevlistOf(count: nat, body: seq<byte>, records: seq<Record>)
    requires count <= MAX_U32
    ensures ReadDevlist(ReplyHead(REP_DEVLIST, count) + body) == Some(records) <==>
            ReadCount(ReadRecord, count, body) == Some((records, []))
  {
    CountOnly(count, body);
  }

  lemma ReadDevlistOverflow(count: nat, body: seq<byte>, records: seq<Record>)
    requires count > MAX_U32 && records != []
    ensures ReadDevlist(ReplyHead(REP_DEVLIST, count) + body) != Some(records)
  {
    CountOnly(count, body);
  }

  /** A client recovers every record if and only if no device has more than 255 interfaces and the count fits. */
  lemma DevlistReadIff(devices: seq<LocalDevice>)
    ensures ReadDevlist(DevlistReply(devices)) == Some(Each(RecordOf, devices)) <==>
            |devices| <= MAX_U32 && AllFit(CountFits, devices)
    ensures forall i :: 0 <= i < |devices| ==> ShowsDevice(Each(RecordOf, devices)[i], devices[i])
  {
    forall i | 0 <= i < |devices| ensures ShowsDevice(Each(RecordOf, devices)[i], devices[i]) {
      RecordShows(devices[i]);
    }
    if |devices| <= MAX_U32 {
      ReadDevlistOf(|devices|, Glue(DeviceBytes, devices), Each(RecordOf, devices));
      RecordsReadIff(devices);
    } else {
      ReadDevlistOverflow(|devices|, Glue(DeviceBytes, devices), Each(RecordOf, devices));
    }
  }

  // ---------------------------------------------------------------- what a client learns

  /** A client that reads the reply learns every device, field by field, in order. */
  ghost predicate Teaches(reply: seq<byte>, devices: seq<LocalDevice>) {
    var r := ReadDevlist(reply);
    r.Some? && |r.value| == |devices| && forall i :: 0 <= i < |devices| ==> ShowsDevice(r.value[i], devices[i])
  }

  lemma DevlistTeaches(devices: seq<LocalDevice>)
    ensures |devices| <= MAX_U32 && AllFit(CountFits, devices) ==> Teaches(DevlistReply(devices), devices)
  {
    DevlistReadIff(devices);
  }

  /** The interfaces of any device on the wire, those whose number does not fit the count byte included. */
  lemma InterfaceBytesAt(d: LocalDevice, k: nat)
    requires k < |d.info.interfaces|
    ensures |DeviceBytes(d)| == 312 + 4 * |d.info.interfaces|
    ensures var f := d.info.interfaces[k];
            DeviceBytes(d)[312 + 4 * k..312 + 4 * k + 4] == [f.interfaceClass, f.interfaceSubclass, f.interfaceProtocol, 0]
  {
    var w := InterfaceWords(d);
    WordOfJoin(w, [], k);
    assert Join(w) + [] == Join(w);
    WordAfterHead(DeviceHeader(d), Join(w), k);
  }

  lemma WordAfterHead(h: seq<byte>, b: seq<byte>, k: nat)
    requires |h| == 312 && 4 * k + 4 <= |b|
    ensures (h + b)[312 + 4 * k..312 + 4 * k + 4] == WordAt(b, k)
  {
  }

  // ---------------------------------------------------------------- the two servers

  /** `encode_interfaces`. */
  method EncodeInterfaces(d: LocalDevice) returns (out: seq<byte>)
    ensures if d.info.interfaces == [] then out == [d.info.usbClass, 0, 0, 0]
            else |out| == 4 * |d.info.interfaces| && forall k :: 0 <= k < |d.info.interfaces| ==>
              WordAt(out, k) == [d.info.interfaces[k].interfaceClass, d.info.interfaces[k].interfaceSubclass,
                                 d.info.interfaces[k].interfaceProtocol, 0]
    ensures out == Join(InterfaceWords(d))
  {
    ghost var w := InterfaceWords(d);
    if d.info.interfaces == [] {
      out := [d.info.usbClass, 0, 0, 0];
      assert w[..0] == [];
      return;
    }
    out := [];
    for i := 0 to |d.info.interfaces|
      invariant out == Join(w[..i])
    {
      var f := d.info.interfaces[i];
      out := out + [f.interfaceClass, f.interfaceSubclass, f.interfaceProtocol, 0];
      assert w[..i + 1][..i] == w[..i];
    }
    assert w[..|w|] == w;
    AllWordsAre(w);
  }

  /** The head of the reply and the devices written so far, one more device, in one piece or two. */
  lemma OneMoreDevice(head: seq<byte>, devices: seq<LocalDevice>, i: nat)
    requires i < |devices|
    ensures head + Glue(DeviceBytes, devices[..i + 1]) == (head + Glue(DeviceBytes, devices[..i])) + DeviceBytes(devices[i])
  {
    GlueStep(DeviceBytes, devices, i);
    Tail(head, Glue(DeviceBytes, devices[..i]), DeviceBytes(devices[i]));
  }

  method DevlistHead(count: nat) returns (head: seq<byte>)
    ensures head == ReplyHead(REP_DEVLIST, count)
  {
    return U16Bytes(VERSION_USBIP) + U16Bytes(REP_DEVLIST) + U32Bytes(0) + U32Bytes(if count <= MAX_U32 then count else 0);
  }

  /** The proxy's turn: the header and the interfaces, each from a buffer of its own. */
  method ProxyDevice(reply: seq<byte>, d: LocalDevice) returns (out: seq<byte>)
    ensures out == reply + DeviceBytes(d)
  {
    var interfaces := EncodeInterfaces(d);
    Tail(reply, DeviceHeader(d), interfaces);
    return reply + DeviceHeader(d) + interfaces;
  }

  method ProxyDevices(head: seq<byte>, devices: seq<LocalDevice>) returns (reply: seq<byte>)
    ensures reply == head + Glue(DeviceBytes, devices)
  {
    reply := head;
    for i := 0 to |devices|
      invariant reply == head + Glue(DeviceBytes, devices[..i])
    {
      OneMoreDevice(head, devices, i);
      reply := ProxyDevice(reply, devices[i]);
    }
    assert devices[..|devices|] == devices;
  }

  /** The reply of the loopback proxy. */
  method ProxyDevlist(devices: seq<LocalDevice>) returns (reply: seq<byte>)
    ensures |devices| <= MAX_U32 && AllFit(CountFits, devices) ==> Teaches(reply, devices)
    ensures reply == DevlistReply(devices)
  {
    DevlistTeaches(devices);
    var head := DevlistHead(|devices|);
    reply := ProxyDevices(head, devices);
  }

  /** The forwarder's inner loop, which appends the interfaces straight to the reply. */
  method AppendInterfaces(reply: seq<byte>, d: LocalDevice) returns (out: seq<byte>)
    ensures out == reply + Join(InterfaceWords(d))
  {
    ghost var w := InterfaceWords(d);
    if d.info.interfaces == [] {
      assert w[..0] == [];
      return reply + [d.info.usbClass, 0, 0, 0];
    }
    out := reply;
    for i := 0 to |d.info.interfaces|
      invariant out == reply + Join(w[..i])
    {
      var f := d.info.interfaces[i];
      out := out + [f.interfaceClass, f.interfaceSubclass, f.interfaceProtocol, 0];
      assert w[..i + 1][..i] == w[..i];
    }
    assert w[..|w|] == w;
  }

  /** The forwarder's turn. */
  method ForwarderDevice(reply: seq<byte>, d: LocalDevice) returns (out: seq<byte>)
    ensures out == reply + DeviceBytes(d)
  {
    Tail(reply, DeviceHeader(d), Join(InterfaceWords(d)));
    out := AppendInterfaces(reply + DeviceHeader(d), d);
  }

  method ForwarderDevices(head: seq<byte>, devices: seq<LocalDevice>) returns (reply: seq<byte>)
    ensures reply == head + Glue(DeviceBytes, devices)
  {
    reply := head;
    for i := 0 to |devices|
      invariant reply == head + Glue(DeviceBytes, devices[..i])
    {
      OneMoreDevice(head, devices, i);
      reply := ForwarderDevice(reply, devices[i]);
    }
    assert devices[..|devices|] == devices;
  }

  /** The reply of the forwarder: byte for byte that of the proxy. */
  method ForwarderDevlist(devices: seq<LocalDevice>) returns (reply: seq<byte>)
    ensures |devices| <= MAX_U32 && AllFit(CountFits, devices) ==> Teaches(reply, devices)
    ensures reply == DevlistReply(devices)
  {
    DevlistTeaches(devices);
    var head := DevlistHead(|devices|);
    reply := ForwarderDevices(head, devices);
  }

  // ---------------------------------------------------------------- IMPORT

  function TrimNuls(s: seq<byte>): seq<byte> {
    if s == [] || s[|s| - 1] != 0 then s else TrimNuls(s[..|s| - 1])
  }

  /** The bus id a client asks for, from the 32 bytes it sends. */
  function Requested(busid: seq<byte>): seq<byte> {
    if ValidUtf8(busid) then TrimNuls(busid) else []
  }

  predicate EndsWithNul(s: seq<byte>) {
    s != [] && s[|s| - 1] == 0
  }

  lemma {:induction false} TrimPadding(s: seq<byte>, k: nat)
    ensures TrimNuls(s + Zeros(k)) == TrimNuls(s)
    decreases k
  {
    if k == 0 {
      assert s + Zeros(k) == s;
    } else {
      assert (s + Zeros(k))[..|s| + k - 1] == s + Zeros(k - 1);
      TrimPadding(s, k - 1);
    }
  }

  lemma {:induction false} TrimShrinks(s: seq<byte>)
    ensures |TrimNuls(s)| <= |s| && !EndsWithNul(TrimNuls(s)) && (TrimNuls(s) == s <==> !EndsWithNul(s))
  {
    if s != [] && s[|s| - 1] == 0 {
      TrimShrinks(s[..|s| - 1]);
    }
  }

  lemma PaddedValid(s: Utf8String, k: nat)
    ensures ValidUtf8(s + Zeros(k))
  {
    AsciiValid(Zeros(k));
    ConcatValid(s, Zeros(k));
  }

  /** Sending back the busid of a record asks for the device's bus id if and only if that is short and has no trailing NUL. */
  lemma EchoIff(busId: Utf8String)
    ensures Requested(Padded(busId, 32)) == busId <==> |busId| <= 31 && !EndsWithNul(busId)
  {
    var k := if |busId| < 31 then |busId| else 31;
    TrimPadding(busId[..k], 32 - k);
    TrimShrinks(busId[..k]);
    if |busId| <= 31 {
      assert busId[..k] == busId;
      PaddedValid(busId, 32 - k);
    }
  }

  /** What is trimmed is the trailing NULs, no more and no less; bytes that are no UTF-8 ask for the empty bus id. */
  lemma RequestedIs(busid: seq<byte>)
    ensures !ValidUtf8(busid) ==> Requested(busid) == []
    ensures ValidUtf8(busid) ==>
              var s := Requested(busid);
              && !EndsWithNul(s) && |s| <= |busid| && s == busid[..|s|]
              && forall i :: |s| <= i < |busid| ==> busid[i] == 0
  {
    TrimmedIs(busid);
  }

  lemma {:induction false} TrimmedIs(s: seq<byte>)
    ensures var t := TrimNuls(s);
            !EndsWithNul(t) && |t| <= |s| && t == s[..|t|] && forall i :: |t| <= i < |s| ==> s[i] == 0
  {
    if s != [] && s[|s| - 1] == 0 {
      TrimmedIs(s[..|s| - 1]);
    }
  }

  /** `Iterator::find` by bus id: the index of the first device that has it. */
  function FindBus(devices: seq<LocalDevice>, busId: seq<byte>): (r: Option<nat>)
    ensures match r
            case Some(i) => i < |devices| && devices[i].info.busId == busId && forall j :: 0 <= j < i ==> devices[j].info.busId != busId
            case None => forall j :: 0 <= j < |devices| ==> devices[j].info.busId != busId
  {
    if devices == [] then None
    else if devices[0].info.busId == busId then Some(0)
    else
      match FindBus(devices[1..], busId)
      case Some(i) =>
        assert forall j :: 0 < j < i + 1 ==> devices[j] == devices[1..][j - 1];
        Some(i + 1)
      case None =>
        assert forall j :: 0 < j < |devices| ==> devices[j] == devices[1..][j - 1];
        None
  }

  /** Importing by the busid of the i-th record opens the first device with that device's bus id. */
  lemma EchoImportsFirst(devices: seq<LocalDevice>, i: nat)
    requires i < |devices| && |devices[i].info.busId| <= 31 && !EndsWithNul(devices[i].info.busId)
    ensures var found := FindBus(devices, Requested(RecordOf(devices[i]).busid));
            && found.Some? && found.value <= i && devices[found.value].info.busId == devices[i].info.busId
            && forall j :: 0 <= j < found.value ==> devices[j].info.busId != devices[i].info.busId
  {
    EchoIff(devices[i].info.busId);
  }
}
