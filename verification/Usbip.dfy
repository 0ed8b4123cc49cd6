/**
 The USB/IP 1.1 transfer messages of crates/farbus-protocol/src/usbip.rs: fixed 48-byte headers of
 ten big-endian words and eight bytes of setup data or padding, each as a list of 4-byte words.
 */
module Usbip {
  import opened Results
  import opened Bytes
  import opened Messages
  import opened Urb
  import Codec

  const HEADER: nat := 48
  const CMD_SUBMIT: u32 := 1
  const CMD_UNLINK: u32 := 2
  const RET_SUBMIT: u32 := 3
  const RET_UNLINK: u32 := 4

  datatype UsbipError = ShortHeader

  datatype CmdSubmit = CmdSubmit(
    seqnum: u32, devid: u32, direction: u32, ep: u32, transferFlags: u32, bufferLength: u32, startFrame: u32,
    packets: u32, interval: u32, setup: Bytes8)

  datatype RetSubmit = RetSubmit(
    seqnum: u32, devid: u32, direction: u32, ep: u32, status: i32, actualLength: u32, startFrame: u32,
    packets: u32, errorCount: i32, setup: Bytes8)

  datatype CmdUnlink = CmdUnlink(seqnum: u32, devid: u32, direction: u32, ep: u32, unlinkSeqnum: u32)

  datatype RetUnlink = RetUnlink(seqnum: u32, devid: u32, direction: u32, ep: u32, status: i32)

  // ---------------------------------------------------------------- words

  type Word4 = s: seq<byte> | |s| == 4 witness [0, 0, 0, 0]

  function Join(words: seq<Word4>): (b: seq<byte>)
    ensures |b| == 4 * |words|
  {
    if words == [] then [] else Join(words[..|words| - 1]) + words[|words| - 1]
  }

  /** The k-th word of a byte string. */
  function WordAt(b: seq<byte>, k: nat): Word4
    requires 4 * k + 4 <= |b|
  {
    b[4 * k..4 * k + 4]
  }

  lemma {:induction false} WordOfJoin(words: seq<Word4>, rest: seq<byte>, k: nat)
    requires k < |words|
    ensures WordAt(Join(words) + rest, k) == words[k]
    decreases |words|
  {
    var n := |words| - 1;
    var front := Join(words[..n]);
    assert Join(words) + rest == front + (words[n] + rest);
    if k < n {
      WordOfJoin(words[..n], words[n] + rest, k);
    } else {
      assert WordAt(front + (words[n] + rest), k) == (words[n] + rest)[..4];
    }
  }

  lemma {:induction false} JoinOfWords(b: seq<byte>, words: seq<Word4>)
    requires |b| == 4 * |words| && forall k :: 0 <= k < |words| ==> WordAt(b, k) == words[k]
    ensures Join(words) == b
    decreases |words|
  {
    if words != [] {
      var n := |words| - 1;
      var front := b[..4 * n];
      forall k | 0 <= k < n ensures WordAt(front, k) == words[..n][k] {
        assert WordAt(front, k) == WordAt(b, k);
      }
      JoinOfWords(front, words[..n]);
      assert b == front + WordAt(b, n);
    }
  }

  // ---------------------------------------------------------------- headers as words

  function SetupOf(a: seq<byte>, b: seq<byte>): Bytes8
    requires |a| == 4 && |b| == 4
  {
    a + b
  }

  function SubmitWords(c: CmdSubmit): seq<Word4> {
    [U32Bytes(CMD_SUBMIT), U32Bytes(c.seqnum), U32Bytes(c.devid), U32Bytes(c.direction), U32Bytes(c.ep),
     U32Bytes(c.transferFlags), U32Bytes(c.bufferLength), U32Bytes(c.startFrame), U32Bytes(c.packets),
     U32Bytes(c.interval), c.setup[..4], c.setup[4..]]
  }

  function SubmitOf(w: seq<Word4>): CmdSubmit
    requires |w| == 12
  {
    CmdSubmit(U32Value(w[1]), U32Value(w[2]), U32Value(w[3]), U32Value(w[4]), U32Value(w[5]), U32Value(w[6]),
              U32Value(w[7]), U32Value(w[8]), U32Value(w[9]), SetupOf(w[10], w[11]))
  }

  function RetSubmitWords(r: RetSubmit): seq<Word4> {
    [U32Bytes(RET_SUBMIT), U32Bytes(r.seqnum), U32Bytes(r.devid), U32Bytes(r.direction), U32Bytes(r.ep),
     I32Bytes(r.status), U32Bytes(r.actualLength), U32Bytes(r.startFrame), U32Bytes(r.packets),
     I32Bytes(r.errorCount), r.setup[..4], r.setup[4..]]
  }

  function RetSubmitOf(w: seq<Word4>): RetSubmit
    requires |w| == 12
  {
    RetSubmit(U32Value(w[1]), U32Value(w[2]), U32Value(w[3]), U32Value(w[4]), I32Value(w[5]), U32Value(w[6]),
              U32Value(w[7]), U32Value(w[8]), I32Value(w[9]), SetupOf(w[10], w[11]))
  }

  const ZERO: Word4 := [0, 0, 0, 0]

  function UnlinkWords(c: CmdUnlink): seq<Word4> {
    [U32Bytes(CMD_UNLINK), U32Bytes(c.seqnum), U32Bytes(c.devid), U32Bytes(c.direction), U32Bytes(c.ep),
     U32Bytes(c.unlinkSeqnum), ZERO, ZERO, ZERO, ZERO, ZERO, ZERO]
  }

  function UnlinkOf(w: seq<Word4>): CmdUnlink
    requires |w| == 12
  {
    CmdUnlink(U32Value(w[1]), U32Value(w[2]), U32Value(w[3]), U32Value(w[4]), U32Value(w[5]))
  }

  function RetUnlinkWords(r: RetUnlink): seq<Word4> {
    [U32Bytes(RET_UNLINK), U32Bytes(r.seqnum), U32Bytes(r.devid), U32Bytes(r.direction), U32Bytes(r.ep),
     I32Bytes(r.status), ZERO, ZERO, ZERO, ZERO, ZERO, ZERO]
  }

  function RetUnlinkOf(w: seq<Word4>): RetUnlink
    requires |w| == 12
  {
    RetUnlink(U32Value(w[1]), U32Value(w[2]), U32Value(w[3]), U32Value(w[4]), I32Value(w[5]))
  }

  /** The twelve words of a header. */
  function HeaderWords(b: seq<byte>): (w: seq<Word4>)
    requires |b| >= HEADER
    ensures |w| == 12
  {
    seq(12, k requires 0 <= k < 12 => WordAt(b, k))
  }

  lemma HeaderWordsOfJoin(words: seq<Word4>, rest: seq<byte>)
    requires |words| == 12
    ensures HeaderWords(Join(words) + rest) == words
  {
    forall k | 0 <= k < 12 ensures HeaderWords(Join(words) + rest)[k] == words[k] {
      WordOfJoin(words, rest, k);
    }
  }

  lemma JoinOfHeaderWords(b: seq<byte>)
    requires |b| == HEADER
    ensures Join(HeaderWords(b)) == b
  {
    JoinOfWords(b, HeaderWords(b));
  }

  // ---------------------------------------------------------------- encoding and decoding

  function EncodeCmdSubmit(c: CmdSubmit): (b: seq<byte>)
    ensures |b| == HEADER
  {
    Join(SubmitWords(c))
  }

  /** Like the source, looks neither at the command word nor past byte 48. */
  function DecodeCmdSubmit(b: seq<byte>): Result<CmdSubmit, UsbipError> {
    if |b| < HEADER then Err(ShortHeader) else Ok(SubmitOf(HeaderWords(b)))
  }

  function EncodeRetSubmit(r: RetSubmit): (b: seq<byte>)
    ensures |b| == HEADER
  {
    Join(RetSubmitWords(r))
  }

  function DecodeRetSubmit(b: seq<byte>): Result<RetSubmit, UsbipError> {
    if |b| < HEADER then Err(ShortHeader) else Ok(RetSubmitOf(HeaderWords(b)))
  }

  /** What a USB/IP client sends; the bridge only decodes it. */
  function EncodeCmdUnlink(c: CmdUnlink): (b: seq<byte>)
    ensures |b| == HEADER
  {
    Join(UnlinkWords(c))
  }

  function DecodeCmdUnlink(b: seq<byte>): Result<CmdUnlink, UsbipError> {
    if |b| < HEADER then Err(ShortHeader) else Ok(UnlinkOf(HeaderWords(b)))
  }

  function EncodeRetUnlink(r: RetUnlink): (b: seq<byte>)
    ensures |b| == HEADER
  {
    Join(RetUnlinkWords(r))
  }

  /** What a USB/IP client reads; the bridge only encodes it. */
  function DecodeRetUnlink(b: seq<byte>): Result<RetUnlink, UsbipError> {
    if |b| < HEADER then Err(ShortHeader) else Ok(RetUnlinkOf(HeaderWords(b)))
  }

  /** The command word of a header. */
  function CommandOf(b: seq<byte>): u32
    requires |b| >= HEADER
  {
    U32Value(WordAt(b, 0))
  }

  lemma HeaderPrefix(b: seq<byte>)
    requires |b| >= HEADER
    ensures HeaderWords(b[..HEADER]) == HeaderWords(b) && CommandOf(b[..HEADER]) == CommandOf(b)
  {
    forall k | 0 <= k < 12 ensures WordAt(b[..HEADER], k) == WordAt(b, k) {
    }
  }

  lemma SubmitOfWords(c: CmdSubmit)
    ensures SubmitOf(SubmitWords(c)) == c
  {
    assert c.setup == c.setup[..4] + c.setup[4..];
  }

  lemma SubmitWordsOf(w: seq<Word4>)
    requires |w| == 12 && U32Value(w[0]) == CMD_SUBMIT
    ensures SubmitWords(SubmitOf(w)) == w
  {
    forall k | 0 <= k < 10 ensures U32Bytes(U32Value(w[k])) == w[k] {
      U32BytesOfValue(w[k]);
    }
    assert SetupOf(w[10], w[11])[..4] == w[10] && SetupOf(w[10], w[11])[4..] == w[11];
  }

  lemma RetSubmitOfWords(r: RetSubmit)
    ensures RetSubmitOf(RetSubmitWords(r)) == r
  {
    assert r.setup == r.setup[..4] + r.setup[4..];
  }

  lemma RetSubmitWordsOf(w: seq<Word4>)
    requires |w| == 12 && U32Value(w[0]) == RET_SUBMIT
    ensures RetSubmitWords(RetSubmitOf(w)) == w
  {
    forall k | 0 <= k < 10 ensures U32Bytes(U32Value(w[k])) == w[k] && I32Bytes(I32Value(w[k])) == w[k] {
      U32BytesOfValue(w[k]);
      I32BytesOfValue(w[k]);
    }
    assert SetupOf(w[10], w[11])[..4] == w[10] && SetupOf(w[10], w[11])[4..] == w[11];
  }

  /** Decoding undoes encoding, whatever follows the header. */
  lemma CmdSubmitRoundTrip(c: CmdSubmit, rest: seq<byte>)
    ensures DecodeCmdSubmit(EncodeCmdSubmit(c) + rest) == Ok(c)
    ensures CommandOf(EncodeCmdSubmit(c) + rest) == CMD_SUBMIT
  {
    HeaderWordsOfJoin(SubmitWords(c), rest);
    SubmitOfWords(c);
    WordOfJoin(SubmitWords(c), rest, 0);
  }

  /** Encoding undoes decoding of any 48 bytes that bear the command word, so no two headers decode alike. */
  lemma CmdSubmitCanonical(b: seq<byte>, c: CmdSubmit)
    requires |b| == HEADER && CommandOf(b) == CMD_SUBMIT && DecodeCmdSubmit(b) == Ok(c)
    ensures EncodeCmdSubmit(c) == b
  {
    SubmitWordsOf(HeaderWords(b));
    JoinOfHeaderWords(b);
  }

  lemma RetSubmitRoundTrip(r: RetSubmit, rest: seq<byte>)
    ensures DecodeRetSubmit(EncodeRetSubmit(r) + rest) == Ok(r)
    ensures CommandOf(EncodeRetSubmit(r) + rest) == RET_SUBMIT
  {
    HeaderWordsOfJoin(RetSubmitWords(r), rest);
    RetSubmitOfWords(r);
    WordOfJoin(RetSubmitWords(r), rest, 0);
  }

  lemma RetSubmitCanonical(b: seq<byte>, r: RetSubmit)
    requires |b| == HEADER && CommandOf(b) == RET_SUBMIT && DecodeRetSubmit(b) == Ok(r)
    ensures EncodeRetSubmit(r) == b
  {
    RetSubmitWordsOf(HeaderWords(b));
    JoinOfHeaderWords(b);
  }

  lemma CmdUnlinkRoundTrip(c: CmdUnlink, rest: seq<byte>)
    ensures DecodeCmdUnlink(EncodeCmdUnlink(c) + rest) == Ok(c)
    ensures CommandOf(EncodeCmdUnlink(c) + rest) == CMD_UNLINK
  {
    HeaderWordsOfJoin(UnlinkWords(c), rest);
    WordOfJoin(UnlinkWords(c), rest, 0);
  }

  lemma RetUnlinkRoundTrip(r: RetUnlink, rest: seq<byte>)
    ensures DecodeRetUnlink(EncodeRetUnlink(r) + rest) == Ok(r)
    ensures CommandOf(EncodeRetUnlink(r) + rest) == RET_UNLINK
  {
    HeaderWordsOfJoin(RetUnlinkWords(r), rest);
    WordOfJoin(RetUnlinkWords(r), rest, 0);
  }

  // ---------------------------------------------------------------- the headers, byte by byte

  /** The big-endian word at byte `i`. */
  ghost predicate IsWord(b: seq<byte>, i: nat, x: int) {
    i + 4 <= |b| && U32Value(b[i..i + 4]) == x
  }

  ghost predicate IsSigned(b: seq<byte>, i: nat, x: int) {
    i + 4 <= |b| && I32Value(b[i..i + 4]) == x
  }

  /** The words that every header begins with. */
  ghost predicate Begins(b: seq<byte>, command: u32, seqnum: u32, devid: u32, direction: u32, ep: u32) {
    && |b| == 48
    && IsWord(b, 0, command) && IsWord(b, 4, seqnum) && IsWord(b, 8, devid) && IsWord(b, 12, direction) && IsWord(b, 16, ep)
  }

  lemma WordsAre(words: seq<Word4>, k: nat)
    requires k < |words|
    ensures Join(words)[4 * k..4 * k + 4] == words[k]
  {
    WordOfJoin(words, [], k);
    assert Join(words) + [] == Join(words);
  }

  lemma AllWordsAre(words: seq<Word4>)
    ensures forall k :: 0 <= k < |words| ==> WordAt(Join(words), k) == words[k]
  {
    forall k | 0 <= k < |words| ensures WordAt(Join(words), k) == words[k] {
      WordsAre(words, k);
    }
  }

  lemma TwelveWords(b: seq<byte>, w: seq<Word4>)
    requires |w| == 12 && |b| == 48 && forall k :: 0 <= k < 12 ==> WordAt(b, k) == w[k]
    ensures b[0..4] == w[0] && b[4..8] == w[1] && b[8..12] == w[2] && b[12..16] == w[3] && b[16..20] == w[4] && b[20..24] == w[5]
    ensures b[24..28] == w[6] && b[28..32] == w[7] && b[32..36] == w[8] && b[36..40] == w[9] && b[40..48] == SetupOf(w[10], w[11])
  {
    assert b[40..48] == SetupOf(WordAt(b, 10), WordAt(b, 11));
    assert WordAt(b, 0) == w[0] && WordAt(b, 1) == w[1] && WordAt(b, 2) == w[2] && WordAt(b, 3) == w[3];
    assert WordAt(b, 4) == w[4] && WordAt(b, 5) == w[5] && WordAt(b, 6) == w[6] && WordAt(b, 7) == w[7];
    assert WordAt(b, 8) == w[8] && WordAt(b, 9) == w[9];
  }

  /** CMD_SUBMIT of USB/IP 1.1, field by field. */
  lemma CmdSubmitLaid(c: CmdSubmit)
    ensures var b := EncodeCmdSubmit(c);
            && Begins(b, 1, c.seqnum, c.devid, c.direction, c.ep)
            && IsWord(b, 20, c.transferFlags) && IsWord(b, 24, c.bufferLength) && IsWord(b, 28, c.startFrame)
            && IsWord(b, 32, c.packets) && IsWord(b, 36, c.interval) && b[40..48] == c.setup
  {
    AllWordsAre(SubmitWords(c));
    TwelveWords(EncodeCmdSubmit(c), SubmitWords(c));
    assert c.setup[..4] + c.setup[4..] == c.setup;
  }

  lemma RetSubmitLaid(r: RetSubmit)
    ensures var b := EncodeRetSubmit(r);
            && Begins(b, 3, r.seqnum, r.devid, r.direction, r.ep)
            && IsSigned(b, 20, r.status) && IsWord(b, 24, r.actualLength) && IsWord(b, 28, r.startFrame)
            && IsWord(b, 32, r.packets) && IsSigned(b, 36, r.errorCount) && b[40..48] == r.setup
  {
    AllWordsAre(RetSubmitWords(r));
    TwelveWords(EncodeRetSubmit(r), RetSubmitWords(r));
    assert r.setup[..4] + r.setup[4..] == r.setup;
  }

  lemma CmdUnlinkLaid(c: CmdUnlink)
    ensures var b := EncodeCmdUnlink(c);
            Begins(b, 2, c.seqnum, c.devid, c.direction, c.ep) && IsWord(b, 20, c.unlinkSeqnum) && b[24..48] == seq(24, i => 0)
  {
    AllWordsAre(UnlinkWords(c));
    TwelveWords(EncodeCmdUnlink(c), UnlinkWords(c));
    SixZeroWords(EncodeCmdUnlink(c));
  }

  lemma RetUnlinkLaid(r: RetUnlink)
    ensures var b := EncodeRetUnlink(r);
            Begins(b, 4, r.seqnum, r.devid, r.direction, r.ep) && IsSigned(b, 20, r.status) && b[24..48] == seq(24, i => 0)
  {
    AllWordsAre(RetUnlinkWords(r));
    TwelveWords(EncodeRetUnlink(r), RetUnlinkWords(r));
    SixZeroWords(EncodeRetUnlink(r));
  }

  lemma SixZeroWords(b: seq<byte>)
    requires |b| == 48 && b[24..28] == ZERO && b[28..32] == ZERO && b[32..36] == ZERO && b[36..40] == ZERO && b[40..48] == SetupOf(ZERO, ZERO)
    ensures b[24..48] == seq(24, i => 0)
  {
    assert b[24..48] == b[24..28] + b[28..32] + b[32..36] + b[36..40] + b[40..48];
  }

  // ---------------------------------------------------------------- from USB/IP to FarBus

  /** `urb_submit_data`: what of a USB/IP submission travels as data. */
  function SubmitData(ep: u32, direction: u32, setup: Bytes8, payload: seq<byte>): (data: seq<byte>)
    ensures |data| <= 8 + |payload|
  {
    if ep == 0 then setup + if direction == 0 then payload else []
    else if direction == 0 then payload
    else []
  }

  function TransferOf(c: CmdSubmit): TransferType {
    if c.ep == 0 then Control
    else if c.ep % 0x100 >= 0x80 && c.bufferLength <= 64 then Interrupt
    else Bulk
  }

  /** The submission the bridge makes of a command and the payload it read for it. */
  function UrbOf(c: CmdSubmit, device: DeviceId, payload: seq<byte>): UrbSubmit {
    UrbSubmit(c.seqnum, device, if c.ep <= 0xff then c.ep else 0, TransferOf(c), c.bufferLength,
              SubmitData(c.ep, c.direction, c.setup, payload))
  }

  /**
   The device gets what the USB/IP client sent: setup bytes, payload, length, sequence number and
   endpoint; the transfer type is guessed from the endpoint and the length.
   */
  lemma SubmissionKeepsPayload(c: CmdSubmit, device: DeviceId, payload: seq<byte>)
    requires |payload| == PayloadLength(c)
    ensures var urb := UrbOf(c, device, payload);
            && urb.seqNum == c.seqnum && urb.deviceId == device && urb.requestedLength == c.bufferLength
            && (c.ep == 0 ==> |urb.data| >= 8 && urb.data[..8] == c.setup && urb.data[8..] == payload)
            && (c.ep != 0 ==> urb.data == payload)
            && urb.endpoint == (if c.ep <= 255 then c.ep else 0)
            && (urb.transfer == Control <==> c.ep == 0) && urb.transfer != Isochronous
            && (urb.transfer == Interrupt <==> c.ep % 256 >= 128 && c.bufferLength <= 64)
  {
  }

  /** How many payload bytes follow a command on the stream. */
  function PayloadLength(c: CmdSubmit): nat {
    if c.direction == 0 then c.bufferLength else 0
  }

  lemma SubmitEncodesIff(urb: UrbSubmit)
    ensures Codec.Encode(SubmitUrb(urb)).Ok? <==> |urb.data| <= MAX_PAYLOAD - 18
  {
  }

  lemma CompletionEncodesIff(c: UrbComplete)
    ensures Codec.Encode(CompleteUrb(c)).Ok? <==> |c.data| <= MAX_PAYLOAD - 12
  {
  }

  /** Whatever passes the 65,536-byte cap of the USB/IP side fits a FarBus frame. */
  lemma CappedSubmitEncodes(c: CmdSubmit, device: DeviceId, payload: seq<byte>)
    requires c.bufferLength <= MAX_DATA && |payload| == PayloadLength(c)
    ensures Codec.Encode(SubmitUrb(UrbOf(c, device, payload))).Ok?
  {
    SubmitEncodesIff(UrbOf(c, device, payload));
  }

  /** Every completion within the data limit fits a frame, and comes back whole. */
  lemma CappedCompletionTravels(submit: UrbSubmit, c: UrbComplete)
    requires Fits(submit, c)
    ensures Codec.Encode(CompleteUrb(c)).Ok?
    ensures Codec.Decode(Codec.Encode(CompleteUrb(c)).value) == Ok(CompleteUrb(c))
  {
    CompletionEncodesIff(c);
    Codec.DecodeEncode(CompleteUrb(c));
  }
}
