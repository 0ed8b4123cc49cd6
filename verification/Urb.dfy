/** The in-process USB emulator: crates/farbus-core/src/urb.rs. */
module Urb {
  import opened Bytes
  import opened Messages

  const MAX_DATA: nat := 65_536

  const KEYBOARD: seq<byte> := [18, 1, 0x00, 0x02, 0, 0, 0, 8, 0x6d, 0x04, 0x1c, 0xc3, 0x00, 0x01, 1, 2, 0, 1]
  const SERIAL: seq<byte> := [18, 1, 0x00, 0x02, 0xff, 0, 0, 8, 0x03, 0x04, 0x01, 0x60, 0x00, 0x06, 1, 2, 0, 1]
  const STORAGE: seq<byte> := [18, 1, 0x00, 0x02, 8, 6, 80, 64, 0x81, 0x07, 0x67, 0x55, 0x00, 0x01, 1, 2, 0, 1]

  /** The top bit of an endpoint address says that data flows towards the host. */
  predicate IsIn(endpoint: byte) {
    endpoint >= 0x80
  }

  function Clamp(n: nat, low: nat, high: nat): nat
    requires low <= high
  {
    if n < low then low else if n > high then high else n
  }

  function Ramp(length: nat): seq<byte> {
    seq(length, i => i % 251)
  }

  /** What a completion may be for a submission: its sequence number, and no more data than a frame carries. */
  predicate Fits(submit: UrbSubmit, complete: UrbComplete) {
    complete.seqNum == submit.seqNum && |complete.data| <= MAX_DATA
  }

  function ControlData(submit: UrbSubmit): (data: seq<byte>)
    ensures data == [] || (|data| == 18 && data[..2] == [18, 1])
  {
    if |submit.data| >= 8 && submit.data[1] == 0x06 then
      if submit.deviceId == 1 then KEYBOARD else if submit.deviceId == 2 then SERIAL else STORAGE
    else []
  }

  function EmulatedData(submit: UrbSubmit): (data: seq<byte>) {
    match submit.transfer
    case Control => ControlData(submit)
    case Interrupt => if IsIn(submit.endpoint) then [0x00, 0x41, 0x00, 0x00, 0x00, 0x00, 0x00, 0x00] else []
    case Bulk => if IsIn(submit.endpoint) then Ramp(Clamp(submit.requestedLength, 1, MAX_DATA)) else []
    case Isochronous => []
  }

  /**
   `complete_urb`.  It stalls isochronous transfers only, answers every submission under its own
   sequence number, and stays within the data limit even where it exceeds the requested length.
   */
  function EmulatorComplete(submit: UrbSubmit): (complete: UrbComplete)
    ensures Fits(submit, complete)
    ensures complete.status == -32 <==> submit.transfer.Isochronous?
    ensures submit.transfer.Bulk? && IsIn(submit.endpoint) && 1 <= submit.requestedLength <= MAX_DATA
            ==> |complete.data| == submit.requestedLength
  {
    UrbComplete(submit.seqNum, if submit.transfer.Isochronous? then -32 else 0, EmulatedData(submit))
  }

  /** The emulator answers with more than was asked for in exactly these cases. */
  lemma EmulatorExceedsIff(submit: UrbSubmit)
    ensures |EmulatorComplete(submit).data| > submit.requestedLength <==>
            match submit.transfer
            case Control => |submit.data| >= 8 && submit.data[1] == 0x06 && submit.requestedLength < 18
            case Interrupt => IsIn(submit.endpoint) && submit.requestedLength < 8
            case Bulk => IsIn(submit.endpoint) && submit.requestedLength == 0
            case Isochronous => false
  {
    match submit.transfer
    case Bulk => assert |EmulatedData(submit)| == if IsIn(submit.endpoint) then Clamp(submit.requestedLength, 1, MAX_DATA) else 0;
    case _ =>
  }

  /** A USB 2.00 device descriptor with one configuration, by its little-endian vendor and product. */
  ghost predicate Describes(data: seq<byte>, class_: byte, packet: byte, vendor: int, product: int) {
    && |data| == 18 && data[0] == 18 && data[1] == 1 && data[2] == 0x00 && data[3] == 0x02
    && data[4] == class_ && data[7] == packet && data[17] == 1
    && data[8] as int + 256 * (data[9] as int) == vendor && data[10] as int + 256 * (data[11] as int) == product
  }

  /**
   What the emulator answers: device 1 is a keyboard, 2 a serial adapter, all others mass storage; a
   keyboard reports the letter A, and a bulk read yields as many bytes as asked for, at least one and at
   most 65,536, counting up modulo 251; everything else yields nothing.
   */
  lemma EmulatorAnswers(submit: UrbSubmit)
    ensures var data := EmulatorComplete(submit).data;
            match submit.transfer
            case Control => AnswersControl(submit, data)
            case Interrupt => data == if submit.endpoint >= 128 then [0, 65, 0, 0, 0, 0, 0, 0] else []
            case Bulk => AnswersBulk(submit, data)
            case Isochronous => data == []
  {
    match submit.transfer
    case Control => ControlAnswers(submit);
    case Bulk => BulkAnswers(submit);
    case _ =>
  }

  ghost predicate AnswersControl(submit: UrbSubmit, data: seq<byte>) {
    if |submit.data| >= 8 && submit.data[1] == 6 then
      if submit.deviceId == 1 then Describes(data, 0, 8, 0x046d, 0xc31c)
      else if submit.deviceId == 2 then Describes(data, 0xff, 8, 0x0403, 0x6001)
      else Describes(data, 8, 64, 0x0781, 0x5567)
    else data == []
  }

  ghost predicate AnswersBulk(submit: UrbSubmit, data: seq<byte>) {
    if submit.endpoint < 128 then data == []
    else
      && (1 <= submit.requestedLength <= 65_536 ==> |data| == submit.requestedLength)
      && (submit.requestedLength == 0 ==> |data| == 1) && (submit.requestedLength > 65_536 ==> |data| == 65_536)
      && forall i :: 0 <= i < |data| ==> data[i] == i % 251
  }

  lemma ControlAnswers(submit: UrbSubmit)
    ensures AnswersControl(submit, ControlData(submit))
  {
  }

  lemma BulkAnswers(submit: UrbSubmit)
    requires submit.transfer.Bulk?
    ensures AnswersBulk(submit, EmulatedData(submit))
  {
  }

  /** The loop of `bulk_complete`, over the buffer it fills in place. */
  method FillRamp(buffer: array<byte>)
    modifies buffer
    ensures forall i :: 0 <= i < buffer.Length ==> buffer[i] == i % 251
    ensures buffer[..] == Ramp(buffer.Length)
  {
    for i := 0 to buffer.Length
      invariant buffer[..i] == Ramp(i)
    {
      buffer[i] := i % 251;
    }
  }

  method BulkComplete(submit: UrbSubmit) returns (complete: UrbComplete)
    requires submit.transfer.Bulk?
    ensures complete == EmulatorComplete(submit)
  {
    if IsIn(submit.endpoint) {
      var requested := Clamp(submit.requestedLength, 1, MAX_DATA);
      var buffer := new byte[requested](_ => 0);
      FillRamp(buffer);
      return UrbComplete(submit.seqNum, 0, buffer[..]);
    }
    return UrbComplete(submit.seqNum, 0, []);
  }
}
