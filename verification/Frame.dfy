/**
 The buffering frame reader of crates/farbus-core/src/frame.rs: what one call does, for any
 read sizes and any interruption, and the reassembly of a whole stream.
 */
module Frame {
  import opened Results
  import opened Bytes
  import opened Messages
  import opened Codec
  import CodecMethods

  // ---------------------------------------------------------------- the transport

  /** What the transport does at one read: hand over at most `n` bytes, or interrupt the call. */
  datatype ReadEvent = Deliver(n: nat) | EndOfFile | Broken | Cancel

  datatype ReadResult = Data(bytes: seq<byte>) | NoBytes | ReadError | Dropped

  /**
   The result of reading into a chunk of `max` bytes when `pending` is still in transit.  A read
   with nothing to deliver, or with no event left, never completes: its call is abandoned.
   */
  function NextRead(pending: seq<byte>, events: seq<ReadEvent>, max: nat): (r: ReadResult)
    ensures r.Data? ==> r.bytes != [] && |r.bytes| <= max && r.bytes <= pending && events != []
  {
    if events == [] then Dropped
    else match events[0]
      case Deliver(n) =>
        var wanted := if n == 0 then 1 else n;
        var allowed := if wanted < max then wanted else max;
        var k := if allowed < |pending| then allowed else |pending|;
        if k == 0 then Dropped else Data(pending[..k])
      case EndOfFile => NoBytes
      case Broken => ReadError
      case Cancel => Dropped
  }

  // ---------------------------------------------------------------- one call

  function DeclaredLength(buffer: seq<byte>): u32
    requires |buffer| >= HEADER_LEN
  {
    U32Value(buffer[6..10])
  }

  /** The first frame of the buffer, once it is complete: the message and the bytes it used. */
  function TryDecode(buffer: seq<byte>): (r: Result<Option<(Result<Message, ProtocolError>, nat)>, ProtocolError>)
    ensures r.Ok? && r.value.Some? ==> HEADER_LEN <= r.value.value.1 <= |buffer|
  {
    if |buffer| < HEADER_LEN then Ok(None)
    else if DeclaredLength(buffer) > MAX_PAYLOAD then Err(PayloadTooLarge(DeclaredLength(buffer), MAX_PAYLOAD))
    else
      var frameLen := HEADER_LEN + DeclaredLength(buffer);
      if |buffer| < frameLen then Ok(None) else Ok(Some((Decode(buffer[..frameLen]), frameLen)))
  }

  /** How many bytes the reader asks the transport for. */
  function BytesNeeded(buffer: seq<byte>): (r: Result<nat, ProtocolError>) {
    if |buffer| < HEADER_LEN then Ok(HEADER_LEN - |buffer|)
    else if DeclaredLength(buffer) > MAX_PAYLOAD then Err(PayloadTooLarge(DeclaredLength(buffer), MAX_PAYLOAD))
    else
      var frameLen := HEADER_LEN + DeclaredLength(buffer);
      Ok(if frameLen <= |buffer| then 1 else frameLen - |buffer|)
  }

  datatype Outcome =
    | Received(message: Message)
    | Malformed(error: ProtocolError)
    | UnexpectedEof
    | IoError
    | Abandoned

  /** What a call returned, and the reader and transport it left behind. */
  datatype Call = Call(outcome: Outcome, buffer: seq<byte>, pending: seq<byte>, events: seq<ReadEvent>)

  function ReadCall(buffer: seq<byte>, pending: seq<byte>, events: seq<ReadEvent>): Call
    decreases |events|
  {
    match TryDecode(buffer)
    case Err(e) => Call(Malformed(e), buffer, pending, events)
    case Ok(Some(frame)) =>
      Call(match frame.0 case Ok(m) => Received(m) case Err(e) => Malformed(e), buffer[frame.1..], pending, events)
    case Ok(None) =>
      match BytesNeeded(buffer)
      case Err(e) => Call(Malformed(e), buffer, pending, events)
      case Ok(needed) =>
        match NextRead(pending, events, needed)
        case Data(bytes) => ReadCall(buffer + bytes, pending[|bytes|..], events[1..])
        case NoBytes => Call(UnexpectedEof, buffer, pending, events[1..])
        case ReadError => Call(IoError, buffer, pending, events[1..])
        case Dropped => Call(Abandoned, buffer, pending, if events == [] then [] else events[1..])
  }

  /** The buffer holds no byte beyond the end of the frame it is collecting. */
  ghost predicate Aligned(buffer: seq<byte>) {
    |buffer| >= HEADER_LEN ==> |buffer| <= HEADER_LEN + DeclaredLength(buffer)
  }

  /** An interrupted call: nothing was taken out of the stream. */
  ghost predicate Interrupted(o: Outcome) {
    o.UnexpectedEof? || o.IoError? || o.Abandoned?
  }

  /** What one call owes the stream it reads from. */
  ghost predicate Conserves(stream: seq<byte>, r: Call) {
    && Aligned(r.buffer)
    && |r.pending| <= |stream|
    && (r.outcome.Received? ==>
          r.buffer == [] &&
          var used := |stream| - |r.pending|;
          HEADER_LEN <= used && Decode(stream[..used]) == Ok(r.outcome.message) && stream[used..] == r.pending)
    && (Interrupted(r.outcome) ==> r.buffer + r.pending == stream && TryDecode(r.buffer) == Ok(None))
  }

  /** A call that finds a complete frame hands it over whole. */
  lemma CompleteFrame(buffer: seq<byte>, pending: seq<byte>, events: seq<ReadEvent>)
    requires Aligned(buffer) && TryDecode(buffer) != Ok(None)
    ensures Conserves(buffer + pending, ReadCall(buffer, pending, events))
    ensures !Interrupted(ReadCall(buffer, pending, events).outcome)
    ensures ReadCall(buffer, pending, events).events == events
  {
    var stream := buffer + pending;
    assert stream[..|buffer|] == buffer && stream[|buffer|..] == pending;
    if TryDecode(buffer).Ok? {
      assert TryDecode(buffer).value.value.1 == |buffer|;
      assert buffer[..|buffer|] == buffer && buffer[|buffer|..] == [];
    }
  }

  /** Reading on keeps the stream and never passes the end of the current frame. */
  lemma ReadOn(buffer: seq<byte>, pending: seq<byte>, bytes: seq<byte>)
    requires Aligned(buffer) && TryDecode(buffer) == Ok(None)
    requires |bytes| <= BytesNeeded(buffer).value && bytes <= pending
    ensures Aligned(buffer + bytes) && (buffer + bytes) + pending[|bytes|..] == buffer + pending
  {
    var grown := buffer + bytes;
    if |buffer| >= HEADER_LEN {
      assert grown[6..10] == buffer[6..10];
    }
  }

  /**
   One call, for any bytes and any interruptions.  A message returned is the decoding of exactly
   the bytes taken out of the stream, and the buffer is then empty; an interrupted call keeps
   every byte, in order, for the next one.
   */
  lemma {:induction false} ReadCallConserves(buffer: seq<byte>, pending: seq<byte>, events: seq<ReadEvent>)
    requires Aligned(buffer)
    ensures var r := ReadCall(buffer, pending, events);
            && Conserves(buffer + pending, r)
            && |r.events| <= |events|
            && (Interrupted(r.outcome) && events != [] ==> |r.events| < |events|)
    decreases |events|
  {
    if TryDecode(buffer) != Ok(None) {
      CompleteFrame(buffer, pending, events);
    } else {
      var read := NextRead(pending, events, BytesNeeded(buffer).value);
      if read.Data? {
        ReadOn(buffer, pending, read.bytes);
        ReadCallConserves(buffer + read.bytes, pending[|read.bytes|..], events[1..]);
      }
    }
  }

  /** An interrupted call says what the transport did: a session ends quietly only if its client stopped sending. */
  lemma InterruptionTold(buffer: seq<byte>, pending: seq<byte>, events: seq<ReadEvent>)
    requires TryDecode(buffer) == Ok(None) && events != [] && !events[0].Deliver?
    ensures var r := ReadCall(buffer, pending, events);
            && r.buffer == buffer && r.pending == pending && r.events == events[1..]
            && (r.outcome.UnexpectedEof? <==> events[0].EndOfFile?) && (r.outcome.IoError? <==> events[0].Broken?)
            && (r.outcome.Abandoned? <==> events[0].Cancel?)
  {
  }

  // ---------------------------------------------------------------- a whole stream

  /** The messages a sequence of calls on one reader returns, and what the last call left. */
  datatype Session = Session(messages: seq<Message>, last: Outcome, buffer: seq<byte>, pending: seq<byte>)

  /** Calls repeated until the transport has nothing more to say or a frame is malformed. */
  function Drive(buffer: seq<byte>, pending: seq<byte>, events: seq<ReadEvent>): Session
    requires Aligned(buffer)
    decreases |buffer| + |pending|, |events|
  {
    ReadCallConserves(buffer, pending, events);
    var r := ReadCall(buffer, pending, events);
    if r.outcome.Received? then
      var rest := Drive(r.buffer, r.pending, r.events);
      rest.(messages := [r.outcome.message] + rest.messages)
    else if r.outcome.Malformed? || events == [] then
      Session([], r.outcome, r.buffer, r.pending)
    else
      assert |r.buffer + r.pending| == |buffer + pending|;
      Drive(r.buffer, r.pending, r.events)
  }

  ghost predicate Encodable(ms: seq<Message>) {
    forall i :: 0 <= i < |ms| ==> Encode(ms[i]).Ok?
  }

  /** The bytes a sender of `ms` puts on the wire. */
  function Stream(ms: seq<Message>): seq<byte>
    requires Encodable(ms)
  {
    if ms == [] then [] else Encode(ms[0]).value + Stream(ms[1..])
  }

  /** A frame declares its own length, within the payload limit. */
  lemma FrameDeclares(m: Message)
    requires Encode(m).Ok?
    ensures var f := Encode(m).value;
            |f| >= HEADER_LEN && |f| == HEADER_LEN + DeclaredLength(f) && DeclaredLength(f) <= MAX_PAYLOAD
  {
    var payload := PayloadBytes(m);
    assert Encode(m).value[6..10] == Header(TypeTag(m), |payload|)[6..10];
  }

  /** A reader positioned at the start of a stream can only find the stream's first frame. */
  lemma FirstFrame(ms: seq<Message>, b: seq<byte>)
    requires Encodable(ms) && ms != [] && b <= Stream(ms) && |b| >= HEADER_LEN
    ensures DeclaredLength(b) <= MAX_PAYLOAD && HEADER_LEN + DeclaredLength(b) == |Encode(ms[0]).value|
    ensures |b| >= |Encode(ms[0]).value| ==> b[..|Encode(ms[0]).value|] == Encode(ms[0]).value
  {
    var f := Encode(ms[0]).value;
    FrameDeclares(ms[0]);
    assert Stream(ms) == f + Stream(ms[1..]);
    assert b[6..10] == Stream(ms)[6..10] == f[6..10];
    if |b| >= |f| {
      assert b[..|f|] == Stream(ms)[..|f|] == f;
    }
  }

  /** The first frame of a byte string is the only prefix of it that decodes. */
  lemma DecodedPrefix(b: seq<byte>, used: nat)
    requires HEADER_LEN <= used <= |b| && Decode(b[..used]).Ok?
    ensures used == HEADER_LEN + DeclaredLength(b)
  {
    assert b[..used][6..10] == b[6..10];
  }

  /** What a call on a stream of whole frames returns, if anything: the next message. */
  ghost predicate NextOf(ms: seq<Message>, r: Call)
    requires Encodable(ms)
  {
    && !r.outcome.Malformed?
    && (r.outcome.Received? ==>
          ms != [] && r.outcome.message == ms[0] && r.buffer == [] && r.pending == Stream(ms[1..]))
  }

  /** A complete frame at the head of a stream is its first message. */
  lemma CompleteNext(ms: seq<Message>, buffer: seq<byte>, pending: seq<byte>, events: seq<ReadEvent>)
    requires Encodable(ms) && Aligned(buffer) && buffer + pending == Stream(ms) && TryDecode(buffer) != Ok(None)
    ensures NextOf(ms, ReadCall(buffer, pending, events))
  {
    assert buffer <= Stream(ms);
    var f := Encode(ms[0]).value;
    FirstFrame(ms, buffer);
    FrameDeclares(ms[0]);
    DecodeEncode(ms[0]);
    assert |buffer| == |f| && buffer[..|f|] == buffer == f;
    assert pending == Stream(ms)[|f|..] == Stream(ms[1..]);
  }

  /** On a stream of whole frames no call is malformed, and a call that returns a message returns the next one. */
  lemma {:induction false} ReadCallOnStream(ms: seq<Message>, buffer: seq<byte>, pending: seq<byte>, events: seq<ReadEvent>)
    requires Encodable(ms) && Aligned(buffer) && buffer + pending == Stream(ms)
    ensures NextOf(ms, ReadCall(buffer, pending, events))
    decreases |events|
  {
    if TryDecode(buffer) != Ok(None) {
      CompleteNext(ms, buffer, pending, events);
    } else {
      var read := NextRead(pending, events, BytesNeeded(buffer).value);
      if read.Data? {
        ReadOn(buffer, pending, read.bytes);
        ReadCallOnStream(ms, buffer + read.bytes, pending[|read.bytes|..], events[1..]);
      }
    }
  }

  /** A reader that holds everything left of the stream, yet finds no frame, has read it all. */
  lemma NothingLeft(ms: seq<Message>, buffer: seq<byte>)
    requires Encodable(ms) && buffer == Stream(ms) && TryDecode(buffer) == Ok(None)
    ensures ms == []
  {
    if ms != [] {
      FrameDeclares(ms[0]);
      FirstFrame(ms, buffer);
    }
  }

  lemma PrefixGrows(ms: seq<Message>, later: seq<Message>)
    requires ms != [] && later <= ms[1..]
    ensures [ms[0]] + later <= ms && ms[|later| + 1..] == ms[1..][|later|..]
    ensures later == ms[1..] ==> [ms[0]] + later == ms
  {
  }

  /** A prefix of the messages, in order; the bytes of the others; all the messages once every byte is delivered. */
  ghost predicate Reassembled(ms: seq<Message>, s: Session)
    requires Encodable(ms)
  {
    && s.messages <= ms
    && s.buffer + s.pending == Stream(ms[|s.messages|..])
    && !s.last.Malformed?
    && (s.pending == [] ==> s.messages == ms && s.buffer == [])
  }

  lemma OneMore(ms: seq<Message>, rest: Session)
    requires Encodable(ms) && ms != [] && Reassembled(ms[1..], rest)
    ensures Reassembled(ms, rest.(messages := [ms[0]] + rest.messages))
  {
    PrefixGrows(ms, rest.messages);
  }

  lemma StoppedHere(ms: seq<Message>, r: Call)
    requires Encodable(ms) && r.buffer + r.pending == Stream(ms) && !r.outcome.Malformed?
    requires r.pending == [] ==> TryDecode(r.buffer) == Ok(None)
    ensures Reassembled(ms, Session([], r.outcome, r.buffer, r.pending))
  {
    assert ms[0..] == ms;
    if r.pending == [] {
      assert r.buffer + [] == r.buffer;
      NothingLeft(ms, r.buffer);
    }
  }

  /**
   Stream reassembly: whatever the read sizes, cancellations and early ends of file, the reader
   yields a prefix of the messages sent, in order, and still holds exactly the bytes of the others;
   once every byte has been delivered it has yielded them all.
   */
  lemma {:induction false} Reassembly(ms: seq<Message>, buffer: seq<byte>, pending: seq<byte>, events: seq<ReadEvent>)
    requires Encodable(ms) && Aligned(buffer) && buffer + pending == Stream(ms)
    ensures Reassembled(ms, Drive(buffer, pending, events))
    decreases |buffer| + |pending|, |events|
  {
    ReadCallConserves(buffer, pending, events);
    ReadCallOnStream(ms, buffer, pending, events);
    var r := ReadCall(buffer, pending, events);
    if r.outcome.Received? {
      assert r.buffer + r.pending == r.pending;
      Reassembly(ms[1..], r.buffer, r.pending, r.events);
      OneMore(ms, Drive(r.buffer, r.pending, r.events));
    } else if events == [] {
      StoppedHere(ms, r);
    } else {
      Reassembly(ms, r.buffer, r.pending, r.events);
    }
  }

  /** A fresh reader per message loses nothing either: after a message its buffer is empty. */
  lemma OneShotLosesNothing(ms: seq<Message>, events: seq<ReadEvent>)
    requires Encodable(ms) && ReadCall([], Stream(ms), events).outcome.Received?
    ensures ms != []
    ensures var r := ReadCall([], Stream(ms), events);
            r.outcome == Received(ms[0]) && r.buffer == [] && r.pending == Stream(ms[1..])
  {
    assert [] + Stream(ms) == Stream(ms);
    ReadCallOnStream(ms, [], Stream(ms), events);
  }

  // ---------------------------------------------------------------- the reader itself

  /** The transport as the reader sees it. */
  class Source {
    var pending: seq<byte>
    var events: seq<ReadEvent>

    constructor (pending: seq<byte>, events: seq<ReadEvent>)
      ensures this.pending == pending && this.events == events
    {
      this.pending := pending;
      this.events := events;
    }

    method Read(max: nat) returns (r: ReadResult)
      modifies this
      ensures r == NextRead(old(pending), old(events), max)
      ensures pending == if r.Data? then old(pending)[|r.bytes|..] else old(pending)
      ensures events == if old(events) == [] then [] else old(events)[1..]
    {
      r := NextRead(pending, events, max);
      if r.Data? {
        pending := pending[|r.bytes|..];
      }
      if events != [] {
        events := events[1..];
      }
    }
  }

  class FramedReader {
    var buffer: seq<byte>

    constructor ()
      ensures buffer == []
    {
      buffer := [];
    }

    method TryDecodeFrame() returns (r: Result<Option<Message>, ProtocolError>)
      modifies this
      ensures match TryDecode(old(buffer))
              case Err(e) => r == Err(e) && buffer == old(buffer)
              case Ok(None) => r == Ok(None) && buffer == old(buffer)
              case Ok(Some(frame)) =>
                buffer == old(buffer)[frame.1..] &&
                r == match frame.0 case Ok(m) => Ok(Some(m)) case Err(e) => Err(e)
    {
      if |buffer| < HEADER_LEN {
        return Ok(None);
      }
      var payloadLen := U32Value(buffer[6..10]);
      if payloadLen > MAX_PAYLOAD {
        return Err(PayloadTooLarge(payloadLen, MAX_PAYLOAD));
      }
      var frameLen := HEADER_LEN + payloadLen;
      if |buffer| < frameLen {
        return Ok(None);
      }
      var frame := buffer[..frameLen];
      buffer := buffer[frameLen..];
      var m :- CodecMethods.DecodeFrame(frame);
      return Ok(Some(m));
    }

    method Needed() returns (r: Result<nat, ProtocolError>)
      ensures r == BytesNeeded(buffer)
    {
      if |buffer| < HEADER_LEN {
        return Ok(HEADER_LEN - |buffer|);
      }
      var payloadLen := U32Value(buffer[6..10]);
      if payloadLen > MAX_PAYLOAD {
        return Err(PayloadTooLarge(payloadLen, MAX_PAYLOAD));
      }
      var frameLen := HEADER_LEN + payloadLen;
      var missing := if frameLen < |buffer| then 0 else frameLen - |buffer|;
      return Ok(if missing < 1 then 1 else missing);
    }

    /** `read_message`: the loop that decodes a buffered frame or else reads some more. */
    method ReadMessage(source: Source) returns (outcome: Outcome)
      modifies this, source
      ensures Call(outcome, buffer, source.pending, source.events) ==
              ReadCall(old(buffer), old(source.pending), old(source.events))
    {
      while true
        invariant ReadCall(buffer, source.pending, source.events) ==
                  ReadCall(old(buffer), old(source.pending), old(source.events))
        decreases |source.events|
      {
        var frame := TryDecodeFrame();
        if frame.Err? {
          return Malformed(frame.error);
        }
        if frame.value.Some? {
          return Received(frame.value.value);
        }
        var needed := Needed();
        if needed.Err? {
          return Malformed(needed.error);
        }
        var read := source.Read(needed.value);
        match read {
          case Data(bytes) => buffer := buffer + bytes;
          case NoBytes => return UnexpectedEof;
          case ReadError => return IoError;
          case Dropped => return Abandoned;
        }
      }
    }
  }
}
