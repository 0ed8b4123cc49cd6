/**
 The USB/IP side of the bridge: splitting the command stream, framing the replies, and the life of
 one import, `forward_urbs` in crates/farbus-core/src/usbip_forward.rs, as a step system.
 */
module Forward {
  import opened Results
  import opened Bytes
  import opened Messages
  import opened Urb
  import opened Usbip
  import opened Streams
  import opened Tally

  // ---------------------------------------------------------------- the command stream

  datatype Accepted =
    | Submitted(cmd: CmdSubmit, payload: seq<byte>)
    | Unlinked(unlink: CmdUnlink)

  predicate Acceptable(a: Accepted) {
    a.Submitted? ==> a.cmd.bufferLength <= MAX_DATA && |a.payload| == PayloadLength(a.cmd)
  }

  function CommandBytes(a: Accepted): seq<byte> {
    match a
    case Submitted(cmd, payload) => EncodeCmdSubmit(cmd) + payload
    case Unlinked(unlink) => EncodeCmdUnlink(unlink)
  }

  /** One turn of the reader: the command and how many bytes it took, or none when the loop ends. */
  function ReadCommand(b: seq<byte>): (r: Option<(Accepted, nat)>)
    ensures r.Some? ==> HEADER <= r.value.1 <= |b|
  {
    if |b| < HEADER then None
    else if CommandOf(b) == CMD_UNLINK then Some((Unlinked(UnlinkOf(HeaderWords(b))), HEADER))
    else if CommandOf(b) != CMD_SUBMIT then None
    else
      var cmd := SubmitOf(HeaderWords(b));
      var n := PayloadLength(cmd);
      if cmd.bufferLength > MAX_DATA || |b| < HEADER + n then None
      else Some((Submitted(cmd, b[HEADER..HEADER + n]), HEADER + n))
  }

  /** The commands the reader accepts from a stream, and the bytes at which it stops. */
  function SplitStream(b: seq<byte>): (seq<Accepted>, seq<byte>) {
    Split(ReadCommand, b)
  }

  function StreamOf(commands: seq<Accepted>): seq<byte> {
    Glue(CommandBytes, commands)
  }

  lemma ReadSubmitted(cmd: CmdSubmit, payload: seq<byte>, rest: seq<byte>)
    requires Acceptable(Submitted(cmd, payload))
    ensures ReadCommand(EncodeCmdSubmit(cmd) + payload + rest) == Some((Submitted(cmd, payload), HEADER + |payload|))
  {
    var b := EncodeCmdSubmit(cmd) + payload + rest;
    assert b == EncodeCmdSubmit(cmd) + (payload + rest);
    CmdSubmitRoundTrip(cmd, payload + rest);
    assert b[HEADER..HEADER + |payload|] == payload;
  }

  lemma ReadBack(a: Accepted, rest: seq<byte>)
    requires Acceptable(a)
    ensures ReadCommand(CommandBytes(a) + rest) == Some((a, |CommandBytes(a)|))
  {
    match a
    case Submitted(cmd, payload) => ReadSubmitted(cmd, payload, rest);
    case Unlinked(unlink) => CmdUnlinkRoundTrip(unlink, rest);
  }

  /** Any list of acceptable commands is split back into itself, whatever follows. */
  lemma SplitOfStream(commands: seq<Accepted>, rest: seq<byte>)
    requires forall i :: 0 <= i < |commands| ==> Acceptable(commands[i])
    ensures SplitStream(StreamOf(commands) + rest) == (commands + SplitStream(rest).0, SplitStream(rest).1)
  {
    forall i | 0 <= i < |commands| ensures ReadsBack(ReadCommand, CommandBytes, commands[i]) {
      forall more ensures ReadCommand(CommandBytes(commands[i]) + more) == Some((commands[i], |CommandBytes(commands[i])|)) {
        ReadBack(commands[i], more);
      }
    }
    SplitOfGlue(ReadCommand, CommandBytes, commands, rest);
  }

  /** What is accepted is acceptable, and a submission is accepted only as the bytes that encode it. */
  lemma AcceptedAsEncoded(b: seq<byte>)
    requires ReadCommand(b).Some?
    ensures var (a, n) := ReadCommand(b).value;
            Acceptable(a) && |CommandBytes(a)| == n && (a.Submitted? ==> CommandBytes(a) == b[..n])
  {
    var (a, n) := ReadCommand(b).value;
    if a.Submitted? {
      HeaderPrefix(b);
      CmdSubmitCanonical(b[..HEADER], a.cmd);
      assert b[..n] == b[..HEADER] + b[HEADER..n];
    }
  }

  /** Reads the header at `pos`, and the payload that follows a submission towards the device. */
  method ReadNext(stream: seq<byte>, pos: nat) returns (r: Option<(Accepted, nat)>)
    requires pos <= |stream|
    ensures r == ReadCommand(stream[pos..])
  {
    ghost var b := stream[pos..];
    if |stream| - pos < HEADER {
      return None;
    }
    var header := stream[pos..pos + HEADER];
    assert header == b[..HEADER];
    HeaderPrefix(b);
    var command := CommandOf(header);
    if command == CMD_UNLINK {
      return Some((Unlinked(UnlinkOf(HeaderWords(header))), HEADER));
    }
    if command != CMD_SUBMIT {
      return None;
    }
    var cmd := SubmitOf(HeaderWords(header));
    if cmd.bufferLength > MAX_DATA {
      return None;
    }
    var n := PayloadLength(cmd);
    if |stream| - pos - HEADER < n {
      return None;
    }
    assert b[HEADER..HEADER + n] == stream[pos + HEADER..pos + HEADER + n];
    return Some((Submitted(cmd, stream[pos + HEADER..pos + HEADER + n]), HEADER + n));
  }

  lemma SplitStep<T>(read: Reader<T>, b: seq<byte>, done: seq<T>)
    requires read(b).Some? ==> 0 < read(b).value.1 <= |b|
    ensures read(b).None? ==> done + Split(read, b).0 == done
    ensures read(b).Some? ==>
              var (x, n) := read(b).value; done + Split(read, b).0 == (done + [x]) + Split(read, b[n..]).0
  {
  }

  /** The commands still to come. */
  ghost function ToCome(stream: seq<byte>, pos: nat, reading: bool): seq<Accepted>
    requires pos <= |stream|
  {
    if reading then Split(ReadCommand, stream[pos..]).0 else []
  }

  /** A turn that finds no command leaves none to come. */
  lemma LastTurn(stream: seq<byte>, pos: nat, accepted: seq<Accepted>)
    requires pos <= |stream| && ReadCommand(stream[pos..]).None?
    ensures accepted + ToCome(stream, pos, true) == accepted + ToCome(stream, pos, false)
  {
    SplitStep(ReadCommand, stream[pos..], accepted);
    assert accepted + [] == accepted;
  }

  /** A turn that finds a command has it next among those to come. */
  lemma ReadTurn(stream: seq<byte>, pos: nat, accepted: seq<Accepted>, a: Accepted, n: nat, next: nat)
    requires pos <= |stream| && ReadCommand(stream[pos..]) == Some((a, n)) && next == pos + n
    ensures pos < next <= |stream|
    ensures accepted + ToCome(stream, pos, true) == (accepted + [a]) + ToCome(stream, next, true)
  {
    SplitStep(ReadCommand, stream[pos..], accepted);
    assert stream[pos..][n..] == stream[next..];
  }

  /** One turn of the reader loop leaves the same commands in all; `reading` becomes false when the loop ends. */
  method Turn(stream: seq<byte>, pos: nat, accepted: seq<Accepted>) returns (more: seq<Accepted>, next: nat, reading: bool)
    requires pos <= |stream|
    ensures next <= |stream| && (reading ==> next > pos)
    ensures accepted + ToCome(stream, pos, true) == more + ToCome(stream, next, reading)
  {
    var r := ReadNext(stream, pos);
    match r {
      case None =>
        LastTurn(stream, pos, accepted);
        return accepted, pos, false;
      case Some((a, n)) =>
        next := pos + n;
        ReadTurn(stream, pos, accepted, a, n, next);
        return accepted + [a], next, true;
    }
  }

  /** The reader loop, over the bytes that arrive before the stream ends. */
  method ReadCommands(stream: seq<byte>) returns (accepted: seq<Accepted>)
    ensures accepted == SplitStream(stream).0
  {
    accepted := [];
    var pos, reading := 0, true;
    ghost var all := ToCome(stream, 0, true);
    assert stream[0..] == stream;
    assert [] + all == all;
    while reading
      invariant 0 <= pos <= |stream|
      invariant all == accepted + ToCome(stream, pos, reading)
      decreases reading, |stream| - pos
    {
      accepted, pos, reading := Turn(stream, pos, accepted);
    }
    assert accepted + [] == accepted;
  }

  // ---------------------------------------------------------------- replies

  datatype UsbipReply =
    | SubmitReply(ret: RetSubmit, data: seq<byte>)
    | UnlinkReply(unret: RetUnlink)

  const NO_SETUP: Bytes8 := [0, 0, 0, 0, 0, 0, 0, 0]

  /** What the bridge answers: a completion, or the status of an unlink. */
  datatype Answer = Completion(complete: UrbComplete) | UnlinkStatus(status: i32)

  /** The reply to a command; data follows the header only towards the host. */
  function ReplyTo(a: Accepted, result: Answer): UsbipReply {
    match a
    case Submitted(cmd, _) =>
      var c := if result.Completion? then result.complete else UrbComplete(cmd.seqnum, -1, []);
      SubmitReply(
        RetSubmit(cmd.seqnum, cmd.devid, cmd.direction, cmd.ep, c.status, if |c.data| <= MAX_U32 then |c.data| else 0, 0, 0, 0, NO_SETUP),
        if cmd.direction == 1 then c.data else [])
    case Unlinked(u) =>
      UnlinkReply(RetUnlink(u.seqnum, u.devid, u.direction, u.ep, if result.UnlinkStatus? then result.status else 0))
  }

  function ReplyBytes(r: UsbipReply): seq<byte> {
    match r
    case SubmitReply(ret, data) => EncodeRetSubmit(ret) + data
    case UnlinkReply(unret) => EncodeRetUnlink(unret)
  }

  function Output(replies: seq<UsbipReply>): seq<byte> {
    Glue(ReplyBytes, replies)
  }

  /** A USB/IP client's reading of one reply, given the direction of each request by its sequence number. */
  function ReadReply(directions: map<u32, u32>, b: seq<byte>): (r: Option<(UsbipReply, nat)>)
    ensures r.Some? ==> HEADER <= r.value.1 <= |b|
  {
    if |b| < HEADER then None
    else if CommandOf(b) == RET_UNLINK then Some((UnlinkReply(RetUnlinkOf(HeaderWords(b))), HEADER))
    else if CommandOf(b) != RET_SUBMIT then None
    else
      var ret := RetSubmitOf(HeaderWords(b));
      var n := if ret.seqnum in directions && directions[ret.seqnum] == 1 then ret.actualLength else 0;
      if |b| < HEADER + n then None else Some((SubmitReply(ret, b[HEADER..HEADER + n]), HEADER + n))
  }

  function ReplyReader(directions: map<u32, u32>): Reader<UsbipReply> {
    (s: seq<byte>) => ReadReply(directions, s)
  }

  /** The replies read off the output, and the bytes that are no reply. */
  function ReadReplies(directions: map<u32, u32>, b: seq<byte>): (seq<UsbipReply>, seq<byte>) {
    Split(ReplyReader(directions), b)
  }

  /** The reply says how much data follows it, and the client knows its direction. */
  predicate Framed(directions: map<u32, u32>, r: UsbipReply) {
    r.SubmitReply? ==>
      && r.ret.seqnum in directions
      && |r.data| == if directions[r.ret.seqnum] == 1 then r.ret.actualLength else 0
  }

  lemma ReadReplyBack(directions: map<u32, u32>, r: UsbipReply, rest: seq<byte>)
    requires Framed(directions, r)
    ensures ReadReply(directions, ReplyBytes(r) + rest) == Some((r, |ReplyBytes(r)|))
  {
    match r
    case SubmitReply(ret, data) =>
      var b := ReplyBytes(r) + rest;
      assert b == EncodeRetSubmit(ret) + (data + rest);
      RetSubmitRoundTrip(ret, data + rest);
      assert b[HEADER..HEADER + |data|] == data;
    case UnlinkReply(unret) => RetUnlinkRoundTrip(unret, rest);
  }

  /** Replies written one after the other, in whatever order, are read back as they were written. */
  lemma RepliesParse(directions: map<u32, u32>, replies: seq<UsbipReply>)
    requires forall i :: 0 <= i < |replies| ==> Framed(directions, replies[i])
    ensures ReadReplies(directions, Output(replies)) == (replies, [])
  {
    var read := ReplyReader(directions);
    forall i | 0 <= i < |replies| ensures ReadsBack(read, ReplyBytes, replies[i]) {
      ReplyReadsBack(directions, replies[i]);
    }
    NothingToRead(directions);
    SplitOfGlue(read, ReplyBytes, replies, []);
    assert Glue(ReplyBytes, replies) + [] == Output(replies) && replies + [] == replies;
  }

  lemma NothingToRead(directions: map<u32, u32>)
    ensures Split(ReplyReader(directions), []) == ([], [])
  {
    assert ReplyReader(directions)([]) == None;
  }

  lemma ReplyReadsBack(directions: map<u32, u32>, r: UsbipReply)
    requires Framed(directions, r)
    ensures ReadsBack(ReplyReader(directions), ReplyBytes, r)
  {
    forall more ensures ReplyReader(directions)(ReplyBytes(r) + more) == Some((r, |ReplyBytes(r)|)) {
      ReadReplyBack(directions, r, more);
    }
  }

  // ---------------------------------------------------------------- one import

  /** A reply handed to the writer, with the index of its command and the answer it conveys. */
  datatype Sent = Sent(origin: nat, answer: Answer, reply: UsbipReply)

  /**
   `tasks` holds the commands whose task has not sent its reply; `written` counts the replies on the
   stream; the writer ends only when the reader and all tasks have dropped their senders and its
   queue is empty.
   */
  datatype Import = Import(
    accepted: seq<Accepted>, tasks: set<nat>, sent: seq<Sent>, written: nat, reading: bool, writing: bool, attached: bool)

  const IMPORTED := Import([], {}, [], 0, true, true, true)

  datatype Step =
    | Accept(a: Accepted)
    | StopReading
    | Finish(i: nat, result: Answer)
    | WriteNext
    | StopWriting
    | Detach

  predicate Enabled(s: Import, step: Step) {
    match step
    case Accept(a) => s.reading && Acceptable(a)
    case StopReading => s.reading
    case Finish(i, result) => i in s.tasks && i < |s.accepted| && (result.Completion? ==> |result.complete.data| <= MAX_DATA)
    case WriteNext => s.writing && s.written < |s.sent|
    case StopWriting => s.writing && !s.reading && s.tasks == {} && s.written == |s.sent|
    case Detach => !s.writing && s.attached
  }

  function Next(s: Import, step: Step): Import {
    if !Enabled(s, step) then s
    else
      match step
      case Accept(a) => s.(accepted := s.accepted + [a], tasks := s.tasks + {|s.accepted|})
      case StopReading => s.(reading := false)
      case Finish(i, result) => s.(tasks := s.tasks - {i}, sent := s.sent + [Sent(i, result, ReplyTo(s.accepted[i], result))])
      case WriteNext => s.(written := s.written + 1)
      case StopWriting => s.(writing := false)
      case Detach => s.(attached := false)
  }

  function After(steps: seq<Step>): Import {
    if steps == [] then IMPORTED else Next(After(steps[..|steps| - 1]), steps[|steps| - 1])
  }

  /**
   The reply to `a` that conveys `answer`: of its kind, with its sequence number and direction, the
   status, the length of the data, and the data itself exactly if `a` reads.
   */
  predicate Answers(a: Accepted, answer: Answer, r: UsbipReply) {
    match a
    case Submitted(cmd, _) =>
      && r.SubmitReply? && r.ret.seqnum == cmd.seqnum && r.ret.devid == cmd.devid
      && r.ret.direction == cmd.direction && r.ret.ep == cmd.ep
      && r.ret.startFrame == r.ret.packets == r.ret.errorCount == 0 && r.ret.setup == [0, 0, 0, 0, 0, 0, 0, 0]
      && |r.data| == (if cmd.direction == 1 then r.ret.actualLength else 0)
      && (answer.Completion? ==>
            && r.ret.status == answer.complete.status && r.ret.actualLength == |answer.complete.data|
            && (cmd.direction == 1 ==> r.data == answer.complete.data))
    case Unlinked(u) =>
      && r.UnlinkReply? && r.unret.seqnum == u.seqnum && r.unret.devid == u.devid
      && r.unret.direction == u.direction && r.unret.ep == u.ep
      && (answer.UnlinkStatus? ==> r.unret.status == answer.status)
  }

  function OriginOf(e: Sent): nat {
    e.origin
  }

  /** The commands answered. */
  ghost function Origins(sent: seq<Sent>): set<nat> {
    Marks(OriginOf, sent)
  }

  ghost predicate SentOk(s: Import) {
    && s.written <= |s.sent|
    && (forall k :: 0 <= k < |s.sent| ==> s.sent[k].origin < |s.accepted| && Answers(s.accepted[s.sent[k].origin], s.sent[k].answer, s.sent[k].reply))
    && Distinct(OriginOf, s.sent)
  }

  ghost predicate ImportOk(s: Import) {
    && SentOk(s)
    && (forall o: nat :: o < |s.accepted| <==> o in s.tasks || o in Origins(s.sent))
    && (forall o :: o in s.tasks ==> o !in Origins(s.sent))
    && (!s.writing ==> !s.reading && s.tasks == {} && s.written == |s.sent|)
    && (!s.attached ==> !s.writing)
  }

  lemma FinishOk(s: Import, i: nat, result: Answer)
    requires ImportOk(s) && Enabled(s, Finish(i, result))
    ensures ImportOk(Next(s, Finish(i, result)))
  {
    MarksLast(OriginOf, s.sent, Sent(i, result, ReplyTo(s.accepted[i], result)));
    DistinctLast(OriginOf, s.sent, Sent(i, result, ReplyTo(s.accepted[i], result)));
  }

  lemma NextOk(s: Import, step: Step)
    requires ImportOk(s)
    ensures ImportOk(Next(s, step))
  {
    if Enabled(s, step) && step.Finish? {
      FinishOk(s, step.i, step.result);
    }
  }

  lemma {:induction false} AfterOk(steps: seq<Step>)
    ensures ImportOk(After(steps))
  {
    if steps != [] {
      AfterOk(steps[..|steps| - 1]);
      NextOk(After(steps[..|steps| - 1]), steps[|steps| - 1]);
    }
  }

  function RepliesOf(sent: seq<Sent>): seq<UsbipReply> {
    seq(|sent|, k requires 0 <= k < |sent| => sent[k].reply)
  }

  /** The client knows the direction of every submission it made. */
  ghost predicate Knows(directions: map<u32, u32>, accepted: seq<Accepted>) {
    forall i :: 0 <= i < |accepted| && accepted[i].Submitted? ==>
      accepted[i].cmd.seqnum in directions && directions[accepted[i].cmd.seqnum] == accepted[i].cmd.direction
  }

  lemma StreamParses(s: Import, directions: map<u32, u32>, stream: seq<Sent>)
    requires SentOk(s) && Knows(directions, s.accepted) && stream == s.sent[..s.written]
    ensures ReadReplies(directions, Output(RepliesOf(stream))) == (RepliesOf(stream), [])
  {
    forall k | 0 <= k < |stream| ensures Framed(directions, RepliesOf(stream)[k]) {
      assert stream[k] == s.sent[k];
    }
    RepliesParse(directions, RepliesOf(stream));
  }

  lemma StreamOnce(s: Import, stream: seq<Sent>, o: nat)
    requires ImportOk(s) && stream == s.sent[..s.written]
    ensures Times(OriginOf, stream, o) <= 1 && (!s.attached && o < |s.accepted| ==> Times(OriginOf, stream, o) == 1)
  {
    DistinctPrefix(OriginOf, s.sent, s.written);
    TimesDistinct(OriginOf, stream, o);
    if !s.attached {
      assert stream == s.sent;
      assert o < |s.accepted| ==> o in Origins(s.sent);
    }
  }

  /** The replies on the stream. */
  function OnStream(s: Import): seq<Sent> {
    if s.written <= |s.sent| then s.sent[..s.written] else []
  }

  /**
   In every interleaving: what is on the stream is read back, by a client that knows its requests,
   as replies each of which answers the command that caused it, none of them twice; and once the
   device is detached every command accepted has its one reply on the stream.
   */
  lemma ForwardedOnce(steps: seq<Step>, directions: map<u32, u32>)
    requires Knows(directions, After(steps).accepted)
    ensures var s := After(steps);
            var stream := OnStream(s);
            && ReadReplies(directions, Output(RepliesOf(stream))) == (RepliesOf(stream), [])
            && (forall k :: 0 <= k < |stream| ==>
                  stream[k].origin < |s.accepted| && Answers(s.accepted[stream[k].origin], stream[k].answer, stream[k].reply))
            && (forall o: nat :: Times(OriginOf, stream, o) <= 1)
            && (!s.attached ==> forall o: nat :: o < |s.accepted| ==> Times(OriginOf, stream, o) == 1)
  {
    AfterOk(steps);
    var s := After(steps);
    var stream := OnStream(s);
    StreamParses(s, directions, stream);
    forall o: nat ensures Times(OriginOf, stream, o) <= 1 && (!s.attached && o < |s.accepted| ==> Times(OriginOf, stream, o) == 1) {
      StreamOnce(s, stream, o);
    }
  }
}
