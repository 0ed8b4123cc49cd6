/**
 A client pump and a server session joined by two FIFO streams.  `written` is everything the pump has
 written, of which the server has received a prefix; the pump has consumed a prefix of what the
 session has handed to its writer.  The number of a command is the index of its message in `written`.
 */
module Composed {
  import opened Results
  import opened Bytes
  import opened Messages
  import opened Server
  import opened Tally
  import opened ServerSession
  import opened Pump

  datatype Client = Client(pump: Pump, written: seq<Message>, consumed: nat, running: bool)

  datatype System = System(world: World, sid: nat, client: Client)

  datatype Move =
    | ServerMove(a: Action)
    | Command(cmd: Request)
    | WriteFails(cmd: Request)
    | Read
    | Finish

  /** A step of the client, given what the session has handed to its writer. */
  function ClientNext(c: Client, out: seq<Reply>, m: Move): Client {
    if !c.running then c
    else
      match m
      case ServerMove(_) => c
      case Command(cmd) => c.(pump := OnCommand(c.pump, cmd, true), written := c.written + [WireOf(cmd)])
      case WriteFails(cmd) => c.(pump := OnCommand(c.pump, cmd, false), running := false)
      case Read =>
        if c.consumed < |out| then c.(pump := OnMessage(c.pump, out[c.consumed].msg), consumed := c.consumed + 1) else c
      case Finish => c.(running := false)
  }

  /** The server reads from the stream: the next message the session receives is the next one written. */
  predicate InStream(c: System, a: Action)
    requires c.sid in c.world.sessions
  {
    a.Receive? && a.sid == c.sid ==>
      var n := |c.world.sessions[c.sid].received|;
      n < |c.client.written| && a.msg == c.client.written[n]
  }

  function Next(c: System, m: Move): System
    requires c.sid in c.world.sessions
  {
    if m.ServerMove? then
      if InStream(c, m.a) then c.(world := Apply(c.world, m.a)) else c
    else c.(client := ClientNext(c.client, c.world.sessions[c.sid].out, m))
  }

  // ---------------------------------------------------------------- the matching

  /** What the pump relies on about a session's history. */
  ghost predicate HistoryOk(received: seq<Message>, out: seq<Reply>) {
    && RepliesAnswer(received, out)
    && Distinct(OriginOf, out)
    && ControlOrigins(out) <= ControlIndices(received)
  }

  lemma SessionHistoryOk(s: Session)
    requires SessionOk(s)
    ensures HistoryOk(s.received, s.out)
  {
  }

  /** The queue of control callers is what remains of the control requests after the control replies consumed. */
  ghost predicate ControlsMatch(controls: seq<nat>, written: seq<Message>, done: seq<Reply>) {
    ControlIndices(written) == ControlOrigins(done) + controls
  }

  /** The pending URBs are exactly the submissions written whose completion has not been consumed. */
  ghost predicate UrbsMatch(urbs: map<u32, nat>, written: seq<Message>, answered: set<nat>) {
    && (forall s :: s in urbs ==>
          urbs[s] < |written| && written[urbs[s]].SubmitUrb? && written[urbs[s]].urb.seqNum == s && urbs[s] !in answered)
    && (forall w :: 0 <= w < |written| && written[w].SubmitUrb? && w !in answered ==>
          written[w].urb.seqNum in urbs && urbs[written[w].urb.seqNum] == w)
  }

  ghost predicate UnlinksMatch(unlinks: map<u32, nat>, written: seq<Message>, answered: set<nat>) {
    && (forall s :: s in unlinks ==>
          unlinks[s] < |written| && written[unlinks[s]].UnlinkUrb? && written[unlinks[s]].unlinkSeq == s && unlinks[s] !in answered)
    && (forall w :: 0 <= w < |written| && written[w].UnlinkUrb? && w !in answered ==>
          written[w].unlinkSeq in unlinks && unlinks[written[w].unlinkSeq] == w)
  }

  /** `done` is what the pump has consumed. */
  ghost predicate Matched(p: Pump, written: seq<Message>, done: seq<Reply>) {
    && ControlsMatch(p.controls, written, done)
    && UrbsMatch(p.urbs, written, Answered(done))
    && UnlinksMatch(p.unlinks, written, Answered(done))
  }

  /** Whoever got an answer got the reply to its own request. */
  ghost predicate Delivered(resolved: seq<Resolution>, done: seq<Reply>) {
    forall i :: 0 <= i < |resolved| && resolved[i].outcome.Answer? ==>
      Reply(resolved[i].outcome.msg, resolved[i].waiter) in done
  }

  /** Whatever was consumed has been handed to a caller. */
  ghost predicate AllHanded(resolved: seq<Resolution>, done: seq<Reply>) {
    forall i :: 0 <= i < |done| ==> Resolution(done[i].origin, Answer(done[i].msg)) in resolved
  }

  /** Every caller resolved so far got an answer. */
  ghost predicate NoneFailed(resolved: seq<Resolution>) {
    forall i :: 0 <= i < |resolved| ==> resolved[i].outcome.Answer?
  }

  ghost predicate LinkOk(received: seq<Message>, out: seq<Reply>, c: Client) {
    && received <= c.written && c.consumed <= |out|
    && (c.running ==> c.pump.taken == |c.written| && Matched(c.pump, c.written, out[..c.consumed]))
    && Delivered(c.pump.resolved, out[..c.consumed])
    && AllHanded(c.pump.resolved, out[..c.consumed]) && (c.running ==> NoneFailed(c.pump.resolved))
  }

  // ---------------------------------------------------------------- taking a command

  /** What the pump's callers respect: control commands carry control messages. */
  predicate WellTyped(cmd: Request) {
    cmd.ControlCmd? ==> IsControl(cmd.msg)
  }

  /** No command in flight bears the same sequence number. */
  predicate Unused(p: Pump, cmd: Request) {
    match cmd
    case ControlCmd(_) => true
    case UrbCmd(urb) => urb.seqNum !in p.urbs
    case UnlinkCmd(seqNum, _) => seqNum !in p.unlinks
  }

  lemma UrbsMatchOther(urbs: map<u32, nat>, written: seq<Message>, answered: set<nat>, m: Message)
    requires UrbsMatch(urbs, written, answered) && !m.SubmitUrb?
    ensures UrbsMatch(urbs, written + [m], answered)
  {
  }

  lemma UnlinksMatchOther(unlinks: map<u32, nat>, written: seq<Message>, answered: set<nat>, m: Message)
    requires UnlinksMatch(unlinks, written, answered) && !m.UnlinkUrb?
    ensures UnlinksMatch(unlinks, written + [m], answered)
  {
  }

  /** A submission keeps the pending URBs matched if and only if its sequence number is not in flight. */
  lemma SubmitMatchesIff(urbs: map<u32, nat>, written: seq<Message>, answered: set<nat>, urb: UrbSubmit)
    requires UrbsMatch(urbs, written, answered) && forall w :: w in answered ==> w < |written|
    ensures UrbsMatch(urbs[urb.seqNum := |written|], written + [SubmitUrb(urb)], answered) <==> urb.seqNum !in urbs
  {
    var more, after := written + [SubmitUrb(urb)], urbs[urb.seqNum := |written|];
    if urb.seqNum in urbs {
      var w := urbs[urb.seqNum];
      assert more[w] == written[w] && after[more[w].urb.seqNum] != w;
    } else {
      forall s | s in after
        ensures after[s] < |more| && more[after[s]].SubmitUrb? && more[after[s]].urb.seqNum == s && after[s] !in answered
      {
        if s != urb.seqNum {
          assert more[urbs[s]] == written[urbs[s]];
        }
      }
    }
  }

  lemma UnlinkMatchesIff(unlinks: map<u32, nat>, written: seq<Message>, answered: set<nat>, seqNum: u32, id: DeviceId)
    requires UnlinksMatch(unlinks, written, answered) && forall w :: w in answered ==> w < |written|
    ensures UnlinksMatch(unlinks[seqNum := |written|], written + [UnlinkUrb(seqNum, id)], answered) <==> seqNum !in unlinks
  {
    var more, after := written + [UnlinkUrb(seqNum, id)], unlinks[seqNum := |written|];
    if seqNum in unlinks {
      var w := unlinks[seqNum];
      assert more[w] == written[w] && after[more[w].unlinkSeq] != w;
    } else {
      forall s | s in after
        ensures after[s] < |more| && more[after[s]].UnlinkUrb? && more[after[s]].unlinkSeq == s && after[s] !in answered
      {
        if s != seqNum {
          assert more[unlinks[s]] == written[unlinks[s]];
        }
      }
    }
  }

  lemma CommandMatched(p: Pump, written: seq<Message>, done: seq<Reply>, cmd: Request)
    requires Matched(p, written, done) && p.taken == |written| && WellTyped(cmd) && Unused(p, cmd)
    requires forall w :: w in Answered(done) ==> w < |written|
    ensures Matched(OnCommand(p, cmd, true), written + [WireOf(cmd)], done)
  {
    var m := WireOf(cmd);
    ControlIndicesLast(written, m);
    match cmd
    case ControlCmd(_) =>
      UrbsMatchOther(p.urbs, written, Answered(done), m);
      UnlinksMatchOther(p.unlinks, written, Answered(done), m);
    case UrbCmd(urb) =>
      SubmitMatchesIff(p.urbs, written, Answered(done), urb);
      UnlinksMatchOther(p.unlinks, written, Answered(done), m);
    case UnlinkCmd(seqNum, id) =>
      UrbsMatchOther(p.urbs, written, Answered(done), m);
      UnlinkMatchesIff(p.unlinks, written, Answered(done), seqNum, id);
  }

  lemma CommandDelivers(p: Pump, cmd: Request, written: bool, done: seq<Reply>)
    requires Delivered(p.resolved, done) && AllHanded(p.resolved, done)
    ensures Delivered(OnCommand(p, cmd, written).resolved, done) && AllHanded(OnCommand(p, cmd, written).resolved, done)
  {
  }

  lemma CommandFailsNone(p: Pump, cmd: Request)
    requires NoneFailed(p.resolved) && Unused(p, cmd)
    ensures NoneFailed(OnCommand(p, cmd, true).resolved)
  {
  }

  /** What the pump has consumed answers what it has written. */
  lemma AnsweredBelow(received: seq<Message>, out: seq<Reply>, n: nat)
    requires HistoryOk(received, out) && n <= |out|
    ensures forall w :: w in Answered(out[..n]) ==> w < |received|
  {
  }

  lemma CommandOk(received: seq<Message>, out: seq<Reply>, c: Client, cmd: Request)
    requires HistoryOk(received, out) && LinkOk(received, out, c) && WellTyped(cmd) && Unused(c.pump, cmd)
    ensures LinkOk(received, out, ClientNext(c, out, Command(cmd)))
  {
    if c.running {
      AnsweredBelow(received, out, c.consumed);
      CommandMatched(c.pump, c.written, out[..c.consumed], cmd);
      CommandDelivers(c.pump, cmd, true, out[..c.consumed]);
      CommandFailsNone(c.pump, cmd);
    }
  }

  // ---------------------------------------------------------------- a reply reaches its caller

  lemma {:induction false} ControlOriginsPrefix(out: seq<Reply>, n: nat)
    requires n <= |out|
    ensures ControlOrigins(out[..n]) <= ControlOrigins(out)
    decreases |out|
  {
    if n < |out| {
      var front := out[..|out| - 1];
      ControlOriginsPrefix(front, n);
      assert front[..n] == out[..n];
    } else {
      assert out[..n] == out;
    }
  }

  /** The next reply answers a message written, which nothing consumed so far answered. */
  lemma NextReply(received: seq<Message>, out: seq<Reply>, n: nat)
    requires HistoryOk(received, out) && n < |out|
    ensures out[n].origin < |received| && Answers(received[out[n].origin], out[n].msg)
    ensures out[n].origin !in Answered(out[..n])
  {
  }

  lemma PrefixElement(a: seq<nat>, x: nat, b: seq<nat>)
    requires a + [x] <= b
    ensures |a| < |b| && b[|a|] == x
  {
    assert (a + [x])[|a|] == x;
  }

  /** The next control reply answers the request of the caller at the head of the queue. */
  lemma HeadOfQueue(received: seq<Message>, out: seq<Reply>, n: nat, written: seq<Message>, controls: seq<nat>)
    requires HistoryOk(received, out) && received <= written && n < |out| && IsControlReply(out[n].msg)
    requires ControlsMatch(controls, written, out[..n])
    ensures controls != [] && controls[0] == out[n].origin
  {
    var done := out[..n];
    assert out[..n + 1] == done + [out[n]];
    ControlOriginsLast(done, out[n]);
    ControlOriginsPrefix(out, n + 1);
    ControlIndicesPrefix(written, |received|);
    assert written[..|received|] == received;
    PrefixElement(ControlOrigins(done), out[n].origin, ControlIndices(written));
  }

  lemma UrbsMatchAnswered(urbs: map<u32, nat>, written: seq<Message>, answered: set<nat>, o: nat, more: set<nat>)
    requires UrbsMatch(urbs, written, answered) && o < |written| && o !in answered
    requires forall w :: w in more <==> w in answered || w == o
    ensures !written[o].SubmitUrb? ==> UrbsMatch(urbs, written, more)
    ensures written[o].SubmitUrb? ==> UrbsMatch(urbs - {written[o].urb.seqNum}, written, more)
  {
  }

  lemma UnlinksMatchAnswered(unlinks: map<u32, nat>, written: seq<Message>, answered: set<nat>, o: nat, more: set<nat>)
    requires UnlinksMatch(unlinks, written, answered) && o < |written| && o !in answered
    requires forall w :: w in more <==> w in answered || w == o
    ensures !written[o].UnlinkUrb? ==> UnlinksMatch(unlinks, written, more)
    ensures written[o].UnlinkUrb? ==> UnlinksMatch(unlinks - {written[o].unlinkSeq}, written, more)
  {
  }

  /** The pump hands reply `e` to the caller whose request it answers. */
  lemma ReadResolves(p: Pump, written: seq<Message>, done: seq<Reply>, e: Reply)
    requires Matched(p, written, done) && e.origin < |written| && Answers(written[e.origin], e.msg)
    requires e.origin !in Answered(done) && (IsControlReply(e.msg) ==> p.controls != [] && p.controls[0] == e.origin)
    ensures OnMessage(p, e.msg).resolved == p.resolved + [Resolution(e.origin, Answer(e.msg))]
  {
    AnswersSameKind(written[e.origin], e.msg);
  }

  lemma OtherKindsKeepQueue(p: Pump, msg: Message)
    ensures OnMessage(p, msg).controls == if IsControlReply(msg) && p.controls != [] then p.controls[1..] else p.controls
  {
  }

  lemma QueueMoves(all: seq<nat>, done: seq<nat>, queue: seq<nat>)
    requires all == done + queue && queue != []
    ensures all == done + [queue[0]] + queue[1..]
  {
  }

  lemma ReadControls(p: Pump, written: seq<Message>, done: seq<Reply>, e: Reply)
    requires ControlsMatch(p.controls, written, done)
    requires IsControlReply(e.msg) ==> p.controls != [] && p.controls[0] == e.origin
    ensures ControlsMatch(OnMessage(p, e.msg).controls, written, done + [e])
  {
    ControlOriginsLast(done, e);
    OtherKindsKeepQueue(p, e.msg);
    if IsControlReply(e.msg) {
      QueueMoves(ControlIndices(written), ControlOrigins(done), p.controls);
    } else {
      assert ControlOrigins(done + [e]) == ControlOrigins(done);
    }
  }

  lemma ReadUrbs(p: Pump, written: seq<Message>, done: seq<Reply>, e: Reply)
    requires UrbsMatch(p.urbs, written, Answered(done)) && e.origin < |written| && Answers(written[e.origin], e.msg)
    requires e.origin !in Answered(done)
    ensures UrbsMatch(OnMessage(p, e.msg).urbs, written, Answered(done + [e]))
  {
    MarksLast(OriginOf, done, e);
    UrbsMatchAnswered(p.urbs, written, Answered(done), e.origin, Answered(done + [e]));
  }

  lemma ReadUnlinks(p: Pump, written: seq<Message>, done: seq<Reply>, e: Reply)
    requires UnlinksMatch(p.unlinks, written, Answered(done)) && e.origin < |written| && Answers(written[e.origin], e.msg)
    requires e.origin !in Answered(done)
    ensures UnlinksMatch(OnMessage(p, e.msg).unlinks, written, Answered(done + [e]))
  {
    MarksLast(OriginOf, done, e);
    UnlinksMatchAnswered(p.unlinks, written, Answered(done), e.origin, Answered(done + [e]));
  }

  lemma ReadMatched(p: Pump, written: seq<Message>, done: seq<Reply>, e: Reply)
    requires Matched(p, written, done) && e.origin < |written| && Answers(written[e.origin], e.msg)
    requires e.origin !in Answered(done) && (IsControlReply(e.msg) ==> p.controls != [] && p.controls[0] == e.origin)
    ensures Matched(OnMessage(p, e.msg), written, done + [e])
  {
    ReadControls(p, written, done, e);
    ReadUrbs(p, written, done, e);
    ReadUnlinks(p, written, done, e);
  }

  lemma DeliveredLast(resolved: seq<Resolution>, done: seq<Reply>, e: Reply)
    requires Delivered(resolved, done) && AllHanded(resolved, done) && NoneFailed(resolved)
    ensures var more := resolved + [Resolution(e.origin, Answer(e.msg))];
            Delivered(more, done + [e]) && AllHanded(more, done + [e]) && NoneFailed(more)
  {
  }

  /** What the next reply does to the matching and to its caller. */
  lemma ReadNext(received: seq<Message>, out: seq<Reply>, n: nat, p: Pump, written: seq<Message>, e: Reply)
    requires HistoryOk(received, out) && received <= written && n < |out| && e == out[n] && Matched(p, written, out[..n])
    ensures Matched(OnMessage(p, e.msg), written, out[..n + 1])
    ensures OnMessage(p, e.msg).resolved == p.resolved + [Resolution(e.origin, Answer(e.msg))]
  {
    NextReply(received, out, n);
    if IsControlReply(e.msg) {
      HeadOfQueue(received, out, n, written, p.controls);
    }
    ReadMatched(p, written, out[..n], e);
    ReadResolves(p, written, out[..n], e);
    OneMoreReply(out, n);
  }

  lemma ReadDelivers(p: Pump, done: seq<Reply>, e: Reply, after: Pump, more: seq<Reply>)
    requires Delivered(p.resolved, done) && AllHanded(p.resolved, done) && NoneFailed(p.resolved) && more == done + [e]
    requires after.resolved == p.resolved + [Resolution(e.origin, Answer(e.msg))]
    ensures Delivered(after.resolved, more) && AllHanded(after.resolved, more) && NoneFailed(after.resolved)
  {
    DeliveredLast(p.resolved, done, e);
  }

  lemma OneMoreReply(out: seq<Reply>, n: nat)
    requires n < |out|
    ensures out[..n + 1] == out[..n] + [out[n]]
  {
  }

  lemma AfterRead(received: seq<Message>, out: seq<Reply>, c: Client, n: nat, e: Reply, next: Pump)
    requires LinkOk(received, out, c) && c.running && n == c.consumed < |out| && e == out[n]
    requires Matched(next, c.written, out[..n + 1]) && next.taken == c.pump.taken
    requires next.resolved == c.pump.resolved + [Resolution(e.origin, Answer(e.msg))]
    ensures LinkOk(received, out, c.(pump := next, consumed := n + 1))
  {
    OneMoreReply(out, n);
    ReadDelivers(c.pump, out[..n], e, next, out[..n + 1]);
    ConsumedOk(received, out, c, next, out[..n + 1]);
  }

  /** A client that reads the next reply. */
  function Consume(c: Client, e: Reply): Client {
    c.(pump := OnMessage(c.pump, e.msg), consumed := c.consumed + 1)
  }

  lemma ReadConsumes(c: Client, out: seq<Reply>)
    ensures ClientNext(c, out, Read) == if c.running && c.consumed < |out| then Consume(c, out[c.consumed]) else c
  {
  }

  lemma ConsumeOk(received: seq<Message>, out: seq<Reply>, c: Client, n: nat, e: Reply)
    requires HistoryOk(received, out) && LinkOk(received, out, c) && c.running && n == c.consumed < |out| && e == out[n]
    ensures LinkOk(received, out, Consume(c, e))
  {
    ReadNext(received, out, n, c.pump, c.written, e);
    SameTaken(c.pump, e.msg);
    AfterRead(received, out, c, n, e, OnMessage(c.pump, e.msg));
  }

  lemma ReadOk(received: seq<Message>, out: seq<Reply>, c: Client)
    requires HistoryOk(received, out) && LinkOk(received, out, c)
    ensures LinkOk(received, out, ClientNext(c, out, Read))
  {
    ReadConsumes(c, out);
    if c.running && c.consumed < |out| {
      ConsumeOk(received, out, c, c.consumed, out[c.consumed]);
    }
  }

  lemma ConsumedOk(received: seq<Message>, out: seq<Reply>, c: Client, next: Pump, more: seq<Reply>)
    requires LinkOk(received, out, c) && c.consumed < |out| && more == out[..c.consumed + 1]
    requires next.taken == |c.written| && Matched(next, c.written, more)
    requires Delivered(next.resolved, more) && AllHanded(next.resolved, more) && NoneFailed(next.resolved)
    ensures LinkOk(received, out, c.(pump := next, consumed := c.consumed + 1))
  {
  }

  lemma SameTaken(p: Pump, msg: Message)
    ensures OnMessage(p, msg).taken == p.taken
  {
  }

  // ---------------------------------------------------------------- steps of the whole

  lemma LinkGrows(received: seq<Message>, out: seq<Reply>, c: Client, received': seq<Message>, out': seq<Reply>)
    requires LinkOk(received, out, c) && out <= out' && received' <= c.written
    ensures LinkOk(received', out', c)
  {
    assert out'[..c.consumed] == out[..c.consumed];
  }

  ghost predicate SystemOk(c: System) {
    && c.sid in c.world.sessions && SessionOk(c.world.sessions[c.sid])
    && LinkOk(c.world.sessions[c.sid].received, c.world.sessions[c.sid].out, c.client)
  }

  lemma ServerMoveOk(c: System, a: Action)
    requires SystemOk(c) && InStream(c, a)
    ensures SystemOk(c.(world := Apply(c.world, a)))
  {
    ApplySessionOk(c.world, a, c.sid);
    SessionGrows(c.world, a, c.sid);
    var s, t := c.world.sessions[c.sid], Apply(c.world, a).sessions[c.sid];
    LinkGrows(s.received, s.out, c.client, t.received, t.out);
  }

  /** The client's part of the bargain for one move. */
  predicate Fair(c: Client, m: Move) {
    m.Command? ==> WellTyped(m.cmd) && Unused(c.pump, m.cmd)
  }

  lemma ClientMoveOk(received: seq<Message>, out: seq<Reply>, c: Client, m: Move)
    requires HistoryOk(received, out) && LinkOk(received, out, c) && Fair(c, m)
    ensures LinkOk(received, out, ClientNext(c, out, m))
  {
    match m
    case ServerMove(_) =>
    case Command(cmd) => CommandOk(received, out, c, cmd);
    case WriteFails(cmd) =>
      CommandDelivers(c.pump, cmd, false, out[..c.consumed]);
    case Read => ReadOk(received, out, c);
    case Finish =>
  }

  lemma NextOk(c: System, m: Move)
    requires SystemOk(c) && Fair(c.client, m)
    ensures SystemOk(Next(c, m))
  {
    if m.ServerMove? {
      if InStream(c, m.a) {
        ServerMoveOk(c, m.a);
      }
    } else {
      var s := c.world.sessions[c.sid];
      SessionHistoryOk(s);
      ClientMoveOk(s.received, s.out, c.client, m);
    }
  }

  // ---------------------------------------------------------------- every run

  const FRESH := Client(IDLE, [], 0, true)

  /** A new connection: the server has just accepted this session, and nothing has been written. */
  ghost predicate Connected(c: System) {
    c.sid in c.world.sessions && c.world.sessions[c.sid] == CONNECTED && c.client == FRESH
  }

  ghost predicate Step(trace: seq<System>, moves: seq<Move>, n: nat)
    requires |trace| == |moves| + 1 && n < |moves|
  {
    trace[n].sid in trace[n].world.sessions && trace[n + 1] == Next(trace[n], moves[n]) && Fair(trace[n].client, moves[n])
  }

  /** A run in which commands are well typed and reuse no sequence number in flight. */
  ghost predicate IsTrace(trace: seq<System>, moves: seq<Move>) {
    |trace| == |moves| + 1 && forall n :: 0 <= n < |moves| ==> Step(trace, moves, n)
  }

  lemma StartOk(c: System)
    requires Connected(c)
    ensures SystemOk(c)
  {
    ConnectedOk();
  }

  lemma TraceStepOk(trace: seq<System>, moves: seq<Move>, n: nat)
    requires IsTrace(trace, moves) && 0 < n < |trace| && SystemOk(trace[n - 1])
    ensures SystemOk(trace[n])
  {
    assert Step(trace, moves, n - 1);
    NextOk(trace[n - 1], moves[n - 1]);
  }

  lemma {:induction false} TraceOk(trace: seq<System>, moves: seq<Move>, n: nat)
    requires IsTrace(trace, moves) && Connected(trace[0]) && n < |trace|
    ensures SystemOk(trace[n])
  {
    if n == 0 {
      StartOk(trace[0]);
    } else {
      TraceOk(trace, moves, n - 1);
      TraceStepOk(trace, moves, n);
    }
  }

  /**
   In every interleaving of client, server and other sessions: a caller that gets an answer gets the
   reply to its own message, and that reply answers it.
   */
  lemma AnswersReachTheirCallers(trace: seq<System>, moves: seq<Move>, n: nat, i: nat)
    requires IsTrace(trace, moves) && Connected(trace[0]) && n < |trace|
    requires i < |trace[n].client.pump.resolved| && trace[n].client.pump.resolved[i].outcome.Answer?
    ensures var c := trace[n];
            var r := c.client.pump.resolved[i];
            && c.sid in c.world.sessions && r.waiter < |c.client.written|
            && Reply(r.outcome.msg, r.waiter) in c.world.sessions[c.sid].out
            && Answers(c.client.written[r.waiter], r.outcome.msg)
  {
    TraceOk(trace, moves, n);
    var c := trace[n];
    var r, s := c.client.pump.resolved[i], c.world.sessions[c.sid];
    SessionHistoryOk(s);
    assert Reply(r.outcome.msg, r.waiter) in s.out[..c.client.consumed];
  }

  /**
   The converse: while the pump runs, whoever has been resolved got an answer, and every reply of the
   session that the pump has consumed was handed to the caller it answers.
   */
  lemma ConsumedAreHanded(trace: seq<System>, moves: seq<Move>, n: nat)
    requires IsTrace(trace, moves) && Connected(trace[0]) && n < |trace|
    ensures var c := trace[n];
            && c.sid in c.world.sessions && c.client.consumed <= |c.world.sessions[c.sid].out|
            && AllHanded(c.client.pump.resolved, c.world.sessions[c.sid].out[..c.client.consumed])
            && (c.client.running ==> NoneFailed(c.client.pump.resolved))
  {
    TraceOk(trace, moves, n);
  }

  lemma QueueSplit(all: seq<nat>, done: seq<nat>, transit: seq<nat>, queue: seq<nat>)
    requires all == done + queue && done + transit <= all
    ensures queue == transit + all[|done + transit|..]
  {
    assert all[|done|..] == queue;
    assert all[..|done + transit|] == done + transit;
    assert all[|done|..|done + transit|] == transit;
  }

  lemma {:induction false} ControlOriginsSplit(out: seq<Reply>, n: nat)
    requires n <= |out|
    ensures ControlOrigins(out) == ControlOrigins(out[..n]) + ControlOrigins(out[n..])
    decreases |out|
  {
    if n < |out| {
      var front := out[..|out| - 1];
      ControlOriginsSplit(front, n);
      assert front[..n] == out[..n];
      assert out[n..][..|out| - 1 - n] == front[n..];
    } else {
      assert out[..n] == out;
    }
  }

  lemma QueueInTransit(received: seq<Message>, out: seq<Reply>, c: Client)
    requires HistoryOk(received, out) && LinkOk(received, out, c) && c.running
    ensures |ControlOrigins(out)| <= |ControlIndices(c.written)|
    ensures c.pump.controls == ControlOrigins(out[c.consumed..]) + ControlIndices(c.written)[|ControlOrigins(out)|..]
  {
    ControlOriginsSplit(out, c.consumed);
    ControlIndicesPrefix(c.written, |received|);
    assert c.written[..|received|] == received;
    QueueSplit(ControlIndices(c.written), ControlOrigins(out[..c.consumed]), ControlOrigins(out[c.consumed..]), c.pump.controls);
  }

  /**
   While the pump runs, its queue of control callers is the control replies in transit followed by
   the control requests that the server has not yet answered.
   */
  lemma QueueIsWhatIsInTransit(trace: seq<System>, moves: seq<Move>, n: nat)
    requires IsTrace(trace, moves) && Connected(trace[0]) && n < |trace| && trace[n].client.running
    ensures var c := trace[n];
            c.sid in c.world.sessions &&
            var out, client := c.world.sessions[c.sid].out, c.client;
            && client.consumed <= |out| && |ControlOrigins(out)| <= |ControlIndices(client.written)|
            && client.pump.controls ==
                 ControlOrigins(out[client.consumed..]) + ControlIndices(client.written)[|ControlOrigins(out)|..]
  {
    TraceOk(trace, moves, n);
    var c := trace[n];
    var s := c.world.sessions[c.sid];
    SessionHistoryOk(s);
    QueueInTransit(s.received, s.out, c.client);
  }
}
