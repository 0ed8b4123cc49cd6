/**
 What every step keeps of one session, whatever the other sessions and the environment do: each
 request is answered exactly once, control replies leave in the order of their requests, and no
 more than 64 URBs execute.
 */
module ServerSession {
  import opened Results
  import opened Bytes
  import opened Messages
  import opened Urb
  import opened Server
  import opened Tally

  // ---------------------------------------------------------------- requests and replies

  /** A request whose caller is found by its place in a queue, not by a sequence number. */
  predicate IsControl(request: Message) {
    !request.SubmitUrb? && !request.UnlinkUrb?
  }

  predicate IsControlReply(reply: Message) {
    !reply.CompleteUrb? && !reply.UrbUnlinked?
  }

  predicate Answers(request: Message, reply: Message) {
    match request
    case Hello(_, _, _, _) => reply.Hello?
    case PairRequest(_, _, _) => reply.PairResponse?
    case DeviceListRequest(_) => reply.DeviceList? || reply.Error?
    case AttachRequest(id, _) => (reply.AttachResponse? && reply.attachedId == id) || reply.Error?
    case DetachRequest(id, _) => reply == Detach(id) || reply.Error?
    case SubmitUrb(urb) => reply.CompleteUrb? && Fits(urb, reply.complete)
    case UnlinkUrb(seqNum, _) => reply.UrbUnlinked? && reply.unlinkedSeq == seqNum
    case _ => reply.Error?
  }

  predicate Asks(request: Message, command: Command) {
    match command
    case List => request.DeviceListRequest?
    case Attach(id) => request.AttachRequest? && request.attachId == id
    case Release(id) => request.DetachRequest? && request.detachId == id
  }

  predicate Bears(request: Message, token: Bytes32) {
    match request
    case DeviceListRequest(t) => t == token
    case AttachRequest(_, t) => t == token
    case DetachRequest(_, t) => t == token
    case _ => false
  }

  /** The phases in which the reader works on a request. */
  predicate Busy(phase: Phase) {
    !phase.Idle? && !phase.Draining? && !phase.Stopped? && !phase.Ended?
  }

  predicate Handles(phase: Phase, request: Message) {
    match phase
    case PairPin(client, hash) => request.PairRequest? && request.clientFingerprint == client && request.pinHash == hash
    case PairToken(client) => request.PairRequest? && request.clientFingerprint == client
    case PairPrincipal(client, _) => request.PairRequest? && request.clientFingerprint == client
    case CheckToken(token, command) => Asks(request, command) && Bears(request, token)
    case SetPrincipal(_, command) => Asks(request, command)
    case ListDevices => Asks(request, List)
    case AttachLookup(_, id) => Asks(request, Attach(id))
    case AttachLease(_, id, _) => Asks(request, Attach(id))
    case DetachLease(_, id) => Asks(request, Release(id))
    case UrbPrincipal(urb) => request == SubmitUrb(urb)
    case UrbTokens(urb, _) => request == SubmitUrb(urb)
    case UrbLease(urb, _, _) => request == SubmitUrb(urb)
    case UrbPresence(urb, _) => request == SubmitUrb(urb)
    case UrbSlot(urb, _, _) => request == SubmitUrb(urb)
    case UnlinkPrincipal(seqNum, id) => request == UnlinkUrb(seqNum, id)
    case UnlinkLease(seqNum, id, _) => request == UnlinkUrb(seqNum, id)
    case Sending(reply) => Answers(request, reply)
    case _ => false
  }

  predicate StageFits(urb: UrbSubmit, stage: Stage) {
    match stage
    case CustomDone(result) => Fits(urb, result)
    case HostDone(result) => Fits(urb, result)
    case Returned(result) => Fits(urb, result)
    case Unsent(result) => Fits(urb, result)
    case _ => true
  }

  lemma BeginHandles(config: Config, s: Session, msg: Message, a: Action)
    requires a.Receive? && a.msg == msg
    ensures Handles(Begin(config, s.peer, msg, a.debug), msg)
  {
  }

  lemma NextPhaseHandles(config: Config, sh: Shared, s: Session, drawn: Bytes32, token: Bytes32, request: Message)
    requires Handles(s.phase, request) && !s.phase.UrbSlot? && !s.phase.Sending?
    ensures Handles(NextPhase(config, sh, s, drawn, token), request)
  {
  }

  lemma NextStageFits(config: Config, sh: Shared, t: Task, answer: UrbComplete)
    requires StageFits(t.urb, t.stage)
    ensures StageFits(t.urb, NextStage(config, sh, t, answer))
  {
  }

  // ---------------------------------------------------------------- the shapes of a step

  /** The reader goes on with its request. */
  ghost predicate Continues(s: Session, t: Session) {
    && Busy(s.phase) && Busy(t.phase) && s.received != []
    && t.received == s.received && t.out == s.out && t.tasks == s.tasks && t.permits == s.permits
  }

  /** The reader hands its request to a new task. */
  ghost predicate Spawns(s: Session, t: Session) {
    && Busy(s.phase) && t.phase.Idle? && s.received != [] && s.permits > 0
    && s.phase.UrbSlot? && t.tasks == s.tasks[Current(s) := Task(s.phase.urb, s.phase.presence, Started)]
    && t.received == s.received && t.out == s.out && t.permits == s.permits - 1
  }

  /** The reader answers its request. */
  ghost predicate Replies(s: Session, t: Session) {
    && Busy(s.phase) && t.phase.Idle? && s.received != []
    && s.phase.Sending? && t.out == s.out + [Reply(s.phase.reply, Current(s))]
    && t.received == s.received && t.tasks == s.tasks && t.permits == s.permits
  }

  ghost predicate Reads(s: Session, t: Session, msg: Message) {
    && s.phase.Idle? && Busy(t.phase)
    && t.received == s.received + [msg] && t.out == s.out && t.tasks == s.tasks && t.permits == s.permits
  }

  /** A task goes on, keeping its permit or giving it back. */
  ghost predicate Works(s: Session, t: Session, o: nat) {
    && t.phase == s.phase && t.received == s.received && t.out == s.out
    && o in s.tasks && o in t.tasks && t.tasks == s.tasks[o := t.tasks[o]]
    && t.tasks[o].urb == s.tasks[o].urb && t.tasks[o].presence == s.tasks[o].presence && !s.tasks[o].stage.Unsent?
    && (StageFits(s.tasks[o].urb, s.tasks[o].stage) ==> StageFits(t.tasks[o].urb, t.tasks[o].stage))
    && t.permits == s.permits + if t.tasks[o].stage.Unsent? then 1 else 0
  }

  /** A task sends its completion. */
  ghost predicate Delivers(s: Session, t: Session, o: nat) {
    && t.phase == s.phase && t.received == s.received && t.permits == s.permits
    && o in s.tasks && s.tasks[o].stage.Unsent? && t.tasks == Without(s.tasks, o)
    && t.out == if Live(s) then s.out + [Reply(CompleteUrb(s.tasks[o].stage.result), o)] else s.out
  }

  /** The reader returns, or reader and writer stop. */
  ghost predicate Halts(s: Session, t: Session) {
    && !Busy(t.phase) && (Live(t) ==> s.phase.Idle?)
    && t.received == s.received && t.out == s.out && t.tasks == s.tasks && t.permits == s.permits
  }

  ghost predicate Shaped(s: Session, t: Session, a: Action) {
    match a
    case Receive(_, msg, _) => Reads(s, t, msg)
    case Section(_, _, _) => Continues(s, t) || Spawns(s, t) || Replies(s, t)
    case Progress(_, o, _) => Works(s, t, o) || Delivers(s, t, o)
    case _ => Halts(s, t)
  }

  lemma NextStageUnsent(config: Config, sh: Shared, t: Task, answer: UrbComplete)
    requires !t.stage.Unsent?
    ensures NextStage(config, sh, t, answer).Unsent? <==> t.stage.Returned?
  {
  }

  lemma ProgressShaped(config: Config, sh: Shared, s: Session, a: Action)
    requires a.Progress? && a.origin in s.tasks
    ensures Shaped(s, TaskStep(config, sh, s, a.origin, a.answer), a)
  {
    if !s.tasks[a.origin].stage.Unsent? {
      NextStageUnsent(config, sh, s.tasks[a.origin], a.answer);
      if StageFits(s.tasks[a.origin].urb, s.tasks[a.origin].stage) {
        NextStageFits(config, sh, s.tasks[a.origin], a.answer);
      }
    }
  }

  lemma SectionShaped(config: Config, sh: Shared, s: Session, a: Action, request: Message)
    requires a.Section? && Ready(sh, s, a.token) && s.received != [] && Handles(s.phase, request)
    ensures Shaped(s, NextSession(s, NextPhase(config, sh, s, a.drawn, a.token)), a)
  {
    var next := NextPhase(config, sh, s, a.drawn, a.token);
    if !s.phase.UrbSlot? && !s.phase.Sending? {
      NextPhaseHandles(config, sh, s, a.drawn, a.token, request);
      assert Busy(next);
    }
  }

  // ---------------------------------------------------------------- well-formed sessions

  ghost predicate PhaseBelongs(s: Session) {
    Busy(s.phase) ==> s.received != [] && Handles(s.phase, s.received[|s.received| - 1])
  }

  ghost predicate RepliesAnswer(received: seq<Message>, out: seq<Reply>) {
    forall i :: 0 <= i < |out| ==> out[i].origin < |received| && Answers(received[out[i].origin], out[i].msg)
  }

  ghost predicate TasksBelong(received: seq<Message>, tasks: map<nat, Task>) {
    forall o :: o in tasks ==>
      o < |received| && received[o] == SubmitUrb(tasks[o].urb) && StageFits(tasks[o].urb, tasks[o].stage)
  }

  ghost predicate WellFormed(s: Session) {
    PhaseBelongs(s) && RepliesAnswer(s.received, s.out) && TasksBelong(s.received, s.tasks)
  }

  lemma StepShaped(config: Config, sh: Shared, s: Session, a: Action)
    requires Enabled(sh, s, a) && PhaseBelongs(s)
    ensures Shaped(s, SessionAfter(config, sh, s, a), a)
  {
    match a
    case Receive(_, _, _) => BeginHandles(config, s, a.msg, a);
    case Section(_, _, _) => SectionShaped(config, sh, s, a, s.received[|s.received| - 1]);
    case Progress(_, _, _) => ProgressShaped(config, sh, s, a);
    case Eof(_) =>
    case Stop(_) =>
    case End(_) =>
  }

  lemma StepPhaseBelongs(config: Config, sh: Shared, s: Session, a: Action)
    requires Enabled(sh, s, a) && PhaseBelongs(s)
    ensures PhaseBelongs(SessionAfter(config, sh, s, a))
  {
    StepShaped(config, sh, s, a);
    match a
    case Receive(_, _, _) => BeginHandles(config, s, a.msg, a);
    case Section(_, drawn, token) =>
      if !s.phase.UrbSlot? && !s.phase.Sending? {
        NextPhaseHandles(config, sh, s, drawn, token, s.received[|s.received| - 1]);
      }
    case _ =>
  }

  lemma ShapedAnswers(s: Session, t: Session, a: Action)
    requires Shaped(s, t, a) && WellFormed(s)
    ensures RepliesAnswer(t.received, t.out)
  {
  }

  lemma ShapedTasksBelong(s: Session, t: Session, a: Action)
    requires Shaped(s, t, a) && WellFormed(s)
    ensures TasksBelong(t.received, t.tasks)
  {
  }

  lemma StepWellFormed(config: Config, sh: Shared, s: Session, a: Action)
    requires Enabled(sh, s, a) && WellFormed(s)
    ensures WellFormed(SessionAfter(config, sh, s, a))
  {
    StepShaped(config, sh, s, a);
    StepPhaseBelongs(config, sh, s, a);
    ShapedTasksBelong(s, SessionAfter(config, sh, s, a), a);
    ShapedAnswers(s, SessionAfter(config, sh, s, a), a);
  }

  // ---------------------------------------------------------------- every request is accounted for once

  function OriginOf(e: Reply): nat {
    e.origin
  }

  /** The requests answered. */
  ghost function Answered(out: seq<Reply>): set<nat> {
    Marks(OriginOf, out)
  }

  /** No request has two replies, or a reply and a task, or is handled and already answered or given to a task. */
  ghost predicate AtMostOnce(s: Session) {
    && Distinct(OriginOf, s.out)
    && (forall o :: o in s.tasks ==> o !in Answered(s.out))
    && (forall o :: o in s.tasks || o in Answered(s.out) ==> o < Handled(s))
  }

  /** As long as the session lives, every request read is being handled, in a task, or answered. */
  ghost predicate NoneLost(s: Session) {
    Live(s) ==> forall o: nat :: o < Handled(s) ==> o in s.tasks || o in Answered(s.out)
  }

  /** How many requests the reader is through with. */
  function Handled(s: Session): nat {
    if Busy(s.phase) && s.received != [] then |s.received| - 1 else |s.received|
  }

  ghost predicate Conserved(s: Session) {
    AtMostOnce(s) && NoneLost(s)
  }

  lemma RepliesConserved(s: Session, t: Session)
    requires Replies(s, t) && Conserved(s)
    ensures Conserved(t)
  {
    MarksLast(OriginOf, s.out, Reply(s.phase.reply, Current(s)));
    DistinctLast(OriginOf, s.out, Reply(s.phase.reply, Current(s)));
  }

  lemma DeliversConserved(s: Session, t: Session, o: nat)
    requires Delivers(s, t, o) && Conserved(s)
    ensures Conserved(t)
  {
    if Live(s) {
      var e := Reply(CompleteUrb(s.tasks[o].stage.result), o);
      MarksLast(OriginOf, s.out, e);
      DistinctLast(OriginOf, s.out, e);
    }
  }

  lemma ShapedConserved(s: Session, t: Session, a: Action)
    requires Shaped(s, t, a) && Conserved(s)
    ensures Conserved(t)
  {
    if Replies(s, t) {
      RepliesConserved(s, t);
    } else if a.Progress? && Delivers(s, t, a.origin) {
      DeliversConserved(s, t, a.origin);
    }
  }

  // ---------------------------------------------------------------- the order of control replies

  function ControlIndices(requests: seq<Message>): seq<nat> {
    if requests == [] then []
    else
      var n := |requests| - 1;
      ControlIndices(requests[..n]) + if IsControl(requests[n]) then [n] else []
  }

  function ControlOrigins(out: seq<Reply>): seq<nat> {
    if out == [] then []
    else
      var n := |out| - 1;
      ControlOrigins(out[..n]) + if IsControlReply(out[n].msg) then [out[n].origin] else []
  }

  lemma ControlIndicesLast(requests: seq<Message>, m: Message)
    ensures ControlIndices(requests + [m]) == ControlIndices(requests) + if IsControl(m) then [|requests|] else []
  {
    assert (requests + [m])[..|requests|] == requests;
  }

  lemma ControlOriginsLast(out: seq<Reply>, e: Reply)
    ensures ControlOrigins(out + [e]) == ControlOrigins(out) + if IsControlReply(e.msg) then [e.origin] else []
  {
    assert (out + [e])[..|out|] == out;
  }

  lemma {:induction false} ControlIndicesPrefix(requests: seq<Message>, n: nat)
    requires n <= |requests|
    ensures ControlIndices(requests[..n]) <= ControlIndices(requests)
    decreases |requests|
  {
    if n < |requests| {
      var front := requests[..|requests| - 1];
      ControlIndicesPrefix(front, n);
      assert front[..n] == requests[..n];
    } else {
      assert requests[..n] == requests;
    }
  }

  lemma AnswersSameKind(request: Message, reply: Message)
    requires Answers(request, reply)
    ensures IsControlReply(reply) <==> IsControl(request)
  {
  }

  /** The control replies sent answer the control requests read so far, in order, none left out. */
  ghost predicate InOrder(s: Session) {
    && (Live(s) ==> ControlOrigins(s.out) == ControlIndices(s.received[..Handled(s)]))
    && ControlOrigins(s.out) <= ControlIndices(s.received)
  }

  lemma ReadsInOrder(s: Session, t: Session, msg: Message)
    requires Reads(s, t, msg) && InOrder(s)
    ensures InOrder(t)
  {
    assert t.received[..Handled(t)] == s.received == s.received[..Handled(s)];
    ControlIndicesLast(s.received, msg);
  }

  /** Once the last request is dealt with, it counts as a control request or not. */
  lemma FinishesInOrder(s: Session, t: Session, last: Message, n: nat)
    requires InOrder(s) && Live(s) && Busy(s.phase) && t.phase.Idle? && t.received == s.received
    requires n == |s.received| - 1 && last == s.received[n]
    requires ControlOrigins(t.out) == ControlOrigins(s.out) + if IsControl(last) then [n] else []
    ensures InOrder(t)
  {
    var front := s.received[..n];
    assert s.received == front + [last];
    ControlIndicesLast(front, last);
    assert t.received[..Handled(t)] == s.received;
  }

  lemma RepliesInOrder(s: Session, t: Session)
    requires Replies(s, t) && InOrder(s) && PhaseBelongs(s)
    ensures InOrder(t)
  {
    var n := |s.received| - 1;
    AnswersSameKind(s.received[n], s.phase.reply);
    ControlOriginsLast(s.out, Reply(s.phase.reply, n));
    FinishesInOrder(s, t, s.received[n], n);
  }

  lemma SpawnsInOrder(s: Session, t: Session)
    requires Spawns(s, t) && InOrder(s) && PhaseBelongs(s)
    ensures InOrder(t)
  {
    FinishesInOrder(s, t, s.received[|s.received| - 1], |s.received| - 1);
  }

  lemma DeliversInOrder(s: Session, t: Session, o: nat)
    requires Delivers(s, t, o) && InOrder(s)
    ensures InOrder(t)
  {
    ControlOriginsLast(s.out, Reply(CompleteUrb(s.tasks[o].stage.result), o));
    assert ControlOrigins(t.out) == ControlOrigins(s.out);
  }

  lemma ShapedInOrder(s: Session, t: Session, a: Action)
    requires Shaped(s, t, a) && PhaseBelongs(s) && InOrder(s)
    ensures InOrder(t)
  {
    match a
    case Receive(_, msg, _) => ReadsInOrder(s, t, msg);
    case Section(_, _, _) =>
      if Spawns(s, t) {
        SpawnsInOrder(s, t);
      } else if Replies(s, t) {
        RepliesInOrder(s, t);
      }
    case Progress(_, o, _) =>
      if Delivers(s, t, o) {
        DeliversInOrder(s, t, o);
      }
    case _ => assert Live(t) ==> s.received[..Handled(t)] == s.received[..Handled(s)];
  }

  // ---------------------------------------------------------------- executing URBs

  ghost function Executing(tasks: map<nat, Task>): set<nat> {
    set o | o in tasks && !tasks[o].stage.Unsent?
  }

  /** Permits are conserved: each is free or held by one executing task. */
  ghost predicate PermitsBalance(s: Session) {
    s.permits + |Executing(s.tasks)| == MAX_IN_FLIGHT_URBS
  }

  lemma WorksPermits(s: Session, t: Session, o: nat)
    requires Works(s, t, o) && PermitsBalance(s)
    ensures PermitsBalance(t)
  {
    if t.tasks[o].stage.Unsent? {
      assert Executing(t.tasks) == Executing(s.tasks) - {o};
    } else {
      assert Executing(t.tasks) == Executing(s.tasks);
    }
  }

  lemma SpawnsPermits(s: Session, t: Session)
    requires Spawns(s, t) && AtMostOnce(s) && PermitsBalance(s)
    ensures PermitsBalance(t)
  {
    assert Executing(t.tasks) == Executing(s.tasks) + {Current(s)};
  }

  lemma ShapedPermits(s: Session, t: Session, a: Action)
    requires Shaped(s, t, a) && AtMostOnce(s) && PermitsBalance(s)
    ensures PermitsBalance(t)
  {
    match a
    case Section(_, _, _) =>
      if Spawns(s, t) {
        SpawnsPermits(s, t);
      }
    case Progress(_, o, _) =>
      if Works(s, t, o) {
        WorksPermits(s, t, o);
      } else {
        assert Executing(t.tasks) == Executing(s.tasks);
      }
    case _ =>
  }

  // ---------------------------------------------------------------- every step of every run

  ghost predicate SessionOk(s: Session) {
    WellFormed(s) && Conserved(s) && InOrder(s) && PermitsBalance(s)
  }

  lemma SessionStepOk(config: Config, sh: Shared, s: Session, a: Action)
    requires Enabled(sh, s, a) && SessionOk(s)
    ensures SessionOk(SessionAfter(config, sh, s, a))
  {
    var t := SessionAfter(config, sh, s, a);
    StepShaped(config, sh, s, a);
    StepWellFormed(config, sh, s, a);
    ShapedConserved(s, t, a);
    ShapedInOrder(s, t, a);
    ShapedPermits(s, t, a);
  }

  lemma ConnectedOk()
    ensures SessionOk(CONNECTED)
  {
    assert Executing(CONNECTED.tasks) == {};
  }

  ghost predicate SessionsOk(w: World) {
    forall sid :: sid in w.sessions ==> SessionOk(w.sessions[sid])
  }

  /** No session needs the others to keep its invariant. */
  lemma ApplySessionOk(w: World, a: Action, sid: nat)
    requires sid in w.sessions && SessionOk(w.sessions[sid])
    ensures sid in Apply(w, a).sessions && SessionOk(Apply(w, a).sessions[sid])
  {
    if Taken(w, a) {
      if a.sid == sid {
        SessionStepOk(w.config, w.shared, w.sessions[sid], a);
      }
      TakenStep(w, a);
    } else {
      UntakenStep(w, a);
    }
  }

  lemma ApplySessionsOk(w: World, a: Action)
    requires SessionsOk(w)
    ensures SessionsOk(Apply(w, a))
  {
    ConnectedOk();
    forall sid | sid in Apply(w, a).sessions ensures SessionOk(Apply(w, a).sessions[sid]) {
      if sid in w.sessions {
        ApplySessionOk(w, a, sid);
      } else {
        NewSession(w, a, sid);
      }
    }
  }

  lemma ShapedGrows(s: Session, t: Session, a: Action)
    requires Shaped(s, t, a)
    ensures s.out <= t.out
    ensures t.received == if a.Receive? then s.received + [a.msg] else s.received
  {
  }

  /** A server step leaves the session's history in place and adds to it at most. */
  lemma SessionGrows(w: World, a: Action, sid: nat)
    requires sid in w.sessions && SessionOk(w.sessions[sid])
    ensures sid in Apply(w, a).sessions
    ensures var s, t := w.sessions[sid], Apply(w, a).sessions[sid];
            s.out <= t.out && (t.received == s.received || (a.Receive? && a.sid == sid && t.received == s.received + [a.msg]))
  {
    if Taken(w, a) {
      TakenStep(w, a);
      if a.sid == sid {
        StepShaped(w.config, w.shared, w.sessions[sid], a);
        ShapedGrows(w.sessions[sid], SessionAfter(w.config, w.shared, w.sessions[sid], a), a);
      }
    } else {
      UntakenStep(w, a);
    }
  }

  lemma NewSession(w: World, a: Action, sid: nat)
    requires sid !in w.sessions && sid in Apply(w, a).sessions
    ensures Apply(w, a).sessions[sid] == CONNECTED
  {
    if Taken(w, a) {
      TakenStep(w, a);
    } else {
      UntakenStep(w, a);
    }
  }

  lemma {:induction false} RunSessionsOk(r: Run, n: nat)
    requires IsRun(r) && SessionsOk(r.states[0]) && n < |r.states|
    ensures SessionsOk(r.states[n])
  {
    if n > 0 {
      RunSessionsOk(r, n - 1);
      assert StepAt(r, n - 1);
      ApplySessionsOk(r.states[n - 1], r.actions[n - 1]);
    }
  }
}
