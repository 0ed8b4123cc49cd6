/**
 What a step changes besides the leases, exactly, and that nothing stands still: every request read is
 answered or handed to a task within five sections of the reader, and every task comes to its end.
 */
module ServerProgress {
  import opened Results
  import opened Bytes
  import opened Messages
  import Identity
  import opened Lease
  import opened Inventory
  import opened Urb
  import opened Server
  import opened ServerSession
  import opened ServerWorld
  import opened ServerRuns
  import opened ServerTrace

  // ---------------------------------------------------------------- what a step changes

  /** Time passes only by itself; tokens are only added, by pairings, for a day. */
  lemma ClockAndTokens(w: World, a: Action)
    ensures Apply(w, a).shared.clock == w.shared.clock + if a.Elapse? then a.millis else 0
    ensures var issued := Taken(w, a) && a.Section? && w.sessions[a.sid].phase.PairToken?;
            Apply(w, a).shared.tokens ==
            if issued then w.shared.tokens[a.token := Grant(w.sessions[a.sid].phase.client, w.shared.clock + 86_400_000)]
            else w.shared.tokens
  {
    if Taken(w, a) {
      TakenStep(w, a);
    } else {
      UntakenStep(w, a);
    }
  }

  /** The fingerprint of the last hello among the messages read. */
  function LastHello(received: seq<Message>): Option<Fingerprint> {
    if received == [] then None
    else if received[|received| - 1].Hello? then Some(received[|received| - 1].fingerprint)
    else LastHello(received[..|received| - 1])
  }

  /** The phases between the acceptance of a request's credential and its reply. */
  predicate Speaks(s: Session) {
    match s.phase
    case PairPin(client, _) => s.peer == Some(client)
    case PairToken(client) => s.peer == Some(client)
    case PairPrincipal(client, _) => s.peer == Some(client)
    case SetPrincipal(owner, _) => s.peer == Some(owner)
    case ListDevices => s.principal.Some? && s.principal == s.peer
    case AttachLookup(owner, _) => s.principal == s.peer == Some(owner)
    case AttachLease(owner, _, _) => s.principal == s.peer == Some(owner)
    case DetachLease(owner, _) => s.principal == s.peer == Some(owner)
    case Sending(reply) =>
      (reply.DeviceList? || reply.AttachResponse? || reply.Detach? || (reply.PairResponse? && reply.paired)) ==>
        s.principal.Some? && s.principal == s.peer
    case _ => true
  }

  ghost predicate Named(s: Session) {
    s.peer == LastHello(s.received) && Speaks(s)
  }

  lemma SectionSpeaks(config: Config, sh: Shared, s: Session, a: Action)
    requires a.Section? && Ready(sh, s, a.token) && Speaks(s)
    ensures Speaks(NextSession(s, NextPhase(config, sh, s, a.drawn, a.token)))
    ensures NextSession(s, NextPhase(config, sh, s, a.drawn, a.token)).peer == s.peer
    ensures NextSession(s, NextPhase(config, sh, s, a.drawn, a.token)).received == s.received
  {
  }

  lemma ReceiveNamed(config: Config, sh: Shared, s: Session, a: Action)
    requires a.Receive? && Enabled(sh, s, a) && Named(s)
    ensures Named(SessionAfter(config, sh, s, a))
  {
    var t := SessionAfter(config, sh, s, a);
    assert t.received[..|t.received| - 1] == s.received;
  }

  lemma MoveNamed(config: Config, sh: Shared, s: Session, a: Action)
    requires Enabled(sh, s, a) && Named(s)
    ensures Named(SessionAfter(config, sh, s, a))
  {
    match a
    case Receive(_, _, _) => ReceiveNamed(config, sh, s, a);
    case Section(_, _, _) => SectionSpeaks(config, sh, s, a);
    case Progress(_, o, answer) =>
      var t := TaskStep(config, sh, s, o, answer);
      assert t.phase == s.phase && t.peer == s.peer && t.principal == s.principal && t.received == s.received;
    case _ =>
  }

  /**
   In every run the peer of a session is the one its last hello named, and whoever is told a device
   list, an attach, a detach or a successful pairing is the session's principal under that very name.
   */
  lemma {:induction false} RunNamed(r: Run, n: nat, sid: nat)
    requires IsRun(r) && r.states[0].sessions == map[] && n < |r.states| && sid in r.states[n].sessions
    ensures Named(r.states[n].sessions[sid])
  {
    if n > 0 {
      if sid in r.states[n - 1].sessions {
        RunNamed(r, n - 1, sid);
      }
      HowSessionsChange(r, n - 1, sid);
      if Moves(r, n - 1, sid) {
        MoveNamed(r.states[n - 1].config, r.states[n - 1].shared, r.states[n - 1].sessions[sid], r.actions[n - 1]);
      }
    }
  }

  // ---------------------------------------------------------------- how a session ends

  /** Step `k` ends the session by a failure of its connection, or after its client stopped sending and its last task was through. */
  ghost predicate EndsAt(r: Run, k: nat, sid: nat) {
    && k < |r.actions| < |r.states| && sid in r.states[k].sessions
    && var s := r.states[k].sessions[sid];
       r.actions[k] == Stop(sid) || (r.actions[k] == End(sid) && s.phase.Draining? && s.tasks == map[])
  }

  lemma LeavesLive(config: Config, sh: Shared, s: Session, a: Action)
    requires Enabled(sh, s, a) && Live(s) && !Live(SessionAfter(config, sh, s, a))
    ensures a.Stop? || (a.End? && s.phase.Draining? && s.tasks == map[])
  {
    match a
    case Section(_, drawn, token) => SectionStaysLive(config, sh, s, drawn, token);
    case Progress(_, o, answer) => TaskKeepsPhase(config, sh, s, o, answer);
    case _ =>
  }

  lemma TaskKeepsPhase(config: Config, sh: Shared, s: Session, o: nat, answer: UrbComplete)
    requires o in s.tasks
    ensures TaskStep(config, sh, s, o, answer).phase == s.phase
  {
  }

  lemma SectionStaysLive(config: Config, sh: Shared, s: Session, drawn: Bytes32, token: Bytes32)
    requires Ready(sh, s, token)
    ensures Live(NextSession(s, NextPhase(config, sh, s, drawn, token)))
  {
  }

  /** A session stops sending only when its connection fails, or once a client that stopped sending has all its answers. */
  lemma {:induction false} EndsOnlyThen(r: Run, n: nat, sid: nat)
    requires IsRun(r) && r.states[0].sessions == map[] && n < |r.states| && sid in r.states[n].sessions && !Live(r.states[n].sessions[sid])
    ensures exists k: nat :: k < n && EndsAt(r, k, sid)
  {
    HowSessionsChange(r, n - 1, sid);
    var s := r.states[n - 1].sessions[sid];
    if !Live(s) {
      EndsOnlyThen(r, n - 1, sid);
      var k: nat :| k < n - 1 && EndsAt(r, k, sid);
      assert k < n;
    } else {
      LeavesLive(r.states[n - 1].config, r.states[n - 1].shared, s, r.actions[n - 1]);
      assert EndsAt(r, n - 1, sid);
    }
  }

  // ---------------------------------------------------------------- the reader gets somewhere

  /** How many sections the reader is away from being idle, at most. */
  function Distance(phase: Phase): nat {
    match phase
    case CheckToken(_, _) => 5
    case PairPin(_, _) => 4
    case UrbPrincipal(_) => 5
    case UrbTokens(_, _) => 4
    case SetPrincipal(_, _) => 4
    case PairToken(_) => 3
    case UrbLease(_, _, _) => 3
    case AttachLookup(_, _) => 3
    case UnlinkPrincipal(_, _) => 3
    case PairPrincipal(_, _) => 2
    case ListDevices => 2
    case AttachLease(_, _, _) => 2
    case DetachLease(_, _) => 2
    case UrbPresence(_, _) => 2
    case UnlinkLease(_, _, _) => 2
    case UrbSlot(_, _, _) => 1
    case Sending(_) => 1
    case _ => 0
  }

  /** What the reader may have to wait for: a refresh that holds the devices lock, a free slot, a fresh token. */
  predicate Waits(sh: Shared, s: Session, token: Bytes32) {
    || ((s.phase.ListDevices? || s.phase.AttachLookup? || s.phase.UrbPresence?) && sh.writer.Some?)
    || (s.phase.UrbSlot? && s.permits == 0)
    || (s.phase.PairToken? && token in sh.tokens)
  }

  /**
   A reader with a request in hand is never stuck but for what it waits for, and each section brings it
   nearer to having answered the request or handed it to a task, which takes five sections at most.
   */
  lemma ReaderAdvances(config: Config, sh: Shared, s: Session, a: Action)
    requires a.Section? && Busy(s.phase) && s.received != [] && s.permits <= MAX_IN_FLIGHT_URBS
    ensures 1 <= Distance(s.phase) <= 5
    ensures Enabled(sh, s, a) <==> !Waits(sh, s, a.token)
    ensures Enabled(sh, s, a) ==> Distance(SessionAfter(config, sh, s, a).phase) < Distance(s.phase)
  {
    ReadyIff(sh, s, a.token);
    if Enabled(sh, s, a) {
      SectionAdvances(config, sh, s, a.drawn, a.token);
    }
  }

  lemma ReadyIff(sh: Shared, s: Session, token: Bytes32)
    requires Busy(s.phase) && s.permits <= MAX_IN_FLIGHT_URBS
    ensures 1 <= Distance(s.phase) <= 5 && (Ready(sh, s, token) <==> !Waits(sh, s, token))
  {
  }

  lemma SectionAdvances(config: Config, sh: Shared, s: Session, drawn: Bytes32, token: Bytes32)
    requires Busy(s.phase) && s.received != [] && Ready(sh, s, token)
    ensures Distance(NextSession(s, NextPhase(config, sh, s, drawn, token)).phase) < Distance(s.phase)
  {
    PhaseAdvances(config, sh, s, drawn, token);
    if s.phase.UrbSlot? || s.phase.Sending? {
      SlotOrReply(config, sh, s, drawn, token);
    } else {
      NextSessionPhase(s, NextPhase(config, sh, s, drawn, token));
    }
  }

  lemma SlotOrReply(config: Config, sh: Shared, s: Session, drawn: Bytes32, token: Bytes32)
    requires (s.phase.UrbSlot? && s.permits > 0) || s.phase.Sending?
    requires s.received != []
    ensures NextSession(s, NextPhase(config, sh, s, drawn, token)).phase.Idle?
  {
  }

  lemma PhaseAdvances(config: Config, sh: Shared, s: Session, drawn: Bytes32, token: Bytes32)
    requires Busy(s.phase)
    ensures Distance(NextPhase(config, sh, s, drawn, token)) < Distance(s.phase)
  {
    match s.phase
    case PairPin(_, _) =>
    case CheckToken(_, _) =>
    case SetPrincipal(_, _) =>
    case AttachLookup(_, _) =>
    case UrbPrincipal(_) =>
    case UrbLease(_, _, _) =>
    case UrbPresence(_, _) =>
    case UnlinkPrincipal(_, _) =>
    case _ =>
  }

  // ---------------------------------------------------------------- a task gets somewhere

  function Remaining(stage: Stage): nat {
    match stage
    case Started => 7
    case Looking => 6
    case HostStarting => 5
    case HostRunning => 4
    case CustomRunning => 4
    case CustomDone(_) => 3
    case HostDone(_) => 3
    case Returned(_) => 2
    case Unsent(_) => 1
  }

  /** What a task may have to wait for: the devices lock, or a completer that has not returned. */
  predicate Blocked(sh: Shared, t: Task, answer: UrbComplete) {
    || (t.stage.Looking? && sh.writer.Some?)
    || ((t.stage.CustomRunning? || t.stage.HostRunning?) && !Fits(t.urb, answer))
  }

  /** A step of a task that is not blocked brings it nearer to its end; the last step sends its result and removes it. */
  lemma TaskAdvances(config: Config, sh: Shared, s: Session, o: nat, answer: UrbComplete)
    requires o in s.tasks
    ensures var t, after := s.tasks[o], TaskStep(config, sh, s, o, answer);
            if t.stage.Unsent? then
              o !in after.tasks && (Live(s) ==> after.out == s.out + [Reply(CompleteUrb(t.stage.result), o)])
            else
              && o in after.tasks
              && (if Blocked(sh, t, answer) then after.tasks[o] == t else Remaining(after.tasks[o].stage) < Remaining(t.stage))
  {
    if !s.tasks[o].stage.Unsent? {
      StageAdvances(config, sh, s.tasks[o], answer);
    }
  }

  lemma StageAdvances(config: Config, sh: Shared, t: Task, answer: UrbComplete)
    requires !t.stage.Unsent?
    ensures if Blocked(sh, t, answer) then NextStage(config, sh, t, answer) == t.stage
            else Remaining(NextStage(config, sh, t, answer)) < Remaining(t.stage)
  {
  }
}
