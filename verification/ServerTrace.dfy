/**
 Where a completion comes from: every URB task passed a token check and a lease check and took a
 presence flag, in that order, and a result that is not a failure was read off a raised flag.
 */
module ServerTrace {
  import opened Results
  import opened Bytes
  import opened Messages
  import opened Lease
  import opened Inventory
  import opened Urb
  import opened Server
  import opened ServerSession
  import opened ServerWorld
  import opened ServerRuns

  // ---------------------------------------------------------------- one session along a run

  /** Session `sid` exists in state `n` and the last request it read is `o`. */
  ghost predicate Working(r: Run, n: nat, sid: nat, o: nat) {
    n < |r.states| && sid in r.states[n].sessions && |r.states[n].sessions[sid].received| == o + 1
  }

  /** Step `n` is a step of session `sid`. */
  ghost predicate Moves(r: Run, n: nat, sid: nat) {
    n < |r.actions| < |r.states| && Taken(r.states[n], r.actions[n]) && r.actions[n].sid == sid
  }

  /** Step `n` is a section of the reader of session `sid`. */
  ghost predicate Acts(r: Run, n: nat, sid: nat) {
    n < |r.actions| && r.actions[n].Section? && r.actions[n].sid == sid
  }

  lemma HowSessionsChange(r: Run, n: nat, sid: nat)
    requires IsRun(r) && n < |r.actions| && sid in r.states[n + 1].sessions
    ensures sid in r.states[n].sessions || r.states[n + 1].sessions[sid] == CONNECTED
    ensures !Moves(r, n, sid) && sid in r.states[n].sessions ==> r.states[n + 1].sessions[sid] == r.states[n].sessions[sid]
    ensures Moves(r, n, sid) ==>
              && sid in r.states[n].sessions && Enabled(r.states[n].shared, r.states[n].sessions[sid], r.actions[n])
              && r.states[n + 1].sessions[sid] ==
                   SessionAfter(r.states[n].config, r.states[n].shared, r.states[n].sessions[sid], r.actions[n])
  {
    assert StepAt(r, n);
    if Taken(r.states[n], r.actions[n]) {
      TakenStep(r.states[n], r.actions[n]);
    } else {
      UntakenStep(r.states[n], r.actions[n]);
    }
  }

  // ---------------------------------------------------------------- the three checks of a submission

  /** Step `i` checks that the principal of the session holds an unexpired token, and it does. */
  ghost predicate TokenChecked(r: Run, i: nat, sid: nat, o: nat, urb: UrbSubmit, owner: Fingerprint) {
    && Working(r, i, sid, o) && Acts(r, i, sid)
    && r.states[i].sessions[sid].phase == UrbTokens(urb, owner)
    && r.states[i].sessions[sid].principal == Some(owner)
    && exists t :: t in r.states[i].shared.tokens && r.states[i].shared.tokens[t].owner == owner &&
                   r.states[i].shared.clock <= r.states[i].shared.tokens[t].expires
  }

  /** Step `j` checks that the principal leases the device, and it does. */
  ghost predicate LeaseChecked(r: Run, j: nat, sid: nat, o: nat, urb: UrbSubmit, owner: Fingerprint) {
    && Working(r, j, sid, o) && Acts(r, j, sid)
    && r.states[j].sessions[sid].phase == UrbLease(urb, owner, true)
    && urb.deviceId in r.states[j].shared.leases && r.states[j].shared.leases[urb.deviceId] == owner
  }

  /** Step `l` takes the presence flag of the device. */
  ghost predicate FlagTaken(r: Run, l: nat, sid: nat, o: nat, urb: UrbSubmit, owner: Fingerprint, p: nat) {
    && Working(r, l, sid, o) && Acts(r, l, sid)
    && r.states[l].sessions[sid].phase == UrbPresence(urb, owner)
    && r.states[l].shared.writer.None?
    && urb.deviceId in InvAt(r, l).presence && InvAt(r, l).presence[urb.deviceId] == p
  }

  /** Before state `n`, request `o` passed all three checks in order and took flag `p`. */
  ghost predicate Admitted(r: Run, n: nat, sid: nat, o: nat, urb: UrbSubmit, owner: Fingerprint, p: nat) {
    exists i: nat, j: nat, l: nat ::
      i < j < l < n && TokenChecked(r, i, sid, o, urb, owner) && LeaseChecked(r, j, sid, o, urb, owner) &&
      FlagTaken(r, l, sid, o, urb, owner, p)
  }

  lemma AdmittedLater(r: Run, n: nat, sid: nat, o: nat, urb: UrbSubmit, owner: Fingerprint, p: nat)
    requires Admitted(r, n, sid, o, urb, owner, p)
    ensures Admitted(r, n + 1, sid, o, urb, owner, p)
  {
    var i: nat, j: nat, l: nat :| i < j < l < n && TokenChecked(r, i, sid, o, urb, owner) && LeaseChecked(r, j, sid, o, urb, owner) &&
      FlagTaken(r, l, sid, o, urb, owner, p);
    assert i < j < l < n + 1;
  }

  /** The completions the reader sends itself. */
  predicate Refused(c: UrbComplete) {
    c == Denied(c.seqNum) || c == Failed(c.seqNum)
  }

  /** What the checks made so far amount to while the reader is between them. */
  ghost predicate PhaseTraced(r: Run, n: nat, sid: nat, o: nat, principal: Option<Fingerprint>, phase: Phase) {
    match phase
    case UrbTokens(urb, owner) => principal == Some(owner)
    case UrbLease(urb, owner, active) => active ==> exists i: nat :: i < n && TokenChecked(r, i, sid, o, urb, owner)
    case UrbPresence(urb, owner) =>
      exists i: nat, j: nat :: i < j < n && TokenChecked(r, i, sid, o, urb, owner) && LeaseChecked(r, j, sid, o, urb, owner)
    case UrbSlot(urb, owner, p) => Admitted(r, n, sid, o, urb, owner, p)
    case Sending(reply) => reply.CompleteUrb? ==> Refused(reply.complete)
    case _ => true
  }

  lemma PhaseTracedLater(r: Run, n: nat, sid: nat, o: nat, principal: Option<Fingerprint>, phase: Phase)
    requires PhaseTraced(r, n, sid, o, principal, phase)
    ensures PhaseTraced(r, n + 1, sid, o, principal, phase)
  {
    match phase
    case UrbLease(urb, owner, active) =>
    case UrbPresence(urb, owner) =>
      var i: nat, j: nat :| i < j < n && TokenChecked(r, i, sid, o, urb, owner) && LeaseChecked(r, j, sid, o, urb, owner);
      assert i < j < n + 1;
    case UrbSlot(urb, owner, p) => AdmittedLater(r, n, sid, o, urb, owner, p);
    case _ =>
  }

  lemma TokensTraced(r: Run, n: nat, sid: nat, o: nat, s: Session, urb: UrbSubmit, owner: Fingerprint)
    requires Working(r, n, sid, o) && Acts(r, n, sid) && s == r.states[n].sessions[sid]
    requires s.phase == UrbTokens(urb, owner) && s.principal == Some(owner)
    ensures PhaseTraced(r, n + 1, sid, o, s.principal,
              UrbLease(urb, owner, Active(r.states[n].shared.tokens, owner, r.states[n].shared.clock)))
  {
    if Active(r.states[n].shared.tokens, owner, r.states[n].shared.clock) {
      assert TokenChecked(r, n, sid, o, urb, owner);
    }
  }

  lemma LeaseTraced(r: Run, n: nat, sid: nat, o: nat, s: Session, urb: UrbSubmit, owner: Fingerprint, active: bool)
    requires Working(r, n, sid, o) && Acts(r, n, sid) && s == r.states[n].sessions[sid]
    requires s.phase == UrbLease(urb, owner, active) && PhaseTraced(r, n, sid, o, s.principal, s.phase)
    ensures PhaseTraced(r, n + 1, sid, o, s.principal,
              LeaseReply(urb, owner, active, OwnerOf(r.states[n].shared.leases, urb.deviceId) == Some(owner)))
  {
    if active && OwnerOf(r.states[n].shared.leases, urb.deviceId) == Some(owner) {
      var i: nat :| i < n && TokenChecked(r, i, sid, o, urb, owner);
      assert LeaseChecked(r, n, sid, o, urb, owner);
      assert i < n < n + 1;
    }
  }

  lemma FlagTraced(r: Run, n: nat, sid: nat, o: nat, s: Session, urb: UrbSubmit, owner: Fingerprint)
    requires Working(r, n, sid, o) && Acts(r, n, sid) && s == r.states[n].sessions[sid]
    requires s.phase == UrbPresence(urb, owner) && PhaseTraced(r, n, sid, o, s.principal, s.phase)
    requires r.states[n].shared.writer.None? && urb.deviceId in InvAt(r, n).presence
    ensures PhaseTraced(r, n + 1, sid, o, s.principal, UrbSlot(urb, owner, InvAt(r, n).presence[urb.deviceId]))
  {
    var i: nat, j: nat :| i < j < n && TokenChecked(r, i, sid, o, urb, owner) && LeaseChecked(r, j, sid, o, urb, owner);
    assert FlagTaken(r, n, sid, o, urb, owner, InvAt(r, n).presence[urb.deviceId]);
    assert i < j < n < n + 1;
  }

  /** The phases about which `PhaseTraced` says nothing. */
  predicate Quiet(phase: Phase) {
    && !phase.UrbTokens? && !phase.UrbLease? && !phase.UrbPresence? && !phase.UrbSlot?
    && (phase.Sending? ==> !phase.reply.CompleteUrb?)
  }

  lemma QuietNext(config: Config, sh: Shared, s: Session, drawn: Bytes32, token: Bytes32)
    requires Quiet(s.phase) && !s.phase.UrbPrincipal?
    ensures Quiet(NextPhase(config, sh, s, drawn, token))
  {
    match s.phase
    case PairPin(_, _) =>
    case PairToken(_) =>
    case PairPrincipal(_, _) =>
    case CheckToken(_, _) =>
    case SetPrincipal(_, _) =>
    case AttachLookup(_, _) =>
    case AttachLease(_, _, _) =>
    case UnlinkPrincipal(_, _) =>
    case UnlinkLease(_, _, _) =>
    case _ =>
  }

  /** One section of the reader, taken as step `n`. */
  lemma SectionTraced(r: Run, n: nat, sid: nat, s: Session, o: nat, drawn: Bytes32, token: Bytes32)
    requires Working(r, n, sid, o) && Acts(r, n, sid) && s == r.states[n].sessions[sid]
    requires PhaseTraced(r, n, sid, o, s.principal, s.phase) && !s.phase.UrbSlot? && !s.phase.Sending?
    requires s.phase.UrbPresence? ==> r.states[n].shared.writer.None?
    ensures var next := NextPhase(r.states[n].config, r.states[n].shared, s, drawn, token);
            PhaseTraced(r, n + 1, sid, o, NextSession(s, next).principal, next)
  {
    if s.phase.UrbTokens? {
      TokensTraced(r, n, sid, o, s, s.phase.urb, s.phase.owner);
    } else if s.phase.UrbLease? {
      LeaseTraced(r, n, sid, o, s, s.phase.urb, s.phase.owner, s.phase.active);
    } else if s.phase.UrbPresence? {
      if s.phase.urb.deviceId in InvAt(r, n).presence {
        FlagTraced(r, n, sid, o, s, s.phase.urb, s.phase.owner);
      }
    } else if !s.phase.UrbPrincipal? {
      QuietNext(r.states[n].config, r.states[n].shared, s, drawn, token);
    }
  }

  lemma IdleTraced(r: Run, n: nat, sid: nat, o: nat, principal: Option<Fingerprint>, phase: Phase)
    requires Quiet(phase)
    ensures PhaseTraced(r, n, sid, o, principal, phase)
  {
  }

  lemma NextSessionPhase(s: Session, next: Phase)
    requires !s.phase.UrbSlot? && !s.phase.Sending?
    ensures NextSession(s, next).phase == next
  {
  }

  lemma FinishedPhase(s: Session, t: Session, a: Action)
    requires a.Section? && Shaped(s, t, a) && (s.phase.UrbSlot? || s.phase.Sending?)
    requires t == NextSession(s, Idle) && (s.phase.UrbSlot? ==> s.permits > 0)
    ensures t.phase.Idle?
  {
  }

  lemma SameRequest(s: Session, t: Session, a: Action)
    requires a.Section? && Shaped(s, t, a) && !s.phase.UrbSlot? && !s.phase.Sending?
    ensures Handled(t) == Handled(s) && |s.received| == Handled(s) + 1 && Busy(s.phase)
  {
    assert Continues(s, t);
  }

  /** A step of the reader, told by its shape. */
  lemma ReaderTraced(r: Run, n: nat, sid: nat, s: Session, t: Session, a: Action, next: Phase)
    requires Acts(r, n, sid) && n < |r.states| && sid in r.states[n].sessions && s == r.states[n].sessions[sid] && a.Section?
    requires s.phase.UrbPresence? ==> r.states[n].shared.writer.None?
    requires PhaseTraced(r, n, sid, Handled(s), s.principal, s.phase) && Shaped(s, t, a)
    requires t == NextSession(s, next) && (s.phase.UrbSlot? ==> s.permits > 0)
    requires next == NextPhase(r.states[n].config, r.states[n].shared, s, a.drawn, a.token)
    ensures PhaseTraced(r, n + 1, sid, Handled(t), t.principal, t.phase)
  {
    if s.phase.UrbSlot? || s.phase.Sending? {
      FinishedPhase(s, t, a);
      IdleTraced(r, n + 1, sid, Handled(t), t.principal, t.phase);
    } else {
      NextSessionPhase(s, next);
      SameRequest(s, t, a);
      SectionTraced(r, n, sid, s, Handled(t), a.drawn, a.token);
    }
  }

  lemma BeginQuiet(config: Config, s: Session, a: Action)
    requires a.Receive?
    ensures Quiet(Begin(config, s.peer, a.msg, a.debug))
  {
  }

  ghost predicate Moving(r: Run, n: nat, sid: nat, s: Session, a: Action) {
    && Moves(r, n, sid) && sid in r.states[n].sessions && s == r.states[n].sessions[sid] && a == r.actions[n]
    && Enabled(r.states[n].shared, s, a) && PhaseBelongs(s) && PhaseTraced(r, n, sid, Handled(s), s.principal, s.phase)
  }

  lemma SectionMoveTraced(r: Run, n: nat, sid: nat, s: Session, a: Action)
    requires Moving(r, n, sid, s, a) && a.Section?
    ensures var t := SessionAfter(r.states[n].config, r.states[n].shared, s, a);
            PhaseTraced(r, n + 1, sid, Handled(t), t.principal, t.phase)
  {
    var next := NextPhase(r.states[n].config, r.states[n].shared, s, a.drawn, a.token);
    StepShaped(r.states[n].config, r.states[n].shared, s, a);
    ReaderTraced(r, n, sid, s, NextSession(s, next), a, next);
  }

  lemma ProgressMoveTraced(r: Run, n: nat, sid: nat, s: Session, a: Action)
    requires Moving(r, n, sid, s, a) && a.Progress?
    ensures var t := SessionAfter(r.states[n].config, r.states[n].shared, s, a);
            PhaseTraced(r, n + 1, sid, Handled(t), t.principal, t.phase)
  {
    var t := TaskStep(r.states[n].config, r.states[n].shared, s, a.origin, a.answer);
    assert t.phase == s.phase && t.principal == s.principal && t.received == s.received;
    PhaseTracedLater(r, n, sid, Handled(s), s.principal, s.phase);
  }

  lemma MoveTraced(r: Run, n: nat, sid: nat, s: Session, a: Action)
    requires Moving(r, n, sid, s, a)
    ensures var t := SessionAfter(r.states[n].config, r.states[n].shared, s, a);
            PhaseTraced(r, n + 1, sid, Handled(t), t.principal, t.phase)
  {
    if a.Section? {
      SectionMoveTraced(r, n, sid, s, a);
    } else if a.Progress? {
      ProgressMoveTraced(r, n, sid, s, a);
    } else {
      if a.Receive? {
        BeginQuiet(r.states[n].config, s, a);
      }
      var t := SessionAfter(r.states[n].config, r.states[n].shared, s, a);
      IdleTraced(r, n + 1, sid, Handled(t), t.principal, t.phase);
    }
  }

  // ---------------------------------------------------------------- results of tasks

  /** Step `k` is the one in which the task of request `o` settles on result `c`. */
  ghost predicate Decides(r: Run, k: nat, sid: nat, o: nat, c: UrbComplete) {
    && k + 1 < |r.states| && sid in r.states[k].sessions && sid in r.states[k + 1].sessions
    && o in r.states[k].sessions[sid].tasks && o in r.states[k + 1].sessions[sid].tasks
    && !r.states[k].sessions[sid].tasks[o].stage.Returned?
    && r.states[k + 1].sessions[sid].tasks[o].stage == Returned(c)
  }

  // ---------------------------------------------------------------- what tasks settle on

  /** Step `k` is a step of the task of request `o`, which works on `urb`. */
  ghost predicate Runs(r: Run, k: nat, sid: nat, o: nat, urb: UrbSubmit) {
    && k < |r.actions| < |r.states| && r.actions[k].Progress? && r.actions[k].sid == sid && r.actions[k].origin == o
    && sid in r.states[k].sessions && o in r.states[k].sessions[sid].tasks && r.states[k].sessions[sid].tasks[o].urb == urb
  }

  /** Step `h` finds the device among the present ones, as a device of the host on Linux. */
  ghost predicate FoundHost(r: Run, h: nat, sid: nat, o: nat, urb: UrbSubmit) {
    && Runs(r, h, sid, o, urb) && r.states[h].config.linux
    && urb.deviceId in InvAt(r, h).present && InvAt(r, h).present[urb.deviceId].backend == Host
  }

  /** At step `h`, just before the completer or the USB library is given the URB, the device is still present. */
  ghost predicate Entrusts(r: Run, h: nat, sid: nat, o: nat, urb: UrbSubmit) {
    && Runs(r, h, sid, o, urb) && urb.deviceId in InvAt(r, h).present
    && if r.states[h].config.custom then r.states[h].sessions[sid].tasks[o].stage.Started?
       else r.states[h].sessions[sid].tasks[o].stage.HostStarting?
  }

  ghost predicate HasEntrusted(r: Run, n: nat, sid: nat, o: nat, urb: UrbSubmit) {
    exists h: nat :: h < n && Entrusts(r, h, sid, o, urb)
  }

  /** In step `q` the completer of request `o`, or the USB library if there is no custom one, returns `c`. */
  ghost predicate Completes(r: Run, q: nat, sid: nat, o: nat, urb: UrbSubmit, c: UrbComplete) {
    && Runs(r, q, sid, o, urb) && r.actions[q].answer == c && HasEntrusted(r, q, sid, o, urb)
    && if r.states[q].config.custom then r.states[q].sessions[sid].tasks[o].stage.CustomRunning?
       else r.states[q].sessions[sid].tasks[o].stage.HostRunning? && exists h: nat :: h < q && FoundHost(r, h, sid, o, urb)
  }

  /** Without a custom completer, step `k` finds the device present as an emulated one. */
  ghost predicate FoundEmulated(r: Run, k: nat, sid: nat, o: nat, urb: UrbSubmit) {
    && Runs(r, k, sid, o, urb) && !r.states[k].config.custom
    && urb.deviceId in InvAt(r, k).present && InvAt(r, k).present[urb.deviceId].backend == Emulated
  }

  /** At step `k` of the task the device is gone, or is the host's on a platform other than Linux. */
  ghost predicate FailsAt(r: Run, k: nat, sid: nat, o: nat, urb: UrbSubmit) {
    && Runs(r, k, sid, o, urb)
    && (urb.deviceId !in InvAt(r, k).present
        || (InvAt(r, k).present[urb.deviceId].backend == Host && !r.states[k].config.linux && !r.states[k].config.custom))
  }

  /** What step `k` settles on is what the completer returned before, or what the emulator answers. */
  ghost predicate Sourced(r: Run, k: nat, sid: nat, o: nat, urb: UrbSubmit, c: UrbComplete) {
    || (exists q: nat :: q < k && Completes(r, q, sid, o, urb, c))
    || (FoundEmulated(r, k, sid, o, urb) && c == EmulatorComplete(urb))
  }

  /** Step `k` settles on `c`, which has a source, and in state `k` the flag request `o` took was raised. */
  ghost predicate Vouched(r: Run, k: nat, sid: nat, o: nat, urb: UrbSubmit, c: UrbComplete) {
    && k < |r.states| && Decides(r, k, sid, o, c) && Sourced(r, k, sid, o, urb, c)
    && exists p :: Holds(r, k, sid, o, urb, p) && Raised(InvAt(r, k), p)
  }

  ghost predicate HasFailed(r: Run, n: nat, sid: nat, o: nat, urb: UrbSubmit) {
    exists k: nat :: k < n && FailsAt(r, k, sid, o, urb)
  }

  /** A result is a failure for which there was a reason, or has a source and was read off a raised flag before state `n`. */
  ghost predicate Genuine(r: Run, n: nat, sid: nat, o: nat, urb: UrbSubmit, c: UrbComplete) {
    (c == Failed(urb.seqNum) && HasFailed(r, n, sid, o, urb)) || exists k: nat :: k < n && Vouched(r, k, sid, o, urb, c)
  }

  ghost predicate HasFoundHost(r: Run, n: nat, sid: nat, o: nat, urb: UrbSubmit) {
    exists h: nat :: h < n && FoundHost(r, h, sid, o, urb)
  }

  ghost predicate HasCompleted(r: Run, n: nat, sid: nat, o: nat, urb: UrbSubmit, c: UrbComplete) {
    exists q: nat :: q < n && Completes(r, q, sid, o, urb, c)
  }

  predicate HasCustom(r: Run) {
    r.states != [] && r.states[0].config.custom
  }

  /** What has happened to a task by the time it is at its stage. */
  ghost predicate StageTraced(r: Run, n: nat, sid: nat, o: nat, t: Task) {
    match t.stage
    case Started => true
    case CustomRunning => HasCustom(r) && HasEntrusted(r, n, sid, o, t.urb)
    case CustomDone(c) => HasCompleted(r, n, sid, o, t.urb, c)
    case Looking => !HasCustom(r)
    case HostStarting => !HasCustom(r) && HasFoundHost(r, n, sid, o, t.urb)
    case HostRunning => !HasCustom(r) && HasFoundHost(r, n, sid, o, t.urb) && HasEntrusted(r, n, sid, o, t.urb)
    case HostDone(c) => HasCompleted(r, n, sid, o, t.urb, c) || (c == Failed(t.urb.seqNum) && HasFailed(r, n, sid, o, t.urb))
    case Returned(c) => Genuine(r, n, sid, o, t.urb, c)
    case Unsent(c) => Genuine(r, n, sid, o, t.urb, c)
  }

  /** Request `o` passed the checks and took flag `p`, for some principal. */
  ghost predicate Holds(r: Run, n: nat, sid: nat, o: nat, urb: UrbSubmit, p: nat) {
    exists owner :: Admitted(r, n, sid, o, urb, owner, p)
  }

  lemma HoldsLater(r: Run, n: nat, sid: nat, o: nat, urb: UrbSubmit, p: nat)
    requires Holds(r, n, sid, o, urb, p)
    ensures Holds(r, n + 1, sid, o, urb, p)
  {
    var owner :| Admitted(r, n, sid, o, urb, owner, p);
    AdmittedLater(r, n, sid, o, urb, owner, p);
  }

  lemma HistoryLater(r: Run, n: nat, sid: nat, o: nat, urb: UrbSubmit, c: UrbComplete)
    ensures HasFoundHost(r, n, sid, o, urb) ==> HasFoundHost(r, n + 1, sid, o, urb)
    ensures HasEntrusted(r, n, sid, o, urb) ==> HasEntrusted(r, n + 1, sid, o, urb)
    ensures HasCompleted(r, n, sid, o, urb, c) ==> HasCompleted(r, n + 1, sid, o, urb, c)
    ensures HasFailed(r, n, sid, o, urb) ==> HasFailed(r, n + 1, sid, o, urb)
    ensures Genuine(r, n, sid, o, urb, c) ==> Genuine(r, n + 1, sid, o, urb, c)
  {
  }

  ghost predicate TaskTraced(r: Run, n: nat, sid: nat, o: nat, t: Task) {
    Holds(r, n, sid, o, t.urb, t.presence) && StageTraced(r, n, sid, o, t)
  }

  /** The result a stage carries, if it carries one. */
  function ResultOf(t: Task): UrbComplete {
    match t.stage
    case CustomDone(c) => c
    case HostDone(c) => c
    case Returned(c) => c
    case Unsent(c) => c
    case _ => Failed(t.urb.seqNum)
  }

  lemma TaskTracedLater(r: Run, n: nat, sid: nat, o: nat, t: Task)
    requires TaskTraced(r, n, sid, o, t)
    ensures TaskTraced(r, n + 1, sid, o, t)
  {
    HoldsLater(r, n, sid, o, t.urb, t.presence);
    HistoryLater(r, n, sid, o, t.urb, ResultOf(t));
  }

  lemma {:induction false} ConfigStays(r: Run, n: nat)
    requires IsRun(r) && n < |r.states|
    ensures r.states[n].config == r.states[0].config
  {
    if n > 0 {
      ConfigStays(r, n - 1);
      assert StepAt(r, n - 1);
      if Taken(r.states[n - 1], r.actions[n - 1]) {
        TakenStep(r.states[n - 1], r.actions[n - 1]);
      } else {
        UntakenStep(r.states[n - 1], r.actions[n - 1]);
      }
    }
  }

  // ---------------------------------------------------------------- one step of a task

  /** The flag of a task is raised exactly while its device is present, and the lookup finds that device. */
  predicate Sees(inv: Inventory, t: Task) {
    && (Raised(inv, t.presence) <==> t.urb.deviceId in inv.present)
    && Find(DevicesInOrder(inv), t.urb.deviceId)
         == if t.urb.deviceId in inv.present then Some(inv.present[t.urb.deviceId]) else None
  }

  lemma SeesTruly(inv: Inventory, t: Task)
    requires Consistent(inv) && t.presence < |inv.tokens| && inv.tokens[t.presence].id == t.urb.deviceId
    ensures Sees(inv, t)
  {
    SnapshotFind(inv, t.urb.deviceId);
  }

  lemma LookingStage(config: Config, sh: Shared, t: Task, answer: UrbComplete)
    requires t.stage.Looking?
    ensures NextStage(config, sh, t, answer) == if sh.writer.None? then Found(config, sh, t.urb) else Looking
  {
  }

  /** What the lookup of a device leads to. */
  lemma FoundStage(config: Config, sh: Shared, t: Task)
    requires Sees(sh.inv, t)
    ensures var next, id, present := Found(config, sh, t.urb), t.urb.deviceId, sh.inv.present;
            if id !in present then next == Returned(Failed(t.urb.seqNum))
            else if present[id].backend == Emulated then next == Returned(EmulatorComplete(t.urb))
            else if config.linux then next == HostStarting
            else next == Returned(Failed(t.urb.seqNum))
  {
  }

  lemma CheckedStage(config: Config, sh: Shared, t: Task, answer: UrbComplete, next: Stage)
    requires Sees(sh.inv, t) && !t.stage.Looking? && !t.stage.Returned? && !t.stage.Unsent? && next == NextStage(config, sh, t, answer)
    ensures !next.Unsent?
    ensures next.Returned? ==>
              if t.urb.deviceId in sh.inv.present then (t.stage.CustomDone? || t.stage.HostDone?) && next.result == t.stage.result
              else next.result == Failed(t.urb.seqNum)
  {
  }

  /** The device is gone, or is the host's and looked up on a platform that does not serve it. */
  predicate Unserved(config: Config, inv: Inventory, t: Task) {
    t.urb.deviceId !in inv.present
    || (t.stage.Looking? && inv.present[t.urb.deviceId].backend == Host && !config.linux)
  }

  lemma LookupReturns(config: Config, sh: Shared, t: Task, answer: UrbComplete, c: UrbComplete)
    requires Sees(sh.inv, t) && t.stage.Looking? && Returned(c) == NextStage(config, sh, t, answer)
    ensures if Unserved(config, sh.inv, t) then c == Failed(t.urb.seqNum)
            else c == EmulatorComplete(t.urb) && sh.inv.present[t.urb.deviceId].backend == Emulated
  {
    LookingStage(config, sh, t, answer);
    FoundStage(config, sh, t);
  }

  /**
   Whatever a task returns is what its completer answered or the emulator answers, and the device is
   present as it returns; or it is the failure, and the device is gone, or the host's and not served here.
   */
  lemma ReturnsGenuine(config: Config, sh: Shared, t: Task, answer: UrbComplete, c: UrbComplete)
    requires Consistent(sh.inv) && t.presence < |sh.inv.tokens| && sh.inv.tokens[t.presence].id == t.urb.deviceId
    requires !t.stage.Returned? && !t.stage.Unsent? && Returned(c) == NextStage(config, sh, t, answer)
    ensures if Unserved(config, sh.inv, t) then c == Failed(t.urb.seqNum)
            else if t.stage.Looking? then c == EmulatorComplete(t.urb) && sh.inv.present[t.urb.deviceId].backend == Emulated
            else (t.stage.CustomDone? || t.stage.HostDone?) && c == t.stage.result
  {
    SeesTruly(sh.inv, t);
    if t.stage.Looking? {
      LookupReturns(config, sh, t, answer, c);
    } else {
      CheckedStage(config, sh, t, answer, Returned(c));
    }
  }
}
