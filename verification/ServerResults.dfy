/** Results about whole runs for one session at a time, for its leases, and for the pairing PIN. */
module ServerResults {
  import opened Results
  import opened Bytes
  import opened Messages
  import opened Lease
  import Identity
  import opened Inventory
  import opened Urb
  import opened Server
  import opened Tally
  import opened ServerSession
  import opened ServerWorld
  import opened ServerRuns
  import opened ServerTrace
  import opened Truthful
  import opened TruthfulRuns

  lemma BootSessionsOk(r: Run, devices: seq<LocalDevice>, n: nat)
    requires IsRun(r) && BootedWith(r.states[0], devices) && n < |r.states|
    ensures SessionsOk(r.states[n])
  {
    RunSessionsOk(r, n);
  }

  // ---------------------------------------------------------------- exactly one reply per request

  /**
   In every run, a request a live session has read is answered once, or in one task, or being
   handled: exactly one of these, and after the session has stopped at most one.
   */
  lemma RequestsAreConserved(r: Run, devices: seq<LocalDevice>, n: nat, sid: nat, o: nat)
    requires IsRun(r) && BootedWith(r.states[0], devices) && n < |r.states|
    requires sid in r.states[n].sessions && o < |r.states[n].sessions[sid].received|
    ensures var s := r.states[n].sessions[sid];
            var places := Times(OriginOf, s.out, o) + (if o in s.tasks then 1 else 0) + (if o >= Handled(s) then 1 else 0);
            if Live(s) then places == 1 else Times(OriginOf, s.out, o) + (if o in s.tasks then 1 else 0) <= 1
  {
    BootSessionsOk(r, devices, n);
    TimesDistinct(OriginOf, r.states[n].sessions[sid].out, o);
  }

  /** A session that ends because its client stopped sending has answered every request it read, each once. */
  lemma DrainedIsAnswered(r: Run, devices: seq<LocalDevice>, n: nat, sid: nat, o: nat)
    requires IsRun(r) && BootedWith(r.states[0], devices) && n < |r.actions| && r.actions[n] == End(sid) && Taken(r.states[n], r.actions[n])
    requires r.states[n].sessions[sid].phase.Draining? && o < |r.states[n].sessions[sid].received|
    ensures Times(OriginOf, r.states[n].sessions[sid].out, o) == 1
  {
    RequestsAreConserved(r, devices, n, sid, o);
  }

  /** Every reply of every run answers a request of its session; a completion bears its submission's sequence number. */
  lemma RepliesAnswerRequests(r: Run, devices: seq<LocalDevice>, n: nat, sid: nat, e: Reply)
    requires IsRun(r) && BootedWith(r.states[0], devices) && n < |r.states|
    requires sid in r.states[n].sessions && e in r.states[n].sessions[sid].out
    ensures var s := r.states[n].sessions[sid];
            && e.origin < |s.received| && Answers(s.received[e.origin], e.msg)
            && (e.msg.CompleteUrb? ==> s.received[e.origin].SubmitUrb? && Fits(s.received[e.origin].urb, e.msg.complete))
  {
    BootSessionsOk(r, devices, n);
    AnswersSameKind(r.states[n].sessions[sid].received[e.origin], e.msg);
  }

  /** The k-th control reply answers the k-th control request, however completions interleave. */
  lemma ControlRepliesInOrder(r: Run, devices: seq<LocalDevice>, n: nat, sid: nat, k: nat)
    requires IsRun(r) && BootedWith(r.states[0], devices) && n < |r.states| && sid in r.states[n].sessions
    requires k < |ControlOrigins(r.states[n].sessions[sid].out)|
    ensures var s := r.states[n].sessions[sid];
            k < |ControlIndices(s.received)| && ControlOrigins(s.out)[k] == ControlIndices(s.received)[k]
  {
    BootSessionsOk(r, devices, n);
  }

  /** At most 64 URBs of a session execute at a time; the free permits are the remainder. */
  lemma AtMost64Execute(r: Run, devices: seq<LocalDevice>, n: nat, sid: nat)
    requires IsRun(r) && BootedWith(r.states[0], devices) && n < |r.states| && sid in r.states[n].sessions
    ensures var s := r.states[n].sessions[sid];
            |Executing(s.tasks)| <= 64 && s.permits == 64 - |Executing(s.tasks)|
  {
    BootSessionsOk(r, devices, n);
  }

  // ---------------------------------------------------------------- leases at the end of a session

  lemma SectionPrincipal(config: Config, sh: Shared, s: Session, a: Action)
    requires a.Section? && Ready(sh, s, a.token) && s.principal.Some?
    ensures NextSession(s, NextPhase(config, sh, s, a.drawn, a.token)).principal.Some?
  {
  }

  lemma MovePrincipal(config: Config, sh: Shared, s: Session, a: Action)
    requires Enabled(sh, s, a) && s.principal.Some?
    ensures SessionAfter(config, sh, s, a).principal.Some?
  {
    match a
    case Receive(_, _, _) =>
    case Section(_, _, _) => SectionPrincipal(config, sh, s, a);
    case Progress(_, o, answer) => assert TaskStep(config, sh, s, o, answer).principal == s.principal;
    case Eof(_) =>
    case Stop(_) =>
    case End(_) =>
  }

  lemma SessionStays(r: Run, n: nat, sid: nat)
    requires IsRun(r) && n < |r.actions| && sid in r.states[n].sessions
    ensures sid in r.states[n + 1].sessions
  {
    assert StepAt(r, n);
    if Taken(r.states[n], r.actions[n]) {
      TakenStep(r.states[n], r.actions[n]);
    } else {
      UntakenStep(r.states[n], r.actions[n]);
    }
  }

  lemma PrincipalStep(r: Run, devices: seq<LocalDevice>, n: nat, sid: nat)
    requires IsRun(r) && BootedWith(r.states[0], devices) && n < |r.actions| && sid in r.states[n].sessions
    requires r.states[n].sessions[sid].principal.Some?
    ensures sid in r.states[n + 1].sessions && r.states[n + 1].sessions[sid].principal.Some?
  {
    SessionStays(r, n, sid);
    HowSessionsChange(r, n, sid);
    if Moves(r, n, sid) {
      MovePrincipal(r.states[n].config, r.states[n].shared, r.states[n].sessions[sid], r.actions[n]);
    }
  }

  lemma {:induction false} PrincipalStays(r: Run, devices: seq<LocalDevice>, i: nat, n: nat, sid: nat)
    requires IsRun(r) && BootedWith(r.states[0], devices) && i <= n < |r.states| && sid in r.states[i].sessions
    requires r.states[i].sessions[sid].principal.Some?
    ensures sid in r.states[n].sessions && r.states[n].sessions[sid].principal.Some?
    decreases n
  {
    if i < n {
      PrincipalStays(r, devices, i, n - 1, sid);
      PrincipalStep(r, devices, n - 1, sid);
    }
  }

  /** Step `i` asks for the lease of device `d` on behalf of `owner` in session `sid`. */
  ghost predicate Acquires(r: Run, i: nat, sid: nat, d: DeviceId, owner: Fingerprint) {
    && i < |r.states| && Acts(r, i, sid) && sid in r.states[i].sessions
    && r.states[i].sessions[sid].phase.AttachLease?
    && r.states[i].sessions[sid].phase.owner == owner && r.states[i].sessions[sid].phase.id == d
  }

  /** Session `sid` never authenticates under any fingerprint but `fp` up to state `n`. */
  ghost predicate SinglePrincipal(r: Run, n: nat, sid: nat, fp: Fingerprint) {
    forall i :: 0 <= i <= n < |r.states| && sid in r.states[i].sessions ==>
      r.states[i].sessions[sid].principal in {None, Some(fp)}
  }

  /**
   A lease a session asked for and that is still held when the session ends survives that end if and
   only if the session's principal is by then another one than the lease's owner.
   */
  lemma LeaseSurvivesEndIff(r: Run, devices: seq<LocalDevice>, i: nat, n: nat, sid: nat, d: DeviceId, owner: Fingerprint)
    requires IsRun(r) && BootedWith(r.states[0], devices) && i < n < |r.actions| && Acquires(r, i, sid, d, owner)
    requires Taken(r.states[n], r.actions[n]) && r.actions[n] == End(sid) && OwnerOf(r.states[n].shared.leases, d) == Some(owner)
    ensures r.states[n].sessions[sid].principal.Some?
    ensures OwnerOf(r.states[n + 1].shared.leases, d) == Some(owner) <==> r.states[n].sessions[sid].principal != Some(owner)
  {
    RunInformed(r, devices, i, sid);
    PrincipalStays(r, devices, i, n, sid);
    assert StepAt(r, n);
    EndReleasesExactly(r.states[n], r.actions[n], d);
  }

  /** When a session that authenticated under one fingerprint only has ended, no lease it acquired remains. */
  lemma EndedSessionHoldsNoLease(r: Run, devices: seq<LocalDevice>, i: nat, n: nat, sid: nat, d: DeviceId, owner: Fingerprint, fp: Fingerprint)
    requires IsRun(r) && BootedWith(r.states[0], devices) && i < n < |r.actions|
    requires SinglePrincipal(r, n, sid, fp) && Acquires(r, i, sid, d, owner)
    requires Taken(r.states[n], r.actions[n]) && r.actions[n] == End(sid)
    ensures OwnerOf(r.states[n + 1].shared.leases, d) != Some(owner)
  {
    RunInformed(r, devices, i, sid);
    PrincipalStays(r, devices, i, n, sid);
    assert r.states[i].sessions[sid].principal == Some(owner);
    assert r.states[n].sessions[sid].principal in {None, Some(fp)};
    assert StepAt(r, n);
    EndReleasesExactly(r.states[n], r.actions[n], d);
  }

  // ---------------------------------------------------------------- the pairing PIN

  /** The operation on the PIN that step `n` performs, if any. */
  ghost function PinOpAt(r: Run, n: nat): Option<Identity.PinOp>
    requires n < |r.actions| < |r.states|
  {
    var w, a := r.states[n], r.actions[n];
    if a.RenewPin? then Some(Identity.Tick(w.shared.clock, a.drawn))
    else if a.Section? && a.sid in w.sessions && w.sessions[a.sid].phase.PairPin? then
      Some(Identity.Attempt(w.shared.clock, w.sessions[a.sid].phase.pinHash, a.drawn))
    else None
  }

  ghost function PinOps(r: Run, n: nat): seq<Identity.PinOp>
    requires n <= |r.actions| < |r.states|
  {
    if n == 0 then []
    else PinOps(r, n - 1) + if PinOpAt(r, n - 1).Some? then [PinOpAt(r, n - 1).value] else []
  }

  lemma {:induction false} RunLast(h: Identity.History, ops: seq<Identity.PinOp>, op: Identity.PinOp)
    ensures Identity.Run(h, ops + [op]) == Identity.Step(Identity.Run(h, ops), op).1
    decreases |ops|
  {
    if ops == [] {
      assert (ops + [op])[1..] == [];
    } else {
      assert (ops + [op])[1..] == ops[1..] + [op];
      RunLast(Identity.Step(h, ops[0]).1, ops[1..], op);
    }
  }

  lemma PinStep(r: Run, n: nat, h: Identity.History)
    requires IsRun(r) && n < |r.actions| && h.pin == r.states[n].shared.pin
    ensures r.states[n + 1].shared.pin ==
            if PinOpAt(r, n).Some? then Identity.Step(h, PinOpAt(r, n).value).1.pin else h.pin
  {
    assert StepAt(r, n);
    if Taken(r.states[n], r.actions[n]) {
      TakenStep(r.states[n], r.actions[n]);
    } else {
      UntakenStep(r.states[n], r.actions[n]);
    }
  }

  /**
   The PIN of a run is the PIN of the operations its steps perform, so each PIN a server issues is
   compared at most five times and accepted at most once.
   */
  lemma {:induction false} ServerPinBudget(r: Run, clock: nat, drawn: Bytes32, n: nat, serial: nat)
    requires IsRun(r) && n < |r.states| && r.states[0].shared.pin == Identity.Issue(clock, drawn)
    ensures var h := Identity.Run(Identity.Start(clock, drawn), PinOps(r, n));
            && r.states[n].shared.pin == h.pin
            && Identity.Comparisons(h.log, serial, false) + Identity.Comparisons(h.log, serial, true) <= 5
            && Identity.Comparisons(h.log, serial, true) <= 1
  {
    var start := Identity.Start(clock, drawn);
    Identity.PinBudget(clock, drawn, PinOps(r, n), serial);
    if n > 0 {
      ServerPinBudget(r, clock, drawn, n - 1, serial);
      PinStep(r, n - 1, Identity.Run(start, PinOps(r, n - 1)));
      if PinOpAt(r, n - 1).Some? {
        RunLast(start, PinOps(r, n - 1), PinOpAt(r, n - 1).value);
      } else {
        assert PinOps(r, n) == PinOps(r, n - 1);
      }
    }
  }

  /** A PIN accepted in a run is an accepted operation of its history. */
  lemma AcceptedInHistory(r: Run, n: nat, h: Identity.History, sid: nat)
    requires IsRun(r) && n < |r.actions| && h.pin == r.states[n].shared.pin
    requires Acts(r, n, sid) && sid in r.states[n].sessions && r.states[n].sessions[sid].phase.PairPin?
    ensures r.states[n + 1].sessions.Keys == r.states[n].sessions.Keys
    ensures PinOpAt(r, n).Some?
    ensures r.states[n + 1].sessions[sid].phase.PairToken? <==> Identity.Step(h, PinOpAt(r, n).value).0
  {
    assert StepAt(r, n);
    assert Taken(r.states[n], r.actions[n]);
    TakenStep(r.states[n], r.actions[n]);
  }
}
