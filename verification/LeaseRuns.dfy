/**
 Who gains and who loses a lease: over every run, a lease begins with an attach and ends with a detach
 by its owner, with the end of a session of its owner, or with the removal of its device, and with
 nothing else.
 */
module LeaseRuns {
  import opened Results
  import opened Bytes
  import opened Messages
  import opened Lease
  import opened Inventory
  import opened InventoryRefresh
  import opened Server
  import opened ServerSession
  import opened ServerWorld
  import opened ServerRuns
  import opened ServerTrace
  import opened Truthful
  import opened TruthfulRuns

  // ---------------------------------------------------------------- the occasions

  /** Step `n` is a section of a session of principal `owner`, whose last request is `request`. */
  ghost predicate ServesRequest(r: Run, n: nat, owner: Fingerprint, request: Message) {
    && n < |r.actions| < |r.states| && r.actions[n].Section? && r.actions[n].sid in r.states[n].sessions
    && var s := r.states[n].sessions[r.actions[n].sid];
       s.principal == Some(owner) && s.received != [] && s.received[|s.received| - 1] == request
  }

  /** Where the reader that acts in step `n` is. */
  ghost function PhaseAt(r: Run, n: nat): Phase
    requires n < |r.actions| < |r.states| && r.actions[n].Section? && r.actions[n].sid in r.states[n].sessions
  {
    r.states[n].sessions[r.actions[n].sid].phase
  }

  /** Step `n` grants the lease of `d`, which is on offer, to the principal of a session that asked to attach it. */
  ghost predicate AttachedAt(r: Run, n: nat, d: DeviceId, owner: Fingerprint) {
    && n < |r.states| && Offered(InvAt(r, n), d)
    && exists token :: ServesRequest(r, n, owner, AttachRequest(d, token)) && PhaseAt(r, n).AttachLease?
  }

  /** Step `n` gives `d` back for its owner, whose session asked to detach it. */
  ghost predicate DetachedAt(r: Run, n: nat, d: DeviceId, owner: Fingerprint) {
    exists token :: ServesRequest(r, n, owner, DetachRequest(d, token)) && PhaseAt(r, n).DetachLease?
  }

  /** Step `n` is the end of a session of `owner`. */
  ghost predicate EndedAt(r: Run, n: nat, owner: Fingerprint) {
    && n < |r.actions| < |r.states| && r.actions[n].End? && Taken(r.states[n], r.actions[n])
    && r.states[n].sessions[r.actions[n].sid].principal == Some(owner)
  }

  /** Step `k` is a refresh that removes `d`. */
  ghost predicate RemovedAt(r: Run, k: nat, d: DeviceId) {
    k + 1 < |r.states| && k < |r.actions| && r.actions[k].Refreshed? && d in InvAt(r, k).present && d !in InvAt(r, k + 1).present
  }

  /** From after step `k` to step `n` a refresh holds the devices lock. */
  ghost predicate LockedSince(r: Run, k: nat, n: nat) {
    k < n < |r.states| && forall m :: k < m <= n ==> r.states[m].shared.writer.Some?
  }

  /** Step `n` finishes the refresh that removed `d`. */
  ghost predicate UnpluggedAt(r: Run, n: nat, d: DeviceId) {
    && n < |r.actions| && r.actions[n].Unlocked?
    && exists k: nat :: LockedSince(r, k, n) && RemovedAt(r, k, d)
  }

  // ---------------------------------------------------------------- the lock of a refresh

  lemma WriterStep(w: World, a: Action)
    ensures var before, after := w.shared.writer, Apply(w, a).shared.writer;
            if a.Unlocked? then after.None?
            else if Refreshes(w, a) then
              after == if RefreshDelta(w.shared.inv, a.scan).removed == [] then None else Some(RefreshDelta(w.shared.inv, a.scan).removed)
            else after == before
  {
    if Taken(w, a) {
      TakenStep(w, a);
    } else {
      UntakenStep(w, a);
    }
  }

  /** Step `k` is the refresh whose removed ids the writer holds in state `n`. */
  ghost predicate WriterFrom(r: Run, k: nat, n: nat) {
    && k < |r.actions| && LockedSince(r, k, n) && Refreshes(r.states[k], r.actions[k])
    && r.states[n].shared.writer == Some(RefreshDelta(InvAt(r, k), r.actions[k].scan).removed)
  }

  lemma WriterOn(r: Run, k: nat, n: nat)
    requires IsRun(r) && n < |r.actions| && WriterFrom(r, k, n) && r.states[n + 1].shared.writer.Some?
    ensures WriterFrom(r, k, n + 1)
  {
    assert StepAt(r, n);
    WriterStep(r.states[n], r.actions[n]);
  }

  lemma WriterNow(r: Run, n: nat)
    requires IsRun(r) && n < |r.actions| && r.states[n].shared.writer.None? && r.states[n + 1].shared.writer.Some?
    ensures WriterFrom(r, n, n + 1)
  {
    assert StepAt(r, n);
    WriterStep(r.states[n], r.actions[n]);
  }

  /** Whenever a refresh holds the lock, some step was that refresh. */
  lemma {:induction false} WriterHasRefresh(r: Run, n: nat)
    requires IsRun(r) && n < |r.states| && r.states[0].shared.writer.None? && r.states[n].shared.writer.Some?
    ensures exists k: nat :: WriterFrom(r, k, n)
  {
    if r.states[n - 1].shared.writer.None? {
      WriterNow(r, n - 1);
    } else {
      WriterHasRefresh(r, n - 1);
      var k: nat :| WriterFrom(r, k, n - 1);
      WriterOn(r, k, n - 1);
    }
  }

  /** While the lock is held, the refresh that took it is the one that holds it. */
  lemma {:induction false} WriterSince(r: Run, k: nat, n: nat)
    requires IsRun(r) && LockedSince(r, k, n) && k < |r.actions| && Refreshes(r.states[k], r.actions[k])
    ensures WriterFrom(r, k, n)
    decreases n
  {
    if n == k + 1 {
      WriterNow(r, k);
    } else {
      WriterSince(r, k, n - 1);
      WriterOn(r, k, n - 1);
    }
  }

  lemma RemovedIff(r: Run, devices: seq<LocalDevice>, k: nat, d: DeviceId)
    requires ServerRun(r, devices) && k < |r.actions| && Refreshes(r.states[k], r.actions[k])
    ensures d in RefreshDelta(InvAt(r, k), r.actions[k].scan).removed <==> RemovedAt(r, k, d)
  {
    RunWorldOk(r, devices, k);
    assert StepAt(r, k);
    InventoryStep(r.states[k], r.actions[k]);
    DeltaIsDifference(InvAt(r, k), r.actions[k].scan, d);
  }

  lemma RemovalRefreshes(r: Run, k: nat, d: DeviceId)
    requires IsRun(r) && RemovedAt(r, k, d)
    ensures Refreshes(r.states[k], r.actions[k])
  {
    assert StepAt(r, k);
    InventoryStep(r.states[k], r.actions[k]);
  }

  lemma NoWriterAtFirst(r: Run, devices: seq<LocalDevice>)
    requires IsRun(r) && BootedWith(r.states[0], devices)
    ensures r.states[0].shared.writer.None?
  {
  }

  /** The finished refresh releases a device if and only if it removed it. */
  lemma UnpluggedIff(r: Run, devices: seq<LocalDevice>, n: nat, d: DeviceId)
    requires ServerRun(r, devices) && n < |r.actions| && r.actions[n].Unlocked?
    ensures r.states[n].shared.writer.Some? && d in r.states[n].shared.writer.value <==> UnpluggedAt(r, n, d)
  {
    if r.states[n].shared.writer.Some? {
      NoWriterAtFirst(r, devices);
      WriterHasRefresh(r, n);
      var k: nat :| WriterFrom(r, k, n);
      RemovedIff(r, devices, k, d);
    }
    if UnpluggedAt(r, n, d) {
      var k: nat :| LockedSince(r, k, n) && RemovedAt(r, k, d);
      RemovalRefreshes(r, k, d);
      WriterSince(r, k, n);
      RemovedIff(r, devices, k, d);
    }
  }

  // ---------------------------------------------------------------- one step

  /** What a step does to the lease of `d`, by what step it is. */
  lemma LeaseLostStep(w: World, a: Action, d: DeviceId)
    requires d in w.shared.leases
    ensures d !in Apply(w, a).shared.leases <==>
            || (Taken(w, a) && a.Section? && w.sessions[a.sid].phase == DetachLease(w.shared.leases[d], d))
            || (Taken(w, a) && a.End? && w.sessions[a.sid].principal == Some(w.shared.leases[d]))
            || (a.Unlocked? && w.shared.writer.Some? && d in w.shared.writer.value)
  {
    if Taken(w, a) {
      TakenStep(w, a);
    } else {
      UntakenStep(w, a);
    }
  }

  lemma LeaseGainedStep(w: World, a: Action, d: DeviceId)
    requires d !in w.shared.leases
    ensures d in Apply(w, a).shared.leases <==>
            Taken(w, a) && a.Section? && w.sessions[a.sid].phase.AttachLease? && w.sessions[a.sid].phase.id == d
    ensures d in Apply(w, a).shared.leases ==> Apply(w, a).shared.leases[d] == w.sessions[a.sid].phase.owner
  {
    if Taken(w, a) {
      TakenStep(w, a);
    } else {
      UntakenStep(w, a);
    }
  }

  // ---------------------------------------------------------------- every run

  /** A reader in the lease section of an attach or a detach serves that request, for its principal. */
  lemma LeaseSection(r: Run, devices: seq<LocalDevice>, n: nat, s: Session)
    requires IsRun(r) && BootedWith(r.states[0], devices) && n < |r.actions| && r.actions[n].Section?
    requires r.actions[n].sid in r.states[n].sessions && s == r.states[n].sessions[r.actions[n].sid]
    ensures s.phase.DetachLease? ==>
              exists token :: ServesRequest(r, n, s.phase.owner, DetachRequest(s.phase.id, token))
    ensures s.phase.AttachLease? ==>
              Offered(InvAt(r, n), s.phase.id) && exists token :: ServesRequest(r, n, s.phase.owner, AttachRequest(s.phase.id, token))
    ensures forall owner, d, token :: s.phase.DetachLease? && ServesRequest(r, n, owner, DetachRequest(d, token)) ==>
              s.phase == DetachLease(owner, d)
    ensures forall owner, d, token :: s.phase.AttachLease? && ServesRequest(r, n, owner, AttachRequest(d, token)) ==>
              s.phase.owner == owner && s.phase.id == d
  {
    RunSessionsOk(r, n);
    RunInformed(r, devices, n, r.actions[n].sid);
    if s.phase.DetachLease? || s.phase.AttachLease? {
      LastRequest(r, n, s, s.received[|s.received| - 1]);
    }
  }

  lemma LastRequest(r: Run, n: nat, s: Session, request: Message)
    requires n < |r.actions| < |r.states| && r.actions[n].Section? && r.actions[n].sid in r.states[n].sessions
    requires s == r.states[n].sessions[r.actions[n].sid] && s.received != [] && request == s.received[|s.received| - 1]
    requires ActsAsPrincipal(s) && Handles(s.phase, request)
    ensures s.phase.DetachLease? ==>
              request == DetachRequest(s.phase.id, request.detachToken) && ServesRequest(r, n, s.phase.owner, request)
    ensures s.phase.AttachLease? ==>
              request == AttachRequest(s.phase.id, request.attachToken) && ServesRequest(r, n, s.phase.owner, request)
  {
  }

  /** The reader that is about to detach serves a detach request of its principal's, and no other reader does. */
  lemma DetachIff(r: Run, devices: seq<LocalDevice>, n: nat, d: DeviceId, owner: Fingerprint)
    requires IsRun(r) && BootedWith(r.states[0], devices) && n < |r.actions|
    ensures DetachedAt(r, n, d, owner) <==>
            Taken(r.states[n], r.actions[n]) && r.actions[n].Section? &&
            r.states[n].sessions[r.actions[n].sid].phase == DetachLease(owner, d)
  {
    if r.actions[n].Section? && r.actions[n].sid in r.states[n].sessions {
      LeaseSection(r, devices, n, r.states[n].sessions[r.actions[n].sid]);
    }
  }

  lemma AttachIff(r: Run, devices: seq<LocalDevice>, n: nat, d: DeviceId, owner: Fingerprint)
    requires IsRun(r) && BootedWith(r.states[0], devices) && n < |r.actions|
    ensures AttachedAt(r, n, d, owner) <==>
            && Taken(r.states[n], r.actions[n]) && r.actions[n].Section?
            && r.states[n].sessions[r.actions[n].sid].phase.AttachLease?
            && r.states[n].sessions[r.actions[n].sid].phase.owner == owner && r.states[n].sessions[r.actions[n].sid].phase.id == d
  {
    if r.actions[n].Section? && r.actions[n].sid in r.states[n].sessions {
      LeaseSection(r, devices, n, r.states[n].sessions[r.actions[n].sid]);
    }
  }

  /**
   In every run, a device stops being leased in a step if and only if the step serves a detach request
   of its owner's, ends a session of its owner's, or finishes the refresh that removed the device.
   */
  lemma LeaseLostIff(r: Run, devices: seq<LocalDevice>, n: nat, d: DeviceId)
    requires ServerRun(r, devices) && n < |r.actions| && d in r.states[n].shared.leases
    ensures var owner := r.states[n].shared.leases[d];
            d !in r.states[n + 1].shared.leases <==> DetachedAt(r, n, d, owner) || EndedAt(r, n, owner) || UnpluggedAt(r, n, d)
  {
    var owner := r.states[n].shared.leases[d];
    assert StepAt(r, n);
    LeaseLostStep(r.states[n], r.actions[n], d);
    DetachIff(r, devices, n, d, owner);
    if r.actions[n].Unlocked? {
      UnpluggedIff(r, devices, n, d);
    }
  }

  /** A free device becomes leased in a step if and only if the step serves an attach request for it, and then to that principal. */
  lemma LeaseGainedIff(r: Run, devices: seq<LocalDevice>, n: nat, d: DeviceId, owner: Fingerprint)
    requires ServerRun(r, devices) && n < |r.actions| && d !in r.states[n].shared.leases
    ensures d in r.states[n + 1].shared.leases && r.states[n + 1].shared.leases[d] == owner <==> AttachedAt(r, n, d, owner)
  {
    assert StepAt(r, n);
    LeaseGainedStep(r.states[n], r.actions[n], d);
    AttachIff(r, devices, n, d, owner);
  }
}
