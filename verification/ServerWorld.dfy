/**
 What every step keeps of the shared state: a consistent inventory, leases on present devices only,
 one-way presence flags, and owners that change only through a release.
 */
module ServerWorld {
  import opened Results
  import opened Bytes
  import opened Messages
  import opened Lease
  import opened Inventory
  import opened InventoryInvariant
  import opened InventoryRefresh
  import opened InventoryNew
  import opened Server

  // ---------------------------------------------------------------- the inventory

  /** A refresh that gets the devices lock. */
  predicate Refreshes(w: World, a: Action) {
    a.Refreshed? && w.shared.writer.None? && !Reading(w.sessions)
  }

  lemma InventoryStep(w: World, a: Action)
    ensures Apply(w, a).shared.inv == if Refreshes(w, a) then Refresh(w.shared.inv, a.scan) else w.shared.inv
  {
    if Taken(w, a) {
      TakenStep(w, a);
    } else {
      UntakenStep(w, a);
    }
  }

  /** No step but a saturating refresh breaks the inventory, flags never rise, and retired ids stay away. */
  lemma InventoryKept(w: World, a: Action)
    requires Consistent(w.shared.inv) && Apply(w, a).shared.inv.nextId < MAX_U32
    ensures var v := Apply(w, a);
            && Consistent(v.shared.inv) && FlagsFall(w.shared.inv, v.shared.inv)
            && w.shared.inv.nextId <= v.shared.inv.nextId
            && forall id: DeviceId :: id < w.shared.inv.nextId && id !in w.shared.inv.present ==> id !in v.shared.inv.present
  {
    var inv := w.shared.inv;
    InventoryStep(w, a);
    if Refreshes(w, a) {
      RoomIfBelow(inv, a.scan);
      RefreshConsistent(inv, a.scan);
      RefreshFlagsFall(inv, a.scan);
      CounterIsCapped(inv, a.scan);
      SameCounter(inv, a.scan);
      forall id: DeviceId | id < inv.nextId && id !in inv.present ensures id !in Refresh(inv, a.scan).present {
        RetiredStaysAway(inv, a.scan, id);
      }
    } else {
      FlagsStay(inv);
    }
  }

  lemma FlagsStay(inv: Inventory)
    ensures FlagsFall(inv, inv)
  {
  }

  // ---------------------------------------------------------------- leases

  /** A leased device is present, or was just removed by the refresh that still holds the lock. */
  ghost predicate LeasedPresent(sh: Shared) {
    forall d :: d in sh.leases ==> d in sh.inv.present || (sh.writer.Some? && d in sh.writer.value)
  }

  /** A session that holds the devices read lock keeps refreshes out, so its device stays. */
  ghost predicate ReadersExclude(sh: Shared, s: Session) {
    s.phase.AttachLease? ==> sh.writer.None? && s.phase.id in sh.inv.present
  }

  ghost predicate LocksOk(w: World) {
    LeasedPresent(w.shared) && forall sid :: sid in w.sessions ==> ReadersExclude(w.shared, w.sessions[sid])
  }

  lemma RemovedAreListed(inv: Inventory, scan: seq<LocalDevice>)
    requires Consistent(inv)
    ensures forall d :: d in inv.present && d !in Refresh(inv, scan).present ==> d in RefreshDelta(inv, scan).removed
  {
    forall d | d in inv.present && d !in Refresh(inv, scan).present ensures d in RefreshDelta(inv, scan).removed {
      DeltaIsDifference(inv, scan, d);
    }
  }

  lemma SharedLeased(sh: Shared, s: Session, a: Action)
    requires Enabled(sh, s, a) && LeasedPresent(sh) && ReadersExclude(sh, s)
    ensures LeasedPresent(SharedAfter(sh, s, a))
    ensures SharedAfter(sh, s, a).inv == sh.inv && SharedAfter(sh, s, a).writer == sh.writer
  {
  }

  lemma NextPhaseExcludes(config: Config, sh: Shared, s: Session, a: Action)
    requires a.Section? && Ready(sh, s, a.token)
    ensures ReadersExclude(sh, NextSession(s, NextPhase(config, sh, s, a.drawn, a.token)))
  {
  }

  lemma TakenExcludes(config: Config, sh: Shared, s: Session, a: Action)
    requires Enabled(sh, s, a) && ReadersExclude(sh, s)
    ensures ReadersExclude(sh, SessionAfter(config, sh, s, a))
  {
    match a
    case Receive(_, _, _) =>
    case Section(_, _, _) => NextPhaseExcludes(config, sh, s, a);
    case Progress(_, o, answer) => assert TaskStep(config, sh, s, o, answer).phase == s.phase;
    case Eof(_) =>
    case Stop(_) =>
    case End(_) =>
  }

  lemma TakenLocksOk(w: World, a: Action)
    requires Taken(w, a) && LocksOk(w)
    ensures LocksOk(Apply(w, a))
  {
    var s := w.sessions[a.sid];
    SharedLeased(w.shared, s, a);
    TakenExcludes(w.config, w.shared, s, a);
    TakenStep(w, a);
  }

  lemma EnvironmentLeased(sh: Shared, sessions: map<nat, Session>, a: Action)
    requires Consistent(sh.inv) && LeasedPresent(sh)
    ensures LeasedPresent(Environment(sh, sessions, a))
  {
    if a.Refreshed? {
      RemovedAreListed(sh.inv, a.scan);
    }
  }

  lemma EnvironmentExcludes(sh: Shared, sessions: map<nat, Session>, a: Action, sid: nat)
    requires sid in sessions && ReadersExclude(sh, sessions[sid])
    ensures ReadersExclude(Environment(sh, sessions, a), sessions[sid])
  {
  }

  lemma LocksKept(w: World, a: Action)
    requires Consistent(w.shared.inv) && LocksOk(w)
    ensures LocksOk(Apply(w, a))
  {
    if Taken(w, a) {
      TakenLocksOk(w, a);
    } else {
      EnvironmentLeased(w.shared, w.sessions, a);
      forall sid | sid in w.sessions ensures ReadersExclude(Environment(w.shared, w.sessions, a), w.sessions[sid]) {
        EnvironmentExcludes(w.shared, w.sessions, a, sid);
      }
      UntakenStep(w, a);
    }
  }

  // ---------------------------------------------------------------- owners

  /** A lease passes from one owner to another only by being free in between. */
  lemma OwnerNotReplaced(w: World, a: Action, d: DeviceId)
    requires d in w.shared.leases && d in Apply(w, a).shared.leases
    ensures Apply(w, a).shared.leases[d] == w.shared.leases[d]
  {
    if Taken(w, a) {
      TakenStep(w, a);
    } else {
      UntakenStep(w, a);
    }
  }

  /** The end of a session frees exactly the devices leased to its principal, whichever session leased them. */
  lemma EndReleasesExactly(w: World, a: Action, d: DeviceId)
    requires a.End? && Taken(w, a)
    ensures var before, after := w.shared.leases, Apply(w, a).shared.leases;
            && (d in after <==> d in before && w.sessions[a.sid].principal != Some(before[d]))
            && (d in after ==> after[d] == before[d])
  {
    TakenStep(w, a);
  }

  // ---------------------------------------------------------------- the start of a server

  ghost predicate WorldOk(w: World) {
    Consistent(w.shared.inv) && LocksOk(w)
  }

  lemma BootOk(config: Config, devices: seq<LocalDevice>, clock: nat, drawn: Bytes32)
    requires IdRoom(devices) && DistinctKeys(devices)
    ensures WorldOk(Boot(config, devices, clock, drawn))
  {
    NewConsistentIff(devices);
  }
}
