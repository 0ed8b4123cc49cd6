/** Safety over whole runs of the server: the main results about sessions, leases, tokens and hotplug. */
module ServerRuns {
  import opened Results
  import opened Bytes
  import opened Messages
  import opened Lease
  import opened Inventory
  import opened InventoryInvariant
  import opened InventoryRefresh
  import opened InventoryNew
  import opened Server
  import opened ServerWorld

  // ---------------------------------------------------------------- the shared state along a run

  ghost predicate BootedWith(w: World, devices: seq<LocalDevice>) {
    exists config, clock, drawn :: w == Boot(config, devices, clock, drawn)
  }

  /**
   A run of a server started with distinct device keys, at whose end the id counter has not reached
   its limit.
   */
  ghost predicate ServerRun(r: Run, devices: seq<LocalDevice>) {
    && IsRun(r) && BootedWith(r.states[0], devices) && IdRoom(devices) && DistinctKeys(devices)
    && r.states[|r.actions|].shared.inv.nextId < MAX_U32
  }

  function InvAt(r: Run, n: nat): Inventory
    requires n < |r.states|
  {
    r.states[n].shared.inv
  }

  lemma FlagsFallAcross(a: Inventory, b: Inventory, c: Inventory)
    requires FlagsFall(a, b) && FlagsFall(b, c)
    ensures FlagsFall(a, c)
  {
  }

  lemma StepFlagsFall(r: Run, n: nat)
    requires IsRun(r) && n < |r.actions|
    ensures FlagsFall(InvAt(r, n), InvAt(r, n + 1))
  {
    assert StepAt(r, n);
    InventoryStep(r.states[n], r.actions[n]);
    if Refreshes(r.states[n], r.actions[n]) {
      RefreshFlagsFall(InvAt(r, n), r.actions[n].scan);
    } else {
      FlagsStay(InvAt(r, n));
    }
  }

  /** Flags go one way in every run, whatever is scanned. */
  lemma {:induction false} RunFlagsFall(r: Run, i: nat, j: nat)
    requires IsRun(r) && i <= j < |r.states|
    ensures FlagsFall(InvAt(r, i), InvAt(r, j))
    decreases j
  {
    if i == j {
      FlagsStay(InvAt(r, i));
    } else {
      RunFlagsFall(r, i, j - 1);
      StepFlagsFall(r, j - 1);
      FlagsFallAcross(InvAt(r, i), InvAt(r, j - 1), InvAt(r, j));
    }
  }

  lemma {:induction false} RunWorldOk(r: Run, devices: seq<LocalDevice>, n: nat)
    requires ServerRun(r, devices) && n < |r.states|
    ensures WorldOk(r.states[n])
  {
    if n == 0 {
      var config, clock, drawn :| r.states[0] == Boot(config, devices, clock, drawn);
      BootOk(config, devices, clock, drawn);
    } else {
      RunWorldOk(r, devices, n - 1);
      assert StepAt(r, n - 1);
      RunFlagsFall(r, n, |r.actions|);
      InventoryKept(r.states[n - 1], r.actions[n - 1]);
      LocksKept(r.states[n - 1], r.actions[n - 1]);
    }
  }

  /** In every run, a leased device is present, except while the refresh that removed it still holds the devices lock. */
  lemma LeasedIsPresent(r: Run, devices: seq<LocalDevice>, n: nat, d: DeviceId)
    requires ServerRun(r, devices) && n < |r.states| && d in r.states[n].shared.leases
    ensures var sh := r.states[n].shared; d in sh.inv.present || (sh.writer.Some? && d in sh.writer.value)
  {
    RunWorldOk(r, devices, n);
  }

  lemma RetiredStep(r: Run, devices: seq<LocalDevice>, n: nat, id: DeviceId)
    requires ServerRun(r, devices) && n < |r.actions|
    requires id < InvAt(r, n).nextId && id !in InvAt(r, n).present
    ensures id < InvAt(r, n + 1).nextId && id !in InvAt(r, n + 1).present
  {
    RunWorldOk(r, devices, n);
    RunFlagsFall(r, n + 1, |r.actions|);
    assert StepAt(r, n);
    InventoryKept(r.states[n], r.actions[n]);
  }

  lemma {:induction false} RetiredForever(r: Run, devices: seq<LocalDevice>, i: nat, j: nat, id: DeviceId)
    requires ServerRun(r, devices) && i <= j < |r.states|
    requires id < InvAt(r, i).nextId && id !in InvAt(r, i).present
    ensures id < InvAt(r, j).nextId && id !in InvAt(r, j).present
    decreases j
  {
    if i < j {
      RetiredForever(r, devices, i, j - 1, id);
      RetiredStep(r, devices, j - 1, id);
    }
  }

  /** Once removed, an id is never present nor leased again, whatever is plugged in at the same port. */
  lemma RetiredNeverLeased(r: Run, devices: seq<LocalDevice>, i: nat, j: nat, id: DeviceId)
    requires ServerRun(r, devices) && i <= j < |r.states|
    requires id < InvAt(r, i).nextId && id !in InvAt(r, i).present
    ensures id !in InvAt(r, j).present
    ensures r.states[j].shared.writer.None? ==> id !in r.states[j].shared.leases
  {
    RetiredForever(r, devices, i, j, id);
    RunWorldOk(r, devices, j);
  }

  /** Between two different owners of a device there is a moment at which nobody owns it. */
  lemma {:induction false} OwnerChangesThroughRelease(r: Run, i: nat, j: nat, d: DeviceId)
    requires IsRun(r) && i < j < |r.states|
    requires d in r.states[i].shared.leases && d in r.states[j].shared.leases
    requires r.states[i].shared.leases[d] != r.states[j].shared.leases[d]
    ensures exists m :: i < m < j && d !in r.states[m].shared.leases
    decreases j
  {
    assert StepAt(r, j - 1);
    if d in r.states[j - 1].shared.leases {
      OwnerNotReplaced(r.states[j - 1], r.actions[j - 1], d);
      OwnerChangesThroughRelease(r, i, j - 1, d);
    }
  }

  // ---------------------------------------------------------------- unplug, replug, late completion

  /** The device keeps its id and its key in every state from `i` to `k`. */
  ghost predicate PresentThroughout(r: Run, i: nat, k: nat, id: DeviceId, key: DeviceKey)
    requires i <= k < |r.states|
  {
    forall m :: i <= m <= k ==> id in InvAt(r, m).present && KeyOf(InvAt(r, m).present[id]) == key
  }

  /** A flag taken from the inventory and found raised later vouches for the whole time in between. */
  lemma RaisedFlagVouches(r: Run, devices: seq<LocalDevice>, i: nat, k: nat, id: DeviceId)
    requires ServerRun(r, devices) && i <= k < |r.states| && id in InvAt(r, i).presence
    requires Raised(InvAt(r, k), InvAt(r, i).presence[id])
    ensures id in InvAt(r, i).present && PresentThroughout(r, i, k, id, KeyOf(InvAt(r, i).present[id]))
  {
    var p := InvAt(r, i).presence[id];
    RunWorldOk(r, devices, i);
    var key := KeyOf(InvAt(r, i).present[id]);
    assert InvAt(r, i).tokens[p] == Token(id, key, true);
    forall m | i <= m <= k ensures id in InvAt(r, m).present && KeyOf(InvAt(r, m).present[id]) == key {
      RunFlagsFall(r, i, m);
      RunFlagsFall(r, m, k);
      RunWorldOk(r, devices, m);
      LiveTokenIsPresent(InvAt(r, m), p);
    }
  }

  lemma LiveTokenIsPresent(inv: Inventory, p: nat)
    requires Consistent(inv) && Raised(inv, p)
    ensures inv.tokens[p].id in inv.present && KeyOf(inv.present[inv.tokens[p].id]) == inv.tokens[p].key
  {
  }

  lemma EmulatedStep(r: Run, devices: seq<LocalDevice>, n: nat, id: DeviceId)
    requires ServerRun(r, devices) && n < |r.actions|
    requires id in InvAt(r, n).present && InvAt(r, n).present[id].backend == Emulated
    ensures id in InvAt(r, n + 1).present && KeyOf(InvAt(r, n + 1).present[id]) == KeyOf(InvAt(r, n).present[id])
  {
    var inv, w, a := InvAt(r, n), r.states[n], r.actions[n];
    RunWorldOk(r, devices, n);
    RunWorldOk(r, devices, n + 1);
    StepFlagsFall(r, n);
    assert StepAt(r, n);
    InventoryStep(w, a);
    if Refreshes(w, a) {
      DeltaIsDifference(inv, a.scan, id);
      assert inv.tokens[inv.presence[id]].id == id;
      LiveTokenIsPresent(InvAt(r, n + 1), inv.presence[id]);
    }
  }

  /** Emulated devices are never removed. */
  lemma {:induction false} EmulatedStays(r: Run, devices: seq<LocalDevice>, i: nat, k: nat, id: DeviceId)
    requires ServerRun(r, devices) && i <= k < |r.states|
    requires id in InvAt(r, i).present && InvAt(r, i).present[id].backend == Emulated
    ensures PresentThroughout(r, i, k, id, KeyOf(InvAt(r, i).present[id]))
    decreases k
  {
    if i < k {
      EmulatedStays(r, devices, i, k - 1, id);
      EmulatedStep(r, devices, k - 1, id);
    }
  }
}
