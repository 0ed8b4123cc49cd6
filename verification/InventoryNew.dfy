/**
 The inventory a server starts with is consistent exactly when its devices have distinct keys and
 the ids they are given stay below the counter's limit.
 */
module InventoryNew {
  import opened Results
  import opened Bytes
  import opened Messages
  import opened Tally
  import opened Inventory
  import opened InventoryInvariant
  import opened InventoryRefresh

  /** The ids a list of devices asks for; 0 asks for any. */
  function Requests(devices: seq<LocalDevice>): seq<DeviceId> {
    if devices == [] then [] else Requests(devices[..|devices| - 1]) + [devices[|devices| - 1].info.id]
  }

  /** The ids given and the counter after one more request, were there no limit to the counter. */
  function Granted(asked: nat, used: set<nat>, next: nat): (set<nat>, nat) {
    if asked == 0 || asked in used then (used + {next}, next + 1)
    else (used + {asked}, if next > asked then next else asked + 1)
  }

  /** The ids given for a list of requests, and the counter after them. */
  function Unlimited(requests: seq<DeviceId>): (r: (set<nat>, nat))
    ensures forall id :: id in r.0 ==> id < r.1
    ensures r.0 != {} ==> r.1 - 1 in r.0
    ensures r.1 > 0
  {
    if requests == [] then ({}, 1)
    else
      var (used, next) := Unlimited(requests[..|requests| - 1]);
      Granted(requests[|requests| - 1], used, next)
  }

  /** No device is given the largest id; computed from the ids asked for alone. */
  predicate IdRoom(devices: seq<LocalDevice>) {
    forall id :: id in Unlimited(Requests(devices)).0 ==> id < MAX_U32
  }

  ghost predicate DistinctKeys(devices: seq<LocalDevice>) {
    forall i, j :: 0 <= i < j < |devices| ==> KeyOf(devices[i]) != KeyOf(devices[j])
  }

  function ChosenId(inv: Inventory, d: LocalDevice): DeviceId {
    if KeepsRequestedId(inv, d) then d.info.id else inv.nextId
  }

  lemma RequestsFront(devices: seq<LocalDevice>)
    requires devices != []
    ensures Requests(devices)[..|Requests(devices)| - 1] == Requests(devices[..|devices| - 1])
    ensures Requests(devices)[|Requests(devices)| - 1] == devices[|devices| - 1].info.id
  {
  }

  lemma UnlimitedLast(devices: seq<LocalDevice>, ids: set<nat>, next: nat)
    requires devices != [] && Unlimited(Requests(devices[..|devices| - 1])) == (ids, next)
    ensures Unlimited(Requests(devices)) == Granted(devices[|devices| - 1].info.id, ids, next)
  {
    RequestsFront(devices);
  }

  lemma LimitFront(devices: seq<LocalDevice>)
    requires IdRoom(devices) && devices != []
    ensures IdRoom(devices[..|devices| - 1])
  {
    var (ids, next) := Unlimited(Requests(devices[..|devices| - 1]));
    UnlimitedLast(devices, ids, next);
  }

  /** The inventory and its counter, as long as no limit is met. */
  ghost predicate Tracks(inv: Inventory, ids: set<nat>, next: nat) {
    (forall id: nat :: id in ids <==> id <= MAX_U32 && id in inv.present) && inv.nextId == next
  }

  lemma TracksOne(inv: Inventory, ids: set<nat>, next: nat, d: LocalDevice)
    requires Tracks(inv, ids, next) && ChosenId(inv, d) < MAX_U32
    ensures var (more, after) := Granted(d.info.id, ids, next); Tracks(NewOne(inv, d), more, after)
  {
  }

  /** The id given to the last device. */
  lemma LastChosen(devices: seq<LocalDevice>, ids: set<nat>, next: nat, inv: Inventory)
    requires devices != [] && Unlimited(Requests(devices[..|devices| - 1])) == (ids, next) && Tracks(inv, ids, next)
    ensures Unlimited(Requests(devices)).0 == ids + {ChosenId(inv, devices[|devices| - 1])}
  {
    UnlimitedLast(devices, ids, next);
  }

  lemma {:induction false} CounterTracks(devices: seq<LocalDevice>)
    requires IdRoom(devices)
    ensures var (ids, next) := Unlimited(Requests(devices)); Tracks(New(devices), ids, next)
  {
    if devices != [] {
      var front, d := devices[..|devices| - 1], devices[|devices| - 1];
      var (ids, next) := Unlimited(Requests(front));
      LimitFront(devices);
      CounterTracks(front);
      LastChosen(devices, ids, next, New(front));
      UnlimitedLast(devices, ids, next);
      TracksOne(New(front), ids, next, d);
    }
  }

  /** While devices are being added, none has left and every id is below the counter. */
  ghost predicate Growing(inv: Inventory) {
    && (forall t :: 0 <= t < |inv.tokens| ==> inv.tokens[t].live && inv.tokens[t].id in inv.present)
    && (forall id :: id in inv.present ==> id < inv.nextId)
  }

  lemma NewOneGrows(inv: Inventory, d: LocalDevice)
    requires Growing(inv) && ChosenId(inv, d) < MAX_U32
    ensures Growing(NewOne(inv, d)) && ChosenId(inv, d) !in inv.present
  {
    var after := NewOne(inv, d);
    forall t | 0 <= t < |after.tokens| ensures after.tokens[t].live && after.tokens[t].id in after.present {
      if t < |inv.tokens| {
        assert after.tokens[t] == inv.tokens[t];
      }
    }
  }

  lemma ChosenFits(devices: seq<LocalDevice>)
    requires IdRoom(devices) && devices != []
    ensures IdRoom(devices[..|devices| - 1])
    ensures ChosenId(New(devices[..|devices| - 1]), devices[|devices| - 1]) < MAX_U32
  {
    var (ids, next) := Unlimited(Requests(devices[..|devices| - 1]));
    LimitFront(devices);
    CounterTracks(devices[..|devices| - 1]);
    LastChosen(devices, ids, next, New(devices[..|devices| - 1]));
  }

  lemma {:induction false} NewGrows(devices: seq<LocalDevice>)
    requires IdRoom(devices)
    ensures Growing(New(devices))
  {
    if devices != [] {
      ChosenFits(devices);
      NewGrows(devices[..|devices| - 1]);
      NewOneGrows(New(devices[..|devices| - 1]), devices[|devices| - 1]);
    }
  }

  lemma NewOneKeys(inv: Inventory, d: LocalDevice)
    requires KeysConsistent(inv) && ChosenId(inv, d) !in inv.present && KeyOf(d) !in inv.knownIds
    ensures KeysConsistent(NewOne(inv, d))
  {
  }

  lemma NewOneTokens(inv: Inventory, d: LocalDevice)
    requires TokensConsistent(inv) && Growing(inv) && ChosenId(inv, d) !in inv.present && ChosenId(inv, d) < MAX_U32
    ensures TokensConsistent(NewOne(inv, d))
  {
    var after := NewOne(inv, d);
    assert forall t :: 0 <= t < |inv.tokens| ==> after.tokens[t] == inv.tokens[t];
  }

  lemma {:induction false} NewKeyTable(devices: seq<LocalDevice>)
    ensures New(devices).knownIds.Keys == ScanKeys(devices)
  {
    if devices != [] {
      NewKeyTable(devices[..|devices| - 1]);
    }
  }

  lemma DistinctStep(front: seq<LocalDevice>, d: LocalDevice)
    requires DistinctKeys(front + [d])
    ensures DistinctKeys(front) && KeyOf(d) !in ScanKeys(front)
  {
    var all := front + [d];
    ScanKeysMembers(front);
    forall i, j | 0 <= i < j < |front| ensures KeyOf(front[i]) != KeyOf(front[j]) {
      assert all[i] == front[i] && all[j] == front[j];
    }
    forall i | 0 <= i < |front| ensures KeyOf(front[i]) != KeyOf(d) {
      assert all[i] == front[i] && all[|front|] == d;
    }
  }

  lemma {:induction false} DistinctIsConsistent(devices: seq<LocalDevice>)
    requires IdRoom(devices) && DistinctKeys(devices)
    ensures Consistent(New(devices))
  {
    NewGrows(devices);
    if devices != [] {
      var front, d := devices[..|devices| - 1], devices[|devices| - 1];
      assert devices == front + [d];
      DistinctStep(front, d);
      ChosenFits(devices);
      DistinctIsConsistent(front);
      NewKeyTable(front);
      NewGrows(front);
      NewOneGrows(New(front), d);
      NewOneKeys(New(front), d);
      NewOneTokens(New(front), d);
    }
  }

  /** The ids given, position by position. */
  ghost function GivenIds(devices: seq<LocalDevice>): (ids: seq<DeviceId>)
    ensures |ids| == |devices|
  {
    if devices == [] then []
    else GivenIds(devices[..|devices| - 1]) + [ChosenId(New(devices[..|devices| - 1]), devices[|devices| - 1])]
  }

  /** Every device listed is present under its own id, with its own key. */
  ghost predicate Placed(devices: seq<LocalDevice>, ids: seq<DeviceId>, inv: Inventory) {
    && |ids| == |devices| && NoDuplicates(ids)
    && (forall i :: 0 <= i < |ids| ==> ids[i] in inv.present && KeyOf(inv.present[ids[i]]) == KeyOf(devices[i]))
  }

  lemma PlacedStep(front: seq<LocalDevice>, ids: seq<DeviceId>, inv: Inventory, d: LocalDevice)
    requires Placed(front, ids, inv) && ChosenId(inv, d) !in inv.present
    ensures Placed(front + [d], ids + [ChosenId(inv, d)], NewOne(inv, d))
  {
    NoDuplicatesStep(ids, ChosenId(inv, d));
  }

  lemma {:induction false} AllPlaced(devices: seq<LocalDevice>)
    requires IdRoom(devices)
    ensures Placed(devices, GivenIds(devices), New(devices))
  {
    if devices != [] {
      var front, d := devices[..|devices| - 1], devices[|devices| - 1];
      ChosenFits(devices);
      AllPlaced(front);
      NewGrows(front);
      NewOneGrows(New(front), d);
      PlacedStep(front, GivenIds(front), New(front), d);
      assert devices == front + [d];
    }
  }

  /** Every device a server starts with is stored as it was given, under an id of its own: the one it asks for, if it is free. */
  lemma {:induction false} StoredAsGiven(devices: seq<LocalDevice>, i: nat)
    requires IdRoom(devices) && i < |devices|
    ensures var inv, id := New(devices), GivenIds(devices)[i];
            && id in inv.present && inv.present[id] == devices[i].(info := devices[i].info.(id := id))
    ensures devices[i].info.id != 0 && devices[i].info.id !in GivenIds(devices)[..i] ==> GivenIds(devices)[i] == devices[i].info.id
  {
    var n := |devices| - 1;
    var front, d := devices[..n], devices[n];
    ChosenFits(devices);
    AllPlaced(devices);
    AllPlaced(front);
    if i < n {
      StoredAsGiven(front, i);
      assert GivenIds(devices)[i] == GivenIds(front)[i] && GivenIds(devices)[..i] == GivenIds(front)[..i];
      assert GivenIds(devices)[n] != GivenIds(devices)[i];
      assert devices[i] == front[i];
    } else {
      OnlyGiven(front, d.info.id);
      assert GivenIds(devices)[..i] == GivenIds(front);
    }
  }

  /** Nothing is present but under the ids given. */
  lemma {:induction false} OnlyGiven(devices: seq<LocalDevice>, id: DeviceId)
    ensures id in New(devices).present <==> id in GivenIds(devices)
  {
    if devices != [] {
      OnlyGiven(devices[..|devices| - 1], id);
    }
  }

  /** Some flag was made for the largest id. */
  ghost predicate AtLimit(inv: Inventory) {
    exists t :: 0 <= t < |inv.tokens| && inv.tokens[t].id == MAX_U32
  }

  lemma AtLimitStep(inv: Inventory, d: LocalDevice)
    requires AtLimit(inv) || ChosenId(inv, d) == MAX_U32
    ensures AtLimit(NewOne(inv, d))
  {
    var after := NewOne(inv, d);
    if AtLimit(inv) {
      var t :| 0 <= t < |inv.tokens| && inv.tokens[t].id == MAX_U32;
      assert after.tokens[t].id == MAX_U32;
    } else {
      assert after.tokens[|inv.tokens|].id == MAX_U32;
    }
  }

  /** Without room, some device is given the largest id. */
  lemma {:induction false} LimitReached(devices: seq<LocalDevice>)
    requires !IdRoom(devices)
    ensures AtLimit(New(devices))
  {
    if devices != [] {
      var front, d := devices[..|devices| - 1], devices[|devices| - 1];
      if IdRoom(front) {
        var (ids, next) := Unlimited(Requests(front));
        CounterTracks(front);
        LastChosen(devices, ids, next, New(front));
      } else {
        LimitReached(front);
      }
      AtLimitStep(New(front), d);
    }
  }

  /**
   The initial inventory is consistent if and only if no two devices share a key and no device is
   given the largest id.
   */
  lemma NewConsistentIff(devices: seq<LocalDevice>)
    ensures Consistent(New(devices)) <==> DistinctKeys(devices) && IdRoom(devices)
  {
    if !IdRoom(devices) {
      LimitReached(devices);
    } else if DistinctKeys(devices) {
      DistinctIsConsistent(devices);
    } else {
      AllPlaced(devices);
      var i, j :| 0 <= i < j < |devices| && KeyOf(devices[i]) == KeyOf(devices[j]);
      SharedKey(devices, GivenIds(devices), New(devices), i, j);
    }
  }

  lemma SharedKey(devices: seq<LocalDevice>, ids: seq<DeviceId>, inv: Inventory, i: nat, j: nat)
    requires Placed(devices, ids, inv) && i < j < |devices| && KeyOf(devices[i]) == KeyOf(devices[j])
    ensures !KeysConsistent(inv)
  {
  }
}
