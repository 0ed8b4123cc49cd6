/**
 What happens once the id counter stands at its largest value: the last id is given to every new key,
 so two keys share it, its flag outlives the device it was raised for, and a retired id comes back.
 */
module Saturation {
  import opened Results
  import opened Bytes
  import opened Messages
  import opened Tally
  import opened Inventory
  import opened InventoryInvariant
  import opened InventoryRefresh
  import opened InventoryNew

  /** A server that starts with one device asking for the last id but one leaves the counter at its end. */
  lemma LastIdReached(first: LocalDevice)
    requires first.info.id == MAX_U32 - 1
    ensures var inv := New([first]);
            Consistent(inv) && inv.nextId == MAX_U32 && inv.knownIds == map[KeyOf(first) := MAX_U32 - 1]
  {
    assert [first][..0] == [];
    assert New([first]) == NewOne(EMPTY, first);
  }

  /** What is left of consistency when the counter is at its end. */
  ghost predicate Orderly(inv: Inventory) {
    DevicesKnown(inv) && forall id :: id in inv.presence ==> inv.presence[id] < |inv.tokens|
  }

  /** The last id is `d`'s, with flag `t`, which is nobody else's. */
  ghost predicate HasLastId(inv: Inventory, d: LocalDevice, t: nat) {
    && inv.nextId == MAX_U32
    && MAX_U32 in inv.present && inv.present[MAX_U32] == WithId(d, MAX_U32)
    && KeyOf(d) in inv.knownIds && inv.knownIds[KeyOf(d)] == MAX_U32
    && MAX_U32 in inv.presence && inv.presence[MAX_U32] == t
    && t < |inv.tokens| && inv.tokens[t] == Token(MAX_U32, KeyOf(d), true)
    && (forall id :: id in inv.presence && id != MAX_U32 ==> inv.presence[id] != t)
  }

  lemma AssignOnly(inv: Inventory, d: LocalDevice)
    ensures Assign(inv, [d]) == AssignOne(inv.present, Assignment(inv.knownIds, inv.nextId, [], []), d)
  {
    assert [d][..0] == [];
  }

  lemma AssignTwo(inv: Inventory, d: LocalDevice, e: LocalDevice)
    ensures Assign(inv, [d, e]) == AssignOne(inv.present, Assign(inv, [d]), e)
  {
    assert [d, e][..1] == [d];
  }

  lemma InstallOnly(inv: Inventory, h: (DeviceId, LocalDevice))
    ensures Install(inv, [h]) == InstallOne(inv, h)
  {
    assert [h][..0] == [];
  }

  lemma InstallTwo(inv: Inventory, g: (DeviceId, LocalDevice), h: (DeviceId, LocalDevice))
    ensures Install(inv, [g, h]) == InstallOne(InstallOne(inv, g), h)
  {
    assert [g, h][..1] == [g];
    InstallOnly(inv, g);
  }

  lemma KeyKept(inv: Inventory, a: Assignment, gone: set<DeviceId>, k: DeviceKey)
    requires DevicesKnown(inv) && forall l :: l in inv.knownIds ==> l in a.known && a.known[l] == inv.knownIds[l]
    requires k in a.known && a.known[k] !in gone
    ensures k in Retire(WithTable(inv, a), gone).knownIds
  {
  }

  lemma RetireOrderly(inv: Inventory, a: Assignment, gone: set<DeviceId>)
    requires Orderly(inv) && forall l :: l in inv.knownIds ==> l in a.known && a.known[l] == inv.knownIds[l]
    ensures Orderly(Retire(WithTable(inv, a), gone))
  {
  }

  lemma InstallOrderly(inv: Inventory, h: (DeviceId, LocalDevice))
    requires Orderly(inv) && h.1.info.id == h.0 && KeyOf(h.1) in inv.knownIds && inv.knownIds[KeyOf(h.1)] == h.0
    ensures Orderly(InstallOne(inv, h))
  {
  }

  /** The new device is the only one with its key and its flag once it is installed. */
  lemma InstalledLast(r: Inventory, h: (DeviceId, LocalDevice))
    requires Orderly(r) && r.nextId == MAX_U32 == h.0 == h.1.info.id && MAX_U32 !in r.presence
    requires KeyOf(h.1) in r.knownIds && r.knownIds[KeyOf(h.1)] == h.0
    ensures HasLastId(InstallOne(r, h), h.1, |r.tokens|) && Orderly(InstallOne(r, h))
  {
    InstallOrderly(r, h);
  }

  /** A scan that shows one new device while the counter is at its end. */
  lemma LastIdGiven(inv: Inventory, d: LocalDevice)
    requires Orderly(inv) && inv.nextId == MAX_U32 && KeyOf(d) !in inv.knownIds && MAX_U32 !in inv.presence
    ensures HasLastId(Refresh(inv, [d]), d, |inv.tokens|) && Orderly(Refresh(inv, [d]))
    ensures forall k :: k in Refresh(inv, [d]).knownIds ==> k in inv.knownIds || k == KeyOf(d)
  {
    AssignOnly(inv, d);
    var a, gone := Assign(inv, [d]), Gone(inv, [d]);
    var h := (MAX_U32, WithId(d, MAX_U32));
    assert a.hosts == [h];
    assert h in a.hosts && h.0 in IdsOf(a.hosts);
    var r := Retire(WithTable(inv, a), gone);
    RetireOrderly(inv, a, gone);
    KeyKept(inv, a, gone, KeyOf(d));
    InstallOnly(r, h);
    InstalledLast(r, h);
  }

  lemma FlagKept(inv: Inventory, d: LocalDevice, t: nat, a: Assignment, gone: set<DeviceId>)
    requires HasLastId(inv, d, t) && MAX_U32 !in gone
    ensures var r := Retire(WithTable(inv, a), gone);
            && MAX_U32 in r.presence && r.presence[MAX_U32] == t
            && t < |r.tokens| && r.tokens[t] == Token(MAX_U32, KeyOf(d), true)
  {
  }

  lemma GivenAgain(inv: Inventory, d: LocalDevice, e: LocalDevice)
    requires KeyOf(d) in inv.knownIds && inv.knownIds[KeyOf(d)] == inv.nextId && KeyOf(e) !in inv.knownIds
    ensures var a := Assign(inv, [d, e]); var id := inv.nextId;
            && a.known == inv.knownIds[KeyOf(e) := id] && a.hosts == [(id, WithId(d, id)), (id, WithId(e, id))]
            && id !in Gone(inv, [d, e])
  {
    AssignOnly(inv, d);
    AssignTwo(inv, d, e);
    var h := (inv.nextId, WithId(e, inv.nextId));
    assert h == Assign(inv, [d, e]).hosts[1];
    assert h.0 in IdsOf(Assign(inv, [d, e]).hosts);
  }

  /** A second scan that still shows the device with the last id, and a new one. */
  lemma LastIdGivenAgain(inv: Inventory, d: LocalDevice, t: nat, e: LocalDevice)
    requires Orderly(inv) && HasLastId(inv, d, t) && KeyOf(e) !in inv.knownIds
    ensures var s := Refresh(inv, [d, e]);
            && (forall k :: k == KeyOf(d) || k == KeyOf(e) ==> k in s.knownIds && s.knownIds[k] == MAX_U32)
            && MAX_U32 in s.present && s.present[MAX_U32] == WithId(e, MAX_U32)
            && MAX_U32 in s.presence && s.presence[MAX_U32] == t
            && t < |s.tokens| && s.tokens[t] == Token(MAX_U32, KeyOf(d), true)
  {
    var a, gone := Assign(inv, [d, e]), Gone(inv, [d, e]);
    var g, h := (MAX_U32, WithId(d, MAX_U32)), (MAX_U32, WithId(e, MAX_U32));
    GivenAgain(inv, d, e);
    var r := Retire(WithTable(inv, a), gone);
    KeyKept(inv, a, gone, KeyOf(d));
    KeyKept(inv, a, gone, KeyOf(e));
    FlagKept(inv, d, t, a, gone);
    InstallTwo(r, g, h);
  }

  /** A scan that shows nothing retires the device with the last id and lowers its flag. */
  lemma LastIdRetired(inv: Inventory, d: LocalDevice, t: nat)
    requires Orderly(inv) && HasLastId(inv, d, t) && d.backend == Host
    ensures var s := Refresh(inv, []);
            && MAX_U32 !in s.present && MAX_U32 !in s.presence && MAX_U32 in RefreshDelta(inv, []).removed
            && s.nextId == MAX_U32 && t < |s.tokens| && s.tokens[t] == Token(MAX_U32, KeyOf(d), false)
            && Orderly(s) && forall k :: k in s.knownIds ==> k in inv.knownIds
  {
    assert MAX_U32 in Gone(inv, []);
  }

  lemma ConsistentIsOrderly(inv: Inventory)
    requires Consistent(inv)
    ensures Orderly(inv) && inv.nextId !in inv.presence
  {
    PresentIdsBelow(inv);
  }

  /**
   Two refreshes of a consistent inventory without room: two keys that the second scan shows have the
   same id, one of the two devices is not listed, and the flag raised for it vouches for the other.
   */
  lemma LastIdIsShared(inv: Inventory, d: LocalDevice, e: LocalDevice)
    requires Consistent(inv) && inv.nextId == MAX_U32
    requires KeyOf(d) !in inv.knownIds && KeyOf(e) !in inv.knownIds && KeyOf(d) != KeyOf(e)
    ensures var s := Refresh(Refresh(inv, [d]), [d, e]);
            && (forall k :: k == KeyOf(d) || k == KeyOf(e) ==> k in s.knownIds && s.knownIds[k] == MAX_U32)
            && MAX_U32 in s.present && s.present[MAX_U32] == WithId(e, MAX_U32)
            && MAX_U32 in s.presence && s.presence[MAX_U32] == |inv.tokens| < |s.tokens|
            && s.tokens[|inv.tokens|] == Token(MAX_U32, KeyOf(d), true)
            && !Consistent(s)
  {
    ConsistentIsOrderly(inv);
    LastIdGiven(inv, d);
    LastIdGivenAgain(Refresh(inv, [d]), d, |inv.tokens|, e);
  }

  /** Three refreshes without room: an id that was listed and reported as removed is given to another key. */
  lemma LastIdComesBack(inv: Inventory, d: LocalDevice, e: LocalDevice)
    requires Consistent(inv) && inv.nextId == MAX_U32 && d.backend == Host
    requires KeyOf(d) !in inv.knownIds && KeyOf(e) !in inv.knownIds && KeyOf(d) != KeyOf(e)
    ensures var one := Refresh(inv, [d]); var two := Refresh(one, []); var three := Refresh(two, [e]);
            && MAX_U32 in one.present && one.present[MAX_U32] == WithId(d, MAX_U32)
            && MAX_U32 !in two.present && MAX_U32 in RefreshDelta(one, []).removed
            && MAX_U32 in three.present && three.present[MAX_U32] == WithId(e, MAX_U32)
  {
    ConsistentIsOrderly(inv);
    LastIdGiven(inv, d);
    LastIdRetired(Refresh(inv, [d]), d, |inv.tokens|);
    LastIdGiven(Refresh(Refresh(inv, [d]), []), e);
  }
}
