/** A refresh keeps the inventory consistent exactly when the id counter has room for the scan's new keys. */
module InventoryInvariant {
  import opened Results
  import opened Bytes
  import opened Messages
  import opened Tally
  import opened Inventory

  type Hosts = seq<(DeviceId, LocalDevice)>

  /** A host of the scan that is still to be installed at position `i` or later. */
  ghost predicate Awaits(hosts: Hosts, i: nat, id: DeviceId) {
    exists j :: i <= j < |hosts| && hosts[j].0 == id
  }

  ghost predicate NoTokenFor(inv: Inventory, id: DeviceId) {
    forall t :: 0 <= t < |inv.tokens| ==> inv.tokens[t].id != id
  }

  /** The keys of present devices are in the table, under their ids. */
  ghost predicate DevicesKnown(inv: Inventory) {
    forall id :: id in inv.present ==>
      inv.present[id].info.id == id && KeyOf(inv.present[id]) in inv.knownIds &&
      inv.knownIds[KeyOf(inv.present[id])] == id
  }

  ghost predicate HostKnown(inv: Inventory, h: (DeviceId, LocalDevice)) {
    && h.1.info.id == h.0 && h.0 < inv.nextId
    && KeyOf(h.1) in inv.knownIds && inv.knownIds[KeyOf(h.1)] == h.0
    && (h.0 in inv.present || NoTokenFor(inv, h.0))
  }

  /** The state between two installations: all is consistent but for the hosts from position `i` on. */
  ghost predicate Between(inv: Inventory, hosts: Hosts, i: nat) {
    && DevicesKnown(inv) && Injective(inv.knownIds)
    && (forall k :: k in inv.knownIds ==> inv.knownIds[k] in inv.present || Awaits(hosts, i, inv.knownIds[k]))
    && TokensConsistent(inv) && IdsBelow(inv)
    && (forall j :: 0 <= j < |hosts| ==> HostKnown(inv, hosts[j]))
  }

  // ---------------------------------------------------------------- installing one host

  lemma KeyIsStable(inv: Inventory, h: (DeviceId, LocalDevice))
    requires DevicesKnown(inv) && Injective(inv.knownIds) && HostKnown(inv, h) && h.0 in inv.present
    ensures KeyOf(inv.present[h.0]) == KeyOf(h.1)
  {
  }

  lemma InstallAgain(inv: Inventory, h: (DeviceId, LocalDevice))
    requires TokensConsistent(inv) && IdsBelow(inv) && h.0 in inv.present && KeyOf(inv.present[h.0]) == KeyOf(h.1)
    ensures TokensConsistent(InstallOne(inv, h)) && IdsBelow(InstallOne(inv, h))
  {
  }

  lemma InstallNewFlags(inv: Inventory, h: (DeviceId, LocalDevice), after: Inventory, t: nat)
    requires TokensConsistent(inv) && h.0 !in inv.present && NoTokenFor(inv, h.0) && after == InstallOne(inv, h)
    requires t < |after.tokens|
    ensures after.tokens[t].live <==> after.tokens[t].id in after.present
    ensures after.tokens[t].live ==> after.tokens[t].id in after.presence && after.presence[after.tokens[t].id] == t
  {
    if t < |inv.tokens| {
      assert after.tokens[t] == inv.tokens[t] && inv.tokens[t].id != h.0;
    }
  }

  lemma InstallNewPresence(inv: Inventory, h: (DeviceId, LocalDevice), after: Inventory, id: DeviceId)
    requires TokensConsistent(inv) && h.0 !in inv.present && after == InstallOne(inv, h) && id in after.presence
    ensures id in after.present && after.presence[id] < |after.tokens|
    ensures after.tokens[after.presence[id]] == Token(id, KeyOf(after.present[id]), true)
  {
  }

  lemma InstallNewTokens(inv: Inventory, h: (DeviceId, LocalDevice), after: Inventory)
    requires TokensConsistent(inv) && h.0 !in inv.present && NoTokenFor(inv, h.0) && after == InstallOne(inv, h)
    ensures TokensConsistent(after)
  {
    forall t: nat | t < |after.tokens|
      ensures (after.tokens[t].live <==> after.tokens[t].id in after.present)
      ensures after.tokens[t].live ==> after.tokens[t].id in after.presence && after.presence[after.tokens[t].id] == t
    {
      InstallNewFlags(inv, h, after, t);
    }
    forall id | id in after.presence
      ensures id in after.present && after.presence[id] < |after.tokens|
      ensures after.tokens[after.presence[id]] == Token(id, KeyOf(after.present[id]), true)
    {
      InstallNewPresence(inv, h, after, id);
    }
  }

  lemma InstallNewBelow(inv: Inventory, h: (DeviceId, LocalDevice), after: Inventory)
    requires IdsBelow(inv) && h.0 < inv.nextId && after == InstallOne(inv, h)
    ensures IdsBelow(after)
  {
  }

  lemma InstallNew(inv: Inventory, h: (DeviceId, LocalDevice))
    requires TokensConsistent(inv) && IdsBelow(inv) && h.0 !in inv.present && h.0 < inv.nextId && NoTokenFor(inv, h.0)
    ensures TokensConsistent(InstallOne(inv, h)) && IdsBelow(InstallOne(inv, h))
  {
    InstallNewTokens(inv, h, InstallOne(inv, h));
    InstallNewBelow(inv, h, InstallOne(inv, h));
  }

  lemma InstallTokens(inv: Inventory, h: (DeviceId, LocalDevice))
    requires DevicesKnown(inv) && Injective(inv.knownIds) && TokensConsistent(inv) && IdsBelow(inv) && HostKnown(inv, h)
    ensures TokensConsistent(InstallOne(inv, h)) && IdsBelow(InstallOne(inv, h))
  {
    if h.0 in inv.present {
      KeyIsStable(inv, h);
      InstallAgain(inv, h);
    } else {
      InstallNew(inv, h);
    }
  }

  lemma InstallHostKnown(inv: Inventory, h: (DeviceId, LocalDevice), other: (DeviceId, LocalDevice))
    requires inv.presence.Keys == inv.present.Keys && HostKnown(inv, h) && HostKnown(inv, other)
    ensures HostKnown(InstallOne(inv, h), other)
  {
    var after := InstallOne(inv, h);
    if other.0 !in after.present {
      forall t | 0 <= t < |after.tokens| ensures after.tokens[t].id != other.0 {
        if t < |inv.tokens| {
          assert after.tokens[t] == inv.tokens[t];
        }
      }
    }
  }

  lemma InstallDevices(inv: Inventory, h: (DeviceId, LocalDevice))
    requires DevicesKnown(inv) && HostKnown(inv, h)
    ensures DevicesKnown(InstallOne(inv, h))
  {
  }

  lemma InstallAwaits(inv: Inventory, hosts: Hosts, i: nat, id: DeviceId)
    requires i < |hosts| && (id in inv.present || Awaits(hosts, i, id))
    ensures id in InstallOne(inv, hosts[i]).present || Awaits(hosts, i + 1, id)
  {
    if id !in inv.present {
      var j :| i <= j < |hosts| && hosts[j].0 == id;
      assert j == i || i + 1 <= j;
    }
  }

  lemma InstallBetween(inv: Inventory, hosts: Hosts, i: nat)
    requires Between(inv, hosts, i) && i < |hosts|
    ensures Between(InstallOne(inv, hosts[i]), hosts, i + 1)
  {
    var after := InstallOne(inv, hosts[i]);
    InstallDevices(inv, hosts[i]);
    InstallTokens(inv, hosts[i]);
    forall j | 0 <= j < |hosts| ensures HostKnown(after, hosts[j]) {
      InstallHostKnown(inv, hosts[i], hosts[j]);
    }
    forall k | k in after.knownIds ensures after.knownIds[k] in after.present || Awaits(hosts, i + 1, after.knownIds[k]) {
      InstallAwaits(inv, hosts, i, inv.knownIds[k]);
    }
  }

  lemma {:induction false} InstallPrefix(inv: Inventory, hosts: Hosts, i: nat)
    requires Between(inv, hosts, 0) && i <= |hosts|
    ensures Between(Install(inv, hosts[..i]), hosts, i)
  {
    var after := Install(inv, hosts[..i]);
    if i == 0 {
      assert after == inv;
      assert Between(after, hosts, i);
    } else {
      var j := i - 1;
      InstallPrefix(inv, hosts, j);
      InstallNext(inv, hosts, j, Install(inv, hosts[..j]), after);
      assert Between(after, hosts, i);
    }
  }

  lemma InstallNext(inv: Inventory, hosts: Hosts, i: nat, before: Inventory, after: Inventory)
    requires i < |hosts| && before == Install(inv, hosts[..i]) && after == Install(inv, hosts[..i + 1]) && Between(before, hosts, i)
    ensures Between(after, hosts, i + 1)
  {
    InstallLast(inv, hosts, i);
    InstallBetween(before, hosts, i);
    assert after == InstallOne(before, hosts[i]);
  }

  lemma InstallLast(inv: Inventory, hosts: Hosts, i: nat)
    requires i < |hosts|
    ensures Install(inv, hosts[..i + 1]) == InstallOne(Install(inv, hosts[..i]), hosts[i])
  {
    assert hosts[..i + 1][..i] == hosts[..i];
  }

  lemma BetweenEnd(inv: Inventory, hosts: Hosts)
    requires Between(inv, hosts, |hosts|)
    ensures Consistent(inv)
  {
    forall k | k in inv.knownIds ensures inv.knownIds[k] in inv.present && KeyOf(inv.present[inv.knownIds[k]]) == k {
    }
  }

  // ---------------------------------------------------------------- retiring devices

  /** The inventory once ids are assigned and before devices are taken out. */
  ghost function WithTable(inv: Inventory, a: Assignment): Inventory {
    inv.(knownIds := a.known, nextId := a.nextId)
  }

  lemma TableInjective(inv: Inventory, scan: seq<LocalDevice>)
    requires Consistent(inv) && Room(inv, scan)
    ensures Injective(Assign(inv, scan).known)
  {
    var a := Assign(inv, scan);
    TableIsAssigned(inv, scan);
    FreshIds(inv, scan);
    PresentIdsBelow(inv);
  }

  /** What taking the devices of `gone` out amounts to. */
  ghost predicate Retired(inv: Inventory, a: Assignment, gone: set<DeviceId>, r: Inventory) {
    && r.nextId == a.nextId
    && (forall id :: id in r.present <==> id in inv.present && id !in gone)
    && (forall id :: id in r.present ==> r.present[id] == inv.present[id])
    && (forall k :: k in r.knownIds <==> k in a.known && a.known[k] !in gone)
    && (forall k :: k in r.knownIds ==> r.knownIds[k] == a.known[k])
    && |r.tokens| == |inv.tokens|
    && (forall t :: 0 <= t < |r.tokens| ==> r.tokens[t].id == inv.tokens[t].id)
  }

  /** The keys forgotten are those of the devices taken out. */
  lemma RetireForgets(inv: Inventory, a: Assignment, gone: set<DeviceId>)
    requires DevicesKnown(inv) && gone <= inv.present.Keys && Injective(a.known)
    requires forall k :: k in inv.knownIds ==> k in a.known && a.known[k] == inv.knownIds[k]
    ensures Retired(inv, a, gone, Retire(WithTable(inv, a), gone))
  {
    var r := Retire(WithTable(inv, a), gone);
    forall k | k in a.known ensures k in r.knownIds <==> a.known[k] !in gone {
      if a.known[k] in gone {
        assert a.known[KeyOf(inv.present[a.known[k]])] == a.known[k];
      }
    }
  }

  /** A flag after some devices were taken out. */
  lemma RetiredToken(inv: Inventory, a: Assignment, gone: set<DeviceId>, t: nat)
    requires TokensConsistent(inv) && t < |inv.tokens|
    ensures var r := Retire(WithTable(inv, a), gone);
            && r.tokens[t].id == inv.tokens[t].id && r.tokens[t].key == inv.tokens[t].key
            && (r.tokens[t].live <==> inv.tokens[t].live && inv.tokens[t].id !in gone)
  {
    var lowered := set id | id in gone && id in inv.presence :: inv.presence[id];
    if t in lowered {
      var id :| id in gone && id in inv.presence && inv.presence[id] == t;
      assert inv.tokens[t].id == id;
    } else if inv.tokens[t].live {
      assert inv.presence[inv.tokens[t].id] == t;
    }
  }

  lemma RetiredTokens(inv: Inventory, a: Assignment, gone: set<DeviceId>)
    requires TokensConsistent(inv) && IdsBelow(inv) && inv.nextId <= a.nextId
    ensures var r := Retire(WithTable(inv, a), gone); TokensConsistent(r) && IdsBelow(r)
  {
    forall t: nat | t < |inv.tokens|
      ensures var r := Retire(WithTable(inv, a), gone);
              && r.tokens[t].id == inv.tokens[t].id && r.tokens[t].key == inv.tokens[t].key
              && (r.tokens[t].live <==> inv.tokens[t].live && inv.tokens[t].id !in gone)
    {
      RetiredToken(inv, a, gone, t);
    }
  }

  lemma GoneArePresent(inv: Inventory, scan: seq<LocalDevice>)
    ensures Gone(inv, scan) <= inv.present.Keys
    ensures forall j :: 0 <= j < |Assign(inv, scan).hosts| ==> Assign(inv, scan).hosts[j].0 !in Gone(inv, scan)
  {
    var a := Assign(inv, scan);
    forall j | 0 <= j < |a.hosts| ensures a.hosts[j].0 !in Gone(inv, scan) {
      assert a.hosts[j] in a.hosts;
    }
  }

  /** A scanned device is either still there or gets an id that no flag was ever created for. */
  lemma PresentOrNew(inv: Inventory, a: Assignment, added: set<DeviceKey>, gone: set<DeviceId>, r: Inventory, k: DeviceKey)
    requires Consistent(inv) && TableAssigned(inv, added, a) && Retired(inv, a, gone, r)
    requires k in a.known && a.known[k] !in gone
    ensures a.known[k] in r.present || NoTokenFor(r, a.known[k])
  {
    if k in inv.knownIds {
      assert inv.knownIds[k] in inv.present;
    }
  }

  lemma NewIdBelow(inv: Inventory, a: Assignment, added: set<DeviceKey>, k: DeviceKey)
    requires Consistent(inv) && TableAssigned(inv, added, a) && DistinctIds(added, a) && k in a.known
    ensures a.known[k] < a.nextId
  {
    PresentIdsBelow(inv);
  }

  lemma HostIsKnown(inv: Inventory, scan: seq<LocalDevice>, r: Inventory, j: nat)
    requires Consistent(inv) && Room(inv, scan) && j < |scan|
    requires Retired(inv, Assign(inv, scan), Gone(inv, scan), r)
    ensures |Assign(inv, scan).hosts| == |scan| && HostKnown(r, Assign(inv, scan).hosts[j])
  {
    var a := Assign(inv, scan);
    HostsAreAssigned(inv, scan);
    TableIsAssigned(inv, scan);
    FreshIds(inv, scan);
    HostAt(scan, a, j);
    GoneArePresent(inv, scan);
    NewIdBelow(inv, a, NewKeys(inv, scan), KeyOf(scan[j]));
    PresentOrNew(inv, a, NewKeys(inv, scan), Gone(inv, scan), r, KeyOf(scan[j]));
  }

  /** The listed host has the id and key of its table entry. */
  lemma HostAt(scan: seq<LocalDevice>, a: Assignment, j: nat)
    requires HostsAssigned(scan, a) && j < |scan|
    ensures var h := a.hosts[j];
            h.1.info.id == h.0 && KeyOf(h.1) == KeyOf(scan[j]) && KeyOf(h.1) in a.known && a.known[KeyOf(h.1)] == h.0
  {
  }

  lemma RetiredDevices(inv: Inventory, a: Assignment, gone: set<DeviceId>, r: Inventory)
    requires DevicesKnown(inv) && Injective(a.known) && Retired(inv, a, gone, r)
    requires forall k :: k in inv.knownIds ==> k in a.known && a.known[k] == inv.knownIds[k]
    ensures DevicesKnown(r) && Injective(r.knownIds)
  {
  }

  lemma KeyHasDevice(inv: Inventory, scan: seq<LocalDevice>, r: Inventory, k: DeviceKey)
    requires KeysConsistent(inv) && Retired(inv, Assign(inv, scan), Gone(inv, scan), r) && k in r.knownIds
    ensures r.knownIds[k] in r.present || Awaits(Assign(inv, scan).hosts, 0, r.knownIds[k])
  {
    var a := Assign(inv, scan);
    TableIsAssigned(inv, scan);
    if k !in inv.knownIds {
      ScanKeysMembers(scan);
      HostsAreAssigned(inv, scan);
      var i :| 0 <= i < |scan| && KeyOf(scan[i]) == k;
      assert a.hosts[i].0 == r.knownIds[k];
    }
  }

  lemma NextIdGrows(inv: Inventory, scan: seq<LocalDevice>)
    ensures inv.nextId <= Assign(inv, scan).nextId
  {
    TableIsAssigned(inv, scan);
  }

  lemma TableKeepsKnown(inv: Inventory, scan: seq<LocalDevice>)
    ensures forall k :: k in inv.knownIds ==> k in Assign(inv, scan).known && Assign(inv, scan).known[k] == inv.knownIds[k]
  {
    TableIsAssigned(inv, scan);
  }

  lemma RetireBetween(inv: Inventory, scan: seq<LocalDevice>)
    requires Consistent(inv) && Room(inv, scan)
    ensures Between(Retire(WithTable(inv, Assign(inv, scan)), Gone(inv, scan)), Assign(inv, scan).hosts, 0)
  {
    var a, gone := Assign(inv, scan), Gone(inv, scan);
    var r := Retire(WithTable(inv, a), gone);
    NextIdGrows(inv, scan);
    TableKeepsKnown(inv, scan);
    TableInjective(inv, scan);
    GoneArePresent(inv, scan);
    RetireForgets(inv, a, gone);
    RetiredTokens(inv, a, gone);
    RetireBetweenFrom(inv, scan, r);
  }

  lemma RetireBetweenFrom(inv: Inventory, scan: seq<LocalDevice>, r: Inventory)
    requires Consistent(inv) && Room(inv, scan) && TokensConsistent(r) && IdsBelow(r)
    requires Retired(inv, Assign(inv, scan), Gone(inv, scan), r)
    ensures Between(r, Assign(inv, scan).hosts, 0)
  {
    var a := Assign(inv, scan);
    TableIsAssigned(inv, scan);
    TableInjective(inv, scan);
    RetiredDevices(inv, a, Gone(inv, scan), r);
    HostsAreAssigned(inv, scan);
    forall j | 0 <= j < |a.hosts| ensures HostKnown(r, a.hosts[j]) {
      HostIsKnown(inv, scan, r, j);
    }
    forall k | k in r.knownIds ensures r.knownIds[k] in r.present || Awaits(a.hosts, 0, r.knownIds[k]) {
      KeyHasDevice(inv, scan, r, k);
    }
  }

  // ---------------------------------------------------------------- the theorem

  lemma {:induction false} InstallFrame(inv: Inventory, hosts: Hosts)
    ensures var r := Install(inv, hosts);
            && r.nextId == inv.nextId && r.knownIds == inv.knownIds
            && (forall i :: 0 <= i < |hosts| ==> hosts[i].0 in r.present)
            && (forall id :: id in r.present <==> id in inv.present || Issues(hosts, id))
  {
    if hosts != [] {
      var front := hosts[..|hosts| - 1];
      InstallFrame(inv, front);
      var last := hosts[|hosts| - 1].0;
      forall id ensures Issues(hosts, id) <==> Issues(front, id) || id == last {
        if Issues(front, id) {
          var i :| 0 <= i < |front| && front[i].0 == id;
          assert hosts[i].0 == id;
        }
        assert hosts[|front|].0 == last;
        if Issues(hosts, id) && id != last {
          var i :| 0 <= i < |hosts| && hosts[i].0 == id;
          assert front[i].0 == id;
        }
      }
    }
  }

  lemma RefreshConsistent(inv: Inventory, scan: seq<LocalDevice>)
    requires Consistent(inv) && Room(inv, scan)
    ensures Consistent(Refresh(inv, scan))
  {
    var hosts := Assign(inv, scan).hosts;
    var r := Retire(WithTable(inv, Assign(inv, scan)), Gone(inv, scan));
    RetireBetween(inv, scan);
    InstallPrefix(r, hosts, |hosts|);
    assert hosts[..|hosts|] == hosts;
    BetweenEnd(Install(r, hosts), hosts);
  }

  lemma RefreshInconsistent(inv: Inventory, scan: seq<LocalDevice>)
    requires !Room(inv, scan)
    ensures !Consistent(Refresh(inv, scan))
  {
    var a := Assign(inv, scan);
    var r := Retire(WithTable(inv, a), Gone(inv, scan));
    SaturatedId(inv, scan);
    InstallFrame(r, a.hosts);
    var after := Refresh(inv, scan);
    assert MAX_U32 in after.present && after.nextId == MAX_U32;
    if Consistent(after) {
      PresentIdsBelow(after);
    }
  }

  /** A consistent inventory is consistent after a refresh if and only if no new key saturates the counter. */
  lemma RefreshConsistentIff(inv: Inventory, scan: seq<LocalDevice>)
    requires Consistent(inv)
    ensures Consistent(Refresh(inv, scan)) <==> Room(inv, scan)
  {
    if Room(inv, scan) {
      RefreshConsistent(inv, scan);
    } else {
      RefreshInconsistent(inv, scan);
    }
  }
}
