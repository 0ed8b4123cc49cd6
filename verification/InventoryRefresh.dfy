/** What a refresh does, as a relation between the inventory before, the scan, and the inventory after. */
module InventoryRefresh {
  import opened Results
  import opened Bytes
  import opened Messages
  import opened Tally
  import opened Inventory
  import opened InventoryInvariant

  // ---------------------------------------------------------------- the delta is the difference

  lemma IssuesStep(front: Hosts, h: (DeviceId, LocalDevice), id: DeviceId)
    ensures Issues(front + [h], id) <==> Issues(front, id) || h.0 == id
  {
    var all := front + [h];
    if Issues(front, id) {
      var i :| 0 <= i < |front| && front[i].0 == id;
      assert all[i].0 == id;
    }
    if h.0 == id {
      assert all[|front|].0 == id;
    }
  }

  lemma {:induction false} AddedMembers(inv: Inventory, scan: seq<LocalDevice>, id: DeviceId)
    ensures id in Assign(inv, scan).added <==> Issues(Assign(inv, scan).hosts, id) && id !in inv.present
  {
    if scan != [] {
      var front := scan[..|scan| - 1];
      AddedMembers(inv, front, id);
      var a, all := Assign(inv, front), Assign(inv, scan);
      IssuesStep(a.hosts, all.hosts[|all.hosts| - 1], id);
    }
  }

  /** The ids of a scan are the table's ids of its keys. */
  lemma IssuedKeys(inv: Inventory, scan: seq<LocalDevice>, id: DeviceId)
    ensures var a := Assign(inv, scan);
            ScanKeys(scan) <= a.known.Keys &&
            (Issues(a.hosts, id) <==> exists k :: k in ScanKeys(scan) && a.known[k] == id)
  {
    var a := Assign(inv, scan);
    HostsAreAssigned(inv, scan);
    ScanKeysMembers(scan);
    if Issues(a.hosts, id) {
      var i :| 0 <= i < |a.hosts| && a.hosts[i].0 == id;
      assert KeyOf(scan[i]) in ScanKeys(scan) && a.known[KeyOf(scan[i])] == id;
    }
    forall k | k in ScanKeys(scan) ensures k in a.known && (a.known[k] == id ==> Issues(a.hosts, id)) {
      var i :| 0 <= i < |scan| && KeyOf(scan[i]) == k;
      if a.known[k] == id {
        assert a.hosts[i].0 == id;
      }
    }
  }

  lemma IssuedIds(hosts: Hosts, id: DeviceId)
    ensures id in IdsOf(hosts) <==> Issues(hosts, id)
  {
    if Issues(hosts, id) {
      var i :| 0 <= i < |hosts| && hosts[i].0 == id;
      assert hosts[i] in hosts;
    }
  }

  /** A present device is issued again exactly when the scan shows its key. */
  lemma SeenAgain(inv: Inventory, scan: seq<LocalDevice>, id: DeviceId)
    requires Consistent(inv) && id in inv.present
    ensures Issues(Assign(inv, scan).hosts, id) <==> KeyOf(inv.present[id]) in ScanKeys(scan)
  {
    var a := Assign(inv, scan);
    IssuedKeys(inv, scan, id);
    TableIsAssigned(inv, scan);
    PresentIdsBelow(inv);
    if Issues(a.hosts, id) {
      var k :| k in ScanKeys(scan) && a.known[k] == id;
      assert k in inv.knownIds;
    } else if KeyOf(inv.present[id]) in ScanKeys(scan) {
      assert a.known[KeyOf(inv.present[id])] == id;
    }
  }

  /** Devices are retired exactly when they are host devices whose key the scan does not show. */
  lemma GoneIff(inv: Inventory, scan: seq<LocalDevice>, id: DeviceId)
    requires Consistent(inv)
    ensures id in Gone(inv, scan) <==>
            id in inv.present && inv.present[id].backend == Host && KeyOf(inv.present[id]) !in ScanKeys(scan)
  {
    IssuedIds(Assign(inv, scan).hosts, id);
    if id in inv.present {
      SeenAgain(inv, scan, id);
    }
  }

  lemma PresentAfter(inv: Inventory, scan: seq<LocalDevice>, id: DeviceId)
    ensures id in Refresh(inv, scan).present <==>
            (id in inv.present && id !in Gone(inv, scan)) || Issues(Assign(inv, scan).hosts, id)
  {
    InstallFrame(Retire(WithTable(inv, Assign(inv, scan)), Gone(inv, scan)), Assign(inv, scan).hosts);
  }

  /**
   The delta is exactly the difference between the inventories before and after: `removed` holds, in
   ascending order, the host devices whose key is not in the scan; `added` holds the ids that were not present.
   */
  lemma DeltaIsDifference(inv: Inventory, scan: seq<LocalDevice>, id: DeviceId)
    requires Consistent(inv)
    ensures var after, delta := Refresh(inv, scan), RefreshDelta(inv, scan);
            && IsAscending(delta.removed)
            && (id in delta.removed <==> id in inv.present && id !in after.present)
            && (id in delta.removed <==>
                  id in inv.present && inv.present[id].backend == Host && KeyOf(inv.present[id]) !in ScanKeys(scan))
            && (id in delta.added <==> id !in inv.present && id in after.present)
  {
    PresentAfter(inv, scan, id);
    GoneIff(inv, scan, id);
    AddedMembers(inv, scan, id);
    IssuedIds(Assign(inv, scan).hosts, id);
  }

  /**
   A refresh removes a device of the host if and only if the scan shows none of its kind, vendor and
   product at its port, so that another device plugged in there does not take its place.
   */
  lemma RemovedUnlessShown(inv: Inventory, scan: seq<LocalDevice>, id: DeviceId)
    requires Consistent(inv) && id in inv.present
    ensures id in RefreshDelta(inv, scan).removed <==>
            inv.present[id].backend == Host && forall i :: 0 <= i < |scan| ==> !SameDevice(scan[i], inv.present[id])
    ensures id !in Refresh(inv, scan).present <==> id in RefreshDelta(inv, scan).removed
  {
    DeltaIsDifference(inv, scan, id);
    ScanKeysMembers(scan);
    forall i | 0 <= i < |scan| ensures KeyOf(scan[i]) == KeyOf(inv.present[id]) <==> SameDevice(scan[i], inv.present[id]) {
      SameDeviceIff(scan[i], inv.present[id]);
    }
  }

  lemma TableAfter(inv: Inventory, scan: seq<LocalDevice>)
    requires Consistent(inv) && Room(inv, scan)
    ensures var a, after := Assign(inv, scan), Refresh(inv, scan);
            && after.nextId == a.nextId
            && (forall k :: k in after.knownIds <==> k in a.known && a.known[k] !in Gone(inv, scan))
            && (forall k :: k in after.knownIds ==> after.knownIds[k] == a.known[k])
  {
    var a, gone := Assign(inv, scan), Gone(inv, scan);
    TableKeepsKnown(inv, scan);
    TableInjective(inv, scan);
    GoneArePresent(inv, scan);
    RetireForgets(inv, a, gone);
    InstallFrame(Retire(WithTable(inv, a), gone), a.hosts);
  }

  /** A key gets an id from the table before or from the scan; an id of the scan is never retired. */
  lemma KeyOrNew(inv: Inventory, scan: seq<LocalDevice>, k: DeviceKey)
    requires Consistent(inv)
    ensures var a := Assign(inv, scan);
            && (k in a.known <==> k in inv.knownIds || k in ScanKeys(scan))
            && (k in inv.knownIds ==> a.known[k] == inv.knownIds[k])
            && (k in a.known && k !in inv.knownIds ==> a.known[k] !in Gone(inv, scan))
  {
    TableIsAssigned(inv, scan);
    PresentIdsBelow(inv);
    GoneArePresent(inv, scan);
  }

  /** Every scanned key has an id afterwards; other devices stay if they are emulated; nobody's id changes. */
  lemma KeysAfter(inv: Inventory, scan: seq<LocalDevice>, k: DeviceKey)
    requires Consistent(inv) && Room(inv, scan)
    ensures var after := Refresh(inv, scan);
            && (k in after.knownIds <==>
                  k in ScanKeys(scan) || (k in inv.knownIds && inv.present[inv.knownIds[k]].backend == Emulated))
            && (k in inv.knownIds && k in after.knownIds ==> after.knownIds[k] == inv.knownIds[k])
  {
    TableAfter(inv, scan);
    KeyOrNew(inv, scan, k);
    if k in inv.knownIds {
      GoneIff(inv, scan, inv.knownIds[k]);
    }
  }

  // ---------------------------------------------------------------- duplicates in a scan

  /** Keys that the scan shows for the first time, it shows once. */
  ghost predicate NewKeysOnce(inv: Inventory, scan: seq<LocalDevice>) {
    forall i, j :: 0 <= i < j < |scan| && KeyOf(scan[i]) == KeyOf(scan[j]) ==> KeyOf(scan[i]) in inv.knownIds
  }

  lemma NewKeysOnceStep(inv: Inventory, front: seq<LocalDevice>, d: LocalDevice)
    ensures NewKeysOnce(inv, front + [d]) <==>
            NewKeysOnce(inv, front) && (KeyOf(d) in inv.knownIds || KeyOf(d) !in ScanKeys(front))
  {
    var all := front + [d];
    ScanKeysMembers(front);
    if NewKeysOnce(inv, all) {
      forall i, j | 0 <= i < j < |front| && KeyOf(front[i]) == KeyOf(front[j]) ensures KeyOf(front[i]) in inv.knownIds {
        assert all[i] == front[i] && all[j] == front[j];
      }
      if KeyOf(d) in ScanKeys(front) {
        var i :| 0 <= i < |front| && KeyOf(front[i]) == KeyOf(d);
        assert all[i] == front[i] && all[|front|] == d;
      }
    }
  }

  lemma RoomFront(inv: Inventory, scan: seq<LocalDevice>)
    requires Room(inv, scan) && scan != []
    ensures Room(inv, scan[..|scan| - 1])
  {
    if KeyOf(scan[|scan| - 1]) in inv.knownIds || KeyOf(scan[|scan| - 1]) in NewKeys(inv, scan[..|scan| - 1]) {
      NewKeysSame(inv, scan);
    } else {
      NewKeysGrow(inv, scan);
    }
  }

  /** `added` names an id twice exactly when the scan shows a new key twice. */
  lemma {:induction false} AddedOnceIff(inv: Inventory, scan: seq<LocalDevice>)
    requires Consistent(inv) && Room(inv, scan)
    ensures NoDuplicates(RefreshDelta(inv, scan).added) <==> NewKeysOnce(inv, scan)
  {
    if scan != [] {
      var front, d := scan[..|scan| - 1], scan[|scan| - 1];
      assert scan == front + [d];
      RoomFront(inv, scan);
      AddedOnceIff(inv, front);
      NewKeysOnceStep(inv, front, d);
      AddedTwiceIff(inv, front, d);
      var a := Assign(inv, front);
      if Assign(inv, scan).added != a.added {
        NoDuplicatesStep(a.added, Assign(inv, scan).added[|a.added|]);
      }
    }
  }

  /** A new key already seen has an id that is listed. */
  lemma SeenIsListed(inv: Inventory, front: seq<LocalDevice>, key: DeviceKey)
    requires Consistent(inv) && Room(inv, front) && key in NewKeys(inv, front)
    ensures var a := Assign(inv, front); key in a.known && a.known[key] !in inv.present && a.known[key] in a.added
  {
    var a := Assign(inv, front);
    TableIsAssigned(inv, front);
    PresentIdsBelow(inv);
    AddedMembers(inv, front, a.known[key]);
    IssuedKeys(inv, front, a.known[key]);
  }

  lemma KnownIdBelow(inv: Inventory, k: DeviceKey)
    requires Consistent(inv) && k in inv.knownIds
    ensures inv.knownIds[k] < inv.nextId
  {
    PresentIdsBelow(inv);
  }

  lemma BelowCounter(inv: Inventory, added: set<DeviceKey>, a: Assignment, k: DeviceKey)
    requires TableAssigned(inv, added, a) && DistinctIds(added, a) && inv.nextId + |added| <= MAX_U32
    requires k in a.known && (k in inv.knownIds ==> inv.knownIds[k] < inv.nextId)
    ensures a.known[k] < a.nextId
  {
  }

  lemma ScannedIdBelow(inv: Inventory, front: seq<LocalDevice>, k: DeviceKey)
    requires Consistent(inv) && Room(inv, front) && k in Assign(inv, front).known
    ensures Assign(inv, front).known[k] < Assign(inv, front).nextId
  {
    TableIsAssigned(inv, front);
    FreshIds(inv, front);
    if k in inv.knownIds {
      KnownIdBelow(inv, k);
    }
    BelowCounter(inv, NewKeys(inv, front), Assign(inv, front), k);
  }

  /** The next id is not listed yet. */
  lemma NextIsUnlisted(inv: Inventory, front: seq<LocalDevice>)
    requires Consistent(inv) && Room(inv, front)
    ensures Assign(inv, front).nextId !in Assign(inv, front).added
  {
    var a := Assign(inv, front);
    AddedMembers(inv, front, a.nextId);
    IssuedKeys(inv, front, a.nextId);
    if a.nextId in a.added {
      var k :| k in ScanKeys(front) && a.known[k] == a.nextId;
      ScannedIdBelow(inv, front, k);
    }
  }

  lemma NextIsNotPresent(inv: Inventory, front: seq<LocalDevice>)
    requires Consistent(inv)
    ensures Assign(inv, front).nextId !in inv.present
  {
    NextIdGrows(inv, front);
    PresentIdsBelow(inv);
  }

  /** Whether the next device of a scan adds an id, and one that was added already. */
  lemma AddedTwiceIff(inv: Inventory, front: seq<LocalDevice>, d: LocalDevice)
    requires Consistent(inv) && Room(inv, front)
    ensures var a, all := Assign(inv, front), AssignOne(inv.present, Assign(inv, front), d);
            if KeyOf(d) in inv.knownIds then all.added == a.added
            else |all.added| == |a.added| + 1 && all.added == a.added + [all.added[|a.added|]] &&
                 (all.added[|a.added|] in a.added <==> KeyOf(d) in ScanKeys(front))
  {
    var a := Assign(inv, front);
    TableIsAssigned(inv, front);
    if KeyOf(d) !in inv.knownIds {
      if KeyOf(d) in ScanKeys(front) {
        SeenIsListed(inv, front, KeyOf(d));
      } else {
        NextIsUnlisted(inv, front);
        NextIsNotPresent(inv, front);
      }
    }
  }

  // ---------------------------------------------------------------- order does not matter

  /** With room, the new ids are exactly the next ones in order. */
  lemma {:induction false} NewIdsFill(inv: Inventory, scan: seq<LocalDevice>, x: DeviceId)
    requires Room(inv, scan) && inv.nextId <= x < Assign(inv, scan).nextId
    ensures exists k :: k in NewKeys(inv, scan) && k in Assign(inv, scan).known && Assign(inv, scan).known[k] == x
  {
    assert scan != [];
    var front, d := scan[..|scan| - 1], scan[|scan| - 1];
    var a := Assign(inv, front);
    RoomFront(inv, scan);
    TableIsAssigned(inv, front);
    if x < a.nextId {
      NewIdsFill(inv, front, x);
      var k :| k in NewKeys(inv, front) && k in a.known && a.known[k] == x;
      assert k in NewKeys(inv, scan) && Assign(inv, scan).known[k] == x;
    } else {
      assert KeyOf(d) in NewKeys(inv, scan) && Assign(inv, scan).known[KeyOf(d)] == x;
    }
  }

  lemma AddedInterval(inv: Inventory, scan: seq<LocalDevice>, id: DeviceId)
    requires Consistent(inv) && Room(inv, scan)
    ensures id in RefreshDelta(inv, scan).added <==> inv.nextId <= id < Assign(inv, scan).nextId
  {
    var a := Assign(inv, scan);
    AddedMembers(inv, scan, id);
    IssuedKeys(inv, scan, id);
    TableIsAssigned(inv, scan);
    FreshIds(inv, scan);
    PresentIdsBelow(inv);
    if id in a.added {
      var k :| k in ScanKeys(scan) && a.known[k] == id;
      assert k !in inv.knownIds;
    }
    if inv.nextId <= id < a.nextId {
      NewIdsFill(inv, scan, id);
    }
  }

  lemma TailMembers(a: seq<DeviceId>, x: DeviceId)
    requires IsAscending(a) && a != []
    ensures x in a[1..] <==> x in a && x > a[0]
  {
    if x in a && x > a[0] {
      var i :| 0 <= i < |a| && a[i] == x;
      assert a[1..][i - 1] == x;
    }
    if x in a[1..] {
      var i :| 0 <= i < |a[1..]| && a[1..][i] == x;
      assert a[i + 1] == x;
    }
  }

  lemma SameHead(a: seq<DeviceId>, b: seq<DeviceId>)
    requires IsAscending(a) && IsAscending(b) && a != [] && forall x :: x in a <==> x in b
    ensures b != [] && a[0] == b[0]
  {
    assert a[0] in b;
    assert b[0] in a;
  }

  /** An ascending list is determined by its elements. */
  lemma {:induction false} AscendingUnique(a: seq<DeviceId>, b: seq<DeviceId>)
    requires IsAscending(a) && IsAscending(b) && forall x :: x in a <==> x in b
    ensures a == b
  {
    var first := if b == [] then 0 else b[0];
    assert b != [] ==> first in b;
    if a != [] {
      SameHead(a, b);
      forall x ensures x in a[1..] <==> x in b[1..] {
        TailMembers(a, x);
        TailMembers(b, x);
      }
      AscendingUnique(a[1..], b[1..]);
      assert a == [a[0]] + a[1..] && b == [b[0]] + b[1..];
    }
  }

  /**
   Two scans that show the same keys, in any order and with any repetitions, retire the same devices
   in the same order, add the same set of ids, keep every known id and leave the same counter.
   */
  lemma SameKeysSameOutcome(inv: Inventory, scan: seq<LocalDevice>, other: seq<LocalDevice>)
    requires Consistent(inv) && Room(inv, scan) && ScanKeys(scan) == ScanKeys(other)
    ensures var d, e := RefreshDelta(inv, scan), RefreshDelta(inv, other);
            && d.removed == e.removed
            && (forall id :: id in d.added <==> id in e.added)
            && Refresh(inv, scan).nextId == Refresh(inv, other).nextId
            && Refresh(inv, scan).present.Keys == Refresh(inv, other).present.Keys
  {
    SameCounters(inv, scan, other);
    forall id
      ensures id in RefreshDelta(inv, scan).removed <==> id in RefreshDelta(inv, other).removed
      ensures id in RefreshDelta(inv, scan).added <==> id in RefreshDelta(inv, other).added
      ensures id in Refresh(inv, scan).present <==> id in Refresh(inv, other).present
    {
      SameFate(inv, scan, other, id);
    }
    DeltaIsDifference(inv, scan, 0);
    DeltaIsDifference(inv, other, 0);
    AscendingUnique(RefreshDelta(inv, scan).removed, RefreshDelta(inv, other).removed);
  }

  lemma SameCounters(inv: Inventory, scan: seq<LocalDevice>, other: seq<LocalDevice>)
    requires ScanKeys(scan) == ScanKeys(other)
    ensures NewKeys(inv, scan) == NewKeys(inv, other) && Assign(inv, scan).nextId == Assign(inv, other).nextId
    ensures Refresh(inv, scan).nextId == Refresh(inv, other).nextId
  {
    CounterIsCapped(inv, scan);
    CounterIsCapped(inv, other);
    SameCounter(inv, scan);
    SameCounter(inv, other);
  }

  lemma SameFate(inv: Inventory, scan: seq<LocalDevice>, other: seq<LocalDevice>, id: DeviceId)
    requires Consistent(inv) && Room(inv, scan) && Room(inv, other) && ScanKeys(scan) == ScanKeys(other)
    ensures id in RefreshDelta(inv, scan).removed <==> id in RefreshDelta(inv, other).removed
    ensures id in RefreshDelta(inv, scan).added <==> id in RefreshDelta(inv, other).added
    ensures id in Refresh(inv, scan).present <==> id in Refresh(inv, other).present
  {
    SameCounters(inv, scan, other);
    DeltaIsDifference(inv, scan, id);
    DeltaIsDifference(inv, other, id);
    AddedInterval(inv, scan, id);
    AddedInterval(inv, other, id);
  }

  lemma SameCounter(inv: Inventory, scan: seq<LocalDevice>)
    ensures Refresh(inv, scan).nextId == Assign(inv, scan).nextId
  {
    InstallFrame(Retire(WithTable(inv, Assign(inv, scan)), Gone(inv, scan)), Assign(inv, scan).hosts);
  }

  /** A permutation of a scan shows the same keys. */
  lemma PermutationSameKeys(scan: seq<LocalDevice>, other: seq<LocalDevice>)
    requires multiset(scan) == multiset(other)
    ensures ScanKeys(scan) == ScanKeys(other)
  {
    ScanKeysMembers(scan);
    ScanKeysMembers(other);
    forall k ensures k in ScanKeys(scan) <==> k in ScanKeys(other) {
      if k in ScanKeys(scan) {
        var i :| 0 <= i < |scan| && KeyOf(scan[i]) == k;
        assert scan[i] in multiset(other);
        var j :| 0 <= j < |other| && other[j] == scan[i];
      }
      if k in ScanKeys(other) {
        var i :| 0 <= i < |other| && KeyOf(other[i]) == k;
        assert other[i] in multiset(scan);
        var j :| 0 <= j < |scan| && scan[j] == other[i];
      }
    }
  }

  // ---------------------------------------------------------------- a repeated scan changes nothing

  /** The last device a list of hosts installs under an id. */
  ghost function LastFor(hosts: Hosts, id: DeviceId): Option<LocalDevice> {
    if hosts == [] then None
    else if hosts[|hosts| - 1].0 == id then Some(hosts[|hosts| - 1].1)
    else LastFor(hosts[..|hosts| - 1], id)
  }

  /** What installing does to the devices depends on the list alone. */
  lemma {:induction false} InstallValue(inv: Inventory, hosts: Hosts, id: DeviceId)
    ensures id in Install(inv, hosts).present <==> id in inv.present || LastFor(hosts, id).Some?
    ensures id in Install(inv, hosts).present ==>
            Install(inv, hosts).present[id] ==
            match LastFor(hosts, id) case Some(d) => d case None => inv.present[id]
  {
    if hosts != [] {
      InstallValue(inv, hosts[..|hosts| - 1], id);
    }
  }

  lemma {:induction false} LastForIs(hosts: Hosts, i: nat)
    requires i < |hosts| && forall j :: i < j < |hosts| ==> hosts[j].0 != hosts[i].0
    ensures LastFor(hosts, hosts[i].0) == Some(hosts[i].1)
  {
    if i < |hosts| - 1 {
      LastForIs(hosts[..|hosts| - 1], i);
    }
  }

  /** A key has its id as long as the scan shows it. */
  lemma ScannedId(inv: Inventory, scan: seq<LocalDevice>, i: nat)
    requires Consistent(inv) && Room(inv, scan) && i < |scan|
    ensures var a, key := Assign(inv, scan), KeyOf(scan[i]);
            && |a.hosts| == |scan| && key in a.known && key in Refresh(inv, scan).knownIds
            && Refresh(inv, scan).knownIds[key] == a.known[key]
            && a.hosts[i] == (a.known[key], WithId(scan[i], a.known[key]))
  {
    HostsAreAssigned(inv, scan);
    TableAfter(inv, scan);
    ScanKeysMembers(scan);
    KeysAfter(inv, scan, KeyOf(scan[i]));
  }

  /** What is stored of a scanned device is its last record in the scan, under the id of its key. */
  lemma StoredAsScanned(inv: Inventory, scan: seq<LocalDevice>, i: nat)
    requires Consistent(inv) && Room(inv, scan) && i < |scan|
    requires forall j :: i < j < |scan| ==> KeyOf(scan[j]) != KeyOf(scan[i])
    ensures var after := Refresh(inv, scan);
            && KeyOf(scan[i]) in after.knownIds
            && var id := after.knownIds[KeyOf(scan[i])];
            id in after.present && after.present[id] == scan[i].(info := scan[i].info.(id := id))
  {
    var a := Assign(inv, scan);
    TableInjective(inv, scan);
    ScannedId(inv, scan, i);
    forall j | i < j < |scan| ensures a.hosts[j].0 != a.hosts[i].0 {
      ScannedId(inv, scan, j);
    }
    LastForIs(a.hosts, i);
    InstallValue(Retire(WithTable(inv, a), Gone(inv, scan)), a.hosts, a.hosts[i].0);
  }

  /** What the scan does not show is as it was. */
  lemma OthersAsBefore(inv: Inventory, scan: seq<LocalDevice>, id: DeviceId)
    requires Consistent(inv) && Room(inv, scan) && id in inv.present && KeyOf(inv.present[id]) !in ScanKeys(scan)
    ensures var after := Refresh(inv, scan);
            id in after.present <==> inv.present[id].backend == Emulated
    ensures id in Refresh(inv, scan).present ==> Refresh(inv, scan).present[id] == inv.present[id]
  {
    DeltaIsDifference(inv, scan, id);
    NotIssued(inv, scan, id);
    InstallValue(Retire(WithTable(inv, Assign(inv, scan)), Gone(inv, scan)), Assign(inv, scan).hosts, id);
  }

  /** The id of a device that the scan does not show is not given to anything it shows. */
  lemma NotIssued(inv: Inventory, scan: seq<LocalDevice>, id: DeviceId)
    requires Consistent(inv) && Room(inv, scan) && id in inv.present && KeyOf(inv.present[id]) !in ScanKeys(scan)
    ensures LastFor(Assign(inv, scan).hosts, id).None?
  {
    var a := Assign(inv, scan);
    if LastFor(a.hosts, id).Some? {
      LastForIssues(a.hosts, id);
      HostsAreAssigned(inv, scan);
      var i :| 0 <= i < |a.hosts| && a.hosts[i].0 == id;
      ScanKeysMembers(scan);
      TableInjective(inv, scan);
      TableKeepsKnown(inv, scan);
    }
  }

  lemma {:induction false} LastForIssues(hosts: Hosts, id: DeviceId)
    requires LastFor(hosts, id).Some?
    ensures exists i :: 0 <= i < |hosts| && hosts[i].0 == id
  {
    var n := |hosts| - 1;
    if hosts[n].0 != id {
      LastForIssues(hosts[..n], id);
      var i :| 0 <= i < n && hosts[..n][i].0 == id;
      assert hosts[i].0 == id;
    }
  }

  lemma {:induction false} InstallKnownFlags(inv: Inventory, hosts: Hosts)
    requires forall h :: h in hosts ==> h.0 in inv.presence
    ensures Install(inv, hosts) == inv.(present := Install(inv, hosts).present)
  {
    if hosts != [] {
      InstallKnownFlags(inv, hosts[..|hosts| - 1]);
    }
  }

  /** Installing a list that was just installed changes nothing. */
  lemma InstallTwice(inv: Inventory, hosts: Hosts, again: Inventory)
    requires again.present == Install(inv, hosts).present
    requires forall h :: h in hosts ==> h.0 in again.presence
    ensures Install(again, hosts) == again
  {
    InstallKnownFlags(again, hosts);
    forall id
      ensures id in Install(again, hosts).present <==> id in again.present
      ensures id in again.present ==> Install(again, hosts).present[id] == again.present[id]
    {
      InstallValue(inv, hosts, id);
      InstallValue(again, hosts, id);
    }
    assert Install(again, hosts).present == again.present;
  }

  lemma RetireNothing(inv: Inventory)
    ensures Retire(inv, {}) == inv
  {
    var r := Retire(inv, {});
    assert r.present == inv.present && r.knownIds == inv.knownIds && r.presence == inv.presence;
    assert r.tokens == inv.tokens;
  }

  /** Scanned keys keep the ids the first scan gave them. */
  lemma KeysStay(inv: Inventory, scan: seq<LocalDevice>, i: nat)
    requires Consistent(inv) && Room(inv, scan) && i < |scan|
    ensures KeyOf(scan[i]) in Assign(inv, scan).known
    ensures KeyOf(scan[i]) in Refresh(inv, scan).knownIds
    ensures Refresh(inv, scan).knownIds[KeyOf(scan[i])] == Assign(inv, scan).known[KeyOf(scan[i])]
  {
    TableAfter(inv, scan);
    HostsAreAssigned(inv, scan);
    GoneArePresent(inv, scan);
  }

  lemma SameHosts(scan: seq<LocalDevice>, a: Assignment, b: Assignment)
    requires HostsAssigned(scan, a) && HostsAssigned(scan, b)
    requires forall i :: 0 <= i < |scan| ==> a.known[KeyOf(scan[i])] == b.known[KeyOf(scan[i])]
    ensures a.hosts == b.hosts
  {
  }

  lemma NoNewTable(inv: Inventory, a: Assignment)
    requires TableAssigned(inv, {}, a)
    ensures WithTable(inv, a) == inv
  {
    assert a.known == inv.knownIds;
  }

  lemma HostsAgain(inv: Inventory, scan: seq<LocalDevice>)
    requires Consistent(inv) && Room(inv, scan)
    ensures Assign(Refresh(inv, scan), scan).hosts == Assign(inv, scan).hosts
    ensures forall i :: 0 <= i < |scan| ==> KeyOf(scan[i]) in Refresh(inv, scan).knownIds
  {
    var a, after := Assign(inv, scan), Refresh(inv, scan);
    var b := Assign(after, scan);
    HostsAreAssigned(inv, scan);
    HostsAreAssigned(after, scan);
    TableKeepsKnown(after, scan);
    forall i | 0 <= i < |scan|
      ensures KeyOf(scan[i]) in after.knownIds && a.known[KeyOf(scan[i])] == b.known[KeyOf(scan[i])]
    {
      KeysStay(inv, scan, i);
    }
    SameHosts(scan, b, a);
  }

  lemma TableAgain(after: Inventory, scan: seq<LocalDevice>)
    requires forall i :: 0 <= i < |scan| ==> KeyOf(scan[i]) in after.knownIds
    ensures WithTable(after, Assign(after, scan)) == after
  {
    ScanKeysMembers(scan);
    assert NewKeys(after, scan) == {};
    TableIsAssigned(after, scan);
    NoNewTable(after, Assign(after, scan));
  }

  lemma NothingGone(inv: Inventory, scan: seq<LocalDevice>)
    requires Consistent(inv) && Room(inv, scan)
    ensures Gone(Refresh(inv, scan), scan) == {}
  {
    var after := Refresh(inv, scan);
    RefreshConsistent(inv, scan);
    forall id ensures id !in Gone(after, scan) {
      GoneIff(after, scan, id);
      if id in after.present {
        var k := KeyOf(after.present[id]);
        KeysAfter(inv, scan, k);
        if k !in ScanKeys(scan) {
          assert inv.present[inv.knownIds[k]].backend == k.backend;
        }
      }
    }
  }

  lemma InstalledHavePresence(inv: Inventory, hosts: Hosts, after: Inventory)
    requires after == Install(inv, hosts) && after.presence.Keys == after.present.Keys
    ensures forall h :: h in hosts ==> h.0 in after.presence
  {
    InstallFrame(inv, hosts);
    forall h | h in hosts ensures h.0 in after.presence {
      var i :| 0 <= i < |hosts| && hosts[i] == h;
      assert hosts[i].0 in after.present;
    }
  }

  lemma RefreshAgain(inv: Inventory, scan: seq<LocalDevice>)
    requires Consistent(inv) && Room(inv, scan)
    ensures Refresh(Refresh(inv, scan), scan) == Refresh(inv, scan)
  {
    var hosts, after := Assign(inv, scan).hosts, Refresh(inv, scan);
    var r := Retire(WithTable(inv, Assign(inv, scan)), Gone(inv, scan));
    RefreshConsistent(inv, scan);
    HostsAgain(inv, scan);
    TableAgain(after, scan);
    NothingGone(inv, scan);
    RetireNothing(after);
    InstalledHavePresence(r, hosts, after);
    InstallTwice(r, hosts, after);
  }

  /** Scanning the same devices again changes nothing and reports nothing. */
  lemma RefreshIdempotent(inv: Inventory, scan: seq<LocalDevice>)
    requires Consistent(inv) && Room(inv, scan)
    ensures var after := Refresh(inv, scan);
            Refresh(after, scan) == after && RefreshDelta(after, scan) == Delta([], [])
  {
    RefreshAgain(inv, scan);
    NothingGone(inv, scan);
    NothingAdded(Refresh(inv, scan), scan);
  }

  lemma NothingAdded(inv: Inventory, scan: seq<LocalDevice>)
    requires Refresh(inv, scan).present == inv.present
    ensures Assign(inv, scan).added == []
  {
    var added := Assign(inv, scan).added;
    if added != [] {
      AddedMembers(inv, scan, added[0]);
      PresentAfter(inv, scan, added[0]);
    }
  }

  // ---------------------------------------------------------------- runs of refreshes

  /** Flags only fall, keep their birth record, and new ones are appended; the counter only grows. */
  ghost predicate FlagsFall(before: Inventory, after: Inventory) {
    && before.nextId <= after.nextId && |before.tokens| <= |after.tokens|
    && (forall t :: 0 <= t < |before.tokens| ==>
          after.tokens[t].id == before.tokens[t].id && after.tokens[t].key == before.tokens[t].key &&
          (after.tokens[t].live ==> before.tokens[t].live))
  }

  lemma {:induction false} InstallFlagsFall(inv: Inventory, hosts: Hosts)
    ensures FlagsFall(inv, Install(inv, hosts))
  {
    if hosts != [] {
      InstallFlagsFall(inv, hosts[..|hosts| - 1]);
    }
  }

  lemma RefreshFlagsFall(inv: Inventory, scan: seq<LocalDevice>)
    ensures FlagsFall(inv, Refresh(inv, scan))
  {
    var a := Assign(inv, scan);
    var r := Retire(WithTable(inv, a), Gone(inv, scan));
    NextIdGrows(inv, scan);
    InstallFlagsFall(r, a.hosts);
  }

  function RefreshAll(inv: Inventory, scans: seq<seq<LocalDevice>>): Inventory
    decreases |scans|
  {
    if scans == [] then inv else RefreshAll(Refresh(inv, scans[0]), scans[1..])
  }

  /** A counter that ends below its limit never saturated on the way. */
  lemma RoomIfBelow(inv: Inventory, scan: seq<LocalDevice>)
    requires Refresh(inv, scan).nextId < MAX_U32
    ensures Room(inv, scan)
  {
    SameCounter(inv, scan);
    CounterIsCapped(inv, scan);
  }

  lemma CounterIsCapped(inv: Inventory, scan: seq<LocalDevice>)
    ensures Assign(inv, scan).nextId == Capped(inv.nextId + |NewKeys(inv, scan)|)
  {
    TableIsAssigned(inv, scan);
  }

  lemma {:induction false} CounterGrows(inv: Inventory, scans: seq<seq<LocalDevice>>)
    ensures inv.nextId <= RefreshAll(inv, scans).nextId
    decreases |scans|
  {
    if scans != [] {
      RefreshFlagsFall(inv, scans[0]);
      CounterGrows(Refresh(inv, scans[0]), scans[1..]);
    }
  }

  /**
   From a consistent inventory, any run of refreshes whose counter does not saturate stays consistent,
   and an id that was issued before and is not present never comes back.
   */
  lemma {:induction false} RunConsistent(inv: Inventory, scans: seq<seq<LocalDevice>>)
    requires Consistent(inv) && RefreshAll(inv, scans).nextId < MAX_U32
    ensures Consistent(RefreshAll(inv, scans))
    ensures forall id: DeviceId :: id < inv.nextId && id !in inv.present ==> id !in RefreshAll(inv, scans).present
    decreases |scans|
  {
    if scans != [] {
      var next := Refresh(inv, scans[0]);
      CounterGrows(next, scans[1..]);
      RoomIfBelow(inv, scans[0]);
      RefreshConsistent(inv, scans[0]);
      RunConsistent(next, scans[1..]);
      RefreshFlagsFall(inv, scans[0]);
      forall id: DeviceId | id < inv.nextId && id !in inv.present ensures id !in next.present {
        RetiredStaysAway(inv, scans[0], id);
      }
    }
  }

  lemma RetiredStaysAway(inv: Inventory, scan: seq<LocalDevice>, id: DeviceId)
    requires Consistent(inv) && Room(inv, scan) && id < inv.nextId && id !in inv.present
    ensures id !in Refresh(inv, scan).present
  {
    DeltaIsDifference(inv, scan, id);
    AddedInterval(inv, scan, id);
  }
}
