/**
 The device inventory of crates/farbus-core/src/usb.rs as functions on a value, and what a refresh
 does to it.  A presence flag is an index into `tokens`, the list of all flags ever created; an
 entry records the id and key its flag was created for, which no operation reads.
 */
module Inventory {
  import opened Results
  import opened Bytes
  import opened Utf8
  import opened Messages

  datatype Backend = Emulated | Host

  datatype LocalDevice = LocalDevice(info: DeviceInfo, backend: Backend)

  datatype DeviceKey = DeviceKey(backend: Backend, busId: seq<byte>, vid: u16, pid: u16)

  function KeyOf(d: LocalDevice): DeviceKey {
    DeviceKey(d.backend, d.info.busId, d.info.vid, d.info.pid)
  }

  /** Two records are of one device exactly if they agree on kind, port, vendor and product. */
  predicate SameDevice(d: LocalDevice, e: LocalDevice) {
    d.backend == e.backend && d.info.busId == e.info.busId && d.info.vid == e.info.vid && d.info.pid == e.info.pid
  }

  lemma SameDeviceIff(d: LocalDevice, e: LocalDevice)
    ensures KeyOf(d) == KeyOf(e) <==> SameDevice(d, e)
  {
  }

  function WithId(d: LocalDevice, id: DeviceId): LocalDevice {
    d.(info := d.info.(id := id))
  }

  datatype Token = Token(id: DeviceId, key: DeviceKey, live: bool)

  datatype Inventory = Inventory(
    present: map<DeviceId, LocalDevice>,
    knownIds: map<DeviceKey, DeviceId>,
    presence: map<DeviceId, nat>,
    tokens: seq<Token>,
    nextId: u32)

  /** `u32::saturating_add(1)`. */
  function Increment(n: u32): u32 {
    if n < MAX_U32 then n + 1 else n
  }

  // ---------------------------------------------------------------- iteration in id order

  predicate IsLeast(m: DeviceId, s: set<DeviceId>) {
    m in s && forall x :: x in s ==> m <= x
  }

  lemma LeastExists(s: set<DeviceId>)
    requires s != {}
    ensures exists m :: IsLeast(m, s)
    decreases s
  {
    var a :| a in s;
    var rest := s - {a};
    if rest == {} {
      assert forall x :: x in s ==> x == a || x in rest;
      assert IsLeast(a, s);
    } else {
      LeastExists(rest);
      var m :| IsLeast(m, rest);
      var best := if a <= m then a else m;
      forall x | x in s ensures best <= x {
        assert x == a || x in rest;
      }
      assert IsLeast(best, s);
    }
  }

  function Least(s: set<DeviceId>): (m: DeviceId)
    requires s != {}
    ensures IsLeast(m, s)
  {
    LeastExists(s);
    var m :| IsLeast(m, s);
    m
  }

  predicate IsAscending(r: seq<DeviceId>) {
    forall i, j :: 0 <= i < j < |r| ==> r[i] < r[j]
  }

  /** The elements of a set in ascending order: the order in which a `BTreeMap` is visited. */
  function Ascending(s: set<DeviceId>): (r: seq<DeviceId>)
    ensures forall x :: x in r <==> x in s
    ensures IsAscending(r)
  {
    if s == {} then []
    else
      var m := Least(s);
      var rest := Ascending(s - {m});
      assert forall i :: 0 <= i < |rest| ==> rest[i] in s && rest[i] != m;
      [m] + rest
  }

  /** The present devices in id order. */
  function DevicesInOrder(inv: Inventory): seq<LocalDevice> {
    var ids := Ascending(inv.present.Keys);
    seq(|ids|, i requires 0 <= i < |ids| => inv.present[ids[i]])
  }

  // ---------------------------------------------------------------- the initial inventory

  const EMPTY := Inventory(map[], map[], map[], [], 1)

  predicate KeepsRequestedId(inv: Inventory, d: LocalDevice) {
    d.info.id != 0 && d.info.id !in inv.present
  }

  function NewOne(inv: Inventory, d: LocalDevice): Inventory {
    var keep := KeepsRequestedId(inv, d);
    var id := if keep then d.info.id else inv.nextId;
    var after := Increment(id);
    Inventory(
      inv.present[id := WithId(d, id)],
      inv.knownIds[KeyOf(d) := id],
      inv.presence[id := |inv.tokens|],
      inv.tokens + [Token(id, KeyOf(d), true)],
      if keep && inv.nextId >= after then inv.nextId else after)
  }

  function New(devices: seq<LocalDevice>): Inventory {
    if devices == [] then EMPTY
    else NewOne(New(devices[..|devices| - 1]), devices[|devices| - 1])
  }

  // ---------------------------------------------------------------- a refresh

  /** Ids given to a scan: the key table and counter after it, the ids new to the inventory, the devices. */
  datatype Assignment = Assignment(
    known: map<DeviceKey, DeviceId>, nextId: u32, added: seq<DeviceId>, hosts: seq<(DeviceId, LocalDevice)>)

  function AssignOne(present: map<DeviceId, LocalDevice>, a: Assignment, d: LocalDevice): Assignment {
    var key := KeyOf(d);
    var isNew := key !in a.known;
    var id := if isNew then a.nextId else a.known[key];
    Assignment(
      if isNew then a.known[key := id] else a.known,
      if isNew then Increment(id) else a.nextId,
      if id in present then a.added else a.added + [id],
      a.hosts + [(id, WithId(d, id))])
  }

  function Assign(inv: Inventory, scan: seq<LocalDevice>): Assignment {
    if scan == [] then Assignment(inv.knownIds, inv.nextId, [], [])
    else AssignOne(inv.present, Assign(inv, scan[..|scan| - 1]), scan[|scan| - 1])
  }

  function HostIds(present: map<DeviceId, LocalDevice>): set<DeviceId> {
    set id | id in present && present[id].backend == Host
  }

  function IdsOf(hosts: seq<(DeviceId, LocalDevice)>): set<DeviceId> {
    set h | h in hosts :: h.0
  }

  /** Takes the devices of `gone` out: their keys are forgotten and their flags lowered. */
  function Retire(inv: Inventory, gone: set<DeviceId>): Inventory {
    var lowered := set id | id in gone && id in inv.presence :: inv.presence[id];
    inv.(
      present := inv.present - gone,
      knownIds := inv.knownIds - set id | id in gone && id in inv.present :: KeyOf(inv.present[id]),
      presence := inv.presence - gone,
      tokens := seq(|inv.tokens|, t requires 0 <= t < |inv.tokens| =>
        if t in lowered then inv.tokens[t].(live := false) else inv.tokens[t]))
  }

  function InstallOne(inv: Inventory, h: (DeviceId, LocalDevice)): Inventory {
    inv.(
      present := inv.present[h.0 := h.1],
      presence := if h.0 in inv.presence then inv.presence else inv.presence[h.0 := |inv.tokens|],
      tokens := if h.0 in inv.presence then inv.tokens else inv.tokens + [Token(h.0, KeyOf(h.1), true)])
  }

  function Install(inv: Inventory, hosts: seq<(DeviceId, LocalDevice)>): Inventory {
    if hosts == [] then inv
    else InstallOne(Install(inv, hosts[..|hosts| - 1]), hosts[|hosts| - 1])
  }

  datatype Delta = Delta(added: seq<DeviceId>, removed: seq<DeviceId>)

  function Gone(inv: Inventory, scan: seq<LocalDevice>): set<DeviceId> {
    HostIds(inv.present) - IdsOf(Assign(inv, scan).hosts)
  }

  function Refresh(inv: Inventory, scan: seq<LocalDevice>): Inventory {
    var a := Assign(inv, scan);
    Install(Retire(inv.(knownIds := a.known, nextId := a.nextId), Gone(inv, scan)), a.hosts)
  }

  function RefreshDelta(inv: Inventory, scan: seq<LocalDevice>): Delta {
    Delta(Assign(inv, scan).added, Ascending(Gone(inv, scan)))
  }

  // ---------------------------------------------------------------- the invariant

  ghost predicate KeysConsistent(inv: Inventory) {
    && (forall id :: id in inv.present ==>
          inv.present[id].info.id == id && KeyOf(inv.present[id]) in inv.knownIds &&
          inv.knownIds[KeyOf(inv.present[id])] == id)
    && (forall k :: k in inv.knownIds ==> inv.knownIds[k] in inv.present && KeyOf(inv.present[inv.knownIds[k]]) == k)
  }

  ghost predicate TokensConsistent(inv: Inventory) {
    && inv.presence.Keys == inv.present.Keys
    && (forall id :: id in inv.presence ==>
          inv.presence[id] < |inv.tokens| && inv.tokens[inv.presence[id]] == Token(id, KeyOf(inv.present[id]), true))
    && (forall t :: 0 <= t < |inv.tokens| ==>
          (inv.tokens[t].live <==> inv.tokens[t].id in inv.present) &&
          (inv.tokens[t].live ==> inv.presence[inv.tokens[t].id] == t))
  }

  ghost predicate IdsBelow(inv: Inventory) {
    forall t :: 0 <= t < |inv.tokens| ==> inv.tokens[t].id < inv.nextId
  }

  /**
   The key table is the exact inverse of the present devices' keys; the flags of present devices, and
   no others, are raised; every id ever issued is below the counter.
   */
  ghost predicate Consistent(inv: Inventory) {
    KeysConsistent(inv) && TokensConsistent(inv) && IdsBelow(inv)
  }

  lemma PresentIdsBelow(inv: Inventory)
    requires Consistent(inv)
    ensures forall id :: id in inv.present ==> id < inv.nextId
  {
    forall id | id in inv.present ensures id < inv.nextId {
      assert inv.tokens[inv.presence[id]].id == id;
    }
  }

  // ---------------------------------------------------------------- lookup

  /** `Iterator::find` by the id a device record carries. */
  function Find(devices: seq<LocalDevice>, id: DeviceId): Option<LocalDevice> {
    if devices == [] then None
    else if devices[0].info.id == id then Some(devices[0])
    else Find(devices[1..], id)
  }

  lemma {:induction false} FindMember(devices: seq<LocalDevice>, id: DeviceId)
    ensures match Find(devices, id)
            case Some(d) => d in devices && d.info.id == id
            case None => forall d :: d in devices ==> d.info.id != id
  {
    if devices != [] {
      FindMember(devices[1..], id);
    }
  }

  lemma SnapshotMembers(inv: Inventory, d: LocalDevice)
    ensures d in DevicesInOrder(inv) <==> exists id :: id in inv.present && inv.present[id] == d
  {
    var ids := Ascending(inv.present.Keys);
    if d in DevicesInOrder(inv) {
      var i :| 0 <= i < |ids| && DevicesInOrder(inv)[i] == d;
      assert ids[i] in inv.present && inv.present[ids[i]] == d;
    }
    if id :| id in inv.present && inv.present[id] == d {
      assert id in ids;
      var i :| 0 <= i < |ids| && ids[i] == id;
      assert DevicesInOrder(inv)[i] == d;
    }
  }

  /** Looking a device up in the snapshot by the id it carries finds the device present under that id. */
  lemma SnapshotFind(inv: Inventory, id: DeviceId)
    requires Consistent(inv)
    ensures Find(DevicesInOrder(inv), id) == if id in inv.present then Some(inv.present[id]) else None
  {
    FindMember(DevicesInOrder(inv), id);
    if id in inv.present {
      SnapshotMembers(inv, inv.present[id]);
    }
    match Find(DevicesInOrder(inv), id)
    case Some(d) => SnapshotMembers(inv, d);
    case None =>
  }

  lemma FoundIfConsistent(inv: Inventory, id: DeviceId)
    ensures Consistent(inv) ==> Find(DevicesInOrder(inv), id) == if id in inv.present then Some(inv.present[id]) else None
  {
    if Consistent(inv) {
      SnapshotFind(inv, id);
    }
  }

  // ---------------------------------------------------------------- ids given to a scan

  function ScanKeys(scan: seq<LocalDevice>): set<DeviceKey> {
    if scan == [] then {} else ScanKeys(scan[..|scan| - 1]) + {KeyOf(scan[|scan| - 1])}
  }

  lemma {:induction false} ScanKeysMembers(scan: seq<LocalDevice>)
    ensures forall k :: k in ScanKeys(scan) <==> exists i :: 0 <= i < |scan| && KeyOf(scan[i]) == k
  {
    if scan != [] {
      var front := scan[..|scan| - 1];
      ScanKeysMembers(front);
      forall k | k in ScanKeys(scan) ensures exists i :: 0 <= i < |scan| && KeyOf(scan[i]) == k {
        if k in ScanKeys(front) {
          var i :| 0 <= i < |front| && KeyOf(front[i]) == k;
          assert KeyOf(scan[i]) == k;
        }
      }
      forall i | 0 <= i < |scan| ensures KeyOf(scan[i]) in ScanKeys(scan) {
        if i < |front| {
          assert KeyOf(front[i]) in ScanKeys(front);
        }
      }
    }
  }

  /** The keys a scan shows for the first time. */
  function NewKeys(inv: Inventory, scan: seq<LocalDevice>): set<DeviceKey> {
    ScanKeys(scan) - inv.knownIds.Keys
  }

  function Capped(n: nat): u32 {
    if n <= MAX_U32 then n else MAX_U32
  }

  lemma NewKeysSame(inv: Inventory, scan: seq<LocalDevice>)
    requires scan != []
    requires var k := KeyOf(scan[|scan| - 1]); k in inv.knownIds || k in NewKeys(inv, scan[..|scan| - 1])
    ensures NewKeys(inv, scan) == NewKeys(inv, scan[..|scan| - 1])
  {
  }

  lemma NewKeysGrow(inv: Inventory, scan: seq<LocalDevice>)
    requires scan != []
    requires var k := KeyOf(scan[|scan| - 1]); k !in inv.knownIds && k !in NewKeys(inv, scan[..|scan| - 1])
    ensures forall k :: k in NewKeys(inv, scan) <==> k in NewKeys(inv, scan[..|scan| - 1]) || k == KeyOf(scan[|scan| - 1])
    ensures |NewKeys(inv, scan)| == |NewKeys(inv, scan[..|scan| - 1])| + 1
  {
    var before, k := NewKeys(inv, scan[..|scan| - 1]), KeyOf(scan[|scan| - 1]);
    OneMoreKey(before, NewKeys(inv, scan), k);
  }

  lemma OneMoreKey(before: set<DeviceKey>, after: set<DeviceKey>, k: DeviceKey)
    requires k !in before && forall l :: l in after <==> l in before || l == k
    ensures |after| == |before| + 1
  {
    assert after == before + {k};
  }

  /** The key table after assigning ids to a scan, whatever the state of the counter. */
  ghost predicate TableAssigned(inv: Inventory, added: set<DeviceKey>, a: Assignment) {
    && (forall k :: k in a.known <==> k in inv.knownIds || k in added)
    && (forall k :: k in inv.knownIds ==> a.known[k] == inv.knownIds[k])
    && a.nextId == Capped(inv.nextId + |added|)
    && (forall k :: k in added ==> inv.nextId <= a.known[k] <= a.nextId)
  }

  lemma TableGrows(inv: Inventory, added: set<DeviceKey>, more: set<DeviceKey>, a: Assignment, d: LocalDevice)
    requires TableAssigned(inv, added, a) && KeyOf(d) !in a.known
    requires forall k :: k in more <==> k in added || k == KeyOf(d)
    requires |more| == |added| + 1
    ensures TableAssigned(inv, more, AssignOne(inv.present, a, d))
  {
  }

  lemma TableKept(inv: Inventory, added: set<DeviceKey>, a: Assignment, d: LocalDevice)
    requires TableAssigned(inv, added, a) && KeyOf(d) in a.known
    ensures TableAssigned(inv, added, AssignOne(inv.present, a, d))
  {
  }

  lemma TableFront(inv: Inventory, scan: seq<LocalDevice>)
    requires scan != []
    requires TableAssigned(inv, NewKeys(inv, scan[..|scan| - 1]), Assign(inv, scan[..|scan| - 1]))
    ensures TableAssigned(inv, NewKeys(inv, scan), Assign(inv, scan))
  {
    var front, d := scan[..|scan| - 1], scan[|scan| - 1];
    if KeyOf(d) in Assign(inv, front).known {
      NewKeysSame(inv, scan);
      TableKept(inv, NewKeys(inv, front), Assign(inv, front), d);
    } else {
      NewKeysGrow(inv, scan);
      TableGrows(inv, NewKeys(inv, front), NewKeys(inv, scan), Assign(inv, front), d);
    }
  }

  lemma {:induction false} TableIsAssigned(inv: Inventory, scan: seq<LocalDevice>)
    ensures TableAssigned(inv, NewKeys(inv, scan), Assign(inv, scan))
  {
    if scan == [] {
      NoNewKeys(inv);
    } else {
      TableIsAssigned(inv, scan[..|scan| - 1]);
      TableFront(inv, scan);
    }
  }

  /** Each scanned device is listed under the id of its key. */
  ghost predicate HostsAssigned(scan: seq<LocalDevice>, a: Assignment) {
    && |a.hosts| == |scan|
    && (forall i :: 0 <= i < |scan| ==>
          KeyOf(scan[i]) in a.known && a.hosts[i] == (a.known[KeyOf(scan[i])], WithId(scan[i], a.known[KeyOf(scan[i])])))
  }

  lemma HostsStep(present: map<DeviceId, LocalDevice>, front: seq<LocalDevice>, a: Assignment, d: LocalDevice)
    requires HostsAssigned(front, a)
    ensures HostsAssigned(front + [d], AssignOne(present, a, d))
  {
  }

  lemma {:induction false} HostsAreAssigned(inv: Inventory, scan: seq<LocalDevice>)
    ensures HostsAssigned(scan, Assign(inv, scan))
  {
    if scan != [] {
      var front, d := scan[..|scan| - 1], scan[|scan| - 1];
      HostsAreAssigned(inv, front);
      HostsStep(inv.present, front, Assign(inv, front), d);
      assert scan == front + [d];
    }
  }

  /** Whether the counter can serve every new key of a scan without saturating. */
  predicate Room(inv: Inventory, scan: seq<LocalDevice>) {
    inv.nextId + |NewKeys(inv, scan)| <= MAX_U32
  }

  /** Ids of new keys are distinct and below the counter. */
  ghost predicate DistinctIds(added: set<DeviceKey>, a: Assignment) {
    && (forall k :: k in added ==> k in a.known)
    && (forall k :: k in added ==> a.known[k] < a.nextId)
    && (forall k, l :: k in added && l in added && k != l ==> a.known[k] != a.known[l])
  }

  lemma DistinctIdsStep(inv: Inventory, before: set<DeviceKey>, more: set<DeviceKey>, a: Assignment, d: LocalDevice)
    requires DistinctIds(before, a) && KeyOf(d) !in a.known && a.nextId < MAX_U32
    requires forall k :: k in more <==> k in before || k == KeyOf(d)
    ensures DistinctIds(more, AssignOne(inv.present, a, d))
  {
  }

  /** With room, new keys get distinct ids below the counter. */
  lemma {:induction false} FreshIds(inv: Inventory, scan: seq<LocalDevice>)
    requires Room(inv, scan)
    ensures DistinctIds(NewKeys(inv, scan), Assign(inv, scan))
  {
    if scan == [] {
      assert NewKeys(inv, scan) == {};
    } else {
      var front, d := scan[..|scan| - 1], scan[|scan| - 1];
      TableIsAssigned(inv, front);
      if KeyOf(d) in inv.knownIds || KeyOf(d) in NewKeys(inv, front) {
        NewKeysSame(inv, scan);
        FreshIds(inv, front);
      } else {
        NewKeysGrow(inv, scan);
        FreshIds(inv, front);
        DistinctIdsStep(inv, NewKeys(inv, front), NewKeys(inv, scan), Assign(inv, front), d);
      }
    }
  }

  predicate Issues(hosts: seq<(DeviceId, LocalDevice)>, id: DeviceId) {
    exists i :: 0 <= i < |hosts| && hosts[i].0 == id
  }

  lemma IssuesLast(present: map<DeviceId, LocalDevice>, a: Assignment, d: LocalDevice, id: DeviceId)
    requires Issues(a.hosts, id) || (KeyOf(d) !in a.known && a.nextId == id)
    ensures Issues(AssignOne(present, a, d).hosts, id)
  {
    var hosts := AssignOne(present, a, d).hosts;
    if Issues(a.hosts, id) {
      var i :| 0 <= i < |a.hosts| && a.hosts[i].0 == id;
      assert hosts[i].0 == id;
    } else {
      assert hosts[|a.hosts|].0 == id;
    }
  }

  /** Without room, some device of the scan is given the largest id, and the counter stays there. */
  lemma {:induction false} SaturatedId(inv: Inventory, scan: seq<LocalDevice>)
    requires !Room(inv, scan)
    ensures Assign(inv, scan).nextId == MAX_U32 && Issues(Assign(inv, scan).hosts, MAX_U32)
  {
    TableIsAssigned(inv, scan);
    if scan == [] {
      NoNewKeys(inv);
      assert false;
    }
    var front, d := scan[..|scan| - 1], scan[|scan| - 1];
    TableIsAssigned(inv, front);
    if KeyOf(d) in inv.knownIds || KeyOf(d) in NewKeys(inv, front) {
      NewKeysSame(inv, scan);
      SaturatedId(inv, front);
    } else {
      NewKeysGrow(inv, scan);
      if !Room(inv, front) {
        SaturatedId(inv, front);
      }
    }
    IssuesLast(inv.present, Assign(inv, front), d, MAX_U32);
  }

  lemma NoNewKeys(inv: Inventory)
    ensures NewKeys(inv, []) == {}
  {
  }
}
