/** The inventory as the server holds it: maps updated in loops, and flags shared with URB tasks. */
module InventoryClass {
  import opened Results
  import opened Bytes
  import opened Messages
  import opened Inventory
  import opened InventoryInvariant
  import opened InventoryRefresh

  /** An atomic flag, shared by the inventory and the tasks that hold a reference to it. */
  class Flag {
    var raised: bool

    constructor ()
      ensures raised
    {
      raised := true;
    }
  }

  class DeviceInventory {
    var present: map<DeviceId, LocalDevice>
    var knownIds: map<DeviceKey, DeviceId>
    var presence: map<DeviceId, Flag>
    var nextId: u32

    /** Every flag ever created, with the record the model keeps of it, and the position of the flag of each id. */
    ghost var flags: seq<Flag>
    ghost var tokens: seq<Token>
    ghost var slots: map<DeviceId, nat>

    ghost predicate Valid()
      reads this, flags
    {
      && |tokens| == |flags| && slots.Keys == presence.Keys
      && (forall i, j :: 0 <= i < j < |flags| ==> flags[i] != flags[j])
      && (forall i :: 0 <= i < |flags| ==> tokens[i].live == flags[i].raised)
      && (forall id :: id in slots ==> slots[id] < |flags| && flags[slots[id]] == presence[id])
    }

    /** The value of module `Inventory` that this object holds. */
    ghost function Model(): Inventory
      reads this
    {
      Inventory(present, knownIds, slots, tokens, nextId)
    }

    constructor Empty()
      ensures Valid() && Model() == EMPTY && flags == []
    {
      present, knownIds, presence, nextId := map[], map[], map[], 1;
      flags, tokens, slots := [], [], map[];
    }

    /** The loop of `DeviceInventory::new`. */
    method AddAll(devices: seq<LocalDevice>)
      requires Valid() && Model() == EMPTY
      modifies this
      ensures Valid() && Model() == New(devices)
      ensures old(flags) <= flags && forall i :: |old(flags)| <= i < |flags| ==> fresh(flags[i])
    {
      for i := 0 to |devices|
        invariant Valid() && Model() == New(devices[..i])
        invariant old(flags) <= flags && forall i :: |old(flags)| <= i < |flags| ==> fresh(flags[i])
      {
        assert devices[..i + 1][..i] == devices[..i];
        AddOne(devices[i]);
        assert devices[..i + 1][i] == devices[i];
      }
      assert devices[..|devices|] == devices;
    }

    /** A new raised flag for `id`, whatever flag it had before. */
    method RaiseFlag(id: DeviceId, ghost key: DeviceKey)
      requires Valid()
      modifies this`presence, this`flags, this`tokens, this`slots
      ensures Valid() && id in presence && flags == old(flags) + [presence[id]] && fresh(presence[id])
      ensures tokens == old(tokens) + [Token(id, key, true)] && slots == old(slots)[id := |old(flags)|]
    {
      var flag := new Flag();
      presence := presence[id := flag];
      slots := slots[id := |flags|];
      flags, tokens := flags + [flag], tokens + [Token(id, key, true)];
    }

    /** The id a device asks for if that is free, else the next one. */
    method ChooseId(requested: DeviceId) returns (id: DeviceId)
      modifies this`nextId
      ensures var keep := requested != 0 && requested !in present;
              && id == (if keep then requested else old(nextId))
              && nextId == if keep && old(nextId) >= Increment(id) then old(nextId) else Increment(id)
    {
      if requested != 0 && requested !in present {
        id := requested;
        nextId := if nextId >= Increment(id) then nextId else Increment(id);
      } else {
        id := nextId;
        nextId := Increment(nextId);
      }
    }

    method AddOne(d: LocalDevice)
      requires Valid()
      modifies this
      ensures Valid() && Model() == NewOne(old(Model()), d)
      ensures |flags| == |old(flags)| + 1 && old(flags) <= flags && fresh(flags[|old(flags)|])
    {
      var id := ChooseId(d.info.id);
      knownIds := knownIds[KeyOf(d) := id];
      RaiseFlag(id, KeyOf(d));
      present := present[id := WithId(d, id)];
    }

    method PresenceToken(id: DeviceId) returns (flag: Option<Flag>)
      requires Valid()
      ensures flag.Some? <==> id in Model().presence
      ensures flag.Some? ==> flag.value == flags[Model().presence[id]]
    {
      if id in presence {
        return Some(presence[id]);
      }
      return None;
    }
  
    /** The devices in id order. */
    method Snapshot() returns (devices: seq<LocalDevice>)
      ensures devices == DevicesInOrder(Model())
    {
      devices := [];
      var ids := Ascending(present.Keys);
      for i := 0 to |ids|
        invariant |devices| == i && forall j :: 0 <= j < i ==> devices[j] == present[ids[j]]
      {
        devices := devices + [present[ids[i]]];
      }
    }

    /** In a consistent inventory, the lookup by id finds what a search of the snapshot by carried id finds. */
    method Get(id: DeviceId) returns (device: Option<LocalDevice>)
      ensures device.Some? <==> id in present
      ensures device.Some? ==> device.value == present[id]
      ensures Consistent(Model()) ==> device == Find(DevicesInOrder(Model()), id)
    {
      FoundIfConsistent(Model(), id);
      if id in present {
        return Some(present[id]);
      }
      return None;
    }

    /** The first loop of `refresh_hosts`: every scanned device gets the id of its key, a new one if need be. */
    method AssignIds(scan: seq<LocalDevice>) returns (added: seq<DeviceId>, hosts: Hosts)
      modifies this`knownIds, this`nextId
      ensures Assignment(knownIds, nextId, added, hosts) == Assign(old(Model()), scan)
    {
      added, hosts := [], [];
      ghost var before := Model();
      for i := 0 to |scan|
        invariant present == before.present
        invariant Assignment(knownIds, nextId, added, hosts) == Assign(before, scan[..i])
      {
        ghost var a := Assignment(knownIds, nextId, added, hosts);
        var device := scan[i];
        var key := KeyOf(device);
        var id;
        if key in knownIds {
          id := knownIds[key];
        } else {
          id := nextId;
          nextId := Increment(nextId);
          knownIds := knownIds[key := id];
        }
        device := WithId(device, id);
        if id !in present {
          added := added + [id];
        }
        hosts := hosts + [(id, device)];
        assert Assignment(knownIds, nextId, added, hosts) == AssignOne(before.present, a, scan[i]);
        assert scan[..i + 1][..i] == scan[..i];
      }
      assert scan[..|scan|] == scan;
    }

    /** The host devices in id order that are not among the scanned ones. */
    method Missing(hosts: Hosts) returns (removed: seq<DeviceId>)
      ensures removed == Ascending(HostIds(present) - IdsOf(hosts))
    {
      var oldIds := Ascending(HostIds(present));
      var next := IdsOf(hosts);
      removed := [];
      for i := 0 to |oldIds|
        invariant removed == Except(oldIds[..i], next)
      {
        assert oldIds[..i + 1][..i] == oldIds[..i];
        if oldIds[i] !in next {
          removed := removed + [oldIds[i]];
        }
      }
      assert oldIds[..|oldIds|] == oldIds;
      ExceptMembers(oldIds, next);
      AscendingUnique(removed, Ascending(HostIds(present) - next));
    }

    /** Takes one device out: its key is forgotten and its flag lowered. */
    method RetireOne(id: DeviceId)
      requires Valid() && id in present && id in presence
      modifies this`present, this`knownIds, this`presence, this`tokens, this`slots, flags
      ensures Valid() && Model() == RetiredOne(old(Model()), id) && flags == old(flags)
      ensures present == old(present) - {id} && presence == old(presence) - {id}
    {
      knownIds := knownIds - {KeyOf(present[id])};
      present := present - {id};
      var flag := presence[id];
      flag.raised := false;
      tokens := tokens[slots[id] := tokens[slots[id]].(live := false)];
      presence, slots := presence - {id}, slots - {id};
    }

    /** The removal loop. */
    method RetireEach(removed: seq<DeviceId>)
      requires Valid() && IsAscending(removed)
      requires forall id :: id in removed ==> id in present && id in presence
      modifies this`present, this`knownIds, this`presence, this`tokens, this`slots, flags
      ensures Valid() && Model() == RetireList(old(Model()), removed)
    {
      ghost var before := Model();
      for i := 0 to |removed|
        invariant Valid() && Model() == RetireList(before, removed[..i])
        invariant flags == old(flags)
        invariant forall j :: i <= j < |removed| ==> removed[j] in present && removed[j] in presence
      {
        RetireListStep(before, removed, i);
        RetireOne(removed[i]);
      }
      assert removed[..|removed|] == removed;
    }

    method RetireAll(removed: seq<DeviceId>)
      requires Valid() && present.Keys == presence.Keys && IsAscending(removed)
      requires forall id :: id in removed ==> id in present
      modifies this`present, this`knownIds, this`presence, this`tokens, this`slots, flags
      ensures Valid() && Model() == Retire(old(Model()), Elements(removed))
    {
      RetireListIsRetire(Model(), removed);
      RetireEach(removed);
    }

    /** Enters a device under its id, with a new flag unless the id has one. */
    method InstallHost(h: (DeviceId, LocalDevice))
      requires Valid()
      modifies this`present, this`presence, this`flags, this`tokens, this`slots
      ensures Valid() && Model() == InstallOne(old(Model()), h) && old(flags) <= flags
    {
      if h.0 !in presence {
        RaiseFlag(h.0, KeyOf(h.1));
      }
      present := present[h.0 := h.1];
    }

    method InstallAll(hosts: Hosts)
      requires Valid()
      modifies this`present, this`presence, this`flags, this`tokens, this`slots
      ensures Valid() && Model() == Install(old(Model()), hosts) && old(flags) <= flags
    {
      ghost var before := Model();
      for i := 0 to |hosts|
        invariant Valid() && Model() == Install(before, hosts[..i]) && old(flags) <= flags
      {
        InstallHost(hosts[i]);
        assert hosts[..i + 1][..i] == hosts[..i] && hosts[..i + 1][i] == hosts[i];
      }
      assert hosts[..|hosts|] == hosts;
    }

    /** `refresh_hosts`. */
    method RefreshHosts(scan: seq<LocalDevice>) returns (delta: Delta)
      requires Valid() && present.Keys == presence.Keys
      modifies this, flags
      ensures Valid() && Model() == Refresh(old(Model()), scan) && delta == RefreshDelta(old(Model()), scan)
      ensures old(flags) <= flags
    {
      ghost var before := Model();
      var added, hosts := AssignIds(scan);
      var removed := Missing(hosts);
      assert Elements(removed) == Gone(before, scan);
      RetireAll(removed);
      InstallAll(hosts);
      delta := Delta(added, removed);
    }
  }

  function Except(ids: seq<DeviceId>, next: set<DeviceId>): seq<DeviceId> {
    if ids == [] then []
    else
      var front, last := Except(ids[..|ids| - 1], next), ids[|ids| - 1];
      if last in next then front else front + [last]
  }

  lemma {:induction false} ExceptMembers(ids: seq<DeviceId>, next: set<DeviceId>)
    requires IsAscending(ids)
    ensures forall x :: x in Except(ids, next) <==> x in ids && x !in next
    ensures IsAscending(Except(ids, next))
  {
    if ids != [] {
      var n := |ids| - 1;
      var front := Except(ids[..n], next);
      ExceptMembers(ids[..n], next);
      assert ids == ids[..n] + [ids[n]];
      forall i | 0 <= i < |front| ensures front[i] < ids[n] {
        assert front[i] in front;
      }
    }
  }

  ghost function Elements(s: seq<DeviceId>): set<DeviceId> {
    set id | id in s
  }

  lemma ElementsStep(s: seq<DeviceId>, i: nat)
    requires IsAscending(s) && i < |s|
    ensures s[i] !in Elements(s[..i]) && Elements(s[..i + 1]) == Elements(s[..i]) + {s[i]}
  {
    assert s[..i + 1] == s[..i] + [s[i]];
  }

  ghost function RetiredOne(inv: Inventory, id: DeviceId): Inventory {
    var slot := if id in inv.presence then inv.presence[id] else |inv.tokens|;
    inv.(
      present := inv.present - {id},
      knownIds := if id in inv.present then inv.knownIds - {KeyOf(inv.present[id])} else inv.knownIds,
      presence := inv.presence - {id},
      tokens := if slot < |inv.tokens| then inv.tokens[slot := inv.tokens[slot].(live := false)] else inv.tokens)
  }

  ghost function RetireList(inv: Inventory, removed: seq<DeviceId>): Inventory {
    if removed == [] then inv
    else RetiredOne(RetireList(inv, removed[..|removed| - 1]), removed[|removed| - 1])
  }

  lemma RetireListStep(inv: Inventory, removed: seq<DeviceId>, i: nat)
    requires i < |removed|
    ensures RetireList(inv, removed[..i + 1]) == RetiredOne(RetireList(inv, removed[..i]), removed[i])
  {
    assert removed[..i + 1][..i] == removed[..i];
  }

  /** Retiring one device at a time amounts to retiring the set. */
  lemma RetireStep(inv: Inventory, gone: set<DeviceId>, id: DeviceId)
    requires id !in gone && id in inv.present && id in inv.presence
    ensures RetiredOne(Retire(inv, gone), id) == Retire(inv, gone + {id})
  {
    var r, all := RetiredOne(Retire(inv, gone), id), Retire(inv, gone + {id});
    assert r.present == all.present && r.presence == all.presence;
    assert r.knownIds == all.knownIds;
    assert r.tokens == all.tokens;
  }

  lemma {:induction false} RetireListIsRetire(inv: Inventory, removed: seq<DeviceId>)
    requires IsAscending(removed)
    requires forall id :: id in removed ==> id in inv.present && id in inv.presence
    ensures RetireList(inv, removed) == Retire(inv, Elements(removed))
  {
    if removed == [] {
      RetireNothing(inv);
    } else {
      var n := |removed| - 1;
      RetireListIsRetire(inv, removed[..n]);
      ElementsStep(removed, n);
      RetireStep(inv, Elements(removed[..n]), removed[n]);
      assert removed[..n + 1] == removed;
    }
  }
}
