/**
 The state all sessions share, as objects: the operations of `ServerState` in
 crates/farbus-core/src/session.rs, each one step, or two, of the system in module `Server`.
 */
module ServerStates {
  import opened Results
  import opened Bytes
  import opened Messages
  import opened Lease
  import opened Identity
  import opened Inventory
  import opened InventoryInvariant
  import opened InventoryRefresh
  import opened InventoryClass
  import Server

  lemma {:induction false} NewKeepsKeys(devices: seq<LocalDevice>)
    ensures New(devices).present.Keys == New(devices).presence.Keys
  {
    if devices != [] {
      NewKeepsKeys(devices[..|devices| - 1]);
    }
  }

  lemma {:induction false} InstallKeepsKeys(inv: Inventory, hosts: seq<(DeviceId, LocalDevice)>)
    requires inv.present.Keys == inv.presence.Keys
    ensures Install(inv, hosts).present.Keys == Install(inv, hosts).presence.Keys
  {
    if hosts != [] {
      InstallKeepsKeys(inv, hosts[..|hosts| - 1]);
    }
  }

  lemma RefreshKeepsKeys(inv: Inventory, scan: seq<LocalDevice>)
    requires inv.present.Keys == inv.presence.Keys
    ensures Refresh(inv, scan).present.Keys == Refresh(inv, scan).presence.Keys
  {
    var a := Assign(inv, scan);
    InstallKeepsKeys(Retire(inv.(knownIds := a.known, nextId := a.nextId), Gone(inv, scan)), a.hosts);
  }

  method ExportedOf(devices: seq<LocalDevice>) returns (list: seq<DeviceInfo>)
    ensures list == Server.Exported(devices)
  {
    list := [];
    for i := 0 to |devices|
      invariant list == Server.Exported(devices[..i])
    {
      assert devices[..i + 1][..i] == devices[..i];
      if devices[i].info.exported {
        list := list + [devices[i].info];
      }
    }
    assert devices[..|devices|] == devices;
  }

  /** A refresh and the release that follows it under the same lock. */
  lemma RefreshSteps(sh: Server.Shared, scan: seq<LocalDevice>)
    requires sh.writer.None?
    ensures Server.Environment(Server.Environment(sh, map[], Server.Refreshed(scan)), map[], Server.Unlocked) ==
            var removed := RefreshDelta(sh.inv, scan).removed;
            sh.(inv := Refresh(sh.inv, scan),
                leases := if removed == [] then sh.leases else ReleaseDeviceLeases(sh.leases, removed))
  {
  }

  class ServerState {
    const pin: PairingPin
    const leases: LeaseBook
    const devices: DeviceInventory
    var tokens: map<Bytes32, Server.Grant>
    /** The PINs announced to the operator. */
    var announced: seq<Hash>

    ghost predicate Valid()
      reads this, devices, devices.flags
    {
      devices.Valid() && devices.present.Keys == devices.presence.Keys
    }

    /** The value of module `Server` that this object holds while no lock is taken. */
    ghost function View(clock: nat): Server.Shared
      reads this, pin, leases, devices
    {
      Server.Shared(clock, pin.state, tokens, leases.owners, devices.Model(), None)
    }

    constructor (found: seq<LocalDevice>, clock: nat, drawn: Hash)
      ensures Valid() && fresh(pin) && fresh(leases) && fresh(devices) && fresh(devices.flags)
      ensures forall config :: View(clock) == Server.Boot(config, found, clock, drawn).shared
    {
      pin := new PairingPin(clock, drawn);
      leases := new LeaseBook();
      var inventory := new DeviceInventory.Empty();
      inventory.AddAll(found);
      devices := inventory;
      tokens, announced := map[], [];
      NewKeepsKeys(found);
    }

    /** `renew_expired_pin`: announces the PIN it issues, if any. */
    method RenewExpiredPin(clock: nat, drawn: Hash) returns (renewed: Option<Hash>)
      requires Valid()
      modifies this`announced, pin
      ensures Valid()
      ensures View(clock) == Server.Environment(old(View(clock)), map[], Server.RenewPin(drawn))
      ensures renewed.Some? <==> Reissuable(old(pin.state), clock)
      ensures announced == old(announced) + if renewed.Some? then [pin.state.hash] else []
      ensures renewed.Some? ==> renewed.value == pin.state.hash
    {
      var reissued := pin.ReissueIfExpired(clock, drawn);
      if !reissued {
        return None;
      }
      announced := announced + [pin.state.hash];
      return Some(pin.state.hash);
    }

    /** `validate_pairing_pin`: a PIN is never accepted by the call that finds it expired, and is replaced by the call that accepts it. */
    method ValidatePairingPin(candidate: Hash, clock: nat, drawn: Hash) returns (success: bool)
      requires Valid()
      modifies this`announced, pin
      ensures Valid() && (success, pin.state) == Validate(old(pin.state), clock, candidate, drawn)
      ensures success <==> !Reissuable(old(pin.state), clock) && Compares(old(pin.state), clock) && old(pin.state).hash == candidate
      ensures announced == old(announced) + if success || Reissuable(old(pin.state), clock) then [drawn] else []
    {
      var reissued := pin.ReissueIfExpired(clock, drawn);
      if reissued {
        announced := announced + [pin.state.hash];
        return false;
      }
      success := pin.IsValid(clock, candidate);
      if success {
        pin.state := Issue(clock, drawn);
        announced := announced + [pin.state.hash];
      }
    }

    /** `device_list`: the exported devices in id order. */
    method DeviceList() returns (list: seq<DeviceInfo>)
      requires Valid()
      ensures list == Server.Exported(DevicesInOrder(devices.Model()))
    {
      var all := devices.Snapshot();
      list := ExportedOf(all);
    }

    /** Drops the leases of removed devices, while the devices lock is still held. */
    method ReleaseRemoved(removed: seq<DeviceId>)
      requires Valid()
      modifies leases
      ensures Valid() && devices.Model() == old(devices.Model())
      ensures leases.owners == if removed == [] then old(leases.owners) else ReleaseDeviceLeases(old(leases.owners), removed)
    {
      if removed != [] {
        leases.ReleaseDevices(removed);
      }
    }

    /** `refresh_host_devices`: what the two steps of a refresh do with nothing in between. */
    method RefreshHostDevices(scan: seq<LocalDevice>, ghost clock: nat) returns (delta: Delta)
      requires Valid()
      modifies leases, devices, devices.flags
      ensures Valid() && delta == RefreshDelta(old(devices.Model()), scan)
      ensures View(clock) ==
              Server.Environment(Server.Environment(old(View(clock)), map[], Server.Refreshed(scan)), map[], Server.Unlocked)
    {
      RefreshKeepsKeys(devices.Model(), scan);
      RefreshSteps(View(clock), scan);
      delta := devices.RefreshHosts(scan);
      assert Valid();
      ReleaseRemoved(delta.removed);
    }
  }
}
