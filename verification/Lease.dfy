/** Exclusive device leases: crates/farbus-core/src/lease.rs. */
module Lease {
  import opened Results
  import opened Bytes
  import opened Messages

  /** A peer is known by the 32-byte fingerprint of its certificate. */
  type Fingerprint = Bytes32

  type Leases = map<DeviceId, Fingerprint>

  datatype LeaseError =
    | AlreadyLeased(owner: Fingerprint)
    | NotOwner(actual: Fingerprint)
    | NotLeased

  function OwnerOf(leases: Leases, device: DeviceId): Option<Fingerprint> {
    if device in leases then Some(leases[device]) else None
  }

  function AcquireLease(leases: Leases, device: DeviceId, peer: Fingerprint): (Outcome<LeaseError>, Leases) {
    match OwnerOf(leases, device)
    case Some(owner) => (if owner == peer then Pass else Fail(AlreadyLeased(owner)), leases)
    case None => (Pass, leases[device := peer])
  }

  function ReleaseLease(leases: Leases, device: DeviceId, peer: Fingerprint): (Outcome<LeaseError>, Leases) {
    match OwnerOf(leases, device)
    case Some(owner) => if owner == peer then (Pass, leases - {device}) else (Fail(NotOwner(owner)), leases)
    case None => (Fail(NotLeased), leases)
  }

  function ReleaseAllLeases(leases: Leases, peer: Fingerprint): Leases {
    map d | d in leases && leases[d] != peer :: leases[d]
  }

  function ReleaseDeviceLeases(leases: Leases, devices: seq<DeviceId>): Leases {
    map d | d in leases && d !in devices :: leases[d]
  }

  /** A grant is exclusive: until its holder gives the device back, every other peer is refused and told who holds it. */
  lemma GrantExcludesOthers(leases: Leases, device: DeviceId, holder: Fingerprint, other: Fingerprint)
    requires holder != other
    ensures var (r, held) := AcquireLease(leases, device, holder);
            r.Pass? ==>
              && AcquireLease(held, device, other) == (Fail(AlreadyLeased(holder)), held)
              && ReleaseLease(held, device, other) == (Fail(NotOwner(holder)), held)
              && AcquireLease(held, device, holder) == (Pass, held)
              && AcquireLease(ReleaseLease(held, device, holder).1, device, other).0.Pass?
  {
  }

  /** Giving back a device that was free before it was granted restores every lease; giving it back again fails. */
  lemma ReleaseUndoesGrant(leases: Leases, device: DeviceId, peer: Fingerprint)
    requires device !in leases
    ensures var held := AcquireLease(leases, device, peer).1;
            && ReleaseLease(held, device, peer) == (Pass, leases)
            && ReleaseLease(leases, device, peer) == (Fail(NotLeased), leases)
  {
    assert leases[device := peer] - {device} == leases;
  }

  class LeaseBook {
    var owners: Leases

    constructor ()
      ensures owners == map[]
    {
      owners := map[];
    }

    method Acquire(device: DeviceId, peer: Fingerprint) returns (r: Outcome<LeaseError>)
      modifies this
      ensures r.Pass? <==> device !in old(owners) || old(owners)[device] == peer
      ensures r.Pass? ==> device in owners && owners[device] == peer
      ensures r.Fail? ==> r.error == AlreadyLeased(old(owners)[device]) && owners == old(owners)
      ensures owners.Keys <= old(owners).Keys + {device} && forall d :: d in old(owners) ==> d in owners && owners[d] == old(owners)[d]
      ensures (r, owners) == AcquireLease(old(owners), device, peer)
    {
      if device in owners {
        if owners[device] == peer {
          return Pass;
        }
        return Fail(AlreadyLeased(owners[device]));
      }
      owners := owners[device := peer];
      return Pass;
    }

    method Release(device: DeviceId, peer: Fingerprint) returns (r: Outcome<LeaseError>)
      modifies this
      ensures r.Pass? <==> device in old(owners) && old(owners)[device] == peer
      ensures r.Pass? ==> device !in owners
      ensures r.Fail? ==> owners == old(owners) && (r.error.NotLeased? <==> device !in owners)
      ensures r.Fail? && device in owners ==> r.error == NotOwner(owners[device])
      ensures forall d :: d != device ==> (d in owners <==> d in old(owners)) && (d in owners ==> owners[d] == old(owners)[d])
      ensures (r, owners) == ReleaseLease(old(owners), device, peer)
    {
      if device in owners {
        if owners[device] == peer {
          owners := owners - {device};
          return Pass;
        }
        return Fail(NotOwner(owners[device]));
      }
      return Fail(NotLeased);
    }

    /** `retain` visits the entries in no particular order and drops those of `peer`. */
    method ReleaseAll(peer: Fingerprint)
      modifies this
      ensures forall d :: d in owners <==> d in old(owners) && old(owners)[d] != peer
      ensures forall d :: d in owners ==> owners[d] == old(owners)[d]
      ensures owners == ReleaseAllLeases(old(owners), peer)
    {
      var todo := owners.Keys;
      while todo != {}
        invariant todo <= old(owners).Keys
        invariant owners == map d | d in old(owners) && (d in todo || old(owners)[d] != peer) :: old(owners)[d]
        decreases todo
      {
        var d :| d in todo;
        todo := todo - {d};
        if owners[d] == peer {
          owners := owners - {d};
        }
      }
    }

    method ReleaseDevices(devices: seq<DeviceId>)
      modifies this
      ensures forall d :: d in owners <==> d in old(owners) && d !in devices
      ensures forall d :: d in owners ==> owners[d] == old(owners)[d]
      ensures owners == ReleaseDeviceLeases(old(owners), devices)
    {
      var todo := owners.Keys;
      while todo != {}
        invariant todo <= old(owners).Keys
        invariant owners == map d | d in old(owners) && (d in todo || d !in devices) :: old(owners)[d]
        decreases todo
      {
        var d :| d in todo;
        todo := todo - {d};
        if d in devices {
          owners := owners - {d};
        }
      }
    }
  }
}
