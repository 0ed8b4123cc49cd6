/**
 Replies tell the truth: what a reply says held in the step that settled it, and a reply that needs
 a valid token was preceded by a step that found the token valid.
 */
module Truthful {
  import opened Results
  import opened Bytes
  import opened Messages
  import opened Lease
  import Identity
  import opened Inventory
  import opened Server
  import opened ServerSession
  import opened ServerRuns
  import opened ServerTrace

  // ---------------------------------------------------------------- what replies mean

  /** The token of a request is known, belongs to the peer the session announced, and has not expired. */
  predicate TokenValid(sh: Shared, s: Session, token: Bytes32) {
    token in sh.tokens && s.peer == Some(sh.tokens[token].owner) && sh.clock <= sh.tokens[token].expires
  }

  predicate PinGood(pin: Identity.Pin, clock: nat, hash: Bytes32) {
    pin.hash == hash && clock <= pin.expiresAt && pin.attempts < 5 && !pin.consumed
  }

  ghost predicate Shows(inv: Inventory, info: DeviceInfo) {
    exists id :: id in inv.present && inv.present[id].info == info && info.exported
  }

  predicate Offered(inv: Inventory, id: DeviceId) {
    id in inv.present && inv.present[id].info.exported
  }

  /** Replies that depend on nothing but the request and the peer announced before it. */
  predicate Immediate(config: Config, peer: Option<Fingerprint>, request: Message, reply: Message) {
    match request
    case Hello(_, _, _, _) => reply == Hello(VERSION, VERSION, config.fingerprint, config.hostname)
    case PairRequest(client, _, _) => reply == PairResponse(false, config.fingerprint, seq(32, i => 0)) && peer != Some(client)
    case DeviceList(_) => reply.Error? && reply.code == Unauthorized
    case Detach(_) => reply.Error? && reply.code == Unauthorized
    case DeviceListRequest(_) => false
    case AttachRequest(_, _) => false
    case DetachRequest(_, _) => false
    case SubmitUrb(_) => false
    case UnlinkUrb(_, _) => false
    case _ => reply.Error? && reply.code == Unsupported
  }

  /** The reply to a pairing request: a token of the client's, or none because the PIN is not good. */
  predicate TruePairing(config: Config, sh: Shared, request: Message, reply: Message) {
    && request.PairRequest? && reply.PairResponse? && reply.serverFingerprint == config.fingerprint
    && if reply.paired then reply.authToken in sh.tokens && sh.tokens[reply.authToken].owner == request.clientFingerprint
       else reply.authToken == seq(32, i => 0) && !PinGood(sh.pin, sh.clock, request.pinHash)
  }

  /** The reply to an attach: the device is offered under that bus id, and success means that the principal now leases it. */
  predicate TrueAttach(sh: Shared, after: Leases, s: Session, request: Message, reply: Message) {
    && request.AttachRequest? && reply.AttachResponse? && reply.attachedId == request.attachId && reply.usbipPort == 3240
    && Offered(sh.inv, reply.attachedId) && sh.inv.present[reply.attachedId].info.busId == reply.busId
    && s.principal.Some? && (reply.attached <==> OwnerOf(after, reply.attachedId) == s.principal)
  }

  /** The reply to a detach: the principal does not lease the device any more. */
  predicate TrueDetach(after: Leases, s: Session, request: Message, reply: Message) {
    && request.DetachRequest? && reply == Detach(request.detachId)
    && s.principal.Some? && OwnerOf(after, request.detachId) != s.principal
  }

  predicate TrueUnlink(sh: Shared, s: Session, request: Message, reply: Message) {
    && request.UnlinkUrb? && reply.UrbUnlinked? && reply.unlinkedSeq == request.unlinkSeq
    && reply.unlinkStatus == if s.principal.Some? && OwnerOf(sh.leases, request.unlinkDevice) == s.principal then 0 else -13
  }

  /** The reply to a list request: the devices on offer, each once, in id order, while no refresh is under way. */
  ghost predicate TrueList(sh: Shared, request: Message, reply: Message) {
    && request.DeviceListRequest? && reply.DeviceList? && sh.writer.None?
    && (forall info :: info in reply.devices <==> Shows(sh.inv, info))
    && (forall i, j :: 0 <= i < j < |reply.devices| ==> reply.devices[i].id < reply.devices[j].id)
  }

  ghost predicate TrueError(sh: Shared, s: Session, request: Message, reply: Message) {
    && reply.Error?
    && if reply.code == NotFound then request.AttachRequest? && !Offered(sh.inv, request.attachId)
       else reply.code == Unauthorized && exists t :: Bears(request, t) && !TokenValid(sh, s, t)
  }

  /**
   A submission is refused for want of a principal, of an active token at the token check (`inactive`)
   or of the lease, and fails for want of the device.
   */
  predicate TrueRefusal(sh: Shared, s: Session, request: Message, reply: Message, inactive: bool) {
    && request.SubmitUrb? && reply.CompleteUrb?
    && if reply.complete == UrbComplete(request.urb.seqNum, -13, [])
       then s.principal.None? || inactive || OwnerOf(sh.leases, request.urb.deviceId) != s.principal
       else reply.complete == UrbComplete(request.urb.seqNum, -1, []) && request.urb.deviceId !in sh.inv.presence
  }

  /** What a reply settled by a section says holds of the state before that section, and of the leases after it. */
  ghost predicate TrueReply(
    config: Config, sh: Shared, after: Leases, s: Session, request: Message, reply: Message, inactive: bool)
  {
    || TruePairing(config, sh, request, reply)
    || TrueAttach(sh, after, s, request, reply)
    || TrueDetach(after, s, request, reply)
    || TrueUnlink(sh, s, request, reply)
    || TrueList(sh, request, reply)
    || TrueError(sh, s, request, reply)
    || TrueRefusal(sh, s, request, reply, inactive)
  }

  // ---------------------------------------------------------------- what the phases know

  /** The phases that name an owner name the session's principal. */
  predicate ActsAsPrincipal(s: Session) {
    match s.phase
    case AttachLookup(owner, _) => s.principal == Some(owner)
    case AttachLease(owner, _, _) => s.principal == Some(owner)
    case DetachLease(owner, _) => s.principal == Some(owner)
    case UnlinkLease(_, _, owner) => s.principal == Some(owner)
    case UrbTokens(_, owner) => s.principal == Some(owner)
    case UrbLease(_, owner, _) => s.principal == Some(owner)
    case _ => true
  }

  /** A token just issued is the client's; a device being leased is still offered as it was looked up. */
  predicate PhaseKnows(sh: Shared, phase: Phase) {
    match phase
    case PairPrincipal(client, token) => token in sh.tokens && sh.tokens[token].owner == client
    case AttachLease(_, id, busId) => Offered(sh.inv, id) && sh.inv.present[id].info.busId == busId
    case _ => true
  }

  /** A present device carries the id it is present under. */
  predicate CarriesIds(inv: Inventory) {
    forall id :: id in inv.present ==> inv.present[id].info.id == id
  }

  predicate Informed(sh: Shared, s: Session) {
    ActsAsPrincipal(s) && PhaseKnows(sh, s.phase) && CarriesIds(sh.inv)
  }

  lemma SectionActs(config: Config, sh: Shared, s: Session, a: Action)
    requires a.Section? && Ready(sh, s, a.token) && ActsAsPrincipal(s)
    ensures ActsAsPrincipal(NextSession(s, NextPhase(config, sh, s, a.drawn, a.token)))
  {
  }

  lemma SectionKnows(config: Config, sh: Shared, s: Session, a: Action)
    requires a.Section? && Ready(sh, s, a.token) && PhaseKnows(sh, s.phase)
    ensures PhaseKnows(NextShared(sh, s.phase, a.drawn, a.token), NextPhase(config, sh, s, a.drawn, a.token))
  {
    match s.phase
    case PairToken(_) =>
    case AttachLookup(_, _) =>
    case _ =>
  }

  lemma {:induction false} ExportedMembers(devices: seq<LocalDevice>, info: DeviceInfo)
    ensures info in Exported(devices) <==> exists i :: 0 <= i < |devices| && devices[i].info == info && info.exported
  {
    if devices != [] {
      var n := |devices| - 1;
      ExportedMembers(devices[..n], info);
      if info in Exported(devices) {
        if info in Exported(devices[..n]) {
          var i :| 0 <= i < n && devices[..n][i].info == info && info.exported;
          assert devices[i].info == info;
        } else {
          assert devices[n].info == info;
        }
      }
      if i :| 0 <= i < |devices| && devices[i].info == info && info.exported {
        if i < n {
          assert devices[..n][i].info == info;
        }
      }
    }
  }

  /** The list shows exactly the exported devices present. */
  lemma ListShows(inv: Inventory, info: DeviceInfo)
    ensures info in Exported(DevicesInOrder(inv)) <==> Shows(inv, info)
  {
    var devices := DevicesInOrder(inv);
    ExportedMembers(devices, info);
    if i :| 0 <= i < |devices| && devices[i].info == info && info.exported {
      SnapshotMembers(inv, devices[i]);
    }
    if id :| id in inv.present && inv.present[id].info == info && info.exported {
      SnapshotMembers(inv, inv.present[id]);
      var i :| 0 <= i < |devices| && devices[i] == inv.present[id];
      assert devices[i].info == info;
    }
  }

  ghost predicate AscendingIds(infos: seq<DeviceInfo>) {
    forall i, j :: 0 <= i < j < |infos| ==> infos[i].id < infos[j].id
  }

  /** What is exported of devices in id order is in id order. */
  lemma {:induction false} ExportedAscending(devices: seq<LocalDevice>)
    requires forall i, j :: 0 <= i < j < |devices| ==> devices[i].info.id < devices[j].info.id
    ensures AscendingIds(Exported(devices))
  {
    if devices != [] {
      var n := |devices| - 1;
      var front := Exported(devices[..n]);
      ExportedAscending(devices[..n]);
      forall i | 0 <= i < |front| ensures front[i].id < devices[n].info.id {
        ExportedMembers(devices[..n], front[i]);
        var k :| 0 <= k < n && devices[..n][k].info == front[i];
        assert devices[k] == devices[..n][k];
      }
    }
  }

  lemma ListAscends(inv: Inventory)
    requires CarriesIds(inv)
    ensures AscendingIds(Exported(DevicesInOrder(inv)))
  {
    var ids, devices := Ascending(inv.present.Keys), DevicesInOrder(inv);
    forall i, j | 0 <= i < j < |devices| ensures devices[i].info.id < devices[j].info.id {
      assert ids[i] in inv.present && ids[j] in inv.present && ids[i] < ids[j];
    }
    ExportedAscending(devices);
  }

  lemma InstallCarries(inv: Inventory, hosts: seq<(DeviceId, LocalDevice)>)
    requires CarriesIds(inv) && forall i :: 0 <= i < |hosts| ==> hosts[i].1.info.id == hosts[i].0
    ensures CarriesIds(Install(inv, hosts))
  {
  }

  lemma RefreshCarries(inv: Inventory, scan: seq<LocalDevice>)
    requires CarriesIds(inv)
    ensures CarriesIds(Refresh(inv, scan))
  {
    var a := Assign(inv, scan);
    HostsAreAssigned(inv, scan);
    InstallCarries(Retire(inv.(knownIds := a.known, nextId := a.nextId), Gone(inv, scan)), a.hosts);
  }

  lemma NewCarries(devices: seq<LocalDevice>)
    ensures CarriesIds(New(devices))
  {
  }

  // ---------------------------------------------------------------- what a section settles

  lemma ValidateIff(pin: Identity.Pin, clock: nat, hash: Bytes32, drawn: Bytes32)
    ensures Identity.Validate(pin, clock, hash, drawn).0 <==> PinGood(pin, clock, hash)
  {
  }

  lemma PairingReplies(config: Config, sh: Shared, s: Session, a: Action, request: Message)
    requires a.Section? && (s.phase.PairPin? || s.phase.PairPrincipal?) && Handles(s.phase, request) && PhaseKnows(sh, s.phase)
    ensures var next := NextPhase(config, sh, s, a.drawn, a.token);
            next.Sending? ==> TruePairing(config, sh, request, next.reply)
  {
    if s.phase.PairPin? {
      ValidateIff(sh.pin, sh.clock, s.phase.pinHash, a.drawn);
    }
  }

  lemma CheckReplies(config: Config, sh: Shared, s: Session, a: Action, request: Message)
    requires a.Section? && s.phase.CheckToken? && Handles(s.phase, request)
    ensures var next := NextPhase(config, sh, s, a.drawn, a.token);
            if TokenValid(sh, s, s.phase.token) then next.SetPrincipal? else next.Sending? && TrueError(sh, s, request, next.reply)
  {
    assert Bears(request, s.phase.token);
  }

  lemma ListReplies(config: Config, sh: Shared, s: Session, a: Action, request: Message)
    requires a.Section? && s.phase.ListDevices? && Handles(s.phase, request) && Ready(sh, s, a.token) && CarriesIds(sh.inv)
    ensures var next := NextPhase(config, sh, s, a.drawn, a.token);
            next.Sending? && TrueList(sh, request, next.reply)
  {
    forall info ensures info in Exported(DevicesInOrder(sh.inv)) <==> Shows(sh.inv, info) {
      ListShows(sh.inv, info);
    }
    ListAscends(sh.inv);
  }

  lemma AttachReplies(config: Config, sh: Shared, s: Session, a: Action, request: Message)
    requires a.Section? && (s.phase.AttachLookup? || s.phase.AttachLease?) && Handles(s.phase, request) && Informed(sh, s)
    ensures var next := NextPhase(config, sh, s, a.drawn, a.token);
            next.Sending? ==>
              || TrueAttach(sh, NextShared(sh, s.phase, a.drawn, a.token).leases, s, request, next.reply)
              || TrueError(sh, s, request, next.reply)
  {
  }

  lemma DetachReplies(config: Config, sh: Shared, s: Session, a: Action, request: Message)
    requires a.Section? && s.phase.DetachLease? && Handles(s.phase, request) && Informed(sh, s)
    ensures var next := NextPhase(config, sh, s, a.drawn, a.token);
            next.Sending? && TrueDetach(NextShared(sh, s.phase, a.drawn, a.token).leases, s, request, next.reply)
  {
  }

  /** The phase records that the token check found no active token. */
  predicate FlaggedInactive(phase: Phase) {
    phase.UrbLease? && !phase.active
  }

  lemma UrbReplies(config: Config, sh: Shared, s: Session, a: Action, request: Message)
    requires a.Section? && (s.phase.UrbPrincipal? || s.phase.UrbTokens? || s.phase.UrbLease? || s.phase.UrbPresence?)
    requires Handles(s.phase, request) && ActsAsPrincipal(s)
    ensures var next := NextPhase(config, sh, s, a.drawn, a.token);
            next.Sending? ==> TrueRefusal(sh, s, request, next.reply, FlaggedInactive(s.phase))
  {
  }

  lemma UnlinkReplies(config: Config, sh: Shared, s: Session, a: Action, request: Message)
    requires a.Section? && (s.phase.UnlinkPrincipal? || s.phase.UnlinkLease?) && Handles(s.phase, request) && Informed(sh, s)
    ensures var next := NextPhase(config, sh, s, a.drawn, a.token);
            next.Sending? ==> TrueUnlink(sh, s, request, next.reply)
  {
  }

  /** Every reply a section settles is true. */
  lemma SectionReplies(config: Config, sh: Shared, s: Session, a: Action, request: Message, next: Phase, after: Leases)
    requires a.Section? && Ready(sh, s, a.token) && Handles(s.phase, request) && Informed(sh, s)
    requires !s.phase.Sending? && !s.phase.UrbSlot?
    requires next == NextPhase(config, sh, s, a.drawn, a.token) && next.Sending?
    requires after == NextShared(sh, s.phase, a.drawn, a.token).leases
    ensures TrueReply(config, sh, after, s, request, next.reply, FlaggedInactive(s.phase))
  {
    if s.phase.PairPin? || s.phase.PairPrincipal? {
      PairingReplies(config, sh, s, a, request);
    } else if s.phase.CheckToken? {
      CheckReplies(config, sh, s, a, request);
    } else if s.phase.ListDevices? {
      ListReplies(config, sh, s, a, request);
    } else if s.phase.AttachLookup? || s.phase.AttachLease? {
      AttachReplies(config, sh, s, a, request);
    } else if s.phase.DetachLease? {
      DetachReplies(config, sh, s, a, request);
    } else if s.phase.UnlinkPrincipal? || s.phase.UnlinkLease? {
      UnlinkReplies(config, sh, s, a, request);
    } else if s.phase.UrbPrincipal? || s.phase.UrbTokens? || s.phase.UrbLease? || s.phase.UrbPresence? {
      UrbReplies(config, sh, s, a, request);
    } else {
      NoReply(config, sh, s, a);
    }
  }

  lemma NoReply(config: Config, sh: Shared, s: Session, a: Action)
    requires a.Section? && (s.phase.PairToken? || s.phase.SetPrincipal?)
    ensures !NextPhase(config, sh, s, a.drawn, a.token).Sending?
  {
  }

  lemma BeginReplies(config: Config, s: Session, a: Action)
    requires a.Receive?
    ensures var phase := Begin(config, s.peer, a.msg, a.debug);
            phase.Sending? ==> Immediate(config, if a.msg.Hello? then Some(a.msg.fingerprint) else s.peer, a.msg, phase.reply)
  {
  }
}
