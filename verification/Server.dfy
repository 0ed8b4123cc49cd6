/**
 The server of crates/farbus-core/src/session.rs as a step system.  Any number of sessions share one
 `Shared` state; each step is one section executed under a lock, or one access to a presence flag.
 A step whose guard fails leaves the world as it is.
 */
module Server {
  import opened Results
  import opened Bytes
  import opened Utf8
  import opened Messages
  import opened Lease
  import Identity
  import opened Inventory
  import opened Urb

  const TOKEN_TTL: nat := 24 * 60 * 60 * 1000
  const MAX_IN_FLIGHT_URBS: nat := 64
  const USBIP_PORT: u16 := 3240

  // ---------------------------------------------------------------- state

  /** The texts of the error replies, which no step looks at. */
  datatype Wording = Wording(
    invalidToken: Utf8String, expiredToken: Utf8String, unknownDevice: Utf8String, pairingRequired: Utf8String,
    tokenRequired: Utf8String)

  /** Fixed for the life of a server: its name and key, whether a custom completer is set, the platform. */
  datatype Config = Config(hostname: Utf8String, fingerprint: Fingerprint, custom: bool, linux: bool, wording: Wording)

  datatype Grant = Grant(owner: Fingerprint, expires: nat)

  /**
   `writer` is set while a refresh holds the devices write lock and has not yet dropped the leases
   of the devices it removed.
   */
  datatype Shared = Shared(
    clock: nat, pin: Identity.Pin, tokens: map<Bytes32, Grant>, leases: Leases, inv: Inventory,
    writer: Option<seq<DeviceId>>)

  /** What a request that carries a bearer token asks for. */
  datatype Command = List | Attach(attachId: DeviceId) | Release(detachId: DeviceId)

  /** Where the reader of a session is; each constructor names the section that comes next. */
  datatype Phase =
    | Idle
    | PairPin(client: Fingerprint, pinHash: Bytes32)
    | PairToken(client: Fingerprint)
    | PairPrincipal(client: Fingerprint, token: Bytes32)
    | CheckToken(token: Bytes32, command: Command)
    | SetPrincipal(owner: Fingerprint, command: Command)
    | ListDevices
    | AttachLookup(owner: Fingerprint, id: DeviceId)
    | AttachLease(owner: Fingerprint, id: DeviceId, busId: Utf8String) // holds the devices read lock
    | DetachLease(owner: Fingerprint, id: DeviceId)
    | UrbPrincipal(urb: UrbSubmit)
    | UrbTokens(urb: UrbSubmit, owner: Fingerprint)
    | UrbLease(urb: UrbSubmit, owner: Fingerprint, active: bool)
    | UrbPresence(urb: UrbSubmit, owner: Fingerprint)
    | UrbSlot(urb: UrbSubmit, owner: Fingerprint, presence: nat)
    | UnlinkPrincipal(seqNum: u32, id: DeviceId)
    | UnlinkLease(seqNum: u32, id: DeviceId, owner: Fingerprint)
    | Sending(reply: Message)
    | Draining // the reader has returned, the writer waits for the last tasks
    | Stopped  // reader and writer are gone
    | Ended    // the leases of the principal are released

  /** How far `complete_session_urb` has got; `Returned` still holds the permit, `Unsent` does not. */
  datatype Stage =
    | Started
    | CustomRunning
    | CustomDone(result: UrbComplete)
    | Looking
    | HostStarting
    | HostRunning
    | HostDone(result: UrbComplete)
    | Returned(result: UrbComplete)
    | Unsent(result: UrbComplete)

  datatype Task = Task(urb: UrbSubmit, presence: nat, stage: Stage)

  /** A message handed to the writer, with the index of the request that caused it. */
  datatype Reply = Reply(msg: Message, origin: nat)

  /** `tasks` holds the spawned URB tasks that have not sent yet, under the index of their request. */
  datatype Session = Session(
    peer: Option<Fingerprint>, principal: Option<Fingerprint>, phase: Phase,
    received: seq<Message>, out: seq<Reply>, tasks: map<nat, Task>, permits: nat)

  datatype World = World(config: Config, shared: Shared, sessions: map<nat, Session>)

  const CONNECTED := Session(None, None, Idle, [], [], map[], MAX_IN_FLIGHT_URBS)

  function Boot(config: Config, devices: seq<LocalDevice>, clock: nat, drawn: Bytes32): World {
    World(config, Shared(clock, Identity.Issue(clock, drawn), map[], map[], New(devices), None), map[])
  }

  // ---------------------------------------------------------------- messages

  function Failed(seqNum: u32): UrbComplete {
    UrbComplete(seqNum, -1, [])
  }

  function Denied(seqNum: u32): UrbComplete {
    UrbComplete(seqNum, -13, [])
  }

  function NoToken(): Bytes32 {
    seq(32, i => 0)
  }

  /** What the reader does with a message, before the first lock; `debug` is the text naming an unsupported one. */
  function Begin(config: Config, peer: Option<Fingerprint>, msg: Message, debug: Utf8String): Phase {
    match msg
    case Hello(_, _, _, _) => Sending(Hello(VERSION, VERSION, config.fingerprint, config.hostname))
    case PairRequest(client, hash, _) =>
      if peer == Some(client) then PairPin(client, hash) else Sending(PairResponse(false, config.fingerprint, NoToken()))
    case DeviceListRequest(token) => CheckToken(token, List)
    case DeviceList(_) => Sending(Error(Unauthorized, config.wording.pairingRequired))
    case AttachRequest(id, token) => CheckToken(token, Attach(id))
    case DetachRequest(id, token) => CheckToken(token, Release(id))
    case Detach(_) => Sending(Error(Unauthorized, config.wording.tokenRequired))
    case SubmitUrb(urb) => UrbPrincipal(urb)
    case UnlinkUrb(seqNum, id) => UnlinkPrincipal(seqNum, id)
    case _ => Sending(Error(Unsupported, debug))
  }

  /** The records of the exported devices among `devices`, in order. */
  function Exported(devices: seq<LocalDevice>): seq<DeviceInfo> {
    if devices == [] then []
    else
      var front, last := Exported(devices[..|devices| - 1]), devices[|devices| - 1].info;
      if last.exported then front + [last] else front
  }

  predicate Active(tokens: map<Bytes32, Grant>, owner: Fingerprint, clock: nat) {
    exists t :: t in tokens && tokens[t].owner == owner && clock <= tokens[t].expires
  }

  // ---------------------------------------------------------------- one section of the reader

  /** The section after the principal is set. */
  function Dispatch(owner: Fingerprint, command: Command): Phase {
    match command
    case List => ListDevices
    case Attach(id) => AttachLookup(owner, id)
    case Release(id) => DetachLease(owner, id)
  }

  function LeaseReply(urb: UrbSubmit, owner: Fingerprint, active: bool, leased: bool): Phase {
    if active && leased then UrbPresence(urb, owner) else Sending(CompleteUrb(Denied(urb.seqNum)))
  }

  /** `drawn` and `token` are the random values the section draws, if any. */
  function NextPhase(config: Config, sh: Shared, s: Session, drawn: Bytes32, token: Bytes32): Phase {
    match s.phase
    case PairPin(client, hash) =>
      if Identity.Validate(sh.pin, sh.clock, hash, drawn).0 then PairToken(client)
      else Sending(PairResponse(false, config.fingerprint, NoToken()))
    case PairToken(client) => PairPrincipal(client, token)
    case PairPrincipal(client, t) => Sending(PairResponse(true, config.fingerprint, t))
    case CheckToken(t, command) =>
      if t !in sh.tokens then Sending(Error(Unauthorized, config.wording.invalidToken))
      else if s.peer != Some(sh.tokens[t].owner) || sh.clock > sh.tokens[t].expires then
        Sending(Error(Unauthorized, config.wording.expiredToken))
      else SetPrincipal(sh.tokens[t].owner, command)
    case SetPrincipal(owner, command) => Dispatch(owner, command)
    case ListDevices => Sending(DeviceList(Exported(DevicesInOrder(sh.inv))))
    case AttachLookup(owner, id) =>
      if id in sh.inv.present && sh.inv.present[id].info.exported then
        AttachLease(owner, id, sh.inv.present[id].info.busId)
      else Sending(Error(NotFound, config.wording.unknownDevice))
    case AttachLease(owner, id, busId) =>
      Sending(AttachResponse(id, AcquireLease(sh.leases, id, owner).0.Pass?, USBIP_PORT, busId))
    case DetachLease(owner, id) => Sending(Detach(id))
    case UrbPrincipal(urb) =>
      if s.principal.Some? then UrbTokens(urb, s.principal.value) else Sending(CompleteUrb(Denied(urb.seqNum)))
    case UrbTokens(urb, owner) => UrbLease(urb, owner, Active(sh.tokens, owner, sh.clock))
    case UrbLease(urb, owner, active) =>
      LeaseReply(urb, owner, active, OwnerOf(sh.leases, urb.deviceId) == Some(owner))
    case UrbPresence(urb, owner) =>
      if urb.deviceId in sh.inv.presence then UrbSlot(urb, owner, sh.inv.presence[urb.deviceId])
      else Sending(CompleteUrb(Failed(urb.seqNum)))
    case UrbSlot(_, _, _) => Idle
    case UnlinkPrincipal(seqNum, id) =>
      if s.principal.Some? then UnlinkLease(seqNum, id, s.principal.value) else Sending(UrbUnlinked(seqNum, -13))
    case UnlinkLease(seqNum, id, owner) =>
      Sending(UrbUnlinked(seqNum, if OwnerOf(sh.leases, id) == Some(owner) then 0 else -13))
    case Sending(_) => Idle
    case _ => s.phase
  }

  /** Whether the section waits for nothing: a devices read lock, a permit, a token never issued before. */
  predicate Ready(sh: Shared, s: Session, token: Bytes32) {
    match s.phase
    case Idle => false
    case PairToken(_) => token !in sh.tokens
    case ListDevices => sh.writer.None?
    case AttachLookup(_, _) => sh.writer.None?
    case UrbPresence(_, _) => sh.writer.None?
    case UrbSlot(_, _, _) => s.permits > 0
    case Draining => false
    case Stopped => false
    case Ended => false
    case _ => true
  }

  function NextShared(sh: Shared, phase: Phase, drawn: Bytes32, token: Bytes32): Shared {
    match phase
    case PairPin(_, hash) => sh.(pin := Identity.Validate(sh.pin, sh.clock, hash, drawn).1)
    case PairToken(client) => sh.(tokens := sh.tokens[token := Grant(client, sh.clock + TOKEN_TTL)])
    case AttachLease(owner, id, _) => sh.(leases := AcquireLease(sh.leases, id, owner).1)
    case DetachLease(owner, id) => sh.(leases := ReleaseLease(sh.leases, id, owner).1)
    case _ => sh
  }

  /** The index of the request being handled. */
  function Current(s: Session): int {
    |s.received| - 1
  }

  function NextSession(s: Session, next: Phase): Session {
    match s.phase
    case PairPrincipal(client, _) => s.(principal := Some(client), phase := next)
    case SetPrincipal(owner, _) => s.(principal := Some(owner), phase := next)
    case UrbSlot(urb, _, presence) =>
      if s.received == [] || s.permits == 0 then s
      else s.(phase := next, permits := s.permits - 1, tasks := s.tasks[|s.received| - 1 := Task(urb, presence, Started)])
    case Sending(reply) =>
      if s.received == [] then s else s.(phase := next, out := s.out + [Reply(reply, |s.received| - 1)])
    case _ => s.(phase := next)
  }

  // ---------------------------------------------------------------- one step of a task

  predicate Raised(inv: Inventory, presence: nat) {
    presence < |inv.tokens| && inv.tokens[presence].live
  }

  function Found(config: Config, sh: Shared, urb: UrbSubmit): Stage {
    match Find(DevicesInOrder(sh.inv), urb.deviceId)
    case Some(device) =>
      if device.backend == Host && config.linux then HostStarting
      else if device.backend == Emulated then Returned(EmulatorComplete(urb))
      else Returned(Failed(urb.seqNum))
    case None => Returned(Failed(urb.seqNum))
  }

  /** `answer` is what the custom completer or the USB library returns, when it returns. */
  function NextStage(config: Config, sh: Shared, t: Task, answer: UrbComplete): Stage {
    var raised, failed := Raised(sh.inv, t.presence), Failed(t.urb.seqNum);
    match t.stage
    case Started => if !raised then Returned(failed) else if config.custom then CustomRunning else Looking
    case CustomRunning => if Fits(t.urb, answer) then CustomDone(answer) else CustomRunning
    case CustomDone(result) => Returned(if raised then result else failed)
    case Looking => if sh.writer.None? then Found(config, sh, t.urb) else Looking
    case HostStarting => if raised then HostRunning else HostDone(failed)
    case HostRunning => if Fits(t.urb, answer) then HostDone(answer) else HostRunning
    case HostDone(result) => Returned(if raised then result else failed)
    case Returned(result) => Unsent(result)
    case Unsent(result) => Unsent(result)
  }

  function Without(tasks: map<nat, Task>, o: nat): map<nat, Task> {
    map k | k in tasks && k != o :: tasks[k]
  }

  predicate Live(s: Session) {
    !s.phase.Stopped? && !s.phase.Ended?
  }

  /** One step of the task of request `o`; the last one sends, which comes to nothing once the session has stopped. */
  function TaskStep(config: Config, sh: Shared, s: Session, o: nat, answer: UrbComplete): Session
    requires o in s.tasks
  {
    var t := s.tasks[o];
    match t.stage
    case Unsent(result) =>
      s.(tasks := Without(s.tasks, o), out := if Live(s) then s.out + [Reply(CompleteUrb(result), o)] else s.out)
    case Returned(result) => s.(tasks := s.tasks[o := t.(stage := Unsent(result))], permits := s.permits + 1)
    case _ => s.(tasks := s.tasks[o := t.(stage := NextStage(config, sh, t, answer))])
  }

  // ---------------------------------------------------------------- steps

  datatype Action =
    | Connect(sid: nat)
    | Receive(sid: nat, msg: Message, debug: Utf8String)
    | Section(sid: nat, drawn: Bytes32, token: Bytes32)
    | Progress(sid: nat, origin: nat, answer: UrbComplete)
    | Eof(sid: nat)
    | Stop(sid: nat)
    | End(sid: nat)
    | Refreshed(scan: seq<LocalDevice>)
    | Unlocked
    | Elapse(millis: nat)
    | RenewPin(drawn: Bytes32)

  /** Whether some session holds the devices read lock across a step. */
  predicate Reading(sessions: map<nat, Session>) {
    exists sid :: sid in sessions && sessions[sid].phase.AttachLease?
  }

  /** Whether the session of an action can take it. */
  predicate Enabled(sh: Shared, s: Session, a: Action) {
    match a
    case Receive(_, _, _) => s.phase.Idle?
    case Section(_, _, token) => Ready(sh, s, token)
    case Progress(_, o, _) => o in s.tasks
    case Eof(_) => s.phase.Idle?
    case Stop(_) => Live(s)
    case End(_) => s.phase.Stopped? || (s.phase.Draining? && s.tasks == map[])
    case _ => false
  }

  function SessionAfter(config: Config, sh: Shared, s: Session, a: Action): Session
    requires Enabled(sh, s, a)
  {
    match a
    case Receive(_, msg, debug) =>
      s.(received := s.received + [msg], phase := Begin(config, s.peer, msg, debug),
         peer := if msg.Hello? then Some(msg.fingerprint) else s.peer)
    case Section(_, drawn, token) => NextSession(s, NextPhase(config, sh, s, drawn, token))
    case Progress(_, o, answer) => TaskStep(config, sh, s, o, answer)
    case Eof(_) => s.(phase := Draining)
    case Stop(_) => s.(phase := Stopped)
    case End(_) => s.(phase := Ended)
  }

  function SharedAfter(sh: Shared, s: Session, a: Action): Shared
    requires Enabled(sh, s, a)
  {
    match a
    case Section(_, drawn, token) => NextShared(sh, s.phase, drawn, token)
    case End(_) => if s.principal.Some? then sh.(leases := ReleaseAllLeases(sh.leases, s.principal.value)) else sh
    case _ => sh
  }

  /** The steps that belong to no session. */
  function Environment(sh: Shared, sessions: map<nat, Session>, a: Action): Shared {
    match a
    case Refreshed(scan) =>
      if sh.writer.None? && !Reading(sessions) then
        var removed := RefreshDelta(sh.inv, scan).removed;
        sh.(inv := Refresh(sh.inv, scan), writer := if removed == [] then None else Some(removed))
      else sh
    case Unlocked =>
      if sh.writer.Some? then sh.(leases := ReleaseDeviceLeases(sh.leases, sh.writer.value), writer := None) else sh
    case Elapse(millis) => sh.(clock := sh.clock + millis)
    case RenewPin(drawn) => sh.(pin := Identity.Renew(sh.pin, sh.clock, drawn))
    case _ => sh
  }

  predicate OfSession(a: Action) {
    a.Receive? || a.Section? || a.Progress? || a.Eof? || a.Stop? || a.End?
  }

  function Apply(w: World, a: Action): World {
    if a.Connect? then
      if a.sid in w.sessions then w else w.(sessions := w.sessions[a.sid := CONNECTED])
    else if OfSession(a) then
      if Taken(w, a) then
        var s := w.sessions[a.sid];
        w.(shared := SharedAfter(w.shared, s, a),
           sessions := w.sessions[a.sid := SessionAfter(w.config, w.shared, s, a)])
      else w
    else w.(shared := Environment(w.shared, w.sessions, a))
  }

  /** Whether an action is a step of some session. */
  predicate Taken(w: World, a: Action) {
    OfSession(a) && a.sid in w.sessions && Enabled(w.shared, w.sessions[a.sid], a)
  }

  lemma TakenStep(w: World, a: Action)
    requires Taken(w, a)
    ensures Apply(w, a).sessions == w.sessions[a.sid := SessionAfter(w.config, w.shared, w.sessions[a.sid], a)]
    ensures Apply(w, a).shared == SharedAfter(w.shared, w.sessions[a.sid], a)
    ensures Apply(w, a).config == w.config
  {
  }

  lemma UntakenStep(w: World, a: Action)
    requires !Taken(w, a)
    ensures Apply(w, a).sessions == if a.Connect? && a.sid !in w.sessions then w.sessions[a.sid := CONNECTED] else w.sessions
    ensures Apply(w, a).shared == Environment(w.shared, w.sessions, a)
    ensures Apply(w, a).config == w.config
  {
  }

  // ---------------------------------------------------------------- runs

  datatype Run = Run(states: seq<World>, actions: seq<Action>)

  ghost predicate StepAt(r: Run, n: nat)
    requires |r.states| == |r.actions| + 1 && n < |r.actions|
  {
    r.states[n + 1] == Apply(r.states[n], r.actions[n])
  }

  ghost predicate IsRun(r: Run) {
    |r.states| == |r.actions| + 1 && forall n :: 0 <= n < |r.actions| ==> StepAt(r, n)
  }
}
