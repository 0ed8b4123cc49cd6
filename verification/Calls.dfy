/**
 The client's public calls of crates/farbus-core/src/client.rs: what each returns for the answer its
 command gets, and what a returned value says about the server that answered.
 */
module Calls {
  import opened Results
  import opened Bytes
  import opened Messages
  import opened Urb
  import opened Lease
  import Identity
  import opened Inventory
  import opened Server
  import opened ServerSession
  import opened ServerRuns
  import opened ServerTrace
  import opened Truthful
  import opened TruthfulRuns
  import opened LateCompletion
  import opened Composed
  import opened Connections
  import opened Recovery
  import Pump

  // ---------------------------------------------------------------- what each call returns

  const LEASE_DENIED: i32 := -13

  /** The message a call is handed, or why it gets none. */
  function Received(o: Pump.Outcome): Result<Message, ClientError> {
    match o
    case Answer(msg) => Ok(msg)
    case WriteFailed => Err(ClientError.Frame)
    case Closed => Err(ClientError.Closed)
  }

  function HelloResult(o: Pump.Outcome): Result<(), ClientError> {
    var msg :- Received(o);
    if msg.Hello? then Ok(()) else Err(Unexpected)
  }

  function PairResult(o: Pump.Outcome): Result<Bytes32, ClientError> {
    var msg :- Received(o);
    match msg
    case PairResponse(paired, _, token) => if paired then Ok(token) else Err(PairRejected)
    case _ => Err(Unexpected)
  }

  function DevicesResult(o: Pump.Outcome): Result<seq<DeviceInfo>, ClientError> {
    var msg :- Received(o);
    match msg
    case DeviceList(devices) => Ok(devices)
    case Error(_, _) => Err(AttachRejected)
    case _ => Err(Unexpected)
  }

  function AttachResult(o: Pump.Outcome): Result<Message, ClientError> {
    var msg :- Received(o);
    match msg
    case AttachResponse(_, attached, _, _) => if attached then Ok(msg) else Err(AttachRejected)
    case Error(_, _) => Err(AttachRejected)
    case _ => Err(Unexpected)
  }

  function DetachResult(o: Pump.Outcome): Result<(), ClientError> {
    var msg :- Received(o);
    if msg.Detach? then Ok(()) else Err(Unexpected)
  }

  /** The channel of an unlink carries statuses only; that no other message arrives is proved below. */
  function UnlinkResult(o: Pump.Outcome): Result<i32, ClientError> {
    var msg :- Received(o);
    match msg
    case UrbUnlinked(_, status) => if status == LEASE_DENIED then Err(AttachRejected) else Ok(status)
    case _ => Err(Unexpected)
  }

  /** The channel of a submission carries completions only; that no other message arrives is proved below. */
  function UrbResult(o: Pump.Outcome): Result<UrbComplete, ClientError> {
    var msg :- Received(o);
    match msg
    case CompleteUrb(c) => if c.status == LEASE_DENIED then Err(AttachRejected) else Ok(c)
    case _ => Err(Unexpected)
  }

  /** A call that gets no message fails with a frame error if its write failed, and otherwise because the connection is closed. */
  lemma UnansweredCalls(o: Pump.Outcome)
    requires !o.Answer?
    ensures var e := if o.WriteFailed? then ClientError.Frame else ClientError.Closed;
            && HelloResult(o) == Err(e) && PairResult(o) == Err(e) && DevicesResult(o) == Err(e) && AttachResult(o) == Err(e)
            && DetachResult(o) == Err(e) && UnlinkResult(o) == Err(e) && UrbResult(o) == Err(e)
  {
  }

  // ---------------------------------------------------------------- no surprise but one

  /** What a call with this request says about a reply of an unexpected kind. */
  predicate Surprised(request: Message, o: Pump.Outcome) {
    match request
    case Hello(_, _, _, _) => HelloResult(o) == Err(Unexpected)
    case PairRequest(_, _, _) => PairResult(o) == Err(Unexpected)
    case DeviceListRequest(_) => DevicesResult(o) == Err(Unexpected)
    case AttachRequest(_, _) => AttachResult(o) == Err(Unexpected)
    case DetachRequest(_, _) => DetachResult(o) == Err(Unexpected)
    case SubmitUrb(_) => UrbResult(o) == Err(Unexpected)
    case UnlinkUrb(_, _) => UnlinkResult(o) == Err(Unexpected)
    case _ => false
  }

  /** In every interleaving, a call finds its reply unexpected exactly if it is a detach that was answered by an error. */
  lemma OnlyDetachIsSurprised(trace: seq<System>, moves: seq<Move>, n: nat, i: nat)
    requires IsTrace(trace, moves) && Connected(trace[0]) && n < |trace|
    requires i < |trace[n].client.pump.resolved| && trace[n].client.pump.resolved[i].outcome.Answer?
    ensures var c := trace[n].client;
            var w := c.pump.resolved[i];
            w.waiter < |c.written| &&
            (Surprised(c.written[w.waiter], w.outcome) <==> c.written[w.waiter].DetachRequest? && w.outcome.msg.Error?)
  {
    AnswersReachTheirCallers(trace, moves, n, i);
  }

  // ---------------------------------------------------------------- what a returned value says

  /** Step `k` is one of session `sid`. */
  ghost predicate ActsAt(r: Run, k: nat, sid: nat) {
    Acts(r, k, sid) && k + 1 < |r.states| && sid in r.states[k].sessions
  }

  /** The session's principal leases the device. */
  predicate HasLease(leases: Leases, s: Session, id: DeviceId) {
    s.principal.Some? && OwnerOf(leases, id) == s.principal
  }

  /** At step `k` the token the request bears was unknown, expired or someone else's. */
  ghost predicate TokenRefused(r: Run, k: nat, sid: nat, request: Message) {
    && ActsAt(r, k, sid)
    && exists t :: Bears(request, t) && !TokenValid(r.states[k].shared, r.states[k].sessions[sid], t)
  }

  /** The token is the client's; or the PIN was not good, or the session belongs to someone else. */
  ghost predicate PairFounded(r: Run, k: nat, sid: nat, client: Bytes32, hash: Bytes32, o: Pump.Outcome) {
    && ActsAt(r, k, sid)
    && var sh := r.states[k].shared;
    match PairResult(o)
    case Ok(token) => token in sh.tokens && sh.tokens[token].owner == client
    case Err(e) => e == PairRejected && (!PinGood(sh.pin, sh.clock, hash) || r.states[k].sessions[sid].peer != Some(client))
  }

  /** The list is exactly what is exported, each device once, in id order; or the token was refused. */
  ghost predicate DevicesFounded(r: Run, k: nat, sid: nat, request: Message, o: Pump.Outcome) {
    && ActsAt(r, k, sid)
    && match DevicesResult(o)
    case Ok(devices) => AscendingIds(devices) && forall info :: info in devices <==> Shows(r.states[k].shared.inv, info)
    case Err(e) => e == AttachRejected && TokenRefused(r, k, sid, request)
  }

  /**
   The device asked for is offered under the bus id returned, and step `k` leaves it leased to the
   session's principal; or it is not offered, or leased to someone else, or the token was refused.
   */
  ghost predicate AttachFounded(r: Run, k: nat, sid: nat, id: DeviceId, token: Bytes32, o: Pump.Outcome) {
    && ActsAt(r, k, sid)
    && var inv := r.states[k].shared.inv;
    match AttachResult(o)
    case Ok(res) =>
      && res.AttachResponse? && res.attachedId == id && Offered(inv, id) && inv.present[id].info.busId == res.busId
      && HasLease(r.states[k + 1].shared.leases, r.states[k].sessions[sid], id)
    case Err(e) =>
      && e == AttachRejected
      && (!Offered(inv, id) || !HasLease(r.states[k + 1].shared.leases, r.states[k].sessions[sid], id)
          || TokenRefused(r, k, sid, AttachRequest(id, token)))
  }

  /** Step `k` leaves the principal without a lease of the device; or the token was refused. */
  ghost predicate DetachFounded(r: Run, k: nat, sid: nat, id: DeviceId, token: Bytes32, o: Pump.Outcome) {
    && ActsAt(r, k, sid)
    && match DetachResult(o)
    case Ok(_) => !HasLease(r.states[k + 1].shared.leases, r.states[k].sessions[sid], id)
    case Err(e) => e == Unexpected && TokenRefused(r, k, sid, DetachRequest(id, token))
  }

  /** An unlink returns zero to whoever leases the device, and nothing but a rejection to others. */
  ghost predicate UnlinkFounded(r: Run, k: nat, sid: nat, id: DeviceId, o: Pump.Outcome) {
    && ActsAt(r, k, sid)
    && UnlinkResult(o) == if HasLease(r.states[k].shared.leases, r.states[k].sessions[sid], id) then Ok(0) else Err(AttachRejected)
  }

  /** A submission returns what its task held, or fails for want of the device, or is rejected for want of a right. */
  ghost predicate UrbFounded(r: Run, k: nat, sid: nat, w: nat, urb: UrbSubmit, o: Pump.Outcome) {
    match UrbResult(o)
    case Ok(c) =>
      && Fits(urb, c)
      && (FromTask(r, k, sid, w, CompleteUrb(c))
          || (ActsAt(r, k, sid) && c == Failed(urb.seqNum) && urb.deviceId !in r.states[k].shared.inv.presence))
    case Err(e) =>
      && e == AttachRejected
      && ((ActsAt(r, k, sid) && (!HasLease(r.states[k].shared.leases, r.states[k].sessions[sid], urb.deviceId) || FoundInactive(r, k, sid, w)))
          || (exists c: UrbComplete :: c.status == LEASE_DENIED && FromTask(r, k, sid, w, CompleteUrb(c))))
  }

  /** What the call with this request returns was so at step `k`. */
  ghost predicate Founded(r: Run, k: nat, sid: nat, w: nat, request: Message, o: Pump.Outcome) {
    match request
    case Hello(_, _, _, _) => HelloResult(o) == Ok(())
    case PairRequest(client, hash, _) => PairFounded(r, k, sid, client, hash, o)
    case DeviceListRequest(_) => DevicesFounded(r, k, sid, request, o)
    case AttachRequest(id, token) => AttachFounded(r, k, sid, id, token, o)
    case DetachRequest(id, token) => DetachFounded(r, k, sid, id, token, o)
    case SubmitUrb(urb) => UrbFounded(r, k, sid, w, urb, o)
    case UnlinkUrb(_, id) => UnlinkFounded(r, k, sid, id, o)
    case _ => true
  }

  lemma ToldIsFounded(r: Run, k: nat, sid: nat, w: nat, request: Message, msg: Message)
    requires ToldAt(r, k, sid, w, request, msg) && Answers(request, msg)
    ensures Founded(r, k, sid, w, request, Pump.Answer(msg))
  {
  }

  /** Calls that succeed only with a valid token. */
  predicate NeedsValidToken(request: Message, o: Pump.Outcome) {
    match request
    case DeviceListRequest(_) => DevicesResult(o).Ok?
    case AttachRequest(_, _) => AttachResult(o).Ok?
    case DetachRequest(_, _) => DetachResult(o).Ok?
    case _ => false
  }

  lemma SuccessNeedsToken(request: Message, msg: Message)
    requires NeedsValidToken(request, Pump.Answer(msg))
    ensures NeedsToken(msg)
  {
  }

  /**
   In every run of the server and every interleaving of its connections, what a public call returns
   on an answer was so at a step of the server before; and a list, an attach or a detach succeeds
   only after a step that found the call's token valid.
   */
  lemma CallsTellTheTruth(r: Run, devices: seq<LocalDevice>, l: Link, n: nat, w: nat, msg: Message)
    requires IsRun(r) && BootedWith(r.states[0], devices) && Serves(r, l) && Handed(l, n, w, msg)
    ensures var c := l.trace[n];
            && w < |c.client.written|
            && (exists k: nat :: k < l.start + n && Founded(r, k, c.sid, w, c.client.written[w], Pump.Answer(msg)))
            && (NeedsValidToken(c.client.written[w], Pump.Answer(msg)) ==> exists g: nat :: g < l.start + n && Gate(r, g, c.sid, w))
  {
    var c := l.trace[n];
    HandedReply(r, devices, l, n, w, msg);
    HandedTold(r, devices, l, n, w, msg);
    var request := c.client.written[w];
    var k: nat :| k < l.start + n && ToldAt(r, k, c.sid, w, request, msg);
    ToldIsFounded(r, k, c.sid, w, request, msg);
    if NeedsValidToken(request, Pump.Answer(msg)) {
      SuccessNeedsToken(request, msg);
    }
  }
}
