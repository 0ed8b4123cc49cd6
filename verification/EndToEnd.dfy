/**
 From a USB/IP submission to the bytes of its reply, across the bridge, the client, the server and one
 recovery: the reply conveys the completion that a session of the server settled for that submission.
 */
module EndToEnd {
  import opened Results
  import opened Bytes
  import opened Messages
  import opened Urb
  import opened Usbip
  import opened Inventory
  import opened Tally
  import opened Server
  import opened ServerRuns
  import opened ServerTrace
  import opened LateCompletion
  import opened Connections
  import opened Calls
  import opened Recovery
  import Pump
  import Forward

  // ---------------------------------------------------------------- one attempt

  /** A call of `urb_with_length`: the connection it goes through, its command, and how it ended by state `n`. */
  datatype Attempt = Attempt(link: Link, n: nat, w: nat, outcome: Pump.Outcome)

  ghost predicate Tried(r: Run, t: Attempt, urb: UrbSubmit) {
    && Serves(r, t.link) && t.n < |t.link.trace|
    && var c := t.link.trace[t.n].client;
    && Pump.Resolution(t.w, t.outcome) in c.pump.resolved
    && (t.w < |c.written| ==> c.written[t.w] == SubmitUrb(urb))
  }

  /**
   The session replied to the submission once, with this completion, which is the failure of the
   submission and has its reason, or is what the completer or the emulator answered for a device that
   stayed present.
   */
  ghost predicate ServedBy(r: Run, t: Attempt, urb: UrbSubmit, c: UrbComplete)
    requires t.n < |t.link.trace| && t.link.start + t.n < |r.states|
  {
    var m, sid := t.link.start + t.n, t.link.trace[t.n].sid;
    && sid in r.states[m].sessions && RepliedTo(r.states[m].sessions[sid], SubmitUrb(urb), t.w, CompleteUrb(c))
    && ((c == UrbComplete(urb.seqNum, -1, []) && FailedWithReason(r, m, sid, t.w, urb))
        || exists l: nat, k: nat :: k < m && ServedIn(r, l, k, sid, t.w, urb, c))
  }

  lemma AttemptServed(r: Run, devices: seq<LocalDevice>, t: Attempt, urb: UrbSubmit, c: UrbComplete)
    requires ServerRun(r, devices) && Tried(r, t, urb) && UrbResult(t.outcome) == Ok(c)
    ensures ServedBy(r, t, urb, c)
  {
    var m, sid := t.link.start + t.n, t.link.trace[t.n].sid;
    var msg := CompleteUrb(c);
    assert t.outcome == Pump.Answer(msg);
    assert Handed(t.link, t.n, t.w, msg);
    HandedReply(r, devices, t.link, t.n, t.w, msg);
    LateCompletionsAreSafe(r, devices, m, sid, Reply(msg, t.w));
  }

  // ---------------------------------------------------------------- recovery

  /** Caller `v` of the connection, before the submission, was granted a lease of the device. */
  ghost predicate Granted(t: Attempt, v: nat, res: Message, device: DeviceId)
    requires t.n < |t.link.trace|
  {
    && v < t.w && Handed(t.link, t.n, v, res) && AttachResult(Pump.Answer(res)).Ok?
    && v < |t.link.trace[t.n].client.written|
    && t.link.trace[t.n].client.written[v].AttachRequest? && t.link.trace[t.n].client.written[v].attachId == device
  }

  /** Whether the outcome of the first attempt leads to a second one. */
  predicate Retried(net: Network, device: DeviceId, first: Result<UrbComplete, ClientError>) {
    first.Err? && ConnectionLost(first.error) && Reattach(net, device, 0, FIRST_BACKOFF, ClientError.Closed).0.Pass?
  }

  /** The attempts of `urb_with_recovery`: the second, if there is one, follows an attach granted on its own connection. */
  ghost predicate Course(r: Run, net: Network, device: DeviceId, urb: UrbSubmit, first: Attempt, second: Attempt) {
    && Tried(r, first, urb)
    && (Retried(net, device, UrbResult(first.outcome)) ==>
          Tried(r, second, urb) && exists v, res :: Granted(second, v, res, device))
  }

  /** A step of the attempt's session left the device leased to its principal. */
  ghost predicate LeasedIn(r: Run, t: Attempt, device: DeviceId)
    requires t.n < |t.link.trace|
  {
    exists k: nat :: k < t.link.start + t.n && ActsAt(r, k, t.link.trace[t.n].sid)
      && HasLease(r.states[k + 1].shared.leases, r.states[k].sessions[t.link.trace[t.n].sid], device)
  }

  lemma GrantedIsLeased(r: Run, devices: seq<LocalDevice>, t: Attempt, urb: UrbSubmit, v: nat, res: Message, device: DeviceId)
    requires ServerRun(r, devices) && Tried(r, t, urb) && Granted(t, v, res, device)
    ensures LeasedIn(r, t, device)
  {
    CallsTellTheTruth(r, devices, t.link, t.n, v, res);
    var c := t.link.trace[t.n];
    var k: nat :| k < t.link.start + t.n && Founded(r, k, c.sid, v, c.client.written[v], Pump.Answer(res));
    assert AttachFounded(r, k, c.sid, device, c.client.written[v].attachToken, Pump.Answer(res));
  }

  /** What the bridge makes of the outcome. */
  function AnswerOf(seqnum: u32, x: Result<UrbComplete, ClientError>): UrbComplete {
    match x
    case Ok(c) => c
    case Err(_) => UrbComplete(seqnum, -1, [])
  }

  /**
   Across one recovery, what the bridge answers to a submission is the completion settled for it by
   the session of the first attempt, or by that of the second, in which the device was leased again;
   or it is the failure -1 without data.
   */
  lemma RecoveredCompletion(
    r: Run, devices: seq<LocalDevice>, net: Network, device: DeviceId, urb: UrbSubmit, first: Attempt, second: Attempt)
    requires ServerRun(r, devices) && Course(r, net, device, urb, first, second)
    ensures var x := Submit(net, device, UrbResult(first.outcome), UrbResult(second.outcome)).0;
            x.Ok? ==>
              || ServedBy(r, first, urb, x.value)
              || (Tried(r, second, urb) && ServedBy(r, second, urb, x.value) && LeasedIn(r, second, device))
  {
    var x := Submit(net, device, UrbResult(first.outcome), UrbResult(second.outcome)).0;
    if x.Ok? {
      if UrbResult(first.outcome).Ok? {
        AttemptServed(r, devices, first, urb, x.value);
      } else {
        AttemptServed(r, devices, second, urb, x.value);
        var v, res :| Granted(second, v, res, device);
        GrantedIsLeased(r, devices, second, urb, v, res, device);
      }
    }
  }

  // ---------------------------------------------------------------- unlinks

  /** The status the bridge answers to an unlink: what the call returned, and zero for any error. */
  function UnlinkStatusOf(o: Pump.Outcome): i32 {
    match UnlinkResult(o)
    case Ok(status) => status
    case Err(_) => 0
  }

  /** Whatever becomes of an unlink, rejected ones included, the bridge answers zero. */
  lemma UnlinkStatusIsZero(r: Run, devices: seq<LocalDevice>, l: Link, n: nat, w: nat, o: Pump.Outcome)
    requires IsRun(r) && BootedWith(r.states[0], devices) && Serves(r, l) && n < |l.trace|
    requires Pump.Resolution(w, o) in l.trace[n].client.pump.resolved
    requires w < |l.trace[n].client.written| ==> l.trace[n].client.written[w].UnlinkUrb?
    ensures UnlinkStatusOf(o) == 0
  {
    if o.Answer? {
      CallsTellTheTruth(r, devices, l, n, w, o.msg);
      var c := l.trace[n];
      var k: nat :| k < l.start + n && Founded(r, k, c.sid, w, c.client.written[w], o);
      assert UnlinkFounded(r, k, c.sid, c.client.written[w].unlinkDevice, o);
    }
  }

  // ---------------------------------------------------------------- the bridge

  /** The answer to an accepted submission is what the client's call returned, after at most one recovery. */
  ghost predicate Came(r: Run, device: DeviceId, a: Forward.Accepted, answer: Forward.Answer)
    requires a.Submitted?
  {
    exists net, first, second ::
      Course(r, net, device, UrbOf(a.cmd, device, a.payload), first, second) &&
      answer == Forward.Completion(AnswerOf(a.cmd.seqnum, Submit(net, device, UrbResult(first.outcome), UrbResult(second.outcome)).0))
  }

  /** The call of `urb_with_recovery` with these attempts returned a completion that the server settled for the submission. */
  ghost predicate Served(r: Run, device: DeviceId, urb: UrbSubmit, first: Attempt, second: Attempt, c: UrbComplete) {
    || (Tried(r, first, urb) && ServedBy(r, first, urb, c))
    || (Tried(r, second, urb) && ServedBy(r, second, urb, c) && LeasedIn(r, second, device))
  }

  /**
   The reply bears the command's number.  If the call returned a completion, the server settled it for
   this submission, and the reply conveys its status, length and data; if it failed, the reply says -1.
   */
  ghost predicate Conveys(
    r: Run, device: DeviceId, a: Forward.Accepted, first: Attempt, second: Attempt, x: Result<UrbComplete, ClientError>,
    reply: Forward.UsbipReply)
    requires a.Submitted?
  {
    && reply.SubmitReply? && reply.ret.seqnum == a.cmd.seqnum
    && match x
       case Ok(c) =>
         && Served(r, device, UrbOf(a.cmd, device, a.payload), first, second, c)
         && reply.ret.status == c.status && reply.ret.actualLength == |c.data|
         && reply.data == if a.cmd.direction == 1 then c.data else []
       case Err(_) => reply.ret.status == -1 && reply.ret.actualLength == 0 && reply.data == []
  }

  /** There are attempts that account for the reply. */
  ghost predicate Conveyed(r: Run, device: DeviceId, a: Forward.Accepted, reply: Forward.UsbipReply)
    requires a.Submitted?
  {
    exists net, first, second ::
      Course(r, net, device, UrbOf(a.cmd, device, a.payload), first, second) &&
      Conveys(r, device, a, first, second, Submit(net, device, UrbResult(first.outcome), UrbResult(second.outcome)).0, reply)
  }

  lemma ServedFits(r: Run, device: DeviceId, urb: UrbSubmit, first: Attempt, second: Attempt, c: UrbComplete)
    requires Served(r, device, urb, first, second, c)
    ensures |c.data| <= MAX_DATA
  {
  }

  /** What the client's call returned is within the data limit, so its reply can be framed, and conveys it. */
  lemma AnswerFits(
    r: Run, devices: seq<LocalDevice>, net: Network, device: DeviceId, a: Forward.Accepted, first: Attempt, second: Attempt,
    x: Result<UrbComplete, ClientError>)
    requires ServerRun(r, devices) && a.Submitted?
    requires Course(r, net, device, UrbOf(a.cmd, device, a.payload), first, second)
    requires x == Submit(net, device, UrbResult(first.outcome), UrbResult(second.outcome)).0
    ensures |AnswerOf(a.cmd.seqnum, x).data| <= MAX_DATA
    ensures Conveys(r, device, a, first, second, x, Forward.ReplyTo(a, Forward.Completion(AnswerOf(a.cmd.seqnum, x))))
  {
    var urb := UrbOf(a.cmd, device, a.payload);
    RecoveredCompletion(r, devices, net, device, urb, first, second);
    if x.Ok? {
      assert Served(r, device, urb, first, second, x.value);
      ServedFits(r, device, urb, first, second, x.value);
    }
  }

  /** The reply to an answer that came from the client conveys it. */
  lemma AnswerConveyed(r: Run, devices: seq<LocalDevice>, device: DeviceId, a: Forward.Accepted, answer: Forward.Answer)
    requires ServerRun(r, devices) && a.Submitted? && Came(r, device, a, answer)
    ensures Conveyed(r, device, a, Forward.ReplyTo(a, answer))
  {
    var urb := UrbOf(a.cmd, device, a.payload);
    var net, first, second :| Course(r, net, device, urb, first, second) &&
      answer == Forward.Completion(AnswerOf(a.cmd.seqnum, Submit(net, device, UrbResult(first.outcome), UrbResult(second.outcome)).0));
    AnswerFits(r, devices, net, device, a, first, second, Submit(net, device, UrbResult(first.outcome), UrbResult(second.outcome)).0);
  }

  /** Every submission that finishes on an import is finished with what the client's call returned. */
  ghost predicate Bridged(r: Run, device: DeviceId, steps: seq<Forward.Step>) {
    forall k :: 0 <= k < |steps| ==> StepBridged(r, device, Forward.After(steps[..k]), steps[k])
  }

  ghost predicate StepBridged(r: Run, device: DeviceId, s: Forward.Import, step: Forward.Step) {
    step.Finish? && step.i < |s.accepted| && s.accepted[step.i].Submitted? ==> Came(r, device, s.accepted[step.i], step.result)
  }

  ghost predicate SentConveys(r: Run, device: DeviceId, s: Forward.Import) {
    forall k :: 0 <= k < |s.sent| ==>
      && s.sent[k].origin < |s.accepted|
      && (s.accepted[s.sent[k].origin].Submitted? ==> Conveyed(r, device, s.accepted[s.sent[k].origin], s.sent[k].reply))
  }

  lemma StepConveys(r: Run, devices: seq<LocalDevice>, device: DeviceId, s: Forward.Import, step: Forward.Step)
    requires ServerRun(r, devices) && SentConveys(r, device, s) && StepBridged(r, device, s, step)
    ensures SentConveys(r, device, Forward.Next(s, step))
  {
    if step.Finish? && Forward.Enabled(s, step) && s.accepted[step.i].Submitted? {
      AnswerConveyed(r, devices, device, s.accepted[step.i], step.result);
      FinishConveys(r, device, s, step, Forward.Next(s, step));
    } else {
      assert SentConveys(r, device, Forward.Next(s, step));
    }
  }

  lemma FinishConveys(r: Run, device: DeviceId, s: Forward.Import, step: Forward.Step, after: Forward.Import)
    requires step.Finish? && Forward.Enabled(s, step) && after == Forward.Next(s, step) && SentConveys(r, device, s)
    requires s.accepted[step.i].Submitted? && Conveyed(r, device, s.accepted[step.i], Forward.ReplyTo(s.accepted[step.i], step.result))
    ensures SentConveys(r, device, after)
  {
    var n := |s.sent|;
    assert after.accepted == s.accepted && |after.sent| == n + 1 && after.sent[..n] == s.sent;
    assert after.sent[n].origin == step.i && after.sent[n].reply == Forward.ReplyTo(s.accepted[step.i], step.result);
    forall k | 0 <= k < n ensures after.sent[k] == s.sent[k] {
    }
  }

  lemma {:induction false} ImportConveys(r: Run, devices: seq<LocalDevice>, device: DeviceId, steps: seq<Forward.Step>)
    requires ServerRun(r, devices) && Bridged(r, device, steps)
    ensures SentConveys(r, device, Forward.After(steps))
  {
    if steps != [] {
      var front, last := steps[..|steps| - 1], steps[|steps| - 1];
      forall k | 0 <= k < |front| ensures StepBridged(r, device, Forward.After(front[..k]), front[k]) {
        assert front[..k] == steps[..k];
        assert StepBridged(r, device, Forward.After(steps[..k]), steps[k]);
      }
      ImportConveys(r, devices, device, front);
      assert StepBridged(r, device, Forward.After(front), last);
      StepConveys(r, devices, device, Forward.After(front), last);
    }
  }

  /**
   End to end: in every interleaving of bridge, client, server and environment, the USB/IP client
   reads from the stream replies each of which, for a submission, conveys the completion that a session
   of the server settled for it, or says -1 where the call failed; each submission has at most one.
   */
  lemma ForwardedData(
    r: Run, devices: seq<LocalDevice>, device: DeviceId, steps: seq<Forward.Step>, directions: map<u32, u32>)
    requires ServerRun(r, devices) && Bridged(r, device, steps) && Forward.Knows(directions, Forward.After(steps).accepted)
    ensures var s := Forward.After(steps);
            var stream := Forward.OnStream(s);
            && Forward.ReadReplies(directions, Forward.Output(Forward.RepliesOf(stream))) == (Forward.RepliesOf(stream), [])
            && (forall o: nat :: Times(Forward.OriginOf, stream, o) <= 1)
            && (forall k :: 0 <= k < |stream| ==>
                  && stream[k].origin < |s.accepted|
                  && (s.accepted[stream[k].origin].Submitted? ==>
                        Conveyed(r, device, s.accepted[stream[k].origin], stream[k].reply)))
  {
    Forward.ForwardedOnce(steps, directions);
    ImportConveys(r, devices, device, steps);
  }
}
