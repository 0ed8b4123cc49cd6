/**
 The client's I/O pump: `run_client_pump` in crates/farbus-core/src/client.rs.  A caller waits on a
 one-shot channel, known here by the number of the command it belongs to; commands are numbered in
 the order in which the pump takes them.
 */
module Pump {
  import opened Bytes
  import opened Messages
  import opened Tally

  datatype Request =
    | ControlCmd(msg: Message)
    | UrbCmd(urb: UrbSubmit)
    | UnlinkCmd(seqNum: u32, id: DeviceId)

  /** What a caller sees: a message, the error of a failed write, or the end of the channel. */
  datatype Outcome = Answer(msg: Message) | WriteFailed | Closed

  datatype Resolution = Resolution(waiter: nat, outcome: Outcome)

  datatype Pump = Pump(
    taken: nat, urbs: map<u32, nat>, unlinks: map<u32, nat>, controls: seq<nat>, resolved: seq<Resolution>)

  const IDLE := Pump(0, map[], map[], [], [])

  function WireOf(cmd: Request): Message {
    match cmd
    case ControlCmd(msg) => msg
    case UrbCmd(urb) => SubmitUrb(urb)
    case UnlinkCmd(seqNum, id) => UnlinkUrb(seqNum, id)
  }

  function Resolve(p: Pump, waiter: nat, outcome: Outcome): Pump {
    p.(resolved := p.resolved + [Resolution(waiter, outcome)])
  }

  /** `HashMap::insert`: the sender it displaces is dropped, which its caller sees as a closed channel. */
  function InsertUrb(p: Pump, seqNum: u32, waiter: nat): Pump {
    var q := if seqNum in p.urbs then Resolve(p, p.urbs[seqNum], Closed) else p;
    q.(urbs := q.urbs[seqNum := waiter])
  }

  function InsertUnlink(p: Pump, seqNum: u32, waiter: nat): Pump {
    var q := if seqNum in p.unlinks then Resolve(p, p.unlinks[seqNum], Closed) else p;
    q.(unlinks := q.unlinks[seqNum := waiter])
  }

  function PopControl(p: Pump, outcome: Outcome): Pump {
    if p.controls == [] then p else Resolve(p, p.controls[0], outcome).(controls := p.controls[1..])
  }

  /** Takes a command; a failed write of a control message is reported to the caller at the head of the queue. */
  function OnCommand(p: Pump, cmd: Request, written: bool): Pump {
    var q := p.(taken := p.taken + 1);
    match cmd
    case ControlCmd(_) =>
      var waiting := q.(controls := q.controls + [p.taken]);
      if written then waiting else PopControl(waiting, WriteFailed)
    case UrbCmd(urb) => InsertUrb(q, urb.seqNum, p.taken)
    case UnlinkCmd(seqNum, _) => InsertUnlink(q, seqNum, p.taken)
  }

  function OnMessage(p: Pump, msg: Message): Pump {
    match msg
    case CompleteUrb(c) =>
      if c.seqNum in p.urbs then Resolve(p, p.urbs[c.seqNum], Answer(msg)).(urbs := p.urbs - {c.seqNum}) else p
    case UrbUnlinked(seqNum, _) =>
      if seqNum in p.unlinks then Resolve(p, p.unlinks[seqNum], Answer(msg)).(unlinks := p.unlinks - {seqNum}) else p
    case _ => PopControl(p, Answer(msg))
  }

  // ---------------------------------------------------------------- every command is resolved once

  function WaiterOf(r: Resolution): nat {
    r.waiter
  }

  /** The callers resolved. */
  ghost function Waiters(resolved: seq<Resolution>): set<nat> {
    Marks(WaiterOf, resolved)
  }

  /** No caller waits in two places or is resolved and still waits. */
  ghost predicate Apart(p: Pump) {
    && (forall s :: s in p.urbs ==> p.urbs[s] !in p.controls && p.urbs[s] !in Waiters(p.resolved))
    && (forall s :: s in p.unlinks ==> p.unlinks[s] !in p.controls && p.unlinks[s] !in Waiters(p.resolved))
    && (forall s, t :: s in p.urbs && t in p.unlinks ==> p.urbs[s] != p.unlinks[t])
    && (forall i :: 0 <= i < |p.controls| ==> p.controls[i] !in Waiters(p.resolved))
  }

  ghost predicate Waits(p: Pump, w: nat) {
    w in p.controls || w in p.urbs.Values || w in p.unlinks.Values
  }

  /** Each command taken waits in exactly one place or has been resolved exactly once. */
  ghost predicate OnceEach(p: Pump) {
    && Injective(p.urbs) && Injective(p.unlinks) && NoDuplicates(p.controls) && Distinct(WaiterOf, p.resolved) && Apart(p)
    && forall w: nat :: w < p.taken <==> Waits(p, w) || w in Waiters(p.resolved)
  }

  lemma ResolveUrb(p: Pump, s: u32, outcome: Outcome, q: Pump)
    requires OnceEach(p) && s in p.urbs
    requires q == Resolve(p, p.urbs[s], outcome).(urbs := p.urbs - {s})
    ensures OnceEach(q)
  {
    MarksLast(WaiterOf, p.resolved, Resolution(p.urbs[s], outcome));
    DistinctLast(WaiterOf, p.resolved, Resolution(p.urbs[s], outcome));
    forall w: nat ensures w < q.taken <==> Waits(q, w) || w in Waiters(q.resolved) {
      if w in p.urbs.Values && w != p.urbs[s] {
        var t :| t in p.urbs && p.urbs[t] == w;
        assert t in q.urbs && q.urbs[t] == w;
      }
    }
  }

  lemma ResolveUnlink(p: Pump, s: u32, outcome: Outcome, q: Pump)
    requires OnceEach(p) && s in p.unlinks
    requires q == Resolve(p, p.unlinks[s], outcome).(unlinks := p.unlinks - {s})
    ensures OnceEach(q)
  {
    MarksLast(WaiterOf, p.resolved, Resolution(p.unlinks[s], outcome));
    DistinctLast(WaiterOf, p.resolved, Resolution(p.unlinks[s], outcome));
    forall w: nat ensures w < q.taken <==> Waits(q, w) || w in Waiters(q.resolved) {
      if w in p.unlinks.Values && w != p.unlinks[s] {
        var t :| t in p.unlinks && p.unlinks[t] == w;
        assert t in q.unlinks && q.unlinks[t] == w;
      }
    }
  }

  lemma PopControlOnce(p: Pump, outcome: Outcome)
    requires OnceEach(p)
    ensures OnceEach(PopControl(p, outcome))
  {
    if p.controls != [] {
      MarksLast(WaiterOf, p.resolved, Resolution(p.controls[0], outcome));
      DistinctLast(WaiterOf, p.resolved, Resolution(p.controls[0], outcome));
      assert p.controls == [p.controls[0]] + p.controls[1..];
      PoppedOnce(p, p.controls[0], PopControl(p, outcome));
    }
  }

  /** Caller `w` moves from the head of the queue to those resolved. */
  lemma PoppedOnce(p: Pump, w: nat, q: Pump)
    requires OnceEach(p) && p.controls == [w] + q.controls && q.taken == p.taken && q.urbs == p.urbs && q.unlinks == p.unlinks
    requires forall v :: v in Waiters(q.resolved) <==> v in Waiters(p.resolved) || v == w
    requires Distinct(WaiterOf, q.resolved)
    ensures OnceEach(q)
  {
    assert p.controls[0] == w;
    assert forall i :: 0 <= i < |q.controls| ==> q.controls[i] == p.controls[i + 1];
    assert forall v :: v in p.controls <==> v == w || v in q.controls;
  }

  lemma WaitersBelow(p: Pump)
    requires OnceEach(p)
    ensures p.taken !in Waiters(p.resolved) && !Waits(p, p.taken)
  {
  }

  lemma AddUrb(p: Pump, s: u32)
    requires OnceEach(p) && s !in p.urbs
    ensures OnceEach(p.(taken := p.taken + 1, urbs := p.urbs[s := p.taken]))
  {
    var q := p.(taken := p.taken + 1, urbs := p.urbs[s := p.taken]);
    WaitersBelow(p);
    forall w: nat ensures w < q.taken <==> Waits(q, w) || w in Waiters(q.resolved) {
      if w in p.urbs.Values {
        var t :| t in p.urbs && p.urbs[t] == w;
        assert t in q.urbs && q.urbs[t] == w;
      }
      if w == p.taken {
        assert q.urbs[s] == w;
      }
    }
  }

  lemma AddUnlink(p: Pump, s: u32)
    requires OnceEach(p) && s !in p.unlinks
    ensures OnceEach(p.(taken := p.taken + 1, unlinks := p.unlinks[s := p.taken]))
  {
    var q := p.(taken := p.taken + 1, unlinks := p.unlinks[s := p.taken]);
    WaitersBelow(p);
    forall w: nat ensures w < q.taken <==> Waits(q, w) || w in Waiters(q.resolved) {
      if w in p.unlinks.Values {
        var t :| t in p.unlinks && p.unlinks[t] == w;
        assert t in q.unlinks && q.unlinks[t] == w;
      }
      if w == p.taken {
        assert q.unlinks[s] == w;
      }
    }
  }

  lemma AddControl(p: Pump)
    requires OnceEach(p)
    ensures OnceEach(p.(taken := p.taken + 1, controls := p.controls + [p.taken]))
  {
    WaitersBelow(p);
  }

  lemma InsertUrbOnce(p: Pump, s: u32)
    requires OnceEach(p)
    ensures OnceEach(InsertUrb(p.(taken := p.taken + 1), s, p.taken))
  {
    if s in p.urbs {
      var q := Resolve(p, p.urbs[s], Closed).(urbs := p.urbs - {s});
      ResolveUrb(p, s, Closed, q);
      AddUrb(q, s);
      assert q.urbs[s := p.taken] == p.urbs[s := p.taken];
    } else {
      AddUrb(p, s);
    }
  }

  lemma InsertUnlinkOnce(p: Pump, s: u32)
    requires OnceEach(p)
    ensures OnceEach(InsertUnlink(p.(taken := p.taken + 1), s, p.taken))
  {
    if s in p.unlinks {
      var q := Resolve(p, p.unlinks[s], Closed).(unlinks := p.unlinks - {s});
      ResolveUnlink(p, s, Closed, q);
      AddUnlink(q, s);
      assert q.unlinks[s := p.taken] == p.unlinks[s := p.taken];
    } else {
      AddUnlink(p, s);
    }
  }

  lemma InsertControlOnce(p: Pump, written: bool, q: Pump)
    requires OnceEach(p) && q == p.(taken := p.taken + 1, controls := p.controls + [p.taken])
    ensures OnceEach(if written then q else PopControl(q, WriteFailed))
  {
    AddControl(p);
    if !written {
      PopControlOnce(q, WriteFailed);
    }
  }

  /** What taking a command comes to, by the kind of the command. */
  lemma OnCommandKinds(p: Pump, cmd: Request, written: bool)
    ensures cmd.UrbCmd? ==> OnCommand(p, cmd, written) == InsertUrb(p.(taken := p.taken + 1), cmd.urb.seqNum, p.taken)
    ensures cmd.UnlinkCmd? ==> OnCommand(p, cmd, written) == InsertUnlink(p.(taken := p.taken + 1), cmd.seqNum, p.taken)
    ensures cmd.ControlCmd? ==>
              var q := p.(taken := p.taken + 1, controls := p.controls + [p.taken]);
              OnCommand(p, cmd, written) == if written then q else PopControl(q, WriteFailed)
  {
  }

  lemma OnCommandOnce(p: Pump, cmd: Request, written: bool)
    requires OnceEach(p)
    ensures OnceEach(OnCommand(p, cmd, written))
  {
    OnCommandKinds(p, cmd, written);
    match cmd
    case ControlCmd(_) => InsertControlOnce(p, written, p.(taken := p.taken + 1, controls := p.controls + [p.taken]));
    case UrbCmd(urb) => InsertUrbOnce(p, urb.seqNum);
    case UnlinkCmd(s, _) => InsertUnlinkOnce(p, s);
  }

  lemma OnMessageOnce(p: Pump, msg: Message)
    requires OnceEach(p)
    ensures OnceEach(OnMessage(p, msg))
  {
    match msg
    case CompleteUrb(c) =>
      if c.seqNum in p.urbs {
        ResolveUrb(p, c.seqNum, Answer(msg), OnMessage(p, msg));
      }
    case UrbUnlinked(seqNum, _) =>
      if seqNum in p.unlinks {
        ResolveUnlink(p, seqNum, Answer(msg), OnMessage(p, msg));
      }
    case _ => PopControlOnce(p, Answer(msg));
  }

  // ---------------------------------------------------------------- who is told what

  /**
   A command that is written tells nobody anything, unless it reuses a number in flight, which closes
   the channel of the caller it displaces; a control message that cannot be written is reported to the
   caller who has waited longest, which is its own only if nobody else waits.
   */
  lemma CommandTells(p: Pump, cmd: Request, written: bool)
    ensures var told := OnCommand(p, cmd, written).resolved;
            match cmd
            case ControlCmd(_) =>
              if written then told == p.resolved
              else told == p.resolved + [Resolution(if p.controls == [] then p.taken else p.controls[0], WriteFailed)]
            case UrbCmd(urb) => told == p.resolved + if urb.seqNum in p.urbs then [Resolution(p.urbs[urb.seqNum], Closed)] else []
            case UnlinkCmd(s, _) => told == p.resolved + if s in p.unlinks then [Resolution(p.unlinks[s], Closed)] else []
  {
  }

  /** An event that ends the loop is the last that counts, and the loop goes on through all others. */
  lemma {:induction false} LoopStops(p: Pump, before: seq<Event>, last: Event, after: seq<Event>)
    requires forall i :: 0 <= i < |before| ==> before[i].Incoming? || (before[i].Take? && before[i].written)
    requires last.NoMoreCommands? || last.ReadFailed? || (last.Take? && !last.written)
    ensures Loop(p, before + [last] + after) == OnEvent(Loop(p, before), last)
    decreases |before|
  {
    var events := before + [last] + after;
    if before != [] {
      LoopStops(OnEvent(p, before[0]), before[1..], last, after);
      assert events[1..] == before[1..] + [last] + after;
    }
  }

  // ---------------------------------------------------------------- the pump as an object

  /** One turn of the `select!` loop; `written` says whether the write succeeded. */
  datatype Event =
    | Take(cmd: Request, written: bool)
    | NoMoreCommands
    | Incoming(msg: Message)
    | ReadFailed

  /** Whether the loop ends with this event. */
  predicate Breaks(e: Event) {
    e.NoMoreCommands? || e.ReadFailed? || (e.Take? && !e.written)
  }

  function OnEvent(p: Pump, e: Event): Pump {
    match e
    case Take(cmd, written) => OnCommand(p, cmd, written)
    case Incoming(msg) => OnMessage(p, msg)
    case _ => p
  }

  /** The loop, from the first event to the one that breaks it. */
  function Loop(p: Pump, events: seq<Event>): Pump
    decreases |events|
  {
    if events == [] then p
    else if Breaks(events[0]) then OnEvent(p, events[0])
    else Loop(OnEvent(p, events[0]), events[1..])
  }

  lemma {:induction false} LoopOnce(p: Pump, events: seq<Event>)
    requires OnceEach(p)
    ensures OnceEach(Loop(p, events))
    decreases |events|
  {
    if events != [] {
      match events[0] {
        case Take(cmd, written) => OnCommandOnce(p, cmd, written);
        case Incoming(msg) => OnMessageOnce(p, msg);
        case _ =>
      }
      if !Breaks(events[0]) {
        LoopOnce(OnEvent(p, events[0]), events[1..]);
      }
    }
  }

  class ClientPump {
    var taken: nat
    var pendingUrbs: map<u32, nat>
    var pendingUnlinks: map<u32, nat>
    var controlReplies: seq<nat>
    var resolved: seq<Resolution>

    ghost function Model(): Pump
      reads this
    {
      Pump(taken, pendingUrbs, pendingUnlinks, controlReplies, resolved)
    }

    constructor ()
      ensures Model() == IDLE
    {
      taken, pendingUrbs, pendingUnlinks, controlReplies, resolved := 0, map[], map[], [], [];
    }

    method Send(waiter: nat, outcome: Outcome)
      modifies this`resolved
      ensures resolved == old(resolved) + [Resolution(waiter, outcome)]
    {
      resolved := resolved + [Resolution(waiter, outcome)];
    }

    method PopFront(outcome: Outcome)
      modifies this`resolved, this`controlReplies
      ensures Model() == PopControl(old(Model()), outcome)
    {
      if controlReplies != [] {
        Send(controlReplies[0], outcome);
        controlReplies := controlReplies[1..];
      }
    }

    method HandleCommand(cmd: Request, written: bool) returns (goOn: bool)
      modifies this
      ensures Model() == OnCommand(old(Model()), cmd, written) && goOn == written
    {
      var waiter := taken;
      taken := taken + 1;
      match cmd {
        case ControlCmd(msg) =>
          controlReplies := controlReplies + [waiter];
          if !written {
            PopFront(WriteFailed);
          }
        case UrbCmd(urb) =>
          if urb.seqNum in pendingUrbs {
            Send(pendingUrbs[urb.seqNum], Closed);
          }
          pendingUrbs := pendingUrbs[urb.seqNum := waiter];
        case UnlinkCmd(seqNum, id) =>
          if seqNum in pendingUnlinks {
            Send(pendingUnlinks[seqNum], Closed);
          }
          pendingUnlinks := pendingUnlinks[seqNum := waiter];
      }
      return written;
    }

    method HandleMessage(msg: Message)
      modifies this
      ensures Model() == OnMessage(old(Model()), msg)
    {
      match msg {
        case CompleteUrb(c) =>
          if c.seqNum in pendingUrbs {
            Send(pendingUrbs[c.seqNum], Answer(msg));
            pendingUrbs := pendingUrbs - {c.seqNum};
          }
        case UrbUnlinked(seqNum, _) =>
          if seqNum in pendingUnlinks {
            Send(pendingUnlinks[seqNum], Answer(msg));
            pendingUnlinks := pendingUnlinks - {seqNum};
          }
        case _ => PopFront(Answer(msg));
      }
    }

    /** What every loop of the shutdown keeps: it only adds resolutions, and each says that the channel is closed. */
    twostate predicate OnlyCloses()
      reads this
    {
      && OnceEach(Model()) && taken == old(taken) && old(resolved) <= resolved
      && forall i :: |old(resolved)| <= i < |resolved| ==> resolved[i].outcome == Closed
    }

    method CloseControls()
      requires OnceEach(Model())
      modifies this`resolved, this`controlReplies
      ensures OnlyCloses() && controlReplies == []
    {
      while controlReplies != []
        invariant OnlyCloses()
        decreases |controlReplies|
      {
        PopControlOnce(Model(), Closed);
        PopFront(Closed);
      }
    }

    method CloseUrbs()
      requires OnceEach(Model())
      modifies this`resolved, this`pendingUrbs
      ensures OnlyCloses() && pendingUrbs == map[]
    {
      while pendingUrbs != map[]
        invariant OnlyCloses()
        decreases |pendingUrbs|
      {
        var s :| s in pendingUrbs;
        ghost var p := Model();
        Send(pendingUrbs[s], Closed);
        pendingUrbs := pendingUrbs - {s};
        ResolveUrb(p, s, Closed, Model());
      }
    }

    method CloseUnlinks()
      requires OnceEach(Model())
      modifies this`resolved, this`pendingUnlinks
      ensures OnlyCloses() && pendingUnlinks == map[]
    {
      while pendingUnlinks != map[]
        invariant OnlyCloses()
        decreases |pendingUnlinks|
      {
        var s :| s in pendingUnlinks;
        ghost var p := Model();
        Send(pendingUnlinks[s], Closed);
        pendingUnlinks := pendingUnlinks - {s};
        ResolveUnlink(p, s, Closed, Model());
      }
    }

    /** The three loops after the main one: every caller still waiting is told that the channel is closed. */
    method Shutdown()
      requires OnceEach(Model())
      modifies this
      ensures OnlyCloses() && controlReplies == [] && pendingUrbs == map[] && pendingUnlinks == map[]
    {
      CloseControls();
      CloseUrbs();
      CloseUnlinks();
    }

    /** `run_client_pump`: afterwards nobody waits, and every command taken was resolved exactly once. */
    method RunPump(events: seq<Event>)
      requires Model() == IDLE
      modifies this
      ensures taken == Loop(IDLE, events).taken && Loop(IDLE, events).resolved <= resolved
      ensures controlReplies == [] && pendingUrbs == map[] && pendingUnlinks == map[]
      ensures forall w: nat :: w < taken ==> Times(WaiterOf, resolved, w) == 1
      ensures forall w: nat :: w >= taken ==> Times(WaiterOf, resolved, w) == 0
    {
      var i, goOn := 0, true;
      while goOn && i < |events|
        invariant 0 <= i <= |events|
        invariant Loop(IDLE, events) == if goOn then Loop(Model(), events[i..]) else Model()
        decreases |events| - i
      {
        match events[i] {
          case Take(cmd, written) => goOn := HandleCommand(cmd, written);
          case NoMoreCommands => goOn := false;
          case Incoming(msg) => HandleMessage(msg);
          case ReadFailed => goOn := false;
        }
        i := i + 1;
      }
      LoopOnce(IDLE, events);
      Shutdown();
      forall w: nat ensures Times(WaiterOf, resolved, w) == if w < taken then 1 else 0 {
        CallerSeesOne(Model(), w);
      }
    }
  }

  /**
   Whenever the pump stops, by itself or aborted by a reconnect, a caller has been resolved once or
   still waits, and then sees its dropped channel as closed; never both.
   */
  lemma CallerSeesOne(p: Pump, w: nat)
    requires OnceEach(p)
    ensures Times(WaiterOf, p.resolved, w) + (if Waits(p, w) then 1 else 0) == if w < p.taken then 1 else 0
  {
    TimesDistinct(WaiterOf, p.resolved, w);
    if w in p.urbs.Values {
      var s :| s in p.urbs && p.urbs[s] == w;
      assert w !in Waiters(p.resolved);
    }
    if w in p.unlinks.Values {
      var s :| s in p.unlinks && p.unlinks[s] == w;
      assert w !in Waiters(p.resolved);
    }
  }
}
