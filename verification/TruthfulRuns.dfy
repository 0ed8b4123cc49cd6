/** Replies tell the truth in every run. */
module TruthfulRuns {
  import opened Results
  import opened Bytes
  import opened Messages
  import opened Lease
  import opened Inventory
  import opened Server
  import opened ServerSession
  import opened ServerWorld
  import opened ServerRuns
  import opened ServerTrace
  import opened Truthful
  import Provenance

  // ---------------------------------------------------------------- what the phases know, at every step

  /** A step of someone else neither takes tokens back nor changes the inventory under a reader's lock. */
  lemma KnowsStill(before: Shared, after: Shared, s: Session)
    requires Informed(before, s) && Provenance.TokensKept(before.tokens, after.tokens)
    requires CarriesIds(after.inv) && (s.phase.AttachLease? ==> after.inv == before.inv)
    ensures Informed(after, s)
  {
  }

  lemma SectionInformed(config: Config, sh: Shared, s: Session, a: Action)
    requires a.Section? && Ready(sh, s, a.token) && Informed(sh, s)
    ensures Informed(NextShared(sh, s.phase, a.drawn, a.token), NextSession(s, NextPhase(config, sh, s, a.drawn, a.token)))
  {
    var next, after := NextPhase(config, sh, s, a.drawn, a.token), NextShared(sh, s.phase, a.drawn, a.token);
    SectionActs(config, sh, s, a);
    SectionKnows(config, sh, s, a);
    Provenance.NextSessionAuthority(s, next, NextSession(s, next));
    Provenance.SectionTokens(sh, s, a);
    if s.phase.Sending? || s.phase.UrbSlot? {
      assert PhaseKnows(after, s.phase);
    } else {
      NextSessionPhase(s, next);
    }
  }

  lemma MoveInformed(config: Config, sh: Shared, s: Session, a: Action)
    requires Enabled(sh, s, a) && Informed(sh, s)
    ensures Informed(SharedAfter(sh, s, a), SessionAfter(config, sh, s, a))
  {
    match a
    case Receive(_, _, _) =>
    case Section(_, _, _) => SectionInformed(config, sh, s, a);
    case Progress(_, o, answer) =>
      var t := TaskStep(config, sh, s, o, answer);
      assert t.phase == s.phase && t.principal == s.principal;
    case Eof(_) =>
    case Stop(_) =>
    case End(_) =>
  }

  lemma ReadLockKeepsInventory(w: World, a: Action, sid: nat)
    requires sid in w.sessions && w.sessions[sid].phase.AttachLease?
    ensures Apply(w, a).shared.inv == w.shared.inv
  {
    InventoryStep(w, a);
  }

  lemma SessionInformed(r: Run, n: nat, sid: nat)
    requires IsRun(r) && n < |r.actions| && sid in r.states[n + 1].sessions
    requires sid in r.states[n].sessions ==> Informed(r.states[n].shared, r.states[n].sessions[sid])
    requires CarriesIds(r.states[n + 1].shared.inv)
    ensures Informed(r.states[n + 1].shared, r.states[n + 1].sessions[sid])
  {
    var w, a := r.states[n], r.actions[n];
    HowSessionsChange(r, n, sid);
    assert StepAt(r, n);
    if sid in w.sessions {
      if Moves(r, n, sid) {
        TakenStep(w, a);
        MoveInformed(w.config, w.shared, w.sessions[sid], a);
      } else {
        Provenance.StepTokensKept(w, a);
        if w.sessions[sid].phase.AttachLease? {
          ReadLockKeepsInventory(w, a, sid);
        }
        KnowsStill(w.shared, r.states[n + 1].shared, w.sessions[sid]);
      }
    }
  }

  /** In every state of every run, present devices carry their ids. */
  lemma {:induction false} RunCarries(r: Run, devices: seq<LocalDevice>, n: nat)
    requires IsRun(r) && BootedWith(r.states[0], devices) && n < |r.states|
    ensures CarriesIds(InvAt(r, n))
  {
    if n == 0 {
      NewCarries(devices);
    } else {
      RunCarries(r, devices, n - 1);
      assert StepAt(r, n - 1);
      InventoryStep(r.states[n - 1], r.actions[n - 1]);
      if Refreshes(r.states[n - 1], r.actions[n - 1]) {
        RefreshCarries(InvAt(r, n - 1), r.actions[n - 1].scan);
      }
    }
  }

  lemma {:induction false} RunInformed(r: Run, devices: seq<LocalDevice>, n: nat, sid: nat)
    requires IsRun(r) && BootedWith(r.states[0], devices) && n < |r.states| && sid in r.states[n].sessions
    ensures Informed(r.states[n].shared, r.states[n].sessions[sid])
  {
    if n > 0 {
      if sid in r.states[n - 1].sessions {
        RunInformed(r, devices, n - 1, sid);
      }
      RunCarries(r, devices, n);
      SessionInformed(r, n - 1, sid);
    }
  }

  // ---------------------------------------------------------------- where a reply was settled

  /** At step `g`, the token check of submission `o`, every token of the principal has expired. */
  ghost predicate InactiveAt(r: Run, g: nat, sid: nat, o: nat) {
    && Working(r, g, sid, o) && Acts(r, g, sid) && r.states[g].sessions[sid].phase.UrbTokens?
    && r.states[g].sessions[sid].principal.Some?
    && forall t :: t in r.states[g].shared.tokens && Some(r.states[g].shared.tokens[t].owner) == r.states[g].sessions[sid].principal
                   ==> r.states[g].shared.tokens[t].expires < r.states[g].shared.clock
  }

  ghost predicate FoundInactive(r: Run, n: nat, sid: nat, o: nat) {
    exists g: nat :: g < n && InactiveAt(r, g, sid, o)
  }

  /** Step `i` settles the reply to request `o`, which is true there. */
  ghost predicate Settled(r: Run, i: nat, sid: nat, o: nat, reply: Message) {
    && Working(r, i, sid, o) && Acts(r, i, sid) && i + 1 < |r.states|
    && TrueReply(r.states[i].config, r.states[i].shared, r.states[i + 1].shared.leases, r.states[i].sessions[sid],
                 r.states[i].sessions[sid].received[o], reply, FoundInactive(r, i, sid, o))
  }

  /** Step `i` sends a reply that the request and the announced peer settle by themselves. */
  ghost predicate SettledAtOnce(r: Run, i: nat, sid: nat, o: nat, reply: Message) {
    && Working(r, i, sid, o) && Acts(r, i, sid)
    && Immediate(r.states[i].config, r.states[i].sessions[sid].peer, r.states[i].sessions[sid].received[o], reply)
  }

  /** In state `i` a task holds the completion as its result. */
  ghost predicate FromTask(r: Run, i: nat, sid: nat, o: nat, reply: Message) {
    && i < |r.states| && sid in r.states[i].sessions && o in r.states[i].sessions[sid].tasks
    && r.states[i].sessions[sid].tasks[o].stage.Unsent?
    && reply == CompleteUrb(r.states[i].sessions[sid].tasks[o].stage.result)
  }

  /** Step `g` finds the token of request `o` valid. */
  ghost predicate Gate(r: Run, g: nat, sid: nat, o: nat) {
    && Working(r, g, sid, o) && Acts(r, g, sid) && r.states[g].sessions[sid].phase.CheckToken?
    && Bears(r.states[g].sessions[sid].received[o], r.states[g].sessions[sid].phase.token)
    && TokenValid(r.states[g].shared, r.states[g].sessions[sid], r.states[g].sessions[sid].phase.token)
  }

  ghost predicate Gated(r: Run, n: nat, sid: nat, o: nat) {
    exists g: nat :: g < n && Gate(r, g, sid, o)
  }

  /** The replies that only the bearer of a valid token gets. */
  predicate NeedsToken(reply: Message) {
    reply.DeviceList? || reply.AttachResponse? || reply.Detach? || (reply.Error? && reply.code == NotFound)
  }

  predicate PhaseNeedsToken(phase: Phase) {
    match phase
    case SetPrincipal(_, _) => true
    case ListDevices => true
    case AttachLookup(_, _) => true
    case AttachLease(_, _, _) => true
    case DetachLease(_, _) => true
    case Sending(reply) => NeedsToken(reply)
    case _ => false
  }

  ghost predicate HasSettled(r: Run, n: nat, sid: nat, o: nat, reply: Message) {
    exists i: nat :: i < n && Settled(r, i, sid, o, reply)
  }

  /** What is known of the reply about to be sent, and of the right to get as far. */
  ghost predicate PhaseTrue(r: Run, n: nat, sid: nat, s: Session) {
    && (PhaseNeedsToken(s.phase) ==> Gated(r, n, sid, Handled(s)))
    && (FlaggedInactive(s.phase) ==> FoundInactive(r, n, sid, Handled(s)))
    && (s.phase.Sending? && s.received != [] ==>
          || HasSettled(r, n, sid, Handled(s), s.phase.reply)
          || (n < |r.states| && Immediate(r.states[n].config, s.peer, s.received[|s.received| - 1], s.phase.reply)))
  }

  /** A reply sent was settled truly by a section, settled at once, or came from a task; and its token was valid if it needs one. */
  ghost predicate ReplyTrue(r: Run, n: nat, sid: nat, e: Reply) {
    && (exists i: nat :: i < n &&
          (Settled(r, i, sid, e.origin, e.msg) || SettledAtOnce(r, i, sid, e.origin, e.msg) || FromTask(r, i, sid, e.origin, e.msg)))
    && (NeedsToken(e.msg) ==> Gated(r, n, sid, e.origin))
  }

  ghost predicate OutTrue(r: Run, n: nat, sid: nat, out: seq<Reply>) {
    forall k :: 0 <= k < |out| ==> ReplyTrue(r, n, sid, out[k])
  }

  lemma GatedLater(r: Run, n: nat, sid: nat, o: nat)
    requires Gated(r, n, sid, o)
    ensures Gated(r, n + 1, sid, o)
  {
    var g: nat :| g < n && Gate(r, g, sid, o);
    assert g < n + 1;
  }

  lemma FoundInactiveLater(r: Run, n: nat, sid: nat, o: nat)
    requires FoundInactive(r, n, sid, o)
    ensures FoundInactive(r, n + 1, sid, o)
  {
    var g: nat :| g < n && InactiveAt(r, g, sid, o);
    assert g < n + 1;
  }

  lemma ReplyTrueLater(r: Run, n: nat, sid: nat, e: Reply)
    requires ReplyTrue(r, n, sid, e)
    ensures ReplyTrue(r, n + 1, sid, e)
  {
    var i: nat :| i < n &&
      (Settled(r, i, sid, e.origin, e.msg) || SettledAtOnce(r, i, sid, e.origin, e.msg) || FromTask(r, i, sid, e.origin, e.msg));
    assert i < n + 1;
    if NeedsToken(e.msg) {
      GatedLater(r, n, sid, e.origin);
    }
  }

  lemma OutTrueLater(r: Run, n: nat, sid: nat, out: seq<Reply>)
    requires OutTrue(r, n, sid, out)
    ensures OutTrue(r, n + 1, sid, out)
  {
    forall k | 0 <= k < |out| ensures ReplyTrue(r, n + 1, sid, out[k]) {
      ReplyTrueLater(r, n, sid, out[k]);
    }
  }

  // ---------------------------------------------------------------- sections

  /** Beyond the token check, only phases that needed a token lead to phases that need one. */
  lemma TokenNeeded(config: Config, sh: Shared, s: Session, a: Action)
    requires a.Section? && !s.phase.CheckToken? && !PhaseNeedsToken(s.phase) && !s.phase.Sending?
    ensures !PhaseNeedsToken(NextPhase(config, sh, s, a.drawn, a.token))
  {
  }

  lemma CheckedToken(config: Config, sh: Shared, s: Session, a: Action)
    requires a.Section? && s.phase.CheckToken? && PhaseNeedsToken(NextPhase(config, sh, s, a.drawn, a.token))
    ensures TokenValid(sh, s, s.phase.token)
  {
  }

  lemma SectionGated(r: Run, n: nat, sid: nat, sh: Shared, s: Session, a: Action, next: Phase, o: nat)
    requires Working(r, n, sid, o) && Acts(r, n, sid) && s == r.states[n].sessions[sid] && sh == r.states[n].shared
    requires a == r.actions[n] && next == NextPhase(r.states[n].config, sh, s, a.drawn, a.token) && !s.phase.Sending?
    requires Handles(s.phase, s.received[o]) && (PhaseNeedsToken(s.phase) ==> Gated(r, n, sid, o)) && PhaseNeedsToken(next)
    ensures Gated(r, n + 1, sid, o)
  {
    if s.phase.CheckToken? {
      CheckedToken(r.states[n].config, sh, s, a);
      assert Gate(r, n, sid, o);
    } else if PhaseNeedsToken(s.phase) {
      GatedLater(r, n, sid, o);
    } else {
      TokenNeeded(r.states[n].config, sh, s, a);
    }
  }

  lemma SameConfig(r: Run, n: nat)
    requires IsRun(r) && n < |r.actions|
    ensures r.states[n + 1].config == r.states[n].config
  {
    assert StepAt(r, n);
    if Taken(r.states[n], r.actions[n]) {
      TakenStep(r.states[n], r.actions[n]);
    } else {
      UntakenStep(r.states[n], r.actions[n]);
    }
  }

  lemma HasSettledLater(r: Run, n: nat, sid: nat, o: nat, reply: Message)
    requires HasSettled(r, n, sid, o, reply)
    ensures HasSettled(r, n + 1, sid, o, reply)
  {
    var i: nat :| i < n && Settled(r, i, sid, o, reply);
    assert i < n + 1;
  }

  lemma PhaseTrueLater(r: Run, n: nat, sid: nat, s: Session)
    requires PhaseTrue(r, n, sid, s) && n + 1 < |r.states| && r.states[n + 1].config == r.states[n].config
    ensures PhaseTrue(r, n + 1, sid, s)
  {
    if PhaseNeedsToken(s.phase) {
      GatedLater(r, n, sid, Handled(s));
    }
    if FlaggedInactive(s.phase) {
      FoundInactiveLater(r, n, sid, Handled(s));
    }
    if s.phase.Sending? && s.received != [] && HasSettled(r, n, sid, Handled(s), s.phase.reply) {
      HasSettledLater(r, n, sid, Handled(s), s.phase.reply);
    }
  }

  lemma RefusalFounded(config: Config, sh: Shared, after: Leases, s: Session, request: Message, reply: Message, flagged: bool, found: bool)
    requires TrueReply(config, sh, after, s, request, reply, flagged) && (flagged ==> found)
    ensures TrueReply(config, sh, after, s, request, reply, found)
  {
  }

  /** A section of the token check that finds no active token is on record. */
  lemma InactiveRecorded(r: Run, n: nat, sid: nat, sh: Shared, s: Session, a: Action, next: Phase, o: nat)
    requires Working(r, n, sid, o) && Acts(r, n, sid) && s == r.states[n].sessions[sid] && sh == r.states[n].shared
    requires a == r.actions[n] && next == NextPhase(r.states[n].config, sh, s, a.drawn, a.token) && ActsAsPrincipal(s)
    requires FlaggedInactive(next) && !FlaggedInactive(s.phase) && Handles(s.phase, s.received[o])
    ensures FoundInactive(r, n + 1, sid, o)
  {
    FlagIsNew(r.states[n].config, sh, s, a);
    assert InactiveAt(r, n, sid, o);
  }

  lemma FlagIsNew(config: Config, sh: Shared, s: Session, a: Action)
    requires a.Section? && FlaggedInactive(NextPhase(config, sh, s, a.drawn, a.token)) && !FlaggedInactive(s.phase)
    ensures s.phase.UrbTokens? && !Active(sh.tokens, s.phase.owner, sh.clock)
  {
  }

  lemma FlagIsLast(config: Config, sh: Shared, s: Session, a: Action)
    requires a.Section? && FlaggedInactive(s.phase)
    ensures !FlaggedInactive(NextPhase(config, sh, s, a.drawn, a.token))
  {
  }

  lemma SectionSettles(r: Run, n: nat, sid: nat, sh: Shared, s: Session, a: Action, next: Phase, o: nat)
    requires Working(r, n, sid, o) && Acts(r, n, sid) && s == r.states[n].sessions[sid] && sh == r.states[n].shared
    requires a == r.actions[n] && next == NextPhase(r.states[n].config, sh, s, a.drawn, a.token) && next.Sending?
    requires !s.phase.Sending? && !s.phase.UrbSlot? && Handles(s.phase, s.received[o]) && Informed(sh, s) && Ready(sh, s, a.token)
    requires FlaggedInactive(s.phase) ==> FoundInactive(r, n, sid, o)
    requires n + 1 < |r.states| && r.states[n + 1].shared == NextShared(sh, s.phase, a.drawn, a.token)
    ensures HasSettled(r, n + 1, sid, o, next.reply)
  {
    var after := r.states[n + 1].shared.leases;
    SectionReplies(r.states[n].config, sh, s, a, s.received[o], next, after);
    RefusalFounded(r.states[n].config, sh, after, s, s.received[o], next.reply, FlaggedInactive(s.phase), FoundInactive(r, n, sid, o));
    assert Settled(r, n, sid, o, next.reply);
  }

  lemma SectionFlags(r: Run, n: nat, sid: nat, sh: Shared, s: Session, a: Action, next: Phase, o: nat)
    requires Working(r, n, sid, o) && Acts(r, n, sid) && s == r.states[n].sessions[sid] && sh == r.states[n].shared
    requires a == r.actions[n] && next == NextPhase(r.states[n].config, sh, s, a.drawn, a.token) && ActsAsPrincipal(s)
    requires FlaggedInactive(next) && Handles(s.phase, s.received[o])
    ensures FoundInactive(r, n + 1, sid, o)
  {
    if FlaggedInactive(s.phase) {
      FlagIsLast(r.states[n].config, sh, s, a);
    } else {
      InactiveRecorded(r, n, sid, sh, s, a, next, o);
    }
  }

  lemma PhaseTrueFrom(r: Run, n: nat, sid: nat, t: Session, o: nat)
    requires o == Handled(t)
    requires PhaseNeedsToken(t.phase) ==> Gated(r, n, sid, o)
    requires FlaggedInactive(t.phase) ==> FoundInactive(r, n, sid, o)
    requires t.phase.Sending? ==> HasSettled(r, n, sid, o, t.phase.reply)
    ensures PhaseTrue(r, n, sid, t)
  {
  }

  /** The reader goes on with its request in step `n`. */
  lemma ContinuesTrue(r: Run, n: nat, sid: nat, sh: Shared, s: Session, t: Session, a: Action, next: Phase)
    requires n + 1 < |r.states| && sid in r.states[n].sessions && s == r.states[n].sessions[sid] && sh == r.states[n].shared
    requires Acts(r, n, sid) && a == r.actions[n] && Ready(sh, s, a.token) && Continues(s, t) && t.phase == next
    requires next == NextPhase(r.states[n].config, sh, s, a.drawn, a.token) && !s.phase.Sending? && !s.phase.UrbSlot?
    requires PhaseBelongs(s) && Informed(sh, s) && PhaseTrue(r, n, sid, s)
    requires r.states[n + 1].shared == NextShared(sh, s.phase, a.drawn, a.token)
    ensures PhaseTrue(r, n + 1, sid, t)
  {
    var o := Handled(s);
    if PhaseNeedsToken(next) {
      SectionGated(r, n, sid, sh, s, a, next, o);
    }
    if FlaggedInactive(next) {
      SectionFlags(r, n, sid, sh, s, a, next, o);
    }
    if next.Sending? {
      SectionSettles(r, n, sid, sh, s, a, next, o);
    }
    PhaseTrueFrom(r, n + 1, sid, t, o);
  }

  lemma QuietTrue(r: Run, n: nat, sid: nat, t: Session)
    requires t.phase.Idle? || t.phase.Draining? || t.phase.Stopped? || t.phase.Ended?
    ensures PhaseTrue(r, n, sid, t)
  {
  }

  lemma ReaderTrue(r: Run, n: nat, sid: nat, sh: Shared, s: Session, t: Session, a: Action, next: Phase)
    requires n + 1 < |r.states| && sid in r.states[n].sessions && s == r.states[n].sessions[sid] && sh == r.states[n].shared
    requires Acts(r, n, sid) && a == r.actions[n] && Ready(sh, s, a.token) && Shaped(s, t, a)
    requires next == NextPhase(r.states[n].config, sh, s, a.drawn, a.token) && t == NextSession(s, next)
    requires PhaseBelongs(s) && Informed(sh, s) && PhaseTrue(r, n, sid, s)
    requires r.states[n + 1].shared == NextShared(sh, s.phase, a.drawn, a.token)
    ensures PhaseTrue(r, n + 1, sid, t)
  {
    if s.phase.UrbSlot? || s.phase.Sending? {
      FinishedPhase(s, t, a);
      QuietTrue(r, n + 1, sid, t);
    } else {
      NextSessionPhase(s, next);
      ContinuesTrue(r, n, sid, sh, s, t, a, next);
    }
  }

  lemma BeginNeedsNoToken(config: Config, s: Session, a: Action)
    requires a.Receive?
    ensures !PhaseNeedsToken(Begin(config, s.peer, a.msg, a.debug)) && !FlaggedInactive(Begin(config, s.peer, a.msg, a.debug))
  {
  }

  lemma ReceiveTrue(r: Run, n: nat, sid: nat, s: Session, a: Action)
    requires n + 1 < |r.states| && r.states[n + 1].config == r.states[n].config
    requires a.Receive? && Enabled(r.states[n].shared, s, a)
    ensures PhaseTrue(r, n + 1, sid, SessionAfter(r.states[n].config, r.states[n].shared, s, a))
  {
    BeginNeedsNoToken(r.states[n].config, s, a);
    BeginReplies(r.states[n].config, s, a);
  }

  // ---------------------------------------------------------------- replies sent

  lemma SendSettled(r: Run, n: nat, sid: nat, s: Session, o: nat, reply: Message)
    requires n < |r.states| && sid in r.states[n].sessions && s == r.states[n].sessions[sid] && Acts(r, n, sid)
    requires s.phase == Sending(reply) && |s.received| == o + 1
    requires HasSettled(r, n, sid, o, reply) || Immediate(r.states[n].config, s.peer, s.received[o], reply)
    ensures exists i: nat :: i < n + 1 && (Settled(r, i, sid, o, reply) || SettledAtOnce(r, i, sid, o, reply))
  {
    if HasSettled(r, n, sid, o, reply) {
      var i: nat :| i < n && Settled(r, i, sid, o, reply);
      assert i < n + 1;
    } else {
      assert SettledAtOnce(r, n, sid, o, reply);
    }
  }

  lemma SendTrue(r: Run, n: nat, sid: nat, s: Session)
    requires n < |r.states| && sid in r.states[n].sessions && s == r.states[n].sessions[sid] && Acts(r, n, sid)
    requires s.phase.Sending? && s.received != [] && PhaseTrue(r, n, sid, s)
    ensures ReplyTrue(r, n + 1, sid, Reply(s.phase.reply, |s.received| - 1))
  {
    var o, reply := |s.received| - 1, s.phase.reply;
    SendSettled(r, n, sid, s, o, reply);
    if NeedsToken(reply) {
      GatedLater(r, n, sid, o);
    }
  }

  lemma DeliverTrue(r: Run, n: nat, sid: nat, s: Session, o: nat)
    requires n < |r.states| && sid in r.states[n].sessions && s == r.states[n].sessions[sid]
    requires o in s.tasks && s.tasks[o].stage.Unsent?
    ensures ReplyTrue(r, n + 1, sid, Reply(CompleteUrb(s.tasks[o].stage.result), o))
  {
    assert FromTask(r, n, sid, o, CompleteUrb(s.tasks[o].stage.result));
  }

  lemma OutTrueLast(r: Run, n: nat, sid: nat, out: seq<Reply>, e: Reply)
    requires OutTrue(r, n, sid, out) && ReplyTrue(r, n, sid, e)
    ensures OutTrue(r, n, sid, out + [e])
  {
  }

  lemma MoveOutTrue(r: Run, n: nat, sid: nat, s: Session, t: Session, a: Action)
    requires n < |r.states| && sid in r.states[n].sessions && s == r.states[n].sessions[sid]
    requires Shaped(s, t, a) && (a.Section? ==> Acts(r, n, sid)) && PhaseTrue(r, n, sid, s) && OutTrue(r, n, sid, s.out)
    ensures OutTrue(r, n + 1, sid, t.out)
  {
    OutTrueLater(r, n, sid, s.out);
    if a.Section? && Replies(s, t) {
      SendTrue(r, n, sid, s);
      OutTrueLast(r, n + 1, sid, s.out, Reply(s.phase.reply, |s.received| - 1));
      assert OutTrue(r, n + 1, sid, t.out);
    } else if a.Progress? && Delivers(s, t, a.origin) && Live(s) {
      DeliverTrue(r, n, sid, s, a.origin);
      OutTrueLast(r, n + 1, sid, s.out, Reply(CompleteUrb(s.tasks[a.origin].stage.result), a.origin));
      assert OutTrue(r, n + 1, sid, t.out);
    } else {
      assert t.out == s.out;
    }
  }

  // ---------------------------------------------------------------- every run

  ghost predicate SessionTrue(r: Run, n: nat, sid: nat, s: Session) {
    PhaseTrue(r, n, sid, s) && OutTrue(r, n, sid, s.out)
  }

  lemma MovePhaseTrue(r: Run, n: nat, sid: nat, s: Session, t: Session, a: Action)
    requires IsRun(r) && Moves(r, n, sid) && sid in r.states[n].sessions && s == r.states[n].sessions[sid] && a == r.actions[n]
    requires Enabled(r.states[n].shared, s, a) && t == SessionAfter(r.states[n].config, r.states[n].shared, s, a)
    requires PhaseBelongs(s) && Informed(r.states[n].shared, s) && PhaseTrue(r, n, sid, s)
    ensures PhaseTrue(r, n + 1, sid, t)
  {
    var config, sh := r.states[n].config, r.states[n].shared;
    SameConfig(r, n);
    if a.Section? {
      StepShaped(config, sh, s, a);
      assert StepAt(r, n);
      TakenStep(r.states[n], a);
      ReaderTrue(r, n, sid, sh, s, t, a, NextPhase(config, sh, s, a.drawn, a.token));
    } else if a.Receive? {
      ReceiveTrue(r, n, sid, s, a);
    } else if a.Progress? {
      assert t.phase == s.phase && t.peer == s.peer && t.received == s.received;
      PhaseTrueLater(r, n, sid, s);
    } else {
      QuietTrue(r, n + 1, sid, t);
    }
  }

  lemma StepTrue(r: Run, devices: seq<LocalDevice>, n: nat, sid: nat, s: Session, t: Session)
    requires IsRun(r) && BootedWith(r.states[0], devices) && n < |r.actions|
    requires sid in r.states[n].sessions && sid in r.states[n + 1].sessions
    requires s == r.states[n].sessions[sid] && t == r.states[n + 1].sessions[sid] && SessionTrue(r, n, sid, s)
    ensures SessionTrue(r, n + 1, sid, t)
  {
    HowSessionsChange(r, n, sid);
    SameConfig(r, n);
    if Moves(r, n, sid) {
      RunSessionsOk(r, n);
      RunInformed(r, devices, n, sid);
      StepShaped(r.states[n].config, r.states[n].shared, s, r.actions[n]);
      MovePhaseTrue(r, n, sid, s, t, r.actions[n]);
      MoveOutTrue(r, n, sid, s, t, r.actions[n]);
    } else {
      PhaseTrueLater(r, n, sid, s);
      OutTrueLater(r, n, sid, s.out);
    }
  }

  lemma ConnectedTrue(r: Run, n: nat, sid: nat)
    ensures SessionTrue(r, n, sid, CONNECTED)
  {
  }

  lemma NextTrue(r: Run, devices: seq<LocalDevice>, n: nat, sid: nat)
    requires IsRun(r) && BootedWith(r.states[0], devices) && n < |r.actions| && sid in r.states[n + 1].sessions
    requires sid in r.states[n].sessions ==> SessionTrue(r, n, sid, r.states[n].sessions[sid])
    ensures SessionTrue(r, n + 1, sid, r.states[n + 1].sessions[sid])
  {
    if sid in r.states[n].sessions {
      StepTrue(r, devices, n, sid, r.states[n].sessions[sid], r.states[n + 1].sessions[sid]);
    } else {
      HowSessionsChange(r, n, sid);
      ConnectedTrue(r, n + 1, sid);
    }
  }

  lemma {:induction false} RunTrue(r: Run, devices: seq<LocalDevice>, n: nat, sid: nat)
    requires IsRun(r) && BootedWith(r.states[0], devices) && n < |r.states| && sid in r.states[n].sessions
    ensures SessionTrue(r, n, sid, r.states[n].sessions[sid])
  {
    if n > 0 {
      if sid in r.states[n - 1].sessions {
        RunTrue(r, devices, n - 1, sid);
      }
      NextTrue(r, devices, n - 1, sid);
    }
  }

  /**
   In every run, a reply sent was settled by a step of its own session, for its own request, at which
   what it says was true, or it came from a task; and a device list, an attach or detach reply or a
   missing device is told only after a step that found the request's token valid.
   */
  lemma RepliesAreTrue(r: Run, devices: seq<LocalDevice>, n: nat, sid: nat, e: Reply)
    requires IsRun(r) && BootedWith(r.states[0], devices) && n < |r.states|
    requires sid in r.states[n].sessions && e in r.states[n].sessions[sid].out
    ensures exists i: nat :: i < n &&
              (Settled(r, i, sid, e.origin, e.msg) || SettledAtOnce(r, i, sid, e.origin, e.msg) || FromTask(r, i, sid, e.origin, e.msg))
    ensures NeedsToken(e.msg) ==> exists g: nat :: g < n && Gate(r, g, sid, e.origin)
  {
    RunTrue(r, devices, n, sid);
    assert ReplyTrue(r, n, sid, e);
  }

  // ---------------------------------------------------------------- refusals

  /** What a session has received stays received. */
  lemma {:induction false} ReceivedStays(r: Run, devices: seq<LocalDevice>, i: nat, n: nat, sid: nat)
    requires IsRun(r) && BootedWith(r.states[0], devices) && i <= n < |r.states| && sid in r.states[i].sessions
    ensures sid in r.states[n].sessions && r.states[i].sessions[sid].received <= r.states[n].sessions[sid].received
    decreases n
  {
    if i < n {
      ReceivedStays(r, devices, i, n - 1, sid);
      RunSessionsOk(r, n - 1);
      assert StepAt(r, n - 1);
      SessionGrows(r.states[n - 1], r.actions[n - 1], sid);
    }
  }

  /** In state `i`, while request `o` is handled, the session has no principal or its principal does not lease the device. */
  ghost predicate WithoutLease(r: Run, i: nat, sid: nat, o: nat, device: DeviceId) {
    && Working(r, i, sid, o) && Acts(r, i, sid)
    && var s := r.states[i].sessions[sid];
       s.principal.None? || OwnerOf(r.states[i].shared.leases, device) != s.principal
  }

  lemma SettledRefusal(r: Run, i: nat, sid: nat, o: nat, urb: UrbSubmit)
    requires Settled(r, i, sid, o, CompleteUrb(Denied(urb.seqNum))) && r.states[i].sessions[sid].received[o] == SubmitUrb(urb)
    ensures WithoutLease(r, i, sid, o, urb.deviceId) || FoundInactive(r, i, sid, o)
  {
  }

  /**
   A submission refused with -13 and no data, unless a task says so, was refused because at some step
   of its handling the session had no principal, the principal did not lease the device, or the
   token check found no unexpired token of the principal's.
   */
  lemma RefusalsAreFounded(r: Run, devices: seq<LocalDevice>, n: nat, sid: nat, e: Reply, urb: UrbSubmit)
    requires IsRun(r) && BootedWith(r.states[0], devices) && n < |r.states|
    requires sid in r.states[n].sessions && e in r.states[n].sessions[sid].out && e.msg == CompleteUrb(Denied(urb.seqNum))
    requires e.origin < |r.states[n].sessions[sid].received| && r.states[n].sessions[sid].received[e.origin] == SubmitUrb(urb)
    ensures exists i: nat :: i < n &&
              (WithoutLease(r, i, sid, e.origin, urb.deviceId) || InactiveAt(r, i, sid, e.origin) || FromTask(r, i, sid, e.origin, e.msg))
  {
    RepliesAreTrue(r, devices, n, sid, e);
    var i: nat :| i < n &&
      (Settled(r, i, sid, e.origin, e.msg) || SettledAtOnce(r, i, sid, e.origin, e.msg) || FromTask(r, i, sid, e.origin, e.msg));
    if !FromTask(r, i, sid, e.origin, e.msg) {
      ReceivedStays(r, devices, i, n, sid);
      assert r.states[i].sessions[sid].received[e.origin] == SubmitUrb(urb);
      if Settled(r, i, sid, e.origin, e.msg) {
        SettledRefusal(r, i, sid, e.origin, urb);
        if !WithoutLease(r, i, sid, e.origin, urb.deviceId) {
          var g: nat :| g < i && InactiveAt(r, g, sid, e.origin);
          assert g < n;
        }
      }
    }
  }
}
