/**
 Where authority comes from: every principal and every lease owner holds a token issued by a
 successful pairing, in a session that had announced that same fingerprint.
 */
module Provenance {
  import opened Results
  import opened Bytes
  import Utf8
  import opened Messages
  import opened Lease
  import Identity
  import opened Inventory
  import opened Server
  import opened ServerSession
  import opened ServerRuns
  import opened ServerTrace

  /** Step `i` accepts a PIN in session `sid`, which has announced fingerprint `fp` and asks to pair under it. */
  ghost predicate PinAccepted(r: Run, i: nat, sid: nat, fp: Fingerprint) {
    && i < |r.states| && Acts(r, i, sid) && sid in r.states[i].sessions
    && r.states[i].sessions[sid].peer == Some(fp)
    && r.states[i].sessions[sid].phase.PairPin? && r.states[i].sessions[sid].phase.client == fp
    && Identity.Validate(r.states[i].shared.pin, r.states[i].shared.clock, r.states[i].sessions[sid].phase.pinHash,
                         r.actions[i].drawn).0
  }

  /** Before state `n`, session `sid` had the PIN of request `o` accepted under `fp`. */
  ghost predicate Accepted(r: Run, n: nat, sid: nat, o: nat, fp: Fingerprint) {
    exists i: nat :: i < n && PinAccepted(r, i, sid, fp) && Working(r, i, sid, o)
  }

  /** Step `j` issues token `t` to `fp`, for a pairing request whose PIN step `i` accepted in the same session. */
  ghost predicate Issues(r: Run, i: nat, j: nat, sid: nat, o: nat, fp: Fingerprint, t: Bytes32) {
    && i < j && PinAccepted(r, i, sid, fp) && Working(r, i, sid, o)
    && Working(r, j, sid, o) && Acts(r, j, sid) && r.states[j].sessions[sid].phase == PairToken(fp)
    && r.actions[j].token == t
  }

  ghost predicate Issued(r: Run, n: nat, fp: Fingerprint, t: Bytes32) {
    exists i: nat, j: nat, sid: nat, o: nat :: j < n && Issues(r, i, j, sid, o, fp, t)
  }

  ghost predicate HasToken(tokens: map<Bytes32, Grant>, fp: Fingerprint) {
    exists t :: t in tokens && tokens[t].owner == fp
  }

  /** Tokens are never taken back. */
  ghost predicate TokensKept(before: map<Bytes32, Grant>, after: map<Bytes32, Grant>) {
    forall t :: t in before ==> t in after && after[t] == before[t]
  }

  lemma HasTokenLater(tokens: map<Bytes32, Grant>, after: map<Bytes32, Grant>, fp: Fingerprint)
    requires HasToken(tokens, fp) && TokensKept(tokens, after)
    ensures HasToken(after, fp)
  {
    var t :| t in tokens && tokens[t].owner == fp;
    assert t in after;
  }

  lemma AcceptedLater(r: Run, n: nat, sid: nat, o: nat, fp: Fingerprint)
    requires Accepted(r, n, sid, o, fp)
    ensures Accepted(r, n + 1, sid, o, fp)
  {
    var i: nat :| i < n && PinAccepted(r, i, sid, fp) && Working(r, i, sid, o);
    assert i < n + 1;
  }

  lemma IssuedLater(r: Run, n: nat, fp: Fingerprint, t: Bytes32)
    requires Issued(r, n, fp, t)
    ensures Issued(r, n + 1, fp, t)
  {
    var i: nat, j: nat, sid: nat, o: nat :| j < n && Issues(r, i, j, sid, o, fp, t);
    assert j < n + 1;
  }

  // ---------------------------------------------------------------- the invariant

  /** The fingerprint on whose behalf the reader acts. */
  function ActsFor(phase: Phase): Option<Fingerprint> {
    match phase
    case PairPrincipal(client, _) => Some(client)
    case SetPrincipal(owner, _) => Some(owner)
    case AttachLookup(owner, _) => Some(owner)
    case AttachLease(owner, _, _) => Some(owner)
    case DetachLease(owner, _) => Some(owner)
    case _ => None
  }

  ghost predicate PhaseKnown(
    r: Run, n: nat, tokens: map<Bytes32, Grant>, sid: nat, o: nat, peer: Option<Fingerprint>, phase: Phase)
  {
    && (ActsFor(phase).Some? ==> HasToken(tokens, ActsFor(phase).value))
    && (phase.PairToken? ==> Accepted(r, n, sid, o, phase.client))
    && (phase.PairPin? ==> peer == Some(phase.client))
  }

  ghost predicate SessionKnown(r: Run, n: nat, tokens: map<Bytes32, Grant>, sid: nat, s: Session) {
    && (s.principal.Some? ==> HasToken(tokens, s.principal.value))
    && PhaseKnown(r, n, tokens, sid, Handled(s), s.peer, s.phase)
  }

  /** Every token was issued by a successful pairing of its owner. */
  ghost predicate TokensIssued(r: Run, n: nat, tokens: map<Bytes32, Grant>) {
    forall t :: t in tokens ==> Issued(r, n, tokens[t].owner, t)
  }

  ghost predicate OwnersKnown(sh: Shared) {
    forall d :: d in sh.leases ==> HasToken(sh.tokens, sh.leases[d])
  }

  ghost predicate WorldKnown(r: Run, n: nat, w: World) {
    && TokensIssued(r, n, w.shared.tokens) && OwnersKnown(w.shared)
    && forall sid :: sid in w.sessions ==> SessionKnown(r, n, w.shared.tokens, sid, w.sessions[sid])
  }

  // ---------------------------------------------------------------- tokens

  lemma SectionTokens(sh: Shared, s: Session, a: Action)
    requires a.Section? && Ready(sh, s, a.token)
    ensures TokensKept(sh.tokens, NextShared(sh, s.phase, a.drawn, a.token).tokens)
  {
  }

  lemma StepTokensKept(w: World, a: Action)
    ensures TokensKept(w.shared.tokens, Apply(w, a).shared.tokens)
  {
    if Taken(w, a) {
      TakenStep(w, a);
      if a.Section? {
        SectionTokens(w.shared, w.sessions[a.sid], a);
      }
    } else {
      UntakenStep(w, a);
    }
  }

  /** The only new token goes to the client whose PIN was accepted. */
  lemma NewTokens(w: World, a: Action, t: Bytes32)
    requires t in Apply(w, a).shared.tokens && t !in w.shared.tokens
    ensures Taken(w, a) && a.Section? && w.sessions[a.sid].phase.PairToken? && a.token == t
    ensures Apply(w, a).shared.tokens[t].owner == w.sessions[a.sid].phase.client
  {
    if Taken(w, a) {
      TakenStep(w, a);
    } else {
      UntakenStep(w, a);
    }
  }

  lemma IssuedNow(r: Run, n: nat, sid: nat, s: Session)
    requires n < |r.states| && Acts(r, n, sid) && sid in r.states[n].sessions && s == r.states[n].sessions[sid]
    requires s.phase.PairToken? && s.received != [] && Accepted(r, n, sid, Handled(s), s.phase.client)
    ensures Issued(r, n + 1, s.phase.client, r.actions[n].token)
  {
    var o, fp := Handled(s), s.phase.client;
    var i: nat :| i < n && PinAccepted(r, i, sid, fp) && Working(r, i, sid, o);
    assert Issues(r, i, n, sid, o, fp, r.actions[n].token);
  }

  lemma TokensStayIssued(r: Run, n: nat, w: World, a: Action, after: map<Bytes32, Grant>)
    requires n < |r.actions| && n < |r.states| && w == r.states[n] && a == r.actions[n]
    requires SessionsOk(w) && WorldKnown(r, n, w) && after == Apply(w, a).shared.tokens
    ensures TokensIssued(r, n + 1, after)
  {
    StepTokensKept(w, a);
    forall t | t in after ensures Issued(r, n + 1, after[t].owner, t) {
      if t in w.shared.tokens {
        IssuedLater(r, n, after[t].owner, t);
      } else {
        NewTokens(w, a, t);
        assert SessionKnown(r, n, w.shared.tokens, a.sid, w.sessions[a.sid]) && SessionOk(w.sessions[a.sid]);
        IssuedNow(r, n, a.sid, w.sessions[a.sid]);
      }
    }
  }

  // ---------------------------------------------------------------- leases

  /** The only new lease goes to the client on whose behalf the reader acts. */
  lemma NewLeases(w: World, a: Action, d: DeviceId)
    requires d in Apply(w, a).shared.leases
    requires d in w.shared.leases ==> Apply(w, a).shared.leases[d] != w.shared.leases[d]
    ensures Taken(w, a) && a.Section? && ActsFor(w.sessions[a.sid].phase) == Some(Apply(w, a).shared.leases[d])
  {
    if Taken(w, a) {
      TakenStep(w, a);
    } else {
      UntakenStep(w, a);
    }
  }

  lemma OwnersStayKnown(r: Run, n: nat, w: World, a: Action, after: Shared)
    requires WorldKnown(r, n, w) && after == Apply(w, a).shared
    ensures OwnersKnown(after)
  {
    StepTokensKept(w, a);
    forall d | d in after.leases ensures HasToken(after.tokens, after.leases[d]) {
      if d !in w.shared.leases || after.leases[d] != w.shared.leases[d] {
        NewLeases(w, a, d);
        assert SessionKnown(r, n, w.shared.tokens, a.sid, w.sessions[a.sid]);
      }
      HasTokenLater(w.shared.tokens, after.tokens, after.leases[d]);
    }
  }

  // ---------------------------------------------------------------- sessions

  lemma PhaseKnownLater(
    r: Run, n: nat, tokens: map<Bytes32, Grant>, after: map<Bytes32, Grant>, sid: nat, o: nat, peer: Option<Fingerprint>, phase: Phase)
    requires PhaseKnown(r, n, tokens, sid, o, peer, phase) && TokensKept(tokens, after)
    ensures PhaseKnown(r, n + 1, after, sid, o, peer, phase)
  {
    if ActsFor(phase).Some? {
      HasTokenLater(tokens, after, ActsFor(phase).value);
    }
    if phase.PairToken? {
      AcceptedLater(r, n, sid, o, phase.client);
    }
  }

  lemma SessionKnownLater(r: Run, n: nat, tokens: map<Bytes32, Grant>, after: map<Bytes32, Grant>, sid: nat, s: Session)
    requires SessionKnown(r, n, tokens, sid, s) && TokensKept(tokens, after)
    ensures SessionKnown(r, n + 1, after, sid, s)
  {
    PhaseKnownLater(r, n, tokens, after, sid, Handled(s), s.peer, s.phase);
    if s.principal.Some? {
      HasTokenLater(tokens, after, s.principal.value);
    }
  }

  /** Apart from an accepted PIN, a new token and a token check, a section acts for nobody new. */
  lemma SameAuthority(config: Config, sh: Shared, s: Session, a: Action)
    requires a.Section? && Ready(sh, s, a.token) && !s.phase.PairPin? && !s.phase.PairToken? && !s.phase.CheckToken?
    ensures var next := NextPhase(config, sh, s, a.drawn, a.token);
            && !next.PairToken? && !next.PairPin?
            && (ActsFor(next).Some? ==> ActsFor(next) == ActsFor(s.phase))
  {
  }

  lemma PinPhaseKnown(r: Run, n: nat, sid: nat, s: Session, next: Phase, after: map<Bytes32, Grant>)
    requires n < |r.states| && Acts(r, n, sid) && sid in r.states[n].sessions && s == r.states[n].sessions[sid]
    requires s.phase.PairPin? && s.peer == Some(s.phase.client) && s.received != []
    requires next == NextPhase(r.states[n].config, r.states[n].shared, s, r.actions[n].drawn, r.actions[n].token)
    ensures PhaseKnown(r, n + 1, after, sid, Handled(s), s.peer, next)
  {
    if next.PairToken? {
      assert PinAccepted(r, n, sid, s.phase.client) && Working(r, n, sid, Handled(s));
    }
  }

  lemma TokenPhaseKnown(r: Run, n: nat, sid: nat, config: Config, sh: Shared, s: Session, a: Action, after: map<Bytes32, Grant>)
    requires a.Section? && s.phase.PairToken?
    requires after == NextShared(sh, s.phase, a.drawn, a.token).tokens
    ensures PhaseKnown(r, n + 1, after, sid, Handled(s), s.peer, NextPhase(config, sh, s, a.drawn, a.token))
  {
    assert a.token in after && after[a.token].owner == s.phase.client;
  }

  /** A token check grants the authority of the token's owner, or none. */
  lemma CheckedAuthority(config: Config, sh: Shared, s: Session, a: Action)
    requires a.Section? && s.phase.CheckToken?
    ensures var next := NextPhase(config, sh, s, a.drawn, a.token);
            && !next.PairToken? && !next.PairPin?
            && (ActsFor(next).Some? ==> s.phase.token in sh.tokens && sh.tokens[s.phase.token].owner == ActsFor(next).value)
  {
  }

  lemma CheckPhaseKnown(r: Run, n: nat, sid: nat, config: Config, sh: Shared, s: Session, a: Action)
    requires a.Section? && s.phase.CheckToken?
    ensures PhaseKnown(r, n + 1, sh.tokens, sid, Handled(s), s.peer, NextPhase(config, sh, s, a.drawn, a.token))
  {
    CheckedAuthority(config, sh, s, a);
  }

  lemma OtherPhaseKnown(r: Run, n: nat, sid: nat, config: Config, sh: Shared, s: Session, a: Action, after: map<Bytes32, Grant>)
    requires a.Section? && Ready(sh, s, a.token) && !s.phase.PairPin? && !s.phase.PairToken? && !s.phase.CheckToken?
    requires PhaseKnown(r, n, sh.tokens, sid, Handled(s), s.peer, s.phase) && TokensKept(sh.tokens, after)
    ensures PhaseKnown(r, n + 1, after, sid, Handled(s), s.peer, NextPhase(config, sh, s, a.drawn, a.token))
  {
    SameAuthority(config, sh, s, a);
    PhaseKnownLater(r, n, sh.tokens, after, sid, Handled(s), s.peer, s.phase);
  }

  /** What a section needs to know of the session it belongs to. */
  ghost predicate Placed(r: Run, n: nat, sid: nat, sh: Shared, s: Session, a: Action) {
    && n < |r.states| && Acts(r, n, sid) && sid in r.states[n].sessions && s == r.states[n].sessions[sid]
    && sh == r.states[n].shared && a == r.actions[n] && Ready(sh, s, a.token) && s.received != []
  }

  lemma SectionKnown(r: Run, n: nat, sid: nat, sh: Shared, s: Session, a: Action, after: map<Bytes32, Grant>)
    requires Placed(r, n, sid, sh, s, a) && PhaseKnown(r, n, sh.tokens, sid, Handled(s), s.peer, s.phase)
    requires TokensKept(sh.tokens, after) && after == NextShared(sh, s.phase, a.drawn, a.token).tokens
    ensures PhaseKnown(r, n + 1, after, sid, Handled(s), s.peer, NextPhase(r.states[n].config, sh, s, a.drawn, a.token))
  {
    if s.phase.PairPin? {
      PinPhaseKnown(r, n, sid, s, NextPhase(r.states[n].config, sh, s, a.drawn, a.token), after);
    } else if s.phase.PairToken? {
      TokenPhaseKnown(r, n, sid, r.states[n].config, sh, s, a, after);
    } else if s.phase.CheckToken? {
      CheckPhaseKnown(r, n, sid, r.states[n].config, sh, s, a);
    } else {
      OtherPhaseKnown(r, n, sid, r.states[n].config, sh, s, a, after);
    }
  }

  lemma NextSessionPeer(s: Session, next: Phase)
    ensures NextSession(s, next).peer == s.peer && NextSession(s, next).received == s.received
  {
  }

  lemma NextSessionPrincipal(s: Session, next: Phase)
    ensures var t := NextSession(s, next); t.principal == s.principal || t.principal == ActsFor(s.phase)
  {
  }

  lemma NextSessionMoves(s: Session, next: Phase)
    ensures NextSession(s, next).phase == next || NextSession(s, next).phase == s.phase
  {
  }

  /** What a section leaves of a session: its announced peer, and a principal that was its own or the one it acted for. */
  lemma NextSessionAuthority(s: Session, next: Phase, t: Session)
    requires t == NextSession(s, next)
    ensures t.peer == s.peer && (t.principal == s.principal || t.principal == ActsFor(s.phase))
    ensures t.phase == next || t.phase == s.phase
  {
    NextSessionPeer(s, next);
    NextSessionPrincipal(s, next);
    NextSessionMoves(s, next);
  }

  /** A phase that ends a request claims nothing about which request it was. */
  lemma SameClaims(r: Run, n: nat, tokens: map<Bytes32, Grant>, sid: nat, s: Session, t: Session)
    requires PhaseKnown(r, n, tokens, sid, Handled(s), t.peer, t.phase) && t.received == s.received
    requires Busy(s.phase) && s.received != []
    ensures PhaseKnown(r, n, tokens, sid, Handled(t), t.peer, t.phase)
  {
    assert t.phase.PairToken? ==> Handled(t) == Handled(s);
  }

  lemma ReaderKnown(r: Run, n: nat, sid: nat, sh: Shared, s: Session, a: Action, after: map<Bytes32, Grant>, t: Session)
    requires Placed(r, n, sid, sh, s, a) && SessionKnown(r, n, sh.tokens, sid, s) && Busy(s.phase)
    requires TokensKept(sh.tokens, after) && after == NextShared(sh, s.phase, a.drawn, a.token).tokens
    requires t == NextSession(s, NextPhase(r.states[n].config, sh, s, a.drawn, a.token))
    ensures SessionKnown(r, n + 1, after, sid, t)
  {
    var next := NextPhase(r.states[n].config, sh, s, a.drawn, a.token);
    NextSessionAuthority(s, next, t);
    NextSessionPeer(s, next);
    SessionKnownLater(r, n, sh.tokens, after, sid, s);
    SectionKnown(r, n, sid, sh, s, a, after);
    SameClaims(r, n + 1, after, sid, s, t);
  }

  /** A message just read gives nobody authority. */
  lemma BeginAuthority(config: Config, s: Session, msg: Message, debug: Utf8.Utf8String)
    ensures var phase := Begin(config, s.peer, msg, debug);
            ActsFor(phase).None? && !phase.PairToken? && (phase.PairPin? ==> !msg.Hello? && s.peer == Some(phase.client))
  {
  }

  lemma MoveKnown(r: Run, n: nat, sid: nat, sh: Shared, s: Session, a: Action, after: map<Bytes32, Grant>)
    requires n < |r.states| && Moves(r, n, sid) && sid in r.states[n].sessions && s == r.states[n].sessions[sid]
    requires sh == r.states[n].shared && a == r.actions[n] && Enabled(sh, s, a) && PhaseBelongs(s)
    requires SessionKnown(r, n, sh.tokens, sid, s) && TokensKept(sh.tokens, after) && after == SharedAfter(sh, s, a).tokens
    ensures SessionKnown(r, n + 1, after, sid, SessionAfter(r.states[n].config, sh, s, a))
  {
    SessionKnownLater(r, n, sh.tokens, after, sid, s);
    match a
    case Receive(_, msg, debug) => BeginAuthority(r.states[n].config, s, msg, debug);
    case Section(_, _, _) => ReaderKnown(r, n, sid, sh, s, a, after, SessionAfter(r.states[n].config, sh, s, a));
    case Progress(_, o, answer) =>
      var t := TaskStep(r.states[n].config, sh, s, o, answer);
      assert t.phase == s.phase && t.peer == s.peer && t.principal == s.principal && t.received == s.received;
    case Eof(_) =>
    case Stop(_) =>
    case End(_) =>
  }

  // ---------------------------------------------------------------- every run

  lemma SessionStaysKnown(r: Run, n: nat, sid: nat)
    requires IsRun(r) && n < |r.actions| && SessionsOk(r.states[n]) && WorldKnown(r, n, r.states[n])
    requires sid in r.states[n + 1].sessions
    ensures SessionKnown(r, n + 1, r.states[n + 1].shared.tokens, sid, r.states[n + 1].sessions[sid])
  {
    var w, after := r.states[n], r.states[n + 1].shared.tokens;
    HowSessionsChange(r, n, sid);
    assert StepAt(r, n);
    StepTokensKept(w, r.actions[n]);
    if sid in w.sessions {
      if Moves(r, n, sid) {
        TakenStep(w, r.actions[n]);
        assert SessionOk(w.sessions[sid]);
        MoveKnown(r, n, sid, w.shared, w.sessions[sid], r.actions[n], after);
      } else {
        SessionKnownLater(r, n, w.shared.tokens, after, sid, w.sessions[sid]);
      }
    }
  }

  lemma StepKnown(r: Run, n: nat)
    requires IsRun(r) && n < |r.actions| && SessionsOk(r.states[n]) && WorldKnown(r, n, r.states[n])
    ensures WorldKnown(r, n + 1, r.states[n + 1])
  {
    assert StepAt(r, n);
    TokensStayIssued(r, n, r.states[n], r.actions[n], r.states[n + 1].shared.tokens);
    OwnersStayKnown(r, n, r.states[n], r.actions[n], r.states[n + 1].shared);
    var m, w := n + 1, r.states[n + 1];
    forall sid | sid in w.sessions ensures SessionKnown(r, m, w.shared.tokens, sid, w.sessions[sid]) {
      SessionStaysKnown(r, n, sid);
    }
  }

  lemma {:induction false} RunKnown(r: Run, devices: seq<LocalDevice>, n: nat)
    requires IsRun(r) && BootedWith(r.states[0], devices) && n < |r.states|
    ensures WorldKnown(r, n, r.states[n])
  {
    if n > 0 {
      RunKnown(r, devices, n - 1);
      RunSessionsOk(r, n - 1);
      StepKnown(r, n - 1);
    }
  }

  /**
   In every run, a session's principal holds a token, and that very token was issued to it for a
   pairing request whose PIN was accepted, in one session, which had announced the principal's
   fingerprint.
   */
  lemma PrincipalsWerePaired(r: Run, devices: seq<LocalDevice>, n: nat, sid: nat)
    requires IsRun(r) && BootedWith(r.states[0], devices) && n < |r.states|
    requires sid in r.states[n].sessions && r.states[n].sessions[sid].principal.Some?
    ensures var fp, tokens := r.states[n].sessions[sid].principal.value, r.states[n].shared.tokens;
            exists t, i: nat, j: nat, other: nat, o: nat ::
              t in tokens && tokens[t].owner == fp && j < n && Issues(r, i, j, other, o, fp, t)
  {
    RunKnown(r, devices, n);
    var fp, tokens := r.states[n].sessions[sid].principal.value, r.states[n].shared.tokens;
    assert SessionKnown(r, n, tokens, sid, r.states[n].sessions[sid]);
    TokenTraced(r, n, tokens, fp);
  }

  lemma TokenTraced(r: Run, n: nat, tokens: map<Bytes32, Grant>, fp: Fingerprint)
    requires HasToken(tokens, fp) && TokensIssued(r, n, tokens)
    ensures exists t, i: nat, j: nat, sid: nat, o: nat ::
              t in tokens && tokens[t].owner == fp && j < n && Issues(r, i, j, sid, o, fp, t)
  {
    var t :| t in tokens && tokens[t].owner == fp;
    assert Issued(r, n, fp, t);
  }

  /** The same of every lease owner. */
  lemma LeaseOwnersWerePaired(r: Run, devices: seq<LocalDevice>, n: nat, d: DeviceId)
    requires IsRun(r) && BootedWith(r.states[0], devices) && n < |r.states| && d in r.states[n].shared.leases
    ensures var fp, tokens := r.states[n].shared.leases[d], r.states[n].shared.tokens;
            exists t, i: nat, j: nat, sid: nat, o: nat ::
              t in tokens && tokens[t].owner == fp && j < n && Issues(r, i, j, sid, o, fp, t)
  {
    RunKnown(r, devices, n);
    TokenTraced(r, n, r.states[n].shared.tokens, r.states[n].shared.leases[d]);
  }

  lemma TokenIssued(r: Run, i: nat, sid: nat)
    requires IsRun(r) && i < |r.actions| && Acts(r, i, sid) && sid in r.states[i].sessions
    requires r.states[i].sessions[sid].phase.PairToken? && r.actions[i].token !in r.states[i].shared.tokens
    ensures var after := r.states[i + 1].shared.tokens;
            r.actions[i].token in after &&
            after[r.actions[i].token] == Grant(r.states[i].sessions[sid].phase.client, r.states[i].shared.clock + TOKEN_TTL)
  {
    assert StepAt(r, i);
    assert Taken(r.states[i], r.actions[i]);
    TakenStep(r.states[i], r.actions[i]);
  }

  /** A token issued in step `i` stays, for the client it was issued to, and expires 24 hours after it was issued. */
  lemma {:induction false} TokenLastsADay(r: Run, i: nat, n: nat, sid: nat)
    requires IsRun(r) && i < n < |r.states| && Acts(r, i, sid) && sid in r.states[i].sessions
    requires r.states[i].sessions[sid].phase.PairToken? && r.actions[i].token !in r.states[i].shared.tokens
    ensures var tokens, t := r.states[n].shared.tokens, r.actions[i].token;
            && t in tokens && tokens[t].owner == r.states[i].sessions[sid].phase.client
            && tokens[t].expires == r.states[i].shared.clock + 24 * 60 * 60 * 1000
    decreases n
  {
    TokenIssued(r, i, sid);
    if n > i + 1 {
      TokenLastsADay(r, i, n - 1, sid);
      assert StepAt(r, n - 1);
      StepTokensKept(r.states[n - 1], r.actions[n - 1]);
    }
  }
}
