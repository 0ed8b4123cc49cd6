/**
 A session that authenticates under two fingerprints: when it ends, the lease it took under the
 first one stays.
 */
module TwoPrincipals {
  import opened Results
  import opened Bytes
  import opened Utf8
  import opened Messages
  import opened Lease
  import Identity
  import opened Inventory
  import opened Server
  import opened ServerWorld
  import opened ServerRuns
  import opened ServerResults
  import opened Truthful

  // ---------------------------------------------------------------- runs from a list of actions

  function ApplyAll(w: World, actions: seq<Action>): World
    decreases |actions|
  {
    if actions == [] then w else ApplyAll(Apply(w, actions[0]), actions[1..])
  }

  function States(w: World, actions: seq<Action>): (s: seq<World>)
    ensures |s| == |actions| + 1 && s[0] == w
    decreases |actions|
  {
    if actions == [] then [w] else [w] + States(Apply(w, actions[0]), actions[1..])
  }

  lemma {:induction false} StateAfter(w: World, actions: seq<Action>, n: nat)
    requires n <= |actions|
    ensures States(w, actions)[n] == ApplyAll(w, actions[..n])
    decreases |actions|
  {
    if n > 0 {
      StateAfter(Apply(w, actions[0]), actions[1..], n - 1);
      assert actions[..n][1..] == actions[1..][..n - 1];
    }
  }

  lemma {:induction false} NextState(w: World, actions: seq<Action>, n: nat)
    requires n < |actions|
    ensures States(w, actions)[n + 1] == Apply(States(w, actions)[n], actions[n])
    decreases |actions|
  {
    if n > 0 {
      NextState(Apply(w, actions[0]), actions[1..], n - 1);
    }
  }

  lemma ListIsRun(w: World, actions: seq<Action>)
    ensures IsRun(Run(States(w, actions), actions))
  {
    forall n | 0 <= n < |actions| ensures StepAt(Run(States(w, actions), actions), n) {
      NextState(w, actions, n);
    }
  }

  lemma {:induction false} ApplyInTurn(w: World, a: seq<Action>, b: seq<Action>)
    ensures ApplyAll(w, a + b) == ApplyAll(ApplyAll(w, a), b)
    decreases |a|
  {
    if a == [] {
      assert a + b == b;
    } else {
      assert (a + b)[1..] == a[1..] + b;
      ApplyInTurn(Apply(w, a[0]), a[1..], b);
    }
  }

  // ---------------------------------------------------------------- a server with one session

  /** World `w` has one session, number 0, with this shared state, peer, principal and phase, and no tasks. */
  ghost predicate Stands(w: World, config: Config, sh: Shared, peer: Option<Fingerprint>, principal: Option<Fingerprint>, phase: Phase) {
    && w.config == config && w.shared == sh && 0 in w.sessions && w.sessions.Keys == {0}
    && w.sessions[0].peer == peer && w.sessions[0].principal == principal && w.sessions[0].phase == phase
    && w.sessions[0].tasks == map[] && (w.sessions[0].received == [] ==> phase.Idle?)
  }

  function Section0(drawn: Bytes32, token: Bytes32): Action {
    Section(0, drawn, token)
  }

  lemma ReadsHello(w: World, config: Config, sh: Shared, peer: Option<Fingerprint>, principal: Option<Fingerprint>, fp: Fingerprint, name: Utf8String)
    requires Stands(w, config, sh, peer, principal, Idle)
    ensures Stands(Apply(w, Receive(0, Hello(VERSION, VERSION, fp, name), [])), config, sh, Some(fp), principal,
              Sending(Hello(VERSION, VERSION, config.fingerprint, config.hostname)))
  {
    TakenStep(w, Receive(0, Hello(VERSION, VERSION, fp, name), []));
  }

  lemma Sends(w: World, config: Config, sh: Shared, peer: Option<Fingerprint>, principal: Option<Fingerprint>, reply: Message, x: Bytes32)
    requires Stands(w, config, sh, peer, principal, Sending(reply))
    ensures Stands(Apply(w, Section0(x, x)), config, sh, peer, principal, Idle)
  {
    TakenStep(w, Section0(x, x));
  }

  lemma ReadsPair(w: World, config: Config, sh: Shared, principal: Option<Fingerprint>, fp: Fingerprint, hash: Bytes32, name: Utf8String)
    requires Stands(w, config, sh, Some(fp), principal, Idle)
    ensures Stands(Apply(w, Receive(0, PairRequest(fp, hash, name), [])), config, sh, Some(fp), principal, PairPin(fp, hash))
  {
    TakenStep(w, Receive(0, PairRequest(fp, hash, name), []));
  }

  lemma AcceptsPin(w: World, config: Config, sh: Shared, principal: Option<Fingerprint>, fp: Fingerprint, hash: Bytes32, drawn: Bytes32, x: Bytes32)
    requires Stands(w, config, sh, Some(fp), principal, PairPin(fp, hash)) && PinGood(sh.pin, sh.clock, hash)
    ensures Stands(Apply(w, Section0(drawn, x)), config, sh.(pin := Identity.Issue(sh.clock, drawn)), Some(fp), principal, PairToken(fp))
  {
    TakenStep(w, Section0(drawn, x));
  }

  lemma IssuesToken(w: World, config: Config, sh: Shared, principal: Option<Fingerprint>, fp: Fingerprint, x: Bytes32, token: Bytes32)
    requires Stands(w, config, sh, Some(fp), principal, PairToken(fp)) && token !in sh.tokens
    ensures Stands(Apply(w, Section0(x, token)), config, sh.(tokens := sh.tokens[token := Grant(fp, sh.clock + TOKEN_TTL)]),
              Some(fp), principal, PairPrincipal(fp, token))
  {
    TakenStep(w, Section0(x, token));
  }

  lemma BecomesPrincipal(w: World, config: Config, sh: Shared, principal: Option<Fingerprint>, fp: Fingerprint, token: Bytes32, x: Bytes32)
    requires Stands(w, config, sh, Some(fp), principal, PairPrincipal(fp, token))
    ensures Stands(Apply(w, Section0(x, x)), config, sh, Some(fp), Some(fp), Sending(PairResponse(true, config.fingerprint, token)))
  {
    TakenStep(w, Section0(x, x));
  }

  lemma TwoSteps(w: World, a: Action, b: Action)
    ensures ApplyAll(w, [a, b]) == Apply(Apply(w, a), b)
  {
    assert [a, b][1..] == [b] && [b][1..] == [];
    assert ApplyAll(Apply(w, a), [b]) == Apply(Apply(w, a), b);
  }

  lemma FourInTurn(w: World, a: seq<Action>, b: seq<Action>, c: seq<Action>, d: seq<Action>)
    ensures ApplyAll(w, a + (b + (c + d))) == ApplyAll(ApplyAll(ApplyAll(ApplyAll(w, a), b), c), d)
  {
    ApplyInTurn(w, a, b + (c + d));
    ApplyInTurn(ApplyAll(w, a), b, c + d);
    ApplyInTurn(ApplyAll(ApplyAll(w, a), b), c, d);
  }

  // ---------------------------------------------------------------- pairing

  function Greeting(fp: Fingerprint): seq<Action> {
    [Receive(0, Hello(VERSION, VERSION, fp, []), []), Section0(NoToken(), NoToken())]
  }

  function Asking(fp: Fingerprint, hash: Bytes32, drawn: Bytes32): seq<Action> {
    [Receive(0, PairRequest(fp, hash, []), []), Section0(drawn, NoToken())]
  }

  function Issuing(token: Bytes32): seq<Action> {
    [Section0(NoToken(), token), Section0(NoToken(), NoToken())]
  }

  function Answering(): seq<Action> {
    [Section0(NoToken(), NoToken())]
  }

  lemma Greets(w: World, config: Config, sh: Shared, peer: Option<Fingerprint>, principal: Option<Fingerprint>, fp: Fingerprint)
    requires Stands(w, config, sh, peer, principal, Idle)
    ensures Stands(ApplyAll(w, Greeting(fp)), config, sh, Some(fp), principal, Idle)
  {
    var a, b := Receive(0, Hello(VERSION, VERSION, fp, []), []), Section0(NoToken(), NoToken());
    ReadsHello(w, config, sh, peer, principal, fp, []);
    Sends(Apply(w, a), config, sh, Some(fp), principal, Hello(VERSION, VERSION, config.fingerprint, config.hostname), NoToken());
    TwoSteps(w, a, b);
  }

  lemma Asks(w: World, config: Config, sh: Shared, principal: Option<Fingerprint>, fp: Fingerprint, hash: Bytes32, drawn: Bytes32)
    requires Stands(w, config, sh, Some(fp), principal, Idle) && PinGood(sh.pin, sh.clock, hash)
    ensures Stands(ApplyAll(w, Asking(fp, hash, drawn)), config, sh.(pin := Identity.Issue(sh.clock, drawn)), Some(fp), principal,
              PairToken(fp))
  {
    var a, b := Receive(0, PairRequest(fp, hash, []), []), Section0(drawn, NoToken());
    ReadsPair(w, config, sh, principal, fp, hash, []);
    AcceptsPin(Apply(w, a), config, sh, principal, fp, hash, drawn, NoToken());
    TwoSteps(w, a, b);
  }

  lemma IssuesTo(w: World, config: Config, sh: Shared, principal: Option<Fingerprint>, fp: Fingerprint, token: Bytes32)
    requires Stands(w, config, sh, Some(fp), principal, PairToken(fp)) && token !in sh.tokens
    ensures Stands(ApplyAll(w, Issuing(token)), config, sh.(tokens := sh.tokens[token := Grant(fp, sh.clock + TOKEN_TTL)]),
              Some(fp), Some(fp), Sending(PairResponse(true, config.fingerprint, token)))
  {
    var a, b := Section0(NoToken(), token), Section0(NoToken(), NoToken());
    var after := sh.(tokens := sh.tokens[token := Grant(fp, sh.clock + TOKEN_TTL)]);
    IssuesToken(w, config, sh, principal, fp, NoToken(), token);
    BecomesPrincipal(Apply(w, a), config, after, principal, fp, token, NoToken());
    TwoSteps(w, a, b);
  }

  lemma Answers(w: World, config: Config, sh: Shared, peer: Option<Fingerprint>, principal: Option<Fingerprint>, reply: Message)
    requires Stands(w, config, sh, peer, principal, Sending(reply))
    ensures Stands(ApplyAll(w, Answering()), config, sh, peer, principal, Idle)
  {
    Sends(w, config, sh, peer, principal, reply, NoToken());
    assert Answering()[1..] == [];
  }

  /** Hello, then a pairing with the PIN of hash `hash`, after which the PIN is `drawn`. */
  function Pairing(fp: Fingerprint, hash: Bytes32, drawn: Bytes32, token: Bytes32): seq<Action> {
    Greeting(fp) + (Asking(fp, hash, drawn) + (Issuing(token) + Answering()))
  }

  function Paired(sh: Shared, fp: Fingerprint, drawn: Bytes32, token: Bytes32): Shared {
    sh.(pin := Identity.Issue(sh.clock, drawn), tokens := sh.tokens[token := Grant(fp, sh.clock + TOKEN_TTL)])
  }

  lemma PairsHalfway(
    w: World, config: Config, sh: Shared, peer: Option<Fingerprint>, principal: Option<Fingerprint>, fp: Fingerprint, hash: Bytes32,
    drawn: Bytes32)
    requires Stands(w, config, sh, peer, principal, Idle) && PinGood(sh.pin, sh.clock, hash)
    ensures Stands(ApplyAll(ApplyAll(w, Greeting(fp)), Asking(fp, hash, drawn)), config,
              sh.(pin := Identity.Issue(sh.clock, drawn)), Some(fp), principal, PairToken(fp))
  {
    Greets(w, config, sh, peer, principal, fp);
    Asks(ApplyAll(w, Greeting(fp)), config, sh, principal, fp, hash, drawn);
  }

  lemma PairsFromThere(
    w: World, config: Config, sh: Shared, principal: Option<Fingerprint>, fp: Fingerprint, token: Bytes32, v: World, after: Shared)
    requires Stands(w, config, sh, Some(fp), principal, PairToken(fp)) && token !in sh.tokens
    requires v == ApplyAll(ApplyAll(w, Issuing(token)), Answering())
    requires sh.(tokens := sh.tokens[token := Grant(fp, sh.clock + TOKEN_TTL)]) == after
    ensures Stands(v, config, after, Some(fp), Some(fp), Idle)
  {
    IssuesTo(w, config, sh, principal, fp, token);
    Answers(ApplyAll(w, Issuing(token)), config, after, Some(fp), Some(fp), PairResponse(true, config.fingerprint, token));
  }

  lemma PairingInTurn(w: World, fp: Fingerprint, hash: Bytes32, drawn: Bytes32, token: Bytes32, v: World)
    requires v == ApplyAll(w, Pairing(fp, hash, drawn, token))
    ensures v == ApplyAll(ApplyAll(ApplyAll(ApplyAll(w, Greeting(fp)), Asking(fp, hash, drawn)), Issuing(token)), Answering())
  {
    FourInTurn(w, Greeting(fp), Asking(fp, hash, drawn), Issuing(token), Answering());
  }

  lemma PairsInTurn(
    w2: World, config: Config, sh: Shared, principal: Option<Fingerprint>, fp: Fingerprint, drawn: Bytes32, token: Bytes32, v: World,
    asked: Shared, after: Shared)
    requires Stands(w2, config, asked, Some(fp), principal, PairToken(fp)) && token !in sh.tokens
    requires v == ApplyAll(ApplyAll(w2, Issuing(token)), Answering())
    requires asked == sh.(pin := Identity.Issue(sh.clock, drawn)) && after == Paired(sh, fp, drawn, token)
    ensures Stands(v, config, after, Some(fp), Some(fp), Idle)
  {
    PairsFromThere(w2, config, asked, principal, fp, token, v, after);
  }

  lemma Pairs(
    w: World, config: Config, sh: Shared, peer: Option<Fingerprint>, principal: Option<Fingerprint>, fp: Fingerprint, hash: Bytes32,
    drawn: Bytes32, token: Bytes32, v: World, after: Shared)
    requires Stands(w, config, sh, peer, principal, Idle) && PinGood(sh.pin, sh.clock, hash) && token !in sh.tokens
    requires v == ApplyAll(w, Pairing(fp, hash, drawn, token)) && after == Paired(sh, fp, drawn, token)
    ensures Stands(v, config, after, Some(fp), Some(fp), Idle)
  {
    PairingInTurn(w, fp, hash, drawn, token, v);
    PairsHalfway(w, config, sh, peer, principal, fp, hash, drawn);
    PairsInTurn(ApplyAll(ApplyAll(w, Greeting(fp)), Asking(fp, hash, drawn)), config, sh, principal, fp, drawn, token, v,
                sh.(pin := Identity.Issue(sh.clock, drawn)), after);
  }

  // ---------------------------------------------------------------- attaching

  lemma ReadsAttach(w: World, config: Config, sh: Shared, fp: Fingerprint, d: DeviceId, token: Bytes32)
    requires Stands(w, config, sh, Some(fp), Some(fp), Idle)
    ensures Stands(Apply(w, Receive(0, AttachRequest(d, token), [])), config, sh, Some(fp), Some(fp), CheckToken(token, Attach(d)))
  {
    TakenStep(w, Receive(0, AttachRequest(d, token), []));
  }

  lemma PassesCheck(w: World, config: Config, sh: Shared, fp: Fingerprint, command: Command, token: Bytes32, x: Bytes32)
    requires Stands(w, config, sh, Some(fp), Some(fp), CheckToken(token, command))
    requires token in sh.tokens && sh.tokens[token].owner == fp && sh.clock <= sh.tokens[token].expires
    ensures Stands(Apply(w, Section0(x, x)), config, sh, Some(fp), Some(fp), SetPrincipal(fp, command))
  {
    TakenStep(w, Section0(x, x));
  }

  lemma SetsPrincipal(w: World, config: Config, sh: Shared, fp: Fingerprint, d: DeviceId, x: Bytes32)
    requires Stands(w, config, sh, Some(fp), Some(fp), SetPrincipal(fp, Attach(d)))
    ensures Stands(Apply(w, Section0(x, x)), config, sh, Some(fp), Some(fp), AttachLookup(fp, d))
  {
    TakenStep(w, Section0(x, x));
  }

  lemma LooksUp(w: World, config: Config, sh: Shared, fp: Fingerprint, d: DeviceId, x: Bytes32)
    requires Stands(w, config, sh, Some(fp), Some(fp), AttachLookup(fp, d)) && Offered(sh.inv, d) && sh.writer.None?
    ensures Stands(Apply(w, Section0(x, x)), config, sh, Some(fp), Some(fp), AttachLease(fp, d, sh.inv.present[d].info.busId))
  {
    TakenStep(w, Section0(x, x));
  }

  lemma TakesLease(w: World, config: Config, sh: Shared, fp: Fingerprint, d: DeviceId, busId: Utf8String, x: Bytes32)
    requires Stands(w, config, sh, Some(fp), Some(fp), AttachLease(fp, d, busId)) && d !in sh.leases
    ensures Stands(Apply(w, Section0(x, x)), config, sh.(leases := sh.leases[d := fp]), Some(fp), Some(fp),
              Sending(AttachResponse(d, true, USBIP_PORT, busId)))
  {
    TakenStep(w, Section0(x, x));
  }

  /** The request and the token check, then setting the principal and the lookup. */
  function Looking(d: DeviceId, token: Bytes32): seq<Action> {
    [Receive(0, AttachRequest(d, token), []), Section0(NoToken(), NoToken())] +
      [Section0(NoToken(), NoToken()), Section0(NoToken(), NoToken())]
  }

  lemma LooksFor(w: World, config: Config, sh: Shared, fp: Fingerprint, d: DeviceId, token: Bytes32)
    requires Stands(w, config, sh, Some(fp), Some(fp), Idle) && Offered(sh.inv, d) && sh.writer.None?
    requires token in sh.tokens && sh.tokens[token].owner == fp && sh.clock <= sh.tokens[token].expires
    ensures Stands(ApplyAll(w, Looking(d, token)), config, sh, Some(fp), Some(fp), AttachLease(fp, d, sh.inv.present[d].info.busId))
  {
    var a, x := Receive(0, AttachRequest(d, token), []), Section0(NoToken(), NoToken());
    ReadsAttach(w, config, sh, fp, d, token);
    PassesCheck(Apply(w, a), config, sh, fp, Attach(d), token, NoToken());
    TwoSteps(w, a, x);
    var w1 := ApplyAll(w, [a, x]);
    SetsPrincipal(w1, config, sh, fp, d, NoToken());
    LooksUp(Apply(w1, x), config, sh, fp, d, NoToken());
    TwoSteps(w1, x, x);
    ApplyInTurn(w, [a, x], [x, x]);
  }

  function Leasing(): seq<Action> {
    [Section0(NoToken(), NoToken()), Section0(NoToken(), NoToken())]
  }

  lemma LeasesIt(w: World, config: Config, sh: Shared, fp: Fingerprint, d: DeviceId, busId: Utf8String)
    requires Stands(w, config, sh, Some(fp), Some(fp), AttachLease(fp, d, busId)) && d !in sh.leases
    ensures Stands(ApplyAll(w, Leasing()), config, sh.(leases := sh.leases[d := fp]), Some(fp), Some(fp), Idle)
  {
    var x := Section0(NoToken(), NoToken());
    TakesLease(w, config, sh, fp, d, busId, NoToken());
    Sends(Apply(w, x), config, sh.(leases := sh.leases[d := fp]), Some(fp), Some(fp), AttachResponse(d, true, USBIP_PORT, busId),
          NoToken());
    TwoSteps(w, x, x);
  }

  // ---------------------------------------------------------------- the whole run

  /** Everything up to the lease: connect, pair as `a`, look for the device. */
  function Before(a: Fingerprint, pin: Bytes32, second: Bytes32, token: Bytes32, d: DeviceId): seq<Action> {
    [Connect(0)] + (Pairing(a, pin, second, token) + Looking(d, token))
  }

  /** From the lease to the end of the stream: lease, pair as `b`, end of file. */
  function After(b: Fingerprint, second: Bytes32, third: Bytes32, token: Bytes32): seq<Action> {
    Leasing() + (Pairing(b, second, third, token) + [Eof(0)])
  }

  lemma Connects(config: Config, sh: Shared)
    ensures Stands(ApplyAll(World(config, sh, map[]), [Connect(0)]), config, sh, None, None, Idle)
  {
    var w := World(config, sh, map[]);
    assert [Connect(0)][1..] == [];
    UntakenStep(w, Connect(0));
  }

  lemma StopsReading(w: World, config: Config, sh: Shared, peer: Option<Fingerprint>, principal: Option<Fingerprint>)
    requires Stands(w, config, sh, peer, principal, Idle)
    ensures ApplyAll(w, [Eof(0)]).sessions.Keys == {0} && ApplyAll(w, [Eof(0)]).shared == sh
    ensures ApplyAll(w, [Eof(0)]).sessions[0].principal == principal
    ensures Taken(ApplyAll(w, [Eof(0)]), End(0))
  {
    assert [Eof(0)][1..] == [];
    TakenStep(w, Eof(0));
  }

  /** The state in which the reader, acting for `a`, is about to take the lease. */
  lemma BeforeStands(config: Config, sh: Shared, a: Fingerprint, pin: Bytes32, second: Bytes32, token: Bytes32, d: DeviceId)
    requires PinGood(sh.pin, sh.clock, pin) && sh.tokens == map[] && sh.writer.None? && Offered(sh.inv, d)
    ensures Stands(ApplyAll(World(config, sh, map[]), Before(a, pin, second, token, d)), config, Paired(sh, a, second, token),
              Some(a), Some(a), AttachLease(a, d, sh.inv.present[d].info.busId))
  {
    var w := World(config, sh, map[]);
    var w1 := ApplyAll(w, [Connect(0)]);
    Connects(config, sh);
    var w2 := ApplyAll(w1, Pairing(a, pin, second, token));
    Pairs(w1, config, sh, None, None, a, pin, second, token, w2, Paired(sh, a, second, token));
    LooksFor(w2, config, Paired(sh, a, second, token), a, d, token);
    ApplyInTurn(w1, Pairing(a, pin, second, token), Looking(d, token));
    ApplyInTurn(w, [Connect(0)], Pairing(a, pin, second, token) + Looking(d, token));
  }

  /** The state in which the session, now acting for `b`, can end while `a` leases the device. */
  lemma AfterStands(
    w: World, config: Config, sh: Shared, a: Fingerprint, b: Fingerprint, second: Bytes32, third: Bytes32, token: Bytes32, d: DeviceId,
    busId: Utf8String)
    requires Stands(w, config, sh, Some(a), Some(a), AttachLease(a, d, busId)) && d !in sh.leases
    requires PinGood(sh.pin, sh.clock, second) && token !in sh.tokens
    ensures var v := ApplyAll(w, After(b, second, third, token));
            && v.sessions.Keys == {0} && v.sessions[0].principal == Some(b) && Taken(v, End(0))
            && v.shared.leases == sh.leases[d := a]
  {
    var leased := sh.(leases := sh.leases[d := a]);
    var w1 := ApplyAll(w, Leasing());
    LeasesIt(w, config, sh, a, d, busId);
    var w2 := ApplyAll(w1, Pairing(b, second, third, token));
    Pairs(w1, config, leased, Some(a), Some(a), b, second, third, token, w2, Paired(leased, b, third, token));
    StopsReading(w2, config, Paired(leased, b, third, token), Some(b), Some(b));
    ApplyInTurn(w1, Pairing(b, second, third, token), [Eof(0)]);
    ApplyInTurn(w, Leasing(), Pairing(b, second, third, token) + [Eof(0)]);
  }


  // ---------------------------------------------------------------- the result

  lemma InThree<T>(a: seq<T>, b: seq<T>, c: seq<T>)
    ensures (a + (b + c))[..|a|] == a && (a + (b + c))[..|a| + |b|] == a + b && (a + (b + c))[|a| + |b|..] == c
  {
  }

  /** The states of the story before the lease is taken and before the session ends. */
  lemma StoryStates(w: World, before: seq<Action>, after: seq<Action>)
    ensures var all := before + (after + [End(0)]);
            && States(w, all)[|before|] == ApplyAll(w, before)
            && States(w, all)[|before| + |after|] == ApplyAll(ApplyAll(w, before), after)
            && all[|before| + |after|] == End(0)
  {
    var all := before + (after + [End(0)]);
    InThree(before, after, [End(0)]);
    StateAfter(w, all, |before|);
    StateAfter(w, all, |before| + |after|);
    ApplyInTurn(w, before, after);
  }

  /**
   The run: a peer attaches a device under fingerprint `a`, pairs again in the same session under
   `b`, and closes the connection.
   */
  function StoryRun(
    config: Config, device: LocalDevice, clock: nat, pins: (Bytes32, Bytes32, Bytes32), tokens: (Bytes32, Bytes32), a: Fingerprint,
    b: Fingerprint): Run
  {
    var actions := Before(a, pins.0, pins.1, tokens.0, 1) + (After(b, pins.1, pins.2, tokens.1) + [End(0)]);
    Run(States(Boot(config, [device], clock, pins.0), actions), actions)
  }

  lemma OneDevice(device: LocalDevice)
    requires device.info.exported && device.info.id == 1
    ensures Offered(New([device]), 1)
  {
    assert [device][..0] == [];
    assert New([device]) == NewOne(EMPTY, device);
  }

  lemma StoryBefore(config: Config, device: LocalDevice, clock: nat, pins: (Bytes32, Bytes32, Bytes32), token: Bytes32, a: Fingerprint)
    requires device.info.exported && device.info.id == 1
    ensures var w := Boot(config, [device], clock, pins.0);
            && Offered(w.shared.inv, 1)
            && Stands(ApplyAll(w, Before(a, pins.0, pins.1, token, 1)), config, Paired(w.shared, a, pins.1, token), Some(a), Some(a),
                 AttachLease(a, 1, w.shared.inv.present[1].info.busId))
  {
    var w := Boot(config, [device], clock, pins.0);
    OneDevice(device);
    assert w == World(config, w.shared, map[]);
    BeforeStands(config, w.shared, a, pins.0, pins.1, token, 1);
  }

  lemma StoryAfter(
    config: Config, device: LocalDevice, clock: nat, pins: (Bytes32, Bytes32, Bytes32), tokens: (Bytes32, Bytes32), a: Fingerprint,
    b: Fingerprint, w: World)
    requires device.info.exported && device.info.id == 1 && tokens.0 != tokens.1
    requires w == ApplyAll(Boot(config, [device], clock, pins.0), Before(a, pins.0, pins.1, tokens.0, 1))
    ensures 0 in w.sessions && Stands(w, config, w.shared, Some(a), Some(a), w.sessions[0].phase)
    ensures w.sessions[0].phase.AttachLease? && w.sessions[0].phase.owner == a && w.sessions[0].phase.id == 1
    ensures var v := ApplyAll(w, After(b, pins.1, pins.2, tokens.1));
            && 0 in v.sessions && v.sessions[0].principal == Some(b) && Taken(v, End(0)) && v.shared.leases == map[1 := a]
  {
    var start := Boot(config, [device], clock, pins.0);
    StoryBefore(config, device, clock, pins, tokens.0, a);
    AfterStands(w, config, w.shared, a, b, pins.1, pins.2, tokens.1, 1, start.shared.inv.present[1].info.busId);
  }

  /**
   The run is real, its session takes a lease for `a`, its principal at the end is `b`, and the lease
   of `a` survives the end of the session: releasing the leases of the last principal is not enough
   for a session that authenticates twice.
   */
  lemma EarlierLeaseSurvives(
    config: Config, device: LocalDevice, clock: nat, pins: (Bytes32, Bytes32, Bytes32), tokens: (Bytes32, Bytes32), a: Fingerprint,
    b: Fingerprint)
    requires device.info.exported && device.info.id == 1 && tokens.0 != tokens.1 && a != b
    ensures var r := StoryRun(config, device, clock, pins, tokens, a, b);
            && IsRun(r) && BootedWith(r.states[0], [device])
            && exists k: nat, n: nat :: k < n < |r.actions| && Acquires(r, k, 0, 1, a)
                 && r.actions[n] == End(0) && Taken(r.states[n], End(0)) && r.states[n].sessions[0].principal == Some(b)
                 && OwnerOf(r.states[n + 1].shared.leases, 1) == Some(a)
  {
    var start := Boot(config, [device], clock, pins.0);
    var before, after := Before(a, pins.0, pins.1, tokens.0, 1), After(b, pins.1, pins.2, tokens.1);
    var r := StoryRun(config, device, clock, pins, tokens, a, b);
    var k, n := |before|, |before| + |after|;
    ListIsRun(start, r.actions);
    StoryStates(start, before, after);
    StoryAfter(config, device, clock, pins, tokens, a, b, r.states[k]);
    assert r.actions[k] == after[0] == Section0(NoToken(), NoToken());
    assert Acquires(r, k, 0, 1, a);
    assert StepAt(r, n);
    EndReleasesExactly(r.states[n], End(0), 1);
  }
}
