/**
 Why a sequence number in flight must not be reused: the completion of the first submission is
 delivered to the caller of the second.
 */
module ReusedNumber {
  import opened Results
  import opened Bytes
  import opened Messages
  import opened Server
  import opened ServerSession
  import opened Pump
  import opened Composed

  /** Session 0 of an otherwise idle server. */
  function Quiet(config: Config, sh: Shared, s: Session): World {
    World(config, sh, map[0 := s])
  }

  function Link(config: Config, sh: Shared, s: Session, client: Client): System {
    System(Quiet(config, sh, s), 0, client)
  }

  /** Two submissions with one number on the wire: the first caller has been displaced. */
  function BothWritten(u: UrbSubmit, v: UrbSubmit): Client {
    Client(Pump(2, map[u.seqNum := 1], map[], [], [Resolution(0, Closed)]), [SubmitUrb(u), SubmitUrb(v)], 0, true)
  }

  ghost predicate Moved(c: System, m: Move, d: System) {
    c.sid in c.world.sessions && d == Next(c, m)
  }

  /** One submission on the wire. */
  function OneWritten(u: UrbSubmit): Client {
    Client(Pump(1, map[u.seqNum := 0], map[], [], []), [SubmitUrb(u)], 0, true)
  }

  lemma WritesOne(config: Config, sh: Shared, u: UrbSubmit)
    ensures Moved(Link(config, sh, CONNECTED, FRESH), Command(UrbCmd(u)), Link(config, sh, CONNECTED, OneWritten(u)))
  {
    assert [] + [SubmitUrb(u)] == [SubmitUrb(u)];
  }

  lemma WritesTwo(config: Config, sh: Shared, u: UrbSubmit, v: UrbSubmit)
    requires u.seqNum == v.seqNum
    ensures Moved(Link(config, sh, CONNECTED, OneWritten(u)), Command(UrbCmd(v)), Link(config, sh, CONNECTED, BothWritten(u, v)))
  {
    assert map[u.seqNum := 0][u.seqNum := 1] == map[u.seqNum := 1];
    assert [SubmitUrb(u)] + [SubmitUrb(v)] == [SubmitUrb(u), SubmitUrb(v)];
  }

  lemma QuietStep(config: Config, sh: Shared, s: Session, a: Action)
    requires OfSession(a) && a.sid == 0 && Enabled(sh, s, a) && SharedAfter(sh, s, a) == sh
    ensures Apply(Quiet(config, sh, s), a) == Quiet(config, sh, SessionAfter(config, sh, s, a))
  {
    TakenStep(Quiet(config, sh, s), a);
  }

  /** The server has read the first submission, is about to refuse it, and has refused it. */
  function ReadIt(u: UrbSubmit): Session {
    CONNECTED.(received := [SubmitUrb(u)], phase := UrbPrincipal(u))
  }

  function Refusing(u: UrbSubmit): Session {
    ReadIt(u).(phase := Sending(CompleteUrb(Denied(u.seqNum))))
  }

  function RefusedIt(u: UrbSubmit): Session {
    CONNECTED.(received := [SubmitUrb(u)], out := [Reply(CompleteUrb(Denied(u.seqNum)), 0)])
  }

  lemma ReadsIt(config: Config, sh: Shared, u: UrbSubmit, v: UrbSubmit)
    ensures Moved(Link(config, sh, CONNECTED, BothWritten(u, v)), ServerMove(Receive(0, SubmitUrb(u), [])),
                  Link(config, sh, ReadIt(u), BothWritten(u, v)))
  {
    QuietStep(config, sh, CONNECTED, Receive(0, SubmitUrb(u), []));
    assert [] + [SubmitUrb(u)] == [SubmitUrb(u)];
  }

  lemma RefusesIt(config: Config, sh: Shared, u: UrbSubmit, client: Client, x: Bytes32)
    ensures Moved(Link(config, sh, ReadIt(u), client), ServerMove(Section(0, x, x)), Link(config, sh, Refusing(u), client))
  {
    QuietStep(config, sh, ReadIt(u), Section(0, x, x));
  }

  lemma AnswersIt(config: Config, sh: Shared, u: UrbSubmit, client: Client, x: Bytes32)
    ensures Moved(Link(config, sh, Refusing(u), client), ServerMove(Section(0, x, x)), Link(config, sh, RefusedIt(u), client))
  {
    QuietStep(config, sh, Refusing(u), Section(0, x, x));
    assert [] + [Reply(CompleteUrb(Denied(u.seqNum)), 0)] == [Reply(CompleteUrb(Denied(u.seqNum)), 0)];
  }

  /** The second caller has been handed the completion of the first submission. */
  function Misdelivered(u: UrbSubmit, v: UrbSubmit): Client {
    var wrong := Resolution(1, Answer(CompleteUrb(Denied(u.seqNum))));
    Client(Pump(2, map[], map[], [], [Resolution(0, Closed), wrong]), [SubmitUrb(u), SubmitUrb(v)], 1, true)
  }

  lemma Reads(config: Config, sh: Shared, u: UrbSubmit, v: UrbSubmit)
    ensures Moved(Link(config, sh, RefusedIt(u), BothWritten(u, v)), Read, Link(config, sh, RefusedIt(u), Misdelivered(u, v)))
  {
    assert map[u.seqNum := 1] - {u.seqNum} == map[];
  }

  /** A sequence of moves, fair or not. */
  ghost predicate Follows(trace: seq<System>, moves: seq<Move>) {
    |trace| == |moves| + 1 && forall n :: 0 <= n < |moves| ==> Moved(trace[n], moves[n], trace[n + 1])
  }

  /**
   From a new connection, two submissions under one number lead to a state in which the second
   caller has an answer, although the server has answered the first submission only.
   */
  lemma ReusedNumberMisdelivers(config: Config, sh: Shared, u: UrbSubmit, v: UrbSubmit)
    requires u.seqNum == v.seqNum
    ensures exists trace: seq<System>, moves: seq<Move> ::
              && Follows(trace, moves) && Connected(trace[0])
              && trace[|moves|].client.pump.resolved == [Resolution(0, Closed), Resolution(1, Answer(CompleteUrb(Denied(u.seqNum))))]
              && trace[|moves|].client.written == [SubmitUrb(u), SubmitUrb(v)]
              && 0 in trace[|moves|].world.sessions
              && trace[|moves|].world.sessions[0].out == [Reply(CompleteUrb(Denied(u.seqNum)), 0)]
  {
    var x, client := NoToken(), BothWritten(u, v);
    var c0, c1 := Link(config, sh, CONNECTED, FRESH), Link(config, sh, CONNECTED, OneWritten(u));
    var c2, c3 := Link(config, sh, CONNECTED, client), Link(config, sh, ReadIt(u), client);
    var c4, c5 := Link(config, sh, Refusing(u), client), Link(config, sh, RefusedIt(u), client);
    var c6 := Link(config, sh, RefusedIt(u), Misdelivered(u, v));
    WritesOne(config, sh, u);
    WritesTwo(config, sh, u, v);
    ReadsIt(config, sh, u, v);
    RefusesIt(config, sh, u, client, x);
    AnswersIt(config, sh, u, client, x);
    Reads(config, sh, u, v);
    SixMoves(c0, Command(UrbCmd(u)), c1, Command(UrbCmd(v)), c2, ServerMove(Receive(0, SubmitUrb(u), [])), c3,
             ServerMove(Section(0, x, x)), c4, ServerMove(Section(0, x, x)), c5, Read, c6);
  }

  lemma SixMoves(
    c0: System, m0: Move, c1: System, m1: Move, c2: System, m2: Move, c3: System, m3: Move, c4: System, m4: Move, c5: System,
    m5: Move, c6: System)
    requires Moved(c0, m0, c1) && Moved(c1, m1, c2) && Moved(c2, m2, c3) && Moved(c3, m3, c4) && Moved(c4, m4, c5) && Moved(c5, m5, c6)
    ensures Follows([c0, c1, c2, c3, c4, c5, c6], [m0, m1, m2, m3, m4, m5])
  {
  }
}
