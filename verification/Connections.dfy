/**
 A client's connection as part of a run of the server: the worlds of its trace are successive states
 of the run, which may have begun earlier and may serve other connections at the same time.
 */
module Connections {
  import opened Bytes
  import opened Messages
  import opened Inventory
  import opened Tally
  import opened Server
  import opened ServerSession
  import opened ServerWorld
  import opened ServerRuns
  import opened ServerTrace
  import opened ServerResults
  import opened TruthfulRuns
  import opened Composed
  import opened Pump

  datatype Link = Link(start: nat, trace: seq<System>, moves: seq<Move>)

  ghost predicate Serves(r: Run, l: Link) {
    && IsTrace(l.trace, l.moves) && Connected(l.trace[0])
    && l.start + |l.trace| <= |r.states|
    && forall n :: 0 <= n < |l.trace| ==> r.states[l.start + n] == l.trace[n].world
  }

  // ---------------------------------------------------------------- every connection is part of a run

  /** What a move of a connection is to the server; one that does not concern it is the passing of no time. */
  function ServerAction(c: System, m: Move): Action {
    if m.ServerMove? && c.sid in c.world.sessions && InStream(c, m.a) then m.a else Elapse(0)
  }

  /** The run `before`, continued by the connection. */
  function Continued(before: Run, trace: seq<System>, moves: seq<Move>): Run
    requires |trace| == |moves| + 1
  {
    Run(before.states + seq(|moves|, n requires 0 <= n < |moves| => trace[n + 1].world),
        before.actions + seq(|moves|, n requires 0 <= n < |moves| => ServerAction(trace[n], moves[n])))
  }

  lemma MoveIsAction(c: System, m: Move)
    requires c.sid in c.world.sessions
    ensures Composed.Next(c, m).world == Apply(c.world, ServerAction(c, m))
  {
  }

  /** A connection opened in the last state of a run continues it to a run that serves the connection. */
  lemma ConnectionContinuesRun(before: Run, trace: seq<System>, moves: seq<Move>)
    requires IsRun(before) && IsTrace(trace, moves) && Connected(trace[0])
    requires before.states[|before.actions|] == trace[0].world
    ensures IsRun(Continued(before, trace, moves)) && Continued(before, trace, moves).states[0] == before.states[0]
    ensures Serves(Continued(before, trace, moves), Link(|before.actions|, trace, moves))
  {
    var r, m := Continued(before, trace, moves), |before.actions|;
    forall n | 0 <= n < |trace| ensures r.states[m + n] == trace[n].world {
    }
    forall k | 0 <= k < |r.actions| ensures StepAt(r, k) {
      if k < m {
        assert StepAt(before, k);
      } else {
        var n := k - m;
        assert Composed.Step(trace, moves, n);
        MoveIsAction(trace[n], moves[n]);
        assert r.states[m + n] == trace[n].world && r.states[m + n + 1] == trace[n + 1].world;
      }
    }
  }

  // ---------------------------------------------------------------- what a caller is handed

  /** Caller `w` of the connection has been handed `msg` by state `n` of the trace. */
  ghost predicate Handed(l: Link, n: nat, w: nat, msg: Message) {
    n < |l.trace| && Resolution(w, Answer(msg)) in l.trace[n].client.pump.resolved
  }

  /** The session's reply to the request that the caller wrote. */
  ghost predicate RepliedTo(s: Session, request: Message, w: nat, msg: Message) {
    && Reply(msg, w) in s.out && w < |s.received| && s.received[w] == request
    && Answers(request, msg) && Times(OriginOf, s.out, w) == 1
  }

  /** What a caller is handed is the only reply of its session to the very request it wrote. */
  lemma HandedReply(r: Run, devices: seq<LocalDevice>, l: Link, n: nat, w: nat, msg: Message)
    requires IsRun(r) && BootedWith(r.states[0], devices) && Serves(r, l) && Handed(l, n, w, msg)
    ensures var c := l.trace[n];
            w < |c.client.written| && c.sid in r.states[l.start + n].sessions
            && RepliedTo(r.states[l.start + n].sessions[c.sid], c.client.written[w], w, msg)
  {
    var c, m := l.trace[n], l.start + n;
    var i :| 0 <= i < |c.client.pump.resolved| && c.client.pump.resolved[i] == Resolution(w, Answer(msg));
    AnswersReachTheirCallers(l.trace, l.moves, n, i);
    TraceOk(l.trace, l.moves, n);
    RepliesAnswerRequests(r, devices, m, c.sid, Reply(msg, w));
    BootSessionsOk(r, devices, m);
    var s := r.states[m].sessions[c.sid];
    assert s.received <= c.client.written;
    TimesDistinct(OriginOf, s.out, w);
    assert OriginOf(Reply(msg, w)) == w;
  }

  /** Step `k` of the run settled the reply to the request, or a task of the request held it. */
  ghost predicate ToldAt(r: Run, k: nat, sid: nat, w: nat, request: Message, msg: Message) {
    && k + 1 < |r.states| && sid in r.states[k].sessions
    && w < |r.states[k].sessions[sid].received| && r.states[k].sessions[sid].received[w] == request
    && (Settled(r, k, sid, w, msg) || SettledAtOnce(r, k, sid, w, msg) || (request.SubmitUrb? && FromTask(r, k, sid, w, msg)))
  }

  lemma HandedTold(r: Run, devices: seq<LocalDevice>, l: Link, n: nat, w: nat, msg: Message)
    requires IsRun(r) && BootedWith(r.states[0], devices) && Serves(r, l) && Handed(l, n, w, msg)
    ensures var c := l.trace[n];
            && w < |c.client.written|
            && (exists k: nat :: k < l.start + n && ToldAt(r, k, c.sid, w, c.client.written[w], msg))
            && (NeedsToken(msg) ==> exists g: nat :: g < l.start + n && Gate(r, g, c.sid, w))
  {
    var c, m := l.trace[n], l.start + n;
    HandedReply(r, devices, l, n, w, msg);
    RepliesAreTrue(r, devices, m, c.sid, Reply(msg, w));
    var k: nat :| k < m && (Settled(r, k, c.sid, w, msg) || SettledAtOnce(r, k, c.sid, w, msg) || FromTask(r, k, c.sid, w, msg));
    ReceivedStays(r, devices, k, m, c.sid);
    BootSessionsOk(r, devices, k);
    assert ToldAt(r, k, c.sid, w, c.client.written[w], msg);
  }
}
