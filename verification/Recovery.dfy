/**
 Bounded recovery: `urb_with_recovery` and `reconnect_and_reattach` in
 crates/farbus-core/src/usbip_forward.rs, `connect_with_retry` in crates/farbus-core/src/reconnect.rs.
 What the network answers is given by functions of the attempt number; what the code does is a log.
 */
module Recovery {
  import opened Results
  import opened Messages
  import opened Tally

  datatype ClientError = Frame | Io | Tls | PairRejected | Unexpected | AttachRejected | Closed

  datatype Event =
    | Submitted(device: DeviceId)
    | Reconnected(ok: bool)
    | Attached(target: DeviceId, granted: bool)
    | Slept(millis: nat)

  const TRIES: nat := 8
  const FIRST_BACKOFF: nat := 50
  const MAX_BACKOFF: nat := 500

  /** The answers to the k-th reconnect and to the attach after it. */
  datatype Network = Network(reconnect: nat -> Outcome<ClientError>, attach: nat -> Outcome<ClientError>)

  function Min(a: nat, b: nat): nat {
    if a <= b then a else b
  }

  function Doubled(backoff: nat, max: nat): nat {
    Min(backoff * 2, max)
  }

  // ---------------------------------------------------------------- reconnect and reattach

  /** One try: its outcome and what it did. */
  function Try(net: Network, device: DeviceId, k: nat): (Outcome<ClientError>, seq<Event>) {
    match net.reconnect(k)
    case Fail(e) => (Fail(e), [Reconnected(false)])
    case Pass => (net.attach(k), [Reconnected(true), Attached(device, net.attach(k).Pass?)])
  }

  predicate Final(r: Outcome<ClientError>) {
    r.Pass? || r.error == AttachRejected
  }

  /** The tries from the k-th on. */
  function Reattach(net: Network, device: DeviceId, k: nat, backoff: nat, last: ClientError): (Outcome<ClientError>, seq<Event>)
    requires k <= TRIES
    decreases TRIES - k
  {
    if k == TRIES then (Fail(last), [])
    else
      var (r, did) := Try(net, device, k);
      if Final(r) then (r, did)
      else
        var (r', more) := Reattach(net, device, k + 1, Doubled(backoff, MAX_BACKOFF), r.error);
        (r', did + [Slept(backoff)] + more)
  }

  method ReconnectAndReattach(net: Network, device: DeviceId) returns (r: Outcome<ClientError>, log: seq<Event>)
    ensures (r, log) == Reattach(net, device, 0, FIRST_BACKOFF, Closed)
  {
    var last, backoff := Closed, FIRST_BACKOFF;
    ghost var whole := Reattach(net, device, 0, FIRST_BACKOFF, Closed);
    log := [];
    assert [] + whole.1 == whole.1;
    for k := 0 to TRIES
      invariant var rest := Reattach(net, device, k, backoff, last); whole == (rest.0, log + rest.1)
    {
      var (result, did) := Try(net, device, k);
      if Final(result) {
        return result, log + did;
      }
      Regroup(log, did, Slept(backoff), Reattach(net, device, k + 1, Doubled(backoff, MAX_BACKOFF), result.error).1);
      last := result.error;
      log := log + did + [Slept(backoff)];
      backoff := Doubled(backoff, MAX_BACKOFF);
    }
    assert log + [] == log;
    return Fail(last), log;
  }

  lemma Regroup(log: seq<Event>, did: seq<Event>, x: Event, more: seq<Event>)
    ensures log + (did + [x] + more) == log + did + [x] + more
  {
  }

  function SleepTime(log: seq<Event>): nat {
    if log == [] then 0 else (if log[0].Slept? then log[0].millis else 0) + SleepTime(log[1..])
  }

  lemma {:induction false} SleepAppend(a: seq<Event>, b: seq<Event>)
    ensures SleepTime(a + b) == SleepTime(a) + SleepTime(b)
    decreases |a|
  {
    if a == [] {
      assert a + b == b;
    } else {
      assert (a + b)[1..] == a[1..] + b;
      SleepAppend(a[1..], b);
    }
  }

  /** The most that can be slept from the k-th try on. */
  function SleepBudget(k: nat, backoff: nat): nat
    requires k <= TRIES
    decreases TRIES - k
  {
    if k == TRIES then 0 else backoff + SleepBudget(k + 1, Doubled(backoff, MAX_BACKOFF))
  }

  function IsReconnect(): Event -> bool {
    (e: Event) => e.Reconnected?
  }

  function IsSubmit(): Event -> bool {
    (e: Event) => e.Submitted?
  }

  lemma CountOne(x: Event, p: Event -> bool)
    ensures Count(p, [x]) == (if p(x) then 1 else 0) && SleepTime([x]) == if x.Slept? then x.millis else 0
  {
    assert [x][1..] == [];
  }

  lemma TryCounts(net: Network, device: DeviceId, k: nat)
    ensures var did := Try(net, device, k).1;
            Count(IsReconnect(), did) == 1 && SleepTime(did) == 0 && Count(IsSubmit(), did) == 0
  {
    var ok := net.reconnect(k).Pass?;
    CountOne(Reconnected(ok), IsReconnect());
    CountOne(Reconnected(ok), IsSubmit());
    if ok {
      var a := Attached(device, net.attach(k).Pass?);
      CountOne(a, IsReconnect());
      CountOne(a, IsSubmit());
      CountAppend(IsReconnect(), [Reconnected(ok)], [a]);
      CountAppend(IsSubmit(), [Reconnected(ok)], [a]);
      SleepAppend([Reconnected(ok)], [a]);
      assert [Reconnected(ok), a] == [Reconnected(ok)] + [a];
    }
  }

  lemma CountThree(a: seq<Event>, x: Event, b: seq<Event>, p: Event -> bool)
    ensures Count(p, a + [x] + b) == Count(p, a) + (if p(x) then 1 else 0) + Count(p, b)
    ensures SleepTime(a + [x] + b) == SleepTime(a) + (if x.Slept? then x.millis else 0) + SleepTime(b)
  {
    CountAppend(p, a + [x], b);
    CountAppend(p, a, [x]);
    SleepAppend(a + [x], b);
    SleepAppend(a, [x]);
    assert [x][1..] == [];
  }

  lemma {:induction false} ReattachBounds(net: Network, device: DeviceId, k: nat, backoff: nat, last: ClientError)
    requires k <= TRIES
    ensures var log := Reattach(net, device, k, backoff, last).1;
            Count(IsReconnect(), log) <= TRIES - k && SleepTime(log) <= SleepBudget(k, backoff) && Count(IsSubmit(), log) == 0
    decreases TRIES - k
  {
    if k < TRIES {
      var (r, did) := Try(net, device, k);
      TryCounts(net, device, k);
      if !Final(r) {
        var next := Doubled(backoff, MAX_BACKOFF);
        var more := Reattach(net, device, k + 1, next, r.error).1;
        ReattachBounds(net, device, k + 1, next, r.error);
        CountThree(did, Slept(backoff), more, IsReconnect());
        CountThree(did, Slept(backoff), more, IsSubmit());
      }
    }
  }

  lemma Budget()
    ensures SleepBudget(0, FIRST_BACKOFF) == 2750
  {
    assert SleepBudget(7, 500) == 500 + SleepBudget(8, 500);
    assert SleepBudget(5, 500) == 1500;
    assert SleepBudget(3, 400) == 400 + SleepBudget(4, 500) == 2400;
  }

  /** Success comes only with the last reconnect and the last attach of the very device both granted. */
  lemma {:induction false} ReattachSucceeds(net: Network, device: DeviceId, k: nat, backoff: nat, last: ClientError)
    requires k <= TRIES && Reattach(net, device, k, backoff, last).0.Pass?
    ensures var log := Reattach(net, device, k, backoff, last).1;
            |log| >= 2 && log[|log| - 2..] == [Reconnected(true), Attached(device, true)]
    decreases TRIES - k
  {
    var (r, did) := Try(net, device, k);
    if !Final(r) {
      ReattachSucceeds(net, device, k + 1, Doubled(backoff, MAX_BACKOFF), r.error);
    }
  }

  // ---------------------------------------------------------------- one URB

  predicate ConnectionLost(e: ClientError) {
    e == Closed || e == Frame || e == Io
  }

  /** `first` and `second` are what the two submissions answer. */
  function Submit(net: Network, device: DeviceId, first: Result<UrbComplete, ClientError>, second: Result<UrbComplete, ClientError>)
    : (Result<UrbComplete, ClientError>, seq<Event>)
  {
    if first.Ok? || !ConnectionLost(first.error) then (first, [Submitted(device)])
    else
      var (r, log) := Reattach(net, device, 0, FIRST_BACKOFF, Closed);
      match r
      case Fail(e) => (Err(e), [Submitted(device)] + log)
      case Pass => (second, [Submitted(device)] + log + [Submitted(device)])
  }

  method UrbWithRecovery(net: Network, device: DeviceId, answers: nat -> Result<UrbComplete, ClientError>)
    returns (r: Result<UrbComplete, ClientError>, log: seq<Event>)
    ensures (r, log) == Submit(net, device, answers(0), answers(1))
  {
    var attempt := 0;
    log := [];
    while true
      invariant attempt <= 1
      invariant attempt == 0 ==> log == []
      invariant attempt == 1 ==>
        && answers(0).Err? && ConnectionLost(answers(0).error)
        && Reattach(net, device, 0, FIRST_BACKOFF, Closed).0 == Pass
        && log == [Submitted(device)] + Reattach(net, device, 0, FIRST_BACKOFF, Closed).1
      decreases 1 - attempt
    {
      log := log + [Submitted(device)];
      assert attempt == 0 ==> log == [Submitted(device)];
      var result := answers(attempt);
      if result.Err? && ConnectionLost(result.error) && attempt == 0 {
        attempt := attempt + 1;
        var recovered, did := ReconnectAndReattach(net, device);
        assert log == [Submitted(device)];
        log := log + did;
        assert log == [Submitted(device)] + did;
        if recovered.Fail? {
          return Err(recovered.error), log;
        }
      } else {
        return result, log;
      }
    }
  }

  /**
   At most two submissions, eight reconnects and 2750 ms of sleep; the second submission directly
   follows a reconnect and a granted attach of the same device.
   */
  lemma RecoveryIsBounded(net: Network, device: DeviceId, first: Result<UrbComplete, ClientError>, second: Result<UrbComplete, ClientError>)
    ensures var log := Submit(net, device, first, second).1;
            && 1 <= Count(IsSubmit(), log) <= 2 && Count(IsReconnect(), log) <= 8 && SleepTime(log) <= 2750
            && (Count(IsSubmit(), log) == 2 ==>
                  |log| >= 4 && log[|log| - 3..] == [Reconnected(true), Attached(device, true), Submitted(device)])
  {
    var s := Submitted(device);
    if first.Ok? || !ConnectionLost(first.error) {
      CountOne(s, IsSubmit());
      CountOne(s, IsReconnect());
    } else {
      var backoff := FIRST_BACKOFF;
      var (r, did) := Reattach(net, device, 0, backoff, Closed);
      Budget();
      ReattachBounds(net, device, 0, backoff, Closed);
      OnceOrTwice(s, did);
      if r.Pass? {
        ReattachSucceeds(net, device, 0, backoff, Closed);
        EndsWith(s, did);
      }
    }
  }

  /**
   Which outcomes of a submission are recovered from, and what the recovery makes of them: after a lost
   connection, a frame error or an I/O error, a granted recovery returns what the second submission
   answers and a failed one its own error; any other outcome is returned as it is, after one submission.
   */
  lemma RecoveredExactly(net: Network, device: DeviceId, first: Result<UrbComplete, ClientError>, second: Result<UrbComplete, ClientError>)
    ensures var (r, log) := Submit(net, device, first, second);
            var (recovery, did) := Reattach(net, device, 0, 50, Closed);
            if first in {Err(Closed), Err(Frame), Err(Io)} then
              && Count(IsReconnect(), log) == Count(IsReconnect(), did) >= 1
              && r == (if recovery.Pass? then second else Err(recovery.error))
              && Count(IsSubmit(), log) == if recovery.Pass? then 2 else 1
            else r == first && log == [Submitted(device)]
  {
    if first.Err? && ConnectionLost(first.error) {
      var backoff := FIRST_BACKOFF;
      ReattachBounds(net, device, 0, backoff, Closed);
      ReattachExactly(net, device, 0, backoff, Closed);
      OnceOrTwice(Submitted(device), Reattach(net, device, 0, backoff, Closed).1);
    }
  }

  lemma EndsWith(s: Event, did: seq<Event>)
    requires |did| >= 2
    ensures var log := [s] + did + [s]; |log| >= 4 && log[|log| - 3..] == did[|did| - 2..] + [s]
  {
  }

  lemma OnceOrTwice(s: Event, did: seq<Event>)
    requires s.Submitted? && Count(IsSubmit(), did) == 0
    ensures Count(IsSubmit(), [s] + did) == 1 && Count(IsSubmit(), [s] + did + [s]) == 2
    ensures Count(IsReconnect(), [s] + did) == Count(IsReconnect(), [s] + did + [s]) == Count(IsReconnect(), did)
    ensures SleepTime([s] + did) == SleepTime([s] + did + [s]) == SleepTime(did)
  {
    Surrounded(s, did, IsSubmit());
    Surrounded(s, did, IsReconnect());
  }

  lemma Surrounded(s: Event, did: seq<Event>, p: Event -> bool)
    requires s.Submitted?
    ensures Count(p, [s] + did) == (if p(s) then 1 else 0) + Count(p, did)
    ensures Count(p, [s] + did + [s]) == (if p(s) then 2 else 0) + Count(p, did)
    ensures SleepTime([s] + did) == SleepTime(did) && SleepTime([s] + did + [s]) == SleepTime(did)
  {
    assert [s][1..] == [];
    CountAppend(p, [s], did);
    CountAppend(p, [s] + did, [s]);
    SleepAppend([s], did);
    SleepAppend([s] + did, [s]);
  }

  // ---------------------------------------------------------------- connecting

  datatype Policy = Policy(initial: nat, max: nat, attempts: nat)

  /** The k-th sleep, as the loop computes it. */
  function Backoff(policy: Policy, k: nat): nat {
    if k == 0 then policy.initial else Doubled(Backoff(policy, k - 1), policy.max)
  }

  function Power2(k: nat): nat {
    if k == 0 then 1 else 2 * Power2(k - 1)
  }

  lemma {:induction false} BackoffCapped(policy: Policy, k: nat)
    ensures k > 0 || policy.initial <= policy.max ==> Backoff(policy, k) == Min(policy.initial * Power2(k), policy.max)
  {
    if k == 1 {
      assert Power2(1) == 2 * Power2(0);
    } else if k > 1 {
      BackoffCapped(policy, k - 1);
      assert policy.initial * Power2(k) == 2 * (policy.initial * Power2(k - 1));
    }
  }

  /** The k-th sleep is min(initial * 2^k, max) for every k if and only if the initial backoff is within the maximum. */
  lemma BackoffIff(policy: Policy)
    ensures (forall k :: Backoff(policy, k) == Min(policy.initial * Power2(k), policy.max)) <==> policy.initial <= policy.max
  {
    if policy.initial <= policy.max {
      forall k ensures Backoff(policy, k) == Min(policy.initial * Power2(k), policy.max) {
        BackoffCapped(policy, k);
      }
    } else {
      assert Backoff(policy, 0) != Min(policy.initial * Power2(0), policy.max);
    }
  }

  /** The number of failed attempts before the first success, if there is one within `n`. */
  function Failures(connect: nat -> Outcome<ClientError>, n: nat): (k: nat)
    ensures k <= n && (k < n ==> connect(k).Pass?) && forall i: nat :: i < k ==> connect(i).Fail?
  {
    if n == 0 then 0
    else
      var k := Failures(connect, n - 1);
      if k == n - 1 && connect(k).Fail? then n else k
  }

  /** The first n backoffs. */
  function Backoffs(policy: Policy, n: nat): (s: seq<nat>)
    ensures |s| == n && forall k :: 0 <= k < n ==> s[k] == Backoff(policy, k)
  {
    if n == 0 then [] else Backoffs(policy, n - 1) + [Backoff(policy, n - 1)]
  }

  /** `connect(k)` is what the k-th attempt answers; the sleeps are logged. */
  method ConnectWithRetry(policy: Policy, connect: nat -> Outcome<ClientError>) returns (r: Outcome<ClientError>, sleeps: seq<nat>)
    ensures sleeps == Backoffs(policy, Failures(connect, policy.attempts))
    ensures r.Pass? <==> |sleeps| < policy.attempts
    ensures r.Fail? ==> r == if policy.attempts == 0 then Fail(Tls) else connect(policy.attempts - 1)
  {
    var backoff := policy.initial;
    var last: Outcome<ClientError> := Fail(Tls);
    sleeps := [];
    var i := 0;
    while i < policy.attempts
      invariant 0 <= i <= policy.attempts && i == Failures(connect, i)
      invariant sleeps == Backoffs(policy, i) && backoff == Backoff(policy, i)
      invariant last.Fail? && last == if i == 0 then Fail(Tls) else connect(i - 1)
    {
      var result := connect(i);
      if result.Pass? {
        FirstSuccess(connect, i, policy.attempts);
        return Pass, sleeps;
      }
      last := result;
      sleeps := sleeps + [backoff];
      backoff := Doubled(backoff, policy.max);
      i := i + 1;
    }
    return last, sleeps;
  }

  lemma {:induction false} FirstSuccess(connect: nat -> Outcome<ClientError>, k: nat, n: nat)
    requires Failures(connect, k) == k < n && connect(k).Pass?
    ensures Failures(connect, n) == k
    decreases n
  {
    if n > k + 1 {
      FirstSuccess(connect, k, n - 1);
    }
  }

  // ---------------------------------------------------------------- exactly what a recovery does

  /** The sleeps in a log, in order. */
  function SleepsOf(log: seq<Event>): seq<nat> {
    if log == [] then [] else (if log[0].Slept? then [log[0].millis] else []) + SleepsOf(log[1..])
  }

  lemma {:induction false} SleepsAppend(a: seq<Event>, b: seq<Event>)
    ensures SleepsOf(a + b) == SleepsOf(a) + SleepsOf(b)
    decreases |a|
  {
    if a == [] {
      assert a + b == b;
    } else {
      var head := if a[0].Slept? then [a[0].millis] else [];
      assert (a + b)[1..] == a[1..] + b && (a + b)[0] == a[0];
      SleepsAppend(a[1..], b);
      assert head + (SleepsOf(a[1..]) + SleepsOf(b)) == head + SleepsOf(a[1..]) + SleepsOf(b);
    }
  }

  lemma SleepsOne(x: Event)
    ensures SleepsOf([x]) == if x.Slept? then [x.millis] else []
  {
    assert [x][1..] == [];
  }

  lemma TrySleeps(net: Network, device: DeviceId, k: nat)
    ensures SleepsOf(Try(net, device, k).1) == []
  {
    var ok := net.reconnect(k).Pass?;
    SleepsOne(Reconnected(ok));
    if ok {
      var a := Attached(device, net.attach(k).Pass?);
      SleepsOne(a);
      SleepsAppend([Reconnected(ok)], [a]);
      assert [Reconnected(ok), a] == [Reconnected(ok)] + [a];
    }
  }

  /** What the k-th try comes to: the error of its reconnect, or what its attach answers. */
  function Verdict(net: Network, k: nat): Outcome<ClientError> {
    if net.reconnect(k).Fail? then net.reconnect(k) else net.attach(k)
  }

  /** How many tries in a row, from the k-th on, fail, and not because the attach was rejected. */
  function Misses(net: Network, device: DeviceId, k: nat): (m: nat)
    requires k <= TRIES
    ensures k + m <= TRIES
    ensures forall j :: k <= j < k + m ==> Verdict(net, j).Fail? && Verdict(net, j) != Fail(AttachRejected)
    ensures k + m < TRIES ==> Verdict(net, k + m) in {Pass, Fail(AttachRejected)}
    decreases TRIES - k
  {
    if k == TRIES || Final(Try(net, device, k).0) then 0 else 1 + Misses(net, device, k + 1)
  }

  function BackoffsFrom(backoff: nat, n: nat): seq<nat>
    decreases n
  {
    if n == 0 then [] else [backoff] + BackoffsFrom(Doubled(backoff, MAX_BACKOFF), n - 1)
  }

  lemma MissStep(net: Network, device: DeviceId, k: nat, backoff: nat, last: ClientError)
    requires k < TRIES && !Final(Try(net, device, k).0)
    ensures var e, next := Try(net, device, k).0.error, Doubled(backoff, MAX_BACKOFF);
            && Reattach(net, device, k, backoff, last).0 == Reattach(net, device, k + 1, next, e).0
            && SleepsOf(Reattach(net, device, k, backoff, last).1) == [backoff] + SleepsOf(Reattach(net, device, k + 1, next, e).1)
            && Count(IsReconnect(), Reattach(net, device, k, backoff, last).1)
                 == 1 + Count(IsReconnect(), Reattach(net, device, k + 1, next, e).1)
  {
    var (r, did) := Try(net, device, k);
    var more := Reattach(net, device, k + 1, Doubled(backoff, MAX_BACKOFF), r.error).1;
    TrySleeps(net, device, k);
    TryCounts(net, device, k);
    CountThree(did, Slept(backoff), more, IsReconnect());
    SleepsAppend(did + [Slept(backoff)], more);
    SleepsAppend(did, [Slept(backoff)]);
    SleepsOne(Slept(backoff));
  }

  lemma FinalStep(net: Network, device: DeviceId, k: nat, backoff: nat, last: ClientError)
    requires k < TRIES && Final(Try(net, device, k).0)
    ensures var (r, log) := Reattach(net, device, k, backoff, last);
            r == Try(net, device, k).0 && SleepsOf(log) == [] && Count(IsReconnect(), log) == 1
  {
    TrySleeps(net, device, k);
    TryCounts(net, device, k);
  }

  /** The outcome, sleeps and number of reconnects of the tries from the k-th on. */
  ghost predicate OnSchedule(
    net: Network, device: DeviceId, k: nat, backoff: nat, last: ClientError, r: Outcome<ClientError>, sleeps: seq<nat>, reconnects: nat)
    requires k <= TRIES
  {
    var m := Misses(net, device, k);
    && sleeps == BackoffsFrom(backoff, m)
    && reconnects == m + (if k + m < TRIES then 1 else 0)
    && r == (if k + m < TRIES then Try(net, device, k + m).0 else if m == 0 then Fail(last) else Try(net, device, TRIES - 1).0)
  }

  lemma MissOnSchedule(
    net: Network, device: DeviceId, k: nat, backoff: nat, last: ClientError, r: Outcome<ClientError>, sleeps: seq<nat>, reconnects: nat)
    requires k < TRIES && !Final(Try(net, device, k).0)
    requires OnSchedule(net, device, k + 1, Doubled(backoff, MAX_BACKOFF), Try(net, device, k).0.error, r, sleeps, reconnects)
    ensures OnSchedule(net, device, k, backoff, last, r, [backoff] + sleeps, 1 + reconnects)
  {
  }

  ghost predicate Exactly(net: Network, device: DeviceId, k: nat, backoff: nat, last: ClientError)
    requires k <= TRIES
  {
    var (r, log) := Reattach(net, device, k, backoff, last);
    OnSchedule(net, device, k, backoff, last, r, SleepsOf(log), Count(IsReconnect(), log))
  }

  lemma MissExactly(net: Network, device: DeviceId, k: nat, backoff: nat, last: ClientError)
    requires k < TRIES && !Final(Try(net, device, k).0)
    requires Exactly(net, device, k + 1, Doubled(backoff, MAX_BACKOFF), Try(net, device, k).0.error)
    ensures Exactly(net, device, k, backoff, last)
  {
    var next, e := Doubled(backoff, MAX_BACKOFF), Try(net, device, k).0.error;
    var (r, more) := Reattach(net, device, k + 1, next, e);
    MissStep(net, device, k, backoff, last);
    MissOnSchedule(net, device, k, backoff, last, r, SleepsOf(more), Count(IsReconnect(), more));
  }

  lemma FinalExactly(net: Network, device: DeviceId, k: nat, backoff: nat, last: ClientError)
    requires k < TRIES && Final(Try(net, device, k).0)
    ensures Exactly(net, device, k, backoff, last)
  {
    FinalStep(net, device, k, backoff, last);
  }

  /** A try that settles the matter is the last, and there is no ninth. */
  lemma {:induction false} ReattachExactly(net: Network, device: DeviceId, k: nat, backoff: nat, last: ClientError)
    requires k <= TRIES
    ensures Exactly(net, device, k, backoff, last)
    decreases TRIES - k
  {
    if k < TRIES {
      if Final(Try(net, device, k).0) {
        FinalExactly(net, device, k, backoff, last);
      } else {
        ReattachExactly(net, device, k + 1, Doubled(backoff, MAX_BACKOFF), Try(net, device, k).0.error);
        MissExactly(net, device, k, backoff, last);
      }
    }
  }

  lemma {:induction false} BackoffsFromAt(i: nat, n: nat, j: nat)
    requires j < n
    ensures |BackoffsFrom(Backoff(Policy(FIRST_BACKOFF, MAX_BACKOFF, TRIES), i), n)| == n
    ensures BackoffsFrom(Backoff(Policy(FIRST_BACKOFF, MAX_BACKOFF, TRIES), i), n)[j] ==
            Min(FIRST_BACKOFF * Power2(i + j), MAX_BACKOFF)
    decreases n
  {
    BackoffCapped(Policy(FIRST_BACKOFF, MAX_BACKOFF, TRIES), i);
    if n > 1 {
      BackoffsFromAt(i + 1, n - 1, if j == 0 then 0 else j - 1);
    }
  }

  /**
   A recovery tries until a try succeeds or its attach is rejected, at most eight times, sleeps
   min(50 * 2^j, 500) ms after the j-th miss, and ends with the outcome of its last try.
   */
  lemma RecoverySchedule(net: Network, device: DeviceId, j: nat)
    ensures var (r, log) := Reattach(net, device, 0, FIRST_BACKOFF, Closed);
            var m := Misses(net, device, 0);
            && Count(IsReconnect(), log) == (if m < 8 then m + 1 else 8)
            && m <= 8 && (j < m ==> Verdict(net, j).Fail? && Verdict(net, j) != Fail(AttachRejected))
            && (m < 8 ==> Verdict(net, m) in {Pass, Fail(AttachRejected)})
            && r == Verdict(net, if m < 8 then m else 7)
            && |SleepsOf(log)| == m && (j < m ==> SleepsOf(log)[j] == Min(50 * Power2(j), 500))
  {
    ReattachExactly(net, device, 0, FIRST_BACKOFF, Closed);
    var m := Misses(net, device, 0);
    if m > 0 {
      BackoffsFromAt(0, m, if j < m then j else 0);
    }
  }
}
