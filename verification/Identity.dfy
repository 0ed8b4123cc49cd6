/**
 Pairing PINs: crates/farbus-core/src/identity.rs and the PIN operations of
 crates/farbus-core/src/session.rs.  Instants are counted in milliseconds; a PIN is known by its
 hash, and a newly drawn PIN arrives as the hash `drawn`.
 */
module Identity {
  import opened Results
  import opened Bytes
  import opened Tally

  const PIN_TTL: nat := 120_000
  const MAX_ATTEMPTS: nat := 5

  type Hash = Bytes32

  /** Bitwise exclusive or, digit by digit. */
  function Xor(a: nat, b: nat): nat {
    if a == 0 && b == 0 then 0 else 2 * Xor(a / 2, b / 2) + if a % 2 != b % 2 then 1 else 0
  }

  /** Bitwise or, digit by digit. */
  function Or(a: nat, b: nat): nat {
    if a == 0 && b == 0 then 0 else 2 * Or(a / 2, b / 2) + if a % 2 == 1 || b % 2 == 1 then 1 else 0
  }

  lemma {:induction false} XorZero(a: nat, b: nat)
    ensures Xor(a, b) == 0 <==> a == b
  {
    if a != 0 || b != 0 {
      XorZero(a / 2, b / 2);
    }
  }

  lemma {:induction false} OrZero(a: nat, b: nat)
    ensures Or(a, b) == 0 <==> a == 0 && b == 0
  {
    if a != 0 || b != 0 {
      OrZero(a / 2, b / 2);
    }
  }

  /** The comparison that looks at every byte: differences are or-ed together, never branched on. */
  method ConstantTimeEq(a: seq<byte>, b: seq<byte>) returns (equal: bool)
    ensures equal <==> a == b
  {
    if |a| != |b| {
      return false;
    }
    var diff: nat := 0;
    for i := 0 to |a|
      invariant diff == 0 <==> a[..i] == b[..i]
    {
      XorZero(a[i], b[i]);
      OrZero(diff, Xor(a[i], b[i]));
      diff := Or(diff, Xor(a[i], b[i]));
      assert a[..i + 1] == a[..i] + [a[i]] && b[..i + 1] == b[..i] + [b[i]];
    }
    assert a[..|a|] == a && b[..|b|] == b;
    return diff == 0;
  }

  // ---------------------------------------------------------------- one PIN

  datatype Pin = Pin(hash: Hash, expiresAt: nat, attempts: nat, consumed: bool)

  function Issue(now: nat, drawn: Hash): Pin {
    Pin(drawn, now + PIN_TTL, 0, false)
  }

  predicate Reissuable(pin: Pin, now: nat) {
    now > pin.expiresAt && pin.attempts < MAX_ATTEMPTS
  }

  /** Whether `is_valid` gets as far as comparing the candidate. */
  predicate Compares(pin: Pin, now: nat) {
    !pin.consumed && pin.attempts < MAX_ATTEMPTS && now <= pin.expiresAt
  }

  /** `u8::saturating_add(1)`. */
  function NextAttempt(attempts: nat): nat {
    if attempts < 255 then attempts + 1 else attempts
  }

  function CheckPin(pin: Pin, now: nat, candidate: Hash): (bool, Pin) {
    if !Compares(pin, now) then (false, pin)
    else if pin.hash == candidate then (true, pin.(consumed := true))
    else (false, pin.(attempts := NextAttempt(pin.attempts)))
  }

  /** `validate_pairing_pin`: one critical section. */
  function Validate(pin: Pin, now: nat, candidate: Hash, drawn: Hash): (bool, Pin) {
    if Reissuable(pin, now) then (false, Issue(now, drawn))
    else
      var (success, checked) := CheckPin(pin, now, candidate);
      (success, if success then Issue(now, drawn) else checked)
  }

  /** `renew_expired_pin`. */
  function Renew(pin: Pin, now: nat, drawn: Hash): Pin {
    if Reissuable(pin, now) then Issue(now, drawn) else pin
  }

  // ---------------------------------------------------------------- runs

  datatype PinOp =
    | Attempt(now: nat, candidate: Hash, drawn: Hash)
    | Tick(now: nat, drawn: Hash)

  /** A candidate compared with the PIN issued as number `serial`. */
  datatype Comparison = Comparison(serial: nat, accepted: bool)

  /** The current PIN, how many were issued before it, and every comparison made so far. */
  datatype History = History(pin: Pin, serial: nat, log: seq<Comparison>)

  function Start(now: nat, drawn: Hash): History {
    History(Issue(now, drawn), 0, [])
  }

  /** One operation: its answer and the history after it. */
  function Step(h: History, op: PinOp): (bool, History) {
    match op
    case Tick(now, drawn) =>
      (false, if Reissuable(h.pin, now) then History(Renew(h.pin, now, drawn), h.serial + 1, h.log) else h)
    case Attempt(now, candidate, drawn) =>
      var (success, pin) := Validate(h.pin, now, candidate, drawn);
      if Reissuable(h.pin, now) then (success, History(pin, h.serial + 1, h.log))
      else if Compares(h.pin, now) then
        (success, History(pin, if success then h.serial + 1 else h.serial, h.log + [Comparison(h.serial, success)]))
      else (success, History(pin, h.serial, h.log))
  }

  function Run(h: History, ops: seq<PinOp>): History
    decreases |ops|
  {
    if ops == [] then h else Run(Step(h, ops[0]).1, ops[1..])
  }

  /** How often PIN number `serial` was compared with the given result. */
  function Comparisons(log: seq<Comparison>, serial: nat, accepted: bool): nat {
    Count(Compared(serial, accepted), log)
  }

  function Compared(serial: nat, accepted: bool): Comparison -> bool {
    (c: Comparison) => c == Comparison(serial, accepted)
  }

  lemma ComparisonsLast(log: seq<Comparison>, c: Comparison, serial: nat, accepted: bool)
    ensures Comparisons(log + [c], serial, accepted) ==
            Comparisons(log, serial, accepted) + if c == Comparison(serial, accepted) then 1 else 0
  {
    CountLast(Compared(serial, accepted), log, c);
  }

  /** No PIN was compared more than five times or accepted twice, and those not yet issued not at all. */
  ghost predicate Budgeted(log: seq<Comparison>, serial: nat) {
    && (forall s :: Comparisons(log, s, false) + Comparisons(log, s, true) <= MAX_ATTEMPTS && Comparisons(log, s, true) <= 1)
    && (forall s, a :: s > serial ==> Comparisons(log, s, a) == 0)
  }

  /** An acceptance is the last comparison of its PIN, and the current PIN was never accepted. */
  ghost predicate AcceptedLast(log: seq<Comparison>, serial: nat) {
    && (forall i, j :: 0 <= i < j < |log| && log[i].accepted ==> log[j].serial > log[i].serial)
    && (forall i :: 0 <= i < |log| ==> log[i].serial <= serial && (log[i].accepted ==> log[i].serial < serial))
  }

  /**
   What every run keeps: the attempt counter is the number of failed comparisons of the current
   PIN, which was never accepted; every PIN stays within its budget.
   */
  ghost predicate WellCounted(h: History) {
    && h.pin.attempts == Comparisons(h.log, h.serial, false) <= MAX_ATTEMPTS
    && !h.pin.consumed && Comparisons(h.log, h.serial, true) == 0
    && Budgeted(h.log, h.serial) && AcceptedLast(h.log, h.serial)
  }

  lemma ComparedBudgeted(log: seq<Comparison>, c: Comparison, serial: nat)
    requires Budgeted(log, c.serial) && Comparisons(log, c.serial, false) < MAX_ATTEMPTS && Comparisons(log, c.serial, true) == 0
    requires c.serial <= serial
    ensures Budgeted(log + [c], serial)
  {
    forall s ensures Comparisons(log + [c], s, false) + Comparisons(log + [c], s, true) <= MAX_ATTEMPTS && Comparisons(log + [c], s, true) <= 1 {
      ComparisonsLast(log, c, s, false);
      ComparisonsLast(log, c, s, true);
    }
    forall s, a | s > serial ensures Comparisons(log + [c], s, a) == 0 {
      ComparisonsLast(log, c, s, a);
    }
  }

  /** The history after PIN number `h.serial` was compared. */
  lemma ComparedWellCounted(h: History, c: Comparison, pin: Pin)
    requires WellCounted(h) && c.serial == h.serial && h.pin.attempts < MAX_ATTEMPTS && !pin.consumed
    requires pin.attempts == if c.accepted then 0 else h.pin.attempts + 1
    ensures WellCounted(History(pin, if c.accepted then h.serial + 1 else h.serial, h.log + [c]))
  {
    var serial := if c.accepted then h.serial + 1 else h.serial;
    ComparedBudgeted(h.log, c, serial);
    ComparisonsLast(h.log, c, serial, false);
    ComparisonsLast(h.log, c, serial, true);
  }

  /** The history after an expired PIN was replaced. */
  lemma ReissuedWellCounted(h: History, pin: Pin)
    requires WellCounted(h) && pin.attempts == 0 && !pin.consumed
    ensures WellCounted(History(pin, h.serial + 1, h.log))
  {
  }

  lemma StepWellCounted(h: History, op: PinOp)
    requires WellCounted(h)
    ensures WellCounted(Step(h, op).1)
  {
    if Reissuable(h.pin, op.now) {
      ReissuedWellCounted(h, Issue(op.now, op.drawn));
    } else if op.Attempt? && Compares(h.pin, op.now) {
      ComparedWellCounted(h, Comparison(h.serial, h.pin.hash == op.candidate), Step(h, op).1.pin);
    }
  }

  lemma {:induction false} RunWellCounted(h: History, ops: seq<PinOp>)
    requires WellCounted(h)
    ensures WellCounted(Run(h, ops))
    decreases |ops|
  {
    if ops != [] {
      StepWellCounted(h, ops[0]);
      RunWellCounted(Step(h, ops[0]).1, ops[1..]);
    }
  }

  /** Over any run, each issued PIN is compared at most five times and accepted at most once. */
  lemma PinBudget(now: nat, drawn: Hash, ops: seq<PinOp>, serial: nat)
    ensures var log := Run(Start(now, drawn), ops).log;
            Comparisons(log, serial, false) + Comparisons(log, serial, true) <= 5 && Comparisons(log, serial, true) <= 1
  {
    RunWellCounted(Start(now, drawn), ops);
  }

  /** An accepted PIN is replaced within the operation that accepted it, and never compared again. */
  lemma AcceptedPinIsReplaced(now: nat, drawn: Hash, ops: seq<PinOp>, i: nat, j: nat)
    requires var h := Run(Start(now, drawn), ops); i < |h.log| && h.log[i].accepted
    ensures var h := Run(Start(now, drawn), ops);
            h.log[i].serial < h.serial && (i < j < |h.log| ==> h.log[j].serial != h.log[i].serial)
  {
    RunWellCounted(Start(now, drawn), ops);
  }

  ghost predicate LockedOut(h: History) {
    h.pin.attempts >= MAX_ATTEMPTS
  }

  /** Five failures are absorbing: whatever follows, the locked PIN stays and nothing is compared. */
  lemma {:induction false} LockoutAbsorbs(h: History, ops: seq<PinOp>)
    requires LockedOut(h)
    ensures Run(h, ops) == h
    decreases |ops|
  {
    if ops != [] {
      assert Step(h, ops[0]) == (false, h);
      LockoutAbsorbs(h, ops[1..]);
    }
  }

  /** The lockout is reached exactly by five failed comparisons of the current PIN, and no candidate succeeds after it. */
  lemma NoSuccessAfterLockout(now: nat, drawn: Hash, before: seq<PinOp>, after: seq<PinOp>, op: PinOp)
    requires var h := Run(Start(now, drawn), before); Comparisons(h.log, h.serial, false) == 5
    ensures var h := Run(Start(now, drawn), before);
            !Step(Run(h, after), op).0 && Step(Run(h, after), op).1 == h
  {
    var h := Run(Start(now, drawn), before);
    RunWellCounted(Start(now, drawn), before);
    LockoutAbsorbs(h, after);
  }

  /**
   A candidate is accepted if and only if it matches the PIN, which has not expired, has been failed
   fewer than five times and was not used before; a mismatch that is compared counts as a failure, and an
   expired PIN that is not locked out is replaced.
   */
  lemma AcceptedIff(pin: Pin, now: nat, candidate: Hash, drawn: Hash)
    ensures var (success, after) := Validate(pin, now, candidate, drawn);
            && (success <==> pin.hash == candidate && now <= pin.expiresAt && pin.attempts < 5 && !pin.consumed)
            && (success || (now > pin.expiresAt && pin.attempts < 5) ==> after == Pin(drawn, now + 120_000, 0, false))
            && (!success && now <= pin.expiresAt ==>
                  after == if pin.attempts < 5 && !pin.consumed then pin.(attempts := pin.attempts + 1) else pin)
            && (pin.attempts >= 5 ==> !success && after == pin)
  {
  }

  /** A PIN lives two minutes: presented alone, it is accepted exactly until then, and replaced exactly after. */
  lemma PinLifetime(issued: nat, now: nat, hash: Hash, drawn: Hash)
    ensures Validate(Issue(issued, hash), now, hash, drawn).0 <==> now <= issued + 2 * 60 * 1000
    ensures Renew(Issue(issued, hash), now, drawn) == if now <= issued + 2 * 60 * 1000 then Issue(issued, hash) else Issue(now, drawn)
  {
  }

  // ---------------------------------------------------------------- the object

  class PairingPin {
    var state: Pin

    constructor (now: nat, drawn: Hash)
      ensures state == Issue(now, drawn)
    {
      state := Issue(now, drawn);
    }

    /** Replaces an expired PIN that is not locked out; says whether it did. */
    method ReissueIfExpired(now: nat, drawn: Hash) returns (reissued: bool)
      modifies this
      ensures reissued <==> now > old(state).expiresAt && old(state).attempts < 5
      ensures state == if reissued then Pin(drawn, now + 120_000, 0, false) else old(state)
      ensures state == Renew(old(state), now, drawn)
    {
      if now <= state.expiresAt || state.attempts >= MAX_ATTEMPTS {
        return false;
      }
      state := Issue(now, drawn);
      return true;
    }

    method IsValid(now: nat, candidate: Hash) returns (valid: bool)
      modifies this
      ensures valid <==> old(state).hash == candidate && now <= old(state).expiresAt && old(state).attempts < 5 && !old(state).consumed
      ensures state.hash == old(state).hash && state.expiresAt == old(state).expiresAt
      ensures state.consumed <==> valid || old(state).consumed
      ensures (!valid && now <= old(state).expiresAt && old(state).attempts < 5 && !old(state).consumed)
              ==> state.attempts == old(state).attempts + 1
      ensures (valid, state) == CheckPin(old(state), now, candidate)
    {
      if state.consumed || state.attempts >= MAX_ATTEMPTS || now > state.expiresAt {
        return false;
      }
      var equal := ConstantTimeEq(state.hash, candidate);
      if equal {
        state := state.(consumed := true);
        return true;
      }
      state := state.(attempts := NextAttempt(state.attempts));
      return false;
    }
  }
}
