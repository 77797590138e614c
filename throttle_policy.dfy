/** ThrottlePolicy: forwards a PDU only when at least `interval` microseconds
    have passed since the last forwarded one; the first check always forwards.

    The decision is stated twice. `DueAsWritten` is the comparison in
    src/policy/throttle_policy.cpp: the last transfer time starts at the
    minimum steady-clock time point, and `now - last` is a subtraction of two
    64-bit nanosecond counts that overflows on that first check. The class
    `ThrottlePolicy` is the evidently intended behaviour (the header declares
    a `has_transferred_` flag for it), and it is what the bridge uses. */
module ThrottlePolicies {
  import Machine
  import opened TimeSources

  /** The mutable part of a throttle policy. */
  datatype ThrottleState = ThrottleState(hasTransferred: bool, lastTransfer: nat)

  const Initial: ThrottleState := ThrottleState(false, 0)

  /** `should_transfer` as intended. */
  predicate Due(s: ThrottleState, interval: nat, now: nat) {
    !s.hasTransferred || now - s.lastTransfer >= interval
  }

  /** `on_transferred`: remember the time of this transfer. */
  function Notified(s: ThrottleState, now: nat): ThrottleState {
    ThrottleState(true, now)
  }

  class ThrottlePolicy {
    const interval: nat
    var hasTransferred: bool
    var lastTransfer: nat

    function State(): ThrottleState
      reads this
    {
      ThrottleState(hasTransferred, lastTransfer)
    }

    /** `ThrottlePolicy(interval)`: nothing transferred yet. */
    constructor(interval: nat)
      ensures this.interval == interval && State() == Initial
    {
      this.interval := interval;
      hasTransferred := false;
      lastTransfer := 0;
    }

    /** `should_transfer`: reads the clock and the last transfer time and
        changes nothing (the method has no `modifies` clause). */
    method ShouldTransfer(clock: TimeSource) returns (b: bool)
      ensures b == Due(State(), interval, clock.GetMicroseconds())
    {
      var now := clock.GetMicroseconds();
      b := !hasTransferred || now - lastTransfer >= interval;
    }

    /** `on_transferred`: the last transfer time becomes now. */
    method OnTransferred(clock: TimeSource)
      modifies this
      ensures State() == Notified(old(State()), clock.GetMicroseconds())
    {
      lastTransfer := clock.GetMicroseconds();
      hasTransferred := true;
    }
  }

  /** Before any transfer the policy forwards, at any time. */
  lemma FirstCheckIsDue(interval: nat, now: nat)
    ensures Due(Initial, interval, now)
  {
  }

  /** After a transfer at `t`, a check at `now` forwards exactly when `now`
      is at least `interval` after `t`, whatever happened before. */
  lemma DueAfterTransfer(s: ThrottleState, interval: nat, t: nat, now: nat)
    ensures Due(Notified(s, t), interval, now) <==> now >= t + interval
  {
  }

  /** A notification forgets everything about earlier transfers. */
  lemma NotifiedForgetsHistory(s1: ThrottleState, s2: ThrottleState, t: nat)
    ensures Notified(s1, t) == Notified(s2, t)
  {
  }

  // ---------------------------------------------------------------------
  // The comparison as written

  /** `(now - last_transfer_time_) >= interval_` on steady-clock time points
      counted in nanoseconds: the difference is an int64 that wraps. */
  predicate DueAsWritten(lastNanos: int, nowNanos: int, intervalNanos: int) {
    Machine.WrapInt64(nowNanos - lastNanos) >= intervalNanos
  }

  /** With `last_transfer_time_` still at `time_point::min()`, the difference
      wraps to a negative number for every non-negative time, so the first
      check never forwards, against what the policy promises. */
  lemma AsWrittenFirstCheckNeverDue(nowNanos: int, intervalNanos: int)
    requires 0 <= nowNanos < -Machine.INT64_MIN && intervalNanos >= 0
    ensures !DueAsWritten(Machine.INT64_MIN, nowNanos, intervalNanos)
  {
    var d := nowNanos - Machine.INT64_MIN;
    assert d % Machine.UINT64_MODULUS == d;
    assert Machine.WrapInt64(d) == nowNanos + Machine.INT64_MIN;
  }

  /** The case of the throttle transfer test: at t = 0 with a 100 ms interval
      the as-written check answers no, the intended one yes. */
  lemma AsWrittenMissesFirstTransfer()
    ensures !DueAsWritten(Machine.INT64_MIN, 0, 100_000_000)
    ensures Due(Initial, 100_000, 0)
  {
    AsWrittenFirstCheckNeverDue(0, 100_000_000);
  }

  /** Once a transfer has been recorded the as-written comparison agrees
      with the intended one (for times that fit the nanosecond counter). */
  lemma AsWrittenAgreesAfterTransfer(last: nat, now: nat, interval: nat)
    requires last <= now && now * 1000 < -Machine.INT64_MIN
    ensures DueAsWritten(last * 1000, now * 1000, interval * 1000)
            <==> Due(Notified(Initial, last), interval, now)
  {
    var d := now * 1000 - last * 1000;
    assert 0 <= d < -Machine.INT64_MIN;
    assert d % Machine.UINT64_MODULUS == d;
    assert Machine.WrapInt64(d) == d;
    assert d == (now - last) * 1000;
  }
}
