/** TickerPolicy: forwards on a fixed microsecond grid. The first check only
    starts the grid (`next_tick = now + interval`); later checks forward when
    the next tick has been reached; after a transfer the next tick moves
    forward by whole intervals from the previous tick, never from `now`, to
    the first grid point after `now`, so ticks do not drift. */
module TickerPolicies {
  import opened TimeSources
  import opened Wrappers

  /** The mutable part of a ticker policy. */
  datatype TickerState = TickerState(initialized: bool, nextTick: nat)

  /** The constructor leaves `next_tick_time_` unset; it is read only after
      the first check has set it, so the value chosen here never matters. */
  const Initial: TickerState := TickerState(false, 0)

  /** The answer of `should_transfer` in state `s` at time `now`. */
  predicate Due(s: TickerState, now: nat) {
    s.initialized && now >= s.nextTick
  }

  /** The state `should_transfer` leaves behind. The grid is started once:
      a started state survives every check, and the first check at `now`
      makes the policy due exactly from `now + interval` on. */
  function AfterCheck(s: TickerState, interval: nat, now: nat): (r: TickerState)
    ensures r.initialized
    ensures s.initialized ==> r == s
    ensures !s.initialized ==> forall t: nat :: Due(r, t) <==> t >= now + interval
  {
    if s.initialized then s else TickerState(true, now + interval)
  }

  /** Checking again, at any time, leaves the state of the first check. */
  lemma CheckStartsGridOnce(s: TickerState, interval: nat, first: nat, later: nat)
    ensures AfterCheck(AfterCheck(s, interval, first), interval, later) == AfterCheck(s, interval, first)
    ensures Due(AfterCheck(s, interval, first), later) <==>
              if s.initialized then Due(s, later) else later >= first + interval
  {
  }

  /** The number of intervals `on_transferred` moves the next tick forward. */
  function Steps(next: nat, interval: nat, now: nat): nat
    requires interval > 0
  {
    if now < next then 1 else (now - next) / interval + 1
  }

  /** The next tick after `on_transferred` at time `now`. */
  function Rescheduled(next: nat, interval: nat, now: nat): nat
    requires interval > 0
  {
    next + Steps(next, interval, now) * interval
  }

  lemma MulMono(a: int, b: int, c: int)
    requires a <= b && c >= 0
    ensures a * c <= b * c
  {
    assert b * c - a * c == (b - a) * c;
  }

  lemma DivUnique(d: int, i: int, q: int)
    requires i > 0 && q * i <= d < q * i + i
    ensures d / i == q
  {
    var m := d / i;
    assert m * i <= d < m * i + i;
    if m > q {
      MulMono(q + 1, m, i);
    } else if m < q {
      MulMono(m + 1, q, i);
    }
  }

  /** The rescheduled tick is the first grid point `next + k * interval`
      with k >= 1 that lies after `now`: later than now, and either one step
      from the old tick or with the grid point before it not after now. */
  lemma RescheduledIsFirstTickAfter(next: nat, interval: nat, now: nat)
    requires interval > 0
    ensures var k := Steps(next, interval, now);
      k >= 1 && next + k * interval > now && (k == 1 || next + (k - 1) * interval <= now)
  {
    var k := Steps(next, interval, now);
    if now >= next {
      var d := now - next;
      var q := d / interval;
      assert q * interval <= d < q * interval + interval;
      assert k * interval == q * interval + interval;
    }
  }

  /** No other number of steps has that property: the tick lands on the
      grid, past now, with no grid point skipped. */
  lemma StepsUnique(next: nat, interval: nat, now: nat, j: nat)
    requires interval > 0 && j >= 1
    requires next + j * interval > now
    requires j == 1 || next + (j - 1) * interval <= now
    ensures j == Steps(next, interval, now)
  {
    if now < next {
      if j != 1 {
        MulMono(1, j - 1, interval);
      }
    } else {
      var d := now - next;
      assert (j - 1) * interval <= d < (j - 1) * interval + interval;
      DivUnique(d, interval, j - 1);
    }
  }

  class TickerPolicy {
    const interval: nat
    var initialized: bool
    var nextTick: nat

    function State(): TickerState
      reads this
    {
      TickerState(initialized, nextTick)
    }

    /** `TickerPolicy(interval)`: not initialized. */
    constructor(interval: nat)
      ensures this.interval == interval && State() == Initial
    {
      this.interval := interval;
      initialized := false;
      nextTick := 0;
    }

    /** `should_transfer`: the first call starts the grid and answers no;
        later calls answer whether the next tick has been reached and change
        nothing. */
    method ShouldTransfer(clock: TimeSource) returns (b: bool)
      modifies this
      ensures b == Due(old(State()), clock.GetMicroseconds())
      ensures State() == AfterCheck(old(State()), interval, clock.GetMicroseconds())
    {
      var now := clock.GetMicroseconds();
      if !initialized {
        nextTick := now + interval;
        initialized := true;
        return false;
      }
      b := now >= nextTick;
    }

    /** `on_transferred`: the do-while loop that advances the next tick one
        interval at a time until it lies after now. It ends only for a
        positive interval. */
    method OnTransferred(clock: TimeSource)
      requires interval > 0
      modifies this
      ensures initialized == old(initialized)
      ensures nextTick == Rescheduled(old(nextTick), interval, clock.GetMicroseconds())
    {
      var now := clock.GetMicroseconds();
      ghost var k: nat := 1;
      nextTick := nextTick + interval;
      while nextTick <= now
        invariant initialized == old(initialized)
        invariant k >= 1 && nextTick == old(nextTick) + k * interval
        invariant k == 1 || old(nextTick) + (k - 1) * interval <= now
        decreases now - nextTick
      {
        nextTick := nextTick + interval;
        k := k + 1;
      }
      StepsUnique(old(nextTick), interval, now, k);
    }
  }

  /** The do-while loop of ticker_policy.cpp:29-31 run for at most `rounds`
      rounds: the next tick it leaves, or None while it is still looping. */
  function RoundsAsWritten(next: nat, interval: nat, now: nat, rounds: nat): Option<nat>
    decreases rounds
  {
    if rounds == 0 then None
    else if next + interval > now then Some(next + interval)
    else RoundsAsWritten(next + interval, interval, now, rounds - 1)
  }

  /** With interval 0 a due tick never moves: however many rounds the loop
      is given, it is still looping. */
  lemma {:induction false} AsWrittenZeroIntervalNeverEnds(next: nat, now: nat, rounds: nat)
    requires next <= now
    ensures RoundsAsWritten(next, 0, now, rounds) == None
    decreases rounds
  {
    if rounds > 0 {
      AsWrittenZeroIntervalNeverEnds(next, now, rounds - 1);
    }
  }

  /** A loop that has the right number of rounds left leaves the first grid
      point after `now`. */
  lemma {:induction false} RoundsReachTick(next: nat, interval: nat, now: nat, k: nat)
    requires interval > 0 && k >= 1
    requires next + k * interval > now && (k == 1 || next + (k - 1) * interval <= now)
    ensures RoundsAsWritten(next, interval, now, k) == Some(next + k * interval)
    decreases k
  {
    if k > 1 {
      MulMono(1, k - 1, interval);
      assert next + interval <= now;
      assert (next + interval) + (k - 1) * interval == next + k * interval;
      assert (next + interval) + (k - 2) * interval == next + (k - 1) * interval;
      RoundsReachTick(next + interval, interval, now, k - 1);
    }
  }

  /** With a positive interval the loop ends after `Steps` rounds, at the
      tick `OnTransferred` computes. */
  lemma AsWrittenPositiveIntervalEnds(next: nat, interval: nat, now: nat)
    requires interval > 0
    ensures RoundsAsWritten(next, interval, now, Steps(next, interval, now)) == Some(Rescheduled(next, interval, now))
  {
    RescheduledIsFirstTickAfter(next, interval, now);
    RoundsReachTick(next, interval, now, Steps(next, interval, now));
  }

  /** What `should_transfer` then `on_transferred` leave behind, for a check
      that answered yes. */
  function AfterTransfer(s: TickerState, interval: nat, now: nat): TickerState
    requires interval > 0
  {
    TickerState(s.initialized, Rescheduled(s.nextTick, interval, now))
  }

  /** The first check never forwards. */
  lemma FirstCheckNotDue(now: nat)
    ensures !Due(Initial, now)
  {
  }

  /** After any transfer the next tick is in the future, so a second check
      at the same time answers no. */
  lemma NoSecondTransferAtSameTime(s: TickerState, interval: nat, now: nat)
    requires interval > 0
    ensures AfterTransfer(s, interval, now).nextTick > now
    ensures !Due(AfterTransfer(s, interval, now), now)
  {
    RescheduledIsFirstTickAfter(s.nextTick, interval, now);
  }

  /** No drift: if the checks keep up (a transfer at or after the tick but
      before the one after it), the next tick is exactly one interval later
      than the previous one. */
  lemma OnTimeTransferAdvancesOneInterval(next: nat, interval: nat, now: nat)
    requires interval > 0 && next <= now < next + interval
    ensures Rescheduled(next, interval, now) == next + interval
  {
    StepsUnique(next, interval, now, 1);
  }
}
