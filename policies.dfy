/** IPduTransferPolicy: the interface a transfer consults. A `PolicyRef` is
    the shared reference a transfer holds: an immediate policy (a value, it has
    no state), or a reference to a throttle or ticker object that several
    transfers may share. `PolicyState` is the pure state behind a reference,
    and `Check` / `Notify` are what the two interface calls do to it. */
module Policies {
  import opened TimeSources
  import opened ImmediatePolicies
  import ThrottlePolicies
  import TickerPolicies

  datatype PolicyState =
    | ImmediateS(immediate: ImmediatePolicy)
    | ThrottleS(throttle: ThrottlePolicies.ThrottleState)
    | TickerS(ticker: TickerPolicies.TickerState)

  datatype PolicyRef =
    | Immediate(immediate: ImmediatePolicy)
    | Throttle(throttle: ThrottlePolicies.ThrottlePolicy)
    | Ticker(ticker: TickerPolicies.TickerPolicy)
  {
    /** The objects whose fields the interface calls may change. */
    function Footprint(): set<object> {
      match this
      case Immediate(_) => {}
      case Throttle(t) => {t}
      case Ticker(k) => {k}
    }

    /** Whether `on_transferred` can be called: a ticker's rescheduling loop
        ends only for a positive interval. */
    predicate Ready() {
      Ticker? ==> ticker.interval > 0
    }

    /** A state of the right kind for this policy. */
    predicate Fits(s: PolicyState) {
      match this
      case Immediate(p) => s == ImmediateS(p)
      case Throttle(_) => s.ThrottleS?
      case Ticker(_) => s.TickerS?
    }

    function State(): (s: PolicyState)
      reads Footprint()
      ensures Fits(s)
    {
      match this
      case Immediate(p) => ImmediateS(p)
      case Throttle(t) => ThrottleS(t.State())
      case Ticker(k) => TickerS(k.State())
    }

    /** `should_transfer` on state `s` at time `now`: the answer and the new
        state. Only a ticker's first check changes anything. */
    function Check(s: PolicyState, now: nat): (r: (bool, PolicyState))
      requires Fits(s)
      ensures Fits(r.1)
      ensures !Ticker? ==> r.1 == s
      ensures Immediate? ==> r.0
    {
      match this
      case Immediate(p) => (p.ShouldTransfer(now), s)
      case Throttle(t) => (ThrottlePolicies.Due(s.throttle, t.interval, now), s)
      case Ticker(k) =>
        (TickerPolicies.Due(s.ticker, now), TickerS(TickerPolicies.AfterCheck(s.ticker, k.interval, now)))
    }

    /** `on_transferred` on state `s` at time `now`. */
    function Notify(s: PolicyState, now: nat): (r: PolicyState)
      requires Fits(s) && Ready()
      ensures Fits(r)
    {
      match this
      case Immediate(p) => ImmediateS(p.OnTransferred(now))
      case Throttle(_) => ThrottleS(ThrottlePolicies.Notified(s.throttle, now))
      case Ticker(k) => TickerS(TickerPolicies.AfterTransfer(s.ticker, k.interval, now))
    }

    method ShouldTransfer(clock: TimeSource) returns (b: bool)
      modifies Footprint()
      ensures (b, State()) == Check(old(State()), clock.GetMicroseconds())
    {
      match this
      case Immediate(p) =>
        b := p.ShouldTransfer(clock.GetMicroseconds());
      case Throttle(t) =>
        b := t.ShouldTransfer(clock);
      case Ticker(k) =>
        b := k.ShouldTransfer(clock);
    }

    method OnTransferred(clock: TimeSource)
      requires Ready()
      modifies Footprint()
      ensures State() == Notify(old(State()), clock.GetMicroseconds())
    {
      match this
      case Immediate(_) =>
      case Throttle(t) =>
        t.OnTransferred(clock);
      case Ticker(k) =>
        k.OnTransferred(clock);
    }
  }
}
