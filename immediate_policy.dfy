/** ImmediatePolicy: forwards every PDU as soon as it is checked. It holds no
    state and never looks at the time source, so it is a plain value whose
    decision takes the current time only to show that it ignores it. */
module ImmediatePolicies {

  datatype ImmediatePolicy = ImmediatePolicy {

    /** `should_transfer`: yes, whatever the time. */
    function ShouldTransfer(now: nat): (b: bool)
      ensures b
    {
      true
    }

    /** `on_transferred`: nothing to update. */
    function OnTransferred(now: nat): ImmediatePolicy {
      this
    }
  }

  /** The policy after being notified of a transfer at each of `times`. */
  function AfterTransfers(p: ImmediatePolicy, times: seq<nat>): ImmediatePolicy
    decreases |times|
  {
    if times == [] then p else AfterTransfers(p.OnTransferred(times[0]), times[1..])
  }

  /** However many transfers it has been told about, the policy is unchanged
      and still answers yes at every time. */
  lemma {:induction false} AlwaysTransfers(p: ImmediatePolicy, times: seq<nat>, now: nat)
    ensures AfterTransfers(p, times) == p
    ensures AfterTransfers(p, times).ShouldTransfer(now)
    decreases |times|
  {
    if times != [] {
      AlwaysTransfers(p.OnTransferred(times[0]), times[1..], now);
    }
  }
}
