/** The policy tests of `transfer_pdu_test.cpp`, replayed on the world
    model: a transfer is tried at a sequence of times and the destination's
    send count is read after each try. On a source that holds data of an
    accepted epoch a try asks the policy (`Check`) and, when it answers
    yes, sends and notifies it (`Notify`); `SendCounts` follows the policy
    alone, and `TryCountsAreSendCounts` shows it gives the counts of the
    world. */
module Scenarios {
  import opened Wrappers
  import opened Machine
  import opened Policies
  import opened MockEndpoints
  import opened TransferPdus
  import ImmediatePolicies
  import ThrottlePolicies
  import TickerPolicies

  /** The send count after each try at the given times, starting from
      policy state `s` with `sent` sends so far. */
  function SendCounts(p: PolicyRef, s: PolicyState, times: seq<nat>, sent: nat): (r: seq<nat>)
    requires p.Fits(s) && p.Ready()
    ensures |r| == |times|
    ensures forall i | 0 <= i < |r| :: sent <= r[i] <= sent + i + 1
    decreases |times|
  {
    if times == [] then []
    else
      var (due, checked) := p.Check(s, times[0]);
      var next := if due then p.Notify(checked, times[0]) else checked;
      var count := if due then sent + 1 else sent;
      [count] + SendCounts(p, next, times[1..], count)
  }

  /** The destination's send count for the transfer's key after each try
      of `v` at the given times, the world carried from one try to the
      next. */
  function TryCounts(w: World, v: TransferView, times: seq<nat>): (r: seq<nat>)
    requires Covers(w, v) && v.policy.Ready()
    ensures |r| == |times|
    decreases |times|
  {
    if times == [] then []
    else
      var next := TryWorld(w, v, times[0]);
      [next.endpoints[v.dst].SendCount(v.key)] + TryCounts(next, v, times[1..])
  }

  /** On an active transfer whose source holds a PDU of an accepted epoch,
      the world's counts are the policy's: each try sends exactly when the
      policy says yes, and the policy moves on as `SendCounts` has it. */
  lemma {:induction false} TryCountsAreSendCounts(w: World, v: TransferView, times: seq<nat>)
    requires Covers(w, v) && v.policy.Ready() && v.active
    requires w.endpoints[v.src].PduSize(v.key) > 0
    requires AcceptEpoch(EpochOf(w.endpoints[v.src].Stored(v.key)), v.ownerEpoch)
    ensures TryCounts(w, v, times)
            == SendCounts(v.policy, PolicyIn(w, v.policy), times, w.endpoints[v.dst].SendCount(v.key))
    decreases |times|
  {
    if times != [] {
      var next := TryWorld(w, v, times[0]);
      TryStep(w, v, times[0]);
      NotifiedExactlyWhenDue(w, v, times[0]);
      TryCountsAreSendCounts(next, v, times[1..]);
    }
  }

  /** One try on such a transfer: the destination's count grows by one
      exactly when the policy says yes, and the source still holds the same
      PDU. */
  lemma TryStep(w: World, v: TransferView, now: nat)
    requires Covers(w, v) && v.policy.Ready() && v.active
    requires w.endpoints[v.src].PduSize(v.key) > 0
    requires AcceptEpoch(EpochOf(w.endpoints[v.src].Stored(v.key)), v.ownerEpoch)
    ensures var next := TryWorld(w, v, now);
            next.endpoints[v.dst].SendCount(v.key)
            == w.endpoints[v.dst].SendCount(v.key) + if v.policy.Check(PolicyIn(w, v.policy), now).0 then 1 else 0
    ensures TryWorld(w, v, now).endpoints[v.src].pduData == w.endpoints[v.src].pduData
  {
    TryWorldDestination(w, v, now);
    TryWorldFrame(w, v, now);
    SendEffect(w.endpoints[v.dst], v.key, w.endpoints[v.src].Stored(v.key), v.key);
  }

  /** Every try of an immediate policy sends. */
  lemma {:induction false} ImmediateSendsEveryTime(p: ImmediatePolicies.ImmediatePolicy, times: seq<nat>, sent: nat)
    ensures SendCounts(Immediate(p), ImmediateS(p), times, sent) == seq(|times|, i => sent + i + 1)
    decreases |times|
  {
    if times != [] {
      var p' := p.OnTransferred(times[0]);
      assert p' == p;
      ImmediateSendsEveryTime(p, times[1..], sent + 1);
    }
  }

  /** A fresh throttle of 100 ms tried at 0, 0, 50 ms and 100 ms says yes
      at the first and the last try. */
  lemma ThrottleCounts(t: ThrottlePolicies.ThrottlePolicy)
    requires t.interval == 100000
    ensures SendCounts(Throttle(t), ThrottleS(ThrottlePolicies.Initial), [0, 0, 50000, 100000], 0) == [1, 1, 1, 2]
  {
    var s1 := ThrottlePolicies.ThrottleState(true, 0);
    assert SendCounts(Throttle(t), ThrottleS(s1), [100000], 1) == [2];
    assert SendCounts(Throttle(t), ThrottleS(s1), [50000, 100000], 1) == [1, 2];
    assert SendCounts(Throttle(t), ThrottleS(s1), [0, 50000, 100000], 1) == [1, 1, 2];
  }

  /** A fresh ticker of 100 ms tried at 0, 100 ms, 100 ms and 200 ms says
      yes at the second and the last try. */
  lemma TickerCounts(k: TickerPolicies.TickerPolicy)
    requires k.interval == 100000
    ensures SendCounts(Ticker(k), TickerS(TickerPolicies.Initial), [0, 100000, 100000, 200000], 0) == [0, 1, 1, 2]
  {
    var s1 := TickerPolicies.TickerState(true, 100000);
    var s2 := TickerPolicies.TickerState(true, 200000);
    TickerPolicies.OnTimeTransferAdvancesOneInterval(100000, 100000, 100000);
    TickerPolicies.OnTimeTransferAdvancesOneInterval(200000, 100000, 200000);
    assert SendCounts(Ticker(k), TickerS(s2), [200000], 1) == [2];
    assert SendCounts(Ticker(k), TickerS(s2), [100000, 200000], 1) == [1, 2];
    assert SendCounts(Ticker(k), TickerS(s1), [100000, 100000, 200000], 0) == [1, 1, 2];
  }

  /** `make_payload`: the epoch's eight bytes, then zeros up to `size`. */
  function Payload(epoch: nat, size: nat): (r: seq<byte>)
    requires IsUint64(epoch) && size >= 8
    ensures |r| == size && EpochOf(r) == epoch
  {
    var r := Le64Bytes(epoch) + Zeros(size - 8);
    assert r[..8] == Le64Bytes(epoch);
    Le64RoundTrip(epoch);
    r
  }

  /** `ThrottlePolicyTransfersOnInterval`: a transfer from a source holding
      a 16-byte PDU of epoch 1, under owner epoch 0 and a fresh 100 ms
      throttle, tried at 0, 0, 50 ms and 100 ms, leaves the destination's
      counts 1, 1, 1, 2. */
  lemma ThrottleTestReplay(w: World, v: TransferView, t: ThrottlePolicies.ThrottlePolicy)
    requires Covers(w, v) && v.policy == Throttle(t) && t.interval == 100000
    requires w.throttles[t] == ThrottlePolicies.Initial
    requires v.active && v.ownerEpoch == 0 && w.endpoints[v.src].Stored(v.key) == Payload(1, 16)
    requires w.endpoints[v.dst].SendCount(v.key) == 0
    ensures TryCounts(w, v, [0, 0, 50000, 100000]) == [1, 1, 1, 2]
  {
    TryCountsAreSendCounts(w, v, [0, 0, 50000, 100000]);
    ThrottleCounts(t);
  }

  /** `TickerPolicyTransfersOnTicks`: the same transfer under a fresh 100 ms
      ticker, tried at 0, 100 ms, 100 ms and 200 ms, leaves the counts
      0, 1, 1, 2. */
  lemma TickerTestReplay(w: World, v: TransferView, k: TickerPolicies.TickerPolicy)
    requires Covers(w, v) && v.policy == Ticker(k) && k.interval == 100000
    requires w.tickers[k] == TickerPolicies.Initial
    requires v.active && v.ownerEpoch == 0 && w.endpoints[v.src].Stored(v.key) == Payload(1, 16)
    requires w.endpoints[v.dst].SendCount(v.key) == 0
    ensures TryCounts(w, v, [0, 100000, 100000, 200000]) == [0, 1, 1, 2]
  {
    TryCountsAreSendCounts(w, v, [0, 100000, 100000, 200000]);
    TickerCounts(k);
  }

  /** `ImmediatePolicyRejectsOlderEpoch` and `ImmediatePolicyTransfersAndAcceptsEpoch`:
      a PDU of epoch 1 reaches the destination, byte for byte, under owner
      epoch 0 and is dropped under owner epoch 2; an empty source sends
      nothing. */
  lemma EpochTestReplay(src: EndpointState, key: EndpointKey)
    requires src.Stored(key) == Payload(1, 16)
    ensures TransferOutcome(src, key, 0) == Some(Payload(1, 16))
    ensures TransferOutcome(src, key, 2) == None
    ensures TransferOutcome(src.(pduData := map[]), key, 0) == None
  {
    TransferOutcomeIsStoredPdu(src, key, 0);
    OlderEpochDiscarded(src, key, 2);
    TransferOutcomeIsStoredPdu(src.(pduData := map[]), key, 0);
  }
}
