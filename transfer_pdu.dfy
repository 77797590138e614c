/** TransferPdu: one forwarding rule, "copy PDU `key` from endpoint `src` to
    endpoint `dst` when `policy` says so". A transfer can be switched off,
    and it drops PDUs whose epoch (their first eight bytes, little-endian)
    is older than the owner epoch it was given.

    Transfers share objects: the loader gives every transfer with the same
    policy id the same policy object, and every endpoint definition with the
    same config path the same endpoint object, and a transfer's source may
    be another's destination. The effect of a transfer is therefore stated
    on a `World`: the states of all policy and endpoint objects involved,
    keyed by the objects themselves. `Snapshot` reads that world out of the
    heap; `TryWorld` is what one `try_transfer` does to it. */
module TransferPdus {
  import opened Wrappers
  import opened Machine
  import opened TimeSources
  import opened Policies
  import opened MockEndpoints
  import BridgeTypes
  import ThrottlePolicies
  import TickerPolicies

  // ---------------------------------------------------------------------
  // The copy step on endpoint states

  /** The epoch of a received PDU: its first eight bytes, or 0 when it is
      shorter than that. */
  function EpochOf(data: seq<byte>): (e: nat)
    ensures IsUint64(e)
    ensures |data| < 8 ==> e == 0
  {
    if |data| >= 8 then Le64(data) else 0
  }

  /** `accept_epoch`: only PDUs of the owner epoch or newer pass. */
  predicate AcceptEpoch(pduEpoch: nat, ownerEpoch: nat) {
    pduEpoch >= ownerEpoch
  }

  function Zeros(n: nat): (z: seq<byte>)
    ensures |z| == n
  {
    seq(n, _ => 0)
  }

  /** What `transfer()` hands to the destination, if anything: nothing when
      the source has no data for the key, or when the epoch in the buffer
      read from it is older than the owner epoch; otherwise the buffer of
      `get_pdu_size` bytes filled by `recv`. */
  function TransferOutcome(src: EndpointState, key: EndpointKey, ownerEpoch: nat): Option<seq<byte>> {
    var size := src.PduSize(key);
    if size == 0 then None
    else
      var buffer := src.Received(key, Zeros(size));
      var received := src.ReceivedSize(key, size);
      RecvCopiesStoredPrefix(src, key, Zeros(size));
      var epoch := if received >= 8 then Le64(buffer) else 0;
      if AcceptEpoch(epoch, ownerEpoch) then Some(buffer) else None
  }

  /** The destination forwards exactly the stored PDU, and only when there
      is one and its epoch is not older than the owner's. */
  lemma TransferOutcomeIsStoredPdu(src: EndpointState, key: EndpointKey, ownerEpoch: nat)
    ensures TransferOutcome(src, key, ownerEpoch)
            == if src.PduSize(key) > 0 && AcceptEpoch(EpochOf(src.Stored(key)), ownerEpoch)
               then Some(src.Stored(key)) else None
  {
    var size := src.PduSize(key);
    if size > 0 {
      RecvCopiesStoredPrefix(src, key, Zeros(size));
      assert src.ReceivedSize(key, size) == size;
    }
  }

  /** An older epoch is discarded, whatever the data. */
  lemma OlderEpochDiscarded(src: EndpointState, key: EndpointKey, ownerEpoch: nat)
    requires EpochOf(src.Stored(key)) < ownerEpoch
    ensures TransferOutcome(src, key, ownerEpoch) == None
  {
    TransferOutcomeIsStoredPdu(src, key, ownerEpoch);
  }

  /** The destination's state after `transfer()`. */
  function Delivery(src: EndpointState, dst: EndpointState, key: EndpointKey, ownerEpoch: nat): EndpointState {
    match TransferOutcome(src, key, ownerEpoch)
    case None => dst
    case Some(data) => dst.Sent(key, data)
  }

  // ---------------------------------------------------------------------
  // The world of shared objects

  datatype World = World(
    throttles: map<ThrottlePolicies.ThrottlePolicy, ThrottlePolicies.ThrottleState>,
    tickers: map<TickerPolicies.TickerPolicy, TickerPolicies.TickerState>,
    endpoints: map<MockEndpoint, EndpointState>)

  /** Both worlds describe the same objects. */
  predicate SameObjects(w1: World, w2: World) {
    w1.throttles.Keys == w2.throttles.Keys && w1.tickers.Keys == w2.tickers.Keys
    && w1.endpoints.Keys == w2.endpoints.Keys
  }

  /** The policy's object, if it has one, is among T and K. */
  predicate PolicyWithin(p: PolicyRef, T: set<ThrottlePolicies.ThrottlePolicy>, K: set<TickerPolicies.TickerPolicy>) {
    match p
    case Immediate(_) => true
    case Throttle(t) => t in T
    case Ticker(k) => k in K
  }

  predicate HasPolicy(w: World, p: PolicyRef) {
    PolicyWithin(p, w.throttles.Keys, w.tickers.Keys)
  }

  function PolicyIn(w: World, p: PolicyRef): (s: PolicyState)
    requires HasPolicy(w, p)
    ensures p.Fits(s)
  {
    match p
    case Immediate(i) => ImmediateS(i)
    case Throttle(t) => ThrottleS(w.throttles[t])
    case Ticker(k) => TickerS(w.tickers[k])
  }

  /** The world with the state of policy `p` replaced by `s`. */
  function WithPolicy(w: World, p: PolicyRef, s: PolicyState): (r: World)
    requires HasPolicy(w, p) && p.Fits(s)
    ensures SameObjects(w, r) && r.endpoints == w.endpoints
    ensures PolicyIn(r, p) == s
  {
    match p
    case Immediate(_) => w
    case Throttle(t) => w.(throttles := w.throttles[t := s.throttle])
    case Ticker(k) => w.(tickers := w.tickers[k := s.ticker])
  }

  /** The states of the given objects, read from the heap. */
  ghost function Snapshot(T: set<ThrottlePolicies.ThrottlePolicy>, K: set<TickerPolicies.TickerPolicy>,
                          E: set<MockEndpoint>): World
    reads T, K, E
  {
    World(map t | t in T :: t.State(), map k | k in K :: k.State(), map e | e in E :: e.State())
  }

  lemma SnapshotPolicy(p: PolicyRef, T: set<ThrottlePolicies.ThrottlePolicy>,
                       K: set<TickerPolicies.TickerPolicy>, E: set<MockEndpoint>)
    requires PolicyWithin(p, T, K)
    ensures HasPolicy(Snapshot(T, K, E), p) && PolicyIn(Snapshot(T, K, E), p) == p.State()
  {
  }

  /** A world equal to the heap in every object except the policy's own
      differs from the heap's world only in that policy's state. */
  lemma PolicyFrame(p: PolicyRef, T: set<ThrottlePolicies.ThrottlePolicy>,
                    K: set<TickerPolicies.TickerPolicy>, E: set<MockEndpoint>, w0: World)
    requires PolicyWithin(p, T, K) && w0.throttles.Keys == T && w0.tickers.Keys == K && w0.endpoints.Keys == E
    requires forall t | t in T && Throttle(t) != p :: t.State() == w0.throttles[t]
    requires forall k | k in K && Ticker(k) != p :: k.State() == w0.tickers[k]
    requires forall e | e in E :: e.State() == w0.endpoints[e]
    ensures HasPolicy(w0, p) && Snapshot(T, K, E) == WithPolicy(w0, p, p.State())
  {
    var w1 := Snapshot(T, K, E);
    var w2 := WithPolicy(w0, p, p.State());
    assert w1.throttles == w2.throttles;
    assert w1.tickers == w2.tickers;
    assert w1.endpoints == w2.endpoints;
  }

  /** The same for a call that changed only endpoint `d`. */
  lemma EndpointFrame(d: MockEndpoint, T: set<ThrottlePolicies.ThrottlePolicy>,
                      K: set<TickerPolicies.TickerPolicy>, E: set<MockEndpoint>, w0: World)
    requires d in E && w0.throttles.Keys == T && w0.tickers.Keys == K && w0.endpoints.Keys == E
    requires forall t | t in T :: t.State() == w0.throttles[t]
    requires forall k | k in K :: k.State() == w0.tickers[k]
    requires forall e | e in E && e != d :: e.State() == w0.endpoints[e]
    ensures Snapshot(T, K, E) == w0.(endpoints := w0.endpoints[d := d.State()])
  {
    var w1 := Snapshot(T, K, E);
    assert w1.endpoints == w0.endpoints[d := d.State()];
  }

  // ---------------------------------------------------------------------
  // One try_transfer on the world

  /** What of a transfer object `try_transfer` depends on. */
  datatype TransferView = TransferView(
    active: bool,
    ownerEpoch: nat,
    key: EndpointKey,
    policy: PolicyRef,
    src: MockEndpoint,
    dst: MockEndpoint)

  predicate Covers(w: World, v: TransferView) {
    HasPolicy(w, v.policy) && v.src in w.endpoints && v.dst in w.endpoints
  }

  /** `transfer()` on the world: only the destination changes. */
  function Deliver(w: World, v: TransferView): (r: World)
    requires v.src in w.endpoints && v.dst in w.endpoints
    ensures SameObjects(w, r) && r.throttles == w.throttles && r.tickers == w.tickers
  {
    var d := Delivery(w.endpoints[v.src], w.endpoints[v.dst], v.key, v.ownerEpoch);
    w.(endpoints := w.endpoints[v.dst := d])
  }

  /** `try_transfer`: nothing when inactive; otherwise the policy is
      checked, and only if it says yes the PDU is transferred and the policy
      notified, whether or not the transfer sent anything. */
  function TryWorld(w: World, v: TransferView, now: nat): (r: World)
    requires Covers(w, v) && v.policy.Ready()
    ensures SameObjects(w, r)
    ensures !v.active ==> r == w
  {
    if !v.active then w
    else
      var check := v.policy.Check(PolicyIn(w, v.policy), now);
      var w1 := WithPolicy(w, v.policy, check.1);
      if !check.0 then w1
      else WithPolicy(Deliver(w1, v), v.policy, v.policy.Notify(check.1, now))
  }

  /** What `try_transfer` leaves alone: every endpoint but the destination,
      the readable data of all endpoints, and every policy object but its
      own. */
  lemma TryWorldFrame(w: World, v: TransferView, now: nat)
    requires Covers(w, v) && v.policy.Ready()
    ensures forall e | e in w.endpoints && e != v.dst :: TryWorld(w, v, now).endpoints[e] == w.endpoints[e]
    ensures forall e | e in w.endpoints :: TryWorld(w, v, now).endpoints[e].pduData == w.endpoints[e].pduData
    ensures forall t | t in w.throttles && v.policy != Throttle(t) :: TryWorld(w, v, now).throttles[t] == w.throttles[t]
    ensures forall k | k in w.tickers && v.policy != Ticker(k) :: TryWorld(w, v, now).tickers[k] == w.tickers[k]
  {
  }

  /** The policy is notified exactly when its check said yes, and then with
      the state the check left behind. */
  lemma NotifiedExactlyWhenDue(w: World, v: TransferView, now: nat)
    requires Covers(w, v) && v.policy.Ready() && v.active
    ensures var check := v.policy.Check(PolicyIn(w, v.policy), now);
      PolicyIn(TryWorld(w, v, now), v.policy)
      == if check.0 then v.policy.Notify(check.1, now) else check.1
  {
    var check := v.policy.Check(PolicyIn(w, v.policy), now);
    if check.0 {
      var w1 := WithPolicy(w, v.policy, check.1);
      assert HasPolicy(Deliver(w1, v), v.policy);
    }
  }

  /** What the destination holds after `try_transfer`: one more send of the
      stored PDU when the transfer is active, its policy said yes, the
      source has data for the key and its epoch is not older than the
      owner's; otherwise no change at all. */
  lemma TryWorldDestination(w: World, v: TransferView, now: nat)
    requires Covers(w, v) && v.policy.Ready()
    ensures var src := w.endpoints[v.src];
      var sends := v.active && v.policy.Check(PolicyIn(w, v.policy), now).0
                   && src.PduSize(v.key) > 0 && AcceptEpoch(EpochOf(src.Stored(v.key)), v.ownerEpoch);
      TryWorld(w, v, now).endpoints[v.dst]
      == if sends then w.endpoints[v.dst].Sent(v.key, src.Stored(v.key)) else w.endpoints[v.dst]
  {
    TransferOutcomeIsStoredPdu(w.endpoints[v.src], v.key, v.ownerEpoch);
  }

  // ---------------------------------------------------------------------
  // The transfer object

  datatype TransferError = NullEndpoint

  class TransferPdu {
    const configKey: BridgeTypes.PduKey
    const endpointKey: EndpointKey
    const policy: PolicyRef
    const src: MockEndpoint
    const dst: MockEndpoint
    var active: bool
    var ownerEpoch: nat

    function View(): TransferView
      reads this
    {
      TransferView(active, ownerEpoch, endpointKey, policy, src, dst)
    }

    /** The policy and endpoint objects this transfer touches are among the
        given ones, and its policy can be notified. */
    predicate Within(T: set<ThrottlePolicies.ThrottlePolicy>, K: set<TickerPolicies.TickerPolicy>,
                     E: set<MockEndpoint>) {
      PolicyWithin(policy, T, K) && src in E && dst in E && policy.Ready()
    }

    /** The constructor, for endpoints known to be present: active, owner
        epoch 0, and the endpoint key made of the config key's robot and PDU
        names. */
    constructor(configKey: BridgeTypes.PduKey, policy: PolicyRef, src: MockEndpoint, dst: MockEndpoint)
      ensures this.configKey == configKey && this.policy == policy && this.src == src && this.dst == dst
      ensures endpointKey == EndpointKey(configKey.robotName, configKey.pduName)
      ensures active && ownerEpoch == 0
    {
      this.configKey := configKey;
      endpointKey := EndpointKey(configKey.robotName, configKey.pduName);
      this.policy := policy;
      this.src := src;
      this.dst := dst;
      active := true;
      ownerEpoch := 0;
    }

    /** The constructor as the source writes it: a null source or
        destination is refused. */
    static method Create(configKey: BridgeTypes.PduKey, policy: PolicyRef, src: MockEndpoint?, dst: MockEndpoint?)
      returns (r: Result<TransferPdu, TransferError>)
      ensures r.Err? <==> src == null || dst == null
      ensures r.Ok? ==> fresh(r.value) && r.value.src == src && r.value.dst == dst
                        && r.value.policy == policy && r.value.configKey == configKey
                        && r.value.active && r.value.ownerEpoch == 0
    {
      if src == null || dst == null {
        return Err(NullEndpoint);
      }
      var t := new TransferPdu(configKey, policy, src, dst);
      r := Ok(t);
    }

    /** `set_active`. */
    method SetActive(isActive: bool)
      modifies this
      ensures active == isActive && ownerEpoch == old(ownerEpoch)
    {
      active := isActive;
    }

    /** `set_epoch`. */
    method SetEpoch(epoch: nat)
      modifies this
      ensures ownerEpoch == epoch && active == old(active)
    {
      ownerEpoch := epoch;
    }

    /** `accept_epoch`. */
    function AcceptsEpoch(pduEpoch: nat): (b: bool)
      reads this
      ensures b <==> AcceptEpoch(pduEpoch, ownerEpoch)
    {
      pduEpoch >= ownerEpoch
    }

    /** `transfer()`: read the PDU from the source into a buffer of its
        size, and send that buffer to the destination unless its epoch is
        older than the owner's. */
    method Transfer()
      modifies dst
      ensures dst.State() == Delivery(old(src.State()), old(dst.State()), endpointKey, ownerEpoch)
    {
      var pduSize := src.GetPduSize(endpointKey);
      if pduSize == 0 {
        return;
      }
      var buffer := new byte[pduSize](_ => 0);
      assert buffer[..] == Zeros(pduSize);
      var readErr, receivedSize := src.Recv(endpointKey, buffer);
      RecvCopiesStoredPrefix(src.State(), endpointKey, Zeros(pduSize));
      var pduEpoch := 0;
      if receivedSize >= 8 {
        pduEpoch := Le64(buffer[..]);
      }
      if !AcceptsEpoch(pduEpoch) {
        return;
      }
      var writeErr := dst.Send(endpointKey, buffer[..]);
    }

    /** `should_transfer` on the world: only the policy's state changes. */
    method CheckOnWorld(clock: TimeSource, ghost T: set<ThrottlePolicies.ThrottlePolicy>,
                        ghost K: set<TickerPolicies.TickerPolicy>, ghost E: set<MockEndpoint>)
      returns (b: bool)
      requires Within(T, K, E)
      modifies T, K
      ensures HasPolicy(old(Snapshot(T, K, E)), policy)
      ensures var c := policy.Check(PolicyIn(old(Snapshot(T, K, E)), policy), clock.GetMicroseconds());
        b == c.0 && Snapshot(T, K, E) == WithPolicy(old(Snapshot(T, K, E)), policy, c.1)
    {
      ghost var w0 := Snapshot(T, K, E);
      SnapshotPolicy(policy, T, K, E);
      b := policy.ShouldTransfer(clock);
      PolicyFrame(policy, T, K, E, w0);
    }

    /** `on_transferred` on the world: only the policy's state changes. */
    method NotifyOnWorld(clock: TimeSource, ghost T: set<ThrottlePolicies.ThrottlePolicy>,
                         ghost K: set<TickerPolicies.TickerPolicy>, ghost E: set<MockEndpoint>)
      requires Within(T, K, E)
      modifies T, K
      ensures HasPolicy(old(Snapshot(T, K, E)), policy)
      ensures Snapshot(T, K, E) == WithPolicy(old(Snapshot(T, K, E)), policy,
                policy.Notify(PolicyIn(old(Snapshot(T, K, E)), policy), clock.GetMicroseconds()))
    {
      ghost var w0 := Snapshot(T, K, E);
      SnapshotPolicy(policy, T, K, E);
      policy.OnTransferred(clock);
      PolicyFrame(policy, T, K, E, w0);
    }

    /** `transfer()` on the world: only the destination changes. */
    method TransferOnWorld(ghost T: set<ThrottlePolicies.ThrottlePolicy>,
                           ghost K: set<TickerPolicies.TickerPolicy>, ghost E: set<MockEndpoint>)
      requires Within(T, K, E)
      modifies E
      ensures Snapshot(T, K, E) == Deliver(old(Snapshot(T, K, E)), View())
    {
      ghost var w0 := Snapshot(T, K, E);
      Transfer();
      EndpointFrame(dst, T, K, E, w0);
    }

    /** `try_transfer`, stated on the world of all policy and endpoint
        objects `T`, `K`, `E` that contain this transfer's. */
    method TryTransfer(clock: TimeSource, ghost T: set<ThrottlePolicies.ThrottlePolicy>,
                       ghost K: set<TickerPolicies.TickerPolicy>, ghost E: set<MockEndpoint>)
      requires Within(T, K, E)
      modifies T, K, E
      ensures Snapshot(T, K, E) == TryWorld(old(Snapshot(T, K, E)), View(), clock.GetMicroseconds())
    {
      if !active {
        return;
      }
      var b := CheckOnWorld(clock, T, K, E);
      if b {
        TransferOnWorld(T, K, E);
        NotifyOnWorld(clock, T, K, E);
      }
    }
  }
}
