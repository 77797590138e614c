/** BridgeConnection: the transfers one node owns for one connection of the
    config, swept in the order they were added. `SweepWorld` is what one
    `step` does to the world of policy and endpoint objects: `try_transfer`
    of every transfer in turn, each seeing what the earlier ones left. */
module BridgeConnections {
  import opened Machine
  import opened TimeSources
  import opened Policies
  import opened MockEndpoints
  import opened TransferPdus
  import ThrottlePolicies
  import TickerPolicies

  /** Every view's objects are in the world and every policy can be notified. */
  predicate CoversAll(w: World, vs: seq<TransferView>) {
    forall i | 0 <= i < |vs| :: Covers(w, vs[i]) && vs[i].policy.Ready()
  }

  lemma CoversAllSameObjects(w1: World, w2: World, vs: seq<TransferView>)
    requires SameObjects(w1, w2) && CoversAll(w1, vs)
    ensures CoversAll(w2, vs)
  {
  }

  /** `try_transfer` of each view in turn, first to last. */
  function SweepWorld(w: World, vs: seq<TransferView>, now: nat): (r: World)
    requires CoversAll(w, vs)
    ensures SameObjects(w, r)
    decreases |vs|
  {
    if vs == [] then w
    else
      var m := SweepWorld(w, vs[..|vs| - 1], now);
      CoversAllSameObjects(w, m, vs);
      TryWorld(m, vs[|vs| - 1], now)
  }

  /** Both halves of a covered list are covered. */
  lemma CoversAllSplit(w: World, a: seq<TransferView>, b: seq<TransferView>)
    requires CoversAll(w, a + b)
    ensures CoversAll(w, a) && CoversAll(w, b)
  {
    forall i | 0 <= i < |a| ensures Covers(w, a[i]) && a[i].policy.Ready() {
      assert a[i] == (a + b)[i];
    }
    forall i | 0 <= i < |b| ensures Covers(w, b[i]) && b[i].policy.Ready() {
      assert b[i] == (a + b)[|a| + i];
    }
  }

  /** Sweeping two lists one after the other is sweeping their
      concatenation: a step is the sequence of its transfers. */
  lemma {:induction false} SweepAppend(w: World, a: seq<TransferView>, b: seq<TransferView>, now: nat)
    requires CoversAll(w, a + b)
    ensures CoversAll(w, a) && CoversAll(SweepWorld(w, a, now), b)
    ensures SweepWorld(w, a + b, now) == SweepWorld(SweepWorld(w, a, now), b, now)
    decreases |b|
  {
    CoversAllSplit(w, a, b);
    CoversAllSameObjects(w, SweepWorld(w, a, now), b);
    if b != [] {
      var b0 := b[..|b| - 1];
      assert (a + b)[..|a + b| - 1] == a + b0;
      SweepAppend(w, a, b0, now);
    } else {
      assert a + b == a;
    }
  }

  /** Sweeping one more view of a list. */
  lemma SweepNext(w: World, vs: seq<TransferView>, i: nat, now: nat)
    requires CoversAll(w, vs) && i < |vs|
    ensures CoversAll(w, vs[..i]) && CoversAll(w, vs[..i + 1])
    ensures Covers(SweepWorld(w, vs[..i], now), vs[i])
    ensures SweepWorld(w, vs[..i + 1], now) == TryWorld(SweepWorld(w, vs[..i], now), vs[i], now)
  {
    assert vs[..i + 1][..i] == vs[..i];
    CoversAllSameObjects(w, SweepWorld(w, vs[..i], now), vs);
  }

  /** What a sweep leaves alone: an endpoint that is no view's destination,
      a policy object that is no view's policy, and the readable data of
      every endpoint. An empty sweep changes nothing. */
  lemma {:induction false} SweepFrame(w: World, vs: seq<TransferView>, now: nat)
    requires CoversAll(w, vs)
    ensures vs == [] ==> SweepWorld(w, vs, now) == w
    ensures forall e | e in w.endpoints && (forall i | 0 <= i < |vs| :: vs[i].dst != e) ::
              SweepWorld(w, vs, now).endpoints[e] == w.endpoints[e]
    ensures forall e | e in w.endpoints :: SweepWorld(w, vs, now).endpoints[e].pduData == w.endpoints[e].pduData
    ensures forall t | t in w.throttles && (forall i | 0 <= i < |vs| :: vs[i].policy != Throttle(t)) ::
              SweepWorld(w, vs, now).throttles[t] == w.throttles[t]
    ensures forall k | k in w.tickers && (forall i | 0 <= i < |vs| :: vs[i].policy != Ticker(k)) ::
              SweepWorld(w, vs, now).tickers[k] == w.tickers[k]
    decreases |vs|
  {
    if vs != [] {
      var init := vs[..|vs| - 1];
      var last := vs[|vs| - 1];
      SweepFrame(w, init, now);
      var m := SweepWorld(w, init, now);
      CoversAllSameObjects(w, m, vs);
      TryWorldFrame(m, last, now);
    }
  }

  /** Both worlds hold the same readable data in every endpoint. */
  predicate SameData(w1: World, w2: World) {
    w1.endpoints.Keys == w2.endpoints.Keys
    && forall e | e in w1.endpoints :: w1.endpoints[e].pduData == w2.endpoints[e].pduData
  }

  /** No sweep changes the readable data of any endpoint. */
  lemma SweepKeepsData(w: World, vs: seq<TransferView>, now: nat)
    requires CoversAll(w, vs)
    ensures SameData(w, SweepWorld(w, vs, now))
  {
    SweepFrame(w, vs, now);
  }

  /** Whether a view with an immediate policy sends: it is active, its
      source has data for the key and the epoch of that data is accepted. */
  predicate Fires(w: World, v: TransferView)
    requires v.src in w.endpoints
  {
    var src := w.endpoints[v.src];
    v.active && src.PduSize(v.key) > 0 && AcceptEpoch(EpochOf(src.Stored(v.key)), v.ownerEpoch)
  }

  /** How many views send to endpoint `e` under the map entry of `k`. */
  function ImmediateSends(w: World, vs: seq<TransferView>, e: MockEndpoint, k: EndpointKey): nat
    requires forall i | 0 <= i < |vs| :: vs[i].src in w.endpoints
    decreases |vs|
  {
    if vs == [] then 0
    else
      var last := vs[|vs| - 1];
      ImmediateSends(w, vs[..|vs| - 1], e, k)
      + (if last.dst == e && MakeKey(last.key) == MakeKey(k) && Fires(w, last) then 1 else 0)
  }

  /** With immediate policies a sweep is a plain fan-out: every endpoint's
      send count for a key grows by the number of firing views that target
      it with that key, whatever the order. */
  lemma {:induction false} SweepImmediateSendCount(w: World, vs: seq<TransferView>, now: nat,
                                                   e: MockEndpoint, k: EndpointKey)
    requires CoversAll(w, vs) && e in w.endpoints
    requires forall i | 0 <= i < |vs| :: vs[i].policy.Immediate?
    ensures SweepWorld(w, vs, now).endpoints[e].SendCount(k)
            == w.endpoints[e].SendCount(k) + ImmediateSends(w, vs, e, k)
    decreases |vs|
  {
    if vs != [] {
      var init := vs[..|vs| - 1];
      var last := vs[|vs| - 1];
      SweepImmediateSendCount(w, init, now, e, k);
      SweepKeepsData(w, init, now);
      var m := SweepWorld(w, init, now);
      CoversAllSameObjects(w, m, vs);
      TryWorldDestination(m, last, now);
      TryWorldFrame(m, last, now);
      assert Fires(m, last) == Fires(w, last) by {
        assert m.endpoints[last.src].pduData == w.endpoints[last.src].pduData;
      }
      if last.dst == e {
        SendEffect(m.endpoints[e], last.key, m.endpoints[last.src].Stored(last.key), k);
      }
    }
  }

  class BridgeConnection {
    const nodeId: string
    var transfers: seq<TransferPdu>

    /** `BridgeConnection(node_id)`: no transfers yet. */
    constructor(nodeId: string)
      ensures this.nodeId == nodeId && transfers == []
    {
      this.nodeId := nodeId;
      transfers := [];
    }

    /** `getNodeId`. */
    function GetNodeId(): string {
      nodeId
    }

    /** What the transfers' `try_transfer` depends on, in order. */
    ghost function Views(): (vs: seq<TransferView>)
      reads this, transfers
      ensures |vs| == |transfers|
      ensures forall i | 0 <= i < |transfers| :: vs[i] == transfers[i].View()
    {
      seq(|transfers|, i reads this, transfers requires 0 <= i < |transfers| => transfers[i].View())
    }

    /** All transfers' objects are among `T`, `K`, `E`. */
    predicate Within(T: set<ThrottlePolicies.ThrottlePolicy>, K: set<TickerPolicies.TickerPolicy>,
                     E: set<MockEndpoint>)
      reads this
    {
      forall i | 0 <= i < |transfers| :: transfers[i].Within(T, K, E)
    }

    /** `add_transfer_pdu`: appends at the end. */
    method AddTransferPdu(pdu: TransferPdu)
      modifies this
      ensures transfers == old(transfers) + [pdu]
    {
      transfers := transfers + [pdu];
    }

    /** `step`: `try_transfer` on every transfer, in insertion order. */
    method Step(clock: TimeSource, ghost T: set<ThrottlePolicies.ThrottlePolicy>,
                ghost K: set<TickerPolicies.TickerPolicy>, ghost E: set<MockEndpoint>)
      requires Within(T, K, E)
      modifies T, K, E
      ensures CoversAll(old(Snapshot(T, K, E)), old(Views()))
      ensures Snapshot(T, K, E) == SweepWorld(old(Snapshot(T, K, E)), old(Views()), clock.GetMicroseconds())
    {
      ghost var w0 := Snapshot(T, K, E);
      ghost var vs := Views();
      ghost var now := clock.GetMicroseconds();
      var i := 0;
      while i < |transfers|
        invariant 0 <= i <= |transfers| && |vs| == |transfers|
        invariant forall j | 0 <= j < |transfers| :: transfers[j].Within(T, K, E)
        invariant CoversAll(w0, vs)
        invariant Snapshot(T, K, E) == SweepWorld(w0, vs[..i], now)
      {
        assert transfers[i].View() == vs[i];
        transfers[i].TryTransfer(clock, T, K, E);
        SweepNext(w0, vs, i, now);
        i := i + 1;
      }
      assert vs[..i] == vs;
    }
  }
}
