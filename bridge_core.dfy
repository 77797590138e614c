/** BridgeCore: the node's run loop. It holds the connections the loader
    built and one time source; every iteration of the loop steps, in order,
    the connections whose node id is the core's node name, and leaves the
    others alone. */
module BridgeCores {
  import opened Wrappers
  import opened TimeSources
  import opened MockEndpoints
  import opened TransferPdus
  import opened BridgeConnections
  import ThrottlePolicies
  import TickerPolicies

  /** A connection as the loop sees it: its node id and its transfers. */
  type Group = (string, seq<TransferView>)

  /** The transfers one loop iteration reaches: those of the groups of
      `node`, group by group, each in its own order. */
  function Selected(groups: seq<Group>, node: string): seq<TransferView>
    decreases |groups|
  {
    if groups == [] then []
    else
      var last := groups[|groups| - 1];
      Selected(groups[..|groups| - 1], node) + (if last.0 == node then last.1 else [])
  }

  /** A transfer is reached exactly when it belongs to a group of `node`. */
  lemma {:induction false} SelectedMembers(groups: seq<Group>, node: string, v: TransferView)
    ensures v in Selected(groups, node)
            <==> exists j | 0 <= j < |groups| :: groups[j].0 == node && v in groups[j].1
    decreases |groups|
  {
    if groups != [] {
      var init := groups[..|groups| - 1];
      var last := groups[|groups| - 1];
      SelectedMembers(init, node, v);
      if v in Selected(groups, node) {
        if v in Selected(init, node) {
          var j :| 0 <= j < |init| && init[j].0 == node && v in init[j].1;
          assert groups[j] == init[j];
        } else {
          assert groups[|groups| - 1].0 == node && v in groups[|groups| - 1].1;
        }
      } else {
        forall j | 0 <= j < |groups| && groups[j].0 == node
          ensures v !in groups[j].1
        {
          if j < |init| {
            assert groups[j] == init[j];
          }
        }
      }
    }
  }

  /** The groups of other nodes are skipped entirely: when every group
      belongs to `node` the iteration reaches all of them, and when none
      does it reaches nothing. */
  lemma {:induction false} SelectedNoneOrAll(groups: seq<Group>, node: string)
    ensures (forall j | 0 <= j < |groups| :: groups[j].0 != node) ==> Selected(groups, node) == []
    ensures (forall j | 0 <= j < |groups| :: groups[j].0 == node) ==>
              |Selected(groups, node)| == TotalSize(groups)
    decreases |groups|
  {
    if groups != [] {
      SelectedNoneOrAll(groups[..|groups| - 1], node);
    }
  }

  function TotalSize(groups: seq<Group>): nat
    decreases |groups|
  {
    if groups == [] then 0 else TotalSize(groups[..|groups| - 1]) + |groups[|groups| - 1].1|
  }

  /** Every reached transfer is covered when every group is. */
  lemma {:induction false} SelectedCovered(w: World, groups: seq<Group>, node: string)
    requires forall j | 0 <= j < |groups| :: CoversAll(w, groups[j].1)
    ensures CoversAll(w, Selected(groups, node))
    decreases |groups|
  {
    if groups != [] {
      var init := groups[..|groups| - 1];
      SelectedCovered(w, init, node);
      var a := Selected(init, node);
      var last := groups[|groups| - 1];
      var b := if last.0 == node then last.1 else [];
      forall i | 0 <= i < |a + b| ensures Covers(w, (a + b)[i]) && (a + b)[i].policy.Ready() {
        if i >= |a| {
          assert (a + b)[i] == b[i - |a|];
        }
      }
    }
  }

  /** Every transfer of the given connections is in `R`. */
  ghost predicate Owns(cs: seq<BridgeConnection>, R: set<TransferPdu>)
    reads cs
  {
    forall i, j | 0 <= i < |cs| && 0 <= j < |cs[i].transfers| :: cs[i].transfers[j] in R
  }

  /** The connections as the loop sees them. */
  ghost function GroupsOf(cs: seq<BridgeConnection>, R: set<TransferPdu>): (gs: seq<Group>)
    requires Owns(cs, R)
    reads cs, R
    ensures |gs| == |cs|
    ensures forall i | 0 <= i < |cs| :: gs[i] == (cs[i].nodeId, cs[i].Views())
    decreases |cs|
  {
    if cs == [] then []
    else
      var last := cs[|cs| - 1];
      assert forall j | 0 <= j < |last.transfers| :: last.transfers[j] in R;
      GroupsOf(cs[..|cs| - 1], R) + [(last.nodeId, last.Views())]
  }

  predicate AllWithin(cs: seq<BridgeConnection>, T: set<ThrottlePolicies.ThrottlePolicy>,
                      K: set<TickerPolicies.TickerPolicy>, E: set<MockEndpoint>)
    reads cs
  {
    forall i | 0 <= i < |cs| :: cs[i].Within(T, K, E)
  }

  datatype CoreError = NullTimeSource

  class BridgeCore {
    const nodeName: string
    const clock: TimeSource
    var connections: seq<BridgeConnection>
    var running: bool
    /** The transfer objects of the connections. */
    ghost var Repr: set<TransferPdu>

    ghost predicate Valid()
      reads this, connections
    {
      Owns(connections, Repr)
    }

    /** The constructor, for a time source known to be present: not
        running and no connections. */
    constructor(nodeName: string, clock: TimeSource)
      ensures this.nodeName == nodeName && this.clock == clock
      ensures connections == [] && !running && Repr == {} && Valid()
    {
      this.nodeName := nodeName;
      this.clock := clock;
      connections := [];
      running := false;
      Repr := {};
    }

    /** The constructor as the source writes it: a null time source is
        refused. */
    static method Create(nodeName: string, clock: TimeSource?) returns (r: Result<BridgeCore, CoreError>)
      ensures r.Err? <==> clock == null
      ensures r.Ok? ==> fresh(r.value) && r.value.nodeName == nodeName && r.value.clock == clock
                        && r.value.connections == [] && !r.value.running && r.value.Valid()
    {
      if clock == null {
        return Err(NullTimeSource);
      }
      var core := new BridgeCore(nodeName, clock);
      r := Ok(core);
    }

    /** `add_connection`: appends at the end. */
    method AddConnection(connection: BridgeConnection)
      requires Valid()
      modifies this
      ensures connections == old(connections) + [connection] && running == old(running)
      ensures Repr == old(Repr) + set j | 0 <= j < |connection.transfers| :: connection.transfers[j]
      ensures Valid()
    {
      connections := connections + [connection];
      Repr := Repr + set j | 0 <= j < |connection.transfers| :: connection.transfers[j];
    }

    /** The transfers one loop iteration reaches. */
    ghost function Reached(): seq<TransferView>
      requires Valid()
      reads this, connections, Repr
    {
      Selected(GroupsOf(connections, Repr), nodeName)
    }

    predicate Within(T: set<ThrottlePolicies.ThrottlePolicy>, K: set<TickerPolicies.TickerPolicy>,
                     E: set<MockEndpoint>)
      reads this, connections
    {
      AllWithin(connections, T, K, E)
    }

    /** One iteration of the `run` loop: `step` every connection of this
        node, in order; the others are not stepped. */
    method SweepOnce(ghost T: set<ThrottlePolicies.ThrottlePolicy>,
                     ghost K: set<TickerPolicies.TickerPolicy>, ghost E: set<MockEndpoint>)
      requires Within(T, K, E) && Valid()
      modifies T, K, E
      ensures CoversAll(old(Snapshot(T, K, E)), old(Reached()))
      ensures Snapshot(T, K, E) == SweepWorld(old(Snapshot(T, K, E)), old(Reached()), clock.GetMicroseconds())
    {
      ghost var w0 := Snapshot(T, K, E);
      ghost var gs := GroupsOf(connections, Repr);
      ghost var reached := Reached();
      CoveredGroups(gs, w0, T, K, E);
      SweepFrom(w0, gs, clock.GetMicroseconds(), T, K, E);
      assert reached == Selected(gs, nodeName);
    }

    /** The loop of one iteration, over groups `gs` of the connections
        whose transfers the snapshot `w0` covers. */
    method SweepFrom(ghost w0: World, ghost gs: seq<Group>, ghost now: nat,
                     ghost T: set<ThrottlePolicies.ThrottlePolicy>,
                     ghost K: set<TickerPolicies.TickerPolicy>, ghost E: set<MockEndpoint>)
      requires Valid() && Within(T, K, E)
      requires GroupsOf(connections, Repr) == gs && clock.GetMicroseconds() == now
      requires forall j | 0 <= j < |gs| :: CoversAll(w0, gs[j].1)
      requires Snapshot(T, K, E) == w0
      modifies T, K, E
      ensures CoversAll(w0, Selected(gs, nodeName))
      ensures Snapshot(T, K, E) == SweepWorld(w0, Selected(gs, nodeName), now)
    {
      var i := 0;
      while i < |connections|
        invariant 0 <= i <= |connections| && Valid() && Within(T, K, E)
        invariant GroupsOf(connections, Repr) == gs && clock.GetMicroseconds() == now
        invariant CoversAll(w0, Selected(gs[..i], nodeName))
        invariant Snapshot(T, K, E) == SweepWorld(w0, Selected(gs[..i], nodeName), now)
      {
        StepAt(i, w0, gs, now, T, K, E);
        i := i + 1;
      }
      assert gs[..i] == gs;
    }

    /** The loop body: `step` connection `i` when it is this node's. */
    method StepAt(i: nat, ghost w0: World, ghost gs: seq<Group>, ghost now: nat,
                  ghost T: set<ThrottlePolicies.ThrottlePolicy>,
                  ghost K: set<TickerPolicies.TickerPolicy>, ghost E: set<MockEndpoint>)
      requires Valid() && Within(T, K, E) && i < |connections|
      requires GroupsOf(connections, Repr) == gs && clock.GetMicroseconds() == now
      requires forall j | 0 <= j < |gs| :: CoversAll(w0, gs[j].1)
      requires CoversAll(w0, Selected(gs[..i], nodeName))
      requires Snapshot(T, K, E) == SweepWorld(w0, Selected(gs[..i], nodeName), now)
      modifies T, K, E
      ensures Valid() && Within(T, K, E)
      ensures GroupsOf(connections, Repr) == gs && clock.GetMicroseconds() == now
      ensures CoversAll(w0, Selected(gs[..i + 1], nodeName))
      ensures Snapshot(T, K, E) == SweepWorld(w0, Selected(gs[..i + 1], nodeName), now)
    {
      assert connections[i].Within(T, K, E);
      SelectNext(w0, gs, i, nodeName, now);
      if connections[i].nodeId == nodeName {
        StepConnection(i, T, K, E);
      }
    }

    /** `step` of connection `i`; the connections themselves do not change. */
    method StepConnection(i: nat, ghost T: set<ThrottlePolicies.ThrottlePolicy>,
                          ghost K: set<TickerPolicies.TickerPolicy>, ghost E: set<MockEndpoint>)
      requires Valid() && Within(T, K, E) && i < |connections|
      modifies T, K, E
      ensures Valid() && Within(T, K, E)
      ensures GroupsOf(connections, Repr) == old(GroupsOf(connections, Repr))
      ensures clock.GetMicroseconds() == old(clock.GetMicroseconds())
      ensures CoversAll(old(Snapshot(T, K, E)), old(connections[i].Views()))
      ensures Snapshot(T, K, E) == SweepWorld(old(Snapshot(T, K, E)), old(connections[i].Views()), clock.GetMicroseconds())
    {
      connections[i].Step(clock, T, K, E);
    }

    /** `run`: returns at once when the loop is already running;
        otherwise one iteration of the loop, after which `stop` is seen. */
    method Run(ghost T: set<ThrottlePolicies.ThrottlePolicy>,
               ghost K: set<TickerPolicies.TickerPolicy>, ghost E: set<MockEndpoint>)
      requires Within(T, K, E) && Valid()
      modifies this, T, K, E
      ensures connections == old(connections) && Repr == old(Repr)
      ensures old(running) ==> running && Snapshot(T, K, E) == old(Snapshot(T, K, E))
      ensures !old(running) ==>
                !running && CoversAll(old(Snapshot(T, K, E)), old(Reached()))
                && Snapshot(T, K, E) == SweepWorld(old(Snapshot(T, K, E)), old(Reached()), clock.GetMicroseconds())
    {
      if running {
        return;
      }
      RunOnce(T, K, E);
    }

    /** `run` on a core that is not running: `running_` is set, one
        iteration of the loop runs, and `stop` clears the flag. */
    method RunOnce(ghost T: set<ThrottlePolicies.ThrottlePolicy>,
                   ghost K: set<TickerPolicies.TickerPolicy>, ghost E: set<MockEndpoint>)
      requires Within(T, K, E) && Valid() && !running
      modifies this, T, K, E
      ensures connections == old(connections) && Repr == old(Repr) && !running
      ensures CoversAll(old(Snapshot(T, K, E)), old(Reached()))
      ensures Snapshot(T, K, E) == SweepWorld(old(Snapshot(T, K, E)), old(Reached()), clock.GetMicroseconds())
    {
      Start(T, K, E);
      SweepOnce(T, K, E);
      Stop(T, K, E);
    }

    /** Setting `running_`: nothing the loop reads changes. */
    method Start(ghost T: set<ThrottlePolicies.ThrottlePolicy>,
                 ghost K: set<TickerPolicies.TickerPolicy>, ghost E: set<MockEndpoint>)
      requires Valid() && Within(T, K, E)
      modifies this
      ensures running && connections == old(connections) && Repr == old(Repr)
      ensures Valid() && Within(T, K, E) && Reached() == old(Reached())
      ensures Snapshot(T, K, E) == old(Snapshot(T, K, E))
    {
      running := true;
    }

    /** `stop`: clears the flag; no policy or endpoint changes. */
    method Stop(ghost T: set<ThrottlePolicies.ThrottlePolicy>,
                ghost K: set<TickerPolicies.TickerPolicy>, ghost E: set<MockEndpoint>)
      modifies this
      ensures !running && connections == old(connections) && Repr == old(Repr)
      ensures Snapshot(T, K, E) == old(Snapshot(T, K, E))
    {
      running := false;
    }
  }

  /** Each connection of a core within `T`, `K`, `E` is covered by their
      snapshot. */
  lemma CoveredGroups(gs: seq<Group>, w: World, T: set<ThrottlePolicies.ThrottlePolicy>,
                      K: set<TickerPolicies.TickerPolicy>, E: set<MockEndpoint>)
    requires w.throttles.Keys == T && w.tickers.Keys == K && w.endpoints.Keys == E
    requires forall j | 0 <= j < |gs| :: forall i | 0 <= i < |gs[j].1| ::
               PolicyWithin(gs[j].1[i].policy, T, K) && gs[j].1[i].src in E && gs[j].1[i].dst in E
               && gs[j].1[i].policy.Ready()
    ensures forall j | 0 <= j < |gs| :: CoversAll(w, gs[j].1)
  {
  }

  /** Stepping one more connection of the list. */
  lemma SelectNext(w: World, gs: seq<Group>, i: nat, node: string, now: nat)
    requires i < |gs| && forall j | 0 <= j < |gs| :: CoversAll(w, gs[j].1)
    ensures CoversAll(w, Selected(gs[..i], node)) && CoversAll(w, Selected(gs[..i + 1], node))
    ensures CoversAll(SweepWorld(w, Selected(gs[..i], node), now), gs[i].1)
    ensures SweepWorld(w, Selected(gs[..i + 1], node), now)
            == if gs[i].0 == node then SweepWorld(SweepWorld(w, Selected(gs[..i], node), now), gs[i].1, now)
               else SweepWorld(w, Selected(gs[..i], node), now)
  {
    assert gs[..i + 1][..i] == gs[..i];
    SelectedCovered(w, gs[..i], node);
    SelectedCovered(w, gs[..i + 1], node);
    CoversAllSameObjects(w, SweepWorld(w, Selected(gs[..i], node), now), gs[i].1);
    if gs[i].0 == node {
      SweepAppend(w, Selected(gs[..i], node), gs[i].1, now);
    } else {
      assert Selected(gs[..i + 1], node) == Selected(gs[..i], node);
    }
  }
}
