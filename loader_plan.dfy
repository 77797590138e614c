/** What `BridgeLoader::load` builds, as values: the time source it picks,
    the policy table it fills from `transferPolicies`, and, for every
    connection of the node, the list of transfers it adds, one
    `TransferPlan` per transfer. The loader's methods are proved to build
    exactly these. Every exception the loader can throw is a `LoadError`. */
module LoaderPlans {
  import opened Wrappers
  import opened BridgeTypes
  import opened TimeSources
  import opened Json
  import StringOrder

  datatype LoadError =
    | UnknownTimeSource(timeSourceType: string)
    | MissingInterval(policyType: string)
    | ZeroInterval(policyType: string)
    | SourceNotFound(sourceId: string)
    | DestinationNotFound(destinationId: string)
    | PolicyNotFound(policyId: string)
    | KeyGroupNotFound(groupId: string)
    | ConfigNotOpened(path: string)
    | ConfigMalformed
    | ConfigDecode(error: DecodeError)
    | EndpointOpenFailed(configPath: string)

  // ---------------------------------------------------------------------
  // Time source

  /** `time_source_type`: "real" or "virtual", anything else is refused. */
  function SelectTimeSource(timeSourceType: string): (r: Result<TimeSourceKind, LoadError>)
    ensures r == Ok(Real) <==> timeSourceType == "real"
    ensures r == Ok(Virtual) <==> timeSourceType == "virtual"
    ensures r.Err? ==> r.error == UnknownTimeSource(timeSourceType)
  {
    if timeSourceType == "real" then Ok(Real)
    else if timeSourceType == "virtual" then Ok(Virtual)
    else Err(UnknownTimeSource(timeSourceType))
  }

  // ---------------------------------------------------------------------
  // Policy table

  /** A policy as the table holds it: its kind and interval in µs. */
  datatype PolicyPlan = ImmediateP | ThrottleP(interval: nat) | TickerP(interval: nat)

  /** `static_cast<uint64_t>(ms) * 1000`, in 64-bit unsigned arithmetic. */
  function IntervalMicros(ms: int): (us: nat)
    ensures Machine.IsUint64(us)
    ensures 0 <= ms && ms * 1000 < Machine.UINT64_MODULUS ==> us == ms * 1000
  {
    (Machine.ToUint64(ms) * 1000) % Machine.UINT64_MODULUS
  }

  /** What one `transferPolicies` entry puts into the table, as
      src/bridge_loader.cpp:100-108 writes it: nothing for an unknown type,
      an error for a throttle or ticker without `intervalMs`. */
  function PolicyEntryAsWritten(p: TransferPolicy): (r: Result<Option<PolicyPlan>, LoadError>)
    ensures r.Err? <==> (p.policyType == "throttle" || p.policyType == "ticker") && p.intervalMs.None?
    ensures r.Err? ==> r.error == MissingInterval(p.policyType)
    ensures r.Ok? && r.value.None? <==> p.policyType !in ["immediate", "throttle", "ticker"]
    ensures r == Ok(Some(ImmediateP)) <==> p.policyType == "immediate"
    ensures p.policyType == "throttle" && p.intervalMs.Some? ==> r == Ok(Some(ThrottleP(IntervalMicros(p.intervalMs.value))))
    ensures p.policyType == "ticker" && p.intervalMs.Some? ==> r == Ok(Some(TickerP(IntervalMicros(p.intervalMs.value))))
  {
    if p.policyType == "immediate" then Ok(Some(ImmediateP))
    else if p.policyType == "throttle" then
      if p.intervalMs.None? then Err(MissingInterval("throttle"))
      else Ok(Some(ThrottleP(IntervalMicros(p.intervalMs.value))))
    else if p.policyType == "ticker" then
      if p.intervalMs.None? then Err(MissingInterval("ticker"))
      else Ok(Some(TickerP(IntervalMicros(p.intervalMs.value))))
    else Ok(None)
  }

  /** As written, `{"type": "ticker", "intervalMs": 0}` is accepted and
      makes a ticker of interval 0, whose rescheduling loop never ends
      (`TickerPolicies.AsWrittenZeroIntervalNeverEnds`). */
  lemma AsWrittenAcceptsZeroTicker()
    ensures PolicyEntryAsWritten(TransferPolicy("ticker", Some(0))) == Ok(Some(TickerP(0)))
  {
    assert IntervalMicros(0) == 0;
  }

  /** A ticker that gets interval 0. */
  predicate ZeroTicker(p: TransferPolicy) {
    p.policyType == "ticker" && p.intervalMs.Some? && IntervalMicros(p.intervalMs.value) == 0
  }

  /** A table entry whose policy can serve every transfer: a ticker's
      interval is positive. */
  predicate Servable(pp: PolicyPlan) {
    pp.TickerP? ==> pp.interval > 0
  }

  /** One entry as the bridge reads it: as written, except that a ticker
      that would get interval 0 is refused like one without an interval. */
  function PolicyEntry(p: TransferPolicy): (r: Result<Option<PolicyPlan>, LoadError>)
    ensures r.Err? <==> ((p.policyType == "throttle" || p.policyType == "ticker") && p.intervalMs.None?) || ZeroTicker(p)
    ensures r.Err? ==> r.error == if ZeroTicker(p) then ZeroInterval("ticker") else MissingInterval(p.policyType)
    ensures r.Ok? && r.value.Some? ==> p.policyType in ["immediate", "throttle", "ticker"] && Servable(r.value.value)
    ensures r.Ok? && r.value.None? <==> p.policyType !in ["immediate", "throttle", "ticker"]
    ensures r == Ok(Some(ImmediateP)) <==> p.policyType == "immediate"
    ensures p.policyType == "throttle" && p.intervalMs.Some? ==> r == Ok(Some(ThrottleP(IntervalMicros(p.intervalMs.value))))
    ensures p.policyType == "ticker" && p.intervalMs.Some? && !ZeroTicker(p) ==>
              r == Ok(Some(TickerP(IntervalMicros(p.intervalMs.value))))
    ensures !ZeroTicker(p) ==> r == PolicyEntryAsWritten(p)
  {
    if ZeroTicker(p) then Err(ZeroInterval("ticker")) else PolicyEntryAsWritten(p)
  }

  /** The ids whose entry throws. */
  function Failing(ps: map<string, TransferPolicy>): set<string> {
    set id | id in ps && PolicyEntry(ps[id]).Err?
  }

  /** The policy table. The map is visited least key first, so the error,
      when there is one, is that of the least failing id. */
  ghost function PolicyTable(ps: map<string, TransferPolicy>): (r: Result<map<string, PolicyPlan>, LoadError>)
  {
    if Failing(ps) != {} then
      Err(PolicyEntry(ps[StringOrder.Least(Failing(ps))]).error)
    else
      Ok(map id | id in ps && PolicyEntry(ps[id]).Ok? && PolicyEntry(ps[id]).value.Some? :: PolicyEntry(ps[id]).value.value)
  }

  /** The table is built exactly when no throttle or ticker lacks its
      interval and no ticker gets interval 0; it holds the entries of known type, each converted, and
      leaves the unknown ones out. */
  lemma PolicyTableEntries(ps: map<string, TransferPolicy>)
    ensures PolicyTable(ps).Ok? <==>
              forall id | id in ps :: !((ps[id].policyType == "throttle" || ps[id].policyType == "ticker")
                                      && ps[id].intervalMs.None?) && !ZeroTicker(ps[id])
    ensures PolicyTable(ps).Ok? ==>
              forall id | id in ps ::
                (id in PolicyTable(ps).value <==> ps[id].policyType in ["immediate", "throttle", "ticker"])
    ensures PolicyTable(ps).Ok? ==>
              forall id | id in PolicyTable(ps).value :: id in ps && Ok(Some(PolicyTable(ps).value[id])) == PolicyEntry(ps[id])
  {
    if PolicyTable(ps).Ok? {
      assert Failing(ps) == {};
      forall id | id in ps
        ensures !((ps[id].policyType == "throttle" || ps[id].policyType == "ticker") && ps[id].intervalMs.None?)
                && !ZeroTicker(ps[id])
      {
        assert id !in Failing(ps);
      }
    } else {
      var id := StringOrder.Least(Failing(ps));
      assert id in Failing(ps);
    }
  }

  /** Every policy of a built table can serve its transfers. */
  lemma PolicyTableServable(ps: map<string, TransferPolicy>)
    requires PolicyTable(ps).Ok?
    ensures forall id | id in PolicyTable(ps).value :: Servable(PolicyTable(ps).value[id])
  {
    PolicyTableEntries(ps);
  }

  /** The error is that of the least failing id: every smaller id's entry is
      fine. */
  lemma PolicyTableError(ps: map<string, TransferPolicy>)
    requires PolicyTable(ps).Err?
    ensures exists id | id in ps :: PolicyEntry(ps[id]).Err? && PolicyTable(ps).error == PolicyEntry(ps[id]).error
                                   && forall j | j in ps && StringOrder.Less(j, id) :: PolicyEntry(ps[j]).Ok?
  {
    var id := StringOrder.Least(Failing(ps));
    assert id in Failing(ps);
    forall j | j in ps && StringOrder.Less(j, id) ensures PolicyEntry(ps[j]).Ok? {
      if PolicyEntry(ps[j]).Err? {
        assert j in Failing(ps);
        StringOrder.Asymmetric(j, id);
      }
    }
  }

  // ---------------------------------------------------------------------
  // Connection expansion

  /** One `TransferPdu` the loader adds: its key, the id of its policy and
      the ids of its source and destination endpoints. */
  datatype TransferPlan = TransferPlan(key: PduKey, policyId: string, source: string, destination: string)

  /** The transfers of one `transferPdus` entry toward one destination: one
      per key of its group, in the group's order. */
  function KeysPlan(keys: seq<PduKey>, policyId: string, source: string, destination: string): (r: seq<TransferPlan>)
    ensures |r| == |keys|
    ensures forall i | 0 <= i < |keys| :: r[i] == TransferPlan(keys[i], policyId, source, destination)
    decreases |keys|
  {
    if keys == [] then []
    else KeysPlan(keys[..|keys| - 1], policyId, source, destination)
         + [TransferPlan(keys[|keys| - 1], policyId, source, destination)]
  }

  /** The inner loops for one destination: for each `transferPdus` entry in
      order, its policy (`policy_map.at`) and then its key group
      (`pduKeyGroups.at`) are looked up and its keys expanded. */
  function TransferPdusPlan(tps: seq<TransferPduConfig>, groups: map<string, seq<PduKey>>, policies: set<string>,
                            source: string, destination: string): (r: Result<seq<TransferPlan>, LoadError>)
    ensures r.Ok? ==> |r.value| == KeyCount(tps, groups)
    decreases |tps|
  {
    if tps == [] then Ok([])
    else
      var init :- TransferPdusPlan(tps[..|tps| - 1], groups, policies, source, destination);
      var tp := tps[|tps| - 1];
      if tp.policyId !in policies then Err(PolicyNotFound(tp.policyId))
      else if tp.pduKeyGroupId !in groups then Err(KeyGroupNotFound(tp.pduKeyGroupId))
      else Ok(init + KeysPlan(groups[tp.pduKeyGroupId], tp.policyId, source, destination))
  }

  /** The loop over destinations: each must be a known endpoint. */
  function DestinationsPlan(dests: seq<ConnectionDestination>, tps: seq<TransferPduConfig>,
                            groups: map<string, seq<PduKey>>, policies: set<string>, endpoints: set<string>,
                            source: string): Result<seq<TransferPlan>, LoadError>
    decreases |dests|
  {
    if dests == [] then Ok([])
    else
      var init :- DestinationsPlan(dests[..|dests| - 1], tps, groups, policies, endpoints, source);
      var d := dests[|dests| - 1].endpointId;
      if d !in endpoints then Err(DestinationNotFound(d))
      else
        var more :- TransferPdusPlan(tps, groups, policies, source, d);
        Ok(init + more)
  }

  /** One connection: its source is looked up first, then its
      destinations are expanded. */
  function ConnectionPlan(c: Connection, groups: map<string, seq<PduKey>>, policies: set<string>,
                          endpoints: set<string>): Result<seq<TransferPlan>, LoadError>
  {
    if c.source.endpointId !in endpoints then Err(SourceNotFound(c.source.endpointId))
    else DestinationsPlan(c.destinations, c.transferPdus, groups, policies, endpoints, c.source.endpointId)
  }

  /** The loop over `connections`: the node's connections, in order; the
      others are skipped. */
  function ConnectionsPlan(cs: seq<Connection>, node: string, groups: map<string, seq<PduKey>>,
                           policies: set<string>, endpoints: set<string>): Result<seq<seq<TransferPlan>>, LoadError>
    decreases |cs|
  {
    if cs == [] then Ok([])
    else
      var init :- ConnectionsPlan(cs[..|cs| - 1], node, groups, policies, endpoints);
      var c := cs[|cs| - 1];
      if c.nodeId != node then Ok(init)
      else
        var transfers :- ConnectionPlan(c, groups, policies, endpoints);
        Ok(init + [transfers])
  }

  /** The whole of `load`: the time source, then the policy table, then the
      connections. */
  ghost function LoadPlan(config: BridgeConfig, node: string, endpoints: set<string>)
    : Result<(TimeSourceKind, map<string, PolicyPlan>, seq<seq<TransferPlan>>), LoadError>
  {
    var kind :- SelectTimeSource(config.timeSourceType);
    var table :- PolicyTable(config.transferPolicies);
    var conns :- ConnectionsPlan(config.connections, node, config.pduKeyGroups, table.Keys, endpoints);
    Ok((kind, table, conns))
  }

  // ---------------------------------------------------------------------
  // Properties of the expansion

  /** The number of keys the `transferPdus` entries reach. */
  function KeyCount(tps: seq<TransferPduConfig>, groups: map<string, seq<PduKey>>): nat
    decreases |tps|
  {
    if tps == [] then 0
    else
      var g := tps[|tps| - 1].pduKeyGroupId;
      KeyCount(tps[..|tps| - 1], groups) + (if g in groups then |groups[g]| else 0)
  }

  /** Every `transferPdus` entry of a successful expansion names a known
      policy and a known key group. */
  lemma {:induction false} TransferPdusLookups(tps: seq<TransferPduConfig>, groups: map<string, seq<PduKey>>,
                                               policies: set<string>, source: string, destination: string)
    requires TransferPdusPlan(tps, groups, policies, source, destination).Ok?
    ensures forall t | 0 <= t < |tps| :: tps[t].policyId in policies && tps[t].pduKeyGroupId in groups
    decreases |tps|
  {
    if tps != [] {
      var init := tps[..|tps| - 1];
      TransferPdusLookups(init, groups, policies, source, destination);
      forall t | 0 <= t < |tps| ensures tps[t].policyId in policies && tps[t].pduKeyGroupId in groups {
        if t < |init| { assert tps[t] == init[t]; }
      }
    }
  }

  /** Within one destination the transfers are ordered by `transferPdus`
      entry and then by key: the `k`-th key of entry `t` sits right after the
      keys of the entries before it. */
  lemma {:induction false} TransferPdusOrder(tps: seq<TransferPduConfig>, groups: map<string, seq<PduKey>>,
                                             policies: set<string>, source: string, destination: string,
                                             t: nat, k: nat)
    requires TransferPdusPlan(tps, groups, policies, source, destination).Ok?
    requires t < |tps| && tps[t].pduKeyGroupId in groups && k < |groups[tps[t].pduKeyGroupId]|
    ensures KeyCount(tps[..t], groups) + k < KeyCount(tps, groups)
    ensures TransferPdusPlan(tps, groups, policies, source, destination).value[KeyCount(tps[..t], groups) + k]
            == TransferPlan(groups[tps[t].pduKeyGroupId][k], tps[t].policyId, source, destination)
    decreases |tps|
  {
    var init := tps[..|tps| - 1];
    var tp := tps[|tps| - 1];
    var a := TransferPdusPlan(init, groups, policies, source, destination).value;
    var b := KeysPlan(groups[tp.pduKeyGroupId], tp.policyId, source, destination);
    assert TransferPdusPlan(tps, groups, policies, source, destination).value == a + b;
    if t < |init| {
      assert tps[..t] == init[..t];
      assert tps[t] == init[t];
      TransferPdusOrder(init, groups, policies, source, destination, t, k);
    } else {
      assert tps[..t] == init;
    }
  }

  /** The expansion toward one destination does not depend on which
      destination it is, except in the destination field. */
  lemma {:induction false} TransferPdusRetarget(tps: seq<TransferPduConfig>, groups: map<string, seq<PduKey>>,
                                                policies: set<string>, source: string, d1: string, d2: string)
    ensures TransferPdusPlan(tps, groups, policies, source, d1).Ok? == TransferPdusPlan(tps, groups, policies, source, d2).Ok?
    ensures TransferPdusPlan(tps, groups, policies, source, d1).Err? ==>
              TransferPdusPlan(tps, groups, policies, source, d1) == TransferPdusPlan(tps, groups, policies, source, d2)
    ensures TransferPdusPlan(tps, groups, policies, source, d1).Ok? ==>
              var r1 := TransferPdusPlan(tps, groups, policies, source, d1).value;
              var r2 := TransferPdusPlan(tps, groups, policies, source, d2).value;
              |r1| == |r2| && forall i | 0 <= i < |r1| :: r2[i] == r1[i].(destination := d2)
    decreases |tps|
  {
    if tps != [] {
      var init := tps[..|tps| - 1];
      TransferPdusRetarget(init, groups, policies, source, d1, d2);
      if TransferPdusPlan(tps, groups, policies, source, d1).Ok? {
        var tp := tps[|tps| - 1];
        var a1 := TransferPdusPlan(init, groups, policies, source, d1).value;
        var a2 := TransferPdusPlan(init, groups, policies, source, d2).value;
        var b1 := KeysPlan(groups[tp.pduKeyGroupId], tp.policyId, source, d1);
        var b2 := KeysPlan(groups[tp.pduKeyGroupId], tp.policyId, source, d2);
        var r1 := TransferPdusPlan(tps, groups, policies, source, d1).value;
        var r2 := TransferPdusPlan(tps, groups, policies, source, d2).value;
        assert r1 == a1 + b1 && r2 == a2 + b2;
        forall i | 0 <= i < |r1| ensures r2[i] == r1[i].(destination := d2) {
          if i >= |a1| {
            assert r1[i] == b1[i - |a1|] && r2[i] == b2[i - |a1|];
          } else {
            assert r1[i] == a1[i] && r2[i] == a2[i];
          }
        }
      }
    }
  }

  /** The index of the `k`-th transfer toward the `d`-th destination when each
      destination gets `n` transfers. */
  function Slot(d: nat, n: nat, k: nat): nat {
    d * n + k
  }

  lemma SlotBound(d: nat, n: nat, k: nat, m: nat)
    requires d < m && k < n
    ensures Slot(d, n, k) < m * n
  {
    MulSucc(d, n);
    MulMono(d + 1, m, n);
  }

  lemma MulSucc(m: nat, n: nat)
    ensures (m + 1) * n == m * n + n
  {
  }

  lemma MulMono(a: nat, b: nat, n: nat)
    requires a <= b
    ensures a * n <= b * n
  {
  }

  /** A built connection holds |destinations| × Σ|key group| transfers,
      destination-major: the block of each destination is the expansion of
      all `transferPdus` entries toward it. */
  lemma {:induction false} DestinationMajor(dests: seq<ConnectionDestination>, tps: seq<TransferPduConfig>,
                                            groups: map<string, seq<PduKey>>, policies: set<string>,
                                            endpoints: set<string>, source: string)
    requires DestinationsPlan(dests, tps, groups, policies, endpoints, source).Ok?
    ensures |DestinationsPlan(dests, tps, groups, policies, endpoints, source).value| == |dests| * KeyCount(tps, groups)
    ensures forall d | 0 <= d < |dests| :: dests[d].endpointId in endpoints
                                         && TransferPdusPlan(tps, groups, policies, source, dests[d].endpointId).Ok?
    ensures forall d, k | 0 <= d < |dests| && 0 <= k < KeyCount(tps, groups) ::
              Slot(d, KeyCount(tps, groups), k) < |dests| * KeyCount(tps, groups)
              && DestinationsPlan(dests, tps, groups, policies, endpoints, source).value[Slot(d, KeyCount(tps, groups), k)]
                 == TransferPdusPlan(tps, groups, policies, source, dests[d].endpointId).value[k]
    decreases |dests|
  {
    var n := KeyCount(tps, groups);
    if dests != [] {
      var init := dests[..|dests| - 1];
      var last := dests[|dests| - 1].endpointId;
      DestinationMajor(init, tps, groups, policies, endpoints, source);
      var a := DestinationsPlan(init, tps, groups, policies, endpoints, source).value;
      var b := TransferPdusPlan(tps, groups, policies, source, last).value;
      var r := DestinationsPlan(dests, tps, groups, policies, endpoints, source).value;
      assert r == a + b;
      MulSucc(|init|, n);
      forall d | 0 <= d < |dests|
        ensures dests[d].endpointId in endpoints && TransferPdusPlan(tps, groups, policies, source, dests[d].endpointId).Ok?
      {
        if d < |init| { assert dests[d] == init[d]; }
      }
      forall d, k | 0 <= d < |dests| && 0 <= k < n
        ensures Slot(d, n, k) < |dests| * n
        ensures r[Slot(d, n, k)] == TransferPdusPlan(tps, groups, policies, source, dests[d].endpointId).value[k]
      {
        SlotBound(d, n, k, |dests|);
        if d < |init| {
          assert dests[d] == init[d];
          SlotBound(d, n, k, |init|);
          assert r[Slot(d, n, k)] == a[Slot(d, n, k)];
        } else {
          assert Slot(d, n, k) == |a| + k;
        }
      }
    }
  }

  /** The node's connections, in order. */
  function OwnConnections(cs: seq<Connection>, node: string): (r: seq<Connection>)
    ensures forall i | 0 <= i < |r| :: r[i].nodeId == node
    decreases |cs|
  {
    if cs == [] then []
    else
      var c := cs[|cs| - 1];
      OwnConnections(cs[..|cs| - 1], node) + (if c.nodeId == node then [c] else [])
  }

  /** Other nodes' connections contribute nothing, not even an error: the
      loader builds one connection per own connection, each from its
      definition alone. */
  lemma {:induction false} OtherNodesSkipped(cs: seq<Connection>, node: string, groups: map<string, seq<PduKey>>,
                                             policies: set<string>, endpoints: set<string>)
    ensures ConnectionsPlan(cs, node, groups, policies, endpoints).Ok?
            <==> forall i | 0 <= i < |OwnConnections(cs, node)| ::
                   ConnectionPlan(OwnConnections(cs, node)[i], groups, policies, endpoints).Ok?
    ensures ConnectionsPlan(cs, node, groups, policies, endpoints).Ok? ==>
              var r := ConnectionsPlan(cs, node, groups, policies, endpoints).value;
              |r| == |OwnConnections(cs, node)|
              && forall i | 0 <= i < |r| :: Ok(r[i]) == ConnectionPlan(OwnConnections(cs, node)[i], groups, policies, endpoints)
    decreases |cs|
  {
    if cs != [] {
      var init := cs[..|cs| - 1];
      var c := cs[|cs| - 1];
      OtherNodesSkipped(init, node, groups, policies, endpoints);
      var own := OwnConnections(init, node);
      if c.nodeId == node {
        var all := own + [c];
        assert OwnConnections(cs, node) == all;
        if ConnectionsPlan(cs, node, groups, policies, endpoints).Ok? {
          forall i | 0 <= i < |all| ensures ConnectionPlan(all[i], groups, policies, endpoints).Ok? {
            if i < |own| { assert all[i] == own[i]; }
          }
        }
        if forall i | 0 <= i < |all| :: ConnectionPlan(all[i], groups, policies, endpoints).Ok? {
          forall i | 0 <= i < |own| ensures ConnectionPlan(own[i], groups, policies, endpoints).Ok? {
            assert all[i] == own[i];
          }
          assert ConnectionPlan(all[|own|], groups, policies, endpoints).Ok?;
        }
      } else {
        assert OwnConnections(cs, node) == own;
      }
    }
  }

  /** The error for an own connection whose source endpoint is unknown is a
      missing source, reported before anything about its destinations. */
  lemma MissingSource(c: Connection, groups: map<string, seq<PduKey>>, policies: set<string>, endpoints: set<string>)
    requires c.source.endpointId !in endpoints
    ensures ConnectionsPlan([c], c.nodeId, groups, policies, endpoints) == Err(SourceNotFound(c.source.endpointId))
  {
    assert [c][..0] == [];
  }

  /** A connection without destinations builds no transfer, even when its
      `transferPdus` name unknown policies or groups: the lookups happen
      inside the destination loop. */
  lemma NoDestinationsNoLookups(c: Connection, groups: map<string, seq<PduKey>>, policies: set<string>,
                                endpoints: set<string>)
    requires c.source.endpointId in endpoints && c.destinations == []
    ensures ConnectionPlan(c, groups, policies, endpoints) == Ok([])
  {
  }

  /** An error in a prefix of the destinations is the error of all of them. */
  lemma {:induction false} DestinationsPrefixErr(dests: seq<ConnectionDestination>, i: nat, tps: seq<TransferPduConfig>,
                                                 groups: map<string, seq<PduKey>>, policies: set<string>,
                                                 endpoints: set<string>, source: string)
    requires i <= |dests| && DestinationsPlan(dests[..i], tps, groups, policies, endpoints, source).Err?
    ensures DestinationsPlan(dests, tps, groups, policies, endpoints, source)
            == DestinationsPlan(dests[..i], tps, groups, policies, endpoints, source)
    decreases |dests| - i
  {
    if i < |dests| {
      assert dests[..i + 1][..i] == dests[..i];
      DestinationsPrefixErr(dests, i + 1, tps, groups, policies, endpoints, source);
    } else {
      assert dests[..i] == dests;
    }
  }

  /** An error in a prefix of the connections is the error of all of them. */
  lemma {:induction false} ConnectionsPrefixErr(cs: seq<Connection>, i: nat, node: string, groups: map<string, seq<PduKey>>,
                                                policies: set<string>, endpoints: set<string>)
    requires i <= |cs| && ConnectionsPlan(cs[..i], node, groups, policies, endpoints).Err?
    ensures ConnectionsPlan(cs, node, groups, policies, endpoints) == ConnectionsPlan(cs[..i], node, groups, policies, endpoints)
    decreases |cs| - i
  {
    if i < |cs| {
      assert cs[..i + 1][..i] == cs[..i];
      ConnectionsPrefixErr(cs, i + 1, node, groups, policies, endpoints);
    } else {
      assert cs[..i] == cs;
    }
  }

  // ---------------------------------------------------------------------
  // Endpoints of `create_bridge_from_config_file`

  /** The endpoint definitions of the node, in config order: every entry of
      `endpoints` naming the node contributes its list. */
  function NodeDefinitions(eps: seq<NodeEndpoints>, node: string): seq<EndpointDefinition>
    decreases |eps|
  {
    if eps == [] then []
    else
      var last := eps[|eps| - 1];
      NodeDefinitions(eps[..|eps| - 1], node) + (if last.nodeId == node then last.endpoints else [])
  }

  /** Exactly the definitions listed under the node's entries. */
  lemma {:induction false} NodeDefinitionsMembers(eps: seq<NodeEndpoints>, node: string)
    ensures forall d :: d in NodeDefinitions(eps, node) <==>
                        exists i | 0 <= i < |eps| :: eps[i].nodeId == node && d in eps[i].endpoints
    decreases |eps|
  {
    if eps != [] {
      NodeDefinitionsMembers(eps[..|eps| - 1], node);
      assert forall i | 0 <= i < |eps| - 1 :: eps[..|eps| - 1][i] == eps[i];
    }
  }

  /** What the endpoint loop leaves: `creators` maps each config path to the
      id of the definition whose endpoint was made and opened for it, and
      `paths` maps each endpoint id to the config path of the endpoint it
      names. */
  datatype Layout = Layout(creators: map<string, string>, paths: map<string, string>)

  /** The endpoint loop over the node's definitions, first to last: a path
      seen before reuses its endpoint, a new path gets an endpoint that must
      open, and the id is (re)bound to the path's endpoint. */
  function LayoutOf(defs: seq<EndpointDefinition>, canOpen: string -> bool): Result<Layout, LoadError>
    decreases |defs|
  {
    if defs == [] then Ok(Layout(map[], map[]))
    else
      var init :- LayoutOf(defs[..|defs| - 1], canOpen);
      var d := defs[|defs| - 1];
      if d.configPath in init.creators then
        Ok(Layout(init.creators, init.paths[d.id := d.configPath]))
      else if !canOpen(d.configPath) then
        Err(EndpointOpenFailed(d.configPath))
      else
        Ok(Layout(init.creators[d.configPath := d.id], init.paths[d.id := d.configPath]))
  }

  function ConfigPaths(defs: seq<EndpointDefinition>): set<string> {
    set i | 0 <= i < |defs| :: defs[i].configPath
  }

  function EndpointIds(defs: seq<EndpointDefinition>): set<string> {
    set i | 0 <= i < |defs| :: defs[i].id
  }

  /** Definition `i` is the first with its config path. */
  predicate FirstWithPath(defs: seq<EndpointDefinition>, i: nat)
    requires i < |defs|
  {
    forall j | 0 <= j < i :: defs[j].configPath != defs[i].configPath
  }

  /** Definition `i` is the last with its id. */
  predicate LastWithId(defs: seq<EndpointDefinition>, i: nat)
    requires i < |defs|
  {
    forall j | i < j < |defs| :: defs[j].id != defs[i].id
  }

  lemma KeysLast(defs: seq<EndpointDefinition>)
    requires defs != []
    ensures ConfigPaths(defs) == ConfigPaths(defs[..|defs| - 1]) + {defs[|defs| - 1].configPath}
    ensures EndpointIds(defs) == EndpointIds(defs[..|defs| - 1]) + {defs[|defs| - 1].id}
  {
    var init := defs[..|defs| - 1];
    forall i | 0 <= i < |init| ensures init[i] == defs[i] && defs[i].configPath in ConfigPaths(defs)
                                        && defs[i].id in EndpointIds(defs) {
    }
    forall i | 0 <= i < |defs|
      ensures defs[i].configPath in ConfigPaths(init) + {defs[|defs| - 1].configPath}
      ensures defs[i].id in EndpointIds(init) + {defs[|defs| - 1].id}
    {
      if i < |init| {
        assert init[i] == defs[i];
      }
    }
  }

  /** One endpoint per distinct config path, each opened, every id bound to
      the endpoint of a known path. */
  lemma {:induction false} LayoutKeys(defs: seq<EndpointDefinition>, canOpen: string -> bool)
    requires LayoutOf(defs, canOpen).Ok?
    ensures var l := LayoutOf(defs, canOpen).value;
            l.creators.Keys == ConfigPaths(defs) && l.paths.Keys == EndpointIds(defs)
            && (forall id | id in l.paths :: l.paths[id] in l.creators)
            && forall p | p in l.creators :: canOpen(p)
    decreases |defs|
  {
    if defs != [] {
      var init := defs[..|defs| - 1];
      var d := defs[|defs| - 1];
      var l0 := LayoutOf(init, canOpen).value;
      var l := LayoutOf(defs, canOpen).value;
      LayoutKeys(init, canOpen);
      KeysLast(defs);
      assert l.paths == l0.paths[d.id := d.configPath];
      assert l.creators == l0.creators || l.creators == l0.creators[d.configPath := d.id];
    }
  }

  /** The endpoint for a path is made from the first definition with that
      path. */
  lemma {:induction false} LayoutCreator(defs: seq<EndpointDefinition>, canOpen: string -> bool, i: nat)
    requires LayoutOf(defs, canOpen).Ok? && i < |defs| && FirstWithPath(defs, i)
    ensures defs[i].configPath in LayoutOf(defs, canOpen).value.creators
            && LayoutOf(defs, canOpen).value.creators[defs[i].configPath] == defs[i].id
    decreases |defs|
  {
    var init := defs[..|defs| - 1];
    LayoutKeys(defs, canOpen);
    LayoutKeys(init, canOpen);
    if i < |init| {
      assert FirstWithPath(init, i) by {
        assert forall j | 0 <= j < i :: init[j] == defs[j];
      }
      LayoutCreator(init, canOpen, i);
      assert defs[i].configPath in ConfigPaths(init) by {
        assert init[i] == defs[i];
      }
    } else {
      assert defs[i].configPath !in ConfigPaths(init) by {
        forall j | 0 <= j < |init| ensures init[j].configPath != defs[i].configPath {
          assert init[j] == defs[j];
        }
      }
    }
  }

  /** An id names the endpoint of the last definition with that id. */
  lemma {:induction false} LayoutPath(defs: seq<EndpointDefinition>, canOpen: string -> bool, i: nat)
    requires LayoutOf(defs, canOpen).Ok? && i < |defs| && LastWithId(defs, i)
    ensures defs[i].id in LayoutOf(defs, canOpen).value.paths
            && LayoutOf(defs, canOpen).value.paths[defs[i].id] == defs[i].configPath
    decreases |defs|
  {
    var init := defs[..|defs| - 1];
    if i < |init| {
      assert LastWithId(init, i) by {
        assert forall j | i < j < |init| :: init[j] == defs[j];
      }
      assert init[i] == defs[i];
      LayoutPath(init, canOpen, i);
    }
  }

  /** Definition `i` is the first whose config path cannot be opened. */
  predicate FirstUnopenable(defs: seq<EndpointDefinition>, canOpen: string -> bool, i: nat)
    requires i < |defs|
  {
    !canOpen(defs[i].configPath) && forall j | 0 <= j < i :: canOpen(defs[j].configPath)
  }

  /** The loop fails exactly when some path cannot be opened, and then at the
      first such definition. */
  lemma {:induction false} LayoutError(defs: seq<EndpointDefinition>, canOpen: string -> bool)
    ensures LayoutOf(defs, canOpen).Err? <==> exists i | 0 <= i < |defs| :: !canOpen(defs[i].configPath)
    ensures LayoutOf(defs, canOpen).Err? ==>
              exists i | 0 <= i < |defs| :: FirstUnopenable(defs, canOpen, i)
                                           && LayoutOf(defs, canOpen).error == EndpointOpenFailed(defs[i].configPath)
    decreases |defs|
  {
    if LayoutOf(defs, canOpen).Ok? {
      LayoutKeys(defs, canOpen);
      forall i | 0 <= i < |defs| ensures canOpen(defs[i].configPath) {
        assert defs[i].configPath in ConfigPaths(defs);
      }
    } else {
      var init := defs[..|defs| - 1];
      var n := |defs| - 1;
      LayoutError(init, canOpen);
      if LayoutOf(init, canOpen).Err? {
        var i :| 0 <= i < |init| && FirstUnopenable(init, canOpen, i)
                 && LayoutOf(init, canOpen).error == EndpointOpenFailed(init[i].configPath);
        assert init[i] == defs[i];
        assert FirstUnopenable(defs, canOpen, i) by {
          assert forall j | 0 <= j < i :: init[j] == defs[j];
        }
      } else {
        LayoutKeys(init, canOpen);
        assert FirstUnopenable(defs, canOpen, n) by {
          forall j | 0 <= j < n ensures canOpen(defs[j].configPath) {
            assert init[j] == defs[j];
            assert init[j].configPath in ConfigPaths(init);
          }
        }
      }
    }
  }

  /** The definitions of a prefix of the entries come first. */
  lemma {:induction false} NodeDefinitionsPrefix(eps: seq<NodeEndpoints>, node: string, i: nat)
    requires i <= |eps|
    ensures NodeDefinitions(eps[..i], node) <= NodeDefinitions(eps, node)
    decreases |eps| - i
  {
    if i < |eps| {
      assert eps[..i + 1][..i] == eps[..i];
      NodeDefinitionsPrefix(eps, node, i + 1);
    } else {
      assert eps[..i] == eps;
    }
  }

  lemma NodeDefinitionsStep(eps: seq<NodeEndpoints>, node: string, i: nat)
    requires i < |eps|
    ensures eps[i].nodeId == node ==> NodeDefinitions(eps[..i + 1], node) == NodeDefinitions(eps[..i], node) + eps[i].endpoints
    ensures eps[i].nodeId != node ==> NodeDefinitions(eps[..i + 1], node) == NodeDefinitions(eps[..i], node)
  {
    assert eps[..i + 1][..i] == eps[..i];
    assert NodeDefinitions(eps[..i], node) + [] == NodeDefinitions(eps[..i], node);
  }

  /** A failure on the definitions of a prefix of the entries is the
      failure of all of them. */
  lemma EntriesPrefixErr(eps: seq<NodeEndpoints>, node: string, i: nat, canOpen: string -> bool)
    requires i <= |eps| && LayoutOf(NodeDefinitions(eps[..i], node), canOpen).Err?
    ensures LayoutOf(NodeDefinitions(eps, node), canOpen) == LayoutOf(NodeDefinitions(eps[..i], node), canOpen)
  {
    var defs := NodeDefinitions(eps, node);
    var n := |NodeDefinitions(eps[..i], node)|;
    NodeDefinitionsPrefix(eps, node, i);
    assert defs[..n] == NodeDefinitions(eps[..i], node);
    LayoutPrefixErr(defs, n, canOpen);
  }

  /** A failure on a prefix of the definitions is the failure of all. */
  lemma {:induction false} LayoutPrefixErr(defs: seq<EndpointDefinition>, i: nat, canOpen: string -> bool)
    requires i <= |defs| && LayoutOf(defs[..i], canOpen).Err?
    ensures LayoutOf(defs, canOpen) == LayoutOf(defs[..i], canOpen)
    decreases |defs| - i
  {
    if i < |defs| {
      assert defs[..i + 1][..i] == defs[..i];
      LayoutPrefixErr(defs, i + 1, canOpen);
    } else {
      assert defs[..i] == defs;
    }
  }

  /** What reading the config file gave: it could not be opened, its text is
      not JSON, or the parsed tree. */
  datatype ConfigFile = NotOpened | Malformed | Parsed(json: Json)

  /** `parse_bridge_config_from_file`: each way of failing is its own error. */
  function ReadConfig(file: ConfigFile, path: string): (r: Result<BridgeConfig, LoadError>)
    ensures r.Err? <==> !file.Parsed? || DecodeBridgeConfig(file.json).Err?
    ensures file.NotOpened? ==> r == Err(ConfigNotOpened(path))
    ensures file.Malformed? ==> r == Err(ConfigMalformed)
    ensures file.Parsed? && r.Ok? ==> r.value == DecodeBridgeConfig(file.json).value
  {
    match file
    case NotOpened => Err(ConfigNotOpened(path))
    case Malformed => Err(ConfigMalformed)
    case Parsed(j) =>
      match DecodeBridgeConfig(j)
      case Ok(config) => Ok(config)
      case Err(e) => Err(ConfigDecode(e))
  }

  /** The whole of `create_bridge_from_config_file`: the config, the
      endpoint layout of the node, then `load` over the ids it names. */
  ghost function CreatePlan(file: ConfigFile, path: string, node: string, canOpen: string -> bool)
    : Result<(BridgeConfig, Layout, (TimeSourceKind, map<string, PolicyPlan>, seq<seq<TransferPlan>>)), LoadError>
  {
    var config :- ReadConfig(file, path);
    var layout :- LayoutOf(NodeDefinitions(config.endpoints, node), canOpen);
    var plan :- LoadPlan(config, node, layout.paths.Keys);
    Ok((config, layout, plan))
  }
}
