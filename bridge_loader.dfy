/** BridgeLoader: builds a bridge core from a decoded config. `Load` picks
    the time source, fills the policy table and adds, for each connection of
    the node, one transfer per destination, `transferPdus` entry and key;
    each step is proved to build what `LoaderPlans` describes.
    `CreateBridgeFromConfigFile` reads the config file and creates one
    endpoint per distinct `config_path` of the node first. */
module BridgeLoaders {
  import opened Wrappers
  import opened Json
  import opened BridgeTypes
  import opened TimeSources
  import opened Policies
  import opened ImmediatePolicies
  import opened MockEndpoints
  import opened TransferPdus
  import opened BridgeConnections
  import opened BridgeCores
  import opened LoaderPlans
  import ThrottlePolicies
  import TickerPolicies
  import StringOrder
  import Machine

  // ---------------------------------------------------------------------
  // Policy table

  /** The table entry a policy object stands for. */
  function PlanOf(p: PolicyRef): PolicyPlan {
    match p
    case Immediate(_) => ImmediateP
    case Throttle(t) => ThrottleP(t.interval)
    case Ticker(k) => TickerP(k.interval)
  }

  function Plans(m: map<string, PolicyRef>): map<string, PolicyPlan> {
    map id | id in m :: PlanOf(m[id])
  }

  /** A policy object as its constructor leaves it. */
  predicate Initial(p: PolicyRef)
    reads p.Footprint()
  {
    match p
    case Immediate(_) => true
    case Throttle(t) => t.State() == ThrottlePolicies.Initial
    case Ticker(k) => k.State() == TickerPolicies.Initial
  }

  /** The table entry of the known-type entries processed so far. */
  function TableOf(ps: map<string, TransferPolicy>, done: set<string>): map<string, PolicyPlan> {
    map id | id in ps && id in done && PolicyEntry(ps[id]).Ok? && PolicyEntry(ps[id]).value.Some?
      :: PolicyEntry(ps[id]).value.value
  }

  /** One `transferPolicies` entry: a new policy object of its type. */
  method MakePolicy(p: TransferPolicy) returns (r: Result<Option<PolicyRef>, LoadError>)
    ensures r.Err? <==> PolicyEntry(p).Err?
    ensures r.Err? ==> r.error == PolicyEntry(p).error
    ensures r.Ok? ==> (r.value.Some? <==> PolicyEntry(p).value.Some?)
    ensures r.Ok? && r.value.Some? ==>
              PlanOf(r.value.value) == PolicyEntry(p).value.value
              && fresh(r.value.value.Footprint()) && Initial(r.value.value)
  {
    if p.policyType == "immediate" {
      return Ok(Some(Immediate(ImmediatePolicy)));
    } else if p.policyType == "throttle" {
      if p.intervalMs.None? {
        return Err(MissingInterval("throttle"));
      }
      var t := new ThrottlePolicies.ThrottlePolicy(IntervalMicros(p.intervalMs.value));
      return Ok(Some(Throttle(t)));
    } else if p.policyType == "ticker" {
      if p.intervalMs.None? {
        return Err(MissingInterval("ticker"));
      }
      if IntervalMicros(p.intervalMs.value) == 0 {
        return Err(ZeroInterval("ticker"));
      }
      var k := new TickerPolicies.TickerPolicy(IntervalMicros(p.intervalMs.value));
      return Ok(Some(Ticker(k)));
    }
    return Ok(None);
  }

  /** The loop over `transferPolicies`, least id first: one new policy
      object per id of known type, shared by every transfer naming it. */
  method MakePolicies(ps: map<string, TransferPolicy>) returns (r: Result<map<string, PolicyRef>, LoadError>)
    ensures r.Err? <==> PolicyTable(ps).Err?
    ensures r.Err? ==> r.error == PolicyTable(ps).error
    ensures r.Ok? ==> Plans(r.value) == PolicyTable(ps).value
    ensures r.Ok? ==> forall id | id in r.value :: fresh(r.value[id].Footprint())
    ensures r.Ok? ==> AllInitial(r.value) && Separate(r.value)
    ensures r.Ok? ==> forall id | id in r.value :: r.value[id].Ready()
  {
    var remaining := ps.Keys;
    var table: map<string, PolicyRef> := map[];
    ghost var made: set<object> := {};
    while remaining != {}
      invariant remaining <= ps.Keys
      invariant forall a, b | a in ps && a !in remaining && b in remaining :: StringOrder.Less(a, b)
      invariant forall a | a in ps && a !in remaining :: PolicyEntry(ps[a]).Ok?
      invariant Plans(table) == TableOf(ps, ps.Keys - remaining)
      invariant fresh(made) && forall id | id in table :: table[id].Footprint() <= made
      invariant AllInitial(table) && Separate(table)
      decreases |remaining|
    {
      StringOrder.LeastExists(remaining);
      var id :| id in remaining && StringOrder.IsLeast(id, remaining);
      var next;
      next, made := VisitPolicy(ps, remaining, table, made, id);
      if next.Err? {
        return Err(next.error);
      }
      table := next.value;
      RemoveLeast(ps, remaining, id);
      remaining := remaining - {id};
    }
    AllVisited(ps);
    PolicyTableServable(ps);
    assert forall id | id in table :: Servable(Plans(table)[id]);
    return Ok(table);
  }

  /** Every policy object of the table is as its constructor left it. */
  ghost predicate AllInitial(table: map<string, PolicyRef>)
    reads set id, o | id in table && o in table[id].Footprint() :: o
  {
    forall id | id in table :: Initial(table[id])
  }

  /** Different ids hold different policy objects. */
  predicate Separate(table: map<string, PolicyRef>) {
    forall a, b | a in table && b in table && a != b :: table[a].Footprint() !! table[b].Footprint()
  }

  lemma ExtendTable(table: map<string, PolicyRef>, id: string, p: PolicyRef, made: set<object>)
    requires AllInitial(table) && Separate(table) && Initial(p)
    requires (forall a | a in table :: table[a].Footprint() <= made) && made !! p.Footprint()
    ensures AllInitial(table[id := p]) && Separate(table[id := p])
  {
  }

  lemma PlansStep(ps: map<string, TransferPolicy>, done: set<string>, table: map<string, PolicyRef>,
                  id: string, p: PolicyRef)
    requires Plans(table) == TableOf(ps, done) && id in ps && id !in done
    requires PolicyEntry(ps[id]) == Ok(Some(PlanOf(p)))
    ensures Plans(table[id := p]) == TableOf(ps, done + {id})
  {
    var lhs := Plans(table[id := p]);
    var rhs := TableOf(ps, done + {id});
    forall a ensures a in lhs <==> a in rhs {
      if a != id {
        assert (a in lhs <==> a in Plans(table)) && (a in rhs <==> a in TableOf(ps, done));
      }
    }
    forall a | a in lhs ensures lhs[a] == rhs[a] {
      if a != id {
        assert a in Plans(table);
      }
    }
  }

  /** The loop body: the entry of `id`, the least id not yet visited. */
  method VisitPolicy(ps: map<string, TransferPolicy>, ghost remaining: set<string>, table: map<string, PolicyRef>,
                     ghost made: set<object>, id: string)
    returns (r: Result<map<string, PolicyRef>, LoadError>, ghost made': set<object>)
    requires remaining <= ps.Keys && StringOrder.IsLeast(id, remaining)
    requires forall a | a in ps && a !in remaining :: PolicyEntry(ps[a]).Ok?
    requires Plans(table) == TableOf(ps, ps.Keys - remaining)
    requires (forall a | a in table :: table[a].Footprint() <= made) && AllInitial(table) && Separate(table)
    ensures r.Err? ==> PolicyTable(ps) == Err(r.error)
    ensures r.Ok? ==> PolicyEntry(ps[id]).Ok? && Plans(r.value) == TableOf(ps, (ps.Keys - remaining) + {id})
    ensures r.Ok? ==> (forall a | a in r.value :: r.value[a].Footprint() <= made') && AllInitial(r.value) && Separate(r.value)
    ensures made <= made' && fresh(made' - made)
  {
    made' := made;
    var e := MakePolicy(ps[id]);
    if e.Err? {
      LeastFailing(ps, remaining, id);
      return Err(e.error), made';
    }
    ghost var done := ps.Keys - remaining;
    if e.value.Some? {
      PlansStep(ps, done, table, id, e.value.value);
      ghost var fp := e.value.value.Footprint();
      assert made !! fp;
      ExtendTable(table, id, e.value.value, made);
      made' := made + fp;
      return Ok(table[id := e.value.value]), made';
    } else {
      assert TableOf(ps, done + {id}) == TableOf(ps, done);
      return Ok(table), made';
    }
  }

  lemma AllVisited(ps: map<string, TransferPolicy>)
    requires forall a | a in ps :: PolicyEntry(ps[a]).Ok?
    ensures PolicyTable(ps) == Ok(TableOf(ps, ps.Keys - {}))
  {
    assert Failing(ps) == {};
    var t := TableOf(ps, ps.Keys - {});
    var u := PolicyTable(ps).value;
    forall a ensures a in t <==> a in u {
    }
    assert t == u;
  }

  /** Visiting the least remaining id keeps the visited ids below the
      remaining ones. */
  lemma RemoveLeast(ps: map<string, TransferPolicy>, remaining: set<string>, id: string)
    requires remaining <= ps.Keys && StringOrder.IsLeast(id, remaining)
    requires forall a, b | a in ps && a !in remaining && b in remaining :: StringOrder.Less(a, b)
    ensures ps.Keys - (remaining - {id}) == (ps.Keys - remaining) + {id}
    ensures forall a, b | a in ps && a !in remaining - {id} && b in remaining - {id} :: StringOrder.Less(a, b)
  {
    forall a, b | a in ps && a !in remaining - {id} && b in remaining - {id} ensures StringOrder.Less(a, b) {
      if a == id {
        assert b in remaining;
      }
    }
  }

  /** The first failing entry of a least-first visit is the least failing
      id. */
  lemma LeastFailing(ps: map<string, TransferPolicy>, remaining: set<string>, id: string)
    requires remaining <= ps.Keys && StringOrder.IsLeast(id, remaining)
    requires forall a | a in ps && a !in remaining :: PolicyEntry(ps[a]).Ok?
    requires PolicyEntry(ps[id]).Err?
    ensures PolicyTable(ps) == Err(PolicyEntry(ps[id]).error)
  {
    assert id in Failing(ps);
    assert StringOrder.IsLeast(id, Failing(ps));
    StringOrder.LeastUnique(id, StringOrder.Least(Failing(ps)), Failing(ps));
  }

  // ---------------------------------------------------------------------
  // Transfers

  /** The transfers carry the planned key, the table's policy object and the
      named endpoint objects, one for one, and each is as its constructor
      left it: active, with owner epoch 0. */
  predicate Realizes(ts: seq<TransferPdu>, plan: seq<TransferPlan>, policies: map<string, PolicyRef>,
                     endpoints: map<string, MockEndpoint>)
    reads set i | 0 <= i < |ts| :: ts[i]
  {
    |ts| == |plan|
    && forall i | 0 <= i < |ts| ::
         plan[i].policyId in policies && plan[i].source in endpoints && plan[i].destination in endpoints
         && ts[i].configKey == plan[i].key && ts[i].policy == policies[plan[i].policyId]
         && ts[i].src == endpoints[plan[i].source] && ts[i].dst == endpoints[plan[i].destination]
         && ts[i].active && ts[i].ownerEpoch == 0
  }

  /** No transfer object appears twice. */
  predicate Distinct(ts: seq<TransferPdu>) {
    forall i, j | 0 <= i < j < |ts| :: ts[i] != ts[j]
  }

  /** The transfers of one connection. */
  ghost function Elems(c: BridgeConnection): set<TransferPdu>
    reads c
  {
    set i | 0 <= i < |c.transfers| :: c.transfers[i]
  }

  /** No transfer object appears twice, within a connection or across two. */
  ghost predicate Unshared(cs: seq<BridgeConnection>)
    reads cs
  {
    (forall j | 0 <= j < |cs| :: Distinct(cs[j].transfers))
    && forall j, k | 0 <= j < k < |cs| :: Elems(cs[j]) !! Elems(cs[k])
  }

  /** A ghost numbering of transfer objects: `ts[i]` is numbered `i`. */
  predicate Placed(ts: seq<TransferPdu>, serial: map<TransferPdu, nat>) {
    forall i | 0 <= i < |ts| :: ts[i] in serial && serial[ts[i]] == i
  }

  lemma PlacedAppend(ts: seq<TransferPdu>, serial: map<TransferPdu, nat>, t: TransferPdu)
    requires Placed(ts, serial) && t !in serial
    ensures Placed(ts + [t], serial[t := |ts|])
  {
  }

  /** Numbered objects are distinct. */
  lemma PlacedDistinct(ts: seq<TransferPdu>, serial: map<TransferPdu, nat>)
    requires Placed(ts, serial)
    ensures Distinct(ts)
  {
  }

  lemma RealizesAppend(a: seq<TransferPdu>, p: seq<TransferPlan>, b: seq<TransferPdu>, q: seq<TransferPlan>,
                       policies: map<string, PolicyRef>, endpoints: map<string, MockEndpoint>)
    requires Realizes(a, p, policies, endpoints) && Realizes(b, q, policies, endpoints)
    ensures Realizes(a + b, p + q, policies, endpoints)
  {
    forall i | |a| <= i < |a + b| ensures (a + b)[i] == b[i - |a|] && (p + q)[i] == q[i - |a|] {
    }
  }

  /** The inner loops of one destination: for each `transferPdus` entry its
      policy and its key group are looked up, then one transfer per key is
      added to the connection. */
  method AddTransfers(connection: BridgeConnection, tps: seq<TransferPduConfig>, groups: map<string, seq<PduKey>>,
                      policies: map<string, PolicyRef>, endpoints: map<string, MockEndpoint>,
                      source: string, destination: string, ghost prior: seq<TransferPlan>,
                      ghost serial: map<TransferPdu, nat>)
    returns (r: Result<(), LoadError>, ghost serial': map<TransferPdu, nat>)
    requires source in endpoints && destination in endpoints
    requires Realizes(connection.transfers, prior, policies, endpoints) && Placed(connection.transfers, serial)
    modifies connection
    ensures r.Err? <==> TransferPdusPlan(tps, groups, policies.Keys, source, destination).Err?
    ensures r.Err? ==> r.error == TransferPdusPlan(tps, groups, policies.Keys, source, destination).error
    ensures r.Ok? ==> Realizes(connection.transfers,
                               prior + TransferPdusPlan(tps, groups, policies.Keys, source, destination).value,
                               policies, endpoints)
    ensures Placed(connection.transfers, serial') && serial.Keys <= serial'.Keys && fresh(serial'.Keys - serial.Keys)
  {
    serial' := serial;
    var j := 0;
    while j < |tps|
      invariant 0 <= j <= |tps|
      invariant Placed(connection.transfers, serial') && serial.Keys <= serial'.Keys
      invariant fresh(serial'.Keys - serial.Keys)
      invariant TransferPdusPlan(tps[..j], groups, policies.Keys, source, destination).Ok?
      invariant Realizes(connection.transfers,
                         prior + TransferPdusPlan(tps[..j], groups, policies.Keys, source, destination).value,
                         policies, endpoints)
    {
      ghost var done := TransferPdusPlan(tps[..j], groups, policies.Keys, source, destination).value;
      TransferPdusNext(tps, j, groups, policies.Keys, source, destination, prior);
      var step;
      ghost var before := serial';
      step, serial' := AddEntry(connection, tps[j], groups, policies, endpoints, source, destination,
                                prior + done, serial');
      if step.Err? {
        TransferPdusPrefixErr(tps, j + 1, groups, policies.Keys, source, destination);
        return step, serial';
      }
      assert serial'.Keys - serial.Keys <= (serial'.Keys - before.Keys) + (before.Keys - serial.Keys);
      j := j + 1;
    }
    assert tps[..j] == tps;
    return Ok(()), serial';
  }

  /** One `transferPdus` entry: its policy and then its key group are
      looked up, and one transfer per key is added. */
  method AddEntry(connection: BridgeConnection, tp: TransferPduConfig, groups: map<string, seq<PduKey>>,
                  policies: map<string, PolicyRef>, endpoints: map<string, MockEndpoint>,
                  source: string, destination: string, ghost prior: seq<TransferPlan>,
                  ghost serial: map<TransferPdu, nat>)
    returns (r: Result<(), LoadError>, ghost serial': map<TransferPdu, nat>)
    requires source in endpoints && destination in endpoints
    requires Realizes(connection.transfers, prior, policies, endpoints) && Placed(connection.transfers, serial)
    modifies connection
    ensures r.Err? <==> tp.policyId !in policies || tp.pduKeyGroupId !in groups
    ensures r.Err? ==> r.error == if tp.policyId !in policies then PolicyNotFound(tp.policyId)
                                  else KeyGroupNotFound(tp.pduKeyGroupId)
    ensures r.Ok? ==> Realizes(connection.transfers,
                               prior + KeysPlan(groups[tp.pduKeyGroupId], tp.policyId, source, destination),
                               policies, endpoints)
    ensures Placed(connection.transfers, serial') && serial.Keys <= serial'.Keys && fresh(serial'.Keys - serial.Keys)
  {
    if tp.policyId !in policies {
      return Err(PolicyNotFound(tp.policyId)), serial;
    }
    if tp.pduKeyGroupId !in groups {
      return Err(KeyGroupNotFound(tp.pduKeyGroupId)), serial;
    }
    serial' := AddKeyTransfers(connection, groups[tp.pduKeyGroupId], tp.policyId, policies, endpoints,
                               source, destination, prior, serial);
    return Ok(()), serial';
  }

  /** The innermost loop: one new transfer per key of the group, in order. */
  method AddKeyTransfers(connection: BridgeConnection, keys: seq<PduKey>, policyId: string,
                         policies: map<string, PolicyRef>, endpoints: map<string, MockEndpoint>,
                         source: string, destination: string, ghost prior: seq<TransferPlan>,
                         ghost serial: map<TransferPdu, nat>)
    returns (ghost serial': map<TransferPdu, nat>)
    requires policyId in policies && source in endpoints && destination in endpoints
    requires Realizes(connection.transfers, prior, policies, endpoints) && Placed(connection.transfers, serial)
    modifies connection
    ensures Realizes(connection.transfers, prior + KeysPlan(keys, policyId, source, destination), policies, endpoints)
    ensures Placed(connection.transfers, serial') && serial.Keys <= serial'.Keys && fresh(serial'.Keys - serial.Keys)
  {
    serial' := serial;
    var k := 0;
    while k < |keys|
      invariant 0 <= k <= |keys|
      invariant Realizes(connection.transfers, prior + KeysPlan(keys[..k], policyId, source, destination),
                         policies, endpoints)
      invariant Placed(connection.transfers, serial') && serial.Keys <= serial'.Keys
      invariant fresh(serial'.Keys - serial.Keys)
    {
      KeysPlanNext(keys, k, policyId, source, destination, prior);
      ghost var before := serial';
      serial' := AddKeyTransfer(connection, keys[k], policyId, policies, endpoints, source, destination,
                                prior + KeysPlan(keys[..k], policyId, source, destination), serial');
      assert serial'.Keys - serial.Keys <= (serial'.Keys - before.Keys) + (before.Keys - serial.Keys);
      k := k + 1;
    }
    assert keys[..k] == keys;
  }

  /** One iteration of the innermost loop: a new transfer, active with
      owner epoch 0, appended to the connection. */
  method AddKeyTransfer(connection: BridgeConnection, key: PduKey, policyId: string,
                        policies: map<string, PolicyRef>, endpoints: map<string, MockEndpoint>,
                        source: string, destination: string, ghost prior: seq<TransferPlan>,
                        ghost serial: map<TransferPdu, nat>)
    returns (ghost serial': map<TransferPdu, nat>)
    requires policyId in policies && source in endpoints && destination in endpoints
    requires Realizes(connection.transfers, prior, policies, endpoints) && Placed(connection.transfers, serial)
    modifies connection
    ensures Realizes(connection.transfers, prior + [TransferPlan(key, policyId, source, destination)],
                     policies, endpoints)
    ensures Placed(connection.transfers, serial') && serial.Keys <= serial'.Keys && fresh(serial'.Keys - serial.Keys)
  {
    var transfer := new TransferPdu(key, policies[policyId], endpoints[source], endpoints[destination]);
    RealizesAppend(connection.transfers, prior, [transfer], [TransferPlan(key, policyId, source, destination)],
                   policies, endpoints);
    PlacedAppend(connection.transfers, serial, transfer);
    serial' := serial[transfer := |connection.transfers|];
    connection.AddTransferPdu(transfer);
  }

  lemma KeysPlanNext(keys: seq<PduKey>, k: nat, policyId: string, source: string, destination: string,
                     prior: seq<TransferPlan>)
    requires k < |keys|
    ensures prior + KeysPlan(keys[..k], policyId, source, destination) + [TransferPlan(keys[k], policyId, source, destination)]
            == prior + KeysPlan(keys[..k + 1], policyId, source, destination)
  {
    assert keys[..k + 1][..k] == keys[..k];
  }

  /** One more entry of the loop: its lookups decide the error, or its keys
      are appended to the plan so far. */
  lemma TransferPdusNext(tps: seq<TransferPduConfig>, j: nat, groups: map<string, seq<PduKey>>,
                         policies: set<string>, source: string, destination: string, prior: seq<TransferPlan>)
    requires j < |tps| && TransferPdusPlan(tps[..j], groups, policies, source, destination).Ok?
    ensures var done := TransferPdusPlan(tps[..j], groups, policies, source, destination).value;
            var tp := tps[j];
            TransferPdusPlan(tps[..j + 1], groups, policies, source, destination)
            == if tp.policyId !in policies then Err(PolicyNotFound(tp.policyId))
               else if tp.pduKeyGroupId !in groups then Err(KeyGroupNotFound(tp.pduKeyGroupId))
               else Ok(done + KeysPlan(groups[tp.pduKeyGroupId], tp.policyId, source, destination))
    ensures var done := TransferPdusPlan(tps[..j], groups, policies, source, destination).value;
            var tp := tps[j];
            tp.policyId in policies && tp.pduKeyGroupId in groups ==>
              prior + done + KeysPlan(groups[tp.pduKeyGroupId], tp.policyId, source, destination)
              == prior + TransferPdusPlan(tps[..j + 1], groups, policies, source, destination).value
  {
    assert tps[..j + 1][..j] == tps[..j];
  }

  /** An error in a prefix of the entries is the error of all of them. */
  lemma {:induction false} TransferPdusPrefixErr(tps: seq<TransferPduConfig>, j: nat, groups: map<string, seq<PduKey>>,
                                                 policies: set<string>, source: string, destination: string)
    requires j <= |tps| && TransferPdusPlan(tps[..j], groups, policies, source, destination).Err?
    ensures TransferPdusPlan(tps, groups, policies, source, destination)
            == TransferPdusPlan(tps[..j], groups, policies, source, destination)
    decreases |tps| - j
  {
    if j < |tps| {
      assert tps[..j + 1][..j] == tps[..j];
      TransferPdusPrefixErr(tps, j + 1, groups, policies, source, destination);
    } else {
      assert tps[..j] == tps;
    }
  }

  // ---------------------------------------------------------------------
  // Connections and the core

  /** One connection of the node: its source is looked up, then the
      transfers toward each destination are added in order. */
  method BuildConnection(c: Connection, groups: map<string, seq<PduKey>>, policies: map<string, PolicyRef>,
                         endpoints: map<string, MockEndpoint>)
    returns (r: Result<BridgeConnection, LoadError>)
    ensures r.Err? <==> ConnectionPlan(c, groups, policies.Keys, endpoints.Keys).Err?
    ensures r.Err? ==> r.error == ConnectionPlan(c, groups, policies.Keys, endpoints.Keys).error
    ensures r.Ok? ==> fresh(r.value) && r.value.nodeId == c.nodeId
                      && Realizes(r.value.transfers, ConnectionPlan(c, groups, policies.Keys, endpoints.Keys).value,
                                  policies, endpoints)
    ensures r.Ok? ==> fresh(r.value.transfers)
                      && Distinct(r.value.transfers)
  {
    var connection := new BridgeConnection(c.nodeId);
    var source := c.source.endpointId;
    if source !in endpoints {
      return Err(SourceNotFound(source));
    }
    var added, serial := AddDestinations(connection, c.destinations, c.transferPdus, groups, policies, endpoints, source);
    if added.Err? {
      return Err(added.error);
    }
    PlacedDistinct(connection.transfers, serial);
    return Ok(connection);
  }

  /** The loop over the destinations of a connection whose source is
      `source`: the transfers of every destination, in order, each of them
      new. */
  method AddDestinations(connection: BridgeConnection, dests: seq<ConnectionDestination>, tps: seq<TransferPduConfig>,
                         groups: map<string, seq<PduKey>>, policies: map<string, PolicyRef>,
                         endpoints: map<string, MockEndpoint>, source: string)
    returns (r: Result<(), LoadError>, ghost serial: map<TransferPdu, nat>)
    requires source in endpoints && connection.transfers == []
    modifies connection
    ensures r.Err? <==> DestinationsPlan(dests, tps, groups, policies.Keys, endpoints.Keys, source).Err?
    ensures r.Err? ==> r.error == DestinationsPlan(dests, tps, groups, policies.Keys, endpoints.Keys, source).error
    ensures r.Ok? ==> Realizes(connection.transfers,
                               DestinationsPlan(dests, tps, groups, policies.Keys, endpoints.Keys, source).value,
                               policies, endpoints)
    ensures Placed(connection.transfers, serial) && fresh(serial.Keys)
  {
    serial := map[];
    var i := 0;
    while i < |dests|
      invariant 0 <= i <= |dests|
      invariant DestinationsPlan(dests[..i], tps, groups, policies.Keys, endpoints.Keys, source).Ok?
      invariant Realizes(connection.transfers,
                         DestinationsPlan(dests[..i], tps, groups, policies.Keys, endpoints.Keys, source).value,
                         policies, endpoints)
      invariant Placed(connection.transfers, serial) && fresh(serial.Keys)
    {
      var added;
      added, serial := AddDestination(connection, dests, i, tps, groups, policies, endpoints, source, serial);
      if added.Err? {
        DestinationsPrefixErr(dests, i + 1, tps, groups, policies.Keys, endpoints.Keys, source);
        return Err(added.error), serial;
      }
      i := i + 1;
    }
    assert dests[..i] == dests;
    return Ok(()), serial;
  }

  /** One iteration of the loop over destinations: the destination is
      looked up and its transfers are added. */
  method AddDestination(connection: BridgeConnection, dests: seq<ConnectionDestination>, i: nat,
                        tps: seq<TransferPduConfig>, groups: map<string, seq<PduKey>>,
                        policies: map<string, PolicyRef>, endpoints: map<string, MockEndpoint>, source: string,
                        ghost serial: map<TransferPdu, nat>)
    returns (r: Result<(), LoadError>, ghost serial': map<TransferPdu, nat>)
    requires i < |dests| && source in endpoints
    requires DestinationsPlan(dests[..i], tps, groups, policies.Keys, endpoints.Keys, source).Ok?
    requires Realizes(connection.transfers,
                      DestinationsPlan(dests[..i], tps, groups, policies.Keys, endpoints.Keys, source).value,
                      policies, endpoints)
    requires Placed(connection.transfers, serial)
    modifies connection
    ensures r.Err? <==> DestinationsPlan(dests[..i + 1], tps, groups, policies.Keys, endpoints.Keys, source).Err?
    ensures r.Err? ==> r.error == DestinationsPlan(dests[..i + 1], tps, groups, policies.Keys, endpoints.Keys, source).error
    ensures r.Ok? ==> Realizes(connection.transfers,
                               DestinationsPlan(dests[..i + 1], tps, groups, policies.Keys, endpoints.Keys, source).value,
                               policies, endpoints)
    ensures Placed(connection.transfers, serial') && serial.Keys <= serial'.Keys && fresh(serial'.Keys - serial.Keys)
  {
    var d := dests[i].endpointId;
    assert dests[..i + 1][..i] == dests[..i];
    if d !in endpoints {
      return Err(DestinationNotFound(d)), serial;
    }
    ghost var done := DestinationsPlan(dests[..i], tps, groups, policies.Keys, endpoints.Keys, source).value;
    r, serial' := AddTransfers(connection, tps, groups, policies, endpoints, source, d, done, serial);
  }

  /** The core's connections hold the planned transfers, in order. */
  ghost predicate Holds(core: BridgeCore, plans: seq<seq<TransferPlan>>, node: string,
                        policies: map<string, PolicyRef>, endpoints: map<string, MockEndpoint>)
    reads core, core.connections
    reads set j, i | 0 <= j < |core.connections| && 0 <= i < |core.connections[j].transfers| ::
            core.connections[j].transfers[i]
  {
    |core.connections| == |plans|
    && forall j | 0 <= j < |plans| ::
         core.connections[j].nodeId == node && Realizes(core.connections[j].transfers, plans[j], policies, endpoints)
  }

  /** One connection of the core's own node: built and then added. */
  method Connect(core: BridgeCore, c: Connection, groups: map<string, seq<PduKey>>, policies: map<string, PolicyRef>,
                 endpoints: map<string, MockEndpoint>, ghost done: seq<seq<TransferPlan>>)
    returns (r: Result<(), LoadError>)
    requires c.nodeId == core.nodeName
    requires core.Valid() && Holds(core, done, core.nodeName, policies, endpoints)
    requires Unshared(core.connections)
    modifies core
    ensures core.Valid() && core.running == old(core.running)
    ensures Unshared(core.connections) && fresh(core.Repr - old(core.Repr))
    ensures r.Err? <==> ConnectionPlan(c, groups, policies.Keys, endpoints.Keys).Err?
    ensures r.Err? ==> r.error == ConnectionPlan(c, groups, policies.Keys, endpoints.Keys).error
    ensures r.Ok? ==> Holds(core, done + [ConnectionPlan(c, groups, policies.Keys, endpoints.Keys).value],
                            core.nodeName, policies, endpoints)
  {
    var built := BuildConnection(c, groups, policies, endpoints);
    if built.Err? {
      return Err(built.error);
    }
    ghost var plan := ConnectionPlan(c, groups, policies.Keys, endpoints.Keys).value;
    core.AddConnection(built.value);
    assert Unshared(core.connections) by {
      forall j | 0 <= j < |old(core.connections)|
        ensures Elems(core.connections[j]) !! Elems(built.value)
      {
        assert core.connections[j] == old(core.connections)[j];
        assert Elems(core.connections[j]) <= old(core.Repr);
      }
    }
    assert Holds(core, done + [plan], core.nodeName, policies, endpoints) by {
      forall j | 0 <= j < |done + [plan]|
        ensures core.connections[j].nodeId == core.nodeName
                && Realizes(core.connections[j].transfers, (done + [plan])[j], policies, endpoints)
      {
        if j < |done| {
          assert core.connections[j] == old(core.connections)[j];
        }
      }
    }
    return Ok(());
  }

  /** One step of the loop over connections, in terms of the plan so far. */
  lemma ConnectionsNext(cs: seq<Connection>, i: nat, node: string, groups: map<string, seq<PduKey>>,
                        policies: set<string>, endpoints: set<string>)
    requires i < |cs| && ConnectionsPlan(cs[..i], node, groups, policies, endpoints).Ok?
    ensures var done := ConnectionsPlan(cs[..i], node, groups, policies, endpoints).value;
            var step := ConnectionPlan(cs[i], groups, policies, endpoints);
            ConnectionsPlan(cs[..i + 1], node, groups, policies, endpoints)
            == if cs[i].nodeId != node then Ok(done)
               else if step.Err? then Err(step.error)
               else Ok(done + [step.value])
  {
    assert cs[..i + 1][..i] == cs[..i];
  }

  /** One iteration of the loop over connections: a connection of another
      node is skipped, one of this node is connected. */
  method ConnectNext(core: BridgeCore, cs: seq<Connection>, i: nat, groups: map<string, seq<PduKey>>,
                     policies: map<string, PolicyRef>, endpoints: map<string, MockEndpoint>)
    returns (r: Result<(), LoadError>)
    requires i < |cs| && ConnectionsPlan(cs[..i], core.nodeName, groups, policies.Keys, endpoints.Keys).Ok?
    requires core.Valid() && Unshared(core.connections) && AllInitial(policies)
    requires Holds(core, ConnectionsPlan(cs[..i], core.nodeName, groups, policies.Keys, endpoints.Keys).value,
                   core.nodeName, policies, endpoints)
    modifies core
    ensures core.Valid() && core.running == old(core.running)
    ensures Unshared(core.connections) && fresh(core.Repr - old(core.Repr)) && AllInitial(policies)
    ensures r.Err? <==> ConnectionsPlan(cs[..i + 1], core.nodeName, groups, policies.Keys, endpoints.Keys).Err?
    ensures r.Err? ==> r.error == ConnectionsPlan(cs[..i + 1], core.nodeName, groups, policies.Keys, endpoints.Keys).error
    ensures r.Ok? ==> Holds(core, ConnectionsPlan(cs[..i + 1], core.nodeName, groups, policies.Keys, endpoints.Keys).value,
                            core.nodeName, policies, endpoints)
  {
    ghost var done := ConnectionsPlan(cs[..i], core.nodeName, groups, policies.Keys, endpoints.Keys).value;
    ConnectionsNext(cs, i, core.nodeName, groups, policies.Keys, endpoints.Keys);
    if cs[i].nodeId == core.nodeName {
      r := Connect(core, cs[i], groups, policies, endpoints, done);
    } else {
      r := Ok(());
    }
  }

  /** The loop of `load` over the config's connections: those of other
      nodes are skipped, the others are built and added in order. */
  method ConnectAll(core: BridgeCore, cs: seq<Connection>, groups: map<string, seq<PduKey>>,
                    policies: map<string, PolicyRef>, endpoints: map<string, MockEndpoint>)
    returns (r: Result<(), LoadError>)
    requires core.Valid() && core.connections == [] && core.Repr == {}
    requires AllInitial(policies)
    modifies core
    ensures core.Valid() && core.running == old(core.running)
    ensures fresh(core.Repr) && Unshared(core.connections)
    ensures AllInitial(policies)
    ensures r.Err? <==> ConnectionsPlan(cs, core.nodeName, groups, policies.Keys, endpoints.Keys).Err?
    ensures r.Err? ==> r.error == ConnectionsPlan(cs, core.nodeName, groups, policies.Keys, endpoints.Keys).error
    ensures r.Ok? ==> Holds(core, ConnectionsPlan(cs, core.nodeName, groups, policies.Keys, endpoints.Keys).value,
                            core.nodeName, policies, endpoints)
  {
    var node := core.nodeName;
    var i := 0;
    while i < |cs|
      invariant 0 <= i <= |cs|
      invariant ConnectionsPlan(cs[..i], node, groups, policies.Keys, endpoints.Keys).Ok?
      invariant core.Valid() && core.running == old(core.running)
      invariant fresh(core.Repr) && Unshared(core.connections)
      invariant AllInitial(policies)
      invariant Holds(core, ConnectionsPlan(cs[..i], node, groups, policies.Keys, endpoints.Keys).value,
                      node, policies, endpoints)
    {
      var added := ConnectNext(core, cs, i, groups, policies, endpoints);
      if added.Err? {
        ConnectionsPrefixErr(cs, i + 1, node, groups, policies.Keys, endpoints.Keys);
        return Err(added.error);
      }
      i := i + 1;
    }
    assert cs[..i] == cs;
    return Ok(());
  }

  /** The objects a loaded core and its policy table are made of. */
  ghost function LoadedObjects(core: BridgeCore, policies: map<string, PolicyRef>): set<object>
    reads core
  {
    {core, core.clock} + (set j | 0 <= j < |core.connections| :: core.connections[j]) + core.Repr
    + (set id, o | id in policies && o in policies[id].Footprint() :: o)
  }

  /** A core as `load` leaves it for `plan`: the chosen time source at its
      start, not running, one connection per planned connection, each
      holding the planned transfers wired to the table's policy objects and
      the named endpoints. */
  ghost predicate Loaded(core: BridgeCore, plan: (TimeSourceKind, map<string, PolicyPlan>, seq<seq<TransferPlan>>),
                         node: string, policies: map<string, PolicyRef>, endpoints: map<string, MockEndpoint>,
                         realReading: nat)
    reads LoadedObjects(core, policies)
  {
    core.nodeName == node && !core.running && core.Valid()
    && core.clock.kind == plan.0
    && core.clock.GetMicroseconds() == (if plan.0 == Real then realReading else 0)
    && Plans(policies) == plan.1 && AllInitial(policies) && Separate(policies)
    && (forall id | id in policies :: policies[id].Ready())
    && Holds(core, plan.2, node, policies, endpoints) && Unshared(core.connections)
  }

  /** `BridgeLoader::load`: the time source, the core, the policy table, and
      then every connection of the node, in order. */
  method Load(config: BridgeConfig, nodeName: string, endpoints: map<string, MockEndpoint>, realReading: nat)
    returns (r: Result<BridgeCore, LoadError>, ghost policies: map<string, PolicyRef>)
    requires Machine.IsUint64(realReading)
    ensures r.Err? <==> LoadPlan(config, nodeName, endpoints.Keys).Err?
    ensures r.Err? ==> r.error == LoadPlan(config, nodeName, endpoints.Keys).error
    ensures r.Ok? ==> fresh(r.value) && fresh(r.value.clock)
                      && (forall id | id in policies :: fresh(policies[id].Footprint()))
                      && (forall j, i | 0 <= j < |r.value.connections| && 0 <= i < |r.value.connections[j].transfers|
                            :: fresh(r.value.connections[j].transfers[i]))
                      && Loaded(r.value, LoadPlan(config, nodeName, endpoints.Keys).value, nodeName, policies,
                                endpoints, realReading)
  {
    policies := map[];
    var kind := SelectTimeSource(config.timeSourceType);
    if kind.Err? {
      return Err(kind.error), policies;
    }
    var clock: TimeSource;
    if kind.value == Real {
      clock := new TimeSource.Real(realReading);
    } else {
      clock := new TimeSource.Virtual();
    }
    var core := new BridgeCore(nodeName, clock);
    var table := MakePolicies(config.transferPolicies);
    if table.Err? {
      return Err(table.error), policies;
    }
    var pm := table.value;
    policies := pm;
    assert policies.Keys == PolicyTable(config.transferPolicies).value.Keys;
    var added := ConnectAll(core, config.connections, config.pduKeyGroups, pm, endpoints);
    if added.Err? {
      return Err(added.error), policies;
    }
    assert LoadPlan(config, nodeName, endpoints.Keys)
           == Ok((kind.value, PolicyTable(config.transferPolicies).value,
                  ConnectionsPlan(config.connections, nodeName, config.pduKeyGroups, pm.Keys, endpoints.Keys).value));
    return Ok(core), policies;
  }

  // ---------------------------------------------------------------------
  // Endpoints and the config file

  /** The endpoint maps agree with layout `l`: one endpoint per config path,
      named by the id it was made for and distinct from the others, and
      every id bound to the endpoint of its path. */
  predicate Opened(l: Layout, shared: map<string, MockEndpoint>, named: map<string, MockEndpoint>) {
    shared.Keys == l.creators.Keys
    && (forall p | p in shared :: shared[p].name == l.creators[p])
    && (forall p, q | p in shared && q in shared && p != q :: shared[p] != shared[q])
    && named.Keys == l.paths.Keys
    && (forall id | id in named :: l.paths[id] in shared && named[id] == shared[l.paths[id]])
  }

  /** One more definition: its path's endpoint is kept, or `endpoint`, a new
      one named by its id, is made for it; then its id is bound. */
  lemma OpenedStep(before: seq<EndpointDefinition>, d: EndpointDefinition, canOpen: string -> bool,
                   shared: map<string, MockEndpoint>, named: map<string, MockEndpoint>, endpoint: MockEndpoint)
    requires LayoutOf(before, canOpen).Ok? && Opened(LayoutOf(before, canOpen).value, shared, named)
    requires d.configPath !in shared ==> canOpen(d.configPath) && endpoint.name == d.id
                                         && forall p | p in shared :: shared[p] != endpoint
    ensures var shared' := if d.configPath in shared then shared else shared[d.configPath := endpoint];
            LayoutOf(before + [d], canOpen).Ok?
            && Opened(LayoutOf(before + [d], canOpen).value, shared', named[d.id := shared'[d.configPath]])
  {
    assert (before + [d])[..|before|] == before;
  }

  /** One definition of the endpoint loop: a path seen before keeps its
      endpoint; a new path gets a new endpoint named by the definition's id,
      which must open; the id is then bound to the path's endpoint. */
  method OpenDefinition(d: EndpointDefinition, canOpen: string -> bool, ghost before: seq<EndpointDefinition>,
                        shared: map<string, MockEndpoint>, named: map<string, MockEndpoint>)
    returns (r: Result<(map<string, MockEndpoint>, map<string, MockEndpoint>), LoadError>)
    requires LayoutOf(before, canOpen).Ok? && Opened(LayoutOf(before, canOpen).value, shared, named)
    ensures r.Err? <==> LayoutOf(before + [d], canOpen).Err?
    ensures r.Err? ==> r.error == LayoutOf(before + [d], canOpen).error
    ensures r.Ok? ==> Opened(LayoutOf(before + [d], canOpen).value, r.value.0, r.value.1)
  {
    assert (before + [d])[..|before|] == before;
    var sh := shared;
    if d.configPath !in sh {
      if !canOpen(d.configPath) {
        return Err(EndpointOpenFailed(d.configPath));
      }
      var endpoint := new MockEndpoint(d.id);
      OpenedStep(before, d, canOpen, sh, named, endpoint);
      sh := sh[d.configPath := endpoint];
    } else {
      OpenedStep(before, d, canOpen, sh, named, sh[d.configPath]);
    }
    return Ok((sh, named[d.id := sh[d.configPath]]));
  }

  /** The definitions seen after one more step of the inner loop. */
  lemma DefinitionsNext(before: seq<EndpointDefinition>, defs: seq<EndpointDefinition>, k: nat)
    requires k < |defs|
    ensures before + defs[..k + 1] == (before + defs[..k]) + [defs[k]]
    ensures (before + defs)[..|before| + k + 1] == before + defs[..k + 1]
  {
    assert defs[..k + 1] == defs[..k] + [defs[k]];
  }

  /** The inner endpoint loop over one entry's definitions, continuing the
      maps left by the definitions `before`. */
  method OpenDefinitions(defs: seq<EndpointDefinition>, canOpen: string -> bool, ghost before: seq<EndpointDefinition>,
                         shared: map<string, MockEndpoint>, named: map<string, MockEndpoint>)
    returns (r: Result<(map<string, MockEndpoint>, map<string, MockEndpoint>), LoadError>)
    requires LayoutOf(before, canOpen).Ok? && Opened(LayoutOf(before, canOpen).value, shared, named)
    ensures r.Err? <==> LayoutOf(before + defs, canOpen).Err?
    ensures r.Err? ==> r.error == LayoutOf(before + defs, canOpen).error
    ensures r.Ok? ==> Opened(LayoutOf(before + defs, canOpen).value, r.value.0, r.value.1)
  {
    var sh, nm := shared, named;
    var k := 0;
    ghost var seen := before;
    assert defs[..0] == [];
    while k < |defs|
      invariant 0 <= k <= |defs| && seen == before + defs[..k]
      invariant LayoutOf(seen, canOpen).Ok? && Opened(LayoutOf(seen, canOpen).value, sh, nm)
    {
      DefinitionsNext(before, defs, k);
      var step := OpenDefinition(defs[k], canOpen, seen, sh, nm);
      if step.Err? {
        LayoutPrefixErr(before + defs, |before| + k + 1, canOpen);
        return Err(step.error);
      }
      sh, nm := step.value.0, step.value.1;
      seen := seen + [defs[k]];
      k := k + 1;
    }
    assert defs[..k] == defs;
    return Ok((sh, nm));
  }

  /** The endpoint loop of `create_bridge_from_config_file`: over the
      entries of the node, one endpoint per config path, opened when first
      seen and shared by every id naming that path. */
  method MakeEndpoints(eps: seq<NodeEndpoints>, node: string, canOpen: string -> bool)
    returns (r: Result<map<string, MockEndpoint>, LoadError>, ghost shared: map<string, MockEndpoint>)
    ensures r.Err? <==> LayoutOf(NodeDefinitions(eps, node), canOpen).Err?
    ensures r.Err? ==> r.error == LayoutOf(NodeDefinitions(eps, node), canOpen).error
    ensures r.Ok? ==> Opened(LayoutOf(NodeDefinitions(eps, node), canOpen).value, shared, r.value)
  {
    var sh: map<string, MockEndpoint> := map[];
    var nm: map<string, MockEndpoint> := map[];
    var i := 0;
    while i < |eps|
      invariant 0 <= i <= |eps|
      invariant LayoutOf(NodeDefinitions(eps[..i], node), canOpen).Ok?
      invariant Opened(LayoutOf(NodeDefinitions(eps[..i], node), canOpen).value, sh, nm)
    {
      NodeDefinitionsStep(eps, node, i);
      if eps[i].nodeId == node {
        var step := OpenDefinitions(eps[i].endpoints, canOpen, NodeDefinitions(eps[..i], node), sh, nm);
        if step.Err? {
          EntriesPrefixErr(eps, node, i + 1, canOpen);
          return Err(step.error), sh;
        }
        sh, nm := step.value.0, step.value.1;
      }
      i := i + 1;
    }
    assert eps[..i] == eps;
    return Ok(nm), sh;
  }

  /** `create_bridge_from_config_file`: read the config, make the node's
      endpoints, then `load` with the ids they are bound to. */
  method CreateBridgeFromConfigFile(file: ConfigFile, path: string, node: string, canOpen: string -> bool,
                                    realReading: nat)
    returns (r: Result<BridgeCore, LoadError>, ghost endpoints: map<string, MockEndpoint>,
             ghost shared: map<string, MockEndpoint>, ghost policies: map<string, PolicyRef>)
    requires Machine.IsUint64(realReading)
    ensures r.Err? <==> CreatePlan(file, path, node, canOpen).Err?
    ensures r.Err? ==> r.error == CreatePlan(file, path, node, canOpen).error
    ensures r.Ok? ==> var plan := CreatePlan(file, path, node, canOpen).value;
                      Opened(plan.1, shared, endpoints)
                      && fresh(r.value) && Loaded(r.value, plan.2, node, policies, endpoints, realReading)
                      && (forall j, i | 0 <= j < |r.value.connections| && 0 <= i < |r.value.connections[j].transfers|
                            :: fresh(r.value.connections[j].transfers[i]))
  {
    endpoints, shared, policies := map[], map[], map[];
    var config := ReadConfig(file, path);
    if config.Err? {
      return Err(config.error), endpoints, shared, policies;
    }
    var made;
    made, shared := MakeEndpoints(config.value.endpoints, node, canOpen);
    if made.Err? {
      return Err(made.error), endpoints, shared, policies;
    }
    var named := made.value;
    endpoints := named;
    var core;
    core, policies := Load(config.value, node, named, realReading);
    return core, endpoints, shared, policies;
  }
}
