/** The bridge configuration DTOs and their `from_json` decoders.

    Each decoder takes a parsed JSON tree and returns the struct, or the
    exception nlohmann would throw, as a `DecodeError`:
    - `NotAnObject`: `j.at(key)` on a value that is not an object (type_error 304);
    - `MissingKey(k)`: `j.at(k)` on an object without `k` (out_of_range 403);
    - `TypeMismatch(t)`: `get_to` on a value of the wrong kind (type_error 302).
    Fields are extracted in the order the source writes them, so the error
    is the one for the first field that fails. */
module BridgeTypes {
  import opened Wrappers
  import opened Json
  import Machine
  import StringOrder

  datatype DecodeError = NotAnObject | MissingKey(key: string) | TypeMismatch(expected: string)

  datatype TransferPolicy = TransferPolicy(policyType: string, intervalMs: Option<int>)
  datatype Node = Node(id: string)
  datatype EndpointDefinition = EndpointDefinition(id: string, mode: string, configPath: string)
  datatype NodeEndpoints = NodeEndpoints(nodeId: string, endpoints: seq<EndpointDefinition>)
  datatype WireLink = WireLink(linkFrom: string, linkTo: string)
  datatype PduKey = PduKey(id: string, robotName: string, pduName: string)
  datatype ConnectionSource = ConnectionSource(endpointId: string)
  datatype ConnectionDestination = ConnectionDestination(endpointId: string)
  datatype TransferPduConfig = TransferPduConfig(pduKeyGroupId: string, policyId: string)
  datatype Connection = Connection(
    id: string,
    nodeId: string,
    source: ConnectionSource,
    destinations: seq<ConnectionDestination>,
    transferPdus: seq<TransferPduConfig>)

  datatype BridgeConfig = BridgeConfig(
    version: string,
    timeSourceType: string,
    transferPolicies: map<string, TransferPolicy>,
    nodes: seq<Node>,
    endpoints: seq<NodeEndpoints>,
    wireLinks: seq<WireLink>,
    pduKeyGroups: map<string, seq<PduKey>>,
    connections: seq<Connection>)

  // ---------------------------------------------------------------------
  // nlohmann primitives

  /** `j.at(key)`. */
  function At(j: Json, key: string): (r: Result<Json, DecodeError>)
    ensures r.Ok? <==> Has(j, key)
    ensures !j.JObject? ==> r == Err(NotAnObject)
    ensures j.JObject? && !Has(j, key) ==> r == Err(MissingKey(key))
  {
    if !j.JObject? then Err(NotAnObject)
    else match Lookup(j.members, key)
      case Some(v) => Ok(v)
      case None => Err(MissingKey(key))
  }

  /** `get_to(std::string&)`. */
  function AsString(j: Json): (r: Result<string, DecodeError>)
    ensures r.Ok? <==> j.JString?
    ensures r.Ok? ==> r.value == j.s
  {
    if j.JString? then Ok(j.s) else Err(TypeMismatch("string"))
  }

  /** `get<int>()`: integers wrap to 32 bits, and nlohmann's arithmetic
      conversion also accepts a boolean as 0 or 1. */
  function AsInt(j: Json): (r: Result<int, DecodeError>)
    ensures r.Ok? <==> (j.JNumber? || j.JBool?)
    ensures r.Ok? ==> -0x8000_0000 <= r.value < 0x8000_0000
    ensures j.JNumber? && -0x8000_0000 <= j.n < 0x8000_0000 ==> r == Ok(j.n)
  {
    match j
    case JNumber(n) => Ok(Machine.WrapInt32(n))
    case JBool(b) => Ok(if b then 1 else 0)
    case _ => Err(TypeMismatch("number"))
  }

  /** `j.at(key).get_to(s)` for a string field. */
  function StringAt(j: Json, key: string): (r: Result<string, DecodeError>)
    ensures r.Ok? <==> Has(j, key) && Lookup(j.members, key).value.JString?
    ensures r.Ok? ==> r.value == Lookup(j.members, key).value.s
  {
    var v :- At(j, key);
    AsString(v)
  }

  /** std::vector<T> from a JSON array: elements in array order; the first
      element that fails decides the error. */
  function DecodeItems<T>(items: seq<Json>, f: Json -> Result<T, DecodeError>): (r: Result<seq<T>, DecodeError>)
    ensures r.Ok? <==> forall i :: 0 <= i < |items| ==> f(items[i]).Ok?
    ensures r.Ok? ==> |r.value| == |items| && forall i :: 0 <= i < |items| ==> r.value[i] == f(items[i]).value
    ensures r.Err? ==> exists i :: 0 <= i < |items| && f(items[i]) == Err(r.error)
                                   && forall k :: 0 <= k < i ==> f(items[k]).Ok?
  {
    if items == [] then Ok([])
    else
      var head :- f(items[0]);
      var tail := DecodeItems(items[1..], f);
      if tail.Err? then
        assert forall i :: 0 <= i < |items| - 1 ==> items[1..][i] == items[i + 1];
        Err(tail.error)
      else
        assert forall i :: 1 <= i < |items| ==> items[i] == items[1..][i - 1];
        Ok([head] + tail.value)
  }

  /** `get_to(std::vector<T>&)`: only an array decodes, to one value per
      item in array order; otherwise the type error, or the error of the
      first item that fails. */
  function DecodeArray<T>(j: Json, f: Json -> Result<T, DecodeError>): (r: Result<seq<T>, DecodeError>)
    ensures r.Ok? <==> j.JArray? && forall i :: 0 <= i < |j.items| ==> f(j.items[i]).Ok?
    ensures r.Ok? ==> |r.value| == |j.items| && forall i :: 0 <= i < |j.items| ==> r.value[i] == f(j.items[i]).value
    ensures !j.JArray? ==> r == Err(TypeMismatch("array"))
    ensures j.JArray? && r.Err? ==> exists i :: 0 <= i < |j.items| && f(j.items[i]) == Err(r.error)
                                                && forall k :: 0 <= k < i ==> f(j.items[k]).Ok?
  {
    if j.JArray? then DecodeItems(j.items, f) else Err(TypeMismatch("array"))
  }

  /** std::map<std::string, T> from a JSON object, visiting members in the
      order the object keeps them. */
  function DecodeMembers<T>(members: seq<(string, Json)>, f: Json -> Result<T, DecodeError>): (r: Result<map<string, T>, DecodeError>)
    ensures r.Ok? <==> forall i :: 0 <= i < |members| ==> f(members[i].1).Ok?
    ensures r.Ok? ==> r.value.Keys == set i | 0 <= i < |members| :: members[i].0
    ensures r.Ok? && SortedMembers(members) ==>
              forall i :: 0 <= i < |members| ==> r.value[members[i].0] == f(members[i].1).value
    ensures r.Err? ==> exists i :: 0 <= i < |members| && f(members[i].1) == Err(r.error)
                                   && forall k :: 0 <= k < i ==> f(members[k].1).Ok?
  {
    if members == [] then Ok(map[])
    else
      var head :- f(members[0].1);
      var tail := DecodeMembers(members[1..], f);
      assert forall i :: 0 <= i < |members| - 1 ==> members[1..][i] == members[i + 1];
      if tail.Err? then
        Err(tail.error)
      else
        assert forall i :: 1 <= i < |members| ==> members[i] == members[1..][i - 1];
        var r := tail.value[members[0].0 := head];
        assert SortedMembers(members) ==> forall i :: 1 <= i < |members| ==> members[i].0 != members[0].0 by {
          if SortedMembers(members) {
            forall i | 1 <= i < |members| ensures members[i].0 != members[0].0 {
              StringOrder.Irreflexive(members[0].0);
            }
          }
        }
        assert r.Keys == set i | 0 <= i < |members| :: members[i].0 by {
          forall k | k in r.Keys ensures exists i :: 0 <= i < |members| && members[i].0 == k {
            if k != members[0].0 {
              var i :| 0 <= i < |members| - 1 && members[1..][i].0 == k;
              assert members[i + 1].0 == k;
            }
          }
        }
        Ok(r)
  }

  /** `get_to(std::map<std::string, T>&)`: only an object decodes, to a map
      with exactly its keys; otherwise the type error, or the error of the
      first member that fails. */
  function DecodeMap<T>(j: Json, f: Json -> Result<T, DecodeError>): (r: Result<map<string, T>, DecodeError>)
    ensures r.Ok? <==> j.JObject? && forall i :: 0 <= i < |j.members| ==> f(j.members[i].1).Ok?
    ensures r.Ok? ==> r.value.Keys == set i | 0 <= i < |j.members| :: j.members[i].0
    ensures r.Ok? && SortedMembers(j.members) ==>
              forall i :: 0 <= i < |j.members| ==> r.value[j.members[i].0] == f(j.members[i].1).value
    ensures !j.JObject? ==> r == Err(TypeMismatch("object"))
    ensures j.JObject? && r.Err? ==> exists i :: 0 <= i < |j.members| && f(j.members[i].1) == Err(r.error)
                                                 && forall k :: 0 <= k < i ==> f(j.members[k].1).Ok?
  {
    if j.JObject? then DecodeMembers(j.members, f) else Err(TypeMismatch("object"))
  }

  // ---------------------------------------------------------------------
  // from_json for each DTO

  function DecodeTransferPolicy(j: Json): (r: Result<TransferPolicy, DecodeError>)
    ensures r.Ok? <==> StringAt(j, "type").Ok? && (Has(j, "intervalMs") ==> AsInt(Lookup(j.members, "intervalMs").value).Ok?)
    ensures r.Ok? ==> StringAt(j, "type") == Ok(r.value.policyType)
    ensures r.Ok? ==> (r.value.intervalMs.Some? <==> Has(j, "intervalMs"))
    ensures r.Ok? && Has(j, "intervalMs") ==>
              r.value.intervalMs == Some(AsInt(Lookup(j.members, "intervalMs").value).value)
  {
    var policyType :- StringAt(j, "type");
    if Has(j, "intervalMs") then
      var interval :- AsInt(At(j, "intervalMs").value);
      Ok(TransferPolicy(policyType, Some(interval)))
    else
      Ok(TransferPolicy(policyType, None))
  }

  function DecodeNode(j: Json): (r: Result<Node, DecodeError>)
    ensures r.Ok? <==> Has(j, "id") && Lookup(j.members, "id").value.JString?
    ensures r.Ok? ==> r.value == Node(StringAt(j, "id").value)
  {
    var id :- StringAt(j, "id");
    Ok(Node(id))
  }

  function DecodeEndpointDefinition(j: Json): (r: Result<EndpointDefinition, DecodeError>)
    ensures r.Ok? <==> forall k :: k in ["id", "mode", "config_path"] ==> StringAt(j, k).Ok?
    ensures r.Ok? ==> r.value == EndpointDefinition(
      StringAt(j, "id").value, StringAt(j, "mode").value, StringAt(j, "config_path").value)
  {
    var id :- StringAt(j, "id");
    var mode :- StringAt(j, "mode");
    var configPath :- StringAt(j, "config_path");
    Ok(EndpointDefinition(id, mode, configPath))
  }

  function DecodeNodeEndpoints(j: Json): (r: Result<NodeEndpoints, DecodeError>)
    ensures r.Ok? <==> StringAt(j, "nodeId").Ok? && ArrayAt(j, "endpoints", DecodeEndpointDefinition).Ok?
    ensures r.Ok? ==> r.value == NodeEndpoints(
      StringAt(j, "nodeId").value, ArrayAt(j, "endpoints", DecodeEndpointDefinition).value)
  {
    var nodeId :- StringAt(j, "nodeId");
    var ej :- At(j, "endpoints");
    var endpoints :- DecodeArray(ej, DecodeEndpointDefinition);
    Ok(NodeEndpoints(nodeId, endpoints))
  }

  function DecodeWireLink(j: Json): (r: Result<WireLink, DecodeError>)
    ensures r.Ok? <==> StringAt(j, "from").Ok? && StringAt(j, "to").Ok?
    ensures r.Ok? ==> r.value == WireLink(StringAt(j, "from").value, StringAt(j, "to").value)
  {
    var linkFrom :- StringAt(j, "from");
    var linkTo :- StringAt(j, "to");
    Ok(WireLink(linkFrom, linkTo))
  }

  function DecodePduKey(j: Json): (r: Result<PduKey, DecodeError>)
    ensures r.Ok? <==> forall k :: k in ["id", "robot_name", "pdu_name"] ==> StringAt(j, k).Ok?
    ensures r.Ok? ==> r.value == PduKey(
      StringAt(j, "id").value, StringAt(j, "robot_name").value, StringAt(j, "pdu_name").value)
  {
    var id :- StringAt(j, "id");
    var robotName :- StringAt(j, "robot_name");
    var pduName :- StringAt(j, "pdu_name");
    Ok(PduKey(id, robotName, pduName))
  }

  function DecodeConnectionSource(j: Json): (r: Result<ConnectionSource, DecodeError>)
    ensures r.Ok? <==> StringAt(j, "endpointId").Ok?
    ensures r.Ok? ==> r.value == ConnectionSource(StringAt(j, "endpointId").value)
  {
    var endpointId :- StringAt(j, "endpointId");
    Ok(ConnectionSource(endpointId))
  }

  function DecodeConnectionDestination(j: Json): (r: Result<ConnectionDestination, DecodeError>)
    ensures r.Ok? <==> StringAt(j, "endpointId").Ok?
    ensures r.Ok? ==> r.value == ConnectionDestination(StringAt(j, "endpointId").value)
  {
    var endpointId :- StringAt(j, "endpointId");
    Ok(ConnectionDestination(endpointId))
  }

  function DecodeTransferPduConfig(j: Json): (r: Result<TransferPduConfig, DecodeError>)
    ensures r.Ok? <==> StringAt(j, "pduKeyGroupId").Ok? && StringAt(j, "policyId").Ok?
    ensures r.Ok? ==> r.value == TransferPduConfig(StringAt(j, "pduKeyGroupId").value, StringAt(j, "policyId").value)
  {
    var pduKeyGroupId :- StringAt(j, "pduKeyGroupId");
    var policyId :- StringAt(j, "policyId");
    Ok(TransferPduConfig(pduKeyGroupId, policyId))
  }

  const ConnectionKeys: seq<string> := ["id", "nodeId", "source", "destinations", "transferPdus"]

  function DecodeConnection(j: Json): (r: Result<Connection, DecodeError>)
    ensures r.Ok? ==> forall k :: k in ConnectionKeys ==> Has(j, k)
    ensures r.Ok? <==> StringAt(j, "id").Ok? && StringAt(j, "nodeId").Ok?
                       && Has(j, "source") && DecodeConnectionSource(Lookup(j.members, "source").value).Ok?
                       && ArrayAt(j, "destinations", DecodeConnectionDestination).Ok?
                       && ArrayAt(j, "transferPdus", DecodeTransferPduConfig).Ok?
    ensures r.Ok? ==> r.value == Connection(
      StringAt(j, "id").value, StringAt(j, "nodeId").value,
      DecodeConnectionSource(Lookup(j.members, "source").value).value,
      ArrayAt(j, "destinations", DecodeConnectionDestination).value,
      ArrayAt(j, "transferPdus", DecodeTransferPduConfig).value)
  {
    var id :- StringAt(j, "id");
    var nodeId :- StringAt(j, "nodeId");
    var sj :- At(j, "source");
    var source :- DecodeConnectionSource(sj);
    var dj :- At(j, "destinations");
    var destinations :- DecodeArray(dj, DecodeConnectionDestination);
    var tj :- At(j, "transferPdus");
    var transferPdus :- DecodeArray(tj, DecodeTransferPduConfig);
    Ok(Connection(id, nodeId, source, destinations, transferPdus))
  }

  function DecodePduKeyGroup(j: Json): Result<seq<PduKey>, DecodeError> {
    DecodeArray(j, DecodePduKey)
  }

  /** `j.at(key).get_to(v)` for an array field. */
  function ArrayAt<T>(j: Json, key: string, f: Json -> Result<T, DecodeError>): (r: Result<seq<T>, DecodeError>)
    ensures r.Ok? <==> Has(j, key) && Lookup(j.members, key).value.JArray?
                       && forall i :: 0 <= i < |Lookup(j.members, key).value.items| ==>
                                      f(Lookup(j.members, key).value.items[i]).Ok?
    ensures r.Ok? ==> var items := Lookup(j.members, key).value.items;
                      |r.value| == |items| && forall i :: 0 <= i < |items| ==> r.value[i] == f(items[i]).value
    ensures !j.JObject? ==> r == Err(NotAnObject)
    ensures j.JObject? && !Has(j, key) ==> r == Err(MissingKey(key))
    ensures Has(j, key) && !Lookup(j.members, key).value.JArray? ==> r == Err(TypeMismatch("array"))
  {
    var v :- At(j, key);
    DecodeArray(v, f)
  }

  /** `j.at(key).get_to(m)` for an object field read as a map. */
  function MapAt<T>(j: Json, key: string, f: Json -> Result<T, DecodeError>): (r: Result<map<string, T>, DecodeError>)
    ensures r.Ok? <==> Has(j, key) && Lookup(j.members, key).value.JObject?
                       && forall i :: 0 <= i < |Lookup(j.members, key).value.members| ==>
                                      f(Lookup(j.members, key).value.members[i].1).Ok?
    ensures r.Ok? ==> var ms := Lookup(j.members, key).value.members;
                      r.value.Keys == set i | 0 <= i < |ms| :: ms[i].0
    ensures r.Ok? && SortedMembers(Lookup(j.members, key).value.members) ==>
              var ms := Lookup(j.members, key).value.members;
              forall i :: 0 <= i < |ms| ==> r.value[ms[i].0] == f(ms[i].1).value
    ensures !j.JObject? ==> r == Err(NotAnObject)
    ensures j.JObject? && !Has(j, key) ==> r == Err(MissingKey(key))
    ensures Has(j, key) && !Lookup(j.members, key).value.JObject? ==> r == Err(TypeMismatch("object"))
  {
    var v :- At(j, key);
    DecodeMap(v, f)
  }

  /** `wireLinks` is read only when present. */
  function OptionalArrayAt<T>(j: Json, key: string, f: Json -> Result<T, DecodeError>): (r: Result<seq<T>, DecodeError>)
    ensures !Has(j, key) ==> r == Ok([])
    ensures Has(j, key) ==> (r.Ok? <==> Lookup(j.members, key).value.JArray?
                                         && forall i :: 0 <= i < |Lookup(j.members, key).value.items| ==>
                                                        f(Lookup(j.members, key).value.items[i]).Ok?)
    ensures Has(j, key) && r.Ok? ==> var items := Lookup(j.members, key).value.items;
                      |r.value| == |items| && forall i :: 0 <= i < |items| ==> r.value[i] == f(items[i]).value
    ensures Has(j, key) && !Lookup(j.members, key).value.JArray? ==> r == Err(TypeMismatch("array"))
  {
    if Has(j, key) then DecodeArray(At(j, key).value, f) else Ok([])
  }

  /** Every top-level field is required except `wireLinks`. */
  function DecodeBridgeConfig(j: Json): (r: Result<BridgeConfig, DecodeError>)
    ensures r.Ok? ==> Has(j, "version") && Has(j, "time_source_type") && Has(j, "transferPolicies")
                      && Has(j, "nodes") && Has(j, "endpoints") && Has(j, "pduKeyGroups") && Has(j, "connections")
    ensures r.Ok? && !Has(j, "wireLinks") ==> r.value.wireLinks == []
    ensures r.Ok? <==> StringAt(j, "version").Ok? && StringAt(j, "time_source_type").Ok?
                       && MapAt(j, "transferPolicies", DecodeTransferPolicy).Ok?
                       && ArrayAt(j, "nodes", DecodeNode).Ok?
                       && ArrayAt(j, "endpoints", DecodeNodeEndpoints).Ok?
                       && OptionalArrayAt(j, "wireLinks", DecodeWireLink).Ok?
                       && MapAt(j, "pduKeyGroups", DecodePduKeyGroup).Ok?
                       && ArrayAt(j, "connections", DecodeConnection).Ok?
    ensures r.Ok? ==> r.value == BridgeConfig(
      StringAt(j, "version").value, StringAt(j, "time_source_type").value,
      MapAt(j, "transferPolicies", DecodeTransferPolicy).value,
      ArrayAt(j, "nodes", DecodeNode).value,
      ArrayAt(j, "endpoints", DecodeNodeEndpoints).value,
      OptionalArrayAt(j, "wireLinks", DecodeWireLink).value,
      MapAt(j, "pduKeyGroups", DecodePduKeyGroup).value,
      ArrayAt(j, "connections", DecodeConnection).value)
  {
    var version :- StringAt(j, "version");
    var timeSourceType :- StringAt(j, "time_source_type");
    var transferPolicies :- MapAt(j, "transferPolicies", DecodeTransferPolicy);
    var nodes :- ArrayAt(j, "nodes", DecodeNode);
    var endpoints :- ArrayAt(j, "endpoints", DecodeNodeEndpoints);
    var wireLinks :- OptionalArrayAt(j, "wireLinks", DecodeWireLink);
    var pduKeyGroups :- MapAt(j, "pduKeyGroups", DecodePduKeyGroup);
    var connections :- ArrayAt(j, "connections", DecodeConnection);
    Ok(BridgeConfig(version, timeSourceType, transferPolicies, nodes, endpoints, wireLinks, pduKeyGroups, connections))
  }
}
