# hakoniwa-pdu-bridge core, modelled in Dafny

The hakoniwa PDU bridge copies PDUs, the fixed-layout messages of a Hakoniwa
simulation, from one endpoint to others, under transfer policies. A JSON
bridge config names the policies, the endpoints of each node, the PDU key
groups and the connections. `BridgeLoader` turns that config into a
`BridgeCore`, which owns one `BridgeConnection` per connection of its node.
Each connection owns one `TransferPdu` per (destination, PDU key), and each
of those holds shared references to a policy object and to its source and
destination endpoints. One pass of the core's run loop steps every
connection of its node. A step tries every transfer in insertion order.
A try asks the policy, copies the PDU when its epoch is not older than
the owner's, and then notifies the policy.

There are three policies:
- **immediate** always transfers;
- **throttle** transfers when at least an interval has passed since the last transfer;
- **ticker** transfers on a fixed grid of ticks that starts one interval after the first check.

Time comes from a virtual clock, advanced by hand, or from a real clock.
The Python tool `check_bridge_config.py` checks a bridge file before use.
It checks the schema, that every endpoint `config_path` names a file, and
the same for an endpoint container file.

How it is modelled:

- **Policies and time.** Throttle, ticker and the time source are classes
  whose methods update their fields. The immediate policy has no state and
  is a datatype. `Policies.PolicyRef` is the interface: one of the three
  kinds, with a pure `Check`/`Notify` on the policy's state.
- **Test endpoint.** `MockEndpoint` (the test endpoint of
  `test/mock_endpoint.hpp`) stands in for the library `Endpoint`, everywhere
  a transfer reads or writes. Its state is a value, `EndpointState`.
- **Shared objects.** Transfers can share policy objects and endpoints.
  Because of that, the objects a step may change are gathered into a
  `World` value (see `TransferPdus.Snapshot`). The pure functions
  `TryWorld` (one `try_transfer`) and `SweepWorld` (a sequence of them) are
  the specification that `TransferPdu.TryTransfer`, `BridgeConnection.Step`
  and `BridgeCore.SweepOnce` are proved against.
- **Loader.** `BridgeLoader::load` and `create_bridge_from_config_file` are
  methods with loops. Each is proved against a plan function
  (`LoadPlan`, `CreatePlan`) that says which transfers must exist, in which
  order, and which error ends the load. Exceptions are `Err` results. Lemmas
  about the plan functions state the order, the lookups, the skipping of
  other nodes' connections and which error comes first. The loaded
  transfers are new objects, each in one connection only. Unlike the
  source, the loader refuses a ticker that would get interval 0 (see
  Findings).
- **Tests.** The policy tests of `transfer_pdu_test.cpp` are replayed on
  `TryWorld`: `Scenarios.TryCounts` reads the destination's send count
  after each try.
- **Config decoding.** The `from_json` decoders of `bridge_types.hpp` are
  functions over a JSON value. A JSON object is its member list, in the
  key order of nlohmann's `std::map`.
- **Python checker.** The script is modelled with Python's own meaning of
  `dict.get` (the last duplicate key wins), of iteration (a dict yields its
  keys, a string its characters) and of truthiness. The file system
  (`read`, `parent`, `resolve`, `is_file`) is a parameter. The printed lines
  are a sequence of `Message` values.

Integers are unbounded. The model checks that `uint64_t` and `int` values
fit where the source relies on it. It writes out the wrap-around of
`static_cast<uint64_t>(ms) * 1000`, of `get<int>()`, and of the `int64`
nanosecond subtraction in the throttle as written.

The throttle constructor in `throttle_policy.cpp` types its interval as
milliseconds. The throttle header, the loader (which multiplies by 1000)
and the tests all pass microseconds. The model uses microseconds
throughout, as the callers do.

## Model

| member | source | states |
|---|---|---|
| TimeSources.TimeSource.Virtual | include/hakoniwa/pdu/bridge/virtual_time_source.hpp:10 | a virtual clock starts at 0 µs |
| TimeSources.TimeSource.Real | include/hakoniwa/pdu/bridge/real_time_source.hpp:9-15 | a real clock reads the given elapsed microseconds |
| TimeSources.TimeSource.GetSteadyClockTime | include/hakoniwa/pdu/bridge/virtual_time_source.hpp:12-16 | the time point is the microsecond reading, as whole nanoseconds |
| TimeSources.TimeSource.AdvanceTime | include/hakoniwa/pdu/bridge/virtual_time_source.hpp:22-24 | a virtual clock moves forward by exactly `us`; a real clock ignores the call (the interface's default) |
| TimeSources.AdvancedBySum | include/hakoniwa/pdu/bridge/virtual_time_source.hpp:22-24 | advancing by several steps reaches the start plus their sum |
| TimeSources.AdvanceAll | include/hakoniwa/pdu/bridge/virtual_time_source.hpp:22-24 | a sequence of `advance_time` calls leaves the clock at `AdvancedBy` of the steps, never earlier than before |
| ImmediatePolicies.ImmediatePolicy.ShouldTransfer | src/policy/immediate_policy.cpp:6-9 | the answer is always yes |
| ImmediatePolicies.AlwaysTransfers | src/policy/immediate_policy.cpp:6-13 | `on_transferred` changes nothing, so after any number of transfers the policy is unchanged and still says yes |
| ThrottlePolicies.ThrottlePolicy.constructor | src/policy/throttle_policy.cpp:6-7 | a new throttle has the given interval and has not transferred yet |
| ThrottlePolicies.ThrottlePolicy.ShouldTransfer | src/policy/throttle_policy.cpp:9-15 | the answer is `Due`: no transfer yet, or at least an interval since the last one; nothing changes |
| ThrottlePolicies.ThrottlePolicy.OnTransferred | src/policy/throttle_policy.cpp:17-19 | the transfer time becomes the clock's reading |
| ThrottlePolicies.FirstCheckIsDue | src/policy/throttle_policy.cpp:6-15 | a new throttle says yes at any time |
| ThrottlePolicies.DueAfterTransfer | src/policy/throttle_policy.cpp:9-19 | after a transfer at `t` the policy says yes exactly from `t + interval` on |
| ThrottlePolicies.NotifiedForgetsHistory | src/policy/throttle_policy.cpp:17-19 | the state after a transfer depends only on the transfer's time |
| ThrottlePolicies.AsWrittenFirstCheckNeverDue | src/policy/throttle_policy.cpp:7-11 | with the initial `time_point::min()` as written, `now - last` wraps negative, so the first check never says yes |
| ThrottlePolicies.AsWrittenMissesFirstTransfer | src/policy/throttle_policy.cpp:7-11 | a concrete input: at time 0 with a 100 ms interval the code as written says no while the corrected policy says yes |
| ThrottlePolicies.AsWrittenAgreesAfterTransfer | src/policy/throttle_policy.cpp:9-15 | once a real transfer time is stored, the code as written and the corrected policy agree |
| TickerPolicies.AfterCheck | src/policy/ticker_policy.cpp:9-19 | the grid is started once: after the first check at `now` the policy is due exactly from `now + interval` on, and a started state is kept by every later check |
| TickerPolicies.CheckStartsGridOnce | src/policy/ticker_policy.cpp:9-19 | a second check, at any time, leaves the state of the first, so only the first check's time places the grid |
| TickerPolicies.TickerPolicy.constructor | src/policy/ticker_policy.cpp:6-7 | a new ticker has the given interval and is not initialised |
| TickerPolicies.TickerPolicy.ShouldTransfer | src/policy/ticker_policy.cpp:9-19 | the answer is no on the first check, afterwards whether the next tick is reached; the new state is `AfterCheck` |
| TickerPolicies.TickerPolicy.OnTransferred | src/policy/ticker_policy.cpp:21-33 | the do-while loop moves the next tick to `Rescheduled`, the first grid tick after now |
| TickerPolicies.RescheduledIsFirstTickAfter | src/policy/ticker_policy.cpp:29-31 | the rescheduled tick is on the grid `next + k·interval` with k ≥ 1, is after now, and the tick before it is not |
| TickerPolicies.StepsUnique | src/policy/ticker_policy.cpp:29-31 | that number of steps is the only one with this property |
| TickerPolicies.FirstCheckNotDue | src/policy/ticker_policy.cpp:11-16 | the first check never says yes |
| TickerPolicies.NoSecondTransferAtSameTime | src/policy/ticker_policy.cpp:21-33 | after a transfer the next tick is in the future, so a second check at the same time says no |
| TickerPolicies.OnTimeTransferAdvancesOneInterval | src/policy/ticker_policy.cpp:29-31 | a transfer within one interval of the tick moves the tick by exactly one interval (no drift) |
| TickerPolicies.AsWrittenZeroIntervalNeverEnds | src/policy/ticker_policy.cpp:29-31 | with interval 0 and a tick already reached, the do-while loop is still looping after any number of rounds |
| TickerPolicies.AsWrittenPositiveIntervalEnds | src/policy/ticker_policy.cpp:29-31 | with a positive interval the do-while loop ends after `Steps` rounds, at the tick `Rescheduled` that `OnTransferred` is proved to reach |
| Policies.PolicyRef.State | include/hakoniwa/pdu/bridge/pdu_transfer_policy.hpp:9-18 | the abstract state of the policy object has the policy's own kind |
| Policies.PolicyRef.Check | include/hakoniwa/pdu/bridge/pdu_transfer_policy.hpp:14 | only a ticker's check changes state; an immediate check always says yes |
| Policies.PolicyRef.Notify | include/hakoniwa/pdu/bridge/pdu_transfer_policy.hpp:17 | the notification keeps the state of the same kind |
| Policies.PolicyRef.ShouldTransfer | include/hakoniwa/pdu/bridge/pdu_transfer_policy.hpp:14 | the virtual call does what `Check` says, for each kind |
| Policies.PolicyRef.OnTransferred | include/hakoniwa/pdu/bridge/pdu_transfer_policy.hpp:17 | the virtual call does what `Notify` says, for each kind |
| MockEndpoints.MakeKey | test/mock_endpoint.hpp:89-91 | the map key reads back as the robot name, the dot right after it, then the PDU name |
| MockEndpoints.MakeKeyInjective | test/mock_endpoint.hpp:89-91 | distinct keys whose robot names have no dot get distinct map keys |
| MockEndpoints.MakeKeyCollides | test/mock_endpoint.hpp:89-91 | a concrete input: with a dot in the robot name, two different keys share one map entry |
| MockEndpoints.EndpointState.PduSize | test/mock_endpoint.hpp:30-38 | the size of the stored PDU, 0 when none is stored |
| MockEndpoints.EndpointState.ReceivedSize | test/mock_endpoint.hpp:40-53 | at most the buffer size and the stored size, 0 when none is stored |
| MockEndpoints.EmptyHasNothing | test/mock_endpoint.hpp:19-22 | a new endpoint has no data, no sends and an empty last send |
| MockEndpoints.RecvCopiesStoredPrefix | test/mock_endpoint.hpp:40-53 | `recv` copies the stored PDU's prefix into the buffer and leaves the rest; with no data the buffer is unchanged |
| MockEndpoints.SendEffect | test/mock_endpoint.hpp:55-82 | a send adds one to that key's count, records the data as the last sent, leaves the readable data and other keys alone |
| MockEndpoints.MockEndpoint.constructor | test/mock_endpoint.hpp:19-22 | a new endpoint has its name and the empty state |
| MockEndpoints.MockEndpoint.SetPduData | test/mock_endpoint.hpp:24-28 | the key's entry is replaced by the data, nothing else changes |
| MockEndpoints.MockEndpoint.GetPduSize | test/mock_endpoint.hpp:30-38 | returns `PduSize` of the key |
| MockEndpoints.MockEndpoint.Recv | test/mock_endpoint.hpp:40-53 | succeeds; returns the received size and fills the array as `Received` says |
| MockEndpoints.MockEndpoint.Send | test/mock_endpoint.hpp:55-62 | succeeds; the new state is `Sent` of the key and data |
| MockEndpoints.MockEndpoint.SendCount | test/mock_endpoint.hpp:64-72 | returns the number of sends for the key, 0 when none |
| MockEndpoints.MockEndpoint.LastSentData | test/mock_endpoint.hpp:74-82 | returns the last data sent for the key, empty when none |
| Machine.Le64RoundTrip | src/transfer_pdu.cpp:78-81 | reading back eight little-endian bytes gives the 64-bit value they were made from |
| TransferPdus.EpochOf | src/transfer_pdu.cpp:78-81 | the epoch is a 64-bit value, 0 when fewer than eight bytes are received |
| TransferPdus.TransferOutcomeIsStoredPdu | src/transfer_pdu.cpp:44-102 | a transfer sends exactly the stored PDU, byte for byte, when one is stored and its epoch is accepted, and sends nothing otherwise |
| TransferPdus.OlderEpochDiscarded | src/transfer_pdu.cpp:83-87 | a PDU of an epoch older than the owner's is never sent |
| TransferPdus.TryWorld | src/transfer_pdu.cpp:34-42 | an inactive transfer changes nothing; every object stays in the world |
| TransferPdus.TryWorldFrame | src/transfer_pdu.cpp:34-102 | a try changes only its destination and its own policy object, and never any endpoint's readable data |
| TransferPdus.NotifiedExactlyWhenDue | src/transfer_pdu.cpp:38-41 | the policy is notified exactly when its check said yes, after the check's own update |
| TransferPdus.TryWorldDestination | src/transfer_pdu.cpp:34-102 | the destination records one more send of the stored PDU exactly when the transfer is active, the policy says yes, data is stored and its epoch is accepted |
| TransferPdus.TransferPdu.constructor | src/transfer_pdu.cpp:9-20 | a new transfer keeps its key, policy and endpoints, derives the endpoint key, is active, owner epoch 0 |
| TransferPdus.TransferPdu.Create | src/transfer_pdu.cpp:9-24 | fails exactly when an endpoint is null |
| TransferPdus.TransferPdu.SetActive | src/transfer_pdu.cpp:26-28 | only the active flag changes |
| TransferPdus.TransferPdu.SetEpoch | src/transfer_pdu.cpp:30-32 | only the owner epoch changes |
| TransferPdus.TransferPdu.AcceptsEpoch | src/transfer_pdu.cpp:104-108 | an epoch is accepted exactly when it is not older than the owner's |
| TransferPdus.TransferPdu.Transfer | src/transfer_pdu.cpp:44-102 | the destination's new state is `Delivery` of the source's data |
| TransferPdus.TransferPdu.TryTransfer | src/transfer_pdu.cpp:34-42 | the world after the call is `TryWorld` of the world before |
| BridgeConnections.SweepWorld | src/bridge_connection.cpp:10-14 | a sweep keeps every object in the world |
| BridgeConnections.SweepAppend | src/bridge_connection.cpp:10-14 | sweeping two lists one after the other is sweeping their concatenation |
| BridgeConnections.SweepFrame | src/bridge_connection.cpp:10-14 | a sweep leaves alone endpoints that no transfer targets, policies that no transfer uses, and all readable data; an empty sweep changes nothing |
| BridgeConnections.SweepKeepsData | src/bridge_connection.cpp:10-14 | no sweep changes the data an endpoint can be read from |
| BridgeConnections.SweepImmediateSendCount | test/bridge_connection_test.cpp:30-73 | with immediate policies each destination's send count grows by the number of firing transfers that target it with that key |
| BridgeConnections.BridgeConnection.constructor | include/hakoniwa/pdu/bridge/bridge_connection.hpp:14 | a new connection has its node id and no transfers |
| BridgeConnections.BridgeConnection.AddTransferPdu | src/bridge_connection.cpp:6-8 | the transfer is appended at the end |
| BridgeConnections.BridgeConnection.Step | src/bridge_connection.cpp:10-14 | the world after a step is `SweepWorld` of the transfers in insertion order |
| BridgeCores.SelectedMembers | src/bridge_core.cpp:28-32 | a transfer is swept exactly when it belongs to a connection of the core's node |
| BridgeCores.SelectedNoneOrAll | test/bridge_core_test.cpp:69-92 | with no connection of the node nothing is swept; with only the node's connections all their transfers are swept |
| BridgeCores.BridgeCore.constructor | src/bridge_core.cpp:8-9 | a new core has its node name and clock, no connections, and is not running |
| BridgeCores.BridgeCore.Create | src/bridge_core.cpp:8-13 | fails exactly when the time source is null |
| BridgeCores.BridgeCore.AddConnection | src/bridge_core.cpp:15-17 | the connection is appended at the end and its transfers join the core's objects |
| BridgeCores.BridgeCore.SweepOnce | src/bridge_core.cpp:28-32 | the world after one pass is `SweepWorld` of the transfers of the node's connections, connection by connection |
| BridgeCores.BridgeCore.SweepFrom | src/bridge_core.cpp:28-32 | the loop over the connections, in order: stepping only those of the node sweeps the selected transfers connection by connection |
| BridgeCores.BridgeCore.StepConnection | src/bridge_core.cpp:29-31 | stepping one connection sweeps exactly its transfers |
| BridgeCores.BridgeCore.Run | src/bridge_core.cpp:19-39 | a core already running returns at once with nothing changed; otherwise one pass is made |
| BridgeCores.BridgeCore.RunOnce | src/bridge_core.cpp:25-38 | one iteration of the loop, ended by `stop` |
| BridgeCores.BridgeCore.Start | src/bridge_core.cpp:20 | the running flag is set, nothing else changes |
| BridgeCores.BridgeCore.Stop | src/bridge_core.cpp:41-43 | the running flag is cleared, nothing else changes |
| BridgeTypes.At | include/hakoniwa/pdu/bridge/bridge_types.hpp:82-137 | `j.at(key)`: fails on a non-object or a missing key, with that error |
| BridgeTypes.AsString | include/hakoniwa/pdu/bridge/bridge_types.hpp:82-137 | `get_to` a string succeeds exactly on a string |
| BridgeTypes.AsInt | include/hakoniwa/pdu/bridge/bridge_types.hpp:85 | `get<int>` accepts numbers and booleans, with a 32-bit result, exactly for values that fit |
| BridgeTypes.StringAt | include/hakoniwa/pdu/bridge/bridge_types.hpp:82-137 | a string member is read exactly when present and a string |
| BridgeTypes.DecodeItems | include/hakoniwa/pdu/bridge/bridge_types.hpp:96-137 | a vector is decoded item by item and fails exactly when some item fails, with that item's error |
| BridgeTypes.DecodeArray | include/hakoniwa/pdu/bridge/bridge_types.hpp:96-137 | succeeds exactly on an array whose every item decodes, with one value per item in order; a non-array is a type error, and otherwise the error is that of a failing item |
| BridgeTypes.DecodeMembers | include/hakoniwa/pdu/bridge/bridge_types.hpp:129-135 | a map gets exactly the object's keys, each with its decoded value, and fails exactly when some value fails |
| BridgeTypes.DecodeMap | include/hakoniwa/pdu/bridge/bridge_types.hpp:129-135 | succeeds exactly on an object whose every member value decodes; the map has exactly the object's keys, each with its member's value on a sorted object; a non-object is a type error, and otherwise the error is that of a failing member |
| BridgeTypes.DecodeTransferPolicy | include/hakoniwa/pdu/bridge/bridge_types.hpp:82-87 | succeeds exactly when `type` is a string and `intervalMs`, when present, reads as an int; the type is that string, and the interval is present exactly when `intervalMs` is, holding its `get<int>` value |
| BridgeTypes.DecodeNode | include/hakoniwa/pdu/bridge/bridge_types.hpp:88-90 | succeeds exactly when `id` is a string, and the node's id is that string |
| BridgeTypes.DecodeEndpointDefinition | include/hakoniwa/pdu/bridge/bridge_types.hpp:91-95 | succeeds exactly when `id`, `mode`, `config_path` are strings, and holds them |
| BridgeTypes.DecodeNodeEndpoints | include/hakoniwa/pdu/bridge/bridge_types.hpp:96-99 | succeeds exactly when `nodeId` is a string and `endpoints` decodes as an array of definitions; the entry holds that id and those definitions in array order |
| BridgeTypes.DecodeWireLink | include/hakoniwa/pdu/bridge/bridge_types.hpp:100-103 | succeeds exactly when `from` and `to` are strings, and the link holds those two strings |
| BridgeTypes.DecodePduKey | include/hakoniwa/pdu/bridge/bridge_types.hpp:104-108 | succeeds exactly when `id`, `robot_name`, `pdu_name` are strings, and holds them |
| BridgeTypes.DecodeConnectionSource | include/hakoniwa/pdu/bridge/bridge_types.hpp:109-111 | succeeds exactly when `endpointId` is a string, and the source names that endpoint |
| BridgeTypes.DecodeConnectionDestination | include/hakoniwa/pdu/bridge/bridge_types.hpp:112-114 | succeeds exactly when `endpointId` is a string, and the destination names that endpoint |
| BridgeTypes.DecodeTransferPduConfig | include/hakoniwa/pdu/bridge/bridge_types.hpp:115-118 | succeeds exactly when `pduKeyGroupId` and `policyId` are strings; the entry holds exactly those two ids, which the loader looks up |
| BridgeTypes.DecodeConnection | include/hakoniwa/pdu/bridge/bridge_types.hpp:119-125 | succeeds exactly when all five fields decode; the connection holds the `id` and `nodeId` strings, the decoded source, and the destinations and transfer entries in array order |
| BridgeTypes.ArrayAt | include/hakoniwa/pdu/bridge/bridge_types.hpp:96-137 | a required array member: succeeds exactly when the key is present, holds an array and every item decodes, with its items' values in order; a non-object, a missing key and a non-array are each their own error |
| BridgeTypes.MapAt | include/hakoniwa/pdu/bridge/bridge_types.hpp:129-135 | a required map member: succeeds exactly when the key is present, holds an object and every value decodes. The map has that object's keys, and on a sorted object each key maps to its member's decoded value. A non-object, a missing key and a non-object value are each their own error |
| BridgeTypes.OptionalArrayAt | include/hakoniwa/pdu/bridge/bridge_types.hpp:132-134 | an absent optional array is empty; a present one succeeds exactly when it is an array whose every item decodes, with its items' values in order, and is a type error when it is not an array |
| BridgeTypes.DecodeBridgeConfig | include/hakoniwa/pdu/bridge/bridge_types.hpp:126-137 | succeeds exactly when every field decodes; each field is its `StringAt`, `MapAt` or `ArrayAt` value (so arrays keep JSON order), and `wireLinks` is empty when absent |
| LoaderPlans.SelectTimeSource | src/bridge_loader.cpp:85-91 | "real" and "virtual" pick their clocks; any other name is the unknown-type error |
| LoaderPlans.IntervalMicros | src/bridge_loader.cpp:104-107 | the 64-bit product `ms * 1000`, equal to it whenever it fits |
| LoaderPlans.PolicyEntry | src/bridge_loader.cpp:100-108 | as written except for one case: immediate, throttle and ticker entries make that policy; a throttle or ticker without an interval is an error; a ticker that would get interval 0 is refused; other types are skipped; every policy made can serve transfers |
| LoaderPlans.PolicyEntryAsWritten | src/bridge_loader.cpp:100-108 | immediate, throttle and ticker entries make that policy with the converted interval, whatever it is; throttle or ticker without an interval is an error; other types are skipped |
| LoaderPlans.AsWrittenAcceptsZeroTicker | src/bridge_loader.cpp:105-107 | a concrete input: a ticker entry with `intervalMs` 0 is accepted as written and gets interval 0 |
| LoaderPlans.PolicyTableEntries | src/bridge_loader.cpp:96-109 | the table succeeds exactly when no throttle or ticker lacks its interval and no ticker gets interval 0; it then has the known-type ids, each with its entry's policy |
| LoaderPlans.PolicyTableError | src/bridge_loader.cpp:96-109 | a failing table fails with the error of one of its entries |
| LoaderPlans.PolicyTableServable | src/bridge_loader.cpp:96-109 | every policy of a built table can serve transfers: a ticker's interval is positive |
| LoaderPlans.KeysPlan | src/bridge_loader.cpp:137-140 | one transfer per key of the group, in order |
| LoaderPlans.TransferPdusPlan | src/bridge_loader.cpp:133-141 | a successful plan has one transfer per key of every listed group |
| LoaderPlans.TransferPdusLookups | src/bridge_loader.cpp:134-135 | a successful plan had every policy id and key group it looked up |
| LoaderPlans.TransferPdusOrder | src/bridge_loader.cpp:133-141 | the transfer at position `KeyCount(before) + k` is the `k`-th key of that entry's group, with its policy |
| LoaderPlans.TransferPdusRetarget | src/bridge_loader.cpp:128-141 | the destination changes neither success, nor the error, nor anything but the destination of each transfer |
| LoaderPlans.DestinationMajor | src/bridge_loader.cpp:128-142 | `|dests| · KeyCount` transfers, the one at `d · n + k` being the `k`-th transfer toward destination `d` |
| LoaderPlans.OwnConnections | src/bridge_loader.cpp:112-115 | only connections of the node remain |
| LoaderPlans.OtherNodesSkipped | src/bridge_loader.cpp:112-115 | the plan of all connections is the plan of the node's own connections |
| LoaderPlans.MissingSource | src/bridge_loader.cpp:118-119 | a connection whose source is not among the endpoints fails with source-not-found |
| LoaderPlans.NoDestinationsNoLookups | src/bridge_loader.cpp:128-142 | without destinations no policy or key group is looked up and no transfer is made |
| LoaderPlans.DestinationsPrefixErr | src/bridge_loader.cpp:128-131 | the first failing destination decides the error |
| LoaderPlans.ConnectionsPrefixErr | src/bridge_loader.cpp:112-144 | the first failing connection decides the error |
| LoaderPlans.NodeDefinitionsMembers | src/bridge_loader.cpp:56-58 | the endpoint definitions considered are exactly those of entries for the node |
| LoaderPlans.KeysLast | src/bridge_loader.cpp:56-70 | one more definition adds its path and its id |
| LoaderPlans.LayoutKeys | src/bridge_loader.cpp:56-70 | the layout has exactly one endpoint per config path and one binding per id |
| LoaderPlans.LayoutCreator | src/bridge_loader.cpp:59-65 | a path's endpoint is named by the first definition with that path |
| LoaderPlans.LayoutPath | src/bridge_loader.cpp:67 | an id is bound to the path of its last definition |
| LoaderPlans.LayoutError | src/bridge_loader.cpp:61-64 | the endpoint loop fails exactly when some path cannot be opened, and with the first such path |
| LoaderPlans.NodeDefinitionsPrefix | src/bridge_loader.cpp:56-58 | the definitions seen so far are a prefix of all of them |
| LoaderPlans.NodeDefinitionsStep | src/bridge_loader.cpp:56-58 | an entry for the node adds its definitions; others add none |
| LoaderPlans.EntriesPrefixErr | src/bridge_loader.cpp:56-70 | an open failure in an earlier entry is the error of the loop |
| LoaderPlans.LayoutPrefixErr | src/bridge_loader.cpp:61-64 | an open failure among earlier definitions is the error of the loop |
| LoaderPlans.ReadConfig | src/bridge_loader.cpp:21-34 | a file that does not open, does not parse or does not decode is an error; otherwise the decoded config |
| BridgeLoaders.MakePolicy | src/bridge_loader.cpp:100-108 | fails exactly as `PolicyEntry`; otherwise a new policy object of the planned kind, as its constructor leaves it, or none |
| BridgeLoaders.MakePolicies | src/bridge_loader.cpp:96-109 | fails exactly as `PolicyTable`; otherwise one new, separate, initial policy object per planned id, each ready to serve transfers |
| BridgeLoaders.VisitPolicy | src/bridge_loader.cpp:97-108 | one entry of the map loop, least id first: the table grows by that id, or the load fails as the table does |
| BridgeLoaders.AllVisited | src/bridge_loader.cpp:96-109 | a table with no failing entry is all its known-type entries |
| BridgeLoaders.RemoveLeast | src/bridge_loader.cpp:97 | visiting the least remaining id keeps the visited ids below the remaining ones |
| BridgeLoaders.LeastFailing | src/bridge_loader.cpp:103-106 | the first failing entry in map order is the error of the loop |
| BridgeLoaders.RealizesAppend | src/bridge_loader.cpp:139 | transfers that realise two plans realise their concatenation |
| BridgeLoaders.AddTransfers | src/bridge_loader.cpp:133-141 | the connection gains the transfers of `TransferPdusPlan`, each newly allocated, active and of owner epoch 0, or fails with the plan's error |
| BridgeLoaders.AddEntry | src/bridge_loader.cpp:133-141 | one entry of the loop: fails exactly when its policy id or key group is unknown, with that error; otherwise the connection gains one new transfer per key of the group |
| BridgeLoaders.TransferPdusNext | src/bridge_loader.cpp:133-141 | one more entry extends the plan by its group's transfers, or fails with the error of its lookups |
| BridgeLoaders.KeysPlanNext | src/bridge_loader.cpp:137-140 | one more key extends the plan by its transfer |
| BridgeLoaders.AddKeyTransfers | src/bridge_loader.cpp:137-140 | the connection gains one newly allocated transfer per key, in order, each active and of owner epoch 0 |
| BridgeLoaders.AddKeyTransfer | src/bridge_loader.cpp:138-139 | one new transfer, active and of owner epoch 0, is appended after the existing ones |
| BridgeLoaders.TransferPdusPrefixErr | src/bridge_loader.cpp:133-135 | an error in earlier entries is the error of all of them |
| BridgeLoaders.BuildConnection | src/bridge_loader.cpp:116-142 | fails exactly as `ConnectionPlan`; otherwise a new connection of the node holding the planned transfers, all newly allocated, active, of owner epoch 0, none of them twice |
| BridgeLoaders.AddDestinations | src/bridge_loader.cpp:128-142 | the destination loop: fails exactly as `DestinationsPlan`; otherwise the connection holds the transfers of every destination in order, all newly allocated |
| BridgeLoaders.AddDestination | src/bridge_loader.cpp:128-141 | one destination: an unknown one is an error; otherwise its transfers are added, as the plan extended by one destination says |
| BridgeLoaders.Connect | src/bridge_loader.cpp:116-143 | the core gains one connection holding the planned transfers, all new, so no transfer is shared between connections; or the load fails with the plan's error |
| BridgeLoaders.ConnectionsNext | src/bridge_loader.cpp:112-144 | one more connection leaves the plan as it was for another node, and otherwise extends it by the connection's plan or fails with its error |
| BridgeLoaders.ConnectNext | src/bridge_loader.cpp:112-144 | one iteration of the connection loop: skipped for another node, connected for this one, as the extended plan says |
| BridgeLoaders.ConnectAll | src/bridge_loader.cpp:112-144 | fails exactly as `ConnectionsPlan`; otherwise the core holds one connection per planned connection, in order, whose transfers are all newly allocated and none shared |
| BridgeLoaders.Load | src/bridge_loader.cpp:77-147 | fails exactly as `LoadPlan`; otherwise a new core in the `Loaded` state: the chosen clock at its start, the planned policy table with every policy ready to serve, the planned transfers, each newly allocated, active, of owner epoch 0, and none shared |
| BridgeLoaders.OpenedStep | src/bridge_loader.cpp:59-67 | one more definition keeps the endpoint maps in agreement with the layout |
| BridgeLoaders.DefinitionsNext | src/bridge_loader.cpp:58-68 | the definitions seen grow by one per iteration of the inner loop |
| BridgeLoaders.OpenDefinition | src/bridge_loader.cpp:59-67 | one definition: a path's first definition opens a new endpoint, or the load fails; the id is then bound |
| BridgeLoaders.OpenDefinitions | src/bridge_loader.cpp:58-68 | the definitions of one entry, in order, as the layout says |
| BridgeLoaders.MakeEndpoints | src/bridge_loader.cpp:53-70 | fails exactly as `LayoutOf`; otherwise one endpoint per path, shared by every id naming it |
| BridgeLoaders.CreateBridgeFromConfigFile | src/bridge_loader.cpp:36-74 | fails exactly as `CreatePlan`; otherwise a new core loaded from the decoded config with the endpoints made for the node, its transfers all newly allocated and none shared |
| BridgeConfigChecks.LoadJson | tools/check_bridge_config.py:8-16 | a value exactly when the file decodes to a non-null document; a missing file and invalid JSON print their messages |
| BridgeConfigChecks.Iterate | tools/check_bridge_config.py:41-42 | a list yields its items; a dict or string yields strings |
| BridgeConfigChecks.EntryPath | tools/check_bridge_config.py:43-45 | an entry names a path exactly when it is a dict whose last `config_path` is a non-empty string |
| BridgeConfigChecks.NodeEntries | tools/check_bridge_config.py:42 | every entry a node lists can be asked for its path |
| BridgeConfigChecks.EntryPathsMembers | tools/check_bridge_config.py:42-45 | a path is checked exactly when some entry names it |
| BridgeConfigChecks.NodePathsMembers | tools/check_bridge_config.py:41-45 | a path is checked exactly when some node's entries name it |
| BridgeConfigChecks.NodePathsNext | tools/check_bridge_config.py:41-42 | one more node adds its entries' paths at the end |
| BridgeConfigChecks.UnresolvedEmpty | tools/check_bridge_config.py:46-49 | nothing is reported exactly when every path resolves to a file |
| BridgeConfigChecks.Reports | tools/check_bridge_config.py:48-70 | one printed line per unresolved path |
| BridgeConfigChecks.ReportsNext | tools/check_bridge_config.py:48-70 | one more unresolved path adds its line at the end |
| BridgeConfigChecks.BridgeNodes | tools/check_bridge_config.py:40-41 | every node of the bridge file can be asked for its entries |
| BridgeConfigChecks.EntryPathsNext | tools/check_bridge_config.py:43-45 | one more entry adds its path, or nothing when it names none |
| BridgeConfigChecks.UnresolvedNext | tools/check_bridge_config.py:46-49 | one more path adds itself with its resolution when that is not a file |
| BridgeConfigChecks.CheckEntries | tools/check_bridge_config.py:42-49 | the inner loop prints one line per entry path that is not a file, in order |
| BridgeConfigChecks.CheckBridgePaths | tools/check_bridge_config.py:37-50 | prints one line per unresolved path, in order; true exactly when every path resolves to a file |
| BridgeConfigChecks.CheckEndpointContainerPaths | tools/check_bridge_config.py:53-72 | returns `ContainerCheck`: load failure, not a list, or the paths' report |
| BridgeConfigChecks.ContainerCheckPasses | tools/check_bridge_config.py:53-72 | the container check passes exactly when the file loads as a list and every path resolves |
| BridgeConfigChecks.ContainerTarget | tools/check_bridge_config.py:103-111 | a container given on the command line is used as is; a message means none is checked |
| BridgeConfigChecks.RunChecks | tools/check_bridge_config.py:75-120 | the exit code and printed lines are `MainOutcome` |
| BridgeConfigChecks.MainLoadFails | tools/check_bridge_config.py:92-94 | a bridge file that does not load exits 1 with at most its load message |
| BridgeConfigChecks.MainPasses | tools/check_bridge_config.py:96-120 | exit 0 exactly when the schema holds, every bridge path resolves, the container is found and passes; and exactly when the last line is the "OK" line |
| BridgeConfigChecks.NoPassedLine | tools/check_bridge_config.py:48-109 | no check prints the "OK" line |
| BridgeConfigChecks.ContainerChoice | tools/check_bridge_config.py:103-111 | an explicit container wins; otherwise a non-empty string `endpoints_config_path` that resolves to a file is used |
| Scenarios.SendCounts | test/transfer_pdu_test.cpp:69-117 | what the policy alone predicts: one count per try, each between the starting count and one more per try |
| Scenarios.TryCountsAreSendCounts | src/transfer_pdu.cpp:34-42 | on an active transfer whose source holds a PDU of an accepted epoch, the destination's send counts after successive `try_transfer` calls are the counts `SendCounts` predicts from the policy alone |
| Scenarios.TryStep | src/transfer_pdu.cpp:34-42 | one try of such a transfer adds one to the destination's count exactly when the policy says yes, and leaves the source's data as it was |
| Scenarios.ImmediateSendsEveryTime | test/transfer_pdu_test.cpp:37-51 | an immediate policy sends on every try |
| Scenarios.ThrottleTestReplay | test/transfer_pdu_test.cpp:69-92 | trying a transfer of a 16-byte epoch-1 PDU under a fresh 100 ms throttle at 0, 0, 50 ms and 100 ms leaves the destination's counts 1, 1, 1, 2 |
| Scenarios.ThrottleCounts | src/policy/throttle_policy.cpp:9-19 | a fresh 100 ms throttle checked at 0, 0, 50 ms and 100 ms says yes at the first and the last check |
| Scenarios.TickerTestReplay | test/transfer_pdu_test.cpp:94-117 | the same transfer under a fresh 100 ms ticker tried at 0, 100, 100 and 200 ms leaves the destination's counts 0, 1, 1, 2 |
| Scenarios.TickerCounts | src/policy/ticker_policy.cpp:9-33 | a fresh 100 ms ticker checked at 0, 100, 100 and 200 ms says yes at the second and the last check |
| Scenarios.Payload | test/transfer_pdu_test.cpp:22-26 | the test payload has the given size and carries the given epoch |
| Scenarios.EpochTestReplay | test/transfer_pdu_test.cpp:37-129 | a PDU of epoch 1 is sent byte for byte under owner epoch 0, dropped under owner epoch 2, and an empty source sends nothing |
| StringOrder.Least | src/bridge_loader.cpp:97 | the least key of a non-empty set, the one `std::map` visits first |
| StringOrder.Total | src/bridge_loader.cpp:97 | the key order is total, so map order is well defined |
| Json.LookupLast | tools/check_bridge_config.py:40-43 | `dict.get` finds a key exactly when present, and the value is that of one of its members |
| Json.DistinctKeys | tools/check_bridge_config.py:41-42 | the keys a dict yields are exactly its members' keys |

## Left out

- The run loop of `BridgeCore::run` (src/bridge_core.cpp:25-38) is modelled as one iteration followed by `stop`. Threads, the atomic flag and the 1 ms sleep are not modelled.
- The daemon, the examples and `bridge_builder` are not part of this model. They only call the loader and the core.
- `RealTimeSource` reads the wall clock. The model takes its reading as a parameter.
- TimeSources.TimeSource.GetSteadyClockTime and TimeSources.TimeSource.Real: `RealTimeSource` (include/hakoniwa/pdu/bridge/real_time_source.hpp:7-25) overrides only `get_microseconds`, not the pure virtual `get_steady_clock_time` (include/hakoniwa/pdu/bridge/time_source.hpp:13). As written it is abstract, and `std::make_shared<RealTimeSource>()` (src/bridge_loader.cpp:86) does not compile. For a `Real` clock the model reuses the virtual clock's time point: the microsecond reading in nanoseconds. That is the behaviour a throttle policy under a real clock sees here.
- All logging to `std::cout`/`std::cerr` is left out. So are the DEBUG and WARNING lines of `transfer` and the warning for a short read; none of them changes state.
- JSON text is not lexed. A config file is a parsed value, a file that does not open, or one that does not parse.
- The `jsonschema` validation of the Python tool is a boolean parameter (`schemaValid`). The schema file itself and the missing-module path are not modelled, and the lines they print are not modelled as messages.
- `pathlib` parent, join, `resolve()` and `is_file()` are functions of an abstract file system.
- The library `Endpoint` class is not part of this model. `MockEndpoint` stands in for it, and the success of `Endpoint::open` on a path is the parameter `canOpen`. Endpoint start, stop and threading are left out. Recv and send errors cannot happen with the mock, so those branches of `transfer` are not reachable in the model.
- The `pdu_definitions` map that `create_bridge_from_config_file` builds and passes to `load` is not modelled, because `load` never reads it.
- TimeSources.TimeSource.AdvanceTime: requires that a virtual clock does not pass 2^64 µs. It does not model the `uint64_t` wrap-around beyond that.
- BridgeLoaders.MakeEndpoints: states which endpoint each id is bound to and that paths get distinct endpoints. It does not state that these endpoints are freshly allocated and empty.
- BridgeLoaders.CreateBridgeFromConfigFile: states the loaded core but not the freshness of the endpoints it made, as for `MakeEndpoints`.
- BridgeCores.BridgeCore.Create: the null check of the constructor is a separate `Create`. The constructor itself requires a clock, since Dafny has no null-throwing constructor.
- The Python tool crashes (`AttributeError`) on some shapes, for example a bridge node that is not a dict, or an `endpoints` that is not iterable. The model does not cover these inputs: the precondition predicates `BridgeShaped`, `NodeShaped`, `PathShaped`, `ContainerShaped` and `MainShaped` exclude them.
- `load_json` catches only a missing file and invalid JSON. Other read errors, such as a permission error or invalid UTF-8, end the script and are not modelled.
- TickerPolicies.TickerPolicy.OnTransferred: requires a positive interval, because with interval 0 the do-while loop of ticker_policy.cpp:29-31 never ends.
- TransferPdus.TransferPdu.TryTransfer, BridgeConnections.BridgeConnection.Step and BridgeCores.BridgeCore.SweepOnce: each requires `Ready()` of every policy it reaches (through `TransferPdu.Within`), so a ticker of interval 0 is outside every sweep, not only `OnTransferred`. The loader refuses such a ticker (see Findings), so no loaded policy is one.
- BridgeTypes.AsInt: JSON numbers are integers in the model. nlohmann's `get<int>` also accepts a floating-point number and truncates it (100.5 becomes 100), and an integer literal too large for 64 bits is parsed as a floating-point number. Neither is modelled.
- ThrottlePolicies.ThrottlePolicy.constructor and ThrottlePolicies.DueAsWritten: src/policy/throttle_policy.cpp:6-7 declares the interval as `std::chrono::milliseconds`, while its header and the loader (src/bridge_loader.cpp:104) pass a count of microseconds. The model takes microseconds, as the header and the loader do. Read with the millisecond type, the interval would be a thousand times longer. The same mismatch, the other way round, is between include/hakoniwa/pdu/bridge/policy/ticker_policy.hpp (milliseconds) and src/policy/ticker_policy.cpp (microseconds); the model follows the .cpp.
- Machine.Le64: the epoch is read as the first eight bytes in little-endian order. The source copies them with `memcpy` into a `uint64_t`, which is host byte order; the model fixes the little-endian hosts the bridge runs on.
- BridgeTypes.DecodeMembers and LoaderPlans.ReadConfig: a parsed JSON object may repeat a key. On such an object `DecodeMembers` keeps the value of the first member with that key and decodes every member, while nlohmann's parser keeps only the last one. On objects with strictly sorted keys (`Json.Canonical`), which the `std::map` of a parsed object always has, the two agree.
- The `uint64_t` additions `now + interval_` and `next_tick_time_ += interval_` of the ticker are unbounded in the model. It does not model their wrap-around past 2^64 µs.

## Findings

| source | as written | input that shows it | evidently intended | confidence | as-written member | corrected member |
|---|---|---|---|---|---|---|
| src/policy/throttle_policy.cpp:7-11 | `last_transfer_time_` starts at `steady_clock::time_point::min()`, and `now - last_transfer_time_` is an `int64` nanosecond subtraction that overflows and wraps negative, so it is never `>= interval_` | a new throttle with a 100 ms interval checked at time 0: the difference wraps to a negative value and the check says no | a throttle that has not transferred yet transfers on its first check: the header declares `has_transferred_`, and the test `ThrottlePolicyTransfersOnInterval` expects one send at time 0 | not executed | ThrottlePolicies.AsWrittenMissesFirstTransfer | ThrottlePolicies.FirstCheckIsDue |
| src/bridge_loader.cpp:105-107 | a ticker entry's `intervalMs` is checked only for presence, so `intervalMs` 0 makes a ticker of interval 0, whose `on_transferred` loop (src/policy/ticker_policy.cpp:29-31) never ends on the first transfer | `{"type": "ticker", "intervalMs": 0}` in `transferPolicies`, then any due transfer under that policy | a ticker needs a positive interval, and the loader refuses one that would get interval 0 as it refuses a missing one | not executed | LoaderPlans.AsWrittenAcceptsZeroTicker | LoaderPlans.PolicyTableServable |
