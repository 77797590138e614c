/** The config checker `check_bridge_config.py`: it loads a bridge file,
    checks that every endpoint `config_path` it names exists next to it,
    finds the endpoint container (given on the command line or named by
    `endpoints_config_path`) and checks the container's paths the same way.
    Schema validation is an input (`schemaValid`); the file system is the
    `FileSystem` value: what reading, `Path.parent`, `resolve` and
    `is_file` give. Python's dict lookups, iteration and truthiness are
    written out; inputs on which the script would raise (`.get` on a
    non-dict, iterating a number) are excluded by the `...Shaped`
    predicates, which say what the script assumes. */
module BridgeConfigChecks {
  import opened Wrappers
  import opened Json

  /** `json.loads(path.read_text())`: no such file, text that is not JSON,
      or the decoded value. */
  datatype JsonFile = FileMissing | NotJson | Decoded(value: Json)

  datatype FileSystem = FileSystem(
    read: string -> JsonFile,
    parent: string -> string,
    resolve: (string, string) -> string,
    isFile: string -> bool)

  /** What the script prints, one value per line. */
  datatype Message =
    | FileNotFound(path: string)
    | InvalidJson(path: string)
    | EndpointPathNotFound(configPath: string, resolved: string)
    | ContainerNotList
    | ContainerPathNotFound(configPath: string, resolved: string)
    | EndpointsConfigPathNotFound(configPath: string, resolved: string)
    | Passed

  // ---------------------------------------------------------------------
  // Python on JSON values

  /** `load_json`: `None` with a message when the file is missing or not
      JSON, and also, silently, when the file holds JSON `null`. */
  function LoadJson(fs: FileSystem, path: string): (r: (Option<Json>, seq<Message>))
    ensures r.0.Some? <==> fs.read(path).Decoded? && fs.read(path).value != JNull
    ensures r.0.Some? ==> r.0.value == fs.read(path).value && r.1 == []
    ensures fs.read(path) == FileMissing ==> r.1 == [FileNotFound(path)]
    ensures fs.read(path) == NotJson ==> r.1 == [InvalidJson(path)]
    ensures fs.read(path).Decoded? ==> r.1 == []
  {
    match fs.read(path)
    case FileMissing => (None, [FileNotFound(path)])
    case NotJson => (None, [InvalidJson(path)])
    case Decoded(v) => (if v == JNull then None else Some(v), [])
  }

  /** Values a `for` loop can walk over. */
  predicate Iterable(j: Json) {
    j.JArray? || j.JObject? || j.JString?
  }

  /** `for x in j`: a list's items, a dict's keys, a string's characters. */
  function Iterate(j: Json): (r: seq<Json>)
    requires Iterable(j)
    ensures j.JArray? ==> r == j.items
    ensures !j.JArray? ==> forall i | 0 <= i < |r| :: r[i].JString?
  {
    match j
    case JArray(items) => items
    case JObject(members) =>
      var keys := DistinctKeys(members);
      seq(|keys|, i requires 0 <= i < |keys| => JString(keys[i]))
    case JString(s) => seq(|s|, i requires 0 <= i < |s| => JString([s[i]]))
  }

  /** `x.get("endpoints", [])` on a dict. */
  function EndpointsField(j: Json): Json
    requires j.JObject?
  {
    Get(j, "endpoints", JArray([]))
  }

  /** An entry whose `config_path`, when truthy, is a string. */
  predicate PathShaped(ep: Json) {
    ep.JObject? ==>
      var v := LookupLast(ep.members, "config_path");
      v.Some? && Truthy(v.value) ==> v.value.JString?
  }

  /** The path an entry names: none for a non-dict entry, a missing key or a
      falsy value (`if not config_path: continue`). */
  function EntryPath(ep: Json): (r: Option<string>)
    requires PathShaped(ep)
    ensures r.Some? ==> r.value != "" && ep.JObject? && LookupLast(ep.members, "config_path") == Some(JString(r.value))
    ensures r.None? ==> !ep.JObject? || LookupLast(ep.members, "config_path").None?
                        || !Truthy(LookupLast(ep.members, "config_path").value)
  {
    if !ep.JObject? then None
    else
      var v := LookupLast(ep.members, "config_path");
      if v.None? || !Truthy(v.value) then None else Some(v.value.s)
  }

  /** The entries a node lists: none for a non-dict node. */
  predicate NodeShaped(node: Json) {
    node.JObject? ==> Iterable(EndpointsField(node))
                      && forall k | 0 <= k < |Iterate(EndpointsField(node))| :: PathShaped(Iterate(EndpointsField(node))[k])
  }

  function NodeEntries(node: Json): (r: seq<Json>)
    requires NodeShaped(node)
    ensures forall k | 0 <= k < |r| :: PathShaped(r[k])
  {
    if node.JObject? then Iterate(EndpointsField(node)) else []
  }

  /** The paths the entries name, in order. */
  function EntryPaths(entries: seq<Json>): (r: seq<string>)
    requires forall k | 0 <= k < |entries| :: PathShaped(entries[k])
    decreases |entries|
  {
    if entries == [] then []
    else
      var last := entries[|entries| - 1];
      var init := EntryPaths(entries[..|entries| - 1]);
      match EntryPath(last)
      case Some(p) => init + [p]
      case None => init
  }

  /** The paths the nodes' entries name, node by node. */
  function NodePaths(nodes: seq<Json>): (r: seq<string>)
    requires forall i | 0 <= i < |nodes| :: NodeShaped(nodes[i])
    decreases |nodes|
  {
    if nodes == [] then []
    else NodePaths(nodes[..|nodes| - 1]) + EntryPaths(NodeEntries(nodes[|nodes| - 1]))
  }

  lemma {:induction false} EntryPathsMembers(entries: seq<Json>, p: string)
    requires forall k | 0 <= k < |entries| :: PathShaped(entries[k])
    ensures p in EntryPaths(entries) <==> exists k | 0 <= k < |entries| :: EntryPath(entries[k]) == Some(p)
    decreases |entries|
  {
    if entries != [] {
      var init := entries[..|entries| - 1];
      EntryPathsMembers(init, p);
      assert forall k | 0 <= k < |init| :: init[k] == entries[k];
    }
  }

  /** The checked paths are those of the nodes, each node's being the
      non-empty `config_path`s of its entries (`EntryPathsMembers`). */
  lemma {:induction false} NodePathsMembers(nodes: seq<Json>, p: string)
    requires forall i | 0 <= i < |nodes| :: NodeShaped(nodes[i])
    ensures p in NodePaths(nodes) <==> exists i | 0 <= i < |nodes| :: p in EntryPaths(NodeEntries(nodes[i]))
    decreases |nodes|
  {
    if nodes != [] {
      var init := nodes[..|nodes| - 1];
      NodePathsMembers(init, p);
      assert forall i | 0 <= i < |init| :: init[i] == nodes[i];
    }
  }

  lemma NodePathsNext(nodes: seq<Json>, i: nat)
    requires forall j | 0 <= j < |nodes| :: NodeShaped(nodes[j])
    requires i < |nodes|
    ensures NodePaths(nodes[..i + 1]) == NodePaths(nodes[..i]) + EntryPaths(NodeEntries(nodes[i]))
  {
    assert nodes[..i + 1][..i] == nodes[..i];
  }

  // ---------------------------------------------------------------------
  // Reports

  /** The paths among `paths` that do not resolve to a file, with what
      they resolved to, in order. */
  function Unresolved(fs: FileSystem, base: string, paths: seq<string>): (r: seq<(string, string)>)
    decreases |paths|
  {
    if paths == [] then []
    else
      var init := Unresolved(fs, base, paths[..|paths| - 1]);
      var p := paths[|paths| - 1];
      var resolved := fs.resolve(base, p);
      if fs.isFile(resolved) then init else init + [(p, resolved)]
  }

  /** Nothing is reported exactly when every path resolves to a file. */
  lemma {:induction false} UnresolvedEmpty(fs: FileSystem, base: string, paths: seq<string>)
    ensures Unresolved(fs, base, paths) == [] <==> forall i | 0 <= i < |paths| :: fs.isFile(fs.resolve(base, paths[i]))
    decreases |paths|
  {
    if paths != [] {
      var init := paths[..|paths| - 1];
      UnresolvedEmpty(fs, base, init);
      assert forall i | 0 <= i < |init| :: init[i] == paths[i];
    }
  }

  /** The line printed for a path that is not found. */
  function NotFound(inContainer: bool, u: (string, string)): Message {
    if inContainer then ContainerPathNotFound(u.0, u.1) else EndpointPathNotFound(u.0, u.1)
  }

  function Reports(inContainer: bool, us: seq<(string, string)>): (r: seq<Message>)
    ensures |r| == |us|
  {
    seq(|us|, i requires 0 <= i < |us| => NotFound(inContainer, us[i]))
  }

  lemma ReportsNext(inContainer: bool, us: seq<(string, string)>, u: (string, string))
    ensures Reports(inContainer, us + [u]) == Reports(inContainer, us) + [NotFound(inContainer, u)]
  {
  }

  // ---------------------------------------------------------------------
  // check_bridge_paths

  /** What `check_bridge_paths` assumes of the bridge file: a dict whose
      `endpoints` lists dicts whose own `endpoints` list dicts. */
  predicate BridgeShaped(config: Json) {
    config.JObject? && Iterable(EndpointsField(config))
    && forall i | 0 <= i < |Iterate(EndpointsField(config))| ::
         var node := Iterate(EndpointsField(config))[i];
         node.JObject? && NodeShaped(node)
         && forall k | 0 <= k < |NodeEntries(node)| :: NodeEntries(node)[k].JObject?
  }

  function BridgeNodes(config: Json): (r: seq<Json>)
    requires BridgeShaped(config)
    ensures forall i | 0 <= i < |r| :: NodeShaped(r[i])
  {
    Iterate(EndpointsField(config))
  }

  /** The paths `check_bridge_paths` checks, in order. */
  function BridgePaths(config: Json): seq<string>
    requires BridgeShaped(config)
  {
    NodePaths(BridgeNodes(config))
  }

  lemma EntryPathsNext(entries: seq<Json>, k: nat, done: seq<string>)
    requires forall i | 0 <= i < |entries| :: PathShaped(entries[i])
    requires k < |entries|
    ensures EntryPath(entries[k]).Some? ==>
              done + EntryPaths(entries[..k + 1]) == done + EntryPaths(entries[..k]) + [EntryPath(entries[k]).value]
    ensures EntryPath(entries[k]).None? ==> done + EntryPaths(entries[..k + 1]) == done + EntryPaths(entries[..k])
  {
    assert entries[..k + 1][..k] == entries[..k];
  }

  lemma UnresolvedNext(fs: FileSystem, base: string, seen: seq<string>, p: string)
    ensures Unresolved(fs, base, seen + [p])
            == Unresolved(fs, base, seen) + (if fs.isFile(fs.resolve(base, p)) then [] else [(p, fs.resolve(base, p))])
  {
    assert (seen + [p])[..|seen|] == seen;
  }

  /** Collects the entries' missing paths after `done`. */
  method CheckEntries(fs: FileSystem, base: string, entries: seq<Json>, inContainer: bool, ghost done: seq<string>,
                      out0: seq<Message>)
    returns (out: seq<Message>)
    requires forall k | 0 <= k < |entries| :: PathShaped(entries[k])
    requires out0 == Reports(inContainer, Unresolved(fs, base, done))
    ensures out == Reports(inContainer, Unresolved(fs, base, done + EntryPaths(entries)))
  {
    out := out0;
    var k := 0;
    assert done + EntryPaths(entries[..0]) == done;
    while k < |entries|
      invariant 0 <= k <= |entries|
      invariant out == Reports(inContainer, Unresolved(fs, base, done + EntryPaths(entries[..k])))
    {
      var p := EntryPath(entries[k]);
      EntryPathsNext(entries, k, done);
      if p.Some? {
        var resolved := fs.resolve(base, p.value);
        UnresolvedNext(fs, base, done + EntryPaths(entries[..k]), p.value);
        if !fs.isFile(resolved) {
          ReportsNext(inContainer, Unresolved(fs, base, done + EntryPaths(entries[..k])), (p.value, resolved));
          out := out + [NotFound(inContainer, (p.value, resolved))];
        }
      }
      k := k + 1;
    }
    assert entries[..k] == entries;
  }

  /** `check_bridge_paths`: every named path, resolved against the bridge
      file's directory, must be a file; each one that is not is reported
      and the walk goes on. */
  method CheckBridgePaths(fs: FileSystem, bridgePath: string, config: Json) returns (ok: bool, out: seq<Message>)
    requires BridgeShaped(config)
    ensures out == Reports(false, Unresolved(fs, fs.parent(bridgePath), BridgePaths(config)))
    ensures ok <==> forall p | p in BridgePaths(config) :: fs.isFile(fs.resolve(fs.parent(bridgePath), p))
  {
    var base := fs.parent(bridgePath);
    var nodes := BridgeNodes(config);
    out := [];
    var i := 0;
    while i < |nodes|
      invariant 0 <= i <= |nodes|
      invariant out == Reports(false, Unresolved(fs, base, NodePaths(nodes[..i])))
    {
      NodePathsNext(nodes, i);
      out := CheckEntries(fs, base, NodeEntries(nodes[i]), false, NodePaths(nodes[..i]), out);
      i := i + 1;
    }
    assert nodes[..i] == nodes;
    ok := out == [];
    UnresolvedEmpty(fs, base, BridgePaths(config));
  }

  // ---------------------------------------------------------------------
  // check_endpoint_container_paths

  /** What the container check assumes of a list it loaded. */
  predicate ContainerShaped(nodes: seq<Json>) {
    forall i | 0 <= i < |nodes| :: NodeShaped(nodes[i])
  }

  predicate ContainerFileShaped(fs: FileSystem, path: string) {
    var data := LoadJson(fs, path).0;
    data.Some? && data.value.JArray? ==> ContainerShaped(data.value.items)
  }

  /** `check_endpoint_container_paths`, as a value: a load failure or a
      non-list fails before any entry is looked at; otherwise the paths of
      the dict nodes' dict entries, resolved against the container's own
      directory. */
  function ContainerCheck(fs: FileSystem, path: string): (bool, seq<Message>)
    requires ContainerFileShaped(fs, path)
  {
    var (data, m) := LoadJson(fs, path);
    if data.None? then (false, m)
    else if !data.value.JArray? then (false, [ContainerNotList])
    else
      var us := Unresolved(fs, fs.parent(path), NodePaths(data.value.items));
      (us == [], Reports(true, us))
  }

  method CheckEndpointContainerPaths(fs: FileSystem, path: string) returns (ok: bool, out: seq<Message>)
    requires ContainerFileShaped(fs, path)
    ensures (ok, out) == ContainerCheck(fs, path)
  {
    var base := fs.parent(path);
    var (data, m) := LoadJson(fs, path);
    if data.None? {
      return false, m;
    }
    if !data.value.JArray? {
      return false, [ContainerNotList];
    }
    var nodes := data.value.items;
    out := [];
    var i := 0;
    while i < |nodes|
      invariant 0 <= i <= |nodes|
      invariant out == Reports(true, Unresolved(fs, base, NodePaths(nodes[..i])))
    {
      NodePathsNext(nodes, i);
      out := CheckEntries(fs, base, NodeEntries(nodes[i]), true, NodePaths(nodes[..i]), out);
      i := i + 1;
    }
    assert nodes[..i] == nodes;
    ok := out == [];
  }

  /** The container check passes exactly when the file loads as a list and
      every path its dict entries name resolves to a file. */
  lemma ContainerCheckPasses(fs: FileSystem, path: string)
    requires ContainerFileShaped(fs, path)
    ensures var data := LoadJson(fs, path).0;
            ContainerCheck(fs, path).0 <==>
              data.Some? && data.value.JArray?
              && forall p | p in NodePaths(data.value.items) :: fs.isFile(fs.resolve(fs.parent(path), p))
  {
    var data := LoadJson(fs, path).0;
    if data.Some? && data.value.JArray? {
      UnresolvedEmpty(fs, fs.parent(path), NodePaths(data.value.items));
    }
  }

  // ---------------------------------------------------------------------
  // main

  /** Which container `main` checks: the one given on the command line, or
      else a non-empty string `endpoints_config_path` resolved against the
      bridge file's directory, provided it is a file (else it is reported
      and no container is checked). */
  function ContainerTarget(fs: FileSystem, bridgePath: string, data: Json, explicit: Option<string>)
    : (r: (Option<string>, seq<Message>))
    requires data.JObject?
    ensures explicit.Some? ==> r == (explicit, [])
    ensures r.1 != [] ==> r.0.None?
  {
    if explicit.Some? then (explicit, [])
    else
      var ecp := LookupLast(data.members, "endpoints_config_path");
      if ecp.Some? && ecp.value.JString? && ecp.value.s != "" then
        var resolved := fs.resolve(fs.parent(bridgePath), ecp.value.s);
        if fs.isFile(resolved) then (Some(resolved), [])
        else (None, [EndpointsConfigPathNotFound(ecp.value.s, resolved)])
      else (None, [])
  }

  /** What `main` assumes of the files it reads. */
  predicate MainShaped(fs: FileSystem, bridgePath: string, explicit: Option<string>) {
    var data := LoadJson(fs, bridgePath).0;
    data.Some? ==>
      BridgeShaped(data.value)
      && var target := ContainerTarget(fs, bridgePath, data.value, explicit).0;
         target.Some? ==> ContainerFileShaped(fs, target.value)
  }

  /** `main`, as a value: the exit code and the printed lines. */
  function MainOutcome(fs: FileSystem, bridgePath: string, explicit: Option<string>, schemaValid: bool)
    : (int, seq<Message>)
    requires MainShaped(fs, bridgePath, explicit)
  {
    var (data, m) := LoadJson(fs, bridgePath);
    if data.None? then (1, m)
    else
      var bridge := Unresolved(fs, fs.parent(bridgePath), BridgePaths(data.value));
      var (target, tm) := ContainerTarget(fs, bridgePath, data.value, explicit);
      var (cok, cm) := if target.Some? then ContainerCheck(fs, target.value) else (true, []);
      var ok := schemaValid && bridge == [] && tm == [] && cok;
      var lines := Reports(false, bridge) + tm + cm;
      if ok then (0, lines + [Passed]) else (1, lines)
  }

  /** `main`: no check runs when the bridge file does not load; otherwise
      every check runs and any failure makes the exit code 1. */
  method RunChecks(fs: FileSystem, bridgePath: string, explicit: Option<string>, schemaValid: bool)
    returns (code: int, out: seq<Message>)
    requires MainShaped(fs, bridgePath, explicit)
    ensures (code, out) == MainOutcome(fs, bridgePath, explicit, schemaValid)
  {
    var (data, m) := LoadJson(fs, bridgePath);
    if data.None? {
      return 1, m;
    }
    var ok := true;
    if !schemaValid {
      ok := false;
    }
    var bridgeOk, bridgeOut := CheckBridgePaths(fs, bridgePath, data.value);
    UnresolvedEmpty(fs, fs.parent(bridgePath), BridgePaths(data.value));
    if !bridgeOk {
      ok := false;
    }
    var (target, tm) := ContainerTarget(fs, bridgePath, data.value, explicit);
    if tm != [] {
      ok := false;
    }
    var containerOut := [];
    if target.Some? {
      var containerOk;
      containerOk, containerOut := CheckEndpointContainerPaths(fs, target.value);
      if !containerOk {
        ok := false;
      }
    }
    out := bridgeOut + tm + containerOut;
    if ok {
      code := 0;
      out := out + [Passed];
    } else {
      code := 1;
    }
  }

  /** A bridge file that does not load ends the run with code 1 and only
      `load_json`'s message. */
  lemma MainLoadFails(fs: FileSystem, bridgePath: string, explicit: Option<string>, schemaValid: bool)
    requires MainShaped(fs, bridgePath, explicit)
    requires !fs.read(bridgePath).Decoded? || fs.read(bridgePath).value == JNull
    ensures MainOutcome(fs, bridgePath, explicit, schemaValid).0 == 1
    ensures MainOutcome(fs, bridgePath, explicit, schemaValid).1 == LoadJson(fs, bridgePath).1
    ensures |MainOutcome(fs, bridgePath, explicit, schemaValid).1| <= 1
  {
  }

  /** The exit code is 0, and "OK" is the last line, exactly when the
      schema holds, every bridge path is a file, a named
      `endpoints_config_path` exists, and the chosen container passes. */
  lemma MainPasses(fs: FileSystem, bridgePath: string, explicit: Option<string>, schemaValid: bool)
    requires MainShaped(fs, bridgePath, explicit)
    requires fs.read(bridgePath).Decoded? && fs.read(bridgePath).value != JNull
    ensures var data := fs.read(bridgePath).value;
            var (target, tm) := ContainerTarget(fs, bridgePath, data, explicit);
            var outcome := MainOutcome(fs, bridgePath, explicit, schemaValid);
            (outcome.0 == 0 <==>
               schemaValid
               && (forall p | p in BridgePaths(data) :: fs.isFile(fs.resolve(fs.parent(bridgePath), p)))
               && tm == []
               && (target.Some? ==> ContainerCheck(fs, target.value).0))
            && (outcome.0 == 0 <==> |outcome.1| > 0 && outcome.1[|outcome.1| - 1] == Passed)
  {
    var data := fs.read(bridgePath).value;
    UnresolvedEmpty(fs, fs.parent(bridgePath), BridgePaths(data));
    var (target, tm) := ContainerTarget(fs, bridgePath, data, explicit);
    var outcome := MainOutcome(fs, bridgePath, explicit, schemaValid);
    if outcome.0 != 0 && |outcome.1| > 0 {
      var bridge := Unresolved(fs, fs.parent(bridgePath), BridgePaths(data));
      var cm := if target.Some? then ContainerCheck(fs, target.value).1 else [];
      assert outcome.1 == Reports(false, bridge) + tm + cm;
      NoPassedLine(fs, bridge, tm, cm, target, bridgePath, data, explicit);
    }
  }

  /** None of the checks prints "OK". */
  lemma NoPassedLine(fs: FileSystem, bridge: seq<(string, string)>, tm: seq<Message>, cm: seq<Message>,
                     target: Option<string>, bridgePath: string, data: Json, explicit: Option<string>)
    requires data.JObject?
    requires (target, tm) == ContainerTarget(fs, bridgePath, data, explicit)
    requires target.Some? ==> ContainerFileShaped(fs, target.value) && cm == ContainerCheck(fs, target.value).1
    requires target.None? ==> cm == []
    ensures forall i | 0 <= i < |Reports(false, bridge) + tm + cm| :: (Reports(false, bridge) + tm + cm)[i] != Passed
  {
    var all := Reports(false, bridge) + tm + cm;
    forall i | 0 <= i < |all| ensures all[i] != Passed {
      var rs := Reports(false, bridge);
      if i < |rs| {
        assert all[i] == NotFound(false, bridge[i]);
      } else if i < |rs| + |tm| {
        assert all[i] == tm[i - |rs|];
      } else {
        assert all[i] == cm[i - |rs| - |tm|];
      }
    }
  }

  /** A container given on the command line is checked whatever
      `endpoints_config_path` says; without one, a missing or empty
      `endpoints_config_path` means no container check and no error. */
  lemma ContainerChoice(fs: FileSystem, bridgePath: string, data: Json, explicit: Option<string>)
    requires data.JObject?
    ensures explicit.Some? ==> ContainerTarget(fs, bridgePath, data, explicit) == (explicit, [])
    ensures explicit.None? && (var ecp := LookupLast(data.members, "endpoints_config_path");
                               ecp.None? || !ecp.value.JString? || ecp.value.s == "") ==>
              ContainerTarget(fs, bridgePath, data, explicit) == (None, [])
    ensures ContainerTarget(fs, bridgePath, data, explicit).0.Some? && explicit.None? ==>
              fs.isFile(ContainerTarget(fs, bridgePath, data, explicit).0.value)
  {
  }
}
