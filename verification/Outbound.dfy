/** Rewriting the server addresses of a proxy outbound: a JSON tree, the places
    in it that name a remote server, and what a rewrite does to the rest. */
module Outbound {
  import opened Options
  import opened HostPort

  datatype Json =
    | Null
    | Boolean(b: bool)
    | Number(n: real)
    | Text(s: string)
    | List(items: seq<Json>)
    | Object(fields: map<string, Json>)

  type Fields = map<string, Json>

  const WIREGUARD: string := "wireguard"

  predicate IsProxyProtocol(p: string) {
    p !in ["", "freedom", "blackhole", "dns", "loopback"]
  }

  /** A path of object keys and decimal list indices, and the key of the port
      beside the address; empty where the address carries its port itself. */
  datatype Location = Location(path: seq<string>, portKey: string)

  datatype Found = Found(locs: seq<Location>) | Refused

  // ----- reading the tree -----

  function TextAt(fields: Fields, key: string): Option<string> {
    if key in fields && fields[key].Text? then Some(fields[key].s) else None
  }

  /** Absent, or not a list, counts as empty. */
  function ListAt(fields: Fields, key: string): seq<Json> {
    if key in fields && fields[key].List? then fields[key].items else []
  }

  function Descend(node: Json, key: string): Option<Json> {
    match node
    case Object(fields) => if key in fields then Some(fields[key]) else None
    case List(items) =>
      var i := Atoi(key);
      if i.Some? && 0 <= i.value < |items| then Some(items[i.value]) else None
    case _ => None
  }

  function Walk(node: Json, path: seq<string>): Option<Json> {
    if path == [] then Some(node)
    else
      match Descend(node, path[0])
      case None => None
      case Some(next) => Walk(next, path[1..])
  }

  // ----- the locations -----

  /** Whether a list entry names a server under key. */
  predicate Names(entry: Json, key: string) {
    entry.Object? && TextAt(entry.fields, key).Some?
  }

  function EntryLocation(list: string, i: nat, key: string, portKey: string): Location {
    Location(["settings", list, Itoa(i), key], portKey)
  }

  /** The locations among the first n entries of a list. */
  function EntryLocations(list: string, items: seq<Json>, key: string, portKey: string, n: nat): seq<Location>
    requires n <= |items|
  {
    if n == 0 then []
    else EntryLocations(list, items, key, portKey, n - 1) +
         (if Names(items[n - 1], key) then [EntryLocation(list, n - 1, key, portKey)] else [])
  }

  function ListLocations(settings: Fields, list: string, key: string, portKey: string): seq<Location> {
    var items := ListAt(settings, list);
    EntryLocations(list, items, key, portKey, |items|)
  }

  function DirectLocations(settings: Fields): seq<Location> {
    if TextAt(settings, "address").Some? then [Location(["settings", "address"], "port")] else []
  }

  function SettingsLocations(protocol: string, settings: Fields): seq<Location> {
    if protocol == WIREGUARD then ListLocations(settings, "peers", "endpoint", "")
    else
      DirectLocations(settings) + ListLocations(settings, "vnext", "address", "port") +
      ListLocations(settings, "servers", "address", "port")
  }

  function ProtocolOf(root: Fields): string {
    match TextAt(root, "protocol")
    case Some(p) => p
    case None => ""
  }

  function Locations(root: Fields): Found {
    if !IsProxyProtocol(ProtocolOf(root)) || "settings" !in root || !root["settings"].Object? then Refused
    else
      var locs := SettingsLocations(ProtocolOf(root), root["settings"].fields);
      if locs == [] then Refused else Found(locs)
  }

  method CollectEntries(settings: Fields, list: string, key: string, portKey: string) returns (locs: seq<Location>)
    ensures locs == ListLocations(settings, list, key, portKey)
  {
    var entries := ListAt(settings, list);
    locs := [];
    for i := 0 to |entries|
      invariant locs == EntryLocations(list, entries, key, portKey, i)
    {
      var entry := entries[i];
      if entry.Object? {
        if TextAt(entry.fields, key).Some? {
          locs := locs + [EntryLocation(list, i, key, portKey)];
        }
      }
    }
  }

  method OutboundAddressLocations(root: Fields) returns (r: Found)
    ensures r == Locations(root)
  {
    hide ListLocations, TextAt, ProtocolOf, IsProxyProtocol;
    var protocol := ProtocolOf(root);
    if !IsProxyProtocol(protocol) {
      return Refused;
    }
    if "settings" !in root || !root["settings"].Object? {
      return Refused;
    }
    var settings := root["settings"].fields;
    if protocol == WIREGUARD {
      var peers := CollectEntries(settings, "peers", "endpoint", "");
      return if |peers| == 0 then Refused else Found(peers);
    }
    var locs: seq<Location> := [];
    if TextAt(settings, "address").Some? {
      locs := locs + [Location(["settings", "address"], "port")];
    }
    var vnext := CollectEntries(settings, "vnext", "address", "port");
    var servers := CollectEntries(settings, "servers", "address", "port");
    locs := locs + vnext + servers;
    return if |locs| == 0 then Refused else Found(locs);
  }

  // ----- one rewrite -----

  /** The text that replaces an address; port 0 keeps an embedded port. */
  function Endpoint(current: string, portKey: string, ip: string, port: nat): string {
    if portKey != "" then ip
    else if port != 0 then JoinHostPort(ip, Itoa(port))
    else
      match SplitPort(current)
      case Some(embedded) => JoinHostPort(ip, embedded)
      case None => ip
  }

  /** The object around an address after the rewrite. */
  function NewFields(fields: Fields, key: string, portKey: string, ip: string, port: nat): Fields {
    match TextAt(fields, key)
    case None => fields
    case Some(current) =>
      var f := fields[key := Text(Endpoint(current, portKey, ip, port))];
      if portKey != "" && port != 0 then f[portKey := Number(port as real)] else f
  }

  /** The tree with the node that key leads to replaced. */
  function WithChild(node: Json, key: string, child: Json): Json
    requires Descend(node, key).Some?
  {
    match node
    case Object(fields) => Object(fields[key := child])
    case List(items) => List(items[Atoi(key).value := child])
  }

  /** The tree after one location is rewritten; None when it is malformed. */
  function SetAt(node: Json, path: seq<string>, portKey: string, ip: string, port: nat): Option<Json>
    requires path != []
  {
    if |path| == 1 then
      if node.Object? && TextAt(node.fields, path[0]).Some? then
        Some(Object(NewFields(node.fields, path[0], portKey, ip, port)))
      else None
    else
      match Descend(node, path[0])
      case None => None
      case Some(next) =>
        match SetAt(next, path[1..], portKey, ip, port)
        case None => None
        case Some(child) => Some(WithChild(node, path[0], child))
  }

  lemma {:induction false} SetNeedsWalk(node: Json, path: seq<string>, portKey: string, ip: string, port: nat)
    requires path != []
    ensures SetAt(node, path, portKey, ip, port).Some? <==>
            var parent := Walk(node, path[..|path| - 1]);
            parent.Some? && parent.value.Object? && TextAt(parent.value.fields, path[|path| - 1]).Some?
    ensures SetAt(node, path, portKey, ip, port).Some? && node.Object? ==>
            SetAt(node, path, portKey, ip, port).value.Object?
    decreases |path|
  {
    if |path| > 1 {
      assert path[..|path| - 1][0] == path[0];
      assert path[..|path| - 1][1..] == path[1..][..|path| - 2];
      var next := Descend(node, path[0]);
      if next.Some? {
        SetNeedsWalk(next.value, path[1..], portKey, ip, port);
      }
    }
  }

  function SetAll(root: Json, locs: seq<Location>, ip: string, port: nat): Option<Json>
    requires forall k :: 0 <= k < |locs| ==> locs[k].path != []
    decreases |locs|
  {
    if locs == [] then Some(root)
    else
      match SetAt(root, locs[0].path, locs[0].portKey, ip, port)
      case None => None
      case Some(next) => SetAll(next, locs[1..], ip, port)
  }

  // ----- the reference: every server address at once -----

  function RewriteEntry(entry: Json, key: string, portKey: string, ip: string, port: nat): Json {
    if Names(entry, key) then Object(NewFields(entry.fields, key, portKey, ip, port)) else entry
  }

  /** The first n entries rewritten. */
  function RewriteEntries(items: seq<Json>, key: string, portKey: string, ip: string, port: nat, n: nat): (r: seq<Json>)
    requires n <= |items|
    ensures |r| == |items|
    ensures forall i :: 0 <= i < |r| ==> r[i] == if i < n then RewriteEntry(items[i], key, portKey, ip, port)
                                                 else items[i]
  {
    seq(|items|, i requires 0 <= i < |items| => if i < n then RewriteEntry(items[i], key, portKey, ip, port)
                                                else items[i])
  }

  function RewriteList(settings: Fields, list: string, key: string, portKey: string, ip: string, port: nat): Fields {
    if list in settings && settings[list].List? then
      var items := settings[list].items;
      settings[list := List(RewriteEntries(items, key, portKey, ip, port, |items|))]
    else settings
  }

  function RewriteSettings(protocol: string, settings: Fields, ip: string, port: nat): Fields {
    if protocol == WIREGUARD then RewriteList(settings, "peers", "endpoint", "", ip, port)
    else
      var direct := NewFields(settings, "address", "port", ip, port);
      RewriteList(RewriteList(direct, "vnext", "address", "port", ip, port), "servers", "address", "port", ip, port)
  }

  function Rewrite(root: Fields, ip: string, port: nat): Fields
    requires Locations(root).Found?
  {
    root["settings" := Object(RewriteSettings(ProtocolOf(root), root["settings"].fields, ip, port))]
  }
}
