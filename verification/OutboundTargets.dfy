/** What a rewrite writes at each listed location, and what a second rewrite
    finds there: lemmas for one object, one entry, one list and the three parts
    of the settings, which do not disturb each other. */
module OutboundTargets {
  import opened Options
  import opened HostPort
  import opened Outbound
  import opened OutboundSteps

  // ----- every location gets the target -----

  lemma {:induction false} EntryLocationsHave(list: string, items: seq<Json>, key: string, portKey: string, n: nat,
                                              loc: Location)
    requires n <= |items|
    ensures loc in EntryLocations(list, items, key, portKey, n) <==>
            exists i :: 0 <= i < n && Names(items[i], key) && loc == EntryLocation(list, i, key, portKey)
  {
    hide EntryLocation, Names;
    if n > 0 {
      EntryLocationsHave(list, items, key, portKey, n - 1, loc);
    }
  }

  lemma WalkKey(node: Json, k: string)
    ensures Walk(node, [k]) == Descend(node, k)
  {
    hide Descend;
    assert [k][0] == k && [k][1..] == [];
    match Descend(node, k) {
      case None =>
      case Some(next) => assert Walk(next, []) == Some(next);
    }
  }

  lemma WalkDown(node: Json, k: string, rest: seq<string>)
    requires Descend(node, k).Some?
    ensures Walk(node, [k] + rest) == Walk(Descend(node, k).value, rest)
  {
    hide Descend;
    var path := [k] + rest;
    assert path[0] == k && path[1..] == rest;
  }

  lemma WalkSetting(root: Fields, settings: Fields, k: string)
    requires Rooted(root, settings)
    ensures Walk(Object(root), ["settings", k]) == Descend(Object(settings), k)
  {
    assert Descend(Object(root), "settings") == Some(Object(settings));
    hide Descend, Walk;
    assert ["settings"] + [k] == ["settings", k];
    WalkDown(Object(root), "settings", [k]);
    WalkKey(Object(settings), k);
  }

  lemma WalkEntry(root: Fields, settings: Fields, list: string, i: nat, k: string)
    requires Rooted(root, settings) && list in settings && settings[list].List? && i < |settings[list].items|
    ensures Walk(Object(root), ["settings", list, Itoa(i), k]) == Descend(settings[list].items[i], k)
  {
    AtoiItoa(i);
    hide Atoi, Itoa;
    assert Descend(Object(root), "settings") == Some(Object(settings));
    assert Descend(Object(settings), list) == Some(settings[list]);
    assert Descend(settings[list], Itoa(i)) == Some(settings[list].items[i]);
    hide Descend, Walk;
    assert [Itoa(i)] + [k] == [Itoa(i), k];
    assert [list] + [Itoa(i), k] == [list, Itoa(i), k];
    assert ["settings"] + [list, Itoa(i), k] == ["settings", list, Itoa(i), k];
    WalkDown(Object(root), "settings", [list, Itoa(i), k]);
    WalkDown(Object(settings), list, [Itoa(i), k]);
    WalkDown(settings[list], Itoa(i), [k]);
    WalkKey(settings[list].items[i], k);
  }

  /** A text of host and port; a host with colons stands in brackets. */
  predicate HostAndPort(t: string, host: string, port: string) {
    if ':' in host then t == "[" + host + "]:" + port else t == host + ":" + port
  }

  /** What the text of an address becomes. Where the port has a key of its own,
      it is the target address; otherwise the target with its port or, if it
      names none, with the port that the old text had. */
  predicate Replaces(was: string, text: string, portKey: string, ip: string, port: nat) {
    if portKey != "" then text == ip
    else if port != 0 then HostAndPort(text, ip, Itoa(port))
    else
      match SplitHostPort(was)
      case Some(parts) => HostAndPort(text, ip, parts.1)
      case None => text == ip
  }

  /** The address text of a location, and the port beside it. */
  ghost predicate Targeted(before: Json, after: Json, loc: Location, ip: string, port: nat) {
    && loc.path != []
    && Walk(before, loc.path).Some? && Walk(before, loc.path).value.Text?
    && Walk(after, loc.path).Some? && Walk(after, loc.path).value.Text?
    && Replaces(Walk(before, loc.path).value.s, Walk(after, loc.path).value.s, loc.portKey, ip, port)
    && (loc.portKey != "" && port != 0 ==>
          Walk(after, loc.path[..|loc.path| - 1] + [loc.portKey]) == Some(Number(port as real)))
  }

  lemma EndpointReplaces(was: string, portKey: string, ip: string, port: nat)
    ensures Replaces(was, Endpoint(was, portKey, ip, port), portKey, ip, port)
  {
    hide SplitHostPort, Itoa;
  }

  /** Read as host and port, the new text has the target host, and the port of
      the target or the old one; a target without brackets is read in full. */
  lemma ReplacedParts(was: string, text: string, ip: string, port: nat)
    requires Replaces(was, text, "", ip, port) && NoBrackets(ip)
    ensures port != 0 ==> SplitHostPort(text) == Some((ip, Itoa(port)))
    ensures port == 0 && SplitHostPort(was).Some? ==> SplitHostPort(text) == Some((ip, SplitHostPort(was).value.1))
    ensures port == 0 && SplitHostPort(was).None? ==> text == ip
  {
    SplitPortText(was);
    PortDigits(port);
    hide SplitHostPort, Itoa;
    SplitMeaning(text, ip, Itoa(port));
    if SplitHostPort(was).Some? {
      SplitMeaning(text, ip, SplitHostPort(was).value.1);
    }
  }

  lemma EntryTargeted(root: Fields, root1: Fields, settings: Fields, settings1: Fields, list: string, i: nat,
                      key: string, portKey: string, ip: string, port: nat)
    requires Rooted(root, settings) && Rooted(root1, settings1) && key != portKey
    requires list in settings && settings[list].List? && i < |settings[list].items|
    requires Names(settings[list].items[i], key)
    requires list in settings1 && settings1[list].List? && |settings1[list].items| == |settings[list].items|
    requires settings1[list].items[i] == RewriteEntry(settings[list].items[i], key, portKey, ip, port)
    ensures Targeted(Object(root), Object(root1), EntryLocation(list, i, key, portKey), ip, port)
  {
    WalkEntry(root, settings, list, i, key);
    WalkEntry(root1, settings1, list, i, key);
    WalkEntry(root1, settings1, list, i, portKey);
    var loc := EntryLocation(list, i, key, portKey);
    assert loc.path[..|loc.path| - 1] + [portKey] == ["settings", list, Itoa(i), portKey];
    EndpointReplaces(settings[list].items[i].fields[key].s, portKey, ip, port);
    hide Walk, Endpoint, Itoa, Replaces;
  }

  lemma ListTargeted(root: Fields, root1: Fields, settings: Fields, settings1: Fields, list: string, key: string,
                     portKey: string, ip: string, port: nat, loc: Location)
    requires Rooted(root, settings) && Rooted(root1, settings1) && key != portKey
    requires ListAt(settings1, list) == ListAt(RewriteList(settings, list, key, portKey, ip, port), list)
    requires loc in ListLocations(settings, list, key, portKey)
    ensures Targeted(Object(root), Object(root1), loc, ip, port)
  {
    var items := ListAt(settings, list);
    EntryLocationsHave(list, items, key, portKey, |items|, loc);
    var i :| 0 <= i < |items| && Names(items[i], key) && loc == EntryLocation(list, i, key, portKey);
    hide EntryLocations, Names, RewriteEntry, Targeted;
    EntryTargeted(root, root1, settings, settings1, list, i, key, portKey, ip, port);
  }

  lemma DirectTargeted(root: Fields, root1: Fields, settings: Fields, settings1: Fields, ip: string, port: nat)
    requires Rooted(root, settings) && Rooted(root1, settings1) && TextAt(settings, "address").Some?
    requires TextAt(settings1, "address") == TextAt(NewFields(settings, "address", "port", ip, port), "address")
    requires port != 0 ==> "port" in settings1 && settings1["port"] == Number(port as real)
    ensures Targeted(Object(root), Object(root1), Location(["settings", "address"], "port"), ip, port)
  {
    WalkSetting(root, settings, "address");
    WalkSetting(root1, settings1, "address");
    WalkSetting(root1, settings1, "port");
    assert ["settings", "address"][..1] + ["port"] == ["settings", "port"];
    EndpointReplaces(settings["address"].s, "port", ip, port);
    hide Walk, Replaces;
  }

  lemma ServerTargeted(root: Fields, root1: Fields, settings: Fields, settings1: Fields, ip: string, port: nat,
                       loc: Location)
    requires Rooted(root, settings) && Rooted(root1, settings1)
    requires var direct := NewFields(settings, "address", "port", ip, port);
             var vnext := RewriteList(direct, "vnext", "address", "port", ip, port);
             settings1 == RewriteList(vnext, "servers", "address", "port", ip, port)
    requires loc in DirectLocations(settings) || loc in ListLocations(settings, "vnext", "address", "port") ||
             loc in ListLocations(settings, "servers", "address", "port")
    ensures Targeted(Object(root), Object(root1), loc, ip, port)
  {
    var direct := NewFields(settings, "address", "port", ip, port);
    var vnext := RewriteList(direct, "vnext", "address", "port", ip, port);
    ServerParts(settings, ip, port);
    hide Targeted, ListLocations, RewriteList, NewFields, TextAt;
    if loc in DirectLocations(settings) {
      DirectTargeted(root, root1, settings, settings1, ip, port);
    } else if loc in ListLocations(settings, "vnext", "address", "port") {
      ListTargeted(root, root1, settings, settings1, "vnext", "address", "port", ip, port, loc);
    } else {
      ListTargeted(root, root1, settings, settings1, "servers", "address", "port", ip, port, loc);
    }
  }

  /** The three parts of the settings do not disturb each other. */
  lemma ServerParts(settings: Fields, ip: string, port: nat)
    ensures var direct := NewFields(settings, "address", "port", ip, port);
            var vnext := RewriteList(direct, "vnext", "address", "port", ip, port);
            var servers := RewriteList(vnext, "servers", "address", "port", ip, port);
            && TextAt(servers, "address") == TextAt(direct, "address")
            && (TextAt(settings, "address").Some? && port != 0 ==>
               "port" in servers && servers["port"] == Number(port as real))
            && ListAt(servers, "vnext") == ListAt(RewriteList(settings, "vnext", "address", "port", ip, port), "vnext")
            && ListAt(servers, "servers") ==
               ListAt(RewriteList(settings, "servers", "address", "port", ip, port), "servers")
  {
    hide RewriteEntries, Endpoint;
  }

  // ----- a second rewrite -----

  /** A second rewrite of one object overwrites the first; its port 0 keeps the
      port the first one set. */
  lemma NewFieldsTwice(fields: Fields, key: string, portKey: string, ip: string, port: nat, ip2: string, port2: nat)
    requires HostText(ip) && key != portKey
    ensures NewFields(NewFields(fields, key, portKey, ip, port), key, portKey, ip2, port2)
         == NewFields(fields, key, portKey, ip2, if port2 != 0 then port2 else port)
  {
    var current := TextAt(fields, key);
    if current.Some? {
      EndpointTwice(current.value, portKey, ip, port, ip2, port2);
      hide Endpoint;
    }
  }

  lemma EndpointTwice(current: string, portKey: string, ip: string, port: nat, ip2: string, port2: nat)
    requires HostText(ip)
    ensures Endpoint(Endpoint(current, portKey, ip, port), portKey, ip2, port2)
         == Endpoint(current, portKey, ip2, if port2 != 0 then port2 else port)
  {
    PortDigits(port);
    SplitJoined(ip, Itoa(port));
    NoPortInAddress(ip);
    SplitPortText(current);
    if SplitPort(current).Some? {
      SplitJoined(ip, SplitPort(current).value);
    }
    hide SplitPort, JoinHostPort, Itoa;
  }

  lemma PortDigits(port: nat)
    ensures PortText(Itoa(port))
  {
    ItoaDigits(port);
  }

  lemma EntriesTwice(items: seq<Json>, key: string, portKey: string, ip: string, port: nat, ip2: string, port2: nat)
    requires HostText(ip) && key != portKey
    ensures RewriteEntries(RewriteEntries(items, key, portKey, ip, port, |items|), key, portKey, ip2, port2, |items|)
         == RewriteEntries(items, key, portKey, ip2, if port2 != 0 then port2 else port, |items|)
  {
    hide RewriteEntries;
    forall i | 0 <= i < |items|
      ensures RewriteEntry(RewriteEntry(items[i], key, portKey, ip, port), key, portKey, ip2, port2)
           == RewriteEntry(items[i], key, portKey, ip2, if port2 != 0 then port2 else port)
    {
      EntryTwice(items[i], key, portKey, ip, port, ip2, port2);
    }
  }

  lemma EntryTwice(entry: Json, key: string, portKey: string, ip: string, port: nat, ip2: string, port2: nat)
    requires HostText(ip) && key != portKey
    ensures RewriteEntry(RewriteEntry(entry, key, portKey, ip, port), key, portKey, ip2, port2)
         == RewriteEntry(entry, key, portKey, ip2, if port2 != 0 then port2 else port)
  {
    StillNames(entry, key, portKey, ip, port);
    if Names(entry, key) {
      NewFieldsTwice(entry.fields, key, portKey, ip, port, ip2, port2);
    }
    hide NewFields;
  }

  lemma ListTwice(settings: Fields, list: string, key: string, portKey: string, ip: string, port: nat, ip2: string,
                  port2: nat)
    requires HostText(ip) && key != portKey
    ensures RewriteList(RewriteList(settings, list, key, portKey, ip, port), list, key, portKey, ip2, port2)
         == RewriteList(settings, list, key, portKey, ip2, if port2 != 0 then port2 else port)
  {
    if list in settings && settings[list].List? {
      EntriesTwice(settings[list].items, key, portKey, ip, port, ip2, port2);
      hide RewriteEntries;
    }
  }

  /** Rewrites of different keys commute. */
  lemma ListsCommute(settings: Fields, a: string, b: string, key: string, portKey: string, ip: string, port: nat,
                     ip2: string, port2: nat)
    requires a != b
    ensures RewriteList(RewriteList(settings, a, key, portKey, ip, port), b, key, portKey, ip2, port2)
         == RewriteList(RewriteList(settings, b, key, portKey, ip2, port2), a, key, portKey, ip, port)
  {
    hide RewriteEntries;
  }

  lemma DirectCommutes(settings: Fields, list: string, ip: string, port: nat, ip2: string, port2: nat)
    requires list != "address" && list != "port"
    ensures NewFields(RewriteList(settings, list, "address", "port", ip, port), "address", "port", ip2, port2)
         == RewriteList(NewFields(settings, "address", "port", ip2, port2), list, "address", "port", ip, port)
  {
    hide RewriteEntries, Endpoint;
  }

  lemma SettingsTwice(protocol: string, settings: Fields, ip: string, port: nat, ip2: string, port2: nat)
    requires HostText(ip)
    ensures RewriteSettings(protocol, RewriteSettings(protocol, settings, ip, port), ip2, port2)
         == RewriteSettings(protocol, settings, ip2, if port2 != 0 then port2 else port)
  {
    if protocol == WIREGUARD {
      ListTwice(settings, "peers", "endpoint", "", ip, port, ip2, port2);
    } else {
      var p := if port2 != 0 then port2 else port;
      var d1 := NewFields(settings, "address", "port", ip, port);
      var v1 := RewriteList(d1, "vnext", "address", "port", ip, port);
      var d2 := NewFields(settings, "address", "port", ip2, p);
      var e1 := NewFields(d1, "address", "port", ip2, port2);
      var v2 := RewriteList(e1, "vnext", "address", "port", ip, port);
      NewFieldsTwice(settings, "address", "port", ip, port, ip2, port2);
      DirectCommutes(v1, "servers", ip, port, ip2, port2);
      DirectCommutes(d1, "vnext", ip, port, ip2, port2);
      ListsCommute(v2, "servers", "vnext", "address", "port", ip, port, ip2, port2);
      ListTwice(e1, "vnext", "address", "port", ip, port, ip2, port2);
      ListTwice(RewriteList(e1, "vnext", "address", "port", ip2, p), "servers", "address", "port", ip, port, ip2,
                port2);
      hide RewriteList, NewFields, HostText;
    }
  }

  // ----- which outbounds are accepted -----

  ghost predicate TextIn(fields: Fields, key: string) {
    key in fields && fields[key].Text?
  }

  /** Entry i of a list names a server under key. */
  ghost predicate EntryIn(settings: Fields, list: string, i: nat, key: string) {
    && list in settings && settings[list].List? && i < |settings[list].items|
    && settings[list].items[i].Object? && TextIn(settings[list].items[i].fields, key)
  }

  ghost predicate ListServer(settings: Fields, list: string, key: string, portKey: string, loc: Location) {
    exists i: nat :: EntryIn(settings, list, i, key) && loc == Location(["settings", list, Itoa(i), key], portKey)
  }

  /** A proxy: a protocol other than the five without servers, and an object of
      settings. */
  ghost predicate Proxy(root: Fields) {
    && TextIn(root, "protocol") && "settings" in root && root["settings"].Object?
    && root["protocol"].s != "" && root["protocol"].s != "freedom" && root["protocol"].s != "blackhole"
    && root["protocol"].s != "dns" && root["protocol"].s != "loopback"
  }

  /** The places that name a server. */
  ghost predicate ServerAt(root: Fields, loc: Location) {
    Proxy(root) &&
    var settings := root["settings"].fields;
    if root["protocol"].s == "wireguard" then ListServer(settings, "peers", "endpoint", "", loc)
    else
      || (TextIn(settings, "address") && loc == Location(["settings", "address"], "port"))
      || ListServer(settings, "vnext", "address", "port", loc)
      || ListServer(settings, "servers", "address", "port", loc)
  }

  lemma ListServers(settings: Fields, list: string, key: string, portKey: string, loc: Location)
    ensures loc in ListLocations(settings, list, key, portKey) <==> ListServer(settings, list, key, portKey, loc)
  {
    var items := ListAt(settings, list);
    EntryLocationsHave(list, items, key, portKey, |items|, loc);
    hide EntryLocations, Itoa;
    if i :| 0 <= i < |items| && Names(items[i], key) && loc == EntryLocation(list, i, key, portKey) {
      assert EntryIn(settings, list, i, key);
    }
    if ListServer(settings, list, key, portKey, loc) {
      var i: nat :| EntryIn(settings, list, i, key) && loc == Location(["settings", list, Itoa(i), key], portKey);
      assert Names(items[i], key) && loc == EntryLocation(list, i, key, portKey);
    }
  }

  lemma ServersListed(root: Fields, loc: Location)
    requires Proxy(root)
    ensures loc in SettingsLocations(root["protocol"].s, root["settings"].fields) <==> ServerAt(root, loc)
  {
    var settings := root["settings"].fields;
    ListServers(settings, "peers", "endpoint", "", loc);
    ListServers(settings, "vnext", "address", "port", loc);
    ListServers(settings, "servers", "address", "port", loc);
    hide ListServer, ListLocations;
  }

  /** An outbound is accepted exactly if it is a proxy that names a server
      somewhere; then its locations are exactly these places. */
  lemma AcceptedExactly(root: Fields)
    ensures Locations(root).Found? <==> exists loc :: ServerAt(root, loc)
    ensures Locations(root).Found? ==> forall loc :: loc in Locations(root).locs <==> ServerAt(root, loc)
  {
    if Proxy(root) {
      var locs := SettingsLocations(root["protocol"].s, root["settings"].fields);
      forall loc ensures loc in locs <==> ServerAt(root, loc) {
        ServersListed(root, loc);
      }
      hide SettingsLocations, ServerAt;
      if locs != [] {
        assert ServerAt(root, locs[0]);
      }
    }
    hide SettingsLocations, ListServer;
  }
}
