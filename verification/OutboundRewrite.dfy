/** What rewriting an outbound promises. */
module OutboundRewrite {
  import opened Options
  import opened HostPort
  import opened Outbound
  import opened OutboundSteps
  import opened OutboundTargets
  import opened OutboundPaths

  /** A rewrite of an accepted outbound never fails, is the reference rewrite,
      and leaves the list of locations as it was. */
  lemma RewriteAll(root: Fields, ip: string, port: nat)
    requires Locations(root).Found?
    ensures Paths(Locations(root).locs)
    ensures SetAll(Object(root), Locations(root).locs, ip, port) == Some(Object(Rewrite(root, ip, port)))
    ensures Locations(Rewrite(root, ip, port)) == Locations(root)
  {
    var settings := root["settings"].fields;
    SetSettings(root, settings, ip, port);
    SameSettingsLocations(ProtocolOf(root), settings, ip, port);
    hide SettingsLocations, RewriteSettings, SetAll;
    assert ProtocolOf(Rewrite(root, ip, port)) == ProtocolOf(root);
  }

  /** Every listed address becomes the target, and so does its port if the
      target names one. */
  lemma EveryLocationTargeted(root: Fields, ip: string, port: nat, loc: Location)
    requires Locations(root).Found? && loc in Locations(root).locs
    ensures Targeted(Object(root), Object(Rewrite(root, ip, port)), loc, ip, port)
  {
    var settings := root["settings"].fields;
    var root1 := Rewrite(root, ip, port);
    var settings1 := RewriteSettings(ProtocolOf(root), settings, ip, port);
    if ProtocolOf(root) == WIREGUARD {
      hide Targeted, ListLocations, RewriteList;
      ListTargeted(root, root1, settings, settings1, "peers", "endpoint", "", ip, port, loc);
    } else {
      ServerTargeted(root, root1, settings, settings1, ip, port, loc);
    }
  }

  /** So does every place that names a server. */
  lemma AllTargeted(root: Fields, ip: string, port: nat)
    requires Locations(root).Found?
    ensures forall loc :: ServerAt(root, loc) ==> Targeted(Object(root), Object(Rewrite(root, ip, port)), loc, ip, port)
  {
    AcceptedExactly(root);
    hide Locations, ServerAt, Targeted, Rewrite;
    forall loc | ServerAt(root, loc) ensures Targeted(Object(root), Object(Rewrite(root, ip, port)), loc, ip, port) {
      EveryLocationTargeted(root, ip, port, loc);
    }
  }

  /** Rewriting twice is rewriting once with the second address, and with the
      second port unless that is 0; so with a port the second rewrite leaves
      nothing of the first. */
  lemma SecondRewriteWins(root: Fields, ip: string, port: nat, ip2: string, port2: nat)
    requires Locations(root).Found? && HostText(ip)
    ensures Locations(Rewrite(root, ip, port)).Found?
    ensures Rewrite(Rewrite(root, ip, port), ip2, port2) == Rewrite(root, ip2, if port2 != 0 then port2 else port)
  {
    var settings := root["settings"].fields;
    RewriteAll(root, ip, port);
    SettingsTwice(ProtocolOf(root), settings, ip, port, ip2, port2);
    var settings1 := RewriteSettings(ProtocolOf(root), settings, ip, port);
    SameProtocol(root, Object(settings1));
    hide RewriteSettings, SettingsLocations, HostText, Locations, ProtocolOf, SetAll, Paths;
  }

  lemma SameProtocol(root: Fields, settings: Json)
    ensures ProtocolOf(root["settings" := settings]) == ProtocolOf(root)
  {
  }

  /** Every path that is neither above nor below a listed address, nor, when
      the target names a port, a listed port, leads to what it led to before. */
  lemma RestUntouched(root: Fields, ip: string, port: nat, q: seq<Key>)
    requires Locations(root).Found?
    requires forall loc :: loc in Locations(root).locs ==> !NearLocation(q, loc, port)
    ensures Follow(Object(Rewrite(root, ip, port)), q) == Follow(Object(root), q)
  {
    var settings := root["settings"].fields;
    var protocol := ProtocolOf(root);
    var first := Locations(root).locs[0];
    assert first in SettingsLocations(protocol, settings);
    hide NearLocation, ListLocations, DirectLocations;
    if q == [] || q == [Field("settings")] {
      AboveAll(settings, protocol, first, port, q);
    } else if q[0] == Field("settings") {
      hide Near, AwayDirect, AwayList;
      if protocol == WIREGUARD {
        ListLocationsAway(settings, "peers", "endpoint", "", port, q);
        RewriteListAway(settings, "peers", "endpoint", "", ip, port, q[1..]);
      } else {
        DirectLocationsAway(settings, port, q);
        ListLocationsAway(settings, "vnext", "address", "port", port, q);
        ListLocationsAway(settings, "servers", "address", "port", port, q);
        ServersAway(settings, ip, port, q[1..]);
      }
      hide NewFields, RewriteList;
    } else {
      hide RewriteSettings;
    }
  }

  // ----- the rewrite in place -----

  /** A decoded outbound; its nested objects belong to it alone. */
  class Template {
    var root: Fields

    constructor (root: Fields)
      ensures this.root == root
    {
      this.root := root;
    }

    /** Follows the path, then writes the object it leads to and, on the way
        back, every node above it; a malformed path changes nothing. */
    method SetAddressAt(loc: Location, ip: string, port: nat) returns (ok: bool)
      requires loc.path != []
      modifies this
      ensures ok <==> SetAt(Object(old(root)), loc.path, loc.portKey, ip, port).Some?
      ensures ok ==> SetAt(Object(old(root)), loc.path, loc.portKey, ip, port) == Some(Object(root))
      ensures ok && loc.portKey != loc.path[|loc.path| - 1] ==>
                && TextAtPath(Object(old(root)), loc.path) && TextAtPath(Object(root), loc.path)
                && Replaces(Walk(Object(old(root)), loc.path).value.s, Walk(Object(root), loc.path).value.s,
                            loc.portKey, ip, port)
      ensures !ok ==> root == old(root)
    {
      SetAtReplaces(Object(root), loc.path, loc.portKey, ip, port);
      var path, n := loc.path, |loc.path| - 1;
      var nodes := [Object(root)];
      SetNeedsWalk(nodes[0], path, loc.portKey, ip, port);
      WalkNowhere(nodes[0], path);
      hide SetAt, Walk, Descend, WithChild, TextAt, NewFields, Replaces;
      for i := 0 to n
        invariant |nodes| == i + 1 && nodes[0] == Object(root) && root == old(root)
        invariant forall k :: 0 <= k < i ==> Descend(nodes[k], path[k]) == Some(nodes[k + 1])
        invariant Walk(nodes[0], path[..i]) == Some(nodes[i])
      {
        WalkOne(nodes[0], path[..n], i);
        assert path[..n][..i] == path[..i] && path[..n][..i + 1] == path[..i + 1];
        match Descend(nodes[i], path[i]) {
          case None => return false;
          case Some(child) => nodes := nodes + [child];
        }
      }
      if !nodes[n].Object? {
        return false;
      }
      if TextAt(nodes[n].fields, path[n]) == None {
        return false;
      }
      var fields := WriteAddress(nodes[n].fields, path[n], loc.portKey, ip, port);
      var done := Object(fields);
      assert path[n..] == [path[n]];
      SetLast(nodes[n], path[n], loc.portKey, ip, port);
      for i := n downto 0
        invariant SetAt(nodes[i], path[i..], loc.portKey, ip, port) == Some(done)
        invariant root == old(root) && (i == 0 ==> done.Object?)
      {
        assert path[i..][1..] == path[i + 1..] && path[i..][0] == path[i];
        SetOne(nodes[i], path[i..], loc.portKey, ip, port);
        ObjectChild(nodes[i], path[i], done);
        done := WithChild(nodes[i], path[i], done);
      }
      assert path[0..] == path;
      root := done.fields;
      return true;
    }

    /** An invalid address or an outbound without locations changes nothing;
        otherwise every listed address is rewritten, without fail. */
    method SetOutboundAddress(ip: Option<string>, port: nat) returns (ok: bool)
      modifies this
      ensures ok <==> ip.Some? && Locations(old(root)).Found?
      ensures ok ==> root == Rewrite(old(root), ip.value, port)
      ensures ok ==> forall loc :: ServerAt(old(root), loc) ==>
                Targeted(Object(old(root)), Object(root), loc, ip.value, port)
      ensures !ok ==> root == old(root)
    {
      if ip == None {
        return false;
      }
      var found := OutboundAddressLocations(root);
      if found.Refused? {
        return false;
      }
      var locs := found.locs;
      RewriteAll(root, ip.value, port);
      AllTargeted(root, ip.value, port);
      hide Targeted, ServerAt;
      ghost var target := Object(Rewrite(root, ip.value, port));
      hide Locations, Rewrite, SetAt;
      assert locs[0..] == locs;
      for i := 0 to |locs|
        invariant Paths(locs) && SetAll(Object(root), locs[i..], ip.value, port) == Some(target)
      {
        var done := SetAddressAt(locs[i], ip.value, port);
        assert locs[i..][1..] == locs[i + 1..];
        assert done;
      }
      ok := true;
    }
  }

  /** The object around an address, by the branches of the rewrite. */
  method WriteAddress(fields: Fields, key: string, portKey: string, ip: string, port: nat) returns (written: Fields)
    requires TextAt(fields, key).Some?
    ensures written == NewFields(fields, key, portKey, ip, port)
    ensures key != portKey ==> TextIn(written, key) && Replaces(fields[key].s, written[key].s, portKey, ip, port)
    ensures portKey != "" && port != 0 ==> portKey in written && written[portKey] == Number(port as real)
    ensures forall k :: k != key && (k != portKey || port == 0) ==>
              (k in written <==> k in fields) && (k in fields ==> written[k] == fields[k])
  {
    EndpointReplaces(fields[key].s, portKey, ip, port);
    hide SplitPort, JoinHostPort, Itoa, Replaces;
    if portKey == "" {
      if port != 0 {
        return fields[key := Text(JoinHostPort(ip, Itoa(port)))];
      }
      match SplitPort(fields[key].s) {
        case Some(embedded) => return fields[key := Text(JoinHostPort(ip, embedded))];
        case None => return fields[key := Text(ip)];
      }
    }
    written := fields[key := Text(ip)];
    if port != 0 {
      written := written[portKey := Number(port as real)];
    }
  }

  ghost predicate TextAtPath(node: Json, path: seq<string>) {
    Walk(node, path).Some? && Walk(node, path).value.Text?
  }

  lemma SameChild(node: Json, key: string, child: Json)
    requires Descend(node, key).Some?
    ensures Descend(WithChild(node, key, child), key) == Some(child)
  {
    hide Atoi;
  }

  /** Setting one location replaces the text it leads to. */
  lemma {:induction false} SetAtReplaces(node: Json, path: seq<string>, portKey: string, ip: string, port: nat)
    requires path != []
    ensures SetAt(node, path, portKey, ip, port).Some? && portKey != path[|path| - 1] ==>
              var after := SetAt(node, path, portKey, ip, port).value;
              && TextAtPath(node, path) && TextAtPath(after, path)
              && Replaces(Walk(node, path).value.s, Walk(after, path).value.s, portKey, ip, port)
    decreases |path|
  {
    if SetAt(node, path, portKey, ip, port).Some? && portKey != path[|path| - 1] {
      if |path| == 1 {
        assert path == [path[0]];
        EndpointReplaces(node.fields[path[0]].s, portKey, ip, port);
        WalkKey(node, path[0]);
        WalkKey(SetAt(node, path, portKey, ip, port).value, path[0]);
        hide Endpoint, Replaces, Walk;
      } else {
        var next := Descend(node, path[0]).value;
        var child := SetAt(next, path[1..], portKey, ip, port).value;
        SetAtReplaces(next, path[1..], portKey, ip, port);
        SameChild(node, path[0], child);
        hide Replaces, WithChild, Descend;
      }
    }
  }

  lemma ObjectChild(node: Json, key: string, child: Json)
    requires Descend(node, key).Some?
    ensures WithChild(node, key, child).Object? <==> node.Object?
  {
  }

  lemma WalkNowhere(node: Json, path: seq<string>)
    ensures Walk(node, path[..0]) == Some(node)
  {
  }

  /** A walk is one shorter walk and one descent; if either fails, so does
      every longer walk. */
  lemma {:induction false} WalkOne(node: Json, path: seq<string>, i: nat)
    requires i < |path|
    ensures Walk(node, path[..i]) == None ==> Walk(node, path) == None
    ensures Walk(node, path[..i]).Some? ==> Walk(node, path[..i + 1]) == Descend(Walk(node, path[..i]).value, path[i])
    ensures Walk(node, path[..i + 1]) == None ==> Walk(node, path) == None
    decreases i
  {
    hide Descend;
    if i == 0 {
      assert path[..1][1..] == [];
    } else {
      assert path[..i][1..] == path[1..][..i - 1] && path[..i + 1][1..] == path[1..][..i];
      match Descend(node, path[0]) {
        case None =>
        case Some(next) => WalkOne(next, path[1..], i - 1);
      }
    }
  }
}
