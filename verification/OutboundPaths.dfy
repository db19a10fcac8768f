/** Paths through the tree by object key and list index, how they relate to the
    listed locations, and that a path away from all of them leads to the same
    place after a rewrite: for one object, one entry, one list, the settings. */
module OutboundPaths {
  import opened Options
  import opened HostPort
  import opened Outbound
  import opened OutboundTargets

  // ----- everything else stays -----

  datatype Key = Field(name: string) | Index(i: nat)

  function Child(node: Json, k: Key): Option<Json> {
    match k
    case Field(name) => if node.Object? && name in node.fields then Some(node.fields[name]) else None
    case Index(i) => if node.List? && i < |node.items| then Some(node.items[i]) else None
  }

  function Follow(node: Json, q: seq<Key>): Option<Json> {
    if q == [] then Some(node)
    else
      match Child(node, q[0])
      case None => None
      case Some(next) => Follow(next, q[1..])
  }

  /** What the decimal path of a location means: the third key of a long one
      is a list index. */
  function Typed(path: seq<string>): (r: seq<Key>)
    ensures |r| == |path|
  {
    var fields := seq(|path|, k requires 0 <= k < |path| => Field(path[k]));
    if |path| == 4 && Atoi(path[2]).Some? && Atoi(path[2]).value >= 0 then fields[2 := Index(Atoi(path[2]).value)]
    else fields
  }

  predicate Comparable(p: seq<Key>, q: seq<Key>) {
    p <= q || q <= p
  }

  /** q lies at, above or below what rewriting an address at p/key changes. */
  predicate Near(q: seq<Key>, p: seq<Key>, key: string, portKey: string, port: nat) {
    Comparable(p + [Field(key)], q) || (portKey != "" && port != 0 && Comparable(p + [Field(portKey)], q))
  }

  predicate NearLocation(q: seq<Key>, loc: Location, port: nat) {
    loc.path != [] &&
    var n := |loc.path| - 1;
    Near(q, Typed(loc.path[..n] + [""])[..n], loc.path[n], loc.portKey, port)
  }

  /** q below the settings, seen from the settings. */
  ghost predicate AwayDirect(settings: Fields, port: nat, q: seq<Key>) {
    TextAt(settings, "address").Some? ==> !Near(q, [], "address", "port", port)
  }

  ghost predicate AwayList(settings: Fields, list: string, key: string, portKey: string, port: nat, q: seq<Key>) {
    forall i: nat :: i < |ListAt(settings, list)| && Names(ListAt(settings, list)[i], key) ==>
      !Near(q, [Field(list), Index(i)], key, portKey, port)
  }

  lemma NearTail(q: seq<Key>, k: Key, p: seq<Key>, key: string, portKey: string, port: nat)
    requires q != [] && q[0] == k
    ensures Near(q, [k] + p, key, portKey, port) <==> Near(q[1..], p, key, portKey, port)
  {
    ComparableTail(q, k, p + [Field(key)]);
    ComparableTail(q, k, p + [Field(portKey)]);
    assert [k] + p + [Field(key)] == [k] + (p + [Field(key)]);
    assert [k] + p + [Field(portKey)] == [k] + (p + [Field(portKey)]);
  }

  lemma ComparableTail(q: seq<Key>, k: Key, p: seq<Key>)
    requires q != [] && q[0] == k
    ensures Comparable([k] + p, q) <==> Comparable(p, q[1..])
  {
    assert q == [k] + q[1..];
    if [k] + p <= q {
      assert p <= q[1..] by {
        assert forall i :: 0 <= i < |p| ==> p[i] == ([k] + p)[i + 1];
      }
    }
    if q <= [k] + p {
      assert q[1..] <= p by {
        assert forall i :: 0 <= i < |q| - 1 ==> q[1..][i] == q[i + 1] == ([k] + p)[i + 1];
      }
    }
  }

  lemma HeadNear(q: seq<Key>, k: Key)
    ensures q == [] || q[0] == k ==> Comparable([k], q)
  {
  }

  lemma FieldsAway(fields: Fields, key: string, portKey: string, ip: string, port: nat, q: seq<Key>)
    requires TextAt(fields, key).Some? ==> !Near(q, [], key, portKey, port)
    ensures Follow(Object(NewFields(fields, key, portKey, ip, port)), q) == Follow(Object(fields), q)
  {
    if TextAt(fields, key).Some? {
      assert [] + [Field(key)] == [Field(key)] && [] + [Field(portKey)] == [Field(portKey)];
      HeadNear(q, Field(key));
      HeadNear(q, Field(portKey));
      hide Endpoint;
    }
  }

  lemma EntryAway(entry: Json, key: string, portKey: string, ip: string, port: nat, q: seq<Key>)
    requires Names(entry, key) ==> !Near(q, [], key, portKey, port)
    ensures Follow(RewriteEntry(entry, key, portKey, ip, port), q) == Follow(entry, q)
  {
    if Names(entry, key) {
      FieldsAway(entry.fields, key, portKey, ip, port, q);
    }
  }

  lemma ListAway(items: seq<Json>, list: string, key: string, portKey: string, ip: string, port: nat, q: seq<Key>)
    requires forall i: nat :: i < |items| && Names(items[i], key) ==> !Near(q, [Index(i)], key, portKey, port)
    ensures Follow(List(RewriteEntries(items, key, portKey, ip, port, |items|)), q) == Follow(List(items), q)
  {
    var r := RewriteEntries(items, key, portKey, ip, port, |items|);
    if q == [] {
      forall i: nat | i < |items| ensures r[i] == items[i] {
        assert Comparable([Index(i)] + [Field(key)], q);
      }
      assert r == items;
    } else if q[0].Index? && q[0].i < |items| {
      var i := q[0].i;
      assert [Index(i)] + [] == [Index(i)];
      NearTail(q, Index(i), [], key, portKey, port);
      EntryAway(items[i], key, portKey, ip, port, q[1..]);
    }
  }

  lemma RewriteListAway(settings: Fields, list: string, key: string, portKey: string, ip: string, port: nat,
                        q: seq<Key>)
    requires q != [] && AwayList(settings, list, key, portKey, port, q)
    ensures Follow(Object(RewriteList(settings, list, key, portKey, ip, port)), q) == Follow(Object(settings), q)
  {
    if list in settings && settings[list].List? && q[0] == Field(list) {
      var items := settings[list].items;
      forall i: nat | i < |items| && Names(items[i], key) ensures !Near(q[1..], [Index(i)], key, portKey, port) {
        assert !Near(q, [Field(list), Index(i)], key, portKey, port);
        assert [Field(list)] + [Index(i)] == [Field(list), Index(i)];
        NearTail(q, Field(list), [Index(i)], key, portKey, port);
      }
      ListAway(items, list, key, portKey, ip, port, q[1..]);
    }
    hide RewriteEntries;
  }

  lemma AwaySameList(a: Fields, b: Fields, list: string, key: string, portKey: string, port: nat, q: seq<Key>)
    requires ListAt(a, list) == ListAt(b, list) && AwayList(a, list, key, portKey, port, q)
    ensures AwayList(b, list, key, portKey, port, q)
  {
  }

  lemma ServersAway(settings: Fields, ip: string, port: nat, q: seq<Key>)
    requires q != [] && AwayDirect(settings, port, q)
    requires AwayList(settings, "vnext", "address", "port", port, q)
    requires AwayList(settings, "servers", "address", "port", port, q)
    ensures var direct := NewFields(settings, "address", "port", ip, port);
            var vnext := RewriteList(direct, "vnext", "address", "port", ip, port);
            var servers := RewriteList(vnext, "servers", "address", "port", ip, port);
            Follow(Object(servers), q) == Follow(Object(settings), q)
  {
    var direct := NewFields(settings, "address", "port", ip, port);
    var vnext := RewriteList(direct, "vnext", "address", "port", ip, port);
    SameLists(settings, ip, port);
    hide NewFields, RewriteList, Near, ListAt;
    FieldsAway(settings, "address", "port", ip, port, q);
    AwaySameList(settings, direct, "vnext", "address", "port", port, q);
    AwaySameList(settings, vnext, "servers", "address", "port", port, q);
    RewriteListAway(direct, "vnext", "address", "port", ip, port, q);
    RewriteListAway(vnext, "servers", "address", "port", ip, port, q);
  }

  lemma SameLists(settings: Fields, ip: string, port: nat)
    ensures var direct := NewFields(settings, "address", "port", ip, port);
            var vnext := RewriteList(direct, "vnext", "address", "port", ip, port);
            && ListAt(direct, "vnext") == ListAt(settings, "vnext")
            && ListAt(vnext, "servers") == ListAt(settings, "servers")
  {
    hide Endpoint, RewriteEntries;
  }

  /** A path away from an entry's location, seen from the settings. */
  lemma EntryNear(q: seq<Key>, list: string, i: nat, key: string, portKey: string, port: nat)
    ensures NearLocation(q, EntryLocation(list, i, key, portKey), port) <==>
            Near(q, [Field("settings"), Field(list), Index(i)], key, portKey, port)
  {
    AtoiItoa(i);
    hide Near, Atoi, Itoa;
    var path := EntryLocation(list, i, key, portKey).path;
    assert path[..3] + [""] == ["settings", list, Itoa(i), ""];
    assert Typed(path[..3] + [""])[..3] == [Field("settings"), Field(list), Index(i)];
  }

  lemma DirectNear(q: seq<Key>, port: nat)
    ensures NearLocation(q, Location(["settings", "address"], "port"), port) <==>
            Near(q, [Field("settings")], "address", "port", port)
  {
    hide Near, Atoi;
    var path := ["settings", "address"];
    assert path[..1] + [""] == ["settings", ""];
    assert Typed(path[..1] + [""])[..1] == [Field("settings")];
  }

  lemma ListLocationsAway(settings: Fields, list: string, key: string, portKey: string, port: nat, q: seq<Key>)
    requires q != [] && q[0] == Field("settings")
    requires forall loc :: loc in ListLocations(settings, list, key, portKey) ==> !NearLocation(q, loc, port)
    ensures AwayList(settings, list, key, portKey, port, q[1..])
  {
    var items := ListAt(settings, list);
    hide Near, NearLocation;
    forall i: nat | i < |items| && Names(items[i], key)
      ensures !Near(q[1..], [Field(list), Index(i)], key, portKey, port)
    {
      var loc := EntryLocation(list, i, key, portKey);
      EntryLocationsHave(list, items, key, portKey, |items|, loc);
      assert loc in ListLocations(settings, list, key, portKey);
      EntryNear(q, list, i, key, portKey, port);
      assert [Field("settings")] + [Field(list), Index(i)] == [Field("settings"), Field(list), Index(i)];
      NearTail(q, Field("settings"), [Field(list), Index(i)], key, portKey, port);
    }
  }

  lemma DirectLocationsAway(settings: Fields, port: nat, q: seq<Key>)
    requires q != [] && q[0] == Field("settings")
    requires forall loc :: loc in DirectLocations(settings) ==> !NearLocation(q, loc, port)
    ensures AwayDirect(settings, port, q[1..])
  {
    hide Near, NearLocation;
    if TextAt(settings, "address").Some? {
      assert Location(["settings", "address"], "port") in DirectLocations(settings);
      DirectNear(q, port);
      assert [Field("settings")] + [] == [Field("settings")];
      NearTail(q, Field("settings"), [], "address", "port", port);
    }
  }

  /** Every location starts at the settings and goes below them. */
  lemma AboveAll(settings: Fields, protocol: string, loc: Location, port: nat, q: seq<Key>)
    requires loc in SettingsLocations(protocol, settings) && (q == [] || q == [Field("settings")])
    ensures NearLocation(q, loc, port)
  {
    hide ListLocations, NearLocation, Names;
    if loc in DirectLocations(settings) && protocol != WIREGUARD {
      DirectNear(q, port);
      assert q <= [Field("settings")] + [Field("address")];
    } else {
      var list := if protocol == WIREGUARD then "peers"
                  else if loc in ListLocations(settings, "vnext", "address", "port") then "vnext" else "servers";
      var key := if protocol == WIREGUARD then "endpoint" else "address";
      var portKey := if protocol == WIREGUARD then "" else "port";
      AboveList(settings, list, key, portKey, loc, port, q);
    }
  }

  lemma AboveList(settings: Fields, list: string, key: string, portKey: string, loc: Location, port: nat, q: seq<Key>)
    requires loc in ListLocations(settings, list, key, portKey) && (q == [] || q == [Field("settings")])
    ensures NearLocation(q, loc, port)
  {
    var items := ListAt(settings, list);
    EntryLocationsHave(list, items, key, portKey, |items|, loc);
    hide NearLocation, Names, EntryLocation;
    var i :| 0 <= i < |items| && Names(items[i], key) && loc == EntryLocation(list, i, key, portKey);
    EntryNear(q, list, i, key, portKey, port);
    assert q <= [Field("settings"), Field(list), Index(i)] + [Field(key)];
  }
}
