/** Setting the listed locations of an outbound one after the other has the
    effect of rewriting every server address at once, and leaves the locations
    where they were. The lemmas follow the nesting: one object, one list entry,
    the first n entries of a list, the lists of the settings, the settings. */
module OutboundSteps {
  import opened Options
  import opened HostPort
  import opened Outbound

  // ----- the steps do what the reference says -----

  ghost predicate Rooted(root: Fields, settings: Fields) {
    "settings" in root && root["settings"] == Object(settings)
  }

  lemma SetDirect(root: Fields, settings: Fields, ip: string, port: nat)
    requires Rooted(root, settings) && TextAt(settings, "address").Some?
    ensures SetAt(Object(root), ["settings", "address"], "port", ip, port)
         == Some(Object(root["settings" := Object(NewFields(settings, "address", "port", ip, port))]))
  {
    var path := ["settings", "address"];
    assert path[1..] == ["address"];
    hide NewFields;
    assert SetAt(Object(settings), ["address"], "port", ip, port)
        == Some(Object(NewFields(settings, "address", "port", ip, port)));
  }

  function OneEntry(settings: Fields, list: string, i: nat, key: string, portKey: string, ip: string, port: nat): Fields
    requires list in settings && settings[list].List? && i < |settings[list].items|
  {
    var items := settings[list].items;
    settings[list := List(items[i := RewriteEntry(items[i], key, portKey, ip, port)])]
  }

  lemma SetEntry(root: Fields, settings: Fields, list: string, i: nat, key: string, portKey: string, ip: string,
                 port: nat)
    requires Rooted(root, settings) && list in settings && settings[list].List? && i < |settings[list].items|
    requires Names(settings[list].items[i], key)
    ensures SetAt(Object(root), EntryLocation(list, i, key, portKey).path, portKey, ip, port)
         == Some(Object(root["settings" := Object(OneEntry(settings, list, i, key, portKey, ip, port))]))
  {
    var items := settings[list].items;
    var path := EntryLocation(list, i, key, portKey).path;
    AtoiItoa(i);
    hide NewFields, Atoi, Itoa;
    assert path[1..] == [list, Itoa(i), key] && path[1..][1..] == [Itoa(i), key] && path[1..][1..][1..] == [key];
    SetLast(items[i], key, portKey, ip, port);
    SetOne(List(items), [Itoa(i), key], portKey, ip, port);
    SetOne(Object(settings), [list, Itoa(i), key], portKey, ip, port);
    SetOne(Object(root), path, portKey, ip, port);
  }

  lemma SetLast(node: Json, key: string, portKey: string, ip: string, port: nat)
    requires Names(node, key)
    ensures SetAt(node, [key], portKey, ip, port) == Some(RewriteEntry(node, key, portKey, ip, port))
  {
  }

  lemma SetOne(node: Json, path: seq<string>, portKey: string, ip: string, port: nat)
    requires |path| > 1 && Descend(node, path[0]).Some?
    requires SetAt(Descend(node, path[0]).value, path[1..], portKey, ip, port).Some?
    ensures SetAt(node, path, portKey, ip, port)
         == Some(WithChild(node, path[0], SetAt(Descend(node, path[0]).value, path[1..], portKey, ip, port).value))
  {
  }

  ghost predicate Paths(locs: seq<Location>) {
    forall k :: 0 <= k < |locs| ==> locs[k].path != []
  }

  lemma {:induction false} SetAllAppend(root: Json, a: seq<Location>, mid: Json, b: seq<Location>, ip: string,
                                        port: nat)
    requires Paths(a) && Paths(b) && SetAll(root, a, ip, port) == Some(mid)
    ensures Paths(a + b) && SetAll(root, a + b, ip, port) == SetAll(mid, b, ip, port)
    decreases |a|
  {
    hide SetAt;
    if a == [] {
      assert a + b == b;
    } else {
      var next := SetAt(root, a[0].path, a[0].portKey, ip, port).value;
      SetAllAppend(next, a[1..], mid, b, ip, port);
      assert (a + b)[1..] == a[1..] + b;
    }
  }

  lemma SetAllOne(root: Json, loc: Location, ip: string, port: nat)
    requires loc.path != []
    ensures SetAll(root, [loc], ip, port) == SetAt(root, loc.path, loc.portKey, ip, port)
  {
    hide SetAt;
    assert [loc][1..] == [];
  }

  function WithSettings(root: Fields, settings: Fields): Json {
    Object(root["settings" := Object(settings)])
  }

  function SomeEntries(settings: Fields, list: string, key: string, portKey: string, ip: string, port: nat,
                       n: nat): Fields
    requires list in settings && settings[list].List? && n <= |settings[list].items|
  {
    settings[list := List(RewriteEntries(settings[list].items, key, portKey, ip, port, n))]
  }

  lemma NoEntries(root: Fields, settings: Fields, list: string, key: string, portKey: string, ip: string, port: nat)
    requires Rooted(root, settings) && list in settings && settings[list].List?
    ensures SomeEntries(settings, list, key, portKey, ip, port, 0) == settings &&
            WithSettings(root, settings) == Object(root)
    ensures EntryLocations(list, settings[list].items, key, portKey, 0) == []
    ensures SetAll(Object(root), [], ip, port) == Some(Object(root))
  {
    var items := settings[list].items;
    assert RewriteEntries(items, key, portKey, ip, port, 0) == items;
    assert settings[list := List(items)] == settings;
    assert root["settings" := Object(settings)] == root;
  }

  /** One more location on top of the first n entries. */
  lemma SetNext(root: Fields, settings: Fields, list: string, key: string, portKey: string, ip: string, port: nat,
                n: nat)
    requires Rooted(root, settings) && list in settings && settings[list].List? && n < |settings[list].items|
    requires Names(settings[list].items[n], key)
    ensures var done := WithSettings(root, SomeEntries(settings, list, key, portKey, ip, port, n));
            SetAll(done, [EntryLocation(list, n, key, portKey)], ip, port)
            == Some(WithSettings(root, SomeEntries(settings, list, key, portKey, ip, port, n + 1)))
  {
    var settings1 := SomeEntries(settings, list, key, portKey, ip, port, n);
    var root1 := root["settings" := Object(settings1)];
    NextEntry(settings, list, key, portKey, ip, port, n);
    hide SetAt, SetAll, SomeEntries, OneEntry, Names, Itoa;
    SetAllOne(Object(root1), EntryLocation(list, n, key, portKey), ip, port);
    SetEntry(root1, settings1, list, n, key, portKey, ip, port);
    assert root1["settings" := Object(SomeEntries(settings, list, key, portKey, ip, port, n + 1))]
        == root["settings" := Object(SomeEntries(settings, list, key, portKey, ip, port, n + 1))];
  }

  /** Setting the first n entries, one location after the other, gives them
      their new values. */
  ghost predicate EntriesSet(root: Fields, settings: Fields, list: string, key: string, portKey: string, ip: string,
                             port: nat, n: nat)
    requires list in settings && settings[list].List? && n <= |settings[list].items|
  {
    var locs := EntryLocations(list, settings[list].items, key, portKey, n);
    Paths(locs) &&
    SetAll(Object(root), locs, ip, port) ==
      Some(WithSettings(root, SomeEntries(settings, list, key, portKey, ip, port, n)))
  }

  lemma SetNamed(root: Fields, settings: Fields, list: string, key: string, portKey: string, ip: string, port: nat,
                 n: nat)
    requires Rooted(root, settings) && list in settings && settings[list].List? && n < |settings[list].items|
    requires EntriesSet(root, settings, list, key, portKey, ip, port, n) && Names(settings[list].items[n], key)
    ensures EntriesSet(root, settings, list, key, portKey, ip, port, n + 1)
  {
    var items := settings[list].items;
    EntryMore(list, items, key, portKey, n + 1);
    SetNext(root, settings, list, key, portKey, ip, port, n);
    var done := WithSettings(root, SomeEntries(settings, list, key, portKey, ip, port, n));
    hide SetAt, Names, SetAll, WithSettings, SomeEntries, EntryLocations, Rooted, Itoa;
    SetAllAppend(Object(root), EntryLocations(list, items, key, portKey, n), done,
                 [EntryLocation(list, n, key, portKey)], ip, port);
  }

  lemma SetUnnamed(root: Fields, settings: Fields, list: string, key: string, portKey: string, ip: string, port: nat,
                   n: nat)
    requires list in settings && settings[list].List? && n < |settings[list].items|
    requires EntriesSet(root, settings, list, key, portKey, ip, port, n) && !Names(settings[list].items[n], key)
    ensures EntriesSet(root, settings, list, key, portKey, ip, port, n + 1)
  {
    EntryMore(list, settings[list].items, key, portKey, n + 1);
    NextEntry(settings, list, key, portKey, ip, port, n);
    hide Names, SetAll, WithSettings, SomeEntries, EntryLocations;
  }

  lemma {:induction false} SetEntries(root: Fields, settings: Fields, list: string, key: string, portKey: string,
                                      ip: string, port: nat, n: nat)
    requires Rooted(root, settings) && list in settings && settings[list].List? && n <= |settings[list].items|
    ensures EntriesSet(root, settings, list, key, portKey, ip, port, n)
  {
    if n == 0 {
      NoEntries(root, settings, list, key, portKey, ip, port);
    } else {
      hide EntriesSet, Names;
      SetEntries(root, settings, list, key, portKey, ip, port, n - 1);
      if Names(settings[list].items[n - 1], key) {
        SetNamed(root, settings, list, key, portKey, ip, port, n - 1);
      } else {
        SetUnnamed(root, settings, list, key, portKey, ip, port, n - 1);
      }
    }
  }

  lemma EntryMore(list: string, items: seq<Json>, key: string, portKey: string, n: nat)
    requires 0 < n <= |items|
    ensures var before := EntryLocations(list, items, key, portKey, n - 1);
            EntryLocations(list, items, key, portKey, n) ==
            if Names(items[n - 1], key) then before + [EntryLocation(list, n - 1, key, portKey)] else before
  {
  }

  lemma NextEntry(settings: Fields, list: string, key: string, portKey: string, ip: string, port: nat, n: nat)
    requires list in settings && settings[list].List? && n < |settings[list].items|
    ensures var s := SomeEntries(settings, list, key, portKey, ip, port, n);
            && list in s && s[list].List? && n < |s[list].items| && s[list].items[n] == settings[list].items[n]
            && OneEntry(s, list, n, key, portKey, ip, port) ==
               SomeEntries(settings, list, key, portKey, ip, port, n + 1)
            && (!Names(settings[list].items[n], key) ==>
               s == SomeEntries(settings, list, key, portKey, ip, port, n + 1))
  {
    hide NewFields;
    var items := settings[list].items;
    var a, b := RewriteEntries(items, key, portKey, ip, port, n), RewriteEntries(items, key, portKey, ip, port, n + 1);
    assert a[n := RewriteEntry(items[n], key, portKey, ip, port)] == b;
    if !Names(items[n], key) {
      assert a == b;
    }
  }

  lemma SetList(root: Fields, settings: Fields, list: string, key: string, portKey: string, ip: string, port: nat)
    requires Rooted(root, settings)
    ensures var locs := ListLocations(settings, list, key, portKey);
            Paths(locs) &&
            SetAll(Object(root), locs, ip, port) ==
              Some(WithSettings(root, RewriteList(settings, list, key, portKey, ip, port)))
  {
    hide SetAt, RewriteEntries, Names;
    if list in settings && settings[list].List? {
      SetEntries(root, settings, list, key, portKey, ip, port, |settings[list].items|);
    } else {
      assert root["settings" := Object(settings)] == root;
    }
  }

  lemma SetSettings(root: Fields, settings: Fields, ip: string, port: nat)
    requires Rooted(root, settings)
    ensures var locs := SettingsLocations(ProtocolOf(root), settings);
            Paths(locs) &&
            SetAll(Object(root), locs, ip, port) ==
              Some(WithSettings(root, RewriteSettings(ProtocolOf(root), settings, ip, port)))
  {
    if ProtocolOf(root) == WIREGUARD {
      SetList(root, settings, "peers", "endpoint", "", ip, port);
    } else {
      SetServers(root, settings, ip, port);
    }
  }

  /** The address beside the lists, then the first list. */
  lemma SetVnext(root: Fields, settings: Fields, ip: string, port: nat)
    requires Rooted(root, settings)
    ensures var locs := DirectLocations(settings) + ListLocations(settings, "vnext", "address", "port");
            var direct := NewFields(settings, "address", "port", ip, port);
            var vnext := RewriteList(direct, "vnext", "address", "port", ip, port);
            Paths(locs) && SetAll(Object(root), locs, ip, port) == Some(WithSettings(root, vnext))
  {
    var direct := NewFields(settings, "address", "port", ip, port);
    var vnext := RewriteList(direct, "vnext", "address", "port", ip, port);
    OtherLists(settings, ip, port);
    SetDirects(root, settings, ip, port);
    var root1 := root["settings" := Object(direct)];
    hide SetAt, SetAll, ListLocations, RewriteList, NewFields, DirectLocations;
    SetList(root1, direct, "vnext", "address", "port", ip, port);
    assert root1["settings" := Object(vnext)] == root["settings" := Object(vnext)];
    SetAllAppend(Object(root), DirectLocations(settings), Object(root1),
                 ListLocations(settings, "vnext", "address", "port"), ip, port);
  }

  lemma SetServers(root: Fields, settings: Fields, ip: string, port: nat)
    requires Rooted(root, settings)
    ensures var locs := DirectLocations(settings) + ListLocations(settings, "vnext", "address", "port") +
                        ListLocations(settings, "servers", "address", "port");
            var direct := NewFields(settings, "address", "port", ip, port);
            var vnext := RewriteList(direct, "vnext", "address", "port", ip, port);
            var servers := RewriteList(vnext, "servers", "address", "port", ip, port);
            Paths(locs) && SetAll(Object(root), locs, ip, port) == Some(WithSettings(root, servers))
  {
    var direct := NewFields(settings, "address", "port", ip, port);
    var vnext := RewriteList(direct, "vnext", "address", "port", ip, port);
    var servers := RewriteList(vnext, "servers", "address", "port", ip, port);
    OtherLists(settings, ip, port);
    SetVnext(root, settings, ip, port);
    var root2 := root["settings" := Object(vnext)];
    hide SetAt, SetAll, ListLocations, RewriteList, NewFields, DirectLocations;
    SetList(root2, vnext, "servers", "address", "port", ip, port);
    assert root2["settings" := Object(servers)] == root["settings" := Object(servers)];
    SetAllAppend(Object(root), DirectLocations(settings) + ListLocations(settings, "vnext", "address", "port"),
                 Object(root2), ListLocations(settings, "servers", "address", "port"), ip, port);
  }

  lemma SetDirects(root: Fields, settings: Fields, ip: string, port: nat)
    requires Rooted(root, settings)
    ensures Paths(DirectLocations(settings))
    ensures SetAll(Object(root), DirectLocations(settings), ip, port)
         == Some(WithSettings(root, NewFields(settings, "address", "port", ip, port)))
  {
    if TextAt(settings, "address").Some? {
      SetDirect(root, settings, ip, port);
      hide SetAt, SetAll, NewFields;
      SetAllOne(Object(root), Location(["settings", "address"], "port"), ip, port);
    } else {
      assert root["settings" := Object(settings)] == root;
    }
  }

  /** Rewriting one kind of address leaves the other lists as they are. */
  lemma OtherLists(settings: Fields, ip: string, port: nat)
    ensures var direct := NewFields(settings, "address", "port", ip, port);
            var vnext := RewriteList(direct, "vnext", "address", "port", ip, port);
            && ListLocations(direct, "vnext", "address", "port") == ListLocations(settings, "vnext", "address", "port")
            && ListLocations(vnext, "servers", "address", "port") ==
               ListLocations(settings, "servers", "address", "port")
  {
    hide EntryLocations, RewriteEntries, Endpoint;
    var direct := NewFields(settings, "address", "port", ip, port);
    var vnext := RewriteList(direct, "vnext", "address", "port", ip, port);
    assert ListAt(direct, "vnext") == ListAt(settings, "vnext");
    assert ListAt(vnext, "servers") == ListAt(direct, "servers") == ListAt(settings, "servers");
  }

  // ----- what a rewrite keeps -----

  lemma {:induction false} SameEntries(list: string, items: seq<Json>, key: string, portKey: string, ip: string,
                                       port: nat, n: nat)
    requires n <= |items| && key != portKey
    ensures EntryLocations(list, RewriteEntries(items, key, portKey, ip, port, |items|), key, portKey, n)
         == EntryLocations(list, items, key, portKey, n)
  {
    hide RewriteEntries, RewriteEntry, Names;
    if n > 0 {
      SameEntries(list, items, key, portKey, ip, port, n - 1);
      StillNames(items[n - 1], key, portKey, ip, port);
    }
  }

  lemma StillNames(entry: Json, key: string, portKey: string, ip: string, port: nat)
    requires key != portKey
    ensures Names(RewriteEntry(entry, key, portKey, ip, port), key) <==> Names(entry, key)
  {
    hide Endpoint;
  }

  lemma SameListLocations(settings: Fields, list: string, key: string, portKey: string, ip: string, port: nat)
    requires key != portKey
    ensures ListLocations(RewriteList(settings, list, key, portKey, ip, port), list, key, portKey)
         == ListLocations(settings, list, key, portKey)
  {
    if list in settings && settings[list].List? {
      var items := settings[list].items;
      SameEntries(list, items, key, portKey, ip, port, |items|);
    }
  }

  /** A key that a list rewrite does not own keeps its value. */
  lemma ListRewriteFrame(settings: Fields, list: string, key: string, portKey: string, ip: string, port: nat, k: string)
    requires k != list
    ensures var s := RewriteList(settings, list, key, portKey, ip, port);
            (k in s <==> k in settings) && (k in s ==> s[k] == settings[k])
  {
  }

  lemma SameSettingsLocations(protocol: string, settings: Fields, ip: string, port: nat)
    ensures SettingsLocations(protocol, RewriteSettings(protocol, settings, ip, port)) ==
            SettingsLocations(protocol, settings)
  {
    if protocol == WIREGUARD {
      SameListLocations(settings, "peers", "endpoint", "", ip, port);
    } else {
      var direct := NewFields(settings, "address", "port", ip, port);
      var vnext := RewriteList(direct, "vnext", "address", "port", ip, port);
      var servers := RewriteList(vnext, "servers", "address", "port", ip, port);
      OtherLists(settings, ip, port);
      SameListLocations(direct, "vnext", "address", "port", ip, port);
      SameListLocations(vnext, "servers", "address", "port", ip, port);
      assert DirectLocations(direct) == DirectLocations(settings);
      hide NewFields;
      ListRewriteFrame(direct, "vnext", "address", "port", ip, port, "address");
      ListRewriteFrame(vnext, "servers", "address", "port", ip, port, "address");
      ListRewriteFrame(vnext, "servers", "address", "port", ip, port, "vnext");
      hide RewriteList;
      assert ListAt(servers, "vnext") == ListAt(vnext, "vnext");
    }
  }
}
