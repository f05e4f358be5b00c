/**
 The rack-level failure domain: counting the zones that still have OSDs in the
 CRUSH tree, and the check that refuses a removal which would leave fewer than
 three.
 */
module RackDomain {
  import opened Common

  /** A tree entry as listed by Ceph. Buckets have negative ids, OSDs non-negative ones. */
  datatype Node = Node(id: int, name: string, kind: string, children: seq<int>)
  type Tree = seq<Node>

  const MIN_ZONES := 3

  // ----- lookups: the first entry that matches -----

  function ByName(tree: Tree, name: string): Option<Node>
  {
    if tree == [] then None else if tree[0].name == name then Some(tree[0]) else ByName(tree[1..], name)
  }

  function ById(tree: Tree, id: int): Option<Node>
  {
    if tree == [] then None else if tree[0].id == id then Some(tree[0]) else ById(tree[1..], id)
  }

  function Osds(children: seq<int>): (osds: seq<int>)
    ensures forall x :: x in osds <==> x in children && x >= 0
  {
    if children == [] then []
    else Osds(children[..|children| - 1]) + (if children[|children| - 1] >= 0 then [children[|children| - 1]] else [])
  }

  function OsdsOfHosts(tree: Tree, hosts: seq<int>): seq<int>
  {
    if hosts == [] then []
    else
      var host := ById(tree, hosts[|hosts| - 1]);
      OsdsOfHosts(tree, hosts[..|hosts| - 1]) + (if host.None? then [] else Osds(host.value.children))
  }

  /** The OSDs in a zone's rack, host by host. */
  function OsdsInRack(tree: Tree, zone: string): seq<int>
  {
    var rack := ByName(tree, "az." + zone);
    if rack.None? || rack.value.kind != "rack" then [] else OsdsOfHosts(tree, rack.value.children)
  }

  // ----- the counting loops -----

  method CountOsdsInRack(tree: Tree, zone: string) returns (count: nat)
    ensures count == |OsdsInRack(tree, zone)|
  {
    count := 0;
    var rack := ByName(tree, "az." + zone);
    if rack.None? || rack.value.kind != "rack" { return; }
    var hosts := rack.value.children;
    for i := 0 to |hosts|
      invariant count == |OsdsOfHosts(tree, hosts[..i])|
    {
      assert hosts[..i + 1][..i] == hosts[..i];
      var host := ById(tree, hosts[i]);
      if host.Some? {
        var osds := host.value.children;
        for j := 0 to |osds|
          invariant count == |OsdsOfHosts(tree, hosts[..i])| + |Osds(osds[..j])|
        {
          assert osds[..j + 1][..j] == osds[..j];
          if osds[j] >= 0 { count := count + 1; }
        }
        assert osds[..|osds|] == osds;
      }
    }
    assert hosts[..|hosts|] == hosts;
  }

  /** Zones whose rack holds at least one OSD. */
  function Active(tree: Tree, zones: set<string>): set<string>
  {
    set z | z in zones && |OsdsInRack(tree, z)| > 0
  }

  /** `current` always counts: an OSD is being added there. */
  method CountZonesWithOsds(tree: Tree, zones: set<string>, current: string) returns (count: nat)
    ensures count == |Active(tree, zones) + (if current in zones then {current} else {})|
  {
    count := 0;
    var todo := zones;
    ghost var found: set<string> := {};
    while todo != {}
      invariant todo <= zones && count == |found|
      invariant forall z :: z in found <==> z in zones && z !in todo && (z == current || |OsdsInRack(tree, z)| > 0)
      decreases |todo|
    {
      var zone :| zone in todo;
      todo := todo - {zone};
      var osds := CountOsdsInRack(tree, zone);
      if zone == current || osds > 0 {
        found := found + {zone};
        count := count + 1;
      }
    }
    assert found == Active(tree, zones) + (if current in zones then {current} else {});
  }

  /** The refusal, as a value. `tag` is the zone of the OSD's host, empty when it has none. */
  predicate Blocked(tree: Tree, zones: set<string>, tag: string)
  {
    tag != "" && |Active(tree, zones)| <= MIN_ZONES && |OsdsInRack(tree, tag)| <= 1
  }

  method IsRackDegradeBlocked(onRack: bool, tree: Tree, zones: set<string>, tag: string) returns (blocked: bool)
    requires "" !in zones
    ensures blocked <==> onRack && Blocked(tree, zones, tag)
    ensures blocked <==> onRack && tag != "" && |Active(tree, zones)| <= 3 && |OsdsInRack(tree, tag)| <= 1
  {
    if !onRack || tag == "" { return false; }
    var active := CountZonesWithOsds(tree, zones, "");
    assert Active(tree, zones) + {} == Active(tree, zones);
    if active > MIN_ZONES { return false; }
    var osds := CountOsdsInRack(tree, tag);
    return osds <= 1;
  }

  // ----- removing an OSD -----

  function Drop(children: seq<int>, osd: int): seq<int>
  {
    if children == [] then []
    else
      var last := children[|children| - 1];
      Drop(children[..|children| - 1], osd) + (if last == osd then [] else [last])
  }

  /** The tree without the OSD: it leaves every bucket that lists it. */
  function Removed(tree: Tree, osd: int): (t: Tree)
    ensures |t| == |tree|
    ensures forall i :: 0 <= i < |tree| ==> t[i] == tree[i].(children := Drop(tree[i].children, osd))
  {
    seq(|tree|, i requires 0 <= i < |tree| => tree[i].(children := Drop(tree[i].children, osd)))
  }

  lemma {:induction false} DropConcat(a: seq<int>, b: seq<int>, osd: int)
    ensures Drop(a + b, osd) == Drop(a, osd) + Drop(b, osd)
  {
    if b == [] {
      assert a + b == a;
    } else {
      assert (a + b)[..|a + b| - 1] == a + b[..|b| - 1];
      DropConcat(a, b[..|b| - 1], osd);
    }
  }

  lemma {:induction false} DropBuckets(children: seq<int>, osd: int)
    requires osd >= 0
    ensures Osds(Drop(children, osd)) == Drop(Osds(children), osd)
  {
    if children != [] {
      var init, last := children[..|children| - 1], children[|children| - 1];
      DropBuckets(init, osd);
      if last != osd {
        assert Drop(children, osd)[..|Drop(children, osd)| - 1] == Drop(init, osd);
        if last >= 0 {
          DropConcat(Osds(init), [last], osd);
          assert Drop([last], osd) == [last];
        } else {
          assert Osds(children) == Osds(init);
          assert Osds(Drop(children, osd)) == Osds(Drop(init, osd));
        }
      } else {
        DropConcat(Osds(init), [last], osd);
        assert Drop(children, osd) == Drop(init, osd);
        assert Drop([last], osd) == [];
        assert Drop(Osds(init), osd) + [] == Drop(Osds(init), osd);
      }
    }
  }

  lemma {:induction false} ByIdRemoved(tree: Tree, osd: int, id: int)
    ensures ById(Removed(tree, osd), id) ==
              if ById(tree, id).None? then None
              else Some(ById(tree, id).value.(children := Drop(ById(tree, id).value.children, osd)))
  {
    if tree != [] {
      ByIdRemoved(tree[1..], osd, id);
      assert Removed(tree, osd)[1..] == Removed(tree[1..], osd);
    }
  }

  lemma {:induction false} ByNameRemoved(tree: Tree, osd: int, name: string)
    ensures ByName(Removed(tree, osd), name) ==
              if ByName(tree, name).None? then None
              else Some(ByName(tree, name).value.(children := Drop(ByName(tree, name).value.children, osd)))
  {
    if tree != [] {
      ByNameRemoved(tree[1..], osd, name);
      assert Removed(tree, osd)[1..] == Removed(tree[1..], osd);
    }
  }

  /** Racks list hosts, and hosts are buckets. */
  predicate RacksListBuckets(tree: Tree)
  {
    forall i, h :: 0 <= i < |tree| && tree[i].kind == "rack" && h in tree[i].children ==> h < 0
  }

  lemma {:induction false} DropNothing(hosts: seq<int>, osd: int)
    requires osd !in hosts
    ensures Drop(hosts, osd) == hosts
  {
    if hosts != [] {
      DropNothing(hosts[..|hosts| - 1], osd);
    }
  }

  lemma {:induction false} HostsRemoved(tree: Tree, hosts: seq<int>, osd: int)
    requires osd >= 0
    ensures OsdsOfHosts(Removed(tree, osd), hosts) == Drop(OsdsOfHosts(tree, hosts), osd)
  {
    if hosts != [] {
      var init, last := hosts[..|hosts| - 1], hosts[|hosts| - 1];
      HostsRemoved(tree, init, osd);
      ByIdRemoved(tree, osd, last);
      var host := ById(tree, last);
      var here := if host.None? then [] else Osds(host.value.children);
      if host.Some? {
        DropBuckets(host.value.children, osd);
      }
      DropConcat(OsdsOfHosts(tree, init), here, osd);
    }
  }

  lemma {:induction false} FoundByName(tree: Tree, name: string)
    requires ByName(tree, name).Some?
    ensures ByName(tree, name).value in tree
  {
    if tree[0].name != name {
      FoundByName(tree[1..], name);
    }
  }

  /** Removal takes the OSD out of its rack's list and changes nothing else there. */
  lemma RackRemoved(tree: Tree, zone: string, osd: int)
    requires osd >= 0 && RacksListBuckets(tree)
    ensures OsdsInRack(Removed(tree, osd), zone) == Drop(OsdsInRack(tree, zone), osd)
  {
    ByNameRemoved(tree, osd, "az." + zone);
    var rack := ByName(tree, "az." + zone);
    if rack.Some? && rack.value.kind == "rack" {
      FoundByName(tree, "az." + zone);
      DropNothing(rack.value.children, osd);
      HostsRemoved(tree, rack.value.children, osd);
    }
  }

  lemma {:induction false} DropCount(osds: seq<int>, osd: int)
    ensures |Drop(osds, osd)| == |osds| - multiset(osds)[osd]
  {
    if osds != [] {
      var init, last := osds[..|osds| - 1], osds[|osds| - 1];
      assert osds == init + [last];
      DropCount(init, osd);
    }
  }

  /** How often the OSD is listed in the zone's rack. */
  function Listed(tree: Tree, zone: string, osd: int): nat
  {
    multiset(OsdsInRack(tree, zone))[osd]
  }

  /** The OSD sits in rack `home` once, and in no other zone's rack. */
  predicate LivesIn(tree: Tree, zones: set<string>, osd: int, home: string)
  {
    home in zones && forall z :: z in zones ==> Listed(tree, z, osd) == if z == home then 1 else 0
  }

  lemma ActiveAfterRemoval(tree: Tree, zones: set<string>, osd: int, home: string)
    requires osd >= 0 && RacksListBuckets(tree) && LivesIn(tree, zones, osd, home)
    ensures Active(Removed(tree, osd), zones)
         == Active(tree, zones) - (if |OsdsInRack(tree, home)| == 1 then {home} else {})
    ensures home in Active(tree, zones)
  {
    forall z | z in zones
      ensures |OsdsInRack(Removed(tree, osd), z)| == |OsdsInRack(tree, z)| - (if z == home then 1 else 0)
    {
      RackRemoved(tree, z, osd);
      DropCount(OsdsInRack(tree, z), osd);
      assert Listed(tree, z, osd) == multiset(OsdsInRack(tree, z))[osd];
    }
    assert Listed(tree, home, osd) == 1;
    assert |multiset(OsdsInRack(tree, home))| == |OsdsInRack(tree, home)|;
  }

  /** Exactly when a removal that passes the check breaks the failure domain: three zones are left, the OSD is
      the last of its rack, and its host is tagged with some other zone that has more, or with none. */
  lemma AllowedRemovalBreaksIff(tree: Tree, zones: set<string>, osd: int, home: string, tag: string)
    requires osd >= 0 && RacksListBuckets(tree) && LivesIn(tree, zones, osd, home)
    requires |Active(tree, zones)| >= MIN_ZONES
    ensures !Blocked(tree, zones, tag) && |Active(Removed(tree, osd), zones)| < MIN_ZONES
       <==> |Active(tree, zones)| == MIN_ZONES && |OsdsInRack(tree, home)| == 1
            && (tag == "" || |OsdsInRack(tree, tag)| > 1)
  {
    ActiveAfterRemoval(tree, zones, osd, home);
  }

  /** With every host tagged by the zone of its rack, the check refuses exactly the removals that would leave fewer
      than three zones. */
  lemma BlockedIffBreaks(tree: Tree, zones: set<string>, osd: int, tag: string)
    requires osd >= 0 && "" !in zones && RacksListBuckets(tree) && LivesIn(tree, zones, osd, tag)
    requires |Active(tree, zones)| >= 3
    ensures Blocked(tree, zones, tag) <==> |Active(Removed(tree, osd), zones)| < 3
  {
    ActiveAfterRemoval(tree, zones, osd, tag);
  }

  /** An OSD counts for a zone exactly if it is a child of a host listed by the first node with the zone's rack name,
      that node being a rack. */
  lemma {:induction false} CountedIff(tree: Tree, hosts: seq<int>, osd: int)
    ensures osd in OsdsOfHosts(tree, hosts) <==>
              osd >= 0 && exists h :: h in hosts && ById(tree, h).Some? && osd in ById(tree, h).value.children
  {
    if hosts != [] {
      var init, last := hosts[..|hosts| - 1], hosts[|hosts| - 1];
      CountedIff(tree, init, osd);
      assert hosts == init + [last];
      assert osd in OsdsOfHosts(tree, hosts) <==>
             osd in OsdsOfHosts(tree, init)
             || (osd >= 0 && ById(tree, last).Some? && osd in ById(tree, last).value.children);
      if h :| h in init && ById(tree, h).Some? && osd in ById(tree, h).value.children { assert h in hosts; }
      if h :| h in hosts && ById(tree, h).Some? && osd in ById(tree, h).value.children {
        assert h in init || h == last;
      }
    }
  }

  /** With every host tagged by the zone of its rack, an allowed removal keeps three zones. */
  lemma AllowedRemovalKeepsZones(tree: Tree, zones: set<string>, osd: int, tag: string)
    requires osd >= 0 && "" !in zones && RacksListBuckets(tree) && LivesIn(tree, zones, osd, tag)
    requires |Active(tree, zones)| >= MIN_ZONES && !Blocked(tree, zones, tag)
    ensures |Active(Removed(tree, osd), zones)| >= MIN_ZONES
  {
    AllowedRemovalBreaksIff(tree, zones, osd, tag, tag);
  }

  lemma {:induction false} FirstByName(tree: Tree, name: string, k: nat)
    requires k < |tree| && tree[k].name == name && forall i :: 0 <= i < k ==> tree[i].name != name
    ensures ByName(tree, name) == Some(tree[k])
  {
    if k > 0 {
      FirstByName(tree[1..], name, k - 1);
    }
  }

  lemma {:induction false} FirstById(tree: Tree, id: int, k: nat)
    requires k < |tree| && tree[k].id == id && forall i :: 0 <= i < k ==> tree[i].id != id
    ensures ById(tree, id) == Some(tree[k])
  {
    if k > 0 {
      FirstById(tree[1..], id, k - 1);
    }
  }

  function Rack(zone: string, host: int): Node { Node(host - 10, "az." + zone, "rack", [host]) }
  function Host(id: int, osd: int): Node { Node(id, "host", "host", [osd]) }

  lemma RackOfOne(tree: Tree, zone: string, host: int, osd: int, r: nat, h: nat)
    requires r < |tree| && tree[r] == Rack(zone, host) && forall i :: 0 <= i < r ==> tree[i].name != "az." + zone
    requires h < |tree| && tree[h] == Host(host, osd) && forall i :: 0 <= i < h ==> tree[i].id != host
    requires osd >= 0
    ensures OsdsInRack(tree, zone) == [osd]
  {
    FirstByName(tree, "az." + zone, r);
    FirstById(tree, host, h);
    assert Osds([osd]) == [osd] by { assert Osds([osd][..0]) == []; }
    assert OsdsOfHosts(tree, [host][..0]) == [];
  }

  function Example(): Tree
  {
    [Host(-1, 0), Host(-2, 1), Host(-3, 2), Rack("a", -1), Rack("b", -2), Rack("c", -3)]
  }

  lemma ExampleNames()
    ensures "a" != "b" && "a" != "c" && "b" != "c"
    ensures "az." + "a" != "az." + "b" && "az." + "a" != "az." + "c" && "az." + "b" != "az." + "c"
    ensures "az." + "a" != "host" && "az." + "b" != "host" && "az." + "c" != "host"
  {
    assert "a"[0] != "b"[0] && "a"[0] != "c"[0] && "b"[0] != "c"[0];
    assert ("az." + "a")[3] == 'a' && ("az." + "b")[3] == 'b' && ("az." + "c")[3] == 'c' && "host"[0] == 'h';
  }

  lemma ExampleRacks()
    ensures OsdsInRack(Example(), "a") == [0] && OsdsInRack(Example(), "b") == [1] && OsdsInRack(Example(), "c") == [2]
  {
    ExampleNames();
    RackOfOne(Example(), "a", -1, 0, 3, 0);
    RackOfOne(Example(), "b", -2, 1, 4, 1);
    RackOfOne(Example(), "c", -3, 2, 5, 2);
  }

  lemma ListedInRackOfOne(tree: Tree, zone: string, osd: int, x: int)
    requires OsdsInRack(tree, zone) == [osd]
    ensures Listed(tree, zone, x) == if x == osd then 1 else 0
  {
    assert multiset([osd])[x] == if x == osd then 1 else 0;
  }

  lemma OneEach(tree: Tree, zones: set<string>, a: string, b: string, c: string)
    requires zones == {a, b, c} && a != b && a != c
    requires OsdsInRack(tree, a) == [0] && OsdsInRack(tree, b) == [1] && OsdsInRack(tree, c) == [2]
    ensures LivesIn(tree, zones, 0, a)
  {
    ListedInRackOfOne(tree, a, 0, 0);
    ListedInRackOfOne(tree, b, 1, 0);
    ListedInRackOfOne(tree, c, 2, 0);
  }

  lemma ExampleBuckets()
    ensures RacksListBuckets(Example())
  {
  }

  /** Three racks with one OSD each, and an OSD whose host has no tag: the check lets its rack go empty. */
  lemma UntaggedLastOsd(tree: Tree, zones: set<string>, a: string, b: string, c: string)
    requires zones == {a, b, c} && a != b && a != c && b != c && RacksListBuckets(tree)
    requires OsdsInRack(tree, a) == [0] && OsdsInRack(tree, b) == [1] && OsdsInRack(tree, c) == [2]
    ensures |Active(tree, zones)| == MIN_ZONES && !Blocked(tree, zones, "")
    ensures |Active(Removed(tree, 0), zones)| < MIN_ZONES
  {
    OneEach(tree, zones, a, b, c);
    AllInUse(tree, zones, a, b, c);
    AllowedRemovalBreaksIff(tree, zones, 0, a, "");
  }

  /** Such a tree exists. */
  lemma UntaggedHostLosesAZone(zones: set<string>)
    requires zones == {"a", "b", "c"}
    ensures |Active(Example(), zones)| == MIN_ZONES && !Blocked(Example(), zones, "")
    ensures |Active(Removed(Example(), 0), zones)| < MIN_ZONES
  {
    ExampleNames();
    ExampleRacks();
    ExampleBuckets();
    UntaggedLastOsd(Example(), zones, "a", "b", "c");
  }

  lemma AllInUse(tree: Tree, zones: set<string>, a: string, b: string, c: string)
    requires zones == {a, b, c} && a != b && a != c && b != c
    requires OsdsInRack(tree, a) != [] && OsdsInRack(tree, b) != [] && OsdsInRack(tree, c) != []
    ensures Active(tree, zones) == zones && |zones| == 3
  {
    forall z | z in zones
      ensures z in Active(tree, zones)
    {
      assert z == a || z == b || z == c;
    }
    assert |{a, b}| == 2 && zones == {a, b} + {c};
  }

  // ----- whole runs -----

  /** Every OSD still listed sits once, in the rack of its own host's zone. */
  ghost predicate Tagged(tree: Tree, zones: set<string>, tagOf: int -> string)
  {
    forall x, z :: z in zones && Listed(tree, z, x) > 0 ==> LivesIn(tree, zones, x, tagOf(x))
  }

  function RemoveAll(tree: Tree, zones: set<string>, tagOf: int -> string, osds: seq<int>): Option<Tree>
    decreases |osds|
  {
    if osds == [] then Some(tree)
    else if Blocked(tree, zones, tagOf(osds[0])) then None
    else RemoveAll(Removed(tree, osds[0]), zones, tagOf, osds[1..])
  }

  lemma {:induction false} DropOthers(osds: seq<int>, osd: int, x: int)
    requires x != osd
    ensures multiset(Drop(osds, osd))[x] == multiset(osds)[x]
  {
    if osds != [] {
      var init, last := osds[..|osds| - 1], osds[|osds| - 1];
      assert osds == init + [last];
      DropOthers(init, osd, x);
    }
  }

  lemma {:induction false} DropGone(osds: seq<int>, osd: int)
    ensures multiset(Drop(osds, osd))[osd] == 0
  {
    if osds != [] {
      DropGone(osds[..|osds| - 1], osd);
    }
  }

  lemma TaggedAfterRemoval(tree: Tree, zones: set<string>, tagOf: int -> string, osd: int)
    requires osd >= 0 && RacksListBuckets(tree) && Tagged(tree, zones, tagOf)
    ensures Tagged(Removed(tree, osd), zones, tagOf) && RacksListBuckets(Removed(tree, osd))
  {
    var after := Removed(tree, osd);
    forall z, x | z in zones
      ensures Listed(after, z, x) == if x == osd then 0 else Listed(tree, z, x)
    {
      RackRemoved(tree, z, osd);
      if x == osd { DropGone(OsdsInRack(tree, z), osd); } else { DropOthers(OsdsInRack(tree, z), osd, x); }
    }
    forall x, z | z in zones && Listed(after, z, x) > 0
      ensures LivesIn(after, zones, x, tagOf(x))
    {
      assert LivesIn(tree, zones, x, tagOf(x));
    }
    forall i, h | 0 <= i < |after| && after[i].kind == "rack" && h in after[i].children
      ensures h < 0
    {
      DropSubset(tree[i].children, osd, h);
    }
  }

  lemma {:induction false} DropSubset(children: seq<int>, osd: int, h: int)
    requires h in Drop(children, osd)
    ensures h in children
  {
    if h in Drop(children[..|children| - 1], osd) {
      DropSubset(children[..|children| - 1], osd, h);
    }
  }

  /** Any sequence of removals that the check allows keeps at least three zones. */
  lemma {:induction false} AllowedRunKeepsZones(tree: Tree, zones: set<string>, tagOf: int -> string, osds: seq<int>)
    requires "" !in zones && RacksListBuckets(tree) && Tagged(tree, zones, tagOf)
    requires forall i :: 0 <= i < |osds| ==> osds[i] >= 0
    requires |Active(tree, zones)| >= MIN_ZONES && RemoveAll(tree, zones, tagOf, osds).Some?
    ensures |Active(RemoveAll(tree, zones, tagOf, osds).value, zones)| >= MIN_ZONES
    decreases |osds|
  {
    if osds != [] {
      var osd := osds[0];
      TaggedAfterRemoval(tree, zones, tagOf, osd);
      if z :| z in zones && Listed(tree, z, osd) > 0 {
        AllowedRemovalKeepsZones(tree, zones, osd, tagOf(osd));
      } else {
        UnlistedRemoval(tree, zones, osd);
      }
      AllowedRunKeepsZones(Removed(tree, osd), zones, tagOf, osds[1..]);
    }
  }

  lemma UnlistedRemoval(tree: Tree, zones: set<string>, osd: int)
    requires osd >= 0 && RacksListBuckets(tree) && forall z :: z in zones ==> Listed(tree, z, osd) == 0
    ensures Active(Removed(tree, osd), zones) == Active(tree, zones)
  {
    forall z | z in zones
      ensures |OsdsInRack(Removed(tree, osd), z)| == |OsdsInRack(tree, z)|
    {
      RackRemoved(tree, z, osd);
      DropCount(OsdsInRack(tree, z), osd);
      assert Listed(tree, z, osd) == multiset(OsdsInRack(tree, z))[osd];
    }
  }
}
