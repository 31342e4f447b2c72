/** What peer lists never contain, and that peering is mutual. */
module Isolation {
  import opened Text
  import opened Cidr
  import opened Model
  import opened Queries
  import opened Steps
  import opened Invariants
  import opened Allocation
  import opened Routing
  import opened HubFilter
  import opened Lookups
  import opened Delivery
  import opened Egress

  // ---- no leaks ----

  /** Apart from a default route, which only a spoke that chose its own hub for egress carries,
      no AllowedIPs entry at a node of one hub matches an address of an unlinked hub's mesh. */
  lemma NoLeak(s: State, x: nat, p: Peer, q: Prefix, c: nat, a: Addr)
    requires Sane(s) && Up(s, x) && p in NodePeers(s, x) && Allows(p, q) && Contains(q, a)
    requires InHub(s, c, a) && c != s.devices[x].hub && c !in LinkSet(s, s.devices[x].hub)
    ensures q.len == 0 && Spoke(s, x) && s.devices[x].egress == Some(s.devices[x].hub)
  {
    DeviceFacts(s, x);
    var h := s.devices[x].hub;
    assert RowOk(s, h);
    if Spoke(s, x) {
      SpokePeersAre(s, x, p);
      if i :| LanPeer(s, s.devices[x], i) && p == DevicePeer(s.devices[i]) {
        assert RowOk(s, x) && RowOk(s, i);
        DeviceFacts(s, i);
        HostRoute(IpOf(s, i), a);
        OneHub(s, h, c, a);
      } else {
        SpokeHubEntryClean(s, x, q, c, a);
      }
    } else {
      HubPeersAre(s, h, p);
      if i :| SpokeOf(s, h, x, i) && p == SpokePeer(s.devices[i]) {
        DeviceFacts(s, i);
        HostRoute(IpOf(s, i), a);
        OneHub(s, h, c, a);
      } else {
        var d :| d in s.hubs && Usable(s.hubs[d], h) && d in LinkSet(s, h) && p == FabricPeer(s.hubs[d]);
        assert RowOk(s, d);
        assert q.len <= Best(p, a);
        FabricBest(s, d, c, a);
      }
    }
  }

  lemma SpokeHubEntryClean(s: State, x: nat, q: Prefix, c: nat, a: Addr)
    requires Sane(s) && Spoke(s, x) && Allows(HubPeer(s, s.devices[x], s.hubs[s.devices[x].hub]), q) && Contains(q, a)
    requires InHub(s, c, a) && c != s.devices[x].hub && c !in LinkSet(s, s.devices[x].hub)
    ensures q.len == 0 && s.devices[x].egress == Some(s.devices[x].hub)
  {
    var h := s.devices[x].hub;
    var p := HubPeer(s, s.devices[x], s.hubs[h]);
    assert RowOk(s, h) && AddressOk(s, h);
    HubInOwnMesh(s, h, h);
    HostRoute(s.hubs[h].wgIp.addr, a);
    MeshCanonical(s, h);
    if HostPrefix(p.wgIp) == Some(q) {
      OneHub(s, h, c, a);
    } else {
      var r :| r in p.extra && Parse(r) == Some(q);
      HubEntryKinds(s, s.devices[x], h, r);
      if r in EgressExtra(s.devices[x].egress, s.hubs[h], Hubs(s)) {
        EgressAdvertised(s, s.devices[x], h, r);
        if r != DEFAULT_ROUTE {
          EgressMisses(s, s.devices[x], h, r, c, a);
        }
      } else if r == Spell(MeshOf(s, h)) {
        OneHub(s, h, c, a);
      } else {
        var d :| d in s.hubs && Usable(s.hubs[d], h) && d in LinkSet(s, h) && r == Spell(MeshOf(s, d));
        MeshCanonical(s, d);
        OneHub(s, d, c, a);
      }
    }
  }

  // ---- one key per prefix ----

  /** Hub c advertises the subnet q. */
  ghost predicate Advertises(s: State, c: nat, q: Prefix)
    requires c in s.hubs
  {
    exists r :: r in s.hubs[c].routes && r != DEFAULT_ROUTE && Parse(r) == Some(q)
  }

  /** Two fabric peers of hub h advertise the same subnet q. */
  ghost predicate TwoAdvertise(s: State, h: nat, q: Prefix) {
    exists c, d :: c != d && Fabric(s, h, c) && Fabric(s, h, d) && Advertises(s, c, q) && Advertises(s, d, q)
  }

  lemma ParsedIsCanonical(r: CidrText, q: Prefix)
    requires Parse(r) == Some(q)
    ensures Contains(q, q.net)
  {
    MaskIdempotent(r.addr, 32 - r.len);
  }

  lemma AdvertisedOffMesh(s: State, c: nat, q: Prefix, j: nat)
    requires Sane(s) && c in s.hubs && Advertises(s, c, q) && j in s.hubs
    ensures !InHub(s, j, q.net)
  {
    var r :| r in s.hubs[c].routes && r != DEFAULT_ROUTE && Parse(r) == Some(q);
    ParsedIsCanonical(r, q);
    if InHub(s, j, q.net) {
      SubnetMisses(s, c, r, j, q.net);
    }
  }

  /** An entry of a fabric peer starts in that hub's mesh or is a subnet it advertises. */
  lemma FabricEntry(s: State, h: nat, c: nat, q: Prefix)
    requires Sane(s) && Fabric(s, h, c)
    ensures Allows(FabricPeer(s.hubs[c]), q) ==> InHub(s, c, q.net) || Advertises(s, c, q)
    ensures Advertises(s, c, q) ==> Allows(FabricPeer(s.hubs[c]), q)
  {
    var p := FabricPeer(s.hubs[c]);
    assert RowOk(s, c) && AddressOk(s, c);
    HubInOwnMesh(s, c, c);
    HostRoute(s.hubs[c].wgIp.addr, s.hubs[c].wgIp.addr);
    MeshCanonical(s, c);
    if Allows(p, q) && HostPrefix(p.wgIp) != Some(q) {
      var r :| r in p.extra && Parse(r) == Some(q);
      ParsedIsCanonical(r, q);
      assert r == Spell(MeshOf(s, c)) || r in SubnetRoutes(s.hubs[c].routes);
    }
    if r :| r in s.hubs[c].routes && r != DEFAULT_ROUTE && Parse(r) == Some(q) {
      assert r in SubnetRoutes(s.hubs[c].routes) && r in p.extra;
    }
  }

  /** A device entry is its address, which lies in its own hub's mesh. */
  lemma DeviceEntry(s: State, i: nat, q: Prefix)
    requires Sane(s) && Up(s, i) && (Allows(DevicePeer(s.devices[i]), q) || Allows(SpokePeer(s.devices[i]), q))
    ensures s.devices[i].ip == Bare(q.net) && q.len == 32 && InHub(s, s.devices[i].hub, q.net)
  {
    DeviceFacts(s, i);
    HostRoute(IpOf(s, i), IpOf(s, i));
  }

  lemma FabricKeys(s: State, h: nat, c: nat, d: nat, q: Prefix)
    requires Sane(s) && Fabric(s, h, c) && Fabric(s, h, d)
    requires Allows(FabricPeer(s.hubs[c]), q) && Allows(FabricPeer(s.hubs[d]), q)
    ensures c == d || TwoAdvertise(s, h, q)
  {
    hide Allows, Advertises;
    FabricEntry(s, h, c, q);
    FabricEntry(s, h, d, q);
    if c != d {
      if InHub(s, c, q.net) && InHub(s, d, q.net) {
        OneHub(s, c, d, q.net);
      } else if InHub(s, c, q.net) {
        AdvertisedOffMesh(s, d, q, c);
      } else if InHub(s, d, q.net) {
        AdvertisedOffMesh(s, c, q, d);
      }
    }
  }

  /** A single device's entry is nobody's else in a hub's list. */
  lemma SpokeEntryKeys(s: State, h: nat, x: nat, i: nat, p: Peer, q: Prefix)
    requires Sane(s) && h in s.hubs && s.hubs[h].bound == Some(x) && BoundTo(s, h, x) && p in NodePeers(s, x)
    requires SpokeOf(s, h, x, i) && Allows(SpokePeer(s.devices[i]), q) && Allows(p, q)
    ensures p.pubkey == s.devices[i].pubkey
  {
    hide NodePeers, Allows, FabricPeer;
    DeviceEntry(s, i, q);
    HubPeersAre(s, h, p);
    if j :| SpokeOf(s, h, x, j) && p == SpokePeer(s.devices[j]) {
      DeviceEntry(s, j, q);
      SameIpSameDevice(s, i, j);
    } else {
      var c :| c in s.hubs && Usable(s.hubs[c], h) && c in LinkSet(s, h) && p == FabricPeer(s.hubs[c]);
      assert RowOk(s, c);
      FabricEntry(s, h, c, q);
      if InHub(s, c, q.net) {
        OneHub(s, h, c, q.net);
      } else {
        AdvertisedOffMesh(s, c, q, h);
      }
    }
  }

  lemma HubListKeys(s: State, h: nat, x: nat, p: Peer, p': Peer, q: Prefix)
    requires Sane(s) && h in s.hubs && s.hubs[h].bound == Some(x) && BoundTo(s, h, x)
    requires p in NodePeers(s, x) && p' in NodePeers(s, x) && Allows(p, q) && Allows(p', q)
    ensures p.pubkey == p'.pubkey || TwoAdvertise(s, h, q)
  {
    hide NodePeers, Allows, FabricPeer, TwoAdvertise, BoundTo;
    assert x in s.devices && s.devices[x].hub == h by { BoundDevice(s, h, x); }
    HubPeersAre(s, h, p);
    HubPeersAre(s, h, p');
    if i :| SpokeOf(s, h, x, i) && p == SpokePeer(s.devices[i]) {
      SpokeEntryKeys(s, h, x, i, p', q);
    } else if i :| SpokeOf(s, h, x, i) && p' == SpokePeer(s.devices[i]) {
      SpokeEntryKeys(s, h, x, i, p, q);
    } else {
      var c :| c in s.hubs && Usable(s.hubs[c], h) && c in LinkSet(s, h) && p == FabricPeer(s.hubs[c]);
      var d :| d in s.hubs && Usable(s.hubs[d], h) && d in LinkSet(s, h) && p' == FabricPeer(s.hubs[d]);
      FabricKeys(s, h, c, d, q);
    }
  }

  lemma BoundDevice(s: State, h: nat, x: nat)
    requires h in s.hubs && BoundTo(s, h, x)
    ensures x in s.devices && s.devices[x].hub == h
  {
  }

  /** A LAN peer's address is no entry of another key in a spoke's list. */
  lemma LanEntryKeys(s: State, x: nat, i: nat, p: Peer, q: Prefix)
    requires Sane(s) && Spoke(s, x) && LanPeer(s, s.devices[x], i) && p in NodePeers(s, x)
    requires Allows(DevicePeer(s.devices[i]), q) && Allows(p, q)
    ensures p.pubkey == s.devices[i].pubkey
  {
    hide NodePeers;
    DeviceEntry(s, i, q);
    SpokePeersAre(s, x, p);
    if j :| LanPeer(s, s.devices[x], j) && p == DevicePeer(s.devices[j]) {
      DeviceEntry(s, j, q);
      SameIpSameDevice(s, i, j);
    } else {
      var h := s.devices[x].hub;
      BoundFacts(s, h);
      if HostPrefix(p.wgIp) == Some(q) {
        SameIpSameDevice(s, i, s.hubs[h].bound.value);
      } else {
        var r :| r in p.extra && Parse(r) == Some(q);
        ParsedIsCanonical(r, q);
        HubEntryShort(s, s.devices[x], h, s.devices[i].hub, q.net, r);
      }
    }
  }

  lemma SpokeListKeys(s: State, x: nat, p: Peer, p': Peer, q: Prefix)
    requires Sane(s) && Spoke(s, x) && p in NodePeers(s, x) && p' in NodePeers(s, x) && Allows(p, q) && Allows(p', q)
    ensures p.pubkey == p'.pubkey
  {
    hide NodePeers, Allows, HubPeer;
    SpokePeersAre(s, x, p);
    SpokePeersAre(s, x, p');
    if i :| LanPeer(s, s.devices[x], i) && p == DevicePeer(s.devices[i]) {
      LanEntryKeys(s, x, i, p', q);
    } else if i :| LanPeer(s, s.devices[x], i) && p' == DevicePeer(s.devices[i]) {
      LanEntryKeys(s, x, i, p, q);
    }
  }

  /** p is an entry of x's list for the prefix q. */
  ghost predicate Names(s: State, x: nat, p: Peer, q: Prefix) {
    p in NodePeers(s, x) && Allows(p, q)
  }

  /** x's list names two keys for the prefix q. */
  ghost predicate TwoKeys(s: State, x: nat, q: Prefix) {
    exists p, p' :: Names(s, x, p, q) && Names(s, x, p', q) && p.pubkey != p'.pubkey
  }

  /** Within one peer list equal prefixes name the same key, although the same hub may be listed
      twice, in every case but one: at a hub, when two of its fabric peers advertise that
      prefix. */
  lemma EqualPrefixesIff(s: State, x: nat, q: Prefix)
    requires Sane(s) && Up(s, x)
    ensures s.devices[x].hub in s.hubs
    ensures TwoKeys(s, x, q) <==>
              s.hubs[s.devices[x].hub].bound == Some(x) && TwoAdvertise(s, s.devices[x].hub, q)
  {
    hide NodePeers, Allows, Advertises, BoundTo, Usable;
    DeviceFacts(s, x);
    var h := s.devices[x].hub;
    if s.hubs[h].bound == Some(x) {
      HubBoundTo(s, h, x);
      if TwoKeys(s, x, q) {
        var p, p' :| Names(s, x, p, q) && Names(s, x, p', q) && p.pubkey != p'.pubkey;
        HubListKeys(s, h, x, p, p', q);
      }
      if TwoAdvertise(s, h, q) {
        AdvertisersListed(s, h, x, q);
      }
    } else if TwoKeys(s, x, q) {
      var p, p' :| Names(s, x, p, q) && Names(s, x, p', q) && p.pubkey != p'.pubkey;
      SpokeListKeys(s, x, p, p', q);
    }
  }

  lemma HubBoundTo(s: State, h: nat, x: nat)
    requires Inv(s) && h in s.hubs && s.hubs[h].bound == Some(x)
    ensures BoundTo(s, h, x)
  {
    assert RowOk(s, h);
  }

  lemma AdvertisersListed(s: State, h: nat, x: nat, q: Prefix)
    requires Sane(s) && h in s.hubs && s.hubs[h].bound == Some(x) && BoundTo(s, h, x) && TwoAdvertise(s, h, q)
    ensures TwoKeys(s, x, q)
  {
    hide NodePeers, Allows, Advertises;
    var c, d :| c != d && Fabric(s, h, c) && Fabric(s, h, d) && Advertises(s, c, q) && Advertises(s, d, q);
    HubPeersAre(s, h, FabricPeer(s.hubs[c]));
    HubPeersAre(s, h, FabricPeer(s.hubs[d]));
    FabricEntry(s, h, c, q);
    FabricEntry(s, h, d, q);
    KeysApart(s, c, d);
    assert Names(s, x, FabricPeer(s.hubs[c]), q) && Names(s, x, FabricPeer(s.hubs[d]), q);
    assert FabricPeer(s.hubs[c]).pubkey != FabricPeer(s.hubs[d]).pubkey;
  }

  // ---- no default route crosses hubs ----

  /** Apart from its address, a fabric peer carries its mesh and its advertised subnets, none of
      which is the /0 network. */
  lemma FabricExtrasLong(s: State, own: nat, c: nat, r: CidrText)
    requires Inv(s) && own in s.hubs && Fabric(s, own, c) && r in FabricPeer(s.hubs[c]).extra
    ensures Parse(r).Some? && Parse(r).value.len > 0
  {
    assert RowOk(s, c);
    MeshCanonical(s, c);
    if r == Spell(MeshOf(s, c)) {
      assert Apart(s, own, c) && RowOk(s, own);
      if MeshOf(s, c).len == 0 {
        AllContain(MeshOf(s, c), MeshOf(s, own).net);
      }
    } else {
      assert r in SubnetRoutes(s.hubs[c].routes);
      assert RouteOk(r);
    }
  }

  /** After calm runs no fabric peer carries the /0 network. */
  lemma CalmFabricNoDefault(es: seq<Event>, own: nat, p: Peer, q: Prefix)
    requires forall e | e in es :: Calm(e)
    requires var s := Run(es); own in s.hubs && p in OtherHubPeers(Hubs(s), own, s.hubs[own].mesh, LinkSet(s, own))
    requires Allows(p, q)
    ensures q.len > 0
  {
    hide Run, OtherHubPeers;
    RunInv(es);
    CalmRunAddressed(es);
    var s := Run(es);
    FabricAddressed(s, own, p);
    FabricExact(s, own, p);
    var c :| c in s.hubs && Usable(s.hubs[c], own) && c in LinkSet(s, own) && p == FabricPeer(s.hubs[c]);
    if HostPrefix(p.wgIp) != Some(q) {
      var r :| r in p.extra && Parse(r) == Some(q);
      FabricExtrasLong(s, own, c, r);
    }
  }

  /** After every run, cross-hub egress routes never denote the /0 network. */
  lemma CrossHubEgressNoDefault(es: seq<Event>, x: Device, h: nat, r: CidrText)
    requires h in Run(es).hubs && x.egress != Some(h) && r in EgressExtra(x.egress, Run(es).hubs[h], Hubs(Run(es)))
    ensures r != DEFAULT_ROUTE && Parse(r).Some? && Parse(r).value.len > 0
  {
    var s := Run(es);
    RunInv(es);
    HubsSorted(s);
    assert RowOk(s, h);
    var f := FindHub(Hubs(s), x.egress.value);
    assert RowOk(s, f.value.id);
    assert RouteOk(r);
  }

  // ---- mutual peering ----

  /** x's peer list names y. */
  ghost predicate Lists(s: State, x: nat, y: nat) {
    y in s.devices && exists p :: p in NodePeers(s, x) && p.pubkey == s.devices[y].pubkey
  }

  lemma SpokeLists(s: State, x: nat, y: nat)
    requires Inv(s) && Spoke(s, x) && Up(s, y) && x != y
    ensures Lists(s, x, y) <==>
              LanPair(s, x, y) || (s.hubs[s.devices[x].hub].Configured() && s.hubs[s.devices[x].hub].bound == Some(y))
  {
    var h := s.devices[x].hub;
    assert RowOk(s, h) && RowOk(s, x);
    if Lists(s, x, y) {
      var p :| p in NodePeers(s, x) && p.pubkey == s.devices[y].pubkey;
      SpokePeersAre(s, x, p);
      if i :| LanPeer(s, s.devices[x], i) && p == DevicePeer(s.devices[i]) {
        assert Apart(s, i, y);
      } else {
        assert Apart(s, s.hubs[h].bound.value, y);
      }
    }
    if LanPair(s, x, y) {
      SpokePeersAre(s, x, DevicePeer(s.devices[y]));
      assert LanPeer(s, s.devices[x], y);
    } else if s.hubs[h].Configured() && s.hubs[h].bound == Some(y) {
      SpokePeersAre(s, x, HubPeer(s, s.devices[x], s.hubs[h]));
    }
  }

  lemma HubLists(s: State, x: nat, y: nat)
    requires Inv(s) && Up(s, x) && Up(s, y) && x != y && s.devices[x].hub in s.hubs && s.devices[y].hub in s.hubs
    requires s.hubs[s.devices[x].hub].bound == Some(x)
    ensures var g, h := s.devices[x].hub, s.devices[y].hub;
            Lists(s, x, y) <==> g == h || (Usable(s.hubs[h], g) && h in LinkSet(s, g) && s.hubs[h].bound == Some(y))
  {
    var g, h := s.devices[x].hub, s.devices[y].hub;
    assert RowOk(s, g) && RowOk(s, h);
    if Lists(s, x, y) {
      var p :| p in NodePeers(s, x) && p.pubkey == s.devices[y].pubkey;
      HubPeersAre(s, g, p);
      if i :| SpokeOf(s, g, x, i) && p == SpokePeer(s.devices[i]) {
        assert Apart(s, i, y);
      } else {
        var c :| c in s.hubs && Usable(s.hubs[c], g) && c in LinkSet(s, g) && p == FabricPeer(s.hubs[c]);
        assert RowOk(s, c);
        assert Apart(s, s.hubs[c].bound.value, y);
      }
    }
    if g == h {
      assert SpokeOf(s, g, x, y);
      HubPeersAre(s, g, SpokePeer(s.devices[y]));
    } else if Usable(s.hubs[h], g) && h in LinkSet(s, g) && s.hubs[h].bound == Some(y) {
      HubPeersAre(s, g, FabricPeer(s.hubs[h]));
    }
  }

  /** After every run peering is mutual across LAN-direct and spoke-hub entries, whatever the
      endpoints. A hub-hub entry is answered exactly when the listing hub has an endpoint. */
  lemma PeeringMutual(es: seq<Event>, x: nat, y: nat)
    requires Up(Run(es), x) && Up(Run(es), y) && x != y && Lists(Run(es), x, y)
    ensures Run(es).devices[x].hub in Run(es).hubs
    ensures var s := Run(es);
            Lists(s, y, x) <==> s.devices[x].hub == s.devices[y].hub || s.hubs[s.devices[x].hub].endpoint != ""
  {
    hide Run;
    RunInv(es);
    ListedBack(Run(es), x, y);
  }

  lemma ListedBack(s: State, x: nat, y: nat)
    requires Inv(s) && Up(s, x) && Up(s, y) && x != y && Lists(s, x, y)
    ensures s.devices[x].hub in s.hubs
    ensures Lists(s, y, x) <==> s.devices[x].hub == s.devices[y].hub || s.hubs[s.devices[x].hub].endpoint != ""
  {
    hide Lists;
    assert RowOk(s, x) && RowOk(s, y);
    var g, h := s.devices[x].hub, s.devices[y].hub;
    assert RowOk(s, g) && RowOk(s, h);
    LinkSymmetric(s, g, h);
    if Spoke(s, x) { SpokeLists(s, x, y); } else { HubLists(s, x, y); }
    if Spoke(s, y) { SpokeLists(s, y, x); } else { HubLists(s, y, x); }
  }
}
