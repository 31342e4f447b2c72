/** What each node's peer list does with an address of some hub's mesh. */
module Lookups {
  import opened Text
  import opened Cidr
  import opened Model
  import opened Queries
  import opened Steps
  import opened Invariants
  import opened Allocation
  import opened Routing
  import opened HubFilter

  ghost predicate Clear(route: CidrText, mesh: CidrText) {
    Parse(route).Some? && Parse(mesh).Some? ==> !Overlaps(Parse(route).value, Parse(mesh).value)
  }

  /** The mesh overlaps no advertised subnet. */
  ghost predicate OffRoutes(hubs: map<nat, Hub>, mesh: CidrText) {
    forall h, r | h in hubs && r in hubs[h].routes && r != DEFAULT_ROUTE :: Clear(r, mesh)
  }

  /** No advertised subnet overlaps a mesh. */
  ghost predicate SubnetsClear(s: State) {
    forall k | k in s.hubs :: OffRoutes(s.hubs, s.hubs[k].mesh)
  }

  /** The databases that the delivery results speak about. */
  ghost predicate Sane(s: State) {
    Inv(s) && Addressed(s) && AllWide(s) && SubnetsClear(s)
  }

  /** Every run without mesh or address edits and without meshes longer than /24 ends in such a
      database, if the advertised subnets are clear of the meshes at its end. */
  lemma CalmRunSane(es: seq<Event>)
    requires forall e | e in es :: Calm(e) && Wide(e)
    requires SubnetsClear(Run(es))
    ensures Sane(Run(es))
  {
    RunInv(es);
    CalmRunAddressed(es);
    WideRunWide(es);
  }

  /** a lies in the mesh of hub k. */
  ghost predicate InHub(s: State, k: nat, a: Addr) {
    k in s.hubs && Parse(s.hubs[k].mesh).Some? && Contains(MeshOf(s, k), a)
  }

  function IpOf(s: State, x: nat): Addr
    requires x in s.devices && s.devices[x].ip.Bare?
  {
    s.devices[x].ip.addr
  }

  ghost predicate Up(s: State, x: nat) {
    x in s.devices && s.devices[x].Live()
  }

  lemma DeviceFacts(s: State, x: nat)
    requires Sane(s) && x in s.devices
    ensures s.devices[x].ip.Bare? && s.devices[x].hub in s.hubs && s.devices[x].id == x && x < s.nextDevice
    ensures InHub(s, s.devices[x].hub, IpOf(s, x))
    ensures s.devices[x].pubkey != ""
  {
    assert RowOk(s, x) && AddressOk(s, x) && RowOk(s, s.devices[x].hub);
    DeviceInOwnMesh(s, x, s.devices[x].hub);
  }

  lemma OneHub(s: State, j: nat, k: nat, a: Addr)
    requires Sane(s) && InHub(s, j, a) && InHub(s, k, a)
    ensures j == k
  {
    if j != k {
      assert Apart(s, j, k);
      OverlapsIffShared(MeshOf(s, j), MeshOf(s, k));
    }
  }

  lemma BoundFacts(s: State, h: nat)
    requires Sane(s) && h in s.hubs && s.hubs[h].Configured()
    ensures s.hubs[h].bound.Some? && BoundTo(s, h, s.hubs[h].bound.value) && s.hubs[h].id == h
    ensures Parse(s.hubs[h].mesh).Some? && s.hubs[h].wgIp.Bare? && s.hubs[h].wgIp == s.devices[s.hubs[h].bound.value].ip
  {
    assert RowOk(s, h) && AddressOk(s, h) && AddressOk(s, s.hubs[h].bound.value);
  }

  /** Within a hub only one live device has an address; across hubs none is shared. */
  lemma SameIpSameDevice(s: State, x: nat, y: nat)
    requires Sane(s) && Up(s, x) && Up(s, y) && s.devices[x].ip == s.devices[y].ip
    ensures x == y
  {
    assert Apart(s, x, y);
  }

  // ---- how far one peer's entries reach ----

  lemma HostRoute(a: Addr, b: Addr)
    ensures Contains(Prefix(a, 32), b) <==> a == b
    ensures Contains(Network(a, 32), b) <==> a == b
  {
  }

  lemma DevicePeerBest(d: Device, a: Addr)
    requires d.ip.Bare?
    ensures Best(DevicePeer(d), a) == if d.ip.addr == a then 32 else -1
    ensures Best(SpokePeer(d), a) == if d.ip.addr == a then 32 else -1
  {
    HostRoute(d.ip.addr, a);
    assert Allows(DevicePeer(d), Prefix(d.ip.addr, 32));
    assert Allows(SpokePeer(d), Network(d.ip.addr, 32));
  }

  lemma SubnetMisses(s: State, h: nat, r: CidrText, k: nat, a: Addr)
    requires Sane(s) && h in s.hubs && r in s.hubs[h].routes && r != DEFAULT_ROUTE && InHub(s, k, a)
    ensures Parse(r).Some? && !Contains(Parse(r).value, a)
  {
    assert RowOk(s, h);
    assert RouteOk(r);
    assert OffRoutes(s.hubs, s.hubs[k].mesh);
    assert Clear(r, s.hubs[k].mesh);
    OverlapsIffShared(Parse(r).value, MeshOf(s, k));
  }

  lemma MeshCanonical(s: State, h: nat)
    requires h in s.hubs && Parse(s.hubs[h].mesh).Some?
    ensures Parse(Spell(MeshOf(s, h))) == Some(MeshOf(s, h))
  {
    MaskIdempotent(s.hubs[h].mesh.addr, 32 - s.hubs[h].mesh.len);
  }

  /** A linked hub's fabric entry matches a mesh address exactly when it lies in that hub's
      mesh. */
  lemma FabricBest(s: State, c: nat, k: nat, a: Addr)
    requires Sane(s) && c in s.hubs && Parse(s.hubs[c].mesh).Some? && InHub(s, k, a)
    ensures Best(FabricPeer(s.hubs[c]), a) >= 0 <==> c == k
  {
    var p := FabricPeer(s.hubs[c]);
    var mesh := MeshOf(s, c);
    MeshCanonical(s, c);
    assert AddressOk(s, c);
    var host := s.hubs[c].wgIp.addr;
    HostRoute(host, a);
    HubInOwnMesh(s, c, c);
    if c == k {
      assert Spell(mesh) in p.extra;
      assert Allows(p, mesh);
    } else {
      forall q | Allows(p, q) ensures !Contains(q, a) {
        if HostPrefix(p.wgIp) == Some(q) {
          if host == a {
            OneHub(s, c, k, a);
          }
        } else {
          var r :| r in p.extra && Parse(r) == Some(q);
          if r == Spell(mesh) {
            if Contains(mesh, a) {
              OneHub(s, c, k, a);
            }
          } else {
            SubnetMisses(s, c, r, k, a);
          }
        }
      }
    }
  }

  /** The routes that a spoke's egress choice adds are advertised by some hub. */
  lemma EgressAdvertised(s: State, x: Device, h: nat, r: CidrText)
    requires Inv(s) && h in s.hubs && r in EgressExtra(x.egress, s.hubs[h], Hubs(s))
    ensures exists g :: g in s.hubs && r in s.hubs[g].routes
    ensures r == DEFAULT_ROUTE ==> x.egress == Some(h)
  {
    HubsSorted(s);
    assert RowOk(s, h);
    if x.egress.value != h {
      var f := FindHub(Hubs(s), x.egress.value);
      assert r in s.hubs[f.value.id].routes;
    }
  }

  /** An entry of a spoke's hub peer is the hub's mesh, a linked hub's mesh or an egress
      route. */
  lemma HubEntryKinds(s: State, x: Device, h: nat, r: CidrText)
    requires Inv(s) && h in s.hubs && r in HubPeer(s, x, s.hubs[h]).extra
    ensures || (Parse(s.hubs[h].mesh).Some? && r == Spell(MeshOf(s, h)))
            || (exists c :: c in s.hubs && Usable(s.hubs[c], h) && c in LinkSet(s, h) && r == Spell(MeshOf(s, c))
                            && c !in HubsOfHost(s, x.hostId, x.hostname))
            || r in EgressExtra(x.egress, s.hubs[h], Hubs(s))
  {
    assert RowOk(s, h);
    CrossHubExtraExact(s, h, LinkSet(s, h), HubsOfHost(s, x.hostId, x.hostname));
  }

  lemma EgressMisses(s: State, x: Device, h: nat, r: CidrText, k: nat, a: Addr)
    requires Sane(s) && h in s.hubs && r in EgressExtra(x.egress, s.hubs[h], Hubs(s)) && r != DEFAULT_ROUTE
             && InHub(s, k, a)
    ensures Parse(r).Some? && !Contains(Parse(r).value, a)
  {
    EgressAdvertised(s, x, h, r);
    var g :| g in s.hubs && r in s.hubs[g].routes;
    SubnetMisses(s, g, r, k, a);
  }

  lemma HubEntryShort(s: State, x: Device, h: nat, k: nat, a: Addr, r: CidrText)
    requires Sane(s) && h in s.hubs && InHub(s, k, a) && r in HubPeer(s, x, s.hubs[h]).extra
    requires Parse(r).Some? && Contains(Parse(r).value, a)
    ensures Parse(r).value.len <= 24
  {
    HubEntryKinds(s, x, h, r);
    if r in EgressExtra(x.egress, s.hubs[h], Hubs(s)) {
      if r != DEFAULT_ROUTE {
        EgressMisses(s, x, h, r, k, a);
      }
    } else if Parse(s.hubs[h].mesh).Some? && r == Spell(MeshOf(s, h)) {
      assert WideHub(s, h);
    } else {
      var c :| c in s.hubs && Usable(s.hubs[c], h) && c in LinkSet(s, h) && r == Spell(MeshOf(s, c));
      assert WideHub(s, c);
    }
  }

  /** Apart from the hub's own /32, the hub entry of a spoke matches a mesh address with at
      most 24 bits. */
  lemma HubPeerBest(s: State, x: Device, h: nat, k: nat, a: Addr)
    requires Sane(s) && h in s.hubs && InHub(s, k, a) && s.hubs[h].wgIp != Bare(a)
    ensures Best(HubPeer(s, x, s.hubs[h]), a) <= 24
  {
    var p := HubPeer(s, x, s.hubs[h]);
    assert AddressOk(s, h);
    HostRoute(s.hubs[h].wgIp.addr, a);
    forall q | Allows(p, q) && Contains(q, a) ensures q.len <= 24 {
      var r :| r in p.extra && Parse(r) == Some(q);
      HubEntryShort(s, x, h, k, a, r);
    }
  }

  /** Hub k's mesh is routed by spokes of hub h: their own, or a usable, linked and unskipped
      one. */
  ghost predicate RoutedFrom(s: State, x: Device, h: nat, k: nat) {
    h in s.hubs && k in s.hubs
    && (k == h || (Usable(s.hubs[k], h) && k in LinkSet(s, h) && k !in HubsOfHost(s, x.hostId, x.hostname)))
  }

  lemma HubPeerMatches(s: State, x: Device, h: nat, k: nat, a: Addr)
    requires Sane(s) && RoutedFrom(s, x, h, k) && InHub(s, k, a)
    ensures Best(HubPeer(s, x, s.hubs[h]), a) >= 0
  {
    var p := HubPeer(s, x, s.hubs[h]);
    assert RowOk(s, h);
    MeshCanonical(s, k);
    CrossHubExtraExact(s, h, LinkSet(s, h), HubsOfHost(s, x.hostId, x.hostname));
    assert Spell(MeshOf(s, k)) in p.extra;
    assert Allows(p, MeshOf(s, k));
  }

  // ---- the peers of a node ----

  /** x is a live device that does not hold its hub's binding. */
  ghost predicate Spoke(s: State, x: nat) {
    Up(s, x) && s.devices[x].hub in s.hubs && s.hubs[s.devices[x].hub].bound != Some(x)
  }

  lemma SpokePeersAre(s: State, x: nat, p: Peer)
    requires Inv(s) && Spoke(s, x)
    ensures var h := s.devices[x].hub;
            p in NodePeers(s, x) <==>
              || (exists i :: LanPeer(s, s.devices[x], i) && p == DevicePeer(s.devices[i]))
              || (s.hubs[h].Configured() && p == HubPeer(s, s.devices[x], s.hubs[h]))
  {
    assert RowOk(s, x);
    var rows := SiteRows(s, s.devices[x].site, s.devices[x].id);
    var lan := LanPeers(s, s.devices[x], rows);
    forall i: nat | LanPeer(s, s.devices[x], i) ensures i in rows {
      assert RowOk(s, i);
    }
    assert p in lan <==> exists i :: LanPeer(s, s.devices[x], i) && p == DevicePeer(s.devices[i]);
  }

  lemma HubPeersAre(s: State, h: nat, p: Peer)
    requires Inv(s) && h in s.hubs && s.hubs[h].bound.Some? && s.hubs[h].bound.value in s.devices
             && s.devices[s.hubs[h].bound.value].hub == h
    ensures p in NodePeers(s, s.hubs[h].bound.value) <==>
              || (exists i :: SpokeOf(s, h, s.hubs[h].bound.value, i) && p == SpokePeer(s.devices[i]))
              || (exists c :: c in s.hubs && Usable(s.hubs[c], h) && c in LinkSet(s, h) && p == FabricPeer(s.hubs[c]))
  {
    var x := s.hubs[h].bound.value;
    assert RowOk(s, h);
    FabricExact(s, h, p);
    SpokePeersExact(s, h, x, p);
    assert NodePeers(s, x) == SpokePeers(s, HubRows(s, h, x))
           + OtherHubPeers(Hubs(s), h, s.hubs[h].mesh, LinkSet(s, h));
  }

  lemma SpokePeersExact(s: State, h: nat, x: nat, p: Peer)
    requires Inv(s)
    ensures p in SpokePeers(s, HubRows(s, h, x)) <==> exists i :: SpokeOf(s, h, x, i) && p == SpokePeer(s.devices[i])
  {
    hide HubRows, SpokePeers, SpokePeer;
    var rows := HubRows(s, h, x);
    forall i: nat | SpokeOf(s, h, x, i) ensures i in rows {
      assert RowOk(s, i);
    }
    SpokePeersIn(s, rows, p);
  }

  lemma SpokePeersIn(s: State, rows: seq<nat>, p: Peer)
    requires forall k | 0 <= k < |rows| :: rows[k] in s.devices
    ensures p in SpokePeers(s, rows) <==> exists i :: i in rows && p == SpokePeer(s.devices[i])
  {
    if i :| i in rows && p == SpokePeer(s.devices[i]) {
      var k :| 0 <= k < |rows| && rows[k] == i;
      assert SpokePeers(s, rows)[k] == p;
    }
  }

  // ---- lookups at a spoke ----

  /** A LAN-direct peer's address goes straight to that peer. */
  lemma SpokeFindsLan(s: State, x: nat, y: nat)
    requires Sane(s) && Spoke(s, x) && LanPeer(s, s.devices[x], y) && s.devices[y].ip.Bare?
    ensures Lookup(NodePeers(s, x), IpOf(s, y)) == Some(s.devices[y].pubkey)
  {
    var h := s.devices[x].hub;
    var p := DevicePeer(s.devices[y]);
    SpokePeersAre(s, x, p);
    DeviceFacts(s, y);
    DevicePeerBest(s.devices[y], IpOf(s, y));
    forall q | q in NodePeers(s, x) && q.pubkey != p.pubkey ensures Best(q, IpOf(s, y)) < 32 {
      SpokePeersAre(s, x, q);
      if i :| LanPeer(s, s.devices[x], i) && q == DevicePeer(s.devices[i]) {
        DeviceFacts(s, i);
        DevicePeerBest(s.devices[i], IpOf(s, y));
        if s.devices[i].ip == s.devices[y].ip {
          SameIpSameDevice(s, i, y);
        }
      } else {
        BoundFacts(s, h);
        if s.hubs[h].wgIp == s.devices[y].ip {
          SameIpSameDevice(s, s.hubs[h].bound.value, y);
        } else {
          HubPeerBest(s, s.devices[x], h, s.devices[y].hub, IpOf(s, y));
        }
      }
    }
    LookupWins(NodePeers(s, x), IpOf(s, y), p);
  }

  /** Any other routed mesh address goes to the spoke's hub. */
  lemma SpokeFindsHub(s: State, x: nat, k: nat, a: Addr)
    requires Sane(s) && Spoke(s, x) && s.hubs[s.devices[x].hub].Configured()
    requires RoutedFrom(s, s.devices[x], s.devices[x].hub, k) && InHub(s, k, a)
    requires forall i | LanPeer(s, s.devices[x], i) && s.devices[i].ip == Bare(a) ::
             s.devices[i].pubkey == s.hubs[s.devices[x].hub].pubkey
    ensures Lookup(NodePeers(s, x), a) == Some(s.hubs[s.devices[x].hub].pubkey)
  {
    var h := s.devices[x].hub;
    var p := HubPeer(s, s.devices[x], s.hubs[h]);
    SpokePeersAre(s, x, p);
    HubPeerMatches(s, s.devices[x], h, k, a);
    forall q | q in NodePeers(s, x) && q.pubkey != p.pubkey ensures Best(q, a) < 0 {
      SpokePeersAre(s, x, q);
      var i :| LanPeer(s, s.devices[x], i) && q == DevicePeer(s.devices[i]);
      DeviceFacts(s, i);
      DevicePeerBest(s.devices[i], a);
    }
    LookupWins(NodePeers(s, x), a, p);
  }

  /** x opted into its own hub's egress and that hub advertises the default route. */
  ghost predicate OwnDefault(s: State, x: Device, h: nat)
    requires h in s.hubs
  {
    x.egress == Some(h) && DEFAULT_ROUTE in s.hubs[h].routes
  }

  lemma DefaultCarried(s: State, x: Device, h: nat, a: Addr)
    requires Inv(s) && h in s.hubs && OwnDefault(s, x, h)
    ensures Best(HubPeer(s, x, s.hubs[h]), a) >= 0
  {
    var p := HubPeer(s, x, s.hubs[h]);
    assert RowOk(s, h);
    assert DEFAULT_ROUTE in p.extra;
    assert Allows(p, Prefix(0, 0));
    AllContain(Prefix(0, 0), a);
  }

  /** The hub peer of a spoke has nothing for another hub's mesh that is not routed from it, apart
      from its own default route. */
  lemma HubPeerUnrouted(s: State, x: Device, h: nat, k: nat, a: Addr)
    requires Sane(s) && h in s.hubs && h != k && InHub(s, k, a) && !RoutedFrom(s, x, h, k) && !OwnDefault(s, x, h)
    ensures Best(HubPeer(s, x, s.hubs[h]), a) < 0
  {
    hide Best, HubPeer, RoutedFrom, LinkSet, HubsOfHost, EgressExtra;
    var p := HubPeer(s, x, s.hubs[h]);
    HubPeerAddress(s, x, h);
    HubInOwnMesh(s, h, h);
    HostRoute(s.hubs[h].wgIp.addr, a);
    if s.hubs[h].wgIp.addr == a {
      OneHub(s, h, k, a);
    }
    forall q | Allows(p, q) ensures !Contains(q, a) {
      if HostPrefix(p.wgIp) != Some(q) {
        var r :| r in p.extra && Parse(r) == Some(q);
        HubEntryUnrouted(s, x, h, k, a, r);
      }
    }
  }

  lemma HubPeerAddress(s: State, x: Device, h: nat)
    requires Inv(s) && Addressed(s) && h in s.hubs
    ensures HubPeer(s, x, s.hubs[h]).wgIp == s.hubs[h].wgIp && s.hubs[h].wgIp.Bare?
  {
    assert AddressOk(s, h) && RowOk(s, h);
  }

  lemma HubEntryUnrouted(s: State, x: Device, h: nat, k: nat, a: Addr, r: CidrText)
    requires Sane(s) && h in s.hubs && h != k && InHub(s, k, a) && !RoutedFrom(s, x, h, k) && !OwnDefault(s, x, h)
    requires r in HubPeer(s, x, s.hubs[h]).extra && Parse(r).Some?
    ensures !Contains(Parse(r).value, a)
  {
    hide HubPeer, LinkSet, HubsOfHost;
    HubEntryKinds(s, x, h, r);
    MeshCanonical(s, h);
    if r in EgressExtra(x.egress, s.hubs[h], Hubs(s)) {
      assert RowOk(s, h);
      EgressAdvertised(s, x, h, r);
      if r != DEFAULT_ROUTE {
        EgressMisses(s, x, h, r, k, a);
      }
    } else if r == Spell(MeshOf(s, h)) {
      if Contains(MeshOf(s, h), a) {
        OneHub(s, h, k, a);
      }
    } else {
      var c :| c in s.hubs && Usable(s.hubs[c], h) && c in LinkSet(s, h) && r == Spell(MeshOf(s, c))
               && c !in HubsOfHost(s, x.hostId, x.hostname);
      MeshCanonical(s, c);
      if Contains(MeshOf(s, c), a) {
        OneHub(s, c, k, a);
      }
    }
  }

  /** An address of another hub's mesh goes to the spoke's own hub exactly when that mesh is routed
      or the spoke carries its own hub's default route, and to nobody otherwise. */
  lemma SpokeFindsForeign(s: State, x: nat, k: nat, a: Addr)
    requires Sane(s) && Spoke(s, x) && s.hubs[s.devices[x].hub].Configured() && k != s.devices[x].hub && InHub(s, k, a)
    ensures var h := s.devices[x].hub;
            Lookup(NodePeers(s, x), a)
            == if RoutedFrom(s, s.devices[x], h, k) || OwnDefault(s, s.devices[x], h) then Some(s.hubs[h].pubkey)
               else None
  {
    hide NodePeers, Best, RoutedFrom, HubPeer;
    var h := s.devices[x].hub;
    var p := HubPeer(s, s.devices[x], s.hubs[h]);
    SpokePeersAre(s, x, p);
    forall q | q in NodePeers(s, x) && q != p ensures Best(q, a) < 0 {
      SpokePeersAre(s, x, q);
      var i :| LanPeer(s, s.devices[x], i) && q == DevicePeer(s.devices[i]);
      SiteMate(s, x, i);
      DevicePeerBest(s.devices[i], a);
      if IpOf(s, i) == a {
        OneHub(s, h, k, a);
      }
    }
    if RoutedFrom(s, s.devices[x], h, k) {
      HubPeerMatches(s, s.devices[x], h, k, a);
    } else if OwnDefault(s, s.devices[x], h) {
      DefaultCarried(s, s.devices[x], h, a);
    } else {
      HubPeerUnrouted(s, s.devices[x], h, k, a);
      NobodyMatches(NodePeers(s, x), a);
    }
    if Best(p, a) >= 0 {
      assert p.pubkey == s.hubs[h].pubkey by { HubPeerKey(s, s.devices[x], s.hubs[h]); }
      LookupWins(NodePeers(s, x), a, p);
    }
  }

  lemma HubPeerKey(s: State, x: Device, h: Hub)
    ensures HubPeer(s, x, h).pubkey == h.pubkey
  {
  }

  lemma SiteMate(s: State, x: nat, i: nat)
    requires Sane(s) && x in s.devices && LanPeer(s, s.devices[x], i)
    ensures s.devices[i].hub == s.devices[x].hub && s.devices[i].ip.Bare? && InHub(s, s.devices[x].hub, IpOf(s, i))
  {
    assert RowOk(s, x) && RowOk(s, i);
    DeviceFacts(s, i);
  }

  // ---- lookups at a hub ----

  lemma HubFindsSpoke(s: State, h: nat, y: nat)
    requires Sane(s) && h in s.hubs && s.hubs[h].Configured() && Up(s, y) && s.devices[y].hub == h
    requires s.hubs[h].bound != Some(y) && s.devices[y].ip.Bare?
    ensures s.hubs[h].bound.Some? && BoundTo(s, h, s.hubs[h].bound.value)
    ensures Lookup(NodePeers(s, s.hubs[h].bound.value), IpOf(s, y)) == Some(s.devices[y].pubkey)
  {
    BoundFacts(s, h);
    var b := s.hubs[h].bound.value;
    var p := SpokePeer(s.devices[y]);
    assert SpokeOf(s, h, b, y);
    HubPeersAre(s, h, p);
    DeviceFacts(s, y);
    var a := IpOf(s, y);
    DevicePeerBest(s.devices[y], a);
    forall q | q in NodePeers(s, b) && q.pubkey != p.pubkey ensures Best(q, a) < 0 {
      HubPeersAre(s, h, q);
      if i :| SpokeOf(s, h, b, i) && q == SpokePeer(s.devices[i]) {
        DeviceFacts(s, i);
        DevicePeerBest(s.devices[i], a);
        if s.devices[i].ip == s.devices[y].ip {
          SameIpSameDevice(s, i, y);
        }
      } else {
        var c :| c in s.hubs && Usable(s.hubs[c], h) && q == FabricPeer(s.hubs[c]);
        assert RowOk(s, c);
        FabricBest(s, c, h, a);
      }
    }
    LookupWins(NodePeers(s, b), a, p);
  }

  lemma HubFindsLinked(s: State, h: nat, k: nat, a: Addr)
    requires Sane(s) && h in s.hubs && s.hubs[h].Configured() && k in s.hubs && Usable(s.hubs[k], h)
             && k in LinkSet(s, h)
    requires InHub(s, k, a)
    ensures s.hubs[h].bound.Some? && BoundTo(s, h, s.hubs[h].bound.value)
    ensures Lookup(NodePeers(s, s.hubs[h].bound.value), a) == Some(s.hubs[k].pubkey)
  {
    BoundFacts(s, h);
    var b := s.hubs[h].bound.value;
    assert RowOk(s, k);
    var p := FabricPeer(s.hubs[k]);
    HubPeersAre(s, h, p);
    FabricBest(s, k, k, a);
    forall q | q in NodePeers(s, b) && q.pubkey != p.pubkey ensures Best(q, a) < 0 {
      HubPeersAre(s, h, q);
      if i :| SpokeOf(s, h, b, i) && q == SpokePeer(s.devices[i]) {
        DeviceFacts(s, i);
        DevicePeerBest(s.devices[i], a);
        if IpOf(s, i) == a {
          OneHub(s, h, k, a);
        }
      } else {
        var c :| c in s.hubs && Usable(s.hubs[c], h) && q == FabricPeer(s.hubs[c]);
        assert RowOk(s, c);
        FabricBest(s, c, k, a);
      }
    }
    LookupWins(NodePeers(s, b), a, p);
  }

  // ---- the list a hub's device is given when it registers ----

  lemma TrimKeepsBest(p: Peer, a: Addr)
    requires p.wgIp.Masked?
    ensures Trimmed(p).pubkey == p.pubkey && Best(Trimmed(p), a) == Best(p, a)
  {
    assert HostPrefix(Trimmed(p).wgIp) == HostPrefix(p.wgIp);
  }

  lemma ScanLast(ps: seq<Peer>, p: Peer, a: Addr)
    ensures Scan(ps + [p], a)
            == if Best(p, a) >= 0 && Best(p, a) >= Scan(ps, a).1 then (p.pubkey, Best(p, a)) else Scan(ps, a)
  {
    hide Best;
    assert (ps + [p])[..|ps|] == ps;
  }

  lemma TrimLast(ps: seq<Peer>, p: Peer)
    ensures TrimAll(ps + [p]) == TrimAll(ps) + [Trimmed(p)]
  {
  }

  lemma {:induction false} TrimKeepsScan(ps: seq<Peer>, a: Addr)
    requires forall p | p in ps :: p.wgIp.Masked?
    ensures Scan(TrimAll(ps), a) == Scan(ps, a)
  {
    hide Trimmed, Best, Scan, TrimAll;
    if ps == [] {
      assert TrimAll(ps) == ps;
    } else {
      var most, last := ps[..|ps| - 1], ps[|ps| - 1];
      assert ps == most + [last];
      TrimKeepsScan(most, a);
      TrimLast(most, last);
      TrimKeepsBest(last, a);
      ScanLast(most, last, a);
      ScanLast(TrimAll(most), Trimmed(last), a);
    }
  }

  lemma {:induction false} ScanNothing(xs: seq<Peer>, a: Addr)
    requires forall p | p in xs :: Best(p, a) < 0
    ensures Scan(xs, a) == ("", -1)
  {
    hide Best;
    if xs == [] {
    } else {
      ScanNothing(xs[..|xs| - 1], a);
    }
  }

  /** Peers without a match in front of a list change no decision. */
  lemma {:induction false} ScanSkips(xs: seq<Peer>, ys: seq<Peer>, a: Addr)
    requires forall p | p in xs :: Best(p, a) < 0
    ensures Scan(xs + ys, a) == Scan(ys, a)
    decreases |ys|
  {
    hide Best, Scan;
    if ys == [] {
      assert xs + ys == xs;
      ScanNothing(xs, a);
      ScanNothing(ys, a);
    } else {
      var most, last := ys[..|ys| - 1], ys[|ys| - 1];
      ScanSkips(xs, most, a);
      ScanLast(xs + most, last, a);
      ScanLast(most, last, a);
      assert xs + ys == xs + most + [last] && ys == most + [last];
    }
  }

  /** The hub's device gets a second kind of list when it registers: LAN peers of its site, and
      the linked hubs with their addresses trimmed. For every address outside the hub's own mesh
      that list decides as the one the hub polls. */
  lemma RegisterListAgrees(s: State, h: nat, a: Addr)
    requires Sane(s) && h in s.hubs && s.hubs[h].Configured() && !InHub(s, h, a)
    ensures s.hubs[h].bound.Some? && s.hubs[h].bound.value in s.devices
    ensures var b := s.hubs[h].bound.value;
            Lookup(PeerList(s, s.devices[b], s.hubs[h]), a) == Lookup(NodePeers(s, b), a)
  {
    hide Best, OtherHubPeers, Scan, PeerList, NodePeers, SpokePeers, LanPeers, SiteRows, HubRows, TrimAll;
    BoundFacts(s, h);
    var b := s.hubs[h].bound.value;
    DeviceFacts(s, b);
    var fabric := OtherHubPeers(Hubs(s), h, s.hubs[h].mesh, LinkSet(s, h));
    var lan := LanPeers(s, s.devices[b], SiteRows(s, s.devices[b].site, b));
    SelfLists(s, h, b);
    SiteMisses(s, b, SiteRows(s, s.devices[b].site, b), a);
    forall i | i in HubRows(s, h, b) ensures Best(SpokePeer(s.devices[i]), a) < 0 {
      OwnDeviceMisses(s, b, i, a);
    }
    ScanSkips(lan, TrimAll(fabric), a);
    forall p | p in fabric ensures p.wgIp.Masked? {
      FabricAddressed(s, h, p);
    }
    TrimKeepsScan(fabric, a);
    ScanSkips(SpokePeers(s, HubRows(s, h, b)), fabric, a);
  }

  lemma SiteMisses(s: State, b: nat, rows: seq<nat>, a: Addr)
    requires Sane(s) && b in s.devices && !InHub(s, s.devices[b].hub, a)
    ensures forall p | p in LanPeers(s, s.devices[b], rows) :: Best(p, a) < 0
  {
    hide Best;
    forall p | p in LanPeers(s, s.devices[b], rows) ensures Best(p, a) < 0 {
      var i: nat :| i in rows && LanPeer(s, s.devices[b], i) && p == DevicePeer(s.devices[i]);
      OwnDeviceMisses(s, b, i, a);
    }
  }

  /** The two kinds of list of a hub's own device. */
  lemma SelfLists(s: State, h: nat, b: nat)
    requires h in s.hubs && b in s.devices && s.hubs[h].bound == Some(b) && s.devices[b].hub == h
             && s.devices[b].id == b
    requires s.hubs[h].id == h
    ensures var fabric := OtherHubPeers(Hubs(s), h, s.hubs[h].mesh, LinkSet(s, h));
            && PeerList(s, s.devices[b], s.hubs[h])
               == LanPeers(s, s.devices[b], SiteRows(s, s.devices[b].site, b)) + TrimAll(fabric)
            && NodePeers(s, b) == SpokePeers(s, HubRows(s, h, b)) + fabric
  {
    hide LanPeers, SpokePeers, SiteRows, HubRows, OtherHubPeers, TrimAll;
  }

  /** Inside its own mesh that list finds exactly the LAN peers of the hub's device. */
  lemma RegisterListOwnMesh(s: State, h: nat, a: Addr)
    requires Sane(s) && h in s.hubs && s.hubs[h].Configured() && InHub(s, h, a)
    ensures s.hubs[h].bound.Some? && s.hubs[h].bound.value in s.devices
    ensures var b := s.hubs[h].bound.value;
            && (forall i | LanPeer(s, s.devices[b], i) && s.devices[i].ip == Bare(a) ::
                  Lookup(PeerList(s, s.devices[b], s.hubs[h]), a) == Some(s.devices[i].pubkey))
            && ((forall i | LanPeer(s, s.devices[b], i) :: s.devices[i].ip != Bare(a)) ==>
                  Lookup(PeerList(s, s.devices[b], s.hubs[h]), a) == None)
  {
    hide Best, OtherHubPeers, Scan, PeerList, LanPeers, SiteRows, HubRows, TrimAll, Trimmed, DevicePeer, BoundTo;
    BoundFacts(s, h);
    var b := s.hubs[h].bound.value;
    assert b in s.devices && s.devices[b].hub == h by { BoundRow(s, h, b); }
    DeviceFacts(s, b);
    SelfLists(s, h, b);
    var fabric := OtherHubPeers(Hubs(s), h, s.hubs[h].mesh, LinkSet(s, h));
    var lan := LanPeers(s, s.devices[b], SiteRows(s, s.devices[b].site, b));
    var list := PeerList(s, s.devices[b], s.hubs[h]);
    forall q | q in list && q !in lan ensures Best(q, a) < 0 {
      var j :| 0 <= j < |fabric| && TrimAll(fabric)[j] == q;
      FabricMissesOwn(s, h, fabric[j], a);
      FabricAddressed(s, h, fabric[j]);
      TrimKeepsBest(fabric[j], a);
    }
    forall i | LanPeer(s, s.devices[b], i) && s.devices[i].ip == Bare(a)
      ensures Lookup(list, a) == Some(s.devices[i].pubkey)
    {
      LanPeerListed(s, b, i);
      OwnPeerWins(s, b, list, lan, i, a);
    }
    if forall i | LanPeer(s, s.devices[b], i) :: s.devices[i].ip != Bare(a) {
      forall q | q in lan ensures Best(q, a) < 0 {
        var i :| LanPeer(s, s.devices[b], i) && q == DevicePeer(s.devices[i]);
        LanPeerBest(s, i, a);
      }
      NobodyMatches(list, a);
    }
  }

  lemma BoundRow(s: State, h: nat, b: nat)
    requires h in s.hubs && BoundTo(s, h, b)
    ensures b in s.devices && s.devices[b].hub == h
  {
  }

  lemma FabricAddressed(s: State, own: nat, p: Peer)
    requires Inv(s) && Addressed(s) && own in s.hubs
             && p in OtherHubPeers(Hubs(s), own, s.hubs[own].mesh, LinkSet(s, own))
    ensures p.wgIp.Masked? && p.wgIp.len == 32
  {
    FabricExact(s, own, p);
    var c :| c in s.hubs && Usable(s.hubs[c], own) && c in LinkSet(s, own) && p == FabricPeer(s.hubs[c]);
    assert AddressOk(s, c);
  }

  lemma FabricMissesOwn(s: State, h: nat, p: Peer, a: Addr)
    requires Sane(s) && h in s.hubs && InHub(s, h, a)
    requires p in OtherHubPeers(Hubs(s), h, s.hubs[h].mesh, LinkSet(s, h))
    ensures Best(p, a) < 0
  {
    hide Best;
    FabricExact(s, h, p);
    var c :| c in s.hubs && Usable(s.hubs[c], h) && c in LinkSet(s, h) && p == FabricPeer(s.hubs[c]);
    assert RowOk(s, c);
    FabricBest(s, c, h, a);
  }

  lemma LanPeerListed(s: State, b: nat, i: nat)
    requires Inv(s) && b in s.devices && s.devices[b].id == b && LanPeer(s, s.devices[b], i)
    ensures DevicePeer(s.devices[i]) in LanPeers(s, s.devices[b], SiteRows(s, s.devices[b].site, b))
  {
    assert RowOk(s, i);
    assert i in SiteRows(s, s.devices[b].site, b);
  }

  lemma LanPeerBest(s: State, i: nat, a: Addr)
    requires Sane(s) && i in s.devices
    ensures Best(DevicePeer(s.devices[i]), a) == (if s.devices[i].ip == Bare(a) then 32 else -1)
    ensures DevicePeer(s.devices[i]).pubkey == s.devices[i].pubkey
  {
    hide Best;
    DeviceFacts(s, i);
    DevicePeerBest(s.devices[i], a);
  }

  /** The one LAN peer with the address wins a list in which nothing else matches. */
  lemma OwnPeerWins(s: State, b: nat, list: seq<Peer>, lan: seq<Peer>, i: nat, a: Addr)
    requires Sane(s) && b in s.devices && LanPeer(s, s.devices[b], i) && s.devices[i].ip == Bare(a)
    requires forall q | q in lan :: exists j :: LanPeer(s, s.devices[b], j) && q == DevicePeer(s.devices[j])
    requires DevicePeer(s.devices[i]) in list && forall q | q in list && q !in lan :: Best(q, a) < 0
    ensures Lookup(list, a) == Some(s.devices[i].pubkey)
  {
    hide Best, Lookup, DevicePeer;
    LanPeerBest(s, i, a);
    forall q | q in list && q.pubkey != s.devices[i].pubkey ensures Best(q, a) < 0 {
      if q in lan {
        var j :| LanPeer(s, s.devices[b], j) && q == DevicePeer(s.devices[j]);
        LanPeerBest(s, j, a);
        if s.devices[j].ip == Bare(a) {
          SameIpSameDevice(s, i, j);
        }
      }
    }
    LookupWins(list, a, DevicePeer(s.devices[i]));
  }

  /** A device in the mesh of hub h has no entry for an address outside it. */
  lemma OwnDeviceMisses(s: State, b: nat, i: nat, a: Addr)
    requires Sane(s) && b in s.devices && i in s.devices && !InHub(s, s.devices[b].hub, a)
    requires s.devices[i].hub == s.devices[b].hub || s.devices[i].site == s.devices[b].site
    ensures s.devices[i].ip.Bare? && Best(DevicePeer(s.devices[i]), a) < 0 && Best(SpokePeer(s.devices[i]), a) < 0
  {
    assert RowOk(s, b) && RowOk(s, i);
    DeviceFacts(s, i);
    DevicePeerBest(s.devices[i], a);
  }

  /** In particular it sends the mesh of a linked hub to that hub. */
  lemma RegisterListFindsLinked(s: State, h: nat, k: nat, a: Addr)
    requires Sane(s) && h in s.hubs && k in s.hubs && h != k && s.hubs[h].Configured()
    requires Usable(s.hubs[k], h) && k in LinkSet(s, h) && InHub(s, k, a)
    ensures s.hubs[h].bound.Some? && s.hubs[h].bound.value in s.devices
    ensures Lookup(PeerList(s, s.devices[s.hubs[h].bound.value], s.hubs[h]), a) == Some(s.hubs[k].pubkey)
  {
    hide NodePeers, PeerList, Lookup;
    if InHub(s, h, a) {
      OneHub(s, h, k, a);
    }
    RegisterListAgrees(s, h, a);
    HubFindsLinked(s, h, k, a);
  }
}
