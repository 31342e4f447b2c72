/** The route helpers of handlers.go and the row loops of store.go behind them, as they run.
    Each is proved to compute its function in module Routing. */
module RouteLoops {
  import opened Text
  import opened Cidr
  import opened Model
  import opened Queries
  import opened Routing
  import opened Lookups
  import opened Invariants
  import Handlers
  import Isolation
  import PeerRows

  /** One turn of that loop. */
  lemma OthersStep(hubs: seq<Hub>, k: nat, own: nat, seen: set<Prefix>)
    requires k < |hubs|
    ensures OtherHubs(hubs[k..], own, seen) ==
            if !Usable(hubs[k], own) || Parse(hubs[k].mesh).value in seen then OtherHubs(hubs[k + 1..], own, seen)
            else [hubs[k]] + OtherHubs(hubs[k + 1..], own, seen + {Parse(hubs[k].mesh).value})
  {
    hide Parse, Usable;
    assert hubs[k..][0] == hubs[k] && hubs[k..][1..] == hubs[k + 1..];
  }

  lemma OthersNone(hubs: seq<Hub>, own: nat, seen: set<Prefix>)
    ensures OtherHubs(hubs[|hubs|..], own, seen) == []
  {
  }

  /** otherConfiguredHubs: one pass that fills the seen map and keeps a hub per network. */
  method OtherConfiguredHubs(hubs: seq<Hub>, own: nat, ownMesh: CidrText) returns (out: seq<Hub>)
    ensures out == OtherHubs(hubs, own, OwnNetwork(ownMesh))
  {
    hide Parse, OtherHubs;
    out := [];
    var seen: set<Prefix> := {};
    if Parse(ownMesh).Some? {
      seen := seen + {Parse(ownMesh).value};
    }
    assert seen == OwnNetwork(ownMesh);
    for k := 0 to |hubs|
      invariant out + OtherHubs(hubs[k..], own, seen) == OtherHubs(hubs, own, OwnNetwork(ownMesh))
    {
      var h := hubs[k];
      OthersStep(hubs, k, own, seen);
      if h.id == own || !h.Configured() || h.endpoint == "" { continue; }
      var n := Parse(h.mesh);
      if n.None? || n.value in seen { continue; }
      seen := seen + {n.value};
      assert out + ([h] + OtherHubs(hubs[k + 1..], own, seen)) == out + [h] + OtherHubs(hubs[k + 1..], own, seen);
      out := out + [h];
    }
    OthersNone(hubs, own, seen);
  }

  /** crossHubAllowedExtra. */
  method CrossHubAllowedExtra(hubs: seq<Hub>, own: nat, ownMesh: CidrText, linked: set<nat>, skip: set<nat>)
    returns (out: seq<CidrText>)
    ensures out == CrossHubExtra(hubs, own, ownMesh, linked, skip)
  {
    hide MeshNetwork, OtherHubs;
    var others := OtherConfiguredHubs(hubs, own, ownMesh);
    out := [];
    for k := 0 to |others|
      invariant out + LinkedNetworks(others[k..], linked, skip) == LinkedNetworks(others, linked, skip)
    {
      var h := others[k];
      assert others[k..][0] == h && others[k..][1..] == others[k + 1..];
      if h.id !in linked || h.id in skip { continue; }
      out := out + [MeshNetwork(h.mesh)];
    }
  }

  /** otherConfiguredHubPeers. */
  method OtherConfiguredHubPeers(hubs: seq<Hub>, own: nat, ownMesh: CidrText, linked: set<nat>) returns (out: seq<Peer>)
    ensures out == OtherHubPeers(hubs, own, ownMesh, linked)
  {
    hide MeshNetwork, OtherHubs, LinkedPeers, HasSlash, With32, FabricPeer;
    var others := OtherConfiguredHubs(hubs, own, ownMesh);
    out := [];
    for k := 0 to |others|
      invariant out + LinkedPeers(others[k..], linked) == LinkedPeers(others, linked)
    {
      var h := others[k];
      assert others[k..] == [h] + others[k + 1..];
      LinkedPeersFirst(h, others[k + 1..], linked);
      FabricPeerIs(h);
      if h.id !in linked { continue; }
      var wgIp := h.wgIp;
      if wgIp != Other("") && !HasSlash(wgIp) {
        wgIp := With32(wgIp);
      }
      var subnets := Handlers.FilterSubnets(h.routes);
      out := out + [Peer(h.pubkey, wgIp, h.endpoint, [MeshNetwork(h.mesh)] + subnets)];
    }
    NoneLinked(linked);
    assert others[|others|..] == [];
  }

  lemma NoneLinked(linked: set<nat>)
    ensures LinkedPeers([], linked) == []
  {
  }

  lemma FabricPeerIs(h: Hub)
    ensures FabricPeer(h) == Peer(h.pubkey, if h.wgIp != Other("") && !HasSlash(h.wgIp) then With32(h.wgIp) else h.wgIp,
                                  h.endpoint, [MeshNetwork(h.mesh)] + SubnetRoutes(h.routes))
  {
    hide HasSlash, With32, MeshNetwork, SubnetRoutes;
  }

  /** egressAllowedExtra: the scan stops at the first hub with the chosen id. */
  method EgressAllowedExtra(egress: Option<nat>, own: Hub, hubs: seq<Hub>) returns (out: seq<CidrText>)
    ensures out == EgressExtra(egress, own, hubs)
  {
    if egress.None? { return []; }
    if egress.value == own.id { return own.routes; }
    for k := 0 to |hubs|
      invariant FindHub(hubs[k..], egress.value) == FindHub(hubs, egress.value)
    {
      var h := hubs[k];
      assert hubs[k..][0] == h && hubs[k..][1..] == hubs[k + 1..];
      if h.id != egress.value { continue; }
      if !h.Configured() || h.endpoint == "" { return []; }
      out := Handlers.FilterSubnets(h.routes);
      return;
    }
    return [];
  }

  /** hubLinkSet: the rows that name the hub on either side, in any order. */
  method HubLinkSet(s: State, hub: nat) returns (out: set<nat>)
    ensures out == LinkSet(s, hub)
  {
    out := {};
    var rows := s.links.Keys;
    while rows != {}
      invariant rows <= s.links.Keys
      invariant forall j :: j in out <==> exists i :: i in s.links && i !in rows && LinkTo(s.links[i], hub, j)
      decreases |rows|
    {
      var i :| i in rows;
      var l := s.links[i];
      rows := rows - {i};
      if l.a == hub {
        out := out + {l.b};
        assert LinkTo(l, hub, l.b);
      } else if l.b == hub {
        out := out + {l.a};
        assert LinkTo(l, hub, l.a);
      }
    }
    forall j ensures j in out <==> j in LinkSet(s, hub) {
      if j in out {
        var i :| i in s.links && i !in rows && LinkTo(s.links[i], hub, j);
      }
      if j in LinkSet(s, hub) {
        var i :| i in s.links && (s.links[i].a == hub || s.links[i].b == hub)
                 && j == (if s.links[i].a == hub then s.links[i].b else s.links[i].a);
        assert LinkTo(s.links[i], hub, j);
      }
    }
  }

  predicate LinkTo(l: Link, hub: nat, other: nat) {
    if l.a == hub then l.b == other else l.b == hub && l.a == other
  }

  /** hubIDsForHost. */
  method HubIDsForHost(s: State, hostId: string, hostname: string) returns (out: set<nat>)
    ensures forall h: nat :: h in out <==>
              exists i :: i in s.devices && s.devices[i].hub == h && PeerRows.OnHost(s.devices[i], hostId, hostname)
    ensures out == HubsOfHost(s, hostId, hostname)
  {
    HostHubs(s, hostId, hostname);
    out := {};
    if hostId == "" && hostname == "" {
      assert out == HubsOfHost(s, hostId, hostname);
      return;
    }
    var rows := s.devices.Keys;
    while rows != {}
      invariant rows <= s.devices.Keys
      invariant out == set i | i in s.devices.Keys - rows && SameHost(s.devices[i], hostId, hostname) ::
                s.devices[i].hub
      decreases |rows|
    {
      var i :| i in rows;
      if SameHost(s.devices[i], hostId, hostname) {
        out := out + {s.devices[i].hub};
      }
      rows := rows - {i};
    }
    assert s.devices.Keys - rows == s.devices.Keys;
    assert out == HubsOfHost(s, hostId, hostname);
  }

  lemma HostHubs(s: State, hostId: string, hostname: string)
    ensures forall h: nat :: h in HubsOfHost(s, hostId, hostname) <==>
              exists i :: i in s.devices && s.devices[i].hub == h && PeerRows.OnHost(s.devices[i], hostId, hostname)
  {
    forall h: nat
      ensures h in HubsOfHost(s, hostId, hostname) <==>
                exists i :: i in s.devices && s.devices[i].hub == h && PeerRows.OnHost(s.devices[i], hostId, hostname)
    {
      PeerRows.HostHubsIff(s, hostId, hostname, h);
    }
  }

  predicate SameHost(d: Device, hostId: string, hostname: string) {
    d.Live() && ((hostId != "" && d.hostId == hostId) || (hostname != "" && d.hostname == hostname))
  }

  /** The first loop of buildPeerListResponse: the site's rows in slot order, or none of them for
      an isolated device. */
  method LanLoop(s: State, x: Device) returns (out: seq<Peer>)
    ensures out == LanPeers(s, x, SiteRows(s, x.site, x.id))
  {
    hide SiteRows, BySlot, DevicePeer, LanPeers;
    var rows := SiteRows(s, x.site, x.id);
    out := [];
    if x.isolated {
      NoLan(s, x, rows);
      return;
    }
    for k := 0 to |rows|
      invariant out + LanPeers(s, x, rows[k..]) == LanPeers(s, x, rows)
    {
      assert rows[k] in rows && LanPeer(s, x, rows[k]) == !s.devices[rows[k]].isolated;
      LanStep(s, x, rows, k);
      if s.devices[rows[k]].isolated { continue; }
      out := out + [DevicePeer(s.devices[rows[k]])];
    }
    assert rows[|rows|..] == [];
    NoRows(s, x);
  }

  lemma LanStep(s: State, x: Device, rows: seq<nat>, k: nat)
    requires k < |rows|
    ensures LanPeers(s, x, rows[k..])
            == (if LanPeer(s, x, rows[k]) then [DevicePeer(s.devices[rows[k]])] else []) + LanPeers(s, x, rows[k + 1..])
  {
    hide DevicePeer;
    assert rows[k..][1..] == rows[k + 1..];
  }

  lemma NoRows(s: State, x: Device)
    ensures LanPeers(s, x, []) == []
  {
  }

  lemma {:induction false} NoLan(s: State, x: Device, rows: seq<nat>)
    requires x.isolated
    ensures LanPeers(s, x, rows) == []
  {
    if rows == [] {
    } else {
      NoLan(s, x, rows[1..]);
    }
  }

  lemma SpokeRows(s: State, x: nat)
    requires Inv(s) && Spoke(s, x)
    ensures forall p :: p in PeerList(s, s.devices[x], s.hubs[s.devices[x].hub]) ==>
              PeerRows.LanEntry(s, x, p) || PeerRows.HubEntry(s, x, s.devices[x].hub, p)
  {
    hide Inv, PeerRows.LanEntry, PeerRows.HubEntry, PeerList;
    assert NodePeers(s, x) == PeerList(s, s.devices[x], s.hubs[s.devices[x].hub]);
    forall p | p in NodePeers(s, x) ensures PeerRows.LanEntry(s, x, p) || PeerRows.HubEntry(s, x, s.devices[x].hub, p) {
      PeerRows.SpokeEntries(s, x, p);
    }
  }

  lemma HubRowsListed(s: State, h: nat, x: nat)
    requires Inv(s) && h in s.hubs && s.hubs[h].bound == Some(x)
    ensures forall p :: p in HubPeers(s, x, s.hubs[h]) ==>
              PeerRows.SpokeEntry(s, h, x, p) || PeerRows.FabricEntry(s, h, p)
  {
    hide PeerRows.SpokeEntry, PeerRows.FabricEntry, HubPeers, Inv;
    Isolation.HubBoundTo(s, h, x);
    assert x in s.devices && s.devices[x].hub == h && NodePeers(s, x) == HubPeers(s, x, s.hubs[h]);
    hide NodePeers;
    forall p | p in NodePeers(s, x) ensures PeerRows.SpokeEntry(s, h, x, p) || PeerRows.FabricEntry(s, h, p) {
      PeerRows.HubEntries(s, h, x, p);
    }
  }

  /** buildPeerListResponse: LAN-direct peers first, then the hub or the fabric. A spoke's entries are
      LAN rows and its hub's. */
  method BuildPeerList(s: State, x: Device, h: Hub) returns (out: seq<Peer>)
    ensures Inv(s) && Spoke(s, x.id) && s.devices[x.id] == x && s.hubs[x.hub] == h ==>
              forall p :: p in out ==> PeerRows.LanEntry(s, x.id, p) || PeerRows.HubEntry(s, x.id, x.hub, p)
    ensures out == PeerList(s, x, h)
  {
    hide Inv, PeerRows.LanEntry, PeerRows.HubEntry;
    hide SiteRows, LanPeers, Hubs, LinkSet, HubsOfHost, CrossHubExtra, EgressExtra, OtherHubPeers;
    out := LanLoop(s, x);
    var isHubSelf := h.bound == Some(x.id);
    var all := Hubs(s);
    var linked := HubLinkSet(s, h.id);
    if h.Configured() && !isHubSelf {
      var allowed := [];
      if Parse(h.mesh).Some? {
        allowed := allowed + [Spell(Parse(h.mesh).value)];
      }
      var skip := HubIDsForHost(s, x.hostId, x.hostname);
      var cross := CrossHubAllowedExtra(all, h.id, h.mesh, linked, skip);
      var egress := EgressAllowedExtra(x.egress, h, all);
      var extra := allowed + cross + egress;
      assert Peer(h.pubkey, h.wgIp, h.endpoint, extra) == HubPeer(s, x, h);
      out := out + [Peer(h.pubkey, h.wgIp, h.endpoint, extra)];
      assert out == PeerList(s, x, h);
    } else if isHubSelf {
      var fabric := OtherConfiguredHubPeers(all, h.id, h.mesh, linked);
      ghost var lan := out;
      for k := 0 to |fabric|
        invariant out + TrimAll(fabric[k..]) == lan + TrimAll(fabric)
      {
        assert fabric[k..][0] == fabric[k] && fabric[k..][1..] == fabric[k + 1..];
        out := out + [Trimmed(fabric[k])];
      }
      assert fabric[|fabric|..] == [];
      assert out == lan + TrimAll(fabric);
      assert out == PeerList(s, x, h);
    }
    hide PeerList;
    if Inv(s) && Spoke(s, x.id) && s.devices[x.id] == x && s.hubs[x.hub] == h {
      SpokeRows(s, x.id);
    }
  }

  /** The first loop of handleWGHubPeers: the hub's rows in slot order. */
  method SpokeLoop(s: State, hub: nat, x: nat) returns (out: seq<Peer>)
    ensures out == SpokePeers(s, HubRows(s, hub, x))
  {
    hide HubRows, BySlot, SpokePeer;
    var rows := HubRows(s, hub, x);
    out := [];
    for k := 0 to |rows|
      invariant |out| == k && forall j | 0 <= j < k :: out[j] == SpokePeer(s.devices[rows[j]])
    {
      assert rows[k] in rows;
      out := out + [SpokePeer(s.devices[rows[k]])];
    }
    assert forall j | 0 <= j < |rows| :: rows[j] in rows;
  }

  /** handleWGHubPeers: every live spoke as a /32, then the fabric. */
  method HandleHubPeers(s: State, x: nat, h: Hub) returns (out: seq<Peer>)
    ensures Inv(s) && h.id in s.hubs && s.hubs[h.id] == h && h.bound == Some(x) ==>
              forall p :: p in out ==> PeerRows.SpokeEntry(s, h.id, x, p) || PeerRows.FabricEntry(s, h.id, p)
    ensures out == HubPeers(s, x, h)
  {
    hide Inv, PeerRows.SpokeEntry, PeerRows.FabricEntry, HubRows, Hubs, LinkSet, OtherHubPeers, SpokePeers;
    var spokes := SpokeLoop(s, h.id, x);
    var linked := HubLinkSet(s, h.id);
    var fabric := OtherConfiguredHubPeers(Hubs(s), h.id, h.mesh, linked);
    out := spokes + fabric;
    assert out == HubPeers(s, x, h);
    hide HubPeers;
    if Inv(s) && h.id in s.hubs && s.hubs[h.id] == h && h.bound == Some(x) {
      HubRowsListed(s, h.id, x);
    }
  }
}
