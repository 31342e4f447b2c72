/** Peer lists read off the rows: who is in a list, with which key, address, endpoint and routes, in
    which order, and what of it ends up in the installed file. */
module PeerRows {
  import opened Text
  import opened Cidr
  import opened Model
  import opened Queries
  import opened Steps
  import opened Invariants
  import opened Allocation
  import opened Routing
  import opened HubFilter
  import opened Lookups
  import opened Delivery
  import opened Isolation
  import opened Admission
  import opened Effects
  import Egress
  import Secrets
  import opened Regroup
  import opened ConfText
  import opened Installed

  // ---- the hubs of a host ----

  /** The device is live and reports this host id, or this host name; blank ones match nothing. */
  predicate OnHost(d: Device, hostId: string, hostname: string) {
    !d.removed && ((d.hostId == hostId && d.hostId != "") || (d.hostname == hostname && d.hostname != ""))
  }

  lemma HostHubsIff(s: State, hostId: string, hostname: string, h: nat)
    ensures h in HubsOfHost(s, hostId, hostname) <==>
              exists i :: i in s.devices && s.devices[i].hub == h && OnHost(s.devices[i], hostId, hostname)
  {
  }

  /** A host joins hub k if one of its live devices does: then, and only then, the lists of its other
      devices leave k's mesh out. */
  lemma UnskippedIff(s: State, x: nat, k: nat)
    requires x in s.devices
    ensures Unskipped(s, x, k) <==>
              forall i | i in s.devices && s.devices[i].hub == k ::
                !OnHost(s.devices[i], s.devices[x].hostId, s.devices[x].hostname)
  {
    HostHubsIff(s, s.devices[x].hostId, s.devices[x].hostname, k);
  }

  // ---- entries of a spoke's list ----

  /** A link row joins the two hubs, in either order. */
  ghost predicate LinkRow(s: State, c: nat, d: nat) {
    exists i :: i in s.links && ((s.links[i].a == c && s.links[i].b == d) || (s.links[i].a == d && s.links[i].b == c))
  }

  /** Hub c is another hub than h, with a key and an endpoint, and linked to h. */
  ghost predicate LinkedTo(s: State, h: nat, c: nat) {
    c in s.hubs && c != h && s.hubs[c].pubkey != "" && s.hubs[c].endpoint != "" && LinkRow(s, c, h)
  }

  /** p is a LAN peer of x: another live device of its site, neither of them isolated. */
  ghost predicate LanEntry(s: State, x: nat, p: Peer)
    requires x in s.devices
  {
    exists i :: i in s.devices && !s.devices[i].removed && i != x && s.devices[i].site == s.devices[x].site
                && !s.devices[i].isolated && !s.devices[x].isolated
                && p == Peer(s.devices[i].pubkey, s.devices[i].ip, s.devices[i].lanEndpoint, [])
  }

  /** The networks of the hubs linked to h that the host of x does not itself join. */
  ghost predicate CrossNetworks(s: State, x: nat, h: nat, cross: seq<CidrText>)
    requires x in s.devices
  {
    && (forall i, j | 0 <= i < j < |cross| :: cross[i] != cross[j])
    && forall r :: r in cross <==>
         exists c :: LinkedTo(s, h, c) && Parse(s.hubs[c].mesh).Some? && r == Spell(Parse(s.hubs[c].mesh).value)
                     && forall i | i in s.devices && s.devices[i].hub == c ::
                          !OnHost(s.devices[i], s.devices[x].hostId, s.devices[x].hostname)
  }

  /** The routes of x's egress choice: all of its own hub's, the subnets of another that has a key and
      an endpoint. */
  ghost predicate EgressRoutes(s: State, x: nat, h: nat, routes: seq<CidrText>)
    requires x in s.devices
  {
    var e := s.devices[x].egress;
    if e.None? || e.value !in s.hubs then routes == []
    else if e.value == h then routes == s.hubs[h].routes
    else if s.hubs[e.value].pubkey == "" || s.hubs[e.value].endpoint == "" then routes == []
    else routes == SubnetRoutes(s.hubs[e.value].routes)
  }

  /** p is x's hub: its key, address and endpoint, then its mesh, the linked meshes and the egress
      routes. */
  ghost predicate HubEntry(s: State, x: nat, h: nat, p: Peer)
    requires x in s.devices && h in s.hubs
  {
    && s.hubs[h].pubkey != "" && Parse(s.hubs[h].mesh).Some?
    && p.pubkey == s.hubs[h].pubkey && p.wgIp == s.hubs[h].wgIp && p.endpoint == s.hubs[h].endpoint
    && exists cross, routes :: CrossNetworks(s, x, h, cross) && EgressRoutes(s, x, h, routes)
                               && p.extra == [Spell(Parse(s.hubs[h].mesh).value)] + cross + routes
  }

  lemma LinkedIsUsable(s: State, h: nat, c: nat)
    requires Inv(s) && h in s.hubs
    ensures LinkedTo(s, h, c) <==> c in s.hubs && Usable(s.hubs[c], h) && c in LinkSet(s, h)
  {
    LinkedMeans(s, c, h);
    if c in s.hubs {
      assert RowOk(s, c);
    }
  }

  lemma HubPeerEntry(s: State, x: nat)
    requires Inv(s) && x in s.devices && s.devices[x].hub in s.hubs && s.hubs[s.devices[x].hub].pubkey != ""
    ensures HubEntry(s, x, s.devices[x].hub, HubPeer(s, s.devices[x], s.hubs[s.devices[x].hub]))
  {
    hide CrossHubExtra, LinkSet, HubsOfHost, EgressExtra, Usable, LinkedTo, OnHost;
    var d := s.devices[x];
    var h := d.hub;
    HubRow(s, h);
    var skip := HubsOfHost(s, d.hostId, d.hostname);
    var cross := CrossHubExtra(Hubs(s), h, s.hubs[h].mesh, LinkSet(s, h), skip);
    var routes := EgressExtra(d.egress, s.hubs[h], Hubs(s));
    CrossRows(s, x, h);
    EgressRows(s, x, h);
    assert HubPeer(s, d, s.hubs[h]).extra == [Spell(Parse(s.hubs[h].mesh).value)] + cross + routes;
  }

  lemma HubRow(s: State, h: nat)
    requires Inv(s) && h in s.hubs
    ensures s.hubs[h].id == h && Parse(s.hubs[h].mesh).Some?
  {
    assert RowOk(s, h);
  }

  lemma CrossRows(s: State, x: nat, h: nat)
    requires Inv(s) && x in s.devices && h in s.hubs
    ensures CrossNetworks(s, x, h, CrossHubExtra(Hubs(s), h, s.hubs[h].mesh, LinkSet(s, h),
                                                 HubsOfHost(s, s.devices[x].hostId, s.devices[x].hostname)))
  {
    hide Inv, CrossHubExtra, LinkSet, HubsOfHost, Usable, LinkedTo, OnHost;
    var d := s.devices[x];
    var skip := HubsOfHost(s, d.hostId, d.hostname);
    CrossHubExtraExact(s, h, LinkSet(s, h), skip);
    forall c: nat
      ensures LinkedTo(s, h, c) <==> c in s.hubs && Usable(s.hubs[c], h) && c in LinkSet(s, h)
      ensures c in skip <==>
                exists i :: i in s.devices && s.devices[i].hub == c && OnHost(s.devices[i], d.hostId, d.hostname)
    {
      LinkedIsUsable(s, h, c);
      HostHubsIff(s, d.hostId, d.hostname, c);
    }
    forall c | c in s.hubs ensures Parse(s.hubs[c].mesh).Some? {
      HubRow(s, c);
    }
  }

  lemma EgressRows(s: State, x: nat, h: nat)
    requires Inv(s) && x in s.devices && h in s.hubs
    ensures EgressRoutes(s, x, h, EgressExtra(s.devices[x].egress, s.hubs[h], Hubs(s)))
  {
    HubRow(s, h);
    if s.devices[x].egress.Some? {
      FindHubIs(s, s.devices[x].egress.value);
    }
  }

  /** A spoke's list holds its LAN peers and its hub, and each of these once it qualifies. */
  lemma SpokeEntries(s: State, x: nat, p: Peer)
    requires Inv(s) && Spoke(s, x)
    ensures p in NodePeers(s, x) ==> LanEntry(s, x, p) || HubEntry(s, x, s.devices[x].hub, p)
    ensures LanEntry(s, x, p) ==> p in NodePeers(s, x)
    ensures s.hubs[s.devices[x].hub].pubkey != "" ==>
              exists q :: q in NodePeers(s, x) && HubEntry(s, x, s.devices[x].hub, q)
  {
    hide Inv, NodePeers, HubPeer, HubEntry;
    SpokePeersAre(s, x, p);
    var h := s.devices[x].hub;
    DeviceRowId(s, x);
    if s.hubs[h].pubkey != "" {
      var q := HubPeer(s, s.devices[x], s.hubs[h]);
      SpokePeersAre(s, x, q);
      HubPeerEntry(s, x);
    }
    if i :| i in s.devices && !s.devices[i].removed && i != x && s.devices[i].site == s.devices[x].site
            && !s.devices[i].isolated && !s.devices[x].isolated
            && p == Peer(s.devices[i].pubkey, s.devices[i].ip, s.devices[i].lanEndpoint, []) {
      assert LanPeer(s, s.devices[x], i) && p == DevicePeer(s.devices[i]);
    }
  }

  lemma DeviceRowId(s: State, x: nat)
    requires Inv(s) && x in s.devices
    ensures s.devices[x].id == x
  {
    assert RowOk(s, x);
  }

  // ---- entries of a hub's list ----

  /** p is a spoke of hub h, as the hub sees it: any live device but the bound one, at "/32" and
      without an endpoint. */
  ghost predicate SpokeEntry(s: State, h: nat, x: nat, p: Peer) {
    exists i :: i in s.devices && !s.devices[i].removed && i != x && s.devices[i].hub == h
                && p.pubkey == s.devices[i].pubkey && p.endpoint == "" && p.extra == []
                && HostString(p.wgIp) == HostString(s.devices[i].ip) + "/32"
  }

  /** An address text with "/32" behind it, unless it is blank or has a length. */
  function WithLength(text: string): string {
    if text == "" || '/' in text then text else text + "/32"
  }

  /** p is a linked hub: its key and endpoint, its address with a length, its mesh and its subnets. */
  ghost predicate FabricEntry(s: State, h: nat, p: Peer) {
    exists c :: LinkedTo(s, h, c) && Parse(s.hubs[c].mesh).Some?
                && p.pubkey == s.hubs[c].pubkey && p.endpoint == s.hubs[c].endpoint
                && HostString(p.wgIp) == WithLength(HostString(s.hubs[c].wgIp))
                && p.extra == [Spell(Parse(s.hubs[c].mesh).value)] + SubnetRoutes(s.hubs[c].routes)
  }

  lemma FabricText(h: Hub)
    ensures HostString(FabricPeer(h).wgIp) == WithLength(HostString(h.wgIp))
  {
    hide HostString, HasSlash, With32;
    HostTexts(h.wgIp);
  }

  /** A bound hub's list holds its spokes and the hubs linked to it, all of them and nothing else. */
  lemma HubEntries(s: State, h: nat, x: nat, p: Peer)
    requires Inv(s) && h in s.hubs && s.hubs[h].bound == Some(x)
    ensures p in NodePeers(s, x) ==> SpokeEntry(s, h, x, p) || FabricEntry(s, h, p)
    ensures forall i | i in s.devices && !s.devices[i].removed && i != x && s.devices[i].hub == h ::
              exists q :: q in NodePeers(s, x) && q.pubkey == s.devices[i].pubkey && q.endpoint == "" && q.extra == []
    ensures forall c | LinkedTo(s, h, c) ::
              exists q :: q in NodePeers(s, x) && q.pubkey == s.hubs[c].pubkey && q.endpoint == s.hubs[c].endpoint
                          && FabricEntry(s, h, q)
  {
    hide Inv, NodePeers, LinkedTo, LinkSet, HostString, WithLength, With32, HasSlash;
    HubBoundTo(s, h, x);
    HubPeersAre(s, h, p);
    forall c: nat ensures LinkedTo(s, h, c) <==> c in s.hubs && Usable(s.hubs[c], h) && c in LinkSet(s, h) {
      LinkedIsUsable(s, h, c);
    }
    forall i | i in s.devices && !s.devices[i].removed && i != x && s.devices[i].hub == h
      ensures exists q :: q in NodePeers(s, x) && q.pubkey == s.devices[i].pubkey && q.endpoint == "" && q.extra == []
    {
      assert SpokeOf(s, h, x, i);
      HubPeersAre(s, h, SpokePeer(s.devices[i]));
    }
    if i :| SpokeOf(s, h, x, i) && p == SpokePeer(s.devices[i]) {
      HostTexts(s.devices[i].ip);
    }
    forall c | c in s.hubs ensures HostString(FabricPeer(s.hubs[c]).wgIp) == WithLength(HostString(s.hubs[c].wgIp)) {
      FabricText(s.hubs[c]);
    }
    forall c | LinkedTo(s, h, c)
      ensures exists q :: q in NodePeers(s, x) && q.pubkey == s.hubs[c].pubkey && q.endpoint == s.hubs[c].endpoint
                          && FabricEntry(s, h, q)
    {
      HubPeersAre(s, h, FabricPeer(s.hubs[c]));
      assert FabricEntry(s, h, FabricPeer(s.hubs[c]));
    }
  }

  // ---- order ----

  /** Rows without repeats in slot order. */
  ghost predicate InSlotOrder(s: State, rows: seq<nat>) {
    && (forall k | 0 <= k < |rows| :: rows[k] in s.devices)
    && forall j, k | 0 <= j < k < |rows| ::
         rows[j] != rows[k] && s.devices[rows[j]].dIndex <= s.devices[rows[k]].dIndex
  }

  /** The rows that are LAN peers of x. */
  function Mates(s: State, x: Device, rows: seq<nat>): (out: seq<nat>)
    ensures forall i :: i in out <==> i in rows && LanPeer(s, x, i)
  {
    if rows == [] then [] else (if LanPeer(s, x, rows[0]) then [rows[0]] else []) + Mates(s, x, rows[1..])
  }

  lemma PrependInOrder(s: State, i: nat, rest: seq<nat>)
    requires InSlotOrder(s, rest) && i in s.devices
    requires forall r | r in rest :: r != i && (r in s.devices ==> s.devices[i].dIndex <= s.devices[r].dIndex)
    ensures InSlotOrder(s, [i] + rest)
  {
    var all := [i] + rest;
    forall j, k | 0 <= j < k < |all|
      ensures all[j] != all[k] && all[j] in s.devices && all[k] in s.devices
              && s.devices[all[j]].dIndex <= s.devices[all[k]].dIndex
    {
      assert all[k] == rest[k - 1] && rest[k - 1] in rest;
    }
  }

  lemma MatesFirst(s: State, x: Device, i: nat, rest: seq<nat>)
    ensures Mates(s, x, [i] + rest) == (if LanPeer(s, x, i) then [i] else []) + Mates(s, x, rest)
    ensures LanPeers(s, x, [i] + rest)
            == (if LanPeer(s, x, i) then [DevicePeer(s.devices[i])] else []) + LanPeers(s, x, rest)
    ensures Mates(s, x, []) == [] && LanPeers(s, x, []) == []
  {
    hide DevicePeer;
    assert ([i] + rest)[1..] == rest;
  }

  lemma {:induction false} MatesInOrder(s: State, x: Device, rows: seq<nat>)
    requires InSlotOrder(s, rows)
    ensures InSlotOrder(s, Mates(s, x, rows)) && |LanPeers(s, x, rows)| == |Mates(s, x, rows)|
    ensures forall k | 0 <= k < |Mates(s, x, rows)| ::
              LanPeers(s, x, rows)[k] == DevicePeer(s.devices[Mates(s, x, rows)[k]])
  {
    hide DevicePeer, LanPeers, Mates, LanPeer;
    if rows == [] {
      MatesFirst(s, x, 0, []);
    } else {
      var i, rest := rows[0], rows[1..];
      assert rows == [i] + rest;
      MatesFirst(s, x, i, rest);
      MatesInOrder(s, x, rest);
      forall r | r in Mates(s, x, rest)
        ensures r != i && (r in s.devices ==> s.devices[i].dIndex <= s.devices[r].dIndex)
      {
        var k :| 0 <= k < |rest| && rest[k] == r;
        assert rows[k + 1] == r;
      }
      PrependInOrder(s, i, Mates(s, x, rest));
    }
  }

  lemma RowsInOrder(s: State, rows: seq<nat>)
    requires BySlot(s.devices, rows) && forall k | 0 <= k < |rows| :: rows[k] in s.devices
    requires forall j, k | 0 <= j < k < |rows| :: rows[j] != rows[k]
    ensures InSlotOrder(s, rows)
  {
    hide BySlot;
    forall j, k | 0 <= j < k < |rows| ensures s.devices[rows[j]].dIndex <= s.devices[rows[k]].dIndex {
      BySlotMeans(s.devices, rows, j, k);
    }
  }

  /** rows are the LAN peers of x: each once, in slot order, and no others. */
  ghost predicate LanRows(s: State, x: nat, rows: seq<nat>)
    requires x in s.devices
  {
    && InSlotOrder(s, rows)
    && forall i :: i in rows <==>
         && i in s.devices && !s.devices[i].removed && i != x && s.devices[i].site == s.devices[x].site
         && !s.devices[i].isolated && !s.devices[x].isolated
  }

  /** A spoke's list is its LAN peers in slot order, each once, and then its hub if that has a key. */
  lemma SpokeListOrder(s: State, x: nat)
    requires Inv(s) && Spoke(s, x)
    ensures exists rows ::
              && LanRows(s, x, rows)
              && (var last := if s.hubs[s.devices[x].hub].pubkey != "" then 1 else 0;
                  && |NodePeers(s, x)| == |rows| + last
                  && (forall k | 0 <= k < |rows| :: var d := s.devices[rows[k]];
                        NodePeers(s, x)[k] == Peer(d.pubkey, d.ip, d.lanEndpoint, []))
                  && (last == 1 ==> HubEntry(s, x, s.devices[x].hub, NodePeers(s, x)[|rows|])))
  {
    hide Inv, HubEntry, SiteRows, LanPeers, Mates, HubPeer;
    var d := s.devices[x];
    DeviceRowId(s, x);
    var all := SiteRows(s, d.site, x);
    RowsInOrder(s, all);
    MatesInOrder(s, d, all);
    var rows := Mates(s, d, all);
    forall i: nat ensures i in rows <==> LanPeer(s, d, i) {
      if LanPeer(s, d, i) {
        RowBelow(s, i);
      }
    }
    assert LanRows(s, x, rows);
    if s.hubs[d.hub].pubkey != "" {
      HubPeerEntry(s, x);
    }
    assert NodePeers(s, x)
           == LanPeers(s, d, all) + if s.hubs[d.hub].pubkey != "" then [HubPeer(s, d, s.hubs[d.hub])] else [];
  }

  lemma RowBelow(s: State, i: nat)
    requires Inv(s) && i in s.devices
    ensures i < s.nextDevice
  {
    assert RowOk(s, i);
  }

  /** The hubs of a list that are linked. */
  function LinkedOf(hubs: seq<Hub>, linked: set<nat>): (out: seq<Hub>)
    ensures forall h :: h in out <==> h in hubs && h.id in linked
  {
    if hubs == [] then [] else (if hubs[0].id in linked then [hubs[0]] else []) + LinkedOf(hubs[1..], linked)
  }

  ghost predicate Ascending(hubs: seq<Hub>) {
    forall j, k | 0 <= j < k < |hubs| :: hubs[j].id < hubs[k].id
  }

  lemma PrependAscending(h: Hub, rest: seq<Hub>)
    requires Ascending(rest) && forall c | c in rest :: h.id < c.id
    ensures Ascending([h] + rest)
  {
    var all := [h] + rest;
    forall j, k | 0 <= j < k < |all| ensures all[j].id < all[k].id {
      assert all[k] == rest[k - 1] && rest[k - 1] in rest;
    }
  }

  lemma LinkedFirst(h: Hub, rest: seq<Hub>, linked: set<nat>)
    ensures LinkedOf([h] + rest, linked) == (if h.id in linked then [h] else []) + LinkedOf(rest, linked)
    ensures LinkedOf([], linked) == []
  {
    assert ([h] + rest)[1..] == rest;
  }

  lemma {:induction false} LinkedInOrder(hubs: seq<Hub>, linked: set<nat>)
    requires Ascending(hubs)
    ensures Ascending(LinkedOf(hubs, linked)) && |LinkedPeers(hubs, linked)| == |LinkedOf(hubs, linked)|
    ensures forall k | 0 <= k < |LinkedOf(hubs, linked)| ::
              LinkedPeers(hubs, linked)[k] == FabricPeer(LinkedOf(hubs, linked)[k])
  {
    hide FabricPeer, LinkedOf, LinkedPeers;
    if hubs == [] {
      NoneLinkedOf(linked);
    } else {
      var h, rest := hubs[0], hubs[1..];
      assert hubs == [h] + rest;
      LinkedFirst(h, rest, linked);
      LinkedPeersFirst(h, rest, linked);
      LinkedInOrder(rest, linked);
      forall c | c in LinkedOf(rest, linked) ensures h.id < c.id {
        var k :| 0 <= k < |rest| && rest[k] == c;
        assert hubs[k + 1] == c;
      }
      PrependAscending(h, LinkedOf(rest, linked));
    }
  }

  lemma NoneLinkedOf(linked: set<nat>)
    ensures LinkedOf([], linked) == [] && LinkedPeers([], linked) == []
  {
  }

  /** The list of hub h's device x is one entry for each of these rows, and no more. */
  ghost predicate HubListRows(s: State, h: nat, x: nat, rows: seq<nat>, hubs: seq<Hub>) {
    && InSlotOrder(s, rows)
    && (forall i: nat :: i in rows <==> i in s.devices && !s.devices[i].removed && i != x && s.devices[i].hub == h)
    && Ascending(hubs) && (forall c: Hub :: c in hubs <==> c.id in s.hubs && s.hubs[c.id] == c && LinkedTo(s, h, c.id))
    && |NodePeers(s, x)| == |rows| + |hubs|
    && (forall k | 0 <= k < |rows| :: NodePeers(s, x)[k].pubkey == s.devices[rows[k]].pubkey)
    && (forall k | 0 <= k < |hubs| :: NodePeers(s, x)[|rows| + k].pubkey == hubs[k].pubkey)
  }

  lemma KeysKept(s: State, rows: seq<nat>, hubs: seq<Hub>)
    requires forall k | 0 <= k < |rows| :: rows[k] in s.devices
    ensures forall k | 0 <= k < |rows| :: SpokePeer(s.devices[rows[k]]).pubkey == s.devices[rows[k]].pubkey
    ensures forall k | 0 <= k < |hubs| :: FabricPeer(hubs[k]).pubkey == hubs[k].pubkey
  {
  }

  /** A bound hub's list is its spokes in slot order, each once, and then the hubs linked to it in id
      order, each once. */
  lemma HubListOrder(s: State, h: nat, x: nat)
    requires Inv(s) && h in s.hubs && s.hubs[h].bound == Some(x)
    ensures exists rows, hubs :: HubListRows(s, h, x, rows, hubs)
  {
    hide Inv, HubRows, SpokePeers, LinkedPeers, LinkedOf, LinkedTo, LinkSet, OtherHubPeers, NodePeers, PeerList,
      TrimAll, UsableHubs, Hubs, FabricPeer, SpokePeer, InSlotOrder, Ascending, LanPeers, SiteRows;
    HubBoundTo(s, h, x);
    HubRow(s, h);
    DeviceRowId(s, x);
    var rows := HubRows(s, h, x);
    var hubs := LinkedOf(UsableHubs(Hubs(s), h), LinkSet(s, h));
    SpokesInOrder(s, h, x);
    FabricInOrder(s, h);
    SelfLists(s, h, x);
    KeysKept(s, rows, hubs);
    assert HubListRows(s, h, x, rows, hubs);
  }

  lemma SpokesInOrder(s: State, h: nat, x: nat)
    requires Inv(s)
    ensures var rows := HubRows(s, h, x);
            && InSlotOrder(s, rows)
            && forall i: nat ::
                 i in rows <==> i in s.devices && !s.devices[i].removed && i != x && s.devices[i].hub == h
  {
    hide Inv, HubRows;
    RowsInOrder(s, HubRows(s, h, x));
    forall i: nat | i in s.devices ensures i < s.nextDevice {
      RowBelow(s, i);
    }
  }

  lemma FabricInOrder(s: State, h: nat)
    requires Inv(s) && h in s.hubs
    ensures var hubs := LinkedOf(UsableHubs(Hubs(s), h), LinkSet(s, h));
            var fabric := OtherHubPeers(Hubs(s), h, s.hubs[h].mesh, LinkSet(s, h));
            && Ascending(hubs) && |fabric| == |hubs| && (forall k | 0 <= k < |hubs| :: fabric[k] == FabricPeer(hubs[k]))
            && forall c: Hub :: c in hubs <==> c.id in s.hubs && s.hubs[c.id] == c && LinkedTo(s, h, c.id)
  {
    hide Inv, LinkedPeers, LinkedOf, LinkedTo, LinkSet, OtherHubPeers, FabricPeer, UsableHubs, Hubs, Ascending;
    var usable, linked := UsableHubs(Hubs(s), h), LinkSet(s, h);
    UsableAscend(s, h);
    LinkedInOrder(usable, linked);
    Egress.FabricIsLinked(s, h);
    forall c: Hub
      ensures c in LinkedOf(usable, linked) <==> c.id in s.hubs && s.hubs[c.id] == c && LinkedTo(s, h, c.id)
    {
      LinkedListed(s, h, c);
    }
  }

  lemma UsableAscend(s: State, h: nat)
    requires Inv(s) && h in s.hubs
    ensures Ascending(UsableHubs(Hubs(s), h))
  {
    hide Inv, UsableHubs, LinkSet;
    Egress.FabricListed(s, h);
  }

  lemma LinkedListed(s: State, h: nat, c: Hub)
    requires Inv(s) && h in s.hubs
    ensures c in UsableHubs(Hubs(s), h) && c.id in LinkSet(s, h)
            <==> c.id in s.hubs && s.hubs[c.id] == c && LinkedTo(s, h, c.id)
  {
    hide Inv, UsableHubs, LinkSet, LinkedTo, Usable;
    Egress.FabricListed(s, h);
    LinkedIsUsable(s, h, c.id);
    if c.id in s.hubs && s.hubs[c.id] == c && LinkedTo(s, h, c.id) {
      assert Egress.Fabric(s, h, c.id);
    }
  }

  // ---- the list of a hub's device when it registers ----

  /** What a hub's device is given when it registers: its LAN peers, and the linked hubs with their
      addresses bare. */
  lemma SelfEntries(s: State, h: nat, x: nat, p: Peer)
    requires Inv(s) && h in s.hubs && s.hubs[h].bound == Some(x) && x in s.devices
    requires p in PeerList(s, s.devices[x], s.hubs[h])
    ensures LanEntry(s, x, p)
            || exists q :: FabricEntry(s, h, q) && HostString(p.wgIp) == TrimSuffix32(HostString(q.wgIp))
                           && p.pubkey == q.pubkey && p.endpoint == q.endpoint && p.extra == q.extra
  {
    hide Inv, NodePeers, PeerList, LinkedTo, LinkSet, HostString, Without32, WithLength, OtherHubPeers, SiteRows,
      HubRows;
    HubBoundTo(s, h, x);
    HubRow(s, h);
    DeviceRowId(s, x);
    SelfLists(s, h, x);
    var fabric := OtherHubPeers(Hubs(s), h, s.hubs[h].mesh, LinkSet(s, h));
    if p !in LanPeers(s, s.devices[x], SiteRows(s, s.devices[x].site, x)) {
      var k :| 0 <= k < |fabric| && TrimAll(fabric)[k] == p;
      FabricExact(s, h, fabric[k]);
      var c :| c in s.hubs && Usable(s.hubs[c], h) && c in LinkSet(s, h) && fabric[k] == FabricPeer(s.hubs[c]);
      LinkedIsUsable(s, h, c);
      HubRow(s, c);
      FabricText(s.hubs[c]);
      HostTexts(fabric[k].wgIp);
      assert FabricEntry(s, h, fabric[k]);
    }
  }

  // ---- endpoints over runs, down to the file ----

  /** Where the endpoint of an entry comes from: a LAN peer's reported one, the own hub's, none for a
      hub's spoke, a linked hub's. */
  ghost predicate EndpointOfRows(s: State, x: nat, pubkey: string, endpoint: string)
    requires x in s.devices && s.devices[x].hub in s.hubs
  {
    var h := s.devices[x].hub;
    if s.hubs[h].bound == Some(x) then
      || (exists i :: i in s.devices && !s.devices[i].removed && i != x && s.devices[i].hub == h
                      && pubkey == s.devices[i].pubkey && endpoint == "")
      || (exists c :: LinkedTo(s, h, c) && pubkey == s.hubs[c].pubkey && endpoint == s.hubs[c].endpoint)
    else
      || (exists i :: i in s.devices && !s.devices[i].removed && i != x && s.devices[i].site == s.devices[x].site
                      && pubkey == s.devices[i].pubkey && endpoint == s.devices[i].lanEndpoint)
      || (s.hubs[h].pubkey != "" && pubkey == s.hubs[h].pubkey && endpoint == s.hubs[h].endpoint)
  }

  lemma EntryEndpoint(s: State, x: nat, p: Peer)
    requires Inv(s) && Up(s, x) && s.devices[x].hub in s.hubs && p in NodePeers(s, x)
    ensures EndpointOfRows(s, x, p.pubkey, p.endpoint)
  {
    hide Inv, NodePeers, LinkedTo;
    var h := s.devices[x].hub;
    if s.hubs[h].bound == Some(x) {
      HubEntries(s, h, x, p);
    } else {
      SpokeEntries(s, x, p);
    }
  }

  /** After every run each entry of a live node's list has the endpoint of its rows. */
  lemma RunEndpoints(es: seq<Event>, x: nat, p: Peer)
    requires Up(Run(es), x) && p in NodePeers(Run(es), x)
    ensures Run(es).devices[x].hub in Run(es).hubs && EndpointOfRows(Run(es), x, p.pubkey, p.endpoint)
  {
    hide Run, EndpointOfRows;
    RunInv(es);
    assert RowOk(Run(es), x);
    EntryEndpoint(Run(es), x, p);
  }

  /** The installed file has one stanza per entry, in order, with its key and endpoint. */
  lemma InstalledStanzas(s: State, n: nat, sts: seq<Stanza>)
    requires Sane(s) && Up(s, n) && Installs(s, n, sts)
    ensures |sts| == |NodePeers(s, n)|
    ensures forall k | 0 <= k < |sts| ::
              sts[k].pubkey == NodePeers(s, n)[k].pubkey && sts[k].endpoint == NodePeers(s, n)[k].endpoint
  {
    hide NodePeers, Recs, Rendered, Responds, ScriptStanzas, Readable, Sane, AllowedList, Join;
    NodePeersReadable(s, n);
    RenderedAt(NodePeers(s, n));
    if sts != Rendered(Recs(NodePeers(s, n))) {
      var text :| Responds(text, Recs(NodePeers(s, n))) && sts == ScriptStanzas(text);
      ScriptRenders(text, Recs(NodePeers(s, n)));
    }
  }

  /** After every calm and wide run, each stanza of an installed file has the endpoint of its rows. */
  lemma RunStanzaEndpoints(es: seq<Event>, n: nat, sts: seq<Stanza>, k: nat)
    requires (forall e | e in es :: Calm(e) && Wide(e)) && SubnetsClear(Run(es))
    requires Up(Run(es), n) && Installs(Run(es), n, sts) && k < |sts|
    ensures Run(es).devices[n].hub in Run(es).hubs && EndpointOfRows(Run(es), n, sts[k].pubkey, sts[k].endpoint)
  {
    hide Run, EndpointOfRows, NodePeers, Installs;
    CalmRunSane(es);
    InstalledStanzas(Run(es), n, sts);
    RunEndpoints(es, n, NodePeers(Run(es), n)[k]);
  }

  // ---- isolation ----

  /** An isolated spoke lists at most its hub's device, and only that device lists it. */
  lemma IsolatedPeersWithHub(s: State, x: nat, y: nat)
    requires Inv(s) && Spoke(s, x) && s.devices[x].isolated && Up(s, y) && x != y
    ensures Lists(s, x, y) || Lists(s, y, x) ==> s.hubs[s.devices[x].hub].bound == Some(y)
  {
    hide Inv, Lists;
    DeviceHub(s, y);
    SpokeLists(s, x, y);
    if Spoke(s, y) {
      SpokeLists(s, y, x);
    } else {
      HubLists(s, y, x);
    }
    if Spoke(s, y) && s.hubs[s.devices[y].hub].bound == Some(x) {
      HubBoundTo(s, s.devices[y].hub, x);
    }
  }

  lemma DeviceHub(s: State, y: nat)
    requires Inv(s) && y in s.devices
    ensures s.devices[y].hub in s.hubs
  {
    assert RowOk(s, y);
  }

  /** A device that registers as isolated peers with its hub's device at most. */
  lemma AdmittedIsolated(s: State, input: RegisterInput, now: nat, y: nat)
    requires Inv(s) && input.isolated
    requires RegisterStep(s, input, now).1 == Registered(s.nextDevice, DeviceRole)
    ensures var s' := RegisterStep(s, input, now).0;
            && s.nextDevice in s'.devices && s'.devices[s.nextDevice].hub in s'.hubs
            && (Up(s', y) && y != s.nextDevice && (Lists(s', s.nextDevice, y) || Lists(s', y, s.nextDevice)) ==>
                  s'.hubs[s'.devices[s.nextDevice].hub].bound == Some(y))
  {
    hide Inv, RegisterStep, Lists, Sited, LeastSlot;
    var s', x := RegisterStep(s, input, now).0, s.nextDevice;
    NextDeviceFresh(s);
    RegisterKeeps(s, input, now);
    RegisterAnswers(s, input, now);
    var t :| t in s.tokens && Presented(s, input.secret, t);
    assert AnsweredFor(s, s', Registered(x, DeviceRole), input, now, t);
    var h := s.tokens[t].hub.value;
    assert s'.devices[x].hub == h && s'.devices[x].isolated && s'.hubs[h] == s.hubs[h];
    BoundKnown(s, h, x);
    if Up(s', y) && y != x {
      IsolatedPeersWithHub(s', x, y);
    }
  }

  lemma BoundKnown(s: State, h: nat, x: nat)
    requires Inv(s) && h in s.hubs && x !in s.devices
    ensures s.hubs[h].bound != Some(x)
  {
    assert RowOk(s, h);
  }

  /** What a device row keeps for as long as it exists. */
  predicate SameTraits(d: Device, d': Device) {
    d'.hub == d.hub && d'.site == d.site && d'.dIndex == d.dIndex && d'.ip == d.ip && d'.pubkey == d.pubkey
    && d'.isolated == d.isolated && d'.created == d.created
  }

  /** Rows keep their traits, and no id comes back. */
  ghost predicate TraitsKept(s: State, s': State) {
    && (forall i | i in s.devices && i in s'.devices :: SameTraits(s.devices[i], s'.devices[i]))
    && (forall i | i in s'.devices && i !in s.devices :: i >= s.nextDevice)
    && s'.nextDevice >= s.nextDevice
  }

  lemma SameDevicesTraits(s: State, s': State)
    requires s'.devices == s.devices && s'.nextDevice == s.nextDevice
    ensures TraitsKept(s, s')
  {
  }

  lemma RemovalTraits(s: State, d: nat)
    requires d in s.devices
    ensures TraitsKept(s, RemoveDevice(s, d))
  {
  }

  lemma LeaveTraits(s: State, secret: nat, claimed: nat, now: nat)
    ensures TraitsKept(s, LeaveStep(s, secret, claimed, now))
  {
    hide Bearer, RemoveDevice;
    var b := Bearer(s, secret, claimed, now);
    if b.Some? {
      RemovalTraits(s, b.value);
    }
  }

  lemma ReleaseTraits(s: State, token: nat)
    ensures TraitsKept(s, ReleaseStep(s, token))
  {
    hide RemoveDevice;
    if token in s.tokens && s.tokens[token].consumedBy.Some? && s.tokens[token].consumedBy.value in s.devices {
      RemovalTraits(s, s.tokens[token].consumedBy.value);
    }
  }

  lemma SweepTraits(s: State, cutoff: nat)
    ensures TraitsKept(s, SweepStep(s, cutoff))
  {
    hide Stale;
  }

  lemma DeletionTraits(s: State, hub: nat)
    ensures TraitsKept(s, DeleteHubStep(s, hub))
  {
    hide SitesWithout, TokensWithout, LinksWithout;
  }

  lemma RetireTraits(s: State, e: Event)
    requires e.Leave? || e.Remove? || e.Release? || e.Sweep? || e.ResetBind? || e.DeleteHub?
    ensures TraitsKept(s, Next(s, e))
  {
    hide RemoveDevice, LeaveStep, ReleaseStep, SweepStep, DeleteHubStep, TraitsKept;
    match e
    case Leave(secret, claimed, now) => LeaveTraits(s, secret, claimed, now);
    case Release(token) => ReleaseTraits(s, token);
    case Sweep(cutoff) => SweepTraits(s, cutoff);
    case DeleteHub(hub) => DeletionTraits(s, hub);
    case Remove(device) =>
      if device in s.devices {
        RemovalTraits(s, device);
      } else {
        SameDevicesTraits(s, s);
      }
    case ResetBind(hub) => SameDevicesTraits(s, Next(s, e));
  }

  lemma HeartbeatTraits(s: State, secret: nat, claimed: nat, now: nat, lan: Option<string>)
    ensures TraitsKept(s, HeartbeatStep(s, secret, claimed, now, lan))
  {
    hide Bearer;
  }

  lemma RotateTraits(s: State, secret: nat, claimed: nat, now: nat, until: nat)
    ensures TraitsKept(s, RotateStep(s, secret, claimed, now, until))
  {
    hide Bearer;
  }

  lemma ChoiceTraits(s: State, device: nat, egress: Option<nat>)
    ensures TraitsKept(s, SetEgressStep(s, device, egress))
  {
    hide SubnetRoutes;
  }

  lemma StampTraits(s: State, pubkeys: seq<string>, ips: seq<HostText>, hostId: string)
    ensures TraitsKept(s, LinkHostStep(s, pubkeys, ips, hostId))
  {
  }

  lemma ReportTraits(s: State, e: Event)
    requires e.Heartbeat? || e.Rotate? || e.SetEgress? || e.LinkHost?
    ensures TraitsKept(s, Next(s, e))
  {
    hide HeartbeatStep, RotateStep, SetEgressStep, LinkHostStep, TraitsKept;
    match e
    case Heartbeat(secret, claimed, now, lan) => HeartbeatTraits(s, secret, claimed, now, lan);
    case Rotate(secret, claimed, now, until) => RotateTraits(s, secret, claimed, now, until);
    case SetEgress(device, egress) => ChoiceTraits(s, device, egress);
    case LinkHost(pubkeys, ips, hostId) => StampTraits(s, pubkeys, ips, hostId);
  }

  lemma MintTraits(s: State, slug: string, endpoint: string, mesh: Option<CidrText>, expires: Option<nat>)
    ensures TraitsKept(s, MintHubStep(s, slug, endpoint, mesh, expires))
  {
    hide Parse, MeshAccepted, SuggestMesh, HubBySlug, Hubs, DeviceIP;
    var s' := MintHubStep(s, slug, endpoint, mesh, expires);
    assert s'.devices == s.devices && s'.nextDevice == s.nextDevice;
  }

  lemma TableTraits(s: State, e: Event)
    requires e.MintDevice? || e.MintInternal? || e.Revoke? || e.UpdateHub? || e.Publish? || e.Unpublish?
    ensures TraitsKept(s, Next(s, e))
  {
    hide MeshAccepted, RoutesAccepted, HubBySlug, Hubs, Norm, TraitsKept;
    SameDevicesTraits(s, Next(s, e));
  }

  lemma RegisterTraits(s: State, input: RegisterInput, now: nat)
    requires Inv(s)
    ensures TraitsKept(s, RegisterStep(s, input, now).0)
  {
    hide Inv, RegisterStep;
    RegisterCases(s, input, now);
    NextDeviceFresh(s);
  }

  lemma NextTraits(s: State, e: Event)
    requires Inv(s)
    ensures TraitsKept(s, Next(s, e))
  {
    hide Inv, RegisterStep, MintHubStep, TraitsKept;
    if e.Register? {
      RegisterTraits(s, e.input, e.now);
    } else if e.MintHub? {
      MintTraits(s, e.slug, e.endpoint, e.mesh, e.expires);
    } else if e.Leave? || e.Remove? || e.Release? || e.Sweep? || e.ResetBind? || e.DeleteHub? {
      RetireTraits(s, e);
    } else if e.Heartbeat? || e.Rotate? || e.SetEgress? || e.LinkHost? {
      ReportTraits(s, e);
    } else {
      TableTraits(s, e);
    }
  }

  /** Over a run a device row keeps hub, site, slot, address, key, isolation and creation time. */
  lemma {:induction false} TraitsForGood(es: seq<Event>, more: seq<Event>, i: nat)
    requires i in Run(es).devices
    ensures i < Run(es + more).nextDevice
    ensures i in Run(es + more).devices ==> SameTraits(Run(es).devices[i], Run(es + more).devices[i])
  {
    hide Run, Next, Inv;
    if more == [] {
      assert es + more == es;
      RunInv(es);
      RowBelow(Run(es), i);
    } else {
      var last := |more| - 1;
      var s, e := Run(es + more[..last]), more[last];
      TraitsForGood(es, more[..last], i);
      RunInv(es + more[..last]);
      Secrets.RunExtended(es, more);
      NextTraits(s, e);
    }
  }

  /** So a device that was once admitted as an isolated spoke peers with its hub's device at most, after
      every continuation of the run. */
  lemma IsolatedForGood(es: seq<Event>, more: seq<Event>, x: nat, y: nat)
    requires x in Run(es).devices && Run(es).devices[x].isolated
    requires var s := Run(es + more);
             Spoke(s, x) && Up(s, y) && x != y && (Lists(s, x, y) || Lists(s, y, x))
    ensures var s := Run(es + more);
            s.hubs[s.devices[x].hub].bound == Some(y)
  {
    hide Run, Lists;
    TraitsForGood(es, more, x);
    RunInv(es + more);
    IsolatedPeersWithHub(Run(es + more), x, y);
  }
}
