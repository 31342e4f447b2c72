/** Peer lists: what handlers.go hands to each node, as functions of the database. */
module Routing {
  import opened Text
  import opened Cidr
  import opened Model
  import opened Queries

  /** One [Peer] of a node: its key, its own address and its further AllowedIPs. */
  datatype Peer = Peer(pubkey: string, wgIp: HostText, endpoint: string, extra: seq<CidrText>)

  // ---- the pure helpers ----

  predicate Usable(h: Hub, own: nat) {
    h.id != own && h.Configured() && h.endpoint != "" && Parse(h.mesh).Some?
  }

  /** otherConfiguredHubs, from the hub list and the networks already seen. */
  function OtherHubs(hubs: seq<Hub>, own: nat, seen: set<Prefix>): (out: seq<Hub>)
    ensures forall h | h in out :: h in hubs && Usable(h, own)
  {
    if hubs == [] then [] else
    var h := hubs[0];
    if !Usable(h, own) || Parse(h.mesh).value in seen then OtherHubs(hubs[1..], own, seen)
    else [h] + OtherHubs(hubs[1..], own, seen + {Parse(h.mesh).value})
  }

  function OwnNetwork(mesh: CidrText): set<Prefix> {
    if Parse(mesh).Some? then {Parse(mesh).value} else {}
  }

  /** hubMeshNetwork: the network in canonical spelling, or the empty text. */
  function MeshNetwork(mesh: CidrText): CidrText {
    if Parse(mesh).Some? then Spell(Parse(mesh).value) else Junk("")
  }

  /** The networks of those hubs that are linked and not skipped. */
  function LinkedNetworks(hubs: seq<Hub>, linked: set<nat>, skip: set<nat>): (out: seq<CidrText>)
    ensures forall r ::
              r in out <==> exists h :: h in hubs && h.id in linked && h.id !in skip && r == MeshNetwork(h.mesh)
  {
    if hubs == [] then [] else
      (if hubs[0].id in linked && hubs[0].id !in skip then [MeshNetwork(hubs[0].mesh)] else [])
      + LinkedNetworks(hubs[1..], linked, skip)
  }

  /** crossHubAllowedExtra. */
  function CrossHubExtra(hubs: seq<Hub>, own: nat, ownMesh: CidrText, linked: set<nat>, skip: set<nat>): seq<CidrText> {
    LinkedNetworks(OtherHubs(hubs, own, OwnNetwork(ownMesh)), linked, skip)
  }

  /** A hub as its linked hubs see it. */
  function FabricPeer(h: Hub): Peer {
    Peer(h.pubkey, if h.wgIp != Other("") && !HasSlash(h.wgIp) then With32(h.wgIp) else h.wgIp, h.endpoint,
         [MeshNetwork(h.mesh)] + SubnetRoutes(h.routes))
  }

  function LinkedPeers(hubs: seq<Hub>, linked: set<nat>): (out: seq<Peer>)
    ensures forall p :: p in out <==> exists h :: h in hubs && h.id in linked && p == FabricPeer(h)
  {
    if hubs == [] then [] else
      (if hubs[0].id in linked then [FabricPeer(hubs[0])] else []) + LinkedPeers(hubs[1..], linked)
  }

  lemma LinkedPeersFirst(h: Hub, hubs: seq<Hub>, linked: set<nat>)
    ensures LinkedPeers([h] + hubs, linked)
            == (if h.id in linked then [FabricPeer(h)] else []) + LinkedPeers(hubs, linked)
    ensures LinkedPeers([], linked) == []
  {
    hide FabricPeer;
    assert ([h] + hubs)[1..] == hubs;
  }

  /** otherConfiguredHubPeers. */
  function OtherHubPeers(hubs: seq<Hub>, own: nat, ownMesh: CidrText, linked: set<nat>): seq<Peer> {
    LinkedPeers(OtherHubs(hubs, own, OwnNetwork(ownMesh)), linked)
  }

  /** The first hub of the list with this id. */
  function FindHub(hubs: seq<Hub>, id: nat): (r: Option<Hub>)
    ensures r.Some? ==> r.value in hubs && r.value.id == id
    ensures r.None? ==> forall h | h in hubs :: h.id != id
  {
    if hubs == [] then None else if hubs[0].id == id then Some(hubs[0]) else FindHub(hubs[1..], id)
  }

  /** egressAllowedExtra. */
  function EgressExtra(egress: Option<nat>, own: Hub, hubs: seq<Hub>): seq<CidrText> {
    if egress.None? then []
    else if egress.value == own.id then own.routes
    else
      var h := FindHub(hubs, egress.value);
      if h.None? || !h.value.Configured() || h.value.endpoint == "" then [] else SubnetRoutes(h.value.routes)
  }

  // ---- the lookups behind a peer list ----

  /** hubLinkSet. */
  function LinkSet(s: State, hub: nat): set<nat> {
    set i | i in s.links && (s.links[i].a == hub || s.links[i].b == hub) ::
      if s.links[i].a == hub then s.links[i].b else s.links[i].a
  }

  /** hubIDsForHost: the hubs that a live device of the same host already joins. */
  function HubsOfHost(s: State, hostId: string, hostname: string): set<nat> {
    set i | i in s.devices && s.devices[i].Live()
            && ((hostId != "" && s.devices[i].hostId == hostId)
                || (hostname != "" && s.devices[i].hostname == hostname)) ::
      s.devices[i].hub
  }

  function DevicePeer(d: Device): Peer {
    Peer(d.pubkey, d.ip, d.lanEndpoint, [])
  }

  /** The LAN-direct peers of device x among some rows. */
  function LanPeers(s: State, x: Device, rows: seq<nat>): (out: seq<Peer>)
    ensures forall p :: p in out <==> exists i :: i in rows && LanPeer(s, x, i) && p == DevicePeer(s.devices[i])
  {
    if rows == [] then []
    else (if LanPeer(s, x, rows[0]) then [DevicePeer(s.devices[rows[0]])] else []) + LanPeers(s, x, rows[1..])
  }

  predicate LanPeer(s: State, x: Device, i: nat) {
    i in s.devices && s.devices[i].Live() && s.devices[i].site == x.site && i != x.id
    && !x.isolated && !s.devices[i].isolated
  }

  /** A spoke as its hub sees it. */
  function SpokePeer(d: Device): Peer {
    Peer(d.pubkey, With32(d.ip), "", [])
  }

  predicate SpokeOf(s: State, hub: nat, x: nat, i: nat) {
    i in s.devices && s.devices[i].Live() && s.devices[i].hub == hub && i != x
  }

  function SpokePeers(s: State, rows: seq<nat>): (out: seq<Peer>)
    requires forall k | 0 <= k < |rows| :: rows[k] in s.devices
    ensures |out| == |rows| && forall k | 0 <= k < |rows| :: out[k] == SpokePeer(s.devices[rows[k]])
  {
    if rows == [] then [] else [SpokePeer(s.devices[rows[0]])] + SpokePeers(s, rows[1..])
  }

  /** The hub as its spoke x sees it. */
  function HubPeer(s: State, x: Device, h: Hub): Peer {
    Peer(h.pubkey, h.wgIp, h.endpoint,
         (if Parse(h.mesh).Some? then [Spell(Parse(h.mesh).value)] else [])
         + CrossHubExtra(Hubs(s), h.id, h.mesh, LinkSet(s, h.id), HubsOfHost(s, x.hostId, x.hostname))
         + EgressExtra(x.egress, h, Hubs(s)))
  }

  function Trimmed(p: Peer): Peer {
    p.(wgIp := Without32(p.wgIp))
  }

  function TrimAll(ps: seq<Peer>): (out: seq<Peer>)
    ensures |out| == |ps| && forall i | 0 <= i < |ps| :: out[i] == Trimmed(ps[i])
  {
    if ps == [] then [] else [Trimmed(ps[0])] + TrimAll(ps[1..])
  }

  /** buildPeerListResponse. */
  function PeerList(s: State, x: Device, h: Hub): seq<Peer> {
    var lan := LanPeers(s, x, SiteRows(s, x.site, x.id));
    var self := h.bound == Some(x.id);
    if h.Configured() && !self then lan + [HubPeer(s, x, h)]
    else if self then lan + TrimAll(OtherHubPeers(Hubs(s), h.id, h.mesh, LinkSet(s, h.id)))
    else lan
  }

  /** handleWGHubPeers, once the caller is known to be the hub's bound device x. */
  function HubPeers(s: State, x: nat, h: Hub): seq<Peer> {
    SpokePeers(s, HubRows(s, h.id, x)) + OtherHubPeers(Hubs(s), h.id, h.mesh, LinkSet(s, h.id))
  }

  /** The peers of a registered device: a bound hub device polls /v1/hub/peers, every other
      device /v1/peers. */
  function NodePeers(s: State, x: nat): seq<Peer> {
    if x !in s.devices || s.devices[x].hub !in s.hubs then [] else
    var h := s.hubs[s.devices[x].hub];
    if h.bound == Some(x) then HubPeers(s, x, h) else PeerList(s, s.devices[x], h)
  }

  // ---- cryptokey routing (section 2 of the WireGuard whitepaper) ----

  /** q is among the peer's AllowedIPs. */
  predicate Allows(p: Peer, q: Prefix) {
    HostPrefix(p.wgIp) == Some(q) || exists r | r in p.extra :: Parse(r) == Some(q)
  }

  function ExtraMatch(extra: seq<CidrText>, a: Addr): (m: int)
    ensures m >= -1
    ensures m >= 0 ==>
              exists r :: r in extra && Parse(r).Some? && Contains(Parse(r).value, a) && Parse(r).value.len == m
    ensures forall r | r in extra && Parse(r).Some? && Contains(Parse(r).value, a) :: Parse(r).value.len <= m
  {
    if extra == [] then -1 else
    var rest := ExtraMatch(extra[1..], a);
    var p := Parse(extra[0]);
    if p.Some? && Contains(p.value, a) && p.value.len > rest then p.value.len else rest
  }

  /** The length of the peer's longest AllowedIPs entry that contains a, or -1. */
  function Best(p: Peer, a: Addr): (m: int)
    ensures m >= 0 ==> exists q :: Allows(p, q) && Contains(q, a) && q.len == m
    ensures forall q | Allows(p, q) && Contains(q, a) :: q.len <= m
  {
    var e := ExtraMatch(p.extra, a);
    var h := HostPrefix(p.wgIp);
    if h.Some? && Contains(h.value, a) && h.value.len > e then
      assert Allows(p, h.value);
      h.value.len
    else
      assert e >= 0 ==>
          exists r :: r in p.extra && Parse(r).Some? && Allows(p, Parse(r).value)
                      && Contains(Parse(r).value, a) && Parse(r).value.len == e;
      e
  }

  /** The key and length of the longest match in a peer list; a later stanza takes over an
      equal prefix. */
  function Scan(peers: seq<Peer>, a: Addr): (r: (string, int))
    ensures r.1 >= 0 ==> exists p :: p in peers && p.pubkey == r.0 && Best(p, a) == r.1
    ensures forall p | p in peers :: Best(p, a) <= r.1 || Best(p, a) < 0
  {
    if peers == [] then ("", -1) else
    var last := peers[|peers| - 1];
    var rest := Scan(peers[..|peers| - 1], a);
    assert peers == peers[..|peers| - 1] + [last];
    if Best(last, a) >= 0 && Best(last, a) >= rest.1 then (last.pubkey, Best(last, a)) else rest
  }

  /** The peer a packet to a is sent to, and the only peer a packet from a is accepted from. */
  function Lookup(peers: seq<Peer>, a: Addr): Option<string> {
    var r := Scan(peers, a);
    if r.1 >= 0 then Some(r.0) else None
  }

  /** A key wins the lookup if it has a match that every other key's matches fall short of. */
  lemma LookupWins(peers: seq<Peer>, a: Addr, p: Peer)
    requires p in peers && Best(p, a) >= 0
    requires forall q | q in peers && q.pubkey != p.pubkey :: Best(q, a) < Best(p, a)
    ensures Lookup(peers, a) == Some(p.pubkey)
  {
    var r := Scan(peers, a);
    var q :| q in peers && q.pubkey == r.0 && Best(q, a) == r.1;
  }

  lemma NobodyMatches(peers: seq<Peer>, a: Addr)
    requires forall q | q in peers :: Best(q, a) < 0
    ensures Lookup(peers, a) == None
  {
    hide Best;
    var m := Scan(peers, a);
    assert m.1 < 0;
  }

  lemma LookupFound(peers: seq<Peer>, a: Addr)
    requires Lookup(peers, a).Some?
    ensures exists p, q :: p in peers && Lookup(peers, a) == Some(p.pubkey) && Allows(p, q) && Contains(q, a)
  {
    var r := Scan(peers, a);
    var p :| p in peers && p.pubkey == r.0 && Best(p, a) == r.1;
    var q :| Allows(p, q) && Contains(q, a) && q.len == Best(p, a);
  }
}
