/** End to end: packets reach the device they are addressed to, cross at most one link, and no
    peer list leaks another hub's mesh. */
module Delivery {
  import opened Text
  import opened Cidr
  import opened Model
  import opened Queries
  import opened Steps
  import opened Invariants
  import opened Allocation
  import opened Routing
  import opened HubFilter
  import opened Lookups

  /** The live device that node x sends a packet for a to. */
  function Forward(s: State, x: nat, a: Addr): (r: Option<nat>)
    ensures r.Some? ==> r.value in s.devices && s.devices[r.value].Live()
  {
    var key := Lookup(NodePeers(s, x), a);
    if key.Some? then LiveByPubkey(s, key.value) else None
  }

  /** Node x takes a packet with source a from node from. */
  predicate Accepts(s: State, x: nat, from: nat, a: Addr) {
    from in s.devices && Lookup(NodePeers(s, x), a) == Some(s.devices[from].pubkey)
  }

  /** x sends the packet to y, and y takes it. */
  ghost predicate Hop(s: State, x: nat, y: nat, src: Addr, dst: Addr) {
    Forward(s, x, dst) == Some(y) && Accepts(s, y, x, src)
  }

  lemma KeyNamesDevice(s: State, x: nat)
    requires Inv(s) && Up(s, x)
    ensures LiveByPubkey(s, s.devices[x].pubkey) == Some(x)
  {
    assert RowOk(s, x);
    var r := LiveByPubkey(s, s.devices[x].pubkey);
    assert r.Some?;
    assert Apart(s, r.value, x);
  }

  lemma HubKeyNamesBound(s: State, h: nat)
    requires Sane(s) && h in s.hubs && s.hubs[h].Configured()
    ensures s.hubs[h].bound.Some? && BoundTo(s, h, s.hubs[h].bound.value)
    ensures LiveByPubkey(s, s.hubs[h].pubkey) == s.hubs[h].bound
  {
    BoundFacts(s, h);
    KeyNamesDevice(s, s.hubs[h].bound.value);
  }

  /** A LAN-direct pair: same site, neither isolated. */
  ghost predicate LanPair(s: State, x: nat, y: nat) {
    Up(s, x) && Up(s, y) && x != y && s.devices[x].site == s.devices[y].site
    && !s.devices[x].isolated && !s.devices[y].isolated
  }

  lemma LanPairHop(s: State, x: nat, y: nat)
    requires Sane(s) && LanPair(s, x, y) && Spoke(s, x) && Spoke(s, y)
    ensures s.devices[x].ip.Bare? && s.devices[y].ip.Bare? && Hop(s, x, y, IpOf(s, x), IpOf(s, y))
  {
    DeviceFacts(s, x);
    DeviceFacts(s, y);
    SpokeFindsLan(s, x, y);
    SpokeFindsLan(s, y, x);
    KeyNamesDevice(s, y);
  }

  /** No LAN-direct peer of x holds address a, except possibly the hub itself. */
  lemma LanMisses(s: State, x: nat, y: nat)
    requires Sane(s) && Spoke(s, x) && Up(s, y) && x != y
    requires s.hubs[s.devices[x].hub].Configured() && s.devices[y].ip.Bare?
    requires !LanPair(s, x, y) || s.hubs[s.devices[x].hub].bound == Some(y)
    ensures forall i | LanPeer(s, s.devices[x], i) && s.devices[i].ip == Bare(IpOf(s, y)) ::
            s.devices[i].pubkey == s.hubs[s.devices[x].hub].pubkey
  {
    DeviceFacts(s, x);
    BoundFacts(s, s.devices[x].hub);
    forall i | LanPeer(s, s.devices[x], i) && s.devices[i].ip == Bare(IpOf(s, y))
      ensures s.devices[i].pubkey == s.hubs[s.devices[x].hub].pubkey
    {
      SameIpSameDevice(s, i, y);
    }
  }

  /** From a spoke to its hub, towards any routed address that is not a LAN-direct peer's. */
  lemma SpokeToHubHop(s: State, x: nat, y: nat)
    requires Sane(s) && Spoke(s, x) && Up(s, y) && x != y && s.hubs[s.devices[x].hub].Configured()
    requires !LanPair(s, x, y) || s.hubs[s.devices[x].hub].bound == Some(y)
    requires RoutedFrom(s, s.devices[x], s.devices[x].hub, s.devices[y].hub)
    ensures s.hubs[s.devices[x].hub].bound.Some? && s.devices[x].ip.Bare? && s.devices[y].ip.Bare?
    ensures Hop(s, x, s.hubs[s.devices[x].hub].bound.value, IpOf(s, x), IpOf(s, y))
  {
    var h := s.devices[x].hub;
    DeviceFacts(s, x);
    DeviceFacts(s, y);
    HubKeyNamesBound(s, h);
    LanMisses(s, x, y);
    SpokeFindsHub(s, x, s.devices[y].hub, IpOf(s, y));
    HubFindsSpoke(s, h, x);
  }

  /** From a hub down to its own spoke, for a packet from any routed address that is not a
      LAN-direct peer's. */
  lemma HubToSpokeHop(s: State, x: nat, y: nat)
    requires Sane(s) && Spoke(s, y) && Up(s, x) && x != y && s.hubs[s.devices[y].hub].Configured()
    requires !LanPair(s, y, x) || s.hubs[s.devices[y].hub].bound == Some(x)
    requires RoutedFrom(s, s.devices[y], s.devices[y].hub, s.devices[x].hub)
    ensures s.hubs[s.devices[y].hub].bound.Some? && s.devices[x].ip.Bare? && s.devices[y].ip.Bare?
    ensures Hop(s, s.hubs[s.devices[y].hub].bound.value, y, IpOf(s, x), IpOf(s, y))
  {
    var h := s.devices[y].hub;
    DeviceFacts(s, x);
    DeviceFacts(s, y);
    HubKeyNamesBound(s, h);
    HubFindsSpoke(s, h, y);
    KeyNamesDevice(s, y);
    LanMisses(s, y, x);
    SpokeFindsHub(s, y, s.devices[x].hub, IpOf(s, x));
  }

  /** Delivery inside one configured hub: directly over the LAN when the two devices share a
      site and neither is isolated, otherwise through the hub. */
  lemma DeliveredInHub(s: State, x: nat, y: nat)
    requires Sane(s) && Spoke(s, x) && Up(s, y) && x != y
    requires s.devices[x].hub == s.devices[y].hub && s.hubs[s.devices[x].hub].Configured()
    ensures s.hubs[s.devices[x].hub].bound.Some? && s.devices[x].ip.Bare? && s.devices[y].ip.Bare?
    ensures var b, src, dst := s.hubs[s.devices[x].hub].bound.value, IpOf(s, x), IpOf(s, y);
            if y == b then Hop(s, x, b, src, dst)
            else if LanPair(s, x, y) then Hop(s, x, y, src, dst)
            else Hop(s, x, b, src, dst) && Hop(s, b, y, src, dst)
  {
    var h := s.devices[x].hub;
    DeviceFacts(s, x);
    DeviceFacts(s, y);
    BoundFacts(s, h);
    if y == s.hubs[h].bound.value {
      SpokeToHubHop(s, x, y);
    } else if LanPair(s, x, y) {
      LanPairHop(s, x, y);
    } else {
      SpokeToHubHop(s, x, y);
      HubToSpokeHop(s, x, y);
    }
  }

  lemma LinkSymmetric(s: State, a: nat, b: nat)
    ensures a in LinkSet(s, b) <==> b in LinkSet(s, a)
  {
    forall a, b | b in LinkSet(s, a) ensures a in LinkSet(s, b) {
      var i :| i in s.links && (s.links[i].a == a || s.links[i].b == a)
               && b == if s.links[i].a == a then s.links[i].b else s.links[i].a;
      assert (if s.links[i].a == b then s.links[i].b else s.links[i].a) == a;
    }
  }

  /** Two hubs that can carry each other's traffic: different, configured, endpointed, linked. */
  ghost predicate Joined(s: State, a: nat, b: nat) {
    && a in s.hubs && b in s.hubs && a != b && b in LinkSet(s, a)
    && s.hubs[a].Configured() && s.hubs[b].Configured() && s.hubs[a].endpoint != "" && s.hubs[b].endpoint != ""
  }

  /** The host of x does not itself join hub k. */
  ghost predicate Unskipped(s: State, x: nat, k: nat)
    requires x in s.devices
  {
    k !in HubsOfHost(s, s.devices[x].hostId, s.devices[x].hostname)
  }

  /** At hub k, an address of hub h's mesh belongs to hub h's key if the two are linked and h has
      an endpoint, and to nobody otherwise. */
  lemma HubKnowsMesh(s: State, k: nat, h: nat, a: Addr)
    requires Sane(s) && h in s.hubs && k in s.hubs && h != k && s.hubs[h].Configured() && s.hubs[k].Configured()
             && InHub(s, h, a)
    ensures s.hubs[k].bound.Some?
    ensures Lookup(NodePeers(s, s.hubs[k].bound.value), a)
            == if h in LinkSet(s, k) && s.hubs[h].endpoint != "" then Some(s.hubs[h].pubkey) else None
  {
    hide NodePeers, Best;
    BoundFacts(s, k);
    BoundFacts(s, h);
    var b := s.hubs[k].bound.value;
    if h in LinkSet(s, k) && s.hubs[h].endpoint != "" {
      HubFindsLinked(s, k, h, a);
    } else {
      forall q | q in NodePeers(s, b) ensures Best(q, a) < 0 {
        HubPeersAre(s, k, q);
        if i :| SpokeOf(s, k, b, i) && q == SpokePeer(s.devices[i]) {
          DeviceFacts(s, i);
          DevicePeerBest(s.devices[i], a);
          if IpOf(s, i) == a {
            OneHub(s, h, k, a);
          }
        } else {
          var c :| c in s.hubs && Usable(s.hubs[c], k) && c in LinkSet(s, k) && q == FabricPeer(s.hubs[c]);
          assert RowOk(s, c);
          FabricBest(s, c, h, a);
        }
      }
      NobodyMatches(NodePeers(s, b), a);
    }
  }

  /** The hop between two hubs happens, for any packet between their devices, exactly when they
      are linked and both have endpoints. */
  lemma HubHopIff(s: State, x: nat, y: nat)
    requires Sane(s) && Up(s, x) && Up(s, y) && s.devices[x].hub != s.devices[y].hub
    requires s.devices[x].hub in s.hubs && s.hubs[s.devices[x].hub].Configured()
    requires s.devices[y].hub in s.hubs && s.hubs[s.devices[y].hub].Configured()
    ensures s.devices[x].ip.Bare? && s.devices[y].ip.Bare?
    ensures s.hubs[s.devices[x].hub].bound.Some? && s.hubs[s.devices[y].hub].bound.Some?
    ensures Hop(s, s.hubs[s.devices[x].hub].bound.value, s.hubs[s.devices[y].hub].bound.value, IpOf(s, x), IpOf(s, y))
            <==> Joined(s, s.devices[x].hub, s.devices[y].hub)
  {
    hide NodePeers, Lookup;
    var g, h := s.devices[x].hub, s.devices[y].hub;
    DeviceFacts(s, x);
    DeviceFacts(s, y);
    HubKeyNamesBound(s, g);
    HubKeyNamesBound(s, h);
    HubKnowsMesh(s, g, h, IpOf(s, y));
    HubKnowsMesh(s, h, g, IpOf(s, x));
    LinkSymmetric(s, g, h);
  }

  /** A spoke's own list routes hub k's mesh to its own hub, given that the two hubs are joined. */
  ghost predicate Reaches(s: State, x: nat, k: nat)
    requires x in s.devices && s.devices[x].hub in s.hubs
  {
    Unskipped(s, x, k) || OwnDefault(s, s.devices[x], s.devices[x].hub)
  }

  /** The hop from a spoke to its own hub, towards another hub's mesh. */
  lemma LeavingHopIff(s: State, x: nat, y: nat)
    requires Sane(s) && Spoke(s, x) && Up(s, y) && s.devices[x].hub != s.devices[y].hub
    requires Joined(s, s.devices[x].hub, s.devices[y].hub)
    ensures s.hubs[s.devices[x].hub].bound.Some? && s.devices[x].ip.Bare? && s.devices[y].ip.Bare?
    ensures Hop(s, x, s.hubs[s.devices[x].hub].bound.value, IpOf(s, x), IpOf(s, y)) <==> Reaches(s, x, s.devices[y].hub)
  {
    hide NodePeers, Lookup;
    var h := s.devices[x].hub;
    DeviceFacts(s, x);
    DeviceFacts(s, y);
    HubKeyNamesBound(s, h);
    HubFindsSpoke(s, h, x);
    SpokeFindsForeign(s, x, s.devices[y].hub, IpOf(s, y));
    JoinedRoutes(s, x, s.devices[y].hub);
  }

  lemma JoinedRoutes(s: State, x: nat, k: nat)
    requires Inv(s) && x in s.devices && Joined(s, s.devices[x].hub, k)
    ensures RoutedFrom(s, s.devices[x], s.devices[x].hub, k) <==> Unskipped(s, x, k)
  {
    assert RowOk(s, k);
  }

  /** The hop from a hub down to its spoke, for a packet from another hub's mesh. */
  lemma EnteringHopIff(s: State, x: nat, y: nat)
    requires Sane(s) && Up(s, x) && Spoke(s, y) && s.devices[x].hub != s.devices[y].hub
    requires Joined(s, s.devices[y].hub, s.devices[x].hub)
    ensures s.hubs[s.devices[y].hub].bound.Some? && s.devices[x].ip.Bare? && s.devices[y].ip.Bare?
    ensures Hop(s, s.hubs[s.devices[y].hub].bound.value, y, IpOf(s, x), IpOf(s, y)) <==> Reaches(s, y, s.devices[x].hub)
  {
    hide NodePeers, Lookup;
    var h := s.devices[y].hub;
    DeviceFacts(s, x);
    DeviceFacts(s, y);
    HubKeyNamesBound(s, h);
    HubFindsSpoke(s, h, y);
    KeyNamesDevice(s, y);
    SpokeFindsForeign(s, y, s.devices[x].hub, IpOf(s, x));
    JoinedRoutes(s, y, s.devices[x].hub);
  }

  /** A packet from x to y passes x's hub and y's hub, every hop sent and accepted. */
  ghost predicate Delivered(s: State, x: nat, y: nat) {
    && x in s.devices && y in s.devices && s.devices[x].ip.Bare? && s.devices[y].ip.Bare?
    && s.devices[x].hub in s.hubs && s.devices[y].hub in s.hubs
    && (var a, b := s.hubs[s.devices[x].hub].bound, s.hubs[s.devices[y].hub].bound;
        && a.Some? && b.Some?
        && Hop(s, x, a.value, IpOf(s, x), IpOf(s, y)) && Hop(s, a.value, b.value, IpOf(s, x), IpOf(s, y))
        && (y != b.value ==> Hop(s, b.value, y, IpOf(s, x), IpOf(s, y))))
  }

  /** What delivery from a spoke to a device of another hub takes: joined hubs, and at each end
      that is a spoke a host that does not join the other hub itself, or the own hub's default
      route. */
  ghost predicate Connected(s: State, x: nat, y: nat)
    requires x in s.devices && y in s.devices
  {
    && Joined(s, s.devices[x].hub, s.devices[y].hub) && Reaches(s, x, s.devices[y].hub)
    && (s.hubs[s.devices[y].hub].bound == Some(y) || Reaches(s, y, s.devices[x].hub))
  }

  /** Delivery across a link, spoke to hub, hub to hub, hub to device. Every node forwards by
      longest-prefix match, and every receiver's source check accepts the packet. */
  lemma DeliveredAcrossIff(s: State, x: nat, y: nat)
    requires Sane(s) && Spoke(s, x) && Up(s, y) && s.devices[x].hub != s.devices[y].hub
    ensures Delivered(s, x, y) <==> Connected(s, x, y)
  {
    hide NodePeers, Hop, Reaches;
    var g, h := s.devices[x].hub, s.devices[y].hub;
    DeviceFacts(s, x);
    DeviceFacts(s, y);
    BindingKnown(s, g);
    BindingKnown(s, h);
    LinkSymmetric(s, g, h);
    if s.hubs[g].Configured() && s.hubs[h].Configured() {
      HubHopIff(s, x, y);
      if Joined(s, g, h) {
        LeavingHopIff(s, x, y);
        if s.hubs[h].bound != Some(y) {
          EnteringHopIff(s, x, y);
        }
      }
    }
  }

  lemma BindingKnown(s: State, h: nat)
    requires Inv(s) && h in s.hubs
    ensures s.hubs[h].Configured() <==> s.hubs[h].bound.Some?
  {
    assert RowOk(s, h);
  }

  /** The same over runs: after every run without mesh or address edits and without meshes longer
      than /24 whose advertised subnets are clear of the meshes. */
  lemma RunDelivers(es: seq<Event>, x: nat, y: nat)
    requires forall e | e in es :: Calm(e) && Wide(e)
    requires SubnetsClear(Run(es))
    requires var s := Run(es);
             Spoke(s, x) && Up(s, y) && s.devices[x].hub != s.devices[y].hub
    ensures Delivered(Run(es), x, y) <==> Connected(Run(es), x, y)
  {
    hide Delivered, Connected;
    CalmRunSane(es);
    DeliveredAcrossIff(Run(es), x, y);
  }

  // ---- no loops ----

  /** Node x, which is not the addressee, sends a packet for a on to y. */
  ghost predicate Relays(s: State, x: nat, y: nat, a: Addr) {
    x in s.devices && s.devices[x].ip != Bare(a) && Forward(s, x, a) == Some(y)
  }

  /** The nodes a packet for a visits, one after the other. */
  ghost predicate Path(s: State, t: seq<nat>, a: Addr) {
    |t| >= 1 && forall i | 0 <= i < |t| - 1 :: Relays(s, t[i], t[i + 1], a)
  }

  /** From a spoke a packet goes to its addressee or to the spoke's hub. */
  lemma SpokeStep(s: State, x: nat, a: Addr)
    requires Sane(s) && Spoke(s, x) && Forward(s, x, a).Some?
    ensures var y := Forward(s, x, a).value;
            s.devices[y].hub == s.devices[x].hub
            && (s.devices[y].ip == Bare(a) || s.hubs[s.devices[x].hub].bound == Some(y))
  {
    hide NodePeers, Lookup, Best;
    var h := s.devices[x].hub;
    DeviceFacts(s, x);
    LookupFound(NodePeers(s, x), a);
    var p, q :| p in NodePeers(s, x) && Lookup(NodePeers(s, x), a) == Some(p.pubkey) && Allows(p, q) && Contains(q, a);
    SpokePeersAre(s, x, p);
    if i :| LanPeer(s, s.devices[x], i) && p == DevicePeer(s.devices[i]) {
      DeviceFacts(s, i);
      HostRoute(IpOf(s, i), a);
      KeyNamesDevice(s, i);
      assert RowOk(s, i) && RowOk(s, x);
    } else {
      HubKeyNamesBound(s, h);
    }
  }

  /** From a hub a packet for an address of some mesh goes to its addressee if the mesh is the
      hub's own, and otherwise to the hub of that mesh, over a published link. */
  lemma HubStep(s: State, h: nat, k: nat, a: Addr)
    requires Sane(s) && h in s.hubs && s.hubs[h].Configured() && InHub(s, k, a)
    ensures s.hubs[h].bound.Some? && BoundTo(s, h, s.hubs[h].bound.value)
    ensures var y := Forward(s, s.hubs[h].bound.value, a);
            y.Some? ==>
              if k == h then s.devices[y.value].ip == Bare(a) && s.devices[y.value].hub == h
              else k in LinkSet(s, h) && s.hubs[k].bound == y && s.devices[y.value].hub == k
  {
    hide NodePeers, Lookup, Best, SubnetRoutes;
    BoundFacts(s, h);
    var b := s.hubs[h].bound.value;
    if Forward(s, b, a).Some? {
      LookupFound(NodePeers(s, b), a);
      var p, q :| p in NodePeers(s, b) && Lookup(NodePeers(s, b), a) == Some(p.pubkey) && Allows(p, q)
        && Contains(q, a);
      HubPeersAre(s, h, p);
      if i :| SpokeOf(s, h, b, i) && p == SpokePeer(s.devices[i]) {
        DeviceFacts(s, i);
        HostRoute(IpOf(s, i), a);
        KeyNamesDevice(s, i);
        OneHub(s, h, k, a);
      } else {
        var c :| c in s.hubs && Usable(s.hubs[c], h) && c in LinkSet(s, h) && p == FabricPeer(s.hubs[c]);
        assert RowOk(s, c);
        assert q.len <= Best(p, a);
        FabricBest(s, c, k, a);
        HubKeyNamesBound(s, c);
      }
    }
  }

  /** One relay of a packet for an address of hub k's mesh, in terms of hubs and bindings. */
  ghost predicate RelayFact(s: State, k: nat, a: Addr, x: nat, y: nat) {
    && x in s.devices && y in s.devices && s.devices[x].ip != Bare(a) && s.devices[x].hub in s.hubs
    && (var h := s.devices[x].hub;
        if s.hubs[h].bound != Some(x) then
          s.devices[y].hub == h && (s.devices[y].ip == Bare(a) || s.hubs[h].bound == Some(y))
        else if k == h then s.devices[y].hub == h && s.devices[y].ip == Bare(a)
        else k in LinkSet(s, h) && s.devices[y].hub == k && k in s.hubs && s.hubs[k].bound == Some(y))
  }

  lemma RelaysFact(s: State, k: nat, a: Addr, x: nat, y: nat)
    requires Sane(s) && InHub(s, k, a) && Up(s, x) && Relays(s, x, y, a)
    ensures RelayFact(s, k, a, x, y) && Up(s, y)
  {
    DeviceFacts(s, x);
    var h := s.devices[x].hub;
    assert RowOk(s, h);
    if s.hubs[h].bound == Some(x) {
      HubStep(s, h, k, a);
    } else {
      SpokeStep(s, x, a);
    }
  }

  ghost predicate FactPath(s: State, k: nat, a: Addr, t: seq<nat>) {
    |t| >= 1 && forall i | 0 <= i < |t| - 1 :: RelayFact(s, k, a, t[i], t[i + 1])
  }

  ghost predicate Crosses(s: State, t: seq<nat>, i: nat)
    requires i + 1 < |t|
  {
    t[i] in s.devices && t[i + 1] in s.devices && s.devices[t[i]].hub != s.devices[t[i + 1]].hub
  }

  lemma FactPathShort(s: State, k: nat, a: Addr, t: seq<nat>)
    requires FactPath(s, k, a, t)
    ensures |t| <= 4
    ensures forall i, j | 0 <= i < j < |t| - 1 :: !(Crosses(s, t, i) && Crosses(s, t, j))
  {
    if |t| > 1 { assert RelayFact(s, k, a, t[0], t[1]); }
    if |t| > 2 { assert RelayFact(s, k, a, t[1], t[2]); }
    if |t| > 3 { assert RelayFact(s, k, a, t[2], t[3]); }
    assert |t| > 4 ==> RelayFact(s, k, a, t[3], t[4]);
  }

  lemma {:induction false} PathFacts(s: State, k: nat, a: Addr, t: seq<nat>)
    requires Sane(s) && InHub(s, k, a) && Path(s, t, a) && Up(s, t[0])
    ensures FactPath(s, k, a, t) && Up(s, t[|t| - 1])
  {
    hide Sane, InHub, Up, Relays, RelayFact;
    if |t| <= 1 {
    } else {
      var u := t[..|t| - 1];
      forall i | 0 <= i < |u| - 1 ensures Relays(s, u[i], u[i + 1], a) {
        assert Relays(s, t[i], t[i + 1], a);
      }
      PathFacts(s, k, a, u);
      assert Relays(s, t[|t| - 2], t[|t| - 2 + 1], a);
      RelaysFact(s, k, a, t[|t| - 2], t[|t| - 1]);
      forall i | 0 <= i < |t| - 1 ensures RelayFact(s, k, a, t[i], t[i + 1]) {
        if i < |u| - 1 {
          assert RelayFact(s, k, a, u[i], u[i + 1]);
        }
      }
    }
  }

  /** A packet for an address of any mesh, from any live device, makes at most three hops and
      crosses at most one link, whatever the link graph. */
  lemma AtMostThreeHops(s: State, k: nat, a: Addr, t: seq<nat>)
    requires Sane(s) && InHub(s, k, a) && Path(s, t, a) && Up(s, t[0])
    ensures |t| <= 4
    ensures forall i, j | 0 <= i < j < |t| - 1 :: !(Crosses(s, t, i) && Crosses(s, t, j))
  {
    PathFacts(s, k, a, t);
    FactPathShort(s, k, a, t);
  }
}
