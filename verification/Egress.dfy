/** Cross-hub egress: which hub a spoke's traffic to an advertised subnet leaves through. */
module Egress {
  import opened Text
  import opened Cidr
  import opened Model
  import opened Queries
  import opened Steps
  import opened Invariants
  import opened Allocation
  import opened Routing
  import opened HubFilter
  import opened Lookups
  import opened Delivery

  // ---- at the spoke ----

  /** An egress hub that other hubs can reach: without a bound device or an endpoint it is offered
      to nobody. */
  ghost predicate Reachable(s: State, k: nat)
    requires k in s.hubs
  {
    s.hubs[k].Configured() && s.hubs[k].endpoint != ""
  }

  /** A spoke that chose another hub's egress sends such traffic to its own hub if the chosen hub
      is reachable, and has no route for it otherwise. */
  lemma SpokeSendsEgress(s: State, x: nat, k: nat, r: CidrText, a: Addr)
    requires Sane(s) && Spoke(s, x) && s.devices[x].egress == Some(k) && k in s.hubs && k != s.devices[x].hub
    requires s.hubs[s.devices[x].hub].Configured()
    requires r in s.hubs[k].routes && r != DEFAULT_ROUTE && Parse(r).Some? && Contains(Parse(r).value, a)
    ensures forall j | j in s.hubs :: !InHub(s, j, a)
    ensures Lookup(NodePeers(s, x), a) == if Reachable(s, k) then Some(s.hubs[s.devices[x].hub].pubkey) else None
  {
    hide NodePeers, Lookup;
    forall j | j in s.hubs ensures !InHub(s, j, a) {
      if InHub(s, j, a) {
        SubnetMisses(s, k, r, j, a);
      }
    }
    if Reachable(s, k) {
      SpokeSendsEgressHome(s, x, k, r, a);
    } else {
      SpokeKeepsEgress(s, x, k, a);
    }
  }

  /** An unreachable choice adds no route: nothing in the spoke's list matches. */
  lemma SpokeKeepsEgress(s: State, x: nat, k: nat, a: Addr)
    requires Sane(s) && Spoke(s, x) && s.devices[x].egress == Some(k) && k in s.hubs && k != s.devices[x].hub
    requires s.hubs[s.devices[x].hub].Configured() && !Reachable(s, k)
    requires forall j | j in s.hubs :: !InHub(s, j, a)
    ensures Lookup(NodePeers(s, x), a) == None
  {
    hide NodePeers, Best;
    var h := s.devices[x].hub;
    forall q | q in NodePeers(s, x) ensures Best(q, a) < 0 {
      SpokePeersAre(s, x, q);
      if i :| LanPeer(s, s.devices[x], i) && q == DevicePeer(s.devices[i]) {
        DeviceFacts(s, i);
        DevicePeerBest(s.devices[i], a);
      } else {
        HubPeerMisses(s, s.devices[x], h, a);
      }
    }
    NobodyMatches(NodePeers(s, x), a);
  }

  lemma HubPeerMisses(s: State, x: Device, h: nat, a: Addr)
    requires Sane(s) && h in s.hubs && s.hubs[h].Configured() && forall j | j in s.hubs :: !InHub(s, j, a)
    requires x.egress.Some? && x.egress.value in s.hubs && x.egress.value != h && !Reachable(s, x.egress.value)
    ensures Best(HubPeer(s, x, s.hubs[h]), a) < 0
  {
    var p := HubPeer(s, x, s.hubs[h]);
    BoundFacts(s, h);
    HubInOwnMesh(s, h, h);
    HostRoute(s.hubs[h].wgIp.addr, a);
    NoEgressExtra(s, x, h);
    forall q | Allows(p, q) ensures !Contains(q, a) {
      if HostPrefix(p.wgIp) != Some(q) {
        var e :| e in p.extra && Parse(e) == Some(q);
        HubEntryKinds(s, x, h, e);
        MeshCanonical(s, h);
        if e != Spell(MeshOf(s, h)) {
          var c :| c in s.hubs && Usable(s.hubs[c], h) && c in LinkSet(s, h) && e == Spell(MeshOf(s, c));
          MeshCanonical(s, c);
        }
      }
    }
  }

  lemma NoEgressExtra(s: State, x: Device, h: nat)
    requires Inv(s) && h in s.hubs
    requires x.egress.Some? && x.egress.value in s.hubs && x.egress.value != h && !Reachable(s, x.egress.value)
    ensures EgressExtra(x.egress, s.hubs[h], Hubs(s)) == []
  {
    HubsSorted(s);
    assert RowOk(s, h) && RowOk(s, x.egress.value);
    var f := FindHub(Hubs(s), x.egress.value);
    assert f == Some(s.hubs[x.egress.value]);
  }

  lemma SpokeSendsEgressHome(s: State, x: nat, k: nat, r: CidrText, a: Addr)
    requires Sane(s) && Spoke(s, x) && s.devices[x].egress == Some(k) && k in s.hubs && k != s.devices[x].hub
    requires s.hubs[s.devices[x].hub].Configured() && s.hubs[k].Configured() && s.hubs[k].endpoint != ""
    requires r in s.hubs[k].routes && r != DEFAULT_ROUTE && Parse(r).Some? && Contains(Parse(r).value, a)
    requires forall j | j in s.hubs :: !InHub(s, j, a)
    ensures Lookup(NodePeers(s, x), a) == Some(s.hubs[s.devices[x].hub].pubkey)
  {
    var h := s.devices[x].hub;
    var p := HubPeer(s, s.devices[x], s.hubs[h]);
    SpokePeersAre(s, x, p);
    HubsSorted(s);
    var f := FindHub(Hubs(s), k);
    assert f == Some(s.hubs[k]) by { assert RowOk(s, k); }
    assert RowOk(s, h);
    assert r in p.extra;
    assert Allows(p, Parse(r).value);
    forall q | q in NodePeers(s, x) && q.pubkey != p.pubkey ensures Best(q, a) < 0 {
      SpokePeersAre(s, x, q);
      var i :| LanPeer(s, s.devices[x], i) && q == DevicePeer(s.devices[i]);
      DeviceFacts(s, i);
      DevicePeerBest(s.devices[i], a);
    }
    LookupWins(NodePeers(s, x), a, p);
  }

  // ---- at the hub ----

  /** Hub c is among hub h's fabric peers. */
  ghost predicate Fabric(s: State, h: nat, c: nat) {
    c in s.hubs && Usable(s.hubs[c], h) && c in LinkSet(s, h)
  }

  /** Hub k takes precedence over hub c for address a: by a longer match, or by its id. */
  ghost predicate Precedes(k: Hub, c: Hub, a: Addr) {
    Best(FabricPeer(c), a) < Best(FabricPeer(k), a)
    || (Best(FabricPeer(c), a) == Best(FabricPeer(k), a) && c.id < k.id)
  }

  /** Of hub h's fabric peers, hub k matches a and takes precedence over all others. */
  ghost predicate Carries(s: State, h: nat, k: nat, a: Addr) {
    && Fabric(s, h, k) && Best(FabricPeer(s.hubs[k]), a) >= 0
    && forall c | Fabric(s, h, c) && c != k :: Precedes(s.hubs[k], s.hubs[c], a)
  }

  /** The last of the longest matches among linked hubs. */
  function Pick(hubs: seq<Hub>, linked: set<nat>, a: Addr): (r: Option<Hub>)
    ensures r.Some? ==> r.value in hubs && r.value.id in linked && Best(FabricPeer(r.value), a) >= 0
  {
    if hubs == [] then None else
    var last := hubs[|hubs| - 1];
    var rest := Pick(hubs[..|hubs| - 1], linked, a);
    var m := Best(FabricPeer(last), a);
    if last.id in linked && m >= 0 && (rest.None? || m >= Best(FabricPeer(rest.value), a)) then Some(last) else rest
  }

  lemma {:induction false} LinkedPeersLast(hubs: seq<Hub>, linked: set<nat>, h: Hub)
    ensures LinkedPeers(hubs + [h], linked)
            == LinkedPeers(hubs, linked) + if h.id in linked then [FabricPeer(h)] else []
  {
    hide FabricPeer, LinkedPeers;
    if hubs == [] {
      LinkedPeersFirst(h, [], linked);
      assert hubs + [h] == [h] + [];
    } else {
      assert hubs == [hubs[0]] + hubs[1..] && hubs + [h] == [hubs[0]] + (hubs[1..] + [h]);
      LinkedPeersFirst(hubs[0], hubs[1..], linked);
      LinkedPeersFirst(hubs[0], hubs[1..] + [h], linked);
      LinkedPeersLast(hubs[1..], linked, h);
    }
  }

  lemma {:induction false} PickIsScan(hubs: seq<Hub>, linked: set<nat>, a: Addr)
    ensures Scan(LinkedPeers(hubs, linked), a)
            == match Pick(hubs, linked, a)
               case Some(h) => (h.pubkey, Best(FabricPeer(h), a))
               case None => ("", -1)
  {
    hide Best, Scan, LinkedPeers;
    if hubs == [] {
      NoneLinked(linked, a);
    } else {
      var most, last := hubs[..|hubs| - 1], hubs[|hubs| - 1];
      assert hubs == most + [last];
      PickIsScan(most, linked, a);
      LinkedPeersLast(most, linked, last);
      ScanLast(LinkedPeers(most, linked), FabricPeer(last), a);
      assert LinkedPeers(most, linked) + [] == LinkedPeers(most, linked);
    }
  }

  lemma NoneLinked(linked: set<nat>, a: Addr)
    ensures Scan(LinkedPeers([], linked), a) == ("", -1)
  {
  }

  lemma PickLast(hubs: seq<Hub>, linked: set<nat>, a: Addr, last: Hub)
    ensures var rest, m := Pick(hubs, linked, a), Best(FabricPeer(last), a);
            Pick(hubs + [last], linked, a)
            == if last.id in linked && m >= 0 && (rest.None? || m >= Best(FabricPeer(rest.value), a)) then Some(last)
               else rest
  {
    hide Best, FabricPeer;
    assert (hubs + [last])[..|hubs|] == hubs;
  }

  /** In a list sorted by id the pick takes precedence over every other linked hub. */
  lemma {:induction false} PickPrecedes(hubs: seq<Hub>, linked: set<nat>, a: Addr, c: Hub)
    requires forall i, j | 0 <= i < j < |hubs| :: hubs[i].id < hubs[j].id
    requires c in hubs && c.id in linked
    ensures var k := Pick(hubs, linked, a);
            if k.None? then Best(FabricPeer(c), a) < 0 else k.value == c || Precedes(k.value, c, a)
  {
    hide Best, FabricPeer, Pick;
    var most, last := hubs[..|hubs| - 1], hubs[|hubs| - 1];
    assert hubs == most + [last];
    PickLast(most, linked, a, last);
    if c in most {
      PickPrecedes(most, linked, a, c);
      assert c.id < last.id;
    }
  }

  /** Hub keys are told apart by their bound devices. */
  lemma KeysApart(s: State, c: nat, k: nat)
    requires Inv(s) && c in s.hubs && k in s.hubs && c != k && s.hubs[c].Configured() && s.hubs[k].Configured()
    ensures s.hubs[c].pubkey != s.hubs[k].pubkey
  {
    assert RowOk(s, c) && RowOk(s, k);
    assert Apart(s, s.hubs[c].bound.value, s.hubs[k].bound.value);
  }

  /** Hub k carries the traffic exactly when it is the pick among the fabric peers. */
  lemma CarriesIsPick(s: State, h: nat, k: nat, a: Addr)
    requires Inv(s) && h in s.hubs && k in s.hubs
    ensures var p := Pick(UsableHubs(Hubs(s), h), LinkSet(s, h), a);
            && (p.Some? ==> Fabric(s, h, p.value.id) && s.hubs[p.value.id] == p.value)
            && (Carries(s, h, k, a) <==> p == Some(s.hubs[k]) && Fabric(s, h, k))
  {
    hide Inv, Best, FabricPeer, UsableHubs, LinkSet, Pick;
    var usable, linked := UsableHubs(Hubs(s), h), LinkSet(s, h);
    var p := Pick(usable, linked, a);
    FabricListed(s, h);
    forall c | Fabric(s, h, c)
      ensures if p.None? then Best(FabricPeer(s.hubs[c]), a) < 0
              else p.value == s.hubs[c] || Precedes(p.value, s.hubs[c], a)
    {
      PickPrecedes(usable, linked, a, s.hubs[c]);
    }
  }

  /** An address that lies in no mesh goes to the fabric peer that takes precedence for it. */
  lemma HubSendsTo(s: State, h: nat, k: nat, a: Addr)
    requires Sane(s) && h in s.hubs && s.hubs[h].Configured() && forall j | j in s.hubs :: !InHub(s, j, a)
    requires k in s.hubs && s.hubs[k].Configured()
    ensures s.hubs[h].bound.Some?
    ensures Lookup(NodePeers(s, s.hubs[h].bound.value), a) == Some(s.hubs[k].pubkey) <==> Carries(s, h, k, a)
  {
    hide NodePeers, OtherHubPeers, Best, Scan, SpokePeers, HubRows, Inv, FabricPeer, Carries, Pick, LinkSet;
    BoundFacts(s, h);
    var b := s.hubs[h].bound.value;
    DeviceFacts(s, b);
    var usable, linked := UsableHubs(Hubs(s), h), LinkSet(s, h);
    SelfLists(s, h, b);
    forall i | i in HubRows(s, h, b) ensures Best(SpokePeer(s.devices[i]), a) < 0 {
      OwnDeviceMisses(s, b, i, a);
    }
    FabricIsLinked(s, h);
    ScanSkips(SpokePeers(s, HubRows(s, h, b)), LinkedPeers(usable, linked), a);
    PickIsScan(usable, linked, a);
    CarriesIsPick(s, h, k, a);
    var p := Pick(usable, linked, a);
    if p.Some? && p.value.id != k {
      KeysApart(s, p.value.id, k);
    }
    CarrierLinked(s, h, k, a);
  }

  lemma FabricIsLinked(s: State, h: nat)
    requires Inv(s) && h in s.hubs
    ensures OtherHubPeers(Hubs(s), h, s.hubs[h].mesh, LinkSet(s, h))
            == LinkedPeers(UsableHubs(Hubs(s), h), LinkSet(s, h))
  {
    hide Inv, OtherHubs, UsableHubs, LinkedPeers;
    OtherHubsIsFilter(s, h);
  }

  /** The fabric peers in list form: sorted by id, each under its own id. */
  lemma FabricListed(s: State, h: nat)
    requires Inv(s) && h in s.hubs
    ensures var usable := UsableHubs(Hubs(s), h);
            && (forall i, j | 0 <= i < j < |usable| :: usable[i].id < usable[j].id)
            && (forall c | c in usable && c.id in LinkSet(s, h) :: Fabric(s, h, c.id) && s.hubs[c.id] == c)
            && (forall c | Fabric(s, h, c) :: s.hubs[c] in usable && s.hubs[c].id == c)
  {
    HubsSorted(s);
    UsableSorted(Hubs(s), h);
    forall c | Fabric(s, h, c) ensures s.hubs[c] in UsableHubs(Hubs(s), h) && s.hubs[c].id == c {
      assert RowOk(s, c);
    }
  }

  // ---- hop by hop ----

  /** The spoke's packet goes to its own hub, which accepts it, exactly when the chosen hub is
      reachable. The hop on to the chosen hub happens exactly when the two hubs are joined and
      the chosen hub takes precedence at the own hub: without a link the own hub has no route
      to it, another fabric peer with a longer match, or an equal one and a higher id, draws the
      traffic away, and if the own hub has no endpoint, the chosen hub rejects the packet's
      source. */
  lemma EgressDeliveredIff(s: State, x: nat, k: nat, r: CidrText, a: Addr)
    requires Sane(s) && Spoke(s, x) && s.devices[x].egress == Some(k) && k in s.hubs && k != s.devices[x].hub
    requires s.hubs[s.devices[x].hub].Configured()
    requires r in s.hubs[k].routes && r != DEFAULT_ROUTE && Parse(r).Some? && Contains(Parse(r).value, a)
    ensures s.devices[x].ip.Bare? && s.hubs[s.devices[x].hub].bound.Some?
    ensures Hop(s, x, s.hubs[s.devices[x].hub].bound.value, IpOf(s, x), a) <==> Reachable(s, k)
    ensures (s.hubs[k].bound.Some?
             && Hop(s, s.hubs[s.devices[x].hub].bound.value, s.hubs[k].bound.value, IpOf(s, x), a))
            <==> Joined(s, s.devices[x].hub, k) && Carries(s, s.devices[x].hub, k, a)
  {
    hide NodePeers, Lookup, Carries, LinkSet;
    var h := s.devices[x].hub;
    DeviceFacts(s, x);
    SpokeSendsEgress(s, x, k, r, a);
    HubKeyNamesBound(s, h);
    HubFindsSpoke(s, h, x);
    LinkSymmetric(s, h, k);
    if s.hubs[k].Configured() {
      HubKeyNamesBound(s, k);
      HubKnowsMesh(s, k, h, IpOf(s, x));
      HubSendsTo(s, h, k, a);
      CarrierLinked(s, h, k, a);
    } else {
      assert RowOk(s, k);
    }
  }

  lemma CarrierLinked(s: State, h: nat, k: nat, a: Addr)
    ensures Carries(s, h, k, a) ==> Fabric(s, h, k)
  {
  }

  /** Where only the chosen hub advertises the address, linking the hubs is enough. */
  lemma SoleAdvertiserCarries(s: State, h: nat, k: nat, r: CidrText, a: Addr)
    requires Sane(s) && Fabric(s, h, k) && forall j | j in s.hubs :: !InHub(s, j, a)
    requires r in s.hubs[k].routes && r != DEFAULT_ROUTE && Parse(r).Some? && Contains(Parse(r).value, a)
    requires forall c, t | c in s.hubs && c != k && t in s.hubs[c].routes && t != DEFAULT_ROUTE && Parse(t).Some? ::
               !Contains(Parse(t).value, a)
    ensures Carries(s, h, k, a)
  {
    hide Best;
    assert r in FabricPeer(s.hubs[k]).extra;
    assert Allows(FabricPeer(s.hubs[k]), Parse(r).value);
    forall c | Fabric(s, h, c) && c != k ensures Precedes(s.hubs[k], s.hubs[c], a) {
      assert RowOk(s, c) && AddressOk(s, c);
      HubInOwnMesh(s, c, c);
      HostRoute(s.hubs[c].wgIp.addr, a);
      MeshCanonical(s, c);
      forall q | Allows(FabricPeer(s.hubs[c]), q) ensures !Contains(q, a) {
        if HostPrefix(FabricPeer(s.hubs[c]).wgIp) != Some(q) {
          var t :| t in FabricPeer(s.hubs[c]).extra && Parse(t) == Some(q);
          assert t == Spell(MeshOf(s, c)) || t in s.hubs[c].routes;
        }
      }
    }
  }
}
