/** A run in which two hubs advertise one subnet: a third hub lists it under two keys, and a spoke's
    choice between the two does not decide. */
module SharedSubnet {
  import opened Text
  import opened Cidr
  import opened Model
  import opened Queries
  import opened Steps
  import opened Invariants
  import opened Allocation
  import opened Routing
  import opened HubFilter
  import opened Lookups
  import opened Delivery
  import opened Egress
  import opened Isolation
  import opened Scenario
  import opened Counterexamples

  const MINT_C := MintHub("c", "c:1", Some(MESH_C), None)
  const BIND_C := Register(Report(5, "C", "3", ""), 0)
  const HUB_C := HubRow(3, "c", MESH_C, 0x64400201).(pubkey := "C", bound := Some(5))
  const DEVICE_C := DeviceRow(5, 3, 1, 0x64400201, "C")
  const SITE_C := Site(3, "c:hub", 0, "3", "")

  /** The address that the spoke wants to reach, and the subnet it lies in. */
  const WANTED: Addr := 0x0A000000

  function Offer(hub: nat, endpoint: string): Event {
    UpdateHub(hub, endpoint, None, None, Some([NET_TEN]))
  }

  function ThirdMinted(): State {
    Linked().(hubs := map[1 := HUB_A, 2 := HUB_B, 3 := HubRow(3, "c", MESH_C, 0x64400201)],
              tokens := Linked().tokens[5 := Token(5, HubRole, Some(3), None, None, false)],
              nextHub := 4, nextToken := 6, nextSecret := 6)
  }

  lemma ThirdMintRuns()
    ensures Run(TwoMeshes() + [MINT_C]) == ThirdMinted()
  {
    hide Run, Next, Contains, MeshAccepted, Parse, HubBySlug, Hubs, DeviceIP;
    TwoMeshesRun();
    RunStep(TwoMeshes(), MINT_C);
    assert "c" + ":1" == "c:1";
    ThirdMesh();
    ThirdFits(Linked());
    MintRuns(Linked(), "c", MESH_C, 0x64400200);
    ThirdHubAddress();
    assert ThirdMinted().hubs == Linked().hubs[3 := HubRow(3, "c", MESH_C, 0x64400201)];
  }

  lemma ThirdFits(s: State)
    requires s.hubs == map[1 := HUB_A, 2 := HUB_B]
    ensures HubBySlug(s, "c").None? && MeshAccepted(MESH_C, Hubs(s), 0)
  {
    hide Contains, Parse, Hubs;
    MeshBytes();
    ThirdMesh();
    forall h | h in Hubs(s) ensures h == HUB_A || h == HUB_B {
      ListedHub(s, h);
    }
  }

  function ThirdBound(): State {
    ThirdMinted().(hubs := map[1 := HUB_A, 2 := HUB_B, 3 := HUB_C], sites := Linked().sites[5 := SITE_C],
                   devices := Linked().devices[5 := DEVICE_C],
                   tokens := Linked().tokens[5 := SpentRow(5, HubRole, 3)], nextSite := 6, nextDevice := 6)
  }

  lemma ThirdBindRuns()
    ensures Run(TwoMeshes() + [MINT_C] + [BIND_C]) == ThirdBound()
  {
    hide Run, Inv, RegisterStep, ThirdMinted, Bound;
    var s := ThirdMinted();
    ThirdMintRuns();
    RunInv(TwoMeshes() + [MINT_C]);
    RunStep(TwoMeshes() + [MINT_C], BIND_C);
    ThirdSpendable();
    BindRuns(s, 5, 3, "C", "3");
    ThirdRows();
  }

  lemma ThirdSpendable()
    ensures var s := ThirdMinted();
            && Spendable(s, 5, HubRole, 3) && s.hubs[3].bound.None? && s.tokens[5].secret == 5
            && (forall i | i in s.devices :: s.devices[i].pubkey != "C" && s.devices[i].ip != s.hubs[3].wgIp)
            && (forall i | i in s.sites :: s.sites[i].hub != 3 && s.sites[i].slug != s.hubs[3].slug + ":hub")
  {
    assert "c" + ":hub" == "c:hub";
    assert "c:hub"[0] != "a:hub"[0] && "c:hub"[0] != "b:hub"[0] && "c:hub"[0] != "a:x"[0] && "c:hub"[0] != "b:y"[0];
  }

  lemma ThirdRows()
    ensures Bound(ThirdMinted(), 5, 3, "C", "3") == ThirdBound()
  {
    var s := ThirdMinted();
    assert "c" + ":hub" == "c:hub";
    assert Bound(s, 5, 3, "C", "3").hubs == ThirdBound().hubs;
    assert Bound(s, 5, 3, "C", "3").tokens == ThirdBound().tokens;
  }

  function Third(): seq<Event> {
    TwoMeshes() + [MINT_C] + [BIND_C]
  }

  function BothOffer(): State {
    OneOffers().(hubs := map[1 := HUB_A, 2 := HUB_B.(routes := [NET_TEN]), 3 := HUB_C.(routes := [NET_TEN])])
  }

  lemma OfferRuns(s: State, hub: nat, endpoint: string)
    requires hub in s.hubs && s.hubs[hub].endpoint == endpoint && RoutesAccepted([NET_TEN], Hubs(s))
    ensures Next(s, Offer(hub, endpoint)) == s.(hubs := s.hubs[hub := s.hubs[hub].(routes := [NET_TEN])])
  {
    hide RoutesAccepted, Hubs;
  }

  function ThirdPublished(): State {
    ThirdBound().(links := map[1 := Link(1, 2), 2 := Link(1, 3)], nextLink := 3)
  }

  lemma PublishedRun()
    ensures Run(Third() + [Publish(1, 3)]) == ThirdPublished()
  {
    hide Run, Next, Third;
    ThirdBindRuns();
    ThirdIs();
    RunStep(Third(), Publish(1, 3));
    ThirdLinked();
  }

  function OneOffers(): State {
    ThirdPublished().(hubs := map[1 := HUB_A, 2 := HUB_B.(routes := [NET_TEN]), 3 := HUB_C])
  }

  lemma FirstOfferRuns()
    ensures Run(Third() + [Publish(1, 3)] + [Offer(2, "b:1")]) == OneOffers()
  {
    hide Run, Next, RoutesAccepted, Third, ThirdPublished, OneOffers, Offer;
    PublishedRun();
    RunStep(Third() + [Publish(1, 3)], Offer(2, "b:1"));
    FirstOffer();
    TenOffered(ThirdPublished());
    OfferRuns(ThirdPublished(), 2, "b:1");
  }

  lemma FirstOffer()
    ensures var s := ThirdPublished();
            && 2 in s.hubs && s.hubs[2].endpoint == "b:1" && SomeOfThree(s)
            && s.(hubs := s.hubs[2 := s.hubs[2].(routes := [NET_TEN])]) == OneOffers()
  {
    assert "b" + ":1" == "b:1";
    assert ThirdPublished().hubs[2 := HUB_B.(routes := [NET_TEN])] == OneOffers().hubs;
  }

  lemma OffersRun()
    ensures Run(Third() + [Publish(1, 3)] + [Offer(2, "b:1")] + [Offer(3, "c:1")]) == BothOffer()
  {
    hide Run, Next, RoutesAccepted, Third, OneOffers, BothOffer, Offer;
    FirstOfferRuns();
    RunStep(Third() + [Publish(1, 3)] + [Offer(2, "b:1")], Offer(3, "c:1"));
    SecondOffer();
    TenOffered(OneOffers());
    OfferRuns(OneOffers(), 3, "c:1");
  }

  lemma SecondOffer()
    ensures var s := OneOffers();
            && 3 in s.hubs && s.hubs[3].endpoint == "c:1" && SomeOfThree(s)
            && s.(hubs := s.hubs[3 := s.hubs[3].(routes := [NET_TEN])]) == BothOffer()
  {
    assert "c" + ":1" == "c:1";
    assert OneOffers().hubs[3 := HUB_C.(routes := [NET_TEN])] == BothOffer().hubs;
  }

  lemma ThirdIs()
    ensures Third() == TwoMeshes() + [MINT_C] + [BIND_C]
  {
  }

  lemma ThirdLinked()
    ensures Next(ThirdBound(), Publish(1, 3)) == ThirdPublished()
  {
    assert ThirdBound().links[2 := Link(1, 3)] == map[1 := Link(1, 2), 2 := Link(1, 3)];
  }

  /** Every hub of the state has one of the three meshes. */
  ghost predicate SomeOfThree(s: State) {
    forall i | i in s.hubs :: s.hubs[i].mesh == MESH_A || s.hubs[i].mesh == MESH_B || s.hubs[i].mesh == MESH_C
  }

  lemma TenOffered(s: State)
    requires SomeOfThree(s)
    ensures RoutesAccepted([NET_TEN], Hubs(s))
  {
    hide Contains, Parse, Overlaps, Hubs;
    TenClearOf(MESH_A);
    forall h | h in Hubs(s)
      ensures Parse(h.mesh).Some? && !Overlaps(Parse(NET_TEN).value, Parse(h.mesh).value)
    {
      ListedHub(s, h);
      TenClearOf(h.mesh);
    }
  }

  lemma TenClearOf(mesh: CidrText)
    requires mesh == MESH_A || mesh == MESH_B || mesh == MESH_C
    ensures Parse(mesh).Some? && Parse(NET_TEN).Some? && !Overlaps(Parse(NET_TEN).value, Parse(mesh).value)
  {
    hide Contains;
    NetTen();
    MeshBytes();
    ThirdMesh();
    TenApart(0x64400100);
    TenApart(0x64400200);
  }

  lemma TenApart(net: Addr)
    requires net / 256 != 0x0A0000
    ensures !Overlaps(Prefix(0x0A000000, 24), Prefix(net, 24))
  {
    var p, q := Prefix(0x0A000000, 24), Prefix(net, 24);
    Shift8(p.net);
    Shift8(q.net);
    ContainsIffShift(p, q.net);
    ContainsIffShift(q, p.net);
  }

  // ---- the run ----

  const CHOOSE_B := SetEgress(3, Some(2))

  function Shared(): seq<Event> {
    Third() + [Publish(1, 3)] + [Offer(2, "b:1")] + [Offer(3, "c:1")] + [CHOOSE_B]
  }

  function SharedState(): State {
    BothOffer().(devices := BothOffer().devices[3 := SPOKE_X.(egress := Some(2))])
  }

  lemma SharedRun()
    ensures Run(Shared()) == SharedState()
  {
    hide Run, Third, Next;
    OffersRun();
    RunStep(Third() + [Publish(1, 3)] + [Offer(2, "b:1")] + [Offer(3, "c:1")], CHOOSE_B);
    BChosen();
  }

  lemma BChosen()
    ensures Next(BothOffer(), CHOOSE_B) == SharedState()
  {
    assert SubnetRoutes([NET_TEN]) == [NET_TEN] by {
      assert [NET_TEN][1..] == [];
    }
  }

  lemma SharedSane()
    ensures Sane(Run(Shared()))
  {
    hide Run, SubnetsClear, Calm, Wide;
    SharedRun();
    SharedClear(SharedState());
    forall e | e in Shared() ensures Calm(e) && Wide(e) {
      SharedQuiet(e);
    }
    CalmRunSane(Shared());
  }

  lemma SharedClear(s: State)
    requires SomeOfThree(s) && forall i | i in s.hubs :: s.hubs[i].routes == [] || s.hubs[i].routes == [NET_TEN]
    ensures SubnetsClear(s)
  {
    hide Parse, Overlaps, Contains;
    forall k | k in s.hubs ensures OffRoutes(s.hubs, s.hubs[k].mesh) {
      TenClearOf(s.hubs[k].mesh);
    }
  }

  lemma SharedQuiet(e: Event)
    requires e in Shared()
    ensures Calm(e) && Wide(e)
  {
    MeshBytes();
    ThirdMesh();
    if e in TwoMeshes() {
      QuietEvents(e);
    }
  }

  lemma SharedFabric()
    ensures var s := SharedState();
            && Fabric(s, 1, 2) && Advertises(s, 2, Prefix(0x0A000000, 24))
            && Fabric(s, 1, 3) && Advertises(s, 3, Prefix(0x0A000000, 24))
    ensures forall c | Fabric(SharedState(), 1, c) :: c == 2 || c == 3
  {
    hide Contains;
    var s := SharedState();
    MeshBytes();
    ThirdMesh();
    NetTen();
    assert 1 in s.links && 2 in s.links;
    assert 2 in LinkSet(s, 1) && 3 in LinkSet(s, 1);
    assert NET_TEN in s.hubs[2].routes && NET_TEN in s.hubs[3].routes && NET_TEN != DEFAULT_ROUTE;
  }

  /** Hub 1's list names two keys for the subnet that both its fabric peers advertise. */
  lemma SharedSubnetTwoKeys()
    ensures TwoKeys(Run(Shared()), 1, Prefix(0x0A000000, 24))
  {
    hide Run, TwoKeys, Fabric, Advertises, Sane;
    SharedSane();
    SharedRun();
    SharedFabric();
    assert TwoAdvertise(SharedState(), 1, Prefix(0x0A000000, 24));
    EqualPrefixesIff(SharedState(), 1, Prefix(0x0A000000, 24));
  }

  lemma TenBest(h: Hub)
    requires h.routes == [NET_TEN] && Parse(h.mesh).Some? && Parse(h.mesh).value.len == 24
    requires h.wgIp.Bare? && h.wgIp.addr != WANTED
    ensures Best(FabricPeer(h), WANTED) == 24
  {
    hide Contains;
    var p := FabricPeer(h);
    NetTen();
    HostRoute(h.wgIp.addr, WANTED);
    MaskIdempotent(h.mesh.addr, 8);
    ParsedIsCanonical(NET_TEN, Prefix(WANTED, 24));
    assert SubnetRoutes([NET_TEN]) == [NET_TEN] by {
      assert [NET_TEN][1..] == [];
    }
    assert p.extra == [MeshNetwork(h.mesh), NET_TEN];
    assert p.extra[1] == NET_TEN && Allows(p, Prefix(WANTED, 24));
    assert Parse(MeshNetwork(h.mesh)).value.len == 24;
  }

  /** The spoke that chose hub 2 hands its packet to hub 1, which sends it to hub 3. */
  lemma ChosenHubGetsNothing()
    ensures var s := Run(Shared());
            && 3 in s.devices && s.devices[3].egress == Some(2) && s.devices[3].ip.Bare?
            && Hop(s, 3, 1, IpOf(s, 3), WANTED) && !Hop(s, 1, 2, IpOf(s, 3), WANTED) && Forward(s, 1, WANTED) == Some(5)
  {
    hide Run, Hop, Carries, Sane, NodePeers, Lookup;
    SharedSane();
    SharedRun();
    var s := SharedState();
    MeshBytes();
    ThirdMesh();
    NetTen();
    ParsedIsCanonical(NET_TEN, Prefix(WANTED, 24));
    ThirdCarries();
    EgressDeliveredIff(s, 3, 2, NET_TEN, WANTED);
    SpokeSendsEgress(s, 3, 2, NET_TEN, WANTED);
    HubSendsTo(s, 1, 3, WANTED);
    HubKeyNamesBound(s, 3);
  }

  lemma ThirdCarries()
    ensures Carries(SharedState(), 1, 3, WANTED) && !Carries(SharedState(), 1, 2, WANTED)
  {
    hide Contains, Fabric, Best, FabricPeer;
    var s := SharedState();
    MeshBytes();
    ThirdMesh();
    SharedFabric();
    TenBest(s.hubs[2]);
    TenBest(s.hubs[3]);
  }
}
