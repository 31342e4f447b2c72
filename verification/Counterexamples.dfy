/** Runs from the empty database: one that meets every hypothesis of the delivery results, and
    for each claim that is false of the code one that reaches the failing case. */
module Counterexamples {
  import opened Text
  import opened Cidr
  import opened Model
  import opened Queries
  import opened Steps
  import opened Invariants
  import opened Allocation
  import opened Routing
  import opened HubFilter
  import opened Lookups
  import opened Delivery
  import opened Egress
  import opened Isolation
  import opened Reclaim
  import opened MeshSearch
  import opened Regroup
  import opened Rendering
  import opened ConfText
  import opened Installed
  import opened Defaults
  import opened Scenario

  // ---- the delivery results speak of something ----

  /** What every device installs with the structured renderer. */
  function RenderedFiles(s: State): map<nat, seq<Stanza>> {
    map n | n in s.devices :: Rendered(Recs(NodePeers(s, n)))
  }

  /** The run of two linked meshes meets every hypothesis of RunDelivers and of
      RunDeliversInstalled, for the spoke of one hub and the spoke of the other, and the two are
      connected. */
  lemma DeliveryHypothesesMet()
    ensures forall e | e in TwoMeshes() :: Calm(e) && Wide(e)
    ensures var s := Run(TwoMeshes());
            && SubnetsClear(s) && AllInstalled(s, RenderedFiles(s))
            && Spoke(s, 3) && Up(s, 4) && s.devices[3].hub != s.devices[4].hub && Connected(s, 3, 4)
  {
    hide Run, NodePeers, Rendered, Recs, SubnetsClear, Calm, Wide;
    TwoMeshesRun();
    LinkedHubs(Linked());
    NoSubnets(Linked());
    forall e | e in TwoMeshes() ensures Calm(e) && Wide(e) {
      QuietEvents(e);
    }
  }

  lemma NoSubnets(s: State)
    requires forall h | h in s.hubs :: s.hubs[h].routes == []
    ensures SubnetsClear(s)
  {
  }

  lemma QuietEvents(e: Event)
    requires e in TwoMeshes()
    ensures Calm(e) && Wide(e)
  {
    MeshBytes();
  }

  lemma LinkedHubs(s: State)
    requires s.links == map[1 := Link(1, 2)]
    ensures 1 in LinkSet(s, 2) && 2 in LinkSet(s, 1)
  {
    assert 1 in s.links;
  }

  // ---- peering is not always answered ----

  const BLANK_A := UpdateHub(1, "", None, None, None)

  function Blanked(): State {
    Linked().(hubs := map[1 := HUB_A.(endpoint := ""), 2 := HUB_B])
  }

  lemma EditRuns(s: State, hub: nat, endpoint: string, wgIp: Option<HostText>)
    requires hub in s.hubs
    ensures Next(s, UpdateHub(hub, endpoint, wgIp, None, None))
            == s.(hubs := s.hubs[hub := s.hubs[hub].(endpoint := endpoint,
                                                     wgIp := if wgIp.Some? then wgIp.value else s.hubs[hub].wgIp)])
  {
  }

  lemma BlankedRun()
    ensures Run(TwoMeshes() + [BLANK_A]) == Blanked()
  {
    hide Run, Next;
    TwoMeshesRun();
    RunStep(TwoMeshes(), BLANK_A);
    EditRuns(Linked(), 1, "", None);
    assert Linked().hubs[1 := HUB_A.(endpoint := "")] == Blanked().hubs;
  }

  /** An edit that leaves the endpoint out blanks it. The edited hub goes on listing the linked
      hub, which no longer lists it. */
  lemma BlankEndpointUnanswered()
    ensures var s := Run(TwoMeshes() + [BLANK_A]);
            Up(s, 1) && Up(s, 2) && Lists(s, 1, 2) && !Lists(s, 2, 1)
  {
    hide Run, Lists, Inv;
    var s := Blanked();
    BlankedRun();
    RunInv(TwoMeshes() + [BLANK_A]);
    MeshBytes();
    LinkedHubs(s);
    HubLists(s, 1, 2);
    HubLists(s, 2, 1);
  }

  /** Once its device is gone too, no request whatever issues that hub a token. */
  lemma BlankEndpointNeverReissued(endpoint: string, mesh: Option<CidrText>, expires: Option<nat>)
    ensures var s := Run(TwoMeshes() + [BLANK_A] + [Remove(1)]);
            1 in s.hubs && s.hubs[1].bound.None? && MintHubStep(s, s.hubs[1].slug, endpoint, mesh, expires) == s
  {
    hide Run, Inv, MintHubStep;
    BlankedRun();
    RunStep(TwoMeshes() + [BLANK_A], Remove(1));
    RunInv(TwoMeshes() + [BLANK_A] + [Remove(1)]);
    ReissueIff(Run(TwoMeshes() + [BLANK_A] + [Remove(1)]), 1, expires);
  }

  // ---- a fabric peer with a default route ----

  function AddressEdit(text: HostText): Event {
    UpdateHub(2, "b:1", Some(text), None, None)
  }

  function AddressEdited(text: HostText): State {
    Linked().(hubs := map[1 := HUB_A, 2 := HUB_B.(wgIp := text)])
  }

  lemma AddressEditRun(text: HostText)
    ensures Run(TwoMeshes() + [AddressEdit(text)]) == AddressEdited(text)
  {
    hide Run, Next;
    TwoMeshesRun();
    RunStep(TwoMeshes(), AddressEdit(text));
    EditRuns(Linked(), 2, "b:1", Some(text));
    assert HUB_B.(endpoint := "b:1", wgIp := text) == HUB_B.(wgIp := text);
    assert Linked().hubs[2 := HUB_B.(wgIp := text)] == AddressEdited(text).hubs;
  }

  /** wg_ip accepts any text: after an edit to one that holds a default route, hub 1's file sends
      everything to hub 2. */
  lemma FabricDefaultReached(text: HostText)
    requires HoldsDefault(HostString(text))
    ensures var s := Run(TwoMeshes() + [AddressEdit(text)]);
            1 in s.hubs && Fabric(s, 1, 2) && HoldsDefault(StanzaOf(FabricPeer(s.hubs[2])).allowed)
  {
    hide Run, HoldsDefault, HostString, StanzaOf;
    AddressEditRun(text);
    MeshBytes();
    LinkedHubs(AddressEdited(text));
    FabricDefaultIff(TwoMeshes() + [AddressEdit(text)], 1, 2);
  }

  /** Three such texts. */
  lemma DefaultTexts()
    ensures HoldsDefault(HostString(Masked(0, 0))) && HoldsDefault(HostString(Other("0.0.0.0/00")))
    ensures HoldsDefault(HostString(Other("0.0.0.0/0, 100.64.1.1")))
  {
    hide HoldsDefault;
    DefaultSpellings(0, "100.64.1.1");
    DefaultSpellings(1, "100.64.1.1");
    NullAddress();
    assert Zeros(0) == "" && Zeros(1) == "0";
    assert "0.0.0.0/" + (Zeros(0) + "0") == HostString(Masked(0, 0));
    assert "0.0.0.0/" + (Zeros(1) + "0") == "0.0.0.0/00";
    assert "0.0.0.0/0" + ", " + "100.64.1.1" == "0.0.0.0/0, 100.64.1.1";
  }

  // ---- site names that clash ----

  const JOIN_SITE_2 := Register(Report(3, "X", "", "site_2"), 0)

  /** A first site that is named "site_2" takes index 1. From then on every registration of this
      hub that names no site and matches none is refused: its new site would get index 2, and so
      the name that is taken. */
  lemma NamedSiteBlocksAutomatic(input: RegisterInput)
    requires input.siteSlug == ""
    ensures var s := Run(Spokes() + [JOIN_SITE_2]);
            1 in s.hubs && (!SiteKnown(s, 1, input) ==> ResolveSite(s, 1, input) == SiteErr(UniqueViolation))
  {
    hide Run, Inv, SiteKnown, FreeSIndex, ResolveSite, Dec;
    SiteTwoRun();
    var s := SiteTwo();
    RunInv(Spokes() + [JOIN_SITE_2]);
    assert s.sites[3].hub == 1 && s.sites[3].sIndex == 1;
    IndexTwoFree(s, 1);
    assert s.hubs[1].slug + ":site_" + Dec(2) == "a:site_2" by {
      DecTwo();
    }
    if !SiteKnown(s, 1, input) {
      SiteNameTaken(s, 1, input, 3);
    }
  }

  lemma DecTwo()
    ensures Dec(2) == "2"
  {
  }

  function SiteTwo(): State {
    TokensOut().(sites := map[1 := SITE_A, 2 := SITE_B, 3 := Site(1, "a:site_2", 1, "", "")],
                 devices := map[1 := DEVICE_A, 2 := DEVICE_B, 3 := SPOKE_X],
                 tokens := map[1 := SpentRow(1, HubRole, 1), 2 := SpentRow(2, HubRole, 2),
                               3 := SpentRow(3, DeviceRole, 1),
                               4 := Token(4, DeviceRole, Some(2), None, None, false)],
                 nextSite := 4, nextDevice := 4)
  }

  lemma SiteTwoRun()
    ensures Run(Spokes() + [JOIN_SITE_2]) == SiteTwo()
  {
    hide Run, Inv, RegisterStep, FreeSIndex, Contains, Enrolled;
    var s := TokensOut();
    MeshBytes();
    TokensRun();
    RunInv(Spokes());
    RunStep(Spokes(), JOIN_SITE_2);
    IndexOneFree(s, 1);
    EnrolledSiteTwo();
    FirstSpokeRuns(s, 3, 1, "X", "site_2");
  }

  lemma EnrolledSiteTwo()
    ensures Enrolled(TokensOut(), 3, 1, "X", "site_2", 1, 2) == SiteTwo()
            && SiteSlug(TokensOut(), 1, "site_2") == "a:site_2"
    ensures "a:site_2" != "a:hub" && "a:site_2" != "b:hub"
  {
    MeshBytes();
    var s := TokensOut();
    assert SiteSlug(s, 1, "site_2") == "a:site_2";
    assert Enrolled(s, 3, 1, "X", "site_2", 1, 2).sites == SiteTwo().sites;
  }

  lemma IndexTwoFree(s: State, h: nat)
    requires forall i | i in s.sites && s.sites[i].hub == h :: s.sites[i].sIndex <= 1
    requires exists i :: i in s.sites && s.sites[i].hub == h && s.sites[i].sIndex == 1
    ensures FreeSIndex(s, h) == Some(2)
  {
    hide LeastFree;
    var used := UsedSIndexes(s, h);
    var r := LeastFree(used, 1, 254);
    assert 1 in used && 2 !in used && r == FreeSIndex(s, h);
    assert r.None? || r.value > 2 ==> 2 in used;
  }

  /** The general form: an automatic name that some site already carries. */
  lemma SiteNameTaken(s: State, h: nat, input: RegisterInput, i: nat)
    requires Inv(s) && h in s.hubs && input.siteSlug == "" && !SiteKnown(s, h, input) && FreeSIndex(s, h).Some?
    requires i in s.sites && s.sites[i].slug == s.hubs[h].slug + ":site_" + Dec(FreeSIndex(s, h).value)
    ensures ResolveSite(s, h, input) == SiteErr(UniqueViolation)
  {
    hide Inv, FreeSIndex, Dec;
    assert s.sites[i].slug == NewSlug(s, h, input);
    ResolveSiteIff(s, h, input);
  }

  const JOIN_COLON := Register(Report(3, "X", "", "b:hub"), 0)
  const MESH_C := V4(0x64400200, 24, 0)
  const MINT_AB := MintHub("a:b", "a:b:1", Some(MESH_C), None)
  const BIND_AB := Report(5, "Z", "3", "")

  /** A spoke of hub "a" names its site "b:hub"; the bind of hub "a:b" is then refused. */
  lemma ColonSlugsClashReached()
    ensures var s := Run(Spokes() + [JOIN_COLON] + [MINT_AB]);
            RegisterStep(s, BIND_AB, 0) == (s, Refused(UniqueViolation))
  {
    hide Run, Inv, BindHub, RegisterStep;
    ColonMinted();
    var s := ColonHubs();
    RunInv(Spokes() + [JOIN_COLON] + [MINT_AB]);
    SpendableBinds(s, 5, 3, BIND_AB);
    ColonSlugsClash(s, BIND_AB, 0, 5, 1, 3, 3);
  }

  lemma SpendableBinds(s: State, t: nat, h: nat, input: RegisterInput)
    requires Inv(s) && Spendable(s, t, HubRole, h) && input.secret == s.tokens[t].secret && 0 < |input.pubkey| <= 128
    requires forall i | i in s.devices :: s.devices[i].pubkey != input.pubkey
    ensures RegisterStep(s, input, 0) == BindHub(s, input, 0, t, h)
  {
    hide Inv, BindHub;
    TokenFound(s, t);
    assert LiveByPubkey(s, input.pubkey).None?;
  }

  function ColonSite(): State {
    SiteTwo().(sites := map[1 := SITE_A, 2 := SITE_B, 3 := Site(1, "a:b:hub", 1, "", "")])
  }

  function ColonHubs(): State {
    ColonSite().(hubs := ColonSite().hubs[3 := HubRow(3, "a:b", MESH_C, 0x64400201)], nextHub := 4,
                 tokens := ColonSite().tokens[5 := Token(5, HubRole, Some(3), None, None, false)],
                 nextToken := 6, nextSecret := 6)
  }

  lemma ColonJoined()
    ensures Run(Spokes() + [JOIN_COLON]) == ColonSite()
  {
    hide Run, Inv, RegisterStep, FreeSIndex, Contains, Enrolled;
    var s := TokensOut();
    MeshBytes();
    TokensRun();
    RunInv(Spokes());
    RunStep(Spokes(), JOIN_COLON);
    IndexOneFree(s, 1);
    EnrolledColon();
    FirstSpokeRuns(s, 3, 1, "X", "b:hub");
  }

  lemma EnrolledColon()
    ensures Enrolled(TokensOut(), 3, 1, "X", "b:hub", 1, 2) == ColonSite()
            && SiteSlug(TokensOut(), 1, "b:hub") == "a:b:hub"
    ensures "a:b:hub" != "a:hub" && "a:b:hub" != "b:hub"
  {
    MeshBytes();
    var s := TokensOut();
    assert SiteSlug(s, 1, "b:hub") == "a:b:hub";
    assert Enrolled(s, 3, 1, "X", "b:hub", 1, 2).sites == ColonSite().sites;
  }

  lemma ThirdMesh()
    ensures Parse(MESH_C) == Some(Prefix(0x64400200, 24))
    ensures !Overlaps(Parse(MESH_C).value, Prefix(0x64400000, 24))
            && !Overlaps(Parse(MESH_C).value, Prefix(0x64400100, 24))
  {
    Mask8(0x64400200);
    var p, q, r := Prefix(0x64400200, 24), Prefix(0x64400000, 24), Prefix(0x64400100, 24);
    Shift8(p.net);
    Shift8(q.net);
    Shift8(r.net);
    ContainsIffShift(p, q.net);
    ContainsIffShift(q, p.net);
    ContainsIffShift(p, r.net);
    ContainsIffShift(r, p.net);
  }

  lemma ColonMinted()
    ensures Run(Spokes() + [JOIN_COLON] + [MINT_AB]) == ColonHubs()
  {
    hide Run, Next, Contains, MeshAccepted, Parse, HubBySlug, Hubs, Spokes, DeviceIP;
    ColonJoined();
    RunStep(Spokes() + [JOIN_COLON], MINT_AB);
    ThirdMesh();
    var s := ColonSite();
    assert "a:b" + ":1" == "a:b:1";
    ThirdMeshAccepted();
    MintRuns(s, "a:b", MESH_C, 0x64400200);
    assert DeviceIP(0x64400200, 1) == 0x64400201 by {
      ThirdHubAddress();
    }
  }

  lemma ThirdHubAddress()
    ensures DeviceIP(0x64400200, 1) == 0x64400201
  {
  }

  lemma ThirdMeshAccepted()
    ensures HubBySlug(ColonSite(), "a:b").None? && MeshAccepted(MESH_C, Hubs(ColonSite()), 0)
  {
    hide Contains, Parse, Hubs;
    MeshBytes();
    ThirdMesh();
    var s := ColonSite();
    forall h | h in Hubs(s) ensures h == s.hubs[1] || h == s.hubs[2] {
      var i :| i in s.hubs && i < s.nextHub && s.hubs[i] == h by {
        ListedHub(s, h);
      }
    }
  }

  lemma ListedHub(s: State, h: Hub)
    requires h in Hubs(s)
    ensures exists i :: i in s.hubs && i < s.nextHub && s.hubs[i] == h
  {
  }

  // ---- a picked mesh that its own guard refuses ----

  const MINT_UNTIDY := MintHub("a", "a:1", Some(V4(0x64400005, 24, 0)), None)

  /** A first hub minted with host bits in its mesh makes the next mint without a mesh change
      nothing. */
  lemma UntidyMeshReached()
    ensures var s := Run([MINT_UNTIDY]);
            1 in s.hubs && Next(s, MintHub("b", "b:1", None, None)) == s
  {
    hide Run, Next, Contains, MintHubStep, Inv, Parse;
    UntidyMinted();
    RunInv([MINT_UNTIDY]);
    var s := Run([MINT_UNTIDY]);
    assert HubBySlug(s, "b").None? && MeshSlot(0) != V4(0x64400005, 24, 0);
    UntidyMeshBlocksPick(s, "b", "b:1", None, 1);
    MintIsStep(s, "b", "b:1");
  }

  lemma UntidyMinted()
    ensures Run([MINT_UNTIDY]).hubs == map[1 := HubRow(1, "a", V4(0x64400005, 24, 0), DeviceIP(0x64400000, 1))]
  {
    hide Run, Next, Contains, DeviceIP;
    RunNothing();
    RunStep([], MINT_UNTIDY);
    assert [] + [MINT_UNTIDY] == [MINT_UNTIDY] && "a" + ":1" == "a:1";
    Mask8(0x64400005);
    assert HubBySlug(INITIAL, "a").None?;
    MintRuns(INITIAL, "a", V4(0x64400005, 24, 0), 0x64400000);
  }

  lemma MintIsStep(s: State, slug: string, endpoint: string)
    ensures Next(s, MintHub(slug, endpoint, None, None)) == MintHubStep(s, slug, endpoint, None, None)
  {
  }

  // ---- a mesh under an advertised subnet ----

  const NET_TEN := V4(0x0A000000, 24, 0)
  const ADVERTISE := UpdateHub(1, "a:1", None, None, Some([NET_TEN]))
  const MINT_TEN := MintHub("b", "b:1", Some(NET_TEN), None)

  /** The mint guard does not look at routes: a mesh is minted right where another hub advertises
      a subnet. */
  lemma MeshUnderSubnet()
    ensures SubnetsClear(Run([MINT_A] + [ADVERTISE])) && !SubnetsClear(Run([MINT_A] + [ADVERTISE] + [MINT_TEN]))
  {
    hide Run, Next, Contains, MeshAccepted, Parse, Clear, Overlaps;
    AdvertiseRuns();
    RunStep([MINT_A] + [ADVERTISE], MINT_TEN);
    var s := Advertised();
    assert "b" + ":1" == "b:1" && HubBySlug(s, "b").None?;
    NetTen();
    forall h | h in Hubs(s) ensures h == s.hubs[1] {
    }
    assert MeshAccepted(NET_TEN, Hubs(s), 0) by {
      TenAccepted(s);
    }
    MintRuns(s, "b", NET_TEN, 0x0A000000);
    TenClear(s);
    TenCovered(Run([MINT_A] + [ADVERTISE] + [MINT_TEN]));
  }

  function Advertised(): State {
    OneMinted().(hubs := map[1 := HubRow(1, "a", MESH_A, 0x64400001).(routes := [NET_TEN])])
  }

  lemma NetTen()
    ensures Parse(NET_TEN) == Some(Prefix(0x0A000000, 24)) && Parse(MESH_A) == Some(Prefix(0x64400000, 24))
    ensures !Overlaps(Prefix(0x0A000000, 24), Prefix(0x64400000, 24))
    ensures Overlaps(Prefix(0x0A000000, 24), Prefix(0x0A000000, 24))
  {
    MeshBytes();
    Mask8(0x0A000000);
    var p, q := Prefix(0x0A000000, 24), Prefix(0x64400000, 24);
    Shift8(p.net);
    Shift8(q.net);
    ContainsIffShift(p, q.net);
    ContainsIffShift(q, p.net);
  }

  lemma AdvertiseRuns()
    ensures Run([MINT_A] + [ADVERTISE]) == Advertised()
  {
    hide Run, Contains, Parse, Overlaps;
    FirstMintRuns();
    RunStep([MINT_A], ADVERTISE);
    NetTen();
    var s := OneMinted();
    forall h | h in Hubs(s) ensures h == s.hubs[1] {
    }
    assert RoutesAccepted([NET_TEN], Hubs(s));
    assert "a" + ":1" == "a:1" && s.hubs[1].(endpoint := "a:1", routes := [NET_TEN]) == Advertised().hubs[1];
    assert Next(s, ADVERTISE).hubs == Advertised().hubs;
  }

  lemma TenAccepted(s: State)
    requires forall h | h in Hubs(s) :: h.mesh == MESH_A
    ensures MeshAccepted(NET_TEN, Hubs(s), 0)
  {
    hide Contains, Parse, Overlaps;
    NetTen();
  }

  lemma TenClear(s: State)
    requires forall h | h in s.hubs :: s.hubs[h].mesh == MESH_A && s.hubs[h].routes == [NET_TEN]
    ensures SubnetsClear(s)
  {
    hide Contains, Parse, Overlaps;
    NetTen();
  }

  lemma TenCovered(s: State)
    requires 1 in s.hubs && 2 in s.hubs && s.hubs[1].routes == [NET_TEN] && s.hubs[2].mesh == NET_TEN
    ensures !SubnetsClear(s)
  {
    hide Contains, Parse, Overlaps;
    NetTen();
    assert NET_TEN in s.hubs[1].routes && NET_TEN != DEFAULT_ROUTE;
    assert OffRoutes(s.hubs, s.hubs[2].mesh) ==> Clear(NET_TEN, NET_TEN);
  }
}
