/** A concrete run from the empty database: two hubs are minted and bound, a spoke joins each,
    and a link is published. */
module Scenario {
  import opened Text
  import opened Cidr
  import opened Model
  import opened Queries
  import opened Steps
  import opened Invariants

  const MESH_A := V4(0x64400000, 24, 0)
  const MESH_B := V4(0x64400100, 24, 0)

  /** A registration that reports nothing but a key, a public address and perhaps a site. */
  function Report(secret: nat, pubkey: string, publicIp: string, site: string): RegisterInput {
    RegisterInput(secret, pubkey, "", "", publicIp, "", "", "", false, site)
  }

  lemma RunStep(es: seq<Event>, e: Event)
    ensures Run(es + [e]) == Next(Run(es), e)
  {
    hide Next;
    assert (es + [e])[..|es + [e]| - 1] == es;
  }

  // ---- steps that are granted ----

  lemma TokenFound(s: State, t: nat)
    requires Inv(s) && t in s.tokens
    ensures TokenBySecret(s, s.tokens[t].secret) == Some(t)
  {
    var r := TokenBySecret(s, s.tokens[t].secret);
    assert RowOk(s, t);
    assert r.Some?;
    assert Apart(s, r.value, t);
  }

  /** A token that registers: unspent, unrevoked, without expiry, for hub h. */
  predicate Spendable(s: State, t: nat, role: Role, h: nat) {
    t in s.tokens && s.tokens[t] == Token(s.tokens[t].secret, role, Some(h), None, None, false) && h in s.hubs
  }

  /** The state after hub h is bound by a registration with token t. */
  function Bound(s: State, t: nat, h: nat, pubkey: string, publicIp: string): State
    requires t in s.tokens && h in s.hubs
  {
    var s1 := s.(sites := s.sites[s.nextSite := Site(h, s.hubs[h].slug + ":hub", 0, publicIp, "")],
                 nextSite := s.nextSite + 1);
    var d := NewDevice(s1, Report(s.tokens[t].secret, pubkey, publicIp, ""), 0, t, h, s.nextSite, 1, s.hubs[h].wgIp,
                       false);
    Bind(AddDevice(s1, d, t), h, pubkey, "", d.id)
  }

  lemma BindRuns(s: State, t: nat, h: nat, pubkey: string, publicIp: string)
    requires Inv(s) && Spendable(s, t, HubRole, h) && s.hubs[h].bound.None? && 0 < |pubkey| <= 128
    requires forall i | i in s.devices :: s.devices[i].Live() ==>
             s.devices[i].pubkey != pubkey && s.devices[i].ip != s.hubs[h].wgIp
    requires forall i | i in s.sites :: s.sites[i].hub != h && s.sites[i].slug != s.hubs[h].slug + ":hub"
    ensures RegisterStep(s, Report(s.tokens[t].secret, pubkey, publicIp, ""), 0)
            == (Bound(s, t, h, pubkey, publicIp), Registered(s.nextDevice, HubRole))
  {
    TokenFound(s, t);
    var input := Report(s.tokens[t].secret, pubkey, publicIp, "");
    assert LiveByPubkey(s, pubkey).None?;
    assert TokenObjection(s, input.secret, 0).None?;
    forall i | i in s.devices ensures s.devices[i].site != s.nextSite {
      assert RowOk(s, i) && RowOk(s, s.devices[i].site);
    }
    assert SiteBySlugInHub(s, h, s.hubs[h].slug + ":hub").None?;
  }

  // ---- the first spoke of a hub, at a site it names ----

  function SiteSlug(s: State, h: nat, name: string): string
    requires h in s.hubs
  {
    s.hubs[h].slug + ":" + name
  }

  /** The state after a registration has opened a named site with the given index and slot. */
  function Enrolled(s: State, t: nat, h: nat, pubkey: string, name: string, index: nat, slot: nat): State
    requires t in s.tokens && h in s.hubs && Parse(s.hubs[h].mesh).Some? && slot <= 254
  {
    var s1 := s.(sites := s.sites[s.nextSite := Site(h, SiteSlug(s, h, name), index, "", "")],
                 nextSite := s.nextSite + 1);
    var ip := Bare(DeviceIP(Parse(s.hubs[h].mesh).value.net, slot));
    AddDevice(s1, NewDevice(s1, Report(s.tokens[t].secret, pubkey, "", name), 0, t, h, s.nextSite, slot, ip, false), t)
  }

  /** Every live device of hub h sits in slot 1. */
  predicate OnlyHubDevice(s: State, h: nat) {
    forall i | i in s.devices :: s.devices[i].Live() && s.devices[i].hub == h ==> s.devices[i].dIndex == 1
  }

  lemma SlotTwoFree(s: State, h: nat)
    requires Inv(s) && OnlyHubDevice(s, h)
    ensures FreeDIndex(s, h) == Some(2)
  {
    hide LeastFree, Inv;
    var used := UsedDIndexes(s, h);
    forall v | v in used ensures v == 1 {
      var i :| i in s.devices && s.devices[i].Live() && s.devices[i].site in s.sites
               && s.sites[s.devices[i].site].hub == h && s.devices[i].dIndex == v;
      SiteOfHub(s, i);
    }
    var r := LeastFree(used, 2, 254);
    assert 2 !in used && r == FreeDIndex(s, h);
    assert r.None? || r.value > 2 ==> 2 in used;
  }

  lemma SiteOfHub(s: State, i: nat)
    requires Inv(s) && i in s.devices
    ensures s.devices[i].site in s.sites && s.sites[s.devices[i].site].hub == s.devices[i].hub
            && s.devices[i].site < s.nextSite
  {
    assert RowOk(s, i) && RowOk(s, s.devices[i].site);
  }

  /** A name that no site has yet opens a site at the least free index. */
  lemma NamedSiteOpens(s: State, h: nat, input: RegisterInput)
    requires Inv(s) && h in s.hubs && input.siteSlug != "" && FreeSIndex(s, h).Some?
    requires forall i | i in s.sites :: s.sites[i].slug != SiteSlug(s, h, input.siteSlug)
    ensures ResolveSite(s, h, input) == SiteOk(s.(sites := s.sites[s.nextSite :=
                Site(h, SiteSlug(s, h, input.siteSlug), FreeSIndex(s, h).value, input.publicIp, input.lan)],
              nextSite := s.nextSite + 1), s.nextSite)
  {
    var v := FreeSIndex(s, h).value;
    assert SiteBySlugInHub(s, h, SiteSlug(s, h, input.siteSlug)).None?;
    forall i | i in s.sites && s.sites[i].hub == h ensures s.sites[i].sIndex != v {
      assert s.sites[i].sIndex in UsedSIndexes(s, h);
    }
  }

  lemma FirstSpokeRuns(s: State, t: nat, h: nat, pubkey: string, name: string)
    requires Inv(s) && Spendable(s, t, DeviceRole, h) && s.hubs[h].Configured() && Parse(s.hubs[h].mesh).Some?
    requires 0 < |pubkey| <= 128 && name != "" && OnlyHubDevice(s, h) && FreeSIndex(s, h).Some?
    requires forall i | i in s.devices :: s.devices[i].Live() ==>
               s.devices[i].pubkey != pubkey && s.devices[i].ip != Bare(DeviceIP(Parse(s.hubs[h].mesh).value.net, 2))
    requires forall i | i in s.sites :: s.sites[i].slug != SiteSlug(s, h, name)
    ensures RegisterStep(s, Report(s.tokens[t].secret, pubkey, "", name), 0)
            == (Enrolled(s, t, h, pubkey, name, FreeSIndex(s, h).value, 2), Registered(s.nextDevice, DeviceRole))
  {
    hide Inv, FreeSIndex, ResolveSite, FreeDIndex;
    var input := Report(s.tokens[t].secret, pubkey, "", name);
    TokenFound(s, t);
    assert LiveByPubkey(s, pubkey).None?;
    assert TokenObjection(s, input.secret, 0).None?;
    NamedSiteOpens(s, h, input);
    var s1 := ResolveSite(s, h, input).state;
    ResolvedInv(s, h, input);
    SlotTwoFree(s1, h);
    forall i | i in s.devices ensures s.devices[i].site != s.nextSite {
      SiteOfHub(s, i);
    }
  }

  lemma ResolvedInv(s: State, h: nat, input: RegisterInput)
    requires Inv(s) && h in s.hubs && ResolveSite(s, h, input).SiteOk?
    ensures Inv(ResolveSite(s, h, input).state)
  {
    hide Inv, ResolveSite;
    ResolveSiteResolves(s, h, input);
  }

  // ---- two linked meshes ----

  const MINT_A := MintHub("a", "a:1", Some(MESH_A), None)
  const MINT_B := MintHub("b", "b:1", Some(MESH_B), None)
  const BIND_A := Register(Report(1, "A", "1", ""), 0)
  const BIND_B := Register(Report(2, "B", "2", ""), 0)
  const JOIN_X := Register(Report(3, "X", "", "x"), 0)
  const JOIN_Y := Register(Report(4, "Y", "", "y"), 0)

  function TwoMeshes(): seq<Event> {
    [MINT_A] + [MINT_B] + [BIND_A] + [BIND_B] + [MintDevice(1, None)] + [MintDevice(2, None)] + [JOIN_X] + [JOIN_Y]
    + [Publish(1, 2)]
  }

  lemma MeshBytes()
    ensures Parse(MESH_A) == Some(Prefix(0x64400000, 24)) && Parse(MESH_B) == Some(Prefix(0x64400100, 24))
    ensures !Overlaps(Parse(MESH_B).value, Parse(MESH_A).value)
  {
    Mask8(0x64400000);
    Mask8(0x64400100);
    var p, q := Prefix(0x64400000, 24), Prefix(0x64400100, 24);
    Shift8(p.net);
    Shift8(q.net);
    ContainsIffShift(p, q.net);
    ContainsIffShift(q, p.net);
  }

  /** A minted hub row, before and after its bind. */
  function HubRow(id: nat, slug: string, mesh: CidrText, ip: Addr): Hub {
    Hub(id, slug, "", slug + ":1", Bare(ip), mesh, None, [])
  }

  lemma MintRuns(s: State, slug: string, mesh: CidrText, net: Addr)
    requires slug != "" && Parse(mesh) == Some(Prefix(net, 24)) && HubBySlug(s, slug).None?
             && MeshAccepted(mesh, Hubs(s), 0)
    ensures Next(s, MintHub(slug, slug + ":1", Some(mesh), None)) ==
            s.(hubs := s.hubs[s.nextHub := HubRow(s.nextHub, slug, mesh, DeviceIP(net, 1))], nextHub := s.nextHub + 1,
               tokens := s.tokens[s.nextToken := Token(s.nextSecret, HubRole, Some(s.nextHub), None, None, false)],
               nextToken := s.nextToken + 1, nextSecret := s.nextSecret + 1)
  {
    hide Parse, Hubs, MeshAccepted, HubBySlug;
    assert slug + ":1" != "";
  }

  function OneMinted(): State {
    INITIAL.(hubs := map[1 := HubRow(1, "a", MESH_A, 0x64400001)],
             tokens := map[1 := Token(1, HubRole, Some(1), None, None, false)],
             nextHub := 2, nextToken := 2, nextSecret := 2)
  }

  function Minted(): State {
    INITIAL.(hubs := map[1 := HubRow(1, "a", MESH_A, 0x64400001), 2 := HubRow(2, "b", MESH_B, 0x64400101)],
             tokens := map[1 := Token(1, HubRole, Some(1), None, None, false),
                           2 := Token(2, HubRole, Some(2), None, None, false)],
             nextHub := 3, nextToken := 3, nextSecret := 3)
  }

  lemma FirstMintRuns()
    ensures Run([MINT_A]) == OneMinted()
  {
    hide Run, Next, Contains;
    MeshBytes();
    RunNothing();
    RunStep([], MINT_A);
    assert [] + [MINT_A] == [MINT_A] && "a" + ":1" == "a:1";
    assert HubBySlug(INITIAL, "a").None?;
    MintRuns(INITIAL, "a", MESH_A, 0x64400000);
  }

  lemma MintsRun()
    ensures Run([MINT_A] + [MINT_B]) == Minted()
  {
    hide Run, Next, Contains;
    MeshBytes();
    FirstMintRuns();
    RunStep([MINT_A], MINT_B);
    var s := OneMinted();
    assert HubBySlug(s, "b").None? && "b" + ":1" == "b:1";
    forall h | h in Hubs(s) ensures h == s.hubs[1] {
    }
    assert MeshAccepted(MESH_B, Hubs(s), 0);
    MintRuns(s, "b", MESH_B, 0x64400100);
  }

  lemma RunNothing()
    ensures Run([]) == INITIAL
  {
  }

  /** A device row, and the hub and token rows once a device has used them. */
  function DeviceRow(id: nat, hub: nat, slot: nat, ip: Addr, pubkey: string): Device {
    Device(id, hub, id, slot, Bare(ip), pubkey, "", "", "", id, None, None, false, 0, None, false)
  }

  function BoundRow(id: nat, slug: string, mesh: CidrText, ip: Addr, pubkey: string): Hub {
    HubRow(id, slug, mesh, ip).(pubkey := pubkey, bound := Some(id))
  }

  function SpentRow(id: nat, role: Role, hub: nat): Token {
    Token(id, role, Some(hub), None, Some(id), false)
  }

  const SITE_A := Site(1, "a:hub", 0, "1", "")
  const SITE_B := Site(2, "b:hub", 0, "2", "")
  const HUB_A := BoundRow(1, "a", MESH_A, 0x64400001, "A")
  const HUB_B := BoundRow(2, "b", MESH_B, 0x64400101, "B")
  const DEVICE_A := DeviceRow(1, 1, 1, 0x64400001, "A")
  const DEVICE_B := DeviceRow(2, 2, 1, 0x64400101, "B")

  function OneBound(): State {
    Minted().(hubs := map[1 := HUB_A, 2 := HubRow(2, "b", MESH_B, 0x64400101)],
              sites := map[1 := SITE_A], devices := map[1 := DEVICE_A],
              tokens := map[1 := SpentRow(1, HubRole, 1), 2 := Token(2, HubRole, Some(2), None, None, false)],
              nextSite := 2, nextDevice := 2)
  }

  function BothBound(): State {
    Minted().(hubs := map[1 := HUB_A, 2 := HUB_B], sites := map[1 := SITE_A, 2 := SITE_B],
              devices := map[1 := DEVICE_A, 2 := DEVICE_B],
              tokens := map[1 := SpentRow(1, HubRole, 1), 2 := SpentRow(2, HubRole, 2)],
              nextSite := 3, nextDevice := 3)
  }

  lemma FirstBindRuns()
    ensures Run([MINT_A] + [MINT_B] + [BIND_A]) == OneBound()
  {
    hide Run, Inv, RegisterStep;
    var s := Minted();
    MintsRun();
    RunInv([MINT_A] + [MINT_B]);
    RunStep([MINT_A] + [MINT_B], BIND_A);
    BindRuns(s, 1, 1, "A", "1");
    assert "a" + ":hub" == "a:hub";
    assert Bound(s, 1, 1, "A", "1") == OneBound();
  }

  lemma BindsRun()
    ensures Run([MINT_A] + [MINT_B] + [BIND_A] + [BIND_B]) == BothBound()
  {
    hide Run, Inv, RegisterStep;
    var s := OneBound();
    FirstBindRuns();
    RunInv([MINT_A] + [MINT_B] + [BIND_A]);
    RunStep([MINT_A] + [MINT_B] + [BIND_A], BIND_B);
    assert "b" + ":hub" == "b:hub" && "b:hub" != "a:hub";
    BindRuns(s, 2, 2, "B", "2");
    assert Bound(s, 2, 2, "B", "2") == BothBound();
  }

  // ---- two spokes and a link ----

  function Binds(): seq<Event> {
    [MINT_A] + [MINT_B] + [BIND_A] + [BIND_B]
  }

  function TokensOut(): State {
    BothBound().(tokens := map[1 := SpentRow(1, HubRole, 1), 2 := SpentRow(2, HubRole, 2),
                               3 := Token(3, DeviceRole, Some(1), None, None, false),
                               4 := Token(4, DeviceRole, Some(2), None, None, false)],
                 nextToken := 5, nextSecret := 5)
  }

  lemma TokensRun()
    ensures Run(Binds() + [MintDevice(1, None)] + [MintDevice(2, None)]) == TokensOut()
  {
    hide Run, RegisterStep;
    BindsRun();
    RunStep(Binds(), MintDevice(1, None));
    RunStep(Binds() + [MintDevice(1, None)], MintDevice(2, None));
    var s := AddToken(AddToken(BothBound(), DeviceRole, 1, None), DeviceRole, 2, None);
    assert s.tokens == TokensOut().tokens;
  }

  lemma IndexOneFree(s: State, h: nat)
    requires forall i | i in s.sites :: s.sites[i].hub == h ==> s.sites[i].sIndex == 0
    ensures FreeSIndex(s, h) == Some(1)
  {
    hide LeastFree;
    var r := LeastFree(UsedSIndexes(s, h), 1, 254);
    assert 1 !in UsedSIndexes(s, h) && r == FreeSIndex(s, h);
    assert r.None? || r.value > 1 ==> 1 in UsedSIndexes(s, h);
  }

  const SPOKE_X := DeviceRow(3, 1, 2, 0x64400002, "X")
  const SPOKE_Y := DeviceRow(4, 2, 2, 0x64400102, "Y")

  function OneSpoke(): State {
    TokensOut().(sites := map[1 := SITE_A, 2 := SITE_B, 3 := Site(1, "a:x", 1, "", "")],
                 devices := map[1 := DEVICE_A, 2 := DEVICE_B, 3 := SPOKE_X],
                 tokens := map[1 := SpentRow(1, HubRole, 1), 2 := SpentRow(2, HubRole, 2),
                               3 := SpentRow(3, DeviceRole, 1),
                               4 := Token(4, DeviceRole, Some(2), None, None, false)],
                 nextSite := 4, nextDevice := 4)
  }

  function Unlinked(): State {
    TokensOut().(sites := map[1 := SITE_A, 2 := SITE_B, 3 := Site(1, "a:x", 1, "", ""), 4 := Site(2, "b:y", 1, "", "")],
                 devices := map[1 := DEVICE_A, 2 := DEVICE_B, 3 := SPOKE_X, 4 := SPOKE_Y],
                 tokens := map[1 := SpentRow(1, HubRole, 1), 2 := SpentRow(2, HubRole, 2),
                               3 := SpentRow(3, DeviceRole, 1),
                               4 := SpentRow(4, DeviceRole, 2)],
                 nextSite := 5, nextDevice := 5)
  }

  function Spokes(): seq<Event> {
    Binds() + [MintDevice(1, None)] + [MintDevice(2, None)]
  }

  lemma EnrolledX()
    ensures Enrolled(TokensOut(), 3, 1, "X", "x", 1, 2) == OneSpoke() && SiteSlug(TokensOut(), 1, "x") == "a:x"
    ensures "a:x" != "a:hub" && "a:x" != "b:hub"
  {
    MeshBytes();
    var s := TokensOut();
    assert SiteSlug(s, 1, "x") == "a:x";
    assert Enrolled(s, 3, 1, "X", "x", 1, 2).sites == OneSpoke().sites;
  }

  lemma EnrolledY()
    ensures Enrolled(OneSpoke(), 4, 2, "Y", "y", 1, 2) == Unlinked() && SiteSlug(OneSpoke(), 2, "y") == "b:y"
    ensures "b:y" != "a:hub" && "b:y" != "b:hub" && "b:y" != "a:x"
  {
    MeshBytes();
    var s := OneSpoke();
    assert SiteSlug(s, 2, "y") == "b:y";
    assert Enrolled(s, 4, 2, "Y", "y", 1, 2).sites == Unlinked().sites;
  }

  lemma FirstSpokeJoins()
    ensures Run(Spokes() + [JOIN_X]) == OneSpoke()
  {
    hide Run, Inv, RegisterStep, FreeSIndex, Contains, Enrolled;
    var s := TokensOut();
    MeshBytes();
    TokensRun();
    RunInv(Spokes());
    RunStep(Spokes(), JOIN_X);
    IndexOneFree(s, 1);
    EnrolledX();
    FirstSpokeRuns(s, 3, 1, "X", "x");
  }

  lemma SecondSpokeJoins()
    ensures Run(Spokes() + [JOIN_X] + [JOIN_Y]) == Unlinked()
  {
    hide Run, Inv, RegisterStep, FreeSIndex, Contains, Enrolled;
    var s := OneSpoke();
    MeshBytes();
    FirstSpokeJoins();
    RunInv(Spokes() + [JOIN_X]);
    RunStep(Spokes() + [JOIN_X], JOIN_Y);
    IndexOneFree(s, 2);
    EnrolledY();
    FirstSpokeRuns(s, 4, 2, "Y", "y");
  }

  function Linked(): State {
    Unlinked().(links := map[1 := Link(1, 2)], nextLink := 2)
  }

  /** The run ends with two bound hubs, a spoke each, and a published link. */
  lemma TwoMeshesRun()
    ensures Run(TwoMeshes()) == Linked()
  {
    hide Run, RegisterStep;
    SecondSpokeJoins();
    RunStep(Spokes() + [JOIN_X] + [JOIN_Y], Publish(1, 2));
    assert Unlinked().links[1 := Link(1, 2)] == Linked().links;
  }
}
