/** Addresses over whole runs: which runs keep every device inside its hub's mesh, and exactly
    when a registration is granted there. */
module Allocation {
  import opened Text
  import opened Cidr
  import opened Model
  import opened Queries
  import opened Steps
  import opened Invariants
  import opened Slots

  /** A run step that does not edit a hub's mesh or address. */
  ghost predicate Calm(e: Event) {
    e.UpdateHub? ==> e.wgIp.None? && e.mesh.None?
  }

  /** A run step that mints no mesh longer than a /24. */
  ghost predicate Wide(e: Event) {
    (e.MintHub? && e.mesh.Some? && e.mesh.value.V4? ==> e.mesh.value.len <= 24)
    && (e.UpdateHub? && e.mesh.Some? && e.mesh.value.V4? ==> e.mesh.value.len <= 24)
  }

  function MeshOf(s: State, hub: nat): Prefix
    requires hub in s.hubs && Parse(s.hubs[hub].mesh).Some?
  {
    Parse(s.hubs[hub].mesh).value
  }

  /** Row i carries the address that its hub's mesh assigns to its slot. */
  ghost predicate AddressOk(s: State, i: nat) {
    && (i in s.hubs ==> Parse(s.hubs[i].mesh).Some? && s.hubs[i].wgIp == Bare(DeviceIP(MeshOf(s, i).net, 1)))
    && (i in s.devices && s.devices[i].hub in s.hubs && s.devices[i].dIndex <= 254 ==>
          Parse(s.hubs[s.devices[i].hub].mesh).Some?
          && s.devices[i].ip == Bare(DeviceIP(MeshOf(s, s.devices[i].hub).net, s.devices[i].dIndex)))
  }

  ghost predicate Addressed(s: State) {
    forall i: nat :: AddressOk(s, i)
  }

  ghost predicate WideHub(s: State, h: nat) {
    h in s.hubs && Parse(s.hubs[h].mesh).Some? ==> MeshOf(s, h).len <= 24
  }

  ghost predicate AllWide(s: State) {
    forall h: nat :: WideHub(s, h)
  }

  // ---- calm runs keep addresses ----

  /** A step that moves no mesh: hubs keep mesh and address, devices keep hub, slot and address. */
  ghost predicate Unmoved(s: State, s': State) {
    && (forall h | h in s'.hubs ::
          h in s.hubs && s'.hubs[h].mesh == s.hubs[h].mesh && s'.hubs[h].wgIp == s.hubs[h].wgIp)
    && (forall i | i in s'.devices ::
          i in s.devices && s'.devices[i].hub == s.devices[i].hub && s'.devices[i].hub in s'.hubs
          && s'.devices[i].dIndex == s.devices[i].dIndex && s'.devices[i].ip == s.devices[i].ip)
  }

  lemma UnmovedKeeps(s: State, s': State)
    requires Addressed(s) && Unmoved(s, s')
    ensures Addressed(s')
  {
    forall i: nat ensures AddressOk(s', i) {
      assert AddressOk(s, i);
    }
  }

  lemma HubsKnown(s: State)
    requires Inv(s)
    ensures forall i | i in s.devices :: s.devices[i].hub in s.hubs
  {
    forall i | i in s.devices ensures s.devices[i].hub in s.hubs {
      assert RowOk(s, i);
    }
  }

  lemma HubEditUnmoved(s: State, e: Event)
    requires Inv(s) && Calm(e) && (e.ResetBind? || e.UpdateHub? || e.DeleteHub?)
    ensures Unmoved(s, Next(s, e))
  {
    hide Inv, UpdateHubStep, DeleteHubStep, ClearBind, Unmoved;
    HubsKnown(s);
    match e
    case ResetBind(hub) => ClearUnmoved(s, hub);
    case UpdateHub(hub, endpoint, wgIp, mesh, routes) => UpdateUnmoved(s, hub, endpoint, routes);
    case DeleteHub(hub) => DeleteUnmoved(s, hub);
  }

  lemma ClearUnmoved(s: State, hub: nat)
    requires forall i | i in s.devices :: s.devices[i].hub in s.hubs
    ensures Unmoved(s, ClearBind(s, hub))
  {
  }

  lemma UpdateUnmoved(s: State, hub: nat, endpoint: string, routes: Option<seq<CidrText>>)
    requires forall i | i in s.devices :: s.devices[i].hub in s.hubs
    ensures Unmoved(s, UpdateHubStep(s, hub, endpoint, None, None, routes))
  {
    hide RoutesAccepted, Hubs;
  }

  lemma DeleteUnmoved(s: State, hub: nat)
    requires forall i | i in s.devices :: s.devices[i].hub in s.hubs
    ensures Unmoved(s, DeleteHubStep(s, hub))
  {
    hide SitesWithout, TokensWithout, LinksWithout;
  }

  lemma EditUnmoved(s: State, e: Event)
    requires Inv(s)
    requires e.Heartbeat? || e.Rotate? || e.SetEgress? || e.LinkHost? || e.Revoke? || e.Publish? || e.Unpublish?
    ensures Unmoved(s, Next(s, e))
  {
    hide Inv, MintHubStep, MintDeviceStep, MintInternalStep, RegisterStep, LeaveStep, RemoveStep, ReleaseStep,
      SweepStep, UpdateHubStep, DeleteHubStep, HeartbeatStep, RotateStep, LinkHostStep, SetEgressStep, Norm,
      SubnetRoutes, Unmoved;
    HubsKnown(s);
    match e
    case Heartbeat(secret, claimed, now, lan) => HeartbeatUnmoved(s, secret, claimed, now, lan);
    case Rotate(secret, claimed, now, until) => RotateUnmoved(s, secret, claimed, now, until);
    case LinkHost(pubkeys, ips, hostId) => LinkHostUnmoved(s, pubkeys, ips, hostId);
    case SetEgress(device, egress) => SetEgressUnmoved(s, device, egress);
    case _ => SameRowsUnmoved(s, Next(s, e));
  }

  lemma SameRowsUnmoved(s: State, s': State)
    requires s'.hubs == s.hubs && s'.devices == s.devices && forall i | i in s.devices :: s.devices[i].hub in s.hubs
    ensures Unmoved(s, s')
  {
  }

  lemma SetEgressUnmoved(s: State, device: nat, egress: Option<nat>)
    requires forall i | i in s.devices :: s.devices[i].hub in s.hubs
    ensures Unmoved(s, SetEgressStep(s, device, egress))
  {
    hide SubnetRoutes;
  }

  lemma HeartbeatUnmoved(s: State, secret: nat, claimed: nat, now: nat, lan: Option<string>)
    requires forall i | i in s.devices :: s.devices[i].hub in s.hubs
    ensures Unmoved(s, HeartbeatStep(s, secret, claimed, now, lan))
  {
    hide Bearer;
  }

  lemma RotateUnmoved(s: State, secret: nat, claimed: nat, now: nat, until: nat)
    requires forall i | i in s.devices :: s.devices[i].hub in s.hubs
    ensures Unmoved(s, RotateStep(s, secret, claimed, now, until))
  {
    hide Bearer;
  }

  lemma LinkHostUnmoved(s: State, pubkeys: seq<string>, ips: seq<HostText>, hostId: string)
    requires forall i | i in s.devices :: s.devices[i].hub in s.hubs
    ensures Unmoved(s, LinkHostStep(s, pubkeys, ips, hostId))
  {
  }

  lemma RemoveUnmoved(s: State, device: nat)
    requires device in s.devices && forall i | i in s.devices :: s.devices[i].hub in s.hubs
    ensures Unmoved(s, RemoveDevice(s, device))
  {
    var s' := RemoveDevice(s, device);
    forall h | h in s'.hubs
      ensures h in s.hubs && s'.hubs[h].mesh == s.hubs[h].mesh && s'.hubs[h].wgIp == s.hubs[h].wgIp
    {
    }
    assert s'.hubs.Keys == s.hubs.Keys;
    assert s'.devices == s.devices[device := s.devices[device].(removed := true)];
  }

  lemma SweepUnmoved(s: State, cutoff: nat)
    requires forall i | i in s.devices :: s.devices[i].hub in s.hubs
    ensures Unmoved(s, SweepStep(s, cutoff))
  {
  }

  lemma RetireUnmoved(s: State, e: Event)
    requires Inv(s) && (e.Leave? || e.Remove? || e.Release? || e.Sweep?)
    ensures Unmoved(s, Next(s, e))
  {
    hide Inv, MintHubStep, MintDeviceStep, MintInternalStep, RegisterStep, UpdateHubStep, DeleteHubStep, HeartbeatStep,
      RotateStep, LinkHostStep, SetEgressStep, RemoveDevice, SweepStep;
    HubsKnown(s);
    match e
    case Leave(secret, claimed, now) =>
      var b := Bearer(s, secret, claimed, now);
      if b.Some? { RemoveUnmoved(s, b.value); }
    case Remove(device) => if device in s.devices { RemoveUnmoved(s, device); }
    case Release(token) =>
      if token in s.tokens {
        var c := s.tokens[token].consumedBy;
        if c.Some? && c.value in s.devices && s.devices[c.value].Live() {
          RemoveUnmoved(s, c.value);
        }
      }
    case Sweep(cutoff) => SweepUnmoved(s, cutoff);
  }

  lemma AddTokenAddressed(s: State, role: Role, hub: nat, expires: Option<nat>)
    requires Addressed(s)
    ensures Addressed(AddToken(s, role, hub, expires))
  {
    forall i: nat ensures AddressOk(AddToken(s, role, hub, expires), i) {
      assert AddressOk(s, i);
    }
  }

  lemma AddHubAddressed(s: State, slug: string, endpoint: string, mesh: CidrText)
    requires Inv(s) && Addressed(s) && Parse(mesh).Some?
    ensures Addressed(AddHub(s, slug, endpoint, mesh))
  {
    forall i: nat ensures AddressOk(AddHub(s, slug, endpoint, mesh), i) {
      assert AddressOk(s, i) && RowOk(s, i) && RowOk(s, s.nextHub);
    }
  }

  lemma MintAddressed(s: State, e: Event)
    requires Inv(s) && Addressed(s) && (e.MintHub? || e.MintDevice? || e.MintInternal?)
    ensures Addressed(Next(s, e))
  {
    match e
    case MintHub(slug, endpoint, mesh, expires) =>
      var chosen := if mesh.Some? then mesh else SuggestMesh(s);
      var existing := HubBySlug(s, slug);
      if existing.Some? {
        AddTokenAddressed(s, HubRole, existing.value, expires);
      } else if chosen.Some? && Parse(chosen.value).Some? {
        AddHubAddressed(s, slug, endpoint, chosen.value);
        AddTokenAddressed(AddHub(s, slug, endpoint, chosen.value), HubRole, s.nextHub, expires);
      }
    case MintDevice(hub, expires) => AddTokenAddressed(s, DeviceRole, hub, expires);
    case MintInternal(slug, until) =>
      var hub := HubBySlug(s, slug);
      if hub.Some? { AddTokenAddressed(s, DeviceRole, hub.value, Some(until)); }
  }

  /** What a registration does to addresses. */
  lemma BindHubAddressed(s: State, input: RegisterInput, now: nat, token: nat, hub: nat)
    requires Inv(s) && Addressed(s) && token in s.tokens && hub in s.hubs
    ensures Addressed(BindHub(s, input, now, token, hub).0)
  {
    HubSiteResolves(s, hub, input.publicIp);
    var s' := BindHub(s, input, now, token, hub).0;
    forall i: nat ensures AddressOk(s', i) {
      assert AddressOk(s, i) && AddressOk(s, hub) && RowOk(s, i);
    }
  }

  lemma AllocateAddressed(s: State, input: RegisterInput, now: nat, token: nat, hub: nat)
    requires Inv(s) && Addressed(s) && token in s.tokens && hub in s.hubs
    ensures Addressed(Allocate(s, input, now, token, hub).0)
  {
    ResolveSiteResolves(s, hub, input);
    var s' := Allocate(s, input, now, token, hub).0;
    forall i: nat ensures AddressOk(s', i) {
      assert AddressOk(s, i) && AddressOk(s, hub) && RowOk(s, i);
    }
  }

  lemma RegisterAddressed(s: State, input: RegisterInput, now: nat)
    requires Inv(s) && Addressed(s)
    ensures Addressed(RegisterStep(s, input, now).0)
  {
    if input.pubkey != "" && TokenObjection(s, input.secret, now).None? {
      var token := TokenBySecret(s, input.secret).value;
      var hub := s.tokens[token].hub.value;
      var existing := LiveByPubkey(s, input.pubkey);
      if existing.Some? {
        var s' := Refresh(s, input, existing.value);
        forall i: nat ensures AddressOk(s', i) {
          assert AddressOk(s, i);
        }
      } else {
        BindHubAddressed(s, input, now, token, hub);
        AllocateAddressed(s, input, now, token, hub);
      }
    }
  }

  lemma NextAddressed(s: State, e: Event)
    requires Inv(s) && Addressed(s) && Calm(e)
    ensures Addressed(Next(s, e))
  {
    if e.MintHub? || e.MintDevice? || e.MintInternal? {
      MintAddressed(s, e);
    } else if e.Register? {
      RegisterAddressed(s, e.input, e.now);
    } else {
      if e.Leave? || e.Remove? || e.Release? || e.Sweep? {
        RetireUnmoved(s, e);
      } else if e.ResetBind? || e.UpdateHub? || e.DeleteHub? {
        HubEditUnmoved(s, e);
      } else {
        EditUnmoved(s, e);
      }
      UnmovedKeeps(s, Next(s, e));
    }
  }

  lemma {:induction false} CalmRunAddressed(es: seq<Event>)
    requires forall e | e in es :: Calm(e)
    ensures Addressed(Run(es))
  {
    if es == [] {
      forall i: nat ensures AddressOk(INITIAL, i) {}
    } else {
      CalmRunAddressed(es[..|es| - 1]);
      RunInv(es[..|es| - 1]);
      NextAddressed(Run(es[..|es| - 1]), es[|es| - 1]);
    }
  }

  // ---- wide runs ----

  lemma MintWide(s: State, slug: string, endpoint: string, mesh: Option<CidrText>, expires: Option<nat>, h: nat)
    requires AllWide(s) && Wide(MintHub(slug, endpoint, mesh, expires))
    ensures WideHub(MintHubStep(s, slug, endpoint, mesh, expires), h)
  {
    hide MeshAccepted, Hubs, HubBySlug, UsedMeshes;
    assert WideHub(s, h);
  }

  lemma UpdateWide(s: State, e: Event, h: nat)
    requires AllWide(s) && Wide(e) && e.UpdateHub?
    ensures WideHub(UpdateHubStep(s, e.hub, e.endpoint, e.wgIp, e.mesh, e.routes), h)
  {
    hide MeshAccepted, RoutesAccepted, Hubs;
    assert WideHub(s, h);
  }

  /** The hubs that remain have the meshes and advertised routes they had. */
  ghost predicate SameNets(s: State, s': State) {
    forall h | h in s'.hubs :: h in s.hubs && s'.hubs[h].mesh == s.hubs[h].mesh && s'.hubs[h].routes == s.hubs[h].routes
  }

  lemma BindNets(s: State, input: RegisterInput, now: nat, token: nat, hub: nat)
    requires Inv(s) && token in s.tokens && hub in s.hubs
    ensures SameNets(s, BindHub(s, input, now, token, hub).0)
  {
    hide Inv, HubSite, NewDevice, InsertCollides;
    HubSiteResolves(s, hub, input.publicIp);
  }

  lemma AllocateNets(s: State, input: RegisterInput, now: nat, token: nat, hub: nat)
    requires Inv(s) && token in s.tokens && hub in s.hubs
    ensures SameNets(s, Allocate(s, input, now, token, hub).0)
  {
    hide Inv, ResolveSite, NewDevice, InsertCollides, FreeDIndex;
    ResolveSiteResolves(s, hub, input);
  }

  lemma RegisterNets(s: State, input: RegisterInput, now: nat)
    requires Inv(s)
    ensures SameNets(s, RegisterStep(s, input, now).0)
  {
    hide Inv, BindHub, Allocate;
    if input.pubkey != "" && TokenObjection(s, input.secret, now).None? {
      var token := TokenBySecret(s, input.secret).value;
      BindNets(s, input, now, token, s.tokens[token].hub.value);
      AllocateNets(s, input, now, token, s.tokens[token].hub.value);
    }
  }

  lemma RemoveNets(s: State, device: nat)
    requires device in s.devices
    ensures SameNets(s, RemoveDevice(s, device))
  {
  }

  lemma RetireNets(s: State, e: Event)
    requires e.Leave? || e.Remove? || e.Release? || e.Sweep? || e.ResetBind? || e.DeleteHub?
    ensures SameNets(s, Next(s, e))
  {
    hide MintHubStep, MintDeviceStep, MintInternalStep, RegisterStep, UpdateHubStep, HeartbeatStep, RotateStep,
      LinkHostStep, SetEgressStep, LeaveStep, RemoveStep, ReleaseStep, SweepStep, DeleteHubStep;
    match e
    case Leave(secret, claimed, now) => LeaveNets(s, secret, claimed, now);
    case Release(token) => ReleaseNets(s, token);
    case Remove(device) => RemoveStepNets(s, device);
    case Sweep(cutoff) => SweepNets(s, cutoff);
    case DeleteHub(hub) => DeleteNets(s, hub);
    case ResetBind(hub) =>
  }

  lemma LeaveNets(s: State, secret: nat, claimed: nat, now: nat)
    ensures SameNets(s, LeaveStep(s, secret, claimed, now))
  {
    hide Bearer, RemoveDevice;
    var b := Bearer(s, secret, claimed, now);
    if b.Some? {
      RemoveNets(s, b.value);
    }
  }

  lemma RemoveStepNets(s: State, device: nat)
    ensures SameNets(s, RemoveStep(s, device))
  {
    hide RemoveDevice;
    if device in s.devices {
      RemoveNets(s, device);
    }
  }

  lemma ReleaseNets(s: State, token: nat)
    ensures SameNets(s, ReleaseStep(s, token))
  {
    hide RemoveDevice;
    if token in s.tokens {
      var c := s.tokens[token].consumedBy;
      if c.Some? && c.value in s.devices {
        RemoveNets(s, c.value);
      }
    }
  }

  lemma SweepNets(s: State, cutoff: nat)
    ensures SameNets(s, SweepStep(s, cutoff))
  {
    hide Stale;
  }

  lemma DeleteNets(s: State, hub: nat)
    ensures SameNets(s, DeleteHubStep(s, hub))
  {
    hide SitesWithout, DevicesWithout, TokensWithout, LinksWithout;
  }

  lemma EditNets(s: State, e: Event)
    requires e.MintDevice? || e.MintInternal? || e.Heartbeat? || e.Rotate? || e.Revoke? || e.Publish? || e.Unpublish?
             || e.SetEgress? || e.LinkHost?
    ensures SameNets(s, Next(s, e))
  {
    hide MintHubStep, RegisterStep, UpdateHubStep, LeaveStep, RemoveStep, ReleaseStep, SweepStep, DeleteHubStep, Bearer,
      Norm, SubnetRoutes;
    assert Next(s, e).hubs == s.hubs;
  }

  /** Only a hub mint and a hub edit put a mesh or a route in place. */
  lemma NetsKept(s: State, e: Event)
    requires Inv(s) && !e.MintHub? && !e.UpdateHub?
    ensures SameNets(s, Next(s, e))
  {
    hide Inv, SameNets, RegisterStep, MintHubStep, UpdateHubStep;
    if e.Register? {
      RegisterNets(s, e.input, e.now);
    } else if e.Leave? || e.Remove? || e.Release? || e.Sweep? || e.ResetBind? || e.DeleteHub? {
      RetireNets(s, e);
    } else {
      EditNets(s, e);
    }
  }

  lemma NextWide(s: State, e: Event, h: nat)
    requires Inv(s) && AllWide(s) && Wide(e)
    ensures WideHub(Next(s, e), h)
  {
    hide Inv, MintHubStep, UpdateHubStep, Wide;
    if e.MintHub? {
      MintWide(s, e.slug, e.endpoint, e.mesh, e.expires, h);
    } else if e.UpdateHub? {
      UpdateWide(s, e, h);
    } else {
      NetsKept(s, e);
      assert WideHub(s, h);
    }
  }

  lemma {:induction false} WideRunWide(es: seq<Event>)
    requires forall e | e in es :: Wide(e)
    ensures AllWide(Run(es))
  {
    hide Inv, Next, Wide;
    if es == [] {
      forall h: nat ensures WideHub(INITIAL, h) {}
    } else {
      var s, e := Run(es[..|es| - 1]), es[|es| - 1];
      WideRunWide(es[..|es| - 1]);
      RunInv(es[..|es| - 1]);
      forall h: nat ensures WideHub(Next(s, e), h) {
        NextWide(s, e, h);
      }
    }
  }

  // ---- addresses lie in one mesh ----

  ghost predicate InMesh(s: State, ip: HostText, hub: nat) {
    ip.Bare? && hub in s.hubs && Parse(s.hubs[hub].mesh).Some? && Contains(MeshOf(s, hub), ip.addr)
  }

  lemma DeviceInOwnMesh(s: State, d: nat, h: nat)
    requires Inv(s) && Addressed(s) && AllWide(s) && d in s.devices && h in s.hubs
    ensures InMesh(s, s.devices[d].ip, h) <==> h == s.devices[d].hub
  {
    var own := s.devices[d].hub;
    assert RowOk(s, d) && AddressOk(s, d) && WideHub(s, own) && RowOk(s, h) && RowOk(s, own);
    DeviceIPInMesh(MeshOf(s, own), s.devices[d].dIndex);
    if h != own {
      assert Apart(s, own, h);
      DisjointApart(MeshOf(s, own), MeshOf(s, h), s.devices[d].ip.addr);
    }
  }

  lemma HubInOwnMesh(s: State, g: nat, h: nat)
    requires Inv(s) && Addressed(s) && AllWide(s) && g in s.hubs && h in s.hubs
    ensures InMesh(s, s.hubs[g].wgIp, h) <==> h == g
  {
    assert RowOk(s, g) && AddressOk(s, g) && WideHub(s, g) && RowOk(s, h);
    DeviceIPInMesh(MeshOf(s, g), 1);
    if h != g {
      assert Apart(s, g, h);
      DisjointApart(MeshOf(s, g), MeshOf(s, h), s.hubs[g].wgIp.addr);
    }
  }

  /** After every run without mesh or address edits and without meshes longer than /24, each
      device's address lies in its own hub's mesh and in no other hub's. */
  lemma DevicesInOneMesh(es: seq<Event>, d: nat, h: nat)
    requires forall e | e in es :: Calm(e) && Wide(e)
    requires d in Run(es).devices && h in Run(es).hubs
    ensures InMesh(Run(es), Run(es).devices[d].ip, h) <==> h == Run(es).devices[d].hub
  {
    RunInv(es);
    CalmRunAddressed(es);
    WideRunWide(es);
    DeviceInOwnMesh(Run(es), d, h);
  }

  // ---- exactly when a registration is granted ----

  ghost predicate SlotTaken(s: State, hub: nat, slot: nat) {
    exists i :: i in s.devices && s.devices[i].Live() && s.devices[i].hub == hub && s.devices[i].dIndex == slot
  }

  /** In a calm and wide database the three unique indexes object to a device with a new pubkey
      and the address of its slot exactly when its hub already has that slot in use. */
  lemma CollidesIffSlotTaken(s: State, d: Device)
    requires Inv(s) && Addressed(s) && AllWide(s)
    requires d.hub in s.hubs && d.site in s.sites && s.sites[d.site].hub == d.hub && d.dIndex <= 254
    requires Parse(s.hubs[d.hub].mesh).Some? && d.ip == Bare(DeviceIP(MeshOf(s, d.hub).net, d.dIndex))
    requires forall i | i in s.devices && s.devices[i].Live() :: s.devices[i].pubkey != d.pubkey
    ensures InsertCollides(s, d) <==> SlotTaken(s, d.hub, d.dIndex)
  {
    if InsertCollides(s, d) {
      var i :| i in s.devices && s.devices[i].Live() && (s.devices[i].ip == d.ip
               || (s.devices[i].site == d.site && s.devices[i].dIndex == d.dIndex));
      var h := s.devices[i].hub;
      assert RowOk(s, i) && AddressOk(s, i) && RowOk(s, h) && WideHub(s, h) && WideHub(s, d.hub);
      if h != d.hub {
        assert Apart(s, h, d.hub);
        DisjointMeshesApart(MeshOf(s, h), MeshOf(s, d.hub), s.devices[i].dIndex, d.dIndex);
      } else {
        DeviceIPCollides(MeshOf(s, h), MeshOf(s, h), s.devices[i].dIndex, d.dIndex);
      }
    }
    if SlotTaken(s, d.hub, d.dIndex) {
      var i :| i in s.devices && s.devices[i].Live() && s.devices[i].hub == d.hub && s.devices[i].dIndex == d.dIndex;
      assert RowOk(s, i) && AddressOk(s, i);
      assert s.devices[i].ip == d.ip;
    }
  }

  lemma SitesOnlyKeep(s: State, s1: State)
    requires Addressed(s) && AllWide(s) && s1 == s.(sites := s1.sites, nextSite := s1.nextSite)
    ensures Addressed(s1) && AllWide(s1)
  {
    forall i: nat ensures AddressOk(s1, i) && WideHub(s1, i) {
      assert AddressOk(s, i) && WideHub(s, i);
    }
  }

  /** The site that a registration names, or that has its public address and LAN. */
  ghost predicate SiteKnown(s: State, hub: nat, input: RegisterInput)
    requires hub in s.hubs
  {
    exists i :: i in s.sites && s.sites[i].hub == hub
      && if input.siteSlug != "" then s.sites[i].slug == s.hubs[hub].slug + ":" + input.siteSlug
         else s.sites[i].publicIp == input.publicIp && s.sites[i].lan == input.lan
  }

  /** The slug that a new site would get: the one named, or "site_" and the least free index. */
  function NewSlug(s: State, hub: nat, input: RegisterInput): string
    requires hub in s.hubs && FreeSIndex(s, hub).Some?
  {
    if input.siteSlug != "" then s.hubs[hub].slug + ":" + input.siteSlug
    else s.hubs[hub].slug + ":site_" + Dec(FreeSIndex(s, hub).value)
  }

  /** A new site can be opened: an index is free and no site of any hub carries the new slug. */
  ghost predicate SiteOpens(s: State, hub: nat, input: RegisterInput)
    requires hub in s.hubs
  {
    FreeSIndex(s, hub).Some? && forall i | i in s.sites :: s.sites[i].slug != NewSlug(s, hub, input)
  }

  /** A registration finds its site exactly when the site is known or can be opened. */
  lemma ResolveSiteIff(s: State, hub: nat, input: RegisterInput)
    requires Inv(s) && hub in s.hubs
    ensures ResolveSite(s, hub, input).SiteOk? <==> SiteKnown(s, hub, input) || SiteOpens(s, hub, input)
  {
    hide Inv, Dec, FreeSIndex;
    forall i | i in s.sites ensures i < s.nextSite && s.sites[i].sIndex <= 254 {
      SiteBounds(s, i);
    }
    if FreeSIndex(s, hub).Some? {
      FreeIndexUnused(s, hub);
    }
  }

  lemma SiteBounds(s: State, i: nat)
    requires Inv(s) && i in s.sites
    ensures i < s.nextSite && s.sites[i].sIndex <= 254
  {
    assert RowOk(s, i);
  }

  lemma FreeIndexUnused(s: State, hub: nat)
    requires FreeSIndex(s, hub).Some?
    ensures 1 <= FreeSIndex(s, hub).value <= 254
    ensures forall i | i in s.sites && s.sites[i].hub == hub :: s.sites[i].sIndex != FreeSIndex(s, hub).value
  {
    forall i | i in s.sites && s.sites[i].hub == hub ensures s.sites[i].sIndex != FreeSIndex(s, hub).value {
      assert s.sites[i].sIndex in UsedSIndexes(s, hub);
    }
  }

  /** A device registration with a new pubkey on a configured hub is granted exactly when its
      site is known or can be opened and the hub has fewer than 253 live spokes: the device
      insert never trips an index. */
  lemma AllocateGrantedIff(s: State, input: RegisterInput, now: nat, token: nat, hub: nat)
    requires Inv(s) && Addressed(s) && AllWide(s) && token in s.tokens && hub in s.hubs
    requires LiveByPubkey(s, input.pubkey).None? && s.hubs[hub].Configured()
    ensures var (s', o) := Allocate(s, input, now, token, hub);
            && (o.Registered? <==>
                  (SiteKnown(s, hub, input) || SiteOpens(s, hub, input)) && |LiveSpokes(s, hub)| < SLOTS)
            && (|LiveSpokes(s, hub)| == SLOTS && (SiteKnown(s, hub, input) || SiteOpens(s, hub, input)) ==>
                  o == Refused(SiteExhausted))
  {
    hide SiteKnown, SiteOpens;
    ResolveSiteIff(s, hub, input);
    AllocateFollowsSite(s, input, now, token, hub);
  }

  lemma AllocateFollowsSite(s: State, input: RegisterInput, now: nat, token: nat, hub: nat)
    requires Inv(s) && Addressed(s) && AllWide(s) && token in s.tokens && hub in s.hubs
    requires LiveByPubkey(s, input.pubkey).None? && s.hubs[hub].Configured()
    ensures var (s', o) := Allocate(s, input, now, token, hub);
            && (o.Registered? <==> ResolveSite(s, hub, input).SiteOk? && |LiveSpokes(s, hub)| < SLOTS)
            && (ResolveSite(s, hub, input).SiteOk? && |LiveSpokes(s, hub)| == SLOTS ==> o == Refused(SiteExhausted))
  {
    assert RowOk(s, hub);
    ResolveSiteResolves(s, hub, input);
    var r := ResolveSite(s, hub, input);
    if r.SiteOk? {
      var s1 := r.state;
      SitesOnlyKeep(s, s1);
      PickFailsIffFull(s1, hub);
      SlotsConserved(s1, hub);
      assert LiveSpokes(s1, hub) == LiveSpokes(s, hub);
      var dIndex := FreeDIndex(s1, hub);
      if dIndex.Some? {
        var ip := Bare(DeviceIP(MeshOf(s, hub).net, dIndex.value));
        var d := NewDevice(s1, input, now, token, hub, r.site, dIndex.value, ip, input.isolated);
        forall i | i in s1.devices && s1.devices[i].Live() ensures s1.devices[i].pubkey != d.pubkey {
          assert RowOk(s, i);
        }
        FreeSlotUnused(s1, hub, dIndex.value);
        CollidesIffSlotTaken(s1, d);
      }
    }
  }

  /** The hub site can be found or entered exactly when no other hub's site has its slug. */
  lemma HubSiteIff(s: State, hub: nat, publicIp: string)
    requires Inv(s) && hub in s.hubs
    ensures HubSite(s, hub, publicIp).SiteOk? <==>
              forall i | i in s.sites && s.sites[i].slug == s.hubs[hub].slug + ":hub" :: s.sites[i].hub == hub
  {
    var slug := s.hubs[hub].slug + ":hub";
    var found := SiteBySlugInHub(s, hub, slug);
    forall i | i in s.sites ensures i < s.nextSite && s.sites[i].sIndex <= 254
      && (s.sites[i].hub == hub && s.sites[i].sIndex == 0 ==> s.sites[i].slug == slug) {
      assert RowOk(s, i);
    }
    if found.Some? {
      forall i | i in s.sites && s.sites[i].slug == slug ensures s.sites[i].hub == hub {
        assert Apart(s, i, found.value);
      }
    }
  }

  /** A hub registration with a new pubkey on an unbound hub is granted exactly when the hub
      site resolves and no live device holds the hub's slot 1. */
  lemma BindGrantedIff(s: State, input: RegisterInput, now: nat, token: nat, hub: nat)
    requires Inv(s) && Addressed(s) && AllWide(s) && token in s.tokens && hub in s.hubs
    requires LiveByPubkey(s, input.pubkey).None? && s.hubs[hub].bound.None?
    ensures var (s', o) := BindHub(s, input, now, token, hub);
            && (o.Registered? <==>
                  (forall i | i in s.sites && s.sites[i].slug == s.hubs[hub].slug + ":hub" :: s.sites[i].hub == hub)
                  && !SlotTaken(s, hub, 1))
            && (o.Registered? ==> o.device in s'.devices && s'.devices[o.device].ip == s.hubs[hub].wgIp
                                  && hub in s'.hubs && s'.hubs[hub].bound == Some(o.device))
  {
    HubSiteIff(s, hub, input.publicIp);
    HubSiteResolves(s, hub, input.publicIp);
    var r := HubSite(s, hub, input.publicIp);
    if r.SiteOk? {
      SitesOnlyKeep(s, r.state);
      assert AddressOk(s, hub);
      var d := NewDevice(r.state, input, now, token, hub, r.site, 1, s.hubs[hub].wgIp, false);
      forall i | i in s.devices && s.devices[i].Live() ensures s.devices[i].pubkey != d.pubkey {
        assert RowOk(s, i);
      }
      CollidesIffSlotTaken(r.state, d);
      assert SlotTaken(r.state, hub, 1) <==> SlotTaken(s, hub, 1);
    }
  }

  /** After every run without mesh or address edits and without meshes longer than /24, the
      insert of a registering device never trips an index: a uniqueness refusal can only come
      from opening a site. */
  lemma AllocationNeverCollides(es: seq<Event>, input: RegisterInput, now: nat, token: nat, hub: nat)
    requires forall e | e in es :: Calm(e) && Wide(e)
    requires token in Run(es).tokens && hub in Run(es).hubs && LiveByPubkey(Run(es), input.pubkey).None?
    requires Allocate(Run(es), input, now, token, hub).1 == Refused(UniqueViolation)
    ensures ResolveSite(Run(es), hub, input) == SiteErr(UniqueViolation)
  {
    hide Run, Allocate, ResolveSite, Inv;
    RunInv(es);
    CalmRunAddressed(es);
    WideRunWide(es);
    RefusalIsOfSite(Run(es), input, now, token, hub);
  }

  lemma RefusalIsOfSite(s: State, input: RegisterInput, now: nat, token: nat, hub: nat)
    requires Inv(s) && Addressed(s) && AllWide(s) && token in s.tokens && hub in s.hubs
    requires LiveByPubkey(s, input.pubkey).None? && Allocate(s, input, now, token, hub).1 == Refused(UniqueViolation)
    ensures ResolveSite(s, hub, input) == SiteErr(UniqueViolation)
  {
    hide Inv, ResolveSite, InsertCollides, NewDevice, FreeDIndex, LiveSpokes;
    AllocateFollowsSite(s, input, now, token, hub);
    SlotsConserved(s, hub);
  }

  /** Why meshes longer than /24 are excluded: minting two hubs on the halves of a /24 is
      accepted and gives both the same address, outside the second one's mesh. */
  lemma HalfMeshHubsCollide()
    ensures var low, high := V4(0x64400000, 25, 0), V4(0x64400080, 25, 0);
            var s := MintHubStep(MintHubStep(INITIAL, "a", "a:1", Some(low), None), "b", "b:1", Some(high), None);
            && 1 in s.hubs && 2 in s.hubs && s.hubs[1].mesh == low && s.hubs[2].mesh == high
            && s.hubs[1].wgIp == s.hubs[2].wgIp && !InMesh(s, s.hubs[2].wgIp, 2)
  {
    hide Mask, Contains;
    HalvesCollide();
    var low, high := V4(0x64400000, 25, 0), V4(0x64400080, 25, 0);
    var s1 := MintHubStep(INITIAL, "a", "a:1", Some(low), None);
    assert MeshAccepted(low, Hubs(INITIAL), 0);
    assert s1 == AddToken(AddHub(INITIAL, "a", "a:1", low), HubRole, 1, None);
    assert HubBySlug(s1, "b").None?;
    assert MeshAccepted(high, Hubs(s1), 0) by {
      forall h | h in Hubs(s1) ensures h == s1.hubs[1] {
      }
      OverlapSwaps(Network(0x64400080, 25), Network(0x64400000, 25));
    }
  }

  lemma OverlapSwaps(p: Prefix, q: Prefix)
    ensures Overlaps(p, q) <==> Overlaps(q, p)
  {
  }
}
