/** Reclaiming a hub's slot: after its device is gone, and after a bare reset-bind. */
module Reclaim {
  import opened Text
  import opened Cidr
  import opened Model
  import opened Queries
  import opened Steps
  import opened Invariants
  import opened Allocation

  /** Event e takes device b out of the mesh: it leaves, is removed, released or swept. */
  ghost predicate Retires(s: State, e: Event, b: nat) {
    b in s.devices && s.devices[b].Live() &&
    match e
    case Leave(secret, claimed, now) => Bearer(s, secret, claimed, now) == Some(b)
    case Remove(device) => device == b
    case Release(token) => token in s.tokens && s.tokens[token].consumedBy == Some(b)
    case Sweep(cutoff) => Stale(s.devices[b], cutoff)
    case _ => false
  }

  /** Retiring a hub's device unbinds the hub, keeps the hub's row otherwise, and brings no
      device back to life. */
  lemma RetirementUnbinds(s: State, e: Event, h: nat, b: nat)
    requires Inv(s) && h in s.hubs && s.hubs[h].bound == Some(b) && Retires(s, e, b)
    ensures var s1 := Next(s, e);
            && h in s1.hubs && s1.hubs[h] == s.hubs[h].(pubkey := "", bound := None)
            && s1.sites == s.sites && b in s1.devices && !s1.devices[b].Live()
            && s1.nextSecret == s.nextSecret && s1.nextHub == s.nextHub && s1.nextToken == s.nextToken
            && s1.hubs.Keys == s.hubs.Keys
            && forall i | i in s1.devices && s1.devices[i].Live() ::
                 i in s.devices && s.devices[i].Live() && s1.devices[i].hub == s.devices[i].hub
                 && s1.devices[i].dIndex == s.devices[i].dIndex
  {
    hide MintHubStep, MintInternalStep, RegisterStep, UpdateHubStep, LinkHostStep, HeartbeatStep, RotateStep,
      SetEgressStep, DeleteHubStep, PublishStep, Inv, RemoveDevice;
    BoundHolds(s, h);
    RemoveIsRemoveAll(s, b);
    if e.Sweep? {
      assert b in Victims(s, e.cutoff);
    }
  }

  lemma SlotOneFree(s: State, e: Event, h: nat, b: nat)
    requires Inv(s) && h in s.hubs && s.hubs[h].bound == Some(b) && Retires(s, e, b)
    ensures !SlotTaken(Next(s, e), h, 1)
  {
    RetirementUnbinds(s, e, h, b);
    assert RowOk(s, h);
    var s1 := Next(s, e);
    forall i | i in s1.devices && s1.devices[i].Live() && s1.devices[i].hub == h ensures s1.devices[i].dIndex != 1 {
      assert Apart(s, i, b);
    }
  }

  lemma OnlySiteWithSlug(s: State, h: nat, b: nat)
    requires Inv(s) && h in s.hubs && b in s.devices && s.devices[b].hub == h && s.devices[b].dIndex == 1
    ensures forall i | i in s.sites && s.sites[i].slug == s.hubs[h].slug + ":hub" :: s.sites[i].hub == h
  {
    assert RowOk(s, b);
    forall i | i in s.sites && s.sites[i].slug == s.hubs[h].slug + ":hub" ensures s.sites[i].hub == h {
      assert Apart(s, i, s.devices[b].site);
    }
  }

  /** A hub token re-issued for an unbound hub under its own endpoint and mesh is granted and
      names that hub. */
  lemma ReissueGranted(s: State, h: nat, expires: Option<nat>)
    requires Inv(s) && h in s.hubs && s.hubs[h].bound.None? && s.hubs[h].endpoint != ""
    ensures MintHubStep(s, s.hubs[h].slug, s.hubs[h].endpoint, Some(s.hubs[h].mesh), expires)
            == AddToken(s, HubRole, h, expires)
  {
    assert RowOk(s, h);
    SlugNamesHub(s, h);
  }

  lemma SlugNamesHub(s: State, h: nat)
    requires Inv(s) && h in s.hubs
    ensures HubBySlug(s, s.hubs[h].slug) == Some(h)
  {
    assert RowOk(s, h);
    var found := HubBySlug(s, s.hubs[h].slug);
    assert found.Some?;
    assert Apart(s, found.value, h);
  }

  /** Some request issues an unbound hub a token exactly when the hub has an endpoint. A blank
      endpoint, which an edit may leave behind, is refused in the request and matches no other. */
  lemma ReissueIff(s: State, h: nat, expires: Option<nat>)
    requires Inv(s) && h in s.hubs && s.hubs[h].bound.None?
    ensures (exists endpoint, mesh :: MintHubStep(s, s.hubs[h].slug, endpoint, mesh, expires) != s)
            <==> s.hubs[h].endpoint != ""
  {
    var slug := s.hubs[h].slug;
    SlugNamesHub(s, h);
    if s.hubs[h].endpoint != "" {
      ReissueGranted(s, h, expires);
      assert MintHubStep(s, slug, s.hubs[h].endpoint, Some(s.hubs[h].mesh), expires).nextToken != s.nextToken;
    } else {
      forall endpoint, mesh ensures MintHubStep(s, slug, endpoint, mesh, expires) == s {
      }
    }
  }

  lemma FreshTokenFound(s: State, role: Role, hub: nat, expires: Option<nat>)
    requires Inv(s) && hub in s.hubs
    ensures TokenBySecret(AddToken(s, role, hub, expires), s.nextSecret) == Some(s.nextToken)
  {
    var s' := AddToken(s, role, hub, expires);
    var t := TokenBySecret(s', s.nextSecret);
    assert s.nextToken in s'.tokens && s'.tokens[s.nextToken].secret == s.nextSecret;
    assert t.Some?;
    assert RowOk(s, t.value);
  }

  /** A fresh, unexpired hub token and a new pubkey lead straight to the bind. */
  lemma FreshHubTokenBinds(s: State, hub: nat, expires: Option<nat>, input: RegisterInput, now: nat)
    requires Inv(s) && hub in s.hubs && input.secret == s.nextSecret && 0 < |input.pubkey| <= 128
    requires LiveByPubkey(s, input.pubkey).None? && (expires.Some? ==> now <= expires.value)
    ensures var s' := AddToken(s, HubRole, hub, expires);
            RegisterStep(s', input, now) == BindHub(s', input, now, s.nextToken, hub)
            && LiveByPubkey(s', input.pubkey).None?
  {
    var s' := AddToken(s, HubRole, hub, expires);
    FreshTokenFound(s, HubRole, hub, expires);
    forall i | i in s.devices && s.devices[i].Live() ensures s.devices[i].pubkey != input.pubkey {
      assert RowOk(s, i);
    }
  }

  lemma TokenLeavesSlots(s: State, role: Role, h: nat, expires: Option<nat>)
    ensures SlotTaken(AddToken(s, role, h, expires), h, 1) <==> SlotTaken(s, h, 1)
  {
  }

  /** The state in which a retired hub's token was re-issued. */
  lemma ReissuedState(s: State, e: Event, h: nat, b: nat, expires: Option<nat>)
    requires Inv(s) && Addressed(s) && AllWide(s)
    requires h in s.hubs && s.hubs[h].bound == Some(b) && s.hubs[h].endpoint != "" && Retires(s, e, b)
    ensures h in Next(s, e).hubs && Inv(Next(s, e))
    ensures var s2 := AddToken(Next(s, e), HubRole, h, expires);
            && MintHubStep(Next(s, e), s.hubs[h].slug, s.hubs[h].endpoint, Some(s.hubs[h].mesh), expires) == s2
            && Inv(s2) && Addressed(s2) && AllWide(s2) && !SlotTaken(s2, h, 1)
            && h in s2.hubs && s2.hubs[h] == s.hubs[h].(pubkey := "", bound := None) && s2.sites == s.sites
            && b in s.devices && s.devices[b].ip == s.hubs[h].wgIp
  {
    var s1 := Next(s, e);
    assert RowOk(s, h) && AddressOk(s, h) && AddressOk(s, b);
    RetirementUnbinds(s, e, h, b);
    NextKeeps(s, e);
    NextAddressed(s, e);
    ReissueGranted(s1, h, expires);
    AddTokenKeeps(s1, HubRole, h, expires);
    AddTokenAddressed(s1, HubRole, h, expires);
    forall k: nat ensures WideHub(AddToken(s1, HubRole, h, expires), k) {
      NextWide(s, e, k);
    }
    SlotOneFree(s, e, h, b);
    TokenLeavesSlots(s1, HubRole, h, expires);
  }

  /** After the bound device is gone, a re-issued hub token and a new pubkey always rebind the
      hub, at the address the old device had. */
  lemma HubSlotReclaimed(s: State, e: Event, h: nat, b: nat, expires: Option<nat>, input: RegisterInput, now: nat)
    requires Inv(s) && Addressed(s) && AllWide(s)
    requires h in s.hubs && s.hubs[h].bound == Some(b) && s.hubs[h].endpoint != "" && Retires(s, e, b)
    requires input.secret == Next(s, e).nextSecret && 0 < |input.pubkey| <= 128
    requires LiveByPubkey(Next(s, e), input.pubkey).None?
    requires expires.Some? ==> now <= expires.value
    ensures var s2 := MintHubStep(Next(s, e), s.hubs[h].slug, s.hubs[h].endpoint, Some(s.hubs[h].mesh), expires);
            var (s3, o) := RegisterStep(s2, input, now);
            && o.Registered? && o.role == HubRole
            && h in s3.hubs && s3.hubs[h].bound == Some(o.device)
            && o.device in s3.devices && b in s.devices && s3.devices[o.device].ip == s.devices[b].ip
  {
    ReissuedState(s, e, h, b, expires);
    FreshHubTokenBinds(Next(s, e), h, expires, input, now);
    var s2 := AddToken(Next(s, e), HubRole, h, expires);
    assert RowOk(s, h);
    OnlySiteWithSlug(s, h, b);
    BindGrantedIff(s2, input, now, Next(s, e).nextToken, h);
    BindHubEnters(s2, input, now, Next(s, e).nextToken, h);
  }

  // ---- after a bare reset-bind ----

  /** Hub h is unbound while device b, still live, keeps its slot 1. */
  ghost predicate Held(s: State, h: nat, b: nat) {
    && h in s.hubs && s.hubs[h].bound.None?
    && b in s.devices && s.devices[b].Live() && s.devices[b].hub == h && s.devices[b].dIndex == 1
  }

  /** An unbound hub whose slot 1 is in use refuses every registration, whatever tokens were
      minted and whatever meshes or addresses were edited since. */
  lemma SlotHeldRefuses(s: State, h: nat, input: RegisterInput, now: nat, token: nat)
    requires Inv(s) && h in s.hubs && s.hubs[h].bound.None? && SlotTaken(s, h, 1) && token in s.tokens
    ensures BindHub(s, input, now, token, h) == (s, Refused(UniqueViolation))
  {
    var b :| b in s.devices && s.devices[b].Live() && s.devices[b].hub == h && s.devices[b].dIndex == 1;
    var found := SiteBySlugInHub(s, h, s.hubs[h].slug + ":hub");
    var was := s.devices[b].site;
    assert RowOk(s, b) && RowOk(s, was);
    assert found.Some?;
    assert Apart(s, found.value, was);
    var d := NewDevice(s, input, now, token, h, found.value, 1, s.hubs[h].wgIp, false);
    assert s.devices[b].site == d.site && s.devices[b].dIndex == d.dIndex;
    assert InsertCollides(s, d);
  }

  /** Removing the device ends the blockade and nothing else does. */
  lemma HeldUntilRetired(s: State, e: Event, h: nat, b: nat)
    requires Inv(s) && Held(s, h, b)
    ensures Held(Next(s, e), h, b) <==> !Retires(s, e, b)
    ensures Retires(s, e, b) ==> h in Next(s, e).hubs && Next(s, e).hubs[h].bound.None? && !SlotTaken(Next(s, e), h, 1)
  {
    if Retires(s, e, b) {
      RetiredFrees(s, e, h, b);
    } else {
      HeldStays(s, e, h, b);
    }
  }

  lemma RetiredFrees(s: State, e: Event, h: nat, b: nat)
    requires Inv(s) && Held(s, h, b) && Retires(s, e, b)
    ensures var s1 := Next(s, e); h in s1.hubs && s1.hubs[h].bound.None? && !SlotTaken(s1, h, 1) && !Held(s1, h, b)
  {
    hide Inv, Bearer;
    RetirementRemoves(s, e, b);
    var s1 := Next(s, e);
    forall i | i in s1.devices && s1.devices[i].Live() && s1.devices[i].hub == h ensures s1.devices[i].dIndex != 1 {
      SlotOneAlone(s, h, b, i);
    }
  }

  lemma SlotOneAlone(s: State, h: nat, b: nat, i: nat)
    requires Inv(s) && Held(s, h, b) && i in s.devices && s.devices[i].Live() && s.devices[i].hub == h && i != b
    ensures s.devices[i].dIndex != 1
  {
    assert Apart(s, i, b);
  }

  /** Retiring a device removes rows, unbinds hubs and does nothing else to either table. */
  lemma RetirementRemoves(s: State, e: Event, b: nat)
    requires Inv(s) && Retires(s, e, b)
    ensures exists victims: set<nat> :: b in victims && Next(s, e).devices == RemoveAll(s, victims).devices
                                        && Next(s, e).hubs == RemoveAll(s, victims).hubs
  {
    hide Inv, Bearer, RemoveAll, RemoveDevice;
    if e.Sweep? {
      assert b in Victims(s, e.cutoff);
    } else {
      RemoveIsRemoveAll(s, b);
      assert b in {b} && Next(s, e).devices == RemoveAll(s, {b}).devices && Next(s, e).hubs == RemoveAll(s, {b}).hubs;
    }
  }

  lemma HeldStays(s: State, e: Event, h: nat, b: nat)
    requires Inv(s) && Held(s, h, b) && !Retires(s, e, b)
    ensures Held(Next(s, e), h, b)
  {
    hide Inv, Held, Retires, Bearer, RegisterStep, MintHubStep, MintInternalStep, LinkHostStep, UpdateHubStep,
      HeartbeatStep, RotateStep, LeaveStep, RemoveStep, ReleaseStep, SweepStep, SetEgressStep, DeleteHubStep;
    match e
    case MintHub(slug, endpoint, mesh, expires) => HeldThroughMint(s, slug, endpoint, mesh, expires, h, b);
    case MintInternal(slug, until) => HeldThroughInternal(s, slug, until, h, b);
    case Register(input, now) => HeldThroughRegister(s, input, now, h, b);
    case UpdateHub(hub, endpoint, wgIp, mesh, routes) => HeldThroughUpdate(s, hub, endpoint, wgIp, mesh, routes, h, b);
    case LinkHost(pubkeys, ips, hostId) => HeldThroughLink(s, pubkeys, ips, hostId, h, b);
    case _ =>
      if e.Leave? || e.Remove? || e.Release? || e.Sweep? {
        HeldThroughRemovals(s, e, h, b);
      } else {
        HeldThroughEdits(s, e, h, b);
      }
  }

  lemma HeldThroughRemovals(s: State, e: Event, h: nat, b: nat)
    requires Held(s, h, b) && !Retires(s, e, b) && (e.Leave? || e.Remove? || e.Release? || e.Sweep?)
    ensures Held(Next(s, e), h, b)
  {
    hide Bearer, MintHubStep, MintInternalStep, RegisterStep, UpdateHubStep, LinkHostStep, HeartbeatStep, RotateStep,
      SetEgressStep, DeleteHubStep, PublishStep, RemoveDevice;
    forall device | device in s.devices && device != b ensures Held(RemoveDevice(s, device), h, b) {
      HeldThroughRemoval(s, device, h, b);
    }
  }

  lemma HeldThroughRemoval(s: State, device: nat, h: nat, b: nat)
    requires Held(s, h, b) && device in s.devices && device != b
    ensures Held(RemoveDevice(s, device), h, b)
  {
  }

  lemma HeldThroughEdits(s: State, e: Event, h: nat, b: nat)
    requires Held(s, h, b)
    requires e.MintDevice? || e.Heartbeat? || e.Rotate? || e.Revoke? || e.ResetBind? || e.DeleteHub? || e.Publish?
             || e.Unpublish? || e.SetEgress?
    ensures Held(Next(s, e), h, b)
  {
    hide Bearer, MintHubStep, MintInternalStep, RegisterStep, LeaveStep, RemoveStep, ReleaseStep, SweepStep,
      UpdateHubStep, LinkHostStep;
  }

  lemma HubBelow(s: State, h: nat)
    requires Inv(s) && h in s.hubs
    ensures h < s.nextHub
  {
    assert RowOk(s, h);
  }

  lemma HeldThroughMint(s: State, slug: string, endpoint: string, mesh: Option<CidrText>, expires: Option<nat>, h: nat,
                        b: nat)
    requires Inv(s) && Held(s, h, b)
    ensures Held(MintHubStep(s, slug, endpoint, mesh, expires), h, b)
  {
    hide Inv, Parse, MeshAccepted, SuggestMesh;
    HubBelow(s, h);
  }

  lemma HeldThroughInternal(s: State, slug: string, until: nat, h: nat, b: nat)
    requires Held(s, h, b)
    ensures Held(MintInternalStep(s, slug, until), h, b)
  {
  }

  lemma HeldThroughUpdate(s: State, hub: nat, endpoint: string, wgIp: Option<HostText>, mesh: Option<CidrText>,
                          routes: Option<seq<CidrText>>, h: nat, b: nat)
    requires Held(s, h, b)
    ensures Held(UpdateHubStep(s, hub, endpoint, wgIp, mesh, routes), h, b)
  {
  }

  lemma HeldThroughLink(s: State, pubkeys: seq<string>, ips: seq<HostText>, hostId: string, h: nat, b: nat)
    requires Held(s, h, b)
    ensures Held(LinkHostStep(s, pubkeys, ips, hostId), h, b)
  {
  }

  lemma HeldThroughRegister(s: State, input: RegisterInput, now: nat, h: nat, b: nat)
    requires Inv(s) && Held(s, h, b)
    ensures Held(RegisterStep(s, input, now).0, h, b)
  {
    hide Inv, BindHub, Allocate;
    if input.pubkey != "" && TokenObjection(s, input.secret, now).None? {
      var token := TokenBySecret(s, input.secret).value;
      var hub := s.tokens[token].hub.value;
      if LiveByPubkey(s, input.pubkey).None? && s.tokens[token].consumedBy.None? {
        HeldThroughBind(s, input, now, token, hub, h, b);
        HeldThroughAllocate(s, input, now, token, hub, h, b);
      }
    }
  }

  lemma HeldThroughBind(s: State, input: RegisterInput, now: nat, token: nat, hub: nat, h: nat, b: nat)
    requires Inv(s) && Held(s, h, b) && token in s.tokens && hub in s.hubs
    ensures Held(BindHub(s, input, now, token, hub).0, h, b)
  {
    hide Inv, HubSite;
    if hub == h {
      SlotHeldRefuses(s, h, input, now, token);
    } else {
      HubSiteResolves(s, hub, input.publicIp);
      DeviceBelow(s, b);
    }
  }

  lemma HeldThroughAllocate(s: State, input: RegisterInput, now: nat, token: nat, hub: nat, h: nat, b: nat)
    requires Inv(s) && Held(s, h, b) && token in s.tokens && hub in s.hubs
    ensures Held(Allocate(s, input, now, token, hub).0, h, b)
  {
    hide Inv, ResolveSite, FreeDIndex;
    ResolveSiteResolves(s, hub, input);
    DeviceBelow(s, b);
  }

  lemma DeviceBelow(s: State, b: nat)
    requires Inv(s) && b in s.devices
    ensures b < s.nextDevice
  {
    assert RowOk(s, b);
  }

  /** After a reset-bind, every later registration of a new pubkey with a hub token of this hub
      is refused and changes nothing, until a step retires the device that was bound. */
  lemma ResetBindNeedsRemoval(es: seq<Event>, more: seq<Event>, h: nat, b: nat, input: RegisterInput, now: nat, t: nat)
    requires h in Run(es).hubs && Run(es).hubs[h].bound == Some(b)
    requires forall k | 0 <= k < |more| :: !Retires(Run(es + [ResetBind(h)] + more[..k]), more[k], b)
    requires var s := Run(es + [ResetBind(h)] + more);
             TokenBySecret(s, input.secret) == Some(t) && s.tokens[t].role.HubRole? && s.tokens[t].hub == Some(h)
             && LiveByPubkey(s, input.pubkey).None?
    ensures var s := Run(es + [ResetBind(h)] + more);
            RegisterStep(s, input, now).0 == s && RegisterStep(s, input, now).1.Refused?
  {
    hide Run, Inv, Retires, Next;
    HeldFromReset(es, h, b);
    HeldThroughRun(es + [ResetBind(h)], more, h, b);
    var s := Run(es + [ResetBind(h)] + more);
    RunInv(es + [ResetBind(h)] + more);
    assert SlotTaken(s, h, 1);
    SlotHeldRefuses(s, h, input, now, t);
  }

  lemma HeldFromReset(es: seq<Event>, h: nat, b: nat)
    requires h in Run(es).hubs && Run(es).hubs[h].bound == Some(b)
    ensures Held(Run(es + [ResetBind(h)]), h, b)
  {
    hide Inv, Next, Held;
    RunInv(es);
    ClearedIsHeld(Run(es), h);
    assert (es + [ResetBind(h)])[..|es|] == es;
    assert Run(es + [ResetBind(h)]) == ClearBind(Run(es), h) by {
      ResetClears(Run(es), h);
    }
  }

  lemma ClearedIsHeld(s: State, h: nat)
    requires Inv(s) && h in s.hubs && s.hubs[h].bound.Some?
    ensures Held(ClearBind(s, h), h, s.hubs[h].bound.value)
  {
    hide Inv;
    BoundHolds(s, h);
  }

  lemma BoundHolds(s: State, h: nat)
    requires Inv(s) && h in s.hubs && s.hubs[h].bound.Some?
    ensures BoundTo(s, h, s.hubs[h].bound.value)
  {
    assert RowOk(s, h);
  }

  lemma ResetClears(s: State, h: nat)
    ensures Next(s, ResetBind(h)) == ClearBind(s, h)
  {
  }

  lemma {:induction false} HeldThroughRun(es: seq<Event>, more: seq<Event>, h: nat, b: nat)
    requires Held(Run(es), h, b)
    requires forall k | 0 <= k < |more| :: !Retires(Run(es + more[..k]), more[k], b)
    ensures Held(Run(es + more), h, b)
  {
    hide Held, Retires, Inv, Next;
    if more == [] {
      assert es + more == es;
    } else {
      var last := |more| - 1;
      forall k | 0 <= k < last ensures !Retires(Run(es + more[..last][..k]), more[..last][k], b) {
        assert more[..last][..k] == more[..k];
      }
      HeldThroughRun(es, more[..last], h, b);
      RunInv(es + more[..last]);
      HeldUntilRetired(Run(es + more[..last]), more[last], h, b);
      assert (es + more)[..|es + more| - 1] == es + more[..last];
    }
  }

  // ---- first bind ----

  ghost predicate ColonFree(s: State) {
    forall h | h in s.hubs :: ':' !in s.hubs[h].slug
  }

  /** With colon-free hub slugs no other hub's site can carry a hub site's slug, so an unbound
      hub whose slot 1 is free can always be bound. */
  lemma ColonFreeHubBinds(s: State, input: RegisterInput, now: nat, token: nat, hub: nat)
    requires Inv(s) && Addressed(s) && AllWide(s) && ColonFree(s) && token in s.tokens && hub in s.hubs
    requires LiveByPubkey(s, input.pubkey).None? && s.hubs[hub].bound.None? && !SlotTaken(s, hub, 1)
    ensures BindHub(s, input, now, token, hub).1.Registered?
  {
    var slug := s.hubs[hub].slug + ":hub";
    forall i | i in s.sites && s.sites[i].slug == slug ensures s.sites[i].hub == hub {
      assert RowOk(s, i);
      var g := s.hubs[s.sites[i].hub].slug;
      var rest := slug[|g| + 1..];
      assert slug == g + ":" + rest;
      assert slug == s.hubs[hub].slug + ":" + "hub";
      CutUnique(g, s.hubs[hub].slug, rest, "hub", ':');
      assert Apart(s, s.sites[i].hub, hub);
    }
    BindGrantedIff(s, input, now, token, hub);
  }

  /** Without colon-free slugs a bind is refused for as long as another hub's site stands in its
      way: the one that hub "a" opened for the site slug "b:hub" is the one hub "a:b" needs. */
  lemma ColonSlugsClash(s: State, input: RegisterInput, now: nat, token: nat, a: nat, ab: nat, site: nat)
    requires Inv(s) && token in s.tokens && a in s.hubs && ab in s.hubs && site in s.sites
    requires s.hubs[a].slug == "a" && s.hubs[ab].slug == "a:b" && s.hubs[ab].bound.None?
    requires s.sites[site].hub == a && s.sites[site].slug == "a" + ":" + "b:hub"
    ensures BindHub(s, input, now, token, ab) == (s, Refused(UniqueViolation))
  {
    assert "a" + ":" + "b:hub" == "a:b" + ":hub";
    HubSiteIff(s, ab, input.publicIp);
    assert a != ab;
  }
}
