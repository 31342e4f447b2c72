/** What every step keeps: the invariant of the database over all runs. */
module Invariants {
  import opened Text
  import opened Cidr
  import opened Model
  import opened Queries
  import opened Steps

  /** Device d holds the binding of hub h: it is live, belongs to h, owns h's pubkey and sits in
      slot 1. */
  ghost predicate BoundTo(s: State, h: nat, d: nat)
    requires h in s.hubs
  {
    d in s.devices && s.devices[d].Live() && s.devices[d].hub == h
    && s.devices[d].pubkey == s.hubs[h].pubkey && s.devices[d].dIndex == 1
  }

  /** Only the literal default route denotes the /0 network. */
  ghost predicate RouteOk(r: CidrText) {
    r == DEFAULT_ROUTE || (Parse(r).Some? && Parse(r).value.len > 0)
  }

  /** A hub's mesh parses; it has a pubkey iff a device is bound to it. */
  ghost predicate HubOk(s: State, i: nat) {
    i in s.hubs ==>
      && 0 < i < s.nextHub && s.hubs[i].id == i && s.hubs[i].slug != ""
      && Parse(s.hubs[i].mesh).Some?
      && (s.hubs[i].Configured() <==> s.hubs[i].bound.Some?)
      && (s.hubs[i].bound.Some? ==> BoundTo(s, i, s.hubs[i].bound.value))
      && (forall r | r in s.hubs[i].routes :: RouteOk(r))
  }

  /** A site's slug starts with its hub's, and index 0 is the hub site's. */
  ghost predicate SiteOk(s: State, i: nat) {
    i in s.sites ==>
      && i < s.nextSite && s.sites[i].hub in s.hubs && s.sites[i].sIndex <= 254
      && s.hubs[s.sites[i].hub].slug + ":" <= s.sites[i].slug
      && (s.sites[i].sIndex == 0 ==> s.sites[i].slug == s.hubs[s.sites[i].hub].slug + ":hub")
  }

  ghost predicate TokenOk(s: State, i: nat) {
    i in s.tokens ==>
      && i < s.nextToken && s.tokens[i].secret < s.nextSecret
      && (s.tokens[i].hub.Some? ==> s.tokens[i].hub.value in s.hubs)
      && (s.tokens[i].consumedBy.Some? ==> s.tokens[i].consumedBy.value < s.nextDevice)
  }

  /** A device's site is its hub's, and slot 1 is the hub site's. */
  ghost predicate DeviceOk(s: State, i: nat) {
    i in s.devices ==>
      var d := s.devices[i];
      && i < s.nextDevice && d.id == i && d.secret < s.nextSecret
      && d.pubkey != "" && 1 <= d.dIndex <= 254
      && d.hub in s.hubs && d.site in s.sites && s.sites[d.site].hub == d.hub
      && (d.dIndex == 1 ==> s.sites[d.site].slug == s.hubs[d.hub].slug + ":hub")
      && (d.egress.Some? ==> d.egress.value in s.hubs)
  }

  ghost predicate LinkOk(s: State, i: nat) {
    i in s.links ==> i < s.nextLink && s.links[i].a < s.links[i].b && s.links[i].a in s.hubs && s.links[i].b in s.hubs
  }

  ghost predicate RowOk(s: State, i: nat) {
    HubOk(s, i) && SiteOk(s, i) && TokenOk(s, i) && DeviceOk(s, i) && LinkOk(s, i)
  }

  /** No two hubs share a slug or overlap. */
  ghost predicate HubsApart(hubs: map<nat, Hub>, i: nat, j: nat) {
    i in hubs && j in hubs && i != j ==>
      && hubs[i].slug != hubs[j].slug
      && (Parse(hubs[i].mesh).Some? && Parse(hubs[j].mesh).Some? ==>
            !Overlaps(Parse(hubs[i].mesh).value, Parse(hubs[j].mesh).value))
  }

  ghost predicate SitesApart(sites: map<nat, Site>, i: nat, j: nat) {
    i in sites && j in sites && i != j ==>
      sites[i].slug != sites[j].slug && (sites[i].hub != sites[j].hub || sites[i].sIndex != sites[j].sIndex)
  }

  /** No secret is shared between tokens, and no device consumed two of them. */
  ghost predicate TokensApart(tokens: map<nat, Token>, i: nat, j: nat) {
    i in tokens && j in tokens && i != j ==>
      && tokens[i].secret != tokens[j].secret
      && (tokens[i].consumedBy.Some? ==> tokens[i].consumedBy != tokens[j].consumedBy)
  }

  /** Device rows never share a secret; live ones differ in address, in pubkey and, within a
      hub, in slot. */
  ghost predicate DevicesApart(devices: map<nat, Device>, i: nat, j: nat) {
    i in devices && j in devices && i != j ==>
      && devices[i].secret != devices[j].secret
      && (devices[i].Live() && devices[j].Live() ==>
            && devices[i].ip != devices[j].ip
            && devices[i].pubkey != devices[j].pubkey
            && (devices[i].hub != devices[j].hub || devices[i].dIndex != devices[j].dIndex))
  }

  /** A device that still holds its join token's secret is the one that consumed the token. */
  ghost predicate Owned(tokens: map<nat, Token>, devices: map<nat, Device>, t: nat, d: nat) {
    t in tokens && d in devices && tokens[t].secret == devices[d].secret ==> tokens[t].consumedBy == Some(d)
  }

  /** No pair of hubs is published twice. */
  ghost predicate LinksApart(links: map<nat, Link>, i: nat, j: nat) {
    i in links && j in links && i != j ==> links[i] != links[j]
  }

  ghost predicate Apart(s: State, i: nat, j: nat) {
    HubsApart(s.hubs, i, j) && SitesApart(s.sites, i, j) && TokensApart(s.tokens, i, j)
    && DevicesApart(s.devices, i, j) && Owned(s.tokens, s.devices, i, j) && LinksApart(s.links, i, j)
  }

  ghost predicate Inv(s: State) {
    s.nextHub > 0 && (forall i: nat :: RowOk(s, i)) && (forall i: nat, j: nat :: Apart(s, i, j))
  }

  // ---- steps on device fields that no key depends on ----

  /** s' differs from s at most in device fields that no key, reference or slot depends on. */
  ghost predicate Touched(s: State, s': State) {
    && s' == s.(devices := s'.devices, nextSecret := s'.nextSecret)
    && s'.nextSecret >= s.nextSecret
    && s'.devices.Keys == s.devices.Keys
    && forall i | i in s.devices :: SameRow(s, s.devices[i], s'.devices[i])
  }

  ghost predicate SameRow(s: State, d: Device, d': Device) {
    && d'.id == d.id && d'.hub == d.hub && d'.site == d.site && d'.dIndex == d.dIndex && d'.ip == d.ip
    && d'.pubkey == d.pubkey && d'.removed == d.removed
    && (d'.secret == d.secret || d'.secret >= s.nextSecret)
    && (d'.egress.Some? ==> d'.egress.value in s.hubs)
  }

  lemma TouchKeeps(s: State, s': State)
    requires Inv(s) && Touched(s, s')
    requires forall i | i in s.devices :: s'.devices[i].secret < s'.nextSecret
    requires forall i, j | i in s.devices && j in s.devices && i != j && s'.devices[i].secret >= s.nextSecret ::
               s'.devices[j].secret != s'.devices[i].secret
    ensures Inv(s')
  {
    forall i: nat ensures RowOk(s', i) {
      assert RowOk(s, i);
      assert i in s.devices ==> SameRow(s, s.devices[i], s'.devices[i]);
      if i in s.hubs && s.hubs[i].bound.Some? {
        var b := s.hubs[i].bound.value;
        assert SameRow(s, s.devices[b], s'.devices[b]);
      }
    }
    forall i: nat, j: nat ensures Apart(s', i, j) {
      assert Apart(s, i, j) && RowOk(s, i) && RowOk(s, j);
      assert i in s.devices ==> SameRow(s, s.devices[i], s'.devices[i]);
      assert j in s.devices ==> SameRow(s, s.devices[j], s'.devices[j]);
    }
  }

  lemma RotateKeeps(s: State, secret: nat, claimed: nat, now: nat, until: nat)
    requires Inv(s)
    ensures Inv(RotateStep(s, secret, claimed, now, until))
  {
    var b := Bearer(s, secret, claimed, now);
    if b.Some? {
      NewSecretKeeps(s, b.value, if s.devices[b.value].expires.Some? then Some(until) else None);
    }
  }

  lemma NewSecretKeeps(s: State, device: nat, expires: Option<nat>)
    requires Inv(s) && device in s.devices
    ensures var d := s.devices[device].(secret := s.nextSecret, expires := expires);
            Inv(SetDevice(s, device, d).(nextSecret := s.nextSecret + 1))
  {
    var d := s.devices[device].(secret := s.nextSecret, expires := expires);
    var s' := SetDevice(s, device, d).(nextSecret := s.nextSecret + 1);
    forall i | i in s.devices ensures SameRow(s, s.devices[i], s'.devices[i]) && s'.devices[i].secret < s'.nextSecret {
      assert RowOk(s, i);
    }
    forall i, j | i in s.devices && j in s.devices && i != j && s'.devices[i].secret >= s.nextSecret
      ensures s'.devices[j].secret != s'.devices[i].secret
    {
      assert RowOk(s, i) && RowOk(s, j);
    }
    TouchKeeps(s, s');
  }

  // ---- removing and unbinding ----

  lemma RemoveAllKeeps(s: State, victims: set<nat>)
    requires Inv(s)
    ensures Inv(RemoveAll(s, victims))
  {
    var s' := RemoveAll(s, victims);
    forall i: nat ensures RowOk(s', i) {
      assert RowOk(s, i);
    }
    forall i: nat, j: nat ensures Apart(s', i, j) {
      assert Apart(s, i, j);
    }
  }

  /** Under the invariant, removing one device and unbinding its own hub is the bulk removal. */
  lemma RemoveIsRemoveAll(s: State, device: nat)
    requires Inv(s) && device in s.devices
    ensures RemoveDevice(s, device) == RemoveAll(s, {device})
  {
    var s1, s2 := RemoveDevice(s, device), RemoveAll(s, {device});
    forall h | h in s.hubs ensures s1.hubs[h] == s2.hubs[h] {
      assert RowOk(s, h);
    }
    assert s1.hubs == s2.hubs;
    assert s1.devices == s2.devices;
  }

  lemma RemoveKeeps(s: State, device: nat)
    requires Inv(s) && device in s.devices
    ensures Inv(RemoveDevice(s, device))
  {
    RemoveIsRemoveAll(s, device);
    RemoveAllKeeps(s, {device});
  }

  lemma ClearBindKeeps(s: State, hub: nat)
    requires Inv(s)
    ensures Inv(ClearBind(s, hub))
  {
    var s' := ClearBind(s, hub);
    forall i: nat ensures RowOk(s', i) {
      assert RowOk(s, i);
    }
    forall i: nat, j: nat ensures Apart(s', i, j) {
      assert Apart(s, i, j);
    }
  }

  lemma RevokeKeeps(s: State, token: nat)
    requires Inv(s)
    ensures Inv(RevokeStep(s, token))
  {
    var s' := RevokeStep(s, token);
    forall i: nat ensures RowOk(s', i) {
      assert RowOk(s, i);
    }
    forall i: nat, j: nat ensures Apart(s', i, j) {
      assert Apart(s, i, j);
    }
  }

  // ---- new rows ----

  lemma AddTokenKeeps(s: State, role: Role, hub: nat, expires: Option<nat>)
    requires Inv(s) && hub in s.hubs
    ensures Inv(AddToken(s, role, hub, expires))
  {
    var s' := AddToken(s, role, hub, expires);
    forall i: nat ensures RowOk(s', i) {
      assert RowOk(s, i);
    }
    forall i: nat, j: nat ensures Apart(s', i, j) {
      assert Apart(s, i, j) && RowOk(s, i) && RowOk(s, j);
    }
  }

  /** The mint-time guard compares the new mesh with every other hub in the table. */
  lemma AcceptedApart(s: State, mesh: CidrText, self: nat, h: nat)
    requires Inv(s) && MeshAccepted(mesh, Hubs(s), self) && h in s.hubs && h != self
    ensures Parse(s.hubs[h].mesh).Some? && !Overlaps(Parse(mesh).value, Parse(s.hubs[h].mesh).value)
  {
    assert RowOk(s, h);
    assert s.hubs[h] in Hubs(s);
  }

  lemma AddHubKeeps(s: State, slug: string, endpoint: string, mesh: CidrText)
    requires Inv(s) && slug != "" && HubBySlug(s, slug).None? && MeshAccepted(mesh, Hubs(s), 0)
    ensures Inv(AddHub(s, slug, endpoint, mesh))
  {
    var s' := AddHub(s, slug, endpoint, mesh);
    forall h | h in s.hubs
      ensures s.hubs[h].slug != slug && Parse(s.hubs[h].mesh).Some?
              && !Overlaps(Parse(mesh).value, Parse(s.hubs[h].mesh).value)
    {
      assert RowOk(s, h);
      AcceptedApart(s, mesh, 0, h);
    }
    forall i: nat ensures RowOk(s', i) {
      assert RowOk(s, i) && RowOk(s, s.nextHub);
    }
    forall i: nat, j: nat ensures Apart(s', i, j) {
      assert Apart(s, i, j) && RowOk(s, s.nextHub);
    }
  }

  lemma MintHubKeeps(s: State, slug: string, endpoint: string, meshPref: Option<CidrText>, expires: Option<nat>)
    requires Inv(s)
    ensures Inv(MintHubStep(s, slug, endpoint, meshPref, expires))
  {
    var chosen := if meshPref.Some? then meshPref else SuggestMesh(s);
    if slug != "" && endpoint != "" && chosen.Some? && Parse(chosen.value).Some? {
      var existing := HubBySlug(s, slug);
      if existing.Some? {
        AddTokenKeeps(s, HubRole, existing.value, expires);
      } else if MeshAccepted(chosen.value, Hubs(s), 0) {
        AddHubKeeps(s, slug, endpoint, chosen.value);
        AddTokenKeeps(AddHub(s, slug, endpoint, chosen.value), HubRole, s.nextHub, expires);
      }
    }
  }

  /** The slug and index a new site of its hub may carry. */
  ghost predicate WellNamed(s: State, x: Site) {
    x.hub in s.hubs && s.hubs[x.hub].slug + ":" <= x.slug
    && (x.sIndex == 0 ==> x.slug == s.hubs[x.hub].slug + ":hub")
  }

  lemma InsertSiteKeeps(s: State, x: Site)
    requires Inv(s) && WellNamed(s, x) && InsertSite(s, x).SiteOk?
    ensures Inv(InsertSite(s, x).state)
  {
    var s' := InsertSite(s, x).state;
    forall i: nat ensures RowOk(s', i) {
      assert RowOk(s, i) && RowOk(s, s.nextSite);
    }
    forall i: nat, j: nat ensures Apart(s', i, j) {
      assert Apart(s, i, j) && RowOk(s, s.nextSite);
    }
  }

  /** A device row entered past the live-row indexes, with a fresh slot and an unconsumed join
      token of its own, breaks nothing. */
  lemma AddDeviceKeeps(s: State, d: Device, token: nat)
    requires Inv(s) && token in s.tokens && s.tokens[token].consumedBy.None? && d.secret == s.tokens[token].secret
    requires d.id == s.nextDevice && d.Live() && d.egress.None? && d.pubkey != "" && 1 <= d.dIndex <= 254
    requires d.hub in s.hubs && d.site in s.sites && s.sites[d.site].hub == d.hub
    requires d.dIndex == 1 ==> s.sites[d.site].slug == s.hubs[d.hub].slug + ":hub"
    requires !InsertCollides(s, d)
    requires forall i | i in s.devices && s.devices[i].Live() && s.devices[i].hub == d.hub ::
             s.devices[i].dIndex != d.dIndex
    ensures Inv(AddDevice(s, d, token))
  {
    var s' := AddDevice(s, d, token);
    forall i: nat ensures RowOk(s', i) {
      assert RowOk(s, i) && RowOk(s, s.nextDevice) && RowOk(s, token);
    }
    forall i: nat, j: nat ensures Apart(s', i, j) {
      assert Apart(s, i, j) && RowOk(s, s.nextDevice) && RowOk(s, i) && RowOk(s, j);
      assert Apart(s, i, token) && Apart(s, token, j) && Apart(s, token, i) && Apart(s, j, token);
    }
  }

  lemma BindKeeps(s: State, hub: nat, pubkey: string, observed: string, device: nat)
    requires Inv(s) && hub in s.hubs && device in s.devices
    requires s.devices[device].Live() && s.devices[device].hub == hub && s.devices[device].pubkey == pubkey
             && s.devices[device].dIndex == 1
    ensures Inv(Bind(s, hub, pubkey, observed, device))
  {
    var s' := Bind(s, hub, pubkey, observed, device);
    forall i: nat ensures RowOk(s', i) {
      assert RowOk(s, i) && RowOk(s, device);
    }
    forall i: nat, j: nat ensures Apart(s', i, j) {
      assert Apart(s, i, j);
    }
  }

  // ---- registering ----

  /** A resolved site lies in its hub, and resolving it changed the sites table only. */
  ghost predicate SiteResolved(s: State, r: SiteResult, hub: nat) {
    r.SiteOk? ==>
      && r.state == s.(sites := r.state.sites, nextSite := r.state.nextSite)
      && Inv(r.state) && r.site in r.state.sites && r.state.sites[r.site].hub == hub
      && (forall i | i in s.sites :: i in r.state.sites && r.state.sites[i] == s.sites[i])
      && (forall i | i in r.state.sites && i !in s.sites :: i >= s.nextSite)
  }

  lemma InsertSiteResolves(s: State, x: Site)
    requires Inv(s) && WellNamed(s, x)
    ensures SiteResolved(s, InsertSite(s, x), x.hub)
  {
    if InsertSite(s, x).SiteOk? {
      InsertSiteKeeps(s, x);
      forall i | i in s.sites ensures i != s.nextSite {
        assert RowOk(s, i);
      }
    }
  }

  lemma HubSiteResolves(s: State, hub: nat, publicIp: string)
    requires Inv(s) && hub in s.hubs
    ensures SiteResolved(s, HubSite(s, hub, publicIp), hub)
    ensures var r := HubSite(s, hub, publicIp); r.SiteOk? ==> r.state.sites[r.site].slug == s.hubs[hub].slug + ":hub"
  {
    PrefixOf(s.hubs[hub].slug, "hub");
    InsertSiteResolves(s, Site(hub, s.hubs[hub].slug + ":hub", 0, publicIp, ""));
  }

  lemma PrefixOf(hubSlug: string, rest: string)
    ensures hubSlug + ":" <= hubSlug + ":" + rest && hubSlug + (":" + rest) == hubSlug + ":" + rest
  {
  }

  lemma CreateSiteResolves(s: State, hub: nat, slug: string, publicIp: string, lan: string)
    requires Inv(s) && hub in s.hubs && (slug == "" || s.hubs[hub].slug + ":" <= slug)
    ensures SiteResolved(s, CreateSite(s, hub, slug, publicIp, lan), hub)
  {
    var index := FreeSIndex(s, hub);
    if index.Some? {
      var named := if slug == "" then s.hubs[hub].slug + ":site_" + Dec(index.value) else slug;
      PrefixOf(s.hubs[hub].slug, "site_" + Dec(index.value));
      assert s.hubs[hub].slug + ":site_" + Dec(index.value) == s.hubs[hub].slug + ":" + ("site_" + Dec(index.value));
      InsertSiteResolves(s, Site(hub, named, index.value, publicIp, lan));
    }
  }

  lemma ResolveSiteResolves(s: State, hub: nat, input: RegisterInput)
    requires Inv(s) && hub in s.hubs
    ensures SiteResolved(s, ResolveSite(s, hub, input), hub)
  {
    PrefixOf(s.hubs[hub].slug, input.siteSlug);
    CreateSiteResolves(s, hub, s.hubs[hub].slug + ":" + input.siteSlug, input.publicIp, input.lan);
    CreateSiteResolves(s, hub, "", input.publicIp, input.lan);
  }

  /** Slot 1 of a hub is guarded by the (site, d_index) index, because it is the hub site's. */
  lemma SlotOneGuarded(s: State, d: Device)
    requires Inv(s) && d.dIndex == 1 && !InsertCollides(s, d)
    requires d.hub in s.hubs && d.site in s.sites && s.sites[d.site].slug == s.hubs[d.hub].slug + ":hub"
    ensures forall i | i in s.devices && s.devices[i].Live() && s.devices[i].hub == d.hub :: s.devices[i].dIndex != 1
  {
    forall i | i in s.devices && s.devices[i].Live() && s.devices[i].hub == d.hub ensures s.devices[i].dIndex != 1 {
      assert RowOk(s, i) && Apart(s, s.devices[i].site, d.site);
    }
  }

  lemma FreeSlotUnused(s: State, hub: nat, slot: nat)
    requires Inv(s) && slot !in UsedDIndexes(s, hub)
    ensures forall i | i in s.devices && s.devices[i].Live() && s.devices[i].hub == hub :: s.devices[i].dIndex != slot
  {
    forall i | i in s.devices && s.devices[i].Live() && s.devices[i].hub == hub ensures s.devices[i].dIndex != slot {
      assert RowOk(s, i);
    }
  }

  lemma BindHubKeeps(s: State, input: RegisterInput, now: nat, token: nat, hub: nat)
    requires Inv(s) && token in s.tokens && hub in s.hubs && input.pubkey != ""
    requires s.tokens[token].consumedBy.None? && s.tokens[token].secret == input.secret
    ensures Inv(BindHub(s, input, now, token, hub).0)
  {
    HubSiteResolves(s, hub, input.publicIp);
    var r := HubSite(s, hub, input.publicIp);
    if s.hubs[hub].bound.None? && r.SiteOk? {
      var d := NewDevice(r.state, input, now, token, hub, r.site, 1, s.hubs[hub].wgIp, false);
      if !InsertCollides(r.state, d) {
        SlotOneGuarded(r.state, d);
        AddDeviceKeeps(r.state, d, token);
        BindKeeps(AddDevice(r.state, d, token), hub, input.pubkey, input.observed, d.id);
      }
    }
  }

  lemma AllocateKeeps(s: State, input: RegisterInput, now: nat, token: nat, hub: nat)
    requires Inv(s) && token in s.tokens && hub in s.hubs && input.pubkey != ""
    requires s.tokens[token].consumedBy.None? && s.tokens[token].secret == input.secret
    ensures Inv(Allocate(s, input, now, token, hub).0)
  {
    ResolveSiteResolves(s, hub, input);
    var r := ResolveSite(s, hub, input);
    if r.SiteOk? && Parse(s.hubs[hub].mesh).Some? {
      var dIndex := FreeDIndex(r.state, hub);
      if dIndex.Some? {
        var ip := Bare(DeviceIP(Parse(s.hubs[hub].mesh).value.net, dIndex.value));
        var d := NewDevice(r.state, input, now, token, hub, r.site, dIndex.value, ip, input.isolated);
        if !InsertCollides(r.state, d) {
          FreeSlotUnused(r.state, hub, dIndex.value);
          AddDeviceKeeps(r.state, d, token);
        }
      }
    }
  }

  lemma RefreshKeeps(s: State, input: RegisterInput, device: nat)
    requires Inv(s) && device in s.devices
    ensures Inv(Refresh(s, input, device))
  {
    forall i | i in s.devices ensures SameRow(s, s.devices[i], s.devices[i]) && s.devices[i].secret < s.nextSecret {
      assert RowOk(s, i);
    }
    TouchKeeps(s, Refresh(s, input, device));
  }

  lemma RegisterKeeps(s: State, input: RegisterInput, now: nat)
    requires Inv(s)
    ensures Inv(RegisterStep(s, input, now).0)
  {
    if input.pubkey != "" && TokenObjection(s, input.secret, now).None? {
      var token := TokenBySecret(s, input.secret).value;
      var hub := s.tokens[token].hub.value;
      var existing := LiveByPubkey(s, input.pubkey);
      if existing.Some? {
        RefreshKeeps(s, input, existing.value);
      } else if s.tokens[token].consumedBy.None? {
        BindHubKeeps(s, input, now, token, hub);
        AllocateKeeps(s, input, now, token, hub);
      }
    }
  }

  /** What a registration that enters a row leaves behind: one new live device carrying the
      presented secret, its token consumed by it, and every other device and token untouched. */
  ghost predicate Entered(s: State, s': State, input: RegisterInput, t: nat) {
    && t in s.tokens && s.tokens[t].consumedBy.None?
    && s.nextDevice in s'.devices
    && s'.devices == s.devices[s.nextDevice := s'.devices[s.nextDevice]]
    && s'.tokens == s.tokens[t := s.tokens[t].(consumedBy := Some(s.nextDevice))]
    && s'.links == s.links && s'.nextSecret == s.nextSecret && s'.nextDevice == s.nextDevice + 1
    && (var d := s'.devices[s.nextDevice];
        d.Live() && d.secret == input.secret && d.pubkey == input.pubkey && Some(d.hub) == s.tokens[t].hub)
  }

  lemma BindHubEnters(s: State, input: RegisterInput, now: nat, token: nat, hub: nat)
    requires Inv(s) && token in s.tokens && hub in s.hubs && s.tokens[token].hub == Some(hub)
             && s.tokens[token].consumedBy.None?
    ensures var (s', o) := BindHub(s, input, now, token, hub);
            (o.Refused? && s' == s) || (o == Registered(s.nextDevice, HubRole) && Entered(s, s', input, token))
  {
    HubSiteResolves(s, hub, input.publicIp);
  }

  lemma AllocateEnters(s: State, input: RegisterInput, now: nat, token: nat, hub: nat)
    requires Inv(s) && token in s.tokens && hub in s.hubs && s.tokens[token].hub == Some(hub)
             && s.tokens[token].consumedBy.None?
    ensures var (s', o) := Allocate(s, input, now, token, hub);
            (o.Refused? && s' == s)
            || (o == Registered(s.nextDevice, DeviceRole) && Entered(s, s', input, token) && s'.hubs == s.hubs)
  {
    ResolveSiteResolves(s, hub, input);
  }

  /** A registration is refused and changes nothing, or refreshes the live device that already
      holds this pubkey and secret, or enters one new row with an unspent, unrevoked token. */
  lemma RegisterCases(s: State, input: RegisterInput, now: nat)
    requires Inv(s)
    ensures var (s', o) := RegisterStep(s, input, now);
            || (o.Refused? && s' == s)
            || (o.Registered? && o.device in s.devices && s.devices[o.device].Live()
                && s.devices[o.device].secret == input.secret
                && s.devices[o.device].pubkey == input.pubkey && s' == Refresh(s, input, o.device))
            || (o.Registered? && o.device == s.nextDevice && TokenBySecret(s, input.secret).Some?
                && !s.tokens[TokenBySecret(s, input.secret).value].revoked
                && Entered(s, s', input, TokenBySecret(s, input.secret).value))
  {
    if input.pubkey != "" && TokenObjection(s, input.secret, now).None? {
      var token := TokenBySecret(s, input.secret).value;
      var hub := s.tokens[token].hub.value;
      if LiveByPubkey(s, input.pubkey).None? && s.tokens[token].consumedBy.None? {
        BindHubEnters(s, input, now, token, hub);
        AllocateEnters(s, input, now, token, hub);
      }
    }
  }

  // ---- the remaining steps ----

  lemma HeartbeatKeeps(s: State, secret: nat, claimed: nat, now: nat, lan: Option<string>)
    requires Inv(s)
    ensures Inv(HeartbeatStep(s, secret, claimed, now, lan))
  {
    hide Bearer;
    forall i | i in s.devices ensures SameRow(s, s.devices[i], s.devices[i]) && s.devices[i].secret < s.nextSecret {
      assert RowOk(s, i);
    }
    TouchKeeps(s, HeartbeatStep(s, secret, claimed, now, lan));
  }

  lemma SetEgressKeeps(s: State, device: nat, egress: Option<nat>)
    requires Inv(s)
    ensures Inv(SetEgressStep(s, device, egress))
  {
    hide SubnetRoutes;
    forall i | i in s.devices ensures SameRow(s, s.devices[i], s.devices[i]) && s.devices[i].secret < s.nextSecret {
      assert RowOk(s, i);
    }
    TouchKeeps(s, SetEgressStep(s, device, egress));
  }

  lemma LinkHostKeeps(s: State, pubkeys: seq<string>, ips: seq<HostText>, hostId: string)
    requires Inv(s)
    ensures Inv(LinkHostStep(s, pubkeys, ips, hostId))
  {
    forall i | i in s.devices ensures SameRow(s, s.devices[i], s.devices[i]) && s.devices[i].secret < s.nextSecret {
      assert RowOk(s, i);
    }
    var s' := LinkHostStep(s, pubkeys, ips, hostId);
    assert s'.devices.Keys == s.devices.Keys;
    TouchKeeps(s, s');
  }

  /** A list that passed validateAdvertisedRoutes against at least one parseable mesh names the
      /0 network by its literal only. */
  lemma AcceptedRoutesOk(routes: seq<CidrText>, hubs: seq<Hub>, h: Hub)
    requires RoutesAccepted(routes, hubs) && h in hubs && Parse(h.mesh).Some?
    ensures forall r | r in routes :: RouteOk(r)
  {
    forall r | r in routes ensures RouteOk(r) {
      if r != DEFAULT_ROUTE {
        var p, m := Parse(r).value, Parse(h.mesh).value;
        assert !Overlaps(p, m);
        if p.len == 0 {
          AllContain(p, m.net);
        }
      }
    }
  }

  lemma UpdateHubKeeps(s: State, hub: nat, endpoint: string, wgIp: Option<HostText>, mesh: Option<CidrText>,
                       routes: Option<seq<CidrText>>)
    requires Inv(s)
    ensures Inv(UpdateHubStep(s, hub, endpoint, wgIp, mesh, routes))
  {
    var s' := UpdateHubStep(s, hub, endpoint, wgIp, mesh, routes);
    if s' != s {
      assert RowOk(s, hub);
      assert s.hubs[hub] in Hubs(s);
      if routes.Some? {
        AcceptedRoutesOk(routes.value, Hubs(s), s.hubs[hub]);
      }
      forall i: nat ensures RowOk(s', i) {
        assert RowOk(s, i);
      }
      forall i: nat, j: nat ensures Apart(s', i, j) {
        assert Apart(s, i, j);
        if mesh.Some? && i in s.hubs && j in s.hubs && i != j {
          AcceptedApart(s, mesh.value, hub, if i == hub then j else if j == hub then i else i);
        }
      }
    }
  }

  lemma DeleteHubKeeps(s: State, hub: nat)
    requires Inv(s)
    ensures Inv(DeleteHubStep(s, hub))
  {
    var s' := DeleteHubStep(s, hub);
    if s' != s {
      forall i: nat ensures RowOk(s', i) {
        assert RowOk(s, i);
      }
      forall i: nat, j: nat ensures Apart(s', i, j) {
        assert Apart(s, i, j);
      }
    }
  }

  lemma PublishKeeps(s: State, a: nat, b: nat)
    requires Inv(s)
    ensures Inv(PublishStep(s, a, b))
  {
    var s1 := PublishStep(s, a, b);
    forall i: nat ensures RowOk(s1, i) {
      assert RowOk(s, i);
    }
    forall i: nat, j: nat ensures Apart(s1, i, j) {
      assert Apart(s, i, j);
    }
  }

  lemma UnpublishKeeps(s: State, link: nat)
    requires Inv(s)
    ensures Inv(UnpublishStep(s, link))
  {
    var s1 := UnpublishStep(s, link);
    forall i: nat ensures RowOk(s1, i) {
      assert RowOk(s, i);
    }
    forall i: nat, j: nat ensures Apart(s1, i, j) {
      assert Apart(s, i, j);
    }
  }

  lemma NextKeeps(s: State, e: Event)
    requires Inv(s)
    ensures Inv(Next(s, e))
  {
    hide Inv, MintHubStep, RegisterStep, HeartbeatStep, RotateStep, UpdateHubStep, DeleteHubStep, PublishStep,
      UnpublishStep, SetEgressStep, LinkHostStep, RevokeStep, ClearBind, RemoveDevice, RemoveAll;
    match e
    case MintHub(slug, endpoint, mesh, expires) => MintHubKeeps(s, slug, endpoint, mesh, expires);
    case MintDevice(hub, expires) => if hub in s.hubs { AddTokenKeeps(s, DeviceRole, hub, expires); }
    case MintInternal(slug, until) =>
      var hub := HubBySlug(s, slug);
      if hub.Some? { AddTokenKeeps(s, DeviceRole, hub.value, Some(until)); }
    case Register(input, now) => RegisterKeeps(s, input, now);
    case Heartbeat(secret, claimed, now, lan) => HeartbeatKeeps(s, secret, claimed, now, lan);
    case Rotate(secret, claimed, now, until) => RotateKeeps(s, secret, claimed, now, until);
    case Leave(secret, claimed, now) =>
      var b := Bearer(s, secret, claimed, now);
      if b.Some? { RemoveKeeps(s, b.value); }
    case Remove(device) => if device in s.devices { RemoveKeeps(s, device); }
    case Release(token) =>
      if token in s.tokens {
        var c := s.tokens[token].consumedBy;
        if c.Some? && c.value in s.devices && s.devices[c.value].Live() {
          RemoveKeeps(s, c.value);
          RevokeKeeps(RemoveDevice(s, c.value), token);
        } else {
          RevokeKeeps(s, token);
        }
      }
    case Sweep(cutoff) => RemoveAllKeeps(s, Victims(s, cutoff));
    case Revoke(token) => RevokeKeeps(s, token);
    case ResetBind(hub) => ClearBindKeeps(s, hub);
    case UpdateHub(hub, endpoint, wgIp, mesh, routes) => UpdateHubKeeps(s, hub, endpoint, wgIp, mesh, routes);
    case DeleteHub(hub) => DeleteHubKeeps(s, hub);
    case Publish(a, b) => PublishKeeps(s, a, b);
    case Unpublish(link) => UnpublishKeeps(s, link);
    case SetEgress(device, egress) => SetEgressKeeps(s, device, egress);
    case LinkHost(pubkeys, ips, hostId) => LinkHostKeeps(s, pubkeys, ips, hostId);
  }

  /** The invariant holds after every run. */
  lemma {:induction false} RunInv(es: seq<Event>)
    ensures Inv(Run(es))
  {
    if es == [] {
      forall i: nat ensures RowOk(INITIAL, i) {}
      forall i: nat, j: nat ensures Apart(INITIAL, i, j) {}
    } else {
      RunInv(es[..|es| - 1]);
      NextKeeps(Run(es[..|es| - 1]), es[|es| - 1]);
    }
  }

  // ---- what the invariant says of every run ----

  /** After every run a hub has a pubkey iff a device is bound to it, and that device is live,
      belongs to the hub, owns the pubkey and sits in slot 1 of the hub's own site. */
  lemma HubBindingAlways(es: seq<Event>, h: nat)
    requires h in Run(es).hubs
    ensures var s := Run(es);
            && (s.hubs[h].pubkey != "" <==> s.hubs[h].bound.Some?)
            && (s.hubs[h].bound.Some? ==>
                  var b := s.hubs[h].bound.value;
                  && b in s.devices && s.devices[b].Live() && s.devices[b].hub == h
                  && s.devices[b].pubkey == s.hubs[h].pubkey && s.devices[b].dIndex == 1
                  && s.devices[b].site in s.sites && s.sites[s.devices[b].site].slug == s.hubs[h].slug + ":hub")
  {
    RunInv(es);
    assert RowOk(Run(es), h);
    if Run(es).hubs[h].bound.Some? {
      assert RowOk(Run(es), Run(es).hubs[h].bound.value);
    }
  }

  /** After every run, edits included, no address lies in the meshes of two hubs. */
  lemma MeshesAlwaysDisjoint(es: seq<Event>, g: nat, h: nat, a: Addr)
    requires g in Run(es).hubs && h in Run(es).hubs && g != h
    ensures var p, q := Parse(Run(es).hubs[g].mesh), Parse(Run(es).hubs[h].mesh);
            p.Some? && q.Some? && !(Contains(p.value, a) && Contains(q.value, a))
  {
    RunInv(es);
    assert RowOk(Run(es), g) && RowOk(Run(es), h) && Apart(Run(es), g, h);
    OverlapsIffShared(Parse(Run(es).hubs[g].mesh).value, Parse(Run(es).hubs[h].mesh).value);
  }

  /** After every run, live devices differ in address, pubkey, secret and, within a hub, in
      slot. */
  lemma LiveDevicesAlwaysApart(es: seq<Event>, d: nat, e: nat)
    requires d in Run(es).devices && e in Run(es).devices && d != e && Run(es).devices[d].Live()
             && Run(es).devices[e].Live()
    ensures var x, y := Run(es).devices[d], Run(es).devices[e];
            x.ip != y.ip && x.pubkey != y.pubkey && x.secret != y.secret && (x.hub == y.hub ==> x.dIndex != y.dIndex)
  {
    RunInv(es);
    assert Apart(Run(es), d, e);
  }
}
