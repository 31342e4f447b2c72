/** The handlers as they run: one object holding the tables, changed row by row. Each method is
    proved to have exactly the effect of its step in module Steps, to keep the invariant, and to
    do for its caller what module Effects says. */
module Handlers {
  import opened Text
  import opened Cidr
  import opened Model
  import opened Queries
  import opened Steps
  import opened Invariants
  import opened Secrets
  import opened Admission
  import opened Reclaim
  import opened Effects

  /** validateMeshCIDRDisjoint: the loop over all hubs. */
  method ValidateMeshDisjoint(mesh: CidrText, all: seq<Hub>, self: nat) returns (ok: bool)
    ensures ok == MeshAccepted(mesh, all, self)
  {
    var n := Parse(mesh);
    if n.None? { return false; }
    for k := 0 to |all|
      invariant forall h | h in all[..k] && h.id != self && Parse(h.mesh).Some? ::
                !Overlaps(n.value, Parse(h.mesh).value)
    {
      var h := all[k];
      if h.id == self { continue; }
      var m := Parse(h.mesh);
      if m.None? { continue; }
      if Overlaps(n.value, m.value) { return false; }
    }
    assert all[..|all|] == all;
    return true;
  }

  /** validateAdvertisedRoutes: the two nested loops. */
  method ValidateAdvertisedRoutes(routes: seq<CidrText>, all: seq<Hub>) returns (ok: bool)
    ensures ok == RoutesAccepted(routes, all)
  {
    for k := 0 to |routes|
      invariant RoutesAccepted(routes[..k], all)
    {
      var r := routes[k];
      assert r in routes;
      if r == DEFAULT_ROUTE { continue; }
      var n := Parse(r);
      if n.None? { return false; }
      for j := 0 to |all|
        invariant forall h | h in all[..j] && Parse(h.mesh).Some? :: !Overlaps(n.value, Parse(h.mesh).value)
      {
        var m := Parse(all[j].mesh);
        if m.None? { continue; }
        if Overlaps(n.value, m.value) {
          assert all[j] in all;
          return false;
        }
      }
      assert all[..|all|] == all;
    }
    assert routes[..|routes|] == routes;
    return true;
  }

  /** subnetRoutes: the filtering loop. */
  method FilterSubnets(routes: seq<CidrText>) returns (out: seq<CidrText>)
    ensures out == SubnetRoutes(routes)
  {
    hide SubnetRoutes;
    out := [];
    NoSubnetRoutes();
    for k := 0 to |routes|
      invariant out + SubnetRoutes(routes[k..]) == SubnetRoutes(routes)
    {
      assert routes[k..] == [routes[k]] + routes[k + 1..];
      SubnetsFirst(routes[k], routes[k + 1..]);
      if routes[k] != DEFAULT_ROUTE {
        out := out + [routes[k]];
      }
    }
    assert routes[|routes|..] == [];
  }

  /** The members of a list. */
  function Elements<T(==)>(xs: seq<T>): set<T> {
    set x | x in xs
  }

  lemma ElementsOfPrefix<T>(xs: seq<T>, k: nat)
    requires k < |xs|
    ensures Elements(xs[..k + 1]) == Elements(xs[..k]) + {xs[k]}
  {
    assert xs[..k + 1] == xs[..k] + [xs[k]];
  }

  lemma EventKeeps(s: State, e: Event)
    ensures Inv(s) ==> Inv(Next(s, e))
  {
    hide Next, Inv;
    if Inv(s) {
      NextKeeps(s, e);
    }
  }

  class Plugin {
    var hubs: map<nat, Hub>
    var sites: map<nat, Site>
    var tokens: map<nat, Token>
    var devices: map<nat, Device>
    var links: map<nat, Link>
    var nextHub: nat
    var nextSite: nat
    var nextToken: nat
    var nextDevice: nat
    var nextLink: nat
    var nextSecret: nat

    function Snapshot(): State
      reads this
    {
      State(hubs, sites, tokens, devices, links, nextHub, nextSite, nextToken, nextDevice, nextLink, nextSecret)
    }

    constructor ()
      ensures Snapshot() == INITIAL
    {
      hubs, sites, tokens, devices, links := map[], map[], map[], map[], map[];
      nextHub, nextSite, nextToken, nextDevice, nextLink, nextSecret := 1, 1, 1, 1, 1, 1;
    }

    /** Rolls a transaction back. */
    method Restore(s: State)
      modifies this
      ensures Snapshot() == s
    {
      hubs, sites, tokens, devices, links := s.hubs, s.sites, s.tokens, s.devices, s.links;
      nextHub, nextSite, nextToken, nextDevice, nextLink, nextSecret :=
        s.nextHub, s.nextSite, s.nextToken, s.nextDevice, s.nextLink, s.nextSecret;
    }

    // ---- searches ----

    /** The scan of a slot search, once its used set is filled. */
    static method ScanFree(used: set<nat>, lo: nat, hi: nat) returns (r: Option<nat>)
      ensures r == LeastFree(used, lo, hi)
    {
      var v := lo;
      while v <= hi
        invariant LeastFree(used, v, hi) == LeastFree(used, lo, hi)
        decreases hi + 1 - v
      {
        if v !in used { return Some(v); }
        v := v + 1;
      }
      return None;
    }

    method PickFreeDIndex(hub: nat) returns (r: Option<nat>)
      ensures r == FreeDIndex(Snapshot(), hub)
    {
      var used: set<nat> := {};
      var rows := devices.Keys;
      while rows != {}
        invariant rows <= devices.Keys
        invariant used == set i | i in devices.Keys - rows && devices[i].Live() && devices[i].site in sites
                                  && sites[devices[i].site].hub == hub :: devices[i].dIndex
        decreases |rows|
      {
        var i :| i in rows;
        if devices[i].Live() && devices[i].site in sites && sites[devices[i].site].hub == hub {
          used := used + {devices[i].dIndex};
        }
        rows := rows - {i};
      }
      assert used == UsedDIndexes(Snapshot(), hub);
      r := ScanFree(used, 2, 254);
    }

    method PickFreeSIndexInHub(hub: nat) returns (r: Option<nat>)
      ensures r == FreeSIndex(Snapshot(), hub)
    {
      var used: set<nat> := {};
      var rows := sites.Keys;
      while rows != {}
        invariant rows <= sites.Keys
        invariant used == set i | i in sites.Keys - rows && sites[i].hub == hub :: sites[i].sIndex
        decreases |rows|
      {
        var i :| i in rows;
        if sites[i].hub == hub {
          used := used + {sites[i].sIndex};
        }
        rows := rows - {i};
      }
      assert used == UsedSIndexes(Snapshot(), hub);
      r := ScanFree(used, 1, 254);
    }

    method CollectMeshes() returns (used: set<CidrText>)
      ensures used == UsedMeshes(Snapshot())
    {
      used := {};
      var rows := hubs.Keys;
      while rows != {}
        invariant rows <= hubs.Keys
        invariant used == set i | i in hubs.Keys - rows :: hubs[i].mesh
        decreases |rows|
      {
        var i :| i in rows;
        used := used + {hubs[i].mesh};
        rows := rows - {i};
      }
    }

    /** suggestFreeMeshCIDR: octets x and y of 100.x.y.0/24 in order. */
    method SuggestFreeMeshCIDR() returns (r: Option<CidrText>)
      ensures r == SuggestMesh(Snapshot())
    {
      var used := CollectMeshes();
      for x := 64 to 128
        invariant FreeMeshFrom(used, 256 * (x - 64)) == FreeMeshFrom(used, 0)
      {
        for y := 0 to 256
          invariant FreeMeshFrom(used, 256 * (x - 64) + y) == FreeMeshFrom(used, 0)
        {
          var c := V4(0x64000000 + 0x10000 * x + 0x100 * y, 24, 0);
          assert c == MeshSlot(256 * (x - 64) + y);
          if c !in used { return Some(c); }
        }
      }
      return None;
    }

    // ---- minting ----

    method InsertToken(role: Role, hub: nat, expires: Option<nat>) returns (secret: nat)
      modifies this
      ensures secret == old(nextSecret) && nextSecret == secret + 1
      ensures Snapshot() == AddToken(old(Snapshot()), role, hub, expires)
    {
      secret := nextSecret;
      tokens := tokens[nextToken := Token(nextSecret, role, Some(hub), expires, None, false)];
      nextToken := nextToken + 1;
      nextSecret := nextSecret + 1;
    }

    /** createWGHub. */
    method InsertHub(slug: string, endpoint: string, mesh: CidrText) returns (hub: nat)
      requires Parse(mesh).Some?
      modifies this
      ensures hub == old(nextHub) && nextSecret == old(nextSecret)
      ensures Snapshot() == AddHub(old(Snapshot()), slug, endpoint, mesh)
    {
      hub := nextHub;
      hubs := hubs[hub := Hub(hub, slug, "", endpoint, Bare(DeviceIP(Parse(mesh).value.net, 1)), mesh, None, [])];
      nextHub := nextHub + 1;
    }

    /** The hub that a mint is for: an unbound one of that slug, minted with the same values, or a new
        one. */
    method FindOrCreateHub(slug: string, endpoint: string, mesh: CidrText) returns (hub: Option<nat>)
      requires Parse(mesh).Some?
      modifies this
      ensures nextSecret == old(nextSecret)
      ensures var s := old(Snapshot());
              var e := HubBySlug(s, slug);
              if e.Some? then
                && Snapshot() == s
                && hub == if s.hubs[e.value].bound.None? && s.hubs[e.value].endpoint == endpoint
                             && s.hubs[e.value].mesh == mesh then e else None
              else if MeshAccepted(mesh, Hubs(s), 0) then
                hub == Some(s.nextHub) && Snapshot() == AddHub(s, slug, endpoint, mesh)
              else hub == None && Snapshot() == s
    {
      hide Parse, MeshAccepted, AddHub, Hubs, HubBySlug;
      var existing := HubBySlug(Snapshot(), slug);
      if existing.Some? {
        if hubs[existing.value].bound.Some? { return None; }
        if hubs[existing.value].endpoint != endpoint || hubs[existing.value].mesh != mesh { return None; }
        return existing;
      }
      var ok := ValidateMeshDisjoint(mesh, Hubs(Snapshot()), 0);
      if !ok { return None; }
      var created := InsertHub(slug, endpoint, mesh);
      hub := Some(created);
    }

    method ChooseMesh(meshPref: Option<CidrText>) returns (mesh: Option<CidrText>)
      ensures mesh == Chosen(Snapshot(), meshPref)
    {
      if meshPref.Some? { return meshPref; }
      mesh := SuggestFreeMeshCIDR();
    }

    /** The step by cases of the hub it is for. */
    static lemma MintByHub(s: State, slug: string, endpoint: string, meshPref: Option<CidrText>, expires: Option<nat>)
      ensures var s' := MintHubStep(s, slug, endpoint, meshPref, expires);
              var mesh, e := Chosen(s, meshPref), HubBySlug(s, slug);
              if slug == "" || endpoint == "" || mesh.None? || Parse(mesh.value).None? then s' == s
              else if e.Some? then
                s' == if s.hubs[e.value].bound.None? && s.hubs[e.value].endpoint == endpoint
                         && s.hubs[e.value].mesh == mesh.value then AddToken(s, HubRole, e.value, expires) else s
              else if MeshAccepted(mesh.value, Hubs(s), 0) then
                s' == AddToken(AddHub(s, slug, endpoint, mesh.value), HubRole, s.nextHub, expires)
              else s' == s
    {
      hide HubBySlug, SuggestMesh, Parse, MeshAccepted, Hubs, AddHub, AddToken;
    }

    /** A secret is issued exactly when the mint is granted, and then binds the hub of that slug until
        it expires. */
    method CreateWGTokenForHub(slug: string, endpoint: string, meshPref: Option<CidrText>, expires: Option<nat>)
      returns (secret: Option<nat>)
      modifies this
      ensures secret.None? ==> Snapshot() == old(Snapshot())
      ensures Inv(old(Snapshot())) ==>
                (secret.Some? <==> HubMintGranted(old(Snapshot()), slug, endpoint, Chosen(old(Snapshot()), meshPref)))
      ensures Inv(old(Snapshot())) && secret.Some? ==>
                && Chosen(old(Snapshot()), meshPref).Some?
                && HubIssued(old(Snapshot()), Snapshot(), slug, endpoint, Chosen(old(Snapshot()), meshPref).value,
                             secret.value, expires)
      ensures Snapshot() == MintHubStep(old(Snapshot()), slug, endpoint, meshPref, expires)
      ensures Inv(old(Snapshot())) ==> Inv(Snapshot())
    {
      hide Inv, Parse, MeshAccepted, AddHub, AddToken, Hubs, HubBySlug, HubMintGranted, HubIssued, MintHubStep, Chosen;
      ghost var before := Snapshot();
      MintByHub(before, slug, endpoint, meshPref, expires);
      if Inv(before) {
        MintHubKeeps(before, slug, endpoint, meshPref, expires);
        HubMintIssues(before, slug, endpoint, meshPref, expires);
      }
      if slug == "" || endpoint == "" { return None; }
      var mesh := ChooseMesh(meshPref);
      if mesh.None? || Parse(mesh.value).None? { return None; }
      var hub := FindOrCreateHub(slug, endpoint, mesh.value);
      if hub.None? { return None; }
      var minted := InsertToken(HubRole, hub.value, expires);
      secret := Some(minted);
      assert Snapshot().nextSecret != before.nextSecret;
    }

    /** An unknown hub is refused. Otherwise the secret that is returned is new and registers
        devices with that hub until it expires. */
    method CreateWGTokenForDevice(hub: nat, expires: Option<nat>) returns (secret: Option<nat>)
      modifies this
      ensures secret.Some? <==> hub in old(hubs)
      ensures secret.None? ==> Snapshot() == old(Snapshot())
      ensures Snapshot() == MintDeviceStep(old(Snapshot()), hub, expires)
      ensures Inv(old(Snapshot())) ==> Inv(Snapshot())
      ensures Inv(old(Snapshot())) && secret.Some? ==>
                Minted(old(Snapshot()), Snapshot(), secret.value, DeviceRole, hub, expires)
    {
      hide Inv, Minted;
      ghost var before := Snapshot();
      EventKeeps(before, MintDevice(hub, expires));
      if hub !in hubs { return None; }
      if Inv(before) {
        AddTokenMints(before, DeviceRole, hub, expires);
      }
      var minted := InsertToken(DeviceRole, hub, expires);
      secret := Some(minted);
    }

    /** A secret is issued exactly when the slug names a hub that a device is bound to, and then
        for devices of that hub. */
    method MintInternalToken(slug: string, until: nat) returns (secret: Option<nat>)
      modifies this
      ensures secret.None? ==> Snapshot() == old(Snapshot())
      ensures Snapshot() == MintInternalStep(old(Snapshot()), slug, until)
      ensures Inv(old(Snapshot())) ==> Inv(Snapshot())
      ensures Inv(old(Snapshot())) ==>
                (secret.Some? <==> exists h :: h in old(hubs) && old(hubs)[h].slug == slug && old(hubs)[h].bound.Some?)
      ensures Inv(old(Snapshot())) && secret.Some? ==>
                forall h | h in old(hubs) && old(hubs)[h].slug == slug ::
                  Minted(old(Snapshot()), Snapshot(), secret.value, DeviceRole, h, Some(until))
    {
      hide Inv, Minted;
      ghost var before := Snapshot();
      if Inv(before) {
        ConfiguredBySlug(before, slug);
      }
      if slug == "" { return None; }
      var hub := HubBySlug(Snapshot(), slug);
      if hub.None? || !hubs[hub.value].Configured() { return None; }
      secret := CreateWGTokenForDevice(hub.value, Some(until));
    }

    // ---- registering ----

    method TryInsertSite(x: Site) returns (site: nat, error: Option<RegisterError>)
      modifies this
      ensures var r := InsertSite(old(Snapshot()), x);
              match r
              case SiteOk(s, i) => error == None && site == i && Snapshot() == s
              case SiteErr(e) => error == Some(e) && Snapshot() == old(Snapshot())
    {
      var clash := exists i | i in sites ::
        sites[i].slug == x.slug || (sites[i].hub == x.hub && sites[i].sIndex == x.sIndex);
      if x.sIndex > 254 || clash {
        return 0, Some(UniqueViolation);
      }
      site, error := nextSite, None;
      sites := sites[nextSite := x];
      nextSite := nextSite + 1;
    }

    method GetOrCreateHubSite(hub: nat, publicIp: string) returns (site: nat, error: Option<RegisterError>)
      requires hub in hubs
      modifies this
      ensures var r := HubSite(old(Snapshot()), hub, publicIp);
              match r
              case SiteOk(s, i) => error == None && site == i && Snapshot() == s
              case SiteErr(e) => error == Some(e) && Snapshot() == old(Snapshot())
    {
      var slug := hubs[hub].slug + ":hub";
      var found := SiteBySlugInHub(Snapshot(), hub, slug);
      if found.Some? { return found.value, None; }
      site, error := TryInsertSite(Site(hub, slug, 0, publicIp, ""));
    }

    method CreateSiteInHub(hub: nat, slug: string, publicIp: string, lan: string)
      returns (site: nat, error: Option<RegisterError>)
      requires hub in hubs
      modifies this
      ensures var r := CreateSite(old(Snapshot()), hub, slug, publicIp, lan);
              match r
              case SiteOk(s, i) => error == None && site == i && Snapshot() == s
              case SiteErr(e) => error == Some(e) && Snapshot() == old(Snapshot())
    {
      var index := PickFreeSIndexInHub(hub);
      if index.None? { return 0, Some(SiteSlotsExhausted); }
      var named := slug;
      if named == "" {
        named := hubs[hub].slug + ":site_" + Dec(index.value);
      }
      site, error := TryInsertSite(Site(hub, named, index.value, publicIp, lan));
    }

    method ResolveOrCreateWGSite(hub: nat, input: RegisterInput) returns (site: nat, error: Option<RegisterError>)
      requires hub in hubs
      modifies this
      ensures var r := ResolveSite(old(Snapshot()), hub, input);
              match r
              case SiteOk(s, i) => error == None && site == i && Snapshot() == s
              case SiteErr(e) => error == Some(e) && Snapshot() == old(Snapshot())
    {
      if input.siteSlug != "" {
        var full := hubs[hub].slug + ":" + input.siteSlug;
        var found := SiteBySlugInHub(Snapshot(), hub, full);
        if found.Some? { return found.value, None; }
        site, error := CreateSiteInHub(hub, full, input.publicIp, input.lan);
        return;
      }
      var found := SiteByAutoKey(Snapshot(), hub, input.publicIp, input.lan);
      if found.Some? { return found.value, None; }
      site, error := CreateSiteInHub(hub, "", input.publicIp, input.lan);
    }

    /** INSERT INTO wg_devices, then the token's UPDATE. */
    method TryInsertDevice(d: Device, token: nat) returns (ok: bool)
      requires token in tokens
      modifies this
      ensures ok == !InsertCollides(old(Snapshot()), d)
      ensures Snapshot() == if ok then AddDevice(old(Snapshot()), d, token) else old(Snapshot())
    {
      if InsertCollides(Snapshot(), d) { return false; }
      devices := devices[d.id := d];
      nextDevice := nextDevice + 1;
      tokens := tokens[token := tokens[token].(consumedBy := Some(d.id))];
      return true;
    }

    method BindHubDevice(input: RegisterInput, now: nat, token: nat, hub: nat) returns (o: Outcome)
      requires token in tokens && hub in hubs
      modifies this
      ensures Inv(old(Snapshot())) && old(tokens)[token].role.HubRole? && o.Registered? ==>
                Admitted(old(Snapshot()), Snapshot(), hub, token, input, now)
      ensures (Snapshot(), o) == BindHub(old(Snapshot()), input, now, token, hub)
    {
      hide Inv, Admitted;
      if Inv(Snapshot()) && tokens[token].role.HubRole? {
        BindAdmits(Snapshot(), input, now, token, hub);
      }
      if hubs[hub].bound.Some? { return Refused(HubAlreadyBound); }
      var saved := Snapshot();
      var site, error := GetOrCreateHubSite(hub, input.publicIp);
      if error.Some? { return Refused(error.value); }
      var d := NewDevice(Snapshot(), input, now, token, hub, site, 1, hubs[hub].wgIp, false);
      var ok := TryInsertDevice(d, token);
      if !ok {
        Restore(saved);
        return Refused(UniqueViolation);
      }
      var h := hubs[hub];
      hubs := hubs[hub := h.(pubkey := input.pubkey, bound := Some(d.id),
                             endpoint := if h.endpoint == "" then input.observed else h.endpoint)];
      return Registered(d.id, HubRole);
    }

    method AllocateDevice(input: RegisterInput, now: nat, token: nat, hub: nat) returns (o: Outcome)
      requires token in tokens && hub in hubs
      modifies this
      ensures Inv(old(Snapshot())) && old(tokens)[token].role.DeviceRole? && o.Registered? ==>
                Admitted(old(Snapshot()), Snapshot(), hub, token, input, now)
      ensures (Snapshot(), o) == Allocate(old(Snapshot()), input, now, token, hub)
    {
      hide Inv, Admitted;
      if Inv(Snapshot()) && tokens[token].role.DeviceRole? {
        AllocateAdmits(Snapshot(), input, now, token, hub);
      }
      if !hubs[hub].Configured() { return Refused(HubNotConfigured); }
      var mesh := Parse(hubs[hub].mesh);
      if mesh.None? { return Refused(BadMesh); }
      var saved := Snapshot();
      var site, error := ResolveOrCreateWGSite(hub, input);
      if error.Some? { return Refused(error.value); }
      var dIndex := PickFreeDIndex(hub);
      if dIndex.None? {
        Restore(saved);
        return Refused(SiteExhausted);
      }
      var d := NewDevice(Snapshot(), input, now, token, hub, site, dIndex.value,
                         Bare(DeviceIP(mesh.value.net, dIndex.value)), input.isolated);
      var ok := TryInsertDevice(d, token);
      if !ok {
        Restore(saved);
        return Refused(UniqueViolation);
      }
      return Registered(d.id, DeviceRole);
    }

    method RefreshExistingDevice(input: RegisterInput, device: nat)
      requires device in devices
      modifies this
      ensures Snapshot() == Refresh(old(Snapshot()), input, device)
    {
      var d := devices[device];
      devices := devices[device := d.(hostname := input.hostname, lanEndpoint := input.lanEndpoint,
                                      hostId := if input.hostId == "" then d.hostId else input.hostId)];
    }

    method DoAllocate(input: RegisterInput, now: nat) returns (o: Outcome)
      modifies this
      ensures Inv(old(Snapshot())) ==> Answered(old(Snapshot()), Snapshot(), o, input, now)
      ensures (Snapshot(), o) == RegisterStep(old(Snapshot()), input, now)
      ensures Inv(old(Snapshot())) ==> Inv(Snapshot())
    {
      hide Inv, Answered, Admitted;
      EventKeeps(Snapshot(), Register(input, now));
      if Inv(Snapshot()) {
        RegisterAnswers(Snapshot(), input, now);
      }
      if input.pubkey == "" || |input.pubkey| > 128 { return Refused(BadPubkey); }
      var t := TokenBySecret(Snapshot(), input.secret);
      if t.None? { return Refused(TokenInvalid); }
      var tok := tokens[t.value];
      if tok.expires.Some? && now > tok.expires.value { return Refused(TokenExpired); }
      if tok.revoked { return Refused(TokenRevoked); }
      if tok.hub.None? || tok.hub.value !in hubs { return Refused(TokenNoHub); }
      var hub := tok.hub.value;
      var existing := LiveByPubkey(Snapshot(), input.pubkey);
      if existing.Some? {
        if devices[existing.value].secret != input.secret { return Refused(PubkeyTaken); }
        RefreshExistingDevice(input, existing.value);
        return Registered(existing.value, if hubs[hub].bound == existing then HubRole else DeviceRole);
      }
      if tok.consumedBy.Some? { return Refused(TokenAlreadyBound); }
      if tok.role.HubRole? {
        o := BindHubDevice(input, now, t.value, hub);
      } else {
        o := AllocateDevice(input, now, t.value, hub);
      }
    }

    // ---- a registered device's own requests ----

    /** A device that reports is safe from every sweep whose cutoff is not later than now. */
    method HandleHeartbeat(secret: nat, claimed: nat, now: nat, lanEndpoint: Option<string>) returns (ok: bool)
      modifies this
      ensures ok == Bearer(old(Snapshot()), secret, claimed, now).Some?
      ensures if ok then Reported(old(Snapshot()), Snapshot(), claimed, now, lanEndpoint)
              else Snapshot() == old(Snapshot())
      ensures Snapshot() == HeartbeatStep(old(Snapshot()), secret, claimed, now, lanEndpoint)
      ensures Inv(old(Snapshot())) ==> Inv(Snapshot())
    {
      hide Inv, Reported;
      ghost var before := Snapshot();
      EventKeeps(before, Heartbeat(secret, claimed, now, lanEndpoint));
      var b := Bearer(Snapshot(), secret, claimed, now);
      if b.None? { return false; }
      HeartbeatReports(before, secret, claimed, now, lanEndpoint);
      devices := devices[b.value := devices[b.value].(lastSeen := Some(now))];
      if lanEndpoint.Some? {
        devices := devices[b.value := devices[b.value].(lanEndpoint := lanEndpoint.value)];
      }
      assert devices == HeartbeatStep(before, secret, claimed, now, lanEndpoint).devices;
      return true;
    }

    /** The bearer gets a new secret, to which it alone answers from now on; the old one is dead. */
    method HandleTokenRefresh(secret: nat, claimed: nat, now: nat, until: nat) returns (rotated: Option<nat>)
      modifies this
      ensures rotated.Some? <==> Bearer(old(Snapshot()), secret, claimed, now).Some?
      ensures rotated.None? ==> Snapshot() == old(Snapshot())
      ensures Snapshot() == RotateStep(old(Snapshot()), secret, claimed, now, until)
      ensures Inv(old(Snapshot())) ==> Inv(Snapshot())
      ensures Inv(old(Snapshot())) && rotated.Some? ==>
                Dead(Snapshot(), secret) && Rekeyed(old(Snapshot()), Snapshot(), claimed, rotated.value, until)
    {
      hide Inv, Dead, Rekeyed;
      ghost var before := Snapshot();
      EventKeeps(before, Rotate(secret, claimed, now, until));
      var b := Bearer(Snapshot(), secret, claimed, now);
      if b.None? { return None; }
      if Inv(before) {
        RotateKills(before, secret, claimed, now, until);
        RotateRekeys(before, secret, claimed, now, until);
      }
      var minted := nextSecret;
      nextSecret := nextSecret + 1;
      var expires := if devices[b.value].expires.Some? then Some(until) else None;
      devices := devices[b.value := devices[b.value].(secret := minted, expires := expires)];
      rotated := Some(minted);
    }

    method MarkRemoved(device: nat)
      requires device in devices
      modifies this`devices
      ensures devices == old(devices)[device := old(devices)[device].(removed := true)]
    {
      devices := devices[device := devices[device].(removed := true)];
    }

    /** Clearing a bind unbinds the hub but leaves its device live in slot 1. */
    method ClearHubBind(hub: nat)
      modifies this
      ensures Inv(old(Snapshot())) && hub in old(hubs) && old(hubs)[hub].bound.Some? ==>
                Held(Snapshot(), hub, old(hubs)[hub].bound.value)
      ensures Snapshot() == ClearBind(old(Snapshot()), hub)
      ensures Inv(old(Snapshot())) ==> Inv(Snapshot())
    {
      hide Inv, Held;
      ghost var before := Snapshot();
      EventKeeps(before, ResetBind(hub));
      if Inv(before) && hub in hubs && hubs[hub].bound.Some? {
        ClearedIsHeld(before, hub);
      }
      if hub in hubs {
        hubs := hubs[hub := hubs[hub].(pubkey := "", bound := None)];
      }
    }

    method RemoveAndUnbind(device: nat)
      requires device in devices
      modifies this
      ensures Snapshot() == RemoveDevice(old(Snapshot()), device)
    {
      hide Inv, Held;
      MarkRemoved(device);
      var hub := devices[device].hub;
      if hub in hubs && hubs[hub].bound == Some(device) {
        ClearHubBind(hub);
      }
    }

    /** After a device has left, its secret is dead, no hub is bound to it and its slot is free. */
    method HandleLeave(secret: nat, claimed: nat, now: nat) returns (ok: bool)
      modifies this
      ensures ok == Bearer(old(Snapshot()), secret, claimed, now).Some?
      ensures !ok ==> Snapshot() == old(Snapshot())
      ensures Snapshot() == LeaveStep(old(Snapshot()), secret, claimed, now)
      ensures Inv(old(Snapshot())) ==> Inv(Snapshot())
      ensures Inv(old(Snapshot())) && ok ==> Dead(Snapshot(), secret) && Gone(old(Snapshot()), Snapshot(), claimed)
    {
      hide Inv, Dead, Gone;
      ghost var before := Snapshot();
      EventKeeps(before, Leave(secret, claimed, now));
      var b := Bearer(Snapshot(), secret, claimed, now);
      if b.None? { return false; }
      if Inv(before) {
        LeaveKills(before, secret, claimed, now);
        RemovedIsGone(before, b.value);
      }
      RemoveAndUnbind(b.value);
      return true;
    }

    // ---- operators and siblings ----

    /** The same for a device that an operator removes, live or not. */
    method HandleDeviceRemove(device: nat) returns (ok: bool)
      modifies this
      ensures ok == (device in old(devices))
      ensures !ok ==> Snapshot() == old(Snapshot())
      ensures Snapshot() == RemoveStep(old(Snapshot()), device)
      ensures Inv(old(Snapshot())) ==> Inv(Snapshot())
      ensures Inv(old(Snapshot())) && ok ==> Gone(old(Snapshot()), Snapshot(), device)
    {
      hide Inv, Gone;
      ghost var before := Snapshot();
      EventKeeps(before, Remove(device));
      if device !in devices { return false; }
      if Inv(before) {
        RemovedIsGone(before, device);
      }
      RemoveAndUnbind(device);
      return true;
    }

    /** A revoked token registers nothing; the device that consumed it goes on. */
    method RevokeToken(token: nat) returns (ok: bool)
      modifies this
      ensures ok == (token in old(tokens))
      ensures Snapshot() == RevokeStep(old(Snapshot()), token)
      ensures Inv(old(Snapshot())) ==> Inv(Snapshot())
      ensures Inv(old(Snapshot())) && ok ==> Barred(old(Snapshot()), Snapshot(), token)
    {
      hide Inv, Barred;
      ghost var before := Snapshot();
      EventKeeps(before, Revoke(token));
      if token !in tokens { return false; }
      if Inv(before) {
        RevokeBars(before, token);
      }
      tokens := tokens[token := tokens[token].(revoked := true)];
      return true;
    }

    /** After a release the token is revoked, the device that consumed it is gone and both secrets are
        dead. */
    method HandleTokenRelease(token: nat) returns (ok: bool)
      modifies this
      ensures ok == (token in old(tokens))
      ensures !ok ==> Snapshot() == old(Snapshot())
      ensures Inv(old(Snapshot())) && ok ==> ReleasedRows(old(Snapshot()), Snapshot(), token)
      ensures Snapshot() == ReleaseStep(old(Snapshot()), token)
      ensures Inv(old(Snapshot())) ==> Inv(Snapshot())
      ensures Inv(old(Snapshot())) && token in old(tokens) ==> Dead(Snapshot(), old(tokens)[token].secret)
    {
      hide Inv, Dead, ReleasedRows;
      ghost var before := Snapshot();
      EventKeeps(before, Release(token));
      if Inv(before) && token in tokens {
        ReleaseKills(before, token);
        ReleaseRows(before, token);
      }
      if token !in tokens { return false; }
      var consumer := tokens[token].consumedBy;
      if consumer.Some? && consumer.value in devices && devices[consumer.value].Live() {
        RemoveAndUnbind(consumer.value);
      }
      if !tokens[token].revoked {
        var _ := RevokeToken(token);
      }
      assert Snapshot() == ReleaseStep(before, token);
      return true;
    }

    /** The rows that the sweep's SELECT returns, in some order. */
    method CollectVictims(cutoff: nat) returns (victims: seq<nat>)
      ensures forall i :: i in victims <==> i in devices && !devices[i].removed && Unheard(devices[i], cutoff)
      ensures Elements(victims) == Victims(Snapshot(), cutoff)
    {
      victims := [];
      var rows := devices.Keys;
      while rows != {}
        invariant rows <= devices.Keys
        invariant forall i :: i in victims <==> i in devices && i !in rows && Stale(devices[i], cutoff)
        decreases |rows|
      {
        var i :| i in rows;
        if Stale(devices[i], cutoff) {
          victims := victims + [i];
        }
        rows := rows - {i};
      }
      forall i ensures i in Elements(victims) <==> i in Victims(Snapshot(), cutoff) {
      }
    }

    /** One victim marked removed and every hub bound to it unbound. */
    method DropVictim(v: nat)
      requires v in devices
      modifies this`devices, this`hubs
      ensures devices == WithoutVictim(old(devices), v)
      ensures hubs == Unbound(old(hubs), v)
    {
      devices := devices[v := devices[v].(removed := true)];
      hubs := map h | h in hubs :: if hubs[h].bound == Some(v) then hubs[h].(pubkey := "", bound := None) else hubs[h];
    }

    static function WithoutVictim(devices: map<nat, Device>, v: nat): map<nat, Device>
      requires v in devices
    {
      devices[v := devices[v].(removed := true)]
    }

    static function Unbound(hubs: map<nat, Hub>, v: nat): map<nat, Hub> {
      map h | h in hubs :: if hubs[h].bound == Some(v) then hubs[h].(pubkey := "", bound := None) else hubs[h]
    }

    /** One more victim extends a bulk removal. */
    static lemma RemoveOneMore(s: State, done: set<nat>, v: nat)
      requires v in s.devices
      ensures v in RemoveAll(s, done).devices
      ensures RemoveAll(s, done + {v}).devices == WithoutVictim(RemoveAll(s, done).devices, v)
      ensures RemoveAll(s, done + {v}).hubs == Unbound(RemoveAll(s, done).hubs, v)
    {
    }

    /** sweepStaleWGDevices: collect the victims first, then remove and unbind one by one. */
    method SweepStaleDevices(cutoff: nat)
      modifies this
      ensures Swept(old(Snapshot()), Snapshot(), cutoff)
      ensures Snapshot() == SweepStep(old(Snapshot()), cutoff)
      ensures Inv(old(Snapshot())) ==> Inv(Snapshot())
    {
      hide Inv, SweepStep, RemoveAll, Victims, Next, Swept;
      EventKeeps(Snapshot(), Sweep(cutoff));
      SweepRemoves(Snapshot(), cutoff);
      SweepLeaves(Snapshot(), cutoff);
      var victims := CollectVictims(cutoff);
      RemoveVictims(victims);
    }

    method RemoveVictims(victims: seq<nat>)
      requires Elements(victims) <= devices.Keys
      modifies this`devices, this`hubs
      ensures Snapshot() == RemoveAll(old(Snapshot()), Elements(victims))
    {
      hide RemoveAll;
      ghost var before := Snapshot();
      RemoveNone(before);
      assert Elements(victims[..0]) == {};
      for k := 0 to |victims|
        invariant devices == RemoveAll(before, Elements(victims[..k])).devices
        invariant hubs == RemoveAll(before, Elements(victims[..k])).hubs
      {
        assert victims[k] in Elements(victims);
        ElementsOfPrefix(victims, k);
        RemoveOneMore(before, Elements(victims[..k]), victims[k]);
        DropVictim(victims[k]);
      }
      assert victims[..|victims|] == victims;
      RemovalScope(before, Elements(victims));
    }

    static lemma RemovalScope(s: State, victims: set<nat>)
      ensures RemoveAll(s, victims) == s.(devices := RemoveAll(s, victims).devices, hubs := RemoveAll(s, victims).hubs)
    {
    }

    static lemma SweepRemoves(s: State, cutoff: nat)
      ensures SweepStep(s, cutoff) == RemoveAll(s, Victims(s, cutoff)) == Next(s, Sweep(cutoff))
      ensures Victims(s, cutoff) <= s.devices.Keys
    {
    }

    static lemma RemoveNone(s: State)
      ensures RemoveAll(s, {}) == s
    {
      assert RemoveAll(s, {}).devices == s.devices && RemoveAll(s, {}).hubs == s.hubs;
    }

    method HandleHubUpdate(hub: nat, endpoint: string, wgIp: Option<HostText>, mesh: Option<CidrText>,
                           routes: Option<seq<CidrText>>) returns (ok: bool)
      modifies this
      ensures !ok ==> Snapshot() == old(Snapshot())
      ensures Inv(old(Snapshot())) ==> (ok <==> EditGranted(old(Snapshot()), hub, mesh, routes))
      ensures Inv(old(Snapshot())) && ok ==>
                Edited(old(Snapshot()), Snapshot(), hub, endpoint, wgIp, mesh, routes)
      ensures Snapshot() == UpdateHubStep(old(Snapshot()), hub, endpoint, wgIp, mesh, routes)
      ensures Inv(old(Snapshot())) ==> Inv(Snapshot())
    {
      hide Inv, EditGranted, Edited, FitsBeside, RoutesFit;
      ghost var before := Snapshot();
      EventKeeps(before, UpdateHub(hub, endpoint, wgIp, mesh, routes));
      if Inv(before) {
        EditRows(before, hub, endpoint, wgIp, mesh, routes);
        EditGrantedIff(before, hub, mesh, routes);
      }
      if hub !in hubs { return false; }
      var existing := hubs[hub];
      var all := Hubs(Snapshot());
      existing := existing.(endpoint := endpoint);
      if wgIp.Some? {
        existing := existing.(wgIp := wgIp.value);
      }
      if mesh.Some? {
        ok := ValidateMeshDisjoint(mesh.value, all, hub);
        if !ok { return; }
        existing := existing.(mesh := mesh.value);
      }
      if routes.Some? {
        ok := ValidateAdvertisedRoutes(routes.value, all);
        if !ok { return; }
        existing := existing.(routes := routes.value);
      }
      hubs := hubs[hub := existing];
      ok := true;
    }

    /** A hub is deleted exactly when it has no live device. Then nothing refers to it, and nothing
        else is lost. */
    method DeleteHub(hub: nat) returns (ok: bool)
      modifies this
      ensures ok <==> hub in old(hubs)
                      && forall i | i in old(devices) && old(devices)[i].hub == hub :: !old(devices)[i].Live()
      ensures if ok then Forgotten(Snapshot(), hub) && OthersKept(old(Snapshot()), Snapshot(), hub)
              else Snapshot() == old(Snapshot())
      ensures Snapshot() == DeleteHubStep(old(Snapshot()), hub)
      ensures Inv(old(Snapshot())) ==> Inv(Snapshot())
    {
      hide Inv, Forgotten, OthersKept, SitesWithout, DevicesWithout, TokensWithout, LinksWithout;
      ghost var before := Snapshot();
      if Inv(before) {
        DeleteHubKeeps(before, hub);
      }
      if hub !in hubs || exists i | i in devices :: devices[i].hub == hub && devices[i].Live() { return false; }
      DeletedIsForgotten(before, hub);
      DropSites(hub);
      DropDevices(hub);
      DropTokens(hub);
      DropLinks(hub);
      hubs := hubs - {hub};
      return true;
    }

    // The ON DELETE actions of the schema.

    method DropSites(hub: nat)
      modifies this`sites
      ensures sites == SitesWithout(old(sites), hub)
    {
      sites := map i | i in sites && sites[i].hub != hub :: sites[i];
    }

    method DropDevices(hub: nat)
      modifies this`devices
      ensures devices == DevicesWithout(old(devices), hub)
    {
      devices := map i | i in devices && devices[i].hub != hub ::
        devices[i].(egress := if devices[i].egress == Some(hub) then None else devices[i].egress);
    }

    method DropTokens(hub: nat)
      modifies this`tokens
      ensures tokens == TokensWithout(old(tokens), hub)
    {
      tokens := map i | i in tokens :: tokens[i].(hub := if tokens[i].hub == Some(hub) then None else tokens[i].hub);
    }

    method DropLinks(hub: nat)
      modifies this`links
      ensures links == LinksWithout(old(links), hub)
    {
      links := map i | i in links && links[i].a != hub && links[i].b != hub :: links[i];
    }

    /** Two different existing hubs end up linked, whether or not they were before; no other pair
        changes. */
    method CreateHubLink(a: nat, b: nat) returns (ok: bool)
      modifies this
      ensures ok <==> a != b && a in old(hubs) && b in old(hubs)
      ensures !ok ==> Snapshot() == old(Snapshot())
      ensures Snapshot() == PublishStep(old(Snapshot()), a, b)
      ensures Inv(old(Snapshot())) ==> Inv(Snapshot())
      ensures Inv(old(Snapshot())) && ok ==> OnlyPair(old(Snapshot()), Snapshot(), a, b, true)
    {
      hide Inv, OnlyPair;
      ghost var before := Snapshot();
      EventKeeps(before, Publish(a, b));
      if a == b { return false; }
      if a !in hubs || b !in hubs { return false; }
      if Inv(before) {
        PublishLinks(before, a, b);
      }
      var l := Norm(a, b);
      if exists i | i in links :: links[i] == l { return true; }
      links := links[nextLink := l];
      nextLink := nextLink + 1;
      return true;
    }

    /** The two hubs of a deleted link are linked no longer; no other pair changes. */
    method DeleteHubLink(link: nat) returns (ok: bool)
      modifies this
      ensures ok == (link in old(links))
      ensures !ok ==> Snapshot() == old(Snapshot())
      ensures Snapshot() == UnpublishStep(old(Snapshot()), link)
      ensures Inv(old(Snapshot())) ==> Inv(Snapshot())
      ensures Inv(old(Snapshot())) && ok ==>
                OnlyPair(old(Snapshot()), Snapshot(), old(links)[link].a, old(links)[link].b, false)
    {
      hide Inv, OnlyPair;
      ghost var before := Snapshot();
      EventKeeps(before, Unpublish(link));
      if Inv(before) && link in links {
        UnpublishUnlinks(before, link);
      }
      ok := link in links;
      links := links - {link};
    }

    /** A live device may choose a hub exactly when that hub advertises a route it may carry; its
        list then gains those routes and no others. */
    method HandleDeviceUpdate(device: nat, egress: Option<nat>) returns (ok: bool)
      modifies this
      ensures ok <==> device in old(devices) && old(devices)[device].Live()
                      && (egress.None? || Offers(old(Snapshot()), device, egress.value))
      ensures !ok ==> Snapshot() == old(Snapshot())
      ensures Snapshot() == SetEgressStep(old(Snapshot()), device, egress)
      ensures Inv(old(Snapshot())) ==> Inv(Snapshot())
      ensures Inv(old(Snapshot())) && ok ==> Chose(old(Snapshot()), Snapshot(), device, egress)
    {
      hide Inv, Chose, Offers;
      ghost var before := Snapshot();
      EventKeeps(before, SetEgress(device, egress));
      if device !in devices || !devices[device].Live() { return false; }
      EgressAcceptedIff(before, device, egress);
      if Inv(before) {
        ChoiceRoutes(before, device, egress);
      }
      if egress.Some? {
        if egress.value !in hubs || hubs[egress.value].routes == [] { return false; }
        var subnets := FilterSubnets(hubs[egress.value].routes);
        if egress.value != devices[device].hub && subnets == [] { return false; }
      }
      devices := devices[device := devices[device].(egress := egress)];
      return true;
    }

    static function Stamped(devices: map<nat, Device>, pubkeys: set<string>, ips: set<HostText>,
                            hostId: string): map<nat, Device> {
      map i | i in devices ::
        if devices[i].Live() && (devices[i].pubkey in pubkeys || devices[i].ip in ips)
        then devices[i].(hostId := hostId) else devices[i]
    }

    /** Two updates in a row stamp the rows that either of them matches. */
    static lemma StampTwice(devices: map<nat, Device>, p: set<string>, a: set<HostText>, q: set<string>,
                            b: set<HostText>, hostId: string)
      ensures Stamped(Stamped(devices, p, a, hostId), q, b, hostId) == Stamped(devices, p + q, a + b, hostId)
    {
    }

    /** UPDATE wg_devices SET host_id ... WHERE the row is live and matches. */
    method StampHost(pubkeys: set<string>, ips: set<HostText>, hostId: string)
      modifies this`devices
      ensures devices == Stamped(old(devices), pubkeys, ips, hostId)
    {
      devices := Stamped(devices, pubkeys, ips, hostId);
    }

    /** handleInternalWGDeviceLink: one update per reported key, then one per address. */
    method HandleDeviceLink(pubkeys: seq<string>, ips: seq<HostText>, hostId: string)
      modifies this
      ensures if hostId == "" then Snapshot() == old(Snapshot())
              else HostStamped(old(Snapshot()), Snapshot(), pubkeys, ips, hostId)
      ensures Snapshot() == LinkHostStep(old(Snapshot()), pubkeys, ips, hostId)
      ensures Inv(old(Snapshot())) ==> Inv(Snapshot())
    {
      hide Inv, HostStamped, LinkHostStep, Stamped;
      EventKeeps(Snapshot(), LinkHost(pubkeys, ips, hostId));
      LinkHostStamps(Snapshot(), pubkeys, ips, hostId);
      BlankStampsNobody(Snapshot(), pubkeys, ips);
      if hostId == "" { return; }
      StampKeys(pubkeys, hostId);
      StampAddresses(ips, hostId);
      ghost var stated := Elements(ips) - {Other("")};
      StampTwice(old(devices), Elements(pubkeys) - {""}, {}, {}, stated, hostId);
      assert Elements(pubkeys) - {""} + {} == Elements(pubkeys) - {""} && {} + stated == stated;
      StampIsLink(old(Snapshot()), pubkeys, ips, hostId);
    }

    static lemma BlankStampsNobody(s: State, pubkeys: seq<string>, ips: seq<HostText>)
      ensures LinkHostStep(s, pubkeys, ips, "") == s
    {
    }

    static lemma StampIsLink(s: State, pubkeys: seq<string>, ips: seq<HostText>, hostId: string)
      requires hostId != ""
      ensures LinkHostStep(s, pubkeys, ips, hostId) == s.(devices := LinkHostStep(s, pubkeys, ips, hostId).devices)
      ensures LinkHostStep(s, pubkeys, ips, hostId).devices
              == Stamped(s.devices, Elements(pubkeys) - {""}, Elements(ips) - {Other("")}, hostId)
    {
    }

    method StampKeys(pubkeys: seq<string>, hostId: string)
      modifies this`devices
      ensures devices == Stamped(old(devices), Elements(pubkeys) - {""}, {}, hostId)
    {
      for k := 0 to |pubkeys|
        invariant devices == Stamped(old(devices), Elements(pubkeys[..k]) - {""}, {}, hostId)
      {
        ElementsOfPrefix(pubkeys, k);
        if pubkeys[k] == "" {
          assert Elements(pubkeys[..k + 1]) - {""} == Elements(pubkeys[..k]) - {""};
        } else {
          assert Elements(pubkeys[..k + 1]) - {""} == Elements(pubkeys[..k]) - {""} + {pubkeys[k]};
          StampTwice(old(devices), Elements(pubkeys[..k]) - {""}, {}, {pubkeys[k]}, {}, hostId);
          StampHost({pubkeys[k]}, {}, hostId);
        }
      }
      assert pubkeys[..|pubkeys|] == pubkeys;
    }

    method StampAddresses(ips: seq<HostText>, hostId: string)
      modifies this`devices
      ensures devices == Stamped(old(devices), {}, Elements(ips) - {Other("")}, hostId)
    {
      for k := 0 to |ips|
        invariant devices == Stamped(old(devices), {}, Elements(ips[..k]) - {Other("")}, hostId)
      {
        ElementsOfPrefix(ips, k);
        if ips[k] == Other("") {
          assert Elements(ips[..k + 1]) - {Other("")} == Elements(ips[..k]) - {Other("")};
        } else {
          assert Elements(ips[..k + 1]) - {Other("")} == Elements(ips[..k]) - {Other("")} + {ips[k]};
          StampTwice(old(devices), {}, Elements(ips[..k]) - {Other("")}, {}, {ips[k]}, hostId);
          StampHost({}, {ips[k]}, hostId);
        }
      }
      assert ips[..|ips|] == ips;
    }
  }
}
