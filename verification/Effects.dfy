/** What a caller observes of each request: which answer it gets, what that answer is good for,
    and what the request left alone. */
module Effects {
  import opened Text
  import opened Cidr
  import opened Model
  import opened Queries
  import opened Steps
  import opened Invariants
  import opened Allocation
  import opened HubFilter
  import opened Admission
  import opened Reclaim
  import opened Secrets
  import opened Routing

  // ---- minting ----

  /** secret was unknown and now finds a token of its own, unspent and unrevoked, of this role,
      hub and expiry: presented later than that it is refused as expired, and only then. Apart
      from the hub table everything else is as it was. */
  ghost predicate Issued(s: State, s': State, secret: nat, role: Role, hub: nat, expires: Option<nat>) {
    && (forall i | i in s.tokens :: s.tokens[i].secret != secret)
    && (forall i | i in s.devices :: s.devices[i].secret != secret)
    && (var t := TokenBySecret(s', secret);
        && t.Some? && t.value !in s.tokens
        && s'.tokens == s.tokens[t.value := Token(secret, role, Some(hub), expires, None, false)])
    && (forall input: RegisterInput, now: nat | input.secret == secret && !BadKey(input.pubkey) ::
          RegisterStep(s', input, now).1 == Refused(TokenExpired) <==> (expires.Some? && now > expires.value))
    && s' == s.(tokens := s'.tokens, nextToken := s'.nextToken, nextSecret := s'.nextSecret,
                hubs := s'.hubs, nextHub := s'.nextHub)
  }

  ghost predicate Minted(s: State, s': State, secret: nat, role: Role, hub: nat, expires: Option<nat>) {
    Issued(s, s', secret, role, hub, expires) && s'.hubs == s.hubs && s'.nextHub == s.nextHub
  }

  lemma AddTokenIssues(s: State, s1: State, role: Role, hub: nat, expires: Option<nat>)
    requires Inv(s) && Inv(s1) && s1 == s.(hubs := s1.hubs, nextHub := s1.nextHub) && hub in s1.hubs
    ensures Issued(s, AddToken(s1, role, hub, expires), s.nextSecret, role, hub, expires)
  {
    hide RegisterStep;
    var s' := AddToken(s1, role, hub, expires);
    FreshTokenFound(s1, role, hub, expires);
    AddTokenKeeps(s1, role, hub, expires);
    forall i: nat ensures i in s.tokens ==> s.tokens[i].secret != s.nextSecret && i != s.nextToken {
      assert RowOk(s, i);
    }
    forall i: nat ensures i in s.devices ==> s.devices[i].secret != s.nextSecret {
      assert RowOk(s, i);
    }
    forall input: RegisterInput, now: nat | input.secret == s.nextSecret && !BadKey(input.pubkey)
      ensures RegisterStep(s', input, now).1 == Refused(TokenExpired) <==> (expires.Some? && now > expires.value)
    {
      ExpiryDecides(s', input, now, s.nextToken);
    }
  }

  lemma ExpiryDecides(s: State, input: RegisterInput, now: nat, t: nat)
    requires Inv(s) && !BadKey(input.pubkey) && Presented(s, input.secret, t)
    ensures RegisterStep(s, input, now).1 == Refused(TokenExpired) <==> Expired(s.tokens[t], now)
  {
    hide Inv, RegisterStep, Admitted;
    if !InForce(s, s.tokens[t], now) {
      NotInForceRefused(s, input, now, t);
    } else if i :| i in s.devices && Holds(s, input.pubkey, i) {
      HeldKeyAnswered(s, input, now, t, i);
    } else {
      NewKeyAnswered(s, input, now, t);
    }
  }

  lemma AddTokenMints(s: State, role: Role, hub: nat, expires: Option<nat>)
    requires Inv(s) && hub in s.hubs
    ensures Minted(s, AddToken(s, role, hub, expires), s.nextSecret, role, hub, expires)
  {
    hide Inv, Issued;
    AddTokenIssues(s, s, role, hub, expires);
  }

  /** The mesh that a hub mint is about. */
  function Chosen(s: State, meshPref: Option<CidrText>): Option<CidrText> {
    if meshPref.Some? then meshPref else SuggestMesh(s)
  }

  /** No hub but the given one has a mesh that overlaps this one. */
  ghost predicate FitsBeside(s: State, mesh: CidrText, self: nat) {
    && Parse(mesh).Some?
    && forall h | h in s.hubs && h != self ::
         Parse(s.hubs[h].mesh).Some? && !Overlaps(Parse(mesh).value, Parse(s.hubs[h].mesh).value)
  }

  lemma FitsIff(s: State, mesh: CidrText, self: nat)
    requires Inv(s)
    ensures MeshAccepted(mesh, Hubs(s), self) <==> FitsBeside(s, mesh, self)
  {
    HubsSorted(s);
    forall h | h in s.hubs ensures s.hubs[h].id == h && Parse(s.hubs[h].mesh).Some? {
      assert RowOk(s, h);
    }
  }

  /** A hub mint is granted: the hub of that slug is unbound and was minted with the same endpoint
      and mesh, or there is none and the mesh fits beside all others. */
  ghost predicate HubMintGranted(s: State, slug: string, endpoint: string, chosen: Option<CidrText>) {
    && slug != "" && endpoint != "" && chosen.Some? && Parse(chosen.value).Some?
    && (forall h | h in s.hubs && s.hubs[h].slug == slug ::
          s.hubs[h].bound.None? && s.hubs[h].endpoint == endpoint && s.hubs[h].mesh == chosen.value)
    && ((forall h | h in s.hubs :: s.hubs[h].slug != slug) ==> FitsBeside(s, chosen.value, 0))
  }

  /** The hub that a granted mint is for: the one of that slug, untouched, or a new one, unbound, with
      this endpoint and mesh, the mesh's first address and no routes, beside all others as they
      were. */
  ghost predicate HubMinted(s: State, s': State, slug: string, endpoint: string, mesh: CidrText, h: nat) {
    && h in s'.hubs && s'.hubs[h].slug == slug
    && (h in s.hubs ==> s'.hubs == s.hubs)
    && (h !in s.hubs ==>
          && (forall k | k in s.hubs :: s.hubs[k].slug != slug)
          && Parse(mesh).Some?
          && s'.hubs == s.hubs[h := Hub(h, slug, "", endpoint, Bare(DeviceIP(Parse(mesh).value.net, 1)), mesh, None,
                                        [])])
  }

  /** A granted hub mint issues a token that binds this hub, and a refused one changes nothing. */
  ghost predicate HubIssued(s: State, s': State, slug: string, endpoint: string, mesh: CidrText, secret: nat,
                            expires: Option<nat>)
  {
    exists h :: HubMinted(s, s', slug, endpoint, mesh, h) && Issued(s, s', secret, HubRole, h, expires)
  }

  lemma HubMintIssues(s: State, slug: string, endpoint: string, meshPref: Option<CidrText>, expires: Option<nat>)
    requires Inv(s)
    ensures var s', chosen := MintHubStep(s, slug, endpoint, meshPref, expires), Chosen(s, meshPref);
            if HubMintGranted(s, slug, endpoint, chosen)
            then s'.nextSecret > s.nextSecret && HubIssued(s, s', slug, endpoint, chosen.value, s.nextSecret, expires)
            else s' == s
  {
    hide Inv, Parse, Issued, SuggestMesh, MeshAccepted, Hubs, FitsBeside, AddHub;
    var chosen := Chosen(s, meshPref);
    var existing := HubBySlug(s, slug);
    ConfiguredBySlug(s, slug);
    HubsBelow(s);
    if chosen.Some? && slug != "" && endpoint != "" {
      FitsIff(s, chosen.value, 0);
      if existing.Some? {
        assert s.hubs[existing.value].slug == slug;
        AddTokenIssues(s, s, HubRole, existing.value, expires);
        var s' := AddToken(s, HubRole, existing.value, expires);
        assert HubMinted(s, s', slug, endpoint, chosen.value, existing.value);
      } else if MeshAccepted(chosen.value, Hubs(s), 0) && Parse(chosen.value).Some? {
        NewHubIssued(s, slug, endpoint, chosen.value, expires);
      }
    }
  }

  lemma HubsBelow(s: State)
    requires Inv(s)
    ensures forall h | h in s.hubs :: h < s.nextHub
  {
    forall h | h in s.hubs ensures h < s.nextHub {
      assert RowOk(s, h);
    }
  }

  lemma NewHubIssued(s: State, slug: string, endpoint: string, mesh: CidrText, expires: Option<nat>)
    requires Inv(s) && slug != "" && HubBySlug(s, slug).None? && MeshAccepted(mesh, Hubs(s), 0) && Parse(mesh).Some?
    ensures var s' := AddToken(AddHub(s, slug, endpoint, mesh), HubRole, s.nextHub, expires);
            && HubMinted(s, s', slug, endpoint, mesh, s.nextHub)
            && Issued(s, s', s.nextSecret, HubRole, s.nextHub, expires) && s'.nextSecret > s.nextSecret
  {
    hide Inv, Parse, Issued, MeshAccepted, Hubs, DeviceIP;
    AddHubKeeps(s, slug, endpoint, mesh);
    HubsBelow(s);
    AddTokenIssues(s, AddHub(s, slug, endpoint, mesh), HubRole, s.nextHub, expires);
  }

  /** The hub that a slug names, if a device is bound to it. */
  lemma ConfiguredBySlug(s: State, slug: string)
    requires Inv(s)
    ensures var h := HubBySlug(s, slug);
            (h.Some? && slug != "" && s.hubs[h.value].Configured())
            <==> exists k :: k in s.hubs && s.hubs[k].slug == slug && s.hubs[k].bound.Some?
    ensures forall k | k in s.hubs && s.hubs[k].slug == slug :: HubBySlug(s, slug) == Some(k)
  {
    hide Inv;
    forall k | k in s.hubs && s.hubs[k].slug == slug ensures HubBySlug(s, slug) == Some(k) {
      SlugNamesHub(s, k);
    }
    forall k | k in s.hubs ensures s.hubs[k].slug != "" && (s.hubs[k].Configured() <==> s.hubs[k].bound.Some?) {
      HubRowFacts(s, k);
    }
  }

  lemma HubRowFacts(s: State, k: nat)
    requires Inv(s) && k in s.hubs
    ensures s.hubs[k].slug != "" && (s.hubs[k].Configured() <==> s.hubs[k].bound.Some?)
  {
    assert RowOk(s, k);
  }

  // ---- rotating ----

  /** Device d answers to the new secret, to it alone, and until the given time if it expired
      before; nothing else changed. */
  ghost predicate Rekeyed(s: State, s': State, d: nat, secret: nat, until: nat) {
    && d in s.devices && d in s'.devices
    && (forall claimed: nat, now: nat :: Bearer(s', secret, claimed, now) ==
          if claimed == d && (s.devices[d].expires.Some? ==> now <= until) then Some(d) else None)
    && Dead(s', s.devices[d].secret)
    && s' == s.(devices := s.devices[d := s'.devices[d]], nextSecret := s'.nextSecret)
    && s'.devices[d] == s.devices[d].(secret := secret, expires := s'.devices[d].expires)
  }

  lemma RotateRekeys(s: State, secret: nat, claimed: nat, now: nat, until: nat)
    requires Inv(s) && Bearer(s, secret, claimed, now).Some?
    ensures Rekeyed(s, RotateStep(s, secret, claimed, now, until), claimed, s.nextSecret, until)
  {
    hide Inv, Dead;
    RotateKills(s, secret, claimed, now, until);
  }

  // ---- leaving and removal ----

  /** Device d and its secret are dead, no hub is bound to it, and its slot is free if it was
      live; all other rows are as they were, and a hub that was bound to it keeps all but that. */
  ghost predicate Gone(s: State, s': State, d: nat) {
    && d in s.devices && s'.devices == s.devices[d := s.devices[d].(removed := true)]
    && Dead(s', s.devices[d].secret)
    && s'.hubs.Keys == s.hubs.Keys
    && (forall h | h in s.hubs :: s'.hubs[h].bound != Some(d)
          && s'.hubs[h] == if s.hubs[h].bound == Some(d) then s.hubs[h].(pubkey := "", bound := None) else s.hubs[h])
    && (s.devices[d].Live() ==> !SlotTaken(s', s.devices[d].hub, s.devices[d].dIndex))
    && s' == s.(devices := s'.devices, hubs := s'.hubs)
  }

  lemma RemovedIsGone(s: State, d: nat)
    requires Inv(s) && d in s.devices
    ensures Gone(s, RemoveDevice(s, d), d)
  {
    hide Inv, RemoveDevice, Dead;
    RemoveKills(s, d);
    RemoveIsRemoveAll(s, d);
    var s' := RemoveAll(s, {d});
    assert s'.devices == s.devices[d := s.devices[d].(removed := true)];
    if s.devices[d].Live() {
      SlotLeft(s, d);
    }
  }

  lemma SlotLeft(s: State, d: nat)
    requires Inv(s) && d in s.devices && s.devices[d].Live()
    ensures !SlotTaken(RemoveAll(s, {d}), s.devices[d].hub, s.devices[d].dIndex)
  {
    var s' := RemoveAll(s, {d});
    forall i | i in s'.devices && s'.devices[i].Live() && s'.devices[i].hub == s.devices[d].hub
      ensures s'.devices[i].dIndex != s.devices[d].dIndex
    {
      assert Apart(s, i, d);
    }
  }

  // ---- reporting and revoking ----

  /** Device d has reported at time now, and its LAN endpoint if it sent one; no sweep with a cutoff
      up to now takes it. */
  ghost predicate Reported(s: State, s': State, d: nat, now: nat, lan: Option<string>) {
    && d in s.devices && d in s'.devices && s'.devices[d].Live()
    && (forall cutoff: nat | cutoff <= now :: SweepStep(s', cutoff).devices.Keys == s'.devices.Keys
                                              && SweepStep(s', cutoff).devices[d].Live())
    && s' == s.(devices := s.devices[d := s.devices[d].(lastSeen := Some(now),
                  lanEndpoint := if lan.Some? then lan.value else s.devices[d].lanEndpoint)])
  }

  lemma HeartbeatReports(s: State, secret: nat, claimed: nat, now: nat, lan: Option<string>)
    requires Bearer(s, secret, claimed, now).Some?
    ensures Reported(s, HeartbeatStep(s, secret, claimed, now, lan), claimed, now, lan)
  {
    hide RemoveAll;
    var s' := HeartbeatStep(s, secret, claimed, now, lan);
    forall cutoff: nat | cutoff <= now
      ensures SweepStep(s', cutoff).devices.Keys == s'.devices.Keys && SweepStep(s', cutoff).devices[claimed].Live()
    {
      SweepLeaves(s', cutoff);
    }
  }

  /** The device was last heard of, or else entered, before the cutoff. */
  predicate Unheard(d: Device, cutoff: nat) {
    if d.lastSeen.Some? then d.lastSeen.value < cutoff else d.created < cutoff
  }

  /** What a sweep leaves: the devices live afterwards are those live before whose last report, or
      creation if there was none, is at or after the cutoff; no other field of a device changes,
      and of the hubs only those change that were bound to a removed device. */
  ghost predicate Swept(s: State, s': State, cutoff: nat) {
    && s'.devices.Keys == s.devices.Keys && s'.hubs.Keys == s.hubs.Keys
    && s' == s.(devices := s'.devices, hubs := s'.hubs)
    && (forall i | i in s.devices ::
          s'.devices[i] == s.devices[i].(removed := s.devices[i].removed || Unheard(s.devices[i], cutoff)))
    && (forall h | h in s.hubs ::
          var b := s.hubs[h].bound;
          s'.hubs[h] == if b.Some? && b.value in s.devices && !s.devices[b.value].removed && s'.devices[b.value].removed
                        then s.hubs[h].(pubkey := "", bound := None) else s.hubs[h])
  }

  lemma SweepLeaves(s: State, cutoff: nat)
    ensures Swept(s, SweepStep(s, cutoff), cutoff)
  {
  }

  /** The token's secret registers nothing any more, and every device goes on as before. */
  ghost predicate Barred(s: State, s': State, token: nat) {
    && token in s.tokens
    && (forall input: RegisterInput, now: nat | input.secret == s.tokens[token].secret ::
          RegisterStep(s', input, now).0 == s' && RegisterStep(s', input, now).1.Refused?)
    && s' == s.(tokens := s.tokens[token := s.tokens[token].(revoked := true)])
  }

  lemma RevokeBars(s: State, token: nat)
    requires Inv(s) && token in s.tokens
    ensures Barred(s, RevokeStep(s, token), token)
  {
    var s' := RevokeStep(s, token);
    RevokeKeeps(s, token);
    TokenBySecretIs(s', token);
    forall input: RegisterInput, now: nat | input.secret == s.tokens[token].secret
      ensures RegisterStep(s', input, now).0 == s' && RegisterStep(s', input, now).1.Refused?
    {
      assert TokenObjection(s', input.secret, now).Some?;
    }
  }

  lemma TokenBySecretIs(s: State, token: nat)
    requires Inv(s) && token in s.tokens
    ensures TokenBySecret(s, s.tokens[token].secret) == Some(token)
  {
    assert RowOk(s, token);
    var t := TokenBySecret(s, s.tokens[token].secret);
    assert t.Some?;
    assert Apart(s, t.value, token);
  }

  /** After a release the token is revoked and its device, if one is live, is gone; nothing else
      changed. */
  ghost predicate ReleasedRows(s: State, s': State, t: nat) {
    && t in s.tokens && s'.tokens == s.tokens[t := s.tokens[t].(revoked := true)]
    && (var c := s.tokens[t].consumedBy;
        if c.Some? && c.value in s.devices && s.devices[c.value].Live()
        then Gone(s, s'.(tokens := s.tokens), c.value)
        else s' == s.(tokens := s'.tokens))
  }

  lemma ReleaseRows(s: State, t: nat)
    requires Inv(s) && t in s.tokens
    ensures ReleasedRows(s, ReleaseStep(s, t), t)
  {
    hide Inv, Gone, RemoveDevice;
    var c := s.tokens[t].consumedBy;
    if c.Some? && c.value in s.devices && s.devices[c.value].Live() {
      RemovedIsGone(s, c.value);
      RemovalKeepsTokens(s, c.value);
      assert ReleaseStep(s, t).(tokens := s.tokens) == RemoveDevice(s, c.value);
    }
  }

  lemma RemovalKeepsTokens(s: State, d: nat)
    requires d in s.devices
    ensures RemoveDevice(s, d).tokens == s.tokens
  {
  }

  // ---- hub edits ----

  /** No mesh overlaps a route of the list but the default one. */
  ghost predicate RoutesFit(s: State, routes: seq<CidrText>) {
    forall r, h | r in routes && r != DEFAULT_ROUTE && h in s.hubs ::
      Parse(r).Some? && Parse(s.hubs[h].mesh).Some? && !Overlaps(Parse(r).value, Parse(s.hubs[h].mesh).value)
  }

  lemma RoutesFitIff(s: State, routes: seq<CidrText>, h: nat)
    requires Inv(s) && h in s.hubs
    ensures RoutesAccepted(routes, Hubs(s)) <==> RoutesFit(s, routes)
  {
    HubsSorted(s);
    forall k | k in s.hubs ensures s.hubs[k] in Hubs(s) && Parse(s.hubs[k].mesh).Some? {
      assert RowOk(s, k);
    }
  }

  /** An edit is accepted: the hub exists, a new mesh fits beside the other hubs', and new routes fit
      all meshes as they are. */
  ghost predicate EditGranted(s: State, hub: nat, mesh: Option<CidrText>, routes: Option<seq<CidrText>>) {
    && hub in s.hubs && (mesh.Some? ==> FitsBeside(s, mesh.value, hub)) && (routes.Some? ==> RoutesFit(s, routes.value))
  }

  /** The hub's endpoint is the one given, whether or not it is blank; address, mesh and routes are
      those given or else as they were; nothing else changed. */
  ghost predicate Edited(s: State, s': State, hub: nat, endpoint: string, wgIp: Option<HostText>,
                         mesh: Option<CidrText>, routes: Option<seq<CidrText>>)
  {
    && hub in s.hubs && hub in s'.hubs && s' == s.(hubs := s.hubs[hub := s'.hubs[hub]])
    && (var h, h' := s.hubs[hub], s'.hubs[hub];
        && h' == h.(endpoint := endpoint, wgIp := h'.wgIp, mesh := h'.mesh, routes := h'.routes)
        && Some(h'.wgIp) == (if wgIp.Some? then wgIp else Some(h.wgIp))
        && Some(h'.mesh) == (if mesh.Some? then mesh else Some(h.mesh))
        && Some(h'.routes) == (if routes.Some? then routes else Some(h.routes)))
  }

  lemma EditRows(s: State, hub: nat, endpoint: string, wgIp: Option<HostText>, mesh: Option<CidrText>,
                 routes: Option<seq<CidrText>>)
    requires Inv(s)
    ensures var s' := UpdateHubStep(s, hub, endpoint, wgIp, mesh, routes);
            if EditGranted(s, hub, mesh, routes) then Edited(s, s', hub, endpoint, wgIp, mesh, routes) else s' == s
  {
    hide Inv, MeshAccepted, RoutesAccepted, FitsBeside, RoutesFit, Hubs;
    if hub in s.hubs {
      if mesh.Some? {
        FitsIff(s, mesh.value, hub);
      }
      if routes.Some? {
        RoutesFitIff(s, routes.value, hub);
      }
    }
  }

  /** What the two guards of the edit decide. */
  lemma EditGrantedIff(s: State, hub: nat, mesh: Option<CidrText>, routes: Option<seq<CidrText>>)
    requires Inv(s)
    ensures EditGranted(s, hub, mesh, routes) <==>
              && hub in s.hubs && (mesh.Some? ==> MeshAccepted(mesh.value, Hubs(s), hub))
              && (routes.Some? ==> RoutesAccepted(routes.value, Hubs(s)))
  {
    hide Inv, MeshAccepted, RoutesAccepted, FitsBeside, RoutesFit, Hubs;
    if hub in s.hubs {
      if mesh.Some? {
        FitsIff(s, mesh.value, hub);
      }
      if routes.Some? {
        RoutesFitIff(s, routes.value, hub);
      }
    }
  }

  // ---- host links ----

  /** The device is live and among the reported keys or addresses. */
  predicate Named(d: Device, pubkeys: seq<string>, ips: seq<HostText>) {
    !d.removed && ((d.pubkey != "" && d.pubkey in pubkeys) || (d.ip != Other("") && d.ip in ips))
  }

  /** Named devices carry the reported host id, and nothing else changed. */
  ghost predicate HostStamped(s: State, s': State, pubkeys: seq<string>, ips: seq<HostText>, hostId: string) {
    && s'.devices.Keys == s.devices.Keys && s' == s.(devices := s'.devices)
    && forall i | i in s.devices ::
         var d := s.devices[i];
         s'.devices[i] == d.(hostId := if Named(d, pubkeys, ips) then hostId else d.hostId)
  }

  lemma LinkHostStamps(s: State, pubkeys: seq<string>, ips: seq<HostText>, hostId: string)
    ensures var s' := LinkHostStep(s, pubkeys, ips, hostId);
            if hostId == "" then s' == s else HostStamped(s, s', pubkeys, ips, hostId)
  {
  }

  // ---- links ----

  /** Exactly the pair a, b changed, to linked or to not linked. */
  ghost predicate OnlyPair(s: State, s': State, a: nat, b: nat, linked: bool) {
    && (forall c: nat, d: nat ::
          c in LinkSet(s', d) <==> if (c == a && d == b) || (c == b && d == a) then linked else c in LinkSet(s, d))
    && s' == s.(links := s'.links, nextLink := s'.nextLink)
  }

  /** c and d are linked when a row says so. */
  lemma LinkedIff(s: State, c: nat, d: nat)
    requires Inv(s)
    ensures c in LinkSet(s, d) <==> Norm(c, d) in s.links.Values
  {
    hide Norm;
    LinkedMeans(s, c, d);
    if i :| i in s.links && ((s.links[i].a == c && s.links[i].b == d) || (s.links[i].a == d && s.links[i].b == c)) {
      assert RowOk(s, i);
      NormIs(c, d, s.links[i]);
    }
    if i :| i in s.links && s.links[i] == Norm(c, d) {
      NormPair(c, d);
    }
  }

  lemma LinkedMeans(s: State, c: nat, d: nat)
    ensures c in LinkSet(s, d) <==>
              exists i :: i in s.links && ((s.links[i].a == c && s.links[i].b == d)
                                           || (s.links[i].a == d && s.links[i].b == c))
  {
    if i :| i in s.links && ((s.links[i].a == c && s.links[i].b == d) || (s.links[i].a == d && s.links[i].b == c)) {
      assert c == if s.links[i].a == d then s.links[i].b else s.links[i].a;
    }
  }

  lemma NormIs(c: nat, d: nat, l: Link)
    requires l.a < l.b && ((l.a == c && l.b == d) || (l.a == d && l.b == c))
    ensures l == Norm(c, d)
  {
  }

  lemma NormPair(c: nat, d: nat)
    ensures Norm(c, d) == Link(c, d) || Norm(c, d) == Link(d, c)
  {
  }

  lemma PublishLinks(s: State, a: nat, b: nat)
    requires Inv(s) && a != b && a in s.hubs && b in s.hubs
    ensures OnlyPair(s, PublishStep(s, a, b), a, b, true)
  {
    hide Inv, Norm, LinkSet;
    var s' := PublishStep(s, a, b);
    PublishKeeps(s, a, b);
    PublishedRows(s, a, b);
    forall c: nat, d: nat
      ensures c in LinkSet(s', d) <==> if (c == a && d == b) || (c == b && d == a) then true else c in LinkSet(s, d)
    {
      LinkedIff(s, c, d);
      LinkedIff(s', c, d);
      NormSame(a, b, c, d);
    }
  }

  lemma PublishedRows(s: State, a: nat, b: nat)
    requires Inv(s) && a != b && a in s.hubs && b in s.hubs
    ensures PublishStep(s, a, b).links.Values == s.links.Values + {Norm(a, b)}
  {
    hide Inv, Norm;
    var s' := PublishStep(s, a, b);
    forall i | i in s.links ensures i in s'.links && s'.links[i] == s.links[i] {
      LinkBelow(s, i);
    }
    if s' != s {
      assert s'.links[s.nextLink] == Norm(a, b);
    }
  }

  lemma LinkBelow(s: State, i: nat)
    requires Inv(s) && i in s.links
    ensures i < s.nextLink && s.links[i].a < s.links[i].b
  {
    assert RowOk(s, i);
  }

  lemma NormSame(a: nat, b: nat, c: nat, d: nat)
    ensures Norm(a, b) == Norm(c, d) <==> (c == a && d == b) || (c == b && d == a)
  {
  }

  lemma UnpublishUnlinks(s: State, link: nat)
    requires Inv(s) && link in s.links
    ensures OnlyPair(s, UnpublishStep(s, link), s.links[link].a, s.links[link].b, false)
  {
    hide Inv, Norm, LinkSet;
    var s' := UnpublishStep(s, link);
    var a, b := s.links[link].a, s.links[link].b;
    UnpublishKeeps(s, link);
    LinkBelow(s, link);
    NormIs(a, b, s.links[link]);
    UnpublishedRows(s, link);
    forall c: nat, d: nat
      ensures c in LinkSet(s', d) <==> if (c == a && d == b) || (c == b && d == a) then false else c in LinkSet(s, d)
    {
      LinkedIff(s, c, d);
      LinkedIff(s', c, d);
      NormSame(a, b, c, d);
    }
  }

  lemma UnpublishedRows(s: State, link: nat)
    requires Inv(s) && link in s.links
    ensures UnpublishStep(s, link).links.Values == s.links.Values - {s.links[link]}
  {
    hide Inv;
    var s' := UnpublishStep(s, link);
    forall l | l in s.links.Values && l != s.links[link] ensures l in s'.links.Values {
      var i :| i in s.links && s.links[i] == l;
      assert i in s'.links && s'.links[i] == l;
    }
    forall i | i in s.links && i != link ensures s.links[i] != s.links[link] {
      OneRowPerPair(s, i, link);
    }
  }

  lemma OneRowPerPair(s: State, i: nat, j: nat)
    requires Inv(s) && i in s.links && j in s.links && i != j
    ensures s.links[i] != s.links[j]
  {
    assert Apart(s, i, j);
  }

  // ---- egress ----

  /** Hub e advertises a route that device d may carry: any at its own hub, a subnet elsewhere. */
  ghost predicate Offers(s: State, d: nat, e: nat)
    requires d in s.devices
  {
    e in s.hubs && exists r :: r in s.hubs[e].routes && (e == s.devices[d].hub || r != DEFAULT_ROUTE)
  }

  /** The handler's guards accept a choice exactly when it is none or its hub offers a route. */
  lemma EgressAcceptedIff(s: State, d: nat, egress: Option<nat>)
    requires d in s.devices && s.devices[d].Live()
    ensures (egress.None? || Offers(s, d, egress.value)) <==>
              !(egress.Some? && (egress.value !in s.hubs || s.hubs[egress.value].routes == []
                || (egress.value != s.devices[d].hub && SubnetRoutes(s.hubs[egress.value].routes) == [])))
  {
    if egress.Some? && egress.value in s.hubs {
      var routes := s.hubs[egress.value].routes;
      if routes != [] {
        assert routes[0] in routes;
      }
      if SubnetRoutes(routes) != [] {
        assert SubnetRoutes(routes)[0] in SubnetRoutes(routes);
      }
    }
  }

  /** Device d's egress choice is the given one; the routes that its list gains from it are those
      its choice offers, of a reachable hub. */
  ghost predicate Chose(s: State, s': State, d: nat, egress: Option<nat>) {
    && d in s.devices && s' == s.(devices := s.devices[d := s.devices[d].(egress := egress)])
    && (s.devices[d].hub in s.hubs ==>
          forall r :: r in EgressExtra(egress, s.hubs[s.devices[d].hub], Hubs(s')) <==>
            egress.Some? && egress.value in s.hubs && r in s.hubs[egress.value].routes
            && (egress.value == s.devices[d].hub
                || (r != DEFAULT_ROUTE && s.hubs[egress.value].Configured() && s.hubs[egress.value].endpoint != "")))
  }

  lemma ChoiceRoutes(s: State, d: nat, egress: Option<nat>)
    requires Inv(s) && d in s.devices
    ensures Chose(s, SetDevice(s, d, s.devices[d].(egress := egress)), d, egress)
  {
    var h := s.devices[d].hub;
    assert RowOk(s, h);
    if egress.Some? {
      FindHubIs(s, egress.value);
    }
  }

  lemma FindHubIs(s: State, h: nat)
    requires Inv(s)
    ensures FindHub(Hubs(s), h) == if h in s.hubs then Some(s.hubs[h]) else None
  {
    if h in s.hubs {
      assert RowOk(s, h);
      assert s.hubs[h] in Hubs(s);
    }
    var f := FindHub(Hubs(s), h);
    if f.Some? {
      var i :| i in s.hubs && i < s.nextHub && s.hubs[i] == f.value;
      assert RowOk(s, i);
    }
  }

  // ---- deleting a hub ----

  /** Nothing refers to hub h any more. */
  ghost predicate Forgotten(s: State, h: nat) {
    && h !in s.hubs
    && (forall i | i in s.sites :: s.sites[i].hub != h)
    && (forall i | i in s.tokens :: s.tokens[i].hub != Some(h))
    && (forall i | i in s.devices :: s.devices[i].hub != h && s.devices[i].egress != Some(h))
    && (forall k: nat :: h !in LinkSet(s, k))
  }

  /** Only what referred to hub h is lost: every other hub, every device that is live or another
      hub's but for an egress choice of h, every token's spending, and every link of two other hubs is as it was. */
  ghost predicate OthersKept(s: State, s': State, h: nat) {
    && (forall k | k in s.hubs && k != h :: k in s'.hubs && s'.hubs[k] == s.hubs[k])
    && (forall i | i in s.devices && (s.devices[i].Live() || s.devices[i].hub != h) :: i in s'.devices
          && s'.devices[i] == s.devices[i].(egress :=
               if s.devices[i].egress == Some(h) then None else s.devices[i].egress))
    && (forall i | i in s.sites && s.sites[i].hub != h :: i in s'.sites && s'.sites[i] == s.sites[i])
    && (forall i | i in s.tokens :: i in s'.tokens
          && s'.tokens[i] == s.tokens[i].(hub := if s.tokens[i].hub == Some(h) then None else s.tokens[i].hub))
    && (forall c: nat, d: nat | c != h && d != h :: c in LinkSet(s', d) <==> c in LinkSet(s, d))
    && s'.hubs.Keys <= s.hubs.Keys && s'.devices.Keys <= s.devices.Keys && s'.sites.Keys <= s.sites.Keys
    && s'.tokens.Keys <= s.tokens.Keys
    && s' == s.(hubs := s'.hubs, devices := s'.devices, sites := s'.sites, tokens := s'.tokens, links := s'.links)
  }

  lemma DeletedIsForgotten(s: State, h: nat)
    requires h in s.hubs && forall i | i in s.devices && s.devices[i].hub == h :: !s.devices[i].Live()
    ensures Forgotten(DeleteHubStep(s, h), h) && OthersKept(s, DeleteHubStep(s, h), h)
  {
    hide LinkSet;
    var s' := DeleteHubStep(s, h);
    forall c: nat, d: nat ensures c in LinkSet(s', d) <==> c != h && d != h && c in LinkSet(s, d) {
      LinksLeft(s, h, c, d);
    }
  }

  lemma LinksLeft(s: State, h: nat, c: nat, d: nat)
    requires h in s.hubs && forall i | i in s.devices && s.devices[i].hub == h :: !s.devices[i].Live()
    ensures c in LinkSet(DeleteHubStep(s, h), d) <==> c != h && d != h && c in LinkSet(s, d)
  {
    hide LinkSet;
    var s' := DeleteHubStep(s, h);
    LinkedMeans(s, c, d);
    LinkedMeans(s', c, d);
    if i :| c != h && d != h && i in s.links
            && ((s.links[i].a == c && s.links[i].b == d) || (s.links[i].a == d && s.links[i].b == c)) {
      assert i in s'.links && s'.links[i] == s.links[i];
    }
  }
}
