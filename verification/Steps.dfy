/** Every handler that changes the database, as one atomic step on its value. A refused request
    leaves the state as it was. A request field that is absent or empty is None. */
module Steps {
  import opened Text
  import opened Cidr
  import opened Model
  import opened Queries

  datatype Event =
    | MintHub(slug: string, endpoint: string, mesh: Option<CidrText>, expires: Option<nat>)
    | MintDevice(hub: nat, expires: Option<nat>)
    | MintInternal(slug: string, until: nat)
    | Register(input: RegisterInput, now: nat)
    | Heartbeat(secret: nat, claimed: nat, now: nat, lanEndpoint: Option<string>)
    | Rotate(secret: nat, claimed: nat, now: nat, until: nat)
    | Leave(secret: nat, claimed: nat, now: nat)
    | Remove(device: nat)
    | Release(token: nat)
    | Sweep(cutoff: nat)
    | Revoke(token: nat)
    | ResetBind(hub: nat)
    | UpdateHub(hub: nat, endpoint: string, wgIp: Option<HostText>, mesh: Option<CidrText>,
                routes: Option<seq<CidrText>>)
    | DeleteHub(hub: nat)
    | Publish(a: nat, b: nat)
    | Unpublish(link: nat)
    | SetEgress(device: nat, egress: Option<nat>)
    | LinkHost(pubkeys: seq<string>, ips: seq<HostText>, hostId: string)

  // ---- minting ----

  function AddToken(s: State, role: Role, hub: nat, expires: Option<nat>): State {
    s.(tokens := s.tokens[s.nextToken := Token(s.nextSecret, role, Some(hub), expires, None, false)],
       nextToken := s.nextToken + 1, nextSecret := s.nextSecret + 1)
  }

  /** createWGHub: the hub's own address is slot 1 of its mesh. */
  function AddHub(s: State, slug: string, endpoint: string, mesh: CidrText): State
    requires Parse(mesh).Some?
  {
    var ip := DeviceIP(Parse(mesh).value.net, 1);
    s.(hubs := s.hubs[s.nextHub := Hub(s.nextHub, slug, "", endpoint, Bare(ip), mesh, None, [])],
       nextHub := s.nextHub + 1)
  }

  /** createWGTokenForHub. */
  function MintHubStep(s: State, slug: string, endpoint: string, meshPref: Option<CidrText>,
                       expires: Option<nat>): State {
    if slug == "" || endpoint == "" then s else
    var chosen := if meshPref.Some? then meshPref else SuggestMesh(s);
    if chosen.None? || Parse(chosen.value).None? then s else
    var mesh := chosen.value;
    var existing := HubBySlug(s, slug);
    if existing.Some? then
      var hub := s.hubs[existing.value];
      if hub.bound.Some? || hub.endpoint != endpoint || hub.mesh != mesh then s
      else AddToken(s, HubRole, existing.value, expires)
    else if !MeshAccepted(mesh, Hubs(s), 0) then s
    else AddToken(AddHub(s, slug, endpoint, mesh), HubRole, s.nextHub, expires)
  }

  /** createWGTokenForDevice. */
  function MintDeviceStep(s: State, hub: nat, expires: Option<nat>): State {
    if hub in s.hubs then AddToken(s, DeviceRole, hub, expires) else s
  }

  /** handleInternalWGTokenMint. */
  function MintInternalStep(s: State, slug: string, expires: nat): State {
    var hub := HubBySlug(s, slug);
    if slug == "" || hub.None? || !s.hubs[hub.value].Configured() then s
    else MintDeviceStep(s, hub.value, Some(expires))
  }

  // ---- registering ----

  datatype SiteResult = SiteOk(state: State, site: nat) | SiteErr(error: RegisterError)

  /** INSERT INTO wg_sites under its unique indexes and its CHECK. */
  function InsertSite(s: State, x: Site): SiteResult {
    if x.sIndex > 254 || exists i | i in s.sites ::
      s.sites[i].slug == x.slug || (s.sites[i].hub == x.hub && s.sites[i].sIndex == x.sIndex)
    then SiteErr(UniqueViolation)
    else SiteOk(s.(sites := s.sites[s.nextSite := x], nextSite := s.nextSite + 1), s.nextSite)
  }

  /** getOrCreateSiteTx on the "<hub>:hub" site. */
  function HubSite(s: State, hub: nat, publicIp: string): SiteResult
    requires hub in s.hubs
  {
    var slug := s.hubs[hub].slug + ":hub";
    var found := SiteBySlugInHub(s, hub, slug);
    if found.Some? then SiteOk(s, found.value) else InsertSite(s, Site(hub, slug, 0, publicIp, ""))
  }

  /** createSite. */
  function CreateSite(s: State, hub: nat, slug: string, publicIp: string, lan: string): SiteResult
    requires hub in s.hubs
  {
    var index := FreeSIndex(s, hub);
    if index.None? then SiteErr(SiteSlotsExhausted) else
    var named := if slug == "" then s.hubs[hub].slug + ":site_" + Dec(index.value) else slug;
    InsertSite(s, Site(hub, named, index.value, publicIp, lan))
  }

  /** resolveOrCreateWGSite. */
  function ResolveSite(s: State, hub: nat, input: RegisterInput): SiteResult
    requires hub in s.hubs
  {
    if input.siteSlug != "" then
      var slug := s.hubs[hub].slug + ":" + input.siteSlug;
      var found := SiteBySlugInHub(s, hub, slug);
      if found.Some? then SiteOk(s, found.value)
      else CreateSite(s, hub, slug, input.publicIp, input.lan)
    else
      var found := SiteByAutoKey(s, hub, input.publicIp, input.lan);
      if found.Some? then SiteOk(s, found.value)
      else CreateSite(s, hub, "", input.publicIp, input.lan)
  }

  /** The three partial unique indexes on live devices. */
  predicate InsertCollides(s: State, d: Device) {
    exists i | i in s.devices :: s.devices[i].Live() &&
      (s.devices[i].ip == d.ip || s.devices[i].pubkey == d.pubkey
       || (s.devices[i].site == d.site && s.devices[i].dIndex == d.dIndex))
  }

  /** A device row entered and its join token marked consumed. */
  function AddDevice(s: State, d: Device, token: nat): State
    requires token in s.tokens
  {
    s.(devices := s.devices[d.id := d], nextDevice := s.nextDevice + 1,
       tokens := s.tokens[token := s.tokens[token].(consumedBy := Some(d.id))])
  }

  function NewDevice(s: State, input: RegisterInput, now: nat, token: nat, hub: nat, site: nat, dIndex: nat,
                     ip: HostText, isolated: bool): Device
    requires token in s.tokens
  {
    Device(s.nextDevice, hub, site, dIndex, ip, input.pubkey, input.hostname, input.hostId, input.lanEndpoint,
           input.secret, s.tokens[token].expires, None, isolated, now, None, false)
  }

  /** updateWGHubBindTx. */
  function Bind(s: State, hub: nat, pubkey: string, observed: string, device: nat): State
    requires hub in s.hubs
  {
    var h := s.hubs[hub];
    s.(hubs := s.hubs[hub := h.(pubkey := pubkey, bound := Some(device),
                                endpoint := if h.endpoint == "" then observed else h.endpoint)])
  }

  /** bindHubDevice. */
  function BindHub(s: State, input: RegisterInput, now: nat, token: nat, hub: nat): (State, Outcome)
    requires token in s.tokens && hub in s.hubs
  {
    if s.hubs[hub].bound.Some? then (s, Refused(HubAlreadyBound)) else
    match HubSite(s, hub, input.publicIp)
    case SiteErr(e) => (s, Refused(e))
    case SiteOk(s1, site) =>
      var d := NewDevice(s1, input, now, token, hub, site, 1, s.hubs[hub].wgIp, false);
      if InsertCollides(s1, d) then (s, Refused(UniqueViolation))
      else (Bind(AddDevice(s1, d, token), hub, input.pubkey, input.observed, d.id), Registered(d.id, HubRole))
  }

  /** allocateDevice. */
  function Allocate(s: State, input: RegisterInput, now: nat, token: nat, hub: nat): (State, Outcome)
    requires token in s.tokens && hub in s.hubs
  {
    if !s.hubs[hub].Configured() then (s, Refused(HubNotConfigured)) else
    if Parse(s.hubs[hub].mesh).None? then (s, Refused(BadMesh)) else
    match ResolveSite(s, hub, input)
    case SiteErr(e) => (s, Refused(e))
    case SiteOk(s1, site) =>
      var dIndex := FreeDIndex(s1, hub);
      if dIndex.None? then (s, Refused(SiteExhausted)) else
      var ip := Bare(DeviceIP(Parse(s.hubs[hub].mesh).value.net, dIndex.value));
      var d := NewDevice(s1, input, now, token, hub, site, dIndex.value, ip, input.isolated);
      if InsertCollides(s1, d) then (s, Refused(UniqueViolation))
      else (AddDevice(s1, d, token), Registered(d.id, DeviceRole))
  }

  /** refreshExistingDevice. */
  function Refresh(s: State, input: RegisterInput, device: nat): State
    requires device in s.devices
  {
    var d := s.devices[device];
    s.(devices := s.devices[device := d.(hostname := input.hostname, lanEndpoint := input.lanEndpoint,
                                         hostId := if input.hostId == "" then d.hostId else input.hostId)])
  }

  /** Why doAllocate turns a request away before it looks at the pubkey. */
  function TokenObjection(s: State, secret: nat, now: nat): (r: Option<RegisterError>)
  {
    var t := TokenBySecret(s, secret);
    if t.None? then Some(TokenInvalid) else
    var tok := s.tokens[t.value];
    if tok.expires.Some? && now > tok.expires.value then Some(TokenExpired)
    else if tok.revoked then Some(TokenRevoked)
    else if tok.hub.None? || tok.hub.value !in s.hubs then Some(TokenNoHub)
    else None
  }

  /** allocateWGDevice and doAllocate. */
  function RegisterStep(s: State, input: RegisterInput, now: nat): (State, Outcome) {
    if input.pubkey == "" || |input.pubkey| > 128 then (s, Refused(BadPubkey)) else
    var objection := TokenObjection(s, input.secret, now);
    if objection.Some? then (s, Refused(objection.value)) else
    var token := TokenBySecret(s, input.secret).value;
    var hub := s.tokens[token].hub.value;
    var existing := LiveByPubkey(s, input.pubkey);
    if existing.Some? then
      if s.devices[existing.value].secret == input.secret then
        (Refresh(s, input, existing.value),
         Registered(existing.value, if s.hubs[hub].bound == existing then HubRole else DeviceRole))
      else (s, Refused(PubkeyTaken))
    else if s.tokens[token].consumedBy.Some? then (s, Refused(TokenAlreadyBound))
    else if s.tokens[token].role.HubRole? then BindHub(s, input, now, token, hub)
    else Allocate(s, input, now, token, hub)
  }

  // ---- a registered device's own requests ----

  function SetDevice(s: State, device: nat, d: Device): State {
    s.(devices := s.devices[device := d])
  }

  function HeartbeatStep(s: State, secret: nat, claimed: nat, now: nat, lanEndpoint: Option<string>): State {
    var b := Bearer(s, secret, claimed, now);
    if b.None? then s else
    var d := s.devices[b.value];
    SetDevice(s, b.value, d.(lastSeen := Some(now),
                             lanEndpoint := if lanEndpoint.Some? then lanEndpoint.value else d.lanEndpoint))
  }

  /** handleWGTokenRefresh. */
  function RotateStep(s: State, secret: nat, claimed: nat, now: nat, expires: nat): State {
    var b := Bearer(s, secret, claimed, now);
    if b.None? then s else
    var d := s.devices[b.value];
    SetDevice(s, b.value, d.(secret := s.nextSecret, expires := if d.expires.Some? then Some(expires) else None))
      .(nextSecret := s.nextSecret + 1)
  }

  /** clearWGHubBind. */
  function ClearBind(s: State, hub: nat): State {
    if hub in s.hubs then s.(hubs := s.hubs[hub := s.hubs[hub].(pubkey := "", bound := None)]) else s
  }

  /** markWGDeviceRemoved followed by unbinding the hub this device held. */
  function RemoveDevice(s: State, device: nat): State
    requires device in s.devices
  {
    var d := s.devices[device];
    var s1 := SetDevice(s, device, d.(removed := true));
    if d.hub in s.hubs && s.hubs[d.hub].bound == Some(device) then ClearBind(s1, d.hub) else s1
  }

  function LeaveStep(s: State, secret: nat, claimed: nat, now: nat): State {
    var b := Bearer(s, secret, claimed, now);
    if b.None? then s else RemoveDevice(s, b.value)
  }

  // ---- operators and siblings ----

  function RemoveStep(s: State, device: nat): State {
    if device in s.devices then RemoveDevice(s, device) else s
  }

  function RevokeStep(s: State, token: nat): State {
    if token in s.tokens then s.(tokens := s.tokens[token := s.tokens[token].(revoked := true)]) else s
  }

  /** handleInternalWGTokenRelease. */
  function ReleaseStep(s: State, token: nat): State {
    if token !in s.tokens then s else
    var consumer := s.tokens[token].consumedBy;
    var s1 := if consumer.Some? && consumer.value in s.devices && s.devices[consumer.value].Live()
              then RemoveDevice(s, consumer.value) else s;
    RevokeStep(s1, token)
  }

  predicate Stale(d: Device, cutoff: nat) {
    d.Live() && (if d.lastSeen.Some? then d.lastSeen.value < cutoff else d.created < cutoff)
  }

  /** Every device in victims removed, and every hub bound to one of them unbound. */
  function RemoveAll(s: State, victims: set<nat>): State {
    s.(devices := map i | i in s.devices :: if i in victims then s.devices[i].(removed := true) else s.devices[i],
       hubs := map h | h in s.hubs :: if s.hubs[h].bound.Some? && s.hubs[h].bound.value in victims
                                      then s.hubs[h].(pubkey := "", bound := None) else s.hubs[h])
  }

  function Victims(s: State, cutoff: nat): set<nat> {
    set i | i in s.devices && Stale(s.devices[i], cutoff)
  }

  /** sweepStaleWGDevices. */
  function SweepStep(s: State, cutoff: nat): State {
    RemoveAll(s, Victims(s, cutoff))
  }

  /** handleAdminWGHubUpdate. */
  function UpdateHubStep(s: State, hub: nat, endpoint: string, wgIp: Option<HostText>, mesh: Option<CidrText>,
                         routes: Option<seq<CidrText>>): State {
    if hub !in s.hubs then s
    else if mesh.Some? && !MeshAccepted(mesh.value, Hubs(s), hub) then s
    else if routes.Some? && !RoutesAccepted(routes.value, Hubs(s)) then s
    else
      var h := s.hubs[hub];
      s.(hubs := s.hubs[hub := h.(endpoint := endpoint,
                                  wgIp := if wgIp.Some? then wgIp.value else h.wgIp,
                                  mesh := if mesh.Some? then mesh.value else h.mesh,
                                  routes := if routes.Some? then routes.value else h.routes)])
  }

  // The ON DELETE actions of the schema, when a hub row goes.

  function SitesWithout(sites: map<nat, Site>, hub: nat): map<nat, Site> {
    map i | i in sites && sites[i].hub != hub :: sites[i]
  }

  function DevicesWithout(devices: map<nat, Device>, hub: nat): map<nat, Device> {
    map i | i in devices && devices[i].hub != hub ::
      devices[i].(egress := if devices[i].egress == Some(hub) then None else devices[i].egress)
  }

  function TokensWithout(tokens: map<nat, Token>, hub: nat): map<nat, Token> {
    map i | i in tokens :: tokens[i].(hub := if tokens[i].hub == Some(hub) then None else tokens[i].hub)
  }

  function LinksWithout(links: map<nat, Link>, hub: nat): map<nat, Link> {
    map i | i in links && links[i].a != hub && links[i].b != hub :: links[i]
  }

  /** deleteWGHub. */
  function DeleteHubStep(s: State, hub: nat): State {
    if hub !in s.hubs || exists i | i in s.devices :: s.devices[i].hub == hub && s.devices[i].Live() then s
    else s.(hubs := s.hubs - {hub}, sites := SitesWithout(s.sites, hub), devices := DevicesWithout(s.devices, hub),
            tokens := TokensWithout(s.tokens, hub), links := LinksWithout(s.links, hub))
  }

  /** normHubPair. */
  function Norm(a: nat, b: nat): Link {
    if a > b then Link(b, a) else Link(a, b)
  }

  /** createWGHubLink: idempotent, and both hubs must exist. */
  function PublishStep(s: State, a: nat, b: nat): State {
    if a == b || a !in s.hubs || b !in s.hubs || (exists i | i in s.links :: s.links[i] == Norm(a, b)) then s
    else s.(links := s.links[s.nextLink := Norm(a, b)], nextLink := s.nextLink + 1)
  }

  function UnpublishStep(s: State, link: nat): State {
    s.(links := s.links - {link})
  }

  /** handleAdminWGDeviceUpdate. */
  function SetEgressStep(s: State, device: nat, egress: Option<nat>): State {
    if device !in s.devices || !s.devices[device].Live() then s
    else if egress.Some? && (egress.value !in s.hubs || s.hubs[egress.value].routes == []
              || (egress.value != s.devices[device].hub && SubnetRoutes(s.hubs[egress.value].routes) == [])) then s
    else SetDevice(s, device, s.devices[device].(egress := egress))
  }

  /** handleInternalWGDeviceLink. */
  function LinkHostStep(s: State, pubkeys: seq<string>, ips: seq<HostText>, hostId: string): State {
    if hostId == "" then s else
    s.(devices := map i | i in s.devices ::
         if s.devices[i].Live() && ((s.devices[i].pubkey != "" && s.devices[i].pubkey in pubkeys)
                                    || (s.devices[i].ip != Other("") && s.devices[i].ip in ips))
         then s.devices[i].(hostId := hostId) else s.devices[i])
  }

  // ---- runs ----

  function Next(s: State, e: Event): State {
    match e
    case MintHub(slug, endpoint, mesh, expires) => MintHubStep(s, slug, endpoint, mesh, expires)
    case MintDevice(hub, expires) => MintDeviceStep(s, hub, expires)
    case MintInternal(slug, expires) => MintInternalStep(s, slug, expires)
    case Register(input, now) => RegisterStep(s, input, now).0
    case Heartbeat(secret, claimed, now, lan) => HeartbeatStep(s, secret, claimed, now, lan)
    case Rotate(secret, claimed, now, expires) => RotateStep(s, secret, claimed, now, expires)
    case Leave(secret, claimed, now) => LeaveStep(s, secret, claimed, now)
    case Remove(device) => RemoveStep(s, device)
    case Release(token) => ReleaseStep(s, token)
    case Sweep(cutoff) => SweepStep(s, cutoff)
    case Revoke(token) => RevokeStep(s, token)
    case ResetBind(hub) => ClearBind(s, hub)
    case UpdateHub(hub, endpoint, wgIp, mesh, routes) => UpdateHubStep(s, hub, endpoint, wgIp, mesh, routes)
    case DeleteHub(hub) => DeleteHubStep(s, hub)
    case Publish(a, b) => PublishStep(s, a, b)
    case Unpublish(link) => UnpublishStep(s, link)
    case SetEgress(device, egress) => SetEgressStep(s, device, egress)
    case LinkHost(pubkeys, ips, hostId) => LinkHostStep(s, pubkeys, ips, hostId)
  }

  /** The state after a run of steps from the empty database. */
  function Run(es: seq<Event>): State {
    if es == [] then INITIAL else Next(Run(es[..|es| - 1]), es[|es| - 1])
  }
}
