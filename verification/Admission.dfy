/** What a registration is answered and which rows it leaves, read off the tables alone. */
module Admission {
  import opened Text
  import opened Cidr
  import opened Model
  import opened Queries
  import opened Steps
  import opened Invariants
  import opened Allocation
  import opened Slots

  // ---- which site ----

  /** Site row x is the one that a registration with a token of this role means in hub h. */
  predicate Meant(s: State, h: nat, role: Role, input: RegisterInput, x: Site)
    requires h in s.hubs
  {
    && x.hub == h
    && match role
       case HubRole => x.slug == s.hubs[h].slug + ":hub"
       case DeviceRole =>
         if input.siteSlug != "" then x.slug == s.hubs[h].slug + ":" + input.siteSlug
         else x.publicIp == input.publicIp && x.lan == input.lan
  }

  ghost predicate IndexUsed(s: State, h: nat, v: nat) {
    exists i :: i in s.sites && s.sites[i].hub == h && s.sites[i].sIndex == v
  }

  /** Index v is the least of 1..254 that no site of hub h has. */
  ghost predicate LeastIndex(s: State, h: nat, v: nat) {
    1 <= v <= 254 && !IndexUsed(s, h, v) && forall u | 1 <= u < v :: IndexUsed(s, h, u)
  }

  /** What a new site row looks like: index 0 and no LAN for the hub's own, the least free index
      and the reported LAN otherwise. */
  ghost predicate NewSite(s: State, h: nat, role: Role, input: RegisterInput, x: Site)
    requires h in s.hubs
  {
    match role
    case HubRole => x == Site(h, s.hubs[h].slug + ":hub", 0, input.publicIp, "")
    case DeviceRole =>
      && LeastIndex(s, h, x.sIndex)
      && x == Site(h, if input.siteSlug != "" then s.hubs[h].slug + ":" + input.siteSlug
                      else s.hubs[h].slug + ":site_" + Dec(x.sIndex), x.sIndex, input.publicIp, input.lan)
  }

  /** The site that was meant is used if it exists, the oldest one if there are several, and opened
      otherwise; either way the next registration of the same kind means it again. */
  ghost predicate Sited(s: State, sites: map<nat, Site>, next: nat, h: nat, role: Role, input: RegisterInput, site: nat)
    requires h in s.hubs
  {
    && site in sites && Meant(s, h, role, input, sites[site])
    && (forall i | i in s.sites && i < site :: !Meant(s, h, role, input, s.sites[i]))
    && if site in s.sites then sites == s.sites && next == s.nextSite
       else
         && site == s.nextSite && next == s.nextSite + 1
         && sites == s.sites[site := sites[site]] && NewSite(s, h, role, input, sites[site])
         && forall i | i in s.sites :: !Meant(s, h, role, input, s.sites[i])
  }

  lemma SiteBelow(s: State)
    requires Inv(s)
    ensures forall i | i in s.sites :: i < s.nextSite
  {
    forall i | i in s.sites ensures i < s.nextSite {
      assert RowOk(s, i);
    }
  }

  lemma HubSited(s: State, h: nat, input: RegisterInput)
    requires Inv(s) && h in s.hubs && HubSite(s, h, input.publicIp).SiteOk?
    ensures var r := HubSite(s, h, input.publicIp);
            Sited(s, r.state.sites, r.state.nextSite, h, HubRole, input, r.site)
  {
    hide Inv;
    SiteBelow(s);
  }

  /** When the search for a site index finds one, and when it does not. */
  lemma IndexSearch(s: State, h: nat)
    ensures FreeSIndex(s, h).Some? ==> LeastIndex(s, h, FreeSIndex(s, h).value)
    ensures FreeSIndex(s, h).None? <==> forall u: nat | 1 <= u <= 254 :: IndexUsed(s, h, u)
  {
    hide LeastFree, IndexUsed;
    var used := UsedSIndexes(s, h);
    var r := LeastFree(used, 1, 254);
    forall u: nat ensures u in used <==> IndexUsed(s, h, u) {
      UsedIndex(s, h, u);
    }
    assert r == FreeSIndex(s, h);
    if r.Some? {
      assert !IndexUsed(s, h, r.value);
    } else {
      forall u: nat | 1 <= u <= 254 ensures IndexUsed(s, h, u) {
        assert u in used;
      }
    }
  }

  lemma UsedIndex(s: State, h: nat, u: nat)
    ensures u in UsedSIndexes(s, h) <==> IndexUsed(s, h, u)
  {
  }

  lemma SpokeSited(s: State, h: nat, input: RegisterInput)
    requires Inv(s) && h in s.hubs && ResolveSite(s, h, input).SiteOk?
    ensures var r := ResolveSite(s, h, input);
            Sited(s, r.state.sites, r.state.nextSite, h, DeviceRole, input, r.site)
  {
    hide Inv, FreeSIndex, LeastIndex, Dec;
    SiteBelow(s);
    IndexSearch(s, h);
  }

  // ---- which slot ----

  /** Slot v is the least of 2..254 that no live device of hub h has. */
  ghost predicate LeastSlot(s: State, h: nat, v: nat) {
    2 <= v <= 254 && !SlotTaken(s, h, v) && forall u | 2 <= u < v :: SlotTaken(s, h, u)
  }

  lemma SlotSearch(s: State, h: nat)
    requires Inv(s)
    ensures FreeDIndex(s, h).Some? ==> LeastSlot(s, h, FreeDIndex(s, h).value)
  {
    hide LeastFree, Inv;
    var used := UsedDIndexes(s, h);
    var r := LeastFree(used, 2, 254);
    assert r == FreeDIndex(s, h);
    forall u: nat ensures u in used <==> SlotTaken(s, h, u) {
      SlotUsed(s, h, u);
    }
  }

  lemma SlotUsed(s: State, h: nat, u: nat)
    requires Inv(s)
    ensures u in UsedDIndexes(s, h) <==> SlotTaken(s, h, u)
  {
    if i :| i in s.devices && s.devices[i].Live() && s.devices[i].site in s.sites
            && s.sites[s.devices[i].site].hub == h && s.devices[i].dIndex == u {
      assert RowOk(s, i);
    }
    if i :| i in s.devices && s.devices[i].Live() && s.devices[i].hub == h && s.devices[i].dIndex == u {
      assert RowOk(s, i);
    }
  }

  // ---- the row that a registration enters ----

  /** The device row of a granted registration, field by field. */
  ghost predicate NewRow(s: State, h: nat, token: Token, input: RegisterInput, now: nat, d: Device)
    requires h in s.hubs
  {
    && d.id == s.nextDevice && d.hub == h
    && d.pubkey == input.pubkey && d.hostname == input.hostname && d.hostId == input.hostId
    && d.lanEndpoint == input.lanEndpoint && d.secret == input.secret && d.expires == token.expires
    && d.egress.None? && d.created == now && d.lastSeen.None? && !d.removed
    && match token.role
       case HubRole => d.dIndex == 1 && d.ip == s.hubs[h].wgIp && !d.isolated
       case DeviceRole =>
         && LeastSlot(s, h, d.dIndex) && Parse(s.hubs[h].mesh).Some?
         && d.ip == Bare(DeviceIP(Parse(s.hubs[h].mesh).value.net, d.dIndex)) && d.isolated == input.isolated
  }

  /** The hub row after a granted registration: a bind gives it the key and the device, and an
      endpoint only if it had none. */
  function HubAfter(h: Hub, role: Role, input: RegisterInput, device: nat): Hub {
    match role
    case HubRole => h.(pubkey := input.pubkey, bound := Some(device),
                       endpoint := if h.endpoint != "" then h.endpoint else input.observed)
    case DeviceRole => h
  }

  /** Token t, of hub h, enters device row d: what all tables hold afterwards. */
  ghost predicate Admitted(s: State, s': State, h: nat, t: nat, input: RegisterInput, now: nat)
    requires h in s.hubs && t in s.tokens
  {
    && s.nextDevice !in s.devices && s.nextDevice in s'.devices
    && (var d := s'.devices[s.nextDevice];
        && NewRow(s, h, s.tokens[t], input, now, d)
        && Sited(s, s'.sites, s'.nextSite, h, s.tokens[t].role, input, d.site)
        && s' == s.(devices := s.devices[s.nextDevice := d], nextDevice := s.nextDevice + 1,
                    tokens := s.tokens[t := s.tokens[t].(consumedBy := Some(s.nextDevice))],
                    hubs := s.hubs[h := HubAfter(s.hubs[h], s.tokens[t].role, input, s.nextDevice)],
                    sites := s'.sites, nextSite := s'.nextSite))
  }

  lemma NextDeviceFresh(s: State)
    requires Inv(s)
    ensures s.nextDevice !in s.devices
  {
    assert RowOk(s, s.nextDevice);
  }

  lemma BindAdmits(s: State, input: RegisterInput, now: nat, t: nat, h: nat)
    requires Inv(s) && t in s.tokens && h in s.hubs && s.tokens[t].role.HubRole?
    ensures var (s', o) := BindHub(s, input, now, t, h);
            if o.Registered? then o == Registered(s.nextDevice, HubRole) && Admitted(s, s', h, t, input, now)
            else s' == s && (if s.hubs[h].bound.Some? then o.error == HubAlreadyBound else o.error == UniqueViolation)
  {
    hide Inv, HubSite, InsertCollides, Sited;
    NextDeviceFresh(s);
    HubSiteResolves(s, h, input.publicIp);
    SiteErrors(s, h, input);
    if HubSite(s, h, input.publicIp).SiteOk? {
      HubSited(s, h, input);
    }
  }

  lemma SiteErrors(s: State, h: nat, input: RegisterInput)
    requires h in s.hubs
    ensures HubSite(s, h, input.publicIp).SiteErr? ==> HubSite(s, h, input.publicIp).error == UniqueViolation
    ensures ResolveSite(s, h, input).SiteErr? ==>
              ResolveSite(s, h, input).error in {UniqueViolation, SiteSlotsExhausted}
  {
  }

  lemma AllocateAdmits(s: State, input: RegisterInput, now: nat, t: nat, h: nat)
    requires Inv(s) && t in s.tokens && h in s.hubs && s.tokens[t].role.DeviceRole?
    ensures var (s', o) := Allocate(s, input, now, t, h);
            if o.Registered? then o == Registered(s.nextDevice, DeviceRole) && Admitted(s, s', h, t, input, now)
            else s' == s && (if s.hubs[h].pubkey == "" then o.error == HubNotConfigured
                             else o.error in {SiteSlotsExhausted, SiteExhausted, UniqueViolation})
  {
    hide Inv, ResolveSite, InsertCollides, Sited, FreeDIndex, LeastSlot, SlotTaken;
    NextDeviceFresh(s);
    MeshKnown(s, h);
    ResolveSiteResolves(s, h, input);
    SiteErrors(s, h, input);
    if ResolveSite(s, h, input).SiteOk? {
      SpokeSited(s, h, input);
      var s1 := ResolveSite(s, h, input).state;
      SlotSearch(s1, h);
      forall v: nat ensures LeastSlot(s1, h, v) ==> LeastSlot(s, h, v) {
        SameSlots(s, s1, h, v);
      }
      assert s.hubs[h := s.hubs[h]] == s.hubs;
    }
  }

  lemma MeshKnown(s: State, h: nat)
    requires Inv(s) && h in s.hubs
    ensures Parse(s.hubs[h].mesh).Some?
  {
    assert RowOk(s, h);
  }

  lemma SameSlots(s: State, s1: State, h: nat, v: nat)
    requires s1.devices == s.devices
    ensures LeastSlot(s1, h, v) ==> LeastSlot(s, h, v)
  {
    forall u: nat ensures SlotTaken(s1, h, u) <==> SlotTaken(s, h, u) {
    }
  }

  // ---- answers ----

  predicate BadKey(pubkey: string) {
    pubkey == "" || |pubkey| > 128
  }

  /** Row t is the token whose secret was presented. */
  predicate Presented(s: State, secret: nat, t: nat) {
    t in s.tokens && s.tokens[t].secret == secret
  }

  predicate Expired(token: Token, now: nat) {
    token.expires.Some? && now > token.expires.value
  }

  /** The token is in force and names a hub that exists. */
  predicate InForce(s: State, token: Token, now: nat) {
    !Expired(token, now) && !token.revoked && token.hub.Some? && token.hub.value in s.hubs
  }

  /** Row i is the live device with this pubkey. */
  predicate Holds(s: State, pubkey: string, i: nat) {
    i in s.devices && !s.devices[i].removed && s.devices[i].pubkey == pubkey
  }

  lemma PresentedFound(s: State, secret: nat, t: nat)
    requires Inv(s) && Presented(s, secret, t)
    ensures TokenBySecret(s, secret) == Some(t)
  {
    assert RowOk(s, t);
    var r := TokenBySecret(s, secret);
    assert r.Some?;
    assert Apart(s, r.value, t);
  }

  lemma HolderFound(s: State, pubkey: string, i: nat)
    requires Inv(s) && Holds(s, pubkey, i)
    ensures LiveByPubkey(s, pubkey) == Some(i)
  {
    assert RowOk(s, i);
    var r := LiveByPubkey(s, pubkey);
    assert r.Some?;
    assert Apart(s, r.value, i);
  }

  lemma NobodyHolds(s: State, pubkey: string)
    requires Inv(s) && forall i | i in s.devices :: !Holds(s, pubkey, i)
    ensures LiveByPubkey(s, pubkey).None?
  {
  }

  /** A key of the wrong length and an unknown secret are refused as such. */
  lemma UnknownRefused(s: State, input: RegisterInput, now: nat)
    requires BadKey(input.pubkey) || forall t | t in s.tokens :: !Presented(s, input.secret, t)
    ensures RegisterStep(s, input, now) == (s, Refused(if BadKey(input.pubkey) then BadPubkey else TokenInvalid))
  {
  }

  /** A token that is not in force is refused for the first of three reasons. */
  lemma NotInForceRefused(s: State, input: RegisterInput, now: nat, t: nat)
    requires Inv(s) && !BadKey(input.pubkey) && Presented(s, input.secret, t) && !InForce(s, s.tokens[t], now)
    ensures RegisterStep(s, input, now)
            == (s, Refused(if Expired(s.tokens[t], now) then TokenExpired else if s.tokens[t].revoked then TokenRevoked
                           else TokenNoHub))
  {
    PresentedFound(s, input.secret, t);
  }

  /** A live device that registers again with its own secret is refreshed: host name and LAN endpoint
      as reported now, the host id unless none is reported, and nothing else. A live key under
      another secret is refused. */
  lemma HeldKeyAnswered(s: State, input: RegisterInput, now: nat, t: nat, i: nat)
    requires Inv(s) && !BadKey(input.pubkey) && Presented(s, input.secret, t) && InForce(s, s.tokens[t], now)
    requires Holds(s, input.pubkey, i)
    ensures s.tokens[t].hub.Some? && s.tokens[t].hub.value in s.hubs
    ensures Recognized(s, RegisterStep(s, input, now).0, RegisterStep(s, input, now).1, input, s.tokens[t].hub.value, i)
  {
    hide Inv, BindHub, Allocate;
    PresentedFound(s, input.secret, t);
    HolderFound(s, input.pubkey, i);
  }

  /** A new key with a token in force: refused if the token is spent; otherwise either refused, for a
      reason of its role and with nothing changed, or admitted. */
  lemma NewKeyAnswered(s: State, input: RegisterInput, now: nat, t: nat)
    requires Inv(s) && !BadKey(input.pubkey) && Presented(s, input.secret, t) && InForce(s, s.tokens[t], now)
    requires forall i | i in s.devices :: !Holds(s, input.pubkey, i)
    ensures s.tokens[t].hub.Some? && s.tokens[t].hub.value in s.hubs
    ensures NewKey(s, RegisterStep(s, input, now).0, RegisterStep(s, input, now).1, input, now, t)
  {
    hide Inv, BindHub, Allocate, Admitted;
    PresentedFound(s, input.secret, t);
    NobodyHolds(s, input.pubkey);
    var h := s.tokens[t].hub.value;
    if s.tokens[t].role.HubRole? {
      BindAdmits(s, input, now, t, h);
    } else {
      AllocateAdmits(s, input, now, t, h);
    }
  }

  /** The whole answer: to whom, what, and which rows change. */
  ghost predicate Answered(s: State, s': State, o: Outcome, input: RegisterInput, now: nat) {
    if BadKey(input.pubkey) then s' == s && o == Refused(BadPubkey)
    else if forall t | t in s.tokens :: !Presented(s, input.secret, t) then s' == s && o == Refused(TokenInvalid)
    else forall t | Presented(s, input.secret, t) :: AnsweredFor(s, s', o, input, now, t)
  }

  /** The answer to a good key under token t. */
  ghost predicate AnsweredFor(s: State, s': State, o: Outcome, input: RegisterInput, now: nat, t: nat)
    requires t in s.tokens
  {
    var tok := s.tokens[t];
    if !InForce(s, tok, now) then
      && s' == s
      && o == Refused(if Expired(tok, now) then TokenExpired else if tok.revoked then TokenRevoked else TokenNoHub)
    else if exists i :: Holds(s, input.pubkey, i) then
      forall i | Holds(s, input.pubkey, i) :: Recognized(s, s', o, input, tok.hub.value, i)
    else
      NewKey(s, s', o, input, now, t)
  }

  /** The key of live device i: its own secret refreshes it, any other is refused. */
  ghost predicate Recognized(s: State, s': State, o: Outcome, input: RegisterInput, h: nat, i: nat)
    requires i in s.devices && h in s.hubs
  {
    var d := s.devices[i];
    if d.secret != input.secret then s' == s && o == Refused(PubkeyTaken)
    else
      && s' == s.(devices := s.devices[i := d.(hostname := input.hostname, lanEndpoint := input.lanEndpoint,
                                               hostId := if input.hostId == "" then d.hostId else input.hostId)])
      && o == Registered(i, if s.hubs[h].bound == Some(i) then HubRole else DeviceRole)
  }

  /** A key that no live device has. */
  ghost predicate NewKey(s: State, s': State, o: Outcome, input: RegisterInput, now: nat, t: nat)
    requires t in s.tokens && s.tokens[t].hub.Some? && s.tokens[t].hub.value in s.hubs
  {
    var tok, h := s.tokens[t], s.tokens[t].hub.value;
    if o.Registered? then
      tok.consumedBy.None? && o == Registered(s.nextDevice, tok.role) && Admitted(s, s', h, t, input, now)
    else
      && s' == s
      && (o.error == TokenAlreadyBound <==> tok.consumedBy.Some?)
      && (o.error == HubAlreadyBound <==> tok.consumedBy.None? && tok.role.HubRole? && s.hubs[h].bound.Some?)
      && (o.error == HubNotConfigured <==> tok.consumedBy.None? && tok.role.DeviceRole? && s.hubs[h].pubkey == "")
      && o.error in {TokenAlreadyBound, HubAlreadyBound, HubNotConfigured, SiteSlotsExhausted, SiteExhausted,
                     UniqueViolation}
  }

  lemma RegisterAnswers(s: State, input: RegisterInput, now: nat)
    requires Inv(s)
    ensures Answered(s, RegisterStep(s, input, now).0, RegisterStep(s, input, now).1, input, now)
  {
    hide Inv, RegisterStep, Admitted;
    if BadKey(input.pubkey) || forall t | t in s.tokens :: !Presented(s, input.secret, t) {
      UnknownRefused(s, input, now);
    } else {
      forall t | Presented(s, input.secret, t)
        ensures AnsweredFor(s, RegisterStep(s, input, now).0, RegisterStep(s, input, now).1, input, now, t)
      {
        if !InForce(s, s.tokens[t], now) {
          NotInForceRefused(s, input, now, t);
        } else if exists i :: Holds(s, input.pubkey, i) {
          forall i | Holds(s, input.pubkey, i)
            ensures Recognized(s, RegisterStep(s, input, now).0, RegisterStep(s, input, now).1, input,
                               s.tokens[t].hub.value, i)
          {
            HeldKeyAnswered(s, input, now, t, i);
          }
        } else {
          NewKeyAnswered(s, input, now, t);
        }
      }
    }
  }

  /** Every registration that enters a row enters it this way. */
  lemma EntersAsAdmitted(s: State, input: RegisterInput, now: nat)
    requires Inv(s) && RegisterStep(s, input, now).1.Registered? && RegisterStep(s, input, now).1.device !in s.devices
    ensures exists t, h :: t in s.tokens && s.tokens[t].secret == input.secret && s.tokens[t].hub == Some(h)
                           && h in s.hubs && Admitted(s, RegisterStep(s, input, now).0, h, t, input, now)
  {
    hide Inv, RegisterStep, Admitted;
    if BadKey(input.pubkey) || forall t | t in s.tokens :: !Presented(s, input.secret, t) {
      UnknownRefused(s, input, now);
    } else {
      var t :| t in s.tokens && Presented(s, input.secret, t);
      if !InForce(s, s.tokens[t], now) {
        NotInForceRefused(s, input, now, t);
      } else if i :| i in s.devices && Holds(s, input.pubkey, i) {
        HeldKeyAnswered(s, input, now, t, i);
      } else {
        NewKeyAnswered(s, input, now, t);
      }
    }
  }

  /** A new site index is refused exactly when the hub's sites use all 254. */
  lemma IndexesExhaustedIff(s: State, h: nat, input: RegisterInput)
    requires Inv(s) && h in s.hubs
    ensures ResolveSite(s, h, input) == SiteErr(SiteSlotsExhausted) <==>
              && (forall i | i in s.sites :: !Meant(s, h, DeviceRole, input, s.sites[i]))
              && forall u: nat | 1 <= u <= 254 :: IndexUsed(s, h, u)
  {
    hide Inv, FreeSIndex, Dec, LeastIndex, IndexUsed;
    SiteBelow(s);
    IndexSearch(s, h);
    var r := ResolveSite(s, h, input);
    if i :| i in s.sites && Meant(s, h, DeviceRole, input, s.sites[i]) {
      assert r.SiteOk?;
    } else if FreeSIndex(s, h).None? {
      assert r == SiteErr(SiteSlotsExhausted);
    }
  }
}
