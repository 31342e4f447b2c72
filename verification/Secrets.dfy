/** Token safety over whole runs: what a secret can and cannot do, and for how long. */
module Secrets {
  import opened Text
  import opened Cidr
  import opened Model
  import opened Queries
  import opened Steps
  import opened Invariants

  /** A generated secret that authenticates no live device and whose join token, if it has one,
      is spent or revoked. */
  ghost predicate Dead(s: State, secret: nat) {
    && secret < s.nextSecret
    && (forall i | i in s.devices && s.devices[i].Live() :: s.devices[i].secret != secret)
    && (forall t | t in s.tokens && s.tokens[t].secret == secret :: s.tokens[t].consumedBy.Some? || s.tokens[t].revoked)
  }

  // ---- what one step does to secrets ----

  /** Device i of s' was live with this secret before, or carries a secret generated since, or
      entered with a token that was neither consumed nor revoked. */
  ghost predicate DeviceHistory(s: State, s': State, i: nat) {
    i in s'.devices && s'.devices[i].Live() ==>
      || (i in s.devices && s.devices[i].Live() && s.devices[i].secret == s'.devices[i].secret)
      || s'.devices[i].secret >= s.nextSecret
      || exists t :: Spends(s, t, s'.devices[i].secret)
  }

  ghost predicate Spends(s: State, t: nat, secret: nat) {
    t in s.tokens && s.tokens[t].secret == secret && s.tokens[t].consumedBy.None? && !s.tokens[t].revoked
  }

  /** Token i stays, keeps its secret and is never unspent or unrevoked; new tokens carry new
      secrets. */
  ghost predicate TokenHistory(s: State, s': State, i: nat) {
    && (i in s.tokens ==>
          && i in s'.tokens && s'.tokens[i].secret == s.tokens[i].secret
          && (s.tokens[i].revoked ==> s'.tokens[i].revoked)
          && (s.tokens[i].consumedBy.Some? ==> s'.tokens[i].consumedBy == s.tokens[i].consumedBy))
    && (i in s'.tokens && i !in s.tokens ==> s'.tokens[i].secret >= s.nextSecret)
  }

  ghost predicate History(s: State, s': State) {
    s'.nextSecret >= s.nextSecret && forall i: nat :: DeviceHistory(s, s', i) && TokenHistory(s, s', i)
  }

  lemma RegisterHistory(s: State, input: RegisterInput, now: nat)
    requires Inv(s)
    ensures History(s, RegisterStep(s, input, now).0)
  {
    var s' := RegisterStep(s, input, now).0;
    RegisterCases(s, input, now);
    var t := TokenBySecret(s, input.secret);
    assert t.Some? && s.tokens[t.value].consumedBy.None? && !s.tokens[t.value].revoked ==>
           Spends(s, t.value, input.secret);
    forall i: nat ensures DeviceHistory(s, s', i) && TokenHistory(s, s', i) {}
  }

  /** A step that neither generates a secret nor puts one to new use. */
  ghost predicate Quiet(s: State, s': State) {
    && s'.nextSecret == s.nextSecret && s'.tokens.Keys == s.tokens.Keys
    && (forall i | i in s'.devices && s'.devices[i].Live() ::
          i in s.devices && s.devices[i].Live() && s.devices[i].secret == s'.devices[i].secret)
    && (forall i | i in s.tokens ::
          s'.tokens[i].secret == s.tokens[i].secret && (s.tokens[i].revoked ==> s'.tokens[i].revoked)
          && s'.tokens[i].consumedBy == s.tokens[i].consumedBy)
  }

  lemma RemovalQuiet(s: State, victims: set<nat>)
    ensures Quiet(s, RemoveAll(s, victims))
  {
  }

  lemma RemoveDeviceQuiet(s: State, device: nat)
    requires device in s.devices
    ensures Quiet(s, RemoveDevice(s, device))
  {
  }

  lemma ReleaseQuiet(s: State, token: nat)
    ensures Quiet(s, ReleaseStep(s, token))
  {
    if token in s.tokens {
      var c := s.tokens[token].consumedBy;
      if c.Some? && c.value in s.devices && s.devices[c.value].Live() {
        RemoveDeviceQuiet(s, c.value);
      }
    }
  }

  lemma QuietHistory(s: State, s': State)
    requires Quiet(s, s')
    ensures History(s, s')
  {
    forall i: nat ensures DeviceHistory(s, s', i) && TokenHistory(s, s', i) {}
  }

  lemma AddTokenHistory(s: State, s1: State, role: Role, hub: nat, expires: Option<nat>)
    requires Inv(s) && s1 == s.(hubs := s1.hubs, nextHub := s1.nextHub)
    ensures History(s, AddToken(s1, role, hub, expires))
  {
    var s2 := AddToken(s1, role, hub, expires);
    forall i: nat ensures DeviceHistory(s, s2, i) && TokenHistory(s, s2, i) {
      assert RowOk(s, i);
    }
  }

  lemma MintHubHistory(s: State, slug: string, endpoint: string, mesh: Option<CidrText>, expires: Option<nat>)
    requires Inv(s)
    ensures History(s, MintHubStep(s, slug, endpoint, mesh, expires))
  {
    var chosen := if mesh.Some? then mesh else SuggestMesh(s);
    var existing := HubBySlug(s, slug);
    QuietHistory(s, s);
    if existing.Some? {
      AddTokenHistory(s, s, HubRole, existing.value, expires);
    } else if chosen.Some? && Parse(chosen.value).Some? {
      AddTokenHistory(s, AddHub(s, slug, endpoint, chosen.value), HubRole, s.nextHub, expires);
    }
  }

  lemma MintDeviceHistory(s: State, hub: nat, expires: Option<nat>)
    requires Inv(s)
    ensures History(s, MintDeviceStep(s, hub, expires))
  {
    QuietHistory(s, s);
    AddTokenHistory(s, s, DeviceRole, hub, expires);
  }

  lemma RotateHistory(s: State, secret: nat, claimed: nat, now: nat, until: nat)
    requires Inv(s)
    ensures History(s, RotateStep(s, secret, claimed, now, until))
  {
    var s' := RotateStep(s, secret, claimed, now, until);
    forall i: nat ensures DeviceHistory(s, s', i) && TokenHistory(s, s', i) {}
  }

  lemma RetireQuiet(s: State, e: Event)
    requires e.Leave? || e.Remove? || e.Release? || e.Sweep?
    ensures Quiet(s, Next(s, e))
  {
    match e
    case Leave(secret, claimed, now) =>
      var b := Bearer(s, secret, claimed, now);
      if b.Some? { RemoveDeviceQuiet(s, b.value); }
    case Remove(device) => if device in s.devices { RemoveDeviceQuiet(s, device); }
    case Release(token) => ReleaseQuiet(s, token);
    case Sweep(cutoff) => RemovalQuiet(s, Victims(s, cutoff));
  }

  lemma EditQuiet(s: State, e: Event)
    requires e.Heartbeat? || e.SetEgress? || e.LinkHost? || e.Revoke? || e.ResetBind? || e.UpdateHub? || e.Publish?
             || e.Unpublish?
    ensures Quiet(s, Next(s, e))
  {
    hide MintHubStep, MintDeviceStep, MintInternalStep, RegisterStep, LeaveStep, RemoveStep, ReleaseStep, SweepStep,
      DeleteHubStep, UpdateHubStep, HeartbeatStep, RotateStep, LinkHostStep, SetEgressStep, PublishStep, UnpublishStep,
      RevokeStep, ClearBind, Quiet;
    match e
    case Heartbeat(secret, claimed, now, lan) => HeartbeatQuiet(s, secret, claimed, now, lan);
    case LinkHost(pubkeys, ips, hostId) => LinkHostQuiet(s, pubkeys, ips, hostId);
    case SetEgress(device, egress) => SetEgressQuiet(s, device, egress);
    case UpdateHub(hub, endpoint, wgIp, mesh, routes) => UpdateHubQuiet(s, hub, endpoint, wgIp, mesh, routes);
    case Publish(a, b) => PublishQuiet(s, a, b);
    case Unpublish(link) => UnpublishQuiet(s, link);
    case Revoke(token) => RevokeQuiet(s, token);
    case ResetBind(hub) => ClearQuiet(s, hub);
  }

  lemma UnpublishQuiet(s: State, link: nat)
    ensures Quiet(s, UnpublishStep(s, link))
  {
  }

  lemma RevokeQuiet(s: State, token: nat)
    ensures Quiet(s, RevokeStep(s, token))
  {
  }

  lemma ClearQuiet(s: State, hub: nat)
    ensures Quiet(s, ClearBind(s, hub))
  {
  }

  lemma PublishQuiet(s: State, a: nat, b: nat)
    ensures Quiet(s, PublishStep(s, a, b))
  {
  }

  lemma SetEgressQuiet(s: State, device: nat, egress: Option<nat>)
    ensures Quiet(s, SetEgressStep(s, device, egress))
  {
  }

  lemma UpdateHubQuiet(s: State, hub: nat, endpoint: string, wgIp: Option<HostText>, mesh: Option<CidrText>,
                       routes: Option<seq<CidrText>>)
    ensures Quiet(s, UpdateHubStep(s, hub, endpoint, wgIp, mesh, routes))
  {
  }

  lemma HeartbeatQuiet(s: State, secret: nat, claimed: nat, now: nat, lan: Option<string>)
    ensures Quiet(s, HeartbeatStep(s, secret, claimed, now, lan))
  {
    hide Bearer;
  }

  lemma LinkHostQuiet(s: State, pubkeys: seq<string>, ips: seq<HostText>, hostId: string)
    ensures Quiet(s, LinkHostStep(s, pubkeys, ips, hostId))
  {
  }

  lemma DeleteQuiet(s: State, hub: nat)
    ensures Quiet(s, DeleteHubStep(s, hub))
  {
  }

  lemma NextHistory(s: State, e: Event)
    requires Inv(s)
    ensures History(s, Next(s, e))
  {
    hide HeartbeatStep, Bearer, UpdateHubStep, DeleteHubStep, LinkHostStep, SetEgressStep;
    match e
    case MintHub(slug, endpoint, mesh, expires) => MintHubHistory(s, slug, endpoint, mesh, expires);
    case MintDevice(hub, expires) => MintDeviceHistory(s, hub, expires);
    case MintInternal(slug, until) =>
      QuietHistory(s, s);
      var hub := HubBySlug(s, slug);
      if hub.Some? { MintDeviceHistory(s, hub.value, Some(until)); }
    case Register(input, now) => RegisterHistory(s, input, now);
    case Rotate(secret, claimed, now, until) => RotateHistory(s, secret, claimed, now, until);
    case DeleteHub(hub) => DeleteQuiet(s, hub); QuietHistory(s, Next(s, e));
    case _ =>
      if e.Leave? || e.Remove? || e.Release? || e.Sweep? { RetireQuiet(s, e); } else { EditQuiet(s, e); }
      QuietHistory(s, Next(s, e));
  }

  // ---- death is permanent and total ----

  lemma DeadStays(s: State, e: Event, secret: nat)
    requires Inv(s) && Dead(s, secret)
    ensures Dead(Next(s, e), secret)
  {
    NextHistory(s, e);
    var s' := Next(s, e);
    forall i | i in s'.devices && s'.devices[i].Live() ensures s'.devices[i].secret != secret {
      assert DeviceHistory(s, s', i);
    }
    forall t | t in s'.tokens && s'.tokens[t].secret == secret
      ensures s'.tokens[t].consumedBy.Some? || s'.tokens[t].revoked
    {
      assert TokenHistory(s, s', t);
    }
  }

  /** The last step of a longer run. */
  lemma RunExtended(es: seq<Event>, more: seq<Event>)
    requires more != []
    ensures Run(es + more) == Next(Run(es + more[..|more| - 1]), more[|more| - 1])
  {
    hide Next;
    assert (es + more)[..|es + more| - 1] == es + more[..|more| - 1];
  }

  /** Once dead, a secret is dead after every longer run. */
  lemma {:induction false} DeadForever(es: seq<Event>, more: seq<Event>, secret: nat)
    requires Dead(Run(es), secret)
    ensures Dead(Run(es + more), secret)
  {
    hide Run, Next, Inv, Dead;
    if more == [] {
      assert es + more == es;
    } else {
      var last := |more| - 1;
      DeadForever(es, more[..last], secret);
      RunInv(es + more[..last]);
      DeadStays(Run(es + more[..last]), more[last], secret);
      RunExtended(es, more);
    }
  }

  /** A dead secret authenticates nobody and registers nothing. */
  lemma DeadIsPowerless(s: State, input: RegisterInput, claimed: nat, now: nat)
    requires Inv(s) && Dead(s, input.secret)
    ensures Bearer(s, input.secret, claimed, now).None?
    ensures RegisterStep(s, input, now).1.Refused? && RegisterStep(s, input, now).0 == s
  {
  }

  /** After a secret has died, no continuation of the run lets it authenticate, register or
      change anything by registering. */
  lemma DeadNeverWorks(es: seq<Event>, more: seq<Event>, input: RegisterInput, claimed: nat, now: nat)
    requires Dead(Run(es), input.secret)
    ensures var s := Run(es + more);
            Bearer(s, input.secret, claimed, now).None? && RegisterStep(s, input, now).1.Refused?
            && RegisterStep(s, input, now).0 == s
  {
    DeadForever(es, more, input.secret);
    RunInv(es + more);
    DeadIsPowerless(Run(es + more), input, claimed, now);
  }

  // ---- the five ways a device secret dies ----

  lemma RemovedIsDead(s: State, device: nat)
    requires Inv(s) && device in s.devices && !s.devices[device].Live()
    ensures Dead(s, s.devices[device].secret)
  {
    assert RowOk(s, device);
    forall i | i in s.devices && s.devices[i].Live() ensures s.devices[i].secret != s.devices[device].secret {
      assert Apart(s, i, device);
    }
    forall t | t in s.tokens && s.tokens[t].secret == s.devices[device].secret ensures s.tokens[t].consumedBy.Some? {
      assert Apart(s, t, device);
    }
  }

  lemma RemovalKills(s: State, victims: set<nat>, device: nat)
    requires Inv(s) && device in s.devices && device in victims
    ensures Dead(RemoveAll(s, victims), s.devices[device].secret)
  {
    RemoveAllKeeps(s, victims);
    RemovedIsDead(RemoveAll(s, victims), device);
  }

  lemma RemoveKills(s: State, device: nat)
    requires Inv(s) && device in s.devices
    ensures Dead(RemoveStep(s, device), s.devices[device].secret)
  {
    RemoveIsRemoveAll(s, device);
    RemovalKills(s, {device}, device);
  }

  lemma LeaveKills(s: State, secret: nat, claimed: nat, now: nat)
    requires Inv(s) && Bearer(s, secret, claimed, now).Some?
    ensures Dead(LeaveStep(s, secret, claimed, now), secret)
  {
    var d := Bearer(s, secret, claimed, now).value;
    RemoveIsRemoveAll(s, d);
    RemovalKills(s, {d}, d);
  }

  lemma SweepKills(s: State, cutoff: nat, device: nat)
    requires Inv(s) && device in s.devices && Stale(s.devices[device], cutoff)
    ensures Dead(SweepStep(s, cutoff), s.devices[device].secret)
  {
    RemovalKills(s, Victims(s, cutoff), device);
  }

  /** Release kills the join secret and, if the token was consumed by a device that still has a
      row, whatever secret that device has rotated to. */
  lemma ReleaseKills(s: State, token: nat)
    requires Inv(s) && token in s.tokens
    ensures Dead(ReleaseStep(s, token), s.tokens[token].secret)
    ensures var c := s.tokens[token].consumedBy;
            c.Some? && c.value in s.devices ==> Dead(ReleaseStep(s, token), s.devices[c.value].secret)
  {
    ReleaseKillsToken(s, token);
    var c := s.tokens[token].consumedBy;
    if c.Some? && c.value in s.devices {
      ReleaseKillsDevice(s, token, c.value);
    }
  }

  lemma ReleaseKillsDevice(s: State, token: nat, d: nat)
    requires Inv(s) && token in s.tokens && s.tokens[token].consumedBy == Some(d) && d in s.devices
    ensures Dead(ReleaseStep(s, token), s.devices[d].secret)
  {
    hide Inv, Dead, RevokeStep, RemoveDevice;
    if s.devices[d].Live() {
      RemoveKeeps(s, d);
      RemoveKills(s, d);
      DeadStays(RemoveDevice(s, d), Revoke(token), s.devices[d].secret);
    } else {
      RemovedIsDead(s, d);
      DeadStays(s, Revoke(token), s.devices[d].secret);
    }
  }

  lemma ReleaseKillsToken(s: State, token: nat)
    requires Inv(s) && token in s.tokens
    ensures Dead(ReleaseStep(s, token), s.tokens[token].secret)
  {
    assert RowOk(s, token);
    var s' := ReleaseStep(s, token);
    forall i | i in s'.devices && s'.devices[i].Live() ensures s'.devices[i].secret != s.tokens[token].secret {
      assert Apart(s, token, i);
    }
    forall t | t in s'.tokens && s'.tokens[t].secret == s.tokens[token].secret ensures s'.tokens[t].revoked {
      assert Apart(s, t, token);
    }
  }

  /** Rotation kills the old secret; the new one authenticates the same device. */
  lemma RotateKills(s: State, secret: nat, claimed: nat, now: nat, until: nat)
    requires Inv(s) && Bearer(s, secret, claimed, now).Some?
    ensures Dead(RotateStep(s, secret, claimed, now, until), secret)
    ensures LiveBySecret(RotateStep(s, secret, claimed, now, until), s.nextSecret) == Bearer(s, secret, claimed, now)
  {
    var s' := RotateStep(s, secret, claimed, now, until);
    var d := Bearer(s, secret, claimed, now).value;
    assert RowOk(s, d);
    forall i | i in s'.devices && s'.devices[i].Live() ensures s'.devices[i].secret != secret {
      assert Apart(s, i, d);
    }
    forall t | t in s'.tokens && s'.tokens[t].secret == secret ensures s'.tokens[t].consumedBy.Some? {
      assert Apart(s, t, d);
    }
    assert s'.devices[d].Live() && s'.devices[d].secret == s.nextSecret;
    var r := LiveBySecret(s', s.nextSecret);
    assert r.Some?;
    assert RowOk(s, r.value);
  }

  // ---- one row per join token ----

  /** This event enters a device row with join token t. */
  ghost predicate Creates(s: State, e: Event, t: nat) {
    e.Register? && TokenBySecret(s, e.input.secret) == Some(t)
    && RegisterStep(s, e.input, e.now).1 in {Registered(s.nextDevice, HubRole), Registered(s.nextDevice, DeviceRole)}
  }

  lemma CreationSpends(s: State, e: Event, t: nat)
    requires Inv(s) && Creates(s, e, t)
    ensures t in s.tokens && s.tokens[t].consumedBy.None?
    ensures t in Next(s, e).tokens && Next(s, e).tokens[t].consumedBy == Some(s.nextDevice)
  {
    RegisterCases(s, e.input, e.now);
    assert RowOk(s, s.nextDevice);
  }

  lemma {:induction false} SpentForever(es: seq<Event>, more: seq<Event>, t: nat)
    requires t in Run(es).tokens && Run(es).tokens[t].consumedBy.Some?
    ensures t in Run(es + more).tokens && Run(es + more).tokens[t].consumedBy == Run(es).tokens[t].consumedBy
  {
    hide Run, Next, Inv, DeviceHistory;
    if more == [] {
      assert es + more == es;
    } else {
      var last := |more| - 1;
      SpentForever(es, more[..last], t);
      RunInv(es + more[..last]);
      NextHistory(Run(es + more[..last]), more[last]);
      RunExtended(es, more);
      assert TokenHistory(Run(es + more[..last]), Run(es + more), t);
    }
  }

  /** Over a whole run a join token enters at most one device row. */
  lemma TokenCreatesOnce(es: seq<Event>, i: nat, j: nat, t: nat)
    requires i < j < |es| && Creates(Run(es[..i]), es[i], t)
    ensures !Creates(Run(es[..j]), es[j], t)
  {
    hide Inv, Next, Creates;
    RunInv(es[..i]);
    RunInv(es[..j]);
    CreationSpends(Run(es[..i]), es[i], t);
    assert es[..i + 1][..i] == es[..i];
    assert es[..j] == es[..i + 1] + es[i + 1..j];
    SpentForever(es[..i + 1], es[i + 1..j], t);
    if Creates(Run(es[..j]), es[j], t) {
      CreationSpends(Run(es[..j]), es[j], t);
    }
  }

  /** After every run a live device's secret finds that device and no other. */
  lemma BearerUnambiguous(es: seq<Event>, d: nat)
    requires d in Run(es).devices && Run(es).devices[d].Live()
    ensures LiveBySecret(Run(es), Run(es).devices[d].secret) == Some(d)
  {
    var s := Run(es);
    RunInv(es);
    assert RowOk(s, d);
    var r := LiveBySecret(s, s.devices[d].secret);
    assert r.Some?;
    assert Apart(s, r.value, d);
  }

  /** After every run a request authenticates the device it claims to be iff that device is live,
      the secret is its own and the time is not past the secret's expiry. */
  lemma BearerIff(es: seq<Event>, secret: nat, claimed: nat, now: nat, d: nat)
    ensures var s := Run(es);
            Bearer(s, secret, claimed, now) == Some(d) <==>
              && d == claimed && d in s.devices && !s.devices[d].removed && s.devices[d].secret == secret
              && (s.devices[d].expires.None? || now <= s.devices[d].expires.value)
  {
    hide Run;
    var s := Run(es);
    if d in s.devices && !s.devices[d].removed && s.devices[d].secret == secret {
      BearerUnambiguous(es, d);
    }
  }
}
