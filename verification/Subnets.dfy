/** Which step puts a mesh under an advertised subnet: the guards compare new routes with all
    meshes and a new mesh with all meshes, but never a new mesh with the routes. */
module Subnets {
  import opened Text
  import opened Cidr
  import opened Model
  import opened Queries
  import opened Steps
  import opened Invariants
  import opened Allocation
  import opened HubFilter
  import opened Lookups

  /** The mint is granted a hub of its own under this mesh. */
  predicate AddsHub(s: State, slug: string, endpoint: string, chosen: Option<CidrText>) {
    slug != "" && endpoint != "" && chosen.Some? && HubBySlug(s, slug).None? && MeshAccepted(chosen.value, Hubs(s), 0)
  }

  /** The edit passes both guards and sets this mesh. */
  predicate SetsMesh(s: State, hub: nat, mesh: Option<CidrText>, routes: Option<seq<CidrText>>) {
    && hub in s.hubs && mesh.Some? && MeshAccepted(mesh.value, Hubs(s), hub)
    && (routes.Some? ==> RoutesAccepted(routes.value, Hubs(s)))
  }

  ghost predicate OffList(routes: seq<CidrText>, mesh: CidrText) {
    forall r | r in routes && r != DEFAULT_ROUTE :: Clear(r, mesh)
  }

  /** Event e asks for no mesh over an advertised subnet: a mint that adds a hub is off all routes,
      and an edit that sets a mesh is off the routes of the other hubs and off those that the
      edited hub gets or keeps. */
  ghost predicate Considerate(s: State, e: Event) {
    match e
    case MintHub(slug, endpoint, mesh, expires) =>
      var chosen := if mesh.Some? then mesh else SuggestMesh(s);
      AddsHub(s, slug, endpoint, chosen) ==> OffRoutes(s.hubs, chosen.value)
    case UpdateHub(hub, endpoint, wgIp, mesh, routes) =>
      SetsMesh(s, hub, mesh, routes) ==>
        && OffRoutes(s.hubs - {hub}, mesh.value)
        && OffList(if routes.Some? then routes.value else s.hubs[hub].routes, mesh.value)
    case _ => true
  }

  lemma NetsClear(s: State, s': State)
    requires SubnetsClear(s) && SameNets(s, s')
    ensures SubnetsClear(s')
  {
    hide Clear;
    forall k | k in s'.hubs ensures OffRoutes(s'.hubs, s'.hubs[k].mesh) {
      assert OffRoutes(s.hubs, s.hubs[k].mesh);
    }
  }

  lemma NewHubFresh(s: State)
    requires Inv(s)
    ensures s.nextHub !in s.hubs
  {
    assert RowOk(s, s.nextHub);
  }

  /** A new hub advertises nothing, so only its mesh matters. */
  lemma NewHubClear(s: State, s': State, hub: Hub)
    requires SubnetsClear(s) && s.nextHub !in s.hubs && s'.hubs == s.hubs[s.nextHub := hub] && hub.routes == []
    ensures SubnetsClear(s') <==> OffRoutes(s.hubs, hub.mesh)
  {
    hide OffRoutes;
    assert s.nextHub in s'.hubs && s'.hubs[s.nextHub] == hub;
    SameRoutes(s.hubs, s'.hubs, hub.mesh);
    forall k | k in s.hubs ensures OffRoutes(s'.hubs, s'.hubs[k].mesh) {
      SameRoutes(s.hubs, s'.hubs, s.hubs[k].mesh);
    }
  }

  lemma SameRoutes(hubs: map<nat, Hub>, hubs': map<nat, Hub>, mesh: CidrText)
    requires forall h | h in hubs :: h in hubs' && hubs'[h].routes == hubs[h].routes
    requires forall h | h in hubs' && h !in hubs :: hubs'[h].routes == []
    ensures OffRoutes(hubs', mesh) <==> OffRoutes(hubs, mesh)
  {
    hide Clear;
  }

  lemma MintClear(s: State, slug: string, endpoint: string, mesh: Option<CidrText>, expires: Option<nat>)
    requires Inv(s) && SubnetsClear(s)
    ensures SubnetsClear(MintHubStep(s, slug, endpoint, mesh, expires))
            <==> Considerate(s, MintHub(slug, endpoint, mesh, expires))
  {
    hide Inv, SubnetsClear, OffRoutes, SuggestMesh, MintHubStep, AddsHub;
    var s' := MintHubStep(s, slug, endpoint, mesh, expires);
    NewHubFresh(s);
    MintAdds(s, slug, endpoint, mesh, expires);
    if !AddsHub(s, slug, endpoint, if mesh.Some? then mesh else SuggestMesh(s)) {
      NetsClear(s, s');
    } else {
      NewHubClear(s, s', s'.hubs[s.nextHub]);
    }
  }

  lemma MintAdds(s: State, slug: string, endpoint: string, mesh: Option<CidrText>, expires: Option<nat>)
    ensures var s' := MintHubStep(s, slug, endpoint, mesh, expires);
            var chosen := if mesh.Some? then mesh else SuggestMesh(s);
            if AddsHub(s, slug, endpoint, chosen) then
              && s.nextHub in s'.hubs && s'.hubs == s.hubs[s.nextHub := s'.hubs[s.nextHub]]
              && s'.hubs[s.nextHub].mesh == chosen.value && s'.hubs[s.nextHub].routes == []
            else s'.hubs == s.hubs
  {
    hide HubBySlug, Hubs, MeshAccepted, SuggestMesh, Parse, AddToken, AddHub;
    var chosen := if mesh.Some? then mesh else SuggestMesh(s);
    if AddsHub(s, slug, endpoint, chosen) {
      AcceptedParses(s, chosen.value, 0);
    }
    forall s1: State, role, hub: nat ensures AddToken(s1, role, hub, expires).hubs == s1.hubs {
      TokenOnly(s1, role, hub, expires);
    }
    if chosen.Some? && Parse(chosen.value).Some? {
      HubAdded(s, slug, endpoint, chosen.value);
    }
  }

  lemma AcceptedParses(s: State, mesh: CidrText, self: nat)
    requires MeshAccepted(mesh, Hubs(s), self)
    ensures Parse(mesh).Some?
  {
  }

  lemma TokenOnly(s: State, role: Role, hub: nat, expires: Option<nat>)
    ensures AddToken(s, role, hub, expires).hubs == s.hubs
  {
  }

  lemma HubAdded(s: State, slug: string, endpoint: string, mesh: CidrText)
    requires Parse(mesh).Some?
    ensures var s' := AddHub(s, slug, endpoint, mesh);
            && s.nextHub in s'.hubs && s'.hubs == s.hubs[s.nextHub := s'.hubs[s.nextHub]]
            && s'.hubs[s.nextHub].mesh == mesh && s'.hubs[s.nextHub].routes == []
  {
  }

  /** The routes of a list that passed its guard are clear of every mesh of the table. */
  lemma AcceptedClear(s: State, routes: seq<CidrText>, r: CidrText, k: nat)
    requires Inv(s) && RoutesAccepted(routes, Hubs(s)) && r in routes && r != DEFAULT_ROUTE && k in s.hubs
    ensures Clear(r, s.hubs[k].mesh)
  {
    HubsSorted(s);
  }

  /** After an edit, everything is clear of the meshes that were not edited. */
  lemma UneditedClear(s: State, s': State, hub: nat, routes: Option<seq<CidrText>>, mesh: CidrText, k: nat)
    requires Inv(s) && SubnetsClear(s) && hub in s.hubs && hub in s'.hubs && s'.hubs == s.hubs[hub := s'.hubs[hub]]
    requires s'.hubs[hub].routes == if routes.Some? then routes.value else s.hubs[hub].routes
    requires routes.Some? ==> RoutesAccepted(routes.value, Hubs(s))
    requires k in s.hubs && s.hubs[k].mesh == mesh
    ensures OffRoutes(s'.hubs, mesh)
  {
    hide Inv, Clear, RoutesAccepted, Hubs;
    assert OffRoutes(s.hubs, mesh);
    forall h, r | h in s'.hubs && r in s'.hubs[h].routes && r != DEFAULT_ROUTE ensures Clear(r, mesh) {
      if h == hub && routes.Some? {
        AcceptedClear(s, routes.value, r, k);
      } else {
        assert h in s.hubs && r in s.hubs[h].routes;
      }
    }
  }

  lemma EditClear(s: State, hub: nat, endpoint: string, wgIp: Option<HostText>, mesh: Option<CidrText>,
                  routes: Option<seq<CidrText>>)
    requires Inv(s) && SubnetsClear(s)
    ensures SubnetsClear(UpdateHubStep(s, hub, endpoint, wgIp, mesh, routes))
            <==> Considerate(s, UpdateHub(hub, endpoint, wgIp, mesh, routes))
  {
    hide Inv, OffRoutes, OffList, Hubs, MeshAccepted, RoutesAccepted;
    var s' := UpdateHubStep(s, hub, endpoint, wgIp, mesh, routes);
    if s' != s {
      forall k | k in s.hubs && (k != hub || mesh.None?) ensures OffRoutes(s'.hubs, s'.hubs[k].mesh) {
        UneditedClear(s, s', hub, routes, s.hubs[k].mesh, k);
      }
      if mesh.Some? {
        EditedRoutes(s, s', hub, mesh.value);
      }
    } else if SetsMesh(s, hub, mesh, routes) {
      assert s.hubs[hub].mesh == mesh.value && OffRoutes(s.hubs, mesh.value);
      EditedRoutes(s, s, hub, mesh.value);
    }
  }

  /** The routes after an edit are those of the other hubs and those of the edited one. */
  lemma EditedRoutes(s: State, s': State, hub: nat, mesh: CidrText)
    requires hub in s.hubs && hub in s'.hubs && s'.hubs == s.hubs[hub := s'.hubs[hub]]
    ensures OffRoutes(s'.hubs, mesh) <==> OffRoutes(s.hubs - {hub}, mesh) && OffList(s'.hubs[hub].routes, mesh)
  {
    hide Clear;
    var others := s.hubs - {hub};
    forall h | h in s'.hubs ensures s'.hubs[h] == if h == hub then s'.hubs[hub] else others[h] {
    }
    if OffRoutes(s'.hubs, mesh) {
      forall h, r | h in others && r in others[h].routes && r != DEFAULT_ROUTE ensures Clear(r, mesh) {
        assert h in s'.hubs && r in s'.hubs[h].routes;
      }
    }
  }

  /** From a state whose advertised subnets are clear of its meshes, a step leads to another such
      state exactly when it is considerate. */
  lemma ClearStepIff(s: State, e: Event)
    requires Inv(s) && SubnetsClear(s)
    ensures SubnetsClear(Next(s, e)) <==> Considerate(s, e)
  {
    hide Inv, SubnetsClear, OffRoutes, MintHubStep, UpdateHubStep;
    match e
    case MintHub(slug, endpoint, mesh, expires) => MintClear(s, slug, endpoint, mesh, expires);
    case UpdateHub(hub, endpoint, wgIp, mesh, routes) => EditClear(s, hub, endpoint, wgIp, mesh, routes);
    case _ =>
      NetsKept(s, e);
      NetsClear(s, Next(s, e));
  }

  /** So a run of considerate, calm and wide steps ends in a sane state: the condition of the
      delivery results can be checked step by step, before each step. */
  lemma ConsiderateRunSane(es: seq<Event>)
    requires forall k | 0 <= k < |es| :: Calm(es[k]) && Wide(es[k]) && Considerate(Run(es[..k]), es[k])
    ensures Sane(Run(es))
  {
    hide Inv, Considerate, Calm, Wide;
    ConsiderateRunClear(es);
    assert forall e | e in es :: Calm(e) && Wide(e);
    CalmRunSane(es);
  }

  lemma {:induction false} ConsiderateRunClear(es: seq<Event>)
    requires forall k | 0 <= k < |es| :: Considerate(Run(es[..k]), es[k])
    ensures SubnetsClear(Run(es))
  {
    hide Inv, Considerate, Next;
    if es == [] {
      assert Run(es) == INITIAL;
    } else {
      var last := |es| - 1;
      forall k | 0 <= k < last ensures Considerate(Run(es[..last][..k]), es[..last][k]) {
        assert es[..last][..k] == es[..k];
      }
      ConsiderateRunClear(es[..last]);
      RunInv(es[..last]);
      ClearStepIff(Run(es[..last]), es[last]);
    }
  }
}
