/** A run in which one host joins two linked hubs: each of its lists leaves the other hub's mesh out. */
module DualHomed {
  import opened Text
  import opened Cidr
  import opened Model
  import opened Steps
  import opened Invariants
  import opened Allocation
  import opened Routing
  import opened Lookups
  import opened Delivery
  import opened Effects
  import opened PeerRows
  import opened Scenario
  import opened Counterexamples

  const SAME_HOST := LinkHost(["X", "Y"], [], "h1")

  function Stamped(): State {
    Linked().(devices := map[1 := DEVICE_A, 2 := DEVICE_B, 3 := SPOKE_X.(hostId := "h1"),
                             4 := SPOKE_Y.(hostId := "h1")])
  }

  lemma StampedRun()
    ensures Run(TwoMeshes() + [SAME_HOST]) == Stamped()
  {
    hide Run, Next, LinkHostStep;
    TwoMeshesRun();
    RunStep(TwoMeshes(), SAME_HOST);
    SameHostIs(Linked());
    StampedDevices();
  }

  lemma SameHostIs(s: State)
    ensures Next(s, SAME_HOST) == LinkHostStep(s, ["X", "Y"], [], "h1")
  {
  }

  lemma StampedDevices()
    ensures LinkHostStep(Linked(), ["X", "Y"], [], "h1") == Stamped()
  {
    hide LinkHostStep, Named;
    var s, s' := Linked(), LinkHostStep(Linked(), ["X", "Y"], [], "h1");
    LinkHostStamps(s, ["X", "Y"], [], "h1");
    WhoIsNamed();
    SpokesStamped(s, s');
  }

  lemma SpokesStamped(s: State, s': State)
    requires s == Linked() && HostStamped(s, s', ["X", "Y"], [], "h1")
    requires forall i | i in s.devices :: Named(s.devices[i], ["X", "Y"], []) <==> i >= 3
    ensures s' == Stamped()
  {
    hide Named;
    var was := map[1 := DEVICE_A, 2 := DEVICE_B, 3 := SPOKE_X, 4 := SPOKE_Y];
    assert s.devices == was;
    assert s'.devices[1] == DEVICE_A && s'.devices[2] == DEVICE_B;
    assert s'.devices[3] == SPOKE_X.(hostId := "h1") && s'.devices[4] == SPOKE_Y.(hostId := "h1");
    assert s'.devices == Stamped().devices;
  }

  lemma WhoIsNamed()
    ensures forall i | i in Linked().devices :: Named(Linked().devices[i], ["X", "Y"], []) <==> i >= 3
  {
    assert "X" in ["X", "Y"] && "Y" in ["X", "Y"] && "A" !in ["X", "Y"] && "B" !in ["X", "Y"];
  }

  lemma StampedSane()
    ensures Sane(Run(TwoMeshes() + [SAME_HOST]))
  {
    hide Run, SubnetsClear, Calm, Wide;
    StampedRun();
    NoSubnets(Stamped());
    forall e | e in TwoMeshes() + [SAME_HOST] ensures Calm(e) && Wide(e) {
      if e in TwoMeshes() {
        QuietEvents(e);
      } else {
        StampQuiet();
      }
    }
    CalmRunSane(TwoMeshes() + [SAME_HOST]);
  }

  lemma StampQuiet()
    ensures Calm(SAME_HOST) && Wide(SAME_HOST)
  {
  }

  lemma StampedHost(s: State)
    requires s == Stamped()
    ensures forall k :: k in HubsOfHost(s, "h1", "") <==> k == 1 || k == 2
    ensures !Unskipped(s, 3, 2) && !OwnDefault(s, s.devices[3], 1)
  {
    HostHubsIff(s, "h1", "", 1);
    HostHubsIff(s, "h1", "", 2);
    assert OnHost(s.devices[3], "h1", "") && OnHost(s.devices[4], "h1", "");
  }

  /** The two hubs are joined, yet no entry of the first spoke's list has the second hub's mesh, and
      its packets do not reach the second spoke. */
  lemma OtherMeshLeftOut(p: Peer)
    ensures var s := Run(TwoMeshes() + [SAME_HOST]);
            && Spoke(s, 3) && Joined(s, 1, 2) && HubsOfHost(s, "h1", "") == {1, 2}
            && (p in NodePeers(s, 3) ==> V4(0x64400100, 24, 0) !in p.extra)
            && !Delivered(s, 3, 4)
  {
    hide Run, NodePeers, Sane, Inv, Delivered, Unskipped, OwnDefault, LanEntry, HubEntry, Joined, HubsOfHost;
    StampedRun();
    StampedSane();
    var s := Stamped();
    StampedHost(s);
    StampedJoined(s);
    DeliveredAcrossIff(s, 3, 4);
    if p in NodePeers(s, 3) {
      RunInv(TwoMeshes() + [SAME_HOST]);
      SpokeEntries(s, 3, p);
      MeshLeftOut(s, p);
    }
  }

  lemma StampedJoined(s: State)
    requires s == Stamped()
    ensures Joined(s, 1, 2) && Spoke(s, 3) && Spoke(s, 4)
  {
    MeshBytes();
    LinkedHubs(s);
  }

  lemma MeshLeftOut(s: State, p: Peer)
    requires s == Stamped() && (LanEntry(s, 3, p) || HubEntry(s, 3, 1, p))
    ensures V4(0x64400100, 24, 0) !in p.extra
  {
    hide LinkedTo, CrossNetworks;
    MeshBytes();
    if HubEntry(s, 3, 1, p) {
      var cross, routes :| CrossNetworks(s, 3, 1, cross) && EgressRoutes(s, 3, 1, routes)
                           && p.extra == [Spell(Parse(s.hubs[1].mesh).value)] + cross + routes;
      NoCross(s, cross);
    }
  }

  lemma NoCross(s: State, cross: seq<CidrText>)
    requires s == Stamped() && CrossNetworks(s, 3, 1, cross)
    ensures forall r :: r !in cross
  {
    assert OnHost(s.devices[4], "h1", "");
  }
}
