/** When a hub's file sends everything to another hub: wg_ip takes any text, and the client splits
    it at its commas. */
module Defaults {
  import opened Text
  import opened Cidr
  import opened Model
  import opened Queries
  import opened Steps
  import opened Invariants
  import opened Routing
  import opened HubFilter
  import opened Lookups
  import opened Egress
  import opened Isolation
  import opened Regroup
  import opened ConfText
  import opened Installed

  /** A line made of a text and of entries that are no default routes holds one exactly when the
      text does. */
  lemma LineDefaultIff(host: string, xs: seq<string>)
    requires xs != [] && forall i | 0 <= i < |xs| :: Separable(xs[i]) && !Denotes(xs[i], 0)
    ensures HoldsDefault(Join([host] + xs)) <==> HoldsDefault(host)
    ensures !HoldsDefault(Join(xs))
  {
    hide Separable, Denotes, Join, Entries;
    EntriesOfJoin(xs);
    EntriesOfList(host, xs);
    var all := Entries(host) + xs;
    if HoldsDefault(host) {
      var i :| 0 <= i < |Entries(host)| && Denotes(Entries(host)[i], 0);
      assert all[i] == Entries(host)[i];
    }
  }

  /** The address column of a fabric peer, as it is sent. */
  function Sent(t: HostText): HostText {
    if t != Other("") && !HasSlash(t) then With32(t) else t
  }

  lemma SentText(t: HostText)
    ensures HostString(Sent(t)) == "" || '/' in HostString(Sent(t))
    ensures HoldsDefault(HostString(Sent(t))) <==> HoldsDefault(HostString(t))
  {
    hide HoldsDefault, AddrText, Dec;
    match t
    case Bare(a) =>
      HostRoundTrip(t);
      HostRoundTrip(Masked(a, 32));
      ThirtyTwo();
      NoSlashNoDefault(AddrText(a));
      assert HostString(Masked(a, 32)) == AddrText(a) + "/32";
    case Masked(_, _) =>
      HostRoundTrip(t);
    case Other(x) =>
      if '/' !in x {
        NoSlashNoDefault(x);
        assert (x + "/32")[|x|] == '/';
      }
    case Suffixed(of) =>
      assert (HostString(of) + "/32")[|HostString(of)|] == '/';
  }

  lemma EmptyNoDefault()
    ensures !HoldsDefault("")
  {
    NoSlashNoDefault("");
  }

  lemma ExtrasEntries(s: State, own: nat, c: nat)
    requires Inv(s) && own in s.hubs && Fabric(s, own, c)
    ensures var xs := Strings(FabricPeer(s.hubs[c]).extra);
            xs != [] && forall i | 0 <= i < |xs| :: Separable(xs[i]) && !Denotes(xs[i], 0)
  {
    hide FabricPeer, Separable, Parse, CidrString, ReadEntry;
    var extra := FabricPeer(s.hubs[c]).extra;
    assert extra != [] by { MeshListed(s.hubs[c]); }
    forall i | 0 <= i < |extra| ensures Separable(Strings(extra)[i]) && !Denotes(Strings(extra)[i], 0) {
      FabricExtrasLong(s, own, c, extra[i]);
      ParsedIsV4(extra[i]);
      CidrRoundTrip(extra[i]);
    }
  }

  lemma ParsedIsV4(r: CidrText)
    requires Parse(r).Some?
    ensures r.V4?
  {
  }

  lemma MeshListed(h: Hub)
    ensures FabricPeer(h).extra != [] && FabricPeer(h).wgIp == Sent(h.wgIp)
  {
  }

  /** After every run, the AllowedIPs line that a hub's file gets for a linked hub c holds a default
      route exactly when the text of c's own address does: some part of it between commas is an
      address with length 0, however spelled. Advertised routes never bring one. */
  lemma FabricDefaultIff(es: seq<Event>, own: nat, c: nat)
    requires own in Run(es).hubs && Fabric(Run(es), own, c)
    ensures var h := Run(es).hubs[c];
            HoldsDefault(StanzaOf(FabricPeer(h)).allowed) <==> HoldsDefault(HostString(h.wgIp))
  {
    hide Run, Inv, Fabric, FabricPeer, HoldsDefault, HostString, Strings, Sent;
    RunInv(es);
    assert c in Run(es).hubs by { FabricKnown(Run(es), own, c); }
    var h := Run(es).hubs[c];
    var p := FabricPeer(h);
    MeshListed(h);
    ExtrasEntries(Run(es), own, c);
    SentText(h.wgIp);
    var host, xs := HostString(p.wgIp), Strings(p.extra);
    LineDefaultIff(host, xs);
    if host == "" {
      EmptyNoDefault();
      assert [] + xs == xs;
    }
  }

  lemma FabricKnown(s: State, own: nat, c: nat)
    requires Fabric(s, own, c)
    ensures c in s.hubs
  {
  }

  /** The spellings of a default route that such a text may use. */
  lemma DefaultSpellings(z: nat, other: string)
    ensures HoldsDefault("0.0.0.0/" + (Zeros(z) + "0"))
    ensures HoldsDefault("0.0.0.0/0" + ", " + other)
  {
    hide ReadEntry, Zeros, Entries;
    NullAddress();
    EntryWithLength(0, 0, z);
    var t := "0.0.0.0/" + (Zeros(z) + "0");
    assert t == AddrText(0) + "/" + (Zeros(z) + Dec(0));
    EntryAlone(t);
    assert Denotes(Entries(t)[0], 0);
    EntryWithLength(0, 0, 0);
    var zero := "0.0.0.0/0";
    assert Zeros(0) + Dec(0) == "0" by { NoZeros(); }
    assert zero == AddrText(0) + "/" + (Zeros(0) + Dec(0));
    EntryAlone(zero);
    EntriesAppend(zero, other);
    assert Denotes(Entries(zero + ", " + other)[0], 0);
  }

  /** The literal that the server tells apart is the plain spelling of a default route. */
  lemma DefaultLiteral()
    ensures CidrString(DEFAULT_ROUTE) == "0.0.0.0/0" && HoldsDefault(CidrString(DEFAULT_ROUTE))
  {
    hide HoldsDefault;
    NullAddress();
    NoZeros();
    DefaultSpellings(0, "");
    assert "0.0.0.0/" + (Zeros(0) + "0") == "0.0.0.0/0";
  }

  lemma NoZeros()
    ensures Zeros(0) == ""
  {
  }

  lemma NullAddress()
    ensures AddrText(0) == "0.0.0.0" && Dec(0) == "0" && Network(0, 0).len == 0
  {
    assert Octets(0) == ["0", "0", "0", "0"];
    assert Octets(0)[1..] == ["0", "0", "0"] && ["0", "0", "0"][1..] == ["0", "0"] && ["0", "0"][1..] == ["0"];
  }
}
