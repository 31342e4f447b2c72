/** From the database to the packets, through text: what clients install from a response is the
    peer list the control plane computed, so the delivery results hold of the installed
    configurations. */
module Installed {
  import opened Text
  import opened Cidr
  import opened Model
  import opened Queries
  import opened Steps
  import opened Invariants
  import opened Allocation
  import opened Routing
  import opened HubFilter
  import opened Lookups
  import opened Delivery
  import opened Flattening
  import opened JsonTree
  import opened FlatFile
  import opened Regroup
  import opened Rendering
  import opened ConfText
  import Encoding

  // ---- a peer list as a structured response ----

  function Strings(rs: seq<CidrText>): (out: seq<string>)
    ensures |out| == |rs| && forall i | 0 <= i < |rs| :: out[i] == CidrString(rs[i])
  {
    if rs == [] then [] else [CidrString(rs[0])] + Strings(rs[1..])
  }

  /** The four fields of wgPeerResponse, or wgHubPeerEntry, that the renderers read. */
  function RecOf(p: Peer): PeerRec {
    PeerRec(p.pubkey, p.endpoint, HostString(p.wgIp), Strings(p.extra))
  }

  function Recs(ps: seq<Peer>): (out: seq<PeerRec>)
    ensures |out| == |ps| && forall i | 0 <= i < |ps| :: out[i] == RecOf(ps[i])
  {
    if ps == [] then [] else [RecOf(ps[0])] + Recs(ps[1..])
  }

  // ---- the installed tables ----

  function EntryMatch(entries: seq<string>, a: Addr): (m: int)
    ensures m >= -1
  {
    if entries == [] then -1 else
    var rest := EntryMatch(entries[1..], a);
    var p := ReadEntry(entries[0]);
    if p.Some? && Contains(p.value, a) && p.value.len > rest then p.value.len else rest
  }

  /** The length of a stanza's longest entry that contains a, or -1. */
  function StanzaBest(st: Stanza, a: Addr): int {
    EntryMatch(Entries(st.allowed), a)
  }

  function StanzaScan(sts: seq<Stanza>, a: Addr): (string, int) {
    if sts == [] then ("", -1) else
    var last := sts[|sts| - 1];
    var rest := StanzaScan(sts[..|sts| - 1], a);
    if StanzaBest(last, a) >= 0 && StanzaBest(last, a) >= rest.1 then (last.pubkey, StanzaBest(last, a)) else rest
  }

  /** Cryptokey routing over the stanzas of a configuration file. */
  function StanzaLookup(sts: seq<Stanza>, a: Addr): Option<string> {
    var r := StanzaScan(sts, a);
    if r.1 >= 0 then Some(r.0) else None
  }

  // ---- installing keeps the table ----

  predicate Readable(p: Peer) {
    (p.wgIp.Bare? || p.wgIp.Masked?) && forall i | 0 <= i < |p.extra| :: p.extra[i].V4?
  }

  lemma {:induction false} ExtraMatchText(extra: seq<CidrText>, a: Addr)
    requires forall i | 0 <= i < |extra| :: extra[i].V4?
    ensures EntryMatch(Strings(extra), a) == ExtraMatch(extra, a)
  {
    hide CidrString, ReadEntry, Contains, Parse;
    if extra == [] {
    } else {
      CidrRoundTrip(extra[0]);
      ExtraMatchText(extra[1..], a);
      assert Strings(extra)[1..] == Strings(extra[1..]);
    }
  }

  /** The stanza of a peer. */
  function StanzaOf(p: Peer): Stanza {
    Stanza(p.pubkey, p.endpoint, Join(AllowedList(RecOf(p))))
  }

  lemma HostEntry(p: Peer)
    requires Readable(p)
    ensures exists host :: AllowedList(RecOf(p)) == [host] + Strings(p.extra) && Separable(host)
                           && ReadEntry(host) == HostPrefix(p.wgIp)
  {
    hide ReadEntry, Strings;
    HostRoundTrip(p.wgIp);
    var host := if '/' in HostString(p.wgIp) then HostString(p.wgIp) else HostString(p.wgIp) + "/32";
    assert AllowedList(RecOf(p)) == [host] + Strings(p.extra);
  }

  lemma StanzaKeepsBest(p: Peer, a: Addr)
    requires Readable(p)
    ensures StanzaBest(StanzaOf(p), a) == Best(p, a)
    ensures AllowedList(RecOf(p)) != []
  {
    hide ReadEntry, Contains, HostString, CidrString, Separable, ExtraMatch, Join, Entries, AllowedList;
    HostEntry(p);
    var host :| AllowedList(RecOf(p)) == [host] + Strings(p.extra) && Separable(host)
                && ReadEntry(host) == HostPrefix(p.wgIp);
    var all := [host] + Strings(p.extra);
    forall i | 0 <= i < |all| ensures Separable(all[i]) {
      if i > 0 {
        CidrRoundTrip(p.extra[i - 1]);
      }
    }
    EntriesOfJoin(all);
    ExtraMatchText(p.extra, a);
    assert all[1..] == Strings(p.extra);
  }

  lemma {:induction false} RenderedAt(ps: seq<Peer>)
    requires forall i | 0 <= i < |ps| :: Readable(ps[i])
    ensures |Rendered(Recs(ps))| == |ps| && forall i | 0 <= i < |ps| :: Rendered(Recs(ps))[i] == StanzaOf(ps[i])
  {
    hide Readable, AllowedList, Join;
    if ps == [] {
    } else {
      StanzaKeepsBest(ps[0], 0);
      RenderedAt(ps[1..]);
      assert Recs(ps)[1..] == Recs(ps[1..]);
    }
  }

  lemma {:induction false} InstalledScan(ps: seq<Peer>, sts: seq<Stanza>, a: Addr)
    requires |sts| == |ps| && forall i | 0 <= i < |ps| :: Readable(ps[i]) && sts[i] == StanzaOf(ps[i])
    ensures StanzaScan(sts, a) == Scan(ps, a)
    decreases |ps|
  {
    hide Readable, StanzaOf, StanzaBest, Best;
    if ps == [] {
    } else {
      var n := |ps| - 1;
      InstalledScan(ps[..n], sts[..n], a);
      StanzaKeepsBest(ps[n], a);
      assert StanzaOf(ps[n]).pubkey == ps[n].pubkey by { KeyKept(ps[n]); }
    }
  }

  lemma KeyKept(p: Peer)
    ensures StanzaOf(p).pubkey == p.pubkey
  {
  }

  /** Rendering a peer list to text and reading it back leaves every routing decision as it was. */
  lemma InstalledLookup(ps: seq<Peer>, a: Addr)
    requires forall i | 0 <= i < |ps| :: Readable(ps[i])
    ensures StanzaLookup(Rendered(Recs(ps)), a) == Lookup(ps, a)
  {
    hide Readable, StanzaOf, Rendered, Recs, StanzaScan, Scan;
    RenderedAt(ps);
    InstalledScan(ps, Rendered(Recs(ps)), a);
  }

  // ---- reachable peer lists are readable ----

  lemma RoutesAreV4(s: State, h: nat, r: CidrText)
    requires Inv(s) && h in s.hubs && r in s.hubs[h].routes
    ensures r.V4?
  {
    assert RowOk(s, h);
    assert RouteOk(r);
  }

  lemma HubPeerReadable(s: State, x: Device, h: nat)
    requires Sane(s) && h in s.hubs
    ensures Readable(HubPeer(s, x, s.hubs[h]))
  {
    var p := HubPeer(s, x, s.hubs[h]);
    assert AddressOk(s, h);
    forall i | 0 <= i < |p.extra| ensures p.extra[i].V4? {
      HubEntryKinds(s, x, h, p.extra[i]);
      if p.extra[i] in EgressExtra(x.egress, s.hubs[h], Hubs(s)) {
        EgressAdvertised(s, x, h, p.extra[i]);
        var g :| g in s.hubs && p.extra[i] in s.hubs[g].routes;
        RoutesAreV4(s, g, p.extra[i]);
      }
    }
  }

  lemma FabricPeerReadable(s: State, c: nat)
    requires Sane(s) && c in s.hubs && Parse(s.hubs[c].mesh).Some?
    ensures Readable(FabricPeer(s.hubs[c]))
  {
    var p := FabricPeer(s.hubs[c]);
    assert AddressOk(s, c);
    forall i | 0 <= i < |p.extra| ensures p.extra[i].V4? {
      if i > 0 {
        assert p.extra[i] == SubnetRoutes(s.hubs[c].routes)[i - 1];
        assert p.extra[i] in SubnetRoutes(s.hubs[c].routes);
        RoutesAreV4(s, c, p.extra[i]);
      }
    }
  }

  lemma NodePeersReadable(s: State, n: nat)
    requires Sane(s) && Up(s, n)
    ensures forall i | 0 <= i < |NodePeers(s, n)| :: Readable(NodePeers(s, n)[i])
  {
    hide Readable, NodePeers, HubPeer, FabricPeer;
    var h := s.devices[n].hub;
    DeviceFacts(s, n);
    assert RowOk(s, h);
    forall i | 0 <= i < |NodePeers(s, n)| ensures Readable(NodePeers(s, n)[i]) {
      var p := NodePeers(s, n)[i];
      if s.hubs[h].bound == Some(n) {
        HubPeersAre(s, h, p);
        if d :| SpokeOf(s, h, n, d) && p == SpokePeer(s.devices[d]) {
          DeviceFacts(s, d);
          assert Readable(p) by { DeviceReadable(s.devices[d]); }
        } else {
          var c :| c in s.hubs && Usable(s.hubs[c], h) && c in LinkSet(s, h) && p == FabricPeer(s.hubs[c]);
          FabricPeerReadable(s, c);
        }
      } else {
        SpokePeersAre(s, n, p);
        if d :| LanPeer(s, s.devices[n], d) && p == DevicePeer(s.devices[d]) {
          DeviceFacts(s, d);
          assert Readable(p) by { DeviceReadable(s.devices[d]); }
        } else {
          HubPeerReadable(s, s.devices[n], h);
        }
      }
    }
  }

  lemma DeviceReadable(d: Device)
    requires d.ip.Bare?
    ensures Readable(DevicePeer(d)) && Readable(SpokePeer(d))
  {
  }

  // ---- the capstone ----

  /** What the install script writes for a response text: flatten its records, then regroup the
      records of the flat file. */
  function ScriptStanzas(text: string): seq<Stanza> {
    Regrouped(ParsedAll(Records(FileText(Flat(Records(text))))))
  }

  /** The two awk programs in a row. */
  method RunScript(text: string) returns (out: seq<Stanza>)
    ensures out == ScriptStanzas(text)
  {
    var lines := Jflat(Records(text));
    out := RunRegroup(Records(FileText(lines)));
  }

  /** The flattener puts a newline behind every record, the last one included: it reads the text
      as it is, but for a newline that the text may lack at its end. */
  lemma {:induction false} FileOfRecords(t: string)
    ensures FileOf(Records(t)) == if t == "" || t[|t| - 1] == '\n' then t else t + "\n"
    decreases |t|
  {
    hide Cut, FileOf;
    if t == "" {
      NoRecords();
    } else {
      var k := Cut(t, '\n');
      var rest := if k == |t| then "" else t[k + 1..];
      assert Records(t) == [t[..k]] + Records(rest);
      FirstRecord(t[..k], Records(rest));
      FileOfRecords(rest);
      if k == |t| {
        assert t[..k] == t && t[|t| - 1] in t[..k];
      } else {
        assert t == t[..k] + "\n" + rest;
      }
    }
  }

  lemma NoRecords()
    ensures FileOf([]) == ""
  {
  }

  lemma FirstRecord(record: string, more: seq<string>)
    ensures FileOf([record] + more) == record + "\n" + FileOf(more)
  {
    assert ([record] + more)[1..] == more;
  }

  /** text spells a JSON value that lists exactly these peers. */
  ghost predicate Responds(text: string, peers: seq<PeerRec>) {
    exists lead, v, trail ::
      Response(v) && Blank(lead) && Blank(trail) && text == lead + Print(v) + trail && PeersOf(v) == peers
  }

  lemma ScriptRenders(text: string, peers: seq<PeerRec>)
    requires Responds(text, peers)
    ensures ScriptStanzas(text) == Rendered(peers)
  {
    hide Rendered, PeersOf, Print, Pval, Regrouped, ParsedAll, Records, FileText;
    var lead, v, trail :|
      Response(v) && Blank(lead) && Blank(trail) && text == lead + Print(v) + trail && PeersOf(v) == peers;
    FileOfRecords(text);
    var ended := if FileOf(Records(text)) == text then trail else trail + "\n";
    assert FileOf(Records(text)) == lead + Print(v) + ended;
    ScriptRendersResponse(lead, v, ended);
  }

  lemma AddressAscii(a: Addr, z: nat, len: Len)
    ensures Encoding.Ascii(AddrText(a)) && Encoding.Ascii(AddrText(a) + "/" + (Zeros(z) + Dec(len)))
  {
    hide AddrText, Dec;
    AddrParts(a);
  }

  lemma RecAscii(p: Peer)
    requires Readable(p) && p.wgIp.Bare? && p.pubkey != "" && Encoding.Ascii(p.pubkey) && Encoding.Ascii(p.endpoint)
    ensures Encoding.AsciiPeer(RecOf(p)) && Tame(RecOf(p))
  {
    hide AddrText, Dec, Encoding.Ascii;
    AddressAscii(p.wgIp.addr, 0, 0);
    HostRoundTrip(p.wgIp);
    forall i | 0 <= i < |p.extra| ensures Encoding.Ascii(CidrString(p.extra[i])) && CidrString(p.extra[i]) != "" {
      AddressAscii(p.extra[i].addr, p.extra[i].spelling, p.extra[i].len);
      CidrRoundTrip(p.extra[i]);
    }
  }

  lemma SpokePeersNamed(s: State, n: nat, p: Peer)
    requires Sane(s) && Spoke(s, n) && p in NodePeers(s, n)
    ensures p.wgIp.Bare? && p.pubkey != ""
  {
    SpokePeersAre(s, n, p);
    if d :| LanPeer(s, s.devices[n], d) && p == DevicePeer(s.devices[d]) {
      DeviceFacts(s, d);
    } else {
      BoundFacts(s, s.devices[n].hub);
    }
  }

  /** Every spoke's current peer list can be sent: some response text lists it, if its keys and
      endpoints are printable ASCII. */
  lemma PeerListHasResponse(s: State, n: nat)
    requires Sane(s) && Spoke(s, n)
    requires forall p | p in NodePeers(s, n) :: Encoding.Ascii(p.pubkey) && Encoding.Ascii(p.endpoint)
    ensures exists text :: Responds(text, Recs(NodePeers(s, n)))
  {
    hide NodePeers, Encoding.Ascii, Encoding.AsciiPeer, Tame, Response, Print, PeersOf, Encoding.Encoded;
    var ps := NodePeers(s, n);
    NodePeersReadable(s, n);
    forall i | 0 <= i < |ps| ensures Encoding.AsciiPeer(Recs(ps)[i]) && Tame(Recs(ps)[i]) {
      SpokePeersNamed(s, n, ps[i]);
      RecAscii(ps[i]);
    }
    Encoding.EncodeRoundTrip(Recs(ps));
    var v := Encoding.Encoded(Recs(ps));
    TextResponds(v, Recs(ps));
  }

  lemma TextResponds(v: Value, peers: seq<PeerRec>)
    requires Response(v) && PeersOf(v) == peers
    ensures Responds("" + Print(v) + "\n", peers)
  {
    hide PeersOf, Print;
    assert Blank("") && Blank("\n");
    var lead, trail := "", "\n";
    assert "" + Print(v) + "\n" == lead + Print(v) + trail;
  }

  /** Node n has installed its current peer list: the structured renderer ran on it, or the
      install script ran on some text of a response that lists it. */
  ghost predicate Installs(s: State, n: nat, sts: seq<Stanza>) {
    || sts == Rendered(Recs(NodePeers(s, n)))
    || exists text :: Responds(text, Recs(NodePeers(s, n))) && sts == ScriptStanzas(text)
  }

  /** Either way the installed file routes as the peer list does. */
  lemma InstalledRoutes(s: State, n: nat, sts: seq<Stanza>, a: Addr)
    requires Sane(s) && Up(s, n) && Installs(s, n, sts)
    ensures StanzaLookup(sts, a) == Lookup(NodePeers(s, n), a)
  {
    hide NodePeers, Recs, Rendered, StanzaLookup, Lookup, Readable, Responds, ScriptStanzas;
    NodePeersReadable(s, n);
    InstalledLookup(NodePeers(s, n), a);
    if sts != Rendered(Recs(NodePeers(s, n))) {
      var text :| Responds(text, Recs(NodePeers(s, n))) && sts == ScriptStanzas(text);
      ScriptRenders(text, Recs(NodePeers(s, n)));
    }
  }

  /** Every live device has installed its current peer list. */
  ghost predicate AllInstalled(s: State, conf: map<nat, seq<Stanza>>) {
    forall n | Up(s, n) :: n in conf && Installs(s, n, conf[n])
  }

  /** x's file sends a packet for dst to y's key, and y's file takes its source from x's key. */
  ghost predicate FileHop(s: State, conf: map<nat, seq<Stanza>>, x: nat, y: nat, src: Addr, dst: Addr) {
    && x in conf && y in conf && x in s.devices && y in s.devices
    && StanzaLookup(conf[x], dst) == Some(s.devices[y].pubkey)
    && StanzaLookup(conf[y], src) == Some(s.devices[x].pubkey)
  }

  /** The installed files make exactly the hops of the peer lists. */
  lemma HopInFiles(s: State, conf: map<nat, seq<Stanza>>, x: nat, y: nat, src: Addr, dst: Addr)
    requires Sane(s) && Up(s, x) && Up(s, y) && AllInstalled(s, conf)
    ensures FileHop(s, conf, x, y, src, dst) <==> Hop(s, x, y, src, dst)
  {
    hide NodePeers, Installs, StanzaLookup, Lookup;
    InstalledRoutes(s, x, conf[x], dst);
    InstalledRoutes(s, y, conf[y], src);
    KeyNamesDevice(s, y);
  }

  /** A packet from x to y passes x's hub and y's hub by the installed files alone. */
  ghost predicate FileDelivered(s: State, conf: map<nat, seq<Stanza>>, x: nat, y: nat) {
    && x in s.devices && y in s.devices && s.devices[x].ip.Bare? && s.devices[y].ip.Bare?
    && s.devices[x].hub in s.hubs && s.devices[y].hub in s.hubs
    && (var a, b := s.hubs[s.devices[x].hub].bound, s.hubs[s.devices[y].hub].bound;
        && a.Some? && b.Some?
        && FileHop(s, conf, x, a.value, IpOf(s, x), IpOf(s, y))
        && FileHop(s, conf, a.value, b.value, IpOf(s, x), IpOf(s, y))
        && (y != b.value ==> FileHop(s, conf, b.value, y, IpOf(s, x), IpOf(s, y))))
  }

  /** Delivery across a link by installed files. */
  lemma DeliversInstalled(s: State, conf: map<nat, seq<Stanza>>, x: nat, y: nat)
    requires Sane(s) && AllInstalled(s, conf)
    requires Spoke(s, x) && Up(s, y) && s.devices[x].hub != s.devices[y].hub
    ensures FileDelivered(s, conf, x, y) <==> Connected(s, x, y)
  {
    hide Hop, FileHop, AllInstalled, NodePeers, Connected, BoundTo;
    DeliveredAcrossIff(s, x, y);
    DeviceFacts(s, x);
    DeviceFacts(s, y);
    var a, b := s.hubs[s.devices[x].hub].bound, s.hubs[s.devices[y].hub].bound;
    if a.Some? && b.Some? {
      BoundUp(s, s.devices[x].hub);
      BoundUp(s, s.devices[y].hub);
      HopInFiles(s, conf, x, a.value, IpOf(s, x), IpOf(s, y));
      HopInFiles(s, conf, a.value, b.value, IpOf(s, x), IpOf(s, y));
      HopInFiles(s, conf, b.value, y, IpOf(s, x), IpOf(s, y));
    }
  }

  lemma BoundUp(s: State, h: nat)
    requires Inv(s) && h in s.hubs && s.hubs[h].bound.Some?
    ensures Up(s, s.hubs[h].bound.value)
  {
    assert RowOk(s, h);
  }

  /** The whole chain. After any run of the control plane without mesh or address edits and with
      meshes no longer than /24, let every live device install its current peer list through the
      text of a response. Then a packet from a spoke to a device of another hub crosses spoke,
      hub, hub, device by the installed files alone, each receiver accepting it, exactly when
      the two are connected. */
  lemma RunDeliversInstalled(es: seq<Event>, conf: map<nat, seq<Stanza>>, x: nat, y: nat)
    requires forall e | e in es :: Calm(e) && Wide(e)
    requires SubnetsClear(Run(es)) && AllInstalled(Run(es), conf)
    requires var s := Run(es);
             Spoke(s, x) && Up(s, y) && s.devices[x].hub != s.devices[y].hub
    ensures FileDelivered(Run(es), conf, x, y) <==> Connected(Run(es), x, y)
  {
    hide Run, Next, FileDelivered, AllInstalled, Connected;
    CalmRunSane(es);
    DeliversInstalled(Run(es), conf, x, y);
  }

  /** The same inside one hub: directly over the LAN, or through the hub. */
  lemma DeliversInstalledInHub(s: State, conf: map<nat, seq<Stanza>>, x: nat, y: nat)
    requires Sane(s) && AllInstalled(s, conf) && Spoke(s, x) && Up(s, y) && x != y
    requires s.devices[x].hub == s.devices[y].hub && s.hubs[s.devices[x].hub].Configured()
    ensures s.hubs[s.devices[x].hub].bound.Some? && s.devices[x].ip.Bare? && s.devices[y].ip.Bare?
    ensures var b, src, dst := s.hubs[s.devices[x].hub].bound.value, IpOf(s, x), IpOf(s, y);
            if y == b then FileHop(s, conf, x, b, src, dst)
            else if LanPair(s, x, y) then FileHop(s, conf, x, y, src, dst)
            else FileHop(s, conf, x, b, src, dst) && FileHop(s, conf, b, y, src, dst)
  {
    hide Hop, FileHop, Installs, NodePeers, LanPair;
    DeliveredInHub(s, x, y);
    BoundFacts(s, s.devices[x].hub);
    var b, src, dst := s.hubs[s.devices[x].hub].bound.value, IpOf(s, x), IpOf(s, y);
    if y == b || !LanPair(s, x, y) {
      HopInFiles(s, conf, x, b, src, dst);
      if y != b {
        HopInFiles(s, conf, b, y, src, dst);
      }
    } else {
      HopInFiles(s, conf, x, y, src, dst);
    }
  }
}
