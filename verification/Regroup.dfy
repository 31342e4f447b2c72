/** Two ways from a register response to [Peer] stanzas: the awk pass that regroups the flattened
    lines, and the Python renderer that walks the structured response. */
module Regroup {
  import opened Text
  import opened Unicode
  import opened Flattening
  import opened JsonTree
  import opened FlatFile

  /** A stanza; an empty endpoint means no Endpoint line. */
  datatype Stanza = Stanza(pubkey: string, endpoint: string, allowed: string)

  // ---- the awk pass ----

  /** What the four patterns make of a path. */
  datatype Slot = Pubkey(k: nat) | Endpoint(k: nat) | WgIp(k: nat) | Extra(k: nat) | Unrelated

  predicate Digits(t: string) {
    t != "" && forall i | 0 <= i < |t| :: IsDigit(t[i])
  }

  function ClassifyParts(parts: seq<string>): Slot {
    if |parts| < 4 || parts[0] != "" || parts[1] != "peers" || !Digits(parts[2]) then Unrelated
    else if |parts| == 4 then
      if parts[3] == "pubkey" then Pubkey(Number(parts[2]))
      else if parts[3] == "endpoint" then Endpoint(Number(parts[2]))
      else if parts[3] == "wg_ip" then WgIp(Number(parts[2]))
      else Unrelated
    else if |parts| == 5 && parts[3] == "allowed_extra" && Digits(parts[4]) then Extra(Number(parts[2]))
    else Unrelated
  }

  /** /^\/peers\/[0-9]+\/pubkey$/ and its three siblings, with idx_of for the number. */
  function Classify(path: string): Slot {
    ClassifyParts(Split(path, '/'))
  }

  /** The awk arrays pub, ep, wgip and ex, and the counter np. */
  datatype Groups = Groups(pub: map<nat, string>, ep: map<nat, string>, wgip: map<nat, string>, ex: map<nat, string>,
                           np: nat)

  const NO_GROUPS := Groups(map[], map[], map[], map[], 0)

  /** An awk array element; an absent one is empty. */
  function At(m: map<nat, string>, k: nat): string {
    if k in m then m[k] else ""
  }

  function Reach(np: nat, k: nat): nat {
    if k + 1 > np then k + 1 else np
  }

  /** One pattern-action. */
  function Take(g: Groups, slot: Slot, value: string): Groups {
    match slot
    case Pubkey(k) => g.(pub := g.pub[k := value], np := Reach(g.np, k))
    case Endpoint(k) => g.(ep := g.ep[k := value], np := Reach(g.np, k))
    case WgIp(k) => g.(wgip := g.wgip[k := value], np := Reach(g.np, k))
    case Extra(k) => g.(ex := g.ex[k := if At(g.ex, k) == "" then value else At(g.ex, k) + ", " + value],
                        np := Reach(g.np, k))
    case Unrelated => g
  }

  function Collect(lines: seq<Line>, g: Groups): Groups {
    if lines == [] then g else Collect(lines[1..], Take(g, Classify(lines[0].path), lines[0].value))
  }

  /** aips for peer k. */
  function Allowed(g: Groups, k: nat): string {
    var host := if At(g.wgip, k) == "" then "" else At(g.wgip, k) + "/32";
    if At(g.ex, k) == "" then host else if host == "" then At(g.ex, k) else host + ", " + At(g.ex, k)
  }

  /** The END loop from peer k on. */
  function Stanzas(g: Groups, k: nat): seq<Stanza>
    decreases if k < g.np then g.np - k else 0
  {
    if k >= g.np then []
    else if At(g.pub, k) == "" || Allowed(g, k) == "" then Stanzas(g, k + 1)
    else [Stanza(At(g.pub, k), At(g.ep, k), Allowed(g, k))] + Stanzas(g, k + 1)
  }

  function Regrouped(lines: seq<Line>): seq<Stanza> {
    Stanzas(Collect(lines, NO_GROUPS), 0)
  }

  /** No stanza is written without a key or without AllowedIPs, whatever the lines are. */
  lemma {:induction false} NoEmptyStanza(g: Groups, k: nat)
    ensures forall st | st in Stanzas(g, k) :: st.pubkey != "" && st.allowed != ""
    decreases if k < g.np then g.np - k else 0
  {
    hide At, Allowed;
    if k >= g.np {
    } else {
      NoEmptyStanza(g, k + 1);
    }
  }

  /** The pattern-actions over the records. */
  method CollectRecords(records: seq<string>) returns (g: Groups)
    ensures g == Collect(ParsedAll(records), NO_GROUPS)
  {
    hide Classify, Parsed, Split, At;
    g := NO_GROUPS;
    ghost var lines := ParsedAll(records);
    for i := 0 to |records|
      invariant Collect(lines[i..], g) == Collect(lines, NO_GROUPS)
    {
      var l := Parsed(records[i]);
      assert lines[i..][0] == l && lines[i..][1..] == lines[i + 1..];
      match Classify(l.path) {
        case Pubkey(k) =>
          g := g.(pub := g.pub[k := l.value], np := if k + 1 > g.np then k + 1 else g.np);
        case Endpoint(k) =>
          g := g.(ep := g.ep[k := l.value], np := if k + 1 > g.np then k + 1 else g.np);
        case WgIp(k) =>
          g := g.(wgip := g.wgip[k := l.value], np := if k + 1 > g.np then k + 1 else g.np);
        case Extra(k) =>
          g := g.(ex := g.ex[k := if At(g.ex, k) == "" then l.value else At(g.ex, k) + ", " + l.value],
                  np := if k + 1 > g.np then k + 1 else g.np);
        case Unrelated =>
      }
    }
    assert lines[|records|..] == [];
  }

  /** The END loop. */
  method EmitStanzas(g: Groups) returns (out: seq<Stanza>)
    ensures out == Stanzas(g, 0)
  {
    hide At;
    out := [];
    for k := 0 to g.np
      invariant out + Stanzas(g, k) == Stanzas(g, 0)
    {
      if At(g.pub, k) == "" { continue; }
      var aips := if At(g.wgip, k) == "" then "" else At(g.wgip, k) + "/32";
      if At(g.ex, k) != "" {
        aips := if aips == "" then At(g.ex, k) else aips + ", " + At(g.ex, k);
      }
      assert aips == Allowed(g, k);
      if aips == "" { continue; }
      out := out + [Stanza(At(g.pub, k), At(g.ep, k), aips)];
    }
  }

  /** The awk program. */
  method RunRegroup(records: seq<string>) returns (out: seq<Stanza>)
    ensures forall st | st in out :: st.pubkey != "" && st.allowed != ""
    ensures out == Regrouped(ParsedAll(records))
  {
    var g := CollectRecords(records);
    out := EmitStanzas(g);
    NoEmptyStanza(g, 0);
  }

  // ---- the Python renderer ----

  datatype PeerRec = PeerRec(pubkey: string, endpoint: string, wgIp: string, extra: seq<string>)

  /** ', '.join(xs). */
  function Join(xs: seq<string>): string {
    if xs == [] then "" else if |xs| == 1 then xs[0] else xs[0] + ", " + Join(xs[1..])
  }

  /** The list that AllowedIPs is joined from. */
  function AllowedList(p: PeerRec): seq<string> {
    (if p.wgIp == "" then [] else if '/' in p.wgIp then [p.wgIp] else [p.wgIp + "/32"]) + p.extra
  }

  function Rendered(peers: seq<PeerRec>): seq<Stanza> {
    if peers == [] then []
    else if AllowedList(peers[0]) == [] then Rendered(peers[1..])
    else [Stanza(peers[0].pubkey, peers[0].endpoint, Join(AllowedList(peers[0])))] + Rendered(peers[1..])
  }

  method RenderPeers(peers: seq<PeerRec>) returns (out: seq<Stanza>)
    ensures out == Rendered(peers)
  {
    hide Join, Rendered;
    out := [];
    NoneRendered();
    for i := 0 to |peers|
      invariant out + Rendered(peers[i..]) == Rendered(peers)
    {
      var p := peers[i];
      assert peers[i..] == [p] + peers[i + 1..];
      RenderedFirst(p, peers[i + 1..]);
      var host := if p.wgIp == "" then "" else if '/' in p.wgIp then p.wgIp else p.wgIp + "/32";
      var aips := (if host != "" then [host] else []) + p.extra;
      assert aips == AllowedList(p);
      if aips == [] { continue; }
      out := out + [Stanza(p.pubkey, p.endpoint, Join(aips))];
    }
    assert peers[|peers|..] == [];
  }

  lemma RenderedFirst(p: PeerRec, rest: seq<PeerRec>)
    ensures Rendered([p] + rest)
            == (if AllowedList(p) == [] then []
                else [Stanza(p.pubkey, p.endpoint, Join(AllowedList(p)))]) + Rendered(rest)
  {
    hide Join, AllowedList;
    assert ([p] + rest)[1..] == rest;
  }

  lemma NoneRendered()
    ensures Rendered([]) == []
  {
  }

  // ---- the structured response ----

  /** A string's own bytes, control characters included. */
  function Exact(us: seq<Unit>): string
    requires UnitsOk(us)
  {
    if us == [] then "" else
    var v := PointOf(us[0]);
    (if v < 32 then [v as char] else Utf8(v)) + Exact(us[1..])
  }

  predicate Printable(us: seq<Unit>)
    requires UnitsOk(us)
  {
    forall k | 0 <= k < |us| :: PointOf(us[k]) >= 32
  }

  /** The member of an object under a key. */
  function Get(fields: Fields, key: string): Option<Value>
    requires FieldsOk(fields)
    ensures Get(fields, key).Some? ==> ValueOk(Get(fields, key).value)
  {
    if Exact(fields.field.key) == key then Some(fields.field.member.value)
    else if fields.MoreFields? then Get(fields.more, key) else None
  }

  function TextOf(v: Option<Value>): string
    requires v.Some? ==> ValueOk(v.value)
  {
    if v.Some? && v.value.Str? then Exact(v.value.units) else ""
  }

  function Texts(items: Items): seq<string>
    requires ItemsOk(items)
  {
    [TextOf(Some(items.item.value))] + if items.MoreItems? then Texts(items.rest) else []
  }

  function ListOf(v: Option<Value>): seq<string>
    requires v.Some? ==> ValueOk(v.value)
  {
    if v.Some? && v.value.Arr? then Texts(v.value.items) else []
  }

  /** p['pubkey'], p.get('endpoint'), p.get('wg_ip') and p.get('allowed_extra') of one peer. */
  function PeerOf(fields: Fields): PeerRec
    requires FieldsOk(fields)
  {
    PeerRec(TextOf(Get(fields, "pubkey")), TextOf(Get(fields, "endpoint")), TextOf(Get(fields, "wg_ip")),
            ListOf(Get(fields, "allowed_extra")))
  }

  function PeerIn(v: Value): seq<PeerRec>
    requires ValueOk(v)
  {
    if v.Obj? then [PeerOf(v.fields)] else []
  }

  function PeersIn(items: Items): seq<PeerRec>
    requires ItemsOk(items)
  {
    PeerIn(items.item.value) + if items.MoreItems? then PeersIn(items.rest) else []
  }

  /** resp.get('peers', []). */
  function PeersOf(v: Value): seq<PeerRec>
    requires ValueOk(v)
  {
    if !v.Obj? then [] else
    var peers := Get(v.fields, "peers");
    if peers.Some? && peers.value.Arr? then PeersIn(peers.value.items) else []
  }
}
