/** The response encoder: for every peer list of ASCII texts there is a response that lists it. */
module Encoding {
  import opened Text
  import opened Unicode
  import opened Flattening
  import opened JsonTree
  import opened Reading
  import opened Jget
  import opened Regroup
  import opened Rendering

  /** Printable ASCII. */
  predicate Ascii(t: string) {
    forall i | 0 <= i < |t| :: 32 <= t[i] as int <= 126
  }

  /** A text as the encoder quotes it: backslashes and quotes escaped. */
  function Spelled(t: string): (us: seq<Unit>)
    requires Ascii(t)
    ensures |us| == |t|
  {
    if t == "" then [] else [if t[0] == '"' || t[0] == '\\' then Short(t[0]) else Raw(t[0] as nat)] + Spelled(t[1..])
  }

  lemma {:induction false} SpelledMeans(t: string)
    requires Ascii(t)
    ensures UnitsOk(Spelled(t)) && Printable(Spelled(t)) && Writable(Spelled(t))
    ensures Exact(Spelled(t)) == t && Shown(Spelled(t)) == t
  {
    if t == "" {
    } else {
      var us := Spelled(t);
      SpelledMeans(t[1..]);
      assert us[1..] == Spelled(t[1..]);
      assert UnitOk(us[0]) && PointOf(us[0]) == t[0] as nat && Utf8(PointOf(us[0])) == [t[0]];
      assert t == [t[0]] + t[1..];
    }
    ExactShown(Spelled(t));
  }

  function Literal(t: string): Value
    requires Ascii(t)
  {
    Str(Spelled(t))
  }

  function Tight(v: Value): Padded {
    Padded("", v, "")
  }

  predicate AsciiPeer(p: PeerRec) {
    Ascii(p.pubkey) && Ascii(p.endpoint) && Ascii(p.wgIp) && forall i | 0 <= i < |p.extra| :: Ascii(p.extra[i])
  }

  function TextItems(xs: seq<string>): Items
    requires xs != [] && forall i | 0 <= i < |xs| :: Ascii(xs[i])
  {
    if |xs| == 1 then LastItem(Tight(Literal(xs[0]))) else MoreItems(Tight(Literal(xs[0])), TextItems(xs[1..]))
  }

  /** One member of an object to encode. */
  datatype Entry = Entry(name: string, value: Value)

  predicate NameOk(name: string) {
    Ascii(name) && '/' !in name
  }

  lemma FieldNames()
    ensures NameOk("pubkey") && NameOk("endpoint") && NameOk("wg_ip") && NameOk("allowed_extra") && NameOk("peers")
  {
  }

  predicate Names(es: seq<Entry>) {
    && (forall i | 0 <= i < |es| :: NameOk(es[i].name))
    && forall i, j | 0 <= i < j < |es| :: es[i].name != es[j].name
  }

  function Keyed(e: Entry): Field
    requires Ascii(e.name)
  {
    Field("", Spelled(e.name), "", Tight(e.value))
  }

  function FieldsOf(es: seq<Entry>): Fields
    requires es != [] && Names(es)
  {
    if |es| == 1 then LastField(Keyed(es[0])) else MoreFields(Keyed(es[0]), FieldsOf(es[1..]))
  }

  /** pubkey and endpoint always; wg_ip and allowed_extra unless empty. */
  function Entries(p: PeerRec): (es: seq<Entry>)
    requires AsciiPeer(p)
    ensures 2 <= |es| <= 4
  {
    var key, end := Entry("pubkey", Literal(p.pubkey)), Entry("endpoint", Literal(p.endpoint));
    if p.extra == [] then
      if p.wgIp == "" then [key, end] else [key, Entry("wg_ip", Literal(p.wgIp)), end]
    else
      var list := Entry("allowed_extra", Arr(TextItems(p.extra)));
      if p.wgIp == "" then [key, end, list] else [key, Entry("wg_ip", Literal(p.wgIp)), end, list]
  }

  lemma EntriesNamed(p: PeerRec)
    requires AsciiPeer(p)
    ensures Names(Entries(p))
  {
    hide Literal, TextItems, NameOk;
    FieldNames();
  }

  function PeerValue(p: PeerRec): Value
    requires AsciiPeer(p)
  {
    EntriesNamed(p);
    Obj(FieldsOf(Entries(p)))
  }

  function PeerItems(ps: seq<PeerRec>): Items
    requires ps != [] && forall i | 0 <= i < |ps| :: AsciiPeer(ps[i])
  {
    if |ps| == 1 then LastItem(Tight(PeerValue(ps[0]))) else MoreItems(Tight(PeerValue(ps[0])), PeerItems(ps[1..]))
  }

  function PeersEntry(v: Value): (es: seq<Entry>)
    ensures |es| == 1 && Names(es)
  {
    FieldNames();
    [Entry("peers", v)]
  }

  function Encoded(ps: seq<PeerRec>): Value
    requires forall i | 0 <= i < |ps| :: AsciiPeer(ps[i])
  {
    Obj(FieldsOf(PeersEntry(if ps == [] then EmptyArr("") else Arr(PeerItems(ps)))))
  }

  // ---- it means what it should ----

  lemma KeyedOk(e: Entry)
    requires Ascii(e.name)
    ensures KeyOk(Keyed(e)) && Exact(Keyed(e).key) == e.name && Shown(Keyed(e).key) == e.name
    ensures Keyed(e).member.value == e.value
  {
    SpelledMeans(e.name);
  }

  /** The value under a name, if it is among the entries. */
  function Among(es: seq<Entry>, name: string): Option<Value> {
    if es == [] then None else if es[0].name == name then Some(es[0].value) else Among(es[1..], name)
  }

  lemma {:induction false} AmongUnique(es: seq<Entry>, name: string)
    ensures Among(es, name).Some? ==>
              exists i :: 0 <= i < |es| && es[i].name == name && es[i].value == Among(es, name).value
    ensures Among(es, name).None? ==> forall i | 0 <= i < |es| :: es[i].name != name
  {
    if es == [] || es[0].name == name {
    } else {
      AmongUnique(es[1..], name);
      if Among(es[1..], name).Some? {
        var i :| 0 <= i < |es[1..]| && es[1..][i].name == name && es[1..][i].value == Among(es[1..], name).value;
        assert es[i + 1].name == name && es[i + 1].value == Among(es, name).value;
      }
    }
  }

  lemma AmongAt(es: seq<Entry>, i: nat)
    requires i < |es| && Names(es)
    ensures Among(es, es[i].name) == Some(es[i].value)
  {
    AmongUnique(es, es[i].name);
  }

  /** An encoded object has the entries' names as its keys, each over its value. */
  lemma {:induction false} FieldsOfOk(es: seq<Entry>)
    requires es != [] && Names(es) && forall i | 0 <= i < |es| :: ValueOk(es[i].value) && KeysOk(es[i].value)
    ensures FieldsOk(FieldsOf(es)) && FieldKeysOk(FieldsOf(es))
    ensures forall name :: Get(FieldsOf(es), name) == Among(es, name)
    ensures forall name :: HasKey(FieldsOf(es), name) <==> Among(es, name).Some?
    decreases |es|
  {
    hide Keyed, Exact, Shown, KeyOk, ValueOk, KeysOk;
    KeyedOk(es[0]);
    var rest := es[1..];
    if |es| > 1 {
      FieldsOfOk(rest);
      AmongUnique(rest, es[0].name);
      assert forall i | 0 <= i < |rest| :: rest[i] == es[i + 1];
    } else {
      assert rest == [];
    }
  }

  lemma {:induction false} FieldsOfMembers(es: seq<Entry>)
    requires es != [] && Names(es)
    requires forall i | 0 <= i < |es| :: ValueOk(es[i].value) && MemberOk(es[i].name, es[i].value)
    requires FieldsOk(FieldsOf(es))
    ensures PeerFieldsOk(FieldsOf(es))
    decreases |es|
  {
    hide Keyed, Exact, Shown, KeyOk, ValueOk, MemberOk;
    KeyedOk(es[0]);
    if |es| <= 1 {
    } else {
      FieldsOfMembers(es[1..]);
    }
  }

  lemma LiteralOk(t: string)
    requires Ascii(t)
    ensures ValueOk(Literal(t)) && KeysOk(Literal(t)) && PlainText(Literal(t)) && TextOf(Some(Literal(t))) == t
  {
    SpelledMeans(t);
  }

  lemma {:induction false} TextItemsOk(xs: seq<string>)
    requires xs != [] && forall i | 0 <= i < |xs| :: Ascii(xs[i]) && xs[i] != ""
    ensures ItemsOk(TextItems(xs)) && ItemKeysOk(TextItems(xs)) && ExtraTexts(TextItems(xs))
            && Texts(TextItems(xs)) == xs
  {
    hide Literal, Spelled, PlainText, TextOf;
    LiteralOk(xs[0]);
    if |xs| <= 1 {
    } else {
      TextItemsOk(xs[1..]);
      assert xs == [xs[0]] + xs[1..];
    }
  }

  lemma EntriesOk(p: PeerRec, i: nat)
    requires AsciiPeer(p) && Tame(p) && i < |Entries(p)|
    ensures var e := Entries(p)[i];
            ValueOk(e.value) && KeysOk(e.value) && MemberOk(e.name, e.value)
  {
    hide Literal, TextItems, PlainText, TextOf;
    LiteralOk(p.pubkey);
    LiteralOk(p.wgIp);
    LiteralOk(p.endpoint);
    if p.extra != [] {
      TextItemsOk(p.extra);
    }
  }

  lemma EntriesAmong(p: PeerRec)
    requires AsciiPeer(p)
    ensures Among(Entries(p), "pubkey") == Some(Literal(p.pubkey))
            && Among(Entries(p), "endpoint") == Some(Literal(p.endpoint))
    ensures Among(Entries(p), "wg_ip") == if p.wgIp == "" then None else Some(Literal(p.wgIp))
    ensures Among(Entries(p), "allowed_extra") == if p.extra == [] then None else Some(Arr(TextItems(p.extra)))
  {
    hide Literal, TextItems, Among;
    var es := Entries(p);
    EntriesNamed(p);
    AmongAt(es, 0);
    if p.wgIp == "" {
      AmongAt(es, 1);
      AmongUnique(es, "wg_ip");
    } else {
      AmongAt(es, 1);
      AmongAt(es, 2);
    }
    if p.extra == [] {
      AmongUnique(es, "allowed_extra");
    } else {
      AmongAt(es, |es| - 1);
    }
  }

  lemma PeerValueOk(p: PeerRec)
    requires AsciiPeer(p) && Tame(p)
    ensures ValueOk(PeerValue(p)) && KeysOk(PeerValue(p)) && PeerOk(PeerValue(p)) && PeerIn(PeerValue(p)) == [p]
  {
    hide Literal, FieldsOf, Entries, Exact, Get, Among, TextItems, MemberOk;
    forall i | 0 <= i < |Entries(p)|
      ensures ValueOk(Entries(p)[i].value) && KeysOk(Entries(p)[i].value)
              && MemberOk(Entries(p)[i].name, Entries(p)[i].value)
    {
      EntriesOk(p, i);
    }
    EntriesNamed(p);
    FieldsOfOk(Entries(p));
    FieldsOfMembers(Entries(p));
    EntriesAmong(p);
    LiteralOk(p.pubkey);
    LiteralOk(p.wgIp);
    LiteralOk(p.endpoint);
    if p.extra != [] {
      TextItemsOk(p.extra);
    }
  }

  lemma {:induction false} PeerItemsEncode(ps: seq<PeerRec>)
    requires ps != [] && forall i | 0 <= i < |ps| :: AsciiPeer(ps[i]) && Tame(ps[i])
    ensures ItemsOk(PeerItems(ps)) && ItemKeysOk(PeerItems(ps)) && PeersOk(PeerItems(ps))
            && PeersIn(PeerItems(ps)) == ps
  {
    hide PeerValue, PeerIn, PeerOk, Tame, AsciiPeer, ValueOk, KeysOk;
    PeerValueOk(ps[0]);
    if |ps| <= 1 {
    } else {
      PeerItemsEncode(ps[1..]);
      assert ps == [ps[0]] + ps[1..];
    }
  }

  /** Encoding and interpreting a response are inverse: the encoding of any list of tame ASCII
      peers is a well-formed response that lists exactly them. */
  lemma EncodeRoundTrip(ps: seq<PeerRec>)
    requires forall i | 0 <= i < |ps| :: AsciiPeer(ps[i]) && Tame(ps[i])
    ensures Response(Encoded(ps)) && PeersOf(Encoded(ps)) == ps
  {
    hide FieldsOf, Get, PeerItems, PeersIn, Tame, AsciiPeer, ItemsOk, ItemKeysOk, PeersOk, HasKey;
    var v := if ps == [] then EmptyArr("") else Arr(PeerItems(ps));
    if ps != [] {
      PeerItemsEncode(ps);
    }
    FieldsOfOk(PeersEntry(v));
    assert Among(PeersEntry(v), "peers") == Some(v);
  }
}
