/** The body that the install script posts: printed with json_esc, and read back field by field. */
module RegisterBody {
  import opened Text
  import opened Flattening
  import opened JsonTree
  import opened Reading
  import opened Escaping

  /** A text that goes through json_esc, or a value that is spelled out. */
  datatype Slot = Esc(text: string) | Whole(value: Value)

  datatype Entry = Entry(key: string, slot: Slot)

  predicate EntryOk(e: Entry) {
    (forall i | 0 <= i < |e.key| :: Plain(e.key[i])) && (e.slot.Whole? ==> ValueOk(e.slot.value))
  }

  function PrintSlot(v: Slot): string {
    match v
    case Esc(t) => "\"" + JsonEsc(t) + "\""
    case Whole(v) => Print(v)
  }

  function PrintEntry(e: Entry): string {
    "\"" + e.key + "\"" + ":" + PrintSlot(e.slot)
  }

  function PrintEntries(es: seq<Entry>): string {
    if es == [] then "" else if |es| == 1 then PrintEntry(es[0]) else PrintEntry(es[0]) + "," + PrintEntries(es[1..])
  }

  /** What a slot should read as: the text without its control characters, or the value's leaves. */
  function SlotLines(key: string, v: Slot): seq<Line>
    requires v.Whole? ==> ValueOk(v.value)
  {
    match v
    case Esc(t) => [Line("/" + key, Dropped(t))]
    case Whole(v) => Lines(Leaves([key], v))
  }

  function EntryLines(es: seq<Entry>): seq<Line>
    requires forall i | 0 <= i < |es| :: EntryOk(es[i])
  {
    if es == [] then [] else
    assert EntryOk(es[0]);
    SlotLines(es[0].key, es[0].slot) + EntryLines(es[1..])
  }

  lemma PathOfKey(key: string)
    ensures PathOf([key]) == "/" + key
  {
    assert [key][..0] == [];
    assert PathOf([]) == "";
  }

  lemma SlotRead(s: string, i: nat, key: string, v: Slot)
    requires (v.Whole? ==> ValueOk(v.value)) && Has(s, i, PrintSlot(v))
    requires i + |PrintSlot(v)| < |s| && Delimits(s[i + |PrintSlot(v)|])
    ensures Pval(s, i, "/" + key) == Output(SlotLines(key, v), i + |PrintSlot(v)|)
  {
    hide JsonEsc, Members, Elements, BareText, Print, Leaves, Lines, Pstr;
    match v
    case Esc(t) =>
      HasAt(s, i, "\"" + JsonEsc(t) + "\"", 0);
      NoWs(s, i);
      SubAt(s, i);
      JsonEscRoundTrip(s, i, t);
    case Whole(v) =>
      PathOfKey(key);
      ValueRead(s, i, v, [key]);
  }

  lemma PlainKeyRead(s: string, i: nat, key: string)
    requires (forall k | 0 <= k < |key| :: Plain(key[k])) && Has(s, i, "\"" + key + "\"")
    ensures i < |s| && s[i] == '"' && Pstr(s, i) == Piece(key, i + |key| + 2)
  {
    assert "\"" + key + "\"" == "\"" + (key + "\"");
    HasSplit(s, i, "\"", key + "\"");
    HasSplit(s, i + 1, key, "\"");
    HasAt(s, i, "\"", 0);
    HasAt(s, i + 1 + |key|, "\"", 0);
    PlainRun(s, i + 1, key);
    assert key + "" == key;
  }

  /** One member, up to the comma or the brace behind it. */
  lemma EntryRead(s: string, i: nat, e: Entry, sep: string)
    requires EntryOk(e) && |sep| == 1 && Delimits(sep[0]) && !IsWs(sep[0]) && Has(s, i, PrintEntry(e) + sep)
    ensures i < |s| && Member(s, i, "") == Output(SlotLines(e.key, e.slot), i + |PrintEntry(e)|)
    ensures var j := i + |PrintEntry(e)|; Ws(s, j) == j < |s| && Sub(s, j, 1) == sep
  {
    hide Pstr, Pval, PrintSlot, SlotLines;
    var quoted := "\"" + e.key + "\"";
    var c := i + |quoted|;
    HasSplit(s, i, PrintEntry(e), sep);
    HasSplit(s, i, quoted + ":", PrintSlot(e.slot));
    HasSplit(s, i, quoted, ":");
    HasAt(s, c, ":", 0);
    PlainKeyRead(s, i, e.key);
    NoWs(s, i);
    NoWs(s, c);
    var j := i + |PrintEntry(e)|;
    HasAt(s, j, sep, 0);
    NoWs(s, j);
    SubHas(s, j, sep);
    SlotRead(s, c + 1, e.key, e.slot);
    assert "" + "/" + e.key == "/" + e.key;
  }

  lemma {:induction false} EntriesRead(s: string, i: nat, es: seq<Entry>)
    requires es != [] && (forall k | 0 <= k < |es| :: EntryOk(es[k])) && Has(s, i, PrintEntries(es) + "}")
    ensures Members(s, i, "") == Output(EntryLines(es), i + |PrintEntries(es)| + 1)
    decreases |es|
  {
    hide PrintEntry, SlotLines, EntryOk, Member, Has, Ws, Sub;
    var first, rest := PrintEntry(es[0]), es[1..];
    if |es| == 1 {
      EntryRead(s, i, es[0], "}");
      assert EntryLines(rest) == [];
    } else {
      var e := i + |first|;
      assert PrintEntries(es) + "}" == (first + ",") + (PrintEntries(rest) + "}");
      HasSplit(s, i, first + ",", PrintEntries(rest) + "}");
      EntryRead(s, i, es[0], ",");
      EntriesRead(s, e + 1, rest);
    }
  }

  /** Reading an object that was printed this way gives every slot back, in order. */
  lemma ObjectReads(es: seq<Entry>)
    requires es != [] && forall k | 0 <= k < |es| :: EntryOk(es[k])
    ensures var body := "{" + PrintEntries(es) + "}";
            Pval(body, 0, "") == Output(EntryLines(es), |body|)
  {
    hide PrintSlot, EntryLines, Members, EntryOk;
    var body := "{" + PrintEntries(es) + "}";
    assert body == "{" + (PrintEntries(es) + "}");
    assert Has(body, 0, body) by {
      assert body[0..|body|] == body;
    }
    HasSplit(body, 0, "{", PrintEntries(es) + "}");
    EntriesRead(body, 1, es);
    assert PrintEntries(es)[0] == '"';
    NoWs(body, 0);
    NoWs(body, 1);
    SubAt(body, 0);
    SubAt(body, 1);
  }

  // ---- the register request ----

  /** The script's variables. lan is the value that LAN_JSON spells. */
  datatype Request = Request(token: string, pubkey: string, hostname: string, os: string, arch: string, agent: string,
                             lan: Value, listen: nat, site: string, hostId: string, isolated: bool)

  /** "key":"%s" with an escaped text, and "key":%s with whatever is given. */
  function TextField(key: string, text: string): string {
    "\"" + key + "\":\"" + JsonEsc(text) + "\""
  }

  function PlainField(key: string, text: string): string {
    "\"" + key + "\":" + text
  }

  /** EXTRA_FIELDS: each with its comma in front. */
  function ExtraFields(r: Request): string {
    (if r.hostId == "" then "" else "," + TextField("host_id", r.hostId))
    + (if r.isolated then "," + PlainField("isolated", "true") else "")
  }

  /** The part of the format from lan_addrs on. */
  function Back(r: Request): string {
    PlainField("lan_addrs", Print(r.lan)) + "," + PlainField("wg_listen", Dec(r.listen))
    + "," + TextField("site_slug", r.site) + ExtraFields(r)
  }

  /** REGISTER_BODY, as its printf writes it. */
  function Body(r: Request): string {
    "{" + TextField("token", r.token) + "," + TextField("pubkey", r.pubkey) + "," + TextField("hostname", r.hostname)
    + "," + TextField("os", r.os) + "," + TextField("arch", r.arch) + "," + TextField("agent_ver", r.agent)
    + "," + Back(r) + "}"
  }

  /** The lines that a reader of the body should get. */
  function BackLines(r: Request): seq<Line>
    requires ValueOk(r.lan)
  {
    Lines(Leaves(["lan_addrs"], r.lan)) + [Line("/wg_listen", Dec(r.listen)), Line("/site_slug", Dropped(r.site))]
    + (if r.hostId == "" then [] else [Line("/host_id", Dropped(r.hostId))])
    + (if r.isolated then [Line("/isolated", "true")] else [])
  }

  function BodyLines(r: Request): seq<Line>
    requires ValueOk(r.lan)
  {
    [Line("/token", Dropped(r.token)), Line("/pubkey", Dropped(r.pubkey)), Line("/hostname", Dropped(r.hostname)),
     Line("/os", Dropped(r.os)), Line("/arch", Dropped(r.arch)), Line("/agent_ver", Dropped(r.agent))]
    + BackLines(r)
  }

  function Extras(r: Request): seq<Entry> {
    (if r.hostId == "" then [] else [Entry("host_id", Esc(r.hostId))])
    + (if r.isolated then [Entry("isolated", Whole(JsonTree.Bare("true")))] else [])
  }

  function BackEntries(r: Request): seq<Entry> {
    [Entry("lan_addrs", Whole(r.lan))]
    + ([Entry("wg_listen", Whole(JsonTree.Bare(Dec(r.listen))))] + ([Entry("site_slug", Esc(r.site))] + Extras(r)))
  }

  function BodyEntries(r: Request): seq<Entry> {
    [Entry("token", Esc(r.token))] + ([Entry("pubkey", Esc(r.pubkey))] + ([Entry("hostname", Esc(r.hostname))]
    + ([Entry("os", Esc(r.os))] + ([Entry("arch", Esc(r.arch))]
    + ([Entry("agent_ver", Esc(r.agent))] + BackEntries(r))))))
  }

  lemma PrintFirst(e: Entry, es: seq<Entry>)
    ensures PrintEntries([e] + es) == PrintEntry(e) + if es == [] then "" else "," + PrintEntries(es)
  {
    hide PrintEntry;
    assert ([e] + es)[1..] == es;
  }

  lemma LinesFirst(e: Entry, es: seq<Entry>)
    requires EntryOk(e) && forall i | 0 <= i < |es| :: EntryOk(es[i])
    ensures EntryLines([e] + es) == SlotLines(e.key, e.slot) + EntryLines(es)
  {
    hide SlotLines, EntryOk;
    assert ([e] + es)[1..] == es;
  }

  lemma FieldOfEntry(key: string, text: string, v: Value)
    ensures PrintEntry(Entry(key, Esc(text))) == TextField(key, text)
    ensures PrintEntry(Entry(key, Whole(v))) == PlainField(key, Print(v))
  {
    hide JsonEsc, Print;
  }

  lemma ExtrasPrinted(r: Request)
    ensures (if Extras(r) == [] then "" else "," + PrintEntries(Extras(r))) == ExtraFields(r)
  {
    hide PrintEntry, PrintEntries, TextField, PlainField;
    var host, alone := Entry("host_id", Esc(r.hostId)), Entry("isolated", Whole(JsonTree.Bare("true")));
    FieldOfEntry("host_id", r.hostId, JsonTree.Bare("true"));
    FieldOfEntry("isolated", "", JsonTree.Bare("true"));
    PrintFirst(alone, []);
    PrintFirst(host, []);
    PrintFirst(host, [alone]);
    assert [alone] + [] == [alone] && [host] + [] == [host] && [] + [alone] == [alone];
  }

  lemma BackIsEntries(r: Request)
    ensures BackEntries(r) != [] && PrintEntries(BackEntries(r)) == Back(r)
  {
    hide PrintEntry, PrintEntries, TextField, PlainField, ExtraFields, Extras, Print, Dec;
    var n := JsonTree.Bare(Dec(r.listen));
    var t2 := [Entry("site_slug", Esc(r.site))] + Extras(r);
    var t1 := [Entry("wg_listen", Whole(n))] + t2;
    ExtrasPrinted(r);
    PrintFirst(Entry("site_slug", Esc(r.site)), Extras(r));
    FieldOfEntry("site_slug", r.site, n);
    BarePrinted(Dec(r.listen));
    NextField("wg_listen", "", n, t2);
    NextField("lan_addrs", "", r.lan, t1);
  }

  /** The printf's output is the list of entries in braces. */
  lemma BodyIsEntries(r: Request)
    ensures Body(r) == "{" + PrintEntries(BodyEntries(r)) + "}"
  {
    hide PrintEntry, PrintEntries, TextField, PlainField, Back, BackEntries;
    var n := r.lan;
    BackIsEntries(r);
    var t6 := BackEntries(r);
    var t5 := [Entry("agent_ver", Esc(r.agent))] + t6;
    var t4 := [Entry("arch", Esc(r.arch))] + t5;
    var t3 := [Entry("os", Esc(r.os))] + t4;
    var t2 := [Entry("hostname", Esc(r.hostname))] + t3;
    var t1 := [Entry("pubkey", Esc(r.pubkey))] + t2;
    NextField("agent_ver", r.agent, n, t6);
    NextField("arch", r.arch, n, t5);
    NextField("os", r.os, n, t4);
    NextField("hostname", r.hostname, n, t3);
    NextField("pubkey", r.pubkey, n, t2);
    NextField("token", r.token, n, t1);
  }

  lemma BarePrinted(t: string)
    ensures Print(JsonTree.Bare(t)) == t
  {
  }

  lemma NextField(key: string, text: string, v: Value, es: seq<Entry>)
    requires es != []
    ensures PrintEntries([Entry(key, Esc(text))] + es) == TextField(key, text) + "," + PrintEntries(es)
    ensures PrintEntries([Entry(key, Whole(v))] + es) == PlainField(key, Print(v)) + "," + PrintEntries(es)
  {
    hide PrintEntry, PrintEntries, TextField, PlainField, Print;
    PrintFirst(Entry(key, Esc(text)), es);
    PrintFirst(Entry(key, Whole(v)), es);
    FieldOfEntry(key, text, v);
  }

  // ---- what each entry reads as ----

  predicate AllOk(es: seq<Entry>) {
    forall i | 0 <= i < |es| :: EntryOk(es[i])
  }

  lemma AllOkFirst(e: Entry, es: seq<Entry>)
    requires EntryOk(e) && AllOk(es)
    ensures AllOk([e] + es) && EntryLines([e] + es) == SlotLines(e.key, e.slot) + EntryLines(es)
  {
    hide EntryOk;
    LinesFirst(e, es);
  }

  /** A text member in front. */
  lemma TextFirst(key: string, text: string, es: seq<Entry>)
    requires AllOk(es) && forall i | 0 <= i < |key| :: Plain(key[i])
    ensures AllOk([Entry(key, Esc(text))] + es)
    ensures EntryLines([Entry(key, Esc(text))] + es) == [Line("/" + key, Dropped(text))] + EntryLines(es)
  {
    hide EntryLines, AllOk;
    AllOkFirst(Entry(key, Esc(text)), es);
  }

  lemma BareLines(key: string, t: string)
    requires BareOk(t)
    ensures SlotLines(key, Whole(JsonTree.Bare(t))) == [Line("/" + key, t)]
  {
    PathOfKey(key);
    assert Lines(Leaves([key], JsonTree.Bare(t))) == [Line(PathOf([key]), t)] + Lines([]);
  }

  lemma BareFirst(key: string, t: string, es: seq<Entry>)
    requires AllOk(es) && BareOk(t) && forall i | 0 <= i < |key| :: Plain(key[i])
    ensures AllOk([Entry(key, Whole(JsonTree.Bare(t)))] + es)
    ensures EntryLines([Entry(key, Whole(JsonTree.Bare(t)))] + es) == [Line("/" + key, t)] + EntryLines(es)
  {
    hide EntryLines, AllOk;
    AllOkFirst(Entry(key, Whole(JsonTree.Bare(t))), es);
    BareLines(key, t);
  }

  lemma NoEntries()
    ensures AllOk([]) && EntryLines([]) == []
  {
  }

  lemma ExtrasLines(r: Request)
    ensures AllOk(Extras(r))
    ensures EntryLines(Extras(r))
            == (if r.hostId == "" then [] else [Line("/host_id", Dropped(r.hostId))])
               + (if r.isolated then [Line("/isolated", "true")] else [])
  {
    hide EntryLines, AllOk, Dropped;
    NoEntries();
    var alone := if r.isolated then [Entry("isolated", Whole(JsonTree.Bare("true")))] else [];
    BareFirst("isolated", "true", []);
    assert "/" + "isolated" == "/isolated" && "/" + "host_id" == "/host_id";
    assert [Entry("isolated", Whole(JsonTree.Bare("true")))] + [] == [Entry("isolated", Whole(JsonTree.Bare("true")))];
    var tail := if r.isolated then [Line("/isolated", "true")] else [];
    assert AllOk(alone) && EntryLines(alone) == tail;
    TextFirst("host_id", r.hostId, alone);
    if r.hostId == "" {
      assert Extras(r) == alone && [] + tail == tail;
    } else {
      assert Extras(r) == [Entry("host_id", Esc(r.hostId))] + alone;
    }
  }

  lemma BackReads(r: Request)
    requires ValueOk(r.lan)
    ensures AllOk(BackEntries(r)) && EntryLines(BackEntries(r)) == BackLines(r)
  {
    hide EntryLines, AllOk, Dropped, Extras, Lines, Leaves, Dec;
    ExtrasLines(r);
    var t2 := [Entry("site_slug", Esc(r.site))] + Extras(r);
    var t1 := [Entry("wg_listen", Whole(JsonTree.Bare(Dec(r.listen))))] + t2;
    assert "/" + "site_slug" == "/site_slug" && "/" + "wg_listen" == "/wg_listen";
    TextFirst("site_slug", r.site, Extras(r));
    DigitsBare(r.listen);
    BareFirst("wg_listen", Dec(r.listen), t2);
    AllOkFirst(Entry("lan_addrs", Whole(r.lan)), t1);
  }

  lemma DigitsBare(n: nat)
    ensures BareOk(Dec(n))
  {
  }

  lemma FrontReads(r: Request)
    requires ValueOk(r.lan)
    ensures AllOk(BodyEntries(r)) && EntryLines(BodyEntries(r)) == BodyLines(r)
  {
    hide EntryLines, AllOk, Dropped, BackEntries, BackLines;
    BackReads(r);
    var t6 := BackEntries(r);
    var t5 := [Entry("agent_ver", Esc(r.agent))] + t6;
    var t4 := [Entry("arch", Esc(r.arch))] + t5;
    var t3 := [Entry("os", Esc(r.os))] + t4;
    var t2 := [Entry("hostname", Esc(r.hostname))] + t3;
    var t1 := [Entry("pubkey", Esc(r.pubkey))] + t2;
    TextFirst("agent_ver", r.agent, t6);
    TextFirst("arch", r.arch, t5);
    TextFirst("os", r.os, t4);
    TextFirst("hostname", r.hostname, t3);
    TextFirst("pubkey", r.pubkey, t2);
    TextFirst("token", r.token, t1);
    SlashedNames();
  }

  lemma SlashedNames()
    ensures "/" + "agent_ver" == "/agent_ver" && "/" + "arch" == "/arch" && "/" + "os" == "/os"
    ensures "/" + "hostname" == "/hostname" && "/" + "pubkey" == "/pubkey" && "/" + "token" == "/token"
  {
  }

  /** Reading the body that the script posts gives every field back without its control characters,
      and the LAN addresses as they were spelled, whatever quotes and backslashes the fields
      hold; nothing else is read, and the reader stops at the end. */
  lemma BodyReadsBack(r: Request)
    requires ValueOk(r.lan)
    ensures Pval(Body(r), 0, "") == Output(BodyLines(r), |Body(r)|)
  {
    hide Pval, Body, BodyEntries, BodyLines, EntryLines, PrintEntries, EntryOk;
    BodyIsEntries(r);
    FrontReads(r);
    assert BodyEntries(r) != [] by {
      SomeEntries(r);
    }
    ObjectReads(BodyEntries(r));
  }

  lemma SomeEntries(r: Request)
    ensures BodyEntries(r) != []
  {
  }
}
