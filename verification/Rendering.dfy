/** The regrouping awk pass refines the structured renderer: on the flattened text of every
    well-formed register response both give the same stanzas in the same order. */
module Rendering {
  import opened Text
  import opened Unicode
  import opened Flattening
  import opened JsonTree
  import opened Reading
  import opened FlatFile
  import opened Jget
  import opened Regroup

  // ---- which responses ----

  /** A string free of control characters, which the structured renderer can write: it has no
      lone surrogate. */
  predicate PlainText(v: Value)
    requires ValueOk(v)
  {
    v.Str? && Printable(v.units) && Writable(v.units)
  }

  predicate Writable(us: seq<Unit>)
    requires UnitsOk(us)
  {
    forall k | 0 <= k < |us| :: Scalar(PointOf(us[k]))
  }

  predicate ExtraTexts(items: Items)
    requires ItemsOk(items)
  {
    PlainText(items.item.value) && TextOf(Some(items.item.value)) != "" && (items.MoreItems? ==> ExtraTexts(items.rest))
  }

  /** What one member of a peer object must be: the pubkey is not empty, wg_ip is bare, and
      allowed_extra is null or lists texts that are not empty. Members with other names are free. */
  predicate MemberOk(key: string, v: Value)
    requires ValueOk(v)
  {
    if key == "pubkey" then PlainText(v) && TextOf(Some(v)) != ""
    else if key == "endpoint" then PlainText(v)
    else if key == "wg_ip" then PlainText(v) && '/' !in TextOf(Some(v))
    else if key == "allowed_extra" then v.EmptyArr? || v == JsonTree.Bare("null") || (v.Arr? && ExtraTexts(v.items))
    else true
  }

  predicate PeerFieldsOk(fields: Fields)
    requires FieldsOk(fields)
  {
    MemberOk(Exact(fields.field.key), fields.field.member.value) && (fields.MoreFields? ==> PeerFieldsOk(fields.more))
  }

  predicate PeerOk(v: Value)
    requires ValueOk(v)
  {
    v.Obj? && PeerFieldsOk(v.fields) && Get(v.fields, "pubkey").Some?
  }

  predicate PeersOk(items: Items)
    requires ItemsOk(items)
  {
    PeerOk(items.item.value) && (items.MoreItems? ==> PeersOk(items.rest))
  }

  /** A register response: an object, keys as jget needs them, and a list of peers if any. */
  predicate Response(v: Value) {
    && ValueOk(v) && v.Obj? && KeysOk(v)
    && var peers := Get(v.fields, "peers");
       peers.None? || peers.value.EmptyArr? || (peers.value.Arr? && PeersOk(peers.value.items))
  }

  // ---- shown and exact text ----

  lemma {:induction false} ExactShown(us: seq<Unit>)
    requires UnitsOk(us) && Printable(us)
    ensures Exact(us) == Shown(us)
  {
    hide PointOf, UnitOk, Utf8;
    if us == [] {
    } else {
      ExactShown(us[1..]);
    }
  }

  lemma {:induction false} ControlShows(us: seq<Unit>)
    requires UnitsOk(us) && !Printable(us)
    ensures (exists c :: c in Exact(us) && c as int < 32) && ' ' in Shown(us)
  {
    hide PointOf, UnitOk;
    var v := PointOf(us[0]);
    if v < 32 {
      var c := v as char;
      assert Exact(us)[0] == c && c in Exact(us);
      assert Shown(us)[0] == ' ';
    } else {
      ControlShows(us[1..]);
      var c :| c in Exact(us[1..]) && c as int < 32;
      assert c in Exact(us);
    }
  }

  /** A field name without blanks is met by the same keys whichever way keys are read. */
  lemma NameSame(us: seq<Unit>, name: string)
    requires UnitsOk(us) && forall c | c in name :: c as int > 32
    ensures Shown(us) == name <==> Exact(us) == name
  {
    hide Shown, Exact, UnitsOk;
    if Printable(us) {
      ExactShown(us);
    } else {
      ControlShows(us);
    }
  }

  lemma {:induction false} HasKeyGet(fields: Fields, name: string)
    requires FieldsOk(fields) && forall c | c in name :: c as int > 32
    ensures HasKey(fields, name) <==> Get(fields, name).Some?
  {
    hide Shown, Exact, UnitsOk, ValueOk;
    NameSame(fields.field.key, name);
    if fields.LastField? {
    } else {
      HasKeyGet(fields.more, name);
    }
  }

  // ---- the fold over leaves ----

  function Collected(leaves: seq<Leaf>, g: Groups): Groups {
    if leaves == [] then g
    else Collected(leaves[1..], Take(g, ClassifyParts([""] + leaves[0].steps), leaves[0].value))
  }

  lemma {:induction false} CollectIsCollected(leaves: seq<Leaf>, g: Groups)
    requires forall l | l in leaves :: SlashFree(l.steps)
    ensures Collect(Lines(leaves), g) == Collected(leaves, g)
  {
    hide Take, ClassifyParts, Split, PathOf;
    if leaves == [] {
    } else {
      assert leaves[0] in leaves;
      SplitPath(leaves[0].steps);
      assert Lines(leaves)[1..] == Lines(leaves[1..]);
      forall l | l in leaves[1..] ensures l in leaves {
      }
      CollectIsCollected(leaves[1..], Take(g, ClassifyParts([""] + leaves[0].steps), leaves[0].value));
    }
  }

  lemma {:induction false} CollectedAppend(a: seq<Leaf>, b: seq<Leaf>, g: Groups)
    ensures Collected(a + b, g) == Collected(b, Collected(a, g))
  {
    hide Take, ClassifyParts;
    if a == [] {
      assert a + b == b;
    } else {
      assert (a + b)[1..] == a[1..] + b;
      CollectedAppend(a[1..], b, Take(g, ClassifyParts([""] + a[0].steps), a[0].value));
    }
  }

  lemma {:induction false} CollectedUnrelated(leaves: seq<Leaf>, g: Groups)
    requires forall l | l in leaves :: ClassifyParts([""] + l.steps) == Unrelated
    ensures Collected(leaves, g) == g
  {
    hide ClassifyParts;
    if leaves == [] {
    } else {
      assert leaves[0] in leaves;
      forall l | l in leaves[1..] ensures l in leaves {
      }
      CollectedUnrelated(leaves[1..], g);
    }
  }

  lemma {:induction false} LeavesUnder(base: seq<string>, v: Value, l: Leaf)
    requires ValueOk(v) && l in Leaves(base, v)
    ensures base <= l.steps
    decreases v
  {
    hide Shown, UnitsOk;
    match v
    case Str(us) =>
    case Bare(t) =>
    case Arr(items) => ItemsUnder(base, 0, items, l);
    case Obj(fields) => FieldsUnder(base, fields, l);
  }

  lemma {:induction false} ItemsUnder(base: seq<string>, index: nat, items: Items, l: Leaf)
    requires ItemsOk(items) && l in ItemLeaves(base, index, items)
    ensures base <= l.steps
    decreases items
  {
    hide Leaves, ValueOk;
    if l in Leaves(base + [Dec(index)], items.item.value) {
      LeavesUnder(base + [Dec(index)], items.item.value, l);
    } else {
      ItemsUnder(base, index + 1, items.rest, l);
    }
  }

  lemma {:induction false} FieldsUnder(base: seq<string>, fields: Fields, l: Leaf)
    requires FieldsOk(fields) && l in FieldLeaves(base, fields)
    ensures base <= l.steps
    decreases fields
  {
    hide Leaves, ValueOk, Shown, UnitsOk;
    var key := Shown(fields.field.key);
    if l in Leaves(base + [key], fields.field.member.value) {
      LeavesUnder(base + [key], fields.field.member.value, l);
    } else {
      FieldsUnder(base, fields.more, l);
    }
  }

  // ---- one peer ----

  /** What the arrays hold for one peer. */
  datatype Row = Row(pub: string, ep: string, wgip: string, ex: string)

  function RowAt(g: Groups, k: nat): Row {
    Row(At(g.pub, k), At(g.ep, k), At(g.wgip, k), At(g.ex, k))
  }

  const EMPTY := Row("", "", "", "")

  function RowOf(p: PeerRec): Row {
    Row(p.pubkey, p.endpoint, p.wgIp, Join(p.extra))
  }

  /** Only peer k's entries changed. */
  ghost predicate OnlyAt(g: Groups, g': Groups, k: nat) {
    forall j: nat | j != k :: RowAt(g', j) == RowAt(g, j)
  }

  /** The list part of a row grown by texts. */
  function Onto(ex: string, texts: seq<string>): string {
    if texts == [] then ex else if ex == "" then Join(texts) else ex + ", " + Join(texts)
  }

  lemma OntoStep(ex: string, first: string, rest: seq<string>)
    requires first != ""
    ensures Onto(if ex == "" then first else ex + ", " + first, rest) == Onto(ex, [first] + rest)
  {
    assert ([first] + rest)[1..] == rest;
    if rest != [] && ex != "" {
      assert ex + ", " + first + ", " + Join(rest) == ex + ", " + (first + ", " + Join(rest));
    }
  }

  function Under(k: nat): seq<string> {
    ["peers", Dec(k)]
  }

  lemma ClassifyMember(k: nat, name: string)
    ensures var slot := ClassifyParts([""] + (Under(k) + [name]));
            slot == if name == "pubkey" then Pubkey(k) else if name == "endpoint" then Endpoint(k)
                    else if name == "wg_ip" then WgIp(k) else Unrelated
  {
    NumberOfDec(k);
  }

  lemma ClassifyExtra(k: nat, i: nat)
    ensures ClassifyParts([""] + (Under(k) + ["allowed_extra"] + [Dec(i)])) == Extra(k)
  {
    NumberOfDec(k);
  }

  lemma ClassifyOther(k: nat, name: string, steps: seq<string>)
    requires Under(k) + [name] <= steps
    requires name != "pubkey" && name != "endpoint" && name != "wg_ip" && name != "allowed_extra"
    ensures ClassifyParts([""] + steps) == Unrelated
  {
    assert steps[2] == (Under(k) + [name])[2] == name;
  }

  lemma {:induction false} ExtrasCollected(items: Items, k: nat, index: nat, g: Groups)
    requires ItemsOk(items) && ExtraTexts(items)
    ensures var g' := Collected(ItemLeaves(Under(k) + ["allowed_extra"], index, items), g);
            && RowAt(g', k) == RowAt(g, k).(ex := Onto(At(g.ex, k), Texts(items)))
            && OnlyAt(g, g', k) && g'.np == Reach(g.np, k)
    decreases items
  {
    hide ClassifyParts, Under, Dec, Exact, Shown, UnitsOk, Printable, Join;
    var base, us := Under(k) + ["allowed_extra"], items.item.value.units;
    ExactShown(us);
    ClassifyExtra(k, index);
    var leaf := Leaf(base + [Dec(index)], Shown(us));
    var g1 := Take(g, Extra(k), leaf.value);
    assert Collected([leaf], g) == g1;
    OntoStep(At(g.ex, k), Exact(us), if items.MoreItems? then Texts(items.rest) else []);
    if items.MoreItems? {
      ExtrasCollected(items.rest, k, index + 1, g1);
      CollectedAppend([leaf], ItemLeaves(base, index + 1, items.rest), g);
    } else {
      assert [leaf] + [] == [leaf];
    }
  }

  /** A row after one member. */
  function AfterMember(r: Row, key: string, v: Value): Row
    requires ValueOk(v)
  {
    if key == "pubkey" then r.(pub := TextOf(Some(v)))
    else if key == "endpoint" then r.(ep := TextOf(Some(v)))
    else if key == "wg_ip" then r.(wgip := TextOf(Some(v)))
    else if key == "allowed_extra" then r.(ex := Onto(r.ex, ListOf(Some(v))))
    else r
  }

  /** The one line of a member that is a string. */
  lemma TextCollected(k: nat, key: string, v: Value, g: Groups)
    requires key == "pubkey" || key == "endpoint" || key == "wg_ip"
    requires ValueOk(v) && PlainText(v)
    ensures var g' := Collected(Leaves(Under(k) + [key], v), g);
            && RowAt(g', k) == AfterMember(RowAt(g, k), key, v)
            && OnlyAt(g, g', k) && g'.np == Reach(g.np, k)
  {
    hide ClassifyParts, Exact, Shown, UnitsOk, Printable, Under;
    ClassifyMember(k, key);
    ExactShown(v.units);
    assert Leaves(Under(k) + [key], v)[1..] == [];
  }

  lemma OtherCollected(k: nat, key: string, v: Value, g: Groups)
    requires key != "pubkey" && key != "endpoint" && key != "wg_ip" && (key == "allowed_extra" ==> v.Bare?)
    requires ValueOk(v)
    ensures Collected(Leaves(Under(k) + [key], v), g) == g
  {
    hide ClassifyParts, Collected, ItemLeaves, FieldLeaves, UnitsOk, Shown;
    forall l | l in Leaves(Under(k) + [key], v) ensures ClassifyParts([""] + l.steps) == Unrelated {
      if key == "allowed_extra" {
        ClassifyMember(k, key);
      } else {
        LeavesUnder(Under(k) + [key], v, l);
        ClassifyOther(k, key, l.steps);
      }
    }
    CollectedUnrelated(Leaves(Under(k) + [key], v), g);
  }

  /** The awk pass over one member's lines. */
  lemma MemberCollected(k: nat, f: Field, g: Groups)
    requires KeyOk(f) && ValueOk(f.member.value) && MemberOk(Exact(f.key), f.member.value)
    ensures var g' := Collected(Leaves(Under(k) + [Shown(f.key)], f.member.value), g);
            && RowAt(g', k) == AfterMember(RowAt(g, k), Exact(f.key), f.member.value)
            && OnlyAt(g, g', k) && g.np <= g'.np <= Reach(g.np, k)
            && (Exact(f.key) == "pubkey" ==> g'.np == Reach(g.np, k))
  {
    hide Exact, Shown, UnitsOk, PlainText, TextOf, Join, Under, ItemLeaves, FieldLeaves, At;
    var key, v := Shown(f.key), f.member.value;
    NameSame(f.key, "pubkey");
    NameSame(f.key, "endpoint");
    NameSame(f.key, "wg_ip");
    NameSame(f.key, "allowed_extra");
    if key == "pubkey" || key == "endpoint" || key == "wg_ip" {
      TextCollected(k, key, v, g);
    } else if key == "allowed_extra" && v.Arr? {
      ExtrasCollected(v.items, k, 0, g);
    } else if key == "allowed_extra" && v.EmptyArr? {
    } else {
      OtherCollected(k, key, v, g);
    }
  }

  function AfterMembers(r: Row, fields: Fields): Row
    requires FieldsOk(fields)
    decreases fields
  {
    var r1 := AfterMember(r, Exact(fields.field.key), fields.field.member.value);
    if fields.MoreFields? then AfterMembers(r1, fields.more) else r1
  }

  lemma {:induction false} MembersCollected(k: nat, fields: Fields, g: Groups)
    requires FieldsOk(fields) && PeerFieldsOk(fields)
    ensures var g' := Collected(FieldLeaves(Under(k), fields), g);
            && RowAt(g', k) == AfterMembers(RowAt(g, k), fields)
            && OnlyAt(g, g', k) && g.np <= g'.np <= Reach(g.np, k)
            && (Get(fields, "pubkey").Some? ==> g'.np == Reach(g.np, k))
    decreases fields
  {
    hide Leaves, Exact, Shown, UnitsOk, ValueOk, MemberOk, AfterMember, RowAt, Under, Take;
    var f := fields.field;
    var mine := Leaves(Under(k) + [Shown(f.key)], f.member.value);
    MemberCollected(k, f, g);
    if fields.MoreFields? {
      MembersCollected(k, fields.more, Collected(mine, g));
      CollectedAppend(mine, FieldLeaves(Under(k), fields.more), g);
    } else {
      assert mine + [] == mine;
    }
  }

  /** The entry of a row that a member name feeds. */
  function Part(r: Row, name: string): string {
    if name == "pubkey" then r.pub else if name == "endpoint" then r.ep
    else if name == "wg_ip" then r.wgip else r.ex
  }

  predicate Known(name: string) {
    name == "pubkey" || name == "endpoint" || name == "wg_ip" || name == "allowed_extra"
  }

  /** That entry once the member has been read, if the object has it. */
  function Grown(old': string, name: string, v: Option<Value>): string
    requires v.Some? ==> ValueOk(v.value)
  {
    if v.None? then old' else if name == "allowed_extra" then Onto(old', ListOf(v)) else TextOf(v)
  }

  /** With no repeated key, each entry after all members is the one the named member feeds. */
  lemma {:induction false} AfterMembersGet(r: Row, fields: Fields, name: string)
    requires FieldsOk(fields) && FieldKeysOk(fields) && Known(name)
    ensures Part(AfterMembers(r, fields), name) == Grown(Part(r, name), name, Get(fields, name))
    decreases fields
  {
    hide Exact, Shown, UnitsOk, ValueOk, TextOf, ListOf, Onto, KeysOk;
    var f := fields.field;
    NameSame(f.key, name);
    if fields.LastField? {
    } else {
      HasKeyGet(fields.more, name);
      AfterMembersGet(AfterMember(r, Exact(f.key), f.member.value), fields.more, name);
    }
  }

  /** One peer object, from empty entries. */
  lemma PeerCollected(k: nat, fields: Fields, g: Groups)
    requires FieldsOk(fields) && FieldKeysOk(fields) && PeerFieldsOk(fields) && Get(fields, "pubkey").Some?
    requires RowAt(g, k) == EMPTY
    ensures var g' := Collected(FieldLeaves(Under(k), fields), g);
            RowAt(g', k) == RowOf(PeerOf(fields)) && OnlyAt(g, g', k) && g'.np == Reach(g.np, k)
  {
    hide FieldLeaves, Collected, AfterMembers, Get, PeerFieldsOk, FieldKeysOk, FieldsOk, Exact, Shown, Under, RowAt;
    MembersCollected(k, fields, g);
    AfterMembersGet(EMPTY, fields, "pubkey");
    AfterMembersGet(EMPTY, fields, "endpoint");
    AfterMembersGet(EMPTY, fields, "wg_ip");
    AfterMembersGet(EMPTY, fields, "allowed_extra");
  }

  // ---- all peers ----

  /** g holds the peers of a list from index on, and nothing after them. */
  ghost predicate Holds(g: Groups, index: nat, peers: seq<PeerRec>) {
    && g.np == index + |peers|
    && (forall j | 0 <= j < |peers| :: RowAt(g, index + j) == RowOf(peers[j]))
    && (forall k: nat | k >= g.np :: RowAt(g, k) == EMPTY)
  }

  lemma HoldsCons(g: Groups, index: nat, peer: PeerRec, peers: seq<PeerRec>)
    requires RowAt(g, index) == RowOf(peer) && Holds(g, index + 1, peers)
    ensures Holds(g, index, [peer] + peers)
  {
    hide RowAt, RowOf;
    forall j | 0 <= j < |[peer] + peers| ensures RowAt(g, index + j) == RowOf(([peer] + peers)[j]) {
      if j > 0 {
        assert RowAt(g, index + 1 + (j - 1)) == RowOf(peers[j - 1]);
      }
    }
  }

  lemma {:induction false} PeersCollected(items: Items, index: nat, g: Groups)
    requires ItemsOk(items) && ItemKeysOk(items) && PeersOk(items) && Holds(g, index, [])
    ensures var g' := Collected(ItemLeaves(["peers"], index, items), g);
            Holds(g', index, PeersIn(items)) && forall k: nat | k < index :: RowAt(g', k) == RowAt(g, k)
    decreases items
  {
    hide Collected, PeerFieldsOk, FieldKeysOk, FieldsOk, Get, PeerOf, RowAt, RowOf, FieldLeaves, Under;
    var v := items.item.value;
    var mine, peer := Leaves(Under(index), v), PeerOf(v.fields);
    var rest := if items.MoreItems? then ItemLeaves(["peers"], index + 1, items.rest) else [];
    UnderStep(index);
    PeerCollected(index, v.fields, g);
    var g1 := Collected(mine, g);
    CollectedAppend(mine, rest, g);
    if items.MoreItems? {
      assert Holds(g1, index + 1, []);
      PeersCollected(items.rest, index + 1, g1);
      HoldsCons(Collected(rest, g1), index, peer, PeersIn(items.rest));
    } else {
      assert mine + [] == mine;
      assert Holds(g1, index + 1, []);
      HoldsCons(g1, index, peer, []);
    }
  }

  lemma UnderStep(k: nat)
    ensures ["peers"] + [Dec(k)] == Under(k)
  {
  }

  lemma ClassifyTop(key: string, steps: seq<string>)
    requires [key] <= steps && key != "peers"
    ensures ClassifyParts([""] + steps) == Unrelated
  {
    assert ([""] + steps)[1] == steps[0] == key;
  }

  /** Only the member named peers leaves a mark. */
  lemma {:induction false} TopCollected(fields: Fields, g: Groups)
    requires FieldsOk(fields) && FieldKeysOk(fields)
    ensures Collected(FieldLeaves([], fields), g) ==
            match Get(fields, "peers")
            case Some(v) => Collected(Leaves(["peers"], v), g)
            case None => g
    decreases fields
  {
    hide Leaves, Exact, Shown, UnitsOk, ValueOk, KeysOk, ClassifyParts;
    var f := fields.field;
    var key := Shown(f.key);
    var mine := Leaves([key], f.member.value);
    assert [] + [key] == [key];
    NameSame(f.key, "peers");
    if key != "peers" {
      forall l | l in mine ensures ClassifyParts([""] + l.steps) == Unrelated {
        LeavesUnder([key], f.member.value, l);
        ClassifyTop(key, l.steps);
      }
      CollectedUnrelated(mine, g);
    }
    if fields.MoreFields? {
      HasKeyGet(fields.more, "peers");
      TopCollected(fields.more, Collected(mine, g));
      CollectedAppend(mine, FieldLeaves([], fields.more), g);
    } else {
      assert mine + [] == mine;
    }
  }

  // ---- stanzas ----

  /** A peer the two renderers agree on. */
  predicate Tame(p: PeerRec) {
    p.pubkey != "" && '/' !in p.wgIp && forall k | 0 <= k < |p.extra| :: p.extra[k] != ""
  }

  lemma AllowedIsJoin(g: Groups, k: nat, p: PeerRec)
    requires RowAt(g, k) == RowOf(p) && Tame(p)
    ensures Allowed(g, k) == Join(AllowedList(p)) && (Allowed(g, k) == "" <==> AllowedList(p) == [])
  {
    if p.wgIp != "" && p.extra != [] {
      var host := p.wgIp + "/32";
      assert AllowedList(p) == [host] + p.extra && ([host] + p.extra)[1..] == p.extra;
    } else {
      assert [] + p.extra == p.extra;
      assert [p.wgIp + "/32"] + [] == [p.wgIp + "/32"];
    }
  }

  lemma {:induction false} StanzasAreRendered(g: Groups, peers: seq<PeerRec>, k: nat)
    requires Holds(g, 0, peers) && (forall j | 0 <= j < |peers| :: Tame(peers[j])) && k <= |peers|
    ensures Stanzas(g, k) == Rendered(peers[k..])
    decreases |peers| - k
  {
    hide Allowed, AllowedList, Join, At, Tame;
    if k >= |peers| {
    } else {
      assert RowAt(g, 0 + k) == RowOf(peers[k]);
      assert peers[k].pubkey != "" by { TameNamed(peers[k]); }
      AllowedIsJoin(g, k, peers[k]);
      StanzasAreRendered(g, peers, k + 1);
      assert peers[k..][1..] == peers[k + 1..];
    }
  }

  lemma TameNamed(p: PeerRec)
    requires Tame(p)
    ensures p.pubkey != ""
  {
  }

  lemma {:induction false} TextsNonEmpty(items: Items)
    requires ItemsOk(items) && ExtraTexts(items)
    ensures forall k | 0 <= k < |Texts(items)| :: Texts(items)[k] != ""
  {
    hide TextOf, PlainText, ValueOk;
    if items.LastItem? {
    } else {
      TextsNonEmpty(items.rest);
    }
  }

  lemma {:induction false} GetMember(fields: Fields, name: string)
    requires FieldsOk(fields) && PeerFieldsOk(fields) && Get(fields, name).Some?
    ensures MemberOk(name, Get(fields, name).value)
  {
    hide MemberOk, Exact, ValueOk, UnitsOk;
    if Exact(fields.field.key) == name {
    } else {
      GetMember(fields.more, name);
    }
  }

  lemma PeerTame(fields: Fields)
    requires FieldsOk(fields) && PeerFieldsOk(fields) && Get(fields, "pubkey").Some?
    ensures Tame(PeerOf(fields))
  {
    hide Get, PeerFieldsOk, FieldsOk, Exact, Texts, ExtraTexts;
    GetMember(fields, "pubkey");
    if Get(fields, "wg_ip").Some? {
      GetMember(fields, "wg_ip");
    }
    if Get(fields, "allowed_extra").Some? {
      GetMember(fields, "allowed_extra");
      var v := Get(fields, "allowed_extra").value;
      if v.Arr? {
        TextsNonEmpty(v.items);
      }
    }
  }

  lemma {:induction false} PeersTame(items: Items)
    requires ItemsOk(items) && PeersOk(items)
    ensures forall j | 0 <= j < |PeersIn(items)| :: Tame(PeersIn(items)[j])
  {
    hide Tame, PeerOf, PeerFieldsOk, Get, FieldsOk;
    PeerTame(items.item.value.fields);
    if items.LastItem? {
    } else {
      PeersTame(items.rest);
    }
  }

  // ---- the theorem ----

  lemma ResponseCollected(v: Value)
    requires Response(v)
    ensures Holds(Collected(Leaves([], v), NO_GROUPS), 0, PeersOf(v))
    ensures forall j | 0 <= j < |PeersOf(v)| :: Tame(PeersOf(v)[j])
  {
    hide FieldKeysOk, PeersOk, Tame, FieldLeaves, ItemLeaves, Get, FieldsOk;
    var peers := Get(v.fields, "peers");
    TopCollected(v.fields, NO_GROUPS);
    if peers.Some? && peers.value.Arr? {
      GetKeys(v.fields, "peers");
      PeersCollected(peers.value.items, 0, NO_GROUPS);
      PeersTame(peers.value.items);
    }
  }

  lemma {:induction false} GetKeys(fields: Fields, name: string)
    requires FieldsOk(fields) && FieldKeysOk(fields) && Get(fields, name).Some?
    ensures KeysOk(Get(fields, name).value)
  {
    hide KeysOk, Exact, Shown, ValueOk, UnitsOk;
    if Exact(fields.field.key) == name {
    } else {
      GetKeys(fields.more, name);
    }
  }

  /** The awk pass over the flattened file gives the structured renderer's stanzas. */
  lemma RegroupRefinesRenderer(v: Value)
    requires Response(v)
    ensures Regrouped(ParsedAll(Records(FileText(Lines(Leaves([], v)))))) == Rendered(PeersOf(v))
  {
    hide Leaves, Lines, KeysOk, ValueOk, FileText, Tame, Holds, PeersOf, Stanzas;
    FlatFileIsLeaves(v);
    forall l | l in Leaves([], v) ensures SlashFree(l.steps) {
      LeafSteps([], v, l);
    }
    CollectIsCollected(Leaves([], v), NO_GROUPS);
    ResponseCollected(v);
    var g := Collected(Leaves([], v), NO_GROUPS);
    StanzasAreRendered(g, PeersOf(v), 0);
    assert PeersOf(v)[0..] == PeersOf(v);
  }

  /** From response text to stanzas: however the response is spelled, flattening and regrouping it
      gives what the Python renderer gives for the parsed response. */
  lemma ScriptRendersResponse(lead: string, v: Value, trail: string)
    requires Response(v) && Blank(lead) && Blank(trail)
    ensures Regrouped(ParsedAll(Records(FileText(Pval(lead + Print(v) + trail, 0, "").lines)))) == Rendered(PeersOf(v))
  {
    hide Leaves, Lines, FileText, PeersOf, Regrouped, Print, Pval;
    FlattenInvertsPrint(lead, v, trail);
    RegroupRefinesRenderer(v);
  }
}
