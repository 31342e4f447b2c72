/** Flattening inverts printing: on every text that spells a JSON value, the parser prints exactly
    the value's leaves and stops just past it. */
module Reading {
  import opened Text
  import opened Unicode
  import opened Flattening
  import opened JsonTree

  /** t stands in s at position i. */
  ghost predicate Has(s: string, i: nat, t: string) {
    i + |t| <= |s| && s[i..i + |t|] == t
  }

  lemma HasSplit(s: string, i: nat, a: string, b: string)
    requires Has(s, i, a + b)
    ensures Has(s, i, a) && Has(s, i + |a|, b)
  {
    var t := a + b;
    assert s[i..i + |a|] == s[i..i + |t|][..|a|] == t[..|a|] == a;
    assert s[i + |a|..i + |a| + |b|] == s[i..i + |t|][|a|..] == t[|a|..] == b;
  }

  lemma HasJoin(s: string, i: nat, a: string, b: string)
    requires Has(s, i, a) && Has(s, i + |a|, b)
    ensures Has(s, i, a + b)
  {
    assert s[i..i + |a + b|] == s[i..i + |a|] + s[i + |a|..i + |a + b|];
  }

  lemma HasAt(s: string, i: nat, t: string, k: nat)
    requires Has(s, i, t) && k < |t|
    ensures i + k < |s| && s[i + k] == t[k]
  {
    assert s[i + k] == s[i..i + |t|][k];
  }

  lemma HasRest(s: string, i: nat, t: string)
    requires Has(s, i, t) && t != ""
    ensures i < |s| && s[i] == t[0] && Has(s, i + 1, t[1..])
  {
    assert t == t[..1] + t[1..];
    HasSplit(s, i, t[..1], t[1..]);
    HasAt(s, i, t, 0);
  }

  lemma SubHas(s: string, i: nat, t: string)
    requires Has(s, i, t) && t != ""
    ensures Sub(s, i, |t|) == t
  {
    if i + |t| < |s| {
    } else {
      assert s[i..] == s[i..i + |t|];
    }
  }

  lemma SubAt(s: string, i: nat)
    requires i < |s|
    ensures Sub(s, i, 1) == [s[i]]
  {
  }

  // ---- white space ----

  lemma NoWs(s: string, i: nat)
    requires i < |s| && !IsWs(s[i])
    ensures Ws(s, i) == i
  {
  }

  lemma {:induction false} WsRun(s: string, i: nat, gap: string)
    requires Blank(gap) && Has(s, i, gap)
    requires i + |gap| < |s| ==> !IsWs(s[i + |gap|])
    ensures Ws(s, i) == i + |gap|
    decreases |gap|
  {
    if gap == "" {
    } else {
      HasRest(s, i, gap);
      WsRun(s, i + 1, gap[1..]);
    }
  }

  lemma {:induction false} WsTwice(s: string, i: nat)
    ensures Ws(s, Ws(s, i)) == Ws(s, i)
    decreases Left(s, i)
  {
    if i >= |s| || !IsWs(s[i]) {
    } else {
      WsTwice(s, i + 1);
    }
  }

  lemma PvalSkips(s: string, i: nat, path: string)
    ensures Pval(s, i, path) == Pval(s, Ws(s, i), path)
  {
    hide Members, Elements, StringRest, BareText;
    WsTwice(s, i);
  }

  lemma ElementsSkips(s: string, i: nat, path: string, index: nat)
    requires Ws(s, i) < |s|
    ensures Elements(s, i, path, index) == Elements(s, Ws(s, i), path, index)
  {
    hide Pval, MoreElements, Dec;
    PvalSkips(s, i, path + "/" + Dec(index));
  }

  lemma MembersSkips(s: string, i: nat, path: string)
    requires Ws(s, i) < |s|
    ensures Members(s, i, path) == Members(s, Ws(s, i), path)
  {
    hide Pval, MoreMembers, StringRest;
    WsTwice(s, i);
    assert Member(s, i, path) == Member(s, Ws(s, i), path);
  }

  // ---- strings ----

  predicate Plain(c: char) {
    c != '"' && c != '\\' && c != '\n' && c != '\t'
  }

  lemma {:induction false} PlainRun(s: string, i: nat, t: string)
    requires Has(s, i, t) && forall k | 0 <= k < |t| :: Plain(t[k])
    ensures StringRest(s, i) == After(t, StringRest(s, i + |t|))
    decreases |t|
  {
    hide Turn;
    var rest := StringRest(s, i + |t|).text;
    if t == "" {
      assert "" + rest == rest;
    } else {
      HasRest(s, i, t);
      PlainRun(s, i + 1, t[1..]);
      PlainTurn(s, i);
      assert [t[0]] + (t[1..] + rest) == t + rest;
    }
  }

  lemma PlainTurn(s: string, i: nat)
    requires i < |s| && Plain(s[i])
    ensures Turn(s, i) == Piece([s[i]], i + 1)
  {
  }

  /** No byte that utf8 prints for a character of a literal is special to pstr. */
  lemma RawIsPlain(v: Point)
    requires v >= 32 && v != 0x22 && v != 0x5C
    ensures forall k | 0 <= k < |Utf8(v)| :: Plain(Utf8(v)[k])
  {
  }

  lemma ShortTurn(s: string, i: nat, e: char)
    requires UnitOk(Short(e)) && Has(s, i, PrintUnit(Short(e)))
    ensures i < |s| && s[i] == '\\' && Turn(s, i) == Piece(Utf8(PointOf(Short(e))), i + 2)
  {
    HasAt(s, i, ['\\', e], 0);
    HasAt(s, i, ['\\', e], 1);
    assert Sub(s, i + 1, 1) == [e];
  }

  /** hex4 reads four digits as what they denote, and the program's surrogate ranges are the real
      ones. */
  lemma HexRead(h: string)
    requires FourHex(h)
    ensures Hex4(h) == CodeUnit(h) && (IsHigh(Hex4(h)) <==> HighSurrogate(h)) && (IsLow(Hex4(h)) <==> LowSurrogate(h))
  {
  }

  lemma PairRead(h: string, l: string)
    requires HighSurrogate(h) && LowSurrogate(l)
    ensures IsHigh(Hex4(h)) && IsLow(Hex4(l)) && Combine(Hex4(h), Hex4(l)) == PointOf(Pair(h, l))
  {
    hide Hex4, CodeUnit;
    HexRead(h);
    HexRead(l);
  }

  /** No low half follows at i: neither a quote nor the next character of a literal makes the
      \\u escape before it the first half of a pair. */
  ghost predicate NoLowAt(s: string, i: nat) {
    Sub(s, i, 2) == "\\u" ==> !IsLow(Hex4(Sub(s, i + 2, 4)))
  }

  /** What comes after a lone high half is no low half. */
  ghost predicate Alone(s: string, i: nat, u: Unit) {
    u.Code? && IsHigh(Hex4(u.digits)) ==> NoLowAt(s, i + 6)
  }

  lemma QuoteNoLow(s: string, i: nat)
    requires Has(s, i, "\"")
    ensures NoLowAt(s, i)
  {
    HasAt(s, i, "\"", 0);
    assert Sub(s, i, 2)[0] == s[i];
  }

  lemma UnitNoLow(s: string, i: nat, u: Unit)
    requires UnitOk(u) && Has(s, i, PrintUnit(u)) && !(u.Code? && LowSurrogate(u.digits))
    ensures NoLowAt(s, i)
  {
    hide Hex4, CodeUnit;
    match u
    case Raw(v) =>
      RawIsPlain(v);
      HasAt(s, i, Utf8(v), 0);
      assert Sub(s, i, 2)[0] == s[i];
    case Short(e) =>
      SubHas(s, i, ['\\', e]);
    case Code(h) =>
      HasSplit(s, i, "\\u", h);
      SubHas(s, i + 2, h);
      HexRead(h);
    case Pair(h, l) =>
      HasSplit(s, i, "\\u" + h + "\\u", l);
      HasSplit(s, i, "\\u" + h, "\\u");
      HasSplit(s, i, "\\u", h);
      SubHas(s, i + 2, h);
      HexRead(h);
  }

  lemma NextAlone(s: string, i: nat, us: seq<Unit>)
    requires us != [] && UnitsOk(us) && Has(s, i, PrintUnits(us) + "\"")
    ensures Alone(s, i, us[0])
  {
    hide Hex4, NoLowAt, CodeUnit;
    var t, rest := PrintUnit(us[0]), PrintUnits(us[1..]) + "\"";
    assert PrintUnits(us) + "\"" == t + rest;
    HasSplit(s, i, t, rest);
    if us[0].Code? && IsHigh(Hex4(us[0].digits)) {
      HexRead(us[0].digits);
      assert |t| == 6 by { CodeWidth(us[0]); }
      if |us| == 1 {
        assert rest == "\"";
        QuoteNoLow(s, i + 6);
      } else {
        var next := us[1..];
        assert rest == PrintUnit(next[0]) + (PrintUnits(next[1..]) + "\"");
        HasSplit(s, i + 6, PrintUnit(next[0]), PrintUnits(next[1..]) + "\"");
        UnitNoLow(s, i + 6, us[1]);
      }
    }
  }

  lemma CodeWidth(u: Unit)
    requires UnitOk(u) && u.Code?
    ensures |PrintUnit(u)| == 6
  {
  }

  lemma CodeTurn(s: string, i: nat, h: string)
    requires UnitOk(Code(h)) && Has(s, i, "\\u" + h) && Alone(s, i, Code(h))
    ensures i < |s| && s[i] == '\\' && Turn(s, i) == Piece(Utf8(Hex4(h)), i + 6)
  {
    hide Hex4, Utf8;
    HasSplit(s, i, "\\u", h);
    HasAt(s, i, "\\u", 0);
    HasAt(s, i, "\\u", 1);
    assert Sub(s, i + 1, 1) == "u";
    SubHas(s, i + 2, h);
  }

  lemma PairTurn(s: string, i: nat, h: string, l: string)
    requires UnitOk(Pair(h, l)) && Has(s, i, "\\u" + h + "\\u" + l)
    ensures IsHigh(Hex4(h)) && IsLow(Hex4(l))
    ensures i < |s| && s[i] == '\\' && Turn(s, i) == Piece(Utf8(Combine(Hex4(h), Hex4(l))), i + 12)
  {
    hide Hex4, Utf8, Combine, CodeUnit;
    HexRead(h);
    HexRead(l);
    HasSplit(s, i, "\\u" + h + "\\u", l);
    HasSplit(s, i, "\\u" + h, "\\u");
    HasSplit(s, i, "\\u", h);
    HasAt(s, i, "\\u", 0);
    HasAt(s, i, "\\u", 1);
    assert Sub(s, i + 1, 1) == "u";
    SubHas(s, i + 2, h);
    SubHas(s, i + 6, "\\u");
    SubHas(s, i + 8, l);
  }

  /** Whatever way a character is spelled, pstr reads its UTF-8 form, or a space for a control
      character, and moves past it. */
  lemma UnitRead(s: string, i: nat, u: Unit)
    requires UnitOk(u) && Has(s, i, PrintUnit(u)) && Alone(s, i, u)
    ensures StringRest(s, i) == After(Utf8(PointOf(u)), StringRest(s, i + |PrintUnit(u)|))
  {
    hide Turn;
    match u
    case Raw(v) =>
      RawIsPlain(v);
      PlainRun(s, i, Utf8(v));
    case Short(e) =>
      ShortTurn(s, i, e);
    case Code(h) =>
      CodeTurn(s, i, h);
      HexRead(h);
    case Pair(h, l) =>
      PairTurn(s, i, h, l);
      PairRead(h, l);
  }

  lemma {:induction false} UnitsRead(s: string, i: nat, us: seq<Unit>)
    requires UnitsOk(us) && Has(s, i, PrintUnits(us) + "\"")
    ensures StringRest(s, i) == Piece(Shown(us), i + |PrintUnits(us)| + 1)
    decreases |us|
  {
    hide Turn, UnitOk, PrintUnit, PointOf, Utf8, Alone;
    if us == [] {
      HasAt(s, i, "\"", 0);
      assert PrintUnits(us) + "\"" == "\"";
    } else {
      var t, rest := PrintUnit(us[0]), PrintUnits(us[1..]) + "\"";
      assert PrintUnits(us) + "\"" == t + rest;
      HasSplit(s, i, t, rest);
      NextAlone(s, i, us);
      UnitRead(s, i, us[0]);
      UnitsRead(s, i + |t|, us[1..]);
    }
  }

  lemma QuotedRead(s: string, i: nat, us: seq<Unit>)
    requires UnitsOk(us) && Has(s, i, Quoted(us))
    ensures i < |s| && s[i] == '"' && Pstr(s, i) == Piece(Shown(us), i + |Quoted(us)|)
  {
    hide UnitOk, Shown, PrintUnits, StringRest;
    assert Quoted(us) == "\"" + (PrintUnits(us) + "\"");
    HasSplit(s, i, "\"", PrintUnits(us) + "\"");
    HasAt(s, i, "\"", 0);
    UnitsRead(s, i + 1, us);
  }

  // ---- values ----

  lemma {:induction false} BareRead(s: string, i: nat, t: string)
    requires (forall k | 0 <= k < |t| :: BareChar(t[k])) && Has(s, i, t)
    requires i + |t| < |s| ==> Delimits(s[i + |t|])
    ensures BareText(s, i) == Piece(t, i + |t|)
    decreases |t|
  {
    if t == "" {
    } else {
      HasRest(s, i, t);
      BareRead(s, i + 1, t[1..]);
      assert [t[0]] + t[1..] == t;
    }
  }

  /** A value never starts with white space, a comma or a closing bracket. */
  lemma PrintStarts(v: Value)
    requires ValueOk(v)
    ensures Print(v) != "" && !Delimits(Print(v)[0])
    ensures Print(v)[0] == '"' <==> v.Str?
    ensures Print(v)[0] == '{' <==> v.Obj? || v.EmptyObj?
    ensures Print(v)[0] == '[' <==> v.Arr? || v.EmptyArr?
  {
    hide PrintUnits, PrintItems, PrintFields, UnitOk;
  }

  /** What follows a bare scalar must end it. */
  ghost predicate Ended(s: string, i: nat, v: Value) {
    v.Bare? && i < |s| ==> Delimits(s[i])
  }

  lemma {:induction false} ValueRead(s: string, i: nat, v: Value, steps: seq<string>)
    requires ValueOk(v) && Has(s, i, Print(v)) && Ended(s, i + |Print(v)|, v)
    ensures Pval(s, i, PathOf(steps)) == Output(Lines(Leaves(steps, v)), i + |Print(v)|)
    decreases v
  {
    hide StringRest, BareText, PrintUnits, UnitOk, Members, Elements, Has, Ws, Sub, Blank, PathOf;
    PrintStarts(v);
    HasAt(s, i, Print(v), 0);
    NoWs(s, i);
    SubAt(s, i);
    match v
    case Str(us) =>
      QuotedRead(s, i, us);
    case Bare(t) =>
      BareRead(s, i, t);
    case EmptyArr(gap) =>
      EmptyRead(s, i, "[", gap, "]");
    case EmptyObj(gap) =>
      EmptyRead(s, i, "{", gap, "}");
    case Arr(items) =>
      ArrRead(s, i, items, steps);
    case Obj(fields) =>
      ObjRead(s, i, fields, steps);
  }

  lemma EmptyRead(s: string, i: nat, open: string, gap: string, close: string)
    requires Blank(gap) && |open| == 1 && |close| == 1 && !IsWs(close[0]) && Has(s, i, open + gap + close)
    ensures Sub(s, Ws(s, i + 1), 1) == close && Ws(s, i + 1) == i + 1 + |gap|
  {
    HasSplit(s, i, open + gap, close);
    HasSplit(s, i, open, gap);
    HasAt(s, i + |open + gap|, close, 0);
    WsRun(s, i + 1, gap);
    SubHas(s, i + 1 + |gap|, close);
  }

  lemma {:induction false} ArrRead(s: string, i: nat, items: Items, steps: seq<string>)
    requires ItemsOk(items) && Has(s, i, "[" + PrintItems(items) + "]")
    ensures var k := Ws(s, i + 1);
            Sub(s, k, 1) != "]"
            && Elements(s, k, PathOf(steps), 0)
               == Output(Lines(ItemLeaves(steps, 0, items)), i + |"[" + PrintItems(items) + "]"|)
    decreases items, 1
  {
    hide Elements;
    assert "[" + PrintItems(items) + "]" == "[" + (PrintItems(items) + "]");
    HasSplit(s, i, "[", PrintItems(items) + "]");
    ItemsStart(s, i + 1, items);
    SubAt(s, Ws(s, i + 1));
    ItemsRead(s, i + 1, items, steps, 0);
    ElementsSkips(s, i + 1, PathOf(steps), 0);
  }

  lemma PaddedParts(s: string, i: nat, p: Padded)
    requires Has(s, i, PrintPadded(p))
    ensures var k := i + |p.before|;
            Has(s, i, p.before) && Has(s, k, Print(p.value)) && Has(s, k + |Print(p.value)|, p.after)
  {
    hide Print;
    HasSplit(s, i, p.before + Print(p.value), p.after);
    HasSplit(s, i, p.before, Print(p.value));
  }

  /** Where the first element's own text begins. */
  lemma ItemsStart(s: string, i: nat, items: Items)
    requires ItemsOk(items) && Has(s, i, PrintItems(items) + "]")
    ensures var k := Ws(s, i);
            k < |s| && !Delimits(s[k]) && k == i + |items.item.before|
  {
    hide ValueOk, Print;
    var p := items.item;
    HasSplit(s, i, PrintItems(items), "]");
    HasSplit(s, i, PrintPadded(p), if items.MoreItems? then "," + PrintItems(items.rest) else "");
    PaddedParts(s, i, p);
    PrintStarts(p.value);
    HasAt(s, i + |p.before|, Print(p.value), 0);
    WsRun(s, i, p.before);
  }

  lemma PathOfStep(steps: seq<string>, step: string)
    ensures PathOf(steps + [step]) == PathOf(steps) + "/" + step
  {
    assert (steps + [step])[..|steps|] == steps;
  }

  /** A padded value: read from its leading white space, up to the separator after it. */
  lemma {:induction false} PaddedRead(s: string, i: nat, p: Padded, steps: seq<string>, sep: string)
    requires GapsOk(p) && ValueOk(p.value) && |sep| == 1 && Delimits(sep[0]) && !IsWs(sep[0])
    requires Has(s, i, PrintPadded(p) + sep)
    ensures var o := Pval(s, i, PathOf(steps));
            var e := i + |PrintPadded(p)|;
            o.lines == Lines(Leaves(steps, p.value)) && Ws(s, o.next) == e < |s| && Sub(s, e, 1) == sep
    decreases p
  {
    hide Has, Ws, Sub, Pval, Lines, Leaves, PathOf, ValueOk, Print;
    var k := i + |p.before|;
    var e := k + |Print(p.value)|;
    HasSplit(s, i, PrintPadded(p), sep);
    PaddedParts(s, i, p);
    HasAt(s, e + |p.after|, sep, 0);
    if p.after != "" {
      HasAt(s, e, p.after, 0);
    }
    ValueRead(s, k, p.value, steps);
    PrintStarts(p.value);
    HasAt(s, k, Print(p.value), 0);
    WsRun(s, i, p.before);
    PvalSkips(s, i, PathOf(steps));
    WsRun(s, e, p.after);
    SubHas(s, e + |p.after|, sep);
  }

  lemma {:induction false} ItemsRead(s: string, i: nat, items: Items, steps: seq<string>, index: nat)
    requires ItemsOk(items) && Has(s, i, PrintItems(items) + "]")
    ensures Elements(s, i, PathOf(steps), index)
            == Output(Lines(ItemLeaves(steps, index, items)), i + |PrintItems(items)| + 1)
    decreases items, 0
  {
    hide Has, Ws, Blank, Pval, Lines, Leaves, PathOf, ValueOk, Print, GapsOk, Dec, PrintPadded;
    var p := items.item;
    var e := i + |PrintPadded(p)|;
    var sep := if items.MoreItems? then "," else "]";
    HasSplit(s, i, PrintItems(items), "]");
    HasSplit(s, i, PrintPadded(p), if items.MoreItems? then "," + PrintItems(items.rest) else "");
    if items.MoreItems? {
      HasSplit(s, e, ",", PrintItems(items.rest));
      HasJoin(s, e + 1, PrintItems(items.rest), "]");
    }
    HasJoin(s, i, PrintPadded(p), sep);
    var steps' := steps + [Dec(index)];
    PathOfStep(steps, Dec(index));
    PaddedRead(s, i, p, steps', sep);
    if items.MoreItems? {
      ItemsRead(s, e + 1, items.rest, steps, index + 1);
      LinesAppend(Leaves(steps', p.value), ItemLeaves(steps, index + 1, items.rest));
    } else {
      assert Leaves(steps', p.value) + [] == Leaves(steps', p.value);
    }
  }

  lemma {:induction false} ObjRead(s: string, i: nat, fields: Fields, steps: seq<string>)
    requires FieldsOk(fields) && Has(s, i, "{" + PrintFields(fields) + "}")
    ensures var k := Ws(s, i + 1);
            Sub(s, k, 1) != "}"
            && Members(s, k, PathOf(steps))
               == Output(Lines(FieldLeaves(steps, fields)), i + |"{" + PrintFields(fields) + "}"|)
    decreases fields, 1
  {
    hide Members;
    assert "{" + PrintFields(fields) + "}" == "{" + (PrintFields(fields) + "}");
    HasSplit(s, i, "{", PrintFields(fields) + "}");
    FieldsStart(s, i + 1, fields);
    SubAt(s, Ws(s, i + 1));
    FieldsRead(s, i + 1, fields, steps);
    MembersSkips(s, i + 1, PathOf(steps));
  }

  lemma FieldParts(s: string, i: nat, f: Field)
    requires Has(s, i, PrintField(f))
    ensures var k := i + |f.before|;
            var c := k + |Quoted(f.key)| + |f.gap|;
            Has(s, i, f.before) && Has(s, k, Quoted(f.key)) && Has(s, k + |Quoted(f.key)|, f.gap) && Has(s, c, ":")
            && Has(s, c + 1, PrintPadded(f.member))
  {
    hide Quoted, PrintPadded;
    var a := f.before + Quoted(f.key);
    HasSplit(s, i, a + f.gap + ":", PrintPadded(f.member));
    HasSplit(s, i, a + f.gap, ":");
    HasSplit(s, i, a, f.gap);
    HasSplit(s, i, f.before, Quoted(f.key));
  }

  /** Where the first key's opening quote stands. */
  lemma FieldsStart(s: string, i: nat, fields: Fields)
    requires FieldsOk(fields) && Has(s, i, PrintFields(fields) + "}")
    ensures var k := Ws(s, i);
            k < |s| && s[k] == '"' && k == i + |fields.field.before|
  {
    hide UnitsOk, ValueOk, PrintUnits;
    var f := fields.field;
    HasSplit(s, i, PrintFields(fields), "}");
    HasSplit(s, i, PrintField(f), if fields.MoreFields? then "," + PrintFields(fields.more) else "");
    FieldParts(s, i, f);
    HasAt(s, i + |f.before|, Quoted(f.key), 0);
    WsRun(s, i, f.before);
  }

  /** The key and the colon of a member. */
  lemma KeyRead(s: string, i: nat, f: Field, path: string)
    requires KeyOk(f) && Has(s, i, PrintField(f))
    ensures i < |s|
    ensures Member(s, i, path) == Pval(s, i + |f.before| + |Quoted(f.key)| + |f.gap| + 1, path + "/" + Shown(f.key))
  {
    hide Has, Ws, Blank, Pval, UnitsOk, PrintPadded, PrintUnits, Shown, Pstr;
    var k := i + |f.before|;
    var c := k + |Quoted(f.key)| + |f.gap|;
    FieldParts(s, i, f);
    QuotedRead(s, k, f.key);
    WsRun(s, i, f.before);
    HasAt(s, c, ":", 0);
    WsRun(s, k + |Quoted(f.key)|, f.gap);
  }

  /** One member: its key, the colon, its padded value. */
  lemma {:induction false} FieldRead(s: string, i: nat, f: Field, steps: seq<string>, sep: string)
    requires KeyOk(f) && ValueOk(f.member.value) && |sep| == 1 && Delimits(sep[0]) && !IsWs(sep[0])
    requires Has(s, i, PrintField(f) + sep)
    ensures i < |s|
    ensures var o := Member(s, i, PathOf(steps));
            var e := i + |PrintField(f)|;
            o.lines == Lines(Leaves(steps + [Shown(f.key)], f.member.value)) && Ws(s, o.next) == e < |s|
            && Sub(s, e, 1) == sep
    decreases f
  {
    hide Has, Member, Pval, Lines, Leaves, PathOf, ValueOk, UnitsOk, Print, GapsOk, PrintPadded, Quoted, Shown, Sub, Ws;
    var c := i + |f.before| + |Quoted(f.key)| + |f.gap|;
    HasSplit(s, i, PrintField(f), sep);
    KeyRead(s, i, f, PathOf(steps));
    FieldParts(s, i, f);
    HasJoin(s, c + 1, PrintPadded(f.member), sep);
    PathOfStep(steps, Shown(f.key));
    PaddedRead(s, c + 1, f.member, steps + [Shown(f.key)], sep);
  }

  lemma {:induction false} FieldsRead(s: string, i: nat, fields: Fields, steps: seq<string>)
    requires FieldsOk(fields) && Has(s, i, PrintFields(fields) + "}")
    ensures Members(s, i, PathOf(steps)) == Output(Lines(FieldLeaves(steps, fields)), i + |PrintFields(fields)| + 1)
    decreases fields, 0
  {
    hide Has, Ws, Blank, Pval, Member, Lines, Leaves, PathOf, ValueOk, Print, GapsOk, PrintField, Shown;
    var f := fields.field;
    var e := i + |PrintField(f)|;
    var sep := if fields.MoreFields? then "," else "}";
    HasSplit(s, i, PrintFields(fields), "}");
    HasSplit(s, i, PrintField(f), if fields.MoreFields? then "," + PrintFields(fields.more) else "");
    if fields.MoreFields? {
      HasSplit(s, e, ",", PrintFields(fields.more));
      HasJoin(s, e + 1, PrintFields(fields.more), "}");
    }
    HasJoin(s, i, PrintField(f), sep);
    FieldRead(s, i, f, steps, sep);
    var steps' := steps + [Shown(f.key)];
    if fields.MoreFields? {
      FieldsRead(s, e + 1, fields.more, steps);
      LinesAppend(Leaves(steps', f.member.value), FieldLeaves(steps, fields.more));
    } else {
      assert Leaves(steps', f.member.value) + [] == Leaves(steps', f.member.value);
    }
  }

  /** The theorem: whatever white space and escapes a JSON text uses, flattening it prints exactly
      its leaves in order, and the cursor ends just past the value. */
  lemma FlattenInvertsPrint(lead: string, v: Value, trail: string)
    requires ValueOk(v) && Blank(lead) && Blank(trail)
    ensures Pval(lead + Print(v) + trail, 0, "") == Output(Lines(Leaves([], v)), |lead + Print(v)|)
  {
    hide Pval, Lines, Leaves, Print, ValueOk;
    var s := lead + Print(v) + trail;
    assert Has(s, 0, lead + Print(v) + trail);
    HasSplit(s, 0, lead + Print(v), trail);
    HasSplit(s, 0, lead, Print(v));
    PrintStarts(v);
    HasAt(s, |lead|, Print(v), 0);
    WsRun(s, 0, lead);
    PvalSkips(s, 0, "");
    assert PathOf([]) == "";
    ValueRead(s, |lead|, v, []);
  }
}
