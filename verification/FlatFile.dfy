/** The flattened response as a file: lines of two tab-separated fields, and jget's lookup of one
    path in it. */
module FlatFile {
  import opened Text
  import opened Unicode
  import opened Flattening
  import opened JsonTree
  import opened Reading

  // ---- splitting ----

  /** The position of the first sep, or the length. */
  function Cut(t: string, sep: char): (k: nat)
    ensures k <= |t| && (k < |t| ==> t[k] == sep) && sep !in t[..k]
  {
    if t == "" || t[0] == sep then 0 else
    var k := Cut(t[1..], sep) + 1;
    assert t[..k] == [t[0]] + t[1..][..k - 1];
    k
  }

  /** The fields of a text between separators: one more than there are separators. */
  function Split(t: string, sep: char): (parts: seq<string>)
    ensures parts != []
    decreases |t|
  {
    var k := Cut(t, sep);
    if k == |t| then [t] else [t[..k]] + Split(t[k + 1..], sep)
  }

  /** The newline-terminated records of a file. */
  function Records(t: string): seq<string>
    decreases |t|
  {
    if t == "" then [] else
    var k := Cut(t, '\n');
    [t[..k]] + if k == |t| then [] else Records(t[k + 1..])
  }

  lemma {:induction false} CutBefore(t: string, sep: char, j: nat)
    requires j < |t| && t[j] == sep
    ensures Cut(t, sep) <= j
  {
    if j == 0 || t[0] == sep {
    } else {
      CutBefore(t[1..], sep, j - 1);
    }
  }

  lemma {:induction false} CutAfter(t: string, sep: char, n: nat)
    requires n <= |t| && forall j | 0 <= j < n :: t[j] != sep
    ensures Cut(t, sep) >= n
  {
    if n == 0 {
    } else {
      CutAfter(t[1..], sep, n - 1);
    }
  }

  lemma CutPast(a: string, sep: char, rest: string)
    requires sep !in a
    ensures Cut(a + [sep] + rest, sep) == |a|
  {
    CutBefore(a + [sep] + rest, sep, |a|);
    CutAfter(a + [sep] + rest, sep, |a|);
  }

  lemma SplitPast(a: string, sep: char, rest: string)
    requires sep !in a
    ensures Split(a + [sep] + rest, sep) == [a] + Split(rest, sep)
  {
    CutPast(a, sep, rest);
    var t := a + [sep] + rest;
    assert t[..|a|] == a && t[|a| + 1..] == rest;
  }

  lemma SplitNone(a: string, sep: char)
    requires sep !in a
    ensures Split(a, sep) == [a]
  {
    CutAfter(a, sep, |a|);
  }

  lemma RecordsPast(a: string, rest: string)
    requires '\n' !in a
    ensures Records(a + "\n" + rest) == [a] + Records(rest)
  {
    CutPast(a, '\n', rest);
    var t := a + ['\n'] + rest;
    assert t[..|a|] == a && t[|a| + 1..] == rest;
  }

  // ---- the file ----

  function LineText(l: Line): string {
    l.path + "\t" + l.value
  }

  /** What print writes for a list of lines. */
  function FileText(lines: seq<Line>): string {
    if lines == [] then "" else LineText(lines[0]) + "\n" + FileText(lines[1..])
  }

  predicate Clean(t: string) {
    forall k | 0 <= k < |t| :: t[k] != '\t' && t[k] != '\n'
  }

  predicate OneLine(l: Line) {
    Clean(l.path) && Clean(l.value)
  }

  /** $1 and $2 of a record under -F'\t'; an absent field is empty. */
  function Parsed(record: string): Line {
    var f := Split(record, '\t');
    Line(f[0], if |f| > 1 then f[1] else "")
  }

  function ParsedAll(records: seq<string>): (lines: seq<Line>)
    ensures |lines| == |records| && forall k | 0 <= k < |records| :: lines[k] == Parsed(records[k])
  {
    if records == [] then [] else [Parsed(records[0])] + ParsedAll(records[1..])
  }

  lemma LineReadBack(l: Line)
    requires OneLine(l)
    ensures '\n' !in LineText(l)
    ensures Split(LineText(l), '\t') == [l.path, l.value] && Parsed(LineText(l)) == l
  {
    SplitPast(l.path, '\t', l.value);
    SplitNone(l.value, '\t');
    assert LineText(l) == l.path + ['\t'] + l.value;
  }

  /** A file of one-line entries is read back entry by entry: every record has exactly two fields. */
  lemma {:induction false} FileReadBack(lines: seq<Line>)
    requires forall k | 0 <= k < |lines| :: OneLine(lines[k])
    ensures ParsedAll(Records(FileText(lines))) == lines
    ensures forall r | r in Records(FileText(lines)) :: |Split(r, '\t')| == 2
  {
    hide Split, LineText, OneLine, Parsed;
    if lines == [] {
      assert ParsedAll(Records(FileText(lines))) == [];
    } else {
      var t, rest := LineText(lines[0]), FileText(lines[1..]);
      LineReadBack(lines[0]);
      RecordsPast(t, rest);
      FileReadBack(lines[1..]);
      var records := Records(FileText(lines));
      assert records[0] == t && records[1..] == Records(rest);
    }
  }

  // ---- every leaf is one clean line ----

  predicate CleanSteps(steps: seq<string>) {
    forall k | 0 <= k < |steps| :: Clean(steps[k])
  }

  lemma {:induction false} CleanPath(steps: seq<string>)
    requires CleanSteps(steps)
    ensures Clean(PathOf(steps))
  {
    if steps == [] {
    } else {
      CleanPath(steps[..|steps| - 1]);
    }
  }

  lemma CleanUtf8(v: Point)
    ensures Clean(Utf8(v))
  {
  }

  lemma {:induction false} CleanEncode(ps: seq<Point>)
    ensures Clean(Encode(ps))
  {
    hide Utf8;
    if ps == [] {
    } else {
      CleanUtf8(ps[0]);
      CleanEncode(ps[1..]);
    }
  }

  ghost predicate CleanLeaves(leaves: seq<Leaf>) {
    forall l | l in leaves :: CleanSteps(l.steps) && Clean(l.value)
  }

  lemma {:induction false} LeavesClean(steps: seq<string>, v: Value)
    requires ValueOk(v) && CleanSteps(steps)
    ensures CleanLeaves(Leaves(steps, v))
    decreases v
  {
    hide Shown, UnitsOk, Encode;
    match v
    case Str(us) => CleanShown(us);
    case Bare(t) =>
    case EmptyArr(_) =>
    case EmptyObj(_) =>
    case Arr(items) => ItemsClean(steps, 0, items);
    case Obj(fields) => FieldsClean(steps, fields);
  }

  lemma CleanShown(us: seq<Unit>)
    requires UnitsOk(us)
    ensures Clean(Shown(us))
  {
    CleanEncode(Points(us));
  }

  lemma {:induction false} ItemsClean(steps: seq<string>, index: nat, items: Items)
    requires ItemsOk(items) && CleanSteps(steps)
    ensures CleanLeaves(ItemLeaves(steps, index, items))
    decreases items
  {
    hide Leaves, Dec, ValueOk;
    assert Clean(Dec(index));
    LeavesClean(steps + [Dec(index)], items.item.value);
    if items.LastItem? {
    } else {
      ItemsClean(steps, index + 1, items.rest);
    }
  }

  lemma {:induction false} FieldsClean(steps: seq<string>, fields: Fields)
    requires FieldsOk(fields) && CleanSteps(steps)
    ensures CleanLeaves(FieldLeaves(steps, fields))
    decreases fields
  {
    hide Leaves, Shown, ValueOk, UnitsOk;
    CleanShown(fields.field.key);
    LeavesClean(steps + [Shown(fields.field.key)], fields.field.member.value);
    if fields.LastField? {
    } else {
      FieldsClean(steps, fields.more);
    }
  }

  lemma {:induction false} LinesClean(leaves: seq<Leaf>)
    requires CleanLeaves(leaves)
    ensures forall k | 0 <= k < |Lines(leaves)| :: OneLine(Lines(leaves)[k])
  {
    if leaves == [] {
    } else {
      assert leaves[0] in leaves;
      CleanPath(leaves[0].steps);
      forall l | l in leaves[1..] ensures CleanSteps(l.steps) && Clean(l.value) {
        assert l in leaves;
      }
      LinesClean(leaves[1..]);
    }
  }

  /** jflat's output file, read back with tabs as separators, is the list of leaves. */
  lemma FlatFileIsLeaves(v: Value)
    requires ValueOk(v)
    ensures ParsedAll(Records(FileText(Lines(Leaves([], v))))) == Lines(Leaves([], v))
    ensures forall r | r in Records(FileText(Lines(Leaves([], v)))) :: |Split(r, '\t')| == 2
  {
    hide Leaves, Lines, ValueOk, FileText;
    LeavesClean([], v);
    LinesClean(Leaves([], v));
    FileReadBack(Lines(Leaves([], v)));
  }

  // ---- inputs that are no JSON ----

  predicate Breaks(c: char) {
    c == '\t' || c == '\n'
  }

  /** A tab or newline with a backslash before it, which no JSON text has. */
  predicate BrokenEscape(s: string, i: nat) {
    i + 1 < |s| && s[i] == '\\' && Breaks(s[i + 1])
  }

  ghost predicate NoBrokenEscape(s: string) {
    forall i: nat :: !BrokenEscape(s, i)
  }

  /** What one turn of the string loop adds has a tab or newline just when it is such an escape. */
  lemma TurnCleanIff(s: string, i: nat)
    requires i < |s|
    ensures Clean(Turn(s, i).text) <==> !BrokenEscape(s, i)
  {
    hide Utf8, Combine, Hex4;
    if s[i] == '\\' && Sub(s, i + 1, 1) == "u" {
      CleanUtf8(Hex4(Sub(s, i + 2, 4)));
      if IsHigh(Hex4(Sub(s, i + 2, 4))) && IsLow(Hex4(Sub(s, i + 8, 4))) {
        CleanUtf8(Combine(Hex4(Sub(s, i + 2, 4)), Hex4(Sub(s, i + 8, 4))));
      }
    }
    if i + 1 < |s| {
      assert Sub(s, i + 1, 1) == [s[i + 1]];
    }
  }

  lemma {:induction false} StringClean(s: string, i: nat)
    requires NoBrokenEscape(s)
    ensures Clean(StringRest(s, i).text)
    decreases Left(s, i)
  {
    hide Turn;
    if i >= |s| || s[i] == '"' {
    } else {
      TurnCleanIff(s, i);
      StringClean(s, Turn(s, i).next);
    }
  }

  lemma {:induction false} BareClean(s: string, i: nat)
    ensures Clean(BareText(s, i).text)
    decreases Left(s, i)
  {
    if i >= |s| || Delimits(s[i]) {
    } else {
      BareClean(s, i + 1);
    }
  }

  ghost predicate AllOneLine(lines: seq<Line>) {
    forall l | l in lines :: OneLine(l)
  }

  /** Whatever the input is, well formed or not, every scalar and path is printed on one line of
      two fields, unless a backslash stands before a tab or newline. */
  lemma {:induction false} OneLinePerScalar(s: string, i: nat, path: string)
    requires NoBrokenEscape(s) && Clean(path)
    ensures AllOneLine(Pval(s, i, path).lines)
    decreases Left(s, i), 0
  {
    hide Members, Elements, NoBrokenEscape, StringRest, BareText;
    var j := Ws(s, i);
    var k := Ws(s, j + 1);
    StringClean(s, j + 1);
    BareClean(s, j);
    if Sub(s, j, 1) == "{" {
      if Sub(s, k, 1) != "}" { MembersOneLine(s, k, path); }
    } else if Sub(s, j, 1) == "[" {
      if Sub(s, k, 1) != "]" { ElementsOneLine(s, k, path, 0); }
    }
  }

  lemma {:induction false} MembersOneLine(s: string, i: nat, path: string)
    requires NoBrokenEscape(s) && Clean(path)
    ensures AllOneLine(Members(s, i, path).lines)
    decreases Left(s, i), 1
  {
    hide Pval, Pstr, NoBrokenEscape, StringRest, Members;
    if i >= |s| {
      assert Members(s, i, path) == Output([], i) by { MembersEnd(s, i, path); }
    } else {
      var key := Pstr(s, Ws(s, i));
      KeyClean(s, Ws(s, i));
      OneLinePerScalar(s, Ws(s, key.next) + 1, path + "/" + key.text);
      var v := Member(s, i, path);
      var e := Ws(s, v.next);
      if Sub(s, e, 1) != "}" { MembersOneLine(s, e + 1, path); }
      MembersTurn(s, i, path);
    }
  }

  lemma MembersEnd(s: string, i: nat, path: string)
    requires i >= |s|
    ensures Members(s, i, path) == Output([], i)
  {
  }

  lemma MembersTurn(s: string, i: nat, path: string)
    requires i < |s|
    ensures var v := Member(s, i, path);
            Members(s, i, path).lines == v.lines + MoreMembers(s, Ws(s, v.next), path).lines
  {
  }

  lemma KeyClean(s: string, i: nat)
    requires NoBrokenEscape(s)
    ensures Clean(Pstr(s, i).text)
  {
    hide StringRest, Clean, NoBrokenEscape;
    StringClean(s, i + 1);
  }

  lemma {:induction false} ElementsOneLine(s: string, i: nat, path: string, index: nat)
    requires NoBrokenEscape(s) && Clean(path)
    ensures AllOneLine(Elements(s, i, path, index).lines)
    decreases Left(s, i), 1
  {
    hide Pval, NoBrokenEscape, Dec;
    if i >= |s| {
    } else {
      assert Clean(Dec(index));
      var v := Pval(s, i, path + "/" + Dec(index));
      OneLinePerScalar(s, i, path + "/" + Dec(index));
      var e := Ws(s, v.next);
      if Sub(s, e, 1) != "]" { ElementsOneLine(s, e + 1, path, index + 1); }
    }
  }

  /** With one, a scalar can take two lines. */
  lemma BrokenEscapeBreaks()
    ensures BrokenEscape("\"\\\n\"", 1) && Pval("\"\\\n\"", 0, "").lines == [Line("", "\n")]
  {
    var s := "\"\\\n\"";
    assert Ws(s, 0) == 0 && Sub(s, 0, 1) == "\"" && Sub(s, 2, 1) == "\n";
    assert StringRest(s, 3) == Piece("", 4);
    assert Turn(s, 1) == Piece("\n", 3);
    assert StringRest(s, 1) == Piece("\n", 4);
  }
}
