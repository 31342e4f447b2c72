/** The JSON flattener embedded in the install script: an awk recursive-descent parser that moves
    one cursor over the whole input and prints a line per leaf. It accepts any input; the cursor
    may run past the end. Here positions count from 0. */
module Flattening {
  import opened Text
  import opened Unicode

  /** One printed line: path, a tab, value. */
  datatype Line = Line(path: string, value: string)

  /** substr(s, i, n): what there is of it. */
  function Sub(s: string, i: nat, n: nat): (t: string)
    ensures |t| <= n
  {
    if i >= |s| then "" else if i + n <= |s| then s[i..i + n] else s[i..]
  }

  /** The distance to the end, for a cursor that may be past it. */
  function Left(s: string, i: nat): nat {
    if i < |s| then |s| - i else 0
  }

  predicate IsWs(c: char) {
    c == ' ' || c == '\t' || c == '\n' || c == '\r'
  }

  /** ws(). */
  function Ws(s: string, i: nat): (j: nat)
    ensures i <= j && (i <= |s| ==> j <= |s|)
    decreases Left(s, i)
  {
    if i < |s| && IsWs(s[i]) then Ws(s, i + 1) else i
  }

  // ---- strings ----

  /** A hexadecimal digit's value; the program reads anything else as 0. */
  function HexDigit(c: char): (d: nat)
    ensures d < 16
  {
    if '0' <= c <= '9' then c as int - '0' as int
    else if 'a' <= c <= 'f' then c as int - 'a' as int + 10
    else if 'A' <= c <= 'F' then c as int - 'A' as int + 10
    else 0
  }

  function HexAt(h: string, k: nat): (d: nat)
    ensures d < 16
  {
    if k < |h| then HexDigit(h[k]) else 0
  }

  /** hex4(h). */
  function Hex4(h: string): (v: Point)
    ensures v < 0x10000
  {
    ((HexAt(h, 0) * 16 + HexAt(h, 1)) * 16 + HexAt(h, 2)) * 16 + HexAt(h, 3)
  }

  /** What a stretch of input amounts to, and the cursor after it. */
  datatype Piece = Piece(text: string, next: nat)

  predicate IsHigh(v: nat) {
    0xD800 <= v <= 0xDBFF
  }

  predicate IsLow(v: nat) {
    0xDC00 <= v <= 0xDFFF
  }

  /** A \\u escape, or two that make a surrogate pair, from its backslash. */
  function UnicodeEscape(s: string, i: nat): (p: Piece)
    ensures p.next > i
  {
    var u := Hex4(Sub(s, i + 2, 4));
    var lo := Hex4(Sub(s, i + 8, 4));
    if IsHigh(u) && Sub(s, i + 6, 2) == "\\u" && IsLow(lo) then Piece(Utf8(Combine(u, lo)), i + 12)
    else Piece(Utf8(u), i + 6)
  }

  /** One turn of pstr's loop, at a character that does not close the string. */
  function Turn(s: string, i: nat): (p: Piece)
    requires i < |s|
    ensures p.next > i
  {
    if s[i] == '\\' then
      var e := Sub(s, i + 1, 1);
      if e == "u" then UnicodeEscape(s, i)
      else if e == "n" || e == "t" || e == "r" || e == "b" || e == "f" then Piece(" ", i + 2)
      else Piece(e, i + 2)
    else if s[i] == '\n' || s[i] == '\t' then Piece(" ", i + 1)
    else Piece([s[i]], i + 1)
  }

  /** The rest of a string literal, from inside it. */
  function StringRest(s: string, i: nat): (p: Piece)
    ensures p.next >= i
    decreases Left(s, i)
  {
    if i >= |s| then Piece("", i)
    else if s[i] == '"' then Piece("", i + 1)
    else
      var t := Turn(s, i);
      var rest := StringRest(s, t.next);
      Piece(t.text + rest.text, rest.next)
  }

  /** pstr(): whatever stands at the cursor is taken for the opening quote. */
  function Pstr(s: string, i: nat): (p: Piece)
    ensures p.next > i
  {
    StringRest(s, i + 1)
  }

  // ---- values ----

  predicate Delimits(c: char) {
    IsWs(c) || c == ',' || c == '}' || c == ']'
  }

  /** The characters of a bare scalar. */
  function BareText(s: string, i: nat): (p: Piece)
    ensures p.next >= i
    decreases Left(s, i)
  {
    if i >= |s| || Delimits(s[i]) then Piece("", i)
    else
      var rest := BareText(s, i + 1);
      Piece([s[i]] + rest.text, rest.next)
  }

  datatype Output = Output(lines: seq<Line>, next: nat)

  function Following(printed: seq<Line>, o: Output): Output {
    Output(printed + o.lines, o.next)
  }

  /** pval(path). */
  function Pval(s: string, i: nat, path: string): (o: Output)
    ensures o.next >= i
    decreases Left(s, i), 0
  {
    var j := Ws(s, i);
    var c := Sub(s, j, 1);
    if c == "{" then
      var k := Ws(s, j + 1);
      if Sub(s, k, 1) == "}" then Output([], k + 1) else Members(s, k, path)
    else if c == "[" then
      var k := Ws(s, j + 1);
      if Sub(s, k, 1) == "]" then Output([], k + 1) else Elements(s, k, path, 0)
    else if c == "\"" then
      var p := Pstr(s, j);
      Output([Line(path, p.text)], p.next)
    else
      var p := BareText(s, j);
      Output([Line(path, p.text)], p.next)
  }

  /** The loop over an object's members. */
  function Members(s: string, i: nat, path: string): (o: Output)
    ensures o.next >= i
    decreases Left(s, i), 1
  {
    if i >= |s| then Output([], i)
    else
      var v := Member(s, i, path);
      Following(v.lines, MoreMembers(s, Ws(s, v.next), path))
  }

  /** One key, one character for the colon, one value. */
  function Member(s: string, i: nat, path: string): (o: Output)
    requires i < |s|
    ensures o.next > i
    decreases Left(s, i), 0
  {
    var key := Pstr(s, Ws(s, i));
    Pval(s, Ws(s, key.next) + 1, path + "/" + key.text)
  }

  /** After a member: the closing brace, or whatever stands for a comma. */
  function MoreMembers(s: string, e: nat, path: string): (o: Output)
    ensures o.next >= e
    decreases Left(s, e + 1), 2
  {
    if Sub(s, e, 1) == "}" then Output([], e + 1) else Members(s, e + 1, path)
  }

  /** The loop over an array's elements. */
  function Elements(s: string, i: nat, path: string, index: nat): (o: Output)
    ensures o.next >= i
    decreases Left(s, i), 1
  {
    if i >= |s| then Output([], i)
    else
      var v := Pval(s, i, path + "/" + Dec(index));
      Following(v.lines, MoreElements(s, Ws(s, v.next), path, index + 1))
  }

  function MoreElements(s: string, e: nat, path: string, index: nat): (o: Output)
    ensures o.next >= e
    decreases Left(s, e + 1), 2
  {
    if Sub(s, e, 1) == "]" then Output([], e + 1) else Elements(s, e + 1, path, index)
  }

  /** The cursor ends strictly past the start of any value that is not empty, and at the start
      of the first thing after the white space otherwise: an input that ran out, or a delimiter
      where a value should be. */
  lemma ValueAdvances(s: string, i: nat, path: string)
    ensures var j := Ws(s, i);
            Pval(s, i, path).next > j <==> j < |s| && !Delimits(s[j])
    ensures var j := Ws(s, i);
            Pval(s, i, path).next <= j ==> Pval(s, i, path) == Output([Line(path, "")], j)
  {
    var j := Ws(s, i);
    var c := Sub(s, j, 1);
    if j < |s| {
      assert c == [s[j]];
    }
  }

  // ---- one turn of each loop, with what came before it ----

  function After(out: string, p: Piece): Piece {
    Piece(out + p.text, p.next)
  }

  lemma StringStep(s: string, i: nat, out: string)
    requires i < |s| && s[i] != '"'
    ensures var t := Turn(s, i);
            After(out, StringRest(s, i)) == After(out + t.text, StringRest(s, t.next))
  {
    var t := Turn(s, i);
    assert out + (t.text + StringRest(s, t.next).text) == out + t.text + StringRest(s, t.next).text;
  }

  lemma FollowingTwice(a: seq<Line>, b: seq<Line>, o: Output)
    ensures Following(a, Following(b, o)) == Following(a + b, o)
  {
    assert a + (b + o.lines) == a + b + o.lines;
  }

  lemma MembersStep(s: string, i: nat, path: string, printed: seq<Line>)
    requires i < |s|
    ensures var v := Member(s, i, path);
            Following(printed, Members(s, i, path)) == Following(printed + v.lines, MoreMembers(s, Ws(s, v.next), path))
  {
    var v := Member(s, i, path);
    FollowingTwice(printed, v.lines, MoreMembers(s, Ws(s, v.next), path));
  }

  lemma ElementsStep(s: string, i: nat, path: string, index: nat, printed: seq<Line>)
    requires i < |s|
    ensures var v := Pval(s, i, path + "/" + Dec(index));
            Following(printed, Elements(s, i, path, index))
              == Following(printed + v.lines, MoreElements(s, Ws(s, v.next), path, index + 1))
  {
    var v := Pval(s, i, path + "/" + Dec(index));
    FollowingTwice(printed, v.lines, MoreElements(s, Ws(s, v.next), path, index + 1));
  }

  // ---- the program ----

  /** The awk variables s and i, and what has been printed. */
  class Flattener {
    var s: string
    var i: nat
    var printed: seq<Line>

    /** { s = s $0 "\n" } for each record of the file, then i = 1. */
    constructor (records: seq<string>)
      ensures s == FileOf(records) && i == 0 && printed == []
    {
      var text := "";
      for k := 0 to |records|
        invariant text + FileOf(records[k..]) == FileOf(records)
      {
        assert records[k..][1..] == records[k + 1..];
        text := text + records[k] + "\n";
      }
      assert records[|records|..] == [];
      s, i, printed := text, 0, [];
    }

    method SkipWs()
      modifies this`i
      ensures i == Ws(s, old(i))
    {
      while i < |s|
        invariant Ws(s, i) == Ws(s, old(i))
        decreases Left(s, i)
      {
        if IsWs(s[i]) {
          i := i + 1;
        } else {
          return;
        }
      }
    }

    /** hex4: four digits, most significant first. */
    static method ReadHex4(h: string) returns (v: nat)
      ensures v == Hex4(h)
    {
      v := 0;
      for k := 0 to 4
        invariant k == 0 ==> v == 0
        invariant k == 1 ==> v == HexAt(h, 0)
        invariant k == 2 ==> v == HexAt(h, 0) * 16 + HexAt(h, 1)
        invariant k == 3 ==> v == (HexAt(h, 0) * 16 + HexAt(h, 1)) * 16 + HexAt(h, 2)
        invariant k == 4 ==> v == Hex4(h)
      {
        v := v * 16 + HexAt(h, k);
      }
    }

    /** The branch for \\u: from the letter to the last digit read. */
    method ReadUnicodeEscape() returns (t: string)
      requires i >= 1
      modifies this`i
      ensures Piece(t, i + 1) == UnicodeEscape(s, old(i) - 1)
    {
      hide Sub, HexAt;
      var u: Point := ReadHex4(Sub(s, i + 1, 4));
      i := i + 4;
      if 55296 <= u <= 56319 && Sub(s, i + 1, 2) == "\\u" {
        var lo := ReadHex4(Sub(s, i + 3, 4));
        if 56320 <= lo <= 57343 {
          u := 65536 + (u - 55296) * 1024 + (lo - 56320);
          i := i + 6;
        }
      }
      t := Utf8(u);
    }

    /** The escape branch of pstr's loop. */
    method ReadEscape() returns (t: string)
      requires i < |s| && s[i] == '\\'
      modifies this`i
      ensures Piece(t, i) == Turn(s, old(i))
    {
      i := i + 1;
      var e := Sub(s, i, 1);
      if e == "u" {
        t := ReadUnicodeEscape();
      } else if e == "n" || e == "t" || e == "r" || e == "b" || e == "f" {
        t := " ";
      } else {
        t := e;
      }
      i := i + 1;
    }

    /** The other branch: a control character other than a carriage return shows as a space. */
    method ReadPlain() returns (t: string)
      requires i < |s| && s[i] != '\\' && s[i] != '"'
      modifies this`i
      ensures Piece(t, i) == Turn(s, old(i))
    {
      var ch := s[i];
      if ch == '\n' || ch == '\t' {
        ch := ' ';
      }
      t := [ch];
      i := i + 1;
    }

    method ReadString() returns (out: string)
      modifies this`i
      ensures Piece(out, i) == Pstr(s, old(i))
    {
      i := i + 1;
      out := "";
      ghost var all := StringRest(s, i);
      while i < |s|
        invariant all == After(out, StringRest(s, i))
        decreases Left(s, i)
      {
        if s[i] == '"' {
          i := i + 1;
          return;
        }
        StringStep(s, i, out);
        var t;
        if s[i] == '\\' {
          t := ReadEscape();
        } else {
          t := ReadPlain();
        }
        out := out + t;
      }
    }

    method ReadMember(path: string)
      requires i < |s|
      modifies this`i, this`printed
      ensures i > old(i)
      ensures var v := Member(s, old(i), path);
              i == v.next && printed == old(printed) + v.lines
      decreases Left(s, i), 0
    {
      hide Ws, StringRest, Pval, Members;
      SkipWs();
      var key := ReadString();
      SkipWs();
      i := i + 1;
      ReadValue(path + "/" + key);
    }

    /** The loop over an object's members. */
    method ReadMembers(path: string)
      modifies this`i, this`printed
      ensures var o := Members(s, old(i), path);
              i == o.next && printed == old(printed) + o.lines
      decreases Left(s, i)
    {
      hide Ws, Member, Pval;
      ghost var all := Following(printed, Members(s, i, path));
      while i < |s|
        invariant i >= old(i)
        invariant Following(printed, Members(s, i, path)) == all
        decreases Left(s, i)
      {
        MembersStep(s, i, path, printed);
        ReadMember(path);
        SkipWs();
        var ch := Sub(s, i, 1);
        i := i + 1;
        if ch == "}" { return; }
      }
    }

    /** The loop over an array's elements. */
    method ReadElements(path: string)
      modifies this`i, this`printed
      ensures var o := Elements(s, old(i), path, 0);
              i == o.next && printed == old(printed) + o.lines
      decreases Left(s, i), 1
    {
      hide Ws, Pval, Dec;
      var index := 0;
      ghost var all := Following(printed, Elements(s, i, path, 0));
      while i < |s|
        invariant i >= old(i)
        invariant Following(printed, Elements(s, i, path, index)) == all
        decreases Left(s, i)
      {
        ElementsStep(s, i, path, index, printed);
        ReadValue(path + "/" + Dec(index));
        index := index + 1;
        SkipWs();
        var ch := Sub(s, i, 1);
        i := i + 1;
        if ch == "]" { return; }
      }
    }

    method ReadBareText() returns (out: string)
      modifies this`i
      ensures Piece(out, i) == BareText(s, old(i))
    {
      out := "";
      ghost var all := BareText(s, i);
      while i < |s|
        invariant all == Piece(out + BareText(s, i).text, BareText(s, i).next)
        decreases Left(s, i)
      {
        if Delimits(s[i]) { break; }
        assert out + ([s[i]] + BareText(s, i + 1).text) == out + [s[i]] + BareText(s, i + 1).text;
        out := out + [s[i]];
        i := i + 1;
      }
    }

    /** pval. Every loop and every recursive call ends on every input. */
    method ReadValue(path: string)
      modifies this`i, this`printed
      ensures var o := Pval(s, old(i), path);
              i == o.next && printed == old(printed) + o.lines
      decreases Left(s, i), 0
    {
      hide Members, Elements, StringRest, BareText, Ws;
      SkipWs();
      var ch := Sub(s, i, 1);
      if ch == "{" {
        i := i + 1;
        SkipWs();
        if Sub(s, i, 1) == "}" {
          i := i + 1;
        } else {
          ReadMembers(path);
        }
      } else if ch == "[" {
        i := i + 1;
        SkipWs();
        if Sub(s, i, 1) == "]" {
          i := i + 1;
        } else {
          ReadElements(path);
        }
      } else if ch == "\"" {
        var text := ReadString();
        printed := printed + [Line(path, text)];
      } else {
        var text := ReadBareText();
        printed := printed + [Line(path, text)];
      }
    }
  }

  /** The records of a file, each with its newline. */
  function FileOf(records: seq<string>): string {
    if records == [] then "" else records[0] + "\n" + FileOf(records[1..])
  }

  /** jflat: the lines printed for a file. */
  function Flat(records: seq<string>): seq<Line> {
    Pval(FileOf(records), 0, "").lines
  }

  method Jflat(records: seq<string>) returns (lines: seq<Line>)
    ensures lines == Flat(records)
  {
    var f := new Flattener(records);
    f.ReadValue("");
    lines := f.printed;
  }
}
