/** Addresses and prefixes as text, and the AllowedIPs line of a stanza read back the way
    WireGuard's configuration reader takes it. */
module ConfText {
  import opened Text
  import opened Cidr
  import opened Model
  import opened Routing
  import opened FlatFile
  import opened Regroup

  // ---- writing ----

  function Dotted(parts: seq<string>): string
    requires parts != []
  {
    if |parts| == 1 then parts[0] else parts[0] + "." + Dotted(parts[1..])
  }

  function Octets(a: Addr): seq<string> {
    [Dec(a / 0x1000000), Dec(a / 0x10000 % 256), Dec(a / 256 % 256), Dec(a % 256)]
  }

  function AddrText(a: Addr): string {
    Dotted(Octets(a))
  }

  function Zeros(n: nat): (t: string)
    ensures |t| == n && forall i | 0 <= i < n :: t[i] == '0'
  {
    if n == 0 then "" else "0" + Zeros(n - 1)
  }

  /** A CIDR as typed; its spelling is the number of zeros before the length. */
  function CidrString(t: CidrText): string {
    match t
    case V4(a, l, z) => AddrText(a) + "/" + (Zeros(z) + Dec(l))
    case Junk(text) => text
  }

  function HostString(t: HostText): string {
    match t
    case Bare(a) => AddrText(a)
    case Masked(a, l) => AddrText(a) + "/" + Dec(l)
    case Other(text) => text
    case Suffixed(of) => HostString(of) + "/32"
  }

  // ---- reading ----

  /** A decimal byte without leading zeros. */
  predicate Octet(t: string) {
    Digits(t) && (|t| == 1 || t[0] != '0') && Number(t) <= 255
  }

  function ReadAddr(t: string): Option<Addr> {
    var p := Split(t, '.');
    if |p| == 4 && Octet(p[0]) && Octet(p[1]) && Octet(p[2]) && Octet(p[3])
    then Some(((Number(p[0]) * 256 + Number(p[1])) * 256 + Number(p[2])) * 256 + Number(p[3]))
    else None
  }

  /** One AllowedIPs entry: an address, with a length or standing for a single host. */
  function ReadEntry(t: string): Option<Prefix> {
    var p := Split(t, '/');
    var a := ReadAddr(p[0]);
    if a.None? then None
    else if |p| == 1 then Some(Prefix(a.value, 32))
    else if |p| == 2 && Digits(p[1]) && Number(p[1]) <= 32 then Some(Network(a.value, Number(p[1])))
    else None
  }

  // ---- round trips ----

  /** Digits and dots only: no separator of entries or of lengths. */
  predicate Numeric(t: string) {
    forall i | 0 <= i < |t| :: IsDigit(t[i]) || t[i] == '.'
  }

  lemma {:induction false} DottedParts(parts: seq<string>)
    requires parts != [] && forall i | 0 <= i < |parts| :: Digits(parts[i])
    ensures Split(Dotted(parts), '.') == parts && Numeric(Dotted(parts)) && Dotted(parts) != ""
  {
    hide Split;
    var first, rest := parts[0], parts[1..];
    assert '.' !in first;
    if |parts| == 1 {
      SplitNone(first, '.');
    } else {
      DottedParts(rest);
      SplitPast(first, '.', Dotted(rest));
      assert parts == [first] + rest;
    }
  }

  lemma AddrParts(a: Addr)
    ensures Split(AddrText(a), '.') == Octets(a) && Numeric(AddrText(a)) && AddrText(a) != ""
  {
    hide Split, Dec, Dotted, Numeric;
    DottedParts(Octets(a));
  }

  lemma OctetOfDec(n: nat)
    requires n <= 255
    ensures Octet(Dec(n)) && Number(Dec(n)) == n
  {
    NumberOfDec(n);
    DecLeads(n);
  }

  lemma {:induction false} DecLeads(n: nat)
    ensures n > 0 ==> Dec(n)[0] != '0'
    ensures |Dec(n)| == 1 || n > 0
  {
    if n < 10 {
    } else {
      DecLeads(n / 10);
    }
  }

  lemma AddrRoundTrip(a: Addr)
    ensures ReadAddr(AddrText(a)) == Some(a)
  {
    hide Split, Dec, Octet, Number, Dotted;
    AddrParts(a);
    OctetOfDec(a / 0x1000000);
    OctetOfDec(a / 0x10000 % 256);
    OctetOfDec(a / 256 % 256);
    OctetOfDec(a % 256);
    Bytes(a);
  }

  lemma Bytes(a: Addr)
    ensures ((a / 0x1000000 * 256 + a / 0x10000 % 256) * 256 + a / 256 % 256) * 256 + a % 256 == a
  {
    assert a / 0x10000 == a / 256 / 256 && a / 0x1000000 == a / 256 / 256 / 256;
  }

  lemma NoSlash(t: string)
    requires Numeric(t)
    ensures '/' !in t && ',' !in t && ' ' !in t
  {
  }

  lemma {:induction false} NumberOfPadded(z: nat, t: string)
    requires forall i | 0 <= i < |t| :: IsDigit(t[i])
    ensures (forall i | 0 <= i < |Zeros(z) + t| :: IsDigit((Zeros(z) + t)[i])) && Number(Zeros(z) + t) == Number(t)
    decreases |t|
  {
    if t == "" {
      assert Zeros(z) + t == Zeros(z);
      NumberOfZeros(z);
    } else {
      var init := t[..|t| - 1];
      NumberOfPadded(z, init);
      assert (Zeros(z) + t)[..|Zeros(z) + t| - 1] == Zeros(z) + init;
    }
  }

  lemma {:induction false} NumberOfZeros(z: nat)
    ensures Number(Zeros(z)) == 0
  {
    if z == 0 {
    } else {
      NumberOfZeros(z - 1);
      assert Zeros(z)[..z - 1] == Zeros(z - 1);
    }
  }

  lemma EntryWithLength(a: Addr, len: Len, z: nat)
    ensures ReadEntry(AddrText(a) + "/" + (Zeros(z) + Dec(len))) == Some(Network(a, len))
    ensures Separable(AddrText(a) + "/" + (Zeros(z) + Dec(len)))
  {
    hide Split, AddrText, Network, ReadAddr;
    var l := Zeros(z) + Dec(len);
    AddrParts(a);
    NoSlash(AddrText(a));
    SplitPast(AddrText(a), '/', l);
    NumberOfPadded(z, Dec(len));
    NumberOfDec(len);
    SplitNone(l, '/');
    AddrRoundTrip(a);
  }

  predicate IsBlank(c: char) {
    c == ' ' || 9 <= c as int <= 13
  }

  /** Free of commas and blanks. */
  predicate Separable(t: string) {
    forall i | 0 <= i < |t| :: t[i] != ',' && !IsBlank(t[i])
  }

  /** What the server's parser makes of a CIDR is what the client reads. */
  lemma CidrRoundTrip(t: CidrText)
    requires t.V4?
    ensures ReadEntry(CidrString(t)) == Parse(t) && Separable(CidrString(t))
  {
    hide ReadEntry, Network, AddrText;
    EntryWithLength(t.addr, t.len, t.spelling);
  }

  lemma HostRoundTrip(t: HostText)
    requires t.Bare? || t.Masked?
    ensures ReadEntry(HostString(t)) == HostPrefix(t) && Separable(HostString(t))
    ensures t.Bare? ==>
              '/' !in HostString(t) && Separable(HostString(t) + "/32")
              && ReadEntry(HostString(t) + "/32") == HostPrefix(t)
    ensures t.Masked? ==> '/' in HostString(t)
  {
    hide Network, AddrText, ReadAddr, Split;
    AddrParts(t.addr);
    NoSlash(AddrText(t.addr));
    if t.Bare? {
      SplitNone(AddrText(t.addr), '/');
      AddrRoundTrip(t.addr);
      EntryWithLength(t.addr, 32, 0);
      SlashThirtyTwo();
      assert AddrText(t.addr) + "/32" == AddrText(t.addr) + "/" + (Zeros(0) + Dec(32));
      HostNetwork(t.addr);
    } else {
      EntryWithLength(t.addr, t.len, 0);
      assert Zeros(0) + Dec(t.len) == Dec(t.len);
      assert HostString(t)[|AddrText(t.addr)|] == '/';
    }
  }

  /** TrimSuffix(text, "/32"). */
  function TrimSuffix32(text: string): string {
    if |text| >= 3 && text[|text| - 3..] == "/32" then text[..|text| - 3] else text
  }

  /** The operations on host addresses are those on their texts. */
  lemma HostTexts(t: HostText)
    ensures HasSlash(t) <==> '/' in HostString(t)
    ensures HostString(t) == "" <==> t == Other("")
    ensures HostString(With32(t)) == HostString(t) + "/32"
    ensures HostString(Without32(t)) == TrimSuffix32(HostString(t))
  {
    hide AddrText, Dec;
    match t
    case Bare(a) =>
      AddrParts(a);
      NoSlash(AddrText(a));
      ThirtyTwo();
      assert AddrText(a) + "/" + Dec(32) == AddrText(a) + "/32";
      NoSuffix(AddrText(a));
    case Masked(a, l) =>
      MaskedTexts(a, l);
    case Other(x) =>
    case Suffixed(of) =>
      var x := HostString(of);
      assert (x + "/32")[|x|] == '/' && (x + "/32")[|x|..] == "/32" && (x + "/32")[..|x|] == x;
  }

  lemma NoSuffix(text: string)
    requires '/' !in text
    ensures TrimSuffix32(text) == text
  {
    assert "/32"[0] == '/';
  }

  lemma MaskedTexts(a: Addr, l: Len)
    ensures '/' in HostString(Masked(a, l)) && HostString(Masked(a, l)) != ""
    ensures TrimSuffix32(HostString(Masked(a, l))) == if l == 32 then AddrText(a) else HostString(Masked(a, l))
  {
    hide AddrText, Dec;
    var addr, len := AddrText(a), Dec(l);
    var text := addr + "/" + len;
    AddrParts(a);
    NoSlash(addr);
    ThirtyTwo();
    assert text[|addr|] == '/';
    if l == 32 {
      assert text[|addr|..] == "/32" && text[..|addr|] == addr;
    } else if |text| >= 3 && text[|text| - 3..] == "/32" {
      var k := |text| - 3;
      assert text[k] == text[k..][0] == '/';
      assert k == |addr|;
      assert text[|addr| + 1..] == len && text[k..][1..] == "32";
      DecInjective(l, 32);
    }
  }

  lemma SlashThirtyTwo()
    ensures "/" + (Zeros(0) + Dec(32)) == "/32"
  {
    assert Dec(3) == "3";
    assert Dec(32) == Dec(3) + "2";
  }

  lemma HostNetwork(a: Addr)
    ensures Network(a, 32) == Prefix(a, 32)
  {
  }

  // ---- the AllowedIPs line ----

  /** The reader drops every blank of a line first. */
  function Stripped(t: string): string {
    if t == "" then "" else (if IsBlank(t[0]) then "" else [t[0]]) + Stripped(t[1..])
  }

  function Entries(line: string): seq<string> {
    Split(Stripped(line), ',')
  }

  lemma {:induction false} StrippedAppend(a: string, b: string)
    ensures Stripped(a + b) == Stripped(a) + Stripped(b)
  {
    if a == "" {
      assert a + b == b;
    } else {
      assert (a + b)[1..] == a[1..] + b;
      StrippedAppend(a[1..], b);
    }
  }

  lemma {:induction false} StrippedSame(t: string)
    requires Separable(t)
    ensures Stripped(t) == t && ',' !in t
  {
    if t == "" {
    } else {
      StrippedSame(t[1..]);
      assert t == [t[0]] + t[1..];
    }
  }

  /** A list of two lists has the entries of both. */
  lemma {:induction false} SplitAppend(a: string, sep: char, b: string)
    ensures Split(a + [sep] + b, sep) == Split(a, sep) + Split(b, sep)
    decreases |a|
  {
    hide Split, Cut;
    var k := Cut(a, sep);
    if k == |a| {
      assert a[..k] == a;
      SplitPast(a, sep, b);
      SplitNone(a, sep);
    } else {
      var first, rest := a[..k], a[k + 1..];
      assert a == first + [sep] + rest;
      assert a + [sep] + b == first + [sep] + (rest + [sep] + b);
      SplitAppend(rest, sep, b);
      SplitPast(first, sep, rest);
      SplitPast(first, sep, rest + [sep] + b);
    }
  }

  lemma EntriesAppend(a: string, b: string)
    ensures Entries(a + ", " + b) == Entries(a) + Entries(b)
  {
    hide Split;
    assert a + ", " + b == a + (", " + b);
    StrippedAppend(a, ", " + b);
    StrippedAppend(", ", b);
    assert Stripped(", ") == "," by { CommaStripped(); }
    SplitAppend(Stripped(a), ',', Stripped(b));
    assert Stripped(a + ", " + b) == Stripped(a) + [','] + Stripped(b);
  }

  lemma CommaStripped()
    ensures Stripped(", ") == ","
  {
    assert ", "[1..] == " " && " "[1..] == "";
  }

  lemma EntryAlone(t: string)
    requires Separable(t)
    ensures Entries(t) == [t]
  {
    hide Split;
    StrippedSame(t);
    SplitNone(t, ',');
  }

  lemma {:induction false} EntriesOfJoin(xs: seq<string>)
    requires xs != [] && forall i | 0 <= i < |xs| :: Separable(xs[i])
    ensures Entries(Join(xs)) == xs
  {
    hide Entries, Separable;
    EntryAlone(xs[0]);
    if |xs| == 1 {
      assert xs == [xs[0]];
    } else {
      EntriesOfJoin(xs[1..]);
      EntriesAppend(xs[0], Join(xs[1..]));
      assert xs == [xs[0]] + xs[1..];
    }
  }

  /** The first text of a joined list may itself be a list. */
  lemma EntriesOfList(first: string, xs: seq<string>)
    requires xs != [] && forall i | 0 <= i < |xs| :: Separable(xs[i])
    ensures Entries(Join([first] + xs)) == Entries(first) + xs
  {
    hide Entries, Separable;
    EntriesOfJoin(xs);
    EntriesAppend(first, Join(xs));
    assert ([first] + xs)[1..] == xs;
  }

  // ---- default routes in a line ----

  /** Some entry of the line denotes the /0 network. */
  ghost predicate HoldsDefault(line: string) {
    exists i :: 0 <= i < |Entries(line)| && Denotes(Entries(line)[i], 0)
  }

  predicate Denotes(entry: string, len: nat) {
    ReadEntry(entry).Some? && ReadEntry(entry).value.len == len
  }

  lemma {:induction false} StrippedKeeps(t: string, c: char)
    requires c !in t
    ensures c !in Stripped(t)
  {
    if t == "" {
    } else {
      StrippedKeeps(t[1..], c);
    }
  }

  /** Appending to a list appends to its last entry. */
  lemma {:induction false} SplitTail(t: string, tail: string)
    requires '/' !in t && ',' !in tail
    ensures forall i | 0 <= i < |Split(t + tail, ',')| ::
              '/' !in Split(t + tail, ',')[i] || exists w: string :: '/' !in w && Split(t + tail, ',')[i] == w + tail
    decreases |t|
  {
    hide Split, Cut;
    var k := Cut(t, ',');
    if k == |t| {
      assert t[..k] == t;
      SplitNone(t + tail, ',');
      assert Split(t + tail, ',')[0] == t + tail;
    } else {
      var first, rest := t[..k], t[k + 1..];
      assert t == first + [','] + rest;
      assert t + tail == first + [','] + (rest + tail);
      SplitPast(first, ',', rest + tail);
      SplitTail(rest, tail);
    }
  }

  lemma HostEntryLength(w: string)
    requires '/' !in w
    ensures !Denotes(w, 0) && !Denotes(w + "/32", 0)
  {
    hide Split, ReadAddr;
    SplitNone(w, '/');
    SplitNone("32", '/');
    SplitPast(w, '/', "32");
    assert w + "/32" == w + ['/'] + "32";
    assert Number("32") == 32 by { NumberOfDec(32); ThirtyTwo(); }
  }

  lemma ThirtyTwo()
    ensures Dec(32) == "32"
  {
    assert Dec(3) == "3";
  }

  /** Entries without a slash, or with "/32" as their only one, are no default routes. */
  lemma EntryNoDefault(e: string)
    requires '/' !in e || exists w: string :: '/' !in w && e == w + "/32"
    ensures !Denotes(e, 0)
  {
    hide Denotes;
    if '/' !in e {
      HostEntryLength(e);
    } else {
      var w: string :| '/' !in w && e == w + "/32";
      HostEntryLength(w);
    }
  }

  /** A text without a slash holds no default route, nor does it with "/32" behind it. */
  lemma NoSlashNoDefault(t: string)
    requires '/' !in t
    ensures !HoldsDefault(t) && !HoldsDefault(t + "/32")
  {
    hide Denotes, Split, Stripped;
    var u := Stripped(t);
    StrippedKeeps(t, '/');
    StrippedAppend(t, "/32");
    StrippedSame("/32");
    SplitTail(u, "/32");
    forall i | 0 <= i < |Entries(t + "/32")| ensures !Denotes(Entries(t + "/32")[i], 0) {
      EntryNoDefault(Entries(t + "/32")[i]);
    }
    SplitTail(u, "");
    assert u + "" == u;
    forall i | 0 <= i < |Entries(t)| ensures !Denotes(Entries(t)[i], 0) {
      var e := Entries(t)[i];
      if w: string :| '/' !in w && e == w + "" {
        assert e == w;
      }
      EntryNoDefault(e);
    }
  }
}
