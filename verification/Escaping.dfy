/** json_esc, and what the flattener's string reader makes of its output. */
module Escaping {
  import opened Text
  import opened Unicode
  import opened Flattening
  import opened Reading

  /** A member of [:cntrl:] in the C locale. */
  predicate IsControl(c: char) {
    c as int < 32 || c as int == 127
  }

  /** tr -d '[:cntrl:]'. */
  function Dropped(t: string): (r: string)
    ensures forall c | c in r :: !IsControl(c)
  {
    if t == "" then "" else (if IsControl(t[0]) then "" else [t[0]]) + Dropped(t[1..])
  }

  lemma DroppedFirst(x: char, t: string)
    ensures Dropped([x] + t) == (if x as int < 32 || x as int == 127 then "" else [x]) + Dropped(t)
    ensures Dropped("") == ""
  {
    assert ([x] + t)[1..] == t;
  }

  /** Exactly the bytes below 32 and 127 are dropped; the others stay in order. */
  lemma {:induction false} DroppedEach(a: string, c: char, b: string)
    ensures Dropped(a + [c] + b) == Dropped(a) + (if c as int < 32 || c as int == 127 then "" else [c]) + Dropped(b)
  {
    hide Dropped, IsControl;
    if a == "" {
      assert a + [c] + b == [c] + b;
      DroppedFirst(c, b);
    } else {
      assert a + [c] + b == [a[0]] + (a[1..] + [c] + b) && a == [a[0]] + a[1..];
      DroppedFirst(a[0], a[1..] + [c] + b);
      DroppedFirst(a[0], a[1..]);
      DroppedEach(a[1..], c, b);
    }
  }

  /** sed s/c/\c/g: a backslash before every c. */
  function Guarded(t: string, c: char): string {
    if t == "" then "" else (if t[0] == c then ['\\', c] else [t[0]]) + Guarded(t[1..], c)
  }

  /** Backslashes guarded, then quotes. */
  function GuardedText(d: string): string {
    Guarded(Guarded(d, '\\'), '"')
  }

  /** json_esc: control characters dropped, then both guards. */
  function JsonEsc(t: string): string {
    GuardedText(Dropped(t))
  }

  lemma {:induction false} GuardedAppend(a: string, b: string, c: char)
    ensures Guarded(a + b, c) == Guarded(a, c) + Guarded(b, c)
  {
    if a == "" {
      assert a + b == b;
    } else {
      assert (a + b)[1..] == a[1..] + b;
      GuardedAppend(a[1..], b, c);
    }
  }

  /** Both passes together treat each character on its own. */
  function GuardBoth(c: char): string {
    if c == '\\' || c == '"' then ['\\', c] else [c]
  }

  lemma GuardedFirst(x: char, t: string, c: char)
    ensures Guarded([x] + t, c) == (if x == c then ['\\', c] else [x]) + Guarded(t, c)
    ensures Guarded("", c) == ""
  {
    assert ([x] + t)[1..] == t;
  }

  lemma GuardedTwice(d: string)
    requires d != ""
    ensures GuardedText(d) == GuardBoth(d[0]) + GuardedText(d[1..])
  {
    hide Guarded;
    var inner := Guarded(d[1..], '\\');
    assert d == [d[0]] + d[1..];
    GuardedFirst(d[0], d[1..], '\\');
    if d[0] == '\\' {
      assert ['\\', '\\'] + inner == ['\\'] + (['\\'] + inner);
      GuardedFirst('\\', ['\\'] + inner, '"');
      GuardedFirst('\\', inner, '"');
    } else {
      GuardedFirst(d[0], inner, '"');
    }
  }

  lemma GuardedNone()
    ensures GuardedText("") == ""
  {
  }

  lemma GuardedTurn(s: string, i: nat, c: char)
    requires !IsControl(c) && Has(s, i, GuardBoth(c))
    ensures i < |s| && s[i] != '"' && Turn(s, i) == Piece([c], i + |GuardBoth(c)|)
  {
    HasAt(s, i, GuardBoth(c), 0);
    if c == '\\' || c == '"' {
      HasAt(s, i, GuardBoth(c), 1);
      assert Sub(s, i + 1, 1) == [c];
    }
  }

  lemma {:induction false} GuardedRead(s: string, i: nat, d: string)
    requires (forall k | 0 <= k < |d| :: !IsControl(d[k])) && Has(s, i, GuardedText(d) + "\"")
    ensures StringRest(s, i) == Piece(d, i + |GuardedText(d)| + 1)
    decreases |d|
  {
    hide Has, Turn, GuardBoth, IsControl, Guarded;
    if d == "" {
      assert GuardedText(d) + "\"" == "\"" by { GuardedNone(); }
      HasAt(s, i, "\"", 0);
    } else {
      GuardedTwice(d);
      var t, rest := GuardBoth(d[0]), GuardedText(d[1..]) + "\"";
      assert GuardedText(d) + "\"" == t + rest;
      HasSplit(s, i, t, rest);
      GuardedTurn(s, i, d[0]);
      GuardedRead(s, i + |t|, d[1..]);
      assert d[0] in d && [d[0]] + d[1..] == d;
    }
  }

  /** Reading back a quoted json_esc(t) gives t without its control characters, and stops just
      past the closing quote, whatever surrounds it. */
  lemma JsonEscRoundTrip(s: string, i: nat, t: string)
    requires Has(s, i, "\"" + JsonEsc(t) + "\"")
    ensures Pstr(s, i) == Piece(Dropped(t), i + |JsonEsc(t)| + 2)
  {
    assert "\"" + JsonEsc(t) + "\"" == "\"" + (JsonEsc(t) + "\"");
    HasSplit(s, i, "\"", JsonEsc(t) + "\"");
    GuardedRead(s, i + 1, Dropped(t));
  }

  /** The text comes back unchanged exactly when it holds no control character. */
  lemma {:induction false} DroppedIsIdentity(t: string)
    ensures Dropped(t) == t <==> forall c | c in t :: !IsControl(c)
  {
    if t == "" {
    } else {
      DroppedIsIdentity(t[1..]);
      DroppedShrinks(t[1..]);
      assert t == [t[0]] + t[1..];
      if !IsControl(t[0]) {
        assert Dropped(t)[1..] == Dropped(t[1..]);
      } else {
        assert |Dropped(t)| < |t|;
      }
    }
  }

  lemma {:induction false} DroppedShrinks(t: string)
    ensures |Dropped(t)| <= |t|
  {
    if t == "" {
    } else {
      DroppedShrinks(t[1..]);
    }
  }
}
