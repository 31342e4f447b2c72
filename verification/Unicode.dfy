/** The utf8 function of the embedded awk program against a decoder written from the ABNF of
    section 4 of RFC 3629. A text is a sequence of bytes: every character code is below 256. */
module Unicode {
  import opened Text

  type Point = v: nat | v <= 0x10FFFF

  /** A Unicode scalar value: a code point that is not a surrogate. */
  predicate Scalar(v: nat) {
    v < 0xD800 || 0xE000 <= v <= 0x10FFFF
  }

  /** utf8(v): control characters become a space. */
  function Utf8(v: Point): (t: string)
    ensures 1 <= |t| <= 4
  {
    if v < 32 then " "
    else if v < 128 then [v as char]
    else if v < 2048 then [(192 + v / 64) as char, (128 + v % 64) as char]
    else if v < 65536 then [(224 + v / 4096) as char, (128 + v / 64 % 64) as char, (128 + v % 64) as char]
    else [(240 + v / 262144) as char, (128 + v / 4096 % 64) as char, (128 + v / 64 % 64) as char,
          (128 + v % 64) as char]
  }

  // ---- section 4 of RFC 3629 ----

  predicate Continues(c: char) {
    0x80 <= c as int <= 0xBF
  }

  /** The six low bits of a continuation byte. */
  function Low(c: char): (v: nat)
    requires Continues(c)
    ensures v < 64
  {
    c as int - 0x80
  }

  datatype Char = Char(value: nat, size: nat)

  /** The first encoded character of a text. */
  function Decode(t: string): (r: Option<Char>)
    ensures r.Some? ==> 1 <= r.value.size <= |t| && r.value.size <= 4
  {
    if t == "" then None else
    var lead := t[0] as int;
    if lead < 0x80 then Some(Char(lead, 1))
    else if 0xC2 <= lead <= 0xDF then
      if |t| >= 2 && Continues(t[1]) then Some(Char((lead - 0xC0) * 64 + Low(t[1]), 2)) else None
    else if 0xE0 <= lead <= 0xEF then
      if |t| >= 3 && Continues(t[1]) && Continues(t[2]) && (lead == 0xE0 ==> t[1] as int >= 0xA0)
         && (lead == 0xED ==> t[1] as int < 0xA0)
      then Some(Char((lead - 0xE0) * 4096 + Low(t[1]) * 64 + Low(t[2]), 3)) else None
    else if 0xF0 <= lead <= 0xF4 then
      if |t| >= 4 && Continues(t[1]) && Continues(t[2]) && Continues(t[3]) && (lead == 0xF0 ==> t[1] as int >= 0x90)
         && (lead == 0xF4 ==> t[1] as int < 0x90)
      then Some(Char((lead - 0xF0) * 262144 + Low(t[1]) * 4096 + Low(t[2]) * 64 + Low(t[3]), 4)) else None
    else None
  }

  lemma Digits64(v: nat)
    ensures v / 4096 == v / 64 / 64 && v / 262144 == v / 64 / 64 / 64
  {
  }

  /** What utf8 prints for a printable scalar value decodes to that value, whatever follows. */
  lemma DecodeOfUtf8(v: nat, rest: string)
    requires Scalar(v) && v >= 32
    ensures Decode(Utf8(v) + rest) == Some(Char(v, |Utf8(v)|))
  {
    Digits64(v);
    var t := Utf8(v) + rest;
    assert forall i | 0 <= i < |Utf8(v)| :: t[i] == Utf8(v)[i];
  }

  /** Conversely, every decodable printable character is spelled as utf8 spells it. */
  lemma Utf8OfDecode(t: string)
    requires Decode(t).Some? && Decode(t).value.value >= 32
    ensures var c := Decode(t).value;
            Scalar(c.value) && t[..c.size] == Utf8(c.value)
  {
    hide Utf8, Scalar;
    var c := Decode(t).value;
    if c.size == 4 {
      SpelledInFour(t);
    } else if c.size == 3 {
      SpelledInThree(t);
    } else if c.size == 2 {
      SpelledInTwo(t);
    } else {
      SpelledInOne(t);
    }
  }

  lemma SpelledInOne(t: string)
    requires t != "" && 32 <= t[0] as int < 0x80
    ensures Scalar(t[0] as nat) && t[..1] == Utf8(t[0] as nat)
  {
  }

  lemma SpelledInTwo(t: string)
    requires |t| >= 2 && 0xC2 <= t[0] as int <= 0xDF && Continues(t[1])
    ensures var v := (t[0] as int - 0xC0) * 64 + Low(t[1]);
            0 <= v <= 0x10FFFF && Scalar(v) && t[..2] == Utf8(v)
  {
    OneDigit(t[0] as int - 0xC0, Low(t[1]));
  }

  lemma SpelledInThree(t: string)
    requires |t| >= 3 && 0xE0 <= t[0] as int <= 0xEF && Continues(t[1]) && Continues(t[2])
    requires (t[0] as int == 0xE0 ==> t[1] as int >= 0xA0) && (t[0] as int == 0xED ==> t[1] as int < 0xA0)
    ensures var v := (t[0] as int - 0xE0) * 4096 + Low(t[1]) * 64 + Low(t[2]);
            0 <= v <= 0x10FFFF && Scalar(v) && t[..3] == Utf8(v)
  {
    var v := (t[0] as int - 0xE0) * 4096 + Low(t[1]) * 64 + Low(t[2]);
    FourBytes(0, t[0] as int - 0xE0, Low(t[1]), Low(t[2]));
    assert 2048 <= v < 65536 && v / 4096 == t[0] as int - 0xE0;
  }

  lemma SpelledInFour(t: string)
    requires |t| >= 4 && 0xF0 <= t[0] as int <= 0xF4 && Continues(t[1]) && Continues(t[2]) && Continues(t[3])
    requires (t[0] as int == 0xF0 ==> t[1] as int >= 0x90) && (t[0] as int == 0xF4 ==> t[1] as int < 0x90)
    ensures var v := (t[0] as int - 0xF0) * 262144 + Low(t[1]) * 4096 + Low(t[2]) * 64 + Low(t[3]);
            0 <= v <= 0x10FFFF && Scalar(v) && t[..4] == Utf8(v)
  {
    FourBytes(t[0] as int - 0xF0, Low(t[1]), Low(t[2]), Low(t[3]));
  }

  lemma FourBytes(a: nat, b: nat, c: nat, d: nat)
    requires b < 64 && c < 64 && d < 64
    ensures var v := a * 262144 + b * 4096 + c * 64 + d;
            v / 262144 == a && v / 4096 % 64 == b && v / 64 % 64 == c && v % 64 == d
  {
    var v := a * 262144 + b * 4096 + c * 64 + d;
    Digits64(v);
    OneDigit(a * 4096 + b * 64 + c, d);
    OneDigit(a * 64 + b, c);
    OneDigit(a, b);
  }

  lemma OneDigit(hi: nat, lo: nat)
    requires lo < 64
    ensures (hi * 64 + lo) / 64 == hi && (hi * 64 + lo) % 64 == lo
  {
  }

  /** Above two bytes and up to the last of three, surrogates included, the three bytes carry the
      value's bits. */
  lemma ThreeByteForm(v: nat)
    requires 0x800 <= v <= 0xFFFF
    ensures var t := Utf8(v);
            && |t| == 3 && 0xE0 <= t[0] as int <= 0xEF && Continues(t[1]) && Continues(t[2])
            && (t[0] as int - 0xE0) * 4096 + Low(t[1]) * 64 + Low(t[2]) == v
  {
    Digits64(v);
  }

  // ---- whole texts ----

  /** utf8 of each code point in turn. */
  function Encode(points: seq<Point>): string {
    if points == [] then "" else Utf8(points[0]) + Encode(points[1..])
  }

  function DecodeAll(t: string): Option<seq<nat>>
    decreases |t|
  {
    if t == "" then Some([]) else
    var c := Decode(t);
    if c.None? then None else
    var rest := DecodeAll(t[c.value.size..]);
    if rest.None? then None else Some([c.value.value] + rest.value)
  }

  /** Printable text survives: the code points come back from the bytes. */
  lemma {:induction false} EncodeRoundTrip(points: seq<Point>)
    requires forall k | 0 <= k < |points| :: Scalar(points[k]) && points[k] >= 32
    ensures DecodeAll(Encode(points)) == Some(points)
  {
    if points == [] {
    } else {
      var v, rest := points[0], points[1..];
      DecodeOfUtf8(v, Encode(rest));
      assert Encode(points)[|Utf8(v)|..] == Encode(rest);
      EncodeRoundTrip(rest);
      assert points == [v] + rest;
    }
  }

  lemma {:induction false} EncodeAppend(a: seq<Point>, b: seq<Point>)
    ensures Encode(a + b) == Encode(a) + Encode(b)
  {
    if a == [] {
      assert a + b == b;
    } else {
      assert (a + b)[1..] == a[1..] + b;
      EncodeAppend(a[1..], b);
    }
  }

  // ---- surrogate pairs ----

  function HighHalf(v: nat): Point
    requires 0x10000 <= v <= 0x10FFFF
  {
    0xD800 + (v - 0x10000) / 1024
  }

  function LowHalf(v: nat): Point
    requires 0x10000 <= v <= 0x10FFFF
  {
    0xDC00 + (v - 0x10000) % 1024
  }

  /** The recombination in pstr. */
  function Combine(hi: nat, lo: nat): Point
    requires 0xD800 <= hi <= 0xDBFF && 0xDC00 <= lo <= 0xDFFF
  {
    65536 + (hi - 55296) * 1024 + (lo - 56320)
  }

  /** The two halves of a supplementary code point are surrogates and recombine to it; and any
      two surrogates in the right order recombine to the one point they are the halves of. */
  lemma SurrogatesRecombine(v: nat, hi: nat, lo: nat)
    requires 0x10000 <= v <= 0x10FFFF
    requires 0xD800 <= hi <= 0xDBFF && 0xDC00 <= lo <= 0xDFFF
    ensures 0xD800 <= HighHalf(v) <= 0xDBFF && 0xDC00 <= LowHalf(v) <= 0xDFFF
    ensures Combine(hi, lo) == v <==> hi == HighHalf(v) && lo == LowHalf(v)
    ensures 0x10000 <= Combine(hi, lo) <= 0x10FFFF
  {
  }
}
