/** Optional values and decimal numerals, shared by the other modules. */
module Text {

  datatype Option<+T> = None | Some(value: T)

  predicate IsDigit(c: char) {
    '0' <= c <= '9'
  }

  function DigitValue(c: char): (v: nat)
    requires IsDigit(c)
    ensures v < 10
  {
    c as int - '0' as int
  }

  /** The decimal numeral of n, as "%d" prints it. */
  function Dec(n: nat): (t: string)
    ensures |t| > 0
    ensures forall i | 0 <= i < |t| :: IsDigit(t[i])
  {
    if n < 10 then ['0' + n as char] else Dec(n / 10) + ['0' + (n % 10) as char]
  }

  /** The number that a string of digits denotes. */
  function Number(t: string): nat
    requires forall i | 0 <= i < |t| :: IsDigit(t[i])
  {
    if t == [] then 0 else 10 * Number(t[..|t| - 1]) + DigitValue(t[|t| - 1])
  }

  lemma {:induction false} NumberOfDec(n: nat)
    ensures Number(Dec(n)) == n
  {
    if n >= 10 {
      NumberOfDec(n / 10);
      assert Dec(n)[..|Dec(n)| - 1] == Dec(n / 10);
    } else {
      var t := Dec(n);
      assert Number(t[..0]) == 0;
    }
  }

  lemma DecInjective(a: nat, b: nat)
    requires Dec(a) == Dec(b)
    ensures a == b
  {
    NumberOfDec(a);
    NumberOfDec(b);
  }

  lemma SeparatorIsPast(a: string, x: string, sep: char, k: nat)
    requires sep !in a && k < |a + [sep] + x| && (a + [sep] + x)[k] == sep
    ensures k >= |a|
  {
  }

  /** Cutting a text at its first occurrence of a separator is unambiguous. */
  lemma {:induction false} CutUnique(a: string, b: string, x: string, y: string, sep: char)
    requires sep !in a && sep !in b
    requires a + [sep] + x == b + [sep] + y
    ensures a == b && x == y
  {
    var s := a + [sep] + x;
    assert s[|a|] == sep && s == b + [sep] + y && s[|b|] == sep;
    SeparatorIsPast(a, x, sep, |b|);
    SeparatorIsPast(b, y, sep, |a|);
    assert a == s[..|a|] && b == s[..|b|];
    assert x == s[|a| + 1..] && y == s[|b| + 1..];
  }
}
