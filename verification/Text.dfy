/**
 Decimal numbers, dotted IPv4 addresses and separators, as text.
 */
module Text {

  predicate IsDigit(c: char) {
    '0' <= c <= '9'
  }

  predicate AllDigits(s: string) {
    forall i | 0 <= i < |s| :: IsDigit(s[i])
  }

  function Digit(d: nat): (c: char)
    requires d < 10
    ensures IsDigit(c)
  {
    "0123456789"[d]
  }

  function DigitValue(c: char): (d: nat)
    requires IsDigit(c)
    ensures d < 10
  {
    (c as int) - ('0' as int)
  }

  /** `n` in decimal, without leading zeros. */
  function Decimal(n: nat): string {
    if n < 10 then [Digit(n)] else Decimal(n / 10) + [Digit(n % 10)]
  }

  /** The number a string of digits denotes. */
  function Value(s: string): nat
    requires AllDigits(s)
  {
    if s == [] then 0 else 10 * Value(s[..|s| - 1]) + DigitValue(s[|s| - 1])
  }

  lemma DigitRoundTrip(d: nat)
    requires d < 10
    ensures DigitValue(Digit(d)) == d
  {
    match d
    case 0 => case 1 => case 2 => case 3 => case 4 => case 5 => case 6 => case 7 => case 8 => case 9 =>
  }

  lemma {:induction false} DecimalRoundTrip(n: nat)
    ensures Decimal(n) != [] && AllDigits(Decimal(n)) && Value(Decimal(n)) == n
  {
    DigitRoundTrip(n % 10);
    if n >= 10 {
      var s := Decimal(n / 10);
      DecimalRoundTrip(n / 10);
      assert (s + [Digit(n % 10)])[..|s|] == s;
    } else {
      assert [Digit(n)][..0] == [];
    }
  }

  lemma DecimalInjective(m: nat, n: nat)
    requires Decimal(m) == Decimal(n)
    ensures m == n
  {
    DecimalRoundTrip(m);
    DecimalRoundTrip(n);
  }

  lemma DecimalFree(n: nat, c: char)
    requires !IsDigit(c)
    ensures c !in Decimal(n)
  {
    DecimalRoundTrip(n);
  }

  /** The index of the first `c` in `s`, or the length of `s`. */
  function First(s: string, c: char): (n: nat)
    ensures n <= |s|
  {
    if s == [] || s[0] == c then 0 else 1 + First(s[1..], c)
  }

  lemma {:induction false} FirstIs(s: string, c: char, n: nat)
    requires n <= |s| && c !in s[..n] && (n < |s| ==> s[n] == c)
    ensures First(s, c) == n
  {
    if n > 0 {
      assert s[..n][0] == s[0] && s[1..][..n - 1] == s[..n][1..];
      FirstIs(s[1..], c, n - 1);
    }
  }

  /** The text before the first separator is determined. */
  lemma SplitUnique(x: string, y: string, x': string, y': string, c: char)
    requires c !in x && c !in x' && x + [c] + y == x' + [c] + y'
    ensures x == x' && y == y'
  {
    var s := x + [c] + y;
    assert s[..|x|] == x && s[..|x'|] == x';
    FirstIs(s, c, |x|);
    FirstIs(s, c, |x'|);
    assert y == s[|x| + 1..] && y' == s[|x'| + 1..];
  }

  // ---------- IPv4 addresses ----------

  datatype IPv4 = IPv4(a: nat, b: nat, c: nat, d: nat)

  function Dotted(ip: IPv4): string {
    Decimal(ip.a) + "." + (Decimal(ip.b) + "." + (Decimal(ip.c) + "." + Decimal(ip.d)))
  }

  lemma DottedInjective(ip: IPv4, ip': IPv4)
    requires Dotted(ip) == Dotted(ip')
    ensures ip == ip'
  {
    DecimalFree(ip.a, '.'); DecimalFree(ip.b, '.'); DecimalFree(ip.c, '.');
    DecimalFree(ip'.a, '.'); DecimalFree(ip'.b, '.'); DecimalFree(ip'.c, '.');
    var u, u' := Decimal(ip.c) + "." + Decimal(ip.d), Decimal(ip'.c) + "." + Decimal(ip'.d);
    var t, t' := Decimal(ip.b) + "." + u, Decimal(ip'.b) + "." + u';
    SplitUnique(Decimal(ip.a), t, Decimal(ip'.a), t', '.');
    SplitUnique(Decimal(ip.b), u, Decimal(ip'.b), u', '.');
    SplitUnique(Decimal(ip.c), Decimal(ip.d), Decimal(ip'.c), Decimal(ip'.d), '.');
    DecimalInjective(ip.a, ip'.a);
    DecimalInjective(ip.b, ip'.b);
    DecimalInjective(ip.c, ip'.c);
    DecimalInjective(ip.d, ip'.d);
  }

  lemma DottedFree(ip: IPv4, c: char)
    requires !IsDigit(c) && c != '.'
    ensures c !in Dotted(ip)
  {
    DecimalFree(ip.a, c);
    DecimalFree(ip.b, c);
    DecimalFree(ip.c, c);
    DecimalFree(ip.d, c);
  }

  lemma DottedStartsWithDigit(ip: IPv4)
    ensures Dotted(ip) != [] && IsDigit(Dotted(ip)[0])
  {
    DecimalRoundTrip(ip.a);
    assert Dotted(ip)[0] == Decimal(ip.a)[0];
  }
}
