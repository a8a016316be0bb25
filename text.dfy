/** Decimal rendering of naturals (what Java's string concatenation does
    with a non-negative int) and the reserved function-name pattern. */
module Text {

  predicate IsDigit(c: char) {
    '0' <= c <= '9'
  }

  function DigitChar(d: nat): (c: char)
    requires d < 10
    ensures IsDigit(c) && DigitValue(c) == d
  {
    ['0', '1', '2', '3', '4', '5', '6', '7', '8', '9'][d]
  }

  function DigitValue(c: char): nat
    requires IsDigit(c)
  {
    (c as int - '0' as int) as nat
  }

  /** The decimal digits of n, most significant first, without leading zeros. */
  function NatToString(n: nat): (s: string)
    ensures |s| >= 1
    ensures forall i :: 0 <= i < |s| ==> IsDigit(s[i])
    ensures s[0] == '0' ==> n == 0 && s == "0"
    decreases n
  {
    if n < 10 then [DigitChar(n)] else NatToString(n / 10) + [DigitChar(n % 10)]
  }

  /** The number a string of decimal digits denotes. */
  function DecimalValue(s: string): nat
    requires forall i :: 0 <= i < |s| ==> IsDigit(s[i])
  {
    if s == [] then 0 else DecimalValue(s[..|s| - 1]) * 10 + DigitValue(s[|s| - 1])
  }

  /** Reading the digits back gives the number: NatToString loses nothing. */
  lemma {:induction false} NatToStringRoundTrip(n: nat)
    ensures DecimalValue(NatToString(n)) == n
    decreases n
  {
    if n >= 10 {
      var s := NatToString(n / 10);
      NatToStringRoundTrip(n / 10);
      assert (s + [DigitChar(n % 10)])[..|s|] == s;
    }
  }

  lemma NatToStringInjective(m: nat, n: nat)
    requires NatToString(m) == NatToString(n)
    ensures m == n
  {
    NatToStringRoundTrip(m);
    NatToStringRoundTrip(n);
  }

  /** The number of decimal digits s starts with. */
  function LeadingDigits(s: string): nat {
    if s == [] || !IsDigit(s[0]) then 0 else 1 + LeadingDigits(s[1..])
  }

  lemma {:induction false} LeadingDigitsOf(d: string, t: string)
    requires forall i :: 0 <= i < |d| ==> IsDigit(d[i])
    requires t != [] && !IsDigit(t[0])
    ensures LeadingDigits(d + t) == |d|
    decreases |d|
  {
    if d == [] {
      assert d + t == t;
    } else {
      assert (d + t)[0] == d[0];
      assert (d + t)[1..] == d[1..] + t;
      LeadingDigitsOf(d[1..], t);
    }
  }

  /** A run of digits followed by a non-digit can be split off in only one
      way: this is what makes a number embedded in text readable. */
  lemma SplitAtDigits(d1: string, t1: string, d2: string, t2: string)
    requires forall i :: 0 <= i < |d1| ==> IsDigit(d1[i])
    requires forall i :: 0 <= i < |d2| ==> IsDigit(d2[i])
    requires t1 != [] && !IsDigit(t1[0]) && t2 != [] && !IsDigit(t2[0])
    requires d1 + t1 == d2 + t2
    ensures d1 == d2 && t1 == t2
  {
    LeadingDigitsOf(d1, t1);
    LeadingDigitsOf(d2, t2);
    assert (d1 + t1)[..|d1|] == d1 && (d1 + t1)[|d1|..] == t1;
    assert (d2 + t2)[..|d2|] == d2 && (d2 + t2)[|d2|..] == t2;
  }

  /** The names kept for automatic naming: "F" followed by one or more ASCII
      digits, matched against the whole string (Java's "F\\d+" with matches). */
  predicate IsReserved(name: string) {
    |name| >= 2 && name[0] == 'F' && forall i :: 1 <= i < |name| ==> IsDigit(name[i])
  }

  /** The name given to the n-th function when the caller supplies none. */
  function AutoName(n: nat): (name: string)
    ensures IsReserved(name)
  {
    "F" + NatToString(n)
  }

  /** Distinct registry sizes give distinct automatic names. */
  lemma AutoNameInjective(m: nat, n: nat)
    requires AutoName(m) == AutoName(n)
    ensures m == n
  {
    assert AutoName(m)[1..] == NatToString(m);
    assert AutoName(n)[1..] == NatToString(n);
    NatToStringInjective(m, n);
  }
}
