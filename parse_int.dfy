/** The part of JavaScript's `parseInt(s)` (no radix) that the resolvers rely
    on when they turn a GraphQL `ID` string into a numeric record id: an
    optional sign, then the longest run of decimal digits; no digit at all
    gives `NaN`, modelled as `None`. */
module ParseInt {
  import opened Wrappers

  predicate IsDigit(c: char) {
    '0' <= c <= '9'
  }

  predicate AllDigits(s: string) {
    forall i :: 0 <= i < |s| ==> IsDigit(s[i])
  }

  function DigitValue(c: char): (d: nat)
    requires IsDigit(c)
    ensures d < 10
  {
    c as int - '0' as int
  }

  function DigitChar(d: nat): (c: char)
    requires d < 10
    ensures IsDigit(c) && DigitValue(c) == d
  {
    ('0' as int + d) as char
  }

  /** Length of the longest prefix of `s` made of decimal digits. */
  function DigitRun(s: string): (n: nat)
    ensures n <= |s|
    ensures AllDigits(s[..n])
    ensures n < |s| ==> !IsDigit(s[n])
  {
    if s == [] || !IsDigit(s[0]) then 0
    else
      var n := 1 + DigitRun(s[1..]);
      assert s[..n] == [s[0]] + s[1..][..n - 1];
      n
  }

  /** The value of a string of decimal digits, most significant digit first. */
  function DecimalValue(d: string): nat
    requires AllDigits(d)
  {
    if d == [] then 0
    else 10 * DecimalValue(d[..|d| - 1]) + DigitValue(d[|d| - 1])
  }

  /** What remains of `s` once a leading '-' or '+' is skipped. */
  function Unsigned(s: string): (u: string)
    ensures u == s || (|s| > 0 && u == s[1..] && (s[0] == '-' || s[0] == '+'))
  {
    if |s| > 0 && (s[0] == '-' || s[0] == '+') then s[1..] else s
  }

  /** `parseInt(s)`: `None` stands for `NaN`. */
  function ParseInt(s: string): (r: Option<int>)
    ensures r.None? <==> DigitRun(Unsigned(s)) == 0
    ensures r.Some? && (s == [] || s[0] != '-') ==> r.value >= 0
  {
    var rest := Unsigned(s);
    var n := DigitRun(rest);
    var magnitude: int := DecimalValue(rest[..n]);
    if n == 0 then None
    else if |s| > 0 && s[0] == '-' then Some(-magnitude)
    else Some(magnitude)
  }

  /** The decimal spelling of a natural number, without leading zeros. */
  function DecimalString(n: nat): (s: string)
    ensures |s| > 0 && AllDigits(s)
  {
    if n < 10 then [DigitChar(n)]
    else DecimalString(n / 10) + [DigitChar(n % 10)]
  }

  /** The decimal spelling of an integer, as a GraphQL `ID` carries it. */
  function IntString(i: int): string {
    if i < 0 then "-" + DecimalString(-i) else DecimalString(i)
  }

  lemma {:induction false} DecimalValueOfString(n: nat)
    ensures DecimalValue(DecimalString(n)) == n
  {
    if n >= 10 {
      var s := DecimalString(n);
      assert s[..|s| - 1] == DecimalString(n / 10);
      DecimalValueOfString(n / 10);
    }
  }

  lemma {:induction false} DigitRunStopsAtNonDigit(d: string, t: string)
    requires AllDigits(d)
    requires t == [] || !IsDigit(t[0])
    ensures DigitRun(d + t) == |d|
  {
    if d != [] {
      assert (d + t)[1..] == d[1..] + t;
      DigitRunStopsAtNonDigit(d[1..], t);
    }
  }

  /** An id printed in decimal, followed by nothing or by a non-digit, reads
      back as the same id: `parseInt` keeps the longest digit prefix. */
  lemma {:induction false} ParseIntOfIntString(i: int, t: string)
    requires t == [] || !IsDigit(t[0])
    ensures ParseInt(IntString(i) + t) == Some(i)
  {
    var m: nat := if i < 0 then -i else i;
    var d := DecimalString(m);
    DigitRunStopsAtNonDigit(d, t);
    DecimalValueOfString(m);
    if i < 0 {
      assert IntString(i) + t == "-" + (d + t);
      assert Unsigned("-" + (d + t)) == d + t;
    } else {
      assert Unsigned(d + t) == d + t;
    }
    assert (d + t)[..|d|] == d;
  }

  /** The round trip the resolvers depend on: `parseInt` of a printed id. */
  lemma ParseIntRoundTrip(i: int)
    ensures ParseInt(IntString(i)) == Some(i)
  {
    ParseIntOfIntString(i, []);
    assert IntString(i) + [] == IntString(i);
  }
}
