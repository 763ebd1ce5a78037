/** The decimal rendering of a non-negative integer, as Python's str() gives
    it, together with the facts about its leading digit that the HipChat
    client relies on when it classifies a status code. */
module Decimal {

  predicate IsDigit(c: char) {
    '0' <= c <= '9'
  }

  predicate AllDigits(s: string) {
    forall i :: 0 <= i < |s| ==> IsDigit(s[i])
  }

  /** The character for a single decimal digit. */
  function DigitChar(d: nat): (c: char)
    requires d < 10
    ensures IsDigit(c)
    ensures c as int - '0' as int == d
  {
    ('0' as int + d) as char
  }

  /** The value of a single decimal digit character. */
  function DigitValue(c: char): (d: nat)
    requires IsDigit(c)
    ensures d < 10
    ensures DigitChar(d) == c
  {
    c as int - '0' as int
  }

  /** str(n): the digits of n, most significant first, without leading zeros. */
  function Render(n: nat): (s: string)
    ensures |s| >= 1
    ensures AllDigits(s)
    ensures s[0] == '0' ==> n == 0
    ensures (|s| == 1) == (n < 10)
    decreases n
  {
    if n < 10 then [DigitChar(n)] else Render(n / 10) + [DigitChar(n % 10)]
  }

  /** The number a string of decimal digits denotes (int() of a digit string). */
  function Value(s: string): (n: nat)
    requires AllDigits(s)
    decreases |s|
  {
    if s == [] then 0 else Value(s[..|s| - 1]) * 10 + DigitValue(s[|s| - 1])
  }

  /** Reading back a rendered number gives the number. */
  lemma {:induction false} ValueOfRender(n: nat)
    ensures Value(Render(n)) == n
  {
    if n >= 10 {
      var s := Render(n);
      assert s[..|s| - 1] == Render(n / 10);
      ValueOfRender(n / 10);
    }
  }

  /** Rendering is one-to-one: distinct numbers give distinct strings. */
  lemma RenderInjective(m: nat, n: nat)
    requires Render(m) == Render(n)
    ensures m == n
  {
    ValueOfRender(m);
    ValueOfRender(n);
  }

  function Pow10(k: nat): (p: nat)
    ensures p >= 1
  {
    if k == 0 then 1 else 10 * Pow10(k - 1)
  }

  /** The most significant decimal digit of n. */
  function LeadingDigit(n: nat): (d: nat)
    ensures d < 10
    ensures n >= 1 ==> d >= 1
  {
    if n < 10 then n else LeadingDigit(n / 10)
  }

  /** The first character of str(n) is the most significant digit of n. */
  lemma {:induction false} RenderStartsWithLeadingDigit(n: nat)
    ensures Render(n)[0] == DigitChar(LeadingDigit(n))
  {
    if n >= 10 {
      RenderStartsWithLeadingDigit(n / 10);
    }
  }

  /** With k + 1 digits, n lies between d * 10^k and (d + 1) * 10^k,
      where d is its leading digit. */
  lemma {:induction false} LeadingDigitBounds(n: nat)
    ensures LeadingDigit(n) * Pow10(|Render(n)| - 1) <= n
    ensures n < (LeadingDigit(n) + 1) * Pow10(|Render(n)| - 1)
  {
    if n >= 10 {
      var m := n / 10;
      LeadingDigitBounds(m);
      var d, p := LeadingDigit(m), Pow10(|Render(m)| - 1);
      assert |Render(n)| == |Render(m)| + 1;
      assert Pow10(|Render(n)| - 1) == 10 * p;
      ScaleByTen(d, p, m, n);
    }
  }

  /** One more digit: the bounds on m = n / 10 scale to bounds on n. */
  lemma ScaleByTen(d: nat, p: nat, m: nat, n: nat)
    requires m == n / 10
    requires d * p <= m < (d + 1) * p
    ensures d * (10 * p) <= n < (d + 1) * (10 * p)
  {
  }

  /** For a three-digit number the leading digit is its hundreds digit. */
  lemma LeadingDigitOfThreeDigits(n: nat)
    requires 100 <= n < 1000
    ensures LeadingDigit(n) == n / 100
  {
    var m := n / 10;
    assert 10 <= m < 100 && m / 10 == n / 100;
    assert LeadingDigit(n) == LeadingDigit(m) == LeadingDigit(m / 10);
  }
}
