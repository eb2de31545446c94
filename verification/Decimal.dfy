/** Integers printed in decimal, and read back. */
module Decimal {

  predicate IsDigit(c: char) {
    '0' <= c <= '9'
  }

  function DigitChar(d: nat): (c: char)
    requires d < 10
    ensures IsDigit(c) && DigitValue(c) == d
  {
    ('0' as int + d) as char
  }

  function DigitValue(c: char): (d: nat)
    requires IsDigit(c)
    ensures d < 10
  {
    c as int - '0' as int
  }

  function Digits(n: nat): (s: string)
    ensures |s| > 0 && forall i | 0 <= i < |s| :: IsDigit(s[i])
  {
    if n < 10 then [DigitChar(n)] else Digits(n / 10) + [DigitChar(n % 10)]
  }

  function Itoa(n: int): (s: string)
    ensures |s| > 0
  {
    if n < 0 then "-" + Digits(-n) else Digits(n)
  }

  function ParseDigits(s: string): nat
    requires forall i | 0 <= i < |s| :: IsDigit(s[i])
  {
    if |s| == 0 then 0 else 10 * ParseDigits(s[..|s| - 1]) + DigitValue(s[|s| - 1])
  }

  /** The integer a decimal string denotes; 0 for anything else. */
  function Atoi(s: string): int {
    if |s| > 0 && s[0] == '-' && forall i | 1 <= i < |s| :: IsDigit(s[i]) then 0 - ParseDigits(s[1..])
    else if forall i | 0 <= i < |s| :: IsDigit(s[i]) then ParseDigits(s)
    else 0
  }

  lemma {:induction false} ParseDigitsBack(n: nat)
    ensures ParseDigits(Digits(n)) == n
  {
    if n >= 10 {
      ParseDigitsBack(n / 10);
      assert Digits(n)[..|Digits(n)| - 1] == Digits(n / 10);
    } else {
      assert Digits(n)[..0] == [];
    }
  }

  lemma ItoaRoundTrip(n: int)
    ensures Atoi(Itoa(n)) == n
  {
    if n < 0 {
      ParseDigitsBack(-n);
      assert Itoa(n)[1..] == Digits(-n);
    } else {
      ParseDigitsBack(n);
      assert IsDigit(Digits(n)[0]);
    }
  }

  lemma DigitsAfter(p: string, n: nat, sep: char)
    ensures var whole := p + [sep] + Digits(n); forall i | |p| < i < |whole| :: IsDigit(whole[i])
  {
  }

  /** A number after a separator that is no digit can be told from what comes before it. */
  lemma NumberAtEnd(p: string, n: nat, q: string, m: nat, sep: char)
    requires !IsDigit(sep) && p + [sep] + Digits(n) == q + [sep] + Digits(m)
    ensures p == q && n == m
  {
    var whole := p + [sep] + Digits(n);
    assert whole[|p|] == sep && whole[|q|] == sep;
    DigitsAfter(p, n, sep);
    DigitsAfter(q, m, sep);
    assert p == whole[..|p|] && q == whole[..|q|];
    assert Digits(n) == whole[|p| + 1..] && Digits(m) == whole[|q| + 1..];
    ParseDigitsBack(n);
    ParseDigitsBack(m);
  }
}
