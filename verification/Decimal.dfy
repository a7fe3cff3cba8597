/** Decimal text of natural numbers: strconv.Itoa, its inverse, and powers of ten. */
module Decimal {

  predicate IsDigit(c: char) {
    '0' <= c <= '9'
  }

  predicate AllDigits(s: string) {
    forall i :: 0 <= i < |s| ==> IsDigit(s[i])
  }

  /** Digits without a leading zero, except the text "0" itself. */
  predicate Canonical(s: string) {
    s != "" && AllDigits(s) && (|s| > 1 ==> s[0] != '0')
  }

  function DigitValue(c: char): nat
    requires IsDigit(c)
  {
    c as int - '0' as int
  }

  function Digit(d: nat): (c: char)
    requires d < 10
    ensures IsDigit(c) && DigitValue(c) == d
  {
    ('0' as int + d) as char
  }

  /** The number a digit string denotes; the empty string denotes zero. */
  function Value(s: string): nat
    requires AllDigits(s)
  {
    if s == "" then 0 else Value(s[..|s| - 1]) * 10 + DigitValue(s[|s| - 1])
  }

  function Itoa(n: nat): string {
    if n < 10 then [Digit(n)] else Itoa(n / 10) + [Digit(n % 10)]
  }

  function Pow10(n: nat): (p: nat)
    ensures p >= 1
  {
    if n == 0 then 1 else 10 * Pow10(n - 1)
  }

  lemma {:induction false} ItoaDenotes(n: nat)
    ensures Canonical(Itoa(n)) && Value(Itoa(n)) == n
    ensures n > 0 ==> Itoa(n)[0] != '0'
  {
    if n < 10 {
      assert Itoa(n)[..0] == "";
    } else {
      ItoaDenotes(n / 10);
      assert Itoa(n)[..|Itoa(n)| - 1] == Itoa(n / 10);
    }
  }

  lemma {:induction false} ItoaOfValue(s: string)
    requires Canonical(s)
    ensures Itoa(Value(s)) == s
  {
    var front := s[..|s| - 1];
    if front == "" {
      assert s == [s[0]];
    } else {
      ItoaOfValue(front);
      ItoaDenotes(Value(front));
      if |front| == 1 { assert front[..0] == ""; }
      assert Value(front) > 0 by { PositiveValue(front); }
      assert s == front + [s[|s| - 1]];
    }
  }

  lemma ItoaInjective(m: nat, n: nat)
    requires Itoa(m) == Itoa(n)
    ensures m == n
  {
    ItoaDenotes(m);
    ItoaDenotes(n);
  }

  lemma {:induction false} PositiveValue(s: string)
    requires s != "" && AllDigits(s) && s[0] != '0'
    ensures Value(s) > 0
  {
    if |s| > 1 { PositiveValue(s[..|s| - 1]); }
  }

  lemma ValueSnoc(s: string, c: char)
    requires AllDigits(s) && IsDigit(c)
    ensures Value(s + [c]) == Value(s) * 10 + DigitValue(c)
  {
    assert (s + [c])[..|s|] == s;
  }

  lemma Distribute(v: nat, p: nat, u: nat, d: nat)
    ensures (v * p + u) * 10 + d == v * (10 * p) + (u * 10 + d)
  {
    assert v * p * 10 == v * (10 * p);
  }

  lemma {:induction false} ValueOfConcat(s: string, t: string)
    requires AllDigits(s) && AllDigits(t)
    ensures AllDigits(s + t) && Value(s + t) == Value(s) * Pow10(|t|) + Value(t)
  {
    if t == "" {
      assert s + t == s;
    } else {
      var u, c := t[..|t| - 1], t[|t| - 1];
      ValueOfConcat(s, u);
      assert t == u + [c] && s + t == s + u + [c];
      ValueSnoc(s + u, c);
      ValueSnoc(u, c);
      Distribute(Value(s), Pow10(|u|), Value(u), DigitValue(c));
    }
  }

  lemma {:induction false} ZerosAreZero(s: string)
    requires forall i :: 0 <= i < |s| ==> s[i] == '0'
    ensures Value(s) == 0
  {
    if s != "" { ZerosAreZero(s[..|s| - 1]); }
  }

  lemma {:induction false} ValueBelow(s: string)
    requires AllDigits(s)
    ensures Value(s) < Pow10(|s|)
  {
    if s != "" { ValueBelow(s[..|s| - 1]); }
  }

  /** A number written with a non-zero first digit is at least a one followed by zeros. */
  lemma {:induction false} ValueAtLeast(s: string)
    requires s != "" && AllDigits(s) && s[0] != '0'
    ensures Value(s) >= Pow10(|s| - 1)
  {
    if |s| == 1 {
      PositiveValue(s);
    } else {
      ValueAtLeast(s[..|s| - 1]);
      assert Pow10(|s| - 1) == 10 * Pow10(|s| - 2);
    }
  }

  lemma {:induction false} Pow10Adds(m: nat, n: nat)
    ensures Pow10(m + n) == Pow10(m) * Pow10(n)
  {
    if m > 0 {
      Pow10Adds(m - 1, n);
      assert Pow10(m + n) == 10 * Pow10(m - 1 + n);
    }
  }

  lemma {:induction false} Pow10Monotone(m: nat, n: nat)
    requires m <= n
    ensures Pow10(m) <= Pow10(n)
  {
    if m < n { Pow10Monotone(m, n - 1); }
  }

  /** A number below 10^k needs at most k digits. */
  lemma ItoaLength(n: nat, k: nat)
    requires n < Pow10(k) && k > 0
    ensures |Itoa(n)| <= k
  {
    ItoaDenotes(n);
    if |Itoa(n)| > k {
      ValueAtLeast(Itoa(n));
      Pow10Monotone(k, |Itoa(n)| - 1);
    }
  }
}
