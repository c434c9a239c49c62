/** Decimal digit texts and their values, as BigInt reads and writes them. */
module Digits {
  function Pow10(n: nat): (p: nat)
    ensures p > 0
  {
    if n == 0 then 1 else 10 * Pow10(n - 1)
  }

  function Times(a: nat, b: nat): nat {
    a * b
  }

  function Over(a: nat, b: nat): nat
    requires b > 0
  {
    a / b
  }

  predicate IsDigit(c: char) {
    '0' <= c <= '9'
  }

  predicate AllDigits(s: string) {
    forall i | 0 <= i < |s| :: IsDigit(s[i])
  }

  function DigitChar(d: nat): char
    requires d < 10
  {
    "0123456789"[d]
  }

  function DigitValue(c: char): (d: nat)
    requires IsDigit(c)
    ensures d < 10 && DigitChar(d) == c
  {
    c as int - '0' as int
  }

  function Value(s: string): nat
    requires AllDigits(s)
  {
    if s == "" then 0 else 10 * Value(s[..|s| - 1]) + DigitValue(s[|s| - 1])
  }

  function Show(n: nat): string {
    if n < 10 then [DigitChar(n)] else Show(n / 10) + [DigitChar(n % 10)]
  }

  function Zeros(n: nat): (s: string)
    ensures |s| == n && forall i | 0 <= i < n :: s[i] == '0'
  {
    seq(n, _ => '0')
  }

  function PadStart(s: string, n: nat): string {
    if |s| < n then Zeros(n - |s|) + s else s
  }

  function PadEnd(s: string, n: nat): string {
    if |s| < n then s + Zeros(n - |s|) else s
  }

  /** Every trailing zero cut off. */
  function StripZeros(s: string): string {
    if s != "" && s[|s| - 1] == '0' then StripZeros(s[..|s| - 1]) else s
  }

  /** No leading zero but in "0" itself: what `0|[1-9]\d*` matches. */
  predicate Canonical(s: string) {
    s != "" && AllDigits(s) && (s[0] == '0' ==> |s| == 1)
  }

  lemma {:induction false} ShowIsCanonical(n: nat)
    ensures Canonical(Show(n)) && Value(Show(n)) == n
    ensures Show(n)[0] == '0' ==> n == 0
  {
    if n >= 10 {
      ShowIsCanonical(n / 10);
      ValueOfDigit(Show(n / 10), n % 10);
    } else {
      ValueOfDigit("", n);
      assert [DigitChar(n)] == "" + [DigitChar(n)];
    }
  }

  lemma {:induction false} ValueOfDigit(front: string, d: nat)
    requires AllDigits(front) && d < 10
    ensures DigitChar(d) == '0' <==> d == 0
    ensures AllDigits(front + [DigitChar(d)]) && Value(front + [DigitChar(d)]) == 10 * Value(front) + d
  {
    assert (front + [DigitChar(d)])[..|front|] == front;
  }

  lemma {:induction false} CanonicalIsShown(s: string)
    requires Canonical(s)
    ensures Show(Value(s)) == s
    ensures Value(s) == 0 ==> s == "0"
  {
    var front := s[..|s| - 1];
    if front == "" {
      assert s == [s[0]];
    } else {
      CanonicalIsShown(front);
      assert s == front + [s[|s| - 1]];
      assert Value(front) > 0;
    }
  }

  lemma {:induction false} ValueOfJoin(a: string, b: string)
    requires AllDigits(a) && AllDigits(b)
    ensures AllDigits(a + b) && Value(a + b) == Value(a) * Pow10(|b|) + Value(b)
  {
    if b == "" {
      assert a + b == a;
    } else {
      var front := b[..|b| - 1];
      ValueOfJoin(a, front);
      assert (a + b)[..|a + b| - 1] == a + front;
      assert (a + b)[|a + b| - 1] == b[|b| - 1];
      TimesTen(Value(a), Pow10(|front|));
    }
  }

  lemma TimesTen(v: nat, p: nat)
    ensures v * (10 * p) == 10 * (v * p)
  {
  }

  lemma {:induction false} ValueOfZeros(n: nat)
    ensures Value(Zeros(n)) == 0
  {
    if n > 0 {
      assert Zeros(n)[..n - 1] == Zeros(n - 1);
      ValueOfZeros(n - 1);
    }
  }

  lemma {:induction false} PadStartKeepsValue(s: string, n: nat)
    requires AllDigits(s)
    ensures AllDigits(PadStart(s, n)) && Value(PadStart(s, n)) == Value(s)
  {
    if |s| < n {
      ValueOfZeros(n - |s|);
      ValueOfJoin(Zeros(n - |s|), s);
    }
  }

  lemma {:induction false} ValueOfPadEnd(s: string, n: nat)
    requires AllDigits(s) && |s| <= n
    ensures AllDigits(PadEnd(s, n)) && Value(PadEnd(s, n)) == Value(s) * Pow10(n - |s|)
  {
    if |s| < n {
      ValueOfZeros(n - |s|);
      ValueOfJoin(s, Zeros(n - |s|));
    } else {
      assert Pow10(n - |s|) == 1;
    }
  }

  /** Cutting the trailing zeros loses nothing at a known width. */
  lemma {:induction false} StripZerosPadsBack(s: string)
    ensures |StripZeros(s)| <= |s| && PadEnd(StripZeros(s), |s|) == s
    ensures StripZeros(s) == s[..|StripZeros(s)|]
    ensures StripZeros(s) != "" ==> StripZeros(s)[|StripZeros(s)| - 1] != '0'
  {
    if s != "" && s[|s| - 1] == '0' {
      StripZerosPadsBack(s[..|s| - 1]);
    }
  }

  lemma {:induction false} PowOfSum(a: nat, b: nat)
    ensures Pow10(a + b) == Pow10(a) * Pow10(b)
  {
    if a > 0 {
      PowOfSum(a - 1, b);
    }
  }

  lemma TimesIsMonotone(d: nat, a: int, b: int)
    ensures a <= b ==> d * a <= d * b
  {
  }
}
