/** Decimal rendering of natural numbers, the form in which the program builds
    generated ids (`L1`, `NEW_TOPIC_2`) and writes array indices into paths. */
module Decimal {

  predicate IsDigit(c: char) {
    '0' <= c <= '9'
  }

  predicate AllDigits(s: string) {
    |s| > 0 && forall i :: 0 <= i < |s| ==> IsDigit(s[i])
  }

  /** A digit string without superfluous leading zeros: the only spelling that
      names an array element in a property lookup. */
  predicate Canonical(s: string) {
    AllDigits(s) && (|s| == 1 || s[0] != '0')
  }

  function DigitChar(d: nat): char
    requires d < 10
  {
    ('0' as int + d) as char
  }

  function Dec(n: nat): string {
    if n < 10 then [DigitChar(n)] else Dec(n / 10) + [DigitChar(n % 10)]
  }

  /** Numeric value of a digit string, leading zeros allowed. */
  function Val(s: string): nat
    requires AllDigits(s)
  {
    var d := s[|s| - 1] as int - '0' as int;
    if |s| == 1 then d else Val(s[..|s| - 1]) * 10 + d
  }

  function Pow10(n: nat): nat {
    if n == 0 then 1 else 10 * Pow10(n - 1)
  }

  lemma Shift(a: nat, p: nat, b: nat, d: int)
    ensures (a * p + b) * 10 + d == a * (10 * p) + (b * 10 + d)
  {
  }

  /** Positional value: what stands before the last |b| digits counts 10^|b| times. */
  lemma {:induction false} ValPositional(a: string, b: string)
    requires AllDigits(a) && AllDigits(b)
    ensures AllDigits(a + b) && Val(a + b) == Val(a) * Pow10(|b|) + Val(b)
    ensures |b| == 1 ==> Val(b) == b[0] as int - '0' as int
    decreases |b|
  {
    assert (a + b)[..|a + b| - 1] == a + b[..|b| - 1];
    if |b| > 1 {
      var front, d := b[..|b| - 1], b[|b| - 1] as int - '0' as int;
      ValPositional(a, front);
      assert Val(a + b) == Val(a + front) * 10 + d && Val(b) == Val(front) * 10 + d;
      Shift(Val(a), Pow10(|front|), Val(front), d);
    } else {
      assert a + b[..0] == a;
      assert Pow10(1) == 10 * Pow10(0) == 10;
    }
  }

  lemma {:induction false} DecCanonical(n: nat)
    ensures Canonical(Dec(n))
    ensures n > 0 ==> Dec(n)[0] != '0'
  {
    if n >= 10 {
      DecCanonical(n / 10);
    }
  }

  lemma {:induction false} ValDec(n: nat)
    ensures Canonical(Dec(n)) && Val(Dec(n)) == n
  {
    DecCanonical(n);
    if n >= 10 {
      ValDec(n / 10);
      assert Dec(n)[..|Dec(n)| - 1] == Dec(n / 10);
    }
  }

  /** On canonical strings the two conversions are inverse the other way round too. */
  lemma {:induction false} DecVal(s: string)
    requires Canonical(s)
    ensures Dec(Val(s)) == s
    ensures |s| > 1 ==> Val(s) >= 10
    ensures s[0] != '0' ==> Val(s) > 0
  {
    if |s| > 1 {
      var front := s[..|s| - 1];
      assert front[0] == s[0];
      DecVal(front);
      var d := s[|s| - 1] as int - '0' as int;
      assert Val(s) == Val(front) * 10 + d;
      assert s == front + [s[|s| - 1]];
    }
  }

  lemma DecInjective(m: nat, n: nat)
    requires Dec(m) == Dec(n)
    ensures m == n
  {
    ValDec(m);
    ValDec(n);
  }

  /** A generated name: a prefix and a number. */
  function Label(prefix: string, n: nat): string {
    prefix + Dec(n)
  }

  lemma LabelInjective(prefix: string, m: nat, n: nat)
    requires Label(prefix, m) == Label(prefix, n)
    ensures m == n
  {
    assert Label(prefix, m)[|prefix|..] == Dec(m);
    assert Label(prefix, n)[|prefix|..] == Dec(n);
    DecInjective(m, n);
  }

  /** Length of the digits `s` starts with. */
  function DigitRun(s: string): (n: nat)
    ensures n <= |s| && (n < |s| ==> !IsDigit(s[n])) && forall i :: 0 <= i < n ==> IsDigit(s[i])
  {
    if s != [] && IsDigit(s[0]) then 1 + DigitRun(s[1..]) else 0
  }

  lemma {:induction false} DigitRunAppend(a: string, b: string)
    requires b == [] || !IsDigit(b[0]) || DigitRun(a) < |a|
    ensures DigitRun(a + b) == DigitRun(a)
  {
    if a == [] {
      assert a + b == b;
    } else {
      assert (a + b)[1..] == a[1..] + b;
      if IsDigit(a[0]) {
        DigitRunAppend(a[1..], b);
      }
    }
  }

  lemma {:induction false} DigitsOnly(d: string)
    requires AllDigits(d)
    ensures DigitRun(d) == |d|
  {
    if |d| > 1 {
      DigitsOnly(d[1..]);
    }
  }
}
