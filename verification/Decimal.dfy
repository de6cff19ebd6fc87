/** Decimal numbers in a text: how they are written, and how the longest run of digits is read. */
module Decimal {
  import opened Layout
  import opened Wrappers

  predicate IsDigit(c: char) { '0' <= c <= '9' }

  function Digit(d: nat): (c: char)
    requires d < 10
    ensures IsDigit(c)
  {
    "0123456789"[d]
  }

  function DigitValue(c: char): (d: nat)
    requires IsDigit(c)
    ensures d < 10
  {
    c as int - '0' as int
  }

  lemma {:induction false} ValueOfDigit(d: nat)
    requires d < 10
    ensures DigitValue(Digit(d)) == d
  {
  }

  predicate Digits(s: string) { forall i :: 0 <= i < |s| ==> IsDigit(s[i]) }

  /** A number as String(n) writes it. */
  function Dec(n: nat): (s: string)
    ensures |s| > 0 && Digits(s)
  {
    if n < 10 then [Digit(n)] else Dec(n / 10) + [Digit(n % 10)]
  }

  /** The number that the first `n` digits of `s` stand for. */
  function Value(s: string, n: nat): nat
    requires n <= |s| && Digits(s)
  {
    if n == 0 then 0 else 10 * Value(s, n - 1) + DigitValue(s[n - 1])
  }

  lemma {:induction false} ValueOfPrefix(a: string, b: string, n: nat)
    requires n <= |a| && Digits(a) && Digits(a + b)
    ensures Value(a + b, n) == Value(a, n)
  {
    if n > 0 { ValueOfPrefix(a, b, n - 1); }
  }

  lemma {:induction false} ValueOfDec(n: nat)
    ensures Value(Dec(n), |Dec(n)|) == n
  {
    if n < 10 {
      ValueOfDigit(n);
      assert Value(Dec(n), 0) == 0;
    } else {
      ValueOfDec(n / 10);
      ValueOfPrefix(Dec(n / 10), [Digit(n % 10)], |Dec(n / 10)|);
      ValueOfDigit(n % 10);
    }
  }

  function Pow10(k: nat): (p: nat)
    ensures p > 0
  {
    if k == 0 then 1 else 10 * Pow10(k - 1)
  }

  /** The width of a number: at most `k` digits exactly when it is below 10^k. */
  lemma {:induction false} DecWidth(n: nat, k: nat)
    requires k > 0
    ensures |Dec(n)| <= k <==> n < Pow10(k)
  {
    if k == 1 {
      assert Pow10(1) == 10 * Pow10(0);
    } else if n >= 10 {
      DecWidth(n / 10, k - 1);
    } else {
      assert Pow10(k - 1) >= 1;
    }
  }

  /** String(n).padStart(width, "0"): a longer number stays as it is. */
  function Padded(n: nat, width: nat): (s: string)
    ensures |s| == if |Dec(n)| < width then width else |Dec(n)|
    ensures Digits(s)
  {
    Zeros(if |Dec(n)| < width then width - |Dec(n)| else 0) + Dec(n)
  }

  function Zeros(k: nat): (s: string)
    ensures |s| == k && Digits(s)
  {
    if k == 0 then [] else ['0'] + Zeros(k - 1)
  }

  lemma {:induction false} ValueAfterZero(s: string, n: nat)
    requires n <= |s| && Digits(s)
    ensures Value(['0'] + s, n + 1) == Value(s, n)
  {
    if n == 0 {
      assert Value(['0'] + s, 0) == 0;
    } else {
      ValueAfterZero(s, n - 1);
    }
  }

  lemma {:induction false} ValueOfZeros(k: nat, s: string)
    requires Digits(s)
    ensures Value(Zeros(k) + s, k + |s|) == Value(s, |s|)
  {
    if k == 0 {
      assert Zeros(k) + s == s;
    } else {
      ValueOfZeros(k - 1, s);
      ValueAfterZero(Zeros(k - 1) + s, k - 1 + |s|);
      assert Zeros(k) + s == ['0'] + (Zeros(k - 1) + s);
    }
  }

  lemma {:induction false} ValueOfPadded(n: nat, width: nat)
    ensures Value(Padded(n, width), |Padded(n, width)|) == n
  {
    ValueOfDec(n);
    hide Dec, Zeros, Value;
    ValueOfZeros(if |Dec(n)| < width then width - |Dec(n)| else 0, Dec(n));
  }

  // ---------- reading ----------

  datatype Number = Number(value: nat, next: nat)

  /** Where the run of digits that starts at `at` ends. */
  function RunEnd(z: string, at: nat): (end: nat)
    requires at <= |z|
    ensures at <= end <= |z| && Digits(z[at..end])
    ensures end < |z| ==> !IsDigit(z[end])
    decreases |z| - at
  {
    if at == |z| || !IsDigit(z[at]) then at else RunEnd(z, at + 1)
  }

  function ReadNat(z: string, at: nat): Option<Number> {
    if at > |z| || RunEnd(z, at) == at then None
    else Some(Number(Value(z[at..RunEnd(z, at)], RunEnd(z, at) - at), RunEnd(z, at)))
  }

  lemma {:induction false} RunEndIs(z: string, at: nat, end: nat)
    requires at <= end < |z| && !IsDigit(z[end])
    requires forall i :: at <= i < end ==> IsDigit(z[i])
    ensures RunEnd(z, at) == end
    decreases end - at
  {
    if at < end { RunEndIs(z, at + 1, end); }
  }

  /** A written number is read back where what follows it does not continue it. */
  lemma {:induction false} ReadDec(z: string, at: nat, n: nat)
    requires HasAt(z, at, Dec(n)) && at + |Dec(n)| < |z| && !IsDigit(z[at + |Dec(n)|])
    ensures ReadNat(z, at) == Some(Number(n, at + |Dec(n)|))
  {
    hide Dec, Value;
    PartBytes(z, at, Dec(n));
    forall i | at <= i < at + |Dec(n)| ensures IsDigit(z[i]) { assert z[i] == Dec(n)[i - at]; }
    RunEndIs(z, at, at + |Dec(n)|);
    ValueOfDec(n);
  }

  /** Where the run of digits that ends before `end` starts. */
  function RunStart(z: string, end: nat): (at: nat)
    requires end <= |z|
    ensures at <= end
  {
    if end == 0 || !IsDigit(z[end - 1]) then end else RunStart(z, end - 1)
  }

  lemma {:induction false} RunStartIs(z: string, at: nat, end: nat)
    requires 0 < at <= end <= |z| && !IsDigit(z[at - 1])
    requires forall i :: at <= i < end ==> IsDigit(z[i])
    ensures RunStart(z, end) == at
    decreases end - at
  {
    if at < end { RunStartIs(z, at, end - 1); }
  }
}
