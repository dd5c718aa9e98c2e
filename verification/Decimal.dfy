/** Decimal text of integers: the printed form, its value, and the fact that each
    determines the other. Positions, one-time codes, cache keys and CSV numbers all
    go through this text. */
module Decimal {

  predicate IsDigit(c: char) {
    '0' <= c <= '9'
  }

  predicate AllDigits(s: string) {
    forall i :: 0 <= i < |s| ==> IsDigit(s[i])
  }

  function Digit(d: int): (c: char)
    requires 0 <= d < 10
    ensures IsDigit(c) && DigitValue(c) == d
  {
    '0' + d as char
  }

  function DigitValue(c: char): (d: int)
    requires IsDigit(c)
  {
    c as int - '0' as int
  }

  /** The usual notation, most significant digit first. */
  function Print(n: nat): string {
    if n < 10 then [Digit(n)] else Print(n / 10) + [Digit(n % 10)]
  }

  /** Notation of a possibly negative number, as `%d` and FormatInt write it. */
  function PrintInt(n: int): string {
    if n < 0 then "-" + Print(-n) else Print(n)
  }

  function Value(s: string): nat
    requires AllDigits(s)
  {
    if s == [] then 0 else 10 * Value(s[..|s| - 1]) + DigitValue(s[|s| - 1])
  }

  function Pow10(k: nat): (p: nat)
    ensures p >= 1
  {
    if k == 0 then 1 else 10 * Pow10(k - 1)
  }

  predicate Canonical(s: string) {
    s != [] && AllDigits(s) && (|s| == 1 || s[0] != '0')
  }

  /** Printing yields the canonical notation and reading it back recovers the number. */
  lemma {:induction false} PrintRoundTrip(n: nat)
    ensures Canonical(Print(n))
    ensures Value(Print(n)) == n
    ensures Print(n)[0] == '0' ==> n == 0
  {
    if n >= 10 {
      PrintRoundTrip(n / 10);
      var s := Print(n);
      assert s[..|s| - 1] == Print(n / 10);
      assert s[0] == Print(n / 10)[0];
    } else {
      assert Print(n)[..0] == [];
    }
  }

  /** There is only one canonical notation of a number. */
  lemma {:induction false} CanonicalUnique(s: string)
    requires Canonical(s)
    ensures Print(Value(s)) == s
  {
    var p := s[..|s| - 1];
    if |s| == 1 {
      assert p == [];
      assert s == [s[0]];
    } else {
      CanonicalUnique(p);
      PositiveValue(p);
      assert s == p + [s[|s| - 1]];
    }
  }

  lemma {:induction false} PositiveValue(s: string)
    requires s != [] && AllDigits(s) && s[0] != '0'
    ensures Value(s) >= 1
  {
    if |s| > 1 {
      PositiveValue(s[..|s| - 1]);
    }
  }

  /** A number below 10^k (k >= 1) prints with at most k digits. */
  lemma {:induction false} PrintLength(n: nat, k: nat)
    requires k >= 1 && n < Pow10(k)
    ensures |Print(n)| <= k
  {
    if n >= 10 {
      assert k > 1;
      PrintLength(n / 10, k - 1);
    }
  }

  lemma PrintInjective(m: nat, n: nat)
    requires Print(m) == Print(n)
    ensures m == n
  {
    PrintRoundTrip(m);
    PrintRoundTrip(n);
  }

  lemma PrintIntInjective(m: int, n: int)
    requires PrintInt(m) == PrintInt(n)
    ensures m == n
  {
    PrintRoundTrip(if m < 0 then -m else m);
    PrintRoundTrip(if n < 0 then -n else n);
    if m < 0 && n < 0 {
      assert PrintInt(m)[1..] == Print(-m) && PrintInt(n)[1..] == Print(-n);
    }
  }

  /** Notation padded on the left with zeros to at least `width` digits, as `%0*d` writes it. */
  function PrintPadded(n: nat, width: nat): string {
    var s := Print(n);
    if |s| >= width then s else Zeros(width - |s|) + s
  }

  function Zeros(k: nat): (s: string)
    ensures |s| == k
    ensures forall i :: 0 <= i < k ==> s[i] == '0'
  {
    seq(k, _ => '0')
  }

  lemma {:induction false} LeadingZeros(k: nat, s: string)
    requires AllDigits(s)
    ensures AllDigits(Zeros(k) + s)
    ensures Value(Zeros(k) + s) == Value(s)
  {
    var t := Zeros(k) + s;
    if s != [] {
      LeadingZeros(k, s[..|s| - 1]);
      assert t[..|t| - 1] == Zeros(k) + s[..|s| - 1];
    } else if k > 0 {
      LeadingZeros(k - 1, []);
      assert t[..|t| - 1] == Zeros(k - 1) + [];
    }
  }

  /** Below 10^width the padded notation has exactly `width` digits and keeps the value. */
  lemma PaddedRoundTrip(n: nat, width: nat)
    requires width >= 1 && n < Pow10(width)
    ensures |PrintPadded(n, width)| == width
    ensures AllDigits(PrintPadded(n, width)) && Value(PrintPadded(n, width)) == n
  {
    PrintRoundTrip(n);
    PrintLength(n, width);
    LeadingZeros(width - |Print(n)|, Print(n));
  }

  lemma LastDigit(p: nat, x: int, q: nat, y: int)
    requires 10 * p + x == 10 * q + y && 0 <= x < 10 && 0 <= y < 10
    ensures p == q && x == y
  {
  }

  /** Digits of one length are determined by their value. */
  lemma {:induction false} SameLengthUnique(a: string, b: string)
    requires AllDigits(a) && AllDigits(b) && |a| == |b| && Value(a) == Value(b)
    ensures a == b
  {
    if a != [] {
      var n := |a| - 1;
      LastDigit(Value(a[..n]), DigitValue(a[n]), Value(b[..n]), DigitValue(b[n]));
      SameLengthUnique(a[..n], b[..n]);
      assert a == a[..n] + [a[n]] && b == b[..n] + [b[n]];
    }
  }
}
