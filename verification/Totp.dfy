/** Time-based one-time codes: the check of mfax.VerifyTOTP against HOTP and TOTP as sections 5.2 to
    5.4 of RFC 4226 and section 4.2 of RFC 6238 define them. */
module Totp {
  import opened Wrappers
  import opened Decimal

  type Byte = b: int | 0 <= b < 256

  /** HMAC-SHA-1 output. */
  type Digest = d: seq<Byte> | |d| == 20 witness seq(20, _ => 0)

  /** HMAC-SHA-1 of (key, message), and base-32 decoding of the upper-cased secret; both are
      left abstract. */
  datatype Crypto = Crypto(hmac: (seq<Byte>, seq<Byte>) -> Digest, decode: string -> Option<seq<Byte>>)

  const NANOS := 1_000_000_000
  const TWO31 := 0x8000_0000
  const TWO32 := 0x1_0000_0000
  const TWO64 := 0x1_0000_0000_0000_0000

  // ---- The standard

  /** The number that bytes spell, most significant first. */
  function Number(bytes: seq<Byte>): nat {
    if bytes == [] then 0 else 256 * Number(bytes[..|bytes| - 1]) + bytes[|bytes| - 1]
  }

  /** How many numbers n bytes can spell. */
  function Pow256(n: nat): (p: nat)
    ensures p >= 1
  {
    if n == 0 then 1 else 256 * Pow256(n - 1)
  }

  /** A number as n bytes. */
  function BigEndian(v: nat, n: nat): (r: seq<Byte>)
    ensures |r| == n
    ensures v < Pow256(n) ==> Number(r) == v
  {
    if n == 0 then []
    else
      var init := BigEndian(v / 256, n - 1);
      assert (init + [v % 256])[..n - 1] == init;
      init + [v % 256]
  }

  lemma LastByte(p: nat, x: int, q: nat, y: int)
    requires 256 * p + x == 256 * q + y && 0 <= x < 256 && 0 <= y < 256
    ensures p == q && x == y
  {
  }

  /** Only one text of n bytes spells a number. */
  lemma {:induction false} NumberInjective(a: seq<Byte>, b: seq<Byte>)
    requires |a| == |b| && Number(a) == Number(b)
    ensures a == b
  {
    if a != [] {
      var n := |a| - 1;
      LastByte(Number(a[..n]), a[n], Number(b[..n]), b[n]);
      NumberInjective(a[..n], b[..n]);
      assert a == a[..n] + [a[n]] && b == b[..n] + [b[n]];
    }
  }

  lemma EightBytes()
    ensures Pow256(8) == TWO64
  {
    assert Pow256(4) == TWO32;
  }

  /** Dynamic truncation: four bytes at the offset in the last nibble, their top bit dropped. */
  function Truncate(mac: Digest): nat {
    var o := mac[19] % 16;
    var b0: int, b1: int, b2: int, b3: int := mac[o], mac[o + 1], mac[o + 2], mac[o + 3];
    (b0 % 128) * 0x100_0000 + b1 * 0x1_0000 + b2 * 0x100 + b3
  }

  function Hotp(crypto: Crypto, key: seq<Byte>, counter: nat, digits: nat): string {
    PrintPadded(Truncate(crypto.hmac(key, BigEndian(counter, 8))) % Pow10(digits), digits)
  }

  // ---- The code

  /** Go's integer division truncates towards zero. */
  function TruncDiv(a: int, b: int): int
    requires b > 0
  {
    if a >= 0 then a / b else -((-a) / b)
  }

  /** The quotient is the one whose remainder is smaller than the divisor and has the dividend's sign. */
  lemma TruncDivExact(a: int, b: int)
    requires b > 0
    ensures var r := a - TruncDiv(a, b) * b;
      -b < r < b && (a >= 0 ==> r >= 0) && (a <= 0 ==> r <= 0)
  {
    if a < 0 {
      assert -a == (-a) / b * b + (-a) % b;
    }
  }

  /** The modulus as 32-bit arithmetic leaves it. */
  function Modulus(digits: nat): nat {
    Pow10(digits) % TWO32
  }

  /** What totp returns for a Unix time and a period in whole seconds. */
  function TotpAt(crypto: Crypto, secret: string, unix: int, digits: nat, period: int): Option<string>
    requires period >= 1 && Modulus(digits) != 0
  {
    match crypto.decode(secret)
    case None => None
    case Some(key) =>
      var counter := TruncDiv(unix, period) % TWO64;
      Some(PrintPadded(Truncate(crypto.hmac(key, BigEndian(counter, 8))) % Modulus(digits), digits))
  }

  /** Masking the 32-bit word is the same as dropping the top bit of its first byte. */
  lemma TruncateWord(mac: Digest)
    ensures var o := mac[19] % 16;
      o + 4 <= |mac| && Truncate(mac) == Number(mac[o..o + 4]) % TWO31
  {
    var o := mac[19] % 16;
    var w := mac[o..o + 4];
    var b0: int, b1: int, b2: int, b3: int := w[0], w[1], w[2], w[3];
    assert w[..3][..2] == w[..2] && w[..2][..1] == w[..1] && w[..1][..0] == [];
    assert Number(w[..1]) == b0;
    assert Number(w[..2]) == 256 * b0 + b1;
    assert Number(w[..3]) == 256 * (256 * b0 + b1) + b2;
    assert Number(w) == 256 * (256 * (256 * b0 + b1) + b2) + b3;
    TopBit(b0, 0x1_0000 * b1 + 0x100 * b2 + b3);
  }

  /** Dropping the top bit of the first byte. */
  lemma TopBit(b0: nat, rest: nat)
    requires b0 < 256 && rest < 0x100_0000
    ensures (0x100_0000 * b0 + rest) % TWO31 == 0x100_0000 * (b0 % 128) + rest
  {
  }

  method ComputeTotp(crypto: Crypto, secret: string, unix: int, digits: nat, period: int) returns (r: Option<string>)
    requires period >= 1 && Modulus(digits) != 0
    ensures r == TotpAt(crypto, secret, unix, digits, period)
  {
    var key := crypto.decode(secret);
    if key == None {
      return None;
    }
    var counter := TruncDiv(unix, period) % TWO64;
    var sum := crypto.hmac(key.value, BigEndian(counter, 8));
    var offset := sum[|sum| - 1] % 16;
    var bin := Number(sum[offset..offset + 4]) % TWO31;
    TruncateWord(sum);
    assert bin == Truncate(sum);
    var mod := ComputeModulus(digits);
    r := Some(PrintPadded(bin % mod, digits));
  }

  /** mod *= 10, `digits` times, in 32 bits. */
  method ComputeModulus(digits: nat) returns (mod: nat)
    ensures mod == Modulus(digits)
  {
    mod := 1;
    var i := 0;
    while i < digits
      invariant 0 <= i <= digits
      invariant mod == Modulus(i)
    {
      ModulusStep(i);
      mod := mod * 10 % TWO32;
      i := i + 1;
    }
  }

  lemma ModulusStep(i: nat)
    ensures Modulus(i + 1) == Modulus(i) * 10 % TWO32
  {
  }

  lemma ModulusToNine(digits: nat)
    requires digits <= 9
    ensures Modulus(digits) == Pow10(digits)
  {
    Pow10Monotone(digits, 9);
    assert Pow10(9) == 1_000_000_000;
  }

  /** The remainder that the code takes is the one that the standard asks for, whatever the MAC. */
  ghost predicate Exact(digits: nat)
    requires Modulus(digits) != 0
  {
    forall mac: Digest :: Truncate(mac) % Modulus(digits) == Truncate(mac) % Pow10(digits)
  }

  /** The modulus is the power of ten, or so large that it leaves a 31-bit word alone. */
  predicate FitsWord(digits: nat) {
    digits <= 9 || Modulus(digits) >= TWO31
  }

  lemma TruncateSmall(mac: Digest)
    ensures Truncate(mac) < TWO31
  {
  }

  /** A MAC with a given 31-bit word at offset 0. */
  function MacOf(word: nat): Digest
    requires word < TWO31
  {
    var a, b, c := word / 256, word / 256 / 256, word / 256 / 256 / 256;
    [c, b % 256, a % 256, word % 256] + seq(16, _ => 0)
  }

  lemma TruncateMacOf(word: nat)
    requires word < TWO31
    ensures Truncate(MacOf(word)) == word
  {
    var mac := MacOf(word);
    var a, b, c := word / 256, word / 256 / 256, word / 256 / 256 / 256;
    assert mac[19] == 0 && mac[0] == c && mac[1] == b % 256 && mac[2] == a % 256 && mac[3] == word % 256;
    assert c < 128;
    assert word == 256 * a + word % 256 && a == 256 * b + a % 256 && b == 256 * c + b % 256;
  }

  lemma PowerIsLarge(digits: nat)
    requires digits > 9
    ensures Pow10(digits) > TWO31
  {
    Pow10Monotone(10, digits);
    assert Pow10(10) == 10_000_000_000;
  }

  lemma SmallRemainder(a: nat, m: nat)
    requires a < m
    ensures a % m == a
  {
  }

  lemma SelfRemainder(m: nat)
    requires m > 0
    ensures m % m == 0
  {
  }

  lemma LargeIsExact(digits: nat)
    requires digits > 9 && Modulus(digits) >= TWO31
    ensures Exact(digits)
  {
    PowerIsLarge(digits);
    forall mac: Digest
      ensures Truncate(mac) % Modulus(digits) == Truncate(mac) % Pow10(digits)
    {
      TruncateSmall(mac);
      SmallRemainder(Truncate(mac), Modulus(digits));
      SmallRemainder(Truncate(mac), Pow10(digits));
    }
  }

  /** A MAC for which the code is wrong. */
  lemma SmallIsWrong(digits: nat)
    requires digits > 9 && 0 < Modulus(digits) < TWO31
    ensures var mac := MacOf(Modulus(digits));
      Truncate(mac) % Modulus(digits) == 0 && Truncate(mac) % Pow10(digits) == Modulus(digits)
  {
    var m := Modulus(digits);
    PowerIsLarge(digits);
    TruncateMacOf(m);
    SelfRemainder(m);
    SmallRemainder(m, Pow10(digits));
  }

  /** The code is right for every MAC exactly up to nine digits and for those larger counts whose
      modulus, reduced to 32 bits, is at least 2^31. */
  lemma ExactIff(digits: nat)
    requires Modulus(digits) != 0
    ensures Exact(digits) <==> FitsWord(digits)
  {
    if digits <= 9 {
      ModulusToNine(digits);
    } else if Modulus(digits) < TWO31 {
      SmallIsWrong(digits);
    } else {
      LargeIsExact(digits);
    }
  }

  /** Ten digits: for the word 1410065408 the remainder is 0 instead of the word itself. Twelve are
      right again. */
  lemma TenDigitsFail()
    ensures Modulus(10) == 1_410_065_408
    ensures Truncate(MacOf(1_410_065_408)) % Modulus(10) == 0
    ensures Truncate(MacOf(1_410_065_408)) % Pow10(10) == 1_410_065_408
    ensures Modulus(12) == 3_567_587_328 && FitsWord(12)
  {
    assert Pow10(10) == 10_000_000_000;
    assert Pow10(12) == 1_000_000_000_000;
    TruncateMacOf(1_410_065_408);
  }

  lemma {:induction false} Pow10Monotone(a: nat, b: nat)
    requires a <= b
    ensures Pow10(a) <= Pow10(b)
  {
    if a < b {
      Pow10Monotone(a, b - 1);
    }
  }

  /** For one digit or more the code is exactly `digits` decimal characters, with the value of the
      31-bit word modulo 10^digits. */
  lemma HotpDigits(crypto: Crypto, key: seq<Byte>, counter: nat, digits: nat)
    requires 1 <= digits
    ensures var code := Hotp(crypto, key, counter, digits);
      && |code| == digits && AllDigits(code)
      && Value(code) == Truncate(crypto.hmac(key, BigEndian(counter, 8))) % Pow10(digits)
  {
    PaddedRoundTrip(Truncate(crypto.hmac(key, BigEndian(counter, 8))) % Pow10(digits), digits);
  }

  lemma PrintBelow(n: nat, m: nat, digits: nat)
    requires 1 <= digits && n < m && m <= Pow10(digits)
    ensures |PrintPadded(n, digits)| == digits
    ensures AllDigits(PrintPadded(n, digits)) && Value(PrintPadded(n, digits)) == n
  {
    PaddedRoundTrip(n, digits);
  }

  /** Whatever the number of digits, a code that is returned has exactly that many decimal characters;
      its value is the word's remainder by the 32-bit modulus. */
  lemma CodeDigits(crypto: Crypto, secret: string, unix: int, digits: nat, period: int)
    requires period >= 1 && 1 <= digits && Modulus(digits) != 0 && crypto.decode(secret).Some?
    ensures var code := TotpAt(crypto, secret, unix, digits, period);
      && code.Some? && |code.value| == digits && AllDigits(code.value)
      && var mac := crypto.hmac(crypto.decode(secret).value, BigEndian(TruncDiv(unix, period) % TWO64, 8));
         Value(code.value) == Truncate(mac) % Modulus(digits)
  {
    var mac := crypto.hmac(crypto.decode(secret).value, BigEndian(TruncDiv(unix, period) % TWO64, 8));
    PrintBelow(Truncate(mac) % Modulus(digits), Modulus(digits), digits);
  }

  // ---- Cleaning the input

  predicate IsSpace(c: char) {
    var n := c as int;
    9 <= n <= 13 || n == 0x20 || n == 0x85 || n == 0xA0 || n == 0x1680 || 0x2000 <= n <= 0x200A
      || n == 0x2028 || n == 0x2029 || n == 0x202F || n == 0x205F || n == 0x3000
  }

  function TrimLeft(s: string): string {
    if s != [] && IsSpace(s[0]) then TrimLeft(s[1..]) else s
  }

  function TrimRight(s: string): string {
    if s != [] && IsSpace(s[|s| - 1]) then TrimRight(s[..|s| - 1]) else s
  }

  function DropBlanks(s: string): string {
    if s == [] then [] else (if s[0] == ' ' then [] else [s[0]]) + DropBlanks(s[1..])
  }

  function Clean(s: string): string {
    DropBlanks(TrimRight(TrimLeft(s)))
  }

  lemma {:induction false} DropBlanksDigits(s: string)
    requires AllDigits(s)
    ensures DropBlanks(s) == s
  {
    if s != [] {
      DropBlanksDigits(s[1..]);
    }
  }

  lemma CleanDigits(s: string)
    requires AllDigits(s)
    ensures Clean(s) == s
  {
    DropBlanksDigits(s);
  }

  predicate AllSpace(s: string) {
    forall i :: 0 <= i < |s| ==> IsSpace(s[i])
  }

  lemma {:induction false} TrimLeftSpace(w: string, s: string)
    requires AllSpace(w)
    ensures TrimLeft(w + s) == TrimLeft(s)
  {
    if w == "" {
      assert w + s == s;
    } else {
      assert (w + s)[1..] == w[1..] + s;
      TrimLeftSpace(w[1..], s);
    }
  }

  lemma {:induction false} TrimRightSpace(s: string, v: string)
    requires AllSpace(v)
    ensures TrimRight(s + v) == TrimRight(s)
  {
    if v == "" {
      assert s + v == s;
    } else {
      assert (s + v)[..|s + v| - 1] == s + v[..|v| - 1];
      TrimRightSpace(s, v[..|v| - 1]);
    }
  }

  /** What trimming removes on the left is white space, and what it keeps starts without any. */
  lemma {:induction false} TrimLeftParts(s: string) returns (w: string)
    ensures AllSpace(w) && s == w + TrimLeft(s)
    ensures TrimLeft(s) == "" || !IsSpace(TrimLeft(s)[0])
  {
    if s != "" && IsSpace(s[0]) {
      w := TrimLeftParts(s[1..]);
      w := [s[0]] + w;
    } else {
      w := "";
    }
  }

  lemma SolidTrim(s: string)
    requires s == "" || (!IsSpace(s[0]) && !IsSpace(s[|s| - 1]))
    ensures TrimRight(TrimLeft(s)) == s
  {
  }

  /** White space around a code does not matter. */
  lemma CleanAround(w: string, s: string, v: string)
    requires AllSpace(w) && AllSpace(v)
    ensures Clean(w + s + v) == Clean(s)
  {
    assert w + s + v == w + (s + v);
    TrimLeftSpace(w, s + v);
    var u := TrimLeftParts(s);
    assert s + v == u + (TrimLeft(s) + v);
    TrimLeftSpace(u, TrimLeft(s) + v);
    TrimRightSpace(TrimLeft(s), v);
    if TrimLeft(s) != "" {
      assert TrimLeft(TrimLeft(s) + v) == TrimLeft(s) + v;
    } else {
      assert "" + v == v && v + "" == v;
      TrimLeftSpace(v, "");
    }
  }

  lemma {:induction false} DropBlanksAppend(a: string, b: string)
    ensures DropBlanks(a + b) == DropBlanks(a) + DropBlanks(b)
  {
    if a == "" {
      assert a + b == b;
    } else {
      assert (a + b)[1..] == a[1..] + b;
      DropBlanksAppend(a[1..], b);
    }
  }

  lemma OneBlank()
    ensures DropBlanks(" ") == ""
  {
  }

  lemma DropInside(a: string, gap: string, b: string)
    requires DropBlanks(gap) == ""
    ensures DropBlanks(a + gap + b) == DropBlanks(a + b)
  {
    DropBlanksAppend(a + gap, b);
    DropBlanksAppend(a, gap);
    DropBlanksAppend(a, b);
    assert DropBlanks(a) + "" == DropBlanks(a);
  }

  lemma SolidClean(s: string)
    requires s != "" && !IsSpace(s[0]) && !IsSpace(s[|s| - 1])
    ensures Clean(s) == DropBlanks(s)
  {
    SolidTrim(s);
  }

  /** A blank inside a code does not matter. */
  lemma CleanInside(a: string, b: string)
    requires a != "" && b != "" && !IsSpace(a[0]) && !IsSpace(b[|b| - 1])
    ensures Clean(a + " " + b) == Clean(a + b)
  {
    OneBlank();
    DropInside(a, " ", b);
    SolidClean(a + " " + b);
    SolidClean(a + b);
  }

  /** The defaults for unset parameters. */
  function DigitsOr(d: int): nat { if d <= 0 then 6 else d }
  function PeriodOr(p: int): int { if p <= 0 then 30 * NANOS else p }
  function WindowOr(w: int): nat { if w < 0 then 0 else w }

  /** The Unix time i periods from `now`; both are in nanoseconds. */
  function UnixAt(now: int, i: int, period: int): int {
    (now + i * period) / NANOS
  }

  /** Fractions of a second are cut off, towards the past. */
  lemma UnixAtExact(now: int, i: int, period: int)
    ensures UnixAt(now, i, period) * NANOS <= now + i * period < (UnixAt(now, i, period) + 1) * NANOS
  {
  }

  /** The code for step i of the window. */
  function StepCode(crypto: Crypto, secret: string, now: int, i: int, digits: nat, period: int): Option<string>
    requires period >= NANOS && Modulus(digits) != 0
  {
    TotpAt(crypto, secret, UnixAt(now, i, period), digits, period / NANOS)
  }

  predicate InWindow(crypto: Crypto, secret: string, code: string, now: int, digits: nat, period: int, window: int)
    requires period >= NANOS && Modulus(digits) != 0
  {
    exists i :: -window <= i <= window && StepCode(crypto, secret, now, i, digits, period) == Some(code)
  }

  /** VerifyTOTP. A period below a second would divide by zero, as would a zero modulus. */
  method VerifyTOTP(crypto: Crypto, secretBase32: string, rawCode: string, now: int, rawDigits: int,
                    rawPeriod: int, rawWindow: int) returns (ok: bool)
    requires PeriodOr(rawPeriod) >= NANOS && Modulus(DigitsOr(rawDigits)) != 0
    ensures ok <==> (Clean(rawCode) != "" && Clean(secretBase32) != "" &&
      InWindow(crypto, Clean(secretBase32), Clean(rawCode), now,
               DigitsOr(rawDigits), PeriodOr(rawPeriod), WindowOr(rawWindow)))
  {
    var code := Clean(rawCode);
    if code == "" {
      return false;
    }
    var secret := Clean(secretBase32);
    if secret == "" {
      return false;
    }
    var digits, period, window := rawDigits, rawPeriod, rawWindow;
    if digits <= 0 {
      digits := 6;
    }
    if period <= 0 {
      period := 30 * NANOS;
    }
    if window < 0 {
      window := 0;
    }
    var i := -window;
    while i <= window
      invariant -window <= i <= window + 1
      invariant forall j :: -window <= j < i ==> StepCode(crypto, secret, now, j, digits, period) != Some(code)
    {
      var t := UnixAt(now, i, period);
      var otp := ComputeTotp(crypto, secret, t, digits, period / NANOS);
      assert otp == StepCode(crypto, secret, now, i, digits, period);
      if otp == Some(code) {
        return true;
      }
      i := i + 1;
    }
    ok := false;
  }

  // ---- What the window means

  lemma MulMonotone(a: int, b: int, p: int)
    requires a <= b && p >= 0
    ensures a * p <= b * p
  {
  }

  lemma SmallMultiple(k: int, p: int)
    requires p > 0
    ensures k * p < p ==> k <= 0
    ensures -p < k * p ==> k >= 0
  {
    if k >= 1 {
      MulMonotone(1, k, p);
    } else if k <= -1 {
      MulMonotone(k, -1, p);
    }
  }

  lemma DivUnique(a: int, q: int, r: int, p: int)
    requires p > 0 && a == q * p + r && 0 <= r < p
    ensures a / p == q
  {
    assert (q - a / p) * p == a % p - r;
    SmallMultiple(q - a / p, p);
  }

  lemma DivMonotone(a: int, b: int, p: int)
    requires p > 0 && a <= b
    ensures a / p <= b / p
  {
    assert (a / p - b / p) * p == (a - b) - (a % p - b % p);
    SmallMultiple(a / p - b / p, p);
  }

  lemma DivShift(u: int, i: int, p: int)
    requires p > 0
    ensures (u + i * p) / p == u / p + i
  {
    assert u + i * p == (u / p + i) * p + u % p;
    DivUnique(u + i * p, u / p + i, u % p, p);
  }

  /** The counters of the whole window are representable. */
  predicate InRange(now: int, p: int, w: int)
    requires p >= 1
  {
    w >= 0 && now / NANOS - w * p >= 0 && now / NANOS / p + w < TWO64
  }

  /** Step i of the window looks at counter T + i. */
  lemma StepCounter(now: int, i: int, p: int, w: int)
    requires p >= 1 && InRange(now, p, w) && -w <= i <= w
    ensures UnixAt(now, i, p * NANOS) >= 0
    ensures UnixAt(now, i, p * NANOS) / p == now / NANOS / p + i
    ensures 0 <= now / NANOS / p + i < TWO64
  {
    var t := now / NANOS;
    assert now + i * (p * NANOS) == now + (i * p) * NANOS;
    DivShift(now, i * p, NANOS);
    DivShift(t, i, p);
    MulMonotone(-w, i, p);
    assert (-w) * p == -(w * p);
    DivMonotone(0, t + i * p, p);
  }

  lemma WholeSeconds(p: int)
    ensures p * NANOS / NANOS == p
  {
  }

  lemma StepInRange(crypto: Crypto, secret: string, key: seq<Byte>, now: int, digits: nat, p: int, w: int, i: int)
    requires p >= 1 && Modulus(digits) != 0 && FitsWord(digits) && crypto.decode(secret) == Some(key)
    requires InRange(now, p, w) && -w <= i <= w
    ensures now / NANOS / p + i >= 0
    ensures StepCode(crypto, secret, now, i, digits, p * NANOS) == Some(Hotp(crypto, key, now / NANOS / p + i, digits))
  {
    StepCounter(now, i, p, w);
    ExactIff(digits);
    WholeSeconds(p);
    CodeAtUnix(crypto, secret, key, UnixAt(now, i, p * NANOS), digits, p);
  }

  lemma CodeAtUnix(crypto: Crypto, secret: string, key: seq<Byte>, unix: nat, digits: nat, p: int)
    requires p >= 1 && Modulus(digits) != 0 && Exact(digits) && crypto.decode(secret) == Some(key)
    requires 0 <= unix / p < TWO64
    ensures TotpAt(crypto, secret, unix, digits, p) == Some(Hotp(crypto, key, unix / p, digits))
  {
    var counter := unix / p;
    assert TruncDiv(unix, p) == counter;
    WrapsNot(counter);
  }

  lemma WrapsNot(c: int)
    requires 0 <= c < TWO64
    ensures c % TWO64 == c
  {
  }

  /** The window for a period of p seconds. */
  predicate InSeconds(crypto: Crypto, secret: string, code: string, now: int, digits: nat, p: int, w: int)
    requires p >= 1 && Modulus(digits) != 0
  {
    InWindow(crypto, secret, code, now, digits, p * NANOS, w)
  }

  /** The 31-bit word of a MAC: the four bytes at the offset in its last nibble, without the top bit. */
  function Word(mac: Digest): nat {
    var o := mac[19] % 16;
    Number(mac[o..o + 4]) % TWO31
  }

  /** The HOTP code of a counter, as sections 5.2 and 5.3 of RFC 4226 define it: the counter is spelled in
      eight bytes, and the code is `digits` decimal characters with the value of the word of the
      message's MAC modulo 10^digits. */
  ghost predicate IsHotp(crypto: Crypto, key: seq<Byte>, counter: nat, digits: nat, code: string) {
    && |code| == digits && AllDigits(code)
    && exists message: seq<Byte> ::
         |message| == 8 && Number(message) == counter && Value(code) == Word(crypto.hmac(key, message)) % Pow10(digits)
  }

  /** It is the code that the functions above compute. */
  lemma HotpMeans(crypto: Crypto, key: seq<Byte>, counter: nat, digits: nat, code: string)
    requires 1 <= digits && counter < TWO64
    ensures IsHotp(crypto, key, counter, digits, code) <==> code == Hotp(crypto, key, counter, digits)
  {
    EightBytes();
    var message := BigEndian(counter, 8);
    TruncateWord(crypto.hmac(key, message));
    HotpDigits(crypto, key, counter, digits);
    if IsHotp(crypto, key, counter, digits, code) {
      var m: seq<Byte> :| |m| == 8 && Number(m) == counter && Value(code) == Word(crypto.hmac(key, m)) % Pow10(digits);
      NumberInjective(m, message);
      SameLengthUnique(code, Hotp(crypto, key, counter, digits));
    }
  }

  /** For periods of whole seconds, digit counts that fit and counters in range, some step of the window
      has the code exactly when it is the HOTP code of a counter in [T - w, T + w]. */
  lemma WindowIsCounters(crypto: Crypto, secret: string, key: seq<Byte>, code: string, now: int,
                         digits: nat, p: int, w: int)
    requires p >= 1 && 1 <= digits && Modulus(digits) != 0 && FitsWord(digits) && crypto.decode(secret) == Some(key)
    requires InRange(now, p, w)
    ensures InSeconds(crypto, secret, code, now, digits, p, w) <==>
      exists c: nat :: now / NANOS / p - w <= c <= now / NANOS / p + w && IsHotp(crypto, key, c, digits, code)
  {
    if i :| -w <= i <= w && StepCode(crypto, secret, now, i, digits, p * NANOS) == Some(code) {
      StepInRange(crypto, secret, key, now, digits, p, w, i);
      StepCounter(now, i, p, w);
      HotpMeans(crypto, key, now / NANOS / p + i, digits, code);
      assert IsHotp(crypto, key, now / NANOS / p + i, digits, code);
    }
    if c: nat :| now / NANOS / p - w <= c <= now / NANOS / p + w && IsHotp(crypto, key, c, digits, code) {
      CounterInWindow(crypto, secret, key, code, now, digits, p, w, c);
    }
  }

  lemma CounterInWindow(crypto: Crypto, secret: string, key: seq<Byte>, code: string, now: int,
                        digits: nat, p: int, w: int, c: nat)
    requires p >= 1 && 1 <= digits && Modulus(digits) != 0 && FitsWord(digits) && crypto.decode(secret) == Some(key)
    requires InRange(now, p, w) && now / NANOS / p - w <= c <= now / NANOS / p + w
    requires IsHotp(crypto, key, c, digits, code)
    ensures InSeconds(crypto, secret, code, now, digits, p, w)
  {
    var i := c - now / NANOS / p;
    StepCounter(now, i, p, w);
    HotpMeans(crypto, key, c, digits, code);
    StepInRange(crypto, secret, key, now, digits, p, w, i);
    assert StepCode(crypto, secret, now, i, digits, p * NANOS) == Some(code);
  }

  predicate Near(t: int, s: int, p: int, w: int) {
    -(w * p) <= t - s <= w * p
  }

  /** The time step of a Unix time. */
  function StepOf(unix: nat, p: int): nat
    requires p >= 1
  {
    unix / p
  }

  /** The code made at Unix time s is accepted at every t up to w periods away ... */
  lemma CodeAccepted(crypto: Crypto, secret: string, key: seq<Byte>, code: string, s: nat, now: int,
                     digits: nat, p: int, w: int)
    requires p >= 1 && 1 <= digits && Modulus(digits) != 0 && FitsWord(digits) && crypto.decode(secret) == Some(key)
    requires InRange(now, p, w) && Near(now / NANOS, s, p, w)
    requires IsHotp(crypto, key, StepOf(s, p), digits, code)
    ensures Clean(code) == code && code != "" && InSeconds(crypto, secret, code, now, digits, p, w)
  {
    CleanDigits(code);
    CounterNear(s, now / NANOS, p, w);
    WindowIsCounters(crypto, secret, key, code, now, digits, p, w);
  }

  lemma CounterNear(s: int, t: int, p: int, w: int)
    requires p >= 1 && Near(t, s, p, w)
    ensures t / p - w <= s / p <= t / p + w
  {
    DivShift(s, w, p);
    DivShift(s, -w, p);
    DivMonotone(t, s + w * p, p);
    DivMonotone(s + (-w) * p, t, p);
  }

  /** ... and from w + 1 periods away its counter is outside the window. */
  lemma CodeExpired(s: nat, t: nat, p: int, w: nat)
    requires p >= 1 && (t - s >= (w + 1) * p || s - t >= (w + 1) * p)
    ensures !(t / p - w <= s / p <= t / p + w)
  {
    if t - s >= (w + 1) * p {
      DivShift(s, w + 1, p);
      DivMonotone(s + (w + 1) * p, t, p);
    } else {
      DivShift(t, w + 1, p);
      DivMonotone(t + (w + 1) * p, s, p);
    }
  }
}
