/** Positional numerals, most significant digit first, as JavaScript's `BigInt(...)` and
    `toString(base)` read and write them, and the character order of such numerals. */
module Numerals {

  // ----- powers -----

  function Pow(base: nat, e: nat): nat {
    if e == 0 then 1 else base * Pow(base, e - 1)
  }

  lemma {:induction false} PowPositive(base: nat, e: nat)
    requires 0 < base
    ensures 0 < Pow(base, e)
  {
    if e > 0 {
      PowPositive(base, e - 1);
      MulPositive(base, Pow(base, e - 1));
    }
  }

  lemma MulPositive(x: nat, y: nat)
    requires 0 < x && 0 < y
    ensures 0 < x * y
  {}

  lemma {:induction false} PowAdd(base: nat, a: nat, b: nat)
    ensures Pow(base, a + b) == Pow(base, a) * Pow(base, b)
  {
    if a > 0 {
      PowAdd(base, a - 1, b);
      calc {
        Pow(base, a + b);
        base * (Pow(base, a - 1) * Pow(base, b));
        { MulAssoc(base, Pow(base, a - 1), Pow(base, b)); }
        (base * Pow(base, a - 1)) * Pow(base, b);
      }
    }
  }

  lemma MulAssoc(x: int, y: int, z: int)
    ensures x * (y * z) == (x * y) * z
  {}

  lemma MulMonotone(x: int, y: int, m: int)
    requires x <= y && 0 <= m
    ensures x * m <= y * m
  {}

  // ----- digits -----

  /** The value of a digit in any base up to 16; 16 for a character that is no digit. */
  function Value(c: char): (v: nat)
    ensures v <= 16
  {
    if '0' <= c <= '9' then c as int - '0' as int
    else if 'a' <= c <= 'f' then c as int - 'a' as int + 10
    else if 'A' <= c <= 'F' then c as int - 'A' as int + 10
    else 16
  }

  function Digit(d: nat): (c: char)
    requires d < 16
    ensures Value(c) == d && (d < 10 ==> '0' <= c <= '9')
  {
    if d < 10 then '0' + d as char else 'a' + (d - 10) as char
  }

  predicate AllDigits(s: string, base: nat) {
    forall i | 0 <= i < |s| :: Value(s[i]) < base
  }

  function Parse(s: string, base: nat): nat {
    if s == [] then 0 else Parse(s[..|s| - 1], base) * base + Value(s[|s| - 1])
  }

  function Print(n: nat, base: nat): (s: string)
    requires 2 <= base <= 16
    ensures s != [] && AllDigits(s, base)
  {
    if n < base then [Digit(n)] else Print(n / base, base) + [Digit(n % base)]
  }

  function Zeros(n: nat): (s: string)
    ensures |s| == n
  {
    seq(n, _ => '0')
  }

  lemma PrintParts(n: nat, base: nat) returns (q: nat, r: nat)
    requires 2 <= base <= 16 && base <= n
    ensures r < base && q < n && q * base + r == n
    ensures Print(n, base) == Print(q, base) + [Digit(r)]
  {
    q, r := n / base, n % base;
  }

  lemma ParseSnoc(s: string, c: char, base: nat)
    ensures Parse(s + [c], base) == Parse(s, base) * base + Value(c)
  {
    assert (s + [c])[..|s + [c]| - 1] == s;
  }

  lemma ParseDigit(d: nat, base: nat)
    requires d < 16
    ensures Parse([Digit(d)], base) == d
  {
    assert [Digit(d)] == [] + [Digit(d)];
    ParseSnoc([], Digit(d), base);
  }

  /** Reading back a printed number gives the number. */
  lemma {:induction false} ParsePrint(n: nat, base: nat)
    requires 2 <= base <= 16
    ensures Parse(Print(n, base), base) == n
  {
    if n < base {
      ParseDigit(n, base);
    } else {
      var q, r := PrintParts(n, base);
      ParsePrint(q, base);
      ParseSnoc(Print(q, base), Digit(r), base);
    }
  }

  lemma {:induction false} ParseAppend(a: string, b: string, base: nat)
    ensures Parse(a + b, base) == Parse(a, base) * Pow(base, |b|) + Parse(b, base)
  {
    if b == [] {
      assert a + b == a;
    } else {
      var b', c := b[..|b| - 1], b[|b| - 1];
      assert b == b' + [c] && a + b == (a + b') + [c];
      ParseAppend(a, b', base);
      ParseSnoc(a + b', c, base);
      ParseSnoc(b', c, base);
      Horner(Parse(a, base), Pow(base, |b'|), Parse(b', base), base);
    }
  }

  lemma Horner(x: int, p: int, y: int, base: int)
    ensures (x * p + y) * base == x * (base * p) + y * base
  {
    MulAssoc(x, p, base);
  }

  lemma ParseCons(c: char, s: string, base: nat)
    ensures Parse([c] + s, base) == Value(c) * Pow(base, |s|) + Parse(s, base)
  {
    ParseAppend([c], s, base);
    assert [c][..0] == [];
  }

  lemma {:induction false} ParseZeros(n: nat, base: nat)
    ensures Parse(Zeros(n), base) == 0
  {
    if n > 0 {
      ParseZeros(n - 1, base);
      assert Zeros(n)[..n - 1] == Zeros(n - 1);
    }
  }

  /** Leading zeros do not change the value. */
  lemma ParsePadded(n: nat, s: string, base: nat)
    ensures Parse(Zeros(n) + s, base) == Parse(s, base)
  {
    ParseAppend(Zeros(n), s, base);
    ParseZeros(n, base);
  }

  lemma {:induction false} ParseBound(s: string, base: nat)
    requires 0 < base && AllDigits(s, base)
    ensures Parse(s, base) < Pow(base, |s|)
  {
    if s != [] {
      var s', c := s[..|s| - 1], s[|s| - 1];
      assert s == s' + [c];
      ParseBound(s', base);
      ParseSnoc(s', c, base);
      SnocBound(Parse(s', base), Value(c), Pow(base, |s'|), base);
    }
  }

  lemma SnocBound(x: nat, v: nat, p: nat, base: nat)
    requires x < p && v < base
    ensures x * base + v < base * p
  {
    MulMonotone(x + 1, p, base);
  }

  /** A numeral without a superfluous leading zero: what `toString` writes. */
  predicate Canonical(s: string, base: nat) {
    s != [] && AllDigits(s, base) && (s[0] == '0' ==> |s| == 1)
  }

  lemma {:induction false} PrintCanonical(n: nat, base: nat)
    requires 2 <= base <= 16
    ensures Canonical(Print(n, base), base)
    ensures 0 < n ==> Value(Print(n, base)[0]) > 0
  {
    if n >= base {
      PrintCanonical(n / base, base);
    }
  }

  /** A numeral of `k` digits with a non-zero first digit is at least base^(k-1). */
  lemma LeadingDigit(s: string, base: nat)
    requires 0 < base && s != [] && Value(s[0]) > 0
    ensures Pow(base, |s| - 1) <= Parse(s, base)
  {
    assert s == [s[0]] + s[1..];
    ParseCons(s[0], s[1..], base);
    MulMonotone(1, Value(s[0]), Pow(base, |s| - 1));
  }

  lemma {:induction false} PowMonotone(base: nat, a: nat, b: nat)
    requires 0 < base && a <= b
    ensures Pow(base, a) <= Pow(base, b)
    decreases b - a
  {
    if a < b {
      PowMonotone(base, a, b - 1);
      PowPositive(base, b - 1);
      MulMonotone(1, base, Pow(base, b - 1));
    }
  }

  /** `Print(n)` has at most `k` digits exactly when `n` is below base^k. */
  lemma PrintLength(n: nat, base: nat, k: nat)
    requires 2 <= base <= 16 && 0 < k
    ensures |Print(n, base)| <= k <==> n < Pow(base, k)
  {
    var s := Print(n, base);
    ParsePrint(n, base);
    ParseBound(s, base);
    if |s| <= k {
      PowMonotone(base, |s|, k);
    } else {
      PrintCanonical(n, base);
      if 0 < n {
        LeadingDigit(s, base);
        PowMonotone(base, k, |s| - 1);
      }
    }
  }

  // ----- character order -----

  /** The order in which a text column compares two values. */
  predicate LexLe(a: string, b: string) {
    a == [] || (b != [] && (a[0] < b[0] || (a[0] == b[0] && LexLe(a[1..], b[1..]))))
  }

  predicate Decimal(s: string) {
    forall i | 0 <= i < |s| :: '0' <= s[i] <= '9'
  }

  lemma {:induction false} PrintDecimal(n: nat)
    ensures Decimal(Print(n, 10))
  {
    if n >= 10 {
      PrintDecimal(n / 10);
    }
  }

  lemma FirstDigitDecides(c: char, d: char, s: string, t: string)
    requires '0' <= c <= '9' && '0' <= d <= '9' && |s| == |t| && Decimal(s) && Decimal(t)
    ensures c < d ==> Parse([c] + s, 10) < Parse([d] + t, 10)
  {
    hide Parse, Pow;
    ParseCons(c, s, 10);
    ParseCons(d, t, 10);
    ParseBound(s, 10);
    if c < d {
      MulMonotone(Value(c) + 1, Value(d), Pow(10, |s|));
      MulNext(Value(c), Pow(10, |s|));
    }
  }

  lemma MulNext(x: int, m: int)
    ensures (x + 1) * m == x * m + m
  {}

  lemma SameFirstDigit(c: char, s: string, t: string)
    requires |s| == |t|
    ensures Parse([c] + s, 10) <= Parse([c] + t, 10) <==> Parse(s, 10) <= Parse(t, 10)
  {
    ParseCons(c, s, 10);
    ParseCons(c, t, 10);
  }

  /** For digit strings of equal length, character order is numeric order. */
  lemma {:induction false} LexIsNumeric(a: string, b: string)
    requires |a| == |b| && Decimal(a) && Decimal(b)
    ensures LexLe(a, b) <==> Parse(a, 10) <= Parse(b, 10)
  {
    hide Pow, Value;
    if a != [] {
      LexIsNumeric(a[1..], b[1..]);
      FirstDigitDecides(a[0], b[0], a[1..], b[1..]);
      FirstDigitDecides(b[0], a[0], b[1..], a[1..]);
      assert a == [a[0]] + a[1..] && b == [b[0]] + b[1..];
      SameFirstDigit(a[0], a[1..], b[1..]);
    }
  }

  function Min(a: nat, b: nat): nat { if a <= b then a else b }

  /** Character order in general: compare the common prefix as numbers, then the lengths. */
  lemma {:induction false} LexByPrefix(a: string, b: string)
    requires Decimal(a) && Decimal(b)
    ensures var k := Min(|a|, |b|); var p, q := Parse(a[..k], 10), Parse(b[..k], 10);
      LexLe(a, b) <==> p < q || (p == q && |a| <= |b|)
  {
    var k := Min(|a|, |b|);
    LexSplit(a, b, k);
    LexIsNumeric(a[..k], b[..k]);
    LexIsNumeric(b[..k], a[..k]);
    LexAntisymmetric(a[..k], b[..k]);
    if |a| <= |b| {
      assert a[k..] == [];
    } else {
      assert b[k..] == [] && a[k..] != [];
    }
  }

  lemma {:induction false} LexSplit(a: string, b: string, k: nat)
    requires k <= |a| && k <= |b|
    ensures LexLe(a, b) <==> (LexLe(a[..k], b[..k]) && (a[..k] == b[..k] ==> LexLe(a[k..], b[k..])))
  {
    if k > 0 {
      LexSplit(a[1..], b[1..], k - 1);
      assert a[..k][1..] == a[1..][..k - 1] && b[..k][1..] == b[1..][..k - 1];
      assert a[k..] == a[1..][k - 1..] && b[k..] == b[1..][k - 1..];
      assert a[..k] == [a[0]] + a[..k][1..] && b[..k] == [b[0]] + b[..k][1..];
    } else {
      assert a[k..] == a && b[k..] == b;
    }
  }

  lemma {:induction false} LexAntisymmetric(a: string, b: string)
    requires |a| == |b|
    ensures LexLe(a, b) && LexLe(b, a) <==> a == b
  {
    if a != [] {
      LexAntisymmetric(a[1..], b[1..]);
      assert a == [a[0]] + a[1..] && b == [b[0]] + b[1..];
    }
  }
}
