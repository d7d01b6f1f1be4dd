/** Decimal ETH amounts as wei (apps/web/lib/abi.ts): fixed-point parsing, its hexadecimal form,
    and reading hexadecimal back. */
module Wei {
  import opened Options
  import opened Numerals
  import opened Texts

  // ----- splitting and trimming -----

  /** The part before the first `c`, or everything. */
  function Before(s: string, c: char): (r: string)
    ensures |r| <= |s| && (|r| < |s| ==> s[|r|] == c)
  {
    if s == [] || s[0] == c then [] else [s[0]] + Before(s[1..], c)
  }

  lemma {:induction false} BeforeFirst(a: string, c: char, b: string)
    requires c !in a
    ensures Before(a + [c] + b, c) == a && Before(a, c) == a
  {
    if a != [] {
      BeforeFirst(a[1..], c, b);
      assert (a + [c] + b)[1..] == a[1..] + [c] + b;
      assert a == [a[0]] + a[1..];
    }
  }

  lemma {:induction false} TrimEndKeeps(a: string, c: char, b: string)
    requires !IsSpace(c)
    ensures TrimEnd(a + [c] + b) == a + [c] + TrimEnd(b)
  {
    var s := a + [c] + b;
    if b == [] {
      assert s[|s| - 1] == c;
      assert s == a + [c] + [];
    } else {
      assert s[|s| - 1] == b[|b| - 1];
      if IsSpace(b[|b| - 1]) {
        assert s[..|s| - 1] == a + [c] + b[..|b| - 1];
        TrimEndKeeps(a, c, b[..|b| - 1]);
      }
    }
  }

  // ----- parsing -----

  /** The source's "Invalid ETH amount" error is None. */
  const WEI_DIGITS: nat := 18

  function Whole(s: string): string { Before(s, '.') }

  /** The second of the parts between dots; later parts are never looked at. */
  function Fraction(s: string): string {
    var rest := s[|Before(s, '.')|..];
    if rest == [] then [] else Before(rest[1..], '.')
  }

  function WholeOrZero(s: string): string {
    if Whole(s) == "" then "0" else Whole(s)
  }

  function ToWei(ethAmount: string): Option<nat> {
    var s := Trim(ethAmount);
    var whole, fraction := WholeOrZero(s), Fraction(s);
    if !Decimal(whole) || !Decimal(fraction) then None
    else Some(WeiOf(whole, fraction))
  }

  function WeiOf(whole: string, fraction: string): nat {
    var padded := (fraction + Zeros(WEI_DIGITS))[..WEI_DIGITS];
    Parse(whole, 10) * Pow(10, WEI_DIGITS) + Parse(padded, 10)
  }

  function ToHexWei(ethAmount: string): Option<string> {
    match ToWei(ethAmount)
    case None => None
    case Some(wei) => Some("0x" + Print(wei, 16))
  }

  /** `BigInt` of a string with a hexadecimal prefix; None is its SyntaxError. */
  function HexToBigInt(hexValue: string): Option<nat> {
    var normalized := if "0x" <= hexValue then hexValue else "0x" + hexValue;
    var digits := TrimEnd(normalized[2..]);
    if digits != [] && AllDigits(digits, 16) then Some(Parse(digits, 16)) else None
  }

  // ----- exact truncation -----

  /** The value of an accepted amount is `Numerator / 10^|Fraction|`. */
  function Numerator(s: string): nat {
    Parse(WholeOrZero(s) + Fraction(s), 10)
  }

  lemma PadShort(f: string)
    requires |f| <= WEI_DIGITS
    ensures Parse((f + Zeros(WEI_DIGITS))[..WEI_DIGITS], 10) == Parse(f, 10) * Pow(10, WEI_DIGITS - |f|)
  {
    hide Pow, Parse;
    var zeros := Zeros(WEI_DIGITS - |f|);
    assert (f + Zeros(WEI_DIGITS))[..WEI_DIGITS] == f + zeros;
    ParseAppend(f, zeros, 10);
    ParseZeros(WEI_DIGITS - |f|, 10);
  }

  lemma Distribute(a: int, b: int, c: int)
    ensures (a + b) * c == a * c + b * c
  {}

  lemma Swap(a: int, b: int, c: int)
    ensures (a * b) * c == (a * c) * b
  {
    MulAssoc(a, b, c);
    MulAssoc(a, c, b);
  }

  /** Short fractions are exact. */
  lemma ShortIsExact(w: nat, f: nat, p: nat, q: nat, r: nat)
    requires p == q * r
    ensures (w * p + f * r) * q == (w * q + f) * p
  {
    Distribute(w * p, f * r, q);
    Swap(w, p, q);
    Distribute(w * q, f, p);
    MulAssoc(f, r, q);
  }

  /** Long fractions lose their tail `t`, which is below one unit. */
  lemma LongIsFloor(v: nat, t: nat, p: nat, q: nat)
    requires t < q && p > 0
    ensures v * (p * q) <= (v * q + t) * p < (v + 1) * (p * q)
  {
    Distribute(v * q, t, p);
    MulAssoc(v, q, p);
    StrictlyLess(t, q, p);
    Distribute(v, 1, p * q);
  }

  lemma StrictlyLess(x: int, y: int, m: int)
    requires x < y && m > 0
    ensures x * m < y * m
  {}

  predicate IsFloor(wei: nat, numerator: nat, unit: nat) {
    wei * unit <= numerator * Pow(10, WEI_DIGITS) < (wei + 1) * unit
  }

  lemma ShortFloor(whole: string, f: string)
    requires |f| <= WEI_DIGITS
    ensures IsFloor(WeiOf(whole, f), Parse(whole + f, 10), Pow(10, |f|))
  {
    hide Pow, Parse;
    ParseAppend(whole, f, 10);
    PowPositive(10, |f|);
    PadShort(f);
    PowAdd(10, |f|, WEI_DIGITS - |f|);
    ShortIsExact(Parse(whole, 10), Parse(f, 10), Pow(10, WEI_DIGITS), Pow(10, |f|), Pow(10, WEI_DIGITS - |f|));
    StrictlyLess(WeiOf(whole, f), WeiOf(whole, f) + 1, Pow(10, |f|));
  }

  lemma LongFloor(whole: string, f: string)
    requires |f| > WEI_DIGITS && Decimal(f)
    ensures IsFloor(WeiOf(whole, f), Parse(whole + f, 10), Pow(10, |f|))
  {
    hide Pow, Parse;
    var extra := |f| - WEI_DIGITS;
    var kept, tail := f[..WEI_DIGITS], f[WEI_DIGITS..];
    assert f == kept + tail && (f + Zeros(WEI_DIGITS))[..WEI_DIGITS] == kept;
    var w, k, t, p, q := Parse(whole, 10), Parse(kept, 10), Parse(tail, 10), Pow(10, WEI_DIGITS), Pow(10, extra);
    ParseAppend(whole, f, 10);
    ParseAppend(kept, tail, 10);
    ParseBound(tail, 10);
    PowPositive(10, WEI_DIGITS);
    PowAdd(10, WEI_DIGITS, extra);
    Regroup(w, k, t, p, q);
    LongIsFloor(w * p + k, t, p, q);
  }

  /** The result is the value times 10^18, rounded down: `wei <= value * 10^18 < wei + 1`. */
  lemma WeiIsFloor(ethAmount: string)
    requires ToWei(ethAmount).Some?
    ensures var s := Trim(ethAmount); IsFloor(ToWei(ethAmount).value, Numerator(s), Pow(10, |Fraction(s)|))
  {
    hide Pow, Parse, WeiOf, IsFloor;
    var s := Trim(ethAmount);
    if |Fraction(s)| <= WEI_DIGITS {
      ShortFloor(WholeOrZero(s), Fraction(s));
    } else {
      LongFloor(WholeOrZero(s), Fraction(s));
    }
  }

  lemma Regroup(w: nat, kept: nat, tail: nat, p: nat, q: nat)
    ensures w * (p * q) + (kept * q + tail) == (w * p + kept) * q + tail
  {
    Distribute(w * p, kept, q);
    MulAssoc(w, p, q);
  }

  /** A larger value never gives fewer wei. */
  lemma WeiMonotone(a: string, b: string)
    requires ToWei(a).Some? && ToWei(b).Some?
    requires Numerator(Trim(a)) * Pow(10, |Fraction(Trim(b))|) <= Numerator(Trim(b)) * Pow(10, |Fraction(Trim(a))|)
    ensures ToWei(a).value <= ToWei(b).value
  {
    hide Pow, Trim, Fraction, ToWei, Numerator;
    WeiIsFloor(a);
    WeiIsFloor(b);
    PowPositive(10, |Fraction(Trim(a))|);
    PowPositive(10, |Fraction(Trim(b))|);
    FloorsOrdered(ToWei(a).value, ToWei(b).value, Numerator(Trim(a)), Numerator(Trim(b)),
                  Pow(10, |Fraction(Trim(a))|), Pow(10, |Fraction(Trim(b))|), Pow(10, WEI_DIGITS));
  }

  lemma FloorsOrdered(v: nat, w: nat, m: nat, n: nat, p: nat, q: nat, scale: nat)
    requires p > 0 && q > 0 && m * q <= n * p
    requires v * p <= m * scale && n * scale < (w + 1) * q
    ensures v <= w
  {
    calc {
      (v * p) * q;
    <= { MulMonotone(v * p, m * scale, q); }
      (m * scale) * q;
    == { Swap(m, scale, q); }
      (m * q) * scale;
    <= { MulMonotone(m * q, n * p, scale); }
      (n * p) * scale;
    == { Swap(n, p, scale); }
      (n * scale) * p;
    < { StrictlyLess(n * scale, (w + 1) * q, p); }
      ((w + 1) * q) * p;
    == { Swap(w + 1, q, p); }
      ((w + 1) * p) * q;
    }
    if v > w {
      MulMonotone(w + 1, v, p);
      MulMonotone((w + 1) * p, v * p, q);
    }
  }

  // ----- round trips -----

  /** A wei amount printed with all eighteen digits. */
  function FormatWei(wei: nat): string {
    var unit := UnitPositive();
    Print(wei / unit, 10) + "." + PadTo(Print(wei % unit, 10), WEI_DIGITS)
  }

  function UnitPositive(): (unit: nat)
    ensures unit == Pow(10, WEI_DIGITS) && unit > 0
  {
    PowPositive(10, WEI_DIGITS);
    Pow(10, WEI_DIGITS)
  }

  function PadTo(s: string, n: nat): string {
    if |s| < n then Zeros(n - |s|) + s else s
  }

  lemma DecimalHasNoDot(s: string)
    requires Decimal(s)
    ensures '.' !in s && forall i | 0 <= i < |s| :: !IsSpace(s[i])
  {}

  lemma TwoFields(a: string, b: string)
    requires Decimal(a) && Decimal(b) && (a != [] || b != [])
    ensures Trim(a + "." + b) == a + "." + b
    ensures Whole(a + "." + b) == a && Fraction(a + "." + b) == b
  {
    var s := a + "." + b;
    DecimalHasNoDot(a);
    DecimalHasNoDot(b);
    NothingToTrim(s);
    BeforeFirst(a, '.', b);
    assert s == a + ['.'] + b;
    assert s[|a|..][1..] == b;
    BeforeFirst(b, '.', "");
  }

  /** Parsing inverts printing. */
  lemma ParseFormatted(wei: nat)
    ensures ToWei(FormatWei(wei)) == Some(wei)
  {
    hide Pow, ToWei, PadTo;
    var unit := UnitPositive();
    var q, r := wei / unit, wei % unit;
    DivideBack(wei, unit);
    ParseParts(q, r);
  }

  lemma ParseParts(q: nat, r: nat)
    requires r < Pow(10, WEI_DIGITS)
    ensures ToWei(Print(q, 10) + "." + PadTo(Print(r, 10), WEI_DIGITS)) == Some(q * Pow(10, WEI_DIGITS) + r)
  {
    hide Pow, Parse, Trim, Fraction, Whole;
    var a, b := Print(q, 10), PadTo(Print(r, 10), WEI_DIGITS);
    PrintDecimal(q);
    PrintDecimal(r);
    PrintLength(r, 10, WEI_DIGITS);
    ParsePrint(q, 10);
    ParsePrint(r, 10);
    ParsePadded(WEI_DIGITS - |Print(r, 10)|, Print(r, 10), 10);
    assert |b| == WEI_DIGITS && Decimal(b);
    TwoFields(a, b);
    assert (b + Zeros(WEI_DIGITS))[..WEI_DIGITS] == b;
  }

  lemma DivideBack(n: nat, d: nat)
    requires d > 0
    ensures (n / d) * d + n % d == n
  {}

  /** The hexadecimal form exists for the same texts, and reading it back gives the same amount. */
  lemma HexRoundTrip(ethAmount: string)
    ensures match ToHexWei(ethAmount)
            case None => ToWei(ethAmount).None?
            case Some(hex) => ToWei(ethAmount).Some? && HexToBigInt(hex) == ToWei(ethAmount)
  {
    if ToWei(ethAmount).None? {
      return;
    }
    var wei := ToWei(ethAmount).value;
    var digits := Print(wei, 16);
    ParsePrint(wei, 16);
    var s := "0x" + digits;
    HexHasNoSpace(digits);
    assert !IsSpace(s[|s| - 1]);
    assert s[2..] == digits;
  }

  lemma HexHasNoSpace(s: string)
    requires AllDigits(s, 16)
    ensures forall i | 0 <= i < |s| :: !IsSpace(s[i])
  {}

  // ----- what is accepted -----

  /** A text without a dot is an amount exactly if it is all digits; nothing at all is zero. */
  lemma WholeAmount(a: string)
    requires '.' !in a && Trim(a) == a
    ensures ToWei(a) == if Decimal(a) then Some(Parse(a, 10) * 1_000_000_000_000_000_000) else None
  {
    hide Pow, Parse, Trim, WeiOf, Whole, Fraction;
    NoFraction(a);
    if Decimal(a) {
      WholeWei(a);
    }
  }

  lemma WholeWei(a: string)
    requires Decimal(a)
    ensures WeiOf(if a == "" then "0" else a, "") == Parse(a, 10) * 1_000_000_000_000_000_000
  {
    hide Pow, Parse;
    PowEighteen();
    ParseZeros(WEI_DIGITS, 10);
    ParseZeros(0, 10);
    ParseZeros(1, 10);
    assert Zeros(0) == "" && Zeros(1) == "0";
    assert ("" + Zeros(WEI_DIGITS))[..WEI_DIGITS] == Zeros(WEI_DIGITS);
  }

  lemma {:induction false} NoFraction(a: string)
    requires '.' !in a
    ensures Whole(a) == a && Fraction(a) == ""
  {
    BeforeFirst(a, '.', "");
  }

  lemma PowEighteen()
    ensures Pow(10, 18) == 1_000_000_000_000_000_000
  {
    PowAdd(10, 9, 9);
    assert Pow(10, 3) == 1000;
    PowAdd(10, 3, 3);
    PowAdd(10, 6, 3);
  }

  /** A text with one dot is an amount exactly if both sides are all digits, one side or both may be
      empty; the amount is the value times 10^18, rounded down. */
  lemma DecimalAmount(a: string, b: string)
    requires '.' !in a && '.' !in b && Trim(a + "." + b) == a + "." + b
    ensures ToWei(a + "." + b).Some? <==> Decimal(a) && Decimal(b)
    ensures Decimal(a) && Decimal(b) ==>
              var wei := ToWei(a + "." + b).value;
              wei * Pow(10, |b|) <= Parse(a + b, 10) * 1_000_000_000_000_000_000 < (wei + 1) * Pow(10, |b|)
  {
    hide Pow, Parse, Trim, WeiOf, Before;
    var s := a + "." + b;
    assert s == a + ['.'] + b;
    BeforeFirst(a, '.', b);
    assert s[|a|..][1..] == b;
    BeforeFirst(b, '.', "");
    if Decimal(a) && Decimal(b) {
      WeiIsFloor(s);
      PowEighteen();
      LeadingZero(b);
      assert "" + b == b;
    }
  }

  lemma LeadingZero(b: string)
    requires Decimal(b)
    ensures Parse("0" + b, 10) == Parse(b, 10)
  {
    ParsePadded(1, b, 10);
    assert Zeros(1) == "0";
  }

  /** Text after a second dot is ignored, so some malformed amounts are accepted. */
  lemma SecondDotIgnored(a: string, b: string, rest: string)
    requires Decimal(a) && Decimal(b) && (a != [] || b != [])
    ensures ToWei(a + "." + b + "." + rest) == ToWei(a + "." + b)
  {
    hide Trim, Whole, Fraction, WeiOf;
    TwoFields(a, b);
    ThreeFieldsTrim(a, b, rest);
    ThreeFields(a, b, TrimEnd(rest));
  }

  lemma ThreeFieldsTrim(a: string, b: string, rest: string)
    requires Decimal(a) && Decimal(b) && (a != [] || b != [])
    ensures Trim(a + "." + b + "." + rest) == a + "." + b + "." + TrimEnd(rest)
  {
    hide TrimEnd;
    var s := a + "." + b + "." + rest;
    DecimalHasNoDot(a);
    assert s[0] == if a == [] then '.' else a[0];
    assert TrimStart(s) == s;
    assert s == (a + "." + b) + ['.'] + rest;
    TrimEndKeeps(a + "." + b, '.', rest);
    assert (a + "." + b) + ['.'] + TrimEnd(rest) == a + "." + b + "." + TrimEnd(rest);
  }

  lemma ThreeFields(a: string, b: string, rest: string)
    requires Decimal(a) && Decimal(b)
    ensures Whole(a + "." + b + "." + rest) == a && Fraction(a + "." + b + "." + rest) == b
  {
    hide Before;
    var t := a + "." + b + "." + rest;
    DecimalHasNoDot(a);
    DecimalHasNoDot(b);
    assert t == a + ['.'] + (b + "." + rest);
    BeforeFirst(a, '.', b + "." + rest);
    assert t[|a|..][1..] == b + ['.'] + rest;
    BeforeFirst(b, '.', rest);
  }

  lemma TwoDotsAccepted()
    ensures ToWei("1.2.3") == ToWei("1.2") && ToWei("1.2.3").Some?
  {
    hide Pow, Parse, Trim, Fraction, Whole, Before;
    SecondDotIgnored("1", "2", "3");
    TwoFields("1", "2");
    assert "1" + "." + "2" + "." + "3" == "1.2.3" && "1" + "." + "2" == "1.2";
  }
}
