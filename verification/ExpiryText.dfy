/** Expiry times are stored as decimal text, and the expiry sweeps compare them with the clock's text. */
module ExpiryText {
  import opened Numerals

  /** The text comparison of the sweep decides as the numbers would. */
  predicate SweepAgrees(expiresAt: nat, now: nat) {
    LexLe(Print(expiresAt, 10), Print(now, 10)) <==> expiresAt <= now
  }

  lemma {:induction false} PrintLengthMonotone(m: nat, n: nat)
    requires m <= n
    ensures |Print(m, 10)| <= |Print(n, 10)|
  {
    if m >= 10 {
      PrintLengthMonotone(m / 10, n / 10);
    }
  }

  /** The sweep's text comparison is right exactly when the two numerals are equally long, or
      the shorter one is not beyond the same number of leading digits of the longer one. */
  lemma SweepAgreesExactly(expiresAt: nat, now: nat)
    ensures var e, t := Print(expiresAt, 10), Print(now, 10);
      SweepAgrees(expiresAt, now) <==>
        (|e| == |t| || (|e| < |t| && Parse(e, 10) <= Parse(t[..|e|], 10))
                    || (|e| > |t| && Parse(t, 10) <= Parse(e[..|t|], 10)))
  {
    var e, t := Print(expiresAt, 10), Print(now, 10);
    PrintDecimal(expiresAt);
    PrintDecimal(now);
    ParsePrint(expiresAt, 10);
    ParsePrint(now, 10);
    LexByPrefix(e, t);
    assert e[..|e|] == e && t[..|t|] == t;
    if expiresAt <= now {
      PrintLengthMonotone(expiresAt, now);
    } else {
      PrintLengthMonotone(now, expiresAt);
    }
  }

  /** Unix times between 2001-09-09 and 2286-11-20 have ten digits, so the sweep is right for them. */
  lemma TenDigitTimesAgree(expiresAt: nat, now: nat)
    requires 1_000_000_000 <= expiresAt < 10_000_000_000 && 1_000_000_000 <= now < 10_000_000_000
    ensures SweepAgrees(expiresAt, now)
  {
    forall n: nat | 1_000_000_000 <= n < 10_000_000_000
      ensures |Print(n, 10)| == 10
    {
      PowTen();
      PrintLength(n, 10, 9);
      PrintLength(n, 10, 10);
    }
    SweepAgreesExactly(expiresAt, now);
  }

  lemma PowTen()
    ensures Pow(10, 9) == 1_000_000_000 && Pow(10, 10) == 10_000_000_000
  {
    assert Pow(10, 3) == 1000;
    PowAdd(10, 3, 3);
    PowAdd(10, 3, 6);
    PowAdd(10, 1, 9);
  }

  const LAST_TEN_DIGIT_TIME := 9_999_999_999

  lemma LateTimesByText()
    ensures LexLe(Print(10_000_086_399, 10), Print(LAST_TEN_DIGIT_TIME, 10))
  {
    hide Parse, Print;
    FirstDigit(10_000_086_399);
    FirstDigit(LAST_TEN_DIGIT_TIME);
  }

  /** Dropping the last digits, one at a time, leaves the first. */
  function Leading(n: nat): nat { if n < 10 then n else Leading(n / 10) }

  lemma {:induction false} FirstDigit(n: nat)
    ensures Leading(n) < 10 && Print(n, 10)[0] == Digit(Leading(n))
  {
    if n >= 10 {
      FirstDigit(n / 10);
    }
  }
}
