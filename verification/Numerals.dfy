/** Decimal renderings of counters, years and day numbers. */
module Numerals {
  import opened TextOrder

  function DigitChar(d: nat): (c: char)
    requires d < 10
    ensures '0' <= c <= '9'
  {
    '0' + d as char
  }

  /** Python's `str(n)` of a natural number. */
  function Decimal(n: nat): (s: string)
    ensures |s| > 0
    ensures forall i :: 0 <= i < |s| ==> '0' <= s[i] <= '9'
    ensures n < 10 <==> |s| == 1
  {
    if n < 10 then [DigitChar(n)] else Decimal(n / 10) + [DigitChar(n % 10)]
  }

  /** `int(s)` of a string of ASCII digits. */
  function Value(s: string): nat
    requires forall i :: 0 <= i < |s| ==> '0' <= s[i] <= '9'
  {
    if s == [] then 0 else 10 * Value(s[..|s| - 1]) + (s[|s| - 1] - '0') as nat
  }

  lemma {:induction false} ValueOfDecimal(n: nat)
    ensures Value(Decimal(n)) == n
  {
    var s := Decimal(n);
    if n >= 10 {
      ValueOfDecimal(n / 10);
      assert s[..|s| - 1] == Decimal(n / 10);
      assert (DigitChar(n % 10) - '0') as nat == n % 10;
    } else {
      assert s[..|s| - 1] == [];
    }
  }

  lemma DecimalInjective(m: nat, n: nat)
    requires Decimal(m) == Decimal(n)
    ensures m == n
  {
    ValueOfDecimal(m);
    ValueOfDecimal(n);
  }

  /** `f"{n:02d}"`. */
  function Pad2(n: nat): (s: string)
    ensures n < 10 ==> s == ['0', DigitChar(n)]
    ensures 10 <= n < 100 ==> s == [DigitChar(n / 10), DigitChar(n % 10)]
  {
    if n < 10 then "0" + Decimal(n)
    else
      assert 10 <= n < 100 ==> Decimal(n / 10) == [DigitChar(n / 10)];
      Decimal(n)
  }

  /** `f"{n:03d}"`. */
  function Pad3(n: nat): string {
    if n < 100 then "0" + Pad2(n) else Decimal(n)
  }

  /** `f"{n:04d}"`, the year of `date.isoformat`. */
  function Pad4(n: nat): string {
    if n < 1000 then "0" + Pad3(n) else Decimal(n)
  }

  ghost predicate Digits(s: string) {
    forall i :: 0 <= i < |s| ==> '0' <= s[i] <= '9'
  }

  lemma {:induction false} ValueSkipsZero(s: string)
    requires Digits(s)
    ensures Value("0" + s) == Value(s)
  {
    var padded := "0" + s;
    if s != "" {
      ValueSkipsZero(s[..|s| - 1]);
      assert padded[..|padded| - 1] == "0" + s[..|s| - 1];
    } else {
      assert padded[..0] == "";
    }
  }

  lemma Pad2Facts(n: nat)
    ensures Digits(Pad2(n)) && Value(Pad2(n)) == n
  {
    ValueOfDecimal(n);
    ValueSkipsZero(Decimal(n));
  }

  lemma Pad3Facts(n: nat)
    ensures Digits(Pad3(n)) && Value(Pad3(n)) == n
  {
    ValueOfDecimal(n);
    Pad2Facts(n);
    ValueSkipsZero(Pad2(n));
  }

  lemma ThousandsHaveFourDigits(n: nat)
    requires n < 10000
    ensures n >= 1000 ==> |Decimal(n)| == 4
    ensures n < 1000 ==> |Pad3(n)| == 3
  {
    if n >= 100 {
      assert |Decimal(n / 10)| == |Decimal(n)| - 1;
    }
    if n >= 1000 {
      assert |Decimal(n / 100)| == |Decimal(n / 10)| - 1;
    }
  }

  lemma Pad4Facts(n: nat)
    ensures Digits(Pad4(n)) && Value(Pad4(n)) == n && (n < 10000 ==> |Pad4(n)| == 4)
  {
    Pad3Facts(n);
    ValueOfDecimal(n);
    ValueSkipsZero(Pad3(n));
    if n < 10000 {
      ThousandsHaveFourDigits(n);
    }
  }

  lemma {:induction false} BeforeLast(a: string, b: string, c: char, d: char)
    requires |a| == |b|
    ensures Before(a + [c], b + [d]) <==> Before(a, b) || (a == b && c < d)
  {
    if a == "" {
      assert a + [c] == [c] && b + [d] == [d];
    } else {
      assert (a + [c])[1..] == a[1..] + [c] && (b + [d])[1..] == b[1..] + [d];
      assert a == [a[0]] + a[1..] && b == [b[0]] + b[1..];
      BeforeLast(a[1..], b[1..], c, d);
    }
  }

  /** Digit strings of one length are ordered as the numbers they stand for. */
  lemma {:induction false} DigitOrder(a: string, b: string)
    requires Digits(a) && Digits(b) && |a| == |b|
    ensures Before(a, b) <==> Value(a) < Value(b)
    ensures a == b <==> Value(a) == Value(b)
  {
    if a != "" {
      var p, q, c, d := a[..|a| - 1], b[..|b| - 1], a[|a| - 1], b[|b| - 1];
      assert a == p + [c] && b == q + [d];
      DigitOrder(p, q);
      BeforeLast(p, q, c, d);
    }
  }

  lemma {:induction false} LongerIsGreater(m: nat, n: nat)
    requires m <= n
    ensures |Decimal(m)| <= |Decimal(n)|
    decreases n
  {
    if n >= 10 && m >= 10 {
      LongerIsGreater(m / 10, n / 10);
    }
  }

  /** Where a number gains a digit, it begins with 1 and the one below it with 9. */
  lemma {:induction false} DigitGained(n: nat)
    requires n >= 1 && |Decimal(n)| > |Decimal(n - 1)|
    ensures n >= 10 && Decimal(n)[0] == '1' && Decimal(n - 1)[0] == '9'
  {
    assert n >= 10;
    if n == 10 {
      assert Decimal(10) == [DigitChar(1)] + [DigitChar(0)];
    } else if n % 10 == 0 {
      assert (n - 1) / 10 == n / 10 - 1;
      DigitGained(n / 10);
    }
  }

  ghost predicate InOrder(lo: nat, hi: nat) {
    forall y: nat, z: nat :: lo <= y < z <= hi ==> Before(Decimal(y), Decimal(z))
  }

  /** Decimals of a run of numbers sort as the numbers do exactly when the first and
      the last have the same number of digits. */
  lemma DecimalsSortIff(lo: nat, hi: nat)
    requires lo <= hi
    ensures InOrder(lo, hi) <==> |Decimal(lo)| == |Decimal(hi)|
  {
    LongerIsGreater(lo, hi);
    if |Decimal(lo)| == |Decimal(hi)| {
      forall y: nat, z: nat | lo <= y < z <= hi
        ensures Before(Decimal(y), Decimal(z))
      {
        LongerIsGreater(lo, y);
        LongerIsGreater(y, z);
        LongerIsGreater(z, hi);
        ValueOfDecimal(y);
        ValueOfDecimal(z);
        DigitOrder(Decimal(y), Decimal(z));
      }
    } else {
      var n := GainPoint(lo, hi);
      DigitGained(n);
      assert !Before(Decimal(n - 1), Decimal(n));
    }
  }

  lemma GainPoint(lo: nat, hi: nat) returns (n: nat)
    requires lo <= hi && |Decimal(lo)| < |Decimal(hi)|
    ensures lo < n <= hi && |Decimal(n - 1)| < |Decimal(n)|
    decreases hi
  {
    if |Decimal(hi - 1)| < |Decimal(hi)| {
      n := hi;
    } else {
      n := GainPoint(lo, hi - 1);
    }
  }
}
