/** Decimal text of integers, as the JSON writer prints it and `from_chars` reads it. */
module Numbers {

  const INT_MAX := 0x7FFF_FFFF
  const INT_MIN := -0x8000_0000
  const UINT64_MAX := 0xFFFF_FFFF_FFFF_FFFF

  predicate IsInt(n: int) {
    INT_MIN <= n <= INT_MAX
  }

  predicate IsDigit(c: char) {
    '0' <= c <= '9'
  }

  predicate AllDigits(s: string) {
    forall i | 0 <= i < |s| :: IsDigit(s[i])
  }

  function DigitValue(c: char): (d: nat)
    requires IsDigit(c)
    ensures d < 10
  {
    (c - '0') as int
  }

  function DigitChar(d: nat): (c: char)
    requires d < 10
    ensures IsDigit(c) && DigitValue(c) == d
  {
    '0' + d as char
  }

  /** The number a digit string denotes, most significant digit first. */
  function Value(s: string): nat
    requires AllDigits(s)
  {
    if s == [] then 0 else Value(s[..|s| - 1]) * 10 + DigitValue(s[|s| - 1])
  }

  function Digits(n: nat): (s: string)
    ensures s != [] && AllDigits(s)
  {
    if n < 10 then [DigitChar(n)] else Digits(n / 10) + [DigitChar(n % 10)]
  }

  function Decimal(n: int): string {
    if n < 0 then "-" + Digits(-n) else Digits(n)
  }

  function Pow10(k: nat): nat {
    if k == 0 then 1 else 10 * Pow10(k - 1)
  }

  lemma {:induction false} ValueOfDigits(n: nat)
    ensures Value(Digits(n)) == n
  {
    if n < 10 {
      assert Digits(n)[..0] == [];
    } else {
      var s := Digits(n);
      assert s[..|s| - 1] == Digits(n / 10);
      ValueOfDigits(n / 10);
    }
  }

  /** The first digit counts most. */
  lemma {:induction false} FirstDigitCounts(s: string)
    requires AllDigits(s) && s != []
    ensures Value(s) == (s[0] as int - 48) * Pow10(|s| - 1) + Value(s[1..])
  {
    var front := s[..|s| - 1];
    if front == [] {
      assert s[1..] == [] && Pow10(0) == 1;
    } else {
      FirstDigitCounts(front);
      assert s[1..][..|s| - 2] == front[1..];
      assert Value(s[1..]) == 10 * Value(front[1..]) + DigitValue(s[|s| - 1]);
      assert Pow10(|s| - 1) == 10 * Pow10(|s| - 2);
      Tenfold(s[0] as int - 48, Pow10(|s| - 2));
    }
  }

  lemma Tenfold(d: int, p: int)
    ensures 10 * (d * p) == d * (10 * p)
  {
  }

  lemma DecimalSamples()
    ensures Decimal(103) == "103" && Decimal(-40) == "-40" && Value("042") == 42
  {
    assert Digits(10) == "1" + "0";
    assert Digits(103) == Digits(10) + "3";
    assert Digits(40) == "4" + "0";
    assert "042"[..2] == "04" && "04"[..1] == "0" && "0"[..0] == "";
  }

  lemma DecimalInjective(m: int, n: int)
    requires Decimal(m) == Decimal(n)
    ensures m == n
  {
    SignOf(m);
    SignOf(n);
    ValueOfDigits(if m < 0 then -m else m);
    ValueOfDigits(if n < 0 then -n else n);
    if m < 0 && n < 0 {
      assert Decimal(m)[1..] == Digits(-m) && Decimal(n)[1..] == Digits(-n);
    }
  }

  lemma SignOf(n: int)
    ensures Decimal(n) != [] && (Decimal(n)[0] == '-' <==> n < 0)
  {
    if n >= 0 { assert IsDigit(Digits(n)[0]); }
  }

  /** k digits hold exactly the numbers below 10^k. */
  lemma {:induction false} DigitsLength(n: nat, k: nat)
    requires k > 0
    ensures |Digits(n)| <= k <==> n < Pow10(k)
  {
    if k == 1 {
      assert Pow10(1) == 10 * Pow10(0) == 10;
    } else if n >= 10 {
      DigitsLength(n / 10, k - 1);
    } else {
      Pow10Positive(k - 1);
    }
  }

  lemma {:induction false} Pow10Positive(k: nat)
    ensures Pow10(k) >= 1
  {
    if k > 0 { Pow10Positive(k - 1); }
  }

  lemma {:induction false} DigitsGrow(m: nat, n: nat)
    requires m <= n
    ensures |Digits(m)| <= |Digits(n)|
  {
    if m >= 10 { DigitsGrow(m / 10, n / 10); }
  }

  lemma FourDigits(n: nat)
    requires 1000 <= n <= 9999
    ensures |Decimal(n)| == 4
  {
    assert |Digits(n)| == 1 + |Digits(n / 10)| == 2 + |Digits(n / 100)| == 3 + |Digits(n / 1000)| by {
      assert n / 10 / 10 == n / 100 && n / 100 / 10 == n / 1000;
    }
  }

  lemma IntLength(n: int)
    requires 0 <= n <= INT_MAX
    ensures |Decimal(n)| <= 10
  {
    assert Pow10(5) == 100000;
    assert Pow10(10) == 100000 * Pow10(5) by {
      assert Pow10(10) == 10 * Pow10(9) == 100 * Pow10(8) == 1000 * Pow10(7) == 10000 * Pow10(6) == 100000 * Pow10(5);
    }
    DigitsLength(n, 10);
  }

  lemma SignedLength(n: int)
    requires IsInt(n)
    ensures |Decimal(n)| <= 11
  {
    if n >= 0 {
      IntLength(n);
    } else if n == INT_MIN {
      IntLength(214748364);
      assert -n / 10 == 214748364;
    } else {
      IntLength(-n);
    }
  }

  lemma UInt64Length(n: nat)
    requires n <= UINT64_MAX
    ensures |Digits(n)| <= 20
  {
    assert Pow10(5) == 100000;
    assert Pow10(10) == 100000 * Pow10(5) by {
      assert Pow10(10) == 10 * Pow10(9) == 100 * Pow10(8) == 1000 * Pow10(7) == 10000 * Pow10(6) == 100000 * Pow10(5);
    }
    assert Pow10(15) == 100000 * Pow10(10) by {
      assert Pow10(15) == 10 * Pow10(14) == 100 * Pow10(13) == 1000 * Pow10(12);
      assert Pow10(12) == 10 * Pow10(11) == 100 * Pow10(10);
    }
    assert Pow10(20) == 100000 * Pow10(15) by {
      assert Pow10(20) == 10 * Pow10(19) == 100 * Pow10(18) == 1000 * Pow10(17);
      assert Pow10(17) == 10 * Pow10(16) == 100 * Pow10(15);
    }
    DigitsLength(n, 20);
  }

  lemma {:induction false} ValueGrows(s: string, k: nat)
    requires AllDigits(s) && k <= |s|
    ensures Value(s[..k]) <= Value(s)
  {
    if k < |s| {
      ValueGrows(s[..|s| - 1], k);
      assert s[..|s| - 1][..k] == s[..k];
    } else {
      assert s[..k] == s;
    }
  }
}
