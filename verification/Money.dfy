/** Decimal money text and minor units: the exact printers, the bounded parser and the lenient one. */
module Money {
  import opened Collections
  import opened Numerals

  // ---------------------------------------------------------------- powers of ten

  function Pow10(k: nat): (p: nat)
    ensures p >= 1
  {
    if k == 0 then 1 else 10 * Pow10(k - 1)
  }

  lemma {:induction false} DigitsLength(n: nat, k: nat)
    requires k >= 1
    ensures |Digits(n)| <= k <==> n < Pow10(k)
  {
    if n >= 10 && k >= 2 {
      DigitsLength(n / 10, k - 1);
    } else if k >= 2 {
      PowGrows(k);
    } else {
      assert Pow10(1) == 10 * Pow10(0);
    }
  }

  lemma {:induction false} PowGrows(k: nat)
    requires k >= 1
    ensures Pow10(k) >= 10
  {
  }

  lemma {:induction false} ParseDigitsBelow(s: string)
    requires IsDigits(s)
    ensures ParseDigits(s) < Pow10(|s|)
  {
    if s != "" {
      ParseDigitsBelow(s[..|s| - 1]);
    }
  }

  // ---------------------------------------------------------------- printing

  /** `String(k).padStart(2, '0')` for k below 100. */
  function TwoDigits(k: nat): (s: string)
    requires k < 100
    ensures |s| == 2 && IsDigits(s) && ParseDigits(s) == k
  {
    var s := [DigitChar(k / 10), DigitChar(k % 10)];
    assert s[..1] == [DigitChar(k / 10)] && s[..1][..0] == "";
    assert ParseDigits(s[..1]) == k / 10;
    s
  }

  /** `fromMinor`, `money`: non-negative minor units as text with two decimals. */
  function FromMinor(n: nat): string {
    Digits(n / 100) + "." + TwoDigits(n % 100)
  }

  function Abs(n: int): nat {
    if n < 0 then -n else n
  }

  /** `decimal`: signed minor units as text. */
  function Decimal(n: int): string {
    (if n < 0 then "-" else "") + FromMinor(Abs(n))
  }

  // ---------------------------------------------------------------- parsing

  /** Position of the first dot, or the length when there is none. */
  function DotAt(s: string): (p: nat)
    ensures p <= |s|
    ensures p < |s| ==> s[p] == '.'
    ensures forall i :: 0 <= i < p ==> s[i] != '.'
  {
    if s == "" || s[0] == '.' then 0 else 1 + DotAt(s[1..])
  }

  function Unsigned(s: string): string {
    if s != "" && s[0] == '-' then s[1..] else s
  }

  function Whole(s: string): string {
    var body := Unsigned(s);
    body[..DotAt(body)]
  }

  function Fraction(s: string): string {
    var body := Unsigned(s);
    if DotAt(body) < |body| then body[DotAt(body) + 1..] else ""
  }

  predicate HasFraction(s: string) {
    DotAt(Unsigned(s)) < |Unsigned(s)|
  }

  /** A decimal: an optional minus, digits, and optionally a dot followed by digits. */
  predicate IsDecimal(s: string) {
    IsDigits(Whole(s)) && |Whole(s)| >= 1 && IsDigits(Fraction(s)) && (HasFraction(s) ==> |Fraction(s)| >= 1)
  }

  /** The acceptor of nightly rates: digits with at most two decimals and no sign. */
  predicate IsAmount(s: string) {
    IsDecimal(s) && (s == "" || s[0] != '-') && |Fraction(s)| <= 2
  }

  /** The first two digits of a fraction, missing ones read as zero. */
  function Cents(fraction: string): (n: nat)
    requires IsDigits(fraction)
    ensures n < 100
  {
    if |fraction| == 0 then 0
    else if |fraction| == 1 then 10 * DigitValue(fraction[0])
    else 10 * DigitValue(fraction[0]) + DigitValue(fraction[1])
  }

  /** `toMinor`: minor units of any decimal, digits past the second one dropped. */
  function ToMinor(s: string): int
    requires IsDecimal(s)
  {
    var n := 100 * ParseDigits(Whole(s)) + Cents(Fraction(s));
    if s[0] == '-' then -n else n
  }

  /** `minor`: the bounded parser.  It refuses all but an optional minus sign, one to ten digits and at most two decimals. */
  function Minor(s: string): Option<int> {
    if IsDecimal(s) && |Whole(s)| <= 10 && |Fraction(s)| <= 2 then Some(ToMinor(s)) else None
  }

  const MONEY_LIMIT := 999999999999

  lemma {:induction false} DotAfterDigits(whole: string, rest: string)
    requires IsDigits(whole)
    ensures DotAt(whole + "." + rest) == |whole|
  {
    if whole != "" {
      assert (whole + "." + rest)[1..] == whole[1..] + "." + rest;
      DotAfterDigits(whole[1..], rest);
    }
  }

  lemma {:induction false} PartsOfDecimal(n: int)
    ensures var s := Decimal(n);
            && s != "" && (s[0] == '-' <==> n < 0)
            && Whole(s) == Digits(Abs(n) / 100) && Fraction(s) == TwoDigits(Abs(n) % 100)
            && HasFraction(s)
  {
    var a := Abs(n);
    var body := FromMinor(a);
    DotAfterDigits(Digits(a / 100), TwoDigits(a % 100));
    assert IsDigit(Digits(a / 100)[0]);
    assert Unsigned(Decimal(n)) == body;
    assert body[..|Digits(a / 100)|] == Digits(a / 100);
    assert body[|Digits(a / 100)| + 1..] == TwoDigits(a % 100);
  }

  /** Printing loses nothing: the lenient parser reads every printed amount back. */
  lemma {:induction false} ToMinorOfDecimal(n: int)
    ensures IsDecimal(Decimal(n)) && ToMinor(Decimal(n)) == n
    ensures n >= 0 ==> IsAmount(Decimal(n))
  {
    PartsOfDecimal(n);
    ParseDigitsOfDigits(Abs(n) / 100);
    var t := TwoDigits(Abs(n) % 100);
    assert t == [DigitChar(Abs(n) % 100 / 10), DigitChar(Abs(n) % 100 % 10)];
  }

  /** The bounded parser undoes the printer exactly within the money limit and refuses all other text
      the printer can produce. */
  lemma {:induction false} MinorOfDecimal(n: int)
    ensures Minor(Decimal(n)) == if Abs(n) <= MONEY_LIMIT then Some(n) else None
  {
    ToMinorOfDecimal(n);
    PartsOfDecimal(n);
    DigitsLength(Abs(n) / 100, 10);
    TenDigits();
  }

  lemma {:induction false} TenDigits()
    ensures Pow10(10) == 10000000000
  {
    assert Pow10(4) == 10000 by {
      assert Pow10(2) == 100;
    }
    assert Pow10(7) == 10000000;
  }

  /** Whatever the bounded parser accepts is within the limit. */
  lemma {:induction false} MinorBounded(s: string)
    requires Minor(s).Some?
    ensures Abs(Minor(s).value) <= MONEY_LIMIT
  {
    ParseDigitsBelow(Whole(s));
    PowMonotone(|Whole(s)|, 10);
    TenDigits();
  }

  lemma {:induction false} PowMonotone(a: nat, b: nat)
    requires a <= b
    ensures Pow10(a) <= Pow10(b)
  {
    if a < b {
      PowMonotone(a, b - 1);
    }
  }

  // ---------------------------------------------------------------- rounding

  /** `n / d` of JavaScript integers: truncation toward zero. */
  function TruncDiv(n: int, d: int): int
    requires d > 0
  {
    if n < 0 then -(-n / d) else n / d
  }

  /** `roundMinor`: half away from zero. */
  function RoundMinor(n: int, denominator: int): int
    requires denominator > 0
  {
    if n < 0 then -((-n + denominator / 2) / denominator) else (n + denominator / 2) / denominator
  }

  /** Rounding is within half a unit of the exact quotient, and odd. */
  lemma {:induction false} RoundMinorNearest(n: int, denominator: int)
    requires denominator > 0
    ensures -denominator <= 2 * (RoundMinor(n, denominator) * denominator - n) <= denominator
    ensures RoundMinor(-n, denominator) == -RoundMinor(n, denominator)
  {
    var a := Abs(n);
    var q := (a + denominator / 2) / denominator;
    QuotientBounds(a + denominator / 2, denominator);
    if n < 0 {
      assert RoundMinor(n, denominator) == -q;
      NegateProduct(q, denominator);
    } else {
      assert RoundMinor(n, denominator) == q;
    }
  }

  lemma {:induction false} QuotientBounds(n: int, d: int)
    requires d > 0
    ensures n / d * d <= n < n / d * d + d
  {
    assert n == n / d * d + n % d;
  }

  lemma {:induction false} NegateProduct(a: int, b: int)
    ensures -a * b == -(a * b)
  {
  }

  lemma {:induction false} DivMonotone(a: int, b: int, d: int)
    requires d > 0 && a <= b
    ensures a / d <= b / d
  {
    QuotientBounds(a, d);
    QuotientBounds(b, d);
    QuotientOrder(a / d, b / d, a, b, d);
  }

  lemma {:induction false} QuotientOrder(x: int, y: int, a: int, b: int, d: int)
    requires d > 0 && a <= b && x * d <= a && b < y * d + d
    ensures x <= y
  {
    if y + 1 <= x {
      MulMonotone(y + 1, x, d);
    }
  }

  lemma {:induction false} MulMonotone(a: int, b: int, d: int)
    requires d >= 0 && a <= b
    ensures a * d <= b * d
  {
  }

  lemma {:induction false} QuotientSign(n: int, d: int)
    requires d > 0 && n >= 0
    ensures n / d >= 0
  {
    QuotientBounds(n, d);
    QuotientOrder(0, n / d, 0, n, d);
  }

  lemma {:induction false} RoundMinorMonotone(a: int, b: int, denominator: int)
    requires denominator > 0 && a <= b
    ensures RoundMinor(a, denominator) <= RoundMinor(b, denominator)
  {
    var half := denominator / 2;
    if b < 0 {
      DivMonotone(-b + half, -a + half, denominator);
    } else if a >= 0 {
      DivMonotone(a + half, b + half, denominator);
    } else {
      QuotientSign(-a + half, denominator);
      QuotientSign(b + half, denominator);
    }
  }
}
