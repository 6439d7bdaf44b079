/** Wei amounts as decimal ether strings: printing, parsing, and the round trip. */
module Ether {
  import opened Common

  const DECIMALS: nat := 18
  const U256_SIZE: nat := 0x1_0000_0000_0000_0000_0000_0000_0000_0000_0000_0000_0000_0000_0000_0000_0000_0000

  predicate IsDigit(c: char) { '0' <= c <= '9' }

  predicate IsDigits(s: string) { forall c :: c in s ==> IsDigit(c) }

  function Digit(n: nat): (c: char)
    requires n < 10
    ensures IsDigit(c)
  {
    '0' + n as char
  }

  function DigitValue(c: char): (n: nat)
    requires IsDigit(c)
    ensures n < 10
  {
    c as int - '0' as int
  }

  function Pow10(k: nat): (p: nat)
    ensures p > 0
  {
    if k == 0 then 1 else 10 * Pow10(k - 1)
  }

  /** The number a digit string denotes. */
  function Value(s: string): nat
    requires IsDigits(s)
  {
    if s == [] then 0 else 10 * Value(s[..|s| - 1]) + DigitValue(s[|s| - 1])
  }

  function Zeros(k: nat): (s: string)
    ensures |s| == k && IsDigits(s)
  {
    seq(k, _ => '0')
  }

  /** Decimal digits without leading zeros, as `to_string` prints them. */
  function ToDecimal(n: nat): (s: string)
    ensures s != [] && IsDigits(s)
  {
    if n < 10 then [Digit(n)] else ToDecimal(n / 10) + [Digit(n % 10)]
  }

  function TrimEnd(s: string, c: char): string {
    if s != [] && s[|s| - 1] == c then TrimEnd(s[..|s| - 1], c) else s
  }

  function Split(s: string, c: char): (parts: seq<string>)
    ensures |parts| > 0
  {
    if c !in s then [s]
    else
      var i := IndexOf(s, c);
      [s[..i]] + Split(s[i + 1..], c)
  }

  function IndexOf(s: string, c: char): (i: nat)
    requires c in s
    ensures i < |s| && s[i] == c && c !in s[..i]
  {
    if s[0] == c then 0 else
      assert s == [s[0]] + s[1..];
      1 + IndexOf(s[1..], c)
  }

  /** Printing with a given number of decimals; ether has 18. */
  function FormatUnits(amount: nat, decimals: nat): string {
    var digits := ToDecimal(amount);
    if |digits| <= decimals then "0." + Zeros(decimals - |digits|) + digits
    else
      var integer, decimal := digits[..|digits| - decimals], digits[|digits| - decimals..];
      integer + "." + TrimEnd(TrimEnd(decimal, '0'), '.')
  }

  function FormatEther(wei: nat): string { FormatUnits(wei, DECIMALS) }

  /** `fromStr` is the 256-bit integer parser, which is not part of this model. */
  function ParseUnits(fromStr: string -> Option<nat>, amount: string, decimals: nat): Option<nat> {
    var parts := Split(amount, '.');
    if |parts| == 1 then fromStr(parts[0] + Zeros(decimals))
    else if |parts| > 2 then None
    else if |parts[1]| > decimals then None
    else fromStr(parts[0] + parts[1] + Zeros(decimals - |parts[1]|))
  }

  function ParseEther(fromStr: string -> Option<nat>, amount: string): Option<nat> {
    ParseUnits(fromStr, amount, DECIMALS)
  }

  /** What is assumed of it: on digit strings it returns the value, unless that needs more than 256 bits. */
  ghost predicate ParsesDecimals(fromStr: string -> Option<nat>) {
    forall s :: s != [] && IsDigits(s) ==> fromStr(s) == Fits(Value(s))
  }

  function Fits(n: nat): Option<nat> {
    if n < U256_SIZE then Some(n) else None
  }

  /** `integer.fraction` units, in the smallest unit. */
  function UnitsValue(integer: string, fraction: string, decimals: nat): nat
    requires IsDigits(integer) && IsDigits(fraction) && |fraction| <= decimals
  {
    Value(integer) * Pow10(decimals) + Value(fraction) * Pow10(decimals - |fraction|)
  }

  // ---------------------------------------------------------------- digit strings

  lemma DigitsConcat(s: string, t: string)
    requires IsDigits(s) && IsDigits(t)
    ensures IsDigits(s + t)
  {
  }

  lemma {:induction false} ValueConcat(s: string, t: string)
    requires IsDigits(s) && IsDigits(t)
    ensures IsDigits(s + t) && Value(s + t) == Value(s) * Pow10(|t|) + Value(t)
    decreases t
  {
    DigitsConcat(s, t);
    if t == [] {
      assert s + t == s;
    } else {
      var t' := t[..|t| - 1];
      ValueConcat(s, t');
      assert (s + t)[..|s + t| - 1] == s + t';
      var d := DigitValue(t[|t| - 1]);
      assert Value(s + t) == 10 * Value(s + t') + d && Value(t) == 10 * Value(t') + d;
      ShiftDigit(Value(s), Pow10(|t'|), Value(t'), d);
    }
  }

  lemma ShiftDigit(a: nat, p: nat, b: nat, d: nat)
    ensures 10 * (a * p + b) + d == a * (10 * p) + (10 * b + d)
  {
  }

  lemma {:induction false} ValueZeros(k: nat)
    ensures Value(Zeros(k)) == 0
  {
    if k > 0 {
      assert Zeros(k)[..k - 1] == Zeros(k - 1);
      ValueZeros(k - 1);
    }
  }

  lemma {:induction false} ValueToDecimal(n: nat)
    ensures Value(ToDecimal(n)) == n
  {
    if n >= 10 {
      var s := ToDecimal(n);
      assert s[..|s| - 1] == ToDecimal(n / 10);
      ValueToDecimal(n / 10);
    }
  }

  lemma {:induction false} ValueBound(s: string)
    requires IsDigits(s)
    ensures Value(s) < Pow10(|s|)
  {
    if s != [] {
      ValueBound(s[..|s| - 1]);
    }
  }

  /** Dividing by ten `k` times. */
  function DropDigits(n: nat, k: nat): nat {
    if k == 0 then n else DropDigits(n / 10, k - 1)
  }

  lemma {:induction false} DropDigitsDivides(n: nat, k: nat)
    ensures DropDigits(n, k) == n / Pow10(k)
  {
    if k > 0 {
      DropDigitsDivides(n / 10, k - 1);
      DivTwice(n, 10, Pow10(k - 1));
    }
  }

  lemma {:induction false} DecimalPrefix(n: nat, k: nat)
    requires k < |ToDecimal(n)|
    ensures ToDecimal(n)[..|ToDecimal(n)| - k] == ToDecimal(DropDigits(n, k))
  {
    var s := ToDecimal(n);
    if k == 0 {
      assert s[..|s|] == s;
    } else {
      var shorter := ToDecimal(n / 10);
      assert s[..|s| - 1] == shorter;
      assert s[..|s| - k] == shorter[..|shorter| - (k - 1)];
      DecimalPrefix(n / 10, k - 1);
    }
  }

  lemma DivTwice(n: nat, a: nat, b: nat)
    requires a > 0 && b > 0
    ensures a * b > 0 && n / a / b == n / (a * b)
  {
    var q, r := n / a / b, n / a % b;
    var low := n % a;
    assert n / a == q * b + r;
    assert n == (q * b + r) * a + low;
    assert (q * b + r) * a == q * (a * b) + r * a;
    assert r * a + low <= (b - 1) * a + low < a * b;
    QuotientUnique(n, a * b, q, r * a + low);
  }

  lemma QuotientUnique(n: nat, d: nat, q: nat, r: nat)
    requires d > 0 && n == q * d + r && r < d
    ensures n / d == q && n % d == r
  {
    var q', r' := n / d, n % d;
    assert (q' - q) * d == r - r';
    assert (q - q') * d == r' - r;
    if q' - q >= 1 {
      AtLeast(q' - q, d);
    } else if q - q' >= 1 {
      AtLeast(q - q', d);
    }
  }

  lemma AtLeast(x: nat, d: nat)
    requires x >= 1
    ensures x * d >= d
  {
    assert x * d == (x - 1) * d + d;
  }

  lemma {:induction false} TrimEndZeros(s: string)
    ensures var t := TrimEnd(s, '0'); |t| <= |s| && s == t + Zeros(|s| - |t|)
    ensures IsDigits(s) ==> IsDigits(TrimEnd(s, '0'))
  {
    if s != [] && s[|s| - 1] == '0' {
      TrimEndZeros(s[..|s| - 1]);
    }
  }

  // ---------------------------------------------------------------- splitting

  lemma NoDotInDigits(s: string)
    requires IsDigits(s)
    ensures '.' !in s
  {
  }

  /** The first point of `s . t` is the one after `s`. */
  lemma FirstPoint(s: string, t: string)
    requires '.' !in s
    ensures var whole := s + "." + t;
            '.' in whole && IndexOf(whole, '.') == |s| && whole[..|s|] == s && whole[|s| + 1..] == t
  {
    var whole := s + "." + t;
    assert whole[|s|] == '.';
    assert forall j :: 0 <= j < |s| ==> whole[j] == s[j];
    var i := IndexOf(whole, '.');
    assert forall j :: 0 <= j < i ==> whole[j] in whole[..i];
  }

  lemma SplitOnce(s: string, t: string)
    requires '.' !in s && '.' !in t
    ensures Split(s + "." + t, '.') == [s, t]
  {
    FirstPoint(s, t);
  }

  lemma SplitTwice(s: string, t: string)
    requires '.' !in s && '.' in t
    ensures |Split(s + "." + t, '.')| > 2
  {
    FirstPoint(s, t);
    assert |Split(t, '.')| >= 2;
  }

  // ---------------------------------------------------------------- parsing

  lemma IntegerUnits(fromStr: string -> Option<nat>, integer: string, k: nat)
    requires ParsesDecimals(fromStr) && IsDigits(integer) && integer + Zeros(k) != []
    ensures ParseUnits(fromStr, integer, k) == Fits(Value(integer) * Pow10(k))
  {
    NoDotInDigits(integer);
    ValueConcat(integer, Zeros(k));
    ValueZeros(k);
  }

  lemma PaddedValue(integer: string, fraction: string, k: nat)
    requires IsDigits(integer) && IsDigits(fraction) && |fraction| <= k
    ensures var padded := integer + fraction + Zeros(k - |fraction|);
            IsDigits(padded) && Value(padded) == UnitsValue(integer, fraction, k)
  {
    var padding := Zeros(k - |fraction|);
    ValueConcat(fraction, padding);
    ValueZeros(k - |fraction|);
    ValueConcat(integer, fraction + padding);
    assert integer + fraction + padding == integer + (fraction + padding);
  }

  lemma DecimalUnits(fromStr: string -> Option<nat>, integer: string, fraction: string, k: nat)
    requires ParsesDecimals(fromStr) && IsDigits(integer) && IsDigits(fraction) && |fraction| <= k && k > 0
    ensures ParseUnits(fromStr, integer + "." + fraction, k) ==
            Fits(UnitsValue(integer, fraction, k))
  {
    NoDotInDigits(integer);
    NoDotInDigits(fraction);
    SplitOnce(integer, fraction);
    PaddedValue(integer, fraction, k);
  }

  /** A whole number of ether. */
  lemma ParseInteger(fromStr: string -> Option<nat>, integer: string)
    requires ParsesDecimals(fromStr) && IsDigits(integer)
    ensures ParseEther(fromStr, integer) == Fits(Value(integer) * Pow10(DECIMALS))
  {
    IntegerUnits(fromStr, integer, DECIMALS);
  }

  /** A decimal amount with at most 18 fractional digits parses to exactly
      integer * 10^18 + fraction * 10^(18 - digits), and fails exactly when that overflows. */
  lemma ParseDecimal(fromStr: string -> Option<nat>, integer: string, fraction: string)
    requires ParsesDecimals(fromStr) && IsDigits(integer) && IsDigits(fraction) && |fraction| <= DECIMALS
    ensures ParseEther(fromStr, integer + "." + fraction) ==
            Fits(UnitsValue(integer, fraction, DECIMALS))
  {
    DecimalUnits(fromStr, integer, fraction, DECIMALS);
  }

  /** More fractional digits than a wei has, or a second point, are refused. */
  lemma ParseRefuses(fromStr: string -> Option<nat>, s: string, t: string)
    requires '.' !in s && ('.' in t || |t| > DECIMALS)
    ensures ParseEther(fromStr, s + "." + t) == None
  {
    if '.' in t {
      SplitTwice(s, t);
    } else {
      SplitOnce(s, t);
    }
  }

  // ---------------------------------------------------------------- the round trip

  lemma ShortShape(amount: nat, k: nat) returns (fraction: string)
    requires |ToDecimal(amount)| <= k
    ensures FormatUnits(amount, k) == "0" + "." + fraction
    ensures IsDigits(fraction) && |fraction| == k && Value(fraction) == amount < Pow10(k)
  {
    var digits := ToDecimal(amount);
    var padding := Zeros(k - |digits|);
    fraction := padding + digits;
    ValueConcat(padding, digits);
    ValueZeros(k - |digits|);
    ValueToDecimal(amount);
    ValueBound(fraction);
    assert "0." + padding + digits == "0" + "." + fraction;
  }

  /** Trailing zeros of a fraction can go. */
  lemma TrimmedValue(decimal: string)
    requires IsDigits(decimal)
    ensures var fraction := TrimEnd(decimal, '0');
            && IsDigits(fraction) && |fraction| <= |decimal|
            && Value(decimal) == Value(fraction) * Pow10(|decimal| - |fraction|)
  {
    TrimEndZeros(decimal);
    var fraction := TrimEnd(decimal, '0');
    ValueConcat(fraction, Zeros(|decimal| - |fraction|));
    ValueZeros(|decimal| - |fraction|);
  }

  lemma {:induction false} TrimEndTrims(s: string, c: char)
    ensures TrimEnd(s, c) == [] || TrimEnd(s, c)[|TrimEnd(s, c)| - 1] != c
  {
    if s != [] && s[|s| - 1] == c {
      TrimEndTrims(s[..|s| - 1], c);
    }
  }

  lemma LongShape(amount: nat, k: nat) returns (integer: string, fraction: string)
    requires |ToDecimal(amount)| > k
    ensures FormatUnits(amount, k) == integer + "." + fraction
    ensures integer == ToDecimal(amount)[..|ToDecimal(amount)| - k]
    ensures IsDigits(integer) && IsDigits(fraction) && |fraction| <= k && UnitsValue(integer, fraction, k) == amount
    ensures fraction == TrimEnd(ToDecimal(amount)[|ToDecimal(amount)| - k..], '0')
  {
    var digits := ToDecimal(amount);
    var decimal := digits[|digits| - k..];
    integer := digits[..|digits| - k];
    fraction := TrimEnd(decimal, '0');
    TrimmedValue(decimal);
    NoDotInDigits(fraction);
    assert digits == integer + decimal;
    ValueConcat(integer, decimal);
    ValueToDecimal(amount);
  }

  /** What is printed: an integer, a point, and at most `k` digits, together worth the amount. The fraction
      of an amount of more than `k` digits has no trailing zero; any other is printed in full. */
  lemma FormatShape(amount: nat, k: nat) returns (integer: string, fraction: string)
    ensures FormatUnits(amount, k) == integer + "." + fraction
    ensures IsDigits(integer) && IsDigits(fraction) && |fraction| <= k && UnitsValue(integer, fraction, k) == amount
    ensures |ToDecimal(amount)| > k ==> fraction == [] || fraction[|fraction| - 1] != '0'
    ensures |ToDecimal(amount)| <= k ==> integer == "0" && |fraction| == k
  {
    if |ToDecimal(amount)| <= k {
      integer := "0";
      fraction := ShortShape(amount, k);
      assert Value(integer) == 0;
    } else {
      integer, fraction := LongShape(amount, k);
      TrimEndTrims(ToDecimal(amount)[|ToDecimal(amount)| - k..], '0');
    }
  }

  /** The integer printed is the number of whole units, without leading zeros. */
  lemma PrintsWholeUnits(amount: nat, k: nat, whole: nat)
    requires whole == amount / Pow10(k)
    ensures ToDecimal(whole) + "." <= FormatUnits(amount, k)
  {
    if |ToDecimal(amount)| <= k {
      assert whole == 0 by {
        var fraction := ShortShape(amount, k);
        QuotientUnique(amount, Pow10(k), 0, amount);
      }
      assert FormatUnits(amount, k) == ToDecimal(0) + "." + (FormatUnits(amount, k)[2..]);
    } else {
      var digits := ToDecimal(amount);
      assert digits[..|digits| - k] == ToDecimal(whole) by {
        DecimalPrefix(amount, k);
        DropDigitsDivides(amount, k);
      }
    }
  }

  /** Every 256-bit amount survives printing and parsing. */
  lemma ParseInvertsFormat(fromStr: string -> Option<nat>, wei: nat)
    requires ParsesDecimals(fromStr) && wei < U256_SIZE
    ensures ParseEther(fromStr, FormatEther(wei)) == Some(wei)
  {
    var integer, fraction := FormatShape(wei, DECIMALS);
    ParseDecimal(fromStr, integer, fraction);
  }
}
