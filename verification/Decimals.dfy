/**
  Decimal strings: what a bigint prints as, and the decimal point that the trade analyzer places in it
  (src/services/trade-analyzer.ts).
 */
module Decimals {
  import opened Wrappers

  //
  // Digits and their value
  //

  predicate IsDigit(c: char) {
    '0' <= c <= '9'
  }

  predicate IsDigits(s: string) {
    forall c :: c in s ==> IsDigit(c)
  }

  function DigitOf(d: nat): (c: char)
    requires d < 10
    ensures IsDigit(c) && c as int - '0' as int == d
  {
    ('0' as int + d) as char
  }

  function Pow10(n: nat): (p: nat)
    ensures p > 0
  {
    if n == 0 then 1 else 10 * Pow10(n - 1)
  }

  /** The number that a string of digits denotes. */
  function Value(s: string): nat
    requires IsDigits(s)
    decreases |s|
  {
    if s == [] then 0
    else
      assert s[|s| - 1] in s;
      10 * Value(s[..|s| - 1]) + (s[|s| - 1] as int - '0' as int)
  }

  /** How a bigint that is not negative prints. */
  function Digits(n: nat): (s: string)
    ensures |s| > 0 && IsDigits(s)
  {
    if n < 10 then [DigitOf(n)] else Digits(n / 10) + [DigitOf(n % 10)]
  }

  function ToString(n: int): string {
    if n < 0 then "-" + Digits(-n) else Digits(n)
  }

  /** BigInt(text). */
  function ParseInt(text: string): Option<int> {
    if |text| > 0 && text[0] == '-' then
      if |text| > 1 && IsDigits(text[1..]) then Some(-(Value(text[1..]) as int)) else None
    else if |text| > 0 && IsDigits(text) then Some(Value(text))
    else None
  }

  lemma {:induction false} DigitsDenote(n: nat)
    ensures Value(Digits(n)) == n && n < Pow10(|Digits(n)|)
  {
    if n >= 10 {
      DigitsDenote(n / 10);
      assert Digits(n)[..|Digits(n)| - 1] == Digits(n / 10);
    }
  }

  lemma DigitsHaveNoSign(n: nat)
    ensures Digits(n)[0] != '-'
  {
    assert Digits(n)[0] in Digits(n);
  }

  lemma PrintThenParse(n: int)
    ensures ParseInt(ToString(n)) == Some(n)
  {
    if n < 0 {
      DigitsDenote(-n);
      assert ToString(n)[1..] == Digits(-n);
    } else {
      DigitsDenote(n);
      DigitsHaveNoSign(n);
    }
  }

  lemma {:induction false} ValueOfConcat(a: string, b: string)
    requires IsDigits(a) && IsDigits(b)
    ensures IsDigits(a + b) && Value(a + b) == Value(a) * Pow10(|b|) + Value(b)
    decreases |b|
  {
    if b == [] {
      assert a + b == a;
    } else {
      var init := b[..|b| - 1];
      ValueOfConcat(a, init);
      assert (a + b)[..|a + b| - 1] == a + init;
      assert Value(a) * Pow10(|b|) == 10 * (Value(a) * Pow10(|init|));
    }
  }

  //
  // Strings as JavaScript cuts them
  //

  function Zeros(n: nat): (s: string)
    ensures |s| == n && IsDigits(s)
  {
    if n == 0 then [] else "0" + Zeros(n - 1)
  }

  function PadStart(s: string, length: nat): string {
    if |s| >= length then s else Zeros(length - |s|) + s
  }

  function Clamp(i: int, length: nat): (k: nat)
    ensures k <= length
  {
    var from := if i < 0 then length + i else i;
    if from < 0 then 0 else if from > length then length else from
  }

  /** slice(start). A start of -0 is 0. */
  function SliceFrom(s: string, start: int): string {
    s[Clamp(start, |s|)..]
  }

  /** slice(0, end). */
  function SliceTo(s: string, end: int): string {
    s[..Clamp(end, |s|)]
  }

  lemma {:induction false} ZerosDenoteZero(n: nat)
    ensures Value(Zeros(n)) == 0
  {
    if n > 0 {
      ZerosDenoteZero(n - 1);
      assert Value("0") == 0 by {
        assert "0"[..0] == [];
      }
      ValueOfConcat("0", Zeros(n - 1));
    }
  }

  lemma PaddingKeepsValue(s: string, length: nat)
    requires IsDigits(s)
    ensures IsDigits(PadStart(s, length)) && Value(PadStart(s, length)) == Value(s)
    ensures |PadStart(s, length)| >= length && |PadStart(s, length)| >= |s|
  {
    if |s| < length {
      ZerosDenoteZero(length - |s|);
      ValueOfConcat(Zeros(length - |s|), s);
    }
  }

  //
  // Numbers with a decimal point
  //

  /** The position of the first decimal point. */
  function DotIndex(s: string): (i: nat)
    ensures i <= |s|
  {
    if s == [] || s[0] == '.' then 0 else 1 + DotIndex(s[1..])
  }

  /** What digits after the decimal point denote. */
  function FractionValue(s: string): real
    requires IsDigits(s)
  {
    Value(s) as real / Pow10(|s|) as real
  }

  function UnsignedDecimal(s: string): Option<real> {
    var dot := DotIndex(s);
    if 0 < dot < |s| && IsDigits(s[..dot]) && IsDigits(s[dot + 1..]) then
      Some(Value(s[..dot]) as real + FractionValue(s[dot + 1..]))
    else None
  }

  /** The number that a decimal string denotes. */
  function DecimalValue(s: string): Option<real> {
    if |s| > 0 && s[0] == '-' then
      match UnsignedDecimal(s[1..])
      case Some(x) => Some(-x)
      case None => None
    else UnsignedDecimal(s)
  }

  /** The UI amount, as the analyzer builds it from the printed raw amount. */
  function UiString(rawDelta: int, decimals: nat): string {
    var printed := ToString(rawDelta);
    var isNegative := |printed| > 0 && printed[0] == '-';
    var magnitude := if isNegative then printed[1..] else printed;
    var padded := PadStart(magnitude, decimals + 1);
    var kept := SliceTo(padded, -(decimals as int));
    var integerPart := if kept == "" then "0" else kept;
    var decimalPart := SliceFrom(padded, -(decimals as int));
    (if isNegative then "-" else "") + integerPart + "." + decimalPart
  }

  function Abs(n: int): nat {
    if n < 0 then -n else n
  }

  /** The integer part and the fraction, as the two slices cut them. */
  function Parts(rawDelta: int, decimals: nat): (string, string) {
    var padded := PadStart(Digits(Abs(rawDelta)), decimals + 1);
    if decimals == 0 then ("0", padded) else (padded[..|padded| - decimals], padded[|padded| - decimals..])
  }

  lemma PartsAreDigits(rawDelta: int, decimals: nat)
    ensures var parts := Parts(rawDelta, decimals);
            && IsDigits(parts.0) && IsDigits(parts.1) && |parts.0| > 0
            && |parts.1| == if decimals == 0 then |Digits(Abs(rawDelta))| else decimals
  {
    hide Digits, Value, Zeros;
    PaddingKeepsValue(Digits(Abs(rawDelta)), decimals + 1);
  }

  lemma UiStringHasParts(rawDelta: int, decimals: nat)
    ensures var parts := Parts(rawDelta, decimals);
            UiString(rawDelta, decimals) == (if rawDelta < 0 then "-" else "") + parts.0 + "." + parts.1
  {
    hide Digits, IsDigits, Value, Zeros;
    var digits := Digits(Abs(rawDelta));
    PaddingKeepsValue(digits, decimals + 1);
    DigitsHaveNoSign(Abs(rawDelta));
    if rawDelta < 0 {
      assert ToString(rawDelta)[1..] == digits;
    }
  }

  lemma {:induction false} DotAfterDigits(a: string, b: string)
    requires IsDigits(a)
    ensures DotIndex(a + "." + b) == |a|
    decreases |a|
  {
    if a == [] {
      assert (a + "." + b)[0] == '.';
    } else {
      DotAfterDigits(a[1..], b);
      assert a[0] in a;
      assert (a + "." + b)[1..] == a[1..] + "." + b;
    }
  }

  lemma StartsWithDigit(a: string)
    requires IsDigits(a) && |a| > 0
    ensures a[0] != '-'
  {
    assert a[0] in a;
  }

  lemma CutAtDot(a: string, b: string)
    ensures (a + "." + b)[..|a|] == a && (a + "." + b)[|a| + 1..] == b
  {
  }

  lemma UnsignedDenotes(a: string, b: string)
    requires IsDigits(a) && IsDigits(b) && |a| > 0
    ensures UnsignedDecimal(a + "." + b) == Some(Value(a) as real + FractionValue(b))
  {
    hide Value, IsDigits, DotIndex, FractionValue;
    DotAfterDigits(a, b);
    CutAtDot(a, b);
  }

  /** The number that the parts denote: the raw amount, divided as the slices divide it. */
  lemma UiStringDenotesParts(rawDelta: int, decimals: nat)
    ensures var parts := Parts(rawDelta, decimals);
            IsDigits(parts.0) && IsDigits(parts.1)
            && var magnitude := Value(parts.0) as real + FractionValue(parts.1);
               DecimalValue(UiString(rawDelta, decimals)) == Some(if rawDelta < 0 then -magnitude else magnitude)
  {
    hide UiString, Parts, UnsignedDecimal, FractionValue, Value;
    var parts := Parts(rawDelta, decimals);
    PartsAreDigits(rawDelta, decimals);
    UiStringHasParts(rawDelta, decimals);
    var unsigned := parts.0 + "." + parts.1;
    UnsignedDenotes(parts.0, parts.1);
    StartsWithDigit(parts.0);
    assert unsigned[0] == parts.0[0];
    if rawDelta < 0 {
      assert UiString(rawDelta, decimals) == "-" + unsigned;
      assert ("-" + unsigned)[1..] == unsigned;
    } else {
      assert UiString(rawDelta, decimals) == unsigned;
    }
  }

  lemma SplitQuotient(a: nat, b: nat, p: nat)
    requires p > 0
    ensures a as real + b as real / p as real == (a * p + b) as real / p as real
  {
    var q := p as real;
    assert (a * p + b) as real == a as real * q + b as real;
    assert (a as real * q + b as real) / q == a as real * q / q + b as real / q;
  }

  lemma PartsOfMagnitude(rawDelta: int, decimals: nat)
    requires decimals >= 1
    ensures var parts := Parts(rawDelta, decimals);
            && IsDigits(parts.0) && IsDigits(parts.1) && |parts.1| == decimals
            && Value(parts.0) * Pow10(decimals) + Value(parts.1) == Abs(rawDelta)
  {
    hide Digits, Value, Zeros, Pow10;
    var digits := Digits(Abs(rawDelta));
    var padded, parts := PadStart(digits, decimals + 1), Parts(rawDelta, decimals);
    PaddingKeepsValue(digits, decimals + 1);
    DigitsDenote(Abs(rawDelta));
    ValueOfConcat(parts.0, parts.1);
    assert parts.0 + parts.1 == padded;
  }

  lemma NegatedQuotient(n: int, p: nat)
    requires p > 0
    ensures Abs(n) as real / p as real == if n < 0 then -(n as real / p as real) else n as real / p as real
  {
    if n < 0 {
      assert Abs(n) as real == -(n as real);
    }
  }

  /** With decimals, the string denotes exactly the raw amount over the power of ten, and shows every decimal. */
  lemma UiStringIsExact(rawDelta: int, decimals: nat)
    requires decimals >= 1
    ensures var text := UiString(rawDelta, decimals);
            && DecimalValue(text) == Some(rawDelta as real / Pow10(decimals) as real)
            && exists integerPart, decimalPart ::
                 && text == (if rawDelta < 0 then "-" else "") + integerPart + "." + decimalPart
                 && IsDigits(integerPart) && |integerPart| > 0
                 && IsDigits(decimalPart) && |decimalPart| == decimals
  {
    hide UiString, Parts, DecimalValue, Value, Pow10;
    var parts := Parts(rawDelta, decimals);
    PartsAreDigits(rawDelta, decimals);
    UiStringHasParts(rawDelta, decimals);
    UiStringDenotesParts(rawDelta, decimals);
    PartsOfMagnitude(rawDelta, decimals);
    SplitQuotient(Value(parts.0), Value(parts.1), Pow10(decimals));
    NegatedQuotient(rawDelta, Pow10(decimals));
  }

  /** Without decimals both slices are cut at 0, and all digits end up behind the point. */
  lemma UiStringWithoutDecimals(rawDelta: int)
    ensures DecimalValue(UiString(rawDelta, 0))
         == Some(rawDelta as real / Pow10(|Digits(Abs(rawDelta))|) as real)
  {
    hide UiString, DecimalValue, Digits, Value, Pow10;
    var digits := Digits(Abs(rawDelta));
    UiStringDenotesParts(rawDelta, 0);
    DigitsDenote(Abs(rawDelta));
    ZeroPart();
    assert Parts(rawDelta, 0) == ("0", digits);
    NegatedQuotient(rawDelta, Pow10(|digits|));
  }

  lemma ZeroPart()
    ensures IsDigits("0") && Value("0") == 0
  {
    assert "0"[..0] == [];
  }

  lemma {:induction false} PowersGrow(n: nat)
    ensures n > 0 ==> Pow10(n) >= 10
  {
    if n > 1 {
      PowersGrow(n - 1);
    }
  }

  lemma SmallerQuotient(n: int, p: nat)
    requires p > 1
    ensures n as real / p as real == n as real <==> n == 0
  {
    var q := n as real / p as real;
    assert q * p as real == n as real;
    if q == n as real {
      assert q * (p as real - 1.0) == 0.0;
    }
  }

  lemma WithoutDecimalsIff(rawDelta: int)
    ensures DecimalValue(UiString(rawDelta, 0)) == Some(rawDelta as real) <==> rawDelta == 0
  {
    hide UiString, DecimalValue, Digits, Pow10;
    UiStringWithoutDecimals(rawDelta);
    PowersGrow(|Digits(Abs(rawDelta))|);
    SmallerQuotient(rawDelta, Pow10(|Digits(Abs(rawDelta))|));
  }

  /** Exactly when the string denotes the amount it stands for. */
  lemma UiStringDenotesIff(rawDelta: int, decimals: nat)
    ensures DecimalValue(UiString(rawDelta, decimals)) == Some(rawDelta as real / Pow10(decimals) as real)
       <==> decimals >= 1 || rawDelta == 0
  {
    hide UiString, DecimalValue, Digits;
    if decimals >= 1 {
      UiStringIsExact(rawDelta, decimals);
    } else {
      WithoutDecimalsIff(rawDelta);
      assert Pow10(0) == 1;
    }
  }

  /** Five units of a token without decimals are shown as half a unit. */
  lemma FiveUnits()
    ensures UiString(5, 0) == "0.5" && DecimalValue(UiString(5, 0)) == Some(0.5)
  {
    assert ToString(5) == "5";
    assert Digits(Abs(5)) == "5";
    UiStringWithoutDecimals(5);
    assert Pow10(1) == 10 * Pow10(0);
  }

  //
  // The filter on deltas
  //

  lemma Product(x: real, y: real)
    requires y > 0.0
    ensures x > 0.0 ==> x * y > 0.0
    ensures x <= 0.0 ==> x * y <= 0.0
  {
  }

  lemma QuotientExceeds(x: real, d: real, bound: real)
    requires d > 0.0
    ensures x / d > bound <==> x > bound * d
  {
    var q := x / d;
    assert q * d == x;
    assert (q - bound) * d == x - bound * d;
    Product(q - bound, d);
  }

  lemma QuotientAbove(n: nat, p: nat)
    requires p > 0
    ensures n as real / p as real > 0.000001 <==> n * 1_000_000 > p
  {
    QuotientExceeds(n as real, p as real, 0.000001);
    var scaled := 0.000001 * p as real;
    assert scaled * 1_000_000.0 == p as real;
    assert (n * 1_000_000) as real == n as real * 1_000_000.0;
  }

  lemma QuotientSign(n: int, p: nat)
    requires p > 0
    ensures n > 0 <==> n as real / p as real > 0.0
  {
    QuotientExceeds(n as real, p as real, 0.0);
  }

  function AbsReal(x: real): real {
    if x < 0.0 then -x else x
  }

  lemma SizeOfQuotient(n: int, p: nat)
    requires p > 0
    ensures AbsReal(n as real / p as real) == Abs(n) as real / p as real
  {
    NegatedQuotient(n, p);
    QuotientSign(Abs(n), p);
  }

  lemma {:induction false} DigitsAreFew(n: nat)
    requires n > 0
    ensures 10 * n >= Pow10(|Digits(n)|)
  {
    if n >= 10 {
      DigitsAreFew(n / 10);
    } else {
      assert Pow10(1) == 10 * Pow10(0);
    }
  }

  /** By which power of ten the string really divides the raw amount. */
  function Scale(rawDelta: int, decimals: nat): nat {
    if decimals >= 1 then decimals else |Digits(Abs(rawDelta))|
  }

  lemma UiStringScales(rawDelta: int, decimals: nat)
    ensures DecimalValue(UiString(rawDelta, decimals))
         == Some(rawDelta as real / Pow10(Scale(rawDelta, decimals)) as real)
  {
    hide UiString, DecimalValue, Digits, Pow10;
    if decimals >= 1 {
      UiStringIsExact(rawDelta, decimals);
    } else {
      UiStringWithoutDecimals(rawDelta);
    }
  }

  lemma ScaleKeeps(rawDelta: int, decimals: nat)
    ensures Abs(rawDelta) * 1_000_000 > Pow10(Scale(rawDelta, decimals))
       <==> Abs(rawDelta) * 1_000_000 > Pow10(decimals)
  {
    hide Digits;
    if decimals == 0 && rawDelta != 0 {
      DigitsAreFew(Abs(rawDelta));
    }
  }

  /**
    The delta that is read back from the string has the sign of the raw amount, and is kept by the filter
    exactly if the amount is more than a millionth of a token - also where the string is wrong.
   */
  lemma DeltaSignAndSize(rawDelta: int, decimals: nat)
    ensures var delta := DecimalValue(UiString(rawDelta, decimals));
            && delta.Some?
            && (delta.value > 0.0 <==> rawDelta > 0)
            && (AbsReal(delta.value) > 0.000001 <==> Abs(rawDelta) * 1_000_000 > Pow10(decimals))
  {
    hide UiString, DecimalValue, Pow10, AbsReal, Scale;
    var power := Pow10(Scale(rawDelta, decimals));
    UiStringScales(rawDelta, decimals);
    SizeOfQuotient(rawDelta, power);
    QuotientSign(rawDelta, power);
    QuotientAbove(Abs(rawDelta), power);
    ScaleKeeps(rawDelta, decimals);
  }
}
