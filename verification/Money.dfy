/** Money: exact decimals, their integer minor units, and the text users type. */
module Money {
  import opened Records

  /** Decimal.to_integral_value with the default rounding: to nearest, ties to even. */
  function RoundHalfEven(x: real): int {
    var f := x.Floor;
    var d := x - f as real;
    if d < 0.5 || (d == 0.5 && f % 2 == 0) then f else f + 1
  }

  function ToMinorUnits(value: real): int {
    RoundHalfEven(value * 100.0)
  }

  function FromMinorUnits(units: int): real {
    units as real / 100.0
  }

  /** The value has at most two decimals. */
  ghost predicate WholeCents(value: real) {
    (value * 100.0).Floor as real == value * 100.0
  }

  /** Minor units are the nearest integer to a hundred times the value, the even one of two. */
  lemma MinorUnitsAreNearest(value: real)
    ensures -0.5 <= ToMinorUnits(value) as real - value * 100.0 <= 0.5
    ensures
      var off := ToMinorUnits(value) as real - value * 100.0;
      off == 0.5 || off == -0.5 ==> ToMinorUnits(value) % 2 == 0
  {
  }

  /** The index shows a price unchanged exactly when the price has at most two decimals. */
  lemma MinorUnitsExactIffWholeCents(value: real)
    ensures FromMinorUnits(ToMinorUnits(value)) == value <==> WholeCents(value)
  {
    var x := value * 100.0;
    var n := ToMinorUnits(value);
    if FromMinorUnits(n) == value {
      assert x == n as real;
      assert x.Floor == n;
    }
  }

  lemma UnitsRoundTrip(units: int)
    ensures ToMinorUnits(FromMinorUnits(units)) == units && WholeCents(FromMinorUnits(units))
  {
    var x := FromMinorUnits(units) * 100.0;
    assert x == units as real;
    assert x.Floor == units;
  }

  /** On whole cents the conversion is linear, so weighted index scores are exact. */
  lemma MinorUnitsLinear(a: real, b: real, count: int, total: real)
    requires WholeCents(a) && WholeCents(b) && total == a + b * count as real
    ensures WholeCents(total) && ToMinorUnits(total) == ToMinorUnits(a) + ToMinorUnits(b) * count
  {
    var na, nb := ToMinorUnits(a), ToMinorUnits(b);
    MinorUnitsExactIffWholeCents(a);
    MinorUnitsExactIffWholeCents(b);
    assert a * 100.0 == na as real && b * 100.0 == nb as real;
    assert (nb * count) as real == nb as real * count as real;
    assert total * 100.0 == a * 100.0 + (b * 100.0) * count as real;
    assert total * 100.0 == (na + nb * count) as real;
    assert (total * 100.0).Floor == na + nb * count;
  }

  // ---- text --------------------------------------------------------------

  predicate IsDigit(c: char) { '0' <= c <= '9' }

  predicate IsSpace(c: char) { c in " \t\n\r" }

  predicate AllDigits(s: string) { forall i :: 0 <= i < |s| ==> IsDigit(s[i]) }

  function DigitValue(c: char): nat
    requires IsDigit(c)
  {
    c as int - '0' as int
  }

  function ParseNat(s: string): nat
    requires AllDigits(s)
  {
    if s == "" then 0 else 10 * ParseNat(s[..|s| - 1]) + DigitValue(s[|s| - 1])
  }

  function Strip(s: string): string
    decreases |s|
  {
    if s != "" && IsSpace(s[0]) then Strip(s[1..])
    else if s != "" && IsSpace(s[|s| - 1]) then Strip(s[..|s| - 1])
    else s
  }

  /** Index of the first '.', or the length. */
  function DotAt(s: string): (k: nat)
    ensures k <= |s|
    ensures k < |s| ==> s[k] == '.'
    ensures forall i :: 0 <= i < k ==> s[i] != '.'
  {
    if s == "" || s[0] == '.' then 0 else 1 + DotAt(s[1..])
  }

  /** `parse_money`: digits, optionally a dot and one or two more digits; None is a rejected text. */
  function ParseMoney(raw: string): (r: Option<real>)
    ensures r.Some? ==> r.value >= 0.0
  {
    var text := Strip(raw);
    var k := DotAt(text);
    var whole := text[..k];
    if whole == "" || !AllDigits(whole) then None
    else if k == |text| then Some(FromMinorUnits(100 * ParseNat(whole)))
    else
      var frac := text[k + 1..];
      if !AllDigits(frac) then None
      else if |frac| == 1 then Some(FromMinorUnits(100 * ParseNat(whole) + 10 * ParseNat(frac)))
      else if |frac| == 2 then Some(FromMinorUnits(100 * ParseNat(whole) + ParseNat(frac)))
      else None
  }

  function Digit(d: nat): char
    requires d < 10
  {
    '0' + d as char
  }

  function PrintNat(n: nat): (s: string)
    ensures s != "" && AllDigits(s)
  {
    if n < 10 then [Digit(n)] else PrintNat(n / 10) + [Digit(n % 10)]
  }

  /** `format_money` of an amount given in cents. */
  function FormatCents(cents: nat): string {
    PrintNat(cents / 100) + "." + [Digit(cents / 10 % 10), Digit(cents % 10)]
  }

  lemma {:induction false} ParsePrintNat(n: nat)
    ensures ParseNat(PrintNat(n)) == n
  {
    var s := PrintNat(n);
    if n < 10 {
      assert s[..|s| - 1] == "" && ParseNat("") == 0;
    } else {
      ParsePrintNat(n / 10);
      assert s[..|s| - 1] == PrintNat(n / 10);
    }
  }

  /** Every accepted price has whole cents, so the index holds it exactly. */
  lemma ParsedMoneyIsWholeCents(raw: string)
    ensures ParseMoney(raw).Some? ==> WholeCents(ParseMoney(raw).value)
  {
    if ParseMoney(raw).Some? {
      var units :| ParseMoney(raw) == Some(FromMinorUnits(units));
      UnitsRoundTrip(units);
    }
  }

  lemma ParseTwoDigits(tens: nat, ones: nat)
    requires tens < 10 && ones < 10
    ensures AllDigits([Digit(tens), Digit(ones)]) && ParseNat([Digit(tens), Digit(ones)]) == 10 * tens + ones
  {
    var s := [Digit(tens), Digit(ones)];
    assert s[..1] == [Digit(tens)] && [Digit(tens)][..0] == "";
    assert ParseNat([Digit(tens)]) == 10 * ParseNat("") + tens;
  }

  lemma {:induction false} DotAfterDigits(whole: string, frac: string)
    requires AllDigits(whole)
    ensures DotAt(whole + "." + frac) == |whole|
  {
    var text := whole + "." + frac;
    if whole != "" {
      assert text[0] == whole[0] && IsDigit(whole[0]);
      assert text[1..] == whole[1..] + "." + frac;
      DotAfterDigits(whole[1..], frac);
    }
  }

  /** Printing an amount and typing it back gives the amount. */
  lemma FormatThenParse(cents: nat)
    ensures ParseMoney(FormatCents(cents)) == Some(FromMinorUnits(cents))
  {
    var whole := PrintNat(cents / 100);
    var tens, ones := cents / 10 % 10, cents % 10;
    var frac := [Digit(tens), Digit(ones)];
    var text := whole + "." + frac;
    assert text == FormatCents(cents);
    assert text[0] == whole[0] && IsDigit(text[0]) && text[|text| - 1] == Digit(ones);
    assert Strip(text) == text;
    DotAfterDigits(whole, frac);
    assert text[..|whole|] == whole && text[|whole| + 1..] == frac;
    ParsePrintNat(cents / 100);
    ParseTwoDigits(tens, ones);
    assert 100 * (cents / 100) + 10 * tens + ones == cents;
  }

  /** What is left is what stands between leading and trailing blanks. */
  lemma {:induction false} StripIs(raw: string) returns (i: nat, j: nat)
    ensures i <= j <= |raw| && Strip(raw) == raw[i..j]
    ensures forall k :: 0 <= k < |raw| && (k < i || j <= k) ==> IsSpace(raw[k])
    ensures i < j ==> !IsSpace(raw[i]) && !IsSpace(raw[j - 1])
    decreases |raw|
  {
    if raw != "" && IsSpace(raw[0]) {
      i, j := StripIs(raw[1..]);
      assert forall k :: 0 < k < |raw| ==> raw[k] == raw[1..][k - 1];
      i, j := i + 1, j + 1;
    } else if raw != "" && IsSpace(raw[|raw| - 1]) {
      i, j := StripIs(raw[..|raw| - 1]);
      assert forall k :: 0 <= k < |raw| - 1 ==> raw[k] == raw[..|raw| - 1][k];
    } else {
      i, j := 0, |raw|;
    }
  }

  /** The texts accepted: digits, or digits, a dot and one or two digits. */
  lemma AcceptedTexts(raw: string)
    ensures ParseMoney(raw).Some? <==>
      var text := Strip(raw);
      || (text != "" && AllDigits(text))
      || exists k :: 0 < k < |text| && text[k] == '.' && AllDigits(text[..k]) && AllDigits(text[k + 1..])
           && 1 <= |text| - 1 - k <= 2
  {
    var text := Strip(raw);
    if text != "" && AllDigits(text) {
      WholeAccepted(raw);
    }
    if k :| 0 < k < |text| && text[k] == '.' && AllDigits(text[..k]) && AllDigits(text[k + 1..])
              && 1 <= |text| - 1 - k <= 2
    {
      SplitAccepted(raw, k);
    }
    if ParseMoney(raw).Some? {
      AcceptedIsSplit(raw);
    }
  }

  lemma WholeAccepted(raw: string)
    requires Strip(raw) != "" && AllDigits(Strip(raw))
    ensures ParseMoney(raw).Some?
  {
    NoDot(Strip(raw));
    assert Strip(raw)[..|Strip(raw)|] == Strip(raw);
  }

  lemma SplitAccepted(raw: string, k: nat)
    requires 0 < k < |Strip(raw)| && Strip(raw)[k] == '.'
    requires AllDigits(Strip(raw)[..k]) && AllDigits(Strip(raw)[k + 1..]) && 1 <= |Strip(raw)| - 1 - k <= 2
    ensures ParseMoney(raw).Some?
  {
    var text := Strip(raw);
    assert text == text[..k] + "." + text[k + 1..];
    DotAfterDigits(text[..k], text[k + 1..]);
  }

  lemma AcceptedIsSplit(raw: string)
    requires ParseMoney(raw).Some?
    ensures
      var text := Strip(raw);
      || (text != "" && AllDigits(text))
      || exists k :: 0 < k < |text| && text[k] == '.' && AllDigits(text[..k]) && AllDigits(text[k + 1..])
           && 1 <= |text| - 1 - k <= 2
  {
    var text := Strip(raw);
    var dot := DotAt(text);
    if dot == |text| {
      assert text[..dot] == text;
    } else {
      assert 0 < dot < |text| && text[dot] == '.' && AllDigits(text[..dot]) && AllDigits(text[dot + 1..]);
    }
  }

  /** And what they are worth: whole units, or units and tenths. */
  lemma WholeIsUnits(n: nat)
    ensures ParseMoney(PrintNat(n)) == Some(n as real)
  {
    var whole := PrintNat(n);
    ParsePrintNat(n);
    assert IsDigit(whole[0]) && IsDigit(whole[|whole| - 1]);
    assert Strip(whole) == whole;
    NoDot(whole);
    assert whole[..|whole|] == whole;
  }

  lemma OneDecimalIsTenths(n: nat, d: nat)
    requires d < 10
    ensures ParseMoney(PrintNat(n) + "." + [Digit(d)]) == Some(n as real + d as real / 10.0)
  {
    var whole := PrintNat(n);
    var text := whole + "." + [Digit(d)];
    ParsePrintNat(n);
    assert text[0] == whole[0] && IsDigit(text[0]) && text[|text| - 1] == Digit(d);
    assert Strip(text) == text;
    DotAfterDigits(whole, [Digit(d)]);
    assert text[..|whole|] == whole && text[|whole| + 1..] == [Digit(d)];
    ParseOneDigit(d);
    assert FromMinorUnits(100 * n + 10 * d) == n as real + d as real / 10.0;
  }

  lemma ParseOneDigit(d: nat)
    requires d < 10
    ensures AllDigits([Digit(d)]) && ParseNat([Digit(d)]) == d
  {
    assert [Digit(d)][..0] == "";
    assert ParseNat([Digit(d)]) == 10 * ParseNat("") + d;
  }

  lemma {:induction false} NoDot(s: string)
    requires AllDigits(s)
    ensures DotAt(s) == |s|
  {
    if s != "" {
      assert IsDigit(s[0]);
      NoDot(s[1..]);
    }
  }
}
