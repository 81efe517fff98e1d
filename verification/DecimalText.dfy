/** Printing decimals in fixed notation. A value is a whole number of 1e-12 units. */
module DecimalText {
  import opened Wrappers
  import opened Text
  import opened Numerals

  const PLACES: nat := 12

  /** One, counted in units. */
  const ONE: nat := 1_000_000_000_000

  function Units(whole: nat, rest: nat): nat { whole * 1_000_000_000_000 + rest }

  function Whole(units: nat): nat { units / 1_000_000_000_000 }

  function Rest(units: nat): (rest: nat)
    ensures rest < ONE && Units(Whole(units), rest) == units
  {
    units % 1_000_000_000_000
  }

  function Magnitude(units: int): nat { if units < 0 then -units else units }

  function Sign(units: int): string { if units < 0 then "-" else "" }

  /** Fixed notation with all twelve places. */
  function Fixed(units: int): string {
    Sign(units) + NatText(Whole(Magnitude(units))) + ['.'] + Padded(Rest(Magnitude(units)), PLACES)
  }

  /** The index of the last character other than c, or -1. */
  function FindLastNotOf(s: string, c: char): (at: int)
    ensures -1 <= at < |s| && (at >= 0 ==> s[at] != c)
  {
    if s == "" || s[|s| - 1] != c then |s| - 1 else FindLastNotOf(s[..|s| - 1], c)
  }

  function Trimmed(s: string): string { s[..FindLastNotOf(s, '0') + 1] }

  /** A fraction without trailing zeros, and no point if nothing is left of it. */
  function Pointed(digits: string): string { if digits == "" then "" else ['.'] + digits }

  function Fraction(rest: nat): string { Pointed(Trimmed(Padded(rest, PLACES))) }

  /** What printing should give. */
  function Printed(units: int): string {
    Sign(units) + (NatText(Whole(Magnitude(units))) + Fraction(Rest(Magnitude(units))))
  }

  lemma {:induction false} TrimStopsAtPoint(whole: string, fraction: string)
    ensures Trimmed(whole + ['.'] + fraction) == whole + ['.'] + Trimmed(fraction)
  {
    var s := whole + ['.'] + fraction;
    if fraction == "" || fraction[|fraction| - 1] != '0' {
      assert s[..|s|] == s && fraction[..|fraction|] == fraction;
    } else {
      var shorter := fraction[..|fraction| - 1];
      TrimStopsAtPoint(whole, shorter);
      assert s[..|s| - 1] == whole + ['.'] + shorter;
    }
  }

  function WithoutPoint(s: string): string {
    if s != "" && s[|s| - 1] == '.' then s[..|s| - 1] else s
  }

  lemma TrimmingLeavesFraction(whole: string, padded: string)
    requires AllDigits(padded)
    ensures WithoutPoint(Trimmed(whole + ['.'] + padded)) == whole + Pointed(Trimmed(padded))
  {
    TrimStopsAtPoint(whole, padded);
    var digits := Trimmed(padded);
    assert digits != "" ==> IsDigit(digits[|digits| - 1]);
  }

  method DecimalToString(units: int) returns (out: string)
    ensures out == Printed(units)
  {
    out := Fixed(units);
    ghost var sign, whole := Sign(units), NatText(Whole(Magnitude(units)));
    ghost var padded := Padded(Rest(Magnitude(units)), PLACES);
    assert out[|sign + whole|] == '.';
    FindsFirst(out, '.');
    TrimmingLeavesFraction(sign + whole, padded);
    Associates(sign, whole, Pointed(Trimmed(padded)));
    if Find(out, '.').Some? {
      out := out[..FindLastNotOf(out, '0') + 1];
      if out != "" && out[|out| - 1] == '.' {
        out := out[..|out| - 1];
      }
    }
  }

  /** An independent reader of fixed notation with at most twelve places. */
  function Read(text: string): Option<int> {
    if text != "" && text[0] == '-' then
      var magnitude := ReadMagnitude(text[1..]);
      if magnitude.Some? then Some(-(magnitude.value as int)) else None
    else
      var magnitude := ReadMagnitude(text);
      if magnitude.Some? then Some(magnitude.value) else None
  }

  /** The value with that many zeros behind it. */
  function Scaled(value: nat, places: nat): nat {
    if places == 0 then value else 10 * Scaled(value, places - 1)
  }

  function ReadMagnitude(text: string): Option<nat> {
    var point := Find(text, '.');
    if point.None? then
      if text != "" && AllDigits(text) then Some(Units(Value(text), 0)) else None
    else
      ReadParts(text[..point.value], text[point.value + 1..])
  }

  function ReadParts(whole: string, fraction: string): Option<nat> {
    if whole == "" || fraction == "" || |fraction| > PLACES || !AllDigits(whole) || !AllDigits(fraction) then None
    else Some(Units(Value(whole), Scaled(Value(fraction), PLACES - |fraction|)))
  }

  lemma {:induction false} TrimmedValue(digits: string)
    requires AllDigits(digits)
    ensures AllDigits(Trimmed(digits)) && |Trimmed(digits)| <= |digits|
    ensures Value(digits) == Scaled(Value(Trimmed(digits)), |digits| - |Trimmed(digits)|)
  {
    if digits == "" || digits[|digits| - 1] != '0' {
      assert digits[..|digits|] == digits;
    } else {
      var shorter := digits[..|digits| - 1];
      TrimmedValue(shorter);
      assert Trimmed(digits) == Trimmed(shorter);
    }
  }

  lemma {:induction false} FindInDigits(digits: string, rest: string)
    requires AllDigits(digits)
    ensures Find(digits, '.').None? && Find(digits + ['.'] + rest, '.') == Some(|digits|)
  {
    if digits != "" {
      FindInDigits(digits[1..], rest);
      assert (digits + ['.'] + rest)[1..] == digits[1..] + ['.'] + rest;
    }
  }

  lemma UnitIsPower()
    ensures Pow10(PLACES) == ONE
  {
    assert Pow10(6) == 1_000_000;
  }

  lemma WholeReads(whole: string)
    requires AllDigits(whole) && whole != ""
    ensures ReadMagnitude(whole) == Some(Units(Value(whole), 0))
  {
    FindInDigits(whole, "");
  }

  lemma PartsRead(whole: string, fraction: string)
    requires AllDigits(whole) && whole != "" && AllDigits(fraction) && fraction != "" && |fraction| <= PLACES
    ensures ReadMagnitude(whole + ['.'] + fraction) == ReadParts(whole, fraction) == Some(Units(Value(whole), Scaled(Value(fraction), PLACES - |fraction|)))
  {
    var text := whole + ['.'] + fraction;
    FindInDigits(whole, fraction);
    assert text[..|whole|] == whole && text[|whole| + 1..] == fraction;
  }

  lemma {:induction false} ScaledZero(places: nat)
    ensures Scaled(0, places) == 0
  {
    if places > 0 {
      ScaledZero(places - 1);
    }
  }

  lemma FractionReads(rest: nat)
    requires rest < ONE
    ensures
      var digits := Trimmed(Padded(rest, PLACES));
      && AllDigits(digits) && |digits| <= PLACES
      && Scaled(Value(digits), PLACES - |digits|) == rest
      && (digits == "" ==> rest == 0)
  {
    UnitIsPower();
    PaddedReads(rest, PLACES);
    TrimmedValue(Padded(rest, PLACES));
    ScaledZero(PLACES);
  }

  lemma MagnitudeReadsBack(whole: nat, rest: nat)
    requires rest < ONE
    ensures ReadMagnitude(NatText(whole) + Fraction(rest)) == Some(Units(whole, rest))
  {
    var digits := Trimmed(Padded(rest, PLACES));
    NatTextReads(whole);
    FractionReads(rest);
    if digits == "" {
      WholeReads(NatText(whole));
      assert NatText(whole) + Fraction(rest) == NatText(whole);
    } else {
      PartsRead(NatText(whole), digits);
      assert NatText(whole) + Fraction(rest) == NatText(whole) + ['.'] + digits;
    }
  }

  /** Every value on the grid is denoted exactly by its text. */
  lemma ReadsBack(units: int)
    ensures Read(Printed(units)) == Some(units)
  {
    var whole, rest := Whole(Magnitude(units)), Rest(Magnitude(units));
    MagnitudeReadsBack(whole, rest);
    var body := NatText(whole) + Fraction(rest);
    if units < 0 {
      assert (['-'] + body)[1..] == body;
    } else {
      assert "" + body == body;
      assert body[0] == NatText(whole)[0];
    }
  }

  /** So different values print differently. */
  lemma Injective(a: int, b: int)
    ensures Printed(a) == Printed(b) <==> a == b
  {
    ReadsBack(a);
    ReadsBack(b);
  }

  /** No useless character: no zero or point at the end of a fraction, no leading zero, and zero has no sign. */
  ghost predicate Canonical(text: string) {
    var body := if text != "" && text[0] == '-' then text[1..] else text;
    && body != "" && IsDigit(body[0]) && IsDigit(body[|body| - 1])
    && ('.' in body ==> body[|body| - 1] != '0')
    && (body[0] == '0' ==> |body| == 1 || body[1] == '.')
    && text != "-0"
  }

  lemma PartsCanonical(whole: string, digits: string)
    requires AllDigits(whole) && whole != "" && (whole[0] == '0' ==> whole == "0")
    requires AllDigits(digits) && (digits != "" ==> digits[|digits| - 1] != '0')
    ensures Canonical(whole + Pointed(digits))
  {
    assert IsDigit(whole[0]) && IsDigit(whole[|whole| - 1]);
    if digits == "" {
      assert whole + Pointed(digits) == whole;
      assert '.' !in whole;
    } else {
      Associates(whole, ['.'], digits);
      assert IsDigit(digits[|digits| - 1]);
    }
  }

  lemma OnlyZeroPrintsZero(whole: nat, rest: nat)
    requires rest < ONE && Units(whole, rest) > 0
    ensures NatText(whole) + Fraction(rest) != "0"
  {
    MagnitudeReadsBack(whole, rest);
    WholeReads("0");
    assert Value("0") == 0;
  }

  lemma PrintedIsCanonical(units: int)
    ensures Canonical(Printed(units))
  {
    var whole, rest := Whole(Magnitude(units)), Rest(Magnitude(units));
    var body := NatText(whole) + Fraction(rest);
    TrimmedValue(Padded(rest, PLACES));
    PartsCanonical(NatText(whole), Trimmed(Padded(rest, PLACES)));
    if units < 0 {
      OnlyZeroPrintsZero(whole, rest);
      assert Printed(units) == ['-'] + body;
      assert Printed(units)[1..] == body && body[0] == NatText(whole)[0];
    } else {
      assert Printed(units) == body;
    }
  }

  /** What the reader makes of two texts. */
  lemma WholeExample()
    ensures Read("-20") == Some(-20_000_000_000_000)
  {
    assert Value("20") == 20;
    WholeReads("20");
    assert "-20"[1..] == "20";
  }

  lemma FractionExample()
    ensures Read("1.5") == Some(1_500_000_000_000)
  {
    assert Value("1") == 1 && Value("5") == 5;
    ScaledFive();
    PartsRead("1", "5");
    assert "1" + ['.'] + "5" == "1.5";
  }

  lemma ScaledFive()
    ensures Scaled(5, 11) == 500_000_000_000
  {
    assert Scaled(5, 6) == 5_000_000;
  }
}
