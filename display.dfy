/**
 * What the form shows: the signed difference and its Balanced/Under/Over
 * label, the denomination labels, and the business day a cash-up belongs to.
 */
module Display {
  import opened Wrappers
  import opened Decimal
  import opened Reconciliation

  /**
   * The difference as shown: "£0.00" when it is exactly zero; otherwise the
   * magnitude to two decimal places behind "£", with the sign INVERTED, so a
   * positive difference (the till is short) shows "-" and a negative one "+".
   */
  function FormatSignedCurrency(value: real): (s: string)
    ensures value == 0.0 <==> s == "£0.00"
    ensures |s| >= 2
    ensures value > 0.0 <==> s[0] == '-'
    ensures value < 0.0 <==> s[0] == '+'
  {
    if value == 0.0 then "£0.00"
    else
      var displayValue := Abs(value);
      var sign := if value < 0.0 then "+" else if value > 0.0 then "-" else "";
      sign + "£" + ToFixed(displayValue, 2)
  }

  /** Reads a shown amount back as a number, "+" and "-" taken at face value. */
  function ReadSignedCurrency(s: string): Option<real> {
    if |s| >= 2 && (s[0] == '+' || s[0] == '-') && s[1] == '£' then
      match ReadFixed(s[2..], 2)
      case Some(m) => Some(if s[0] == '-' then -m else m)
      case None => None
    else if |s| >= 1 && s[0] == '£' then ReadFixed(s[1..], 2)
    else None
  }

  /**
   * Read at face value, the shown difference is the NEGATED difference to
   * the nearest penny: a whole number k of pennies within half a penny of -value.
   */
  lemma SignedCurrencyShowsNegation(value: real) returns (k: int)
    ensures ReadSignedCurrency(FormatSignedCurrency(value)) == Some(k as real / 100.0)
    ensures -0.5 <= k as real + value * 100.0 <= 0.5
  {
    if value == 0.0 {
      k := 0;
      ReadZeroPounds();
    } else {
      k := NonZeroShowsNegation(value);
    }
  }

  lemma NonZeroShowsNegation(value: real) returns (k: int)
    requires value != 0.0
    ensures ReadSignedCurrency(FormatSignedCurrency(value)) == Some(k as real / 100.0)
    ensures -0.5 <= k as real + value * 100.0 <= 0.5
  {
    var sign := if value < 0.0 then '+' else '-';
    var t := ToFixed(Abs(value), 2);
    var shown := FormatSignedCurrency(value);
    assert shown == [sign, '£'] + t;
    var n := ReadTwoPlaces(Abs(value));
    var m := n as real / 100.0;
    ReadSignedOf(sign, t, m);
    k := if value < 0.0 then n else -n;
    assert ReadSignedCurrency(shown) == Some(if sign == '-' then -m else m);
    assert (if sign == '-' then -m else m) == k as real / 100.0;
    assert k as real + value * 100.0 == if value < 0.0 then n as real - Abs(value) * 100.0
                                        else -(n as real - Abs(value) * 100.0);
  }

  /** toFixed(2) of a magnitude reads back as a whole number n of pennies within half a penny of it. */
  lemma ReadTwoPlaces(a: real) returns (n: int)
    ensures ReadFixed(ToFixed(a, 2), 2) == Some(n as real / 100.0)
    ensures -0.5 <= n as real - a * 100.0 <= 0.5
  {
    n := Units(a, 2);
    ReadToFixed(a, 2);
    var p := Pow10(2) as real;
    assert p == 100.0;
    assert n as real / p == n as real / 100.0;
    assert a * p == a * 100.0;
  }

  /** "£0.00" reads back as 0. */
  lemma ReadZeroPounds()
    ensures ReadSignedCurrency("£0.00") == Some(0.0)
  {
    var s := "£0.00";
    assert s[1..] == ['0', '.', '0', '0'];
    ReadHundredths(s[1..], '0', '0', 0);
  }

  /** A "+" or "-", then "£", then an amount that reads back as m, reads back as +m or -m. */
  lemma ReadSignedOf(sign: char, t: string, m: real)
    requires (sign == '+' || sign == '-') && ReadFixed(t, 2) == Some(m)
    ensures ReadSignedCurrency([sign, '£'] + t) == Some(if sign == '-' then -m else m)
  {
    var s := [sign, '£'] + t;
    assert s[2..] == t;
  }

  /** toFixed(2) of a whole number n of pennies is the digits of n with a point before the last two. */
  lemma TwoPlacesOf(x: real, n: nat, digits: string)
    requires x >= 0.0 && x * 100.0 == n as real
    requires DigitsOf(n) == digits && |digits| >= 3
    ensures ToFixed(x, 2) == digits[..|digits| - 2] + "." + digits[|digits| - 2..]
  {
    assert Pow10(2) == 100;
    MagnitudeOfWhole(x, 2, n);
    assert Padded(n, 3) == digits;
  }

  /** A non-zero difference of a whole number n of pennies shows its inverted sign, "£" and n to two places. */
  lemma ShownPennies(value: real, n: nat, digits: string)
    requires value != 0.0 && Abs(value) * 100.0 == n as real
    requires DigitsOf(n) == digits && |digits| >= 3
    ensures FormatSignedCurrency(value)
         == (if value < 0.0 then "+" else "-") + "£" + digits[..|digits| - 2] + "." + digits[|digits| - 2..]
  {
    TwoPlacesOf(Abs(value), n, digits);
  }

  /** A till £12.50 short shows "-£12.50", "Under". */
  lemma ShortByTwelvePoundsFifty()
    ensures FormatSignedCurrency(12.5) == "-£12.50" && DifferenceLabel(12.5) == "Under"
  {
    assert DigitsOf(1250) == "1250" by {
      assert DigitsOf(125) == "125" by { assert DigitsOf(12) == "12"; }
    }
    ShownPennies(12.5, 1250, "1250");
  }

  /** A till £7.25 over shows "+£7.25", "Over". */
  lemma OverBySevenPoundsTwentyFive()
    ensures FormatSignedCurrency(-7.25) == "+£7.25" && DifferenceLabel(-7.25) == "Over"
  {
    assert DigitsOf(725) == "725" by { assert DigitsOf(72) == "72"; }
    ShownPennies(-7.25, 725, "725");
  }

  /** A till £200 short (the untouched form) shows "-£200.00", "Under". */
  lemma ShortByTheFloat()
    ensures FormatSignedCurrency(200.0) == "-£200.00" && DifferenceLabel(200.0) == "Under"
  {
    assert DigitsOf(20000) == "20000" by {
      assert DigitsOf(2000) == "2000" by {
        assert DigitsOf(200) == "200" by { assert DigitsOf(20) == "20"; }
      }
    }
    ShownPennies(200.0, 20000, "20000");
  }

  /** The worked day's difference of 270 shows "-£270.00", "Under". */
  lemma ShortByTwoHundredSeventy()
    ensures FormatSignedCurrency(270.0) == "-£270.00" && DifferenceLabel(270.0) == "Under"
  {
    assert DigitsOf(27000) == "27000" by {
      assert DigitsOf(2700) == "2700" by {
        assert DigitsOf(270) == "270" by { assert DigitsOf(27) == "27"; }
      }
    }
    ShownPennies(270.0, 27000, "27000");
  }

  /** The label under the difference. */
  function DifferenceLabel(value: real): (shown: string)
    ensures shown == "Balanced!" <==> value == 0.0
    ensures shown == "Under" <==> value > 0.0
    ensures shown == "Over" <==> value < 0.0
  {
    if value == 0.0 then "Balanced!" else if value > 0.0 then "Under" else "Over"
  }

  /** The label agrees with the sign shown: Balanced with no sign, Under with "-", Over with "+". */
  lemma LabelAgreesWithShownSign(value: real)
    ensures DifferenceLabel(value) == "Balanced!" <==> FormatSignedCurrency(value) == "£0.00"
    ensures DifferenceLabel(value) == "Under" <==> FormatSignedCurrency(value)[0] == '-'
    ensures DifferenceLabel(value) == "Over" <==> FormatSignedCurrency(value)[0] == '+'
  {
  }

  /**
   * A denomination's label: below one pound, its value in pence with "p"
   * ("50p"); otherwise "£" and its key ("£50").
   */
  function FormatDenominationLabel(d: Denomination): string {
    if Value(d) < 1.0 then ToFixed(Value(d) * 100.0, 0) + "p" else "£" + Key(d)
  }

  /** How many digits a denomination's key has after its point. */
  function KeyFractionDigits(d: Denomination): nat {
    if Value(d) >= 1.0 then 0 else if d == Pence5 then 2 else 1
  }

  /** Each key spells its denomination's value. */
  lemma KeySpellsValue(d: Denomination)
    ensures ReadFixed(Key(d), KeyFractionDigits(d)) == Some(Value(d))
  {
    match d
    case Pounds50 => assert ValueOf("50") == 50 by { assert "50"[..1] == "5"; }
    case Pounds20 => assert ValueOf("20") == 20 by { assert "20"[..1] == "2"; }
    case Pounds10 => assert ValueOf("10") == 10 by { assert "10"[..1] == "1"; }
    case Pounds5 => assert ValueOf("5") == 5 by { assert "5"[..0] == ""; }
    case Pound1 => assert ValueOf("1") == 1 by { assert "1"[..0] == ""; }
    case Pence50 => ReadTenths("0.5", '5', 5);
    case Pence20 => ReadTenths("0.2", '2', 2);
    case Pence10 => ReadTenths("0.1", '1', 1);
    case Pence5 => ReadHundredths("0.05", '0', '5', 5);
  }

  /** "0.<c>" read with one fraction digit is the digit's value in tenths. */
  lemma ReadTenths(s: string, c: char, k: nat)
    requires s == ['0', '.', c] && IsDigit(c) && DigitValue(c) == k
    ensures ReadFixed(s, 1) == Some(k as real / 10.0)
  {
    var a := "0";
    assert s == a + "." + [c];
    ReadPointed(a, [c], 1);
    ValueOfSnoc(a, c);
    assert ValueOf(a) == 0 by { assert a[..0] == ""; }
    assert a + [c] == ['0', c];
    assert ReadUnits(s, 1) == Some(k);
    assert Pow10(1) == 10;
  }

  /** "0.<c1><c2>" read with two fraction digits is its value in hundredths. */
  lemma ReadHundredths(s: string, c1: char, c2: char, k: nat)
    requires s == ['0', '.', c1, c2] && c1 == '0' && IsDigit(c2) && DigitValue(c2) == k
    ensures ReadFixed(s, 2) == Some(k as real / 100.0)
  {
    var a, b := "0", [c1, c2];
    assert s == a + "." + b;
    ReadPointed(a, b, 2);
    assert ValueOf(a) == 0 by { assert a[..0] == ""; }
    ValueOfSnoc(a, c1);
    assert a + [c1] == "00";
    ValueOfSnoc("00", c2);
    assert a + b == "00" + [c2];
    assert ReadUnits(s, 2) == Some(k);
    assert Pow10(2) == 100;
  }

  /**
   * Read back, every label gives the denomination's value: the digits before
   * "p" are its value in pence, the digits after "£" its value in pounds.
   */
  lemma DenominationLabelShowsValue(d: Denomination)
    ensures var shown := FormatDenominationLabel(d);
            if Value(d) < 1.0 then
              |shown| >= 2 && shown[|shown| - 1] == 'p'
              && ReadFixed(shown[..|shown| - 1], 0) == Some(Value(d) * 100.0)
            else
              |shown| >= 2 && shown[0] == '£'
              && ReadFixed(shown[1..], 0) == Some(Value(d))
  {
    if Value(d) < 1.0 {
      PenceLabelShowsValue(d);
    } else {
      KeySpellsValue(d);
      assert FormatDenominationLabel(d)[1..] == Key(d);
    }
  }

  lemma PenceLabelShowsValue(d: Denomination)
    requires Value(d) < 1.0
    ensures var shown := FormatDenominationLabel(d);
            |shown| >= 2 && shown[|shown| - 1] == 'p'
            && ReadFixed(shown[..|shown| - 1], 0) == Some(Value(d) * 100.0)
  {
    var k := match d
      case Pence50 => 50
      case Pence20 => 20
      case Pence10 => 10
      case _ => 5;
    WholeNumberSuffixed(Value(d) * 100.0, k, "p");
  }

  /** A whole number shown by toFixed(0) with a suffix reads back exactly. */
  lemma WholeNumberSuffixed(x: real, k: int, suffix: string)
    requires x == k as real && |suffix| == 1
    ensures var t := ToFixed(x, 0) + suffix;
            |t| >= 2 && t[|t| - 1] == suffix[0] && ReadFixed(t[..|t| - 1], 0) == Some(x)
  {
    assert Pow10(0) == 1;
    ToFixedExact(x, 0, k);
    ToFixedCharacters(x, 0);
    var u := ToFixed(x, 0);
    var t := u + suffix;
    assert t[..|t| - 1] == u && t[|t| - 1] == suffix[0];
    assert ReadFixed(u, 0) == Some(k as real / 1.0);
  }

  /** The nine labels, as the form shows them. */
  lemma DenominationLabels()
    ensures FormatDenominationLabel(Pounds50) == "£50"
    ensures FormatDenominationLabel(Pound1) == "£1"
    ensures FormatDenominationLabel(Pence50) == "50p"
    ensures FormatDenominationLabel(Pence5) == "5p"
  {
    assert ToFixed(50.0, 0) == "50";
    assert ToFixed(5.0, 0) == "5";
  }

  /** An hour of the day on the local clock. */
  type Hour = h: int | 0 <= h < 24

  /**
   * The day a cash-up is attributed to: before 03:00 it still belongs to
   * the previous calendar day. Days are numbered consecutively.
   */
  function DisplayDay(today: int, hour: Hour): (day: int)
    ensures day == today - 1 <==> hour < 3
    ensures today - 1 <= day <= today
  {
    if 0 <= hour < 3 then today - 1 else today
  }

  /**
   * Counting hours t from the start of day 0, the business day runs from
   * 03:00 to 03:00: it is the day of the hour three hours earlier.
   */
  lemma BusinessDayStartsAtThree(t: int)
    ensures DisplayDay(t / 24, t % 24) == (t - 3) / 24
  {
    var day, hour := t / 24, t % 24;
    assert t == 24 * day + hour;
    if hour < 3 {
      assert t - 3 == 24 * (day - 1) + (hour + 21);
    } else {
      assert t - 3 == 24 * day + (hour - 3);
    }
  }

  /**
   * The header "<weekday>, <date>" for the business day; the weekday and
   * date texts of a day come from the locale's calendar, given here.
   */
  function DisplayDayAndDate(today: int, hour: Hour, weekdayName: int -> string, dateText: int -> string): string {
    var day := DisplayDay(today, hour);
    weekdayName(day) + ", " + dateText(day)
  }

  /** Two cash-ups in the same 03:00-to-03:00 business day get the same header. */
  lemma HeaderFixedWithinBusinessDay(t1: int, t2: int, weekdayName: int -> string, dateText: int -> string)
    requires (t1 - 3) / 24 == (t2 - 3) / 24
    ensures DisplayDayAndDate(t1 / 24, t1 % 24, weekdayName, dateText)
         == DisplayDayAndDate(t2 / 24, t2 % 24, weekdayName, dateText)
  {
    BusinessDayStartsAtThree(t1);
    BusinessDayStartsAtThree(t2);
  }
}
