/** The renderings the duration tests expect of `to_string`, each built from
    the pieces of `Format` one at a time. */
module FormatExamples {
  import opened Numeric
  import opened Durations
  import opened Formatter

  lemma SingleDigit(n: nat, c: char)
    requires n < 10 && c == DigitChar(n)
    ensures NatToString(n) == [c]
  {
  }

  /** The decimal form of `n` is that of `n / 10` and then its last digit. */
  lemma DecimalStep(n: nat, prefix: string, c: char)
    requires n >= 10 && NatToString(n / 10) == prefix && c == DigitChar(n % 10)
    ensures NatToString(n) == prefix + [c]
  {
  }

  /** Padding `n` to `w` digits is padding `n / 10` to one digit fewer and
      then its last digit; `p` is the bound on `n / 10`. */
  lemma PadStep(n: nat, w: nat, p: nat, prefix: string, r: string)
    requires 0 < w && p == Pow10(w - 1) && n < 10 * p && n / 10 < p
    requires ZeroPad(n / 10, w - 1) == prefix && r == prefix + [DigitChar(n % 10)]
    ensures ZeroPad(n, w) == r
  {
  }

  lemma StripZero(ds: string, shorter: string, r: string)
    requires |ds| > 0 && ds[|ds| - 1] == '0' && shorter == ds[..|ds| - 1]
    requires StripTrailingZeros(shorter) == r
    ensures StripTrailingZeros(ds) == r
  {
  }

  lemma StripStop(ds: string)
    requires |ds| > 0 && ds[|ds| - 1] != '0'
    ensures StripTrailingZeros(ds) == ds
  {
  }

  /** The fraction is the six-digit padding with its zeros stripped. */
  lemma MicroOf(m: nat, padded: string, f: string)
    requires 0 < m < Million
    requires ZeroPad(m, FractionDigits) == padded && StripTrailingZeros(padded) == f
    ensures MicroFraction(m) == f
  {
    assert Pow10(FractionDigits) == Million;
  }

  lemma YearFields(d: Duration)
    requires d.day / DaysPerYear > 0
    ensures YearPart(d) == NatToString(d.day / DaysPerYear) + "Y"
  {
  }

  lemma NoYearPart(d: Duration)
    requires d.day < DaysPerYear
    ensures YearPart(d) == ""
  {
  }

  lemma DayFields(d: Duration)
    requires d.day % DaysPerYear > 0
    ensures DayPart(d) == NatToString(d.day % DaysPerYear) + "D"
  {
  }

  lemma NoDayPart(d: Duration)
    requires d.day % DaysPerYear == 0
    ensures DayPart(d) == ""
  {
  }

  lemma NoTimePart(d: Duration)
    requires Valid(d) && d.second == 0 && d.microsecond == 0
    ensures TimePart(d) == ""
  {
  }

  lemma WholeSecondsFields(d: Duration)
    requires Valid(d) && d.second > 0 && d.microsecond == 0
    ensures TimePart(d) == "T" + NatToString(d.second) + "S"
  {
  }

  lemma FractionalSecondsFields(d: Duration)
    requires Valid(d) && d.microsecond > 0
    ensures TimePart(d) == "T" + NatToString(d.second) + "." + MicroFraction(d.microsecond) + "S"
  {
  }

  /** A duration with some non-zero part has 'P' and its parts as body. */
  lemma BodyOfParts(d: Duration)
    requires Valid(d) && YearPart(d) + DayPart(d) + TimePart(d) != ""
    ensures Body(d) == "P" + (YearPart(d) + DayPart(d) + TimePart(d))
  {
  }

  lemma FormatOfBody(d: Duration, sign: string)
    requires Valid(d) && sign == (if d.positive then "" else "-")
    ensures Format(d) == sign + Body(d)
  {
  }
  lemma Decimal1()
    ensures NatToString(1) == "1"
  {
    SingleDigit(1, '1');
  }
  lemma YearText1()
    ensures NatToString(1) + "Y" == "1Y"
  {
    Decimal1();
  }
  lemma RenderYearJoined()
    ensures "1Y" + "" + "" == "1Y"
  {
  }
  lemma RenderYearParts()
    ensures YearPart(Duration(true, 365, 0, 0)) + DayPart(Duration(true, 365, 0, 0)) + TimePart(Duration(true, 365, 0, 0)) == "1Y"
  {
    YearFields(Duration(true, 365, 0, 0));
    YearText1();
    NoDayPart(Duration(true, 365, 0, 0));
    NoTimePart(Duration(true, 365, 0, 0));
    RenderYearJoined();
  }
  lemma RenderYearText()
    ensures "" + ("P" + "1Y") == "P1Y"
  {
  }
  lemma RenderYear()
    ensures Format(Duration(true, 365, 0, 0)) == "P1Y"
  {
    RenderYearParts();
    BodyOfParts(Duration(true, 365, 0, 0));
    FormatOfBody(Duration(true, 365, 0, 0), "");
    RenderYearText();
  }
  lemma Decimal12()
    ensures NatToString(12) == "12"
  {
    Decimal1();
    DecimalStep(12, "1", '2');
  }
  lemma Decimal123()
    ensures NatToString(123) == "123"
  {
    Decimal12();
    DecimalStep(123, "12", '3');
  }
  lemma YearText123()
    ensures NatToString(123) + "Y" == "123Y"
  {
    Decimal123();
  }
  lemma RenderYearsJoined()
    ensures "123Y" + "" + "" == "123Y"
  {
  }
  lemma RenderYearsParts()
    ensures YearPart(Duration(true, 44895, 0, 0)) + DayPart(Duration(true, 44895, 0, 0)) + TimePart(Duration(true, 44895, 0, 0)) == "123Y"
  {
    YearFields(Duration(true, 44895, 0, 0));
    YearText123();
    NoDayPart(Duration(true, 44895, 0, 0));
    NoTimePart(Duration(true, 44895, 0, 0));
    RenderYearsJoined();
  }
  lemma RenderYearsText()
    ensures "" + ("P" + "123Y") == "P123Y"
  {
  }
  lemma RenderYears()
    ensures Format(Duration(true, 44895, 0, 0)) == "P123Y"
  {
    RenderYearsParts();
    BodyOfParts(Duration(true, 44895, 0, 0));
    FormatOfBody(Duration(true, 44895, 0, 0), "");
    RenderYearsText();
  }
  lemma Decimal2()
    ensures NatToString(2) == "2"
  {
    SingleDigit(2, '2');
  }
  lemma Decimal29()
    ensures NatToString(29) == "29"
  {
    Decimal2();
    DecimalStep(29, "2", '9');
  }
  lemma Decimal292()
    ensures NatToString(292) == "292"
  {
    Decimal29();
    DecimalStep(292, "29", '2');
  }
  lemma DayText292()
    ensures NatToString(292) + "D" == "292D"
  {
    Decimal292();
  }
  lemma RenderYearsAndDaysJoined()
    ensures "123Y" + "292D" + "" == "123Y292D"
  {
  }
  lemma RenderYearsAndDaysParts()
    ensures YearPart(Duration(true, 45187, 0, 0)) + DayPart(Duration(true, 45187, 0, 0)) + TimePart(Duration(true, 45187, 0, 0)) == "123Y292D"
  {
    YearFields(Duration(true, 45187, 0, 0));
    YearText123();
    DayFields(Duration(true, 45187, 0, 0));
    DayText292();
    NoTimePart(Duration(true, 45187, 0, 0));
    RenderYearsAndDaysJoined();
  }
  lemma RenderYearsAndDaysText()
    ensures "" + ("P" + "123Y292D") == "P123Y292D"
  {
  }
  lemma RenderYearsAndDays()
    ensures Format(Duration(true, 45187, 0, 0)) == "P123Y292D"
  {
    RenderYearsAndDaysParts();
    BodyOfParts(Duration(true, 45187, 0, 0));
    FormatOfBody(Duration(true, 45187, 0, 0), "");
    RenderYearsAndDaysText();
  }
  lemma Decimal3()
    ensures NatToString(3) == "3"
  {
    SingleDigit(3, '3');
  }
  lemma Decimal30()
    ensures NatToString(30) == "30"
  {
    Decimal3();
    DecimalStep(30, "3", '0');
  }
  lemma DayText30()
    ensures NatToString(30) + "D" == "30D"
  {
    Decimal30();
  }
  lemma RenderMonthJoined()
    ensures "" + "30D" + "" == "30D"
  {
  }
  lemma RenderMonthParts()
    ensures YearPart(Duration(true, 30, 0, 0)) + DayPart(Duration(true, 30, 0, 0)) + TimePart(Duration(true, 30, 0, 0)) == "30D"
  {
    NoYearPart(Duration(true, 30, 0, 0));
    DayFields(Duration(true, 30, 0, 0));
    DayText30();
    NoTimePart(Duration(true, 30, 0, 0));
    RenderMonthJoined();
  }
  lemma RenderMonthText()
    ensures "" + ("P" + "30D") == "P30D"
  {
  }
  lemma RenderMonth()
    ensures Format(Duration(true, 30, 0, 0)) == "P30D"
  {
    RenderMonthParts();
    BodyOfParts(Duration(true, 30, 0, 0));
    FormatOfBody(Duration(true, 30, 0, 0), "");
    RenderMonthText();
  }
  lemma Decimal4()
    ensures NatToString(4) == "4"
  {
    SingleDigit(4, '4');
  }
  lemma Decimal45()
    ensures NatToString(45) == "45"
  {
    Decimal4();
    DecimalStep(45, "4", '5');
  }
  lemma DayText45()
    ensures NatToString(45) + "D" == "45D"
  {
    Decimal45();
  }
  lemma RenderMonthAndHalfJoined()
    ensures "" + "45D" + "" == "45D"
  {
  }
  lemma RenderMonthAndHalfParts()
    ensures YearPart(Duration(true, 45, 0, 0)) + DayPart(Duration(true, 45, 0, 0)) + TimePart(Duration(true, 45, 0, 0)) == "45D"
  {
    NoYearPart(Duration(true, 45, 0, 0));
    DayFields(Duration(true, 45, 0, 0));
    DayText45();
    NoTimePart(Duration(true, 45, 0, 0));
    RenderMonthAndHalfJoined();
  }
  lemma RenderMonthAndHalfText()
    ensures "" + ("P" + "45D") == "P45D"
  {
  }
  lemma RenderMonthAndHalf()
    ensures Format(Duration(true, 45, 0, 0)) == "P45D"
  {
    RenderMonthAndHalfParts();
    BodyOfParts(Duration(true, 45, 0, 0));
    FormatOfBody(Duration(true, 45, 0, 0), "");
    RenderMonthAndHalfText();
  }
  lemma Decimal7()
    ensures NatToString(7) == "7"
  {
    SingleDigit(7, '7');
  }
  lemma DayText7()
    ensures NatToString(7) + "D" == "7D"
  {
    Decimal7();
  }
  lemma RenderWeekJoined()
    ensures "" + "7D" + "" == "7D"
  {
  }
  lemma RenderWeekParts()
    ensures YearPart(Duration(true, 7, 0, 0)) + DayPart(Duration(true, 7, 0, 0)) + TimePart(Duration(true, 7, 0, 0)) == "7D"
  {
    NoYearPart(Duration(true, 7, 0, 0));
    DayFields(Duration(true, 7, 0, 0));
    DayText7();
    NoTimePart(Duration(true, 7, 0, 0));
    RenderWeekJoined();
  }
  lemma RenderWeekText()
    ensures "" + ("P" + "7D") == "P7D"
  {
  }
  lemma RenderWeek()
    ensures Format(Duration(true, 7, 0, 0)) == "P7D"
  {
    RenderWeekParts();
    BodyOfParts(Duration(true, 7, 0, 0));
    FormatOfBody(Duration(true, 7, 0, 0), "");
    RenderWeekText();
  }
  lemma Decimal6()
    ensures NatToString(6) == "6"
  {
    SingleDigit(6, '6');
  }
  lemma Decimal60()
    ensures NatToString(60) == "60"
  {
    Decimal6();
    DecimalStep(60, "6", '0');
  }
  lemma Decimal604()
    ensures NatToString(604) == "604"
  {
    Decimal60();
    DecimalStep(604, "60", '4');
  }
  lemma Decimal6048()
    ensures NatToString(6048) == "6048"
  {
    Decimal604();
    DecimalStep(6048, "604", '8');
  }
  lemma Decimal60480()
    ensures NatToString(60480) == "60480"
  {
    Decimal6048();
    DecimalStep(60480, "6048", '0');
  }
  lemma SecondsText60480()
    ensures "T" + NatToString(60480) + "S" == "T60480S"
  {
    Decimal60480();
  }
  lemma RenderWeekAndSecondsJoined()
    ensures "" + "7D" + "T60480S" == "7DT60480S"
  {
  }
  lemma RenderWeekAndSecondsParts()
    ensures YearPart(Duration(true, 7, 60480, 0)) + DayPart(Duration(true, 7, 60480, 0)) + TimePart(Duration(true, 7, 60480, 0)) == "7DT60480S"
  {
    NoYearPart(Duration(true, 7, 60480, 0));
    DayFields(Duration(true, 7, 60480, 0));
    DayText7();
    WholeSecondsFields(Duration(true, 7, 60480, 0));
    SecondsText60480();
    RenderWeekAndSecondsJoined();
  }
  lemma RenderWeekAndSecondsText()
    ensures "" + ("P" + "7DT60480S") == "P7DT60480S"
  {
  }
  lemma RenderWeekAndSeconds()
    ensures Format(Duration(true, 7, 60480, 0)) == "P7DT60480S"
  {
    RenderWeekAndSecondsParts();
    BodyOfParts(Duration(true, 7, 60480, 0));
    FormatOfBody(Duration(true, 7, 60480, 0), "");
    RenderWeekAndSecondsText();
  }
  lemma Decimal74()
    ensures NatToString(74) == "74"
  {
    Decimal7();
    DecimalStep(74, "7", '4');
  }
  lemma Decimal743()
    ensures NatToString(743) == "743"
  {
    Decimal74();
    DecimalStep(743, "74", '3');
  }
  lemma Decimal7439()
    ensures NatToString(7439) == "7439"
  {
    Decimal743();
    DecimalStep(7439, "743", '9');
  }
  lemma Decimal74390()
    ensures NatToString(74390) == "74390"
  {
    Decimal7439();
    DecimalStep(74390, "7439", '0');
  }
  lemma Pad400Width3()
    ensures ZeroPad(400, 3) == "400"
  {
  }
  lemma Pad4000Width4()
    ensures ZeroPad(4000, 4) == "4000"
  {
    Pad400Width3();
    PadStep(4000, 4, 1000, "400", "4000");
  }
  lemma Pad40000Width5()
    ensures ZeroPad(40000, 5) == "40000"
  {
    Pad4000Width4();
    PadStep(40000, 5, 10000, "4000", "40000");
  }
  lemma Pad400000Width6()
    ensures ZeroPad(400000, 6) == "400000"
  {
    Pad40000Width5();
    PadStep(400000, 6, 100000, "40000", "400000");
  }
  lemma Strip4()
    ensures StripTrailingZeros("4") == "4"
  {
    StripStop("4");
  }
  lemma Strip40()
    ensures StripTrailingZeros("40") == "4"
  {
    Strip4();
    StripZero("40", "4", "4");
  }
  lemma Strip400()
    ensures StripTrailingZeros("400") == "4"
  {
    Strip40();
    StripZero("400", "40", "4");
  }
  lemma Strip4000()
    ensures StripTrailingZeros("4000") == "4"
  {
    Strip400();
    StripZero("4000", "400", "4");
  }
  lemma Strip40000()
    ensures StripTrailingZeros("40000") == "4"
  {
    Strip4000();
    StripZero("40000", "4000", "4");
  }
  lemma Strip400000()
    ensures StripTrailingZeros("400000") == "4"
  {
    Strip40000();
    StripZero("400000", "40000", "4");
  }
  lemma Micro400000()
    ensures MicroFraction(400000) == "4"
  {
    Pad400000Width6();
    Strip400000();
    MicroOf(400000, "400000", "4");
  }
  lemma SecondsText74390With400000()
    ensures "T" + NatToString(74390) + "." + MicroFraction(400000) + "S" == "T74390.4S"
  {
    Decimal74390();
    Micro400000();
  }
  lemma RenderWeekAndFractionJoined()
    ensures "" + "7D" + "T74390.4S" == "7DT74390.4S"
  {
  }
  lemma RenderWeekAndFractionParts()
    ensures YearPart(Duration(true, 7, 74390, 400000)) + DayPart(Duration(true, 7, 74390, 400000)) + TimePart(Duration(true, 7, 74390, 400000)) == "7DT74390.4S"
  {
    NoYearPart(Duration(true, 7, 74390, 400000));
    DayFields(Duration(true, 7, 74390, 400000));
    DayText7();
    FractionalSecondsFields(Duration(true, 7, 74390, 400000));
    SecondsText74390With400000();
    RenderWeekAndFractionJoined();
  }
  lemma RenderWeekAndFractionText()
    ensures "" + ("P" + "7DT74390.4S") == "P7DT74390.4S"
  {
  }
  lemma RenderWeekAndFraction()
    ensures Format(Duration(true, 7, 74390, 400000)) == "P7DT74390.4S"
  {
    RenderWeekAndFractionParts();
    BodyOfParts(Duration(true, 7, 74390, 400000));
    FormatOfBody(Duration(true, 7, 74390, 400000), "");
    RenderWeekAndFractionText();
  }
  lemma RenderNegativeYearJoined()
    ensures "1Y" + "" + "" == "1Y"
  {
  }
  lemma RenderNegativeYearParts()
    ensures YearPart(Duration(false, 365, 0, 0)) + DayPart(Duration(false, 365, 0, 0)) + TimePart(Duration(false, 365, 0, 0)) == "1Y"
  {
    YearFields(Duration(false, 365, 0, 0));
    YearText1();
    NoDayPart(Duration(false, 365, 0, 0));
    NoTimePart(Duration(false, 365, 0, 0));
    RenderNegativeYearJoined();
  }
  lemma RenderNegativeYearText()
    ensures "-" + ("P" + "1Y") == "-P1Y"
  {
  }
  lemma RenderNegativeYear()
    ensures Format(Duration(false, 365, 0, 0)) == "-P1Y"
  {
    RenderNegativeYearParts();
    BodyOfParts(Duration(false, 365, 0, 0));
    FormatOfBody(Duration(false, 365, 0, 0), "-");
    RenderNegativeYearText();
  }
  lemma Decimal0()
    ensures NatToString(0) == "0"
  {
    SingleDigit(0, '0');
  }
  lemma Pad555Width3()
    ensures ZeroPad(555, 3) == "555"
  {
  }
  lemma Pad5555Width4()
    ensures ZeroPad(5555, 4) == "5555"
  {
    Pad555Width3();
    PadStep(5555, 4, 1000, "555", "5555");
  }
  lemma Pad55555Width5()
    ensures ZeroPad(55555, 5) == "55555"
  {
    Pad5555Width4();
    PadStep(55555, 5, 10000, "5555", "55555");
  }
  lemma Pad555555Width6()
    ensures ZeroPad(555555, 6) == "555555"
  {
    Pad55555Width5();
    PadStep(555555, 6, 100000, "55555", "555555");
  }
  lemma Strip555555()
    ensures StripTrailingZeros("555555") == "555555"
  {
    StripStop("555555");
  }
  lemma Micro555555()
    ensures MicroFraction(555555) == "555555"
  {
    Pad555555Width6();
    Strip555555();
    MicroOf(555555, "555555", "555555");
  }
  lemma SecondsText0With555555()
    ensures "T" + NatToString(0) + "." + MicroFraction(555555) + "S" == "T0.555555S"
  {
    Decimal0();
    Micro555555();
  }
  lemma RenderFractionJoined()
    ensures "" + "" + "T0.555555S" == "T0.555555S"
  {
  }
  lemma RenderFractionParts()
    ensures YearPart(Duration(true, 0, 0, 555555)) + DayPart(Duration(true, 0, 0, 555555)) + TimePart(Duration(true, 0, 0, 555555)) == "T0.555555S"
  {
    NoYearPart(Duration(true, 0, 0, 555555));
    NoDayPart(Duration(true, 0, 0, 555555));
    FractionalSecondsFields(Duration(true, 0, 0, 555555));
    SecondsText0With555555();
    RenderFractionJoined();
  }
  lemma RenderFractionText()
    ensures "" + ("P" + "T0.555555S") == "PT0.555555S"
  {
  }
  lemma RenderFraction()
    ensures Format(Duration(true, 0, 0, 555555)) == "PT0.555555S"
  {
    RenderFractionParts();
    BodyOfParts(Duration(true, 0, 0, 555555));
    FormatOfBody(Duration(true, 0, 0, 555555), "");
    RenderFractionText();
  }
  lemma DayText1()
    ensures NatToString(1) + "D" == "1D"
  {
    Decimal1();
  }
  lemma Decimal72()
    ensures NatToString(72) == "72"
  {
    Decimal7();
    DecimalStep(72, "7", '2');
  }
  lemma Decimal720()
    ensures NatToString(720) == "720"
  {
    Decimal72();
    DecimalStep(720, "72", '0');
  }
  lemma Decimal7200()
    ensures NatToString(7200) == "7200"
  {
    Decimal720();
    DecimalStep(7200, "720", '0');
  }
  lemma Pad500Width3()
    ensures ZeroPad(500, 3) == "500"
  {
  }
  lemma Pad5000Width4()
    ensures ZeroPad(5000, 4) == "5000"
  {
    Pad500Width3();
    PadStep(5000, 4, 1000, "500", "5000");
  }
  lemma Pad50000Width5()
    ensures ZeroPad(50000, 5) == "50000"
  {
    Pad5000Width4();
    PadStep(50000, 5, 10000, "5000", "50000");
  }
  lemma Pad500000Width6()
    ensures ZeroPad(500000, 6) == "500000"
  {
    Pad50000Width5();
    PadStep(500000, 6, 100000, "50000", "500000");
  }
  lemma Strip5()
    ensures StripTrailingZeros("5") == "5"
  {
    StripStop("5");
  }
  lemma Strip50()
    ensures StripTrailingZeros("50") == "5"
  {
    Strip5();
    StripZero("50", "5", "5");
  }
  lemma Strip500()
    ensures StripTrailingZeros("500") == "5"
  {
    Strip50();
    StripZero("500", "50", "5");
  }
  lemma Strip5000()
    ensures StripTrailingZeros("5000") == "5"
  {
    Strip500();
    StripZero("5000", "500", "5");
  }
  lemma Strip50000()
    ensures StripTrailingZeros("50000") == "5"
  {
    Strip5000();
    StripZero("50000", "5000", "5");
  }
  lemma Strip500000()
    ensures StripTrailingZeros("500000") == "5"
  {
    Strip50000();
    StripZero("500000", "50000", "5");
  }
  lemma Micro500000()
    ensures MicroFraction(500000) == "5"
  {
    Pad500000Width6();
    Strip500000();
    MicroOf(500000, "500000", "5");
  }
  lemma SecondsText7200With500000()
    ensures "T" + NatToString(7200) + "." + MicroFraction(500000) + "S" == "T7200.5S"
  {
    Decimal7200();
    Micro500000();
  }
  lemma RenderYearDayFractionJoined()
    ensures "1Y" + "1D" + "T7200.5S" == "1Y1DT7200.5S"
  {
  }
  lemma RenderYearDayFractionParts()
    ensures YearPart(Duration(true, 366, 7200, 500000)) + DayPart(Duration(true, 366, 7200, 500000)) + TimePart(Duration(true, 366, 7200, 500000)) == "1Y1DT7200.5S"
  {
    YearFields(Duration(true, 366, 7200, 500000));
    YearText1();
    DayFields(Duration(true, 366, 7200, 500000));
    DayText1();
    FractionalSecondsFields(Duration(true, 366, 7200, 500000));
    SecondsText7200With500000();
    RenderYearDayFractionJoined();
  }
  lemma RenderYearDayFractionText()
    ensures "" + ("P" + "1Y1DT7200.5S") == "P1Y1DT7200.5S"
  {
  }
  lemma RenderYearDayFraction()
    ensures Format(Duration(true, 366, 7200, 500000)) == "P1Y1DT7200.5S"
  {
    RenderYearDayFractionParts();
    BodyOfParts(Duration(true, 366, 7200, 500000));
    FormatOfBody(Duration(true, 366, 7200, 500000), "");
    RenderYearDayFractionText();
  }
  lemma SecondsText1()
    ensures "T" + NatToString(1) + "S" == "T1S"
  {
    Decimal1();
  }
  lemma RenderDayAndSecondJoined()
    ensures "" + "1D" + "T1S" == "1DT1S"
  {
  }
  lemma RenderDayAndSecondParts()
    ensures YearPart(Duration(true, 1, 1, 0)) + DayPart(Duration(true, 1, 1, 0)) + TimePart(Duration(true, 1, 1, 0)) == "1DT1S"
  {
    NoYearPart(Duration(true, 1, 1, 0));
    DayFields(Duration(true, 1, 1, 0));
    DayText1();
    WholeSecondsFields(Duration(true, 1, 1, 0));
    SecondsText1();
    RenderDayAndSecondJoined();
  }
  lemma RenderDayAndSecondText()
    ensures "" + ("P" + "1DT1S") == "P1DT1S"
  {
  }
  lemma RenderDayAndSecond()
    ensures Format(Duration(true, 1, 1, 0)) == "P1DT1S"
  {
    RenderDayAndSecondParts();
    BodyOfParts(Duration(true, 1, 1, 0));
    FormatOfBody(Duration(true, 1, 1, 0), "");
    RenderDayAndSecondText();
  }
  lemma Decimal63()
    ensures NatToString(63) == "63"
  {
    Decimal6();
    DecimalStep(63, "6", '3');
  }
  lemma DayText63()
    ensures NatToString(63) + "D" == "63D"
  {
    Decimal63();
  }
  lemma Decimal14()
    ensures NatToString(14) == "14"
  {
    Decimal1();
    DecimalStep(14, "1", '4');
  }
  lemma Decimal147()
    ensures NatToString(147) == "147"
  {
    Decimal14();
    DecimalStep(147, "14", '7');
  }
  lemma Decimal1470()
    ensures NatToString(1470) == "1470"
  {
    Decimal147();
    DecimalStep(1470, "147", '0');
  }
  lemma Decimal14706()
    ensures NatToString(14706) == "14706"
  {
    Decimal1470();
    DecimalStep(14706, "1470", '6');
  }
  lemma SecondsText14706()
    ensures "T" + NatToString(14706) + "S" == "T14706S"
  {
    Decimal14706();
  }
  lemma RenderYearDaysSecondsJoined()
    ensures "1Y" + "63D" + "T14706S" == "1Y63DT14706S"
  {
  }
  lemma RenderYearDaysSecondsParts()
    ensures YearPart(Duration(true, 428, 14706, 0)) + DayPart(Duration(true, 428, 14706, 0)) + TimePart(Duration(true, 428, 14706, 0)) == "1Y63DT14706S"
  {
    YearFields(Duration(true, 428, 14706, 0));
    YearText1();
    DayFields(Duration(true, 428, 14706, 0));
    DayText63();
    WholeSecondsFields(Duration(true, 428, 14706, 0));
    SecondsText14706();
    RenderYearDaysSecondsJoined();
  }
  lemma RenderYearDaysSecondsText()
    ensures "" + ("P" + "1Y63DT14706S") == "P1Y63DT14706S"
  {
  }
  lemma RenderYearDaysSeconds()
    ensures Format(Duration(true, 428, 14706, 0)) == "P1Y63DT14706S"
  {
    RenderYearDaysSecondsParts();
    BodyOfParts(Duration(true, 428, 14706, 0));
    FormatOfBody(Duration(true, 428, 14706, 0), "");
    RenderYearDaysSecondsText();
  }
  lemma Decimal42()
    ensures NatToString(42) == "42"
  {
    Decimal4();
    DecimalStep(42, "4", '2');
  }
  lemma SecondsText42()
    ensures "T" + NatToString(42) + "S" == "T42S"
  {
    Decimal42();
  }
  lemma RenderSeconds42Joined()
    ensures "" + "" + "T42S" == "T42S"
  {
  }
  lemma RenderSeconds42Parts()
    ensures YearPart(Duration(true, 0, 42, 0)) + DayPart(Duration(true, 0, 42, 0)) + TimePart(Duration(true, 0, 42, 0)) == "T42S"
  {
    NoYearPart(Duration(true, 0, 42, 0));
    NoDayPart(Duration(true, 0, 42, 0));
    WholeSecondsFields(Duration(true, 0, 42, 0));
    SecondsText42();
    RenderSeconds42Joined();
  }
  lemma RenderSeconds42Text()
    ensures "" + ("P" + "T42S") == "PT42S"
  {
  }
  lemma RenderSeconds42()
    ensures Format(Duration(true, 0, 42, 0)) == "PT42S"
  {
    RenderSeconds42Parts();
    BodyOfParts(Duration(true, 0, 42, 0));
    FormatOfBody(Duration(true, 0, 42, 0), "");
    RenderSeconds42Text();
  }
  lemma SecondsText60()
    ensures "T" + NatToString(60) + "S" == "T60S"
  {
    Decimal60();
  }
  lemma RenderSeconds60Joined()
    ensures "" + "" + "T60S" == "T60S"
  {
  }
  lemma RenderSeconds60Parts()
    ensures YearPart(Duration(true, 0, 60, 0)) + DayPart(Duration(true, 0, 60, 0)) + TimePart(Duration(true, 0, 60, 0)) == "T60S"
  {
    NoYearPart(Duration(true, 0, 60, 0));
    NoDayPart(Duration(true, 0, 60, 0));
    WholeSecondsFields(Duration(true, 0, 60, 0));
    SecondsText60();
    RenderSeconds60Joined();
  }
  lemma RenderSeconds60Text()
    ensures "" + ("P" + "T60S") == "PT60S"
  {
  }
  lemma RenderSeconds60()
    ensures Format(Duration(true, 0, 60, 0)) == "PT60S"
  {
    RenderSeconds60Parts();
    BodyOfParts(Duration(true, 0, 60, 0));
    FormatOfBody(Duration(true, 0, 60, 0), "");
    RenderSeconds60Text();
  }
  lemma Decimal37()
    ensures NatToString(37) == "37"
  {
    Decimal3();
    DecimalStep(37, "3", '7');
  }
  lemma Decimal372()
    ensures NatToString(372) == "372"
  {
    Decimal37();
    DecimalStep(372, "37", '2');
  }
  lemma Decimal3723()
    ensures NatToString(3723) == "3723"
  {
    Decimal372();
    DecimalStep(3723, "372", '3');
  }
  lemma SecondsText3723()
    ensures "T" + NatToString(3723) + "S" == "T3723S"
  {
    Decimal3723();
  }
  lemma RenderSeconds3723Joined()
    ensures "" + "" + "T3723S" == "T3723S"
  {
  }
  lemma RenderSeconds3723Parts()
    ensures YearPart(Duration(true, 0, 3723, 0)) + DayPart(Duration(true, 0, 3723, 0)) + TimePart(Duration(true, 0, 3723, 0)) == "T3723S"
  {
    NoYearPart(Duration(true, 0, 3723, 0));
    NoDayPart(Duration(true, 0, 3723, 0));
    WholeSecondsFields(Duration(true, 0, 3723, 0));
    SecondsText3723();
    RenderSeconds3723Joined();
  }
  lemma RenderSeconds3723Text()
    ensures "" + ("P" + "T3723S") == "PT3723S"
  {
  }
  lemma RenderSeconds3723()
    ensures Format(Duration(true, 0, 3723, 0)) == "PT3723S"
  {
    RenderSeconds3723Parts();
    BodyOfParts(Duration(true, 0, 3723, 0));
    FormatOfBody(Duration(true, 0, 3723, 0), "");
    RenderSeconds3723Text();
  }
  lemma Pad123Width3()
    ensures ZeroPad(123, 3) == "123"
  {
  }
  lemma Pad1230Width4()
    ensures ZeroPad(1230, 4) == "1230"
  {
    Pad123Width3();
    PadStep(1230, 4, 1000, "123", "1230");
  }
  lemma Pad12300Width5()
    ensures ZeroPad(12300, 5) == "12300"
  {
    Pad1230Width4();
    PadStep(12300, 5, 10000, "1230", "12300");
  }
  lemma Pad123000Width6()
    ensures ZeroPad(123000, 6) == "123000"
  {
    Pad12300Width5();
    PadStep(123000, 6, 100000, "12300", "123000");
  }
  lemma Strip123()
    ensures StripTrailingZeros("123") == "123"
  {
    StripStop("123");
  }
  lemma Strip1230()
    ensures StripTrailingZeros("1230") == "123"
  {
    Strip123();
    StripZero("1230", "123", "123");
  }
  lemma Strip12300()
    ensures StripTrailingZeros("12300") == "123"
  {
    Strip1230();
    StripZero("12300", "1230", "123");
  }
  lemma Strip123000()
    ensures StripTrailingZeros("123000") == "123"
  {
    Strip12300();
    StripZero("123000", "12300", "123");
  }
  lemma Micro123000()
    ensures MicroFraction(123000) == "123"
  {
    Pad123000Width6();
    Strip123000();
    MicroOf(123000, "123000", "123");
  }
  lemma SecondsText63With123000()
    ensures "T" + NatToString(63) + "." + MicroFraction(123000) + "S" == "T63.123S"
  {
    Decimal63();
    Micro123000();
  }
  lemma RenderSecondsFractionJoined()
    ensures "" + "" + "T63.123S" == "T63.123S"
  {
  }
  lemma RenderSecondsFractionParts()
    ensures YearPart(Duration(true, 0, 63, 123000)) + DayPart(Duration(true, 0, 63, 123000)) + TimePart(Duration(true, 0, 63, 123000)) == "T63.123S"
  {
    NoYearPart(Duration(true, 0, 63, 123000));
    NoDayPart(Duration(true, 0, 63, 123000));
    FractionalSecondsFields(Duration(true, 0, 63, 123000));
    SecondsText63With123000();
    RenderSecondsFractionJoined();
  }
  lemma RenderSecondsFractionText()
    ensures "" + ("P" + "T63.123S") == "PT63.123S"
  {
  }
  lemma RenderSecondsFraction()
    ensures Format(Duration(true, 0, 63, 123000)) == "PT63.123S"
  {
    RenderSecondsFractionParts();
    BodyOfParts(Duration(true, 0, 63, 123000));
    FormatOfBody(Duration(true, 0, 63, 123000), "");
    RenderSecondsFractionText();
  }
  lemma RenderOneDayJoined()
    ensures "" + "1D" + "" == "1D"
  {
  }
  lemma RenderOneDayParts()
    ensures YearPart(Duration(true, 1, 0, 0)) + DayPart(Duration(true, 1, 0, 0)) + TimePart(Duration(true, 1, 0, 0)) == "1D"
  {
    NoYearPart(Duration(true, 1, 0, 0));
    DayFields(Duration(true, 1, 0, 0));
    DayText1();
    NoTimePart(Duration(true, 1, 0, 0));
    RenderOneDayJoined();
  }
  lemma RenderOneDayText()
    ensures "" + ("P" + "1D") == "P1D"
  {
  }
  lemma RenderOneDay()
    ensures Format(Duration(true, 1, 0, 0)) == "P1D"
  {
    RenderOneDayParts();
    BodyOfParts(Duration(true, 1, 0, 0));
    FormatOfBody(Duration(true, 1, 0, 0), "");
    RenderOneDayText();
  }
  lemma RenderMinusOneDayJoined()
    ensures "" + "1D" + "" == "1D"
  {
  }
  lemma RenderMinusOneDayParts()
    ensures YearPart(Duration(false, 1, 0, 0)) + DayPart(Duration(false, 1, 0, 0)) + TimePart(Duration(false, 1, 0, 0)) == "1D"
  {
    NoYearPart(Duration(false, 1, 0, 0));
    DayFields(Duration(false, 1, 0, 0));
    DayText1();
    NoTimePart(Duration(false, 1, 0, 0));
    RenderMinusOneDayJoined();
  }
  lemma RenderMinusOneDayText()
    ensures "-" + ("P" + "1D") == "-P1D"
  {
  }
  lemma RenderMinusOneDay()
    ensures Format(Duration(false, 1, 0, 0)) == "-P1D"
  {
    RenderMinusOneDayParts();
    BodyOfParts(Duration(false, 1, 0, 0));
    FormatOfBody(Duration(false, 1, 0, 0), "-");
    RenderMinusOneDayText();
  }
  lemma DayText123()
    ensures NatToString(123) + "D" == "123D"
  {
    Decimal123();
  }
  lemma RenderDays123Joined()
    ensures "" + "123D" + "" == "123D"
  {
  }
  lemma RenderDays123Parts()
    ensures YearPart(Duration(true, 123, 0, 0)) + DayPart(Duration(true, 123, 0, 0)) + TimePart(Duration(true, 123, 0, 0)) == "123D"
  {
    NoYearPart(Duration(true, 123, 0, 0));
    DayFields(Duration(true, 123, 0, 0));
    DayText123();
    NoTimePart(Duration(true, 123, 0, 0));
    RenderDays123Joined();
  }
  lemma RenderDays123Text()
    ensures "" + ("P" + "123D") == "P123D"
  {
  }
  lemma RenderDays123()
    ensures Format(Duration(true, 123, 0, 0)) == "P123D"
  {
    RenderDays123Parts();
    BodyOfParts(Duration(true, 123, 0, 0));
    FormatOfBody(Duration(true, 123, 0, 0), "");
    RenderDays123Text();
  }
  lemma RenderDayAnd42Joined()
    ensures "" + "1D" + "T42S" == "1DT42S"
  {
  }
  lemma RenderDayAnd42Parts()
    ensures YearPart(Duration(true, 1, 42, 0)) + DayPart(Duration(true, 1, 42, 0)) + TimePart(Duration(true, 1, 42, 0)) == "1DT42S"
  {
    NoYearPart(Duration(true, 1, 42, 0));
    DayFields(Duration(true, 1, 42, 0));
    DayText1();
    WholeSecondsFields(Duration(true, 1, 42, 0));
    SecondsText42();
    RenderDayAnd42Joined();
  }
  lemma RenderDayAnd42Text()
    ensures "" + ("P" + "1DT42S") == "P1DT42S"
  {
  }
  lemma RenderDayAnd42()
    ensures Format(Duration(true, 1, 42, 0)) == "P1DT42S"
  {
    RenderDayAnd42Parts();
    BodyOfParts(Duration(true, 1, 42, 0));
    FormatOfBody(Duration(true, 1, 42, 0), "");
    RenderDayAnd42Text();
  }
  lemma RenderMinusDayAnd42Joined()
    ensures "" + "1D" + "T42S" == "1DT42S"
  {
  }
  lemma RenderMinusDayAnd42Parts()
    ensures YearPart(Duration(false, 1, 42, 0)) + DayPart(Duration(false, 1, 42, 0)) + TimePart(Duration(false, 1, 42, 0)) == "1DT42S"
  {
    NoYearPart(Duration(false, 1, 42, 0));
    DayFields(Duration(false, 1, 42, 0));
    DayText1();
    WholeSecondsFields(Duration(false, 1, 42, 0));
    SecondsText42();
    RenderMinusDayAnd42Joined();
  }
  lemma RenderMinusDayAnd42Text()
    ensures "-" + ("P" + "1DT42S") == "-P1DT42S"
  {
  }
  lemma RenderMinusDayAnd42()
    ensures Format(Duration(false, 1, 42, 0)) == "-P1DT42S"
  {
    RenderMinusDayAnd42Parts();
    BodyOfParts(Duration(false, 1, 42, 0));
    FormatOfBody(Duration(false, 1, 42, 0), "-");
    RenderMinusDayAnd42Text();
  }
  lemma Decimal10()
    ensures NatToString(10) == "10"
  {
    Decimal1();
    DecimalStep(10, "1", '0');
  }
  lemma Decimal100()
    ensures NatToString(100) == "100"
  {
    Decimal10();
    DecimalStep(100, "10", '0');
  }
  lemma SecondsText100()
    ensures "T" + NatToString(100) + "S" == "T100S"
  {
    Decimal100();
  }
  lemma RenderDayAnd100Joined()
    ensures "" + "1D" + "T100S" == "1DT100S"
  {
  }
  lemma RenderDayAnd100Parts()
    ensures YearPart(Duration(true, 1, 100, 0)) + DayPart(Duration(true, 1, 100, 0)) + TimePart(Duration(true, 1, 100, 0)) == "1DT100S"
  {
    NoYearPart(Duration(true, 1, 100, 0));
    DayFields(Duration(true, 1, 100, 0));
    DayText1();
    WholeSecondsFields(Duration(true, 1, 100, 0));
    SecondsText100();
    RenderDayAnd100Joined();
  }
  lemma RenderDayAnd100Text()
    ensures "" + ("P" + "1DT100S") == "P1DT100S"
  {
  }
  lemma RenderDayAnd100()
    ensures Format(Duration(true, 1, 100, 0)) == "P1DT100S"
  {
    RenderDayAnd100Parts();
    BodyOfParts(Duration(true, 1, 100, 0));
    FormatOfBody(Duration(true, 1, 100, 0), "");
    RenderDayAnd100Text();
  }
  lemma SecondsText1With500000()
    ensures "T" + NatToString(1) + "." + MicroFraction(500000) + "S" == "T1.5S"
  {
    Decimal1();
    Micro500000();
  }
  lemma RenderMonthAndHalfSecondJoined()
    ensures "" + "30D" + "T1.5S" == "30DT1.5S"
  {
  }
  lemma RenderMonthAndHalfSecondParts()
    ensures YearPart(Duration(true, 30, 1, 500000)) + DayPart(Duration(true, 30, 1, 500000)) + TimePart(Duration(true, 30, 1, 500000)) == "30DT1.5S"
  {
    NoYearPart(Duration(true, 30, 1, 500000));
    DayFields(Duration(true, 30, 1, 500000));
    DayText30();
    FractionalSecondsFields(Duration(true, 30, 1, 500000));
    SecondsText1With500000();
    RenderMonthAndHalfSecondJoined();
  }
  lemma RenderMonthAndHalfSecondText()
    ensures "" + ("P" + "30DT1.5S") == "P30DT1.5S"
  {
  }
  lemma RenderMonthAndHalfSecond()
    ensures Format(Duration(true, 30, 1, 500000)) == "P30DT1.5S"
  {
    RenderMonthAndHalfSecondParts();
    BodyOfParts(Duration(true, 30, 1, 500000));
    FormatOfBody(Duration(true, 30, 1, 500000), "");
    RenderMonthAndHalfSecondText();
  }
  lemma Pad1234Width4()
    ensures ZeroPad(1234, 4) == "1234"
  {
    Pad123Width3();
    PadStep(1234, 4, 1000, "123", "1234");
  }
  lemma Pad12345Width5()
    ensures ZeroPad(12345, 5) == "12345"
  {
    Pad1234Width4();
    PadStep(12345, 5, 10000, "1234", "12345");
  }
  lemma Pad123456Width6()
    ensures ZeroPad(123456, 6) == "123456"
  {
    Pad12345Width5();
    PadStep(123456, 6, 100000, "12345", "123456");
  }
  lemma Strip123456()
    ensures StripTrailingZeros("123456") == "123456"
  {
    StripStop("123456");
  }
  lemma Micro123456()
    ensures MicroFraction(123456) == "123456"
  {
    Pad123456Width6();
    Strip123456();
    MicroOf(123456, "123456", "123456");
  }
  lemma SecondsText42With123456()
    ensures "T" + NatToString(42) + "." + MicroFraction(123456) + "S" == "T42.123456S"
  {
    Decimal42();
    Micro123456();
  }
  lemma RenderNegativeFractionJoined()
    ensures "" + "1D" + "T42.123456S" == "1DT42.123456S"
  {
  }
  lemma RenderNegativeFractionParts()
    ensures YearPart(Duration(false, 1, 42, 123456)) + DayPart(Duration(false, 1, 42, 123456)) + TimePart(Duration(false, 1, 42, 123456)) == "1DT42.123456S"
  {
    NoYearPart(Duration(false, 1, 42, 123456));
    DayFields(Duration(false, 1, 42, 123456));
    DayText1();
    FractionalSecondsFields(Duration(false, 1, 42, 123456));
    SecondsText42With123456();
    RenderNegativeFractionJoined();
  }
  lemma RenderNegativeFractionText()
    ensures "-" + ("P" + "1DT42.123456S") == "-P1DT42.123456S"
  {
  }
  lemma RenderNegativeFraction()
    ensures Format(Duration(false, 1, 42, 123456)) == "-P1DT42.123456S"
  {
    RenderNegativeFractionParts();
    BodyOfParts(Duration(false, 1, 42, 123456));
    FormatOfBody(Duration(false, 1, 42, 123456), "-");
    RenderNegativeFractionText();
  }
  lemma Decimal27()
    ensures NatToString(27) == "27"
  {
    Decimal2();
    DecimalStep(27, "2", '7');
  }
  lemma Decimal273()
    ensures NatToString(273) == "273"
  {
    Decimal27();
    DecimalStep(273, "27", '3');
  }
  lemma Decimal2739()
    ensures NatToString(2739) == "2739"
  {
    Decimal273();
    DecimalStep(2739, "273", '9');
  }
  lemma Decimal27397()
    ensures NatToString(27397) == "27397"
  {
    Decimal2739();
    DecimalStep(27397, "2739", '7');
  }
  lemma Decimal273972()
    ensures NatToString(273972) == "273972"
  {
    Decimal27397();
    DecimalStep(273972, "27397", '2');
  }
  lemma Decimal2739726()
    ensures NatToString(2739726) == "2739726"
  {
    Decimal273972();
    DecimalStep(2739726, "273972", '6');
  }
  lemma YearText2739726()
    ensures NatToString(2739726) + "Y" == "2739726Y"
  {
    Decimal2739726();
  }
  lemma Decimal9()
    ensures NatToString(9) == "9"
  {
    SingleDigit(9, '9');
  }
  lemma DayText9()
    ensures NatToString(9) + "D" == "9D"
  {
    Decimal9();
  }
  lemma RenderLargeDaysJoined()
    ensures "2739726Y" + "9D" + "" == "2739726Y9D"
  {
  }
  lemma RenderLargeDaysParts()
    ensures YearPart(Duration(true, 999999999, 0, 0)) + DayPart(Duration(true, 999999999, 0, 0)) + TimePart(Duration(true, 999999999, 0, 0)) == "2739726Y9D"
  {
    YearFields(Duration(true, 999999999, 0, 0));
    YearText2739726();
    DayFields(Duration(true, 999999999, 0, 0));
    DayText9();
    NoTimePart(Duration(true, 999999999, 0, 0));
    RenderLargeDaysJoined();
  }
  lemma RenderLargeDaysText()
    ensures "" + ("P" + "2739726Y9D") == "P2739726Y9D"
  {
  }
  lemma RenderLargeDays()
    ensures Format(Duration(true, 999999999, 0, 0)) == "P2739726Y9D"
  {
    RenderLargeDaysParts();
    BodyOfParts(Duration(true, 999999999, 0, 0));
    FormatOfBody(Duration(true, 999999999, 0, 0), "");
    RenderLargeDaysText();
  }
  lemma Decimal8()
    ensures NatToString(8) == "8"
  {
    SingleDigit(8, '8');
  }
  lemma Decimal86()
    ensures NatToString(86) == "86"
  {
    Decimal8();
    DecimalStep(86, "8", '6');
  }
  lemma Decimal863()
    ensures NatToString(863) == "863"
  {
    Decimal86();
    DecimalStep(863, "86", '3');
  }
  lemma Decimal8639()
    ensures NatToString(8639) == "8639"
  {
    Decimal863();
    DecimalStep(8639, "863", '9');
  }
  lemma Decimal86399()
    ensures NatToString(86399) == "86399"
  {
    Decimal8639();
    DecimalStep(86399, "8639", '9');
  }
  lemma Pad999Width3()
    ensures ZeroPad(999, 3) == "999"
  {
  }
  lemma Pad9999Width4()
    ensures ZeroPad(9999, 4) == "9999"
  {
    Pad999Width3();
    PadStep(9999, 4, 1000, "999", "9999");
  }
  lemma Pad99999Width5()
    ensures ZeroPad(99999, 5) == "99999"
  {
    Pad9999Width4();
    PadStep(99999, 5, 10000, "9999", "99999");
  }
  lemma Pad999999Width6()
    ensures ZeroPad(999999, 6) == "999999"
  {
    Pad99999Width5();
    PadStep(999999, 6, 100000, "99999", "999999");
  }
  lemma Strip999999()
    ensures StripTrailingZeros("999999") == "999999"
  {
    StripStop("999999");
  }
  lemma Micro999999()
    ensures MicroFraction(999999) == "999999"
  {
    Pad999999Width6();
    Strip999999();
    MicroOf(999999, "999999", "999999");
  }
  lemma SecondsText86399With999999()
    ensures "T" + NatToString(86399) + "." + MicroFraction(999999) + "S" == "T86399.999999S"
  {
    Decimal86399();
    Micro999999();
  }
  lemma RenderLimitJoined()
    ensures "2739726Y" + "9D" + "T86399.999999S" == "2739726Y9DT86399.999999S"
  {
  }
  lemma RenderLimitParts()
    ensures YearPart(Duration(true, 999999999, 86399, 999999)) + DayPart(Duration(true, 999999999, 86399, 999999)) + TimePart(Duration(true, 999999999, 86399, 999999)) == "2739726Y9DT86399.999999S"
  {
    YearFields(Duration(true, 999999999, 86399, 999999));
    YearText2739726();
    DayFields(Duration(true, 999999999, 86399, 999999));
    DayText9();
    FractionalSecondsFields(Duration(true, 999999999, 86399, 999999));
    SecondsText86399With999999();
    RenderLimitJoined();
  }
  lemma RenderLimitText()
    ensures "" + ("P" + "2739726Y9DT86399.999999S") == "P2739726Y9DT86399.999999S"
  {
  }
  lemma RenderLimit()
    ensures Format(Duration(true, 999999999, 86399, 999999)) == "P2739726Y9DT86399.999999S"
  {
    RenderLimitParts();
    BodyOfParts(Duration(true, 999999999, 86399, 999999));
    FormatOfBody(Duration(true, 999999999, 86399, 999999), "");
    RenderLimitText();
  }
  lemma RenderNegativeLimitJoined()
    ensures "2739726Y" + "9D" + "T86399.999999S" == "2739726Y9DT86399.999999S"
  {
  }
  lemma RenderNegativeLimitParts()
    ensures YearPart(Duration(false, 999999999, 86399, 999999)) + DayPart(Duration(false, 999999999, 86399, 999999)) + TimePart(Duration(false, 999999999, 86399, 999999)) == "2739726Y9DT86399.999999S"
  {
    YearFields(Duration(false, 999999999, 86399, 999999));
    YearText2739726();
    DayFields(Duration(false, 999999999, 86399, 999999));
    DayText9();
    FractionalSecondsFields(Duration(false, 999999999, 86399, 999999));
    SecondsText86399With999999();
    RenderNegativeLimitJoined();
  }
  lemma RenderNegativeLimitText()
    ensures "-" + ("P" + "2739726Y9DT86399.999999S") == "-P2739726Y9DT86399.999999S"
  {
  }
  lemma RenderNegativeLimit()
    ensures Format(Duration(false, 999999999, 86399, 999999)) == "-P2739726Y9DT86399.999999S"
  {
    RenderNegativeLimitParts();
    BodyOfParts(Duration(false, 999999999, 86399, 999999));
    FormatOfBody(Duration(false, 999999999, 86399, 999999), "-");
    RenderNegativeLimitText();
  }
}
