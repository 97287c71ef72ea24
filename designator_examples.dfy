/** The designator-form cases of the duration tests, each read component by
    component and then normalised. */
module DesignatorExamples {
  import opened Errors
  import opened Numeric
  import opened Durations
  import opened Parser
  import D = Designator
  import R = Reading
  import RoundTrip

  /** Input without a sign is positive and kept whole. */
  lemma Unsigned(s: string)
    requires |s| > 0 && s[0] != '+' && s[0] != '-'
    ensures SplitSign(s) == (true, s)
  {
  }

  lemma Plus(s: string, t: string)
    requires |s| > 0 && s[0] == '+' && s[1..] == t
    ensures SplitSign(s) == (true, t)
  {
  }

  lemma Minus(s: string, t: string)
    requires |s| > 0 && s[0] == '-' && s[1..] == t
    ensures SplitSign(s) == (false, t)
  {
  }

  /** A date component: its number, its unit and what it adds. */
  lemma DateComponent(s: string, pos: nat, acc: D.Accumulator, n: U32, f: Option<nat>, end: nat, k: nat,
                      acc': D.Accumulator)
    requires pos < |s| && s[pos] != 'T' && ScanNumberFraction(s, pos) == Ok((n, f, end))
    requires !acc.inTime && !acc.fractionSeen && end < |s| && D.DateUnitDays(s[end]) == Some(k)
    requires D.AddDate(acc, n, f, k) == Ok(acc')
    ensures D.Components(s, pos, acc) == D.Components(s, end + 1, acc'.(fractionSeen := f.Some?, anyComponent := true))
  {
  }

  /** A time component: its number, its unit and what it adds. */
  lemma TimeComponent(s: string, pos: nat, acc: D.Accumulator, n: U32, f: Option<nat>, end: nat, k: nat,
                      acc': D.Accumulator)
    requires pos < |s| && s[pos] != 'T' && ScanNumberFraction(s, pos) == Ok((n, f, end))
    requires acc.inTime && !acc.fractionSeen && end < |s| && D.TimeUnitSeconds(s[end]) == Some(k)
    requires D.AddTime(acc, n, f, k) == Ok(acc')
    ensures D.Components(s, pos, acc) == D.Components(s, end + 1, acc'.(fractionSeen := f.Some?, anyComponent := true))
  {
  }

  /** The fractional digit loop keeps up to six digits and drops the rest. */
  lemma FractionDigit(s: string, pos: nat, kept: nat, acc: nat)
    requires pos < |s| && IsDigit(s[pos]) && kept < FractionDigits && acc < Pow10(kept)
    ensures FractionLoop(s, pos, kept, acc) == FractionLoop(s, pos + 1, kept + 1, acc * 10 + DigitValue(s[pos]))
  {
  }

  lemma FractionDropped(s: string, pos: nat, acc: nat)
    requires pos < |s| && IsDigit(s[pos]) && acc < Pow10(FractionDigits)
    ensures FractionLoop(s, pos, FractionDigits, acc) == FractionLoop(s, pos + 1, FractionDigits, acc)
  {
  }

  lemma FractionStop(s: string, pos: nat, kept: nat, acc: nat)
    requires pos <= |s| && (pos == |s| || !IsDigit(s[pos])) && kept <= FractionDigits && acc < Pow10(kept)
    ensures FractionLoop(s, pos, kept, acc) == (acc * Pow10(FractionDigits - kept), pos)
  {
  }

  /** A number with a fractional part. */
  lemma DottedNumber(s: string, pos: nat, n: U32, e: nat, f: nat, e2: nat)
    requires pos < |s| && IsDigit(s[pos]) && Accumulate(s, pos + 1, DigitValue(s[pos])) == Ok((n, e))
    requires e + 1 < |s| && s[e] == '.' && IsDigit(s[e + 1]) && FractionLoop(s, e + 1, 0, 0) == (f, e2)
    ensures ScanNumberFraction(s, pos) == Ok((n, Some(f), e2))
  {
  }

  /** The digit loop of a number, one digit at a time. */
  lemma Digit(s: string, pos: nat, acc: U32)
    requires pos < |s| && IsDigit(s[pos]) && acc * 10 + DigitValue(s[pos]) < Limit
    ensures Accumulate(s, pos, acc) == Accumulate(s, pos + 1, acc * 10 + DigitValue(s[pos]))
  {
  }

  lemma DigitsEnd(s: string, pos: nat, acc: U32)
    requires pos <= |s| && (pos == |s| || !IsDigit(s[pos]))
    ensures Accumulate(s, pos, acc) == Ok((acc, pos))
  {
  }

  /** A number without a fractional part. */
  lemma PlainNumber(s: string, pos: nat, n: U32, e: nat)
    requires pos < |s| && IsDigit(s[pos]) && Accumulate(s, pos + 1, DigitValue(s[pos])) == Ok((n, e))
    requires e == |s| || s[e] != '.'
    ensures ScanNumberFraction(s, pos) == Ok((n, None, e))
  {
  }

  lemma Overflow(s: string, pos: nat, acc: U32)
    requires pos < |s| && IsDigit(s[pos]) && acc * 10 + DigitValue(s[pos]) >= Limit
    ensures Accumulate(s, pos, acc) == Err(DurationValueTooLarge)
  {
  }

  /** The first eleven digits of 2^64: already too large for 32 bits. */
  const U64Prefix := "18446744073"

  lemma Prefix1(s: string, pre: string, post: string, pos: nat)
    requires s == pre + U64Prefix + post && pos == |pre|
    ensures Accumulate(s, pos + 1, 1) == Accumulate(s, pos + 4, 1844)
  {
    assert s[pos + 1] == U64Prefix[1] && s[pos + 2] == U64Prefix[2] && s[pos + 3] == U64Prefix[3];
    Digit(s, pos + 1, 1);
    Digit(s, pos + 2, 18);
    Digit(s, pos + 3, 184);
  }
  lemma Prefix2(s: string, pre: string, post: string, pos: nat)
    requires s == pre + U64Prefix + post && pos == |pre|
    ensures Accumulate(s, pos + 4, 1844) == Accumulate(s, pos + 7, 1844674)
  {
    assert s[pos + 4] == U64Prefix[4] && s[pos + 5] == U64Prefix[5] && s[pos + 6] == U64Prefix[6];
    Digit(s, pos + 4, 1844);
    Digit(s, pos + 5, 18446);
    Digit(s, pos + 6, 184467);
  }
  lemma Prefix3(s: string, pre: string, post: string, pos: nat)
    requires s == pre + U64Prefix + post && pos == |pre|
    ensures Accumulate(s, pos + 7, 1844674) == Accumulate(s, pos + 10, 1844674407)
  {
    assert s[pos + 7] == U64Prefix[7] && s[pos + 8] == U64Prefix[8] && s[pos + 9] == U64Prefix[9];
    Digit(s, pos + 7, 1844674);
    Digit(s, pos + 8, 18446744);
    Digit(s, pos + 9, 184467440);
  }
  lemma PrefixOverflows(s: string, pre: string, post: string, pos: nat)
    requires s == pre + U64Prefix + post && pos == |pre|
    ensures ScanNumber(s, pos) == Err(DurationValueTooLarge)
  {
    assert s[pos] == U64Prefix[0] && s[pos + 10] == U64Prefix[10];
    Prefix1(s, pre, post, pos);
    Prefix2(s, pre, post, pos);
    Prefix3(s, pre, post, pos);
    Overflow(s, pos + 10, 1844674407);
  }
  /** A number that cannot be read ends the loop with its failure. */
  lemma NumberFails(s: string, pos: nat, acc: D.Accumulator, e: ParseError)
    requires pos < |s| && s[pos] != 'T' && ScanNumber(s, pos) == Err(e)
    ensures D.Components(s, pos, acc) == Err(e)
  {
  }

  /** A component that fails ends the loop with its failure. */
  lemma ComponentFails(s: string, pos: nat, acc: D.Accumulator, e: ParseError)
    requires pos < |s| && s[pos] != 'T' && D.NextComponent(s, pos, acc) == Err(e)
    ensures D.Components(s, pos, acc) == Err(e)
  {
  }

  lemma RepeatedTimeDesignator(s: string, pos: nat, acc: D.Accumulator)
    requires pos < |s| && s[pos] == 'T' && acc.inTime
    ensures D.Components(s, pos, acc) == Err(DurationTRepeated)
  {
  }

  lemma NoComponent(s: string, acc: D.Accumulator)
    requires !acc.anyComponent
    ensures D.Components(s, |s|, acc) == Err(TooShort)
  {
  }

  /** A designator body whose components fail makes the parse fail the same way. */
  lemma DesignatorFails(s: string, positive: bool, t: string, e: ParseError)
    requires SplitSign(s) == (positive, t) && |t| > 0 && t[0] == 'P'
    requires D.Components(t, 1, D.Start) == Err(e)
    ensures Parse(s) == Err(e)
  {
  }

  const SimpleText := "P1Y"
  lemma SimpleNumber1()
    ensures ScanNumberFraction(SimpleText, 1) == Ok((1, None, 2))
  {
    DigitsEnd(SimpleText, 2, 1);
    PlainNumber(SimpleText, 1, 1, 2);
  }
  lemma SimpleRead()
    ensures D.Components(SimpleText, 1, D.Accumulator(false, false, false, 0, 0, 0)) == Ok(RawDuration(365, 0, 0))
  {
    SimpleNumber1();
    DateComponent(SimpleText, 1, D.Accumulator(false, false, false, 0, 0, 0), 1, None, 2, 365, D.Accumulator(false, false, false, 365, 0, 0));
    R.ComponentsAtEnd(SimpleText, D.Accumulator(false, false, true, 365, 0, 0));
  }

  /** One year is 365 days. */
  lemma Simple()
    ensures Parse("P1Y") == Ok(Duration(true, 365, 0, 0))
  {
    SimpleRead();
    Unsigned("P1Y");
    RoundTrip.ParseDesignator("P1Y", true, SimpleText, RawDuration(365, 0, 0));
    NewIdempotent(Duration(true, 365, 0, 0));
  }

  const YearsText := "P123Y"
  lemma YearsNumber1()
    ensures ScanNumberFraction(YearsText, 1) == Ok((123, None, 4))
  {
    Digit(YearsText, 2, 1);
    Digit(YearsText, 3, 12);
    DigitsEnd(YearsText, 4, 123);
    PlainNumber(YearsText, 1, 123, 4);
  }
  lemma YearsRead()
    ensures D.Components(YearsText, 1, D.Accumulator(false, false, false, 0, 0, 0)) == Ok(RawDuration(44895, 0, 0))
  {
    YearsNumber1();
    DateComponent(YearsText, 1, D.Accumulator(false, false, false, 0, 0, 0), 123, None, 4, 365, D.Accumulator(false, false, false, 44895, 0, 0));
    R.ComponentsAtEnd(YearsText, D.Accumulator(false, false, true, 44895, 0, 0));
  }

  /** 123 years. */
  lemma Years()
    ensures Parse("P123Y") == Ok(Duration(true, 44895, 0, 0))
  {
    YearsRead();
    Unsigned("P123Y");
    RoundTrip.ParseDesignator("P123Y", true, YearsText, RawDuration(44895, 0, 0));
    NewIdempotent(Duration(true, 44895, 0, 0));
  }

  const FractionalYearsText := "P123.8Y"
  lemma FractionalYearsNumber1()
    ensures ScanNumberFraction(FractionalYearsText, 1) == Ok((123, Some(800000), 6))
  {
    Digit(FractionalYearsText, 2, 1);
    Digit(FractionalYearsText, 3, 12);
    DigitsEnd(FractionalYearsText, 4, 123);
    FractionDigit(FractionalYearsText, 5, 0, 0);
    FractionStop(FractionalYearsText, 6, 1, 8);
    DottedNumber(FractionalYearsText, 1, 123, 4, 800000, 6);
  }
  lemma FractionalYearsRead()
    ensures D.Components(FractionalYearsText, 1, D.Accumulator(false, false, false, 0, 0, 0)) == Ok(RawDuration(45187, 0, 0))
  {
    FractionalYearsNumber1();
    DateComponent(FractionalYearsText, 1, D.Accumulator(false, false, false, 0, 0, 0), 123, Some(800000), 6, 365, D.Accumulator(false, false, false, 45187, 0, 0));
    R.ComponentsAtEnd(FractionalYearsText, D.Accumulator(false, true, true, 45187, 0, 0));
  }

  /** A fraction of a year is carried into days: 0.8 × 365 = 292. */
  lemma FractionalYears()
    ensures Parse("P123.8Y") == Ok(Duration(true, 45187, 0, 0))
  {
    FractionalYearsRead();
    Unsigned("P123.8Y");
    RoundTrip.ParseDesignator("P123.8Y", true, FractionalYearsText, RawDuration(45187, 0, 0));
    NewIdempotent(Duration(true, 45187, 0, 0));
  }

  const MonthText := "P1M"
  lemma MonthNumber1()
    ensures ScanNumberFraction(MonthText, 1) == Ok((1, None, 2))
  {
    DigitsEnd(MonthText, 2, 1);
    PlainNumber(MonthText, 1, 1, 2);
  }
  lemma MonthRead()
    ensures D.Components(MonthText, 1, D.Accumulator(false, false, false, 0, 0, 0)) == Ok(RawDuration(30, 0, 0))
  {
    MonthNumber1();
    DateComponent(MonthText, 1, D.Accumulator(false, false, false, 0, 0, 0), 1, None, 2, 30, D.Accumulator(false, false, false, 30, 0, 0));
    R.ComponentsAtEnd(MonthText, D.Accumulator(false, false, true, 30, 0, 0));
  }

  /** A month is 30 days. */
  lemma Month()
    ensures Parse("P1M") == Ok(Duration(true, 30, 0, 0))
  {
    MonthRead();
    Unsigned("P1M");
    RoundTrip.ParseDesignator("P1M", true, MonthText, RawDuration(30, 0, 0));
    NewIdempotent(Duration(true, 30, 0, 0));
  }

  const FractionalMonthText := "P1.5M"
  lemma FractionalMonthNumber1()
    ensures ScanNumberFraction(FractionalMonthText, 1) == Ok((1, Some(500000), 4))
  {
    DigitsEnd(FractionalMonthText, 2, 1);
    FractionDigit(FractionalMonthText, 3, 0, 0);
    FractionStop(FractionalMonthText, 4, 1, 5);
    DottedNumber(FractionalMonthText, 1, 1, 2, 500000, 4);
  }
  lemma FractionalMonthRead()
    ensures D.Components(FractionalMonthText, 1, D.Accumulator(false, false, false, 0, 0, 0)) == Ok(RawDuration(45, 0, 0))
  {
    FractionalMonthNumber1();
    DateComponent(FractionalMonthText, 1, D.Accumulator(false, false, false, 0, 0, 0), 1, Some(500000), 4, 30, D.Accumulator(false, false, false, 45, 0, 0));
    R.ComponentsAtEnd(FractionalMonthText, D.Accumulator(false, true, true, 45, 0, 0));
  }

  /** Half a month is 15 days. */
  lemma FractionalMonth()
    ensures Parse("P1.5M") == Ok(Duration(true, 45, 0, 0))
  {
    FractionalMonthRead();
    Unsigned("P1.5M");
    RoundTrip.ParseDesignator("P1.5M", true, FractionalMonthText, RawDuration(45, 0, 0));
    NewIdempotent(Duration(true, 45, 0, 0));
  }

  const WeekText := "P1W"
  lemma WeekNumber1()
    ensures ScanNumberFraction(WeekText, 1) == Ok((1, None, 2))
  {
    DigitsEnd(WeekText, 2, 1);
    PlainNumber(WeekText, 1, 1, 2);
  }
  lemma WeekRead()
    ensures D.Components(WeekText, 1, D.Accumulator(false, false, false, 0, 0, 0)) == Ok(RawDuration(7, 0, 0))
  {
    WeekNumber1();
    DateComponent(WeekText, 1, D.Accumulator(false, false, false, 0, 0, 0), 1, None, 2, 7, D.Accumulator(false, false, false, 7, 0, 0));
    R.ComponentsAtEnd(WeekText, D.Accumulator(false, false, true, 7, 0, 0));
  }

  /** A week is 7 days. */
  lemma Week()
    ensures Parse("P1W") == Ok(Duration(true, 7, 0, 0))
  {
    WeekRead();
    Unsigned("P1W");
    RoundTrip.ParseDesignator("P1W", true, WeekText, RawDuration(7, 0, 0));
    NewIdempotent(Duration(true, 7, 0, 0));
  }

  const TenthOfWeekText := "P1.1W"
  lemma TenthOfWeekNumber1()
    ensures ScanNumberFraction(TenthOfWeekText, 1) == Ok((1, Some(100000), 4))
  {
    DigitsEnd(TenthOfWeekText, 2, 1);
    FractionDigit(TenthOfWeekText, 3, 0, 0);
    FractionStop(TenthOfWeekText, 4, 1, 1);
    DottedNumber(TenthOfWeekText, 1, 1, 2, 100000, 4);
  }
  lemma TenthOfWeekRead()
    ensures D.Components(TenthOfWeekText, 1, D.Accumulator(false, false, false, 0, 0, 0)) == Ok(RawDuration(7, 60480, 0))
  {
    TenthOfWeekNumber1();
    DateComponent(TenthOfWeekText, 1, D.Accumulator(false, false, false, 0, 0, 0), 1, Some(100000), 4, 7, D.Accumulator(false, false, false, 7, 60480, 0));
    R.ComponentsAtEnd(TenthOfWeekText, D.Accumulator(false, true, true, 7, 60480, 0));
  }

  /** A tenth of a week is 60480 seconds. */
  lemma TenthOfWeek()
    ensures Parse("P1.1W") == Ok(Duration(true, 7, 60480, 0))
  {
    TenthOfWeekRead();
    Unsigned("P1.1W");
    RoundTrip.ParseDesignator("P1.1W", true, TenthOfWeekText, RawDuration(7, 60480, 0));
    NewIdempotent(Duration(true, 7, 60480, 0));
  }

  const FractionalWeekText := "P1.123W"
  lemma FractionalWeekNumber1Fraction1()
    ensures FractionLoop(FractionalWeekText, 3, 0, 0) == FractionLoop(FractionalWeekText, 5, 2, 12)
  {
    FractionDigit(FractionalWeekText, 3, 0, 0);
    FractionDigit(FractionalWeekText, 4, 1, 1);
  }
  lemma FractionalWeekNumber1Fraction2()
    ensures FractionLoop(FractionalWeekText, 5, 2, 12) == FractionLoop(FractionalWeekText, 6, 3, 123)
  {
    FractionDigit(FractionalWeekText, 5, 2, 12);
  }
  lemma FractionalWeekNumber1Fraction()
    ensures FractionLoop(FractionalWeekText, 3, 0, 0) == (123000, 6)
  {
    FractionalWeekNumber1Fraction1();
    FractionalWeekNumber1Fraction2();
    FractionStop(FractionalWeekText, 6, 3, 123);
  }
  lemma FractionalWeekNumber1()
    ensures ScanNumberFraction(FractionalWeekText, 1) == Ok((1, Some(123000), 6))
  {
    DigitsEnd(FractionalWeekText, 2, 1);
    FractionalWeekNumber1Fraction();
    DottedNumber(FractionalWeekText, 1, 1, 2, 123000, 6);
  }
  lemma FractionalWeekRead()
    ensures D.Components(FractionalWeekText, 1, D.Accumulator(false, false, false, 0, 0, 0)) == Ok(RawDuration(7, 74390, 400000))
  {
    FractionalWeekNumber1();
    DateComponent(FractionalWeekText, 1, D.Accumulator(false, false, false, 0, 0, 0), 1, Some(123000), 6, 7, D.Accumulator(false, false, false, 7, 74390, 400000));
    R.ComponentsAtEnd(FractionalWeekText, D.Accumulator(false, true, true, 7, 74390, 400000));
  }

  /** 0.123 weeks is 74390.4 seconds. */
  lemma FractionalWeek()
    ensures Parse("P1.123W") == Ok(Duration(true, 7, 74390, 400000))
  {
    FractionalWeekRead();
    Unsigned("P1.123W");
    RoundTrip.ParseDesignator("P1.123W", true, FractionalWeekText, RawDuration(7, 74390, 400000));
    NewIdempotent(Duration(true, 7, 74390, 400000));
  }

  const NegativeYearText := "P1Y"
  lemma NegativeYearNumber1()
    ensures ScanNumberFraction(NegativeYearText, 1) == Ok((1, None, 2))
  {
    DigitsEnd(NegativeYearText, 2, 1);
    PlainNumber(NegativeYearText, 1, 1, 2);
  }
  lemma NegativeYearRead()
    ensures D.Components(NegativeYearText, 1, D.Accumulator(false, false, false, 0, 0, 0)) == Ok(RawDuration(365, 0, 0))
  {
    NegativeYearNumber1();
    DateComponent(NegativeYearText, 1, D.Accumulator(false, false, false, 0, 0, 0), 1, None, 2, 365, D.Accumulator(false, false, false, 365, 0, 0));
    R.ComponentsAtEnd(NegativeYearText, D.Accumulator(false, false, true, 365, 0, 0));
  }

  /** A leading '-' makes the duration negative. */
  lemma NegativeYear()
    ensures Parse("-P1Y") == Ok(Duration(false, 365, 0, 0))
  {
    NegativeYearRead();
    Minus("-P1Y", NegativeYearText);
    RoundTrip.ParseDesignator("-P1Y", false, NegativeYearText, RawDuration(365, 0, 0));
    NewIdempotent(Duration(false, 365, 0, 0));
  }

  const PositiveYearText := "P1Y"
  lemma PositiveYearNumber1()
    ensures ScanNumberFraction(PositiveYearText, 1) == Ok((1, None, 2))
  {
    DigitsEnd(PositiveYearText, 2, 1);
    PlainNumber(PositiveYearText, 1, 1, 2);
  }
  lemma PositiveYearRead()
    ensures D.Components(PositiveYearText, 1, D.Accumulator(false, false, false, 0, 0, 0)) == Ok(RawDuration(365, 0, 0))
  {
    PositiveYearNumber1();
    DateComponent(PositiveYearText, 1, D.Accumulator(false, false, false, 0, 0, 0), 1, None, 2, 365, D.Accumulator(false, false, false, 365, 0, 0));
    R.ComponentsAtEnd(PositiveYearText, D.Accumulator(false, false, true, 365, 0, 0));
  }

  /** A leading '+' is accepted. */
  lemma PositiveYear()
    ensures Parse("+P1Y") == Ok(Duration(true, 365, 0, 0))
  {
    PositiveYearRead();
    Plus("+P1Y", PositiveYearText);
    RoundTrip.ParseDesignator("+P1Y", true, PositiveYearText, RawDuration(365, 0, 0));
    NewIdempotent(Duration(true, 365, 0, 0));
  }

  const FractionalSecondsText := "PT0.555555S"
  lemma FractionalSecondsStep1()
    ensures D.Components(FractionalSecondsText, 1, D.Accumulator(false, false, false, 0, 0, 0)) == D.Components(FractionalSecondsText, 2, D.Accumulator(true, false, false, 0, 0, 0))
  {
    R.TimeDesignatorAt(FractionalSecondsText, 1, D.Accumulator(false, false, false, 0, 0, 0));
  }
  lemma FractionalSecondsNumber2Fraction1()
    ensures FractionLoop(FractionalSecondsText, 4, 0, 0) == FractionLoop(FractionalSecondsText, 6, 2, 55)
  {
    FractionDigit(FractionalSecondsText, 4, 0, 0);
    FractionDigit(FractionalSecondsText, 5, 1, 5);
  }
  lemma FractionalSecondsNumber2Fraction2()
    ensures FractionLoop(FractionalSecondsText, 6, 2, 55) == FractionLoop(FractionalSecondsText, 8, 4, 5555)
  {
    FractionDigit(FractionalSecondsText, 6, 2, 55);
    FractionDigit(FractionalSecondsText, 7, 3, 555);
  }
  lemma FractionalSecondsNumber2Fraction3()
    ensures FractionLoop(FractionalSecondsText, 8, 4, 5555) == FractionLoop(FractionalSecondsText, 10, 6, 555555)
  {
    FractionDigit(FractionalSecondsText, 8, 4, 5555);
    FractionDigit(FractionalSecondsText, 9, 5, 55555);
  }
  lemma FractionalSecondsNumber2Fraction()
    ensures FractionLoop(FractionalSecondsText, 4, 0, 0) == (555555, 10)
  {
    FractionalSecondsNumber2Fraction1();
    FractionalSecondsNumber2Fraction2();
    FractionalSecondsNumber2Fraction3();
    FractionStop(FractionalSecondsText, 10, 6, 555555);
  }
  lemma FractionalSecondsNumber2()
    ensures ScanNumberFraction(FractionalSecondsText, 2) == Ok((0, Some(555555), 10))
  {
    DigitsEnd(FractionalSecondsText, 3, 0);
    FractionalSecondsNumber2Fraction();
    DottedNumber(FractionalSecondsText, 2, 0, 3, 555555, 10);
  }
  lemma FractionalSecondsStep2()
    ensures D.Components(FractionalSecondsText, 2, D.Accumulator(true, false, false, 0, 0, 0)) == Ok(RawDuration(0, 0, 555555))
  {
    FractionalSecondsNumber2();
    TimeComponent(FractionalSecondsText, 2, D.Accumulator(true, false, false, 0, 0, 0), 0, Some(555555), 10, 1, D.Accumulator(true, false, false, 0, 0, 555555));
    R.ComponentsAtEnd(FractionalSecondsText, D.Accumulator(true, true, true, 0, 0, 555555));
  }

  /** Six fractional digits of a second. */
  lemma FractionalSeconds()
    ensures Parse("PT0.555555S") == Ok(Duration(true, 0, 0, 555555))
  {
    FractionalSecondsStep1();
    FractionalSecondsStep2();
    Unsigned("PT0.555555S");
    RoundTrip.ParseDesignator("PT0.555555S", true, FractionalSecondsText, RawDuration(0, 0, 555555));
    NewIdempotent(Duration(true, 0, 0, 555555));
  }

  const MixedUnitsText := "P1Y1DT2H0.5S"
  lemma MixedUnitsNumber1()
    ensures ScanNumberFraction(MixedUnitsText, 1) == Ok((1, None, 2))
  {
    DigitsEnd(MixedUnitsText, 2, 1);
    PlainNumber(MixedUnitsText, 1, 1, 2);
  }
  lemma MixedUnitsStep1()
    ensures D.Components(MixedUnitsText, 1, D.Accumulator(false, false, false, 0, 0, 0)) == D.Components(MixedUnitsText, 3, D.Accumulator(false, false, true, 365, 0, 0))
  {
    MixedUnitsNumber1();
    DateComponent(MixedUnitsText, 1, D.Accumulator(false, false, false, 0, 0, 0), 1, None, 2, 365, D.Accumulator(false, false, false, 365, 0, 0));
  }
  lemma MixedUnitsNumber3()
    ensures ScanNumberFraction(MixedUnitsText, 3) == Ok((1, None, 4))
  {
    DigitsEnd(MixedUnitsText, 4, 1);
    PlainNumber(MixedUnitsText, 3, 1, 4);
  }
  lemma MixedUnitsStep2()
    ensures D.Components(MixedUnitsText, 3, D.Accumulator(false, false, true, 365, 0, 0)) == D.Components(MixedUnitsText, 5, D.Accumulator(false, false, true, 366, 0, 0))
  {
    MixedUnitsNumber3();
    DateComponent(MixedUnitsText, 3, D.Accumulator(false, false, true, 365, 0, 0), 1, None, 4, 1, D.Accumulator(false, false, true, 366, 0, 0));
  }
  lemma MixedUnitsStep3()
    ensures D.Components(MixedUnitsText, 5, D.Accumulator(false, false, true, 366, 0, 0)) == D.Components(MixedUnitsText, 6, D.Accumulator(true, false, true, 366, 0, 0))
  {
    R.TimeDesignatorAt(MixedUnitsText, 5, D.Accumulator(false, false, true, 366, 0, 0));
  }
  lemma MixedUnitsNumber6()
    ensures ScanNumberFraction(MixedUnitsText, 6) == Ok((2, None, 7))
  {
    DigitsEnd(MixedUnitsText, 7, 2);
    PlainNumber(MixedUnitsText, 6, 2, 7);
  }
  lemma MixedUnitsStep4()
    ensures D.Components(MixedUnitsText, 6, D.Accumulator(true, false, true, 366, 0, 0)) == D.Components(MixedUnitsText, 8, D.Accumulator(true, false, true, 366, 7200, 0))
  {
    MixedUnitsNumber6();
    TimeComponent(MixedUnitsText, 6, D.Accumulator(true, false, true, 366, 0, 0), 2, None, 7, 3600, D.Accumulator(true, false, true, 366, 7200, 0));
  }
  lemma MixedUnitsNumber8()
    ensures ScanNumberFraction(MixedUnitsText, 8) == Ok((0, Some(500000), 11))
  {
    DigitsEnd(MixedUnitsText, 9, 0);
    FractionDigit(MixedUnitsText, 10, 0, 0);
    FractionStop(MixedUnitsText, 11, 1, 5);
    DottedNumber(MixedUnitsText, 8, 0, 9, 500000, 11);
  }
  lemma MixedUnitsStep5()
    ensures D.Components(MixedUnitsText, 8, D.Accumulator(true, false, true, 366, 7200, 0)) == Ok(RawDuration(366, 7200, 500000))
  {
    MixedUnitsNumber8();
    TimeComponent(MixedUnitsText, 8, D.Accumulator(true, false, true, 366, 7200, 0), 0, Some(500000), 11, 1, D.Accumulator(true, false, true, 366, 7200, 500000));
    R.ComponentsAtEnd(MixedUnitsText, D.Accumulator(true, true, true, 366, 7200, 500000));
  }

  /** Date and time units together, with a fractional second. */
  lemma MixedUnits()
    ensures Parse("P1Y1DT2H0.5S") == Ok(Duration(true, 366, 7200, 500000))
  {
    MixedUnitsStep1();
    MixedUnitsStep2();
    MixedUnitsStep3();
    MixedUnitsStep4();
    MixedUnitsStep5();
    Unsigned("P1Y1DT2H0.5S");
    RoundTrip.ParseDesignator("P1Y1DT2H0.5S", true, MixedUnitsText, RawDuration(366, 7200, 500000));
    NewIdempotent(Duration(true, 366, 7200, 500000));
  }

  const DayAndSecondText := "P1DT1S"
  lemma DayAndSecondNumber1()
    ensures ScanNumberFraction(DayAndSecondText, 1) == Ok((1, None, 2))
  {
    DigitsEnd(DayAndSecondText, 2, 1);
    PlainNumber(DayAndSecondText, 1, 1, 2);
  }
  lemma DayAndSecondStep1()
    ensures D.Components(DayAndSecondText, 1, D.Accumulator(false, false, false, 0, 0, 0)) == D.Components(DayAndSecondText, 3, D.Accumulator(false, false, true, 1, 0, 0))
  {
    DayAndSecondNumber1();
    DateComponent(DayAndSecondText, 1, D.Accumulator(false, false, false, 0, 0, 0), 1, None, 2, 1, D.Accumulator(false, false, false, 1, 0, 0));
  }
  lemma DayAndSecondStep2()
    ensures D.Components(DayAndSecondText, 3, D.Accumulator(false, false, true, 1, 0, 0)) == D.Components(DayAndSecondText, 4, D.Accumulator(true, false, true, 1, 0, 0))
  {
    R.TimeDesignatorAt(DayAndSecondText, 3, D.Accumulator(false, false, true, 1, 0, 0));
  }
  lemma DayAndSecondNumber4()
    ensures ScanNumberFraction(DayAndSecondText, 4) == Ok((1, None, 5))
  {
    DigitsEnd(DayAndSecondText, 5, 1);
    PlainNumber(DayAndSecondText, 4, 1, 5);
  }
  lemma DayAndSecondStep3()
    ensures D.Components(DayAndSecondText, 4, D.Accumulator(true, false, true, 1, 0, 0)) == Ok(RawDuration(1, 1, 0))
  {
    DayAndSecondNumber4();
    TimeComponent(DayAndSecondText, 4, D.Accumulator(true, false, true, 1, 0, 0), 1, None, 5, 1, D.Accumulator(true, false, true, 1, 1, 0));
    R.ComponentsAtEnd(DayAndSecondText, D.Accumulator(true, false, true, 1, 1, 0));
  }

  /** One day and one second. */
  lemma DayAndSecond()
    ensures Parse("P1DT1S") == Ok(Duration(true, 1, 1, 0))
  {
    DayAndSecondStep1();
    DayAndSecondStep2();
    DayAndSecondStep3();
    Unsigned("P1DT1S");
    RoundTrip.ParseDesignator("P1DT1S", true, DayAndSecondText, RawDuration(1, 1, 0));
    NewIdempotent(Duration(true, 1, 1, 0));
  }

  const AllUnitsText := "P1Y2M3DT4H5M6S"
  lemma AllUnitsNumber1()
    ensures ScanNumberFraction(AllUnitsText, 1) == Ok((1, None, 2))
  {
    DigitsEnd(AllUnitsText, 2, 1);
    PlainNumber(AllUnitsText, 1, 1, 2);
  }
  lemma AllUnitsStep1()
    ensures D.Components(AllUnitsText, 1, D.Accumulator(false, false, false, 0, 0, 0)) == D.Components(AllUnitsText, 3, D.Accumulator(false, false, true, 365, 0, 0))
  {
    AllUnitsNumber1();
    DateComponent(AllUnitsText, 1, D.Accumulator(false, false, false, 0, 0, 0), 1, None, 2, 365, D.Accumulator(false, false, false, 365, 0, 0));
  }
  lemma AllUnitsNumber3()
    ensures ScanNumberFraction(AllUnitsText, 3) == Ok((2, None, 4))
  {
    DigitsEnd(AllUnitsText, 4, 2);
    PlainNumber(AllUnitsText, 3, 2, 4);
  }
  lemma AllUnitsStep2()
    ensures D.Components(AllUnitsText, 3, D.Accumulator(false, false, true, 365, 0, 0)) == D.Components(AllUnitsText, 5, D.Accumulator(false, false, true, 425, 0, 0))
  {
    AllUnitsNumber3();
    DateComponent(AllUnitsText, 3, D.Accumulator(false, false, true, 365, 0, 0), 2, None, 4, 30, D.Accumulator(false, false, true, 425, 0, 0));
  }
  lemma AllUnitsNumber5()
    ensures ScanNumberFraction(AllUnitsText, 5) == Ok((3, None, 6))
  {
    DigitsEnd(AllUnitsText, 6, 3);
    PlainNumber(AllUnitsText, 5, 3, 6);
  }
  lemma AllUnitsStep3()
    ensures D.Components(AllUnitsText, 5, D.Accumulator(false, false, true, 425, 0, 0)) == D.Components(AllUnitsText, 7, D.Accumulator(false, false, true, 428, 0, 0))
  {
    AllUnitsNumber5();
    DateComponent(AllUnitsText, 5, D.Accumulator(false, false, true, 425, 0, 0), 3, None, 6, 1, D.Accumulator(false, false, true, 428, 0, 0));
  }
  lemma AllUnitsStep4()
    ensures D.Components(AllUnitsText, 7, D.Accumulator(false, false, true, 428, 0, 0)) == D.Components(AllUnitsText, 8, D.Accumulator(true, false, true, 428, 0, 0))
  {
    R.TimeDesignatorAt(AllUnitsText, 7, D.Accumulator(false, false, true, 428, 0, 0));
  }
  lemma AllUnitsNumber8()
    ensures ScanNumberFraction(AllUnitsText, 8) == Ok((4, None, 9))
  {
    DigitsEnd(AllUnitsText, 9, 4);
    PlainNumber(AllUnitsText, 8, 4, 9);
  }
  lemma AllUnitsStep5()
    ensures D.Components(AllUnitsText, 8, D.Accumulator(true, false, true, 428, 0, 0)) == D.Components(AllUnitsText, 10, D.Accumulator(true, false, true, 428, 14400, 0))
  {
    AllUnitsNumber8();
    TimeComponent(AllUnitsText, 8, D.Accumulator(true, false, true, 428, 0, 0), 4, None, 9, 3600, D.Accumulator(true, false, true, 428, 14400, 0));
  }
  lemma AllUnitsNumber10()
    ensures ScanNumberFraction(AllUnitsText, 10) == Ok((5, None, 11))
  {
    DigitsEnd(AllUnitsText, 11, 5);
    PlainNumber(AllUnitsText, 10, 5, 11);
  }
  lemma AllUnitsStep6()
    ensures D.Components(AllUnitsText, 10, D.Accumulator(true, false, true, 428, 14400, 0)) == D.Components(AllUnitsText, 12, D.Accumulator(true, false, true, 428, 14700, 0))
  {
    AllUnitsNumber10();
    TimeComponent(AllUnitsText, 10, D.Accumulator(true, false, true, 428, 14400, 0), 5, None, 11, 60, D.Accumulator(true, false, true, 428, 14700, 0));
  }
  lemma AllUnitsNumber12()
    ensures ScanNumberFraction(AllUnitsText, 12) == Ok((6, None, 13))
  {
    DigitsEnd(AllUnitsText, 13, 6);
    PlainNumber(AllUnitsText, 12, 6, 13);
  }
  lemma AllUnitsStep7()
    ensures D.Components(AllUnitsText, 12, D.Accumulator(true, false, true, 428, 14700, 0)) == Ok(RawDuration(428, 14706, 0))
  {
    AllUnitsNumber12();
    TimeComponent(AllUnitsText, 12, D.Accumulator(true, false, true, 428, 14700, 0), 6, None, 13, 1, D.Accumulator(true, false, true, 428, 14706, 0));
    R.ComponentsAtEnd(AllUnitsText, D.Accumulator(true, false, true, 428, 14706, 0));
  }

  /** Every unit once. */
  lemma AllUnits()
    ensures Parse("P1Y2M3DT4H5M6S") == Ok(Duration(true, 428, 14706, 0))
  {
    AllUnitsStep1();
    AllUnitsStep2();
    AllUnitsStep3();
    AllUnitsStep4();
    AllUnitsStep5();
    AllUnitsStep6();
    AllUnitsStep7();
    Unsigned("P1Y2M3DT4H5M6S");
    RoundTrip.ParseDesignator("P1Y2M3DT4H5M6S", true, AllUnitsText, RawDuration(428, 14706, 0));
    NewIdempotent(Duration(true, 428, 14706, 0));
  }

  const ExceedsDayText := "PT86500S"
  lemma ExceedsDayStep1()
    ensures D.Components(ExceedsDayText, 1, D.Accumulator(false, false, false, 0, 0, 0)) == D.Components(ExceedsDayText, 2, D.Accumulator(true, false, false, 0, 0, 0))
  {
    R.TimeDesignatorAt(ExceedsDayText, 1, D.Accumulator(false, false, false, 0, 0, 0));
  }
  lemma ExceedsDayNumber2Digits1()
    ensures Accumulate(ExceedsDayText, 3, 8) == Accumulate(ExceedsDayText, 6, 8650)
  {
    Digit(ExceedsDayText, 3, 8);
    Digit(ExceedsDayText, 4, 86);
    Digit(ExceedsDayText, 5, 865);
  }
  lemma ExceedsDayNumber2Digits2()
    ensures Accumulate(ExceedsDayText, 6, 8650) == Accumulate(ExceedsDayText, 7, 86500)
  {
    Digit(ExceedsDayText, 6, 8650);
  }
  lemma ExceedsDayNumber2()
    ensures ScanNumberFraction(ExceedsDayText, 2) == Ok((86500, None, 7))
  {
    ExceedsDayNumber2Digits1();
    ExceedsDayNumber2Digits2();
    DigitsEnd(ExceedsDayText, 7, 86500);
    PlainNumber(ExceedsDayText, 2, 86500, 7);
  }
  lemma ExceedsDayStep2()
    ensures D.Components(ExceedsDayText, 2, D.Accumulator(true, false, false, 0, 0, 0)) == Ok(RawDuration(0, 86500, 0))
  {
    ExceedsDayNumber2();
    TimeComponent(ExceedsDayText, 2, D.Accumulator(true, false, false, 0, 0, 0), 86500, None, 7, 1, D.Accumulator(true, false, false, 0, 86500, 0));
    R.ComponentsAtEnd(ExceedsDayText, D.Accumulator(true, false, true, 0, 86500, 0));
  }

  /** More seconds than a day holds are carried into days by the constructor. */
  lemma ExceedsDay()
    ensures Parse("PT86500S") == Ok(Duration(true, 1, 100, 0))
  {
    ExceedsDayStep1();
    ExceedsDayStep2();
    Unsigned("PT86500S");
    RoundTrip.ParseDesignator("PT86500S", true, ExceedsDayText, RawDuration(0, 86500, 0));
    assert New(true, 0, 86500, 0) == Ok(Duration(true, 1, 100, 0));
  }

  const MonthAndSecondsText := "P1MT1.5S"
  lemma MonthAndSecondsNumber1()
    ensures ScanNumberFraction(MonthAndSecondsText, 1) == Ok((1, None, 2))
  {
    DigitsEnd(MonthAndSecondsText, 2, 1);
    PlainNumber(MonthAndSecondsText, 1, 1, 2);
  }
  lemma MonthAndSecondsStep1()
    ensures D.Components(MonthAndSecondsText, 1, D.Accumulator(false, false, false, 0, 0, 0)) == D.Components(MonthAndSecondsText, 3, D.Accumulator(false, false, true, 30, 0, 0))
  {
    MonthAndSecondsNumber1();
    DateComponent(MonthAndSecondsText, 1, D.Accumulator(false, false, false, 0, 0, 0), 1, None, 2, 30, D.Accumulator(false, false, false, 30, 0, 0));
  }
  lemma MonthAndSecondsStep2()
    ensures D.Components(MonthAndSecondsText, 3, D.Accumulator(false, false, true, 30, 0, 0)) == D.Components(MonthAndSecondsText, 4, D.Accumulator(true, false, true, 30, 0, 0))
  {
    R.TimeDesignatorAt(MonthAndSecondsText, 3, D.Accumulator(false, false, true, 30, 0, 0));
  }
  lemma MonthAndSecondsNumber4()
    ensures ScanNumberFraction(MonthAndSecondsText, 4) == Ok((1, Some(500000), 7))
  {
    DigitsEnd(MonthAndSecondsText, 5, 1);
    FractionDigit(MonthAndSecondsText, 6, 0, 0);
    FractionStop(MonthAndSecondsText, 7, 1, 5);
    DottedNumber(MonthAndSecondsText, 4, 1, 5, 500000, 7);
  }
  lemma MonthAndSecondsStep3()
    ensures D.Components(MonthAndSecondsText, 4, D.Accumulator(true, false, true, 30, 0, 0)) == Ok(RawDuration(30, 1, 500000))
  {
    MonthAndSecondsNumber4();
    TimeComponent(MonthAndSecondsText, 4, D.Accumulator(true, false, true, 30, 0, 0), 1, Some(500000), 7, 1, D.Accumulator(true, false, true, 30, 1, 500000));
    R.ComponentsAtEnd(MonthAndSecondsText, D.Accumulator(true, true, true, 30, 1, 500000));
  }

  /** A month and one and a half seconds. */
  lemma MonthAndSeconds()
    ensures Parse("P1MT1.5S") == Ok(Duration(true, 30, 1, 500000))
  {
    MonthAndSecondsStep1();
    MonthAndSecondsStep2();
    MonthAndSecondsStep3();
    Unsigned("P1MT1.5S");
    RoundTrip.ParseDesignator("P1MT1.5S", true, MonthAndSecondsText, RawDuration(30, 1, 500000));
    NewIdempotent(Duration(true, 30, 1, 500000));
  }

  const NegativeDayAndSecondsText := "P1DT42.123456S"
  lemma NegativeDayAndSecondsNumber1()
    ensures ScanNumberFraction(NegativeDayAndSecondsText, 1) == Ok((1, None, 2))
  {
    DigitsEnd(NegativeDayAndSecondsText, 2, 1);
    PlainNumber(NegativeDayAndSecondsText, 1, 1, 2);
  }
  lemma NegativeDayAndSecondsStep1()
    ensures D.Components(NegativeDayAndSecondsText, 1, D.Accumulator(false, false, false, 0, 0, 0)) == D.Components(NegativeDayAndSecondsText, 3, D.Accumulator(false, false, true, 1, 0, 0))
  {
    NegativeDayAndSecondsNumber1();
    DateComponent(NegativeDayAndSecondsText, 1, D.Accumulator(false, false, false, 0, 0, 0), 1, None, 2, 1, D.Accumulator(false, false, false, 1, 0, 0));
  }
  lemma NegativeDayAndSecondsStep2()
    ensures D.Components(NegativeDayAndSecondsText, 3, D.Accumulator(false, false, true, 1, 0, 0)) == D.Components(NegativeDayAndSecondsText, 4, D.Accumulator(true, false, true, 1, 0, 0))
  {
    R.TimeDesignatorAt(NegativeDayAndSecondsText, 3, D.Accumulator(false, false, true, 1, 0, 0));
  }
  lemma NegativeDayAndSecondsNumber4Fraction1()
    ensures FractionLoop(NegativeDayAndSecondsText, 7, 0, 0) == FractionLoop(NegativeDayAndSecondsText, 9, 2, 12)
  {
    FractionDigit(NegativeDayAndSecondsText, 7, 0, 0);
    FractionDigit(NegativeDayAndSecondsText, 8, 1, 1);
  }
  lemma NegativeDayAndSecondsNumber4Fraction2()
    ensures FractionLoop(NegativeDayAndSecondsText, 9, 2, 12) == FractionLoop(NegativeDayAndSecondsText, 11, 4, 1234)
  {
    FractionDigit(NegativeDayAndSecondsText, 9, 2, 12);
    FractionDigit(NegativeDayAndSecondsText, 10, 3, 123);
  }
  lemma NegativeDayAndSecondsNumber4Fraction3()
    ensures FractionLoop(NegativeDayAndSecondsText, 11, 4, 1234) == FractionLoop(NegativeDayAndSecondsText, 13, 6, 123456)
  {
    FractionDigit(NegativeDayAndSecondsText, 11, 4, 1234);
    FractionDigit(NegativeDayAndSecondsText, 12, 5, 12345);
  }
  lemma NegativeDayAndSecondsNumber4Fraction()
    ensures FractionLoop(NegativeDayAndSecondsText, 7, 0, 0) == (123456, 13)
  {
    NegativeDayAndSecondsNumber4Fraction1();
    NegativeDayAndSecondsNumber4Fraction2();
    NegativeDayAndSecondsNumber4Fraction3();
    FractionStop(NegativeDayAndSecondsText, 13, 6, 123456);
  }
  lemma NegativeDayAndSecondsNumber4()
    ensures ScanNumberFraction(NegativeDayAndSecondsText, 4) == Ok((42, Some(123456), 13))
  {
    Digit(NegativeDayAndSecondsText, 5, 4);
    DigitsEnd(NegativeDayAndSecondsText, 6, 42);
    NegativeDayAndSecondsNumber4Fraction();
    DottedNumber(NegativeDayAndSecondsText, 4, 42, 6, 123456, 13);
  }
  lemma NegativeDayAndSecondsStep3()
    ensures D.Components(NegativeDayAndSecondsText, 4, D.Accumulator(true, false, true, 1, 0, 0)) == Ok(RawDuration(1, 42, 123456))
  {
    NegativeDayAndSecondsNumber4();
    TimeComponent(NegativeDayAndSecondsText, 4, D.Accumulator(true, false, true, 1, 0, 0), 42, Some(123456), 13, 1, D.Accumulator(true, false, true, 1, 42, 123456));
    R.ComponentsAtEnd(NegativeDayAndSecondsText, D.Accumulator(true, true, true, 1, 42, 123456));
  }

  /** A negative day and fractional seconds. */
  lemma NegativeDayAndSeconds()
    ensures Parse("-P1DT42.123456S") == Ok(Duration(false, 1, 42, 123456))
  {
    NegativeDayAndSecondsStep1();
    NegativeDayAndSecondsStep2();
    NegativeDayAndSecondsStep3();
    Minus("-P1DT42.123456S", NegativeDayAndSecondsText);
    RoundTrip.ParseDesignator("-P1DT42.123456S", false, NegativeDayAndSecondsText, RawDuration(1, 42, 123456));
    NewIdempotent(Duration(false, 1, 42, 123456));
  }

  const PlusOneDayText := "P1D"
  lemma PlusOneDayNumber1()
    ensures ScanNumberFraction(PlusOneDayText, 1) == Ok((1, None, 2))
  {
    DigitsEnd(PlusOneDayText, 2, 1);
    PlainNumber(PlusOneDayText, 1, 1, 2);
  }
  lemma PlusOneDayRead()
    ensures D.Components(PlusOneDayText, 1, D.Accumulator(false, false, false, 0, 0, 0)) == Ok(RawDuration(1, 0, 0))
  {
    PlusOneDayNumber1();
    DateComponent(PlusOneDayText, 1, D.Accumulator(false, false, false, 0, 0, 0), 1, None, 2, 1, D.Accumulator(false, false, false, 1, 0, 0));
    R.ComponentsAtEnd(PlusOneDayText, D.Accumulator(false, false, true, 1, 0, 0));
  }

  /** Plus one day. */
  lemma PlusOneDay()
    ensures Parse("+P1D") == Ok(Duration(true, 1, 0, 0))
  {
    PlusOneDayRead();
    Plus("+P1D", PlusOneDayText);
    RoundTrip.ParseDesignator("+P1D", true, PlusOneDayText, RawDuration(1, 0, 0));
    NewIdempotent(Duration(true, 1, 0, 0));
  }

  const MinusTwoDaysText := "P2D"
  lemma MinusTwoDaysNumber1()
    ensures ScanNumberFraction(MinusTwoDaysText, 1) == Ok((2, None, 2))
  {
    DigitsEnd(MinusTwoDaysText, 2, 2);
    PlainNumber(MinusTwoDaysText, 1, 2, 2);
  }
  lemma MinusTwoDaysRead()
    ensures D.Components(MinusTwoDaysText, 1, D.Accumulator(false, false, false, 0, 0, 0)) == Ok(RawDuration(2, 0, 0))
  {
    MinusTwoDaysNumber1();
    DateComponent(MinusTwoDaysText, 1, D.Accumulator(false, false, false, 0, 0, 0), 2, None, 2, 1, D.Accumulator(false, false, false, 2, 0, 0));
    R.ComponentsAtEnd(MinusTwoDaysText, D.Accumulator(false, false, true, 2, 0, 0));
  }

  /** Minus two days. */
  lemma MinusTwoDays()
    ensures Parse("-P2D") == Ok(Duration(false, 2, 0, 0))
  {
    MinusTwoDaysRead();
    Minus("-P2D", MinusTwoDaysText);
    RoundTrip.ParseDesignator("-P2D", false, MinusTwoDaysText, RawDuration(2, 0, 0));
    NewIdempotent(Duration(false, 2, 0, 0));
  }

  const DesignatorOnlyText := "P"
  lemma DesignatorOnlyRead()
    ensures D.Components(DesignatorOnlyText, 1, D.Accumulator(false, false, false, 0, 0, 0)) == Err(TooShort)
  {
    NoComponent(DesignatorOnlyText, D.Accumulator(false, false, false, 0, 0, 0));
  }

  /** Nothing after the designator is TooShort. */
  lemma DesignatorOnly()
    ensures Parse("P") == Err(TooShort)
  {
    DesignatorOnlyRead();
    Unsigned("P");
    DesignatorFails("P", true, DesignatorOnlyText, TooShort);
  }

  const MissingNumberText := "PD"
  lemma MissingNumberRead()
    ensures D.Components(MissingNumberText, 1, D.Accumulator(false, false, false, 0, 0, 0)) == Err(DurationInvalidNumber)
  {
    ComponentFails(MissingNumberText, 1, D.Accumulator(false, false, false, 0, 0, 0), DurationInvalidNumber);
  }

  /** A unit without a number is DurationInvalidNumber. */
  lemma MissingNumber()
    ensures Parse("PD") == Err(DurationInvalidNumber)
  {
    MissingNumberRead();
    Unsigned("PD");
    DesignatorFails("PD", true, MissingNumberText, DurationInvalidNumber);
  }

  const NotAUnitText := "PX"
  lemma NotAUnitRead()
    ensures D.Components(NotAUnitText, 1, D.Accumulator(false, false, false, 0, 0, 0)) == Err(DurationInvalidNumber)
  {
    ComponentFails(NotAUnitText, 1, D.Accumulator(false, false, false, 0, 0, 0), DurationInvalidNumber);
  }

  /** A character that is neither a digit nor a unit letter, where a component
      should begin, is DurationInvalidNumber in the date segment too. */
  lemma NotAUnit()
    ensures Parse("PX") == Err(DurationInvalidNumber)
  {
    NotAUnitRead();
    Unsigned("PX");
    DesignatorFails("PX", true, NotAUnitText, DurationInvalidNumber);
  }

  const RepeatedTText := "P1DT1MT1S"
  lemma RepeatedTNumber1()
    ensures ScanNumberFraction(RepeatedTText, 1) == Ok((1, None, 2))
  {
    DigitsEnd(RepeatedTText, 2, 1);
    PlainNumber(RepeatedTText, 1, 1, 2);
  }
  lemma RepeatedTStep1()
    ensures D.Components(RepeatedTText, 1, D.Accumulator(false, false, false, 0, 0, 0)) == D.Components(RepeatedTText, 3, D.Accumulator(false, false, true, 1, 0, 0))
  {
    RepeatedTNumber1();
    DateComponent(RepeatedTText, 1, D.Accumulator(false, false, false, 0, 0, 0), 1, None, 2, 1, D.Accumulator(false, false, false, 1, 0, 0));
  }
  lemma RepeatedTStep2()
    ensures D.Components(RepeatedTText, 3, D.Accumulator(false, false, true, 1, 0, 0)) == D.Components(RepeatedTText, 4, D.Accumulator(true, false, true, 1, 0, 0))
  {
    R.TimeDesignatorAt(RepeatedTText, 3, D.Accumulator(false, false, true, 1, 0, 0));
  }
  lemma RepeatedTNumber4()
    ensures ScanNumberFraction(RepeatedTText, 4) == Ok((1, None, 5))
  {
    DigitsEnd(RepeatedTText, 5, 1);
    PlainNumber(RepeatedTText, 4, 1, 5);
  }
  lemma RepeatedTStep3()
    ensures D.Components(RepeatedTText, 4, D.Accumulator(true, false, true, 1, 0, 0)) == D.Components(RepeatedTText, 6, D.Accumulator(true, false, true, 1, 60, 0))
  {
    RepeatedTNumber4();
    TimeComponent(RepeatedTText, 4, D.Accumulator(true, false, true, 1, 0, 0), 1, None, 5, 60, D.Accumulator(true, false, true, 1, 60, 0));
  }
  lemma RepeatedTStep4()
    ensures D.Components(RepeatedTText, 6, D.Accumulator(true, false, true, 1, 60, 0)) == Err(DurationTRepeated)
  {
    RepeatedTimeDesignator(RepeatedTText, 6, D.Accumulator(true, false, true, 1, 60, 0));
  }

  /** A second 'T' is DurationTRepeated. */
  lemma RepeatedT()
    ensures Parse("P1DT1MT1S") == Err(DurationTRepeated)
  {
    RepeatedTStep1();
    RepeatedTStep2();
    RepeatedTStep3();
    RepeatedTStep4();
    Unsigned("P1DT1MT1S");
    DesignatorFails("P1DT1MT1S", true, RepeatedTText, DurationTRepeated);
  }

  const AfterFractionText := "P1DT1.1M1S"
  lemma AfterFractionNumber1()
    ensures ScanNumberFraction(AfterFractionText, 1) == Ok((1, None, 2))
  {
    DigitsEnd(AfterFractionText, 2, 1);
    PlainNumber(AfterFractionText, 1, 1, 2);
  }
  lemma AfterFractionStep1()
    ensures D.Components(AfterFractionText, 1, D.Accumulator(false, false, false, 0, 0, 0)) == D.Components(AfterFractionText, 3, D.Accumulator(false, false, true, 1, 0, 0))
  {
    AfterFractionNumber1();
    DateComponent(AfterFractionText, 1, D.Accumulator(false, false, false, 0, 0, 0), 1, None, 2, 1, D.Accumulator(false, false, false, 1, 0, 0));
  }
  lemma AfterFractionStep2()
    ensures D.Components(AfterFractionText, 3, D.Accumulator(false, false, true, 1, 0, 0)) == D.Components(AfterFractionText, 4, D.Accumulator(true, false, true, 1, 0, 0))
  {
    R.TimeDesignatorAt(AfterFractionText, 3, D.Accumulator(false, false, true, 1, 0, 0));
  }
  lemma AfterFractionNumber4()
    ensures ScanNumberFraction(AfterFractionText, 4) == Ok((1, Some(100000), 7))
  {
    DigitsEnd(AfterFractionText, 5, 1);
    FractionDigit(AfterFractionText, 6, 0, 0);
    FractionStop(AfterFractionText, 7, 1, 1);
    DottedNumber(AfterFractionText, 4, 1, 5, 100000, 7);
  }
  lemma AfterFractionStep3()
    ensures D.Components(AfterFractionText, 4, D.Accumulator(true, false, true, 1, 0, 0)) == D.Components(AfterFractionText, 8, D.Accumulator(true, true, true, 1, 66, 0))
  {
    AfterFractionNumber4();
    TimeComponent(AfterFractionText, 4, D.Accumulator(true, false, true, 1, 0, 0), 1, Some(100000), 7, 60, D.Accumulator(true, false, true, 1, 66, 0));
  }
  lemma AfterFractionStep4()
    ensures D.Components(AfterFractionText, 8, D.Accumulator(true, true, true, 1, 66, 0)) == Err(DurationInvalidFraction)
  {
    ComponentFails(AfterFractionText, 8, D.Accumulator(true, true, true, 1, 66, 0), DurationInvalidFraction);
  }

  /** A component after a fractional one is DurationInvalidFraction. */
  lemma AfterFraction()
    ensures Parse("P1DT1.1M1S") == Err(DurationInvalidFraction)
  {
    AfterFractionStep1();
    AfterFractionStep2();
    AfterFractionStep3();
    AfterFractionStep4();
    Unsigned("P1DT1.1M1S");
    DesignatorFails("P1DT1.1M1S", true, AfterFractionText, DurationInvalidFraction);
  }

  const BadTimeUnitText := "P1DT1X"
  lemma BadTimeUnitNumber1()
    ensures ScanNumberFraction(BadTimeUnitText, 1) == Ok((1, None, 2))
  {
    DigitsEnd(BadTimeUnitText, 2, 1);
    PlainNumber(BadTimeUnitText, 1, 1, 2);
  }
  lemma BadTimeUnitStep1()
    ensures D.Components(BadTimeUnitText, 1, D.Accumulator(false, false, false, 0, 0, 0)) == D.Components(BadTimeUnitText, 3, D.Accumulator(false, false, true, 1, 0, 0))
  {
    BadTimeUnitNumber1();
    DateComponent(BadTimeUnitText, 1, D.Accumulator(false, false, false, 0, 0, 0), 1, None, 2, 1, D.Accumulator(false, false, false, 1, 0, 0));
  }
  lemma BadTimeUnitStep2()
    ensures D.Components(BadTimeUnitText, 3, D.Accumulator(false, false, true, 1, 0, 0)) == D.Components(BadTimeUnitText, 4, D.Accumulator(true, false, true, 1, 0, 0))
  {
    R.TimeDesignatorAt(BadTimeUnitText, 3, D.Accumulator(false, false, true, 1, 0, 0));
  }
  lemma BadTimeUnitStep3()
    ensures D.Components(BadTimeUnitText, 4, D.Accumulator(true, false, true, 1, 0, 0)) == Err(DurationInvalidTimeUnit)
  {
    ComponentFails(BadTimeUnitText, 4, D.Accumulator(true, false, true, 1, 0, 0), DurationInvalidTimeUnit);
  }

  /** An unknown time unit is DurationInvalidTimeUnit. */
  lemma BadTimeUnit()
    ensures Parse("P1DT1X") == Err(DurationInvalidTimeUnit)
  {
    BadTimeUnitStep1();
    BadTimeUnitStep2();
    BadTimeUnitStep3();
    Unsigned("P1DT1X");
    DesignatorFails("P1DT1X", true, BadTimeUnitText, DurationInvalidTimeUnit);
  }

  const BadDateUnitText := "P1X"
  lemma BadDateUnitRead()
    ensures D.Components(BadDateUnitText, 1, D.Accumulator(false, false, false, 0, 0, 0)) == Err(DurationInvalidDateUnit)
  {
    ComponentFails(BadDateUnitText, 1, D.Accumulator(false, false, false, 0, 0, 0), DurationInvalidDateUnit);
  }

  /** An unknown date unit is DurationInvalidDateUnit. */
  lemma BadDateUnit()
    ensures Parse("P1X") == Err(DurationInvalidDateUnit)
  {
    BadDateUnitRead();
    Unsigned("P1X");
    DesignatorFails("P1X", true, BadDateUnitText, DurationInvalidDateUnit);
  }

  const MissingDateUnitText := "P1"
  lemma MissingDateUnitRead()
    ensures D.Components(MissingDateUnitText, 1, D.Accumulator(false, false, false, 0, 0, 0)) == Err(DurationInvalidDateUnit)
  {
    ComponentFails(MissingDateUnitText, 1, D.Accumulator(false, false, false, 0, 0, 0), DurationInvalidDateUnit);
  }

  /** A number without a unit is DurationInvalidDateUnit. */
  lemma MissingDateUnit()
    ensures Parse("P1") == Err(DurationInvalidDateUnit)
  {
    MissingDateUnitRead();
    Unsigned("P1");
    DesignatorFails("P1", true, MissingDateUnitText, DurationInvalidDateUnit);
  }

  const HugeDaysText := "P" + U64Prefix + "709551611DT8031M1M1M1M"
  lemma HugeDaysNumber1()
    ensures ScanNumber(HugeDaysText, 1) == Err(DurationValueTooLarge)
  {
    PrefixOverflows(HugeDaysText, "P", "709551611DT8031M1M1M1M", 1);
  }
  lemma HugeDaysRead()
    ensures D.Components(HugeDaysText, 1, D.Accumulator(false, false, false, 0, 0, 0)) == Err(DurationValueTooLarge)
  {
    HugeDaysNumber1();
    NumberFails(HugeDaysText, 1, D.Accumulator(false, false, false, 0, 0, 0), DurationValueTooLarge);
  }

  /** A number that does not fit 32 bits is DurationValueTooLarge. */
  lemma HugeDays()
    ensures Parse(HugeDaysText) == Err(DurationValueTooLarge)
  {
    HugeDaysRead();
    Unsigned(HugeDaysText);
    DesignatorFails(HugeDaysText, true, HugeDaysText, DurationValueTooLarge);
  }

  const HugeNumberText := "P" + U64Prefix + "709550PT9970442H6R15D1D"
  lemma HugeNumberNumber1()
    ensures ScanNumber(HugeNumberText, 1) == Err(DurationValueTooLarge)
  {
    PrefixOverflows(HugeNumberText, "P", "709550PT9970442H6R15D1D", 1);
  }
  lemma HugeNumberRead()
    ensures D.Components(HugeNumberText, 1, D.Accumulator(false, false, false, 0, 0, 0)) == Err(DurationValueTooLarge)
  {
    HugeNumberNumber1();
    NumberFails(HugeNumberText, 1, D.Accumulator(false, false, false, 0, 0, 0), DurationValueTooLarge);
  }

  /** A number that does not fit 32 bits is DurationValueTooLarge. */
  lemma HugeNumber()
    ensures Parse(HugeNumberText) == Err(DurationValueTooLarge)
  {
    HugeNumberRead();
    Unsigned(HugeNumberText);
    DesignatorFails(HugeNumberText, true, HugeNumberText, DurationValueTooLarge);
  }

}
