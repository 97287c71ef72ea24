/** The parameterised duration tests that read an input and compare what
    `to_string` gives back: each is the read of the input, from the parsing
    examples, and the rendering of its result, from the formatting examples. */
module DisplayExamples {
  import opened Errors
  import opened Durations
  import opened Formatter
  import opened Parser
  import DE = DesignatorExamples
  import WE = WordExamples
  import FE = FormatExamples
  import Ex = Examples

  /** "P1Y" is read and written back as "P1Y". */
  lemma SimpleRendered()
    ensures Parse("P1Y") == Ok(Duration(true, 365, 0, 0))
    ensures Format(Duration(true, 365, 0, 0)) == "P1Y"
  {
    DE.Simple();
    FE.RenderYear();
  }
  /** "P123Y" is read and written back as "P123Y". */
  lemma YearsRendered()
    ensures Parse("P123Y") == Ok(Duration(true, 44895, 0, 0))
    ensures Format(Duration(true, 44895, 0, 0)) == "P123Y"
  {
    DE.Years();
    FE.RenderYears();
  }
  /** "P123.8Y" is read and written back as "P123Y292D". */
  lemma FractionalYearsRendered()
    ensures Parse("P123.8Y") == Ok(Duration(true, 45187, 0, 0))
    ensures Format(Duration(true, 45187, 0, 0)) == "P123Y292D"
  {
    DE.FractionalYears();
    FE.RenderYearsAndDays();
  }
  /** "P1M" is read and written back as "P30D". */
  lemma MonthRendered()
    ensures Parse("P1M") == Ok(Duration(true, 30, 0, 0))
    ensures Format(Duration(true, 30, 0, 0)) == "P30D"
  {
    DE.Month();
    FE.RenderMonth();
  }
  /** "P1.5M" is read and written back as "P45D". */
  lemma FractionalMonthRendered()
    ensures Parse("P1.5M") == Ok(Duration(true, 45, 0, 0))
    ensures Format(Duration(true, 45, 0, 0)) == "P45D"
  {
    DE.FractionalMonth();
    FE.RenderMonthAndHalf();
  }
  /** "P1W" is read and written back as "P7D". */
  lemma WeekRendered()
    ensures Parse("P1W") == Ok(Duration(true, 7, 0, 0))
    ensures Format(Duration(true, 7, 0, 0)) == "P7D"
  {
    DE.Week();
    FE.RenderWeek();
  }
  /** "P1.1W" is read and written back as "P7DT60480S". */
  lemma TenthOfWeekRendered()
    ensures Parse("P1.1W") == Ok(Duration(true, 7, 60480, 0))
    ensures Format(Duration(true, 7, 60480, 0)) == "P7DT60480S"
  {
    DE.TenthOfWeek();
    FE.RenderWeekAndSeconds();
  }
  /** "P1.123W" is read and written back as "P7DT74390.4S". */
  lemma FractionalWeekRendered()
    ensures Parse("P1.123W") == Ok(Duration(true, 7, 74390, 400000))
    ensures Format(Duration(true, 7, 74390, 400000)) == "P7DT74390.4S"
  {
    DE.FractionalWeek();
    FE.RenderWeekAndFraction();
  }
  /** "-P1Y" is read and written back as "-P1Y". */
  lemma NegativeYearRendered()
    ensures Parse("-P1Y") == Ok(Duration(false, 365, 0, 0))
    ensures Format(Duration(false, 365, 0, 0)) == "-P1Y"
  {
    DE.NegativeYear();
    FE.RenderNegativeYear();
  }
  /** "+P1Y" is read and written back as "P1Y". */
  lemma PositiveYearRendered()
    ensures Parse("+P1Y") == Ok(Duration(true, 365, 0, 0))
    ensures Format(Duration(true, 365, 0, 0)) == "P1Y"
  {
    DE.PositiveYear();
    FE.RenderYear();
  }
  /** "PT0.555555S" is read and written back as "PT0.555555S". */
  lemma FractionalSecondsRendered()
    ensures Parse("PT0.555555S") == Ok(Duration(true, 0, 0, 555555))
    ensures Format(Duration(true, 0, 0, 555555)) == "PT0.555555S"
  {
    DE.FractionalSeconds();
    FE.RenderFraction();
  }
  /** "P1Y1DT2H0.5S" is read and written back as "P1Y1DT7200.5S". */
  lemma MixedUnitsRendered()
    ensures Parse("P1Y1DT2H0.5S") == Ok(Duration(true, 366, 7200, 500000))
    ensures Format(Duration(true, 366, 7200, 500000)) == "P1Y1DT7200.5S"
  {
    DE.MixedUnits();
    FE.RenderYearDayFraction();
  }
  /** "P1DT1S" is read and written back as "P1DT1S". */
  lemma DayAndSecondRendered()
    ensures Parse("P1DT1S") == Ok(Duration(true, 1, 1, 0))
    ensures Format(Duration(true, 1, 1, 0)) == "P1DT1S"
  {
    DE.DayAndSecond();
    FE.RenderDayAndSecond();
  }
  /** "P1Y2M3DT4H5M6S" is read and written back as "P1Y63DT14706S". */
  lemma AllUnitsRendered()
    ensures Parse("P1Y2M3DT4H5M6S") == Ok(Duration(true, 428, 14706, 0))
    ensures Format(Duration(true, 428, 14706, 0)) == "P1Y63DT14706S"
  {
    DE.AllUnits();
    FE.RenderYearDaysSeconds();
  }
  /** "PT86500S" is read and written back as "P1DT100S". */
  lemma ExceedsDayRendered()
    ensures Parse("PT86500S") == Ok(Duration(true, 1, 100, 0))
    ensures Format(Duration(true, 1, 100, 0)) == "P1DT100S"
  {
    DE.ExceedsDay();
    FE.RenderDayAnd100();
  }
  /** "P1MT1.5S" is read and written back as "P30DT1.5S". */
  lemma MonthAndSecondsRendered()
    ensures Parse("P1MT1.5S") == Ok(Duration(true, 30, 1, 500000))
    ensures Format(Duration(true, 30, 1, 500000)) == "P30DT1.5S"
  {
    DE.MonthAndSeconds();
    FE.RenderMonthAndHalfSecond();
  }
  /** "-P1DT42.123456S" is read and written back as "-P1DT42.123456S". */
  lemma NegativeDayAndSecondsRendered()
    ensures Parse("-P1DT42.123456S") == Ok(Duration(false, 1, 42, 123456))
    ensures Format(Duration(false, 1, 42, 123456)) == "-P1DT42.123456S"
  {
    DE.NegativeDayAndSeconds();
    FE.RenderNegativeFraction();
  }
  /** "00:00:42" is read and written back as "PT42S". */
  lemma Seconds42Rendered()
    ensures Parse("00:00:42") == Ok(Duration(true, 0, 42, 0))
    ensures Format(Duration(true, 0, 42, 0)) == "PT42S"
  {
    WE.Seconds42();
    FE.RenderSeconds42();
  }
  /** "00:01" is read and written back as "PT60S". */
  lemma OneMinuteRendered()
    ensures Parse("00:01") == Ok(Duration(true, 0, 60, 0))
    ensures Format(Duration(true, 0, 60, 0)) == "PT60S"
  {
    WE.OneMinute();
    FE.RenderSeconds60();
  }
  /** "01:02:03" is read and written back as "PT3723S". */
  lemma HourMinuteSecondRendered()
    ensures Parse("01:02:03") == Ok(Duration(true, 0, 3723, 0))
    ensures Format(Duration(true, 0, 3723, 0)) == "PT3723S"
  {
    WE.HourMinuteSecond();
    FE.RenderSeconds3723();
  }
  /** "00:01:03.123" is read and written back as "PT63.123S". */
  lemma ClockFractionRendered()
    ensures Parse("00:01:03.123") == Ok(Duration(true, 0, 63, 123000))
    ensures Format(Duration(true, 0, 63, 123000)) == "PT63.123S"
  {
    WE.ClockFraction();
    FE.RenderSecondsFraction();
  }
  /** "1 day" is read and written back as "P1D". */
  lemma OneDayRendered()
    ensures Parse("1 day") == Ok(Duration(true, 1, 0, 0))
    ensures Format(Duration(true, 1, 0, 0)) == "P1D"
  {
    WE.OneDay();
    FE.RenderOneDay();
  }
  /** "1day" is read and written back as "P1D". */
  lemma OneDayJoinedRendered()
    ensures Parse("1day") == Ok(Duration(true, 1, 0, 0))
    ensures Format(Duration(true, 1, 0, 0)) == "P1D"
  {
    WE.OneDayJoined();
    FE.RenderOneDay();
  }
  /** "1 day," is read and written back as "P1D". */
  lemma OneDayCommaRendered()
    ensures Parse("1 day,") == Ok(Duration(true, 1, 0, 0))
    ensures Format(Duration(true, 1, 0, 0)) == "P1D"
  {
    WE.OneDayComma();
    FE.RenderOneDay();
  }
  /** "1 day, " is read and written back as "P1D". */
  lemma OneDayCommaSpaceRendered()
    ensures Parse("1 day, ") == Ok(Duration(true, 1, 0, 0))
    ensures Format(Duration(true, 1, 0, 0)) == "P1D"
  {
    WE.OneDayCommaSpace();
    FE.RenderOneDay();
  }
  /** "1days" is read and written back as "P1D". */
  lemma OneDaysRendered()
    ensures Parse("1days") == Ok(Duration(true, 1, 0, 0))
    ensures Format(Duration(true, 1, 0, 0)) == "P1D"
  {
    WE.OneDays();
    FE.RenderOneDay();
  }
  /** "1DAYS" is read and written back as "P1D". */
  lemma OneDaysUpperRendered()
    ensures Parse("1DAYS") == Ok(Duration(true, 1, 0, 0))
    ensures Format(Duration(true, 1, 0, 0)) == "P1D"
  {
    WE.OneDaysUpper();
    FE.RenderOneDay();
  }
  /** "1d" is read and written back as "P1D". */
  lemma OneDRendered()
    ensures Parse("1d") == Ok(Duration(true, 1, 0, 0))
    ensures Format(Duration(true, 1, 0, 0)) == "P1D"
  {
    WE.OneD();
    FE.RenderOneDay();
  }
  /** "1d " is read and written back as "P1D". */
  lemma OneDSpaceRendered()
    ensures Parse("1d ") == Ok(Duration(true, 1, 0, 0))
    ensures Format(Duration(true, 1, 0, 0)) == "P1D"
  {
    WE.OneDSpace();
    FE.RenderOneDay();
  }
  /** "-1 day" is read and written back as "-P1D". */
  lemma MinusOneDayRendered()
    ensures Parse("-1 day") == Ok(Duration(false, 1, 0, 0))
    ensures Format(Duration(false, 1, 0, 0)) == "-P1D"
  {
    WE.MinusOneDay();
    FE.RenderMinusOneDay();
  }
  /** "+1 day" is read and written back as "P1D". */
  lemma PlusOneDayWordRendered()
    ensures Parse("+1 day") == Ok(Duration(true, 1, 0, 0))
    ensures Format(Duration(true, 1, 0, 0)) == "P1D"
  {
    WE.PlusOneDayWord();
    FE.RenderOneDay();
  }
  /** "123days" is read and written back as "P123D". */
  lemma Days123Rendered()
    ensures Parse("123days") == Ok(Duration(true, 123, 0, 0))
    ensures Format(Duration(true, 123, 0, 0)) == "P123D"
  {
    WE.Days123();
    FE.RenderDays123();
  }
  /** "1 day 00:00:42" is read and written back as "P1DT42S". */
  lemma DayAndClockRendered()
    ensures Parse("1 day 00:00:42") == Ok(Duration(true, 1, 42, 0))
    ensures Format(Duration(true, 1, 42, 0)) == "P1DT42S"
  {
    WE.DayAndClock();
    FE.RenderDayAnd42();
  }
  /** "-1 day 00:00:42" is read and written back as "-P1DT42S". */
  lemma MinusDayAndClockRendered()
    ensures Parse("-1 day 00:00:42") == Ok(Duration(false, 1, 42, 0))
    ensures Format(Duration(false, 1, 42, 0)) == "-P1DT42S"
  {
    WE.MinusDayAndClock();
    FE.RenderMinusDayAnd42();
  }
  /** "999999999 day 00:00" is read and written back as "P2739726Y9D". */
  lemma LargeDayCountRendered()
    ensures Parse(WE.LargeDayCountText) == Ok(Duration(true, 999999999, 0, 0))
    ensures Format(Duration(true, 999999999, 0, 0)) == "P2739726Y9D"
  {
    WE.LargeDayCount();
    FE.RenderLargeDays();
  }
  /** The largest positive duration the constructor admits, written out. */
  lemma LimitRendered()
    ensures New(true, 999_999_999, 86399, 999_999) == Ok(Duration(true, 999999999, 86399, 999999))
    ensures Format(Duration(true, 999999999, 86399, 999999)) == "P2739726Y9DT86399.999999S"
  {
    Ex.NormaliseLimit();
    FE.RenderLimit();
  }
  /** The largest negative duration the constructor admits, written out. */
  lemma NegativeLimitRendered()
    ensures New(false, 999_999_999, 86399, 999_999) == Ok(Duration(false, 999999999, 86399, 999999))
    ensures Format(Duration(false, 999999999, 86399, 999999)) == "-P2739726Y9DT86399.999999S"
  {
    Ex.NormaliseLimit();
    FE.RenderNegativeLimit();
  }
}
