/** The clock and day-word cases of the duration tests. */
module WordExamples {
  import opened Errors
  import opened Numeric
  import opened Durations
  import opened Parser
  import Clock
  import DayWord
  import WordForms
  import opened DesignatorExamples

  /** An input whose body is not a designator and has a ':' before any letter
      is read as a clock and then normalised. */
  lemma ClockReads(s: string, positive: bool, t: string, second: U32, microsecond: U32)
    requires SplitSign(s) == (positive, t) && |t| > 0 && t[0] != 'P' && ColonBeforeLetter(t, 0)
    requires Clock.ParseClock(t, 0) == Ok((second, microsecond))
    ensures Parse(s) == New(positive, 0, second, microsecond)
  {
  }

  lemma ClockFail(s: string, positive: bool, t: string, e: ParseError)
    requires SplitSign(s) == (positive, t) && |t| > 0 && t[0] != 'P' && ColonBeforeLetter(t, 0)
    requires Clock.ParseClock(t, 0) == Err(e)
    ensures Parse(s) == Err(e)
  {
  }

  /** Any other body is read by the day-word dialect. */
  lemma DaysRead(s: string, positive: bool, t: string, raw: RawDuration)
    requires SplitSign(s) == (positive, t) && |t| > 0 && t[0] != 'P' && !ColonBeforeLetter(t, 0)
    requires DayWord.ParseDays(t, 0) == Ok(raw)
    ensures Parse(s) == New(positive, raw.day, raw.second, raw.microsecond)
  {
  }

  lemma DaysFail(s: string, positive: bool, t: string, e: ParseError)
    requires SplitSign(s) == (positive, t) && |t| > 0 && t[0] != 'P' && !ColonBeforeLetter(t, 0)
    requires DayWord.ParseDays(t, 0) == Err(e)
    ensures Parse(s) == Err(e)
  {
  }

  /** A day count, its word and separator, and then a clock. */
  lemma DaysThenClock(s: string, day: U32, p: nat, unitStart: nat, unitEnd: nat, clockStart: nat,
                      second: U32, microsecond: U32)
    requires ScanNumber(s, 0) == Ok((day, p)) && unitStart == (if p < |s| && s[p] == ' ' then p + 1 else p)
    requires DayWord.UnitEnd(s, unitStart) == Ok(unitEnd) && DayWord.SeparatorEnd(s, unitEnd) == clockStart
    requires clockStart < |s| && Clock.ParseClock(s, clockStart) == Ok((second, microsecond))
    ensures DayWord.ParseDays(s, 0) == Ok(RawDuration(day, second, microsecond))
  {
  }

  lemma DaysThenBadClock(s: string, day: U32, p: nat, unitStart: nat, unitEnd: nat, clockStart: nat,
                         e: ParseError)
    requires ScanNumber(s, 0) == Ok((day, p)) && unitStart == (if p < |s| && s[p] == ' ' then p + 1 else p)
    requires DayWord.UnitEnd(s, unitStart) == Ok(unitEnd) && DayWord.SeparatorEnd(s, unitEnd) == clockStart
    requires clockStart < |s| && Clock.ParseClock(s, clockStart) == Err(e)
    ensures DayWord.ParseDays(s, 0) == Err(e)
  {
  }

  /** A clock `H:MM` and its seconds tail. */
  lemma ClockOf(s: string, pos: nat, hour: U32, p: nat, minute: nat, second: nat, microsecond: nat, end: nat)
    requires pos <= |s| && |s| - pos >= Clock.MinClockLength
    requires ScanNumber(s, pos) == Ok((hour, p)) && p + 3 <= |s| && s[p] == ':'
    requires IsDigit(s[p + 1]) && IsDigit(s[p + 2]) && Clock.TwoDigitValue(s[p + 1], s[p + 2]) == minute < 60
    requires Clock.SecondsTail(s, p + 3) == Ok((second, microsecond, end))
    ensures end == |s| && hour * 3600 + minute * 60 + second < Limit ==>
      Clock.ParseClock(s, pos) == Ok((hour * 3600 + minute * 60 + second, microsecond))
    ensures end < |s| ==> Clock.ParseClock(s, pos) == Err(ExtraCharacters)
  {
  }

  lemma NoSecondsField(s: string, pos: nat)
    requires pos == |s|
    ensures Clock.SecondsTail(s, pos) == Ok((0, 0, pos))
  {
  }

  lemma WholeSecondsField(s: string, pos: nat, second: nat)
    requires pos + 3 <= |s| && s[pos] == ':' && IsDigit(s[pos + 1]) && IsDigit(s[pos + 2])
    requires Clock.TwoDigitValue(s[pos + 1], s[pos + 2]) == second < 60
    requires pos + 3 == |s| || s[pos + 3] != '.'
    ensures Clock.SecondsTail(s, pos) == Ok((second, 0, pos + 3))
  {
  }

  lemma FractionalSecondsField(s: string, pos: nat, second: nat, f: nat, end: nat)
    requires pos + 4 < |s| && s[pos] == ':' && IsDigit(s[pos + 1]) && IsDigit(s[pos + 2])
    requires Clock.TwoDigitValue(s[pos + 1], s[pos + 2]) == second < 60
    requires s[pos + 3] == '.' && IsDigit(s[pos + 4]) && FractionLoop(s, pos + 4, 0, 0) == (f, end)
    ensures Clock.SecondsTail(s, pos) == Ok((second, f, end))
  {
  }

  /** Digits and spaces do not decide the dialect. */
  lemma NeitherColonNorLetter(s: string, i: nat)
    requires i < |s| && s[i] != ':' && !IsAsciiLetter(s[i])
    ensures ColonBeforeLetter(s, i) == ColonBeforeLetter(s, i + 1)
  {
  }

  lemma LetterFirst(s: string, i: nat)
    requires i < |s| && IsAsciiLetter(s[i])
    ensures !ColonBeforeLetter(s, i)
  {
  }

  /** The digits of the largest day count. */
  const MaxDaysDigits := "999999999"

  lemma MaxDaysDigits1(s: string, post: string)
    requires s == MaxDaysDigits + post
    ensures Accumulate(s, 1, 9) == Accumulate(s, 4, 9999)
  {
    assert s[1] == '9' && s[2] == '9' && s[3] == '9';
    Digit(s, 1, 9);
    Digit(s, 2, 99);
    Digit(s, 3, 999);
  }

  lemma MaxDaysDigits2(s: string, post: string)
    requires s == MaxDaysDigits + post
    ensures Accumulate(s, 4, 9999) == Accumulate(s, 7, 9999999)
  {
    assert s[4] == '9' && s[5] == '9' && s[6] == '9';
    Digit(s, 4, 9999);
    Digit(s, 5, 99999);
    Digit(s, 6, 999999);
  }

  lemma MaxDaysDigits3(s: string, post: string)
    requires s == MaxDaysDigits + post
    ensures Accumulate(s, 7, 9999999) == Accumulate(s, 9, 999999999)
  {
    assert s[7] == '9' && s[8] == '9';
    Digit(s, 7, 9999999);
    Digit(s, 8, 99999999);
  }

  lemma MaxDaysNumber(s: string, post: string)
    requires s == MaxDaysDigits + post && |post| > 0 && !IsDigit(post[0])
    ensures ScanNumber(s, 0) == Ok((999999999, 9))
  {
    assert s[0] == '9' && s[9] == post[0];
    MaxDaysDigits1(s, post);
    MaxDaysDigits2(s, post);
    MaxDaysDigits3(s, post);
    DigitsEnd(s, 9, 999999999);
  }

  lemma DayCountFails(s: string, e: ParseError)
    requires ScanNumber(s, 0) == Err(e)
    ensures DayWord.ParseDays(s, 0) == Err(e)
  {
  }

  const Seconds42Text := "00:00:42"
  lemma Seconds42Dialect()
    ensures ColonBeforeLetter(Seconds42Text, 0)
  {
  }
  lemma Seconds42Hours()
    ensures ScanNumber(Seconds42Text, 0) == Ok((0, 2))
  {
    Digit(Seconds42Text, 1, 0);
    DigitsEnd(Seconds42Text, 2, 0);
  }
  lemma Seconds42Read()
    ensures Clock.ParseClock(Seconds42Text, 0) == Ok((42, 0))
  {
    Seconds42Hours();
    WholeSecondsField(Seconds42Text, 5, 42);
    ClockOf(Seconds42Text, 0, 0, 2, 0, 42, 0, 8);
  }

  /** Hours, minutes and seconds. */
  lemma Seconds42()
    ensures Parse("00:00:42") == Ok(Duration(true, 0, 42, 0))
  {
    Seconds42Dialect();
    Seconds42Read();
    Unsigned("00:00:42");
    ClockReads("00:00:42", true, Seconds42Text, 42, 0);
    NewIdempotent(Duration(true, 0, 42, 0));
  }

  const OneMinuteText := "00:01"
  lemma OneMinuteDialect()
    ensures ColonBeforeLetter(OneMinuteText, 0)
  {
  }
  lemma OneMinuteHours()
    ensures ScanNumber(OneMinuteText, 0) == Ok((0, 2))
  {
    Digit(OneMinuteText, 1, 0);
    DigitsEnd(OneMinuteText, 2, 0);
  }
  lemma OneMinuteRead()
    ensures Clock.ParseClock(OneMinuteText, 0) == Ok((60, 0))
  {
    OneMinuteHours();
    NoSecondsField(OneMinuteText, 5);
    ClockOf(OneMinuteText, 0, 0, 2, 1, 0, 0, 5);
  }

  /** The seconds field is optional. */
  lemma OneMinute()
    ensures Parse("00:01") == Ok(Duration(true, 0, 60, 0))
  {
    OneMinuteDialect();
    OneMinuteRead();
    Unsigned("00:01");
    ClockReads("00:01", true, OneMinuteText, 60, 0);
    NewIdempotent(Duration(true, 0, 60, 0));
  }

  const HourMinuteSecondText := "01:02:03"
  lemma HourMinuteSecondDialect()
    ensures ColonBeforeLetter(HourMinuteSecondText, 0)
  {
  }
  lemma HourMinuteSecondHours()
    ensures ScanNumber(HourMinuteSecondText, 0) == Ok((1, 2))
  {
    Digit(HourMinuteSecondText, 1, 0);
    DigitsEnd(HourMinuteSecondText, 2, 1);
  }
  lemma HourMinuteSecondRead()
    ensures Clock.ParseClock(HourMinuteSecondText, 0) == Ok((3723, 0))
  {
    HourMinuteSecondHours();
    WholeSecondsField(HourMinuteSecondText, 5, 3);
    ClockOf(HourMinuteSecondText, 0, 1, 2, 2, 3, 0, 8);
  }

  /** One hour, two minutes and three seconds. */
  lemma HourMinuteSecond()
    ensures Parse("01:02:03") == Ok(Duration(true, 0, 3723, 0))
  {
    HourMinuteSecondDialect();
    HourMinuteSecondRead();
    Unsigned("01:02:03");
    ClockReads("01:02:03", true, HourMinuteSecondText, 3723, 0);
    NewIdempotent(Duration(true, 0, 3723, 0));
  }

  const ClockFractionText := "00:01:03.123"
  lemma ClockFractionDialect()
    ensures ColonBeforeLetter(ClockFractionText, 0)
  {
  }
  lemma ClockFractionHours()
    ensures ScanNumber(ClockFractionText, 0) == Ok((0, 2))
  {
    Digit(ClockFractionText, 1, 0);
    DigitsEnd(ClockFractionText, 2, 0);
  }
  lemma ClockFractionFraction()
    ensures FractionLoop(ClockFractionText, 9, 0, 0) == (123000, 12)
  {
    FractionDigit(ClockFractionText, 9, 0, 0);
    FractionDigit(ClockFractionText, 10, 1, 1);
    FractionDigit(ClockFractionText, 11, 2, 12);
    FractionStop(ClockFractionText, 12, 3, 123);
  }
  lemma ClockFractionRead()
    ensures Clock.ParseClock(ClockFractionText, 0) == Ok((63, 123000))
  {
    ClockFractionHours();
    ClockFractionFraction();
    FractionalSecondsField(ClockFractionText, 5, 3, 123000, 12);
    ClockOf(ClockFractionText, 0, 0, 2, 1, 3, 123000, 12);
  }

  /** A fraction of a second. */
  lemma ClockFraction()
    ensures Parse("00:01:03.123") == Ok(Duration(true, 0, 63, 123000))
  {
    ClockFractionDialect();
    ClockFractionRead();
    Unsigned("00:01:03.123");
    ClockReads("00:01:03.123", true, ClockFractionText, 63, 123000);
    NewIdempotent(Duration(true, 0, 63, 123000));
  }

  const ClockExtraText := "00:01:03.123x"
  lemma ClockExtraDialect()
    ensures ColonBeforeLetter(ClockExtraText, 0)
  {
  }
  lemma ClockExtraHours()
    ensures ScanNumber(ClockExtraText, 0) == Ok((0, 2))
  {
    Digit(ClockExtraText, 1, 0);
    DigitsEnd(ClockExtraText, 2, 0);
  }
  lemma ClockExtraFraction()
    ensures FractionLoop(ClockExtraText, 9, 0, 0) == (123000, 12)
  {
    FractionDigit(ClockExtraText, 9, 0, 0);
    FractionDigit(ClockExtraText, 10, 1, 1);
    FractionDigit(ClockExtraText, 11, 2, 12);
    FractionStop(ClockExtraText, 12, 3, 123);
  }
  lemma ClockExtraRead()
    ensures Clock.ParseClock(ClockExtraText, 0) == Err(ExtraCharacters)
  {
    ClockExtraHours();
    ClockExtraFraction();
    FractionalSecondsField(ClockExtraText, 5, 3, 123000, 12);
    ClockOf(ClockExtraText, 0, 0, 2, 1, 3, 123000, 12);
  }

  /** Anything after the clock is ExtraCharacters. */
  lemma ClockExtra()
    ensures Parse("00:01:03.123x") == Err(ExtraCharacters)
  {
    ClockExtraDialect();
    ClockExtraRead();
    Unsigned("00:01:03.123x");
    ClockFail("00:01:03.123x", true, ClockExtraText, ExtraCharacters);
  }

  const OneDayText := "1 day"
  lemma OneDayDialect()
    ensures !ColonBeforeLetter(OneDayText, 0)
  {
  }
  lemma OneDayRead()
    ensures DayWord.ParseDays(OneDayText, 0) == Ok(RawDuration(1, 0, 0))
  {
  }

  /** A day count and the word "day". */
  lemma OneDay()
    ensures Parse("1 day") == Ok(Duration(true, 1, 0, 0))
  {
    OneDayDialect();
    OneDayRead();
    Unsigned("1 day");
    DaysRead("1 day", true, OneDayText, RawDuration(1, 0, 0));
    NewIdempotent(Duration(true, 1, 0, 0));
  }

  const OneDayJoinedText := "1day"
  lemma OneDayJoinedDialect()
    ensures !ColonBeforeLetter(OneDayJoinedText, 0)
  {
  }
  lemma OneDayJoinedRead()
    ensures DayWord.ParseDays(OneDayJoinedText, 0) == Ok(RawDuration(1, 0, 0))
  {
  }

  /** The space before the word is optional. */
  lemma OneDayJoined()
    ensures Parse("1day") == Ok(Duration(true, 1, 0, 0))
  {
    OneDayJoinedDialect();
    OneDayJoinedRead();
    Unsigned("1day");
    DaysRead("1day", true, OneDayJoinedText, RawDuration(1, 0, 0));
    NewIdempotent(Duration(true, 1, 0, 0));
  }

  const OneDayCommaText := "1 day,"
  lemma OneDayCommaDialect()
    ensures !ColonBeforeLetter(OneDayCommaText, 0)
  {
  }
  lemma OneDayCommaRead()
    ensures DayWord.ParseDays(OneDayCommaText, 0) == Ok(RawDuration(1, 0, 0))
  {
  }

  /** A trailing comma is accepted. */
  lemma OneDayComma()
    ensures Parse("1 day,") == Ok(Duration(true, 1, 0, 0))
  {
    OneDayCommaDialect();
    OneDayCommaRead();
    Unsigned("1 day,");
    DaysRead("1 day,", true, OneDayCommaText, RawDuration(1, 0, 0));
    NewIdempotent(Duration(true, 1, 0, 0));
  }

  const OneDayCommaSpaceText := "1 day, "
  lemma OneDayCommaSpaceDialect()
    ensures !ColonBeforeLetter(OneDayCommaSpaceText, 0)
  {
  }
  lemma OneDayCommaSpaceRead()
    ensures DayWord.ParseDays(OneDayCommaSpaceText, 0) == Ok(RawDuration(1, 0, 0))
  {
  }

  /** A trailing comma and space are accepted. */
  lemma OneDayCommaSpace()
    ensures Parse("1 day, ") == Ok(Duration(true, 1, 0, 0))
  {
    OneDayCommaSpaceDialect();
    OneDayCommaSpaceRead();
    Unsigned("1 day, ");
    DaysRead("1 day, ", true, OneDayCommaSpaceText, RawDuration(1, 0, 0));
    NewIdempotent(Duration(true, 1, 0, 0));
  }

  const OneDaysText := "1days"
  lemma OneDaysDialect()
    ensures !ColonBeforeLetter(OneDaysText, 0)
  {
  }
  lemma OneDaysRead()
    ensures DayWord.ParseDays(OneDaysText, 0) == Ok(RawDuration(1, 0, 0))
  {
  }

  /** The plural word. */
  lemma OneDays()
    ensures Parse("1days") == Ok(Duration(true, 1, 0, 0))
  {
    OneDaysDialect();
    OneDaysRead();
    Unsigned("1days");
    DaysRead("1days", true, OneDaysText, RawDuration(1, 0, 0));
    NewIdempotent(Duration(true, 1, 0, 0));
  }

  const OneDaysUpperText := "1DAYS"
  lemma OneDaysUpperDialect()
    ensures !ColonBeforeLetter(OneDaysUpperText, 0)
  {
  }
  lemma OneDaysUpperRead()
    ensures DayWord.ParseDays(OneDaysUpperText, 0) == Ok(RawDuration(1, 0, 0))
  {
  }

  /** The word in upper case. */
  lemma OneDaysUpper()
    ensures Parse("1DAYS") == Ok(Duration(true, 1, 0, 0))
  {
    OneDaysUpperDialect();
    OneDaysUpperRead();
    Unsigned("1DAYS");
    DaysRead("1DAYS", true, OneDaysUpperText, RawDuration(1, 0, 0));
    NewIdempotent(Duration(true, 1, 0, 0));
  }

  const OneDText := "1d"
  lemma OneDDialect()
    ensures !ColonBeforeLetter(OneDText, 0)
  {
  }
  lemma OneDRead()
    ensures DayWord.ParseDays(OneDText, 0) == Ok(RawDuration(1, 0, 0))
  {
  }

  /** The short word "d". */
  lemma OneD()
    ensures Parse("1d") == Ok(Duration(true, 1, 0, 0))
  {
    OneDDialect();
    OneDRead();
    Unsigned("1d");
    DaysRead("1d", true, OneDText, RawDuration(1, 0, 0));
    NewIdempotent(Duration(true, 1, 0, 0));
  }

  const OneDSpaceText := "1d "
  lemma OneDSpaceDialect()
    ensures !ColonBeforeLetter(OneDSpaceText, 0)
  {
  }
  lemma OneDSpaceRead()
    ensures DayWord.ParseDays(OneDSpaceText, 0) == Ok(RawDuration(1, 0, 0))
  {
  }

  /** The short word and a trailing space. */
  lemma OneDSpace()
    ensures Parse("1d ") == Ok(Duration(true, 1, 0, 0))
  {
    OneDSpaceDialect();
    OneDSpaceRead();
    Unsigned("1d ");
    DaysRead("1d ", true, OneDSpaceText, RawDuration(1, 0, 0));
    NewIdempotent(Duration(true, 1, 0, 0));
  }

  const NoNumberText := "x"
  lemma NoNumberDialect()
    ensures !ColonBeforeLetter(NoNumberText, 0)
  {
  }
  lemma NoNumberRead()
    ensures DayWord.ParseDays(NoNumberText, 0) == Err(DurationInvalidNumber)
  {
  }

  /** Neither a designator, a clock nor a number is DurationInvalidNumber. */
  lemma NoNumber()
    ensures Parse("x") == Err(DurationInvalidNumber)
  {
    NoNumberDialect();
    NoNumberRead();
    Unsigned("x");
    DaysFail("x", true, NoNumberText, DurationInvalidNumber);
  }

  const WrongWordText := "1x"
  lemma WrongWordDialect()
    ensures !ColonBeforeLetter(WrongWordText, 0)
  {
  }
  lemma WrongWordRead()
    ensures DayWord.ParseDays(WrongWordText, 0) == Err(DurationInvalidDays)
  {
  }

  /** A word other than "d", "day" or "days" is DurationInvalidDays. */
  lemma WrongWord()
    ensures Parse("1x") == Err(DurationInvalidDays)
  {
    WrongWordDialect();
    WrongWordRead();
    Unsigned("1x");
    DaysFail("1x", true, WrongWordText, DurationInvalidDays);
  }

  const ShortClockText := "1dx"
  lemma ShortClockDialect()
    ensures !ColonBeforeLetter(ShortClockText, 0)
  {
  }
  lemma ShortClockNumber()
    ensures ScanNumber(ShortClockText, 0) == Ok((1, 1))
  {
    DigitsEnd(ShortClockText, 1, 1);
  }
  lemma ShortClockClock()
    ensures Clock.ParseClock(ShortClockText, 2) == Err(TooShort)
  {
  }
  lemma ShortClockRead()
    ensures DayWord.ParseDays(ShortClockText, 0) == Err(TooShort)
  {
    ShortClockNumber();
    ShortClockClock();
    DaysThenBadClock(ShortClockText, 1, 1, 1, 2, 2, TooShort);
  }

  /** What follows the word is read as a clock: too short for one. */
  lemma ShortClock()
    ensures Parse("1dx") == Err(TooShort)
  {
    ShortClockDialect();
    ShortClockRead();
    Unsigned("1dx");
    DaysFail("1dx", true, ShortClockText, TooShort);
  }

  const PartialWordText := "1da"
  lemma PartialWordDialect()
    ensures !ColonBeforeLetter(PartialWordText, 0)
  {
  }
  lemma PartialWordRead()
    ensures DayWord.ParseDays(PartialWordText, 0) == Err(DurationInvalidDays)
  {
  }

  /** "da" must go on to "day". */
  lemma PartialWord()
    ensures Parse("1da") == Err(DurationInvalidDays)
  {
    PartialWordDialect();
    PartialWordRead();
    Unsigned("1da");
    DaysFail("1da", true, PartialWordText, DurationInvalidDays);
  }

  const NoWordText := "1"
  lemma NoWordDialect()
    ensures !ColonBeforeLetter(NoWordText, 0)
  {
  }
  lemma NoWordRead()
    ensures DayWord.ParseDays(NoWordText, 0) == Err(DurationInvalidDays)
  {
  }

  /** A number without a word is DurationInvalidDays. */
  lemma NoWord()
    ensures Parse("1") == Err(DurationInvalidDays)
  {
    NoWordDialect();
    NoWordRead();
    Unsigned("1");
    DaysFail("1", true, NoWordText, DurationInvalidDays);
  }

  const NoWordSpaceText := "1 "
  lemma NoWordSpaceDialect()
    ensures !ColonBeforeLetter(NoWordSpaceText, 0)
  {
  }
  lemma NoWordSpaceRead()
    ensures DayWord.ParseDays(NoWordSpaceText, 0) == Err(DurationInvalidDays)
  {
  }

  /** A number and a space without a word is DurationInvalidDays. */
  lemma NoWordSpace()
    ensures Parse("1 ") == Err(DurationInvalidDays)
  {
    NoWordSpaceDialect();
    NoWordSpaceRead();
    Unsigned("1 ");
    DaysFail("1 ", true, NoWordSpaceText, DurationInvalidDays);
  }

  const SpaceWrongWordText := "1 x"
  lemma SpaceWrongWordDialect()
    ensures !ColonBeforeLetter(SpaceWrongWordText, 0)
  {
  }
  lemma SpaceWrongWordRead()
    ensures DayWord.ParseDays(SpaceWrongWordText, 0) == Err(DurationInvalidDays)
  {
  }

  /** A space and a wrong word is DurationInvalidDays. */
  lemma SpaceWrongWord()
    ensures Parse("1 x") == Err(DurationInvalidDays)
  {
    SpaceWrongWordDialect();
    SpaceWrongWordRead();
    Unsigned("1 x");
    DaysFail("1 x", true, SpaceWrongWordText, DurationInvalidDays);
  }

  const MinusOneDayText := "1 day"
  lemma MinusOneDayDialect()
    ensures !ColonBeforeLetter(MinusOneDayText, 0)
  {
  }
  lemma MinusOneDayRead()
    ensures DayWord.ParseDays(MinusOneDayText, 0) == Ok(RawDuration(1, 0, 0))
  {
  }

  /** A negative day count. */
  lemma MinusOneDay()
    ensures Parse("-1 day") == Ok(Duration(false, 1, 0, 0))
  {
    MinusOneDayDialect();
    MinusOneDayRead();
    Minus("-1 day", MinusOneDayText);
    DaysRead("-1 day", false, MinusOneDayText, RawDuration(1, 0, 0));
    NewIdempotent(Duration(false, 1, 0, 0));
  }

  const PlusOneDayWordText := "1 day"
  lemma PlusOneDayWordDialect()
    ensures !ColonBeforeLetter(PlusOneDayWordText, 0)
  {
  }
  lemma PlusOneDayWordRead()
    ensures DayWord.ParseDays(PlusOneDayWordText, 0) == Ok(RawDuration(1, 0, 0))
  {
  }

  /** A positive sign. */
  lemma PlusOneDayWord()
    ensures Parse("+1 day") == Ok(Duration(true, 1, 0, 0))
  {
    PlusOneDayWordDialect();
    PlusOneDayWordRead();
    Plus("+1 day", PlusOneDayWordText);
    DaysRead("+1 day", true, PlusOneDayWordText, RawDuration(1, 0, 0));
    NewIdempotent(Duration(true, 1, 0, 0));
  }

  const Days123Text := "123days"
  lemma Days123Dialect()
    ensures !ColonBeforeLetter(Days123Text, 0)
  {
  }
  lemma Days123Read()
    ensures DayWord.ParseDays(Days123Text, 0) == Ok(RawDuration(123, 0, 0))
  {
  }

  /** A longer day count. */
  lemma Days123()
    ensures Parse("123days") == Ok(Duration(true, 123, 0, 0))
  {
    Days123Dialect();
    Days123Read();
    Unsigned("123days");
    DaysRead("123days", true, Days123Text, RawDuration(123, 0, 0));
    NewIdempotent(Duration(true, 123, 0, 0));
  }

  const DayAndClockText := "1 day 00:00:42"
  lemma DayAndClockDialect()
    ensures !ColonBeforeLetter(DayAndClockText, 0)
  {
  }
  lemma DayAndClockNumber()
    ensures ScanNumber(DayAndClockText, 0) == Ok((1, 1))
  {
    DigitsEnd(DayAndClockText, 1, 1);
  }
  lemma DayAndClockClockHours()
    ensures ScanNumber(DayAndClockText, 6) == Ok((0, 8))
  {
    Digit(DayAndClockText, 7, 0);
    DigitsEnd(DayAndClockText, 8, 0);
  }
  lemma DayAndClockClock()
    ensures Clock.ParseClock(DayAndClockText, 6) == Ok((42, 0))
  {
    DayAndClockClockHours();
    WholeSecondsField(DayAndClockText, 11, 42);
    ClockOf(DayAndClockText, 6, 0, 8, 0, 42, 0, 14);
  }
  lemma DayAndClockRead()
    ensures DayWord.ParseDays(DayAndClockText, 0) == Ok(RawDuration(1, 42, 0))
  {
    DayAndClockNumber();
    DayAndClockClock();
    DaysThenClock(DayAndClockText, 1, 1, 2, 5, 6, 42, 0);
  }

  /** A day count and a clock. */
  lemma DayAndClock()
    ensures Parse("1 day 00:00:42") == Ok(Duration(true, 1, 42, 0))
  {
    DayAndClockDialect();
    DayAndClockRead();
    Unsigned("1 day 00:00:42");
    DaysRead("1 day 00:00:42", true, DayAndClockText, RawDuration(1, 42, 0));
    NewIdempotent(Duration(true, 1, 42, 0));
  }

  const MinusDayAndClockText := "1 day 00:00:42"
  lemma MinusDayAndClockDialect()
    ensures !ColonBeforeLetter(MinusDayAndClockText, 0)
  {
  }
  lemma MinusDayAndClockNumber()
    ensures ScanNumber(MinusDayAndClockText, 0) == Ok((1, 1))
  {
    DigitsEnd(MinusDayAndClockText, 1, 1);
  }
  lemma MinusDayAndClockClockHours()
    ensures ScanNumber(MinusDayAndClockText, 6) == Ok((0, 8))
  {
    Digit(MinusDayAndClockText, 7, 0);
    DigitsEnd(MinusDayAndClockText, 8, 0);
  }
  lemma MinusDayAndClockClock()
    ensures Clock.ParseClock(MinusDayAndClockText, 6) == Ok((42, 0))
  {
    MinusDayAndClockClockHours();
    WholeSecondsField(MinusDayAndClockText, 11, 42);
    ClockOf(MinusDayAndClockText, 6, 0, 8, 0, 42, 0, 14);
  }
  lemma MinusDayAndClockRead()
    ensures DayWord.ParseDays(MinusDayAndClockText, 0) == Ok(RawDuration(1, 42, 0))
  {
    MinusDayAndClockNumber();
    MinusDayAndClockClock();
    DaysThenClock(MinusDayAndClockText, 1, 1, 2, 5, 6, 42, 0);
  }

  /** A negative day count and a clock. */
  lemma MinusDayAndClock()
    ensures Parse("-1 day 00:00:42") == Ok(Duration(false, 1, 42, 0))
  {
    MinusDayAndClockDialect();
    MinusDayAndClockRead();
    Minus("-1 day 00:00:42", MinusDayAndClockText);
    DaysRead("-1 day 00:00:42", false, MinusDayAndClockText, RawDuration(1, 42, 0));
    NewIdempotent(Duration(false, 1, 42, 0));
  }

  const DayClockTooShortText := "1 day 00:"
  lemma DayClockTooShortDialect()
    ensures !ColonBeforeLetter(DayClockTooShortText, 0)
  {
  }
  lemma DayClockTooShortNumber()
    ensures ScanNumber(DayClockTooShortText, 0) == Ok((1, 1))
  {
    DigitsEnd(DayClockTooShortText, 1, 1);
  }
  lemma DayClockTooShortClock()
    ensures Clock.ParseClock(DayClockTooShortText, 6) == Err(TooShort)
  {
  }
  lemma DayClockTooShortRead()
    ensures DayWord.ParseDays(DayClockTooShortText, 0) == Err(TooShort)
  {
    DayClockTooShortNumber();
    DayClockTooShortClock();
    DaysThenBadClock(DayClockTooShortText, 1, 1, 2, 5, 6, TooShort);
  }

  /** A clock shorter than "HH:MM" is TooShort. */
  lemma DayClockTooShort()
    ensures Parse("1 day 00:") == Err(TooShort)
  {
    DayClockTooShortDialect();
    DayClockTooShortRead();
    Unsigned("1 day 00:");
    DaysFail("1 day 00:", true, DayClockTooShortText, TooShort);
  }

  const DayClockBadMinuteText := "1 day 00:xx"
  lemma DayClockBadMinuteDialect()
    ensures !ColonBeforeLetter(DayClockBadMinuteText, 0)
  {
  }
  lemma DayClockBadMinuteNumber()
    ensures ScanNumber(DayClockBadMinuteText, 0) == Ok((1, 1))
  {
    DigitsEnd(DayClockBadMinuteText, 1, 1);
  }
  lemma DayClockBadMinuteClock()
    ensures Clock.ParseClock(DayClockBadMinuteText, 6) == Err(InvalidCharMinute)
  {
  }
  lemma DayClockBadMinuteRead()
    ensures DayWord.ParseDays(DayClockBadMinuteText, 0) == Err(InvalidCharMinute)
  {
    DayClockBadMinuteNumber();
    DayClockBadMinuteClock();
    DaysThenBadClock(DayClockBadMinuteText, 1, 1, 2, 5, 6, InvalidCharMinute);
  }

  /** A minute field that is not two digits is InvalidCharMinute. */
  lemma DayClockBadMinute()
    ensures Parse("1 day 00:xx") == Err(InvalidCharMinute)
  {
    DayClockBadMinuteDialect();
    DayClockBadMinuteRead();
    Unsigned("1 day 00:xx");
    DaysFail("1 day 00:xx", true, DayClockBadMinuteText, InvalidCharMinute);
  }

  const DayClockExtraText := "1 day 00:00:00.123 "
  lemma DayClockExtraDialect()
    ensures !ColonBeforeLetter(DayClockExtraText, 0)
  {
  }
  lemma DayClockExtraNumber()
    ensures ScanNumber(DayClockExtraText, 0) == Ok((1, 1))
  {
    DigitsEnd(DayClockExtraText, 1, 1);
  }
  lemma DayClockExtraClockHours()
    ensures ScanNumber(DayClockExtraText, 6) == Ok((0, 8))
  {
    Digit(DayClockExtraText, 7, 0);
    DigitsEnd(DayClockExtraText, 8, 0);
  }
  lemma DayClockExtraClockFraction()
    ensures FractionLoop(DayClockExtraText, 15, 0, 0) == (123000, 18)
  {
    FractionDigit(DayClockExtraText, 15, 0, 0);
    FractionDigit(DayClockExtraText, 16, 1, 1);
    FractionDigit(DayClockExtraText, 17, 2, 12);
    FractionStop(DayClockExtraText, 18, 3, 123);
  }
  lemma DayClockExtraClock()
    ensures Clock.ParseClock(DayClockExtraText, 6) == Err(ExtraCharacters)
  {
    DayClockExtraClockHours();
    DayClockExtraClockFraction();
    FractionalSecondsField(DayClockExtraText, 11, 0, 123000, 18);
    ClockOf(DayClockExtraText, 6, 0, 8, 0, 0, 123000, 18);
  }
  lemma DayClockExtraRead()
    ensures DayWord.ParseDays(DayClockExtraText, 0) == Err(ExtraCharacters)
  {
    DayClockExtraNumber();
    DayClockExtraClock();
    DaysThenBadClock(DayClockExtraText, 1, 1, 2, 5, 6, ExtraCharacters);
  }

  /** Anything after the clock is ExtraCharacters. */
  lemma DayClockExtra()
    ensures Parse("1 day 00:00:00.123 ") == Err(ExtraCharacters)
  {
    DayClockExtraDialect();
    DayClockExtraRead();
    Unsigned("1 day 00:00:00.123 ");
    DaysFail("1 day 00:00:00.123 ", true, DayClockExtraText, ExtraCharacters);
  }

  const HugeDayCountText := "" + U64Prefix + "709551616 day 12:00"
  lemma HugeDayCountSkip1()
    ensures ColonBeforeLetter(HugeDayCountText, 0) == ColonBeforeLetter(HugeDayCountText, 3)
  {
    NeitherColonNorLetter(HugeDayCountText, 0);
    NeitherColonNorLetter(HugeDayCountText, 1);
    NeitherColonNorLetter(HugeDayCountText, 2);
  }
  lemma HugeDayCountSkip2()
    ensures ColonBeforeLetter(HugeDayCountText, 3) == ColonBeforeLetter(HugeDayCountText, 6)
  {
    NeitherColonNorLetter(HugeDayCountText, 3);
    NeitherColonNorLetter(HugeDayCountText, 4);
    NeitherColonNorLetter(HugeDayCountText, 5);
  }
  lemma HugeDayCountSkip3()
    ensures ColonBeforeLetter(HugeDayCountText, 6) == ColonBeforeLetter(HugeDayCountText, 9)
  {
    NeitherColonNorLetter(HugeDayCountText, 6);
    NeitherColonNorLetter(HugeDayCountText, 7);
    NeitherColonNorLetter(HugeDayCountText, 8);
  }
  lemma HugeDayCountSkip4()
    ensures ColonBeforeLetter(HugeDayCountText, 9) == ColonBeforeLetter(HugeDayCountText, 12)
  {
    NeitherColonNorLetter(HugeDayCountText, 9);
    NeitherColonNorLetter(HugeDayCountText, 10);
    NeitherColonNorLetter(HugeDayCountText, 11);
  }
  lemma HugeDayCountSkip5()
    ensures ColonBeforeLetter(HugeDayCountText, 12) == ColonBeforeLetter(HugeDayCountText, 15)
  {
    NeitherColonNorLetter(HugeDayCountText, 12);
    NeitherColonNorLetter(HugeDayCountText, 13);
    NeitherColonNorLetter(HugeDayCountText, 14);
  }
  lemma HugeDayCountSkip6()
    ensures ColonBeforeLetter(HugeDayCountText, 15) == ColonBeforeLetter(HugeDayCountText, 18)
  {
    NeitherColonNorLetter(HugeDayCountText, 15);
    NeitherColonNorLetter(HugeDayCountText, 16);
    NeitherColonNorLetter(HugeDayCountText, 17);
  }
  lemma HugeDayCountSkip7()
    ensures ColonBeforeLetter(HugeDayCountText, 18) == ColonBeforeLetter(HugeDayCountText, 21)
  {
    NeitherColonNorLetter(HugeDayCountText, 18);
    NeitherColonNorLetter(HugeDayCountText, 19);
    NeitherColonNorLetter(HugeDayCountText, 20);
  }
  lemma HugeDayCountDialect()
    ensures !ColonBeforeLetter(HugeDayCountText, 0)
  {
    HugeDayCountSkip1();
    HugeDayCountSkip2();
    HugeDayCountSkip3();
    HugeDayCountSkip4();
    HugeDayCountSkip5();
    HugeDayCountSkip6();
    HugeDayCountSkip7();
    LetterFirst(HugeDayCountText, 21);
  }
  lemma HugeDayCountNumber()
    ensures ScanNumber(HugeDayCountText, 0) == Err(DurationValueTooLarge)
  {
    PrefixOverflows(HugeDayCountText, "", "709551616 day 12:00", 0);
  }
  lemma HugeDayCountRead()
    ensures DayWord.ParseDays(HugeDayCountText, 0) == Err(DurationValueTooLarge)
  {
    HugeDayCountNumber();
    DayCountFails(HugeDayCountText, DurationValueTooLarge);
  }

  /** A day count that does not fit 32 bits is DurationValueTooLarge. */
  lemma HugeDayCount()
    ensures Parse(HugeDayCountText) == Err(DurationValueTooLarge)
  {
    HugeDayCountDialect();
    HugeDayCountRead();
    Unsigned(HugeDayCountText);
    DaysFail(HugeDayCountText, true, HugeDayCountText, DurationValueTooLarge);
  }

  const LargeDayCountText := MaxDaysDigits + " day 00:00"
  lemma LargeDayCountSkip1()
    ensures ColonBeforeLetter(LargeDayCountText, 0) == ColonBeforeLetter(LargeDayCountText, 3)
  {
    NeitherColonNorLetter(LargeDayCountText, 0);
    NeitherColonNorLetter(LargeDayCountText, 1);
    NeitherColonNorLetter(LargeDayCountText, 2);
  }
  lemma LargeDayCountSkip2()
    ensures ColonBeforeLetter(LargeDayCountText, 3) == ColonBeforeLetter(LargeDayCountText, 6)
  {
    NeitherColonNorLetter(LargeDayCountText, 3);
    NeitherColonNorLetter(LargeDayCountText, 4);
    NeitherColonNorLetter(LargeDayCountText, 5);
  }
  lemma LargeDayCountSkip3()
    ensures ColonBeforeLetter(LargeDayCountText, 6) == ColonBeforeLetter(LargeDayCountText, 9)
  {
    NeitherColonNorLetter(LargeDayCountText, 6);
    NeitherColonNorLetter(LargeDayCountText, 7);
    NeitherColonNorLetter(LargeDayCountText, 8);
  }
  lemma LargeDayCountSkip4()
    ensures ColonBeforeLetter(LargeDayCountText, 9) == ColonBeforeLetter(LargeDayCountText, 10)
  {
    NeitherColonNorLetter(LargeDayCountText, 9);
  }
  lemma LargeDayCountDialect()
    ensures !ColonBeforeLetter(LargeDayCountText, 0)
  {
    LargeDayCountSkip1();
    LargeDayCountSkip2();
    LargeDayCountSkip3();
    LargeDayCountSkip4();
    LetterFirst(LargeDayCountText, 10);
  }
  lemma LargeDayCountNumber()
    ensures ScanNumber(LargeDayCountText, 0) == Ok((999999999, 9))
  {
    MaxDaysNumber(LargeDayCountText, " day 00:00");
  }
  lemma LargeDayCountClockHours()
    ensures ScanNumber(LargeDayCountText, 14) == Ok((0, 16))
  {
    Digit(LargeDayCountText, 15, 0);
    DigitsEnd(LargeDayCountText, 16, 0);
  }
  lemma LargeDayCountClock()
    ensures Clock.ParseClock(LargeDayCountText, 14) == Ok((0, 0))
  {
    LargeDayCountClockHours();
    NoSecondsField(LargeDayCountText, 19);
    ClockOf(LargeDayCountText, 14, 0, 16, 0, 0, 0, 19);
  }
  lemma LargeDayCountRead()
    ensures DayWord.ParseDays(LargeDayCountText, 0) == Ok(RawDuration(999999999, 0, 0))
  {
    LargeDayCountNumber();
    LargeDayCountClock();
    DaysThenClock(LargeDayCountText, 999999999, 9, 10, 13, 14, 0, 0);
  }

  /** The largest day count a duration may hold. */
  lemma LargeDayCount()
    ensures Parse(LargeDayCountText) == Ok(Duration(true, 999999999, 0, 0))
  {
    LargeDayCountDialect();
    LargeDayCountRead();
    Unsigned(LargeDayCountText);
    DaysRead(LargeDayCountText, true, LargeDayCountText, RawDuration(999999999, 0, 0));
    NewIdempotent(Duration(true, 999999999, 0, 0));
  }

  const U64DayCountText := "" + U64Prefix + "7095516151 day 00:00"
  lemma U64DayCountSkip1()
    ensures ColonBeforeLetter(U64DayCountText, 0) == ColonBeforeLetter(U64DayCountText, 3)
  {
    NeitherColonNorLetter(U64DayCountText, 0);
    NeitherColonNorLetter(U64DayCountText, 1);
    NeitherColonNorLetter(U64DayCountText, 2);
  }
  lemma U64DayCountSkip2()
    ensures ColonBeforeLetter(U64DayCountText, 3) == ColonBeforeLetter(U64DayCountText, 6)
  {
    NeitherColonNorLetter(U64DayCountText, 3);
    NeitherColonNorLetter(U64DayCountText, 4);
    NeitherColonNorLetter(U64DayCountText, 5);
  }
  lemma U64DayCountSkip3()
    ensures ColonBeforeLetter(U64DayCountText, 6) == ColonBeforeLetter(U64DayCountText, 9)
  {
    NeitherColonNorLetter(U64DayCountText, 6);
    NeitherColonNorLetter(U64DayCountText, 7);
    NeitherColonNorLetter(U64DayCountText, 8);
  }
  lemma U64DayCountSkip4()
    ensures ColonBeforeLetter(U64DayCountText, 9) == ColonBeforeLetter(U64DayCountText, 12)
  {
    NeitherColonNorLetter(U64DayCountText, 9);
    NeitherColonNorLetter(U64DayCountText, 10);
    NeitherColonNorLetter(U64DayCountText, 11);
  }
  lemma U64DayCountSkip5()
    ensures ColonBeforeLetter(U64DayCountText, 12) == ColonBeforeLetter(U64DayCountText, 15)
  {
    NeitherColonNorLetter(U64DayCountText, 12);
    NeitherColonNorLetter(U64DayCountText, 13);
    NeitherColonNorLetter(U64DayCountText, 14);
  }
  lemma U64DayCountSkip6()
    ensures ColonBeforeLetter(U64DayCountText, 15) == ColonBeforeLetter(U64DayCountText, 18)
  {
    NeitherColonNorLetter(U64DayCountText, 15);
    NeitherColonNorLetter(U64DayCountText, 16);
    NeitherColonNorLetter(U64DayCountText, 17);
  }
  lemma U64DayCountSkip7()
    ensures ColonBeforeLetter(U64DayCountText, 18) == ColonBeforeLetter(U64DayCountText, 21)
  {
    NeitherColonNorLetter(U64DayCountText, 18);
    NeitherColonNorLetter(U64DayCountText, 19);
    NeitherColonNorLetter(U64DayCountText, 20);
  }
  lemma U64DayCountSkip8()
    ensures ColonBeforeLetter(U64DayCountText, 21) == ColonBeforeLetter(U64DayCountText, 22)
  {
    NeitherColonNorLetter(U64DayCountText, 21);
  }
  lemma U64DayCountDialect()
    ensures !ColonBeforeLetter(U64DayCountText, 0)
  {
    U64DayCountSkip1();
    U64DayCountSkip2();
    U64DayCountSkip3();
    U64DayCountSkip4();
    U64DayCountSkip5();
    U64DayCountSkip6();
    U64DayCountSkip7();
    U64DayCountSkip8();
    LetterFirst(U64DayCountText, 22);
  }
  lemma U64DayCountNumber()
    ensures ScanNumber(U64DayCountText, 0) == Err(DurationValueTooLarge)
  {
    PrefixOverflows(U64DayCountText, "", "7095516151 day 00:00", 0);
  }
  lemma U64DayCountRead()
    ensures DayWord.ParseDays(U64DayCountText, 0) == Err(DurationValueTooLarge)
  {
    U64DayCountNumber();
    DayCountFails(U64DayCountText, DurationValueTooLarge);
  }

  /** A day count past 2^64 is DurationValueTooLarge. */
  lemma U64DayCount()
    ensures Parse(U64DayCountText) == Err(DurationValueTooLarge)
  {
    U64DayCountDialect();
    U64DayCountRead();
    Unsigned(U64DayCountText);
    DaysFail(U64DayCountText, true, U64DayCountText, DurationValueTooLarge);
  }

  /** A bare clock shorter than `HH:MM` is TooShort. */
  lemma ShortBareClock()
    ensures Parse("0:00") == Err(TooShort)
  {
    WordForms.ShortClockForm("", "0", 0, WordForms.NoSeconds);
    assert "" + WordForms.ClockText("0", 0, WordForms.NoSeconds) == "0:00";
  }

}
