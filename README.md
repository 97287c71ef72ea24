# speedate `Duration` in Dafny

A model of the `Duration` value type of the speedate crate. A duration is a
sign and three unsigned 32-bit counters: days, seconds (below 86 400) and
microseconds (below 1 000 000). The model covers:

- the normalising constructor `Duration::new`;
- the signed-magnitude order behind `<`, `<=`, `>` and `>=`;
- the accessors `signed_total_seconds` and `signed_microseconds`;
- the ISO 8601 `to_string` rendering (the Y, D and S designators of
  section 5.5.2 of ISO 8601-1:2019);
- `parse_str` with its three dialects and its error kinds:
  - the designator form `P…T…`;
  - the clock form `HH:MM[:SS[.f]]` (at least five characters, so the hour
    takes one digit only when seconds follow);
  - the day-word form `N day[s]|d [clock]`.

The model is the behaviour that `tests/test_duration.rs` fixes. Every test
case there is a lemma about the model. Beyond the single cases:

- the normaliser, the order, the accessors and formatting then parsing are
  proved for all inputs;
- successes are proved for every well-formed input of each dialect: every
  formatted designator body, every clock and every day-word text;
- the designator form's error rules are proved for every input, one
  component at a time;
- the other parse errors are proved per tested input.

Modules, one per file:

| file | module | what it holds |
|---|---|---|
| errors.dfy | `Errors` | `ParseError`, `Result`, `Option` |
| numeric.dfy | `Numeric` | 32-bit checked arithmetic, digit runs, the number scanner and fraction digits |
| duration.dfy | `Durations` | `Duration`, `New` (the normaliser), the signed accessors |
| order.dfy | `Order` | `Compare`, `Lt`, `Le`, `Gt`, `Ge` |
| designator.dfy | `Designator` | the designator component loop |
| clock.dfy | `Clock` | the clock dialect |
| dayword.dfy | `DayWord` | the day-word dialect |
| parser.dfy | `Parser` | sign, dialect dispatch, `Parse` |
| formatter.dfy | `Formatter` | `Format` (`to_string`) |
| reading.dfy, roundtrip.dfy | `Reading`, `RoundTrip` | formatting then parsing gives the duration back |
| wordforms.dfy | `WordForms` | what every well-formed clock and day-word text parses to |
| examples.dfy and the four `*_examples.dfy` | `Examples`, `DesignatorExamples`, `WordExamples`, `FormatExamples`, `DisplayExamples` | the test cases |

Modelling choices:

- **Counters.** All counters and accumulators are 32-bit. Every addition and
  multiplication is checked, and an overflow is `DurationValueTooLarge`.
  The tests need this width: line 128 overflows the seconds counter only at
  32 bits, and line 196 carries a number above 2^32 but below 2^64.
- **Fractions.** A fraction is exact decimal digits, cut to its first six
  digits, that is to millionths of the unit. Those millionths are then
  scaled by the unit exactly, with nothing rounded afterwards. For units
  longer than a second, up to a millionth of the unit is lost by the cut
  (31.536 seconds for a year).
- **Dialect choice.** After the sign:
  - a 'P' selects the designator form;
  - otherwise a ':' that comes before any ASCII letter selects the clock form;
  - anything else is read as the day-word form.
- **Zero.** The zero duration is written `P0D`. `-P0D` keeps its sign, and it
  orders directly below `P0D`.

## Model

| member | source | states |
|---|---|---|
| Numeric.AccumulateSpec | tests/test_duration.rs:194-196 | the digit loop reads the whole digit run and gives its decimal value when that fits 32 bits, otherwise DurationValueTooLarge |
| Numeric.ScanNumberSpec | tests/test_duration.rs:194-196 | a number is DurationInvalidNumber without a digit, DurationValueTooLarge when its run is worth 2^32 or more, and otherwise the run's value and end |
| Numeric.Millionths | tests/test_duration.rs:168 | what a run of fraction digits is worth in millionths is below one million |
| Numeric.Accumulate | tests/test_duration.rs:194-196 | the digit loop ends inside the input; its value is Numeric.AccumulateSpec |
| Numeric.ScanNumber | tests/test_duration.rs:194-196 | a scanned number ends past at least one digit, inside the input; its value and errors are Numeric.ScanNumberSpec |
| Numeric.FractionLoop | tests/test_duration.rs:155 | the fraction loop's millionths are below one million and it ends inside the input; its value is Numeric.FractionLoopSpec |
| Numeric.FractionLoopSpec | tests/test_duration.rs:155 | the fraction loop reads the whole digit run and gives the millionths of its first six digits |
| Numeric.ScanNumberFraction | tests/test_duration.rs:155-161 | a designator number ends past its first digit, inside the input, and its fraction is below one million; its value and errors are Numeric.ScanNumberFractionSpec |
| Numeric.ScanNumberFractionSpec | tests/test_duration.rs:155-161 | a designator number: the integer run's errors first, then a '.' that must be followed by a digit (else DurationInvalidNumber) whose run's millionths are the fraction |
| Numeric.NatToString | tests/test_duration.rs:146 | decimal rendering: at least one digit, no leading zero except for zero itself, and it reads back as the number |
| Durations.New | tests/test_duration.rs:70-96 | a success is normalised, keeps the sign and keeps the magnitude; the only failures are DurationValueTooLarge and DurationDaysTooLarge, and the latter only when the magnitude's whole days pass 999 999 999 |
| Durations.NewOutcome | tests/test_duration.rs:126-138 | DurationValueTooLarge exactly when a 32-bit carry overflows; DurationDaysTooLarge exactly when the carries fit but the days pass the cap; otherwise the magnitude's day, second and microsecond digits |
| Durations.CarryDecomposition | tests/test_duration.rs:71-81 | carrying microseconds into seconds and seconds into days keeps the magnitude and yields its mixed-radix digits |
| Durations.NewIdempotent | tests/test_duration.rs:213 | a normalised value comes back from `new` unchanged |
| Durations.NewSignIndependent | tests/test_duration.rs:216-226 | both signs succeed or fail together, with the same error, and a success differs only in the sign |
| Durations.SignedTotalSeconds | tests/test_duration.rs:35 | the result fits a signed 64-bit value, and its sign is the duration's sign |
| Durations.SignedMicroseconds | tests/test_duration.rs:36 | the result fits a signed 32-bit value for a normalised duration, and its sign is the duration's sign |
| Durations.SignedAccessorsRecombine | tests/test_duration.rs:52-53 | total seconds times a million plus the signed microseconds is the signed length in microseconds, and the microsecond part stays within one second |
| Order.Compare | tests/test_duration.rs:98-124 | `partial_cmp` reports Equal exactly for equal values; its order is Order.CompareIsSignedOrder |
| Order.Lt | tests/test_duration.rs:102 | `a < b` exactly when `b` compares Greater than `a` |
| Order.Le | tests/test_duration.rs:103-104 | `a <= b` exactly when a compares Less than b or they are equal |
| Order.Gt | tests/test_duration.rs:105 | `a > b` exactly when `b` compares Less than `a` |
| Order.Ge | tests/test_duration.rs:106-107 | `a >= b` exactly when a compares Greater than b or they are equal |
| Order.CompareEqualAndAntisymmetric | tests/test_duration.rs:104-107 | Compare says Equal exactly for equal values, and swapping the operands reverses the answer |
| Order.LtTransitive | tests/test_duration.rs:98-124 | `<` is transitive |
| Order.Trichotomy | tests/test_duration.rs:102-107 | exactly one of `<`, `==` and `>` holds, and `<=`, `>=` and `>` agree with it |
| Order.CompareMagnitudeMeaning | tests/test_duration.rs:100-102 | on normalised values, comparing the fields one after another is comparing magnitudes |
| Order.CompareIsSignedOrder | tests/test_duration.rs:115-123 | `a < b` exactly when a's signed length is below b's, or both are zero and only a is negative |
| Designator.DateUnitDays | tests/test_duration.rs:145-152 | the date units are worth 365, 30, 7 or 1 days |
| Designator.TimeUnitSeconds | tests/test_duration.rs:156-158 | the time units are worth 3600, 60 or 1 seconds |
| Designator.AddDate | tests/test_duration.rs:147-152 | adding a date component fails only with DurationValueTooLarge and changes only the counters |
| Designator.AddDateTotal | tests/test_duration.rs:147-152 | a date component adds exactly value × unit days plus fraction × unit in millionths of a day |
| Designator.AddTime | tests/test_duration.rs:156 | adding a time component fails only with DurationValueTooLarge and changes only the counters |
| Designator.AddTimeTotal | tests/test_duration.rs:155-156 | a time component adds exactly value × unit seconds plus fraction × unit microseconds |
| Designator.UnitAt | tests/test_duration.rs:162-164 | a unit is found exactly when the next character is one of Y, M, W, D before the 'T' or H, M, S after it; a date unit is worth 365, 30, 7 or 1 days and a time unit 3600, 60 or 1 seconds |
| Designator.NextComponent | tests/test_duration.rs:159-164 | a number that cannot be scanned gives the scan's error; a component after a fractional one is DurationInvalidFraction; a missing or unknown unit letter is DurationInvalidDateUnit before the 'T' and DurationInvalidTimeUnit after it; any other failure is DurationValueTooLarge; a success ends just past the unit letter, keeps the segment, marks a component and records whether it had a fraction |
| Designator.NextComponentAdds | tests/test_duration.rs:145-158 | a component that is read adds exactly value × unit plus fraction × unit to the counters' total, in days before the 'T' and in seconds after it |
| Designator.ComponentRules | tests/test_duration.rs:144-164 | at the end of the input with no component the loop gives TooShort; a 'T' inside the time segment gives DurationTRepeated; a component that fails ends the loop with its error |
| Designator.ComponentFailures | tests/test_duration.rs:161-164 | for every input, a component after a fractional one ends the loop with DurationInvalidFraction, and a number with no unit letter of its segment with DurationInvalidDateUnit or DurationInvalidTimeUnit |
| Clock.TwoDigitValue | tests/test_duration.rs:165-167 | a two-digit field is below 100 |
| Clock.SecondsTail | tests/test_duration.rs:165-168 | the seconds tail gives seconds below 60 and microseconds below one million, and nothing at all when no ':' follows |
| Clock.ParseClock | tests/test_duration.rs:165-169 | a clock's microseconds are below one million |
| DayWord.UnitEnd | tests/test_duration.rs:170-184 | a day word ends after its start and inside the input; every failure is DurationInvalidDays |
| DayWord.SeparatorEnd | tests/test_duration.rs:172-173 | the separator is skipped forward, inside the input |
| DayWord.ParseDays | tests/test_duration.rs:170-189 | a day-word reading's microseconds are below one million |
| Parser.ColonBeforeLetter | tests/test_duration.rs:165-169 | choosing the clock form implies the body holds a ':' |
| Parser.ColonBeforeLetterSpec | tests/test_duration.rs:165-189 | the clock form is chosen exactly when some ':' comes before every ASCII letter |
| Parser.SplitSign | tests/test_duration.rs:153-154 | the text after the sign is a suffix of the input |
| Parser.ParseBody | tests/test_duration.rs:142-196 | a body read as a clock has no days and microseconds below one million; the dialect choice is Parser.ColonBeforeLetterSpec |
| Parser.Parse | tests/test_duration.rs:142-143 | a success is normalised and is negative exactly after a leading '-'; empty input is TooShort |
| Formatter.MicroFraction | tests/test_duration.rs:152 | the fraction is one to six digits, has no trailing zero, and reads back as the microseconds |
| Formatter.YearPart | tests/test_duration.rs:147 | the year piece carries no sign |
| Formatter.DayPart | tests/test_duration.rs:147 | the day piece carries no sign |
| Formatter.TimePart | tests/test_duration.rs:151 | the time piece carries no sign |
| Formatter.Body | tests/test_duration.rs:145-158 | the text after the sign starts with 'P', has at least three characters and holds no sign |
| Formatter.Format | tests/test_duration.rs:153-154 | a leading '-' exactly for negative durations, never a '+', then 'P' |
| RoundTrip.BodyRoundTrip | tests/test_duration.rs:19 | the designator loop reads a formatted body back as the duration's counters |
| RoundTrip.ParseDesignator | tests/test_duration.rs:145-164 | a body starting with 'P' is parsed by the designator loop and then normalised |
| RoundTrip.FormatThenParse | tests/test_duration.rs:41-51 | every normalised duration survives `to_string` and then `parse_str` unchanged |
| WordForms.ClockWritten | tests/test_duration.rs:165-169 | any well-formed clock text, with any character that cannot continue it, reads as h·3600 + m·60 + s and its fraction's millionths. Anything after it is ExtraCharacters, and a total of 2^32 seconds or more is DurationValueTooLarge |
| WordForms.ClockDispatch | tests/test_duration.rs:165-168 | a clock text chooses the clock form |
| WordForms.DaysDispatch | tests/test_duration.rs:170-187 | a day-word text chooses the day-word form |
| WordForms.NewClockTotal | tests/test_duration.rs:165-167 | a clock's seconds are split into days and seconds by `new` |
| WordForms.NewDayCount | tests/test_duration.rs:201 | a day count alone is accepted exactly up to 999 999 999 days, otherwise DurationDaysTooLarge |
| WordForms.DaysWritten | tests/test_duration.rs:170-177 | any day count with any of the day words, case-insensitive, an optional space and any separator reads as that many days |
| WordForms.DaysAndClockWritten | tests/test_duration.rs:188-193 | a day-word text followed by a clock reads as the days plus whatever the clock reads as |
| WordForms.ParseClockForm | tests/test_duration.rs:165-168 | `parse_str` of any signed well-formed clock is the clock's seconds split into days and seconds, or DurationValueTooLarge past 32 bits |
| WordForms.ParseDaysForm | tests/test_duration.rs:170-187 | `parse_str` of any signed day-word text is that many days up to 999 999 999, otherwise DurationDaysTooLarge |
| WordForms.ShortClockForm | tests/test_duration.rs:165-169 | a signed clock shorter than five characters is a one-digit hour and a minute, and `parse_str` gives TooShort |
| WordForms.ParseDaysClockForm | tests/test_duration.rs:188-189 | `parse_str` of any signed day-word text and clock is `new` of the days and the clock's seconds and microseconds |
| Examples.NormaliseCarries | tests/test_duration.rs:70-96 | `new(false,1,86500,1000123)` is (false,2,101,123) and `new(true,0,0,1000000)` is (true,0,1,0) |
| Examples.NormaliseErrors | tests/test_duration.rs:126-138 | the seconds carry overflow is DurationValueTooLarge; u32::MAX days is DurationDaysTooLarge |
| Examples.NormaliseLimit | tests/test_duration.rs:211-227 | the largest duration is accepted for both signs, and one microsecond more is DurationDaysTooLarge |
| Examples.CompareMicrosecond | tests/test_duration.rs:100-107 | one second is below one second and a microsecond, in every operator |
| Examples.CompareSigned | tests/test_duration.rs:109-123 | three days is above minus four days, and minus three days is above minus four days |
| Examples.CompareParsed | tests/test_duration.rs:116-118 | "+P1D" is above "-P2D" |
| Examples.ParseEmpty | tests/test_duration.rs:142-143 | "" and "+" are TooShort |
| Examples.SignedAccessors | tests/test_duration.rs:35-53 | the signed accessors of "P1MT1.5S" and "-P1DT42.123456S" |
| DesignatorExamples.Simple | tests/test_duration.rs:9-18 | "P1Y" is 365 days |
| DesignatorExamples.Years | tests/test_duration.rs:146 | "P123Y" is 44 895 days |
| DesignatorExamples.FractionalYears | tests/test_duration.rs:147 | "P123.8Y" is 45 187 days |
| DesignatorExamples.Month | tests/test_duration.rs:148 | "P1M" is 30 days |
| DesignatorExamples.FractionalMonth | tests/test_duration.rs:149 | "P1.5M" is 45 days |
| DesignatorExamples.Week | tests/test_duration.rs:150 | "P1W" is 7 days |
| DesignatorExamples.TenthOfWeek | tests/test_duration.rs:151 | "P1.1W" is 7 days and 60 480 seconds |
| DesignatorExamples.FractionalWeek | tests/test_duration.rs:57-67 | "P1.123W" is 7 days, 74 390 seconds and 400 000 microseconds |
| DesignatorExamples.NegativeYear | tests/test_duration.rs:153 | "-P1Y" is minus 365 days |
| DesignatorExamples.PositiveYear | tests/test_duration.rs:154 | "+P1Y" is 365 days |
| DesignatorExamples.FractionalSeconds | tests/test_duration.rs:155 | "PT0.555555S" is 555 555 microseconds |
| DesignatorExamples.MixedUnits | tests/test_duration.rs:156 | "P1Y1DT2H0.5S" is 366 days, 7200 seconds and 500 000 microseconds |
| DesignatorExamples.DayAndSecond | tests/test_duration.rs:157 | "P1DT1S" is one day and one second |
| DesignatorExamples.AllUnits | tests/test_duration.rs:158 | "P1Y2M3DT4H5M6S" is 428 days and 14 706 seconds |
| DesignatorExamples.ExceedsDay | tests/test_duration.rs:190 | "PT86500S" is normalised to one day and 100 seconds |
| DesignatorExamples.MonthAndSeconds | tests/test_duration.rs:24-33 | "P1MT1.5S" is 30 days, one second and 500 000 microseconds |
| DesignatorExamples.NegativeDayAndSeconds | tests/test_duration.rs:41-50 | "-P1DT42.123456S" is minus one day, 42 seconds and 123 456 microseconds |
| DesignatorExamples.PlusOneDay | tests/test_duration.rs:116 | "+P1D" is one day |
| DesignatorExamples.MinusTwoDays | tests/test_duration.rs:117 | "-P2D" is minus two days |
| DesignatorExamples.DesignatorOnly | tests/test_duration.rs:144 | "P" is TooShort |
| DesignatorExamples.MissingNumber | tests/test_duration.rs:159 | "PD" is DurationInvalidNumber |
| DesignatorExamples.RepeatedT | tests/test_duration.rs:160 | a second 'T' is DurationTRepeated |
| DesignatorExamples.AfterFraction | tests/test_duration.rs:161 | a component after a fractional one is DurationInvalidFraction |
| DesignatorExamples.BadTimeUnit | tests/test_duration.rs:162 | "P1DT1X" is DurationInvalidTimeUnit |
| DesignatorExamples.BadDateUnit | tests/test_duration.rs:163 | "P1X" is DurationInvalidDateUnit |
| DesignatorExamples.MissingDateUnit | tests/test_duration.rs:164 | "P1" is DurationInvalidDateUnit |
| DesignatorExamples.HugeDays | tests/test_duration.rs:195 | a 20-digit day count is DurationValueTooLarge |
| DesignatorExamples.HugeNumber | tests/test_duration.rs:196 | a number above 2^32 and below 2^64 is DurationValueTooLarge |
| WordExamples.Seconds42 | tests/test_duration.rs:165 | "00:00:42" is 42 seconds |
| WordExamples.OneMinute | tests/test_duration.rs:166 | "00:01" is 60 seconds |
| WordExamples.HourMinuteSecond | tests/test_duration.rs:167 | "01:02:03" is 3723 seconds |
| WordExamples.ClockFraction | tests/test_duration.rs:168 | "00:01:03.123" is 63 seconds and 123 000 microseconds |
| WordExamples.ClockExtra | tests/test_duration.rs:169 | "00:01:03.123x" is ExtraCharacters |
| WordExamples.OneDay | tests/test_duration.rs:170 | "1 day" is one day |
| WordExamples.OneDayJoined | tests/test_duration.rs:171 | "1day" is one day |
| WordExamples.OneDayComma | tests/test_duration.rs:172 | "1 day," is one day |
| WordExamples.OneDayCommaSpace | tests/test_duration.rs:173 | "1 day, " is one day |
| WordExamples.OneDays | tests/test_duration.rs:174 | "1days" is one day |
| WordExamples.OneDaysUpper | tests/test_duration.rs:175 | "1DAYS" is one day |
| WordExamples.OneD | tests/test_duration.rs:176 | "1d" is one day |
| WordExamples.OneDSpace | tests/test_duration.rs:177 | "1d " is one day |
| WordExamples.NoNumber | tests/test_duration.rs:178 | "x" is DurationInvalidNumber |
| WordExamples.WrongWord | tests/test_duration.rs:179 | "1x" is DurationInvalidDays |
| WordExamples.ShortClock | tests/test_duration.rs:180 | "1dx" is TooShort |
| WordExamples.PartialWord | tests/test_duration.rs:181 | "1da" is DurationInvalidDays |
| WordExamples.NoWord | tests/test_duration.rs:182 | "1" is DurationInvalidDays |
| WordExamples.NoWordSpace | tests/test_duration.rs:183 | "1 " is DurationInvalidDays |
| WordExamples.SpaceWrongWord | tests/test_duration.rs:184 | "1 x" is DurationInvalidDays |
| WordExamples.MinusOneDay | tests/test_duration.rs:185 | "-1 day" is minus one day |
| WordExamples.PlusOneDayWord | tests/test_duration.rs:186 | "+1 day" is one day |
| WordExamples.Days123 | tests/test_duration.rs:187 | "123days" is 123 days |
| WordExamples.DayAndClock | tests/test_duration.rs:188 | "1 day 00:00:42" is one day and 42 seconds |
| WordExamples.MinusDayAndClock | tests/test_duration.rs:189 | "-1 day 00:00:42" is minus one day and 42 seconds |
| WordExamples.DayClockTooShort | tests/test_duration.rs:191 | "1 day 00:" is TooShort |
| WordExamples.DayClockBadMinute | tests/test_duration.rs:192 | "1 day 00:xx" is InvalidCharMinute |
| WordExamples.DayClockExtra | tests/test_duration.rs:193 | "1 day 00:00:00.123 " is ExtraCharacters |
| WordExamples.ShortBareClock | tests/test_duration.rs:165-166 | "0:00" is TooShort |
| WordExamples.HugeDayCount | tests/test_duration.rs:194 | a day count of 2^64 is DurationValueTooLarge |
| WordExamples.LargeDayCount | tests/test_duration.rs:201 | "999999999 day 00:00" is 999 999 999 days |
| WordExamples.U64DayCount | tests/test_duration.rs:204-208 | u64::MAX followed by "1 day 00:00" is DurationValueTooLarge |
| DisplayExamples.SimpleRendered | tests/test_duration.rs:145 | "P1Y" renders as "P1Y" |
| DisplayExamples.YearsRendered | tests/test_duration.rs:146 | "P123Y" renders as "P123Y" |
| DisplayExamples.FractionalYearsRendered | tests/test_duration.rs:147 | "P123.8Y" renders as "P123Y292D" |
| DisplayExamples.MonthRendered | tests/test_duration.rs:148 | "P1M" renders as "P30D" |
| DisplayExamples.FractionalMonthRendered | tests/test_duration.rs:149 | "P1.5M" renders as "P45D" |
| DisplayExamples.WeekRendered | tests/test_duration.rs:150 | "P1W" renders as "P7D" |
| DisplayExamples.TenthOfWeekRendered | tests/test_duration.rs:151 | "P1.1W" renders as "P7DT60480S" |
| DisplayExamples.FractionalWeekRendered | tests/test_duration.rs:152 | "P1.123W" renders as "P7DT74390.4S" |
| DisplayExamples.NegativeYearRendered | tests/test_duration.rs:153 | "-P1Y" renders as "-P1Y" |
| DisplayExamples.PositiveYearRendered | tests/test_duration.rs:154 | "+P1Y" renders as "P1Y" |
| DisplayExamples.FractionalSecondsRendered | tests/test_duration.rs:155 | "PT0.555555S" renders as "PT0.555555S" |
| DisplayExamples.MixedUnitsRendered | tests/test_duration.rs:156 | "P1Y1DT2H0.5S" renders as "P1Y1DT7200.5S" |
| DisplayExamples.DayAndSecondRendered | tests/test_duration.rs:157 | "P1DT1S" renders as "P1DT1S" |
| DisplayExamples.AllUnitsRendered | tests/test_duration.rs:158 | "P1Y2M3DT4H5M6S" renders as "P1Y63DT14706S" |
| DisplayExamples.ExceedsDayRendered | tests/test_duration.rs:190 | "PT86500S" renders as "P1DT100S" |
| DisplayExamples.MonthAndSecondsRendered | tests/test_duration.rs:24-34 | "P1MT1.5S" renders as "P30DT1.5S" |
| DisplayExamples.NegativeDayAndSecondsRendered | tests/test_duration.rs:41-51 | "-P1DT42.123456S" renders as itself |
| DisplayExamples.Seconds42Rendered | tests/test_duration.rs:165 | "00:00:42" renders as "PT42S" |
| DisplayExamples.OneMinuteRendered | tests/test_duration.rs:166 | "00:01" renders as "PT60S" |
| DisplayExamples.HourMinuteSecondRendered | tests/test_duration.rs:167 | "01:02:03" renders as "PT3723S" |
| DisplayExamples.ClockFractionRendered | tests/test_duration.rs:168 | "00:01:03.123" renders as "PT63.123S" |
| DisplayExamples.OneDayRendered | tests/test_duration.rs:170 | "1 day" renders as "P1D" |
| DisplayExamples.OneDayJoinedRendered | tests/test_duration.rs:171 | "1day" renders as "P1D" |
| DisplayExamples.OneDayCommaRendered | tests/test_duration.rs:172 | "1 day," renders as "P1D" |
| DisplayExamples.OneDayCommaSpaceRendered | tests/test_duration.rs:173 | "1 day, " renders as "P1D" |
| DisplayExamples.OneDaysRendered | tests/test_duration.rs:174 | "1days" renders as "P1D" |
| DisplayExamples.OneDaysUpperRendered | tests/test_duration.rs:175 | "1DAYS" renders as "P1D" |
| DisplayExamples.OneDRendered | tests/test_duration.rs:176 | "1d" renders as "P1D" |
| DisplayExamples.OneDSpaceRendered | tests/test_duration.rs:177 | "1d " renders as "P1D" |
| DisplayExamples.MinusOneDayRendered | tests/test_duration.rs:185 | "-1 day" renders as "-P1D" |
| DisplayExamples.PlusOneDayWordRendered | tests/test_duration.rs:186 | "+1 day" renders as "P1D" |
| DisplayExamples.Days123Rendered | tests/test_duration.rs:187 | "123days" renders as "P123D" |
| DisplayExamples.DayAndClockRendered | tests/test_duration.rs:188 | "1 day 00:00:42" renders as "P1DT42S" |
| DisplayExamples.MinusDayAndClockRendered | tests/test_duration.rs:189 | "-1 day 00:00:42" renders as "-P1DT42S" |
| DisplayExamples.LargeDayCountRendered | tests/test_duration.rs:201-202 | "999999999 day 00:00" renders as "P2739726Y9D" |
| DisplayExamples.LimitRendered | tests/test_duration.rs:213-214 | the largest positive duration renders as "P2739726Y9DT86399.999999S" |
| DisplayExamples.NegativeLimitRendered | tests/test_duration.rs:220-221 | the largest negative duration renders as "-P2739726Y9DT86399.999999S" |

## Left out

- The test scaffolding is not modelled: the `param_tests!` macro, the `utils` module, `unwrap`, `panic!`, `format!` and `Debug` output. Each test case is a lemma instead.
- The model states the behaviour `tests/test_duration.rs` fixes. Where the tests leave a case open, the model makes a choice, listed below.
- Floating-point fraction arithmetic is not modelled. A fraction is its first six decimal digits as millionths of the unit, times the unit length, exactly. This agrees with every fractional result the tests fix.
- Fraction digits after the sixth are read as digits and then dropped. No test asserts that policy.
- The rendering of the zero duration is a chosen policy (`P0D`). So is the order of `-P0D` against `P0D`: the negative zero is placed directly below. No test fixes either.
- speedate's date, time and datetime parsers are not modelled; this file does not exercise them.
- Designator.Components: has no contract of its own. Its rules at each position are Designator.ComponentRules and Designator.ComponentFailures. Its meaning for formatted bodies is RoundTrip.BodyRoundTrip. For bodies that are not formatted output, such as "P1M" or "PT2H", the meaning is given only by the examples.
- The designator form never yields ExtraCharacters. Wherever a component is expected, a character that cannot begin a number is DurationInvalidNumber, in the date segment as in the time segment, even when it is not a unit letter: "PX" is DurationInvalidNumber, not DurationInvalidDateUnit (DesignatorExamples.NotAUnit). A stray character after a complete component, as in "P1DX", is likewise read as the start of the next component. Only "PD" fixes this among the tests; for a character that is not a unit letter it is a chosen policy.
- The clock form has three error kinds that no test asserts: `InvalidCharSecond` for a seconds field whose two characters are not both digits (fewer than two characters after the ':' is TooShort, as in "00:00:4"), `OutOfRangeMinute` for a minute above 59 and `OutOfRangeSecond` for a second above 59. These are a chosen policy; no test fixes them.
- Clock.ParseClock: its own contract states only the microsecond bound. What a well-formed clock reads as is WordForms.ClockWritten; its error paths are covered only by the examples.
- DayWord.ParseDays: its own contract states only the microsecond bound. What a well-formed day-word text reads as is WordForms.DaysWritten and WordForms.DaysAndClockWritten; its error paths are covered only by the examples.
- Parser.Parse: its contract states normalisation, the sign and the empty input. Every other error is stated per input by the examples, not for all inputs.
- WordForms.ParseClockForm: requires the clock text to be at least five characters long. A shorter clock is TooShort, which WordForms.ShortClockForm states; the malformed-clock errors are covered only by the examples.
- WordForms.ParseDaysClockForm: covers well-formed clocks only. A malformed clock after the day word gives that clock's error; this is covered only by the examples.
