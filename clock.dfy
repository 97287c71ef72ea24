/** The clock dialect `HH:MM[:SS[.fraction]]`, used on its own and after a day
    word. The whole clock is at least five characters long. Hours are a digit
    run below 2^32 (a longer run is DurationValueTooLarge); minutes and seconds
    are two digits below 60. */
module Clock {
  import opened Errors
  import opened Numeric

  const SecondsPerHour: nat := 3600
  const SecondsPerMinute: nat := 60

  /** Input shorter than `HH:MM` is rejected before any field is read. */
  const MinClockLength: nat := 5

  function TwoDigitValue(a: char, b: char): (v: nat)
    requires IsDigit(a) && IsDigit(b)
    ensures v < 100
  {
    DigitValue(a) * 10 + DigitValue(b)
  }

  /** The optional `:SS[.fraction]` tail at `pos`: its seconds, its microseconds
      and the position after it. */
  function SecondsTail(s: string, pos: nat): (r: Result<(nat, nat, nat)>)
    requires pos <= |s|
    ensures r.Ok? ==> r.value.0 < SecondsPerMinute && r.value.1 < Million && pos <= r.value.2 <= |s|
    ensures r.Ok? && (pos == |s| || s[pos] != ':') ==> r.value == (0, 0, pos)
  {
    if pos == |s| || s[pos] != ':' then
      Ok((0, 0, pos))
    else if pos + 3 > |s| then
      Err(TooShort)
    else if !(IsDigit(s[pos + 1]) && IsDigit(s[pos + 2])) then
      Err(InvalidCharSecond)
    else
      var second := TwoDigitValue(s[pos + 1], s[pos + 2]);
      if second >= SecondsPerMinute then
        Err(OutOfRangeSecond)
      else if pos + 3 < |s| && s[pos + 3] == '.' then
        if pos + 4 < |s| && IsDigit(s[pos + 4]) then
          var (fraction, end) := FractionLoop(s, pos + 4, 0, 0);
          Ok((second, fraction, end))
        else
          Err(DurationInvalidNumber)
      else
        Ok((second, 0, pos + 3))
  }

  /** A clock from `pos` to the end of the input: its whole seconds
      (h·3600 + m·60 + s, a checked 32-bit value) and its microseconds. Input
      too short for `HH:MM` is TooShort, a bad minute field InvalidCharMinute,
      and anything after the clock ExtraCharacters. */
  function ParseClock(s: string, pos: nat): (r: Result<(U32, U32)>)
    requires pos <= |s|
    ensures r.Ok? ==> r.value.1 < Million
  {
    if |s| - pos < MinClockLength then
      Err(TooShort)
    else
      var (hour, p) :- ScanNumber(s, pos);
      if p == |s| then
        Err(TooShort)
      else if s[p] != ':' then
        Err(InvalidCharMinute)
      else if p + 3 > |s| then
        Err(TooShort)
      else if !(IsDigit(s[p + 1]) && IsDigit(s[p + 2])) then
        Err(InvalidCharMinute)
      else
        var minute := TwoDigitValue(s[p + 1], s[p + 2]);
        if minute >= SecondsPerMinute then
          Err(OutOfRangeMinute)
        else
          var (second, microsecond, end) :- SecondsTail(s, p + 3);
          if end < |s| then
            Err(ExtraCharacters)
          else
            var hourSeconds :- CheckedMul(hour, SecondsPerHour);
            var total :- CheckedAdd(hourSeconds, minute * SecondsPerMinute + second);
            Ok((total, microsecond))
  }
}
