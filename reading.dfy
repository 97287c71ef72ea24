/** Reading a designator body component by component, stated over what the
    number scan returns at each position rather than over the text itself. */
module Reading {
  import opened Errors
  import opened Numeric
  import opened Durations
  import opened Formatter
  import D = Designator

  /** A component at `pos`: its number and fraction scan to `n` and `f`, its
      unit letter comes just before `next`. */
  predicate ComponentAt(s: string, pos: nat, n: U32, f: Option<nat>, unit: char, next: nat) {
    pos < next <= |s| && s[pos] != 'T' && s[next - 1] == unit
    && ScanNumberFraction(s, pos) == Ok((n, f, next - 1))
  }

  /** A date component adds its days to the counters. */
  lemma DateComponentNext(s: string, pos: nat, n: U32, unit: char, k: nat, next: nat, acc: D.Accumulator)
    requires ComponentAt(s, pos, n, None, unit, next)
    requires D.DateUnitDays(unit) == Some(k) && !acc.inTime && !acc.fractionSeen
    requires acc.day + n * k < Limit
    ensures D.NextComponent(s, pos, acc) == Ok((acc.(day := acc.day + n * k, anyComponent := true), next))
  {
    var acc' := acc.(day := acc.day + n * k);
    assert D.AddDate(acc, n, None, k) == Ok(acc');
  }

  /** Reading a date component adds its days. */
  lemma DateStep(s: string, pos: nat, n: U32, unit: char, k: nat, next: nat, acc: D.Accumulator)
    requires ComponentAt(s, pos, n, None, unit, next)
    requires D.DateUnitDays(unit) == Some(k) && !acc.inTime && !acc.fractionSeen
    requires acc.day + n * k < Limit
    ensures D.Components(s, pos, acc) == D.Components(s, next, acc.(day := acc.day + n * k, anyComponent := true))
  {
    DateComponentNext(s, pos, n, unit, k, next, acc);
  }

  /** A seconds component into an empty time accumulator. */
  lemma AddSeconds(acc: D.Accumulator, n: U32, f: Option<nat>)
    requires acc.second == 0 && acc.microsecond == 0
    requires f.Some? ==> f.value < Million
    ensures D.AddTime(acc, n, f, 1) == Ok(acc.(second := n, microsecond := D.FractionValue(f)))
  {
  }

  /** A final seconds component sets the seconds and microseconds. */
  lemma SecondsComponentNext(s: string, pos: nat, n: U32, f: Option<nat>, acc: D.Accumulator)
    requires ComponentAt(s, pos, n, f, 'S', |s|)
    requires acc.inTime && !acc.fractionSeen && acc.second == 0 && acc.microsecond == 0
    requires f.Some? ==> f.value < Million
    ensures D.NextComponent(s, pos, acc)
      == Ok((acc.(second := n, microsecond := D.FractionValue(f), fractionSeen := f.Some?, anyComponent := true), |s|))
  {
    AddSeconds(acc, n, f);
  }

  /** Reading a final seconds component sets the seconds and microseconds. */
  lemma SecondsStep(s: string, pos: nat, n: U32, f: Option<nat>, acc: D.Accumulator)
    requires ComponentAt(s, pos, n, f, 'S', |s|)
    requires acc.inTime && !acc.fractionSeen && acc.second == 0 && acc.microsecond == 0
    requires f.Some? ==> f.value < Million
    ensures D.Components(s, pos, acc) == Ok(RawDuration(acc.day, n, D.FractionValue(f)))
  {
    SecondsComponentNext(s, pos, n, f, acc);
  }

  /** Reaching the end after at least one component yields the counters. */
  lemma ComponentsAtEnd(s: string, acc: D.Accumulator)
    requires acc.anyComponent
    ensures D.Components(s, |s|, acc) == Ok(RawDuration(acc.day, acc.second, acc.microsecond))
  {
  }

  /** A 'T' before any time component switches to the time units. */
  lemma TimeDesignatorAt(s: string, pos: nat, acc: D.Accumulator)
    requires pos < |s| && s[pos] == 'T' && !acc.inTime
    ensures D.Components(s, pos, acc) == D.Components(s, pos + 1, acc.(inTime := true))
  {
  }

  /** A date piece from `pos` to `next`: nothing for a zero count, otherwise
      one component. */
  predicate DateStepOpt(s: string, pos: nat, n: U32, unit: char, next: nat) {
    if n == 0 then next == pos else ComponentAt(s, pos, n, None, unit, next)
  }

  /** The seconds component of a time piece: no fraction when there are no
      microseconds. */
  function SecondsScan(microsecond: nat): Option<nat> {
    if microsecond == 0 then None else Some(microsecond)
  }

  /** The time piece from `pos` to the end: nothing for a zero time, otherwise
      'T' and one seconds component. */
  predicate TimeStepOpt(s: string, pos: nat, second: U32, microsecond: nat) {
    if second == 0 && microsecond == 0 then pos == |s|
    else pos < |s| && s[pos] == 'T' && ComponentAt(s, pos + 1, second, SecondsScan(microsecond), 'S', |s|)
  }

  /** Reading a date piece. */
  lemma DatePieceStep(s: string, pos: nat, n: U32, unit: char, k: nat, next: nat, acc: D.Accumulator)
    requires pos <= |s| && DateStepOpt(s, pos, n, unit, next)
    requires D.DateUnitDays(unit) == Some(k) && !acc.inTime && !acc.fractionSeen
    requires acc.day + n * k < Limit
    ensures pos <= next <= |s|
    ensures D.Components(s, pos, acc)
      == D.Components(s, next, if n > 0 then acc.(day := acc.day + n * k, anyComponent := true) else acc)
  {
    if n > 0 {
      DateStep(s, pos, n, unit, k, next, acc);
    }
  }

  /** Reading the time piece up to the end of the input. */
  lemma TimePieceStep(s: string, pos: nat, second: U32, microsecond: nat, acc: D.Accumulator)
    requires pos <= |s| && TimeStepOpt(s, pos, second, microsecond) && microsecond < Million
    requires !acc.inTime && !acc.fractionSeen && acc.second == 0 && acc.microsecond == 0
    requires acc.anyComponent || second > 0 || microsecond > 0
    ensures D.Components(s, pos, acc) == Ok(RawDuration(acc.day, second, microsecond))
  {
    if second == 0 && microsecond == 0 {
      ComponentsAtEnd(s, acc);
    } else {
      TimeDesignatorAt(s, pos, acc);
      SecondsStep(s, pos + 1, second, SecondsScan(microsecond), acc.(inTime := true));
    }
  }

  /** Reading a day piece and then the time piece. */
  lemma DayAndTimeSteps(t: string, pos: nat, next: nat, days: U32, second: U32, microsecond: nat,
                        acc: D.Accumulator)
    requires pos <= |t| && DateStepOpt(t, pos, days, 'D', next)
    requires next <= |t| ==> TimeStepOpt(t, next, second, microsecond)
    requires microsecond < Million
    requires !acc.inTime && !acc.fractionSeen && acc.second == 0 && acc.microsecond == 0
    requires acc.day + days < Limit
    requires acc.anyComponent || days > 0 || second > 0 || microsecond > 0
    ensures D.Components(t, pos, acc) == Ok(RawDuration(acc.day + days, second, microsecond))
  {
    DatePieceStep(t, pos, days, 'D', 1, next, acc);
    var acc' := if days > 0 then acc.(day := acc.day + days * 1, anyComponent := true) else acc;
    TimePieceStep(t, next, second, microsecond, acc');
  }

  /** Reading a body made of a year piece ending at `p1`, a day piece ending at
      `p2` and a time piece ending the input. */
  lemma ReadBody(t: string, p1: nat, p2: nat, years: U32, days: U32, second: U32, microsecond: nat, day: nat)
    requires 1 <= |t| && day == 365 * years + days && day < Limit && microsecond < Million
    requires years > 0 || days > 0 || second > 0 || microsecond > 0
    ensures DateStepOpt(t, 1, years, 'Y', p1) && DateStepOpt(t, p1, days, 'D', p2)
            && TimeStepOpt(t, p2, second, microsecond)
      ==> D.Components(t, 1, D.Start) == Ok(RawDuration(day, second, microsecond))
  {
    if DateStepOpt(t, 1, years, 'Y', p1) && DateStepOpt(t, p1, days, 'D', p2)
       && TimeStepOpt(t, p2, second, microsecond) {
      ReadThreePieces(t, p1, p2, years, days, second, microsecond, day);
    }
  }

  /** The three pieces in place, read one after the other. */
  lemma ReadThreePieces(t: string, p1: nat, p2: nat, years: U32, days: U32, second: U32, microsecond: nat, day: nat)
    requires 1 <= |t| && day == 365 * years + days && day < Limit && microsecond < Million
    requires years > 0 || days > 0 || second > 0 || microsecond > 0
    requires DateStepOpt(t, 1, years, 'Y', p1) && DateStepOpt(t, p1, days, 'D', p2)
    requires TimeStepOpt(t, p2, second, microsecond)
    ensures D.Components(t, 1, D.Start) == Ok(RawDuration(day, second, microsecond))
  {
    DatePieceStep(t, 1, years, 'Y', 365, p1, D.Start);
    var acc := if years > 0 then D.Start.(day := 0 + 365 * years, anyComponent := true) else D.Start;
    assert acc.day == 365 * years && acc.anyComponent == (years > 0);
    assert acc.day + days == day;
    DayAndTimeSteps(t, p1, p2, days, second, microsecond, acc);
  }
}
