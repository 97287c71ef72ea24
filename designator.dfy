/** The ISO 8601 designator dialect: `P` followed by number-and-unit components,
    date units Y/M/W/D before an optional `T`, time units H/M/S after it. */
module Designator {
  import opened Errors
  import opened Numeric
  import opened Durations

  /** What the scan has seen so far, and the three counters it accumulates. */
  datatype Accumulator = Accumulator(
    inTime: bool,
    fractionSeen: bool,
    anyComponent: bool,
    day: U32,
    second: U32,
    microsecond: U32)

  const Start := Accumulator(false, false, false, 0, 0, 0)

  /** Days per date unit: a year is 365 days, a month 30, a week 7. */
  function DateUnitDays(c: char): (r: Option<nat>)
    ensures r.Some? ==> r.value in {365, 30, 7, 1}
  {
    match c
    case 'Y' => Some(365)
    case 'M' => Some(30)
    case 'W' => Some(7)
    case 'D' => Some(1)
    case _ => None
  }

  /** Seconds per time unit. */
  function TimeUnitSeconds(c: char): (r: Option<nat>)
    ensures r.Some? ==> r.value in {3600, 60, 1}
  {
    match c
    case 'H' => Some(3600)
    case 'M' => Some(60)
    case 'S' => Some(1)
    case _ => None
  }

  /** The microseconds the accumulator's counters stand for. */
  function Total(acc: Accumulator): nat {
    RawMagnitude(acc.day, acc.second, acc.microsecond)
  }

  function FractionValue(fraction: Option<nat>): nat {
    if fraction.Some? then fraction.value else 0
  }

  /** Only the counters change when a component is added. */
  predicate SameFlags(a: Accumulator, b: Accumulator) {
    a.inTime == b.inTime && a.fractionSeen == b.fractionSeen && a.anyComponent == b.anyComponent
  }

  lemma MillionthsOfDay(whole: nat, rest: nat)
    requires rest < Million
    ensures var micros := rest * SecondsPerDay;
      whole * MicrosPerDay + (micros / Million) * Million + micros % Million
        == (whole * Million + rest) * SecondsPerDay
  {
    var micros := rest * SecondsPerDay;
    assert (micros / Million) * Million + micros % Million == micros;
  }

  /** Adds `value` date units of `unitDays` days each, plus a fraction (in
      millionths of a unit) that is carried down into seconds and
      microseconds. Every counter update is a checked 32-bit addition. */
  function AddDate(acc: Accumulator, value: U32, fraction: Option<nat>, unitDays: nat): (r: Result<Accumulator>)
    ensures r.Err? ==> r.error == DurationValueTooLarge
    ensures r.Ok? ==> SameFlags(acc, r.value)
  {
    var whole :- CheckedMul(value, unitDays);
    var day :- CheckedAdd(acc.day, whole);
    match fraction
    case None => Ok(acc.(day := day))
    case Some(f) =>
      var partsPerMillion := f * unitDays;
      var day' :- CheckedAdd(day, partsPerMillion / Million);
      var micros := (partsPerMillion % Million) * SecondsPerDay;
      var second :- CheckedAdd(acc.second, micros / Million);
      var microsecond :- CheckedAdd(acc.microsecond, micros % Million);
      Ok(acc.(day := day', second := second, microsecond := microsecond))
  }

  /** A date component adds exactly the amount it names: nothing of the
      fraction is lost on the way down to microseconds. */
  lemma AddDateTotal(acc: Accumulator, value: U32, fraction: Option<nat>, unitDays: nat)
    requires AddDate(acc, value, fraction, unitDays).Ok?
    ensures Total(AddDate(acc, value, fraction, unitDays).value)
      == Total(acc) + value * unitDays * MicrosPerDay + FractionValue(fraction) * unitDays * SecondsPerDay
  {
    if fraction.Some? {
      var partsPerMillion := fraction.value * unitDays;
      MillionthsOfDay(partsPerMillion / Million, partsPerMillion % Million);
    }
  }

  /** Adds `value` time units of `unitSeconds` seconds each, plus a fraction (in
      millionths of a unit) split into whole seconds and microseconds. */
  function AddTime(acc: Accumulator, value: U32, fraction: Option<nat>, unitSeconds: nat): (r: Result<Accumulator>)
    ensures r.Err? ==> r.error == DurationValueTooLarge
    ensures r.Ok? ==> SameFlags(acc, r.value)
  {
    var whole :- CheckedMul(value, unitSeconds);
    var second :- CheckedAdd(acc.second, whole);
    match fraction
    case None => Ok(acc.(second := second))
    case Some(f) =>
      var micros := f * unitSeconds;
      var second' :- CheckedAdd(second, micros / Million);
      var microsecond :- CheckedAdd(acc.microsecond, micros % Million);
      Ok(acc.(second := second', microsecond := microsecond))
  }

  /** A time component adds exactly the amount it names. */
  lemma AddTimeTotal(acc: Accumulator, value: U32, fraction: Option<nat>, unitSeconds: nat)
    requires AddTime(acc, value, fraction, unitSeconds).Ok?
    ensures Total(AddTime(acc, value, fraction, unitSeconds).value)
      == Total(acc) + value * unitSeconds * MicrosPerSecond + FractionValue(fraction) * unitSeconds
  {
  }

  /** The unit letter at `end`, if any, for the current segment: what it is
      worth in days before the 'T', in seconds after it. */
  function UnitAt(s: string, end: nat, inTime: bool): (r: Option<nat>)
    requires end <= |s|
    ensures r.Some? <==> end < |s| && s[end] in (if inTime then "HMS" else "YMWD")
    ensures r.Some? ==> r.value in (if inTime then {3600, 60, 1} else {365, 30, 7, 1})
  {
    if end < |s| then (if inTime then TimeUnitSeconds(s[end]) else DateUnitDays(s[end])) else None
  }

  /** What a component of `value` units plus a fraction in millionths of a
      unit is worth in microseconds: date units count days, time units count
      seconds. */
  function ComponentMicros(value: nat, fraction: Option<nat>, unit: nat, inTime: bool): nat {
    if inTime then value * unit * MicrosPerSecond + FractionValue(fraction) * unit
    else value * unit * MicrosPerDay + FractionValue(fraction) * unit * SecondsPerDay
  }

  /** One number-and-unit component at `pos`: the counters after it and the
      position after its unit letter. A number that cannot be scanned gives
      the scan's error; a number after a fractional one is
      DurationInvalidFraction; a missing or unknown unit letter is
      DurationInvalidDateUnit / DurationInvalidTimeUnit; a counter overflow is
      DurationValueTooLarge. A success adds exactly what the component names
      and marks whether it had a fraction. */
  function NextComponent(s: string, pos: nat, acc: Accumulator): (r: Result<(Accumulator, nat)>)
    requires pos <= |s|
    ensures r.Ok? ==> pos < r.value.1 <= |s|
    ensures ScanNumberFraction(s, pos).Err? ==> r == Err(ScanNumberFraction(s, pos).error)
    ensures ScanNumberFraction(s, pos).Ok? && acc.fractionSeen ==> r == Err(DurationInvalidFraction)
    ensures ScanNumberFraction(s, pos).Ok? && !acc.fractionSeen
            && UnitAt(s, ScanNumberFraction(s, pos).value.2, acc.inTime).None?
      ==> r == Err(if acc.inTime then DurationInvalidTimeUnit else DurationInvalidDateUnit)
    ensures ScanNumberFraction(s, pos).Ok? && !acc.fractionSeen
            && UnitAt(s, ScanNumberFraction(s, pos).value.2, acc.inTime).Some? && r.Err?
      ==> r.error == DurationValueTooLarge
    ensures r.Ok? ==> var (value, fraction, end) := ScanNumberFraction(s, pos).value;
      && UnitAt(s, end, acc.inTime).Some? && r.value.1 == end + 1
      && r.value.0.inTime == acc.inTime && r.value.0.fractionSeen == fraction.Some? && r.value.0.anyComponent
  {
    var (value, fraction, end) :- ScanNumberFraction(s, pos);
    if acc.fractionSeen then
      Err(DurationInvalidFraction)
    else
      var unit := UnitAt(s, end, acc.inTime);
      if unit.None? then
        Err(if acc.inTime then DurationInvalidTimeUnit else DurationInvalidDateUnit)
      else
        var acc' :- if acc.inTime then AddTime(acc, value, fraction, unit.value)
                    else AddDate(acc, value, fraction, unit.value);
        Ok((acc'.(fractionSeen := fraction.Some?, anyComponent := true), end + 1))
  }

  /** A component that is read adds exactly what it names to the counters. */
  lemma NextComponentAdds(s: string, pos: nat, acc: Accumulator)
    requires pos <= |s| && NextComponent(s, pos, acc).Ok?
    ensures var (value, fraction, end) := ScanNumberFraction(s, pos).value;
      UnitAt(s, end, acc.inTime).Some?
      && Total(NextComponent(s, pos, acc).value.0)
           == Total(acc) + ComponentMicros(value, fraction, UnitAt(s, end, acc.inTime).value, acc.inTime)
  {
    var (value, fraction, end) := ScanNumberFraction(s, pos).value;
    var unit := UnitAt(s, end, acc.inTime).value;
    if acc.inTime {
      AddTimeTotal(acc, value, fraction, unit);
    } else {
      AddDateTotal(acc, value, fraction, unit);
    }
  }

  /** The component loop, from `pos` to the end of the input. A 'T' switches to
      the time units (a second one is DurationTRepeated); anything else must be
      a component. Reaching the end without any component is TooShort. */
  function Components(s: string, pos: nat, acc: Accumulator): (r: Result<RawDuration>)
    requires pos <= |s|
    decreases |s| - pos
  {
    if pos == |s| then
      if acc.anyComponent then Ok(RawDuration(acc.day, acc.second, acc.microsecond)) else Err(TooShort)
    else if s[pos] == 'T' then
      if acc.inTime then Err(DurationTRepeated) else Components(s, pos + 1, acc.(inTime := true))
    else
      var (acc', next) :- NextComponent(s, pos, acc);
      Components(s, next, acc')
  }

  /** The loop's rules at one position: the end of the input without any
      component is TooShort, a 'T' after the 'T' is DurationTRepeated, and a
      component that fails ends the loop with its error. */
  lemma ComponentRules(s: string, pos: nat, acc: Accumulator)
    requires pos <= |s|
    ensures pos == |s| && !acc.anyComponent ==> Components(s, pos, acc) == Err(TooShort)
    ensures pos < |s| && s[pos] == 'T' && acc.inTime ==> Components(s, pos, acc) == Err(DurationTRepeated)
    ensures pos < |s| && s[pos] != 'T' && NextComponent(s, pos, acc).Err?
      ==> Components(s, pos, acc) == Err(NextComponent(s, pos, acc).error)
  {
  }

  /** Failures of one component, as the loop reports them: a component after a
      fractional one is DurationInvalidFraction, and a number followed by no
      unit letter of its segment is DurationInvalidDateUnit before the 'T' and
      DurationInvalidTimeUnit after it. */
  lemma ComponentFailures(s: string, pos: nat, acc: Accumulator)
    requires pos < |s| && s[pos] != 'T' && ScanNumberFraction(s, pos).Ok?
    ensures acc.fractionSeen ==> Components(s, pos, acc) == Err(DurationInvalidFraction)
    ensures !acc.fractionSeen && UnitAt(s, ScanNumberFraction(s, pos).value.2, acc.inTime).None?
      ==> Components(s, pos, acc) == Err(if acc.inTime then DurationInvalidTimeUnit else DurationInvalidDateUnit)
  {
    ComponentRules(s, pos, acc);
  }
}
