/** The day-word dialect: `N[ ](d|day|days)` in any letter case, then an
    optional `,`, `, ` or ` `, then an optional clock. */
module DayWord {
  import opened Errors
  import opened Numeric
  import opened Durations
  import opened Clock

  /** Case-insensitive match of an ASCII letter given in lower case. */
  predicate IsLetterOf(c: char, lower: char)
    requires 'a' <= lower <= 'z'
  {
    c == lower || c == (lower as int - 32) as char
  }

  /** The position after a day unit word starting at `pos`. A 'd' not followed
      by 'a' is the short form; "da" must go on to "day", optionally "days". */
  function UnitEnd(s: string, pos: nat): (r: Result<nat>)
    requires pos <= |s|
    ensures r.Ok? ==> pos < r.value <= |s|
    ensures r.Err? ==> r.error == DurationInvalidDays
  {
    if pos == |s| || !IsLetterOf(s[pos], 'd') then
      Err(DurationInvalidDays)
    else if pos + 1 < |s| && IsLetterOf(s[pos + 1], 'a') then
      if pos + 2 < |s| && IsLetterOf(s[pos + 2], 'y') then
        Ok(if pos + 3 < |s| && IsLetterOf(s[pos + 3], 's') then pos + 4 else pos + 3)
      else
        Err(DurationInvalidDays)
    else
      Ok(pos + 1)
  }

  /** Skips an optional ',' and then an optional ' '. */
  function SeparatorEnd(s: string, pos: nat): (e: nat)
    requires pos <= |s|
    ensures pos <= e <= |s|
  {
    var p := if pos < |s| && s[pos] == ',' then pos + 1 else pos;
    if p < |s| && s[p] == ' ' then p + 1 else p
  }

  /** The whole day-word form from `pos` to the end of the input. */
  function ParseDays(s: string, pos: nat): (r: Result<RawDuration>)
    requires pos <= |s|
    ensures r.Ok? ==> r.value.microsecond < Million
  {
    var (day, p) :- ScanNumber(s, pos);
    var beforeUnit := if p < |s| && s[p] == ' ' then p + 1 else p;
    var afterUnit :- UnitEnd(s, beforeUnit);
    var clockStart := SeparatorEnd(s, afterUnit);
    if clockStart == |s| then
      Ok(RawDuration(day, 0, 0))
    else
      var (second, microsecond) :- ParseClock(s, clockStart);
      Ok(RawDuration(day, second, microsecond))
  }
}
