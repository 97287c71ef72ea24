/** `Display`: renders a duration in the ISO 8601 designator form, using only
    the Y, D and S designators. */
module Formatter {
  import opened Numeric
  import opened Durations

  const DaysPerYear: nat := 365

  /** The six-digit microsecond value without its trailing zeros. */
  function MicroFraction(microsecond: nat): (r: string)
    requires 0 < microsecond < Million
    ensures 1 <= |r| <= FractionDigits && AllDigits(r)
    ensures r[|r| - 1] != '0'
    ensures Millionths(r) == microsecond
  {
    assert Pow10(FractionDigits) == Million;
    var padded := ZeroPad(microsecond, FractionDigits);
    var r := StripTrailingZeros(padded);
    assert r[..|r|] == r;
    r
  }

  function YearPart(d: Duration): (r: string)
    ensures '+' !in r && '-' !in r
  {
    if d.day / DaysPerYear > 0 then NatToString(d.day / DaysPerYear) + "Y" else ""
  }

  function DayPart(d: Duration): (r: string)
    ensures '+' !in r && '-' !in r
  {
    if d.day % DaysPerYear > 0 then NatToString(d.day % DaysPerYear) + "D" else ""
  }

  function TimePart(d: Duration): (r: string)
    requires Valid(d)
    ensures '+' !in r && '-' !in r
  {
    if d.second == 0 && d.microsecond == 0 then ""
    else if d.microsecond == 0 then "T" + NatToString(d.second) + "S"
    else "T" + NatToString(d.second) + "." + MicroFraction(d.microsecond) + "S"
  }

  /** Everything after the sign: 'P', then `{day/365}Y` and `{day%365}D` when
      non-zero, then `T{second}[.fraction]S` when the time part is non-zero;
      the zero duration is written `P0D`. */
  function Body(d: Duration): (r: string)
    requires Valid(d)
    ensures |r| >= 3 && r[0] == 'P'
    ensures '+' !in r && '-' !in r
  {
    var parts := YearPart(d) + DayPart(d) + TimePart(d);
    assert '+' !in parts && '-' !in parts;
    "P" + (if parts == "" then "0D" else parts)
  }

  /** `to_string`: an optional '-' and then the body. */
  function Format(d: Duration): (r: string)
    requires Valid(d)
    ensures |r| >= 3
    ensures (r[0] == '-') == !d.positive
    ensures r[if d.positive then 0 else 1] == 'P'
    ensures '+' !in r
  {
    (if d.positive then "" else "-") + Body(d)
  }
}
