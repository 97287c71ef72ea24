/** The canonical duration value, its normalising constructor and its signed
    accessors. */
module Durations {
  import opened Errors
  import opened Numeric

  /** The largest whole-day count a duration may hold. */
  const MaxDays: nat := 999_999_999
  const SecondsPerDay: nat := 86_400
  const MicrosPerSecond: nat := 1_000_000
  const MicrosPerDay: nat := 86_400_000_000

  /** Sign plus three unsigned 32-bit counters. The sign is `true` for zero and
      positive intervals. */
  datatype Duration = Duration(positive: bool, day: U32, second: U32, microsecond: U32)

  /** The counters a dialect parser hands to the normaliser; the second and
      microsecond counters may exceed their normalised ranges. */
  datatype RawDuration = RawDuration(day: U32, second: U32, microsecond: U32)

  /** The normalised form: every carry has been applied and the day cap holds. */
  predicate Valid(d: Duration) {
    d.day <= MaxDays && d.second < SecondsPerDay && d.microsecond < MicrosPerSecond
  }

  /** The length of the interval in microseconds, whatever the fields' ranges. */
  function RawMagnitude(day: nat, second: nat, microsecond: nat): nat {
    day * MicrosPerDay + second * MicrosPerSecond + microsecond
  }

  function Magnitude(d: Duration): nat {
    RawMagnitude(d.day, d.second, d.microsecond)
  }

  /** The signed length in microseconds. */
  function SignedValue(d: Duration): int {
    if d.positive then Magnitude(d) else -(Magnitude(d) as int)
  }

  lemma DivModUnique(m: nat, q: nat, r: nat, divisor: nat)
    requires divisor > 0 && r < divisor && m == q * divisor + r
    ensures m / divisor == q && m % divisor == r
  {
    var q', r' := m / divisor, m % divisor;
    assert m == q' * divisor + r';
    assert (q' + 1) * divisor == q' * divisor + divisor;
    MulMonotone(q' + 1, q, divisor);
    assert (q + 1) * divisor == q * divisor + divisor;
    MulMonotone(q + 1, q', divisor);
  }

  lemma MulMonotone(a: nat, b: nat, c: nat)
    ensures a <= b ==> a * c <= b * c
  {
  }

  /** Carrying microseconds into seconds and seconds into days leaves the
      magnitude alone and yields its mixed-radix digits. */
  lemma CarryDecomposition(day: nat, second: nat, microsecond: nat)
    ensures var q := second + microsecond / MicrosPerSecond;
      && RawMagnitude(day, second, microsecond)
           == RawMagnitude(day + q / SecondsPerDay, q % SecondsPerDay, microsecond % MicrosPerSecond)
      && RawMagnitude(day, second, microsecond) / MicrosPerDay == day + q / SecondsPerDay
      && RawMagnitude(day, second, microsecond) % MicrosPerDay
           == (q % SecondsPerDay) * MicrosPerSecond + microsecond % MicrosPerSecond
  {
    var q := second + microsecond / MicrosPerSecond;
    var u := microsecond % MicrosPerSecond;
    var m := RawMagnitude(day, second, microsecond);
    assert second * MicrosPerSecond + microsecond == q * MicrosPerSecond + u;
    var h := q % SecondsPerDay;
    assert q == (q / SecondsPerDay) * SecondsPerDay + h;
    assert q * MicrosPerSecond == (q / SecondsPerDay) * MicrosPerDay + h * MicrosPerSecond;
    assert m == (day + q / SecondsPerDay) * MicrosPerDay + (h * MicrosPerSecond + u);
    assert h * MicrosPerSecond + u < MicrosPerDay;
    DivModUnique(m, day + q / SecondsPerDay, h * MicrosPerSecond + u, MicrosPerDay);
  }

  /** The normalising constructor: carries microseconds into seconds and seconds
      into days with 32-bit checked additions (an overflow is
      DurationValueTooLarge), then enforces the day cap (DurationDaysTooLarge).
      A success is normalised, keeps the sign and keeps the magnitude. */
  function New(positive: bool, day: U32, second: U32, microsecond: U32): (r: Result<Duration>)
    ensures r.Ok? ==> Valid(r.value) && r.value.positive == positive
    ensures r.Ok? ==> Magnitude(r.value) == RawMagnitude(day, second, microsecond)
    ensures r.Err? ==> r.error == DurationValueTooLarge || r.error == DurationDaysTooLarge
    ensures r == Err(DurationDaysTooLarge) ==> RawMagnitude(day, second, microsecond) / MicrosPerDay > MaxDays
  {
    var carriedSecond :- CheckedAdd(second, microsecond / MicrosPerSecond);
    var carriedDay :- CheckedAdd(day, carriedSecond / SecondsPerDay);
    CarryDecomposition(day, second, microsecond);
    if carriedDay > MaxDays then
      Err(DurationDaysTooLarge)
    else
      Ok(Duration(positive, carriedDay, carriedSecond % SecondsPerDay, microsecond % MicrosPerSecond))
  }

  /** The outcome of New, stated through the magnitude alone: it fails with
      DurationValueTooLarge exactly when a carry does not fit its 32-bit counter,
      with DurationDaysTooLarge exactly when the carries fit but the whole days of
      the magnitude pass the cap, and otherwise returns the magnitude's
      day / second / microsecond digits. */
  lemma NewOutcome(positive: bool, day: U32, second: U32, microsecond: U32)
    ensures var m := RawMagnitude(day, second, microsecond);
      var secondsFit := second + microsecond / MicrosPerSecond < Limit;
      && (New(positive, day, second, microsecond) == Err(DurationValueTooLarge) <==>
            !secondsFit || m / MicrosPerDay >= Limit)
      && (New(positive, day, second, microsecond) == Err(DurationDaysTooLarge) <==>
            secondsFit && MaxDays < m / MicrosPerDay < Limit)
      && (New(positive, day, second, microsecond).Ok? <==> secondsFit && m / MicrosPerDay <= MaxDays)
      && (New(positive, day, second, microsecond).Ok? ==>
            New(positive, day, second, microsecond).value
              == Duration(positive, m / MicrosPerDay, m % MicrosPerDay / MicrosPerSecond, m % MicrosPerSecond))
  {
    CarryDecomposition(day, second, microsecond);
    var m := RawMagnitude(day, second, microsecond);
    var q := second + microsecond / MicrosPerSecond;
    var u := microsecond % MicrosPerSecond;
    var h := q % SecondsPerDay;
    assert m % MicrosPerDay == h * MicrosPerSecond + u;
    DivModUnique(h * MicrosPerSecond + u, h, u, MicrosPerSecond);
    assert m % MicrosPerSecond == u by {
      assert m == (m / MicrosPerDay * SecondsPerDay + h) * MicrosPerSecond + u;
      DivModUnique(m, m / MicrosPerDay * SecondsPerDay + h, u, MicrosPerSecond);
    }
  }

  /** A value that is already normalised comes back unchanged. */
  lemma NewIdempotent(d: Duration)
    requires Valid(d)
    ensures New(d.positive, d.day, d.second, d.microsecond) == Ok(d)
  {
    assert d.microsecond / MicrosPerSecond == 0;
    assert d.second / SecondsPerDay == 0;
  }

  /** The sign takes no part in normalisation. */
  lemma NewSignIndependent(day: U32, second: U32, microsecond: U32)
    ensures var plus := New(true, day, second, microsecond);
      var minus := New(false, day, second, microsecond);
      && plus.Ok? == minus.Ok?
      && (plus.Err? ==> plus.error == minus.error)
      && (plus.Ok? ==> minus.value == plus.value.(positive := false))
  {
  }

  /** `signed_total_seconds`: the whole seconds of the interval with its sign,
      microseconds left out. */
  function SignedTotalSeconds(d: Duration): (r: int)
    ensures -0x8000_0000_0000_0000 <= r < 0x8000_0000_0000_0000
    ensures (r < 0 ==> !d.positive) && (r > 0 ==> d.positive)
  {
    var total := d.day * SecondsPerDay + d.second;
    if d.positive then total else -total
  }

  /** `signed_microseconds`: the sub-second part with the sign of the interval. */
  function SignedMicroseconds(d: Duration): (r: int)
    ensures Valid(d) ==> -0x8000_0000 <= r < 0x8000_0000
    ensures (r < 0 ==> !d.positive) && (r > 0 ==> d.positive)
  {
    if d.positive then d.microsecond else -(d.microsecond as int)
  }

  /** The two accessors together give the signed value back: whole seconds and
      the leftover microseconds share the interval's sign. */
  lemma SignedAccessorsRecombine(d: Duration)
    ensures SignedTotalSeconds(d) * MicrosPerSecond + SignedMicroseconds(d) == SignedValue(d)
    ensures Valid(d) ==> -(MicrosPerSecond as int) < SignedMicroseconds(d) < MicrosPerSecond
  {
    var total := d.day * SecondsPerDay + d.second;
    assert total * MicrosPerSecond == d.day * MicrosPerDay + d.second * MicrosPerSecond;
  }
}
