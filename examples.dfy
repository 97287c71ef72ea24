/** The constructor, comparison and accessor cases of the duration tests. */
module Examples {
  import opened Errors
  import opened Durations
  import opened Order
  import opened Parser
  import DE = DesignatorExamples

  /** `new` carries microseconds into seconds and seconds into days. */
  lemma NormaliseCarries()
    ensures New(false, 1, 86500, 1_000_123) == Ok(Duration(false, 2, 101, 123))
    ensures New(true, 0, 0, 1_000_000) == Ok(Duration(true, 0, 1, 0))
  {
  }

  /** A carry that overflows the 32-bit second counter is DurationValueTooLarge;
      too many days without an overflow is DurationDaysTooLarge. */
  lemma NormaliseErrors()
    ensures New(true, 0xFFFF_FFFF, 4294967295, 905969663) == Err(DurationValueTooLarge)
    ensures New(true, 0xFFFF_FFFF, 0, 0) == Err(DurationDaysTooLarge)
  {
  }

  /** The largest duration, for both signs, and one microsecond more. */
  lemma NormaliseLimit()
    ensures New(true, 999_999_999, 86399, 999_999) == Ok(Duration(true, 999_999_999, 86399, 999_999))
    ensures New(false, 999_999_999, 86399, 999_999) == Ok(Duration(false, 999_999_999, 86399, 999_999))
    ensures New(true, 999_999_999, 86399, 1_000_000) == Err(DurationDaysTooLarge)
    ensures New(false, 999_999_999, 86399, 1_000_000) == Err(DurationDaysTooLarge)
  {
  }

  /** One second against one second and a microsecond, built by `new`. */
  lemma CompareMicrosecond()
    ensures New(true, 0, 0, 1_000_000) == Ok(Duration(true, 0, 1, 0))
    ensures New(true, 0, 0, 1_000_001) == Ok(Duration(true, 0, 1, 1))
    ensures Lt(Duration(true, 0, 1, 0), Duration(true, 0, 1, 1)) && Le(Duration(true, 0, 1, 0), Duration(true, 0, 1, 1))
    ensures Gt(Duration(true, 0, 1, 1), Duration(true, 0, 1, 0)) && Ge(Duration(true, 0, 1, 1), Duration(true, 0, 1, 0))
    ensures Le(Duration(true, 0, 1, 0), Duration(true, 0, 1, 0)) && Ge(Duration(true, 0, 1, 1), Duration(true, 0, 1, 1))
  {
  }

  /** The sign takes part in the order: three days is greater than minus four,
      and minus three days is greater than minus four. */
  lemma CompareSigned()
    ensures Gt(Duration(true, 3, 0, 0), Duration(false, 4, 0, 0)) && Ge(Duration(true, 3, 0, 0), Duration(false, 4, 0, 0))
    ensures Lt(Duration(false, 4, 0, 0), Duration(true, 3, 0, 0)) && Le(Duration(false, 4, 0, 0), Duration(true, 3, 0, 0))
    ensures Gt(Duration(false, 3, 0, 0), Duration(false, 4, 0, 0)) && Lt(Duration(false, 4, 0, 0), Duration(false, 3, 0, 0))
  {
  }

  /** "+P1D" is greater than "-P2D". */
  lemma CompareParsed()
    ensures Parse("+P1D").Ok? && Parse("-P2D").Ok? && Gt(Parse("+P1D").value, Parse("-P2D").value)
  {
    DE.PlusOneDay();
    DE.MinusTwoDays();
  }

  /** Nothing, or a sign alone, is TooShort. */
  lemma ParseEmpty()
    ensures Parse("") == Err(TooShort)
    ensures Parse("+") == Err(TooShort)
  {
    DE.Plus("+", "");
  }

  /** Signed accessors of "P1MT1.5S" and "-P1DT42.123456S". */
  lemma SignedAccessors()
    ensures SignedTotalSeconds(Duration(true, 30, 1, 500_000)) == 30 * 86_400 + 1
    ensures SignedMicroseconds(Duration(true, 30, 1, 500_000)) == 500_000
    ensures SignedTotalSeconds(Duration(false, 1, 42, 123_456)) == -86_442
    ensures SignedMicroseconds(Duration(false, 1, 42, 123_456)) == -123_456
  {
  }
}
