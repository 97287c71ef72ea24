/** The total order on durations: by sign first, then by magnitude, ascending
    for non-negative values and descending for negative ones. */
module Order {
  import opened Numeric
  import opened Durations

  datatype Ordering = Less | Equal | Greater {
    function Reverse(): Ordering {
      match this
      case Less => Greater
      case Equal => Equal
      case Greater => Less
    }
  }

  function CompareNat(x: nat, y: nat): Ordering {
    if x < y then Less else if x == y then Equal else Greater
  }

  /** Field-wise comparison of the unsigned (day, second, microsecond) triples. */
  function CompareMagnitude(a: Duration, b: Duration): Ordering {
    match CompareNat(a.day, b.day)
    case Equal =>
      (match CompareNat(a.second, b.second)
       case Equal => CompareNat(a.microsecond, b.microsecond)
       case other => other)
    case other => other
  }

  /** `partial_cmp`: any non-negative duration is above any negative one; two
      negative durations compare in the reverse order of their magnitudes. */
  function Compare(a: Duration, b: Duration): (r: Ordering)
    ensures r == Equal <==> a == b
  {
    if a.positive != b.positive then
      (if a.positive then Greater else Less)
    else if a.positive then
      CompareMagnitude(a, b)
    else
      CompareMagnitude(a, b).Reverse()
  }

  /** `<`: seen from the other operand, `b` is the greater one. */
  predicate Lt(a: Duration, b: Duration): (r: bool)
    ensures r <==> Compare(b, a) == Greater
  {
    Compare(a, b) == Less
  }

  /** `<=`: less than or equal. */
  predicate Le(a: Duration, b: Duration): (r: bool)
    ensures r <==> Compare(a, b) == Less || a == b
  {
    Compare(a, b) != Greater
  }

  /** `>`: seen from the other operand, `b` is the lesser one. */
  predicate Gt(a: Duration, b: Duration): (r: bool)
    ensures r <==> Compare(b, a) == Less
  {
    Compare(a, b) == Greater
  }

  /** `>=`: greater than or equal. */
  predicate Ge(a: Duration, b: Duration): (r: bool)
    ensures r <==> Compare(a, b) == Greater || a == b
  {
    Compare(a, b) != Less
  }

  /** Comparison reports Equal exactly for structurally equal values, and
      swapping the operands reverses the answer. */
  lemma CompareEqualAndAntisymmetric(a: Duration, b: Duration)
    ensures Compare(a, b) == Equal <==> a == b
    ensures Compare(b, a) == Compare(a, b).Reverse()
  {
  }

  lemma LtTransitive(a: Duration, b: Duration, c: Duration)
    requires Lt(a, b) && Lt(b, c)
    ensures Lt(a, c)
  {
  }

  /** Exactly one of a < b, a == b, a > b holds; the derived relations agree. */
  lemma Trichotomy(a: Duration, b: Duration)
    ensures Lt(a, b) || a == b || Gt(a, b)
    ensures !(Lt(a, b) && Gt(a, b))
    ensures Le(a, b) <==> Lt(a, b) || a == b
    ensures Ge(a, b) <==> Gt(a, b) || a == b
    ensures Gt(a, b) <==> Lt(b, a)
  {
  }

  /** On normalised values, field-wise comparison is comparison of magnitudes. */
  lemma CompareMagnitudeMeaning(a: Duration, b: Duration)
    requires Valid(a) && Valid(b)
    ensures CompareMagnitude(a, b) == CompareNat(Magnitude(a), Magnitude(b))
  {
    var subA := a.second * MicrosPerSecond + a.microsecond;
    var subB := b.second * MicrosPerSecond + b.microsecond;
    SubDayBound(a.second, a.microsecond);
    SubDayBound(b.second, b.microsecond);
    PlaceValueOrder(a.day, subA, b.day, subB, MicrosPerDay);
    PlaceValueOrder(a.second, a.microsecond, b.second, b.microsecond, MicrosPerSecond);
  }

  lemma SubDayBound(second: nat, microsecond: nat)
    requires second < SecondsPerDay && microsecond < MicrosPerSecond
    ensures second * MicrosPerSecond + microsecond < MicrosPerDay
  {
    MulMonotone(second + 1, SecondsPerDay, MicrosPerSecond);
  }

  /** Two-digit numbers in base `base` compare as their high digits, then as
      their low digits. */
  lemma PlaceValueOrder(hi1: nat, lo1: nat, hi2: nat, lo2: nat, base: nat)
    requires lo1 < base && lo2 < base
    ensures hi1 < hi2 ==> hi1 * base + lo1 < hi2 * base + lo2
    ensures hi1 == hi2 ==> (hi1 * base + lo1 < hi2 * base + lo2 <==> lo1 < lo2)
  {
    MulMonotone(hi1 + 1, hi2, base);
  }

  /** The order is the order of signed values; at equal signed value (both
      magnitudes zero) the negative-signed zero lies below the positive one. */
  lemma CompareIsSignedOrder(a: Duration, b: Duration)
    requires Valid(a) && Valid(b)
    ensures Lt(a, b) <==>
      SignedValue(a) < SignedValue(b) || (SignedValue(a) == SignedValue(b) && !a.positive && b.positive)
  {
    CompareMagnitudeMeaning(a, b);
  }
}
