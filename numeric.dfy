/** The numeric accumulator: overflow-checked 32-bit digit runs, fractional digit
    runs scaled to millionths, and the decimal renderings the formatter uses. */
module Numeric {
  import opened Errors

  /** One past the largest value of an unsigned 32-bit counter. */
  const Limit: nat := 0x1_0000_0000

  /** An unsigned 32-bit counter. */
  type U32 = x: nat | x < 0x1_0000_0000

  /** Number of significant fractional digits (microsecond precision). */
  const FractionDigits: nat := 6

  const Million: nat := 1_000_000

  function Pow10(n: nat): (p: nat)
    ensures p >= 1
  {
    if n == 0 then 1 else 10 * Pow10(n - 1)
  }

  predicate IsDigit(c: char) {
    '0' <= c <= '9'
  }

  /** The value of a decimal digit; the scanners apply it to digits only. */
  function DigitValue(c: char): (v: nat)
    ensures v < 10
    ensures IsDigit(c) ==> v == (c as int) - ('0' as int)
  {
    if IsDigit(c) then (c as int) - ('0' as int) else 0
  }

  function DigitChar(n: nat): (c: char)
    requires n < 10
    ensures IsDigit(c) && DigitValue(c) == n
  {
    (('0' as int) + n) as char
  }

  predicate AllDigits(ds: string) {
    forall i :: 0 <= i < |ds| ==> IsDigit(ds[i])
  }

  /** The value of a run of decimal digits, most significant first. */
  function DecimalValue(ds: string): nat {
    if |ds| == 0 then 0 else DecimalValue(ds[..|ds| - 1]) * 10 + DigitValue(ds[|ds| - 1])
  }

  lemma DecimalValueSnoc(ds: string, c: char)
    ensures DecimalValue(ds + [c]) == DecimalValue(ds) * 10 + DigitValue(c)
  {
    assert (ds + [c])[..|ds|] == ds;
  }

  /** A prefix of a digit run is never worth more than the whole run. */
  lemma {:induction false} DecimalValuePrefix(ds: string, k: nat)
    requires k <= |ds|
    ensures DecimalValue(ds[..k]) <= DecimalValue(ds)
    decreases |ds| - k
  {
    if k < |ds| {
      var shorter := ds[..|ds| - 1];
      assert shorter[..k] == ds[..k];
      DecimalValuePrefix(shorter, k);
    } else {
      assert ds[..k] == ds;
    }
  }

  /** A run of n digits is worth less than 10^n. */
  lemma {:induction false} DecimalValueBound(ds: string)
    ensures DecimalValue(ds) < Pow10(|ds|)
  {
    if |ds| > 0 {
      DecimalValueBound(ds[..|ds| - 1]);
    }
  }

  /** End of the maximal digit run that starts at pos. */
  function RunEnd(s: string, pos: nat): (e: nat)
    requires pos <= |s|
    ensures pos <= e <= |s|
    ensures e == |s| || !IsDigit(s[e])
    decreases |s| - pos
  {
    if pos < |s| && IsDigit(s[pos]) then RunEnd(s, pos + 1) else pos
  }

  function CheckedAdd(a: U32, b: nat): (r: Result<U32>)
    ensures r.Ok? <==> a + b < Limit
    ensures r.Ok? ==> r.value == a + b
    ensures r.Err? ==> r.error == DurationValueTooLarge
  {
    if a + b < Limit then Ok(a + b) else Err(DurationValueTooLarge)
  }

  function CheckedMul(a: U32, b: nat): (r: Result<U32>)
    ensures r.Ok? <==> a * b < Limit
    ensures r.Ok? ==> r.value == a * b
    ensures r.Err? ==> r.error == DurationValueTooLarge
  {
    if a * b < Limit then Ok(a * b) else Err(DurationValueTooLarge)
  }

  /** The digit loop of the accumulator: multiply by ten and add each digit,
      failing on the first step whose result does not fit 32 bits. `acc` is
      what the digits before `pos` are worth. */
  function Accumulate(s: string, pos: nat, acc: U32): (r: Result<(U32, nat)>)
    requires pos <= |s|
    ensures r.Ok? ==> pos <= r.value.1 <= |s|
    decreases |s| - pos
  {
    if pos < |s| && IsDigit(s[pos]) then
      var next := acc * 10 + DigitValue(s[pos]);
      if next < Limit then Accumulate(s, pos + 1, next) else Err(DurationValueTooLarge)
    else
      Ok((acc, pos))
  }

  /** The accumulator reads the whole digit run that continues at `pos` and
      yields its value exactly when that value fits 32 bits. */
  lemma {:induction false} AccumulateSpec(s: string, start: nat, pos: nat, acc: U32)
    requires start <= pos <= |s|
    requires acc == DecimalValue(s[start..pos])
    ensures var e := RunEnd(s, pos);
      if DecimalValue(s[start..e]) < Limit then Accumulate(s, pos, acc) == Ok((DecimalValue(s[start..e]), e))
         else Accumulate(s, pos, acc) == Err(DurationValueTooLarge)
    decreases |s| - pos
  {
    if pos < |s| && IsDigit(s[pos]) {
      DigitStep(s, start, pos);
      var next := acc * 10 + DigitValue(s[pos]);
      if next < Limit {
        AccumulateSpec(s, start, pos + 1, next);
      } else {
        RunPrefix(s, start, pos + 1);
      }
    }
  }

  /** One more digit of a run multiplies its value by ten and adds the digit. */
  lemma DigitStep(s: string, start: nat, pos: nat)
    requires start <= pos < |s|
    ensures DecimalValue(s[start..pos + 1]) == DecimalValue(s[start..pos]) * 10 + DigitValue(s[pos])
  {
    assert s[start..pos + 1] == s[start..pos] + [s[pos]];
    DecimalValueSnoc(s[start..pos], s[pos]);
  }

  /** The digits up to `pos` are worth no more than the whole run. */
  lemma RunPrefix(s: string, start: nat, pos: nat)
    requires start <= pos <= |s|
    ensures DecimalValue(s[start..pos]) <= DecimalValue(s[start..RunEnd(s, pos)])
  {
    var e := RunEnd(s, pos);
    assert s[start..e][..pos - start] == s[start..pos];
    DecimalValuePrefix(s[start..e], pos - start);
  }

  /** An unsigned integer at pos: at least one digit, and its value must fit 32
      bits. On success, the value and the position just past the run. */
  function ScanNumber(s: string, pos: nat): (r: Result<(U32, nat)>)
    requires pos <= |s|
    ensures r.Ok? ==> pos < r.value.1 <= |s|
  {
    if pos < |s| && IsDigit(s[pos]) then
      Accumulate(s, pos + 1, DigitValue(s[pos]))
    else
      Err(DurationInvalidNumber)
  }

  /** No digit is DurationInvalidNumber; a run worth 2^32 or more is
      DurationValueTooLarge; otherwise the run's value and its end. */
  lemma ScanNumberSpec(s: string, pos: nat)
    requires pos <= |s|
    ensures var e := RunEnd(s, pos);
      if e == pos then ScanNumber(s, pos) == Err(DurationInvalidNumber)
      else if DecimalValue(s[pos..e]) < Limit then ScanNumber(s, pos) == Ok((DecimalValue(s[pos..e]), e))
      else ScanNumber(s, pos) == Err(DurationValueTooLarge)
  {
    if pos < |s| && IsDigit(s[pos]) {
      assert s[pos..pos + 1] == [s[pos]];
      assert DecimalValue(s[pos..pos + 1]) == DigitValue(s[pos]) by {
        assert s[pos..pos + 1][..0] == [];
      }
      AccumulateSpec(s, pos, pos + 1, DigitValue(s[pos]));
    }
  }

  /** What a run of fractional digits is worth in millionths: only the first six
      digits are significant, the rest are read and dropped. */
  function Millionths(ds: string): (m: nat)
    ensures m < Million
  {
    var k := if |ds| < FractionDigits then |ds| else FractionDigits;
    DecimalValueBound(ds[..k]);
    PowSplit(k, FractionDigits - k);
    assert Pow10(FractionDigits) == Million;
    MulStrict(DecimalValue(ds[..k]), Pow10(k), Pow10(FractionDigits - k));
    DecimalValue(ds[..k]) * Pow10(FractionDigits - k)
  }

  lemma {:induction false} PowSplit(a: nat, b: nat)
    ensures Pow10(a) * Pow10(b) == Pow10(a + b)
  {
    if a > 0 {
      PowSplit(a - 1, b);
    }
  }

  lemma MulStrict(x: nat, y: nat, z: nat)
    requires x < y && z > 0
    ensures x * z < y * z
  {
  }

  /** The fractional digit loop: reads every digit of the run, keeping the first
      six (`kept` of them so far, worth `acc`); on leaving the run, scales the
      kept digits to millionths. */
  function FractionLoop(s: string, pos: nat, kept: nat, acc: nat): (r: (nat, nat))
    requires pos <= |s| && kept <= FractionDigits && acc < Pow10(kept)
    ensures r.0 < Million && pos <= r.1 <= |s|
    decreases |s| - pos
  {
    if pos < |s| && IsDigit(s[pos]) then
      if kept < FractionDigits then
        FractionLoop(s, pos + 1, kept + 1, acc * 10 + DigitValue(s[pos]))
      else
        FractionLoop(s, pos + 1, kept, acc)
    else
      PowSplit(kept, FractionDigits - kept);
      assert Pow10(FractionDigits) == Million;
      MulStrict(acc, Pow10(kept), Pow10(FractionDigits - kept));
      (acc * Pow10(FractionDigits - kept), pos)
  }

  /** Keeping one more digit: the kept prefix grows by that digit. */
  lemma FractionKeep(s: string, start: nat, pos: nat, kept: nat, acc: nat)
    requires start <= pos < |s| && IsDigit(s[pos])
    requires kept == pos - start && kept < FractionDigits
    requires acc == DecimalValue(s[start..pos][..kept])
    ensures acc * 10 + DigitValue(s[pos]) == DecimalValue(s[start..pos + 1][..kept + 1])
    ensures acc * 10 + DigitValue(s[pos]) < Pow10(kept + 1)
  {
    assert s[start..pos + 1][..kept + 1] == s[start..pos][..kept] + [s[pos]];
    DecimalValueSnoc(s[start..pos][..kept], s[pos]);
    DecimalValueBound(s[start..pos + 1][..kept + 1]);
  }

  /** Past six digits, the kept prefix stays as it is. */
  lemma FractionDrop(s: string, start: nat, pos: nat, kept: nat)
    requires start <= pos < |s| && kept == FractionDigits && kept <= pos - start
    ensures s[start..pos + 1][..kept] == s[start..pos][..kept]
  {
  }

  /** Leaving the run: the kept digits, scaled, are the run's millionths. */
  lemma FractionEnd(s: string, start: nat, pos: nat, kept: nat, acc: nat)
    requires start <= pos <= |s|
    requires kept == (if pos - start < FractionDigits then pos - start else FractionDigits)
    requires acc == DecimalValue(s[start..pos][..kept])
    ensures acc * Pow10(FractionDigits - kept) == Millionths(s[start..pos])
  {
  }

  /** The fractional loop yields the millionths of the whole digit run. */
  lemma {:induction false} FractionLoopSpec(s: string, start: nat, pos: nat, kept: nat, acc: nat)
    requires start <= pos <= |s|
    requires kept == (if pos - start < FractionDigits then pos - start else FractionDigits)
    requires acc == DecimalValue(s[start..pos][..kept])
    requires acc < Pow10(kept)
    ensures var e := RunEnd(s, pos);
      FractionLoop(s, pos, kept, acc) == (Millionths(s[start..e]), e)
    decreases |s| - pos
  {
    if pos < |s| && IsDigit(s[pos]) {
      if kept < FractionDigits {
        FractionKeep(s, start, pos, kept, acc);
        FractionLoopSpec(s, start, pos + 1, kept + 1, acc * 10 + DigitValue(s[pos]));
      } else {
        FractionDrop(s, start, pos, kept);
        FractionLoopSpec(s, start, pos + 1, kept, acc);
      }
    } else {
      FractionEnd(s, start, pos, kept, acc);
    }
  }

  /** A number with an optional fractional part introduced by '.': the integer
      value, the fraction in millionths if there is one, and the position after
      the number. */
  function ScanNumberFraction(s: string, pos: nat): (r: Result<(U32, Option<nat>, nat)>)
    requires pos <= |s|
    ensures r.Ok? ==> pos < r.value.2 <= |s|
    ensures r.Ok? && r.value.1.Some? ==> r.value.1.value < Million
  {
    var (value, e) :- ScanNumber(s, pos);
    if e < |s| && s[e] == '.' then
      if e + 1 < |s| && IsDigit(s[e + 1]) then
        var (f, e2) := FractionLoop(s, e + 1, 0, 0);
        Ok((value, Some(f), e2))
      else
        Err(DurationInvalidNumber)
    else
      Ok((value, None, e))
  }

  /** A digit run that fits 32 bits and is not followed by '.' scans as an
      integer. */
  lemma ScanNumberFractionPlain(s: string, pos: nat)
    requires pos <= |s|
    requires var e := RunEnd(s, pos);
      e > pos && DecimalValue(s[pos..e]) < Limit && (e == |s| || s[e] != '.')
    ensures var e := RunEnd(s, pos);
      ScanNumberFraction(s, pos) == Ok((DecimalValue(s[pos..e]), None, e))
  {
    ScanNumberSpec(s, pos);
  }

  /** A digit run that fits 32 bits, then '.', then a second digit run, scans
      as the integer and the millionths of the second run. */
  lemma ScanNumberFractionDotted(s: string, pos: nat)
    requires pos <= |s|
    requires var e := RunEnd(s, pos);
      && e > pos && DecimalValue(s[pos..e]) < Limit
      && e + 1 < |s| && s[e] == '.' && IsDigit(s[e + 1])
    ensures var e := RunEnd(s, pos);
      ScanNumberFraction(s, pos)
        == Ok((DecimalValue(s[pos..e]), Some(Millionths(s[e + 1..RunEnd(s, e + 1)])), RunEnd(s, e + 1)))
  {
    ScanNumberSpec(s, pos);
    var e := RunEnd(s, pos);
    assert s[e + 1..e + 1] == [];
    FractionLoopSpec(s, e + 1, e + 1, 0, 0);
  }

  /** The number scan's outcome in terms of the digit runs: the integer run's
      errors first, then a '.' that must be followed by a digit run whose
      millionths are the fraction. */
  lemma ScanNumberFractionSpec(s: string, pos: nat)
    requires pos <= |s|
    ensures var e := RunEnd(s, pos);
      e == pos ==> ScanNumberFraction(s, pos) == Err(DurationInvalidNumber)
    ensures var e := RunEnd(s, pos);
      e > pos && DecimalValue(s[pos..e]) >= Limit ==> ScanNumberFraction(s, pos) == Err(DurationValueTooLarge)
    ensures var e := RunEnd(s, pos);
      e > pos && DecimalValue(s[pos..e]) < Limit && (e == |s| || s[e] != '.') ==>
        ScanNumberFraction(s, pos) == Ok((DecimalValue(s[pos..e]), None, e))
    ensures var e := RunEnd(s, pos);
      e > pos && DecimalValue(s[pos..e]) < Limit && e < |s| && s[e] == '.' ==>
        if e + 1 < |s| && IsDigit(s[e + 1]) then
          ScanNumberFraction(s, pos)
            == Ok((DecimalValue(s[pos..e]), Some(Millionths(s[e + 1..RunEnd(s, e + 1)])), RunEnd(s, e + 1)))
        else ScanNumberFraction(s, pos) == Err(DurationInvalidNumber)
  {
    ScanNumberSpec(s, pos);
    var e := RunEnd(s, pos);
    if e > pos && DecimalValue(s[pos..e]) < Limit && e + 1 < |s| && s[e] == '.' && IsDigit(s[e + 1]) {
      ScanNumberFractionDotted(s, pos);
    }
  }

  /** Decimal rendering without leading zeros ("0" for zero). */
  function NatToString(n: nat): (r: string)
    ensures |r| >= 1 && AllDigits(r)
    ensures DecimalValue(r) == n
    ensures r[0] == '0' ==> n == 0
  {
    if n < 10 then
      assert [DigitChar(n)][..0] == [];
      [DigitChar(n)]
    else
      var prefix := NatToString(n / 10);
      DecimalValueSnoc(prefix, DigitChar(n % 10));
      prefix + [DigitChar(n % 10)]
  }

  /** Exactly `width` digits, with leading zeros. */
  function ZeroPad(n: nat, width: nat): (r: string)
    requires n < Pow10(width)
    ensures |r| == width && AllDigits(r)
    ensures DecimalValue(r) == n
  {
    if width == 0 then []
    else
      var prefix := ZeroPad(n / 10, width - 1);
      DecimalValueSnoc(prefix, DigitChar(n % 10));
      prefix + [DigitChar(n % 10)]
  }

  lemma ScaleByTen(v: nat, p: nat)
    ensures v * (10 * p) == (v * p) * 10
  {
  }

  /** Drops trailing '0' digits; the value shrinks by the dropped power of ten. */
  function StripTrailingZeros(ds: string): (r: string)
    ensures |r| <= |ds| && r == ds[..|r|]
    ensures |r| > 0 ==> r[|r| - 1] != '0'
    ensures DecimalValue(r) * Pow10(|ds| - |r|) == DecimalValue(ds)
  {
    if |ds| > 0 && ds[|ds| - 1] == '0' then
      var shorter := ds[..|ds| - 1];
      var r := StripTrailingZeros(shorter);
      assert shorter[..|r|] == ds[..|r|];
      assert DecimalValue(ds) == DecimalValue(shorter) * 10;
      ScaleByTen(DecimalValue(r), Pow10(|shorter| - |r|));
      r
    else
      ds
  }
}
