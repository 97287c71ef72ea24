/** The formatter's partner: parsing what the formatter writes gives back the
    same normalised duration. */
module RoundTrip {
  import opened Errors
  import opened Numeric
  import opened Durations
  import opened Formatter
  import opened Parser
  import opened Reading
  import D = Designator

  /** The designator text of one component: a number, an optional fraction
      after '.', and a unit letter. */
  function ComponentText(digits: string, fraction: string, unit: char): string {
    digits + (if fraction == [] then "" else "." + fraction) + [unit]
  }

  /** The string `c` appears in `s` starting at `pos`, one character at a time. */
  predicate PlacedAt(s: string, pos: nat, c: string)
    ensures PlacedAt(s, pos, c) ==> pos + |c| <= |s|
    decreases |c|
  {
    if c == [] then pos <= |s|
    else pos < |s| && s[pos] == c[0] && PlacedAt(s, pos + 1, c[1..])
  }

  /** Being placed is the same as being the matching slice. */
  lemma {:induction false} PlacedAtSlice(s: string, pos: nat, c: string)
    ensures PlacedAt(s, pos, c) <==> pos + |c| <= |s| && s[pos..pos + |c|] == c
    decreases |c|
  {
    if c != [] {
      PlacedAtSlice(s, pos + 1, c[1..]);
      if pos + |c| <= |s| {
        var w := s[pos..pos + |c|];
        assert w[0] == s[pos] && w[1..] == s[pos + 1..pos + |c|];
        assert w == [w[0]] + w[1..] && c == [c[0]] + c[1..];
      }
    }
  }

  /** Any part of a placed piece is placed at the corresponding offset. */
  lemma PlacedPart(s: string, pos: nat, c: string, i: nat, j: nat)
    requires PlacedAt(s, pos, c) && i <= j <= |c|
    ensures PlacedAt(s, pos + i, c[i..j])
    ensures i < |c| ==> s[pos + i] == c[i]
  {
    PlacedAtSlice(s, pos, c);
    PlacedAtSlice(s, pos + i, c[i..j]);
    forall k | 0 <= k < j - i
      ensures s[pos + i..pos + j][k] == c[i..j][k]
    {
      assert s[pos + i..pos + j][k] == s[pos + i + k];
      assert c[i..j][k] == c[i + k] == s[pos..pos + |c|][i + k];
    }
    assert s[pos + i..pos + j] == c[i..j];
    if i < |c| {
      assert s[pos + i] == s[pos..pos + |c|][i];
    }
  }

  /** The middle of a concatenation is placed after its first part. */
  lemma PlacedMiddle(a: string, b: string, c: string)
    ensures PlacedAt(a + b + c, |a|, b)
  {
    PlacedAtSlice(a + b + c, |a|, b);
    assert (a + b + c)[|a|..|a| + |b|] == b;
  }

  /** A digit run written at `pos` and not followed by another digit ends the
      maximal run there. */
  lemma {:induction false} RunEndAt(s: string, pos: nat, ds: string)
    requires AllDigits(ds) && PlacedAt(s, pos, ds)
    requires pos + |ds| == |s| || !IsDigit(s[pos + |ds|])
    ensures RunEnd(s, pos) == pos + |ds|
    decreases |ds|
  {
    if |ds| > 0 {
      assert AllDigits(ds[1..]) by {
        forall i | 0 <= i < |ds[1..]| ensures IsDigit(ds[1..][i]) {
          assert ds[1..][i] == ds[i + 1];
        }
      }
      RunEndAt(s, pos + 1, ds[1..]);
    }
  }

  /** A digit run that the 32-bit accumulator accepts. */
  predicate Numeral(ds: string) {
    |ds| > 0 && AllDigits(ds) && DecimalValue(ds) < Limit
  }

  /** Scanning an integer placed at `pos` and followed by a unit letter. */
  lemma ScanIntegerAt(s: string, pos: nat, ds: string)
    requires Numeral(ds) && PlacedAt(s, pos, ds)
    requires var e := pos + |ds|; e < |s| && !IsDigit(s[e]) && s[e] != '.'
    ensures ScanNumberFraction(s, pos) == Ok((DecimalValue(ds), None, pos + |ds|))
  {
    RunEndAt(s, pos, ds);
    PlacedAtSlice(s, pos, ds);
    ScanNumberFractionPlain(s, pos);
  }

  /** Where the two digit runs of "digits.fraction" end. */
  lemma FractionalRuns(s: string, pos: nat, ds: string, fraction: string)
    requires AllDigits(ds) && AllDigits(fraction) && |fraction| > 0
    requires var e := pos + |ds|;
      && PlacedAt(s, pos, ds) && e < |s| && s[e] == '.'
      && PlacedAt(s, e + 1, fraction) && e + 1 + |fraction| < |s| && !IsDigit(s[e + 1 + |fraction|])
    ensures var e := pos + |ds|;
      RunEnd(s, pos) == e && RunEnd(s, e + 1) == e + 1 + |fraction| && IsDigit(s[e + 1])
  {
    var e := pos + |ds|;
    RunEndAt(s, pos, ds);
    PlacedPart(s, e + 1, fraction, 0, |fraction|);
    RunEndAt(s, e + 1, fraction);
  }

  /** Scanning "digits.fraction" placed at `pos` and followed by a non-digit. */
  lemma ScanFractionalAt(s: string, pos: nat, ds: string, fraction: string)
    requires Numeral(ds) && AllDigits(fraction) && |fraction| > 0
    requires var e := pos + |ds|;
      && PlacedAt(s, pos, ds) && e < |s| && s[e] == '.'
      && PlacedAt(s, e + 1, fraction) && e + 1 + |fraction| < |s| && !IsDigit(s[e + 1 + |fraction|])
    ensures ScanNumberFraction(s, pos)
      == Ok((DecimalValue(ds), Some(Millionths(fraction)), pos + |ds| + 1 + |fraction|))
  {
    FractionalRuns(s, pos, ds, fraction);
    PlacedAtSlice(s, pos, ds);
    PlacedAtSlice(s, pos + |ds| + 1, fraction);
    ScanNumberFractionDotted(s, pos);
  }

  /** The number of an integer component placed at `pos` scans as its digits. */
  lemma ScanIntegerComponent(s: string, pos: nat, ds: string, unit: char)
    requires Numeral(ds) && !IsDigit(unit) && unit != '.'
    requires PlacedAt(s, pos, ComponentText(ds, "", unit))
    ensures pos + |ds| < |s| && s[pos + |ds|] == unit
    ensures ScanNumberFraction(s, pos) == Ok((DecimalValue(ds), None, pos + |ds|))
  {
    var c := ComponentText(ds, "", unit);
    assert c == ds + [unit];
    assert c[..|ds|] == ds;
    PlacedPart(s, pos, c, 0, |ds|);
    PlacedPart(s, pos, c, |ds|, |c|);
    ScanIntegerAt(s, pos, ds);
  }

  /** The layout of a fractional component placed at `pos`. */
  lemma FractionComponentLayout(s: string, pos: nat, ds: string, fraction: string, unit: char)
    requires PlacedAt(s, pos, ComponentText(ds, fraction, unit)) && |fraction| > 0
    ensures var e := pos + |ds|;
      && PlacedAt(s, pos, ds) && e < |s| && s[e] == '.'
      && PlacedAt(s, e + 1, fraction) && e + 1 + |fraction| < |s| && s[e + 1 + |fraction|] == unit
  {
    var c := ComponentText(ds, fraction, unit);
    var e := |ds|;
    var g := e + 1 + |fraction|;
    assert c == ds + "." + fraction + [unit];
    assert c[..e] == ds && c[e] == '.' && c[e + 1..g] == fraction && c[g] == unit;
    PlacedPart(s, pos, c, 0, e);
    PlacedPart(s, pos, c, e, |c|);
    PlacedPart(s, pos, c, e + 1, g);
    PlacedPart(s, pos, c, g, |c|);
  }

  /** The number of a fractional component placed at `pos` scans as its digits
      and the millionths of its fraction. */
  lemma ScanFractionComponent(s: string, pos: nat, ds: string, fraction: string, unit: char)
    requires Numeral(ds) && AllDigits(fraction) && |fraction| > 0 && !IsDigit(unit)
    requires PlacedAt(s, pos, ComponentText(ds, fraction, unit))
    ensures pos + |ds| + 1 + |fraction| < |s| && s[pos + |ds| + 1 + |fraction|] == unit
    ensures ScanNumberFraction(s, pos)
      == Ok((DecimalValue(ds), Some(Millionths(fraction)), pos + |ds| + 1 + |fraction|))
  {
    FractionComponentLayout(s, pos, ds, fraction, unit);
    ScanFractionalAt(s, pos, ds, fraction);
  }

  /** An integer component placed at `pos` is a component there. */
  lemma IntegerComponentScan(s: string, pos: nat, ds: string, unit: char)
    requires Numeral(ds) && !IsDigit(unit) && unit != '.'
    requires PlacedAt(s, pos, ComponentText(ds, "", unit))
    ensures ComponentAt(s, pos, DecimalValue(ds), None, unit, pos + |ds| + 1)
  {
    ScanIntegerComponent(s, pos, ds, unit);
    PlacedPart(s, pos, ComponentText(ds, "", unit), 0, 1);
    assert ComponentText(ds, "", unit)[0] == ds[0];
  }

  /** A fractional component placed at `pos` is a component there. */
  lemma FractionComponentScan(s: string, pos: nat, ds: string, fraction: string, unit: char)
    requires Numeral(ds) && AllDigits(fraction) && |fraction| > 0 && !IsDigit(unit)
    requires PlacedAt(s, pos, ComponentText(ds, fraction, unit))
    ensures ComponentAt(s, pos, DecimalValue(ds), Some(Millionths(fraction)), unit, pos + |ds| + |fraction| + 2)
  {
    ScanFractionComponent(s, pos, ds, fraction, unit);
    PlacedPart(s, pos, ComponentText(ds, fraction, unit), 0, 1);
    assert ComponentText(ds, fraction, unit)[0] == ds[0];
  }

  /** A date piece of the body: empty for a zero count, otherwise the count's
      digits and the unit letter. */
  predicate DatePiece(piece: string, ds: string, n: nat, unit: char) {
    if n == 0 then piece == ""
    else Numeral(ds) && DecimalValue(ds) == n && piece == ComponentText(ds, "", unit)
  }

  /** The time piece of the body: empty when there is no time, otherwise "T",
      the seconds' digits, a fraction exactly when there are microseconds,
      and 'S'. */
  predicate TimePiece(piece: string, ds: string, fraction: string, second: nat, microsecond: nat) {
    if second == 0 && microsecond == 0 then piece == ""
    else && Numeral(ds) && DecimalValue(ds) == second && AllDigits(fraction)
         && (if microsecond == 0 then fraction == [] else |fraction| > 0 && Millionths(fraction) == microsecond)
         && piece == "T" + ComponentText(ds, fraction, 'S')
  }

  /** A placed date piece is read as one. */
  lemma DatePieceScan(s: string, pos: nat, piece: string, ds: string, n: U32, unit: char)
    requires DatePiece(piece, ds, n, unit) && PlacedAt(s, pos, piece)
    requires !IsDigit(unit) && unit != '.'
    ensures DateStepOpt(s, pos, n, unit, pos + |piece|)
  {
    if n > 0 {
      IntegerComponentScan(s, pos, ds, unit);
    }
  }

  /** A placed time piece that ends the input is read as one. */
  lemma TimePieceScan(s: string, pos: nat, piece: string, ds: string, fraction: string,
                      second: U32, microsecond: nat)
    requires TimePiece(piece, ds, fraction, second, microsecond)
    requires PlacedAt(s, pos, piece) && pos + |piece| == |s|
    ensures TimeStepOpt(s, pos, second, microsecond)
  {
    if second > 0 || microsecond > 0 {
      var c := ComponentText(ds, fraction, 'S');
      PlacedConcat(s, pos, "T", c);
      if microsecond == 0 {
        IntegerComponentScan(s, pos + 1, ds, 'S');
      } else {
        FractionComponentScan(s, pos + 1, ds, fraction, 'S');
      }
    }
  }

  /** The formatted seconds component: its fraction digits, empty when there are
      no microseconds. */
  function SecondsFraction(d: Duration): string
    requires Valid(d)
  {
    if d.microsecond == 0 then "" else MicroFraction(d.microsecond)
  }

  /** The formatter's year part is a date piece. */
  lemma YearPiece(d: Duration)
    requires Valid(d)
    ensures DatePiece(YearPart(d), NatToString(d.day / DaysPerYear), d.day / DaysPerYear, 'Y')
  {
  }

  /** The formatter's day part is a date piece. */
  lemma DayPiece(d: Duration)
    requires Valid(d)
    ensures DatePiece(DayPart(d), NatToString(d.day % DaysPerYear), d.day % DaysPerYear, 'D')
  {
  }

  /** The formatter's time part is a time piece. */
  lemma TimePieceOf(d: Duration)
    requires Valid(d)
    ensures TimePiece(TimePart(d), NatToString(d.second), SecondsFraction(d), d.second, d.microsecond)
  {
    var ds := NatToString(d.second);
    if d.second == 0 && d.microsecond == 0 {
    } else if d.microsecond == 0 {
      assert ComponentText(ds, "", 'S') == ds + "S";
    } else {
      var f := MicroFraction(d.microsecond);
      assert TimePart(d) == "T" + ds + "." + f + "S";
      assert "T" + ds + "." + f + "S" == "T" + (ds + ("." + f) + ['S']);
    }
  }

  /** A string placed as a whole. */
  lemma PlacedWhole(s: string)
    ensures PlacedAt(s, 0, s)
  {
    PlacedAtSlice(s, 0, s);
  }

  /** A placed concatenation places both its parts. */
  lemma {:induction false} PlacedConcat(s: string, pos: nat, a: string, b: string)
    requires PlacedAt(s, pos, a + b)
    ensures PlacedAt(s, pos, a) && PlacedAt(s, pos + |a|, b)
    decreases |a|
  {
    if a == [] {
      assert a + b == b;
    } else {
      assert (a + b)[0] == a[0] && (a + b)[1..] == a[1..] + b;
      PlacedConcat(s, pos + 1, a[1..], b);
    }
  }

  /** The pieces of `a + b + c + e` are placed one after another. */
  lemma PlacedFour(t: string, a: string, b: string, c: string, e: string)
    requires t == a + b + c + e
    ensures PlacedAt(t, |a|, b) && PlacedAt(t, |a| + |b|, c) && PlacedAt(t, |a| + |b| + |c|, e)
  {
    PlacedWhole(t);
    PlacedConcat(t, 0, a + b + c, e);
    PlacedConcat(t, 0, a + b, c);
    PlacedConcat(t, 0, a, b);
  }

  /** The zero duration's body "P0D". */
  lemma ZeroBody(t: string)
    requires t == "P0D"
    ensures D.Components(t, 1, D.Start) == Ok(RawDuration(0, 0, 0))
  {
    assert DecimalValue("0") == 0 by {
      assert "0"[..0] == [];
    }
    assert PlacedAt(t, 1, ComponentText("0", "", 'D')) by {
      assert ComponentText("0", "", 'D') == "0D";
    }
    IntegerComponentScan(t, 1, "0", 'D');
    DateStep(t, 1, 0, 'D', 1, 3, D.Start);
    ComponentsAtEnd(t, D.Start.(anyComponent := true));
  }

  /** A date piece in the middle of the input is read as one. */
  lemma DatePieceIn(t: string, pre: string, piece: string, post: string, ds: string, n: U32, unit: char,
                    pos: nat, next: nat)
    requires t == pre + piece + post
    requires !IsDigit(unit) && unit != '.'
    requires pos == |pre| && next == pos + |piece|
    ensures DatePiece(piece, ds, n, unit) ==> DateStepOpt(t, pos, n, unit, next)
  {
    if DatePiece(piece, ds, n, unit) {
      PlacedMiddle(pre, piece, post);
      DatePieceScan(t, |pre|, piece, ds, n, unit);
    }
  }

  /** A time piece at the end of the input is read as one. */
  lemma TimePieceIn(t: string, pre: string, piece: string, ds: string, fraction: string,
                    second: U32, microsecond: nat, pos: nat)
    requires t == pre + piece && pos == |pre|
    ensures TimePiece(piece, ds, fraction, second, microsecond) ==> TimeStepOpt(t, pos, second, microsecond)
  {
    if TimePiece(piece, ds, fraction, second, microsecond) {
      PlacedMiddle(pre, piece, "");
      assert t == pre + piece + "";
      TimePieceScan(t, |pre|, piece, ds, fraction, second, microsecond);
    }
  }

  /** The year piece of a body "P" + year + day + time is read first. */
  lemma YearIn(t: string, yp: string, dp: string, tp: string, ys: string, years: U32)
    requires t == "P" + (yp + dp + tp)
    ensures DatePiece(yp, ys, years, 'Y') ==> DateStepOpt(t, 1, years, 'Y', 1 + |yp|)
  {
    assert t == "P" + yp + (dp + tp);
    DatePieceIn(t, "P", yp, dp + tp, ys, years, 'Y', 1, 1 + |yp|);
  }

  /** The day piece is read after the year piece. */
  lemma DayIn(t: string, yp: string, dp: string, tp: string, ds: string, days: U32, p1: nat, p2: nat)
    requires t == "P" + (yp + dp + tp) && p1 == 1 + |yp| && p2 == p1 + |dp|
    ensures DatePiece(dp, ds, days, 'D') ==> DateStepOpt(t, p1, days, 'D', p2)
  {
    assert t == "P" + yp + dp + tp;
    DatePieceIn(t, "P" + yp, dp, tp, ds, days, 'D', p1, p2);
  }

  /** The time piece is read after the day piece, up to the end. */
  lemma TimeIn(t: string, yp: string, dp: string, tp: string, ss: string, fraction: string,
               second: U32, microsecond: nat, p2: nat)
    requires t == "P" + (yp + dp + tp) && p2 == 1 + |yp| + |dp|
    ensures TimePiece(tp, ss, fraction, second, microsecond) ==> TimeStepOpt(t, p2, second, microsecond)
  {
    assert t == "P" + yp + dp + tp;
    TimePieceIn(t, "P" + yp + dp, tp, ss, fraction, second, microsecond, p2);
  }

  /** A body made of a year piece, a day piece and a time piece is read back
      as the counters those pieces spell. */
  lemma ReadPieces(t: string, yp: string, dp: string, tp: string, ys: string, ds: string, ss: string,
                   fraction: string, years: U32, days: U32, second: U32, microsecond: nat, day: nat)
    requires t == "P" + (yp + dp + tp)
    requires day == 365 * years + days && day < Limit && microsecond < Million
    requires years > 0 || days > 0 || second > 0 || microsecond > 0
    ensures DatePiece(yp, ys, years, 'Y') && DatePiece(dp, ds, days, 'D')
            && TimePiece(tp, ss, fraction, second, microsecond)
      ==> D.Components(t, 1, D.Start) == Ok(RawDuration(day, second, microsecond))
  {
    var p1 := 1 + |yp|;
    var p2 := p1 + |dp|;
    YearIn(t, yp, dp, tp, ys, years);
    DayIn(t, yp, dp, tp, ds, days, p1, p2);
    TimeIn(t, yp, dp, tp, ss, fraction, second, microsecond, p2);
    ReadBody(t, p1, p2, years, days, second, microsecond, day);
  }

  /** The zero duration's body is "P0D". */
  lemma ZeroRoundTrip(d: Duration)
    requires Valid(d) && YearPart(d) + DayPart(d) + TimePart(d) == ""
    ensures D.Components(Body(d), 1, D.Start) == Ok(RawDuration(d.day, d.second, d.microsecond))
  {
    assert d.day == 0 && d.second == 0 && d.microsecond == 0;
    ZeroBody(Body(d));
  }

  /** A non-zero duration's body is read piece by piece. */
  lemma NonZeroRoundTrip(d: Duration)
    requires Valid(d) && YearPart(d) + DayPart(d) + TimePart(d) != ""
    ensures D.Components(Body(d), 1, D.Start) == Ok(RawDuration(d.day, d.second, d.microsecond))
  {
    assert d.day == d.day / DaysPerYear * DaysPerYear + d.day % DaysPerYear;
    YearPiece(d);
    DayPiece(d);
    TimePieceOf(d);
    ReadPieces(Body(d), YearPart(d), DayPart(d), TimePart(d),
               NatToString(d.day / DaysPerYear), NatToString(d.day % DaysPerYear),
               NatToString(d.second), SecondsFraction(d),
               d.day / DaysPerYear, d.day % DaysPerYear, d.second, d.microsecond, d.day);
  }

  /** Reading the formatted body gives back the counters of `d`. */
  lemma BodyRoundTrip(d: Duration)
    requires Valid(d)
    ensures D.Components(Body(d), 1, D.Start) == Ok(RawDuration(d.day, d.second, d.microsecond))
  {
    if YearPart(d) + DayPart(d) + TimePart(d) == "" {
      ZeroRoundTrip(d);
    } else {
      NonZeroRoundTrip(d);
    }
  }

  /** A body starting with 'P' is read by the designator dialect and then
      normalised. */
  lemma ParseDesignator(s: string, positive: bool, t: string, raw: RawDuration)
    requires SplitSign(s) == (positive, t) && |t| > 0 && t[0] == 'P'
    requires D.Components(t, 1, D.Start) == Ok(raw)
    ensures Parse(s) == New(positive, raw.day, raw.second, raw.microsecond)
  {
  }

  /** Every normalised duration survives formatting and parsing unchanged. */
  lemma FormatThenParse(d: Duration)
    requires Valid(d)
    ensures Parse(Format(d)) == Ok(d)
  {
    var s, t := Format(d), Body(d);
    if d.positive {
      assert s == t;
    } else {
      assert s == "-" + t && s[1..] == t;
    }
    BodyRoundTrip(d);
    ParseDesignator(s, d.positive, t, RawDuration(d.day, d.second, d.microsecond));
    NewIdempotent(d);
  }
}
