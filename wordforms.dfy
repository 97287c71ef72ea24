/** The written forms of the clock and day-word dialects, and what the parser
    reads each of them as: the partner of those two dialects, for every input
    of the form rather than for a few cases. */
module WordForms {
  import opened Errors
  import opened Numeric
  import opened Durations
  import opened Clock
  import opened DayWord
  import opened Parser
  import RT = RoundTrip

  /** A two-digit field. */
  function TwoDigits(n: nat): (r: string)
    requires n < 100
    ensures |r| == 2 && IsDigit(r[0]) && IsDigit(r[1]) && TwoDigitValue(r[0], r[1]) == n
  {
    [DigitChar(n / 10), DigitChar(n % 10)]
  }

  /** The optional `:SS[.fraction]` of a clock. */
  datatype SecondsField = NoSeconds | SecondsField(value: nat, fraction: string)

  /** Hours that fit the 32-bit scan, minutes and seconds below 60, fraction
      made of digits. */
  predicate ValidClock(hours: string, minute: nat, sec: SecondsField) {
    RT.Numeral(hours) && minute < SecondsPerMinute
    && (sec.SecondsField? ==> sec.value < SecondsPerMinute && AllDigits(sec.fraction))
  }

  function SecondsText(sec: SecondsField): string
    requires sec.SecondsField? ==> sec.value < SecondsPerMinute
  {
    match sec
    case NoSeconds => ""
    case SecondsField(v, f) => ":" + TwoDigits(v) + (if f == [] then "" else "." + f)
  }

  /** `H:MM[:SS[.fraction]]`. */
  function ClockText(hours: string, minute: nat, sec: SecondsField): string
    requires ValidClock(hours, minute, sec)
  {
    hours + ":" + TwoDigits(minute) + SecondsText(sec)
  }

  /** The seconds a seconds field adds. */
  function FieldSeconds(sec: SecondsField): nat {
    if sec.SecondsField? then sec.value else 0
  }

  /** h·3600 + m·60 + s. */
  function ClockTotal(hour: nat, minute: nat, second: nat): nat {
    hour * SecondsPerHour + minute * SecondsPerMinute + second
  }

  /** The whole seconds a written clock stands for. */
  function ClockSeconds(hours: string, minute: nat, sec: SecondsField): nat {
    ClockTotal(DecimalValue(hours), minute, FieldSeconds(sec))
  }

  function ClockMicroseconds(sec: SecondsField): nat {
    if sec.SecondsField? && sec.fraction != [] then Millionths(sec.fraction) else 0
  }

  /** A character that cannot continue the clock written before it. */
  predicate EndsClock(sec: SecondsField, c: char) {
    !IsDigit(c) && (sec.NoSeconds? ==> c != ':') && (sec.SecondsField? && sec.fraction == [] ==> c != '.')
  }

  /** What reading a clock gives from its total seconds and microseconds:
      anything left over is ExtraCharacters, a total past 32 bits
      DurationValueTooLarge. */
  function ClockReading(leftover: bool, total: nat, micro: nat): Result<(U32, U32)>
    requires micro < Million
  {
    if leftover then Err(ExtraCharacters)
    else if total < Limit then Ok((total, micro))
    else Err(DurationValueTooLarge)
  }

  /** What reading a written clock followed by `post` gives. */
  function ClockOutcome(hours: string, minute: nat, sec: SecondsField, post: string): Result<(U32, U32)> {
    ClockReading(post != [], ClockSeconds(hours, minute, sec), ClockMicroseconds(sec))
  }

  /** A digit run written from `pos` to `end` and followed by a non-digit
      scans as its value. */
  lemma ScanWritten(s: string, pos: nat, end: nat, ds: string)
    requires RT.Numeral(ds) && end == pos + |ds| && end < |s| && s[pos..end] == ds && !IsDigit(s[end])
    ensures ScanNumber(s, pos) == Ok((DecimalValue(ds), end))
  {
    RT.PlacedAtSlice(s, pos, ds);
    RT.RunEndAt(s, pos, ds);
    ScanNumberSpec(s, pos);
  }

  /** A fraction run written from `pos` to `end` and not followed by a digit. */
  lemma FractionWritten(s: string, pos: nat, end: nat, f: string)
    requires AllDigits(f) && end == pos + |f| && end <= |s| && s[pos..end] == f
    requires end == |s| || !IsDigit(s[end])
    ensures FractionLoop(s, pos, 0, 0) == (Millionths(f), end)
  {
    RT.PlacedAtSlice(s, pos, f);
    RT.RunEndAt(s, pos, f);
    assert s[pos..pos][..0] == [];
    FractionLoopSpec(s, pos, pos, 0, 0);
  }

  /** A text known to start at `pos` splits at `mid`, the end of its first part. */
  lemma SplitAt(s: string, pos: nat, mid: nat, a: string, b: string)
    requires pos <= |s| && s[pos..] == a + b && mid == pos + |a|
    ensures mid <= |s| && s[pos..mid] == a && s[mid..] == b
  {
    assert s[pos..mid] == s[pos..][..|a|];
    assert s[mid..] == s[pos..][|a|..];
  }

  /** The characters of a text known to start at `pos`. */
  lemma CharsAt(s: string, pos: nat, a: string, b: string)
    requires pos <= |s| && s[pos..] == a + b
    ensures pos + |a| <= |s| && forall k :: 0 <= k < |a| ==> s[pos + k] == a[k]
  {
    forall k | 0 <= k < |a| ensures s[pos + k] == a[k] {
      assert s[pos + k] == s[pos..][k];
    }
  }

  /** The seconds tail without seconds: nothing is read. */
  lemma NoSecondsTail(s: string, q: nat, post: string)
    requires q <= |s| && s[q..] == post
    requires post == [] || EndsClock(NoSeconds, post[0])
    ensures SecondsTail(s, q) == Ok((0, 0, |s| - |post|))
  {
    assert |s| - |post| == q;
    if post != [] {
      assert s[q] == post[0];
    }
  }

  /** The seconds tail `:SS` not followed by a fraction. */
  lemma WholeSecondsTail(s: string, q: nat, v: nat, post: string)
    requires v < SecondsPerMinute && q <= |s| && s[q..] == ":" + TwoDigits(v) + post
    requires post == [] || EndsClock(SecondsField(v, []), post[0])
    ensures SecondsTail(s, q) == Ok((v, 0, |s| - |post|))
  {
    var w := s[q..];
    assert |s| - |post| == q + 3;
    assert s[q] == w[0] == ':';
    assert s[q + 1] == w[1] == TwoDigits(v)[0];
    assert s[q + 2] == w[2] == TwoDigits(v)[1];
    if post != [] {
      assert s[q + 3] == w[3] == post[0];
    }
  }

  /** The seconds tail `:SS.fraction`. */
  lemma FractionalSecondsTail(s: string, q: nat, v: nat, f: string, post: string)
    requires v < SecondsPerMinute && AllDigits(f) && f != []
    requires q <= |s| && s[q..] == ":" + TwoDigits(v) + ("." + f) + post
    requires post == [] || !IsDigit(post[0])
    ensures SecondsTail(s, q) == Ok((v, Millionths(f), |s| - |post|))
  {
    var w := s[q..];
    assert |s| - |post| == q + 4 + |f|;
    assert s[q] == w[0] == ':';
    assert s[q + 1] == w[1] == TwoDigits(v)[0];
    assert s[q + 2] == w[2] == TwoDigits(v)[1];
    assert s[q + 3] == w[3] == '.';
    assert s[q + 4] == w[4] == f[0];
    assert w[4..4 + |f|] == f;
    assert s[q + 4..q + 4 + |f|] == w[4..4 + |f|];
    if post != [] {
      assert s[q + 4 + |f|] == w[4 + |f|] == post[0];
    }
    FractionWritten(s, q + 4, q + 4 + |f|, f);
  }

  /** The seconds tail of a written clock is read back as its seconds and
      microseconds, ending where `post` begins. */
  lemma SecondsTailWritten(s: string, q: nat, sec: SecondsField, post: string)
    requires sec.SecondsField? ==> sec.value < SecondsPerMinute && AllDigits(sec.fraction)
    requires q <= |s| && s[q..] == SecondsText(sec) + post
    requires post == [] || EndsClock(sec, post[0])
    ensures SecondsTail(s, q) == Ok((FieldSeconds(sec), ClockMicroseconds(sec), |s| - |post|))
  {
    match sec
    case NoSeconds =>
      NoSecondsTail(s, q, post);
      assert FieldSeconds(sec) == 0 && ClockMicroseconds(sec) == 0;
    case SecondsField(v, f) =>
      if f == [] {
        assert SecondsText(sec) + post == ":" + TwoDigits(v) + post;
        WholeSecondsTail(s, q, v, post);
        assert FieldSeconds(sec) == v && ClockMicroseconds(sec) == 0;
      } else {
        FractionalSecondsTail(s, q, v, f, post);
        assert FieldSeconds(sec) == v && ClockMicroseconds(sec) == Millionths(f);
      }
  }

  lemma ClockTextParts(hours: string, minute: nat, sec: SecondsField, post: string)
    requires ValidClock(hours, minute, sec)
    ensures ClockText(hours, minute, sec) + post
         == hours + (":" + (TwoDigits(minute) + (SecondsText(sec) + post)))
  {
  }

  /** Where the pieces of a written clock lie; the hours end at `p`. */
  lemma ClockLayout(s: string, pos: nat, p: nat, hours: string, minute: nat, sec: SecondsField, post: string)
    requires ValidClock(hours, minute, sec) && p == pos + |hours|
    requires pos <= |s| && s[pos..] == ClockText(hours, minute, sec) + post
    ensures p + 3 <= |s| && s[pos..p] == hours && s[p] == ':'
    ensures s[p + 1] == TwoDigits(minute)[0] && s[p + 2] == TwoDigits(minute)[1]
    ensures s[p + 3..] == SecondsText(sec) + post
  {
    var mm := TwoDigits(minute);
    var tail := SecondsText(sec) + post;
    ClockTextParts(hours, minute, sec, post);
    SplitAt(s, pos, p, hours, ":" + (mm + tail));
    SplitAt(s, p, p + 1, ":", mm + tail);
    CharsAt(s, p, ":", mm + tail);
    SplitAt(s, p + 1, p + 3, mm, tail);
    CharsAt(s, p + 1, mm, tail);
  }

  /** The hour and minute fields of a written clock. */
  lemma ClockHourMinute(s: string, pos: nat, p: nat, hours: string, minute: nat, sec: SecondsField, post: string)
    requires ValidClock(hours, minute, sec) && p == pos + |hours|
    requires pos <= |s| && s[pos..] == ClockText(hours, minute, sec) + post
    ensures ScanNumber(s, pos) == Ok((DecimalValue(hours), p))
    ensures p + 3 <= |s| && s[p] == ':' && IsDigit(s[p + 1]) && IsDigit(s[p + 2])
    ensures TwoDigitValue(s[p + 1], s[p + 2]) == minute
  {
    ClockLayout(s, pos, p, hours, minute, sec, post);
    ScanWritten(s, pos, p, hours);
  }

  /** The seconds field of a written clock. */
  lemma ClockSecondsField(s: string, pos: nat, p: nat, hours: string, minute: nat, sec: SecondsField, post: string)
    requires ValidClock(hours, minute, sec) && p == pos + |hours|
    requires pos <= |s| && s[pos..] == ClockText(hours, minute, sec) + post
    requires post == [] || EndsClock(sec, post[0])
    ensures p + 3 <= |s|
    ensures SecondsTail(s, p + 3) == Ok((FieldSeconds(sec), ClockMicroseconds(sec), |s| - |post|))
  {
    ClockLayout(s, pos, p, hours, minute, sec, post);
    SecondsTailWritten(s, p + 3, sec, post);
  }

  /** What the fields of a written clock scan to. */
  lemma ClockScans(s: string, pos: nat, p: nat, hours: string, minute: nat, sec: SecondsField, post: string)
    requires ValidClock(hours, minute, sec) && p == pos + |hours|
    requires pos <= |s| && s[pos..] == ClockText(hours, minute, sec) + post
    requires post == [] || EndsClock(sec, post[0])
    ensures ScanNumber(s, pos) == Ok((DecimalValue(hours), p))
    ensures p + 3 <= |s| && s[p] == ':' && IsDigit(s[p + 1]) && IsDigit(s[p + 2])
    ensures TwoDigitValue(s[p + 1], s[p + 2]) == minute
    ensures SecondsTail(s, p + 3) == Ok((FieldSeconds(sec), ClockMicroseconds(sec), |s| - |post|))
  {
    ClockHourMinute(s, pos, p, hours, minute, sec, post);
    ClockSecondsField(s, pos, p, hours, minute, sec, post);
  }

  /** The clock reading in terms of what its fields scan to. */
  lemma ClockFields(s: string, pos: nat, p: nat, hours: string, minute: nat, sec: SecondsField, post: string)
    requires pos <= |s| && |s| - pos >= MinClockLength && |post| <= |s|
    requires ScanNumber(s, pos) == Ok((DecimalValue(hours), p))
    requires p + 3 <= |s| && s[p] == ':' && IsDigit(s[p + 1]) && IsDigit(s[p + 2])
    requires TwoDigitValue(s[p + 1], s[p + 2]) == minute < SecondsPerMinute
    requires SecondsTail(s, p + 3) == Ok((FieldSeconds(sec), ClockMicroseconds(sec), |s| - |post|))
    ensures ParseClock(s, pos) == ClockOutcome(hours, minute, sec, post)
  {
  }

  /** A written clock is read back as its total seconds and microseconds; any
      leftover that cannot continue it is ExtraCharacters, a total past 32 bits
      DurationValueTooLarge. */
  lemma ClockWritten(s: string, pos: nat, hours: string, minute: nat, sec: SecondsField, post: string)
    requires ValidClock(hours, minute, sec)
    requires pos <= |s| && s[pos..] == ClockText(hours, minute, sec) + post
    requires |s| - pos >= MinClockLength
    requires post == [] || EndsClock(sec, post[0])
    ensures ParseClock(s, pos) == ClockOutcome(hours, minute, sec, post)
  {
    var p := pos + |hours|;
    ClockScans(s, pos, p, hours, minute, sec, post);
    ClockFields(s, pos, p, hours, minute, sec, post);
  }

  /** `d`, `day` or `days`, in any letter case. */
  predicate DayUnitWord(w: string) {
    (|w| == 1 || |w| == 3 || |w| == 4) && IsLetterOf(w[0], 'd')
    && (|w| >= 3 ==> IsLetterOf(w[1], 'a') && IsLetterOf(w[2], 'y'))
    && (|w| == 4 ==> IsLetterOf(w[3], 's'))
  }

  /** The separators accepted after the word. */
  predicate Separator(sep: string) {
    sep == "" || sep == "," || sep == ", " || sep == " "
  }

  /** The optional space between the number and the word. */
  function Gap(spaced: bool): string {
    if spaced then " " else ""
  }

  /** `N[ ]word[separator]`. */
  function DaysText(digits: string, spaced: bool, word: string, sep: string): string {
    digits + Gap(spaced) + word + sep
  }

  lemma DaysTextParts(digits: string, spaced: bool, word: string, sep: string, rest: string)
    ensures DaysText(digits, spaced, word, sep) + rest == digits + (Gap(spaced) + (word + (sep + rest)))
  {
  }

  /** A unit word written from `q` to `e`, before nothing, a separator or a digit. */
  lemma UnitWritten(s: string, q: nat, e: nat, word: string, rest: string)
    requires DayUnitWord(word) && e == q + |word|
    requires q <= |s| && s[q..] == word + rest
    requires rest == [] || rest[0] == ',' || rest[0] == ' ' || IsDigit(rest[0])
    ensures UnitEnd(s, q) == Ok(e)
  {
    SplitAt(s, q, e, word, rest);
    CharsAt(s, q, word, rest);
    if rest != [] {
      assert s[e] == s[e..][0];
    }
  }

  /** A separator written from `e` to `c`, before nothing or a digit. */
  lemma SeparatorWritten(s: string, e: nat, c: nat, sep: string, rest: string)
    requires Separator(sep) && c == e + |sep|
    requires e <= |s| && s[e..] == sep + rest && (rest == [] || IsDigit(rest[0]))
    ensures SeparatorEnd(s, e) == c
  {
    SplitAt(s, e, c, sep, rest);
    CharsAt(s, e, sep, rest);
    if rest != [] {
      assert s[c] == s[c..][0];
    }
  }

  /** Where the pieces of a written day count lie: the number ends at `p`, the
      word starts at `q`. */
  lemma DigitsLayout(s: string, pos: nat, p: nat, q: nat, digits: string, spaced: bool, word: string, sep: string,
                     rest: string)
    requires RT.Numeral(digits) && DayUnitWord(word)
    requires p == pos + |digits| && q == p + |Gap(spaced)|
    requires pos <= |s| && s[pos..] == DaysText(digits, spaced, word, sep) + rest
    ensures p < |s| && s[pos..p] == digits && !IsDigit(s[p]) && (s[p] == ' ') == spaced
    ensures q <= |s| && s[q..] == word + (sep + rest)
  {
    DaysTextParts(digits, spaced, word, sep, rest);
    SplitAt(s, pos, p, digits, Gap(spaced) + (word + (sep + rest)));
    SplitAt(s, p, q, Gap(spaced), word + (sep + rest));
    assert s[p] == s[p..][0];
  }

  /** What the number of a written day count scans to, and whether a space
      follows it. */
  lemma DaysNumber(s: string, pos: nat, p: nat, digits: string, spaced: bool, word: string, sep: string, rest: string)
    requires RT.Numeral(digits) && DayUnitWord(word) && p == pos + |digits|
    requires pos <= |s| && s[pos..] == DaysText(digits, spaced, word, sep) + rest
    ensures ScanNumber(s, pos) == Ok((DecimalValue(digits), p))
    ensures (p < |s| && s[p] == ' ') == spaced
  {
    DigitsLayout(s, pos, p, p + |Gap(spaced)|, digits, spaced, word, sep, rest);
    ScanWritten(s, pos, p, digits);
  }

  /** What the unit word and the separator of a written day count scan to,
      when nothing or a digit follows: the word ends at `e`, the separator at
      `c`. */
  lemma DaysWord(s: string, pos: nat, p: nat, q: nat, e: nat, c: nat,
                 digits: string, spaced: bool, word: string, sep: string, rest: string)
    requires RT.Numeral(digits) && DayUnitWord(word) && Separator(sep)
    requires p == pos + |digits| && q == p + |Gap(spaced)| && e == q + |word| && c == e + |sep|
    requires pos <= |s| && s[pos..] == DaysText(digits, spaced, word, sep) + rest
    requires rest == [] || IsDigit(rest[0])
    ensures q <= |s| && UnitEnd(s, q) == Ok(e)
    ensures e <= |s| && SeparatorEnd(s, e) == c
    ensures c <= |s| && s[c..] == rest
  {
    DigitsLayout(s, pos, p, q, digits, spaced, word, sep, rest);
    assert sep + rest == [] || (sep + rest)[0] == ',' || (sep + rest)[0] == ' ' || IsDigit((sep + rest)[0]);
    UnitWritten(s, q, e, word, sep + rest);
    SplitAt(s, q, e, word, sep + rest);
    SeparatorWritten(s, e, c, sep, rest);
    SplitAt(s, e, c, sep, rest);
  }

  /** A clock reading after `day` days. */
  function WithClock(day: U32, clock: Result<(U32, U32)>): Result<RawDuration> {
    if clock.Ok? then Ok(RawDuration(day, clock.value.0, clock.value.1)) else Err(clock.error)
  }

  /** The day-word reading in terms of what its pieces scan to: the days
      alone at the end of the input, otherwise the days and the clock after
      the separator. */
  lemma DaysFields(s: string, pos: nat, day: U32, p: nat, q: nat, e: nat, c: nat)
    requires pos <= |s| && ScanNumber(s, pos) == Ok((day, p))
    requires q == (if p < |s| && s[p] == ' ' then p + 1 else p)
    requires q <= |s| && UnitEnd(s, q) == Ok(e) && SeparatorEnd(s, e) == c
    ensures c == |s| ==> ParseDays(s, pos) == Ok(RawDuration(day, 0, 0))
    ensures c < |s| ==> ParseDays(s, pos) == WithClock(day, ParseClock(s, c))
  {
  }

  /** A written day count alone is read back as that many days. */
  lemma DaysWritten(s: string, pos: nat, digits: string, spaced: bool, word: string, sep: string)
    requires RT.Numeral(digits) && DayUnitWord(word) && Separator(sep)
    requires pos <= |s| && s[pos..] == DaysText(digits, spaced, word, sep)
    ensures ParseDays(s, pos) == Ok(RawDuration(DecimalValue(digits), 0, 0))
  {
    assert s[pos..] == DaysText(digits, spaced, word, sep) + [];
    var p := pos + |digits|;
    var q := p + |Gap(spaced)|;
    var e := q + |word|;
    var c := e + |sep|;
    DaysNumber(s, pos, p, digits, spaced, word, sep, []);
    DaysWord(s, pos, p, q, e, c, digits, spaced, word, sep, []);
    DaysFields(s, pos, DecimalValue(digits), p, q, e, c);
  }

  /** A written day count followed by a written clock is read back as those
      days and the clock's reading. */
  lemma DaysAndClockWritten(s: string, pos: nat, digits: string, spaced: bool, word: string, sep: string,
                            hours: string, minute: nat, sec: SecondsField, post: string)
    requires RT.Numeral(digits) && DayUnitWord(word) && Separator(sep) && ValidClock(hours, minute, sec)
    requires pos <= |s| && s[pos..] == DaysText(digits, spaced, word, sep) + (ClockText(hours, minute, sec) + post)
    requires |ClockText(hours, minute, sec) + post| >= MinClockLength
    requires post == [] || EndsClock(sec, post[0])
    ensures ParseDays(s, pos) == WithClock(DecimalValue(digits), ClockOutcome(hours, minute, sec, post))
  {
    var clock := ClockText(hours, minute, sec) + post;
    assert clock[0] == hours[0];
    var p := pos + |digits|;
    var q := p + |Gap(spaced)|;
    var e := q + |word|;
    var c := e + |sep|;
    DaysNumber(s, pos, p, digits, spaced, word, sep, clock);
    DaysWord(s, pos, p, q, e, c, digits, spaced, word, sep, clock);
    ClockWritten(s, c, hours, minute, sec, post);
    DaysFields(s, pos, DecimalValue(digits), p, q, e, c);
  }

  /** A sign as written before a duration: none, '+' or '-'. */
  predicate IsSign(sign: string) {
    sign == "" || sign == "+" || sign == "-"
  }

  /** The sign is split off a body that does not start with one. */
  lemma SignSplits(sign: string, t: string)
    requires IsSign(sign) && t != [] && t[0] != '+' && t[0] != '-'
    ensures SplitSign(sign + t) == (sign != "-", t)
  {
    if sign == "" {
      assert sign + t == t;
    } else {
      assert (sign + t)[0] == sign[0];
      assert (sign + t)[1..] == t;
    }
  }

  /** The counters a dialect reads, through the normalising constructor. */
  function FromRaw(positive: bool, raw: Result<RawDuration>): Result<Duration> {
    if raw.Ok? then New(positive, raw.value.day, raw.value.second, raw.value.microsecond) else Err(raw.error)
  }

  /** A signed body is parsed as its dialect reading, normalised with the sign. */
  lemma ParseSigned(sign: string, t: string)
    requires IsSign(sign) && t != [] && t[0] != '+' && t[0] != '-'
    ensures Parse(sign + t) == FromRaw(sign != "-", ParseBody(t))
  {
    SignSplits(sign, t);
  }

  /** A written clock goes to the clock dialect: a ':' comes before any letter. */
  lemma ClockDispatch(hours: string, minute: nat, sec: SecondsField)
    requires ValidClock(hours, minute, sec)
    ensures ClockText(hours, minute, sec)[0] == hours[0]
    ensures ColonBeforeLetter(ClockText(hours, minute, sec), 0)
  {
    var t := ClockText(hours, minute, sec);
    ClockTextParts(hours, minute, sec, []);
    assert t == hours + (":" + (TwoDigits(minute) + (SecondsText(sec) + [])));
    assert t[|hours|] == ':';
    assert forall j :: 0 <= j < |hours| ==> t[j] == hours[j];
    ColonBeforeLetterSpec(t, 0);
    assert 0 <= |hours| < |t| && t[|hours|] == ':';
  }

  /** A written day count goes to the day-word dialect: its unit letter comes
      before any ':'. */
  lemma DaysDispatch(digits: string, spaced: bool, word: string, sep: string, rest: string)
    requires RT.Numeral(digits) && DayUnitWord(word)
    ensures (DaysText(digits, spaced, word, sep) + rest)[0] == digits[0]
    ensures !ColonBeforeLetter(DaysText(digits, spaced, word, sep) + rest, 0)
  {
    var t := DaysText(digits, spaced, word, sep) + rest;
    var p := |digits|;
    var q := p + |Gap(spaced)|;
    assert t[0..] == t;
    DigitsLayout(t, 0, p, q, digits, spaced, word, sep, rest);
    assert t[0] == t[0..p][0];
    assert t[q] == t[q..][0] == word[0];
    forall j | 0 <= j < q ensures t[j] != ':' {
      if j < p {
        assert t[j] == t[0..p][j];
      }
    }
    ColonBeforeLetterSpec(t, 0);
    forall k | 0 <= k < |t| && t[k] == ':'
      ensures exists j :: 0 <= j < k && IsAsciiLetter(t[j])
    {
      assert q < k && IsAsciiLetter(t[q]);
    }
  }

  /** The body of a written clock is read by the clock dialect, with no days. */
  lemma ClockBody(hours: string, minute: nat, sec: SecondsField)
    requires ValidClock(hours, minute, sec) && |ClockText(hours, minute, sec)| >= MinClockLength
    ensures ParseBody(ClockText(hours, minute, sec)) == WithClock(0, ClockOutcome(hours, minute, sec, []))
  {
    var t := ClockText(hours, minute, sec);
    ClockDispatch(hours, minute, sec);
    assert t[0..] == t + [];
    ClockWritten(t, 0, hours, minute, sec, []);
  }

  /** The body of a written day count is read by the day-word dialect. */
  lemma DaysBody(digits: string, spaced: bool, word: string, sep: string)
    requires RT.Numeral(digits) && DayUnitWord(word) && Separator(sep)
    ensures ParseBody(DaysText(digits, spaced, word, sep)) == Ok(RawDuration(DecimalValue(digits), 0, 0))
  {
    var t := DaysText(digits, spaced, word, sep);
    assert t == t + [];
    DaysDispatch(digits, spaced, word, sep, []);
    assert t[0..] == t;
    DaysWritten(t, 0, digits, spaced, word, sep);
  }

  /** The body of a written day count and clock is read by the day-word
      dialect. */
  lemma DaysClockBody(digits: string, spaced: bool, word: string, sep: string,
                      hours: string, minute: nat, sec: SecondsField)
    requires RT.Numeral(digits) && DayUnitWord(word) && Separator(sep)
    requires ValidClock(hours, minute, sec) && |ClockText(hours, minute, sec)| >= MinClockLength
    ensures ParseBody(DaysText(digits, spaced, word, sep) + ClockText(hours, minute, sec))
         == WithClock(DecimalValue(digits), ClockOutcome(hours, minute, sec, []))
  {
    var clock := ClockText(hours, minute, sec);
    var t := DaysText(digits, spaced, word, sep) + clock;
    DaysDispatch(digits, spaced, word, sep, clock);
    assert t[0..] == DaysText(digits, spaced, word, sep) + (clock + []);
    DaysAndClockWritten(t, 0, digits, spaced, word, sep, hours, minute, sec, []);
  }

  /** `new` on a clock total below 2^32: whole days, the remaining seconds and
      the microseconds. */
  lemma NewClockTotal(positive: bool, total: nat, micro: nat)
    requires total < Limit && micro < Million
    ensures New(positive, 0, total, micro) == Ok(Duration(positive, total / SecondsPerDay, total % SecondsPerDay, micro))
  {
  }

  /** `new` on a day count alone: itself, or DurationDaysTooLarge past the cap. */
  lemma NewDayCount(positive: bool, day: U32)
    ensures New(positive, day, 0, 0) == if day <= MaxDays then Ok(Duration(positive, day, 0, 0)) else Err(DurationDaysTooLarge)
  {
  }

  /** A signed clock `H:MM[:SS[.fraction]]` parses to h·3600 + m·60 + s seconds
      and the fraction's microseconds, normalised into days; a total past 32
      bits is DurationValueTooLarge. */
  lemma ParseClockForm(sign: string, hours: string, minute: nat, sec: SecondsField)
    requires IsSign(sign) && ValidClock(hours, minute, sec)
    requires |ClockText(hours, minute, sec)| >= MinClockLength
    ensures ClockSeconds(hours, minute, sec) < Limit ==>
      Parse(sign + ClockText(hours, minute, sec))
        == Ok(Duration(sign != "-", ClockSeconds(hours, minute, sec) / SecondsPerDay,
                       ClockSeconds(hours, minute, sec) % SecondsPerDay, ClockMicroseconds(sec)))
    ensures ClockSeconds(hours, minute, sec) >= Limit ==>
      Parse(sign + ClockText(hours, minute, sec)) == Err(DurationValueTooLarge)
  {
    var t := ClockText(hours, minute, sec);
    ClockDispatch(hours, minute, sec);
    ParseSigned(sign, t);
    ClockBody(hours, minute, sec);
    if ClockSeconds(hours, minute, sec) < Limit {
      NewClockTotal(sign != "-", ClockSeconds(hours, minute, sec), ClockMicroseconds(sec));
    }
  }

  /** A signed clock shorter than `HH:MM` (five characters) is TooShort; the
      only such clock is a one-digit hour with a minute and no seconds. */
  lemma ShortClockForm(sign: string, hours: string, minute: nat, sec: SecondsField)
    requires IsSign(sign) && ValidClock(hours, minute, sec)
    requires |ClockText(hours, minute, sec)| < MinClockLength
    ensures |hours| == 1 && sec.NoSeconds?
    ensures Parse(sign + ClockText(hours, minute, sec)) == Err(TooShort)
  {
    var t := ClockText(hours, minute, sec);
    ClockDispatch(hours, minute, sec);
    assert IsDigit(hours[0]);
    ParseSigned(sign, t);
  }

  /** A signed day count `N[ ]day[s][,][ ]` parses to N whole days; more than
      the cap is DurationDaysTooLarge. */
  lemma ParseDaysForm(sign: string, digits: string, spaced: bool, word: string, sep: string)
    requires IsSign(sign) && RT.Numeral(digits) && DayUnitWord(word) && Separator(sep)
    ensures DecimalValue(digits) <= MaxDays ==>
      Parse(sign + DaysText(digits, spaced, word, sep)) == Ok(Duration(sign != "-", DecimalValue(digits), 0, 0))
    ensures DecimalValue(digits) > MaxDays ==>
      Parse(sign + DaysText(digits, spaced, word, sep)) == Err(DurationDaysTooLarge)
  {
    var t := DaysText(digits, spaced, word, sep);
    assert t == t + [];
    DaysDispatch(digits, spaced, word, sep, []);
    ParseSigned(sign, t);
    DaysBody(digits, spaced, word, sep);
    NewDayCount(sign != "-", DecimalValue(digits));
  }

  /** A signed day count followed by a clock parses to the days plus the
      clock's reading, normalised; a bad clock is that clock's error. */
  lemma ParseDaysClockForm(sign: string, digits: string, spaced: bool, word: string, sep: string,
                           hours: string, minute: nat, sec: SecondsField)
    requires IsSign(sign) && RT.Numeral(digits) && DayUnitWord(word) && Separator(sep)
    requires ValidClock(hours, minute, sec) && |ClockText(hours, minute, sec)| >= MinClockLength
    ensures ClockSeconds(hours, minute, sec) < Limit ==>
      Parse(sign + (DaysText(digits, spaced, word, sep) + ClockText(hours, minute, sec)))
        == New(sign != "-", DecimalValue(digits), ClockSeconds(hours, minute, sec), ClockMicroseconds(sec))
    ensures ClockSeconds(hours, minute, sec) >= Limit ==>
      Parse(sign + (DaysText(digits, spaced, word, sep) + ClockText(hours, minute, sec))) == Err(DurationValueTooLarge)
  {
    var clock := ClockText(hours, minute, sec);
    var t := DaysText(digits, spaced, word, sep) + clock;
    DaysDispatch(digits, spaced, word, sep, clock);
    ParseSigned(sign, t);
    DaysClockBody(digits, spaced, word, sep, hours, minute, sec);
  }
}
