/** `Duration::parse_str`: the optional sign, the choice of dialect, and the
    final normalisation. */
module Parser {
  import opened Errors
  import opened Numeric
  import opened Durations
  import Designator
  import Clock
  import DayWord

  predicate IsAsciiLetter(c: char) {
    'a' <= c <= 'z' || 'A' <= c <= 'Z'
  }

  /** True when a ':' occurs in `t[i..]` before any ASCII letter: the clock
      dialect is meant. */
  function ColonBeforeLetter(t: string, i: nat): (b: bool)
    requires i <= |t|
    ensures b ==> exists k :: i <= k < |t| && t[k] == ':'
    decreases |t| - i
  {
    if i == |t| then false
    else if t[i] == ':' then true
    else if IsAsciiLetter(t[i]) then false
    else ColonBeforeLetter(t, i + 1)
  }

  /** The dialect test, stated without recursion: some ':' comes before every
      ASCII letter from `i` on. */
  lemma {:induction false} ColonBeforeLetterSpec(t: string, i: nat)
    requires i <= |t|
    ensures ColonBeforeLetter(t, i) <==>
      exists k :: i <= k < |t| && t[k] == ':' && forall j :: i <= j < k ==> !IsAsciiLetter(t[j])
    decreases |t| - i
  {
    if i < |t| {
      if t[i] == ':' {
        assert i <= i < |t| && t[i] == ':';
      } else if IsAsciiLetter(t[i]) {
        forall k | i <= k < |t| && t[k] == ':'
          ensures exists j :: i <= j < k && IsAsciiLetter(t[j])
        {
          assert i < k;
        }
      } else {
        ColonBeforeLetterSpec(t, i + 1);
        if ColonBeforeLetter(t, i + 1) {
          var k :| i + 1 <= k < |t| && t[k] == ':' && forall j :: i + 1 <= j < k ==> !IsAsciiLetter(t[j]);
          assert forall j :: i <= j < k ==> !IsAsciiLetter(t[j]);
        } else {
          forall k | i <= k < |t| && t[k] == ':'
            ensures exists j :: i <= j < k && IsAsciiLetter(t[j])
          {
            assert i + 1 <= k;
          }
        }
      }
    }
  }

  /** The input after its sign, dispatched to one dialect. */
  function ParseBody(t: string): (r: Result<RawDuration>)
    requires |t| > 0
    ensures t[0] != 'P' && ColonBeforeLetter(t, 0) && r.Ok? ==> r.value.day == 0 && r.value.microsecond < Million
  {
    if t[0] == 'P' then Designator.Components(t, 1, Designator.Start)
    else if ColonBeforeLetter(t, 0) then
      var (second, microsecond) :- Clock.ParseClock(t, 0);
      Ok(RawDuration(0, second, microsecond))
    else DayWord.ParseDays(t, 0)
  }

  /** The sign and the rest of the input: '+' and '-' are consumed, no sign
      means positive. */
  function SplitSign(s: string): (r: (bool, string))
    ensures |r.1| <= |s| && r.1 == s[|s| - |r.1|..]
  {
    if |s| > 0 && s[0] == '+' then (true, s[1..])
    else if |s| > 0 && s[0] == '-' then (false, s[1..])
    else (true, s)
  }

  /** Parses any of the three dialects. Nothing after the sign is TooShort; the
      counters a dialect produces go through the normalising constructor, so a
      success is always normalised and carries the input's sign. */
  function Parse(s: string): (r: Result<Duration>)
    ensures r.Ok? ==> Valid(r.value)
    ensures r.Ok? ==> r.value.positive == !(|s| > 0 && s[0] == '-')
    ensures s == [] ==> r == Err(TooShort)
  {
    var (positive, body) := SplitSign(s);
    if body == [] then
      Err(TooShort)
    else
      var raw :- ParseBody(body);
      New(positive, raw.day, raw.second, raw.microsecond)
  }
}
