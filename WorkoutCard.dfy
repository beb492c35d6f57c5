/** The duration and calorie text of the workout card (components/WorkoutCard.tsx), with a
    reader for the duration text that states what the text denotes. */
module WorkoutCard {
  import opened Wrappers
  import opened Strings
  import opened Types
  import MockData

  /** The whole minutes of a duration and their split into hours and remaining minutes. */
  datatype DurationParts = DurationParts(minutes: int, hours: int, remainingMinutes: int)

  /** `Math.floor(duration / 60000)`, then `Math.floor(minutes / 60)` and `minutes % 60`. */
  function SplitDuration(duration: int): (p: DurationParts)
    ensures p.minutes * 60000 <= duration < p.minutes * 60000 + 60000
    ensures p.hours * 60 + p.remainingMinutes == p.minutes && 0 <= p.remainingMinutes < 60
    ensures p.hours > 0 <==> p.minutes >= 60
  {
    var minutes := duration / (60 * 1000);
    var hours := minutes / 60;
    // JavaScript's `%` truncates, so for a negative `minutes` it differs from this one; the
    // text below only shows `remainingMinutes` when `hours > 0`, where both agree.
    var remainingMinutes := minutes % 60;
    DurationParts(minutes, hours, remainingMinutes)
  }

  /** `formatDuration`; an absent duration is the default 0. Both forms end in the minute
      unit. */
  function FormatDuration(duration: Option<int>): (r: string)
    ensures r != [] && r[|r| - 1] == 'm'
  {
    var p := SplitDuration(duration.GetOr(0));
    if p.hours > 0 then IntToString(p.hours) + "h " + IntToString(p.remainingMinutes) + "m"
    else IntToString(p.minutes) + "m"
  }

  /** The `Hh Mm` form, the only one with an 'h', is printed exactly for durations of an hour
      or more. */
  lemma FormatDurationForm(duration: Option<int>)
    ensures 'h' in FormatDuration(duration) <==> duration.GetOr(0) >= 3600000
  {
    var p := SplitDuration(duration.GetOr(0));
    if p.hours > 0 {
      assert FormatDuration(duration)[|IntToString(p.hours)|] == 'h';
    } else {
      NonDigitNotInIntToString(p.minutes, 'h');
    }
  }

  /** Reads "{h}h {m}m" or "{m}m" back into a number of minutes. */
  function ParseDuration(s: string): Option<int> {
    if |s| < 2 || s[|s| - 1] != 'm' then None else ParseBody(s[..|s| - 1])
  }

  /** The text before the final 'm': either "{h}h {m}" or "{m}". */
  function ParseBody(body: string): Option<int> {
    match FindChar(body, 'h')
    case None => if AllDigits(body) then Some(DigitsValue(body)) else None
    case Some(p) => ParseHours(body[..p], body[p + 1..])
  }

  /** The hours before the 'h' and the " {m}" after it. */
  function ParseHours(hs: string, rest: string): Option<int> {
    if hs != [] && AllDigits(hs) && |rest| >= 2 && rest[0] == ' ' && AllDigits(rest[1..])
    then Some(DigitsValue(hs) * 60 + DigitsValue(rest[1..]))
    else None
  }

  lemma ParseSuffix(body: string)
    requires body != []
    ensures ParseDuration(body + "m") == ParseBody(body)
  {
    var s := body + "m";
    assert s[..|s| - 1] == body;
  }

  lemma ParseBodyAt(body: string, p: nat)
    requires FindChar(body, 'h') == Some(p)
    ensures ParseBody(body) == ParseHours(body[..p], body[p + 1..])
  {
  }

  lemma ParseHoursSpace(hs: string, ms: string)
    requires hs != [] && AllDigits(hs) && ms != [] && AllDigits(ms)
    ensures ParseHours(hs, [' '] + ms) == Some(DigitsValue(hs) * 60 + DigitsValue(ms))
  {
    assert ([' '] + ms)[1..] == ms;
  }

  lemma ParseHoursBody(hs: string, ms: string)
    requires hs != [] && AllDigits(hs) && ms != [] && AllDigits(ms)
    ensures ParseBody(hs + ['h'] + ([' '] + ms)) == Some(DigitsValue(hs) * 60 + DigitsValue(ms))
  {
    var rest := [' '] + ms;
    FindCharAfterDigits(hs, 'h', rest);
    ParseBodyAt(hs + ['h'] + rest, |hs|);
    SplitAround(hs, 'h', rest);
    ParseHoursSpace(hs, ms);
  }

  lemma ParseHoursAndMinutes(hs: string, ms: string)
    requires hs != [] && AllDigits(hs) && ms != [] && AllDigits(ms)
    ensures ParseDuration(hs + "h " + ms + "m") == Some(DigitsValue(hs) * 60 + DigitsValue(ms))
  {
    var body := hs + ['h'] + ([' '] + ms);
    assert hs + "h " + ms + "m" == body + "m";
    ParseSuffix(body);
    ParseHoursBody(hs, ms);
  }

  lemma ParseMinutes(ms: string)
    requires ms != [] && AllDigits(ms)
    ensures ParseDuration(ms + "m") == Some(DigitsValue(ms))
  {
    ParseSuffix(ms);
    assert 'h' !in ms;
  }

  /** The text of a non-negative duration denotes exactly its whole minutes. */
  lemma FormatDurationRoundTrip(duration: Option<int>)
    requires duration.GetOr(0) >= 0
    ensures ParseDuration(FormatDuration(duration)) == Some(duration.GetOr(0) / 60000)
  {
    var p := SplitDuration(duration.GetOr(0));
    if p.hours > 0 {
      assert FormatDuration(duration) == NatToString(p.hours) + "h " + NatToString(p.remainingMinutes) + "m";
      ParseHoursAndMinutes(NatToString(p.hours), NatToString(p.remainingMinutes));
      DigitsValueOfNatToString(p.hours);
      DigitsValueOfNatToString(p.remainingMinutes);
    } else {
      assert FormatDuration(duration) == NatToString(p.minutes) + "m";
      ParseMinutes(NatToString(p.minutes));
      DigitsValueOfNatToString(p.minutes);
    }
  }

  /** Whatever digit runs the `Hh Mm` form is read as, the hours are the positive whole hours
      and the minute field is the remainder, below 60. */
  lemma FormatDurationFields(duration: Option<int>, hs: string, ms: string)
    requires hs != [] && AllDigits(hs) && ms != [] && AllDigits(ms)
    requires FormatDuration(duration) == hs + "h " + ms + "m"
    ensures DigitsValue(hs) == SplitDuration(duration.GetOr(0)).hours > 0
    ensures DigitsValue(ms) == SplitDuration(duration.GetOr(0)).remainingMinutes < 60
  {
    var p := SplitDuration(duration.GetOr(0));
    var s := hs + "h " + ms + "m";
    assert s[|hs|] == 'h';
    var hours, minutes := NatToString(p.hours), NatToString(p.remainingMinutes);
    var tail, tail' := [' '] + ms + "m", [' '] + minutes + "m";
    assert s == hs + ['h'] + tail;
    assert s == hours + ['h'] + tail';
    FindCharAfterDigits(hs, 'h', tail);
    FindCharAfterDigits(hours, 'h', tail');
    SplitAround(hs, 'h', tail);
    SplitAround(hours, 'h', tail');
    assert tail[1..|tail| - 1] == ms;
    assert tail'[1..|tail'| - 1] == minutes;
    DigitsValueOfNatToString(p.hours);
    DigitsValueOfNatToString(p.remainingMinutes);
  }

  lemma MissingDuration()
    ensures FormatDuration(None) == "0m"
  {
  }

  /** The three fixture workouts read "1h 0m", "2h 0m" and "45m". */
  lemma FixtureDurations(now: int)
    ensures FormatDuration(MockData.WorkoutsFixture(now)[0].duration) == "1h 0m"
    ensures FormatDuration(MockData.WorkoutsFixture(now)[1].duration) == "2h 0m"
    ensures FormatDuration(MockData.WorkoutsFixture(now)[2].duration) == "45m"
  {
    assert NatToString(45) == "45";
  }

  /** `workout.calories || 0`: an absent calorie count, like a zero one, shows 0. */
  function CaloriesShown(calories: Option<int>): (c: int)
    ensures c == calories.GetOr(0)
  {
    if calories.None? || calories.value == 0 then 0 else calories.value
  }
}
