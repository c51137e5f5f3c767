/** The clock's notion of time (sources/time_data.py): a weekday name, an
    hour and a minute count, with formatting, equality and the forward
    distance `seconds_to` used to schedule the alarm. */
module TimeData {
  import opened Wrappers
  import opened PyBuiltins

  /** `days_of_the_week`, in the order `next_day` cycles through. */
  const DaysOfTheWeek: seq<string> :=
    ["Monday", "Tuesday", "Wednesday", "Thursday", "Friday", "Saturday", "Sunday"]

  const MinutesPerDay: int := 1440
  const MinutesPerWeek: int := 10080
  const SecondsPerDay: int := 86400

  /** The value held by a `Time` object. The day is the raw string the
      object was given: `set_day` accepts any string, so nothing forces it
      to be one of `DaysOfTheWeek`. */
  datatype TimeValue = TimeValue(day: string := "Monday", hour: int := 0, minutes: int := 0)

  /** The right-hand side of `==`: another `Time`, or any other object. */
  datatype Operand = TimeArg(value: TimeValue) | OtherArg

  predicate InRange(t: TimeValue) { 0 <= t.hour <= 23 && 0 <= t.minutes <= 59 }

  /** A day `list.index` finds in `DaysOfTheWeek`; `IndexOfFound` shows
      these are exactly its members. */
  predicate IsWeekday(day: string) { IndexOf(DaysOfTheWeek, day).Some? }

  /** A time whose day `next_day` accepts and whose fields are in range. */
  predicate ValidTime(t: TimeValue) { IsWeekday(t.day) && InRange(t) }

  lemma DaysOfTheWeekDistinct()
    ensures |DaysOfTheWeek| == 7 && NoDuplicates(DaysOfTheWeek)
  {
  }

  // ---------------------------------------------------------------------
  // format, __str__, __eq__ / __ne__ / equals
  // ---------------------------------------------------------------------

  /** One field of `format`: a "0" prefix below ten, `str` otherwise. */
  function Padded(n: int): string
  {
    if n < 10 then "0" + IntToString(n) else IntToString(n)
  }

  /** `format`: "HH:MM". */
  function Format(t: TimeValue): string
  {
    Padded(t.hour) + ":" + Padded(t.minutes)
  }

  /** The two decimal digits of a number below one hundred. */
  function TwoDigits(n: int): (s: string)
    requires 0 <= n <= 99
    ensures |s| == 2 && AllDigits(s)
    ensures DigitValue(s[0]) * 10 + DigitValue(s[1]) == n
  {
    [DigitChar(n / 10), DigitChar(n % 10)]
  }

  lemma PaddedTwoDigits(n: int)
    requires 0 <= n <= 99
    ensures Padded(n) == TwoDigits(n)
  {
    if n >= 10 {
      assert NatToString(n) == NatToString(n / 10) + [DigitChar(n % 10)];
    }
  }

  /** A two-digit field parses back to its number. */
  lemma TwoDigitsParse(n: int)
    requires 0 <= n <= 99
    ensures ParseInt(TwoDigits(n)) == Some(n)
  {
    var s := TwoDigits(n);
    ParseTwoDigits(s[0], s[1]);
    assert [s[0], s[1]] == s;
  }

  /** For an in-range time `format` gives five characters "HH:MM",
      zero-padded, and each field reads back as the hour and the minutes. */
  lemma FormatInRange(t: TimeValue)
    requires InRange(t)
    ensures Format(t) == TwoDigits(t.hour) + ":" + TwoDigits(t.minutes)
    ensures |Format(t)| == 5 && Format(t)[2] == ':'
    ensures ParseInt(Format(t)[..2]) == Some(t.hour)
    ensures ParseInt(Format(t)[3..]) == Some(t.minutes)
  {
    PaddedTwoDigits(t.hour);
    PaddedTwoDigits(t.minutes);
    var s := Format(t);
    assert s[..2] == TwoDigits(t.hour);
    assert s[3..] == TwoDigits(t.minutes);
    TwoDigitsParse(t.hour);
    TwoDigitsParse(t.minutes);
  }

  /** `__str__`: the day, a comma and a space, then `format`. */
  function Str(t: TimeValue): string
  {
    t.day + ", " + Format(t)
  }

  lemma StrLayout(t: TimeValue)
    requires InRange(t)
    ensures |Str(t)| == |t.day| + 7
    ensures Str(t)[..|t.day|] == t.day
    ensures Str(t)[|t.day|..|t.day| + 2] == ", "
    ensures Str(t)[|t.day| + 2..] == TwoDigits(t.hour) + ":" + TwoDigits(t.minutes)
  {
    FormatInRange(t);
    var s := Str(t);
    assert s[..|t.day|] == t.day;
    assert s[|t.day|..|t.day| + 2] == ", ";
    assert s[|t.day| + 2..] == Format(t);
  }

  /** `__eq__`: false for anything that is not a `Time`, otherwise the day,
      the hour and the minutes must all match. */
  function Eq(t: TimeValue, other: Operand): (r: bool)
    ensures r <==> other == TimeArg(t)
  {
    if !other.TimeArg? then false
    else if t.day != other.value.day then false
    else t.hour == other.value.hour && t.minutes == other.value.minutes
  }

  /** `__ne__`: the negation of `__eq__`. */
  function Ne(t: TimeValue, other: Operand): (r: bool)
    ensures r <==> other != TimeArg(t)
  {
    !Eq(t, other)
  }

  /** `equals`: an explicit call of `__eq__`. */
  function Equals(t: TimeValue, other: Operand): (r: bool)
    ensures r <==> other == TimeArg(t)
  {
    Eq(t, other)
  }

  // ---------------------------------------------------------------------
  // seconds_to
  // ---------------------------------------------------------------------

  function MinuteOfDay(t: TimeValue): int { t.hour * 60 + t.minutes }

  /** The forward distance on the 24-hour ring, in seconds, from `t` to the
      time of day of `o`: the reference `seconds_to` is compared against. */
  function ForwardSeconds(t: TimeValue, o: TimeValue): (s: int)
    ensures 0 <= s < SecondsPerDay && s % 60 == 0
    ensures InRange(t) && InRange(o) ==> (MinuteOfDay(t) + s / 60) % MinutesPerDay == MinuteOfDay(o)
  {
    ((MinuteOfDay(o) - MinuteOfDay(t)) % MinutesPerDay) * 60
  }

  /** `seconds_to` as written. The adjacent-hour case `oh == sh + 1` fails
      the guard `sh < oh - 1` and falls to the last branch. */
  function SecondsTo(t: TimeValue, o: TimeValue): int
  {
    if Equals(t, TimeArg(o)) then 0
    else
      var sh, sm, oh, om := t.hour, t.minutes, o.hour, o.minutes;
      if sh == oh then
        if sm <= om then (om - sm) * 60
        else 23 * 3600 + (60 - sm + om) * 60
      else if sh < oh - 1 then 3600 * (oh - sh - 1) + (60 - sm + om) * 60
      else 3600 * (24 - sh + oh - 1) + (60 - sm + om) * 60
  }

  /** `seconds_to` with the guard the comment beside it describes
      (`sh < oh`, so that an adjacent later hour is reached the same day). */
  function SecondsToIntended(t: TimeValue, o: TimeValue): int
  {
    if Equals(t, TimeArg(o)) then 0
    else
      var sh, sm, oh, om := t.hour, t.minutes, o.hour, o.minutes;
      if sh == oh then
        if sm <= om then (om - sm) * 60
        else 23 * 3600 + (60 - sm + om) * 60
      else if sh < oh then 3600 * (oh - sh - 1) + (60 - sm + om) * 60
      else 3600 * (24 - sh + oh - 1) + (60 - sm + om) * 60
  }

  /** Equal times are zero seconds apart; within one hour the distance is
      the minute difference when the target is not earlier, and a whole day
      less that difference when it is, whatever the two days are. */
  lemma SecondsToSameHour(t: TimeValue, o: TimeValue)
    requires t.hour == o.hour
    ensures t == o ==> SecondsTo(t, o) == 0
    ensures t.minutes <= o.minutes ==> SecondsTo(t, o) == (o.minutes - t.minutes) * 60
    ensures t.minutes > o.minutes ==> SecondsTo(t, o) == SecondsPerDay - (t.minutes - o.minutes) * 60
  {
  }

  /** For in-range times `seconds_to` is the forward distance on the
      24-hour ring, except when the target hour is the next one, where it is
      a full day more. It is therefore never negative, a whole number of
      minutes, and congruent to the forward distance modulo a day. */
  lemma {:induction false} SecondsToVersusForward(t: TimeValue, o: TimeValue)
    requires InRange(t) && InRange(o)
    ensures SecondsTo(t, o) == ForwardSeconds(t, o) + (if o.hour == t.hour + 1 then SecondsPerDay else 0)
    ensures 0 <= SecondsTo(t, o) && SecondsTo(t, o) % 60 == 0
    ensures SecondsTo(t, o) % SecondsPerDay == ForwardSeconds(t, o)
    ensures SecondsTo(t, o) < SecondsPerDay <==> o.hour != t.hour + 1
  {
    var d := MinuteOfDay(o) - MinuteOfDay(t);
    assert -MinutesPerDay < d < MinutesPerDay;
    var f := ForwardSeconds(t, o);
    if d >= 0 {
      assert d % MinutesPerDay == d;
    } else {
      assert d % MinutesPerDay == d + MinutesPerDay;
    }
    assert f == (if d >= 0 then d else d + MinutesPerDay) * 60;
  }

  /** The counterexample: 22:50 to 23:10 is twenty minutes ahead, but
      `seconds_to` answers a day and twenty minutes. */
  lemma SecondsToAdjacentHourOvershoots()
    ensures ForwardSeconds(TimeValue(hour := 22, minutes := 50), TimeValue(hour := 23, minutes := 10)) == 1200
    ensures SecondsTo(TimeValue(hour := 22, minutes := 50), TimeValue(hour := 23, minutes := 10)) == 87600
  {
    SecondsToVersusForward(TimeValue(hour := 22, minutes := 50), TimeValue(hour := 23, minutes := 10));
  }

  /** The intended formula is exactly the forward distance. */
  lemma {:induction false} SecondsToIntendedIsForward(t: TimeValue, o: TimeValue)
    requires InRange(t) && InRange(o)
    ensures SecondsToIntended(t, o) == ForwardSeconds(t, o)
    ensures SecondsToIntended(t, o) == SecondsTo(t, o) - (if o.hour == t.hour + 1 then SecondsPerDay else 0)
  {
    SecondsToVersusForward(t, o);
    var d := MinuteOfDay(o) - MinuteOfDay(t);
    if d >= 0 {
      assert d % MinutesPerDay == d;
    } else {
      assert d % MinutesPerDay == d + MinutesPerDay;
    }
  }

  // ---------------------------------------------------------------------
  // next_day
  // ---------------------------------------------------------------------

  /** `next_day`: the following name in `DaysOfTheWeek`, cyclically; `None`
      stands for the `ValueError` that `list.index` raises on any other
      string. */
  function NextDay(day: string): Option<string>
  {
    match IndexOf(DaysOfTheWeek, day)
    case None => None
    case Some(i) => Some(DaysOfTheWeek[(i + 1) % 7])
  }

  /** `next_day` raises exactly on the strings that are not weekday names,
      and otherwise answers a weekday name. */
  lemma NextDayDefined(day: string)
    ensures NextDay(day).Some? <==> IsWeekday(day)
    ensures NextDay(day).Some? ==> IsWeekday(NextDay(day).value)
  {
    IndexOfFound(DaysOfTheWeek, day);
  }

  /** The position of a weekday name in `DaysOfTheWeek`. */
  function DayIndex(day: string): (i: nat)
    requires IsWeekday(day)
    ensures i < 7 && DaysOfTheWeek[i] == day
  {
    IndexOfFound(DaysOfTheWeek, day);
    IndexOf(DaysOfTheWeek, day).value
  }

  lemma DayIndexOf(i: nat)
    requires i < 7
    ensures DayIndex(DaysOfTheWeek[i]) == i
  {
    DaysOfTheWeekDistinct();
    IndexOfDistinct(DaysOfTheWeek, i);
  }

  /** Each name maps to the one after it, Sunday wrapping round to Monday. */
  lemma NextDaySuccessor(i: nat)
    requires i < 7
    ensures NextDay(DaysOfTheWeek[i]) == Some(DaysOfTheWeek[(i + 1) % 7])
  {
    DaysOfTheWeekDistinct();
    IndexOfDistinct(DaysOfTheWeek, i);
  }

  /** `n` successive calls of `next_day`, failing at the first one that
      raises. */
  function NextDayN(day: string, n: nat): Option<string>
  {
    if n == 0 then Some(day)
    else match NextDayN(day, n - 1)
      case None => None
      case Some(d) => NextDay(d)
  }

  /** The index `n` places after `i` round the week, one step at a time. */
  function Rotate(i: nat, n: nat): (r: nat)
    requires i < 7
    ensures r < 7
  {
    if n == 0 then i else (Rotate(i, n - 1) + 1) % 7
  }

  /** The stepwise rotation is addition modulo seven. */
  lemma {:induction false} RotateClosedForm(i: nat, n: nat)
    requires i < 7
    ensures Rotate(i, n) == (i + n) % 7
  {
    if n > 0 {
      RotateClosedForm(i, n - 1);
      var a := i + n - 1;
      var q := a / 7;
      assert a == 7 * q + a % 7;
      if a % 7 < 6 {
        assert (a + 1) / 7 == q;
      } else {
        assert (a + 1) / 7 == q + 1;
      }
    }
  }

  /** From a weekday, `n` steps follow the rotation of its index. */
  lemma {:induction false} NextDayNRotate(day: string, i: nat, n: nat)
    requires i < 7 && day == DaysOfTheWeek[i]
    ensures NextDayN(day, n) == Some(DaysOfTheWeek[Rotate(i, n)])
  {
    if n > 0 {
      NextDayNRotate(day, i, n - 1);
      var r := Rotate(i, n - 1);
      NextDayNStep(day, n, DaysOfTheWeek[r]);
      NextDaySuccessor(r);
    }
  }

  /** One more step applies `next_day` to wherever the previous steps landed. */
  lemma NextDayNStep(day: string, n: nat, d: string)
    requires n > 0
    requires NextDayN(day, n - 1) == Some(d)
    ensures NextDayN(day, n) == NextDay(d)
  {
  }

  /** From a weekday, `n` steps land `n` places further round the week. */
  lemma NextDayNIndex(i: nat, n: nat)
    requires i < 7
    ensures NextDayN(DaysOfTheWeek[i], n) == Some(DaysOfTheWeek[(i + n) % 7])
  {
    NextDayNRotate(DaysOfTheWeek[i], i, n);
    RotateClosedForm(i, n);
  }

  /** From any other string, every positive number of steps raises. */
  lemma {:induction false} NextDayNRaises(day: string, n: nat)
    requires !IsWeekday(day)
    ensures NextDayN(day, n).None? <==> n > 0
  {
    NextDayDefined(day);
    if n > 1 {
      NextDayNRaises(day, n - 1);
    }
  }

  /** Seven applications of `next_day` are the identity on weekdays. */
  lemma SevenDaysIdentity(i: nat)
    requires i < 7
    ensures NextDayN(DaysOfTheWeek[i], 7) == Some(DaysOfTheWeek[i])
  {
    RotateClosedForm(i, 7);
    assert Rotate(i, 7) == i;
    NextDayNRotate(DaysOfTheWeek[i], i, 7);
  }

  // ---------------------------------------------------------------------
  // Minute of the week: the reference the clock bookkeeping is proved against
  // ---------------------------------------------------------------------

  function MinuteOfWeek(t: TimeValue): (w: int)
    requires ValidTime(t)
    ensures 0 <= w < MinutesPerWeek
  {
    DayIndex(t.day) * MinutesPerDay + MinuteOfDay(t)
  }

  function FromMinuteOfWeek(w: int): (t: TimeValue)
    requires 0 <= w < MinutesPerWeek
    ensures ValidTime(t) && MinuteOfWeek(t) == w
  {
    var t := TimeValue(DaysOfTheWeek[w / MinutesPerDay], (w % MinutesPerDay) / 60, w % 60);
    DayIndexOf(w / MinutesPerDay);
    assert (w % MinutesPerDay) % 60 == w % 60;
    t
  }

  lemma MinuteOfWeekInverse(t: TimeValue)
    requires ValidTime(t)
    ensures FromMinuteOfWeek(MinuteOfWeek(t)) == t
  {
    var w := MinuteOfWeek(t);
    assert w / MinutesPerDay == DayIndex(t.day);
    assert w % MinutesPerDay == MinuteOfDay(t);
  }

  // ---------------------------------------------------------------------
  // The Time object
  // ---------------------------------------------------------------------

  /** A `Time` object, whose setters overwrite its fields in place. The
      getters `day()`, `hour()` and `minutes()` are the fields themselves. */
  class Time {
    var day: string
    var hour: int
    var minutes: int

    constructor (day: string := "Monday", hour: int := 0, minutes: int := 0)
      ensures Value() == TimeValue(day, hour, minutes)
    {
      this.day := day;
      this.hour := hour;
      this.minutes := minutes;
    }

    function Value(): TimeValue
      reads this
    {
      TimeValue(day, hour, minutes)
    }

    /** `set`: copy the three fields of another `Time`. */
    method Set(other: Time)
      modifies this
      ensures Value() == old(other.Value())
    {
      var d, h, m := other.day, other.hour, other.minutes;
      day := d;
      hour := h;
      minutes := m;
    }

    /** `update`: overwrite all three fields. */
    method Update(day: string, hour: int, minutes: int)
      modifies this
      ensures Value() == TimeValue(day, hour, minutes)
    {
      this.day := day;
      this.hour := hour;
      this.minutes := minutes;
    }

    method SetDay(day: string)
      modifies this
      ensures Value() == old(Value()).(day := day)
    {
      this.day := day;
    }

    method SetHour(hour: int)
      modifies this
      ensures Value() == old(Value()).(hour := hour)
    {
      this.hour := hour;
    }

    method SetMinutes(minutes: int)
      modifies this
      ensures Value() == old(Value()).(minutes := minutes)
    {
      this.minutes := minutes;
    }
  }
}
