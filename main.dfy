/** The firmware's main program (main.py): it keeps the current time
    without a real-time clock by adding up the time it has slept, fetches
    the time from the network when it wakes, and drives the alarm. */
module Firmware {
  import opened Wrappers
  import opened PyBuiltins
  import opened TimeData
  import opened Buzzers
  import opened Alarms

  // ---------------------------------------------------------------------
  // determine_time
  // ---------------------------------------------------------------------

  /** The whole days, hour and minutes `determine_time` arrives at before
      it steps the day. */
  datatype Carry = Carry(days: int, hour: int, minutes: int)

  /** Whole hours and minutes of the sleep (truncated like
      `int(s / 3600)`), added to the previous hour and minutes, then the
      minute and hour carries of its two loops. */
  function Carried(hour: int, minutes: int, seconds: int): (c: Carry)
    ensures c.hour <= 23 && c.minutes <= 59
    ensures 0 <= hour && 0 <= minutes && seconds >= 0 ==> c.days >= 0 && c.hour >= 0 && c.minutes >= 0
  {
    var sleepHours := TruncDiv(seconds, 3600);
    var sleepMinutes := TruncDiv(seconds, 60) - sleepHours * 60;
    var m0 := minutes + sleepMinutes;
    var carry := if m0 > 59 then m0 / 60 else 0;
    var h1 := hour + sleepHours + carry;
    var days := if h1 > 23 then h1 / 24 else 0;
    Carry(days, h1 - 24 * days, m0 - 60 * carry)
  }

  /** For an in-range time and a non-negative sleep, the carries keep the
      total number of minutes and bring hour and minutes back in range. */
  lemma CarriedTotal(hour: int, minutes: int, seconds: int)
    requires 0 <= hour <= 23 && 0 <= minutes <= 59 && seconds >= 0
    ensures var c := Carried(hour, minutes, seconds);
      && c.days >= 0 && 0 <= c.hour <= 23 && 0 <= c.minutes <= 59
      && MinutesPerDay * c.days + 60 * c.hour + c.minutes == 60 * hour + minutes + seconds / 60
  {
    var q := seconds / 60;
    DivMod(seconds, 3600, q / 60, (q % 60) * 60 + seconds % 60);
  }

  /** `determine_time` on values; `None` stands for the `ValueError` of
      `next_day` on a day that is not a weekday name. */
  function Advance(t: TimeValue, seconds: int): (r: Option<TimeValue>)
    ensures r.Some? ==> r.value.hour <= 23 && r.value.minutes <= 59
    ensures InRange(t) && seconds >= 0 && r.Some? ==> InRange(r.value)
  {
    var c := Carried(t.hour, t.minutes, seconds);
    match NextDayN(t.day, c.days)
    case None => None
    case Some(d) => Some(TimeValue(d, c.hour, c.minutes))
  }

  /** The two carry loops of `determine_time` end where `Carried` says,
      on the day `next_day` reached after the day carry. */
  lemma LoopsMatchCarried(t: TimeValue, seconds: int, m0: int, h0: int, carry: int, days: nat, day: string)
    requires m0 == t.minutes + (TruncDiv(seconds, 60) - TruncDiv(seconds, 3600) * 60)
    requires h0 == t.hour + TruncDiv(seconds, 3600)
    requires 0 <= carry <= (if m0 > 59 then m0 / 60 else 0) && m0 - 60 * carry <= 59
    requires days <= (if h0 + carry > 23 then (h0 + carry) / 24 else 0) && h0 + carry - 24 * days <= 23
    requires NextDayN(t.day, days) == Some(day)
    ensures Advance(t, seconds) == Some(TimeValue(day, h0 + carry - 24 * days, m0 - 60 * carry))
  {
    LoopCount(m0, 60, carry);
    LoopCount(h0 + carry, 24, days);
    assert Carried(t.hour, t.minutes, seconds) == Carry(days, h0 + carry - 24 * days, m0 - 60 * carry);
  }

  /** A loop that subtracts `n` while the value exceeds `n - 1`, run no
      more than `x / n` times, has run exactly that often when it stops. */
  lemma LoopCount(x: int, n: int, k: int)
    requires n > 0 && 0 <= k <= (if x > n - 1 then x / n else 0) && x - n * k <= n - 1
    ensures k == (if x > n - 1 then x / n else 0)
  {
    if x > n - 1 {
      DivMod(x, n, x / n, x % n);
      if k < x / n {
        MulMono(n, k + 1, x / n);
      }
    }
  }

  lemma MulMono(n: nat, a: int, b: int)
    requires a <= b
    ensures n * a <= n * b
  {
    MulNonNegative(n, b - a);
  }

  lemma DivMod(a: int, n: int, q: int, r: int)
    requires n > 0 && 0 <= r < n && a == n * q + r
    ensures a / n == q && a % n == r
  {
    var q', r' := a / n, a % n;
    assert n * (q - q') == r' - r;
    MulSmall(n, q - q');
  }

  /** A multiple of `n` strictly between `-n` and `n` is zero. */
  lemma {:induction false} MulSmall(n: int, k: int)
    requires n > 0 && -n < n * k < n
    ensures k == 0
  {
    if k > 0 {
      assert n * k == n * (k - 1) + n;
      MulNonNegative(n, k - 1);
    } else if k < 0 {
      assert n * k == -(n * (-k - 1)) - n;
      MulNonNegative(n, -k - 1);
    }
  }

  lemma MulNonNegative(n: nat, k: nat)
    ensures n * k >= 0
  {
  }

  /** Whole days of minutes fold round the week by their day count. */
  lemma WeekMod(a: nat, x: int)
    requires 0 <= x < MinutesPerDay
    ensures (MinutesPerDay * a + x) % MinutesPerWeek == MinutesPerDay * (a % 7) + x
  {
    DivMod(MinutesPerDay * a + x, MinutesPerWeek, a / 7, MinutesPerDay * (a % 7) + x);
  }

  /** From a weekday, `determine_time` lands on the day `days` further
      round the week, at the carried hour and minutes. */
  lemma AdvanceWeekday(t: TimeValue, seconds: int, i: nat)
    requires i < 7 && t.day == DaysOfTheWeek[i]
    ensures var c := Carried(t.hour, t.minutes, seconds);
      c.days >= 0 ==> Advance(t, seconds) == Some(TimeValue(DaysOfTheWeek[(i + c.days) % 7], c.hour, c.minutes))
  {
    var c := Carried(t.hour, t.minutes, seconds);
    if c.days >= 0 {
      NextDayNIndex(i, c.days);
    }
  }

  /** The minute of the week `determine_time` lands on. */
  lemma AdvanceLanding(t: TimeValue, seconds: int, r: TimeValue)
    requires ValidTime(t) && seconds >= 0
    requires var c := Carried(t.hour, t.minutes, seconds);
      r == TimeValue(DaysOfTheWeek[(DayIndex(t.day) + c.days) % 7], c.hour, c.minutes)
    ensures ValidTime(r) && MinuteOfWeek(r) == (MinuteOfWeek(t) + seconds / 60) % MinutesPerWeek
  {
    var i := DayIndex(t.day);
    var c := Carried(t.hour, t.minutes, seconds);
    CarriedTotal(t.hour, t.minutes, seconds);
    var j := (i + c.days) % 7;
    DayIndexOf(j);
    WeekMod(i + c.days, 60 * c.hour + c.minutes);
  }

  /** `determine_time` advances the minute of the week by the whole
      minutes slept, round the week, and forgets the leftover seconds. */
  lemma AdvanceMinuteOfWeek(t: TimeValue, seconds: int)
    requires ValidTime(t) && seconds >= 0
    ensures Advance(t, seconds) == Some(FromMinuteOfWeek((MinuteOfWeek(t) + seconds / 60) % MinutesPerWeek))
  {
    var i := DayIndex(t.day);
    var c := Carried(t.hour, t.minutes, seconds);
    CarriedTotal(t.hour, t.minutes, seconds);
    var r := TimeValue(DaysOfTheWeek[(i + c.days) % 7], c.hour, c.minutes);
    AdvanceWeekday(t, seconds, i);
    assert Advance(t, seconds) == Some(r);
    AdvanceLanding(t, seconds, r);
    MinuteOfWeekInverse(r);
    assert FromMinuteOfWeek((MinuteOfWeek(t) + seconds / 60) % MinutesPerWeek) == r;
  }

  /** `n` one-minute calls `determine_time(CURRENT_TIME, 60)`, stopping at
      the first that raises. */
  function Ticks(t: TimeValue, n: nat): Option<TimeValue>
  {
    if n == 0 then Some(t)
    else match Ticks(t, n - 1)
      case None => None
      case Some(c) => Advance(c, 60)
  }

  /** From a valid time, `n` one-minute ticks land `n` minutes further on,
      round the week. */
  lemma TicksMinuteOfWeek(t: TimeValue, n: nat)
    requires ValidTime(t)
    ensures Ticks(t, n) == Some(FromMinuteOfWeek((MinuteOfWeek(t) + n) % MinutesPerWeek))
  {
    TicksLanding(t, n);
    WeekAddMod(MinuteOfWeek(t), n);
    MinuteOfWeekInverse(Ticks(t, n).value);
  }

  /** `TicksMinuteOfWeek` with the landing minute named. */
  lemma TicksTo(t: TimeValue, n: nat, w: int)
    requires ValidTime(t) && w == MinuteOfWeek(t) + n
    ensures Ticks(t, n) == Some(FromMinuteOfWeek(w % MinutesPerWeek))
  {
    TicksMinuteOfWeek(t, n);
    assert (MinuteOfWeek(t) + n) % MinutesPerWeek == w % MinutesPerWeek;
  }

  /** The minute of the week after minute `w`, round the week. */
  function NextMinute(w: int): int
  {
    if w + 1 == MinutesPerWeek then 0 else w + 1
  }

  /** Minute `w` of the week moved on by `n` minutes, one at a time. */
  function WeekAdd(w: int, n: nat): int
  {
    if n == 0 then w else NextMinute(WeekAdd(w, n - 1))
  }

  /** Moving on one minute at a time is addition modulo the week. */
  lemma {:induction false} WeekAddMod(w: int, n: nat)
    requires 0 <= w < MinutesPerWeek
    ensures WeekAdd(w, n) == (w + n) % MinutesPerWeek
  {
    if n == 0 {
      DivMod(w, MinutesPerWeek, 0, w);
    } else {
      WeekAddMod(w, n - 1);
      ModSucc(w + (n - 1), w + n);
    }
  }

  /** The minute of the week the ticks land on, as a number. */
  lemma {:induction false} TicksLanding(t: TimeValue, n: nat)
    requires ValidTime(t)
    ensures Ticks(t, n).Some? && ValidTime(Ticks(t, n).value)
    ensures MinuteOfWeek(Ticks(t, n).value) == WeekAdd(MinuteOfWeek(t), n)
  {
    if n > 0 {
      TicksLanding(t, n - 1);
      TickLanding(t, n, Ticks(t, n - 1).value);
    }
  }

  /** One more tick moves the landing minute on by one, round the week. */
  lemma TickLanding(t: TimeValue, n: nat, c: TimeValue)
    requires n > 0 && ValidTime(c) && Ticks(t, n - 1) == Some(c)
    ensures Ticks(t, n).Some? && ValidTime(Ticks(t, n).value)
    ensures MinuteOfWeek(Ticks(t, n).value) == NextMinute(MinuteOfWeek(c))
  {
    TicksStep(t, n, c);
    TickNext(c);
  }

  /** A one-minute `determine_time` from a valid time reaches the next
      minute of the week. */
  lemma TickNext(c: TimeValue)
    requires ValidTime(c)
    ensures Advance(c, 60) == Some(FromMinuteOfWeek(NextMinute(MinuteOfWeek(c))))
  {
    AdvanceOneMinute(c, 60);
  }

  /** `TickNext` for any duration of one whole minute. */
  lemma AdvanceOneMinute(c: TimeValue, seconds: int)
    requires ValidTime(c) && seconds >= 0 && seconds / 60 == 1
    ensures Advance(c, seconds) == Some(FromMinuteOfWeek(NextMinute(MinuteOfWeek(c))))
  {
    AdvanceMinuteOfWeek(c, seconds);
    NextMinuteMod(MinuteOfWeek(c));
  }

  lemma NextMinuteMod(w: int)
    requires 0 <= w < MinutesPerWeek
    ensures (w + 1) % MinutesPerWeek == NextMinute(w)
  {
    if w + 1 < MinutesPerWeek {
      DivMod(w + 1, MinutesPerWeek, 0, w + 1);
    } else {
      DivMod(w + 1, MinutesPerWeek, 1, 0);
    }
  }

  lemma TicksStep(t: TimeValue, n: nat, c: TimeValue)
    requires n > 0 && Ticks(t, n - 1) == Some(c)
    ensures Ticks(t, n) == Advance(c, 60)
  {
  }

  lemma ModSucc(a: int, b: int)
    requires b == a + 1
    ensures (a % MinutesPerWeek + 1) % MinutesPerWeek == b % MinutesPerWeek
  {
    var q, w := a / MinutesPerWeek, a % MinutesPerWeek;
    if w + 1 < MinutesPerWeek {
      DivMod(a + 1, MinutesPerWeek, q, w + 1);
    } else {
      DivMod(a + 1, MinutesPerWeek, q + 1, 0);
    }
  }

  /** Once a tick has raised, every later count has raised too. */
  lemma {:induction false} TicksStopped(t: TimeValue, k: nat, n: nat)
    requires k <= n && Ticks(t, k).None?
    ensures Ticks(t, n).None?
    decreases n
  {
    if k < n {
      TicksStopped(t, k, n - 1);
    }
  }

  // ---------------------------------------------------------------------
  // show_info and my_sleep
  // ---------------------------------------------------------------------

  /** `show_info`'s split of a number of minutes into hours and minutes,
      with `int(minutes / 60)`. */
  function SplitMinutes(minutes: int): (hm: (int, int))
    ensures hm.0 * 60 + hm.1 == minutes
    ensures minutes >= 0 ==> 0 <= hm.1 < 60 && hm.0 == minutes / 60
    ensures minutes < 0 ==> -60 < hm.1 <= 0
  {
    var h := TruncDiv(minutes, 60);
    (h, minutes - h * 60)
  }

  /** The second line of `show_info`. The `Time` it formats has the
      default day. */
  function InfoLabel(minutes: int): string
  {
    var hm := SplitMinutes(minutes);
    "Alarm in " + Format(TimeValue(hour := hm.0, minutes := hm.1))
  }

  /** What the program asks the display to show, one `display.show` call
      each. */
  datatype Screen =
    | Info(now: TimeValue, minutes: int)       // show_info
    | Clock(now: TimeValue)                    // the current time alone
    | AlarmInfo(time: TimeValue, message: string)  // show_alarm
    | Notice(text: string)                     // a fixed message

  /** The list of items each screen passes to `display.show`. */
  function Lines(screen: Screen): (items: seq<string>)
    ensures 1 <= |items| <= 2
  {
    match screen
    case Info(now, minutes) => [Str(now), InfoLabel(minutes)]
    case Clock(now) => [Str(now)]
    case AlarmInfo(time, message) => [Str(time), message]
    case Notice(text) => [text]
  }

  /** For less than a day of minutes, the label reads the hours and the
      minutes as two zero-padded digits each. */
  lemma InfoLabelDigits(minutes: int)
    requires 0 <= minutes < MinutesPerDay
    ensures InfoLabel(minutes) == "Alarm in " + (TwoDigits(minutes / 60) + ":" + TwoDigits(minutes % 60))
  {
    var t := TimeValue(hour := minutes / 60, minutes := minutes % 60);
    assert SplitMinutes(minutes) == (t.hour, t.minutes);
    FormatInRange(t);
  }

  /** What a run of `my_sleep`'s loop has produced: the clock and the
      screens shown. */
  datatype Slept = Slept(clock: TimeValue, screens: seq<Screen>)

  /** The first `n` rounds of `my_sleep`'s loop over `total` minutes: show
      the minutes left, then tick a minute. */
  function Countdown(t: TimeValue, total: int, n: nat): Option<Slept>
  {
    if n == 0 then Some(Slept(t, []))
    else match Countdown(t, total, n - 1)
      case None => None
      case Some(p) =>
        match Advance(p.clock, 60)
        case None => None
        case Some(c) => Some(Slept(c, p.screens + [Info(p.clock, total - (n - 1))]))
  }

  /** The countdown's clock is the ticks' clock, and its `k`-th screen shows
      the clock after `k` ticks and `total - k` minutes to go. */
  lemma {:induction false} CountdownTicks(t: TimeValue, total: int, n: nat)
    ensures Countdown(t, total, n).Some? <==> Ticks(t, n).Some?
    ensures Countdown(t, total, n).Some? ==>
      var p := Countdown(t, total, n).value;
      && p.clock == Ticks(t, n).value
      && |p.screens| == n
      && forall k :: 0 <= k < n ==> Ticks(t, k).Some? && p.screens[k] == Info(Ticks(t, k).value, total - k)
  {
    if n > 0 {
      CountdownTicks(t, total, n - 1);
      if Countdown(t, total, n - 1).Some? {
        var p := Countdown(t, total, n - 1).value;
        assert Ticks(t, n) == Advance(p.clock, 60);
        if Advance(p.clock, 60).Some? {
          var q := Countdown(t, total, n).value;
          assert q.clock == Advance(p.clock, 60).value;
          assert q.screens == p.screens + [Info(p.clock, total - (n - 1))];
          forall k | 0 <= k < n
            ensures Ticks(t, k).Some? && q.screens[k] == Info(Ticks(t, k).value, total - k)
          {
            if k < n - 1 {
              assert q.screens[k] == p.screens[k];
            } else {
              assert q.screens[k] == Info(p.clock, total - (n - 1));
            }
          }
        }
      }
    }
  }

  /** The number of whole minutes `my_sleep` counts down: `int(s / 60)`,
      or none when that is negative. */
  function SleepMinutes(seconds: int): (n: nat)
    ensures seconds >= 0 ==> n == seconds / 60
    ensures seconds < 60 ==> n == 0
  {
    var minutes := TruncDiv(seconds, 60);
    if minutes > 0 then minutes else 0
  }

  /** `my_sleep(seconds)`: the countdown, then one more tick of a whole
      minute (not of the leftover seconds) and `show_info(0)`. */
  function Sleep(t: TimeValue, seconds: int): Option<Slept>
  {
    var minutes := TruncDiv(seconds, 60);
    match Countdown(t, minutes, SleepMinutes(seconds))
    case None => None
    case Some(p) =>
      match Advance(p.clock, 60)
      case None => None
      case Some(c) => Some(Slept(c, p.screens + [Info(c, 0)]))
  }

  /** The delays `my_sleep` waits, in milliseconds: a minute per round of
      the loop, then the leftover seconds. */
  function SleepDelays(seconds: int): seq<int>
  {
    var minutes := TruncDiv(seconds, 60);
    MinuteDelays(SleepMinutes(seconds)) + [(seconds - minutes * 60) * 1000]
  }

  /** `n` delays of a minute each. */
  function MinuteDelays(n: nat): (d: seq<int>)
    ensures |d| == n
  {
    if n == 0 then [] else MinuteDelays(n - 1) + [60 * 1000]
  }

  function Sum(s: seq<int>): int
  {
    if s == [] then 0 else Sum(s[..|s| - 1]) + s[|s| - 1]
  }

  lemma {:induction false} SumMinutes(n: nat)
    ensures Sum(MinuteDelays(n)) == n * 60 * 1000
  {
    if n > 0 {
      assert MinuteDelays(n)[..n - 1] == MinuteDelays(n - 1);
      SumMinutes(n - 1);
    }
  }

  /** `my_sleep(s)` waits `s` seconds in all, for `s >= 0`. */
  lemma SleepDelaysTotal(seconds: int)
    requires seconds >= 0
    ensures Sum(SleepDelays(seconds)) == seconds * 1000
  {
    var n := SleepMinutes(seconds);
    var d := SleepDelays(seconds);
    assert d[..|d| - 1] == MinuteDelays(n);
    SumMinutes(n);
  }

  /** `my_sleep` ticks the clock once per minute counted down, and once
      more at the end; it raises exactly when one of those ticks does. */
  lemma SleepClock(t: TimeValue, seconds: int)
    ensures Sleep(t, seconds).Some? <==> Ticks(t, SleepMinutes(seconds) + 1).Some?
    ensures Sleep(t, seconds).Some? ==> Sleep(t, seconds).value.clock == Ticks(t, SleepMinutes(seconds) + 1).value
  {
    var n := SleepMinutes(seconds);
    CountdownTicks(t, TruncDiv(seconds, 60), n);
    if Ticks(t, n).Some? {
      TicksStep(t, n + 1, Ticks(t, n).value);
    } else {
      TicksStopped(t, n, n + 1);
    }
  }

  /** The screens of `my_sleep`: one per minute counted down, showing the
      clock so far and the minutes left, then a last one showing the final
      clock and 0 minutes. */
  lemma SleepScreens(t: TimeValue, seconds: int)
    ensures Sleep(t, seconds).Some? ==>
      var n := SleepMinutes(seconds);
      var p := Sleep(t, seconds).value;
      && |p.screens| == n + 1
      && (forall k :: 0 <= k < n ==> Ticks(t, k).Some? && p.screens[k] == Info(Ticks(t, k).value, TruncDiv(seconds, 60) - k))
      && p.screens[n] == Info(p.clock, 0)
  {
    var n := SleepMinutes(seconds);
    CountdownTicks(t, TruncDiv(seconds, 60), n);
    if Sleep(t, seconds).Some? {
      var p := Countdown(t, TruncDiv(seconds, 60), n).value;
      var q := Sleep(t, seconds).value;
      assert q.screens == p.screens + [Info(q.clock, 0)];
      forall k | 0 <= k < n
        ensures Ticks(t, k).Some? && q.screens[k] == Info(Ticks(t, k).value, TruncDiv(seconds, 60) - k)
      {
        assert q.screens[k] == p.screens[k];
      }
    }
  }

  /** `my_sleep(s)` from a valid time waits exactly `s` seconds, but moves
      the clock on by `s div 60 + 1` minutes: the leftover seconds are
      counted as a whole minute. */
  lemma SleepAdvances(t: TimeValue, seconds: int, w: int)
    requires ValidTime(t) && seconds >= 0 && w == MinuteOfWeek(t) + seconds / 60 + 1
    ensures Sleep(t, seconds).Some?
    ensures Sleep(t, seconds).value.clock == FromMinuteOfWeek(w % MinutesPerWeek)
  {
    SleepClock(t, seconds);
    TicksTo(t, SleepMinutes(seconds) + 1, w);
  }

  // ---------------------------------------------------------------------
  // sleep_to_next_day
  // ---------------------------------------------------------------------

  /** The target of `sleep_to_next_day`: 23:59 on the default day. */
  const LastMinute: TimeValue := TimeValue(hour := 23, minutes := 59)

  /** `sleep_to_next_day`'s duration: `seconds_to` 23:59, plus 90 seconds. */
  function NextDaySeconds(t: TimeValue): int
  {
    SecondsTo(t, LastMinute) + 90
  }

  /** The same duration with the intended `seconds_to`. */
  function NextDaySecondsIntended(t: TimeValue): int
  {
    SecondsToIntended(t, LastMinute) + 90
  }

  /** The minute of the week that is 00:01 `k` days after the day of `t`. */
  function EarlyMinute(t: TimeValue, k: nat): int
    requires ValidTime(t)
  {
    ((DayIndex(t.day) + k) * MinutesPerDay + 1) % MinutesPerWeek
  }

  /** As written, `sleep_to_next_day` sleeps until 00:01 the next day,
      in whole minutes plus 30 seconds, except from 22:00-22:59, where
      `seconds_to` adds a day. */
  lemma NextDaySecondsValue(t: TimeValue)
    requires InRange(t)
    ensures NextDaySeconds(t) / 60 == MinutesPerDay - MinuteOfDay(t) + (if t.hour == 22 then MinutesPerDay else 0)
    ensures NextDaySeconds(t) % 60 == 30
  {
    SecondsToVersusForward(t, LastMinute);
    var d := 1439 - MinuteOfDay(t);
    DivMod(d, MinutesPerDay, 0, d);
    var extra := if t.hour == 22 then MinutesPerDay else 0;
    DivMod(NextDaySeconds(t), 60, d + extra + 1, 30);
  }

  /** With the intended `seconds_to` it always sleeps until 00:01 the next
      day. */
  lemma NextDaySecondsIntendedValue(t: TimeValue)
    requires InRange(t)
    ensures NextDaySecondsIntended(t) / 60 == MinutesPerDay - MinuteOfDay(t)
    ensures NextDaySecondsIntended(t) % 60 == 30
  {
    SecondsToIntendedIsForward(t, LastMinute);
    var d := 1439 - MinuteOfDay(t);
    DivMod(d, MinutesPerDay, 0, d);
    DivMod(NextDaySecondsIntended(t), 60, d + 1, 30);
  }

  /** The landing minute of a sleep of whole minutes that runs to the end
      of the day and `extra` days beyond. */
  lemma EarlyLanding(t: TimeValue, seconds: int, extra: nat)
    requires ValidTime(t) && seconds / 60 == MinutesPerDay - MinuteOfDay(t) + extra * MinutesPerDay
    ensures EarlyMinute(t, extra + 1) == (MinuteOfWeek(t) + seconds / 60 + 1) % MinutesPerWeek
  {
    assert MinuteOfWeek(t) + seconds / 60 + 1 == (DayIndex(t.day) + (extra + 1)) * MinutesPerDay + 1;
  }

  /** A `my_sleep` of the rest of the day and `extra` whole days, in
      whole minutes and some seconds, wakes at 00:01 `extra + 1` days on. */
  lemma SleepWakesEarly(t: TimeValue, seconds: int, extra: nat)
    requires ValidTime(t) && seconds >= 0
    requires seconds / 60 == MinutesPerDay - MinuteOfDay(t) + extra * MinutesPerDay
    ensures Sleep(t, seconds).Some?
    ensures Sleep(t, seconds).value.clock == FromMinuteOfWeek(EarlyMinute(t, extra + 1))
  {
    EarlyLanding(t, seconds, extra);
    SleepAdvances(t, seconds, MinuteOfWeek(t) + seconds / 60 + 1);
  }

  /** As written, `sleep_to_next_day` wakes at 00:01 the next day, except
      from any time between 22:00 and 22:59, where it wakes at 00:01 the
      day after next. */
  lemma SleepToNextDayLands(t: TimeValue)
    requires ValidTime(t)
    ensures Sleep(t, NextDaySeconds(t)).Some?
    ensures t.hour != 22 ==> Sleep(t, NextDaySeconds(t)).value.clock == FromMinuteOfWeek(EarlyMinute(t, 1))
    ensures t.hour == 22 ==> Sleep(t, NextDaySeconds(t)).value.clock == FromMinuteOfWeek(EarlyMinute(t, 2))
  {
    NextDaySecondsValue(t);
    SleepPastMidnight(t, NextDaySeconds(t));
  }

  /** A sleep whose whole minutes reach midnight, or the midnight after,
      as `sleep_to_next_day`'s do. */
  lemma SleepPastMidnight(t: TimeValue, seconds: int)
    requires ValidTime(t)
    requires seconds / 60 == MinutesPerDay - MinuteOfDay(t) + (if t.hour == 22 then MinutesPerDay else 0)
    ensures Sleep(t, seconds).Some?
    ensures t.hour != 22 ==> Sleep(t, seconds).value.clock == FromMinuteOfWeek(EarlyMinute(t, 1))
    ensures t.hour == 22 ==> Sleep(t, seconds).value.clock == FromMinuteOfWeek(EarlyMinute(t, 2))
  {
    if t.hour == 22 {
      assert seconds / 60 == MinutesPerDay - MinuteOfDay(t) + 1 * MinutesPerDay;
      SleepWakesEarly(t, seconds, 1);
    } else {
      assert seconds / 60 == MinutesPerDay - MinuteOfDay(t) + 0 * MinutesPerDay;
      SleepWakesEarly(t, seconds, 0);
    }
  }

  /** With the intended `seconds_to`, it always wakes at 00:01 the next day. */
  lemma SleepToNextDayIntendedLands(t: TimeValue)
    requires ValidTime(t)
    ensures Sleep(t, NextDaySecondsIntended(t)).Some?
    ensures Sleep(t, NextDaySecondsIntended(t)).value.clock == FromMinuteOfWeek(EarlyMinute(t, 1))
  {
    NextDaySecondsIntendedValue(t);
    SleepToMidnight(t, NextDaySecondsIntended(t));
  }

  /** A sleep whose whole minutes reach midnight wakes at 00:01 the next day. */
  lemma SleepToMidnight(t: TimeValue, seconds: int)
    requires ValidTime(t)
    requires seconds / 60 == MinutesPerDay - MinuteOfDay(t)
    ensures Sleep(t, seconds).Some?
    ensures Sleep(t, seconds).value.clock == FromMinuteOfWeek(EarlyMinute(t, 1))
  {
    assert seconds / 60 == MinutesPerDay - MinuteOfDay(t) + 0 * MinutesPerDay;
    SleepWakesEarly(t, seconds, 0);
  }

  // ---------------------------------------------------------------------
  // retrieve_time
  // ---------------------------------------------------------------------

  /** One request for the time: it raised inside the `try`, or it answered
      with the "currentDateTime" and "dayOfTheWeek" strings. */
  datatype Attempt = Failed | Fetched(dateTime: string, dayOfWeek: string)

  /** How `retrieve_time` ends: with a time, in `error(message)`, which
      loops forever, or with an exception from `int` that escapes it. */
  datatype Retrieval = Synced(time: TimeValue) | Halted(message: string) | Crashed

  const NoInternet: string := "NO INTERNET!"
  const CantGetTime: string := "CAN'T GET TIME!"
  const Attempts: nat := 5

  /** The `k`-th request; requests the network would not answer are
      failures. */
  function AttemptAt(attempts: seq<Attempt>, k: nat): Attempt
  {
    if k < |attempts| then attempts[k] else Failed
  }

  /** The parse after a successful request: hours at `[11:13]`, shifted two
      hours for the time zone, and minutes at `[14:16]`; the day is taken
      as given. */
  function ParseFetched(dateTime: string, day: string): (r: Retrieval)
    ensures r.Synced? ==> r.time.day == day && 0 <= r.time.hour < 24
    ensures !r.Halted?
  {
    match ParseInt(Slice(dateTime, 11, 13))
    case None => Crashed
    case Some(h) =>
      match ParseInt(Slice(dateTime, 14, 16))
      case None => Crashed
      case Some(m) => Synced(TimeValue(day, (h + 2) % 24, m))
  }

  /** The loop of `retrieve_time` from request `k` on. */
  function FetchFrom(attempts: seq<Attempt>, k: nat): Retrieval
    requires k <= Attempts
    decreases Attempts - k
  {
    if k == Attempts then Halted(CantGetTime)
    else match AttemptAt(attempts, k)
      case Failed => FetchFrom(attempts, k + 1)
      case Fetched(dt, day) => ParseFetched(dt, day)
  }

  /** `retrieve_time`, with `start_wifi` first. */
  function Retrieve(connected: bool, connects: bool, attempts: seq<Attempt>): Retrieval
  {
    if !connected && !connects then Halted(NoInternet) else FetchFrom(attempts, 0)
  }

  /** The loop gives up with "CAN'T GET TIME!" exactly when all of the
      remaining five requests fail. */
  lemma {:induction false} FetchFromHalts(attempts: seq<Attempt>, k: nat)
    requires k <= Attempts
    ensures FetchFrom(attempts, k).Halted? <==> forall j :: k <= j < Attempts ==> AttemptAt(attempts, j).Failed?
    ensures FetchFrom(attempts, k).Halted? ==> FetchFrom(attempts, k) == Halted(CantGetTime)
    decreases Attempts - k
  {
    if k < Attempts {
      FetchFromHalts(attempts, k + 1);
    }
  }

  /** The first request that answers decides: its parse is the result,
      and a parse that raises is not retried with the next request. */
  lemma {:induction false} FetchFromFirst(attempts: seq<Attempt>, k: nat, j: nat)
    requires k <= j < Attempts
    requires forall i :: k <= i < j ==> AttemptAt(attempts, i).Failed?
    requires AttemptAt(attempts, j).Fetched?
    ensures FetchFrom(attempts, k) == ParseFetched(AttemptAt(attempts, j).dateTime, AttemptAt(attempts, j).dayOfWeek)
    decreases j - k
  {
    if k < j {
      FetchFromFirst(attempts, k + 1, j);
    }
  }

  /** Requests past the fifth are never made. */
  lemma {:induction false} FetchFromFive(attempts: seq<Attempt>, more: seq<Attempt>, k: nat)
    requires k <= Attempts && |attempts| >= Attempts
    ensures FetchFrom(attempts + more, k) == FetchFrom(attempts, k)
    decreases Attempts - k
  {
    if k < Attempts {
      assert AttemptAt(attempts + more, k) == AttemptAt(attempts, k);
      FetchFromFive(attempts, more, k + 1);
    }
  }

  /** A "currentDateTime" whose hour and minute fields hold a formatted
      in-range time parses back to that time, two hours on. */
  lemma ParseFetchedFormat(prefix: string, v: TimeValue, rest: string, day: string)
    requires |prefix| == 11 && InRange(v)
    ensures ParseFetched(prefix + Format(v) + rest, day) == Synced(TimeValue(day, (v.hour + 2) % 24, v.minutes))
  {
    FormatInRange(v);
    var dt := prefix + Format(v) + rest;
    assert Slice(dt, 11, 13) == Format(v)[..2];
    assert Slice(dt, 14, 16) == Format(v)[3..];
  }

  /** Once `next_day` has raised, every later step has raised too. */
  lemma {:induction false} NextDayNStopped(day: string, k: nat, n: nat)
    requires k <= n && NextDayN(day, k).None?
    ensures NextDayN(day, n).None?
    decreases n
  {
    if k < n {
      NextDayNStopped(day, k, n - 1);
    }
  }

  /** The screens of `start_wifi` and `retrieve_time` that ended in `r`:
      "Connecting wifi." when there was no connection, "Retrieving time."
      unless the connection failed, and the message `error` shows. */
  function RetrieveScreens(connected: bool, r: Retrieval): seq<Screen>
  {
    (if connected then [] else [Notice(ConnectingWifi)])
    + (if r == Halted(NoInternet) then [] else [Notice(RetrievingTime)])
    + (if r.Halted? then [Notice(r.message)] else [])
  }

  const ConnectingWifi: string := "Connecting wifi."
  const RetrievingTime: string := "Retrieving time."
  const GoodMorning: string := "Good morning!"

  /** How one round of the main loop ends. */
  datatype RoundEnd =
    | NoTime       // retrieve_time did not return: `error` or an escaping exception
    | DayOff       // a day off: slept to the next day
    | Woken        // the alarm rang, was dismissed and reset
    | Raised       // next_day or increase_tone raised and ended the program

  /** The program: `CURRENT_TIME`, the alarm, and what has been sent to the
      display and to `sleep` (in milliseconds). */
  class Device {
    var clock: Time
    const alarm: Alarm
    var screens: seq<Screen>
    var sleeps: seq<int>

    predicate Valid()
      reads this, alarm, alarm.buzzer
    {
      clock != alarm.time && alarm.Valid()
    }

    /** The globals and the set-up: an alarm at 07:30 saying "Good
        morning!", with Saturday and Sunday off. */
    constructor ()
      ensures Valid() && fresh(clock) && fresh(alarm) && fresh(alarm.time) && fresh(alarm.buzzer)
      ensures clock.Value() == TimeValue()
      ensures alarm.time.Value() == TimeValue(hour := 7, minutes := 30)
      ensures alarm.message == GoodMorning && alarm.daysOff == ["Saturday", "Sunday"]
      ensures alarm.Ringing() == Fresh && alarm.buzzer.pwm == []
      ensures screens == [] && sleeps == []
    {
      clock := new Time();
      alarm := new Alarm();
      screens := [];
      sleeps := [];
      new;
      alarm.SetTime(7, 30);
      alarm.SetMessage(GoodMorning);
      alarm.SetDaysOff(["Saturday", "Sunday"]);
      assert ["Saturday", "Sunday"][..1] == ["Saturday"];
    }

    /** `show_info`. */
    method ShowInfo(minutes: int)
      modifies this
      ensures screens == old(screens) + [Info(clock.Value(), minutes)]
      ensures clock == old(clock) && sleeps == old(sleeps)
    {
      screens := screens + [Info(clock.Value(), minutes)];
    }

    /** `show_alarm`. */
    method ShowAlarm()
      modifies this
      ensures screens == old(screens) + [AlarmInfo(alarm.time.Value(), alarm.message)]
      ensures clock == old(clock) && sleeps == old(sleeps)
    {
      screens := screens + [AlarmInfo(alarm.time.Value(), alarm.message)];
    }

    /** `determine_time`: the two carry loops, then `update`. When
        `next_day` raises, `CURRENT_TIME` has not been touched yet. */
    method DetermineTime(prev: Time, seconds: int) returns (ok: bool)
      modifies clock
      ensures ok <==> Advance(old(prev.Value()), seconds).Some?
      ensures ok ==> clock.Value() == Advance(old(prev.Value()), seconds).value
      ensures !ok ==> clock.Value() == old(clock.Value())
    {
      ghost var t := prev.Value();
      var sleepHours := TruncDiv(seconds, 3600);
      var sleepMinutes := TruncDiv(seconds, 60) - sleepHours * 60;
      var newDay := prev.day;
      var newHour := prev.hour + sleepHours;
      var newMinutes := prev.minutes + sleepMinutes;
      ghost var m0, h0 := newMinutes, newHour;
      ghost var carry := 0;
      while newMinutes > 59
        invariant newMinutes == m0 - 60 * carry && newHour == h0 + carry
        invariant 0 <= carry <= (if m0 > 59 then m0 / 60 else 0)
        invariant unchanged(clock)
        decreases newMinutes
      {
        newMinutes := newMinutes - 60;
        newHour := newHour + 1;
        carry := carry + 1;
      }
      ghost var h1 := newHour;
      ghost var days := 0;
      while newHour > 23
        invariant newHour == h1 - 24 * days
        invariant 0 <= days <= (if h1 > 23 then h1 / 24 else 0)
        invariant NextDayN(t.day, days) == Some(newDay)
        invariant unchanged(clock)
        decreases newHour
      {
        NextDayNStep(t.day, days + 1, newDay);
        var next := NextDay(newDay);
        if next.None? {
          NextDayNStopped(t.day, days + 1, if h1 > 23 then h1 / 24 else 0);
          return false;
        }
        newHour := newHour - 24;
        newDay := next.value;
        days := days + 1;
      }
      LoopsMatchCarried(t, seconds, m0, h0, carry, days, newDay);
      clock.Update(newDay, newHour, newMinutes);
      return true;
    }

    /** After `my_sleep(seconds)` from `t` returned: the clock, the screens
        and the delays are those of `Sleep` and `SleepDelays`. */
    twostate predicate AfterSleep(t: TimeValue, seconds: int)
      reads this, clock
    {
      && Sleep(t, seconds).Some?
      && clock.Value() == Sleep(t, seconds).value.clock
      && screens == old(screens) + Sleep(t, seconds).value.screens
      && sleeps == old(sleeps) + SleepDelays(seconds)
    }

    /** The loop of `my_sleep`: `minutes` times, show the minutes left,
        wait a minute and tick the clock. `ok` is false when `next_day`
        raised. */
    method CountDown(minutes: int) returns (ok: bool)
      modifies this, clock
      ensures clock == old(clock)
      ensures var n := if minutes > 0 then minutes else 0;
        var r := Countdown(old(clock.Value()), minutes, n);
        && (ok <==> r.Some?)
        && (ok ==> clock.Value() == r.value.clock && screens == old(screens) + r.value.screens)
        && (ok ==> sleeps == old(sleeps) + MinuteDelays(n))
    {
      ghost var t0, s0, d0 := clock.Value(), screens, sleeps;
      ghost var total: nat := if minutes > 0 then minutes else 0;
      var n := 0;
      ghost var p := Slept(t0, []);
      while n < minutes
        invariant 0 <= n <= total
        invariant clock == old(clock)
        invariant Countdown(t0, minutes, n) == Some(p)
        invariant clock.Value() == p.clock && screens == s0 + p.screens
        invariant sleeps == d0 + MinuteDelays(n)
      {
        ShowInfo(minutes - n);
        assert (d0 + MinuteDelays(n)) + [60 * 1000] == d0 + MinuteDelays(n + 1);
        sleeps := sleeps + [60 * 1000];
        ok := DetermineTime(clock, 60);
        CountdownNext(t0, minutes, n, p, ok, clock.Value());
        if !ok {
          CountdownStopped(t0, minutes, n + 1, total);
          return;
        }
        p := Slept(clock.Value(), p.screens + [Info(p.clock, minutes - n)]);
        n := n + 1;
      }
      ok := true;
    }

    /** `my_sleep`: count the whole minutes down on the display, ticking the
        clock after each, then wait the leftover seconds, tick once more and
        show 0 minutes to go. `ok` is false when `next_day` raised. */
    method MySleep(seconds: int) returns (ok: bool)
      modifies this, clock
      ensures clock == old(clock)
      ensures ok <==> Sleep(old(clock.Value()), seconds).Some?
      ensures ok ==> AfterSleep(old(clock.Value()), seconds)
    {
      ghost var t0, s0, d0 := clock.Value(), screens, sleeps;
      var minutes := TruncDiv(seconds, 60);
      var remaining := seconds - minutes * 60;
      ok := CountDown(minutes);
      ghost var r := Countdown(t0, minutes, SleepMinutes(seconds));
      if !ok {
        SleepStopped(t0, seconds);
        return;
      }
      ghost var p := r.value;
      var wait := remaining * 1000;
      SleepDelaysLast(seconds, minutes, wait);
      assert (d0 + MinuteDelays(SleepMinutes(seconds))) + [wait] == d0 + SleepDelays(seconds);
      sleeps := sleeps + [wait];
      ok := DetermineTime(clock, 60);
      SleepFinish(t0, seconds, p, ok, clock.Value());
      if !ok {
        return;
      }
      ShowInfo(0);
    }

    /** `sleep_to_next_day`: `my_sleep` for `seconds_to` 23:59 plus 90
        seconds. */
    method SleepToNextDay() returns (ok: bool)
      modifies this, clock
      ensures clock == old(clock)
      ensures ok <==> Sleep(old(clock.Value()), NextDaySeconds(old(clock.Value()))).Some?
      ensures ok ==> AfterSleep(old(clock.Value()), NextDaySeconds(old(clock.Value())))
    {
      var target := new Time(hour := 23, minutes := 59);
      var seconds := SecondsTo(clock.Value(), target.Value());
      seconds := seconds + 90;
      ok := MySleep(seconds);
    }

    /** `start_wifi` and `retrieve_time`: up to five requests; the first
        that answers is parsed into a new `Time`. */
    method RetrieveTime(connected: bool, connects: bool, attempts: seq<Attempt>)
      returns (r: Retrieval, time: Time?)
      modifies this
      ensures r == Retrieve(connected, connects, attempts)
      ensures r.Synced? <==> time != null
      ensures time != null ==> fresh(time) && time.Value() == r.time
      ensures screens == old(screens) + RetrieveScreens(connected, r)
      ensures clock == old(clock) && sleeps == old(sleeps)
    {
      if !connected {
        screens := screens + [Notice(ConnectingWifi)];
        if !connects {
          screens := screens + [Notice(NoInternet)];
          return Halted(NoInternet), null;
        }
      }
      screens := screens + [Notice(RetrievingTime)];
      ghost var s1 := screens;
      var k := 0;
      while k < Attempts
        invariant 0 <= k <= Attempts
        invariant FetchFrom(attempts, k) == FetchFrom(attempts, 0)
        invariant screens == s1 && clock == old(clock) && sleeps == old(sleeps)
      {
        var attempt := AttemptAt(attempts, k);
        FetchFromStep(attempts, k);
        if attempt.Fetched? {
          r, time := ParseTime(attempt.dateTime, attempt.dayOfWeek);
          return;
        }
        k := k + 1;
      }
      assert FetchFrom(attempts, 0) == Halted(CantGetTime);
      screens := screens + [Notice(CantGetTime)];
      return Halted(CantGetTime), null;
    }

    /** One round of the main loop: fetch the time; on a day off sleep to
        the next day; otherwise sleep until the alarm time, ring through
        `quietPolls` polls of the motion sensor without movement, dismiss,
        sleep 90 seconds and reset. */
    method Round(connected: bool, connects: bool, attempts: seq<Attempt>, quietPolls: nat)
      returns (end: RoundEnd)
      requires Valid()
      modifies this, alarm, alarm.buzzer
      ensures Valid()
      ensures alarm.daysOff == old(alarm.daysOff) && alarm.message == old(alarm.message)
      ensures end == NoTime <==> !Retrieve(connected, connects, attempts).Synced?
      ensures end == NoTime ==> clock == old(clock) && alarm.Ringing() == old(alarm.Ringing())
      ensures end != NoTime ==> fresh(clock)
      ensures end == DayOff ==>
        var t := Retrieve(connected, connects, attempts).time;
        && alarm.IsDayOff(t) && alarm.Ringing() == old(alarm.Ringing())
        && Sleep(t, NextDaySeconds(t)).Some?
        && clock.Value() == Sleep(t, NextDaySeconds(t)).value.clock
      ensures end == Woken ==>
        var t := Retrieve(connected, connects, attempts).time;
        var a := alarm.time.Value();
        && !alarm.IsDayOff(t)
        && Sleep(t, SecondsTo(t, a)).Some?
        && Sleep(Sleep(t, SecondsTo(t, a)).value.clock, 90).Some?
        && clock.Value() == Sleep(Sleep(t, SecondsTo(t, a)).value.clock, 90).value.clock
        && Run(old(alarm.Ringing()), RingDay(quietPolls)) == Some(alarm.Ringing())
      ensures end == Raised ==>
        var t := Retrieve(connected, connects, attempts).time;
        var a := alarm.time.Value();
        if alarm.IsDayOff(t) then Sleep(t, NextDaySeconds(t)).None?
        else
          || Sleep(t, SecondsTo(t, a)).None?
          || Run(old(alarm.Ringing()), RingDay(quietPolls)).None?
          || Sleep(Sleep(t, SecondsTo(t, a)).value.clock, 90).None?
    {
      var r, time := RetrieveTime(connected, connects, attempts);
      if time == null {
        return NoTime;
      }
      clock := time;
      ShowClock();
      ghost var t := clock.Value();
      var ok: bool;
      if alarm.IsDayOff(clock.Value()) {
        ok := SleepToNextDay();
        return if ok then DayOff else Raised;
      }
      var waitTime := SecondsTo(clock.Value(), alarm.time.Value());
      ok := MySleep(waitTime);
      if !ok {
        return Raised;
      }
      ghost var r0 := alarm.Ringing();
      ok := Ring(quietPolls);
      if !ok {
        return Raised;
      }
      ok := MySleep(90);
      if !ok {
        return Raised;
      }
      ghost var s2 := alarm.Ringing();
      alarm.Reset();
      RingDayFinish(r0, quietPolls, s2, alarm.Ringing());
      return Woken;
    }

    /** The alarm part of a round: `show_alarm`, `on`, a `repeat` after each
        of `quietPolls` polls without movement (1.2 seconds apart), then
        `dismiss`. `ok` is false when `increase_tone` raised. */
    method Ring(quietPolls: nat) returns (ok: bool)
      requires Valid()
      modifies this, alarm, alarm.buzzer
      ensures Valid() && clock == old(clock)
      ensures alarm.daysOff == old(alarm.daysOff) && alarm.message == old(alarm.message)
      ensures ok ==> Run(old(alarm.Ringing()), [TurnOn] + Repeats(quietPolls) + [Dismiss]) == Some(alarm.Ringing())
      ensures !ok ==> Run(old(alarm.Ringing()), RingDay(quietPolls)).None?
    {
      ShowAlarm();
      ghost var r0 := alarm.Ringing();
      alarm.On();
      assert Run(r0, [TurnOn] + Repeats(0)) == Some(alarm.Ringing());
      var k := 0;
      while k < quietPolls
        invariant 0 <= k <= quietPolls
        invariant Valid() && clock == old(clock)
        invariant alarm.daysOff == old(alarm.daysOff) && alarm.message == old(alarm.message)
        invariant Run(r0, [TurnOn] + Repeats(k)) == Some(alarm.Ringing())
      {
        sleeps := sleeps + [1200];
        ghost var before := alarm.Ringing();
        ok := alarm.Repeat();
        RunOneMore(r0, [TurnOn] + Repeats(k), before, Action.Repeat);
        assert [TurnOn] + Repeats(k + 1) == ([TurnOn] + Repeats(k)) + [Action.Repeat];
        if !ok {
          RingDayStopped(r0, k + 1, quietPolls);
          return;
        }
        k := k + 1;
      }
      ghost var s1 := alarm.Ringing();
      alarm.Dismiss();
      RunOneMore(r0, [TurnOn] + Repeats(quietPolls), s1, Dismiss);
      ok := true;
    }

    /** `display.show([CURRENT_TIME])`. */
    method ShowClock()
      modifies this
      ensures screens == old(screens) + [Clock(clock.Value())]
      ensures clock == old(clock) && sleeps == old(sleeps)
    {
      screens := screens + [Clock(clock.Value())];
    }
  }

  /** The body of `retrieve_time` after a request answered: a new `Time`
      with the day, the hour two hours on, and the minutes; `int` raising
      on a field that is not a number escapes as `Crashed`. */
  method ParseTime(dateTime: string, day: string) returns (r: Retrieval, time: Time?)
    ensures r == ParseFetched(dateTime, day)
    ensures r.Synced? <==> time != null
    ensures time != null ==> fresh(time) && time.Value() == r.time
  {
    time := new Time();
    time.SetDay(day);
    var hour := ParseInt(Slice(dateTime, 11, 13));
    if hour.None? {
      return Crashed, null;
    }
    time.SetHour((hour.value + 2) % 24);
    var minutes := ParseInt(Slice(dateTime, 14, 16));
    if minutes.None? {
      return Crashed, null;
    }
    time.SetMinutes(minutes.value);
    return Synced(time.Value()), time;
  }

  /** Running one more action after a run that reached `s`. */
  lemma RunOneMore(r: Ringer, actions: seq<Action>, s: Ringer, a: Action)
    requires Run(r, actions) == Some(s)
    ensures Run(r, actions + [a]) == Step(s, a)
  {
    RunAppend(r, actions, [a]);
  }

  /** A `repeat` that raised after `k` polls ends the whole morning. */
  lemma RingDayStopped(r: Ringer, k: nat, n: nat)
    requires 0 < k <= n && Run(r, [TurnOn] + Repeats(k)).None?
    ensures Run(r, RingDay(n)).None?
  {
    assert RingDay(n) == ([TurnOn] + Repeats(k)) + (Repeats(n - k) + [Dismiss, Action.Reset]);
    RunAppend(r, [TurnOn] + Repeats(k), Repeats(n - k) + [Dismiss, Action.Reset]);
  }

  /** After the polls, `dismiss` and `reset` complete the morning. */
  lemma RingDayFinish(r: Ringer, n: nat, s2: Ringer, s3: Ringer)
    requires Run(r, [TurnOn] + Repeats(n) + [Dismiss]) == Some(s2)
    requires Step(s2, Action.Reset) == Some(s3)
    ensures Run(r, RingDay(n)) == Some(s3)
  {
    assert RingDay(n) == ([TurnOn] + Repeats(n) + [Dismiss]) + [Action.Reset];
    RunOneMore(r, [TurnOn] + Repeats(n) + [Dismiss], s2, Action.Reset);
  }

  /** From a valid time and an in-range alarm time, none of the round's
      sleeps raises: only the ringing can end the program. */
  lemma RoundSleeps(t: TimeValue, a: TimeValue)
    requires ValidTime(t) && InRange(a)
    ensures Sleep(t, NextDaySeconds(t)).Some?
    ensures Sleep(t, SecondsTo(t, a)).Some?
    ensures Sleep(Sleep(t, SecondsTo(t, a)).value.clock, 90).Some?
  {
    SecondsToVersusForward(t, LastMinute);
    SleepAdvances(t, NextDaySeconds(t), MinuteOfWeek(t) + NextDaySeconds(t) / 60 + 1);
    SecondsToVersusForward(t, a);
    SleepAdvances(t, SecondsTo(t, a), MinuteOfWeek(t) + SecondsTo(t, a) / 60 + 1);
    var c := Sleep(t, SecondsTo(t, a)).value.clock;
    SleepAdvances(c, 90, MinuteOfWeek(c) + 2);
  }

  /** One request of the loop: an answer is parsed, a failure moves on. */
  lemma FetchFromStep(attempts: seq<Attempt>, k: nat)
    requires k < Attempts
    ensures AttemptAt(attempts, k).Failed? ==> FetchFrom(attempts, k) == FetchFrom(attempts, k + 1)
    ensures AttemptAt(attempts, k).Fetched? ==>
      FetchFrom(attempts, k) == ParseFetched(AttemptAt(attempts, k).dateTime, AttemptAt(attempts, k).dayOfWeek)
  {
  }

  /** The last delay of `my_sleep` is the leftover seconds. */
  lemma SleepDelaysLast(seconds: int, minutes: int, wait: int)
    requires minutes == TruncDiv(seconds, 60) && wait == (seconds - minutes * 60) * 1000
    ensures SleepDelays(seconds) == MinuteDelays(SleepMinutes(seconds)) + [wait]
  {
  }

  /** One more minute of the countdown, given whether its tick raised and
      the clock it reached. */
  lemma CountdownNext(t: TimeValue, total: int, n: nat, p: Slept, ok: bool, c: TimeValue)
    requires Countdown(t, total, n) == Some(p)
    requires ok <==> Advance(p.clock, 60).Some?
    requires ok ==> c == Advance(p.clock, 60).value
    ensures !ok ==> Countdown(t, total, n + 1).None?
    ensures ok ==> Countdown(t, total, n + 1) == Some(Slept(c, p.screens + [Info(p.clock, total - n)]))
  {
  }

  /** The last tick of `my_sleep`, after the countdown. */
  lemma SleepFinish(t: TimeValue, seconds: int, p: Slept, ok: bool, c: TimeValue)
    requires Countdown(t, TruncDiv(seconds, 60), SleepMinutes(seconds)) == Some(p)
    requires ok <==> Advance(p.clock, 60).Some?
    requires ok ==> c == Advance(p.clock, 60).value
    ensures !ok ==> Sleep(t, seconds).None?
    ensures ok ==> Sleep(t, seconds) == Some(Slept(c, p.screens + [Info(c, 0)]))
  {
  }

  /** A countdown that raised makes `my_sleep` raise. */
  lemma SleepStopped(t: TimeValue, seconds: int)
    requires Countdown(t, TruncDiv(seconds, 60), SleepMinutes(seconds)).None?
    ensures Sleep(t, seconds).None?
  {
  }

  /** Once the countdown has stopped on a raise, it stays stopped. */
  lemma {:induction false} CountdownStopped(t: TimeValue, total: int, k: nat, n: nat)
    requires k <= n && Countdown(t, total, k).None?
    ensures Countdown(t, total, n).None?
    decreases n
  {
    if k < n {
      CountdownStopped(t, total, k, n - 1);
    }
  }
}
