# IoT alarm clock firmware — a Dafny model

The firmware runs on a board with no real-time clock. It fetches the day and
time from a web service when it wakes up. If the day is one of the alarm's
days off, it sleeps to the next day. Otherwise it sleeps until the alarm
time, counting the minutes down on a character display and adding up the
time slept to keep the clock. Then it rings a buzzer melody, raising it a
semitone on every repeat, until motion is detected.

The model is split by source file:

- `time_data.dfy` (module `TimeData`) covers `sources/time_data.py`:
  - the `Time` object as a class with the source's setters;
  - its value `TimeValue`, with `format`, `__str__`, `==`, `!=` and `equals`;
  - the distance `seconds_to`, kept exactly as written;
  - `next_day`, where `None` stands for the `ValueError` of `list.index`.
- `buzzer.dfy` (module `Buzzers`) covers `sources/buzzer.py`:
  - the two note tables and the default melody;
  - the `Buzzer` class, whose `pwm.write` calls are recorded in a log;
  - `increase_tone` as an in-place update that can raise part-way.
- `alarm.dfy` (module `Alarms`) covers `sources/alarm.py`:
  - the `Alarm` class with its days off and message;
  - the `on` / `repeat` / `dismiss` / `reset` cycle, both as methods and as a
    value-level state machine (`Step`, `Run`) used to state properties over
    many calls.
- `lcd_display.dfy` (module `LcdDisplays`) covers `sources/lcd_display.py`:
  - the HD44780 driver over an I2C expander;
  - every byte written to the port is recorded in `port`;
  - the cursor bookkeeping of `print_char` / `_next`.
- `main.dfy` (module `Firmware`) covers `main.py`:
  - `determine_time`, `my_sleep`, `sleep_to_next_day`, `retrieve_time`,
    `show_info` and `show_alarm`;
  - the set-up;
  - one round of the main loop, as the `Device` class holding
    `CURRENT_TIME`, the alarm, and logs of what was shown and slept.

Two supporting modules:

- `py_builtins.dfy` (module `PyBuiltins`) writes out the Python built-ins the
  code relies on: `int(a / b)`, `str(int)`, `int(str)`, slicing and
  `list.index`.
- `wrappers.dfy` (module `Wrappers`) holds `Option`.

Clock bookkeeping is proved against a reference: the minute of the week
(`MinuteOfWeek` / `FromMinuteOfWeek`).

Three behaviours of the code are worth knowing before reading the model:

- `seconds_to` sends a target one hour ahead to the "hours ahead" branch,
  against the comment at `sources/time_data.py:116-117`. So 22:50 to 23:10
  is 87600 seconds, not 1200 (see Findings).
- `on` leaves the repeat counter alone (`sources/alarm.py:70-76`,
  `Alarms.OnKeepsCounter`); only `reset` and the fourth `repeat` clear it.
- In `retrieve_time` the `int` calls sit after the `try` block
  (`main.py:75-76`). So a field that is not a number is not retried: the
  exception escapes (`Firmware.FetchFromFirst`).

## Model

| member | source | states |
|---|---|---|
| PyBuiltins.TruncDiv | main.py:92-93 | `int(a / b)` truncates toward zero: the remainder is below `b` and has the sign of `a` |
| PyBuiltins.NatToString | sources/time_data.py:15-16 | `str(n)` is a non-empty run of digits whose value is `n`, one digit exactly when `n < 10`, with no leading zero |
| PyBuiltins.IntToString | sources/time_data.py:15-16 | `str(n)`: a minus sign for a negative number, then the digits of its magnitude; `IntToStringRoundTrip` parses it back to `n` |
| PyBuiltins.ParseInt | main.py:75-76 | `int(s)`: white space stripped, an optional sign, then at least one digit; `None` is the `ValueError`. Its values are stated in `ParseTwoDigits` and `IntToStringRoundTrip` |
| PyBuiltins.IntToStringRoundTrip | main.py:75-76 | `int(str(n)) == n` for every integer |
| PyBuiltins.ParseTwoDigits | main.py:75-76 | two digit characters parse to ten times the first plus the second |
| PyBuiltins.Slice | main.py:75-76 | `s[i:j]` clamps out-of-range bounds: its length and each character |
| PyBuiltins.IndexFromFirst | sources/time_data.py:133 | `index` finds the first occurrence |
| PyBuiltins.IndexOf | sources/time_data.py:133 | `list.index`: a position it returns holds the element; `IndexFromFirst` shows it is the first such position |
| PyBuiltins.IndexOfFound | sources/time_data.py:133 | `index` raises exactly when the element is absent |
| PyBuiltins.IndexOfDistinct | sources/time_data.py:133 | in a list without duplicates, `index` finds each element at its own position |
| PyBuiltins.FirstFailing | sources/buzzer.py:53-55 | where a loop over a list stops on the first element that raises: nothing before it fails, it does |
| PyBuiltins.FirstFailingAt | sources/buzzer.py:53-55 | an element that fails, with none failing before it, is where the loop stops |
| PyBuiltins.RemoveFirst | sources/alarm.py:38-42 | `list.remove` of a present element drops exactly one entry and adds none; an absent element leaves the list unchanged |
| PyBuiltins.RemoveFirstAt | sources/alarm.py:41-42 | `list.remove` drops the first occurrence of the element and keeps every other entry, in order |
| PyBuiltins.RemoveFirstMultiset | sources/alarm.py:41-42 | `list.remove` of a present element takes away one copy of it and nothing else |
| TimeData.DaysOfTheWeekDistinct | sources/time_data.py:127-128 | seven distinct day names |
| TimeData.TwoDigits | sources/time_data.py:15-16 | a number below 100 as two digits with its value |
| TimeData.PaddedTwoDigits | sources/time_data.py:15-16 | for 0..99 the zero-padded field is exactly those two digits |
| TimeData.TwoDigitsParse | sources/time_data.py:15-16 | a two-digit field parses back to its number |
| TimeData.Format | sources/time_data.py:13-17 | `format`: each field with a "0" in front when below ten; `FormatInRange` gives its layout and round trip |
| TimeData.Str | sources/time_data.py:20-21 | `__str__`: the day, ", ", then `format`; `StrLayout` gives its layout |
| TimeData.FormatInRange | sources/time_data.py:13-17 | `format` of an in-range time is five characters "HH:MM" whose fields parse back to the hour and the minutes |
| TimeData.StrLayout | sources/time_data.py:20-21 | `str(t)` is the day, ", ", then "HH:MM" |
| TimeData.Eq | sources/time_data.py:24-29 | `==` holds exactly for another `Time` with the same day, hour and minutes |
| TimeData.Ne | sources/time_data.py:32-33 | `!=` is exactly the negation of `==` |
| TimeData.Equals | sources/time_data.py:39-41 | `equals` agrees with `==` |
| TimeData.ForwardSeconds | sources/time_data.py:88-90 | the reference distance: whole minutes in 0..86399 seconds that reach the target's time of day |
| TimeData.SecondsTo | sources/time_data.py:88-123 | `seconds_to` branch by branch, as written; `SecondsToVersusForward` compares it with `ForwardSeconds` |
| TimeData.SecondsToIntended | sources/time_data.py:111-120 | `seconds_to` with the guard `sh < oh`; `SecondsToIntendedIsForward` shows it equals `ForwardSeconds` |
| TimeData.SecondsToSameHour | sources/time_data.py:91-110 | equal times are 0 apart; in the same hour, the minute difference forward, else a day less that difference |
| TimeData.SecondsToVersusForward | sources/time_data.py:88-123 | for in-range times `seconds_to` is the forward distance, plus a whole day exactly when the target hour is the next hour; never negative, whole minutes |
| TimeData.SecondsToAdjacentHourOvershoots | sources/time_data.py:119-120 | 22:50 to 23:10: forward distance 1200 s, `seconds_to` 87600 s |
| TimeData.SecondsToIntendedIsForward | sources/time_data.py:111-120 | with the guard `sh < oh` the formula is exactly the forward distance |
| TimeData.NextDayDefined | sources/time_data.py:131-134 | `next_day` raises exactly on strings that are not day names, else answers a day name |
| TimeData.NextDay | sources/time_data.py:131-134 | `next_day`: the name after the given one in the list, Sunday to Monday; `None` is the `ValueError` of `index` |
| TimeData.NextDayN | sources/time_data.py:131-134 | `n` successive calls of `next_day`, failing at the first that raises; `NextDayNIndex` and `NextDayNRaises` give its results |
| TimeData.DayIndex | sources/time_data.py:133 | the position of a day name in the week list |
| TimeData.DayIndexOf | sources/time_data.py:127-133 | position and name are inverse |
| TimeData.NextDaySuccessor | sources/time_data.py:131-134 | each day maps to the next, Sunday to Monday |
| TimeData.NextDayNIndex | sources/time_data.py:131-134 | `n` calls of `next_day` land `n` days further round the week |
| TimeData.NextDayNRaises | sources/time_data.py:131-134 | from a non-day string every positive number of calls raises |
| TimeData.SevenDaysIdentity | sources/time_data.py:127-134 | seven calls of `next_day` return to the same day |
| TimeData.FromMinuteOfWeek | sources/time_data.py:7-10 | each minute of the week is the minute of exactly the valid time built from it |
| TimeData.MinuteOfWeekInverse | sources/time_data.py:7-10 | a valid time is rebuilt from its minute of the week |
| TimeData.Time.constructor | sources/time_data.py:7-10 | defaults Monday 00:00; fields as given |
| TimeData.Time.Set | sources/time_data.py:44-48 | copies the other time's three fields |
| TimeData.Time.Update | sources/time_data.py:51-55 | overwrites all three fields |
| TimeData.Time.SetDay | sources/time_data.py:58-60 | changes only the day |
| TimeData.Time.SetHour | sources/time_data.py:63-65 | changes only the hour |
| TimeData.Time.SetMinutes | sources/time_data.py:68-70 | changes only the minutes |
| Buzzers.FreqsIncrease | sources/buzzer.py:15-24 | 24 names, 24 frequencies, strictly rising and positive |
| Buzzers.NamesDistinct | sources/buzzer.py:15-18 | no note name repeats |
| Buzzers.FreqOf | sources/buzzer.py:54 | a known note has a positive frequency |
| Buzzers.FreqOfKnown | sources/buzzer.py:54 | the lookup raises exactly on unknown names |
| Buzzers.FreqOfNote | sources/buzzer.py:54 | each name's frequency is the one listed beside it |
| Buzzers.Raise | sources/buzzer.py:64 | a raised note and its origin both have frequencies |
| Buzzers.RaiseNote | sources/buzzer.py:64 | each name is raised to the next one; "b4" raises |
| Buzzers.NoteWrite | sources/buzzer.py:43-46 | the PWM period is 1000000 // freq microseconds, duty half of it |
| Buzzers.NoteWrites | sources/buzzer.py:53-55 | one write per note, in order, at that note's frequency |
| Buzzers.NoteWritesOfNotes | sources/buzzer.py:49-57 | a melody of table names plays the listed frequency at each position |
| Buzzers.RaiseEach | sources/buzzer.py:60-65 | every note moved up one semitone, same length, still playable |
| Buzzers.FirstUnraisable | sources/buzzer.py:60-65 | the note `increase_tone` fails on: all before it raise, it does not |
| Buzzers.TransposedZero | sources/buzzer.py:27 | no transposition is the default melody |
| Buzzers.TransposedNote | sources/buzzer.py:27 | note `i` moved `k` semitones is table entry `position + k` |
| Buzzers.TransposedPlayable | sources/buzzer.py:27 | every transposition up to nine is playable |
| Buzzers.TransposeStep | sources/buzzer.py:60-65 | below nine, `increase_tone` moves the melody one transposition on |
| Buzzers.TransposeLimit | sources/buzzer.py:60-65 | at nine the tenth raise fails at the fifth note |
| Buzzers.RaiseOneMore | sources/buzzer.py:63-65 | one more in-place raise extends the raised prefix by one |
| Buzzers.PartlyRaisedPlayable | sources/buzzer.py:60-65 | a melody left part-raised is still playable |
| Buzzers.FirstUnplayable | sources/buzzer.py:53-55 | the note `play_melody` fails on: all before it have a frequency, it has none |
| Buzzers.FirstUnplayableAt | sources/buzzer.py:53-55 | the failing note follows the longest playable prefix |
| Buzzers.FirstUnraisableAt | sources/buzzer.py:60-65 | the failing note follows the longest raisable prefix |
| Buzzers.Buzzer.constructor | sources/buzzer.py:32-35 | a copy of the default melody, nothing written |
| Buzzers.Buzzer.Stop | sources/buzzer.py:38-40 | writes period and duty 0 |
| Buzzers.Buzzer.PlayNote | sources/buzzer.py:43-46 | one note write at the given frequency |
| Buzzers.Buzzer.PlayMelody | sources/buzzer.py:49-57 | plays the requested notes or its own melody, then stops; on an unknown note raises after the notes before it |
| Buzzers.Buzzer.IncreaseTone | sources/buzzer.py:60-65 | raises every note in place, or raises the exception at the first note that cannot be raised, leaving the earlier notes raised |
| Buzzers.Buzzer.RestoreTone | sources/buzzer.py:68-70 | the melody is the default again |
| Alarms.AddDays | sources/alarm.py:31-35 | the old list is kept as a prefix; exactly the old and new names; no duplicates introduced |
| Alarms.Without | sources/alarm.py:38-42 | the reference: exactly the listed names not removed |
| Alarms.RemoveDays | sources/alarm.py:38-42 | `remove_days_off` on a list: the first occurrence of each given name, in turn, is removed; `RemoveDaysIsWithout` equates it with `Without` |
| Alarms.RemoveDaysIsWithout | sources/alarm.py:38-42 | on a duplicate-free list `remove_days_off` filters out every given name, keeping the order |
| Alarms.Step | sources/alarm.py:70-107 | one call of `on`, `repeat`, `dismiss` or `reset` on the flags, the counter and the melody; `None` when `increase_tone` raises. `StepKeepsSound` gives the invariant it keeps |
| Alarms.Run | sources/alarm.py:70-107 | a sequence of those calls, stopping at the first exception; `RunKeepsSound` gives the invariant it keeps |
| Alarms.StepKeepsSound | sources/alarm.py:70-107 | counter in 0..3, never on and dismissed at once, playable melody: kept by every call; only `repeat` can raise |
| Alarms.RunKeepsSound | sources/alarm.py:70-107 | the same across any sequence of calls |
| Alarms.OnKeepsCounter | sources/alarm.py:70-82 | `on` sets on and not dismissed, keeps counter and melody; idle calls change nothing |
| Alarms.ResetIdempotent | sources/alarm.py:103-107 | `reset` clears the flags and the counter, keeps the melody, and a second `reset` changes nothing |
| Alarms.RepeatsRaise | sources/alarm.py:79-91 | up to the third `repeat` each raises the melody one semitone and counts |
| Alarms.FourRepeats | sources/alarm.py:84-88 | the fourth `repeat` resets the counter and restores the default melody |
| Alarms.RingDayDrifts | sources/alarm.py:103-107 | a morning of up to three repeats ends off with counter 0 but the melody left raised |
| Alarms.ToneDriftRaises | sources/alarm.py:103-107 | three mornings of three repeats reach nine semitones; the next morning's first `repeat` raises |
| Alarms.StepRestoringAligned | sources/alarm.py:103-107 | with a `reset` that restores the tone, melody and counter stay aligned and no call raises |
| Alarms.RunRestoringNeverRaises | sources/alarm.py:103-107 | the same across any sequence of calls |
| Alarms.Alarm.constructor | sources/alarm.py:11-18 | off, counter 0, no days off, "Wake up!", time 08:00 by default |
| Alarms.Alarm.SetTime | sources/alarm.py:21-23 | the time becomes hour:minutes on the default day |
| Alarms.Alarm.SetMessage | sources/alarm.py:26-28 | sets the message only |
| Alarms.Alarm.SetDaysOff | sources/alarm.py:31-35 | appends the names not yet present (`AddDays`); afterwards `is_day_off` holds for a time exactly when it held before or its day was given |
| Alarms.Alarm.RemoveDaysOff | sources/alarm.py:38-42 | removes the given names (`Without`); afterwards `is_day_off` holds for a time exactly when it held before and its day was not given |
| Alarms.Alarm.IsDayOff | sources/alarm.py:45-47 | `is_day_off`: the time's day is among the days off. `SetDaysOff` and `RemoveDaysOff` state how its answer changes |
| Alarms.Alarm.On | sources/alarm.py:70-76 | takes the `on` step and plays the melody unless already on |
| Alarms.Alarm.Repeat | sources/alarm.py:79-91 | takes the `repeat` step; raises exactly when the step does, leaving the melody part-raised |
| Alarms.Alarm.Dismiss | sources/alarm.py:94-100 | takes the `dismiss` step and stops the buzzer if on |
| Alarms.Alarm.Reset | sources/alarm.py:103-107 | takes the `reset` step |
| Alarms.Alarm.ResetRestoringTone | sources/alarm.py:103-107 | the corrected `reset`, which also restores the tone |
| LcdDisplays.EnablePulse | sources/lcd_display.py:196-209 | each `_write` puts the byte, raises enable, then lowers it, keeping the backlight bit |
| LcdDisplays.WriteSeq | sources/lcd_display.py:196-198 | `_write`: the byte, then the enable pulse, each OR'd with the backlight bit; `EnablePulse` states the three bytes |
| LcdDisplays.PulseSeq | sources/lcd_display.py:205-210 | `_pulse_enable`: the byte with the enable bit set, then with it cleared |
| LcdDisplays.SendSeq | sources/lcd_display.py:189-193 | `_send`: the write of the high nibble, then of the low nibble, each with the mode bits; `SendCarriesByte` shows the byte is carried whole |
| LcdDisplays.SendCarriesByte | sources/lcd_display.py:189-193 | `_send` writes six bytes; the two nibbles reassemble the byte; mode and backlight bits on each |
| LcdDisplays.PrintSeq | sources/lcd_display.py:81-86 | `print_str` writes at most one character per input character |
| LcdDisplays.PrintCount16x2 | sources/lcd_display.py:81-93 | on 16x2 it writes as many characters as fit and where the cursor ends |
| LcdDisplays.PrintCountOneLine | sources/lcd_display.py:168-178 | on one line of width `w` it writes `min(len, w - c)` characters |
| LcdDisplays.NextChar | sources/lcd_display.py:168-178 | `_next` as a value: whether it moves to line 2, whether the character is written, and the cursor; `PrintCount16x2` and `PrintCountOneLine` give the counts it leads to |
| LcdDisplays.CursorCommand | sources/lcd_display.py:118-129 | `cursor_pos`: nothing past the last cell, else the set-address byte; `CursorCommandAddresses` and `CursorCommandLines` give the addresses |
| LcdDisplays.CursorCommandAddresses | sources/lcd_display.py:118-129 | `cursor_pos` does nothing past the last cell and sends the DDRAM address of line 1 or line 2 |
| LcdDisplays.CursorCommandLines | sources/lcd_display.py:118-129 | on two lines, line 2 asked for directly starts at address 0x40; a line the display does not have is read as its last line |
| LcdDisplays.ControlBits | sources/lcd_display.py:144-165 | each cursor or blink toggle touches only its own bit |
| LcdDisplays.LcdDisplay.constructor | sources/lcd_display.py:42-69 | the initialisation bytes, backlight on, cursor 0 |
| LcdDisplays.LcdDisplay.WriteBytes | sources/lcd_display.py:201-202 | writes the byte with the backlight bit |
| LcdDisplays.LcdDisplay.PulseEnable | sources/lcd_display.py:205-209 | enable high, then low |
| LcdDisplays.LcdDisplay.Write | sources/lcd_display.py:196-198 | the three bytes of `_write` |
| LcdDisplays.LcdDisplay.Send | sources/lcd_display.py:189-193 | the six bytes of `_send` |
| LcdDisplays.LcdDisplay.Command | sources/lcd_display.py:181-183 | `_send` in command mode |
| LcdDisplays.LcdDisplay.Data | sources/lcd_display.py:185-186 | `_send` in data mode |
| LcdDisplays.LcdDisplay.SetFourBitMode | sources/lcd_display.py:212-219 | the 4-bit initialisation bytes |
| LcdDisplays.LcdDisplay.Home | sources/lcd_display.py:103-107 | home command, cursor 0 |
| LcdDisplays.LcdDisplay.Clear | sources/lcd_display.py:96-100 | clear and home commands, cursor 0 |
| LcdDisplays.LcdDisplay.NextLine | sources/lcd_display.py:110-115 | nothing on one line; else the line-2 command and cursor 17 |
| LcdDisplays.LcdDisplay.Next | sources/lcd_display.py:168-178 | the cursor step and whether a character may be written |
| LcdDisplays.LcdDisplay.PrintChar | sources/lcd_display.py:89-93 | the bytes and the cursor of one character |
| LcdDisplays.LcdDisplay.PrintStr | sources/lcd_display.py:81-86 | port and cursor as `PrintSeq` says |
| LcdDisplays.LcdDisplay.Show | sources/lcd_display.py:72-78 | clears, then raises on an empty list; else prints the first item, then the second on line 2 |
| LcdDisplays.LcdDisplay.CursorPos | sources/lcd_display.py:118-129 | sends the command `CursorCommand` gives, cursor unchanged |
| LcdDisplays.LcdDisplay.BacklightOn | sources/lcd_display.py:132-135 | sets the backlight bit and writes it |
| LcdDisplays.LcdDisplay.BacklightOff | sources/lcd_display.py:138-141 | clears the backlight bit and writes 0 |
| LcdDisplays.LcdDisplay.SetControl | sources/lcd_display.py:144-165 | sets or clears the cursor or blink bit and sends the display control |
| Firmware.Carried | main.py:92-105 | after the two carry loops the hour is at most 23 and the minutes at most 59, and non-negative for non-negative inputs |
| Firmware.CarriedTotal | main.py:92-105 | the carries keep the total number of minutes slept |
| Firmware.Advance | main.py:90-107 | `determine_time` on values keeps an in-range time in range |
| Firmware.AdvanceWeekday | main.py:90-107 | from a weekday it lands the carried days further round the week |
| Firmware.AdvanceMinuteOfWeek | main.py:90-107 | `determine_time` advances the minute of the week by the whole minutes slept, modulo a week |
| Firmware.TicksMinuteOfWeek | main.py:117-120 | `n` one-minute ticks advance the minute of the week by `n` |
| Firmware.SplitMinutes | main.py:51-52 | `h * 60 + m == minutes`, with `m` in 0..59 for non-negative input |
| Firmware.Lines | main.py:49-59 | each screen shows one or two items |
| Firmware.InfoLabelDigits | main.py:49-54 | "Alarm in HH:MM" with the hours and minutes left |
| Firmware.InfoLabel | main.py:49-54 | the second line of `show_info`: "Alarm in " and `format` of the split minutes; `InfoLabelDigits` gives the digits |
| Firmware.CountdownTicks | main.py:115-118 | the countdown's clock is the ticks' clock; screen `k` shows the clock after `k` ticks and `total - k` minutes |
| Firmware.Countdown | main.py:115-118 | the first `n` rounds of `my_sleep`'s loop: show the minutes left, then tick a minute; `CountdownTicks` relates it to `Ticks` |
| Firmware.SleepMinutes | main.py:112 | the number of minutes counted down, `s div 60` |
| Firmware.Sleep | main.py:110-122 | `my_sleep` on values: the countdown, one more 60-second tick, then `show_info(0)`; `SleepClock`, `SleepScreens` and `SleepAdvances` state its results |
| Firmware.SleepDelays | main.py:110-121 | the delays `my_sleep` waits: a minute per round, then the leftover seconds; `SleepDelaysTotal` sums them |
| Firmware.SleepDelaysTotal | main.py:110-121 | `my_sleep(s)` waits exactly `s` seconds in all |
| Firmware.SleepClock | main.py:110-120 | `my_sleep` ticks once per minute counted down and once more; it raises exactly when a tick does |
| Firmware.SleepScreens | main.py:110-122 | one countdown screen per minute, then "0 minutes" with the final clock |
| Firmware.SleepAdvances | main.py:110-122 | from a valid time `my_sleep(s)` does not raise, and the clock lands `s div 60 + 1` minutes on, round the week |
| Firmware.NextDaySecondsValue | main.py:82-87 | the sleep to the next day lasts until 00:01 plus 30 s, or a day longer from 22:xx |
| Firmware.NextDaySeconds | main.py:82-87 | `sleep_to_next_day`'s duration: `seconds_to` 23:59, plus 90 seconds; `NextDaySecondsValue` gives its value |
| Firmware.NextDaySecondsIntendedValue | main.py:82-87 | with the corrected `seconds_to` it always lasts until 00:01 the next day |
| Firmware.SleepWakesEarly | main.py:82-87 | a sleep of the rest of the day and `extra` days wakes at 00:01 `extra + 1` days on |
| Firmware.SleepToNextDayLands | main.py:82-87 | it wakes at 00:01 the next day, but two days on from 22:00-22:59 |
| Firmware.SleepToNextDayIntendedLands | main.py:82-87 | with the corrected `seconds_to` it always wakes at 00:01 the next day |
| Firmware.ParseFetched | main.py:74-77 | a parsed time keeps the fetched day and an hour in 0..23; parsing never halts |
| Firmware.FetchFrom | main.py:65-79 | the loop of `retrieve_time` from request `k` on: a failed request moves on, an answered one is parsed, and `error` follows the fifth failure; `FetchFromHalts`, `FetchFromFirst` and `FetchFromFive` state its results |
| Firmware.Retrieve | main.py:41-79 | `start_wifi`, whose failure halts with "NO INTERNET!", then the loop of `retrieve_time` |
| Firmware.RetrieveScreens | main.py:41-79 | the screens shown on the way: "Connecting wifi." without a connection, "Retrieving time." unless connecting failed, then an `error` message if one ends it |
| Firmware.FetchFromHalts | main.py:65-79 | gives up with "CAN'T GET TIME!" exactly when all five requests fail |
| Firmware.FetchFromFirst | main.py:65-78 | the first request that answers decides; a failed parse is not retried |
| Firmware.FetchFromFive | main.py:65 | requests past the fifth are never made |
| Firmware.ParseFetchedFormat | main.py:70-77 | a "currentDateTime" holding an in-range "HH:MM" at offset 11 parses to that time, two hours on |
| Firmware.RoundSleeps | main.py:140-163 | from a valid time, none of a round's sleeps raises |
| Firmware.RingDayStopped | main.py:156-158 | a `repeat` that raises ends the morning |
| Firmware.RingDayFinish | main.py:159-163 | `dismiss` and `reset` complete the morning's run |
| Firmware.ParseTime | main.py:73-77 | a new `Time` with the fetched day, hour + 2 mod 24 and minutes; `Crashed` when a field is not a number |
| Firmware.Device.constructor | main.py:130-132 | the globals and the set-up: 07:30, "Good morning!", Saturday and Sunday off |
| Firmware.Device.ShowInfo | main.py:49-54 | shows the clock and the minutes left |
| Firmware.Device.ShowAlarm | main.py:57-59 | shows the alarm time and message |
| Firmware.Device.ShowClock | main.py:143 | shows the clock alone |
| Firmware.Device.DetermineTime | main.py:90-107 | the clock becomes `Advance` of the previous time; unchanged when `next_day` raises |
| Firmware.Device.CountDown | main.py:115-118 | after `n` rounds the clock, screens and one-minute delays are those of `Countdown`; raises exactly when `Countdown` does |
| Firmware.Device.MySleep | main.py:110-122 | clock, screens and delays are those of `Sleep` and `SleepDelays`; raises exactly when `Sleep` does |
| Firmware.Device.SleepToNextDay | main.py:82-87 | `my_sleep` of `seconds_to` 23:59 plus 90 s |
| Firmware.Device.RetrieveTime | main.py:41-79 | the result is `Retrieve`; a new `Time` exactly on success; the screens of `start_wifi` and `retrieve_time` |
| Firmware.Device.Ring | main.py:154-159 | `show_alarm`, `on`, one `repeat` per quiet poll, `dismiss`: the alarm's run of those calls, or the morning raises |
| Firmware.Device.Round | main.py:140-163 | one round: no time, a day off slept through, a morning rung and reset, or an exception, each with the resulting clock and alarm state |

## Left out

- Hardware I/O is not modelled. I2C transfers, pin modes and PWM are logs of
  the bytes and writes the code issues. Time does not pass. The firmware's
  own `sleep` calls in `main.py` are kept as a log of delays.
- `motion_sensor.py` and `wifi_connection.py` are not part of this model.
  - A round takes as inputs whether wifi is connected and whether
    connecting succeeds.
  - Motion is a count of polls without movement.
  - The web service is a sequence of answered or failed requests. A missing
    entry is a failed request.
- `error` loops forever, showing the message and clearing the display.
  - It is recorded as one screen with the message and a `Halted` result.
  - Its show/clear/sleep alternation is not logged.
- The `while True` main loop is one `Device.Round` per iteration, starting
  from the state the previous round left.
- Parsing JSON, and `str()` of the JSON values, are not modelled. The two
  fields arrive as strings.
- Floating point is not modelled. `int(a / b)` is modelled as integer
  division truncated toward zero. This is exact for the integer magnitudes
  the firmware handles.
- Several accessors are read as fields or through `Time.Value()`:
  - on `Time`: `day()`, `hour()`, `minutes()`;
  - on `Alarm`: `time()`, `message()`, `is_on()`, `is_dismissed()`.
- On the display, Python integers are reduced to their low byte before
  `_send`, which keeps only those bits anyway.
- `Device` records each `display.show` call as a `Screen` value.
  - `Firmware.Lines` gives the items passed to `show`.
  - The byte-level `LcdDisplays.LcdDisplay.Show` is proved on its own.
  - The two are not composed into one object.
- The display's own delays are not logged. These are the sleeps at
  `sources/lcd_display.py:99`, `:107`, `:207`, `:209` and `:214-218`.
- The buzzer's `sleep(500)` between notes (`sources/buzzer.py:56`) is not
  logged.
- PyBuiltins.ParseInt: accepts ASCII digits only. Python's `int()` also
  accepts other Unicode decimal digits and `_` between digits. The two
  two-character fields parsed at `main.py:75-76` are not affected.
- Firmware.Device.MySleep: when `next_day` raises part-way, the screens and
  delays logged before the exception are not described.
- Firmware.Device.Round: its contract states the clock and the alarm state,
  not the screens, delays and buzzer writes of the round. Those are stated
  by the methods it calls.

## Findings

| source | as written | input that shows it | evidently intended | confidence | as-written member | corrected member |
|---|---|---|---|---|---|---|
| sources/time_data.py:119-120 | the guard `sh < oh - 1` sends a target one hour ahead to the "hours ahead" branch, adding a day | 22:50 to 23:10 gives 87600 s, not 1200 s; `sleep_to_next_day` from 22:xx wakes two days on; the main loop from 06:xx to an alarm at 07:30 waits a day too long | `sh < oh`, as the comment beside it explains: the forward distance on the 24-hour ring | not executed | TimeData.SecondsToAdjacentHourOvershoots | TimeData.SecondsToIntendedIsForward |
| sources/alarm.py:103-107 | `reset` clears the counter but not the buzzer's tone, so each morning starts from the tone the last one ended on | three mornings of three repeats leave the melody nine semitones up; the fourth morning's first `repeat` raises `IndexError` in `increase_tone` | `reset` also restores the tone, keeping the melody in step with the counter | not executed | Alarms.ToneDriftRaises | Alarms.RunRestoringNeverRaises |

`Firmware.SleepToNextDayLands` and `Firmware.SleepToNextDayIntendedLands`
show the first finding's effect on `sleep_to_next_day`.
`Alarms.Alarm.ResetRestoringTone` is the corrected `reset` on the object.
The device model itself follows the code as written.
