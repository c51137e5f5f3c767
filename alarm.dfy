/** The alarm (sources/alarm.py): the time it goes off, the days it stays
    quiet, and the on / repeat / dismiss / reset cycle that drives its
    buzzer. */
module Alarms {
  import opened Wrappers
  import opened PyBuiltins
  import opened TimeData
  import opened Buzzers

  // ---------------------------------------------------------------------
  // Days off
  // ---------------------------------------------------------------------

  /** `set_days_off` on a list: each given name not yet present is
      appended, in the order given. */
  function AddDays(list: seq<string>, days: seq<string>): (r: seq<string>)
    ensures |list| <= |r| && r[..|list|] == list
    ensures forall x :: x in r <==> x in list || x in days
    ensures NoDuplicates(list) ==> NoDuplicates(r)
  {
    if days == [] then list
    else
      var prev := AddDays(list, days[..|days| - 1]);
      var day := days[|days| - 1];
      assert forall x :: x in days <==> x in days[..|days| - 1] || x == day by {
        assert days == days[..|days| - 1] + [day];
      }
      if day in prev then prev else prev + [day]
  }

  /** `remove_days_off` on a list: for each given name, in order, the
      first occurrence is removed if there is one. */
  function RemoveDays(list: seq<string>, days: seq<string>): seq<string>
  {
    if days == [] then list
    else
      var prev := RemoveDays(list, days[..|days| - 1]);
      var day := days[|days| - 1];
      if day in prev then RemoveFirst(prev, day) else prev
  }

  /** The reference for `RemoveDays`: the list with every given name
      filtered out and the others left in order. */
  function Without(list: seq<string>, days: seq<string>): (r: seq<string>)
    ensures forall x :: x in r <==> x in list && x !in days
  {
    if list == [] then []
    else (if list[0] in days then [] else [list[0]]) + Without(list[1..], days)
  }

  lemma {:induction false} WithoutKeepsDistinct(list: seq<string>, days: seq<string>)
    requires NoDuplicates(list)
    ensures NoDuplicates(Without(list, days))
  {
    if list != [] {
      assert NoDuplicates(list[1..]);
      WithoutKeepsDistinct(list[1..], days);
      assert list[0] !in list[1..];
    }
  }

  /** Filtering out names that do not occur changes nothing. */
  lemma {:induction false} WithoutAbsent(list: seq<string>, days: seq<string>)
    requires forall x :: x in list ==> x !in days
    ensures Without(list, days) == list
  {
    if list != [] {
      WithoutAbsent(list[1..], days);
    }
  }

  /** In a list without duplicates, removing the first occurrence of a name
      is filtering it out. */
  lemma {:induction false} RemoveFirstIsWithout(list: seq<string>, day: string)
    requires NoDuplicates(list)
    ensures RemoveFirst(list, day) == Without(list, [day])
  {
    if list != [] {
      assert NoDuplicates(list[1..]);
      if list[0] == day {
        assert day !in list[1..];
        WithoutAbsent(list[1..], [day]);
      } else {
        RemoveFirstIsWithout(list[1..], day);
      }
    }
  }

  /** Filtering in two rounds is filtering once by both lists. */
  lemma {:induction false} WithoutTwice(list: seq<string>, days: seq<string>, more: seq<string>)
    ensures Without(Without(list, days), more) == Without(list, days + more)
  {
    if list != [] {
      WithoutTwice(list[1..], days, more);
      var x, rest := list[0], Without(list[1..], days);
      if x in days {
        assert Without(list, days) == rest;
      } else {
        assert Without(list, days) == [x] + rest;
        assert ([x] + rest)[1..] == rest;
      }
    }
  }

  /** On a list without duplicates `remove_days_off` removes every given
      name and keeps the other names in their order. */
  lemma {:induction false} RemoveDaysIsWithout(list: seq<string>, days: seq<string>)
    requires NoDuplicates(list)
    ensures RemoveDays(list, days) == Without(list, days)
  {
    if days != [] {
      var front, day := days[..|days| - 1], days[|days| - 1];
      assert days == front + [day];
      RemoveDaysIsWithout(list, front);
      WithoutKeepsDistinct(list, front);
      var prev := Without(list, front);
      assert RemoveDays(list, days) == if day in prev then RemoveFirst(prev, day) else prev;
      if day in prev {
        RemoveFirstIsWithout(prev, day);
      } else {
        WithoutAbsent(prev, [day]);
      }
      assert RemoveDays(list, days) == Without(prev, [day]);
      WithoutTwice(list, front, [day]);
    } else {
      WithoutAbsent(list, days);
    }
  }

  // ---------------------------------------------------------------------
  // The ringing cycle
  // ---------------------------------------------------------------------

  /** What `on`, `repeat`, `dismiss` and `reset` change: the three flags of
      the alarm and the melody of its buzzer. */
  datatype Ringer = Ringer(isOn: bool, dismissed: bool, repetitions: int, melody: seq<string>)

  datatype Action = TurnOn | Repeat | Dismiss | Reset

  /** One call; `None` stands for an exception out of the buzzer. */
  function Step(r: Ringer, a: Action): Option<Ringer>
  {
    match a
    case TurnOn =>
      if r.isOn then Some(r)
      else if Playable(r.melody) then Some(r.(isOn := true, dismissed := false))
      else None
    case Repeat =>
      if !r.isOn then Some(r)
      else if r.repetitions + 1 > 3 then Some(r.(repetitions := 0, melody := DefaultMelody))
      else if Raisable(r.melody) then Some(r.(repetitions := r.repetitions + 1, melody := RaiseEach(r.melody)))
      else None
    case Dismiss =>
      if !r.isOn then Some(r) else Some(r.(isOn := false, dismissed := true))
    case Reset =>
      Some(r.(isOn := false, dismissed := false, repetitions := 0))
  }

  /** A sequence of calls, stopping at the first exception. */
  function Run(r: Ringer, actions: seq<Action>): Option<Ringer>
    decreases |actions|
  {
    if actions == [] then Some(r)
    else match Step(r, actions[0])
      case None => None
      case Some(s) => Run(s, actions[1..])
  }

  /** The state every alarm keeps: a counter in 0..3, never on and
      dismissed at once, and a melody the buzzer can play. */
  predicate Sound(r: Ringer)
  {
    0 <= r.repetitions <= 3 && !(r.isOn && r.dismissed) && Playable(r.melody)
  }

  /** Every call that returns keeps `Sound`, and from a sound state only
      `repeat` can raise. */
  lemma StepKeepsSound(r: Ringer, a: Action)
    requires Sound(r)
    ensures a != Repeat ==> Step(r, a).Some?
    ensures Step(r, a).Some? ==> Sound(Step(r, a).value)
  {
    TransposedZero();
    TransposedPlayable(0);
  }

  /** Across any sequence of calls the alarm is never on and dismissed at
      once, and its counter stays in 0..3. */
  lemma {:induction false} RunKeepsSound(r: Ringer, actions: seq<Action>)
    requires Sound(r)
    ensures Run(r, actions).Some? ==> Sound(Run(r, actions).value)
    decreases |actions|
  {
    if actions != [] {
      StepKeepsSound(r, actions[0]);
      if Step(r, actions[0]).Some? {
        RunKeepsSound(Step(r, actions[0]).value, actions[1..]);
      }
    }
  }

  /** `on` leaves the counter alone: it plays from wherever the counter and
      the melody were left; `on` while on, and `repeat` or `dismiss` while
      off, change nothing. */
  lemma OnKeepsCounter(r: Ringer)
    requires Sound(r)
    ensures Step(r, TurnOn).Some?
    ensures var s := Step(r, TurnOn).value;
      s.isOn && !s.dismissed && s.repetitions == r.repetitions && s.melody == r.melody
    ensures r.isOn ==> Step(r, TurnOn) == Some(r)
    ensures !r.isOn ==> Step(r, Repeat) == Some(r) && Step(r, Dismiss) == Some(r)
  {
  }

  /** `reset` clears the flags and the counter but keeps the melody, and a
      second `reset` changes nothing. */
  lemma ResetIdempotent(r: Ringer)
    ensures Step(r, Reset).Some?
    ensures var s := Step(r, Reset).value;
      !s.isOn && !s.dismissed && s.repetitions == 0 && s.melody == r.melody
      && Step(s, Reset) == Some(s)
  {
  }

  /** Running two sequences one after the other. */
  lemma {:induction false} RunAppend(r: Ringer, first: seq<Action>, second: seq<Action>)
    ensures Run(r, first + second) ==
      match Run(r, first) case None => None case Some(s) => Run(s, second)
    decreases |first|
  {
    if first == [] {
      assert first + second == second;
    } else {
      assert (first + second)[0] == first[0];
      assert (first + second)[1..] == first[1..] + second;
      if Step(r, first[0]).Some? {
        RunAppend(Step(r, first[0]).value, first[1..], second);
      }
    }
  }

  function Repeats(n: nat): (actions: seq<Action>)
    ensures |actions| == n && forall i :: 0 <= i < n ==> actions[i] == Repeat
  {
    seq(n, _ => Repeat)
  }

  /** While the counter does not pass 3, each `repeat` raises the melody by
      a semitone and counts it. */
  lemma {:induction false} RepeatsRaise(j: nat, c: nat, n: nat)
    requires c + n <= 3 && j + n <= 9
    ensures Run(Ringer(true, false, c, Transposed(j)), Repeats(n))
         == Some(Ringer(true, false, c + n, Transposed(j + n)))
    decreases n
  {
    if n > 0 {
      TransposeStep(j);
      assert Repeats(n)[1..] == Repeats(n - 1);
      RepeatsRaise(j + 1, c + 1, n - 1);
    }
  }

  /** Four `repeat` calls from counter 0: three semitones up, then back to
      the default melody with the counter at 0. */
  lemma FourRepeats(j: nat)
    requires j + 3 <= 9
    ensures Run(Ringer(true, false, 0, Transposed(j)), Repeats(3))
         == Some(Ringer(true, false, 3, Transposed(j + 3)))
    ensures Run(Ringer(true, false, 0, Transposed(j)), Repeats(4))
         == Some(Ringer(true, false, 0, DefaultMelody))
  {
    RepeatsRaise(j, 0, 3);
    assert Repeats(4) == Repeats(3) + [Repeat];
    RunAppend(Ringer(true, false, 0, Transposed(j)), Repeats(3), [Repeat]);
  }

  // ---------------------------------------------------------------------
  // Tone drift across days
  // ---------------------------------------------------------------------

  /** One morning of the main loop: the alarm turns on, repeats `n` times
      before motion is seen, is dismissed, and is reset. */
  function RingDay(n: nat): seq<Action>
  {
    [TurnOn] + Repeats(n) + [Dismiss, Reset]
  }

  /** A morning with up to three repeats leaves the alarm off with counter
      0, but its melody stays raised by those repeats: `reset` does not
      restore the tone. */
  lemma {:induction false} RingDayDrifts(j: nat, n: nat)
    requires n <= 3 && j + n <= 9
    ensures Run(Ringer(false, false, 0, Transposed(j)), RingDay(n))
         == Some(Ringer(false, false, 0, Transposed(j + n)))
  {
    var r := Ringer(false, false, 0, Transposed(j));
    TransposedPlayable(j);
    assert Step(r, TurnOn) == Some(Ringer(true, false, 0, Transposed(j)));
    RepeatsRaise(j, 0, n);
    RunAppend(r, [TurnOn] + Repeats(n), [Dismiss, Reset]);
    RunAppend(r, [TurnOn], Repeats(n));
    var rung := Ringer(true, false, n, Transposed(j + n));
    assert [Dismiss, Reset][1..] == [Reset];
    assert Run(rung, [Dismiss, Reset]) == Run(rung.(isOn := false, dismissed := true), [Reset]);
  }

  /** The fresh alarm of the constructor, as far as ringing goes. */
  const Fresh: Ringer := Ringer(false, false, 0, DefaultMelody)

  /** Three mornings dismissed after three repeats each leave the melody
      nine semitones up; on the fourth morning the first `repeat` reaches
      a "b4" and raises an `IndexError`. */
  lemma ToneDriftRaises()
    ensures Run(Fresh, RingDay(3) + RingDay(3) + RingDay(3))
         == Some(Ringer(false, false, 0, Transposed(9)))
    ensures Run(Fresh, RingDay(3) + RingDay(3) + RingDay(3) + [TurnOn, Repeat]) == None
  {
    TransposedZero();
    RingDayDrifts(0, 3);
    RingDayDrifts(3, 3);
    RingDayDrifts(6, 3);
    RunAppend(Fresh, RingDay(3), RingDay(3));
    RunAppend(Fresh, RingDay(3) + RingDay(3), RingDay(3));
    var nine := Ringer(false, false, 0, Transposed(9));
    TransposedPlayable(9);
    TransposeLimit();
    assert !Raisable(Transposed(9));
    RunAppend(Fresh, RingDay(3) + RingDay(3) + RingDay(3), [TurnOn, Repeat]);
  }

  /** The evidently intended `reset`: also restore the buzzer's tone. */
  function StepRestoring(r: Ringer, a: Action): Option<Ringer>
  {
    if a == Reset then Some(Ringer(false, false, 0, DefaultMelody)) else Step(r, a)
  }

  function RunRestoring(r: Ringer, actions: seq<Action>): Option<Ringer>
    decreases |actions|
  {
    if actions == [] then Some(r)
    else match StepRestoring(r, actions[0])
      case None => None
      case Some(s) => RunRestoring(s, actions[1..])
  }

  /** The melody sits exactly as many semitones up as the counter says. */
  predicate Aligned(r: Ringer)
  {
    0 <= r.repetitions <= 3 && !(r.isOn && r.dismissed) && r.melody == Transposed(r.repetitions)
  }

  /** With the restoring `reset` every call keeps the melody aligned with
      the counter, so no call ever raises. */
  lemma StepRestoringAligned(r: Ringer, a: Action)
    requires Aligned(r)
    ensures StepRestoring(r, a).Some? && Aligned(StepRestoring(r, a).value)
  {
    TransposedZero();
    TransposedPlayable(r.repetitions);
    if r.repetitions < 3 {
      TransposeStep(r.repetitions);
    }
  }

  lemma {:induction false} RunRestoringNeverRaises(r: Ringer, actions: seq<Action>)
    requires Aligned(r)
    ensures RunRestoring(r, actions).Some? && Aligned(RunRestoring(r, actions).value)
    decreases |actions|
  {
    if actions != [] {
      StepRestoringAligned(r, actions[0]);
      RunRestoringNeverRaises(StepRestoring(r, actions[0]).value, actions[1..]);
    }
  }

  // ---------------------------------------------------------------------
  // The Alarm object
  // ---------------------------------------------------------------------

  class Alarm {
    const time: Time
    const buzzer: Buzzer
    var isOn: bool
    var dismissed: bool
    var repetitions: int
    var daysOff: seq<string>
    var message: string

    function Ringing(): Ringer
      reads this, buzzer
    {
      Ringer(isOn, dismissed, repetitions, buzzer.melody)
    }

    predicate Valid()
      reads this, buzzer
    {
      Sound(Ringing()) && NoDuplicates(daysOff)
    }

    /** A new alarm: off, not dismissed, counter 0, no days off, the
        message "Wake up!", set for `hour`:`minutes` (08:00 by default). */
    constructor (hour: int := 8, minutes: int := 0)
      ensures Valid() && fresh(time) && fresh(buzzer)
      ensures time.Value() == TimeValue(hour := hour, minutes := minutes)
      ensures Ringing() == Fresh && buzzer.pwm == []
      ensures daysOff == [] && message == "Wake up!"
    {
      time := new Time(hour := hour, minutes := minutes);
      buzzer := new Buzzer();
      isOn := false;
      dismissed := false;
      repetitions := 0;
      daysOff := [];
      message := "Wake up!";
    }

    /** `set_time`: copy a new `Time(hour=hour, minutes=minutes)`, whose day
        is the default "Monday". */
    method SetTime(hour: int, minutes: int)
      modifies time
      ensures time.Value() == TimeValue(hour := hour, minutes := minutes)
    {
      var t := new Time(hour := hour, minutes := minutes);
      time.Set(t);
    }

    method SetMessage(message: string)
      modifies this
      ensures this.message == message
      ensures daysOff == old(daysOff) && Ringing() == old(Ringing())
    {
      this.message := message;
    }

    /** `set_days_off`. */
    method SetDaysOff(days: seq<string>)
      requires Valid()
      modifies this
      ensures Valid() && daysOff == AddDays(old(daysOff), days)
      ensures forall t: TimeValue :: IsDayOff(t) <==> old(IsDayOff(t)) || t.day in days
      ensures message == old(message) && Ringing() == old(Ringing())
    {
      var i := 0;
      while i < |days|
        invariant 0 <= i <= |days| && Valid()
        invariant daysOff == AddDays(old(daysOff), days[..i])
        invariant message == old(message) && Ringing() == old(Ringing())
      {
        assert days[..i + 1][..i] == days[..i];
        if days[i] !in daysOff {
          daysOff := daysOff + [days[i]];
        }
        i := i + 1;
      }
      assert days[..i] == days;
    }

    /** `remove_days_off`. */
    method RemoveDaysOff(days: seq<string>)
      requires Valid()
      modifies this
      ensures Valid() && daysOff == RemoveDays(old(daysOff), days)
      ensures daysOff == Without(old(daysOff), days)
      ensures forall t: TimeValue :: IsDayOff(t) <==> old(IsDayOff(t)) && t.day !in days
      ensures message == old(message) && Ringing() == old(Ringing())
    {
      var i := 0;
      while i < |days|
        invariant 0 <= i <= |days| && Valid()
        invariant daysOff == RemoveDays(old(daysOff), days[..i])
        invariant message == old(message) && Ringing() == old(Ringing())
      {
        assert days[..i + 1][..i] == days[..i];
        RemoveDaysIsWithout(old(daysOff), days[..i]);
        if days[i] in daysOff {
          daysOff := RemoveFirst(daysOff, days[i]);
        }
        RemoveDaysIsWithout(old(daysOff), days[..i + 1]);
        WithoutKeepsDistinct(old(daysOff), days[..i + 1]);
        i := i + 1;
      }
      assert days[..i] == days;
      RemoveDaysIsWithout(old(daysOff), days);
    }

    /** `is_day_off`: whether the day of `t` is one of the days off.
        `SetDaysOff` and `RemoveDaysOff` state how its answer changes. */
    predicate IsDayOff(t: TimeValue)
      reads this
    {
      t.day in daysOff
    }

    /** `on`. */
    method On()
      requires Valid()
      modifies this, buzzer
      ensures Valid() && Step(old(Ringing()), TurnOn) == Some(Ringing())
      ensures buzzer.pwm == old(buzzer.pwm)
        + (if old(isOn) then [] else NoteWrites(buzzer.melody) + [StopWrite])
      ensures daysOff == old(daysOff) && message == old(message)
    {
      if isOn {
        return;
      }
      isOn := true;
      dismissed := false;
      var ok := buzzer.PlayMelody();
    }

    /** `repeat`. When `increase_tone` raises, the counter has already been
        incremented and the melody is left part-raised. */
    method Repeat() returns (ok: bool)
      requires Valid()
      modifies this, buzzer
      ensures Valid()
      ensures ok <==> Step(old(Ringing()), Action.Repeat).Some?
      ensures ok ==> Step(old(Ringing()), Action.Repeat) == Some(Ringing())
      ensures ok ==> (buzzer.pwm == old(buzzer.pwm)
        + (if old(isOn) then NoteWrites(buzzer.melody) + [StopWrite] else []))
      ensures !ok ==> repetitions == old(repetitions) + 1 && isOn && buzzer.pwm == old(buzzer.pwm)
      ensures !ok ==>
        var i := FirstUnraisable(old(buzzer.melody));
        buzzer.melody == RaiseEach(old(buzzer.melody)[..i]) + old(buzzer.melody)[i..]
      ensures daysOff == old(daysOff) && message == old(message)
    {
      if !isOn {
        return true;
      }
      ghost var before := Ringing();
      repetitions := repetitions + 1;
      if repetitions > 3 {
        repetitions := 0;
        buzzer.RestoreTone();
      } else {
        ok := buzzer.IncreaseTone();
        if !ok {
          return;
        }
      }
      assert Step(before, Action.Repeat) == Some(Ringing());
      ok := buzzer.PlayMelody();
    }

    /** `dismiss`. */
    method Dismiss()
      requires Valid()
      modifies this, buzzer
      ensures Valid() && Step(old(Ringing()), Action.Dismiss) == Some(Ringing())
      ensures buzzer.pwm == old(buzzer.pwm) + (if old(isOn) then [StopWrite] else [])
      ensures daysOff == old(daysOff) && message == old(message)
    {
      if !isOn {
        return;
      }
      isOn := false;
      dismissed := true;
      buzzer.Stop();
    }

    /** `reset`, as written: the buzzer's tone is left where it is. */
    method Reset()
      requires Valid()
      modifies this
      ensures Valid() && Step(old(Ringing()), Action.Reset) == Some(Ringing())
      ensures daysOff == old(daysOff) && message == old(message)
    {
      isOn := false;
      dismissed := false;
      repetitions := 0;
    }

    /** `reset` as evidently intended: also `restore_tone`. */
    method ResetRestoringTone()
      requires Valid()
      modifies this, buzzer
      ensures Valid() && StepRestoring(old(Ringing()), Action.Reset) == Some(Ringing())
      ensures buzzer.pwm == old(buzzer.pwm)
      ensures daysOff == old(daysOff) && message == old(message)
    {
      isOn := false;
      dismissed := false;
      repetitions := 0;
      buzzer.RestoreTone();
    }
  }
}
