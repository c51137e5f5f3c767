/** The alarm's buzzer (sources/buzzer.py): two note tables, a melody that
    is transposed in place a semitone at a time, and the PWM writes that
    sound each note. */
module Buzzers {
  import opened Wrappers
  import opened PyBuiltins

  /** `notes_names`: C3 up to B4 in semitone steps. */
  const NotesNames: seq<string> := [
    "c3", "c#3", "d3", "d#3", "e3", "f3", "f#3", "g3", "g#3", "a3", "a#3", "b3",
    "c4", "c#4", "d4", "d#4", "e4", "f4", "f#4", "g4", "g#4", "a4", "a#4", "b4"
  ]

  /** `notes_freqs`: the frequency in hertz of each entry of `NotesNames`. */
  const NotesFreqs: seq<int> := [
    130, 138, 146, 155, 164, 174, 185, 196, 208, 220, 233, 246,
    261, 277, 293, 311, 329, 349, 369, 392, 415, 440, 466, 493
  ]

  /** `default_melody`. */
  const DefaultMelody: seq<string> := ["g3", "a3", "b3", "c4", "d4", "d4", "g3"]

  /** Where each note of `DefaultMelody` sits in `NotesNames`. */
  const DefaultPositions: seq<nat> := [7, 9, 11, 12, 14, 14, 7]

  /** The tables line up entry by entry and the frequencies rise strictly
      from C3 to B4. */
  lemma FreqsIncrease()
    ensures |NotesNames| == 24 && |NotesFreqs| == 24
    ensures forall i, j :: 0 <= i < j < 24 ==> 0 < NotesFreqs[i] < NotesFreqs[j]
  {
  }

  lemma FreqPositive(i: nat)
    requires i < 24
    ensures NotesFreqs[i] > 0
  {
    FreqsIncrease();
  }

  /** No note is named twice, so `index` finds each name where it is. */
  lemma NamesDistinct()
    ensures NoDuplicates(NotesNames)
  {
  }

  // ---------------------------------------------------------------------
  // Table lookups
  // ---------------------------------------------------------------------

  /** `notes_freqs[notes_names.index(note)]`; `None` is the `ValueError`
      of an unknown note name. */
  function FreqOf(note: string): (r: Option<int>)
    ensures r.Some? ==> r.value > 0
  {
    match IndexOf(NotesNames, note)
    case None => None
    case Some(i) => FreqPositive(i); Some(NotesFreqs[i])
  }

  /** `notes_names[notes_names.index(note) + 1]`; `None` is the
      `ValueError` of an unknown name or the `IndexError` past the last one. */
  function Raise(note: string): (r: Option<string>)
    ensures r.Some? ==> FreqOf(note).Some? && FreqOf(r.value).Some?
  {
    match IndexOf(NotesNames, note)
    case None => None
    case Some(i) =>
      if i + 1 < |NotesNames| then FreqOfNote(i + 1); Some(NotesNames[i + 1]) else None
  }

  /** A note has a frequency exactly when it is one of the names. */
  lemma FreqOfKnown(note: string)
    ensures FreqOf(note).Some? <==> note in NotesNames
  {
    IndexOfFound(NotesNames, note);
  }

  /** Each name is raised to the next one; the last one, "b4", cannot be. */
  lemma RaiseNote(j: nat)
    requires j < 24
    ensures Raise(NotesNames[j]) == (if j < 23 then Some(NotesNames[j + 1]) else None)
  {
    NamesDistinct();
    IndexOfDistinct(NotesNames, j);
  }

  lemma FreqOfNote(j: nat)
    requires j < 24
    ensures FreqOf(NotesNames[j]) == Some(NotesFreqs[j])
  {
    NamesDistinct();
    IndexOfDistinct(NotesNames, j);
  }

  // ---------------------------------------------------------------------
  // Sounding notes
  // ---------------------------------------------------------------------

  /** One `pwm.write(pin, period, duty[, MICROS])` call; `micros` tells the
      calls that pass the `MICROS` unit. */
  datatype PwmWrite = PwmWrite(period: int, duty: int, micros: bool)

  /** `stop`: period and duty zero, in the default unit. */
  const StopWrite: PwmWrite := PwmWrite(0, 0, false)

  /** `_play_note`: the period in microseconds of one cycle at `freq`
      hertz, rounded down, with the pin high for half of it. */
  function NoteWrite(freq: int): (w: PwmWrite)
    requires freq > 0
    ensures w.micros && w.period * freq <= 1000000 < (w.period + 1) * freq
    ensures w.duty * 2 <= w.period < w.duty * 2 + 2
  {
    var period := 1000000 / freq;
    PwmWrite(period, period / 2, true)
  }

  /** A melody `play_melody` gets through: every note has a frequency. */
  predicate Playable(m: seq<string>)
  {
    forall k :: 0 <= k < |m| ==> FreqOf(m[k]).Some?
  }

  /** The note `play_melody` fails on: all before it have a frequency, it
      has none; the length when every note has one. */
  function FirstUnplayable(m: seq<string>): (i: nat)
    ensures i <= |m| && Playable(m[..i])
    ensures i < |m| ==> FreqOf(m[i]).None?
  {
    var i := FirstFailing(m, note => FreqOf(note).None?);
    assert forall k :: 0 <= k < i ==> m[..i][k] == m[k];
    i
  }

  lemma FirstUnplayableAt(m: seq<string>, i: nat)
    requires i < |m| && Playable(m[..i]) && FreqOf(m[i]).None?
    ensures FirstUnplayable(m) == i
  {
    assert forall k :: 0 <= k < i ==> m[..i][k] == m[k];
    FirstFailingAt(m, note => FreqOf(note).None?, i);
  }

  /** The writes that sound each note of a playable melody, in order. */
  function NoteWrites(m: seq<string>): (w: seq<PwmWrite>)
    requires Playable(m)
    ensures |w| == |m|
    ensures forall k :: 0 <= k < |m| ==> w[k] == NoteWrite(FreqOf(m[k]).value)
  {
    if m == [] then []
    else
      var init := m[..|m| - 1];
      assert Playable(init) by { assert forall k :: 0 <= k < |init| ==> init[k] == m[k]; }
      NoteWrites(init) + [NoteWrite(FreqOf(m[|m| - 1]).value)]
  }

  /** One more playable note extends the writes by that note's write. */
  lemma PlayableStep(m: seq<string>, i: nat)
    requires i < |m| && Playable(m[..i]) && FreqOf(m[i]).Some?
    ensures Playable(m[..i + 1])
    ensures NoteWrites(m[..i + 1]) == NoteWrites(m[..i]) + [NoteWrite(FreqOf(m[i]).value)]
  {
    assert m[..i + 1][..i] == m[..i];
    assert forall k :: 0 <= k < i ==> m[..i + 1][k] == m[..i][k];
  }

  /** A played melody is heard as its own notes: each write's period is
      that of the frequency listed for the note at the same position. */
  lemma {:induction false} NoteWritesOfNotes(m: seq<string>, positions: seq<nat>)
    requires |positions| == |m|
    requires forall k :: 0 <= k < |m| ==> positions[k] < 24 && m[k] == NotesNames[positions[k]]
    ensures Playable(m)
    ensures forall k :: 0 <= k < |m| ==> NoteWrites(m)[k] == NoteWrite(NotesFreqs[positions[k]])
  {
    forall k | 0 <= k < |m|
      ensures FreqOf(m[k]) == Some(NotesFreqs[positions[k]])
    {
      FreqOfNote(positions[k]);
    }
  }

  // ---------------------------------------------------------------------
  // Transposition
  // ---------------------------------------------------------------------

  /** A melody `increase_tone` gets through: no note is unknown or "b4". */
  predicate Raisable(m: seq<string>)
  {
    forall k :: 0 <= k < |m| ==> Raise(m[k]).Some?
  }

  /** Every note of a raisable melody moved up one semitone. */
  function RaiseEach(m: seq<string>): (r: seq<string>)
    requires Raisable(m)
    ensures |r| == |m| && Playable(r)
    ensures forall k :: 0 <= k < |m| ==> r[k] == Raise(m[k]).value
  {
    seq(|m|, k requires 0 <= k < |m| => Raise(m[k]).value)
  }

  /** The first note `increase_tone` fails on, or the length if none. */
  function FirstUnraisable(m: seq<string>): (i: nat)
    ensures i <= |m| && Raisable(m[..i])
    ensures i < |m| ==> Raise(m[i]).None?
    ensures i == |m| <==> Raisable(m)
  {
    var i := FirstFailing(m, note => Raise(note).None?);
    assert forall k :: 0 <= k < i ==> m[..i][k] == m[k];
    i
  }

  /** The default melody moved up `k` semitones. Its highest note is d4,
      nine places below the top of the table. */
  function Transposed(k: nat): (m: seq<string>)
    requires k <= 9
    ensures |m| == 7
  {
    seq(7, i requires 0 <= i < 7 => NotesNames[DefaultPositions[i] + k])
  }

  lemma TransposedZero()
    ensures Transposed(0) == DefaultMelody
  {
  }

  /** Note `i` of the default melody moved up `k` semitones. */
  lemma TransposedNote(k: nat, i: nat)
    requires k <= 9 && i < 7
    ensures Transposed(k)[i] == NotesNames[DefaultPositions[i] + k]
    ensures FreqOf(Transposed(k)[i]) == Some(NotesFreqs[DefaultPositions[i] + k])
    ensures Raise(Transposed(k)[i]) ==
      if DefaultPositions[i] + k < 23 then Some(NotesNames[DefaultPositions[i] + k + 1]) else None
  {
    FreqOfNote(DefaultPositions[i] + k);
    RaiseNote(DefaultPositions[i] + k);
  }

  /** Every transposition the alarm can reach is playable. */
  lemma TransposedPlayable(k: nat)
    requires k <= 9
    ensures Playable(Transposed(k))
  {
    forall i | 0 <= i < 7
      ensures FreqOf(Transposed(k)[i]).Some?
    {
      TransposedNote(k, i);
    }
  }

  /** Up to nine transpositions succeed, each moving every note one
      semitone further. */
  lemma TransposeStep(k: nat)
    requires k < 9
    ensures Raisable(Transposed(k))
    ensures RaiseEach(Transposed(k)) == Transposed(k + 1)
  {
    forall i | 0 <= i < 7
      ensures Raise(Transposed(k)[i]) == Some(Transposed(k + 1)[i])
    {
      TransposedNote(k, i);
      TransposedNote(k + 1, i);
    }
  }

  /** After nine the d4 notes have reached b4: the tenth transposition
      fails at the fifth note, after raising the four before it. */
  lemma TransposeLimit()
    ensures Transposed(9)[4] == NotesNames[23]
    ensures FirstUnraisable(Transposed(9)) == 4
  {
    forall i | 0 <= i < 4
      ensures Raise(Transposed(9)[i]).Some?
    {
      TransposedNote(9, i);
    }
    TransposedNote(9, 4);
    var m := Transposed(9);
    assert Raisable(m[..4]);
    FirstUnraisableAt(m, 4);
  }

  // ---------------------------------------------------------------------
  // The Buzzer object
  // ---------------------------------------------------------------------

  /** A `Buzzer`: the melody it plays, and the log of `pwm.write` calls on
      its pin. */
  class Buzzer {
    var melody: seq<string>
    var pwm: seq<PwmWrite>

    /** Every note of the melody has a frequency. */
    predicate Valid()
      reads this
    {
      Playable(melody)
    }

    /** The constructor copies `default_melody`. */
    constructor ()
      ensures Valid() && melody == DefaultMelody && pwm == []
    {
      melody := DefaultMelody;
      pwm := [];
      TransposedZero();
      TransposedPlayable(0);
    }

    /** `stop`: disable the PWM output. */
    method Stop()
      modifies this
      ensures melody == old(melody) && pwm == old(pwm) + [StopWrite]
    {
      pwm := pwm + [StopWrite];
    }

    /** `_play_note`. */
    method PlayNote(freq: int)
      requires freq > 0
      modifies this
      ensures melody == old(melody) && pwm == old(pwm) + [NoteWrite(freq)]
    {
      var period := 1000000 / freq;
      pwm := pwm + [PwmWrite(period, period / 2, true)];
    }

    /** `play_melody`: an empty `requested` stands for both `None` and `[]`,
        which play the buzzer's own melody. One write per note, then `stop`;
        an unknown note raises after the writes of the notes before it. */
    method PlayMelody(requested: seq<string> := []) returns (ok: bool)
      modifies this
      ensures melody == old(melody)
      ensures var m := if requested == [] then old(melody) else requested;
        && (ok <==> Playable(m))
        && (ok ==> pwm == old(pwm) + NoteWrites(m) + [StopWrite])
        && (!ok ==> pwm == old(pwm) + NoteWrites(m[..FirstUnplayable(m)]))
    {
      var m := if requested == [] then melody else requested;
      ghost var start := pwm;
      var i := 0;
      while i < |m|
        invariant 0 <= i <= |m| && Playable(m[..i]) && melody == old(melody)
        invariant pwm == start + NoteWrites(m[..i])
      {
        var freq := FreqOf(m[i]);
        if freq.None? {
          ok := false;
          FirstUnplayableAt(m, i);
          return;
        }
        PlayNote(freq.value);
        PlayableStep(m, i);
        ConcatAssoc(start, NoteWrites(m[..i]), [NoteWrite(freq.value)]);
        i := i + 1;
      }
      assert m[..i] == m;
      Stop();
      ok := true;
    }

    /** `increase_tone`: each note, in order, is replaced in place by the
        next name in the table. The first note that is unknown or "b4"
        raises, leaving the notes before it raised and the rest unchanged. */
    method IncreaseTone() returns (ok: bool)
      modifies this
      ensures pwm == old(pwm) && |melody| == |old(melody)|
      ensures ok <==> Raisable(old(melody))
      ensures ok ==> melody == RaiseEach(old(melody))
      ensures !ok ==>
        var i := FirstUnraisable(old(melody));
        melody == RaiseEach(old(melody)[..i]) + old(melody)[i..]
      ensures old(Valid()) ==> Valid()
    {
      ghost var m0 := melody;
      var i := 0;
      while i < |melody|
        invariant 0 <= i <= |m0| && |melody| == |m0| && pwm == old(pwm)
        invariant Raisable(m0[..i])
        invariant melody == RaiseEach(m0[..i]) + m0[i..]
      {
        var next := Raise(melody[i]);
        if next.None? {
          ok := false;
          FirstUnraisableAt(m0, i);
          if Playable(m0) {
            PartlyRaisedPlayable(m0, i);
          }
          return;
        }
        RaiseOneMore(m0, i);
        melody := melody[i := next.value];
        i := i + 1;
      }
      assert m0[..i] == m0;
      ok := true;
    }

    /** `restore_tone`: a fresh copy of `default_melody`. */
    method RestoreTone()
      modifies this
      ensures Valid() && melody == DefaultMelody && pwm == old(pwm)
    {
      melody := DefaultMelody;
      TransposedZero();
      TransposedPlayable(0);
    }
  }

  /** One more note raised in place extends the raised prefix by one. */
  lemma RaiseOneMore(m: seq<string>, i: nat)
    requires i < |m| && Raisable(m[..i]) && Raise(m[i]).Some?
    ensures Raisable(m[..i + 1])
    ensures (RaiseEach(m[..i]) + m[i..])[i := Raise(m[i]).value] == RaiseEach(m[..i + 1]) + m[i + 1..]
  {
    assert forall k :: 0 <= k < i ==> m[..i + 1][k] == m[..i][k];
  }

  /** A melody stopped part-way through a transposition is still playable. */
  lemma PartlyRaisedPlayable(m: seq<string>, i: nat)
    requires Playable(m) && i <= |m| && Raisable(m[..i])
    ensures Playable(RaiseEach(m[..i]) + m[i..])
  {
    var r := RaiseEach(m[..i]) + m[i..];
    forall k | 0 <= k < |r|
      ensures FreqOf(r[k]).Some?
    {
      if k < i {
        assert r[k] == Raise(m[..i][k]).value;
      } else {
        assert r[k] == m[k];
      }
    }
  }

  /** The first failing note is the one after the longest raisable prefix. */
  lemma FirstUnraisableAt(m: seq<string>, i: nat)
    requires i < |m| && Raisable(m[..i]) && Raise(m[i]).None?
    ensures FirstUnraisable(m) == i
  {
    assert forall k :: 0 <= k < i ==> m[..i][k] == m[k];
    FirstFailingAt(m, note => Raise(note).None?, i);
  }
}
