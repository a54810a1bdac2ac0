/**
 * src/workout_data/effort.rs: one interval of a workout — a duration, a starting and an
 * ending intensity — together with the text buffers the editor shows while it is edited.
 */
module Efforts {
  import opened Wrappers
  import opened Text
  import opened Decimal

  /** Whether the effort is shown read-only or is being edited through three text buffers. */
  datatype EffortState =
    | Idle
    | Editing(startingValue: string, endingValue: string, durationInMinutes: string)

  datatype Effort = Effort(durationInMinutes: real, startingValue: real, endingValue: real, guiState: EffortState)

  /** An effort whose intensity changes over its duration. */
  predicate IsRamp(e: Effort) {
    e.startingValue != e.endingValue
  }

  /** `Effort::new`: a missing ending value means a steady effort; a new effort is never being edited. */
  function New(durationInMinutes: real, startingValue: real, endingValue: Option<real>): (e: Effort)
    ensures e.durationInMinutes == durationInMinutes && e.startingValue == startingValue
    ensures endingValue.None? ==> !IsRamp(e)
    ensures endingValue.Some? ==> e.endingValue == endingValue.value
    ensures e.guiState == Idle
  {
    Effort(durationInMinutes, startingValue, if endingValue.Some? then endingValue.value else startingValue, Idle)
  }

  /** One line of the course data: a minute, a tab and an intensity, both with two fractional digits. */
  function MrcLine(minute: real, value: real): string {
    Fmt2(minute) + "\t" + Fmt2(value)
  }

  /** A course data line holds no newline and no bracket, and ends in a digit. */
  lemma {:induction false} MrcLinePlain(minute: real, value: real)
    ensures var line := MrcLine(minute, value);
      |line| > 0 && '\n' !in line && '[' !in line && '=' !in line && line[|line| - 1] != '\r' && IsDigit(line[|line| - 1])
  {
    Fmt2Plain(minute);
    Fmt2Plain(value);
  }

  /**
   * `to_mrc`: the effort as two lines of course data — where it starts and at what intensity,
   * where it ends and at what intensity — together with the minute at which it ends.
   */
  function ToMrc(e: Effort, startingMinute: real): (r: (string, real))
    ensures r.1 == startingMinute + e.durationInMinutes
  {
    var endOfEffort := startingMinute + e.durationInMinutes;
    (MrcLine(startingMinute, e.startingValue) + "\n" + MrcLine(endOfEffort, e.endingValue), endOfEffort)
  }

  /** The text of an effort is two lines: where and at what intensity it starts, where and at what intensity it ends. */
  lemma {:induction false} ToMrcLines(e: Effort, startingMinute: real)
    ensures Lines(ToMrc(e, startingMinute).0)
      == [MrcLine(startingMinute, e.startingValue), MrcLine(startingMinute + e.durationInMinutes, e.endingValue)]
  {
    var first := MrcLine(startingMinute, e.startingValue);
    var second := MrcLine(startingMinute + e.durationInMinutes, e.endingValue);
    MrcLinePlain(startingMinute, e.startingValue);
    MrcLinePlain(startingMinute + e.durationInMinutes, e.endingValue);
    calc {
      Lines(ToMrc(e, startingMinute).0);
      Lines(first + "\n" + second);
      { LinesPair(first, second); }
      [first, second];
    }
  }

  /** `to_edit`: opens the three edit buffers on the current values; the values themselves stay. */
  function ToEdit(e: Effort): (r: Effort)
    ensures r.durationInMinutes == e.durationInMinutes && r.startingValue == e.startingValue
    ensures r.endingValue == e.endingValue
    ensures r.guiState.Editing?
    ensures OnGrid(e.startingValue) ==> ParseFloat(r.guiState.startingValue) == Some(e.startingValue)
    ensures OnGrid(e.endingValue) ==> ParseFloat(r.guiState.endingValue) == Some(e.endingValue)
    ensures OnGrid(e.durationInMinutes) ==> ParseFloat(r.guiState.durationInMinutes) == Some(e.durationInMinutes)
  {
    ParseFmt2OnGrid(e.startingValue);
    ParseFmt2OnGrid(e.endingValue);
    ParseFmt2OnGrid(e.durationInMinutes);
    e.(guiState := Editing(Fmt2(e.startingValue), Fmt2(e.endingValue), Fmt2(e.durationInMinutes)))
  }

  /**
   * `to_idle`: the effort the edit buffers describe, or None when the effort is not being
   * edited or a buffer does not hold a number. An empty ending buffer means a steady effort.
   */
  function ToIdle(e: Effort): (r: Option<Effort>)
    ensures e.guiState.Idle? ==> r.None?
    ensures e.guiState.Editing? ==>
      (r.Some? <==>
        ParseFloat(e.guiState.durationInMinutes).Some? && ParseFloat(e.guiState.startingValue).Some?
        && (e.guiState.endingValue == "" || ParseFloat(e.guiState.endingValue).Some?))
    ensures r.Some? ==>
      r.value.guiState == Idle
      && Some(r.value.durationInMinutes) == ParseFloat(e.guiState.durationInMinutes)
      && Some(r.value.startingValue) == ParseFloat(e.guiState.startingValue)
      && (e.guiState.endingValue == "" ==> !IsRamp(r.value))
      && (e.guiState.endingValue != "" ==> Some(r.value.endingValue) == ParseFloat(e.guiState.endingValue))
  {
    match e.guiState
    case Idle => None
    case Editing(starting, ending, duration) =>
      var newEndingValue: Option<Option<real>> :=
        if ending == "" then Some(None)
        else match ParseFloat(ending)
          case None => None
          case Some(v) => Some(Some(v));
      if newEndingValue.None? then None
      else match ParseFloat(duration)
        case None => None
        case Some(d) =>
          match ParseFloat(starting)
          case None => None
          case Some(s) => Some(New(d, s, newEndingValue.value))
  }

  /** `update_duration_of_effort`: replaces the duration buffer of an effort being edited, and nothing else. */
  function UpdateDurationOfEffort(e: Effort, updatedDuration: string): (r: Effort)
    ensures e.guiState.Idle? ==> r == e
    ensures e.guiState.Editing? ==> r.guiState.Editing? && r.guiState.durationInMinutes == updatedDuration
    ensures e.guiState.Editing? ==> r == e.(guiState := e.guiState.(durationInMinutes := updatedDuration))
  {
    match e.guiState
    case Idle => e
    case Editing(starting, ending, _) => e.(guiState := Editing(starting, ending, updatedDuration))
  }

  /** `update_starting_value`: replaces the starting-value buffer of an effort being edited, and nothing else. */
  function UpdateStartingValue(e: Effort, updatedStartingValue: string): (r: Effort)
    ensures e.guiState.Idle? ==> r == e
    ensures e.guiState.Editing? ==> r == e.(guiState := e.guiState.(startingValue := updatedStartingValue))
  {
    match e.guiState
    case Idle => e
    case Editing(_, ending, duration) => e.(guiState := Editing(updatedStartingValue, ending, duration))
  }

  /** `update_ending_value`: replaces the ending-value buffer of an effort being edited, and nothing else. */
  function UpdateEndingValue(e: Effort, updatedEndingValue: string): (r: Effort)
    ensures e.guiState.Idle? ==> r == e
    ensures e.guiState.Editing? ==> r == e.(guiState := e.guiState.(endingValue := updatedEndingValue))
  {
    match e.guiState
    case Idle => e
    case Editing(starting, _, duration) => e.(guiState := Editing(starting, updatedEndingValue, duration))
  }

  /** Opening and then closing the editor without typing gives back the effort, when its numbers are whole hundredths. */
  lemma {:induction false} ToIdleAfterToEdit(e: Effort)
    requires OnGrid(e.durationInMinutes) && OnGrid(e.startingValue) && OnGrid(e.endingValue)
    ensures ToIdle(ToEdit(e)) == Some(e.(guiState := Idle))
  {
    var edited := ToEdit(e);
    assert edited.guiState.endingValue != "";
  }

  /** Typing a new duration and closing the editor gives the effort with that duration and nothing else changed. */
  lemma {:induction false} ToIdleAfterDurationUpdate(e: Effort, duration: real)
    requires OnGrid(duration) && OnGrid(e.startingValue) && OnGrid(e.endingValue)
    ensures ToIdle(UpdateDurationOfEffort(ToEdit(e), Fmt2(duration))) == Some(Effort(duration, e.startingValue, e.endingValue, Idle))
  {
    ParseFmt2(duration);
    assert ToEdit(e).guiState.endingValue != "";
  }

  /** Clearing the ending buffer and closing the editor gives a steady effort at the starting value. */
  lemma {:induction false} ToIdleAfterEndingCleared(e: Effort)
    requires OnGrid(e.durationInMinutes) && OnGrid(e.startingValue)
    ensures ToIdle(UpdateEndingValue(ToEdit(e), "")) == Some(Effort(e.durationInMinutes, e.startingValue, e.startingValue, Idle))
  {
  }

  /** Editing does not touch an effort that is not being edited: every update leaves an idle effort alone. */
  lemma {:induction false} UpdatesIgnoreIdle(e: Effort, text: string)
    requires e.guiState.Idle?
    ensures UpdateDurationOfEffort(e, text) == e && UpdateStartingValue(e, text) == e && UpdateEndingValue(e, text) == e
    ensures ToIdle(e).None?
  {
  }

  /**
   * The test samples: a new effort without an ending value is steady; its starting value 100 is
   * written `100.00`; five minutes at 100 from minute 5 are written as two lines and end at minute 10.
   */
  lemma {:induction false} Samples()
    ensures New(60.0, 150.0, None) == Effort(60.0, 150.0, 150.0, Idle)
    ensures Fmt2(New(60.0, 100.0, None).startingValue) == "100.00"
    ensures ToMrc(New(5.0, 100.0, None), 5.0) == ("5.00\t100.00\n10.00\t100.00", 10.0)
  {
    Fmt2Five();
    Fmt2Ten();
    Fmt2Hundred();
    var e := New(5.0, 100.0, None);
    assert e == Effort(5.0, 100.0, 100.0, Idle);
    assert ToMrc(e, 5.0).0 == MrcLine(5.0, 100.0) + "\n" + MrcLine(10.0, 100.0);
    assert MrcLine(5.0, 100.0) == "5.00\t100.00";
    assert MrcLine(10.0, 100.0) == "10.00\t100.00";
    assert "5.00\t100.00" + "\n" + "10.00\t100.00" == "5.00\t100.00\n10.00\t100.00";
  }
}
