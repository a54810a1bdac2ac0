/**
 * src/workout_data/workout.rs: a named workout — a description, a list of efforts and the
 * unit its intensities are given in — and its rendering as a course (`.crm`) file.
 */
module Workouts {
  import opened Wrappers
  import opened Text
  import opened Decimal
  import opened Efforts
  import opened WorkoutTypes
  import PositiveFloats

  /** The total duration of `efforts`: the reference sum, added up from the last effort back. */
  function SumDurations(efforts: seq<Effort>): real
    decreases |efforts|
  {
    if efforts == [] then 0.0 else efforts[0].durationInMinutes + SumDurations(efforts[1..])
  }

  /** Appending an effort adds its duration to the total. */
  lemma {:induction false} SumDurationsSnoc(efforts: seq<Effort>, e: Effort)
    ensures SumDurations(efforts + [e]) == SumDurations(efforts) + e.durationInMinutes
    decreases |efforts|
  {
    if efforts != [] {
      assert (efforts + [e])[1..] == efforts[1..] + [e];
      SumDurationsSnoc(efforts[1..], e);
    }
  }

  /** The total of two lists put together is the sum of their totals. */
  lemma {:induction false} SumDurationsAppend(a: seq<Effort>, b: seq<Effort>)
    ensures SumDurations(a + b) == SumDurations(a) + SumDurations(b)
    decreases |a|
  {
    if a == [] {
      assert a + b == b;
    } else {
      assert (a + b)[1..] == a[1..] + b;
      SumDurationsAppend(a[1..], b);
    }
  }

  /** The prefix up to and including effort `i` adds that effort's duration to the shorter prefix. */
  lemma {:induction false} SumDurationsPrefix(efforts: seq<Effort>, i: nat)
    requires i < |efforts|
    ensures SumDurations(efforts[..i + 1]) == SumDurations(efforts[..i]) + efforts[i].durationInMinutes
  {
    assert efforts[..i + 1] == efforts[..i] + [efforts[i]];
    SumDurationsSnoc(efforts[..i], efforts[i]);
  }

  /** Efforts of non-negative duration add up to a non-negative total. */
  lemma {:induction false} SumDurationsNonNegative(efforts: seq<Effort>)
    requires forall i :: 0 <= i < |efforts| ==> efforts[i].durationInMinutes >= 0.0
    ensures SumDurations(efforts) >= 0.0
    decreases |efforts|
  {
    if efforts != [] {
      SumDurationsNonNegative(efforts[1..]);
    }
  }

  /** Efforts whose durations are whole hundredths of a minute add up to whole hundredths. */
  lemma {:induction false} SumDurationsOnGrid(efforts: seq<Effort>)
    requires forall i :: 0 <= i < |efforts| ==> OnGrid(efforts[i].durationInMinutes)
    ensures OnGrid(SumDurations(efforts))
    decreases |efforts|
  {
    if efforts == [] {
      assert (0.0 * 100.0).Floor == 0;
    } else {
      SumDurationsOnGrid(efforts[1..]);
      OnGridAdd(efforts[0].durationInMinutes, SumDurations(efforts[1..]));
    }
  }

  /**
   * The minute at which each effort starts when the first starts at `startingMinute` and each
   * of the others starts where the one before it ends.
   */
  function StartingMinutes(efforts: seq<Effort>, startingMinute: real): (r: seq<real>)
    ensures |r| == |efforts|
    ensures forall i :: 0 <= i < |efforts| ==> r[i] == startingMinute + SumDurations(efforts[..i])
    decreases |efforts|
  {
    if efforts == [] then []
    else
      var rest := StartingMinutes(efforts[1..], startingMinute + efforts[0].durationInMinutes);
      var r := [startingMinute] + rest;
      assert forall i :: 1 <= i < |efforts| ==> efforts[..i][1..] == efforts[1..][..i - 1];
      r
  }

  /** Each effort starts where the one before it ends. */
  lemma {:induction false} StartingMinutesStep(efforts: seq<Effort>, startingMinute: real, i: nat)
    requires i + 1 < |efforts|
    ensures StartingMinutes(efforts, startingMinute)[i + 1]
      == StartingMinutes(efforts, startingMinute)[i] + efforts[i].durationInMinutes
  {
    SumDurationsPrefix(efforts, i);
  }

  /** `extract_initial_starting_minutes`: collects the running start minute effort by effort. */
  method ExtractInitialStartingMinutes(efforts: seq<Effort>, startingMinute: real) returns (startingTimes: seq<real>)
    ensures startingTimes == StartingMinutes(efforts, startingMinute)
  {
    startingTimes := [];
    var currentStartingTime := startingMinute;
    for i := 0 to |efforts|
      invariant |startingTimes| == i
      invariant forall k :: 0 <= k < i ==> startingTimes[k] == startingMinute + SumDurations(efforts[..k])
      invariant currentStartingTime == startingMinute + SumDurations(efforts[..i])
    {
      startingTimes := startingTimes + [currentStartingTime];
      SumDurationsPrefix(efforts, i);
      currentStartingTime := currentStartingTime + efforts[i].durationInMinutes;
    }
  }

  /**
   * The lines of course data `efforts` make when the first starts at `startingMinute`: for each
   * effort in order, a line with its start minute and starting intensity, then one with its end
   * minute and ending intensity; each effort starts where the one before it ends.
   */
  function CourseDataLines(efforts: seq<Effort>, startingMinute: real): seq<string>
    decreases |efforts|
  {
    if efforts == [] then []
    else
      var end := startingMinute + efforts[0].durationInMinutes;
      [MrcLine(startingMinute, efforts[0].startingValue), MrcLine(end, efforts[0].endingValue)]
      + CourseDataLines(efforts[1..], end)
  }

  /** The efforts zipped with their starting minutes and rendered by `to_mrc`. */
  function RenderEfforts(efforts: seq<Effort>, startingMinutes: seq<real>): (r: seq<(string, real)>)
    requires |startingMinutes| == |efforts|
    ensures |r| == |efforts|
  {
    seq(|efforts|, i requires 0 <= i < |efforts| => ToMrc(efforts[i], startingMinutes[i]))
  }

  /** The texts of rendered efforts, without their end minutes. */
  function TextsOf(rendered: seq<(string, real)>): (r: seq<string>)
    ensures |r| == |rendered|
  {
    seq(|rendered|, i requires 0 <= i < |rendered| => rendered[i].0)
  }

  /** The text of each effort, each rendered from where the efforts before it end. */
  function MrcTexts(efforts: seq<Effort>, startingMinute: real): (r: seq<string>)
    ensures |r| == |efforts|
  {
    TextsOf(RenderEfforts(efforts, StartingMinutes(efforts, startingMinute)))
  }

  /** Effort `k`'s text is rendered from its starting minute. */
  lemma {:induction false} MrcTextsAt(efforts: seq<Effort>, startingMinute: real, k: nat)
    requires k < |efforts|
    ensures MrcTexts(efforts, startingMinute)[k] == ToMrc(efforts[k], StartingMinutes(efforts, startingMinute)[k]).0
  {
  }

  /** The texts of a list are the first effort's text followed by the texts of the rest, which start where it ends. */
  lemma {:induction false} MrcTextsCons(efforts: seq<Effort>, startingMinute: real)
    requires efforts != []
    ensures MrcTexts(efforts, startingMinute)
      == [ToMrc(efforts[0], startingMinute).0] + MrcTexts(efforts[1..], startingMinute + efforts[0].durationInMinutes)
  {
    var end := startingMinute + efforts[0].durationInMinutes;
    var minutes := StartingMinutes(efforts, startingMinute);
    var restMinutes := StartingMinutes(efforts[1..], end);
    assert minutes == [startingMinute] + restMinutes;
    var rendered := RenderEfforts(efforts, minutes);
    var restRendered := RenderEfforts(efforts[1..], restMinutes);
    assert rendered == [ToMrc(efforts[0], startingMinute)] + restRendered by {
      forall k | 1 <= k < |efforts|
        ensures rendered[k] == restRendered[k - 1]
      {
        assert minutes[k] == restMinutes[k - 1];
        assert efforts[k] == efforts[1..][k - 1];
      }
    }
    assert TextsOf([ToMrc(efforts[0], startingMinute)] + restRendered)
      == [ToMrc(efforts[0], startingMinute).0] + TextsOf(restRendered);
  }

  /** Joined with newlines, the effort texts are exactly the course data lines. */
  lemma {:induction false} MrcTextsLines(efforts: seq<Effort>, startingMinute: real)
    ensures Lines(Join(MrcTexts(efforts, startingMinute), "\n")) == CourseDataLines(efforts, startingMinute)
    decreases |efforts|
  {
    if efforts != [] {
      var end := startingMinute + efforts[0].durationInMinutes;
      var first := MrcLine(startingMinute, efforts[0].startingValue);
      var second := MrcLine(end, efforts[0].endingValue);
      var rest := MrcTexts(efforts[1..], end);
      MrcLinePlain(startingMinute, efforts[0].startingValue);
      MrcLinePlain(end, efforts[0].endingValue);
      assert ToMrc(efforts[0], startingMinute).0 == first + "\n" + second;
      assert MrcTexts(efforts, startingMinute) == [ToMrc(efforts[0], startingMinute).0] + rest by {
        MrcTextsCons(efforts, startingMinute);
      }
      assert CourseDataLines(efforts, startingMinute) == [first, second] + CourseDataLines(efforts[1..], end);
      if |efforts| == 1 {
        LinesPair(first, second);
      } else {
        assert Lines(Join(rest, "\n")) == CourseDataLines(efforts[1..], end) by {
          MrcTextsLines(efforts[1..], end);
        }
        var tail := Join(rest, "\n");
        assert Join([first + "\n" + second] + rest, "\n") == (first + "\n" + second) + "\n" + tail by {
          JoinCons(first + "\n" + second, rest, "\n");
        }
        LinesPairThen(first, second, tail);
      }
    }
  }

  /**
   * `efforts_to_crm`: the course data of `efforts` starting at `startingMinute`, and the minute at
   * which the last of them ends (the starting minute itself when there are none).
   */
  function EffortsToCrm(efforts: seq<Effort>, startingMinute: real): (r: (string, real))
    ensures r.1 == startingMinute + SumDurations(efforts)
  {
    var startingMinutes := StartingMinutes(efforts, startingMinute);
    var withFinalMinute := RenderEfforts(efforts, startingMinutes);
    SumDurationsWhole(efforts);
    (Join(TextsOf(withFinalMinute), "\n"),
     if withFinalMinute == [] then startingMinute else withFinalMinute[|withFinalMinute| - 1].1)
  }

  /** The whole list is its own longest prefix: its total is the last effort's start offset plus its duration. */
  lemma {:induction false} SumDurationsWhole(efforts: seq<Effort>)
    ensures efforts != [] ==>
      SumDurations(efforts) == SumDurations(efforts[..|efforts| - 1]) + efforts[|efforts| - 1].durationInMinutes
  {
    if efforts != [] {
      SumDurationsPrefix(efforts, |efforts| - 1);
      assert efforts[..|efforts|] == efforts;
    }
  }

  /** The course data `efforts_to_crm` renders is, line by line, the reference course data lines. */
  lemma {:induction false} EffortsToCrmLines(efforts: seq<Effort>, startingMinute: real)
    ensures Lines(EffortsToCrm(efforts, startingMinute).0) == CourseDataLines(efforts, startingMinute)
  {
    assert EffortsToCrm(efforts, startingMinute).0 == Join(MrcTexts(efforts, startingMinute), "\n");
    MrcTextsLines(efforts, startingMinute);
  }

  /** `Iterator::fold` of the durations onto `total`, from the first effort to the last. */
  function FoldDurations(total: real, efforts: seq<Effort>): (r: real)
    ensures r == total + SumDurations(efforts)
    decreases |efforts|
  {
    if efforts == [] then total else FoldDurations(total + efforts[0].durationInMinutes, efforts[1..])
  }

  /**
   * The running start of `crm_body_workouts` and `total_time_of_workout` as written:
   * `PositiveFloat::new(0.0)`, unwrapped. None stands for the panic of the unwrap.
   */
  function InitialMinuteAsWritten(): (r: Option<PositiveFloats.PositiveFloat>)
    ensures r.Some? ==> r.value.float > 0.0
  {
    match PositiveFloats.New(0.0)
    case Ok(p) => Some(p)
    case Err(_) => None
  }

  /** The validator rejects 0.0, so as written both the course rendering and the total time panic. */
  lemma {:induction false} InitialMinuteAsWrittenPanics()
    ensures InitialMinuteAsWritten() == None
  {
    assert PositiveFloats.New(0.0).Err?;
  }

  class Workout {
    var name: string
    var description: string
    var efforts: seq<Effort>
    var workoutType: WorkoutType

    /** `Workout::new`. */
    constructor (name: string, description: string, efforts: seq<Effort>, workoutType: WorkoutType)
      ensures this.name == name && this.description == description
      ensures this.efforts == efforts && this.workoutType == workoutType
    {
      this.name := name;
      this.description := description;
      this.efforts := efforts;
      this.workoutType := workoutType;
    }

    /** `Workout::empty`: a workout with no efforts, and so of no length. */
    constructor Empty(name: string, description: string, workoutType: WorkoutType)
      ensures this.name == name && this.description == description
      ensures this.efforts == [] && this.workoutType == workoutType
      ensures TotalTimeOfWorkout() == 0.0
    {
      this.name := name;
      this.description := description;
      this.efforts := [];
      this.workoutType := workoutType;
    }

    /** `crm_head`. */
    function CrmHead(): string
      reads this
    {
      "[COURSE HEADER]\nDESCRIPTION = " + description + "\n" + CreateCrmString(workoutType) + "\n[END COURSE HEADER]"
    }

    /** `crm_body`, over the course data `crm_body_workouts` renders. */
    function CrmBody(): string
      reads this
    {
      "[COURSE DATA]\n" + EffortsToCrm(efforts, 0.0).0 + "\n[END COURSE DATA]"
    }

    /**
     * `to_crm`: the course file — the header with the description and the unit line, then the
     * course data block listing the efforts from minute 0.
     */
    function ToCrm(): (s: string)
      reads this
    {
      CrmHead() + "\n" + CrmBody()
    }

    /** `crm_body_workouts`: renders each effort from where the one before it ends, starting at minute 0. */
    method CrmBodyWorkouts() returns (text: string)
      ensures text == EffortsToCrm(efforts, 0.0).0
    {
      ghost var startingMinutes := StartingMinutes(efforts, 0.0);
      ghost var texts := MrcTexts(efforts, 0.0);
      var effortsAsCrm: seq<string> := [];
      var currentStartingMinute := 0.0;
      for i := 0 to |efforts|
        invariant effortsAsCrm == texts[..i]
        invariant i < |efforts| ==> currentStartingMinute == startingMinutes[i]
      {
        var (effortAsCrm, newStartingMinute) := ToMrc(efforts[i], currentStartingMinute);
        assert texts[i] == effortAsCrm by {
          MrcTextsAt(efforts, 0.0, i);
        }
        PrefixSnoc(texts, i);
        effortsAsCrm := effortsAsCrm + [effortAsCrm];
        if i + 1 < |efforts| {
          StartingMinutesStep(efforts, 0.0, i);
        }
        currentStartingMinute := newStartingMinute;
      }
      assert effortsAsCrm == texts;
      text := Join(effortsAsCrm, "\n");
    }

    /** `add_effort`: appends the effort; the workout grows by its duration. */
    method AddEffort(effort: Effort)
      modifies this
      ensures efforts == old(efforts) + [effort]
      ensures name == old(name) && description == old(description) && workoutType == old(workoutType)
      ensures TotalTimeOfWorkout() == old(TotalTimeOfWorkout()) + effort.durationInMinutes
    {
      SumDurationsSnoc(efforts, effort);
      efforts := efforts + [effort];
    }

    /** `remove`: drops the effort at `index`, keeping the order of the others; the workout shrinks by its duration. */
    method Remove(index: nat)
      requires index < |efforts|
      modifies this
      ensures efforts == old(efforts[..index]) + old(efforts[index + 1..])
      ensures name == old(name) && description == old(description) && workoutType == old(workoutType)
      ensures TotalTimeOfWorkout() == old(TotalTimeOfWorkout()) - old(efforts[index]).durationInMinutes
    {
      assert efforts == efforts[..index] + [efforts[index]] + efforts[index + 1..];
      SumDurationsAppend(efforts[..index] + [efforts[index]], efforts[index + 1..]);
      SumDurationsAppend(efforts[..index], [efforts[index]]);
      SumDurationsAppend(efforts[..index], efforts[index + 1..]);
      efforts := efforts[..index] + efforts[index + 1..];
    }

    /** `to_edit`: opens the edit buffers of the effort at `index`; no effort's values change. */
    method ToEdit(index: nat)
      requires index < |efforts|
      modifies this
      ensures efforts == old(efforts)[index := Efforts.ToEdit(old(efforts)[index])]
      ensures name == old(name) && description == old(description) && workoutType == old(workoutType)
      ensures TotalTimeOfWorkout() == old(TotalTimeOfWorkout())
    {
      var edited := Efforts.ToEdit(efforts[index]);
      SameDurationsSameSum(efforts, efforts[index := edited]);
      efforts := efforts[index := edited];
    }

    /** `to_idle`: computes the edited effort and discards it, so the workout stays as it was. */
    method ToIdle(index: nat)
      requires index < |efforts|
      modifies this
      ensures efforts == old(efforts) && name == old(name)
      ensures description == old(description) && workoutType == old(workoutType)
    {
      var _ := Efforts.ToIdle(efforts[index]);
    }

    /** `update_duration_of_effort`: replaces the duration buffer of the effort at `index`. */
    method UpdateDurationOfEffort(index: nat, updatedDurationInMinutes: string)
      requires index < |efforts|
      modifies this
      ensures efforts == old(efforts)[index := Efforts.UpdateDurationOfEffort(old(efforts)[index], updatedDurationInMinutes)]
      ensures name == old(name) && description == old(description) && workoutType == old(workoutType)
      ensures TotalTimeOfWorkout() == old(TotalTimeOfWorkout())
    {
      var updated := Efforts.UpdateDurationOfEffort(efforts[index], updatedDurationInMinutes);
      SameDurationsSameSum(efforts, efforts[index := updated]);
      efforts := efforts[index := updated];
    }

    /**
     * `total_time_of_workout`: the durations folded up from 0 — the total duration, which is also
     * the minute at which the rendered course data ends.
     */
    function TotalTimeOfWorkout(): (r: real)
      reads this
      ensures r == SumDurations(efforts)
      ensures r == EffortsToCrm(efforts, 0.0).1
    {
      FoldDurations(0.0, efforts)
    }
  }

  /** Efforts of the same durations add up to the same total, whatever else differs. */
  lemma {:induction false} SameDurationsSameSum(a: seq<Effort>, b: seq<Effort>)
    requires |a| == |b|
    requires forall i :: 0 <= i < |a| ==> a[i].durationInMinutes == b[i].durationInMinutes
    ensures SumDurations(a) == SumDurations(b)
    decreases |a|
  {
    if a != [] {
      SameDurationsSameSum(a[1..], b[1..]);
    }
  }

  /** The test samples: 7 and 9 minutes from minute 5 start at 5 and 12; 5 and 15 minutes last 20. */
  lemma {:induction false} Samples()
    ensures StartingMinutes([New(7.0, 100.0, None), New(9.0, 100.0, None)], 5.0) == [5.0, 12.0]
    ensures SumDurations([New(5.0, 80.0, None), New(15.0, 200.0, None)]) == 20.0
  {
    var efforts := [New(7.0, 100.0, None), New(9.0, 100.0, None)];
    assert efforts[..1] == [efforts[0]];
    var twenty := [New(5.0, 80.0, None), New(15.0, 200.0, None)];
    assert twenty[1..][1..] == [];
  }
}
