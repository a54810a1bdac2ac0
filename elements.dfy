/**
 * src/gui/workout_design/elements.rs: the form for a new effort. It holds three text buffers,
 * for the starting value, the ending value and the duration, and turns them into an effort.
 * The widget settings and the messages the form sends are not part of this model.
 */
module EffortInputs {
  import opened Wrappers
  import opened Decimal
  import opened Efforts

  /** `std::num::ParseFloatError`: a buffer did not hold a number. */
  datatype ParseFloatError = ParseFloatError

  class EffortUnitInput {
    var startingValue: string
    var endingValue: string
    var duration: string

    /** `Default for EffortUnitInput`: all three buffers empty. */
    constructor Default()
      ensures startingValue == "" && endingValue == "" && duration == ""
      ensures IsEmpty()
    {
      startingValue := "";
      endingValue := "";
      duration := "";
    }

    /** `set_starting_value`: overwrites the starting buffer only. */
    method SetStartingValue(value: string)
      modifies this
      ensures startingValue == value && endingValue == old(endingValue) && duration == old(duration)
    {
      startingValue := value;
    }

    /** `set_ending_value`: overwrites the ending buffer only. */
    method SetEndingValue(value: string)
      modifies this
      ensures endingValue == value && startingValue == old(startingValue) && duration == old(duration)
    {
      endingValue := value;
    }

    /** `set_duration`: overwrites the duration buffer only. */
    method SetDuration(value: string)
      modifies this
      ensures duration == value && startingValue == old(startingValue) && endingValue == old(endingValue)
    {
      duration := value;
    }

    /**
     * `is_empty`: the form cannot make an effort yet, because the starting value or the duration
     * is missing; an empty ending buffer is allowed.
     */
    predicate IsEmpty()
      reads this
    {
      startingValue == [] || duration == []
    }

    /** `clear`: empties all three buffers. */
    method Clear()
      modifies this
      ensures startingValue == "" && endingValue == "" && duration == ""
      ensures IsEmpty()
    {
      startingValue := "";
      endingValue := "";
      duration := "";
    }

    /**
     * `TryFrom<EffortUnitInput> for Effort`: the effort the buffers describe, or an error when
     * the duration, the starting value or a non-empty ending value is not a number. An empty
     * ending buffer means a steady effort.
     */
    function TryFrom(): (r: Result<Effort, ParseFloatError>)
      reads this
      ensures r.Ok? <==>
        ParseFloat(duration).Some? && ParseFloat(startingValue).Some?
        && (endingValue == "" || ParseFloat(endingValue).Some?)
      ensures r.Ok? ==>
        r.value.guiState == Idle
        && Some(r.value.durationInMinutes) == ParseFloat(duration)
        && Some(r.value.startingValue) == ParseFloat(startingValue)
        && (endingValue == "" ==> !IsRamp(r.value))
        && (endingValue != "" ==> Some(r.value.endingValue) == ParseFloat(endingValue))
    {
      match ParseFloat(duration)
      case None => Err(ParseFloatError)
      case Some(d) =>
        match ParseFloat(startingValue)
        case None => Err(ParseFloatError)
        case Some(s) =>
          if endingValue == "" then Ok(New(d, s, None))
          else
            match ParseFloat(endingValue)
            case None => Err(ParseFloatError)
            case Some(e) => Ok(New(d, s, Some(e)))
    }
  }

  /**
   * The form reads its buffers the way an effort being edited reads its own: the same buffers
   * give the same effort, or fail together.
   */
  lemma {:induction false} TryFromAgreesWithToIdle(input: EffortUnitInput, e: Effort)
    requires e.guiState == Editing(input.startingValue, input.endingValue, input.duration)
    ensures input.TryFrom().Ok? <==> ToIdle(e).Some?
    ensures input.TryFrom().Ok? ==> ToIdle(e) == Some(input.TryFrom().value)
  {
  }

  /**
   * Buffers holding a duration and a starting value with two decimals, and no ending value,
   * give the steady effort of those values.
   */
  lemma {:induction false} TryFromRendered(input: EffortUnitInput, durationInMinutes: real, startingValue: real)
    requires OnGrid(durationInMinutes) && OnGrid(startingValue)
    requires input.duration == Fmt2(durationInMinutes) && input.startingValue == Fmt2(startingValue)
    requires input.endingValue == ""
    ensures input.TryFrom() == Ok(New(durationInMinutes, startingValue, None))
  {
    ParseFmt2(durationInMinutes);
    ParseFmt2(startingValue);
  }

  /** A cleared form cannot make an effort. */
  lemma {:induction false} ClearedCannotConvert(input: EffortUnitInput)
    requires input.startingValue == "" && input.endingValue == "" && input.duration == ""
    ensures input.IsEmpty() && input.TryFrom().Err?
  {
    assert ParseFloat("") == None;
  }
}
