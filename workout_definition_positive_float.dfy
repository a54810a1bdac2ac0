/** src/workout_definition/positive_float.rs: the older copy of the positive-float validator. */
module DefinitionPositiveFloats {
  import opened Wrappers
  import PositiveFloats

  datatype PositiveFloat = PositiveFloat(float: real)

  datatype InvalidPositiveFloatError = ProvidedNonPositiveNumber(number: real)

  /** `PositiveFloat::new`: succeeds holding `float` exactly when `float > 0`, otherwise reports `float` unchanged. */
  function New(float: real): (r: Result<PositiveFloat, InvalidPositiveFloatError>)
    ensures r.Ok? <==> float > 0.0
    ensures r.Ok? ==> r.value.float == float
    ensures r.Err? ==> r.error == ProvidedNonPositiveNumber(float)
  {
    if float > 0.0 then Ok(PositiveFloat(float)) else Err(ProvidedNonPositiveNumber(float))
  }

  /** Both copies of the validator accept and reject the same numbers and keep them unchanged. */
  lemma {:induction false} AgreesWithWorkoutData(float: real)
    ensures New(float).Ok? <==> PositiveFloats.New(float).Ok?
    ensures New(float).Ok? ==> New(float).value.float == PositiveFloats.New(float).value.float
    ensures New(float).Err? ==> New(float).error.number == PositiveFloats.New(float).error.number
  {
  }
}
