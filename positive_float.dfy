/** src/workout_data/positive_float.rs: a float that only holds values strictly above zero. */
module PositiveFloats {
  import opened Wrappers
  import opened Decimal

  datatype PositiveFloat = PositiveFloat(float: real)

  /** The validator's only error: the rejected number, unchanged. */
  datatype InvalidPositiveFloatError = ProvidedNonPositiveNumber(number: real)

  /** The invariant `new` establishes. */
  predicate Valid(p: PositiveFloat) {
    p.float > 0.0
  }

  /** `PositiveFloat::new`: accepts exactly the numbers above zero, and reports any other one as it was given. */
  function New(float: real): (r: Result<PositiveFloat, InvalidPositiveFloatError>)
    ensures r.Ok? <==> float > 0.0
    ensures r.Ok? ==> r.value.float == float && Valid(r.value)
    ensures r.Err? ==> r.error.number == float
  {
    if float > 0.0 then Ok(PositiveFloat(float)) else Err(ProvidedNonPositiveNumber(float))
  }

  /** `to_crm`: two fractional digits, which read back as the value when it is a whole number of hundredths. */
  function ToCrm(p: PositiveFloat): (s: string)
    ensures |s| >= 4 && s[|s| - 3] == '.'
    ensures Valid(p) ==> Text.AllDigits(s[..|s| - 3]) && Text.AllDigits(s[|s| - 2..])
    ensures OnGrid(p.float) ==> ParseFloat(s) == Some(p.float)
  {
    ParseFmt2OnGrid(p.float);
    Fmt2Format(p.float);
    Fmt2(p.float)
  }

  /** `add`: the sum of the two values; no validation, but two valid operands give a valid sum. */
  function Add(a: PositiveFloat, b: PositiveFloat): (r: PositiveFloat)
    ensures Valid(a) && Valid(b) ==> Valid(r) && r.float > a.float && r.float > b.float
  {
    PositiveFloat(a.float + b.float)
  }

  /** The test samples: 10.0 is accepted, 0.0 and -1.0 are rejected with the number, 10.0 renders as "10.00", 1 + 2 = 3. */
  lemma {:induction false} Samples()
    ensures New(10.0) == Ok(PositiveFloat(10.0))
    ensures New(0.0) == Err(ProvidedNonPositiveNumber(0.0))
    ensures New(-1.0) == Err(ProvidedNonPositiveNumber(-1.0))
    ensures ToCrm(PositiveFloat(10.0)) == "10.00"
    ensures Add(PositiveFloat(1.0), PositiveFloat(2.0)) == PositiveFloat(3.0)
  {
    Fmt2Ten();
  }
}
