/**
 * src/workout_data/from_plan_format.rs: the decoder of the plan format. A header holds a
 * `NAME=` line; after `=STREAM=` come `=INTERVAL=` blocks, each with a low and a high power and
 * a duration in seconds, read as one effort at the mean power.
 */
module FromPlanFormat {
  import opened Wrappers
  import opened Text
  import opened Decimal
  import opened Efforts
  import opened FromMrc
  import opened WorkoutTypes
  import opened Workouts

  /** `ExtractPlanFormatError`. */
  datatype ExtractPlanFormatError = InvalidFormat | InvalidValue

  const NameKey: string := "NAME="
  const StreamMarker: string := "=STREAM="
  const IntervalMarker: string := "=INTERVAL="
  const LowKey: string := "PWR_LO="
  const HighKey: string := "PWR_HI="
  const DurationKey: string := "MESG_DURATION_SEC>="
  const ExitKey: string := "?EXIT"

  /** `str::starts_with`. */
  predicate StartsWith(s: string, prefix: string) {
    OccursAt(s, prefix, 0)
  }

  /** `find(|line| line.starts_with("NAME="))`: the first of `lines` from index `from` on that starts with `NAME=`. */
  function FindNameLine(lines: seq<string>, from: nat): (r: Option<nat>)
    ensures r.Some? ==> from <= r.value < |lines| && StartsWith(lines[r.value], NameKey)
    ensures r.Some? ==> forall k :: from <= k < r.value ==> !StartsWith(lines[k], NameKey)
    ensures r.None? ==> forall k :: from <= k < |lines| ==> !StartsWith(lines[k], NameKey)
    decreases |lines| - from
  {
    if from >= |lines| then None
    else if StartsWith(lines[from], NameKey) then Some(from)
    else FindNameLine(lines, from + 1)
  }

  /** `.map(str::trim)`: each line trimmed, in order. */
  function TrimAll(lines: seq<string>): (r: seq<string>)
    ensures |r| == |lines|
    ensures forall k :: 0 <= k < |r| ==> r[k] == Trim(lines[k])
    decreases |lines|
  {
    if lines == [] then [] else [Trim(lines[0])] + TrimAll(lines[1..])
  }

  /**
   * `split_header_and_intervals`: the name after `NAME=` on the first trimmed header line that
   * starts with it, and the trimmed text after the first `=STREAM=`.
   */
  function SplitHeaderAndIntervals(plan: string): (r: Result<(string, string), ExtractPlanFormatError>)
    ensures r.Err? ==> r.error == InvalidFormat
    ensures !Contains(plan, StreamMarker) ==> r.Err?
    ensures r.Ok? <==> Contains(plan, StreamMarker) && HeaderName(SplitOnce(plan, StreamMarker).0).Some?
    ensures r.Ok? ==> Trim(r.value.1) == r.value.1
  {
    var (header, after) := SplitOnce(plan, StreamMarker);
    match HeaderName(header)
    case None => Err(InvalidFormat)
    case Some(name) =>
      match after
      case None => Err(InvalidFormat)
      case Some(intervals) =>
        TrimIdempotent(intervals);
        Ok((name, Trim(intervals)))
  }

  /**
   * The name after `NAME=` on the first trimmed line of the header that starts with it; none when
   * no trimmed line of the header starts with `NAME=`.
   */
  function HeaderName(header: string): (r: Option<string>)
    ensures r.None? <==> NoNameLineBefore(Lines(Trim(header)), |Lines(Trim(header))|)
    ensures forall k :: FirstNameLine(Lines(Trim(header)), k) ==>
      r.Some? && Trim(Lines(Trim(header))[k]) == NameKey + r.value
  {
    var raw := Lines(Trim(header));
    var lines := TrimAll(raw);
    NameLineOfTrimmed(raw, lines);
    match FindNameLine(lines, 0)
    case None => None
    case Some(k) =>
      KeyThenRest(lines[k]);
      Some(lines[k][|NameKey|..])
  }

  /** A line that starts with `NAME=` is the key followed by the rest of the line. */
  lemma {:induction false} KeyThenRest(line: string)
    requires StartsWith(line, NameKey)
    ensures line == NameKey + line[|NameKey|..]
  {
    assert line[..|NameKey|] == NameKey;
  }

  /**
   * Split at the first `=STREAM=` of a plan: the header before it names the plan, and the text
   * after it, trimmed, holds the intervals; a header without a name line is an invalid format.
   */
  lemma {:induction false} HeaderAndIntervalsAt(plan: string, header: string, after: string)
    requires plan == header + StreamMarker + after
    requires forall q :: 0 <= q < |header| ==> !OccursAt(plan, StreamMarker, q)
    ensures HeaderName(header).None? ==> SplitHeaderAndIntervals(plan) == Err(InvalidFormat)
    ensures HeaderName(header).Some? ==> SplitHeaderAndIntervals(plan) == Ok((HeaderName(header).value, Trim(after)))
  {
    SplitOnceAt(plan, StreamMarker, header, after);
  }

  /** The first line of `lines` found to start with `NAME=` is the first trimmed line of `raw` that does. */
  lemma {:induction false} NameLineOfTrimmed(raw: seq<string>, lines: seq<string>)
    requires |lines| == |raw| && forall k :: 0 <= k < |raw| ==> lines[k] == Trim(raw[k])
    ensures FindNameLine(lines, 0).None? <==> NoNameLineBefore(raw, |raw|)
    ensures forall k :: FirstNameLine(raw, k) ==> FindNameLine(lines, 0) == Some(k)
  {
    match FindNameLine(lines, 0)
    case None =>
    case Some(i) =>
      assert FirstNameLine(raw, i);
      forall k | FirstNameLine(raw, k)
        ensures i == k
      {
        assert !(k < i) && !(i < k);
      }
  }

  /** No trimmed line before `k` starts with `NAME=`. */
  predicate NoNameLineBefore(lines: seq<string>, k: nat) {
    forall j :: 0 <= j < k && j < |lines| ==> !StartsWith(Trim(lines[j]), NameKey)
  }

  /** Line `k`, trimmed, is the first that starts with `NAME=`. */
  predicate FirstNameLine(lines: seq<string>, k: int) {
    0 <= k < |lines| && StartsWith(Trim(lines[k]), NameKey) && NoNameLineBefore(lines, k)
  }

  /** A text that neither starts nor ends with whitespace, which trimming leaves alone. */
  predicate Trimmed(s: string) {
    s == [] || (!IsWhitespace(s[0]) && !IsWhitespace(s[|s| - 1]))
  }

  /** What `str::trim` returns is trimmed. */
  lemma {:induction false} TrimTrimmed(s: string)
    ensures Trimmed(Trim(s))
  {
    var t := TrimEnd(s);
    var r := TrimStart(t);
    if r != [] {
      assert r[|r| - 1] == t[|t| - 1];
    }
  }

  /** Trims each piece and keeps those that are not empty, in order. */
  function KeepTrimmed(pieces: seq<string>): (r: seq<string>)
    ensures |r| <= |pieces|
    ensures forall k :: 0 <= k < |r| ==> r[k] != [] && Trimmed(r[k])
    decreases |pieces|
  {
    if pieces == [] then []
    else
      var first := Trim(pieces[0]);
      TrimTrimmed(pieces[0]);
      if first == [] then KeepTrimmed(pieces[1..]) else [first] + KeepTrimmed(pieces[1..])
  }

  /** A single piece is kept, trimmed, exactly when trimming leaves something. */
  lemma {:induction false} KeepTrimmedSingle(piece: string)
    ensures KeepTrimmed([piece]) == if Trim(piece) == [] then [] else [Trim(piece)]
  {
    assert [piece][1..] == [];
  }

  /** Pieces are kept independently of each other, in their order. */
  lemma {:induction false} KeepTrimmedAppend(a: seq<string>, b: seq<string>)
    ensures KeepTrimmed(a + b) == KeepTrimmed(a) + KeepTrimmed(b)
    decreases |a|
  {
    if a == [] {
      assert a + b == b;
    } else {
      assert (a + b)[0] == a[0];
      assert (a + b)[1..] == a[1..] + b;
      KeepTrimmedAppend(a[1..], b);
    }
  }

  /** No kept piece holds a pattern that no piece holds. */
  lemma {:induction false} KeepTrimmedAbsence(pieces: seq<string>, pat: string)
    requires forall j :: 0 <= j < |pieces| ==> !Contains(pieces[j], pat)
    ensures forall k :: 0 <= k < |KeepTrimmed(pieces)| ==> !Contains(KeepTrimmed(pieces)[k], pat)
    decreases |pieces|
  {
    if pieces != [] {
      assert forall j :: 0 <= j < |pieces| - 1 ==> pieces[1..][j] == pieces[j + 1];
      KeepTrimmedAbsence(pieces[1..], pat);
      TrimKeepsAbsence(pieces[0], pat);
    }
  }

  /**
   * `split_efforts`: the pieces between the `=INTERVAL=` markers, trimmed, with the empty ones
   * dropped; none of them holds a marker.
   */
  function SplitEfforts(intervals: string): seq<string> {
    KeepTrimmed(SplitOn(intervals, IntervalMarker))
  }

  /** Every piece `split_efforts` keeps is non-empty, trimmed and free of `=INTERVAL=`. */
  lemma {:induction false} SplitEffortsClean(intervals: string)
    ensures var r := SplitEfforts(intervals);
      forall k :: 0 <= k < |r| ==> r[k] != [] && Trimmed(r[k]) && !Contains(r[k], IntervalMarker)
  {
    SplitOnPieces(intervals, IntervalMarker);
    KeepTrimmedAbsence(SplitOn(intervals, IntervalMarker), IntervalMarker);
  }

  /** The three captures of the interval pattern: low power, high power and seconds. */
  datatype IntervalGroups = IntervalGroups(low: string, high: string, seconds: string)

  /** Each capture of the interval pattern is a non-empty run of digits. */
  predicate DigitGroups(g: IntervalGroups) {
    |g.low| > 0 && AllDigits(g.low) && |g.high| > 0 && AllDigits(g.high)
    && |g.seconds| > 0 && AllDigits(g.seconds)
  }

  /** The text `lit` at `from`: where it ends. */
  function LiteralEnd(s: string, lit: string, from: nat): (r: Option<nat>)
    ensures r.Some? <==> OccursAt(s, lit, from)
    ensures r.Some? ==> r.value == from + |lit| <= |s|
  {
    if OccursAt(s, lit, from) then Some(from + |lit|) else None
  }

  /** `\d+` started at `from`: the end of the longest run of digits, when there is one. */
  function DigitsEnd(s: string, from: nat): (r: Option<nat>)
    ensures r.Some? ==> from < r.value <= |s| && AllDigits(s[from..r.value])
    ensures r.Some? ==> r.value == |s| || !IsDigit(s[r.value])
    ensures r.None? ==> from >= |s| || !IsDigit(s[from])
  {
    if from > |s| then None
    else
      var e := DigitRunEnd(s, from);
      DigitRunDigits(s, from);
      if e == from then None
      else
        assert forall i :: 0 <= i < e - from ==> s[from..e][i] == s[from + i];
        Some(e)
  }

  /** The end of the run of whitespace starting at `from`. */
  function SpaceRunEnd(s: string, from: nat): (r: nat)
    requires from <= |s|
    ensures from <= r <= |s|
    ensures r == |s| || !IsWhitespace(s[r])
    ensures forall i :: from <= i < r ==> IsWhitespace(s[i])
    decreases |s| - from
  {
    if from == |s| || !IsWhitespace(s[from]) then from else SpaceRunEnd(s, from + 1)
  }

  /**
   * `\s+` started at `from`, followed by a text that does not start with whitespace: the end of
   * the longest run of whitespace, when there is one.
   */
  function SpacesEnd(s: string, from: nat): (r: Option<nat>)
    ensures r.Some? ==> from < r.value <= |s| && (r.value == |s| || !IsWhitespace(s[r.value]))
    ensures r.None? ==> from >= |s| || !IsWhitespace(s[from])
  {
    if from > |s| then None
    else
      var e := SpaceRunEnd(s, from);
      if e == from then None else Some(e)
  }

  /**
   * `PWR_LO=(\d+)\s+PWR_HI=(\d+)\s+MESG_DURATION_SEC>=(\d+)\?EXIT` started at `p`. Each digit
   * run and each whitespace run is followed by a character of another class, so each takes as
   * many characters as there are.
   */
  function IntervalAt(s: string, p: nat): (r: Option<IntervalGroups>)
    ensures r.Some? ==> DigitGroups(r.value)
  {
    match LiteralEnd(s, LowKey, p)
    case None => None
    case Some(lowStart) =>
      match DigitsEnd(s, lowStart)
      case None => None
      case Some(lowEnd) =>
        match SpacesEnd(s, lowEnd)
        case None => None
        case Some(highKeyAt) =>
          match LiteralEnd(s, HighKey, highKeyAt)
          case None => None
          case Some(highStart) =>
            match DigitsEnd(s, highStart)
            case None => None
            case Some(highEnd) =>
              match SpacesEnd(s, highEnd)
              case None => None
              case Some(durationKeyAt) =>
                match LiteralEnd(s, DurationKey, durationKeyAt)
                case None => None
                case Some(secondsStart) =>
                  match DigitsEnd(s, secondsStart)
                  case None => None
                  case Some(secondsEnd) =>
                    if !OccursAt(s, ExitKey, secondsEnd) then None
                    else Some(IntervalGroups(s[lowStart..lowEnd], s[highStart..highEnd], s[secondsStart..secondsEnd]))
  }

  /** The leftmost match of the interval pattern. */
  function FirstInterval(text: string): (r: Option<IntervalGroups>)
    ensures r.Some? ==> DigitGroups(r.value)
    ensures r.None? <==> forall p :: 0 <= p <= |text| ==> IntervalAt(text, p).None?
  {
    var matchAt := (p: nat) => IntervalAt(text, p);
    assert forall p: nat :: matchAt(p) == IntervalAt(text, p);
    match FirstMatch(matchAt, 0, |text|)
    case None => None
    case Some(p) => IntervalAt(text, p)
  }

  /** A non-empty run of digits parses as the number it writes. */
  lemma {:induction false} ParseDigits(s: string)
    requires |s| > 0 && AllDigits(s)
    ensures ParseFloat(s) == Some(DigitsValue(s) as real)
  {
    UnsignedWithoutExponent(s);
    assert IndexOf(s, '.', 0) == |s|;
    assert s[..|s|] == s;
  }

  /** The mean power of an interval, in the unit of its bounds. */
  function MeanPower(low: real, high: real): (r: real)
    ensures low <= high ==> low <= r <= high
    ensures high <= low ==> high <= r <= low
  {
    (low + high) / 2.0
  }

  /**
   * The captures of an interval read as an effort that lasts the seconds over 60 at the mean of
   * the two powers; `InvalidValue` when a capture does not parse.
   */
  function EffortOfGroups(g: IntervalGroups): (r: Result<Effort, ExtractPlanFormatError>)
    ensures r.Ok? ==> !IsRamp(r.value) && r.value.guiState == Idle
  {
    match (ParseFloat(g.low), ParseFloat(g.high), ParseFloat(g.seconds))
    case (Some(low), Some(high), Some(seconds)) =>
      Ok(New(seconds / 60.0, MeanPower(low, high), None))
    case _ => Err(InvalidValue)
  }

  /** Digit captures give the effort of the numbers they write: minutes are seconds over 60. */
  lemma {:induction false} EffortOfDigitGroups(g: IntervalGroups)
    requires DigitGroups(g)
    ensures EffortOfGroups(g) == Ok(Effort(DigitsValue(g.seconds) as real / 60.0,
      MeanPower(DigitsValue(g.low) as real, DigitsValue(g.high) as real),
      MeanPower(DigitsValue(g.low) as real, DigitsValue(g.high) as real), Idle))
  {
    ParseDigits(g.low);
    ParseDigits(g.high);
    ParseDigits(g.seconds);
  }

  /**
   * `extract_effort_from_string`: the leftmost interval match read as an effort. A run of ASCII
   * digits always parses, so the only error that can occur is `InvalidFormat`, when nothing matches.
   */
  function ExtractIntervalEffort(text: string): (r: Result<Effort, ExtractPlanFormatError>)
    ensures r.Err? <==> FirstInterval(text).None?
    ensures r.Err? ==> r.error == InvalidFormat
    ensures r.Ok? ==> !IsRamp(r.value) && r.value.guiState == Idle
    ensures r.Ok? ==> r == EffortOfGroups(FirstInterval(text).value)
  {
    match FirstInterval(text)
    case None => Err(InvalidFormat)
    case Some(g) =>
      EffortOfDigitGroups(g);
      EffortOfGroups(g)
  }

  /**
   * `extract_workout` without the construction of the workout: the name and the efforts of the
   * intervals in order, or the first error.
   */
  function ExtractPlan(plan: string): (r: Result<(string, seq<Effort>), ExtractPlanFormatError>)
    ensures r.Err? ==> r.error == InvalidFormat
    ensures r.Ok? ==> SplitHeaderAndIntervals(plan).Ok? && r.value.0 == SplitHeaderAndIntervals(plan).value.0
    ensures r.Ok? ==> |r.value.1| == |SplitEfforts(SplitHeaderAndIntervals(plan).value.1)|
    ensures r.Ok? ==> forall k :: 0 <= k < |r.value.1| ==> !IsRamp(r.value.1[k]) && r.value.1[k].guiState == Idle
  {
    match SplitHeaderAndIntervals(plan)
    case Err(e) => Err(e)
    case Ok((name, intervals)) =>
      var texts := SplitEfforts(intervals);
      match CollectMap(ExtractIntervalEffort, texts)
      case Err(e) =>
        CollectMapErrorOf(ExtractIntervalEffort, texts);
        Err(e)
      case Ok(efforts) =>
        CollectMapOk(ExtractIntervalEffort, texts);
        Ok((name, efforts))
  }

  /**
   * Once the header and the stream are split off, the plan fails exactly when one of its
   * intervals does, and otherwise reads each interval into the effort at the same place.
   */
  lemma {:induction false} ExtractPlanOfIntervals(plan: string, name: string, intervals: string)
    requires SplitHeaderAndIntervals(plan) == Ok((name, intervals))
    ensures ExtractPlan(plan).Err? <==>
      exists k :: 0 <= k < |SplitEfforts(intervals)| && ExtractIntervalEffort(SplitEfforts(intervals)[k]).Err?
    ensures ExtractPlan(plan).Ok? ==> ExtractPlan(plan).value.0 == name
    ensures ExtractPlan(plan).Ok? ==> forall k :: 0 <= k < |SplitEfforts(intervals)| ==>
      ExtractPlan(plan).value.1[k] == ExtractIntervalEffort(SplitEfforts(intervals)[k]).value
  {
    CollectMapOk(ExtractIntervalEffort, SplitEfforts(intervals));
  }

  /**
   * `extract_workout`: a new workout with the name of the plan, an empty description and the
   * efforts of its intervals, or the first error. `Workout::new` takes a workout type as well,
   * which the call leaves out; the workout gets the default type.
   */
  method ExtractWorkout(plan: string) returns (r: Result<Workout, ExtractPlanFormatError>)
    ensures r.Err? <==> ExtractPlan(plan).Err?
    ensures r.Err? ==> r.error == ExtractPlan(plan).error
    ensures r.Ok? ==> fresh(r.value)
    ensures r.Ok? ==> r.value.name == ExtractPlan(plan).value.0 && r.value.description == ""
    ensures r.Ok? ==> r.value.efforts == ExtractPlan(plan).value.1 && r.value.workoutType == Default()
  {
    match ExtractPlan(plan)
    case Err(e) =>
      r := Err(e);
    case Ok((name, efforts)) =>
      var workout := new Workout(name, "", efforts, Default());
      r := Ok(workout);
  }
}
