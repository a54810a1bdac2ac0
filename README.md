# mrc-workout-creator, modelled in Dafny

mrc-workout-creator is a desktop tool for indoor cycling workouts. A workout has a name, a
description, a workout type (watts or percentage of FTP) and a list of efforts. Each effort has a
duration in minutes, a starting value and an ending value; equal values make a flat effort and
different ones make a ramp. The tool reads and writes workouts in these forms:

- the `.crm`/`.mrc` course file: a `[COURSE HEADER]` with a `DESCRIPTION = …` line, then a
  `[COURSE DATA]` block that holds one `minute<TAB>value` line at the start and at the end of
  each effort;
- the plan format: a `NAME=` header, then `=STREAM=`, then `=INTERVAL=` blocks of
  `PWR_LO=`, `PWR_HI=` and `MESG_DURATION_SEC>=…?EXIT`.

It also draws the workout as a chart of coloured boxes.

This project models:

- the workout data: `PositiveFloat`, `Effort` with its idle and editing states, `Workout` and
  `WorkoutType`;
- the course-file encoder and decoder, with round trips of the efforts and of the description;
- the plan-format decoder, with a round trip from a written plan;
- the effort input buffer of the editor and its conversion to an effort;
- the chart colours: the 40-colour gradient, the selection by average wattage and the
  interpolation;
- the chart layout of the current chart (`core.rs`), which draws a rectangle and a triangle per
  effort;
- the layout of the older chart (`visualization.rs`), which draws one rectangle per effort.

Floating-point numbers are modelled as Dafny `real`s. Rust's `format!("{:.2}", x)` is modelled
as `Decimal.Fmt2`, which rounds the exact value to hundredths, halves away from zero; Rust
rounds the binary value and sends exact binary halves to the even digit. Rust's `str::parse::<f64>`
is modelled as `Decimal.ParseFloat`, an exact decimal reader.

Modules:

| module | file | models |
|---|---|---|
| Wrappers | wrappers.dfy | `Option`, `Result`, and `collect::<Result<Vec<_>, _>>` as `CollectMap` |
| Text | text.dfy | `trim`, `lines`, `split`, `splitn(2, …)`, `join` on `seq<char>` |
| Decimal | decimal.dfy | `{:.2}` formatting and `f64` parsing of decimal text |
| PositiveFloats | positive_float.dfy | `src/workout_data/positive_float.rs` |
| DefinitionPositiveFloats | workout_definition_positive_float.dfy | `src/workout_definition/positive_float.rs` |
| WorkoutTypes | workout_type.dfy | `src/gui/workout_type.rs` and `create_crm_string` |
| Efforts | effort.dfy | `src/workout_data/effort.rs` |
| Workouts | workout.dfy | `src/workout_data/workout.rs` |
| FromMrc, MrcRoundTrip | from_mrc.dfy, mrc_round_trip.dfy | `src/workout_data/from_mrc.rs` |
| FromPlanFormat, PlanRoundTrip, PlanText | from_plan_format.dfy, plan_round_trip.dfy, plan_text.dfy | `src/workout_data/from_plan_format.rs` |
| EffortInputs | elements.dfy | the `EffortUnitInput` part of `src/gui/workout_design/elements.rs` |
| Colors | colors.dfy | `src/gui/workout_design/visualization/colors.rs` |
| Layout | layout.dfy | `src/gui/workout_design/visualization/core.rs` |
| LegacyLayout | legacy_layout.dfy | `src/gui/workout_design/visualization.rs` |

The regular expressions of the decoders are modelled as leftmost-match functions:
- `FromMrc.DescriptionAt` and `FromMrc.CourseDataAt` match at one position;
- `FromMrc.EffortAt` and `FromPlanFormat.IntervalAt` match the effort and the interval patterns.

A search over positions then takes the leftmost match, as the `regex` crate does. The
decoders' contracts say what they find in terms of these matches. The round-trip lemmas show
that what the encoder writes is matched and read back.

## Model

| member | source | states |
|---|---|---|
| PositiveFloats.New | src/workout_data/positive_float.rs:19-24 | succeeds exactly when the number is greater than 0 and then holds it; otherwise the error carries the rejected number |
| PositiveFloats.ToCrm | src/workout_data/positive_float.rs:26-28 | renders with two decimals after a point; a number on the 0.01 grid reads back as itself |
| PositiveFloats.Add | src/workout_data/positive_float.rs:31-35 | the sum of two positive floats is positive and larger than either |
| PositiveFloats.Samples | src/workout_data/positive_float.rs:43-78 | the cases the source's tests check: 10 accepted, 0 and -1 rejected, 10 rendered as `10.00`, 1 + 2 = 3 |
| DefinitionPositiveFloats.New | src/workout_definition/positive_float.rs:12-17 | succeeds exactly for numbers greater than 0; the error names the number |
| DefinitionPositiveFloats.AgreesWithWorkoutData | src/workout_definition/positive_float.rs:12-17 | the two positive-float types accept and reject the same numbers, with the same values |
| WorkoutTypes.AllListsEachOnce | src/gui/workout_type.rs:4 | `ALL` lists each of the two workout types exactly once |
| WorkoutTypes.Default | src/gui/workout_type.rs:7-11 | the default type is `Watts`, the first in `ALL` |
| WorkoutTypes.Display | src/gui/workout_type.rs:13-24 | the labels `Watts` and `Percentage of FTP` |
| WorkoutTypes.CreateCrmString | src/workout_data/workout.rs:110-117 | the unit line `MINUTES WATTS` or `MINUTES PERCENTAGE`, with no `[`, `=` or newline |
| WorkoutTypes.LabelsDetermineType | src/gui/workout_type.rs:13-24 | different workout types get different labels and different unit lines |
| Efforts.New | src/workout_data/effort.rs:32-39 | keeps the duration and starting value; without an ending value the effort is flat; a new effort is idle |
| Efforts.MrcLinePlain | src/workout_data/effort.rs:40-49 | each course line is one non-empty line that ends in a digit and has no `[` or `=` |
| Efforts.ToMrc | src/workout_data/effort.rs:40-49 | the minute returned is the start plus the duration |
| Efforts.ToMrcLines | src/workout_data/effort.rs:40-49 | the text is two lines: start minute and starting value, then end minute and ending value |
| Efforts.ToEdit | src/workout_data/effort.rs:51-57 | keeps the numbers and enters editing; each buffer parses back to its number when that number is on the 0.01 grid |
| Efforts.ToIdle | src/workout_data/effort.rs:58-78 | none for an idle effort; for an editing effort, some exactly when duration and starting value parse and the ending value is empty or parses; an empty ending value gives a flat effort |
| Efforts.UpdateDurationOfEffort | src/workout_data/effort.rs:79-88 | an editing effort gets the new duration buffer; an idle effort is unchanged |
| Efforts.UpdateStartingValue | src/workout_data/effort.rs:89-98 | an editing effort gets the new starting-value buffer; an idle effort is unchanged |
| Efforts.UpdateEndingValue | src/workout_data/effort.rs:99-108 | an editing effort gets the new ending-value buffer; an idle effort is unchanged |
| Efforts.ToIdleAfterToEdit | src/workout_data/effort.rs:51-78 | editing an effort and then leaving the editor gives the same effort back, idle |
| Efforts.ToIdleAfterDurationUpdate | src/workout_data/effort.rs:58-88 | a typed duration replaces the old one when the editor closes |
| Efforts.ToIdleAfterEndingCleared | src/workout_data/effort.rs:58-78 | clearing the ending value turns the effort flat at its starting value |
| Efforts.UpdatesIgnoreIdle | src/workout_data/effort.rs:79-108 | none of the three updates changes an idle effort, and an idle effort cannot leave the editor |
| Efforts.Samples | src/workout_data/effort.rs:119-143 | the source's test values: a flat 60-minute effort at 150; 100 written `100.00`; five minutes at 100 from minute 5 written `5.00\t100.00\n10.00\t100.00`, ending at minute 10 |
| Workouts.StartingMinutes | src/workout_data/workout.rs:144-157 | effort i starts at the starting minute plus the durations of the efforts before it |
| Workouts.StartingMinutesStep | src/workout_data/workout.rs:152-154 | each starting minute is the one before plus that effort's duration |
| Workouts.ExtractInitialStartingMinutes | src/workout_data/workout.rs:144-157 | the loop returns exactly the running starting minutes |
| Workouts.SumDurationsAppend | src/workout_data/workout.rs:94-101 | the total duration of two lists joined is the sum of their totals |
| Workouts.SumDurationsNonNegative | src/workout_data/workout.rs:94-101 | non-negative durations give a non-negative total |
| Workouts.SumDurationsOnGrid | src/workout_data/workout.rs:94-101 | durations on the 0.01 grid give a total on the grid |
| Workouts.MrcTextsLines | src/workout_data/workout.rs:119-142 | the effort texts joined with newlines are exactly the course lines of the efforts |
| Workouts.EffortsToCrm | src/workout_data/workout.rs:119-142 | the minute returned is the starting minute plus the total duration, and is the starting minute when there are no efforts |
| Workouts.EffortsToCrmLines | src/workout_data/workout.rs:119-142 | the course data text consists of the two course lines of each effort, in order |
| Workouts.FoldDurations | src/workout_data/workout.rs:94-101 | folding the durations onto a running total adds the total duration |
| Workouts.InitialMinuteAsWritten | src/workout_data/workout.rs:65 | `PositiveFloat::new(0.0)`, which the source unwraps, holds no value |
| Workouts.InitialMinuteAsWrittenPanics | src/workout_data/workout.rs:65 | the starting minute of the course data, as written, is an error, so the unwrap panics |
| Workouts.Workout.constructor | src/workout_data/workout.rs:22-34 | a workout holds the given name, description, efforts and type |
| Workouts.Workout.Empty | src/workout_data/workout.rs:36-38 | an empty workout has no efforts and a total time of 0 |
| Workouts.Workout.CrmBodyWorkouts | src/workout_data/workout.rs:63-74 | the course data is the rendering of the efforts from minute 0 |
| Workouts.Workout.AddEffort | src/workout_data/workout.rs:76-78 | appends the effort, changes nothing else, and adds its duration to the total time |
| Workouts.Workout.Remove | src/workout_data/workout.rs:80-82 | removes exactly the effort at the index, keeping the order of the others, and subtracts its duration from the total time |
| Workouts.Workout.ToEdit | src/workout_data/workout.rs:84-86 | puts only the effort at the index into editing; the total time is unchanged |
| Workouts.Workout.ToIdle | src/workout_data/workout.rs:88-90 | leaves the workout unchanged: the source computes the idle effort and drops it |
| Workouts.Workout.UpdateDurationOfEffort | src/workout_data/workout.rs:91-93 | changes only the duration buffer of the effort at the index; the total time is unchanged |
| Workouts.Workout.TotalTimeOfWorkout | src/workout_data/workout.rs:94-101 | the sum of the durations, which is also the last minute of the course data |
| Workouts.SameDurationsSameSum | src/workout_data/workout.rs:94-101 | lists with the same durations have the same total, whatever their edit states |
| Workouts.Samples | src/workout_data/workout.rs:159-315 | the source's test values for starting minutes and the total time |
| FromMrc.DescriptionAt | src/workout_data/from_mrc.rs:9 | a match of `DESCRIPTION = (.+)\n` at a position captures a non-empty line |
| FromMrc.DescriptionAtComplete | src/workout_data/from_mrc.rs:9 | every such line at the position is found, so the match is exact in both directions |
| FromMrc.ExtractDescription | src/workout_data/from_mrc.rs:8-22 | an error exactly when no position matches; otherwise the capture of the leftmost match, with `no description` read as the empty text |
| FromMrc.CourseDataAt | src/workout_data/from_mrc.rs:142-152 | a match is the text between `[COURSE DATA]\n` and the first `[END COURSE DATA]` after it |
| FromMrc.ExtractEffortsString | src/workout_data/from_mrc.rs:142-152 | `NoEffortsGiven` exactly when no course data block matches; otherwise the capture of the leftmost match, which is not empty |
| FromMrc.PointNumberParse | src/workout_data/from_mrc.rs:65 | every `\d*\.\d*` capture parses as a number, except the lone `.` |
| FromMrc.EffortAtText | src/workout_data/from_mrc.rs:65 | a match is the captures laid out as two tab-separated pairs on two lines, and no digit follows it |
| FromMrc.EffortAtWhole | src/workout_data/from_mrc.rs:65 | a text that is four point numbers laid out that way matches at its start with those captures |
| FromMrc.ParseGroup | src/workout_data/from_mrc.rs:80-131 | a capture converts exactly when it parses; otherwise the error is `NumberInvalid` with the capture index and the text |
| FromMrc.ExtractEffortFromString | src/workout_data/from_mrc.rs:63-140 | `SyntaxDoesNotMatch` exactly when the pattern matches nowhere; every other error is `NumberInvalid`; a decoded effort is idle |
| FromMrc.ExtractEffortMeaning | src/workout_data/from_mrc.rs:133-139 | the decoded values are the parsed captures; the duration is the end minute less the start minute |
| FromMrc.ExtractEffortOfCaptures | src/workout_data/from_mrc.rs:63-140 | captures that parse give the effort between their minutes |
| FromMrc.PairLines | src/workout_data/from_mrc.rs:41-55 | pair k is lines 2k and 2k+1 joined by a newline; an odd last line is dropped |
| FromMrc.SplitByEveryOtherNewline | src/workout_data/from_mrc.rs:41-55 | the loop returns the trimmed input's lines, paired |
| FromMrc.ExtractEfforts | src/workout_data/from_mrc.rs:33-39 | `NoEffortsGiven` exactly when there is no course data block; every effort read back is idle |
| FromMrc.ExtractEffortsOfBlock | src/workout_data/from_mrc.rs:33-39 | with a block found, effort k is the effort read from pair k of its trimmed lines, in order; the first pair that does not read gives its error as `EffortNotValid` |
| MrcRoundTrip.EffortRoundTrip | src/workout_data/from_mrc.rs:63-140 | the two lines `to_mrc` writes read back as the effort, idle, when its numbers are on the 0.01 grid and not negative |
| MrcRoundTrip.CourseLinesRoundTrip | src/workout_data/from_mrc.rs:33-55 | the course lines of a list of efforts, paired and decoded, give the efforts back in order, idle |
| MrcRoundTrip.CourseDataFramed | src/workout_data/workout.rs:119-142 | the course data is empty or starts and ends with no whitespace, with no `[` or `=` |
| MrcRoundTrip.BlockAfter | src/workout_data/from_mrc.rs:142-152 | a course data block after a prefix with no opening marker is the block the decoder finds |
| MrcRoundTrip.CrmLayout | src/workout_data/workout.rs:41-62 | the file `to_crm` writes is the header, then the course data block |
| MrcRoundTrip.EffortsOfCrmFile | src/workout_data/from_mrc.rs:33-39 | a course file laid out that way reads back as its efforts |
| MrcRoundTrip.CrmEffortsRoundTrip | src/workout_data/workout.rs:41-74 | reading the efforts from the file a workout writes gives its efforts in order, idle, when the numbers are on the grid and the description has no `[` |
| MrcRoundTrip.DescriptionFound | src/workout_data/from_mrc.rs:8-22 | a description line right after the first header line is the description read, `no description` read as the empty text |
| MrcRoundTrip.CrmDescriptionRoundTrip | src/workout_data/workout.rs:45-54 | reading the description from the file a workout writes gives it back, when it is one non-empty line other than `no description` |
| MrcRoundTrip.CrmPlaceholderDescription | src/workout_data/from_mrc.rs:18 | a workout whose description is `no description` writes a file whose description reads back empty |
| MrcRoundTrip.DescriptionSample | src/workout_data/from_mrc.rs:8-22 | a header with `DESCRIPTION = A very good workout.` reads back that description |
| MrcRoundTrip.PlaceholderSample | src/workout_data/from_mrc.rs:18 | a header with `DESCRIPTION = no description` reads back the empty description |
| MrcRoundTrip.DescriptionMissing | src/workout_data/from_mrc.rs:8-22 | a description key followed at once by a newline, with no other `=`, yields `NoDescription` |
| MrcRoundTrip.CrmEmptyDescription | src/workout_data/workout.rs:45-54 | a workout with an empty description writes a file whose description cannot be read back |
| FromPlanFormat.FindNameLine | src/workout_data/from_plan_format.rs:26 | finds the first line that starts with `NAME=`, or reports that none does |
| FromPlanFormat.TrimAll | src/workout_data/from_plan_format.rs:25 | line k of the result is line k trimmed, and no line is added or lost |
| FromPlanFormat.HeaderName | src/workout_data/from_plan_format.rs:20-29 | none exactly when no trimmed header line starts with `NAME=`; otherwise the first such line is `NAME=` followed by the name |
| FromPlanFormat.NameLineOfTrimmed | src/workout_data/from_plan_format.rs:25-26 | searching the trimmed lines finds the first line that starts with `NAME=` once trimmed |
| FromPlanFormat.SplitHeaderAndIntervals | src/workout_data/from_plan_format.rs:16-38 | the only error is `InvalidFormat`; it succeeds exactly when there is a `=STREAM=` and the header before the first one has a name line; the intervals are returned trimmed |
| FromPlanFormat.HeaderAndIntervalsAt | src/workout_data/from_plan_format.rs:16-38 | cut at the first `=STREAM=`, the result is the header's name and the trimmed rest, or `InvalidFormat` when the header has no name line |
| FromPlanFormat.KeepTrimmed | src/workout_data/from_plan_format.rs:42-43 | keeps trimmed pieces that are not empty, and never adds one |
| FromPlanFormat.KeepTrimmedSingle | src/workout_data/from_plan_format.rs:42-43 | one piece is kept, trimmed, exactly when its trimmed text is not empty |
| FromPlanFormat.KeepTrimmedAppend | src/workout_data/from_plan_format.rs:42-44 | pieces are kept independently and in order: filtering two runs of pieces is filtering each and concatenating |
| FromPlanFormat.KeepTrimmedAbsence | src/workout_data/from_plan_format.rs:42-43 | trimming and filtering never creates a text that was absent from every piece |
| FromPlanFormat.SplitEffortsClean | src/workout_data/from_plan_format.rs:39-45 | every piece `split_efforts` returns is non-empty, trimmed and free of `=INTERVAL=` |
| FromPlanFormat.IntervalAt | src/workout_data/from_plan_format.rs:58 | a match of the interval pattern captures three runs of digits |
| FromPlanFormat.FirstInterval | src/workout_data/from_plan_format.rs:59-61 | none exactly when the pattern matches at no position |
| FromPlanFormat.MeanPower | src/workout_data/from_plan_format.rs:73 | the average of the two powers lies between them |
| FromPlanFormat.EffortOfDigitGroups | src/workout_data/from_plan_format.rs:63-81 | digit captures give a flat effort at the mean power, lasting the seconds divided by 60 |
| FromPlanFormat.ExtractIntervalEffort | src/workout_data/from_plan_format.rs:56-82 | `InvalidFormat` exactly when the pattern matches nowhere; otherwise a flat idle effort from the leftmost match |
| FromPlanFormat.ExtractPlan | src/workout_data/from_plan_format.rs:46-54 | the name comes from the header; one flat idle effort per interval piece |
| FromPlanFormat.ExtractPlanOfIntervals | src/workout_data/from_plan_format.rs:46-54 | the plan fails exactly when the header fails or some interval piece fails; otherwise effort k is the decoding of piece k |
| FromPlanFormat.ExtractWorkout | src/workout_data/from_plan_format.rs:46-54 | a new workout with the plan's name, an empty description, its efforts and the default type; the same error otherwise |
| PlanRoundTrip.IntervalRoundTrip | src/workout_data/from_plan_format.rs:56-82 | the written lines of an interval decode to a flat effort at its mean power for its seconds over 60 |
| PlanRoundTrip.SplitEffortsOfStream | src/workout_data/from_plan_format.rs:39-45 | interval texts written after `=INTERVAL=` markers are split back into exactly those texts |
| PlanRoundTrip.CollectIntervalEfforts | src/workout_data/from_plan_format.rs:48-51 | decoding each written interval text gives the efforts of the intervals in order |
| PlanText.PlanHeaderAndIntervals | src/workout_data/from_plan_format.rs:16-38 | a written plan splits into its name and its interval stream |
| PlanText.WrittenPlanRoundTrip | src/workout_data/from_plan_format.rs:46-54 | a written plan decodes to its name and the efforts of its intervals |
| EffortInputs.EffortUnitInput.Default | src/gui/workout_design/elements.rs:35-58 | a new input buffer has three empty fields |
| EffortInputs.EffortUnitInput.SetStartingValue | src/gui/workout_design/elements.rs:80-82 | sets the starting-value field only |
| EffortInputs.EffortUnitInput.SetEndingValue | src/gui/workout_design/elements.rs:83-86 | sets the ending-value field only |
| EffortInputs.EffortUnitInput.SetDuration | src/gui/workout_design/elements.rs:87-89 | sets the duration field only |
| EffortInputs.EffortUnitInput.Clear | src/gui/workout_design/elements.rs:94-98 | empties all three fields, so the buffer is empty |
| EffortInputs.EffortUnitInput.TryFrom | src/gui/workout_design/elements.rs:138-151 | succeeds exactly when duration and starting value parse and the ending value is empty or parses; an empty ending value gives a flat effort |
| EffortInputs.TryFromAgreesWithToIdle | src/gui/workout_design/elements.rs:138-151 | converting the buffer agrees with `Effort::to_idle` on the same three texts |
| EffortInputs.TryFromRendered | src/gui/workout_design/elements.rs:138-151 | rendered grid numbers with an empty ending value convert to the flat effort `Effort::new` builds |
| EffortInputs.ClearedCannotConvert | src/gui/workout_design/elements.rs:91-98 | a cleared buffer is empty and does not convert |
| Colors.ColorFromHex | src/gui/workout_design/visualization/colors.rs:13-31 | reads `#rrggbb` into channels between 0 and 1 with alpha 1, exactly when the three pairs are hexadecimal |
| Colors.HexByteRoundTrip | src/gui/workout_design/visualization/colors.rs:13-31 | every byte written as two hexadecimal digits reads back |
| Colors.ColorFromHexRoundTrip | src/gui/workout_design/visualization/colors.rs:13-31 | a colour written as `#rrggbb` reads back as its bytes over 255 |
| Colors.GradientWellFormed | src/gui/workout_design/visualization/colors.rs:4-10 | the gradient has 40 entries, each a `#` and six lower-case hexadecimal digits |
| Colors.Min | src/gui/workout_design/visualization/colors.rs:71-77 | the smaller of the two numbers |
| Colors.SelectIndicesInPalette | src/gui/workout_design/visualization/colors.rs:53-64 | the two indices are inside the gradient and equal or adjacent |
| Colors.SelectIndicesBracket | src/gui/workout_design/visualization/colors.rs:53-64 | within 0 to 500 watts the indices are the floor and the ceiling of the wattage's place on the gradient |
| Colors.SelectIndicesAtMost0 | src/gui/workout_design/visualization/colors.rs:53-64 | no more than 0 watts selects the first colour twice |
| Colors.SelectIndicesAtLeastMax | src/gui/workout_design/visualization/colors.rs:53-64 | 500 watts or more selects the last colour twice |
| Colors.SelectColorStringFromGradients | src/gui/workout_design/visualization/colors.rs:53-64 | the two gradient entries at the selected indices |
| Colors.SelectColorSamples | src/gui/workout_design/visualization/colors.rs:142-168 | the source's test selections for 0, 1, 201 and 500 watts |
| Colors.SelectColorsFromGradients | src/gui/workout_design/visualization/colors.rs:66-69 | the selected strings read as colours with channels between 0 and 1 |
| Colors.InterpolateColorsBetween | src/gui/workout_design/visualization/colors.rs:44-51 | the blend is symmetric, keeps a colour blended with itself, and each channel lies between the two |
| Colors.InterpolateColorsSample | src/gui/workout_design/visualization/colors.rs:114-140 | red and green blend to the source's test value |
| Colors.AverageWattageBetween | src/gui/workout_design/visualization/colors.rs:34-36 | the average lies between the starting and ending values, and is the value of a flat effort |
| Colors.ToColor | src/gui/workout_design/visualization/colors.rs:38-41 | an effort's colour has channels between 0 and 1 and alpha 1 |
| Colors.ToColorAtEnds | src/gui/workout_design/visualization/colors.rs:38-41 | efforts at or beyond the ends of the wattage range get the first or the last gradient colour |
| Layout.RatioFillsFrame | src/gui/workout_design/visualization/core.rs:214-221 | the scaled durations plus the gaps fill the frame exactly |
| Layout.StartingPointsOfEfforts | src/gui/workout_design/visualization/core.rs:223-237 | the loop returns the running starting points: the gap, then each box's end plus a gap |
| Layout.BoxesAdjacent | src/gui/workout_design/visualization/core.rs:192-212 | each box starts one gap after the previous one ends |
| Layout.XDimensionsAdjacent | src/gui/workout_design/visualization/core.rs:192-212 | the boxes of the frame follow each other with one gap between them, and the first starts one gap in |
| Layout.XDimensionsFillFrame | src/gui/workout_design/visualization/core.rs:192-221 | the last box ends exactly at the frame's width |
| Layout.MaxOfIsLargest | src/gui/workout_design/visualization/core.rs:161-169 | the maximum is one of the values and at least every value |
| Layout.BarsAt | src/gui/workout_design/visualization/core.rs:239-256 | every bar starts at the offset, as high as its value scaled |
| Layout.YDimensionsScaled | src/gui/workout_design/visualization/core.rs:239-256 | the largest value reaches 90% of the frame less the offset; the others lie below it, in the order of their values |
| Layout.MirrorYInvolution | src/gui/workout_design/visualization/core.rs:385-387 | mirroring twice gives the point back, and mirroring reverses order |
| Layout.RectangleNew | src/gui/workout_design/visualization/core.rs:297-311 | the rectangle has the box's width and the bar's height and stands on the mirrored baseline |
| Layout.RectangleNewSample | src/gui/workout_design/visualization/core.rs:410-470 | the source's test rectangle |
| Layout.Lower | src/gui/workout_design/visualization/core.rs:177 | the lower of the starting and ending bars |
| Layout.TriangleOnRectangle | src/gui/workout_design/visualization/core.rs:325-383 | the ramp's triangle sits on top of the rectangle of the lower bar |
| Layout.FlatShapes | src/gui/workout_design/visualization/core.rs:135-190 | two shapes per effort: its rectangle, then its triangle |
| Layout.ShapesToDraw | src/gui/workout_design/visualization/core.rs:135-190 | twice as many shapes as efforts, alternating rectangle and triangle |
| Layout.ShapesOfEachEffort | src/gui/workout_design/visualization/core.rs:135-190 | shape 2i is the rectangle of effort i's box and its lower scaled value; shape 2i+1 is the triangle between its scaled starting and ending values |
| Layout.Duplicate | src/gui/workout_design/visualization/core.rs:126-133 | every element twice, in order |
| Layout.ColorsOfShapes | src/gui/workout_design/visualization/core.rs:122-124 | the colour of each effort, in order |
| Layout.BoxesPaired | src/gui/workout_design/visualization/core.rs:111-121 | shape 2i and 2i+1 both carry effort i's colour |
| Layout.XSamples | src/gui/workout_design/visualization/core.rs:410-470 | the source's test ratio, starting points and boxes |
| Layout.YSamples | src/gui/workout_design/visualization/core.rs:410-470 | the source's test bars, each within 0.0001 of the expected height |
| LegacyLayout.LegacyStartingDimensionsY | src/gui/workout_design/visualization.rs:108-125 | one bar per value |
| LegacyLayout.LegacyYDimensionsScaled | src/gui/workout_design/visualization.rs:108-125 | the largest value reaches 95% of the frame less the gap; the others lie below it, in the order of their values |
| LegacyLayout.DrawEfforts | src/gui/workout_design/visualization.rs:36-59 | one rectangle per effort |
| LegacyLayout.RectangleOfEachEffort | src/gui/workout_design/visualization.rs:36-59 | effort i's rectangle starts at its box, is as wide as its scaled duration and as tall as its scaled starting value, and stands one gap above the bottom |
| LegacyLayout.EndingValuesIgnored | src/gui/workout_design/visualization.rs:36-59 | efforts that differ only in their ending values are drawn alike |
| LegacyLayout.TallestRectangle | src/gui/workout_design/visualization.rs:108-125 | the effort with the largest starting value is the tallest, at 95% of the frame less the gap |
| LegacyLayout.LegacyYSamples | src/gui/workout_design/visualization.rs:218-229 | the source's test bars |
| Decimal.ParseFmt2 | src/workout_data/positive_float.rs:26-28 | a number on the 0.01 grid, written with two decimals, parses back as itself |
| Decimal.Fmt2Ten | src/workout_data/positive_float.rs:26-28 | 10 is written `10.00` |
| Decimal.Fmt2Whole | src/workout_data/positive_float.rs:26-28 | a whole number is written as its digits and `.00` |
| Decimal.Fmt2Five | src/workout_data/effort.rs:132-143 | 5 is written `5.00` |
| Decimal.Fmt2Hundred | src/workout_data/effort.rs:125-130 | 100 is written `100.00` |
| Text.TrimIdempotent | src/workout_data/from_plan_format.rs:34 | trimming twice is trimming once |
| Text.SplitOnJoin | src/workout_data/from_plan_format.rs:41 | splitting on a separator and joining with it gives the text back |
| Text.SplitOnce | src/workout_data/from_plan_format.rs:19 | `splitn(2, sep)` cuts at the first separator, or returns the text whole when there is none |
| Text.SplitOnceAt | src/workout_data/from_plan_format.rs:19 | a text cut at an occurrence of the separator with none before it splits there |
| Wrappers.CollectMapFirstError | src/workout_data/from_plan_format.rs:48-51 | collecting results stops at the first error and returns it |

## Left out

- Floating point: `f64`/`f32` rounding, NaN and infinities are not modelled; numbers are exact `real`s. The source's `f32` test literals, such as 99.99999, are met within 0.0001 in `Layout.YSamples`.
- Float parsing: Rust's parser also accepts `inf`, `infinity` and `nan`. `Decimal.ParseFloat` accepts the literals that denote a finite number: a sign, digits with an optional point, and an exponent. Its result is exact, not rounded to `f64`. The `ParseFloatError` message is the constant `invalid float literal`.
- Regular expressions: `\d` matches the ASCII digits only, while the `regex` crate's `\d` matches every Unicode decimal digit; `\s` is Unicode White_Space, as in the `regex` crate.
- Decimal.Fmt2: rounds the exact value to hundredths with halves away from zero. Rust's `{:.2}` rounds the binary `f64` value and sends exact binary halves to the even digit, so 0.125 is `0.12` in Rust and `0.13` here. The round trips are stated for numbers on the 0.01 grid, which need no rounding.
- `EffortUnvalidError::NumberMissing` in from_mrc.rs is not modelled: no input produces it, because every capture group of a match is present. The plan decoder's `caps.get(n)` failure branches cannot happen for the same reason and are not modelled either.
- The plan decoder's `ExtractPlanFormatError::InvalidValue` (from a failing `parse::<f64>()`) has no path in the model: only a `\d` match of non-ASCII digits makes that parse fail, and the model's `\d` matches ASCII digits only (see the regular expressions line).
- I/O, files and dialogs, the GUI widgets and `view` functions, the application's message loop and serde serialisation are not modelled.
- The chart's drawing calls on the canvas (`Visualizer`, `draw`) are not modelled.
- `extract_workout` calls `Workout::new` with three arguments; the model gives the workout the default type `Watts`.
- PlanText.WrittenPlanRoundTrip: holds for names that contain no line break, no `=` and no whitespace at either end (`WritableName`), because `split_header_and_intervals` trims and splits the header.
- Layout.ShapesToDraw: requires `Drawable`, which excludes total duration 0 and largest value 0. With those, the source divides by zero and gets NaN or infinite widths.
- LegacyLayout.DrawEfforts: requires `LegacyDrawable`, for the same reason.
- Colors.ColorFromHex: the source cuts the first character off by byte (`&hex[1..]`) and reads the rest by character, as the model does. It differs only on an empty text or a non-ASCII first character, where the source panics at that slice; the model returns none for the empty text and reads the pairs after a non-ASCII first character. Every other bad input reaches the source's `unwrap` panic, which the model's none stands for.
- Layout.StartingDimensionsX: the source computes n+1 starting points and zips them with n widths, so the last point is dropped; the model builds the n boxes directly from the first n points.
- Efforts: the `&mut self` methods of `Effort` are functions that return the updated effort. The in-place update is modelled in the `Workouts.Workout` class, which reassigns its `efforts` field.
- Workouts.EffortsToCrm: the source threads `PositiveFloat` minutes; the model uses `real` minutes, because the corrected start at minute 0 is not a positive float.
- Workouts.Workout.Remove: `Vec::remove` panics on an index out of range; the model requires a valid index. The same holds for `ToEdit`, `ToIdle` and `UpdateDurationOfEffort`.
- The older chart's own `Effort` type with `to_float()` is replaced by the workout data's `Effort`.
- The remaining functions of visualization.rs beyond the layout (the canvas program and its cache) are not modelled.

## Findings

| source | as written | input that shows it | evidently intended | confidence | as-written member | corrected member |
|---|---|---|---|---|---|---|
| src/workout_data/workout.rs:65 (also :96) | the course data and the total time start from `PositiveFloat::new(0.0).unwrap()` (`.expect(...)` at :96), but `PositiveFloat::new` rejects 0 | any workout, on `to_crm` or `total_time_of_workout` | the course data starts at minute 0 and the total time is the sum of the durations | not executed | Workouts.InitialMinuteAsWrittenPanics | Workouts.Workout.TotalTimeOfWorkout |
