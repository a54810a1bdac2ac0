/**
 * src/gui/workout_design/visualization.rs, the layout part of the older chart. Along the width
 * it lays the boxes out exactly as the newer chart does, so it reuses `Layout`'s ratio,
 * starting points and boxes. Along the height it differs: the bars are scaled so that the
 * largest STARTING value reaches 95% of the frame less the gap, and each effort becomes one
 * rectangle as tall as its starting value. The ending value plays no part.
 */
module LegacyLayout {
  import opened Efforts
  import opened Layout

  /** The gap `draw_efforts` leaves between boxes and under every bar. */
  const Gap: real := 1.0

  /**
   * `compute_starting_dimensions_y` of the older chart: the bars at the scale at which the
   * largest value reaches 95% of the frame less the gap.
   */
  function LegacyStartingDimensionsY(lengthOfFrame: real, values: seq<real>, offset: real): (r: seq<YDimensions>)
    requires values != [] ==> MaxOf(values) != 0.0
    ensures |r| == |values|
  {
    if values == [] then [] else BarsAt(offset, (lengthOfFrame * 0.95 - offset) / MaxOf(values), values)
  }

  /**
   * Bars scaled by the largest value: the largest value reaches 95% of the frame less the gap,
   * and for non-negative values every bar lies between 0 and that height, in the order of the
   * values.
   */
  lemma {:induction false} LegacyYDimensionsScaled(lengthOfFrame: real, values: seq<real>, offset: real)
    requires values != [] && MaxOf(values) > 0.0 && lengthOfFrame * 0.95 >= offset
    requires forall i :: 0 <= i < |values| ==> values[i] >= 0.0
    ensures var r := LegacyStartingDimensionsY(lengthOfFrame, values, offset);
      (forall i :: 0 <= i < |r| && values[i] == MaxOf(values) ==> r[i].height == lengthOfFrame * 0.95 - offset)
      && (forall i :: 0 <= i < |r| ==> 0.0 <= r[i].height <= lengthOfFrame * 0.95 - offset)
      && (forall i, j :: 0 <= i < |r| && 0 <= j < |r| && values[i] <= values[j] ==> r[i].height <= r[j].height)
  {
    var max := MaxOf(values);
    MaxOfIsLargest(values);
    BarsScaledTo(offset, values, max, lengthOfFrame * 0.95 - offset);
  }

  /** What the older chart needs of the efforts: durations that add up to something, and a starting value that is not 0. */
  predicate LegacyDrawable(efforts: seq<Effort>) {
    efforts != [] ==> Sum(Durations(efforts)) != 0.0 && MaxOf(StartingValues(efforts)) != 0.0
  }

  /** The ratio of duration to frame width at which the older chart draws the boxes. */
  function LegacyRatio(frame: Size, efforts: seq<Effort>): real
    requires efforts != [] && Sum(Durations(efforts)) != 0.0
  {
    Ratio(frame.width, Gap, Durations(efforts))
  }

  /** The ratio of value to frame height at which the older chart draws the bars. */
  function LegacyScale(frame: Size, efforts: seq<Effort>): real
    requires efforts != [] && MaxOf(StartingValues(efforts)) != 0.0
  {
    (frame.height * 0.95 - Gap) / MaxOf(StartingValues(efforts))
  }

  /**
   * `draw_efforts`: the boxes of the durations zipped with the bars of the starting values,
   * each pair made into a rectangle on the frame.
   */
  function DrawEfforts(frame: Size, efforts: seq<Effort>): (r: seq<Rectangle>)
    requires LegacyDrawable(efforts)
    ensures |r| == |efforts|
  {
    var xs := StartingDimensionsX(frame.width, Durations(efforts), Gap);
    var ys := LegacyStartingDimensionsY(frame.height, StartingValues(efforts), Gap);
    seq(|efforts|, i requires 0 <= i < |efforts| => RectangleNew(xs[i], ys[i], frame))
  }

  /** The rectangle of effort i, for the boxes at any ratio and the bars at any scale. */
  lemma {:induction false} RectangleOfEffortAt(frame: Size, efforts: seq<Effort>, i: nat, ratio: real, scale: real)
    requires LegacyDrawable(efforts) && i < |efforts|
    requires StartingDimensionsX(frame.width, Durations(efforts), Gap) == BoxesAt(Gap, ratio, Durations(efforts))
    requires LegacyStartingDimensionsY(frame.height, StartingValues(efforts), Gap) == BarsAt(Gap, scale, StartingValues(efforts))
    ensures DrawEfforts(frame, efforts)[i]
      == RectangleNew(XDimensions(StartingPoint(Gap, ratio, Durations(efforts), i), Scaled(efforts[i].durationInMinutes, ratio)),
                      YDimensions(Gap, Scaled(efforts[i].startingValue, scale)), frame)
  {
    BoxAt(Gap, ratio, Durations(efforts), i, efforts[i].durationInMinutes);
    BarAt(Gap, scale, StartingValues(efforts), i, efforts[i].startingValue);
  }

  /**
   * One rectangle per effort: it starts where effort i's box starts, is as wide as its scaled
   * duration and as tall as its scaled starting value, and stands one gap above the bottom.
   */
  lemma {:induction false} RectangleOfEachEffort(frame: Size, efforts: seq<Effort>, i: nat)
    requires LegacyDrawable(efforts) && i < |efforts|
    ensures var ratio := LegacyRatio(frame, efforts);
      var scale := LegacyScale(frame, efforts);
      var r := DrawEfforts(frame, efforts)[i];
      r.topLeft.x == StartingPoint(Gap, ratio, Durations(efforts), i)
      && r.size == Size(Scaled(efforts[i].durationInMinutes, ratio), Scaled(efforts[i].startingValue, scale))
      && r.topLeft.y + r.size.height == frame.height - Gap
  {
    var ratio := LegacyRatio(frame, efforts);
    var scale := LegacyScale(frame, efforts);
    RectangleOfEffortAt(frame, efforts, i, ratio, scale);
  }

  /**
   * The ending values play no part: efforts that agree on their durations and starting values
   * are drawn alike.
   */
  lemma {:induction false} EndingValuesIgnored(frame: Size, a: seq<Effort>, b: seq<Effort>)
    requires |a| == |b| && LegacyDrawable(a)
    requires forall i :: 0 <= i < |a| ==> a[i].durationInMinutes == b[i].durationInMinutes && a[i].startingValue == b[i].startingValue
    ensures LegacyDrawable(b) && DrawEfforts(frame, a) == DrawEfforts(frame, b)
  {
    assert Durations(a) == Durations(b);
    assert StartingValues(a) == StartingValues(b);
  }

  /**
   * The tallest rectangle: for efforts with non-negative starting values, an effort with the
   * largest starting value is drawn 95% of the frame less the gap tall, and every other one
   * between 0 and that height.
   */
  lemma {:induction false} TallestRectangle(frame: Size, efforts: seq<Effort>, i: nat)
    requires LegacyDrawable(efforts) && i < |efforts| && frame.height * 0.95 >= Gap
    requires forall k :: 0 <= k < |efforts| ==> efforts[k].startingValue >= 0.0
    ensures 0.0 <= DrawEfforts(frame, efforts)[i].size.height <= frame.height * 0.95 - Gap
    ensures efforts[i].startingValue == MaxOf(StartingValues(efforts))
      ==> DrawEfforts(frame, efforts)[i].size.height == frame.height * 0.95 - Gap
  {
    var values := StartingValues(efforts);
    MaxOfIsLargest(values);
    assert values[i] == efforts[i].startingValue;
    LegacyYDimensionsScaled(frame.height, values, Gap);
  }

  /**
   * The sample of the source's test for `compute_starting_dimensions_y`: a frame 100 high, gaps
   * of 0.1 and the values 100, 200, 250 and 100.
   */
  lemma {:induction false} LegacyYSamples()
    ensures LegacyStartingDimensionsY(100.0, [100.0, 200.0, 250.0, 100.0], 0.1)
      == [YDimensions(0.1, 37.96), YDimensions(0.1, 75.92), YDimensions(0.1, 94.9), YDimensions(0.1, 37.96)]
  {
    var values := [100.0, 200.0, 250.0, 100.0];
    MaxOfIsLargest(values);
    assert MaxOf(values) == 250.0;
    Quotient(100.0 * 0.95 - 0.1, 250.0, 0.3796);
  }
}
