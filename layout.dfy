/**
 * src/gui/workout_design/visualization/core.rs, the layout part: where the chart draws each
 * effort. Widths follow the durations, with a fixed gap before each box, and fill the frame.
 * Heights follow the values relative to the largest one. Each effort is drawn as a rectangle
 * up to the lower of its two values, with a triangle for the ramp on top of it, in the
 * effort's colour. The canvas calls and the summary text are not part of this model.
 */
module Layout {
  import opened Efforts
  import opened Colors

  /** `RectangleXDimensions`: where a box starts along the frame and how wide it is. */
  datatype XDimensions = XDimensions(startingPoint: real, width: real)

  /** `RectangleYDimensions`: how far above the bottom a box starts and how tall it is. */
  datatype YDimensions = YDimensions(startingPoint: real, height: real)

  /** `iced::Point`, with y growing downwards. */
  datatype Point = Point(x: real, y: real)

  /** `iced::Size`. */
  datatype Size = Size(width: real, height: real)

  /** `RectangleToDraw`. */
  datatype Rectangle = Rectangle(topLeft: Point, size: Size)

  /** `TriangleToDraw`. */
  datatype Triangle = Triangle(point1: Point, point2: Point, point3: Point)

  /** The two kinds of `Drawable` the chart draws. */
  datatype Shape = RectangleShape(rectangle: Rectangle) | TriangleShape(triangle: Triangle)

  /** The gap the chart leaves before each box and below each bar. */
  const OffsetBetweenDurations: real := 1.0

  /** `iter().sum()` over floats. */
  function Sum(xs: seq<real>): real
    decreases |xs|
  {
    if xs == [] then 0.0 else Sum(xs[..|xs| - 1]) + xs[|xs| - 1]
  }

  /** The sum of a prefix one element longer. */
  lemma {:induction false} SumPrefixStep(xs: seq<real>, k: nat)
    requires k < |xs|
    ensures Sum(xs[..k + 1]) == Sum(xs[..k]) + xs[k]
  {
    assert xs[..k + 1][..k] == xs[..k];
  }

  /** A duration or a value multiplied by the ratio at which the chart draws it. */
  function Scaled(x: real, ratio: real): real {
    x * ratio
  }

  /** The room that `count` gaps of `offset` take. */
  function Gaps(offset: real, count: nat): real {
    count as real * offset
  }

  /** Scaling distributes over a sum. */
  lemma {:induction false} ScaledSum(a: real, b: real, ratio: real)
    ensures Scaled(a + b, ratio) == Scaled(a, ratio) + Scaled(b, ratio)
  {
  }

  /** One gap more. */
  lemma {:induction false} GapsStep(offset: real, count: nat)
    ensures Gaps(offset, count + 1) == Gaps(offset, count) + offset
  {
  }

  /** `compute_ratio_of_duration_to_frame`: the scale at which the durations and one gap per box fill the frame. */
  function Ratio(lengthOfFrame: real, offset: real, durations: seq<real>): real
    requires Sum(durations) != 0.0
  {
    (lengthOfFrame - Gaps(offset, |durations|)) / Sum(durations)
  }

  /** The ratio scales the total duration to the frame less one gap per box. */
  lemma {:induction false} RatioFillsFrame(lengthOfFrame: real, offset: real, durations: seq<real>)
    requires Sum(durations) != 0.0
    ensures Scaled(Sum(durations), Ratio(lengthOfFrame, offset, durations)) + Gaps(offset, |durations|) == lengthOfFrame
  {
  }

  /** The k-th point `compute_starting_points_of_efforts` yields: k+1 gaps and the first k durations scaled. */
  function StartingPoint(offset: real, ratio: real, durations: seq<real>, k: nat): real
    requires k <= |durations|
  {
    Gaps(offset, k + 1) + Scaled(Sum(durations[..k]), ratio)
  }

  /** Each starting point is the one before it, one gap and the scaled duration in between. */
  lemma {:induction false} StartingPointStep(offset: real, ratio: real, durations: seq<real>, k: nat)
    requires k < |durations|
    ensures StartingPoint(offset, ratio, durations, k + 1)
      == StartingPoint(offset, ratio, durations, k) + offset + Scaled(durations[k], ratio)
  {
    SumPrefixStep(durations, k);
    GapsStep(offset, k + 1);
    ScaledSum(Sum(durations[..k]), durations[k], ratio);
  }

  /**
   * `compute_starting_points_of_efforts`: the running sum over 0 and then the durations, each
   * step adding a gap and a scaled duration; one point more than there are durations.
   */
  method StartingPointsOfEfforts(offset: real, ratio: real, durations: seq<real>) returns (points: seq<real>)
    ensures |points| == |durations| + 1
    ensures forall k :: 0 <= k < |points| ==> points[k] == StartingPoint(offset, ratio, durations, k)
  {
    var steps := [0.0] + durations;
    var lastStartingPoint := 0.0;
    points := [];
    var i := 0;
    while i < |steps|
      invariant 0 <= i <= |steps| && |points| == i
      invariant forall k :: 0 <= k < i ==> points[k] == StartingPoint(offset, ratio, durations, k)
      invariant i == 0 ==> lastStartingPoint == 0.0
      invariant i > 0 ==> lastStartingPoint == points[i - 1]
    {
      if i > 0 {
        StartingPointStep(offset, ratio, durations, i - 1);
      } else {
        StartingPointFirst(offset, ratio, durations);
      }
      lastStartingPoint := lastStartingPoint + offset + Scaled(steps[i], ratio);
      points := points + [lastStartingPoint];
      i := i + 1;
    }
  }

  /** The boxes at a given scale: each at its starting point, as wide as its scaled duration. */
  function BoxesAt(offset: real, ratio: real, durations: seq<real>): (r: seq<XDimensions>)
    ensures |r| == |durations|
    ensures forall i :: 0 <= i < |r| ==>
      r[i] == XDimensions(StartingPoint(offset, ratio, durations, i), Scaled(durations[i], ratio))
  {
    seq(|durations|, i requires 0 <= i < |durations| =>
      XDimensions(StartingPoint(offset, ratio, durations, i), Scaled(durations[i], ratio)))
  }

  /** The box of duration i at a given scale, with that duration given by its value. */
  lemma {:induction false} BoxAt(offset: real, ratio: real, durations: seq<real>, i: nat, duration: real)
    requires i < |durations| && durations[i] == duration
    ensures BoxesAt(offset, ratio, durations)[i] == XDimensions(StartingPoint(offset, ratio, durations, i), Scaled(duration, ratio))
  {
  }

  /** `compute_starting_dimensions_x`: the boxes at the scale at which they fill the frame. */
  function StartingDimensionsX(lengthOfFrame: real, durations: seq<real>, offset: real): (r: seq<XDimensions>)
    requires durations != [] ==> Sum(durations) != 0.0
    ensures |r| == |durations|
  {
    if durations == [] then [] else BoxesAt(offset, Ratio(lengthOfFrame, offset, durations), durations)
  }

  /** The first point is one gap in. */
  lemma {:induction false} StartingPointFirst(offset: real, ratio: real, durations: seq<real>)
    ensures StartingPoint(offset, ratio, durations, 0) == offset
  {
    assert durations[..0] == [];
  }

  /** At any scale, the first box starts one gap in, and each next box one gap after the end of the one before. */
  lemma {:induction false} BoxesAdjacent(offset: real, ratio: real, durations: seq<real>)
    ensures var r := BoxesAt(offset, ratio, durations);
      |r| == |durations|
      && (forall i :: 0 <= i < |r| ==> r[i].width == Scaled(durations[i], ratio))
      && (r != [] ==> r[0].startingPoint == offset)
      && forall i :: 0 <= i < |r| - 1 ==> r[i + 1].startingPoint == r[i].startingPoint + r[i].width + offset
  {
    StartingPointFirst(offset, ratio, durations);
    forall i | 0 <= i < |durations| - 1
      ensures StartingPoint(offset, ratio, durations, i + 1)
        == StartingPoint(offset, ratio, durations, i) + offset + Scaled(durations[i], ratio)
    {
      StartingPointStep(offset, ratio, durations, i);
    }
  }

  /**
   * The boxes of `compute_starting_dimensions_x`: one per duration, each as wide as its duration
   * scaled by the ratio, the first one gap in and each next one gap after the end of the one before.
   */
  lemma {:induction false} XDimensionsAdjacent(lengthOfFrame: real, durations: seq<real>, offset: real)
    requires durations != [] && Sum(durations) != 0.0
    ensures var r := StartingDimensionsX(lengthOfFrame, durations, offset);
      |r| == |durations|
      && (forall i :: 0 <= i < |r| ==> r[i].width == Scaled(durations[i], Ratio(lengthOfFrame, offset, durations)))
      && (r != [] ==> r[0].startingPoint == offset)
      && forall i :: 0 <= i < |r| - 1 ==> r[i + 1].startingPoint == r[i].startingPoint + r[i].width + offset
  {
    BoxesAdjacent(offset, Ratio(lengthOfFrame, offset, durations), durations);
  }

  /** The point after the last box: one gap per box and one more, and the whole scaled total. */
  lemma {:induction false} StartingPointAfterAll(offset: real, ratio: real, durations: seq<real>)
    ensures StartingPoint(offset, ratio, durations, |durations|) == Gaps(offset, |durations| + 1) + Scaled(Sum(durations), ratio)
  {
    assert durations[..|durations|] == durations;
  }

  /** The point after the last box, one step after the last box's own point. */
  lemma {:induction false} StartingPointLast(offset: real, ratio: real, durations: seq<real>)
    requires durations != []
    ensures StartingPoint(offset, ratio, durations, |durations|)
      == StartingPoint(offset, ratio, durations, |durations| - 1) + offset + Scaled(durations[|durations| - 1], ratio)
  {
    StartingPointStep(offset, ratio, durations, |durations| - 1);
  }

  /** The point of the last duration and that duration, scaled, reach the frame's length. */
  lemma {:induction false} LastBoxEnd(lengthOfFrame: real, durations: seq<real>, offset: real, ratio: real)
    requires durations != [] && Scaled(Sum(durations), ratio) + Gaps(offset, |durations|) == lengthOfFrame
    ensures StartingPoint(offset, ratio, durations, |durations| - 1) + Scaled(durations[|durations| - 1], ratio) == lengthOfFrame
  {
    StartingPointLast(offset, ratio, durations);
    StartingPointAfterAll(offset, ratio, durations);
    GapsStep(offset, |durations|);
  }

  /** At a scale that fills the frame with the durations and their gaps, the last box ends at the frame's length. */
  lemma {:induction false} BoxesFillFrame(lengthOfFrame: real, durations: seq<real>, offset: real, ratio: real)
    requires durations != [] && Scaled(Sum(durations), ratio) + Gaps(offset, |durations|) == lengthOfFrame
    ensures var r := BoxesAt(offset, ratio, durations);
      r[|r| - 1].startingPoint + r[|r| - 1].width == lengthOfFrame
  {
    LastBoxEnd(lengthOfFrame, durations, offset, ratio);
  }

  /** The last box ends exactly at the right edge of the frame. */
  lemma {:induction false} XDimensionsFillFrame(lengthOfFrame: real, durations: seq<real>, offset: real)
    requires durations != [] && Sum(durations) != 0.0
    ensures var r := StartingDimensionsX(lengthOfFrame, durations, offset);
      r[|r| - 1].startingPoint + r[|r| - 1].width == lengthOfFrame
  {
    RatioFillsFrame(lengthOfFrame, offset, durations);
    BoxesFillFrame(lengthOfFrame, durations, offset, Ratio(lengthOfFrame, offset, durations));
  }

  /** `f32::max` as the fold over the values uses it. */
  function Max(a: real, b: real): real {
    if a >= b then a else b
  }

  /** `fold(f32::NAN, f32::max)` over values that are not all missing: the largest of them. */
  function MaxOf(values: seq<real>): real
    requires values != []
    decreases |values|
  {
    if |values| == 1 then values[0]
    else Max(MaxOf(values[..|values| - 1]), values[|values| - 1])
  }

  /** The fold gives one of the values, and none is larger. */
  lemma {:induction false} MaxOfIsLargest(values: seq<real>)
    requires values != []
    ensures MaxOf(values) in values
    ensures forall i :: 0 <= i < |values| ==> values[i] <= MaxOf(values)
    decreases |values|
  {
    if |values| > 1 {
      var front := values[..|values| - 1];
      MaxOfIsLargest(front);
      assert forall i :: 0 <= i < |front| ==> values[i] == front[i];
    }
  }

  /** The bars at a given scale: each one gap above the bottom, as tall as its value scaled. */
  function BarsAt(offset: real, scale: real, values: seq<real>): (r: seq<YDimensions>)
    ensures |r| == |values|
    ensures forall i :: 0 <= i < |r| ==> r[i] == YDimensions(offset, Scaled(values[i], scale))
  {
    seq(|values|, i requires 0 <= i < |values| => YDimensions(offset, Scaled(values[i], scale)))
  }

  /** `compute_starting_dimensions_y`: the bars at the scale at which `max` reaches 90% of the frame less the gap. */
  function StartingDimensionsY(lengthOfFrame: real, values: seq<real>, offset: real, max: real): (r: seq<YDimensions>)
    requires values != [] ==> max != 0.0
    ensures |r| == |values|
  {
    if values == [] then [] else BarsAt(offset, (lengthOfFrame * 0.90 - offset) / max, values)
  }

  /** A value between 0 and the largest, scaled so that the largest reaches `top`, lies between 0 and `top`. */
  lemma {:induction false} ScaledBar(value: real, max: real, top: real, scale: real)
    requires 0.0 <= value <= max && max > 0.0 && top >= 0.0 && scale * max == top
    ensures scale >= 0.0
    ensures 0.0 <= value * scale <= top
    ensures value == max ==> value * scale == top
  {
    assert scale >= 0.0;
    assert value * scale <= max * scale;
  }

  /** Scaling by a non-negative factor keeps the order. */
  lemma {:induction false} ScaledOrder(a: real, b: real, scale: real)
    requires a <= b && scale >= 0.0
    ensures a * scale <= b * scale
  {
  }

  /** At a scale that takes `max` to `top`, bars of values between 0 and `max` lie between 0 and `top`, in the order of the values. */
  lemma {:induction false} BarsScaled(offset: real, scale: real, values: seq<real>, max: real, top: real)
    requires max > 0.0 && top >= 0.0 && scale * max == top
    requires forall i :: 0 <= i < |values| ==> 0.0 <= values[i] <= max
    ensures var r := BarsAt(offset, scale, values);
      (forall i :: 0 <= i < |r| && values[i] == max ==> r[i].height == top)
      && (forall i :: 0 <= i < |r| ==> 0.0 <= r[i].height <= top)
      && (forall i, j :: 0 <= i < |r| && 0 <= j < |r| && values[i] <= values[j] ==> r[i].height <= r[j].height)
  {
    var r := BarsAt(offset, scale, values);
    forall i | 0 <= i < |r|
      ensures 0.0 <= r[i].height <= top && (values[i] == max ==> r[i].height == top)
    {
      ScaledBar(values[i], max, top, scale);
    }
    ScaledBar(max, max, top, scale);
    forall i, j | 0 <= i < |r| && 0 <= j < |r| && values[i] <= values[j]
      ensures r[i].height <= r[j].height
    {
      ScaledOrder(values[i], values[j], scale);
    }
  }

  /** Dividing by a non-zero number and multiplying back. */
  lemma {:induction false} DivideAndMultiply(top: real, max: real)
    requires max != 0.0
    ensures (top / max) * max == top
  {
  }

  /** Bars scaled so that `max` reaches `top`, for values between 0 and `max`. */
  lemma {:induction false} BarsScaledTo(offset: real, values: seq<real>, max: real, top: real)
    requires max > 0.0 && top >= 0.0
    requires forall i :: 0 <= i < |values| ==> 0.0 <= values[i] <= max
    ensures var r := BarsAt(offset, top / max, values);
      (forall i :: 0 <= i < |r| && values[i] == max ==> r[i].height == top)
      && (forall i :: 0 <= i < |r| ==> 0.0 <= r[i].height <= top)
      && (forall i, j :: 0 <= i < |r| && 0 <= j < |r| && values[i] <= values[j] ==> r[i].height <= r[j].height)
  {
    DivideAndMultiply(top, max);
    BarsScaled(offset, top / max, values, max, top);
  }

  /**
   * Bars scaled by the largest value: the largest value reaches 90% of the frame less the
   * gap, and for non-negative values every bar lies between 0 and that height, in the order of
   * the values.
   */
  lemma {:induction false} YDimensionsScaled(lengthOfFrame: real, values: seq<real>, offset: real)
    requires values != [] && MaxOf(values) > 0.0 && lengthOfFrame * 0.90 >= offset
    requires forall i :: 0 <= i < |values| ==> values[i] >= 0.0
    ensures var r := StartingDimensionsY(lengthOfFrame, values, offset, MaxOf(values));
      (forall i :: 0 <= i < |r| && values[i] == MaxOf(values) ==> r[i].height == lengthOfFrame * 0.90 - offset)
      && (forall i :: 0 <= i < |r| ==> 0.0 <= r[i].height <= lengthOfFrame * 0.90 - offset)
      && (forall i, j :: 0 <= i < |r| && 0 <= j < |r| && values[i] <= values[j] ==> r[i].height <= r[j].height)
  {
    var max := MaxOf(values);
    MaxOfIsLargest(values);
    BarsScaledTo(offset, values, max, lengthOfFrame * 0.90 - offset);
  }

  /** `mirror_y`: a height above the bottom as a y coordinate from the top. */
  function MirrorY(point: real, frame: Size): real {
    frame.height - point
  }

  /** Mirroring twice gives the height back, and a higher point lies further up the frame. */
  lemma {:induction false} MirrorYInvolution(point: real, other: real, frame: Size)
    ensures MirrorY(MirrorY(point, frame), frame) == point
    ensures point < other <==> MirrorY(other, frame) < MirrorY(point, frame)
  {
  }

  /** `RectangleToDraw::new`: the box's left edge and width, and a bottom edge its starting point above the frame's bottom. */
  function RectangleNew(x: XDimensions, y: YDimensions, frame: Size): (r: Rectangle)
    ensures r.topLeft.x == x.startingPoint && r.size == Size(x.width, y.height)
    ensures r.topLeft.y + r.size.height == MirrorY(y.startingPoint, frame)
    ensures r.topLeft.y == MirrorY(y.startingPoint + y.height, frame)
  {
    Rectangle(Point(x.startingPoint, frame.height - y.height - y.startingPoint), Size(x.width, y.height))
  }

  /** The sample of the source's test. */
  lemma {:induction false} RectangleNewSample()
    ensures RectangleNew(XDimensions(0.1, 10.0), YDimensions(0.1, 30.0), Size(100.0, 300.0))
      == Rectangle(Point(0.1, 269.9), Size(10.0, 30.0))
  {
  }

  /** `TriangleToDraw::new`: the ramp from the starting to the ending height over the box. */
  function TriangleNew(x: XDimensions, starting: YDimensions, ending: YDimensions, frame: Size): Triangle {
    if starting.height > ending.height then
      Triangle(Point(x.startingPoint, MirrorY(ending.startingPoint + ending.height, frame)),
               Point(x.startingPoint, MirrorY(starting.startingPoint + starting.height, frame)),
               Point(x.startingPoint + x.width, MirrorY(ending.startingPoint + ending.height, frame)))
    else
      Triangle(Point(x.startingPoint, MirrorY(starting.startingPoint + starting.height, frame)),
               Point(x.startingPoint + x.width, MirrorY(starting.startingPoint + starting.height, frame)),
               Point(x.startingPoint + x.width, MirrorY(ending.startingPoint + ending.height, frame)))
  }

  /** The lower of the starting and the ending bar, which the rectangle covers. */
  function Lower(starting: YDimensions, ending: YDimensions): (r: YDimensions)
    ensures r == starting || r == ending
    ensures r.height <= starting.height && r.height <= ending.height
  {
    if ending.height > starting.height then starting else ending
  }

  /**
   * The triangle sits on the rectangle: two of its corners are the rectangle's top corners, and
   * the third is the top of the higher bar, above the side where the effort is higher.
   */
  lemma {:induction false} TriangleOnRectangle(x: XDimensions, starting: YDimensions, ending: YDimensions, frame: Size)
    requires starting.startingPoint == ending.startingPoint
    ensures var rect := RectangleNew(x, Lower(starting, ending), frame);
      var tri := TriangleNew(x, starting, ending, frame);
      var topRight := Point(rect.topLeft.x + rect.size.width, rect.topLeft.y);
      (starting.height > ending.height ==>
        tri.point1 == rect.topLeft && tri.point3 == topRight
        && tri.point2 == Point(x.startingPoint, MirrorY(starting.startingPoint + starting.height, frame)))
      && (starting.height <= ending.height ==>
        tri.point1 == rect.topLeft && tri.point2 == topRight
        && tri.point3 == Point(x.startingPoint + x.width, MirrorY(ending.startingPoint + ending.height, frame)))
  {
  }

  /** The rectangle and the triangle of one effort, in that order: one step of the `flat_map`. */
  function ShapesOfEffort(x: XDimensions, starting: YDimensions, ending: YDimensions, frame: Size): seq<Shape> {
    [RectangleShape(RectangleNew(x, Lower(starting, ending), frame)), TriangleShape(TriangleNew(x, starting, ending, frame))]
  }

  /** The `flat_map` over the zipped dimensions: the two shapes of each effort, in the order of the efforts. */
  function FlatShapes(xs: seq<XDimensions>, starting: seq<YDimensions>, ending: seq<YDimensions>, frame: Size): (r: seq<Shape>)
    requires |xs| == |starting| == |ending|
    ensures |r| == 2 * |xs|
    ensures forall i :: 0 <= i < |xs| ==>
      r[2 * i] == ShapesOfEffort(xs[i], starting[i], ending[i], frame)[0]
      && r[2 * i + 1] == ShapesOfEffort(xs[i], starting[i], ending[i], frame)[1]
    decreases |xs|
  {
    if xs == [] then []
    else
      var n := |xs| - 1;
      var front := FlatShapes(xs[..n], starting[..n], ending[..n], frame);
      front + ShapesOfEffort(xs[n], starting[n], ending[n], frame)
  }

  function Durations(efforts: seq<Effort>): (r: seq<real>)
    ensures |r| == |efforts| && forall i :: 0 <= i < |efforts| ==> r[i] == efforts[i].durationInMinutes
  {
    seq(|efforts|, i requires 0 <= i < |efforts| => efforts[i].durationInMinutes)
  }

  function StartingValues(efforts: seq<Effort>): (r: seq<real>)
    ensures |r| == |efforts| && forall i :: 0 <= i < |efforts| ==> r[i] == efforts[i].startingValue
  {
    seq(|efforts|, i requires 0 <= i < |efforts| => efforts[i].startingValue)
  }

  function EndingValues(efforts: seq<Effort>): (r: seq<real>)
    ensures |r| == |efforts| && forall i :: 0 <= i < |efforts| ==> r[i] == efforts[i].endingValue
  {
    seq(|efforts|, i requires 0 <= i < |efforts| => efforts[i].endingValue)
  }

  /** The largest of all starting and ending values, by which `compute_shapes_to_draw` scales the bars. */
  function MaxValue(efforts: seq<Effort>): real
    requires efforts != []
  {
    MaxOf(StartingValues(efforts) + EndingValues(efforts))
  }

  /** What the chart needs of the efforts: durations that add up to something, and a value that is not 0. */
  predicate Drawable(efforts: seq<Effort>) {
    efforts != [] ==> Sum(Durations(efforts)) != 0.0 && MaxValue(efforts) != 0.0
  }

  /** The ratio of duration to frame width at which the efforts' boxes are drawn. */
  function EffortsRatio(frame: Size, efforts: seq<Effort>): real
    requires efforts != [] && Sum(Durations(efforts)) != 0.0
  {
    Ratio(frame.width, OffsetBetweenDurations, Durations(efforts))
  }

  /** The ratio of value to frame height at which the efforts' bars are drawn: the largest value reaches 90% of the frame less the gap. */
  function EffortsScale(frame: Size, efforts: seq<Effort>): real
    requires efforts != [] && MaxValue(efforts) != 0.0
  {
    (frame.height * 0.90 - OffsetBetweenDurations) / MaxValue(efforts)
  }

  /** The boxes of the efforts along the width of the frame. */
  function EffortsX(frame: Size, efforts: seq<Effort>): (r: seq<XDimensions>)
    requires efforts != [] ==> Sum(Durations(efforts)) != 0.0
    ensures |r| == |efforts|
  {
    StartingDimensionsX(frame.width, Durations(efforts), OffsetBetweenDurations)
  }

  /** The bars of the efforts' starting values. */
  function EffortsStartingY(frame: Size, efforts: seq<Effort>): (r: seq<YDimensions>)
    requires efforts != [] ==> MaxValue(efforts) != 0.0
    ensures |r| == |efforts|
  {
    if efforts == [] then [] else StartingDimensionsY(frame.height, StartingValues(efforts), OffsetBetweenDurations, MaxValue(efforts))
  }

  /** The bars of the efforts' ending values. */
  function EffortsEndingY(frame: Size, efforts: seq<Effort>): (r: seq<YDimensions>)
    requires efforts != [] ==> MaxValue(efforts) != 0.0
    ensures |r| == |efforts|
  {
    if efforts == [] then [] else StartingDimensionsY(frame.height, EndingValues(efforts), OffsetBetweenDurations, MaxValue(efforts))
  }

  /**
   * `compute_shapes_to_draw`: per effort, the rectangle up to the lower of its two bars and the
   * triangle of its ramp, both scaled by the largest of all starting and ending values. With no
   * efforts every zipped list is empty, and so is the result.
   */
  function ShapesToDraw(frame: Size, efforts: seq<Effort>): (r: seq<Shape>)
    requires Drawable(efforts)
    ensures |r| == 2 * |efforts|
    ensures forall i :: 0 <= i < |efforts| ==> r[2 * i].RectangleShape? && r[2 * i + 1].TriangleShape?
  {
    FlatShapes(EffortsX(frame, efforts), EffortsStartingY(frame, efforts), EffortsEndingY(frame, efforts), frame)
  }

  /** The shapes of effort i come from its box and its two bars. */
  lemma {:induction false} ShapesFromDimensions(frame: Size, efforts: seq<Effort>, i: nat)
    requires Drawable(efforts) && i < |efforts|
    ensures var x := EffortsX(frame, efforts)[i];
      var starting := EffortsStartingY(frame, efforts)[i];
      var ending := EffortsEndingY(frame, efforts)[i];
      ShapesToDraw(frame, efforts)[2 * i] == RectangleShape(RectangleNew(x, Lower(starting, ending), frame))
      && ShapesToDraw(frame, efforts)[2 * i + 1] == TriangleShape(TriangleNew(x, starting, ending, frame))
  {
  }

  /** The boxes of the efforts are the durations' boxes at the ratio that fills the frame. */
  lemma {:induction false} EffortsXAtRatio(frame: Size, efforts: seq<Effort>)
    requires efforts != [] && Sum(Durations(efforts)) != 0.0
    ensures EffortsX(frame, efforts) == BoxesAt(OffsetBetweenDurations, EffortsRatio(frame, efforts), Durations(efforts))
  {
  }

  /** The box of effort i, written out, for the boxes at any given ratio. */
  lemma {:induction false} BoxOfEffort(frame: Size, efforts: seq<Effort>, i: nat, ratio: real)
    requires i < |efforts| && Sum(Durations(efforts)) != 0.0
    requires EffortsX(frame, efforts) == BoxesAt(OffsetBetweenDurations, ratio, Durations(efforts))
    ensures EffortsX(frame, efforts)[i]
      == XDimensions(StartingPoint(OffsetBetweenDurations, ratio, Durations(efforts), i), Scaled(efforts[i].durationInMinutes, ratio))
  {
    BoxAt(OffsetBetweenDurations, ratio, Durations(efforts), i, efforts[i].durationInMinutes);
  }

  /** The bars of value i at a given scale, with that value given by itself. */
  lemma {:induction false} BarAt(offset: real, scale: real, values: seq<real>, i: nat, value: real)
    requires i < |values| && values[i] == value
    ensures BarsAt(offset, scale, values)[i] == YDimensions(offset, Scaled(value, scale))
  {
  }

  /** The bars of the efforts are their values' bars at the scale that takes the largest value to 90% of the frame less the gap. */
  lemma {:induction false} EffortsYAtScale(frame: Size, efforts: seq<Effort>)
    requires efforts != [] && MaxValue(efforts) != 0.0
    ensures EffortsStartingY(frame, efforts) == BarsAt(OffsetBetweenDurations, EffortsScale(frame, efforts), StartingValues(efforts))
    ensures EffortsEndingY(frame, efforts) == BarsAt(OffsetBetweenDurations, EffortsScale(frame, efforts), EndingValues(efforts))
  {
  }

  /** The two bars of effort i, written out, for the bars at any given scale. */
  lemma {:induction false} BarsOfEffort(frame: Size, efforts: seq<Effort>, i: nat, scale: real)
    requires i < |efforts| && MaxValue(efforts) != 0.0
    requires EffortsStartingY(frame, efforts) == BarsAt(OffsetBetweenDurations, scale, StartingValues(efforts))
    requires EffortsEndingY(frame, efforts) == BarsAt(OffsetBetweenDurations, scale, EndingValues(efforts))
    ensures EffortsStartingY(frame, efforts)[i] == YDimensions(OffsetBetweenDurations, Scaled(efforts[i].startingValue, scale))
    ensures EffortsEndingY(frame, efforts)[i] == YDimensions(OffsetBetweenDurations, Scaled(efforts[i].endingValue, scale))
  {
    BarAt(OffsetBetweenDurations, scale, StartingValues(efforts), i, efforts[i].startingValue);
    BarAt(OffsetBetweenDurations, scale, EndingValues(efforts), i, efforts[i].endingValue);
  }

  /** The shapes of effort i, for the boxes at any ratio and the bars at any scale. */
  lemma {:induction false} ShapesOfEffortAt(frame: Size, efforts: seq<Effort>, i: nat, ratio: real, scale: real)
    requires Drawable(efforts) && i < |efforts|
    requires EffortsX(frame, efforts) == BoxesAt(OffsetBetweenDurations, ratio, Durations(efforts))
    requires EffortsStartingY(frame, efforts) == BarsAt(OffsetBetweenDurations, scale, StartingValues(efforts))
    requires EffortsEndingY(frame, efforts) == BarsAt(OffsetBetweenDurations, scale, EndingValues(efforts))
    ensures var x := XDimensions(StartingPoint(OffsetBetweenDurations, ratio, Durations(efforts), i),
                                 Scaled(efforts[i].durationInMinutes, ratio));
      var starting := YDimensions(OffsetBetweenDurations, Scaled(efforts[i].startingValue, scale));
      var ending := YDimensions(OffsetBetweenDurations, Scaled(efforts[i].endingValue, scale));
      ShapesToDraw(frame, efforts)[2 * i] == RectangleShape(RectangleNew(x, Lower(starting, ending), frame))
      && ShapesToDraw(frame, efforts)[2 * i + 1] == TriangleShape(TriangleNew(x, starting, ending, frame))
  {
    ShapesFromDimensions(frame, efforts, i);
    BoxOfEffort(frame, efforts, i, ratio);
    BarsOfEffort(frame, efforts, i, scale);
  }

  /**
   * The shapes of effort i: a rectangle as wide as its scaled duration and as tall as the lower
   * of its two scaled values, then its triangle; both bars are scaled by the same largest value.
   */
  lemma {:induction false} ShapesOfEachEffort(frame: Size, efforts: seq<Effort>, i: nat)
    requires Drawable(efforts) && i < |efforts|
    ensures var ratio := EffortsRatio(frame, efforts);
      var x := XDimensions(StartingPoint(OffsetBetweenDurations, ratio, Durations(efforts), i),
                           Scaled(efforts[i].durationInMinutes, ratio));
      var scale := EffortsScale(frame, efforts);
      var starting := YDimensions(OffsetBetweenDurations, Scaled(efforts[i].startingValue, scale));
      var ending := YDimensions(OffsetBetweenDurations, Scaled(efforts[i].endingValue, scale));
      ShapesToDraw(frame, efforts)[2 * i] == RectangleShape(RectangleNew(x, Lower(starting, ending), frame))
      && ShapesToDraw(frame, efforts)[2 * i + 1] == TriangleShape(TriangleNew(x, starting, ending, frame))
  {
    EffortsXAtRatio(frame, efforts);
    EffortsYAtScale(frame, efforts);
    var ratio := EffortsRatio(frame, efforts);
    var scale := EffortsScale(frame, efforts);
    ShapesOfEffortAt(frame, efforts, i, ratio, scale);
    var x := XDimensions(StartingPoint(OffsetBetweenDurations, ratio, Durations(efforts), i),
                         Scaled(efforts[i].durationInMinutes, ratio));
    var starting := YDimensions(OffsetBetweenDurations, Scaled(efforts[i].startingValue, scale));
    var ending := YDimensions(OffsetBetweenDurations, Scaled(efforts[i].endingValue, scale));
    assert ShapesToDraw(frame, efforts)[2 * i] == RectangleShape(RectangleNew(x, Lower(starting, ending), frame));
    assert ShapesToDraw(frame, efforts)[2 * i + 1] == TriangleShape(TriangleNew(x, starting, ending, frame));
  }

  /** `duplicate_element_in_iterator`: each element twice, in order. */
  function Duplicate<T>(xs: seq<T>): (r: seq<T>)
    ensures |r| == 2 * |xs|
    ensures forall i :: 0 <= i < |xs| ==> r[2 * i] == xs[i] && r[2 * i + 1] == xs[i]
    decreases |xs|
  {
    if xs == [] then []
    else
      var n := |xs| - 1;
      Duplicate(xs[..n]) + [xs[n], xs[n]]
  }

  /** `compute_colors_of_shapes`: the colour of each effort, in order. */
  function ColorsOfShapes(efforts: seq<Effort>): (r: seq<Color>)
    ensures |r| == |efforts| && forall i :: 0 <= i < |efforts| ==> r[i] == ToColor(efforts[i])
  {
    seq(|efforts|, i requires 0 <= i < |efforts| => ToColor(efforts[i]))
  }

  /** `Iterator::zip`: pairs up to the end of the shorter list. */
  function Zip<A, B>(a: seq<A>, b: seq<B>): (r: seq<(A, B)>)
    ensures |r| == if |a| <= |b| then |a| else |b|
    ensures forall i :: 0 <= i < |r| ==> r[i] == (a[i], b[i])
  {
    seq(if |a| <= |b| then |a| else |b|, i requires 0 <= i < |a| && 0 <= i < |b| => (a[i], b[i]))
  }

  /** `compute_boxes_for_efforts`: each shape with the colour of its effort. */
  function BoxesForEfforts(frame: Size, efforts: seq<Effort>): seq<(Shape, Color)>
    requires Drawable(efforts)
  {
    Zip(ShapesToDraw(frame, efforts), Duplicate(ColorsOfShapes(efforts)))
  }

  /**
   * Two boxes per effort, in the order of the efforts: its rectangle, then its triangle, both
   * in the effort's colour.
   */
  lemma {:induction false} BoxesPaired(frame: Size, efforts: seq<Effort>)
    requires Drawable(efforts)
    ensures |BoxesForEfforts(frame, efforts)| == 2 * |efforts|
    ensures forall i :: 0 <= i < |efforts| ==>
      BoxesForEfforts(frame, efforts)[2 * i].0.RectangleShape?
      && BoxesForEfforts(frame, efforts)[2 * i + 1].0.TriangleShape?
      && BoxesForEfforts(frame, efforts)[2 * i].1 == ToColor(efforts[i])
      && BoxesForEfforts(frame, efforts)[2 * i + 1].1 == ToColor(efforts[i])
  {
    var shapes := ShapesToDraw(frame, efforts);
    var colors := Duplicate(ColorsOfShapes(efforts));
    var boxes := BoxesForEfforts(frame, efforts);
    forall i | 0 <= i < |efforts|
      ensures boxes[2 * i] == (shapes[2 * i], colors[2 * i]) && boxes[2 * i + 1] == (shapes[2 * i + 1], colors[2 * i + 1])
    {
    }
  }

  /** The durations of the source's samples. */
  const SampleDurations: seq<real> := [10.0, 20.0, 40.0, 10.0]

  /** The sums of the samples' prefixes. */
  lemma {:induction false} SamplePrefixSums()
    ensures Sum(SampleDurations[..0]) == 0.0 && Sum(SampleDurations[..1]) == 10.0
    ensures Sum(SampleDurations[..2]) == 30.0 && Sum(SampleDurations[..3]) == 70.0
    ensures Sum(SampleDurations[..4]) == 80.0 && Sum(SampleDurations) == 80.0
  {
    var d := SampleDurations;
    assert d[..0] == [];
    SumPrefixStep(d, 0);
    SumPrefixStep(d, 1);
    SumPrefixStep(d, 2);
    SumPrefixStep(d, 3);
    assert d[..4] == d;
  }

  /** A quotient known by its product. */
  lemma {:induction false} Quotient(a: real, b: real, q: real)
    requires b != 0.0 && q * b == a
    ensures a / b == q
  {
  }

  /**
   * The samples of the source's tests: the ratio for a 100-wide frame with gaps of 0.1, the five
   * points `compute_starting_points_of_efforts` yields at that ratio, and the four boxes.
   */
  lemma {:induction false} XSamples()
    ensures Sum(SampleDurations) != 0.0 && Ratio(100.0, 0.1, SampleDurations) == 1.245
    ensures StartingPoint(0.1, 1.245, SampleDurations, 0) == 0.1
    ensures StartingPoint(0.1, 1.245, SampleDurations, 1) == 12.65
    ensures StartingPoint(0.1, 1.245, SampleDurations, 2) == 37.65
    ensures StartingPoint(0.1, 1.245, SampleDurations, 3) == 87.55
    ensures StartingPoint(0.1, 1.245, SampleDurations, 4) == 100.1
    ensures StartingDimensionsX(100.0, SampleDurations, 0.1)
      == [XDimensions(0.1, 12.45), XDimensions(12.65, 24.9), XDimensions(37.65, 49.8), XDimensions(87.55, 12.45)]
  {
    SamplePrefixSums();
    Quotient(100.0 - Gaps(0.1, 4), 80.0, 1.245);
    var r := StartingDimensionsX(100.0, SampleDurations, 0.1);
    assert r[0] == XDimensions(0.1, 12.45);
    assert r[1] == XDimensions(12.65, 24.9);
    assert r[2] == XDimensions(37.65, 49.8);
    assert r[3] == XDimensions(87.55, 12.45);
  }

  /**
   * The sample of the source's test for `compute_starting_dimensions_y`: a frame 278.8889 high,
   * gaps of 1 and the largest value 250 give bars within 0.0001 of the values themselves.
   */
  lemma {:induction false} YSamples()
    ensures var r := StartingDimensionsY(278.8889, [100.0, 200.0, 250.0, 100.0], 1.0, 250.0);
      |r| == 4
      && (forall k :: 0 <= k < 4 ==> r[k].startingPoint == 1.0)
      && -0.0001 < r[0].height - 100.0 < 0.0001 && -0.0001 < r[1].height - 200.0 < 0.0001
      && -0.0001 < r[2].height - 250.0 < 0.0001 && -0.0001 < r[3].height - 100.0 < 0.0001
  {
    Quotient(278.8889 * 0.90 - 1.0, 250.0, 1.00000004);
  }
}
