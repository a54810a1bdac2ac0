/**
 * Reading a course file back: `extract_description`, `extract_efforts` and their helpers of
 * src/workout_data/from_mrc.rs. Each regular expression becomes a function that says what it
 * matches when started at one position, and `Text.FirstMatch` supplies the leftmost start, as
 * `Regex::captures` does.
 */
module FromMrc {
  import opened Wrappers
  import opened Text
  import opened Decimal
  import opened Efforts

  datatype ExtractDescriptionError = NoDescription

  datatype EffortUnvalidError =
    | SyntaxDoesNotMatch(text: string)
    | NumberMissing(index: nat, text: string)
    | NumberInvalid(index: nat, message: string, text: string)

  datatype ExtractEffortError = NoEffortsGiven | EffortNotValid(cause: EffortUnvalidError)

  const DescriptionKey: string := "DESCRIPTION = "

  /** The description a course file states when it has none. */
  const NoDescriptionText: string := "no description"

  const CourseDataOpen: string := "[COURSE DATA]\n"
  const CourseDataClose: string := "[END COURSE DATA]"

  /** What `Display for ParseFloatError` prints for a text that is not a float literal. */
  const InvalidFloatLiteral: string := "invalid float literal"

  /**
   * `DESCRIPTION = (.+)\n` started at `p`: the key, then the capture up to the first newline
   * after it, which must exist and leave the capture non-empty.
   */
  function DescriptionAt(mrc: string, p: nat): (r: Option<string>)
    ensures r.Some? ==> OccursAt(mrc, DescriptionKey + r.value + "\n", p)
    ensures r.Some? ==> |r.value| > 0 && '\n' !in r.value
  {
    if !OccursAt(mrc, DescriptionKey, p) then None
    else
      var endOfLine := IndexOf(mrc, '\n', p + 14);
      if endOfLine == p + 14 || endOfLine == |mrc| then None
      else
        var capture := mrc[p + 14..endOfLine];
        assert mrc[p..endOfLine + 1] == DescriptionKey + capture + "\n" by {
          assert mrc[p..p + 14] == DescriptionKey;
          assert mrc[p..endOfLine + 1] == mrc[p..p + 14] + capture + [mrc[endOfLine]];
        }
        Some(capture)
  }

  /** Every text the regular expression would capture at `p` is the one `DescriptionAt` reports. */
  lemma {:induction false} DescriptionAtComplete(mrc: string, p: nat, capture: string)
    requires |capture| > 0 && '\n' !in capture
    requires OccursAt(mrc, DescriptionKey + capture + "\n", p)
    ensures DescriptionAt(mrc, p) == Some(capture)
  {
    var line := DescriptionKey + capture + "\n";
    assert mrc[p..p + 14] == line[..14];
    assert OccursAt(mrc, DescriptionKey, p);
    var endOfLine := p + 14 + |capture|;
    forall k | p + 14 <= k < endOfLine
      ensures mrc[k] != '\n'
    {
      assert mrc[k] == line[k - p] == capture[k - p - 14];
    }
    assert mrc[endOfLine] == line[|line| - 1] == '\n';
    assert IndexOf(mrc, '\n', p + 14) == endOfLine;
    assert line[14..14 + |capture|] == capture;
    SliceOfSlice(mrc, p, p + |line|, 14, 14 + |capture|);
  }

  /**
   * `extract_description`: the capture of the leftmost `DESCRIPTION = ` line, with the
   * placeholder `no description` read as the empty description.
   */
  function ExtractDescription(mrc: string): (r: Result<string, ExtractDescriptionError>)
    ensures r.Err? <==> forall p :: 0 <= p <= |mrc| ==> DescriptionAt(mrc, p).None?
    ensures r.Ok? ==> '\n' !in r.value && r.value != NoDescriptionText
    ensures forall p :: 0 <= p <= |mrc| && DescriptionAt(mrc, p).Some? && NoDescriptionBefore(mrc, p) ==>
      r == Ok(if DescriptionAt(mrc, p).value == NoDescriptionText then "" else DescriptionAt(mrc, p).value)
  {
    var matchAt := (p: nat) => DescriptionAt(mrc, p);
    assert forall p: nat :: matchAt(p) == DescriptionAt(mrc, p);
    match FirstMatch(matchAt, 0, |mrc|)
    case None => Err(NoDescription)
    case Some(p) =>
      var capture := DescriptionAt(mrc, p).value;
      assert forall p' :: 0 <= p' <= |mrc| && DescriptionAt(mrc, p').Some? && NoDescriptionBefore(mrc, p') ==> p' == p;
      Ok(if capture == NoDescriptionText then "" else capture)
  }

  /** No `DESCRIPTION = ` line matches before `p`: a match at `p` is the leftmost one. */
  predicate NoDescriptionBefore(mrc: string, p: nat) {
    forall q :: 0 <= q < p ==> DescriptionAt(mrc, q).None?
  }

  /**
   * `\[COURSE DATA\]\n((.|\n)+?)\[END COURSE DATA\]` started at `p`: the opening line, then the
   * shortest non-empty text up to a closing marker.
   */
  function CourseDataAt(mrc: string, p: nat): (r: Option<string>)
    ensures r.Some? ==> |r.value| > 0 && OccursAt(mrc, CourseDataOpen + r.value + CourseDataClose, p)
    ensures r.Some? ==> forall k :: p + 15 <= k < p + 14 + |r.value| ==> !OccursAt(mrc, CourseDataClose, k)
  {
    if !OccursAt(mrc, CourseDataOpen, p) then None
    else
      match FindFrom(mrc, CourseDataClose, p + 15)
      case None => None
      case Some(q) =>
        var group := mrc[p + 14..q];
        assert mrc[p..q + 17] == CourseDataOpen + group + CourseDataClose by {
          assert mrc[p..p + 14] == CourseDataOpen;
          assert mrc[q..q + 17] == CourseDataClose;
          assert mrc[p..q + 17] == mrc[p..p + 14] + group + mrc[q..q + 17];
        }
        Some(group)
  }

  /** `extract_efforts_string`: the capture of the leftmost course data block. */
  function ExtractEffortsString(mrc: string): (r: Result<string, ExtractEffortError>)
    ensures r.Err? ==> r.error == NoEffortsGiven
    ensures r.Err? <==> forall p :: 0 <= p <= |mrc| ==> CourseDataAt(mrc, p).None?
    ensures r.Ok? ==> |r.value| > 0
    ensures forall p :: 0 <= p <= |mrc| && CourseDataAt(mrc, p).Some? && NoCourseDataBefore(mrc, p) ==>
      r == Ok(CourseDataAt(mrc, p).value)
  {
    var matchAt := (p: nat) => CourseDataAt(mrc, p);
    assert forall p: nat :: matchAt(p) == CourseDataAt(mrc, p);
    match FirstMatch(matchAt, 0, |mrc|)
    case None => Err(NoEffortsGiven)
    case Some(p) =>
      assert forall p' :: 0 <= p' <= |mrc| && CourseDataAt(mrc, p').Some? && NoCourseDataBefore(mrc, p') ==> p' == p;
      Ok(CourseDataAt(mrc, p).value)
  }

  /** No course data block matches before `p`: a match at `p` is the leftmost one. */
  predicate NoCourseDataBefore(mrc: string, p: nat) {
    forall q :: 0 <= q < p ==> CourseDataAt(mrc, q).None?
  }

  /** The end of the run of digits starting at `from`. */
  function DigitRunEnd(s: string, from: nat): (r: nat)
    requires from <= |s|
    ensures from <= r <= |s|
    ensures r == |s| || !IsDigit(s[r])
    decreases |s| - from
  {
    if from == |s| || !IsDigit(s[from]) then from else DigitRunEnd(s, from + 1)
  }

  /** The run is made of digits. */
  lemma {:induction false} DigitRunDigits(s: string, from: nat)
    requires from <= |s|
    ensures forall i :: from <= i < DigitRunEnd(s, from) ==> IsDigit(s[i])
    decreases |s| - from
  {
    if from < |s| && IsDigit(s[from]) {
      DigitRunDigits(s, from + 1);
    }
  }

  /**
   * `\d*\.\d*` started at `from`: as many digits as there are, a point, and again as many digits
   * as there are. The end of the match, when the point is there.
   */
  function PointNumberEnd(s: string, from: nat): (r: Option<nat>)
    requires from <= |s|
    ensures r.Some? ==> from < r.value <= |s|
    ensures r.Some? ==> r.value == |s| || !IsDigit(s[r.value])
  {
    var point := DigitRunEnd(s, from);
    if point == |s| || s[point] != '.' then None else Some(DigitRunEnd(s, point + 1))
  }

  /** `\d*\.\d*` matches the whole of `s`: digits, one point, digits. */
  predicate IsPointNumber(s: string) {
    PointNumberEnd(s, 0) == Some(|s|)
  }

  /** A point number is digits around exactly one point. */
  lemma {:induction false} PointNumberChars(s: string)
    requires IsPointNumber(s)
    ensures var point := IndexOf(s, '.', 0);
      point < |s| && AllDigits(s[..point]) && AllDigits(s[point + 1..])
    ensures forall i :: 0 <= i < |s| ==> IsDigit(s[i]) || s[i] == '.'
    ensures |s| > 0 && '\t' !in s && '\n' !in s
  {
    var point := DigitRunEnd(s, 0);
    assert DigitRunEnd(s, point + 1) == |s|;
    DigitRunDigits(s, 0);
    DigitRunDigits(s, point + 1);
    IndexOfPiece(s, '.', 0, s[..point]);
    var fraction := s[point + 1..];
    forall i | 0 <= i < |fraction|
      ensures IsDigit(fraction[i])
    {
      assert fraction[i] == s[point + 1 + i];
    }
  }

  /** A run of digits that stops at `to` ends at `to`. */
  lemma {:induction false} DigitRunTo(s: string, from: nat, to: nat)
    requires from <= to <= |s|
    requires forall i :: from <= i < to ==> IsDigit(s[i])
    requires to == |s| || !IsDigit(s[to])
    ensures DigitRunEnd(s, from) == to
    decreases |s| - from
  {
    if from < to {
      DigitRunTo(s, from + 1, to);
    }
  }

  /** Digits, a point and digits: `\d*\.\d*` matches all of it. */
  lemma {:induction false} PointedIsPointNumber(whole: string, fraction: string)
    requires AllDigits(whole) && AllDigits(fraction)
    ensures IsPointNumber(whole + "." + fraction)
  {
    var s := whole + "." + fraction;
    forall i | 0 <= i < |whole|
      ensures IsDigit(s[i])
    {
      assert s[i] == whole[i];
    }
    DigitRunTo(s, 0, |whole|);
    forall i | |whole| + 1 <= i < |s|
      ensures IsDigit(s[i])
    {
      assert s[i] == fraction[i - |whole| - 1];
    }
    DigitRunTo(s, |whole| + 1, |s|);
  }

  /** `str::parse::<f64>` fails on a point number exactly when it is a lone point. */
  lemma {:induction false} PointNumberParse(s: string)
    requires IsPointNumber(s)
    ensures ParseFloat(s).None? <==> s == "."
  {
    PointNumberChars(s);
    UnsignedWithoutExponent(s);
    assert s[0] != '+' && s[0] != '-';
  }

  /** The four captures of the effort pattern. */
  datatype EffortGroups = EffortGroups(startTime: string, startValue: string, endTime: string, endValue: string)

  /** The text the effort pattern matches when it captures `g`. */
  function GroupsText(g: EffortGroups): string {
    g.startTime + ("\t" + (g.startValue + ("\n" + (g.endTime + ("\t" + g.endValue)))))
  }

  predicate AllPointNumbers(g: EffortGroups) {
    IsPointNumber(g.startTime) && IsPointNumber(g.startValue)
    && IsPointNumber(g.endTime) && IsPointNumber(g.endValue)
  }

  /** Where the separators of an effort match started at `p` lie, and where its last capture ends. */
  datatype EffortCuts = EffortCuts(tab1: nat, newline: nat, tab2: nat, end: nat)

  /**
   * The tab, newline and tab of the effort pattern started at `p`. A point number holds no tab
   * or newline, so each of the first three captures ends at the first such separator after it.
   */
  function SeparatorsAt(s: string, p: nat): (r: Option<(nat, nat, nat)>)
    requires p <= |s|
    ensures r.Some? ==> p <= r.value.0 < r.value.1 < r.value.2 < |s|
    ensures r.Some? ==> s[r.value.0] == '\t' && s[r.value.1] == '\n' && s[r.value.2] == '\t'
  {
    var tab1 := IndexOf(s, '\t', p);
    if tab1 == |s| then None
    else
      var newline := IndexOf(s, '\n', tab1 + 1);
      if newline == |s| then None
      else
        var tab2 := IndexOf(s, '\t', newline + 1);
        if tab2 == |s| then None else Some((tab1, newline, tab2))
  }

  /**
   * The cuts of `(\d*\.\d*)\t(\d*\.\d*)\n(\d*\.\d*)\t(\d*\.\d*)` started at `p`: the three
   * separators, then the end of the last capture, which takes as many digits as it can.
   */
  function EffortCutsAt(s: string, p: nat): (r: Option<EffortCuts>)
    ensures r.Some? ==> p <= r.value.tab1 < r.value.newline < r.value.tab2 < r.value.end <= |s|
    ensures r.Some? ==> s[r.value.tab1] == '\t' && s[r.value.newline] == '\n' && s[r.value.tab2] == '\t'
    ensures r.Some? ==> r.value.end == |s| || !IsDigit(s[r.value.end])
  {
    if p > |s| then None
    else
      match SeparatorsAt(s, p)
      case None => None
      case Some((tab1, newline, tab2)) =>
        match PointNumberEnd(s, tab2 + 1)
        case None => None
        case Some(end) => Some(EffortCuts(tab1, newline, tab2, end))
  }

  /** The effort pattern started at `p`: the four captures, each a point number. */
  function EffortAt(s: string, p: nat): (r: Option<EffortGroups>)
    ensures r.Some? ==> AllPointNumbers(r.value)
  {
    match EffortCutsAt(s, p)
    case None => None
    case Some(c) =>
      var g := GroupsAt(s, p, c);
      if AllPointNumbers(g) then Some(g) else None
  }

  /** The captures between the cuts of a match started at `p`. */
  function GroupsAt(s: string, p: nat, c: EffortCuts): EffortGroups
    requires p <= c.tab1 < c.newline < c.tab2 < c.end <= |s|
  {
    EffortGroups(s[p..c.tab1], s[c.tab1 + 1..c.newline], s[c.newline + 1..c.tab2], s[c.tab2 + 1..c.end])
  }

  /** A match is the text of its captures, found at `p`, and no digit follows it. */
  lemma {:induction false} EffortAtText(s: string, p: nat, g: EffortGroups)
    requires EffortAt(s, p) == Some(g)
    ensures OccursAt(s, GroupsText(g), p)
    ensures p + |GroupsText(g)| == |s| || !IsDigit(s[p + |GroupsText(g)|])
  {
    var c := EffortCutsAt(s, p).value;
    CutsMatchText(s, p, c, g);
  }

  /** The captures read between cuts are the text from `p` to the last cut, which no digit follows. */
  lemma {:induction false} CutsMatchText(s: string, p: nat, c: EffortCuts, g: EffortGroups)
    requires p <= c.tab1 < c.newline < c.tab2 < c.end <= |s|
    requires s[c.tab1] == '\t' && s[c.newline] == '\n' && s[c.tab2] == '\t'
    requires c.end == |s| || !IsDigit(s[c.end])
    requires g == GroupsAt(s, p, c)
    ensures OccursAt(s, GroupsText(g), p)
    ensures p + |GroupsText(g)| == |s| || !IsDigit(s[p + |GroupsText(g)|])
  {
    CutsText(s, p, c);
    TextEndingAt(s, p, c.end, GroupsText(g));
  }

  /** The slice from `p` to `end` occurs at `p`; where no digit follows `end`, none follows the occurrence. */
  lemma {:induction false} TextEndingAt(s: string, p: nat, end: nat, text: string)
    requires p <= end <= |s| && s[p..end] == text && (end == |s| || !IsDigit(s[end]))
    ensures OccursAt(s, text, p) && (p + |text| == |s| || !IsDigit(s[p + |text|]))
  {
  }

  /** The text between `p` and the end of a match is the captures with their separators. */
  lemma {:induction false} CutsText(s: string, p: nat, c: EffortCuts)
    requires p <= c.tab1 < c.newline < c.tab2 < c.end <= |s|
    requires s[c.tab1] == '\t' && s[c.newline] == '\n' && s[c.tab2] == '\t'
    ensures s[p..c.end] == GroupsText(GroupsAt(s, p, c))
  {
    var g := GroupsAt(s, p, c);
    SliceAround(s, c.newline + 1, c.tab2, c.end);
    var fromEndTime := s[c.newline + 1..c.end];
    assert fromEndTime == g.endTime + ("\t" + g.endValue);
    SliceAround(s, c.tab1 + 1, c.newline, c.end);
    var fromStartValue := s[c.tab1 + 1..c.end];
    assert fromStartValue == g.startValue + ("\n" + fromEndTime);
    SliceAround(s, p, c.tab1, c.end);
    assert s[p..c.end] == g.startTime + ("\t" + fromStartValue);
  }

  /** A text that is exactly one match of the effort pattern is matched at its start. */
  lemma {:induction false} EffortAtWhole(g: EffortGroups)
    requires AllPointNumbers(g)
    ensures EffortAt(GroupsText(g), 0) == Some(g)
  {
    GroupsTextSlices(g);
    PointNumberChars(g.startTime);
    PointNumberChars(g.startValue);
    PointNumberChars(g.endTime);
    LayoutMatch(GroupsText(g), g, WholeCuts(g));
  }

  /** The cuts of the text of `g`: after each capture, and the end of the text. */
  function WholeCuts(g: EffortGroups): EffortCuts {
    var tab1 := |g.startTime|;
    var newline := tab1 + 1 + |g.startValue|;
    var tab2 := newline + 1 + |g.endTime|;
    EffortCuts(tab1, newline, tab2, tab2 + 1 + |g.endValue|)
  }

  /** Where the captures and separators of the text of `g` lie. */
  lemma {:induction false} GroupsTextSlices(g: EffortGroups)
    ensures var s, c := GroupsText(g), WholeCuts(g);
      c.tab1 < c.newline < c.tab2 < c.end == |s|
      && s[c.tab1] == '\t' && s[c.newline] == '\n' && s[c.tab2] == '\t' && GroupsAt(s, 0, c) == g
  {
    var s, c := GroupsText(g), WholeCuts(g);
    LayoutSlices(s, g.startTime, g.startValue, g.endTime, g.endValue, c.tab1, c.newline, c.tab2);
    CapturesBetweenCuts(s, g, c);
  }

  /** Where the four pieces and the three separators of a course line pair lie. */
  lemma {:induction false} LayoutSlices(s: string, a: string, b: string, d: string, e: string,
                                        tab1: nat, newline: nat, tab2: nat)
    requires s == a + ("\t" + (b + ("\n" + (d + ("\t" + e)))))
    requires tab1 == |a| && newline == tab1 + 1 + |b| && tab2 == newline + 1 + |d|
    ensures tab2 < |s| && s[tab1] == '\t' && s[newline] == '\n' && s[tab2] == '\t'
    ensures s[0..tab1] == a && s[tab1 + 1..newline] == b && s[newline + 1..tab2] == d && s[tab2 + 1..|s|] == e
  {
    assert s[0..] == s;
    PieceThenSeparator(s, 0, tab1, a, '\t', b + ("\n" + (d + ("\t" + e))));
    PieceThenSeparator(s, tab1 + 1, newline, b, '\n', d + ("\t" + e));
    PieceThenSeparator(s, newline + 1, tab2, d, '\t', e);
  }

  /** Captures that lie between the cuts are the captures read there. */
  lemma {:induction false} CapturesBetweenCuts(s: string, g: EffortGroups, c: EffortCuts)
    requires c.tab1 < c.newline < c.tab2 < c.end <= |s|
    requires s[0..c.tab1] == g.startTime && s[c.tab1 + 1..c.newline] == g.startValue
    requires s[c.newline + 1..c.tab2] == g.endTime && s[c.tab2 + 1..c.end] == g.endValue
    ensures GroupsAt(s, 0, c) == g
  {
  }

  /** A piece, a separator and the rest starting at `off`: where each of them lies. */
  lemma {:induction false} PieceThenSeparator(s: string, off: nat, end: nat, piece: string, sep: char, rest: string)
    requires off <= |s| && end == off + |piece| && s[off..] == piece + ([sep] + rest)
    ensures end < |s| && s[off..end] == piece && s[end] == sep
    ensures s[end + 1..] == rest && s[end + 1..|s|] == rest
  {
    var t := s[off..];
    assert s[off..end] == t[..|piece|];
    assert t[..|piece|] == piece;
    assert s[end] == t[|piece|];
    assert s[end + 1..] == t[|piece| + 1..];
    assert t[|piece| + 1..] == rest;
  }

  /** A text laid out as the captures `g` at the cuts `c` is matched at its start, with those captures. */
  lemma {:induction false} LayoutMatch(s: string, g: EffortGroups, c: EffortCuts)
    requires '\t' !in g.startTime && '\n' !in g.startValue && '\t' !in g.endTime && AllPointNumbers(g)
    requires c.tab1 < c.newline < c.tab2 < c.end == |s|
    requires s[c.tab1] == '\t' && s[c.newline] == '\n' && s[c.tab2] == '\t' && GroupsAt(s, 0, c) == g
    ensures EffortAt(s, 0) == Some(g)
  {
    SeparatorsFound(s, g, c);
    assert g.endValue == s[c.tab2 + 1..|s|];
    PointNumberIn(s, c.tab2 + 1, g.endValue);
    assert EffortCutsAt(s, 0) == Some(c);
  }

  /** In a text laid out as the captures of `g` at the cuts `c`, the separator searches stop at `c`. */
  lemma {:induction false} SeparatorsFound(s: string, g: EffortGroups, c: EffortCuts)
    requires '\t' !in g.startTime && '\n' !in g.startValue && '\t' !in g.endTime
    requires c.tab1 < c.newline < c.tab2 < c.end <= |s|
    requires s[c.tab1] == '\t' && s[c.newline] == '\n' && s[c.tab2] == '\t' && GroupsAt(s, 0, c) == g
    ensures SeparatorsAt(s, 0) == Some((c.tab1, c.newline, c.tab2))
  {
    IndexOfPiece(s, '\t', 0, g.startTime);
    IndexOfPiece(s, '\n', c.tab1 + 1, g.startValue);
    IndexOfPiece(s, '\t', c.newline + 1, g.endTime);
  }

  /** A point number that ends the text is matched to the end. */
  lemma {:induction false} PointNumberIn(s: string, from: nat, number: string)
    requires IsPointNumber(number) && from + |number| == |s| && s[from..|s|] == number
    ensures PointNumberEnd(s, from) == Some(|s|)
  {
    var point := DigitRunEnd(number, 0);
    assert DigitRunEnd(number, point + 1) == |number|;
    DigitRunShift(s, from, number, 0);
    DigitRunShift(s, from, number, point + 1);
  }

  /** Where `s` continues as `number` from `from` to its end, the digit runs of both agree. */
  lemma {:induction false} DigitRunShift(s: string, from: nat, number: string, k: nat)
    requires from + |number| == |s| && s[from..|s|] == number && k <= |number|
    ensures DigitRunEnd(s, from + k) == from + DigitRunEnd(number, k)
    decreases |number| - k
  {
    if k < |number| {
      assert s[from + k] == number[k];
      if IsDigit(number[k]) {
        DigitRunShift(s, from, number, k + 1);
      }
    }
  }

  /** The leftmost match of the effort pattern. */
  function FirstEffort(text: string): Option<EffortGroups> {
    match FirstMatch((p: nat) => EffortAt(text, p), 0, |text|)
    case None => None
    case Some(p) => EffortAt(text, p)
  }

  /** One capture read as a float, with the error `extract_effort_from_string` reports for it. */
  function ParseGroup(group: string, index: nat, text: string): (r: Result<real, EffortUnvalidError>)
    ensures r.Ok? <==> ParseFloat(group).Some?
    ensures r.Ok? ==> Some(r.value) == ParseFloat(group)
    ensures r.Err? ==> r.error == NumberInvalid(index, InvalidFloatLiteral, text)
  {
    match ParseFloat(group)
    case None => Err(NumberInvalid(index, InvalidFloatLiteral, text))
    case Some(v) => Ok(v)
  }

  /**
   * `extract_effort_from_string`: the four numbers of the leftmost match; the duration is the end
   * minute less the start minute. The first capture that is not a float names the error.
   */
  function ExtractEffortFromString(text: string): (r: Result<Effort, EffortUnvalidError>)
    ensures r.Ok? ==> r.value.guiState == Idle
    ensures r == Err(SyntaxDoesNotMatch(text)) <==> FirstEffort(text).None?
    ensures r.Err? ==> r.error.SyntaxDoesNotMatch? || r.error.NumberInvalid?
    ensures r.Err? ==> r.error.text == text
  {
    match FirstEffort(text)
    case None => Err(SyntaxDoesNotMatch(text))
    case Some(g) =>
      match ParseGroup(g.startTime, 0, text)
      case Err(e) => Err(e)
      case Ok(startTime) =>
        match ParseGroup(g.startValue, 1, text)
        case Err(e) => Err(e)
        case Ok(startValue) =>
          match ParseGroup(g.endTime, 2, text)
          case Err(e) => Err(e)
          case Ok(endTime) =>
            match ParseGroup(g.endValue, 3, text)
            case Err(e) => Err(e)
            case Ok(endValue) => Ok(Effort(endTime - startTime, startValue, endValue, Idle))
  }

  /** The four numbers of the leftmost match make the effort; only a lone point fails to parse. */
  lemma {:induction false} ExtractEffortMeaning(text: string)
    requires FirstEffort(text).Some?
    ensures var g := FirstEffort(text).value;
      ExtractEffortFromString(text).Ok? <==>
        g.startTime != "." && g.startValue != "." && g.endTime != "." && g.endValue != "."
    ensures var g := FirstEffort(text).value;
      ExtractEffortFromString(text).Ok? ==>
        ParseFloat(g.startValue) == Some(ExtractEffortFromString(text).value.startingValue)
        && ParseFloat(g.endValue) == Some(ExtractEffortFromString(text).value.endingValue)
        && ParseFloat(g.endTime).value - ParseFloat(g.startTime).value
           == ExtractEffortFromString(text).value.durationInMinutes
  {
    var p := FirstMatch((p: nat) => EffortAt(text, p), 0, |text|).value;
    var g := FirstEffort(text).value;
    assert AllPointNumbers(g);
    PointNumberParse(g.startTime);
    PointNumberParse(g.startValue);
    PointNumberParse(g.endTime);
    PointNumberParse(g.endValue);
  }

  /** When the leftmost match's four captures read as numbers, those numbers make the effort. */
  lemma {:induction false} ExtractEffortOfCaptures(text: string, g: EffortGroups, t0: real, v0: real, t1: real, v1: real)
    requires FirstEffort(text) == Some(g)
    requires ParseFloat(g.startTime) == Some(t0) && ParseFloat(g.startValue) == Some(v0)
    requires ParseFloat(g.endTime) == Some(t1) && ParseFloat(g.endValue) == Some(v1)
    ensures ExtractEffortFromString(text) == Ok(Effort(t1 - t0, v0, v1, Idle))
  {
    ExtractEffortMeaning(text);
    var p := FirstMatch((p: nat) => EffortAt(text, p), 0, |text|).value;
    assert AllPointNumbers(g);
    PointNumberParse(g.startTime);
    PointNumberParse(g.startValue);
    PointNumberParse(g.endTime);
    PointNumberParse(g.endValue);
    var r := ExtractEffortFromString(text);
    assert r.Ok?;
    assert r.value == Effort(t1 - t0, v0, v1, Idle);
  }

  /**
   * The pieces `split_by_every_other_newline` makes of `lines`: each two lines joined by a newline;
   * a last line without a partner is dropped.
   */
  function PairLines(lines: seq<string>): (r: seq<string>)
    ensures |r| == |lines| / 2
    ensures forall k :: 0 <= k < |r| ==> r[k] == lines[2 * k] + "\n" + lines[2 * k + 1]
    decreases |lines|
  {
    if |lines| < 2 then []
    else
      var rest := PairLines(lines[2..]);
      var r := [lines[0] + "\n" + lines[1]] + rest;
      assert forall k :: 1 <= k < |r| ==> r[k] == rest[k - 1] == lines[2..][2 * k - 2] + "\n" + lines[2..][2 * k - 1];
      r
  }

  /**
   * `split_by_every_other_newline`: trims the text, splits it into lines and buffers them, emitting
   * the buffer joined by a newline after every second line.
   */
  method SplitByEveryOtherNewline(input: string) returns (splitStrings: seq<string>)
    ensures splitStrings == PairLines(Lines(Trim(input)))
  {
    var lines := Lines(Trim(input));
    splitStrings := [];
    var lineBuffer: seq<string> := [];
    for index := 0 to |lines|
      invariant |splitStrings| == index / 2
      invariant forall k :: 0 <= k < index / 2 ==> splitStrings[k] == lines[2 * k] + "\n" + lines[2 * k + 1]
      invariant lineBuffer == if index % 2 == 1 then [lines[index - 1]] else []
    {
      lineBuffer := lineBuffer + [lines[index]];
      if index % 2 == 1 {
        assert (index + 1) / 2 == index / 2 + 1 && 2 * (index / 2) == index - 1;
        assert Join(lineBuffer, "\n") == lines[index - 1] + "\n" + lines[index] by {
          assert lineBuffer[1..] == [lines[index]];
        }
        splitStrings := splitStrings + [Join(lineBuffer, "\n")];
        lineBuffer := [];
      } else {
        assert (index + 1) / 2 == index / 2;
      }
    }
    assert |splitStrings| == |PairLines(lines)|;
  }

  /**
   * `extract_efforts`: the course data block, split into pairs of lines, each read as one
   * effort; a missing block and an unreadable effort are the two errors.
   */
  function ExtractEfforts(mrc: string): (r: Result<seq<Effort>, ExtractEffortError>)
    ensures r == Err(NoEffortsGiven) <==> ExtractEffortsString(mrc).Err?
    ensures r.Ok? ==> forall k :: 0 <= k < |r.value| ==> r.value[k].guiState == Idle
  {
    match ExtractEffortsString(mrc)
    case Err(e) => Err(e)
    case Ok(block) =>
      var pieces := EffortTexts(block);
      match CollectMap(ExtractEffortFromString, pieces)
      case Err(e) => Err(EffortNotValid(e))
      case Ok(efforts) =>
        CollectMapOk(ExtractEffortFromString, pieces);
        Ok(efforts)
  }

  /** The texts of the efforts in a course data block: its trimmed lines, paired. */
  function EffortTexts(block: string): seq<string> {
    PairLines(Lines(Trim(block)))
  }

  /** Every effort text before `k` reads as an effort. */
  predicate ReadBefore(pieces: seq<string>, k: nat) {
    forall j :: 0 <= j < k && j < |pieces| ==> ExtractEffortFromString(pieces[j]).Ok?
  }

  /**
   * The efforts read from the course data block found in `mrc`: effort k is the effort read from
   * the k-th pair of lines, in block order; when a pair does not read, the first such pair's
   * error is returned as `EffortNotValid`.
   */
  lemma {:induction false} ExtractEffortsOfBlock(mrc: string, block: string)
    requires ExtractEffortsString(mrc) == Ok(block)
    ensures var pieces := EffortTexts(block);
      ExtractEfforts(mrc).Ok? <==> forall k :: 0 <= k < |pieces| ==> ExtractEffortFromString(pieces[k]).Ok?
    ensures var pieces := EffortTexts(block);
      ExtractEfforts(mrc).Ok? ==>
        |ExtractEfforts(mrc).value| == |pieces| &&
        forall k :: 0 <= k < |pieces| ==> ExtractEfforts(mrc).value[k] == ExtractEffortFromString(pieces[k]).value
    ensures var pieces := EffortTexts(block);
      forall k :: 0 <= k < |pieces| && ExtractEffortFromString(pieces[k]).Err? && ReadBefore(pieces, k) ==>
        ExtractEfforts(mrc) == Err(EffortNotValid(ExtractEffortFromString(pieces[k]).error))
  {
    var pieces := EffortTexts(block);
    CollectMapOk(ExtractEffortFromString, pieces);
    forall k | 0 <= k < |pieces| && ExtractEffortFromString(pieces[k]).Err? && ReadBefore(pieces, k)
      ensures ExtractEfforts(mrc) == Err(EffortNotValid(ExtractEffortFromString(pieces[k]).error))
    {
      CollectMapFirstError(ExtractEffortFromString, pieces, k);
    }
  }
}
