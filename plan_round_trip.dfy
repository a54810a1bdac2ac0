/**
 * A writer of the plan format in the layout the decoder of
 * src/workout_data/from_plan_format.rs reads, and the proof that reading a written plan gives
 * back its name and one effort per interval.
 */
module PlanRoundTrip {
  import opened Wrappers
  import opened Text
  import opened Decimal
  import opened Efforts
  import opened FromPlanFormat
  import FromMrc

  /** One interval of a plan: a low and a high power and a duration in seconds, all whole numbers. */
  datatype Interval = Interval(low: nat, high: nat, seconds: nat)

  /** The three lines of an interval with the captures `g` in place. */
  function CapturesText(g: IntervalGroups): string {
    LowKey + (g.low + ("\n" + (HighKey + (g.high + ("\n" + (DurationKey + (g.seconds + ExitKey)))))))
  }

  /** The numbers of an interval written in decimal. */
  function WrittenGroups(iv: Interval): (g: IntervalGroups)
    ensures DigitGroups(g)
  {
    IntervalGroups(NatToDigits(iv.low), NatToDigits(iv.high), NatToDigits(iv.seconds))
  }

  /** The lines of an interval, its numbers written in decimal. */
  function IntervalText(iv: Interval): string {
    CapturesText(WrittenGroups(iv))
  }

  /** The effort an interval stands for: its seconds in minutes, at the mean of its powers throughout. */
  function IntervalEffort(iv: Interval): Effort {
    var power := MeanPower(iv.low as real, iv.high as real);
    Effort(iv.seconds as real / 60.0, power, power, Idle)
  }

  /** A run of digits at `from` that ends before a character that is not a digit is matched whole. */
  lemma {:induction false} DigitsAt(s: string, from: nat, digits: string)
    requires |digits| > 0 && AllDigits(digits)
    requires from + |digits| < |s| && s[from..from + |digits|] == digits && !IsDigit(s[from + |digits|])
    ensures DigitsEnd(s, from) == Some(from + |digits|)
  {
    forall i | from <= i < from + |digits|
      ensures IsDigit(s[i])
    {
      assert s[i] == digits[i - from];
    }
    FromMrc.DigitRunTo(s, from, from + |digits|);
  }

  /**
   * Where the text from `from` on is a key, a run of digits, a separator and more, the key ends
   * at `start`, the digits at `end`, and the separator follows.
   */
  lemma {:induction false} KeyDigitsSlices(s: string, from: nat, key: string, digits: string, sep: string, rest: string,
                        start: nat, end: nat)
    requires from <= |s| && s[from..] == key + (digits + (sep + rest))
    requires start == from + |key| && end == start + |digits|
    ensures end + |sep| <= |s| && s[from..start] == key && s[start..end] == digits
    ensures s[end..end + |sep|] == sep && s[end + |sep|..] == rest
    ensures sep != [] ==> s[end] == sep[0]
  {
    var t := s[from..];
    assert t[..|key|] == key;
    assert s[from..start] == t[..|key|];
    assert t[|key|..|key| + |digits|] == digits;
    assert s[start..end] == t[|key|..|key| + |digits|];
    assert t[|key| + |digits|..|key| + |digits| + |sep|] == sep;
    assert s[end..end + |sep|] == t[|key| + |digits|..|key| + |digits| + |sep|];
    assert t[|key| + |digits| + |sep|..] == rest;
    if sep != [] {
      assert s[end] == s[end..end + |sep|][0];
    }
  }

  /** Where the text from `from` on is a key, a run of digits and a last part, each lies where its length says. */
  lemma {:induction false} KeyDigitsLast(s: string, from: nat, key: string, digits: string, last: string, start: nat, end: nat)
    requires from <= |s| && s[from..] == key + (digits + last)
    requires start == from + |key| && end == start + |digits|
    ensures end + |last| <= |s| && s[from..start] == key && s[start..end] == digits
    ensures s[end..end + |last|] == last
  {
    var t := s[from..];
    assert t[..|key|] == key;
    assert s[from..start] == t[..|key|];
    assert t[|key|..|key| + |digits|] == digits;
    assert s[start..end] == t[|key|..|key| + |digits|];
    assert t[|key| + |digits|..] == last;
    assert s[end..end + |last|] == t[|key| + |digits|..];
  }

  /** The positions where the parts of one interval's text end. */
  datatype IntervalCuts = IntervalCuts(lowStart: nat, lowEnd: nat, highStart: nat, highEnd: nat,
                                       secondsStart: nat, secondsEnd: nat)

  /** Where the parts of the text of `g` end. */
  function CapturesCuts(g: IntervalGroups): IntervalCuts {
    var lowEnd := |LowKey| + |g.low|;
    var highStart := lowEnd + 1 + |HighKey|;
    var highEnd := highStart + |g.high|;
    var secondsStart := highEnd + 1 + |DurationKey|;
    IntervalCuts(|LowKey|, lowEnd, highStart, highEnd, secondsStart, secondsStart + |g.seconds|)
  }

  /** A text laid out as the keys and captures of `g` at the cuts `c`. */
  predicate LaidOut(s: string, g: IntervalGroups, c: IntervalCuts) {
    c.lowStart == |LowKey| && c.highStart == c.lowEnd + 1 + |HighKey|
    && c.secondsStart == c.highEnd + 1 + |DurationKey|
    && c.lowStart <= c.lowEnd < c.highStart <= c.highEnd < c.secondsStart <= c.secondsEnd
    && c.secondsEnd + |ExitKey| <= |s|
    && s[0..c.lowStart] == LowKey && s[c.lowStart..c.lowEnd] == g.low && s[c.lowEnd] == '\n'
    && s[c.lowEnd + 1..c.highStart] == HighKey && s[c.highStart..c.highEnd] == g.high && s[c.highEnd] == '\n'
    && s[c.highEnd + 1..c.secondsStart] == DurationKey && s[c.secondsStart..c.secondsEnd] == g.seconds
    && s[c.secondsEnd..c.secondsEnd + |ExitKey|] == ExitKey
  }

  /** The first of three keyed runs: where its key and run lie, and what follows its newline. */
  lemma {:induction false} FirstKeyedRun(s: string, k1: string, d1: string, rest: string, c: IntervalCuts)
    requires s == k1 + (d1 + ("\n" + rest))
    requires c.lowStart == |k1| && c.lowEnd == c.lowStart + |d1|
    ensures c.lowEnd < |s| && s[0..c.lowStart] == k1 && s[c.lowStart..c.lowEnd] == d1 && s[c.lowEnd] == '\n'
    ensures s[c.lowEnd + 1..] == rest
  {
    assert s[0..] == s;
    KeyDigitsSlices(s, 0, k1, d1, "\n", rest, c.lowStart, c.lowEnd);
  }

  /** The text of `g` is laid out at its cuts. */
  lemma {:induction false} CapturesLaidOut(g: IntervalGroups)
    ensures LaidOut(CapturesText(g), g, CapturesCuts(g))
  {
    var s, c := CapturesText(g), CapturesCuts(g);
    var third := DurationKey + (g.seconds + ExitKey);
    FirstKeyedRun(s, LowKey, g.low, HighKey + (g.high + ("\n" + third)), c);
    KeyDigitsSlices(s, c.lowEnd + 1, HighKey, g.high, "\n", third, c.highStart, c.highEnd);
    KeyDigitsLast(s, c.highEnd + 1, DurationKey, g.seconds, ExitKey, c.secondsStart, c.secondsEnd);
  }

  /** A key, a run of digits and a whitespace character before a character that is not whitespace: where each ends. */
  lemma {:induction false} KeyDigitsLine(s: string, key: string, from: nat, digits: string, start: nat, end: nat)
    requires |digits| > 0 && AllDigits(digits)
    requires start == from + |key| && end == start + |digits| && end + 1 < |s|
    requires s[from..start] == key && s[start..end] == digits && s[end] == '\n' && !IsWhitespace(s[end + 1])
    ensures LiteralEnd(s, key, from) == Some(start) && DigitsEnd(s, start) == Some(end)
    ensures SpacesEnd(s, end) == Some(end + 1)
  {
    DigitsAt(s, start, digits);
    assert SpaceRunEnd(s, end + 1) == end + 1;
  }

  /** In a laid out text the low power key, digits and newline end at the cuts. */
  lemma {:induction false} LowStage(s: string, g: IntervalGroups, c: IntervalCuts)
    requires DigitGroups(g) && LaidOut(s, g, c)
    ensures LiteralEnd(s, LowKey, 0) == Some(c.lowStart) && DigitsEnd(s, c.lowStart) == Some(c.lowEnd)
    ensures SpacesEnd(s, c.lowEnd) == Some(c.lowEnd + 1)
  {
    assert s[c.lowEnd + 1] == s[c.lowEnd + 1..c.highStart][0] == 'P';
    KeyDigitsLine(s, LowKey, 0, g.low, c.lowStart, c.lowEnd);
  }

  /** In a laid out text the high power key, digits and newline end at the cuts. */
  lemma {:induction false} HighStage(s: string, g: IntervalGroups, c: IntervalCuts)
    requires DigitGroups(g) && LaidOut(s, g, c)
    ensures LiteralEnd(s, HighKey, c.lowEnd + 1) == Some(c.highStart)
    ensures DigitsEnd(s, c.highStart) == Some(c.highEnd)
    ensures SpacesEnd(s, c.highEnd) == Some(c.highEnd + 1)
  {
    assert s[c.highEnd + 1] == s[c.highEnd + 1..c.secondsStart][0] == 'M';
    KeyDigitsLine(s, HighKey, c.lowEnd + 1, g.high, c.highStart, c.highEnd);
  }

  /** In a laid out text the duration key and digits end at the cuts, and `?EXIT` follows. */
  lemma {:induction false} DurationStage(s: string, g: IntervalGroups, c: IntervalCuts)
    requires DigitGroups(g) && LaidOut(s, g, c)
    ensures LiteralEnd(s, DurationKey, c.highEnd + 1) == Some(c.secondsStart)
    ensures DigitsEnd(s, c.secondsStart) == Some(c.secondsEnd)
    ensures OccursAt(s, ExitKey, c.secondsEnd)
  {
    assert s[c.secondsEnd] == s[c.secondsEnd..c.secondsEnd + |ExitKey|][0] == '?';
    DigitsAt(s, c.secondsStart, g.seconds);
  }

  /** A text laid out as the captures `g` at the cuts `c` is matched at its start, with those captures. */
  lemma {:induction false} IntervalLayout(s: string, g: IntervalGroups, c: IntervalCuts)
    requires DigitGroups(g) && LaidOut(s, g, c)
    ensures IntervalAt(s, 0) == Some(g)
  {
    LowStage(s, g, c);
    HighStage(s, g, c);
    DurationStage(s, g, c);
    IntervalAtCuts(s, c);
  }

  /** Where every stage of the interval pattern ends at the cuts, the match captures the text between them. */
  lemma {:induction false} IntervalAtCuts(s: string, c: IntervalCuts)
    requires LiteralEnd(s, LowKey, 0) == Some(c.lowStart) && DigitsEnd(s, c.lowStart) == Some(c.lowEnd)
    requires SpacesEnd(s, c.lowEnd) == Some(c.lowEnd + 1)
    requires LiteralEnd(s, HighKey, c.lowEnd + 1) == Some(c.highStart) && DigitsEnd(s, c.highStart) == Some(c.highEnd)
    requires SpacesEnd(s, c.highEnd) == Some(c.highEnd + 1)
    requires LiteralEnd(s, DurationKey, c.highEnd + 1) == Some(c.secondsStart)
    requires DigitsEnd(s, c.secondsStart) == Some(c.secondsEnd) && OccursAt(s, ExitKey, c.secondsEnd)
    ensures IntervalAt(s, 0)
      == Some(IntervalGroups(s[c.lowStart..c.lowEnd], s[c.highStart..c.highEnd], s[c.secondsStart..c.secondsEnd]))
  {
  }

  /** A text that is exactly one interval is matched at its start, with its captures. */
  lemma {:induction false} IntervalAtWhole(g: IntervalGroups)
    requires DigitGroups(g)
    ensures IntervalAt(CapturesText(g), 0) == Some(g)
  {
    CapturesLaidOut(g);
    IntervalLayout(CapturesText(g), g, CapturesCuts(g));
  }

  /** A text matched at its start is read as the effort of the captures there. */
  lemma {:induction false} ExtractMatchedAtStart(text: string, g: IntervalGroups)
    requires IntervalAt(text, 0) == Some(g)
    ensures ExtractIntervalEffort(text) == EffortOfGroups(g)
  {
    FirstMatchAt((p: nat) => IntervalAt(text, p), 0, |text|, 0);
    assert FirstInterval(text) == Some(g);
  }

  /** The written numbers of an interval parse back to its effort. */
  lemma {:induction false} EffortOfWrittenGroups(iv: Interval)
    ensures EffortOfGroups(WrittenGroups(iv)) == Ok(IntervalEffort(iv))
  {
    var g := WrittenGroups(iv);
    EffortOfDigitGroups(g);
    DigitsRoundTrip(iv.low);
    DigitsRoundTrip(iv.high);
    DigitsRoundTrip(iv.seconds);
  }

  /**
   * Reading the text of an interval gives its effort: the leftmost match is the whole text, and
   * each capture parses as the number it was written from.
   */
  lemma {:induction false} IntervalRoundTrip(iv: Interval)
    ensures ExtractIntervalEffort(IntervalText(iv)) == Ok(IntervalEffort(iv))
  {
    IntervalAtWhole(WrittenGroups(iv));
    ExtractMatchedAtStart(IntervalText(iv), WrittenGroups(iv));
    EffortOfWrittenGroups(iv);
  }

  /** A run of digits holds no `V`. */
  lemma {:induction false} DigitsWithoutV(digits: string)
    requires AllDigits(digits)
    ensures 'V' !in digits
  {
    forall i | 0 <= i < |digits|
      ensures digits[i] != 'V'
    {
      assert IsDigit(digits[i]);
    }
  }

  /** The text of captures made of digits holds no `V`. */
  lemma {:induction false} CapturesWithoutV(g: IntervalGroups)
    requires DigitGroups(g)
    ensures 'V' !in CapturesText(g)
  {
    DigitsWithoutV(g.low);
    DigitsWithoutV(g.high);
    DigitsWithoutV(g.seconds);
    assert 'V' !in LowKey && 'V' !in HighKey && 'V' !in DurationKey && 'V' !in ExitKey;
  }

  /** The text of any captures starts with `P` and ends with `T`. */
  lemma {:induction false} CapturesEnds(g: IntervalGroups)
    ensures var t := CapturesText(g);
      |t| > 0 && t[0] == 'P' && t[|t| - 1] == 'T'
  {
    var t := CapturesText(g);
    assert t[0] == LowKey[0];
    assert t[|t| - 1] == ExitKey[|ExitKey| - 1];
  }

  /**
   * A text that can stand between two markers: not empty, with no whitespace at either end, and
   * without `V`, the letter at index 6 of `=INTERVAL=`, so that no marker starts inside it.
   */
  predicate Framable(t: string) {
    t != [] && !IsWhitespace(t[0]) && !IsWhitespace(t[|t| - 1]) && 'V' !in t
  }

  /** The text of an interval can stand between two markers. */
  lemma {:induction false} IntervalTextFramable(iv: Interval)
    ensures Framable(IntervalText(iv))
  {
    CapturesWithoutV(WrittenGroups(iv));
    CapturesEnds(WrittenGroups(iv));
  }

  /** `=INTERVAL=`, a newline, and the lines of one interval. */
  function Block(text: string): string {
    IntervalMarker + ("\n" + text)
  }

  /** The blocks of the interval texts joined by newlines: the text after `=STREAM=` and its newline. */
  function StreamText(texts: seq<string>): string
    decreases |texts|
  {
    if texts == [] then []
    else if |texts| == 1 then Block(texts[0])
    else Block(texts[0]) + ("\n" + StreamText(texts[1..]))
  }

  /** What follows the first marker of the stream of a non-empty list of texts. */
  function AfterMarker(texts: seq<string>): string
    requires texts != []
    decreases |texts|
  {
    if |texts| == 1 then "\n" + texts[0]
    else "\n" + texts[0] + "\n" + IntervalMarker + AfterMarker(texts[1..])
  }

  /** The pieces between the markers of the stream: each text framed by newlines, the last one only before. */
  function MarkerPieces(texts: seq<string>): seq<string>
    decreases |texts|
  {
    if texts == [] then []
    else if |texts| == 1 then ["\n" + texts[0]]
    else ["\n" + texts[0] + "\n"] + MarkerPieces(texts[1..])
  }

  /** The texts of the intervals, in order. */
  function IntervalTexts(ivs: seq<Interval>): (r: seq<string>)
    ensures |r| == |ivs| && forall k :: 0 <= k < |ivs| ==> r[k] == IntervalText(ivs[k])
  {
    seq(|ivs|, k requires 0 <= k < |ivs| => IntervalText(ivs[k]))
  }

  /** The efforts of the intervals, in order. */
  function IntervalEfforts(ivs: seq<Interval>): (r: seq<Effort>)
    ensures |r| == |ivs| && forall k :: 0 <= k < |ivs| ==> r[k] == IntervalEffort(ivs[k])
  {
    seq(|ivs|, k requires 0 <= k < |ivs| => IntervalEffort(ivs[k]))
  }

  /** Every interval text can stand between two markers. */
  lemma {:induction false} IntervalTextsFramable(ivs: seq<Interval>)
    ensures forall k :: 0 <= k < |IntervalTexts(ivs)| ==> Framable(IntervalTexts(ivs)[k])
  {
    forall k | 0 <= k < |ivs|
      ensures Framable(IntervalTexts(ivs)[k])
    {
      IntervalTextFramable(ivs[k]);
    }
  }

  /** A block, a newline and a marker-led rest, grouped as the marker and what follows it. */
  lemma {:induction false} Regroup(marker: string, text: string, after: string)
    ensures (marker + ("\n" + text)) + ("\n" + (marker + after))
      == marker + ("\n" + text + "\n" + marker + after)
  {
  }

  /** The stream of a non-empty list is a marker and what follows it. */
  lemma {:induction false} StreamStartsWithMarker(texts: seq<string>)
    requires texts != []
    ensures StreamText(texts) == IntervalMarker + AfterMarker(texts)
    decreases |texts|
  {
    if |texts| > 1 {
      StreamStartsWithMarker(texts[1..]);
      Regroup(IntervalMarker, texts[0], AfterMarker(texts[1..]));
    }
  }

  /** In a text with no `V` before a marker, that marker is the first. */
  lemma {:induction false} FirstMarkerAfter(piece: string, rest: string)
    requires 'V' !in piece
    ensures FindFrom(piece + IntervalMarker + rest, IntervalMarker, 0) == Some(|piece|)
  {
    var s := piece + IntervalMarker + rest;
    assert s[|piece|..|piece| + |IntervalMarker|] == IntervalMarker;
    forall q | 0 <= q < |piece|
      ensures !OccursAt(s, IntervalMarker, q)
    {
      if q + 6 < |piece| {
        assert s[q + 6] == piece[q + 6];
      } else {
        assert s[q + 6] == IntervalMarker[q + 6 - |piece|];
      }
      NotOccursAt(s, IntervalMarker, q, 6);
    }
    FindFromAt(s, IntervalMarker, 0, |piece|);
  }

  /** A text with no `V` holds no marker. */
  lemma {:induction false} NoMarkerWithoutV(piece: string)
    requires 'V' !in piece
    ensures SplitOn(piece, IntervalMarker) == [piece]
  {
    forall q: nat | q + |IntervalMarker| <= |piece|
      ensures !OccursAt(piece, IntervalMarker, q)
    {
      NotOccursAt(piece, IntervalMarker, q, 6);
    }
  }

  /** A piece with no `V` before a marker is the first piece of the split. */
  lemma {:induction false} SplitFirstPiece(piece: string, rest: string)
    requires 'V' !in piece
    ensures SplitOn(piece + IntervalMarker + rest, IntervalMarker) == [piece] + SplitOn(rest, IntervalMarker)
  {
    var s := piece + IntervalMarker + rest;
    FirstMarkerAfter(piece, rest);
    assert s[..|piece|] == piece;
    assert s[|piece| + |IntervalMarker|..] == rest;
  }

  /** Splitting what follows the first marker gives the framed texts. */
  lemma {:induction false} SplitAfterMarker(texts: seq<string>)
    requires texts != [] && forall k :: 0 <= k < |texts| ==> Framable(texts[k])
    ensures SplitOn(AfterMarker(texts), IntervalMarker) == MarkerPieces(texts)
    decreases |texts|
  {
    assert Framable(texts[0]);
    if |texts| == 1 {
      NoMarkerWithoutV("\n" + texts[0]);
    } else {
      assert forall k :: 0 <= k < |texts| - 1 ==> texts[1..][k] == texts[k + 1];
      SplitFirstPiece("\n" + texts[0] + "\n", AfterMarker(texts[1..]));
      SplitAfterMarker(texts[1..]);
    }
  }

  /** Splitting the stream at its markers gives an empty piece, then the framed texts. */
  lemma {:induction false} SplitStream(texts: seq<string>)
    requires forall k :: 0 <= k < |texts| ==> Framable(texts[k])
    ensures SplitOn(StreamText(texts), IntervalMarker) == [""] + MarkerPieces(texts)
  {
    if texts != [] {
      StreamStartsWithMarker(texts);
      var s := IntervalMarker + AfterMarker(texts);
      FindFromAt(s, IntervalMarker, 0, 0);
      assert s[|IntervalMarker|..] == AfterMarker(texts);
      assert s[..0] == "";
      SplitAfterMarker(texts);
    }
  }

  /** A text with no whitespace at either end, framed by newlines, trims back to itself. */
  lemma {:induction false} TrimFramed(t: string)
    requires t != [] && !IsWhitespace(t[0]) && !IsWhitespace(t[|t| - 1])
    ensures Trim("\n" + t + "\n") == t && Trim("\n" + t) == t
  {
    var led := "\n" + t;
    assert (led + "\n")[..|led|] == led;
    assert TrimEnd(led + "\n") == TrimEnd(led) == led;
    assert led[1..] == t;
    assert TrimStart(led) == TrimStart(t) == t;
  }

  /** Trimming keeps a piece that trims to a non-empty text, and looks at the rest the same way. */
  lemma {:induction false} KeepTrimmedCons(piece: string, rest: seq<string>)
    requires Trim(piece) != []
    ensures KeepTrimmed([piece] + rest) == [Trim(piece)] + KeepTrimmed(rest)
  {
    assert ([piece] + rest)[1..] == rest;
  }

  /** Trimming drops an empty first piece. */
  lemma {:induction false} KeepTrimmedEmptyFirst(rest: seq<string>)
    ensures KeepTrimmed([""] + rest) == KeepTrimmed(rest)
  {
    assert ([""] + rest)[1..] == rest;
  }

  /** A non-empty sequence is its first element and the rest. */
  lemma {:induction false} HeadAndTail<T>(s: seq<T>)
    requires s != []
    ensures [s[0]] + s[1..] == s
  {
  }

  /** A framed text is kept, trimmed back to itself, whether it is the last piece or not. */
  lemma {:induction false} KeepFramed(t: string, rest: seq<string>)
    requires Framable(t)
    ensures KeepTrimmed(["\n" + t + "\n"] + rest) == [t] + KeepTrimmed(rest)
    ensures KeepTrimmed(["\n" + t]) == [t]
  {
    TrimFramed(t);
    KeepTrimmedCons("\n" + t + "\n", rest);
    KeepTrimmedCons("\n" + t, []);
  }

  /** Trimming the framed texts and dropping empty pieces gives the texts back. */
  lemma {:induction false} KeepTrimmedPieces(texts: seq<string>)
    requires forall k :: 0 <= k < |texts| ==> Framable(texts[k])
    ensures KeepTrimmed(MarkerPieces(texts)) == texts
    decreases |texts|
  {
    if texts != [] {
      var t := texts[0];
      HeadAndTail(texts);
      if |texts| == 1 {
        KeepFramed(t, []);
      } else {
        assert forall k :: 0 <= k < |texts| - 1 ==> texts[1..][k] == texts[k + 1];
        KeepTrimmedPieces(texts[1..]);
        KeepFramed(t, MarkerPieces(texts[1..]));
      }
    }
  }

  /** `split_efforts` on the stream gives the texts back, in order. */
  lemma {:induction false} SplitEffortsOfStream(texts: seq<string>)
    requires forall k :: 0 <= k < |texts| ==> Framable(texts[k])
    ensures SplitEfforts(StreamText(texts)) == texts
  {
    SplitStream(texts);
    KeepTrimmedPieces(texts);
    SplitEffortsAfterMarker(StreamText(texts), MarkerPieces(texts), texts);
  }

  /** A text that splits into an empty piece and pieces that trim to `texts` is split into `texts`. */
  lemma {:induction false} SplitEffortsAfterMarker(intervals: string, pieces: seq<string>, texts: seq<string>)
    requires SplitOn(intervals, IntervalMarker) == [""] + pieces && KeepTrimmed(pieces) == texts
    ensures SplitEfforts(intervals) == texts
  {
    KeepTrimmedEmptyFirst(pieces);
  }

  /** Reading the texts of the intervals gives their efforts, in order. */
  lemma {:induction false} CollectIntervalEfforts(ivs: seq<Interval>)
    ensures CollectMap(ExtractIntervalEffort, IntervalTexts(ivs)) == Ok(IntervalEfforts(ivs))
  {
    var texts := IntervalTexts(ivs);
    forall k | 0 <= k < |ivs|
      ensures ExtractIntervalEffort(texts[k]) == Ok(IntervalEfforts(ivs)[k])
    {
      IntervalRoundTrip(ivs[k]);
    }
    CollectMapAll(ExtractIntervalEffort, texts, IntervalEfforts(ivs));
  }
}
