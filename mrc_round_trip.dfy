/**
 * What the course-data decoder makes of the text the encoder writes: an effort's two lines
 * read back as the same effort.
 */
module MrcRoundTrip {
  import opened Wrappers
  import opened Text
  import opened Decimal
  import opened Efforts
  import opened FromMrc
  import opened Workouts
  import opened WorkoutTypes

  /** `format!("{:.2}", x)` of a non-negative number is matched whole by `\d*\.\d*`. */
  lemma {:induction false} Fmt2PointNumber(x: real)
    requires x >= 0.0
    ensures IsPointNumber(Fmt2(x))
  {
    UnsignedFmt2(x);
    var n := Hundredths(x);
    PointedIsPointNumber(NatToDigits(n / 100), [DigitChar(n % 100 / 10), DigitChar(n % 10)]);
  }

  /** A number the course data can carry exactly: not negative and on the 0.01 grid. */
  predicate Encodable(x: real) {
    x >= 0.0 && OnGrid(x)
  }

  /** Two tab-separated pairs on two lines are the effort pattern's text of the four values. */
  lemma {:induction false} TwoLinesAreGroups(a: string, b: string, c: string, d: string)
    ensures a + "\t" + b + "\n" + (c + "\t" + d) == GroupsText(EffortGroups(a, b, c, d))
  {
  }

  /** The two lines `to_mrc` writes are the effort pattern's text of the four rendered numbers. */
  lemma {:induction false} MrcTextIsGroups(e: Effort, t: real, end: real)
    requires end == t + e.durationInMinutes
    ensures ToMrc(e, t).0 == GroupsText(EffortGroups(Fmt2(t), Fmt2(e.startingValue), Fmt2(end), Fmt2(e.endingValue)))
  {
    TwoLinesAreGroups(Fmt2(t), Fmt2(e.startingValue), Fmt2(end), Fmt2(e.endingValue));
  }

  /** The leftmost effort match in the text `to_mrc` writes captures the four rendered numbers. */
  lemma {:induction false} EffortTextCaptures(e: Effort, t: real, end: real)
    requires t >= 0.0 && end >= 0.0 && e.startingValue >= 0.0 && e.endingValue >= 0.0
    requires end == t + e.durationInMinutes
    ensures FirstEffort(ToMrc(e, t).0)
      == Some(EffortGroups(Fmt2(t), Fmt2(e.startingValue), Fmt2(end), Fmt2(e.endingValue)))
  {
    var g := EffortGroups(Fmt2(t), Fmt2(e.startingValue), Fmt2(end), Fmt2(e.endingValue));
    Fmt2PointNumber(t);
    Fmt2PointNumber(e.startingValue);
    Fmt2PointNumber(end);
    Fmt2PointNumber(e.endingValue);
    var text := ToMrc(e, t).0;
    MrcTextIsGroups(e, t, end);
    EffortAtWhole(g);
    FirstMatchAt((p: nat) => EffortAt(text, p), 0, |text|, 0);
  }

  /**
   * The captures of the leftmost match in the text `to_mrc` writes read back as the effort's
   * numbers; `end` is the minute at which the effort ends.
   */
  lemma {:induction false} CapturesOfMrcText(e: Effort, t: real, end: real)
    requires Encodable(t) && Encodable(end) && Encodable(e.startingValue) && Encodable(e.endingValue)
    requires end == t + e.durationInMinutes
    ensures FirstEffort(ToMrc(e, t).0).Some?
    ensures ParseFloat(FirstEffort(ToMrc(e, t).0).value.startTime) == Some(t)
    ensures ParseFloat(FirstEffort(ToMrc(e, t).0).value.startValue) == Some(e.startingValue)
    ensures ParseFloat(FirstEffort(ToMrc(e, t).0).value.endTime) == Some(end)
    ensures ParseFloat(FirstEffort(ToMrc(e, t).0).value.endValue) == Some(e.endingValue)
  {
    EffortTextCaptures(e, t, end);
    ParseFmt2(t);
    ParseFmt2(e.startingValue);
    ParseFmt2(end);
    ParseFmt2(e.endingValue);
  }

  /** The text `to_mrc` writes decodes to the effort between its start and end minutes. */
  lemma {:induction false} DecodeMrcText(e: Effort, t: real, end: real)
    requires Encodable(t) && Encodable(end) && Encodable(e.startingValue) && Encodable(e.endingValue)
    requires end == t + e.durationInMinutes
    ensures ExtractEffortFromString(ToMrc(e, t).0) == Ok(Effort(end - t, e.startingValue, e.endingValue, Idle))
  {
    CapturesOfMrcText(e, t, end);
    ExtractEffortOfCaptures(ToMrc(e, t).0, FirstEffort(ToMrc(e, t).0).value,
      t, e.startingValue, end, e.endingValue);
  }

  /** The effort rebuilt from its start and end minutes is the effort, idle. */
  lemma {:induction false} IdleFromMinutes(e: Effort, t: real, end: real)
    requires end == t + e.durationInMinutes
    ensures Effort(end - t, e.startingValue, e.endingValue, Idle) == e.(guiState := Idle)
  {
  }

  /**
   * Reading back the two lines `to_mrc` writes for `e` from minute `t` gives `e` again, idle:
   * the same duration, starting value and ending value.
   */
  lemma {:induction false} EffortRoundTrip(e: Effort, t: real)
    requires Encodable(t) && Encodable(e.durationInMinutes)
    requires Encodable(e.startingValue) && Encodable(e.endingValue)
    ensures ExtractEffortFromString(ToMrc(e, t).0) == Ok(e.(guiState := Idle))
  {
    var end := t + e.durationInMinutes;
    OnGridAdd(t, e.durationInMinutes);
    DecodeMrcText(e, t, end);
    IdleFromMinutes(e, t, end);
  }

  /** The efforts as the decoder gives them back: the same numbers, idle. */
  function Idled(efforts: seq<Effort>): seq<Effort> {
    seq(|efforts|, k requires 0 <= k < |efforts| => efforts[k].(guiState := Idle))
  }

  /** Every number an effort list writes into the course data is encodable. */
  predicate EncodableEfforts(efforts: seq<Effort>) {
    forall k :: 0 <= k < |efforts| ==>
      Encodable(efforts[k].durationInMinutes) && Encodable(efforts[k].startingValue) && Encodable(efforts[k].endingValue)
  }

  /** The first effort's pair of course data lines is its `to_mrc` text. */
  lemma {:induction false} PairCourseLines(efforts: seq<Effort>, t: real, end: real)
    requires efforts != [] && end == t + efforts[0].durationInMinutes
    ensures PairLines(CourseDataLines(efforts, t))
      == [ToMrc(efforts[0], t).0] + PairLines(CourseDataLines(efforts[1..], end))
  {
    var lines := CourseDataLines(efforts, t);
    assert lines[2..] == CourseDataLines(efforts[1..], end);
  }

  /** Idling a list idles its first effort and then the rest. */
  lemma {:induction false} IdledCons(efforts: seq<Effort>)
    requires efforts != []
    ensures Idled(efforts) == [efforts[0].(guiState := Idle)] + Idled(efforts[1..])
  {
  }

  /**
   * The course data lines of `efforts`, paired up again and each pair read as an effort, give the
   * efforts back in order, idle.
   */
  lemma {:induction false} CourseLinesRoundTrip(efforts: seq<Effort>, t: real)
    requires Encodable(t) && EncodableEfforts(efforts)
    ensures CollectMap(ExtractEffortFromString, PairLines(CourseDataLines(efforts, t))) == Ok(Idled(efforts))
    decreases |efforts|
  {
    if efforts == [] {
      assert CourseDataLines(efforts, t) == [] && PairLines([]) == [];
      assert Idled(efforts) == [];
    } else {
      var e := efforts[0];
      var end := t + e.durationInMinutes;
      OnGridAdd(t, e.durationInMinutes);
      assert EncodableEfforts(efforts[1..]) by {
        assert forall k :: 0 <= k < |efforts| - 1 ==> efforts[1..][k] == efforts[k + 1];
      }
      CourseLinesRoundTrip(efforts[1..], end);
      PairCourseLines(efforts, t, end);
      EffortRoundTrip(e, t);
      CollectMapCons(ExtractEffortFromString, ToMrc(e, t).0, PairLines(CourseDataLines(efforts[1..], end)));
      IdledCons(efforts);
    }
  }

  /** A text that starts and ends with something other than whitespace and holds no `[` and no `=`. */
  predicate Framed(s: string) {
    |s| > 0 && !IsWhitespace(s[0]) && !IsWhitespace(s[|s| - 1]) && '[' !in s && '=' !in s
  }

  /** Two lines joined by a newline are framed when the first starts and the second ends with neither whitespace. */
  lemma {:induction false} FramedLines(first: string, second: string)
    requires |first| > 0 && |second| > 0 && !IsWhitespace(first[0]) && !IsWhitespace(second[|second| - 1])
    requires '[' !in first && '=' !in first && '[' !in second && '=' !in second
    ensures Framed(first + "\n" + second)
  {
    var s := first + "\n" + second;
    assert s[0] == first[0] && s[|s| - 1] == second[|second| - 1];
  }

  /** The two lines `to_mrc` writes are framed: a number first, a digit last, and no bracket or equals sign. */
  lemma {:induction false} MrcTextFramed(e: Effort, t: real)
    ensures Framed(ToMrc(e, t).0)
  {
    var first := MrcLine(t, e.startingValue);
    var second := MrcLine(t + e.durationInMinutes, e.endingValue);
    MrcLinePlain(t, e.startingValue);
    MrcLinePlain(t + e.durationInMinutes, e.endingValue);
    Fmt2Format(t);
    assert first[0] == Fmt2(t)[0];
    FramedLines(first, second);
  }

  /** Framed texts joined with newlines are framed. */
  lemma {:induction false} JoinFramed(parts: seq<string>)
    requires forall k :: 0 <= k < |parts| ==> Framed(parts[k])
    ensures parts != [] ==> Framed(Join(parts, "\n"))
    decreases |parts|
  {
    if |parts| > 1 {
      JoinFramed(parts[1..]);
      var rest := Join(parts[1..], "\n");
      assert Join(parts, "\n") == parts[0] + "\n" + rest;
      assert Framed(parts[1..][0]);
    }
  }

  /** The course data `crm_body_workouts` renders is empty or framed. */
  lemma {:induction false} CourseDataFramed(efforts: seq<Effort>, t: real)
    ensures EffortsToCrm(efforts, t).0 == [] || Framed(EffortsToCrm(efforts, t).0)
  {
    var texts := MrcTexts(efforts, t);
    assert EffortsToCrm(efforts, t).0 == Join(texts, "\n");
    forall k | 0 <= k < |texts|
      ensures Framed(texts[k])
    {
      MrcTextsAt(efforts, t, k);
      MrcTextFramed(efforts[k], StartingMinutes(efforts, t)[k]);
    }
    JoinFramed(texts);
  }

  /**
   * A course data block after a prefix holding no opening marker is the block the decoder finds,
   * when the block itself holds no bracket.
   */
  lemma {:induction false} BlockAfter(mrc: string, prefix: string, block: string)
    requires mrc == prefix + (CourseDataOpen + block + "\n" + CourseDataClose)
    requires '[' !in block
    requires forall q :: 0 <= q < |prefix| ==> !OccursAt(mrc, CourseDataOpen, q)
    ensures ExtractEffortsString(mrc) == Ok(block + "\n")
  {
    var p := |prefix|;
    var close := p + 14 + |block| + 1;
    assert mrc[p..p + 14] == CourseDataOpen;
    assert mrc[close..close + 17] == CourseDataClose;
    forall k | p + 15 <= k < close
      ensures !OccursAt(mrc, CourseDataClose, k)
    {
      if k < close - 1 {
        assert mrc[k] == block[k - p - 14];
      } else {
        assert mrc[k] == '\n';
      }
    }
    FindFromAt(mrc, CourseDataClose, p + 15, close);
    assert mrc[p + 14..close] == block + "\n";
    assert CourseDataAt(mrc, p) == Some(block + "\n");
    assert NoCourseDataBefore(mrc, p);
  }

  /** The header's first line, before the description key. */
  const HeaderFirstLine: string := "[COURSE HEADER]\n"

  /** The header text `crm_head` writes before the description, and after the unit line. */
  const HeaderStart: string := "[COURSE HEADER]\nDESCRIPTION = "
  const HeaderEnd: string := "\n[END COURSE HEADER]\n"

  /** A course file laid out as `to_crm` writes it: the header, then the course data block. */
  function CrmFile(description: string, unit: string, data: string): string {
    HeaderStart + (description + "\n" + unit) + HeaderEnd + (CourseDataOpen + data + "\n" + CourseDataClose)
  }

  /** The text `to_crm` writes is the header, then the course data block. */
  lemma {:induction false} CrmLayout(description: string, unit: string, data: string)
    ensures "[COURSE HEADER]\nDESCRIPTION = " + description + "\n" + unit + "\n[END COURSE HEADER]"
        + "\n" + ("[COURSE DATA]\n" + data + "\n[END COURSE DATA]")
      == CrmFile(description, unit, data)
  {
  }

  /** No opening marker starts inside the header's first line and key. */
  lemma {:induction false} NoOpenInHeaderStart(s: string, q: nat)
    requires |HeaderStart| <= |s| && s[..|HeaderStart|] == HeaderStart && q < |HeaderStart|
    ensures !OccursAt(s, CourseDataOpen, q)
  {
    assert s[q] == HeaderStart[q];
    if q == 0 {
      assert s[8] == HeaderStart[8] == 'H';
      NotOccursAt(s, CourseDataOpen, q, 8);
    } else {
      assert HeaderStart[q] != '[';
      NotOccursAt(s, CourseDataOpen, q, 0);
    }
  }

  /** No opening marker starts inside the header's closing line. */
  lemma {:induction false} NoOpenInHeaderEnd(s: string, at: nat, q: nat)
    requires at + |HeaderEnd| <= |s| && s[at..at + |HeaderEnd|] == HeaderEnd
    requires at <= q < at + |HeaderEnd|
    ensures !OccursAt(s, CourseDataOpen, q)
  {
    assert s[q] == HeaderEnd[q - at];
    if q == at + 1 {
      assert s[q + 1] == HeaderEnd[2] == 'E';
      NotOccursAt(s, CourseDataOpen, q, 1);
    } else {
      assert HeaderEnd[q - at] != '[';
      NotOccursAt(s, CourseDataOpen, q, 0);
    }
  }

  /** A header whose middle lines hold no bracket holds no opening course data marker. */
  lemma {:induction false} NoOpenInHeader(middle: string, rest: string)
    requires '[' !in middle
    ensures var prefix := HeaderStart + middle + HeaderEnd;
      forall q :: 0 <= q < |prefix| ==> !OccursAt(prefix + rest, CourseDataOpen, q)
  {
    var prefix := HeaderStart + middle + HeaderEnd;
    var s := prefix + rest;
    var endAt := |HeaderStart| + |middle|;
    assert s[..|HeaderStart|] == HeaderStart;
    assert s[endAt..endAt + |HeaderEnd|] == HeaderEnd;
    forall q | 0 <= q < |prefix|
      ensures !OccursAt(s, CourseDataOpen, q)
    {
      if q < |HeaderStart| {
        NoOpenInHeaderStart(s, q);
      } else if q < endAt {
        assert s[q] == middle[q - |HeaderStart|];
        NotOccursAt(s, CourseDataOpen, q, 0);
      } else {
        NoOpenInHeaderEnd(s, endAt, q);
      }
    }
  }

  /**
   * The efforts read back from a course file are those whose course data it holds, when the
   * header holds no bracket and every number is on the 0.01 grid and not negative.
   */
  lemma {:induction false} EffortsOfCrmFile(description: string, unit: string, efforts: seq<Effort>)
    requires '[' !in description && '[' !in unit && EncodableEfforts(efforts)
    ensures ExtractEfforts(CrmFile(description, unit, EffortsToCrm(efforts, 0.0).0)) == Ok(Idled(efforts))
  {
    var data := EffortsToCrm(efforts, 0.0).0;
    var middle := description + "\n" + unit;
    var prefix := HeaderStart + middle + HeaderEnd;
    var mrc := CrmFile(description, unit, data);
    assert '[' !in middle;
    CourseDataFramed(efforts, 0.0);
    NoOpenInHeader(middle, CourseDataOpen + data + "\n" + CourseDataClose);
    BlockAfter(mrc, prefix, data);
    TrimTrailingNewline(data);
    EffortsToCrmLines(efforts, 0.0);
    assert Encodable(0.0);
    CourseLinesRoundTrip(efforts, 0.0);
  }

  /**
   * Reading the efforts back from the file `to_crm` writes gives the workout's efforts in order,
   * idle, when every number is on the 0.01 grid and not negative and the description holds no `[`.
   */
  lemma {:induction false} CrmEffortsRoundTrip(w: Workout)
    requires '[' !in w.description && EncodableEfforts(w.efforts)
    ensures ExtractEfforts(w.ToCrm()) == Ok(Idled(w.efforts))
  {
    CrmLayout(w.description, CreateCrmString(w.workoutType), EffortsToCrm(w.efforts, 0.0).0);
    EffortsOfCrmFile(w.description, CreateCrmString(w.workoutType), w.efforts);
  }

  /** No description key starts inside the header's first line. */
  lemma {:induction false} NoKeyInFirstLine(s: string, q: nat)
    requires |HeaderFirstLine| <= |s| && s[..|HeaderFirstLine|] == HeaderFirstLine && q < |HeaderFirstLine|
    ensures !OccursAt(s, DescriptionKey, q)
  {
    assert s[q] == HeaderFirstLine[q];
    if q == 11 {
      assert s[13] == HeaderFirstLine[13] == 'R';
      NotOccursAt(s, DescriptionKey, q, 2);
    } else {
      assert HeaderFirstLine[q] != 'D';
      NotOccursAt(s, DescriptionKey, q, 0);
    }
  }

  /**
   * A file that starts with the header's first line and then a description line reads back as
   * that description, when it is non-empty and not the placeholder.
   */
  lemma {:induction false} DescriptionFound(mrc: string, description: string, after: string)
    requires mrc == HeaderFirstLine + (DescriptionKey + description + "\n") + after
    requires |description| > 0 && '\n' !in description
    ensures ExtractDescription(mrc) == Ok(if description == NoDescriptionText then "" else description)
  {
    var line := DescriptionKey + description + "\n";
    var keyAt := |HeaderFirstLine|;
    assert mrc[..keyAt] == HeaderFirstLine;
    assert mrc[keyAt..keyAt + |line|] == line;
    DescriptionAtComplete(mrc, keyAt, description);
    forall q | 0 <= q < keyAt
      ensures DescriptionAt(mrc, q).None?
    {
      NoKeyInFirstLine(mrc, q);
    }
    assert NoDescriptionBefore(mrc, keyAt);
  }

  /** A course file's description line starts right after the header's first line. */
  lemma {:induction false} DescriptionLineOfCrmFile(description: string, unit: string, data: string)
    ensures CrmFile(description, unit, data)
      == HeaderFirstLine + (DescriptionKey + description + "\n") + (unit + HeaderEnd + (CourseDataOpen + data + "\n" + CourseDataClose))
  {
    assert HeaderStart == HeaderFirstLine + DescriptionKey;
  }

  /** A course file reads back as its description, when that is one non-empty line other than the placeholder. */
  lemma {:induction false} DescriptionOfCrmFile(description: string, unit: string, data: string)
    requires |description| > 0 && '\n' !in description && description != NoDescriptionText
    ensures ExtractDescription(CrmFile(description, unit, data)) == Ok(description)
  {
    DescriptionLineOfCrmFile(description, unit, data);
    DescriptionFound(CrmFile(description, unit, data), description,
      unit + HeaderEnd + (CourseDataOpen + data + "\n" + CourseDataClose));
  }

  /**
   * Reading the description back from the file `to_crm` writes gives the description, when it is
   * one non-empty line other than the placeholder `no description`.
   */
  lemma {:induction false} CrmDescriptionRoundTrip(w: Workout)
    requires |w.description| > 0 && '\n' !in w.description && w.description != NoDescriptionText
    ensures ExtractDescription(w.ToCrm()) == Ok(w.description)
  {
    CrmLayout(w.description, CreateCrmString(w.workoutType), EffortsToCrm(w.efforts, 0.0).0);
    DescriptionOfCrmFile(w.description, CreateCrmString(w.workoutType), EffortsToCrm(w.efforts, 0.0).0);
  }

  /**
   * A workout whose description is the placeholder `no description` writes a file whose
   * description reads back as the empty description.
   */
  lemma {:induction false} CrmPlaceholderDescription(w: Workout)
    requires w.description == NoDescriptionText
    ensures ExtractDescription(w.ToCrm()) == Ok("")
  {
    var unit, data := CreateCrmString(w.workoutType), EffortsToCrm(w.efforts, 0.0).0;
    CrmLayout(w.description, unit, data);
    DescriptionLineOfCrmFile(w.description, unit, data);
    DescriptionFound(CrmFile(w.description, unit, data), w.description,
      unit + HeaderEnd + (CourseDataOpen + data + "\n" + CourseDataClose));
  }

  /** The header of the source's test `actual_description`: the description line is read. */
  lemma {:induction false} DescriptionSample()
    ensures ExtractDescription(HeaderFirstLine + "DESCRIPTION = A very good workout.\n" + "MINUTES WATTS\n")
      == Ok("A very good workout.")
  {
    var description := "A very good workout.";
    assert DescriptionKey + description + "\n" == "DESCRIPTION = A very good workout.\n";
    DescriptionFound(HeaderFirstLine + "DESCRIPTION = A very good workout.\n" + "MINUTES WATTS\n",
      description, "MINUTES WATTS\n");
  }

  /** The header of the source's test `no_value_for_description`: the placeholder reads as "". */
  lemma {:induction false} PlaceholderSample()
    ensures ExtractDescription(HeaderFirstLine + "DESCRIPTION = no description\n" + "MINUTES WATTS\n") == Ok("")
  {
    assert DescriptionKey + NoDescriptionText + "\n" == "DESCRIPTION = no description\n";
    DescriptionFound(HeaderFirstLine + "DESCRIPTION = no description\n" + "MINUTES WATTS\n",
      NoDescriptionText, "MINUTES WATTS\n");
  }

  /** The header key's `=` is the only one in a file whose text after the key holds none. */
  lemma {:induction false} EqualsOnlyInKey(rest: string)
    requires '=' !in rest
    ensures var s := HeaderStart + rest;
      forall i :: 0 <= i < |s| && s[i] == '=' ==> i == |HeaderStart| - 2
  {
    var s := HeaderStart + rest;
    forall i | 0 <= i < |s| && i != |HeaderStart| - 2
      ensures s[i] != '='
    {
      if i < |HeaderStart| {
        assert s[i] == HeaderStart[i];
      } else {
        assert s[i] == rest[i - |HeaderStart|];
      }
    }
  }

  /**
   * A file whose description key is followed at once by the newline, and holds no other `=`,
   * has no description the decoder accepts.
   */
  lemma {:induction false} DescriptionMissing(mrc: string, rest: string)
    requires mrc == HeaderStart + rest && |rest| > 0 && rest[0] == '\n' && '=' !in rest
    ensures ExtractDescription(mrc) == Err(NoDescription)
  {
    EqualsOnlyInKey(rest);
    var keyAt := |HeaderFirstLine|;
    forall p | 0 <= p <= |mrc|
      ensures DescriptionAt(mrc, p).None?
    {
      if p == keyAt {
        assert mrc[p + 14] == '\n';
        assert IndexOf(mrc, '\n', p + 14) == p + 14;
      } else if p + 12 < |mrc| {
        NotOccursAt(mrc, DescriptionKey, p, 12);
      }
    }
  }

  /** After an empty description, the header and the course data hold no `=`. */
  lemma {:induction false} NoEqualsAfterKey(unit: string, data: string)
    requires '=' !in unit && (data == [] || Framed(data))
    ensures '=' !in "\n" + unit + HeaderEnd + (CourseDataOpen + data + "\n" + CourseDataClose)
  {
  }

  /** A course file with an empty description has no description the decoder accepts. */
  lemma {:induction false} EmptyDescriptionOfCrmFile(unit: string, efforts: seq<Effort>)
    requires '=' !in unit
    ensures ExtractDescription(CrmFile([], unit, EffortsToCrm(efforts, 0.0).0)) == Err(NoDescription)
  {
    var data := EffortsToCrm(efforts, 0.0).0;
    var rest := "\n" + unit + HeaderEnd + (CourseDataOpen + data + "\n" + CourseDataClose);
    assert CrmFile([], unit, data) == HeaderStart + rest;
    CourseDataFramed(efforts, 0.0);
    NoEqualsAfterKey(unit, data);
    DescriptionMissing(CrmFile([], unit, data), rest);
  }

  /**
   * The file `to_crm` writes for a workout with an empty description has no description the
   * decoder accepts: `DESCRIPTION = (.+)\n` needs at least one character before the newline.
   */
  lemma {:induction false} CrmEmptyDescription(w: Workout)
    requires w.description == []
    ensures ExtractDescription(w.ToCrm()) == Err(NoDescription)
  {
    CrmLayout(w.description, CreateCrmString(w.workoutType), EffortsToCrm(w.efforts, 0.0).0);
    EmptyDescriptionOfCrmFile(CreateCrmString(w.workoutType), w.efforts);
  }
}
