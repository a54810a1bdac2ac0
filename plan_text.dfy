/**
 * A whole plan in the layout the tests of src/workout_data/from_plan_format.rs use: a header
 * with a `NAME=` line and a workout type line, `=STREAM=`, and one `=INTERVAL=` block per
 * interval; and the proof that decoding such a plan gives back its name and its efforts.
 */
module PlanText {
  import opened Wrappers
  import opened Text
  import opened Efforts
  import opened FromPlanFormat
  import opened PlanRoundTrip

  const HeaderMarker: string := "=HEADER="
  const TypeLine: string := "WORKOUT_TYPE=0"

  /** The start of the header up to the name. */
  const HeadToName: string := "=HEADER=\nNAME="
  /** The rest of the header after the name, with its final newline. */
  const NameToStream: string := "\nWORKOUT_TYPE=0\n"

  /**
   * A name the header can carry and the decoder reads back: on one line, with no `=` (so that no
   * `=STREAM=` starts inside it) and no whitespace at its end (which trimming would drop).
   */
  predicate WritableName(name: string) {
    '\n' !in name && '=' !in name && (name == [] || !IsWhitespace(name[|name| - 1]))
  }

  /** The header lines as the decoder sees them once trimmed. */
  function HeaderText(name: string): string {
    HeaderMarker + "\n" + (NameKey + name) + "\n" + TypeLine
  }

  /** The plan: the header, a newline, `=STREAM=`, a newline and the blocks of the intervals. */
  function Plan(name: string, ivs: seq<Interval>): string {
    HeaderText(name) + "\n" + StreamMarker + ("\n" + StreamText(IntervalTexts(ivs)))
  }

  /** The header with its newline, in the pieces around the name. */
  lemma {:induction false} HeaderPieces(name: string)
    ensures HeaderText(name) + "\n" == HeadToName + name + NameToStream
  {
  }

  /** No `=STREAM=` starts inside the header: the only `=` there are at places `=STREAM=` cannot fit. */
  lemma {:induction false} NoStreamMarkerInHeader(s: string, name: string)
    requires '=' !in name
    requires |HeadToName| + |name| + |NameToStream| + |StreamMarker| <= |s|
    requires s[..|HeadToName|] == HeadToName
    requires s[|HeadToName|..|HeadToName| + |name|] == name
    requires s[|HeadToName| + |name|..|HeadToName| + |name| + |NameToStream|] == NameToStream
    ensures forall q :: 0 <= q < |HeadToName| + |name| + |NameToStream| ==> !OccursAt(s, StreamMarker, q)
  {
    var n := |name|;
    forall q: nat | q < |HeadToName| + n + |NameToStream|
      ensures !OccursAt(s, StreamMarker, q)
    {
      if q < |HeadToName| {
        assert s[q] == s[..|HeadToName|][q];
        if q == 0 || q == 7 {
          assert s[q + 1] == s[..|HeadToName|][q + 1];
          NotOccursAt(s, StreamMarker, q, 1);
        } else if q == 13 {
          if 6 < n {
            assert s[q + 7] == s[|HeadToName|..|HeadToName| + n][6];
          } else {
            assert s[q + 7] == s[|HeadToName| + n..|HeadToName| + n + |NameToStream|][6 - n];
          }
          NotOccursAt(s, StreamMarker, q, 7);
        } else {
          NotOccursAt(s, StreamMarker, q, 0);
        }
      } else if q < |HeadToName| + n {
        assert s[q] == s[|HeadToName|..|HeadToName| + n][q - |HeadToName|];
        NotOccursAt(s, StreamMarker, q, 0);
      } else {
        var i := q - |HeadToName| - n;
        assert s[q] == s[|HeadToName| + n..|HeadToName| + n + |NameToStream|][i];
        if i == 13 {
          assert s[q + 1] == s[|HeadToName| + n..|HeadToName| + n + |NameToStream|][i + 1];
          NotOccursAt(s, StreamMarker, q, 1);
        } else {
          NotOccursAt(s, StreamMarker, q, 0);
        }
      }
    }
  }

  /** The plan splits at its `=STREAM=` into the header and the newline-led stream. */
  lemma {:induction false} PlanSplits(name: string, ivs: seq<Interval>)
    requires WritableName(name)
    ensures SplitOnce(Plan(name, ivs), StreamMarker)
      == (HeaderText(name) + "\n", Some("\n" + StreamText(IntervalTexts(ivs))))
  {
    var s := Plan(name, ivs);
    var header := HeaderText(name) + "\n";
    var after := "\n" + StreamText(IntervalTexts(ivs));
    HeaderPieces(name);
    var n := |name|;
    assert s == HeadToName + name + NameToStream + StreamMarker + after;
    assert s[..|HeadToName|] == HeadToName;
    assert s[|HeadToName|..|HeadToName| + n] == name;
    assert s[|HeadToName| + n..|HeadToName| + n + |NameToStream|] == NameToStream;
    NoStreamMarkerInHeader(s, name);
    SplitOnceAt(s, StreamMarker, header, after);
  }

  /** Each header line is already trimmed. */
  lemma {:induction false} HeaderLinesTrimmed(name: string)
    requires WritableName(name)
    ensures Trimmed(HeaderMarker) && Trimmed(NameKey + name) && Trimmed(TypeLine)
  {
    var line := NameKey + name;
    if name != [] {
      assert line[|line| - 1] == name[|name| - 1];
    }
  }

  /** Trimming leaves a list of trimmed lines alone. */
  lemma {:induction false} TrimAllTrimmed(lines: seq<string>)
    requires forall k :: 0 <= k < |lines| ==> Trimmed(lines[k])
    ensures TrimAll(lines) == lines
    decreases |lines|
  {
    if lines != [] {
      TrimUnchanged(lines[0]);
      assert forall k :: 0 <= k < |lines| - 1 ==> lines[1..][k] == lines[k + 1];
      TrimAllTrimmed(lines[1..]);
      HeadAndTail(lines);
    }
  }

  /** The name line holds no newline. */
  lemma {:induction false} NameLineOneLine(name: string)
    requires '\n' !in name
    ensures '\n' !in NameKey + name
  {
    var line := NameKey + name;
    forall k | 0 <= k < |line|
      ensures line[k] != '\n'
    {
      if k >= |NameKey| {
        assert line[k] == name[k - |NameKey|];
      }
    }
  }

  /** The header, trimmed, loses its final newline and nothing else. */
  lemma {:induction false} HeaderTrim(name: string)
    ensures Trim(HeaderText(name) + "\n") == HeaderText(name)
  {
    var h := HeaderText(name);
    assert h[0] == '=' && h[|h| - 1] == '0';
    TrimTrailingNewline(h);
  }

  /** Three lines joined by newlines. */
  lemma {:induction false} LinesTriple(first: string, second: string, third: string)
    requires '\n' !in first && (first == [] || first[|first| - 1] != '\r')
    requires '\n' !in second && (second == [] || second[|second| - 1] != '\r')
    requires '\n' !in third && third != []
    ensures Lines(first + "\n" + second + "\n" + third) == [first, second, third]
  {
    LinesPairThen(first, second, third);
    LinesSingle(third);
  }

  /** The lines of the header: its marker, the name line and the type line. */
  lemma {:induction false} HeaderSplitsIntoLines(name: string)
    requires WritableName(name)
    ensures Lines(HeaderText(name)) == [HeaderMarker, NameKey + name, TypeLine]
  {
    HeaderLinesTrimmed(name);
    NameLineOneLine(name);
    LinesTriple(HeaderMarker, NameKey + name, TypeLine);
  }

  /** The trimmed lines of the header: its marker, the name line and the type line. */
  lemma {:induction false} HeaderLines(name: string)
    requires WritableName(name)
    ensures TrimAll(Lines(Trim(HeaderText(name) + "\n"))) == [HeaderMarker, NameKey + name, TypeLine]
  {
    HeaderTrim(name);
    HeaderSplitsIntoLines(name);
    HeaderLinesTrimmed(name);
    TrimAllTrimmed([HeaderMarker, NameKey + name, TypeLine]);
  }

  /** The name line is the first to start with `NAME=`, and what follows the key is the name. */
  lemma {:induction false} NameLineFound(name: string)
    ensures FindNameLine([HeaderMarker, NameKey + name, TypeLine], 0) == Some(1)
    ensures (NameKey + name)[|NameKey|..] == name
  {
    var lines := [HeaderMarker, NameKey + name, TypeLine];
    NotOccursAt(lines[0], NameKey, 0, 0);
    assert lines[1][..|NameKey|] == NameKey;
  }

  /** The last character of the stream is the last character of its last text. */
  lemma {:induction false} StreamEnd(texts: seq<string>)
    requires texts != [] && texts[|texts| - 1] != []
    ensures StreamText(texts) != []
    ensures StreamText(texts)[|StreamText(texts)| - 1] == texts[|texts| - 1][|texts[|texts| - 1]| - 1]
    decreases |texts|
  {
    if |texts| > 1 {
      assert texts[1..][|texts[1..]| - 1] == texts[|texts| - 1];
      StreamEnd(texts[1..]);
    }
  }

  /** The stream of a non-empty list starts with a marker and ends like its last text. */
  lemma {:induction false} StreamEnds(texts: seq<string>)
    requires texts != [] && Framable(texts[|texts| - 1])
    ensures Trimmed(StreamText(texts)) && StreamText(texts) != []
  {
    StreamEnd(texts);
    StreamStartsWithMarker(texts);
    assert StreamText(texts)[0] == IntervalMarker[0];
  }

  /** The empty stream after its newline trims to nothing. */
  lemma {:induction false} EmptyStreamTrimmed()
    ensures Trim("\n" + StreamText([])) == StreamText([])
  {
    assert "\n" + StreamText([]) == "\n";
    assert TrimEnd("\n") == [];
  }

  /** A trimmed, non-empty text after a newline trims back to itself. */
  lemma {:induction false} TrimLed(t: string)
    requires t != [] && Trimmed(t)
    ensures Trim("\n" + t) == t
  {
    TrimFramed(t);
  }

  /** The stream after `=STREAM=`, trimmed, is the blocks of the intervals. */
  lemma {:induction false} StreamTrimmed(texts: seq<string>)
    requires forall k :: 0 <= k < |texts| ==> Framable(texts[k])
    ensures Trim("\n" + StreamText(texts)) == StreamText(texts)
  {
    if texts == [] {
      EmptyStreamTrimmed();
    } else {
      assert Framable(texts[|texts| - 1]);
      StreamEnds(texts);
      TrimLed(StreamText(texts));
    }
  }

  /** A header whose trimmed lines have the name line second names the plan. */
  lemma {:induction false} HeaderNameOf(header: string, lines: seq<string>, name: string)
    requires TrimAll(Lines(Trim(header))) == lines
    requires FindNameLine(lines, 0) == Some(1) && lines[1][|NameKey|..] == name
    ensures HeaderName(header) == Some(name)
  {
  }

  /** The header of a written plan names it. */
  lemma {:induction false} PlanHeaderName(name: string)
    requires WritableName(name)
    ensures HeaderName(HeaderText(name) + "\n") == Some(name)
  {
    HeaderLines(name);
    NameLineFound(name);
    HeaderNameOf(HeaderText(name) + "\n", [HeaderMarker, NameKey + name, TypeLine], name);
  }

  /** The split of a plan whose header names it and whose stream is trimmed. */
  lemma {:induction false} HeaderAndIntervalsOf(plan: string, header: string, name: string, after: string, stream: string)
    requires SplitOnce(plan, StreamMarker) == (header, Some(after))
    requires HeaderName(header) == Some(name)
    requires Trim(after) == stream
    ensures SplitHeaderAndIntervals(plan) == Ok((name, stream))
  {
  }

  /** The header and the stream of a written plan. */
  lemma {:induction false} PlanHeaderAndIntervals(name: string, ivs: seq<Interval>)
    requires WritableName(name)
    ensures SplitHeaderAndIntervals(Plan(name, ivs)) == Ok((name, StreamText(IntervalTexts(ivs))))
  {
    PlanSplits(name, ivs);
    PlanHeaderName(name);
    IntervalTextsFramable(ivs);
    StreamTrimmed(IntervalTexts(ivs));
    HeaderAndIntervalsOf(Plan(name, ivs), HeaderText(name) + "\n", name,
                         "\n" + StreamText(IntervalTexts(ivs)), StreamText(IntervalTexts(ivs)));
  }

  /**
   * Decoding a written plan gives back its name and, in order, the effort of each interval:
   * its duration in minutes and the mean of its low and high power.
   */
  lemma {:induction false} WrittenPlanRoundTrip(name: string, ivs: seq<Interval>)
    requires WritableName(name)
    ensures ExtractPlan(Plan(name, ivs)) == Ok((name, IntervalEfforts(ivs)))
  {
    PlanHeaderAndIntervals(name, ivs);
    IntervalTextsFramable(ivs);
    SplitEffortsOfStream(IntervalTexts(ivs));
    CollectIntervalEfforts(ivs);
  }
}
