/**
 * The parts of Rust's `str` API that the core uses, on `string` = `seq<char>`:
 * `trim`, `lines`, `split`, `splitn`, `join`, `find`, and the character classes
 * behind `\d` and `\s` in the regular expressions.
 */
module Text {
  import opened Wrappers

  /** ASCII decimal digit (the regex class `\d` restricted to ASCII). */
  predicate IsDigit(c: char) {
    '0' <= c <= '9'
  }

  predicate AllDigits(s: string) {
    forall i :: 0 <= i < |s| ==> IsDigit(s[i])
  }

  /** Unicode White_Space: what `str::trim` removes and what the regex class `\s` matches. */
  predicate IsWhitespace(c: char) {
    var n := c as int;
    (0x09 <= n <= 0x0D) || n == 0x20 || n == 0x85 || n == 0xA0 || n == 0x1680
    || (0x2000 <= n <= 0x200A) || n == 0x2028 || n == 0x2029 || n == 0x202F
    || n == 0x205F || n == 0x3000
  }

  /** `str::trim_start`: drops leading whitespace and nothing else. */
  function TrimStart(s: string): (r: string)
    ensures |r| <= |s| && r == s[|s| - |r|..]
    ensures r == [] || !IsWhitespace(r[0])
    decreases |s|
  {
    if |s| > 0 && IsWhitespace(s[0]) then TrimStart(s[1..]) else s
  }

  /** `str::trim_end`: drops trailing whitespace and nothing else. */
  function TrimEnd(s: string): (r: string)
    ensures |r| <= |s| && r == s[..|r|]
    ensures r == [] || !IsWhitespace(r[|r| - 1])
    decreases |s|
  {
    if |s| > 0 && IsWhitespace(s[|s| - 1]) then TrimEnd(s[..|s| - 1]) else s
  }

  /** `str::trim`. */
  function Trim(s: string): string {
    TrimStart(TrimEnd(s))
  }

  /** Trimming twice trims no more than trimming once. */
  lemma {:induction false} TrimIdempotent(s: string)
    ensures Trim(Trim(s)) == Trim(s)
  {
    var t := TrimEnd(s);
    var r := TrimStart(t);
    if r != [] {
      assert r[|r| - 1] == t[|t| - 1];
    }
    TrimUnchanged(r);
  }

  /** Trimming keeps a pattern out of a text that does not contain it. */
  lemma {:induction false} TrimKeepsAbsence(s: string, pat: string)
    requires !Contains(s, pat)
    ensures !Contains(Trim(s), pat)
  {
    var t := TrimEnd(s);
    var r := TrimStart(t);
    var a := |t| - |r|;
    assert r == s[a..|t|];
    forall k | 0 <= k <= |r| && OccursAt(r, pat, k)
      ensures OccursAt(s, pat, a + k)
    {
      OccursInSlice(s, a, |t|, pat, k);
    }
  }

  /** An occurrence inside a slice is an occurrence in the whole text. */
  lemma {:induction false} OccursInSlice(s: string, i: nat, j: nat, pat: string, k: nat)
    requires i <= j <= |s| && OccursAt(s[i..j], pat, k)
    ensures OccursAt(s, pat, i + k)
  {
    SliceOfSlice(s, i, j, k, k + |pat|);
  }

  /** Trimming a text that neither starts nor ends with whitespace leaves it alone. */
  lemma {:induction false} TrimUnchanged(s: string)
    requires s == [] || (!IsWhitespace(s[0]) && !IsWhitespace(s[|s| - 1]))
    ensures Trim(s) == s
  {
  }

  /** A trailing newline is trimmed away. */
  lemma {:induction false} TrimTrailingNewline(s: string)
    requires s == [] || (!IsWhitespace(s[0]) && !IsWhitespace(s[|s| - 1]))
    ensures Trim(s + "\n") == s
  {
    assert (s + "\n")[..|s|] == s;
    assert TrimEnd(s + "\n") == TrimEnd(s);
  }

  /** The first index at or after `from` holding `c`, or `|s|` when there is none. */
  function IndexOf(s: string, c: char, from: nat): (i: nat)
    requires from <= |s|
    ensures from <= i <= |s|
    ensures i < |s| ==> s[i] == c
    ensures forall k :: from <= k < i ==> s[k] != c
    decreases |s| - from
  {
    if from == |s| || s[from] == c then from else IndexOf(s, c, from + 1)
  }

  /** A piece without `c` followed by `c`: the search from the piece's start stops right after it. */
  lemma {:induction false} IndexOfPiece(s: string, c: char, from: nat, piece: string)
    requires from + |piece| < |s| && s[from..from + |piece|] == piece && s[from + |piece|] == c
    requires c !in piece
    ensures IndexOf(s, c, from) == from + |piece|
  {
    forall k | from <= k < from + |piece|
      ensures s[k] != c
    {
      assert s[k] == s[from..from + |piece|][k - from];
    }
  }

  /** `pat` occurs in `s` starting at index `i`. */
  predicate OccursAt(s: string, pat: string, i: nat) {
    i + |pat| <= |s| && s[i..i + |pat|] == pat
  }

  /** `str::find` starting at `from`: the first occurrence of `pat` at or after `from`. */
  function FindFrom(s: string, pat: string, from: nat): (r: Option<nat>)
    ensures r.Some? ==> from <= r.value && OccursAt(s, pat, r.value)
    ensures r.Some? ==> forall k :: from <= k < r.value ==> !OccursAt(s, pat, k)
    ensures r.None? ==> forall k :: from <= k ==> !OccursAt(s, pat, k)
    decreases |s| - from
  {
    if from + |pat| > |s| then None
    else if OccursAt(s, pat, from) then Some(from)
    else FindFrom(s, pat, from + 1)
  }

  /** One character that differs from the pattern rules out an occurrence there. */
  lemma {:induction false} NotOccursAt(s: string, pat: string, i: nat, k: nat)
    requires k < |pat| && i + k < |s| && s[i + k] != pat[k]
    ensures !OccursAt(s, pat, i)
  {
    if i + |pat| <= |s| {
      assert s[i..i + |pat|][k] == s[i + k];
    }
  }

  /** An occurrence with none before it, from `from` on, is the one `find` reports. */
  lemma {:induction false} FindFromAt(s: string, pat: string, from: nat, q: nat)
    requires from <= q && OccursAt(s, pat, q)
    requires forall k :: from <= k < q ==> !OccursAt(s, pat, k)
    ensures FindFrom(s, pat, from) == Some(q)
    decreases q - from
  {
    if from < q {
      FindFromAt(s, pat, from + 1, q);
    }
  }

  /** `pat` occurs somewhere in `s`. */
  predicate Contains(s: string, pat: string) {
    exists k :: 0 <= k <= |s| && OccursAt(s, pat, k)
  }

  /** `join(sep)` on a slice of strings. */
  function Join(parts: seq<string>, sep: string): string
    decreases |parts|
  {
    if |parts| == 0 then ""
    else if |parts| == 1 then parts[0]
    else parts[0] + sep + Join(parts[1..], sep)
  }

  /**
   * The unanchored search of a regular expression: the leftmost start in `from..end` at which
   * `matchAt` reports a match.
   */
  function FirstMatch<T>(matchAt: nat -> Option<T>, from: nat, end: nat): (r: Option<nat>)
    ensures r.Some? ==> from <= r.value <= end && matchAt(r.value).Some?
    ensures r.Some? ==> forall q :: from <= q < r.value ==> matchAt(q).None?
    ensures r.None? ==> forall q :: from <= q <= end ==> matchAt(q).None?
    decreases end + 1 - from
  {
    if from > end then None
    else if matchAt(from).Some? then Some(from)
    else FirstMatch(matchAt, from + 1, end)
  }

  /** A start where the pattern matches, with no match before it, is the leftmost match. */
  lemma {:induction false} FirstMatchAt<T>(matchAt: nat -> Option<T>, from: nat, end: nat, p: nat)
    requires from <= p <= end && matchAt(p).Some?
    requires forall q :: from <= q < p ==> matchAt(q).None?
    ensures FirstMatch(matchAt, from, end) == Some(p)
  {
    var r := FirstMatch(matchAt, from, end);
    assert r.Some?;
  }

  /** One element more of a sequence's prefix. */
  lemma {:induction false} PrefixSnoc<T>(s: seq<T>, i: nat)
    requires i < |s|
    ensures s[..i + 1] == s[..i] + [s[i]]
  {
  }

  /** A slice cut at one of its elements: the part before it, the element, and the part after it. */
  lemma {:induction false} SliceAround<T>(s: seq<T>, a: nat, i: nat, b: nat)
    requires a <= i < b <= |s|
    ensures s[a..b] == s[a..i] + ([s[i]] + s[i + 1..b])
  {
    assert s[a..b] == s[a..i] + s[i..b];
    assert s[i..b] == [s[i]] + s[i + 1..b];
  }

  /** A slice of a slice is a slice of the whole. */
  lemma {:induction false} SliceOfSlice<T>(s: seq<T>, i: nat, j: nat, a: nat, b: nat)
    requires i <= j <= |s| && a <= b <= j - i
    ensures s[i..j][a..b] == s[i + a..i + b]
  {
    var inner := s[i..j];
    forall k | 0 <= k < b - a
      ensures inner[a..b][k] == s[i + a..i + b][k]
    {
      assert inner[a..b][k] == inner[a + k] == s[i + a + k];
    }
  }

  /** Joining a first part onto a non-empty list puts one separator between them. */
  lemma {:induction false} JoinCons(first: string, rest: seq<string>, sep: string)
    requires rest != []
    ensures Join([first] + rest, sep) == first + sep + Join(rest, sep)
  {
    assert ([first] + rest)[1..] == rest;
  }

  /** `str::split` with a non-empty string pattern: the pieces between the occurrences of `sep`. */
  function SplitOn(s: string, sep: string): (r: seq<string>)
    requires |sep| > 0
    ensures |r| > 0
    decreases |s|
  {
    match FindFrom(s, sep, 0)
    case None => [s]
    case Some(i) => [s[..i]] + SplitOn(s[i + |sep|..], sep)
  }

  /** An occurrence inside a prefix is an occurrence in the whole text. */
  lemma {:induction false} OccursInPrefix(s: string, i: nat, pat: string, k: nat)
    requires i <= |s| && OccursAt(s[..i], pat, k)
    ensures OccursAt(s, pat, k)
  {
    assert s[..i][k..k + |pat|] == s[k..k + |pat|];
  }

  /** The text before the first occurrence of a non-empty pattern does not contain it. */
  lemma {:induction false} NoOccurrenceBeforeFirst(s: string, pat: string, i: nat)
    requires |pat| > 0 && FindFrom(s, pat, 0) == Some(i)
    ensures !Contains(s[..i], pat)
  {
    forall k | 0 <= k <= i && OccursAt(s[..i], pat, k) ensures false {
      OccursInPrefix(s, i, pat, k);
    }
  }

  /** The text around the first occurrence of `pat`. */
  lemma {:induction false} SplitAtOccurrence(s: string, pat: string, i: nat)
    requires OccursAt(s, pat, i)
    ensures s == s[..i] + pat + s[i + |pat|..]
  {
    assert s[i..i + |pat|] == pat;
  }

  /** Splitting and joining again with the same separator gives back the text. */
  lemma {:induction false} SplitOnJoin(s: string, sep: string)
    requires |sep| > 0
    ensures Join(SplitOn(s, sep), sep) == s
    decreases |s|
  {
    match FindFrom(s, sep, 0)
    case None =>
    case Some(i) =>
      var rest := s[i + |sep|..];
      SplitOnJoin(rest, sep);
      var tail := SplitOn(rest, sep);
      assert SplitOn(s, sep) == [s[..i]] + tail;
      JoinCons(s[..i], tail, sep);
      SplitAtOccurrence(s, sep, i);
  }

  /** No piece of a split holds the separator. */
  lemma {:induction false} SplitOnPieces(s: string, sep: string)
    requires |sep| > 0
    ensures forall k :: 0 <= k < |SplitOn(s, sep)| ==> !Contains(SplitOn(s, sep)[k], sep)
    decreases |s|
  {
    match FindFrom(s, sep, 0)
    case None =>
    case Some(i) =>
      var rest := s[i + |sep|..];
      SplitOnPieces(rest, sep);
      NoOccurrenceBeforeFirst(s, sep, i);
      var tail := SplitOn(rest, sep);
      assert SplitOn(s, sep) == [s[..i]] + tail;
  }

  /** `str::splitn(2, sep)`: the text before the first `sep`, and the text after it if there is one. */
  function SplitOnce(s: string, sep: string): (r: (string, Option<string>))
    requires |sep| > 0
    ensures r.1.None? <==> !Contains(s, sep)
    ensures r.1.None? ==> r.0 == s
    ensures r.1.Some? ==> s == r.0 + sep + r.1.value && !Contains(r.0, sep)
  {
    match FindFrom(s, sep, 0)
    case None => (s, None)
    case Some(i) =>
      assert OccursAt(s, sep, i);
      SplitAtOccurrence(s, sep, i);
      NoOccurrenceBeforeFirst(s, sep, i);
      (s[..i], Some(s[i + |sep|..]))
  }

  /** `splitn(2, sep)` cuts at an occurrence with none before it. */
  lemma {:induction false} SplitOnceAt(s: string, sep: string, before: string, after: string)
    requires |sep| > 0 && s == before + sep + after
    requires forall q :: 0 <= q < |before| ==> !OccursAt(s, sep, q)
    ensures SplitOnce(s, sep) == (before, Some(after))
  {
    assert s[|before|..|before| + |sep|] == sep;
    FindFromAt(s, sep, 0, |before|);
    assert s[..|before|] == before;
    assert s[|before| + |sep|..] == after;
  }

  /** Removes one trailing carriage return. */
  function StripCarriageReturn(line: string): string {
    if |line| > 0 && line[|line| - 1] == '\r' then line[..|line| - 1] else line
  }

  /**
   * `str::lines`: splits after each `\n`, removes the `\n` (and a `\r` before it);
   * a last line without `\n` is kept as it is, and no empty line follows a final `\n`.
   */
  function Lines(s: string): seq<string>
    decreases |s|
  {
    if s == [] then []
    else
      var i := IndexOf(s, '\n', 0);
      if i == |s| then [s] else [StripCarriageReturn(s[..i])] + Lines(s[i + 1..])
  }

  /** A line without newline and trailing carriage return, followed by `\n`, is the first of the lines. */
  lemma {:induction false} LinesCons(line: string, rest: string)
    requires '\n' !in line && (line == [] || line[|line| - 1] != '\r')
    ensures Lines(line + "\n" + rest) == [line] + Lines(rest)
  {
    var s := line + "\n" + rest;
    assert s[|line|] == '\n';
    assert forall k :: 0 <= k < |line| ==> s[k] == line[k];
    var i := IndexOf(s, '\n', 0);
    assert i == |line|;
    assert s[..i] == line;
    assert s[i + 1..] == rest;
  }

  /** Two lines joined by a newline. */
  lemma {:induction false} LinesPair(first: string, second: string)
    requires '\n' !in first && (first == [] || first[|first| - 1] != '\r')
    requires '\n' !in second && second != []
    ensures Lines(first + "\n" + second) == [first, second]
  {
    LinesCons(first, second);
    LinesSingle(second);
  }

  /** Two lines, a newline, and then more text. */
  lemma {:induction false} LinesPairThen(first: string, second: string, tail: string)
    requires '\n' !in first && (first == [] || first[|first| - 1] != '\r')
    requires '\n' !in second && (second == [] || second[|second| - 1] != '\r')
    ensures Lines((first + "\n" + second) + "\n" + tail) == [first, second] + Lines(tail)
  {
    var rest := second + "\n" + tail;
    calc {
      Lines((first + "\n" + second) + "\n" + tail);
      { assert (first + "\n" + second) + "\n" + tail == first + "\n" + rest; }
      Lines(first + "\n" + rest);
      { LinesCons(first, rest); }
      [first] + Lines(rest);
      { LinesCons(second, tail); }
      [first] + ([second] + Lines(tail));
      [first, second] + Lines(tail);
    }
  }

  /** A non-empty text without newline is a single line. */
  lemma {:induction false} LinesSingle(line: string)
    requires '\n' !in line && line != []
    ensures Lines(line) == [line]
  {
    assert IndexOf(line, '\n', 0) == |line|;
  }
}
