/** Wrapping a detail field to the width of the terminal (lltop/src/tui/format.rs).
    Text is a sequence of characters: every cut falls between characters, so the
    UTF-8 offsets of the source need no model. The display width of a string is a
    parameter, and need not be the sum of its characters' widths. */
module Wrap {
  import opened Events

  /** The columns a string takes on the terminal. */
  type Width = string -> nat

  function Max(a: nat, b: nat): nat { if a < b then b else a }

  /** The widths of the characters added up. */
  function CharSum(width: Width, text: string): nat {
    if text == "" then 0 else CharSum(width, text[..|text| - 1]) + width([text[|text| - 1]])
  }

  ghost predicate Additive(width: Width) {
    width("") == 0 && forall a: string, b: string :: width(a + b) == width(a) + width(b)
  }

  function Concat(lines: seq<string>): string {
    if lines == [] then "" else lines[0] + Concat(lines[1..])
  }

  // ----- one line -----

  /** How many leading characters fit, the first `i` of them already known to. */
  function FitFrom(width: Width, text: string, i: nat, used: nat, limit: nat): (n: nat)
    requires i <= |text| && used == CharSum(width, text[..i]) <= limit
    ensures i <= n <= |text| && CharSum(width, text[..n]) <= limit
    ensures n < |text| ==> CharSum(width, text[..n + 1]) > limit
    decreases |text| - i
  {
    if i == |text| then i
    else
      assert text[..i + 1][..i] == text[..i];
      var next := used + width([text[i]]);
      if next > limit then i else FitFrom(width, text, i + 1, next, limit)
  }

  lemma FitStep(width: Width, text: string, i: nat, used: nat, limit: nat)
    requires i < |text| && used == CharSum(width, text[..i]) <= limit
    ensures var next := used + width([text[i]]);
            if next > limit then FitFrom(width, text, i, used, limit) == i
            else next == CharSum(width, text[..i + 1]) &&
                 FitFrom(width, text, i, used, limit) == FitFrom(width, text, i + 1, next, limit)
  {
    assert text[..i + 1][..i] == text[..i];
  }

  /** The longest fitting prefix, or one character when none fits. */
  function Candidate(width: Width, text: string, limit: nat): (n: nat)
    requires text != ""
    ensures 0 < n <= |text|
    ensures n == 1 || CharSum(width, text[..n]) <= limit
    ensures n < |text| ==> CharSum(width, text[..n + 1]) > limit || (n == 1 && CharSum(width, text[..1]) > limit)
  {
    var n := FitFrom(width, text, 0, 0, limit);
    if n == 0 then 1 else n
  }

  predicate Occurs(text: string, needle: string, i: nat) {
    i + |needle| <= |text| && text[i..i + |needle|] == needle
  }

  function RFindBefore(text: string, needle: string, end: nat): (r: Option<nat>)
    requires needle != ""
    ensures r.Some? ==> r.value < end && Occurs(text, needle, r.value)
    ensures forall i: nat :: i < end && (r.Some? ==> r.value < i) ==> !Occurs(text, needle, i)
  {
    if end == 0 then None
    else if Occurs(text, needle, end - 1) then Some(end - 1)
    else RFindBefore(text, needle, end - 1)
  }

  /** The last occurrence. */
  function RFind(text: string, needle: string): (r: Option<nat>)
    requires needle != ""
    ensures r.Some? ==> Occurs(text, needle, r.value)
    ensures forall i: nat :: Occurs(text, needle, i) ==> r.Some? && i <= r.value
  {
    RFindBefore(text, needle, |text|)
  }

  /** Where to cut: after the last ", ", else the last '/', else the last ' ', else at the end. */
  function SplitPoint(candidate: string): (n: nat)
    requires candidate != ""
    ensures 0 < n <= |candidate|
  {
    var comma, slash, space := RFind(candidate, ", "), RFind(candidate, "/"), RFind(candidate, " ");
    if comma.Some? then comma.value + 2
    else if slash.Some? then slash.value + 1
    else if space.Some? then space.value + 1
    else |candidate|
  }

  function LineLength(width: Width, text: string, limit: nat): (n: nat)
    requires text != ""
    ensures 0 < n <= |text|
  {
    SplitPoint(text[..Candidate(width, text, limit)])
  }

  /** The lines of a text, the first within `limit`. */
  function Lines(width: Width, text: string, limit: nat, continuation: nat): (lines: seq<string>)
    ensures lines != []
    decreases |text|
  {
    if text == "" || width(text) <= limit then [text]
    else
      var n := LineLength(width, text, limit);
      [text[..n]] + Lines(width, text[n..], continuation, continuation)
  }

  /** The scan over the characters of what is left. */
  method CandidateEnd(width: Width, text: string, limit: nat) returns (end: nat)
    requires text != ""
    ensures end == Candidate(width, text, limit)
  {
    var used, i := 0, 0;
    end := 0;
    assert text[..0] == "";
    ghost var fit := FitFrom(width, text, 0, 0, limit);
    while i < |text|
      invariant i <= |text| && end == i && used == CharSum(width, text[..i]) <= limit
      invariant FitFrom(width, text, i, used, limit) == fit
    {
      FitStep(width, text, i, used, limit);
      var characterWidth := width([text[i]]);
      if used + characterWidth > limit {
        if end == 0 { end := i + 1; }
        return;
      }
      used := used + characterWidth;
      i := i + 1;
      end := i;
    }
  }

  /** Cutting one line off moves it to those already cut. */
  lemma LinesStep(width: Width, lines: seq<string>, text: string, limit: nat, continuation: nat)
    requires text != "" && width(text) > limit
    ensures var n := LineLength(width, text, limit);
            lines + Lines(width, text, limit, continuation) ==
            (lines + [text[..n]]) + Lines(width, text[n..], continuation, continuation)
  {
    var n := LineLength(width, text, limit);
    var rest := Lines(width, text[n..], continuation, continuation);
    assert lines + ([text[..n]] + rest) == (lines + [text[..n]]) + rest;
  }

  method Wrap(width: Width, text: string, firstWidth: nat, continuationWidth: nat) returns (lines: seq<string>)
    requires width("") == 0
    ensures lines == Lines(width, text, Max(firstWidth, 1), Max(continuationWidth, 1))
  {
    if text == "" {
      return [""];
    }
    var remaining, limit := text, Max(firstWidth, 1);
    ghost var continuation := Max(continuationWidth, 1);
    lines := [];
    while width(remaining) > limit
      invariant limit > 0
      invariant Lines(width, text, Max(firstWidth, 1), continuation) ==
                lines + Lines(width, remaining, limit, continuation)
      decreases |remaining|
    {
      var end := CandidateEnd(width, remaining, limit);
      var split := SplitPoint(remaining[..end]);
      LinesStep(width, lines, remaining, limit, continuation);
      lines := lines + [remaining[..split]];
      remaining := remaining[split..];
      limit := Max(continuationWidth, 1);
    }
    lines := lines + [remaining];
  }

  // ----- what the lines are -----

  /** Nothing is lost, added or reordered. */
  lemma {:induction false} LinesConcat(width: Width, text: string, limit: nat, continuation: nat)
    ensures Concat(Lines(width, text, limit, continuation)) == text
    decreases |text|
  {
    if text == "" || width(text) <= limit {
      assert Lines(width, text, limit, continuation)[1..] == [];
    } else {
      var n := LineLength(width, text, limit);
      LinesConcat(width, text[n..], continuation, continuation);
      assert Lines(width, text, limit, continuation)[1..] == Lines(width, text[n..], continuation, continuation);
      assert text == text[..n] + text[n..];
    }
  }

  lemma {:induction false} CharSumGrows(width: Width, text: string, i: nat, j: nat)
    requires i <= j <= |text|
    ensures CharSum(width, text[..i]) <= CharSum(width, text[..j])
    decreases j
  {
    if i < j {
      assert text[..j][..j - 1] == text[..j - 1];
      CharSumGrows(width, text, i, j - 1);
    }
  }

  /** A cut line fits its width, or is the one character that does not. */
  predicate LineFits(width: Width, line: string, limit: nat) {
    |line| == 1 || (line != "" && CharSum(width, line) <= limit)
  }

  lemma LineLengthFits(width: Width, text: string, limit: nat)
    requires text != ""
    ensures LineFits(width, text[..LineLength(width, text, limit)], limit)
  {
    var n, m := LineLength(width, text, limit), Candidate(width, text, limit);
    CharSumGrows(width, text, n, m);
  }

  function LimitAt(i: nat, limit: nat, continuation: nat): nat {
    if i == 0 then limit else continuation
  }

  /** Every line but the last was cut to fit and holds something; the last is displayed within its width. */
  lemma {:induction false} LinesFit(width: Width, text: string, limit: nat, continuation: nat)
    requires width("") == 0
    ensures var lines := Lines(width, text, limit, continuation);
            && (forall i :: 0 <= i < |lines| - 1 ==> LineFits(width, lines[i], LimitAt(i, limit, continuation)))
            && width(lines[|lines| - 1]) <= LimitAt(|lines| - 1, limit, continuation)
    decreases |text|
  {
    if text != "" && width(text) > limit {
      var n := LineLength(width, text, limit);
      var first, rest := text[..n], Lines(width, text[n..], continuation, continuation);
      var lines := [first] + rest;
      LineLengthFits(width, text, limit);
      LinesFit(width, text[n..], continuation, continuation);
      forall i | 0 <= i < |lines| - 1 ensures LineFits(width, lines[i], LimitAt(i, limit, continuation)) {
        if i > 0 { assert lines[i] == rest[i - 1]; }
      }
      assert lines[|lines| - 1] == rest[|rest| - 1];
    }
  }

  ghost predicate Absent(text: string, needle: string) {
    forall i: nat :: !Occurs(text, needle, i)
  }

  /** `n` is where the last occurrence ends. */
  ghost predicate EndsLast(text: string, needle: string, n: nat) {
    && |needle| <= n
    && Occurs(text, needle, n - |needle|)
    && forall i: nat :: Occurs(text, needle, i) ==> i + |needle| <= n
  }

  /** `n` is the end of the last separator of the most preferred kind, or of a text that holds none. */
  ghost predicate Splits(candidate: string, n: nat) {
    if !Absent(candidate, ", ") then EndsLast(candidate, ", ", n)
    else if !Absent(candidate, "/") then EndsLast(candidate, "/", n)
    else if !Absent(candidate, " ") then EndsLast(candidate, " ", n)
    else n == |candidate|
  }

  lemma SplitPrefersSeparators(candidate: string)
    requires candidate != ""
    ensures Splits(candidate, SplitPoint(candidate))
  {
    LastEnds(candidate, ", ");
    LastEnds(candidate, "/");
    LastEnds(candidate, " ");
  }

  lemma LastEnds(text: string, needle: string)
    requires needle != ""
    ensures var r := RFind(text, needle);
            if r.Some? then EndsLast(text, needle, r.value + |needle|) && !Absent(text, needle)
            else Absent(text, needle)
  {
  }

  /** The longest prefix that fits, or one character when none does. */
  predicate Longest(width: Width, text: string, limit: nat, m: nat) {
    && 0 < m <= |text|
    && (CharSum(width, text[..m]) <= limit || m == 1)
    && (m < |text| ==> CharSum(width, text[..m + 1]) > limit)
  }

  /** The line is cut off a text too wide for it, at a separator of the longest part that fits. */
  ghost predicate CutFrom(width: Width, text: string, line: string, limit: nat) {
    && width(text) > limit && line <= text
    && exists m: nat :: Longest(width, text, limit, m) && Splits(text[..m], |line|)
  }

  lemma LineIsCut(width: Width, text: string, limit: nat)
    requires text != "" && width(text) > limit
    ensures CutFrom(width, text, text[..LineLength(width, text, limit)], limit)
  {
    var m := Candidate(width, text, limit);
    if m < |text| { CharSumGrows(width, text, m, m + 1); }
    assert Longest(width, text, limit, m);
    SplitPrefersSeparators(text[..m]);
  }

  /** Every line but the last is cut off what was left of the text before it. */
  lemma {:induction false} LinesCut(width: Width, text: string, limit: nat, continuation: nat, i: nat)
    requires i < |Lines(width, text, limit, continuation)| - 1
    ensures var lines := Lines(width, text, limit, continuation);
            CutFrom(width, Concat(lines[i..]), lines[i], LimitAt(i, limit, continuation))
    decreases |text|
  {
    var lines := Lines(width, text, limit, continuation);
    var n := LineLength(width, text, limit);
    var rest := Lines(width, text[n..], continuation, continuation);
    assert lines == [text[..n]] + rest;
    if i == 0 {
      LinesConcat(width, text, limit, continuation);
      assert lines[0..] == lines;
      LineIsCut(width, text, limit);
    } else {
      LinesCut(width, text[n..], continuation, continuation, i - 1);
      assert lines[i..] == rest[i - 1..];
    }
  }

  // ----- the trailing empty line -----

  lemma {:induction false} AdditiveSum(width: Width, text: string)
    requires Additive(width)
    ensures width(text) == CharSum(width, text)
  {
    if text != "" {
      var n := |text| - 1;
      AdditiveSum(width, text[..n]);
      assert text == text[..n] + [text[n]];
    }
  }

  /** The whole rest of a text becomes one cut line only when it is one over-wide character. */
  lemma CutLeavesRest(width: Width, text: string, limit: nat)
    requires Additive(width) && text != "" && width(text) > limit
    ensures LineLength(width, text, limit) == |text| <==> |text| == 1
  {
    LineLengthFits(width, text, limit);
    AdditiveSum(width, text);
    assert text[..|text|] == text;
  }

  /** The text ends in a character wider than the line it would stand on. */
  predicate EndsOverWide(width: Width, text: string, limit: nat, continuation: nat) {
    && text != "" && width(text) > limit
    && (|text| == 1 || width([text[|text| - 1]]) > continuation)
  }

  lemma LastCharacter(width: Width, text: string)
    requires Additive(width) && text != ""
    ensures width(text) >= width([text[|text| - 1]])
    ensures |text| == 1 ==> width(text) == width([text[|text| - 1]])
  {
    var n := |text| - 1;
    assert text == text[..n] + [text[n]];
  }

  /** Cutting a line off leaves the end of the text as it was. */
  lemma EndsOverWideKept(width: Width, text: string, limit: nat, continuation: nat)
    requires Additive(width) && text != "" && width(text) > limit
    ensures var rest := text[LineLength(width, text, limit)..];
            rest == "" || EndsOverWide(width, rest, continuation, continuation) <==>
            EndsOverWide(width, text, limit, continuation)
  {
    var rest := text[LineLength(width, text, limit)..];
    CutLeavesRest(width, text, limit);
    if rest != "" { LastCharacter(width, rest); }
  }

  /** An empty last line follows a text exactly when the text ends over-wide. */
  lemma {:induction false} TrailingEmptyLine(width: Width, text: string, limit: nat, continuation: nat)
    requires Additive(width)
    ensures var lines := Lines(width, text, limit, continuation);
            lines[|lines| - 1] == "" <==> text == "" || EndsOverWide(width, text, limit, continuation)
    decreases |text|
  {
    if text != "" && width(text) > limit {
      TrailingEmptyLine(width, text[LineLength(width, text, limit)..], continuation, continuation);
      EndsOverWideKept(width, text, limit, continuation);
    }
  }

  /** Two columns for one wide character and a width of one: the text and then an empty line. */
  lemma OverWideExample(width: Width, wide: char)
    requires width([wide]) == 2 && width("") == 0
    ensures Lines(width, [wide], 1, 1) == [[wide], ""]
  {
    var n := LineLength(width, [wide], 1);
    assert [wide][..n] == [wide] && [wide][n..] == "";
  }
}
