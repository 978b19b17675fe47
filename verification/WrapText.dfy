/** `wrapText` of internal/client/tui/tui.go. Text is a sequence of bytes, as Go indexes it. */
module WrapText {
  /** The last space at a position from 1 to i, or 0. */
  function LastSpace(text: string, i: int): (b: nat)
    requires i < |text|
    ensures b == 0 || (b <= i && text[b] == ' ')
    ensures forall j :: b < j <= i ==> text[j] != ' '
  {
    if i <= 0 then 0 else if text[i] == ' ' then i else LastSpace(text, i - 1)
  }

  /** Where a text longer than the width is broken. */
  function BreakPoint(text: string, width: nat): (b: nat)
    requires 0 < width < |text|
    ensures 0 < b <= width
    ensures b < width ==> text[b] == ' '
    ensures forall j :: b < j < width ==> text[j] != ' '
    ensures b == width ==> forall j :: 0 < j < width ==> text[j] != ' '
  {
    var b := LastSpace(text, width - 1);
    if b > 0 then b else width
  }

  /** What is swallowed at the break: one space if there is one. */
  function Separator(text: string, width: nat): string
    requires 0 < width < |text|
  {
    if text[BreakPoint(text, width)] == ' ' then " " else ""
  }

  function Rest(text: string, width: nat): string
    requires 0 < width < |text|
  {
    text[BreakPoint(text, width) + |Separator(text, width)|..]
  }

  function Lines(text: string, width: nat): seq<string>
    requires 0 < width
    decreases |text|
  {
    if text == "" then []
    else if |text| <= width then [text]
    else [text[..BreakPoint(text, width)]] + Lines(Rest(text, width), width)
  }

  function Separators(text: string, width: nat): seq<string>
    requires 0 < width
    decreases |text|
  {
    if text == "" then []
    else if |text| <= width then [""]
    else [Separator(text, width)] + Separators(Rest(text, width), width)
  }

  function Width(maxLen: int): nat { if maxLen <= 0 then 70 else maxLen }

  function Wrapped(text: string, maxLen: int): seq<string> {
    if |text| <= Width(maxLen) then [text] else Lines(text, Width(maxLen))
  }

  /** The inner loop: it looks for the last space below the width, from the back. */
  method FindBreakPoint(text: string, width: nat) returns (breakPoint: nat)
    requires 0 < width < |text|
    ensures breakPoint == BreakPoint(text, width)
  {
    breakPoint := width;
    var i := width - 1;
    while i > 0
      invariant 0 <= i < width && breakPoint == width
      invariant LastSpace(text, width - 1) == LastSpace(text, i)
    {
      if text[i] == ' ' {
        breakPoint := i;
        break;
      }
      i := i - 1;
    }
  }

  /** What is left after a line was cut off: the space it was broken at is skipped. */
  method AfterBreak(text: string, width: nat, breakPoint: nat) returns (rest: string)
    requires 0 < width < |text| && breakPoint == BreakPoint(text, width)
    ensures rest == Rest(text, width) && |rest| < |text|
  {
    var from := breakPoint;
    if from < |text| && text[from] == ' ' {
      from := from + 1;
    }
    rest := text[from..];
  }

  method WrapText(text: string, maxLen: int) returns (lines: seq<string>)
    ensures lines == Wrapped(text, maxLen)
  {
    var width := maxLen;
    if width <= 0 {
      width := 70;
    }
    if |text| <= width {
      return [text];
    }
    lines := [];
    var t := text;
    while |t| > width
      invariant Lines(text, width) == lines + Lines(t, width)
      decreases |t|
    {
      var breakPoint := FindBreakPoint(t, width);
      LinesStep(lines, t, width);
      lines := lines + [t[..breakPoint]];
      t := AfterBreak(t, width, breakPoint);
    }
    if |t| > 0 {
      lines := lines + [t];
    }
  }

  lemma LinesStep(before: seq<string>, t: string, width: nat)
    requires 0 < width < |t|
    ensures before + Lines(t, width) == before + [t[..BreakPoint(t, width)]] + Lines(Rest(t, width), width)
  {
  }

  /** Every line fits, and no line is empty unless the text is. */
  lemma {:induction false} LinesFit(text: string, width: nat)
    requires 0 < width
    ensures forall i :: 0 <= i < |Lines(text, width)| ==> 0 < |Lines(text, width)[i]| <= width
    decreases |text|
  {
    if |text| > width {
      LinesFit(Rest(text, width), width);
    }
  }

  /** Lines and separators in turn. */
  function Interleave(lines: seq<string>, separators: seq<string>): string
    requires |lines| == |separators|
  {
    if lines == [] then "" else lines[0] + separators[0] + Interleave(lines[1..], separators[1..])
  }

  lemma SplitAtBreak(text: string, width: nat)
    requires 0 < width < |text|
    ensures text == text[..BreakPoint(text, width)] + Separator(text, width) + Rest(text, width)
  {
  }

  lemma InterleaveCons(line: string, separator: string, lines: seq<string>, separators: seq<string>)
    requires |lines| == |separators|
    ensures Interleave([line] + lines, [separator] + separators) == line + separator + Interleave(lines, separators)
  {
    assert ([line] + lines)[1..] == lines && ([separator] + separators)[1..] == separators;
  }

  lemma {:induction false} LinesRebuildText(text: string, width: nat)
    requires 0 < width
    ensures |Lines(text, width)| == |Separators(text, width)|
    ensures forall i :: 0 <= i < |Separators(text, width)| ==> Separators(text, width)[i] == "" || Separators(text, width)[i] == " "
    ensures Interleave(Lines(text, width), Separators(text, width)) == text
    decreases |text|
  {
    if text != "" {
      if |text| > width {
        var rest := Rest(text, width);
        LinesRebuildText(rest, width);
        InterleaveCons(text[..BreakPoint(text, width)], Separator(text, width), Lines(rest, width), Separators(rest, width));
        SplitAtBreak(text, width);
      } else {
        assert [text][1..] == [];
      }
    }
  }

  ghost predicate Rebuilds(lines: seq<string>, separators: seq<string>, text: string) {
    && |separators| == |lines|
    && (forall i :: 0 <= i < |separators| ==> separators[i] == "" || separators[i] == " ")
    && Interleave(lines, separators) == text
  }

  function NonSpaces(s: string): string {
    if s == "" then "" else NonSpaces(s[..|s| - 1]) + if s[|s| - 1] == ' ' then "" else [s[|s| - 1]]
  }

  lemma {:induction false} NonSpacesConcat(s: string, t: string)
    ensures NonSpaces(s + t) == NonSpaces(s) + NonSpaces(t)
  {
    if t == "" {
      assert s + t == s;
    } else {
      NonSpacesConcat(s, t[..|t| - 1]);
      assert (s + t)[..|s + t| - 1] == s + t[..|t| - 1];
    }
  }

  function Joined(lines: seq<string>): string {
    if lines == [] then "" else lines[0] + Joined(lines[1..])
  }

  lemma {:induction false} InterleaveKeepsNonSpaces(lines: seq<string>, separators: seq<string>)
    requires |lines| == |separators| && forall i :: 0 <= i < |separators| ==> separators[i] == "" || separators[i] == " "
    ensures NonSpaces(Interleave(lines, separators)) == NonSpaces(Joined(lines))
  {
    if lines != [] {
      InterleaveKeepsNonSpaces(lines[1..], separators[1..]);
      NonSpacesConcat(lines[0] + separators[0], Interleave(lines[1..], separators[1..]));
      NonSpacesConcat(lines[0], separators[0]);
      NonSpacesConcat(lines[0], Joined(lines[1..]));
      assert NonSpaces(" ") == "" by { assert " "[..0] == ""; }
    }
  }

  /**
   Wrapping loses nothing but break spaces. For every text and width: each line fits the effective width
   and is nonempty unless the text is; the text is the lines with an empty separator or one space after
   each; and the characters other than spaces are all there, in order.
   */
  lemma WrappingLosesOnlyBreakSpaces(text: string, maxLen: int)
    ensures var lines := Wrapped(text, maxLen); var width := if maxLen <= 0 then 70 else maxLen;
            && lines != [] && (|text| <= width ==> lines == [text])
            && (forall i :: 0 <= i < |lines| ==> |lines[i]| <= width && (lines[i] == "" ==> text == ""))
            && (exists separators :: Rebuilds(lines, separators, text))
            && NonSpaces(Joined(lines)) == NonSpaces(text)
  {
    var lines, width := Wrapped(text, maxLen), Width(maxLen);
    LinesFit(text, width);
    LinesRebuildText(text, width);
    var separators := if text == "" then [""] else Separators(text, width);
    assert Interleave(lines, separators) == text by {
      if text == "" { assert [""][1..] == []; }
    }
    assert Rebuilds(lines, separators, text);
    InterleaveKeepsNonSpaces(lines, separators);
  }

  /**
   A break without a separator is inside a word: the line fills the width and has no space it could have been
   broken at, and the next line does not begin with one.
   */
  lemma {:induction false} SeparatorFollowsBreak(text: string, width: nat, i: nat)
    requires 0 < width && i < |Lines(text, width)|
    ensures |Lines(text, width)| == |Separators(text, width)|
    ensures Separators(text, width)[i] == "" && i + 1 < |Lines(text, width)| ==>
              && |Lines(text, width)[i]| == width && (forall j :: 0 < j < width ==> Lines(text, width)[i][j] != ' ')
              && !(" " <= Lines(text, width)[i + 1])
    decreases |text|
  {
    LinesRebuildText(text, width);
    if |text| > width {
      var rest := Rest(text, width);
      if i > 0 {
        SeparatorFollowsBreak(rest, width, i - 1);
      } else if rest != "" {
        assert Lines(text, width)[1] == Lines(rest, width)[0] <= rest;
      }
    }
  }

  // ---- which lines are as long as they could be ----

  /** A line of `n` bytes is as long as it can be: no later place up to the width is a space to break at. */
  ghost predicate Greedy(text: string, width: nat, n: nat)
    requires width < |text|
  {
    forall j :: n < j <= width ==> text[j] != ' '
  }

  /** The word that ends exactly at the width would fit, and there is a space before it. */
  ghost predicate ExactFit(text: string, width: nat)
    requires width < |text|
  {
    text[width] == ' ' && exists j :: 0 < j < width && text[j] == ' '
  }

  /** The search starts below the width, so the break is greedy exactly when no word fits to the last byte. */
  lemma BreakIsGreedyIff(text: string, width: nat)
    requires 0 < width < |text|
    ensures Greedy(text, width, BreakPoint(text, width)) <==> !ExactFit(text, width)
  {
    var b := BreakPoint(text, width);
    if b < width {
      assert text[b] == ' ';
    }
  }

  /** What is left of the text before line `i`. */
  function Remaining(text: string, width: nat, i: nat): string
    requires 0 < width
    decreases i
  {
    if i == 0 then text
    else if |text| <= width then ""
    else Remaining(Rest(text, width), width, i - 1)
  }

  /** What is left before line `i` is what the lines and separators before it leave of the text. */
  lemma {:induction false} RemainingRebuilds(text: string, width: nat, i: nat)
    requires 0 < width && i < |Lines(text, width)| == |Separators(text, width)|
    ensures text == Interleave(Lines(text, width)[..i], Separators(text, width)[..i]) + Remaining(text, width, i)
    decreases i
  {
    if |text| > width && i > 0 {
      var rest := Rest(text, width);
      LinesRebuildText(rest, width);
      RemainingRebuilds(rest, width, i - 1);
      var line, separator := text[..BreakPoint(text, width)], Separator(text, width);
      var lines, separators := Lines(rest, width)[..i - 1], Separators(rest, width)[..i - 1];
      assert Lines(text, width)[..i] == [line] + lines;
      assert Separators(text, width)[..i] == [separator] + separators;
      InterleaveCons(line, separator, lines, separators);
      SplitAtBreak(text, width);
      SameAfterSplit(text, line + separator, rest, Interleave(lines, separators), Remaining(rest, width, i - 1));
    }
  }

  lemma SameAfterSplit(text: string, head: string, rest: string, s: string, t: string)
    requires text == head + rest && rest == s + t
    ensures text == head + s + t
  {
  }

  /** Line `i` is cut off the beginning of what is left before it. */
  lemma {:induction false} LineOfRemaining(text: string, width: nat, i: nat)
    requires 0 < width && i < |Lines(text, width)|
    ensures var t := Remaining(text, width, i);
            Lines(text, width)[i] == if |t| <= width then t else t[..BreakPoint(t, width)]
    decreases i
  {
    if |text| > width && i > 0 {
      LineOfRemaining(Rest(text, width), width, i - 1);
    }
  }

  /**
   The same for every line of a text: where what is left has to be broken, the line is as long as possible
   if and only if no word fits exactly.
   */
  lemma LineIsGreedyIff(text: string, width: nat, i: nat)
    requires 0 < width && i < |Lines(text, width)|
    ensures var t := Remaining(text, width, i); var line := Lines(text, width)[i];
            && |Separators(text, width)| == |Lines(text, width)|
            && text == Interleave(Lines(text, width)[..i], Separators(text, width)[..i]) + t
            && line <= t
            && (|t| > width ==> (Greedy(t, width, |line|) <==> !ExactFit(t, width)))
  {
    LinesRebuildText(text, width);
    RemainingRebuilds(text, width, i);
    LineOfRemaining(text, width, i);
    var t := Remaining(text, width, i);
    if |t| > width {
      BreakIsGreedyIff(t, width);
    }
  }

  /** A witness: a word that ends exactly at the width is moved to the next line all the same. */
  lemma ExactFitIsMovedDown()
    ensures Wrapped("ab cde f", 6) == ["ab", "cde f"]
  {
    var text := "ab cde f";
    assert text[2] == ' ' && LastSpace(text, 2) == 2;
    assert LastSpace(text, 5) == LastSpace(text, 4) == LastSpace(text, 3) == 2;
    assert text[..2] == "ab" && text[3..] == "cde f";
    assert Rest(text, 6) == "cde f";
  }
}
