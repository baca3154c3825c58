/**
 * The checks that read one physical line: mixed indentation (E101), tabs
 * (W191), trailing whitespace (W291) and line length (E501).
 */
module PhysicalChecks {
  import opened Wrappers
  import opened PyStr
  import opened Indent
  import opened CheckState

  const MixedIndentText := "E101 indentation contains mixed spaces and tabs"
  const TabIndentText := "W191 indentation contains tabs"
  const TrailingWhitespaceText := "W291 trailing whitespace"

  /** The longest line that passes `maximum_line_length`. */
  const MaxLineLength := 79

  /** `"E501 line too long (%d characters)" % length` */
  function LineTooLongText(length: int): string {
    "E501 line too long (" + IntToString(length) + " characters)"
  }

  /** `indent_match(line).group(1)`: the run of spaces and tabs the line starts with. */
  function IndentOf(line: string): (r: string)
    ensures |r| <= |line| && r == line[..|r|]
    ensures AllBlank(r)
    ensures |r| == |line| || !IsBlank(line[|r|])
  {
    if line != [] && IsBlank(line[0]) then [line[0]] + IndentOf(line[1..]) else []
  }

  /** The first index of `s` holding something other than `c`, or -1. */
  function FirstOther(s: string, c: char): (r: int)
    ensures -1 <= r < |s|
    ensures r == -1 <==> forall j :: 0 <= j < |s| ==> s[j] == c
    ensures r != -1 ==> s[r] != c && forall j :: 0 <= j < r ==> s[j] == c
  {
    if s == [] then -1
    else if s[0] != c then 0
    else var k := FirstOther(s[1..], c); if k == -1 then -1 else k + 1
  }

  /**
   * `tabs_or_spaces`: the first indented line fixes the file's indent
   * character; an indentation character that differs from it is reported
   * at its offset. A line without indentation leaves everything alone.
   */
  function TabsOrSpacesStep(physicalLine: string, st: StateView): (r: (Option<Finding>, StateView))
    ensures IndentOf(physicalLine) == [] ==> r == (None, st)
    ensures IndentOf(physicalLine) != [] ==>
      var indent := IndentOf(physicalLine);
      var c := st.indentChar.GetOr(indent[0]);
      && r.1 == st.(indentChar := Some(c))
      && (r.0.None? <==> forall j :: 0 <= j < |indent| ==> indent[j] == c)
      && (r.0.Some? ==>
            && r.0.value.text == MixedIndentText
            && 0 <= r.0.value.offset < |indent|
            && indent[r.0.value.offset] != c
            && forall j :: 0 <= j < r.0.value.offset ==> indent[j] == c)
  {
    var indent := IndentOf(physicalLine);
    if indent == [] then (None, st)
    else
      var c := st.indentChar.GetOr(indent[0]);
      var k := FirstOther(indent, c);
      (if k == -1 then None else Some(Finding(k, MixedIndentText)), st.(indentChar := Some(c)))
  }

  /** `tabs_or_spaces(physical_line, state)` on the shared state object. */
  method TabsOrSpaces(physicalLine: string, state: State) returns (result: Option<Finding>)
    modifies state
    ensures (result, state.View()) == TabsOrSpacesStep(physicalLine, old(state.View()))
  {
    var indent := IndentOf(physicalLine);
    if indent == [] {
      return None;
    }
    var indentChar: char;
    if state.indentChar.Some? {
      indentChar := state.indentChar.value;
    } else {
      indentChar := indent[0];
      state.indentChar := Some(indentChar);
    }
    for offset := 0 to |indent|
      invariant forall j :: 0 <= j < offset ==> indent[j] == indentChar
    {
      if indent[offset] != indentChar {
        return Some(Finding(offset, MixedIndentText));
      }
    }
    return None;
  }

  /** `tabs_obsolete`: a tab anywhere in the indentation is reported at the first one. */
  function TabsObsolete(physicalLine: string): (r: Option<Finding>)
    ensures var indent := IndentOf(physicalLine);
      && (r.Some? <==> '\t' in indent)
      && (r.Some? ==>
            && r.value.text == TabIndentText
            && 0 <= r.value.offset < |indent|
            && indent[r.value.offset] == '\t'
            && forall j :: 0 <= j < r.value.offset ==> indent[j] == ' ')
  {
    var indent := IndentOf(physicalLine);
    FindChar(indent, '\t');
    if '\t' in indent then Some(Finding(Find(indent, "\t"), TabIndentText)) else None
  }

  /** The line without its trailing newlines, then carriage returns, then form feeds. */
  function ChopLineEnd(physicalLine: string): string {
    RStripChar(RStripChar(RStripChar(physicalLine, '\n'), '\r'), '\U{0C}')
  }

  /**
   * `trailing_whitespace`: once the line end is removed, a line ending in
   * whitespace is reported where that whitespace run begins.
   */
  function TrailingWhitespace(physicalLine: string): (r: Option<Finding>)
    ensures var line := ChopLineEnd(physicalLine);
      && (r.Some? <==> line != [] && IsSpace(line[|line| - 1]))
      && (r.Some? ==>
            && r.value.text == TrailingWhitespaceText
            && 0 <= r.value.offset < |line|
            && (forall i :: r.value.offset <= i < |line| ==> IsSpace(line[i]))
            && (r.value.offset == 0 || !IsSpace(line[r.value.offset - 1])))
  {
    var line := ChopLineEnd(physicalLine);
    var stripped := RStrip(line);
    if line != stripped then Some(Finding(|stripped|, TrailingWhitespaceText)) else None
  }

  /** `maximum_line_length`: a line longer than 79 characters without its trailing whitespace, reported at column 79. */
  function MaximumLineLength(physicalLine: string): (r: Option<Finding>)
    ensures r.Some? <==> |RStrip(physicalLine)| > MaxLineLength
    ensures r.Some? ==> r.value == Finding(MaxLineLength, LineTooLongText(|RStrip(physicalLine)|))
  {
    var length := |RStrip(physicalLine)|;
    if length > MaxLineLength then Some(Finding(MaxLineLength, LineTooLongText(length))) else None
  }

  /** Once one indented line has fixed the indent character, a later line indented with the other one is reported at offset 0. */
  lemma {:induction false} MixedIndentAcrossLines(first: string, second: string)
    requires IndentOf(first) != [] && IndentOf(second) != []
    requires IndentOf(first)[0] != IndentOf(second)[0]
    ensures var (_, st) := TabsOrSpacesStep(first, EmptyState);
      TabsOrSpacesStep(second, st).0 == Some(Finding(0, MixedIndentText))
  {
  }
}
