/**
 * `get_indent`: the width of a line's indentation, a space counting one
 * column and a tab moving to the next multiple of 8. The checker itself
 * measures `indent_level` in characters instead (see `LogicalLine`).
 */
module Indent {

  /** A space or a tab: the characters `get_indent` counts. */
  predicate IsBlank(c: char) {
    c == ' ' || c == '\t'
  }

  predicate AllBlank(s: string) {
    forall i :: 0 <= i < |s| ==> IsBlank(s[i])
  }

  /** `result / 8 * 8 + 8`: the least multiple of 8 strictly above `w` (Python 2 `/` floors). */
  function NextTabStop(w: nat): (r: nat)
    ensures r % 8 == 0 && w < r <= w + 8
  {
    w / 8 * 8 + 8
  }

  /** The loop of `get_indent`, continued from `width` over the characters of `s`. */
  function Expand(width: nat, s: string): nat
    decreases |s|
  {
    if s == [] then width
    else if s[0] == '\t' then Expand(NextTabStop(width), s[1..])
    else if s[0] == ' ' then Expand(width + 1, s[1..])
    else width
  }

  /** `get_indent(line)`. */
  function IndentWidth(line: string): nat {
    Expand(0, line)
  }

  /** `get_indent` as the source writes it: a loop over the characters that stops at the first non-blank. */
  method GetIndent(line: string) returns (result: nat)
    ensures result == IndentWidth(line)
  {
    result := 0;
    var i := 0;
    while i < |line|
      invariant 0 <= i <= |line|
      invariant Expand(result, line[i..]) == IndentWidth(line)
    {
      var c := line[i];
      if c == '\t' {
        result := result / 8 * 8 + 8;
      } else if c == ' ' {
        result := result + 1;
      } else {
        break;
      }
      i := i + 1;
    }
  }

  /**
   * After a run of blanks, a space adds one column, a tab moves to the next
   * multiple of 8 strictly above, and any other character adds nothing.
   */
  lemma {:induction false} ExpandAppend(width: nat, w: string, c: char)
    requires AllBlank(w)
    ensures Expand(width, w + [c])
      == if c == '\t' then NextTabStop(Expand(width, w))
         else if c == ' ' then Expand(width, w) + 1
         else Expand(width, w)
    decreases |w|
  {
    if w == [] {
      assert [c][1..] == [];
    } else {
      assert (w + [c])[0] == w[0] && (w + [c])[1..] == w[1..] + [c];
      var next := if w[0] == '\t' then NextTabStop(width) else width + 1;
      ExpandAppend(next, w[1..], c);
    }
  }

  /** Counting stops at the first character that is neither a space nor a tab. */
  lemma {:induction false} ExpandStopsAtText(width: nat, w: string, c: char, rest: string)
    requires AllBlank(w) && !IsBlank(c)
    ensures Expand(width, w + [c] + rest) == Expand(width, w)
    decreases |w|
  {
    if w == [] {
      assert (w + [c] + rest)[0] == c;
    } else {
      assert (w + [c] + rest)[0] == w[0] && (w + [c] + rest)[1..] == w[1..] + [c] + rest;
      var next := if w[0] == '\t' then NextTabStop(width) else width + 1;
      ExpandStopsAtText(next, w[1..], c, rest);
    }
  }

  /** The same facts for `get_indent` itself. */
  lemma {:induction false} IndentWidthSteps(w: string, c: char, rest: string)
    requires AllBlank(w)
    ensures IndentWidth(w + " ") == IndentWidth(w) + 1
    ensures IndentWidth(w + "\t") == NextTabStop(IndentWidth(w))
    ensures !IsBlank(c) ==> IndentWidth(w + [c] + rest) == IndentWidth(w)
  {
    ExpandAppend(0, w, ' ');
    ExpandAppend(0, w, '\t');
    if !IsBlank(c) {
      ExpandStopsAtText(0, w, c, rest);
    }
  }

  /** Without tabs, the indentation is the number of leading spaces. */
  lemma {:induction false} SpacesOnlyCount(width: nat, spaces: nat, rest: string)
    requires rest == [] || !IsBlank(rest[0])
    ensures Expand(width, seq(spaces, _ => ' ') + rest) == width + spaces
    decreases spaces
  {
    var s := seq(spaces, _ => ' ') + rest;
    if spaces > 0 {
      assert s[0] == ' ' && s[1..] == seq(spaces - 1, _ => ' ') + rest;
      SpacesOnlyCount(width + 1, spaces - 1, rest);
    } else {
      assert s == rest;
    }
  }

  /** The examples of the `get_indent` docstring. */
  lemma {:induction false} GetIndentExamples()
    ensures IndentWidth("    abc") == 4
    ensures IndentWidth("\tabc") == 8
    ensures IndentWidth("    \tabc") == 8
    ensures IndentWidth("       \tabc") == 8
    ensures IndentWidth("        \tabc") == 16
  {
  }
}
