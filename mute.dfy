/**
 * `mute_line`: hide what the style rules must not see. A comment token cuts
 * the line at the comment (and the whitespace before it); a string token
 * has its interior overwritten with `x`, so columns stay where they were.
 */
module Mute {
  import opened PyStr
  import opened Tokens

  /** The token's rows include `lineNumber` (`token_start[0] <= line_number <= token_end[0]`). */
  predicate Overlaps(t: Token, lineNumber: int) {
    t.start.row <= lineNumber <= t.end.row
  }

  /** A string token delimited by three quote characters. */
  predicate IsTriple(t: Token) {
    StartsWith(t.text, "\"\"\"") || StartsWith(t.text, "'''")
  }

  /**
   * Columns kept at each end: 3 when the token text starts with three
   * quotes, else 1, also for a prefixed string such as `r"""..."""`.
   */
  function QuoteWidth(t: Token): int {
    if IsTriple(t) then 3 else 1
  }

  /**
   * The columns `[string_start, string_end)` muted on a line of length `n`:
   * the interior between the delimiters, from column 0 on a line after the
   * token's first, and up to the end of the line on a line before its last.
   */
  function StringSpan(n: nat, lineNumber: int, t: Token): (int, int) {
    (if lineNumber > t.start.row then 0 else t.start.col + QuoteWidth(t),
     if lineNumber < t.end.row then n else t.end.col - QuoteWidth(t))
  }

  /** The span lies inside the line. */
  predicate SpanInside(n: nat, lineNumber: int, t: Token) {
    0 <= StringSpan(n, lineNumber, t).0 <= StringSpan(n, lineNumber, t).1 <= n
  }

  /** The effect of one token on the line: the body of the loop in `mute_line`. */
  function MuteToken(line: string, lineNumber: int, t: Token): string {
    if !Overlaps(t, lineNumber) then line
    else if t.kind == Comment then RStrip(Take(line, t.start.col))
    else if t.kind == String then
      var (s, e) := StringSpan(|line|, lineNumber, t);
      Take(line, s) + Repeat('x', e - s) + Drop(line, e)
    else line
  }

  /**
   * A token that does not touch the line, or is neither a comment nor a
   * string, leaves it alone; a comment cuts it at the comment's column and
   * strips the whitespace before; a string whose span lies inside the line
   * turns exactly that span into `x`.
   */
  lemma {:induction false} MuteTokenEffect(line: string, lineNumber: int, t: Token)
    ensures !Overlaps(t, lineNumber) || (t.kind != Comment && t.kind != String) ==> MuteToken(line, lineNumber, t) == line
    ensures Overlaps(t, lineNumber) && t.kind == Comment ==>
      var r, cut := MuteToken(line, lineNumber, t), SliceBound(|line|, t.start.col);
      && |r| <= cut && r == line[..|r|]
      && (r == [] || !IsSpace(r[|r| - 1]))
      && forall i :: |r| <= i < cut ==> IsSpace(line[i])
    ensures Overlaps(t, lineNumber) && t.kind == String && SpanInside(|line|, lineNumber, t) ==>
      var r := MuteToken(line, lineNumber, t);
      var (s, e) := StringSpan(|line|, lineNumber, t);
      && |r| == |line|
      && forall i :: 0 <= i < |r| ==> r[i] == if s <= i < e then 'x' else line[i]
  {
  }

  /** The line after every token has had its effect, in token order. */
  function Muted(line: string, lineNumber: int, tokens: seq<Token>): string
    decreases |tokens|
  {
    if tokens == [] then line
    else Muted(MuteToken(line, lineNumber, tokens[0]), lineNumber, tokens[1..])
  }

  /** `mute_line(line, line_number, tokens)`. */
  method MuteLine(line: string, lineNumber: int, tokens: seq<Token>) returns (muted: string)
    ensures muted == Muted(line, lineNumber, tokens)
  {
    muted := line;
    for i := 0 to |tokens|
      invariant Muted(muted, lineNumber, tokens[i..]) == Muted(line, lineNumber, tokens)
    {
      assert tokens[i..][0] == tokens[i] && tokens[i..][1..] == tokens[i + 1..];
      muted := MuteOne(muted, lineNumber, tokens[i]);
    }
  }

  /** One iteration of the loop of `mute_line`. */
  method MuteOne(line: string, lineNumber: int, t: Token) returns (muted: string)
    ensures muted == MuteToken(line, lineNumber, t)
  {
    muted := line;
    if t.start.row <= lineNumber <= t.end.row {
      if t.kind == Comment {
        muted := RStrip(Take(muted, t.start.col));
      } else if t.kind == String {
        var stringStart := t.start.col + 1;
        var stringEnd := t.end.col - 1;
        if StartsWith(t.text, "\"\"\"") || StartsWith(t.text, "'''") {
          stringStart := stringStart + 2;
          stringEnd := stringEnd - 2;
        }
        if lineNumber > t.start.row {
          stringStart := 0;
        }
        if lineNumber < t.end.row {
          stringEnd := |muted|;
        }
        assert (stringStart, stringEnd) == StringSpan(|line|, lineNumber, t);
        muted := Take(muted, stringStart) + Repeat('x', stringEnd - stringStart) + Drop(muted, stringEnd);
      }
    }
  }

  /** Column `i` lies in the muted interior of string token `t`. */
  predicate Covers(n: nat, lineNumber: int, t: Token, i: int) {
    Overlaps(t, lineNumber) && t.kind == String
    && StringSpan(n, lineNumber, t).0 <= i < StringSpan(n, lineNumber, t).1
  }

  /** Every token touching the line is a string whose muted span lies inside the line. */
  predicate OnlyStringsInside(n: nat, lineNumber: int, tokens: seq<Token>) {
    forall k :: 0 <= k < |tokens| && Overlaps(tokens[k], lineNumber) ==>
      tokens[k].kind == String && SpanInside(n, lineNumber, tokens[k])
  }

  /**
   * Muting a line that only strings touch keeps its length, turns exactly
   * the columns inside some string's interior into `x`, and leaves every
   * other character as it was.
   */
  lemma {:induction false} MutedOnlyFillsStrings(line: string, lineNumber: int, tokens: seq<Token>)
    requires OnlyStringsInside(|line|, lineNumber, tokens)
    ensures |Muted(line, lineNumber, tokens)| == |line|
    ensures forall i :: 0 <= i < |line| ==>
      Muted(line, lineNumber, tokens)[i]
        == if exists k :: 0 <= k < |tokens| && Covers(|line|, lineNumber, tokens[k], i) then 'x' else line[i]
    decreases |tokens|
  {
    if tokens != [] {
      var n := |line|;
      var t := tokens[0];
      var rest := tokens[1..];
      var line1 := MuteToken(line, lineNumber, t);
      MuteTokenEffect(line, lineNumber, t);
      assert |line1| == n;
      assert OnlyStringsInside(n, lineNumber, rest) by {
        forall k | 0 <= k < |rest| && Overlaps(rest[k], lineNumber)
          ensures rest[k].kind == String && SpanInside(n, lineNumber, rest[k])
        {
          assert rest[k] == tokens[k + 1];
        }
      }
      MutedOnlyFillsStrings(line1, lineNumber, rest);
      forall i | 0 <= i < n
        ensures Muted(line, lineNumber, tokens)[i]
          == if exists k :: 0 <= k < |tokens| && Covers(n, lineNumber, tokens[k], i) then 'x' else line[i]
      {
        assert line1[i] == if Covers(n, lineNumber, t, i) then 'x' else line[i];
        var inRest := exists k :: 0 <= k < |rest| && Covers(n, lineNumber, rest[k], i);
        var inAll := exists k :: 0 <= k < |tokens| && Covers(n, lineNumber, tokens[k], i);
        if Covers(n, lineNumber, t, i) {
          assert Covers(n, lineNumber, tokens[0], i);
        }
        if inRest {
          var k :| 0 <= k < |rest| && Covers(n, lineNumber, rest[k], i);
          assert Covers(n, lineNumber, tokens[k + 1], i);
        }
        if inAll && !Covers(n, lineNumber, t, i) {
          var k :| 0 <= k < |tokens| && Covers(n, lineNumber, tokens[k], i);
          assert k != 0 && rest[k - 1] == tokens[k];
        }
      }
    }
  }

  /**
   * A string that opens and closes on this line keeps its first and last
   * `QuoteWidth(t)` columns (three for a triple-quoted string, else one:
   * for a prefixed string such as `r'ab'` that is the prefix letter, and
   * the opening quote becomes `x`) and has every character between them
   * replaced by `x`.
   */
  lemma {:induction false} OneLineStringKeepsQuotes(line: string, lineNumber: int, t: Token)
    requires t.kind == String && t.start.row == lineNumber == t.end.row
    requires 0 <= t.start.col && t.end.col <= |line|
    requires t.start.col + QuoteWidth(t) <= t.end.col - QuoteWidth(t)
    ensures var r, q := MuteToken(line, lineNumber, t), QuoteWidth(t);
      && |r| == |line|
      && r[t.start.col..t.start.col + q] == line[t.start.col..t.start.col + q]
      && r[t.end.col - q..t.end.col] == line[t.end.col - q..t.end.col]
      && forall i :: t.start.col + q <= i < t.end.col - q ==> r[i] == 'x'
  {
    var r, q := MuteToken(line, lineNumber, t), QuoteWidth(t);
    assert SpanInside(|line|, lineNumber, t);
    MuteTokenEffect(line, lineNumber, t);
    assert r[t.start.col..t.start.col + q] == line[t.start.col..t.start.col + q];
    assert r[t.end.col - q..t.end.col] == line[t.end.col - q..t.end.col];
  }

  /** A row strictly inside a multi-line string is muted entirely. */
  lemma {:induction false} InnerRowOfStringMasked(line: string, lineNumber: int, t: Token)
    requires t.kind == String && t.start.row < lineNumber < t.end.row
    ensures MuteToken(line, lineNumber, t) == Repeat('x', |line|)
  {
  }

  /** The first row of a multi-line string is muted from just after its opening delimiter to the end of the line. */
  lemma {:induction false} FirstRowOfStringMasked(line: string, lineNumber: int, t: Token)
    requires t.kind == String && t.start.row == lineNumber < t.end.row
    requires 0 <= t.start.col + QuoteWidth(t) <= |line|
    ensures var r := MuteToken(line, lineNumber, t);
      r == line[..t.start.col + QuoteWidth(t)] + Repeat('x', |line| - (t.start.col + QuoteWidth(t)))
  {
  }
}
