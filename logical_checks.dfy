/**
 * The checks that read one logical line: indentation (E111-E113), blank
 * lines (E301-E303), whitespace (E201-E203, E211, E221, E222) and imports
 * (E401). A logical line is muted, stripped on both sides and joined, so
 * the whitespace checks may search it for plain substrings.
 */
module LogicalChecks {
  import opened Wrappers
  import opened PyStr
  import opened CheckState

  // ---------------------------------------------------------------- indentation

  const NotMultipleOfFourText := "E111 indentation is not a multiple of four"
  const ExpectedIndentText := "E112 expected an indented block"
  const UnexpectedIndentText := "E113 unexpected indentation"

  /** `line.rstrip('#').rstrip().endswith(':')`: the line opens a block. */
  predicate OpensBlock(line: string) {
    EndsWith(RStrip(RStripChar(line, '#')), ":")
  }

  /** The file is indented with spaces, or no indented line has been seen yet. */
  predicate SpacesIndent(st: StateView) {
    st.indentChar.GetOr(' ') == ' '
  }

  /**
   * `indentation`: a non-empty logical line records its level and whether
   * it opens a block; it is reported when space indentation is not a
   * multiple of four, when a block was expected and the level did not
   * grow, or when no block was expected and the level grew.
   */
  function IndentationStep(logicalLine: string, st: StateView, indentLevel: nat): (r: (Option<Finding>, StateView))
    ensures logicalLine == "" ==> r == (None, st)
    ensures logicalLine != "" ==>
      r.1 == st.(indentLevel := Some(indentLevel), indentExpect := Some(OpensBlock(logicalLine)))
    ensures r.0.Some? ==> r.0.value.offset == 0
    ensures logicalLine != "" ==>
      var previous := st.indentLevel.GetOr(0);
      var expected := st.indentExpect.GetOr(false);
      var misaligned := SpacesIndent(st) && indentLevel % 4 != 0;
      && (r.0 == Some(Finding(0, NotMultipleOfFourText)) <==> misaligned)
      && (r.0 == Some(Finding(0, ExpectedIndentText)) <==> !misaligned && expected && indentLevel <= previous)
      && (r.0 == Some(Finding(0, UnexpectedIndentText)) <==> !misaligned && !expected && indentLevel > previous)
      && (r.0.None? <==> !misaligned && (expected <==> indentLevel > previous))
  {
    if logicalLine == "" then (None, st)
    else
      var previous := st.indentLevel.GetOr(0);
      var expected := st.indentExpect.GetOr(false);
      var st' := st.(indentExpect := Some(OpensBlock(logicalLine)), indentLevel := Some(indentLevel));
      if st.indentChar.GetOr(' ') == ' ' && indentLevel % 4 != 0 then (Some(Finding(0, NotMultipleOfFourText)), st')
      else if expected && indentLevel <= previous then (Some(Finding(0, ExpectedIndentText)), st')
      else if !expected && indentLevel > previous then (Some(Finding(0, UnexpectedIndentText)), st')
      else (None, st')
  }

  /** `indentation(logical_line, state, indent_level)` on the shared state object. */
  method Indentation(logicalLine: string, state: State, indentLevel: nat) returns (result: Option<Finding>)
    modifies state
    ensures (result, state.View()) == IndentationStep(logicalLine, old(state.View()), indentLevel)
  {
    if logicalLine == "" {
      return None;
    }
    var previousLevel := state.indentLevel.GetOr(0);
    var indentExpect := state.indentExpect.GetOr(false);
    state.indentExpect := Some(EndsWith(RStrip(RStripChar(logicalLine, '#')), ":"));
    var indentChar := state.indentChar.GetOr(' ');
    state.indentLevel := Some(indentLevel);
    if indentChar == ' ' && indentLevel % 4 != 0 {
      return Some(Finding(0, NotMultipleOfFourText));
    }
    if indentExpect && indentLevel <= previousLevel {
      return Some(Finding(0, ExpectedIndentText));
    }
    if !indentExpect && indentLevel > previousLevel {
      return Some(Finding(0, UnexpectedIndentText));
    }
    return None;
  }

  /** After a line that opens a block, a line that is not indented deeper is reported as E112. */
  lemma {:induction false} BlockMustBeIndented(header: string, body: string, st: StateView, level: nat, next: nat)
    requires header != "" && OpensBlock(header) && body != ""
    requires next <= level && (!SpacesIndent(st) || next % 4 == 0)
    ensures var st' := IndentationStep(header, st, level).1;
      IndentationStep(body, st', next).0 == Some(Finding(0, ExpectedIndentText))
  {
  }

  /** After a line that opens no block, a deeper line is reported as E113, and one at a multiple of four at most as deep passes. */
  lemma {:induction false} IndentOnlyAfterBlock(line: string, next: string, st: StateView, level: nat, nextLevel: nat)
    requires line != "" && !OpensBlock(line) && next != ""
    requires !SpacesIndent(st) || nextLevel % 4 == 0
    ensures var st' := IndentationStep(line, st, level).1;
      && (nextLevel > level ==> IndentationStep(next, st', nextLevel).0 == Some(Finding(0, UnexpectedIndentText)))
      && (nextLevel <= level ==> IndentationStep(next, st', nextLevel).0 == None)
  {
  }

  // ---------------------------------------------------------------- blank lines

  function ExpectedOneBlankText(count: int): string {
    "E301 expected 1 blank line, found " + IntToString(count)
  }

  function ExpectedTwoBlanksText(count: int): string {
    "E302 expected 2 blank lines, found " + IntToString(count)
  }

  function TooManyBlanksText(count: int): string {
    "E303 too many blank lines (" + IntToString(count) + ")"
  }

  /**
   * `blank_lines`: empty logical lines are counted; a `def` after the
   * first logical line must follow exactly one blank line when indented
   * and exactly two at the top level; more than two blank lines are
   * reported before any line.
   */
  function BlankLinesStep(logicalLine: string, st: StateView, indentLevel: nat): (r: (Option<Finding>, StateView))
    ensures r.1 == st.(blankLines := Some(if logicalLine == "" then st.blankLines.GetOr(0) + 1 else 0))
    ensures r.0.Some? ==> r.0.value.offset == 0
    ensures
      var count := st.blankLines.GetOr(0);
      var isDef := StartsWith(logicalLine, "def ") && st.blankLines.Some?;
      var nested := isDef && indentLevel > 0 && count != 1;
      var top := isDef && indentLevel == 0 && count != 2;
      && (r.0 == Some(Finding(0, ExpectedOneBlankText(count))) <==> nested)
      && (r.0 == Some(Finding(0, ExpectedTwoBlanksText(count))) <==> top)
      && (r.0 == Some(Finding(0, TooManyBlanksText(count))) <==> !nested && !top && count > 2)
      && (r.0.None? <==> !nested && !top && count <= 2)
  {
    var firstLine := st.blankLines.None?;
    var count := st.blankLines.GetOr(0);
    var st' := st.(blankLines := Some(if logicalLine == "" then count + 1 else 0));
    if StartsWith(logicalLine, "def ") && !firstLine && indentLevel > 0 && count != 1 then
      (Some(Finding(0, ExpectedOneBlankText(count))), st')
    else if StartsWith(logicalLine, "def ") && !firstLine && indentLevel == 0 && count != 2 then
      (Some(Finding(0, ExpectedTwoBlanksText(count))), st')
    else if count > 2 then
      (Some(Finding(0, TooManyBlanksText(count))), st')
    else (None, st')
  }

  /** `blank_lines(logical_line, state, indent_level)` on the shared state object. */
  method BlankLines(logicalLine: string, state: State, indentLevel: nat) returns (result: Option<Finding>)
    modifies state
    ensures (result, state.View()) == BlankLinesStep(logicalLine, old(state.View()), indentLevel)
  {
    var firstLine := state.blankLines.None?;
    var count := state.blankLines.GetOr(0);
    if logicalLine == "" {
      state.blankLines := Some(count + 1);
    } else {
      state.blankLines := Some(0);
    }
    if StartsWith(logicalLine, "def ") && !firstLine {
      if indentLevel > 0 && count != 1 {
        return Some(Finding(0, ExpectedOneBlankText(count)));
      }
      if indentLevel == 0 && count != 2 {
        return Some(Finding(0, ExpectedTwoBlanksText(count)));
      }
    }
    if count > 2 {
      return Some(Finding(0, TooManyBlanksText(count)));
    }
    return None;
  }

  /** The state after `n` empty logical lines. */
  function AfterEmptyLines(st: StateView, n: nat, indentLevel: nat): StateView {
    if n == 0 then st else BlankLinesStep("", AfterEmptyLines(st, n - 1, indentLevel), indentLevel).1
  }

  /** Empty logical lines in a row are counted from the last non-empty one. */
  lemma {:induction false} EmptyLinesCounted(line: string, st: StateView, n: nat, indentLevel: nat)
    requires line != ""
    ensures AfterEmptyLines(BlankLinesStep(line, st, indentLevel).1, n, indentLevel).blankLines == Some(n)
  {
    if n > 0 {
      EmptyLinesCounted(line, st, n - 1, indentLevel);
    }
  }

  /**
   * After a statement, a top-level `def` passes after exactly two empty
   * logical lines, and a nested one after exactly one; any other count is
   * reported with that count.
   */
  lemma {:induction false} DefSpacing(line: string, st: StateView, n: nat, defLine: string, indentLevel: nat)
    requires line != "" && StartsWith(defLine, "def ") && n <= 2
    ensures var st' := AfterEmptyLines(BlankLinesStep(line, st, 0).1, n, 0);
      var r := BlankLinesStep(defLine, st', indentLevel).0;
      && (indentLevel == 0 ==> r == if n == 2 then None else Some(Finding(0, ExpectedTwoBlanksText(n))))
      && (indentLevel > 0 ==> r == if n == 1 then None else Some(Finding(0, ExpectedOneBlankText(n))))
  {
    EmptyLinesCounted(line, st, n, 0);
  }

  // ---------------------------------------------------------------- extraneous whitespace

  /** `char + ' '` */
  function OpenPair(c: char): string {
    [c, ' ']
  }

  /** `' ' + char` */
  function ClosePair(c: char): string {
    [' ', c]
  }

  function SpaceAfterText(c: char): string {
    "E201 whitespace after '" + [c] + "'"
  }

  function SpaceBeforeCloseText(c: char): string {
    "E202 whitespace before '" + [c] + "'"
  }

  function SpaceBeforePunctText(c: char): string {
    "E203 whitespace before '" + [c] + "'"
  }

  /** `line[found - 1]`: index -1 reads the last character. */
  function CharBefore(line: string, found: int): char
    requires 0 <= found < |line|
  {
    if found == 0 then line[|line| - 1] else line[found - 1]
  }

  /**
   * `f` is the E201 report for bracket `chars[k]`: no earlier bracket of
   * `chars` is followed by a space, and `f` lies just after the first such
   * pair of this one.
   */
  ghost predicate OpenFirstListed(line: string, chars: string, k: int, f: Finding) {
    && 0 <= k < |chars|
    && (forall k' :: 0 <= k' < k ==> Absent(line, OpenPair(chars[k'])))
    && FirstAt(line, OpenPair(chars[k]), f.offset - 1) && f.text == SpaceAfterText(chars[k])
  }

  /** The E201 loop: the first of `chars`, in list order, followed by a space, reported just after its first such pair. */
  function SpaceAfterOpen(line: string, chars: string): (r: Option<Finding>)
    ensures r.None? <==> forall c :: c in chars ==> Absent(line, OpenPair(c))
    ensures r.Some? ==> exists k :: OpenFirstListed(line, chars, k, r.value)
  {
    if chars == [] then None
    else
      var found := Find(line, OpenPair(chars[0]));
      FindIsFirst(line, OpenPair(chars[0]));
      if found > -1 then
        assert OpenFirstListed(line, chars, 0, Finding(found + 1, SpaceAfterText(chars[0])));
        Some(Finding(found + 1, SpaceAfterText(chars[0])))
      else
        var r := SpaceAfterOpen(line, chars[1..]);
        assert forall c :: c in chars <==> c == chars[0] || c in chars[1..];
        assert r.Some? ==> exists k :: OpenFirstListed(line, chars, k, r.value) by {
          if r.Some? {
            var k :| OpenFirstListed(line, chars[1..], k, r.value);
            assert forall k' :: 1 <= k' < k + 1 ==> chars[k'] == chars[1..][k' - 1];
            assert OpenFirstListed(line, chars, k + 1, r.value);
          }
        }
        r
  }

  /** The first occurrence of `' ' + c` exists and does not follow a comma. */
  predicate CloseReported(line: string, c: char) {
    exists i :: 0 <= i < |line| && FirstAt(line, ClosePair(c), i) && CharBefore(line, i) != ','
  }

  /**
   * `f` is the E202 report for bracket `chars[k]`: no earlier bracket of
   * `chars` is reported, and `f` lies at the first space-then-bracket pair
   * of this one, which no comma precedes.
   */
  ghost predicate CloseFirstListed(line: string, chars: string, k: int, f: Finding) {
    && 0 <= k < |chars|
    && (forall k' :: 0 <= k' < k ==> !CloseReported(line, chars[k']))
    && FirstAt(line, ClosePair(chars[k]), f.offset) && CharBefore(line, f.offset) != ','
    && f.text == SpaceBeforeCloseText(chars[k])
  }

  /** The E202 loop: only the first occurrence of each closing bracket after a space is looked at, in list order. */
  function SpaceBeforeClose(line: string, chars: string): (r: Option<Finding>)
    ensures r.None? <==> forall c :: c in chars ==> !CloseReported(line, c)
    ensures r.Some? ==> exists k :: CloseFirstListed(line, chars, k, r.value)
  {
    if chars == [] then None
    else
      var found := Find(line, ClosePair(chars[0]));
      FindIsFirst(line, ClosePair(chars[0]));
      if found > -1 && CharBefore(line, found) != ',' then
        assert CloseReported(line, chars[0]) by {
          assert FirstAt(line, ClosePair(chars[0]), found);
        }
        assert CloseFirstListed(line, chars, 0, Finding(found, SpaceBeforeCloseText(chars[0])));
        Some(Finding(found, SpaceBeforeCloseText(chars[0])))
      else
        var r := SpaceBeforeClose(line, chars[1..]);
        assert !CloseReported(line, chars[0]);
        assert forall c :: c in chars <==> c == chars[0] || c in chars[1..];
        assert r.Some? ==> exists k :: CloseFirstListed(line, chars, k, r.value) by {
          if r.Some? {
            var k :| CloseFirstListed(line, chars[1..], k, r.value);
            assert forall k' :: 1 <= k' < k + 1 ==> chars[k'] == chars[1..][k' - 1];
            assert CloseFirstListed(line, chars, k + 1, r.value);
          }
        }
        r
  }

  /**
   * `f` is the E203 report for `chars[k]`: no earlier character of `chars`
   * follows a space, and `f` lies at the first space before this one.
   */
  ghost predicate PunctFirstListed(line: string, chars: string, k: int, f: Finding) {
    && 0 <= k < |chars|
    && (forall k' :: 0 <= k' < k ==> Absent(line, ClosePair(chars[k'])))
    && FirstAt(line, ClosePair(chars[k]), f.offset) && f.text == SpaceBeforePunctText(chars[k])
  }

  /** The E203 loop: the first of `chars`, in list order, with a space before it somewhere in the line. */
  function SpaceBeforePunct(line: string, chars: string): (r: Option<Finding>)
    ensures r.None? <==> forall c :: c in chars ==> Absent(line, ClosePair(c))
    ensures r.Some? ==> exists k :: PunctFirstListed(line, chars, k, r.value)
  {
    if chars == [] then None
    else
      var found := Find(line, ClosePair(chars[0]));
      FindIsFirst(line, ClosePair(chars[0]));
      if found > -1 then
        assert PunctFirstListed(line, chars, 0, Finding(found, SpaceBeforePunctText(chars[0])));
        Some(Finding(found, SpaceBeforePunctText(chars[0])))
      else
        var r := SpaceBeforePunct(line, chars[1..]);
        assert forall c :: c in chars <==> c == chars[0] || c in chars[1..];
        assert r.Some? ==> exists k :: PunctFirstListed(line, chars, k, r.value) by {
          if r.Some? {
            var k :| PunctFirstListed(line, chars[1..], k, r.value);
            assert forall k' :: 1 <= k' < k + 1 ==> chars[k'] == chars[1..][k' - 1];
            assert PunctFirstListed(line, chars, k + 1, r.value);
          }
        }
        r
  }

  /**
   * `extraneous_whitespace`: a space just inside an opening bracket (E201),
   * just inside a closing bracket unless a comma precedes it (E202), or
   * just before `,`, `;` or `:` (E203), in that order of priority, and
   * within each kind in the order the characters are listed.
   */
  function ExtraneousWhitespace(logicalLine: string): (r: Option<Finding>)
    ensures r.None? <==>
      && (forall c :: c in "([{" ==> Absent(logicalLine, OpenPair(c)))
      && (forall c :: c in "}])" ==> !CloseReported(logicalLine, c))
      && (forall c :: c in ",;:" ==> Absent(logicalLine, ClosePair(c)))
    ensures r.Some? ==>
      || (exists k :: OpenFirstListed(logicalLine, "([{", k, r.value))
      || ((forall c :: c in "([{" ==> Absent(logicalLine, OpenPair(c)))
          && exists k :: CloseFirstListed(logicalLine, "}])", k, r.value))
      || ((forall c :: c in "([{" ==> Absent(logicalLine, OpenPair(c)))
          && (forall c :: c in "}])" ==> !CloseReported(logicalLine, c))
          && exists k :: PunctFirstListed(logicalLine, ",;:", k, r.value))
    ensures r.Some? ==> 0 <= r.value.offset < |logicalLine|
  {
    var afterOpen := SpaceAfterOpen(logicalLine, "([{");
    if afterOpen.Some? then afterOpen
    else
      var closed := SpaceBeforeClose(logicalLine, "}])");
      if closed.Some? then closed
      else SpaceBeforePunct(logicalLine, ",;:")
  }

  // ---------------------------------------------------------------- whitespace before parameters

  /** The `operators` list, in its order. */
  const Operators: seq<string> := [
    "+", "-", "*", "/", "%", "^", "&", "|", "=", "<", ">", ">>", "<<",
    "+=", "-=", "*=", "/=", "%=", "^=", "&=", "|=", "==", "<=", ">=", ">>=", "<<=",
    "!=", "<>", ":",
    "in", "is", "or", "not", "and"]

  /** `keyword.kwlist`: the reserved words of Python 2. */
  const Keywords: seq<string> := [
    "and", "as", "assert", "break", "class", "continue", "def", "del", "elif", "else",
    "except", "exec", "finally", "for", "from", "global", "if", "import", "in", "is",
    "lambda", "not", "or", "pass", "print", "raise", "return", "try", "while", "with", "yield"]

  /** `word in words` on a list of strings, one element at a time. */
  predicate Among(word: string, words: seq<string>) {
    words != [] && (words[0] == word || Among(word, words[1..]))
  }

  lemma {:induction false} AmongIsMembership(word: string, words: seq<string>)
    ensures Among(word, words) <==> word in words
  {
    if words != [] {
      AmongIsMembership(word, words[1..]);
      assert words == [words[0]] + words[1..];
    }
  }

  /** `keyword.iskeyword`. */
  predicate IsKeyword(s: string) {
    Among(s, Keywords)
  }

  /** The number of word characters `t` ends with. */
  function TrailingWordLength(t: string): (n: nat)
    ensures n <= |t|
    ensures forall i :: |t| - n <= i < |t| ==> IsWordChar(t[i])
    ensures n == |t| || !IsWordChar(t[|t| - n - 1])
  {
    if t != [] && IsWordChar(t[|t| - 1]) then TrailingWordLength(t[..|t| - 1]) + 1 else 0
  }

  /**
   * `last_token_match(s).group(1)` for the pattern `(\w+|\S)\s*$`: the run
   * of word characters, or else the single character, that `s` ends with
   * before its trailing whitespace; no match when `s` is all whitespace.
   * Trailing whitespace is skipped one character at a time.
   * `LastTokenShape` states what it picks.
   */
  function LastToken(s: string): Option<string>
    decreases |s|
  {
    if s == [] then None
    else if IsSpace(s[|s| - 1]) then LastToken(s[..|s| - 1])
    else if IsWordChar(s[|s| - 1]) then Some(s[|s| - TrailingWordLength(s)..])
    else Some([s[|s| - 1]])
  }

  /**
   * `r` is what `(\w+|\S)\s*$` captures in a text whose whitespace-free
   * part is `t`: a non-empty suffix of `t` that is either the whole run of
   * word characters `t` ends with, or the last character of `t` when that
   * is not a word character.
   */
  predicate IsLastToken(t: string, r: string) {
    && 0 < |r| <= |t| && r == t[|t| - |r|..]
    && (|| ((forall j :: |t| - |r| <= j < |t| ==> IsWordChar(t[j]))
            && (|r| == |t| || !IsWordChar(t[|t| - |r| - 1])))
        || (|r| == 1 && !IsWordChar(t[|t| - 1])))
  }

  /** `LastToken` captures exactly that, and fails only on an all-whitespace text. */
  lemma {:induction false} LastTokenShape(s: string)
    ensures LastToken(s).None? <==> RStrip(s) == []
    ensures LastToken(s).Some? ==> IsLastToken(RStrip(s), LastToken(s).value)
    decreases |s|
  {
    if s != [] && IsSpace(s[|s| - 1]) {
      assert RStrip(s) == RStrip(s[..|s| - 1]);
      assert LastToken(s) == LastToken(s[..|s| - 1]);
      LastTokenShape(s[..|s| - 1]);
    } else if s != [] {
      assert RStrip(s) == s;
      if IsWordChar(s[|s| - 1]) {
        var n := TrailingWordLength(s);
        assert n > 0;
        assert LastToken(s) == Some(s[|s| - n..]);
        assert IsLastToken(s, s[|s| - n..]);
      } else {
        assert LastToken(s) == Some([s[|s| - 1]]);
        assert s[|s| - 1..] == [s[|s| - 1]];
        assert IsLastToken(s, [s[|s| - 1]]);
      }
    }
  }

  function SpaceBeforeParenText(c: char): string {
    "E211 whitespace before '" + [c] + "'"
  }

  /** The token before a space-bracket pair excuses it: an operator, a comma, a keyword, or a `class` line. */
  predicate Excused(line: string, before: string) {
    Among(before, Operators) || before == "," || IsKeyword(before) || StartsWith(line, "class")
  }

  /** The token before index `i`, or nothing when there is none. */
  function TokenBefore(line: string, i: int): string {
    LastToken(Take(line, i)).GetOr("")
  }

  /** A space at `i` before bracket `c` that nothing excuses. */
  predicate Unexcused(line: string, c: char, i: int) {
    OccursAt(line, ClosePair(c), i) && !Excused(line, TokenBefore(line, i))
  }

  /**
   * The reference search: every index from `i` on, one at a time, for a
   * space before `c` that nothing excuses.
   */
  function ScanUnexcused(line: string, c: char, i: nat): (r: Option<nat>)
    ensures r.Some? ==> i <= r.value && Unexcused(line, c, r.value)
    ensures r.Some? ==> forall j :: i <= j < r.value ==> !Unexcused(line, c, j)
    ensures r.None? ==> forall j :: i <= j ==> !Unexcused(line, c, j)
    decreases |line| - i
  {
    if i + 2 > |line| then None
    else if Unexcused(line, c, i) then Some(i)
    else ScanUnexcused(line, c, i + 1)
  }

  /**
   * The `while True` loop of `whitespace_before_parameters` for one
   * bracket, from `start`: `find` jumps from one occurrence to the next
   * and excused ones are skipped. On a line that starts with whitespace
   * the source would fail on an empty prefix, so the line must not.
   */
  function SpaceBeforeBracketFrom(line: string, c: char, start: nat): (r: Option<Finding>)
    requires NoLeadingSpace(line)
    ensures r == match ScanUnexcused(line, c, start)
                 case None => None
                 case Some(i) => Some(Finding(i, SpaceBeforeParenText(c)))
    decreases |line| - start
  {
    var found := FindFrom(line, ClosePair(c), start);
    if found == -1 then
      ScanFindsNothing(line, c, start);
      None
    else
      TokenBeforeSpace(line, c, found);
      ScanSkipsToNext(line, c, start, found);
      ScanAtPair(line, c, found);
      var before := LastToken(Take(line, found)).value;
      if Excused(line, before) then SpaceBeforeBracketFrom(line, c, found + 1)
      else Some(Finding(found, SpaceBeforeParenText(c)))
  }

  /** Where the pair does not occur at or after `i`, the reference search finds nothing. */
  lemma {:induction false} ScanFindsNothing(line: string, c: char, i: nat)
    requires forall j :: i <= j ==> !OccursAt(line, ClosePair(c), j)
    ensures ScanUnexcused(line, c, i) == None
    decreases |line| - i
  {
    if i + 2 <= |line| {
      ScanFindsNothing(line, c, i + 1);
    }
  }

  /** The reference search passes over indices where the pair does not occur. */
  lemma {:induction false} ScanSkipsToNext(line: string, c: char, i: nat, next: nat)
    requires i <= next && OccursAt(line, ClosePair(c), next)
    requires forall j :: i <= j < next ==> !OccursAt(line, ClosePair(c), j)
    ensures ScanUnexcused(line, c, i) == ScanUnexcused(line, c, next)
    decreases next - i
  {
    if i < next {
      ScanStep(line, c, i);
      ScanSkipsToNext(line, c, i + 1, next);
    }
  }

  /** At an occurrence of the pair, the reference search stops unless the token before excuses it. */
  lemma {:induction false} ScanAtPair(line: string, c: char, i: nat)
    requires OccursAt(line, ClosePair(c), i)
    ensures ScanUnexcused(line, c, i)
      == if Excused(line, TokenBefore(line, i)) then ScanUnexcused(line, c, i + 1) else Some(i)
  {
  }

  /** The reference search passes over one index where the pair does not occur. */
  lemma {:induction false} ScanStep(line: string, c: char, i: nat)
    requires !OccursAt(line, ClosePair(c), i)
    ensures i + 2 <= |line| ==> ScanUnexcused(line, c, i) == ScanUnexcused(line, c, i + 1)
  {
    assert !Unexcused(line, c, i);
  }

  /** On a line that does not start with whitespace, a space is never at index 0, so some token precedes it. */
  lemma {:induction false} TokenBeforeSpace(line: string, c: char, i: int)
    requires NoLeadingSpace(line) && OccursAt(line, ClosePair(c), i)
    ensures 1 <= i < |line| - 1
    ensures LastToken(Take(line, i)).Some?
    ensures TokenBefore(line, i) == LastToken(Take(line, i)).value
  {
    assert line[i..i + 2][0] == line[i];
    var prefix := Take(line, i);
    assert prefix[0] == line[0];
    assert !IsSpace(prefix[0]);
    assert RStrip(prefix) != [];
    LastTokenShape(prefix);
  }

  /**
   * `whitespace_before_parameters`: the first unexcused space before `(`,
   * else the first before `[`.
   */
  function WhitespaceBeforeParameters(logicalLine: string): (r: Option<Finding>)
    requires NoLeadingSpace(logicalLine)
    ensures r.None? <==> ScanUnexcused(logicalLine, '(', 0).None? && ScanUnexcused(logicalLine, '[', 0).None?
    ensures ScanUnexcused(logicalLine, '(', 0).Some? ==>
      r == Some(Finding(ScanUnexcused(logicalLine, '(', 0).value, SpaceBeforeParenText('(')))
    ensures ScanUnexcused(logicalLine, '(', 0).None? && ScanUnexcused(logicalLine, '[', 0).Some? ==>
      r == Some(Finding(ScanUnexcused(logicalLine, '[', 0).value, SpaceBeforeParenText('[')))
  {
    var paren := SpaceBeforeBracketFrom(logicalLine, '(', 0);
    if paren.Some? then paren
    else SpaceBeforeBracketFrom(logicalLine, '[', 0)
  }

  /** A reported space is an unexcused one inside the line, never at its first character. */
  lemma {:induction false} ParameterSpaceIsUnexcused(logicalLine: string)
    requires NoLeadingSpace(logicalLine)
    ensures var r := WhitespaceBeforeParameters(logicalLine);
      r.Some? ==>
        && 0 < r.value.offset < |logicalLine| - 1
        && (Unexcused(logicalLine, '(', r.value.offset) || Unexcused(logicalLine, '[', r.value.offset))
  {
    var r := WhitespaceBeforeParameters(logicalLine);
    if r.Some? {
      var c := if ScanUnexcused(logicalLine, '(', 0).Some? then '(' else '[';
      TokenBeforeSpace(logicalLine, c, r.value.offset);
    }
  }

  /** The reference search never reports anything on a line that starts with `class`. */
  lemma {:induction false} ClassLineScanEmpty(line: string, c: char, i: nat)
    requires StartsWith(line, "class")
    ensures ScanUnexcused(line, c, i) == None
    decreases |line| - i
  {
    if i + 2 <= |line| {
      ClassLineScanEmpty(line, c, i + 1);
    }
  }

  /** A line starting with `class` is never reported by `whitespace_before_parameters`. */
  lemma {:induction false} ClassLinesExempt(logicalLine: string)
    requires NoLeadingSpace(logicalLine) && StartsWith(logicalLine, "class")
    ensures WhitespaceBeforeParameters(logicalLine) == None
  {
    ClassLineScanEmpty(logicalLine, '(', 0);
    ClassLineScanEmpty(logicalLine, '[', 0);
  }

  // ---------------------------------------------------------------- whitespace around operators

  const SpacesBeforeOperatorText := "E221 multiple spaces before operator"
  const TabBeforeOperatorText := "E222 tab before operator"

  /** `'  ' + operator` */
  function SpacesThen(op: string): string {
    "  " + op
  }

  /** `'\t' + operator` */
  function TabThen(op: string): string {
    "\t" + op
  }

  /**
   * `f` is the report for operator `ops[k]`: no earlier operator of `ops`
   * follows two spaces or a tab, and `f` lies at the first two spaces
   * before this one (E221), or, when there are none, at its first tab
   * (E222).
   */
  ghost predicate OperatorFirstListed(line: string, ops: seq<string>, k: int, f: Finding) {
    && 0 <= k < |ops|
    && (forall k' :: 0 <= k' < k ==> Absent(line, SpacesThen(ops[k'])) && Absent(line, TabThen(ops[k'])))
    && (|| (f.text == SpacesBeforeOperatorText && FirstAt(line, SpacesThen(ops[k]), f.offset))
        || (Absent(line, SpacesThen(ops[k]))
            && f.text == TabBeforeOperatorText && FirstAt(line, TabThen(ops[k]), f.offset)))
  }

  /** The loop of `whitespace_around_operator` over the operators `ops`, in order. */
  function SpaceAroundOperators(line: string, ops: seq<string>): (r: Option<Finding>)
    ensures r.None? <==> forall k :: 0 <= k < |ops| ==>
      Absent(line, SpacesThen(ops[k])) && Absent(line, TabThen(ops[k]))
    ensures r.Some? ==> exists k :: OperatorFirstListed(line, ops, k, r.value)
  {
    if ops == [] then None
    else
      FindIsFirst(line, SpacesThen(ops[0]));
      FindIsFirst(line, TabThen(ops[0]));
      var found := Find(line, SpacesThen(ops[0]));
      if found > -1 then
        assert OperatorFirstListed(line, ops, 0, Finding(found, SpacesBeforeOperatorText));
        Some(Finding(found, SpacesBeforeOperatorText))
      else
        var found' := Find(line, TabThen(ops[0]));
        if found' > -1 then
          assert OperatorFirstListed(line, ops, 0, Finding(found', TabBeforeOperatorText));
          Some(Finding(found', TabBeforeOperatorText))
        else
          var r := SpaceAroundOperators(line, ops[1..]);
          assert forall k :: 1 <= k < |ops| ==> ops[k] == ops[1..][k - 1];
          assert r.Some? ==> exists k :: OperatorFirstListed(line, ops, k, r.value) by {
            if r.Some? {
              var k :| OperatorFirstListed(line, ops[1..], k, r.value);
              assert OperatorFirstListed(line, ops, k + 1, r.value);
            }
          }
          r
  }

  /**
   * `whitespace_around_operator`: two spaces, or a tab, right before an
   * operator of the list (as a substring) is reported where it starts;
   * the operators are tried in list order, two spaces before a tab.
   */
  function WhitespaceAroundOperator(logicalLine: string): (r: Option<Finding>)
    ensures r.None? <==> forall op :: op in Operators ==>
      Absent(logicalLine, SpacesThen(op)) && Absent(logicalLine, TabThen(op))
    ensures r.Some? ==> exists k :: OperatorFirstListed(logicalLine, Operators, k, r.value)
  {
    var r := SpaceAroundOperators(logicalLine, Operators);
    assert forall op :: op in Operators <==> exists k :: 0 <= k < |Operators| && Operators[k] == op;
    r
  }

  /** When the first operator follows two spaces, its first two spaces are reported, wherever later operators occur. */
  lemma {:induction false} FirstOperatorWins(line: string, ops: seq<string>, f: Finding, at: int)
    requires |ops| > 0 && FirstAt(line, SpacesThen(ops[0]), at)
    requires exists k :: OperatorFirstListed(line, ops, k, f)
    ensures f == Finding(at, SpacesBeforeOperatorText)
  {
    var k :| OperatorFirstListed(line, ops, k, f);
    assert !Absent(line, SpacesThen(ops[0]));
    assert k == 0;
    assert FirstAt(line, SpacesThen(ops[0]), f.offset);
  }

  /**
   * List order decides, not position: in `x  = y  + z` the spaces before
   * `+` are reported, because `+` comes before `=` in the list.
   */
  lemma {:induction false} OperatorListOrder()
    ensures WhitespaceAroundOperator("x  = y  + z") == Some(Finding(6, SpacesBeforeOperatorText))
  {
    var line := "x  = y  + z";
    assert SpacesThen(Operators[0]) == "  +";
    assert FirstAt(line, "  +", 6) by {
      assert line[6..9] == "  +";
      forall j | 0 <= j < 6
        ensures !OccursAt(line, "  +", j)
      {
        assert line[j..j + 3][2] == line[j + 2] != '+';
      }
    }
    var r := WhitespaceAroundOperator(line);
    FirstOperatorWins(line, Operators, r.value, 6);
  }

  // ---------------------------------------------------------------- imports

  const MultipleImportsText := "E401 multiple imports on one line"

  /** `imports_on_separate_lines`: an `import ` line with a comma is reported at the first comma. */
  function ImportsOnSeparateLines(logicalLine: string): (r: Option<Finding>)
    ensures r.Some? <==> StartsWith(logicalLine, "import ") && ',' in logicalLine
    ensures r.Some? ==>
      && r.value.text == MultipleImportsText
      && 0 <= r.value.offset < |logicalLine| && logicalLine[r.value.offset] == ','
      && forall j :: 0 <= j < r.value.offset ==> logicalLine[j] != ','
  {
    if StartsWith(logicalLine, "import ") then
      FindChar(logicalLine, ',');
      var found := Find(logicalLine, ",");
      if found > -1 then Some(Finding(found, MultipleImportsText)) else None
    else None
  }
}
