# pep8.py checker core, modelled in Dafny

This project models the checking engine of `devtools/pep8/pep8.py`, version
0.2.0 of the PEP 8 style checker, and proves properties of that model. The
checker reads one Python file and runs two kinds of checks:

- **physical checks** run on every raw line the lexer asks for: mixed
  indentation (E101), tabs (W191), trailing whitespace (W291) and line
  length (E501);
- **logical checks** run on every statement, joined into one *logical line*:
  indentation (E111-E113), blank lines (E301-E303), whitespace (E201-E203,
  E211, E221, E222) and imports (E401).

The logical line is built as follows:

- each row of the statement is right-stripped and passed through
  `mute_line`, which cuts comments and fills string interiors with `x`;
- empty rows are dropped;
- each kept row loses its indentation and a trailing backslash;
- a space is inserted after a trailing comma.

A `mapping` of `(offset, row, indent)` entries records where each row's
text landed. A finding's offset in the logical line is mapped back through
it to a row and column. `report_error` then counts the finding under its
message, with trailing parenthesised values removed, and shows it unless
`-q` or `--ignore` hides it.

The model is organised by the program's own structure:

| file | module | models |
|---|---|---|
| `pystr.dfy` | `PyStr` | the Python 2 string operations used: `rstrip`, `lstrip`, `find`, `rfind`, clamped slices, `%d` |
| `indent.dfy` | `Indent` | `get_indent`, as a loop and as a function |
| `state.dfy` | `CheckState` | the shared `state` dictionary (a class) and a check's `(offset, text)` answer |
| `physical_checks.dfy` | `PhysicalChecks` | the four physical checks |
| `logical_checks.dfy` | `LogicalChecks` | the six logical checks |
| `mute.dfy` | `Mute` | `mute_line` |
| `tokens.dfy` | `Tokens` | lexer tokens, and the statement grouping done by `check_all` |
| `logical_line.dfy` | `LogicalLine` | how `check_logical` builds the logical line and maps offsets back |
| `report.dfy` | `Report` | `report_error`, `ignore_code` and `add_error_count` |
| `registry.dfy` | `Registry` | `find_checks` and Python 2 string ordering |
| `checker.dfy` | `Engine` | the `Checker` class: `readline`, `run_check`, `check_physical`, `check_logical`, `check_all` |
| `engine_props.dfy` | `EngineProps` | whole-run properties of `check_all` |

Three kinds of code are modelled three ways:

- **Stateful code** becomes imperative Dafny. `Checker` is a class whose
  methods update its attributes. The `state` dictionary is a `State`
  object shared by the checks that take it. The loops of `get_indent`,
  `mute_line`, `find_checks`, `check_logical`, `check_all` and the checks
  are `while`/`for` loops.
- **Each method is proved against a pure function** of the old state: its
  `ensures` says the new `View()` is that function's result, and the
  properties are proved as lemmas about those functions.
- **The lexer is not part of the model.** `tokenize.generate_tokens`
  interleaves two things: calls to `readline_check_physical` and the
  tokens it yields. `check_all` therefore takes that interleaving as an
  input trace of `Pull` and `Emit(token)` events. This keeps the order
  of physical and logical checks, and so the sharing of `indent_char`
  through `state`.

## Behaviour of the code worth knowing

The model follows the code as written. Where the code and its own
comments or the usual reading of PEP 8 differ, it follows the code:

- **The reported column ignores the indent.** It is `offset - map_offset`
  (line 477), counted from the start of the row's text *after* its
  indentation. The indentation is not added back, so a finding on an
  indented row is reported that many columns to the left of the character
  it is about. `LogicalLine.MapBackToRow` states this relation exactly.
  The unreachable code at lines 422-433 adds the indent, but it is never
  executed.
- **`indent_level` counts characters.** It is `before - after` (lines
  457-460), a count of leading whitespace characters. It is not
  `get_indent`, even though the module docstring (line 78) says tabs are
  expanded. A leading tab is level 1, not 8 (`LogicalLine.TabIndentLevel`).
- **Every finding is counted before filtering.** `report_error` updates
  `error_count` before it consults `-q`, `--testsuite` or `--ignore`
  (lines 511-527). Ignored and quiet findings are still counted.
- **Negative indices wrap, and `.group(1)` can fail.** In E202, a
  match at index 0 reads `line[-1]`, the last character.
  `whitespace_before_parameters` calls `.group(1)` on a regular expression
  search that fails only when the text before the space is all whitespace.
  The model requires the logical line not to start with whitespace, and
  proves that every logical line `check_logical` builds meets that
  requirement.
- **`check_logical` can raise.** An empty `mapping` raises an IndexError,
  which happens when every row of a statement mutes to nothing. So does a
  row number past the end of the file. An offset before every entry would
  raise a NameError if no earlier finding of the same statement had bound
  `original_number`, `original_offset` and `original_indent` (lines
  473-479); after an earlier finding it would silently reuse that
  finding's row and column. The model answers `None` in every one of these
  cases. It proves that no offset falls before every entry
  (`EngineProps.LogicalPassTotal`), so neither the NameError nor the reuse
  can happen, and that `check_logical` fails exactly in the first two cases
  (`EngineProps.CheckLogicalFails`).

## Model

| member | source | states |
|---|---|---|
| PyStr.RStrip | devtools/pep8/pep8.py:157 | `s.rstrip()` is the longest prefix of `s` not ending in whitespace; everything cut is whitespace |
| PyStr.LStrip | devtools/pep8/pep8.py:458 | `s.lstrip()` is the longest suffix not starting with whitespace; everything cut is whitespace |
| PyStr.RStripChar | devtools/pep8/pep8.py:154-156 | `s.rstrip(c)` removes exactly the trailing run of `c` |
| PyStr.FindFrom | devtools/pep8/pep8.py:271 | `s.find(sub, start)` is -1 when `sub` occurs nowhere at or after `start`, else its first occurrence there |
| PyStr.FindIsFirst | devtools/pep8/pep8.py:244 | `s.find(sub)` is -1 exactly when `sub` does not occur, else its first occurrence |
| PyStr.FindChar | devtools/pep8/pep8.py:306 | `s.find(c)` is -1 exactly when `c` is absent, else the first index holding `c` |
| PyStr.RFindChar | devtools/pep8/pep8.py:515 | `s.rfind(c)` is -1 exactly when `c` is absent, else the last index holding `c` |
| PyStr.SliceBound | devtools/pep8/pep8.py:397-399 | a slice bound is clamped into `[0, len]` and is unchanged when already inside |
| PyStr.Repeat | devtools/pep8/pep8.py:398 | `'x' * n` has `max(n, 0)` characters, all `x` |
| PyStr.PyIndex | devtools/pep8/pep8.py:454 | list indexing succeeds exactly for `-len <= i < len`, and a non-negative index reads that element |
| PyStr.NatToString | devtools/pep8/pep8.py:227 | `%d` of a natural number is a non-empty string of decimal digits that denotes it, with no leading zero |
| PyStr.IntToString | devtools/pep8/pep8.py:175 | `%d` starts with `-` exactly for negative numbers, and the digits after it denote the magnitude |
| PyStr.IntToStringInjective | devtools/pep8/pep8.py:227-229 | different counts print differently, so the E301/E302 texts, which keep their count, are counted under different keys |
| Indent.NextTabStop | devtools/pep8/pep8.py:335 | `result / 8 * 8 + 8` is the least multiple of 8 strictly above `result` |
| Indent.GetIndent | devtools/pep8/pep8.py:316-340 | the loop of `get_indent` computes `IndentWidth(line)` |
| Indent.ExpandAppend | devtools/pep8/pep8.py:333-339 | after blanks, a space adds one column, a tab moves to the next tab stop, anything else adds nothing |
| Indent.ExpandStopsAtText | devtools/pep8/pep8.py:338-339 | counting stops at the first character that is neither space nor tab |
| Indent.IndentWidthSteps | devtools/pep8/pep8.py:332-340 | the same three facts for `get_indent` itself |
| Indent.SpacesOnlyCount | devtools/pep8/pep8.py:336-337 | without tabs, the indentation is the number of leading spaces |
| Indent.GetIndentExamples | devtools/pep8/pep8.py:321-330 | the five docstring examples of `get_indent` hold |
| CheckState.State.constructor | devtools/pep8/pep8.py:487 | a new `state` dictionary holds no key |
| PhysicalChecks.IndentOf | devtools/pep8/pep8.py:98 | `indent_match(line).group(1)` is the longest prefix of spaces and tabs |
| PhysicalChecks.FirstOther | devtools/pep8/pep8.py:135-137 | the first index holding another character than `c`, or -1 when there is none |
| PhysicalChecks.TabsOrSpacesStep | devtools/pep8/pep8.py:116-137 | an unindented line changes nothing; otherwise `indent_char` is fixed by the first indented line, and E101 is reported exactly when some indent character differs from it, at the first one |
| PhysicalChecks.TabsOrSpaces | devtools/pep8/pep8.py:116-137 | the imperative check returns, and leaves in `state`, what `TabsOrSpacesStep` says |
| PhysicalChecks.TabsObsolete | devtools/pep8/pep8.py:140-147 | W191 is reported exactly when the indentation holds a tab, at the first tab |
| PhysicalChecks.TrailingWhitespace | devtools/pep8/pep8.py:150-159 | with line-end characters removed, W291 is reported exactly when the line ends in whitespace, where that run starts |
| PhysicalChecks.MaximumLineLength | devtools/pep8/pep8.py:162-175 | E501 is reported at offset 79 exactly when the right-stripped line is longer than 79, with its length in the text |
| PhysicalChecks.MixedIndentAcrossLines | devtools/pep8/pep8.py:127-137 | after a line indented with one character, a line indented with the other is reported as E101 at offset 0 |
| LogicalChecks.IndentationStep | devtools/pep8/pep8.py:183-203 | an empty line changes nothing; otherwise the level and block opening are recorded, and E111, E112, E113 or nothing is reported in exactly the documented cases |
| LogicalChecks.Indentation | devtools/pep8/pep8.py:183-203 | the imperative check returns, and leaves in `state`, what `IndentationStep` says |
| LogicalChecks.BlockMustBeIndented | devtools/pep8/pep8.py:194-201 | after a line ending in `:`, a line not indented deeper is E112 |
| LogicalChecks.IndentOnlyAfterBlock | devtools/pep8/pep8.py:193-203 | after a line opening no block, a deeper line is E113 and a line no deeper passes |
| LogicalChecks.BlankLinesStep | devtools/pep8/pep8.py:206-231 | empty lines are counted and any other line resets the count; E301, E302, E303 or nothing is reported in exactly the documented cases |
| LogicalChecks.BlankLines | devtools/pep8/pep8.py:206-231 | the imperative check returns, and leaves in `state`, what `BlankLinesStep` says |
| LogicalChecks.EmptyLinesCounted | devtools/pep8/pep8.py:219-224 | `n` empty lines after a statement leave the count at `n` |
| LogicalChecks.DefSpacing | devtools/pep8/pep8.py:225-229 | a top-level `def` passes after exactly two blank lines and a nested one after exactly one; otherwise it is reported with the count |
| LogicalChecks.SpaceAfterOpen | devtools/pep8/pep8.py:243-246 | nothing is found exactly when no `(`, `[` or `{` is followed by a space; otherwise the report is just after the first such pair of the first bracket, in list order, that has one |
| LogicalChecks.SpaceBeforeClose | devtools/pep8/pep8.py:247-250 | only the first space-then-closing-bracket pair of each bracket counts, and a comma before it excuses it; the first bracket, in list order, that is not excused is reported |
| LogicalChecks.SpaceBeforePunct | devtools/pep8/pep8.py:251-254 | nothing is found exactly when no `,`, `;` or `:` follows a space; otherwise the first such pair of the first character, in list order, that has one is reported |
| LogicalChecks.ExtraneousWhitespace | devtools/pep8/pep8.py:234-254 | E201 before E202 before E203, and within each the first character in list order, each at its first occurrence as above; the offset lies inside the line |
| LogicalChecks.AmongIsMembership | devtools/pep8/pep8.py:275 | the element-by-element test is list membership |
| LogicalChecks.TrailingWordLength | devtools/pep8/pep8.py:99 | the length of the maximal run of word characters a text ends with |
| LogicalChecks.LastTokenShape | devtools/pep8/pep8.py:99 | `(\w+\|\S)\s*$` fails exactly on an all-whitespace text and otherwise captures the whole final word or the final non-word character |
| LogicalChecks.ScanUnexcused | devtools/pep8/pep8.py:268-280 | a reference search: it finds the first index at or after the start with an unexcused space before the bracket, and finds nothing exactly when there is none |
| LogicalChecks.SpaceBeforeBracketFrom | devtools/pep8/pep8.py:269-280 | the `find` loop, which jumps between occurrences and skips excused ones, reports exactly what the reference search finds |
| LogicalChecks.ScanFindsNothing | devtools/pep8/pep8.py:271-273 | where the pair does not occur, the reference search finds nothing |
| LogicalChecks.ScanSkipsToNext | devtools/pep8/pep8.py:271 | the reference search passes over indices without the pair, as `find` jumps over them |
| LogicalChecks.ScanAtPair | devtools/pep8/pep8.py:274-280 | at an occurrence, the search stops unless the token before excuses it |
| LogicalChecks.TokenBeforeSpace | devtools/pep8/pep8.py:274 | on a line not starting with whitespace, some token precedes every space-bracket pair, so `.group(1)` never fails |
| LogicalChecks.WhitespaceBeforeParameters | devtools/pep8/pep8.py:257-280 | E211 reports the first unexcused space before `(`, else the first before `[`, else nothing |
| LogicalChecks.ParameterSpaceIsUnexcused | devtools/pep8/pep8.py:268-280 | a reported space lies strictly inside the line and nothing excuses it |
| LogicalChecks.ClassLinesExempt | devtools/pep8/pep8.py:278-279 | a line starting with `class` is never reported by E211 |
| LogicalChecks.SpaceAroundOperators | devtools/pep8/pep8.py:291-297 | nothing is found exactly when no operator follows two spaces or a tab; otherwise the first operator in list order that does is reported, at its first two spaces, or at its first tab when it has no two spaces |
| LogicalChecks.WhitespaceAroundOperator | devtools/pep8/pep8.py:283-297 | the same over the `operators` list, with E221 for two spaces and E222 for a tab |
| LogicalChecks.FirstOperatorWins | devtools/pep8/pep8.py:291-294 | when the first operator of the list follows two spaces, its first two spaces are reported, whatever else the line holds |
| LogicalChecks.OperatorListOrder | devtools/pep8/pep8.py:101-104 | in `x  = y  + z` the spaces before `+` (offset 6) are reported, not those before `=`, because `+` is listed first |
| LogicalChecks.ImportsOnSeparateLines | devtools/pep8/pep8.py:300-308 | E401 is reported exactly when an `import ` line holds a comma, at the first comma |
| Mute.MuteTokenEffect | devtools/pep8/pep8.py:381-399 | a token that misses the row, or is neither comment nor string, leaves it alone; a comment cuts the row at its column and strips before it; a string fills exactly its span with `x` |
| Mute.MuteLine | devtools/pep8/pep8.py:380-400 | the loop of `mute_line` applies every token's effect in order |
| Mute.MuteOne | devtools/pep8/pep8.py:382-399 | one loop iteration has exactly one token's effect |
| Mute.MutedOnlyFillsStrings | devtools/pep8/pep8.py:386-399 | when only strings touch a row, muting keeps its length, makes exactly the columns inside some string `x`, and keeps every other character |
| Mute.OneLineStringKeepsQuotes | devtools/pep8/pep8.py:388-392 | a string on one row keeps its first and last `QuoteWidth` columns (three for a triple-quoted string, else one, which for a prefixed string such as `r'ab'` is the prefix letter) and everything between becomes `x` |
| Mute.InnerRowOfStringMasked | devtools/pep8/pep8.py:393-398 | a row strictly inside a multi-line string becomes all `x` |
| Mute.FirstRowOfStringMasked | devtools/pep8/pep8.py:388-396 | the first row of a multi-line string is muted from after its opening quotes to the end |
| Tokens.DepthAppend | devtools/pep8/pep8.py:494-497 | the depth after one more token grows by that token's change |
| Tokens.DeltaOfBrackets | devtools/pep8/pep8.py:494-497 | an opening bracket raises the depth by one, a closing bracket lowers it by one, any other token leaves it |
| Tokens.ParensTrackDepth | devtools/pep8/pep8.py:484-497 | `parens` is the starting value plus the bracket depth of the tokens consumed |
| Tokens.GroupsPartition | devtools/pep8/pep8.py:490-502 | the statements handed to `check_logical`, then the pending tokens, are exactly the input tokens in order |
| Tokens.FeedKeepsPending | devtools/pep8/pep8.py:490-502 | one token keeps the accumulators between statements, and a statement it closes is the pending tokens plus it |
| Tokens.GroupsAreStatements | devtools/pep8/pep8.py:488-502 | every group handed to `check_logical` starts at its first token, ends at a NEWLINE at depth zero, and has no earlier such NEWLINE |
| Tokens.EmptyAccumPending | devtools/pep8/pep8.py:482-484 | the loop starts between statements |
| LogicalLine.RowText | devtools/pep8/pep8.py:454-455 | reading row `r` succeeds exactly when `self.lines[r - 1]` raises no IndexError |
| LogicalLine.Rows | devtools/pep8/pep8.py:453-455 | the rows `start..end` are read in order and fail exactly when one is out of the file |
| LogicalLine.PieceShape | devtools/pep8/pep8.py:457-462 | a kept row contributes its text from the indent on, with no leading whitespace, shorter only by a final backslash |
| LogicalLine.PieceChar | devtools/pep8/pep8.py:458-462 | character `j` of a row's contribution is character `indent + j` of the row |
| LogicalLine.AssembleKept | devtools/pep8/pep8.py:456 | rows that mute to nothing change neither `logical` nor `mapping` |
| LogicalLine.AppendKeepsLayout | devtools/pep8/pep8.py:456-466 | appending one non-empty row keeps the layout invariant (entries, no leading space, pieces at their offsets, only comma spaces between) |
| LogicalLine.AssembleLayout | devtools/pep8/pep8.py:453-466 | the row loop produces a logical line laid out from the kept rows |
| LogicalLine.BuildLayout | devtools/pep8/pep8.py:451-466 | the logical line of a statement has that layout |
| LogicalLine.BuildStartsLine | devtools/pep8/pep8.py:465-467 | the logical line never starts with whitespace, and the first entry is at offset 0 with a non-negative indent |
| LogicalLine.KeptFromRows | devtools/pep8/pep8.py:453-456 | kept rows come from the statement, have text, and are in increasing order |
| LogicalLine.KeptCoversRows | devtools/pep8/pep8.py:456 | every row with text is kept |
| LogicalLine.BuildRows | devtools/pep8/pep8.py:453-465 | the mapping lists rows of the statement that have text, in strictly increasing order |
| LogicalLine.BuildCoversRows | devtools/pep8/pep8.py:453-465 | every row of the statement with text has an entry |
| LogicalLine.MissingRowFails | devtools/pep8/pep8.py:454 | one row outside the file makes the whole statement fail |
| LogicalLine.BuildStep | devtools/pep8/pep8.py:453-466 | the rows up to `row` are the rows before it, then row `row` |
| LogicalLine.AppendLine | devtools/pep8/pep8.py:456-466 | the body of the row loop appends one row as `AppendRow` says |
| LogicalLine.NextRow | devtools/pep8/pep8.py:454-466 | reading, muting and appending one row extends the build by that row, failing only on a row outside the file |
| LogicalLine.BuildLogicalLine | devtools/pep8/pep8.py:451-466 | the row loop of `check_logical` computes `Build` of the statement's rows |
| LogicalLine.LastAtOrBefore | devtools/pep8/pep8.py:473-477 | the last entry starting at or before the offset, and none exactly when every entry starts after it |
| LogicalLine.Locate | devtools/pep8/pep8.py:473-477 | the mapping loop returns that entry's row and `offset - map_offset` |
| LogicalLine.MapBackToPiece | devtools/pep8/pep8.py:473-477 | for an offset inside the logical line, that entry exists and the offset is in its piece or on a space inserted after a comma |
| LogicalLine.MapBackToRow | devtools/pep8/pep8.py:473-478 | the character at such an offset is the entry row's character at `indent + column`, or a space inserted after a comma |
| LogicalLine.IndentLevelCountsCharacters | devtools/pep8/pep8.py:457-460 | `indent_level` is the number of leading whitespace characters |
| LogicalLine.TabIndentLevel | devtools/pep8/pep8.py:457-460 | a leading tab is level 1, where `get_indent` gives 8 |
| Report.CountKey | devtools/pep8/pep8.py:512-517 | a text ending in `)` and holding `(` loses its last `(` and what follows, then trailing whitespace; any other text is its own key |
| Report.IgnoreCode | devtools/pep8/pep8.py:371-377 | a code is ignored exactly when some `--ignore` entry is a prefix of it |
| Report.ReportError | devtools/pep8/pep8.py:505-530 | the count of the finding's key grows by one and no other count changes; the finding is appended at column `offset + 1` exactly when it is visible |
| Report.CountKeyDropsValues | devtools/pep8/pep8.py:513-517 | `head (values)` is counted under `head` |
| Report.LineTooLongShareKey | devtools/pep8/pep8.py:175 | every E501 finding is counted under one key, whatever the length |
| Report.BlankLinesShareKey | devtools/pep8/pep8.py:231 | every E303 finding is counted under one key, whatever the count |
| Report.QuietShowsNothing | devtools/pep8/pep8.py:518-520 | with `-q` nothing is shown, but the finding is still counted |
| Report.NoOutputConsistent | devtools/pep8/pep8.py:486 | empty counts and no messages are consistent |
| Report.ReportErrorKeepsConsistent | devtools/pep8/pep8.py:518-529 | `report_error` keeps every shown message visible and no key with more shown messages than counted |
| Report.ConsistentHidesFiltered | devtools/pep8/pep8.py:519-528 | in a consistent output, `-q` shows nothing and no shown code is ignored |
| Report.Merged | devtools/pep8/pep8.py:578-580 | the merged counts hold every key of both, with the two counts summed |
| Report.MergedAssociative | devtools/pep8/pep8.py:567-570 | merging files in any grouping gives the same total |
| Report.MergedCommutes | devtools/pep8/pep8.py:567-570 | the order in which files are merged does not change the total |
| Report.Totals.AddErrorCount | devtools/pep8/pep8.py:578-580 | the key-by-key loop leaves the merged counts |
| Registry.LessIrreflexive | devtools/pep8/pep8.py:367 | no name sorts before itself |
| Registry.LessTransitive | devtools/pep8/pep8.py:367 | the string order is transitive |
| Registry.LessAsymmetric | devtools/pep8/pep8.py:367 | the string order is asymmetric |
| Registry.LessTotal | devtools/pep8/pep8.py:367 | of two different names, one sorts first |
| Registry.Selected | devtools/pep8/pep8.py:362-366 | every selected name is a global function whose first argument starts with the prefix |
| Registry.Insert | devtools/pep8/pep8.py:367 | insertion into a sorted list keeps it sorted and adds exactly the new name |
| Registry.Sort | devtools/pep8/pep8.py:367 | `checks.sort()` gives a sorted permutation |
| Registry.SortedUnique | devtools/pep8/pep8.py:367 | two sorted lists of the same names are equal |
| Registry.FindChecks | devtools/pep8/pep8.py:355-368 | `find_checks` returns the selected names, sorted |
| Registry.PhysicalNamesSorted | devtools/pep8/pep8.py:367 | the physical check list is in sorted order |
| Registry.LogicalNamesSorted | devtools/pep8/pep8.py:367 | the logical check list is in sorted order |
| Registry.SelectedAppend | devtools/pep8/pep8.py:362-366 | selection distributes over concatenation |
| Registry.SelectedAll | devtools/pep8/pep8.py:365-366 | when every function qualifies, all names are selected in order |
| Registry.SelectedNone | devtools/pep8/pep8.py:365 | when none qualifies, nothing is selected |
| Registry.NotSelected | devtools/pep8/pep8.py:365 | a first argument too short, or differing at its first character, is not selected |
| Registry.GlobalsSelection | devtools/pep8/pep8.py:362-366 | among the module's globals, exactly the physical and the logical checks are selected |
| Registry.RegisteredChecks | devtools/pep8/pep8.py:408-409 | the two `find_checks` calls return the physical and logical check lists |
| Registry.RegistryOrder | devtools/pep8/pep8.py:362-368 | any sorted list of the selected names is the check list, whatever order the globals are visited in |
| Engine.PhysicalOutcome | devtools/pep8/pep8.py:435-439 | only `tabs_or_spaces` changes `state`, and every offset is non-negative |
| Engine.LogicalOutcome | devtools/pep8/pep8.py:435-439 | only `indentation` and `blank_lines` change `state`, and every offset is non-negative |
| Engine.PhysicalPass | devtools/pep8/pep8.py:443-447 | the physical checks change neither the line number nor the lines nor the indent level |
| Engine.LogicalPass | devtools/pep8/pep8.py:469-479 | the logical checks change neither the line number nor the lines nor the indent level |
| Engine.Checker.constructor | devtools/pep8/pep8.py:405-409 | a new checker holds the registered check lists and empty attributes |
| Engine.Checker.Readline | devtools/pep8/pep8.py:411-415 | the line number grows by one and the line read is that line, or empty past the end |
| Engine.Checker.ReportError | devtools/pep8/pep8.py:505-530 | the counts and shown messages change as `Report.ReportError` says |
| Engine.Checker.RunPhysicalCheck | devtools/pep8/pep8.py:435-439 | dispatching a physical check by name gives its result and its effect on `state` |
| Engine.Checker.PhysicalCheck | devtools/pep8/pep8.py:444-447 | one physical check runs, and what it finds is reported on the current line |
| Engine.Checker.CheckPhysical | devtools/pep8/pep8.py:441-447 | every registered physical check runs in order on the line |
| Engine.Checker.ReadlineCheckPhysical | devtools/pep8/pep8.py:417-420 | the next line is read, checked, and returned |
| Engine.Checker.RunLogicalCheck | devtools/pep8/pep8.py:435-439 | dispatching a logical check by name gives its result and its effect on `state` |
| Engine.Checker.LogicalCheck | devtools/pep8/pep8.py:470-479 | one logical check runs, and what it finds is reported at the mapped row and column |
| Engine.Checker.ReportFinding | devtools/pep8/pep8.py:471-479 | a finding is mapped back through the mapping and reported |
| Engine.Checker.CheckLogical | devtools/pep8/pep8.py:449-479 | `check_logical` succeeds exactly when `CheckLogicalSpec` does, leaving the attributes it computes |
| Engine.Checker.RunLogicalChecks | devtools/pep8/pep8.py:469-479 | every registered logical check runs in order |
| Engine.Checker.EmitToken | devtools/pep8/pep8.py:490-502 | one token is handled as `Step` says, and a closed statement is checked |
| Engine.Checker.FeedToken | devtools/pep8/pep8.py:490-499 | the accumulator updates for one token are those of `Feed` |
| Engine.Checker.CheckAll | devtools/pep8/pep8.py:481-503 | `check_all` fails exactly when `CheckAllSpec` does, and otherwise returns its counts and leaves its shown messages |
| EngineProps.PhysicalCheckStepConsistent | devtools/pep8/pep8.py:444-447 | one physical check keeps the output consistent |
| EngineProps.PhysicalPassConsistent | devtools/pep8/pep8.py:441-447 | the physical checks of one line keep the output consistent |
| EngineProps.LogicalReportShape | devtools/pep8/pep8.py:471-479 | a logical finding is dropped only with a failure, and otherwise reported once, on an entry's row, at a non-negative column |
| EngineProps.LogicalReportConsistent | devtools/pep8/pep8.py:471-479 | reporting a logical finding keeps the output consistent |
| EngineProps.LogicalPassConsistent | devtools/pep8/pep8.py:469-479 | the logical checks of one statement keep the output consistent |
| EngineProps.CheckLogicalConsistent | devtools/pep8/pep8.py:449-479 | `check_logical` keeps the output consistent |
| EngineProps.StepConsistent | devtools/pep8/pep8.py:488-502 | one lexer event keeps the output consistent |
| EngineProps.RunConsistent | devtools/pep8/pep8.py:488-502 | any sequence of lexer events keeps the output consistent |
| EngineProps.CheckAllConsistent | devtools/pep8/pep8.py:481-530 | over a whole file, every shown message passes the filters, no key has more shown than counted, and `-q` shows nothing |
| EngineProps.ReportErrorAdds | devtools/pep8/pep8.py:529-530 | `report_error` keeps earlier messages and adds at most one, at column `offset + 1` |
| EngineProps.PhysicalPassPlaces | devtools/pep8/pep8.py:441-447 | physical checks add messages only on the current line, at columns of at least 1 |
| EngineProps.PullStepPlaces | devtools/pep8/pep8.py:417-420 | reading a line advances the line number by one and adds messages only on that line |
| EngineProps.LogicalReportPlaces | devtools/pep8/pep8.py:473-479 | a logical finding is shown only on a row the mapping names |
| EngineProps.LogicalPassPlaces | devtools/pep8/pep8.py:469-479 | logical checks add messages only on rows the mapping names, at columns of at least 1 |
| EngineProps.CheckLogicalPlaces | devtools/pep8/pep8.py:449-479 | `check_logical` adds messages only on rows between the statement's first and last |
| EngineProps.LogicalReportTotal | devtools/pep8/pep8.py:473-477 | with an entry at offset 0, a non-negative offset always finds an entry |
| EngineProps.LogicalPassTotal | devtools/pep8/pep8.py:469-479 | so no logical check ends in a name error |
| EngineProps.CheckLogicalFails | devtools/pep8/pep8.py:453-467 | `check_logical` fails exactly when a row is outside the file or no row has text |
| EngineProps.StepCounts | devtools/pep8/pep8.py:488-502 | a read advances the line number by one and keeps the accumulators; a token advances the accumulators as `Feed` and keeps the line number |
| EngineProps.RunTracksLexer | devtools/pep8/pep8.py:488-502 | a run reads one line per read event and holds the accumulators the grouping reaches on the tokens yielded |
| EngineProps.CheckAllReadsEveryPull | devtools/pep8/pep8.py:485-488 | `check_all` ends with `line_number` equal to the number of lines the lexer read |

## Left out

- Command-line parsing (`_main`, `OptionParser`), `input_file`, `input_dir`, `excluded` and `--statistics`: options are a parameter holding only `quiet` and `ignore`.
- File I/O: a file is given as its `readlines()` list, and printing is modelled as the list of messages shown. The file name is not part of a message.
- The file name that `-q` (given once) prints before a file's first error: this is printing only, and it changes no count.
- The `--testsuite` filter on the file name (lines 521-526): it needs the file name, and it only hides messages.
- `--show-source` and `--show-pep8` (lines 531-536): these are printing only.
- `message` and `print`: these are output only.
- `tokenize.generate_tokens` is not part of this model. Its behaviour on a file is an input trace of read and token events, so tokenize errors are not modelled, and neither is whether a trace matches the file.
- Reflection in `find_checks`: the globals dictionary is a fixed list of the module's functions and their argument names, in name order. The dictionary's own iteration order is not modelled, because `RegistryOrder` shows that the sort makes it irrelevant. `run_check` gets its arguments by name through `getattr`; the model dispatches on the check name with the same arguments.
- The unreachable code after `return line` in `readline_check_physical` (lines 422-433).
- Attributes that `check_all` sets before reading them, such as `line_number` and `state`, start out as zero or empty. In the source they do not exist until then.
- `Registry.Selected`: its contract states only that each selected name qualifies. The exact selection is proved as `Registry.GlobalsSelection` for the module's own globals.
- `Engine.PhysicalPass` and `Engine.LogicalPass`: their contracts state only what the checks leave unchanged. What they report is stated by the `EngineProps` lemmas.
