/**
 * The `Checker` of one file: `check_all` drives the lexer through
 * `readline_check_physical`, runs the physical checks on every line it
 * reads, groups the tokens into statements and runs the logical checks on
 * each statement's logical line, mapping their offsets back to physical
 * rows before reporting them.
 *
 * The lexer is not modelled: its behaviour on a file is given as a trace
 * of events, each either a call to `readline` or a token it yields.
 */
module Engine {
  import opened Wrappers
  import opened PyStr
  import opened Tokens
  import opened CheckState
  import opened PhysicalChecks
  import opened LogicalChecks
  import opened LogicalLine
  import opened Report
  import Registry

  /** The attributes of a `Checker` that the checks and `report_error` read and write. */
  datatype Machine = Machine(
    lineNumber: nat,
    physicalLine: string,
    logicalLine: string,
    indentLevel: nat,
    state: StateView,
    out: Output)

  /** The `check_all` loop between two events: the checker and the loop's `start`, `tokens` and `parens`. */
  datatype Snapshot = Snapshot(machine: Machine, acc: Accum)

  /** What `self.readline()` returns once `line_number` has been incremented to `lineNumber`. */
  function LineAt(lines: seq<string>, lineNumber: nat): string
    requires lineNumber >= 1
  {
    if lineNumber > |lines| then "" else lines[lineNumber - 1]
  }

  // ------------------------------------------------------------ dispatch

  /**
   * `run_check` for the physical check called `name`: its result and the
   * `state` dictionary after it. Only `tabs_or_spaces` takes `state`, and
   * every offset a physical check answers is a column of the line.
   */
  function PhysicalOutcome(name: string, physicalLine: string, st: StateView): (r: (Option<Finding>, StateView))
    ensures name != "tabs_or_spaces" ==> r.1 == st
    ensures r.0.Some? ==> r.0.value.offset >= 0
  {
    if name == "tabs_or_spaces" then TabsOrSpacesStep(physicalLine, st)
    else if name == "tabs_obsolete" then (TabsObsolete(physicalLine), st)
    else if name == "trailing_whitespace" then (TrailingWhitespace(physicalLine), st)
    else if name == "maximum_line_length" then (MaximumLineLength(physicalLine), st)
    else (None, st)
  }

  /**
   * `run_check` for the logical check called `name`. Only `indentation`
   * and `blank_lines` take `state`; every offset a logical check answers
   * is an index into the logical line, so it is never negative.
   */
  function LogicalOutcome(name: string, logicalLine: string, st: StateView, indentLevel: nat): (r: (Option<Finding>, StateView))
    requires NoLeadingSpace(logicalLine)
    ensures name != "indentation" && name != "blank_lines" ==> r.1 == st
    ensures r.0.Some? ==> r.0.value.offset >= 0
  {
    if name == "indentation" then IndentationStep(logicalLine, st, indentLevel)
    else if name == "blank_lines" then BlankLinesStep(logicalLine, st, indentLevel)
    else if name == "extraneous_whitespace" then (ExtraneousWhitespace(logicalLine), st)
    else if name == "whitespace_before_parameters" then (WhitespaceBeforeParameters(logicalLine), st)
    else if name == "whitespace_around_operator" then (WhitespaceAroundOperator(logicalLine), st)
    else if name == "imports_on_separate_lines" then (ImportsOnSeparateLines(logicalLine), st)
    else (None, st)
  }

  // ------------------------------------------------------ physical lines

  /** One iteration of `check_physical`: run the check, report what it finds on the current line. */
  function PhysicalCheckStep(m: Machine, name: string, options: Options): Machine {
    var (result, st) := PhysicalOutcome(name, m.physicalLine, m.state);
    match result
    case None => m.(state := st)
    case Some(f) => m.(state := st, out := ReportError(m.out, m.lineNumber, f.offset, f.text, options))
  }

  /** The checker after the physical checks `names` have run, in order. */
  function PhysicalPass(names: seq<string>, m: Machine, options: Options): (r: Machine)
    ensures r.lineNumber == m.lineNumber && r.physicalLine == m.physicalLine
    ensures r.logicalLine == m.logicalLine && r.indentLevel == m.indentLevel
    decreases |names|
  {
    if names == [] then m
    else PhysicalCheckStep(PhysicalPass(names[..|names| - 1], m, options), names[|names| - 1], options)
  }

  /** Running one more check extends the pass by one step. */
  lemma {:induction false} PhysicalPassExtends(names: seq<string>, i: int, m: Machine, options: Options, before: Machine)
    requires 0 <= i < |names| && PhysicalPass(names[..i], m, options) == before
    ensures PhysicalPass(names[..i + 1], m, options) == PhysicalCheckStep(before, names[i], options)
  {
    assert names[..i + 1][..i] == names[..i];
  }

  /** `readline_check_physical`: the next line is read and every physical check runs on it. */
  function PullStep(lines: seq<string>, m: Machine, options: Options): Machine {
    var n := m.lineNumber + 1;
    PhysicalPass(Registry.PhysicalNames, m.(lineNumber := n, physicalLine := LineAt(lines, n)), options)
  }

  // ------------------------------------------------------- logical lines

  /**
   * One iteration of the check loop of `check_logical`: run the check and
   * report what it finds at the row and column the mapping gives. `None`
   * stands for the name error raised when no entry starts at or before
   * the offset.
   */
  function LogicalCheckStep(m: Machine, mapping: seq<Entry>, name: string, options: Options): Option<Machine>
    requires NoLeadingSpace(m.logicalLine)
  {
    var (result, st) := LogicalOutcome(name, m.logicalLine, m.state, m.indentLevel);
    LogicalReport(m.(state := st), mapping, result, options)
  }

  /** Reporting what one logical check found: at the row and column of the entry it falls under. */
  function LogicalReport(m: Machine, mapping: seq<Entry>, result: Option<Finding>, options: Options): Option<Machine> {
    match result
    case None => Some(m)
    case Some(f) =>
      match LastAtOrBefore(mapping, f.offset)
      case None => None
      case Some(i) =>
        Some(m.(out := ReportError(m.out, mapping[i].row, f.offset - mapping[i].offset, f.text, options)))
  }

  /** The checker after the logical checks `names` have run, in order, or `None` once one fails. */
  function LogicalPass(names: seq<string>, m: Machine, mapping: seq<Entry>, options: Options): (r: Option<Machine>)
    requires NoLeadingSpace(m.logicalLine)
    ensures r.Some? ==> r.value.lineNumber == m.lineNumber && r.value.physicalLine == m.physicalLine
    ensures r.Some? ==> r.value.logicalLine == m.logicalLine && r.value.indentLevel == m.indentLevel
    decreases |names|
  {
    if names == [] then Some(m)
    else
      match LogicalPass(names[..|names| - 1], m, mapping, options)
      case None => None
      case Some(m') => LogicalCheckStep(m', mapping, names[|names| - 1], options)
  }

  /** Running one more check extends the pass by one step. */
  lemma {:induction false} LogicalPassExtends(names: seq<string>, i: int, m: Machine, mapping: seq<Entry>, options: Options, before: Machine)
    requires 0 <= i < |names| && NoLeadingSpace(m.logicalLine)
    requires LogicalPass(names[..i], m, mapping, options) == Some(before)
    ensures LogicalPass(names[..i + 1], m, mapping, options) == LogicalCheckStep(before, mapping, names[i], options)
  {
    assert names[..i + 1][..i] == names[..i];
  }

  /**
   * `check_logical(start, end, tokens)`: build the logical line and its
   * mapping, take the indent level from the first entry, run every
   * logical check. `None` stands for the IndexError of a row outside the
   * file or of an empty mapping, and for the name error above.
   */
  function CheckLogicalSpec(lines: seq<string>, g: Group, m: Machine, options: Options): Option<Machine> {
    match Build(lines, g.start.row, g.end.row, g.tokens)
    case None => None
    case Some(built) =>
      if built.1 == [] then None
      else
        BuildStartsLine(lines, g.start.row, g.end.row, g.tokens);
        LogicalPass(Registry.LogicalNames, m.(logicalLine := built.0, indentLevel := built.1[0].indent), built.1, options)
  }

  // ---------------------------------------------------------- the loop

  /** One event of the lexer as `check_all` handles it; `None` once a statement fails. */
  function Step(lines: seq<string>, options: Options, s: Snapshot, e: LexEvent): Option<Snapshot> {
    match e
    case Pull => Some(s.(machine := PullStep(lines, s.machine, options)))
    case Emit(t) =>
      var (acc, group) := Feed(s.acc, t);
      match group
      case None => Some(Snapshot(s.machine, acc))
      case Some(g) =>
        match CheckLogicalSpec(lines, g, s.machine, options)
        case None => None
        case Some(m) => Some(Snapshot(m, acc))
  }

  /** The snapshot after the events `trace`, or `None` once a statement fails. */
  function Run(lines: seq<string>, options: Options, s: Snapshot, trace: seq<LexEvent>): Option<Snapshot>
    decreases |trace|
  {
    if trace == [] then Some(s)
    else
      match Step(lines, options, s, trace[0])
      case None => None
      case Some(s') => Run(lines, options, s', trace[1..])
  }

  /** Where `check_all` starts: line 0, no counts, an empty `state`, empty accumulators. */
  function Initial(m: Machine): Snapshot {
    Snapshot(m.(lineNumber := 0, state := EmptyState, out := NoOutput), EmptyAccum)
  }

  /** `check_all()` on a checker whose attributes are `m`: the counts and messages of the file, or `None` for an exception. */
  function CheckAllSpec(lines: seq<string>, options: Options, trace: seq<LexEvent>, m: Machine): Option<Output> {
    match Run(lines, options, Initial(m), trace)
    case None => None
    case Some(s) => Some(s.machine.out)
  }

  // ------------------------------------------------------- the checker

  class Checker {
    const lines: seq<string>
    const options: Options
    const physicalChecks: seq<string>
    const logicalChecks: seq<string>
    var lineNumber: nat
    var physicalLine: string
    var logicalLine: string
    var indentLevel: nat
    var state: State
    var errorCount: map<string, int>
    var shown: seq<Shown>

    /** The checks are the registered ones, in the order `find_checks` returns them. */
    ghost predicate Valid() {
      physicalChecks == Registry.PhysicalNames && logicalChecks == Registry.LogicalNames
    }

    function View(): Machine
      reads this, state
    {
      Machine(lineNumber, physicalLine, logicalLine, indentLevel, state.View(), Output(errorCount, shown))
    }

    /**
     * `Checker(filename)` on a file whose `readlines()` are `lines`: the
     * check lists come from `find_checks`. The attributes `check_all` sets
     * before reading them start out empty.
     */
    constructor (lines: seq<string>, options: Options)
      ensures this.lines == lines && this.options == options
      ensures Valid()
      ensures View() == Machine(0, "", "", 0, EmptyState, NoOutput)
    {
      this.lines := lines;
      this.options := options;
      var physical, logical := Registry.RegisteredChecks();
      physicalChecks := physical;
      logicalChecks := logical;
      lineNumber, physicalLine, logicalLine, indentLevel := 0, "", "", 0;
      errorCount, shown := map[], [];
      state := new State();
    }

    /** `readline()`: the next line of the file, or `''` past its end. */
    method Readline() returns (line: string)
      modifies this
      ensures lineNumber == old(lineNumber) + 1 && line == LineAt(lines, lineNumber)
      ensures View() == old(View()).(lineNumber := lineNumber)
      ensures state == old(state)
    {
      lineNumber := lineNumber + 1;
      if lineNumber > |lines| {
        return "";
      }
      return lines[lineNumber - 1];
    }

    /** `report_error`: count the finding under its key, then show it unless the options hide it. */
    method ReportError(lineNumber: int, offset: int, text: string)
      modifies this
      ensures View() == old(View()).(out := Report.ReportError(old(View()).out, lineNumber, offset, text, options))
      ensures state == old(state)
    {
      var code := Take(text, 4);
      var countText := text;
      if EndsWith(text, ")") {
        var found := RFindChar(countText, '(');
        if found > -1 {
          countText := RStrip(countText[..found]);
        }
      }
      errorCount := errorCount[countText := Get(errorCount, countText) + 1];
      if options.quiet != 0 {
        return;
      }
      if IgnoreCode(code, options.ignore) {
        return;
      }
      shown := shown + [Shown(lineNumber, offset + 1, text)];
    }

    /** `run_check` for a physical check: its arguments are read from the checker's attributes. */
    method RunPhysicalCheck(name: string) returns (result: Option<Finding>)
      modifies state
      ensures (result, state.View()) == PhysicalOutcome(name, physicalLine, old(state.View()))
    {
      if name == "tabs_or_spaces" {
        result := TabsOrSpaces(physicalLine, state);
      } else if name == "tabs_obsolete" {
        result := TabsObsolete(physicalLine);
      } else if name == "trailing_whitespace" {
        result := TrailingWhitespace(physicalLine);
      } else if name == "maximum_line_length" {
        result := MaximumLineLength(physicalLine);
      } else {
        result := None;
      }
    }

    /** The body of the `check_physical` loop: run one check and report what it finds on the current line. */
    method PhysicalCheck(name: string)
      modifies this, state
      ensures View() == PhysicalCheckStep(old(View()), name, options)
      ensures state == old(state)
    {
      var result := RunPhysicalCheck(name);
      if result.Some? {
        ReportError(lineNumber, result.value.offset, result.value.text);
      }
    }

    /** `check_physical(line)`: run every physical check on the line, reporting on the current line number. */
    method CheckPhysical(line: string)
      requires Valid()
      modifies this, state
      ensures View() == PhysicalPass(Registry.PhysicalNames, old(View()).(physicalLine := line), options)
      ensures state == old(state)
    {
      physicalLine := line;
      ghost var start := View();
      for i := 0 to |physicalChecks|
        invariant state == old(state)
        invariant View() == PhysicalPass(physicalChecks[..i], start, options)
      {
        ghost var before := View();
        PhysicalCheck(physicalChecks[i]);
        PhysicalPassExtends(physicalChecks, i, start, options, before);
      }
      assert physicalChecks[..|physicalChecks|] == physicalChecks;
    }

    /** `readline_check_physical()`: read the next line and check it. */
    method ReadlineCheckPhysical() returns (line: string)
      requires Valid()
      modifies this, state
      ensures line == LineAt(lines, old(lineNumber) + 1)
      ensures View() == PullStep(lines, old(View()), options)
      ensures state == old(state)
    {
      line := Readline();
      CheckPhysical(line);
    }

    /** `run_check` for a logical check. */
    method RunLogicalCheck(name: string) returns (result: Option<Finding>)
      requires NoLeadingSpace(logicalLine)
      modifies state
      ensures (result, state.View()) == LogicalOutcome(name, logicalLine, old(state.View()), indentLevel)
    {
      if name == "indentation" {
        result := Indentation(logicalLine, state, indentLevel);
      } else if name == "blank_lines" {
        result := BlankLines(logicalLine, state, indentLevel);
      } else if name == "extraneous_whitespace" {
        result := ExtraneousWhitespace(logicalLine);
      } else if name == "whitespace_before_parameters" {
        result := WhitespaceBeforeParameters(logicalLine);
      } else if name == "whitespace_around_operator" {
        result := WhitespaceAroundOperator(logicalLine);
      } else if name == "imports_on_separate_lines" {
        result := ImportsOnSeparateLines(logicalLine);
      } else {
        result := None;
      }
    }

    /**
     * The body of the check loop of `check_logical`: run one check and
     * report what it finds where the mapping puts it. With a mapping whose
     * first entry starts the logical line, some entry always starts at or
     * before the (never negative) offset.
     */
    method LogicalCheck(name: string, mapping: seq<Entry>)
      requires NoLeadingSpace(logicalLine)
      requires |mapping| > 0 && mapping[0].offset == 0
      modifies this, state
      ensures LogicalCheckStep(old(View()), mapping, name, options) == Some(View())
      ensures logicalLine == old(logicalLine) && indentLevel == old(indentLevel)
      ensures state == old(state)
    {
      var result := RunLogicalCheck(name);
      ReportFinding(mapping, result);
    }

    /** Where one logical check's finding is reported: the loop of `check_logical` that maps its offset back. */
    method ReportFinding(mapping: seq<Entry>, result: Option<Finding>)
      requires |mapping| > 0 && mapping[0].offset == 0
      requires result.Some? ==> result.value.offset >= 0
      modifies this
      ensures LogicalReport(old(View()), mapping, result, options) == Some(View())
      ensures logicalLine == old(logicalLine) && indentLevel == old(indentLevel)
      ensures state == old(state)
    {
      if result.Some? {
        var location := Locate(mapping, result.value.offset);
        ReportError(location.value.0, location.value.1, result.value.text);
      }
    }

    /**
     * `check_logical(start, end, tokens)`. `ok` is false where the source
     * raises: a row of the statement outside the file, or no row with text.
     */
    method CheckLogical(g: Group) returns (ok: bool)
      requires Valid()
      modifies this, state
      ensures ok <==> CheckLogicalSpec(lines, g, old(View()), options).Some?
      ensures ok ==> View() == CheckLogicalSpec(lines, g, old(View()), options).value
      ensures state == old(state)
    {
      ghost var m0 := View();
      var built := BuildLogicalLine(lines, g.start, g.end, g.tokens);
      if built.None? {
        return false;
      }
      var mapping := built.value.1;
      if |mapping| == 0 {
        return false;
      }
      BuildStartsLine(lines, g.start.row, g.end.row, g.tokens);
      indentLevel := mapping[0].indent;
      logicalLine := built.value.0;
      ghost var m1 := m0.(logicalLine := built.value.0, indentLevel := mapping[0].indent);
      assert View() == m1;
      RunLogicalChecks(mapping);
      assert CheckLogicalSpec(lines, g, m0, options) == LogicalPass(Registry.LogicalNames, m1, mapping, options);
      return true;
    }

    /** The check loop of `check_logical`, over the registered logical checks in order. */
    method RunLogicalChecks(mapping: seq<Entry>)
      requires Valid() && NoLeadingSpace(logicalLine)
      requires |mapping| > 0 && mapping[0].offset == 0
      modifies this, state
      ensures LogicalPass(logicalChecks, old(View()), mapping, options) == Some(View())
      ensures state == old(state)
    {
      ghost var start := View();
      for i := 0 to |logicalChecks|
        invariant state == old(state)
        invariant logicalLine == start.logicalLine && indentLevel == start.indentLevel
        invariant LogicalPass(logicalChecks[..i], start, mapping, options) == Some(View())
      {
        ghost var before := View();
        LogicalCheck(logicalChecks[i], mapping);
        LogicalPassExtends(logicalChecks, i, start, mapping, options, before);
      }
      assert logicalChecks[..|logicalChecks|] == logicalChecks;
    }

    /**
     * One token in the loop of `check_all`, on the accumulators `start`,
     * `tokens` and `parens`; `ok` is false when `check_logical` fails.
     */
    method EmitToken(token: Token, start: Option<Pos>, tokens: seq<Token>, parens: int)
      returns (ok: bool, start': Option<Pos>, tokens': seq<Token>, parens': int)
      requires Valid()
      modifies this, state
      ensures Step(lines, options, Snapshot(old(View()), Accum(start, tokens, parens)), Emit(token))
        == if ok then Some(Snapshot(View(), Accum(start', tokens', parens'))) else None
      ensures state == old(state)
    {
      var group;
      start', tokens', parens', group := FeedToken(token, start, tokens, parens);
      ok := true;
      if group.Some? {
        ok := CheckLogical(group.value);
      }
    }

    /**
     * The accumulator updates of the `check_all` loop for one token; a
     * NEWLINE outside brackets hands the statement over and resets them.
     */
    static method FeedToken(token: Token, start: Option<Pos>, tokens: seq<Token>, parens: int)
      returns (start': Option<Pos>, tokens': seq<Token>, parens': int, group: Option<Group>)
      ensures (Accum(start', tokens', parens'), group) == Feed(Accum(start, tokens, parens), token)
    {
      start', tokens', parens' := start, tokens + [token], parens;
      if start'.None? {
        start' := Some(token.start);
      }
      if token.kind == Op && Contains("([{", token.text) {
        parens' := parens' + 1;
      }
      if token.kind == Op && Contains("}])", token.text) {
        parens' := parens' - 1;
      }
      group := None;
      if token.kind == Newline && parens' == 0 {
        group := Some(Group(start'.value, token.end, tokens'));
        start', tokens' := None, [];
      }
    }

    /**
     * `check_all()`: follow the lexer's events; a NEWLINE token outside
     * brackets closes a statement, which is checked. `None` stands for an
     * exception from `check_logical`.
     */
    method CheckAll(trace: seq<LexEvent>) returns (result: Option<map<string, int>>)
      requires Valid()
      modifies this
      ensures var spec := CheckAllSpec(lines, options, trace, old(View()));
        && (result.Some? <==> spec.Some?)
        && (result.Some? ==> result.value == spec.value.errorCount && shown == spec.value.shown)
    {
      var start: Option<Pos> := None;
      var tokens: seq<Token> := [];
      var parens := 0;
      lineNumber := 0;
      errorCount, shown := map[], [];
      state := new State();
      ghost var initial := Initial(old(View()));
      assert View() == initial.machine;
      for i := 0 to |trace|
        invariant fresh(state)
        invariant Run(lines, options, initial, trace)
          == Run(lines, options, Snapshot(View(), Accum(start, tokens, parens)), trace[i..])
      {
        ghost var s := Snapshot(View(), Accum(start, tokens, parens));
        assert trace[i..][0] == trace[i] && trace[i..][1..] == trace[i + 1..];
        match trace[i]
        case Pull =>
          var line := ReadlineCheckPhysical();
          assert Step(lines, options, s, Pull) == Some(Snapshot(View(), Accum(start, tokens, parens)));
        case Emit(token) =>
          var ok;
          ok, start, tokens, parens := EmitToken(token, start, tokens, parens);
          if !ok {
            return None;
          }
      }
      return Some(errorCount);
    }
  }
}
