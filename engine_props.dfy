/**
 * What one run of `check_all` guarantees as a whole: the counts and the
 * shown messages stay consistent with the options, messages land on the
 * rows they are about, a statement fails only when its rows cannot be
 * read or it has no text, and the loop reads one line per `readline`.
 */
module EngineProps {
  import opened Wrappers
  import opened PyStr
  import opened CheckState
  import opened Tokens
  import opened LogicalLine
  import opened Report
  import opened Engine
  import Registry

  // ------------------------------------------------------ consistency

  lemma {:induction false} PhysicalCheckStepConsistent(m: Machine, name: string, options: Options)
    requires Consistent(m.out, options)
    ensures Consistent(PhysicalCheckStep(m, name, options).out, options)
  {
    var (result, _) := PhysicalOutcome(name, m.physicalLine, m.state);
    if result.Some? {
      ReportErrorKeepsConsistent(m.out, m.lineNumber, result.value.offset, result.value.text, options);
    }
  }

  /** The physical checks of one line keep the output consistent. */
  lemma {:induction false} PhysicalPassConsistent(names: seq<string>, m: Machine, options: Options)
    requires Consistent(m.out, options)
    ensures Consistent(PhysicalPass(names, m, options).out, options)
    decreases |names|
  {
    if names != [] {
      PhysicalPassConsistent(names[..|names| - 1], m, options);
      PhysicalCheckStepConsistent(PhysicalPass(names[..|names| - 1], m, options), names[|names| - 1], options);
    }
  }

  /**
   * Reporting one logical finding either changes nothing, fails, or
   * reports the finding once, on the row of entry `i` at the column it
   * falls in within that entry.
   */
  lemma {:induction false} LogicalReportShape(m: Machine, mapping: seq<Entry>, result: Option<Finding>, options: Options)
    returns (i: int, column: int)
    ensures var r := LogicalReport(m, mapping, result, options);
      || (result.None? && r == Some(m))
      || (result.Some? && r.None?)
      || (&& result.Some? && 0 <= i < |mapping| && column >= 0
          && r == Some(m.(out := ReportError(m.out, mapping[i].row, column, result.value.text, options))))
  {
    i, column := 0, 0;
    if result.Some? {
      var f := result.value;
      var at := LastAtOrBefore(mapping, f.offset);
      if at.Some? {
        i := at.value;
        column := f.offset - mapping[i].offset;
      }
    }
  }

  lemma {:induction false} LogicalReportConsistent(m: Machine, mapping: seq<Entry>, result: Option<Finding>, options: Options)
    requires Consistent(m.out, options)
    ensures LogicalReport(m, mapping, result, options).Some? ==>
      Consistent(LogicalReport(m, mapping, result, options).value.out, options)
  {
    var i, column := LogicalReportShape(m, mapping, result, options);
    if result.Some? && 0 <= i < |mapping| {
      ReportErrorKeepsConsistent(m.out, mapping[i].row, column, result.value.text, options);
    }
  }

  /** The logical checks of one statement keep the output consistent. */
  lemma {:induction false} LogicalPassConsistent(names: seq<string>, m: Machine, mapping: seq<Entry>, options: Options)
    requires NoLeadingSpace(m.logicalLine) && Consistent(m.out, options)
    ensures LogicalPass(names, m, mapping, options).Some? ==>
      Consistent(LogicalPass(names, m, mapping, options).value.out, options)
    decreases |names|
  {
    if names != [] {
      LogicalPassConsistent(names[..|names| - 1], m, mapping, options);
      var before := LogicalPass(names[..|names| - 1], m, mapping, options);
      if before.Some? {
        var name := names[|names| - 1];
        var m' := before.value;
        var (result, st) := LogicalOutcome(name, m'.logicalLine, m'.state, m'.indentLevel);
        LogicalReportConsistent(m'.(state := st), mapping, result, options);
      }
    }
  }

  lemma {:induction false} CheckLogicalConsistent(lines: seq<string>, g: Group, m: Machine, options: Options)
    requires Consistent(m.out, options)
    ensures CheckLogicalSpec(lines, g, m, options).Some? ==>
      Consistent(CheckLogicalSpec(lines, g, m, options).value.out, options)
  {
    var built := Build(lines, g.start.row, g.end.row, g.tokens);
    if built.Some? && built.value.1 != [] {
      BuildStartsLine(lines, g.start.row, g.end.row, g.tokens);
      var m' := m.(logicalLine := built.value.0, indentLevel := built.value.1[0].indent);
      LogicalPassConsistent(Registry.LogicalNames, m', built.value.1, options);
    }
  }

  lemma {:induction false} StepConsistent(lines: seq<string>, options: Options, s: Snapshot, e: LexEvent)
    requires Consistent(s.machine.out, options)
    ensures Step(lines, options, s, e).Some? ==> Consistent(Step(lines, options, s, e).value.machine.out, options)
  {
    match e
    case Pull =>
      var n := s.machine.lineNumber + 1;
      PhysicalPassConsistent(Registry.PhysicalNames, s.machine.(lineNumber := n, physicalLine := LineAt(lines, n)), options);
    case Emit(t) =>
      var (_, group) := Feed(s.acc, t);
      if group.Some? {
        CheckLogicalConsistent(lines, group.value, s.machine, options);
      }
  }

  lemma {:induction false} RunConsistent(lines: seq<string>, options: Options, s: Snapshot, trace: seq<LexEvent>)
    requires Consistent(s.machine.out, options)
    ensures Run(lines, options, s, trace).Some? ==> Consistent(Run(lines, options, s, trace).value.machine.out, options)
    decreases |trace|
  {
    if trace != [] {
      StepConsistent(lines, options, s, trace[0]);
      var next := Step(lines, options, s, trace[0]);
      if next.Some? {
        RunConsistent(lines, options, next.value, trace[1..]);
      }
    }
  }

  /**
   * Over a whole file: every message shown passes the `-q` and `--ignore`
   * filters, no key has more messages shown than it counts, and `-q`
   * shows nothing at all.
   */
  lemma {:induction false} CheckAllConsistent(lines: seq<string>, options: Options, trace: seq<LexEvent>, m: Machine)
    ensures CheckAllSpec(lines, options, trace, m).Some? ==>
      var out := CheckAllSpec(lines, options, trace, m).value;
      && Consistent(out, options)
      && (options.quiet > 0 ==> out.shown == [])
      && (forall i :: 0 <= i < |out.shown| ==> !IgnoreCode(Take(out.shown[i].text, 4), options.ignore))
  {
    NoOutputConsistent(options);
    RunConsistent(lines, options, Initial(m), trace);
    var r := CheckAllSpec(lines, options, trace, m);
    if r.Some? {
      ConsistentHidesFiltered(r.value, options);
    }
  }

  // --------------------------------------------------------- placement

  /**
   * `after` keeps the messages of `before` and adds only messages on a row
   * between `lo` and `hi` at a 1-based column.
   */
  ghost predicate AddedWithin(before: seq<Shown>, after: seq<Shown>, lo: int, hi: int) {
    && |before| <= |after| && after[..|before|] == before
    && forall i :: |before| <= i < |after| ==> lo <= after[i].lineNumber <= hi && after[i].column >= 1
  }

  lemma {:induction false} AddedWithinTrans(a: seq<Shown>, b: seq<Shown>, c: seq<Shown>, lo: int, hi: int)
    requires AddedWithin(a, b, lo, hi) && AddedWithin(b, c, lo, hi)
    ensures AddedWithin(a, c, lo, hi)
  {
    assert c[..|a|] == c[..|b|][..|a|];
    forall i | |a| <= i < |c|
      ensures lo <= c[i].lineNumber <= hi && c[i].column >= 1
    {
      if i < |b| {
        assert c[i] == c[..|b|][i] == b[i];
      }
    }
  }

  lemma {:induction false} ReportErrorAdds(out: Output, row: int, offset: int, text: string, options: Options, lo: int, hi: int)
    requires lo <= row <= hi && offset >= 0
    ensures AddedWithin(out.shown, ReportError(out, row, offset, text, options).shown, lo, hi)
  {
    var r := ReportError(out, row, offset, text, options);
    assert r.shown[..|out.shown|] == out.shown;
  }

  lemma {:induction false} AddedNothing(shown: seq<Shown>, lo: int, hi: int)
    ensures AddedWithin(shown, shown, lo, hi)
  {
    assert shown[..|shown|] == shown;
  }

  /** The physical checks report only on the line they were given. */
  lemma {:induction false} PhysicalPassPlaces(names: seq<string>, m: Machine, options: Options)
    ensures AddedWithin(m.out.shown, PhysicalPass(names, m, options).out.shown, m.lineNumber, m.lineNumber)
    decreases |names|
  {
    if names == [] {
      AddedNothing(m.out.shown, m.lineNumber, m.lineNumber);
    } else {
      var before := PhysicalPass(names[..|names| - 1], m, options);
      PhysicalPassPlaces(names[..|names| - 1], m, options);
      var (result, _) := PhysicalOutcome(names[|names| - 1], before.physicalLine, before.state);
      var after := PhysicalPass(names, m, options);
      if result.Some? {
        ReportErrorAdds(before.out, before.lineNumber, result.value.offset, result.value.text, options, m.lineNumber, m.lineNumber);
      } else {
        AddedNothing(before.out.shown, m.lineNumber, m.lineNumber);
      }
      AddedWithinTrans(m.out.shown, before.out.shown, after.out.shown, m.lineNumber, m.lineNumber);
    }
  }

  /** `readline_check_physical` reports only on the line it has just read. */
  lemma {:induction false} PullStepPlaces(lines: seq<string>, m: Machine, options: Options)
    ensures PullStep(lines, m, options).lineNumber == m.lineNumber + 1
    ensures AddedWithin(m.out.shown, PullStep(lines, m, options).out.shown, m.lineNumber + 1, m.lineNumber + 1)
  {
    var n := m.lineNumber + 1;
    PhysicalPassPlaces(Registry.PhysicalNames, m.(lineNumber := n, physicalLine := LineAt(lines, n)), options);
  }

  /** Every row the mapping names lies between `lo` and `hi`. */
  ghost predicate RowsWithin(mapping: seq<Entry>, lo: int, hi: int) {
    forall i :: 0 <= i < |mapping| ==> lo <= mapping[i].row <= hi
  }

  lemma {:induction false} LogicalReportPlaces(m: Machine, mapping: seq<Entry>, result: Option<Finding>, options: Options, lo: int, hi: int)
    requires RowsWithin(mapping, lo, hi)
    ensures LogicalReport(m, mapping, result, options).Some? ==>
      AddedWithin(m.out.shown, LogicalReport(m, mapping, result, options).value.out.shown, lo, hi)
  {
    var i, column := LogicalReportShape(m, mapping, result, options);
    AddedNothing(m.out.shown, lo, hi);
    if result.Some? && LogicalReport(m, mapping, result, options).Some? {
      ReportErrorAdds(m.out, mapping[i].row, column, result.value.text, options, lo, hi);
    }
  }

  /** The logical checks report only on rows the mapping names, at 1-based columns. */
  lemma {:induction false} LogicalPassPlaces(names: seq<string>, m: Machine, mapping: seq<Entry>, options: Options, lo: int, hi: int)
    requires NoLeadingSpace(m.logicalLine) && RowsWithin(mapping, lo, hi)
    ensures LogicalPass(names, m, mapping, options).Some? ==>
      AddedWithin(m.out.shown, LogicalPass(names, m, mapping, options).value.out.shown, lo, hi)
    decreases |names|
  {
    if names == [] {
      AddedNothing(m.out.shown, lo, hi);
    } else {
      LogicalPassPlaces(names[..|names| - 1], m, mapping, options, lo, hi);
      var before := LogicalPass(names[..|names| - 1], m, mapping, options);
      if before.Some? {
        var m' := before.value;
        var (result, st) := LogicalOutcome(names[|names| - 1], m'.logicalLine, m'.state, m'.indentLevel);
        LogicalReportPlaces(m'.(state := st), mapping, result, options, lo, hi);
        var after := LogicalPass(names, m, mapping, options);
        if after.Some? {
          AddedWithinTrans(m.out.shown, m'.out.shown, after.value.out.shown, lo, hi);
        }
      }
    }
  }

  /** `check_logical` reports only on rows of the statement, from its first row to its last. */
  lemma {:induction false} CheckLogicalPlaces(lines: seq<string>, g: Group, m: Machine, options: Options)
    ensures CheckLogicalSpec(lines, g, m, options).Some? ==>
      AddedWithin(m.out.shown, CheckLogicalSpec(lines, g, m, options).value.out.shown, g.start.row, g.end.row)
  {
    var built := Build(lines, g.start.row, g.end.row, g.tokens);
    if built.Some? && built.value.1 != [] {
      BuildStartsLine(lines, g.start.row, g.end.row, g.tokens);
      BuildRows(lines, g.start.row, g.end.row, g.tokens);
      var m' := m.(logicalLine := built.value.0, indentLevel := built.value.1[0].indent);
      LogicalPassPlaces(Registry.LogicalNames, m', built.value.1, options, g.start.row, g.end.row);
    }
  }

  // ------------------------------------------------------------ failure

  /** With an entry at offset 0, every offset a logical check answers falls under some entry. */
  lemma {:induction false} LogicalReportTotal(m: Machine, mapping: seq<Entry>, result: Option<Finding>, options: Options)
    requires |mapping| > 0 && mapping[0].offset == 0
    requires result.Some? ==> result.value.offset >= 0
    ensures LogicalReport(m, mapping, result, options).Some?
  {
    if result.Some? {
      assert mapping[0].offset <= result.value.offset;
    }
  }

  /** No logical check ends in a name error once the mapping starts at offset 0. */
  lemma {:induction false} LogicalPassTotal(names: seq<string>, m: Machine, mapping: seq<Entry>, options: Options)
    requires NoLeadingSpace(m.logicalLine) && |mapping| > 0 && mapping[0].offset == 0
    ensures LogicalPass(names, m, mapping, options).Some?
    decreases |names|
  {
    if names != [] {
      LogicalPassTotal(names[..|names| - 1], m, mapping, options);
      var m' := LogicalPass(names[..|names| - 1], m, mapping, options).value;
      var (result, st) := LogicalOutcome(names[|names| - 1], m'.logicalLine, m'.state, m'.indentLevel);
      LogicalReportTotal(m'.(state := st), mapping, result, options);
    }
  }

  /**
   * `check_logical` fails exactly when a row of the statement is past the
   * end of the file or the statement has no text once comments are
   * removed and its rows are stripped.
   */
  lemma {:induction false} CheckLogicalFails(lines: seq<string>, g: Group, m: Machine, options: Options)
    ensures CheckLogicalSpec(lines, g, m, options).None? <==>
      Build(lines, g.start.row, g.end.row, g.tokens).None? || Build(lines, g.start.row, g.end.row, g.tokens).value.1 == []
  {
    var built := Build(lines, g.start.row, g.end.row, g.tokens);
    if built.Some? && built.value.1 != [] {
      BuildStartsLine(lines, g.start.row, g.end.row, g.tokens);
      var m' := m.(logicalLine := built.value.0, indentLevel := built.value.1[0].indent);
      LogicalPassTotal(Registry.LogicalNames, m', built.value.1, options);
    }
  }

  // ---------------------------------------------------------- the loop

  /** How many times the lexer asks for a line. */
  function Pulls(trace: seq<LexEvent>): nat
    decreases |trace|
  {
    if trace == [] then 0 else (if trace[0].Pull? then 1 else 0) + Pulls(trace[1..])
  }

  /** The tokens the lexer yields, in order. */
  function Emitted(trace: seq<LexEvent>): seq<Token>
    decreases |trace|
  {
    if trace == [] then [] else (if trace[0].Emit? then [trace[0].token] else []) + Emitted(trace[1..])
  }

  lemma {:induction false} StepCounts(lines: seq<string>, options: Options, s: Snapshot, e: LexEvent)
    ensures Step(lines, options, s, e).Some? ==>
      var s' := Step(lines, options, s, e).value;
      && s'.machine.lineNumber == s.machine.lineNumber + (if e.Pull? then 1 else 0)
      && s'.acc == (if e.Pull? then s.acc else Feed(s.acc, e.token).0)
  {
    if e.Pull? {
      PullStepPlaces(lines, s.machine, options);
    }
  }

  lemma {:induction false} FinalCons(a: Accum, ts: seq<Token>, t: Token)
    ensures Final(a, [t] + ts) == Final(Feed(a, t).0, ts)
  {
    assert ([t] + ts)[0] == t && ([t] + ts)[1..] == ts;
  }

  /**
   * A run that does not fail has read one line per `readline` event and
   * holds exactly the accumulators the grouping reaches on the tokens
   * yielded, so statements are cut where `Groups` cuts them.
   */
  lemma {:induction false} RunTracksLexer(lines: seq<string>, options: Options, s: Snapshot, trace: seq<LexEvent>)
    ensures Run(lines, options, s, trace).Some? ==>
      && Run(lines, options, s, trace).value.machine.lineNumber == s.machine.lineNumber + Pulls(trace)
      && Run(lines, options, s, trace).value.acc == Final(s.acc, Emitted(trace))
    decreases |trace|
  {
    if trace != [] {
      var e := trace[0];
      StepCounts(lines, options, s, e);
      var next := Step(lines, options, s, e);
      if next.Some? {
        RunTracksLexer(lines, options, next.value, trace[1..]);
        if e.Emit? {
          FinalCons(s.acc, Emitted(trace[1..]), e.token);
          assert Emitted(trace) == [e.token] + Emitted(trace[1..]);
        } else {
          assert Emitted(trace) == Emitted(trace[1..]);
        }
      }
    }
  }

  /** `check_all` starts from line 0, so it ends with `line_number` equal to the number of lines the lexer asked for. */
  lemma {:induction false} CheckAllReadsEveryPull(lines: seq<string>, options: Options, trace: seq<LexEvent>, m: Machine)
    ensures Run(lines, options, Initial(m), trace).Some? ==>
      Run(lines, options, Initial(m), trace).value.machine.lineNumber == Pulls(trace)
  {
    RunTracksLexer(lines, options, Initial(m), trace);
  }
}
