/**
 * `find_checks`: the checks are the module-level functions whose first
 * argument name starts with `physical_line` or `logical_line`, sorted by
 * name, and the checker runs them in that order. Strings compare as
 * Python 2 compares byte strings: at the first character where they
 * differ, or else a proper prefix first. The names are the keys of the
 * globals dictionary, so the sort never reaches the tuples' other fields.
 */
module Registry {
  import opened PyStr

  /** A module-level function: its name and its argument names, as `inspect.getargspec` lists them. */
  datatype Function = Function(name: string, args: seq<string>)

  /** The physical checks' `def`s. (The globals dictionary has no order of its own; these are listed by name.) */
  const PhysicalDefs: seq<Function> := [
    Function("maximum_line_length", ["physical_line"]),
    Function("tabs_obsolete", ["physical_line"]),
    Function("tabs_or_spaces", ["physical_line", "state"]),
    Function("trailing_whitespace", ["physical_line"])
  ]

  /** The logical checks' `def`s, listed by name. */
  const LogicalDefs: seq<Function> := [
    Function("blank_lines", ["logical_line", "state", "indent_level"]),
    Function("extraneous_whitespace", ["logical_line"]),
    Function("imports_on_separate_lines", ["logical_line"]),
    Function("indentation", ["logical_line", "state", "indent_level"]),
    Function("whitespace_around_operator", ["logical_line"]),
    Function("whitespace_before_parameters", ["logical_line"])
  ]

  /** Every other plain function at module level, the imported `fnmatch` included. */
  const OtherDefs: seq<Function> := [
    Function("get_indent", ["line"]),
    Function("message", ["text"]),
    Function("find_checks", ["argument_name"]),
    Function("ignore_code", ["code"]),
    Function("mute_line", ["line", "line_number", "tokens"]),
    Function("input_file", ["filename"]),
    Function("input_dir", ["dirname"]),
    Function("add_error_count", ["error_count", "file_errors"]),
    Function("excluded", ["filename"]),
    Function("_main", []),
    Function("fnmatch", ["name", "pat"])
  ]

  /**
   * The plain functions in the module's globals: every `def` at module
   * level and the imported `fnmatch`. (`iskeyword` and the two compiled
   * pattern methods are built-ins, which the function type test skips.)
   * The dictionary's iteration order is not modelled: the checks are
   * sorted afterwards, and `RegistryOrder` shows that only which names
   * are selected decides the result.
   */
  const Globals: seq<Function> := PhysicalDefs + LogicalDefs + OtherDefs

  /** The physical checks in the order `find_checks('physical_line')` returns them. */
  const PhysicalNames: seq<string> := ["maximum_line_length", "tabs_obsolete", "tabs_or_spaces", "trailing_whitespace"]

  /** The logical checks in the order `find_checks('logical_line')` returns them. */
  const LogicalNames: seq<string> := [
    "blank_lines", "extraneous_whitespace", "imports_on_separate_lines",
    "indentation", "whitespace_around_operator", "whitespace_before_parameters"]

  /** `a` and `b` agree before index `k` and `a` has the smaller character at `k`. */
  predicate DiffersAt(a: string, b: string, k: int) {
    0 <= k < |a| && k < |b| && a[..k] == b[..k] && a[k] < b[k]
  }

  /** `a < b` on Python 2 strings. */
  predicate Less(a: string, b: string) {
    (|a| < |b| && a == b[..|a|]) || exists k :: 0 <= k < |a| && DiffersAt(a, b, k)
  }

  lemma {:induction false} LessIrreflexive(a: string)
    ensures !Less(a, a)
  {
  }

  /** A prefix of `b` agrees with `b` on every shorter prefix. */
  lemma {:induction false} PrefixAgrees(a: string, b: string, k: nat)
    requires |a| <= |b| && a == b[..|a|] && k <= |a|
    ensures a[..k] == b[..k]
    ensures k < |a| ==> a[k] == b[k]
  {
    assert a[..k] == b[..|a|][..k];
  }

  lemma {:induction false} LessTransitive(a: string, b: string, c: string)
    requires Less(a, b) && Less(b, c)
    ensures Less(a, c)
  {
    if |a| < |b| && a == b[..|a|] {
      if |b| < |c| && b == c[..|b|] {
        PrefixAgrees(b, c, |a|);
      } else {
        var k: int :| DiffersAt(b, c, k);
        assert DiffersAt(b, c, k);
        if k < |a| {
          PrefixAgrees(a, b, k);
          assert DiffersAt(a, c, k);
        } else {
          PrefixAgrees(b[..k], c[..k], |a|);
          assert a == b[..k][..|a|];
          assert c[..|a|] == c[..k][..|a|];
        }
      }
    } else {
      var k: int :| DiffersAt(a, b, k);
      assert DiffersAt(a, b, k);
      if |b| < |c| && b == c[..|b|] {
        PrefixAgrees(b, c, k);
        assert DiffersAt(a, c, k);
      } else {
        var m: int :| DiffersAt(b, c, m);
        assert DiffersAt(b, c, m);
        if k < m {
          PrefixAgrees(b[..m], c[..m], k);
          assert b[..m][..k] == b[..k] && c[..m][..k] == c[..k];
          assert b[k] == b[..m][k] && c[k] == c[..m][k];
          assert DiffersAt(a, c, k);
        } else if m < k {
          PrefixAgrees(a[..k], b[..k], m);
          assert a[..k][..m] == a[..m] && b[..k][..m] == b[..m];
          assert a[m] == a[..k][m] && b[m] == b[..k][m];
          assert DiffersAt(a, c, m);
        } else {
          assert DiffersAt(a, c, k);
        }
      }
    }
  }

  lemma {:induction false} LessAsymmetric(a: string, b: string)
    requires Less(a, b)
    ensures !Less(b, a)
  {
    if Less(b, a) {
      LessTransitive(a, b, a);
      LessIrreflexive(a);
    }
  }

  /** Prepending the same character keeps the order. */
  lemma {:induction false} LessCons(c: char, a: string, b: string)
    requires Less(a, b)
    ensures Less([c] + a, [c] + b)
  {
    var ca, cb := [c] + a, [c] + b;
    if |a| < |b| && a == b[..|a|] {
      assert ca == cb[..|ca|];
    } else {
      var k: int :| DiffersAt(a, b, k);
      assert DiffersAt(a, b, k);
      assert ca[..k + 1] == [c] + a[..k];
      assert cb[..k + 1] == [c] + b[..k];
      assert DiffersAt(ca, cb, k + 1);
    }
  }

  lemma {:induction false} LessTotal(a: string, b: string)
    ensures a == b || Less(a, b) || Less(b, a)
    decreases |a|
  {
    if a == [] {
      assert b == [] || a == b[..|a|];
    } else if b == [] {
      assert b == a[..|b|];
    } else if a[0] < b[0] {
      assert DiffersAt(a, b, 0);
    } else if b[0] < a[0] {
      assert DiffersAt(b, a, 0);
    } else {
      LessTotal(a[1..], b[1..]);
      assert a == [a[0]] + a[1..] && b == [b[0]] + b[1..];
      if Less(a[1..], b[1..]) {
        LessCons(a[0], a[1..], b[1..]);
      } else if Less(b[1..], a[1..]) {
        LessCons(a[0], b[1..], a[1..]);
      }
    }
  }

  /** Neither `b < a` nor `c < b`: then not `c < a`. */
  lemma {:induction false} NotLessTransitive(a: string, b: string, c: string)
    requires !Less(b, a) && !Less(c, b)
    ensures !Less(c, a)
  {
    LessTotal(a, b);
    LessTotal(b, c);
    if Less(c, a) {
      if Less(a, b) {
        LessTransitive(c, a, b);
        if Less(b, c) {
          LessTransitive(c, b, c);
          LessIrreflexive(c);
        }
      } else if Less(b, c) {
        LessTransitive(b, c, a);
      }
    }
  }

  /** In order, as `list.sort()` leaves a list of names: no later name is less than an earlier one. */
  predicate Sorted(s: seq<string>) {
    forall i, j :: 0 <= i < j < |s| ==> !Less(s[j], s[i])
  }

  lemma {:induction false} SortedTail(s: seq<string>)
    requires Sorted(s) && s != []
    ensures Sorted(s[1..])
  {
    forall i, j | 0 <= i < j < |s[1..]|
      ensures !Less(s[1..][j], s[1..][i])
    {
      assert s[1..][i] == s[i + 1] && s[1..][j] == s[j + 1];
    }
  }

  /** `args[0].startswith(argument_name)`, `args` having at least one element. */
  predicate Selects(f: Function, argumentName: string) {
    |f.args| >= 1 && StartsWith(f.args[0], argumentName)
  }

  /** The names of the functions `find_checks(argument_name)` keeps, in the order the globals are visited. */
  function Selected(functions: seq<Function>, argumentName: string): (r: seq<string>)
    ensures |r| <= |functions|
    ensures forall x :: x in r ==> exists i :: 0 <= i < |functions| && functions[i].name == x && Selects(functions[i], argumentName)
    decreases |functions|
  {
    if functions == [] then []
    else
      var rest := Selected(functions[..|functions| - 1], argumentName);
      var f := functions[|functions| - 1];
      if Selects(f, argumentName) then rest + [f.name] else rest
  }

  /** Sorted insertion: `x` goes before the first name that is not less than it. */
  function Insert(s: seq<string>, x: string): (r: seq<string>)
    requires Sorted(s)
    ensures Sorted(r) && multiset(r) == multiset(s) + multiset{x}
    decreases |s|
  {
    if s == [] then [x]
    else if !Less(s[0], x) then
      var r := [x] + s;
      assert Sorted(r) by {
        forall i, j | 0 <= i < j < |r|
          ensures !Less(r[j], r[i])
        {
          if i == 0 && j > 1 {
            NotLessTransitive(x, s[0], s[j - 1]);
          }
        }
      }
      assert s == [s[0]] + s[1..];
      r
    else
      SortedTail(s);
      var tail := Insert(s[1..], x);
      var r := [s[0]] + tail;
      LessAsymmetric(s[0], x);
      assert s == [s[0]] + s[1..];
      assert Sorted(r) by {
        forall i, j | 0 <= i < j < |r|
          ensures !Less(r[j], r[i])
        {
          if i == 0 {
            var y := r[j];
            assert y == tail[j - 1] && y in multiset(tail);
            if y != x {
              assert y in multiset(s[1..]);
              var k :| 0 <= k < |s[1..]| && s[1..][k] == y;
              assert s[k + 1] == y;
            }
          }
        }
      }
      r
  }

  /** `checks.sort()`, as repeated sorted insertion. */
  function Sort(s: seq<string>): (r: seq<string>)
    ensures Sorted(r) && multiset(r) == multiset(s)
    decreases |s|
  {
    if s == [] then []
    else
      var front := s[..|s| - 1];
      assert s == front + [s[|s| - 1]];
      Insert(Sort(front), s[|s| - 1])
  }

  /** Two sorted sequences holding the same names start with the same name: the least one. */
  lemma {:induction false} SortedHeads(a: seq<string>, b: seq<string>)
    requires Sorted(a) && Sorted(b) && multiset(a) == multiset(b) && a != []
    ensures b != [] && a[0] == b[0]
  {
    assert a[0] in multiset(b);
    assert b[0] in multiset(a);
    var i :| 0 <= i < |b| && b[i] == a[0];
    var j :| 0 <= j < |a| && a[j] == b[0];
    assert !Less(a[0], b[0]) by {
      if i > 0 {
        assert !Less(b[i], b[0]);
      }
    }
    assert !Less(b[0], a[0]) by {
      if j > 0 {
        assert !Less(a[j], a[0]);
      }
    }
    LessTotal(a[0], b[0]);
  }

  /** Two sorted sequences holding the same names are the same sequence: the sorted order is unique. */
  lemma {:induction false} SortedUnique(a: seq<string>, b: seq<string>)
    requires Sorted(a) && Sorted(b) && multiset(a) == multiset(b)
    ensures a == b
    decreases |a|
  {
    if a == [] {
      assert |multiset(b)| == 0;
    } else {
      SortedHeads(a, b);
      assert multiset(a[1..]) == multiset(b[1..]) by {
        assert a == [a[0]] + a[1..] && b == [b[0]] + b[1..];
        assert multiset(a) == multiset{a[0]} + multiset(a[1..]);
        assert multiset(b) == multiset{b[0]} + multiset(b[1..]);
        forall y
          ensures multiset(a[1..])[y] == multiset(b[1..])[y]
        {
          assert multiset(a)[y] == multiset{a[0]}[y] + multiset(a[1..])[y];
          assert multiset(b)[y] == multiset{b[0]}[y] + multiset(b[1..])[y];
        }
      }
      SortedTail(a);
      SortedTail(b);
      SortedUnique(a[1..], b[1..]);
      assert a == [a[0]] + a[1..] && b == [b[0]] + b[1..];
    }
  }

  /**
   * `find_checks(argument_name)`: collect the names of the functions
   * whose first argument starts with `argument_name`, then sort them.
   */
  method FindChecks(functions: seq<Function>, argumentName: string) returns (checks: seq<string>)
    ensures Sorted(checks)
    ensures multiset(checks) == multiset(Selected(functions, argumentName))
  {
    checks := [];
    for i := 0 to |functions|
      invariant checks == Selected(functions[..i], argumentName)
    {
      assert functions[..i + 1][..i] == functions[..i];
      if |functions[i].args| >= 1 && StartsWith(functions[i].args[0], argumentName) {
        checks := checks + [functions[i].name];
      }
    }
    assert functions[..|functions|] == functions;
    checks := Sort(checks);
  }

  /** A sequence whose neighbours are in increasing order is sorted. */
  lemma {:induction false} ChainSorted(s: seq<string>)
    requires forall i :: 0 <= i < |s| - 1 ==> Less(s[i], s[i + 1])
    ensures Sorted(s)
    decreases |s|
  {
    if s != [] {
      var t := s[1..];
      assert forall i :: 0 <= i < |t| - 1 ==> Less(t[i], t[i + 1]) by {
        forall i | 0 <= i < |t| - 1
          ensures Less(t[i], t[i + 1])
        {
          assert t[i] == s[i + 1] && t[i + 1] == s[i + 2];
        }
      }
      ChainSorted(t);
      forall i, j | 0 <= i < j < |s|
        ensures !Less(s[j], s[i])
      {
        if i > 0 {
          assert s[i] == t[i - 1] && s[j] == t[j - 1];
        } else if j == 1 {
          LessAsymmetric(s[0], s[1]);
        } else {
          assert s[1] == t[0] && s[j] == t[j - 1];
          LessAsymmetric(s[0], s[1]);
          NotLessTransitive(s[0], s[1], s[j]);
        }
      }
    }
  }

  /** Four names in increasing order, neighbour by neighbour. */
  lemma {:induction false} Sorted4(s: seq<string>)
    requires |s| == 4 && Less(s[0], s[1]) && Less(s[1], s[2]) && Less(s[2], s[3])
    ensures Sorted(s)
  {
    ChainSorted(s);
  }

  /** Six names in increasing order, neighbour by neighbour. */
  lemma {:induction false} Sorted6(s: seq<string>)
    requires |s| == 6 && Less(s[0], s[1]) && Less(s[1], s[2]) && Less(s[2], s[3])
    requires Less(s[3], s[4]) && Less(s[4], s[5])
    ensures Sorted(s)
  {
    ChainSorted(s);
  }

  lemma {:induction false} PhysicalNamesSorted()
    ensures Sorted(PhysicalNames)
  {
    var n := PhysicalNames;
    assert DiffersAt(n[0], n[1], 0);
    assert DiffersAt(n[1], n[2], 6);
    assert DiffersAt(n[2], n[3], 1);
    Sorted4(n);
  }

  lemma {:induction false} LogicalNamesSorted()
    ensures Sorted(LogicalNames)
  {
    var n := LogicalNames;
    assert DiffersAt(n[0], n[1], 0);
    assert DiffersAt(n[1], n[2], 0);
    assert DiffersAt(n[2], n[3], 1);
    assert DiffersAt(n[3], n[4], 0);
    assert DiffersAt(n[4], n[5], 11);
    Sorted6(n);
  }

  /** The names of `functions`, in order. */
  function Names(functions: seq<Function>): (r: seq<string>)
    ensures |r| == |functions| && forall i :: 0 <= i < |r| ==> r[i] == functions[i].name
  {
    seq(|functions|, i requires 0 <= i < |functions| => functions[i].name)
  }

  lemma {:induction false} SelectedAppend(a: seq<Function>, b: seq<Function>, argumentName: string)
    ensures Selected(a + b, argumentName) == Selected(a, argumentName) + Selected(b, argumentName)
    decreases |b|
  {
    if b != [] {
      var front := b[..|b| - 1];
      assert (a + b)[..|a + b| - 1] == a + front;
      SelectedAppend(a, front, argumentName);
    } else {
      assert a + b == a;
    }
  }

  lemma {:induction false} SelectedAll(functions: seq<Function>, argumentName: string)
    requires forall i :: 0 <= i < |functions| ==> Selects(functions[i], argumentName)
    ensures Selected(functions, argumentName) == Names(functions)
    decreases |functions|
  {
    if functions != [] {
      var front := functions[..|functions| - 1];
      SelectedAll(front, argumentName);
      assert Names(functions) == Names(front) + [functions[|functions| - 1].name];
    }
  }

  lemma {:induction false} SelectedNone(functions: seq<Function>, argumentName: string)
    requires forall i :: 0 <= i < |functions| ==> !Selects(functions[i], argumentName)
    ensures Selected(functions, argumentName) == []
    decreases |functions|
  {
    if functions != [] {
      SelectedNone(functions[..|functions| - 1], argumentName);
    }
  }

  /** A first argument shorter than the prefix, or differing from it at its first character, is not selected. */
  lemma {:induction false} NotSelected(f: Function, argumentName: string)
    requires argumentName != []
    requires |f.args| == 0 || |f.args[0]| < |argumentName| || f.args[0][0] != argumentName[0]
    ensures !Selects(f, argumentName)
  {
    if |f.args| > 0 && |f.args[0]| >= |argumentName| {
      assert f.args[0][..|argumentName|][0] == f.args[0][0];
    }
  }

  /** Selection distributes over the three groups of globals. */
  lemma {:induction false} SelectedOfGroups(a: seq<Function>, b: seq<Function>, c: seq<Function>, argumentName: string)
    ensures Selected(a + b + c, argumentName)
      == Selected(a, argumentName) + Selected(b, argumentName) + Selected(c, argumentName)
  {
    SelectedAppend(a, b, argumentName);
    SelectedAppend(a + b, c, argumentName);
  }

  lemma {:induction false} PhysicalDefsSelection()
    ensures Selected(PhysicalDefs, "physical_line") == PhysicalNames
    ensures Selected(PhysicalDefs, "logical_line") == []
  {
    SelectedAll(PhysicalDefs, "physical_line");
    forall i | 0 <= i < |PhysicalDefs|
      ensures !Selects(PhysicalDefs[i], "logical_line")
    {
      NotSelected(PhysicalDefs[i], "logical_line");
    }
    SelectedNone(PhysicalDefs, "logical_line");
  }

  lemma {:induction false} LogicalDefsSelection()
    ensures Selected(LogicalDefs, "logical_line") == LogicalNames
    ensures Selected(LogicalDefs, "physical_line") == []
  {
    SelectedAll(LogicalDefs, "logical_line");
    forall i | 0 <= i < |LogicalDefs|
      ensures !Selects(LogicalDefs[i], "physical_line")
    {
      NotSelected(LogicalDefs[i], "physical_line");
    }
    SelectedNone(LogicalDefs, "physical_line");
  }

  lemma {:induction false} OtherDefsSelection()
    ensures Selected(OtherDefs, "physical_line") == []
    ensures Selected(OtherDefs, "logical_line") == []
  {
    forall i | 0 <= i < |OtherDefs|
      ensures !Selects(OtherDefs[i], "physical_line") && !Selects(OtherDefs[i], "logical_line")
    {
      NotSelected(OtherDefs[i], "physical_line");
      NotSelected(OtherDefs[i], "logical_line");
    }
    SelectedNone(OtherDefs, "physical_line");
    SelectedNone(OtherDefs, "logical_line");
  }

  /** `find_checks` keeps exactly the checks among the globals. */
  lemma {:induction false} GlobalsSelection()
    ensures Selected(Globals, "physical_line") == PhysicalNames
    ensures Selected(Globals, "logical_line") == LogicalNames
  {
    PhysicalDefsSelection();
    LogicalDefsSelection();
    OtherDefsSelection();
    SelectedOfGroups(PhysicalDefs, LogicalDefs, OtherDefs, "physical_line");
    SelectedOfGroups(PhysicalDefs, LogicalDefs, OtherDefs, "logical_line");
  }

  /** `find_checks('physical_line')` and `find_checks('logical_line')` on the module's globals. */
  method RegisteredChecks() returns (physical: seq<string>, logical: seq<string>)
    ensures physical == PhysicalNames && logical == LogicalNames
  {
    physical := FindChecks(Globals, "physical_line");
    logical := FindChecks(Globals, "logical_line");
    RegistryOrder(physical, logical);
  }

  /**
   * Any sorted sequence holding the selected names (what `FindChecks`
   * returns) is `PhysicalNames` for the physical checks and
   * `LogicalNames` for the logical ones: the order in which the checker
   * runs them.
   */
  lemma {:induction false} RegistryOrder(physical: seq<string>, logical: seq<string>)
    requires Sorted(physical) && multiset(physical) == multiset(Selected(Globals, "physical_line"))
    requires Sorted(logical) && multiset(logical) == multiset(Selected(Globals, "logical_line"))
    ensures physical == PhysicalNames
    ensures logical == LogicalNames
  {
    PhysicalNamesSorted();
    LogicalNamesSorted();
    GlobalsSelection();
    SortedUnique(physical, PhysicalNames);
    SortedUnique(logical, LogicalNames);
  }
}
