/**
 * Error accounting: `report_error` counts every finding under its message
 * with the trailing parenthesised values removed, then decides whether the
 * finding is shown; `ignore_code` is the `--ignore` prefix test and
 * `add_error_count` merges one file's counts into a running total.
 */
module Report {
  import opened PyStr

  /** The options `report_error` consults: `-q` given `quiet` times, and the `--ignore` prefixes. */
  datatype Options = Options(quiet: nat, ignore: seq<string>)

  /** One `filename:line:column: text` message, without the file name. */
  datatype Shown = Shown(lineNumber: int, column: int, text: string)

  /** What the reports of one file leave behind: `error_count`, and the messages shown, in order. */
  datatype Output = Output(errorCount: map<string, int>, shown: seq<Shown>)

  const NoOutput := Output(map[], [])

  /** `counts.get(key, 0)` */
  function Get(counts: map<string, int>, key: string): int {
    if key in counts then counts[key] else 0
  }

  /**
   * The `count_text` of `report_error`: a message ending in `)` loses its
   * last `(` and everything after it, then its trailing whitespace.
   */
  function CountKey(text: string): (key: string)
    ensures |key| <= |text| && key == text[..|key|]
    ensures !EndsWith(text, ")") || '(' !in text ==> key == text
    ensures EndsWith(text, ")") && '(' in text ==>
      && (key == [] || !IsSpace(key[|key| - 1]))
      && exists p :: |key| <= p < |text| && text[p] == '('
           && (forall i :: |key| <= i < p ==> IsSpace(text[i]))
           && (forall i :: p < i < |text| ==> text[i] != '(')
  {
    if EndsWith(text, ")") then
      var found := RFindChar(text, '(');
      if found > -1 then RStrip(text[..found]) else text
    else text
  }

  /** `ignore_code(code)`: some `--ignore` entry is a prefix of the code. */
  function IgnoreCode(code: string, ignore: seq<string>): (r: bool)
    ensures r <==> exists k :: 0 <= k < |ignore| && StartsWith(code, ignore[k])
    decreases |ignore|
  {
    if ignore == [] then false
    else if StartsWith(code, ignore[0]) then true
    else
      var rest := IgnoreCode(code, ignore[1..]);
      assert forall k :: 1 <= k < |ignore| ==> ignore[k] == ignore[1..][k - 1];
      rest
  }

  /** The finding is printed: no `-q`, and its four-character code is not ignored. */
  predicate Visible(text: string, options: Options) {
    options.quiet == 0 && !IgnoreCode(Take(text, 4), options.ignore)
  }

  /**
   * `report_error`: the count under the finding's key grows by one and no
   * other count changes, whatever the options say; the finding is shown,
   * at the 1-based column, only when it is visible.
   */
  function ReportError(out: Output, lineNumber: int, offset: int, text: string, options: Options): (r: Output)
    ensures r.errorCount.Keys == out.errorCount.Keys + {CountKey(text)}
    ensures Get(r.errorCount, CountKey(text)) == Get(out.errorCount, CountKey(text)) + 1
    ensures forall k :: k in out.errorCount && k != CountKey(text) ==> r.errorCount[k] == out.errorCount[k]
    ensures Visible(text, options) ==> r.shown == out.shown + [Shown(lineNumber, offset + 1, text)]
    ensures !Visible(text, options) ==> r.shown == out.shown
  {
    var key := CountKey(text);
    var counts := out.errorCount[key := Get(out.errorCount, key) + 1];
    if options.quiet != 0 then Output(counts, out.shown)
    else if IgnoreCode(Take(text, 4), options.ignore) then Output(counts, out.shown)
    else Output(counts, out.shown + [Shown(lineNumber, offset + 1, text)])
  }

  /**
   * A message `head (values)`, where `head` has no trailing whitespace
   * and the values have no `(`, is counted under `head`.
   */
  lemma {:induction false} CountKeyDropsValues(head: string, values: string)
    requires head == [] || !IsSpace(head[|head| - 1])
    requires '(' !in values
    ensures CountKey(head + " (" + values + ")") == head
  {
    LastParenAt(head, values);
    StripOneSpace(head);
  }

  /** The last `(` of `head (values)` is the one after `head`. */
  lemma {:induction false} LastParenAt(head: string, values: string)
    requires '(' !in values
    ensures var text := head + " (" + values + ")";
      && EndsWith(text, ")") && RFindChar(text, '(') == |head| + 1 && text[..|head| + 1] == head + " "
  {
    var text := head + " (" + values + ")";
    var p := |head| + 1;
    assert text[|text| - 1..] == ")";
    assert text[..p] == head + " ";
    assert text[p] == '(';
    forall j | p < j < |text|
      ensures text[j] != '('
    {
      if j < |text| - 1 {
        assert text[j] == values[j - p - 1];
      }
    }
  }

  /** `(head + " ").rstrip()` is `head` when `head` does not end in whitespace. */
  lemma {:induction false} StripOneSpace(head: string)
    requires head == [] || !IsSpace(head[|head| - 1])
    ensures RStrip(head + " ") == head
  {
    assert (head + " ")[..|head|] == head;
  }

  /** A number written out by `%d` holds no `(`. */
  lemma {:induction false} NumberHasNoParen(i: int)
    ensures '(' !in IntToString(i)
  {
    var digits := IntToString(i);
    forall k | 0 <= k < |digits|
      ensures digits[k] != '('
    {
      assert IsDigit(digits[k]) || digits[k] == '-';
    }
  }

  /** Every "line too long" finding is counted under one key, whatever the length. */
  lemma {:induction false} LineTooLongShareKey(length: int)
    ensures CountKey("E501 line too long (" + IntToString(length) + " characters)") == "E501 line too long"
  {
    var digits := IntToString(length);
    var values := digits + " characters";
    NumberHasNoParen(length);
    assert '(' !in values by {
      forall k | 0 <= k < |values|
        ensures values[k] != '('
      {
        if k < |digits| {
          assert values[k] == digits[k];
        }
      }
    }
    assert "E501 line too long (" + digits + " characters)" == "E501 line too long" + " (" + values + ")";
    CountKeyDropsValues("E501 line too long", values);
  }

  /** Every "too many blank lines" finding is counted under one key, whatever the count. */
  lemma {:induction false} BlankLinesShareKey(count: int)
    ensures CountKey("E303 too many blank lines (" + IntToString(count) + ")") == "E303 too many blank lines"
  {
    var digits := IntToString(count);
    NumberHasNoParen(count);
    assert "E303 too many blank lines (" + digits + ")" == "E303 too many blank lines" + " (" + digits + ")";
    CountKeyDropsValues("E303 too many blank lines", digits);
  }

  /** With `-q` nothing is shown, but every finding is still counted. */
  lemma {:induction false} QuietShowsNothing(out: Output, lineNumber: int, offset: int, text: string, options: Options)
    requires options.quiet > 0
    ensures ReportError(out, lineNumber, offset, text, options).shown == out.shown
    ensures Get(ReportError(out, lineNumber, offset, text, options).errorCount, CountKey(text))
      == Get(out.errorCount, CountKey(text)) + 1
  {
  }

  /** How many of the shown messages are counted under `key`. */
  function ShownUnder(shown: seq<Shown>, key: string): (n: nat)
    ensures n <= |shown|
    decreases |shown|
  {
    if shown == [] then 0
    else ShownUnder(shown[..|shown| - 1], key) + (if CountKey(shown[|shown| - 1].text) == key then 1 else 0)
  }

  /**
   * What `report_error` keeps true of the output: every message shown is
   * visible under the options, and no key has more messages shown than
   * its count, since a finding is counted whether or not it is shown.
   */
  ghost predicate Consistent(out: Output, options: Options) {
    && (forall i :: 0 <= i < |out.shown| ==> Visible(out.shown[i].text, options))
    && (forall key :: ShownUnder(out.shown, key) <= Get(out.errorCount, key))
  }

  /** Nothing has been reported yet. */
  lemma {:induction false} NoOutputConsistent(options: Options)
    ensures Consistent(NoOutput, options)
  {
    forall key
      ensures ShownUnder(NoOutput.shown, key) <= Get(NoOutput.errorCount, key)
    {
    }
  }

  /** `report_error` keeps the output consistent. */
  lemma {:induction false} ReportErrorKeepsConsistent(out: Output, lineNumber: int, offset: int, text: string, options: Options)
    requires Consistent(out, options)
    ensures Consistent(ReportError(out, lineNumber, offset, text, options), options)
  {
    var r := ReportError(out, lineNumber, offset, text, options);
    forall key
      ensures ShownUnder(r.shown, key) <= Get(r.errorCount, key)
    {
      assert ShownUnder(out.shown, key) <= Get(out.errorCount, key);
      if key != CountKey(text) {
        assert Get(r.errorCount, key) == Get(out.errorCount, key);
      }
      if Visible(text, options) {
        assert r.shown[..|out.shown|] == out.shown;
      }
    }
    forall i | 0 <= i < |r.shown|
      ensures Visible(r.shown[i].text, options)
    {
      if i < |out.shown| {
        assert r.shown[i] == out.shown[i];
      }
    }
  }

  /** In a consistent output, `-q` leaves nothing shown, and no shown message has an ignored code. */
  lemma {:induction false} ConsistentHidesFiltered(out: Output, options: Options)
    requires Consistent(out, options)
    ensures options.quiet > 0 ==> out.shown == []
    ensures forall i :: 0 <= i < |out.shown| ==> !IgnoreCode(Take(out.shown[i].text, 4), options.ignore)
  {
    if out.shown != [] {
      assert Visible(out.shown[0].text, options);
    }
  }

  /** `error_count` after `add_error_count(error_count, file_errors)`: the sum of both counts, key by key. */
  function Merged(total: map<string, int>, file: map<string, int>): (r: map<string, int>)
    ensures r.Keys == total.Keys + file.Keys
    ensures forall k :: k in r ==> r[k] == Get(total, k) + Get(file, k)
  {
    map k | k in total.Keys + file.Keys :: Get(total, k) + Get(file, k)
  }

  /** Merging file counts in any grouping gives the same total. */
  lemma {:induction false} MergedAssociative(total: map<string, int>, a: map<string, int>, b: map<string, int>)
    ensures Merged(Merged(total, a), b) == Merged(total, Merged(a, b))
  {
    var left, right := Merged(Merged(total, a), b), Merged(total, Merged(a, b));
    assert left.Keys == right.Keys;
    forall k | k in left
      ensures left[k] == right[k]
    {
      assert Get(Merged(total, a), k) == Get(total, k) + Get(a, k);
      assert Get(Merged(a, b), k) == Get(a, k) + Get(b, k);
    }
  }

  /** The order in which files are merged does not change the total. */
  lemma {:induction false} MergedCommutes(total: map<string, int>, a: map<string, int>, b: map<string, int>)
    ensures Merged(Merged(total, a), b) == Merged(Merged(total, b), a)
  {
    var left, right := Merged(Merged(total, a), b), Merged(Merged(total, b), a);
    assert left.Keys == right.Keys;
    forall k | k in left
      ensures left[k] == right[k]
    {
      assert Get(Merged(total, a), k) == Get(total, k) + Get(a, k);
      assert Get(Merged(total, b), k) == Get(total, k) + Get(b, k);
    }
  }

  /** The running `error_count` dictionary of `input_dir`. */
  class Totals {
    var errorCount: map<string, int>

    constructor ()
      ensures errorCount == map[]
    {
      errorCount := map[];
    }

    /** `add_error_count(self.error_count, file_errors)`: one key at a time. */
    method AddErrorCount(fileErrors: map<string, int>)
      modifies this
      ensures errorCount == Merged(old(errorCount), fileErrors)
    {
      var start := errorCount;
      var remaining := fileErrors.Keys;
      while remaining != {}
        invariant remaining <= fileErrors.Keys
        invariant errorCount.Keys == start.Keys + (fileErrors.Keys - remaining)
        invariant forall k :: k in errorCount ==>
          errorCount[k] == Get(start, k) + (if k in remaining then 0 else Get(fileErrors, k))
        decreases remaining
      {
        var code :| code in remaining;
        errorCount := errorCount[code := Get(errorCount, code) + fileErrors[code]];
        remaining := remaining - {code};
      }
      var merged := Merged(start, fileErrors);
      assert errorCount.Keys == merged.Keys;
      assert forall k :: k in errorCount ==> errorCount[k] == merged[k];
    }
  }
}
