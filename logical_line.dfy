/**
 * How `Checker.check_logical` turns the physical rows of one statement
 * into a logical line, and maps an offset in that logical line back to a
 * row and column. Every row is right-stripped and muted; a row that is
 * then empty is skipped; a kept row loses its leading whitespace (whose
 * width is recorded) and a trailing backslash; a space is inserted after
 * a trailing comma of what has been joined so far.
 */
module LogicalLine {
  import opened Wrappers
  import opened PyStr
  import opened Tokens
  import opened Mute
  import Indent

  /** One `mapping` entry `(offset, line_number, indent)`. */
  datatype Entry = Entry(offset: int, row: int, indent: int)

  /** A physical row of the statement, as the loop sees it after stripping and muting. */
  datatype Row = Row(number: int, text: string)

  /** A row can be read: `self.lines[row - 1]` raises no IndexError (negative indices wrap). */
  predicate InFile(lines: seq<string>, row: int) {
    1 - |lines| <= row <= |lines|
  }

  /** `mute_line(self.lines[row - 1].rstrip(), row, tokens)`; `None` stands for the IndexError. */
  function RowText(lines: seq<string>, row: int, tokens: seq<Token>): (r: Option<string>)
    ensures r.Some? <==> InFile(lines, row)
  {
    match PyIndex(lines, row - 1)
    case None => None
    case Some(raw) => Some(Muted(RStrip(raw), row, tokens))
  }

  /** The rows `first..last` in order, or `None` when one of them is not in the file. */
  function Rows(lines: seq<string>, first: int, last: int, tokens: seq<Token>): (r: Option<seq<Row>>)
    ensures r.Some? <==> last < first || (InFile(lines, first) && InFile(lines, last))
    ensures r.Some? ==> |r.value| == (if last < first then 0 else last - first + 1)
    ensures r.Some? ==> forall k :: 0 <= k < |r.value| ==>
      r.value[k].number == first + k && RowText(lines, first + k, tokens) == Some(r.value[k].text)
    decreases if last < first then 0 else last - first + 1
  {
    if last < first then Some([])
    else
      match Rows(lines, first, last - 1, tokens)
      case None => None
      case Some(rs) =>
        match RowText(lines, last, tokens)
        case None => None
        case Some(text) => Some(rs + [Row(last, text)])
  }

  /** Width of the leading whitespace `lstrip()` removes: `before - after`. */
  function IndentWidthOf(text: string): nat {
    |text| - |LStrip(text)|
  }

  /** What a kept row contributes: its text without leading whitespace and without a trailing backslash. */
  function Piece(text: string): string {
    var line := LStrip(text);
    if EndsWith(line, "\\") then line[..|line| - 1] else line
  }

  /**
   * A piece starts with no whitespace and is the row's text from column
   * `indent` on, less a final backslash.
   */
  lemma {:induction false} PieceShape(text: string)
    ensures NoLeadingSpace(Piece(text))
    ensures IndentWidthOf(text) + |Piece(text)| <= |text|
    ensures forall j :: 0 <= j < |Piece(text)| ==> Piece(text)[j] == text[IndentWidthOf(text) + j]
    ensures |Piece(text)| < |text| - IndentWidthOf(text) ==>
      EndsWith(LStrip(text), "\\") && |Piece(text)| + 1 == |text| - IndentWidthOf(text)
  {
    PieceStart(text);
    PieceWidth(text);
    PieceChars(text);
    PieceShort(text);
  }

  lemma {:induction false} PieceStart(text: string)
    ensures NoLeadingSpace(Piece(text))
  {
  }

  lemma {:induction false} PieceWidth(text: string)
    ensures IndentWidthOf(text) + |Piece(text)| <= |text|
  {
  }

  lemma {:induction false} PieceChars(text: string)
    ensures forall j :: 0 <= j < |Piece(text)| ==> Piece(text)[j] == text[IndentWidthOf(text) + j]
  {
  }

  /** A piece is shorter than the stripped row only by the final backslash. */
  lemma {:induction false} PieceShort(text: string)
    ensures |Piece(text)| < |text| - IndentWidthOf(text) ==>
      EndsWith(LStrip(text), "\\") && |Piece(text)| + 1 == |text| - IndentWidthOf(text)
  {
  }

  /** Character `j` of a piece is character `indent + j` of its row. */
  lemma {:induction false} PieceChar(text: string, j: int)
    requires 0 <= j < |Piece(text)|
    ensures IndentWidthOf(text) + j < |text| && Piece(text)[j] == text[IndentWidthOf(text) + j]
  {
    PieceShape(text);
  }

  /** `logical += ' '` when what has been joined so far ends with a comma. */
  function Joined(logical: string): string {
    if EndsWith(logical, ",") then logical + " " else logical
  }

  /** One iteration of the row loop on `(logical, mapping)`. */
  function AppendRow(acc: (string, seq<Entry>), row: Row): (string, seq<Entry>) {
    if row.text == [] then acc
    else
      var logical := Joined(acc.0);
      (logical + Piece(row.text), acc.1 + [Entry(|logical|, row.number, IndentWidthOf(row.text))])
  }

  /** `(logical, mapping)` once the loop has gone through `rows`. */
  function Assemble(rows: seq<Row>): (string, seq<Entry>)
    decreases |rows|
  {
    if rows == [] then ("", [])
    else AppendRow(Assemble(rows[..|rows| - 1]), rows[|rows| - 1])
  }

  /** The logical line and mapping of rows `first..last`, or `None` for the IndexError. */
  function Build(lines: seq<string>, first: int, last: int, tokens: seq<Token>): Option<(string, seq<Entry>)> {
    match Rows(lines, first, last, tokens)
    case None => None
    case Some(rs) => Some(Assemble(rs))
  }

  /** The rows the loop keeps: those whose stripped, muted text is not empty, in order. */
  function Kept(rows: seq<Row>): seq<Row>
    decreases |rows|
  {
    if rows == [] then []
    else if rows[|rows| - 1].text == [] then Kept(rows[..|rows| - 1])
    else Kept(rows[..|rows| - 1]) + [rows[|rows| - 1]]
  }

  predicate Increasing(rows: seq<Row>) {
    forall i, j :: 0 <= i < j < |rows| ==> rows[i].number < rows[j].number
  }

  /** The pieces of the kept rows, in order. */
  function Pieces(ks: seq<Row>): (ps: seq<string>)
    ensures |ps| == |ks|
    decreases |ks|
  {
    if ks == [] then [] else Pieces(ks[..|ks| - 1]) + [Piece(ks[|ks| - 1].text)]
  }

  lemma {:induction false} PiecesAppend(ks: seq<Row>, row: Row)
    ensures Pieces(ks + [row]) == Pieces(ks) + [Piece(row.text)]
  {
    assert (ks + [row])[..|ks|] == ks;
  }

  lemma {:induction false} PieceOfRow(ks: seq<Row>, i: int)
    requires 0 <= i < |ks|
    ensures Pieces(ks)[i] == Piece(ks[i].text)
    decreases |ks|
  {
    if i < |ks| - 1 {
      PieceOfRow(ks[..|ks| - 1], i);
    }
  }

  /** End of the `i`-th piece in the logical line. */
  function SegmentEnd(m: seq<Entry>, ps: seq<string>, i: int): int
    requires 0 <= i < |m| && |m| == |ps|
  {
    m[i].offset + |ps[i]|
  }

  /** Between a piece ending at `e` and the next piece at `next`: one inserted space after a comma, else nothing. */
  predicate Gap(logical: string, e: int, next: int) {
    0 <= e <= |logical|
    && if EndsWith(logical[..e], ",") then next == e + 1 && e < |logical| && logical[e] == ' ' else next == e
  }

  /** Entry `i` records the row number and indentation width of kept row `i`. */
  ghost predicate EntryOf(ks: seq<Row>, m: seq<Entry>, i: int)
    requires 0 <= i < |m| == |ks|
  {
    m[i].row == ks[i].number && m[i].indent == IndentWidthOf(ks[i].text)
  }

  /** One entry per kept row, recording its row number and indentation width. */
  ghost predicate EntriesOf(ks: seq<Row>, m: seq<Entry>) {
    |m| == |ks| && forall i :: 0 <= i < |m| ==> EntryOf(ks, m, i)
  }

  /** Piece `i` sits in the logical line at entry `i`'s offset. */
  ghost predicate PieceAt(ps: seq<string>, logical: string, m: seq<Entry>, i: int)
    requires 0 <= i < |m| == |ps|
  {
    0 <= m[i].offset <= SegmentEnd(m, ps, i) <= |logical|
    && logical[m[i].offset..SegmentEnd(m, ps, i)] == ps[i]
  }

  /** Every piece sits in the logical line at its entry's offset. */
  ghost predicate PiecesAt(ps: seq<string>, logical: string, m: seq<Entry>)
    requires |m| == |ps|
  {
    forall i :: 0 <= i < |m| ==> PieceAt(ps, logical, m, i)
  }

  /** After piece `i` comes the gap `Joined` leaves before piece `i + 1`. */
  ghost predicate GapAfter(ps: seq<string>, logical: string, m: seq<Entry>, i: int)
    requires 0 <= i < |m| - 1 && |m| == |ps|
  {
    Gap(logical, SegmentEnd(m, ps, i), m[i + 1].offset)
  }

  /** Consecutive pieces are separated only by the spaces inserted after commas. */
  ghost predicate GapsBetween(ps: seq<string>, logical: string, m: seq<Entry>)
    requires |m| == |ps|
  {
    forall i :: 0 <= i < |m| - 1 ==> GapAfter(ps, logical, m, i)
  }

  /** The pieces `ps` laid out in the logical line: first at 0, gaps between, nothing after the last. */
  ghost predicate Placed(ps: seq<string>, logical: string, m: seq<Entry>) {
    && |m| == |ps|
    && (m == [] ==> logical == [])
    && (m != [] ==> m[0].offset == 0 && |logical| == SegmentEnd(m, ps, |m| - 1))
    && PiecesAt(ps, logical, m)
    && GapsBetween(ps, logical, m)
  }

  /**
   * The shape of `(logical, mapping)` built from the kept rows `ks`: one
   * entry per kept row, each piece found at its entry's offset, pieces
   * separated only by the spaces inserted after commas, and nothing
   * after the last piece.
   */
  ghost predicate Layout(ks: seq<Row>, logical: string, m: seq<Entry>) {
    && EntriesOf(ks, m)
    && NoLeadingSpace(logical)
    && Placed(Pieces(ks), logical, m)
  }

  /** Rows whose text is empty leave `(logical, mapping)` as it was. */
  lemma {:induction false} AssembleKept(rows: seq<Row>)
    ensures Assemble(rows) == Assemble(Kept(rows))
    decreases |rows|
  {
    if rows != [] {
      var front, last := rows[..|rows| - 1], rows[|rows| - 1];
      AssembleKept(front);
      assert Assemble(rows) == AppendRow(Assemble(front), last);
      if last.text != [] {
        var ks := Kept(front) + [last];
        assert ks[..|ks| - 1] == Kept(front);
        assert Assemble(ks) == AppendRow(Assemble(Kept(front)), last);
      }
    }
  }

  /** The pieces already placed stay where they are when the logical line grows. */
  lemma {:induction false} ExtendKeepsPieces(ps: seq<string>, logical: string, m: seq<Entry>, p: string, e: Entry, extended: string)
    requires |m| == |ps| && PiecesAt(ps, logical, m)
    requires |logical| <= e.offset <= |extended| && extended[..|logical|] == logical
    requires extended[e.offset..] == p
    ensures PiecesAt(ps + [p], extended, m + [e])
  {
    var m', ps' := m + [e], ps + [p];
    forall i | 0 <= i < |m'|
      ensures PieceAt(ps', extended, m', i)
    {
      if i < |m| {
        assert m'[i] == m[i] && ps'[i] == ps[i];
        assert PieceAt(ps, logical, m, i);
        var lo, hi := m[i].offset, SegmentEnd(m, ps, i);
        assert SegmentEnd(m', ps', i) == hi;
        assert extended[lo..hi] == logical[lo..hi];
      } else {
        assert extended[e.offset..|extended|] == extended[e.offset..];
      }
    }
  }

  /** A gap stays a gap when the logical line grows. */
  lemma {:induction false} GapExtends(logical: string, extended: string, e: int, next: int)
    requires Gap(logical, e, next)
    requires |logical| <= |extended| && extended[..|logical|] == logical
    ensures Gap(extended, e, next)
  {
    assert extended[..e] == logical[..e];
    if e < |logical| {
      assert extended[e] == logical[e];
    }
  }

  /** `Joined` leaves exactly the gap `Gap` describes after the last piece. */
  lemma {:induction false} GapAfterJoin(logical: string, extended: string)
    requires |Joined(logical)| <= |extended| && extended[..|Joined(logical)|] == Joined(logical)
    ensures Gap(extended, |logical|, |Joined(logical)|)
  {
    assert extended[..|logical|] == Joined(logical)[..|logical|] == logical;
    if EndsWith(logical, ",") {
      assert extended[|logical|] == Joined(logical)[|logical|] == ' ';
    }
  }

  /** The gaps already placed stay, and the new entry follows the last piece as `Joined` says. */
  lemma {:induction false} ExtendKeepsGaps(ps: seq<string>, logical: string, m: seq<Entry>, p: string, e: Entry, extended: string)
    requires |m| == |ps| && GapsBetween(ps, logical, m)
    requires m != [] ==> |logical| == SegmentEnd(m, ps, |m| - 1)
    requires e.offset == |Joined(logical)|
    requires |Joined(logical)| <= |extended| && extended[..|Joined(logical)|] == Joined(logical)
    ensures GapsBetween(ps + [p], extended, m + [e])
  {
    var m', ps' := m + [e], ps + [p];
    assert extended[..|logical|] == logical;
    forall i | 0 <= i < |m'| - 1
      ensures GapAfter(ps', extended, m', i)
    {
      var end := SegmentEnd(m', ps', i);
      assert m'[i] == m[i] && ps'[i] == ps[i];
      assert end == SegmentEnd(m, ps, i);
      if i < |m| - 1 {
        assert GapAfter(ps, logical, m, i);
        assert m'[i + 1] == m[i + 1];
        GapExtends(logical, extended, end, m[i + 1].offset);
      } else {
        GapAfterJoin(logical, extended);
      }
    }
  }

  /** Joining one more piece keeps the pieces placed. */
  lemma {:induction false} JoinKeepsPlaced(ps: seq<string>, logical: string, m: seq<Entry>, p: string, e: Entry)
    requires Placed(ps, logical, m)
    requires e.offset == |Joined(logical)|
    ensures Placed(ps + [p], Joined(logical) + p, m + [e])
  {
    var joined := Joined(logical);
    var extended := joined + p;
    assert extended[..|joined|] == joined && joined[..|logical|] == logical;
    assert extended[..|logical|] == logical;
    assert extended[|joined|..] == p;
    ExtendKeepsPieces(ps, logical, m, p, e, extended);
    ExtendKeepsGaps(ps, logical, m, p, e, extended);
    var m', ps' := m + [e], ps + [p];
    assert SegmentEnd(m', ps', |m'| - 1) == |extended|;
    if m != [] {
      assert m'[0] == m[0];
    } else {
      assert joined == [];
    }
  }

  /** Appending one non-empty row keeps the layout. */
  lemma {:induction false} AppendKeepsLayout(ks: seq<Row>, logical: string, m: seq<Entry>, row: Row)
    requires Layout(ks, logical, m) && row.text != []
    ensures var (logical', m') := AppendRow((logical, m), row);
      Layout(ks + [row], logical', m')
  {
    var joined := Joined(logical);
    var p := Piece(row.text);
    var entry := Entry(|joined|, row.number, IndentWidthOf(row.text));
    var m', ks' := m + [entry], ks + [row];
    assert AppendRow((logical, m), row) == (joined + p, m');
    PiecesAppend(ks, row);
    JoinKeepsPlaced(Pieces(ks), logical, m, p, entry);
    assert EntriesOf(ks', m') by {
      forall i | 0 <= i < |m'|
        ensures EntryOf(ks', m', i)
      {
        if i < |m| {
          assert m'[i] == m[i] && ks'[i] == ks[i];
          assert EntryOf(ks, m, i);
        }
      }
    }
    assert NoLeadingSpace(joined + p) by {
      PieceShape(row.text);
      if logical != [] {
        assert (joined + p)[0] == logical[0];
      } else {
        assert joined == [];
      }
    }
  }

  /** `(logical, mapping)` has the layout of the kept rows. */
  lemma {:induction false} AssembleLayout(ks: seq<Row>)
    requires forall k :: 0 <= k < |ks| ==> ks[k].text != []
    ensures Layout(ks, Assemble(ks).0, Assemble(ks).1)
    decreases |ks|
  {
    if ks != [] {
      var front := ks[..|ks| - 1];
      AssembleLayout(front);
      AppendKeepsLayout(front, Assemble(front).0, Assemble(front).1, ks[|ks| - 1]);
      assert front + [ks[|ks| - 1]] == ks;
    }
  }

  /** The logical line of rows `first..last` has the layout of the rows whose stripped, muted text is not empty. */
  lemma {:induction false} BuildLayout(lines: seq<string>, first: int, last: int, tokens: seq<Token>)
    requires Build(lines, first, last, tokens).Some?
    ensures Layout(Kept(Rows(lines, first, last, tokens).value),
                   Build(lines, first, last, tokens).value.0, Build(lines, first, last, tokens).value.1)
  {
    var rs := Rows(lines, first, last, tokens).value;
    AssembleKept(rs);
    KeptFromRows(rs, first);
    AssembleLayout(Kept(rs));
  }

  /** What `check_logical` relies on: the logical line does not start with whitespace, and its first entry is at offset 0 with an indentation width. */
  lemma {:induction false} BuildStartsLine(lines: seq<string>, first: int, last: int, tokens: seq<Token>)
    requires Build(lines, first, last, tokens).Some?
    ensures NoLeadingSpace(Build(lines, first, last, tokens).value.0)
    ensures Build(lines, first, last, tokens).value.1 != [] ==>
      Build(lines, first, last, tokens).value.1[0].offset == 0 && Build(lines, first, last, tokens).value.1[0].indent >= 0
  {
    BuildLayout(lines, first, last, tokens);
    var m := Build(lines, first, last, tokens).value.1;
    if m != [] {
      assert EntryOf(Kept(Rows(lines, first, last, tokens).value), m, 0);
    }
  }

  /** Row `k` of the statement is row `first + k` of the file. */
  predicate Numbered(rs: seq<Row>, first: int) {
    forall k :: 0 <= k < |rs| ==> rs[k].number == first + k
  }

  /** Each kept row is a row of the statement (the one its number names) and has text. */
  predicate FromRows(ks: seq<Row>, rs: seq<Row>, first: int) {
    forall i :: 0 <= i < |ks| ==>
      first <= ks[i].number < first + |rs| && rs[ks[i].number - first] == ks[i] && ks[i].text != []
  }

  /** The kept rows come from the statement, with text, in increasing order. */
  lemma {:induction false} KeptFromRows(rs: seq<Row>, first: int)
    requires Numbered(rs, first)
    ensures Increasing(Kept(rs))
    ensures FromRows(Kept(rs), rs, first)
    decreases |rs|
  {
    if rs != [] {
      var front, last := rs[..|rs| - 1], rs[|rs| - 1];
      assert Numbered(front, first);
      KeptFromRows(front, first);
      var kf := Kept(front);
      var ks := Kept(rs);
      assert ks == if last.text == [] then kf else kf + [last];
      assert FromRows(ks, rs, first) by {
        forall i | 0 <= i < |ks|
          ensures first <= ks[i].number < first + |rs| && rs[ks[i].number - first] == ks[i] && ks[i].text != []
        {
          if i < |kf| {
            assert ks[i] == kf[i];
            assert front[kf[i].number - first] == kf[i];
          }
        }
      }
      assert Increasing(ks) by {
        forall i, j | 0 <= i < j < |ks|
          ensures ks[i].number < ks[j].number
        {
          if j < |kf| {
            assert ks[i] == kf[i] && ks[j] == kf[j];
          } else {
            assert ks[i] == kf[i];
          }
        }
      }
    }
  }

  /** Every row with text is kept. */
  lemma {:induction false} KeptCoversRows(rs: seq<Row>)
    ensures forall k :: 0 <= k < |rs| && rs[k].text != [] ==> exists i :: 0 <= i < |Kept(rs)| && Kept(rs)[i] == rs[k]
    decreases |rs|
  {
    if rs != [] {
      var front, last := rs[..|rs| - 1], rs[|rs| - 1];
      KeptCoversRows(front);
      forall k | 0 <= k < |rs| && rs[k].text != []
        ensures exists i :: 0 <= i < |Kept(rs)| && Kept(rs)[i] == rs[k]
      {
        if k < |front| {
          assert rs[k] == front[k];
          var i :| 0 <= i < |Kept(front)| && Kept(front)[i] == front[k];
          assert Kept(rs)[i] == Kept(front)[i];
        } else {
          assert Kept(rs) == Kept(front) + [last];
          assert Kept(rs)[|Kept(rs)| - 1] == rs[k];
        }
      }
    }
  }

  /** The mapping lists rows of the statement that have text, in increasing order. */
  lemma {:induction false} BuildRows(lines: seq<string>, first: int, last: int, tokens: seq<Token>)
    requires Build(lines, first, last, tokens).Some?
    ensures var m := Build(lines, first, last, tokens).value.1;
      && (forall i, j :: 0 <= i < j < |m| ==> m[i].row < m[j].row)
      && (forall i :: 0 <= i < |m| ==> first <= m[i].row <= last && RowText(lines, m[i].row, tokens) != Some(""))
  {
    var rs := Rows(lines, first, last, tokens).value;
    var ks := Kept(rs);
    var m := Build(lines, first, last, tokens).value.1;
    assert EntriesOf(ks, m) by {
      BuildLayout(lines, first, last, tokens);
    }
    KeptFromRows(rs, first);
    forall i | 0 <= i < |m|
      ensures first <= m[i].row <= last && RowText(lines, m[i].row, tokens) != Some("")
    {
      assert EntryOf(ks, m, i);
      var k := ks[i].number - first;
      assert RowText(lines, first + k, tokens) == Some(rs[k].text);
    }
    forall i, j | 0 <= i < j < |m|
      ensures m[i].row < m[j].row
    {
      assert EntryOf(ks, m, i) && EntryOf(ks, m, j);
    }
  }

  /** Every row of the statement whose stripped, muted text is not empty appears in the mapping. */
  lemma {:induction false} BuildCoversRows(lines: seq<string>, first: int, last: int, tokens: seq<Token>)
    requires Build(lines, first, last, tokens).Some?
    ensures var m := Build(lines, first, last, tokens).value.1;
      forall row :: first <= row <= last && RowText(lines, row, tokens) != Some("") ==>
        exists i :: 0 <= i < |m| && m[i].row == row
  {
    var rs := Rows(lines, first, last, tokens).value;
    var m := Build(lines, first, last, tokens).value.1;
    assert EntriesOf(Kept(rs), m) by {
      BuildLayout(lines, first, last, tokens);
    }
    forall row | first <= row <= last && RowText(lines, row, tokens) != Some("")
      ensures exists i :: 0 <= i < |m| && m[i].row == row
    {
      RowOfRows(lines, first, last, tokens, row);
      KeptRowInMapping(rs, m, row - first);
    }
  }

  /** Row `row` of the statement sits at index `row - first` of its rows. */
  lemma {:induction false} RowOfRows(lines: seq<string>, first: int, last: int, tokens: seq<Token>, row: int)
    requires Rows(lines, first, last, tokens).Some? && first <= row <= last
    ensures 0 <= row - first < |Rows(lines, first, last, tokens).value|
    ensures Rows(lines, first, last, tokens).value[row - first] == Row(row, RowText(lines, row, tokens).value)
  {
    var rs := Rows(lines, first, last, tokens).value;
    var k := row - first;
    assert rs[k].number == first + k && RowText(lines, first + k, tokens) == Some(rs[k].text);
  }

  /** A row with text has an entry in a mapping that lists the kept rows. */
  lemma {:induction false} KeptRowInMapping(rs: seq<Row>, m: seq<Entry>, k: int)
    requires EntriesOf(Kept(rs), m) && 0 <= k < |rs| && rs[k].text != []
    ensures exists i :: 0 <= i < |m| && m[i].row == rs[k].number
  {
    KeptCoversRows(rs);
    var i :| 0 <= i < |Kept(rs)| && Kept(rs)[i] == rs[k];
    assert EntryOf(Kept(rs), m, i);
  }

  /** Once a row of the statement is not in the file, the whole statement fails. */
  lemma {:induction false} MissingRowFails(lines: seq<string>, first: int, row: int, last: int, tokens: seq<Token>)
    requires first <= row <= last && !InFile(lines, row)
    ensures Build(lines, first, last, tokens).None?
  {
  }

  /** The rows `first..row` are the rows `first..row - 1` and then row `row`. */
  lemma {:induction false} BuildStep(lines: seq<string>, first: int, row: int, tokens: seq<Token>)
    requires first <= row && InFile(lines, row) && Build(lines, first, row - 1, tokens).Some?
    ensures Build(lines, first, row, tokens)
      == Some(AppendRow(Build(lines, first, row - 1, tokens).value, Row(row, RowText(lines, row, tokens).value)))
  {
    var rs := Rows(lines, first, row - 1, tokens).value;
    var rs' := rs + [Row(row, RowText(lines, row, tokens).value)];
    assert Rows(lines, first, row, tokens) == Some(rs');
    assert rs'[..|rs|] == rs;
  }

  /** One iteration of the row loop of `check_logical`, on `logical` and `mapping`. */
  method AppendLine(logical: string, mapping: seq<Entry>, lineNumber: int, line: string)
    returns (logical': string, mapping': seq<Entry>)
    ensures (logical', mapping') == AppendRow((logical, mapping), Row(lineNumber, line))
  {
    logical', mapping' := logical, mapping;
    if line != "" {
      var before := |line|;
      var stripped := LStrip(line);
      var after := |stripped|;
      var indent := before - after;
      if EndsWith(stripped, "\\") {
        stripped := stripped[..|stripped| - 1];
      }
      if EndsWith(logical', ",") {
        logical' := logical' + " ";
      }
      mapping' := mapping' + [Entry(|logical'|, lineNumber, indent)];
      logical' := logical' + stripped;
    }
  }

  /** One row of the loop of `check_logical`: read it (the IndexError is `None`), mute it, append it. */
  method NextRow(lines: seq<string>, first: int, lineNumber: int, tokens: seq<Token>, logical: string, mapping: seq<Entry>)
    returns (r: Option<(string, seq<Entry>)>)
    requires first <= lineNumber && Build(lines, first, lineNumber - 1, tokens) == Some((logical, mapping))
    ensures r == Build(lines, first, lineNumber, tokens)
    ensures r.None? ==> !InFile(lines, lineNumber)
  {
    var raw := PyIndex(lines, lineNumber - 1);
    if raw.None? {
      return None;
    }
    var line := MuteLine(RStrip(raw.value), lineNumber, tokens);
    var logical', mapping' := AppendLine(logical, mapping, lineNumber, line);
    BuildStep(lines, first, lineNumber, tokens);
    r := Some((logical', mapping'));
  }

  /** The loop of `check_logical` that builds `logical` and `mapping`. */
  method BuildLogicalLine(lines: seq<string>, start: Pos, end: Pos, tokens: seq<Token>)
    returns (r: Option<(string, seq<Entry>)>)
    ensures r == Build(lines, start.row, end.row, tokens)
  {
    var mapping: seq<Entry> := [];
    var logical := "";
    var lineNumber := start.row;
    while lineNumber <= end.row
      invariant lineNumber == start.row || start.row < lineNumber <= end.row + 1
      invariant Build(lines, start.row, lineNumber - 1, tokens) == Some((logical, mapping))
      decreases end.row - lineNumber
    {
      var next := NextRow(lines, start.row, lineNumber, tokens, logical, mapping);
      if next.None? {
        MissingRowFails(lines, start.row, lineNumber, end.row, tokens);
        return None;
      }
      logical, mapping := next.value.0, next.value.1;
      lineNumber := lineNumber + 1;
    }
    r := Some((logical, mapping));
    BuildPastEnd(lines, start.row, lineNumber - 1, end.row, tokens);
  }

  /** Once the loop has passed `last`, what it built is the whole range, also when the range is empty. */
  lemma {:induction false} BuildPastEnd(lines: seq<string>, first: int, done: int, last: int, tokens: seq<Token>)
    requires done == last || (done == first - 1 && last < first)
    ensures Build(lines, first, done, tokens) == Build(lines, first, last, tokens)
  {
  }

  /** The entry the offset falls under: the last one starting at or before it, `None` if every entry starts after it. */
  function LastAtOrBefore(m: seq<Entry>, offset: int): (r: Option<nat>)
    ensures r.None? <==> forall i :: 0 <= i < |m| ==> m[i].offset > offset
    ensures r.Some? ==> (r.value < |m| && m[r.value].offset <= offset
      && forall j :: r.value < j < |m| ==> m[j].offset > offset)
    decreases |m|
  {
    if m == [] then None
    else if m[|m| - 1].offset <= offset then Some(|m| - 1)
    else LastAtOrBefore(m[..|m| - 1], offset)
  }

  /**
   * The loop of `check_logical` that maps a check's offset back: the row
   * and the column counted from the start of that row's piece. `None`
   * stands for the name error when no entry starts at or before it.
   */
  method Locate(mapping: seq<Entry>, offset: int) returns (r: Option<(int, int)>)
    ensures r.None? <==> LastAtOrBefore(mapping, offset).None?
    ensures r.Some? ==> var i := LastAtOrBefore(mapping, offset).value;
      r.value == (mapping[i].row, offset - mapping[i].offset)
  {
    r := None;
    ghost var at: nat := 0;
    for k := 0 to |mapping|
      invariant r.None? <==> forall i :: 0 <= i < k ==> mapping[i].offset > offset
      invariant r.Some? ==> (at < k && mapping[at].offset <= offset
        && r.value == (mapping[at].row, offset - mapping[at].offset)
        && forall j :: at < j < k ==> mapping[j].offset > offset)
    {
      var e := mapping[k];
      if offset >= e.offset {
        r := Some((e.row, offset - e.offset));
        at := k;
      }
    }
  }

  /**
   * Mapping back from a valid offset of the logical line, on the pieces:
   * some entry starts at or before it, and the offset falls either inside
   * that entry's piece or on the space inserted after a comma.
   */
  lemma {:induction false} MapBackToPiece(ps: seq<string>, logical: string, m: seq<Entry>, offset: int) returns (i: nat)
    requires Placed(ps, logical, m) && 0 <= offset < |logical|
    ensures LastAtOrBefore(m, offset) == Some(i)
    ensures i < |m| == |ps| && m[i].offset <= offset
    ensures offset < SegmentEnd(m, ps, i) ==> logical[offset] == ps[i][offset - m[i].offset]
    ensures offset >= SegmentEnd(m, ps, i) ==>
      && offset == SegmentEnd(m, ps, i) && i + 1 < |m|
      && logical[offset] == ' ' && EndsWith(logical[..offset], ",")
  {
    assert m != [] && m[0].offset <= offset;
    i := LastAtOrBefore(m, offset).value;
    var e := SegmentEnd(m, ps, i);
    if offset < e {
      assert PieceAt(ps, logical, m, i);
      assert logical[m[i].offset..e] == ps[i];
      assert logical[offset] == logical[m[i].offset..e][offset - m[i].offset];
    } else if i + 1 < |m| {
      assert GapAfter(ps, logical, m, i);
    }
  }

  /**
   * Mapping back from a valid offset of the logical line: some entry
   * starts at or before it, and the character there is either the
   * character of that entry's row at `indent + (offset - entry offset)`,
   * or the space inserted after a comma. The column `check_logical`
   * reports is `offset - entry offset`, so it lies `indent` columns to the
   * left of the character it is about.
   */
  lemma {:induction false} MapBackToRow(ks: seq<Row>, logical: string, m: seq<Entry>, offset: int) returns (i: nat)
    requires Layout(ks, logical, m) && 0 <= offset < |logical|
    ensures LastAtOrBefore(m, offset) == Some(i)
    ensures i < |m| == |ks| && m[i].offset <= offset
    ensures offset < SegmentEnd(m, Pieces(ks), i) ==>
      && 0 <= m[i].indent && m[i].indent + (offset - m[i].offset) < |ks[i].text|
      && logical[offset] == ks[i].text[m[i].indent + (offset - m[i].offset)]
    ensures offset >= SegmentEnd(m, Pieces(ks), i) ==>
      && offset == SegmentEnd(m, Pieces(ks), i) && i + 1 < |m|
      && logical[offset] == ' ' && EndsWith(logical[..offset], ",")
  {
    var ps := Pieces(ks);
    i := MapBackToPiece(ps, logical, m, offset);
    if offset < SegmentEnd(m, ps, i) {
      var column := offset - m[i].offset;
      PieceCharOfRow(ks, m, i, column);
      assert logical[offset] == ps[i][column] == ks[i].text[m[i].indent + column];
    }
  }

  /** Character `column` of the piece of kept row `i` is character `indent + column` of that row. */
  lemma {:induction false} PieceCharOfRow(ks: seq<Row>, m: seq<Entry>, i: int, column: int)
    requires EntriesOf(ks, m) && 0 <= i < |ks| && 0 <= column < |Pieces(ks)[i]|
    ensures 0 <= m[i].indent && m[i].indent + column < |ks[i].text|
    ensures Pieces(ks)[i][column] == ks[i].text[m[i].indent + column]
  {
    assert EntryOf(ks, m, i);
    PieceOfRow(ks, i);
    PieceChar(ks[i].text, column);
  }

  /**
   * `indent_level` is the number of leading whitespace characters,
   * whatever they are: a leading tab counts 1, where `get_indent` counts 8.
   */
  lemma {:induction false} IndentLevelCountsCharacters(blanks: string, rest: string)
    requires forall i :: 0 <= i < |blanks| ==> IsSpace(blanks[i])
    requires NoLeadingSpace(rest)
    ensures IndentWidthOf(blanks + rest) == |blanks|
    decreases |blanks|
  {
    if blanks == [] {
      assert blanks + rest == rest;
    } else {
      assert (blanks + rest)[0] == blanks[0] && (blanks + rest)[1..] == blanks[1..] + rest;
      IndentLevelCountsCharacters(blanks[1..], rest);
    }
  }

  /** A leading tab: one character for `indent_level`, eight columns for `get_indent`. */
  lemma {:induction false} TabIndentLevel()
    ensures IndentWidthOf("\tx") == 1 && Indent.IndentWidth("\tx") == 8
  {
    assert "\tx"[1..] == "x" && LStrip("x") == "x";
    assert LStrip("\tx") == "x";
    assert Indent.Expand(0, "\tx") == Indent.Expand(8, "x") == 8;
  }
}
