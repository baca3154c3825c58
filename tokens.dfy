/**
 * Tokens as the lexer hands them to the checker, and the statement grouping
 * of `Checker.check_all`: tokens accumulate until a NEWLINE token arrives
 * while the bracket depth is zero; that NEWLINE closes one logical line.
 */
module Tokens {
  import opened Wrappers
  import opened PyStr

  /** A lexer position: a 1-based row and a 0-based column. */
  datatype Pos = Pos(row: int, col: int)

  /** The token types the checker tells apart; every other type of the lexer is `Other`. */
  datatype Kind = Comment | String | Op | Newline | Other

  /** One lexer record `(type, text, start, end, physical line)`. */
  datatype Token = Token(kind: Kind, text: string, start: Pos, end: Pos, line: string)

  /**
   * One interaction of the lexer with the checker: the lexer pulls the next
   * physical line through `readline_check_physical`, or yields a token.
   */
  datatype LexEvent = Pull | Emit(token: Token)

  /** The accumulators of the `check_all` loop: `start`, `tokens` and `parens`. */
  datatype Accum = Accum(start: Option<Pos>, tokens: seq<Token>, parens: int)

  /** The arguments `check_logical` receives: the first token's start, the NEWLINE's end, the tokens. */
  datatype Group = Group(start: Pos, end: Pos, tokens: seq<Token>)

  const EmptyAccum := Accum(None, [], 0)

  /** The change one token makes to `parens`: `token_string in '([{'` and `in '}])'` are substring tests. */
  function Delta(t: Token): int {
    (if t.kind == Op && Contains("([{", t.text) then 1 else 0)
    - (if t.kind == Op && Contains("}])", t.text) then 1 else 0)
  }

  /** Bracket depth reached after a run of tokens, counted from zero. */
  function Depth(ts: seq<Token>): int {
    if ts == [] then 0 else Delta(ts[0]) + Depth(ts[1..])
  }

  /** The token `ts[j]` would close a statement: a NEWLINE seen at depth zero. */
  predicate ClosesAt(ts: seq<Token>, j: int)
    requires 0 <= j < |ts|
  {
    ts[j].kind == Newline && Depth(ts[..j + 1]) == 0
  }

  /** One iteration of the `check_all` loop body, on the accumulators; the group is handed to `check_logical`. */
  function Feed(a: Accum, t: Token): (Accum, Option<Group>) {
    var tokens := a.tokens + [t];
    var start := if a.start.None? then t.start else a.start.value;
    var parens := a.parens + Delta(t);
    if t.kind == Newline && parens == 0 then
      (Accum(None, [], parens), Some(Group(start, t.end, tokens)))
    else
      (Accum(Some(start), tokens, parens), None)
  }

  /** The groups `check_logical` receives while the loop consumes `ts`. */
  function Groups(a: Accum, ts: seq<Token>): seq<Group>
    decreases |ts|
  {
    if ts == [] then []
    else
      var (a', g) := Feed(a, ts[0]);
      (if g.Some? then [g.value] else []) + Groups(a', ts[1..])
  }

  /** The accumulators once the loop has consumed `ts`. */
  function Final(a: Accum, ts: seq<Token>): Accum
    decreases |ts|
  {
    if ts == [] then a else Final(Feed(a, ts[0]).0, ts[1..])
  }

  function Flatten(gs: seq<Group>): seq<Token> {
    if gs == [] then [] else gs[0].tokens + Flatten(gs[1..])
  }

  /** The accumulators at a point between statements: no token among them closes a statement. */
  ghost predicate Pending(a: Accum) {
    && a.start == (if a.tokens == [] then None else Some(a.tokens[0].start))
    && a.parens == Depth(a.tokens)
    && forall j :: 0 <= j < |a.tokens| ==> !ClosesAt(a.tokens, j)
  }

  /**
   * A group is one statement: it starts where its first token starts, ends
   * at a NEWLINE seen at depth zero, and no earlier token of it closes.
   */
  ghost predicate IsStatement(g: Group) {
    && |g.tokens| > 0
    && g.start == g.tokens[0].start
    && g.end == g.tokens[|g.tokens| - 1].end
    && ClosesAt(g.tokens, |g.tokens| - 1)
    && forall j :: 0 <= j < |g.tokens| - 1 ==> !ClosesAt(g.tokens, j)
  }

  lemma {:induction false} DepthAppend(ts: seq<Token>, t: Token)
    ensures Depth(ts + [t]) == Depth(ts) + Delta(t)
  {
    if ts == [] {
      assert [t][1..] == [];
    } else {
      assert (ts + [t])[1..] == ts[1..] + [t];
      DepthAppend(ts[1..], t);
    }
  }

  /** An OP token `(`, `[` or `{` opens one level, `)`, `]` or `}` closes one; nothing else moves the depth. */
  lemma {:induction false} DeltaOfBrackets(t: Token)
    ensures t.kind == Op && |t.text| == 1 && t.text[0] in "([{" ==> Delta(t) == 1
    ensures t.kind == Op && |t.text| == 1 && t.text[0] in "}])" ==> Delta(t) == -1
    ensures t.kind == Op && |t.text| == 1 && t.text[0] !in "([{}])" ==> Delta(t) == 0
    ensures t.kind != Op ==> Delta(t) == 0
  {
    if t.kind == Op && |t.text| == 1 {
      var c := t.text[0];
      assert t.text == [c];
      FindChar("([{", c);
      FindChar("}])", c);
    }
  }

  /** `parens` is the running bracket depth: the starting value plus the depth of every token consumed. */
  lemma {:induction false} ParensTrackDepth(a: Accum, ts: seq<Token>)
    ensures Final(a, ts).parens == a.parens + Depth(ts)
    decreases |ts|
  {
    if ts != [] {
      ParensTrackDepth(Feed(a, ts[0]).0, ts[1..]);
    }
  }

  /** Grouping loses and reorders nothing: the groups, then the pending tokens, are exactly the input. */
  lemma {:induction false} GroupsPartition(a: Accum, ts: seq<Token>)
    ensures Flatten(Groups(a, ts)) + Final(a, ts).tokens == a.tokens + ts
    decreases |ts|
  {
    if ts != [] {
      var (a', g) := Feed(a, ts[0]);
      GroupsPartition(a', ts[1..]);
      var rest, pending := Flatten(Groups(a', ts[1..])), Final(a', ts[1..]).tokens;
      assert Final(a, ts).tokens == pending;
      assert a.tokens + ts == (a.tokens + [ts[0]]) + ts[1..];
      if g.Some? {
        assert Groups(a, ts) == [g.value] + Groups(a', ts[1..]);
        FlattenCons(g.value, Groups(a', ts[1..]));
        assert g.value.tokens == a.tokens + [ts[0]] && a'.tokens == [];
        Regroup(g.value.tokens, rest, pending);
      } else {
        assert a'.tokens == a.tokens + [ts[0]];
        assert Groups(a, ts) == Groups(a', ts[1..]);
      }
    }
  }

  lemma {:induction false} FlattenCons(g: Group, gs: seq<Group>)
    ensures Flatten([g] + gs) == g.tokens + Flatten(gs)
  {
    assert ([g] + gs)[0] == g && ([g] + gs)[1..] == gs;
  }

  lemma {:induction false} Regroup(x: seq<Token>, y: seq<Token>, z: seq<Token>)
    ensures (x + y) + z == x + (y + z)
  {
  }

  lemma {:induction false} FeedKeepsPending(a: Accum, t: Token)
    requires Pending(a)
    ensures Pending(Feed(a, t).0)
    ensures Feed(a, t).1.Some? ==> IsStatement(Feed(a, t).1.value) && Feed(a, t).1.value.tokens == a.tokens + [t]
  {
    var ts := a.tokens + [t];
    DepthAppend(a.tokens, t);
    assert ts[..|ts|] == ts;
    forall j | 0 <= j < |a.tokens|
      ensures !ClosesAt(ts, j)
    {
      assert ts[..j + 1] == a.tokens[..j + 1];
      assert !ClosesAt(a.tokens, j);
    }
  }

  /**
   * Starting between statements, every group handed to `check_logical` is
   * one whole statement, and the loop again ends between statements.
   */
  lemma {:induction false} GroupsAreStatements(a: Accum, ts: seq<Token>)
    requires Pending(a)
    ensures Pending(Final(a, ts))
    ensures forall g :: g in Groups(a, ts) ==> IsStatement(g)
    decreases |ts|
  {
    if ts != [] {
      var (a', g) := Feed(a, ts[0]);
      FeedKeepsPending(a, ts[0]);
      GroupsAreStatements(a', ts[1..]);
    }
  }

  /** The loop starts between statements. */
  lemma {:induction false} EmptyAccumPending()
    ensures Pending(EmptyAccum)
  {
  }
}
