/**
 * The few Python 2 string operations the checker is built from, with
 * Python's own edge cases: slices clamp out-of-range and negative bounds,
 * `find` answers -1 on a miss, `rstrip()`/`lstrip()` strip the characters
 * `str.isspace()` accepts, and `x in s` on two strings is a substring test.
 */
module PyStr {
  import opened Wrappers

  /** The characters Python 2's `str.isspace()` accepts: the default set of `strip` and of regex `\s`. */
  predicate IsSpace(c: char) {
    c == ' ' || c == '\t' || c == '\n' || c == '\r' || c == '\U{0B}' || c == '\U{0C}'
  }

  /** Regex `\w` on a Python 2 byte string: ASCII letters, digits and underscore. */
  predicate IsWordChar(c: char) {
    ('a' <= c <= 'z') || ('A' <= c <= 'Z') || ('0' <= c <= '9') || c == '_'
  }

  /** `s.rstrip()`: the longest prefix of `s` that does not end in whitespace. */
  function RStrip(s: string): (r: string)
    ensures |r| <= |s| && r == s[..|r|]
    ensures r == [] || !IsSpace(r[|r| - 1])
    ensures forall i :: |r| <= i < |s| ==> IsSpace(s[i])
  {
    if s != [] && IsSpace(s[|s| - 1]) then RStrip(s[..|s| - 1]) else s
  }

  /** `s.lstrip()`: the longest suffix of `s` that does not start with whitespace. */
  function LStrip(s: string): (r: string)
    ensures |r| <= |s| && r == s[|s| - |r|..]
    ensures r == [] || !IsSpace(r[0])
    ensures forall i :: 0 <= i < |s| - |r| ==> IsSpace(s[i])
  {
    if s != [] && IsSpace(s[0]) then LStrip(s[1..]) else s
  }

  /** `s.rstrip(c)` for a one-character argument: drop every trailing `c`. */
  function RStripChar(s: string, c: char): (r: string)
    ensures |r| <= |s| && r == s[..|r|]
    ensures r == [] || r[|r| - 1] != c
    ensures forall i :: |r| <= i < |s| ==> s[i] == c
  {
    if s != [] && s[|s| - 1] == c then RStripChar(s[..|s| - 1], c) else s
  }

  predicate StartsWith(s: string, prefix: string) {
    |prefix| <= |s| && s[..|prefix|] == prefix
  }

  predicate EndsWith(s: string, suffix: string) {
    |suffix| <= |s| && s[|s| - |suffix|..] == suffix
  }

  /** `sub` occurs in `s` starting at index `i`. */
  predicate OccursAt(s: string, sub: string, i: int) {
    0 <= i && i + |sub| <= |s| && s[i..i + |sub|] == sub
  }

  /** `s.find(sub, start)`: the first occurrence of `sub` at or after `start`, or -1. */
  function FindFrom(s: string, sub: string, start: nat): (r: int)
    ensures r == -1 || (start <= r && OccursAt(s, sub, r))
    ensures r == -1 ==> forall i :: start <= i ==> !OccursAt(s, sub, i)
    ensures r != -1 ==> forall i :: start <= i < r ==> !OccursAt(s, sub, i)
    decreases |s| - start
  {
    if start + |sub| > |s| then -1
    else if s[start..start + |sub|] == sub then start
    else FindFrom(s, sub, start + 1)
  }

  /** `s.find(sub)`. */
  function Find(s: string, sub: string): int {
    FindFrom(s, sub, 0)
  }

  /** The first occurrence of `sub` in `s` starts at `i`. */
  predicate FirstAt(s: string, sub: string, i: int) {
    OccursAt(s, sub, i) && forall j :: 0 <= j < i ==> !OccursAt(s, sub, j)
  }

  /** `sub` occurs nowhere in `s`: `s.find(sub)` would answer -1. */
  ghost predicate Absent(s: string, sub: string) {
    forall i :: !OccursAt(s, sub, i)
  }

  /** `s.find(sub)` answers -1 exactly when `sub` does not occur, and otherwise the first occurrence. */
  lemma {:induction false} FindIsFirst(s: string, sub: string)
    ensures Find(s, sub) == -1 <==> forall i :: !OccursAt(s, sub, i)
    ensures Find(s, sub) != -1 ==> FirstAt(s, sub, Find(s, sub))
  {
  }

  /** `s.find(c)` for one character: the first index holding `c`, or -1. */
  lemma {:induction false} FindChar(s: string, c: char)
    ensures Find(s, [c]) == -1 <==> c !in s
    ensures Find(s, [c]) != -1 ==>
      var r := Find(s, [c]);
      0 <= r < |s| && s[r] == c && forall j :: 0 <= j < r ==> s[j] != c
  {
    forall i | 0 <= i < |s|
      ensures OccursAt(s, [c], i) <==> s[i] == c
    {
      assert s[i..i + 1] == [s[i]];
    }
  }

  /** `needle in hay` on two strings: a substring test. */
  predicate Contains(hay: string, needle: string) {
    Find(hay, needle) != -1
  }

  /** `s.rfind(c)` for one character: the last index holding `c`, or -1. */
  function RFindChar(s: string, c: char): (r: int)
    ensures -1 <= r < |s|
    ensures r == -1 <==> c !in s
    ensures r != -1 ==> s[r] == c && forall j :: r < j < |s| ==> s[j] != c
  {
    if s == [] then -1
    else if s[|s| - 1] == c then |s| - 1
    else RFindChar(s[..|s| - 1], c)
  }

  /** The index a Python slice bound `k` denotes in a sequence of length `n`. */
  function SliceBound(n: nat, k: int): (r: nat)
    ensures r <= n
    ensures 0 <= k <= n ==> r == k
  {
    if k < 0 then (if n + k < 0 then 0 else n + k)
    else if k > n then n
    else k
  }

  /** `s[:k]` with Python's clamping of negative and out-of-range bounds. */
  function Take(s: string, k: int): string {
    s[..SliceBound(|s|, k)]
  }

  /** `s[k:]` with Python's clamping of negative and out-of-range bounds. */
  function Drop(s: string, k: int): string {
    s[SliceBound(|s|, k)..]
  }

  /** `c * n`: `n` copies of `c`, none when `n` is not positive. */
  function Repeat(c: char, n: int): (r: string)
    ensures |r| == if n < 0 then 0 else n
    ensures forall i :: 0 <= i < |r| ==> r[i] == c
    decreases if n < 0 then 0 else n
  {
    if n <= 0 then [] else [c] + Repeat(c, n - 1)
  }

  /** `s[i]` on a Python list: negative indices count from the end; `None` stands for IndexError. */
  function PyIndex<T>(s: seq<T>, i: int): (r: Option<T>)
    ensures r.Some? <==> -|s| <= i < |s|
    ensures 0 <= i < |s| ==> r == Some(s[i])
  {
    if 0 <= i < |s| then Some(s[i])
    else if -|s| <= i < 0 then Some(s[|s| + i])
    else None
  }

  /** Empty, or not starting with whitespace: every logical line has this shape. */
  predicate NoLeadingSpace(s: string) {
    s == [] || !IsSpace(s[0])
  }

  predicate IsDigit(c: char) {
    '0' <= c <= '9'
  }

  /** The number a string of decimal digits denotes, most significant first. */
  function DigitsValue(s: string): int {
    if s == [] then 0 else DigitsValue(s[..|s| - 1]) * 10 + (s[|s| - 1] as int - '0' as int)
  }

  /** The decimal digits of `n`, as `%d` prints them: they denote `n`, with no leading zero. */
  function NatToString(n: nat): (r: string)
    ensures |r| > 0
    ensures forall i :: 0 <= i < |r| ==> IsDigit(r[i])
    ensures DigitsValue(r) == n
    ensures |r| > 1 ==> r[0] != '0'
    decreases n
  {
    if n < 10 then ["0123456789"[n]]
    else
      var high := NatToString(n / 10);
      var r := high + ["0123456789"[n % 10]];
      assert r[..|r| - 1] == high;
      r
  }

  /** `'%d' % i`: a minus sign exactly for negative numbers, then the digits of the magnitude. */
  function IntToString(i: int): (r: string)
    ensures |r| > 0
    ensures r[0] == '-' <==> i < 0
    ensures i < 0 ==> |r| > 1 && DigitsValue(r[1..]) == -i
    ensures i >= 0 ==> DigitsValue(r) == i
    ensures forall k :: 0 <= k < |r| ==> IsDigit(r[k]) || (k == 0 && r[k] == '-')
  {
    if i < 0 then
      var digits := NatToString(-i);
      var r := "-" + digits;
      assert r[1..] == digits;
      r
    else NatToString(i)
  }

  /** Different numbers print differently, so a count kept in a message text keeps it apart. */
  lemma {:induction false} IntToStringInjective(i: int, j: int)
    requires IntToString(i) == IntToString(j)
    ensures i == j
  {
    var r := IntToString(i);
    if i < 0 {
      assert j < 0 && DigitsValue(r[1..]) == -i == -j;
    } else {
      assert j >= 0 && DigitsValue(r) == i == j;
    }
  }
}
