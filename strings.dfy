/**
 * The string operations both halves of the formatter rely on: trimming
 * (JavaScript `String.prototype.trim` and Python `str.strip`, which use
 * different whitespace sets), substring search (`String.prototype.includes`),
 * Python's `str.split(sep)` and `sep.join(pieces)`.
 */
module Strings {
  import opened Wrappers

  /** Whitespace for JavaScript `trim`: WhiteSpace and LineTerminator of ECMAScript. */
  predicate IsJsSpace(c: char) {
    c == '\t' || c == '\n' || c == '\U{B}' || c == '\U{C}' || c == '\r' || c == ' '
    || c == '\U{A0}' || c == '\U{1680}' || ('\U{2000}' <= c <= '\U{200A}')
    || c == '\U{2028}' || c == '\U{2029}' || c == '\U{202F}' || c == '\U{205F}'
    || c == '\U{3000}' || c == '\U{FEFF}'
  }

  /** Whitespace for Python `str.strip()` without arguments (`str.isspace`). */
  predicate IsPySpace(c: char) {
    ('\t' <= c <= '\r') || ('\U{1C}' <= c <= '\U{1F}') || c == ' ' || c == '\U{85}'
    || c == '\U{A0}' || c == '\U{1680}' || ('\U{2000}' <= c <= '\U{200A}')
    || c == '\U{2028}' || c == '\U{2029}' || c == '\U{202F}' || c == '\U{205F}'
    || c == '\U{3000}'
  }

  /** Which language's notion of whitespace a trim uses. */
  datatype Whitespace = JsWhitespace | PyWhitespace

  predicate IsSpace(ws: Whitespace, c: char) {
    match ws
    case JsWhitespace => IsJsSpace(c)
    case PyWhitespace => IsPySpace(c)
  }

  predicate AllSpace(s: string, ws: Whitespace) {
    forall i :: 0 <= i < |s| ==> IsSpace(ws, s[i])
  }

  /** The end of the run of spaces in `s` that starts at `i`. */
  function SpanStart(s: string, ws: Whitespace, i: nat): (n: nat)
    requires i <= |s|
    ensures i <= n <= |s|
    ensures forall j :: i <= j < n ==> IsSpace(ws, s[j])
    ensures n < |s| ==> !IsSpace(ws, s[n])
    decreases |s| - i
  {
    if i < |s| && IsSpace(ws, s[i]) then SpanStart(s, ws, i + 1) else i
  }

  /** The start of the run of spaces in `s[lo..j]` that ends at `j`. */
  function SpanEnd(s: string, ws: Whitespace, lo: nat, j: nat): (n: nat)
    requires lo <= j <= |s|
    ensures lo <= n <= j
    ensures forall i :: n <= i < j ==> IsSpace(ws, s[i])
    ensures lo < n ==> !IsSpace(ws, s[n - 1])
    decreases j
  {
    if lo < j && IsSpace(ws, s[j - 1]) then SpanEnd(s, ws, lo, j - 1) else j
  }

  /** The number of spaces `s` starts with. */
  function LeadingSpaces(s: string, ws: Whitespace): nat {
    SpanStart(s, ws, 0)
  }

  /**
   * Removes whitespace at both ends: `s` is the result with all-space padding
   * on either side, and the result neither starts nor ends with a space.
   */
  function Strip(s: string, ws: Whitespace): (r: string)
    ensures LeadingSpaces(s, ws) + |r| <= |s|
    ensures OccursAt(s, r, LeadingSpaces(s, ws))
    ensures AllSpace(s[..LeadingSpaces(s, ws)], ws)
    ensures AllSpace(s[LeadingSpaces(s, ws) + |r|..], ws)
    ensures r != [] ==> !IsSpace(ws, r[0]) && !IsSpace(ws, r[|r| - 1])
    ensures r == [] <==> AllSpace(s, ws)
  {
    s[LeadingSpaces(s, ws)..SpanEnd(s, ws, LeadingSpaces(s, ws), |s|)]
  }

  function JsTrim(s: string): string { Strip(s, JsWhitespace) }

  function PyStrip(s: string): string { Strip(s, PyWhitespace) }

  predicate OccursAt(s: string, t: string, i: int) {
    0 <= i && i + |t| <= |s| && s[i..i + |t|] == t
  }

  /** `s.includes(t)` in JavaScript, `t in s` in Python. */
  predicate Contains(s: string, t: string) {
    exists i :: 0 <= i <= |s| - |t| && OccursAt(s, t, i)
  }

  /** The first index at or after `from` where `t` occurs in `s`. */
  function Find(s: string, t: string, from: nat): (r: Option<nat>)
    ensures r.Some? ==> from <= r.value && OccursAt(s, t, r.value)
    ensures r.Some? ==> forall j :: from <= j < r.value ==> !OccursAt(s, t, j)
    ensures r.None? ==> forall j :: from <= j ==> !OccursAt(s, t, j)
    decreases |s| - from
  {
    if from + |t| > |s| then None
    else if OccursAt(s, t, from) then Some(from)
    else Find(s, t, from + 1)
  }

  /** An occurrence of `t` inside a prefix of `s` is an occurrence inside `s`. */
  lemma OccursInPrefix(s: string, t: string, n: nat, j: int)
    requires n <= |s| && OccursAt(s[..n], t, j)
    ensures OccursAt(s, t, j)
  {
    assert s[..n][j..j + |t|] == s[j..j + |t|];
  }

  /**
   * Python `s.split(sep)`: occurrences of `sep` are taken left to right
   * without overlap; the pieces in between are returned, empty ones included.
   */
  function Split(s: string, sep: string): (r: seq<string>)
    requires |sep| > 0
    ensures |r| > 0
    ensures forall k :: 0 <= k < |r| ==> !Contains(r[k], sep)
    decreases |s|
  {
    match Find(s, sep, 0)
    case None => [s]
    case Some(i) =>
      var rest := Split(s[i + |sep|..], sep);
      forall j | OccursAt(s[..i], sep, j) ensures false {
        OccursInPrefix(s, sep, i, j);
      }
      [s[..i]] + rest
  }

  /** Python `sep.join(xs)`: the pieces in order with `sep` between neighbours only. */
  function Join(xs: seq<string>, sep: string): string {
    if |xs| == 0 then ""
    else if |xs| == 1 then xs[0]
    else xs[0] + sep + Join(xs[1..], sep)
  }

  function TotalLength(xs: seq<string>): nat {
    if xs == [] then 0 else |xs[0]| + TotalLength(xs[1..])
  }

  /** Splitting and joining with the same separator gives back the original text. */
  lemma {:induction false} SplitJoin(s: string, sep: string)
    requires |sep| > 0
    ensures Join(Split(s, sep), sep) == s
    decreases |s|
  {
    match Find(s, sep, 0)
    case None =>
    case Some(i) =>
      var rest := s[i + |sep|..];
      SplitJoin(rest, sep);
      assert s == s[..i] + sep + rest;
  }

  /** In `piece + sep` the first occurrence of `sep` is the appended one. */
  predicate EndsAtFirstOccurrence(piece: string, sep: string) {
    && OccursAt(piece + sep, sep, |piece|)
    && forall j :: 0 <= j < |piece| ==> !OccursAt(piece + sep, sep, j)
  }

  /**
   * Every piece but the last is cut at the leftmost occurrence of the
   * separator, so no occurrence straddles a cut.
   */
  lemma {:induction false} SplitLeftmost(s: string, sep: string, k: nat)
    requires |sep| > 0 && k + 1 < |Split(s, sep)|
    ensures EndsAtFirstOccurrence(Split(s, sep)[k], sep)
    decreases |s|
  {
    match Find(s, sep, 0)
    case None =>
    case Some(i) =>
      var rest := s[i + |sep|..];
      assert Split(s, sep) == [s[..i]] + Split(rest, sep);
      if k == 0 {
        CutIsLeftmost(s, sep, i);
      } else {
        SplitLeftmost(rest, sep, k - 1);
        assert Split(s, sep)[k] == Split(rest, sep)[k - 1];
      }
  }

  /**
   * The text before the first occurrence, with the separator put back, has
   * its first occurrence at the end.
   */
  lemma CutIsLeftmost(s: string, sep: string, i: nat)
    requires OccursAt(s, sep, i) && forall j :: 0 <= j < i ==> !OccursAt(s, sep, j)
    ensures EndsAtFirstOccurrence(s[..i], sep)
  {
    var n := i + |sep|;
    var u := s[..i] + sep;
    assert u == s[..n] by {
      assert s[..n] == s[..i] + s[i..n];
    }
    assert OccursAt(u, sep, i) by {
      assert u[i..i + |sep|] == sep;
    }
    forall j | 0 <= j < i ensures !OccursAt(u, sep, j) {
      if OccursAt(u, sep, j) {
        OccursInPrefix(s, sep, n, j);
        assert false;
      }
    }
  }

  /** `Find` returns any occurrence that has no occurrence before it. */
  lemma {:induction false} FindFirst(s: string, t: string, from: nat, i: nat)
    requires from <= i && OccursAt(s, t, i)
    requires forall j :: from <= j < i ==> !OccursAt(s, t, j)
    ensures Find(s, t, from) == Some(i)
    decreases i - from
  {
    if from < i { FindFirst(s, t, from + 1, i); }
  }

  /**
   * The joined text starts with the first piece, ends with the last, and
   * holds exactly one separator between each pair of neighbours.
   */
  lemma {:induction false} JoinShape(xs: seq<string>, sep: string)
    requires |xs| > 0
    ensures |Join(xs, sep)| == TotalLength(xs) + (|xs| - 1) * |sep|
    ensures |xs[0]| <= |Join(xs, sep)| && |xs[|xs| - 1]| <= |Join(xs, sep)|
    ensures Join(xs, sep)[..|xs[0]|] == xs[0]
    ensures Join(xs, sep)[|Join(xs, sep)| - |xs[|xs| - 1]|..] == xs[|xs| - 1]
  {
    if |xs| > 1 {
      JoinShape(xs[1..], sep);
      var j := Join(xs[1..], sep);
      assert Join(xs, sep) == xs[0] + sep + j;
      assert xs[1..][|xs[1..]| - 1] == xs[|xs| - 1];
      assert (xs[0] + sep + j)[|xs[0] + sep + j| - |xs[|xs| - 1]|..] == j[|j| - |xs[|xs| - 1]|..];
    } else {
      assert TotalLength(xs[1..]) == 0;
    }
  }

  /** Python's split is left to right and does not overlap: "a\n\n\nb" gives ["a", "\nb"]. */
  lemma SplitExample()
    ensures Split("a\n\n\nb", "\n\n") == ["a", "\nb"]
  {
    var s := "a\n\n\nb";
    assert s[0..2] == "a\n" && s[1..3] == "\n\n";
    assert !OccursAt(s, "\n\n", 0) && OccursAt(s, "\n\n", 1);
    FindFirst(s, "\n\n", 0, 1);
    var rest := s[3..];
    assert rest == "\nb";
    assert rest[0..2] == "\nb";
    assert !OccursAt(rest, "\n\n", 0);
    assert Find(rest, "\n\n", 0) == None;
    assert Split(rest, "\n\n") == [rest];
    assert s[..1] == "a";
  }
}
