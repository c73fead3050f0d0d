/**
 * The JavaScript string operations the chat client relies on, as functions on
 * `seq<char>`: `trim`, `trimStart`, `trimEnd`, `startsWith` and `split("\n")`,
 * plus the concatenation of a list of strings.
 */
module JsString {

  /** The characters JavaScript's `trim` family removes: WhiteSpace and LineTerminator
      of ECMAScript (tab, vertical tab, form feed, the space separators, BOM, LF, CR,
      line and paragraph separators). */
  predicate IsWhitespace(c: char) {
    || c == '\t' || c == '\n' || c == '\U{000B}' || c == '\U{000C}' || c == '\r'
    || c == ' ' || c == '\U{00A0}' || c == '\U{1680}'
    || ('\U{2000}' <= c <= '\U{200A}')
    || c == '\U{2028}' || c == '\U{2029}' || c == '\U{202F}' || c == '\U{205F}'
    || c == '\U{3000}' || c == '\U{FEFF}'
  }

  /** Every character of `s` is whitespace (the empty string included). */
  predicate IsBlank(s: string) {
    forall i :: 0 <= i < |s| ==> IsWhitespace(s[i])
  }

  /** `s.trimStart()`: the suffix left after dropping the leading whitespace. */
  function TrimStart(s: string): (r: string)
    ensures |r| <= |s| && r == s[|s| - |r|..]
    ensures IsBlank(s[..|s| - |r|])
    ensures r == [] || !IsWhitespace(r[0])
  {
    if s != [] && IsWhitespace(s[0]) then TrimStart(s[1..]) else s
  }

  /** `s.trimEnd()`: the prefix left after dropping the trailing whitespace. */
  function TrimEnd(s: string): (r: string)
    ensures |r| <= |s| && r == s[..|r|]
    ensures IsBlank(s[|r|..])
    ensures r == [] || !IsWhitespace(r[|r| - 1])
  {
    if s != [] && IsWhitespace(s[|s| - 1]) then TrimEnd(s[..|s| - 1]) else s
  }

  /** `s.trim()`: whitespace dropped at both ends; empty exactly when `s` is blank. */
  function Trim(s: string): (r: string)
    ensures r == [] <==> IsBlank(s)
    ensures r == [] || (!IsWhitespace(r[0]) && !IsWhitespace(r[|r| - 1]))
  {
    var t := TrimStart(s);
    assert s == s[..|s| - |t|] + t;
    TrimEnd(t)
  }

  /** `s.startsWith(prefix)`. */
  predicate StartsWith(s: string, prefix: string) {
    |prefix| <= |s| && s[..|prefix|] == prefix
  }

  /** The concatenation of a list of strings, in order (`parts.join("")`). */
  function Concat(parts: seq<string>): string {
    if parts == [] then "" else Concat(parts[..|parts| - 1]) + parts[|parts| - 1]
  }

  lemma {:induction false} ConcatAppend(a: seq<string>, b: seq<string>)
    ensures Concat(a + b) == Concat(a) + Concat(b)
    decreases |b|
  {
    if b == [] {
      assert a + b == a;
    } else {
      var n := |b| - 1;
      assert (a + b)[..|a + b| - 1] == a + b[..n];
      ConcatAppend(a, b[..n]);
    }
  }

  /** The inverse of `Lines`: the lines joined with `"\n"` (`lines.join("\n")`). */
  function JoinLines(lines: seq<string>): string
    requires |lines| >= 1
  {
    if |lines| == 1 then lines[0] else lines[0] + "\n" + JoinLines(lines[1..])
  }

  /** `s.split("\n")`: the maximal newline-free pieces of `s`, in order; never empty,
      and the pieces joined again with `"\n"` give back `s`. */
  function Lines(s: string): (r: seq<string>)
    ensures |r| >= 1
    ensures forall k :: 0 <= k < |r| ==> '\n' !in r[k]
    ensures JoinLines(r) == s
  {
    if s == [] then [""]
    else if s[0] == '\n' then
      var t := Lines(s[1..]);
      assert JoinLines([""] + t) == "\n" + JoinLines(t) by {
        assert ([""] + t)[1..] == t;
      }
      [""] + t
    else
      var t := Lines(s[1..]);
      var r := [[s[0]] + t[0]] + t[1..];
      assert JoinLines(r) == [s[0]] + JoinLines(t) by {
        JoinLinesFirstChar(s[0], t[0], t[1..]);
        assert t == [t[0]] + t[1..];
      }
      assert s == [s[0]] + s[1..];
      r
  }

  /** Splitting text that starts with a newline: an empty first piece, then the rest. */
  lemma LinesAfterNewline(t: string)
    ensures Lines("\n" + t) == [""] + Lines(t)
  {
    assert ("\n" + t)[1..] == t;
  }

  /** Splitting text that starts with another character: it joins the first piece. */
  lemma LinesAfterChar(c: char, t: string)
    requires c != '\n'
    ensures Lines([c] + t) == [[c] + Lines(t)[0]] + Lines(t)[1..]
  {
    assert ([c] + t)[1..] == t;
  }

  /** Joining lines whose first line starts with `c`: `c`, then the join with that
      character removed. */
  lemma JoinLinesFirstChar(c: char, rest: string, tail: seq<string>)
    ensures JoinLines([[c] + rest] + tail) == [c] + JoinLines([rest] + tail)
  {
    var lines, shorter := [[c] + rest] + tail, [rest] + tail;
    assert lines[1..] == tail && shorter[1..] == tail;
  }

  /** Splitting the join of newline-free lines gives the lines back. */
  lemma {:induction false} LinesOfJoin(lines: seq<string>)
    requires |lines| >= 1
    requires forall k :: 0 <= k < |lines| ==> '\n' !in lines[k]
    ensures Lines(JoinLines(lines)) == lines
    decreases |lines|, |lines[0]|
  {
    var head, tail := lines[0], lines[1..];
    assert lines == [head] + tail;
    if head == [] {
      if tail != [] {
        LinesOfJoin(tail);
        LinesAfterNewline(JoinLines(tail));
      }
    } else {
      var c, rest := head[0], head[1..];
      assert head == [c] + rest;
      assert c != '\n' by { assert c in head; }
      assert '\n' !in rest by {
        assert forall x :: x in rest ==> x in head;
      }
      var shorter := [rest] + tail;
      LinesOfJoin(shorter);
      JoinLinesFirstChar(c, rest, tail);
      LinesAfterChar(c, JoinLines(shorter));
    }
  }
}
