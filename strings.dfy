/**
 * The .NET string operations the core relies on: char.IsWhiteSpace,
 * string.Trim, string.Join, string.IndexOf(char), and a decoder for a
 * ", "-joined list used to state that a joined list keeps its items.
 */
module Strings {

  /** Environment.NewLine; the model fixes it to a line feed. */
  const NewLine: string := "\n"

  /** char.IsWhiteSpace: the Unicode separators plus the control characters it admits. */
  predicate IsWhiteSpace(c: char)
  {
    || ('\U{0009}' <= c <= '\U{000D}')
    || c == '\U{0020}' || c == '\U{0085}' || c == '\U{00A0}' || c == '\U{1680}'
    || ('\U{2000}' <= c <= '\U{200A}')
    || c == '\U{2028}' || c == '\U{2029}' || c == '\U{202F}' || c == '\U{205F}' || c == '\U{3000}'
  }

  /** string.TrimStart(): drops the leading white space and nothing else. */
  function TrimStart(s: string): (r: string)
    ensures |r| <= |s| && r == s[|s| - |r|..]
    ensures r == [] || !IsWhiteSpace(r[0])
    ensures forall i :: 0 <= i < |s| - |r| ==> IsWhiteSpace(s[i])
  {
    if s == [] || !IsWhiteSpace(s[0]) then s else TrimStart(s[1..])
  }

  /** string.TrimEnd(): drops the trailing white space and nothing else. */
  function TrimEnd(s: string): (r: string)
    ensures |r| <= |s| && r == s[..|r|]
    ensures r == [] || !IsWhiteSpace(r[|r| - 1])
    ensures forall i :: |r| <= i < |s| ==> IsWhiteSpace(s[i])
  {
    if s == [] || !IsWhiteSpace(s[|s| - 1]) then s else TrimEnd(s[..|s| - 1])
  }

  /** string.Trim(): white space removed at both ends. */
  function Trim(s: string): (r: string)
    ensures r == [] || (!IsWhiteSpace(r[0]) && !IsWhiteSpace(r[|r| - 1]))
    ensures r == [] <==> forall i :: 0 <= i < |s| ==> IsWhiteSpace(s[i])
  {
    TrimEnd(TrimStart(s))
  }

  /** A string with no white space at either end is its own trim. */
  predicate IsTrimmed(s: string)
  {
    s == [] || (!IsWhiteSpace(s[0]) && !IsWhiteSpace(s[|s| - 1]))
  }

  lemma {:induction false} TrimmedIsFixed(s: string)
    requires IsTrimmed(s)
    ensures Trim(s) == s
  {
    assert TrimStart(s) == s;
  }

  /** The first character of a string that does not start with white space survives the trim. */
  lemma {:induction false} TrimKeepsHead(s: string)
    requires |s| > 0 && !IsWhiteSpace(s[0])
    ensures |Trim(s)| > 0 && Trim(s)[0] == s[0]
  {
    assert TrimStart(s) == s;
  }

  /** string.Join(separator, items). */
  function Join(sep: string, xs: seq<string>): string
  {
    if |xs| == 0 then ""
    else if |xs| == 1 then xs[0]
    else xs[0] + sep + Join(sep, xs[1..])
  }

  /** string.IndexOf(char): the first position of c, or -1. */
  function IndexOf(s: string, c: char): (r: int)
    ensures -1 <= r < |s|
    ensures r == -1 <==> c !in s
    ensures 0 <= r ==> s[r] == c && c !in s[..r]
  {
    if s == [] then -1
    else if s[0] == c then 0
    else
      var k := IndexOf(s[1..], c);
      if k == -1 then -1
      else
        assert s[..k + 1] == [s[0]] + s[1..][..k];
        k + 1
  }

  lemma {:induction false} IndexOfAfterPrefix(a: string, b: string, c: char)
    requires c !in a && |b| > 0 && b[0] == c
    ensures IndexOf(a + b, c) == |a|
  {
    var s := a + b;
    assert s[|a|] == c;
  }

  /**
   * Splits a ", "-joined list back into its items: the text before each ','
   * is an item and the two characters of the separator are dropped.
   */
  function ParseList(s: string): seq<string>
    decreases |s|
  {
    var k := IndexOf(s, ',');
    if k == -1 then [s]
    else [s[..k]] + ParseList(if k + 2 <= |s| then s[k + 2..] else "")
  }

  /** The item before the first separator is split off and the rest is parsed on. */
  lemma {:induction false} ParseListStep(a: string, rest: string)
    requires ',' !in a
    ensures ParseList(a + ", " + rest) == [a] + ParseList(rest)
  {
    var s := a + ", " + rest;
    assert s == a + (", " + rest);
    IndexOfAfterPrefix(a, ", " + rest, ',');
    assert s[..|a|] == a;
    assert s[|a| + 2..] == rest;
  }

  /** Joining items that contain no ',' with ", " loses nothing: the items come back in order. */
  lemma {:induction false} ParseListJoin(xs: seq<string>)
    requires |xs| > 0
    requires forall i :: 0 <= i < |xs| ==> ',' !in xs[i]
    ensures ParseList(Join(", ", xs)) == xs
  {
    if |xs| == 1 {
      assert Join(", ", xs) == xs[0];
    } else {
      ParseListStep(xs[0], Join(", ", xs[1..]));
      ParseListJoin(xs[1..]);
      assert xs == [xs[0]] + xs[1..];
    }
  }
}
