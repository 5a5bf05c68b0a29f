/**
 * Models TomLonghurst.AllOf/SourceGenerator/Helpers/CodeGenerationTextWriter.cs:
 * an indented writer over a string buffer that raises its indent level after
 * a line starting with '{' and lowers it before a line starting with '}'.
 */
module TextWriter {
  import opened Strings

  /** The position of the first character at or after i that is not white space, or |s|. */
  function LeadIndex(s: string, i: nat): (j: nat)
    requires i <= |s|
    ensures i <= j <= |s|
    ensures forall k :: i <= k < j ==> IsWhiteSpace(s[k])
    ensures j < |s| ==> !IsWhiteSpace(s[j])
    decreases |s| - i
  {
    if i == |s| || !IsWhiteSpace(s[i]) then i else LeadIndex(s, i + 1)
  }

  /** The line's first character that is not white space is '}'. */
  predicate ClosesBlock(s: string)
  {
    var j := LeadIndex(s, 0);
    j < |s| && s[j] == '}'
  }

  /** The line's first character that is not white space is '{'. */
  predicate OpensBlock(s: string)
  {
    var j := LeadIndex(s, 0);
    j < |s| && s[j] == '{'
  }

  /**
   * The writer tests the trimmed line: it closes a block when the trimmed line
   * starts with '}', and opens one when it starts with '{'.
   */
  lemma {:induction false} BlockTestsReadTrimmedLine(s: string)
    ensures ClosesBlock(s) <==> |Trim(s)| > 0 && Trim(s)[0] == '}'
    ensures OpensBlock(s) <==> |Trim(s)| > 0 && Trim(s)[0] == '{'
  {
    var j := LeadIndex(s, 0);
    var t := TrimStart(s);
    assert t == s[j..];
    if t != [] {
      assert !IsWhiteSpace(t[0]);
      assert TrimEnd(t) != [];
      assert Trim(s)[0] == t[0] == s[j];
    } else {
      assert Trim(s) == TrimEnd(t) == [];
    }
  }

  /** The change of indent level that writing s makes. */
  function LineEffect(s: string): int
  {
    (if OpensBlock(s) then 1 else 0) - (if ClosesBlock(s) then 1 else 0)
  }

  /** A line whose first character is neither white space nor a brace leaves the indent level alone. */
  lemma {:induction false} PlainLineEffect(s: string)
    requires |s| > 0 && !IsWhiteSpace(s[0]) && s[0] != '{' && s[0] != '}'
    ensures !OpensBlock(s) && !ClosesBlock(s) && LineEffect(s) == 0
  {
  }

  /** The change of indent level each line makes, in order. */
  function Effects(lines: seq<string>): (e: seq<int>)
    ensures |e| == |lines|
    ensures forall i :: 0 <= i < |lines| ==> e[i] == LineEffect(lines[i])
  {
    seq(|lines|, i requires 0 <= i < |lines| => LineEffect(lines[i]))
  }

  /** The net change of indent level over the first k of the given changes. */
  function Depth(effects: seq<int>, k: nat): int
    requires k <= |effects|
  {
    if k == 0 then 0 else Depth(effects, k - 1) + effects[k - 1]
  }

  /** No prefix of the changes goes below the starting level, and the whole returns to it. */
  predicate Returns(effects: seq<int>)
  {
    && Depth(effects, |effects|) == 0
    && forall k :: 0 <= k <= |effects| ==> Depth(effects, k) >= 0
  }

  /**
   * Lines in which every closing line has an earlier opening line to match:
   * written from any level, no prefix goes below that level — so the writer
   * never lowers an indent of zero — and the whole returns to it.
   */
  predicate Balanced(lines: seq<string>)
  {
    Returns(Effects(lines))
  }

  /** Appending changes does not change the depth of a prefix. */
  lemma {:induction false} DepthOfPrefix(a: seq<int>, b: seq<int>, k: nat)
    requires k <= |a|
    ensures Depth(a + b, k) == Depth(a, k)
  {
    if k > 0 {
      DepthOfPrefix(a, b, k - 1);
      assert (a + b)[k - 1] == a[k - 1];
    }
  }

  /** The depth after a, then part of b, is a's depth plus that part's. */
  lemma {:induction false} DepthOfSuffix(a: seq<int>, b: seq<int>, k: nat)
    requires k <= |b|
    ensures Depth(a + b, |a| + k) == Depth(a, |a|) + Depth(b, k)
  {
    if k == 0 {
      DepthOfPrefix(a, b, |a|);
    } else {
      DepthOfSuffix(a, b, k - 1);
      assert (a + b)[|a| + k - 1] == b[k - 1];
    }
  }

  /** Two runs of changes that each return to their level, one after the other, return to it. */
  lemma {:induction false} ReturnsAppend(a: seq<int>, b: seq<int>)
    requires Returns(a) && Returns(b)
    ensures Returns(a + b)
  {
    forall k | 0 <= k <= |a + b|
      ensures Depth(a + b, k) >= 0
    {
      if k <= |a| {
        DepthOfPrefix(a, b, k);
      } else {
        DepthOfSuffix(a, b, k - |a|);
      }
    }
    DepthOfSuffix(a, b, |b|);
  }

  /** A run that returns to its level, between a raise and a lowering, returns to it. */
  lemma {:induction false} ReturnsNest(body: seq<int>)
    requires Returns(body)
    ensures Returns([1] + body + [-1])
  {
    var inner := [1] + body;
    var all := inner + [-1];
    forall k | 0 <= k <= |all|
      ensures Depth(all, k) >= 0
    {
      if 0 < k <= |inner| {
        DepthOfPrefix(inner, [-1], k);
        DepthOfSuffix([1], body, k - 1);
      } else if k == |all| {
        DepthOfSuffix(inner, [-1], 1);
        DepthOfSuffix([1], body, |body|);
      }
    }
    DepthOfSuffix(inner, [-1], 1);
    DepthOfSuffix([1], body, |body|);
  }

  /** The changes of two runs of lines, one after the other, are the changes of each. */
  lemma {:induction false} EffectsAppend(a: seq<string>, b: seq<string>)
    ensures Effects(a + b) == Effects(a) + Effects(b)
  {
    forall i | 0 <= i < |a + b|
      ensures Effects(a + b)[i] == (Effects(a) + Effects(b))[i]
    {
      if i < |a| {
        assert (a + b)[i] == a[i];
      } else {
        assert (a + b)[i] == b[i - |a|];
      }
    }
  }

  /** Two balanced runs of lines, one after the other, are balanced. */
  lemma {:induction false} BalancedAppend(a: seq<string>, b: seq<string>)
    requires Balanced(a) && Balanced(b)
    ensures Balanced(a + b)
  {
    EffectsAppend(a, b);
    ReturnsAppend(Effects(a), Effects(b));
  }

  /** A balanced run between an opening and a closing line is balanced. */
  lemma {:induction false} BalancedNest(open: string, body: seq<string>, close: string)
    requires LineEffect(open) == 1 && LineEffect(close) == -1 && Balanced(body)
    ensures Balanced([open] + body + [close])
  {
    EffectsAppend([open], body);
    EffectsAppend([open] + body, [close]);
    assert Effects([open]) == [1];
    assert Effects([close]) == [-1];
    ReturnsNest(Effects(body));
  }

  /** A line holding just an opening brace opens a block; one holding just a closing brace closes one. */
  lemma {:induction false} BraceLineEffects()
    ensures LineEffect("{") == 1 && LineEffect("}") == -1 && LineEffect("") == 0
  {
    OpenBraceEffect();
    CloseBraceEffect();
    EmptyLineEffect();
  }

  lemma {:induction false} OpenBraceEffect()
    ensures LineEffect("{") == 1
  {
    SingleCharacterTrim('{');
  }

  lemma {:induction false} CloseBraceEffect()
    ensures LineEffect("}") == -1
  {
    SingleCharacterTrim('}');
    assert ClosesBlock("}");
    assert !OpensBlock("}");
  }

  lemma {:induction false} EmptyLineEffect()
    ensures LineEffect("") == 0
  {
  }

  lemma {:induction false} SingleCharacterTrim(c: char)
    requires !IsWhiteSpace(c)
    ensures Trim([c]) == [c]
  {
    TrimmedIsFixed([c]);
  }

  lemma {:induction false} PlainLinesDepth(effects: seq<int>, k: nat)
    requires k <= |effects|
    requires forall i :: 0 <= i < |effects| ==> effects[i] == 0
    ensures Depth(effects, k) == 0
  {
    if k > 0 {
      PlainLinesDepth(effects, k - 1);
    }
  }

  /** Lines none of which opens or closes a block are balanced. */
  lemma {:induction false} PlainLinesBalanced(lines: seq<string>)
    requires forall i :: 0 <= i < |lines| ==> LineEffect(lines[i]) == 0
    ensures Balanced(lines)
  {
    var effects := Effects(lines);
    forall k | 0 <= k <= |lines|
      ensures Depth(effects, k) == 0
    {
      PlainLinesDepth(effects, k);
    }
  }

  /** The text of the buffer: every written line followed by NewLine. */
  function Unlines(lines: seq<string>): string
  {
    if lines == [] then "" else lines[0] + NewLine + Unlines(lines[1..])
  }

  class CodeGenerationTextWriter {
    /** IndentedTextWriter.Indent. */
    var Indent: nat
    /** The lines written to the inner StringWriter so far, each followed there by NewLine. */
    var written: seq<string>

    constructor()
      ensures Indent == 0 && written == []
    {
      Indent := 0;
      written := [];
    }

    /** Write(char) only moves the indent level; the character itself is not written. */
    method Write(value: char)
      requires value == '}' ==> Indent > 0
      modifies this
      ensures Indent == old(Indent) + (if value == '{' then 1 else if value == '}' then -1 else 0)
      ensures written == old(written)
    {
      if value == '{' {
        Indent := Indent + 1;
      }
      if value == '}' {
        Indent := Indent - 1;
      }
    }

    method WriteLine(s: string)
      requires ClosesBlock(s) ==> Indent > 0
      modifies this
      ensures Indent == old(Indent) + LineEffect(s)
      ensures written == old(written) + [s]
    {
      var trimmed := Trim(s);
      BlockTestsReadTrimmedLine(s);
      if |trimmed| > 0 && trimmed[0] == '}' {
        Indent := Indent - 1;
      }
      written := written + [s];
      if |trimmed| > 0 && trimmed[0] == '{' {
        Indent := Indent + 1;
      }
    }

    /** The parameterless WriteLine inherited from IndentedTextWriter: an empty line, indent unchanged. */
    method WriteEmptyLine()
      modifies this
      ensures Indent == old(Indent)
      ensures written == old(written) + [""]
    {
      written := written + [""];
    }

    method ToString() returns (r: string)
      ensures r == Unlines(written)
    {
      r := Unlines(written);
    }
  }
}
