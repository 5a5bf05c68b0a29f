/**
 * Models TomLonghurst.AllOf/SourceGenerator/Helpers/NamespaceHelper.cs: the
 * block of using directives at the top of the generated file, one per
 * distinct namespace of the given types.
 */
module NamespaceHelper {
  import opened Wrappers
  import opened Exceptions
  import opened Symbols
  import opened Strings

  /** Enumerable.Distinct: each value once, at the place of its first occurrence. */
  function Distinct(xs: seq<string>): seq<string>
  {
    if xs == [] then []
    else
      var init := xs[..|xs| - 1];
      if xs[|xs| - 1] in init then Distinct(init) else Distinct(init) + [xs[|xs| - 1]]
  }

  predicate NoDuplicates(xs: seq<string>)
  {
    forall i, j :: 0 <= i < j < |xs| ==> xs[i] != xs[j]
  }

  /** Distinct keeps every value and repeats none. */
  lemma {:induction false} DistinctProperties(xs: seq<string>)
    ensures forall x :: x in Distinct(xs) <==> x in xs
    ensures NoDuplicates(Distinct(xs))
    ensures |Distinct(xs)| <= |xs|
    decreases |xs|
  {
    if xs != [] {
      var init := xs[..|xs| - 1];
      DistinctProperties(init);
      assert xs == init + [xs[|xs| - 1]];
    }
  }

  /** The position of the first occurrence of x in xs, or |xs| when x does not occur. */
  function FirstIndex<T(==)>(xs: seq<T>, x: T): (r: nat)
    ensures r <= |xs| && x !in xs[..r]
    ensures r < |xs| <==> x in xs
    ensures r < |xs| ==> xs[r] == x
  {
    if xs == [] then 0
    else if xs[0] == x then 0
    else
      var r := FirstIndex(xs[1..], x) + 1;
      assert xs[..r] == [xs[0]] + xs[1..][..r - 1];
      assert xs == [xs[0]] + xs[1..];
      r
  }

  /** An occurrence with none before it is the first one. */
  lemma {:induction false} FirstIndexUnique<T>(xs: seq<T>, x: T, k: nat)
    requires k < |xs| && xs[k] == x && x !in xs[..k]
    ensures FirstIndex(xs, x) == k
  {
    assert xs[..k + 1][k] == x;
  }

  /** Appending a value leaves the first occurrence of every earlier value where it was. */
  lemma {:induction false} FirstIndexAppend<T>(xs: seq<T>, y: T, x: T)
    requires x in xs
    ensures FirstIndex(xs + [y], x) == FirstIndex(xs, x)
  {
    var k := FirstIndex(xs, x);
    assert (xs + [y])[..k] == xs[..k];
    FirstIndexUnique(xs + [y], x, k);
  }

  /** A value appended for the first time occurs first at the end. */
  lemma {:induction false} FirstIndexAppendNew<T>(xs: seq<T>, y: T)
    requires y !in xs
    ensures FirstIndex(xs + [y], y) == |xs|
  {
    assert (xs + [y])[..|xs|] == xs;
    FirstIndexUnique(xs + [y], y, |xs|);
  }

  /**
   * Distinct keeps the order of first occurrences: of two values it lists,
   * the one listed earlier occurs first earlier in the input.
   */
  lemma {:induction false} DistinctKeepsFirstOccurrenceOrder(xs: seq<string>)
    ensures forall i, j :: 0 <= i < j < |Distinct(xs)| ==>
      FirstIndex(xs, Distinct(xs)[i]) < FirstIndex(xs, Distinct(xs)[j])
    decreases |xs|
  {
    if xs != [] {
      var init := xs[..|xs| - 1];
      var last := xs[|xs| - 1];
      assert xs == init + [last];
      var ds := Distinct(init);
      DistinctKeepsFirstOccurrenceOrder(init);
      DistinctProperties(init);
      forall i | 0 <= i < |ds|
        ensures FirstIndex(xs, ds[i]) == FirstIndex(init, ds[i]) < |init|
      {
        FirstIndexAppend(init, last, ds[i]);
      }
      if last !in init {
        FirstIndexAppendNew(init, last);
        var ds' := ds + [last];
        forall i, j | 0 <= i < j < |ds'|
          ensures FirstIndex(xs, ds'[i]) < FirstIndex(xs, ds'[j])
        {
          assert ds'[i] == ds[i];
          if j < |ds| {
            assert ds'[j] == ds[j];
          }
        }
      }
    }
  }

  /** The using directive for one namespace. */
  function UsingStatement(ns: string): string
  {
    "using " + ns + ";"
  }

  /** Different namespaces get different directives. */
  lemma {:induction false} UsingStatementInjective(a: string, b: string)
    requires UsingStatement(a) == UsingStatement(b)
    ensures a == b
  {
    assert a == UsingStatement(a)[6..|UsingStatement(a)| - 1];
    assert b == UsingStatement(b)[6..|UsingStatement(b)| - 1];
  }

  /** namespaces.Select(n => $"using {n};"). */
  function UsingStatements(namespaces: seq<string>): (r: seq<string>)
    ensures |r| == |namespaces|
  {
    if namespaces == [] then [] else [UsingStatement(namespaces[0])] + UsingStatements(namespaces[1..])
  }

  lemma {:induction false} UsingStatementsIndex(namespaces: seq<string>, i: int)
    requires 0 <= i < |namespaces|
    ensures UsingStatements(namespaces)[i] == UsingStatement(namespaces[i])
    decreases |namespaces|
  {
    if i > 0 {
      UsingStatementsIndex(namespaces[1..], i - 1);
    }
  }

  /** WriteUsingStatements: the directives joined by NewLine. */
  function WriteUsingStatements(namespaces: seq<string>): string
  {
    Join(NewLine, UsingStatements(namespaces))
  }

  /** The containing namespace of each listed type: their ContainingNamespace.ToString(). */
  function SymbolNamespaces(typeSymbols: seq<NamedType>): (r: seq<string>)
    ensures |r| == |typeSymbols|
  {
    if typeSymbols == [] then [] else [typeSymbols[0].containingNamespace] + SymbolNamespaces(typeSymbols[1..])
  }

  /**
   * The namespaces of the runtime types as the compilation resolves them by
   * metadata name; a type the compilation does not know resolves to null, and
   * reading its ContainingNamespace throws.
   */
  function ResolvedNamespaces(types: seq<Option<string>>): (r: Result<seq<string>, Exception>)
    ensures r.Success? <==> None !in types
    ensures r.Failure? ==> r.error == NullReferenceException
    ensures r.Success? ==> |r.value| == |types| && forall i :: 0 <= i < |types| ==> types[i] == Some(r.value[i])
  {
    if types == [] then Success([])
    else if types[0].None? then Failure(NullReferenceException)
    else
      match ResolvedNamespaces(types[1..])
      case Failure(e) => Failure(e)
      case Success(rest) =>
        assert types == [types[0]] + types[1..];
        Success([types[0].value] + rest)
  }

  /** The distinct namespaces the using block names: the runtime types' first, then the symbols'. */
  function UsedNamespaces(typeSymbols: seq<NamedType>, resolved: seq<string>): seq<string>
  {
    Distinct(resolved + SymbolNamespaces(typeSymbols))
  }

  /** GetUsingStatementsForTypes(typeSymbols, types). */
  function GetUsingStatementsForTypes(typeSymbols: seq<NamedType>, types: seq<Option<string>>): (r: Result<string, Exception>)
    ensures r.Success? <==> None !in types
    ensures r.Failure? ==> r.error == NullReferenceException
    ensures r.Success? ==> r.value == WriteUsingStatements(UsedNamespaces(typeSymbols, ResolvedNamespaces(types).value))
  {
    match ResolvedNamespaces(types)
    case Failure(e) => Failure(e)
    case Success(resolved) => Success(WriteUsingStatements(UsedNamespaces(typeSymbols, resolved)))
  }

  /** GetUsingStatementsForTypes(types): the overload with no type symbols. */
  function GetUsingStatementsForRuntimeTypes(types: seq<Option<string>>): (r: Result<string, Exception>)
    ensures r.Success? <==> None !in types
    ensures r.Success? ==> r.value == WriteUsingStatements(Distinct(ResolvedNamespaces(types).value))
  {
    var resolved := ResolvedNamespaces(types);
    assert resolved.Success? ==> resolved.value + SymbolNamespaces([]) == resolved.value;
    GetUsingStatementsForTypes([], types)
  }

  /**
   * The using block holds one directive per namespace of a listed type or
   * symbol, and no directive twice.
   */
  lemma {:induction false} UsingBlockNamesEachNamespaceOnce(typeSymbols: seq<NamedType>, resolved: seq<string>, ns: string)
    ensures var lines := UsingStatements(UsedNamespaces(typeSymbols, resolved));
      && |lines| <= |resolved| + |typeSymbols|
      && NoDuplicates(lines)
      && (UsingStatement(ns) in lines <==> ns in resolved || exists t :: t in typeSymbols && t.containingNamespace == ns)
  {
    var used := UsedNamespaces(typeSymbols, resolved);
    var lines := UsingStatements(used);
    DistinctProperties(resolved + SymbolNamespaces(typeSymbols));
    forall i, j | 0 <= i < j < |lines|
      ensures lines[i] != lines[j]
    {
      UsingStatementsIndex(used, i);
      UsingStatementsIndex(used, j);
      if lines[i] == lines[j] {
        UsingStatementInjective(used[i], used[j]);
      }
    }
    if UsingStatement(ns) in lines {
      var i :| 0 <= i < |lines| && lines[i] == UsingStatement(ns);
      UsingStatementsIndex(used, i);
      UsingStatementInjective(used[i], ns);
      assert ns in used;
      assert ns in resolved + SymbolNamespaces(typeSymbols);
      SymbolNamespacesMembers(typeSymbols, ns);
    }
    if ns in resolved || exists t :: t in typeSymbols && t.containingNamespace == ns {
      SymbolNamespacesMembers(typeSymbols, ns);
      assert ns in resolved + SymbolNamespaces(typeSymbols);
      assert ns in used;
      var i :| 0 <= i < |used| && used[i] == ns;
      UsingStatementsIndex(used, i);
    }
  }

  /**
   * The runtime types' namespaces come first: the directive for a namespace of
   * a runtime type precedes the directive for a namespace that only a type
   * symbol contributes.
   */
  lemma {:induction false} RuntimeNamespacesComeFirst(typeSymbols: seq<NamedType>, resolved: seq<string>, a: string, b: string)
    requires a in resolved && b !in resolved
    requires exists t :: t in typeSymbols && t.containingNamespace == b
    ensures var lines := UsingStatements(UsedNamespaces(typeSymbols, resolved));
      && UsingStatement(a) in lines && UsingStatement(b) in lines
      && forall i, j :: 0 <= i < |lines| && 0 <= j < |lines| && lines[i] == UsingStatement(a) && lines[j] == UsingStatement(b) ==> i < j
  {
    var xs := resolved + SymbolNamespaces(typeSymbols);
    var used := UsedNamespaces(typeSymbols, resolved);
    var lines := UsingStatements(used);
    SymbolNamespacesMembers(typeSymbols, b);
    UsingBlockNamesEachNamespaceOnce(typeSymbols, resolved, a);
    UsingBlockNamesEachNamespaceOnce(typeSymbols, resolved, b);
    DistinctKeepsFirstOccurrenceOrder(xs);
    var ka := FirstIndex(resolved, a);
    assert xs[..|resolved|] == resolved;
    assert xs[ka] == a && xs[..ka + 1][ka] == a;
    assert FirstIndex(xs, a) < |resolved|;
    assert FirstIndex(xs, b) >= |resolved|;
    forall i, j | 0 <= i < |lines| && 0 <= j < |lines| && lines[i] == UsingStatement(a) && lines[j] == UsingStatement(b)
      ensures i < j
    {
      UsingStatementsIndex(used, i);
      UsingStatementsIndex(used, j);
      UsingStatementInjective(used[i], a);
      UsingStatementInjective(used[j], b);
    }
  }

  lemma {:induction false} SymbolNamespacesMembers(typeSymbols: seq<NamedType>, ns: string)
    ensures ns in SymbolNamespaces(typeSymbols) <==> exists t :: t in typeSymbols && t.containingNamespace == ns
    decreases |typeSymbols|
  {
    if typeSymbols != [] {
      SymbolNamespacesMembers(typeSymbols[1..], ns);
      assert typeSymbols == [typeSymbols[0]] + typeSymbols[1..];
    }
  }

  /** The using block is empty or starts with the 'u' of its first directive. */
  lemma {:induction false} UsingBlockHead(namespaces: seq<string>)
    ensures var block := WriteUsingStatements(namespaces);
      namespaces == [] <==> block == ""
    ensures namespaces != [] ==> WriteUsingStatements(namespaces)[0] == 'u'
  {
    var lines := UsingStatements(namespaces);
    if namespaces != [] {
      UsingStatementsIndex(namespaces, 0);
      var first := lines[0];
      assert first[0] == 'u';
      if |lines| > 1 {
        assert Join(NewLine, lines) == first + (NewLine + Join(NewLine, lines[1..]));
      }
    }
  }
}
