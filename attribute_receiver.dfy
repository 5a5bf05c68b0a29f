/**
 * Models TomLonghurst.AllOf/SourceGenerator/AllOfAttributeSyntaxReceiver.cs:
 * the receiver that identifies interfaces from three kinds of syntax node —
 * interfaces marked with GenerateAllOfAttribute, constructor parameters of
 * type AllOf<T>, and any written type AllOf<T> — and appends them to
 * Identified, duplicates included.
 */
module AttributeReceiver {
  import opened Wrappers
  import opened Exceptions
  import opened Symbols
  import opened TypeExtensions
  import opened MethodInspection
  import opened Discovery

  /** typeof(GenerateAllOfAttribute).FullName, in the namespace this receiver imports the attribute from. */
  const GenerateAllOfAttributeFullName: string := "TomLonghurst.AllOf.SourceGenerator.Attributes.GenerateAllOfAttribute"

  /** Process(TypeSyntax): a written AllOf<I>, with I a named type, identifies I. */
  function TypeSyntaxStep(symbol: Symbol): (s: Step)
    ensures s != Unchanged <==>
      && symbol.Named?
      && |symbol.namedType.typeArguments| == 1
      && symbol.namedType.genericBase == AllOfNameWithoutArity
      && symbol.namedType.typeArguments[0].Named?
    ensures s != Unchanged ==> s == Identify(symbol.namedType.typeArguments[0].namedType)
  {
    if !symbol.Named? then Unchanged
    else
      var typeSymbol := symbol.namedType;
      if |typeSymbol.typeArguments| != 1 then Unchanged
      else if typeSymbol.genericBase != AllOfNameWithoutArity then Unchanged
      else if !typeSymbol.typeArguments[0].Named? then Unchanged
      else Identify(typeSymbol.typeArguments[0].namedType)
  }

  /** Process(InterfaceDeclarationSyntax): only an interface carrying GenerateAllOfAttribute is identified. */
  function InterfaceDeclarationStep(declared: Symbol): (s: Step)
    ensures s != Unchanged <==> declared.Named? && GenerateAllOfAttributeFullName in declared.namedType.attributes
    ensures s != Unchanged ==> s == Identify(declared.namedType)
  {
    if !declared.Named? then Unchanged
    else if GenerateAllOfAttributeFullName !in declared.namedType.attributes then Unchanged
    else Identify(declared.namedType)
  }

  /** The constructor parameters considered at all: generic syntax named AllOf with one type argument. */
  predicate IsAllOfParameter(p: ParameterType)
  {
    p.GenericName? && p.identifier == "AllOf" && |p.typeArgumentSymbols| == 1
  }

  /** A considered parameter: the symbol of its generic name and of its one type argument. */
  datatype AllOfParameter = AllOfParameter(symbol: Symbol, typeArgument: Symbol)

  /** The considered parameters, in order. */
  function AllOfParameters(ps: seq<ParameterType>): (r: seq<AllOfParameter>)
    ensures |r| <= |ps|
  {
    if ps == [] then []
    else
      (if IsAllOfParameter(ps[0]) then [AllOfParameter(ps[0].symbol, ps[0].typeArgumentSymbols[0])] else [])
      + AllOfParameters(ps[1..])
  }

  /** The Where clauses keep exactly the generic names AllOf<X>, with their one argument. */
  lemma {:induction false} AllOfParametersMembers(ps: seq<ParameterType>, g: AllOfParameter)
    ensures g in AllOfParameters(ps) <==>
      exists p :: p in ps && IsAllOfParameter(p) && g == AllOfParameter(p.symbol, p.typeArgumentSymbols[0])
    decreases |ps|
  {
    if ps != [] {
      assert ps == [ps[0]] + ps[1..];
      AllOfParametersMembers(ps[1..], g);
    }
  }

  /** classSymbol?.Interfaces.FirstOrDefault(). */
  function FirstInterface(c: ClassDeclaration): Option<NamedType>
  {
    if c.symbol.Named? && |c.symbol.namedType.interfaces| > 0 then Some(c.symbol.namedType.interfaces[0]) else None
  }

  /** OfType<INamedTypeSymbol>(): the named types among the symbols, in order. */
  function NamedTypeSymbols(symbols: seq<Symbol>): (r: seq<NamedType>)
  {
    if symbols == [] then []
    else (if symbols[0].Named? then [symbols[0].namedType] else []) + NamedTypeSymbols(symbols[1..])
  }

  /** The usages whose generic base equals that of the class's first interface (none when it has none). */
  function MatchingUsages(usages: seq<NamedType>, firstInterface: Option<NamedType>): (r: seq<NamedType>)
    ensures firstInterface.None? ==> r == []
  {
    if usages == [] then []
    else
      (if firstInterface.Some? && usages[0].genericBase == firstInterface.value.genericBase then [usages[0]] else [])
      + MatchingUsages(usages[1..], firstInterface)
  }

  /** OfType keeps exactly the named types. */
  lemma {:induction false} NamedTypeSymbolsMembers(symbols: seq<Symbol>, t: NamedType)
    ensures t in NamedTypeSymbols(symbols) <==> Named(t) in symbols
    decreases |symbols|
  {
    if symbols != [] {
      assert symbols == [symbols[0]] + symbols[1..];
      NamedTypeSymbolsMembers(symbols[1..], t);
    }
  }

  /** Where keeps exactly the usages sharing the first interface's generic base. */
  lemma {:induction false} MatchingUsagesMembers(usages: seq<NamedType>, firstInterface: Option<NamedType>, u: NamedType)
    ensures u in MatchingUsages(usages, firstInterface)
        <==> u in usages && firstInterface.Some? && u.genericBase == firstInterface.value.genericBase
    decreases |usages|
  {
    if usages != [] {
      assert usages == [usages[0]] + usages[1..];
      MatchingUsagesMembers(usages[1..], firstInterface, u);
    }
  }

  /** One usage: its first type argument, when it is a named type, is identified. */
  function UsageStep(u: NamedType): Step
  {
    if |u.typeArguments| > 0 && u.typeArguments[0].Named? then Identify(u.typeArguments[0].namedType) else Unchanged
  }

  /** The foreach over the usages from index i on, after acc; the first throw ends it. */
  function UsagesFrom(us: seq<NamedType>, i: nat, acc: Step): Step
    requires i <= |us|
    decreases |us| - i
  {
    if acc.thrown.Some? || i == |us| then acc
    else UsagesFrom(us, i + 1, Then(acc, UsageStep(us[i])))
  }

  /** The usages FindGenericTypesOf walks for a class declaration. */
  function GenericUsages(c: ClassDeclaration): seq<NamedType>
  {
    MatchingUsages(NamedTypeSymbols(c.typeSyntaxSymbols), FirstInterface(c))
  }

  /**
   * FindGenericTypesOf: every usage of the class's first interface with a named
   * first type argument identifies that argument. A constructor that is not in
   * a class (parent None) makes the lookup on a null declaration fail.
   */
  function GenericTypesStep(parent: Option<ClassDeclaration>): Step
  {
    match parent
    case None => Step([], Some(NullReferenceException))
    case Some(c) => UsagesFrom(GenericUsages(c), 0, Unchanged)
  }

  /** One considered constructor parameter AllOf<X>. */
  function ParameterStep(g: AllOfParameter, parent: Option<ClassDeclaration>): Step
  {
    match GenericBaseDisplay(g.symbol)
    case None => Step([], Some(NullReferenceException))
    case Some(display) =>
      if display != AllOfNameWithoutArity then Unchanged
      else
        match g.typeArgument
        case TypeParameter(_) => GenericTypesStep(parent)
        case Named(t) => Identify(t)
        case _ => Unchanged
  }

  /** The foreach over the considered parameters from index i on, after acc; the first throw ends it. */
  function ParametersFrom(gs: seq<AllOfParameter>, parent: Option<ClassDeclaration>, i: nat, acc: Step): Step
    requires i <= |gs|
    decreases |gs| - i
  {
    if acc.thrown.Some? || i == |gs| then acc
    else ParametersFrom(gs, parent, i + 1, Then(acc, ParameterStep(gs[i], parent)))
  }

  /** Process(ConstructorDeclarationSyntax). */
  function ConstructorDeclarationStep(ps: seq<ParameterType>, parent: Option<ClassDeclaration>): Step
  {
    ParametersFrom(AllOfParameters(ps), parent, 0, Unchanged)
  }

  /** OnVisitSyntaxNode: each of the three node kinds goes to its own Process overload; other nodes change nothing. */
  function VisitStep(node: SyntaxNode): Step
  {
    match node
    case InterfaceDeclaration(declared) => InterfaceDeclarationStep(declared)
    case ConstructorDeclaration(ps, parent) => ConstructorDeclarationStep(ps, parent)
    case TypeSyntax(symbol) => TypeSyntaxStep(symbol)
    case OtherNode => Unchanged
  }

  /** The entries a walk over usages appends after acc come from the usages it walks. */
  lemma {:induction false} UsagesFromAdded(us: seq<NamedType>, i: nat, acc: Step, x: IdentifiedAllOf)
    requires i <= |us| && x in UsagesFrom(us, i, acc).added
    ensures x in acc.added || exists j :: i <= j < |us| && x in UsageStep(us[j]).added
    decreases |us| - i
  {
    if acc.thrown.None? && i < |us| {
      var next := Then(acc, UsageStep(us[i]));
      UsagesFromAdded(us, i + 1, next, x);
      if x in next.added && x !in acc.added {
        assert x in UsageStep(us[i]).added;
      }
    }
  }

  /** A class with no interface contributes nothing through FindGenericTypesOf. */
  lemma {:induction false} NoInterfaceNoGenericTypes(c: ClassDeclaration)
    requires FirstInterface(c).None?
    ensures GenericTypesStep(Some(c)) == Unchanged
  {
  }

  /**
   * Every entry FindGenericTypesOf appends is the named first type argument of a
   * usage, written in the enclosing syntax trees, whose generic base is that of
   * the class's first interface; its methods are the validated methods.
   */
  lemma {:induction false} GenericTypesEntriesComeFromUsages(c: ClassDeclaration, x: IdentifiedAllOf)
    requires x in GenericTypesStep(Some(c)).added
    ensures exists u ::
      && Named(u) in c.typeSyntaxSymbols
      && FirstInterface(c).Some?
      && u.genericBase == FirstInterface(c).value.genericBase
      && |u.typeArguments| > 0
      && u.typeArguments[0] == Named(x.interfaceType)
      && x.methodsInInterface == MethodsOf(x.interfaceType.members)
  {
    var us := GenericUsages(c);
    UsagesFromAdded(us, 0, Unchanged, x);
    var j :| 0 <= j < |us| && x in UsageStep(us[j]).added;
    assert us[j] in us;
    MatchingUsagesMembers(NamedTypeSymbols(c.typeSyntaxSymbols), FirstInterface(c), us[j]);
    NamedTypeSymbolsMembers(c.typeSyntaxSymbols, us[j]);
  }

  /** The number of usages from index i on whose first type argument is a named type. */
  function CountNamedFirst(us: seq<NamedType>, i: nat): nat
    requires i <= |us|
    decreases |us| - i
  {
    if i == |us| then 0
    else (if |us[i].typeArguments| > 0 && us[i].typeArguments[0].Named? then 1 else 0) + CountNamedFirst(us, i + 1)
  }

  /** A walk over usages that does not throw appends one entry per usage with a named first argument. */
  lemma {:induction false} UsagesFromCount(us: seq<NamedType>, i: nat, acc: Step)
    requires i <= |us| && UsagesFrom(us, i, acc).thrown.None?
    ensures |UsagesFrom(us, i, acc).added| == |acc.added| + CountNamedFirst(us, i)
    decreases |us| - i
  {
    if i < |us| {
      UsagesFromCount(us, i + 1, Then(acc, UsageStep(us[i])));
    }
  }

  /** Without a throw, FindGenericTypesOf appends exactly one entry per usage with a named first argument. */
  lemma {:induction false} GenericTypesCount(c: ClassDeclaration)
    requires GenericTypesStep(Some(c)).thrown.None?
    ensures |GenericTypesStep(Some(c)).added| == CountNamedFirst(GenericUsages(c), 0)
  {
    UsagesFromCount(GenericUsages(c), 0, Unchanged);
  }

  /** The entries a walk over parameters appends after acc come from the parameters it walks. */
  lemma {:induction false} ParametersFromAdded(gs: seq<AllOfParameter>, parent: Option<ClassDeclaration>, i: nat, acc: Step, x: IdentifiedAllOf)
    requires i <= |gs| && x in ParametersFrom(gs, parent, i, acc).added
    ensures x in acc.added || exists j :: i <= j < |gs| && x in ParameterStep(gs[j], parent).added
    decreases |gs| - i
  {
    if acc.thrown.None? && i < |gs| {
      var next := Then(acc, ParameterStep(gs[i], parent));
      ParametersFromAdded(gs, parent, i + 1, next, x);
      if x in next.added && x !in acc.added {
        assert x in ParameterStep(gs[i], parent).added;
      }
    }
  }

  /**
   * Every entry a constructor appends comes from a parameter written AllOf<X>
   * with one type argument: either X itself, a named type, or — when X is a type
   * parameter — an entry FindGenericTypesOf finds for the enclosing class.
   */
  lemma {:induction false} ConstructorEntriesComeFromAllOfParameters(ps: seq<ParameterType>, parent: Option<ClassDeclaration>, x: IdentifiedAllOf)
    requires x in ConstructorDeclarationStep(ps, parent).added
    ensures exists p ::
      && p in ps
      && IsAllOfParameter(p)
      && GenericBaseDisplay(p.symbol) == Some(AllOfNameWithoutArity)
      && (|| p.typeArgumentSymbols[0] == Named(x.interfaceType)
          || (p.typeArgumentSymbols[0].TypeParameter? && x in GenericTypesStep(parent).added))
  {
    var gs := AllOfParameters(ps);
    ParametersFromAdded(gs, parent, 0, Unchanged, x);
    var j :| 0 <= j < |gs| && x in ParameterStep(gs[j], parent).added;
    assert gs[j] in gs;
    AllOfParametersMembers(ps, gs[j]);
    ParameterEntryOrigin(gs[j], parent, x);
  }

  /** The entries of the considered parameters from index i on, each parameter's in turn. */
  function ParametersAdded(gs: seq<AllOfParameter>, parent: Option<ClassDeclaration>, i: nat): seq<IdentifiedAllOf>
    requires i <= |gs|
    decreases |gs| - i
  {
    if i == |gs| then [] else ParameterStep(gs[i], parent).added + ParametersAdded(gs, parent, i + 1)
  }

  /**
   * A walk over parameters that does not throw appends, after acc, every
   * parameter's entries in parameter order, and no parameter throws.
   */
  lemma {:induction false} ParametersFromAppendsAll(gs: seq<AllOfParameter>, parent: Option<ClassDeclaration>, i: nat, acc: Step)
    requires i <= |gs| && ParametersFrom(gs, parent, i, acc).thrown.None?
    ensures ParametersFrom(gs, parent, i, acc).added == acc.added + ParametersAdded(gs, parent, i)
    ensures forall j :: i <= j < |gs| ==> ParameterStep(gs[j], parent).thrown.None?
    decreases |gs| - i
  {
    if i < |gs| {
      var step := ParameterStep(gs[i], parent);
      var next := Then(acc, step);
      ParametersFromAppendsAll(gs, parent, i + 1, next);
      assert acc.added + step.added + ParametersAdded(gs, parent, i + 1)
          == acc.added + ParametersAdded(gs, parent, i);
    }
  }

  /** Each parameter's entries are among the concatenated entries. */
  lemma {:induction false} ParametersAddedHolds(gs: seq<AllOfParameter>, parent: Option<ClassDeclaration>, i: nat, j: nat, x: IdentifiedAllOf)
    requires i <= j < |gs| && x in ParameterStep(gs[j], parent).added
    ensures x in ParametersAdded(gs, parent, i)
    decreases j - i
  {
    var here := ParameterStep(gs[i], parent).added;
    assert ParametersAdded(gs, parent, i) == here + ParametersAdded(gs, parent, i + 1);
    if i < j {
      ParametersAddedHolds(gs, parent, i + 1, j, x);
    }
  }

  /**
   * A constructor that does not throw appends exactly the considered
   * parameters' entries, in parameter order.
   */
  lemma {:induction false} ConstructorAppendsEveryParameter(ps: seq<ParameterType>, parent: Option<ClassDeclaration>)
    requires ConstructorDeclarationStep(ps, parent).thrown.None?
    ensures ConstructorDeclarationStep(ps, parent).added == ParametersAdded(AllOfParameters(ps), parent, 0)
    ensures forall j :: 0 <= j < |AllOfParameters(ps)| ==> ParameterStep(AllOfParameters(ps)[j], parent).thrown.None?
  {
    ParametersFromAppendsAll(AllOfParameters(ps), parent, 0, Unchanged);
  }

  /**
   * Conversely to ConstructorEntriesComeFromAllOfParameters: when a
   * constructor does not throw, a parameter AllOf<X> identifies X when X is a
   * named type, and brings in every entry FindGenericTypesOf finds when X is a
   * type parameter.
   */
  lemma {:induction false} ConstructorIdentifiesEachAllOfParameter(ps: seq<ParameterType>, parent: Option<ClassDeclaration>, p: ParameterType)
    requires ConstructorDeclarationStep(ps, parent).thrown.None?
    requires p in ps && IsAllOfParameter(p) && GenericBaseDisplay(p.symbol) == Some(AllOfNameWithoutArity)
    ensures p.typeArgumentSymbols[0].Named? ==>
      var t := p.typeArgumentSymbols[0].namedType;
      IdentifiedAllOf(t, MethodsOf(t.members)) in ConstructorDeclarationStep(ps, parent).added
    ensures p.typeArgumentSymbols[0].TypeParameter? ==>
      forall x :: x in GenericTypesStep(parent).added ==> x in ConstructorDeclarationStep(ps, parent).added
  {
    var gs := AllOfParameters(ps);
    var g := AllOfParameter(p.symbol, p.typeArgumentSymbols[0]);
    AllOfParametersMembers(ps, g);
    var j :| 0 <= j < |gs| && gs[j] == g;
    ConstructorAppendsEveryParameter(ps, parent);
    assert ParameterStep(g, parent).thrown.None?;
    forall x | x in ParameterStep(g, parent).added
      ensures x in ConstructorDeclarationStep(ps, parent).added
    {
      ParametersAddedHolds(gs, parent, 0, j, x);
    }
  }

  /** The entries one considered parameter appends, and the conditions under which it appends them. */
  lemma {:induction false} ParameterEntryOrigin(g: AllOfParameter, parent: Option<ClassDeclaration>, x: IdentifiedAllOf)
    requires x in ParameterStep(g, parent).added
    ensures GenericBaseDisplay(g.symbol) == Some(AllOfNameWithoutArity)
    ensures || g.typeArgument == Named(x.interfaceType)
            || (g.typeArgument.TypeParameter? && x in GenericTypesStep(parent).added)
  {
  }

  class AllOfAttributeSyntaxReceiver {
    /** The interfaces identified so far, in the order they were found. */
    var Identified: seq<IdentifiedAllOf>

    constructor()
      ensures Identified == []
    {
      Identified := [];
    }

    method OnVisitSyntaxNode(node: SyntaxNode) returns (thrown: Option<Exception>)
      modifies this
      ensures Identified == old(Identified) + VisitStep(node).added
      ensures thrown == VisitStep(node).thrown
    {
      thrown := None;
      match node
      case InterfaceDeclaration(declared) =>
        thrown := ProcessInterfaceDeclaration(declared);
      case ConstructorDeclaration(ps, parent) =>
        thrown := ProcessConstructorDeclaration(ps, parent);
      case TypeSyntax(symbol) =>
        thrown := ProcessTypeSyntax(symbol);
      case OtherNode =>
    }

    method ProcessTypeSyntax(symbol: Symbol) returns (thrown: Option<Exception>)
      modifies this
      ensures Identified == old(Identified) + TypeSyntaxStep(symbol).added
      ensures thrown == TypeSyntaxStep(symbol).thrown
    {
      thrown := None;
      if !symbol.Named? {
        return;
      }
      var typeSymbol := symbol.namedType;
      if |typeSymbol.typeArguments| != 1 {
        return;
      }
      if typeSymbol.genericBase != AllOfNameWithoutArity {
        return;
      }
      var interfaceArgument := typeSymbol.typeArguments[0];
      if !interfaceArgument.Named? {
        return;
      }
      var interfaceType := interfaceArgument.namedType;
      var methods := GetMethods(interfaceType);
      if methods.Failure? {
        thrown := Some(methods.error);
        return;
      }
      Identified := Identified + [IdentifiedAllOf(interfaceType, methods.value)];
    }

    method ProcessInterfaceDeclaration(declared: Symbol) returns (thrown: Option<Exception>)
      modifies this
      ensures Identified == old(Identified) + InterfaceDeclarationStep(declared).added
      ensures thrown == InterfaceDeclarationStep(declared).thrown
    {
      thrown := None;
      if !declared.Named? {
        return;
      }
      var interfaceSymbol := declared.namedType;
      if GenerateAllOfAttributeFullName !in interfaceSymbol.attributes {
        return;
      }
      var methods := GetMethods(interfaceSymbol);
      if methods.Failure? {
        thrown := Some(methods.error);
        return;
      }
      Identified := Identified + [IdentifiedAllOf(interfaceSymbol, methods.value)];
    }

    method ProcessConstructorDeclaration(ps: seq<ParameterType>, parent: Option<ClassDeclaration>)
      returns (thrown: Option<Exception>)
      modifies this
      ensures Identified == old(Identified) + ConstructorDeclarationStep(ps, parent).added
      ensures thrown == ConstructorDeclarationStep(ps, parent).thrown
    {
      var parameters := AllOfParameters(ps);
      ghost var done := Unchanged;
      thrown := None;
      var i := 0;
      while i < |parameters|
        invariant 0 <= i <= |parameters|
        invariant ConstructorDeclarationStep(ps, parent) == ParametersFrom(parameters, parent, i, done)
        invariant thrown.None? && done.thrown.None?
        invariant Identified == old(Identified) + done.added
      {
        ghost var step := ParameterStep(parameters[i], parent);
        thrown := ProcessParameter(parameters[i], parent);
        assert Identified == old(Identified) + (done.added + step.added);
        done := Then(done, step);
        if thrown.Some? {
          return;
        }
        i := i + 1;
      }
    }

    /** The body of the foreach over the considered parameters; each early return here is a continue there. */
    method ProcessParameter(genericNameSyntax: AllOfParameter, parent: Option<ClassDeclaration>)
      returns (thrown: Option<Exception>)
      modifies this
      ensures Identified == old(Identified) + ParameterStep(genericNameSyntax, parent).added
      ensures thrown == ParameterStep(genericNameSyntax, parent).thrown
    {
      thrown := None;
      var display := GenericBaseDisplay(genericNameSyntax.symbol);
      if display.None? {
        thrown := Some(NullReferenceException);
        return;
      }
      if display.value != AllOfNameWithoutArity {
        return;
      }
      var argumentSymbol := genericNameSyntax.typeArgument;
      if argumentSymbol.TypeParameter? {
        thrown := FindGenericTypesOf(parent);
        return;
      }
      if !argumentSymbol.Named? {
        return;
      }
      var methods := GetMethods(argumentSymbol.namedType);
      IdentifyOfMethods(argumentSymbol.namedType, methods);
      if methods.Failure? {
        thrown := Some(methods.error);
        return;
      }
      Identified := Identified + [IdentifiedAllOf(argumentSymbol.namedType, methods.value)];
    }

    method FindGenericTypesOf(parent: Option<ClassDeclaration>) returns (thrown: Option<Exception>)
      modifies this
      ensures Identified == old(Identified) + GenericTypesStep(parent).added
      ensures thrown == GenericTypesStep(parent).thrown
    {
      if parent.None? {
        thrown := Some(NullReferenceException);
        return;
      }
      var typeSymbols := GenericUsages(parent.value);
      ghost var total := GenericTypesStep(parent);
      assert total == UsagesFrom(typeSymbols, 0, Unchanged);
      ghost var done := Unchanged;
      thrown := None;
      var i := 0;
      while i < |typeSymbols|
        invariant 0 <= i <= |typeSymbols|
        invariant total == UsagesFrom(typeSymbols, i, done)
        invariant thrown.None? && done.thrown.None?
        invariant Identified == old(Identified) + done.added
      {
        ghost var step := UsageStep(typeSymbols[i]);
        thrown := ProcessUsage(typeSymbols[i]);
        assert Identified == old(Identified) + (done.added + step.added);
        done := Then(done, step);
        if thrown.Some? {
          return;
        }
        i := i + 1;
      }
    }

    /** The body of the foreach over the matching usages; the early return here is a continue there. */
    method ProcessUsage(typeSyntax: NamedType) returns (thrown: Option<Exception>)
      modifies this
      ensures Identified == old(Identified) + UsageStep(typeSyntax).added
      ensures thrown == UsageStep(typeSyntax).thrown
    {
      thrown := None;
      if |typeSyntax.typeArguments| == 0 || !typeSyntax.typeArguments[0].Named? {
        return;
      }
      var argumentNamedTypeSymbol := typeSyntax.typeArguments[0].namedType;
      var methods := GetMethods(argumentNamedTypeSymbol);
      IdentifyOfMethods(argumentNamedTypeSymbol, methods);
      if methods.Failure? {
        thrown := Some(methods.error);
        return;
      }
      Identified := Identified + [IdentifiedAllOf(argumentNamedTypeSymbol, methods.value)];
    }
  }
}
