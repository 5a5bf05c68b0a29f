/**
 * Models TomLonghurst.AllOf/SourceGenerator/AllOfSyntaxReceiver.cs: the
 * receiver that looks at every written type and identifies each of its
 * interface type arguments whose members (its own and its inherited
 * interfaces') are all methods returning void, Task or ValueTask.
 */
module SyntaxReceiver {
  import opened Wrappers
  import opened Exceptions
  import opened Symbols
  import opened MethodInspection
  import opened Discovery

  /** GetMembers: the type's own members followed by those of every interface it inherits, in order. */
  function GetMembers(t: NamedType): seq<Member>
  {
    t.members + InheritedMembers(t.allInterfaces)
  }

  /** SelectMany(i => i.GetMembers()) over the inherited interfaces. */
  function InheritedMembers(interfaces: seq<NamedType>): seq<Member>
  {
    if interfaces == [] then [] else interfaces[0].members + InheritedMembers(interfaces[1..])
  }

  lemma {:induction false} InheritedMembersMembers(interfaces: seq<NamedType>, x: Member)
    ensures x in InheritedMembers(interfaces) <==> exists j :: 0 <= j < |interfaces| && x in interfaces[j].members
    decreases |interfaces|
  {
    if interfaces != [] {
      InheritedMembersMembers(interfaces[1..], x);
      if x in InheritedMembers(interfaces[1..]) {
        var j :| 0 <= j < |interfaces[1..]| && x in interfaces[1..][j].members;
        assert x in interfaces[j + 1].members;
      }
      if exists j :: 0 <= j < |interfaces| && x in interfaces[j].members {
        var j :| 0 <= j < |interfaces| && x in interfaces[j].members;
        if j > 0 {
          assert x in interfaces[1..][j - 1].members;
        }
      }
    }
  }

  /** GetMembers holds exactly the type's own members and those of the interfaces it inherits. */
  lemma {:induction false} GetMembersMembers(t: NamedType, x: Member)
    ensures x in GetMembers(t) <==>
      x in t.members || exists j :: 0 <= j < |t.allInterfaces| && x in t.allInterfaces[j].members
  {
    InheritedMembersMembers(t.allInterfaces, x);
  }

  /** The return-type test of HasNoReturnTypes: ReturnsVoid, or the full name of Task or ValueTask. */
  predicate ReturnsNothing(m: Method)
  {
    m.ReturnsVoid() || m.returnType == TaskFullName || m.returnType == ValueTaskFullName
  }

  /** HasNoReturnTypes: no member is a property, and every method returns nothing. */
  predicate HasNoReturnTypes(t: NamedType)
  {
    var members := GetMembers(t);
    if exists i :: 0 <= i < |members| && members[i].PropertyMember? then false
    else forall m :: m in MethodsOf(members) ==> ReturnsNothing(m)
  }

  /**
   * An interface passes HasNoReturnTypes exactly when no member of it or of an
   * interface it inherits is a property, and each such member that is a method
   * returns void, Task or ValueTask.
   */
  lemma {:induction false} HasNoReturnTypesIff(t: NamedType)
    ensures HasNoReturnTypes(t) <==>
      forall x :: x in GetMembers(t) ==> !x.PropertyMember? && (x.MethodMember? ==> AllowedReturn(x.symbol))
  {
    var members := GetMembers(t);
    if HasNoReturnTypes(t) {
      forall x | x in members
        ensures !x.PropertyMember? && (x.MethodMember? ==> AllowedReturn(x.symbol))
      {
        if x.MethodMember? {
          MethodsOfCounts(members, x.symbol);
          assert x in multiset(members);
          assert x.symbol in multiset(MethodsOf(members));
          assert x.symbol in MethodsOf(members);
        }
      }
    } else if !exists i :: 0 <= i < |members| && members[i].PropertyMember? {
      var m :| m in MethodsOf(members) && !ReturnsNothing(m);
      MethodsOfCounts(members, m);
      assert MethodMember(m) in multiset(members);
    }
  }

  /** The interfaces the filter admits always pass GetMethods: their own methods return nothing. */
  lemma {:induction false} HasNoReturnTypesPassesGetMethods(t: NamedType)
    requires HasNoReturnTypes(t)
    ensures GetMethods(t).Success?
  {
    HasNoReturnTypesIff(t);
    forall m | MethodMember(m) in t.members
      ensures AllowedReturn(m)
    {
      GetMembersMembers(t, MethodMember(m));
    }
    GetMethodsSucceedsIffAllAllowed(t);
  }

  /** TypeArguments.OfType<INamedTypeSymbol>().Where(interface).Where(HasNoReturnTypes), in order. */
  function InterfaceArguments(args: seq<Symbol>): seq<NamedType>
  {
    if args == [] then []
    else
      var rest := InterfaceArguments(args[1..]);
      if args[0].Named? && args[0].namedType.kind == InterfaceKind && HasNoReturnTypes(args[0].namedType)
      then [args[0].namedType] + rest
      else rest
  }

  /** The filter admits exactly the named interface arguments that pass HasNoReturnTypes. */
  lemma {:induction false} InterfaceArgumentsMembers(args: seq<Symbol>, t: NamedType)
    ensures t in InterfaceArguments(args) <==> Named(t) in args && t.kind == InterfaceKind && HasNoReturnTypes(t)
    decreases |args|
  {
    if args != [] {
      assert args == [args[0]] + args[1..];
      InterfaceArgumentsMembers(args[1..], t);
    }
  }

  /** Identify each admitted interface in turn, from the i-th on. */
  function IdentifyFrom(ts: seq<NamedType>, i: nat, acc: Step): Step
    requires i <= |ts|
    decreases |ts| - i
  {
    if acc.thrown.Some? || i == |ts| then acc
    else IdentifyFrom(ts, i + 1, Then(acc, Identify(ts[i])))
  }

  /** Process(TypeSyntax): a symbol that is a named type identifies each admitted type argument. */
  function ProcessStep(symbol: Symbol): Step
  {
    if !symbol.Named? then Unchanged
    else IdentifyFrom(InterfaceArguments(symbol.namedType.typeArguments), 0, Unchanged)
  }

  /** OnVisitSyntaxNode: only TypeSyntax nodes are processed. */
  function VisitStep(node: SyntaxNode): Step
  {
    if node.TypeSyntax? then ProcessStep(node.symbol) else Unchanged
  }

  /** A walk over interfaces that all pass GetMethods never throws and appends one entry per interface. */
  lemma {:induction false} IdentifyFromAdmitted(ts: seq<NamedType>, i: nat, acc: Step)
    requires i <= |ts| && acc.thrown.None?
    requires forall j :: i <= j < |ts| ==> GetMethods(ts[j]).Success?
    ensures IdentifyFrom(ts, i, acc).thrown.None?
    ensures |IdentifyFrom(ts, i, acc).added| == |acc.added| + |ts| - i
    ensures IdentifyFrom(ts, i, acc).added[..|acc.added|] == acc.added
    ensures forall j :: i <= j < |ts| ==>
      IdentifyFrom(ts, i, acc).added[|acc.added| + j - i] == IdentifiedAllOf(ts[j], MethodsOf(ts[j].members))
    decreases |ts| - i
  {
    if i < |ts| {
      var entry := IdentifiedAllOf(ts[i], MethodsOf(ts[i].members));
      var next := Then(acc, Identify(ts[i]));
      assert next == Step(acc.added + [entry], None) by {
        assert Identify(ts[i]) == Step([entry], None);
      }
      IdentifyFromAdmitted(ts, i + 1, next);
      assert IdentifyFrom(ts, i, acc) == IdentifyFrom(ts, i + 1, next);
      var r := IdentifyFrom(ts, i + 1, next).added;
      PrefixThenEntry(r, acc.added, entry);
      forall j | i < j < |ts|
        ensures r[|acc.added| + j - i] == IdentifiedAllOf(ts[j], MethodsOf(ts[j].members))
      {
        assert |next.added| + j - (i + 1) == |acc.added| + j - i;
      }
    } else {
      assert acc.added[..|acc.added|] == acc.added;
    }
  }

  /** A list that starts with a, then x, starts with a and holds x right after it. */
  lemma {:induction false} PrefixThenEntry(r: seq<IdentifiedAllOf>, a: seq<IdentifiedAllOf>, x: IdentifiedAllOf)
    requires |a| + 1 <= |r| && r[..|a| + 1] == a + [x]
    ensures r[..|a|] == a && r[|a|] == x
  {
    assert r[..|a|] == r[..|a| + 1][..|a|];
    assert r[|a|] == r[..|a| + 1][|a|];
  }

  /**
   * Processing a type never throws: it appends exactly one entry per admitted
   * interface argument, in the order of the type arguments, each with the
   * interface's own methods.
   */
  lemma {:induction false} ProcessAppendsOnePerAdmittedArgument(symbol: Symbol)
    requires symbol.Named?
    ensures ProcessStep(symbol).thrown.None?
    ensures |ProcessStep(symbol).added| == |InterfaceArguments(symbol.namedType.typeArguments)|
    ensures forall j :: 0 <= j < |ProcessStep(symbol).added| ==>
      var t := InterfaceArguments(symbol.namedType.typeArguments)[j];
      ProcessStep(symbol).added[j] == IdentifiedAllOf(t, MethodsOf(t.members))
  {
    var ts := InterfaceArguments(symbol.namedType.typeArguments);
    forall j | 0 <= j < |ts|
      ensures GetMethods(ts[j]).Success?
    {
      InterfaceArgumentsMembers(symbol.namedType.typeArguments, ts[j]);
      HasNoReturnTypesPassesGetMethods(ts[j]);
    }
    IdentifyFromAdmitted(ts, 0, Unchanged);
  }

  /** No visit of this receiver throws. */
  lemma {:induction false} VisitNeverThrows(node: SyntaxNode)
    ensures VisitStep(node).thrown.None?
  {
    if node.TypeSyntax? && node.symbol.Named? {
      ProcessAppendsOnePerAdmittedArgument(node.symbol);
    }
  }

  /** An entry appended for a type names a named interface argument of it that passes HasNoReturnTypes. */
  lemma {:induction false} ProcessEntryOrigin(symbol: Symbol, x: IdentifiedAllOf)
    requires x in ProcessStep(symbol).added
    ensures symbol.Named?
    ensures Named(x.interfaceType) in symbol.namedType.typeArguments
    ensures x.interfaceType.kind == InterfaceKind && HasNoReturnTypes(x.interfaceType)
    ensures x.methodsInInterface == MethodsOf(x.interfaceType.members)
  {
    ProcessAppendsOnePerAdmittedArgument(symbol);
    var ts := InterfaceArguments(symbol.namedType.typeArguments);
    var j :| 0 <= j < |ProcessStep(symbol).added| && ProcessStep(symbol).added[j] == x;
    InterfaceArgumentsMembers(symbol.namedType.typeArguments, ts[j]);
  }

  class AllOfSyntaxReceiver {
    /** The interfaces identified so far, in the order they were found. */
    var Identified: seq<IdentifiedAllOf>

    constructor()
      ensures Identified == []
    {
      Identified := [];
    }

    method OnVisitSyntaxNode(node: SyntaxNode)
      modifies this
      ensures Identified == old(Identified) + VisitStep(node).added
    {
      if node.TypeSyntax? {
        Process(node.symbol);
      }
    }

    method Process(symbol: Symbol)
      modifies this
      ensures Identified == old(Identified) + ProcessStep(symbol).added
    {
      if !symbol.Named? {
        return;
      }
      var typeSymbol := symbol.namedType;
      var interfaceArguments := InterfaceArguments(typeSymbol.typeArguments);
      ghost var done := Unchanged;
      var i := 0;
      while i < |interfaceArguments|
        invariant 0 <= i <= |interfaceArguments|
        invariant ProcessStep(symbol) == IdentifyFrom(interfaceArguments, i, done)
        invariant done.thrown.None?
        invariant Identified == old(Identified) + done.added
      {
        var interfaceArgument := interfaceArguments[i];
        InterfaceArgumentsMembers(typeSymbol.typeArguments, interfaceArgument);
        HasNoReturnTypesPassesGetMethods(interfaceArgument);
        var methods := GetMethods(interfaceArgument);
        ghost var step := Identify(interfaceArgument);
        Identified := Identified + [IdentifiedAllOf(interfaceArgument, methods.value)];
        assert Identified == old(Identified) + (done.added + step.added);
        done := Then(done, step);
        i := i + 1;
      }
    }
  }
}
