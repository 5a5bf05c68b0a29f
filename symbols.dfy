/**
 * Abstract stand-ins for the compiler symbols and syntax nodes that the
 * source generator inspects. Display strings (ToDisplayString in one of the
 * generator's formats) are carried as given strings.
 */
module Symbols {
  import opened Wrappers

  /** typeof(void).FullName, which is also how the NamespaceAndType format displays void. */
  const VoidFullName: string := "System.Void"
  /** typeof(Task).FullName. */
  const TaskFullName: string := "System.Threading.Tasks.Task"
  /** typeof(ValueTask).FullName. */
  const ValueTaskFullName: string := "System.Threading.Tasks.ValueTask"

  /** Microsoft.CodeAnalysis.RefKind, an int-valued enum: 0 None, 1 Ref, 2 Out, 3 In; any other value is possible. */
  datatype RefKind = RefKind(value: int)

  const RefNone: RefKind := RefKind(0)
  const RefRef: RefKind := RefKind(1)
  const RefOut: RefKind := RefKind(2)
  const RefIn: RefKind := RefKind(3)

  /** IParameterSymbol: passing mode, custom modifiers (as displayed), type display name, name. */
  datatype Parameter = Parameter(
    refKind: RefKind,
    refCustomModifiers: seq<string>,
    customModifiers: seq<string>,
    typeName: string,
    name: string)

  /**
   * IMethodSymbol: name, parameters, the names of its own type parameters,
   * and its return type twice: as the NamespaceAndType format displays it
   * (System.Int32), and as ITypeSymbol.ToString() renders it, with the C#
   * keywords for the special types (int).
   */
  datatype Method = Method(
    name: string,
    parameters: seq<Parameter>,
    typeParameters: seq<string>,
    returnType: string,
    returnTypeText: string)
  {
    /** IMethodSymbol.ReturnsVoid. */
    predicate ReturnsVoid()
    {
      returnType == VoidFullName
    }
  }

  /** An entry of GetMembers(): a method, a property, or anything else (field, event, nested type). */
  datatype Member = MethodMember(symbol: Method) | PropertyMember(name: string) | OtherMember(name: string)

  /** ITypeSymbol.TypeKind, reduced to what the core distinguishes. */
  datatype TypeKind = InterfaceKind | ClassKind | OtherKind

  /** INamedTypeSymbol. */
  datatype NamedType = NamedType(
    longName: string,             // ToDisplayString(NamespaceAndType)
    shortName: string,            // ToDisplayString(MinimallyQualifiedFormat)
    genericBase: string,          // ToDisplayString(GenericBase): no type arguments
    containingNamespace: string,  // ContainingNamespace.ToString()
    kind: TypeKind,
    attributes: seq<string>,      // display names of the attribute classes applied to it
    typeArguments: seq<Symbol>,
    members: seq<Member>,         // GetMembers(): its own members, in declaration order
    interfaces: seq<NamedType>,   // Interfaces: directly implemented
    allInterfaces: seq<NamedType>) // AllInterfaces: every inherited interface

  /** What a semantic-model lookup yields: a named type, a type parameter, some other symbol, or null. */
  datatype Symbol = Named(namedType: NamedType) | TypeParameter(name: string) | OtherSymbol(display: string) | NoSymbol

  /** symbol.ToDisplayString(GenericBase); None when the symbol is null, where the call throws. */
  function GenericBaseDisplay(s: Symbol): (r: Option<string>)
    ensures r.None? <==> s.NoSymbol?
  {
    match s
    case Named(t) => Some(t.genericBase)
    case TypeParameter(n) => Some(n)
    case OtherSymbol(d) => Some(d)
    case NoSymbol => None
  }

  /** IndentifiedAllOf: an interface to generate a fan-out type for, with the methods to forward. */
  datatype IdentifiedAllOf = IdentifiedAllOf(interfaceType: NamedType, methodsInInterface: seq<Method>)

  /** A class declaration: its declared symbol, and the symbols of every type written in the enclosing syntax trees. */
  datatype ClassDeclaration = ClassDeclaration(symbol: Symbol, typeSyntaxSymbols: seq<Symbol>)

  /** The declared type of a constructor parameter: a generic name such as AllOf<T>, or anything else. */
  datatype ParameterType =
    | GenericName(identifier: string, typeArgumentSymbols: seq<Symbol>, symbol: Symbol)
    | OtherParameterType

  /** The syntax nodes the receivers react to. */
  datatype SyntaxNode =
    | InterfaceDeclaration(declared: Symbol)
    | ConstructorDeclaration(parameterTypes: seq<ParameterType>, parent: Option<ClassDeclaration>)
    | TypeSyntax(symbol: Symbol)
    | OtherNode
}
