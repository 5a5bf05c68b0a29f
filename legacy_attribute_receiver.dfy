/**
 * Models TomLonghurst.AllOf/AllOfAttributeSyntaxReceiver.cs, the oldest
 * receiver: it identifies only interface declarations that carry the
 * GenerateAllOf attribute, validating their return types inline.
 */
module LegacyAttributeReceiver {
  import opened Wrappers
  import opened Exceptions
  import opened Symbols
  import opened MethodInspection
  import opened Discovery
  import AttributeReceiver

  /**
   * Process(InterfaceDeclarationSyntax) for a receiver that recognises the
   * attribute by the given full name: a named type carrying it is validated and
   * appended, or the validation error is thrown.
   */
  function ProcessStep(attributeFullName: string, declared: Symbol): (s: Step)
    ensures s != Unchanged <==> declared.Named? && attributeFullName in declared.namedType.attributes
    ensures s != Unchanged ==> s == Identify(declared.namedType)
  {
    if !declared.Named? then Unchanged
    else if attributeFullName !in declared.namedType.attributes then Unchanged
    else
      var methods := GetMethods(declared.namedType);
      if methods.Failure? then Step([], Some(methods.error))
      else Step([IdentifiedAllOf(declared.namedType, methods.value)], None)
  }

  /** OnVisitSyntaxNode: only interface declarations are processed. */
  function VisitStep(attributeFullName: string, node: SyntaxNode): Step
  {
    if node.InterfaceDeclaration? then ProcessStep(attributeFullName, node.declared) else Unchanged
  }

  /**
   * For the same attribute, the oldest receiver treats an interface declaration
   * exactly as the attribute receiver of the source-generator namespace does.
   */
  lemma {:induction false} AgreesWithAttributeReceiver(node: SyntaxNode)
    requires node.InterfaceDeclaration?
    ensures VisitStep(AttributeReceiver.GenerateAllOfAttributeFullName, node) == AttributeReceiver.VisitStep(node)
  {
  }

  /** Only interface declarations carrying the attribute ever change the receiver. */
  lemma {:induction false} OnlyMarkedDeclarationsCount(attributeFullName: string, node: SyntaxNode)
    requires VisitStep(attributeFullName, node) != Unchanged
    ensures node.InterfaceDeclaration? && node.declared.Named?
    ensures attributeFullName in node.declared.namedType.attributes
    ensures VisitStep(attributeFullName, node).thrown.None? <==> |VisitStep(attributeFullName, node).added| == 1
    ensures VisitStep(attributeFullName, node).thrown.Some? ==> VisitStep(attributeFullName, node).added == []
  {
  }

  class AllOfAttributeSyntaxReceiver {
    /** The full name of GenerateAllOfAttribute as this receiver's assembly declares it. */
    const attributeFullName: string
    /** The interfaces identified so far, in the order they were declared. */
    var Identified: seq<IdentifiedAllOf>

    constructor(attributeFullName: string)
      ensures this.attributeFullName == attributeFullName && Identified == []
    {
      this.attributeFullName := attributeFullName;
      Identified := [];
    }

    method OnVisitSyntaxNode(node: SyntaxNode) returns (thrown: Option<Exception>)
      modifies this
      ensures Identified == old(Identified) + VisitStep(attributeFullName, node).added
      ensures thrown == VisitStep(attributeFullName, node).thrown
    {
      thrown := None;
      if node.InterfaceDeclaration? {
        thrown := Process(node.declared);
      }
    }

    method Process(declared: Symbol) returns (thrown: Option<Exception>)
      modifies this
      ensures Identified == old(Identified) + ProcessStep(attributeFullName, declared).added
      ensures thrown == ProcessStep(attributeFullName, declared).thrown
    {
      thrown := None;
      if !declared.Named? {
        return;
      }
      var interfaceSymbol := declared.namedType;
      if attributeFullName !in interfaceSymbol.attributes {
        return;
      }
      var methods := MethodsOf(interfaceSymbol.members);
      var returnTypeExceptions := ReturnTypeExceptions(methods);
      if |returnTypeExceptions| > 0 {
        thrown := Some(AggregateException(returnTypeExceptions));
        return;
      }
      Identified := Identified + [IdentifiedAllOf(interfaceSymbol, methods)];
    }
  }
}
