/**
 * The .NET exceptions the core raises, as values. A method that throws in the
 * source returns one of these in the model.
 */
module Exceptions {

  /**
   * An exception message, kept as the interpolated string's arguments;
   * Text renders it as the source's interpolation does.
   */
  datatype Message =
    | ReturnTypeNotSupported(returnType: string)  // a rejected return type, as its ToString() renders it
    | IsReadOnly(paramName: string)               // a read-only service collection
    | NoMatchingElement                           // Enumerable.First found no element

  datatype Exception =
    | AggregateException(innerExceptions: seq<Exception>)
    | ArgumentException(message: Message)
    | ArgumentOutOfRangeException(paramName: string, actualValue: int)
    | ArgumentNullException(paramName: string)
    | NullReferenceException
    | InvalidOperationException(message: Message)
    | ReadOnlyException(message: Message)

  /** The text of a message. */
  function Text(m: Message): (r: string)
    ensures m.ReturnTypeNotSupported? ==> |r| > 2 * |m.returnType| && r[|r| - |m.returnType|..] == m.returnType
    ensures m.IsReadOnly? ==> |m.paramName| <= |r| && r[..|m.paramName|] == m.paramName
  {
    match m
    case ReturnTypeNotSupported(t) =>
      "Only void or Task return types are supported. Cannot convert IEnumerable<" + t + "> to " + t
    case IsReadOnly(p) => p + " is read only"
    case NoMatchingElement => "Sequence contains no matching element"
  }
}
