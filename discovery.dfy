/**
 * What a syntax receiver's visit does to its Identified list: the entries it
 * appends, in order, and the exception it throws, if any. Entries appended
 * before a throw stay in the list, as they do in the source.
 */
module Discovery {
  import opened Wrappers
  import opened Exceptions
  import opened Symbols
  import opened MethodInspection

  datatype Step = Step(added: seq<IdentifiedAllOf>, thrown: Option<Exception>)

  /** A visit that neither appends nor throws. */
  const Unchanged: Step := Step([], None)

  /** Runs next after prev, unless prev has thrown. */
  function Then(prev: Step, next: Step): Step
  {
    if prev.thrown.Some? then prev else Step(prev.added + next.added, next.thrown)
  }

  /** Validates t's methods and appends one entry for it, or throws the validation error. */
  function Identify(t: NamedType): (s: Step)
    ensures s.thrown.None? ==> s.added == [IdentifiedAllOf(t, MethodsOf(t.members))]
    ensures s.thrown.None? <==> GetMethods(t).Success?
    ensures s.thrown.Some? ==> s.added == [] && s.thrown.value.AggregateException?
  {
    match GetMethods(t)
    case Success(methods) => Step([IdentifiedAllOf(t, methods)], None)
    case Failure(e) => Step([], Some(e))
  }

  /** Identify in terms of a GetMethods result already computed, as each receiver does. */
  lemma {:induction false} IdentifyOfMethods(t: NamedType, methods: Result<seq<Method>, Exception>)
    requires methods == GetMethods(t)
    ensures methods.Failure? ==> Identify(t) == Step([], Some(methods.error))
    ensures methods.Success? ==> Identify(t) == Step([IdentifiedAllOf(t, methods.value)], None)
  {
  }
}
