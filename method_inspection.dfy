/**
 * The return-type validation that all three syntax receivers carry (as a
 * private GetMethods in two of them, inline in the oldest): collect every
 * method of an interface, and reject the interface with one aggregate of
 * errors, one per method whose return type is not Task, void or ValueTask.
 */
module MethodInspection {
  import opened Wrappers
  import opened Exceptions
  import opened Symbols

  /** The allowed return types, compared by full display name. */
  predicate AllowedReturn(m: Method)
  {
    m.returnType == TaskFullName || m.returnType == VoidFullName || m.returnType == ValueTaskFullName
  }

  /** members.OfType<IMethodSymbol>(): the methods among the members, in order. */
  function MethodsOf(members: seq<Member>): (ms: seq<Method>)
    ensures |ms| <= |members|
  {
    if members == [] then []
    else
      (if members[0].MethodMember? then [members[0].symbol] else []) + MethodsOf(members[1..])
  }

  /** The methods whose return type is not allowed, in their original order. */
  function Disallowed(ms: seq<Method>): (r: seq<Method>)
    ensures |r| <= |ms|
  {
    if ms == [] then []
    else
      (if AllowedReturn(ms[0]) then [] else [ms[0]]) + Disallowed(ms[1..])
  }

  /** OfType keeps every method as often as it occurs among the members. */
  lemma {:induction false} MethodsOfCounts(members: seq<Member>, m: Method)
    ensures multiset(MethodsOf(members))[m] == multiset(members)[MethodMember(m)]
    decreases |members|
  {
    if members != [] {
      assert members == [members[0]] + members[1..];
      MethodsOfCounts(members[1..], m);
    }
  }

  /** Where keeps every offending method as often as it occurs, and drops the others. */
  lemma {:induction false} DisallowedCounts(ms: seq<Method>, m: Method)
    ensures multiset(Disallowed(ms))[m] == if AllowedReturn(m) then 0 else multiset(ms)[m]
    decreases |ms|
  {
    if ms != [] {
      assert ms == [ms[0]] + ms[1..];
      DisallowedCounts(ms[1..], m);
    }
  }

  /**
   * The ArgumentException raised for one offending method; its message names
   * the return type as its ToString() renders it.
   */
  function ReturnTypeError(m: Method): Exception
  {
    ArgumentException(ReturnTypeNotSupported(m.returnTypeText))
  }

  /** One ArgumentException per offending method, in order. */
  function ReturnTypeExceptions(ms: seq<Method>): seq<Exception>
  {
    ArgumentExceptions(Disallowed(ms))
  }

  /** Select: one ArgumentException per method, in order. */
  function ArgumentExceptions(bad: seq<Method>): (r: seq<Exception>)
    ensures |r| == |bad|
    ensures forall i :: 0 <= i < |bad| ==> r[i] == ReturnTypeError(bad[i])
  {
    if bad == [] then [] else [ReturnTypeError(bad[0])] + ArgumentExceptions(bad[1..])
  }

  /**
   * GetMethods: all of the type's own methods in declaration order when every
   * one of them returns an allowed type; otherwise one AggregateException.
   */
  function GetMethods(t: NamedType): (r: Result<seq<Method>, Exception>)
    ensures r.Success? ==> r.value == MethodsOf(t.members)
    ensures r.Failure? ==> r.error.AggregateException? && |r.error.innerExceptions| > 0
  {
    var methods := MethodsOf(t.members);
    var exceptions := ReturnTypeExceptions(methods);
    if |exceptions| > 0 then Failure(AggregateException(exceptions)) else Success(methods)
  }

  /** GetMethods succeeds exactly when every method among the members has an allowed return type. */
  lemma {:induction false} GetMethodsSucceedsIffAllAllowed(t: NamedType)
    ensures GetMethods(t).Success? <==> forall m :: MethodMember(m) in t.members ==> AllowedReturn(m)
  {
    var methods := MethodsOf(t.members);
    var bad := Disallowed(methods);
    if GetMethods(t).Success? {
      forall m | MethodMember(m) in t.members
        ensures AllowedReturn(m)
      {
        MethodsOfCounts(t.members, m);
        DisallowedCounts(methods, m);
      }
    } else {
      var m := bad[0];
      DisallowedCounts(methods, m);
      MethodsOfCounts(t.members, m);
    }
  }

  /**
   * Validation is not fail-fast: every offending method is reported in the one
   * aggregate, and it holds exactly as many errors as there are offending methods.
   */
  lemma {:induction false} EveryOffenderReported(t: NamedType, m: Method)
    requires MethodMember(m) in t.members && !AllowedReturn(m)
    ensures GetMethods(t).Failure?
    ensures ReturnTypeError(m) in GetMethods(t).error.innerExceptions
    ensures |GetMethods(t).error.innerExceptions| == |Disallowed(MethodsOf(t.members))|
  {
    var bad := Disallowed(MethodsOf(t.members));
    MethodsOfCounts(t.members, m);
    DisallowedCounts(MethodsOf(t.members), m);
    assert m in multiset(bad);
    var i :| 0 <= i < |bad| && bad[i] == m;
    assert ReturnTypeExceptions(MethodsOf(t.members))[i] == ReturnTypeError(m);
  }

  /** Each error of the aggregate names an offending method of the type. */
  lemma {:induction false} ErrorsNameOffenders(t: NamedType, i: int)
    requires GetMethods(t).Failure?
    requires 0 <= i < |GetMethods(t).error.innerExceptions|
    ensures exists m ::
      && MethodMember(m) in t.members
      && !AllowedReturn(m)
      && GetMethods(t).error.innerExceptions[i] == ReturnTypeError(m)
  {
    var bad := Disallowed(MethodsOf(t.members));
    DisallowedCounts(MethodsOf(t.members), bad[i]);
    MethodsOfCounts(t.members, bad[i]);
    assert bad[i] in multiset(bad);
  }
}
