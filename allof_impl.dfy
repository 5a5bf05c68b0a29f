/**
 * Models TomLonghurst.AllOf/Models/AllOfImpl_Base.cs: the runtime AllOf<T>
 * holds the resolved implementations of T and, asked for OnEach, builds the
 * generated fan-out class registered for T over them.
 */
module AllOfImplBase {
  import opened Wrappers
  import opened Exceptions
  import opened Runtime

  /**
   * What (T) Activator.CreateInstance(implementationType, Items) returns: an
   * instance of the registered type, constructed over the items.
   */
  datatype Instance<T> = Instance(implementationType: RuntimeType, items: seq<T>)

  /**
   * AllOfImpl<T>. ofType stands for typeof(T); the registry
   * AllOfData.Implementations, from each interface to its generated fan-out
   * class, is passed to each lookup as a map.
   */
  class AllOfImpl<T(==)> {
    const ofType: RuntimeType
    /** Items: a get-only property, set once by the constructor. */
    const Items: seq<T>

    constructor(ofType: RuntimeType, items: seq<T>)
      ensures this.ofType == ofType && Items == items
    {
      this.ofType := ofType;
      Items := items;
    }

    /**
     * GetRegisteredImplementation: when the registry maps T, an instance of the
     * mapped type over Items; otherwise ArgumentNullException named after T.
     */
    function GetRegisteredImplementation(implementations: map<RuntimeType, RuntimeType>): (r: Result<Instance<T>, Exception>)
      ensures r.Success? <==> ofType in implementations
      ensures r.Success? ==> r.value.implementationType == implementations[ofType] && r.value.items == Items
      ensures r.Failure? ==> r.error == ArgumentNullException(ofType.name)
    {
      if ofType in implementations then Success(Instance(implementations[ofType], Items))
      else Failure(ArgumentNullException(ofType.name))
    }

    /** OnEach: the registered fan-out instance over Items, or the lookup's exception. */
    function OnEach(implementations: map<RuntimeType, RuntimeType>): (r: Result<Instance<T>, Exception>)
      ensures r.Success? <==> ofType in implementations
      ensures r.Success? ==> r.value.implementationType == implementations[ofType] && r.value.items == Items
      ensures r.Failure? ==> r.error == ArgumentNullException(ofType.name)
    {
      GetRegisteredImplementation(implementations)
    }
  }

  /** The implicit conversion from AllOfImpl<T> to T: OnEach's instance, or its exception. */
  function ConvertToT<T(==)>(allOf: AllOfImpl<T>, implementations: map<RuntimeType, RuntimeType>): (r: Result<Instance<T>, Exception>)
    ensures r == allOf.OnEach(implementations)
    ensures r.Success? ==> r.value.items == allOf.Items
  {
    allOf.OnEach(implementations)
  }

  /**
   * The instance depends on the registry only through T's entry: two
   * registries that agree on T, or both lack it, give the same result.
   */
  lemma {:induction false} OnEachReadsOnlyTheEntryForT<T>(allOf: AllOfImpl<T>, a: map<RuntimeType, RuntimeType>, b: map<RuntimeType, RuntimeType>)
    requires allOf.ofType in a <==> allOf.ofType in b
    requires allOf.ofType in a ==> a[allOf.ofType] == b[allOf.ofType]
    ensures allOf.OnEach(a) == allOf.OnEach(b)
  {
    var x := allOf.OnEach(a);
    var y := allOf.OnEach(b);
    if x.Success? {
      assert x.value == Instance(a[allOf.ofType], allOf.Items);
      assert y.value == Instance(b[allOf.ofType], allOf.Items);
    }
  }
}
