/**
 * Models TomLonghurst.AllOf/Extensions/DependencyInjectionExtensions.cs:
 * AddAllOfs registers, for every class implementing an AllOf<> interface, that
 * class as the implementation of AllOf<I> for its first user-declared
 * interface I; then, for every interface deriving from IAllOf, every class
 * assignable to it as an implementation of that interface. The loaded types
 * are an input list, in the order the assemblies list them.
 */
module DependencyInjection {
  import opened Wrappers
  import opened Exceptions
  import opened TypeExtensions
  import opened Runtime

  /** The type's FullName cut before its generic arity. */
  function NameWithoutArity(t: RuntimeType): string
  {
    GetFullNameWithoutGenericArity(t.fullName)
  }

  /** Any(i => arity-free name is AllOf's): one of the interfaces is some AllOf<>. */
  predicate AnyIsAllOf(interfaces: seq<RuntimeType>)
    decreases |interfaces|
  {
    interfaces != [] && (NameWithoutArity(interfaces[0]) == AllOfNameWithoutArity || AnyIsAllOf(interfaces[1..]))
  }

  lemma {:induction false} AnyIsAllOfMeans(interfaces: seq<RuntimeType>)
    ensures AnyIsAllOf(interfaces) <==> exists k :: 0 <= k < |interfaces| && NameWithoutArity(interfaces[k]) == AllOfNameWithoutArity
    decreases |interfaces|
  {
    if interfaces != [] {
      AnyIsAllOfMeans(interfaces[1..]);
      assert forall k :: 0 < k < |interfaces| ==> interfaces[k] == interfaces[1..][k - 1];
    }
  }

  /** The two filters of RegisterAllOf's loop: not an interface, and implementing some AllOf<>. */
  predicate IsAllOfImplementation(t: RuntimeType)
  {
    !t.isInterface && AnyIsAllOf(t.interfaces)
  }

  /**
   * internalTypes: IAllOf's full name and typeof(AllOf<>)'s name cut before
   * its arity, which AllOfNameWithoutArityValue shows is AllOfNameWithoutArity.
   */
  const InternalTypes: seq<string> := [IAllOfFullName, AllOfNameWithoutArity]

  /** Enumerable.Contains: the name is one of the listed names. */
  predicate Contains(names: seq<string>, name: string)
    decreases |names|
  {
    names != [] && (names[0] == name || Contains(names[1..], name))
  }

  /** internalTypes.Contains(i.GetFullNameWithoutGenericArity()). */
  predicate IsInternal(i: RuntimeType)
  {
    Contains(InternalTypes, NameWithoutArity(i))
  }

  /** Any(i2 => internalTypes.Contains(...)): one of the interfaces is internal. */
  predicate AnyIsInternal(interfaces: seq<RuntimeType>)
    decreases |interfaces|
  {
    interfaces != [] && (IsInternal(interfaces[0]) || AnyIsInternal(interfaces[1..]))
  }

  lemma {:induction false} AnyIsInternalMeans(interfaces: seq<RuntimeType>)
    ensures AnyIsInternal(interfaces) <==> exists k :: 0 <= k < |interfaces| && IsInternal(interfaces[k])
    decreases |interfaces|
  {
    if interfaces != [] {
      AnyIsInternalMeans(interfaces[1..]);
      assert forall k :: 0 < k < |interfaces| ==> interfaces[k] == interfaces[1..][k - 1];
    }
  }

  /** The condition First looks for: an interface that is not internal and extends no internal interface. */
  predicate IsUserDeclaredInterface(i: RuntimeType)
  {
    !IsInternal(i) && !AnyIsInternal(i.interfaces)
  }

  /**
   * GetInterfaces().First(...): the first user-declared interface in the list,
   * or the InvalidOperationException First throws when there is none.
   */
  function FirstUserDeclared(interfaces: seq<RuntimeType>): (r: Result<RuntimeType, Exception>)
    ensures r.Failure? ==> r.error == InvalidOperationException(NoMatchingElement)
    ensures r.Success? ==> r.value in interfaces && IsUserDeclaredInterface(r.value)
    decreases |interfaces|
  {
    if interfaces == [] then Failure(InvalidOperationException(NoMatchingElement))
    else if IsUserDeclaredInterface(interfaces[0]) then Success(interfaces[0])
    else FirstUserDeclared(interfaces[1..])
  }

  /**
   * First fails exactly when no interface in the list is user-declared, and
   * otherwise finds the earliest one.
   */
  lemma {:induction false} FirstUserDeclaredIsFirst(interfaces: seq<RuntimeType>)
    ensures FirstUserDeclared(interfaces).Success? <==> exists k :: 0 <= k < |interfaces| && IsUserDeclaredInterface(interfaces[k])
    ensures FirstUserDeclared(interfaces).Success? ==> exists k ::
      && 0 <= k < |interfaces|
      && FirstUserDeclared(interfaces).value == interfaces[k]
      && forall j :: 0 <= j < k ==> !IsUserDeclaredInterface(interfaces[j])
    decreases |interfaces|
  {
    if interfaces != [] && !IsUserDeclaredInterface(interfaces[0]) {
      var rest := interfaces[1..];
      FirstUserDeclaredIsFirst(rest);
      assert forall k :: 0 < k < |interfaces| ==> interfaces[k] == rest[k - 1];
      if FirstUserDeclared(rest).Success? {
        var k :| 0 <= k < |rest| && FirstUserDeclared(rest).value == rest[k] && forall j :: 0 <= j < k ==> !IsUserDeclaredInterface(rest[j]);
        assert FirstUserDeclared(interfaces).value == interfaces[k + 1];
      }
    }
  }

  /** The registration RegisterAllOf adds for a class: AllOf<I> implemented by the class, transient. */
  function AllOfRegistration(userDeclaredInterface: RuntimeType, userDeclaredType: RuntimeType): ServiceDescriptor
  {
    ServiceDescriptor(AllOfOf(userDeclaredInterface), userDeclaredType, Transient)
  }

  /** What a run of registrations appends, and the exception that ends it early, if any. */
  datatype Registration = Registration(added: seq<ServiceDescriptor>, thrown: Option<Exception>)

  /** What RegisterAllOf's loop does from the i-th type on. */
  function RegisterAllOfFrom(types: seq<RuntimeType>, i: nat): Registration
    requires i <= |types|
    decreases |types| - i
  {
    if i == |types| then Registration([], None)
    else if !IsAllOfImplementation(types[i]) then RegisterAllOfFrom(types, i + 1)
    else
      match FirstUserDeclared(types[i].interfaces)
      case Failure(e) => Registration([], Some(e))
      case Success(userDeclaredInterface) =>
        var rest := RegisterAllOfFrom(types, i + 1);
        Registration([AllOfRegistration(userDeclaredInterface, types[i])] + rest.added, rest.thrown)
  }

  /** A type RegisterAllOf handles but for which First finds no user-declared interface. */
  predicate LacksUserDeclaredInterface(t: RuntimeType)
  {
    IsAllOfImplementation(t) && FirstUserDeclared(t.interfaces).Failure?
  }

  /** RegisterAllOf throws exactly when some AllOf implementation has no user-declared interface, and then First's exception. */
  lemma {:induction false} RegisterAllOfThrows(types: seq<RuntimeType>, i: nat)
    requires i <= |types|
    ensures var r := RegisterAllOfFrom(types, i);
      && (r.thrown.Some? <==> exists k :: i <= k < |types| && LacksUserDeclaredInterface(types[k]))
      && (r.thrown.Some? ==> r.thrown.value == InvalidOperationException(NoMatchingElement))
    decreases |types| - i
  {
    if i < |types| {
      RegisterAllOfThrows(types, i + 1);
      var r := RegisterAllOfFrom(types, i);
      var t := types[i];
      if LacksUserDeclaredInterface(t) {
        assert r.thrown == Some(FirstUserDeclared(t.interfaces).error);
      } else {
        assert r.thrown == RegisterAllOfFrom(types, i + 1).thrown;
        assert (exists k :: i <= k < |types| && LacksUserDeclaredInterface(types[k]))
          <==> (exists k :: i + 1 <= k < |types| && LacksUserDeclaredInterface(types[k]));
      }
    }
  }

  /**
   * Every registration RegisterAllOf adds is AllOf<I>, transient, for a listed
   * AllOf implementation and its first user-declared interface I; when it does
   * not throw, it adds every such registration.
   */
  lemma {:induction false} RegisterAllOfMembers(types: seq<RuntimeType>, i: nat, d: ServiceDescriptor)
    requires i <= |types|
    ensures var r := RegisterAllOfFrom(types, i);
      var exact :=
        && d.lifetime == Transient
        && d.serviceType.AllOfOf?
        && d.implementationType in types[i..]
        && IsAllOfImplementation(d.implementationType)
        && FirstUserDeclared(d.implementationType.interfaces) == Success(d.serviceType.argument);
      && (d in r.added ==> exact)
      && (r.thrown.None? && exact ==> d in r.added)
    decreases |types| - i
  {
    if i < |types| {
      RegisterAllOfMembers(types, i + 1, d);
      assert types[i..] == [types[i]] + types[i + 1..];
    }
  }

  /** One step of RegisterAllOf's loop, by the three cases of the i-th type. */
  lemma {:induction false} RegisterAllOfStep(types: seq<RuntimeType>, i: nat)
    requires i < |types|
    ensures var t := types[i];
      var rest := RegisterAllOfFrom(types, i + 1);
      var first := FirstUserDeclared(t.interfaces);
      && (!IsAllOfImplementation(t) ==> RegisterAllOfFrom(types, i) == rest)
      && (IsAllOfImplementation(t) && first.Failure? ==> RegisterAllOfFrom(types, i) == Registration([], Some(first.error)))
      && (IsAllOfImplementation(t) && first.Success? ==>
            RegisterAllOfFrom(types, i) == Registration([AllOfRegistration(first.value, t)] + rest.added, rest.thrown))
  {
  }

  /**
   * RegisterAllOf: appends the registrations of RegisterAllOfFrom in type order;
   * when First throws, the registrations already added stay and the exception
   * is returned.
   */
  method RegisterAllOf(services: ServiceCollection, types: seq<RuntimeType>) returns (thrown: Option<Exception>)
    requires !services.isReadOnly
    modifies services
    ensures services.descriptors == old(services.descriptors) + RegisterAllOfFrom(types, 0).added
    ensures thrown == RegisterAllOfFrom(types, 0).thrown
  {
    var typesInAssemblies := types;
    var i := 0;
    while i < |typesInAssemblies|
      invariant i <= |types|
      invariant RegisterAllOfFrom(types, i).thrown == RegisterAllOfFrom(types, 0).thrown
      invariant services.descriptors + RegisterAllOfFrom(types, i).added == old(services.descriptors) + RegisterAllOfFrom(types, 0).added
      decreases |types| - i
    {
      var userDeclaredType := typesInAssemblies[i];
      RegisterAllOfStep(types, i);
      if IsAllOfImplementation(userDeclaredType) {
        var userDeclaredInterface := FirstUserDeclared(userDeclaredType.interfaces);
        if userDeclaredInterface.Failure? {
          assert services.descriptors + [] == services.descriptors;
          return Some(userDeclaredInterface.error);
        }
        ghost var before := services.descriptors;
        ghost var rest := RegisterAllOfFrom(types, i + 1).added;
        services.AddTransient(AllOfOf(userDeclaredInterface.value), userDeclaredType);
        assert services.descriptors + rest == before + ([AllOfRegistration(userDeclaredInterface.value, userDeclaredType)] + rest);
      }
      i := i + 1;
    }
    thrown := None;
  }

  /** The interface filters of RegisterUserTypes: an interface other than IAllOf that IAllOf is assignable from. */
  predicate IsUserInterface(iAllOf: RuntimeType, assignable: Assignability, t: RuntimeType)
  {
    t.isInterface && iAllOf != t && assignable(iAllOf, t)
  }

  /** The implementation filters: a class the interface is assignable from. */
  predicate IsImplementationOf(assignable: Assignability, interfaceType: RuntimeType, t: RuntimeType)
  {
    t.isClass && assignable(interfaceType, t)
  }

  /** The registration of a user interface's implementation: the interface itself, transient. */
  function UserRegistration(interfaceType: RuntimeType, implementationType: RuntimeType): ServiceDescriptor
  {
    ServiceDescriptor(ServiceOf(interfaceType), implementationType, Transient)
  }

  /** What the inner loop appends for one interface from the j-th type on. */
  function ImplementationsFrom(types: seq<RuntimeType>, assignable: Assignability, interfaceType: RuntimeType, j: nat): seq<ServiceDescriptor>
    requires j <= |types|
    decreases |types| - j
  {
    if j == |types| then []
    else
      (if IsImplementationOf(assignable, interfaceType, types[j]) then [UserRegistration(interfaceType, types[j])] else [])
      + ImplementationsFrom(types, assignable, interfaceType, j + 1)
  }

  /** What the outer loop appends from the i-th type on: each user interface's implementations, interface by interface. */
  function UserTypesFrom(types: seq<RuntimeType>, iAllOf: RuntimeType, assignable: Assignability, i: nat): seq<ServiceDescriptor>
    requires i <= |types|
    decreases |types| - i
  {
    if i == |types| then []
    else
      (if IsUserInterface(iAllOf, assignable, types[i]) then ImplementationsFrom(types, assignable, types[i], 0) else [])
      + UserTypesFrom(types, iAllOf, assignable, i + 1)
  }

  lemma {:induction false} ImplementationsFromMembers(types: seq<RuntimeType>, assignable: Assignability, interfaceType: RuntimeType, j: nat, d: ServiceDescriptor)
    requires j <= |types|
    ensures d in ImplementationsFrom(types, assignable, interfaceType, j) <==>
      && d == UserRegistration(interfaceType, d.implementationType)
      && d.implementationType in types[j..]
      && IsImplementationOf(assignable, interfaceType, d.implementationType)
    decreases |types| - j
  {
    if j < |types| {
      ImplementationsFromMembers(types, assignable, interfaceType, j + 1, d);
      assert types[j..] == [types[j]] + types[j + 1..];
    }
  }

  /**
   * The registrations of user types are exactly the transient pairs (I, C) of
   * listed types with I an interface other than IAllOf that IAllOf is
   * assignable from, C a class, and I assignable from C.
   */
  lemma {:induction false} UserTypesFromMembers(types: seq<RuntimeType>, iAllOf: RuntimeType, assignable: Assignability, i: nat, d: ServiceDescriptor)
    requires i <= |types|
    ensures d in UserTypesFrom(types, iAllOf, assignable, i) <==>
      && d.lifetime == Transient
      && d.serviceType.ServiceOf?
      && d.serviceType.serviceType in types[i..]
      && d.implementationType in types
      && IsUserInterface(iAllOf, assignable, d.serviceType.serviceType)
      && IsImplementationOf(assignable, d.serviceType.serviceType, d.implementationType)
    decreases |types| - i
  {
    if i < |types| {
      UserTypesFromMembers(types, iAllOf, assignable, i + 1, d);
      ImplementationsFromMembers(types, assignable, types[i], 0, d);
      assert types[i..] == [types[i]] + types[i + 1..];
      assert types[0..] == types;
    }
  }

  /**
   * RegisterUserTypes: for each user interface in type order, each listed class
   * assignable to it in type order, appended.
   */
  method RegisterUserTypes(services: ServiceCollection, types: seq<RuntimeType>, iAllOf: RuntimeType, assignable: Assignability)
    requires !services.isReadOnly
    modifies services
    ensures services.descriptors == old(services.descriptors) + UserTypesFrom(types, iAllOf, assignable, 0)
  {
    var allOfBaseInterface := iAllOf;
    var typesInAssemblies := types;
    var i := 0;
    while i < |typesInAssemblies|
      invariant i <= |types|
      invariant services.descriptors + UserTypesFrom(types, iAllOf, assignable, i) == old(services.descriptors) + UserTypesFrom(types, iAllOf, assignable, 0)
      decreases |types| - i
    {
      var interfaceType := typesInAssemblies[i];
      ghost var later := UserTypesFrom(types, iAllOf, assignable, i + 1);
      if interfaceType.isInterface && allOfBaseInterface != interfaceType && assignable(allOfBaseInterface, interfaceType) {
        ghost var before := services.descriptors;
        RegisterImplementations(services, types, assignable, interfaceType);
        ghost var these := ImplementationsFrom(types, assignable, interfaceType, 0);
        assert services.descriptors + later == before + (these + later);
      }
      i := i + 1;
    }
  }

  /**
   * The inner loop of RegisterUserTypes, written the same way in the earlier
   * AddAllOfs: every listed class the interface is assignable from, in type
   * order, appended.
   */
  method RegisterImplementations(services: ServiceCollection, types: seq<RuntimeType>, assignable: Assignability, interfaceType: RuntimeType)
    requires !services.isReadOnly
    modifies services
    ensures services.descriptors == old(services.descriptors) + ImplementationsFrom(types, assignable, interfaceType, 0)
  {
    var typesInAssemblies := types;
    var j := 0;
    while j < |typesInAssemblies|
      invariant j <= |types|
      invariant services.descriptors + ImplementationsFrom(types, assignable, interfaceType, j) == old(services.descriptors) + ImplementationsFrom(types, assignable, interfaceType, 0)
      decreases |types| - j
    {
      var implementationType := typesInAssemblies[j];
      ghost var before := services.descriptors;
      ghost var rest := ImplementationsFrom(types, assignable, interfaceType, j + 1);
      if implementationType.isClass && assignable(interfaceType, implementationType) {
        services.AddTransient(ServiceOf(interfaceType), implementationType);
        assert services.descriptors + rest == before + ([UserRegistration(interfaceType, implementationType)] + rest);
      }
      j := j + 1;
    }
  }

  /**
   * The outcome of AddAllOfs on a writable collection: the AllOf registrations,
   * then — unless RegisterAllOf threw — the user-type registrations.
   */
  function AddAllOfsOutcome(types: seq<RuntimeType>, iAllOf: RuntimeType, assignable: Assignability): Registration
  {
    var allOfs := RegisterAllOfFrom(types, 0);
    if allOfs.thrown.Some? then allOfs
    else Registration(allOfs.added + UserTypesFrom(types, iAllOf, assignable, 0), None)
  }

  /**
   * Every registration AddAllOfs adds is transient, and the AllOf<I>
   * registrations all come before the user-interface ones.
   */
  lemma {:induction false} AddAllOfsOrder(types: seq<RuntimeType>, iAllOf: RuntimeType, assignable: Assignability)
    ensures var added := AddAllOfsOutcome(types, iAllOf, assignable).added;
      && (forall k :: 0 <= k < |added| ==> added[k].lifetime == Transient)
      && (forall p, q :: 0 <= p < q < |added| && added[q].serviceType.AllOfOf? ==> added[p].serviceType.AllOfOf?)
  {
    var allOfs := RegisterAllOfFrom(types, 0).added;
    var users := if RegisterAllOfFrom(types, 0).thrown.Some? then [] else UserTypesFrom(types, iAllOf, assignable, 0);
    var added := AddAllOfsOutcome(types, iAllOf, assignable).added;
    assert added == allOfs + users;
    forall k | 0 <= k < |added|
      ensures added[k].lifetime == Transient
      ensures k >= |allOfs| ==> added[k].serviceType.ServiceOf?
      ensures k < |allOfs| ==> added[k].serviceType.AllOfOf?
    {
      if k < |allOfs| {
        RegisterAllOfMembers(types, 0, added[k]);
      } else {
        assert added[k] == users[k - |allOfs|];
        UserTypesFromMembers(types, iAllOf, assignable, 0, added[k]);
      }
    }
  }

  /**
   * AddAllOfs: a read-only collection raises ReadOnlyException with nothing
   * added; otherwise RegisterAllOf, then RegisterUserTypes, and the same
   * collection is returned — unless RegisterAllOf threw, which ends the call
   * with its exception and keeps what it had added.
   */
  method AddAllOfs(services: ServiceCollection, types: seq<RuntimeType>, iAllOf: RuntimeType, assignable: Assignability)
    returns (r: Result<ServiceCollection, Exception>)
    modifies services
    ensures services.isReadOnly ==>
      r == Failure(ReadOnlyException(IsReadOnly("services"))) && services.descriptors == old(services.descriptors)
    ensures !services.isReadOnly ==>
      var outcome := AddAllOfsOutcome(types, iAllOf, assignable);
      && services.descriptors == old(services.descriptors) + outcome.added
      && (outcome.thrown.None? ==> r == Success(services))
      && (outcome.thrown.Some? ==> r == Failure(outcome.thrown.value))
  {
    if services.isReadOnly {
      return Failure(ReadOnlyException(IsReadOnly("services")));
    }
    var thrown := RegisterAllOf(services, types);
    if thrown.Some? {
      return Failure(thrown.value);
    }
    RegisterUserTypes(services, types, iAllOf, assignable);
    r := Success(services);
  }
}
