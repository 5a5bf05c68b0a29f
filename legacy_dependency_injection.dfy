/**
 * Models TomLonghurst.AllOf/DependencyInjectionExtensions.cs, the earlier
 * AddAllOfs: after the read-only guard, only the user-type registrations, by
 * the same nested loops over the loaded types as the later RegisterUserTypes.
 */
module LegacyDependencyInjection {
  import opened Wrappers
  import opened Exceptions
  import opened Runtime
  import opened DependencyInjection

  /**
   * AddAllOfs: a read-only collection raises ReadOnlyException with nothing
   * added; otherwise one transient registration per (user interface, class
   * assignable to it), interface by interface, and the same collection back.
   */
  method AddAllOfs(services: ServiceCollection, types: seq<RuntimeType>, iAllOf: RuntimeType, assignable: Assignability)
    returns (r: Result<ServiceCollection, Exception>)
    modifies services
    ensures services.isReadOnly ==>
      r == Failure(ReadOnlyException(IsReadOnly("services"))) && services.descriptors == old(services.descriptors)
    ensures !services.isReadOnly ==>
      r == Success(services) && services.descriptors == old(services.descriptors) + UserTypesFrom(types, iAllOf, assignable, 0)
  {
    if services.isReadOnly {
      return Failure(ReadOnlyException(IsReadOnly("services")));
    }
    var allOfBaseInterface := iAllOf;
    var typesInAssemblies := types;
    var i := 0;
    while i < |typesInAssemblies|
      invariant i <= |types|
      invariant services.descriptors + UserTypesFrom(types, iAllOf, assignable, i) == old(services.descriptors) + UserTypesFrom(types, iAllOf, assignable, 0)
      decreases |types| - i
    {
      var interfaceType := typesInAssemblies[i];
      ghost var later := UserTypesFrom(types, iAllOf, assignable, i + 1);
      if interfaceType.isInterface && allOfBaseInterface != interfaceType && assignable(allOfBaseInterface, interfaceType) {
        ghost var before := services.descriptors;
        RegisterImplementations(services, types, assignable, interfaceType);
        ghost var these := ImplementationsFrom(types, assignable, interfaceType, 0);
        assert services.descriptors + later == before + (these + later);
      }
      i := i + 1;
    }
    r := Success(services);
  }
}
