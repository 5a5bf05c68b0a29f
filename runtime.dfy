/**
 * Abstract stand-ins for the .NET runtime types the registration code reads
 * through reflection, and for the dependency-injection service collection it
 * appends to.
 */
module Runtime {
  import opened Wrappers

  /** System.Type, reduced to what the registration and lookup code read. */
  datatype RuntimeType = RuntimeType(
    name: string,                  // Name
    fullName: Option<string>,      // FullName; None stands for null
    isInterface: bool,             // IsInterface
    isClass: bool,                 // IsClass
    interfaces: seq<RuntimeType>)  // GetInterfaces(): every interface it implements or inherits

  /**
   * Type.IsAssignableFrom as a relation the model does not interpret:
   * assignable(a, b) stands for a.IsAssignableFrom(b).
   */
  type Assignability = (RuntimeType, RuntimeType) -> bool

  /** The service type of a registration: a type as it is, or AllOf<> made generic over an interface. */
  datatype ServiceType = ServiceOf(serviceType: RuntimeType) | AllOfOf(argument: RuntimeType)

  /** ServiceLifetime. */
  datatype Lifetime = Singleton | Scoped | Transient

  /** ServiceDescriptor: service type, implementation type and lifetime. */
  datatype ServiceDescriptor = ServiceDescriptor(serviceType: ServiceType, implementationType: RuntimeType, lifetime: Lifetime)

  /** IServiceCollection: the registrations in the order they were added. */
  class ServiceCollection {
    /** ICollection.IsReadOnly. */
    const isReadOnly: bool
    var descriptors: seq<ServiceDescriptor>

    constructor(isReadOnly: bool, descriptors: seq<ServiceDescriptor>)
      ensures this.isReadOnly == isReadOnly && this.descriptors == descriptors
    {
      this.isReadOnly := isReadOnly;
      this.descriptors := descriptors;
    }

    /** AddTransient(serviceType, implementationType): one transient registration, appended. */
    method AddTransient(serviceType: ServiceType, implementationType: RuntimeType)
      requires !isReadOnly
      modifies this
      ensures descriptors == old(descriptors) + [ServiceDescriptor(serviceType, implementationType, Transient)]
    {
      descriptors := descriptors + [ServiceDescriptor(serviceType, implementationType, Transient)];
    }
  }
}
