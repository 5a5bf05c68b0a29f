# AllOf in Dafny

This project models the core of TomLonghurst.AllOf. The library lets an
application depend on `AllOf<IMyInterface>`. Calling a method on that one
object calls the same method on every registered implementation of
`IMyInterface`. Two parts make this work:

- a source generator writes a wrapper interface `AllOf_I` for each
  interface `I`, and a class `AllOf_I_Impl` whose methods forward each call
  to every item;
- dependency-injection extensions (`AddAllOfs`) register the generated
  classes and the user's implementations, and the runtime `AllOfImpl<T>`
  looks up the generated class registered for `T`.

The model has one module per source file:

- `Generator` (generator.dfy): the generator's text emission. The
  `AllOfGenerator` class keeps the long names already written in
  `typesWritten` and writes through a `CodeGenerationTextWriter`. Pure
  functions describe what each step writes, and the methods are proved
  against them.
- `AttributeReceiver`, `SyntaxReceiver` and `LegacyAttributeReceiver`: the
  three syntax receivers, which are successive versions of the same
  component. Each receiver is a class whose `Identified` list only grows.
  Each visit is proved against a step function (`Discovery.Step`): the
  entries it appends and the exception it throws, if any.
- `MethodInspection`: the return-type validation all three receivers
  carry, shared because the copies are identical.
- `TextWriter`: the brace-driven indent counter of
  `CodeGenerationTextWriter`. Its `Balanced` predicate says a list of lines
  never lowers the indent below where it started and returns to that level.
- `NamespaceHelper` and `TypeExtensions`: the `using` block and the cut of
  the generic arity from a type name.
- `DependencyInjection` and `LegacyDependencyInjection`: the current and
  the earlier `AddAllOfs`. A `Runtime.ServiceCollection` holds the
  registrations, and the loops append to it in place.
- `AllOfImplBase`: `AllOfImpl<T>` and its registry lookup.
- `FanOut`: the run-time behaviour of a generated void forwarding method
  over items like the test classes.

Support modules: `Wrappers` (Option, Result), `Exceptions` (the exceptions
as values; a method that throws returns one), `Strings` (Trim, Join,
IndexOf, and a parser used to state round trips) and `Symbols` (abstract
compiler symbols, where display strings are given strings).

## Model

| member | source | states |
|---|---|---|
| Generator.GetRef | TomLonghurst.AllOf/SourceGenerator/AllOfGenerator.cs:164-174 | Succeeds exactly for the RefKind values None, Ref, Out and In. Any other value raises ArgumentOutOfRangeException naming "refKind" and carrying the value. |
| Generator.GetRefRoundTrip | TomLonghurst.AllOf/SourceGenerator/AllOfGenerator.cs:164-174 | Each accepted ref kind's keyword ("", "ref", "out", "in") reads back as that same ref kind, so the four keywords are distinct. |
| Generator.ParameterDeclaration | TomLonghurst.AllOf/SourceGenerator/AllOfGenerator.cs:101-102 | A parameter's declaration text exists exactly when GetRef accepts its ref kind; otherwise GetRef's exception. |
| Generator.DeclarationEndsWithTypeAndName | TomLonghurst.AllOf/SourceGenerator/AllOfGenerator.cs:101-102 | After trimming, a declaration ends with the parameter's type name, a space and its name. |
| Generator.Argument | TomLonghurst.AllOf/SourceGenerator/AllOfGenerator.cs:131-133 | A forwarded argument exists exactly when GetRef accepts the ref kind; otherwise GetRef's exception. |
| Generator.ArgumentForwardsName | TomLonghurst.AllOf/SourceGenerator/AllOfGenerator.cs:131-133 | The argument is the parameter's name alone for RefKind None, and otherwise the keyword, a space and the name. |
| Generator.FirstUnknownRefKind | TomLonghurst.AllOf/SourceGenerator/AllOfGenerator.cs:101-102 | Names the first parameter whose ref kind GetRef rejects; every earlier one is accepted. |
| Generator.Declarations | TomLonghurst.AllOf/SourceGenerator/AllOfGenerator.cs:101-102 | The declaration list succeeds exactly when every parameter's ref kind is known. |
| Generator.DeclarationsEachParameter | TomLonghurst.AllOf/SourceGenerator/AllOfGenerator.cs:101-102 | On success, one declaration per parameter, in order. On failure, the exception of the first rejected parameter. |
| Generator.Arguments | TomLonghurst.AllOf/SourceGenerator/AllOfGenerator.cs:131-133 | The argument list succeeds exactly when every parameter's ref kind is known. |
| Generator.ArgumentsEachParameter | TomLonghurst.AllOf/SourceGenerator/AllOfGenerator.cs:131-133 | On success, one argument per parameter, in declaration order. On failure, the first rejected parameter's exception. |
| Generator.GetGenericType | TomLonghurst.AllOf/SourceGenerator/AllOfGenerator.cs:153-162 | Empty exactly when the method has no type parameters. |
| Generator.GenericTypeRoundTrip | TomLonghurst.AllOf/SourceGenerator/AllOfGenerator.cs:153-162 | For a generic method, the suffix is "<", then a list that parses back to the type-parameter names in order, then ">". |
| Generator.ReturnTypeText | TomLonghurst.AllOf/SourceGenerator/AllOfGenerator.cs:104-106 | The keyword void for a method that returns void; otherwise the return type's full display name. |
| Generator.BodyOutput | TomLonghurst.AllOf/SourceGenerator/AllOfGenerator.cs:129-151 | The body throws exactly when some parameter's ref kind is unknown. |
| Generator.SignatureLine | TomLonghurst.AllOf/SourceGenerator/AllOfGenerator.cs:101-113 | The signature line exists exactly when every parameter's ref kind is known. |
| Generator.MethodOutput | TomLonghurst.AllOf/SourceGenerator/AllOfGenerator.cs:110-117 | A forwarding method's output throws exactly when some parameter's ref kind is unknown. |
| Generator.MethodOutputCases | TomLonghurst.AllOf/SourceGenerator/AllOfGenerator.cs:110-117 | If the declarations fail, only the doc comment is written before the throw. Once the declarations succeed, the body cannot throw (its arguments use the same ref kinds), so the method writes its doc comment, signature, "{", body, "}" and an empty line without an exception. |
| Generator.MethodOutputs | TomLonghurst.AllOf/SourceGenerator/AllOfGenerator.cs:99-118 | One output per interface method, in order. |
| Generator.BodyBalanced | TomLonghurst.AllOf/SourceGenerator/AllOfGenerator.cs:135-150 | Each of the three bodies (foreach loop, Task.WhenAll, ValueTask) is balanced. |
| Generator.MethodBalanced | TomLonghurst.AllOf/SourceGenerator/AllOfGenerator.cs:110-117 | A forwarding method that does not throw writes balanced lines. |
| Generator.RunBalanced | TomLonghurst.AllOf/SourceGenerator/AllOfGenerator.cs:99-118 | Writing outputs that neither throw nor unbalance, one after another, keeps what came before and adds balanced lines. |
| Generator.RunThrows | TomLonghurst.AllOf/SourceGenerator/AllOfGenerator.cs:99-118 | The method loop throws exactly when one of its methods throws. |
| Generator.MethodsBalanced | TomLonghurst.AllOf/SourceGenerator/AllOfGenerator.cs:99-118 | When every method's ref kinds are known, the method loop does not throw and writes balanced lines after what came before. |
| Generator.MethodsThrow | TomLonghurst.AllOf/SourceGenerator/AllOfGenerator.cs:99-118 | The method loop throws exactly when some method has an unknown ref kind. |
| Generator.InterfaceOutputParts | TomLonghurst.AllOf/SourceGenerator/AllOfGenerator.cs:80-123 | An interface block that does not throw is its header lines, then its methods' lines, then three closing braces and an empty line. |
| Generator.InterfaceBalanced | TomLonghurst.AllOf/SourceGenerator/AllOfGenerator.cs:80-123 | An interface block starts with its header and ends with its footer. Its braces match, so the indent returns to its starting level. |
| Generator.InterfaceThrows | TomLonghurst.AllOf/SourceGenerator/AllOfGenerator.cs:99-118 | An interface block throws exactly when one of its methods has an unknown ref kind. |
| Generator.InterfaceTypes | TomLonghurst.AllOf/SourceGenerator/AllOfGenerator.cs:51-52 | The interface of each identified entry, in order. |
| Generator.DistinctByInterfaceProperties | TomLonghurst.AllOf/SourceGenerator/AllOfGenerator.cs:66 | DistinctBy keeps only entries of the input, covers every interface of the input, and holds each interface once. |
| Generator.DistinctByInterfaceKeepsFirst | TomLonghurst.AllOf/SourceGenerator/AllOfGenerator.cs:66 | Each kept entry is the first entry of the input for its interface. |
| Generator.DistinctByInterfaceFirstOrder | TomLonghurst.AllOf/SourceGenerator/AllOfGenerator.cs:66 | The kept entries come in the order in which their interfaces first appear in the input. |
| Generator.LongNames | TomLonghurst.AllOf/SourceGenerator/AllOfGenerator.cs:71 | The long display name of each entry's interface, in order. |
| Generator.EmitFromTypesWritten | TomLonghurst.AllOf/SourceGenerator/AllOfGenerator.cs:66-78 | The loop keeps the earlier typesWritten as a prefix and adds no duplicate. Every name it adds comes from the entries still to visit. |
| Generator.EmitFromRecordsAll | TomLonghurst.AllOf/SourceGenerator/AllOfGenerator.cs:73-78 | A loop that does not throw records every visited long name in typesWritten. |
| Generator.EmitFromBalanced | TomLonghurst.AllOf/SourceGenerator/AllOfGenerator.cs:66-124 | Blocks that neither throw nor unbalance give a loop that keeps the text already written and appends balanced lines. |
| Generator.EmitFromThrows | TomLonghurst.AllOf/SourceGenerator/AllOfGenerator.cs:66-124 | An exception from the loop is one of the interface blocks' exceptions. |
| Generator.EmitFromAllWritten | TomLonghurst.AllOf/SourceGenerator/AllOfGenerator.cs:73-76 | When every long name is already in typesWritten, the loop writes nothing and changes nothing. |
| Generator.GenerateUnresolved | TomLonghurst.AllOf/SourceGenerator/AllOfGenerator.cs:51-62 | A framework type the compilation does not resolve raises NullReferenceException before anything is written or recorded. |
| Generator.GenerateBalanced | TomLonghurst.AllOf/SourceGenerator/AllOfGenerator.cs:47-127 | With every framework type resolved and every ref kind known, the file completes. It is the using line, an empty line, then balanced lines, so the indent ends at zero and never goes below it. |
| Generator.GenerateTypesWritten | TomLonghurst.AllOf/SourceGenerator/AllOfGenerator.cs:66-78 | typesWritten keeps its old entries as a prefix and stays free of duplicates. Every new entry is the long name of an identified interface. A run that does not throw records every identified interface. |
| Generator.GenerateThrows | TomLonghurst.AllOf/SourceGenerator/AllOfGenerator.cs:47-127 | A run throws only for an unresolved framework type or a parameter with an unknown ref kind. |
| Generator.SecondGenerateWritesNoInterface | TomLonghurst.AllOf/SourceGenerator/AllOfGenerator.cs:16 | A second run on the same generator instance with the same entries writes only the using line and an empty line. No interface is written twice. |
| Generator.AllOfGenerator.constructor | TomLonghurst.AllOf/SourceGenerator/AllOfGenerator.cs:16 | A new generator has written no type. |
| Generator.AllOfGenerator.GenerateSource | TomLonghurst.AllOf/SourceGenerator/AllOfGenerator.cs:47-127 | Returns the writer's text or the exception Generate describes, and updates typesWritten as Generate does. |
| Generator.AllOfGenerator.WriteInterface | TomLonghurst.AllOf/SourceGenerator/AllOfGenerator.cs:80-123 | Appends the interface block's lines and returns its exception. Without a throw, the indent is back at its starting level. |
| Generator.AllOfGenerator.WriteHeader | TomLonghurst.AllOf/SourceGenerator/AllOfGenerator.cs:80-97 | Appends the header lines and opens three levels of indent. |
| Generator.AllOfGenerator.WriteNamespaceHead | TomLonghurst.AllOf/SourceGenerator/AllOfGenerator.cs:80-81 | Appends the namespace line and its brace, one level deeper. |
| Generator.AllOfGenerator.WriteInterfaceDoc | TomLonghurst.AllOf/SourceGenerator/AllOfGenerator.cs:82-86 | Appends the five doc-comment lines without moving the indent. |
| Generator.AllOfGenerator.WriteTypeHead | TomLonghurst.AllOf/SourceGenerator/AllOfGenerator.cs:88-97 | Appends the interface, class and constructor lines, two levels deeper. |
| Generator.AllOfGenerator.WriteMethod | TomLonghurst.AllOf/SourceGenerator/AllOfGenerator.cs:101-117 | Appends MethodOutput's lines and returns its exception. Without a throw, the indent is unchanged. |
| Generator.AllOfGenerator.WriteMethodBlock | TomLonghurst.AllOf/SourceGenerator/AllOfGenerator.cs:113-117 | Appends the signature, "{", the body, "}" and an empty line, and the indent is unchanged. |
| Generator.AllOfGenerator.WriteMethodDoc | TomLonghurst.AllOf/SourceGenerator/AllOfGenerator.cs:110-112 | Appends the three doc-comment lines. |
| Generator.AllOfGenerator.GenerateBody | TomLonghurst.AllOf/SourceGenerator/AllOfGenerator.cs:129-151 | Appends BodyOutput's lines by return shape and returns its exception. |
| Generator.AllOfGenerator.WriteLoopBody | TomLonghurst.AllOf/SourceGenerator/AllOfGenerator.cs:135-141 | Appends the foreach loop over Items calling the method on each item. |
| Generator.AllOfGenerator.WriteWhenAllBody | TomLonghurst.AllOf/SourceGenerator/AllOfGenerator.cs:142-145 | Appends the single Task.WhenAll return line. |
| Generator.AllOfGenerator.WriteValueTaskBody | TomLonghurst.AllOf/SourceGenerator/AllOfGenerator.cs:146-150 | Appends the AsTask selection and the ValueTask return line. |
| MethodInspection.MethodsOfCounts | TomLonghurst.AllOf/SourceGenerator/AllOfAttributeSyntaxReceiver.cs:99-103 | OfType keeps every method member, as often as it occurs, and nothing else. |
| MethodInspection.DisallowedCounts | TomLonghurst.AllOf/SourceGenerator/AllOfAttributeSyntaxReceiver.cs:112-113 | The offenders are exactly the methods whose return type is not Task, void or ValueTask, with multiplicity. |
| MethodInspection.ArgumentExceptions | TomLonghurst.AllOf/SourceGenerator/AllOfAttributeSyntaxReceiver.cs:114-117 | One ArgumentException per offender, in order, each naming the offender's return type as its ToString() renders it. |
| MethodInspection.GetMethods | TomLonghurst.AllOf/SourceGenerator/AllOfAttributeSyntaxReceiver.cs:97-125 | Either all the type's own methods, in order, or one AggregateException with at least one inner exception. |
| MethodInspection.GetMethodsSucceedsIffAllAllowed | TomLonghurst.AllOf/SourceGenerator/AllOfAttributeSyntaxReceiver.cs:112-124 | Succeeds exactly when every method returns Task, void or ValueTask. |
| MethodInspection.EveryOffenderReported | TomLonghurst.AllOf/SourceGenerator/AllOfAttributeSyntaxReceiver.cs:112-122 | Validation does not stop at the first offender: every offending method's error is in the aggregate, one per offender. |
| MethodInspection.ErrorsNameOffenders | TomLonghurst.AllOf/SourceGenerator/AllOfSyntaxReceiver.cs:115-125 | Every error in the aggregate is the error of an offending method of the type. |
| Discovery.Identify | TomLonghurst.AllOf/SourceGenerator/AllOfAttributeSyntaxReceiver.cs:59-65 | One entry holding the interface and its methods exactly when GetMethods succeeds. Otherwise nothing is added and the aggregate is thrown. |
| Exceptions.Text | TomLonghurst.AllOf/SourceGenerator/AllOfAttributeSyntaxReceiver.cs:115-116 | The return-type message ends with the rejected type as its ToString() renders it (the C# keyword for a special type, such as int). The read-only message starts with the parameter name. |
| AttributeReceiver.TypeSyntaxStep | TomLonghurst.AllOf/SourceGenerator/AllOfAttributeSyntaxReceiver.cs:32-66 | A type syntax changes Identified exactly when its symbol is a named type with one type argument whose generic base is AllOf's name and whose argument is a named type. Then it identifies that argument. |
| AttributeReceiver.InterfaceDeclarationStep | TomLonghurst.AllOf/SourceGenerator/AllOfAttributeSyntaxReceiver.cs:68-95 | An interface declaration changes Identified exactly when its symbol is a named type carrying GenerateAllOfAttribute. Then it identifies that interface. |
| AttributeReceiver.AllOfParametersMembers | TomLonghurst.AllOf/SourceGenerator/AllOfAttributeSyntaxReceiver.cs:129-135 | Considered exactly: parameters whose type is generic syntax named AllOf with exactly one type argument. |
| AttributeReceiver.NamedTypeSymbolsMembers | TomLonghurst.AllOf/SourceGenerator/AllOfAttributeSyntaxReceiver.cs:177-182 | OfType keeps exactly the named type symbols. |
| AttributeReceiver.MatchingUsagesMembers | TomLonghurst.AllOf/SourceGenerator/AllOfAttributeSyntaxReceiver.cs:184-185 | A usage matches exactly when its generic base equals that of the class's first interface. |
| AttributeReceiver.UsagesFromAdded | TomLonghurst.AllOf/SourceGenerator/AllOfAttributeSyntaxReceiver.cs:187-203 | Every entry of the usage loop was there before or was added by one visited usage. |
| AttributeReceiver.NoInterfaceNoGenericTypes | TomLonghurst.AllOf/SourceGenerator/AllOfAttributeSyntaxReceiver.cs:173-185 | For a class with no interface, FindGenericTypesOf adds nothing and throws nothing. |
| AttributeReceiver.GenericTypesEntriesComeFromUsages | TomLonghurst.AllOf/SourceGenerator/AllOfAttributeSyntaxReceiver.cs:171-204 | Each entry it adds is the named first type argument of a usage in the class's compilation unit that shares the first interface's generic base. It holds that argument's methods. |
| AttributeReceiver.UsagesFromCount | TomLonghurst.AllOf/SourceGenerator/AllOfAttributeSyntaxReceiver.cs:187-203 | A usage loop that does not throw adds one entry per usage whose first type argument is a named type. |
| AttributeReceiver.GenericTypesCount | TomLonghurst.AllOf/SourceGenerator/AllOfAttributeSyntaxReceiver.cs:171-204 | Without a throw, FindGenericTypesOf adds exactly one entry per matching usage with a named first argument. |
| AttributeReceiver.ParametersFromAdded | TomLonghurst.AllOf/SourceGenerator/AllOfAttributeSyntaxReceiver.cs:137-168 | Every entry of the parameter loop was there before or was added by one considered parameter. |
| AttributeReceiver.ConstructorEntriesComeFromAllOfParameters | TomLonghurst.AllOf/SourceGenerator/AllOfAttributeSyntaxReceiver.cs:127-169 | Each constructor entry comes from a considered AllOf parameter whose symbol's generic base is AllOf's name. Either its argument is the entry's interface, or its argument is a type parameter and the entry comes from FindGenericTypesOf. |
| AttributeReceiver.ParametersFromAppendsAll | TomLonghurst.AllOf/SourceGenerator/AllOfAttributeSyntaxReceiver.cs:137-168 | When the parameter loop does not throw, no parameter throws and the loop appends every considered parameter's entries, in parameter order, after the earlier ones. |
| AttributeReceiver.ConstructorAppendsEveryParameter | TomLonghurst.AllOf/SourceGenerator/AllOfAttributeSyntaxReceiver.cs:127-168 | A constructor that does not throw appends exactly the entries of its considered AllOf parameters, each parameter's in turn. |
| AttributeReceiver.ConstructorIdentifiesEachAllOfParameter | TomLonghurst.AllOf/SourceGenerator/AllOfAttributeSyntaxReceiver.cs:141-167 | When the constructor does not throw, each parameter AllOf<X> whose generic base is AllOf's adds X with its methods if X is a named type. If X is a type parameter, it adds every entry FindGenericTypesOf finds for the enclosing class. |
| AttributeReceiver.ParameterEntryOrigin | TomLonghurst.AllOf/SourceGenerator/AllOfAttributeSyntaxReceiver.cs:139-167 | A parameter adds entries only when its generic base is AllOf's name: its named argument, or FindGenericTypesOf's entries for a type-parameter argument. |
| AttributeReceiver.AllOfAttributeSyntaxReceiver.constructor | TomLonghurst.AllOf/SourceGenerator/AllOfAttributeSyntaxReceiver.cs:12 | A new receiver has identified nothing. |
| AttributeReceiver.AllOfAttributeSyntaxReceiver.OnVisitSyntaxNode | TomLonghurst.AllOf/SourceGenerator/AllOfAttributeSyntaxReceiver.cs:14-30 | Appends what the node's kind leads to and throws what that throws. Earlier entries are kept. |
| AttributeReceiver.AllOfAttributeSyntaxReceiver.ProcessTypeSyntax | TomLonghurst.AllOf/SourceGenerator/AllOfAttributeSyntaxReceiver.cs:32-66 | Appends TypeSyntaxStep's entries and throws its exception. |
| AttributeReceiver.AllOfAttributeSyntaxReceiver.ProcessInterfaceDeclaration | TomLonghurst.AllOf/SourceGenerator/AllOfAttributeSyntaxReceiver.cs:68-95 | Appends InterfaceDeclarationStep's entries and throws its exception. |
| AttributeReceiver.AllOfAttributeSyntaxReceiver.ProcessConstructorDeclaration | TomLonghurst.AllOf/SourceGenerator/AllOfAttributeSyntaxReceiver.cs:127-169 | Walks the considered parameters in order. It keeps what each added and stops at the first throw. |
| AttributeReceiver.AllOfAttributeSyntaxReceiver.ProcessParameter | TomLonghurst.AllOf/SourceGenerator/AllOfAttributeSyntaxReceiver.cs:139-167 | One iteration of the parameter loop, as ParameterStep describes. |
| AttributeReceiver.AllOfAttributeSyntaxReceiver.FindGenericTypesOf | TomLonghurst.AllOf/SourceGenerator/AllOfAttributeSyntaxReceiver.cs:171-204 | Walks the matching usages in order, appending as GenericTypesStep describes. |
| AttributeReceiver.AllOfAttributeSyntaxReceiver.ProcessUsage | TomLonghurst.AllOf/SourceGenerator/AllOfAttributeSyntaxReceiver.cs:189-202 | One iteration of the usage loop, as UsageStep describes. |
| SyntaxReceiver.InheritedMembersMembers | TomLonghurst.AllOf/SourceGenerator/AllOfSyntaxReceiver.cs:89-90 | The inherited part holds exactly the members of the inherited interfaces. |
| SyntaxReceiver.GetMembersMembers | TomLonghurst.AllOf/SourceGenerator/AllOfSyntaxReceiver.cs:87-93 | GetMembers holds exactly the type's own members and those of every interface it inherits. |
| SyntaxReceiver.HasNoReturnTypesIff | TomLonghurst.AllOf/SourceGenerator/AllOfSyntaxReceiver.cs:66-85 | True exactly when no own or inherited member is a property and every own or inherited method returns void, Task or ValueTask. |
| SyntaxReceiver.HasNoReturnTypesPassesGetMethods | TomLonghurst.AllOf/SourceGenerator/AllOfSyntaxReceiver.cs:66-128 | A type that passes HasNoReturnTypes passes GetMethods' validation. |
| SyntaxReceiver.InterfaceArgumentsMembers | TomLonghurst.AllOf/SourceGenerator/AllOfSyntaxReceiver.cs:41-44 | The admitted arguments are exactly the named type arguments that are interfaces passing HasNoReturnTypes. |
| SyntaxReceiver.IdentifyFromAdmitted | TomLonghurst.AllOf/SourceGenerator/AllOfSyntaxReceiver.cs:46-55 | Over types that pass GetMethods, the loop does not throw. It appends one entry per type, in order, after what was there. |
| SyntaxReceiver.ProcessAppendsOnePerAdmittedArgument | TomLonghurst.AllOf/SourceGenerator/AllOfSyntaxReceiver.cs:41-55 | Processing a named type never throws. It appends one entry per admitted argument, in type-argument order, each with that interface's own methods. |
| SyntaxReceiver.VisitNeverThrows | TomLonghurst.AllOf/SourceGenerator/AllOfSyntaxReceiver.cs:24-64 | No visit of this receiver throws. |
| SyntaxReceiver.ProcessEntryOrigin | TomLonghurst.AllOf/SourceGenerator/AllOfSyntaxReceiver.cs:32-55 | Every entry comes from a named type. It names one of that type's arguments, an interface that passes HasNoReturnTypes, and holds its own methods. |
| SyntaxReceiver.AllOfSyntaxReceiver.constructor | TomLonghurst.AllOf/SourceGenerator/AllOfSyntaxReceiver.cs:12-22 | A new receiver has identified nothing. |
| SyntaxReceiver.AllOfSyntaxReceiver.OnVisitSyntaxNode | TomLonghurst.AllOf/SourceGenerator/AllOfSyntaxReceiver.cs:24-30 | Only type syntax is processed; every other node leaves Identified unchanged. |
| SyntaxReceiver.AllOfSyntaxReceiver.Process | TomLonghurst.AllOf/SourceGenerator/AllOfSyntaxReceiver.cs:32-64 | Appends ProcessStep's entries. A symbol that is not a named type appends nothing. |
| LegacyAttributeReceiver.ProcessStep | TomLonghurst.AllOf/AllOfAttributeSyntaxReceiver.cs:18-67 | Changes Identified exactly when the declared symbol is a named type carrying the attribute. Then it identifies the interface with the same validation as GetMethods. |
| LegacyAttributeReceiver.AgreesWithAttributeReceiver | TomLonghurst.AllOf/AllOfAttributeSyntaxReceiver.cs:10-67 | On interface declarations, this earlier receiver does what the later attribute receiver's interface path does. |
| LegacyAttributeReceiver.OnlyMarkedDeclarationsCount | TomLonghurst.AllOf/AllOfAttributeSyntaxReceiver.cs:10-67 | Only a marked interface declaration changes anything. It either appends exactly one entry, or throws with nothing appended. |
| LegacyAttributeReceiver.AllOfAttributeSyntaxReceiver.constructor | TomLonghurst.AllOf/AllOfAttributeSyntaxReceiver.cs:8 | A new receiver has identified nothing. |
| LegacyAttributeReceiver.AllOfAttributeSyntaxReceiver.OnVisitSyntaxNode | TomLonghurst.AllOf/AllOfAttributeSyntaxReceiver.cs:10-16 | Appends and throws what the visit leads to. Nodes other than interface declarations change nothing. |
| LegacyAttributeReceiver.AllOfAttributeSyntaxReceiver.Process | TomLonghurst.AllOf/AllOfAttributeSyntaxReceiver.cs:18-67 | Appends ProcessStep's entry or throws its aggregate, before anything is appended. |
| TextWriter.LeadIndex | TomLonghurst.AllOf/SourceGenerator/Helpers/CodeGenerationTextWriter.cs:26 | The index of the first character that is not white space. |
| TextWriter.BlockTestsReadTrimmedLine | TomLonghurst.AllOf/SourceGenerator/Helpers/CodeGenerationTextWriter.cs:26-38 | A line closes a block exactly when its trimmed text starts with "}", and opens one exactly when it starts with "{". |
| TextWriter.PlainLineEffect | TomLonghurst.AllOf/SourceGenerator/Helpers/CodeGenerationTextWriter.cs:24-39 | A line starting with a character that is neither white space nor a brace leaves the indent unchanged. |
| TextWriter.BalancedAppend | TomLonghurst.AllOf/SourceGenerator/Helpers/CodeGenerationTextWriter.cs:24-39 | Balanced lines followed by balanced lines are balanced. |
| TextWriter.BalancedNest | TomLonghurst.AllOf/SourceGenerator/Helpers/CodeGenerationTextWriter.cs:24-39 | An opening line, balanced lines and a closing line are balanced. |
| TextWriter.ReturnsNest | TomLonghurst.AllOf/SourceGenerator/Helpers/CodeGenerationTextWriter.cs:24-39 | Wrapping indent changes that return to their level in +1 and -1 keeps them non-negative and returning. |
| TextWriter.PlainLinesBalanced | TomLonghurst.AllOf/SourceGenerator/Helpers/CodeGenerationTextWriter.cs:24-39 | Lines that each leave the indent unchanged are balanced. |
| TextWriter.CodeGenerationTextWriter.constructor | TomLonghurst.AllOf/SourceGenerator/Helpers/CodeGenerationTextWriter.cs:7-9 | A new writer is at indent zero with nothing written. |
| TextWriter.CodeGenerationTextWriter.Write | TomLonghurst.AllOf/SourceGenerator/Helpers/CodeGenerationTextWriter.cs:11-22 | '{' raises the indent by one and '}' lowers it by one. Nothing is written. |
| TextWriter.CodeGenerationTextWriter.WriteLine | TomLonghurst.AllOf/SourceGenerator/Helpers/CodeGenerationTextWriter.cs:24-39 | Appends the line. The indent moves by the line's effect: down before the line for a leading "}", up after it for a leading "{". |
| TextWriter.CodeGenerationTextWriter.WriteEmptyLine | TomLonghurst.AllOf/SourceGenerator/AllOfGenerator.cs:63 | Appends an empty line; the indent is unchanged. |
| TextWriter.CodeGenerationTextWriter.ToString | TomLonghurst.AllOf/SourceGenerator/Helpers/CodeGenerationTextWriter.cs:41-45 | All lines written so far, in order, each followed by the newline. |
| NamespaceHelper.DistinctProperties | TomLonghurst.AllOf/SourceGenerator/Helpers/NamespaceHelper.cs:17 | Distinct keeps exactly the input's values, each once, and is never longer. |
| NamespaceHelper.DistinctKeepsFirstOccurrenceOrder | TomLonghurst.AllOf/SourceGenerator/Helpers/NamespaceHelper.cs:17 | Distinct lists values in the order of their first occurrences in the input: a value listed earlier occurs first earlier. |
| NamespaceHelper.UsingStatementInjective | TomLonghurst.AllOf/SourceGenerator/Helpers/NamespaceHelper.cs:24 | Different namespaces give different using lines. |
| NamespaceHelper.UsingStatementsIndex | TomLonghurst.AllOf/SourceGenerator/Helpers/NamespaceHelper.cs:22-25 | The i-th line is "using" for the i-th namespace, in input order. |
| NamespaceHelper.ResolvedNamespaces | TomLonghurst.AllOf/SourceGenerator/Helpers/NamespaceHelper.cs:14-15 | Succeeds exactly when every framework type resolves, giving their namespaces in order. An unresolved type raises NullReferenceException. |
| NamespaceHelper.GetUsingStatementsForTypes | TomLonghurst.AllOf/SourceGenerator/Helpers/NamespaceHelper.cs:12-20 | Succeeds exactly when every framework type resolves, and is then the using block of the framework namespaces followed by the symbol namespaces, deduplicated. An unresolved type raises NullReferenceException. |
| NamespaceHelper.GetUsingStatementsForRuntimeTypes | TomLonghurst.AllOf/SourceGenerator/Helpers/NamespaceHelper.cs:7-10 | The types-only overload is the using block of the resolved namespaces, deduplicated. |
| NamespaceHelper.UsingBlockNamesEachNamespaceOnce | TomLonghurst.AllOf/SourceGenerator/Helpers/NamespaceHelper.cs:12-25 | The block names each namespace once. A namespace has a line exactly when it comes from a framework type or from an identified symbol. |
| NamespaceHelper.RuntimeNamespacesComeFirst | TomLonghurst.AllOf/SourceGenerator/Helpers/NamespaceHelper.cs:14-17 | The line for a framework type's namespace comes before the line for a namespace that only an identified symbol contributes. |
| NamespaceHelper.SymbolNamespacesMembers | TomLonghurst.AllOf/SourceGenerator/Helpers/NamespaceHelper.cs:16 | The symbol namespaces are exactly the containing namespaces of the given symbols. |
| NamespaceHelper.UsingBlockHead | TomLonghurst.AllOf/SourceGenerator/Helpers/NamespaceHelper.cs:22-25 | An empty namespace list gives the empty string. Otherwise the block starts with "using". |
| TypeExtensions.GetFullNameWithoutGenericArityCuts | TomLonghurst.AllOf/Extensions/TypeExtensions.cs:5-16 | A null name gives "". Otherwise the result is a prefix of the name without '`'. A name without '`' is unchanged, and a name with one is cut right before its first '`'. |
| TypeExtensions.CutIsIdempotent | TomLonghurst.AllOf/Extensions/TypeExtensions.cs:14-15 | Cutting the cut name changes nothing. |
| TypeExtensions.CutRemovesArity | TomLonghurst.AllOf/Extensions/TypeExtensions.cs:14-15 | Name plus '`' plus arity cuts back to the name. |
| TypeExtensions.AllOfNameWithoutArityValue | TomLonghurst.AllOf/Extensions/DependencyInjectionExtensions.cs:31-35 | typeof(AllOf<>)'s full name without arity is "TomLonghurst.AllOf.Models.AllOf", the literal RegisterAllOf compares with. |
| Runtime.ServiceCollection.constructor | TomLonghurst.AllOf/Extensions/DependencyInjectionExtensions.cs:9 | A collection with the given read-only flag and registrations. |
| Runtime.ServiceCollection.AddTransient | TomLonghurst.AllOf/Extensions/DependencyInjectionExtensions.cs:43 | Appends one transient registration and keeps the earlier ones. |
| DependencyInjection.AnyIsAllOfMeans | TomLonghurst.AllOf/Extensions/DependencyInjectionExtensions.cs:35 | Some interface's name without arity is AllOf's name. |
| DependencyInjection.AnyIsInternalMeans | TomLonghurst.AllOf/Extensions/DependencyInjectionExtensions.cs:38-39 | Some inherited interface's name without arity is one of the internal type names. |
| DependencyInjection.FirstUserDeclared | TomLonghurst.AllOf/Extensions/DependencyInjectionExtensions.cs:37-39 | A found interface is one of the type's interfaces: not internal, and extending no internal interface. If none is found, First raises InvalidOperationException. |
| DependencyInjection.FirstUserDeclaredIsFirst | TomLonghurst.AllOf/Extensions/DependencyInjectionExtensions.cs:37-39 | Succeeds exactly when some interface qualifies. It returns the first one: every earlier interface fails the test. |
| DependencyInjection.RegisterAllOfThrows | TomLonghurst.AllOf/Extensions/DependencyInjectionExtensions.cs:33-44 | The loop throws exactly when some AllOf implementation has no qualifying interface, and then it throws First's InvalidOperationException. |
| DependencyInjection.RegisterAllOfMembers | TomLonghurst.AllOf/Extensions/DependencyInjectionExtensions.cs:33-44 | Every added registration is a transient AllOf<I> for a non-interface type implementing AllOf, with I its first qualifying interface. Without a throw, every such pair is added. |
| DependencyInjection.RegisterAllOf | TomLonghurst.AllOf/Extensions/DependencyInjectionExtensions.cs:22-45 | Appends RegisterAllOfFrom's registrations in type order, keeps the earlier entries, and returns its exception. |
| DependencyInjection.ImplementationsFromMembers | TomLonghurst.AllOf/Extensions/DependencyInjectionExtensions.cs:61-66 | The inner loop adds exactly the transient (I, C) pairs for every class C assignable to I. |
| DependencyInjection.UserTypesFromMembers | TomLonghurst.AllOf/Extensions/DependencyInjectionExtensions.cs:56-67 | Added exactly: transient (I, C) with I an interface other than IAllOf, IAllOf assignable from I, C a class, and I assignable from C. |
| DependencyInjection.RegisterImplementations | TomLonghurst.AllOf/Extensions/DependencyInjectionExtensions.cs:61-66 | Appends the inner loop's pairs in type order, keeping the earlier entries. |
| DependencyInjection.RegisterUserTypes | TomLonghurst.AllOf/Extensions/DependencyInjectionExtensions.cs:47-68 | Appends the pairs in nested order (interfaces outer, classes inner), keeping the earlier entries. |
| DependencyInjection.AddAllOfsOrder | TomLonghurst.AllOf/Extensions/DependencyInjectionExtensions.cs:16-17 | Every registration AddAllOfs adds is transient. All AllOf<I> registrations come before all user-interface registrations. |
| DependencyInjection.AddAllOfs | TomLonghurst.AllOf/Extensions/DependencyInjectionExtensions.cs:9-20 | A read-only collection raises ReadOnlyException with nothing added. Otherwise the AllOf registrations, then the user-type registrations, are appended. The same collection comes back, or RegisterAllOf's exception with the earlier appends kept. |
| LegacyDependencyInjection.AddAllOfs | TomLonghurst.AllOf/DependencyInjectionExtensions.cs:8-36 | A read-only collection raises ReadOnlyException with nothing added. Otherwise exactly the user-type pairs, in nested order, are appended, and the same collection comes back. |
| AllOfImplBase.AllOfImpl.constructor | TomLonghurst.AllOf/Models/AllOfImpl_Base.cs:15-20 | Items is the sequence given, and it is never reassigned (a constant). |
| AllOfImplBase.AllOfImpl.GetRegisteredImplementation | TomLonghurst.AllOf/Models/AllOfImpl_Base.cs:5-13 | Succeeds exactly when the registry maps T, giving an instance of the mapped type over Items. A miss raises ArgumentNullException named after T. |
| AllOfImplBase.AllOfImpl.OnEach | TomLonghurst.AllOf/Models/AllOfImpl_Base.cs:22-25 | The same outcome as GetRegisteredImplementation: the mapped instance over Items, or the ArgumentNullException. |
| AllOfImplBase.ConvertToT | TomLonghurst.AllOf/Models/AllOfImpl_Base.cs:27 | The implicit conversion equals OnEach, and a converted instance is built over the wrapper's Items. |
| AllOfImplBase.OnEachReadsOnlyTheEntryForT | TomLonghurst.AllOf/Models/AllOfImpl_Base.cs:7 | The lookup depends on the registry only through T's entry. |
| FanOut.Log.Append | TomLonghurst.AllOf.UnitTests/Tests.cs:31 | The action appends the string and a space. |
| FanOut.Item.Blah | TomLonghurst.AllOf.UnitTests/TestModels/Classes/MyBaseTestClass.cs:8-11 | One call raises BlahCount by one and reports the item's type name to the action. |
| FanOut.SpacedHoldsEachNameInOrder | TomLonghurst.AllOf.UnitTests/Tests.cs:31-33 | The reported text holds every name in order, each followed by one space, at its computed offset, and nothing after the last. |
| FanOut.AllOfImpl.constructor | TomLonghurst.AllOf/SourceGenerator/AllOfGenerator.cs:93 | The generated class holds the given items. |
| FanOut.AllOfImpl.Blah | TomLonghurst.AllOf/SourceGenerator/AllOfGenerator.cs:137-140 | The void forwarding method calls every item in Items order. The action sees the type names in that order, and each item's count rises by the number of times it occurs in Items. |
| FanOut.DistinctItemsAreCalledOnce | TomLonghurst.AllOf.UnitTests/DummyClassTests.cs:19-33 | An item that occurs once in Items is called exactly once per forwarded call. |

## Left out

- Roslyn itself is not modelled: semantic models, `GetSymbol`, `ToDisplayString`, `GetAttributes`, and the `Ancestors`/`DescendantNodes` walks. Symbols are abstract datatypes, and display names in each format are given strings. A type syntax's symbols are given as a list on the class declaration.
- Source-generator plumbing is not modelled: `Initialize`, `Execute`, `AddSource`, and the `#if DEBUG` debugger code.
- `GetTypeByMetadataName` is not modelled. The nine framework types enter `GenerateSource` as the namespaces the compilation resolves for them; an unresolved one is `None` and raises NullReferenceException.
- `DistinctBy` compares interface symbols by symbol equality; the model uses value equality on the abstract symbol.
- The `asyncKeyword` computed for each method is never written in the source, so it is not modelled.
- The empty `if` at the end of `AllOfSyntaxReceiver.Process` has no effect and is not modelled.
- `IndentedTextWriter` is a library: its tab output is not modelled. Its clamp of a negative `Indent` is replaced by a precondition: closing a block needs a positive indent. `Balanced` shows the generated lines never go below zero.
- `Environment.NewLine` is taken to be "\n".
- The writer methods `WriteInterface`, `WriteHeader`, `WriteNamespaceHead`, `WriteInterfaceDoc`, `WriteTypeHead`, `WriteMethod`, `WriteMethodBlock`, `WriteMethodDoc`, `WriteLoopBody`, `WriteWhenAllBody` and `WriteValueTaskBody` are the inline statements of `GenerateSource` and `GenerateBody`, split into pieces. `ProcessParameter` and `ProcessUsage` are loop bodies of the attribute receiver. `RegisterImplementations` is the inner loop that both `AddAllOfs` versions write inline.
- The legacy receiver's attribute name (`GenerateAllOfAttribute` in its own namespace) is a constructor parameter.
- Reflection is replaced by inputs, because it reads the running application:
  - `AppDomain.GetAssemblies` and `GetTypes` become the input list of types;
  - `IsAssignableFrom` is an uninterpreted function parameter;
  - `MakeGenericType` is the `AllOfOf` service type;
  - `Activator.CreateInstance` is an `Instance` value;
  - `Type` identity is value equality.
- `AllOfData.Implementations` is not part of this model; the registry is passed to each lookup as a map.
- `Runtime.ServiceCollection.AddTransient`: a read-only collection is a precondition, because both `AddAllOfs` versions check it first.
- Microsoft.Extensions.DependencyInjection's resolution, lifetimes and scopes are not modelled; only the registrations added are.
- `Task.WhenAll` and `ValueTask` completion are concurrency. Only the text of those bodies is modelled.
- The run-time fan-out is modelled for the void case only, over items that merge the two test behaviours: a call counter (`MyBaseTestClass`) and a reporter of the item's type name (`MyTestClass`).
- `DependencyInjection.InternalTypes` uses the constant name `TomLonghurst.AllOf.Models.AllOf` where the source computes `typeof(AllOf<>).GetFullNameWithoutGenericArity()`. `TypeExtensions.AllOfNameWithoutArityValue` proves the two equal.
- In `RegisterAllOf`, the lazy `Where` chain and the per-type `First` are evaluated in type order. An exception ends the loop with the earlier registrations kept, as in the source.
- `AttributeReceiver.GenericTypesStep`: a constructor outside a class makes the source call `GetDeclaredSymbol` on a null node. Roslyn rejects that with an ArgumentNullException whose parameter name comes from code that is not part of this model, so the model raises NullReferenceException there.
- `TypeExtensions.GetFullNameWithoutGenericArity`: its properties are stated in the lemma `GetFullNameWithoutGenericArityCuts` rather than on the function.
