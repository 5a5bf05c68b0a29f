/** Models TomLonghurst.AllOf/Extensions/TypeExtensions.cs. */
module TypeExtensions {
  import opened Wrappers
  import opened Strings

  /** The character that separates a generic type's name from its arity in Type.FullName. */
  const ArityMark: char := '`'

  /**
   * GetFullNameWithoutGenericArity: the type's FullName (None stands for null)
   * cut before its first '`'.
   */
  function GetFullNameWithoutGenericArity(fullName: Option<string>): string
  {
    match fullName
    case None => ""
    case Some(name) =>
      var index := IndexOf(name, ArityMark);
      if index == -1 then name else name[..index]
  }

  /**
   * A null name cuts to ""; otherwise the result is a prefix of the name with
   * no '`' in it: the whole name when it has no '`', and else the part before
   * the first '`'.
   */
  lemma {:induction false} GetFullNameWithoutGenericArityCuts(fullName: Option<string>)
    ensures var r := GetFullNameWithoutGenericArity(fullName);
      && (fullName.None? ==> r == "")
      && (fullName.Some? ==> r <= fullName.value)
      && ArityMark !in r
      && (fullName.Some? && ArityMark !in fullName.value ==> r == fullName.value)
      && (fullName.Some? && ArityMark in fullName.value ==> |r| < |fullName.value| && fullName.value[|r|] == ArityMark)
  {
  }

  /** Cutting the arity twice is the same as cutting it once. */
  lemma {:induction false} CutIsIdempotent(fullName: Option<string>)
    ensures GetFullNameWithoutGenericArity(Some(GetFullNameWithoutGenericArity(fullName)))
         == GetFullNameWithoutGenericArity(fullName)
  {
    GetFullNameWithoutGenericArityCuts(fullName);
    GetFullNameWithoutGenericArityCuts(Some(GetFullNameWithoutGenericArity(fullName)));
  }

  /** typeof(AllOf<>).GetFullNameWithoutGenericArity(), the name both receivers and the DI code compare against. */
  const AllOfNameWithoutArity: string := "TomLonghurst.AllOf.Models.AllOf"

  /** typeof(AllOf<>).FullName: the generic interface TomLonghurst.AllOf.Models.AllOf<T> with its arity of one. */
  const AllOfFullName: string := AllOfNameWithoutArity + "`1"

  /** The marker interface TomLonghurst.AllOf.Models.IAllOf. */
  const IAllOfFullName: string := "TomLonghurst.AllOf.Models.IAllOf"

  /** A name followed by '`' and an arity is cut back to the name. */
  lemma {:induction false} CutRemovesArity(name: string, arity: string)
    requires ArityMark !in name
    ensures GetFullNameWithoutGenericArity(Some(name + [ArityMark] + arity)) == name
  {
    IndexOfAfterPrefix(name, [ArityMark] + arity, ArityMark);
    assert name + [ArityMark] + arity == name + ([ArityMark] + arity);
  }

  lemma {:induction false} AllOfNameWithoutArityValue()
    ensures GetFullNameWithoutGenericArity(Some(AllOfFullName)) == AllOfNameWithoutArity
  {
    CutRemovesArity(AllOfNameWithoutArity, "1");
    assert AllOfFullName == AllOfNameWithoutArity + [ArityMark] + "1";
  }
}
