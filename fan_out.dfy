/**
 * The run-time behaviour of the class the generator writes for an interface
 * method that returns void (TomLonghurst.AllOf/SourceGenerator/AllOfGenerator.cs,
 * GenerateBody): "foreach (var item in Items) { item.Blah(action); }". The
 * items are implementations like the test classes: each counts its calls
 * (BlahCount) and reports its type name to the action it is given.
 */
module FanOut {

  /** The test's action: str => stringBuilder.Append(str + " "). */
  class Log {
    var text: string

    constructor()
      ensures text == ""
    {
      text := "";
    }

    method Append(str: string)
      modifies this
      ensures text == old(text) + str + " "
    {
      text := text + str + " ";
    }
  }

  /** One implementation of the interface. */
  class Item {
    /** GetType().Name. */
    const typeName: string
    var BlahCount: int

    constructor(typeName: string)
      ensures this.typeName == typeName && BlahCount == 0
    {
      this.typeName := typeName;
      BlahCount := 0;
    }

    /** Blah: one more call counted, and the type name passed to the action. */
    method Blah(action: Log)
      modifies this, action
      ensures BlahCount == old(BlahCount) + 1
      ensures action.text == old(action.text) + typeName + " "
    {
      BlahCount := BlahCount + 1;
      action.Append(typeName);
    }
  }

  /** The type names of the items, in order. */
  function TypeNames(items: seq<Item>): (names: seq<string>)
    ensures |names| == |items|
  {
    seq(|items|, k requires 0 <= k < |items| => items[k].typeName)
  }

  /** What the action's builder holds after it is handed the names in turn: each followed by a space. */
  function Spaced(names: seq<string>): string
  {
    if names == [] then "" else Spaced(names[..|names| - 1]) + names[|names| - 1] + " "
  }

  /** Where the k-th name starts in Spaced(names). */
  function Offset(names: seq<string>, k: nat): nat
    requires k <= |names|
  {
    if k == 0 then 0 else Offset(names, k - 1) + |names[k - 1]| + 1
  }

  /**
   * Spaced(names) is every name, in order, each followed by one space: the
   * k-th name and its space sit at Offset(names, k), and nothing follows the last.
   */
  lemma {:induction false} SpacedHoldsEachNameInOrder(names: seq<string>, k: nat)
    requires k < |names|
    ensures |Spaced(names)| == Offset(names, |names|)
    ensures Offset(names, k + 1) <= |Spaced(names)|
    ensures Spaced(names)[Offset(names, k)..Offset(names, k + 1)] == names[k] + " "
    decreases |names|
  {
    var init := names[..|names| - 1];
    var last := names[|names| - 1];
    OffsetOfPrefix(names, init, |init|);
    if k < |init| {
      SpacedHoldsEachNameInOrder(init, k);
      OffsetOfPrefix(names, init, k);
      OffsetOfPrefix(names, init, k + 1);
      assert Spaced(names) == Spaced(init) + (last + " ");
    } else if init != [] {
      SpacedHoldsEachNameInOrder(init, 0);
    }
  }

  /** Offsets within a prefix are the prefix's own. */
  lemma {:induction false} OffsetOfPrefix(names: seq<string>, init: seq<string>, k: nat)
    requires init <= names && k <= |init|
    ensures Offset(names, k) == Offset(init, k)
  {
    if k > 0 {
      OffsetOfPrefix(names, init, k - 1);
    }
  }

  /**
   * AllOf_IMyTestInterface_Impl: the generated class over the resolved
   * implementations.
   */
  class AllOfImpl {
    const Items: seq<Item>

    constructor(items: seq<Item>)
      ensures Items == items
    {
      Items := items;
    }

    /**
     * The generated void method: each item's Blah, once per occurrence in
     * Items and in Items order, so the action sees the type names in that
     * order and each item's count rises by the times it occurs.
     */
    method Blah(action: Log)
      modifies action, set item | item in Items
      ensures action.text == old(action.text) + Spaced(TypeNames(Items))
      ensures forall k :: 0 <= k < |Items| ==> Items[k].BlahCount == old(Items[k].BlahCount) + multiset(Items)[Items[k]]
    {
      ghost var start := action.text;
      var i := 0;
      while i < |Items|
        invariant i <= |Items|
        invariant action.text == start + Spaced(TypeNames(Items[..i]))
        invariant forall k :: 0 <= k < |Items| ==> Items[k].BlahCount == old(Items[k].BlahCount) + multiset(Items[..i])[Items[k]]
      {
        var item := Items[i];
        ghost var counts := multiset(Items[..i]);
        item.Blah(action);
        SpacedStep(Items, i);
        assert multiset(Items[..i + 1]) == counts + multiset{item} by {
          assert Items[..i + 1] == Items[..i] + [item];
        }
        i := i + 1;
      }
      assert Items[..|Items|] == Items;
    }
  }

  /** Calling the next item adds its name and a space to what the earlier ones reported. */
  lemma {:induction false} SpacedStep(items: seq<Item>, i: nat)
    requires i < |items|
    ensures Spaced(TypeNames(items[..i + 1])) == Spaced(TypeNames(items[..i])) + items[i].typeName + " "
  {
    assert TypeNames(items[..i + 1])[..i] == TypeNames(items[..i]);
  }

  /** An item that occurs once in the items is called exactly once by the fan-out. */
  lemma {:induction false} DistinctItemsAreCalledOnce(items: seq<Item>, k: nat)
    requires k < |items|
    requires forall p, q :: 0 <= p < q < |items| ==> items[p] != items[q]
    ensures multiset(items)[items[k]] == 1
    decreases |items|
  {
    var init := items[..|items| - 1];
    var last := items[|items| - 1];
    assert items == init + [last];
    if k < |init| {
      DistinctItemsAreCalledOnce(init, k);
      assert last != items[k];
    } else {
      assert last !in init by {
        forall p | 0 <= p < |init|
          ensures init[p] != last
        {
          assert init[p] == items[p];
        }
      }
    }
  }
}
