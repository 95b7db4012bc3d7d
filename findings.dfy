/**
 * Two places where the code does something other than what it evidently
 * means to do. For each, the behaviour as written (which the rest of the
 * model follows) is shown on a concrete input, and the intended behaviour
 * is defined and its property proved.
 */
module Findings {
  import opened Wrappers
  import opened Schema
  import opened InputPlans
  import opened Coordinates
  import opened FacadeSpec

  // ---------------------------------------------------------------------------
  // The list node's item plans

  const NoOperation := Aether(map[], None, {})
  const IntType := Scalar("Int", None)
  const TwoInts := Some(Argument("xs", ListValue([ScalarValue("1"), ScalarValue("2")])))

  /** As written, the list `[1, 2]` yields two identical item plans that carry neither entry. */
  lemma ListNodeLosesEntries()
    ensures ListNode(NoOperation, IntType, TwoInts).itemPlans == [StaticLeafPlan(IntType, None), StaticLeafPlan(IntType, None)]
  {
    ListNodeShape(NoOperation, IntType, TwoInts);
  }

  /** The item plans built each from its own entry, or the first entry's exception. */
  function IntendedItems(aether: Aether, inner: InputType, name: string, values: seq<ValueNode>): (r: Result<seq<InputPlan>, Error>)
    ensures r.Ok? ==> |r.value| == |values|
    ensures r.Ok? ==> forall i :: 0 <= i < |values| ==> BuildInputPlan(aether, inner, Some(Argument(name, values[i])), None) == Ok(r.value[i])
    ensures r.Err? <==> exists i :: 0 <= i < |values| && BuildInputPlan(aether, inner, Some(Argument(name, values[i])), None).Err?
  {
    if values == [] then Ok([])
    else
      var first :- BuildInputPlan(aether, inner, Some(Argument(name, values[0])), None);
      var rest :- IntendedItems(aether, inner, name, values[1..]);
      Ok([first] + rest)
  }

  /** The list node the constructor evidently means to build: item `i` from entry `i`. */
  function IntendedListNode(aether: Aether, inner: InputType, inputValues: Option<Argument>): (r: Result<InputPlan, Error>)
    ensures r.Ok? ==> r.value.ListPlan? && |r.value.itemPlans| == EntryCount(inputValues)
    ensures r.Ok? ==> r.value.outOfBoundsPlan == ListNode(aether, inner, inputValues).outOfBoundsPlan
    ensures r.Ok? && inputValues.Some? && inputValues.value.value.ListValue? ==>
      forall i :: 0 <= i < |inputValues.value.value.values| ==>
        BuildInputPlan(aether, inner, Some(Argument(inputValues.value.name, inputValues.value.value.values[i])), None) == Ok(r.value.itemPlans[i])
    ensures inputValues.Some? && inputValues.value.value.ListValue? && (forall i :: 0 <= i < |inputValues.value.value.values| ==> !inputValues.value.value.values[i].Variable?) ==> r.Ok?
  {
    var items :-
      if inputValues.Some? && inputValues.value.value.ListValue? then IntendedItems(aether, inner, inputValues.value.name, inputValues.value.value.values)
      else Ok([]);
    Ok(ListPlan(items, BuildInputPlan(aether, inner, None, None).value, inputValues))
  }

  /** Built as intended, the list `[1, 2]` keeps each entry in its own item plan. */
  lemma IntendedListKeepsEntries()
    ensures IntendedListNode(NoOperation, IntType, TwoInts).Ok?
    ensures IntendedListNode(NoOperation, IntType, TwoInts).value.itemPlans ==
      [StaticLeafPlan(IntType, Some(Argument("xs", ScalarValue("1")))), StaticLeafPlan(IntType, Some(Argument("xs", ScalarValue("2"))))]
  {
    var r := IntendedListNode(NoOperation, IntType, TwoInts);
    var values := TwoInts.value.value.values;
    assert BuildInputPlan(NoOperation, IntType, Some(Argument("xs", values[0])), None) == Ok(StaticLeafPlan(IntType, Some(Argument("xs", ScalarValue("1")))));
    assert BuildInputPlan(NoOperation, IntType, Some(Argument("xs", values[1])), None) == Ok(StaticLeafPlan(IntType, Some(Argument("xs", ScalarValue("2")))));
    assert r.value.itemPlans[0] == StaticLeafPlan(IntType, Some(Argument("xs", ScalarValue("1"))));
    assert r.value.itemPlans[1] == StaticLeafPlan(IntType, Some(Argument("xs", ScalarValue("2"))));
  }

  // ---------------------------------------------------------------------------
  // Skipping consumed coordinates during reconciliation

  /** As written, a field read by the callback is applied again, and an unread field named `map` is never applied. */
  lemma ReconcileDecisionIgnoresElements()
    ensures ReconcileDecision(["x"], "x") == ApplyDefault
    ensures ReconcileDecision([], "map") == Skip
  {
    ShortKeysAreNotPrototypeKeys("x", 0);
    assert !IsCanonicalIndex("x") by {
      assert !IsDigit("x"[0]);
    }
    assert !AnyStartsWith(["x"], "x" + ".") by {
      assert !StartsWith(["x"][0], "x" + ".");
    }
  }

  /** As written, one GraphQL name that is not a property of arrays is never skipped, whatever was read. */
  lemma ReconcileNeverSkipsName(coords: seq<string>, pathStr: string)
    requires |pathStr| > 0 && !IsDigit(pathStr[0]) && !IsArrayPrototypeKey(pathStr)
    ensures ReconcileDecision(coords, pathStr) != Skip
    ensures ReconcileDecision(coords, pathStr) == Descend <==> AnyStartsWith(coords, pathStr + ".")
  {
    NameInArrayOnlyIfPrototypeKey(pathStr, |coords|);
  }

  /** The decision with `analyzedCoordinates.includes(pathStr)`. */
  function IntendedDecision(coords: seq<string>, pathStr: string): Decision {
    if pathStr in coords then Skip
    else if AnyStartsWith(coords, pathStr + ".") then Descend
    else ApplyDefault
  }

  /**
   * As intended, a coordinate is skipped exactly when the callback recorded
   * it, applied exactly when nothing at or below it was recorded, and decided
   * as written whenever the array-key test and the element test agree.
   */
  lemma IntendedDecisionSkipsConsumed(coords: seq<string>, pathStr: string)
    ensures IntendedDecision(coords, pathStr) == Skip <==> pathStr in coords
    ensures IntendedDecision(coords, pathStr) == ApplyDefault <==> pathStr !in coords && !AnyStartsWith(coords, pathStr + ".")
    ensures (pathStr in coords <==> InArray(pathStr, |coords|)) ==> IntendedDecision(coords, pathStr) == ReconcileDecision(coords, pathStr)
    ensures IntendedDecision(["x"], "x") == Skip && IntendedDecision([], "map") == ApplyDefault
  {
    assert "x" in ["x"];
  }
}
