/**
 * The input-plan tree builder of the planner: turns the static type of an
 * argument and its AST value (a literal, a variable reference, or nothing)
 * into a tree of input plans, resolving variables against their
 * declarations and falling back to schema defaults.
 */
module InputPlans {
  import opened Wrappers
  import opened Schema

  /** AST type references as they appear in variable definitions. */
  datatype TypeNode = NamedType(name: string) | ListType(ofType: TypeNode) | NonNullType(ofType: TypeNode)

  /** AST values. */
  datatype ValueNode =
    | Variable(name: string)
    | NullValue
    | ListValue(values: seq<ValueNode>)
    | ObjectValue(fields: seq<ObjectFieldNode>)
    | ScalarValue(text: string)
    | EnumLiteral(symbol: string)

  datatype ObjectFieldNode = ObjectFieldNode(name: string, value: ValueNode)

  /** An `ArgumentNode`: a name and its AST value. Defaults are passed in this shape too. */
  datatype Argument = Argument(name: string, value: ValueNode)

  datatype VariableDefinition = VariableDefinition(name: string, typ: TypeNode)

  /**
   * What the builder reads from the planner: the schema's named types, the
   * operation's variable definitions, and the variables that the tracked
   * variable values plan knows to be undefined (`evalIs(undefined)`).
   */
  datatype Aether = Aether(
    schema: map<string, InputType>,
    variableDefinitions: Option<seq<VariableDefinition>>,
    undefinedVariables: set<string>)

  datatype TrackedRoot = VariableValues | FieldArguments
  datatype Key = Prop(name: string) | Index(index: int)

  /**
   * The input plan variants. `TrackedValue` is a `__TrackedObjectPlan` (a path
   * into the variable values or the field arguments), `ListPlan` an
   * `InputListPlan`, `StaticLeafPlan` and `ObjectPlan` the products of the
   * leaf and input-object constructors, `ObjectFieldPlan` the child an
   * object plan hands out from `get(name)`, and `ElementPlan` the entry a
   * list-like child of that kind hands out from `at(index)`.
   */
  datatype InputPlan =
    | TrackedValue(root: TrackedRoot, path: seq<Key>)
    | ListPlan(itemPlans: seq<InputPlan>, outOfBoundsPlan: InputPlan, inputValues: Option<Argument>)
    | StaticLeafPlan(leafType: InputType, leafValue: Option<Argument>)
    | ObjectPlan(objectType: InputType, objectValue: Option<Argument>)
    | ObjectFieldPlan(parent: InputPlan, fieldName: string)
    | ElementPlan(list: InputPlan, index: int)

  predicate IsVariable(a: Option<Argument>) {
    a.Some? && a.value.value.Variable?
  }

  predicate IsNullLiteral(a: Option<Argument>) {
    a.Some? && a.value.value.NullValue?
  }

  /** `inputValue ?? defaultValue` */
  function OrDefault(raw: Option<Argument>, defaultValue: Option<Argument>): Option<Argument> {
    if raw.Some? then raw else defaultValue
  }

  // ---------------------------------------------------------------------------
  // graphqlGetTypeForNode

  function GetTypeForNode(schema: map<string, InputType>, node: TypeNode): (r: Result<InputType, Error>)
  {
    match node
    case NamedType(name) =>
      if name in schema then Ok(schema[name]) else Err(TypeNotFound(name))
    case ListType(inner) =>
      var t :- GetTypeForNode(schema, inner);
      Ok(List(t))
    case NonNullType(inner) =>
      var t :- GetTypeForNode(schema, inner);
      Ok(NonNull(t))
  }

  function NamedTypeName(t: InputType): string
    requires IsNamed(t)
  {
    match t
    case Scalar(n, _) => n
    case Enum(n, _) => n
    case InputObject(n, _, _) => n
  }

  /** Every schema entry is a named type registered under its own name. */
  predicate SchemaConsistent(schema: map<string, InputType>) {
    forall k :: k in schema ==> IsNamed(schema[k]) && NamedTypeName(schema[k]) == k
  }

  /** The type reference that denotes `t`: the inverse of `GetTypeForNode`. */
  function NodeOfType(t: InputType): TypeNode {
    match t
    case NonNull(i) => NonNullType(NodeOfType(i))
    case List(i) => ListType(NodeOfType(i))
    case _ => NamedType(NamedTypeName(t))
  }

  predicate AllNamesIn(node: TypeNode, schema: map<string, InputType>) {
    match node
    case NamedType(name) => name in schema
    case ListType(i) => AllNamesIn(i, schema)
    case NonNullType(i) => AllNamesIn(i, schema)
  }

  /** Every named type inside `t` is the schema's type of that name. */
  predicate TypeInSchema(t: InputType, schema: map<string, InputType>) {
    match t
    case NonNull(i) => TypeInSchema(i, schema)
    case List(i) => TypeInSchema(i, schema)
    case _ => NamedTypeName(t) in schema && schema[NamedTypeName(t)] == t
  }

  /** Resolution succeeds exactly when every name is in the schema, and preserves the wrapper structure. */
  lemma {:induction false} GetTypeForNodePreservesStructure(schema: map<string, InputType>, node: TypeNode)
    requires SchemaConsistent(schema)
    ensures GetTypeForNode(schema, node).Ok? <==> AllNamesIn(node, schema)
    ensures GetTypeForNode(schema, node).Ok? ==>
      NodeOfType(GetTypeForNode(schema, node).value) == node
      && TypeInSchema(GetTypeForNode(schema, node).value, schema)
    ensures node.NamedType? && node.name !in schema ==> GetTypeForNode(schema, node) == Err(TypeNotFound(node.name))
  {
    match node
    case NamedType(name) =>
    case ListType(i) => GetTypeForNodePreservesStructure(schema, i);
    case NonNullType(i) => GetTypeForNodePreservesStructure(schema, i);
  }

  lemma {:induction false} GetTypeOfNodeOfType(schema: map<string, InputType>, t: InputType)
    requires TypeInSchema(t, schema)
    ensures GetTypeForNode(schema, NodeOfType(t)) == Ok(t)
  {
    match t
    case NonNull(i) => GetTypeOfNodeOfType(schema, i);
    case List(i) => GetTypeOfNodeOfType(schema, i);
    case _ =>
  }

  // ---------------------------------------------------------------------------
  // doTypesMatch

  function TypesMatch(a: InputType, b: InputType): bool {
    if a.NonNull? && b.NonNull? then TypesMatch(a.ofType, b.ofType)
    else if a.List? && b.List? then TypesMatch(a.ofType, b.ofType)
    else a == b
  }

  /** Types match exactly when they have the same wrappers around the same named type. */
  lemma {:induction false} TypesMatchIffEqual(a: InputType, b: InputType)
    ensures TypesMatch(a, b) <==> a == b
  {
    if a.NonNull? && b.NonNull? {
      TypesMatchIffEqual(a.ofType, b.ofType);
    } else if a.List? && b.List? {
      TypesMatchIffEqual(a.ofType, b.ofType);
    }
  }

  lemma {:induction false} TypesMatchReflexive(a: InputType)
    ensures TypesMatch(a, a)
  {
    TypesMatchIffEqual(a, a);
  }

  lemma {:induction false} TypesMatchSymmetric(a: InputType, b: InputType)
    ensures TypesMatch(a, b) == TypesMatch(b, a)
  {
    TypesMatchIffEqual(a, b);
    TypesMatchIffEqual(b, a);
  }

  // ---------------------------------------------------------------------------
  // inputPlan, inputVariablePlan, inputNonNullPlan, the InputListPlan node

  /** The first definition of the variable (`variableDefinitions?.find(...)`). */
  function FindVariableDefinition(defs: Option<seq<VariableDefinition>>, name: string): (r: Option<VariableDefinition>)
    ensures r.Some? ==> defs.Some? && r.value.name == name && r.value in defs.value
    ensures r.None? ==> defs.None? || forall d :: d in defs.value ==> d.name != name
    decreases if defs.Some? then |defs.value| else 0
  {
    if defs.None? || defs.value == [] then None
    else if defs.value[0].name == name then Some(defs.value[0])
    else FindVariableDefinition(Some(defs.value[1..]), name)
  }

  /** The definition found is the earliest one of that name. */
  lemma {:induction false} FindVariableDefinitionFirst(defs: seq<VariableDefinition>, name: string)
    ensures FindVariableDefinition(Some(defs), name).Some? ==>
      exists i :: 0 <= i < |defs| && defs[i] == FindVariableDefinition(Some(defs), name).value
        && forall j :: 0 <= j < i ==> defs[j].name != name
    decreases |defs|
  {
    if defs != [] && defs[0].name != name {
      var r := FindVariableDefinition(Some(defs), name);
      FindVariableDefinitionFirst(defs[1..], name);
      if r.Some? {
        var i :| 0 <= i < |defs[1..]| && defs[1..][i] == r.value && forall j :: 0 <= j < i ==> defs[1..][j].name != name;
        assert defs[i + 1] == r.value;
        forall j | 0 <= j < i + 1
          ensures defs[j].name != name
        {
          if j > 0 {
            assert defs[j] == defs[1..][j - 1];
          }
        }
      }
    }
  }

  /** The tracked plan of a variable: `trackedVariableValuesPlan.get(name)`. */
  function VariableValuePlan(name: string): InputPlan {
    TrackedValue(VariableValues, [Prop(name)])
  }

  function BuildInputPlan(aether: Aether, inputType: InputType, rawInputValue: Option<Argument>, defaultValue: Option<Argument>): (r: Result<InputPlan, Error>)
    ensures !IsVariable(rawInputValue) && !IsVariable(defaultValue) ==> r.Ok?
    decreases Size(inputType), if IsVariable(rawInputValue) then 2 else 0, 0
  {
    if IsVariable(rawInputValue) then
      var variableName := rawInputValue.value.value.name;
      match FindVariableDefinition(aether.variableDefinitions, variableName)
      case None => Err(NoVariableDefinition(variableName))
      case Some(definition) =>
        var variableType :- GetTypeForNode(aether.schema, definition.typ);
        VariablePlan(aether, variableName, variableType, inputType, defaultValue)
    else
      var inputValue := OrDefault(rawInputValue, defaultValue);
      match inputType
      case NonNull(innerType) =>
        var valuePlan :- BuildInputPlan(aether, innerType, inputValue, None);
        Ok(NonNullPlan(valuePlan))
      case List(innerType) => Ok(ListNode(aether, innerType, inputValue))
      case Scalar(_, _) => Ok(StaticLeafPlan(inputType, inputValue))
      case Enum(_, _) => Ok(StaticLeafPlan(inputType, inputValue))
      case InputObject(_, _, _) => Ok(ObjectPlan(inputType, inputValue))
  }

  function VariablePlan(aether: Aether, variableName: string, variableType: InputType, inputType: InputType, defaultValue: Option<Argument>): (r: Result<InputPlan, Error>)
    ensures !IsVariable(defaultValue) && TypesMatch(variableType, inputType) ==> r.Ok?
    decreases Size(inputType), 1, Size(variableType)
  {
    if variableType.NonNull? && !inputType.NonNull? then
      VariablePlan(aether, variableName, variableType.ofType, inputType, defaultValue)
    else if !TypesMatch(variableType, inputType) then
      Err(VariableTypeMismatch)
    else if defaultValue.None? || variableName !in aether.undefinedVariables then
      Ok(VariableValuePlan(variableName))
    else
      BuildInputPlan(aether, inputType, None, defaultValue)
  }

  /** `inputNonNullPlan`: a non-null wrapper contributes no node. */
  function NonNullPlan(innerPlan: InputPlan): InputPlan {
    innerPlan
  }

  /**
   * The node an `InputListPlan` constructor builds. As written, the loop reads
   * each entry from the argument node itself (`inputValues[index]`), which has
   * no index keys, so every item plan is built from `undefined`.
   */
  function ListNode(aether: Aether, innerType: InputType, inputValues: Option<Argument>): InputPlan
    decreases Size(innerType), 3, 0
  {
    var count := if inputValues.Some? && inputValues.value.value.ListValue? then |inputValues.value.value.values| else 0;
    var itemPlan := BuildInputPlan(aether, innerType, None, None).value;
    ListPlan(seq(count, _ => itemPlan), BuildInputPlan(aether, innerType, None, None).value, inputValues)
  }

  /** The number of entries of a list literal; zero for any other value kind. */
  function EntryCount(inputValues: Option<Argument>): nat {
    if inputValues.Some? && inputValues.value.value.ListValue? then |inputValues.value.value.values| else 0
  }

  /** A non-variable argument falls back to the default, and a non-null wrapper is exactly its inner plan. */
  lemma NonNullIsTransparent(aether: Aether, inner: InputType, raw: Option<Argument>, defaultValue: Option<Argument>)
    requires !IsVariable(raw)
    ensures BuildInputPlan(aether, NonNull(inner), raw, defaultValue) == BuildInputPlan(aether, inner, OrDefault(raw, defaultValue), None)
  {
  }

  lemma DefaultSubstituted(aether: Aether, t: InputType, defaultValue: Option<Argument>)
    requires !IsVariable(defaultValue)
    ensures BuildInputPlan(aether, t, None, defaultValue) == BuildInputPlan(aether, t, defaultValue, None)
  {
  }

  /**
   * A variable argument is resolved through its definition before any
   * default is considered: a missing definition is an error, an unknown type
   * name is an error, and otherwise the variable plan decides.
   */
  lemma VariableArgumentResolved(aether: Aether, t: InputType, raw: Option<Argument>, defaultValue: Option<Argument>)
    requires IsVariable(raw)
    ensures var name := raw.value.value.name;
      var def := FindVariableDefinition(aether.variableDefinitions, name);
      && (def.None? ==> BuildInputPlan(aether, t, raw, defaultValue) == Err(NoVariableDefinition(name)))
      && (def.Some? && GetTypeForNode(aether.schema, def.value.typ).Err? ==>
            BuildInputPlan(aether, t, raw, defaultValue).Err?)
      && (def.Some? && GetTypeForNode(aether.schema, def.value.typ).Ok? ==>
            BuildInputPlan(aether, t, raw, defaultValue)
            == VariablePlan(aether, name, GetTypeForNode(aether.schema, def.value.typ).value, t, defaultValue))
  {
  }

  /** No GraphQL type wraps a non-null type in another non-null type. */
  predicate NoDoubleNonNull(t: InputType) {
    match t
    case NonNull(i) => !i.NonNull? && NoDoubleNonNull(i)
    case List(i) => NoDoubleNonNull(i)
    case _ => true
  }

  /**
   * A variable is accepted exactly when its type equals the position's type,
   * or is the non-null form of a nullable position; once accepted, the plan is
   * the tracked variable unless a default exists and the variable is known to
   * be undefined, in which case it is the default's plan.
   */
  lemma {:induction false} VariablePlanOutcome(aether: Aether, name: string, vt: InputType, it: InputType, d: Option<Argument>)
    requires !IsVariable(d) && NoDoubleNonNull(vt)
    ensures VariablePlan(aether, name, vt, it, d).Ok? <==> (vt == it || (vt == NonNull(it) && !it.NonNull?))
    ensures VariablePlan(aether, name, vt, it, d).Err? ==> VariablePlan(aether, name, vt, it, d) == Err(VariableTypeMismatch)
    ensures VariablePlan(aether, name, vt, it, d).Ok? ==>
      VariablePlan(aether, name, vt, it, d).value ==
        if d.Some? && name in aether.undefinedVariables then BuildInputPlan(aether, it, d, None).value
        else VariableValuePlan(name)
  {
    DefaultSubstituted(aether, it, d);
    if vt.NonNull? && !it.NonNull? {
      TypesMatchIffEqual(vt.ofType, it);
      assert !vt.ofType.NonNull?;
    } else {
      TypesMatchIffEqual(vt, it);
      if vt.NonNull? {
        assert vt != NonNull(it) || it.NonNull?;
      }
    }
  }

  /** A non-null variable satisfies a nullable position of the same inner type. */
  lemma NonNullVariableForNullablePosition(aether: Aether, name: string, t: InputType, d: Option<Argument>)
    requires !t.NonNull? && !IsVariable(d)
    ensures VariablePlan(aether, name, NonNull(t), t, d) == VariablePlan(aether, name, t, t, d)
    ensures VariablePlan(aether, name, NonNull(t), t, d).Ok?
  {
    TypesMatchReflexive(t);
  }

  /** A nullable variable never satisfies a non-null position. */
  lemma NullableVariableForNonNullPosition(aether: Aether, name: string, t: InputType, d: Option<Argument>)
    requires !t.NonNull?
    ensures VariablePlan(aether, name, t, NonNull(t), d) == Err(VariableTypeMismatch)
  {
  }

  /**
   * A list node has one item plan per literal entry (none for any other value
   * kind), and, as written, every item plan is the out-of-bounds plan, built
   * from no value.
   */
  lemma ListNodeShape(aether: Aether, inner: InputType, inputValues: Option<Argument>)
    ensures ListNode(aether, inner, inputValues).ListPlan?
    ensures |ListNode(aether, inner, inputValues).itemPlans| == EntryCount(inputValues)
    ensures forall i :: 0 <= i < EntryCount(inputValues) ==>
      ListNode(aether, inner, inputValues).itemPlans[i] == ListNode(aether, inner, inputValues).outOfBoundsPlan
    ensures ListNode(aether, inner, inputValues).outOfBoundsPlan == BuildInputPlan(aether, inner, None, None).value
    ensures ListNode(aether, inner, inputValues).inputValues == inputValues
  {
  }

  // ---------------------------------------------------------------------------
  // Plan-time evaluation and the list node's `at`

  /**
   * What the plans this model does not construct report at plan time:
   * which children handed out by object plans carry `evalLength` at all
   * (`listLike`), what `evalLength()` returns, and `eval()` of every
   * non-list plan.
   */
  datatype Env = Env(listLike: set<InputPlan>, lengths: map<InputPlan, nat>, values: map<InputPlan, JsValue>)

  /** The plans whose class is not fixed by the model: children of object plans and their entries. */
  predicate IsOpaque(p: InputPlan) {
    p.ObjectFieldPlan? || p.ElementPlan?
  }

  /**
   * `"evalLength" in $value`: tracked plans always define it, the list node
   * and the leaf and input-object constructors' plans never do, and an
   * opaque plan does when the environment says so.
   */
  predicate HasEvalLength(env: Env, p: InputPlan) {
    p.TrackedValue? || (IsOpaque(p) && p in env.listLike)
  }

  /** `at(index)` of a list node: the item, or the one shared out-of-bounds plan. */
  function ListAt(p: InputPlan, index: int): (r: InputPlan)
    requires p.ListPlan?
    ensures 0 <= index < |p.itemPlans| ==> r == p.itemPlans[index]
    ensures !(0 <= index < |p.itemPlans|) ==> r == p.outOfBoundsPlan
  {
    if 0 <= index < |p.itemPlans| then p.itemPlans[index] else p.outOfBoundsPlan
  }

  /** `eval()`: a list node evaluates its items; other plans report their value. */
  function EvalPlan(env: Env, p: InputPlan): JsValue {
    match p
    case ListPlan(items, _, inputValues) =>
      if IsNullLiteral(inputValues) then Null
      else Arr(seq(|items|, i requires 0 <= i < |items| => EvalPlan(env, items[i])))
    case _ => if p in env.values then env.values[p] else Undefined
  }

  /** `evalLength()` of a plan that defines it: a length, or null. */
  function EvalLength(env: Env, p: InputPlan): Option<nat>
    requires HasEvalLength(env, p)
  {
    if p in env.lengths then Some(env.lengths[p]) else None
  }

  /** `at(i)` of a tracked plan. */
  function TrackedAt(p: InputPlan, i: int): (r: InputPlan)
    requires p.TrackedValue?
    ensures r.TrackedValue? && r.root == p.root && r.path == p.path + [Index(i)]
  {
    TrackedValue(p.root, p.path + [Index(i)])
  }

  /** `at(i)` of a plan that defines `evalLength`: a tracked path one index deeper, or the opaque entry. */
  function PlanAt(p: InputPlan, i: int): (r: InputPlan)
    requires p.TrackedValue? || IsOpaque(p)
    ensures p.TrackedValue? ==> r == TrackedAt(p, i)
    ensures IsOpaque(p) ==> r == ElementPlan(p, i) && IsOpaque(r)
  {
    if p.TrackedValue? then TrackedAt(p, i) else ElementPlan(p, i)
  }

  /** `get(name)`: tracked and object plans hand out children; lists and leaves have no `get`. */
  function GetChild(p: InputPlan, name: string): (r: Result<InputPlan, Error>)
    ensures r.Err? <==> p.ListPlan? || p.StaticLeafPlan?
    ensures p.TrackedValue? ==> r == Ok(TrackedValue(p.root, p.path + [Prop(name)]))
  {
    match p
    case TrackedValue(root, path) => Ok(TrackedValue(root, path + [Prop(name)]))
    case ObjectPlan(_, _) => Ok(ObjectFieldPlan(p, name))
    case ObjectFieldPlan(_, _) => Ok(ObjectFieldPlan(p, name))
    case ElementPlan(_, _) => Ok(ObjectFieldPlan(p, name))
    case _ => Err(NoGetMethod)
  }

  /** A literal `null` list evaluates to null; otherwise to one value per item plan. */
  lemma ListEvalShape(env: Env, p: InputPlan)
    requires p.ListPlan?
    ensures IsNullLiteral(p.inputValues) <==> EvalPlan(env, p) == Null
    ensures !IsNullLiteral(p.inputValues) ==>
      EvalPlan(env, p).Arr? && |EvalPlan(env, p).items| == |p.itemPlans|
      && forall i :: 0 <= i < |p.itemPlans| ==> EvalPlan(env, p).items[i] == EvalPlan(env, p.itemPlans[i])
  {
  }

  /** Reading past the literal entries always yields the same plan. */
  lemma OutOfBoundsShared(p: InputPlan, i: int, j: int)
    requires p.ListPlan?
    requires !(0 <= i < |p.itemPlans|) && !(0 <= j < |p.itemPlans|)
    ensures ListAt(p, i) == ListAt(p, j) == p.outOfBoundsPlan
  {
  }

  // ---------------------------------------------------------------------------
  // class InputListPlan

  /** An `InputListPlan`: item plans pushed one by one, and a shared out-of-bounds plan. */
  class InputListPlan {
    var itemPlans: seq<InputPlan>
    var outOfBoundsPlan: InputPlan
    const inputValues: Option<Argument>

    /** The node this object stands for. */
    function Node(): InputPlan
      reads this
    {
      ListPlan(itemPlans, outOfBoundsPlan, inputValues)
    }

    constructor (aether: Aether, inputType: InputType, inputValues: Option<Argument>)
      requires inputType.List?
      ensures Node() == ListNode(aether, inputType.ofType, inputValues)
    {
      var innerType := inputType.ofType;
      this.inputValues := inputValues;
      itemPlans := [];
      outOfBoundsPlan := BuildInputPlan(aether, innerType, None, None).value;
      new;
      if inputValues.Some? && inputValues.value.value.ListValue? {
        var values := inputValues.value.value.values;
        var inputValueIndex := 0;
        while inputValueIndex < |values|
          invariant 0 <= inputValueIndex <= |values|
          invariant itemPlans == seq(inputValueIndex, _ => BuildInputPlan(aether, innerType, None, None).value)
        {
          // The entry is read from the argument node, not from `values`: it is always undefined.
          var inputValue: Option<Argument> := None;
          var innerPlan := BuildInputPlan(aether, innerType, inputValue, None).value;
          itemPlans := itemPlans + [innerPlan];
          inputValueIndex := inputValueIndex + 1;
        }
      }
      outOfBoundsPlan := BuildInputPlan(aether, innerType, None, None).value;
    }

    method At(index: int) returns (p: InputPlan)
      ensures p == ListAt(Node(), index)
    {
      if 0 <= index < |itemPlans| {
        p := itemPlans[index];
      } else {
        p := outOfBoundsPlan;
      }
    }

    method Eval(env: Env) returns (r: JsValue)
      ensures r == EvalPlan(env, Node())
    {
      if IsNullLiteral(inputValues) {
        return Null;
      }
      var list := EvalItems(env);
      r := Arr(list);
    }

    /** The loop shared by `eval` and `execute`: each item plan's value, in index order. */
    method EvalItems(env: Env) returns (list: seq<JsValue>)
      ensures |list| == |itemPlans|
      ensures forall i :: 0 <= i < |itemPlans| ==> list[i] == EvalPlan(env, itemPlans[i])
    {
      var itemPlansLength := |itemPlans|;
      list := [];
      var itemPlanIndex := 0;
      while itemPlanIndex < itemPlansLength
        invariant 0 <= itemPlanIndex <= itemPlansLength
        invariant |list| == itemPlanIndex
        invariant forall i :: 0 <= i < itemPlanIndex ==> list[i] == EvalPlan(env, itemPlans[i])
      {
        var itemPlan := itemPlans[itemPlanIndex];
        list := list + [EvalPlan(env, itemPlan)];
        itemPlanIndex := itemPlanIndex + 1;
      }
    }

    /** Every row of the batch shares the one literal-derived result. */
    method Execute(env: Env, values: seq<seq<JsValue>>) returns (r: seq<JsValue>)
      ensures |r| == |values|
      ensures forall i :: 0 <= i < |values| ==> r[i] == EvalPlan(env, Node())
    {
      var eachResult: JsValue;
      if IsNullLiteral(inputValues) {
        eachResult := Null;
      } else {
        var list := EvalItems(env);
        eachResult := Arr(list);
      }
      r := seq(|values|, _ => eachResult);
    }
  }
}
