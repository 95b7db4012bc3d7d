/**
 * The GraphQL input types the planner walks, with the planning extensions
 * attached to them (`extensions.graphile.inputPlan` / `applyPlan`), and the
 * errors the planning layer raises.
 */
module Schema {
  import opened Wrappers

  /** A JavaScript value as an `eval()` call sees it at plan time. */
  datatype JsValue =
    | Undefined
    | Null
    | Bool(b: bool)
    | Int(i: int)
    | Str(s: string)
    | Arr(items: seq<JsValue>)

  /**
   * The `path` argument of `get`, `getRaw` and `apply`: left out, a single
   * name, or an array of names.
   */
  datatype PathArg = NoPath | Single(name: string) | Many(names: seq<string>)

  /** One call a resolver callback makes on the façade it is handed. */
  datatype Command =
    | GetCall(path: PathArg)
    | GetRawCall(path: PathArg)
    | ApplyCall(target: string, path: PathArg)

  /**
   * A user-supplied plan resolver. Its code is not visible: it is described by
   * the façade calls it makes, in order, and by whether it returns a plan
   * (a truthy value) or nothing.
   */
  datatype Resolver = Resolver(id: string, commands: seq<Command>, returnsPlan: bool)

  datatype InputType =
    | NonNull(ofType: InputType)
    | List(ofType: InputType)
    | Scalar(name: string, scalarInputPlan: Option<string>)
    | Enum(name: string, values: seq<EnumValue>)
    | InputObject(name: string, fields: seq<Field>, typeInputPlan: Option<Resolver>)

  /** An argument of a field, or a field of an input object. */
  datatype Field = Field(name: string, typ: InputType, inputPlan: Option<Resolver>, applyPlan: Option<Resolver>)

  /** An enum value; `applyPlan` names its side-effect resolver, if any. */
  datatype EnumValue = EnumValue(name: string, value: JsValue, applyPlan: Option<string>)

  datatype Error =
    | TypeNotFound(typeName: string)
    | NoVariableDefinition(variableName: string)
    | VariableTypeMismatch
    | InvalidPath
    | PathOnLeafOrList
    | NotAnInputObject
    | UnknownField(fieldName: string)       // JS TypeError: reading `.type` of undefined
    | NoGetMethod                           // JS TypeError: `$value.get` is not a function
    | NullFieldArgs                         // JS TypeError: a resolver used the `null` façade
    | GetWithoutPath
    | GetRawWithoutPath
    | ApplyWithoutPath
    | NotExecutablePlan
    | NoEvalLength
    | ReconcileNotInputObject
    | ReconcileDepth                        // never raised: the reconciliation budget is not exhausted

  /** `getNullableType`: strips one non-null wrapper. */
  function NullableType(t: InputType): (r: InputType)
    ensures !t.NonNull? ==> r == t
    ensures t.NonNull? ==> r == t.ofType
  {
    if t.NonNull? then t.ofType else t
  }

  /**
   * Stripping undoes one non-null wrapper, makes the type strictly smaller
   * exactly when there was one, and keeps the type well formed.
   */
  lemma NullableTypeUnwraps(t: InputType, u: InputType)
    ensures NullableType(NonNull(u)) == u
    ensures t.NonNull? <==> Size(NullableType(t)) < Size(t)
    ensures Size(NullableType(t)) <= Size(t)
    ensures WellFormedType(t) ==> WellFormedType(NullableType(t))
  {
  }

  predicate IsNamed(t: InputType) {
    t.Scalar? || t.Enum? || t.InputObject?
  }

  /** A measure of a type's nesting, used for termination. */
  function Size(t: InputType): nat
    decreases t, 1
  {
    match t
    case NonNull(i) => 1 + Size(i)
    case List(i) => 1 + Size(i)
    case InputObject(_, fs, _) => 1 + FieldsSize(fs)
    case _ => 1
  }

  function FieldsSize(fs: seq<Field>): nat
    decreases fs, 0
  {
    if fs == [] then 0 else Size(fs[0].typ) + FieldsSize(fs[1..])
  }

  lemma {:induction false} FieldSizeBelow(fs: seq<Field>, i: nat)
    requires i < |fs|
    ensures Size(fs[i].typ) <= FieldsSize(fs)
  {
    if i > 0 {
      FieldSizeBelow(fs[1..], i - 1);
      assert fs[1..][i - 1] == fs[i];
    }
  }

  /** The first field called `name` (`fields[name]` on a JavaScript object). */
  function FieldNamed(fs: seq<Field>, name: string): (r: Option<Field>)
    ensures r.Some? ==> r.value in fs && r.value.name == name
    ensures r.None? ==> forall f :: f in fs ==> f.name != name
  {
    if fs == [] then None
    else if fs[0].name == name then Some(fs[0])
    else FieldNamed(fs[1..], name)
  }

  lemma {:induction false} FieldNamedSmaller(fs: seq<Field>, name: string)
    requires FieldNamed(fs, name).Some?
    ensures Size(FieldNamed(fs, name).value.typ) <= FieldsSize(fs)
  {
    if fs[0].name != name {
      FieldNamedSmaller(fs[1..], name);
    }
  }

  /** `Object.keys(fields)`: the field names in declaration order. */
  function Names(fs: seq<Field>): (r: seq<string>)
    ensures |r| == |fs|
    ensures forall i :: 0 <= i < |fs| ==> r[i] == fs[i].name
  {
    if fs == [] then [] else [fs[0].name] + Names(fs[1..])
  }

  /**
   * A name a schema may give an argument or an input field: one the GraphQL
   * grammar admits (`/[_A-Za-z][_0-9A-Za-z]*\/`) and that does not start
   * with the `__` reserved for introspection, which schema validation rejects.
   */
  predicate ValidName(s: string) {
    && |s| > 0
    && !(|s| >= 2 && s[0] == '_' && s[1] == '_')
    && (s[0] == '_' || 'a' <= s[0] <= 'z' || 'A' <= s[0] <= 'Z')
    && forall i :: 0 <= i < |s| ==> s[i] == '_' || 'a' <= s[i] <= 'z' || 'A' <= s[i] <= 'Z' || '0' <= s[i] <= '9'
  }

  /** The keys of a JavaScript object: distinct valid names. */
  predicate WellFormedFields(fs: seq<Field>) {
    && (forall i :: 0 <= i < |fs| ==> ValidName(fs[i].name))
    && (forall i, j :: 0 <= i < j < |fs| ==> fs[i].name != fs[j].name)
  }

  /**
   * Every input-object field list reachable through wrappers is well formed:
   * the walkers only ever open the fields of the input object they reach.
   */
  predicate WellFormedType(t: InputType) {
    match t
    case NonNull(i) => WellFormedType(i)
    case List(i) => WellFormedType(i)
    case InputObject(_, fs, _) => WellFormedFields(fs)
    case _ => true
  }
}
