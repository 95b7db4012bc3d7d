/**
 * The meaning of the argument façade (`fieldArgs`) that planning code is
 * handed for a field's arguments or an input object's fields: what each
 * `get` / `getRaw` / `apply` call returns, which resolvers it invokes, and
 * which coordinates it records; what the reconciliation pass does after the
 * callback; and the two walkers that derive or apply a whole input value.
 *
 * Everything here is a function of the façade's fixed context and of the
 * coordinates recorded so far; the `Facade` class carries out the same steps
 * in place and is proved equal to these functions.
 */
module FacadeSpec {
  import opened Wrappers
  import opened Schema
  import opened InputPlans
  import opened Coordinates

  /**
   * A plan as planning code sees it. `InputStep` is an input plan used as a
   * plan, `ConstantNull` is `constant(null)`, `ListStep` is `list(entries)`,
   * `ObjectStep` is `object(obj)`, `Called` is whatever a resolver returned
   * (with the arguments it was given and the results of its own façade
   * calls), `External` a plan created elsewhere, `FieldMap` the plain object
   * `get()` returns, and `NoPlan` is `undefined`.
   */
  datatype Step =
    | InputStep(plan: InputPlan)
    | ConstantNull
    | ListStep(entries: seq<Step>)
    | ObjectStep(keys: seq<string>, values: seq<Step>)
    | FieldMap(keys: seq<string>, values: seq<Step>)
    | Called(resolver: string, args: seq<Step>, results: seq<Step>)
    | External(planName: string)
    | NoPlan

  predicate Truthy(s: Step) { !s.NoPlan? }

  /** `assertExecutablePlan`: `undefined` and a plain object are not plans. */
  predicate IsExecutablePlan(s: Step) { !s.NoPlan? && !s.FieldMap? }

  /** A resolver was invoked with these plans (besides its façade). */
  datatype Effect = Invoked(resolver: string, args: seq<Step>)

  /** `$current`: the tracked field arguments, or an input plan. */
  datatype Current = AllArguments | CurrentPlan(plan: InputPlan)

  /** What a façade is created with: `type`, `parentPlan`, `$current`, `fields`, and plan-time values. */
  datatype Ctx = Ctx(typ: Option<InputType>, parentPlan: Step, current: Current, fields: Option<seq<Field>>, env: Env)

  /**
   * What `getArgOnceOnly` returns: the value plan, the last field and its
   * nullable type; or, for a one-segment path naming a member the argument
   * object inherits, the value plan and the member's name. Such a member has
   * neither a type nor resolvers.
   */
  datatype Details =
    | Details(value: InputPlan, argOrField: Field, typ: InputType)
    | InheritedDetails(value: InputPlan, key: string)

  /** What `fields[name]` gives: a declared argument or input field, or a member inherited from `Object.prototype`. */
  datatype Member = Declared(field: Field) | Inherited(key: string)

  /** A call's outcome (a value or the exception it throws) and the resolvers it invoked. */
  datatype Reply = Reply(result: Result<Step, Error>, effects: seq<Effect>)

  /** A call's outcome, invoked resolvers, and the façade's coordinates afterwards. */
  datatype Trace = Trace(result: Result<Step, Error>, effects: seq<Effect>, coords: seq<string>)

  /** The same for a resolver script: the results of all its calls. */
  datatype ScriptTrace = ScriptTrace(results: Result<seq<Step>, Error>, effects: seq<Effect>, coords: seq<string>)

  /**
   * The callback a façade is handed: a user resolver called with `args`
   * and the façade, or `defaultInputObjectTypeInputPlanResolver` for an
   * input object with these fields.
   */
  datatype Callback = UserCallback(resolver: Resolver, args: seq<Step>) | DefaultObjectCallback(objectFields: seq<Field>)

  /** Field names are GraphQL names, and a façade's type is well formed. */
  predicate CtxOk(ctx: Ctx) {
    && (ctx.fields.Some? ==> WellFormedFields(ctx.fields.value))
    && (ctx.typ.Some? ==> WellFormedType(ctx.typ.value))
  }

  /** A façade with a type may run the walkers over it; one without a type never does. */
  function Rank(ctx: Ctx): nat {
    if ctx.typ.None? then 0 else Size(ctx.typ.value) + 1
  }

  // ---------------------------------------------------------------------------
  // getArgOnceOnly

  /** `$current.get(name)` */
  function CurrentGet(current: Current, name: string): (r: Result<InputPlan, Error>)
    ensures current.AllArguments? ==> r == Ok(TrackedValue(FieldArguments, [Prop(name)]))
  {
    match current
    case AllArguments => Ok(TrackedValue(FieldArguments, [Prop(name)]))
    case CurrentPlan(p) => GetChild(p, name)
  }

  /** `$current as InputPlan` */
  function AsInputPlan(current: Current): InputPlan {
    match current
    case AllArguments => TrackedValue(FieldArguments, [])
    case CurrentPlan(p) => p
  }

  /**
   * The properties every plain object inherits from `Object.prototype`
   * (section 20.1.3 of ECMA-262 and its Annex B.2.2).
   */
  predicate IsObjectPrototypeKey(name: string) {
    name in {"constructor", "hasOwnProperty", "isPrototypeOf", "propertyIsEnumerable", "toLocaleString", "toString", "valueOf",
             "__proto__", "__defineGetter__", "__defineSetter__", "__lookupGetter__", "__lookupSetter__"}
  }

  /**
   * The façade over `$all` is the one `withFieldArgsForArguments` builds, and
   * its `fields` is a plain object literal, which inherits `Object.prototype`.
   * Every other façade is handed an input object's `getFields()`, which has
   * no prototype.
   */
  predicate InheritsObjectPrototype(current: Current) {
    current.AllArguments?
  }

  /**
   * `fields[argName]` followed by `.type`: a declared key gives its field, an
   * inherited member gives that member, and reading the type of a missing
   * key throws.
   */
  function MemberLookup(fs: seq<Field>, inherits: bool, name: string): (r: Result<Member, Error>)
    ensures r.Ok? && r.value.Declared? ==> r.value.field in fs && r.value.field.name == name
    ensures (r.Ok? && r.value.Inherited?) <==> inherits && IsObjectPrototypeKey(name) && forall f :: f in fs ==> f.name != name
    ensures r.Ok? && r.value.Inherited? ==> r.value.key == name
    ensures r.Err? <==> !(inherits && IsObjectPrototypeKey(name)) && forall f :: f in fs ==> f.name != name
    ensures r.Err? ==> r.error == UnknownField(name)
  {
    match FieldNamed(fs, name)
    case Some(f) => Ok(Declared(f))
    case None => if inherits && IsObjectPrototypeKey(name) then Ok(Inherited(name)) else Err(UnknownField(name))
  }

  /** `type.getFields()[name].type`: reading the type of a missing field throws. */
  function FieldLookup(fs: seq<Field>, name: string): (r: Result<Field, Error>)
    ensures r.Ok? ==> r.value in fs && r.value.name == name
    ensures r.Err? <==> forall f :: f in fs ==> f.name != name
  {
    match FieldNamed(fs, name)
    case Some(f) => Ok(f)
    case None => Err(UnknownField(name))
  }

  /** The value plan, field and nullable type reached by a path, or the exception on the way. */
  function Traverse(fields: Option<seq<Field>>, current: Current, path: seq<string>): (r: Result<Details, Error>)
    ensures |path| == 0 ==> r == Err(InvalidPath)
    ensures |path| > 0 && fields.None? ==> r == Err(PathOnLeafOrList)
  {
    if |path| < 1 then Err(InvalidPath)
    else if fields.None? then Err(PathOnLeafOrList)
    else
      var value :- CurrentGet(current, path[0]);
      var member :- MemberLookup(fields.value, InheritsObjectPrototype(current), path[0]);
      match member
      case Declared(field) => TraverseFrom(value, field, path[1..])
      case Inherited(key) => if |path| == 1 then Ok(InheritedDetails(value, key)) else Err(NotAnInputObject)
  }

  /** The loop of `getArgOnceOnly`: one more segment below `field` per step. */
  function TraverseFrom(value: InputPlan, field: Field, rest: seq<string>): (r: Result<Details, Error>)
    decreases |rest|
  {
    var typ := NullableType(field.typ);
    if rest == [] then Ok(Details(value, field, typ))
    else if !typ.InputObject? then Err(NotAnInputObject)
    else
      var child :- GetChild(value, rest[0]);
      var next :- FieldLookup(typ.fields, rest[0]);
      TraverseFrom(child, next, rest[1..])
  }

  /** The coordinates after `getArgOnceOnly(path)`: the dotted path is added once. */
  function Recorded(fields: Option<seq<Field>>, coords: seq<string>, path: seq<string>): seq<string> {
    if |path| >= 1 && fields.Some? then Record(coords, Join(path)) else coords
  }

  // ---------------------------------------------------------------------------
  // planArgumentOrInputField

  /**
   * The resolver consulted: `applyPlan` when there is a plan to apply to,
   * else `inputPlan`; an inherited member has no `extensions`, so none.
   */
  function ResolverFor(details: Details, toPlan: Step): Option<Resolver> {
    if details.InheritedDetails? then None
    else if Truthy(toPlan) then details.argOrField.applyPlan
    else details.argOrField.inputPlan
  }

  /**
   * The plans a resolver is called with besides its façade: the argument
   * signatures, chosen because the façade has no `type`, lead with the
   * parent plan; the apply signatures add the plan applied to.
   */
  function ResolverArgs(facadeType: Option<InputType>, parentPlan: Step, toPlan: Step): (r: seq<Step>)
    ensures |r| == (if facadeType.None? then 1 else 0) + (if Truthy(toPlan) then 1 else 0)
    ensures facadeType.None? ==> r[0] == parentPlan
    ensures Truthy(toPlan) ==> r[|r| - 1] == toPlan
  {
    if facadeType.None? then (if Truthy(toPlan) then [parentPlan, toPlan] else [parentPlan])
    else (if Truthy(toPlan) then [toPlan] else [])
  }

  /**
   * A resolver run through `withFieldArgsForArgOrField`, which hands it
   * `null` instead of a façade: any call it makes on that façade throws.
   */
  function InvokeWithNullFacade(r: Resolver, args: seq<Step>): (rep: Reply)
    ensures rep.effects == [Invoked(r.id, args)]
    ensures rep.result.Err? <==> |r.commands| > 0
    ensures rep.result.Err? ==> rep.result.error == NullFieldArgs
    ensures rep.result.Ok? ==> (Truthy(rep.result.value) <==> r.returnsPlan)
  {
    var result :=
      if |r.commands| > 0 then Err(NullFieldArgs)
      else if r.returnsPlan then Ok(Called(r.id, args, []))
      else Ok(NoPlan);
    Reply(result, [Invoked(r.id, args)])
  }

  function PlanArgumentOrInputField(ctx: Ctx, details: Details, toPlan: Step): (rep: Reply)
    ensures ResolverFor(details, toPlan).None? ==> rep == Reply(Ok(InputStep(details.value)), [])
    ensures ResolverFor(details, toPlan).Some? ==>
      rep.effects == [Invoked(ResolverFor(details, toPlan).value.id, ResolverArgs(ctx.typ, ctx.parentPlan, toPlan))]
  {
    var resolver := ResolverFor(details, toPlan);
    if resolver.None? then Reply(Ok(InputStep(details.value)), [])
    else InvokeWithNullFacade(resolver.value, ResolverArgs(ctx.typ, ctx.parentPlan, toPlan))
  }

  /** `get(path)` for a path that names something. */
  function GetAtSpec(ctx: Ctx, path: seq<string>): (rep: Reply)
    ensures rep.result.Ok? ==> IsExecutablePlan(rep.result.value)
    ensures Traverse(ctx.fields, ctx.current, path).Err? ==> rep == Reply(Err(Traverse(ctx.fields, ctx.current, path).error), [])
  {
    match Traverse(ctx.fields, ctx.current, path)
    case Err(e) => Reply(Err(e), [])
    case Ok(d) =>
      var rep := PlanArgumentOrInputField(ctx, d, NoPlan);
      if rep.result.Ok? && !IsExecutablePlan(rep.result.value) then Reply(Err(NotExecutablePlan), rep.effects)
      else rep
  }

  /** `apply($target, path)` for a path that names something. */
  function ApplyAtSpec(ctx: Ctx, target: Step, path: seq<string>): (rep: Reply) {
    match Traverse(ctx.fields, ctx.current, path)
    case Err(e) => Reply(Err(e), [])
    case Ok(d) => PlanArgumentOrInputField(ctx, d, target)
  }

  // ---------------------------------------------------------------------------
  // The path argument

  /** `!path || (Array.isArray(path) && path.length === 0)` */
  predicate OmitsPath(p: PathArg) {
    p.NoPath? || p == Single("") || p == Many([])
  }

  /** `Array.isArray(inPath) ? inPath : [inPath]` */
  function PathOf(p: PathArg): (r: seq<string>)
    requires !OmitsPath(p)
    ensures |r| > 0
  {
    if p.Single? then [p.name] else p.names
  }

  // ---------------------------------------------------------------------------
  // Loops over the façade's fields

  /** `get(name)` for each name in turn, collected under the names; stops at the first exception. */
  function GetAllFrom(ctx: Ctx, coords: seq<string>, names: seq<string>, i: nat, acc: seq<Step>, effects: seq<Effect>): (r: Trace)
    requires i <= |names|
    ensures r.result.Ok? ==> r.result.value.FieldMap? && r.result.value.keys == names
    ensures r.result.Ok? ==> |r.result.value.values| == |acc| + |names| - i
    decreases |names| - i
  {
    if i == |names| then Trace(Ok(FieldMap(names, acc)), effects, coords)
    else
      var rep := GetAtSpec(ctx, [names[i]]);
      var next := Recorded(ctx.fields, coords, [names[i]]);
      if rep.result.Err? then Trace(rep.result, effects + rep.effects, next)
      else GetAllFrom(ctx, next, names, i + 1, acc + [rep.result.value], effects + rep.effects)
  }

  /** `apply($target, name)` for each name in turn; stops at the first exception. */
  function ApplyAllFrom(ctx: Ctx, coords: seq<string>, target: Step, names: seq<string>, i: nat, effects: seq<Effect>): (r: Trace)
    requires i <= |names|
    ensures r.result.Ok? ==> r.result.value == NoPlan
    decreases |names| - i
  {
    if i == |names| then Trace(Ok(NoPlan), effects, coords)
    else
      var rep := ApplyAtSpec(ctx, target, [names[i]]);
      var next := Recorded(ctx.fields, coords, [names[i]]);
      if rep.result.Err? then Trace(rep.result, effects + rep.effects, next)
      else ApplyAllFrom(ctx, next, target, names, i + 1, effects + rep.effects)
  }

  /** One name of `ApplyAllFrom`: its application, then the rest unless it threw. */
  lemma ApplyAllStep(ctx: Ctx, coords: seq<string>, target: Step, names: seq<string>, i: nat, effects: seq<Effect>, rep: Reply)
    requires i < |names| && rep == ApplyAtSpec(ctx, target, [names[i]])
    ensures ApplyAllFrom(ctx, coords, target, names, i, effects) ==
      if rep.result.Err? then Trace(rep.result, effects + rep.effects, Recorded(ctx.fields, coords, [names[i]]))
      else ApplyAllFrom(ctx, Recorded(ctx.fields, coords, [names[i]]), target, names, i + 1, effects + rep.effects)
  {
  }

  // ---------------------------------------------------------------------------
  // The façade calls, the callback, and reconciliation

  function GetSpec(ctx: Ctx, coords: seq<string>, p: PathArg): Trace
    requires CtxOk(ctx)
    decreases Rank(ctx), 3, 0, 0
  {
    if OmitsPath(p) then
      var pushed := coords + [""];
      if ctx.fields.Some? then GetAllFrom(ctx, pushed, Names(ctx.fields.value), 0, [], [])
      else if ctx.typ.None? then Trace(Err(GetWithoutPath), [], pushed)
      else
        var rep := PlannedValueSpec(ctx.parentPlan, ctx.env, AsInputPlan(ctx.current), ctx.typ.value);
        Trace(rep.result, rep.effects, pushed)
    else
      var path := PathOf(p);
      var rep := GetAtSpec(ctx, path);
      Trace(rep.result, rep.effects, Recorded(ctx.fields, coords, path))
  }

  function GetRawSpec(ctx: Ctx, coords: seq<string>, p: PathArg): (r: Trace)
    ensures r.effects == []
  {
    if OmitsPath(p) then
      var pushed := coords + [""];
      match ctx.current
      case CurrentPlan(plan) => Trace(Ok(InputStep(plan)), [], pushed)
      case AllArguments => Trace(Err(GetRawWithoutPath), [], pushed)
    else
      var path := PathOf(p);
      var next := Recorded(ctx.fields, coords, path);
      match Traverse(ctx.fields, ctx.current, path)
      case Ok(d) => Trace(Ok(InputStep(d.value)), [], next)
      case Err(e) => Trace(Err(e), [], next)
  }

  function ApplySpec(ctx: Ctx, coords: seq<string>, target: Step, p: PathArg): Trace
    requires CtxOk(ctx)
    decreases Rank(ctx), 3, 0, 0
  {
    if OmitsPath(p) then
      var pushed := coords + [""];
      if ctx.fields.Some? then ApplyAllFrom(ctx, pushed, target, Names(ctx.fields.value), 0, [])
      else if ctx.typ.None? then Trace(Err(ApplyWithoutPath), [], pushed)
      else
        var rep := ApplyPlannedValueSpec(ctx.parentPlan, ctx.env, AsInputPlan(ctx.current), ctx.typ.value, target);
        Trace(rep.result, rep.effects, pushed)
    else
      var path := PathOf(p);
      var rep := ApplyAtSpec(ctx, target, path);
      Trace(rep.result, rep.effects, Recorded(ctx.fields, coords, path))
  }

  function CommandSpec(ctx: Ctx, coords: seq<string>, cmd: Command): Trace
    requires CtxOk(ctx)
    decreases Rank(ctx), 3, 1, 0
  {
    match cmd
    case GetCall(p) => GetSpec(ctx, coords, p)
    case GetRawCall(p) => GetRawSpec(ctx, coords, p)
    case ApplyCall(target, p) => ApplySpec(ctx, coords, External(target), p)
  }

  /** A resolver's calls on its façade, in order; the first exception ends the script. */
  function ScriptFrom(ctx: Ctx, coords: seq<string>, cmds: seq<Command>, i: nat, results: seq<Step>, effects: seq<Effect>): (r: ScriptTrace)
    requires CtxOk(ctx) && i <= |cmds|
    decreases Rank(ctx), 4, |cmds| - i, 0
  {
    if i == |cmds| then ScriptTrace(Ok(results), effects, coords)
    else
      var t := CommandSpec(ctx, coords, cmds[i]);
      if t.result.Err? then ScriptTrace(Err(t.result.error), effects + t.effects, t.coords)
      else ScriptFrom(ctx, t.coords, cmds, i + 1, results + [t.result.value], effects + t.effects)
  }

  /** `callback(fieldArgs)` */
  function InvokeSpec(ctx: Ctx, coords: seq<string>, cb: Callback): Trace
    requires CtxOk(ctx)
    decreases Rank(ctx), 5, 0, 0
  {
    match cb
    case UserCallback(r, args) =>
      var s := ScriptFrom(ctx, coords, r.commands, 0, [], [Invoked(r.id, args)]);
      if s.results.Err? then Trace(Err(s.results.error), s.effects, s.coords)
      else Trace(Ok(if r.returnsPlan then Called(r.id, args, s.results.value) else NoPlan), s.effects, s.coords)
    case DefaultObjectCallback(objectFields) =>
      var t := GetAllFrom(ctx, coords, Names(objectFields), 0, [], []);
      if t.result.Err? then t
      else Trace(Ok(ObjectStep(Names(objectFields), t.result.value.values)), t.effects, t.coords)
  }

  /**
   * `withFieldArgsForArgumentsOrInputObject`: run the callback, then, if it
   * returned a plan and nothing read the whole input, apply what it left
   * alone; the result is the callback's plan.
   */
  function RunSpec(ctx: Ctx, coords: seq<string>, cb: Callback): Trace
    requires CtxOk(ctx)
    decreases Rank(ctx), 6, 0, 0
  {
    var t := InvokeSpec(ctx, coords, cb);
    if t.result.Err? then t
    else
      var plan := t.result.value;
      if !Truthy(plan) || "" in t.coords then t
      else if ctx.fields.None? then
        var a := ApplySpec(ctx, t.coords, plan, NoPath);
        Trace(if a.result.Err? then a.result else Ok(plan), t.effects + a.effects, a.coords)
      else
        var p := ProcessFrom(ctx, t.coords, [], plan, 0, Longest(t.coords), []);
        Trace(if p.result.Err? then p.result else Ok(plan), t.effects + p.effects, p.coords)
  }

  /** The three choices of the reconciliation pass for one field. */
  datatype Decision = Skip | Descend | ApplyDefault

  /**
   * `pathStr in analyzedCoordinates` is JavaScript's `in` on an array: it
   * tests the array's property keys, not its elements.
   */
  function ReconcileDecision(coords: seq<string>, pathStr: string): Decision {
    if InArray(pathStr, |coords|) then Skip
    else if AnyStartsWith(coords, pathStr + ".") then Descend
    else ApplyDefault
  }

  /**
   * `process(layerFields, parentPath)` from the `k`-th field on. As written
   * it walks the façade's own `fields` at every depth; `layerFields` is not
   * read. `budget` bounds the length of the coordinates still to be
   * descended into, so that the descent terminates; from the budget
   * `RunSpec` starts with it is never exhausted (`ReconcileProperties`).
   */
  function ProcessFrom(ctx: Ctx, coords: seq<string>, parentPath: seq<string>, plan: Step, k: nat, budget: nat, effects: seq<Effect>): (r: Trace)
    requires CtxOk(ctx) && ctx.fields.Some? && k <= |ctx.fields.value|
    decreases Rank(ctx), 2, budget, 3 * (|ctx.fields.value| - k) + 2
  {
    var fs := ctx.fields.value;
    if k == |fs| then Trace(Ok(NoPlan), effects, coords)
    else
      match ReconcileDecision(coords, Join(parentPath + [fs[k].name]))
      case Skip => ProcessFrom(ctx, coords, parentPath, plan, k + 1, budget, effects)
      case Descend => DescendInto(ctx, coords, parentPath, plan, k, budget, effects)
      case ApplyDefault => ApplyToField(ctx, coords, parentPath, plan, k, budget, effects)
  }

  /** Something below the `k`-th field was read: reconcile that field's own fields, then go on. */
  function DescendInto(ctx: Ctx, coords: seq<string>, parentPath: seq<string>, plan: Step, k: nat, budget: nat, effects: seq<Effect>): (r: Trace)
    requires CtxOk(ctx) && ctx.fields.Some? && k < |ctx.fields.value|
    decreases Rank(ctx), 2, budget, 3 * (|ctx.fields.value| - k) + 1
  {
    var field := ctx.fields.value[k];
    if !NullableType(field.typ).InputObject? then Trace(Err(ReconcileNotInputObject), effects, coords)
    else if budget < |field.name| + 1 then Trace(Err(ReconcileDepth), effects, coords)
    else
      var child := ProcessFrom(ctx, coords, parentPath + [field.name], plan, 0, budget - |field.name| - 1, []);
      ContinueAfter(ctx, child, parentPath, plan, k, budget, effects)
  }

  /** Nothing at or below the `k`-th field was read: apply the plan to it, then go on. */
  function ApplyToField(ctx: Ctx, coords: seq<string>, parentPath: seq<string>, plan: Step, k: nat, budget: nat, effects: seq<Effect>): (r: Trace)
    requires CtxOk(ctx) && ctx.fields.Some? && k < |ctx.fields.value|
    decreases Rank(ctx), 2, budget, 3 * (|ctx.fields.value| - k) + 1
  {
    var newPath := parentPath + [ctx.fields.value[k].name];
    var rep := ApplyAtSpec(ctx, plan, newPath);
    ContinueAfter(ctx, Trace(rep.result, rep.effects, Recorded(ctx.fields, coords, newPath)), parentPath, plan, k, budget, effects)
  }

  /** After the `k`-th field's step `step`: stop at its exception, or go on with the next field. */
  function ContinueAfter(ctx: Ctx, step: Trace, parentPath: seq<string>, plan: Step, k: nat, budget: nat, effects: seq<Effect>): (r: Trace)
    requires CtxOk(ctx) && ctx.fields.Some? && k < |ctx.fields.value|
    decreases Rank(ctx), 2, budget, 3 * (|ctx.fields.value| - k)
  {
    if step.result.Err? then Trace(step.result, effects + step.effects, step.coords)
    else ProcessFrom(ctx, step.coords, parentPath, plan, k + 1, budget, effects + step.effects)
  }

  /** Descending into an input-object field whose own pass is `child`. */
  lemma DescendStep(ctx: Ctx, coords: seq<string>, parentPath: seq<string>, plan: Step, k: nat, budget: nat, effects: seq<Effect>, name: string, child: Trace)
    requires CtxOk(ctx) && ctx.fields.Some? && k < |ctx.fields.value| && ctx.fields.value[k].name == name
    requires NullableType(ctx.fields.value[k].typ).InputObject? && |name| + 1 <= budget
    requires child == ProcessFrom(ctx, coords, parentPath + [name], plan, 0, budget - |name| - 1, [])
    ensures DescendInto(ctx, coords, parentPath, plan, k, budget, effects) == ContinueAfter(ctx, child, parentPath, plan, k, budget, effects)
  {
  }

  // ---------------------------------------------------------------------------
  // The walkers: getPlannedValue and applyPlannedValue

  /** `getPlannedValue($value, type)` */
  function PlannedValueSpec(parentPlan: Step, env: Env, value: InputPlan, t: InputType): Reply
    requires WellFormedType(t)
    decreases Size(t), 1, 0, 0
  {
    match t
    case NonNull(inner) => PlannedValueSpec(parentPlan, env, value, inner)
    case List(_) =>
      if !HasEvalLength(env, value) then Reply(Err(NoEvalLength), [])
      else
        (match EvalLength(env, value)
         case None => Reply(Ok(ConstantNull), [])
         case Some(l) => PlannedEntriesFrom(parentPlan, env, value, t, l, 0, [], []))
    case InputObject(_, fs, typeInputPlan) =>
      var cb := if typeInputPlan.Some? then UserCallback(typeInputPlan.value, []) else DefaultObjectCallback(fs);
      var run := RunSpec(Ctx(None, parentPlan, CurrentPlan(value), Some(fs), env), [], cb);
      Reply(run.result, run.effects)
    case Scalar(_, scalarInputPlan) =>
      if scalarInputPlan.Some? then
        Reply(Ok(Called(scalarInputPlan.value, [InputStep(value)], [])), [Invoked(scalarInputPlan.value, [InputStep(value)])])
      else Reply(Ok(InputStep(value)), [])
    case Enum(_, _) => Reply(Ok(InputStep(value)), [])
  }

  /** The entries `getPlannedValue($value.at(i), ofType)` for `i` from `i` to `l - 1`. */
  function PlannedEntriesFrom(parentPlan: Step, env: Env, value: InputPlan, t: InputType, l: nat, i: nat, acc: seq<Step>, effects: seq<Effect>): (r: Reply)
    requires t.List? && WellFormedType(t) && HasEvalLength(env, value) && i <= l
    ensures r.result.Ok? ==> r.result.value.ListStep? && |r.result.value.entries| == |acc| + l - i
    decreases Size(t), 0, l - i, 0
  {
    if i == l then Reply(Ok(ListStep(acc)), effects)
    else
      var e := PlannedValueSpec(parentPlan, env, PlanAt(value, i), t.ofType);
      if e.result.Err? then Reply(e.result, effects + e.effects)
      else PlannedEntriesFrom(parentPlan, env, value, t, l, i + 1, acc + [e.result.value], effects + e.effects)
  }

  /** The first enum value equal to `value` (`getValues().find(...)`). */
  function FindEnumValue(values: seq<EnumValue>, value: JsValue): (r: Option<EnumValue>)
    ensures r.Some? ==> r.value in values && r.value.value == value
    ensures r.None? ==> forall v :: v in values ==> v.value != value
  {
    if values == [] then None
    else if values[0].value == value then Some(values[0])
    else FindEnumValue(values[1..], value)
  }

  /** `applyPlannedValue($value, type, $toPlan)` */
  function ApplyPlannedValueSpec(parentPlan: Step, env: Env, value: InputPlan, t: InputType, target: Step): (r: Reply)
    requires WellFormedType(t)
    ensures r.result.Ok? ==> r.result.value == NoPlan
    decreases Size(t), 1, 0, 0
  {
    match t
    case NonNull(inner) => ApplyPlannedValueSpec(parentPlan, env, value, inner, target)
    case List(_) =>
      if !HasEvalLength(env, value) then Reply(Err(NoEvalLength), [])
      else
        (match EvalLength(env, value)
         case None => Reply(Ok(NoPlan), [])
         case Some(l) => ApplyEntriesFrom(parentPlan, env, value, t, target, l, 0, []))
    case InputObject(_, fs, _) => ApplyObjectFieldsFrom(parentPlan, env, value, t, target, 0, [])
    case Scalar(_, _) => Reply(Ok(NoPlan), [])
    case Enum(_, values) =>
      var found := FindEnumValue(values, EvalPlan(env, value));
      if found.Some? && found.value.applyPlan.Some? then Reply(Ok(NoPlan), [Invoked(found.value.applyPlan.value, [target])])
      else Reply(Ok(NoPlan), [])
  }

  function ApplyEntriesFrom(parentPlan: Step, env: Env, value: InputPlan, t: InputType, target: Step, l: nat, i: nat, effects: seq<Effect>): (r: Reply)
    requires t.List? && WellFormedType(t) && HasEvalLength(env, value) && i <= l
    ensures r.result.Ok? ==> r.result.value == NoPlan
    decreases Size(t), 0, l - i, 0
  {
    if i == l then Reply(Ok(NoPlan), effects)
    else
      var e := ApplyPlannedValueSpec(parentPlan, env, PlanAt(value, i), t.ofType, target);
      if e.result.Err? then Reply(e.result, effects + e.effects)
      else ApplyEntriesFrom(parentPlan, env, value, t, target, l, i + 1, effects + e.effects)
  }

  /** Each field of the input object with an `applyPlan`, in order, through a fresh façade over `$value`. */
  function ApplyObjectFieldsFrom(parentPlan: Step, env: Env, value: InputPlan, t: InputType, target: Step, k: nat, effects: seq<Effect>): (r: Reply)
    requires t.InputObject? && WellFormedType(t) && k <= |t.fields|
    ensures r.result.Ok? ==> r.result.value == NoPlan
    decreases Size(t), 0, |t.fields| - k, 1
  {
    ApplyObjectFieldAt(parentPlan, env, value, t, target, NextWithApplyPlan(t.fields, k), effects)
  }

  /** The `j`-th field, which has an `applyPlan` unless `j` is past the last field, and the fields after it. */
  function ApplyObjectFieldAt(parentPlan: Step, env: Env, value: InputPlan, t: InputType, target: Step, j: nat, effects: seq<Effect>): (r: Reply)
    requires t.InputObject? && WellFormedType(t) && j <= |t.fields|
    requires j < |t.fields| ==> t.fields[j].applyPlan.Some?
    ensures r.result.Ok? ==> r.result.value == NoPlan
    decreases Size(t), 0, |t.fields| - j, 0
  {
    var fs := t.fields;
    if j == |fs| then Reply(Ok(NoPlan), effects)
    else
      var run := RunSpec(Ctx(None, parentPlan, CurrentPlan(value), Some(fs), env), [], UserCallback(fs[j].applyPlan.value, [target]));
      if run.result.Err? then Reply(run.result, effects + run.effects)
      else ApplyObjectFieldsFrom(parentPlan, env, value, t, target, j + 1, effects + run.effects)
  }

  /** After the last field nothing is left to apply. */
  lemma ObjectFieldsDone(parentPlan: Step, env: Env, value: InputPlan, t: InputType, target: Step, effects: seq<Effect>)
    requires t.InputObject? && WellFormedType(t)
    ensures ApplyObjectFieldsFrom(parentPlan, env, value, t, target, |t.fields|, effects) == Reply(Ok(NoPlan), effects)
  {
  }

  /** A field without an `applyPlan` is passed over. */
  lemma ObjectFieldWithoutResolver(parentPlan: Step, env: Env, value: InputPlan, t: InputType, target: Step, k: nat, effects: seq<Effect>)
    requires t.InputObject? && WellFormedType(t) && k < |t.fields| && t.fields[k].applyPlan.None?
    ensures ApplyObjectFieldsFrom(parentPlan, env, value, t, target, k, effects)
      == ApplyObjectFieldsFrom(parentPlan, env, value, t, target, k + 1, effects)
  {
    assert NextWithApplyPlan(t.fields, k) == NextWithApplyPlan(t.fields, k + 1);
  }

  /** A field with an `applyPlan` runs it on a façade over the field's value, and stops at its exception. */
  lemma ObjectFieldWithResolver(parentPlan: Step, env: Env, value: InputPlan, t: InputType, target: Step, k: nat, effects: seq<Effect>, run: Trace)
    requires t.InputObject? && WellFormedType(t) && k < |t.fields| && t.fields[k].applyPlan.Some?
    requires run == RunSpec(Ctx(None, parentPlan, CurrentPlan(value), Some(t.fields), env), [], UserCallback(t.fields[k].applyPlan.value, [target]))
    ensures ApplyObjectFieldsFrom(parentPlan, env, value, t, target, k, effects)
      == if run.result.Err? then Reply(run.result, effects + run.effects)
         else ApplyObjectFieldsFrom(parentPlan, env, value, t, target, k + 1, effects + run.effects)
  {
    assert NextWithApplyPlan(t.fields, k) == k;
    assert ApplyObjectFieldsFrom(parentPlan, env, value, t, target, k, effects) == ApplyObjectFieldAt(parentPlan, env, value, t, target, k, effects);
  }

  /** The first field from the `k`-th on that has an `applyPlan`, or `|fs|`. */
  function NextWithApplyPlan(fs: seq<Field>, k: nat): (j: nat)
    requires k <= |fs|
    ensures k <= j <= |fs|
    ensures forall i :: k <= i < j ==> fs[i].applyPlan.None?
    ensures j < |fs| ==> fs[j].applyPlan.Some?
    decreases |fs| - k
  {
    if k == |fs| || fs[k].applyPlan.Some? then k else NextWithApplyPlan(fs, k + 1)
  }

  // ---------------------------------------------------------------------------
  // withFieldArgsForArguments

  /**
   * `fields[f.name] = f` on a JavaScript object: a new key goes last, an
   * existing key keeps its place and takes the new value.
   */
  function SetField(fs: seq<Field>, f: Field): (r: seq<Field>)
    ensures FieldNamed(r, f.name) == Some(f)
    ensures forall n :: n != f.name ==> FieldNamed(r, n) == FieldNamed(fs, n)
  {
    if fs == [] then [f]
    else if fs[0].name == f.name then [f] + fs[1..]
    else [fs[0]] + SetField(fs[1..], f)
  }

  /** Assigning an existing key keeps the number of keys. */
  lemma {:induction false} SetFieldExistingKey(fs: seq<Field>, f: Field, j: nat)
    requires j < |fs| && fs[j].name == f.name
    ensures |SetField(fs, f)| == |fs|
  {
    if fs[0].name != f.name {
      SetFieldExistingKey(fs[1..], f, j - 1);
    }
  }

  /** Assigning a new key puts it last. */
  lemma {:induction false} SetFieldNewKey(fs: seq<Field>, f: Field)
    requires forall j :: 0 <= j < |fs| ==> fs[j].name != f.name
    ensures SetField(fs, f) == fs + [f]
  {
    if fs != [] {
      SetFieldNewKey(fs[1..], f);
      assert [fs[0]] + (fs[1..] + [f]) == fs + [f];
    }
  }

  /** The object built from a field's arguments, one assignment per argument in order. */
  function ArgumentMap(args: seq<Field>): seq<Field> {
    if args == [] then [] else SetField(ArgumentMap(args[..|args| - 1]), args[|args| - 1])
  }

  /** The last argument with this name, if any: a later assignment of the same key wins. */
  function LastNamed(args: seq<Field>, name: string): (r: Option<Field>)
    ensures r.Some? ==> r.value in args && r.value.name == name
    ensures r.None? <==> forall j :: 0 <= j < |args| ==> args[j].name != name
  {
    if args == [] then None
    else if args[|args| - 1].name == name then Some(args[|args| - 1])
    else LastNamed(args[..|args| - 1], name)
  }

  /** No argument after the one found has its name. */
  lemma {:induction false} LastNamedIsLast(args: seq<Field>, name: string)
    ensures LastNamed(args, name).Some? ==>
      exists k :: 0 <= k < |args| && args[k] == LastNamed(args, name).value
        && forall j :: k < j < |args| ==> args[j].name != name
    decreases |args|
  {
    if args != [] && args[|args| - 1].name != name {
      var pre := args[..|args| - 1];
      LastNamedIsLast(pre, name);
      if LastNamed(args, name).Some? {
        var k :| 0 <= k < |pre| && pre[k] == LastNamed(pre, name).value && forall j :: k < j < |pre| ==> pre[j].name != name;
        assert args[k] == pre[k];
        forall j | k < j < |args|
          ensures args[j].name != name
        {
          if j < |pre| {
            assert args[j] == pre[j];
          }
        }
      }
    }
  }

  lemma {:induction false} SetFieldWellFormed(fs: seq<Field>, f: Field)
    requires WellFormedFields(fs) && ValidName(f.name)
    ensures WellFormedFields(SetField(fs, f))
  {
    if fs != [] && fs[0].name != f.name {
      SetFieldWellFormed(fs[1..], f);
      var r := SetField(fs, f);
      forall j | 1 <= j < |r|
        ensures r[j].name != fs[0].name
      {
        assert r[j] == SetField(fs[1..], f)[j - 1];
        if r[j] != f {
          assert FieldNamed(SetField(fs[1..], f), r[j].name) != None;
        }
      }
    }
  }

  /** Argument names are GraphQL names, so the object's keys are distinct names. */
  lemma {:induction false} ArgumentMapWellFormed(args: seq<Field>)
    requires forall i :: 0 <= i < |args| ==> ValidName(args[i].name)
    ensures WellFormedFields(ArgumentMap(args))
  {
    if args != [] {
      ArgumentMapWellFormed(args[..|args| - 1]);
      SetFieldWellFormed(ArgumentMap(args[..|args| - 1]), args[|args| - 1]);
    }
  }

  /** `withFieldArgsForArguments(parentPlan, $all, field, callback)` */
  function ArgumentsSpec(parentPlan: Step, env: Env, args: seq<Field>, callback: Resolver): Reply
    requires forall i :: 0 <= i < |args| ==> ValidName(args[i].name)
  {
    ArgumentMapWellFormed(args);
    var t := RunSpec(Ctx(None, parentPlan, AllArguments, Some(ArgumentMap(args)), env), [], UserCallback(callback, []));
    Reply(t.result, t.effects)
  }
}
