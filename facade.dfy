/**
 * The argument façade as the planner builds it: one object per
 * `withFieldArgsForArgumentsOrInputObject` call, whose only mutable state is
 * the list of coordinates recorded so far. Each method does what the
 * corresponding closure does and is proved to agree with the functions of
 * `FacadeSpec`.
 */
module FieldArgs {
  import opened Wrappers
  import opened Schema
  import opened InputPlans
  import opened Coordinates
  import opened FacadeSpec

  class Facade {
    const typ: Option<InputType>
    const parentPlan: Step
    const current: Current
    const fields: Option<seq<Field>>
    const env: Env
    var analyzedCoordinates: seq<string>

    function Context(): Ctx {
      Ctx(typ, parentPlan, current, fields, env)
    }

    predicate Valid() {
      CtxOk(Context())
    }

    constructor (typ: Option<InputType>, parentPlan: Step, current: Current, fields: Option<seq<Field>>, env: Env)
      ensures Context() == Ctx(typ, parentPlan, current, fields, env)
      ensures analyzedCoordinates == []
    {
      this.typ := typ;
      this.parentPlan := parentPlan;
      this.current := current;
      this.fields := fields;
      this.env := env;
      analyzedCoordinates := [];
    }

    /** Record the dotted path once, then walk it segment by segment. */
    method GetArgOnceOnly(inPath: seq<string>) returns (r: Result<Details, Error>)
      modifies this
      ensures r == Traverse(fields, current, inPath)
      ensures analyzedCoordinates == Recorded(fields, old(analyzedCoordinates), inPath)
    {
      var path := inPath;
      if |path| < 1 {
        return Err(InvalidPath);
      }
      if fields.None? {
        return Err(PathOnLeafOrList);
      }
      var id := Join(path);
      if id !in analyzedCoordinates {
        analyzedCoordinates := analyzedCoordinates + [id];
      }
      var argName := path[0];
      path := path[1..];
      var got := CurrentGet(current, argName);
      if got.Err? {
        return Err(got.error);
      }
      var value := got.value;
      var lookup := MemberLookup(fields.value, InheritsObjectPrototype(current), argName);
      if lookup.Err? {
        return Err(lookup.error);
      }
      if lookup.value.Inherited? {
        if |path| > 0 {
          return Err(NotAnInputObject);
        }
        return Ok(InheritedDetails(value, lookup.value.key));
      }
      var argOrField := lookup.value.field;
      var t := NullableType(argOrField.typ);
      while |path| > 0
        invariant t == NullableType(argOrField.typ)
        invariant Traverse(fields, current, inPath) == TraverseFrom(value, argOrField, path)
        decreases |path|
      {
        var name := path[0];
        path := path[1..];
        if !t.InputObject? {
          return Err(NotAnInputObject);
        }
        var child := GetChild(value, name);
        if child.Err? {
          return Err(child.error);
        }
        value := child.value;
        var next := FieldLookup(t.fields, name);
        if next.Err? {
          return Err(next.error);
        }
        argOrField := next.value;
        t := NullableType(argOrField.typ);
      }
      return Ok(Details(value, argOrField, t));
    }

    /** `get(path)` for a path that names something. */
    method GetAt(path: seq<string>) returns (r: Result<Step, Error>, effects: seq<Effect>)
      modifies this
      ensures Reply(r, effects) == GetAtSpec(Context(), path)
      ensures analyzedCoordinates == Recorded(fields, old(analyzedCoordinates), path)
    {
      var details := GetArgOnceOnly(path);
      if details.Err? {
        return Err(details.error), [];
      }
      var rep := PlanArgumentOrInputField(Context(), details.value, NoPlan);
      r, effects := rep.result, rep.effects;
      if r.Ok? && !IsExecutablePlan(r.value) {
        r := Err(NotExecutablePlan);
      }
    }

    /** `apply($target, path)` for a path that names something. */
    method ApplyAt(target: Step, path: seq<string>) returns (r: Result<Step, Error>, effects: seq<Effect>)
      modifies this
      ensures Reply(r, effects) == ApplyAtSpec(Context(), target, path)
      ensures analyzedCoordinates == Recorded(fields, old(analyzedCoordinates), path)
    {
      var details := GetArgOnceOnly(path);
      if details.Err? {
        return Err(details.error), [];
      }
      var rep := PlanArgumentOrInputField(Context(), details.value, target);
      r, effects := rep.result, rep.effects;
    }

    /** `get(name)` for each name, collected into an object keyed by the names. */
    method GetEach(names: seq<string>) returns (r: Result<Step, Error>, effects: seq<Effect>)
      modifies this
      ensures Trace(r, effects, analyzedCoordinates) == GetAllFrom(Context(), old(analyzedCoordinates), names, 0, [], [])
    {
      var values: seq<Step> := [];
      effects := [];
      var i := 0;
      while i < |names|
        invariant 0 <= i <= |names|
        invariant GetAllFrom(Context(), old(analyzedCoordinates), names, 0, [], []) == GetAllFrom(Context(), analyzedCoordinates, names, i, values, effects)
      {
        var one, e := GetAt([names[i]]);
        if one.Err? {
          return one, effects + e;
        }
        values := values + [one.value];
        effects := effects + e;
        i := i + 1;
      }
      r := Ok(FieldMap(names, values));
    }

    /** `apply($target, name)` for each name in turn. */
    method ApplyEach(target: Step, names: seq<string>) returns (r: Result<Step, Error>, effects: seq<Effect>)
      modifies this
      ensures Trace(r, effects, analyzedCoordinates) == ApplyAllFrom(Context(), old(analyzedCoordinates), target, names, 0, [])
    {
      effects := [];
      var i := 0;
      while i < |names|
        invariant 0 <= i <= |names|
        invariant ApplyAllFrom(Context(), old(analyzedCoordinates), target, names, 0, []) == ApplyAllFrom(Context(), analyzedCoordinates, target, names, i, effects)
      {
        ghost var before := analyzedCoordinates;
        var one, e := ApplyAt(target, [names[i]]);
        ApplyAllStep(Context(), before, target, names, i, effects, Reply(one, e));
        if one.Err? {
          return one, effects + e;
        }
        effects := effects + e;
        i := i + 1;
      }
      r := Ok(NoPlan);
    }

    /** `fieldArgs.get(path)` */
    method Get(path: PathArg) returns (r: Result<Step, Error>, effects: seq<Effect>)
      requires Valid()
      modifies this
      ensures Trace(r, effects, analyzedCoordinates) == GetSpec(Context(), old(analyzedCoordinates), path)
      decreases Rank(Context()), 3, 0, 0
    {
      if OmitsPath(path) {
        analyzedCoordinates := analyzedCoordinates + [""];
        if fields.Some? {
          r, effects := GetEach(Names(fields.value));
        } else if typ.None? {
          r, effects := Err(GetWithoutPath), [];
        } else {
          r, effects := PlannedValue(AsInputPlan(current), typ.value);
        }
      } else {
        r, effects := GetAt(PathOf(path));
      }
    }

    /** `fieldArgs.getRaw(path)`: the value plan itself, no resolver. */
    method GetRaw(path: PathArg) returns (r: Result<Step, Error>, effects: seq<Effect>)
      modifies this
      ensures Trace(r, effects, analyzedCoordinates) == GetRawSpec(Context(), old(analyzedCoordinates), path)
    {
      effects := [];
      if OmitsPath(path) {
        analyzedCoordinates := analyzedCoordinates + [""];
        if current.CurrentPlan? {
          r := Ok(InputStep(current.plan));
        } else {
          r := Err(GetRawWithoutPath);
        }
      } else {
        var details := GetArgOnceOnly(PathOf(path));
        if details.Err? {
          r := Err(details.error);
        } else {
          r := Ok(InputStep(details.value.value));
        }
      }
    }

    /** `fieldArgs.apply($target, path)` */
    method Apply(target: Step, path: PathArg) returns (r: Result<Step, Error>, effects: seq<Effect>)
      requires Valid()
      modifies this
      ensures Trace(r, effects, analyzedCoordinates) == ApplySpec(Context(), old(analyzedCoordinates), target, path)
      decreases Rank(Context()), 3, 0, 0
    {
      if OmitsPath(path) {
        analyzedCoordinates := analyzedCoordinates + [""];
        if fields.Some? {
          r, effects := ApplyEach(target, Names(fields.value));
        } else if typ.None? {
          r, effects := Err(ApplyWithoutPath), [];
        } else {
          r, effects := ApplyPlannedValue(AsInputPlan(current), typ.value, target);
        }
      } else {
        r, effects := ApplyAt(target, PathOf(path));
      }
    }

    /** `callback(fieldArgs)`: a resolver script runs its calls, in order, on this façade. */
    method Invoke(cb: Callback) returns (r: Result<Step, Error>, effects: seq<Effect>)
      requires Valid()
      modifies this
      ensures Trace(r, effects, analyzedCoordinates) == InvokeSpec(Context(), old(analyzedCoordinates), cb)
      decreases Rank(Context()), 5, 0, 0
    {
      match cb
      case UserCallback(resolver, args) =>
        var cmds := resolver.commands;
        var results: seq<Step> := [];
        effects := [Invoked(resolver.id, args)];
        var i := 0;
        while i < |cmds|
          invariant 0 <= i <= |cmds|
          invariant ScriptFrom(Context(), old(analyzedCoordinates), cmds, 0, [], [Invoked(resolver.id, args)])
            == ScriptFrom(Context(), analyzedCoordinates, cmds, i, results, effects)
        {
          var one: Result<Step, Error>, e: seq<Effect>;
          match cmds[i] {
            case GetCall(p) =>
              one, e := Get(p);
            case GetRawCall(p) =>
              one, e := GetRaw(p);
            case ApplyCall(target, p) =>
              one, e := Apply(External(target), p);
          }
          if one.Err? {
            return Err(one.error), effects + e;
          }
          results := results + [one.value];
          effects := effects + e;
          i := i + 1;
        }
        r := Ok(if resolver.returnsPlan then Called(resolver.id, args, results) else NoPlan);
      case DefaultObjectCallback(objectFields) =>
        var obj, e := GetEach(Names(objectFields));
        effects := e;
        if obj.Err? {
          return obj, effects;
        }
        r := Ok(ObjectStep(Names(objectFields), obj.value.values));
    }

    /** The body of `withFieldArgsForArgumentsOrInputObject` once the façade exists. */
    method Run(cb: Callback) returns (r: Result<Step, Error>, effects: seq<Effect>)
      requires Valid()
      modifies this
      ensures Trace(r, effects, analyzedCoordinates) == RunSpec(Context(), old(analyzedCoordinates), cb)
      decreases Rank(Context()), 6, 0, 0
    {
      r, effects := Invoke(cb);
      if r.Err? {
        return;
      }
      var plan := r.value;
      if Truthy(plan) && "" !in analyzedCoordinates {
        if fields.None? {
          var a, e := Apply(plan, NoPath);
          effects := effects + e;
          if a.Err? {
            r := a;
          }
        } else {
          var p, e := Process([], plan, Longest(analyzedCoordinates));
          effects := effects + e;
          if p.Err? {
            r := p;
          }
        }
      }
    }

    /** The reconciliation pass `process(layerFields, parentPath)`; it walks `fields` at every depth. */
    method Process(parentPath: seq<string>, plan: Step, budget: nat) returns (r: Result<Step, Error>, effects: seq<Effect>)
      requires Valid() && fields.Some?
      modifies this
      ensures Trace(r, effects, analyzedCoordinates) == ProcessFrom(Context(), old(analyzedCoordinates), parentPath, plan, 0, budget, [])
      decreases Rank(Context()), 2, budget, 2
    {
      effects := [];
      var k := 0;
      while k < |fields.value|
        invariant 0 <= k <= |fields.value|
        invariant ProcessFrom(Context(), old(analyzedCoordinates), parentPath, plan, 0, budget, [])
          == ProcessFrom(Context(), analyzedCoordinates, parentPath, plan, k, budget, effects)
      {
        var one, e := ProcessField(parentPath, plan, k, budget, effects);
        effects := e;
        if one.Err? {
          return one, effects;
        }
        k := k + 1;
      }
      r := Ok(NoPlan);
    }

    /** One field of the reconciliation pass: skip it, descend into it, or apply the plan to it. */
    method ProcessField(parentPath: seq<string>, plan: Step, k: nat, budget: nat, effectsIn: seq<Effect>)
      returns (r: Result<Step, Error>, effects: seq<Effect>)
      requires Valid() && fields.Some? && k < |fields.value|
      modifies this
      ensures ProcessFrom(Context(), old(analyzedCoordinates), parentPath, plan, k, budget, effectsIn)
        == if r.Err? then Trace(r, effects, analyzedCoordinates)
           else ProcessFrom(Context(), analyzedCoordinates, parentPath, plan, k + 1, budget, effects)
      decreases Rank(Context()), 2, budget, 1
    {
      match ReconcileDecision(analyzedCoordinates, Join(parentPath + [fields.value[k].name])) {
        case Skip =>
          // `continue`
          r, effects := Ok(NoPlan), effectsIn;
        case Descend =>
          r, effects := DescendField(parentPath, plan, k, budget, effectsIn);
        case ApplyDefault =>
          r, effects := ApplyField(parentPath, plan, k, budget, effectsIn);
      }
    }

    /** A field below which the callback read something: reconcile its own fields. */
    method DescendField(parentPath: seq<string>, plan: Step, k: nat, budget: nat, effectsIn: seq<Effect>)
      returns (r: Result<Step, Error>, effects: seq<Effect>)
      requires Valid() && fields.Some? && k < |fields.value|
      modifies this
      ensures DescendInto(Context(), old(analyzedCoordinates), parentPath, plan, k, budget, effectsIn)
        == if r.Err? then Trace(r, effects, analyzedCoordinates)
           else ProcessFrom(Context(), analyzedCoordinates, parentPath, plan, k + 1, budget, effects)
      decreases Rank(Context()), 2, budget, 0
    {
      var field := fields.value[k];
      r, effects := Ok(NoPlan), effectsIn;
      if !NullableType(field.typ).InputObject? {
        r := Err(ReconcileNotInputObject);
        return;
      }
      if budget < |field.name| + 1 {
        r := Err(ReconcileDepth);
        return;
      }
      ghost var before := analyzedCoordinates;
      var child, e := Process(parentPath + [field.name], plan, budget - |field.name| - 1);
      DescendStep(Context(), before, parentPath, plan, k, budget, effectsIn, field.name, Trace(child, e, analyzedCoordinates));
      effects := effectsIn + e;
      if child.Err? {
        r := child;
      }
    }

    /** A field the callback read nothing of: apply the plan to it. */
    method ApplyField(parentPath: seq<string>, plan: Step, k: nat, budget: nat, effectsIn: seq<Effect>)
      returns (r: Result<Step, Error>, effects: seq<Effect>)
      requires Valid() && fields.Some? && k < |fields.value|
      modifies this
      ensures ApplyToField(Context(), old(analyzedCoordinates), parentPath, plan, k, budget, effectsIn)
        == if r.Err? then Trace(r, effects, analyzedCoordinates)
           else ProcessFrom(Context(), analyzedCoordinates, parentPath, plan, k + 1, budget, effects)
      decreases Rank(Context()), 2, budget, 0
    {
      var applied, e := ApplyAt(plan, parentPath + [fields.value[k].name]);
      r, effects := Ok(NoPlan), effectsIn + e;
      if applied.Err? {
        r := applied;
      }
    }

    /** `getPlannedValue($value, currentType)` */
    method PlannedValue(value: InputPlan, t: InputType) returns (r: Result<Step, Error>, effects: seq<Effect>)
      requires WellFormedType(t)
      ensures Reply(r, effects) == PlannedValueSpec(parentPlan, env, value, t)
      decreases Size(t), 1, 0, 0
    {
      match t
      case NonNull(inner) =>
        r, effects := PlannedValue(value, inner);
      case List(inner) =>
        if !HasEvalLength(env, value) {
          return Err(NoEvalLength), [];
        }
        var l := EvalLength(env, value);
        if l.None? {
          return Ok(ConstantNull), [];
        }
        var entries: seq<Step> := [];
        effects := [];
        var i := 0;
        while i < l.value
          invariant 0 <= i <= l.value
          invariant PlannedEntriesFrom(parentPlan, env, value, t, l.value, 0, [], [])
            == PlannedEntriesFrom(parentPlan, env, value, t, l.value, i, entries, effects)
        {
          var entry, e := PlannedValue(PlanAt(value, i), inner);
          if entry.Err? {
            return entry, effects + e;
          }
          entries := entries + [entry.value];
          effects := effects + e;
          i := i + 1;
        }
        r := Ok(ListStep(entries));
      case InputObject(_, fs, typeInputPlan) =>
        var cb := if typeInputPlan.Some? then UserCallback(typeInputPlan.value, []) else DefaultObjectCallback(fs);
        var nested := new Facade(None, parentPlan, CurrentPlan(value), Some(fs), env);
        r, effects := nested.Run(cb);
      case Scalar(_, scalarInputPlan) =>
        if scalarInputPlan.Some? {
          r, effects := Ok(Called(scalarInputPlan.value, [InputStep(value)], [])), [Invoked(scalarInputPlan.value, [InputStep(value)])];
        } else {
          r, effects := Ok(InputStep(value)), [];
        }
      case Enum(_, _) =>
        r, effects := Ok(InputStep(value)), [];
    }

    /** `applyPlannedValue($value, currentType, $toPlan)` */
    method ApplyPlannedValue(value: InputPlan, t: InputType, target: Step) returns (r: Result<Step, Error>, effects: seq<Effect>)
      requires WellFormedType(t)
      ensures Reply(r, effects) == ApplyPlannedValueSpec(parentPlan, env, value, t, target)
      decreases Size(t), 1, 0, 0
    {
      match t
      case NonNull(inner) =>
        r, effects := ApplyPlannedValue(value, inner, target);
      case List(inner) =>
        if !HasEvalLength(env, value) {
          return Err(NoEvalLength), [];
        }
        var l := EvalLength(env, value);
        if l.None? {
          return Ok(NoPlan), [];
        }
        effects := [];
        var i := 0;
        while i < l.value
          invariant 0 <= i <= l.value
          invariant ApplyEntriesFrom(parentPlan, env, value, t, target, l.value, 0, [])
            == ApplyEntriesFrom(parentPlan, env, value, t, target, l.value, i, effects)
        {
          var entry, e := ApplyPlannedValue(PlanAt(value, i), inner, target);
          if entry.Err? {
            return entry, effects + e;
          }
          effects := effects + e;
          i := i + 1;
        }
        r := Ok(NoPlan);
      case InputObject(_, _, _) =>
        r, effects := ApplyObjectFields(value, t, target);
      case Scalar(_, _) =>
        r, effects := Ok(NoPlan), [];
      case Enum(_, values) =>
        var found := FindEnumValue(values, EvalPlan(env, value));
        if found.Some? && found.value.applyPlan.Some? {
          r, effects := Ok(NoPlan), [Invoked(found.value.applyPlan.value, [target])];
        } else {
          r, effects := Ok(NoPlan), [];
        }
    }

    /** The input-object case of `applyPlannedValue`: each field's `applyPlan`, in order, on a façade over the field's value. */
    method ApplyObjectFields(value: InputPlan, t: InputType, target: Step) returns (r: Result<Step, Error>, effects: seq<Effect>)
      requires t.InputObject? && WellFormedType(t)
      ensures Reply(r, effects) == ApplyObjectFieldsFrom(parentPlan, env, value, t, target, 0, [])
      decreases Size(t), 0, 1, 0
    {
      effects := [];
      var k := 0;
      while k < |t.fields|
        invariant 0 <= k <= |t.fields|
        invariant ApplyObjectFieldsFrom(parentPlan, env, value, t, target, 0, [])
          == ApplyObjectFieldsFrom(parentPlan, env, value, t, target, k, effects)
      {
        var stop, e;
        stop, r, e := ApplyObjectField(value, t, target, k, effects);
        effects := e;
        if stop {
          return;
        }
        k := k + 1;
      }
      ObjectFieldsDone(parentPlan, env, value, t, target, effects);
      r := Ok(NoPlan);
    }

    /** One field of the input-object case: run its `applyPlan`, if any; `stop` at an exception. */
    method ApplyObjectField(value: InputPlan, t: InputType, target: Step, k: nat, effectsIn: seq<Effect>)
      returns (stop: bool, r: Result<Step, Error>, effects: seq<Effect>)
      requires t.InputObject? && WellFormedType(t) && k < |t.fields|
      ensures ApplyObjectFieldsFrom(parentPlan, env, value, t, target, k, effectsIn) ==
        if stop then Reply(r, effects) else ApplyObjectFieldsFrom(parentPlan, env, value, t, target, k + 1, effects)
      decreases Size(t), 0, 0, 0
    {
      var resolver := t.fields[k].applyPlan;
      stop, r, effects := false, Ok(NoPlan), effectsIn;
      if resolver.Some? {
        var nested := new Facade(None, parentPlan, CurrentPlan(value), Some(t.fields), env);
        var run, e := nested.Run(UserCallback(resolver.value, [target]));
        ObjectFieldWithResolver(parentPlan, env, value, t, target, k, effectsIn, Trace(run, e, nested.analyzedCoordinates));
        effects := effectsIn + e;
        if run.Err? {
          stop, r := true, run;
        }
      } else {
        ObjectFieldWithoutResolver(parentPlan, env, value, t, target, k, effectsIn);
      }
    }
  }

  /** `withFieldArgsForArguments`: one key per argument name, then a façade over all the arguments. */
  method WithFieldArgsForArguments(parentPlan: Step, env: Env, args: seq<Field>, callback: Resolver)
    returns (r: Result<Step, Error>, effects: seq<Effect>)
    requires forall i :: 0 <= i < |args| ==> ValidName(args[i].name)
    ensures Reply(r, effects) == ArgumentsSpec(parentPlan, env, args, callback)
  {
    var fs: seq<Field> := [];
    var i := 0;
    while i < |args|
      invariant 0 <= i <= |args|
      invariant fs == ArgumentMap(args[..i])
    {
      assert args[..i + 1][..i] == args[..i];
      fs := SetField(fs, args[i]);
      i := i + 1;
    }
    assert args[..|args|] == args;
    ArgumentMapWellFormed(args);
    var facade := new Facade(None, parentPlan, AllArguments, Some(fs), env);
    r, effects := facade.Run(UserCallback(callback, []));
  }
}
