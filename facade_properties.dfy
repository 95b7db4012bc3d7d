/**
 * Properties of the argument façade: what a path traversal reaches, what a
 * read of the whole input returns, when the reconciliation pass is skipped,
 * what the default input-object resolver builds, what the walkers produce,
 * and how a field's arguments become the façade's keys.
 */
module FacadeProperties {
  import opened Wrappers
  import opened Schema
  import opened InputPlans
  import opened Coordinates
  import opened FacadeSpec

  /** The tracked-object keys of a path of property names. */
  function Props(path: seq<string>): (r: seq<Key>)
    ensures |r| == |path|
    ensures forall i :: 0 <= i < |path| ==> r[i] == Prop(path[i])
  {
    if path == [] then [] else [Prop(path[0])] + Props(path[1..])
  }

  // ---------------------------------------------------------------------------
  // getArgOnceOnly

  lemma {:induction false} TraverseFromTracked(value: InputPlan, field: Field, rest: seq<string>)
    requires value.TrackedValue?
    ensures TraverseFrom(value, field, rest).Ok? ==>
      TraverseFrom(value, field, rest).value.value == TrackedValue(value.root, value.path + Props(rest))
    decreases |rest|
  {
    if rest == [] {
      assert value.path + Props(rest) == value.path;
    } else if NullableType(field.typ).InputObject? {
      var child := GetChild(value, rest[0]);
      var next := FieldLookup(NullableType(field.typ).fields, rest[0]);
      if next.Ok? {
        TraverseFromTracked(child.value, next.value, rest[1..]);
        assert TraverseFrom(value, field, rest) == TraverseFrom(child.value, next.value, rest[1..]);
        assert Props(rest) == [Prop(rest[0])] + Props(rest[1..]);
        assert value.path + [Prop(rest[0])] + Props(rest[1..]) == value.path + ([Prop(rest[0])] + Props(rest[1..]));
      }
    }
  }

  /** Over the field arguments, a path reaches the tracked argument value at exactly that path. */
  lemma TraverseArguments(fields: Option<seq<Field>>, path: seq<string>)
    ensures Traverse(fields, AllArguments, path).Ok? ==>
      Traverse(fields, AllArguments, path).value.value == TrackedValue(FieldArguments, Props(path))
  {
    if |path| >= 1 && fields.Some? {
      var member := MemberLookup(fields.value, true, path[0]);
      assert [Prop(path[0])] + Props(path[1..]) == Props(path);
      if member.Ok? && member.value.Declared? {
        TraverseFromTracked(TrackedValue(FieldArguments, [Prop(path[0])]), member.value.field, path[1..]);
      }
    }
  }

  lemma {:induction false} TraverseFromLast(value: InputPlan, field: Field, rest: seq<string>)
    ensures TraverseFrom(value, field, rest).Ok? ==>
      && TraverseFrom(value, field, rest).value.Details?
      && TraverseFrom(value, field, rest).value.typ == NullableType(TraverseFrom(value, field, rest).value.argOrField.typ)
      && TraverseFrom(value, field, rest).value.argOrField.name == (if rest == [] then field.name else rest[|rest| - 1])
    decreases |rest|
  {
    if rest != [] && NullableType(field.typ).InputObject? {
      var child := GetChild(value, rest[0]);
      var next := FieldLookup(NullableType(field.typ).fields, rest[0]);
      if child.Ok? && next.Ok? {
        TraverseFromLast(child.value, next.value, rest[1..]);
      }
    }
  }

  /**
   * A traversal ends at the field named by the path's last segment, with that
   * field's nullable type, or, for a single segment naming a member the
   * argument object inherits and does not declare, at that member.
   */
  lemma TraverseLastSegment(fields: Option<seq<Field>>, current: Current, path: seq<string>)
    ensures Traverse(fields, current, path).Ok? ==> |path| > 0 && fields.Some?
    ensures Traverse(fields, current, path).Ok? && Traverse(fields, current, path).value.Details? ==>
      && Traverse(fields, current, path).value.argOrField.name == path[|path| - 1]
      && Traverse(fields, current, path).value.typ == NullableType(Traverse(fields, current, path).value.argOrField.typ)
    ensures Traverse(fields, current, path).Ok? && Traverse(fields, current, path).value.InheritedDetails? ==>
      && |path| == 1
      && Traverse(fields, current, path).value.key == path[0]
      && InheritsObjectPrototype(current) && IsObjectPrototypeKey(path[0])
      && forall f :: f in fields.value ==> f.name != path[0]
  {
    if |path| >= 1 && fields.Some? {
      var value := CurrentGet(current, path[0]);
      var member := MemberLookup(fields.value, InheritsObjectPrototype(current), path[0]);
      if value.Ok? && member.Ok? && member.value.Declared? {
        TraverseFromLast(value.value, member.value.field, path[1..]);
      }
    }
  }

  /** A segment below a field whose nullable type is not an input object throws. */
  lemma TraverseThroughLeaf(fs: seq<Field>, current: Current, path: seq<string>)
    requires |path| >= 2 && CurrentGet(current, path[0]).Ok?
    requires FieldLookup(fs, path[0]).Ok? && !NullableType(FieldLookup(fs, path[0]).value.typ).InputObject?
    ensures Traverse(Some(fs), current, path) == Err(NotAnInputObject)
  {
  }

  /**
   * Naming a key the façade does not declare, once the current value yields
   * a child: it throws, except on the argument object for a member it
   * inherits from `Object.prototype`. Such a member is what a single segment
   * reaches; below it, the walk throws for want of an input object.
   */
  lemma TraverseUnknownName(fs: seq<Field>, current: Current, path: seq<string>)
    requires |path| >= 1 && CurrentGet(current, path[0]).Ok?
    requires forall i :: 0 <= i < |fs| ==> fs[i].name != path[0]
    ensures !(InheritsObjectPrototype(current) && IsObjectPrototypeKey(path[0])) ==>
      Traverse(Some(fs), current, path) == Err(UnknownField(path[0]))
    ensures InheritsObjectPrototype(current) && IsObjectPrototypeKey(path[0]) ==>
      Traverse(Some(fs), current, path)
        == if |path| == 1 then Ok(InheritedDetails(CurrentGet(current, path[0]).value, path[0])) else Err(NotAnInputObject)
  {
    assert forall f :: f in fs ==> f.name != path[0];
  }

  /**
   * `get(path)` at one field: the value plan when the field has no
   * `inputPlan` or is an inherited member; otherwise the resolver runs
   * without a façade, so a resolver that uses its façade throws and one that
   * returns nothing fails `assertExecutablePlan`.
   */
  lemma GetAtOutcome(ctx: Ctx, path: seq<string>)
    requires Traverse(ctx.fields, ctx.current, path).Ok?
    ensures
      var d := Traverse(ctx.fields, ctx.current, path).value;
      var rep := GetAtSpec(ctx, path);
      && (d.InheritedDetails? ==> rep == Reply(Ok(InputStep(d.value)), []))
      && (d.Details? && d.argOrField.inputPlan.None? ==> rep == Reply(Ok(InputStep(d.value)), []))
      && (d.Details? && d.argOrField.inputPlan.Some? ==>
            var res := d.argOrField.inputPlan.value;
            && rep.effects == [Invoked(res.id, ResolverArgs(ctx.typ, ctx.parentPlan, NoPlan))]
            && (|res.commands| > 0 ==> rep.result == Err(NullFieldArgs))
            && (|res.commands| == 0 && !res.returnsPlan ==> rep.result == Err(NotExecutablePlan))
            && (|res.commands| == 0 && res.returnsPlan ==> rep.result == Ok(Called(res.id, ResolverArgs(ctx.typ, ctx.parentPlan, NoPlan), []))))
  {
  }

  /**
   * On the argument object, a name it inherits from `Object.prototype` and
   * does not declare (`get("toString")`) gives the tracked argument value of
   * that name and invokes nothing, for `get` and for `apply` alike.
   */
  lemma InheritedArgumentMember(ctx: Ctx, target: Step, name: string)
    requires ctx.current.AllArguments? && ctx.fields.Some? && IsObjectPrototypeKey(name)
    requires forall i :: 0 <= i < |ctx.fields.value| ==> ctx.fields.value[i].name != name
    ensures GetAtSpec(ctx, [name]) == Reply(Ok(InputStep(TrackedValue(FieldArguments, [Prop(name)]))), [])
    ensures ApplyAtSpec(ctx, target, [name]) == Reply(Ok(InputStep(TrackedValue(FieldArguments, [Prop(name)]))), [])
  {
    TraverseUnknownName(ctx.fields.value, ctx.current, [name]);
  }

  // ---------------------------------------------------------------------------
  // Reading or applying the whole input

  /** The values `vs[base..]` are, in order, what `get(name)` returns for `names[i..]`. */
  predicate GotEach(ctx: Ctx, names: seq<string>, i: nat, vs: seq<Step>, base: nat) {
    && i <= |names|
    && |vs| == base + |names| - i
    && forall j :: i <= j < |names| ==> GetAtSpec(ctx, [names[j]]).result == Ok(vs[base + j - i])
  }

  lemma GotEachStep(ctx: Ctx, names: seq<string>, i: nat, vs: seq<Step>, base: nat)
    requires i < |names| && base < |vs|
    requires GetAtSpec(ctx, [names[i]]).result == Ok(vs[base])
    requires GotEach(ctx, names, i + 1, vs, base + 1)
    ensures GotEach(ctx, names, i, vs, base)
  {
    forall j | i < j < |names|
      ensures GetAtSpec(ctx, [names[j]]).result == Ok(vs[base + j - i])
    {
      assert base + 1 + j - (i + 1) == base + j - i;
    }
  }

  lemma {:induction false} GetAllFromValues(ctx: Ctx, coords: seq<string>, names: seq<string>, i: nat, acc: seq<Step>, effects: seq<Effect>)
    requires i <= |names|
    ensures
      var r := GetAllFrom(ctx, coords, names, i, acc, effects);
      r.result.Ok? ==> r.result.value.values[..|acc|] == acc && GotEach(ctx, names, i, r.result.value.values, |acc|)
    decreases |names| - i
  {
    var r := GetAllFrom(ctx, coords, names, i, acc, effects);
    if i < |names| {
      var rep := GetAtSpec(ctx, [names[i]]);
      if rep.result.Ok? {
        var acc' := acc + [rep.result.value];
        var next := Recorded(ctx.fields, coords, [names[i]]);
        assert r == GetAllFrom(ctx, next, names, i + 1, acc', effects + rep.effects);
        GetAllFromValues(ctx, next, names, i + 1, acc', effects + rep.effects);
        if r.result.Ok? {
          var vs := r.result.value.values;
          assert vs[..|acc'|] == acc';
          assert vs[..|acc|] == vs[..|acc'|][..|acc|];
          assert vs[|acc|] == acc'[|acc|];
          GotEachStep(ctx, names, i, vs, |acc|);
        }
      }
    } else {
      assert r.result.value.values == acc;
    }
  }

  lemma {:induction false} GetAllFromGrows(ctx: Ctx, coords: seq<string>, names: seq<string>, i: nat, acc: seq<Step>, effects: seq<Effect>)
    requires i <= |names|
    ensures coords <= GetAllFrom(ctx, coords, names, i, acc, effects).coords
    ensures effects <= GetAllFrom(ctx, coords, names, i, acc, effects).effects
    decreases |names| - i
  {
    if i < |names| {
      var rep := GetAtSpec(ctx, [names[i]]);
      if rep.result.Ok? {
        GetAllFromGrows(ctx, Recorded(ctx.fields, coords, [names[i]]), names, i + 1, acc + [rep.result.value], effects + rep.effects);
      }
    }
  }

  /** The effects of applying to each name from the `i`-th on, in turn. */
  function ApplyEffectsOf(ctx: Ctx, target: Step, names: seq<string>, i: nat): seq<Effect>
    requires i <= |names|
    decreases |names| - i
  {
    if i == |names| then [] else ApplyAtSpec(ctx, target, [names[i]]).effects + ApplyEffectsOf(ctx, target, names, i + 1)
  }

  /** Applying to the names in turn only appends to the recorded coordinates and to the effects. */
  lemma {:induction false} ApplyAllFromGrows(ctx: Ctx, coords: seq<string>, target: Step, names: seq<string>, i: nat, effects: seq<Effect>)
    requires i <= |names|
    ensures coords <= ApplyAllFrom(ctx, coords, target, names, i, effects).coords
    ensures effects <= ApplyAllFrom(ctx, coords, target, names, i, effects).effects
    decreases |names| - i
  {
    if i < |names| {
      var rep := ApplyAtSpec(ctx, target, [names[i]]);
      ApplyAllStep(ctx, coords, target, names, i, effects, rep);
      if rep.result.Ok? {
        ApplyAllFromGrows(ctx, Recorded(ctx.fields, coords, [names[i]]), target, names, i + 1, effects + rep.effects);
      }
    }
  }

  /** When the whole walk succeeds, no single application threw. */
  lemma {:induction false} ApplyAllFromOk(ctx: Ctx, coords: seq<string>, target: Step, names: seq<string>, i: nat, effects: seq<Effect>)
    requires i <= |names|
    ensures ApplyAllFrom(ctx, coords, target, names, i, effects).result.Ok? ==>
      forall j :: i <= j < |names| ==> ApplyAtSpec(ctx, target, [names[j]]).result.Ok?
    decreases |names| - i
  {
    if i < |names| {
      var rep := ApplyAtSpec(ctx, target, [names[i]]);
      ApplyAllStep(ctx, coords, target, names, i, effects, rep);
      if rep.result.Ok? {
        var next := ApplyAllFrom(ctx, Recorded(ctx.fields, coords, [names[i]]), target, names, i + 1, effects + rep.effects);
        ApplyAllFromOk(ctx, Recorded(ctx.fields, coords, [names[i]]), target, names, i + 1, effects + rep.effects);
        if next.result.Ok? {
          forall j | i <= j < |names|
            ensures ApplyAtSpec(ctx, target, [names[j]]).result.Ok?
          {
            if j == i {
              assert ApplyAtSpec(ctx, target, [names[j]]) == rep;
            }
          }
        }
      }
    }
  }

  /** When no application throws, the effects are those of applying to each name, in order. */
  lemma {:induction false} ApplyAllFromEach(ctx: Ctx, coords: seq<string>, target: Step, names: seq<string>, i: nat, effects: seq<Effect>)
    requires i <= |names|
    ensures ApplyAllFrom(ctx, coords, target, names, i, effects).result.Ok? ==>
      ApplyAllFrom(ctx, coords, target, names, i, effects).effects == effects + ApplyEffectsOf(ctx, target, names, i)
    decreases |names| - i
  {
    if i < |names| {
      var rep := ApplyAtSpec(ctx, target, [names[i]]);
      ApplyAllStep(ctx, coords, target, names, i, effects, rep);
      if rep.result.Ok? {
        ApplyAllFromEach(ctx, Recorded(ctx.fields, coords, [names[i]]), target, names, i + 1, effects + rep.effects);
        var rest := ApplyEffectsOf(ctx, target, names, i + 1);
        assert (effects + rep.effects) + rest == effects + (rep.effects + rest);
      }
    }
  }

  /**
   * `get()` with fields: `""` is recorded, and the result is the plain object
   * whose key `name` holds `get(name)`, in key order.
   */
  lemma GetWholeInput(ctx: Ctx, coords: seq<string>, p: PathArg)
    requires CtxOk(ctx) && OmitsPath(p) && ctx.fields.Some?
    ensures coords + [""] <= GetSpec(ctx, coords, p).coords
    ensures GetSpec(ctx, coords, p).result.Ok? ==>
      && GetSpec(ctx, coords, p).result.value.FieldMap?
      && GetSpec(ctx, coords, p).result.value.keys == Names(ctx.fields.value)
      && GotEach(ctx, Names(ctx.fields.value), 0, GetSpec(ctx, coords, p).result.value.values, 0)
  {
    var names := Names(ctx.fields.value);
    GetAllFromValues(ctx, coords + [""], names, 0, [], []);
    GetAllFromGrows(ctx, coords + [""], names, 0, [], []);
  }

  /** `apply($target)` with fields: `""` is recorded and every field is applied, in key order. */
  lemma ApplyWholeInput(ctx: Ctx, coords: seq<string>, target: Step, p: PathArg)
    requires CtxOk(ctx) && OmitsPath(p) && ctx.fields.Some?
    ensures coords + [""] <= ApplySpec(ctx, coords, target, p).coords
    ensures ApplySpec(ctx, coords, target, p).result.Ok? ==>
      && ApplySpec(ctx, coords, target, p).result.value == NoPlan
      && ApplySpec(ctx, coords, target, p).effects == ApplyEffectsOf(ctx, target, Names(ctx.fields.value), 0)
      && forall i :: 0 <= i < |ctx.fields.value| ==> ApplyAtSpec(ctx, target, [ctx.fields.value[i].name]).result.Ok?
  {
    var names := Names(ctx.fields.value);
    ApplyAllFromGrows(ctx, coords + [""], target, names, 0, []);
    ApplyAllFromEach(ctx, coords + [""], target, names, 0, []);
    ApplyAllFromOk(ctx, coords + [""], target, names, 0, []);
  }

  /** Without fields and without a type, a call with no path throws. */
  lemma WholeInputNeedsFieldsOrType(ctx: Ctx, coords: seq<string>, target: Step, p: PathArg)
    requires CtxOk(ctx) && OmitsPath(p) && ctx.fields.None? && ctx.typ.None?
    ensures GetSpec(ctx, coords, p) == Trace(Err(GetWithoutPath), [], coords + [""])
    ensures ApplySpec(ctx, coords, target, p) == Trace(Err(ApplyWithoutPath), [], coords + [""])
  {
  }

  /** `getRaw` never invokes a resolver: the raw value plan, or the exception on the way. */
  lemma GetRawIsTheValuePlan(ctx: Ctx, coords: seq<string>, p: PathArg)
    ensures GetRawSpec(ctx, coords, p).effects == []
    ensures !OmitsPath(p) ==>
      GetRawSpec(ctx, coords, p).result ==
        (if Traverse(ctx.fields, ctx.current, PathOf(p)).Ok? then Ok(InputStep(Traverse(ctx.fields, ctx.current, PathOf(p)).value.value))
         else Err(Traverse(ctx.fields, ctx.current, PathOf(p)).error))
    ensures OmitsPath(p) ==> "" in GetRawSpec(ctx, coords, p).coords
  {
  }

  // ---------------------------------------------------------------------------
  // Coordinates only ever grow; a read of the whole input turns reconciliation off

  /** A call that reads or applies the whole input. */
  predicate ReadsWhole(cmd: Command) {
    match cmd
    case GetCall(p) => OmitsPath(p)
    case GetRawCall(p) => OmitsPath(p)
    case ApplyCall(_, p) => OmitsPath(p)
  }

  lemma PushedKept(coords: seq<string>, after: seq<string>)
    requires coords + [""] <= after
    ensures coords <= after && "" in after
  {
    assert after[|coords|] == "";
  }

  lemma CommandGrows(ctx: Ctx, coords: seq<string>, cmd: Command)
    requires CtxOk(ctx)
    ensures coords <= CommandSpec(ctx, coords, cmd).coords
    ensures ReadsWhole(cmd) ==> "" in CommandSpec(ctx, coords, cmd).coords
  {
    match cmd
    case GetCall(p) =>
      if OmitsPath(p) && ctx.fields.Some? {
        GetAllFromGrows(ctx, coords + [""], Names(ctx.fields.value), 0, [], []);
        PushedKept(coords, CommandSpec(ctx, coords, cmd).coords);
      }
    case GetRawCall(_) =>
    case ApplyCall(target, p) =>
      if OmitsPath(p) && ctx.fields.Some? {
        ApplyAllFromGrows(ctx, coords + [""], External(target), Names(ctx.fields.value), 0, []);
        PushedKept(coords, CommandSpec(ctx, coords, cmd).coords);
      }
  }

  lemma {:induction false} ScriptGrows(ctx: Ctx, coords: seq<string>, cmds: seq<Command>, i: nat, results: seq<Step>, effects: seq<Effect>)
    requires CtxOk(ctx) && i <= |cmds|
    ensures coords <= ScriptFrom(ctx, coords, cmds, i, results, effects).coords
    ensures effects <= ScriptFrom(ctx, coords, cmds, i, results, effects).effects
    decreases |cmds| - i
  {
    if i < |cmds| {
      var t := CommandSpec(ctx, coords, cmds[i]);
      CommandGrows(ctx, coords, cmds[i]);
      if t.result.Ok? {
        ScriptGrows(ctx, t.coords, cmds, i + 1, results + [t.result.value], effects + t.effects);
      }
    }
  }

  lemma {:induction false} ScriptRecordsWholeRead(ctx: Ctx, coords: seq<string>, cmds: seq<Command>, i: nat, results: seq<Step>, effects: seq<Effect>, j: nat)
    requires CtxOk(ctx) && i <= j < |cmds| && ReadsWhole(cmds[j])
    ensures ScriptFrom(ctx, coords, cmds, i, results, effects).results.Ok? ==> "" in ScriptFrom(ctx, coords, cmds, i, results, effects).coords
    decreases |cmds| - i
  {
    var t := CommandSpec(ctx, coords, cmds[i]);
    CommandGrows(ctx, coords, cmds[i]);
    if t.result.Ok? {
      if i == j {
        ScriptGrows(ctx, t.coords, cmds, i + 1, results + [t.result.value], effects + t.effects);
      } else {
        ScriptRecordsWholeRead(ctx, t.coords, cmds, i + 1, results + [t.result.value], effects + t.effects, j);
      }
    }
  }

  /** A callback that reads or applies the whole input leaves nothing for reconciliation to do. */
  lemma RunAfterWholeRead(ctx: Ctx, coords: seq<string>, r: Resolver, args: seq<Step>, j: nat)
    requires CtxOk(ctx) && j < |r.commands| && ReadsWhole(r.commands[j])
    ensures RunSpec(ctx, coords, UserCallback(r, args)) == InvokeSpec(ctx, coords, UserCallback(r, args))
  {
    ScriptRecordsWholeRead(ctx, coords, r.commands, 0, [], [Invoked(r.id, args)], j);
  }

  lemma ApplySpecGrows(ctx: Ctx, coords: seq<string>, target: Step, p: PathArg)
    requires CtxOk(ctx)
    ensures coords <= ApplySpec(ctx, coords, target, p).coords
  {
    if OmitsPath(p) && ctx.fields.Some? {
      ApplyAllFromGrows(ctx, coords + [""], target, Names(ctx.fields.value), 0, []);
    }
  }

  /** `defaultInputObjectTypeInputPlanResolver`: `object` of `get(name)` for every field name. */
  lemma DefaultObjectValues(ctx: Ctx, coords: seq<string>, objectFields: seq<Field>)
    requires CtxOk(ctx)
    ensures InvokeSpec(ctx, coords, DefaultObjectCallback(objectFields)).result.Ok? ==>
      && InvokeSpec(ctx, coords, DefaultObjectCallback(objectFields)).result.value.ObjectStep?
      && InvokeSpec(ctx, coords, DefaultObjectCallback(objectFields)).result.value.keys == Names(objectFields)
      && GotEach(ctx, Names(objectFields), 0, InvokeSpec(ctx, coords, DefaultObjectCallback(objectFields)).result.value.values, 0)
  {
    GetAllFromValues(ctx, coords, Names(objectFields), 0, [], []);
  }

  // ---------------------------------------------------------------------------
  // The walkers

  /** The entries `es[base..]` are, in order, what `getPlannedValue($value.at(j), ofType)` returns for `j` in `i..l`. */
  predicate PlannedEach(parentPlan: Step, env: Env, value: InputPlan, ofType: InputType, l: nat, i: nat, es: seq<Step>, base: nat)
    requires HasEvalLength(env, value) && WellFormedType(ofType)
  {
    && i <= l
    && |es| == base + l - i
    && forall j :: i <= j < l ==> PlannedValueSpec(parentPlan, env, PlanAt(value, j), ofType).result == Ok(es[base + j - i])
  }

  lemma PlannedEachStep(parentPlan: Step, env: Env, value: InputPlan, ofType: InputType, l: nat, i: nat, es: seq<Step>, base: nat)
    requires HasEvalLength(env, value) && WellFormedType(ofType)
    requires i < l && base < |es|
    requires PlannedValueSpec(parentPlan, env, PlanAt(value, i), ofType).result == Ok(es[base])
    requires PlannedEach(parentPlan, env, value, ofType, l, i + 1, es, base + 1)
    ensures PlannedEach(parentPlan, env, value, ofType, l, i, es, base)
  {
    forall j | i < j < l
      ensures PlannedValueSpec(parentPlan, env, PlanAt(value, j), ofType).result == Ok(es[base + j - i])
    {
      assert base + 1 + j - (i + 1) == base + j - i;
    }
  }

  lemma {:induction false} PlannedEntriesValues(parentPlan: Step, env: Env, value: InputPlan, t: InputType, l: nat, i: nat, acc: seq<Step>, effects: seq<Effect>)
    requires t.List? && WellFormedType(t) && HasEvalLength(env, value) && i <= l
    ensures
      var r := PlannedEntriesFrom(parentPlan, env, value, t, l, i, acc, effects);
      r.result.Ok? ==> r.result.value.entries[..|acc|] == acc && PlannedEach(parentPlan, env, value, t.ofType, l, i, r.result.value.entries, |acc|)
    decreases l - i
  {
    var r := PlannedEntriesFrom(parentPlan, env, value, t, l, i, acc, effects);
    if i < l {
      var e := PlannedValueSpec(parentPlan, env, PlanAt(value, i), t.ofType);
      if e.result.Ok? {
        var acc' := acc + [e.result.value];
        assert r == PlannedEntriesFrom(parentPlan, env, value, t, l, i + 1, acc', effects + e.effects);
        PlannedEntriesValues(parentPlan, env, value, t, l, i + 1, acc', effects + e.effects);
        if r.result.Ok? {
          var es := r.result.value.entries;
          assert es[..|acc'|] == acc';
          assert es[..|acc|] == es[..|acc'|][..|acc|];
          assert es[|acc|] == acc'[|acc|];
          PlannedEachStep(parentPlan, env, value, t.ofType, l, i, es, |acc|);
        }
      }
    } else {
      assert r.result.value.entries == acc;
    }
  }

  /**
   * `getPlannedValue` over a list type: `constant(null)` when the length is
   * null, else `list` of one entry per index, each planned from `$value.at(i)`.
   */
  lemma PlannedList(parentPlan: Step, env: Env, value: InputPlan, t: InputType)
    requires t.List? && WellFormedType(t) && HasEvalLength(env, value)
    ensures EvalLength(env, value).None? ==> PlannedValueSpec(parentPlan, env, value, t) == Reply(Ok(ConstantNull), [])
    ensures EvalLength(env, value).Some? && PlannedValueSpec(parentPlan, env, value, t).result.Ok? ==>
      && PlannedValueSpec(parentPlan, env, value, t).result.value.ListStep?
      && PlannedEach(parentPlan, env, value, t.ofType, EvalLength(env, value).value, 0, PlannedValueSpec(parentPlan, env, value, t).result.value.entries, 0)
  {
    if EvalLength(env, value).Some? {
      PlannedEntriesValues(parentPlan, env, value, t, EvalLength(env, value).value, 0, [], []);
    }
  }

  /** The effects of `applyPlannedValue($value.at(j), ofType, $toPlan)` for `j` from `i` to `l - 1`, concatenated in index order. */
  function ApplyEffectsEach(parentPlan: Step, env: Env, value: InputPlan, ofType: InputType, target: Step, l: nat, i: nat): seq<Effect>
    requires HasEvalLength(env, value) && WellFormedType(ofType) && i <= l
    decreases l - i
  {
    if i == l then [] else ApplyPlannedValueSpec(parentPlan, env, PlanAt(value, i), ofType, target).effects + ApplyEffectsEach(parentPlan, env, value, ofType, target, l, i + 1)
  }

  /** Every entry `$value.at(j)` for `j` from `i` to `l - 1` applies without throwing. */
  predicate AppliedEach(parentPlan: Step, env: Env, value: InputPlan, ofType: InputType, target: Step, l: nat, i: nat)
    requires HasEvalLength(env, value) && WellFormedType(ofType)
    decreases l - i
  {
    i >= l || (ApplyPlannedValueSpec(parentPlan, env, PlanAt(value, i), ofType, target).result.Ok? && AppliedEach(parentPlan, env, value, ofType, target, l, i + 1))
  }

  /**
   * Entry `k` is the first from `i` on to throw, and `r` is that error with
   * the effects of the entries before it and those of entry `k` itself.
   */
  predicate FirstFailure(parentPlan: Step, env: Env, value: InputPlan, ofType: InputType, target: Step, i: nat, k: nat, effects: seq<Effect>, r: Reply)
    requires HasEvalLength(env, value) && WellFormedType(ofType) && i <= k
  {
    var e := ApplyPlannedValueSpec(parentPlan, env, PlanAt(value, k), ofType, target);
    && AppliedEach(parentPlan, env, value, ofType, target, k, i)
    && e.result.Err?
    && r == Reply(e.result, effects + ApplyEffectsEach(parentPlan, env, value, ofType, target, k, i) + e.effects)
  }

  /** One step of the apply walker's list case: entry `i` applied, the rest still to come. */
  lemma ApplyEntriesStep(parentPlan: Step, env: Env, value: InputPlan, t: InputType, target: Step, l: nat, i: nat, effects: seq<Effect>)
    requires t.List? && WellFormedType(t) && HasEvalLength(env, value) && i < l
    ensures
      var e := ApplyPlannedValueSpec(parentPlan, env, PlanAt(value, i), t.ofType, target);
      ApplyEntriesFrom(parentPlan, env, value, t, target, l, i, effects)
        == if e.result.Err? then Reply(e.result, effects + e.effects)
           else ApplyEntriesFrom(parentPlan, env, value, t, target, l, i + 1, effects + e.effects)
  {
  }

  /** The list case succeeds exactly when every entry applies, and then carries their effects in index order. */
  lemma {:induction false} ApplyEntriesEach(parentPlan: Step, env: Env, value: InputPlan, t: InputType, target: Step, l: nat, i: nat, effects: seq<Effect>)
    requires t.List? && WellFormedType(t) && HasEvalLength(env, value) && i <= l
    ensures
      var r := ApplyEntriesFrom(parentPlan, env, value, t, target, l, i, effects);
      && (r.result.Ok? <==> AppliedEach(parentPlan, env, value, t.ofType, target, l, i))
      && (r.result.Ok? ==> r.effects == effects + ApplyEffectsEach(parentPlan, env, value, t.ofType, target, l, i))
    decreases l - i
  {
    if i < l {
      var e := ApplyPlannedValueSpec(parentPlan, env, PlanAt(value, i), t.ofType, target);
      ApplyEntriesStep(parentPlan, env, value, t, target, l, i, effects);
      if e.result.Ok? {
        ApplyEntriesEach(parentPlan, env, value, t, target, l, i + 1, effects + e.effects);
        assert effects + e.effects + ApplyEffectsEach(parentPlan, env, value, t.ofType, target, l, i + 1)
          == effects + ApplyEffectsEach(parentPlan, env, value, t.ofType, target, l, i);
      }
    }
  }

  /** A first failure after entry `i`, which applied with effects `ei`, is a first failure from `i`. */
  lemma FirstFailureStep(parentPlan: Step, env: Env, value: InputPlan, ofType: InputType, target: Step, i: nat, k: nat, effects: seq<Effect>, r: Reply)
    requires HasEvalLength(env, value) && WellFormedType(ofType) && i < k
    requires ApplyPlannedValueSpec(parentPlan, env, PlanAt(value, i), ofType, target).result.Ok?
    requires FirstFailure(parentPlan, env, value, ofType, target, i + 1, k,
      effects + ApplyPlannedValueSpec(parentPlan, env, PlanAt(value, i), ofType, target).effects, r)
    ensures FirstFailure(parentPlan, env, value, ofType, target, i, k, effects, r)
  {
    var ei := ApplyPlannedValueSpec(parentPlan, env, PlanAt(value, i), ofType, target).effects;
    var ek := ApplyPlannedValueSpec(parentPlan, env, PlanAt(value, k), ofType, target).effects;
    var rest := ApplyEffectsEach(parentPlan, env, value, ofType, target, k, i + 1);
    assert ApplyEffectsEach(parentPlan, env, value, ofType, target, k, i) == ei + rest;
    assert effects + ei + rest + ek == effects + (ei + rest) + ek;
  }

  /** When the list case throws, it is with the first failing entry's error, after the effects of the entries before it. */
  lemma {:induction false} ApplyEntriesFailure(parentPlan: Step, env: Env, value: InputPlan, t: InputType, target: Step, l: nat, i: nat, effects: seq<Effect>)
    requires t.List? && WellFormedType(t) && HasEvalLength(env, value) && i <= l
    ensures
      var r := ApplyEntriesFrom(parentPlan, env, value, t, target, l, i, effects);
      r.result.Err? ==> exists k :: i <= k < l && FirstFailure(parentPlan, env, value, t.ofType, target, i, k, effects, r)
    decreases l - i
  {
    var r := ApplyEntriesFrom(parentPlan, env, value, t, target, l, i, effects);
    if i < l {
      var e := ApplyPlannedValueSpec(parentPlan, env, PlanAt(value, i), t.ofType, target);
      ApplyEntriesStep(parentPlan, env, value, t, target, l, i, effects);
      if e.result.Ok? {
        ApplyEntriesFailure(parentPlan, env, value, t, target, l, i + 1, effects + e.effects);
        if r.result.Err? {
          var k :| i + 1 <= k < l && FirstFailure(parentPlan, env, value, t.ofType, target, i + 1, k, effects + e.effects, r);
          FirstFailureStep(parentPlan, env, value, t.ofType, target, i, k, effects, r);
        }
      } else {
        assert ApplyEffectsEach(parentPlan, env, value, t.ofType, target, i, i) == [];
        assert FirstFailure(parentPlan, env, value, t.ofType, target, i, i, effects, r);
      }
    }
  }

  /**
   * `applyPlannedValue` over a list type: nothing when the length is null;
   * otherwise each `$value.at(j)` in index order, succeeding exactly when
   * every entry does and then with their effects concatenated, or stopping
   * at the first entry that throws.
   */
  lemma ApplyList(parentPlan: Step, env: Env, value: InputPlan, t: InputType, target: Step)
    requires t.List? && WellFormedType(t) && HasEvalLength(env, value)
    ensures EvalLength(env, value).None? ==> ApplyPlannedValueSpec(parentPlan, env, value, t, target) == Reply(Ok(NoPlan), [])
    ensures EvalLength(env, value).Some? ==>
      var l := EvalLength(env, value).value;
      var r := ApplyPlannedValueSpec(parentPlan, env, value, t, target);
      && (r.result.Ok? <==> AppliedEach(parentPlan, env, value, t.ofType, target, l, 0))
      && (r.result.Ok? ==> r.effects == ApplyEffectsEach(parentPlan, env, value, t.ofType, target, l, 0))
      && (r.result.Err? ==> exists k :: 0 <= k < l && FirstFailure(parentPlan, env, value, t.ofType, target, 0, k, [], r))
  {
    if EvalLength(env, value).Some? {
      ApplyEntriesEach(parentPlan, env, value, t, target, EvalLength(env, value).value, 0, []);
      ApplyEntriesFailure(parentPlan, env, value, t, target, EvalLength(env, value).value, 0, []);
    }
  }

  /**
   * `evalLength` is what separates the plans a list type can be walked over:
   * over a plan without it, the list node of a literal list included, both
   * walkers throw.
   */
  lemma ListWalkNeedsEvalLength(parentPlan: Step, env: Env, value: InputPlan, t: InputType, target: Step)
    requires t.List? && WellFormedType(t) && !HasEvalLength(env, value)
    ensures PlannedValueSpec(parentPlan, env, value, t) == Reply(Err(NoEvalLength), [])
    ensures ApplyPlannedValueSpec(parentPlan, env, value, t, target) == Reply(Err(NoEvalLength), [])
  {
  }

  /** Non-null wrappers are transparent to both walkers. */
  lemma WalkersIgnoreNonNull(parentPlan: Step, env: Env, value: InputPlan, t: InputType, target: Step)
    requires WellFormedType(t)
    ensures PlannedValueSpec(parentPlan, env, value, NonNull(t)) == PlannedValueSpec(parentPlan, env, value, t)
    ensures ApplyPlannedValueSpec(parentPlan, env, value, NonNull(t), target) == ApplyPlannedValueSpec(parentPlan, env, value, t, target)
  {
  }

  /** `find` returns the first enum value whose value is equal. */
  lemma {:induction false} FindEnumValueFirst(values: seq<EnumValue>, value: JsValue, i: nat)
    requires i < |values| && values[i].value == value
    requires forall j :: 0 <= j < i ==> values[j].value != value
    ensures FindEnumValue(values, value) == Some(values[i])
  {
    if i > 0 {
      FindEnumValueFirst(values[1..], value, i - 1);
    }
  }

  /**
   * Applying an enum value invokes at most one resolver: the `applyPlan` of
   * the first enum value equal to the evaluated value, with the target.
   */
  lemma ApplyEnumValue(parentPlan: Step, env: Env, value: InputPlan, t: InputType, target: Step, i: nat)
    requires t.Enum? && i < |t.values| && t.values[i].value == EvalPlan(env, value)
    requires forall j :: 0 <= j < i ==> t.values[j].value != EvalPlan(env, value)
    ensures ApplyPlannedValueSpec(parentPlan, env, value, t, target) ==
      Reply(Ok(NoPlan), if t.values[i].applyPlan.Some? then [Invoked(t.values[i].applyPlan.value, [target])] else [])
  {
    FindEnumValueFirst(t.values, EvalPlan(env, value), i);
  }

  /** Applying a scalar, or an enum value matching none of the enum's values, does nothing. */
  lemma ApplyLeafWithoutResolver(parentPlan: Step, env: Env, value: InputPlan, t: InputType, target: Step)
    requires t.Scalar? || (t.Enum? && forall j :: 0 <= j < |t.values| ==> t.values[j].value != EvalPlan(env, value))
    ensures ApplyPlannedValueSpec(parentPlan, env, value, t, target) == Reply(Ok(NoPlan), [])
  {
    if t.Enum? {
      assert forall v :: v in t.values ==> v.value != EvalPlan(env, value);
    }
  }

  /** Applying an input object none of whose fields has an `applyPlan` does nothing. */
  lemma ApplyObjectWithoutResolvers(parentPlan: Step, env: Env, value: InputPlan, t: InputType, target: Step)
    requires t.InputObject? && WellFormedType(t)
    requires forall j :: 0 <= j < |t.fields| ==> t.fields[j].applyPlan.None?
    ensures ApplyPlannedValueSpec(parentPlan, env, value, t, target) == Reply(Ok(NoPlan), [])
  {
    assert NextWithApplyPlan(t.fields, 0) == |t.fields|;
    assert ApplyObjectFieldsFrom(parentPlan, env, value, t, target, 0, []) == ApplyObjectFieldAt(parentPlan, env, value, t, target, |t.fields|, []);
  }

  // ---------------------------------------------------------------------------
  // withFieldArgsForArguments: the keys

  /**
   * Looking a name up in the argument object finds the last argument of that
   * name; a name no argument has finds the member the object inherits from
   * `Object.prototype`, if there is one, and otherwise nothing.
   */
  lemma {:induction false} ArgumentMapLookup(args: seq<Field>, name: string)
    ensures FieldNamed(ArgumentMap(args), name) == LastNamed(args, name)
    ensures MemberLookup(ArgumentMap(args), true, name) ==
      if LastNamed(args, name).Some? then Ok(Declared(LastNamed(args, name).value))
      else if IsObjectPrototypeKey(name) then Ok(Inherited(name))
      else Err(UnknownField(name))
  {
    if args != [] {
      ArgumentMapLookup(args[..|args| - 1], name);
    }
  }

  /** The argument object has a key for exactly the names of the arguments. */
  lemma ArgumentMapKeys(args: seq<Field>, name: string)
    ensures name in Names(ArgumentMap(args)) <==> exists j :: 0 <= j < |args| && args[j].name == name
  {
    var fs := ArgumentMap(args);
    ArgumentMapLookup(args, name);
    if name in Names(fs) {
      var i :| 0 <= i < |fs| && Names(fs)[i] == name;
      assert fs[i] in fs;
    }
  }

  /** Dropping the last argument keeps the names distinct, and none of the rest shares the last one's name. */
  lemma DistinctNamesPrefix(args: seq<Field>, pre: seq<Field>, last: Field)
    requires args == pre + [last] && forall i, j :: 0 <= i < j < |args| ==> args[i].name != args[j].name
    ensures forall i, j :: 0 <= i < j < |pre| ==> pre[i].name != pre[j].name
    ensures forall j :: 0 <= j < |pre| ==> pre[j].name != last.name
  {
    assert forall j :: 0 <= j < |pre| ==> pre[j] == args[j];
    assert last == args[|pre|];
  }

  /** With distinct argument names the object lists the arguments as declared. */
  lemma {:induction false} ArgumentMapOfDistinctNames(args: seq<Field>)
    requires forall i, j :: 0 <= i < j < |args| ==> args[i].name != args[j].name
    ensures ArgumentMap(args) == args
  {
    if args != [] {
      var pre := args[..|args| - 1];
      var last := args[|args| - 1];
      assert args == pre + [last];
      DistinctNamesPrefix(args, pre, last);
      ArgumentMapOfDistinctNames(pre);
      assert ArgumentMap(args) == SetField(pre, last);
      SetFieldNewKey(pre, last);
    }
  }

}
