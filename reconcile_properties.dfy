/**
 * The reconciliation pass of the argument façade never runs out of the
 * depth budget it is started with: every descent follows a recorded
 * coordinate, which is at most `Longest(coordinates)` characters long, and
 * what a descent records lies under the field it descended into.
 */
module ReconcileProperties {
  import opened Wrappers
  import opened Schema
  import opened InputPlans
  import opened Coordinates
  import opened FacadeSpec
  import opened FacadeProperties

  lemma FieldNamesAreSegments(fs: seq<Field>)
    requires WellFormedFields(fs)
    ensures forall m :: 0 <= m < |Names(fs)| ==> DotFree(Names(fs)[m])
    ensures forall m, n :: 0 <= m < n < |Names(fs)| ==> Names(fs)[m] != Names(fs)[n]
  {
    forall m | 0 <= m < |fs|
      ensures DotFree(fs[m].name)
    {
      assert ValidName(fs[m].name);
    }
  }

  /** The coordinates grew from `before` to `after`, and every added one starts with `prefix`. */
  predicate Grew(before: seq<string>, after: seq<string>, prefix: string) {
    before <= after && forall i :: |before| <= i < |after| ==> StartsWith(after[i], prefix)
  }

  lemma GrewTrans(a: seq<string>, b: seq<string>, c: seq<string>, prefix: string)
    requires Grew(a, b, prefix) && Grew(b, c, prefix)
    ensures Grew(a, c, prefix)
  {
    forall i | |a| <= i < |c|
      ensures StartsWith(c[i], prefix)
    {
      if i < |b| {
        assert c[i] == b[i];
      }
    }
  }

  /** An input-object field below which something was read leaves budget for its own pass. */
  lemma DescendBudget(coords: seq<string>, parentPath: seq<string>, fs: seq<Field>, k: nat, budget: nat)
    requires WellFormedFields(fs) && k < |fs|
    requires BudgetHolds(coords, PrefixOf(parentPath), Names(fs), k, budget)
    requires AnyStartsWith(coords, Join(parentPath + [fs[k].name]) + ".")
    ensures |fs[k].name| + 1 <= budget
    ensures BudgetHolds(coords, PrefixOf(parentPath + [fs[k].name]), Names(fs), 0, budget - |fs[k].name| - 1)
  {
    JoinSnoc(parentPath, fs[k].name);
    PrefixSnoc(parentPath, fs[k].name);
    assert Names(fs)[k] == fs[k].name;
    BudgetForChild(coords, PrefixOf(parentPath), Names(fs), k, budget);
  }

  /** Coordinates added below `prefix + name + "."` lie under `prefix + name`, and so below `prefix`. */
  lemma GrewUnder(before: seq<string>, after: seq<string>, prefix: string, name: string)
    requires Grew(before, after, prefix + (name + "."))
    ensures forall i :: |before| <= i < |after| ==> Under(after[i], prefix + name)
    ensures Grew(before, after, prefix)
  {
    assert (prefix + name) + "." == prefix + (name + ".");
    AddedStartWith(before, after, prefix, name + ".");
  }

  /** `BudgetAfterStep` for the façade's own field names. */
  lemma FieldsBudgetAfterStep(before: seq<string>, after: seq<string>, prefix: string, fs: seq<Field>, k: nat, budget: nat)
    requires WellFormedFields(fs) && k < |fs|
    requires before <= after
    requires forall i :: |before| <= i < |after| ==> Under(after[i], prefix + fs[k].name)
    requires BudgetHolds(before, prefix, Names(fs), k, budget)
    ensures BudgetHolds(after, prefix, Names(fs), k + 1, budget)
  {
    FieldNamesAreSegments(fs);
    assert Names(fs)[k] == fs[k].name;
    BudgetAfterStep(before, after, prefix, Names(fs), k, budget);
  }

  /** What the pass inside the `k`-th field added keeps the budget for the fields after it. */
  lemma DescendBudgetAfter(before: seq<string>, after: seq<string>, parentPath: seq<string>, fs: seq<Field>, k: nat, budget: nat)
    requires WellFormedFields(fs) && k < |fs|
    requires BudgetHolds(before, PrefixOf(parentPath), Names(fs), k, budget)
    requires Grew(before, after, PrefixOf(parentPath + [fs[k].name]))
    ensures BudgetHolds(after, PrefixOf(parentPath), Names(fs), k + 1, budget)
    ensures Grew(before, after, PrefixOf(parentPath))
  {
    var name := fs[k].name;
    PrefixSnoc(parentPath, name);
    GrewUnder(before, after, PrefixOf(parentPath), name);
    FieldsBudgetAfterStep(before, after, PrefixOf(parentPath), fs, k, budget);
  }

  /** A pass inside the `k`-th field that kept within its budget leaves the budget for the fields after it. */
  lemma ChildBounded(coords: seq<string>, child: Trace, parentPath: seq<string>, fs: seq<Field>, k: nat, budget: nat)
    requires WellFormedFields(fs) && k < |fs|
    requires BudgetHolds(coords, PrefixOf(parentPath), Names(fs), k, budget)
    requires Bounded(coords, child, PrefixOf(parentPath + [fs[k].name]))
    ensures child.result != Err(ReconcileDepth)
    ensures BudgetHolds(child.coords, PrefixOf(parentPath), Names(fs), k + 1, budget)
    ensures Grew(coords, child.coords, PrefixOf(parentPath))
  {
    DescendBudgetAfter(coords, child.coords, parentPath, fs, k, budget);
  }

  /** Recording the `k`-th field's path keeps the budget for the fields after it. */
  lemma ApplyBudgetAfter(coords: seq<string>, parentPath: seq<string>, fs: seq<Field>, k: nat, budget: nat)
    requires WellFormedFields(fs) && k < |fs|
    requires BudgetHolds(coords, PrefixOf(parentPath), Names(fs), k, budget)
    ensures BudgetHolds(Recorded(Some(fs), coords, parentPath + [fs[k].name]), PrefixOf(parentPath), Names(fs), k + 1, budget)
    ensures Grew(coords, Recorded(Some(fs), coords, parentPath + [fs[k].name]), PrefixOf(parentPath))
  {
    var next := Recorded(Some(fs), coords, parentPath + [fs[k].name]);
    JoinSnoc(parentPath, fs[k].name);
    FieldsBudgetAfterStep(coords, next, PrefixOf(parentPath), fs, k, budget);
  }

  // ---------------------------------------------------------------------------
  // Errors that the steps of the pass can raise

  lemma {:induction false} TraverseFromNeverDepth(value: InputPlan, field: Field, rest: seq<string>)
    ensures TraverseFrom(value, field, rest).Err? ==> TraverseFrom(value, field, rest).error != ReconcileDepth
    decreases |rest|
  {
    if rest != [] && NullableType(field.typ).InputObject? {
      var child := GetChild(value, rest[0]);
      var next := FieldLookup(NullableType(field.typ).fields, rest[0]);
      if child.Ok? && next.Ok? {
        TraverseFromNeverDepth(child.value, next.value, rest[1..]);
      }
    }
  }

  /** Applying the plan to one field raises a path or resolver exception, never a budget one. */
  lemma ApplyAtNeverDepth(ctx: Ctx, target: Step, path: seq<string>)
    ensures ApplyAtSpec(ctx, target, path).result != Err(ReconcileDepth)
  {
    if |path| >= 1 && ctx.fields.Some? {
      var value := CurrentGet(ctx.current, path[0]);
      var field := FieldLookup(ctx.fields.value, path[0]);
      if value.Ok? && field.Ok? {
        TraverseFromNeverDepth(value.value, field.value, path[1..]);
      }
    }
  }

  // ---------------------------------------------------------------------------
  // The pass, one function at a time

  /** What `ProcessFrom` guarantees when the budget covers the fields still to visit. */
  predicate Bounded(before: seq<string>, r: Trace, prefix: string) {
    r.result != Err(ReconcileDepth) && Grew(before, r.coords, prefix)
  }

  lemma {:induction false} ProcessBounded(ctx: Ctx, coords: seq<string>, parentPath: seq<string>, plan: Step, k: nat, budget: nat, effects: seq<Effect>)
    requires CtxOk(ctx) && ctx.fields.Some? && k <= |ctx.fields.value|
    requires BudgetHolds(coords, PrefixOf(parentPath), Names(ctx.fields.value), k, budget)
    ensures Bounded(coords, ProcessFrom(ctx, coords, parentPath, plan, k, budget, effects), PrefixOf(parentPath))
    decreases budget, 4 * (|ctx.fields.value| - k) + 3
  {
    var fs := ctx.fields.value;
    if k < |fs| {
      match ReconcileDecision(coords, Join(parentPath + [fs[k].name]))
      case Skip =>
        SkipBounded(ctx, coords, parentPath, plan, k, budget, effects);
      case Descend =>
        DescendBounded(ctx, coords, parentPath, plan, k, budget, effects);
      case ApplyDefault =>
        ApplyBounded(ctx, coords, parentPath, plan, k, budget, effects);
    }
  }

  lemma {:induction false} SkipBounded(ctx: Ctx, coords: seq<string>, parentPath: seq<string>, plan: Step, k: nat, budget: nat, effects: seq<Effect>)
    requires CtxOk(ctx) && ctx.fields.Some? && k < |ctx.fields.value|
    requires BudgetHolds(coords, PrefixOf(parentPath), Names(ctx.fields.value), k, budget)
    ensures Bounded(coords, ProcessFrom(ctx, coords, parentPath, plan, k + 1, budget, effects), PrefixOf(parentPath))
    decreases budget, 4 * (|ctx.fields.value| - k) + 2
  {
    BudgetSkip(coords, PrefixOf(parentPath), Names(ctx.fields.value), k, budget);
    ProcessBounded(ctx, coords, parentPath, plan, k + 1, budget, effects);
  }

  lemma {:induction false} DescendBounded(ctx: Ctx, coords: seq<string>, parentPath: seq<string>, plan: Step, k: nat, budget: nat, effects: seq<Effect>)
    requires CtxOk(ctx) && ctx.fields.Some? && k < |ctx.fields.value|
    requires BudgetHolds(coords, PrefixOf(parentPath), Names(ctx.fields.value), k, budget)
    requires AnyStartsWith(coords, Join(parentPath + [ctx.fields.value[k].name]) + ".")
    ensures Bounded(coords, DescendInto(ctx, coords, parentPath, plan, k, budget, effects), PrefixOf(parentPath))
    decreases budget, 4 * (|ctx.fields.value| - k) + 2
  {
    var fs := ctx.fields.value;
    var name := fs[k].name;
    if NullableType(fs[k].typ).InputObject? {
      DescendBudget(coords, parentPath, fs, k, budget);
      DescendObjectBounded(ctx, coords, parentPath, plan, k, budget, effects, name);
    }
  }

  lemma {:induction false} DescendObjectBounded(ctx: Ctx, coords: seq<string>, parentPath: seq<string>, plan: Step, k: nat, budget: nat, effects: seq<Effect>, name: string)
    requires CtxOk(ctx) && ctx.fields.Some? && k < |ctx.fields.value| && ctx.fields.value[k].name == name
    requires NullableType(ctx.fields.value[k].typ).InputObject? && |name| + 1 <= budget
    requires BudgetHolds(coords, PrefixOf(parentPath), Names(ctx.fields.value), k, budget)
    requires BudgetHolds(coords, PrefixOf(parentPath + [name]), Names(ctx.fields.value), 0, budget - |name| - 1)
    ensures Bounded(coords, DescendInto(ctx, coords, parentPath, plan, k, budget, effects), PrefixOf(parentPath))
    decreases budget, 4 * (|ctx.fields.value| - k) + 1
  {
    var child := ProcessFrom(ctx, coords, parentPath + [name], plan, 0, budget - |name| - 1, []);
    ProcessBounded(ctx, coords, parentPath + [name], plan, 0, budget - |name| - 1, []);
    DescendStep(ctx, coords, parentPath, plan, k, budget, effects, name, child);
    ChildBounded(coords, child, parentPath, ctx.fields.value, k, budget);
    ContinueBounded(ctx, child, parentPath, plan, k, budget, effects);
    GrewTrans(coords, child.coords, ContinueAfter(ctx, child, parentPath, plan, k, budget, effects).coords, PrefixOf(parentPath));
  }

  lemma {:induction false} ApplyBounded(ctx: Ctx, coords: seq<string>, parentPath: seq<string>, plan: Step, k: nat, budget: nat, effects: seq<Effect>)
    requires CtxOk(ctx) && ctx.fields.Some? && k < |ctx.fields.value|
    requires BudgetHolds(coords, PrefixOf(parentPath), Names(ctx.fields.value), k, budget)
    ensures Bounded(coords, ApplyToField(ctx, coords, parentPath, plan, k, budget, effects), PrefixOf(parentPath))
    decreases budget, 4 * (|ctx.fields.value| - k) + 2
  {
    var fs := ctx.fields.value;
    var newPath := parentPath + [fs[k].name];
    var rep := ApplyAtSpec(ctx, plan, newPath);
    var step := Trace(rep.result, rep.effects, Recorded(ctx.fields, coords, newPath));
    ApplyAtNeverDepth(ctx, plan, newPath);
    ApplyBudgetAfter(coords, parentPath, fs, k, budget);
    ContinueBounded(ctx, step, parentPath, plan, k, budget, effects);
    GrewTrans(coords, step.coords, ApplyToField(ctx, coords, parentPath, plan, k, budget, effects).coords, PrefixOf(parentPath));
  }

  lemma {:induction false} ContinueBounded(ctx: Ctx, step: Trace, parentPath: seq<string>, plan: Step, k: nat, budget: nat, effects: seq<Effect>)
    requires CtxOk(ctx) && ctx.fields.Some? && k < |ctx.fields.value|
    requires step.result != Err(ReconcileDepth)
    requires BudgetHolds(step.coords, PrefixOf(parentPath), Names(ctx.fields.value), k + 1, budget)
    ensures Bounded(step.coords, ContinueAfter(ctx, step, parentPath, plan, k, budget, effects), PrefixOf(parentPath))
    decreases budget, 4 * (|ctx.fields.value| - k)
  {
    if step.result.Ok? {
      ProcessBounded(ctx, step.coords, parentPath, plan, k + 1, budget, effects + step.effects);
    }
  }

  // ---------------------------------------------------------------------------
  // The whole façade

  /**
   * The façade's result is the callback's plan: reconciliation only adds
   * effects and coordinates, or throws, and it is skipped when the callback
   * returned nothing. When it reconciles fields, the exception it may throw
   * is never the exhausted budget.
   */
  lemma RunReturnsCallbackPlan(ctx: Ctx, coords: seq<string>, cb: Callback)
    requires CtxOk(ctx)
    ensures InvokeSpec(ctx, coords, cb).effects <= RunSpec(ctx, coords, cb).effects
    ensures InvokeSpec(ctx, coords, cb).coords <= RunSpec(ctx, coords, cb).coords
    ensures RunSpec(ctx, coords, cb).result.Ok? ==> RunSpec(ctx, coords, cb).result == InvokeSpec(ctx, coords, cb).result
    ensures InvokeSpec(ctx, coords, cb).result.Err? ==> RunSpec(ctx, coords, cb) == InvokeSpec(ctx, coords, cb)
    ensures InvokeSpec(ctx, coords, cb).result == Ok(NoPlan) ==> RunSpec(ctx, coords, cb) == InvokeSpec(ctx, coords, cb)
    ensures ctx.fields.Some? && RunSpec(ctx, coords, cb).result != InvokeSpec(ctx, coords, cb).result ==>
      RunSpec(ctx, coords, cb).result.Err? && RunSpec(ctx, coords, cb).result != Err(ReconcileDepth)
  {
    var t := InvokeSpec(ctx, coords, cb);
    if t.result.Ok? && Truthy(t.result.value) && "" !in t.coords {
      if ctx.fields.None? {
        ApplySpecGrows(ctx, t.coords, t.result.value, NoPath);
      } else {
        BudgetInitial(t.coords, Names(ctx.fields.value));
        ProcessBounded(ctx, t.coords, [], t.result.value, 0, Longest(t.coords), []);
      }
    }
  }
}
