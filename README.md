# Input planning and polymorphic table descriptions

This project models three parts of the crystal repository in Dafny and proves properties of the model.

- **Input plans** (`packages/graphile-crystal/src/input.ts`). From the static GraphQL type of an argument and its AST value, the planner builds a tree of input plans. The value is a literal, a variable reference, or nothing. Variables are resolved through the operation's definitions, a variable's type is checked against the position, and defaults are substituted. An `InputListPlan` object is built with its item plans and the out-of-bounds plan they share.
- **The argument façade** (`packages/dataplanner/src/aether-input.ts`). Planning code receives a `fieldArgs` object offering `get`, `getRaw` and `apply`. The façade does three things:
  - it walks dotted paths through arguments and input-object fields;
  - it calls the `inputPlan` and `applyPlan` resolvers attached to them, and records every coordinate the callback touched;
  - once the callback has returned a plan, a reconciliation pass applies that plan to every field the callback left alone.

  Two walkers are modelled as well: `getPlannedValue` and `applyPlannedValue`. They derive or apply a whole input value through lists, input objects, scalars and enums.
- **Polymorphic tables** (`graphile-build/graphile-build-pg/src/plugins/PgPolymorphismPlugin.ts`). This covers `parseColumn` for the `columns:` lists of `@type` smart tags. It also covers the gather hook `pgCodecs_recordType_extensions`, which reads a table's `@interface` tag and records a single-table, relational or union polymorphism description, or throws.

Module layout:

| module | contents |
|---|---|
| `Schema` | input types, resolver scripts and errors |
| `InputPlans` | `input.ts`, including the class `InputListPlan` |
| `Coordinates` | dotted coordinates and JavaScript's `in` on an array |
| `FacadeSpec` | the façade as pure functions |
| `FieldArgs` | the class `Facade` |
| `FacadeProperties`, `ReconcileProperties` | lemmas about the façade |
| `Polymorphism` | the plugin |
| `Findings` | two discrepancies in the code |

Modelling conventions:

- **One mutable field.** The façade's only mutable state is its array of analysed coordinates. That array is a field of the class `FieldArgs.Facade`. Every method of `Facade` is proved equal to the function of `FacadeSpec` that gives its result, the resolvers it invoked and its new coordinates.
- **Resolvers as scripts.** User resolvers are opaque code. Each one is modelled as a script: the sequence of façade calls it makes and whether it returns a plan. A resolver's result is a symbolic plan that records the plans it was called with.
- **No exceptions.** Each thrown exception becomes an `Err` value.

The model follows the code as written, including these behaviours:

- `InputListPlan` builds every item plan from `undefined` (input.ts:176).
- The walkers of aether-input.ts are paired here with the `InputListPlan` of input.ts, which has no `evalLength`, so they reject it (aether-input.ts:216, 279). aether-input.ts itself imports the planner's own input module, which is not part of this model. Its error message expects that module's list plan to have `evalLength`. Under that module, a list literal would be walked through `Env` like any opaque plan.
- The argument object is a plain object literal (aether-input.ts:49-51), so `fields[argName]` also finds the members it inherits from `Object.prototype`. `get("toString")` over arguments that declare no `toString` gives the tracked argument value and does not throw (aether-input.ts:98-106, 202-203).
- The reconciliation pass walks the façade's own `fields` at every depth (aether-input.ts:410-411).
- The reconciliation pass tests `pathStr in analyzedCoordinates`, which checks array property keys, not elements (aether-input.ts:415).
- The `type` that aether-input.ts:143 looks at is the façade's own `type`. Every façade created in this file passes `null` there.
- `withFieldArgsForArgOrField` hands resolvers `null` instead of a façade, so a resolver that uses its façade throws (aether-input.ts:445).

## Model

| member | source | states |
|---|---|---|
| Schema.NullableTypeUnwraps | packages/dataplanner/src/aether-input.ts:106 | `getNullableType` undoes exactly one non-null wrapper: it shrinks a type exactly when the type is non-null, and keeps it well formed |
| Schema.FieldNamed | packages/dataplanner/src/aether-input.ts:125 | looking a key up in an input object's field map, which has no prototype, finds a field of that name in the list, or none exists |
| Schema.Names | packages/dataplanner/src/aether-input.ts:336 | `Object.keys(fields)` lists one name per field, in declaration order |
| InputPlans.GetTypeForNodePreservesStructure | packages/graphile-crystal/src/input.ts:26-51 | resolving a type reference succeeds exactly when every name in it is in the schema; it keeps the list/non-null wrappers; an unknown name gives the "type not found" error |
| InputPlans.GetTypeOfNodeOfType | packages/graphile-crystal/src/input.ts:26-51 | resolving the reference that denotes a schema type gives that type back (round trip) |
| InputPlans.TypesMatchIffEqual | packages/graphile-crystal/src/input.ts:99-107 | `doTypesMatch` holds exactly when the two types have the same wrappers around the same named type |
| InputPlans.TypesMatchReflexive | packages/graphile-crystal/src/input.ts:99-107 | every type matches itself |
| InputPlans.TypesMatchSymmetric | packages/graphile-crystal/src/input.ts:99-107 | matching does not depend on argument order |
| InputPlans.FindVariableDefinition | packages/graphile-crystal/src/input.ts:62-64 | `find` returns a definition of the variable from the list, or there is none of that name |
| InputPlans.FindVariableDefinitionFirst | packages/graphile-crystal/src/input.ts:62-64 | `find` returns the earliest definition with the variable's name |
| InputPlans.BuildInputPlan | packages/graphile-crystal/src/input.ts:53-97 | without a variable in the value or the default, building an input plan never fails |
| InputPlans.VariablePlan | packages/graphile-crystal/src/input.ts:109-142 | a variable whose type matches the position, with a non-variable default, always yields a plan |
| InputPlans.NonNullIsTransparent | packages/graphile-crystal/src/input.ts:81-85 | for a non-variable value, a non-null position is the plan of its inner type over `value ?? default`; it adds no node |
| InputPlans.DefaultSubstituted | packages/graphile-crystal/src/input.ts:81 | a missing value is planned exactly as if the (non-variable) default had been written |
| InputPlans.VariableArgumentResolved | packages/graphile-crystal/src/input.ts:60-78 | a variable argument errs without a definition or with an unknown type name; otherwise the variable plan of its resolved type decides |
| InputPlans.VariablePlanOutcome | packages/graphile-crystal/src/input.ts:109-142 | a variable is accepted exactly when its type equals the position's type or is its non-null form; otherwise "types do not match"; once accepted the plan is the tracked variable unless a default exists and the variable is known undefined, in which case it is the default's plan |
| InputPlans.NonNullVariableForNullablePosition | packages/graphile-crystal/src/input.ts:116-128 | a non-null variable fills a nullable position of the same inner type, as its unwrapped type would |
| InputPlans.NullableVariableForNonNullPosition | packages/graphile-crystal/src/input.ts:116-130 | a nullable variable in a non-null position is rejected |
| InputPlans.ListNodeShape | packages/graphile-crystal/src/input.ts:158-184 | a list node has one item plan per literal entry (none otherwise); as written each item plan is the plan of no value; the out-of-bounds plan is the plan of no value |
| InputPlans.GetChild | packages/graphile-crystal/src/input.ts:20-24 | `get(name)` fails exactly on list and leaf plans; on a tracked plan it extends the path by the name |
| InputPlans.ListEvalShape | packages/graphile-crystal/src/input.ts:218-234 | a list node evaluates to null exactly for a `null` literal, otherwise to one value per item plan |
| InputPlans.OutOfBoundsShared | packages/graphile-crystal/src/input.ts:214-216 | every out-of-range index gives the same plan |
| InputPlans.InputListPlan.constructor | packages/graphile-crystal/src/input.ts:158-184 | the object built stands for the list node `ListNode` of the inner type and value |
| InputPlans.InputListPlan.At | packages/graphile-crystal/src/input.ts:214-216 | `at` returns `ListAt` of the node |
| InputPlans.InputListPlan.Eval | packages/graphile-crystal/src/input.ts:218-234 | `eval` returns what the list node evaluates to |
| InputPlans.InputListPlan.EvalItems | packages/graphile-crystal/src/input.ts:222-233 | the loop yields each item plan's value, in index order |
| InputPlans.InputListPlan.Execute | packages/graphile-crystal/src/input.ts:186-212 | every row of the batch receives the one literal-derived result |
| Coordinates.RecordOnce | packages/dataplanner/src/aether-input.ts:91-94 | recording a dotted path keeps the earlier coordinates in order, adds at most one entry, holds exactly the old entries and the path, and is idempotent |
| Coordinates.NameInArrayOnlyIfPrototypeKey | packages/dataplanner/src/aether-input.ts:415 | for a GraphQL name, `name in array` holds exactly when the name is a property every array has through its prototypes |
| FacadeSpec.FieldLookup | packages/dataplanner/src/aether-input.ts:125-126 | reading the type of an input object's field succeeds with a field of that name, and throws exactly when there is none |
| FacadeSpec.MemberLookup | packages/dataplanner/src/aether-input.ts:98-106 | reading `fields[argName].type`: a declared key gives its field; on the argument object a name it only inherits from `Object.prototype` gives that member; any other name throws |
| FacadeSpec.Traverse | packages/dataplanner/src/aether-input.ts:81-89 | an empty path throws "Invalid"; a path on a façade without fields throws |
| FacadeSpec.ResolverArgs | packages/dataplanner/src/aether-input.ts:138-200 | argument resolvers (façade without `type`) get the parent plan first; apply resolvers get the target last |
| FacadeSpec.InvokeWithNullFacade | packages/dataplanner/src/aether-input.ts:438-446 | the resolver is invoked once; it throws exactly when it calls its (null) façade; otherwise its plan is truthy exactly when it returns one |
| FacadeSpec.PlanArgumentOrInputField | packages/dataplanner/src/aether-input.ts:132-207 | without a resolver (`applyPlan` with a target, else `inputPlan`) the value plan is returned untouched; with one, it is run without a façade |
| FacadeSpec.GetAtSpec | packages/dataplanner/src/aether-input.ts:350-354 | a successful `get(path)` returns an executable plan; a failing traversal's exception is thrown and no resolver is invoked |
| FacadeSpec.PathOf | packages/dataplanner/src/aether-input.ts:82 | a given path is never empty once normalised to an array |
| FacadeSpec.GetAllFrom | packages/dataplanner/src/aether-input.ts:334-339 | a successful `get()` over fields yields a plain object keyed by exactly the field names, one value per name |
| FacadeSpec.ApplyAllFrom | packages/dataplanner/src/aether-input.ts:371-375 | a successful `apply($target)` over fields returns nothing |
| FacadeSpec.ApplyAllStep | packages/dataplanner/src/aether-input.ts:372-374 | applying to the names is the first name's application followed by the rest, stopping at an exception |
| FacadeSpec.GetRawSpec | packages/dataplanner/src/aether-input.ts:356-367 | `getRaw` never invokes a resolver |
| FacadeSpec.DescendStep | packages/dataplanner/src/aether-input.ts:417-424 | descending into an input-object field runs the pass on its coordinates, then continues with the next field |
| FacadeSpec.PlannedEntriesFrom | packages/dataplanner/src/aether-input.ts:225-230 | a successful list walk yields a list with one entry per index |
| FacadeSpec.FindEnumValue | packages/dataplanner/src/aether-input.ts:318 | `find` returns an enum value with the evaluated value, or none matches |
| FacadeSpec.ApplyPlannedValueSpec | packages/dataplanner/src/aether-input.ts:270-274 | `applyPlannedValue` returns nothing: a successful walk never yields a plan |
| FacadeProperties.ApplyEntriesEach | packages/dataplanner/src/aether-input.ts:288-291 | the list loop succeeds exactly when every entry `$value.at(i)` applies, and then carries the entries' effects concatenated in index order |
| FacadeProperties.ApplyEntriesFailure | packages/dataplanner/src/aether-input.ts:288-291 | when the list loop throws, it is with the first failing entry's error, after the effects of every entry before it and of that entry |
| FacadeProperties.ApplyList | packages/dataplanner/src/aether-input.ts:278-291 | over a list type, a null length applies nothing; otherwise the walk succeeds exactly when every entry applies, with their effects in index order, and else stops at the first entry that throws |
| FacadeSpec.ApplyObjectFieldsFrom | packages/dataplanner/src/aether-input.ts:293-312 | applying the input object's fields never returns a plan |
| FacadeSpec.ApplyObjectFieldAt | packages/dataplanner/src/aether-input.ts:296-310 | applying from a field with an `applyPlan` never returns a plan |
| FacadeSpec.ObjectFieldsDone | packages/dataplanner/src/aether-input.ts:294 | after the last field nothing more is applied |
| FacadeSpec.ObjectFieldWithoutResolver | packages/dataplanner/src/aether-input.ts:296-297 | a field without an `applyPlan` is passed over |
| FacadeSpec.ObjectFieldWithResolver | packages/dataplanner/src/aether-input.ts:297-310 | a field with an `applyPlan` runs it on a fresh façade over the value and the type's fields, stopping at its exception |
| FacadeSpec.NextWithApplyPlan | packages/dataplanner/src/aether-input.ts:294-297 | the next field with an `applyPlan`: every field passed over has none |
| FacadeSpec.SetField | packages/dataplanner/src/aether-input.ts:54 | after `fields[f.name] = f`, that key holds `f` and every other key is unchanged |
| FacadeSpec.SetFieldExistingKey | packages/dataplanner/src/aether-input.ts:54 | assigning an existing key keeps the number of keys |
| FacadeSpec.SetFieldNewKey | packages/dataplanner/src/aether-input.ts:54 | assigning a new key appends it last |
| FacadeSpec.LastNamed | packages/dataplanner/src/aether-input.ts:53-55 | some argument with the given name, or none exists |
| FacadeSpec.LastNamedIsLast | packages/dataplanner/src/aether-input.ts:53-55 | the argument found is the last of that name: the last assignment of a key wins |
| FacadeSpec.SetFieldWellFormed | packages/dataplanner/src/aether-input.ts:54 | assigning a valid name keeps the keys distinct valid names |
| FacadeSpec.ArgumentMapWellFormed | packages/dataplanner/src/aether-input.ts:49-55 | the object built from a field's arguments has distinct GraphQL names as keys |
| FieldArgs.Facade.constructor | packages/dataplanner/src/aether-input.ts:66-79 | a new façade has the given context and no coordinates |
| FieldArgs.Facade.GetArgOnceOnly | packages/dataplanner/src/aether-input.ts:81-130 | the loop returns `Traverse` of the path and records the dotted path once |
| FieldArgs.Facade.GetAt | packages/dataplanner/src/aether-input.ts:350-354 | equals `GetAtSpec`; records the path |
| FieldArgs.Facade.ApplyAt | packages/dataplanner/src/aether-input.ts:386-396 | equals `ApplyAtSpec`; records the path |
| FieldArgs.Facade.GetEach | packages/dataplanner/src/aether-input.ts:335-339 | the loop equals `GetAllFrom` from an empty object |
| FieldArgs.Facade.ApplyEach | packages/dataplanner/src/aether-input.ts:372-375 | the loop equals `ApplyAllFrom` |
| FieldArgs.Facade.Get | packages/dataplanner/src/aether-input.ts:331-355 | `get(path)` equals `GetSpec`: result, invoked resolvers and new coordinates |
| FieldArgs.Facade.GetRaw | packages/dataplanner/src/aether-input.ts:356-367 | `getRaw(path)` equals `GetRawSpec` |
| FieldArgs.Facade.Apply | packages/dataplanner/src/aether-input.ts:368-397 | `apply($target, path)` equals `ApplySpec` |
| FieldArgs.Facade.Invoke | packages/dataplanner/src/aether-input.ts:399 | running the callback on the façade equals `InvokeSpec` |
| FieldArgs.Facade.Run | packages/dataplanner/src/aether-input.ts:399-435 | the callback plus reconciliation equals `RunSpec` |
| FieldArgs.Facade.Process | packages/dataplanner/src/aether-input.ts:406-431 | the reconciliation loop equals `ProcessFrom` |
| FieldArgs.Facade.ProcessField | packages/dataplanner/src/aether-input.ts:411-428 | one field of the pass: skip, descend or apply, as `ProcessFrom` does |
| FieldArgs.Facade.DescendField | packages/dataplanner/src/aether-input.ts:417-425 | descending into a field equals `DescendInto` |
| FieldArgs.Facade.ApplyField | packages/dataplanner/src/aether-input.ts:426-428 | applying the plan to a field equals `ApplyToField` |
| FieldArgs.Facade.PlannedValue | packages/dataplanner/src/aether-input.ts:209-268 | `getPlannedValue` equals `PlannedValueSpec` |
| FieldArgs.Facade.ApplyPlannedValue | packages/dataplanner/src/aether-input.ts:270-328 | `applyPlannedValue` equals `ApplyPlannedValueSpec` |
| FieldArgs.Facade.ApplyObjectFields | packages/dataplanner/src/aether-input.ts:292-312 | the field loop equals `ApplyObjectFieldsFrom` |
| FieldArgs.Facade.ApplyObjectField | packages/dataplanner/src/aether-input.ts:295-310 | one field of the loop, as `ApplyObjectFieldsFrom` takes it |
| FieldArgs.WithFieldArgsForArguments | packages/dataplanner/src/aether-input.ts:42-64 | equals `ArgumentsSpec`: the argument object, then a façade over all arguments |
| FacadeProperties.Props | packages/dataplanner/src/aether-input.ts:115-119 | the tracked keys of a path are its names, in order |
| FacadeProperties.TraverseFromTracked | packages/dataplanner/src/aether-input.ts:108-127 | walking a tracked value reaches the tracked value at the path extended by the segments |
| FacadeProperties.TraverseArguments | packages/dataplanner/src/aether-input.ts:96-129 | over the field arguments, a path reaches the tracked argument value at exactly that path |
| FacadeProperties.TraverseFromLast | packages/dataplanner/src/aether-input.ts:108-127 | the loop ends at the field named by the last segment, with its nullable type |
| FacadeProperties.TraverseLastSegment | packages/dataplanner/src/aether-input.ts:81-130 | a successful traversal ends at the field named by the path's last segment, with that field's nullable type, or, for a single segment the argument object only inherits, at that member |
| FacadeProperties.TraverseThroughLeaf | packages/dataplanner/src/aether-input.ts:110-114 | a segment below a field whose type is not an input object throws |
| FacadeProperties.TraverseUnknownName | packages/dataplanner/src/aether-input.ts:98-114 | a name the façade declares no field for throws, except on the argument object for an `Object.prototype` member: one segment reaches that member, and a longer path throws for want of an input object |
| FacadeProperties.InheritedArgumentMember | packages/dataplanner/src/aether-input.ts:98-106 | `get` or `apply` of an `Object.prototype` name the arguments do not declare gives the tracked argument value of that name and invokes nothing |
| FacadeProperties.GetAtOutcome | packages/dataplanner/src/aether-input.ts:132-207 | `get` at a field: the value plan without `inputPlan` or for an inherited member; otherwise the resolver is invoked once with the parent plan; it throws if it uses its façade, fails the plan assertion if it returns nothing, and otherwise returns its plan |
| FacadeProperties.GotEachStep | packages/dataplanner/src/aether-input.ts:336-338 | one more name read keeps the values aligned with the names |
| FacadeProperties.GetAllFromValues | packages/dataplanner/src/aether-input.ts:336-338 | after reading every name, each value of the object is what `get(name)` returns for its key |
| FacadeProperties.GetAllFromGrows | packages/dataplanner/src/aether-input.ts:336-338 | reading the names only appends to coordinates and effects |
| FacadeProperties.ApplyAllFromGrows | packages/dataplanner/src/aether-input.ts:372-374 | applying to the names only appends to coordinates and effects |
| FacadeProperties.ApplyAllFromOk | packages/dataplanner/src/aether-input.ts:372-374 | when the whole walk succeeds, no single application threw |
| FacadeProperties.ApplyAllFromEach | packages/dataplanner/src/aether-input.ts:372-374 | when it succeeds, the effects are those of each name's application, in order |
| FacadeProperties.GetWholeInput | packages/dataplanner/src/aether-input.ts:332-339 | `get()` with fields records `""` and returns the object whose key `name` holds `get(name)` |
| FacadeProperties.ApplyWholeInput | packages/dataplanner/src/aether-input.ts:369-375 | `apply($target)` with fields records `""` and applies to every field in key order |
| FacadeProperties.WholeInputNeedsFieldsOrType | packages/dataplanner/src/aether-input.ts:331-384 | without fields or type, `get()` and `apply()` without a path throw, having recorded `""` |
| FacadeProperties.GetRawIsTheValuePlan | packages/dataplanner/src/aether-input.ts:356-367 | `getRaw` invokes nothing: the raw value plan or the traversal's exception; without a path it records `""` |
| FacadeProperties.PushedKept | packages/dataplanner/src/aether-input.ts:333 | pushing `""` keeps the earlier coordinates and adds `""` |
| FacadeProperties.CommandGrows | packages/dataplanner/src/aether-input.ts:331-397 | every façade call only appends coordinates; a whole read records `""` |
| FacadeProperties.ScriptGrows | packages/dataplanner/src/aether-input.ts:399 | a resolver's calls only append coordinates and effects |
| FacadeProperties.ScriptRecordsWholeRead | packages/dataplanner/src/aether-input.ts:333-370 | a script that completes after a whole read has recorded `""` |
| FacadeProperties.RunAfterWholeRead | packages/dataplanner/src/aether-input.ts:402 | a callback that read or applied the whole input is not reconciled |
| FacadeProperties.ApplySpecGrows | packages/dataplanner/src/aether-input.ts:368-397 | `apply` only appends coordinates |
| FacadeProperties.DefaultObjectValues | packages/dataplanner/src/aether-input.ts:448-456 | the default input-object resolver returns `object` keyed by the type's field names, each value `get(name)` |
| FacadeProperties.PlannedEachStep | packages/dataplanner/src/aether-input.ts:226-229 | one more entry keeps the entries aligned with the indices |
| FacadeProperties.PlannedEntriesValues | packages/dataplanner/src/aether-input.ts:225-230 | entry `i` of the list is `getPlannedValue($value.at(i), ofType)` |
| FacadeProperties.PlannedList | packages/dataplanner/src/aether-input.ts:215-230 | a null length gives `constant(null)`; otherwise `list` of one entry per index, each planned from `at(i)` |
| FacadeProperties.ListWalkNeedsEvalLength | packages/dataplanner/src/aether-input.ts:216-283 | both walkers throw on a list type over any plan without `evalLength`: the list node of a literal, the leaf and input-object plans, and opaque children the environment does not mark as list-like |
| FacadeProperties.WalkersIgnoreNonNull | packages/dataplanner/src/aether-input.ts:213-277 | a non-null wrapper is transparent to both walkers |
| FacadeProperties.FindEnumValueFirst | packages/dataplanner/src/aether-input.ts:318 | `find` returns the first enum value with an equal value |
| FacadeProperties.ApplyEnumValue | packages/dataplanner/src/aether-input.ts:315-323 | applying an enum value invokes only the `applyPlan` of the first matching enum value, with the target |
| FacadeProperties.ApplyLeafWithoutResolver | packages/dataplanner/src/aether-input.ts:313-323 | a scalar, or an enum value matching none, applies nothing |
| FacadeProperties.ApplyObjectWithoutResolvers | packages/dataplanner/src/aether-input.ts:292-312 | an input object with no `applyPlan` fields applies nothing |
| FacadeProperties.ArgumentMapLookup | packages/dataplanner/src/aether-input.ts:53-55 | looking a name up in the argument object finds the last argument of that name; a name no argument has finds the inherited `Object.prototype` member if there is one, and otherwise throws |
| FacadeProperties.ArgumentMapKeys | packages/dataplanner/src/aether-input.ts:53-55 | the object has a key for exactly the argument names |
| FacadeProperties.ArgumentMapOfDistinctNames | packages/dataplanner/src/aether-input.ts:53-55 | with distinct names, the object lists the arguments as declared |
| ReconcileProperties.TraverseFromNeverDepth | packages/dataplanner/src/aether-input.ts:108-127 | a path walk never raises the depth-budget error |
| ReconcileProperties.ApplyAtNeverDepth | packages/dataplanner/src/aether-input.ts:427 | applying the plan to one field never raises the depth-budget error |
| ReconcileProperties.ProcessBounded | packages/dataplanner/src/aether-input.ts:406-431 | when the budget covers the coordinates below the fields still to visit, the pass never exhausts it, and everything it records lies under the parent path |
| ReconcileProperties.DescendBounded | packages/dataplanner/src/aether-input.ts:417-425 | descending follows a recorded coordinate, so it keeps within the budget |
| ReconcileProperties.ApplyBounded | packages/dataplanner/src/aether-input.ts:426-428 | applying to a field keeps within the budget |
| ReconcileProperties.RunReturnsCallbackPlan | packages/dataplanner/src/aether-input.ts:399-435 | the façade returns the callback's plan; reconciliation only appends effects and coordinates or throws, never the exhausted budget; it is skipped when the callback threw or returned nothing |
| Findings.ListNodeLosesEntries | packages/graphile-crystal/src/input.ts:176 | as written, the list `[1, 2]` yields two identical item plans carrying neither entry |
| Findings.IntendedItems | packages/graphile-crystal/src/input.ts:170-179 | item plans built entry by entry: one per entry and each the entry's plan, or the exception of an entry that fails |
| Findings.IntendedListNode | packages/graphile-crystal/src/input.ts:158-184 | the intended node has item `i` planned from entry `i`; it cannot fail for a list literal without variables |
| Findings.IntendedListKeepsEntries | packages/graphile-crystal/src/input.ts:176 | built as intended, `[1, 2]` keeps each entry in its own item plan |
| Findings.ReconcileDecisionIgnoresElements | packages/dataplanner/src/aether-input.ts:415 | as written, a field the callback read is applied again, and an unread field named `map` is never applied |
| Findings.ReconcileNeverSkipsName | packages/dataplanner/src/aether-input.ts:415-428 | as written, a name that is no array property is never skipped; it is descended into exactly when something below it was read |
| Findings.IntendedDecisionSkipsConsumed | packages/dataplanner/src/aether-input.ts:415-428 | intended (`includes`): skip exactly the recorded coordinates; apply exactly when nothing at or below was recorded; the two tests agree whenever element and key tests agree |
| Polymorphism.Split | graphile-build/graphile-build-pg/src/plugins/PgPolymorphismPlugin.ts:62 | `split` yields at least one piece, and no piece contains the separator |
| Polymorphism.SplitRejoins | graphile-build/graphile-build-pg/src/plugins/PgPolymorphismPlugin.ts:62 | joining the pieces with the separator gives back the string (round trip) |
| Polymorphism.SplitCount | graphile-build/graphile-build-pg/src/plugins/PgPolymorphismPlugin.ts:62 | there is one piece exactly when the separator does not occur |
| Polymorphism.SplitWithoutSeparator | graphile-build/graphile-build-pg/src/plugins/PgPolymorphismPlugin.ts:62 | a string without the separator is a single piece |
| Polymorphism.SplitAfterPiece | graphile-build/graphile-build-pg/src/plugins/PgPolymorphismPlugin.ts:62 | splitting after a separator-free first piece gives that piece, then the rest's pieces |
| Polymorphism.SplitJoin | graphile-build/graphile-build-pg/src/plugins/PgPolymorphismPlugin.ts:62 | splitting a join of separator-free pieces gives the pieces back (round trip) |
| Polymorphism.WithoutBang | graphile-build/graphile-build-pg/src/plugins/PgPolymorphismPlugin.ts:58-61 | the specification with one trailing `!` removed, unchanged otherwise |
| Polymorphism.ParseColumn | graphile-build/graphile-build-pg/src/plugins/PgPolymorphismPlugin.ts:53-68 | not-null exactly when the text ends in `!`; neither column nor rename contains `>` |
| Polymorphism.ParseColumnShape | graphile-build/graphile-build-pg/src/plugins/PgPolymorphismPlugin.ts:53-68 | the rename is absent exactly when there is no `>`; the column is then the whole text without `!`; otherwise column and rename are the text before the first `>` and up to the next `>` or the end |
| Polymorphism.ParseFormat | graphile-build/graphile-build-pg/src/plugins/PgPolymorphismPlugin.ts:53-68 | parsing the text of a column specification gives it back |
| Polymorphism.FormatParse | graphile-build/graphile-build-pg/src/plugins/PgPolymorphismPlugin.ts:53-68 | a specification with at most one `>` is reproduced from what it parses to |
| Polymorphism.ParseColumnDropsSegments | graphile-build/graphile-build-pg/src/plugins/PgPolymorphismPlugin.ts:62-67 | `a>b>c!` is the not-null column `a` renamed `b`: a third segment is dropped |
| Polymorphism.ColumnNamesMembers | graphile-build/graphile-build-pg/src/plugins/PgPolymorphismPlugin.ts:131-133 | a name is among the added column names exactly when some specification has it |
| Polymorphism.ColumnNamesAppend | graphile-build/graphile-build-pg/src/plugins/PgPolymorphismPlugin.ts:131-133 | the names of two runs of specifications are the union of each run's names |
| Polymorphism.TypeTagsSingleUnlessArray | graphile-build/graphile-build-pg/src/plugins/PgPolymorphismPlugin.ts:106-109 | only an array of type tags gives other than one tag, and an array is kept as it is |
| Polymorphism.AttributeNames | graphile-build/graphile-build-pg/src/plugins/PgPolymorphismPlugin.ts:111-114 | there are no more user column names than attributes |
| Polymorphism.AttributeNamesMembers | graphile-build/graphile-build-pg/src/plugins/PgPolymorphismPlugin.ts:111-114 | a name is a user column name exactly when an attribute with `attnum >= 1` has it |
| Polymorphism.AttributeNamesAppend | graphile-build/graphile-build-pg/src/plugins/PgPolymorphismPlugin.ts:111-114 | the filter and map keep attribute order |
| Polymorphism.CommonColumns | graphile-build/graphile-build-pg/src/plugins/PgPolymorphismPlugin.ts:136-138 | the filter never adds names |
| Polymorphism.CommonColumnsMembers | graphile-build/graphile-build-pg/src/plugins/PgPolymorphismPlugin.ts:136-138 | the filter keeps exactly the names outside the specific set |
| Polymorphism.CommonColumnsAppend | graphile-build/graphile-build-pg/src/plugins/PgPolymorphismPlugin.ts:136-138 | the filter keeps the order of the names |
| Polymorphism.Param | graphile-build/graphile-build-pg/src/plugins/PgPolymorphismPlugin.ts:122 | a named parameter is present exactly when it was given |
| Polymorphism.SingleTypesFails | graphile-build/graphile-build-pg/src/plugins/PgPolymorphismPlugin.ts:119-126 | the single-mode loop throws exactly when some type tag has no (or an empty) name, and that is the error thrown |
| Polymorphism.UnionFromMembers | graphile-build/graphile-build-pg/src/plugins/PgPolymorphismPlugin.ts:118-133 | a column is in the accumulated set exactly when one tag's columns hold it |
| Polymorphism.SingleTypesColumns | graphile-build/graphile-build-pg/src/plugins/PgPolymorphismPlugin.ts:118-134 | `specificColumns` holds the columns of every type tag, including tags whose entry a later tag replaced |
| Polymorphism.AllTagKeysMembers | graphile-build/graphile-build-pg/src/plugins/PgPolymorphismPlugin.ts:121-127 | a key is a tag's type value exactly when some tag has it |
| Polymorphism.SingleTypesKeys | graphile-build/graphile-build-pg/src/plugins/PgPolymorphismPlugin.ts:116-134 | the keys of `types` are exactly the tags' type values |
| Polymorphism.SingleTypesLastWins | graphile-build/graphile-build-pg/src/plugins/PgPolymorphismPlugin.ts:127-130 | a repeated type value keeps the entry of its last tag; a key no tag names keeps its earlier entry |
| Polymorphism.RelationalTypesFails | graphile-build/graphile-build-pg/src/plugins/PgPolymorphismPlugin.ts:165-198 | the relational loop throws exactly when some tag lacks `references:` or names a table not found; on success its keys are the tags' type values |
| Polymorphism.HookDispatch | graphile-build/graphile-build-pg/src/plugins/PgPolymorphismPlugin.ts:81-215 | nothing is recorded exactly when the interface tag is falsy; a non-string tag throws; mode `union` is exactly the union description; a missing or other mode throws |
| Polymorphism.HookSingle | graphile-build/graphile-build-pg/src/plugins/PgPolymorphismPlugin.ts:95-146 | single mode: a missing type column throws; otherwise it throws exactly when a type tag has no name; on success `typeColumns` is `[type]` and the common columns are the user columns that no type tag lists, in the order of the table's attributes |
| Polymorphism.BuildSingleTypes | graphile-build/graphile-build-pg/src/plugins/PgPolymorphismPlugin.ts:116-134 | the loop equals `SingleTypesFrom` from an empty dictionary and set |
| Polymorphism.AddColumns | graphile-build/graphile-build-pg/src/plugins/PgPolymorphismPlugin.ts:131-133 | the set grows by exactly the specified column names |
| Polymorphism.BuildRelationalTypes | graphile-build/graphile-build-pg/src/plugins/PgPolymorphismPlugin.ts:163-198 | the loop equals `RelationalTypesFrom` from an empty dictionary |
| Polymorphism.RecordTypeExtensions | graphile-build/graphile-build-pg/src/plugins/PgPolymorphismPlugin.ts:79-217 | the hook records, or throws, what `ExtensionsSpec` gives |

## Left out

- `aether.withModifiers` (aether-input.ts:136) is not modelled: the resolver is called directly. The modifier bookkeeping lives in the planner, which is not part of this model.
- `$all` (`TrackedArguments`) is modelled as the tracked field arguments plan. `get(name)` on it gives the tracked value at that name. The class is declared in a file that is not part of this model. The model assumes it is not an `ExecutablePlan`, so `getRaw()` without a path over the arguments throws (aether-input.ts:358-362). Every other `$current` is an input plan, and the model takes every input plan to be an `ExecutablePlan`, so `getRaw()` returns it.
- The argument object inherits the `Object.prototype` members that ECMA-262 defines (section 20.1.3 and Annex B.2.2). Argument names cannot collide with `__proto__`, because GraphQL schema validation rejects argument names that start with `__`. `Schema.ValidName` states that rule.
- `doTypesMatch` (input.ts:99-107) compares named types with `===`, that is, by identity. `InputPlans.TypesMatchIffEqual` compares them structurally. The two agree because a schema holds exactly one type object per name.
- `path.shift()` in `getArgOnceOnly` mutates the caller's array when it passes one. The model walks a local copy, so that aliasing is not captured.
- The `layerFields` parameter of `process` is never read by the code. The model carries no such parameter.
- The list of property names every array has through its prototypes depends on the JavaScript engine. The model fixes one current list.
- The failed `assert.ok` at input.ts:130 and every `throw new Error` become `Err` values. Exception messages are represented by error tags, not by their text.
- aether-input.ts imports its `InputPlan` classes from the planner's own input module, which is not part of this model. The walkers are paired instead with the input plans of graphile-crystal's input.ts. The list plan of that module is expected to carry `evalLength`, but the `InputListPlan` of input.ts does not.
- `inputListPlan` (input.ts:88) is not part of this model. The model reads it as `new InputListPlan(aether, new GraphQLList(innerType), inputValue)`. So the `assert.ok` in the constructor (input.ts:164-167) always holds, and it becomes the constructor's precondition `inputType.List?`.
- Resolvers are opaque user code. Each is modelled as a script of façade calls plus whether it returns a plan. Resolvers that branch on the values they read are not captured.
- `aether.operation`, `aether.schema` and the tracked variable values plan are modelled as the data they provide. That data is: the schema's named types, the variable definitions, and the variables known to be undefined (`evalIs(undefined)`).
- Plan-time `eval()` and `evalLength()` of plans this model does not build are parameters (`Env`). That covers the children that object plans hand out from `get(name)`: the model does not fix their class. `Env.listLike` says which of them carry `evalLength`. Their `at(i)` entries are the opaque `ElementPlan(list, i)`.
- `Facade.Process` and `ProcessFrom` take a depth budget that the source does not have. Running out gives an error. `ReconcileProperties.RunReturnsCallbackPlan` proves that, from the budget `Run` starts with, the pass never runs out.
- `parseSmartTagsOptsString` is a parameter `parse` of the polymorphism model. So is the relational mode's lookup of the referenced table: `parseDatabaseIdentifierFromSmartTag`, `getClassByName` and `tableSourceName` together make the parameter `resolve`. The lookup is `await`ed in the source; the model has no concurrency.
- In single and relational mode, the JavaScript insertion order of the keys of `types` is not modelled: `types` is a map.
- `pgClass.getAttribute({ name })` is modelled as "some attribute of the table has this name", system columns included.
- The rest of the plugin is not part of this model: the `init` and `GraphQLSchema_types` hooks and the schema hooks that build interfaces from the recorded description.
- `Polymorphism.AttributeNames`, `Polymorphism.CommonColumns`: their own ensures state only a length bound. What they compute is stated by `AttributeNamesMembers`, `AttributeNamesAppend`, `CommonColumnsMembers` and `CommonColumnsAppend`.

## Findings

| source | as written | input that shows it | evidently intended | confidence | as-written member | corrected member |
|---|---|---|---|---|---|---|
| packages/graphile-crystal/src/input.ts:176 | each item plan is built from `inputValues[inputValueIndex]`, which indexes the argument node itself and is always `undefined` | the list literal `[1, 2]` for `[Int]` gives two item plans, each a leaf plan with no value | item `i` built from `values[i]` | not executed | Findings.ListNodeLosesEntries | Findings.IntendedListNode, Findings.IntendedListKeepsEntries |
| packages/dataplanner/src/aether-input.ts:415 | `pathStr in analyzedCoordinates` tests the array's property keys, not its elements | a callback that read `x` gets `x` applied again; a field named `map` that was not read is skipped | `analyzedCoordinates.includes(pathStr)` | not executed | Findings.ReconcileDecisionIgnoresElements, Findings.ReconcileNeverSkipsName | Findings.IntendedDecision, Findings.IntendedDecisionSkipsConsumed |

The rest of the model follows the code as written. The intended definitions stand beside it with their properties proved.
