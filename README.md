# Paper styling core, modelled in Dafny

This project models the styling core of the Paper immediate-mode UI library
(Prowl.Paper, GrunammGames fork) together with the small helper systems of
its Origami sample and its theme extension:

- **ElementStyle** (`element_style.dfy`, specified by `store_spec.dfy`): the
  per-element style store. It holds current and target property structs, the
  sets of properties that have a value, a target, were set this frame or have
  transitions, the transition configurations and the running interpolations.
  Its per-frame `Update` is a state machine: seeding, resolving targets, and
  snapping or interpolating with the double clock step of
  `HandleInterpolationState` followed by `InterpolationState.Update`. Every
  method is proved to move the store exactly as a function of module
  `StoreSpec` says. The lemmas there state what a frame promises: values
  revert unless set again, configurations last one frame, a finished
  transition lands on its target and is purged, and a transition declared
  every frame converges.
- **The property schema** (`style_schema.dfy`, `style_values.dfy`): the 51
  `GuiProp` values, the one type of each (`StyleUtils.GuiPropTypes`), the
  defaults of `GuiProperties.SetDefaultValues`, the type-guarded accessors
  `GetValueFromStruct`/`SetValueInStruct` with their round trips, and
  `StyleUtils.Interpolate` per type. This includes C#'s truncating `(int)`
  cast for ints and colour channels, the 32-bit wrap-around of the int
  branch's subtraction and addition, and the inputs on which
  `Color.FromArgb` throws.
- **TransformBuilder** (`transforms.dfy`): the shared builder. `Transform2D`
  is kept symbolically as its sequence of primitive factors, so composition
  order, omission of neutral steps and the leak of the custom transform
  through `Reset` are all visible.
- **The style registry, pool and templates of `Paper`** (`registry.dfy`,
  `templates.dfy`):
  - element id → store;
  - the pool of recycled stores;
  - end-of-frame reclamation;
  - the frame counters of `EndOfFramePoolCleanup`;
  - the named template table with inheritance, pseudo-state overlays and
    style families.
- **Origami** (`origami.dfy`, `int_input.dfy`, `paper_id.dfy`):
  - the per-type component pools, with their limits and error cases;
  - the integer input component with 32-bit wrap-around and clamping;
  - the frame-scoped string id cache.
- **Themes** (`theme_palette.dfy`, `style_settings.dfy`,
  `registry_generator.dfy`):
  - the palette tables and shading;
  - the `StyleSettings` switchboard;
  - the source generator that emits `ThemePaletteRegistry`, with a parser
    proving that the emitted text round-trips.

Static classes (`Origami`, `PaperId`, `StyleSettings`, the static tables of
`ThemePalette`) become one object each, whose fields are the static fields.
Foreign code the core calls, such as the `Lerp` functions of `Gradient`,
`BoxShadow`, `UnitValue`, `Vector4` and `Transform2D`, easing functions,
`ThemeUtils.UseBlackText` and `ThemeUtils.LerpColor`, is passed in as
function-typed parameters. Each property proved therefore holds for every
implementation of them. Doubles and floats are reals. `Wrappers` holds the
`Option` and `Result` types used for the exception paths.

## Model

| member | source | states |
|---|---|---|
| StyleSchema.DefaultValue | Paper/Paper.Styles.cs:1201-1267 | the default of every property has that property's own type |
| StyleSchema.Defaults | Paper/Paper.Styles.cs:1192-1198 | a new GuiProperties is well typed and holds every property's default |
| StyleSchema.DoubleProps | Paper/Utilities/StyleUtils.cs:14-67 | exactly the listed properties are double-typed in GuiPropTypes |
| StyleSchema.UnitValueProps | Paper/Utilities/StyleUtils.cs:14-67 | exactly the layout properties Width .. BorderBottom are UnitValue-typed |
| StyleSchema.PropTypesHandled | Paper/Utilities/StyleUtils.cs:14-67 | every table type is one that Update's dispatch handles, so its "Unsupported type" throw is unreachable |
| StyleSchema.GetValueFromStruct | Paper/Utilities/StyleUtils.cs:69-228 | succeeds iff the requested type is the property's type, returning a value of that type; otherwise the InvalidOperationException for that property and type |
| StyleSchema.SetValueInStruct | Paper/Utilities/StyleUtils.cs:231-442 | succeeds iff the value has the property's type, leaving a well-typed struct; otherwise the exception |
| StyleSchema.SetThenGet | Paper/Utilities/StyleUtils.cs:69-442 | reading back a field just written yields the written value |
| StyleSchema.SetLeavesOthers | Paper/Utilities/StyleUtils.cs:231-442 | a write changes no other field |
| StyleSchema.GetThenSet | Paper/Utilities/StyleUtils.cs:69-442 | writing back a field's own value leaves the struct unchanged |
| StyleSchema.TargetFlagIgnored | Paper/Utilities/StyleUtils.cs:231 | the targetValue flag has no effect on the result |
| StyleValues.Mul | Paper/Paper.Styles.cs:161 | a product of transforms applies the left factors first, then the right |
| StyleValues.Trunc | Paper/Utilities/StyleUtils.cs:466 | the (int) cast rounds toward zero: within one unit of x, on x's side of zero |
| StyleValues.Interpolate | Paper/Utilities/StyleUtils.cs:447-526 | the interpolation of two values of one type has that type |
| StyleValues.ChannelEndpoints | Paper/Utilities/StyleUtils.cs:532-540 | a truncated colour channel hits start at t = 0 and end at t = 1 |
| StyleValues.ChannelBetween | Paper/Utilities/StyleUtils.cs:532-540 | a channel stays between its endpoints for t in [0, 1] |
| StyleValues.OffsetBetween | Paper/Utilities/StyleUtils.cs:466 | trunc(d * t) lies between 0 and d for t in [0, 1] |
| StyleValues.WrapCongruent | Paper/Utilities/StyleUtils.cs:465-466 | 32-bit int arithmetic: two integers that differ by a multiple of 2^32 wrap to the same int |
| StyleValues.IntStepEndpoints | Paper/Utilities/StyleUtils.cs:463-468 | the wrapping int step gives start at t = 0 and end at t = 1 for every pair of ints |
| StyleValues.IntStepBetween | Paper/Utilities/StyleUtils.cs:463-468 | when end - start fits in 32 bits, the int step stays between its endpoints for t in [0, 1] |
| StyleValues.IntInterpolationBounds | Paper/Utilities/StyleUtils.cs:463-468 | int interpolation gives start at 0 and end at 1 for every pair of ints, and stays in [start, end] in between when end - start does not overflow |
| StyleValues.IntInterpolationOverflow | Paper/Utilities/StyleUtils.cs:465-466 | when end - start overflows the result can leave [start, end]: halfway from -1 to int.MaxValue is -1073741825 |
| StyleValues.ColorThrowsOnlyOnOvershoot | Paper/Utilities/StyleUtils.cs:532-540 | between two valid colours, FromArgb can only throw when the eased fraction is outside [0, 1] |
| StyleValues.ColorOvershootThrows | Paper/Utilities/StyleUtils.cs:532-540 | an eased fraction of 2 from black to white gives a red channel of 510, which FromArgb rejects |
| StyleValues.ColorInterpolationBounds | Paper/Utilities/StyleUtils.cs:470-474 | colour interpolation hits both endpoints, and two valid colours interpolate to a valid colour |
| StyleValues.DoubleInterpolation | Paper/Utilities/StyleUtils.cs:449-454 | double interpolation is start + (end - start) * t, hitting both endpoints |
| StyleValues.NonBlendingInterpolation | Paper/Utilities/StyleUtils.cs:507-525 | a string switches to end only when t > 0.5; an unknown type returns end |
| Transforms.TransformBuilder.constructor | Paper/Paper.Styles.cs:170-179 | neutral settings, centre pivot, no custom transform |
| Transforms.TransformBuilder.Reset | Paper/Paper.Styles.cs:184-195 | restores the neutral settings but keeps the custom transform |
| Transforms.TransformBuilder.SetTranslateX | Paper/Paper.Styles.cs:203-207 | changes the x translation only |
| Transforms.TransformBuilder.SetTranslateY | Paper/Paper.Styles.cs:212-216 | changes the y translation only |
| Transforms.TransformBuilder.SetScaleX | Paper/Paper.Styles.cs:221-225 | changes the x scale only |
| Transforms.TransformBuilder.SetScaleY | Paper/Paper.Styles.cs:230-234 | changes the y scale only |
| Transforms.TransformBuilder.SetRotate | Paper/Paper.Styles.cs:239-243 | changes the rotation only |
| Transforms.TransformBuilder.SetSkewX | Paper/Paper.Styles.cs:248-252 | changes the x skew only |
| Transforms.TransformBuilder.SetSkewY | Paper/Paper.Styles.cs:257-261 | changes the y skew only |
| Transforms.TransformBuilder.SetOriginX | Paper/Paper.Styles.cs:266-270 | changes the x pivot fraction only |
| Transforms.TransformBuilder.SetOriginY | Paper/Paper.Styles.cs:275-279 | changes the y pivot fraction only |
| Transforms.TransformBuilder.SetCustomTransform | Paper/Paper.Styles.cs:284-288 | sets the custom transform only |
| Transforms.TransformBuilder.Build | Paper/Paper.Styles.cs:110-164 | the result starts with the translation of the pivot to the origin and ends with its inverse, and between them are exactly the composed steps |
| Transforms.BuiltInOrder | Paper/Paper.Styles.cs:122-152 | each built-in step occurs at most once, in the order translate, rotate, scale, skew-x, skew-y |
| Transforms.BuiltInPresence | Paper/Paper.Styles.cs:126-152 | each built-in step is present exactly when its setting differs from the neutral value |
| Transforms.ResetBuildsIdentity | Paper/Paper.Styles.cs:110-195 | a reset builder with no custom transform moves no point |
| Transforms.TranslationOnly | Paper/Paper.Styles.cs:110-164 | with only a translation set, every point moves by it: the pivot cancels |
| Transforms.ScalingAboutPivot | Paper/Paper.Styles.cs:110-164 | with only a scale set, points scale about the pivot, which stays fixed |
| Transforms.CustomTransformSurvivesReset | Paper/Paper.Styles.cs:155-158 | after Reset, Build still composes the custom transform set earlier |
| StoreSpec.Fresh | Paper/Paper.Styles.cs:356-379 | a new store satisfies the store invariant |
| StoreSpec.SetDirect | Paper/Paper.Styles.cs:443-452 | SetDirectValue keeps the invariant, including the partial state on a type error |
| StoreSpec.SetNext | Paper/Paper.Styles.cs:457-464 | SetNextValue keeps the invariant |
| StoreSpec.SetTransition | Paper/Paper.Styles.cs:469-476 | SetTransitionConfig keeps the invariant |
| StoreSpec.Clear | Paper/Paper.Styles.cs:481-487 | ClearValue keeps the invariant |
| StoreSpec.ReturnToPool | Paper/Paper.Styles.cs:385-398 | ReturnToPool keeps the invariant |
| StoreSpec.EndOfFrame | Paper/Paper.Styles.cs:403-407 | EndOfFrame keeps the invariant |
| StoreSpec.ResolvedTarget | Paper/Paper.Styles.cs:727-746 | the resolved target has the property's type |
| StoreSpec.Seeded | Paper/Paper.Styles.cs:656-722 | seeding changes only current values, and only of transition properties without a value, which get the parent's value or else the default |
| StoreSpec.SeedValue | Paper/Paper.Styles.cs:712-722 | the seed is the parent's value when it has one, else the default |
| StoreSpec.Tick | Paper/Paper.Styles.cs:335-349 | the clock moves by dt; the record finishes iff time reaches the duration, and then the target is written exactly |
| StoreSpec.Advance | Paper/Paper.Styles.cs:805-809 | one Update moves a record's clock by 2 * dt and finishes it iff time + 2 * dt reaches the duration, writing the target |
| StoreSpec.PropStep | Paper/Paper.Styles.cs:568-585 | a property's step writes a value of its type and never loses a running record |
| StoreSpec.WithTransition | Paper/Paper.Styles.cs:751-773 | the transition step writes a value of the property's type and never loses a running record |
| StoreSpec.Chosen | Paper/Paper.Styles.cs:775-802 | the record advanced is well typed and heads to the current target |
| StoreSpec.Prepared | Paper/Paper.Styles.cs:494-498 | preparation changes only current values, and none that the store has a value for |
| StoreSpec.StepAll | Paper/Paper.Styles.cs:505-551 | every targeted property, and only those, is stepped from the same state |
| StoreSpec.Commit | Paper/Paper.Styles.cs:550-560 | stepped values are written, finished records dropped, targeted properties marked as having values, configurations cleared |
| StoreSpec.UpdateSpec | Paper/Paper.Styles.cs:492-561 | Update keeps the invariant, adds the targeted properties to those with values, clears the configurations, and leaves targets and frame flags alone |
| StoreSpec.StepIsLocal | Paper/Paper.Styles.cs:505-551 | a property's step reads only that property's entries, so the loop order does not matter |
| StoreSpec.SetNextKeepsCurrent | Paper/Paper.Styles.cs:457-464 | SetNextValue leaves current values and HasValue unchanged and records the target; on a type error only the set-this-frame mark remains |
| StoreSpec.SetDirectSurvivesUpdate | Paper/Paper.Styles.cs:443-561 | after SetDirectValue, the next Update leaves the value in place whatever the configuration |
| StoreSpec.UpdateWithoutConfig | Paper/Paper.Styles.cs:568-585 | without a configuration, Update writes the value set this frame, else the parent's, else the default |
| StoreSpec.RevertsWhenNotReset | Paper/Paper.Styles.cs:727-741 | a property not set again after EndOfFrame reverts to the parent's or the default value |
| StoreSpec.SnapWithoutValue | Paper/Paper.Styles.cs:757-762 | with a configuration but no value yet, Update snaps to the target and starts no transition |
| StoreSpec.TransitionStep | Paper/Paper.Styles.cs:765-809 | a value at its target is left alone; otherwise a record aimed elsewhere restarts from the current value, and the clock moves by 2 * dt |
| StoreSpec.FinishedTransitionIsPurged | Paper/Paper.Styles.cs:335-349 | a transition that reaches its duration writes the target exactly and is dropped in the same Update |
| StoreSpec.RunningTransitionValue | Paper/Paper.Styles.cs:344-348 | before the duration, the value is the eased interpolation at min(1, time / duration) |
| StoreSpec.ConfigsLastOneFrame | Paper/Paper.Styles.cs:560 | a configuration does not survive into the next frame |
| StoreSpec.ReturnToPoolResets | Paper/Paper.Styles.cs:385-398 | a recycled store equals a new one except for its first-frame flag and configurations, and recycling is idempotent |
| StoreSpec.FrameProgress | Paper/Paper.Styles.cs:751-809 | each frame either reaches the target or uses up 2 * dt of the remaining time |
| StoreSpec.Converges | Paper/Paper.Styles.cs:751-809 | declaring the same target and configuration every frame reaches the target exactly within n frames once n frames of clock cover the remaining time |
| StoreSpec.ClockIsLinear | Paper/Paper.Styles.cs:805-807 | n frames advance a transition by 2 * dt * n |
| ElementStyles.ElementStyle.constructor | Paper/Paper.Styles.cs:356-379 | a new store is valid, has no parent, and has the state of a fresh store |
| ElementStyles.ElementStyle.GetValue | Paper/Paper.Styles.cs:422-438 | succeeds iff the type matches; returns the store's own value, else the parent's lookup, else the default |
| ElementStyles.ElementStyle.ParentValues | Paper/Paper.Styles.cs:734-737 | exactly the properties the parent has values for, with those values |
| ElementStyles.ElementStyle.ParentValuesAreLookups | Paper/Paper.Styles.cs:714-716 | each value offered by the parent is what GetValue on the parent returns |
| ElementStyles.ElementStyle.SetParent | Paper/Paper.Styles.cs:412 | sets the parent and keeps the store valid |
| ElementStyles.ElementStyle.ReturnToPool | Paper/Paper.Styles.cs:385-398 | the store's new state is StoreSpec.ReturnToPool of the old |
| ElementStyles.ElementStyle.EndOfFrame | Paper/Paper.Styles.cs:403-407 | the store's new state is StoreSpec.EndOfFrame of the old |
| ElementStyles.ElementStyle.SetDirectValue | Paper/Paper.Styles.cs:443-452 | the new state is SetDirect of the old; the exception is raised iff the type is wrong; on success GetValue reads the value back |
| ElementStyles.ElementStyle.SetNextValue | Paper/Paper.Styles.cs:457-464 | the new state is SetNext of the old; the exception is raised iff the type is wrong |
| ElementStyles.ElementStyle.SetTransitionConfig | Paper/Paper.Styles.cs:469-476 | the new state is SetTransition of the old |
| ElementStyles.ElementStyle.ClearValue | Paper/Paper.Styles.cs:481-487 | the new state is Clear of the old, and lookups of the property fall back to the parent or the default |
| ElementStyles.ElementStyle.RemoveInterpolation | Paper/Paper.Styles.cs:563-566 | drops the property's running transition only |
| ElementStyles.ElementStyle.Update | Paper/Paper.Styles.cs:492-561 | the new state is UpdateSpec of the old state and the parent's values |
| ElementStyles.ElementStyle.ProcessTargetValues | Paper/Paper.Styles.cs:505-551 | the loop writes StepAll's steps for every targeted property and reports the finished ones |
| ElementStyles.ElementStyle.RemoveCompleted | Paper/Paper.Styles.cs:554-557 | drops exactly the listed records |
| ElementStyles.ElementStyle.InitializeTransitionProperties | Paper/Paper.Styles.cs:656-710 | the new state is Seeded of the old |
| ElementStyles.ElementStyle.InitializeTransitionProperty | Paper/Paper.Styles.cs:712-722 | writes the seed value into the current struct only |
| ElementStyles.ElementStyle.ProcessPropertyForAnimation | Paper/Paper.Styles.cs:568-585 | writes PropStep's value and record |
| ElementStyles.ElementStyle.ProcessPropertyWithTransition | Paper/Paper.Styles.cs:751-773 | writes WithTransition's value and record |
| ElementStyles.ElementStyle.HandleInterpolationState | Paper/Paper.Styles.cs:775-810 | writes the value and record that Advance produces from the chosen record, and reports whether it finished |
| ElementStyles.ElementStyle.ChooseInterpolation | Paper/Paper.Styles.cs:778-802 | the stored record is Chosen's, and no other record changes |
| ElementStyles.ElementStyle.TickInterpolation | Paper/Paper.Styles.cs:335-349 | writes Tick's value |
| ElementStyles.ElementStyle.GetTransformForElement | Paper/Paper.Styles.cs:590-647 | the shared builder ends with TransformSettings of the store and the earlier custom transform, and the result is its Build |
| ElementStyles.TransformSettings | Paper/Paper.Styles.cs:590-647 | the custom transform is the store's own Transform value, else whatever the shared builder held before |
| ElementStyles.TransformSettingsUseDefaults | Paper/Paper.Styles.cs:590-640 | each built-in setting is the store's value, or else that property's schema default |
| ElementStyles.ResetValuesAreDefaults | Paper/Paper.Styles.cs:184-195 | the values TransformBuilder.Reset restores are the schema defaults of the transform properties |
| ElementStyles.CustomTransformLeaks | Paper/Paper.Styles.cs:590-647 | an element without a Transform value builds with the previous element's custom transform |
| ElementStyles.NoTransformValuesBuildNothing | Paper/Paper.Styles.cs:590-647 | with no transform values and no earlier custom transform, nothing is composed |
| StyleRegistry.Dropped | Paper/Paper.Styles.cs:920-928 | exactly the stores of the entries whose element was not created this frame |
| StyleRegistry.Paper.constructor | Paper/Paper.Styles.cs:818-825 | empty registry, pool and template table; counters 0 |
| StyleRegistry.Paper.UpdateStyles | Paper/Paper.Styles.cs:832-847 | a registered store runs Update; otherwise the cached store, or a new one, is registered without an Update |
| StyleRegistry.Paper.GetStyleFromPool | Paper/Paper.Styles.cs:859-870 | a new store when the pool is empty, else a store taken out of the pool |
| StyleRegistry.Paper.SetStyleProperty | Paper/Paper.Styles.cs:879-891 | the element's store, registered from the pool when missing, gets SetNextValue; error iff the type is wrong |
| StyleRegistry.Paper.PooledStyleFor | Paper/Paper.Styles.cs:881-887 | the registered store, or one from the pool, or a new one, now registered under the id |
| StyleRegistry.Paper.SetTransitionConfig | Paper/Paper.Styles.cs:898-911 | the element's store, a new one when missing (pool not consulted), gets the configuration |
| StyleRegistry.Paper.EndOfFrameCleanupStyles | Paper/Paper.Styles.cs:916-936 | stale entries are reset, pooled and unregistered; the rest end their frame |
| StyleRegistry.Paper.CleanupOne | Paper/Paper.Styles.cs:922-932 | one entry: reset, pooled and removed if stale, else EndOfFrame |
| StyleRegistry.Paper.EndOfFramePoolCleanup | Paper/Paper.ObjectPools.cs:39-45 | stylesLastFrame takes the old style index, which is always 0; both counters restart |
| StyleRegistry.Paper.DefineStyle | Paper/Paper.Styles.cs:947-953 | a new empty template is registered under the name |
| StyleRegistry.Paper.DefineStyleInheriting | Paper/Paper.Styles.cs:958-978 | fails iff some parent is not usable, with the first one's error and the table unchanged; otherwise the parents are applied in order and the template registered |
| StyleRegistry.Paper.RegisterStyle | Paper/Paper.Styles.cs:980 | the name now maps to the template, and TryGetStyle finds it |
| StyleRegistry.Paper.TryGetStyle | Paper/Paper.Styles.cs:985-986 | true iff the name is registered, with its template; else null |
| StyleRegistry.Paper.ApplyStyleWithStates | Paper/Paper.Styles.cs:993-1020 | applies exactly ApplyAll of the base name, then the overlays of the active states in order |
| StyleRegistry.Paper.RegisterStyleFamily | Paper/Paper.Styles.cs:1031-1062 | the table becomes FamilyTable of the old |
| StyleRegistry.Paper.CreateStyleFamily | Paper/Paper.Styles.cs:1069 | a new builder for the base name with nothing set |
| StyleRegistry.StyleFamilyBuilder.constructor | Paper/Paper.Styles.cs:1084-1088 | the paper and base name; no templates set |
| StyleRegistry.StyleFamilyBuilder.Base | Paper/Paper.Styles.cs:1090-1094 | sets the base template, returns itself |
| StyleRegistry.StyleFamilyBuilder.Normal | Paper/Paper.Styles.cs:1096-1100 | sets the normal overlay, returns itself |
| StyleRegistry.StyleFamilyBuilder.Hovered | Paper/Paper.Styles.cs:1102-1106 | sets the hovered overlay, returns itself |
| StyleRegistry.StyleFamilyBuilder.Focused | Paper/Paper.Styles.cs:1108-1112 | sets the focused overlay, returns itself |
| StyleRegistry.StyleFamilyBuilder.Active | Paper/Paper.Styles.cs:1114-1118 | sets the active overlay, returns itself |
| StyleRegistry.StyleFamilyBuilder.Register | Paper/Paper.Styles.cs:1120-1121 | registers the collected family on the paper |
| StyleTemplates.FirstUnusable | Paper/Paper.Styles.cs:964-974 | none iff every parent is registered with a template; otherwise the error of the first one that is not |
| StyleTemplates.FirstUnusableAppend | Paper/Paper.Styles.cs:964-974 | the first failing parent of a concatenation is in the first part when it has one |
| StyleTemplates.Parents | Paper/Paper.Styles.cs:964-969 | the templates of the parents, in argument order |
| StyleTemplates.StateNames | Paper/Paper.Styles.cs:1009-1018 | exactly the overlay names of the states that hold |
| StyleTemplates.OverlayNamesDistinct | Paper/Paper.Styles.cs:1013 | the overlay names differ from each other and from the base name |
| StyleTemplates.LookedUpOrder | Paper/Paper.Styles.cs:996-1018 | the base first, then hovered, focused, active, each only when it holds; never the normal overlay |
| StyleTemplates.ApplyAll | Paper/Paper.Styles.cs:996-1018 | fails iff a looked-up name is registered as null; only registered templates are applied |
| StyleTemplates.ApplyAllAppend | Paper/Paper.Styles.cs:996-1018 | applying two lists is applying the first and then, unless it failed, the second |
| StyleTemplates.FamilyTable | Paper/Paper.Styles.cs:1031-1062 | the keys gain the base name and the overlay names of the given templates |
| StyleTemplates.FamilyLookup | Paper/Paper.Styles.cs:1031-1062 | each family name holds what was given, or its old entry; no other name changes |
| StyleTemplates.FamilyApplied | Paper/Paper.Styles.cs:993-1062 | a registered family applies its base, then the overlays of the active states in order, never the normal one |
| IntInputs.Wrap | Samples/Origami/Components/Numbers/IntInput.cs:30-40 | 32-bit wrap-around: identity in range, congruent modulo 2^32 |
| IntInputs.CheckValueRange | Samples/Origami/Components/Numbers/IntInput.cs:43-49 | the value when in range; within [min, max] when min <= max; max when min > max; always one of the three |
| IntInputs.CheckValueRangeIdempotent | Samples/Origami/Components/Numbers/IntInput.cs:43-49 | clamping twice equals clamping once |
| IntInputs.DefaultRangeIsIdentity | Samples/Origami/Components/Numbers/IntInput.cs:43-49 | with the default bounds clamping changes nothing |
| IntInputs.IncrementWrapsAtMax | Samples/Origami/Components/Numbers/IntInput.cs:35 | incrementing int.MaxValue yields int.MinValue, which the default range lets through |
| IntInputs.IntInput.constructor | Samples/Origami/Components/Numbers/IntInput.cs:20-24 | full int range, no range flag, no callback, value 0 |
| IntInputs.IntInput.IncrementValue | Samples/Origami/Components/Numbers/IntInput.cs:33-36 | the stored value wraps up by one; the callback, when set, gets it clamped into [min, max] |
| IntInputs.IntInput.Decrementvalue | Samples/Origami/Components/Numbers/IntInput.cs:38-41 | the stored value wraps down by one; the callback gets it clamped |
| IntInputs.IntInput.OnInputFieldDragged | Samples/Origami/Components/Numbers/IntInput.cs:26-31 | the callback gets the wrapped sum clamped; the stored value is unchanged |
| IntInputs.IntInput.SetData | Samples/Origami/Components/Numbers/IntInput.cs:87-92 | stores the value unclamped and the callback; returns itself |
| IntInputs.IntInput.SetRange | Samples/Origami/Components/Numbers/IntInput.cs:99-106 | stores the bounds unchecked and sets the range flag; returns itself |
| PaperIds.Decimal | Samples/Origami/Utils/PaperId.cs:29 | int.ToString: only digits, one digit iff n < 10, no leading zero |
| PaperIds.DecimalInjective | Samples/Origami/Utils/PaperId.cs:29 | different numbers give different strings |
| PaperIds.NextAsWritten | Samples/Origami/Utils/PaperId.cs:24-32 | the counter goes up by one; the list grows by at most one entry, and does so iff Count <= new counter; returns the entry at the old counter |
| PaperIds.NextCorrected | Samples/Origami/Utils/PaperId.cs:24-32 | the same with the guard Count < counter |
| PaperIds.ResetOf | Samples/Origami/Utils/PaperId.cs:58-62 | records the counter, restarts it, keeps the list |
| PaperIds.NextTimes | Samples/Origami/Utils/PaperId.cs:24-32 | k calls of Next advance the counter by k |
| PaperIds.FirstFrame | Samples/Origami/Utils/PaperId.cs:24-32 | before any Reset the k-th Next returns the decimal string of k |
| PaperIds.DuplicateAfterReset | Samples/Origami/Utils/PaperId.cs:24-32 | after one Next and a Reset, the next two Next calls both return "1" |
| PaperIds.CorrectedNextIsCounter | Samples/Origami/Utils/PaperId.cs:24-32 | with the corrected guard, Next returns the decimal string of the new counter in every frame |
| PaperIds.CorrectedIdsDistinct | Samples/Origami/Utils/PaperId.cs:24-32 | with the corrected guard, two Next calls in one frame never return the same id |
| PaperIds.Current | Samples/Origami/Utils/PaperId.cs:34-37 | the entry at the counter when it exists, else the out-of-range exception |
| PaperIds.FirstFrameCurrentFails | Samples/Origami/Utils/PaperId.cs:34-37 | in the first frame, Current always throws |
| PaperIds.PaperId.constructor | Samples/Origami/Utils/PaperId.cs:11-15 | counter 0, empty list |
| PaperIds.PaperId.MaxNumberAccessed | Samples/Origami/Utils/PaperId.cs:16 | the list's count minus one |
| PaperIds.PaperId.Next | Samples/Origami/Utils/PaperId.cs:24-32 | the new state and result are NextAsWritten of the old state |
| PaperIds.PaperId.NextFixed | Samples/Origami/Utils/PaperId.cs:24-32 | the new state and result are NextCorrected of the old state |
| PaperIds.PaperId.Reset | Samples/Origami/Utils/PaperId.cs:58-62 | the new state is ResetOf of the old |
| OrigamiPool.Component.Reset | Samples/Origami/Origami.cs:11-14 | counts the reset |
| OrigamiPool.RegisterOf | Samples/Origami/Origami.cs:54-62 | fails iff Origami is not initialised or the type is already registered; otherwise adds an empty queue with the given limit and changes no other type |
| OrigamiPool.InitOf | Samples/Origami/Origami.cs:40-52 | fails iff already initialised; otherwise exactly Button and AccordianItem are registered, with empty queues and limit 128 |
| OrigamiPool.TakeOf | Samples/Origami/Origami.cs:64-74 | fails iff not initialised or not registered; takes the oldest pooled component, or none when the queue is empty; other types unchanged |
| OrigamiPool.SetLimitOf | Samples/Origami/Origami.cs:76-83 | fails iff size <= 0 (checked first) or the type is not registered; otherwise only that limit changes |
| OrigamiPool.PoolSize | Samples/Origami/Origami.cs:85-90 | the length of the type's queue; fails iff not registered |
| OrigamiPool.ReturnOf | Samples/Origami/Origami.cs:92-100 | the component is enqueued; the error is raised iff the new count reaches the limit, and the component stays enqueued |
| OrigamiPool.InitOnlyOnce | Samples/Origami/Origami.cs:40-52 | the first Init succeeds and every later one fails |
| OrigamiPool.ReturnThenTake | Samples/Origami/Origami.cs:92-100 | a component returned to an empty queue is the next one taken |
| OrigamiPool.TakeLowersPoolSize | Samples/Origami/Origami.cs:85-90 | taking from a non-empty queue lowers the pool size by one |
| OrigamiPool.ReturnKeepsBelowLimit | Samples/Origami/Origami.cs:95-99 | a return that does not throw leaves the queue below its limit |
| OrigamiPool.Origami.constructor | Samples/Origami/Origami.cs:34-38 | uninitialised, no dictionaries, no paper |
| OrigamiPool.Origami.Init | Samples/Origami/Origami.cs:40-52 | the new state is InitOf of the old, and the paper is stored; on failure nothing changes |
| OrigamiPool.Origami.RegisterComponent | Samples/Origami/Origami.cs:54-62 | the new state and result follow RegisterOf |
| OrigamiPool.Origami.GetComponent | Samples/Origami/Origami.cs:64-74 | follows TakeOf, constructing a new component when the queue is empty |
| OrigamiPool.Origami.SetPoolSizeLimit | Samples/Origami/Origami.cs:76-83 | the new state and result follow SetLimitOf |
| OrigamiPool.Origami.GetPoolSize | Samples/Origami/Origami.cs:85-90 | the result is PoolSize of the state |
| OrigamiPool.Origami.ReturnToPool | Samples/Origami/Origami.cs:92-100 | the component is reset first; the new state and result follow ReturnOf |
| ThemePalettes.ActiveElementMap | Samples/Shared/Extensions/Settings/Themes/ThemePalette.cs:169-182 | the 11 assigned entries hold the palette's colours (CONTRAST by dark mode); INFO and COUNT have no entry |
| ThemePalettes.ActiveOverwrites | Samples/Shared/Extensions/Settings/Themes/ThemePalette.cs:172-182 | the assignments overwrite any earlier table within those keys completely |
| ThemePalettes.TextMap | Samples/Shared/Extensions/Settings/Themes/ThemePalette.cs:184-188 | the same keys; each entry is DARK's colour when black text is used on it, else LIGHT's |
| ThemePalettes.Shaded | Samples/Shared/Extensions/Settings/Themes/ThemePalette.cs:211-223 | fails iff the colour (or shade target, or shade percentage) is missing; SHADE_NORMAL gives the entry itself |
| ThemePalettes.ShadeBlends | Samples/Shared/Extensions/Settings/Themes/ThemePalette.cs:196-216 | SHADE_LIGHT blends 0.25 toward LIGHT, SHADE_DARK 0.75 toward DARK, COUNT fails |
| ThemePalettes.ThemeTables.constructor | Samples/Shared/Extensions/Settings/Themes/ThemePalette.cs:191-194 | dark mode on, both tables empty |
| ThemePalettes.ThemeTables.GetShadedColor | Samples/Shared/Extensions/Settings/Themes/ThemePalette.cs:211-216 | INFO always fails (it is never assigned); SHADE_NORMAL gives the entry |
| ThemePalettes.ThemeTables.GetShadedTextColor | Samples/Shared/Extensions/Settings/Themes/ThemePalette.cs:218-223 | the same for the text table |
| ThemePalettes.ThemeTables.GetBgColor | Samples/Shared/Extensions/Settings/Themes/ThemePalette.cs:201-204 | the DARK or LIGHT entry by dark mode, unshaded whatever shade is asked for |
| ThemePalettes.ThemeTables.GetBgTextColor | Samples/Shared/Extensions/Settings/Themes/ThemePalette.cs:206-209 | the text colour of the DARK or LIGHT entry, with the requested shade |
| ThemePalettes.ThemeTables.FillTextColors | Samples/Shared/Extensions/Settings/Themes/ThemePalette.cs:184-188 | the loop leaves the text table equal to TextMap of the element table |
| ThemePalettes.ThemePalette.constructor | Samples/Shared/Extensions/Settings/Themes/ThemePalette.cs:134-143 | all colours default (ARGB 0,0,0,0), roundings 0 |
| ThemePalettes.ThemePalette.SetColorPalette | Samples/Shared/Extensions/Settings/Themes/ThemePalette.cs:145-167 | stores the eight colours and two roundings |
| ThemePalettes.ThemePalette.SetAsActiveTheme | Samples/Shared/Extensions/Settings/Themes/ThemePalette.cs:169-189 | dark mode is stored, the element table becomes ActiveElementMap and the text table TextMap of it |
| ThemePalettes.ActivatedLookups | Samples/Shared/Extensions/Settings/Themes/ThemePalette.cs:169-223 | after activation, every assigned colour and its text colour can be looked up unshaded |
| ThemeSettings.StyleDefinition.constructor | Samples/Shared/Extensions/Settings/Themes/StyleDefinition.cs:6-19 | a style definition with its name |
| ThemeSettings.StyleSettings.constructor | Samples/Shared/Extensions/Settings/Themes/StyleSettings.cs:8-13 | no active palette, no palettes, no styles, dark mode on |
| ThemeSettings.StyleSettings.DefineTheme | Samples/Shared/Extensions/Settings/Themes/StyleSettings.cs:37-40 | one DefineStyle call per registered style, in order, with the palette and mode |
| ThemeSettings.StyleSettings.SetActiveTheme | Samples/Shared/Extensions/Settings/Themes/StyleSettings.cs:23-29 | fails iff no palette is registered for the type; otherwise activates it and calls DefineTheme |
| ThemeSettings.StyleSettings.ToggleDarkMode | Samples/Shared/Extensions/Settings/Themes/StyleSettings.cs:31-35 | flips dark mode and calls DefineTheme with the new mode |
| ThemeSettings.StyleSettings.Initialize | Samples/Shared/Extensions/Settings/Themes/StyleSettings.cs:15-29 | the palette table is never filled, so Initialize always throws for DefaultTheme |
| RegistryGenerator.FirstThemeAttribute | Samples/Generators/Generators/ThemeRegistryGenerator.cs:40-43 | the first attribute that is ThemePaletteAttribute by name or display string; none iff there is no such attribute |
| RegistryGenerator.EntryOf | Samples/Generators/Generators/ThemeRegistryGenerator.cs:45-50 | an entry iff the class has such an attribute; the type is the class's display string; the name is the class name when there is no argument |
| RegistryGenerator.Entries | Samples/Generators/Generators/ThemeRegistryGenerator.cs:33-52 | at most one entry per class; empty iff no class contributes |
| RegistryGenerator.SourceIndex | Samples/Generators/Generators/ThemeRegistryGenerator.cs:35-51 | each entry comes from a contributing class |
| RegistryGenerator.SourceIndexIncreasing | Samples/Generators/Generators/ThemeRegistryGenerator.cs:35-51 | entries keep the order of their classes |
| RegistryGenerator.ContributorListed | Samples/Generators/Generators/ThemeRegistryGenerator.cs:35-51 | every contributing class's entry is listed |
| RegistryGenerator.CollectEntries | Samples/Generators/Generators/ThemeRegistryGenerator.cs:33-52 | the loop computes Entries |
| RegistryGenerator.EntryLines | Samples/Generators/Generators/ThemeRegistryGenerator.cs:76-79 | one line per entry, in order |
| RegistryGenerator.RegistryLines | Samples/Generators/Generators/ThemeRegistryGenerator.cs:68-85 | four header lines, the entry lines in order, three footer lines |
| RegistryGenerator.GenerateRegistryClass | Samples/Generators/Generators/ThemeRegistryGenerator.cs:68-85 | the StringBuilder loop produces RegistryLines |
| RegistryGenerator.GenerateOutput | Samples/Generators/Generators/ThemeRegistryGenerator.cs:31-59 | no source iff no class contributes; otherwise the registry text of the entries |
| RegistryGenerator.ParseEntryLine | Samples/Generators/Generators/ThemeRegistryGenerator.cs:78 | a parsed line is exactly the line of the entry it returns |
| RegistryGenerator.ParseRegistry | Samples/Generators/Generators/ThemeRegistryGenerator.cs:68-85 | a parsed text is exactly the registry text of the entries it returns |
| RegistryGenerator.ParseEntryLineRoundTrip | Samples/Generators/Generators/ThemeRegistryGenerator.cs:78 | an entry whose name has no quote parses back from its line |
| RegistryGenerator.ParseEntryLinesRoundTrip | Samples/Generators/Generators/ThemeRegistryGenerator.cs:76-79 | such entries parse back from their lines |
| RegistryGenerator.RegistryRoundTrip | Samples/Generators/Generators/ThemeRegistryGenerator.cs:68-85 | the generated registry text parses back to its entries |
| RegistryGenerator.VerbatimNamesAmbiguous | Samples/Generators/Generators/ThemeRegistryGenerator.cs:78 | names are not escaped: two different entry lists give the same line |

## Left out

- UpdateStyles: the recursion over `element.Data.ChildIndices` is not modelled, since the element tree is not part of this model. The cached `element.Data._elementStyle` store is a parameter, required not to be already held by the registry; the aliasing that caching can cause is not modelled.
- UpdateStyles, Update and the other frame operations require `dt >= 0`; the source does not check it.
- The ConcurrentBag pool is a set, because the model proves that no store is held twice. `TryTake` failing on a non-empty bag cannot happen single-threaded, so that exception path is not modelled. Concurrency is not modelled anywhere (ConcurrentBag, ConcurrentDictionary, ConcurrentQueue).
- `InterpolationState<T>` is a value in the store's `interps` map, not a shared object, since nothing else holds a reference to it.
- StyleTemplate's own code is not part of this model. A template is represented only by the templates applied to it; applying a template to an element is reported, not carried out.
- DefineStyleInheriting: a null `inheritFrom` array (NullReferenceException) is not modelled. Names and element ids are unbounded strings and naturals.
- ElementStyle.SetDirectValue and SetNextValue: on a type error the model keeps the partial state the code leaves behind, with the property already marked set-this-frame. It is not the all-or-nothing behaviour one might expect.
- Floats and doubles are reals. Rounding, NaN and infinities are not modelled. The `float` branch of Interpolate is treated like the `double` one; no property has type `float`.
- Lerp of Gradient, BoxShadow, UnitValue, Vector4 and Transform2D, easing functions, `ThemeUtils.UseBlackText`, `ThemeUtils.ColorToVector4` and `ThemeUtils.LerpColor` are foreign code, passed as function parameters.
- StyleValues.Interpolate: where `Color.FromArgb` would throw ArgumentException (StyleUtils.cs:539, a channel outside 0..255, the inputs `InterpolationThrows` names), the model returns the out-of-range colour and the frame carries on. The exception escapes Update in the source; modelling it would turn every frame operation into one that can fail. It can only happen when an easing function returns a value outside [0, 1] (`ColorThrowsOnlyOnOvershoot`).
- StyleValues.Interpolate: C#'s `(int)` cast of a double outside the 32-bit range is unspecified. The model truncates and then wraps the sum. This too needs an eased fraction outside [0, 1].
- StyleValues.IntInterpolationBounds: the bound [start, end] is stated only when end - start fits in 32 bits, because the source's wrapped subtraction breaks it otherwise (`IntInterpolationOverflow`).
- StyleValues.Color: colours are compared by their four channels. System.Drawing's `Color.Equals` also compares the name and known-colour state, so `Color.Transparent` differs from `Color.FromArgb(0, 255, 255, 255)`. The skip test (Paper.Styles.cs:767) and the restart test (Paper.Styles.cs:794) can therefore see two equal-channel colours as different where the model sees them as equal.
- ElementStyles.ElementStyle.SetParent: it requires that the new parent does not already have this store among its ancestors. The source does not check this, but a cycle would make `GetValue` recurse until the stack overflows. The registry itself never calls SetParent.
- Rotation and skew are kept as symbolic factors. Their effect on points (trigonometry) is not modelled.
- IntInputs.IntInput.OnInputFieldDragged takes the drag delta already rounded: `Math.Round` of a double and the cast to int are not modelled. Drawing (`DrawDefault`, `OnCreated`, `Width`) and the element builder are left out.
- PaperIds: `NextInt` and `CurrentInt` are private helpers; only `Current` uses the latter, and it is modelled inline. The counter is unbounded: the 32-bit overflow after 2^31 ids is not modelled.
- OrigamiPool: `Component<T>.Create`, which builds UI through the paper and `PaperId.Next`, is not modelled; a component is an object with a reset counter. Component types are strings. `Constructors` is the set of registered types, because each constructor just makes a new instance.
- ThemeSettings: `StyleDefinition.DefineStyle` is an empty virtual hook, so calls to it are returned as a trace. `SetActiveTheme<T>` takes the type as a string. No code shown fills `_palettes`, so Initialize is modelled under the invariant that the table is empty.
- RegistryGenerator: the Roslyn pipeline (syntax filtering, semantic model, `Collect`, `AddSource`) is abstracted to a list of optional class symbols. Attribute arguments are already rendered to strings. `EndsWith` is ordinal rather than culture-sensitive. The generated text is a list of lines, without platform newlines.

## Findings

| source | as written | input that shows it | evidently intended | confidence | as-written member | corrected member |
|---|---|---|---|---|---|---|
| Samples/Origami/Utils/PaperId.cs:28-29 | `if (_idPool.Count <= _currentId) _idPool.Add(...)` appends an entry even when the one for the new id already exists, once a Reset has restarted the counter | Next(), Reset(), Next(), Next(): the second frame returns "1" twice | `_idPool.Count < _currentId`, so that entry i is always the decimal string of i + 1 and ids within a frame are distinct | not executed | PaperIds.DuplicateAfterReset (on PaperIds.NextAsWritten) | PaperIds.CorrectedIdsDistinct (on PaperIds.NextCorrected) |
