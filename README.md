# react-validated-input, modelled in Dafny

`react-validated-input` is a React form-input wrapper. An application binds
each `ValidatedInput` field to one property (`propertyKey`) of a plain
object (`instance`). The field renders an input of a registered type (a
"recipe" in the module's type table), writes edits back to the bound
property, and decorates itself with status CSS classes.

Validation starts when the application calls `validate(component,
targets, results, names)` on the container component. That call installs a
bucket record `{targets, errorMessage, results}` in the container's state.
Every field then re-renders and reacts: it validates through validate.js
once per occurrence of its instance among the targets, and merges each
error map into a results object. The returned promise resolves when the
results stay empty and rejects otherwise.

The repository ships two versions of the component, and both are modelled:

- `project/src/index.js`, the current one. Its `validate` takes several
  bucket names. Its `validateInstance` evaluates the whole bound instance.
  A `required` prop adds `presence` to the rule object. Values fall back to
  `defaultValue` only when they are `null` or `undefined`. Recipes carry
  `defaultProps` and `defaultValue`.
- `project/src/react-validated-input.js`, the older one. Its `validate`
  takes one bucket key. Its `validateInstance` evaluates only `{[key]:
  value}`. Values use an `||` fallback to the misspelled `defaltValue` prop.
  Element props are `onChange` and the value prop only.

Modules:

- `Js` (js.dfy): JavaScript values. It defines truthiness, `||`, string
  conversion, ToInt32, the effect of `|=`, and `JsObject`, the class used
  for every plain object the component changes in place.
- `Registry` (registry.dfy): the module-level tables `configObj`,
  `validationClasses` and `typeToComponents`, and the four functions that
  update them. Both files contain these with the same text.
- `Markup` (markup.dfy): the prop-assembly steps both versions share. These
  are the status class, the pass-through loop, the `propsMap` renames and
  the wrapper decision.
- `Buckets` (buckets.dfy): the bucket record, the error record, the
  validate.js evaluator as a function parameter, and how the promise
  settles.
- `Current` and `CurrentInput` (current.dfy, current_input.dfy): index.js.
- `Legacy` and `LegacyInput` (legacy.dfy, legacy_input.dfy):
  react-validated-input.js.

The component's in-place state is modelled as classes:

- `Field` has the fields `value`, `hasError` and (current version) `props`.
  Its configuration is a `JsObject` that is either a private copy or the
  global object itself.
- `Container` holds the state slots and the fields it renders.

`setState` and its callback run as one synchronous step. The re-render
calls `componentWillReceiveProps` on every field of the container, in
order.

The source's quirks are modelled as written:

- The configuration stores the warning class under `wraningCssClass`, but
  `render` reads `warningCssClass`, so a warning adds the class
  "undefined".
- `keyHide` is never configured, so the hide test reads the prop named
  "undefined".
- `instance._hasError |= hasError` always writes the key `_hasError` and
  stores a Number.
- `holder.results` is created only when the caller passes no results. A
  field can then throw a TypeError from `Object.assign(undefined, result)`,
  but only when it has no `results` prop of its own, its instance is among
  the targets, and its validation returns errors. In the current version a
  `required` field whose rule set is missing or primitive also throws,
  from `rules.presence = true`.
- The `file` recipe has `valueProp: null`, so its value goes under the key
  "null".

The reaction of one field is specified by a value-level function,
`Reaction`: `Buckets.Rounds` runs the field's validation once per
occurrence of its instance among the targets, each run on the props and the
instance the previous one left, and stops at the first throw. The methods
that change the objects in place are proved equal to it, and the pass over
all fields is recorded field by field (`Recorded`): what each field read,
and the results it produced. The promise's results map is then the caller's
map plus `Buckets.Collected` of those results, so the settlement is tied to
what the fields reported.

## Model

| member | source | states |
|---|---|---|
| Js.OrFlag | project/src/index.js:207 | the bitwise-or assignment of a boolean flag yields a Number whose low bit is set iff the old low bit or the flag is, with the other bits unchanged |
| Js.JsObject.Assign | project/src/index.js:117-119 | `Object.assign(o, src)`: the object's properties become the old ones overridden by `src` |
| Js.JsObject.Put | project/src/index.js:238 | a property write replaces one entry and keeps all others |
| Registry.DefaultConfigQuirks | project/src/index.js:26-40 | the shipped configuration has no `warningCssClass` and no `keyHide` (the hide prop key converts to "undefined"), and `mutate` is off |
| Registry.Library.constructor | project/src/index.js:26-115 | one configuration object, an empty class table, and one fresh recipe object per type; no two types share a recipe object |
| Registry.Library.RegisterClasses | project/src/index.js:117-119 | classes named in the patch are replaced, every other class is untouched |
| Registry.Library.RegisterClass | project/src/index.js:121-123 | the class entry for the name is replaced wholesale |
| Registry.Library.Configure | project/src/index.js:125-127 | a shallow merge into the single configuration object |
| Registry.Library.Extend | project/src/index.js:129-135 | a known type's recipe is merged in place (types sharing that object see it, other recipes do not change); an unknown type gets a fresh recipe equal to the patch; configuration and classes are unchanged |
| Markup.StatusKeyIsFirstRaised | project/src/index.js:286-294 | the status chain picks the class of the first raised flag in the order error, warning, success, feedback, and none exactly when no flag is raised |
| Markup.StatusClassName | project/src/index.js:285-294 | the status className is the base className when no flag is raised; otherwise it is the base, a space, and the configured class of the first raised flag, and nothing more |
| Markup.WarningClassUnderDefaultConfig | project/src/index.js:288-289 | with the shipped configuration a warning, even with success and feedback also raised, appends " undefined" |
| Markup.PassedThrough | project/src/index.js:275-280 | every non-reserved prop is on the element with its value; reserved keys keep what the element had; the element's own keys that no prop overrides survive; no other key appears |
| Markup.PassThrough | project/src/index.js:276-280 | the key-by-key loop builds exactly the pass-through result |
| Markup.RenamesOf | project/src/index.js:319-320 | an array `propsMap` yields one rename per entry; any other value yields none |
| Markup.ApplyRenames | project/src/index.js:319-321 | the `propsMap.forEach` loop computes the in-order rename fold |
| Markup.RenamedKeepsUntargeted | project/src/index.js:319-321 | a key that no rename targets keeps its presence and value |
| Markup.RenamedCopiesSources | project/src/index.js:319-321 | with distinct targets that are never sources, every target holds its source's original value (`undefined` when absent) |
| Markup.UseWrapper | project/src/index.js:312 | a wrapper is used iff `useWrapper` is configured, the recipe names a wrapper, and the `noWrap` prop is falsy |
| Buckets.ErrorRecord | project/src/index.js:175 | the error record has exactly the indicator and message keys; the message key holds the errors (it wins when both keys coincide), and the indicator key otherwise holds `true` |
| Buckets.Marked | project/src/index.js:174-179 | the instance changes only when errors were reported and `mutate` is on; then the error record's keys hold the record's values and every other key keeps its value |
| Buckets.MergeTarget | project/src/index.js:202 | with a `validate` prop, errors go to the field's own `results` prop when it has one, else to the bucket's results; without the prop there is no target |
| Buckets.Occurrences | project/src/index.js:196-198 | the count of identity matches of the instance among the targets is at most their number, and zero exactly when the instance is not a target |
| Buckets.Reach | project/src/index.js:196-198 | a field validates at least once exactly when the bucket has targets and its instance is among them |
| Buckets.Rounds | project/src/index.js:197-205 | a run of `n` validations records one result per validation, all `n` unless a throw stopped it |
| Buckets.RoundsStayThrown | project/src/index.js:197-205 | once a validation has thrown, further occurrences change nothing |
| Buckets.RoundsRepeat | project/src/index.js:197-203 | when a validation leaves props and instance as they were, every occurrence returns the same result, and the run throws after the first error exactly when there is no results map |
| Buckets.MergedEmpty | project/src/index.js:200-202 | the errors one field merges are empty exactly when every truthy result has no own property |
| Buckets.MergedRepeat | project/src/index.js:200-202 | merging the same result `n` times merges it once, or nothing when it is falsy |
| Buckets.CollectedEmpty | project/src/index.js:153-159 | the results collected from all fields are empty exactly when every field whose target is the results map merged nothing |
| Buckets.CollectedSomething | project/src/index.js:153-159 | the collected results hold a key exactly when some field that merges into the map had a truthy result with an own property |
| Buckets.Settle | project/src/index.js:153-159 | the promise rejects with the results exactly when they hold a key, and resolves with them otherwise |
| Current.RecipeTable | project/src/index.js:41-114 | the eight shipped types; `file`'s value prop converts to the key "null" |
| Current.RecipesFallBackToEmpty | project/src/index.js:41-114 | every shipped recipe has `defaultValue: ''` |
| Current.OnlyFileIsUnwrapped | project/src/index.js:41-114 | every shipped type except `file` names a wrapper |
| Current.BoundValue | project/src/index.js:255-259 | the bound property, unless it is `null` or `undefined`, in which case the `defaultValue` prop |
| Current.ClassNameOf | project/src/index.js:215 | the `validationClass` prop when truthy, else the instance's property named by `classNameKey` |
| Current.RulesOf | project/src/index.js:216 | the `rules` prop when truthy, else the instance's property named by `rulesKey` |
| Current.WithPresence | project/src/index.js:217-220 | `rules.presence = true` sets the entry on a rule object and throws on a missing or primitive rule set |
| Current.Prepare | project/src/index.js:214-220 | class name and rules come from the props, else the instance keys named by the configuration; for a `required` field the rule object gains `presence` and the change is written back where the rules came from (the `rules` prop, else the instance's `rulesKey` entry), with nothing else changed, or the call throws |
| Current.SafePrepare | project/src/index.js:217-220 | a field that is not `required`, or whose `rules` prop is an object, never throws in `validate`, and stays so |
| Current.SelectRules | project/src/index.js:165-170 | explicit rules win; otherwise the named class's entry for the key when the class exists; otherwise the falsy rules as given |
| Current.CheckField | project/src/index.js:164-182 | the result is `undefined` or truthy; it is truthy iff rules were found and the evaluator reports errors for the whole instance against `{[key]: rules}`, and then it is those errors |
| Current.ExplicitRulesIgnoreClasses | project/src/index.js:165-172 | with truthy explicit rules the class table cannot change the outcome |
| Current.ValidateInstance | project/src/index.js:164-182 | returns the check result and leaves the instance as `Marked` describes |
| Current.RepeatedValidation | project/src/index.js:196-205 | with `mutate` off and no `required`, every occurrence of the instance returns the same result, the run throws iff that result is an error and there is no results map, and the merged errors are that result's own properties |
| Current.SafeRunsDoNotThrow | project/src/index.js:196-205 | with a results map, a field that is not `required`, or has an object `rules` prop, never throws however often its instance occurs |
| Current.Extracted | project/src/index.js:232 | the changed value is `getValueOnChange(e, props)` when the recipe has the hook, else `e.target.value` |
| Current.HiddenBy | project/src/index.js:263 | a field is hidden iff the prop named by `keyHide` is exactly `true` |
| Current.HidePropIsIgnoredByDefault | project/src/index.js:263-265 | with the shipped configuration a field is not hidden, even when its `hide` prop is `true` |
| Current.DisplayValue | project/src/index.js:267-268 | the bound value, passed through the recipe's `setValue(value, props)` when it has one |
| Current.InitialProps | project/src/index.js:271-273 | element props start from `onChange` and the recipe's `defaultProps`; the value prop holds the value, or the recipe's `defaultValue` when the value is `null` or `undefined` |
| Current.Assembled | project/src/index.js:275-284 | with pass-through on, the pass-through result; otherwise exactly the element's keys plus `placeholder` and `type`, copied from the props |
| Current.Finished | project/src/index.js:311-333 | the field renders an element, wrapped iff `UseWrapper` holds; the wrapper's className is the status className, the recipe `wrapperClass` and the `wrapperClassName` prop, space-separated |
| Current.FinishedClassName | project/src/index.js:311-321 | without a wrapper the element's className is the status className, a space, then the recipe className, and `validate` and `rules` are removed |
| Current.View | project/src/index.js:262-339 | `render` returns nothing iff the field is hidden, and otherwise an element that is wrapped iff `UseWrapper` holds |
| CurrentInput.Field.constructor | project/src/index.js:186-190 | the state starts with the bound value and no error; the configuration is a fresh copy under `allowOverride` and the shared object otherwise |
| CurrentInput.Field.Validate | project/src/index.js:214-222 | throws exactly when `Prepare` does; otherwise writes back the `required` change and returns and records the check result for the whole instance |
| CurrentInput.Field.Report | project/src/index.js:200-202 | an error is merged into the results map by its own properties, and throws exactly when there is no results map |
| CurrentInput.Field.Occurrence | project/src/index.js:198-203 | one occurrence is one more step of `Rounds` from the field's reading, and merges its result into the results map |
| CurrentInput.Field.ValidateTargets | project/src/index.js:196-205 | the loop leaves exactly what `Reaction` computes from the field's reading: the same props, instance, results and throw; the results map gains the merge of those results; `found` iff some result is an error; a field whose instance is not a target is unchanged |
| CurrentInput.Field.ReceiveProps | project/src/index.js:192-212 | without a bucket nothing changes; otherwise the props, instance and results are `Reaction`'s, `_hasError` is or-ed with the outcome, the results map gains their merge, `hasError` iff some result is an error, and a re-render happens iff `hasError` changed |
| CurrentInput.Field.HandleChange | project/src/index.js:231-240 | the state value becomes the extracted value; the bound property is written iff there is no `onChange` callback or `mutate` is on |
| CurrentInput.Field.Render | project/src/index.js:262-300 | the props assembled key by key equal the rendering function `Current.View` |
| CurrentInput.Create | project/src/index.js:250-254 | building a field fails exactly when its type has no recipe |
| CurrentInput.BucketNames | project/src/index.js:138-141 | a truthy string names one bucket; a falsy argument falls back to `validationStateProperty`; an array names one bucket per element, each its string conversion; anything else throws |
| CurrentInput.InstallBuckets | project/src/index.js:143-151 | every name maps to the same holder with the targets; a fresh empty results map is attached only when the caller passed none and at least one name exists |
| CurrentInput.SetBuckets | project/src/index.js:143-153 | the named slots hold the new bucket, other slots are untouched, the fields are unchanged, and the fresh results map belongs to no field |
| CurrentInput.ReactField | project/src/index.js:192-212 | one field reacts to its slot exactly as `Reaction` says from what it read, merges its results into its target, and does not throw when it is not a `required` field without a rule object and every slot it reads gives it a results map other than its instance |
| CurrentInput.ReactAll | project/src/index.js:192-212 | every field reacts in order and the record of the pass says what each read and produced; the results map gains exactly the collected errors; nothing throws when every field is covered |
| CurrentInput.Rerender | project/src/index.js:153-159 | after the fields react, the promise settles on the results map, which holds exactly the errors the fields merged into it; it rejects iff some field merged an error with an own property |
| CurrentInput.Validate | project/src/index.js:137-162 | the named slots hold the new bucket and other slots are untouched; the fields react as recorded; the promise settles on the caller's results or a fresh map, rejecting iff some field reported an error with an own property; a bad name list, or no names without results, fails; without caller results it never fails when every field reads a named slot, has no results prop equal to its instance, and is not `required` without a rule object |
| Legacy.RecipeTable | project/src/react-validated-input.js:40-105 | the same eight types; `radio` binds `checked`, and `file`'s value prop converts to "null" |
| Legacy.RecipesHaveNoDefaultValue | project/src/react-validated-input.js:40-105 | no shipped recipe has a `defaultValue` |
| Legacy.RecipesHaveNoSetValue | project/src/react-validated-input.js:40-105 | no shipped recipe has a `setValue` hook |
| Legacy.ChangeHooks | project/src/react-validated-input.js:81-98 | exactly `checkbox` and `radio` read their value through `getValueOnChange` |
| Legacy.BoundValue | project/src/react-validated-input.js:234 | the bound property when truthy, otherwise the `defaltValue` prop |
| Legacy.FallbackDivergence | project/src/react-validated-input.js:234 | for a bound `0`, `false` or `""` the current version keeps the value while the older one substitutes `defaltValue` |
| Legacy.FallbackAgreement | project/src/react-validated-input.js:234 | when both default props agree, the two versions show the same value iff the bound value is truthy, nullish, or equal to the default |
| Legacy.SelectRules | project/src/react-validated-input.js:149-151 | explicit rules win; otherwise the whole class entry |
| Legacy.CheckField | project/src/react-validated-input.js:148-164 | the result is `undefined` or truthy; it is truthy iff rules were found and the evaluator reports errors for `{[key]: value}` against `{[key]: rules[key]}`, and then it is those errors |
| Legacy.ExplicitRulesAreIndexedByKey | project/src/react-validated-input.js:152-154 | a rule object without an entry for the key reaches the evaluator as `{[key]: undefined}` |
| Legacy.OtherPropertiesReachOnlyCurrent | project/src/react-validated-input.js:152-154 | another property of the instance can decide the current version's result but not the older one's |
| Legacy.ValidateInstance | project/src/react-validated-input.js:148-164 | returns the check result and leaves the instance as `Marked` describes |
| Legacy.RepeatedValidation | project/src/react-validated-input.js:178-188 | with `mutate` off, every occurrence of the instance returns the same result, the run throws iff that result is an error and there is no results map, and the merged errors are that result's own properties |
| Legacy.RunsDoNotThrow | project/src/react-validated-input.js:178-188 | with a results map, a field never throws however often its instance occurs, and its props do not change |
| Legacy.Extracted | project/src/react-validated-input.js:211 | the changed value is `getValueOnChange(e)` when the recipe has the hook, else `e.target.value` |
| Legacy.DisplayValue | project/src/react-validated-input.js:242-243 | the or-fallback value, passed through the recipe's `setValue(value)` when it has one |
| Legacy.InitialProps | project/src/react-validated-input.js:246-248 | element props start as exactly `onChange` and the value prop, holding the value with no fallback |
| Legacy.Assembled | project/src/react-validated-input.js:249-258 | with pass-through on, the pass-through result; otherwise exactly the element's keys plus `placeholder` and `type`, copied from the props |
| Legacy.WrapperClassNamePassesThrough | project/src/react-validated-input.js:14-23 | `wrapperClassName` is not reserved here, so pass-through copies it onto the element, while the current version never does |
| Legacy.Finished | project/src/react-validated-input.js:289-311 | the field renders an element, wrapped iff `UseWrapper` holds; the wrapper's className is the status className, a space and the recipe `wrapperClass` |
| Legacy.FinishedClassName | project/src/react-validated-input.js:289-296 | without a wrapper the element's className is the status className glued to the recipe className, and `validate` and `rules` props stay on the element |
| Legacy.View | project/src/react-validated-input.js:237-313 | `render` returns nothing iff the field is hidden, and otherwise an element that is wrapped iff `UseWrapper` holds |
| Legacy.BucketKey | project/src/react-validated-input.js:129-132 | the slot key is the string conversion of a truthy name, else of `validationStateProperty` |
| Legacy.ListOfNamesIsOneSlot | project/src/react-validated-input.js:129-132 | an array of names installs a single slot named by their comma join |
| LegacyInput.Field.constructor | project/src/react-validated-input.js:168-172 | the state starts with the or-fallback value and no error; the configuration is copied under `allowOverride` |
| LegacyInput.Field.Validate | project/src/react-validated-input.js:196-201 | the state value, not the instance, is checked; the result is recorded on the instance as `Marked` describes |
| LegacyInput.Field.Report | project/src/react-validated-input.js:182-185 | an error is merged into the results map by its own properties, and throws exactly when there is no results map |
| LegacyInput.Field.Occurrence | project/src/react-validated-input.js:180-185 | one occurrence is one more step of `Rounds` from the field's reading, and merges its result into the results map |
| LegacyInput.Field.ValidateTargets | project/src/react-validated-input.js:178-188 | the loop leaves exactly what `Reaction` computes from the field's reading; the results map gains the merge of the results; `found` iff some result is an error; no throw with a results map; a field whose instance is not a target is unchanged |
| LegacyInput.Field.ReceiveProps | project/src/react-validated-input.js:174-194 | as in the current version, tied to `Reaction` and the merged results; in addition it never throws when a results map is available |
| LegacyInput.Field.HandleChange | project/src/react-validated-input.js:210-219 | the state value becomes `getValueOnChange(e)` or `e.target.value`; the property is written iff there is no callback or `mutate` is on |
| LegacyInput.Field.Render | project/src/react-validated-input.js:237-274 | the props assembled key by key equal `Legacy.View` |
| LegacyInput.Create | project/src/react-validated-input.js:229-233 | building a field fails exactly when its type has no recipe |
| LegacyInput.SetBuckets | project/src/react-validated-input.js:131-137 | the slot holds `{targets, errorMessage: null}` with a fresh empty results map only when the caller passed none; other slots and the fields are untouched |
| LegacyInput.ReactField | project/src/react-validated-input.js:174-194 | one field reacts exactly as `Reaction` says from what it read, merges its results into its target, and does not throw when the slot it reads gives it a results map |
| LegacyInput.ReactAll | project/src/react-validated-input.js:174-194 | every field reacts in order as recorded; the results map gains exactly the collected errors; nothing throws when every slot a field reads has a results map |
| LegacyInput.Rerender | project/src/react-validated-input.js:137-143 | after the fields react, the promise settles on the results map, which holds exactly the errors merged into it; it rejects iff some field merged an error with an own property |
| LegacyInput.Validate | project/src/react-validated-input.js:128-146 | the single slot holds `{targets, errorMessage: null}` and other slots are untouched; the fields react as recorded; the promise settles on the caller's results or a fresh map, rejecting iff some field reported an error with an own property; it never fails when every field reading another slot already had a results map there, and, when the caller passes results, every field on the new slot has its own `results` prop |

## Left out

- JSX output is not modelled: labels, children, `<option>` elements from `mapOptions`, and the `labelAfter` placement. A render is modelled as the element's and the wrapper's props.
- validate.js and its rule semantics are not modelled. The evaluator is a function parameter, and its result is used through its truthiness.
- Hooks and callbacks (`getValueOnChange`, `setValue`, `onChange`) are opaque function parameters. The `onChange(e, value)` call has no modelled effect.
- The Promise and React's batching are not modelled. `setState` and its callback run as one synchronous step, and a throw during the re-render becomes a `Failed` settlement.
- `unreached`, `getOptionsFromProps`, `getInputType` and `cleanUpProps` are left out. They are never called, or they have no effect on the props modelled.
- Numbers are integers. NaN, fractions and the parsing of numeric strings in ToInt32 are not modelled: strings convert to 0.
- `Object.assign` from strings or arrays, and prototype properties, are not modelled. An error map is merged through its own properties only.
- A `propsMap` that is not an array is treated as no renames. In the source, a truthy non-array value throws.
- Rule objects are values. The `required` write is made where the rules came from: `props.rules`, or the instance's `rulesKey` property. A rule object shared with the class table or with other fields does not see it.
- The caller's `componentConfig` passed to `extend` for a new type is stored as a fresh object, not as the caller's object.
- The props other than `validate` are assumed to be the same in the old and the new props, so `this.props.instance` and `newProps.instance` are one object.
- Each field's own `setState({hasError})` is applied immediately, in field order.
- CurrentInput.Field.Validate: a `required` rule that is an array or a function gains no visible `presence` entry.
- LegacyInput.Field.Validate: the `validate` prop of `newProps` is read from the field's slot; the rest of `newProps` is the old props.
- The type and configuration tables are one `Registry.Library` per model. The two source files each hold their own copy, so nothing is shared between versions.
- ReceiveProps and ValidateTargets (both versions): the tie to `Reaction` and the exact contents of the results map are stated only when the results map is not the field's own instance, configuration or class table. If it is, the merge changes what later validations read, and the model promises only the counts, `hasError` and the no-throw conditions.
- ReactField and ReactAll (both versions): a field's reading is pinned to what it read before the pass only while no earlier field shares its instance or merges errors into it. Otherwise only its props, state value, configuration and class table are pinned.
- ReactField, ReactAll and Validate (current version): the no-throw condition covers a `required` field only when its `rules` prop is an object. A `required` field that takes its rule object from the instance can also be safe, but that is not promised.
- ReactAll, Rerender and Validate (both versions): the results map's contents are stated only when it is not a field's instance.
