/** The current component (project/src/index.js): multi-bucket `validate`,
    `validateInstance` that evaluates the whole bound instance, `??`-style
    value fallback, recipe `defaultProps` and `defaultValue` in render. */
module Current {
  import opened Js
  import opened Registry
  import opened Markup
  import opened Buckets

  /** Props that pass-through never copies onto the element. */
  const Reserved: set<string> :=
    {"options", "instance", "propertyKey", "onChange", "hide", "defaltValue", "wrapperClassName"}

  /** The recipes the type table starts with. */
  function DefaultRecipes(): map<string, map<string, Value>> {
    map[
      "text" := map["wrapper" := Str("div"), "className" := Str("form-control"), "wrapperClass" := Str("form-group"),
                    "component" := Str("input"), "valueProp" := Str("value"),
                    "defaultProps" := Obj(map["type" := Str("text")]), "defaultValue" := Str("")],
      "password" := map["wrapper" := Str("div"), "wrapperClass" := Str("form-group"), "className" := Str("form-control"),
                        "component" := Str("input"), "valueProp" := Str("value"),
                        "defaultProps" := Obj(map["type" := Str("password")]), "defaultValue" := Str("")],
      "email" := map["wrapper" := Str("div"), "wrapperClass" := Str("form-group"), "className" := Str("form-control"),
                     "component" := Str("input"), "valueProp" := Str("value"),
                     "defaultProps" := Obj(map["type" := Str("email")]), "defaultValue" := Str("")],
      "textarea" := map["wrapper" := Str("div"), "wrapperClass" := Str("form-group"), "className" := Str("form-control"),
                        "component" := Str("textarea"), "valueProp" := Str("value"),
                        "defaultProps" := Obj(map[]), "defaultValue" := Str("")],
      "select" := map["wrapper" := Str("div"), "wrapperClass" := Str("form-group"), "className" := Str("form-control"),
                      "component" := Str("select"), "valueProp" := Str("value"),
                      "defaultProps" := Obj(map[]), "defaultValue" := Str("")],
      "checkbox" := map["wrapper" := Str("div"), "wrapperClass" := Str("checkbox"), "component" := Str("input"),
                        "valueProp" := Str("checked"), "getValueOnChange" := Fn("e => e.target.checked"),
                        "labelAfter" := Bool(true), "defaultProps" := Obj(map["type" := Str("checkbox")]),
                        "defaultValue" := Str("")],
      "radio" := map["wrapper" := Str("div"), "wrapperClass" := Str("radio"), "component" := Str("input"),
                     "valueProp" := Str("value"), "canuseWrapper" := Bool(true),
                     "defaultProps" := Obj(map["type" := Str("radio")]), "labelAfter" := Bool(true),
                     "defaultValue" := Str("")],
      "file" := map["component" := Str("input"), "className" := Str("form-control"), "valueProp" := Null,
                    "defaultProps" := Obj(map["type" := Str("file")]), "defaultValue" := Str("")]
    ]
  }

  /** The eight shipped input types: each names its value prop and its
      default element props and falls back to ""; only `file` has no
      wrapper, and its value prop is `null`, so its value is written under
      the key "null". */
  lemma RecipeTable()
    ensures DefaultRecipes().Keys == {"text", "password", "email", "textarea", "select", "checkbox", "radio", "file"}
    ensures ToStr(Get(Obj(DefaultRecipes()["file"]), "valueProp")) == "null"
  {
  }

  lemma RecipesFallBackToEmpty()
    ensures forall t :: t in DefaultRecipes() ==> Get(Obj(DefaultRecipes()[t]), "defaultValue") == Str("")
  {
  }

  lemma OnlyFileIsUnwrapped()
    ensures forall t :: t in DefaultRecipes() ==> (Truthy(Get(Obj(DefaultRecipes()[t]), "wrapper")) <==> t != "file")
  {
  }

  /** `getValue` after the recipe check: the bound property, or the
      `defaultValue` prop exactly when the property is `null` or
      `undefined`. */
  function BoundValue(instance: map<string, Value>, key: string, defaultValue: Value): (r: Value)
    ensures !Nullish(Get(Obj(instance), key)) ==> r == instance[key]
    ensures Nullish(Get(Obj(instance), key)) ==> r == defaultValue
  {
    var v := Get(Obj(instance), key);
    if Nullish(v) then defaultValue else v
  }

  /** The validation class a field uses: its `validationClass` prop, else
      the instance's property named by `classNameKey`. */
  function ClassNameOf(props: map<string, Value>, instance: map<string, Value>, config: map<string, Value>): (r: Value)
    ensures Truthy(Get(Obj(props), "validationClass")) ==> r == props["validationClass"]
    ensures !Truthy(Get(Obj(props), "validationClass")) ==> r == Get(Obj(instance), ToStr(Get(Obj(config), "classNameKey")))
  {
    Or(Get(Obj(props), "validationClass"), Get(Obj(instance), ToStr(Get(Obj(config), "classNameKey"))))
  }

  /** The rules a field passes on: its `rules` prop, else the instance's
      property named by `rulesKey`. */
  function RulesOf(props: map<string, Value>, instance: map<string, Value>, config: map<string, Value>): (r: Value)
    ensures Truthy(Get(Obj(props), "rules")) ==> r == props["rules"]
    ensures !Truthy(Get(Obj(props), "rules")) ==> r == Get(Obj(instance), ToStr(Get(Obj(config), "rulesKey")))
  {
    Or(Get(Obj(props), "rules"), Get(Obj(instance), ToStr(Get(Obj(config), "rulesKey"))))
  }

  /** `rules.presence = true`: on a rule object the entry is added or
      overwritten; on `undefined`, `null` or a primitive the assignment
      throws a TypeError (strict mode), which is `None` here. On an array or
      function the new property is not visible in this model. */
  function WithPresence(rules: Value): (r: Option<Value>)
    ensures r.None? <==> !(rules.Obj? || rules.List? || rules.Fn? || rules.Ref?)
    ensures rules.Obj? ==> r == Some(Obj(rules.fields["presence" := Bool(true)]))
    ensures r.Some? && !rules.Obj? ==> r.value == rules
  {
    match rules
    case Obj(m) => Some(Obj(m["presence" := Bool(true)]))
    case List(_) => Some(rules)
    case Fn(_) => Some(rules)
    case Ref(_) => Some(rules)
    case _ => None
  }

  /** What `this.validate` hands to `validateInstance`, with the props and the
      instance as the `required` write left them. */
  datatype Prepared = Prepared(props: map<string, Value>, instance: map<string, Value>, className: Value, rules: Value)

  /** The first half of `this.validate`: choose class name and rules and,
      for a `required` field, set `presence` on the rule object where it came
      from. `None` is the TypeError of `rules.presence = true` on a rule set
      that is missing or primitive. */
  function Prepare(props: map<string, Value>, instance: map<string, Value>, config: map<string, Value>): (p: Option<Prepared>)
    ensures !Truthy(Get(Obj(props), "required")) ==>
      p == Some(Prepared(props, instance, ClassNameOf(props, instance, config), RulesOf(props, instance, config)))
    ensures Truthy(Get(Obj(props), "required")) ==>
      (p.None? <==> WithPresence(RulesOf(props, instance, config)).None?)
    ensures p.Some? && Truthy(Get(Obj(props), "required")) && RulesOf(props, instance, config).Obj? ==>
      p.value.rules.Obj? && Get(p.value.rules, "presence") == Bool(true)
    ensures p.Some? ==> p.value.className == ClassNameOf(props, instance, config)
    ensures p.Some? && Truthy(Get(Obj(props), "required")) ==>
      && p.value.rules == WithPresence(RulesOf(props, instance, config)).value
      && (Truthy(Get(Obj(props), "rules")) ==>
            p.value.props == props["rules" := p.value.rules] && p.value.instance == instance)
      && (!Truthy(Get(Obj(props), "rules")) ==>
            p.value.props == props && p.value.instance == instance[ToStr(Get(Obj(config), "rulesKey")) := p.value.rules])
  {
    var className := ClassNameOf(props, instance, config);
    var rules := RulesOf(props, instance, config);
    if !Truthy(Get(Obj(props), "required")) then
      Some(Prepared(props, instance, className, rules))
    else
      match WithPresence(rules)
      case None => None
      case Some(updated) =>
        if Truthy(Get(Obj(props), "rules")) then
          Some(Prepared(props["rules" := updated], instance, className, updated))
        else
          var rulesKey := ToStr(Get(Obj(config), "rulesKey"));
          Some(Prepared(props, instance[rulesKey := updated], className, updated))
  }

  /** A `required` field is safe from the TypeError of `rules.presence =
      true` when its `rules` prop is a rule object; a field that is not
      `required` always is. */
  predicate SafeRequired(props: map<string, Value>) {
    !Truthy(Get(Obj(props), "required")) || Get(Obj(props), "rules").Obj?
  }

  /** Rule precedence of `validateInstance`: explicit rules win; otherwise
      the entry for the key in the named validation class, when the class
      exists; otherwise the (falsy) rules as given. */
  function SelectRules(classes: map<string, Value>, key: string, className: Value, rules: Value): (r: Value)
    ensures Truthy(rules) ==> r == rules
    ensures !Truthy(rules) && Truthy(Get(Obj(classes), ToStr(className))) ==>
      r == Get(Get(Obj(classes), ToStr(className)), key)
    ensures !Truthy(rules) && !Truthy(Get(Obj(classes), ToStr(className))) ==> !Truthy(r)
  {
    if Truthy(rules) then rules
    else
      var classRule := Get(Obj(classes), ToStr(className));
      if Truthy(classRule) then Get(classRule, key) else rules
  }

  /** The value `validateInstance` returns: `undefined` when no rule set is
      found or the evaluator reports nothing, else the evaluator's errors for
      the whole instance checked against the singleton rule set
      `{[key]: rules}`. */
  function CheckField(classes: map<string, Value>, instance: map<string, Value>, key: string,
                      className: Value, rules: Value, eval: Evaluator): (r: Value)
    ensures r == Undefined || Truthy(r)
    ensures Truthy(r) <==>
      Truthy(SelectRules(classes, key, className, rules)) &&
      Truthy(eval(Obj(instance), Obj(map[key := SelectRules(classes, key, className, rules)])))
    ensures Truthy(r) ==> r == eval(Obj(instance), Obj(map[key := SelectRules(classes, key, className, rules)]))
  {
    var selected := SelectRules(classes, key, className, rules);
    if Truthy(selected) then
      var ret := eval(Obj(instance), Obj(map[key := selected]));
      if Truthy(ret) then ret else Undefined
    else Undefined
  }

  /** Explicit rules make the validation-class table irrelevant. */
  lemma ExplicitRulesIgnoreClasses(classes1: map<string, Value>, classes2: map<string, Value>, instance: map<string, Value>,
                                   key: string, className: Value, rules: Value, eval: Evaluator)
    requires Truthy(rules)
    ensures CheckField(classes1, instance, key, className, rules, eval)
         == CheckField(classes2, instance, key, className, rules, eval)
  {
  }

  /** `validateInstance`: compute the result and, under `mutate`, merge the
      error record onto the instance. */
  method ValidateInstance(instance: JsObject, key: string, className: Value, rules: Value,
                          config: map<string, Value>, classes: map<string, Value>, eval: Evaluator)
    returns (r: Value)
    modifies instance
    ensures r == CheckField(classes, old(instance.props), key, className, rules, eval)
    ensures instance.props == Marked(old(instance.props), config, r)
  {
    r := CheckField(classes, instance.props, key, className, rules, eval);
    if Truthy(r) {
      var result := ErrorRecord(config, r);
      if Truthy(Get(Obj(config), "mutate")) {
        instance.Assign(result);
      }
    }
  }

  /** One occurrence of the field's instance among the targets: `this.validate`
      on the props and the instance it finds, with the configuration and the
      class table it reads. */
  function Step(config: map<string, Value>, classes: map<string, Value>, key: string, eval: Evaluator): Validation {
    (props: map<string, Value>, instance: map<string, Value>) =>
      match Prepare(props, instance, config)
      case None => None
      case Some(p) =>
        var r := CheckField(classes, p.instance, key, p.className, p.rules, eval);
        Some(Checked(p.props, Marked(p.instance, config, r), r))
  }

  /** The next validation of a run that has not thrown: it throws when the
      field cannot be prepared, and otherwise adds the checked result,
      leaving the prepared props and the marked instance. */
  lemma NextRound(n: nat, config: map<string, Value>, classes: map<string, Value>, key: string, eval: Evaluator,
                  props: map<string, Value>, instance: map<string, Value>, hasSink: bool,
                  now: map<string, Value>, marked: map<string, Value>, outcomes: seq<Value>)
    requires Rounds(n, Step(config, classes, key, eval), props, instance, hasSink) == Pass(now, marked, outcomes, false)
    ensures Prepare(now, marked, config).None? ==>
      Rounds(n + 1, Step(config, classes, key, eval), props, instance, hasSink) == Pass(now, marked, outcomes, true)
    ensures Prepare(now, marked, config).Some? ==>
      var p := Prepare(now, marked, config).value;
      var r := CheckField(classes, p.instance, key, p.className, p.rules, eval);
      Rounds(n + 1, Step(config, classes, key, eval), props, instance, hasSink)
        == Pass(p.props, Marked(p.instance, config, r), outcomes + [r], Truthy(r) && !hasSink)
  {
  }

  /** Without `mutate` and `required`, validating changes nothing, so every
      occurrence returns the same result: a field listed `n` times reports
      it `n` times, merges it once, and throws only when an error has no
      results map to go to. */
  lemma RepeatedValidation(n: nat, config: map<string, Value>, classes: map<string, Value>, key: string,
                           eval: Evaluator, props: map<string, Value>, instance: map<string, Value>, hasSink: bool)
    requires !Truthy(Get(Obj(config), "mutate")) && !Truthy(Get(Obj(props), "required"))
    ensures var r := CheckField(classes, instance, key, ClassNameOf(props, instance, config),
                                RulesOf(props, instance, config), eval);
      var p := Rounds(n, Step(config, classes, key, eval), props, instance, hasSink);
      && p.props == props && p.instance == instance
      && (p.threw <==> n > 0 && Truthy(r) && !hasSink)
      && (!p.threw ==> p.outcomes == seq(n, _ => r))
      && Merged(p.outcomes) == if n > 0 && Truthy(r) then OwnProps(r) else map[]
  {
    var r := CheckField(classes, instance, key, ClassNameOf(props, instance, config), RulesOf(props, instance, config), eval);
    RoundsRepeat(n, Step(config, classes, key, eval), props, instance, hasSink, r);
    MergedRepeat(n, r);
    assert seq(1, _ => r) == [r];
    MergedRepeat(1, r);
  }

  /** With a results map to merge into, a field whose `required` is safe
      never throws, however often its instance occurs: the `required` write
      keeps its `rules` prop a rule object. */
  lemma {:induction false} SafeRunsDoNotThrow(n: nat, config: map<string, Value>, classes: map<string, Value>,
                                              key: string, eval: Evaluator, props: map<string, Value>,
                                              instance: map<string, Value>)
    requires SafeRequired(props)
    ensures !Rounds(n, Step(config, classes, key, eval), props, instance, true).threw
    ensures SafeRequired(Rounds(n, Step(config, classes, key, eval), props, instance, true).props)
    decreases n
  {
    if n > 0 {
      SafeRunsDoNotThrow(n - 1, config, classes, key, eval, props, instance);
      var prev := Rounds(n - 1, Step(config, classes, key, eval), props, instance, true);
      NextRound(n - 1, config, classes, key, eval, props, instance, true, prev.props, prev.instance, prev.outcomes);
      SafePrepare(prev.props, prev.instance, config);
    }
  }

  /** A field whose `required` is safe is prepared without a throw and
      stays safe. */
  lemma SafePrepare(props: map<string, Value>, instance: map<string, Value>, config: map<string, Value>)
    requires SafeRequired(props)
    ensures Prepare(props, instance, config).Some?
    ensures SafeRequired(Prepare(props, instance, config).value.props)
  {
  }

  /** The value `handleChange` extracts from a change event: the recipe's
      `getValueOnChange(e, props)` when it has one, else `e.target.value`. */
  function Extracted(recipe: map<string, Value>, e: Value, props: map<string, Value>, call: Host): (r: Value)
    ensures Truthy(Get(Obj(recipe), "getValueOnChange")) ==> r == call(recipe["getValueOnChange"], [e, Obj(props)])
    ensures !Truthy(Get(Obj(recipe), "getValueOnChange")) ==> r == Get(Get(e, "target"), "value")
  {
    var hook := Get(Obj(recipe), "getValueOnChange");
    if Truthy(hook) then call(hook, [e, Obj(props)]) else Get(Get(e, "target"), "value")
  }

  /** The hide test of `render`: the prop named by `config.keyHide` is
      exactly `true`. `keyHide` is never configured, so by default the prop
      consulted is the one named "undefined". */
  function HiddenBy(props: map<string, Value>, config: map<string, Value>): (r: bool)
    ensures r <==> ToStr(Get(Obj(config), "keyHide")) in props && props[ToStr(Get(Obj(config), "keyHide"))] == Bool(true)
  {
    Get(Obj(props), ToStr(Get(Obj(config), "keyHide"))) == Bool(true)
  }

  lemma HidePropIsIgnoredByDefault(props: map<string, Value>)
    requires "undefined" !in props
    ensures !HiddenBy(props, DefaultConfig())
    ensures !HiddenBy(props["hide" := Bool(true)], DefaultConfig())
  {
  }

  /** The value `render` shows: `getValue()` passed through the recipe's
      `setValue(value, props)` hook when it has one. */
  function DisplayValue(recipe: map<string, Value>, props: map<string, Value>, instance: map<string, Value>,
                        key: string, call: Host): (r: Value)
    ensures !Truthy(Get(Obj(recipe), "setValue")) ==> r == BoundValue(instance, key, Get(Obj(props), "defaultValue"))
    ensures Truthy(Get(Obj(recipe), "setValue")) ==>
      r == call(recipe["setValue"], [BoundValue(instance, key, Get(Obj(props), "defaultValue")), Obj(props)])
  {
    var v := BoundValue(instance, key, Get(Obj(props), "defaultValue"));
    var hook := Get(Obj(recipe), "setValue");
    if Truthy(hook) then call(hook, [v, Obj(props)]) else v
  }

  /** The element props before pass-through: `{onChange}` overlaid with the
      recipe's `defaultProps`, then the value prop, which falls back to the
      recipe's `defaultValue` when the value is `null` or `undefined`. */
  function InitialProps(recipe: map<string, Value>, v: Value): (r: map<string, Value>)
    ensures ToStr(Get(Obj(recipe), "valueProp")) in r
    ensures r[ToStr(Get(Obj(recipe), "valueProp"))] == if Nullish(v) then Get(Obj(recipe), "defaultValue") else v
    ensures forall k :: k in OwnProps(Get(Obj(recipe), "defaultProps")) && k != ToStr(Get(Obj(recipe), "valueProp")) ==>
      k in r && r[k] == OwnProps(Get(Obj(recipe), "defaultProps"))[k]
    ensures "onChange" !in OwnProps(Get(Obj(recipe), "defaultProps")) && "onChange" != ToStr(Get(Obj(recipe), "valueProp")) ==>
      "onChange" in r && r["onChange"] == Fn("handleChange")
    ensures r.Keys == {"onChange", ToStr(Get(Obj(recipe), "valueProp"))} + OwnProps(Get(Obj(recipe), "defaultProps")).Keys
  {
    var base := map["onChange" := Fn("handleChange")] + OwnProps(Get(Obj(recipe), "defaultProps"));
    base[ToStr(Get(Obj(recipe), "valueProp")) := if Nullish(v) then Get(Obj(recipe), "defaultValue") else v]
  }

  /** The status indicators of `render`. */
  function Flags(hasError: bool, props: map<string, Value>): StatusFlags {
    StatusFlags(hasError || Truthy(Get(Obj(props), "hasError")), Truthy(Get(Obj(props), "hasWarning")),
                Truthy(Get(Obj(props), "hasSuccess")), Truthy(Get(Obj(props), "hasFeedback")))
  }

  /** `props` once pass-through (or, with it off, `placeholder` and `type`)
      is applied. */
  function Assembled(elem: map<string, Value>, props: map<string, Value>, config: map<string, Value>): (r: map<string, Value>)
    ensures Truthy(Get(Obj(config), "propsPassThrough")) ==> r == PassedThrough(elem, props, Reserved)
    ensures !Truthy(Get(Obj(config), "propsPassThrough")) ==>
      && r.Keys == elem.Keys + {"placeholder", "type"}
      && r["placeholder"] == Get(Obj(props), "placeholder") && r["type"] == Get(Obj(props), "type")
      && (forall k :: k in elem && k !in {"placeholder", "type"} ==> r[k] == elem[k])
  {
    if Truthy(Get(Obj(config), "propsPassThrough")) then PassedThrough(elem, props, Reserved)
    else elem["placeholder" := Get(Obj(props), "placeholder")]["type" := Get(Obj(props), "type")]
  }

  /** The element className of `finalRender`: the current className (or
      ""), one space, and the recipe's className (or ""). */
  function JoinedClassName(current: Value, recipe: map<string, Value>): Value {
    Str(ToStr(Or(current, Str(""))) + " " + ToStr(Or(Get(Obj(recipe), "className"), Str(""))))
  }

  /** `finalRender` up to the JSX: `validate` and `rules` are deleted, the
      status class goes onto the element when there is no wrapper, the
      recipe className is appended, `propsMap` renames run, and
      `includedLabel` recipes get the label as a prop. */
  function Finished(elem: map<string, Value>, status: Value, recipe: map<string, Value>,
                    config: map<string, Value>, props: map<string, Value>): (r: Rendered)
    ensures r.Element? && (r.wrapper.Some? <==> UseWrapper(config, recipe, props))
    ensures r.wrapper.Some? ==> r.wrapper.value == map["className" :=
      Str(ToStr(Or(status, Str(""))) + " " + ToStr(Or(Get(Obj(recipe), "wrapperClass"), Str(""))) + " "
          + ToStr(Or(Get(Obj(props), "wrapperClassName"), Str(""))))]
  {
    var wrap := UseWrapper(config, recipe, props);
    var e1 := elem - {"validate", "rules"};
    var e2 := if wrap then e1 else e1["className" := status];
    var e3 := e2["className" := JoinedClassName(Get(Obj(e2), "className"), recipe)];
    var e4 := Renamed(e3, RenamesOf(Get(Obj(recipe), "propsMap")));
    var e5 := if Truthy(Get(Obj(recipe), "includedLabel")) then e4["label" := Get(Obj(props), "label")] else e4;
    var wrapper :=
      Str(ToStr(Or(status, Str(""))) + " " + ToStr(Or(Get(Obj(recipe), "wrapperClass"), Str(""))) + " "
          + ToStr(Or(Get(Obj(props), "wrapperClassName"), Str(""))));
    Element(e5, if wrap then Some(map["className" := wrapper]) else None)
  }

  /** Without a wrapper, and when no rename targets `className`, the
      element's className is the status className followed by the recipe
      className; `validate` and `rules` never reach the element unless a
      rename or the label writes them. */
  lemma FinishedClassName(elem: map<string, Value>, status: Value, recipe: map<string, Value>,
                          config: map<string, Value>, props: map<string, Value>)
    requires !UseWrapper(config, recipe, props)
    requires forall r :: r in RenamesOf(Get(Obj(recipe), "propsMap")) ==> r.to !in {"className", "validate", "rules"}
    ensures var out := Finished(elem, status, recipe, config, props);
      out.Element? && out.wrapper.None? &&
      "className" in out.props && out.props["className"] == JoinedClassName(status, recipe) &&
      "validate" !in out.props && "rules" !in out.props
  {
    var e1 := elem - {"validate", "rules"};
    var e3 := e1["className" := status]["className" := JoinedClassName(status, recipe)];
    var rs := RenamesOf(Get(Obj(recipe), "propsMap"));
    assert forall i :: 0 <= i < |rs| ==> rs[i] in rs;
    RenamedKeepsUntargeted(e3, rs, "className");
    RenamedKeepsUntargeted(e3, rs, "validate");
    RenamedKeepsUntargeted(e3, rs, "rules");
  }

  /** Everything `render` produces for a field. */
  function View(recipe: map<string, Value>, config: map<string, Value>, props: map<string, Value>,
                instance: map<string, Value>, key: string, hasError: bool, call: Host): (r: Rendered)
    ensures r.Hidden? <==> HiddenBy(props, config)
    ensures r.Element? ==> (r.wrapper.Some? <==> UseWrapper(config, recipe, props))
  {
    if HiddenBy(props, config) then Hidden
    else
      var elem := Assembled(InitialProps(recipe, DisplayValue(recipe, props, instance, key, call)), props, config);
      var status := StatusClassName(Or(Get(Obj(elem), "className"), Str("")), Flags(hasError, props), config);
      Finished(elem, status, recipe, config, props)
  }
}
