/** The older component (project/src/react-validated-input.js): one bucket
    per `validate` call, a `validateInstance` that evaluates only the
    singleton `{[key]: value}`, an `||` value fallback read from the prop
    `defaltValue`, and element props without recipe `defaultProps`. */
module Legacy {
  import opened Js
  import opened Registry
  import opened Markup
  import opened Buckets
  import Current

  /** Props that pass-through never copies; `wrapperClassName` is not
      among them here. */
  const Reserved: set<string> := {"options", "instance", "propertyKey", "onChange", "hide", "defaltValue"}

  /** The recipes the type table starts with; none has a `defaultValue`. */
  function DefaultRecipes(): map<string, map<string, Value>> {
    map[
      "text" := map["wrapper" := Str("div"), "className" := Str("form-control"), "wrapperClass" := Str("form-group"),
                    "component" := Str("input"), "valueProp" := Str("value"),
                    "defaultProps" := Obj(map["type" := Str("text")])],
      "password" := map["wrapper" := Str("div"), "wrapperClass" := Str("form-group"), "className" := Str("form-control"),
                        "component" := Str("input"), "valueProp" := Str("value"),
                        "defaultProps" := Obj(map["type" := Str("password")])],
      "email" := map["wrapper" := Str("div"), "wrapperClass" := Str("form-group"), "className" := Str("form-control"),
                     "component" := Str("input"), "valueProp" := Str("value"),
                     "defaultProps" := Obj(map["type" := Str("email")])],
      "textarea" := map["wrapper" := Str("div"), "wrapperClass" := Str("form-group"), "className" := Str("form-control"),
                        "component" := Str("textarea"), "valueProp" := Str("value"), "defaultProps" := Obj(map[])],
      "select" := map["wrapper" := Str("div"), "wrapperClass" := Str("form-group"), "className" := Str("form-control"),
                      "component" := Str("select"), "valueProp" := Str("value"), "defaultProps" := Obj(map[])],
      "checkbox" := map["wrapper" := Str("div"), "wrapperClass" := Str("checkbox"), "component" := Str("input"),
                        "valueProp" := Str("checked"), "getValueOnChange" := Fn("e => e.target.checked"),
                        "defaultProps" := Obj(map["type" := Str("checkbox")])],
      "radio" := map["wrapper" := Str("div"), "wrapperClass" := Str("radio"), "component" := Str("input"),
                     "valueProp" := Str("checked"), "canuseWrapper" := Bool(true),
                     "getValueOnChange" := Fn("e => e.target.checked"),
                     "defaultProps" := Obj(map["type" := Str("radio")]), "labelAfter" := Bool(true)],
      "file" := map["component" := Str("input"), "className" := Str("form-control"), "valueProp" := Null,
                    "defaultProps" := Obj(map["type" := Str("file")])]
    ]
  }

  /** The older table has the same eight types; none carries a
      `defaultValue` or a `setValue` hook, both `checkbox` and `radio` read
      `checked` on change, and `file` again has the value prop `null`. */
  lemma RecipeTable()
    ensures DefaultRecipes().Keys == {"text", "password", "email", "textarea", "select", "checkbox", "radio", "file"}
    ensures ToStr(Get(Obj(DefaultRecipes()["radio"]), "valueProp")) == "checked"
    ensures ToStr(Get(Obj(DefaultRecipes()["file"]), "valueProp")) == "null"
  {
  }

  lemma RecipesHaveNoDefaultValue()
    ensures forall t :: t in DefaultRecipes() ==> Get(Obj(DefaultRecipes()[t]), "defaultValue") == Undefined
  {
  }

  lemma RecipesHaveNoSetValue()
    ensures forall t :: t in DefaultRecipes() ==> Get(Obj(DefaultRecipes()[t]), "setValue") == Undefined
  {
  }

  lemma ChangeHooks()
    ensures forall t :: t in DefaultRecipes() ==>
      (Truthy(Get(Obj(DefaultRecipes()[t]), "getValueOnChange")) <==> t == "checkbox" || t == "radio")
  {
  }

  /** `getValue` after the recipe check:
      `instance[propertyKey] || props.defaltValue`. */
  function BoundValue(instance: map<string, Value>, key: string, props: map<string, Value>): (r: Value)
    ensures Truthy(Get(Obj(instance), key)) ==> r == instance[key]
    ensures !Truthy(Get(Obj(instance), key)) ==> r == Get(Obj(props), "defaltValue")
  {
    Or(Get(Obj(instance), key), Get(Obj(props), "defaltValue"))
  }

  /** The two versions disagree exactly on falsy bound values that are not
      null or undefined: the current one keeps `0`, `false` and `""`, the
      older one replaces them by the misspelled `defaltValue` prop (and it
      never reads `defaultValue`). */
  lemma FallbackDivergence(instance: map<string, Value>, key: string, props: map<string, Value>)
    requires key in instance && instance[key] in {Num(0), Bool(false), Str("")}
    ensures Current.BoundValue(instance, key, Get(Obj(props), "defaultValue")) == instance[key]
    ensures BoundValue(instance, key, props) == Get(Obj(props), "defaltValue")
  {
  }

  lemma FallbackAgreement(instance: map<string, Value>, key: string, props: map<string, Value>)
    requires Get(Obj(props), "defaultValue") == Get(Obj(props), "defaltValue")
    ensures Current.BoundValue(instance, key, Get(Obj(props), "defaultValue")) == BoundValue(instance, key, props)
      <==> (Truthy(Get(Obj(instance), key)) || Nullish(Get(Obj(instance), key))
            || Get(Obj(instance), key) == Get(Obj(props), "defaltValue"))
  {
  }

  /** Rule lookup of the older `validateInstance`: explicit rules, else the
      whole class entry. */
  function SelectRules(classes: map<string, Value>, className: Value, rules: Value): (r: Value)
    ensures Truthy(rules) ==> r == rules
    ensures !Truthy(rules) ==> r == Get(Obj(classes), ToStr(className))
  {
    if Truthy(rules) then rules else Get(Obj(classes), ToStr(className))
  }

  /** The value the older `validateInstance` returns: the evaluator sees only
      `{[key]: value}` against `{[key]: rules[key]}`, so explicit rules are
      indexed by the key too. */
  function CheckField(classes: map<string, Value>, key: string, className: Value, rules: Value,
                      value: Value, eval: Evaluator): (r: Value)
    ensures r == Undefined || Truthy(r)
    ensures Truthy(r) <==>
      Truthy(SelectRules(classes, className, rules)) &&
      Truthy(eval(Obj(map[key := value]), Obj(map[key := Get(SelectRules(classes, className, rules), key)])))
    ensures Truthy(r) ==>
      r == eval(Obj(map[key := value]), Obj(map[key := Get(SelectRules(classes, className, rules), key)]))
  {
    var selected := SelectRules(classes, className, rules);
    if Truthy(selected) then
      var ret := eval(Obj(map[key := value]), Obj(map[key := Get(selected, key)]));
      if Truthy(ret) then ret else Undefined
    else Undefined
  }

  /** A rule object keyed by rule name rather than by property reaches the
      evaluator as `{[key]: undefined}` in the older version. */
  lemma ExplicitRulesAreIndexedByKey(classes: map<string, Value>, key: string, className: Value,
                                     rules: map<string, Value>, value: Value, eval: Evaluator)
    requires key !in rules
    ensures var ret := eval(Obj(map[key := value]), Obj(map[key := Undefined]));
      CheckField(classes, key, className, Obj(rules), value, eval) == if Truthy(ret) then ret else Undefined
  {
  }

  /** Another property of the instance can change the current version's
      result but cannot reach the older version's evaluator. */
  lemma OtherPropertiesReachOnlyCurrent()
    ensures var eval: Evaluator := (attrs, constraints) => Get(attrs, "other");
      var rules := Obj(map["k" := Obj(map["presence" := Bool(true)])]);
      && Current.CheckField(map[], map["k" := Str("x"), "other" := Str("bad")], "k", Undefined, rules, eval) == Str("bad")
      && Current.CheckField(map[], map["k" := Str("x")], "k", Undefined, rules, eval) == Undefined
      && CheckField(map[], "k", Undefined, rules, Str("x"), eval) == Undefined
  {
    var eval: Evaluator := (attrs, constraints) => Get(attrs, "other");
    assert Get(Obj(map["k" := Str("x"), "other" := Str("bad")]), "other") == Str("bad");
    assert Get(Obj(map["k" := Str("x")]), "other") == Undefined;
    assert Get(Obj(map["k" := Str("x")]), "other") == Undefined;
  }

  /** `validateInstance`: the result, merged onto the instance under `mutate`. */
  method ValidateInstance(instance: JsObject, key: string, className: Value, value: Value, rules: Value,
                          config: map<string, Value>, classes: map<string, Value>, eval: Evaluator)
    returns (r: Value)
    modifies instance
    ensures r == CheckField(classes, key, className, rules, value, eval)
    ensures instance.props == Marked(old(instance.props), config, r)
  {
    r := CheckField(classes, key, className, rules, value, eval);
    if Truthy(r) {
      var result := ErrorRecord(config, r);
      if Truthy(Get(Obj(config), "mutate")) {
        instance.Assign(result);
      }
    }
  }

  /** One occurrence of the field's instance among the targets: the older
      `this.validate` with the state value the field holds. */
  function Step(config: map<string, Value>, classes: map<string, Value>, key: string, value: Value,
                eval: Evaluator): Validation {
    (props: map<string, Value>, instance: map<string, Value>) =>
      var r := CheckField(classes, key, Current.ClassNameOf(props, instance, config),
                          Current.RulesOf(props, instance, config), value, eval);
      Some(Checked(props, Marked(instance, config, r), r))
  }

  /** The next validation of a run that has not thrown adds the checked
      result and leaves the props as they were and the instance marked. */
  lemma NextRound(n: nat, config: map<string, Value>, classes: map<string, Value>, key: string, value: Value,
                  eval: Evaluator, props: map<string, Value>, instance: map<string, Value>, hasSink: bool,
                  now: map<string, Value>, marked: map<string, Value>, outcomes: seq<Value>)
    requires Rounds(n, Step(config, classes, key, value, eval), props, instance, hasSink) == Pass(now, marked, outcomes, false)
    ensures var r := CheckField(classes, key, Current.ClassNameOf(now, marked, config),
                                Current.RulesOf(now, marked, config), value, eval);
      Rounds(n + 1, Step(config, classes, key, value, eval), props, instance, hasSink)
        == Pass(now, Marked(marked, config, r), outcomes + [r], Truthy(r) && !hasSink)
  {
  }

  /** Without `mutate`, every occurrence returns the same result: a field
      listed `n` times reports it `n` times, merges it once, and throws only
      when an error has no results map to go to. */
  lemma RepeatedValidation(n: nat, config: map<string, Value>, classes: map<string, Value>, key: string,
                           value: Value, eval: Evaluator, props: map<string, Value>, instance: map<string, Value>,
                           hasSink: bool)
    requires !Truthy(Get(Obj(config), "mutate"))
    ensures var r := CheckField(classes, key, Current.ClassNameOf(props, instance, config),
                                Current.RulesOf(props, instance, config), value, eval);
      var p := Rounds(n, Step(config, classes, key, value, eval), props, instance, hasSink);
      && p.props == props && p.instance == instance
      && (p.threw <==> n > 0 && Truthy(r) && !hasSink)
      && (!p.threw ==> p.outcomes == seq(n, _ => r))
      && Merged(p.outcomes) == if n > 0 && Truthy(r) then OwnProps(r) else map[]
  {
    var r := CheckField(classes, key, Current.ClassNameOf(props, instance, config),
                        Current.RulesOf(props, instance, config), value, eval);
    RoundsRepeat(n, Step(config, classes, key, value, eval), props, instance, hasSink, r);
    MergedRepeat(n, r);
    assert seq(1, _ => r) == [r];
    MergedRepeat(1, r);
  }

  /** The older `validate` never throws, so with a results map to merge into
      a run never stops early and leaves the props as they were. */
  lemma {:induction false} RunsDoNotThrow(n: nat, config: map<string, Value>, classes: map<string, Value>,
                                          key: string, value: Value, eval: Evaluator, props: map<string, Value>,
                                          instance: map<string, Value>)
    ensures !Rounds(n, Step(config, classes, key, value, eval), props, instance, true).threw
    ensures Rounds(n, Step(config, classes, key, value, eval), props, instance, true).props == props
    decreases n
  {
    if n > 0 {
      RunsDoNotThrow(n - 1, config, classes, key, value, eval, props, instance);
    }
  }

  /** The value `handleChange` extracts: `getValueOnChange(e)` or
      `e.target.value`. */
  function Extracted(recipe: map<string, Value>, e: Value, call: Host): (r: Value)
    ensures Truthy(Get(Obj(recipe), "getValueOnChange")) ==> r == call(recipe["getValueOnChange"], [e])
    ensures !Truthy(Get(Obj(recipe), "getValueOnChange")) ==> r == Get(Get(e, "target"), "value")
  {
    var hook := Get(Obj(recipe), "getValueOnChange");
    if Truthy(hook) then call(hook, [e]) else Get(Get(e, "target"), "value")
  }

  /** The value `render` shows: `getValue()` through `setValue(value)`. */
  function DisplayValue(recipe: map<string, Value>, props: map<string, Value>, instance: map<string, Value>,
                        key: string, call: Host): (r: Value)
    ensures !Truthy(Get(Obj(recipe), "setValue")) ==> r == BoundValue(instance, key, props)
    ensures Truthy(Get(Obj(recipe), "setValue")) ==> r == call(recipe["setValue"], [BoundValue(instance, key, props)])
  {
    var v := BoundValue(instance, key, props);
    var hook := Get(Obj(recipe), "setValue");
    if Truthy(hook) then call(hook, [v]) else v
  }

  /** The element props before pass-through: only `onChange` and the value
      prop, with no fallback; recipe `defaultProps` are never applied. */
  function InitialProps(recipe: map<string, Value>, v: Value): (r: map<string, Value>)
    ensures r.Keys == {"onChange", ToStr(Get(Obj(recipe), "valueProp"))}
    ensures r[ToStr(Get(Obj(recipe), "valueProp"))] == v
    ensures "onChange" != ToStr(Get(Obj(recipe), "valueProp")) ==> r["onChange"] == Fn("handleChange")
  {
    map["onChange" := Fn("handleChange")][ToStr(Get(Obj(recipe), "valueProp")) := v]
  }

  /** `props` once pass-through (or, with it off, `placeholder` and `type`)
      is applied. */
  function Assembled(elem: map<string, Value>, props: map<string, Value>, config: map<string, Value>): (r: map<string, Value>)
    ensures Truthy(Get(Obj(config), "propsPassThrough")) ==> r == PassedThrough(elem, props, Reserved)
    ensures !Truthy(Get(Obj(config), "propsPassThrough")) ==>
      && r.Keys == elem.Keys + {"placeholder", "type"}
      && r["placeholder"] == Get(Obj(props), "placeholder") && r["type"] == Get(Obj(props), "type")
      && (forall k :: k in elem && k !in {"placeholder", "type"} ==> r[k] == elem[k])
  {
    if Truthy(Get(Obj(config), "propsPassThrough")) then PassedThrough(elem, props, Reserved)
    else elem["placeholder" := Get(Obj(props), "placeholder")]["type" := Get(Obj(props), "type")]
  }

  /** Pass-through here copies `wrapperClassName` onto the element, which
      the current version withholds. */
  lemma WrapperClassNamePassesThrough(elem: map<string, Value>, props: map<string, Value>)
    requires "wrapperClassName" in props
    ensures PassedThrough(elem, props, Reserved)["wrapperClassName"] == props["wrapperClassName"]
    ensures "wrapperClassName" in PassedThrough(elem, props, Current.Reserved) <==> "wrapperClassName" in elem
  {
  }

  /** The element className of the older `finalRender`: the current
      className and the recipe className concatenated with no separator. */
  function JoinedClassName(current: Value, recipe: map<string, Value>): Value {
    Str(ToStr(Or(current, Str(""))) + ToStr(Or(Get(Obj(recipe), "className"), Str(""))))
  }

  /** The older `finalRender` up to the JSX: nothing is deleted; the wrapper
      className is the status className, a space and the recipe's
      `wrapperClass` with no `|| ''` guard. */
  function Finished(elem: map<string, Value>, status: Value, recipe: map<string, Value>,
                    config: map<string, Value>, props: map<string, Value>): (r: Rendered)
    ensures r.Element? && (r.wrapper.Some? <==> UseWrapper(config, recipe, props))
    ensures r.wrapper.Some? ==>
      r.wrapper.value == map["className" := Str(ToStr(status) + " " + ToStr(Get(Obj(recipe), "wrapperClass")))]
  {
    var wrap := UseWrapper(config, recipe, props);
    var e2 := if wrap then elem else elem["className" := status];
    var e3 := e2["className" := JoinedClassName(Get(Obj(e2), "className"), recipe)];
    var e4 := Renamed(e3, RenamesOf(Get(Obj(recipe), "propsMap")));
    var e5 := if Truthy(Get(Obj(recipe), "includedLabel")) then e4["label" := Get(Obj(props), "label")] else e4;
    Element(e5, if wrap then Some(map["className" := Str(ToStr(status) + " " + ToStr(Get(Obj(recipe), "wrapperClass")))]) else None)
  }

  /** Without a wrapper, and when no rename targets these keys, the
      element's className is the status className glued to the recipe
      className, and `validate` and `rules` props that pass-through copied
      stay on the element. */
  lemma FinishedClassName(elem: map<string, Value>, status: Value, recipe: map<string, Value>,
                          config: map<string, Value>, props: map<string, Value>)
    requires !UseWrapper(config, recipe, props)
    requires forall r :: r in RenamesOf(Get(Obj(recipe), "propsMap")) ==> r.to !in {"className", "validate", "rules"}
    ensures var out := Finished(elem, status, recipe, config, props);
      && out.Element? && out.wrapper.None?
      && "className" in out.props && out.props["className"] == JoinedClassName(status, recipe)
      && (forall k :: k in {"validate", "rules"} && k in elem ==> k in out.props && out.props[k] == elem[k])
  {
    var e3 := elem["className" := status]["className" := JoinedClassName(status, recipe)];
    var rs := RenamesOf(Get(Obj(recipe), "propsMap"));
    assert forall i :: 0 <= i < |rs| ==> rs[i] in rs;
    RenamedKeepsUntargeted(e3, rs, "className");
    RenamedKeepsUntargeted(e3, rs, "validate");
    RenamedKeepsUntargeted(e3, rs, "rules");
  }

  /** Everything the older `render` produces for a field. */
  function View(recipe: map<string, Value>, config: map<string, Value>, props: map<string, Value>,
                instance: map<string, Value>, key: string, hasError: bool, call: Host): (r: Rendered)
    ensures r.Hidden? <==> Current.HiddenBy(props, config)
    ensures r.Element? ==> (r.wrapper.Some? <==> UseWrapper(config, recipe, props))
  {
    if Current.HiddenBy(props, config) then Hidden
    else
      var elem := Assembled(InitialProps(recipe, DisplayValue(recipe, props, instance, key, call)), props, config);
      var status := StatusClassName(Or(Get(Obj(elem), "className"), Str("")), Current.Flags(hasError, props), config);
      Finished(elem, status, recipe, config, props)
  }

  /** The one state slot the older `validate` installs: the name argument,
      or `validationStateProperty` when it is falsy, converted to a property
      key, so an array of names becomes one slot named by their join. */
  function BucketKey(name: Value, config: map<string, Value>): (k: string)
    ensures Truthy(name) && name.Str? ==> k == name.s
    ensures !Truthy(name) ==> k == ToStr(Get(Obj(config), "validationStateProperty"))
    ensures Truthy(name) ==> k == ToStr(name)
  {
    ToStr(Or(name, Get(Obj(config), "validationStateProperty")))
  }

  lemma ListOfNamesIsOneSlot()
    ensures BucketKey(List([Str("validation"), Str("group2")]), DefaultConfig()) == "validation,group2"
  {
    var items := [Str("validation"), Str("group2")];
    var parts := seq(|items|, i requires 0 <= i < |items| => if Nullish(items[i]) then "" else ToStr(items[i]));
    assert parts == ["validation", "group2"];
    assert parts[..1] == ["validation"];
    assert JoinComma(parts) == JoinComma(parts[..1]) + "," + "group2";
    assert ToStr(List(items)) == JoinComma(parts);
    assert Or(List(items), Get(Obj(DefaultConfig()), "validationStateProperty")) == List(items);
  }
}
