/** The module-level tables shared by every field: the global configuration
    object, the validation-class table and the type table. Both versions of
    the component declare these tables and their four update functions with
    the same text; they differ only in the recipes the type table starts
    with, which each version module supplies. */
module Registry {
  import opened Js

  /** The configuration object as the module initialises it. The warning
      class is stored under the misspelled key `wraningCssClass`, so the key
      the renderer reads, `warningCssClass`, is unset; `keyHide` is never
      set either. */
  function DefaultConfig(): map<string, Value> {
    map[
      "errorCssClass" := Str("has-error"),
      "wraningCssClass" := Str("has-warning"),
      "successCssClass" := Str("has-success"),
      "feedbackCssClass" := Str("has-feedback"),
      "useWrapper" := Bool(true),
      "propsPassThrough" := Bool(true),
      "allowOverride" := Bool(true),
      "mutate" := Bool(false),
      "errorIndicatorKey" := Str("_hasError"),
      "classNameKey" := Str("_class"),
      "rulesKey" := Str("_rules"),
      "errorMessageKey" := Str("_errors"),
      "validationStateProperty" := Str("validation")
    ]
  }

  lemma DefaultConfigQuirks()
    ensures "warningCssClass" !in DefaultConfig() && "keyHide" !in DefaultConfig()
    ensures Get(Obj(DefaultConfig()), "warningCssClass") == Undefined
    ensures ToStr(Get(Obj(DefaultConfig()), "keyHide")) == "undefined"
    ensures !Truthy(Get(Obj(DefaultConfig()), "mutate"))
  {
  }

  class Library {
    /** configObj: one object for the life of the module; `config` changes
        its contents, and a field built without `allowOverride` holds this
        very object. */
    const config: JsObject
    /** validationClasses: class name to a map from property key to rules. */
    const classes: JsObject
    /** typeToComponents: input type to its recipe object. */
    var types: map<string, JsObject>

    ghost predicate Valid()
      reads this
    {
      config != classes && config !in types.Values && classes !in types.Values
    }

    constructor (recipes: map<string, map<string, Value>>)
      ensures Valid()
      ensures config.props == DefaultConfig() && classes.props == map[]
      ensures types.Keys == recipes.Keys
      ensures forall t :: t in types ==> types[t].props == recipes[t]
      ensures fresh(config) && fresh(classes)
      ensures forall t :: t in types ==> fresh(types[t])
      ensures forall t, u :: t in types && u in types && t != u ==> types[t] != types[u]
    {
      var cfg := new JsObject(DefaultConfig());
      var cls := new JsObject(map[]);
      var m: map<string, JsObject> := map[];
      var todo := recipes.Keys;
      while todo != {}
        invariant todo <= recipes.Keys
        invariant m.Keys == recipes.Keys - todo
        invariant forall t :: t in m ==> m[t].props == recipes[t] && fresh(m[t])
        invariant cfg !in m.Values && cls !in m.Values
        invariant cfg.props == DefaultConfig() && cls.props == map[]
        invariant forall t, u :: t in m && u in m && t != u ==> m[t] != m[u]
        decreases todo
      {
        var t :| t in todo;
        var recipe := new JsObject(recipes[t]);
        m := m[t := recipe];
        todo := todo - {t};
      }
      config, classes, types := cfg, cls, m;
    }

    /** registerClasses: every class named in `patch` is replaced by the
        patch's entry; every other class is untouched. */
    method RegisterClasses(patch: map<string, Value>)
      requires Valid()
      modifies classes
      ensures Valid()
      ensures classes.props == old(classes.props) + patch
      ensures forall c :: c in patch ==> classes.props[c] == patch[c]
      ensures forall c :: c in old(classes.props) && c !in patch ==> classes.props[c] == old(classes.props)[c]
    {
      classes.Assign(patch);
    }

    /** registerClass: the entry for `name` is replaced wholesale. */
    method RegisterClass(name: string, rules: Value)
      requires Valid()
      modifies classes
      ensures Valid()
      ensures classes.props == old(classes.props)[name := rules]
    {
      classes.Put(name, rules);
    }

    /** config: a shallow merge into the one configuration object. */
    method Configure(patch: map<string, Value>)
      requires Valid()
      modifies config
      ensures Valid()
      ensures config.props == old(config.props) + patch
    {
      config.Assign(patch);
    }

    /** extend: a registered type's recipe object gets the patch merged into
        it (in place, so a field that already holds the recipe sees the new
        entries, and so does any other type sharing the object); an unknown
        type gets a new recipe holding exactly the patch. */
    method Extend(inputType: string, patch: map<string, Value>)
      requires Valid()
      modifies this, if inputType in types then {types[inputType]} else {}
      ensures Valid()
      ensures inputType in old(types) ==>
        && types == old(types)
        && types[inputType].props == old(types[inputType].props) + patch
        && (forall k :: k in old(types[inputType].props) && k !in patch ==>
              types[inputType].props[k] == old(types[inputType].props)[k])
        && (forall t :: t in types && types[t] != types[inputType] ==>
              types[t].props == old(types[t].props))
      ensures inputType !in old(types) ==>
        && types.Keys == old(types).Keys + {inputType}
        && fresh(types[inputType])
        && types[inputType].props == patch
        && (forall t :: t in old(types) ==> types[t] == old(types)[t] && types[t].props == old(types[t].props))
      ensures unchanged(config, classes)
    {
      if inputType in types {
        types[inputType].Assign(patch);
      } else {
        var recipe := new JsObject(patch);
        types := types[inputType := recipe];
      }
    }
  }
}
