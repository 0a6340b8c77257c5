/** The stateful side of project/src/index.js: the `ValidatedInput`
    component (a field bound to one property of one instance) and the
    orchestrator `validate`, which installs bucket records in a container's
    state, lets every field of the container react, and settles. */
module CurrentInput {
  import opened Js
  import opened Registry
  import opened Markup
  import opened Buckets
  import opened Current

  class Field {
    const lib: Library
    /** `this.compConfig`: the recipe object, cached when the field is built. */
    const recipe: JsObject
    /** `this.config`: a private copy of the configuration, or the global
        configuration object itself. */
    const config: JsObject
    /** `props.instance`, the bound object. */
    const instance: JsObject
    /** `props.propertyKey` */
    const propertyKey: string
    /** The container state slot this field's `validate` prop reads. */
    const bucketName: string
    /** The object behind a truthy `results` prop. */
    const resultsProp: Option<JsObject>
    /** The remaining props (only `rules` changes, through `required`). */
    var props: map<string, Value>
    /** `state.value` and `state.hasError` */
    var value: Value
    var hasError: bool

    /** The bound instance is the application's object, never one of the
        module's private tables or the field's own configuration. */
    ghost predicate Valid() {
      instance != config && instance != recipe && instance != lib.classes && config != lib.classes
    }

    /** `constructor`: the recipe must exist (see `Create` for the throw),
        the state starts as `{value: getValue(), hasError: false}`, and the
        configuration is copied when `allowOverride` is on, shared otherwise. */
    constructor (lib: Library, props: map<string, Value>, instance: JsObject, propertyKey: string,
                 bucketName: string, resultsProp: Option<JsObject>)
      requires lib.Valid()
      requires ToStr(Get(Obj(props), "type")) in lib.types
      requires instance != lib.config && instance != lib.classes && instance !in lib.types.Values
      ensures Valid()
      ensures this.lib == lib && this.props == props && this.instance == instance
      ensures this.propertyKey == propertyKey && this.bucketName == bucketName && this.resultsProp == resultsProp
      ensures recipe == lib.types[ToStr(Get(Obj(props), "type"))]
      ensures value == BoundValue(instance.props, propertyKey, Get(Obj(props), "defaultValue"))
      ensures !hasError
      ensures Truthy(Get(Obj(lib.config.props), "allowOverride")) ==> fresh(config) && config.props == lib.config.props
      ensures !Truthy(Get(Obj(lib.config.props), "allowOverride")) ==> config == lib.config
    {
      this.lib := lib;
      this.props := props;
      this.instance := instance;
      this.propertyKey := propertyKey;
      this.bucketName := bucketName;
      this.resultsProp := resultsProp;
      this.recipe := lib.types[ToStr(Get(Obj(props), "type"))];
      this.value := BoundValue(instance.props, propertyKey, Get(Obj(props), "defaultValue"));
      this.hasError := false;
      if Truthy(Get(Obj(lib.config.props), "allowOverride")) {
        this.config := new JsObject(lib.config.props);
      } else {
        this.config := lib.config;
      }
    }

    /** `this.validate(newProps, this.state.value)`. The value argument is
        not used: the evaluator sees the whole instance. Returns the
        evaluator's errors (or `undefined`), or reports the TypeError of a
        `required` field without a rule object. */
    method Validate(eval: Evaluator) returns (r: Value, threw: bool)
      requires Valid()
      modifies this, instance
      ensures threw <==> Prepare(old(props), old(instance.props), old(config.props)).None?
      ensures !threw ==>
        var p := Prepare(old(props), old(instance.props), old(config.props)).value;
        && props == p.props
        && r == CheckField(old(lib.classes.props), p.instance, propertyKey, p.className, p.rules, eval)
        && instance.props == Marked(p.instance, old(config.props), r)
      ensures threw ==> props == old(props) && instance.props == old(instance.props)
      ensures value == old(value) && hasError == old(hasError)
    {
      var prepared := Prepare(props, instance.props, config.props);
      if prepared.None? {
        return Undefined, true;
      }
      var p := prepared.value;
      props := p.props;
      instance.props := p.instance;
      r := ValidateInstance(instance, propertyKey, p.className, p.rules, config.props, lib.classes.props, eval);
      threw := false;
    }

    /** The field's merge target is none of the objects its validation
        reads or writes: not the instance, the configuration or the class
        table. */
    ghost predicate Apart(validate: Option<Bucket>) {
      MergeTarget(resultsProp, validate).Some? ==>
        MergeTarget(resultsProp, validate).value !in {instance, config, lib.classes}
    }

    /** What the field reads when it reacts. */
    function PreState(): Pre
      reads this, instance, config, lib.classes
    {
      Pre(props, instance.props, config.props, lib.classes.props, value)
    }

    /** What `componentWillReceiveProps` does from the state `pre`: one
        validation per occurrence of the instance among the targets, none
        without the prop or without targets. */
    function Reaction(validate: Option<Bucket>, pre: Pre, eval: Evaluator): Pass {
      if validate.None? then Pass(pre.props, pre.instance, [], false)
      else Rounds(Reach(validate.value, instance), Step(pre.config, pre.classes, propertyKey, eval),
                  pre.props, pre.instance, SinkFor(resultsProp, validate.value).Some?)
    }

    /** `componentWillReceiveProps` with the `validate` prop the container's
        new state gives this field (`None` when the slot is missing). The
        field validates once per occurrence of its instance among the
        targets, merges every error map into its `results` prop or else the
        bucket's results, ORs the outcome into `instance._hasError` (the key
        is fixed, not `errorIndicatorKey`) and asks for a re-render only when
        `hasError` changes. */
    method ReceiveProps(validate: Option<Bucket>, eval: Evaluator)
      returns (threw: bool, rerender: bool, ghost outcomes: seq<Value>)
      requires Valid()
      modifies this, instance, Sinks(resultsProp, validate)
      ensures value == old(value)
      ensures validate.None? ==>
        !threw && !rerender && props == old(props) && hasError == old(hasError) &&
        instance.props == old(instance.props) && outcomes == []
      ensures validate.Some? && !threw ==> rerender == (old(hasError) != hasError)
      ensures validate.Some? && !threw ==> (hasError <==> exists j :: 0 <= j < |outcomes| && Truthy(outcomes[j]))
      ensures validate.Some? && !threw ==> |outcomes| == Reach(validate.value, instance)
      ensures validate.Some? && !threw ==>
        "_hasError" in instance.props && (hasError ==> ToInt32(instance.props["_hasError"]) % 2 == 1)
      ensures validate.Some? && Apart(validate) ==>
        var p := Reaction(validate, old(PreState()), eval);
        && threw == p.threw && outcomes == p.outcomes && props == p.props
        && instance.props == if threw then p.instance
                             else p.instance["_hasError" := OrFlag(Get(Obj(p.instance), "_hasError"), hasError)]
      ensures Apart(validate) && MergeTarget(resultsProp, validate).Some? ==>
        MergeTarget(resultsProp, validate).value.props
          == old(MergeTarget(resultsProp, validate).value.props) + Merged(outcomes)
    {
      outcomes := [];
      if validate.None? {
        return false, false, outcomes;
      }
      var found := false;
      if validate.value.targets.Some? {
        threw, found, outcomes := ValidateTargets(validate.value, eval);
        if threw {
          return true, false, outcomes;
        }
      }
      instance.props := instance.props["_hasError" := OrFlag(Get(Obj(instance.props), "_hasError"), found)];
      rerender := hasError != found;
      hasError := found;
      threw := false;
    }

    /** The `targets.forEach` of `componentWillReceiveProps`: one validation
        per occurrence of the instance, each error map merged into the sink
        in order; a throw stops the loop. */
    method ValidateTargets(bucket: Bucket, eval: Evaluator)
      returns (threw: bool, found: bool, ghost outcomes: seq<Value>)
      requires Valid() && bucket.targets.Some?
      modifies this, instance, Sinks(resultsProp, Some(bucket))
      ensures value == old(value) && hasError == old(hasError)
      ensures !threw ==> |outcomes| == Occurrences(bucket.targets.value, instance)
      ensures found <==> exists j :: 0 <= j < |outcomes| && Truthy(outcomes[j])
      ensures instance !in bucket.targets.value ==>
        !threw && outcomes == [] && props == old(props) && instance.props == old(instance.props)
      ensures Apart(Some(bucket)) ==>
        Reaction(Some(bucket), old(PreState()), eval) == Pass(props, instance.props, outcomes, threw)
        && config.props == old(config.props) && lib.classes.props == old(lib.classes.props)
      ensures Apart(Some(bucket)) && SinkFor(resultsProp, bucket).Some? ==>
        SinkFor(resultsProp, bucket).value.props == old(SinkFor(resultsProp, bucket).value.props) + Merged(outcomes)
    {
      var targets := bucket.targets.value;
      ghost var pre := PreState();
      ghost var sink := SinkFor(resultsProp, bucket);
      ghost var base := if sink.Some? then sink.value.props else map[];
      ghost var k := 0;
      outcomes := [];
      found := false;
      threw := false;
      Begin(bucket, eval, pre, base);
      var i := 0;
      while i < |targets| && !threw
        invariant value == old(value) && hasError == old(hasError)
        invariant Tally(bucket, eval, i, pre, base, k, outcomes, found, threw)
      {
        threw, found, k, outcomes := Visit(bucket, eval, i, pre, base, k, outcomes, found);
        i := i + 1;
      }
      if threw {
        if Apart(Some(bucket)) {
          RoundsStayThrown(Occurrences(targets, instance), k, Step(pre.config, pre.classes, propertyKey, eval),
                           pre.props, pre.instance, sink.Some?);
        }
      } else {
        assert targets[..i] == targets;
      }
    }

    /** The targets loop has looked at the first `i` targets: `k`
        validations ran (one per occurrence of the instance so far, unless
        the last one threw), `outcomes` and `found` record them, and, when
        the sink is apart, the field is where `k` rounds from `pre` leave it
        and the sink holds `base` plus every error map merged. */
    ghost predicate Tally(bucket: Bucket, eval: Evaluator, i: nat, pre: Pre, base: map<string, Value>,
                          k: nat, outcomes: seq<Value>, found: bool, threw: bool)
      requires bucket.targets.Some?
      reads this, instance, config, lib.classes, Sinks(resultsProp, Some(bucket))
    {
      var targets := bucket.targets.value;
      var sink := SinkFor(resultsProp, bucket);
      && i <= |targets|
      && k <= Occurrences(targets, instance) && (!threw ==> k == Occurrences(targets[..i], instance))
      && (!threw ==> |outcomes| == k)
      && (found <==> exists j :: 0 <= j < |outcomes| && Truthy(outcomes[j]))
      && (k == 0 ==> !threw && outcomes == [] && props == pre.props && instance.props == pre.instance)
      && (Apart(Some(bucket)) ==> config.props == pre.config && lib.classes.props == pre.classes)
      && (Apart(Some(bucket)) ==> Round(k, bucket, pre, eval) == Pass(props, instance.props, outcomes, threw))
      && (Apart(Some(bucket)) && sink.Some? ==> sink.value.props == base + Merged(outcomes))
    }

    /** Before the first target, nothing has run and the sink holds `base`. */
    lemma Begin(bucket: Bucket, eval: Evaluator, pre: Pre, base: map<string, Value>)
      requires bucket.targets.Some? && pre == PreState()
      requires base == if SinkFor(resultsProp, bucket).Some? then SinkFor(resultsProp, bucket).value.props else map[]
      ensures Tally(bucket, eval, 0, pre, base, 0, [], false, false)
    {
      MergeNothing(base);
    }

    /** A target other than the instance is passed over. */
    lemma Skip(bucket: Bucket, eval: Evaluator, i: nat, pre: Pre, base: map<string, Value>,
               k: nat, outcomes: seq<Value>, found: bool)
      requires bucket.targets.Some? && i < |bucket.targets.value| && bucket.targets.value[i] != instance
      requires Tally(bucket, eval, i, pre, base, k, outcomes, found, false)
      ensures Tally(bucket, eval, i + 1, pre, base, k, outcomes, found, false)
    {
      assert bucket.targets.value[..i + 1][..i] == bucket.targets.value[..i];
    }

    /** The `i`th target: one more validation when it is the instance,
        passed over otherwise. */
    method Visit(bucket: Bucket, eval: Evaluator, i: nat, ghost pre: Pre, ghost base: map<string, Value>,
                 ghost k: nat, ghost outcomes: seq<Value>, found: bool)
      returns (threw: bool, found': bool, ghost k': nat, ghost outcomes': seq<Value>)
      requires Valid() && bucket.targets.Some? && i < |bucket.targets.value|
      requires Tally(bucket, eval, i, pre, base, k, outcomes, found, false)
      modifies this, instance, Sinks(resultsProp, Some(bucket))
      ensures value == old(value) && hasError == old(hasError)
      ensures Tally(bucket, eval, i + 1, pre, base, k', outcomes', found', threw)
    {
      var targets := bucket.targets.value;
      if targets[i] != instance {
        Skip(bucket, eval, i, pre, base, k, outcomes, found);
        return false, found, k, outcomes;
      }
      k' := k + 1;
      assert targets[..i + 1][..i] == targets[..i];
      assert Occurrences(targets[..i + 1], instance) == k + 1;
      OccurrencesOfPrefix(targets, i + 1, instance);
      ghost var sink := SinkFor(resultsProp, bucket);
      ghost var mid := if sink.Some? then sink.value.props else map[];
      var r;
      threw, r := Occurrence(bucket, eval, k, pre, outcomes);
      found', outcomes' := found, outcomes;
      if r.Some? {
        outcomes' := outcomes + [r.value];
        assert forall j :: 0 <= j < |outcomes| ==> outcomes'[j] == outcomes[j];
        assert outcomes'[|outcomes|] == r.value;
        found' := found || Truthy(r.value);
        if Apart(Some(bucket)) && sink.Some? {
          MergeStep(base, outcomes, r.value, mid, sink.value.props);
        }
      }
    }

    /** The first `n` validations of a reaction to `bucket` from `pre`. */
    function Round(n: nat, bucket: Bucket, pre: Pre, eval: Evaluator): Pass {
      Rounds(n, Step(pre.config, pre.classes, propertyKey, eval), pre.props, pre.instance, SinkFor(resultsProp, bucket).Some?)
    }

    /** One occurrence of the instance among the targets: `this.validate`,
        then the merge of a reported error map into the sink, or a throw when
        there is none; `r` is `None` when `this.validate` itself threw. After
        `n` validations from `pre`, this is the next one. */
    method Occurrence(bucket: Bucket, eval: Evaluator, ghost n: nat, ghost pre: Pre, ghost outcomes: seq<Value>)
      returns (threw: bool, r: Option<Value>)
      requires Valid()
      requires Apart(Some(bucket)) ==>
        && config.props == pre.config && lib.classes.props == pre.classes
        && Round(n, bucket, pre, eval) == Pass(props, instance.props, outcomes, false)
      modifies this, instance, Sinks(resultsProp, Some(bucket))
      ensures value == old(value) && hasError == old(hasError)
      ensures r.None? ==> threw
      ensures Apart(Some(bucket)) ==>
        && config.props == pre.config && lib.classes.props == pre.classes
        && Round(n + 1, bucket, pre, eval)
             == Pass(props, instance.props, if r.Some? then outcomes + [r.value] else outcomes, threw)
      ensures Apart(Some(bucket)) && SinkFor(resultsProp, bucket).Some? && r.Some? ==>
        SinkFor(resultsProp, bucket).value.props == old(SinkFor(resultsProp, bucket).value.props)
          + (if Truthy(r.value) then OwnProps(r.value) else map[])
      ensures Apart(Some(bucket)) && SinkFor(resultsProp, bucket).Some? && r.None? ==>
        SinkFor(resultsProp, bucket).value.props == old(SinkFor(resultsProp, bucket).value.props)
    {
      ghost var now, marked, hasSink := props, instance.props, SinkFor(resultsProp, bucket).Some?;
      var v, t := Validate(eval);
      if Apart(Some(bucket)) {
        NextRound(n, pre.config, pre.classes, propertyKey, eval, pre.props, pre.instance, hasSink, now, marked, outcomes);
      }
      if t {
        return true, None;
      }
      r := Some(v);
      threw := Report(bucket, v);
    }

    /** The merge after one validation: a reported error map goes into the
        sink, and with no sink `Object.assign(undefined, result)` throws. */
    method Report(bucket: Bucket, v: Value) returns (threw: bool)
      modifies Sinks(resultsProp, Some(bucket))
      ensures threw <==> Truthy(v) && SinkFor(resultsProp, bucket).None?
      ensures SinkFor(resultsProp, bucket).Some? ==>
        SinkFor(resultsProp, bucket).value.props == old(SinkFor(resultsProp, bucket).value.props)
          + (if Truthy(v) then OwnProps(v) else map[])
    {
      threw := false;
      var sink := SinkFor(resultsProp, bucket);
      if Truthy(v) {
        if sink.None? {
          // Object.assign(undefined, result)
          return true;
        }
        sink.value.Assign(OwnProps(v));
      } else if sink.Some? {
        MergeNothing(sink.value.props);
      }
    }

    /** `handleChange`: the state value becomes the extracted value; the
        `onChange` callback (outside this model) is called when there is one;
        the bound property is written when there is no callback or `mutate`
        is on. Returns whether the callback was called. */
    method HandleChange(e: Value, call: Host) returns (called: bool)
      requires Valid()
      modifies this, instance
      ensures value == Extracted(old(recipe.props), e, old(props), call)
      ensures called <==> Truthy(Get(Obj(old(props)), "onChange"))
      ensures instance.props ==
        if !called || Truthy(Get(Obj(old(config.props)), "mutate"))
        then old(instance.props)[propertyKey := value] else old(instance.props)
      ensures props == old(props) && hasError == old(hasError)
    {
      value := Extracted(recipe.props, e, props, call);
      called := Truthy(Get(Obj(props), "onChange"));
      if !called || Truthy(Get(Obj(config.props), "mutate")) {
        instance.Put(propertyKey, value);
      }
    }

    /** `render` and `finalRender` as far as props go: the element props are
        built key by key (pass-through loop, `propsMap` loop). */
    method Render(call: Host) returns (out: Rendered)
      ensures out == View(recipe.props, config.props, props, instance.props, propertyKey, hasError, call)
    {
      if HiddenBy(props, config.props) {
        return Hidden;
      }
      var shown := DisplayValue(recipe.props, props, instance.props, propertyKey, call);
      var elem := InitialProps(recipe.props, shown);
      if Truthy(Get(Obj(config.props), "propsPassThrough")) {
        elem := PassThrough(elem, props, Reserved);
      } else {
        elem := elem["placeholder" := Get(Obj(props), "placeholder")];
        elem := elem["type" := Get(Obj(props), "type")];
      }
      var status := StatusClassName(Or(Get(Obj(elem), "className"), Str("")), Flags(hasError, props), config.props);
      var wrap := UseWrapper(config.props, recipe.props, props);
      elem := elem - {"validate", "rules"};
      if !wrap {
        elem := elem["className" := status];
      }
      elem := elem["className" := JoinedClassName(Get(Obj(elem), "className"), recipe.props)];
      elem := ApplyRenames(elem, RenamesOf(Get(Obj(recipe.props), "propsMap")));
      if Truthy(Get(Obj(recipe.props), "includedLabel")) {
        elem := elem["label" := Get(Obj(props), "label")];
      }
      var wrapper :=
        Str(ToStr(Or(status, Str(""))) + " " + ToStr(Or(Get(Obj(recipe.props), "wrapperClass"), Str(""))) + " "
            + ToStr(Or(Get(Obj(props), "wrapperClassName"), Str(""))));
      out := Element(elem, if wrap then Some(map["className" := wrapper]) else None);
    }
  }

  /** Building a field: `getValue` throws when the type has no recipe. */
  method Create(lib: Library, props: map<string, Value>, instance: JsObject, propertyKey: string,
                bucketName: string, resultsProp: Option<JsObject>)
    returns (r: Option<Field>)
    requires lib.Valid()
    requires instance != lib.config && instance != lib.classes && instance !in lib.types.Values
    ensures r.None? <==> ToStr(Get(Obj(props), "type")) !in lib.types
    ensures r.Some? ==> fresh(r.value) && r.value.Valid() && r.value.instance == instance && !r.value.hasError
  {
    if ToStr(Get(Obj(props), "type")) !in lib.types {
      return None;
    }
    var f := new Field(lib, props, instance, propertyKey, bucketName, resultsProp);
    r := Some(f);
  }

  /** The bucket names `validate` installs: the argument, or the configured
      `validationStateProperty` when it is falsy; a string is one name, an
      array is its elements (as property keys). Anything else has no
      `forEach`: a TypeError, `None` here. */
  function BucketNames(names: Value, config: map<string, Value>): (r: Option<seq<string>>)
    ensures Truthy(names) && names.Str? ==> r == Some([names.s])
    ensures !Truthy(names) && Get(Obj(config), "validationStateProperty").Str? ==>
      r == Some([Get(Obj(config), "validationStateProperty").s])
    ensures r.None? <==> !(Or(names, Get(Obj(config), "validationStateProperty")).Str? ||
                           Or(names, Get(Obj(config), "validationStateProperty")).List?)
    ensures var n := Or(names, Get(Obj(config), "validationStateProperty"));
      n.List? ==> r.Some? && |r.value| == |n.items| && forall i :: 0 <= i < |n.items| ==> r.value[i] == ToStr(n.items[i])
  {
    var n := Or(names, Get(Obj(config), "validationStateProperty"));
    if n.Str? then Some([n.s])
    else if n.List? then Some(seq(|n.items|, i requires 0 <= i < |n.items| => ToStr(n.items[i])))
    else None
  }

  /** The `forEach` that fills the new state: one holder object under every
      name; a fresh results map, attached to the holder, only when the
      caller passed none. */
  method InstallBuckets(names: seq<string>, targets: seq<JsObject>, results: Option<JsObject>)
    returns (state: map<string, Bucket>, sink: Option<JsObject>)
    ensures state.Keys == set n | n in names
    ensures results.Some? ==> sink == results
    ensures results.None? ==> (sink.None? <==> names == [])
    ensures sink.Some? && results.None? ==> fresh(sink.value) && sink.value.props == map[]
    ensures forall n :: n in state ==>
      state[n] == Bucket(Some(targets), Null, if results.Some? then None else sink)
  {
    sink := results;
    var holder := Bucket(Some(targets), Null, None);
    state := map[];
    var i := 0;
    while i < |names|
      invariant 0 <= i <= |names|
      invariant state.Keys == set n | n in names[..i]
      invariant results.Some? ==> sink == results && holder.results.None?
      invariant results.None? ==> (sink.None? <==> i == 0) && holder.results == sink
      invariant sink.Some? && results.None? ==> fresh(sink.value) && sink.value.props == map[]
      invariant holder.targets == Some(targets) && holder.errorMessage == Null
      invariant forall n :: n in state ==> state[n] == holder
    {
      if sink.None? {
        var made := new JsObject(map[]);
        sink := Some(made);
        holder := holder.(results := sink);
      }
      state := state[names[i] := holder];
      assert names[..i + 1] == names[..i] + [names[i]];
      i := i + 1;
    }
    assert names[..i] == names;
  }

  /** The component that owns the buckets: its state slots and the fields it
      renders (each reading `validate` from its slot). */
  class Container {
    var state: map<string, Bucket>
    const fields: seq<Field>

    constructor (state: map<string, Bucket>, fields: seq<Field>)
      ensures this.state == state && this.fields == fields
    {
      this.state := state;
      this.fields := fields;
    }

    /** Every object a validation pass may write: the fields, their
        instances and `results` props, and the results of every bucket. */
    ghost function Footprint(): set<object>
      reads this
    {
      (set f: Field | f in fields :: f as object)
      + (set f: Field | f in fields :: f.instance as object)
      + (set f: Field | f in fields && f.resultsProp.Some? :: f.resultsProp.value as object)
      + (set n | n in state && state[n].results.Some? :: state[n].results.value as object)
    }

    /** `o` is none of the module's objects the application never holds:
        the configurations and the class tables of the fields. */
    ghost predicate Foreign(o: JsObject) reads this {
      forall j :: 0 <= j < |fields| ==> o != fields[j].config && o != fields[j].lib.classes
    }

    /** The bound instances, field by field. */
    function Instances(): (s: seq<JsObject>)
      ensures |s| == |fields|
      ensures forall j :: 0 <= j < |fields| ==> s[j] == fields[j].instance
    {
      seq(|fields|, j requires 0 <= j < |fields| => fields[j].instance)
    }

    /** The objects the fields merge their errors into under the current
        state. */
    ghost function Targets(): set<JsObject>
      reads this
    {
      set j | 0 <= j < |fields| && MergeTargets()[j].Some? :: MergeTargets()[j].value
    }

    /** Where each field merges its errors under the current state. */
    function MergeTargets(): (t: seq<Option<JsObject>>)
      reads this
      ensures |t| == |fields|
      ensures forall j :: 0 <= j < |fields| ==> t[j] == MergeTarget(fields[j].resultsProp, Slot(state, fields[j].bucketName))
    {
      var state := this.state;
      seq(|fields|, j requires 0 <= j < |fields| => MergeTarget(fields[j].resultsProp, Slot(state, fields[j].bucketName)))
    }

    /** The fields are distinct components, each valid, and no instance or
        results map the application hands in is one of the module's private
        objects. */
    ghost predicate Valid()
      reads this
    {
      && (forall j :: 0 <= j < |fields| ==> fields[j] !in fields[..j])
      && (forall j :: 0 <= j < |fields| ==> fields[j].Valid() && Foreign(fields[j].instance))
      && (forall j :: 0 <= j < |fields| && fields[j].resultsProp.Some? ==> Foreign(fields[j].resultsProp.value))
      && (forall n :: n in state && state[n].results.Some? ==> Foreign(state[n].results.value))
    }

    /** The configuration objects, field by field. */
    function Configs(): (s: seq<JsObject>)
      ensures |s| == |fields|
      ensures forall j :: 0 <= j < |fields| ==> s[j] == fields[j].config
    {
      seq(|fields|, j requires 0 <= j < |fields| => fields[j].config)
    }

    /** The class tables, field by field. */
    function ClassTables(): (s: seq<JsObject>)
      ensures |s| == |fields|
      ensures forall j :: 0 <= j < |fields| ==> s[j] == fields[j].lib.classes
    {
      seq(|fields|, j requires 0 <= j < |fields| => fields[j].lib.classes)
    }

    /** What every field would read if it reacted now. */
    function Views(): (v: seq<Pre>)
      reads fields, Instances(), Configs(), ClassTables()
      ensures |v| == |fields|
      ensures forall j :: 0 <= j < |fields| ==> v[j] == fields[j].PreState()
    {
      seq(|fields|, j requires 0 <= j < |fields| reads fields, Instances(), Configs(), ClassTables() =>
        fields[j].PreState())
    }

    /** The fields from the `i`th on have not reacted yet: each would read
        what it read in `start`, its instance aside when an earlier field
        wrote it. */
    ghost predicate Pending(i: nat, start: seq<Pre>)
      requires |start| == |fields|
      reads this, fields, Instances(), Configs(), ClassTables()
    {
      forall j :: i <= j < |fields| ==>
        Pinned(fields[j].PreState(), start[j], Untouched(Instances(), MergeTargets(), i, j))
    }

    /** Every field that reads a slot has a results map other than its
        instance, and no `required` field lacks a rule object. */
    ghost predicate Covered()
      reads this, fields
    {
      forall j :: 0 <= j < |fields| ==>
        && (fields[j].bucketName in state ==>
              MergeTargets()[j].Some? && MergeTargets()[j] != Some(fields[j].instance))
        && SafeRequired(fields[j].props)
    }

    /** The re-render has reached the `i`th field: the record so far, the
        fields still pending, the contents of `sink` (no field's instance)
        as `base` plus what has been merged into it, and no throw when the
        fields are `covered`. */
    ghost predicate Progress(i: nat, eval: Evaluator, start: seq<Pre>, seen: seq<Pre>, reports: seq<seq<Value>>,
                             threw: bool, sink: Option<JsObject>, base: map<string, Value>, covered: bool)
      reads this, fields, Instances(), Configs(), ClassTables(), if sink.Some? then {sink.value} else {}
    {
      && Valid() && |start| == |fields| && i == |reports| <= |fields| && (threw ==> i > 0)
      && Pending(i, start)
      && Recorded(fields, state, MergeTargets(), Instances(), start, eval, seen, reports, threw)
      && (sink.Some? ==>
            sink.value !in Instances() && sink.value.props == base + Collected(MergeTargets(), sink.value, reports))
      && (covered ==> Covering(fields, state, MergeTargets(), start) && !threw)
    }
  }

  /** Every field reads a slot only when its merge target is some object
      other than its instance, and no `required` field lacks a rule object
      in the props it read in `start`. */
  ghost predicate Covering(fields: seq<Field>, state: map<string, Bucket>, targets: seq<Option<JsObject>>,
                           start: seq<Pre>)
    requires |fields| == |targets| == |start|
  {
    forall j :: 0 <= j < |fields| ==>
      && SafeRequired(start[j].props)
      && (fields[j].bucketName in state ==> targets[j].Some? && targets[j] != Some(fields[j].instance))
  }

  /** The record of a pass over the first `|reports|` fields: field `j`
      read `seen[j]`, which is its reading `start[j]` from before the pass
      (the instance aside when an earlier field wrote it), and, unless its
      merge target is its own instance, its validations produced
      `reports[j]` exactly as `Reaction` says from `seen[j]`; only the last
      field to react can have thrown. */
  ghost predicate Recorded(fields: seq<Field>, state: map<string, Bucket>, targets: seq<Option<JsObject>>,
                           instances: seq<JsObject>, start: seq<Pre>, eval: Evaluator,
                           seen: seq<Pre>, reports: seq<seq<Value>>, threw: bool)
    requires |fields| == |targets| == |instances| == |start|
  {
    && |seen| == |reports| <= |fields|
    && (forall j :: 0 <= j < |seen| ==> Pinned(seen[j], start[j], Untouched(instances, targets, j, j)))
    && (forall j :: 0 <= j < |reports| && targets[j] != Some(fields[j].instance) ==>
          var p := fields[j].Reaction(Slot(state, fields[j].bucketName), seen[j], eval);
          reports[j] == p.outcomes && (p.threw <==> threw && j == |reports| - 1))
  }

  /** One more field's reaction extends the record. */
  lemma RecordStep(fields: seq<Field>, state: map<string, Bucket>, targets: seq<Option<JsObject>>,
                   instances: seq<JsObject>, start: seq<Pre>, eval: Evaluator,
                   seen: seq<Pre>, reports: seq<seq<Value>>, pre: Pre, outcomes: seq<Value>, threw: bool)
    requires |fields| == |targets| == |instances| == |start|
    requires Recorded(fields, state, targets, instances, start, eval, seen, reports, false)
    requires |reports| < |fields|
    requires Pinned(pre, start[|reports|], Untouched(instances, targets, |reports|, |reports|))
    requires targets[|reports|] != Some(fields[|reports|].instance) ==>
      var p := fields[|reports|].Reaction(Slot(state, fields[|reports|].bucketName), pre, eval);
      outcomes == p.outcomes && threw == p.threw
    ensures Recorded(fields, state, targets, instances, start, eval, seen + [pre], reports + [outcomes], threw)
  {
    var seen', reports' := seen + [pre], reports + [outcomes];
    forall j | 0 <= j < |seen'|
      ensures Pinned(seen'[j], start[j], Untouched(instances, targets, j, j))
    {
      if j < |seen| {
        assert seen'[j] == seen[j];
      }
    }
    forall j | 0 <= j < |reports'| && targets[j] != Some(fields[j].instance)
      ensures var p := fields[j].Reaction(Slot(state, fields[j].bucketName), seen'[j], eval);
        reports'[j] == p.outcomes && (p.threw <==> threw && j == |reports'| - 1)
    {
      if j < |reports| {
        assert seen'[j] == seen[j] && reports'[j] == reports[j];
      }
    }
  }

  /** The `i`th field of the container receiving the `validate` prop its
      slot holds, with `target` its merge target. Only its own props, its
      instance and its merge target change, so the fields after it are
      still pending. */
  method ReactField(container: Container, i: nat, eval: Evaluator, ghost target: Option<JsObject>, ghost start: seq<Pre>)
    returns (threw: bool, ghost pre: Pre, ghost outcomes: seq<Value>)
    requires container.Valid() && i < |container.fields| == |start|
    requires target == container.MergeTargets()[i]
    requires container.Pending(i, start)
    modifies container.fields[i], container.fields[i].instance, if target.Some? then {target.value} else {}
    ensures container.Valid() && container.Pending(i + 1, start)
    ensures Pinned(pre, start[i], Untouched(container.Instances(), container.MergeTargets(), i, i))
    ensures target != Some(container.fields[i].instance) ==>
      var p := container.fields[i].Reaction(Slot(container.state, container.fields[i].bucketName), pre, eval);
      outcomes == p.outcomes && threw == p.threw
    ensures target.Some? && target != Some(container.fields[i].instance) ==>
      target.value.props == old(target.value.props) + Merged(outcomes)
    ensures SafeRequired(start[i].props) &&
      (container.fields[i].bucketName in container.state ==> target.Some? && target != Some(container.fields[i].instance))
      ==> !threw
  {
    var f := container.fields[i];
    forall j | 0 <= j < |container.fields| && j != i
      ensures container.fields[j] != f
    {
      if j < i {
        assert container.fields[..i][j] == container.fields[j];
      } else {
        assert container.fields[..j][i] == f;
      }
    }
    threw, pre, outcomes := Receive(container, i, eval, target, start);
    forall j | i < j < |container.fields|
      ensures Pinned(container.fields[j].PreState(), start[j],
                     Untouched(container.Instances(), container.MergeTargets(), i + 1, j))
    {
      var g := container.fields[j];
      assert g.props == old(g.props) && g.value == old(g.value);
      assert g.config.props == old(g.config.props) && g.lib.classes.props == old(g.lib.classes.props);
      assert Untouched(container.Instances(), container.MergeTargets(), i + 1, j) ==>
        Untouched(container.Instances(), container.MergeTargets(), i, j) && g.instance.props == old(g.instance.props);
    }
  }

  /** What `ReactField` promises about the field itself: it read `pre`, ran
      its reaction and merged into its target. */
  method Receive(container: Container, i: nat, eval: Evaluator, ghost target: Option<JsObject>, ghost start: seq<Pre>)
    returns (threw: bool, ghost pre: Pre, ghost outcomes: seq<Value>)
    requires container.Valid() && i < |container.fields| == |start|
    requires target == container.MergeTargets()[i]
    requires container.Pending(i, start)
    modifies container.fields[i], container.fields[i].instance, if target.Some? then {target.value} else {}
    ensures Pinned(pre, start[i], Untouched(container.Instances(), container.MergeTargets(), i, i))
    ensures target != Some(container.fields[i].instance) ==>
      var p := container.fields[i].Reaction(Slot(container.state, container.fields[i].bucketName), pre, eval);
      outcomes == p.outcomes && threw == p.threw
    ensures target.Some? && target != Some(container.fields[i].instance) ==>
      target.value.props == old(target.value.props) + Merged(outcomes)
    ensures SafeRequired(start[i].props) &&
      (container.fields[i].bucketName in container.state ==> target.Some? && target != Some(container.fields[i].instance))
      ==> !threw
  {
    var f := container.fields[i];
    var slot := Slot(container.state, f.bucketName);
    pre := f.PreState();
    assert target == MergeTarget(f.resultsProp, slot);
    assert container.Foreign(f.instance);
    assert target.Some? ==> container.Foreign(target.value);
    assert target != Some(f.instance) ==> f.Apart(slot);
    var rerender;
    threw, rerender, outcomes := f.ReceiveProps(slot, eval);
    if slot.Some? && SafeRequired(pre.props) && target.Some? && target != Some(f.instance) {
      SafeRunsDoNotThrow(Reach(slot.value, f.instance), pre.config, pre.classes, f.propertyKey, eval, pre.props, pre.instance);
    }
  }

  /** One step of the re-render: the `|reports|`th field reacts, and the
      record, the pending fields and the contents of a results map `sink`
      that is no field's instance all move one field on. */
  method Advance(container: Container, i: nat, eval: Evaluator, ghost start: seq<Pre>, ghost seen: seq<Pre>,
                 ghost reports: seq<seq<Value>>, ghost sink: Option<JsObject>, ghost base: map<string, Value>,
                 ghost covered: bool)
    returns (threw: bool, ghost seen': seq<Pre>, ghost reports': seq<seq<Value>>)
    requires i < |container.fields|
    requires container.Progress(i, eval, start, seen, reports, false, sink, base, covered)
    modifies container.fields[i], container.fields[i].instance, container.Targets()
    ensures container.state == old(container.state) && container.MergeTargets() == old(container.MergeTargets())
    ensures container.Progress(i + 1, eval, start, seen', reports', threw, sink, base, covered)
  {
    ghost var targets := container.MergeTargets();
    ghost var cur := if sink.Some? then sink.value.props else map[];
    ghost var pre, outcomes;
    threw, pre, outcomes := ReactField(container, i, eval, targets[i], start);
    RecordStep(container.fields, container.state, targets, container.Instances(), start, eval, seen, reports,
               pre, outcomes, threw);
    if sink.Some? {
      assert container.fields[i].instance != sink.value;
      CollectStep(base, targets, sink.value, reports, outcomes, cur, sink.value.props);
    }
    seen', reports' := seen + [pre], reports + [outcomes];
  }

  /** The re-render that follows `setState`: every field of the container
      receives the `validate` prop its slot now holds, in order; a throw
      stops the pass. `start` is what every field would have read before
      the pass, `seen[j]` what the `j`th field read when it reacted and
      `reports[j]` the results of its validations. A results map that is
      no field's instance ends up holding what it held plus everything the
      fields merging into it collected. */
  method ReactAll(container: Container, eval: Evaluator, ghost sink: Option<JsObject>)
    returns (threw: bool, ghost start: seq<Pre>, ghost seen: seq<Pre>, ghost reports: seq<seq<Value>>)
    requires container.Valid()
    modifies container.fields, container.Instances(), container.Targets()
    ensures container.state == old(container.state)
    ensures start == old(container.Views())
    ensures Recorded(container.fields, container.state, container.MergeTargets(), container.Instances(), start, eval,
                     seen, reports, threw)
    ensures !threw ==> |reports| == |container.fields|
    ensures threw ==> |reports| > 0
    ensures sink.Some? && sink.value !in container.Instances() ==>
      sink.value.props == old(sink.value.props) + Collected(container.MergeTargets(), sink.value, reports)
    ensures old(container.Covered()) ==> !threw
  {
    var fields := container.fields;
    ghost var state := container.state;
    ghost var targets := container.MergeTargets();
    start := container.Views();
    ghost var covered := Covering(fields, state, targets, start);
    assert container.Covered() ==> covered;
    ghost var free := sink.Some? && sink.value !in container.Instances();
    ghost var watched := if free then sink else None;
    ghost var base := if free then sink.value.props else map[];
    seen, reports := [], [];
    threw := false;
    var i := 0;
    while i < |fields| && !threw
      invariant container.state == state && container.MergeTargets() == targets
      invariant container.Progress(i, eval, start, seen, reports, threw, watched, base, covered)
    {
      threw, seen, reports := Advance(container, i, eval, start, seen, reports, watched, base, covered);
      i := i + 1;
    }
  }

  /** The `setState` of `validate`: a holder under every name in `names`,
      the other slots kept. The container stays valid, every merge target
      is an object the container already knew, the caller's results map or
      the new one, and when every field reads one of the new slots, has a
      `results` prop other than its instance and has a rule object
      whenever it is `required`, the container is covered. */
  method SetBuckets(container: Container, names: seq<string>, targets: seq<JsObject>, results: Option<JsObject>)
    returns (sink: Option<JsObject>)
    requires container.Valid()
    requires results.Some? ==> container.Foreign(results.value)
    modifies container
    ensures container.Valid()
    ensures forall n :: n in container.state <==> n in old(container.state) || n in names
    ensures forall n :: n in container.state ==>
      container.state[n] == if n in names then Bucket(Some(targets), Null, if results.Some? then None else sink)
                            else old(container.state)[n]
    ensures results.Some? ==> sink == results
    ensures results.None? ==> (sink.None? <==> names == [])
    ensures sink.Some? && results.None? ==>
      fresh(sink.value) && sink.value.props == map[] && sink.value !in container.Instances()
    ensures forall j :: 0 <= j < |container.fields| ==>
      container.fields[j] in old(container.Footprint()) && container.fields[j].instance in old(container.Footprint())
    ensures container.Targets() <= old(container.Footprint()) + (if sink.Some? then {sink.value} else {})
    ensures container.Views() == old(container.Views())
    ensures results.None? && names != [] &&
            (forall j :: 0 <= j < |container.fields| ==>
               && container.fields[j].bucketName in names
               && container.fields[j].resultsProp != Some(container.fields[j].instance)
               && SafeRequired(container.fields[j].props))
      ==> container.Covered()
  {
    var newState;
    newState, sink := InstallBuckets(names, targets, results);
    if results.None? && sink.Some? {
      forall j | 0 <= j < |container.fields|
        ensures container.fields[j].instance != sink.value
      {
        assert old(allocated(container.fields[j].instance));
      }
    }
    container.state := container.state + newState;
    assert container.Valid() by {
      forall n | n in container.state && container.state[n].results.Some?
        ensures container.Foreign(container.state[n].results.value)
      {
        if n !in newState {
          assert n in old(container.state) && container.state[n] == old(container.state)[n];
        } else if results.None? {
          forall j | 0 <= j < |container.fields|
            ensures container.fields[j].config != sink.value && container.fields[j].lib.classes != sink.value
          {
            assert old(allocated(container.fields[j].config)) && old(allocated(container.fields[j].lib.classes));
          }
        }
      }
    }
    forall j | 0 <= j < |container.fields| && container.MergeTargets()[j].Some?
      ensures var t := container.MergeTargets()[j].value;
        t in old(container.Footprint()) || Some(t) == sink
    {
      var f := container.fields[j];
      if f.resultsProp.None? && f.bucketName !in newState {
        assert f.bucketName in old(container.state) && container.state[f.bucketName] == old(container.state)[f.bucketName];
      }
    }
    if results.None? && names != [] &&
       forall j :: 0 <= j < |container.fields| ==>
         && container.fields[j].bucketName in names
         && container.fields[j].resultsProp != Some(container.fields[j].instance)
         && SafeRequired(container.fields[j].props)
    {
      forall j | 0 <= j < |container.fields|
        ensures container.MergeTargets()[j].Some? && container.MergeTargets()[j] != Some(container.fields[j].instance)
      {
        assert container.fields[j].bucketName in newState;
        assert old(allocated(container.fields[j].instance));
      }
    }
  }

  /** The `setState` callback of `validate`: the re-render, then
      `Object.keys(results).length` settles the promise. A missing results
      map (no names and no `results` argument) is a TypeError. A results
      map that is no field's instance and started empty rejects exactly
      when some field merged an error with an own property into it. */
  method Rerender(container: Container, eval: Evaluator, sink: Option<JsObject>)
    returns (outcome: Settlement, ghost start: seq<Pre>, ghost seen: seq<Pre>, ghost reports: seq<seq<Value>>)
    requires container.Valid()
    modifies container.fields, container.Instances(), container.Targets()
    ensures container.state == old(container.state)
    ensures sink.None? ==> outcome.Failed?
    ensures !outcome.Failed? ==> sink == Some(outcome.sink) && |reports| == |container.fields|
    ensures outcome.Resolved? ==> outcome.sink.props == map[]
    ensures outcome.Rejected? ==> outcome.sink.props != map[]
    ensures sink.Some? ==>
      && start == old(container.Views())
      && Recorded(container.fields, container.state, container.MergeTargets(), container.Instances(), start, eval,
                  seen, reports, outcome.Failed?)
    ensures sink.Some? && sink.value !in container.Instances() ==>
      sink.value.props == old(sink.value.props) + Collected(container.MergeTargets(), sink.value, reports)
    ensures sink.Some? && sink.value !in container.Instances() && old(sink.value.props) == map[] && !outcome.Failed? ==>
      && outcome.sink.props == Collected(container.MergeTargets(), outcome.sink, reports)
      && (outcome.Rejected? <==>
         exists j, k :: 0 <= j < |reports| && container.MergeTargets()[j] == Some(outcome.sink) &&
           0 <= k < |reports[j]| && Truthy(reports[j][k]) && OwnProps(reports[j][k]) != map[])
    ensures sink.Some? && old(container.Covered()) ==> !outcome.Failed?
  {
    var threw;
    threw, start, seen, reports := ReactAll(container, eval, sink);
    if threw {
      return Failed(TypeError), start, seen, reports;
    }
    if sink.None? {
      // Object.keys(undefined)
      return Failed(TypeError), start, seen, reports;
    }
    outcome := Settle(sink.value);
    MergeIntoEmpty(Collected(container.MergeTargets(), sink.value, reports));
    CollectedSomething(container.MergeTargets(), sink.value, reports);
  }

  /** The orchestrator `validate(component, targets, results, names)`, with
      `setState` and its callback as one synchronous step: the buckets are
      installed, every field of the container reacts in order (`start`,
      `seen` and `reports` record the pass as `ReactAll` does), then the
      promise settles. It rejects exactly when some field merged an error
      with an own property into the results map, and it cannot fail when
      every field reads one of the new slots, merges somewhere other than
      its instance and has a rule object whenever it is `required`. */
  method Validate(lib: Library, container: Container, targets: seq<JsObject>, results: Option<JsObject>,
                  names: Value, eval: Evaluator)
    returns (outcome: Settlement, ghost start: seq<Pre>, ghost seen: seq<Pre>, ghost reports: seq<seq<Value>>)
    requires container.Valid()
    requires results.Some? ==> container.Foreign(results.value)
    modifies container, container.Footprint(), if results.Some? then {results.value} else {}
    ensures BucketNames(names, old(lib.config.props)).None? ==> outcome.Failed? && container.state == old(container.state)
    ensures outcome.Resolved? ==> outcome.sink.props == map[]
    ensures outcome.Rejected? ==> outcome.sink.props != map[]
    ensures !outcome.Failed? && results.Some? ==> outcome.sink == results.value
    ensures !outcome.Failed? && results.None? ==> fresh(outcome.sink)
    ensures BucketNames(names, old(lib.config.props)).Some? ==>
      var ns := BucketNames(names, old(lib.config.props)).value;
      && (forall n :: n in old(container.state) && n !in ns ==>
            n in container.state && container.state[n] == old(container.state)[n])
      && (forall n :: n in container.state ==> n in old(container.state) || n in ns)
      && (!outcome.Failed? ==> forall n :: n in ns ==>
            n in container.state &&
            container.state[n] == Bucket(Some(targets), Null, if results.Some? then None else Some(outcome.sink)))
    ensures results.None? && BucketNames(names, old(lib.config.props)) == Some([]) ==> outcome.Failed?
    ensures BucketNames(names, old(lib.config.props)).Some? &&
            (results.Some? || BucketNames(names, old(lib.config.props)).value != []) ==>
      && start == old(container.Views())
      && Recorded(container.fields, container.state, container.MergeTargets(), container.Instances(), start, eval,
                  seen, reports, outcome.Failed?)
    ensures !outcome.Failed? ==> |reports| == |container.fields|
    ensures !outcome.Failed? && results.None? ==>
      && outcome.sink.props == Collected(container.MergeTargets(), outcome.sink, reports)
      && (outcome.Rejected? <==>
            exists j, k :: 0 <= j < |reports| && container.MergeTargets()[j] == Some(outcome.sink) &&
              0 <= k < |reports[j]| && Truthy(reports[j][k]) && OwnProps(reports[j][k]) != map[])
    ensures !outcome.Failed? && results.Some? && results.value !in container.Instances() ==>
      results.value.props == old(results.value.props) + Collected(container.MergeTargets(), results.value, reports)
    ensures results.None? && BucketNames(names, old(lib.config.props)).Some? &&
            BucketNames(names, old(lib.config.props)).value != [] &&
            (forall j :: 0 <= j < |container.fields| ==>
               && container.fields[j].bucketName in BucketNames(names, old(lib.config.props)).value
               && container.fields[j].resultsProp != Some(container.fields[j].instance)
               && SafeRequired(old(container.fields[j].props)))
      ==> !outcome.Failed?
  {
    var ns := BucketNames(names, lib.config.props);
    if ns.None? {
      return Failed(TypeError), [], [], [];
    }
    var sink := SetBuckets(container, ns.value, targets, results);
    outcome, start, seen, reports := Rerender(container, eval, sink);
  }
}
