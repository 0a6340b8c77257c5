/** The stateful side of project/src/react-validated-input.js: the older
    `ValidatedInput` component and its single-bucket `validate`. */
module LegacyInput {
  import opened Js
  import opened Registry
  import opened Markup
  import opened Buckets
  import Current
  import opened Legacy

  class Field {
    const lib: Library
    /** `this.compConfig`, cached by the first `getValue`. */
    const recipe: JsObject
    /** `this.config`: a private copy or the global configuration object. */
    const config: JsObject
    /** `props.instance` */
    const instance: JsObject
    /** `props.propertyKey` */
    const propertyKey: string
    /** The container state slot this field's `validate` prop reads. */
    const bucketName: string
    /** The object behind a truthy `results` prop. */
    const resultsProp: Option<JsObject>
    /** The remaining props; this version never writes them. */
    const props: map<string, Value>
    /** `state.value` and `state.hasError` */
    var value: Value
    var hasError: bool

    /** The bound instance is the application's object, never one of the
        module's private tables or the field's own configuration. */
    ghost predicate Valid() {
      instance != config && instance != recipe && instance != lib.classes && config != lib.classes
    }

    /** `constructor`: the state starts as `{value: getValue(), hasError:
        false}`; the configuration is copied when `allowOverride` is on. */
    constructor (lib: Library, props: map<string, Value>, instance: JsObject, propertyKey: string,
                 bucketName: string, resultsProp: Option<JsObject>)
      requires lib.Valid()
      requires ToStr(Get(Obj(props), "type")) in lib.types
      requires instance != lib.config && instance != lib.classes && instance !in lib.types.Values
      ensures Valid()
      ensures this.lib == lib && this.props == props && this.instance == instance
      ensures this.propertyKey == propertyKey && this.bucketName == bucketName && this.resultsProp == resultsProp
      ensures recipe == lib.types[ToStr(Get(Obj(props), "type"))]
      ensures value == BoundValue(instance.props, propertyKey, props)
      ensures !hasError
      ensures Truthy(Get(Obj(lib.config.props), "allowOverride")) ==> fresh(config) && config.props == lib.config.props
      ensures !Truthy(Get(Obj(lib.config.props), "allowOverride")) ==> config == lib.config
    {
      this.lib := lib;
      this.props := props;
      this.instance := instance;
      this.propertyKey := propertyKey;
      this.bucketName := bucketName;
      this.resultsProp := resultsProp;
      this.recipe := lib.types[ToStr(Get(Obj(props), "type"))];
      this.value := BoundValue(instance.props, propertyKey, props);
      this.hasError := false;
      if Truthy(Get(Obj(lib.config.props), "allowOverride")) {
        this.config := new JsObject(lib.config.props);
      } else {
        this.config := lib.config;
      }
    }

    /** `this.validate(newProps, this.state.value)`: the class and the rules
        are looked up as in the current version (without `required`), and the
        state value, not the instance, is what the evaluator sees. */
    method Validate(eval: Evaluator) returns (r: Value)
      requires Valid()
      modifies instance
      ensures r == CheckField(old(lib.classes.props), propertyKey,
                              Current.ClassNameOf(props, old(instance.props), old(config.props)),
                              Current.RulesOf(props, old(instance.props), old(config.props)), value, eval)
      ensures instance.props == Marked(old(instance.props), old(config.props), r)
    {
      var className := Current.ClassNameOf(props, instance.props, config.props);
      var rules := Current.RulesOf(props, instance.props, config.props);
      r := ValidateInstance(instance, propertyKey, className, value, rules, config.props, lib.classes.props, eval);
    }

    /** The field's merge target is none of the objects its validation
        reads or writes: not the instance, the configuration or the class
        table. */
    ghost predicate Apart(validate: Option<Bucket>) {
      MergeTarget(resultsProp, validate).Some? ==>
        MergeTarget(resultsProp, validate).value !in {instance, config, lib.classes}
    }

    /** What the field reads when it reacts. */
    function PreState(): Pre
      reads this, instance, config, lib.classes
    {
      Pre(props, instance.props, config.props, lib.classes.props, value)
    }

    /** What `componentWillReceiveProps` does from the state `pre`: one
        validation per occurrence of the instance among the targets, each
        with the state value `pre.value`, none without the prop or without
        targets. */
    function Reaction(validate: Option<Bucket>, pre: Pre, eval: Evaluator): Pass {
      if validate.None? then Pass(pre.props, pre.instance, [], false)
      else Rounds(Reach(validate.value, instance), Step(pre.config, pre.classes, propertyKey, pre.value, eval),
                  pre.props, pre.instance, SinkFor(resultsProp, validate.value).Some?)
    }

    /** `componentWillReceiveProps`, with the `validate` prop the container's
        state now gives this field (`None` when the slot is missing). As in
        the current version it validates once per occurrence of the instance,
        merges the error maps, ORs the outcome into `instance._hasError` and
        asks for a re-render only when `hasError` changes; the one throw
        left is the merge of an error into a missing results map. */
    method ReceiveProps(validate: Option<Bucket>, eval: Evaluator)
      returns (threw: bool, rerender: bool, ghost outcomes: seq<Value>)
      requires Valid()
      modifies this, instance, Sinks(resultsProp, validate)
      ensures value == old(value)
      ensures validate.None? ==>
        !threw && !rerender && hasError == old(hasError) && instance.props == old(instance.props) && outcomes == []
      ensures validate.Some? && SinkFor(resultsProp, validate.value).Some? ==> !threw
      ensures validate.Some? && !threw ==> rerender == (old(hasError) != hasError)
      ensures validate.Some? && !threw ==> (hasError <==> exists j :: 0 <= j < |outcomes| && Truthy(outcomes[j]))
      ensures validate.Some? && !threw ==> |outcomes| == Reach(validate.value, instance)
      ensures validate.Some? && !threw ==>
        "_hasError" in instance.props && (hasError ==> ToInt32(instance.props["_hasError"]) % 2 == 1)
      ensures validate.Some? && Apart(validate) ==>
        var p := Reaction(validate, old(PreState()), eval);
        && threw == p.threw && outcomes == p.outcomes
        && instance.props == if threw then p.instance
                             else p.instance["_hasError" := OrFlag(Get(Obj(p.instance), "_hasError"), hasError)]
      ensures Apart(validate) && MergeTarget(resultsProp, validate).Some? ==>
        MergeTarget(resultsProp, validate).value.props
          == old(MergeTarget(resultsProp, validate).value.props) + Merged(outcomes)
    {
      outcomes := [];
      if validate.None? {
        return false, false, outcomes;
      }
      var found := false;
      if validate.value.targets.Some? {
        threw, found, outcomes := ValidateTargets(validate.value, eval);
        if threw {
          return true, false, outcomes;
        }
      }
      instance.props := instance.props["_hasError" := OrFlag(Get(Obj(instance.props), "_hasError"), found)];
      rerender := hasError != found;
      hasError := found;
      threw := false;
    }

    /** The `targets.forEach`: one validation per occurrence of the instance,
        each error map merged into the `results` prop or the bucket's map; an
        error with neither stops the loop. */
    method ValidateTargets(bucket: Bucket, eval: Evaluator)
      returns (threw: bool, found: bool, ghost outcomes: seq<Value>)
      requires Valid() && bucket.targets.Some?
      modifies instance, Sinks(resultsProp, Some(bucket))
      ensures SinkFor(resultsProp, bucket).Some? ==> !threw
      ensures !threw ==> |outcomes| == Occurrences(bucket.targets.value, instance)
      ensures found <==> exists j :: 0 <= j < |outcomes| && Truthy(outcomes[j])
      ensures instance !in bucket.targets.value ==> !threw && outcomes == [] && instance.props == old(instance.props)
      ensures Apart(Some(bucket)) ==>
        Reaction(Some(bucket), old(PreState()), eval) == Pass(props, instance.props, outcomes, threw)
        && config.props == old(config.props) && lib.classes.props == old(lib.classes.props)
      ensures Apart(Some(bucket)) && SinkFor(resultsProp, bucket).Some? ==>
        SinkFor(resultsProp, bucket).value.props == old(SinkFor(resultsProp, bucket).value.props) + Merged(outcomes)
    {
      var targets := bucket.targets.value;
      ghost var pre := PreState();
      ghost var sink := SinkFor(resultsProp, bucket);
      ghost var base := if sink.Some? then sink.value.props else map[];
      ghost var k := 0;
      outcomes := [];
      found := false;
      threw := false;
      Begin(bucket, eval, pre, base);
      var i := 0;
      while i < |targets| && !threw
        invariant Tally(bucket, eval, i, pre, base, k, outcomes, found, threw)
      {
        threw, found, k, outcomes := Visit(bucket, eval, i, pre, base, k, outcomes, found);
        i := i + 1;
      }
      if threw {
        if Apart(Some(bucket)) {
          RoundsStayThrown(Occurrences(targets, instance), k, Step(pre.config, pre.classes, propertyKey, pre.value, eval),
                           pre.props, pre.instance, sink.Some?);
        }
      } else {
        assert targets[..i] == targets;
      }
    }

    /** The targets loop has looked at the first `i` targets: `k`
        validations ran (one per occurrence of the instance so far, unless
        the last one threw, which needs a missing sink), `outcomes` and
        `found` record them, and, when the sink is apart, the field is where
        `k` rounds from `pre` leave it and the sink holds `base` plus every
        error map merged. */
    ghost predicate Tally(bucket: Bucket, eval: Evaluator, i: nat, pre: Pre, base: map<string, Value>,
                          k: nat, outcomes: seq<Value>, found: bool, threw: bool)
      requires bucket.targets.Some?
      reads this, instance, config, lib.classes, Sinks(resultsProp, Some(bucket))
    {
      var targets := bucket.targets.value;
      var sink := SinkFor(resultsProp, bucket);
      && i <= |targets|
      && pre.props == props && pre.value == value
      && k <= Occurrences(targets, instance) && (!threw ==> k == Occurrences(targets[..i], instance))
      && (!threw ==> |outcomes| == k)
      && (found <==> exists j :: 0 <= j < |outcomes| && Truthy(outcomes[j]))
      && (sink.Some? ==> !threw)
      && (k == 0 ==> !threw && outcomes == [] && instance.props == pre.instance)
      && (Apart(Some(bucket)) ==> config.props == pre.config && lib.classes.props == pre.classes)
      && (Apart(Some(bucket)) ==> Round(k, bucket, pre, eval) == Pass(props, instance.props, outcomes, threw))
      && (Apart(Some(bucket)) && sink.Some? ==> sink.value.props == base + Merged(outcomes))
    }

    /** Before the first target, nothing has run and the sink holds `base`. */
    lemma Begin(bucket: Bucket, eval: Evaluator, pre: Pre, base: map<string, Value>)
      requires bucket.targets.Some? && pre == PreState()
      requires base == if SinkFor(resultsProp, bucket).Some? then SinkFor(resultsProp, bucket).value.props else map[]
      ensures Tally(bucket, eval, 0, pre, base, 0, [], false, false)
    {
      MergeNothing(base);
    }

    /** A target other than the instance is passed over. */
    lemma Skip(bucket: Bucket, eval: Evaluator, i: nat, pre: Pre, base: map<string, Value>,
               k: nat, outcomes: seq<Value>, found: bool)
      requires bucket.targets.Some? && i < |bucket.targets.value| && bucket.targets.value[i] != instance
      requires Tally(bucket, eval, i, pre, base, k, outcomes, found, false)
      ensures Tally(bucket, eval, i + 1, pre, base, k, outcomes, found, false)
    {
      assert bucket.targets.value[..i + 1][..i] == bucket.targets.value[..i];
    }

    /** The `i`th target: one more validation when it is the instance,
        passed over otherwise. */
    method Visit(bucket: Bucket, eval: Evaluator, i: nat, ghost pre: Pre, ghost base: map<string, Value>,
                 ghost k: nat, ghost outcomes: seq<Value>, found: bool)
      returns (threw: bool, found': bool, ghost k': nat, ghost outcomes': seq<Value>)
      requires Valid() && bucket.targets.Some? && i < |bucket.targets.value|
      requires Tally(bucket, eval, i, pre, base, k, outcomes, found, false)
      modifies instance, Sinks(resultsProp, Some(bucket))
      ensures Tally(bucket, eval, i + 1, pre, base, k', outcomes', found', threw)
    {
      var targets := bucket.targets.value;
      if targets[i] != instance {
        Skip(bucket, eval, i, pre, base, k, outcomes, found);
        return false, found, k, outcomes;
      }
      k' := k + 1;
      assert targets[..i + 1][..i] == targets[..i];
      assert Occurrences(targets[..i + 1], instance) == k + 1;
      OccurrencesOfPrefix(targets, i + 1, instance);
      ghost var sink := SinkFor(resultsProp, bucket);
      ghost var mid := if sink.Some? then sink.value.props else map[];
      var r;
      threw, r := Occurrence(bucket, eval, k, pre, outcomes);
      outcomes' := outcomes + [r];
      assert forall j :: 0 <= j < |outcomes| ==> outcomes'[j] == outcomes[j];
      assert outcomes'[|outcomes|] == r;
      found' := found || Truthy(r);
      if Apart(Some(bucket)) && sink.Some? {
        MergeStep(base, outcomes, r, mid, sink.value.props);
      }
    }

    /** The first `n` validations of a reaction to `bucket` from `pre`. */
    function Round(n: nat, bucket: Bucket, pre: Pre, eval: Evaluator): Pass {
      Rounds(n, Step(pre.config, pre.classes, propertyKey, pre.value, eval), pre.props, pre.instance,
             SinkFor(resultsProp, bucket).Some?)
    }

    /** One occurrence of the instance among the targets: `this.validate`,
        then the merge of a reported error map into the sink, or a throw when
        there is none. After `n` validations from `pre`, this is the next
        one. */
    method Occurrence(bucket: Bucket, eval: Evaluator, ghost n: nat, ghost pre: Pre, ghost outcomes: seq<Value>)
      returns (threw: bool, r: Value)
      requires Valid() && pre.props == props && pre.value == value
      requires Apart(Some(bucket)) ==>
        && config.props == pre.config && lib.classes.props == pre.classes
        && Round(n, bucket, pre, eval) == Pass(props, instance.props, outcomes, false)
      modifies instance, Sinks(resultsProp, Some(bucket))
      ensures threw <==> Truthy(r) && SinkFor(resultsProp, bucket).None?
      ensures Apart(Some(bucket)) ==>
        && config.props == pre.config && lib.classes.props == pre.classes
        && Round(n + 1, bucket, pre, eval) == Pass(props, instance.props, outcomes + [r], threw)
      ensures Apart(Some(bucket)) && SinkFor(resultsProp, bucket).Some? ==>
        SinkFor(resultsProp, bucket).value.props == old(SinkFor(resultsProp, bucket).value.props)
          + (if Truthy(r) then OwnProps(r) else map[])
    {
      ghost var marked, hasSink := instance.props, SinkFor(resultsProp, bucket).Some?;
      r := Validate(eval);
      if Apart(Some(bucket)) {
        NextRound(n, pre.config, pre.classes, propertyKey, pre.value, eval, pre.props, pre.instance, hasSink,
                  props, marked, outcomes);
      }
      threw := Report(bucket, r);
    }

    /** The merge after one validation: a reported error map goes into the
        sink, and with no sink `Object.assign(undefined, result)` throws. */
    method Report(bucket: Bucket, v: Value) returns (threw: bool)
      modifies Sinks(resultsProp, Some(bucket))
      ensures threw <==> Truthy(v) && SinkFor(resultsProp, bucket).None?
      ensures SinkFor(resultsProp, bucket).Some? ==>
        SinkFor(resultsProp, bucket).value.props == old(SinkFor(resultsProp, bucket).value.props)
          + (if Truthy(v) then OwnProps(v) else map[])
    {
      threw := false;
      var sink := SinkFor(resultsProp, bucket);
      if Truthy(v) {
        if sink.None? {
          // Object.assign(undefined, result)
          return true;
        }
        sink.value.Assign(OwnProps(v));
      } else if sink.Some? {
        MergeNothing(sink.value.props);
      }
    }

    /** `handleChange`: as in the current version, with the value extracted
        by `getValueOnChange(e)` alone. */
    method HandleChange(e: Value, call: Host) returns (called: bool)
      requires Valid()
      modifies this, instance
      ensures value == Extracted(recipe.props, e, call)
      ensures called <==> Truthy(Get(Obj(props), "onChange"))
      ensures instance.props ==
        if !called || Truthy(Get(Obj(old(config.props)), "mutate"))
        then old(instance.props)[propertyKey := value] else old(instance.props)
      ensures hasError == old(hasError)
    {
      value := Extracted(recipe.props, e, call);
      called := Truthy(Get(Obj(props), "onChange"));
      if !called || Truthy(Get(Obj(config.props), "mutate")) {
        instance.Put(propertyKey, value);
      }
    }

    /** `render` and `finalRender` as far as props go. */
    method Render(call: Host) returns (out: Rendered)
      ensures out == View(recipe.props, config.props, props, instance.props, propertyKey, hasError, call)
    {
      if Current.HiddenBy(props, config.props) {
        return Hidden;
      }
      var shown := DisplayValue(recipe.props, props, instance.props, propertyKey, call);
      var elem := InitialProps(recipe.props, shown);
      if Truthy(Get(Obj(config.props), "propsPassThrough")) {
        elem := PassThrough(elem, props, Reserved);
      } else {
        elem := elem["placeholder" := Get(Obj(props), "placeholder")];
        elem := elem["type" := Get(Obj(props), "type")];
      }
      var status := StatusClassName(Or(Get(Obj(elem), "className"), Str("")), Current.Flags(hasError, props), config.props);
      var wrap := UseWrapper(config.props, recipe.props, props);
      if !wrap {
        elem := elem["className" := status];
      }
      elem := elem["className" := JoinedClassName(Get(Obj(elem), "className"), recipe.props)];
      elem := ApplyRenames(elem, RenamesOf(Get(Obj(recipe.props), "propsMap")));
      if Truthy(Get(Obj(recipe.props), "includedLabel")) {
        elem := elem["label" := Get(Obj(props), "label")];
      }
      var wrapper := Str(ToStr(status) + " " + ToStr(Get(Obj(recipe.props), "wrapperClass")));
      out := Element(elem, if wrap then Some(map["className" := wrapper]) else None);
    }
  }

  /** Building a field: `getValue` throws when the type has no recipe. */
  method Create(lib: Library, props: map<string, Value>, instance: JsObject, propertyKey: string,
                bucketName: string, resultsProp: Option<JsObject>)
    returns (r: Option<Field>)
    requires lib.Valid()
    requires instance != lib.config && instance != lib.classes && instance !in lib.types.Values
    ensures r.None? <==> ToStr(Get(Obj(props), "type")) !in lib.types
    ensures r.Some? ==> fresh(r.value) && r.value.Valid() && r.value.instance == instance && !r.value.hasError
  {
    if ToStr(Get(Obj(props), "type")) !in lib.types {
      return None;
    }
    var f := new Field(lib, props, instance, propertyKey, bucketName, resultsProp);
    r := Some(f);
  }

  /** The component that owns the bucket slots and renders the fields (each
      reading `validate` from its slot). */
  class Container {
    var state: map<string, Bucket>
    const fields: seq<Field>

    constructor (state: map<string, Bucket>, fields: seq<Field>)
      ensures this.state == state && this.fields == fields
    {
      this.state := state;
      this.fields := fields;
    }

    /** Every object a validation pass may write: the fields, their
        instances and `results` props, and the results of every bucket. */
    ghost function Footprint(): set<object>
      reads this
    {
      (set f: Field | f in fields :: f as object)
      + (set f: Field | f in fields :: f.instance as object)
      + (set f: Field | f in fields && f.resultsProp.Some? :: f.resultsProp.value as object)
      + (set n | n in state && state[n].results.Some? :: state[n].results.value as object)
    }

    /** `o` is none of the module's objects the application never holds:
        the configurations and the class tables of the fields. */
    ghost predicate Foreign(o: JsObject) reads this {
      forall j :: 0 <= j < |fields| ==> o != fields[j].config && o != fields[j].lib.classes
    }

    /** The bound instances, field by field. */
    function Instances(): (s: seq<JsObject>)
      ensures |s| == |fields|
      ensures forall j :: 0 <= j < |fields| ==> s[j] == fields[j].instance
    {
      seq(|fields|, j requires 0 <= j < |fields| => fields[j].instance)
    }

    /** The objects the fields merge their errors into under the current
        state. */
    ghost function Targets(): set<JsObject>
      reads this
    {
      set j | 0 <= j < |fields| && MergeTargets()[j].Some? :: MergeTargets()[j].value
    }

    /** Where each field merges its errors under the current state. */
    function MergeTargets(): (t: seq<Option<JsObject>>)
      reads this
      ensures |t| == |fields|
      ensures forall j :: 0 <= j < |fields| ==> t[j] == MergeTarget(fields[j].resultsProp, Slot(state, fields[j].bucketName))
    {
      var state := this.state;
      seq(|fields|, j requires 0 <= j < |fields| => MergeTarget(fields[j].resultsProp, Slot(state, fields[j].bucketName)))
    }

    /** The fields are distinct components, each valid, and no instance or
        results map the application hands in is one of the module's private
        objects. */
    ghost predicate Valid()
      reads this
    {
      && (forall j :: 0 <= j < |fields| ==> fields[j] !in fields[..j])
      && (forall j :: 0 <= j < |fields| ==> fields[j].Valid() && Foreign(fields[j].instance))
      && (forall j :: 0 <= j < |fields| && fields[j].resultsProp.Some? ==> Foreign(fields[j].resultsProp.value))
      && (forall n :: n in state && state[n].results.Some? ==> Foreign(state[n].results.value))
    }

    /** The configuration objects, field by field. */
    function Configs(): (s: seq<JsObject>)
      ensures |s| == |fields|
      ensures forall j :: 0 <= j < |fields| ==> s[j] == fields[j].config
    {
      seq(|fields|, j requires 0 <= j < |fields| => fields[j].config)
    }

    /** The class tables, field by field. */
    function ClassTables(): (s: seq<JsObject>)
      ensures |s| == |fields|
      ensures forall j :: 0 <= j < |fields| ==> s[j] == fields[j].lib.classes
    {
      seq(|fields|, j requires 0 <= j < |fields| => fields[j].lib.classes)
    }

    /** What every field would read if it reacted now. */
    function Views(): (v: seq<Pre>)
      reads fields, Instances(), Configs(), ClassTables()
      ensures |v| == |fields|
      ensures forall j :: 0 <= j < |fields| ==> v[j] == fields[j].PreState()
    {
      seq(|fields|, j requires 0 <= j < |fields| reads fields, Instances(), Configs(), ClassTables() =>
        fields[j].PreState())
    }

    /** The fields from the `i`th on have not reacted yet: each would read
        what it read in `start`, its instance aside when an earlier field
        wrote it. */
    ghost predicate Pending(i: nat, start: seq<Pre>)
      requires |start| == |fields|
      reads this, fields, Instances(), Configs(), ClassTables()
    {
      forall j :: i <= j < |fields| ==>
        Pinned(fields[j].PreState(), start[j], Untouched(Instances(), MergeTargets(), i, j))
    }

    /** Every field that reads a slot has somewhere to merge its errors. */
    ghost predicate Covered()
      reads this
    {
      Covering(fields, MergeTargets(), state)
    }

    /** The re-render has reached the `i`th field: the record so far, the
        fields still pending, the contents of `sink` (no field's instance)
        as `base` plus what has been merged into it, and no throw when the
        fields are `covered`. */
    ghost predicate Progress(i: nat, eval: Evaluator, start: seq<Pre>, seen: seq<Pre>, reports: seq<seq<Value>>,
                             threw: bool, sink: Option<JsObject>, base: map<string, Value>, covered: bool)
      reads this, fields, Instances(), Configs(), ClassTables(), if sink.Some? then {sink.value} else {}
    {
      && Valid() && |start| == |fields| && i == |reports| <= |fields| && (threw ==> i > 0)
      && Pending(i, start)
      && Recorded(fields, state, MergeTargets(), Instances(), start, eval, seen, reports, threw)
      && (sink.Some? ==>
            sink.value !in Instances() && sink.value.props == base + Collected(MergeTargets(), sink.value, reports))
      && (covered ==> Covering(fields, MergeTargets(), state) && !threw)
    }
  }

  /** Every field that reads a slot of `state` has a merge target. */
  ghost predicate Covering(fields: seq<Field>, targets: seq<Option<JsObject>>, state: map<string, Bucket>)
    requires |fields| == |targets|
  {
    forall j :: 0 <= j < |fields| && fields[j].bucketName in state ==> targets[j].Some?
  }

  /** The record of a pass over the first `|reports|` fields: field `j`
      read `seen[j]`, which is its reading `start[j]` from before the pass
      (the instance aside when an earlier field wrote it), and, unless its
      merge target is its own instance, its validations produced
      `reports[j]` exactly as `Reaction` says from `seen[j]`; only the last
      field to react can have thrown. */
  ghost predicate Recorded(fields: seq<Field>, state: map<string, Bucket>, targets: seq<Option<JsObject>>,
                           instances: seq<JsObject>, start: seq<Pre>, eval: Evaluator,
                           seen: seq<Pre>, reports: seq<seq<Value>>, threw: bool)
    requires |fields| == |targets| == |instances| == |start|
  {
    && |seen| == |reports| <= |fields|
    && (forall j :: 0 <= j < |seen| ==> Pinned(seen[j], start[j], Untouched(instances, targets, j, j)))
    && (forall j :: 0 <= j < |reports| && targets[j] != Some(fields[j].instance) ==>
          var p := fields[j].Reaction(Slot(state, fields[j].bucketName), seen[j], eval);
          reports[j] == p.outcomes && (p.threw <==> threw && j == |reports| - 1))
  }

  /** One more field's reaction extends the record. */
  lemma RecordStep(fields: seq<Field>, state: map<string, Bucket>, targets: seq<Option<JsObject>>,
                   instances: seq<JsObject>, start: seq<Pre>, eval: Evaluator,
                   seen: seq<Pre>, reports: seq<seq<Value>>, pre: Pre, outcomes: seq<Value>, threw: bool)
    requires |fields| == |targets| == |instances| == |start|
    requires Recorded(fields, state, targets, instances, start, eval, seen, reports, false)
    requires |reports| < |fields|
    requires Pinned(pre, start[|reports|], Untouched(instances, targets, |reports|, |reports|))
    requires targets[|reports|] != Some(fields[|reports|].instance) ==>
      var p := fields[|reports|].Reaction(Slot(state, fields[|reports|].bucketName), pre, eval);
      outcomes == p.outcomes && threw == p.threw
    ensures Recorded(fields, state, targets, instances, start, eval, seen + [pre], reports + [outcomes], threw)
  {
    var seen', reports' := seen + [pre], reports + [outcomes];
    forall j | 0 <= j < |seen'|
      ensures Pinned(seen'[j], start[j], Untouched(instances, targets, j, j))
    {
      if j < |seen| {
        assert seen'[j] == seen[j];
      }
    }
    forall j | 0 <= j < |reports'| && targets[j] != Some(fields[j].instance)
      ensures var p := fields[j].Reaction(Slot(state, fields[j].bucketName), seen'[j], eval);
        reports'[j] == p.outcomes && (p.threw <==> threw && j == |reports'| - 1)
    {
      if j < |reports| {
        assert seen'[j] == seen[j] && reports'[j] == reports[j];
      }
    }
  }

  /** The `i`th field of the container receiving the `validate` prop its
      slot holds, with `target` its merge target. Only its state, its
      instance and its merge target change, so the fields after it are
      still pending. */
  method ReactField(container: Container, i: nat, eval: Evaluator, ghost target: Option<JsObject>, ghost start: seq<Pre>)
    returns (threw: bool, ghost pre: Pre, ghost outcomes: seq<Value>)
    requires container.Valid() && i < |container.fields| == |start|
    requires target == container.MergeTargets()[i]
    requires container.Pending(i, start)
    modifies container.fields[i], container.fields[i].instance, if target.Some? then {target.value} else {}
    ensures container.Valid() && container.Pending(i + 1, start)
    ensures Pinned(pre, start[i], Untouched(container.Instances(), container.MergeTargets(), i, i))
    ensures target != Some(container.fields[i].instance) ==>
      var p := container.fields[i].Reaction(Slot(container.state, container.fields[i].bucketName), pre, eval);
      outcomes == p.outcomes && threw == p.threw
    ensures target.Some? && target != Some(container.fields[i].instance) ==>
      target.value.props == old(target.value.props) + Merged(outcomes)
    ensures (container.fields[i].bucketName in container.state ==> target.Some?) ==> !threw
  {
    var f := container.fields[i];
    forall j | 0 <= j < |container.fields| && j != i
      ensures container.fields[j] != f
    {
      if j < i {
        assert container.fields[..i][j] == container.fields[j];
      } else {
        assert container.fields[..j][i] == f;
      }
    }
    threw, pre, outcomes := Receive(container, i, eval, target, start);
    forall j | i < j < |container.fields|
      ensures Pinned(container.fields[j].PreState(), start[j],
                     Untouched(container.Instances(), container.MergeTargets(), i + 1, j))
    {
      var g := container.fields[j];
      assert g.value == old(g.value);
      assert g.config.props == old(g.config.props) && g.lib.classes.props == old(g.lib.classes.props);
      assert Untouched(container.Instances(), container.MergeTargets(), i + 1, j) ==>
        Untouched(container.Instances(), container.MergeTargets(), i, j) && g.instance.props == old(g.instance.props);
    }
  }

  /** What `ReactField` promises about the field itself: it read `pre`, ran
      its reaction and merged into its target. */
  method Receive(container: Container, i: nat, eval: Evaluator, ghost target: Option<JsObject>, ghost start: seq<Pre>)
    returns (threw: bool, ghost pre: Pre, ghost outcomes: seq<Value>)
    requires container.Valid() && i < |container.fields| == |start|
    requires target == container.MergeTargets()[i]
    requires container.Pending(i, start)
    modifies container.fields[i], container.fields[i].instance, if target.Some? then {target.value} else {}
    ensures Pinned(pre, start[i], Untouched(container.Instances(), container.MergeTargets(), i, i))
    ensures target != Some(container.fields[i].instance) ==>
      var p := container.fields[i].Reaction(Slot(container.state, container.fields[i].bucketName), pre, eval);
      outcomes == p.outcomes && threw == p.threw
    ensures target.Some? && target != Some(container.fields[i].instance) ==>
      target.value.props == old(target.value.props) + Merged(outcomes)
    ensures (container.fields[i].bucketName in container.state ==> target.Some?) ==> !threw
  {
    var f := container.fields[i];
    var slot := Slot(container.state, f.bucketName);
    pre := f.PreState();
    assert target == MergeTarget(f.resultsProp, slot);
    assert container.Foreign(f.instance);
    assert target.Some? ==> container.Foreign(target.value);
    assert target != Some(f.instance) ==> f.Apart(slot);
    var rerender;
    threw, rerender, outcomes := f.ReceiveProps(slot, eval);
  }

  /** One step of the re-render: the `|reports|`th field reacts, and the
      record, the pending fields and the contents of a results map `sink`
      that is no field's instance all move one field on. */
  method Advance(container: Container, i: nat, eval: Evaluator, ghost start: seq<Pre>, ghost seen: seq<Pre>,
                 ghost reports: seq<seq<Value>>, ghost sink: Option<JsObject>, ghost base: map<string, Value>,
                 ghost covered: bool)
    returns (threw: bool, ghost seen': seq<Pre>, ghost reports': seq<seq<Value>>)
    requires i < |container.fields|
    requires container.Progress(i, eval, start, seen, reports, false, sink, base, covered)
    modifies container.fields[i], container.fields[i].instance, container.Targets()
    ensures container.state == old(container.state) && container.MergeTargets() == old(container.MergeTargets())
    ensures container.Progress(i + 1, eval, start, seen', reports', threw, sink, base, covered)
  {
    ghost var targets := container.MergeTargets();
    ghost var cur := if sink.Some? then sink.value.props else map[];
    ghost var pre, outcomes;
    threw, pre, outcomes := ReactField(container, i, eval, targets[i], start);
    RecordStep(container.fields, container.state, targets, container.Instances(), start, eval, seen, reports,
               pre, outcomes, threw);
    if sink.Some? {
      assert container.fields[i].instance != sink.value;
      CollectStep(base, targets, sink.value, reports, outcomes, cur, sink.value.props);
    }
    seen', reports' := seen + [pre], reports + [outcomes];
  }

  /** The re-render that follows `setState`: every field of the container
      receives the `validate` prop its slot now holds, in order; a throw
      stops the pass, and none happens while every field that reads a slot
      has somewhere to merge. `start` is what every field would have read
      before the pass, `seen[j]` what the `j`th field read when it reacted
      and `reports[j]` the results of its validations. A results map that
      is no field's instance ends up holding what it held plus everything
      the fields merging into it collected. */
  method ReactAll(container: Container, eval: Evaluator, ghost sink: JsObject)
    returns (threw: bool, ghost start: seq<Pre>, ghost seen: seq<Pre>, ghost reports: seq<seq<Value>>)
    requires container.Valid()
    modifies container.fields, container.Instances(), container.Targets()
    ensures container.state == old(container.state)
    ensures start == old(container.Views())
    ensures Recorded(container.fields, container.state, container.MergeTargets(), container.Instances(), start, eval,
                     seen, reports, threw)
    ensures !threw ==> |reports| == |container.fields|
    ensures threw ==> |reports| > 0
    ensures sink !in container.Instances() ==>
      sink.props == old(sink.props) + Collected(container.MergeTargets(), sink, reports)
    ensures old(container.Covered()) ==> !threw
  {
    var fields := container.fields;
    ghost var state := container.state;
    ghost var targets := container.MergeTargets();
    start := container.Views();
    ghost var covered := container.Covered();
    ghost var free := sink !in container.Instances();
    ghost var watched := if free then Some(sink) else None;
    ghost var base := if free then sink.props else map[];
    seen, reports := [], [];
    threw := false;
    var i := 0;
    while i < |fields| && !threw
      invariant container.state == state && container.MergeTargets() == targets
      invariant container.Progress(i, eval, start, seen, reports, threw, watched, base, covered)
    {
      threw, seen, reports := Advance(container, i, eval, start, seen, reports, watched, base, covered);
      i := i + 1;
    }
  }

  /** The `setState` of the older `validate`: the slot `key` holds
      `{targets, errorMessage: null}` and, when the caller passed no
      results, a fresh results map; the other slots are kept. The
      container stays valid, every merge target is an object the container
      already knew or the new map, and the container is covered when the
      fields reading the other slots were, and the fields reading `key`
      have a `results` prop whenever the caller passed results. */
  method SetBuckets(container: Container, key: string, targets: seq<JsObject>, results: Option<JsObject>)
    returns (sink: JsObject)
    requires container.Valid()
    requires results.Some? ==> container.Foreign(results.value)
    modifies container
    ensures container.Valid()
    ensures container.state ==
      old(container.state)[key := Bucket(Some(targets), Null, if results.Some? then None else Some(sink))]
    ensures results.Some? ==> sink == results.value
    ensures results.None? ==> fresh(sink) && sink.props == map[] && sink !in container.Instances()
    ensures forall j :: 0 <= j < |container.fields| ==>
      container.fields[j] in old(container.Footprint()) && container.fields[j].instance in old(container.Footprint())
    ensures container.Targets() <= old(container.Footprint()) + {sink}
    ensures container.Views() == old(container.Views())
    ensures && Covering(container.fields, old(container.MergeTargets()), old(container.state) - {key})
            && (results.Some? ==> forall j :: 0 <= j < |container.fields| && container.fields[j].bucketName == key ==>
                                    container.fields[j].resultsProp.Some?)
      ==> container.Covered()
  {
    var holder := Bucket(Some(targets), Null, None);
    if results.None? {
      sink := new JsObject(map[]);
      holder := holder.(results := Some(sink));
      forall j | 0 <= j < |container.fields|
        ensures container.fields[j].instance != sink
      {
        assert old(allocated(container.fields[j].instance));
      }
    } else {
      sink := results.value;
    }
    container.state := container.state[key := holder];
    assert container.Valid() by {
      forall n | n in container.state && container.state[n].results.Some?
        ensures container.Foreign(container.state[n].results.value)
      {
        if n != key {
          assert n in old(container.state) && container.state[n] == old(container.state)[n];
        } else if results.None? {
          forall j | 0 <= j < |container.fields|
            ensures container.fields[j].config != sink && container.fields[j].lib.classes != sink
          {
            assert old(allocated(container.fields[j].config)) && old(allocated(container.fields[j].lib.classes));
          }
        }
      }
    }
    forall j | 0 <= j < |container.fields| && container.MergeTargets()[j].Some?
      ensures var t := container.MergeTargets()[j].value;
        t in old(container.Footprint()) || t == sink
    {
      var f := container.fields[j];
      if f.resultsProp.None? && f.bucketName != key {
        assert f.bucketName in old(container.state) && container.state[f.bucketName] == old(container.state)[f.bucketName];
      }
    }
  }

  /** The `setState` callback of the older `validate`: the re-render, then
      `Object.keys(results).length` settles the promise. A results map that
      is no field's instance and started empty rejects exactly when some
      field merged an error with an own property into it. */
  method Rerender(container: Container, eval: Evaluator, sink: JsObject)
    returns (outcome: Settlement, ghost start: seq<Pre>, ghost seen: seq<Pre>, ghost reports: seq<seq<Value>>)
    requires container.Valid()
    modifies container.fields, container.Instances(), container.Targets()
    ensures container.state == old(container.state)
    ensures !outcome.Failed? ==> outcome.sink == sink && |reports| == |container.fields|
    ensures outcome.Resolved? ==> outcome.sink.props == map[]
    ensures outcome.Rejected? ==> outcome.sink.props != map[]
    ensures start == old(container.Views())
    ensures Recorded(container.fields, container.state, container.MergeTargets(), container.Instances(), start, eval,
                     seen, reports, outcome.Failed?)
    ensures sink !in container.Instances() ==>
      sink.props == old(sink.props) + Collected(container.MergeTargets(), sink, reports)
    ensures sink !in container.Instances() && old(sink.props) == map[] && !outcome.Failed? ==>
      && outcome.sink.props == Collected(container.MergeTargets(), outcome.sink, reports)
      && (outcome.Rejected? <==>
         exists j, k :: 0 <= j < |reports| && container.MergeTargets()[j] == Some(outcome.sink) &&
           0 <= k < |reports[j]| && Truthy(reports[j][k]) && OwnProps(reports[j][k]) != map[])
    ensures old(container.Covered()) ==> !outcome.Failed?
  {
    var threw;
    threw, start, seen, reports := ReactAll(container, eval, sink);
    if threw {
      return Failed(TypeError), start, seen, reports;
    }
    outcome := Settle(sink);
    MergeIntoEmpty(Collected(container.MergeTargets(), sink, reports));
    CollectedSomething(container.MergeTargets(), sink, reports);
  }

  /** The older `validate(component, targets, results, key)`, with
      `setState` and its callback as one synchronous step: one slot, named
      by the key argument or `validationStateProperty`, is installed, every
      field of the container reacts in order (`start`, `seen` and `reports`
      record the pass as `ReactAll` does), then the promise settles. It
      rejects exactly when some field merged an error with an own property
      into the results map, and it cannot fail when every field reading a
      slot has somewhere to merge its errors. */
  method Validate(lib: Library, container: Container, targets: seq<JsObject>, results: Option<JsObject>,
                  name: Value, eval: Evaluator)
    returns (outcome: Settlement, ghost start: seq<Pre>, ghost seen: seq<Pre>, ghost reports: seq<seq<Value>>)
    requires container.Valid()
    requires results.Some? ==> container.Foreign(results.value)
    modifies container, container.Footprint(), if results.Some? then {results.value} else {}
    ensures outcome.Resolved? ==> outcome.sink.props == map[]
    ensures outcome.Rejected? ==> outcome.sink.props != map[]
    ensures !outcome.Failed? && results.Some? ==> outcome.sink == results.value
    ensures !outcome.Failed? && results.None? ==> fresh(outcome.sink)
    ensures var k := BucketKey(name, old(lib.config.props));
      && k in container.state
      && container.state[k].targets == Some(targets) && container.state[k].errorMessage == Null
      && (results.Some? ==> container.state[k].results.None?)
      && (results.None? ==> container.state[k].results.Some? && fresh(container.state[k].results.value))
      && (results.None? && !outcome.Failed? ==> container.state[k].results == Some(outcome.sink))
      && container.state == old(container.state)[k := container.state[k]]
    ensures start == old(container.Views())
    ensures Recorded(container.fields, container.state, container.MergeTargets(), container.Instances(), start, eval,
                     seen, reports, outcome.Failed?)
    ensures !outcome.Failed? ==> |reports| == |container.fields|
    ensures !outcome.Failed? && results.None? ==>
      && outcome.sink.props == Collected(container.MergeTargets(), outcome.sink, reports)
      && (outcome.Rejected? <==>
            exists j, k :: 0 <= j < |reports| && container.MergeTargets()[j] == Some(outcome.sink) &&
              0 <= k < |reports[j]| && Truthy(reports[j][k]) && OwnProps(reports[j][k]) != map[])
    ensures !outcome.Failed? && results.Some? && results.value !in container.Instances() ==>
      results.value.props == old(results.value.props) + Collected(container.MergeTargets(), results.value, reports)
    ensures var k := BucketKey(name, old(lib.config.props));
      && Covering(container.fields, old(container.MergeTargets()), old(container.state) - {k})
      && (results.Some? ==> forall j :: 0 <= j < |container.fields| && container.fields[j].bucketName == k ==>
                              container.fields[j].resultsProp.Some?)
      ==> !outcome.Failed?
  {
    var key := BucketKey(name, lib.config.props);
    var sink := SetBuckets(container, key, targets, results);
    outcome, start, seen, reports := Rerender(container, eval, sink);
  }
}
