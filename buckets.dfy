/** The validation protocol that both versions share: the bucket record a
    container installs in its state, the abstract rule evaluator, the
    record `validateInstance` merges onto an instance, and the final
    resolve-or-reject decision. */
module Buckets {
  import opened Js

  /** validate.js: `validate(attributes, constraints)` returns `undefined`
      when every constraint holds and an error map otherwise. Its rules are
      not part of this model. */
  type Evaluator = (Value, Value) -> Value

  /** A bucket record `{targets, errorMessage, results}` in a container's
      state. `targets` is `None` for a slot that holds no target list (the
      `{}` a container starts with); `results` is `None` when the record has
      no `results` property. */
  datatype Bucket = Bucket(targets: Option<seq<JsObject>>, errorMessage: Value, results: Option<JsObject>)

  /** How the promise returned by `validate` settles. `Failed` is a rejection
      with a thrown TypeError rather than with the results map. */
  datatype Settlement = Resolved(sink: JsObject) | Rejected(sink: JsObject) | Failed(error: string)

  const TypeError: string := "TypeError"

  /** `{[errorIndicatorKey]: true, [errorMessageKey]: ret}`; when both keys
      name the same property the later one, the message, wins. */
  function ErrorRecord(config: map<string, Value>, ret: Value): (r: map<string, Value>)
    ensures r.Keys == {ToStr(Get(Obj(config), "errorIndicatorKey")), ToStr(Get(Obj(config), "errorMessageKey"))}
    ensures r[ToStr(Get(Obj(config), "errorMessageKey"))] == ret
    ensures ToStr(Get(Obj(config), "errorIndicatorKey")) != ToStr(Get(Obj(config), "errorMessageKey")) ==>
      r[ToStr(Get(Obj(config), "errorIndicatorKey"))] == Bool(true)
  {
    map[ToStr(Get(Obj(config), "errorIndicatorKey")) := Bool(true)][ToStr(Get(Obj(config), "errorMessageKey")) := ret]
  }

  /** The instance after `validateInstance`: the error record is merged onto
      it exactly when the evaluator reported errors and `mutate` is on. */
  function Marked(instance: map<string, Value>, config: map<string, Value>, ret: Value): (r: map<string, Value>)
    ensures !Truthy(Get(Obj(config), "mutate")) ==> r == instance
    ensures !Truthy(ret) ==> r == instance
    ensures Truthy(Get(Obj(config), "mutate")) && Truthy(ret) ==>
      r.Keys == instance.Keys + ErrorRecord(config, ret).Keys &&
      (forall k :: k in ErrorRecord(config, ret) ==> r[k] == ErrorRecord(config, ret)[k]) &&
      (forall k :: k in instance && k !in ErrorRecord(config, ret) ==> r[k] == instance[k])
  {
    if Truthy(ret) && Truthy(Get(Obj(config), "mutate")) then instance + ErrorRecord(config, ret) else instance
  }

  /** The map a field merges its errors into: its own `results` prop when it
      has one, else the bucket's `results` (absent: `Object.assign` throws). */
  function SinkFor(resultsProp: Option<JsObject>, b: Bucket): Option<JsObject> {
    if resultsProp.Some? then resultsProp else b.results
  }

  /** Where a field given the `validate` prop merges its errors: nowhere
      when the prop is missing. */
  function MergeTarget(resultsProp: Option<JsObject>, validate: Option<Bucket>): (t: Option<JsObject>)
    ensures validate.Some? ==> t == SinkFor(resultsProp, validate.value)
    ensures validate.None? ==> t.None?
  {
    if validate.Some? then SinkFor(resultsProp, validate.value) else None
  }

  /** The results map a field may write, as a set. */
  function Sinks(resultsProp: Option<JsObject>, validate: Option<Bucket>): set<JsObject> {
    if MergeTarget(resultsProp, validate).Some? then {MergeTarget(resultsProp, validate).value} else {}
  }

  /** Merging `a` and then `b` into a map is merging `a + b`. */
  lemma MergeTwice(m: map<string, Value>, a: map<string, Value>, b: map<string, Value>)
    ensures m + a + b == m + (a + b)
  {
    assert forall k :: k in m + a + b <==> k in m + (a + b);
  }

  /** Merging into an empty map yields what was merged. */
  lemma MergeIntoEmpty(a: map<string, Value>)
    ensures map[] + a == a
  {
    assert forall k :: k in map[] + a <==> k in a;
  }

  /** Merging an empty map changes nothing. */
  lemma MergeNothing(a: map<string, Value>)
    ensures a + map[] == a
  {
    assert forall k :: k in a + map[] <==> k in a;
  }

  /** The slot a field with the given bucket name reads from a state. */
  function Slot(state: map<string, Bucket>, name: string): (b: Option<Bucket>)
    ensures b.Some? <==> name in state
    ensures b.Some? ==> b.value == state[name]
  {
    if name in state then Some(state[name]) else None
  }

  /** How many times `instance` occurs (by identity) among the targets. */
  function Occurrences(targets: seq<JsObject>, instance: JsObject): (n: nat)
    ensures n <= |targets|
    ensures n == 0 <==> instance !in targets
  {
    if targets == [] then 0
    else Occurrences(targets[..|targets| - 1], instance) + (if targets[|targets| - 1] == instance then 1 else 0)
  }

  /** Occurrences among a prefix never exceed those among the whole list. */
  lemma {:induction false} OccurrencesOfPrefix(targets: seq<JsObject>, i: nat, instance: JsObject)
    requires i <= |targets|
    ensures Occurrences(targets[..i], instance) <= Occurrences(targets, instance)
    decreases |targets|
  {
    if i < |targets| {
      assert targets[..|targets| - 1][..i] == targets[..i];
      OccurrencesOfPrefix(targets[..|targets| - 1], i, instance);
    } else {
      assert targets[..i] == targets;
    }
  }

  /** How many validations a field whose instance is `instance` runs for a
      bucket: one per occurrence among the targets, none without targets. */
  function Reach(b: Bucket, instance: JsObject): (n: nat)
    ensures n > 0 <==> b.targets.Some? && instance in b.targets.value
  {
    if b.targets.Some? then Occurrences(b.targets.value, instance) else 0
  }

  /** One call of a field's `validate`: the props and the instance it leaves
      behind and the result it returns. */
  datatype Checked = Checked(props: map<string, Value>, instance: map<string, Value>, result: Value)

  /** A field's `validate` as a function of the props and the instance it
      reads; `None` is a throw. */
  type Validation = (map<string, Value>, map<string, Value>) -> Option<Checked>

  /** What a field's run of validations leaves behind: its props, its
      instance, the results in order, and whether a throw stopped the run. */
  datatype Pass = Pass(props: map<string, Value>, instance: map<string, Value>, outcomes: seq<Value>, threw: bool)

  /** What a field reads when it reacts: its props, its instance, its
      configuration, the class table and its state value. */
  datatype Pre = Pre(props: map<string, Value>, instance: map<string, Value>, config: map<string, Value>,
                     classes: map<string, Value>, value: Value)

  /** No field before the `i`th writes the `j`th field's instance: none
      shares it, and none merges its errors into it. */
  ghost predicate Untouched(instances: seq<JsObject>, targets: seq<Option<JsObject>>, i: nat, j: nat)
    requires j < |instances| <= |targets|
  {
    forall k :: 0 <= k < i && k < |instances| ==> instances[k] != instances[j] && targets[k] != Some(instances[j])
  }

  /** A reading `seen` agrees with the reading `before` in everything but,
      when `untouched` is false, the instance. */
  ghost predicate Pinned(seen: Pre, before: Pre, untouched: bool) {
    && seen.props == before.props && seen.value == before.value
    && seen.config == before.config && seen.classes == before.classes
    && (untouched ==> seen.instance == before.instance)
  }

  /** `n` validations in a row, each on the state the previous one left. A
      validation throws, or an error arrives with no results map to merge
      into (`Object.assign(undefined, …)`); either stops the run. */
  function Rounds(n: nat, step: Validation, props: map<string, Value>, instance: map<string, Value>, hasSink: bool): (p: Pass)
    ensures |p.outcomes| <= n
    ensures !p.threw ==> |p.outcomes| == n
    decreases n
  {
    if n == 0 then Pass(props, instance, [], false)
    else
      var prev := Rounds(n - 1, step, props, instance, hasSink);
      if prev.threw then prev
      else match step(prev.props, prev.instance)
        case None => prev.(threw := true)
        case Some(c) => Pass(c.props, c.instance, prev.outcomes + [c.result], Truthy(c.result) && !hasSink)
  }

  /** Once a run has thrown, further occurrences change nothing. */
  lemma {:induction false} RoundsStayThrown(m: nat, n: nat, step: Validation, props: map<string, Value>,
                                            instance: map<string, Value>, hasSink: bool)
    requires n <= m && Rounds(n, step, props, instance, hasSink).threw
    ensures Rounds(m, step, props, instance, hasSink) == Rounds(n, step, props, instance, hasSink)
    decreases m
  {
    if m > n {
      RoundsStayThrown(m - 1, n, step, props, instance, hasSink);
    }
  }

  /** A validation that leaves its state as it found it returns the same
      result every time: the run is that result once per occurrence, or a
      single error when there is nowhere to merge it. */
  lemma {:induction false} RoundsRepeat(n: nat, step: Validation, props: map<string, Value>,
                                        instance: map<string, Value>, hasSink: bool, r: Value)
    requires step(props, instance) == Some(Checked(props, instance, r))
    ensures Rounds(n, step, props, instance, hasSink) ==
      if n > 0 && Truthy(r) && !hasSink then Pass(props, instance, [r], true)
      else Pass(props, instance, seq(n, _ => r), false)
    decreases n
  {
    if n > 0 {
      RoundsRepeat(n - 1, step, props, instance, hasSink, r);
      if !(n - 1 > 0 && Truthy(r) && !hasSink) {
        assert seq(n - 1, _ => r) + [r] == seq(n, _ => r);
      }
    }
  }

  /** The own properties of every truthy outcome, merged in order: what a
      run of validations adds to its results map. */
  function Merged(outcomes: seq<Value>): map<string, Value>
    decreases |outcomes|
  {
    if outcomes == [] then map[]
    else
      var last := outcomes[|outcomes| - 1];
      Merged(outcomes[..|outcomes| - 1]) + (if Truthy(last) then OwnProps(last) else map[])
  }

  /** A run adds nothing exactly when none of its truthy outcomes has an
      own property. */
  lemma {:induction false} MergedEmpty(outcomes: seq<Value>)
    ensures Merged(outcomes) == map[] <==>
      forall j :: 0 <= j < |outcomes| && Truthy(outcomes[j]) ==> OwnProps(outcomes[j]) == map[]
    decreases |outcomes|
  {
    if outcomes != [] {
      var init := outcomes[..|outcomes| - 1];
      var last := outcomes[|outcomes| - 1];
      MergedEmpty(init);
      assert forall j :: 0 <= j < |init| ==> init[j] == outcomes[j];
      var m := Merged(outcomes);
      assert m == map[] <==> Merged(init) == map[] && (Truthy(last) ==> OwnProps(last) == map[]) by {
        if Merged(init) != map[] {
          var k :| k in Merged(init);
          assert k in m;
        } else if Truthy(last) && OwnProps(last) != map[] {
          var k :| k in OwnProps(last);
          assert k in m;
        }
      }
    }
  }

  /** One more outcome merges its own properties when it is truthy. */
  lemma MergedSnoc(outcomes: seq<Value>, r: Value)
    ensures Merged(outcomes + [r]) == Merged(outcomes) + (if Truthy(r) then OwnProps(r) else map[])
  {
    assert (outcomes + [r])[..|outcomes|] == outcomes;
  }

  /** A results map that holds `base` and the merged `before` holds the
      merged `before + [r]` once `r` is merged too. */
  lemma MergeStep(base: map<string, Value>, before: seq<Value>, r: Value, cur: map<string, Value>, next: map<string, Value>)
    requires cur == base + Merged(before)
    requires next == cur + (if Truthy(r) then OwnProps(r) else map[])
    ensures next == base + Merged(before + [r])
  {
    MergedSnoc(before, r);
    MergeTwice(base, Merged(before), if Truthy(r) then OwnProps(r) else map[]);
  }

  /** Merging the same error map again adds nothing. */
  lemma {:induction false} MergedRepeat(n: nat, r: Value)
    ensures Merged(seq(n, _ => r)) == if n > 0 && Truthy(r) then OwnProps(r) else map[]
    decreases n
  {
    if n > 0 {
      var s := seq(n, _ => r);
      assert s[..n - 1] == seq(n - 1, _ => r);
      MergedRepeat(n - 1, r);
    }
  }

  /** What a results map collects from the fields that reacted, in order:
      the merged errors of every field whose merge target it is. */
  function Collected(targets: seq<Option<JsObject>>, sink: JsObject, reports: seq<seq<Value>>): map<string, Value>
    requires |reports| <= |targets|
    decreases |reports|
  {
    if reports == [] then map[]
    else
      var n := |reports| - 1;
      Collected(targets, sink, reports[..n]) + (if targets[n] == Some(sink) then Merged(reports[n]) else map[])
  }

  /** A results map collects nothing exactly when every field merging
      into it merged nothing. */
  lemma {:induction false} CollectedEmpty(targets: seq<Option<JsObject>>, sink: JsObject, reports: seq<seq<Value>>)
    requires |reports| <= |targets|
    ensures Collected(targets, sink, reports) == map[] <==>
      forall j :: 0 <= j < |reports| && targets[j] == Some(sink) ==> Merged(reports[j]) == map[]
    decreases |reports|
  {
    if reports != [] {
      var n := |reports| - 1;
      var prev := Collected(targets, sink, reports[..n]);
      var add := if targets[n] == Some(sink) then Merged(reports[n]) else map[];
      var m := Collected(targets, sink, reports);
      CollectedEmpty(targets, sink, reports[..n]);
      assert forall j :: 0 <= j < n ==> reports[..n][j] == reports[j];
      assert m == map[] <==> prev == map[] && add == map[] by {
        if prev != map[] {
          var k :| k in prev;
          assert k in m;
        } else if add != map[] {
          var k :| k in add;
          assert k in m;
        }
      }
    }
  }

  /** A results map collects something exactly when some field merging
      into it had a truthy outcome with an own property. */
  lemma CollectedSomething(targets: seq<Option<JsObject>>, sink: JsObject, reports: seq<seq<Value>>)
    requires |reports| <= |targets|
    ensures Collected(targets, sink, reports) != map[] <==>
      exists j, k :: 0 <= j < |reports| && targets[j] == Some(sink) &&
        0 <= k < |reports[j]| && Truthy(reports[j][k]) && OwnProps(reports[j][k]) != map[]
  {
    CollectedEmpty(targets, sink, reports);
    forall j | 0 <= j < |reports| {
      MergedEmpty(reports[j]);
    }
  }

  /** One more field's outcomes reach the results map when it is that
      field's merge target. */
  lemma CollectedSnoc(targets: seq<Option<JsObject>>, sink: JsObject, reports: seq<seq<Value>>, o: seq<Value>)
    requires |reports| < |targets|
    ensures Collected(targets, sink, reports + [o]) ==
      Collected(targets, sink, reports) + (if targets[|reports|] == Some(sink) then Merged(o) else map[])
  {
    assert (reports + [o])[..|reports|] == reports;
  }

  /** One more field's report, accumulated on top of a base map. */
  lemma CollectStep(base: map<string, Value>, targets: seq<Option<JsObject>>, sink: JsObject, reports: seq<seq<Value>>,
                    o: seq<Value>, cur: map<string, Value>, next: map<string, Value>)
    requires |reports| < |targets|
    requires cur == base + Collected(targets, sink, reports)
    requires targets[|reports|] == Some(sink) ==> next == cur + Merged(o)
    requires targets[|reports|] != Some(sink) ==> next == cur
    ensures next == base + Collected(targets, sink, reports + [o])
  {
    CollectedSnoc(targets, sink, reports, o);
    if targets[|reports|] == Some(sink) {
      MergeTwice(base, Collected(targets, sink, reports), Merged(o));
    }
  }

  /** The `setState` callback: reject with the results when they hold any
      key, resolve otherwise. */
  function Settle(sink: JsObject): (s: Settlement)
    reads sink
    ensures s.Resolved? <==> sink.props == map[]
    ensures s.Rejected? <==> sink.props != map[]
    ensures !s.Failed? && s.sink == sink
  {
    if |sink.props| > 0 then Rejected(sink) else Resolved(sink)
  }
}
