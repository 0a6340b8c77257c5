/** The parts of prop assembly that both versions of `render` and
    `finalRender` share word for word: the status-class choice, the
    pass-through copy of non-reserved props, the `propsMap` renames and the
    decision to wrap. */
module Markup {
  import opened Js
  import Registry

  /** The four status indicators `render` looks at: `state.hasError ||
      props.hasError`, then `hasWarning`, `hasSuccess`, `hasFeedback`. */
  datatype StatusFlags = StatusFlags(error: bool, warning: bool, success: bool, feedback: bool)

  /** The configuration keys of the status classes, highest priority first. */
  const StatusKeys: seq<string> := ["errorCssClass", "warningCssClass", "successCssClass", "feedbackCssClass"]

  function FlagList(f: StatusFlags): seq<bool> {
    [f.error, f.warning, f.success, f.feedback]
  }

  /** The configuration key of the status class a field shows, chosen by the
      if/else-if chain of `render`. */
  function StatusKey(f: StatusFlags): Option<string> {
    if f.error then Some("errorCssClass")
    else if f.warning then Some("warningCssClass")
    else if f.success then Some("successCssClass")
    else if f.feedback then Some("feedbackCssClass")
    else None
  }

  /** The chain picks the class of the first raised flag in priority order,
      and nothing exactly when no flag is raised. */
  lemma StatusKeyIsFirstRaised(f: StatusFlags)
    ensures StatusKey(f).None? <==> forall i :: 0 <= i < 4 ==> !FlagList(f)[i]
    ensures forall i :: 0 <= i < 4 && FlagList(f)[i] && (forall j :: 0 <= j < i ==> !FlagList(f)[j]) ==>
      StatusKey(f) == Some(StatusKeys[i])
    ensures StatusKey(f).Some? ==> exists i :: 0 <= i < 4 && FlagList(f)[i] && StatusKey(f) == Some(StatusKeys[i])
  {
    var fl := FlagList(f);
    if f.error { assert fl[0]; }
    else if f.warning { assert fl[1]; }
    else if f.success { assert fl[2]; }
    else if f.feedback { assert fl[3]; }
  }

  /** `stateProps.className`: the base class, plus one space and the chosen
      status class when a flag is raised. A missing configuration entry is
      converted as the string "undefined", as `' ' + undefined` does. */
  function StatusClassName(base: Value, f: StatusFlags, config: map<string, Value>): (r: Value)
    ensures StatusKey(f).None? ==> r == base
    ensures StatusKey(f).Some? ==> r.Str? && |r.s| > |ToStr(base)| && r.s[..|ToStr(base)|] == ToStr(base)
    ensures StatusKey(f).Some? ==> r == Str(ToStr(base) + " " + ToStr(Get(Obj(config), StatusKey(f).value)))
  {
    match StatusKey(f)
    case None => base
    case Some(k) => Str(ToStr(base) + " " + ToStr(Get(Obj(config), k)))
  }

  /** With the shipped configuration, a warning adds the class "undefined":
      the entry is stored as `wraningCssClass` but read as `warningCssClass`. */
  lemma WarningClassUnderDefaultConfig(base: string)
    ensures StatusClassName(Str(base), StatusFlags(false, true, false, false), Registry.DefaultConfig())
      == Str(base + " undefined")
    ensures StatusClassName(Str(base), StatusFlags(false, true, true, true), Registry.DefaultConfig())
      == Str(base + " undefined")
  {
    assert Get(Obj(Registry.DefaultConfig()), "warningCssClass") == Undefined;
  }

  /** The result of copying every prop whose key is not reserved onto the
      element props. */
  function PassedThrough(elem: map<string, Value>, props: map<string, Value>, reserved: set<string>): (r: map<string, Value>)
    ensures forall k :: k in reserved ==> (k in r <==> k in elem) && (k in elem ==> r[k] == elem[k])
    ensures forall k :: k in props && k !in reserved ==> k in r && r[k] == props[k]
    ensures forall k :: k in elem && k !in props ==> k in r && r[k] == elem[k]
    ensures forall k :: k in r ==> k in elem || k in props
  {
    elem + map k | k in props && k !in reserved :: props[k]
  }

  /** `Object.keys(this.props).forEach(k => { if (!reserved(k)) props[k] = this.props[k] })` */
  method PassThrough(elem: map<string, Value>, props: map<string, Value>, reserved: set<string>)
    returns (r: map<string, Value>)
    ensures r == PassedThrough(elem, props, reserved)
  {
    r := elem;
    var todo := props.Keys;
    while todo != {}
      invariant todo <= props.Keys
      invariant r == elem + map k | k in props && k !in todo && k !in reserved :: props[k]
      decreases todo
    {
      var k :| k in todo;
      ghost var before := map j | j in props && j !in todo && j !in reserved :: props[j];
      if k !in reserved {
        r := r[k := props[k]];
        assert before[k := props[k]] == map j | j in props && j !in todo - {k} && j !in reserved :: props[j];
      } else {
        assert before == map j | j in props && j !in todo - {k} && j !in reserved :: props[j];
      }
      todo := todo - {k};
    }
    assert (map k | k in props && k !in todo && k !in reserved :: props[k])
        == map k | k in props && k !in reserved :: props[k];
  }

  /** One entry `{from, to}` of a recipe's `propsMap`. */
  datatype Rename = Rename(from: string, to: string)

  /** The renames of a `propsMap` value; entries are read as `p.from` and
      `p.to` and used as property keys. */
  function RenamesOf(propsMap: Value): (rs: seq<Rename>)
    ensures propsMap.List? ==> |rs| == |propsMap.items|
    ensures !propsMap.List? ==> rs == []
  {
    if propsMap.List? then
      seq(|propsMap.items|, i requires 0 <= i < |propsMap.items| =>
        Rename(ToStr(Get(propsMap.items[i], "from")), ToStr(Get(propsMap.items[i], "to"))))
    else []
  }

  /** The props after `props[p.to] = props[p.from]` for each rename in
      order; each step reads the props as the earlier steps left them. */
  function Renamed(elem: map<string, Value>, rs: seq<Rename>): map<string, Value>
    decreases |rs|
  {
    if rs == [] then elem
    else
      var prev := Renamed(elem, rs[..|rs| - 1]);
      var last := rs[|rs| - 1];
      prev[last.to := Get(Obj(prev), last.from)]
  }

  /** The `propsMap.forEach` loop of `finalRender`. */
  method ApplyRenames(elem: map<string, Value>, rs: seq<Rename>) returns (r: map<string, Value>)
    ensures r == Renamed(elem, rs)
  {
    r := elem;
    var i := 0;
    while i < |rs|
      invariant 0 <= i <= |rs|
      invariant r == Renamed(elem, rs[..i])
    {
      assert rs[..i + 1][..i] == rs[..i];
      r := r[rs[i].to := Get(Obj(r), rs[i].from)];
      i := i + 1;
    }
    assert rs[..|rs|] == rs;
  }

  /** A key that no rename targets keeps its presence and its value. */
  lemma {:induction false} RenamedKeepsUntargeted(elem: map<string, Value>, rs: seq<Rename>, k: string)
    requires forall i :: 0 <= i < |rs| ==> rs[i].to != k
    ensures k in Renamed(elem, rs) <==> k in elem
    ensures k in elem ==> Renamed(elem, rs)[k] == elem[k]
    decreases |rs|
  {
    if rs != [] {
      RenamedKeepsUntargeted(elem, rs[..|rs| - 1], k);
    }
  }

  /** When no rename's target is another rename's source and targets are
      distinct, every target ends up holding the original value of its
      source (`undefined` when the source was absent). */
  lemma {:induction false} RenamedCopiesSources(elem: map<string, Value>, rs: seq<Rename>)
    requires forall i, j :: 0 <= i < |rs| && 0 <= j < |rs| ==> rs[i].to != rs[j].from
    requires forall i, j :: 0 <= i < j < |rs| ==> rs[i].to != rs[j].to
    ensures forall i :: 0 <= i < |rs| ==>
      rs[i].to in Renamed(elem, rs) && Renamed(elem, rs)[rs[i].to] == Get(Obj(elem), rs[i].from)
    decreases |rs|
  {
    if rs != [] {
      var init := rs[..|rs| - 1];
      var last := rs[|rs| - 1];
      RenamedCopiesSources(elem, init);
      RenamedKeepsUntargeted(elem, init, last.from);
      forall i | 0 <= i < |rs|
        ensures rs[i].to in Renamed(elem, rs) && Renamed(elem, rs)[rs[i].to] == Get(Obj(elem), rs[i].from)
      {
        if i < |rs| - 1 {
          assert init[i] == rs[i];
        }
      }
    }
  }

  /** `useWraper`: the configuration allows wrappers, the recipe names one,
      and the field does not ask for `noWrap`. */
  function UseWrapper(config: map<string, Value>, recipe: map<string, Value>, props: map<string, Value>): (r: bool)
    ensures r ==> Truthy(Get(Obj(recipe), "wrapper"))
    ensures Truthy(Get(Obj(props), "noWrap")) ==> !r
    ensures r <==> Truthy(Get(Obj(config), "useWrapper")) && Truthy(Get(Obj(recipe), "wrapper"))
                   && !Truthy(Get(Obj(props), "noWrap"))
  {
    Truthy(Get(Obj(config), "useWrapper")) && Truthy(Get(Obj(recipe), "wrapper")) && !Truthy(Get(Obj(props), "noWrap"))
  }

  /** What a field renders: nothing (the hide prop is exactly `true`), or the
      element's props and, when wrapped, the wrapper's props. */
  datatype Rendered = Hidden | Element(props: map<string, Value>, wrapper: Option<map<string, Value>>)
}
