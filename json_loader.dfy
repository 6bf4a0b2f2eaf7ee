/** JsonLoader.py: fills a loader from a parsed JSON description. The root
    must be an object naming the launcher type; the optional `config`,
    `env` and `addons` sections follow, in that order, and each step
    changes the loader before the next one can fail, so a failure leaves
    the earlier steps in place. The parsing functions state the effect of
    each step on the loader's state as a value; the methods below them
    perform the steps on a `Loader` and its modifiers and are proved
    against them. */
module JsonLoader {
  import opened Common
  import opened EnvTables
  import opened EnvModifier
  import Loader

  const RootError := UnexpecteJsonContentError("Expecting object as root!")
  const LauncherTypeError := UnexpecteJsonContentError("Expecting luncher type!")
  const ConfigError := UnexpecteJsonContentError("Expecting an object for the config!")
  const AddonsError := UnexpecteJsonContentError("Expecting an object for the addons!")
  const AddonError := UnexpecteJsonContentError("Expecting an object for the addon!")
  const EnvError := UnexpecteJsonContentError("Expecting an object for the env!")
  const AppendError := UnexpecteJsonContentError("Expecting an object to describe the append vars!")
  const OverrideError := UnexpecteJsonContentError("Expecting an object to describe the override vars!")
  const UnsetError := UnexpecteJsonContentError("Expecting an array to describe the unset vars!")
  /** The prepend section's own type check tests the env object instead of
      the section, so a section that is not an object fails only when its
      members are asked for. */
  const PrependItemsError := RuntimeTypeError("the prepend section has no items")
  /** A list or object cannot go into the set of unset names. */
  const UnhashableError := RuntimeTypeError("unhashable unset entry")
  const TypeAssertion := AssertionFailure("Invalid type!")

  // ---------------------------------------------------------------------
  // The env sections, as values
  // ---------------------------------------------------------------------

  /** The tables after a parse step, and whether the step completed. */
  datatype EnvParse = EnvParse(tables: Tables, outcome: Outcome)

  /** `addPrependVar` for each member, in document order. */
  function PrependAll(t: Tables, ms: seq<(string, Json)>): (r: Tables)
    ensures EnvTables.Valid(t) ==> EnvTables.Valid(r)
    ensures r.(prependNames := t.prependNames, prepend := t.prepend) == t
    ensures forall n :: n in r.prepend <==> n in t.prepend || HasKey(ms, n)
    decreases |ms|
  {
    if ms == [] then t
    else
      HasKeyFirstOrRest(ms);
      PrependAll(AddPrepend(t, ms[0].0, ms[0].1), ms[1..])
  }

  /** `addAppendVar` for each member, in document order. */
  function AppendAll(t: Tables, ms: seq<(string, Json)>): (r: Tables)
    ensures EnvTables.Valid(t) ==> EnvTables.Valid(r)
    ensures r.(appendNames := t.appendNames, append := t.append) == t
    ensures forall n :: n in r.append <==> n in t.append || HasKey(ms, n)
    decreases |ms|
  {
    if ms == [] then t
    else
      HasKeyFirstOrRest(ms);
      AppendAll(AddAppend(t, ms[0].0, ms[0].1), ms[1..])
  }

  /** `setOverrideVar` for each member, in document order. */
  function OverrideAll(t: Tables, ms: seq<(string, Json)>): (r: Tables)
    ensures EnvTables.Valid(t) ==> EnvTables.Valid(r)
    ensures r.(overrideNames := t.overrideNames, overrides := t.overrides) == t
    ensures forall n :: n in r.overrides <==> n in t.overrides || HasKey(ms, n)
    decreases |ms|
  {
    if ms == [] then t
    else
      HasKeyFirstOrRest(ms);
      OverrideAll(SetOverride(t, ms[0].0, ms[0].1), ms[1..])
  }

  /** A name is a member of an object exactly when it is the first
      member's name or a member of the rest. */
  lemma HasKeyFirstOrRest(ms: seq<(string, Json)>)
    requires ms != []
    ensures forall n :: HasKey(ms, n) <==> n == ms[0].0 || HasKey(ms[1..], n)
  {
    forall n ensures HasKey(ms, n) <==> n == ms[0].0 || HasKey(ms[1..], n) {
      if HasKey(ms[1..], n) {
        var i :| 0 <= i < |ms[1..]| && ms[1..][i].0 == n;
        assert ms[i + 1].0 == n;
      }
      if HasKey(ms, n) && n != ms[0].0 {
        var i :| 0 <= i < |ms| && ms[i].0 == n;
        assert ms[1..][i - 1].0 == n;
      }
    }
  }

  /** `addUnsetVar` for each element: a text is added, a list or object
      stops the step, any other value is one no variable name can equal and
      is passed over. */
  function UnsetAll(t: Tables, items: seq<Json>): (r: EnvParse)
    ensures r.tables.(unset := t.unset) == t && t.unset <= r.tables.unset
    ensures r.outcome.Fail? <==> exists i :: 0 <= i < |items| && (items[i].JArr? || items[i].JObj?)
    ensures r.outcome.Fail? ==> r.outcome.error == UnhashableError
    ensures r.outcome.Pass? ==>
      forall n :: n in r.tables.unset <==> n in t.unset || JStr(n) in items
    decreases |items|
  {
    if items == [] then EnvParse(t, Pass)
    else
      assert forall i :: 0 < i < |items| ==> items[i] == items[1..][i - 1];
      match items[0]
      case JArr(_) => EnvParse(t, Fail(UnhashableError))
      case JObj(_) => EnvParse(t, Fail(UnhashableError))
      case JStr(s) =>
        assert forall n :: JStr(n) in items <==> n == s || JStr(n) in items[1..];
        UnsetAll(AddUnset(t, s), items[1..])
      case _ =>
        assert forall n :: JStr(n) in items <==> JStr(n) in items[1..];
        UnsetAll(t, items[1..])
  }

  /** The `prepend` section. */
  function ParsePrepend(t: Tables, ms: seq<(string, Json)>): (r: EnvParse)
    ensures EnvTables.Valid(t) ==> EnvTables.Valid(r.tables)
    ensures !HasKey(ms, "prepend") ==> r == EnvParse(t, Pass)
    ensures var v := Get(ms, "prepend");
      v.Some? && v.value.JObj? ==> r == EnvParse(PrependAll(t, v.value.members), Pass)
    ensures var v := Get(ms, "prepend");
      v.Some? && !v.value.JObj? ==> r == EnvParse(t, Fail(PrependItemsError))
  {
    match Get(ms, "prepend")
    case None => EnvParse(t, Pass)
    case Some(v) =>
      if v.JObj? then EnvParse(PrependAll(t, v.members), Pass) else EnvParse(t, Fail(PrependItemsError))
  }

  /** The `append` section. */
  function ParseAppend(t: Tables, ms: seq<(string, Json)>): (r: EnvParse)
    ensures EnvTables.Valid(t) ==> EnvTables.Valid(r.tables)
    ensures !HasKey(ms, "append") ==> r == EnvParse(t, Pass)
    ensures var v := Get(ms, "append");
      v.Some? && v.value.JObj? ==> r == EnvParse(AppendAll(t, v.value.members), Pass)
    ensures var v := Get(ms, "append");
      v.Some? && !v.value.JObj? ==> r == EnvParse(t, Fail(AppendError))
  {
    match Get(ms, "append")
    case None => EnvParse(t, Pass)
    case Some(v) =>
      if v.JObj? then EnvParse(AppendAll(t, v.members), Pass) else EnvParse(t, Fail(AppendError))
  }

  /** The `override` section. */
  function ParseOverride(t: Tables, ms: seq<(string, Json)>): (r: EnvParse)
    ensures EnvTables.Valid(t) ==> EnvTables.Valid(r.tables)
    ensures !HasKey(ms, "override") ==> r == EnvParse(t, Pass)
    ensures var v := Get(ms, "override");
      v.Some? && v.value.JObj? ==> r == EnvParse(OverrideAll(t, v.value.members), Pass)
    ensures var v := Get(ms, "override");
      v.Some? && !v.value.JObj? ==> r == EnvParse(t, Fail(OverrideError))
  {
    match Get(ms, "override")
    case None => EnvParse(t, Pass)
    case Some(v) =>
      if v.JObj? then EnvParse(OverrideAll(t, v.members), Pass) else EnvParse(t, Fail(OverrideError))
  }

  /** The `unset` section. */
  function ParseUnset(t: Tables, ms: seq<(string, Json)>): (r: EnvParse)
    ensures EnvTables.Valid(t) ==> EnvTables.Valid(r.tables)
    ensures !HasKey(ms, "unset") ==> r == EnvParse(t, Pass)
    ensures var v := Get(ms, "unset");
      v.Some? && v.value.JArr? ==> r == UnsetAll(t, v.value.items)
    ensures var v := Get(ms, "unset");
      v.Some? && !v.value.JArr? ==> r == EnvParse(t, Fail(UnsetError))
  {
    match Get(ms, "unset")
    case None => EnvParse(t, Pass)
    case Some(v) =>
      if v.JArr? then UnsetAll(t, v.items) else EnvParse(t, Fail(UnsetError))
  }

  /** `__parseEnv`: the env value must be an object; its sections are read
      in the order prepend, append, override, unset, and the first failing
      section stops the parse with the earlier sections applied. */
  function ParseEnv(t: Tables, data: Json): (r: EnvParse)
    ensures EnvTables.Valid(t) ==> EnvTables.Valid(r.tables)
    ensures !data.JObj? ==> r == EnvParse(t, Fail(EnvError))
    ensures data.JObj? ==>
      (!HasKey(data.members, "prepend") && !HasKey(data.members, "append") &&
       !HasKey(data.members, "override") && !HasKey(data.members, "unset")) ==> r == EnvParse(t, Pass)
    ensures data.JObj? ==>
      var p := ParsePrepend(t, data.members);
      var a := ParseAppend(p.tables, data.members);
      var o := ParseOverride(a.tables, data.members);
      var u := ParseUnset(o.tables, data.members);
      && (r.outcome.Pass? <==> p.outcome.Pass? && a.outcome.Pass? && o.outcome.Pass? && u.outcome.Pass?)
      && (p.outcome.Fail? ==> r == EnvParse(t, p.outcome))
      && (p.outcome.Pass? && a.outcome.Fail? ==> r == EnvParse(p.tables, a.outcome))
      && (p.outcome.Pass? && a.outcome.Pass? && o.outcome.Fail? ==> r == EnvParse(a.tables, o.outcome))
      && (p.outcome.Pass? && a.outcome.Pass? && o.outcome.Pass? ==> r == u)
  {
    if !data.JObj? then EnvParse(t, Fail(EnvError))
    else
      var ms := data.members;
      var p := ParsePrepend(t, ms);
      if p.outcome.Fail? then p
      else
        var a := ParseAppend(p.tables, ms);
        if a.outcome.Fail? then a
        else
          var o := ParseOverride(a.tables, ms);
          if o.outcome.Fail? then o
          else ParseUnset(o.tables, ms)
  }

  /** With distinct member names, a prepend section puts each member's
      contribution in front of what was stored, and leaves other names
      alone. */
  lemma {:induction false} PrependAllEntries(t: Tables, ms: seq<(string, Json)>, n: string)
    requires UniqueKeys(ms)
    ensures Entries(PrependAll(t, ms).prepend, n) ==
      match Get(ms, n)
      case None => Entries(t.prepend, n)
      case Some(v) => Contribution(v) + Entries(t.prepend, n)
    decreases |ms|
  {
    if ms != [] {
      var t' := AddPrepend(t, ms[0].0, ms[0].1);
      assert UniqueKeys(ms[1..]);
      PrependAllEntries(t', ms[1..], n);
      if ms[0].0 == n {
        assert !HasKey(ms[1..], n);
      }
    }
  }

  /** With distinct member names, an append section puts each member's
      contribution after what was stored. */
  lemma {:induction false} AppendAllEntries(t: Tables, ms: seq<(string, Json)>, n: string)
    requires UniqueKeys(ms)
    ensures Entries(AppendAll(t, ms).append, n) ==
      match Get(ms, n)
      case None => Entries(t.append, n)
      case Some(v) => Entries(t.append, n) + Contribution(v)
    decreases |ms|
  {
    if ms != [] {
      var t' := AddAppend(t, ms[0].0, ms[0].1);
      assert UniqueKeys(ms[1..]);
      AppendAllEntries(t', ms[1..], n);
      if ms[0].0 == n {
        assert !HasKey(ms[1..], n);
      }
    }
  }

  /** An override section sets each member's value, replacing what was
      stored; other names keep theirs. */
  lemma {:induction false} OverrideAllValues(t: Tables, ms: seq<(string, Json)>, n: string)
    requires UniqueKeys(ms)
    ensures HasKey(ms, n) ==> n in OverrideAll(t, ms).overrides && OverrideAll(t, ms).overrides[n] == Get(ms, n).value
    ensures !HasKey(ms, n) ==> (n in OverrideAll(t, ms).overrides <==> n in t.overrides)
    ensures !HasKey(ms, n) && n in t.overrides ==> OverrideAll(t, ms).overrides[n] == t.overrides[n]
    decreases |ms|
  {
    if ms != [] {
      var t' := SetOverride(t, ms[0].0, ms[0].1);
      assert UniqueKeys(ms[1..]);
      OverrideAllValues(t', ms[1..], n);
      if ms[0].0 == n {
        assert !HasKey(ms[1..], n);
      }
    }
  }

  /** The prepend section's type check never fires: a prepend section that
      is not an object fails with a runtime type error, where the other
      sections fail with the loader's own content error. */
  lemma PrependSectionQuirk(t: Tables, v: Json)
    requires !v.JObj?
    ensures ParseEnv(t, JObj([("prepend", v)])) == EnvParse(t, Fail(PrependItemsError))
    ensures ParseEnv(t, JObj([("append", v)])) == EnvParse(t, Fail(AppendError))
    ensures ParseEnv(t, JObj([("override", v)])) == EnvParse(t, Fail(OverrideError))
  {
    assert !HasKey([("prepend", v)], "append");
    assert !HasKey([("append", v)], "prepend");
    assert !HasKey([("override", v)], "prepend");
    assert !HasKey([("override", v)], "append");
  }

  /** A failing later section keeps what the earlier sections stored: a
      prepend section followed by an unset section that is not a list
      leaves the prepended values in place. */
  lemma EarlierSectionsKept(t: Tables, p: seq<(string, Json)>, u: Json)
    requires !u.JArr?
    ensures var r := ParseEnv(t, JObj([("prepend", JObj(p)), ("unset", u)]));
      r == EnvParse(PrependAll(t, p), Fail(UnsetError))
  {
    var ms := [("prepend", JObj(p)), ("unset", u)];
    assert Get(ms, "prepend") == Some(JObj(p));
    assert Get(ms, "unset") == Some(u) by {
      assert ms[1..] == [("unset", u)];
    }
    assert !HasKey(ms, "append");
    assert !HasKey(ms, "override");
  }

  // ---------------------------------------------------------------------
  // The loader's state, as a value
  // ---------------------------------------------------------------------

  /** The loader's state after a step, and whether the step completed. */
  datatype Loaded = Loaded(state: Loader.LoaderState, outcome: Outcome)

  ghost predicate StateValid(s: Loader.LoaderState)
  {
    EnvTables.Valid(s.software) && forall n :: n in s.addons ==> EnvTables.Valid(s.addons[n])
  }

  /** `setLauncherConfig` for each member, in document order. */
  function ConfigAll(config: map<string, Json>, ms: seq<(string, Json)>): (r: map<string, Json>)
    ensures forall n :: n in r <==> n in config || HasKey(ms, n)
    decreases |ms|
  {
    if ms == [] then config
    else
      HasKeyFirstOrRest(ms);
      ConfigAll(config[ms[0].0 := ms[0].1], ms[1..])
  }

  /** With distinct member names, the configuration holds each member's
      value, replacing any value set before, and keeps the other names. */
  lemma {:induction false} ConfigAllValues(config: map<string, Json>, ms: seq<(string, Json)>, n: string)
    requires UniqueKeys(ms)
    ensures HasKey(ms, n) ==> ConfigAll(config, ms)[n] == Get(ms, n).value
    ensures !HasKey(ms, n) && n in config ==> ConfigAll(config, ms)[n] == config[n]
    decreases |ms|
  {
    if ms != [] {
      assert UniqueKeys(ms[1..]);
      ConfigAllValues(config[ms[0].0 := ms[0].1], ms[1..], n);
      if ms[0].0 == n {
        assert !HasKey(ms[1..], n);
      }
    }
  }

  /** `__parseConfigContents`. */
  function ParseConfig(s: Loader.LoaderState, ms: seq<(string, Json)>): (r: Loaded)
    ensures r.state.(config := s.config) == s
    ensures !HasKey(ms, "config") ==> r == Loaded(s, Pass)
    ensures var c := Get(ms, "config");
      c.Some? && !c.value.JObj? ==> r == Loaded(s, Fail(ConfigError))
    ensures var c := Get(ms, "config");
      c.Some? && c.value.JObj? ==> r == Loaded(s.(config := ConfigAll(s.config, c.value.members)), Pass)
  {
    match Get(ms, "config")
    case None => Loaded(s, Pass)
    case Some(c) =>
      if c.JObj? then Loaded(s.(config := ConfigAll(s.config, c.members)), Pass) else Loaded(s, Fail(ConfigError))
  }

  /** `__parseEnvContents`: the env section goes into the software
      modifier. */
  function ParseSoftwareEnv(s: Loader.LoaderState, ms: seq<(string, Json)>): (r: Loaded)
    ensures r.state.(software := s.software) == s
    ensures EnvTables.Valid(s.software) ==> EnvTables.Valid(r.state.software)
    ensures !HasKey(ms, "env") ==> r == Loaded(s, Pass)
    ensures var e := Get(ms, "env");
      e.Some? ==> r == Loaded(s.(software := ParseEnv(s.software, e.value).tables), ParseEnv(s.software, e.value).outcome)
  {
    match Get(ms, "env")
    case None => Loaded(s, Pass)
    case Some(e) =>
      var p := ParseEnv(s.software, e);
      Loaded(s.(software := p.tables), p.outcome)
  }

  /** Whether one addon of the addon loop goes through: an object whose
      env, if it has one, parses in full. */
  predicate AddonPasses(addon: Json)
  {
    addon.JObj? && (HasKey(addon.members, "env") ==> ParseEnv(Empty, Get(addon.members, "env").value).outcome.Pass?)
  }

  /** One addon of the addon loop: it must be an object; one with an env
      gets a new modifier, which is registered only once its env has been
      parsed in full. */
  function AddonStep(s: Loader.LoaderState, name: string, addon: Json): (r: Loaded)
    ensures r.state.(addons := s.addons) == s
    ensures StateValid(s) ==> StateValid(r.state)
    ensures r.state.addons == s.addons || (r.outcome.Pass? && r.state.addons.Keys == s.addons.Keys + {name})
    ensures r.outcome.Pass? <==> AddonPasses(addon)
    ensures !addon.JObj? ==> r == Loaded(s, Fail(AddonError))
    ensures addon.JObj? && !HasKey(addon.members, "env") ==> r == Loaded(s, Pass)
    ensures addon.JObj? && HasKey(addon.members, "env") ==>
      var p := ParseEnv(Empty, Get(addon.members, "env").value);
      && (p.outcome.Pass? ==> r == Loaded(s.(addons := s.addons[name := p.tables]), Pass))
      && (p.outcome.Fail? ==> r == Loaded(s, p.outcome))
  {
    if !addon.JObj? then Loaded(s, Fail(AddonError))
    else
      match Get(addon.members, "env")
      case None => Loaded(s, Pass)
      case Some(e) =>
        var p := ParseEnv(Empty, e);
        if p.outcome.Fail? then Loaded(s, p.outcome)
        else Loaded(s.(addons := s.addons[name := p.tables]), Pass)
  }

  /** The addon loop, in document order, stopping at the first failing
      addon with the earlier ones registered. */
  function AddonsAll(s: Loader.LoaderState, ms: seq<(string, Json)>): (r: Loaded)
    ensures r.state.(addons := s.addons) == s
    ensures StateValid(s) ==> StateValid(r.state)
    ensures forall n :: n in r.state.addons ==> n in s.addons || HasKey(ms, n)
    ensures r.outcome.Pass? <==> forall i :: 0 <= i < |ms| ==> AddonPasses(ms[i].1)
    decreases |ms|
  {
    if ms == [] then Loaded(s, Pass)
    else
      assert forall i :: 0 < i < |ms| ==> ms[i] == ms[1..][i - 1];
      assert forall n :: HasKey(ms[1..], n) ==> HasKey(ms, n) by {
        forall n | HasKey(ms[1..], n) ensures HasKey(ms, n) {
          var i :| 0 <= i < |ms[1..]| && ms[1..][i].0 == n;
          assert ms[i + 1].0 == n;
        }
      }
      assert HasKey(ms, ms[0].0);
      var step := AddonStep(s, ms[0].0, ms[0].1);
      if step.outcome.Fail? then step else AddonsAll(step.state, ms[1..])
  }

  /** `__parseAddonContents`. */
  function ParseAddons(s: Loader.LoaderState, ms: seq<(string, Json)>): (r: Loaded)
    ensures r.state.(addons := s.addons) == s
    ensures StateValid(s) ==> StateValid(r.state)
    ensures !HasKey(ms, "addons") ==> r == Loaded(s, Pass)
    ensures var a := Get(ms, "addons");
      a.Some? && !a.value.JObj? ==> r == Loaded(s, Fail(AddonsError))
    ensures var a := Get(ms, "addons");
      a.Some? && a.value.JObj? ==> r == AddonsAll(s, a.value.members)
  {
    match Get(ms, "addons")
    case None => Loaded(s, Pass)
    case Some(a) =>
      if a.JObj? then AddonsAll(s, a.members) else Loaded(s, Fail(AddonsError))
  }

  /** `loadFromJson` on parsed contents: the root must be an object with a
      textual launcher type; then the config, env and addons sections are
      read in that order, the first failure stopping the load with the
      earlier steps applied. */
  function Load(s: Loader.LoaderState, contents: Json): (r: Loaded)
    ensures StateValid(s) ==> StateValid(r.state)
    ensures !contents.JObj? ==> r == Loaded(s, Fail(RootError))
    ensures contents.JObj? && !HasKey(contents.members, "launcherType") ==> r == Loaded(s, Fail(LauncherTypeError))
    ensures contents.JObj? && HasKey(contents.members, "launcherType") ==>
      !Get(contents.members, "launcherType").value.JStr? ==> r == Loaded(s, Fail(TypeAssertion))
    ensures r.state != s ==>
      && contents.JObj? && HasKey(contents.members, "launcherType")
      && Get(contents.members, "launcherType").value.JStr?
      && r.state.launcherType == Some(Get(contents.members, "launcherType").value.s)
    ensures contents.JObj? && HasKey(contents.members, "launcherType") ==>
      var t := Get(contents.members, "launcherType").value;
      t.JStr? ==> r == LoadSections(s.(launcherType := Some(t.s)), contents.members)
  {
    if !contents.JObj? then Loaded(s, Fail(RootError))
    else
      var ms := contents.members;
      match Get(ms, "launcherType")
      case None => Loaded(s, Fail(LauncherTypeError))
      case Some(t) =>
        if !t.JStr? then Loaded(s, Fail(TypeAssertion))
        else
          LoadSections(s.(launcherType := Some(t.s)), ms)
  }

  /** The sections after the launcher type: config, env, addons, the first
      failure stopping the load with the earlier sections applied. */
  function LoadSections(s: Loader.LoaderState, ms: seq<(string, Json)>): (r: Loaded)
    ensures StateValid(s) ==> StateValid(r.state)
    ensures r.state.launcherType == s.launcherType
    ensures var c := ParseConfig(s, ms);
      var e := ParseSoftwareEnv(c.state, ms);
      var a := ParseAddons(e.state, ms);
      && (r.outcome.Pass? <==> c.outcome.Pass? && e.outcome.Pass? && a.outcome.Pass?)
      && (c.outcome.Fail? ==> r == Loaded(s, c.outcome))
      && (c.outcome.Pass? && e.outcome.Fail? ==> r == e && r.state.config == c.state.config)
      && (c.outcome.Pass? && e.outcome.Pass? ==> r == a && r.state.software == e.state.software)
  {
    var c := ParseConfig(s, ms);
    if c.outcome.Fail? then c
    else
      var e := ParseSoftwareEnv(c.state, ms);
      if e.outcome.Fail? then e
      else ParseAddons(e.state, ms)
  }

  /** A configuration value in the document replaces one set on the loader
      before, such as a preset `args`. */
  lemma ConfigReplacesPreset(s: Loader.LoaderState, t: string, cm: seq<(string, Json)>, v: Json)
    requires UniqueKeys(cm) && Get(cm, "args") == Some(v)
    ensures var r := Load(s, JObj([("launcherType", JStr(t)), ("config", JObj(cm))]));
      r.outcome == Pass && "args" in r.state.config && r.state.config["args"] == v && r.state.launcherType == Some(t)
  {
    var ms := [("launcherType", JStr(t)), ("config", JObj(cm))];
    assert Get(ms, "config") == Some(JObj(cm)) by {
      assert ms[1..] == [("config", JObj(cm))];
    }
    assert !HasKey(ms, "env");
    assert !HasKey(ms, "addons");
    ConfigAllValues(s.config, cm, "args");
    var c := ConfigAll(s.config, cm);
    assert "args" in c;
    assert Load(s, JObj(ms)) == Loaded(s.(launcherType := Some(t), config := c), Pass);
  }

  /** A failing env section leaves the launcher type and the configuration
      set, the env sections before the failing one applied, and no addon
      registered. */
  lemma FailureKeepsEarlierSteps(s: Loader.LoaderState, t: string, cm: seq<(string, Json)>, env: Json)
    requires ParseEnv(s.software, env).outcome.Fail?
    ensures var r := Load(s, JObj([("launcherType", JStr(t)), ("config", JObj(cm)), ("env", env)]));
      && r.outcome == ParseEnv(s.software, env).outcome
      && r.state.launcherType == Some(t)
      && r.state.config == ConfigAll(s.config, cm)
      && r.state.software == ParseEnv(s.software, env).tables
      && r.state.addons == s.addons
  {
    var ms := [("launcherType", JStr(t)), ("config", JObj(cm)), ("env", env)];
    assert Get(ms, "config") == Some(JObj(cm)) by {
      assert ms[1..][0] == ("config", JObj(cm));
    }
    assert Get(ms, "env") == Some(env) by {
      assert ms[1..][1..] == [("env", env)];
      assert Get(ms[1..][1..], "env") == Some(env);
      assert Get(ms[1..], "env") == Some(env);
    }
  }

  /** An addon whose env fails to parse is not registered, and the load
      stops there; an addon before it keeps its registration. */
  lemma FailingAddonNotRegistered(s: Loader.LoaderState, good: Json, bad: Json)
    requires ParseEnv(Empty, good).outcome.Pass? && ParseEnv(Empty, bad).outcome.Fail?
    ensures var r := AddonsAll(s, [("a", JObj([("env", good)])), ("b", JObj([("env", bad)]))]);
      && r.outcome == ParseEnv(Empty, bad).outcome
      && r.state.addons == s.addons["a" := ParseEnv(Empty, good).tables]
  {
    var ms := [("a", JObj([("env", good)])), ("b", JObj([("env", bad)]))];
    assert ms[1..] == [("b", JObj([("env", bad)]))];
  }

  /** The addon loop stops at the first addon that does not go through,
      with its outcome, and the addons before it registered. */
  lemma {:induction false} AddonsAllStops(s: Loader.LoaderState, ms: seq<(string, Json)>, i: nat)
    requires i < |ms| && !AddonPasses(ms[i].1)
    requires forall j :: 0 <= j < i ==> AddonPasses(ms[j].1)
    ensures var before := AddonsAll(s, ms[..i]);
      && before.outcome.Pass?
      && AddonsAll(s, ms) == Loaded(before.state, AddonStep(before.state, ms[i].0, ms[i].1).outcome)
    decreases i
  {
    assert ms[..i] == [] || ms[..i][1..] == ms[1..][..i - 1];
    if i == 0 {
      assert ms[..0] == [];
    } else {
      var step := AddonStep(s, ms[0].0, ms[0].1);
      assert AddonPasses(ms[0].1);
      assert ms[..i][0] == ms[0];
      assert ms[1..][i - 1] == ms[i];
      AddonsAllStops(step.state, ms[1..], i - 1);
    }
  }

  /** With distinct addon names, a loop that goes through registers every
      addon that has an env under its name, with the tables its env parses
      into on an empty modifier, and leaves every other name as it was. */
  lemma {:induction false} AddonsAllRegisters(s: Loader.LoaderState, ms: seq<(string, Json)>, n: string)
    requires UniqueKeys(ms) && AddonsAll(s, ms).outcome.Pass?
    ensures var a := Get(ms, n); var addons := AddonsAll(s, ms).state.addons;
      a.Some? && a.value.JObj? && HasKey(a.value.members, "env") ==>
        n in addons && addons[n] == ParseEnv(Empty, Get(a.value.members, "env").value).tables
    ensures var a := Get(ms, n); var addons := AddonsAll(s, ms).state.addons;
      (a.None? || (a.value.JObj? && !HasKey(a.value.members, "env"))) ==>
        (n in addons <==> n in s.addons) && (n in s.addons ==> addons[n] == s.addons[n])
    decreases |ms|
  {
    if ms != [] {
      var step := AddonStep(s, ms[0].0, ms[0].1);
      assert UniqueKeys(ms[1..]);
      assert ms[0].0 == n ==> !HasKey(ms[1..], n);
      AddonsAllRegisters(step.state, ms[1..], n);
    }
  }

  /** Addons without an env register nothing. */
  lemma {:induction false} AddonsWithoutEnv(s: Loader.LoaderState, ms: seq<(string, Json)>)
    requires forall i :: 0 <= i < |ms| ==> ms[i].1.JObj? && !HasKey(ms[i].1.members, "env")
    ensures AddonsAll(s, ms) == Loaded(s, Pass)
    decreases |ms|
  {
    if ms != [] {
      AddonsWithoutEnv(s, ms[1..]);
    }
  }

  // ---------------------------------------------------------------------
  // The loader's methods
  // ---------------------------------------------------------------------

  /** `__parsePrepend` into a modifier. */
  method ParsePrependInto(ms: seq<(string, Json)>, m: EnvModifier) returns (o: Outcome)
    requires m.Valid()
    modifies m
    ensures m.Valid()
    ensures var p := ParsePrepend(old(m.Model()), ms); m.Model() == p.tables && o == p.outcome
  {
    var section := Get(ms, "prepend");
    if section.None? {
      return Pass;
    }
    if !section.value.JObj? {
      return Fail(PrependItemsError);
    }
    var items := section.value.members;
    assert items[0..] == items;
    for i := 0 to |items|
      invariant m.Valid()
      invariant PrependAll(m.Model(), items[i..]) == PrependAll(old(m.Model()), items)
    {
      assert items[i..][0] == items[i] && items[i..][1..] == items[i + 1..];
      m.AddPrependVar(items[i].0, items[i].1);
    }
    return Pass;
  }

  /** `__parseAppend` into a modifier. */
  method ParseAppendInto(ms: seq<(string, Json)>, m: EnvModifier) returns (o: Outcome)
    requires m.Valid()
    modifies m
    ensures m.Valid()
    ensures var p := ParseAppend(old(m.Model()), ms); m.Model() == p.tables && o == p.outcome
  {
    var section := Get(ms, "append");
    if section.None? {
      return Pass;
    }
    if !section.value.JObj? {
      return Fail(AppendError);
    }
    var items := section.value.members;
    assert items[0..] == items;
    for i := 0 to |items|
      invariant m.Valid()
      invariant AppendAll(m.Model(), items[i..]) == AppendAll(old(m.Model()), items)
    {
      assert items[i..][0] == items[i] && items[i..][1..] == items[i + 1..];
      m.AddAppendVar(items[i].0, items[i].1);
    }
    return Pass;
  }

  /** `__parseOverride` into a modifier. */
  method ParseOverrideInto(ms: seq<(string, Json)>, m: EnvModifier) returns (o: Outcome)
    requires m.Valid()
    modifies m
    ensures m.Valid()
    ensures var p := ParseOverride(old(m.Model()), ms); m.Model() == p.tables && o == p.outcome
  {
    var section := Get(ms, "override");
    if section.None? {
      return Pass;
    }
    if !section.value.JObj? {
      return Fail(OverrideError);
    }
    var items := section.value.members;
    assert items[0..] == items;
    for i := 0 to |items|
      invariant m.Valid()
      invariant OverrideAll(m.Model(), items[i..]) == OverrideAll(old(m.Model()), items)
    {
      assert items[i..][0] == items[i] && items[i..][1..] == items[i + 1..];
      m.SetOverrideVar(items[i].0, items[i].1);
    }
    return Pass;
  }

  /** `__parseUnset` into a modifier. */
  method ParseUnsetInto(ms: seq<(string, Json)>, m: EnvModifier) returns (o: Outcome)
    requires m.Valid()
    modifies m
    ensures m.Valid()
    ensures var p := ParseUnset(old(m.Model()), ms); m.Model() == p.tables && o == p.outcome
  {
    var section := Get(ms, "unset");
    if section.None? {
      return Pass;
    }
    if !section.value.JArr? {
      return Fail(UnsetError);
    }
    var items := section.value.items;
    assert items[0..] == items;
    for i := 0 to |items|
      invariant m.Valid()
      invariant UnsetAll(m.Model(), items[i..]) == UnsetAll(old(m.Model()), items)
    {
      assert items[i..][0] == items[i] && items[i..][1..] == items[i + 1..];
      match items[i] {
        case JArr(_) =>
          return Fail(UnhashableError);
        case JObj(_) =>
          return Fail(UnhashableError);
        case JStr(name) =>
          m.AddUnsetVar(name);
        case _ =>
      }
    }
    return Pass;
  }

  /** `__parseEnv` into a modifier. */
  method ParseEnvInto(data: Json, m: EnvModifier) returns (o: Outcome)
    requires m.Valid()
    modifies m
    ensures m.Valid()
    ensures var p := ParseEnv(old(m.Model()), data); m.Model() == p.tables && o == p.outcome
  {
    if !data.JObj? {
      return Fail(EnvError);
    }
    o := ParsePrependInto(data.members, m);
    if o.Fail? {
      return;
    }
    o := ParseAppendInto(data.members, m);
    if o.Fail? {
      return;
    }
    o := ParseOverrideInto(data.members, m);
    if o.Fail? {
      return;
    }
    o := ParseUnsetInto(data.members, m);
  }

  /** `__parseConfigContents` on a loader. */
  method ParseConfigContents(loader: Loader.Loader, ms: seq<(string, Json)>) returns (o: Outcome)
    requires loader.Valid()
    modifies loader
    ensures loader.Valid()
    ensures var l := ParseConfig(old(loader.State()), ms); loader.State() == l.state && o == l.outcome
  {
    var section := Get(ms, "config");
    if section.None? {
      return Pass;
    }
    if !section.value.JObj? {
      return Fail(ConfigError);
    }
    var items := section.value.members;
    assert items[0..] == items;
    for i := 0 to |items|
      invariant loader.Valid()
      invariant loader.launcherType == old(loader.launcherType)
      invariant loader.addonsEnvModifier == old(loader.addonsEnvModifier)
      invariant ConfigAll(loader.launcherConfig, items[i..]) == ConfigAll(old(loader.launcherConfig), items)
    {
      assert items[i..][0] == items[i] && items[i..][1..] == items[i + 1..];
      loader.SetLauncherConfig(items[i].0, items[i].1);
    }
    return Pass;
  }

  /** `__parseEnvContents` on a loader. */
  method ParseEnvContents(loader: Loader.Loader, ms: seq<(string, Json)>) returns (o: Outcome)
    requires loader.Valid()
    modifies loader.softwareEnvModifier
    ensures loader.Valid()
    ensures var l := ParseSoftwareEnv(old(loader.State()), ms); loader.State() == l.state && o == l.outcome
  {
    var section := Get(ms, "env");
    if section.None? {
      return Pass;
    }
    o := ParseEnvInto(section.value, loader.softwareEnvModifier);
  }

  /** `__parseAddonContents` on a loader. */
  method ParseAddonContents(loader: Loader.Loader, ms: seq<(string, Json)>) returns (o: Outcome)
    requires loader.Valid()
    modifies loader
    ensures loader.Valid()
    ensures var l := ParseAddons(old(loader.State()), ms); loader.State() == l.state && o == l.outcome
  {
    var section := Get(ms, "addons");
    if section.None? {
      return Pass;
    }
    if !section.value.JObj? {
      return Fail(AddonsError);
    }
    var addons := section.value.members;
    assert addons[0..] == addons;
    for i := 0 to |addons|
      invariant loader.Valid()
      invariant AddonsAll(loader.State(), addons[i..]) == AddonsAll(old(loader.State()), addons)
    {
      assert addons[i..][0] == addons[i] && addons[i..][1..] == addons[i + 1..];
      o := ParseAddon(loader, addons[i].0, addons[i].1);
      if o.Fail? {
        return;
      }
    }
    return Pass;
  }

  /** One addon of `__parseAddonContents` on a loader. */
  method ParseAddon(loader: Loader.Loader, name: string, addon: Json) returns (o: Outcome)
    requires loader.Valid()
    modifies loader
    ensures loader.Valid()
    ensures var l := AddonStep(old(loader.State()), name, addon); loader.State() == l.state && o == l.outcome
    ensures loader.addonsEnvModifier == old(loader.addonsEnvModifier) ||
      (name in loader.addonsEnvModifier && fresh(loader.addonsEnvModifier[name])
       && loader.addonsEnvModifier[name].baseEnv == map[]
       && loader.addonsEnvModifier == old(loader.addonsEnvModifier)[name := loader.addonsEnvModifier[name]])
  {
    if !addon.JObj? {
      return Fail(AddonError);
    }
    var env := Get(addon.members, "env");
    if env.None? {
      return Pass;
    }
    var addonEnvModifier := new EnvModifier(map[]);
    o := ParseEnvInto(env.value, addonEnvModifier);
    if o.Fail? {
      return;
    }
    loader.SetAddonEnvModifier(name, addonEnvModifier);
  }

  /** `loadFromJson` on parsed contents. */
  method LoadFromJson(loader: Loader.Loader, contents: Json) returns (o: Outcome)
    requires loader.Valid()
    modifies loader, loader.softwareEnvModifier
    ensures loader.Valid()
    ensures var l := Load(old(loader.State()), contents); loader.State() == l.state && o == l.outcome
  {
    if !contents.JObj? {
      return Fail(RootError);
    }
    var ms := contents.members;
    var launcherType := Get(ms, "launcherType");
    if launcherType.None? {
      return Fail(LauncherTypeError);
    }
    o := loader.SetLauncherType(launcherType.value);
    if o.Fail? {
      return;
    }
    o := ParseSections(loader, ms);
  }

  /** The config, env and addons steps of `loadFromJson`. */
  method ParseSections(loader: Loader.Loader, ms: seq<(string, Json)>) returns (o: Outcome)
    requires loader.Valid()
    modifies loader, loader.softwareEnvModifier
    ensures loader.Valid()
    ensures var l := LoadSections(old(loader.State()), ms); loader.State() == l.state && o == l.outcome
  {
    o := ParseConfigContents(loader, ms);
    if o.Fail? {
      return;
    }
    o := ParseEnvContents(loader, ms);
    if o.Fail? {
      return;
    }
    o := ParseAddonContents(loader, ms);
  }
}
