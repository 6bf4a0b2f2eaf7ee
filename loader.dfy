/** Loader.py: the state a launcher description is loaded into (launcher
    type, launcher configuration, the software's environment modifier and
    one modifier per addon), and `launcher`, which folds the software layer
    and the enabled addon layers into one environment and builds the
    launcher. */
module Loader {
  import opened Common
  import opened ResourceResolver
  import opened EnvTables
  import opened EnvModifier
  import Launcher

  /** An addon counts when it has an `enabled` option whose value is true
      in Python's sense. */
  function Enabled(a: Addon): (b: bool)
    ensures b <==> ("enabled" in a.options &&
                    a.options["enabled"] !in {JNull, JBool(false), JNum(0), JStr(""), JArr([]), JObj([])})
  {
    "enabled" in a.options && Truthy(a.options["enabled"])
  }

  /** The addon loop of `launcher`: in the software's addon order, each
      enabled addon that has a modifier adds that modifier's tables. */
  function Layers(t: Tables, addons: seq<Addon>, mods: map<string, Tables>): (r: Tables)
    requires forall n :: n in mods ==> EnvTables.Valid(mods[n])
    ensures EnvTables.Valid(t) ==> EnvTables.Valid(r)
    decreases |addons|
  {
    if addons == [] then t
    else
      var a := addons[0];
      var t' := if Enabled(a) && a.name in mods then Merge(t, mods[a.name]) else t;
      Layers(t', addons[1..], mods)
  }

  /** The tables `launcher` generates from: the software layer, then the
      addon layers. */
  function FinalTables(software: Tables, addons: seq<Addon>, mods: map<string, Tables>): (r: Tables)
    requires EnvTables.Valid(software)
    requires forall n :: n in mods ==> EnvTables.Valid(mods[n])
    ensures EnvTables.Valid(r)
    ensures r == Layers(software, Counted(addons, mods), mods)
  {
    MergeIntoEmpty(software);
    LayersOfEnabledOnly(software, addons, mods);
    Layers(Merge(Empty, software), addons, mods)
  }

  /** An addon that is not enabled, or has no modifier, adds nothing. */
  lemma {:induction false} SkippedAddon(t: Tables, a: Addon, rest: seq<Addon>, mods: map<string, Tables>)
    requires forall n :: n in mods ==> EnvTables.Valid(mods[n])
    requires !Enabled(a) || a.name !in mods
    ensures Layers(t, [a] + rest, mods) == Layers(t, rest, mods)
  {
    assert ([a] + rest)[1..] == rest;
  }

  /** The layers are the software's followed by those of the enabled addons
      that have modifiers, in addon order: filtering the addons first gives
      the same tables. */
  lemma {:induction false} LayersOfEnabledOnly(t: Tables, addons: seq<Addon>, mods: map<string, Tables>)
    requires forall n :: n in mods ==> EnvTables.Valid(mods[n])
    ensures Layers(t, addons, mods) == Layers(t, Counted(addons, mods), mods)
    decreases |addons|
  {
    if addons != [] {
      var a := addons[0];
      if Enabled(a) && a.name in mods {
        LayersOfEnabledOnly(Merge(t, mods[a.name]), addons[1..], mods);
        var c := Counted(addons[1..], mods);
        assert Counted(addons, mods) == [a] + c;
        assert ([a] + c)[0] == a && ([a] + c)[1..] == c;
      } else {
        LayersOfEnabledOnly(t, addons[1..], mods);
      }
    }
  }

  /** The addons whose layer is added, in order: exactly the enabled ones
      that have a modifier. */
  function Counted(addons: seq<Addon>, mods: map<string, Tables>): (r: seq<Addon>)
    ensures forall a :: a in r <==> a in addons && Enabled(a) && a.name in mods
    decreases |addons|
  {
    if addons == [] then []
    else if Enabled(addons[0]) && addons[0].name in mods then [addons[0]] + Counted(addons[1..], mods)
    else Counted(addons[1..], mods)
  }

  /** Of an enabled addon with a modifier and a disabled one, only the first
      contributes: its prepended value lands ahead of the software's. */
  lemma EnabledAndDisabledExample(sw: Tables, x: Json, y: Json)
    requires EnvTables.Valid(sw) && sw == AddPrepend(Empty, "P", JStr("s"))
    ensures var mods := map["on" := AddPrepend(Empty, "P", x), "off" := AddPrepend(Empty, "P", y)];
      var addons := [Addon("on", map["enabled" := JBool(true)]), Addon("off", map["enabled" := JBool(false)])];
      Entries(FinalTables(sw, addons, mods).prepend, "P") == Contribution(x) + [JStr("s")]
  {
    var onTables := AddPrepend(Empty, "P", x);
    var mods := map["on" := onTables, "off" := AddPrepend(Empty, "P", y)];
    var on := Addon("on", map["enabled" := JBool(true)]);
    var off := Addon("off", map["enabled" := JBool(false)]);
    assert EnvTables.Valid(mods["on"]) && EnvTables.Valid(mods["off"]);
    assert Enabled(on) && !Enabled(off);
    OneEnabledOneNot(sw, on, off, mods);
    PrependedAhead(sw, x);
  }

  /** A modifier prepending `x` to P, merged over one prepending `s`, puts
      `x` ahead. */
  lemma PrependedAhead(sw: Tables, x: Json)
    requires sw == AddPrepend(Empty, "P", JStr("s"))
    ensures Entries(Merge(sw, AddPrepend(Empty, "P", x)).prepend, "P") == Contribution(x) + [JStr("s")]
  {
    var onTables := AddPrepend(Empty, "P", x);
    assert EnvTables.Valid(onTables);
    assert Entries(Merge(sw, onTables).prepend, "P") == Entries(onTables.prepend, "P") + Entries(sw.prepend, "P") by {
      MergePrependPart(sw, onTables, "P");
    }
    assert Entries(onTables.prepend, "P") == Contribution(x) by {
      assert Contribution(x) + [] == Contribution(x);
    }
    assert Entries(sw.prepend, "P") == [JStr("s")] by {
      assert [JStr("s")] + [] == [JStr("s")];
    }
  }

  /** With one enabled addon that has a modifier followed by a disabled
      one, the final tables are the software's merged with the first's. */
  lemma OneEnabledOneNot(sw: Tables, on: Addon, off: Addon, mods: map<string, Tables>)
    requires EnvTables.Valid(sw)
    requires forall n :: n in mods ==> EnvTables.Valid(mods[n])
    requires Enabled(on) && on.name in mods && !Enabled(off)
    ensures FinalTables(sw, [on, off], mods) == Merge(sw, mods[on.name])
  {
    var t1 := Merge(sw, mods[on.name]);
    assert FinalTables(sw, [on, off], mods) == Layers(sw, [on, off], mods) by {
      MergeIntoEmpty(sw);
    }
    assert Layers(sw, [on, off], mods) == Layers(t1, [off], mods) by {
      assert [on, off][1..] == [off];
    }
    assert [off][1..] == [];
  }

  /** The tables of each modifier, by name. */
  function Models(mods: map<string, EnvModifier>): map<string, Tables>
    reads mods.Values
  {
    map n | n in mods :: mods[n].Model()
  }

  /** Storing a modifier under a name stores its tables under that name. */
  lemma ModelsUpdate(mods: map<string, EnvModifier>, name: string, m: EnvModifier)
    ensures Models(mods[name := m]) == Models(mods)[name := m.Model()]
  {
    var updated := mods[name := m];
    forall n | n in updated
      ensures Models(updated)[n] == Models(mods)[name := m.Model()][n]
    {
      if n != name {
        assert updated[n] == mods[n];
      }
    }
  }

  /** The loader's state as a value. */
  datatype LoaderState = LoaderState(
    launcherType: Option<string>, config: map<string, Json>,
    software: Tables, addons: map<string, Tables>)

  class Loader {
    const software: Software
    const softwareEnvModifier: EnvModifier
    var launcherType: Option<string>
    var launcherConfig: map<string, Json>
    var addonsEnvModifier: map<string, EnvModifier>

    ghost predicate Valid()
      reads this, softwareEnvModifier, addonsEnvModifier.Values
    {
      && softwareEnvModifier.Valid()
      && softwareEnvModifier !in addonsEnvModifier.Values
      && forall n :: n in addonsEnvModifier ==> addonsEnvModifier[n].Valid()
    }

    /** The tables of every addon modifier, by addon name. */
    function AddonModels(): map<string, Tables>
      reads this, addonsEnvModifier.Values
    {
      Models(addonsEnvModifier)
    }

    function State(): LoaderState
      reads this, softwareEnvModifier, addonsEnvModifier.Values
    {
      LoaderState(launcherType, launcherConfig, softwareEnvModifier.Model(), AddonModels())
    }

    /** A new loader has no launcher type, no configuration, an empty
        software modifier over an empty base and no addon modifiers. */
    constructor (software: Software)
      ensures this.software == software && fresh(softwareEnvModifier)
      ensures State() == LoaderState(None, map[], Empty, map[])
      ensures softwareEnvModifier.baseEnv == map[] && Valid()
    {
      this.software := software;
      launcherType := None;
      launcherConfig := map[];
      addonsEnvModifier := map[];
      softwareEnvModifier := new EnvModifier(map[]);
    }

    /** `setLauncherType`: only a string is accepted. */
    method SetLauncherType(registeredType: Json) returns (o: Outcome)
      modifies this
      ensures !registeredType.JStr? ==> o == Fail(AssertionFailure("Invalid type!")) && launcherType == old(launcherType)
      ensures registeredType.JStr? ==> o == Pass && launcherType == Some(registeredType.s)
      ensures launcherConfig == old(launcherConfig) && addonsEnvModifier == old(addonsEnvModifier)
      ensures State() == old(State()).(launcherType := launcherType)
    {
      if !registeredType.JStr? {
        return Fail(AssertionFailure("Invalid type!"));
      }
      launcherType := Some(registeredType.s);
      return Pass;
    }

    /** `setLauncherConfig`: the last value set for a name wins. */
    method SetLauncherConfig(name: string, value: Json)
      modifies this
      ensures launcherConfig == old(launcherConfig)[name := value]
      ensures launcherType == old(launcherType) && addonsEnvModifier == old(addonsEnvModifier)
      ensures State() == old(State()).(config := launcherConfig)
    {
      launcherConfig := launcherConfig[name := value];
    }

    /** `setAddonEnvModifier`: the last modifier set for an addon wins. */
    method SetAddonEnvModifier(addonName: string, envModifier: EnvModifier)
      requires Valid() && envModifier.Valid() && envModifier != softwareEnvModifier
      modifies this
      ensures Valid()
      ensures addonsEnvModifier == old(addonsEnvModifier)[addonName := envModifier]
      ensures launcherType == old(launcherType) && launcherConfig == old(launcherConfig)
      ensures State() == old(State()).(addons := old(AddonModels())[addonName := envModifier.Model()])
    {
      ModelsUpdate(addonsEnvModifier, addonName, envModifier);
      addonsEnvModifier := addonsEnvModifier[addonName := envModifier];
    }

    /** `launcher`: without a launcher type (none, or the empty text) there
        is nothing to build. Otherwise a fresh modifier over `env` takes the
        software layer and the enabled addon layers, the environment is
        generated from it, and the registry builds the launcher. */
    method CreateLauncher(env: Env, registry: Launcher.Registry, shell: Shell) returns (r: Result<Launcher.Launcher>)
      requires Valid()
      ensures launcherType.None? || launcherType == Some("") ==> r == Err(MissingLauncherTypeError)
      ensures launcherType.Some? && launcherType != Some("") ==>
        var g := EnvTables.Generate(FinalTables(softwareEnvModifier.Model(), software.addons, AddonModels()), env, shell);
        && (g.env.Err? ==> r == Err(g.env.error))
        && (g.env.Ok? && launcherType.value !in registry.registered ==>
              r == Err(LauncherNotRegisteredError(launcherType.value)))
        && (g.env.Ok? && launcherType.value in registry.registered ==>
              && r.Ok? && fresh(r.value)
              && r.value.kind == registry.registered[launcherType.value]
              && r.value.software == software
              && r.value.env == g.env.value
              && r.value.config == launcherConfig)
    {
      if launcherType.None? || launcherType.value == "" {
        return Err(MissingLauncherTypeError);
      }
      var generated := FinalEnv(env, shell);
      if generated.Err? {
        return Err(generated.error);
      }
      r := registry.Create(launcherType.value, software, generated.value, launcherConfig);
    }

    /** The environment `launcher` hands to the launcher: generated from
        the software layer and the enabled addon layers over `env`. */
    method FinalEnv(env: Env, shell: Shell) returns (generated: Result<Env>)
      requires Valid()
      ensures generated == EnvTables.Generate(FinalTables(softwareEnvModifier.Model(), software.addons, AddonModels()), env, shell).env
    {
      ghost var tables := FinalTables(softwareEnvModifier.Model(), software.addons, AddonModels());
      var finalEnv := FinalEnvModifier(env);
      assert finalEnv != softwareEnvModifier && finalEnv !in addonsEnvModifier.Values;
      ghost var built := finalEnv.Model();
      assert built == tables;
      generated := finalEnv.Generate(shell);
      assert generated == EnvTables.Generate(built, env, shell).env;
      assert tables == FinalTables(softwareEnvModifier.Model(), software.addons, AddonModels());
    }

    /** The fresh modifier `launcher` builds over `env`: the software layer,
        then each enabled addon's layer in addon order. */
    method FinalEnvModifier(env: Env) returns (finalEnv: EnvModifier)
      requires Valid()
      ensures fresh(finalEnv) && finalEnv.Valid() && finalEnv.baseEnv == env
      ensures finalEnv.Model() == FinalTables(softwareEnvModifier.Model(), software.addons, AddonModels())
    {
      ghost var mods := AddonModels();
      ghost var sw := softwareEnvModifier.Model();
      assert forall n :: n in mods ==> EnvTables.Valid(mods[n]);
      finalEnv := SoftwareLayer(env);
      var addons := software.addons;
      assert addons[0..] == addons;
      for i := 0 to |addons|
        invariant fresh(finalEnv) && finalEnv.Valid() && finalEnv.baseEnv == env
        invariant Valid() && finalEnv != softwareEnvModifier && finalEnv !in addonsEnvModifier.Values
        invariant AddonModels() == mods && softwareEnvModifier.Model() == sw
        invariant Layers(finalEnv.Model(), addons[i..], mods) == FinalTables(sw, addons, mods)
      {
        assert addons[i..][0] == addons[i] && addons[i..][1..] == addons[i + 1..];
        AddAddonLayer(finalEnv, addons[i]);
      }
    }

    /** The start of `launcher`: a fresh modifier over `env` that takes the
        software layer. */
    method SoftwareLayer(env: Env) returns (finalEnv: EnvModifier)
      requires Valid()
      ensures fresh(finalEnv) && finalEnv.Valid() && finalEnv.baseEnv == env
      ensures finalEnv.Model() == Merge(Empty, softwareEnvModifier.Model())
    {
      finalEnv := new EnvModifier(env);
      finalEnv.AddFromEnvModifier(softwareEnvModifier);
    }

    /** One pass of the addon loop of `launcher`: an enabled addon that has
        a modifier adds that modifier's tables to the final modifier. */
    method AddAddonLayer(finalEnv: EnvModifier, addon: Addon)
      requires Valid() && finalEnv.Valid()
      requires finalEnv != softwareEnvModifier && finalEnv !in addonsEnvModifier.Values
      modifies finalEnv
      ensures Valid() && finalEnv.Valid()
      ensures AddonModels() == old(AddonModels()) && softwareEnvModifier.Model() == old(softwareEnvModifier.Model())
      ensures finalEnv.Model() ==
        if Enabled(addon) && addon.name in AddonModels()
        then Merge(old(finalEnv.Model()), AddonModels()[addon.name])
        else old(finalEnv.Model())
    {
      var enabled := false;
      if "enabled" in addon.options && Truthy(addon.options["enabled"]) {
        enabled := true;
      }
      if enabled && addon.name in addonsEnvModifier {
        finalEnv.AddFromEnvModifier(addonsEnvModifier[addon.name]);
      }
    }
  }
}
