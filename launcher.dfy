/** Launcher.py: a launcher holds the software it launches, an environment
    and a configuration; the registry maps launcher type names to launcher
    classes and builds launchers by name. Bin is the one launcher class. */
module Launcher {
  import opened Common
  import opened ResourceResolver
  import opened ProcessExecution
  import Bin

  /** The launcher classes. */
  datatype Kind = BinLauncher

  /** `requiredConfigNames` of a launcher class: Bin inherits the base
      class's, which requires nothing. */
  function RequiredConfigNames(kind: Kind): (r: seq<string>)
    ensures forall config :: Admit(r, config) == Pass
  {
    match kind
    case BinLauncher => []
  }

  /** The first required name that the configuration lacks, if any. */
  function FirstMissing(required: seq<string>, names: set<string>): (r: Option<string>)
    ensures r.None? <==> forall i :: 0 <= i < |required| ==> required[i] in names
    ensures r.Some? ==> exists k ::
              && 0 <= k < |required|
              && required[k] == r.value
              && r.value !in names
              && forall i :: 0 <= i < k ==> required[i] in names
    decreases |required|
  {
    if required == [] then None
    else if required[0] !in names then Some(required[0])
    else
      var r := FirstMissing(required[1..], names);
      assert forall i :: 0 < i < |required| ==> required[i] == required[1..][i - 1];
      if r.Some? then
        assert exists k ::
                 && 0 <= k < |required|
                 && required[k] == r.value
                 && r.value !in names
                 && forall i :: 0 <= i < k ==> required[i] in names by {
          var k :| && 0 <= k < |required[1..]|
                   && required[1..][k] == r.value
                   && r.value !in names
                   && forall i :: 0 <= i < k ==> required[1..][i] in names;
          assert required[k + 1] == r.value;
        }
        r
      else r
  }

  /** The check at the end of the constructor, for a launcher class with
      the given required names: the configuration is accepted, or refused
      naming the first missing required name. */
  function Admit(required: seq<string>, config: map<string, Json>): (o: Outcome)
    ensures o.Pass? <==> forall n :: n in required ==> n in config
    ensures o.Fail? ==>
      && o.error.MissingRequiredConfigError?
      && o.error.name in required
      && o.error.name !in config
  {
    match FirstMissing(required, config.Keys)
    case None => Pass
    case Some(n) => Fail(MissingRequiredConfigError(n))
  }

  /** Bin requires no configuration name, so a configuration without
      `executable` is accepted; the missing name surfaces only when the
      launcher is performed. */
  lemma MissingExecutableFailsLate(config: map<string, Json>, env: Env, shell: Shell)
    requires "executable" !in config
    ensures Admit(RequiredConfigNames(BinLauncher), config) == Pass
    ensures Bin.Perform(config, env, shell) == Err(InvalidConfigError("executable"))
    ensures Bin.RequiredOptionNames().Err?
  {
  }

  class Launcher {
    const kind: Kind
    const software: Software
    /** A copy of the environment given at construction. */
    const env: Env
    var config: map<string, Json>

    /** The constructor copies the configuration entry by entry. */
    constructor (kind: Kind, software: Software, env: Env, config: map<string, Json>)
      ensures this.kind == kind && this.software == software && this.env == env
      ensures this.config == config
    {
      this.kind := kind;
      this.software := software;
      this.env := env;
      this.config := map[];
      new;
      var rest := config.Keys;
      while rest != {}
        invariant rest <= config.Keys
        invariant this.config.Keys == config.Keys - rest
        invariant forall n :: n in this.config ==> this.config[n] == config[n]
        decreases rest
      {
        var name :| name in rest;
        this.config := this.config[name := config[name]];
        rest := rest - {name};
      }
    }

    /** The full constructor of a launcher class whose
        `requiredConfigNames` are `required`: copy, then check the required
        names in order. */
    static method New(kind: Kind, required: seq<string>, software: Software, env: Env, config: map<string, Json>)
      returns (r: Result<Launcher>)
      ensures Admit(required, config).Fail? ==> r == Err(Admit(required, config).error)
      ensures Admit(required, config).Pass? ==> r.Ok?
      ensures r.Ok? ==>
        && fresh(r.value) && r.value.kind == kind && r.value.software == software
        && r.value.env == env && r.value.config == config
    {
      var launcher := new Launcher(kind, software, env, config);
      for i := 0 to |required|
        invariant forall k :: 0 <= k < i ==> required[k] in config
      {
        if required[i] !in launcher.config {
          assert FirstMissing(required, config.Keys) == Some(required[i]) by {
            FirstMissingAt(required, config.Keys, i);
          }
          return Err(MissingRequiredConfigError(required[i]));
        }
      }
      return Ok(launcher);
    }

    /** `config`. */
    function Config(name: string): (r: Result<Json>)
      reads this
      ensures r.Ok? <==> name in config
      ensures r.Ok? ==> r.value == config[name]
      ensures r.Err? ==> r.error == InvalidConfigError(name)
    {
      if name in config then Ok(config[name]) else Err(InvalidConfigError(name))
    }

    /** `configNames`. */
    function ConfigNames(): (names: set<string>)
      reads this
      ensures forall n :: n in names <==> Config(n).Ok?
    {
      config.Keys
    }

    /** `_perform` of the launcher's class, which builds the process. */
    method Perform(shell: Shell) returns (r: Result<ProcessExecution>)
      ensures var req := Bin.Perform(config, env, shell);
        && (r.Err? <==> req.Err?)
        && (r.Err? ==> r.error == req.error)
        && (r.Ok? ==>
              && fresh(r.value)
              && r.value.args == req.value.args && r.value.env == req.value.env
              && r.value.shell && r.value.cwd == req.value.cwd
              && !r.value.redirectStderrToStdout
              && r.value.command == CommandLine(req.value.args, true)
              && r.value.stdout == [] && r.value.stderr == [] && r.value.exitStatus == None)
    {
      match kind
      case BinLauncher =>
        var req := Bin.Perform(config, env, shell);
        if req.Err? {
          return Err(req.error);
        }
        var process := new ProcessExecution(req.value.args, req.value.env, req.value.shell, req.value.cwd, false);
        return Ok(process);
    }

    /** `run`: perform once, then execute the process it returns. */
    method Run(shell: Shell, trace: seq<StreamRead>, status: int) returns (r: Result<ProcessExecution>)
      ensures var req := Bin.Perform(config, env, shell);
        && (r.Err? <==> req.Err?)
        && (r.Err? ==> r.error == req.error)
        && (r.Ok? ==>
              && fresh(r.value) && r.value.args == req.value.args
              && r.value.command == CommandLine(req.value.args, true)
              && var rec := Record(trace, false);
                 && r.value.stdout == rec.stdout && r.value.stderr == rec.stderr
                 && r.value.exitStatus == (if rec.interrupted then None else Some(status)))
    {
      r := Perform(shell);
      if r.Ok? {
        r.value.Execute(trace, status);
      }
    }
  }

  /** FirstMissing names the first index whose name is absent. */
  lemma {:induction false} FirstMissingAt(required: seq<string>, names: set<string>, i: int)
    requires 0 <= i < |required| && required[i] !in names
    requires forall k :: 0 <= k < i ==> required[k] in names
    ensures FirstMissing(required, names) == Some(required[i])
    decreases |required|
  {
    if i > 0 {
      FirstMissingAt(required[1..], names, i - 1);
    }
  }

  /** The launcher registry (the class-level dictionary): type name to
      launcher class, with the names in the order they were first
      registered. */
  class Registry {
    var registered: map<string, Kind>
    var names: seq<string>

    ghost predicate Valid()
      reads this
    {
      (forall i, j :: 0 <= i < j < |names| ==> names[i] != names[j])
      && forall n :: n in registered <==> n in names
    }

    /** Loading Bin.py registers Bin under its name. */
    constructor ()
      ensures Valid()
      ensures registered == map[Bin.RegisteredName := BinLauncher] && names == [Bin.RegisteredName]
    {
      registered := map[Bin.RegisteredName := BinLauncher];
      names := [Bin.RegisteredName];
    }

    /** `register`: the name now builds the given class, replacing any
        class registered under it before. */
    method Register(kind: Kind, name: string)
      requires Valid()
      modifies this
      ensures Valid()
      ensures registered == old(registered)[name := kind]
      ensures names == if name in old(registered) then old(names) else old(names) + [name]
    {
      if name !in registered {
        names := names + [name];
      }
      registered := registered[name := kind];
    }

    /** `registeredNames`: exactly the registered names, each once. */
    function RegisteredNames(): (r: seq<string>)
      reads this
      ensures Valid() ==> forall n :: n in r <==> n in registered
    {
      names
    }

    /** `create`: an unregistered name is refused; otherwise a launcher of
        the registered class is built. Bin, the one launcher class, requires
        no configuration name, so a registered name always succeeds. */
    method Create(name: string, software: Software, env: Env, config: map<string, Json>)
      returns (r: Result<Launcher>)
      ensures name !in registered ==> r == Err(LauncherNotRegisteredError(name))
      ensures name in registered <==> r.Ok?
      ensures r.Ok? ==>
        && fresh(r.value) && r.value.kind == registered[name]
        && r.value.software == software && r.value.env == env && r.value.config == config
    {
      if name !in registered {
        return Err(LauncherNotRegisteredError(name));
      }
      var kind := registered[name];
      r := Launcher.New(kind, RequiredConfigNames(kind), software, env, config);
    }
  }
}
