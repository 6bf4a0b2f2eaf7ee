/** Bin.py: the launcher that runs a binary. Its `_perform` reads the
    launcher's configuration and builds the request for a process: the
    resolved executable followed by the configured arguments, run through a
    shell with the launcher's environment. */
module Bin {
  import opened Common
  import opened ResourceResolver
  import opened ProcessExecution

  /** The name Bin is registered under. */
  const RegisteredName: string := "bin"

  /** `requiredOptionNames` as written: it asks the base class for its
      required option names, and the base class has no such method, so a
      call fails. No code calls it; the base constructor asks for
      `requiredConfigNames`, which Bin inherits unchanged (no names). */
  function RequiredOptionNames(): (r: Result<seq<string>>)
    ensures r.Err? && r.error.RuntimeTypeError?
  {
    Err(RuntimeTypeError("the base launcher has no requiredOptionNames"))
  }

  /** What `_perform` hands to ProcessExecution. */
  datatype Request = Request(args: seq<string>, env: Env, shell: bool, cwd: Option<Json>)

  /** The elements `processArgs += args` takes from the `args` value: the
      elements of a list, the characters of a string, the keys of an
      object; any other value cannot be iterated. */
  function ArgItems(v: Json): (r: Result<seq<Json>>)
    ensures r.Err? <==> !(v.JArr? || v.JStr? || v.JObj?)
    ensures v.JArr? ==> r == Ok(v.items)
    ensures v.JStr? ==> r.Ok? && |r.value| == |v.s| && forall i :: 0 <= i < |v.s| ==> r.value[i] == JStr([v.s[i]])
    ensures v.JObj? ==> r.Ok? && |r.value| == |v.members| && forall i :: 0 <= i < |v.members| ==> r.value[i] == JStr(v.members[i].0)
  {
    match v
    case JArr(items) => Ok(items)
    case JStr(s) => Ok(seq(|s|, i requires 0 <= i < |s| => JStr([s[i]])))
    case JObj(members) => Ok(seq(|members|, i requires 0 <= i < |members| => JStr(members[i].0)))
    case _ => Err(RuntimeTypeError("args is not iterable"))
  }

  /** The arguments as text. Sanitisation matches every argument after the
      first against a text pattern, which fails on anything but text. */
  function ArgStrings(items: seq<Json>): (r: Result<seq<string>>)
    ensures r.Ok? <==> forall i :: 0 <= i < |items| ==> items[i].JStr?
    ensures r.Ok? ==> |r.value| == |items| && forall i :: 0 <= i < |items| ==> r.value[i] == items[i].s
    ensures r.Err? ==> r.error == RuntimeTypeError("an argument is not a string")
    decreases |items|
  {
    if items == [] then Ok([])
    else if !items[0].JStr? then Err(RuntimeTypeError("an argument is not a string"))
    else
      match ArgStrings(items[1..])
      case Err(e) => Err(e)
      case Ok(rest) =>
        assert forall i :: 0 < i < |items| ==> items[i] == items[1..][i - 1];
        Ok([items[0].s] + rest)
  }

  /** The working directory: absent means none; a present value is resolved
      only when it is truthy, a falsy one is passed on as it is. */
  function ResolveCwd(r: Resolver, config: map<string, Json>): (res: Result<Option<Json>>)
    ensures "cwd" !in config ==> res == Ok(None)
    ensures "cwd" in config && !Truthy(config["cwd"]) ==> res == Ok(Some(config["cwd"]))
    ensures "cwd" in config && Truthy(config["cwd"]) && config["cwd"].JStr? ==>
      res == (match Resolve(r, config["cwd"].s) case Ok(d) => Ok(Some(JStr(d))) case Err(e) => Err(e))
    ensures "cwd" in config && Truthy(config["cwd"]) && !config["cwd"].JStr? ==> res.Err?
  {
    if "cwd" !in config then Ok(None)
    else
      var cwd := config["cwd"];
      if !Truthy(cwd) then Ok(Some(cwd))
      else if !cwd.JStr? then Err(RuntimeTypeError("cwd is not a string"))
      else
        match Resolve(r, cwd.s)
        case Ok(d) => Ok(Some(JStr(d)))
        case Err(e) => Err(e)
  }

  /** `_perform`: the executable is looked up and resolved, then the working
      directory, then the arguments are added after the executable. The
      arguments themselves are not resolved. */
  function Perform(config: map<string, Json>, env: Env, shell: Shell): (res: Result<Request>)
    ensures "executable" !in config ==> res == Err(InvalidConfigError("executable"))
    ensures res.Ok? ==> res.value.shell && res.value.env == env
    ensures res.Ok? ==> |res.value.args| >= 1
    ensures res.Ok? ==>
      && "executable" in config && config["executable"].JStr?
      && Resolve(Resolver(env, shell), config["executable"].s) == Ok(res.value.args[0])
    ensures res.Ok? ==> ResolveCwd(Resolver(env, shell), config) == Ok(res.value.cwd)
    ensures res.Ok? && "args" !in config ==> |res.value.args| == 1
    ensures res.Ok? && "args" in config ==>
      ArgItems(config["args"]).Ok? && ArgStrings(ArgItems(config["args"]).value) == Ok(res.value.args[1..])
    ensures "executable" in config && !config["executable"].JStr? ==> res.Err?
    ensures "executable" in config && config["executable"].JStr? ==>
      var exe := Resolve(Resolver(env, shell), config["executable"].s);
      var cwd := ResolveCwd(Resolver(env, shell), config);
      && (exe.Err? ==> res == Err(exe.error))
      && (exe.Ok? && cwd.Err? ==> res == Err(cwd.error))
      && (exe.Ok? && cwd.Ok? && "args" !in config ==> res == Ok(Request([exe.value], env, true, cwd.value)))
    ensures "executable" in config && config["executable"].JStr? && "args" in config ==>
      var exe := Resolve(Resolver(env, shell), config["executable"].s);
      var cwd := ResolveCwd(Resolver(env, shell), config);
      var items := ArgItems(config["args"]);
      exe.Ok? && cwd.Ok? ==>
        && (items.Err? ==> res == Err(items.error))
        && (items.Ok? && ArgStrings(items.value).Err? ==> res == Err(ArgStrings(items.value).error))
        && (items.Ok? && ArgStrings(items.value).Ok? ==>
              res == Ok(Request([exe.value] + ArgStrings(items.value).value, env, true, cwd.value)))
  {
    var r := Resolver(env, shell);
    if "executable" !in config then Err(InvalidConfigError("executable"))
    else
      var exe := config["executable"];
      if !exe.JStr? then Err(RuntimeTypeError("executable is not a string"))
      else
        match Resolve(r, exe.s)
        case Err(e) => Err(e)
        case Ok(executable) =>
          var args := if "args" in config then config["args"] else JArr([]);
          match ResolveCwd(r, config)
          case Err(e) => Err(e)
          case Ok(cwd) =>
            match ArgItems(args)
            case Err(e) => Err(e)
            case Ok(items) =>
              match ArgStrings(items)
              case Err(e) => Err(e)
              case Ok(rest) =>
                var req := Request([executable] + rest, env, true, cwd);
                assert req.args[1..] == rest;
                assert "args" !in config ==> req.args == [executable];
                Ok(req)
  }

  /** The executable is the first word of the command line, as resolved and
      never quoted; a configured argument list follows in its own order. */
  lemma PerformCommandLine(config: map<string, Json>, env: Env, shell: Shell)
    requires Perform(config, env, shell).Ok?
    requires "args" in config && config["args"].JArr?
    ensures var req := Perform(config, env, shell).value;
      && Sanitized(req.args)[0] == req.args[0]
      && Resolve(Resolver(env, shell), config["executable"].s) == Ok(req.args[0])
      && |req.args| == |config["args"].items| + 1
      && forall i :: 0 <= i < |config["args"].items| ==> JStr(req.args[i + 1]) == config["args"].items[i]
  {
    var req := Perform(config, env, shell).value;
    var items := config["args"].items;
    assert ArgStrings(items) == Ok(req.args[1..]);
    forall i | 0 <= i < |items|
      ensures JStr(req.args[i + 1]) == items[i]
    {
      assert req.args[1..][i] == req.args[i + 1];
    }
  }

  /** A string `args` contributes its characters one by one: `"ab"` gives
      the arguments `a` and `b`. */
  lemma StringArgsAreSplit(env: Env, shell: Shell)
    ensures var config := map["executable" := JStr("ls"), "args" := JStr("ab")];
      Perform(config, env, shell) == Ok(Request(["ls", "a", "b"], env, true, None))
  {
    var config := map["executable" := JStr("ls"), "args" := JStr("ab")];
    assert Sigil !in "ls";
    var items := ArgItems(JStr("ab")).value;
    assert items == [JStr("a"), JStr("b")];
    assert ArgStrings(items).Ok?;
    assert ArgStrings(items).value == ["a", "b"];
    assert ["ls"] + ["a", "b"] == ["ls", "a", "b"];
  }
}
