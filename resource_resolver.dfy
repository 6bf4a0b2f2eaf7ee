/** Resolution of one configuration value against an environment snapshot.
    The shell that evaluates `$VAR`, `${VAR}` and `$(command)` is not
    modelled: it is an oracle from a command line and an environment to the
    text the command writes on its standard output and standard error. */
module ResourceResolver {
  import opened Common

  /** What one shell run wrote on its two output streams. */
  datatype ShellOutput = ShellOutput(stdout: string, stderr: string)

  /** The system shell: runs a command line under an environment. */
  type Shell = (string, Env) -> ShellOutput

  /** The sigil whose presence sends a value to the shell. */
  const Sigil: char := '$'

  /** A resolver holds its own copy of the environment it was built with;
      being a value, later changes to the caller's map cannot reach it. */
  datatype Resolver = Resolver(env: Env, shell: Shell)

  /** The shell command that evaluates a value. */
  function EchoCommand(value: string): string
  {
    "echo " + value
  }

  /** Removes one trailing newline, if there is one. */
  function StripTrailingNewline(s: string): (r: string)
    ensures |s| > 0 && s[|s| - 1] == '\n' ==> r + "\n" == s
    ensures !(|s| > 0 && s[|s| - 1] == '\n') ==> r == s
  {
    if |s| > 0 && s[|s| - 1] == '\n' then s[..|s| - 1] else s
  }

  /** `ResourceResolver.resolve`: a value without the sigil is returned as
      it is; otherwise the shell echoes it, any error output is a failure,
      and the standard output loses one trailing newline. */
  function Resolve(r: Resolver, value: string): (res: Result<string>)
    ensures Sigil !in value ==> res == Ok(value)
    ensures Sigil in value ==>
      (res.Err? <==> r.shell(EchoCommand(value), r.env).stderr != "")
    ensures res.Err? ==> res.error == ResolveError(r.shell(EchoCommand(value), r.env).stderr)
    ensures Sigil in value && res.Ok? ==>
      res.value == StripTrailingNewline(r.shell(EchoCommand(value), r.env).stdout)
  {
    if Sigil !in value then Ok(value)
    else
      var out := r.shell(EchoCommand(value), r.env);
      if out.stderr != "" then Err(ResolveError(out.stderr))
      else Ok(StripTrailingNewline(out.stdout))
  }

  /** A value without the sigil never reaches the shell: whatever the shell
      and the environment, the value comes back unchanged. */
  lemma FastPathIgnoresShell(value: string, env1: Env, sh1: Shell, env2: Env, sh2: Shell)
    requires Sigil !in value
    ensures Resolve(Resolver(env1, sh1), value) == Resolve(Resolver(env2, sh2), value) == Ok(value)
  {
  }

  /** Any value holding the sigil, a lone literal `$` included, is decided
      by the shell: two shells can make it resolve differently. */
  lemma SigilReachesShell(value: string, env: Env)
    requires Sigil in value
    ensures exists sh1: Shell, sh2: Shell :: Resolve(Resolver(env, sh1), value) != Resolve(Resolver(env, sh2), value)
  {
    var quiet: Shell := (c, e) => ShellOutput("", "");
    var failing: Shell := (c, e) => ShellOutput("", "error");
    assert Resolve(Resolver(env, quiet), value) == Ok("");
    assert Resolve(Resolver(env, failing), value) == Err(ResolveError("error"));
  }

  /** Only one trailing newline is removed: text ending in two keeps one. */
  lemma {:induction false} StripsExactlyOneNewline(s: string)
    ensures StripTrailingNewline(s + "\n") == s
    ensures StripTrailingNewline(s + "\n\n") == s + "\n"
  {
    assert (s + "\n")[..|s|] == s;
    assert (s + "\n\n")[..|s| + 1] == s + "\n";
  }

  /** `$(echo hi)` resolves to `hi` when the shell prints `hi` and a newline. */
  lemma EchoHiExample(env: Env, sh: Shell)
    requires sh("echo $(echo hi)", env) == ShellOutput("hi\n", "")
    ensures Resolve(Resolver(env, sh), "$(echo hi)") == Ok("hi")
  {
    assert "$(echo hi)"[0] == Sigil;
    assert EchoCommand("$(echo hi)") == "echo $(echo hi)";
    assert StripTrailingNewline("hi\n") == "hi";
  }
}
