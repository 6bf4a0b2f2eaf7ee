/** ProcessExecution.py: the shell-argument sanitisation, the command line
    handed to the operating system, and the object that records a process's
    output. Starting the process and reading its pipes are not modelled: a
    run is described by the sequence of lines it produced. */
module ProcessExecution {
  import opened Common

  // ---------------------------------------------------------------------
  // The argument pattern `^[\w_-]*$`
  // ---------------------------------------------------------------------

  /** A character of the class `[\w_-]`: letters, digits, underscore, dash. */
  predicate IsSafeChar(c: char)
  {
    'a' <= c <= 'z' || 'A' <= c <= 'Z' || '0' <= c <= '9' || c == '_' || c == '-'
  }

  /** Every character is in the class (the empty text included). */
  predicate IsBareWord(s: string)
  {
    forall i :: 0 <= i < |s| ==> IsSafeChar(s[i])
  }

  /** `re.match` of the pattern: the final `$` also matches just before a
      newline that ends the text, so a bare word followed by one newline
      matches too. */
  function MatchesSafePattern(s: string): (b: bool)
    ensures b <==> forall i :: 0 <= i < |s| ==> IsSafeChar(s[i]) || (i == |s| - 1 && s[i] == '\n')
  {
    assert forall i :: 0 <= i < |s| - 1 ==> s[..|s| - 1][i] == s[i];
    IsBareWord(s) || (|s| > 0 && s[|s| - 1] == '\n' && IsBareWord(s[..|s| - 1]))
  }

  // ---------------------------------------------------------------------
  // Quoting
  // ---------------------------------------------------------------------

  /** `arg.replace('"', '\\"')`: a backslash goes in front of every double
      quote; every other character, `$`, backquote and backslash included,
      is copied as it is. */
  function EscapeQuotes(s: string): (r: string)
    ensures |s| > 0 ==> |r| > 0 && r[0] != '"'
    decreases |s|
  {
    if s == [] then []
    else if s[0] == '"' then "\\\"" + EscapeQuotes(s[1..])
    else [s[0]] + EscapeQuotes(s[1..])
  }

  /** The inverse of EscapeQuotes: a backslash followed by a double quote
      becomes the quote. */
  function UnescapeQuotes(s: string): string
    decreases |s|
  {
    if s == [] then []
    else if |s| >= 2 && s[0] == '\\' && s[1] == '"' then "\"" + UnescapeQuotes(s[2..])
    else [s[0]] + UnescapeQuotes(s[1..])
  }

  /** The number of double quotes in a text. */
  function QuoteCount(s: string): nat
    decreases |s|
  {
    if s == [] then 0 else (if s[0] == '"' then 1 else 0) + QuoteCount(s[1..])
  }

  /** An argument as the shell is to read it: escaped, between double quotes. */
  function QuoteArg(s: string): (r: string)
    ensures |r| >= 2 && r[0] == '"' && r[|r| - 1] == '"'
    ensures UnescapeQuotes(r[1..|r| - 1]) == s
  {
    UnescapeEscape(s);
    var r := "\"" + EscapeQuotes(s) + "\"";
    assert r[1..|r| - 1] == EscapeQuotes(s);
    r
  }

  /** Escaping loses nothing: unescaping gives the argument back. */
  lemma {:induction false} UnescapeEscape(s: string)
    ensures UnescapeQuotes(EscapeQuotes(s)) == s
    decreases |s|
  {
    if s != [] {
      UnescapeEscape(s[1..]);
      var rest := EscapeQuotes(s[1..]);
      if s[0] == '"' {
        assert EscapeQuotes(s) == "\\\"" + rest;
        assert ("\\\"" + rest)[2..] == rest;
      } else {
        assert EscapeQuotes(s) == [s[0]] + rest;
        assert ([s[0]] + rest)[1..] == rest;
        if s[0] == '\\' && |s| > 1 {
          assert ([s[0]] + rest)[1] == rest[0];
        }
      }
      assert s == [s[0]] + s[1..];
    }
  }

  /** Every double quote of the escaped text is preceded by a backslash, so
      none of them ends the quoted argument. */
  lemma {:induction false} EscapedQuotesArePreceded(s: string)
    ensures forall i :: 0 <= i < |EscapeQuotes(s)| && EscapeQuotes(s)[i] == '"' ==>
      i > 0 && EscapeQuotes(s)[i - 1] == '\\'
    decreases |s|
  {
    if s != [] {
      EscapedQuotesArePreceded(s[1..]);
      var rest := EscapeQuotes(s[1..]);
      var head := if s[0] == '"' then "\\\"" else [s[0]];
      assert EscapeQuotes(s) == head + rest;
      forall i | 0 <= i < |head + rest| && (head + rest)[i] == '"'
        ensures i > 0 && (head + rest)[i - 1] == '\\'
      {
        if i >= |head| {
          assert (head + rest)[i] == rest[i - |head|];
          if i - |head| > 0 {
            assert (head + rest)[i - 1] == rest[i - |head| - 1];
          }
        }
      }
    }
  }

  /** A text without double quotes is its own escape. */
  lemma {:induction false} EscapeWithoutQuotes(s: string)
    requires '"' !in s
    ensures EscapeQuotes(s) == s
    decreases |s|
  {
    if s != [] {
      assert s[0] in s;
      assert forall c :: c in s[1..] ==> c in s;
      EscapeWithoutQuotes(s[1..]);
      assert [s[0]] + s[1..] == s;
    }
  }

  /** The escaped text is longer by one character per double quote. */
  lemma {:induction false} EscapeLength(s: string)
    ensures |EscapeQuotes(s)| == |s| + QuoteCount(s)
    decreases |s|
  {
    if s != [] {
      EscapeLength(s[1..]);
    }
  }

  /** A quoted argument is the argument plus two quotes plus one backslash
      per double quote, and starts and ends with a double quote. */
  lemma QuoteArgShape(s: string)
    ensures |QuoteArg(s)| == |s| + 2 + QuoteCount(s)
    ensures QuoteArg(s)[0] == '"' && QuoteArg(s)[|QuoteArg(s)| - 1] == '"'
    ensures QuoteArg(s)[1..|QuoteArg(s)| - 1] == EscapeQuotes(s)
  {
    EscapeLength(s);
  }

  // ---------------------------------------------------------------------
  // Sanitisation
  // ---------------------------------------------------------------------

  /** One argument of `__sanitizeShellArgs`: the first argument (the
      command) and arguments matching the pattern are kept, the others are
      quoted. */
  function SanitizeArg(index: nat, arg: string): (r: string)
    ensures index == 0 ==> r == arg
    ensures index > 0 ==> (r == arg <==> MatchesSafePattern(arg))
    ensures r == arg || r == QuoteArg(arg)
  {
    if index == 0 || MatchesSafePattern(arg) then arg
    else
      QuoteArgShape(arg);
      QuoteArg(arg)
  }

  /** `__sanitizeShellArgs` as a value. */
  function Sanitized(args: seq<string>): (r: seq<string>)
    ensures |r| == |args|
    ensures forall i :: 0 <= i < |args| ==> r[i] == SanitizeArg(i, args[i])
  {
    seq(|args|, i requires 0 <= i < |args| => SanitizeArg(i, args[i]))
  }

  /** `__sanitizeShellArgs`: builds the list argument by argument. */
  method SanitizeShellArgs(args: seq<string>) returns (result: seq<string>)
    ensures result == Sanitized(args)
  {
    result := [];
    for index := 0 to |args|
      invariant result == Sanitized(args[..index])
    {
      var arg := args[index];
      if index == 0 || MatchesSafePattern(arg) {
        result := result + [arg];
      } else {
        result := result + [QuoteArg(arg)];
      }
      assert args[..index + 1][..index] == args[..index];
    }
    assert args[..|args|] == args;
  }

  /** Reading a sanitised argument back: a quoted argument never matches the
      pattern (it starts with a double quote), so it is recognised, stripped
      of its quotes and unescaped. */
  function DesanitizeArg(index: nat, s: string): string
  {
    if index == 0 || MatchesSafePattern(s) || |s| < 2 then s
    else UnescapeQuotes(s[1..|s| - 1])
  }

  function Desanitize(r: seq<string>): (args: seq<string>)
    ensures |args| == |r|
    ensures forall i :: 0 <= i < |r| ==> args[i] == DesanitizeArg(i, r[i])
  {
    seq(|r|, i requires 0 <= i < |r| => DesanitizeArg(i, r[i]))
  }

  /** A quoted argument does not match the pattern. */
  lemma QuotedNeverMatches(s: string)
    ensures !MatchesSafePattern(QuoteArg(s))
  {
    var q := QuoteArg(s);
    assert q[0] == '"' && !IsSafeChar(q[0]);
    if |q| > 1 {
      assert q[..|q| - 1][0] == '"';
    }
  }

  /** Sanitisation keeps the number and order of the arguments and loses
      nothing: every argument can be read back from its sanitised form. */
  lemma DesanitizeSanitized(args: seq<string>)
    ensures Desanitize(Sanitized(args)) == args
  {
    var r := Sanitized(args);
    forall i | 0 <= i < |args|
      ensures DesanitizeArg(i, r[i]) == args[i]
    {
      if i > 0 && !MatchesSafePattern(args[i]) {
        QuotedNeverMatches(args[i]);
        QuoteArgShape(args[i]);
        UnescapeEscape(args[i]);
      }
    }
  }

  /** The first argument is never altered, whatever it contains. */
  lemma CommandUntouched(args: seq<string>)
    requires |args| > 0
    ensures Sanitized(args)[0] == args[0]
  {
  }

  /** A later argument is altered exactly when it does not match the
      pattern, and then it is quoted. */
  lemma LaterArgument(args: seq<string>, i: int)
    requires 0 < i < |args|
    ensures MatchesSafePattern(args[i]) <==> Sanitized(args)[i] == args[i]
    ensures !MatchesSafePattern(args[i]) ==> Sanitized(args)[i] == QuoteArg(args[i])
  {
    if !MatchesSafePattern(args[i]) {
      QuoteArgShape(args[i]);
    }
  }

  /** `a b` holds a space, so as a later argument it is quoted. */
  lemma SpacedQuoted()
    ensures SanitizeArg(1, "a b") == "\"a b\""
  {
    var arg := "a b";
    assert !IsSafeChar(arg[1]) && arg[|arg| - 1] != '\n';
    assert '"' !in arg;
    ShellCharsVerbatim(1, arg);
  }

  /** `a b` is quoted, `a_b-1` and the empty argument are not, and `abc`
      followed by a newline is not either. */
  lemma SanitizeExamples()
    ensures Sanitized(["ls", "a b", "a_b-1", "", "abc\n"])
         == ["ls", "\"a b\"", "a_b-1", "", "abc\n"]
  {
    var args := ["ls", "a b", "a_b-1", "", "abc\n"];
    SpacedQuoted();
    assert IsBareWord(args[2]);
    assert MatchesSafePattern(args[4]) by {
      assert args[4][..3] == "abc";
      assert IsBareWord(args[4][..3]);
    }
  }

  /** A double quote inside an argument is escaped: `a"b` is passed as
      `"a\"b"`. */
  lemma QuoteExample()
    ensures Sanitized(["echo", "a\"b"]) == ["echo", "\"a\\\"b\""]
  {
    var arg := "a\"b";
    assert !MatchesSafePattern(arg) by {
      assert !IsSafeChar(arg[1]) && arg[|arg| - 1] != '\n';
    }
    assert EscapeQuotes(arg) == "a\\\"b" by {
      assert arg[1..] == "\"b" && arg[2..] == "b";
      assert EscapeQuotes("b") == "b";
    }
    assert SanitizeArg(1, arg) == "\"a\\\"b\"";
    SanitizedPair("echo", arg);
  }

  /** A command with one argument: the command is kept, the argument is
      sanitised as the second one. */
  lemma SanitizedPair(command: string, arg: string)
    ensures Sanitized([command, arg]) == [command, SanitizeArg(1, arg)]
  {
  }

  /** Only double quotes are escaped: an argument without them is wrapped
      in quotes as it is, so `$`, the backquote and the backslash reach the
      shell unchanged and are still expanded there. */
  lemma ShellCharsVerbatim(i: nat, arg: string)
    requires 0 < i && '"' !in arg && !MatchesSafePattern(arg)
    ensures SanitizeArg(i, arg) == "\"" + arg + "\""
  {
    EscapeWithoutQuotes(arg);
  }

  /** `$HOME` is quoted but not escaped. */
  lemma DollarExample()
    ensures Sanitized(["echo", "$HOME"]) == ["echo", "\"$HOME\""]
  {
    var args := ["echo", "$HOME"];
    assert !IsSafeChar(args[1][0]) && args[1][|args[1]| - 1] != '\n';
    assert '"' !in args[1];
    ShellCharsVerbatim(1, args[1]);
    assert SanitizeArg(1, args[1]) == "\"$HOME\"";
  }

  // ---------------------------------------------------------------------
  // Command line
  // ---------------------------------------------------------------------

  /** What is handed to `Popen`: one command line for the shell, or the
      argument vector itself. */
  datatype Command = ShellLine(line: string) | ArgVector(argv: seq<string>)

  /** Line 173: through a shell, the sanitised arguments joined by single
      spaces; otherwise the arguments as given, not sanitised. */
  function CommandLine(args: seq<string>, shell: bool): (c: Command)
    ensures shell <==> c.ShellLine?
    ensures !shell ==> c.argv == args
  {
    if shell then ShellLine(Join(Sanitized(args), ' ')) else ArgVector(args)
  }

  /** Splits a text at every occurrence of a separator. */
  function Split(s: string, sep: char): (parts: seq<string>)
    ensures |parts| > 0
    decreases |s|
  {
    if s == [] then [[]]
    else
      var rest := Split(s[1..], sep);
      if s[0] == sep then [[]] + rest
      else [[s[0]] + rest[0]] + rest[1..]
  }

  /** Splitting at the separator undoes joining parts that do not contain it. */
  lemma {:induction false} SplitJoin(parts: seq<string>, sep: char)
    requires |parts| > 0
    requires forall i :: 0 <= i < |parts| ==> sep !in parts[i]
    ensures Split(Join(parts, sep), sep) == parts
    decreases |parts|
  {
    if |parts| == 1 {
      SplitWord(parts[0], [], sep);
      assert parts[0] + [] == parts[0];
    } else {
      SplitJoin(parts[1..], sep);
      var tail := Join(parts[1..], sep);
      assert Join(parts, sep) == parts[0] + ([sep] + tail);
      SplitWord(parts[0], [sep] + tail, sep);
      assert ([sep] + tail)[1..] == tail;
      assert parts == [parts[0]] + parts[1..];
    }
  }

  /** A word without the separator becomes the head of the first part. */
  lemma {:induction false} SplitWord(w: string, rest: string, sep: char)
    requires sep !in w
    requires rest == [] || rest[0] == sep
    ensures rest == [] ==> Split(w + rest, sep) == [w]
    ensures rest != [] ==> Split(w + rest, sep) == [w] + Split(rest[1..], sep)
    decreases |w|
  {
    if w == [] {
      assert w + rest == rest;
    } else {
      SplitWord(w[1..], rest, sep);
      assert (w + rest)[1..] == w[1..] + rest;
      assert [w[0]] + w[1..] == w;
    }
  }

  /** A character the shell separates words on. */
  predicate NoSpace(s: string)
  {
    ' ' !in s
  }

  /** Through a shell, when no argument contains a space, the words of the
      command line are exactly the sanitised arguments, in order. */
  lemma ShellLineWords(args: seq<string>)
    requires |args| > 0
    requires forall i :: 0 <= i < |args| ==> NoSpace(args[i])
    ensures Split(CommandLine(args, true).line, ' ') == Sanitized(args)
  {
    var r := Sanitized(args);
    forall i | 0 <= i < |r|
      ensures ' ' !in r[i]
    {
      if i > 0 && !MatchesSafePattern(args[i]) {
        EscapeKeepsOut(args[i], ' ');
      }
    }
    SplitJoin(r, ' ');
  }

  /** Escaping adds no character other than the backslash. */
  lemma {:induction false} EscapeKeepsOut(s: string, c: char)
    requires c !in s && c != '\\' && c != '"'
    ensures c !in EscapeQuotes(s)
    decreases |s|
  {
    if s != [] {
      EscapeKeepsOut(s[1..], c);
      assert s[0] in s;
    }
  }

  /** Through a shell, `ls` and `a b` make the line `ls "a b"`. */
  lemma CommandLineExample()
    ensures CommandLine(["ls", "a b"], true) == ShellLine("ls \"a b\"")
  {
    var args := ["ls", "a b"];
    var r := ["ls", "\"a b\""];
    assert Sanitized(args) == r by {
      SpacedQuoted();
      SanitizedPair("ls", "a b");
    }
    assert Join(r, ' ') == "ls \"a b\"" by {
      assert r[1..] == ["\"a b\""];
    }
  }

  // ---------------------------------------------------------------------
  // The process object
  // ---------------------------------------------------------------------

  /** One line read from the running process, or the user's interrupt. */
  datatype StreamRead = OutLine(text: string) | ErrLine(text: string) | Interrupt

  /** The output of a run as the read loop records it: stdout and stderr
      lines in order, up to an interrupt, which adds its own stderr line
      and ends the loop. When stderr is redirected to stdout, the process
      has no stderr pipe, so no stderr line is read. */
  datatype Recorded = Recorded(stdout: seq<string>, stderr: seq<string>, interrupted: bool)

  const InterruptLine: string := " KeyboardInterrupt\n"

  /** The reads before the first interrupt, or all of them. */
  function BeforeInterrupt(trace: seq<StreamRead>): (r: seq<StreamRead>)
    ensures |r| <= |trace| && r == trace[..|r|] && Interrupt !in r
    ensures |r| < |trace| ==> trace[|r|] == Interrupt
    decreases |trace|
  {
    if trace == [] || trace[0] == Interrupt then []
    else
      var rest := BeforeInterrupt(trace[1..]);
      assert trace[..|rest| + 1] == [trace[0]] + trace[1..][..|rest|];
      [trace[0]] + rest
  }

  /** The texts of the standard error reads (`err`) or of the standard
      output reads, in the order they were read. */
  function Lines(seen: seq<StreamRead>, err: bool): seq<string>
    decreases |seen|
  {
    if seen == [] then []
    else
      var here := match seen[0]
        case OutLine(text) => if err then [] else [text]
        case ErrLine(text) => if err then [text] else []
        case Interrupt => [];
      here + Lines(seen[1..], err)
  }

  /** The record of a run, read by read. */
  function Record(trace: seq<StreamRead>, redirected: bool): Recorded
    decreases |trace|
  {
    if trace == [] then Recorded([], [], false)
    else
      match trace[0]
      case Interrupt => Recorded([], [InterruptLine], true)
      case OutLine(text) =>
        var rest := Record(trace[1..], redirected);
        rest.(stdout := [text] + rest.stdout)
      case ErrLine(text) =>
        var rest := Record(trace[1..], redirected);
        if redirected then rest else rest.(stderr := [text] + rest.stderr)
  }

  /** The read loop is interrupted exactly when the user interrupts it. */
  lemma {:induction false} RecordInterrupted(trace: seq<StreamRead>, redirected: bool)
    ensures Record(trace, redirected).interrupted <==> Interrupt in trace
    decreases |trace|
  {
    if trace != [] && trace[0] != Interrupt {
      RecordInterrupted(trace[1..], redirected);
      RecordStep(trace, redirected);
      assert trace == [trace[0]] + trace[1..];
    }
  }

  /** The recorded standard output is the text of each stdout line read
      before an interrupt, in order. */
  lemma {:induction false} RecordStdout(trace: seq<StreamRead>, redirected: bool)
    ensures Record(trace, redirected).stdout == Lines(BeforeInterrupt(trace), false)
    decreases |trace|
  {
    if trace != [] && trace[0] != Interrupt {
      RecordStdout(trace[1..], redirected);
      RecordStep(trace, redirected);
      NextRead(trace, false);
    }
  }

  /** The recorded standard error is the text of each stderr line read
      before an interrupt, none when stderr is redirected, followed by the
      interrupt's own line when there is one. */
  lemma {:induction false} RecordStderr(trace: seq<StreamRead>, redirected: bool)
    ensures Record(trace, redirected).stderr ==
      (if redirected then [] else Lines(BeforeInterrupt(trace), true))
      + (if Interrupt in trace then [InterruptLine] else [])
    decreases |trace|
  {
    if trace != [] && trace[0] != Interrupt {
      RecordStderr(trace[1..], redirected);
      RecordStep(trace, redirected);
      NextRead(trace, true);
      assert trace == [trace[0]] + trace[1..];
    }
  }

  /** A read that is not an interrupt is the first of the reads before the
      interrupt. */
  lemma NextRead(trace: seq<StreamRead>, err: bool)
    requires trace != [] && trace[0] != Interrupt
    ensures Lines(BeforeInterrupt(trace), err) == Lines([trace[0]], err) + Lines(BeforeInterrupt(trace[1..]), err)
  {
    LinesCons(trace[0], BeforeInterrupt(trace[1..]), err);
  }

  lemma LinesCons(x: StreamRead, rest: seq<StreamRead>, err: bool)
    ensures Lines([x] + rest, err) == Lines([x], err) + Lines(rest, err)
  {
    assert ([x] + rest)[1..] == rest;
    assert [x][1..] == [];
  }

  /** One read of the loop: how the record of a trace follows from the
      record of the reads after its first one. */
  lemma RecordStep(trace: seq<StreamRead>, redirected: bool)
    requires trace != []
    ensures var next := Record(trace[1..], redirected);
      Record(trace, redirected) ==
        match trace[0]
        case Interrupt => Recorded([], [InterruptLine], true)
        case OutLine(text) => next.(stdout := [text] + next.stdout)
        case ErrLine(text) => if redirected then next else next.(stderr := [text] + next.stderr)
  {
  }

  /** The read loop of `execute`: each line is added to its buffer as it is
      read, and an interrupt adds its message to stderr and ends the loop. */
  method ReadLines(trace: seq<StreamRead>, redirected: bool) returns (rec: Recorded)
    ensures rec == Record(trace, redirected)
  {
    ghost var whole := Record(trace, redirected);
    var out: seq<string> := [];
    var err: seq<string> := [];
    assert trace[0..] == trace;
    var i := 0;
    while i < |trace|
      invariant 0 <= i <= |trace|
      invariant var rest := Record(trace[i..], redirected);
        && whole.stdout == out + rest.stdout
        && whole.stderr == err + rest.stderr
        && whole.interrupted == rest.interrupted
    {
      assert trace[i..][0] == trace[i] && trace[i..][1..] == trace[i + 1..];
      RecordStep(trace[i..], redirected);
      ghost var next := Record(trace[i + 1..], redirected);
      var read := trace[i];
      if read.Interrupt? {
        return Recorded(out, err + [InterruptLine], true);
      } else if read.OutLine? {
        assert whole.stdout == (out + [read.text]) + next.stdout;
        out := out + [read.text];
      } else if !redirected {
        assert whole.stderr == (err + [read.text]) + next.stderr;
        err := err + [read.text];
      }
      i := i + 1;
    }
    return Recorded(out, err, false);
  }

  class ProcessExecution {
    const args: seq<string>
    const env: Env
    const shell: bool
    const cwd: Option<Json>
    const redirectStderrToStdout: bool
    /** What the process is started with. */
    const command: Command
    var stdout: seq<string>
    var stderr: seq<string>
    /** `returncode`: none until the process is known to have ended. */
    var exitStatus: Option<int>

    /** The constructor keeps copies of the arguments and the environment
        and works out the command; the buffers start empty. */
    constructor (args: seq<string>, env: Env, shell: bool, cwd: Option<Json>, redirectStderrToStdout: bool)
      ensures this.args == args && this.env == env && this.shell == shell
      ensures this.cwd == cwd && this.redirectStderrToStdout == redirectStderrToStdout
      ensures command == CommandLine(args, shell)
      ensures stdout == [] && stderr == [] && exitStatus == None
    {
      this.args := args;
      this.env := env;
      this.shell := shell;
      this.cwd := cwd;
      this.redirectStderrToStdout := redirectStderrToStdout;
      if shell {
        var sanitized := SanitizeShellArgs(args);
        command := ShellLine(Join(sanitized, ' '));
      } else {
        command := ArgVector(args);
      }
      stdout, stderr, exitStatus := [], [], None;
    }

    /** `executionSuccess`. */
    function ExecutionSuccess(): (b: bool)
      reads this
      ensures b <==> exitStatus == Some(0)
    {
      exitStatus == Some(0)
    }

    /** `execute` over the lines a run produced: each line is appended to
        its buffer as it is read; an interrupt appends its message to stderr
        and stops the loop before the process is known to have ended. When
        the process ends, its status is recorded. */
    method Execute(trace: seq<StreamRead>, status: int)
      modifies this
      ensures var rec := Record(trace, redirectStderrToStdout);
        && stdout == old(stdout) + rec.stdout
        && stderr == old(stderr) + rec.stderr
        && exitStatus == if rec.interrupted then old(exitStatus) else Some(status)
    {
      var rec := ReadLines(trace, redirectStderrToStdout);
      stdout := stdout + rec.stdout;
      stderr := stderr + rec.stderr;
      if !rec.interrupted {
        exitStatus := Some(status);
      }
    }
  }
}
