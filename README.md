# ulauncher environment composition and launch, in Dafny

This project models the core of ulauncher, a small Python library that starts a
program with an environment assembled from layers:

- **EnvModifier** collects four tables for each software release:
  - prepend lists,
  - append lists,
  - override values,
  - a set of names to unset.

  `generate` applies the tables to a copy of a base environment in that fixed order. It
  joins list values with `:` and passes every value through a resolver.
- **ResourceResolver** expands `$VAR` and `$(command)` through the shell. A value without
  `$` is returned as it is.
- **ProcessExecution** quotes the arguments that are not shell-safe and builds the command
  line. It records what a run printed and its exit status.
- **Launcher** (with its registry) and **Bin** build a launcher from a registered type name
  and turn its configuration into a process request.
- **Loader** folds the software layer and the enabled addon layers into one modifier and
  builds the launcher. **JsonLoader** fills a Loader from a parsed JSON description.

The modules follow the source files:

| Module | Source | What it holds |
|---|---|---|
| `Common` | — | shared datatypes |
| `ResourceResolver` | `ResourceResolver.py` | the resolver |
| `EnvTables` | `EnvModifier.py` | the four tables and `generate`, as values |
| `EnvModifier` | `EnvModifier.py` | the class with its in-place builders and passes, proved against `EnvTables` |
| `ProcessExecution` | `ProcessExecution.py` | sanitisation, the command line and the execution record |
| `Bin` | `Launcher/Bin.py` | the process request |
| `Launcher` | `Launcher/Launcher.py` | the launcher class and the registry |
| `Loader` | `Loader/Loader.py` | the loader |
| `JsonLoader` | `Loader/JsonLoader.py` | what `loadFromJson` does to a loader, as values, and the methods that do it |

The shell is an oracle, a function from a command line and an environment to what the
command printed on its two streams. Python exceptions become `Err`/`Fail` values:

- **Raised error classes** keep their names in `Common.Error`.
- **Failed `assert` statements** become `AssertionFailure`.
- **Type errors** become `RuntimeTypeError`. These are errors Python raises when a value
  has the wrong type, such as calling `.items()` on a list or iterating a number.

Behaviour of the code that the model reproduces as written:

- `generate` writes resolved values back into the stored lists, so it is not repeatable in
  general (`EnvTables.GenerateWritesBack`). It is repeatable when every stored value is
  plain text (`EnvTables.GenerateRepeatableWhenPlain`).
- Bin overrides `requiredOptionNames`, not `requiredConfigNames`. So a configuration
  without `executable` is accepted, and the missing name surfaces only when the launcher
  is performed. Calling the override would fail, because the base class has no such
  method (`Launcher.MissingExecutableFailsLate`).
- The prepend section's shape check tests the env object instead of the section. A prepend
  section that is not an object therefore fails with a type error rather than a content
  error (`JsonLoader.PrependSectionQuirk`).

## Model

| member | source | states |
|---|---|---|
| ResourceResolver.Resolve | src/lib/ulauncher/ResourceResolver.py:23-54 | without `$` the value comes back unchanged; otherwise non-empty error output is exactly a `ResolveError` carrying it, and a success is the echoed output minus one trailing newline |
| ResourceResolver.StripTrailingNewline | src/lib/ulauncher/ResourceResolver.py:50-52 | a text ending in a newline is the result plus that newline; any other text is returned unchanged |
| ResourceResolver.FastPathIgnoresShell | src/lib/ulauncher/ResourceResolver.py:29-31 | a value without `$` resolves to itself whatever the shell and environment |
| ResourceResolver.SigilReachesShell | src/lib/ulauncher/ResourceResolver.py:30-41 | any value containing `$`, a lone `$` included, is decided by the shell: two shells can resolve it differently |
| ResourceResolver.StripsExactlyOneNewline | src/lib/ulauncher/ResourceResolver.py:50-54 | one trailing newline is removed, a second one is kept |
| ResourceResolver.EchoHiExample | src/lib/ulauncher/ResourceResolver.py:35-54 | `$(echo hi)` resolves to `hi` when the shell prints `hi` and a newline |
| EnvTables.AddPrepend | src/lib/ulauncher/EnvModifier.py:67-77 | prepending keeps the tables well formed and leaves every other table and name unchanged |
| EnvTables.AddAppend | src/lib/ulauncher/EnvModifier.py:96-106 | appending keeps the tables well formed and leaves every other table and name unchanged |
| EnvTables.SetOverride | src/lib/ulauncher/EnvModifier.py:125-129 | setting an override keeps the tables well formed and leaves the other tables unchanged |
| EnvTables.PrependSinglesReverse | src/lib/ulauncher/EnvModifier.py:74-77 | prepending single values A then B stores [B, A] ahead of the earlier entries |
| EnvTables.PrependListAhead | src/lib/ulauncher/EnvModifier.py:74-75 | a prepended list goes, whole and in its own order, ahead of the earlier entries |
| EnvTables.AppendKeepsOrder | src/lib/ulauncher/EnvModifier.py:103-106 | appending A then B extends the earlier entries with A, then B (or B's elements) |
| EnvTables.LastOverrideWins | src/lib/ulauncher/EnvModifier.py:125-129 | the last override set for a name is the one stored |
| EnvTables.PrependTwice | src/lib/ulauncher/EnvModifier.py:67-77 | two single values prepended to a new modifier form one list under the name, the later value first |
| EnvTables.AppendTwice | src/lib/ulauncher/EnvModifier.py:96-106 | two single values appended to a new modifier form one list under the name, the earlier value first |
| EnvTables.MergePrepend | src/lib/ulauncher/EnvModifier.py:52-53 | the prepend loop keeps the tables well formed, changes only the prepend table, and afterwards holds exactly the old names and the visited ones |
| EnvTables.MergeAppend | src/lib/ulauncher/EnvModifier.py:56-57 | the append loop keeps the tables well formed, changes only the append table, and afterwards holds exactly the old names and the visited ones |
| EnvTables.MergeOverride | src/lib/ulauncher/EnvModifier.py:60-61 | the override loop keeps the tables well formed and changes only the override table |
| EnvTables.MergePrependEntries | src/lib/ulauncher/EnvModifier.py:52-53 | a name the prepend loop visits ends with the other's list ahead of its earlier entries |
| EnvTables.MergePrependElsewhere | src/lib/ulauncher/EnvModifier.py:52-53 | a name the prepend loop does not visit keeps its entries |
| EnvTables.MergeAppendEntries | src/lib/ulauncher/EnvModifier.py:56-57 | a name the append loop visits ends with its earlier entries followed by the other's list |
| EnvTables.MergeAppendElsewhere | src/lib/ulauncher/EnvModifier.py:56-57 | a name the append loop does not visit keeps its entries |
| EnvTables.MergeOverrideValues | src/lib/ulauncher/EnvModifier.py:60-61 | a name the override loop visits holds the other's value; any other name keeps its own, or stays absent |
| EnvTables.Merge | src/lib/ulauncher/EnvModifier.py:44-65 | merging another modifier's tables keeps the tables well formed and unions the unset names |
| EnvTables.MergePrependPart | src/lib/ulauncher/EnvModifier.py:44-53 | after a merge, a name's prepend entries are the other's ahead of the existing ones |
| EnvTables.MergeAppendPart | src/lib/ulauncher/EnvModifier.py:44-57 | after a merge, a name's append entries are the existing ones followed by the other's |
| EnvTables.MergeOverridePart | src/lib/ulauncher/EnvModifier.py:44-61 | after a merge, the other's override for a name replaces the existing one, which otherwise stays |
| EnvTables.MergeContents | src/lib/ulauncher/EnvModifier.py:44-65 | after a merge, per name: the other's prepend list is ahead of the existing one, its append list after it, its override replaces, and the unset names are the union |
| EnvTables.MergePrependNames | src/lib/ulauncher/EnvModifier.py:52-53 | names new to the prepend table are registered in the other modifier's order |
| EnvTables.MergeAppendNames | src/lib/ulauncher/EnvModifier.py:56-57 | names new to the append table are registered in the other modifier's order |
| EnvTables.MergeOverrideNames | src/lib/ulauncher/EnvModifier.py:60-61 | names new to the override table are registered in the other modifier's order |
| EnvTables.MergeIntoEmptyPrepend | src/lib/ulauncher/EnvModifier.py:44-53 | merging into an empty modifier copies the prepend table exactly |
| EnvTables.MergeIntoEmptyAppend | src/lib/ulauncher/EnvModifier.py:44-57 | merging into an empty modifier copies the append table exactly |
| EnvTables.MergeIntoEmptyOverrides | src/lib/ulauncher/EnvModifier.py:44-61 | merging into an empty modifier copies the override table exactly |
| EnvTables.MergeIntoEmptyNames | src/lib/ulauncher/EnvModifier.py:44-61 | merging into an empty modifier keeps the other's key order in all three tables |
| EnvTables.MergeIntoEmpty | src/lib/ulauncher/EnvModifier.py:44-65 | merging a modifier into an empty one reproduces its tables exactly |
| EnvTables.ResolveItems | src/lib/ulauncher/EnvModifier.py:239-240 | on success every list element has been resolved and written back in place as text |
| EnvTables.ResolveItemsFailure | src/lib/ulauncher/EnvModifier.py:239-240 | on failure the loop stopped at the first element that fails: earlier elements are already overwritten, it and the rest are kept |
| EnvTables.ConvertValue | src/lib/ulauncher/EnvModifier.py:222-242 | a string is resolved on its own and what is stored is unchanged; a list has each element resolved and written back in place, and its text is the resolved elements joined with `:` (or the first element's error); a value that is neither string nor list is an `InvalidVarValueError` |
| EnvTables.Attach | src/lib/ulauncher/EnvModifier.py:197-204 | a prepended or appended value is joined with `:` to the current value only when that value is present and non-empty, on the front or the back side |
| EnvTables.ListPass | src/lib/ulauncher/EnvModifier.py:190-220 | a prepend or append pass writes lists back without adding or removing table names |
| EnvTables.OverridePass | src/lib/ulauncher/EnvModifier.py:181-188 | the override pass writes values back without adding or removing table names |
| EnvTables.Generate | src/lib/ulauncher/EnvModifier.py:160-171 | generation keeps the tables well formed, with the same names and unset set |
| EnvTables.GenerateKeys | src/lib/ulauncher/EnvModifier.py:173-179 | the result holds exactly the base names and every prepended, appended or overridden name, minus the unset names |
| EnvTables.GenerateUnsetWins | src/lib/ulauncher/EnvModifier.py:168-179 | an unset name is absent whatever the other tables did |
| EnvTables.GenerateOverrideWins | src/lib/ulauncher/EnvModifier.py:166-168 | an overridden name that is not unset holds its converted override value, whatever base, prepend and append gave it |
| EnvTables.GenerateLayersInOrder | src/lib/ulauncher/EnvModifier.py:164-167 | a name neither overridden nor unset holds the base value with the prepend layer applied first and the append layer second |
| EnvTables.GenerateKeepsOtherNames | src/lib/ulauncher/EnvModifier.py:164 | a name no table mentions keeps its base value |
| EnvTables.PrependExample | src/lib/ulauncher/EnvModifier.py:190-204 | prepending A then B to base C generates `B:A:C` |
| EnvTables.AppendExample | src/lib/ulauncher/EnvModifier.py:206-220 | appending A then B to base C generates `C:A:B` |
| EnvTables.GenerateRepeatableWhenPlain | src/lib/ulauncher/EnvModifier.py:160-171 | when every stored value is plain text, generation succeeds, writes nothing back and can be repeated with the same result |
| EnvTables.GenerateWritesBack | src/lib/ulauncher/EnvModifier.py:230-240 | with a value `$A` that resolves to the text `$B`, the first generation gives `X=$B` and stores `$B`; the second gives `X=` |
| EnvTables.ListPassKeys | src/lib/ulauncher/EnvModifier.py:194-204 | a prepend or append pass adds exactly its names to the environment |
| EnvTables.ListPassValue | src/lib/ulauncher/EnvModifier.py:194-204 | after a prepend or append pass each of its names holds its joined list attached to the value it had before |
| EnvTables.ListPassElsewhere | src/lib/ulauncher/EnvModifier.py:194-204 | a name a prepend or append pass does not visit keeps its value, or stays absent |
| EnvTables.PassLayer | src/lib/ulauncher/EnvModifier.py:190-220 | after a prepend or append pass, a name holds its layer over the value it had before |
| EnvTables.ListPassOne | src/lib/ulauncher/EnvModifier.py:194-204 | a pass over one list converts it, writes it back and attaches its text, or stops with the conversion's error |
| EnvTables.OverridePassElsewhere | src/lib/ulauncher/EnvModifier.py:185-188 | a name the override pass does not visit keeps its value, or stays absent |
| EnvTables.OverridePassKeys | src/lib/ulauncher/EnvModifier.py:185-188 | the override pass adds exactly its names to the environment |
| EnvTables.GenerateSingleList | src/lib/ulauncher/EnvModifier.py:160-220 | generating from a single stored list writes its conversion back and attaches its text to the name's base value, or fails with the conversion's error |
| EnvTables.ResolveItemsPlain | src/lib/ulauncher/EnvModifier.py:239-240 | a list of plain text converts without error and writes back the same elements |
| EnvTables.ListPassPlain | src/lib/ulauncher/EnvModifier.py:190-220 | a pass over lists of plain text succeeds and leaves the table as it was |
| EnvTables.OverridePassPlain | src/lib/ulauncher/EnvModifier.py:181-188 | an override pass over plain values succeeds and leaves the table as it was |
| EnvTables.OverridePassValue | src/lib/ulauncher/EnvModifier.py:185-188 | after the override pass each overridden name holds its converted value |
| EnvTables.AddUnset | src/lib/ulauncher/EnvModifier.py:148-152 | the name joins the unset names and nothing else changes |
| EnvModifier.EnvModifier.constructor | src/lib/ulauncher/EnvModifier.py:24-36 | a new modifier has empty tables and keeps its base environment |
| EnvModifier.EnvModifier.AddPrependVar | src/lib/ulauncher/EnvModifier.py:67-77 | the tables become those of the prepend builder |
| EnvModifier.EnvModifier.PrependVar | src/lib/ulauncher/EnvModifier.py:79-88 | returns the stored list exactly when the name was prepended, `InvalidVarError` otherwise |
| EnvModifier.EnvModifier.PrependVarNames | src/lib/ulauncher/EnvModifier.py:90-94 | each prepended name once, and exactly the names `PrependVar` accepts |
| EnvModifier.EnvModifier.AddAppendVar | src/lib/ulauncher/EnvModifier.py:96-106 | the tables become those of the append builder |
| EnvModifier.EnvModifier.AppendVar | src/lib/ulauncher/EnvModifier.py:108-117 | returns the stored list exactly when the name was appended, `InvalidVarError` otherwise |
| EnvModifier.EnvModifier.AppendVarNames | src/lib/ulauncher/EnvModifier.py:119-123 | each appended name once, and exactly the names `AppendVar` accepts |
| EnvModifier.EnvModifier.SetOverrideVar | src/lib/ulauncher/EnvModifier.py:125-129 | the tables become those of the override builder |
| EnvModifier.EnvModifier.OverrideVar | src/lib/ulauncher/EnvModifier.py:131-140 | returns the stored value exactly when the name was overridden, `InvalidVarError` otherwise |
| EnvModifier.EnvModifier.OverrideVarNames | src/lib/ulauncher/EnvModifier.py:142-146 | each overridden name once, and exactly the names `OverrideVar` accepts |
| EnvModifier.EnvModifier.AddUnsetVar | src/lib/ulauncher/EnvModifier.py:148-152 | the name joins the unset set |
| EnvModifier.EnvModifier.UnsetVarNames | src/lib/ulauncher/EnvModifier.py:154-158 | exactly the unset names |
| EnvModifier.EnvModifier.AddFromEnvModifier | src/lib/ulauncher/EnvModifier.py:44-65 | the tables become the merge of the old tables with the other modifier's tables, itself included; the base environment is not copied |
| EnvModifier.EnvModifier.PrependEach | src/lib/ulauncher/EnvModifier.py:52-53 | the tables become those of the merge's prepend loop |
| EnvModifier.EnvModifier.AppendEach | src/lib/ulauncher/EnvModifier.py:56-57 | the tables become those of the merge's append loop |
| EnvModifier.EnvModifier.OverrideEach | src/lib/ulauncher/EnvModifier.py:60-61 | the tables become those of the merge's override loop |
| EnvModifier.EnvModifier.UnsetEach | src/lib/ulauncher/EnvModifier.py:64-65 | the unset names gain the other's; nothing else changes |
| EnvModifier.EnvModifier.ResolveList | src/lib/ulauncher/EnvModifier.py:239-240 | the index loop computes the resolved list and its in-place write-back |
| EnvModifier.EnvModifier.ConvertEnvValue | src/lib/ulauncher/EnvModifier.py:222-242 | computes the converted value and what is stored after it |
| EnvModifier.EnvModifier.ListVars | src/lib/ulauncher/EnvModifier.py:190-220 | the loop shared by the prepend and append passes computes exactly the written-back table and the environment, or the error, of `EnvTables.ListPass` |
| EnvModifier.EnvModifier.OverrideVars | src/lib/ulauncher/EnvModifier.py:185-188 | the override loop computes exactly the written-back table and the environment, or the error, of `EnvTables.OverridePass` |
| EnvModifier.EnvModifier.ModifyPrependVars | src/lib/ulauncher/EnvModifier.py:190-204 | the environment and the written-back prepend table are those of the prepend pass |
| EnvModifier.EnvModifier.ModifyAppendVars | src/lib/ulauncher/EnvModifier.py:206-220 | the environment and the written-back append table are those of the append pass |
| EnvModifier.EnvModifier.ModifyOverrideVars | src/lib/ulauncher/EnvModifier.py:181-188 | the environment and the written-back override table are those of the override pass |
| EnvModifier.EnvModifier.ModifyUnsetVars | src/lib/ulauncher/EnvModifier.py:173-179 | the environment loses exactly the unset names |
| EnvModifier.EnvModifier.Generate | src/lib/ulauncher/EnvModifier.py:160-171 | the result and the written-back tables are those of `EnvTables.Generate` on the old tables and the base environment |
| ProcessExecution.EscapeQuotes | src/lib/ulauncher/ProcessExecution.py:207 | a non-empty text escapes to a non-empty text that does not start with a bare quote |
| ProcessExecution.UnescapeEscape | src/lib/ulauncher/ProcessExecution.py:207 | escaping loses nothing: removing the inserted backslashes gives the argument back |
| ProcessExecution.EscapedQuotesArePreceded | src/lib/ulauncher/ProcessExecution.py:207 | every quote in the escaped text is preceded by a backslash |
| ProcessExecution.EscapeLength | src/lib/ulauncher/ProcessExecution.py:207 | escaping adds one character per double quote |
| ProcessExecution.QuoteArgShape | src/lib/ulauncher/ProcessExecution.py:207 | a quoted argument is two quotes around the escaped text, longer than the argument by two plus the number of quotes |
| ProcessExecution.ShellCharsVerbatim | src/lib/ulauncher/ProcessExecution.py:206-207 | an argument without quotes is wrapped as it is, so `$`, backquote and backslash are not escaped |
| ProcessExecution.Sanitized | src/lib/ulauncher/ProcessExecution.py:193-209 | sanitisation keeps the number and order of arguments, each sanitised by its own position |
| ProcessExecution.SanitizeShellArgs | src/lib/ulauncher/ProcessExecution.py:193-209 | the loop builds exactly the sanitised arguments |
| ProcessExecution.DesanitizeSanitized | src/lib/ulauncher/ProcessExecution.py:193-209 | sanitisation can be undone: every argument is recovered from the sanitised list |
| ProcessExecution.CommandUntouched | src/lib/ulauncher/ProcessExecution.py:202-205 | the first argument is never altered |
| ProcessExecution.LaterArgument | src/lib/ulauncher/ProcessExecution.py:204-207 | a later argument is kept exactly when it matches the safe pattern, and quoted otherwise |
| ProcessExecution.SpacedQuoted | src/lib/ulauncher/ProcessExecution.py:204-207 | `a b` as a later argument is wrapped in quotes |
| ProcessExecution.QuotedNeverMatches | src/lib/ulauncher/ProcessExecution.py:12 | a quoted argument never matches the safe pattern |
| ProcessExecution.SanitizeExamples | src/lib/ulauncher/ProcessExecution.py:204-207 | `a b` is quoted; `a_b-1`, the empty text and `abc` plus a newline are kept |
| ProcessExecution.QuoteExample | src/lib/ulauncher/ProcessExecution.py:207 | the argument `a"b` becomes `"a\"b"`: wrapped in quotes, its inner quote escaped |
| ProcessExecution.DollarExample | src/lib/ulauncher/ProcessExecution.py:206-207 | `$HOME` is quoted but its `$` is not escaped |
| ProcessExecution.MatchesSafePattern | src/lib/ulauncher/ProcessExecution.py:12 | a text matches exactly when every character is a letter, digit, `_` or `-`, except that a final newline is allowed |
| ProcessExecution.QuoteArg | src/lib/ulauncher/ProcessExecution.py:207 | the quoted argument starts and ends with a double quote, and unescaping what lies between gives the argument back |
| ProcessExecution.SanitizeArg | src/lib/ulauncher/ProcessExecution.py:204-207 | the command is kept; a later argument is kept exactly when it matches the pattern, and is quoted otherwise |
| ProcessExecution.CommandLine | src/lib/ulauncher/ProcessExecution.py:173 | shell mode gives one command line, other mode the argument vector as given |
| ProcessExecution.SplitJoin | src/lib/ulauncher/ProcessExecution.py:173 | joining words without the separator can be split back into the same words |
| ProcessExecution.ShellLineWords | src/lib/ulauncher/ProcessExecution.py:173 | when no argument contains a space, the words of the command line are the sanitised arguments |
| ProcessExecution.CommandLineExample | src/lib/ulauncher/ProcessExecution.py:173 | `ls` and `a b` give the line `ls "a b"` |
| ProcessExecution.RecordInterrupted | src/lib/ulauncher/ProcessExecution.py:99-118 | the read loop is interrupted exactly when the trace holds an interrupt |
| ProcessExecution.RecordStdout | src/lib/ulauncher/ProcessExecution.py:99-118 | the recorded standard output is the text of every stdout line read before the first interrupt, in order |
| ProcessExecution.RecordStderr | src/lib/ulauncher/ProcessExecution.py:99-118 | the recorded standard error is the text of every stderr line read before the first interrupt, none when stderr is redirected, then ` KeyboardInterrupt` exactly when there was an interrupt |
| ProcessExecution.ReadLines | src/lib/ulauncher/ProcessExecution.py:99-118 | the read loop builds exactly the record of the trace |
| ProcessExecution.ProcessExecution.constructor | src/lib/ulauncher/ProcessExecution.py:14-28 | keeps its own copies of the arguments and environment, builds the command line, and starts with empty output and no exit status |
| ProcessExecution.ProcessExecution.ExecutionSuccess | src/lib/ulauncher/ProcessExecution.py:72-76 | true exactly when the exit status is 0 |
| ProcessExecution.ProcessExecution.Execute | src/lib/ulauncher/ProcessExecution.py:90-123 | output and error buffers grow by what the reads recorded; an interrupt records ` KeyboardInterrupt` and stops |
| Bin.RequiredOptionNames | src/lib/ulauncher/Launcher/Bin.py:42-49 | a call fails, because the base class has no such method |
| Bin.ArgItems | src/lib/ulauncher/Launcher/Bin.py:33 | `+=` takes a list's elements, a string's characters or an object's keys; anything else fails |
| Bin.ArgStrings | src/lib/ulauncher/Launcher/Bin.py:33 | the arguments are accepted exactly when every one is text, and kept in order |
| Bin.ResolveCwd | src/lib/ulauncher/Launcher/Bin.py:26-28 | no `cwd` gives none; a falsy one is passed on; a truthy one is resolved |
| Bin.Perform | src/lib/ulauncher/Launcher/Bin.py:18-40 | a missing executable is an `InvalidConfigError`; a resolve error of the executable, then of `cwd`, then a non-iterable `args`, then a non-text argument is passed on; otherwise the request is made: the resolved executable followed by the configured arguments, not resolved and in order, with shell mode, the launcher's environment and the resolved `cwd` |
| Bin.PerformCommandLine | src/lib/ulauncher/Launcher/Bin.py:22-33 | the executable is resolved, never quoted, and is followed by the argument list element for element |
| Bin.StringArgsAreSplit | src/lib/ulauncher/Launcher/Bin.py:33 | a string `args` contributes its characters one by one |
| Launcher.FirstMissing | src/lib/ulauncher/Launcher/Launcher.py:33-39 | none exactly when every required name is present; otherwise the first absent one |
| Launcher.FirstMissingAt | src/lib/ulauncher/Launcher/Launcher.py:33-39 | when every earlier required name is present, the first absent one is the one reported |
| Launcher.RequiredConfigNames | src/lib/ulauncher/Launcher/Launcher.py:133-138 | Bin's required names admit every configuration |
| Launcher.Admit | src/lib/ulauncher/Launcher/Launcher.py:33-39 | the configuration passes exactly when it holds every required name; otherwise `MissingRequiredConfigError` names an absent required name |
| Launcher.MissingExecutableFailsLate | src/lib/ulauncher/Launcher/Launcher.py:33-39 | a Bin configuration without `executable` is admitted, and the failure surfaces only when performing |
| Launcher.Launcher.constructor | src/lib/ulauncher/Launcher/Launcher.py:20-31 | the configuration is copied entry by entry |
| Launcher.Launcher.New | src/lib/ulauncher/Launcher/Launcher.py:20-39 | construction fails with the admission error exactly when a required name is missing |
| Launcher.Launcher.Config | src/lib/ulauncher/Launcher/Launcher.py:47-56 | the stored value for a configured name, `InvalidConfigError` for any other |
| Launcher.Launcher.ConfigNames | src/lib/ulauncher/Launcher/Launcher.py:58-62 | exactly the names `Config` accepts |
| Launcher.Launcher.Perform | src/lib/ulauncher/Launcher/Bin.py:18-40 | the process is built from Bin's request, or the request's error is returned |
| Launcher.Launcher.Run | src/lib/ulauncher/Launcher/Launcher.py:79-100 | performs once, then executes that process |
| Launcher.Registry.constructor | src/lib/ulauncher/Launcher/Bin.py:53 | Bin is registered under `bin` |
| Launcher.Registry.Register | src/lib/ulauncher/Launcher/Launcher.py:115-124 | the name now maps to the class, replacing any earlier one |
| Launcher.Registry.RegisteredNames | src/lib/ulauncher/Launcher/Launcher.py:126-131 | exactly the registered names |
| Launcher.Registry.Create | src/lib/ulauncher/Launcher/Launcher.py:102-113 | succeeds exactly for a registered name; otherwise `LauncherNotRegisteredError` |
| Loader.Enabled | src/lib/ulauncher/Loader/Loader.py:87-89 | an addon is enabled exactly when it has an `enabled` option whose value is not null, false, zero, empty text, an empty list or an empty object |
| Loader.FinalTables | src/lib/ulauncher/Loader/Loader.py:77-93 | the final tables are well formed and are the software's tables with the layers of the counted addons merged over them, in addon order |
| Loader.Layers | src/lib/ulauncher/Loader/Loader.py:83-93 | folding addon layers keeps the tables well formed |
| Loader.SkippedAddon | src/lib/ulauncher/Loader/Loader.py:86-93 | an addon that is not enabled or has no modifier adds nothing |
| Loader.LayersOfEnabledOnly | src/lib/ulauncher/Loader/Loader.py:83-93 | folding every addon gives the same tables as folding only the counted ones, in addon order |
| Loader.Counted | src/lib/ulauncher/Loader/Loader.py:85-92 | the counted addons are exactly the enabled ones that have a modifier |
| Loader.OneEnabledOneNot | src/lib/ulauncher/Loader/Loader.py:77-93 | with an enabled addon that has a modifier followed by a disabled one, the final tables are the software's merged with the enabled one's |
| Loader.PrependedAhead | src/lib/ulauncher/Loader/Loader.py:80-93 | an addon modifier prepending `x` to `P`, merged over a software modifier prepending `s` to `P`, puts `x` ahead of `s` |
| Loader.EnabledAndDisabledExample | src/lib/ulauncher/Loader/Loader.py:77-93 | of an enabled and a disabled addon, only the enabled one's prepend lands, ahead of the software's |
| Loader.Loader.constructor | src/lib/ulauncher/Loader/Loader.py:19-27 | no type, no configuration, an empty software modifier and no addon modifiers |
| Loader.Loader.SetLauncherType | src/lib/ulauncher/Loader/Loader.py:35-42 | only a string is accepted; anything else fails the assertion and changes nothing |
| Loader.Loader.SetLauncherConfig | src/lib/ulauncher/Loader/Loader.py:44-48 | the last value set for a name wins |
| Loader.Loader.SetAddonEnvModifier | src/lib/ulauncher/Loader/Loader.py:50-60 | the last modifier set for an addon wins |
| Loader.ModelsUpdate | src/lib/ulauncher/Loader/Loader.py:50-60 | storing a modifier under an addon name stores its tables under that name and changes no other addon's |
| Loader.Loader.CreateLauncher | src/lib/ulauncher/Loader/Loader.py:68-100 | no type or an empty type is a `MissingLauncherTypeError`; otherwise the generation error, the registry error, or a launcher with the generated environment, the software and the configuration |
| Loader.Loader.FinalEnv | src/lib/ulauncher/Loader/Loader.py:77-98 | the environment generated over the base from the software layer and then the enabled addon layers |
| Loader.Loader.FinalEnvModifier | src/lib/ulauncher/Loader/Loader.py:77-93 | a new modifier over the base holding the software layer and then the enabled addon layers |
| Loader.Loader.SoftwareLayer | src/lib/ulauncher/Loader/Loader.py:77-80 | a new modifier over the base holding exactly the software's tables, with no other modifier changed |
| Loader.Loader.AddAddonLayer | src/lib/ulauncher/Loader/Loader.py:85-93 | an addon's tables are merged in exactly when it is enabled and has a modifier; no stored modifier changes |
| JsonLoader.UnsetAll | src/lib/ulauncher/Loader/JsonLoader.py:196-197 | the unset step fails exactly on a list or object entry; on success the unset names are the old ones plus every text entry |
| JsonLoader.ParsePrepend | src/lib/ulauncher/Loader/JsonLoader.py:143-155 | an absent section changes nothing; an object section applies `PrependAll` to its members; any other section fails with the type error of `.items()` and changes nothing |
| JsonLoader.ParseAppend | src/lib/ulauncher/Loader/JsonLoader.py:157-169 | an absent section changes nothing; an object section applies `AppendAll`; any other section is a content error and changes nothing |
| JsonLoader.ParseOverride | src/lib/ulauncher/Loader/JsonLoader.py:171-183 | an absent section changes nothing; an object section applies `OverrideAll`; any other section is a content error and changes nothing |
| JsonLoader.ParseUnset | src/lib/ulauncher/Loader/JsonLoader.py:185-197 | an absent section changes nothing; an array section is `UnsetAll` of its items; any other section is a content error and changes nothing |
| JsonLoader.ParseEnv | src/lib/ulauncher/Loader/JsonLoader.py:129-141 | an env value that is not an object is a content error and changes nothing; otherwise prepend, append, override and unset are applied in that order, the whole step passes exactly when every section passes, and the first failing section stops it with the earlier sections applied |
| JsonLoader.PrependAllEntries | src/lib/ulauncher/Loader/JsonLoader.py:154-155 | each member of a prepend section goes ahead of what was stored under its name; other names are left alone |
| JsonLoader.AppendAllEntries | src/lib/ulauncher/Loader/JsonLoader.py:168-169 | each member of an append section goes after what was stored under its name |
| JsonLoader.OverrideAllValues | src/lib/ulauncher/Loader/JsonLoader.py:182-183 | each member of an override section replaces the value stored under its name; other names keep theirs |
| JsonLoader.PrependSectionQuirk | src/lib/ulauncher/Loader/JsonLoader.py:149-155 | a non-object prepend section is a type error, while a non-object append or override section is a content error |
| JsonLoader.EarlierSectionsKept | src/lib/ulauncher/Loader/JsonLoader.py:138-141 | a failing unset section leaves the prepended values in place |
| JsonLoader.PrependAll | src/lib/ulauncher/Loader/JsonLoader.py:154-155 | only the prepend table and its names change, and its names become the old ones plus the section's |
| JsonLoader.AppendAll | src/lib/ulauncher/Loader/JsonLoader.py:168-169 | only the append table and its names change, and its names become the old ones plus the section's |
| JsonLoader.OverrideAll | src/lib/ulauncher/Loader/JsonLoader.py:182-183 | only the override table and its names change, and its names become the old ones plus the section's |
| JsonLoader.ConfigAll | src/lib/ulauncher/Loader/JsonLoader.py:93-94 | the configuration names are the old ones plus the section's |
| JsonLoader.ConfigAllValues | src/lib/ulauncher/Loader/JsonLoader.py:93-94 | each section member's value replaces the one set before; other names keep theirs |
| JsonLoader.ParseConfig | src/lib/ulauncher/Loader/JsonLoader.py:83-94 | an absent config changes nothing; a non-object config is a content error and changes nothing; an object sets each member with `ConfigAll`, and nothing but the configuration changes |
| JsonLoader.ParseSoftwareEnv | src/lib/ulauncher/Loader/JsonLoader.py:96-103 | an absent env changes nothing; a present one gives the software tables and the outcome of `ParseEnv` on them, and nothing else changes |
| JsonLoader.AddonStep | src/lib/ulauncher/Loader/JsonLoader.py:118-127 | a non-object addon is a content error; an addon without env passes and registers nothing; one with env registers the tables its env parses into on an empty modifier under its name, or fails with the parse error and registers nothing; it passes exactly when `AddonPasses` holds |
| JsonLoader.AddonsAll | src/lib/ulauncher/Loader/JsonLoader.py:116-127 | the loop passes exactly when every addon passes; only the addons change, and only under names the section holds |
| JsonLoader.ParseAddons | src/lib/ulauncher/Loader/JsonLoader.py:105-127 | an absent section changes nothing; a non-object section is a content error and changes nothing; an object section is the addon loop over its members |
| JsonLoader.AddonsAllStops | src/lib/ulauncher/Loader/JsonLoader.py:116-127 | the loop stops at the first addon that does not pass, with that addon's outcome and the addons before it registered |
| JsonLoader.AddonsAllRegisters | src/lib/ulauncher/Loader/JsonLoader.py:116-127 | when the loop passes, every addon with an env is registered under its name with the tables its env parses into on an empty modifier, and every other name is left as it was |
| JsonLoader.AddonsWithoutEnv | src/lib/ulauncher/Loader/JsonLoader.py:123 | addons without an env register nothing |
| JsonLoader.FailingAddonNotRegistered | src/lib/ulauncher/Loader/JsonLoader.py:123-127 | an addon whose env fails is not registered, and an earlier addon keeps its registration |
| JsonLoader.Load | src/lib/ulauncher/Loader/JsonLoader.py:57-71 | a non-object root, a missing type and a non-string type each fail with the state unchanged; a string type is set and then the config, env and addons sections are loaded as `LoadSections` gives; any change sets the type from the document |
| JsonLoader.LoadSections | src/lib/ulauncher/Loader/JsonLoader.py:69-71 | the config, env and addons steps run in that order; the load passes exactly when all three pass; the first failing step stops it with the earlier steps applied; the launcher type never changes |
| JsonLoader.ConfigReplacesPreset | src/lib/ulauncher/Loader/JsonLoader.py:93-94 | a configuration value in the document replaces one set before, such as a preset `args` |
| JsonLoader.FailureKeepsEarlierSteps | src/lib/ulauncher/Loader/JsonLoader.py:67-70 | a failing env section leaves the type and configuration set and the earlier env sections applied |
| JsonLoader.ParsePrependInto | src/lib/ulauncher/Loader/JsonLoader.py:143-155 | the modifier ends with the tables of the prepend step |
| JsonLoader.ParseAppendInto | src/lib/ulauncher/Loader/JsonLoader.py:157-169 | the modifier ends with the tables of the append step |
| JsonLoader.ParseOverrideInto | src/lib/ulauncher/Loader/JsonLoader.py:171-183 | the modifier ends with the tables of the override step |
| JsonLoader.ParseUnsetInto | src/lib/ulauncher/Loader/JsonLoader.py:185-197 | the modifier ends with the tables of the unset step |
| JsonLoader.ParseEnvInto | src/lib/ulauncher/Loader/JsonLoader.py:129-141 | the modifier ends with the tables of `ParseEnv` |
| JsonLoader.ParseConfigContents | src/lib/ulauncher/Loader/JsonLoader.py:83-94 | the loader ends in the state of the config step |
| JsonLoader.ParseEnvContents | src/lib/ulauncher/Loader/JsonLoader.py:96-103 | the software modifier ends in the state of the env step |
| JsonLoader.ParseAddonContents | src/lib/ulauncher/Loader/JsonLoader.py:105-127 | the loader ends in the state of the addon loop |
| JsonLoader.ParseAddon | src/lib/ulauncher/Loader/JsonLoader.py:118-127 | a registered addon modifier is new, has an empty base and is the only change |
| JsonLoader.LoadFromJson | src/lib/ulauncher/Loader/JsonLoader.py:13-71 | the loader ends in the state `Load` gives for the document |
| JsonLoader.ParseSections | src/lib/ulauncher/Loader/JsonLoader.py:69-71 | the loader ends in the state `LoadSections` gives: config, env and addons in that order |

## Left out

- Process execution is modelled over a trace of completed reads: standard output lines, error lines and an interrupt. The model leaves out `Popen`, `select` over the two pipes, polling, closing the streams, `readline` and its UTF-8 decoding, and echoing every read to the program's own streams. These are I/O and scheduling.
- Shell evaluation of `$VAR` and `$(command)` is an oracle parameter. The ASCII decoding of its output is not modelled.
- `json.loads` and `loadFromJsonFile` (file reading) are out: the loader takes an already-parsed JSON value. Objects are member lists in document order, and lemmas that need distinct member names require them. The parser guarantees that.
- JSON numbers are integers; floating point is not modelled.
- `LauncherRunner.py` (filesystem checks, path joining, top-level glue) is not part of this model.
- Software and addon objects of the external versioning library are reduced to a name plus an ordered list of addons, each with an option map.
- `MatchesSafePattern`: `\w` is approximated by ASCII letters and digits; Python's Unicode word characters are not modelled.
- `EnvTables.ConvertValue`: nested lists or objects inside a stored list are modelled as a type error. Python would resolve them to their `repr` text.
- `Bin.Perform`: an executable or a truthy `cwd` that is not text is a type error in the model. In Python a number, boolean or null executable or `cwd` raises a type error in the resolver's `$` test. A list or object executable without `$` is accepted unchanged, and its printed form becomes the unquoted first word of the shell line, so the launch goes ahead. A list or object `cwd` fails only when the process is started.
- `JsonLoader.UnsetAll`: an unset entry that is a number, boolean or null is skipped. Python adds it to the set, where it can never match a variable name, so generation is the same.
- `EnvModifier.EnvModifier.UnsetVarNames`: returns the set; Python returns its elements as a list in no particular order.
- Aliasing is not modelled:
  - Override values stored by reference are not shared with the JSON document or with other modifiers, so a list written back by one `generate` does not reach them.
  - `Loader.Loader.SetAddonEnvModifier` requires the addon modifier to be a different object from the software modifier.
- `Launcher.software()` returning nothing, the base `_perform` raising `NotImplemented`, and Python 2/3 string shims are not modelled.
- `Launcher.Launcher.Run`: the `isinstance(ProcessExecution)` assertion always holds in the model, because `Perform` returns a process or an error.
