# clip — a verified model of its command-line parser

clip is a small Python library for building command-line applications with
decorators: `@app.main()` declares the main command, `@clip.arg`, `@clip.opt`
and `@clip.flag` attach parameters, and `@cmd.subcommand()` nests commands.
`App.run(tokens)` expands clustered short options (`-ab` to `-a -b`), parses
the tokens into a nested mapping, invokes the command functions with it and
resets the application so it can be used again.

This project models that core in Dafny:

- `Py` — the Python built-ins the parser relies on, with Python semantics:
  clamped and negative-index slicing, `startswith`, `replace`, ASCII `lower`,
  `reverse`.
- `Glob` — the pre-parse expansion of clustered short options.
- `Values` — parse results (a JSON-like value) and one error per raise site that
  the model reaches.
- `Parameter` — Argument, Option and Flag: name derivation, construction and
  the token slicing of `consume`.
- `Command` — the command tree as an arena (parameters and commands stored
  once, referred to by index) and the meaning of `Command.parse`,
  `Command.invoke` and `Command.reset` as functions.
- `Clip` — class `App`, which keeps the mutable state in place (the arena,
  each parameter's `satisfied` flag, the main command, and a log of calls into
  host code). Its methods are written with loops as in the source and are
  proved to compute the functions of `Command`.
- `TreeFacts`, `ParseFacts`, `ResultFacts`, `StepFacts`, `InvokeFacts` — what
  parsing and invoking guarantee, proved for all inputs.
- `KitchenSink` — the application of the library's own test suite. It is built
  with the `App` methods. Both token orders of the parse test give the
  expected mapping, and `run` calls both command functions with the expected
  arguments and leaves every flag reset.

Callbacks are not executed. A parameter callback (from `post_consume`) and a
command function call (from `invoke`) each append an `Event` to the log, in
the order the source makes them.

## Model

| member | source | states |
|---|---|---|
| Py.SliceIndex | clip.py:237 | Where a slice bound lands: within the sequence, equal to n when 0 <= n <= len, counted from the end when -len <= n < 0, clamped to len above the end and to 0 below the start |
| Py.TakeDrop | clip.py:275-277 | `tokens[:n] + tokens[n:] == tokens` for every integer n, however far out of range |
| Py.Lower | clip.py:271 | `lower()` keeps the length and maps each character by Py.LowerChar, which lower-cases the ASCII letters `A`-`Z` and keeps every other character |
| Py.Replace | clip.py:271 | `replace('-', '_')` keeps the length and swaps exactly the matching characters |
| Py.Reverse | clip.py:305 | `reverse()` keeps the length, and element i is element len-1-i of the input |
| Py.StartsWithChars | clip.py:475 | A prefix test of one or two characters compares the leading characters |
| Glob.IsGlobbedChars | clip.py:474-475 | A token is a cluster iff it is longer than two characters, starts with a dash and its second character is not a dash |
| Glob.Shorts | clip.py:476 | The expansion of a cluster's characters: one `-c` per character, in order |
| Glob.ExpandTokenShape | clip.py:476 | A cluster becomes one `-c` per character after its dash, in order, and gluing these back gives the cluster; any other token passes through alone |
| Glob.ClusterShorts | clip.py:476 | Gluing the expansion of a character list back together gives the dash followed by those characters |
| Glob.ExpandAppend | clip.py:476-479 | Expansion distributes over concatenation, so input order is kept |
| Glob.ExpandedNotGlobbed | clip.py:474-479 | No token left after expansion is a cluster |
| Glob.ExpandUnglobbed | clip.py:476-479 | A token list with no cluster is left unchanged |
| Glob.ExpandIdempotent | clip.py:474-479 | Expanding twice is the same as expanding once |
| Parameter.ArgumentName | clip.py:230-233 | Succeeds iff there is exactly one declaration, which becomes the name; otherwise fails with the declaration count |
| Parameter.LongestIndex | clip.py:270 | The stable sort picks a longest declaration, with every later one strictly shorter |
| Parameter.LongestIndexUnique | clip.py:270 | Those two properties determine the index, so it is the last of the longest declarations |
| Parameter.OptionName | clip.py:268-271 | Succeeds iff there is at least one declaration |
| Parameter.OptionNameShape | clip.py:268-271 | Longest declaration over two characters: drop 2, dashes to underscores, lower case, so no dash or capital remains. Otherwise drop 1 character |
| Parameter.DerivedName | clip.py:271 | Replace-then-lower is the per-character name mapping |
| Parameter.ParamName | clip.py:179 | An explicit non-empty name wins; otherwise Argument or Option name derivation |
| Parameter.MakeParam | clip.py:175-188 | The constructor succeeds iff the name does; it keeps every attribute, and a Flag's default is always False |
| Parameter.HelpFlagIsAFlag | clip.py:332 | The help flag is the Flag that `('-h', '--help')` builds: name `help`, hidden, with a callback |
| Parameter.Slice | clip.py:235-239 | With n the width (all tokens for nargs -1): a Flag takes nothing and yields True. Otherwise the prefix `tokens[:n]` is removed and the rest is `tokens[n:]`. The value is a list if n > 1, else the first token. An empty slice fails |
| Command.Scan | clip.py:341-376 | Specification of pass 1: a subcommand name hands over the rest; a dash token goes to its first declaring parameter or is dropped; a word fills the first free Argument or fails with WeirdToken. It keeps the length of the satisfied flags; its properties are the ParseFacts, ResultFacts and StepFacts lemmas |
| Command.Parse | clip.py:341-376 | `Command.parse`: Scan from an empty mapping. Clip.App.ParseCommand is proved to compute it |
| Command.Finish | clip.py:373-376 | The end of a parse: pass 2's defaults laid over what was stored (see TreeFacts.DefaultsKeys, DefaultsLast) |
| Command.Defaults | clip.py:374 | Pass 2: unsatisfied, non-hidden parameters to their defaults, the last one winning (TreeFacts.DefaultsKeys, DefaultsLast, DefaultsAgree) |
| Command.Store | clip.py:357-366 | A consumed value is stored under the parameter's name unless the parameter is hidden |
| Command.Notify | clip.py:219-220 | The callback of `post_consume`: logged only when the parameter has one |
| Command.ReachableParams | clip.py:386-392 | What `Command.reset` clears: own parameters and, recursively, every registered subcommand's (TreeFacts.OwnReachable, SubReachable; Clip.App.ResetCommand) |
| Command.SubtreeParams | clip.py:391-392 | The recursion of `reset` over the registered subcommands |
| Glob.IsGlobbed | clip.py:474-475 | `is_globbed`: longer than two, starts with one dash but not two (Glob.IsGlobbedChars) |
| Glob.ExpandToken | clip.py:476 | One token's expansion: `-c` per character after the dash for a cluster, else the token alone (Glob.ExpandTokenShape) |
| Glob.Expand | clip.py:476-479 | The flattened expansion of all tokens, in order (Glob.ExpandAppend, ExpandedNotGlobbed, ExpandUnglobbed, ExpandIdempotent) |
| Glob.Cluster | clip.py:476 | The inverse of a cluster's expansion: the dash followed by each short's character (Glob.ClusterShorts) |
| Parameter.Width | clip.py:236 | `n = len(tokens) if nargs == -1 else nargs` |
| Parameter.HelpFlag | clip.py:332 | The hidden help flag, first parameter of every command (Parameter.HelpFlagIsAFlag) |
| Parameter.NameChar | clip.py:271 | One character of a derived option name: dash to underscore, then lower case (Parameter.DerivedName) |
| Clip.CommandName | clip.py:309 | `name or f.__name__.lower()` |
| Py.Take | clip.py:237 | `s[:n]` with Python's clamping and negative indexes (Py.SliceIndex, TakeDrop) |
| Py.Drop | clip.py:239 | `s[n:]` with Python's clamping and negative indexes (Py.SliceIndex, TakeDrop) |
| Py.StartsWith | clip.py:353 | `s.startswith(prefix)` (Py.StartsWithChars) |
| Command.FirstDeclaring | clip.py:353-359 | The first parameter, in declaration order, that declares the token, or none |
| Command.FirstOpenArgument | clip.py:361-367 | The first unsatisfied Argument, in declaration order, or none |
| Command.OwnArgs | clip.py:380 | The callback arguments are exactly the entries whose key is not a subcommand name |
| Command.Invoke | clip.py:378-384 | The command's own function is called first, with its own arguments, before anything else is logged |
| Command.InvokeSubs | clip.py:382-384 | The subcommand loop only appends to the log |
| Clip.CommandParams | clip.py:300-309 | The help flag comes first, then the decorator parameters in reverse application order |
| Clip.NewCommand | clip.py:323-332 | A new command carries its given or lower-cased function name, occupies the arena slots `first`, `first + 1`, ... in order, one per parameter, and has no subcommands |
| Clip.Register | clip.py:337 | Registering keeps name and parameters and maps the key to the new command. Registration order only grows, and it stays in step with the map |
| Clip.FindDeclaring | clip.py:354-359 | The loop finds the parameter the specification function names |
| Clip.FindOpenArgument | clip.py:362-367 | The loop finds the Argument the specification function names |
| Clip.App.constructor | clip.py:441-445 | A new application has no commands and no main command |
| Clip.App.AddCommand | clip.py:300-309 | Appends the command's parameters, unsatisfied, and one new command named by its name or function name, whose slots hold the help flag followed by the decorators' parameters; nothing else changes |
| Clip.App.RegisterMain | clip.py:447-454 | The first main command is registered; a second raises MainAlreadyAssigned and changes nothing |
| Clip.App.Subcommand | clip.py:334-339 | Creates the subcommand and registers it under its name in the parent |
| Clip.App.ResetParam | clip.py:190-191 | Only this parameter's satisfied flag changes, to false |
| Clip.App.PostConsume | clip.py:216-220 | The parameter becomes satisfied; its callback, if any, is logged with the value |
| Clip.App.ConsumeParam | clip.py:273-277 | Consume is Slice followed by post_consume; a failed slice changes nothing |
| Clip.App.ParseCommand | clip.py:341-376 | The imperative parse loop computes exactly the parse function: result, satisfied flags and callbacks |
| Clip.App.InvokeCommand | clip.py:378-384 | The imperative invoke computes exactly the invoke function: calls, order and errors; the application stays well formed |
| Clip.App.ResetCommand | clip.py:386-392 | Clears exactly the parameters of the command and of every registered subcommand, taken or not; no other flag changes |
| Clip.App.Parse | clip.py:456-479 | Without a main command: NoMain. Otherwise: the main command's parse of the expanded tokens |
| Clip.App.Invoke | clip.py:481-484 | Without a main command: NoMain. Otherwise: the main command's invoke; the application stays well formed |
| Clip.App.Reset | clip.py:486-493 | Without a main command: NoMain. Otherwise: every parameter reachable from the main command is unsatisfied |
| Clip.App.Run | clip.py:495-499 | Parse, then invoke, then reset. A parse or invoke error ends the run without a reset |
| TreeFacts.DefaultsKeys | clip.py:374 | Pass 2 adds exactly the names of the unsatisfied, non-hidden parameters |
| TreeFacts.DefaultsLast | clip.py:374 | The value pass 2 gives a name is the default of the last parameter with that name |
| TreeFacts.DefaultsAgree | clip.py:374 | Pass 2 reads only the satisfied flags of the command's own parameters |
| TreeFacts.FirstOpenArgumentAgree | clip.py:362-363 | The choice of the next free Argument reads only the command's own flags |
| TreeFacts.FirstDeclaringAt | clip.py:353-359 | The search stops at the first parameter that declares the token |
| TreeFacts.FirstOpenArgumentAt | clip.py:361-367 | The search stops at the first unsatisfied Argument |
| TreeFacts.DefaultsNone | clip.py:374 | With every visible parameter satisfied, pass 2 adds nothing |
| TreeFacts.DefaultsOnly | clip.py:374 | With exactly one parameter left unsatisfied, pass 2 adds just its name and default |
| TreeFacts.OwnReachable | clip.py:388-389 | A command's reset clears its own parameters |
| TreeFacts.SubReachable | clip.py:391-392 | A command's reset clears everything a subcommand's reset clears |
| TreeFacts.SubtreeHas | clip.py:391-392 | Every listed subcommand's parameters are in the subtree set |
| TreeFacts.ReachableOwner | clip.py:386-392 | A parameter reset from a command belongs to it or to a later command |
| TreeFacts.SubtreeOwner | clip.py:391-392 | A parameter reset through a subcommand belongs to a later command |
| TreeFacts.ParentOutOfReach | clip.py:349-350 | A parent's parameters lie outside the reach of its subcommands' parse and reset |
| ParseFacts.ScanLogGrows | clip.py:216-220 | Parsing only appends callbacks to the log |
| ParseFacts.StepLogGrows | clip.py:356 | One consuming step only appends to the log |
| ParseFacts.ScanFrame | clip.py:341-376 | Parsing a command changes no satisfied flag outside the parameters its reset clears |
| ParseFacts.ScanAgree | clip.py:341-376 | Parsing reads only the flags its reset clears. States that agree there give the same result and callbacks, and still agree there afterwards |
| ParseFacts.ScanAgreeSub | clip.py:349-351 | At a subcommand name, agreement of the subcommand's parse carries over to the parent's result |
| ParseFacts.ReuseAfterReset | clip.py:486-493 | After a reset, a parse gives the same result and callbacks as on a fresh application |
| ResultFacts.FinishShape | clip.py:374-376 | The final mapping has every visible name, plus at most one other key, which is a subcommand name |
| ResultFacts.ResultKeys | clip.py:341-376 | Every non-hidden parameter name is a key; at most one other key, a subcommand name (ResultFacts.Handoff names it); hidden parameters never appear |
| ResultFacts.ScanKeys | clip.py:346-376 | The key shape holds from any point of the scan |
| ResultFacts.StepKeys | clip.py:356-358 | A consuming step keeps stored names covered and adds only parameter names |
| ResultFacts.ResultValues | clip.py:341-376 | A visible parameter whose name nothing else in the command uses, unsatisfied at the start, maps in the result to its default if it was never matched, and otherwise to the value it consumed from some suffix of the input tokens |
| ResultFacts.ScanValue | clip.py:346-376 | The value fact holds from any point of the scan |
| ResultFacts.FlagResult | clip.py:290-293 | A flag with a unique name maps to True exactly when matched, else False |
| ResultFacts.Handoff | clip.py:349-351 | A subcommand name is checked first and gets all remaining tokens. The parent reads no further token and its own flags are unchanged. Its result holds the subcommand's result under its name, plus its own defaults |
| ResultFacts.HandoffStored | clip.py:350 | The subcommand's result is stored under its name unless a parent parameter shares that name |
| ResultFacts.WeirdTokenOrigin | clip.py:368-371 | A weird-token failure names an input token that does not start with a dash |
| StepFacts.UnknownDashDropped | clip.py:353-359 | A dash token that no parameter declares is silently dropped |
| StepFacts.DeclaredConsumes | clip.py:353-359 | A dash token goes to the first parameter declaring it, at any width: on a non-empty slice the parameter is satisfied, its value stored and its callback logged, and parsing goes on with the tokens after the slice; on an empty slice the parse fails with IndexOutOfRange and no state changes |
| StepFacts.OptionRematched | clip.py:353-359 | An already satisfied option is matched again, at any width: it stays satisfied and its new value overwrites the old; an empty slice fails with IndexOutOfRange |
| StepFacts.PositionalFills | clip.py:361-367 | A plain token fills the first unsatisfied Argument, at any width (also `nargs=-1`), taking the slice from that token on; an empty slice fails with IndexOutOfRange and no state changes |
| StepFacts.NoOpenArgument | clip.py:368-371 | With no free Argument, a plain token fails the parse with WeirdToken naming it, and no state changes |
| InvokeFacts.InvokeSubsNone | clip.py:382-384 | Subcommands absent from the result are not invoked |
| InvokeFacts.InvokeSubsOne | clip.py:382-384 | With one subcommand key present, the loop is exactly that subcommand's invoke |
| InvokeFacts.InvokeParentThenChild | clip.py:378-384 | The parent's function runs with its own arguments, then the child's invoke with the nested mapping |
| InvokeFacts.InvokeLeaf | clip.py:378-380 | With no subcommand key, only the command's own function is called, with the whole mapping |
| KitchenSink.SinkValid | test.py:17-37 | The test application's tree is well formed |
| KitchenSink.ClusterExpand | test.py:55 | `-ab` expands to `-a -b` |
| KitchenSink.ClusteredExpand | test.py:55 | The first command line expands to the cluster split into `-a -b`, with every other token unchanged |
| KitchenSink.ClusteredParse | test.py:42-59 | The clustered token order parses to the expected nested mapping |
| KitchenSink.SpreadParse | test.py:42-59 | The spread-out token order parses to the same mapping |
| KitchenSink.SinkInvoke | test.py:64-67 | Invoking calls `a` with its four values, then `b` with its three |
| KitchenSink.SinkReachable | test.py:64-65 | Resetting the main command clears every parameter of the application |
| KitchenSink.SinkDeclared | test.py:23-33 | Each decorator builds its parameter, with the name taken from the longest declaration (dashes to underscores, lower-cased) or given explicitly, and the width the decorator gives (1, or -1 for `args`) |
| KitchenSink.BuildSink | test.py:17-37 | The decorator calls build exactly the test tree, with nothing satisfied |
| KitchenSink.SinkRun | test.py:65 | On the first command line, the main command's parse succeeds with the expected mapping and its invoke calls `a`, then `b` |
| KitchenSink.RunSink | test.py:64-67 | `run` on the test input calls both functions as expected and leaves every flag reset |

## Left out

- Output: `echo`, the stdout/stderr streams, `exit` and `ClipExit` are not modelled.
  `App.__init__` is modelled without its stream arguments.
- `Command.help`: the help flag's callback is logged as an event like any other callback. The help text it prints is not modelled; it returns without exiting, so parsing goes on after it, as in the model.
- Decorator plumbing (`_memoize_param`, `command`, `__clip_params__`) is modelled by its effect. `CommandParams` receives the parameters in application order. A parameter decorator applied on top of an existing Command, which appends instead, is not modelled.
- `sys.argv`: `run` takes its tokens explicitly.
- The attributes `type`, `required`, `help`, `description` and `epilogue`: clip stores them but never uses them while parsing.
- Callables as defaults and `**kwargs` are not modelled. Callbacks are replaced by an event log.
- Values.Value: a default is `None`, a string, a list of strings, a boolean or a nested mapping. Defaults of other Python types (`default=3`, objects) are not modelled; the parser only copies a default into the result, so no branch depends on its type.
- `_make_command` raises TypeError when the function is already a Command (clip.py:302). The model builds commands only from parameter lists, so it never reaches that case, and Values.Error has no constructor for it.
- Glob.Expand: tokens are sequences of Unicode code points. Under Python 2, argv tokens are byte strings, so a cluster holding a multi-byte character is split into single bytes, and a token such as `-é` is a cluster there. The model splits per character instead.
- Py.Lower: lower-cases ASCII letters only, because Python's Unicode case mapping is not modelled.
- Clip.App.InvokeCommand: subcommands are visited in registration order, where Python visits the keys of the parse result in dict order, which Python 2 leaves unspecified. A parse result holds at most one key that is not a parameter name (ResultFacts.ResultKeys), but a parameter may share its name with a subcommand. With an option `--y` beside subcommands `x` and `y`, parsing `x` stores both `x` (nested) and `y` (the option's default). Invoking that result fails on `y`, and the visiting order decides whether `x`'s function runs before the failure.
- Command.Invoke: a non-mapping value under a subcommand's key becomes the NotAMapping error. In Python the subcommand's `invoke` fails on it with an AttributeError.
- An application without a main command: `App.parse`, `invoke` and `reset` before `App.main` give the NoMain error, where Python fails on `None`.
- Where the library's prose and the code disagree, the model follows the code:
  - a dash token that no parameter declares is dropped silently;
  - an option given twice is matched again and keeps the last value;
  - an `nargs=-1` parameter given a single token yields that token, not a list;
  - an `nargs` greater than one with too few tokens yields the shorter list, not an error;
  - `run` does not reset after an error;
  - `run` returns nothing.
- The Python 2/3 compatibility shim and the module-level globals are not modelled.
