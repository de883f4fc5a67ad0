# arghandler, modelled in Dafny

`arghandler` is a thin layer over Python's `argparse` for programs with
subcommands (`prog <command> <args…>`). Commands are registered either through
the `@subcmd` decorator, which fills a process-wide registry, or by giving an
`ArgumentHandler` an explicit table with `set_subcommands`. The handler can also
set up a logging-level option with `set_logging_argument`. `parse_args`
merges the registered commands into the table, declares a `cmd` positional
(choices: the command names; help: a generated listing) and a `cargs`
positional that swallows the rest of the line. `run` parses, configures
logging from the parsed level name, builds the context and calls the chosen
command's handler with a sub-parser, the context and the remaining arguments.

This project models `arghandler/base.py`:

- `values.dfy` (`Values`): the data model. Handlers are opaque values.
  Arbitrary Python values that the code type-checks are a sum type `Obj`.
  Each Python exception the code can raise is a constructor of `Error`. An
  operation's outcome is `Result`/`Outcome`.
- `log_levels.dfy` (`LogLevels`): the table from numeric level to level name,
  and the logging module's named constants that `run` looks a name up in.
- `naming.dfy` (`Naming`): how the attribute name of the logging option is
  derived from its spellings.
- `help_text.dfy` (`HelpText`): Python's ordering of strings, `sorted`, `max`,
  `str.ljust`, and the loop that renders the listing of commands.
- `subcommand_table.dfy` (`SubcommandTable`): a functional description of the
  validation-and-copy loop of `set_subcommands`, including the partial state
  it leaves behind when an item raises.
- `registry.dfy` (`Registry`): the registry as a class with two map fields.
- `handler.dfy` (`ArgHandler`): `ArgumentHandler` as a class with the
  handler's fields. Its methods follow the source's methods, with loops where
  the source loops.

The argument-parsing engine is an oracle. The handler records every
declaration it makes in a `declarations` field. The record the engine
returns for a command line is a parameter of `ParseArgs` and `Run`. That
record is unconstrained, so the model also states what happens when it lacks
an attribute (AttributeError) or names an unknown command (KeyError).
Calls to the configuration callback and to command handlers are returned as
a list of effects instead of being performed.

Three places where the code does something other than its own
documentation suggests are modelled as the code behaves:

- The docstring of `set_subcommands` (`arghandler/base.py` lines 186-190)
  says explicit and registered commands are combined. On a name clash the
  merge loop of `parse_args` (lines 227-229) lets the registered command win.
- `parse_args` raises "can only be called once" when `_has_parsed` is set
  (line 222), but after parsing it sets `_has_parse` (line 258). The check
  therefore never fires (`SecondParseIsNotRejected`). The handler's own
  bookkeeping raises nothing on a second parse, and it declares `cmd` and
  `cargs` again (`SecondParseSucceedsAgain`). The engine would then hold two
  copies of each.
- `_ignore_remainder` starts false (line 102) and nothing sets it, so the
  branch of `add_argument` that switches subcommands off (lines 176-177)
  can never run. It is modelled as written.

## Model

| member | source | states |
|---|---|---|
| Registry.SubcommandRegistry.constructor | arghandler/base.py:39-40 | both registry tables start empty |
| Registry.SubcommandRegistry.Register | arghandler/base.py:54-64 | the given name, or else the function's own, maps to the function and to the `help` keyword (empty string when absent); an earlier entry of that name is replaced, every other name keeps its entry, the `help` keyword is removed from the keyword dictionary, and the function is returned unchanged |
| Registry.ReusedDecoratorLosesHelp | arghandler/base.py:49-62 | a decorator made once with a `help` keyword and applied to two functions under one name records that help for the first and the empty string for the second, which ends up registered |
| Registry.SubcommandRegistry.Reset | arghandler/base.py:66-72 | both registry tables are empty afterwards |
| LogLevels.LevelName | arghandler/base.py:26-28 | a level has a name exactly when it is one of the five levels, and that name is one of the option's five choices |
| LogLevels.LevelValue | arghandler/base.py:287 | each of the five choices is a logging constant whose level is named by that choice |
| LogLevels.LevelNamesInjective | arghandler/base.py:26-28 | no two levels share a name |
| LogLevels.LevelNamesAreChoices | arghandler/base.py:26-28 | the table's names are exactly the five choices declared for the option |
| LogLevels.LevelRoundTrip | arghandler/base.py:283-290 | naming a level and looking the name up gives the level back; every choice names the level it is looked up to |
| Naming.StripDashes | arghandler/base.py:151 | the result has no dash and is no longer than the spelling |
| Naming.StripDashesCounts | arghandler/base.py:151 | every other character is kept as often as it occurs, so the result is shorter by exactly the number of dashes |
| Naming.StripDashesAppend | arghandler/base.py:151 | removing dashes from a concatenation concatenates the results, so the kept characters stay in order |
| Naming.LongestIsEarliestMaximum | arghandler/base.py:146-155 | the derived name is a longest dash-stripped spelling, the empty string when there are none, and among equally long ones the earliest |
| ArgHandler.ArgumentHandler.constructor | arghandler/base.py:80-114 | the initial state: no logging option, subcommands and merging on, empty tables, nothing parsed, nothing declared by the handler |
| ArgHandler.ArgumentHandler.IgnoreSubcommands | arghandler/base.py:116-120 | subcommands are off afterwards |
| ArgHandler.ArgumentHandler.AddArgument | arghandler/base.py:170-179 | the declaration is appended; subcommands stay on unless trailing positionals are being ignored and the declaration takes all remaining tokens |
| ArgHandler.ArgumentHandler.SetLoggingArgument | arghandler/base.py:122-168 | leftover keywords or a spelling without a leading dash raise ValueError with nothing changed; otherwise the attribute name becomes the derived name, an unknown default level then raises ValueError with only that field changed, and on success the callback is stored and the option is declared with the five choices and the default level's name |
| ArgHandler.ArgumentHandler.SetSubcommands | arghandler/base.py:181-214 | a non-dict raises TypeError with nothing changed; otherwise the tables are whatever loading the items into empty tables leaves, the outcome is that loading's exception or success, and the merge flag changes only on success |
| SubcommandTable.Raise | arghandler/base.py:199-208 | a non-string key raises TypeError naming the key; a value that is not callable (bare, or as a tuple's first element) raises TypeError naming the command; an empty tuple, or a one-element tuple of a callable, raises IndexError, the latter after storing its handler without a help entry; the help table is left exactly as it was, and the lookup table too except for that one stored handler |
| SubcommandTable.LoadSucceedsIff | arghandler/base.py:198-211 | loading raises exactly when some item has a non-string key or an unaccepted value |
| SubcommandTable.LoadOnSuccess | arghandler/base.py:198-213 | when every item is accepted, both tables gain exactly the items' keys, each mapped to its handler and its help (empty string for a bare handler, the tuple's second element otherwise), and other names keep their entries |
| SubcommandTable.LoadFailsAtFirstBadEntry | arghandler/base.py:198-211 | when loading raises, it raises for the first offending item, on the tables the items before it built |
| ArgHandler.ArgumentHandler.MergeRegistered | arghandler/base.py:225-229 | afterwards each table is the old table overlaid with the registry's table: registered names overwrite, other explicit names survive |
| HelpText.Sorted | arghandler/base.py:242 | the result lists every command name once, in strictly increasing string order |
| HelpText.SortedEnumerationUnique | arghandler/base.py:242 | any strictly increasing listing of the names is the sorted one |
| HelpText.SortedAllText | arghandler/base.py:242-244 | rendering the sorted names needs exactly that every command's help exists and is a string |
| HelpText.MaxLen | arghandler/base.py:238 | the result is the length of some name and no name is longer |
| HelpText.LJust | arghandler/base.py:243 | the result starts with the text, is padded with spaces only, and is as long as the width or the text, whichever is longer |
| HelpText.RenderSubcommandHelp | arghandler/base.py:239-245 | succeeds exactly when every name has a string help, then yields a newline followed by one line per name in order; otherwise fails with KeyError or TypeError at the first name whose help is missing or not a string |
| HelpText.OneLinePerCommand | arghandler/base.py:241-245 | when names and helps contain no newline, the listing has exactly one newline per command |
| HelpText.NameColumnAligned | arghandler/base.py:238-245 | every line starts with its name followed by spaces, and every help starts in the same column, two past the longest name |
| ArgHandler.RenderCmdHelp | arghandler/base.py:238-245 | the help of `cmd` is the fixed sentence when the listing is off, the sorted listing when every help is a string, and otherwise an error naming a command whose help is missing or not a string |
| ArgHandler.ArgumentHandler.SubcommandDeclarations | arghandler/base.py:246-249 | `cmd` is declared with the table's names as choices, then `cargs` takes all remaining tokens |
| ArgHandler.ArgumentHandler.DeclareSubcommands | arghandler/base.py:237-249 | succeeds exactly when the listing renders, then appends the `cmd` and `cargs` declarations; on failure nothing is declared |
| ArgHandler.ArgumentHandler.ParseArgs | arghandler/base.py:216-260 | registered commands are merged in when the merge flag is on; an empty table switches subcommands off and declares nothing; otherwise `cmd` and `cargs` are declared, and parsing fails only when the listing cannot be rendered, and then the parsed flag stays as it was; subcommands never switch back on |
| ArgHandler.ArgumentHandler.Dispatch | arghandler/base.py:282-304 | logging is configured first and only when the attribute name is non-empty, with the level the parsed name stands for; the context function, when given, is called on the record after that and before any handler; at most one handler is called, as the last effect and only when subcommands are on, namely the table's handler for `cmd` with the sub-parser's name, the context and `cargs` unchanged; a conforming record is returned unchanged |
| ArgHandler.ArgumentHandler.Run | arghandler/base.py:262-304 | a failed parse calls nothing; otherwise the result is the dispatch on the state parsing left, where subcommands stay on (unless trailing positionals are ignored) and `cmd` and `cargs` are declared exactly when the table is non-empty and subcommands were on; an empty table means no handler is called |
| ArgHandler.ExplicitCommandIsDispatched | arghandler/base.py:262-302 | after `set_subcommands` with one explicit command and the registry left out, `run` on a record naming that command succeeds and its only effect is the call of that command's handler with `"<prog> <cmd>"`, the whole record as context and `cargs` |
| ArgHandler.SecondParseIsNotRejected | arghandler/base.py:222-258 | a fresh handler parsed twice never fails as a repeated parse |
| ArgHandler.ArgumentHandler.ParseFresh | arghandler/base.py:216-260 | parsing a fresh handler: the table becomes the registry's, subcommands stay on exactly when it is non-empty, parsing succeeds exactly when the table is empty or its listing renders, and `cmd` and `cargs` are then the only declarations |
| ArgHandler.ArgumentHandler.ParseAgain | arghandler/base.py:216-260 | parsing again in the state a successful parse leaves succeeds, keeps the tables, and declares `cmd` and `cargs` once more when subcommands are on |
| ArgHandler.SecondParseSucceedsAgain | arghandler/base.py:222-258 | the handler's own bookkeeping raises nothing on a second parse after a successful one, and the declarations are then `cmd` and `cargs` twice (or none when subcommands are off) |

## Left out

- The argument-parsing engine: tokenising, choice enforcement, capturing the remaining tokens, usage and error printing, and exiting on bad input. Declarations are recorded, not checked. For example, the engine's refusal of a logging option with no spellings is not modelled.
- ArgHandler.ArgumentHandler.ParseArgs: the choices of `cmd` are recorded as a snapshot of the table's names. In the source they are a live view of the table's keys, which a later merge grows in place. After a second parse with a grown registry, the earlier `cmd` declaration offers the new names too; the recorded snapshot does not.
- The order of the choices of `cmd` and of the logging option: the model records them as sets. The declared order of the level names is `LevelChoices`.
- The `-h/--help` option that the engine's own initialisation declares through `add_argument`: `declarations` holds only what the handler declares.
- What the engine does with `cmd` and `cargs` declared twice after a second parse: it would expect two command tokens. The model records the doubled declarations but not their effect on parsing.
- The value the context function returns: it is an abstract value, and only the call and its place among the other calls are recorded.
- The engine turns `--log-level` into the attribute `log_level`, but `set_logging_argument` strips every dash and reads `loglevel`. The engine's naming rule is not part of this model, so this mismatch is not captured. The parsed record is taken as given.
- Autocompletion through `argcomplete`: an external library that may end the process.
- `logging.basicConfig` in `default_log_config`: the callback is an abstract value, and calling it is recorded as an effect.
- The two `eval` calls in `run` are replaced by lookups in the parsed record and in a table of the logging module's level constants. Other `eval` outcomes, such as a name that is a logging attribute but not a level, or a syntax error, are not modelled.
- The `inspect.isfunction` plumbing of the `subcmd` decorator: `Register` takes the optional name and the decorator's keyword dictionary directly, and returns that dictionary as the shared closure holds it afterwards.
- The `callable` and `type(...)` checks are modelled as constructors of `Obj`, `Key` and `TableArg`. A configuration callback that is neither `None` nor callable is not modelled.
- The exception message texts: `Error` records the exception's kind and the offending name.
- Building the sub-parser: only its program name `"<prog> <cmd>"` is recorded.
- Exceptions raised by the context function or by a command handler: they are abstract values.
- The constructor's remaining engine arguments and the choice of help formatter.
- `setup.py`, `examples/dummy.py` and the test files are not part of this model.
