/**
 * `ArgumentHandler`: the configuration it accumulates before parsing
 * (logging option, subcommand table, flags), the bookkeeping of
 * `parse_args` (merging registered commands, deciding whether subcommands
 * are active, declaring `cmd` and `cargs`) and the dispatch done by `run`.
 *
 * The argument-parsing engine is not modelled: the handler records every
 * declaration it makes in `declarations`, and the record the engine returns
 * for the command line is passed to `ParseArgs` and `Run` as `ns`.
 */
module ArgHandler {
  import opened Values
  import opened LogLevels
  import opened Naming
  import opened HelpText
  import opened SubcommandTable
  import opened Registry

  /**
   * The declaration of the logging option: its spellings, the five level
   * names as choices (as a set; their declared order is `LevelChoices`), the
   * default level's name.
   */
  function LoggingDeclaration(names: seq<string>, defaultName: string): Declaration {
    Declaration(names, Some(set n | n in LevelChoices), Some(defaultName), None, None, None)
  }

  /** The declaration of the `cmd` positional, whose choices are the command names. */
  function CmdDeclaration(commands: set<string>, helpText: string): Declaration {
    Declaration(["cmd"], Some(commands), None, None, Some(HelpString(helpText)), Some("subcommand"))
  }

  /** The declaration of the `cargs` positional, which takes every remaining token. */
  function CargsDeclaration(useSubcommandHelp: bool): Declaration {
    Declaration(["cargs"], None, None, Some(Remainder),
                Some(if useSubcommandHelp then Suppress else HelpString(CargsHelp)), None)
  }

  /** The help of `cmd`: the generic line, or the listing of the commands with their help. */
  function CmdHelp(useSubcommandHelp: bool, helps: map<string, Obj>, commands: set<string>): string
    requires useSubcommandHelp ==> HelpsAreText(commands, helps)
  {
    SortedAllText(commands, helps);
    if useSubcommandHelp then "\n" + HelpBody(Sorted(commands), helps, MaxLen(Sorted(commands)) + 2)
    else PlainHelp
  }

  /**
   * Computing the help of `cmd` as `parse_args` does: sort the names, pad
   * them to the longest plus two, and render one line per command. It fails
   * exactly when the listing is wanted and some command's help is missing or
   * not a string.
   */
  method RenderCmdHelp(useSubcommandHelp: bool, helps: map<string, Obj>, commands: set<string>) returns (r: Result<string>)
    requires commands != {}
    ensures r.Success? <==> (useSubcommandHelp ==> HelpsAreText(commands, helps))
    ensures r.Success? ==> r.value == CmdHelp(useSubcommandHelp, helps, commands)
    ensures r.Failure? ==> r.error.HelpMissing? || r.error.HelpNotAString?
    ensures r.Failure? ==> exists n :: n in commands && !(n in helps && helps[n].Text?) && r.error == HelpError(n, helps)
  {
    if !useSubcommandHelp {
      return Success(PlainHelp);
    }
    var names := Sorted(commands);
    var width := MaxLen(names) + 2;
    r := RenderSubcommandHelp(names, helps, width);
    SortedAllText(commands, helps);
    if r.Failure? {
      var i :| 0 <= i < |names| && AllText(names[..i], helps) &&
        !(names[i] in helps && helps[names[i]].Text?) && r.error == HelpError(names[i], helps);
      SortedMember(commands, i);
    }
  }

  /** The context a subcommand receives: the context function's result, or the parsed record itself. */
  function ContextOf(ns: Namespace, contextFxn: Option<Namespace -> Obj>): Context {
    if contextFxn.Some? then Derived(contextFxn.value(ns)) else WholeArgs(ns)
  }

  /** Every logging constant the record's level name can select is a known level. */
  predicate ConformingLevel(ns: Namespace, attribute: string) {
    attribute in ns.values && ns.values[attribute] in LevelChoices
  }

  /** `base` with the entries of `top` for the names in `names` laid over it. */
  ghost function Overlay<V>(base: map<string, V>, top: map<string, V>, names: set<string>): map<string, V>
    requires names <= top.Keys
  {
    map n | n in base.Keys + names :: if n in names then top[n] else base[n]
  }

  lemma OverlayStep<V>(base: map<string, V>, top: map<string, V>, names: set<string>, name: string)
    requires names <= top.Keys && name in top
    ensures Overlay(base, top, names)[name := top[name]] == Overlay(base, top, names + {name})
  {
  }

  lemma OverlayAll<V>(base: map<string, V>, top: map<string, V>)
    ensures Overlay(base, top, top.Keys) == base + top
  {
  }

  class ArgumentHandler {
    /** The program name the engine shows in usage messages. */
    const prog: string
    const useSubcommandHelp: bool
    const enableAutocompletion: bool

    /** The attribute the level name is read from; `None` until `set_logging_argument` gets that far. */
    var loggingArgument: Option<string>
    /** The stored configuration callback; `None` is Python's `None`, which is not callable. */
    var loggingConfigFxn: Option<ConfigFxn>
    /** Initialised to false and never set again. */
    var ignoreRemainder: bool
    var useSubcommands: bool
    var useRegisteredSubcmds: bool
    var subcommandLookup: map<string, Handler>
    var subcommandHelp: map<string, Obj>
    /** The flag the once-only check of `parse_args` reads; nothing ever sets it. */
    var hasParsed: bool
    /** The differently spelled flag that `parse_args` sets after parsing. */
    var hasParse: bool
    /**
     * The declarations the handler itself has made so far on the underlying
     * parser, in order. The engine's own `-h/--help` option is not recorded.
     */
    var declarations: seq<Declaration>

    /**
     * `__init__`. The keywords are passed explicitly; when a caller omits
     * them, `use_subcommand_help` is true and `enable_autocompletion` false.
     */
    constructor (prog: string, useSubcommandHelp: bool, enableAutocompletion: bool)
      ensures this.prog == prog && this.useSubcommandHelp == useSubcommandHelp
      ensures this.enableAutocompletion == enableAutocompletion
      ensures loggingArgument == None && loggingConfigFxn == None
      ensures !ignoreRemainder && useSubcommands && useRegisteredSubcmds
      ensures subcommandLookup == map[] && subcommandHelp == map[]
      ensures !hasParsed && !hasParse && declarations == []
    {
      this.prog := prog;
      this.useSubcommandHelp := useSubcommandHelp;
      this.enableAutocompletion := enableAutocompletion;
      loggingArgument := None;
      loggingConfigFxn := None;
      ignoreRemainder := false;
      useSubcommands := true;
      useRegisteredSubcmds := true;
      subcommandLookup := map[];
      subcommandHelp := map[];
      hasParsed := false;
      hasParse := false;
      declarations := [];
    }

    /** `ignore_subcommands`: subcommands are off for good. */
    method IgnoreSubcommands()
      modifies this`useSubcommands
      ensures !useSubcommands
    {
      useSubcommands := false;
    }

    /**
     * `add_argument`: the declaration is passed on to the engine; a
     * declaration taking all remaining tokens switches subcommands off when
     * trailing positionals are being ignored.
     */
    method AddArgument(d: Declaration)
      modifies this`declarations, this`useSubcommands
      ensures declarations == old(declarations) + [d]
      ensures useSubcommands == (old(useSubcommands) && !(ignoreRemainder && d.nargs == Some(Remainder)))
    {
      if ignoreRemainder && d.nargs == Some(Remainder) {
        useSubcommands := false;
      }
      declarations := declarations + [d];
    }

    /**
     * `set_logging_argument`. Leftover keywords, then a spelling that is not
     * an option, raise before anything changes. Otherwise the derived
     * attribute name is stored at once, so an unknown default level raises
     * with that one field already changed. On success the configuration
     * function is stored and the option is declared with the five level
     * names as choices and the default level's name as default.
     * `defaultLevel` and `configFxn` are `None` when the keyword is not
     * given; `configFxn == Some(None)` is an explicit `config_fxn=None`.
     */
    method SetLoggingArgument(names: seq<string>, defaultLevel: Option<int>, configFxn: Option<Option<ConfigFxn>>,
                              extraKeywords: seq<string>) returns (r: Outcome)
      modifies this`loggingArgument, this`loggingConfigFxn, this`declarations, this`useSubcommands
      ensures useSubcommands == old(useSubcommands)
      ensures |extraKeywords| > 0 ==>
        r == Fail(UnexpectedKeywords(extraKeywords)) && loggingArgument == old(loggingArgument)
      ensures |extraKeywords| == 0 && !(forall i :: 0 <= i < |names| ==> IsOptionName(names[i])) ==>
        r == Fail(NotAnOptionName) && loggingArgument == old(loggingArgument)
      ensures |extraKeywords| == 0 && (forall i :: 0 <= i < |names| ==> IsOptionName(names[i])) ==>
        var level := defaultLevel.GetOr(DefaultLevel);
        && loggingArgument == Some(Longest(names))
        && (LevelName(level).None? ==> r == Fail(UnknownDefaultLevel(level)))
        && (LevelName(level).Some? ==>
              && r == Pass
              && loggingConfigFxn == configFxn.GetOr(Some(DefaultLogConfig))
              && declarations == old(declarations) + [LoggingDeclaration(names, LevelName(level).value)])
      ensures r.Fail? ==> loggingConfigFxn == old(loggingConfigFxn) && declarations == old(declarations)
    {
      var level := defaultLevel.GetOr(DefaultLevel);
      var config := configFxn.GetOr(Some(DefaultLogConfig));
      if |extraKeywords| > 0 {
        return Fail(UnexpectedKeywords(extraKeywords));
      }
      var longest := "";
      var i := 0;
      while i < |names|
        invariant 0 <= i <= |names|
        invariant forall j :: 0 <= j < i ==> IsOptionName(names[j])
        invariant longest == Longest(names[..i])
      {
        var name := names[i];
        if !IsOptionName(name) {
          return Fail(NotAnOptionName);
        }
        var stripped := StripDashes(name);
        if |stripped| > |longest| {
          longest := stripped;
        }
        assert names[..i + 1][..i] == names[..i];
        i := i + 1;
      }
      assert names[..i] == names;
      loggingArgument := Some(longest);
      if level !in LevelNames {
        return Fail(UnknownDefaultLevel(level));
      }
      var defaultName := LevelNames[level];
      loggingConfigFxn := config;
      AddArgument(LoggingDeclaration(names, defaultName));
      r := Pass;
    }

    /**
     * `set_subcommands`. A table that is not a dictionary raises before
     * anything changes. Otherwise both tables are emptied and refilled item
     * by item as `Load` describes; only when every item is accepted is the
     * merge flag replaced. A caller that omits `use_registered_subcmds`
     * passes true.
     */
    method SetSubcommands(table: TableArg, useRegistered: bool) returns (r: Outcome)
      modifies this`subcommandLookup, this`subcommandHelp, this`useRegisteredSubcmds
      ensures table.NotADict? ==>
        && r == Fail(TableNotADict)
        && subcommandLookup == old(subcommandLookup) && subcommandHelp == old(subcommandHelp)
        && useRegisteredSubcmds == old(useRegisteredSubcmds)
      ensures table.DictArg? ==>
        var st := Load(table.items, map[], map[]);
        && subcommandLookup == st.lookup && subcommandHelp == st.help
        && r == (if st.error.None? then Pass else Fail(st.error.value))
        && useRegisteredSubcmds == (if st.error.None? then useRegistered else old(useRegisteredSubcmds))
    {
      if table.NotADict? {
        return Fail(TableNotADict);
      }
      var items := table.items;
      subcommandLookup := map[];
      subcommandHelp := map[];
      var i := 0;
      while i < |items|
        invariant 0 <= i <= |items|
        invariant Load(items, map[], map[]) == Load(items[i..], subcommandLookup, subcommandHelp)
        invariant useRegisteredSubcmds == old(useRegisteredSubcmds)
      {
        assert items[i..][0] == items[i] && items[i..][1..] == items[i + 1..];
        var (key, value) := items[i];
        if !key.StrKey? {
          return Fail(KeyNotAString(key));
        }
        var name := key.s;
        if value.Tuple? {
          if |value.items| == 0 {
            return Fail(TupleTooShort(name));
          }
          if !value.items[0].Fn? {
            return Fail(NotCallable(name));
          }
          subcommandLookup := subcommandLookup[name := value.items[0].fxn];
          if |value.items| < 2 {
            return Fail(TupleTooShort(name));
          }
          subcommandHelp := subcommandHelp[name := value.items[1]];
        } else if !value.Fn? {
          return Fail(NotCallable(name));
        } else {
          subcommandLookup := subcommandLookup[name := value.fxn];
          subcommandHelp := subcommandHelp[name := Text("")];
        }
        i := i + 1;
      }
      useRegisteredSubcmds := useRegistered;
      r := Pass;
    }

    /**
     * The loop of `parse_args` that copies every registered command into
     * the handler's tables, replacing an entry of the same name.
     */
    method MergeRegistered(registry: SubcommandRegistry)
      requires registry.Valid()
      modifies this`subcommandLookup, this`subcommandHelp
      ensures subcommandLookup == old(subcommandLookup) + registry.commands
      ensures subcommandHelp == old(subcommandHelp) + registry.help
    {
      var commands, helps := registry.commands, registry.help;
      ghost var lookup0, help0 := subcommandLookup, subcommandHelp;
      var lookup, help := subcommandLookup, subcommandHelp;
      var pending := commands.Keys;
      assert lookup == Overlay(lookup0, commands, commands.Keys - pending);
      assert help == Overlay(help0, helps, commands.Keys - pending);
      while pending != {}
        invariant pending <= commands.Keys
        invariant lookup == Overlay(lookup0, commands, commands.Keys - pending)
        invariant help == Overlay(help0, helps, commands.Keys - pending)
        decreases |pending|
      {
        var name :| name in pending;
        OverlayStep(lookup0, commands, commands.Keys - pending, name);
        OverlayStep(help0, helps, commands.Keys - pending, name);
        lookup := lookup[name := commands[name]];
        help := help[name := helps[name]];
        assert commands.Keys - (pending - {name}) == (commands.Keys - pending) + {name};
        pending := pending - {name};
      }
      assert commands.Keys - {} == commands.Keys;
      OverlayAll(lookup0, commands);
      OverlayAll(help0, helps);
      subcommandLookup, subcommandHelp := lookup, help;
    }

    /** The listing of the commands can be rendered: every command has a help, and it is a string. */
    predicate Renders()
      reads this`subcommandLookup, this`subcommandHelp
    {
      useSubcommandHelp ==> HelpsAreText(subcommandLookup.Keys, subcommandHelp)
    }

    /** The declarations of `cmd` and `cargs` for the current table. */
    function SubcommandDeclarations(): (r: seq<Declaration>)
      requires Renders()
      reads this`subcommandLookup, this`subcommandHelp
      ensures |r| == 2 && r[0].names == ["cmd"] && r[0].choices == Some(subcommandLookup.Keys)
      ensures r[1].names == ["cargs"] && r[1].nargs == Some(Remainder)
    {
      [CmdDeclaration(subcommandLookup.Keys, CmdHelp(useSubcommandHelp, subcommandHelp, subcommandLookup.Keys)),
       CargsDeclaration(useSubcommandHelp)]
    }

    /**
     * The part of `parse_args` that runs when subcommands are on: render
     * the help of `cmd`, then declare `cmd` and `cargs`.
     */
    method DeclareSubcommands() returns (r: Outcome)
      requires subcommandLookup != map[]
      modifies this`declarations, this`useSubcommands
      ensures r.Pass? <==> Renders()
      ensures r.Fail? ==>
        && (r.error.HelpMissing? || r.error.HelpNotAString?)
        && declarations == old(declarations) && useSubcommands == old(useSubcommands)
      ensures r.Pass? ==>
        && useSubcommands == (old(useSubcommands) && !ignoreRemainder)
        && declarations == old(declarations) + SubcommandDeclarations()
    {
      var helpText := RenderCmdHelp(useSubcommandHelp, subcommandHelp, subcommandLookup.Keys);
      if helpText.Failure? {
        return Fail(helpText.error);
      }
      var cmd, cargs := CmdDeclaration(subcommandLookup.Keys, helpText.value), CargsDeclaration(useSubcommandHelp);
      assert [cmd, cargs] == SubcommandDeclarations();
      AddArgument(cmd);
      AddArgument(cargs);
      r := Pass;
    }

    /**
     * `parse_args`, with `ns` the record the engine returns. The once-only
     * check reads `hasParsed`, which nothing sets. Registered commands are
     * merged in when the merge flag is on; an empty table switches
     * subcommands off; when they are on, `cmd` (choices: the command names,
     * help: `CmdHelp`) and `cargs` are declared. Rendering the listing fails
     * for a command whose help is missing or not a string.
     */
    method ParseArgs(registry: SubcommandRegistry, ns: Namespace) returns (r: Result<Namespace>)
      requires registry.Valid()
      modifies this`subcommandLookup, this`subcommandHelp, this`useSubcommands, this`declarations, this`hasParse
      ensures useSubcommands ==> old(useSubcommands)
      ensures old(hasParsed) ==> r == Failure(ParsedTwice) && unchanged(this)
      ensures !old(hasParsed) ==>
        && subcommandLookup == (if old(useRegisteredSubcmds) then old(subcommandLookup) + registry.commands
                                else old(subcommandLookup))
        && subcommandHelp == (if old(useRegisteredSubcmds) then old(subcommandHelp) + registry.help
                              else old(subcommandHelp))
      ensures !old(hasParsed) ==>
        var active := old(useSubcommands) && subcommandLookup != map[];
        && (r.Success? <==> !active || Renders())
        && (r.Success? ==> r.value == ns && hasParse)
        && (r.Failure? ==> hasParse == old(hasParse))
        && (r.Failure? ==> r.error.HelpMissing? || r.error.HelpNotAString?)
        && (!active ==> !useSubcommands && declarations == old(declarations))
        && (active && r.Failure? ==> useSubcommands && declarations == old(declarations))
        && (active && r.Success? ==>
              && useSubcommands == !ignoreRemainder
              && declarations == old(declarations) + SubcommandDeclarations())
    {
      if hasParsed {
        return Failure(ParsedTwice);
      }
      if useRegisteredSubcmds {
        MergeRegistered(registry);
      }
      ghost var lookup, help := subcommandLookup, subcommandHelp;
      assert help == (if old(useRegisteredSubcmds) then old(subcommandHelp) + registry.help else old(subcommandHelp));
      assert lookup == (if old(useRegisteredSubcmds) then old(subcommandLookup) + registry.commands else old(subcommandLookup));
      if |subcommandLookup| == 0 {
        useSubcommands := false;
      }
      if useSubcommands {
        var declared := DeclareSubcommands();
        if declared.Fail? {
          return Failure(declared.error);
        }
      }
      hasParse := true;
      r := Success(ns);
    }

    /**
     * The state a successful parse leaves: the once-only flag is still
     * clear, the registry is already merged in, and when subcommands are on
     * the table is not empty and its listing renders.
     */
    ghost predicate ReadyToParseAgain(registry: SubcommandRegistry)
      reads this, registry
    {
      && !hasParsed
      && (useRegisteredSubcmds ==>
            subcommandLookup + registry.commands == subcommandLookup && subcommandHelp + registry.help == subcommandHelp)
      && (useSubcommands ==> subcommandLookup != map[] && Renders())
    }

    /** The state the constructor leaves. */
    predicate Fresh()
      reads this
    {
      && loggingArgument == None && loggingConfigFxn == None
      && !ignoreRemainder && useSubcommands && useRegisteredSubcmds
      && subcommandLookup == map[] && subcommandHelp == map[]
      && !hasParsed && !hasParse && declarations == []
    }

    /**
     * Parsing a fresh handler: the table becomes the registry's. When that
     * is empty, nothing is declared; otherwise `cmd` and `cargs` are declared
     * exactly when the listing renders. After a success the handler is ready
     * to be parsed again.
     */
    method ParseFresh(registry: SubcommandRegistry, ns: Namespace) returns (r: Result<Namespace>)
      requires registry.Valid() && Fresh()
      modifies this`subcommandLookup, this`subcommandHelp, this`useSubcommands, this`declarations, this`hasParse
      ensures r != Failure(ParsedTwice) && !hasParsed && !ignoreRemainder && useRegisteredSubcmds
      ensures subcommandLookup == registry.commands && subcommandHelp == registry.help
      ensures useSubcommands == (registry.commands != map[])
      ensures r.Success? <==> registry.commands == map[] || Renders()
      ensures r.Success? ==> ReadyToParseAgain(registry)
      ensures declarations == (if useSubcommands && r.Success? then SubcommandDeclarations() else [])
    {
      r := ParseArgs(registry, ns);
      assert map[] + registry.commands == registry.commands;
      assert map[] + registry.help == registry.help;
      assert subcommandLookup + registry.commands == subcommandLookup;
      assert subcommandHelp + registry.help == subcommandHelp;
    }

    /**
     * Parsing once more in the state a successful parse leaves: the registry
     * is already merged in and the listing renders. Nothing raises, the
     * tables stay as they are, and when subcommands are on `cmd` and `cargs`
     * are declared once more.
     */
    method ParseAgain(registry: SubcommandRegistry, ns: Namespace) returns (r: Result<Namespace>)
      requires registry.Valid() && ReadyToParseAgain(registry)
      modifies this`subcommandLookup, this`subcommandHelp, this`useSubcommands, this`declarations, this`hasParse
      ensures r == Success(ns)
      ensures subcommandLookup == old(subcommandLookup) && subcommandHelp == old(subcommandHelp)
      ensures useSubcommands == (old(useSubcommands) && !ignoreRemainder)
      ensures declarations == old(declarations) + (if old(useSubcommands) then SubcommandDeclarations() else [])
    {
      ghost var declared := if useSubcommands then SubcommandDeclarations() else [];
      r := ParseArgs(registry, ns);
      assert subcommandLookup == old(subcommandLookup) && subcommandHelp == old(subcommandHelp);
    }

    /** The logging option is configured: `set_logging_argument` stored a non-empty attribute name. */
    predicate LoggingEnabled()
      reads this
    {
      loggingArgument.Some? && loggingArgument.value != ""
    }

    /**
     * The part of `run` after parsing: configure logging when the option is
     * set up, make the context (calling the context function when one is
     * given, whether or not a command runs), and call the handler of the
     * chosen command when subcommands are on. The record is returned unchanged; at most one
     * handler is called, and it is the one the table holds for the record's
     * `cmd`, given the sub-parser's name, the context and `cargs` as parsed.
     */
    function Dispatch(ns: Namespace, contextFxn: Option<Namespace -> Obj>): (r: RunResult)
      reads this
      ensures r.outcome.Success? ==> r.outcome.value == ns
      ensures forall k :: 0 <= k < |r.effects| && r.effects[k].Dispatched? ==>
        && k == |r.effects| - 1
        && useSubcommands && r.outcome.Success?
        && ns.cmd.Some? && ns.cmd.value in subcommandLookup && ns.cargs.Some?
        && r.effects[k] == Dispatched(subcommandLookup[ns.cmd.value], prog + " " + ns.cmd.value,
                                      ContextOf(ns, contextFxn), ns.cargs.value)
      ensures useSubcommands && r.outcome.Success? ==> r.effects != [] && r.effects[|r.effects| - 1].Dispatched?
      ensures forall k :: 0 <= k < |r.effects| && r.effects[k].Configured? ==>
        && k == 0 && LoggingEnabled() && loggingConfigFxn.Some?
        && loggingArgument.value in ns.values
        && LevelValue(ns.values[loggingArgument.value]) == Some(r.effects[k].level)
        && r.effects[k].config == loggingConfigFxn.value && r.effects[k].args == ns
      ensures LoggingEnabled() && r.outcome.Success? ==> r.effects != [] && r.effects[0].Configured?
      ensures forall k :: 0 <= k < |r.effects| && r.effects[k].ContextMade? ==>
        && contextFxn.Some? && r.effects[k].args == ns
        && forall j :: 0 <= j < k ==> r.effects[j].Configured?
      ensures contextFxn.Some? && r.outcome.Success? ==> ContextMade(ns) in r.effects
      ensures (!LoggingEnabled() || (ConformingLevel(ns, loggingArgument.value) && loggingConfigFxn.Some?)) &&
              (useSubcommands ==> ns.cmd.Some? && ns.cmd.value in subcommandLookup && ns.cargs.Some?) ==>
                r.outcome == Success(ns)
    {
      var configured: Result<seq<Effect>> :=
        if !LoggingEnabled() then Success([])
        else if loggingArgument.value !in ns.values then Failure(NoSuchAttribute(loggingArgument.value))
        else
          var levelName := ns.values[loggingArgument.value];
          if levelName !in LoggingConstants then Failure(NotALevelName(levelName))
          else if loggingConfigFxn.None? then Failure(ConfigNotCallable)
          else Success([Configured(loggingConfigFxn.value, LoggingConstants[levelName], ns)]);
      if configured.Failure? then RunResult(Failure(configured.error), [])
      else
        var context := ContextOf(ns, contextFxn);
        var before := configured.value + (if contextFxn.Some? then [ContextMade(ns)] else []);
        if !useSubcommands then RunResult(Success(ns), before)
        else if ns.cmd.None? then RunResult(Failure(NoSuchAttribute("cmd")), before)
        else if ns.cmd.value !in subcommandLookup then RunResult(Failure(UnknownCommand(ns.cmd.value)), before)
        else if ns.cargs.None? then RunResult(Failure(NoSuchAttribute("cargs")), before)
        else
          var call := Dispatched(subcommandLookup[ns.cmd.value], prog + " " + ns.cmd.value, context, ns.cargs.value);
          RunResult(Success(ns), before + [call])
    }

    /**
     * `run`: parse, then dispatch. A failed parse makes no calls; otherwise
     * the result is `Dispatch` on the state parsing left. In particular, with
     * no registered and no explicit command nothing is dispatched.
     */
    method Run(registry: SubcommandRegistry, ns: Namespace, contextFxn: Option<Namespace -> Obj>) returns (r: RunResult)
      requires registry.Valid()
      modifies this`subcommandLookup, this`subcommandHelp, this`useSubcommands, this`declarations, this`hasParse
      ensures useSubcommands ==> old(useSubcommands)
      ensures old(hasParsed) ==> r == RunResult(Failure(ParsedTwice), []) && unchanged(this)
      ensures !old(hasParsed) ==>
        && subcommandLookup == (if old(useRegisteredSubcmds) then old(subcommandLookup) + registry.commands
                                else old(subcommandLookup))
        && subcommandHelp == (if old(useRegisteredSubcmds) then old(subcommandHelp) + registry.help
                              else old(subcommandHelp))
        && (useSubcommands ==> subcommandLookup != map[])
      ensures !old(hasParsed) ==>
        var active := old(useSubcommands) && subcommandLookup != map[];
        && (!active || Renders() ==> r == Dispatch(ns, contextFxn))
        && (active && !Renders() ==> r.effects == [] && r.outcome.Failure?)
        && (!active ==> !useSubcommands && declarations == old(declarations))
        && (active && Renders() ==>
              && useSubcommands == !ignoreRemainder
              && declarations == old(declarations) + SubcommandDeclarations())
      ensures subcommandLookup == map[] ==> forall k :: 0 <= k < |r.effects| ==> !r.effects[k].Dispatched?
    {
      var parsed := ParseArgs(registry, ns);
      if parsed.Failure? {
        return RunResult(Failure(parsed.error), []);
      }
      r := Dispatch(ns, contextFxn);
    }
  }

  /**
   * The once-only check of `parse_args` never fires: a fresh handler can be
   * parsed twice, and the second parse does not fail as a repeated parse.
   */
  method SecondParseIsNotRejected(registry: SubcommandRegistry, first: Namespace, second: Namespace)
    returns (r1: Result<Namespace>, r2: Result<Namespace>)
    requires registry.Valid()
    ensures r1 != Failure(ParsedTwice) && r2 != Failure(ParsedTwice)
  {
    var h := new ArgumentHandler("prog", true, false);
    r1 := h.ParseFresh(registry, first);
    r2 := h.ParseArgs(registry, second);
  }

  /**
   * The handler's own bookkeeping raises nothing on a second parse after a
   * successful one: merging the registry again adds nothing, so the listing
   * renders again. When subcommands are on, `cmd` and `cargs` are declared a
   * second time, so the engine then holds two copies of each.
   */
  method SecondParseSucceedsAgain(registry: SubcommandRegistry, first: Namespace, second: Namespace)
    returns (h: ArgumentHandler, r1: Result<Namespace>, r2: Result<Namespace>)
    requires registry.Valid()
    ensures r1.Success? ==> r2 == Success(second)
    ensures r1.Success? && !h.useSubcommands ==> h.declarations == []
    ensures r1.Success? && h.useSubcommands ==>
      h.Renders() && h.declarations == h.SubcommandDeclarations() + h.SubcommandDeclarations()
  {
    h := new ArgumentHandler("prog", true, false);
    r1 := h.ParseFresh(registry, first);
    if r1.Failure? {
      r2 := h.ParseArgs(registry, second);
    } else {
      r2 := h.ParseAgain(registry, second);
    }
  }

  /**
   * The end-to-end path of `run`: a handler given one explicit command with
   * the registry left out, run on a record that names that command, calls
   * exactly that command's handler, with the sub-parser named
   * `"<prog> <cmd>"`, the whole record as the context and `cargs` as parsed.
   */
  method ExplicitCommandIsDispatched(registry: SubcommandRegistry, f: Handler, cargs: seq<string>)
    returns (h: ArgumentHandler, r: RunResult)
    requires registry.Valid()
    ensures h.useSubcommands && h.subcommandLookup == map["x" := f]
    ensures r.outcome.Success?
    ensures r.effects == [Dispatched(f, "prog x", WholeArgs(Namespace(map[], Some("x"), Some(cargs))), cargs)]
  {
    h := new ArgumentHandler("prog", false, false);
    var loaded := h.SetSubcommands(DictArg([(StrKey("x"), Fn(f))]), false);
    assert [(StrKey("x"), Fn(f))][1..] == [];
    assert loaded == Pass && h.subcommandLookup == map["x" := f];
    var ns := Namespace(map[], Some("x"), Some(cargs));
    r := h.Run(registry, ns, None);
    assert !h.LoggingEnabled() && h.useSubcommands && h.Renders();
    assert r == h.Dispatch(ns, None);
    assert h.prog + " " + "x" == "prog x";
  }
}
