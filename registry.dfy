/**
 * The process-wide registry that the `subcmd` decorator fills: one table
 * from command name to handler and a parallel one from command name to
 * help. Every `ArgumentHandler` that merges registered commands reads it.
 */
module Registry {
  import opened Values

  /** The name a decorated function is registered under: the one given, else the function's own. */
  function CommandName(fxn: Handler, name: Option<string>): string {
    name.GetOr(fxn.name)
  }

  /** The help a registration records: the `help` keyword, or the empty string. */
  function HelpKeyword(keywords: map<string, Obj>): Obj {
    if "help" in keywords then keywords["help"] else Text("")
  }

  class SubcommandRegistry {
    var commands: map<string, Handler>
    var help: map<string, Obj>

    /** Both tables have the same names. */
    ghost predicate Valid()
      reads this
    {
      commands.Keys == help.Keys
    }

    constructor ()
      ensures Valid() && commands == map[] && help == map[]
    {
      commands := map[];
      help := map[];
    }

    /**
     * Registering `fxn` (what `subcmd_fxn` does for every decorated
     * function): the name given, or the function's own, now maps to `fxn`
     * and to the `help` keyword (the empty string when there is none),
     * replacing any earlier entry; every other name keeps its entry. The
     * `help` keyword is popped from the decorator's keyword dictionary, which
     * is updated in place: `remaining` is that dictionary afterwards. The
     * function itself is returned, so decorating leaves it unchanged.
     */
    method Register(fxn: Handler, name: Option<string>, keywords: map<string, Obj>)
      returns (r: Handler, remaining: map<string, Obj>)
      requires Valid()
      modifies this
      ensures Valid()
      ensures r == fxn
      ensures remaining == keywords - {"help"}
      ensures commands == old(commands)[CommandName(fxn, name) := fxn]
      ensures help == old(help)[CommandName(fxn, name) := HelpKeyword(keywords)]
      ensures forall n :: n != CommandName(fxn, name) && n in old(commands) ==> n in commands && commands[n] == old(commands)[n]
    {
      var n := CommandName(fxn, name);
      var h := HelpKeyword(keywords);
      remaining := keywords - {"help"};
      commands := commands[n := fxn];
      help := help[n := h];
      r := fxn;
    }

    /** `reset_registered_subcommands`: forget every registered command. */
    method Reset()
      modifies this
      ensures Valid() && commands == map[] && help == map[]
    {
      commands := map[];
      help := map[];
    }
  }

  /**
   * A decorator made once with `subcmd(name, help=...)` and applied to two
   * functions: the first registration consumes the shared `help` keyword,
   * so the second function is registered with the empty help.
   */
  method ReusedDecoratorLosesHelp(registry: SubcommandRegistry, name: string, text: Obj, f: Handler, g: Handler)
    returns (first: Obj, second: Obj)
    requires registry.Valid()
    modifies registry
    ensures first == text && second == Text("")
    ensures name in registry.commands && registry.commands[name] == g
  {
    var keywords := map["help" := text];
    var decoratedF, rest := registry.Register(f, Some(name), keywords);
    first := registry.help[name];
    var decoratedG, unused := registry.Register(g, Some(name), rest);
    second := registry.help[name];
  }
}
