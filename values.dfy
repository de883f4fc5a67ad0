/**
 * The values the argument handler works with: Python objects it inspects
 * (handlers, help strings, tuples), the record the argument-parsing engine
 * returns, the declarations handed to that engine, the exceptions the
 * handler raises and the calls it makes on its caller's behalf.
 */
module Values {

  datatype Option<+T> = None | Some(value: T) {
    function GetOr(default: T): T {
      match this
      case Some(v) => v
      case None => default
    }
  }

  /** A Python function; `name` is its `__name__`, `code` tells functions with the same name apart. */
  datatype Handler = Handler(name: string, code: nat)

  /**
   * A Python value as far as the handler looks at it: something callable,
   * a string, a tuple, or any other (non-callable) object.
   */
  datatype Obj =
    | Fn(fxn: Handler)
    | Text(s: string)
    | Tuple(items: seq<Obj>)
    | Opaque(repr: string)

  /** A key of the dictionary given to `set_subcommands`: a string, or anything else (shown by its `str`). */
  datatype Key = StrKey(s: string) | OtherKey(repr: string)

  /** The object passed as the subcommand table: a plain `dict` (its items in iteration order) or anything else. */
  datatype TableArg = DictArg(items: seq<(Key, Obj)>) | NotADict

  /** The logging configuration callback: the module's default (`basicConfig`) or a caller's function. */
  datatype ConfigFxn = DefaultLogConfig | CustomConfig(code: nat)

  /**
   * The namespace the parsing engine returns: the string-valued attributes,
   * and the `cmd` and `cargs` attributes when the engine set them.
   */
  datatype Namespace = Namespace(values: map<string, string>, cmd: Option<string>, cargs: Option<seq<string>>)

  /** `argparse.REMAINDER` or any other `nargs` setting. */
  datatype Nargs = Remainder | OtherNargs(spec: string)

  /** A help argument: a text, or `argparse.SUPPRESS`. */
  datatype HelpArg = HelpString(s: string) | Suppress

  /** One `add_argument` call as the parsing engine records it. */
  datatype Declaration = Declaration(
    names: seq<string>,
    choices: Option<set<string>>,
    default: Option<string>,
    nargs: Option<Nargs>,
    help: Option<HelpArg>,
    metavar: Option<string>)

  /** The context handed to a subcommand: the parsed namespace itself, or what the context function made of it. */
  datatype Context = WholeArgs(args: Namespace) | Derived(value: Obj)

  /** A call the handler makes into code it does not own. */
  datatype Effect =
    | Configured(config: ConfigFxn, level: int, args: Namespace)
    | ContextMade(args: Namespace)
    | Dispatched(fxn: Handler, prog: string, context: Context, cargs: seq<string>)

  /** The exceptions the handler raises, each with the Python class it is raised as. */
  datatype Error =
    | UnexpectedKeywords(keys: seq<string>)  // ValueError
    | NotAnOptionName                        // ValueError
    | UnknownDefaultLevel(level: int)        // ValueError
    | TableNotADict                          // TypeError
    | KeyNotAString(key: Key)                // TypeError
    | NotCallable(name: string)              // TypeError
    | TupleTooShort(name: string)            // IndexError
    | HelpMissing(name: string)              // KeyError
    | HelpNotAString(name: string)           // TypeError (string concatenation)
    | ParsedTwice                            // Exception
    | NoSuchAttribute(name: string)          // AttributeError
    | NotALevelName(name: string)            // AttributeError (from the logging module)
    | ConfigNotCallable                      // TypeError ('NoneType' object is not callable)
    | UnknownCommand(name: string)           // KeyError

  datatype Result<+T> = Success(value: T) | Failure(error: Error)

  datatype Outcome = Pass | Fail(error: Error)

  /** What `run` did: its outcome and, in order, the calls it made before returning or raising. */
  datatype RunResult = RunResult(outcome: Result<Namespace>, effects: seq<Effect>)
}
