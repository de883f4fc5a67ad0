/**
 * The logging levels: the handler's table from numeric level to level name,
 * and the named level constants of the logging module, which `run` uses to
 * turn a parsed level name back into a number.
 */
module LogLevels {
  import opened Values

  const DEBUG: int := 10
  const INFO: int := 20
  const WARNING: int := 30
  const ERROR: int := 40
  const CRITICAL: int := 50

  /** The level used when `set_logging_argument` is given no `default_level`. */
  const DefaultLevel: int := ERROR

  /** The handler's table from numeric level to the name shown on the command line. */
  const LevelNames: map<int, string> :=
    map[DEBUG := "DEBUG", INFO := "INFO", WARNING := "WARNING", ERROR := "ERROR", CRITICAL := "CRITICAL"]

  /** The choices the logging option accepts, in the order they are declared. */
  const LevelChoices: seq<string> := ["DEBUG", "INFO", "WARNING", "ERROR", "CRITICAL"]

  /**
   * The level constants of the logging module, by attribute name. Besides the
   * five names above it has the aliases WARN and FATAL and the level NOTSET.
   */
  const LoggingConstants: map<string, int> :=
    map["CRITICAL" := 50, "FATAL" := 50, "ERROR" := 40, "WARNING" := 30, "WARN" := 30,
        "INFO" := 20, "DEBUG" := 10, "NOTSET" := 0]

  /** The name of a level, if the level is in the handler's table. */
  function LevelName(level: int): (r: Option<string>)
    ensures r.Some? <==> level in {DEBUG, INFO, WARNING, ERROR, CRITICAL}
    ensures r.Some? ==> r.value in LevelChoices
  {
    if level in LevelNames then Some(LevelNames[level]) else None
  }

  /** The numeric level the logging module gives a level name, if it has that name. */
  function LevelValue(name: string): (r: Option<int>)
    ensures name in LevelChoices ==> r.Some? && LevelName(r.value) == Some(name)
  {
    if name in LoggingConstants then Some(LoggingConstants[name]) else None
  }

  /** No two levels of the table share a name. */
  lemma LevelNamesInjective(a: int, b: int)
    requires a in LevelNames && b in LevelNames
    requires LevelNames[a] == LevelNames[b]
    ensures a == b
  {
  }

  /** The names in the table are exactly the choices of the logging option. */
  lemma LevelNamesAreChoices()
    ensures LevelNames.Values == set n | n in LevelChoices
  {
    assert LevelNames[DEBUG] == "DEBUG" && LevelNames[INFO] == "INFO" && LevelNames[WARNING] == "WARNING";
    assert LevelNames[ERROR] == "ERROR" && LevelNames[CRITICAL] == "CRITICAL";
  }

  /**
   * Naming a level and looking the name up again gives the level back, and
   * every accepted level name names the level it is looked up to.
   */
  lemma LevelRoundTrip(level: int, name: string)
    ensures LevelName(level).Some? ==> LevelValue(LevelName(level).value) == Some(level)
    ensures name in LevelChoices ==> LevelValue(name).Some? && LevelName(LevelValue(name).value) == Some(name)
  {
  }
}
