/**
 * `kutil.logger`: log-level resolution from the "logback" mapping, applying
 * a level to a logger, and `initialize_logging`, which loads the mapping and
 * replaces the root logger's handlers by one file handler.
 *
 * The logging library is represented only by what the module changes: a
 * logger's `disabled` flag and threshold, the root logger's handler list and
 * each handler's `closed` flag. Paths follow POSIX `os.path` rules.
 */
module Logger {
  import opened Wrappers
  import opened Strings
  import File
  import FileTypes

  // The numeric levels of Python's logging library.
  const NOTSET: int := 0
  const DEBUG: int := 10
  const INFO: int := 20
  const WARN: int := 30
  const ERROR: int := 40
  const FATAL: int := 50

  const OFF_LOG_LEVEL: string := "OFF"

  /** A resolved level: a numeric threshold, or the "OFF" sentinel. */
  datatype Level = Threshold(value: int) | Off

  /** `LogLevels`: the level names a configuration may use. */
  const LogLevels: map<string, Level> := map[
    "INFO" := Threshold(INFO),
    "WARN" := Threshold(WARN),
    "ERROR" := Threshold(ERROR),
    "DEBUG" := Threshold(DEBUG),
    "FATAL" := Threshold(FATAL),
    OFF_LOG_LEVEL := Off
  ]

  /** The parsed logback file: logger name to level name; a JSON `null` is `None`. */
  type Logback = map<string, Option<string>>

  datatype ConfigError =
    | UnknownLevel(level: string)   // `LogLevels[level]` raising KeyError
    | MalformedConfig(path: string) // the JSON reader raising on the file

  /** What `os.path.exists` and `read_file(path, as_json=True)` would see. */
  datatype ConfigFile = Parsed(mapping: Logback) | Malformed

  /** `_get_log_level`: exact-name lookup, INFO by default, failure on an unknown name. */
  function GetLogLevel(loggerName: string, logback: Logback): (r: Result<Level, ConfigError>)
    ensures (loggerName !in logback || logback[loggerName] == None) ==> r == Success(Threshold(INFO))
    ensures loggerName in logback && logback[loggerName].Some? ==>
      var name := logback[loggerName].value;
      (name in LogLevels ==> r == Success(LogLevels[name])) &&
      (name !in LogLevels ==> r == Failure(UnknownLevel(name)))
  {
    if loggerName in logback && logback[loggerName].Some? then
      var name := logback[loggerName].value;
      if name in LogLevels then Success(LogLevels[name]) else Failure(UnknownLevel(name))
    else
      Success(Threshold(INFO))
  }

  /** Before any file is loaded the mapping is empty, so every logger resolves to INFO. */
  lemma EmptyLogbackGivesInfo(loggerName: string)
    ensures GetLogLevel(loggerName, map[]) == Success(Threshold(INFO))
  {
  }

  /** `LogLevels` knows exactly six names, and its thresholds rise from DEBUG to FATAL. */
  lemma LogLevelNames()
    ensures LogLevels.Keys == {"DEBUG", "INFO", "WARN", "ERROR", "FATAL", OFF_LOG_LEVEL}
    ensures LogLevels[OFF_LOG_LEVEL] == Off
    ensures LogLevels["DEBUG"].value < LogLevels["INFO"].value < LogLevels["WARN"].value <
      LogLevels["ERROR"].value < LogLevels["FATAL"].value
  {
  }

  /** Each configured name resolves to its own level; "OFF" to the sentinel. */
  lemma ConfiguredNamesResolve(loggerName: string, logback: Logback)
    requires loggerName in logback
    ensures logback[loggerName] == Some("DEBUG") ==> GetLogLevel(loggerName, logback) == Success(Threshold(DEBUG))
    ensures logback[loggerName] == Some("INFO") ==> GetLogLevel(loggerName, logback) == Success(Threshold(INFO))
    ensures logback[loggerName] == Some("WARN") ==> GetLogLevel(loggerName, logback) == Success(Threshold(WARN))
    ensures logback[loggerName] == Some("ERROR") ==> GetLogLevel(loggerName, logback) == Success(Threshold(ERROR))
    ensures logback[loggerName] == Some("FATAL") ==> GetLogLevel(loggerName, logback) == Success(Threshold(FATAL))
    ensures logback[loggerName] == Some(OFF_LOG_LEVEL) ==> GetLogLevel(loggerName, logback) == Success(Off)
  {
  }

  /** A configured name outside `LogLevels` fails; it is never replaced by the default. */
  lemma UnknownLevelFails(loggerName: string, logback: Logback)
    requires loggerName in logback && logback[loggerName].Some?
    requires logback[loggerName].value !in LogLevels
    ensures GetLogLevel(loggerName, logback).Failure?
    ensures GetLogLevel(loggerName, logback) != Success(Threshold(INFO))
  {
  }

  /** Resolution succeeds exactly when the entry is absent, null, or a known name. */
  lemma ResolutionSucceedsIff(loggerName: string, logback: Logback)
    ensures GetLogLevel(loggerName, logback).Success? <==>
      (loggerName !in logback || logback[loggerName].None? || logback[loggerName].value in LogLevels)
  {
  }

  /** `os.path.basename` followed by `remove_extension_from_path`: the program name. */
  function LogFileName(argv0: string): (name: string)
    ensures '/' !in name
  {
    File.RemoveExtensionFromPath(File.FileNameFromPath(argv0, '/'))
  }

  /** POSIX `os.path.join(a, b)`. */
  function JoinPath(a: string, b: string): (p: string)
    ensures EndsWith(p, b)
    ensures StartsWith(b, "/") ==> p == b
    ensures !StartsWith(b, "/") ==> StartsWith(p, a)
    ensures !StartsWith(b, "/") && a != [] && !EndsWith(a, "/") ==> p == a + "/" + b
    ensures !StartsWith(b, "/") && (a == [] || EndsWith(a, "/")) ==> p == a + b
  {
    if StartsWith(b, "/") then b
    else if a == [] || EndsWith(a, "/") then a + b
    else a + "/" + b
  }

  /** Where `initialize_logging` puts the log file. */
  function LogFilePath(targetDirectory: string, logFileName: string): (path: string)
    ensures EndsWith(path, FileTypes.LOG.AddExtension(logFileName))
    ensures EndsWith(path, FileTypes.LOG.Extension())
  {
    EndsWithTransitive(JoinPath(targetDirectory, FileTypes.LOG.AddExtension(logFileName)),
                       FileTypes.LOG.AddExtension(logFileName), FileTypes.LOG.Extension());
    JoinPath(targetDirectory, FileTypes.LOG.AddExtension(logFileName))
  }

  /** Joining a separator-free name onto a directory puts it last in the path. */
  lemma JoinPathFileName(dir: string, name: string)
    requires '/' !in name
    ensures File.FileNameFromPath(JoinPath(dir, name), '/') == name
  {
    assert name == [] || name[0] != '/';
    if dir == [] {
      assert JoinPath(dir, name) == name;
    } else if EndsWith(dir, "/") {
      var d := dir[..|dir| - 1];
      assert dir == d + ['/'];
      assert JoinPath(dir, name) == d + ['/'] + name;
      File.FileNameRoundTrip(d, name, '/');
    } else {
      assert JoinPath(dir, name) == dir + ['/'] + name;
      File.FileNameRoundTrip(dir, name, '/');
    }
  }

  /** The ".log" name of a separator-free program name stays separator-free. */
  lemma LogNameNoSeparator(base: string)
    requires '/' !in base
    ensures '/' !in FileTypes.LOG.AddExtension(base)
  {
    var ext := FileTypes.LOG.Extension();
    assert '/' !in ext by { assert ext == ".log"; }
    assert FileTypes.LOG.AddExtension(base) == base || FileTypes.LOG.AddExtension(base) == base + ext;
  }

  /**
   * The log file is `<program name>.log` (".log" not doubled) directly
   * inside the target directory.
   */
  lemma LogFilePathShape(targetDirectory: string, argv0: string)
    ensures var path := LogFilePath(targetDirectory, LogFileName(argv0));
      StartsWith(path, targetDirectory) &&
      (path == targetDirectory + FileTypes.LOG.AddExtension(LogFileName(argv0)) ||
       path == targetDirectory + "/" + FileTypes.LOG.AddExtension(LogFileName(argv0))) &&
      EndsWith(path, FileTypes.LOG.Extension()) &&
      File.FileNameFromPath(path, '/') == FileTypes.LOG.AddExtension(LogFileName(argv0))
  {
    var name := FileTypes.LOG.AddExtension(LogFileName(argv0));
    LogNameNoSeparator(LogFileName(argv0));
    JoinPathFileName(targetDirectory, name);
    EndsWithTransitive(LogFilePath(targetDirectory, LogFileName(argv0)), name, FileTypes.LOG.Extension());
  }

  /** A logger of the logging library: the two fields `get_logger` sets. */
  class LoggerHandle {
    var disabled: bool
    var level: int

    constructor()
      ensures !disabled && level == NOTSET
    {
      disabled := false;
      level := NOTSET;
    }
  }

  /** A handler attached to the root logger. */
  class Handler {
    const target: string
    var closed: bool

    constructor(target: string)
      ensures this.target == target && !closed
    {
      this.target := target;
      closed := false;
    }
  }

  /** `list.remove`: drops the first occurrence, if any. */
  function RemoveFirst(handlers: seq<Handler>, h: Handler): (r: seq<Handler>)
    ensures h !in handlers ==> r == handlers
    ensures handlers != [] && handlers[0] == h ==> r == handlers[1..]
  {
    if handlers == [] then []
    else if handlers[0] == h then handlers[1..]
    else [handlers[0]] + RemoveFirst(handlers[1..], h)
  }

  /** The module's state: the program name, `_logback` and the root logger's handlers. */
  class Logging {
    const logFileName: string
    var logback: Logback
    var rootHandlers: seq<Handler>

    /** Module import: the program name from `argv[0]`, an empty mapping. */
    constructor(argv0: string, rootHandlers: seq<Handler>)
      ensures logFileName == LogFileName(argv0)
      ensures logback == map[] && this.rootHandlers == rootHandlers
    {
      logFileName := LogFileName(argv0);
      logback := map[];
      this.rootHandlers := rootHandlers;
    }

    /**
     * `get_logger`: "OFF" disables the logger and leaves its threshold; any
     * other level sets the threshold and leaves `disabled`; an unknown level
     * name fails before the logger is touched. `logger` is what
     * `logging.getLogger(loggerName)` returns; the level is looked up under
     * `loggerName` itself, which for "" differs from the root logger's own
     * name "root".
     */
    method GetLogger(loggerName: string, logger: LoggerHandle) returns (r: Result<LoggerHandle, ConfigError>)
      modifies logger
      ensures GetLogLevel(loggerName, logback).Failure? ==>
        r == Failure(GetLogLevel(loggerName, logback).error) && unchanged(logger)
      ensures GetLogLevel(loggerName, logback) == Success(Off) ==>
        r == Success(logger) && logger.disabled && logger.level == old(logger.level)
      ensures GetLogLevel(loggerName, logback).Success? && GetLogLevel(loggerName, logback).value.Threshold? ==>
        r == Success(logger) && logger.level == GetLogLevel(loggerName, logback).value.value &&
        logger.disabled == old(logger.disabled)
    {
      var level := GetLogLevel(loggerName, logback);
      if level.Failure? {
        return Failure(level.error);
      }
      if level.value == Off {
        logger.disabled := true;
      } else {
        logger.level := level.value.value;
      }
      r := Success(logger);
    }

    /**
     * The loop of `initialize_logging` over a copy of the root handlers:
     * each is detached with `removeHandler` and then closed.
     */
    method CloseRootHandlers()
      modifies this, rootHandlers
      ensures rootHandlers == [] && logback == old(logback)
      ensures forall h :: h in old(rootHandlers) ==> h.closed
    {
      var snapshot := rootHandlers;
      var i := 0;
      while i < |snapshot|
        invariant 0 <= i <= |snapshot|
        invariant rootHandlers == snapshot[i..]
        invariant forall j :: 0 <= j < i ==> snapshot[j].closed
        invariant logback == old(logback)
      {
        var handler := snapshot[i];
        rootHandlers := RemoveFirst(rootHandlers, handler);
        handler.closed := true;
        i := i + 1;
      }
    }

    /**
     * `initialize_logging`: loads the mapping when the file exists (keeping
     * the previous one otherwise), then detaches and closes every root
     * handler and attaches one new file handler. A malformed file fails
     * before anything changes.
     */
    method InitializeLogging(targetDirectory: string, logbackPath: string, files: map<string, ConfigFile>)
      returns (err: Option<ConfigError>)
      modifies this, rootHandlers
      ensures logbackPath in files && files[logbackPath].Malformed? ==>
        err == Some(MalformedConfig(logbackPath)) && logback == old(logback) &&
        rootHandlers == old(rootHandlers) && forall h :: h in old(rootHandlers) ==> h.closed == old(h.closed)
      ensures !(logbackPath in files && files[logbackPath].Malformed?) ==>
        err == None &&
        logback == (if logbackPath in files then files[logbackPath].mapping else old(logback)) &&
        |rootHandlers| == 1 && fresh(rootHandlers[0]) && !rootHandlers[0].closed &&
        rootHandlers[0].target == LogFilePath(targetDirectory, logFileName) &&
        forall h :: h in old(rootHandlers) ==> h.closed
    {
      if logbackPath in files {
        match files[logbackPath]
        case Malformed =>
          return Some(MalformedConfig(logbackPath));
        case Parsed(mapping) =>
          logback := mapping;
      }
      var logHandler := new Handler(LogFilePath(targetDirectory, logFileName));
      CloseRootHandlers();
      if logHandler !in rootHandlers {
        rootHandlers := rootHandlers + [logHandler];
      }
      err := None;
    }
  }
}
