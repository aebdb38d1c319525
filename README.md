# kama-util (`kutil`) — verified model of its logic-bearing helpers

This project models the parts of the `kutil` utility library that make decisions of their own:

- **Logging bootstrap** (`kutil.logger`):
  - resolving a logger's level from the "logback" mapping: the default is INFO, `"OFF"` is a sentinel, and an unknown level name fails;
  - applying a level to a logger, either by disabling it or by setting its threshold;
  - `initialize_logging`, which loads the mapping when its file exists and replaces every root handler by one new file handler.
- **Path and extension helpers** (`kutil.file`, `kutil.file_type`, `kutil.file_extension`): the last path component, stripping the last extension, and appending an extension or removing every copy of it.
- **Test helpers** (`kutil.pytest`): mapping a test module's dotted name to the source module it tests, building patch targets, and `safe_patch`, which turns an `AttributeError` into a stand-in mock.
- **Singleton registry** (`kutil.meta.SingletonMeta`): one instance per class, with a `post_init` hook that runs once.
- **Process selection** (`kutil.process`): the processes whose names were requested, and whether another copy of this program is already running.

Files, one module each:

- `wrappers.dfy`: `Option` and `Result`.
- `strings.dfy`: the Python `str` operations the helpers use, with Python's semantics: `endswith`, `in`, `replace`, `split`, `join` and `rindex`. It also holds their lemmas, such as split undoing join.
- `file.dfy`, `file_type.dfy`, `file_extension.dfy`, `logger.dfy`, `pytest_helpers.dfy`, `meta.dfy`, `process.dfy`: one per source file.

How the source's forms are modelled:

- Pure helpers become functions.
- Objects the source mutates become classes: the logger handle, the root handlers, the module's logging state and the singleton registry.
- The loops of `kutil.process` become methods with loop invariants, proved against specification functions.

The code is followed where it differs from what its docstrings and the repository's tests expect:

- The docstring of `initialize_logging` (src/kutil/logger.py:73) says it "should be executed only once", and tests/test_logger.py drives an `_initialized` flag and a cached `_get_logback`. The code has neither. Every call reloads the mapping, if the file exists, and replaces the handlers again.
- The mapping is loaded eagerly by `initialize_logging`. `get_logger` only reads it.
- The doc comment of `get_module_patch_fixture` (src/kutil/pytest.py:73-79) says the first component of the test module's name is *replaced* by the root package. The code (src/kutil/pytest.py:56-57) *inserts* the root in front. The model inserts.

## Model

| member | source | states |
|---|---|---|
| `File.FileNameFromPath` | src/kutil/file.py:82-91 | Without the separator, the path is returned unchanged. Otherwise the result is the suffix after the last separator: it has no separator, and the character before it is one. So a path ending in the separator gives "". |
| `File.FileNameRoundTrip` | src/kutil/file.py:88-91 | `dir + sep + name` gives back `name` whenever `name` has no separator. |
| `File.RemoveExtensionFromPath` | src/kutil/file.py:94-105 | Without a '.', the path is unchanged. Otherwise the result is the strictly shorter prefix ending right before the last '.' of the whole path. |
| `File.RemoveExtensionRoundTrip` | src/kutil/file.py:100-105 | `p + "." + e` gives back `p` whenever `e` has no '.'. |
| `File.RemoveExtensionNotIdempotent` | src/kutil/file.py:105 | "a.b.c" gives "a.b", and applying it again gives "a": each call strips one more part. |
| `File.RemoveExtensionSeesDirectoryDots` | src/kutil/file.py:105 | A dot in a directory name is cut at too: "/opt/app.d/run" gives "/opt/app". |
| `FileTypes.FileType.Extension` | src/kutil/file_type.py:19-24 | The extension is a dot followed by exactly the stem. |
| `FileTypes.FileType.AddExtension` | src/kutil/file_type.py:37-48 | The result ends with the extension. A string that already ends with it is returned unchanged. Otherwise the extension is appended once. |
| `FileTypes.FileType.AddExtensionIdempotent` | src/kutil/file_type.py:45-46 | Adding the extension twice is the same as adding it once. |
| `FileTypes.FileType.RemoveExtension` | src/kutil/file_type.py:50-54 | The result is never longer than the input. A string with no occurrence of the extension is returned unchanged. A string with one loses at least the extension's length. |
| `FileTypes.FileType.RemoveExtensionStripsOccurrence` | src/kutil/file_type.py:52 | An occurrence of the extension after dot-free text is deleted, and removal goes on in the rest: `a + ext + b` gives `a` followed by the result for `b`. |
| `FileTypes.FileType.RemoveAfterAdd` | src/kutil/file_type.py:45-54 | For a string with no '.', removing the added extension restores it. This holds for any stem. |
| `FileTypes.FileType.ToString` | src/kutil/file_type.py:56-60 | `__str__` is the extension. |
| `FileExtensions.FileExtension.WithDot` | src/kutil/file_extension.py:8-14 | `with_dot` is a dot followed by exactly `no_dot`. |
| `FileExtensions.FileExtension.AddTo` | src/kutil/file_extension.py:16-21 | The result ends with `with_dot`. A string that already ends with it is unchanged. Otherwise `with_dot` is appended once. |
| `FileExtensions.FileExtension.AddToIdempotent` | src/kutil/file_extension.py:18-19 | Adding twice is the same as adding once. |
| `FileExtensions.FileExtension.RemoveFrom` | src/kutil/file_extension.py:23-24 | The result is never longer than the input. A string with no occurrence of `with_dot` is unchanged. A string with one loses at least the length of `with_dot`. |
| `FileExtensions.FileExtension.RemoveFromStripsOccurrence` | src/kutil/file_extension.py:24 | An occurrence of `with_dot` after dot-free text is deleted, and removal goes on in the rest. |
| `FileExtensions.FileExtension.RemoveFromAfterAddTo` | src/kutil/file_extension.py:16-24 | For a string with no '.', removing the added extension restores it. |
| `FileExtensions.FileExtension.ToString` | src/kutil/file_extension.py:26-27 | `__str__` is `with_dot`. |
| `Logger.GetLogLevel` | src/kutil/logger.py:53-67 | An absent name, or a JSON null entry, resolves to INFO. A configured name resolves to its `LogLevels` entry. A configured name that is not a key of `LogLevels` is a failure carrying that name. |
| `Logger.EmptyLogbackGivesInfo` | src/kutil/logger.py:62-67 | Before any mapping is loaded (`_logback` is `{}`), every logger resolves to INFO. |
| `Logger.LogLevelNames` | src/kutil/logger.py:16-24 | `LogLevels` has exactly the keys DEBUG, INFO, WARN, ERROR, FATAL and "OFF". "OFF" maps to the sentinel, and the other thresholds rise in that order. |
| `Logger.ConfiguredNamesResolve` | src/kutil/logger.py:16-24 | "DEBUG", "INFO", "WARN", "ERROR" and "FATAL" resolve to their numeric levels. "OFF" resolves to the sentinel. |
| `Logger.UnknownLevelFails` | src/kutil/logger.py:64-65 | An unknown level name fails. It is never replaced by the INFO default. |
| `Logger.ResolutionSucceedsIff` | src/kutil/logger.py:62-67 | Resolution succeeds exactly when the entry is absent, null or a known level name. |
| `Logger.LogFileName` | src/kutil/logger.py:12 | The program name (basename of `argv[0]` without its extension) contains no '/'. |
| `Logger.JoinPath` | src/kutil/logger.py:86 | `os.path.join(a, b)` ends with `b`, and is `b` itself when `b` is absolute. For a relative `b` it is `a + b` when `a` is empty or ends with '/', and `a + "/" + b` otherwise. |
| `Logger.JoinPathFileName` | src/kutil/logger.py:86 | A name with no '/' joined onto any directory is the last component of the result. |
| `Logger.LogNameNoSeparator` | src/kutil/logger.py:86 | `LOG.add_extension` of a name with no '/' has no '/'. |
| `Logger.LogFilePath` | src/kutil/logger.py:86 | The handler's path ends with `LOG.add_extension(program name)`, and so with ".log". |
| `Logger.LogFilePathShape` | src/kutil/logger.py:85-86 | The log file path is the target directory followed by `LOG.add_extension(program name)`, with a '/' between them unless the directory is empty or already ends with one. It ends with ".log", and its last component is that file name. |
| `Logger.RemoveFirst` | src/kutil/logger.py:103 | `removeHandler` leaves a list without the handler unchanged, and drops a handler that is at the front. |
| `Logger.Logging.constructor` | src/kutil/logger.py:12-13 | At import, the program name is derived from `argv[0]` and the mapping is empty. |
| `Logger.Logging.GetLogger` | src/kutil/logger.py:32-50 | The level is looked up under the name passed in, not the logger's own name. Level "OFF": the logger becomes disabled and its threshold is kept. Any other level: the threshold is set and `disabled` is kept. Unknown level name: failure, and the logger is unchanged. |
| `Logger.Logging.CloseRootHandlers` | src/kutil/logger.py:101-104 | After the loop over a copy of the handlers, the root logger has none left, and every handler it had is closed. The mapping is untouched. |
| `Logger.Logging.InitializeLogging` | src/kutil/logger.py:70-106 | The mapping is replaced only if the file exists; otherwise the old one stays. Afterwards the root handlers are exactly one fresh, open handler writing to the log file path. Every previously attached handler is closed. A malformed file fails with nothing changed. |
| `Process.Matching` | src/kutil/process.py:27-32 | Every record kept has a `name()` that answered and is in the requested list. There are never more kept records than input records. |
| `Process.MatchingSkipsFailure` | src/kutil/process.py:27-32 | A record whose `name()` raises contributes nothing, and the scan still counts the records after it. |
| `Process.MatchingIsSubsequence` | src/kutil/process.py:21-29 | The matches are a subsequence of the iteration order. |
| `Process.RunningProcesses` | src/kutil/process.py:19-34 | The reported processes are a prefix of the matches, at most as many as requested. Fewer than requested means every match is reported. |
| `Process.GetRunningProcesses` | src/kutil/process.py:11-34 | The result is the first matches, at most as many as requested, as a subsequence of the iteration order. Scanning stops as soon as the result is as long as the request. Records after that point are never examined, and the result is built from the examined records only. |
| `Process.EmptyRequest` | src/kutil/process.py:24-25 | An empty request gives `[]`. |
| `Process.DuplicatesFillQuota` | src/kutil/process.py:24-29 | Two processes with one requested name fill a two-name request. The other requested name is then not reported. |
| `Process.ResolvedExe` | src/kutil/process.py:49-50 | A resolved path exists exactly when `exe()` gave a non-empty path, and it is `realpath` of that path. |
| `Process.IsOtherInstance` | src/kutil/process.py:49-60 | A record that counts answered `exe()` and `name()`, is not the current process, and has the looked-for name. It has a non-empty executable exactly when `sys.executable` is set, and then the resolved path equals `sys.executable`. |
| `Process.IsProcessAlreadyRunning` | src/kutil/process.py:37-65 | True exactly when some record has both `exe()` and `name()` answering, a pid other than the current one, a resolved executable equal to `sys.executable`, and the looked-for name. |
| `Process.CurrentProcessIgnored` | src/kutil/process.py:53-54 | The current process never counts, even when its name and executable match. |
| `Process.MissingExeIgnored` | src/kutil/process.py:49-57 | A record whose `exe()` is None or "" never counts while `sys.executable` is set. |
| `PytestHelpers.SourceFileName` | src/kutil/pytest.py:54 | The name never grows. Without "test_" it is unchanged. With one, it loses at least five characters. It never gains a '.'. |
| `PytestHelpers.ModulePathParts` | src/kutil/pytest.py:52-62 | The components are the root, then every component of the test module's name except the last, unchanged. Then comes the stripped last name, exactly when it is not "init". |
| `PytestHelpers.ModulePathOf` | src/kutil/pytest.py:52-64 | The dotted path starts with the root package. |
| `PytestHelpers.GetModulePath` | src/kutil/pytest.py:49-64 | The result is the root, then every component of the test module's name except the last, then that last component with "test_" removed, unless it is "init". All are joined with '.'. |
| `PytestHelpers.ModulePathStartsWithRoot` | src/kutil/pytest.py:52-57 | The path starts with the root package, followed by '.' whenever more components follow. |
| `PytestHelpers.ModulePathComponents` | src/kutil/pytest.py:50-64 | For a root with no '.', the path splits back into exactly those components. There is one more than in the test module's name, or the same number in the "init" case. |
| `PytestHelpers.ModulePathFromComponents` | src/kutil/pytest.py:52-64 | `d1.….dk.t` maps to `root.d1.….dk.s`, where `s` is `t` without "test_". If `s` is "init", it maps to `root.d1.….dk`. The first component is kept, not replaced. |
| `PytestHelpers.SourceFileNameStripsEveryPrefix` | src/kutil/pytest.py:54 | "test_" is removed wherever it occurs, not only as a prefix. The text on each side of an occurrence is stripped on its own, since "test_" never overlaps itself. |
| `PytestHelpers.ModulePathInitExample` | src/kutil/pytest.py:59-62 | "test_init" under root "kutil" gives "kutil". |
| `PytestHelpers.PatchTarget` | src/kutil/pytest.py:87 | The target is the module path, then '.', then the given path. |
| `PytestHelpers.ModulePatch` | src/kutil/pytest.py:85-88 | The patcher is called on that target for the test module's source module, with the remaining arguments unchanged. |
| `PytestHelpers.SafePatch` | src/kutil/pytest.py:3-17 | A successful patch result is returned. An `AttributeError` becomes a stand-in mock. Any other exception propagates unchanged. It raises exactly when the patcher raised something other than `AttributeError`. |
| `PytestHelpers.SafePatchFixture` | src/kutil/pytest.py:20-27 | Forwards the path and arguments unchanged to `safe_patch` with `mocker.patch`. It never raises `AttributeError`. |
| `PytestHelpers.SafeModulePatchFixture` | src/kutil/pytest.py:30-37 | Forwards the path and arguments unchanged to `safe_patch` with the module patcher. It never raises `AttributeError`. |
| `Meta.Registry.constructor` | src/kutil/meta.py:10 | The registry starts empty, and no hook has run. |
| `Meta.Registry.PostInit` | src/kutil/meta.py:27-28 | The hook can run only on the instance already stored for its class, so storing comes first. It records the class and leaves the registry alone. |
| `Meta.Registry.Call` | src/kutil/meta.py:25-30 | A known class: the stored instance is returned, and nothing changes. A new class: a fresh instance is built from these arguments, added under that class only, and its hook runs once. Invariant: the hooks that ran are exactly the registered classes, each once. |
| `Meta.CallTwice` | src/kutil/meta.py:25-30 | Two calls for one class return the identical instance, built from the first call's arguments. The hook runs at most once. Existing entries are never replaced or removed. |
| `Meta.CallTwoClasses` | src/kutil/meta.py:25-27 | Distinct classes get distinct instances. |

## Left out

- File-system and JSON I/O. `os.path.exists` and `read_file(..., as_json=True)` become a map from path to `Parsed(mapping)` or `Malformed`. The helpers `cleanup_directory`, `read_file`, `save_file`, `delete_file` and `file_checksum` are not part of this model.
- JSON level values are modelled only as strings or null. A number or a boolean fails in `LogLevels[level]` with the same `KeyError` as an unknown name, which the model covers only for strings. A list or an object fails with `TypeError` (unhashable); that error is not modelled.
- The handler's internals: the file handler is an opaque object with its target path and a `closed` flag. Not modelled:
  - midnight rotation and the 5-file retention;
  - the date suffix pattern;
  - the log line format;
  - UTF-8 encoding;
  - the failure when the target directory is missing.
- The `NullHandler` attached at import time is not modelled. The constructor takes the root logger's current handlers as given.
- `logging.getLogger(name)`, the logger registry of the logging library, is not modelled. `GetLogger` receives the handle it would return.
- Paths follow POSIX rules. `os.path.basename` is the text after the last '/'. `os.path.join` is the two-argument POSIX join. Windows separators and drive letters are not modelled. `file_name_from_path` takes its separator as a parameter.
- `psutil.process_iter`, `os.getpid`, `sys.executable` and `os.path.realpath` are parameters:
  - the process list is a sequence of records;
  - `realpath` is an arbitrary function.
- Process.GetRunningProcesses: "examined" is a ghost count of the records whose `name()` was called. It stands for the scan's observable stopping point.
- The debug logging calls in `kutil.process` are not modelled. Their one effect that matters is modelled: `process.name()` is evaluated for every record before the pid check, so a failing `name()` skips the record.
- Python's `*args, **kw` are a single opaque argument value. `MagicMock` is the `StandIn` value. Exceptions are a datatype.
- PytestHelpers.ModulePathComponents: the component count is stated only for a root package with no '.'. A dotted root adds components of its own.
- Process.IsProcessAlreadyRunning: `process.name()` is called twice in the source, once for the debug line and once for the comparison. The model reads it once, so a process that vanishes between the two calls is not modelled.
- `str.replace` with an empty pattern is not modelled; the source never calls it that way.
- A logback file whose top-level JSON value is not an object is not modelled. The file is either a mapping or `Malformed`. In the source, `null` acts as `{}` through `_logback or {}` (src/kutil/logger.py:42), and a non-empty list makes `get_logger` raise `AttributeError` on `.get`.
- A `post_init` hook that raises (src/kutil/meta.py:28) is not modelled. The likeliest cause is a class without its own `post_init`: `SingletonMeta.post_init` (src/kutil/meta.py:32-37) is defined on the metaclass, and instance attribute lookup never reaches the metaclass, so `instance.post_init()` raises `AttributeError`. The instance is already registered by then, so later calls return it, and no hook ever runs. The model assumes every class defines the hook.
- Thread safety of the singleton registry and of the root handler list is not modelled.
- Instance construction errors in `SingletonMeta.__call__` are not modelled. The constructor is assumed to succeed, and only its arguments are recorded.
- `kutil.date`, `kutil.number`, `kutil.reflection`, `kutil.request`, `kutil._logger`, `kutil.pytest_plugin` and `kutil.pytest_fixtures.file` are not part of this model.
