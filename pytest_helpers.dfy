/**
 * `kutil.pytest`: mapping a test module's dotted name to the module it
 * tests, building patch targets from it, and `safe_patch`, which turns an
 * AttributeError from the patcher into a stand-in mock.
 *
 * Python's `*args, **kw` are one opaque value of type `A`; a patcher is a
 * function from the target and those arguments to what it returns or raises.
 */
module PytestHelpers {
  import opened Strings

  const SEPARATOR: char := '.'
  const TEST_PREFIX: string := "test_"
  const INIT_MODULE: string := "init"

  /** The test file's name with every "test_" removed. */
  function SourceFileName(testName: string): (name: string)
    ensures |name| <= |testName|
    ensures !Contains(testName, TEST_PREFIX) ==> name == testName
    ensures Contains(testName, TEST_PREFIX) ==> |name| <= |testName| - |TEST_PREFIX|
    ensures SEPARATOR !in testName ==> SEPARATOR !in name
  {
    var name := Replace(testName, TEST_PREFIX, []);
    assert !Contains(testName, TEST_PREFIX) ==> name == testName by {
      if !Contains(testName, TEST_PREFIX) { ReplaceAbsent(testName, TEST_PREFIX, []); }
    }
    assert Contains(testName, TEST_PREFIX) ==> |name| <= |testName| - |TEST_PREFIX| by {
      if Contains(testName, TEST_PREFIX) { ReplaceEmptyShrinks(testName, TEST_PREFIX); }
    }
    assert SEPARATOR !in testName ==> SEPARATOR !in name by {
      if SEPARATOR !in testName { ReplaceEmptyKeepsOut(testName, TEST_PREFIX, SEPARATOR); }
    }
    name
  }

  /** The components `get_module_path` joins. */
  function ModulePathParts(testModuleName: string, root: string): (all: seq<string>)
    ensures var n := |Split(testModuleName, SEPARATOR)|; |all| == n || |all| == n + 1
    ensures all[0] == root
    ensures var parts := Split(testModuleName, SEPARATOR); all[1..|parts|] == parts[..|parts| - 1]
    ensures var parts := Split(testModuleName, SEPARATOR);
      |all| == |parts| + 1 ==> all[|parts|] == SourceFileName(parts[|parts| - 1]) != INIT_MODULE
    ensures var parts := Split(testModuleName, SEPARATOR);
      |all| == |parts| + 1 <==> SourceFileName(parts[|parts| - 1]) != INIT_MODULE
  {
    var parts := Split(testModuleName, SEPARATOR);
    var source := SourceFileName(parts[|parts| - 1]);
    [root] + parts[..|parts| - 1] + (if source != INIT_MODULE then [source] else [])
  }

  /** The dotted source module path for a test module and a root package. */
  function ModulePathOf(testModuleName: string, root: string): (path: string)
    ensures StartsWith(path, root)
  {
    JoinStartsWithFirst(ModulePathParts(testModuleName, root), SEPARATOR);
    Join(ModulePathParts(testModuleName, root), SEPARATOR)
  }

  /**
   * `get_module_path`: split the test module's name, pop its last part,
   * strip "test_" from it, insert the root package at the front and append
   * the stripped name unless it is "init".
   */
  method GetModulePath(testModuleName: string, root: string) returns (path: string)
    ensures path == ModulePathOf(testModuleName, root)
  {
    var pathList := Split(testModuleName, SEPARATOR);
    var testName := pathList[|pathList| - 1];
    pathList := pathList[..|pathList| - 1];
    var sourceFileName := Replace(testName, TEST_PREFIX, []);
    pathList := [root] + pathList;
    if sourceFileName != INIT_MODULE {
      pathList := pathList + [sourceFileName];
    }
    assert pathList == ModulePathParts(testModuleName, root);
    path := Join(pathList, SEPARATOR);
  }

  /** The path starts with the root package, then a dot unless nothing follows. */
  lemma ModulePathStartsWithRoot(testModuleName: string, root: string)
    ensures StartsWith(ModulePathOf(testModuleName, root), root)
    ensures |ModulePathParts(testModuleName, root)| > 1 ==>
      ModulePathOf(testModuleName, root)[|root|] == SEPARATOR
  {
    JoinStartsWithFirst(ModulePathParts(testModuleName, root), SEPARATOR);
  }

  /**
   * For a dot-free root, the path splits back into the root, every component
   * of the test module's name but the last, and the stripped name unless it
   * is "init": one component more than the test module's name, or as many.
   */
  lemma ModulePathComponents(testModuleName: string, root: string)
    requires SEPARATOR !in root
    ensures Split(ModulePathOf(testModuleName, root), SEPARATOR) == ModulePathParts(testModuleName, root)
    ensures var n := |Split(testModuleName, SEPARATOR)|;
      var source := SourceFileName(Split(testModuleName, SEPARATOR)[n - 1]);
      |Split(ModulePathOf(testModuleName, root), SEPARATOR)| == (if source == INIT_MODULE then n else n + 1)
  {
    PartsHaveNoSeparator(testModuleName, root);
    SplitJoin(ModulePathParts(testModuleName, root), SEPARATOR);
  }

  lemma PartsHaveNoSeparator(testModuleName: string, root: string)
    requires SEPARATOR !in root
    ensures var all := ModulePathParts(testModuleName, root);
      forall i :: 0 <= i < |all| ==> SEPARATOR !in all[i]
  {
    var parts := Split(testModuleName, SEPARATOR);
    var all := ModulePathParts(testModuleName, root);
    forall i | 0 <= i < |all| ensures SEPARATOR !in all[i] {
      if 0 < i < |parts| { assert all[i] == all[1..|parts|][i - 1] == parts[i - 1]; }
    }
  }

  /** "test_" never overlaps itself. */
  lemma TestPrefixUnbordered()
    ensures Unbordered(TEST_PREFIX)
  {
    forall k | 0 < k < |TEST_PREFIX|
      ensures TEST_PREFIX[k..] != TEST_PREFIX[..|TEST_PREFIX| - k]
    {
      if k == 3 {
        assert TEST_PREFIX[k..][1] != TEST_PREFIX[1];
      } else {
        assert TEST_PREFIX[k..][0] != TEST_PREFIX[0];
      }
    }
  }

  /**
   * Every "test_" is removed, not just a leading one: the text on each side
   * of an occurrence is stripped on its own.
   */
  lemma SourceFileNameStripsEveryPrefix(a: string, b: string)
    ensures SourceFileName(a + TEST_PREFIX + b) == SourceFileName(a) + SourceFileName(b)
  {
    TestPrefixUnbordered();
    ReplaceAtOccurrence(a, b, TEST_PREFIX, []);
  }

  /**
   * A test module `d1. ... .dk.t` maps to `root.d1. ... .dk.s`, where `s` is
   * `t` without "test_", or to `root.d1. ... .dk` when `s` is "init".
   */
  lemma ModulePathFromComponents(dirs: seq<string>, testName: string, root: string)
    requires forall i :: 0 <= i < |dirs| ==> SEPARATOR !in dirs[i]
    requires SEPARATOR !in testName
    ensures var source := SourceFileName(testName);
      ModulePathOf(Join(dirs + [testName], SEPARATOR), root) ==
      Join([root] + dirs + (if source != INIT_MODULE then [source] else []), SEPARATOR)
  {
    SplitComponents(dirs, testName);
    PartsOfSplit(Join(dirs + [testName], SEPARATOR), root, dirs, testName);
  }

  lemma SplitComponents(dirs: seq<string>, testName: string)
    requires forall i :: 0 <= i < |dirs| ==> SEPARATOR !in dirs[i]
    requires SEPARATOR !in testName
    ensures Split(Join(dirs + [testName], SEPARATOR), SEPARATOR) == dirs + [testName]
  {
    var parts := dirs + [testName];
    forall i | 0 <= i < |parts| ensures SEPARATOR !in parts[i] {
      if i < |dirs| { assert parts[i] == dirs[i]; }
    }
    SplitJoin(parts, SEPARATOR);
  }

  lemma PartsOfSplit(testModuleName: string, root: string, dirs: seq<string>, testName: string)
    requires Split(testModuleName, SEPARATOR) == dirs + [testName]
    ensures var source := SourceFileName(testName);
      ModulePathParts(testModuleName, root) == [root] + dirs + (if source != INIT_MODULE then [source] else [])
  {
    var split := Split(testModuleName, SEPARATOR);
    assert split[..|split| - 1] == dirs && split[|split| - 1] == testName;
  }

  /** "test_init" names the root package's own `__init__`: the path is the root alone. */
  lemma ModulePathInitExample(testModuleName: string, root: string)
    requires testModuleName == "test_init" && root == "kutil"
    ensures ModulePathOf(testModuleName, root) == "kutil"
  {
    var source := "init";
    SplitNoSeparator(testModuleName, SEPARATOR);
    assert testModuleName == TEST_PREFIX + source;
    ReplaceLeading(source, TEST_PREFIX, []);
    ShorterNotContains(source, TEST_PREFIX);
    ReplaceAbsent(source, TEST_PREFIX, []);
    assert ModulePathParts(testModuleName, root) == [root];
  }

  /** `_patch`'s target: the module path, a dot, then the attribute path. */
  function PatchTarget(modulePath: string, path: string): (target: string)
    ensures |target| == |modulePath| + 1 + |path| && StartsWith(target, modulePath)
    ensures target[|modulePath|] == SEPARATOR && target[|modulePath| + 1..] == path
  {
    modulePath + [SEPARATOR] + path
  }

  /** `get_module_patch_fixture(...)(root)(path, *args, **kw)`: patch the target inside the tested module. */
  function ModulePatch<A, R>(mockerPatch: (string, A) -> R, testModuleName: string, root: string,
                             path: string, args: A): (r: R)
    ensures r == mockerPatch(PatchTarget(ModulePathOf(testModuleName, root), path), args)
  {
    mockerPatch(PatchTarget(ModulePathOf(testModuleName, root), path), args)
  }

  datatype Exception = AttributeError(message: string) | OtherException(kind: string, message: string)

  /** What a call returns or raises. */
  datatype Outcome<T> = Returned(value: T) | Raised(exception: Exception)

  /** The patch's own result, or the fresh `MagicMock` that stands in for it. */
  datatype Patch<R> = Patched(result: R) | StandIn

  /** `safe_patch`. */
  function SafePatch<A, R>(patchMethod: (string, A) -> Outcome<R>, path: string, args: A): (r: Outcome<Patch<R>>)
    ensures patchMethod(path, args).Returned? ==> r == Returned(Patched(patchMethod(path, args).value))
    ensures patchMethod(path, args).Raised? && patchMethod(path, args).exception.AttributeError? ==>
      r == Returned(StandIn)
    ensures r.Raised? <==>
      (patchMethod(path, args).Raised? && !patchMethod(path, args).exception.AttributeError?)
    ensures r.Raised? ==> r.exception == patchMethod(path, args).exception
  {
    match patchMethod(path, args)
    case Returned(v) => Returned(Patched(v))
    case Raised(e) => if e.AttributeError? then Returned(StandIn) else Raised(e)
  }

  /** The `mocker` fixture, reduced to its `patch` method. */
  datatype Mocker<!A, R> = Mocker(patch: (string, A) -> Outcome<R>)

  /** `safe_patch_fixture(mocker)(path, *args, **kw)`. */
  function SafePatchFixture<A, R>(mocker: Mocker<A, R>, path: string, args: A): (r: Outcome<Patch<R>>)
    ensures r == SafePatch(mocker.patch, path, args)
    ensures !(r.Raised? && r.exception.AttributeError?)
  {
    SafePatch(mocker.patch, path, args)
  }

  /** `safe_module_patch_fixture(get_module_patch)(path, *args, **kw)`. */
  function SafeModulePatchFixture<A, R>(getModulePatch: (string, A) -> Outcome<R>, path: string, args: A)
    : (r: Outcome<Patch<R>>)
    ensures r == SafePatch(getModulePatch, path, args)
    ensures !(r.Raised? && r.exception.AttributeError?)
  {
    SafePatch(getModulePatch, path, args)
  }
}
