/**
 * `kutil.process`: selecting processes from the system's process list.
 *
 * `psutil.process_iter` is a sequence of records whose `name()` and `exe()`
 * either give a value or raise NoSuchProcess / AccessDenied; `os.getpid`,
 * `sys.executable` and `os.path.realpath` are parameters.
 */
module Process {
  import opened Wrappers

  datatype ProcessError = NoSuchProcess | AccessDenied

  /** One record of the process list; `exe()` may return `None`. */
  datatype ProcessInfo = ProcessInfo(
    pid: int,
    name: Result<string, ProcessError>,
    exe: Result<Option<string>, ProcessError>)

  /** `process.name() in processes`, false when `name()` raises. */
  predicate IsRequested(p: ProcessInfo, requested: seq<string>) {
    p.name.Success? && p.name.value in requested
  }

  /** The records of `procs`, in order, whose name is requested. */
  function Matching(procs: seq<ProcessInfo>, requested: seq<string>): (r: seq<ProcessInfo>)
    ensures |r| <= |procs|
    ensures forall i :: 0 <= i < |r| ==> IsRequested(r[i], requested)
  {
    if procs == [] then []
    else
      var last := procs[|procs| - 1];
      Matching(procs[..|procs| - 1], requested) + (if IsRequested(last, requested) then [last] else [])
  }

  /** Matching distributes over concatenation. */
  lemma {:induction false} MatchingAppend(a: seq<ProcessInfo>, b: seq<ProcessInfo>, requested: seq<string>)
    ensures Matching(a + b, requested) == Matching(a, requested) + Matching(b, requested)
    decreases |b|
  {
    if b == [] {
      assert a + b == a;
    } else {
      var b' := b[..|b| - 1];
      assert (a + b)[..|a + b| - 1] == a + b';
      MatchingAppend(a, b', requested);
    }
  }

  /** The matches of a prefix are a prefix of the matches. */
  lemma MatchingPrefix(procs: seq<ProcessInfo>, k: nat, requested: seq<string>)
    requires k <= |procs|
    ensures var m := Matching(procs[..k], requested);
      |m| <= |Matching(procs, requested)| && Matching(procs, requested)[..|m|] == m
  {
    assert procs == procs[..k] + procs[k..];
    MatchingAppend(procs[..k], procs[k..], requested);
  }

  /** A record whose `name()` raises contributes nothing, and those after it still count. */
  lemma MatchingSkipsFailure(a: seq<ProcessInfo>, p: ProcessInfo, b: seq<ProcessInfo>, requested: seq<string>)
    requires p.name.Failure?
    ensures Matching(a + [p] + b, requested) == Matching(a, requested) + Matching(b, requested)
  {
    MatchingAppend(a + [p], b, requested);
    assert (a + [p])[..|a + [p]| - 1] == a;
  }

  /** `xs` is `ys` with some elements left out. */
  predicate IsSubsequence<T(==)>(xs: seq<T>, ys: seq<T>)
    decreases |ys|
  {
    if xs == [] then true
    else if ys == [] then false
    else
      (xs[|xs| - 1] == ys[|ys| - 1] && IsSubsequence(xs[..|xs| - 1], ys[..|ys| - 1])) ||
      IsSubsequence(xs, ys[..|ys| - 1])
  }

  lemma {:induction false} MatchingIsSubsequence(procs: seq<ProcessInfo>, requested: seq<string>)
    ensures IsSubsequence(Matching(procs, requested), procs)
  {
    if procs != [] {
      var init := procs[..|procs| - 1];
      MatchingIsSubsequence(init, requested);
      var m := Matching(procs, requested);
      if IsRequested(procs[|procs| - 1], requested) {
        assert m == Matching(init, requested) + [procs[|procs| - 1]];
        assert m[..|m| - 1] == Matching(init, requested);
        assert procs[..|procs| - 1] == init;
      } else {
        assert m == Matching(init, requested);
      }
    }
  }

  lemma {:induction false} SubsequencePrefix<T>(xs: seq<T>, ys: seq<T>, k: nat)
    requires IsSubsequence(xs, ys) && k <= |xs|
    ensures IsSubsequence(xs[..k], ys)
    decreases |ys|
  {
    if k < |xs| && ys != [] {
      var xs', ys' := xs[..|xs| - 1], ys[..|ys| - 1];
      if xs[|xs| - 1] == ys[|ys| - 1] && IsSubsequence(xs', ys') {
        SubsequencePrefix(xs', ys', k);
        assert xs'[..k] == xs[..k];
        SubsequenceExtend(xs[..k], ys', ys[|ys| - 1]);
        assert ys' + [ys[|ys| - 1]] == ys;
      } else {
        SubsequencePrefix(xs, ys', k);
        SubsequenceExtend(xs[..k], ys', ys[|ys| - 1]);
        assert ys' + [ys[|ys| - 1]] == ys;
      }
    } else if k == |xs| {
      assert xs[..k] == xs;
    }
  }

  lemma SubsequenceExtend<T>(xs: seq<T>, ys: seq<T>, y: T)
    requires IsSubsequence(xs, ys)
    ensures IsSubsequence(xs, ys + [y])
  {
    assert (ys + [y])[..|ys|] == ys;
  }

  function Min(a: int, b: int): int { if a <= b then a else b }

  /** What `get_running_processes` returns: the first matches, at most as many as requested. */
  function RunningProcesses(procs: seq<ProcessInfo>, requested: seq<string>): (r: seq<ProcessInfo>)
    ensures |r| <= |requested|
    ensures r <= Matching(procs, requested)
    ensures |r| < |requested| ==> r == Matching(procs, requested)
  {
    var m := Matching(procs, requested);
    m[..Min(|requested|, |m|)]
  }

  /**
   * `get_running_processes`. `examined` counts the records whose `name()`
   * was called: the scan stops as soon as the result is as long as the
   * request, before looking at the next record.
   */
  method GetRunningProcesses(procs: seq<ProcessInfo>, requested: seq<string>)
    returns (running: seq<ProcessInfo>, ghost examined: nat)
    ensures running == RunningProcesses(procs, requested)
    ensures examined <= |procs| && running == Matching(procs[..examined], requested)
    ensures examined < |procs| ==> |running| == |requested|
    ensures forall k :: 0 <= k < examined ==> |Matching(procs[..k], requested)| < |requested|
    ensures IsSubsequence(running, procs)
    ensures |running| <= |requested|
  {
    running := [];
    var i := 0;
    while i < |procs|
      invariant 0 <= i <= |procs|
      invariant running == Matching(procs[..i], requested)
      invariant |running| <= |requested|
      invariant forall k :: 0 <= k < i ==> |Matching(procs[..k], requested)| < |requested|
    {
      if |running| == |requested| {
        break;
      }
      var process := procs[i];
      assert procs[..i + 1][..i] == procs[..i];
      if process.name.Success? && process.name.value in requested {
        running := running + [process];
      }
      i := i + 1;
    }
    examined := i;
    MatchingPrefix(procs, i, requested);
    if i == |procs| {
      assert procs[..i] == procs;
    }
    MatchingIsSubsequence(procs, requested);
    SubsequencePrefix(Matching(procs, requested), procs, |running|);
  }

  /** With nothing requested, nothing is examined and nothing returned. */
  lemma EmptyRequest(procs: seq<ProcessInfo>)
    ensures RunningProcesses(procs, []) == []
  {
  }

  /** Two records of one requested name fill the quota; the other name is not reported. */
  lemma DuplicatesFillQuota(a1: ProcessInfo, a2: ProcessInfo, b: ProcessInfo)
    requires a1.name == Success("a.exe") && a2.name == Success("a.exe") && b.name == Success("b.exe")
    ensures RunningProcesses([a1, a2, b], ["a.exe", "b.exe"]) == [a1, a2]
  {
    var requested := ["a.exe", "b.exe"];
    assert Matching([a1], requested) == [a1] by { assert [a1][..0] == []; }
    assert Matching([a1, a2], requested) == [a1, a2] by { assert [a1, a2][..1] == [a1]; }
    assert Matching([a1, a2, b], requested) == [a1, a2, b] by { assert [a1, a2, b][..2] == [a1, a2]; }
  }

  /** `os.path.realpath` of a non-empty `exe()`, `None` for `None` or "". */
  function ResolvedExe(exe: Option<string>, realpath: string -> string): (r: Option<string>)
    ensures r.Some? <==> exe.Some? && exe.value != ""
    ensures r.Some? ==> r.value == realpath(exe.value)
  {
    match exe
    case None => None
    case Some(path) => if path == "" then None else Some(realpath(path))
  }

  /**
   * The test of `is_process_already_running` for one record: `exe()` and
   * `name()` both answer, it is not the current process, its resolved
   * executable is `sys.executable` and its name is the one looked for.
   */
  predicate IsOtherInstance(p: ProcessInfo, processName: string, currentPid: int,
                            executable: Option<string>, realpath: string -> string)
    ensures IsOtherInstance(p, processName, currentPid, executable, realpath) ==>
      p.exe.Success? && p.name.Success? && p.pid != currentPid && p.name.value == processName &&
      (executable.Some? <==> p.exe.value.Some? && p.exe.value.value != "") &&
      (executable.Some? ==> executable.value == realpath(p.exe.value.value))
  {
    && p.exe.Success?
    && p.name.Success?
    && p.pid != currentPid
    && ResolvedExe(p.exe.value, realpath) == executable
    && p.name.value == processName
  }

  /** `is_process_already_running`. */
  method IsProcessAlreadyRunning(procs: seq<ProcessInfo>, processName: string, currentPid: int,
                                 executable: Option<string>, realpath: string -> string)
    returns (found: bool)
    ensures found <==> exists i :: 0 <= i < |procs| && IsOtherInstance(procs[i], processName, currentPid, executable, realpath)
  {
    var i := 0;
    while i < |procs|
      invariant 0 <= i <= |procs|
      invariant forall j :: 0 <= j < i ==> !IsOtherInstance(procs[j], processName, currentPid, executable, realpath)
    {
      var process := procs[i];
      i := i + 1;
      if process.exe.Failure? {
        continue;
      }
      var processExe := ResolvedExe(process.exe.value, realpath);
      if process.name.Failure? {
        continue;
      }
      if process.pid == currentPid {
        continue;
      }
      if processExe != executable {
        continue;
      }
      if process.name.value == processName {
        return true;
      }
    }
    return false;
  }

  /** The current process never counts, whatever its name and executable. */
  lemma CurrentProcessIgnored(p: ProcessInfo, processName: string, currentPid: int,
                              executable: Option<string>, realpath: string -> string)
    requires p.pid == currentPid
    ensures !IsOtherInstance(p, processName, currentPid, executable, realpath)
  {
  }

  /** A record without an executable path never counts when `sys.executable` is set. */
  lemma MissingExeIgnored(p: ProcessInfo, processName: string, currentPid: int,
                          executable: Option<string>, realpath: string -> string)
    requires executable.Some?
    requires p.exe == Success(None) || p.exe == Success(Some(""))
    ensures !IsOtherInstance(p, processName, currentPid, executable, realpath)
  {
  }
}
