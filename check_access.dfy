/**
 * Freeing an image from the processes that hold it open (`check_access.py`): find the
 * holders with `lsof` on macOS or from the process table on Windows, then terminate
 * them one at a time with a one-second pause after each.
 *
 * The operating system is represented by what it answers: the output of `lsof`, a
 * snapshot of `psutil.process_iter`, and a process table that can be asked to
 * terminate a process. `os.path.normcase(os.path.abspath(...))` is a function
 * parameter, `normalize`.
 */
module CheckAccess {
  import opened Wrappers
  import opened Text

  /** One holder, `{'pid': ..., 'name': ...}`. */
  datatype Holder = Holder(pid: int, name: string)

  /** Running `lsof <path>`: the tool is missing, or it exited with a code and an output. */
  datatype LsofRun = LsofMissing | LsofExited(code: int, stdout: string)

  /**
   * One process from `psutil.process_iter(['pid', 'name', 'open_files'])`; `Gone` stands
   * for one whose reading raised NoSuchProcess or AccessDenied.
   */
  datatype ProcEntry = ProcInfo(pid: int, name: string, openFiles: Option<seq<string>>) | Gone

  /** The exceptions that escape the lock release: nothing in it catches them. */
  datatype LockError =
    | LsofNotFound               // FileNotFoundError from starting `lsof`
    | MissingColumn(line: string) // IndexError: the line has fewer than two columns
    | BadPid(token: string)       // ValueError: `int()` refused the second column

  // ---------------------------------------------------------------- macOS

  /** One line of `lsof` output after the header: column 0 is the name, column 1 the pid. */
  function ParseLsofLine(line: string): (r: Result<Holder, LockError>)
    ensures r.Ok? <==> |Words(line)| >= 2 && ParseInt(Words(line)[1]).Some?
    ensures r.Ok? ==> r.value.name == Words(line)[0] && Some(r.value.pid) == ParseInt(Words(line)[1])
    ensures |Words(line)| < 2 ==> r == Err(MissingColumn(line))
  {
    var columns := Words(line);
    if |columns| < 2 then Err(MissingColumn(line))
    else match ParseInt(columns[1])
      case None => Err(BadPid(columns[1]))
      case Some(pid) => Ok(Holder(pid, columns[0]))
  }

  /**
   * The loop over the lines: line `i` gives holder `i`; the first line that does not
   * parse raises, and the holders collected so far are lost with the exception.
   */
  function ParseLsofLines(lines: seq<string>): (r: Result<seq<Holder>, LockError>)
    ensures r.Ok? ==> |r.value| == |lines|
    ensures r.Ok? ==> forall i :: 0 <= i < |lines| ==> ParseLsofLine(lines[i]) == Ok(r.value[i])
    ensures r.Err? <==> exists i :: 0 <= i < |lines| && ParseLsofLine(lines[i]).Err?
    ensures r.Err? ==> exists i :: 0 <= i < |lines| && ParseLsofLine(lines[i]) == Err(r.error)
                                  && forall j :: 0 <= j < i ==> ParseLsofLine(lines[j]).Ok?
  {
    if lines == [] then Ok([])
    else
      match ParseLsofLine(lines[0])
      case Err(e) => Err(e)
      case Ok(h) =>
        match ParseLsofLines(lines[1..])
        case Err(e) =>
          ghost var i :| 0 <= i < |lines| - 1 && ParseLsofLine(lines[1..][i]) == Err(e)
            && forall j :: 0 <= j < i ==> ParseLsofLine(lines[1..][j]).Ok?;
          assert ParseLsofLine(lines[i + 1]) == Err(e);
          assert forall j :: 0 <= j < i + 1 ==> ParseLsofLine(lines[j]).Ok? by {
            forall j | 0 <= j < i + 1 ensures ParseLsofLine(lines[j]).Ok? {
              if j > 0 { assert lines[j] == lines[1..][j - 1]; }
            }
          }
          Err(e)
        case Ok(hs) => Ok([h] + hs)
  }

  /**
   * `get_processes_using_file_mac`: on exit code 0 every output line but the first is a
   * holder; `check_output` raises CalledProcessError on any other code, which is caught
   * and gives no holders (code 1 is lsof's "nothing found").
   */
  function HoldersOnMac(run: LsofRun): (r: Result<seq<Holder>, LockError>)
    ensures run.LsofMissing? ==> r == Err(LsofNotFound)
    ensures run.LsofExited? && run.code != 0 ==> r == Ok([])
  {
    match run
    case LsofMissing => Err(LsofNotFound)
    case LsofExited(code, out) =>
      if code != 0 then Ok([])
      else
        var lines := SplitLines(out);
        ParseLsofLines(if lines == [] then [] else lines[1..])
  }

  /** A line the way `lsof` prints it: the command, the pid, then the remaining columns. */
  function LsofLine(h: Holder, rest: string): string
    requires h.pid >= 0
  {
    h.name + " " + Decimal(h.pid) + " " + rest
  }

  lemma ParseLsofLineOfLine(h: Holder, rest: string)
    requires h.pid >= 0 && IsWord(h.name)
    ensures ParseLsofLine(LsofLine(h, rest)) == Ok(h)
  {
    var pid := Decimal(h.pid);
    assert IsWord(pid);
    var tail := " " + rest;
    assert LsofLine(h, rest) == h.name + ([' '] + (pid + tail));
    WordsAfterWord(h.name, [' '] + (pid + tail));
    WordsAfterSpace(' ', pid + tail);
    WordsAfterWord(pid, tail);
    ParseDecimal(h.pid);
  }

  /**
   * What `lsof` prints for a list of holders, one line each after a header line, is read
   * back as exactly those holders, in order.
   */
  lemma {:induction false} HoldersOnMacReadsLines(header: string, hs: seq<Holder>, rests: seq<string>)
    requires header != [] && !HasLineBreak(header)
    requires |rests| == |hs|
    requires forall i :: 0 <= i < |hs| ==> hs[i].pid >= 0 && IsWord(hs[i].name) && !HasLineBreak(hs[i].name)
    requires forall i :: 0 <= i < |rests| ==> !HasLineBreak(rests[i])
    ensures forall i :: 0 <= i < |hs| ==> hs[i].pid >= 0
    ensures HoldersOnMac(LsofExited(0, JoinWith("\n", [header] + seq(|hs|, i requires 0 <= i < |hs| => LsofLine(hs[i], rests[i]))))) == Ok(hs)
  {
    var lines := seq(|hs|, i requires 0 <= i < |hs| => LsofLine(hs[i], rests[i]));
    forall i | 0 <= i < |hs| ensures lines[i] != [] && !HasLineBreak(lines[i]) && ParseLsofLine(lines[i]) == Ok(hs[i]) {
      LineBreakFree(hs[i], rests[i]);
      ParseLsofLineOfLine(hs[i], rests[i]);
    }
    SplitLinesOfJoin([header] + lines);
    assert ([header] + lines)[1..] == lines;
    var r := ParseLsofLines(lines);
    assert r.Ok?;
    assert r.value == hs;
  }

  lemma LineBreakFree(h: Holder, rest: string)
    requires h.pid >= 0 && !HasLineBreak(h.name) && !HasLineBreak(rest)
    ensures LsofLine(h, rest) != [] && !HasLineBreak(LsofLine(h, rest))
  {
    var pid := Decimal(h.pid);
    var l := LsofLine(h, rest);
    forall j | 0 <= j < |l| ensures !IsLineBreak(l[j]) {
      if j < |h.name| { assert l[j] == h.name[j]; }
      else if j == |h.name| { }
      else if j < |h.name| + 1 + |pid| { assert l[j] == pid[j - |h.name| - 1]; }
      else if j == |h.name| + 1 + |pid| { }
      else { assert l[j] == rest[j - |h.name| - 2 - |pid|]; }
    }
  }

  // ---------------------------------------------------------------- Windows

  /** `file.path.lower() == filepath.lower()`. */
  predicate SamePath(a: string, b: string) {
    Lower(a) == Lower(b)
  }

  function LowerAll(paths: seq<string>): (r: seq<string>)
    ensures |r| == |paths| && forall i :: 0 <= i < |paths| ==> r[i] == Lower(paths[i])
  {
    seq(|paths|, i requires 0 <= i < |paths| => Lower(paths[i]))
  }

  /**
   * The inner loop over one process's open files: the process is listed once for every
   * open file whose path equals the target up to case.
   */
  function MatchingFiles(pid: int, name: string, files: seq<string>, target: string): (r: seq<Holder>)
    ensures forall i :: 0 <= i < |r| ==> r[i] == Holder(pid, name)
    ensures |r| == multiset(LowerAll(files))[Lower(target)]
  {
    if files == [] then []
    else
      var here := if SamePath(files[0], target) then [Holder(pid, name)] else [];
      var rest := MatchingFiles(pid, name, files[1..], target);
      LowerAllCons(files);
      assert |here| == multiset([Lower(files[0])])[Lower(target)];
      here + rest
  }

  /** Lower-casing a list of paths splits like the list does. */
  lemma LowerAllCons(files: seq<string>)
    requires files != []
    ensures multiset(LowerAll(files)) == multiset([Lower(files[0])]) + multiset(LowerAll(files[1..]))
  {
    assert LowerAll(files) == [Lower(files[0])] + LowerAll(files[1..]);
  }

  /** A process holds the target: it could be read, and one of its open files is the target. */
  predicate HoldsFile(e: ProcEntry, target: string) {
    && e.ProcInfo?
    && e.openFiles.Some?
    && exists f :: f in e.openFiles.value && SamePath(f, target)
  }

  /** `get_processes_using_file_windows`: a `None` open-file list and a `Gone` process give nothing. */
  function HoldersOnWindows(entries: seq<ProcEntry>, target: string): (hs: seq<Holder>)
    ensures forall h :: h in hs ==> exists e :: e in entries && e.ProcInfo? && h == Holder(e.pid, e.name)
  {
    if entries == [] then []
    else
      var here := match entries[0]
        case Gone => []
        case ProcInfo(pid, name, files) => MatchingFiles(pid, name, files.GetOr([]), target);
      var rest := HoldersOnWindows(entries[1..], target);
      assert forall e :: e in entries[1..] ==> e in entries;
      here + rest
  }

  /** Exactly the processes that hold the target are listed. */
  lemma {:induction false} HoldersOnWindowsAreHolders(entries: seq<ProcEntry>, target: string, h: Holder)
    ensures h in HoldersOnWindows(entries, target) <==>
      exists i :: 0 <= i < |entries| && HoldsFile(entries[i], target)
        && h == Holder(entries[i].pid, entries[i].name)
  {
    if entries != [] {
      HoldersOnWindowsAreHolders(entries[1..], target, h);
      var e := entries[0];
      if e.ProcInfo? {
        var files := e.openFiles.GetOr([]);
        MatchingFilesMembers(e.pid, e.name, files, target, h);
      }
      if exists i :: 0 <= i < |entries| && HoldsFile(entries[i], target) && h == Holder(entries[i].pid, entries[i].name) {
        var i :| 0 <= i < |entries| && HoldsFile(entries[i], target) && h == Holder(entries[i].pid, entries[i].name);
        if i > 0 { assert entries[1..][i - 1] == entries[i]; }
      }
      if exists i :: 0 <= i < |entries| - 1 && HoldsFile(entries[1..][i], target) && h == Holder(entries[1..][i].pid, entries[1..][i].name) {
        var i :| 0 <= i < |entries| - 1 && HoldsFile(entries[1..][i], target) && h == Holder(entries[1..][i].pid, entries[1..][i].name);
        assert entries[i + 1] == entries[1..][i];
      }
    }
  }

  lemma MatchingFilesMembers(pid: int, name: string, files: seq<string>, target: string, h: Holder)
    ensures h in MatchingFiles(pid, name, files, target) <==>
      h == Holder(pid, name) && exists f :: f in files && SamePath(f, target)
  {
    var r := MatchingFiles(pid, name, files, target);
    if exists f :: f in files && SamePath(f, target) {
      var f :| f in files && SamePath(f, target);
      var j :| 0 <= j < |files| && files[j] == f;
      assert LowerAll(files)[j] == Lower(target);
      assert Lower(target) in multiset(LowerAll(files));
    } else {
      assert Lower(target) !in multiset(LowerAll(files)) by {
        forall j | 0 <= j < |files| ensures LowerAll(files)[j] != Lower(target) {
          assert files[j] in files;
        }
      }
    }
  }

  // ---------------------------------------------------------------- termination

  /** What the lock release leaves in the log, in order. */
  datatype Event =
    | Terminated(pid: int)     // info: terminated
    | AlreadyGone(pid: int)    // warning: NoSuchProcess
    | Denied(pid: int)         // error: AccessDenied
    | Paused(seconds: nat)     // time.sleep
    | UnsupportedOs            // error: neither Darwin nor Windows
    | LsofFailed(code: int)    // error: lsof exited with a code other than 0 and 1

  /** The processes still running and the log so far. */
  datatype ProcState = ProcState(running: set<int>, events: seq<Event>)

  predicate IsTermination(e: Event, pid: int) {
    e == Terminated(pid) || e == AlreadyGone(pid) || e == Denied(pid)
  }

  /**
   * `terminate_process(pid)`: a running process the OS lets us stop is gone afterwards;
   * a missing one or a denied one is only logged. It never raises.
   */
  function Terminate(st: ProcState, protected: set<int>, pid: int): (r: ProcState)
    ensures r.running == if pid in st.running && pid !in protected then st.running - {pid} else st.running
    ensures |r.events| == |st.events| + 1 && r.events[..|st.events|] == st.events
    ensures IsTermination(r.events[|st.events|], pid)
  {
    if pid !in st.running then ProcState(st.running, st.events + [AlreadyGone(pid)])
    else if pid in protected then ProcState(st.running, st.events + [Denied(pid)])
    else ProcState(st.running - {pid}, st.events + [Terminated(pid)])
  }

  /** The pids of the holders that the OS lets us terminate. */
  function Stoppable(hs: seq<Holder>, protected: set<int>): set<int> {
    set i | 0 <= i < |hs| && hs[i].pid !in protected :: hs[i].pid
  }

  /**
   * The loop of `terminate_processes_using_file`: one termination per holder, in list
   * order, each followed by a one-second pause. Afterwards every holder the OS lets us
   * stop is gone and nothing else has stopped.
   */
  function TerminateAll(st: ProcState, protected: set<int>, hs: seq<Holder>): (r: ProcState)
    ensures r.running == st.running - Stoppable(hs, protected)
    ensures |r.events| == |st.events| + 2 * |hs| && r.events[..|st.events|] == st.events
    ensures forall i :: 0 <= i < |hs| ==>
      IsTermination(r.events[|st.events| + 2 * i], hs[i].pid) && r.events[|st.events| + 2 * i + 1] == Paused(1)
    decreases |hs|
  {
    if hs == [] then st
    else
      var prev := TerminateAll(st, protected, hs[..|hs| - 1]);
      var stopped := Terminate(prev, protected, hs[|hs| - 1].pid);
      var r := stopped.(events := stopped.events + [Paused(1)]);
      assert Stoppable(hs, protected) == Stoppable(hs[..|hs| - 1], protected)
        + (if hs[|hs| - 1].pid in protected then {} else {hs[|hs| - 1].pid});
      assert forall i :: 0 <= i < |hs| - 1 ==> hs[..|hs| - 1][i] == hs[i];
      assert forall k :: 0 <= k < |prev.events| ==> r.events[k] == prev.events[k];
      r
  }

  /** One more holder: terminate it, then pause. */
  lemma TerminateAllStep(st: ProcState, protected: set<int>, hs: seq<Holder>)
    requires hs != []
    ensures TerminateAll(st, protected, hs)
         == var s := Terminate(TerminateAll(st, protected, hs[..|hs| - 1]), protected, hs[|hs| - 1].pid);
            s.(events := s.events + [Paused(1)])
  {
  }

  /**
   * `terminate_processes_using_file(filepath)`: the path is normalised once; macOS asks
   * `lsof` about it, Windows scans the process snapshot; any other system logs an error
   * and stops. The second component is the exception that escapes, if any.
   */
  function ReleaseLocks(st: ProcState, protected: set<int>, filepath: string, system: string,
                        normalize: string -> string, lsof: string -> LsofRun,
                        snapshot: seq<ProcEntry>): (r: (ProcState, Option<LockError>))
    ensures system != "Darwin" && system != "Windows" ==>
      r == (ProcState(st.running, st.events + [UnsupportedOs]), None)
    ensures r.1.Some? ==> system == "Darwin" && r.0.running == st.running
    ensures r.0.running <= st.running
    ensures system == "Windows" ==>
      r.1.None? && r.0.running == st.running - Stoppable(HoldersOnWindows(snapshot, normalize(filepath)), protected)
    ensures system == "Darwin" ==> match HoldersOnMac(lsof(normalize(filepath)))
      case Ok(hs) => r.1.None? && r.0.running == st.running - Stoppable(hs, protected)
      case Err(e) => r.1 == Some(e)
  {
    var path := normalize(filepath);
    if system == "Darwin" then
      var run := lsof(path);
      var logged := if run.LsofExited? && run.code != 0 && run.code != 1
        then st.(events := st.events + [LsofFailed(run.code)]) else st;
      match HoldersOnMac(run)
      case Err(e) => (logged, Some(e))
      case Ok(hs) => (TerminateAll(logged, protected, hs), None)
    else if system == "Windows" then
      (TerminateAll(st, protected, HoldersOnWindows(snapshot, path)), None)
    else
      (st.(events := st.events + [UnsupportedOs]), None)
  }

  /**
   * On Windows the processes the lock release stops are exactly the running, stoppable
   * ones that hold the file open, as the process snapshot shows it.
   */
  lemma ReleaseLocksStopsHoldersOnWindows(st: ProcState, protected: set<int>, filepath: string,
                                          normalize: string -> string, lsof: string -> LsofRun,
                                          snapshot: seq<ProcEntry>, pid: int)
    requires pid in st.running
    ensures var r := ReleaseLocks(st, protected, filepath, "Windows", normalize, lsof, snapshot);
      pid !in r.0.running <==>
        pid !in protected && exists i :: 0 <= i < |snapshot| && HoldsFile(snapshot[i], normalize(filepath))
                                        && snapshot[i].pid == pid
  {
    var target := normalize(filepath);
    var hs := HoldersOnWindows(snapshot, target);
    if pid in Stoppable(hs, protected) {
      var k :| 0 <= k < |hs| && hs[k].pid !in protected && hs[k].pid == pid;
      HoldersOnWindowsAreHolders(snapshot, target, hs[k]);
    }
    if pid !in protected && exists i :: 0 <= i < |snapshot| && HoldsFile(snapshot[i], target) && snapshot[i].pid == pid {
      var i :| 0 <= i < |snapshot| && HoldsFile(snapshot[i], target) && snapshot[i].pid == pid;
      var h := Holder(pid, snapshot[i].name);
      HoldersOnWindowsAreHolders(snapshot, target, h);
      var k :| 0 <= k < |hs| && hs[k] == h;
      assert pid in Stoppable(hs, protected);
    }
  }

  /** The lock release sees the file only through its normalised path. */
  lemma ReleaseLocksSeesNormalisedPath(st: ProcState, protected: set<int>, f1: string, f2: string,
                                       system: string, normalize: string -> string,
                                       lsof: string -> LsofRun, snapshot: seq<ProcEntry>)
    requires normalize(f1) == normalize(f2)
    ensures ReleaseLocks(st, protected, f1, system, normalize, lsof, snapshot)
         == ReleaseLocks(st, protected, f2, system, normalize, lsof, snapshot)
  {
  }

  /** The operating system's processes, as far as the lock release can change them. */
  class ProcessTable {
    var running: set<int>
    var events: seq<Event>
    /** The processes whose termination the OS refuses with AccessDenied. */
    const protected: set<int>

    constructor (running: set<int>, protected: set<int>)
      ensures this.running == running && this.protected == protected && events == []
    {
      this.running := running;
      this.protected := protected;
      events := [];
    }

    function State(): ProcState
      reads this
    {
      ProcState(running, events)
    }

    method TerminateProcess(pid: int)
      modifies this
      ensures State() == Terminate(old(State()), protected, pid)
    {
      if pid !in running {
        events := events + [AlreadyGone(pid)];
      } else if pid in protected {
        events := events + [Denied(pid)];
      } else {
        running := running - {pid};
        events := events + [Terminated(pid)];
      }
    }

    /** The loop over the holders: terminate each, then pause for a second. */
    method TerminateEach(holders: seq<Holder>)
      modifies this
      ensures State() == TerminateAll(old(State()), protected, holders)
    {
      var i := 0;
      while i < |holders|
        invariant 0 <= i <= |holders|
        invariant State() == TerminateAll(old(State()), protected, holders[..i])
      {
        TerminateProcess(holders[i].pid);
        events := events + [Paused(1)];
        TerminateAllStep(old(State()), protected, holders[..i + 1]);
        assert holders[..i + 1][..i] == holders[..i];
        i := i + 1;
      }
      assert holders[..|holders|] == holders;
    }

    method TerminateProcessesUsingFile(filepath: string, system: string, normalize: string -> string,
                                       lsof: string -> LsofRun, snapshot: seq<ProcEntry>)
      returns (escaped: Option<LockError>)
      modifies this
      ensures (State(), escaped) == ReleaseLocks(old(State()), protected, filepath, system, normalize, lsof, snapshot)
    {
      var path := normalize(filepath);
      var holders: seq<Holder>;
      if system == "Darwin" {
        var run := lsof(path);
        if run.LsofExited? && run.code != 0 && run.code != 1 {
          events := events + [LsofFailed(run.code)];
        }
        var found := HoldersOnMac(run);
        if found.Err? {
          return Some(found.error);
        }
        holders := found.value;
      } else if system == "Windows" {
        holders := HoldersOnWindows(snapshot, path);
      } else {
        events := events + [UnsupportedOs];
        return None;
      }
      TerminateEach(holders);
      escaped := None;
    }
  }
}
