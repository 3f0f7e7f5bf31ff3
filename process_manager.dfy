/** The process manager of process_manager.rs: a single-instance guard that
    terminates other running copies of the application and removes the
    database's LOCK file. The process table (with each kill's outcome), the
    current pid, the environment and the file system are inputs. */
module ProcessManagement {
  import opened Base

  /** `ProcessManagerOptions`. */
  datatype Options = Options(maxRetries: nat, retryDelay: nat)

  /** `ProcessManagerOptions::default()`: three retries, one second apart. */
  function DefaultOptions(): (o: Options)
    ensures o.maxRetries == 3 && o.retryDelay == 1000
  {
    Options(3, 1000)
  }

  /** One entry of the refreshed process table: its pid, its name, and
      whether `kill()` on it reports success. */
  datatype Process = Process(pid: nat, name: string, killSucceeds: bool)

  /** A process is terminated when its lower-cased name contains the
      lower-cased application name and it is not the current process. */
  predicate IsTarget(p: Process, appName: string, currentPid: nat)
  {
    Contains(Lower(p.name), Lower(appName)) && p.pid != currentPid
  }

  /** The targets among `procs`, in table order. */
  function Targets(procs: seq<Process>, appName: string, currentPid: nat): seq<Process>
    decreases |procs|
  {
    if |procs| == 0 then []
    else
      var rest := Targets(procs[..|procs| - 1], appName, currentPid);
      if IsTarget(procs[|procs| - 1], appName, currentPid) then rest + [procs[|procs| - 1]] else rest
  }

  /** The number of processes whose kill reports success. */
  function Killed(procs: seq<Process>): nat
    decreases |procs|
  {
    if |procs| == 0 then 0
    else Killed(procs[..|procs| - 1]) + (if procs[|procs| - 1].killSucceeds then 1 else 0)
  }

  /** At most one kill succeeds per process, and every one does when every
      kill reports success. */
  lemma {:induction false} KilledBounds(procs: seq<Process>)
    ensures Killed(procs) <= |procs|
    ensures (forall i :: 0 <= i < |procs| ==> procs[i].killSucceeds) ==> Killed(procs) == |procs|
    decreases |procs|
  {
    if |procs| > 0 {
      KilledBounds(procs[..|procs| - 1]);
    }
  }

  /** The targets are the matching processes of the table, no more. */
  lemma {:induction false} TargetsMembers(procs: seq<Process>, appName: string, currentPid: nat)
    ensures forall p :: p in Targets(procs, appName, currentPid) <==> p in procs && IsTarget(p, appName, currentPid)
    ensures |Targets(procs, appName, currentPid)| <= |procs|
    decreases |procs|
  {
    if |procs| > 0 {
      SplitLast(procs);
      TargetsMembers(procs[..|procs| - 1], appName, currentPid);
    }
  }

  /** The targets are exactly the processes of the table that match the
      name and are not the current process; the current process is never
      one; the terminated count is at most the number of targets, and
      equal to it when every kill succeeds. */
  lemma TargetsSpec(procs: seq<Process>, appName: string, currentPid: nat)
    ensures var t := Targets(procs, appName, currentPid);
      && (forall p :: p in t <==> p in procs && IsTarget(p, appName, currentPid))
      && (forall i :: 0 <= i < |t| ==> t[i].pid != currentPid)
      && Killed(t) <= |t| <= |procs|
      && ((forall i :: 0 <= i < |t| ==> t[i].killSucceeds) ==> Killed(t) == |t|)
  {
    var t := Targets(procs, appName, currentPid);
    TargetsMembers(procs, appName, currentPid);
    KilledBounds(t);
    forall i | 0 <= i < |t| ensures t[i].pid != currentPid {
      assert t[i] in t;
    }
  }

  /** `Path::new(db_path).join("LOCK")`. */
  function LockFilePath(dbPath: string): (r: string)
    ensures |dbPath| > 0 && dbPath[|dbPath| - 1] != '/' ==> r == dbPath + "/LOCK"
    ensures |dbPath| > 0 && dbPath[|dbPath| - 1] == '/' ==> r == dbPath + "LOCK"
    ensures |dbPath| == 0 ==> r == "LOCK"
  {
    if |dbPath| == 0 then "LOCK"
    else if dbPath[|dbPath| - 1] == '/' then dbPath + "LOCK"
    else dbPath + "/LOCK"
  }

  /** The `{:?}` rendering of a path: the path in double quotes. */
  function Quoted(s: string): string
  {
    "\"" + s + "\""
  }

  /** The context `cleanup_db_locks` gives a failed removal. */
  function LockRemovalError(lock: string): string
  {
    "Failed to remove lock file at " + Quoted(lock)
  }

  /** `ProcessManager`. The process table refreshed last is `processes`. */
  class ProcessManager {
    const appName: string
    const dbPath: string
    const maxRetries: nat
    const retryDelay: nat
    var processes: seq<Process>

    /** `ProcessManager::new`, with the table the initial refresh reads. */
    constructor (appName: string, dbPath: string, options: Options, table: seq<Process>)
      ensures this.appName == appName && this.dbPath == dbPath
      ensures this.maxRetries == options.maxRetries && this.retryDelay == options.retryDelay
      ensures processes == table
    {
      this.appName := appName;
      this.dbPath := dbPath;
      this.maxRetries := options.maxRetries;
      this.retryDelay := options.retryDelay;
      processes := table;
    }

    /** `terminate_other_instances`: refreshes the table to `table` and
        kills every target, counting the kills that succeed. */
    method TerminateOtherInstances(table: seq<Process>, currentPid: nat) returns (count: nat)
      modifies this
      ensures processes == table
      ensures count == Killed(Targets(table, appName, currentPid))
    {
      processes := table;
      count := 0;
      var i := 0;
      while i < |table|
        invariant 0 <= i <= |table|
        invariant count == Killed(Targets(table[..i], appName, currentPid))
      {
        assert table[..i + 1][..i] == table[..i];
        var p := table[i];
        var processName := Lower(p.name);
        var targetName := Lower(appName);
        if Contains(processName, targetName) && p.pid != currentPid {
          var t := Targets(table[..i], appName, currentPid);
          assert (t + [p])[..|t|] == t;
          if p.killSucceeds {
            count := count + 1;
          }
        }
        i := i + 1;
      }
      assert table[..i] == table;
    }

    /** `initialize`: terminates the other instances and succeeds; the lock
        file is not touched. */
    method Initialize(table: seq<Process>, currentPid: nat) returns (r: Result<(), string>)
      modifies this
      ensures r.Ok? && processes == table
    {
      var _ := TerminateOtherInstances(table, currentPid);
      r := Ok(());
    }

    /** `cleanup_db_locks` over the set of existing files: the lock file is
        removed only when it exists; an absent file is success; a failed
        removal carries the context "Failed to remove lock file at <path>". */
    function CleanupDbLocks(existing: set<string>, removal: Result<(), string>): (r: Result<set<string>, string>)
      ensures LockFilePath(dbPath) !in existing ==> r == Ok(existing)
      ensures LockFilePath(dbPath) in existing && removal.Ok? ==> r == Ok(existing - {LockFilePath(dbPath)})
      ensures LockFilePath(dbPath) in existing && removal.Err? ==>
        r == Err(LockRemovalError(LockFilePath(dbPath)))
      ensures r.Ok? ==> LockFilePath(dbPath) !in r.value && r.value <= existing
      ensures r.Ok? ==> forall f :: f in existing && f != LockFilePath(dbPath) ==> f in r.value
    {
      var lock := LockFilePath(dbPath);
      if lock in existing then
        match removal
        case Ok(_) => Ok(existing - {lock})
        case Err(_) => Err(LockRemovalError(lock))
      else Ok(existing)
    }
  }

  // ---------------------------------------------------------------------------
  // The commands

  /** `DB_PATH`, or "storage/storage.db" when it is not set. */
  function DbPath(env: Option<string>): (r: string)
    ensures env.Some? ==> r == env.value
    ensures env.None? ==> r == "storage/storage.db"
  {
    match env
    case Some(p) => p
    case None => "storage/storage.db"
  }

  const AppName: string := "mighty"

  /** `ProcessCleanupResult`. */
  datatype CleanupResult = CleanupResult(killedProcesses: nat, message: string)

  function TerminatedMessage(n: nat): string
  {
    "Terminated " + NatToString(n) + " other instance(s)"
  }

  /** The count can be read back from the message. */
  lemma TerminatedMessageReadsBack(n: nat)
    ensures var m := TerminatedMessage(n); var d := |NatToString(n)|;
      11 + d <= |m| && ParseNat(m[11..11 + d]) == Some(n)
  {
    var m := TerminatedMessage(n);
    assert m[11..11 + |NatToString(n)|] == NatToString(n);
    NatToStringRoundTrip(n);
  }

  /** `initialize_process_manager`: builds a manager for "mighty" with the
      given or default options and initializes it; it always succeeds. */
  method InitializeProcessManager(options: Option<Options>, env: Option<string>, table: seq<Process>, currentPid: nat)
    returns (r: Result<(), string>, manager: ProcessManager)
    ensures r.Ok?
    ensures manager.appName == AppName && manager.dbPath == DbPath(env)
    ensures options.None? ==> manager.maxRetries == 3 && manager.retryDelay == 1000
    ensures options.Some? ==> manager.maxRetries == options.value.maxRetries && manager.retryDelay == options.value.retryDelay
  {
    var opts := match options case Some(o) => o case None => DefaultOptions();
    manager := new ProcessManager(AppName, DbPath(env), opts, table);
    var init := manager.Initialize(table, currentPid);
    match init
    case Err(e) =>
      r := Err("ProcessManager initialization failed: " + e);
    case Ok(_) =>
      r := Ok(());
  }

  /** `kill_other_instances`: the number of other "mighty" processes whose
      kill succeeded, and the message that reports it. */
  method KillOtherInstances(env: Option<string>, table: seq<Process>, currentPid: nat) returns (r: Result<CleanupResult, string>)
    ensures var n := Killed(Targets(table, AppName, currentPid));
      r == Ok(CleanupResult(n, TerminatedMessage(n)))
  {
    var manager := new ProcessManager(AppName, DbPath(env), DefaultOptions(), table);
    var killed := manager.TerminateOtherInstances(table, currentPid);
    r := Ok(CleanupResult(killed, TerminatedMessage(killed)));
  }

  /** The result shaping shared by `force_cleanup_locks` and
      `cleanup_process_manager`. */
  function LockCleanupResult(outcome: Result<set<string>, string>): (r: Result<CleanupResult, string>)
    ensures outcome.Ok? <==> r.Ok?
    ensures r.Ok? ==> r.value == CleanupResult(0, "Successfully cleaned up lock files.")
    ensures r.Err? ==> r.error == "Failed to clean up lock files: " + outcome.error
  {
    match outcome
    case Ok(_) => Ok(CleanupResult(0, "Successfully cleaned up lock files."))
    case Err(e) => Err("Failed to clean up lock files: " + e)
  }

  /** `force_cleanup_locks`: removes the LOCK file of the database
      directory, never reporting killed processes. `existing` is the set of
      existing files, `removal` the outcome of removing the lock file. */
  method ForceCleanupLocks(env: Option<string>, table: seq<Process>, existing: set<string>, removal: Result<(), string>)
    returns (r: Result<CleanupResult, string>, after: set<string>)
    ensures var lock := LockFilePath(DbPath(env));
      && (r.Ok? <==> lock !in existing || removal.Ok?)
      && (r.Ok? ==> r.value.killedProcesses == 0 && after == existing - {lock})
      && (r.Err? ==> r.error == "Failed to clean up lock files: " + LockRemovalError(lock) && after == existing)
  {
    var manager := new ProcessManager(AppName, DbPath(env), DefaultOptions(), table);
    var outcome := manager.CleanupDbLocks(existing, removal);
    r := LockCleanupResult(outcome);
    after := if outcome.Ok? then outcome.value else existing;
  }

  /** `cleanup_process_manager`: the same clean-up at shutdown, with the
      same body as `force_cleanup_locks`. */
  method CleanupProcessManager(env: Option<string>, table: seq<Process>, existing: set<string>, removal: Result<(), string>)
    returns (r: Result<CleanupResult, string>, after: set<string>)
    ensures var lock := LockFilePath(DbPath(env));
      && (r.Ok? <==> lock !in existing || removal.Ok?)
      && (r.Ok? ==> r.value.killedProcesses == 0 && after == existing - {lock})
      && (r.Err? ==> r.error == "Failed to clean up lock files: " + LockRemovalError(lock) && after == existing)
  {
    r, after := ForceCleanupLocks(env, table, existing, removal);
  }
}
