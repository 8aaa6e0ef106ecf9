/** The agent as it runs: the process manager's fields, the files, and the reconcile that changes them in place. */
module AgentProcess {
  import opened Entities
  import opened AgentSteps

  /**
   * The fields of the manager as one caller at a time sees them, with `mu` free. `child` is the process that the
   * operating system really keeps for it; `spawned` and `stops` count what was done. `doomed` says that the finalizer of a
   * failed first start is about to end the agent.
   */
  class MariaDBManager {
    var state: ProcStatus
    var pid: nat
    var proc: Option<nat>
    var child: Option<Child>
    var spawned: nat
    var doomed: bool
    ghost var stops: nat

    /** What every interleaving guarantees while `mu` is free. */
    predicate Valid()
      reads this
    {
      && (pid != 0 <==> state == Running)
      && (state == Running ==> proc.Some?)
      && (child.Some? ==> state == Running)
      && (proc.None? <==> spawned == 0)
    }

    constructor ()
      ensures Valid() && state == Unknown && child == None && spawned == 0 && stops == 0 && !doomed
    {
      state, pid, proc, child, spawned, stops, doomed := Unknown, 0, None, None, 0, 0, false;
    }

    /** The process exits by itself; nobody has noticed yet. */
    method Exit()
      requires Valid()
      modifies this`child
      ensures Valid() && child == None
    {
      child := None;
    }

    /** finalize, once the process it waits for has exited. */
    method Finalize()
      requires Valid() && child == None
      modifies this`pid, this`state
      ensures Valid() && pid == 0 && state == Stopped
    {
      pid := 0;
      state := Stopped;
    }

    /** RunMariaDB. Taking `started` means that a previous process has exited and has been finalized. */
    method RunMariaDB(launch: Child, start: Option<nat>) returns (ok: bool)
      requires Valid() && (start.Some? ==> start.value > 0)
      modifies this
      ensures Valid() && stops == old(stops) && ok == start.Some?
      ensures ok ==> state == Running && pid == start.value && child == Some(launch) && proc == Some(old(spawned)) && spawned == old(spawned) + 1
      ensures !ok ==> child == None && proc == old(proc) && spawned == old(spawned)
                      && state == (if old(state) == Running then Stopped else old(state))
      ensures doomed == (old(doomed) || (!ok && old(proc).None?))
    {
      if state == Running {
        Exit();
        Finalize();
      }
      if start.None? {
        if proc.None? {
          doomed := true;
        }
        return false;
      }
      child := Some(launch);
      proc, state, pid := Some(spawned), Running, start.value;
      spawned := spawned + 1;
      return true;
    }

    /** StopMariaDB asks a running process to exit and does not wait. */
    method StopMariaDB() returns (signalled: Option<nat>)
      requires Valid()
      modifies this`stops
      ensures Valid() && stops == old(stops) + 1
      ensures signalled == if state == Running then proc else None
      ensures child.Some? ==> signalled.Some?
    {
      stops := stops + 1;
      signalled := if state == Running then proc else None;
    }

    method GetState() returns (s: ProcStatus)
      ensures s == state
    {
      s := state;
    }
  }

  /** The reconciler together with the files and the cached report it works on. */
  class Reconciler {
    const manager: MariaDBManager
    const hash: Hash
    var file: Option<string>
    var writes: nat
    var flag: bool
    var cached: Option<ProcStatus>

    ghost function State(): Agent
      reads this, manager
    {
      Agent(file, writes, manager.state, manager.child, flag, cached, manager.stops, manager.spawned, manager.doomed)
    }

    constructor (manager: MariaDBManager, hash: Hash, file: Option<string>, flag: bool)
      requires manager.child == None
      ensures this.manager == manager && this.hash == hash
      ensures State() == Agent(file, 0, manager.state, None, flag, None, manager.stops, manager.spawned, manager.doomed)
      ensures Fresh(State())
    {
      this.manager, this.hash, this.file, this.flag := manager, hash, file, flag;
      this.writes, this.cached := 0, None;
    }

    method ExitIf(place: Place, env: Env)
      requires manager.Valid()
      modifies manager`child
      ensures manager.Valid() && State() == ExitAt(old(State()), env, place)
    {
      if place in env.exits {
        manager.Exit();
      }
    }

    method WriteFile(content: Option<string>)
      modifies this`file, this`writes
      ensures State() == Rewrite(old(State()), content)
    {
      if file != content {
        writes := writes + 1;
      }
      file := content;
    }

    method ConfigureGalera(t: Target, env: Env) returns (result: Configured)
      modifies this`file, this`writes
      ensures (State(), result) == Configure(old(State()), Wanted(t, env), env, hash)
    {
      if env.ip.None? {
        return ConfigFailed;
      }
      var cfg := Wanted(t, env).value;
      var oldHash := "";
      if file.Some? && env.visible {
        if !env.readable {
          return ConfigFailed;
        }
        oldHash := hash(file.value);
      }
      if oldHash != "" {
        var newHash := hash(cfg);
        if newHash == oldHash {
          return Unchanged;
        }
      }
      match env.write {
        case Written =>
          WriteFile(Some(cfg));
          return Changed;
        case WriteFailed(left) =>
          WriteFile(left);
          return ConfigFailed;
      }
    }

    method StopAndRun(newCluster: bool, env: Env) returns (ok: bool)
      requires manager.Valid()
      modifies this`flag, manager
      ensures manager.Valid()
      ensures (State(), ok) == Restart(old(State()), newCluster, env)
    {
      var _ := manager.StopMariaDB();
      var pid: nat :| pid > 0;
      ok := manager.RunMariaDB(Child(writes, file, newCluster), if env.startOk then Some(pid) else None);
      if !ok {
        return;
      }
      ExitIf(AfterStart, env);
      if !env.touchOk {
        return false;
      }
      flag := true;
    }

    /** What the two start paths share: configure, decide, stop and run. */
    method ConfigureAndRun(t: Target, fact: ProcStatus, newCluster: bool, env: Env) returns (ok: bool)
      requires manager.Valid()
      modifies this, manager
      ensures manager.Valid()
      ensures (State(), ok) == Apply(old(State()), Wanted(t, env), fact, newCluster, env, hash)
    {
      ExitIf(BeforeConfigure, env);
      var result := ConfigureGalera(t, env);
      ExitIf(AfterConfigure, env);
      if result.ConfigFailed? {
        return false;
      }
      if result.Unchanged? && fact == Running {
        return true;
      }
      ok := StopAndRun(newCluster, env);
    }

    method NewCluster(t: Target, fact: ProcStatus, env: Env) returns (ok: bool)
      requires manager.Valid()
      modifies this, manager
      ensures manager.Valid()
      ensures (State(), ok) == Apply(old(State()), Wanted(t, env), fact, true, env, hash)
    {
      ok := ConfigureAndRun(t, fact, true, env);
    }

    method JoinCluster(t: Target, fact: ProcStatus, env: Env) returns (ok: bool)
      requires manager.Valid()
      modifies this, manager
      ensures manager.Valid()
      ensures (State(), ok) == Apply(old(State()), Wanted(t, env), fact, false, env, hash)
    {
      ok := ConfigureAndRun(t, fact, false, env);
    }

    /** The collector's cached report of the database status, collected first if there is none. */
    method CollectReport() returns (fact: ProcStatus)
      modifies this`cached
      ensures State() == Collect(old(State())) && cached == Some(fact)
    {
      if cached.None? {
        var s := manager.GetState();
        cached := Some(s);
      }
      fact := cached.value;
    }

    method Reconcile(ts: Option<Target>, env: Env) returns (ok: bool)
      requires manager.Valid()
      modifies this, manager
      ensures manager.Valid()
      ensures (State(), ok) == AgentSteps.Reconcile(old(State()), ts, env, hash)
    {
      if ts.None? {
        return false;
      }
      var fact := CollectReport();
      if ts.value.galeraNewCluster && ts.value.role == Primary {
        ok := NewCluster(ts.value, fact, env);
        return;
      }
      if ts.value.mariadbStarted && ts.value.role == Secondary {
        ok := JoinCluster(ts.value, fact, env);
        return;
      }
      ok := true;
    }

    /**
     * The agent's life: reconciles as targets arrive, and between them reports, exits and finalizers. A process that
     * is alive at the end runs the current configuration, unless a write has failed halfway beside a live one.
     */
    method RunForever(events: seq<Event>)
      requires manager.Valid()
      modifies this, manager
      ensures manager.Valid() && State() == HappenAll(old(State()), events, hash)
      ensures Fresh(old(State())) && NeverTainted(old(State()), events, hash) ==> Fresh(State())
    {
      ghost var before := State();
      var i := 0;
      while i < |events|
        invariant 0 <= i <= |events| && manager.Valid()
        invariant HappenAll(State(), events[i..], hash) == HappenAll(before, events, hash)
      {
        if !manager.doomed {
          match events[i] {
            case Reconciled(ts, env) =>
              var _ := Reconcile(ts, env);
            case Collected =>
              var s := manager.GetState();
              cached := Some(s);
            case Exited =>
              manager.Exit();
            case Finalized =>
              if manager.child.None? && manager.state == Running {
                manager.Finalize();
              }
          }
        }
        i := i + 1;
      }
      if Fresh(before) && NeverTainted(before, events, hash) {
        LiveProcessIsCurrent(before, events, hash);
      }
    }
  }
}
