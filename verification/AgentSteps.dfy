/**
 * One reconcile of an agent as a function of its state, the target and what the environment does meanwhile, and
 * what it means for the database process that is alive afterwards.
 */
module AgentSteps {
  import opened Entities
  import opened Rendering
  import Protocol

  /** How a process was started: after how many writes of the configuration file, with which content, and how. */
  datatype Child = Child(writes: nat, config: Option<string>, newCluster: bool)

  /**
   * `file` is the configuration file, `writes` counts the times its content changed, `status` is the manager's State
   * and `child` the process that is really alive, `cached` the database status in the collector's last report.
   * `stops` and `starts` count the calls of StopMariaDB and the successful starts. A `doomed` agent is about to end:
   * its very first start has failed, so the finalizer of that call waits for a process that never was.
   */
  datatype Agent = Agent(
    file: Option<string>,
    writes: nat,
    status: ProcStatus,
    child: Option<Child>,
    flag: bool,
    cached: Option<ProcStatus>,
    stops: nat,
    starts: nat,
    doomed: bool)

  datatype WriteOutcome = Written | WriteFailed(left: Option<string>)

  /** Places in a reconcile where a live process may exit by itself. */
  datatype Place = BeforeConfigure | AfterConfigure | AfterStart

  /** Everything a reconcile finds or suffers: own address, file accesses, the start, the flag, exits. */
  datatype Env = Env(
    ip: Option<string>,
    visible: bool,
    readable: bool,
    write: WriteOutcome,
    startOk: bool,
    touchOk: bool,
    exits: set<Place>)

  /** SHA-256 in hexadecimal form; the proofs need no more than what they name. */
  type Hash = string -> string

  datatype Configured = ConfigFailed | Changed | Unchanged

  function ExitAt(a: Agent, env: Env, p: Place): Agent {
    if p in env.exits then a.(child := None) else a
  }

  /** The configuration this target asks for, unless the own address cannot be found. */
  function Wanted(t: Target, env: Env): Option<string> {
    if env.ip.None? then None else Some(Render(t.addresses, env.ip.value))
  }

  /** configureGalera, once the wanted content is known. */
  function Configure(a: Agent, wanted: Option<string>, env: Env, hash: Hash): (Agent, Configured) {
    if wanted.None? then (a, ConfigFailed)
    else
      var seen := a.file.Some? && env.visible;
      if seen && !env.readable then (a, ConfigFailed)
      else
        var oldHash := if seen then hash(a.file.value) else "";
        if oldHash != "" && hash(wanted.value) == oldHash then (a, Unchanged)
        else match env.write
          case Written => (Rewrite(a, wanted), Changed)
          case WriteFailed(left) => (Rewrite(a, left), ConfigFailed)
  }

  function Rewrite(a: Agent, content: Option<string>): Agent {
    a.(file := content, writes := if content == a.file then a.writes else a.writes + 1)
  }

  /** RunMariaDB: it waits until the previous process has exited and its finalizer has run, then starts a new one. */
  function Run(a: Agent, newCluster: bool, startOk: bool): Agent {
    var quiet := a.(child := None, status := if a.status == Running then Stopped else a.status);
    if startOk then quiet.(status := Running, child := Some(Child(a.writes, a.file, newCluster)), starts := a.starts + 1)
    else quiet.(doomed := a.doomed || a.starts == 0)
  }

  /** Stop the process, run a new one, touch the flag. */
  function Restart(a: Agent, newCluster: bool, env: Env): (Agent, bool) {
    var started := Run(a.(stops := a.stops + 1), newCluster, env.startOk);
    if !env.startOk then (started, false)
    else
      var after := ExitAt(started, env, AfterStart);
      if env.touchOk then (after.(flag := true), true) else (after, false)
  }

  /** NewCluster and JoinCluster, which differ in how they start the process. The flag says whether they succeed. */
  function Apply(a: Agent, wanted: Option<string>, fact: ProcStatus, newCluster: bool, env: Env, hash: Hash): (Agent, bool) {
    var (configured, result) := Configure(ExitAt(a, env, BeforeConfigure), wanted, env, hash);
    var ready := ExitAt(configured, env, AfterConfigure);
    if result.ConfigFailed? then (ready, false)
    else if result.Unchanged? && fact == Running then (ready, true)
    else Restart(ready, newCluster, env)
  }

  /** Collect: the cached status, collected first if there is none. */
  function Collect(a: Agent): Agent {
    if a.cached.None? then a.(cached := Some(a.status)) else a
  }

  predicate Acts(t: Target) {
    Protocol.Bootstraps(t) || Protocol.Joins(t)
  }

  /** Reconcile. Only a primary's target bootstraps, only a secondary's joins; the rest is left alone. */
  function Reconcile(a: Agent, t: Option<Target>, env: Env, hash: Hash): (Agent, bool) {
    if t.None? then (a, false)
    else
      var c := Collect(a);
      if Acts(t.value) then Apply(c, Wanted(t.value, env), c.cached.value, Protocol.Bootstraps(t.value), env, hash)
      else (c, true)
  }

  // ---- The restart decision ----

  /** Two different contents with the same hash. */
  predicate Collide(hash: Hash, x: string, y: string) {
    x != y && hash(x) == hash(y)
  }

  /** A hash is never the empty string, which stands for a missing file. */
  ghost predicate Proper(hash: Hash) {
    forall s: string :: hash(s) != ""
  }

  /** The file can be read and holds this content. */
  predicate Holds(a: Agent, content: string, env: Env) {
    a.file == Some(content) && env.visible && env.readable
  }

  /**
   * A restart is needed exactly when the file could not be seen or its content differed, and then the file has been
   * rewritten. It fails only for lack of an address, of a readable file, or of a completed write.
   */
  lemma ConfigureMeaning(a: Agent, wanted: Option<string>, env: Env, hash: Hash)
    requires Proper(hash)
    requires wanted.Some? && a.file.Some? ==> !Collide(hash, a.file.value, wanted.value)
    ensures var (a', result) := Configure(a, wanted, env, hash);
            && a' == a.(file := a'.file, writes := a'.writes)
            && ((a'.writes > a.writes) <==> a'.file != a.file) && a'.writes >= a.writes
            && (!result.ConfigFailed? ==> wanted.Some? && a'.file == wanted)
            && (result.Unchanged? <==> wanted.Some? && Holds(a, wanted.value, env))
            && (result.ConfigFailed? <==>
                || wanted.None?
                || (a.file.Some? && env.visible && !env.readable)
                || (env.write.WriteFailed? && !Holds(a, wanted.value, env)))
  {
    if wanted.Some? && a.file.Some? && hash(a.file.value) == hash(wanted.value) {
      assert a.file == wanted;
    }
  }

  /** A success leaves the file without the wanted content exactly on a hash collision with what it held. */
  lemma CollisionKeepsOldFile(a: Agent, wanted: string, env: Env, hash: Hash)
    requires Proper(hash) && !Configure(a, Some(wanted), env, hash).1.ConfigFailed?
    ensures Configure(a, Some(wanted), env, hash).0.file != Some(wanted) <==>
            a.file.Some? && env.visible && Collide(hash, a.file.value, wanted)
  {
  }

  // ---- The live process runs the current configuration ----

  /** A live process was started after the last change of the file, hence with its present content. */
  predicate Fresh(a: Agent) {
    a.child.Some? ==> a.child.value.writes == a.writes && a.child.value.config == a.file
  }

  /** The file is about to be rewritten, and the write fails after it has changed the content. */
  predicate SpoilsFile(a: Agent, wanted: Option<string>, env: Env, hash: Hash) {
    && wanted.Some? && env.write.WriteFailed? && env.write.left != a.file
    && (a.file.Some? && env.visible ==>
          env.readable && (hash(a.file.value) == "" || hash(wanted.value) != hash(a.file.value)))
  }

  /** A reconcile whose write fails that way while a process is alive and stays so. */
  predicate Taints(a: Agent, t: Option<Target>, env: Env, hash: Hash) {
    && t.Some? && Acts(t.value)
    && SpoilsFile(a, Wanted(t.value, env), env, hash)
    && a.child.Some? && BeforeConfigure !in env.exits && AfterConfigure !in env.exits
  }

  lemma ConfigureFreshness(a: Agent, wanted: Option<string>, env: Env, hash: Hash)
    requires Fresh(a)
    ensures Configure(a, wanted, env, hash).1.Unchanged? ==> Configure(a, wanted, env, hash).0 == a
    ensures Configure(a, wanted, env, hash).1.ConfigFailed? ==>
              (Fresh(Configure(a, wanted, env, hash).0) <==> a.child.None? || !SpoilsFile(a, wanted, env, hash))
    ensures SpoilsFile(a, wanted, env, hash) ==> Configure(a, wanted, env, hash).1.ConfigFailed?
    ensures Configure(a, wanted, env, hash).0.child == a.child
  {
  }

  lemma RestartIsFresh(a: Agent, newCluster: bool, env: Env)
    ensures Fresh(Restart(a, newCluster, env).0)
  {
  }

  lemma ApplyFreshness(a: Agent, wanted: Option<string>, fact: ProcStatus, newCluster: bool, env: Env, hash: Hash)
    requires Fresh(a)
    ensures Fresh(Apply(a, wanted, fact, newCluster, env, hash).0) <==>
            !(SpoilsFile(a, wanted, env, hash) && a.child.Some? && BeforeConfigure !in env.exits && AfterConfigure !in env.exits)
  {
    var before := ExitAt(a, env, BeforeConfigure);
    ConfigureFreshness(before, wanted, env, hash);
    var (configured, result) := Configure(before, wanted, env, hash);
    RestartIsFresh(ExitAt(configured, env, AfterConfigure), newCluster, env);
  }

  /** A reconcile keeps the live process current, exactly unless a write fails halfway beside a live process. */
  lemma ReconcileKeepsFresh(a: Agent, t: Option<Target>, env: Env, hash: Hash)
    requires Fresh(a)
    ensures Fresh(Reconcile(a, t, env, hash).0) <==> !Taints(a, t, env, hash)
  {
    if t.Some? && Acts(t.value) {
      var c := Collect(a);
      ApplyFreshness(c, Wanted(t.value, env), c.cached.value, Protocol.Bootstraps(t.value), env, hash);
    }
  }

  /**
   * A process that is not current survives a successful configure-and-run exactly when the file already has the
   * wanted hash, the report says running, and the process does not exit.
   */
  lemma RecoveryIff(a: Agent, wanted: Option<string>, fact: ProcStatus, newCluster: bool, env: Env, hash: Hash)
    requires !Fresh(a) && Apply(a, wanted, fact, newCluster, env, hash).1
    ensures !Fresh(Apply(a, wanted, fact, newCluster, env, hash).0) <==>
            && wanted.Some? && a.file.Some? && env.visible && hash(a.file.value) != "" && hash(wanted.value) == hash(a.file.value)
            && fact == Running && BeforeConfigure !in env.exits && AfterConfigure !in env.exits
  {
    var (configured, result) := Configure(ExitAt(a, env, BeforeConfigure), wanted, env, hash);
    RestartIsFresh(ExitAt(configured, env, AfterConfigure), newCluster, env);
  }

  /** What happens to an agent between and during its reconciles. */
  datatype Event = Reconciled(target: Option<Target>, env: Env) | Collected | Exited | Finalized

  /** A doomed agent comes to nothing any more. */
  function Happen(a: Agent, e: Event, hash: Hash): Agent {
    if a.doomed then a
    else match e
    case Reconciled(t, env) => Reconcile(a, t, env, hash).0
    case Collected => a.(cached := Some(a.status))
    case Exited => a.(child := None)
    case Finalized => if a.child.None? && a.status == Running then a.(status := Stopped) else a
  }

  function HappenAll(a: Agent, events: seq<Event>, hash: Hash): Agent
    decreases |events|
  {
    if events == [] then a else HappenAll(Happen(a, events[0], hash), events[1..], hash)
  }

  predicate NeverTainted(a: Agent, events: seq<Event>, hash: Hash)
    decreases |events|
  {
    events == [] || (
      && (events[0].Reconciled? && !a.doomed ==> !Taints(a, events[0].target, events[0].env, hash))
      && NeverTainted(Happen(a, events[0], hash), events[1..], hash))
  }

  lemma HappenKeepsFresh(a: Agent, e: Event, hash: Hash)
    requires Fresh(a)
    ensures Fresh(Happen(a, e, hash)) <==> !(e.Reconciled? && !a.doomed && Taints(a, e.target, e.env, hash))
  {
    if e.Reconciled? {
      ReconcileKeepsFresh(a, e.target, e.env, hash);
    }
  }

  /**
   * Over any sequence of targets, stale reports, start failures and process deaths, a live process runs the current
   * configuration at every return, as long as no write fails halfway beside a live process.
   */
  lemma {:induction false} LiveProcessIsCurrent(a: Agent, events: seq<Event>, hash: Hash)
    requires Fresh(a) && NeverTainted(a, events, hash)
    ensures Fresh(HappenAll(a, events, hash))
    decreases |events|
  {
    if events != [] {
      HappenKeepsFresh(a, events[0], hash);
      LiveProcessIsCurrent(Happen(a, events[0], hash), events[1..], hash);
    }
  }

  /** The process may be alive only while the manager says running. */
  predicate Consistent(a: Agent) {
    a.child.Some? ==> a.status == Running
  }

  lemma ApplyIsConsistent(a: Agent, wanted: Option<string>, fact: ProcStatus, newCluster: bool, env: Env, hash: Hash)
    requires Consistent(a)
    ensures Consistent(Apply(a, wanted, fact, newCluster, env, hash).0)
  {
  }

  lemma {:induction false} StatusCoversChild(a: Agent, events: seq<Event>, hash: Hash)
    requires Consistent(a)
    ensures Consistent(HappenAll(a, events, hash))
    decreases |events|
  {
    if events != [] {
      var e := events[0];
      if e.Reconciled? && e.target.Some? && Acts(e.target.value) {
        var c := Collect(a);
        ApplyIsConsistent(c, Wanted(e.target.value, e.env), c.cached.value, Protocol.Bootstraps(e.target.value), e.env, hash);
      }
      StatusCoversChild(Happen(a, e, hash), events[1..], hash);
    }
  }

  // ---- The end of an agent ----

  lemma ApplyDoom(a: Agent, wanted: Option<string>, fact: ProcStatus, newCluster: bool, env: Env, hash: Hash)
    requires !a.doomed
    ensures var a' := Apply(a, wanted, fact, newCluster, env, hash).0;
            && (a'.doomed <==> a.starts == 0 && a'.stops == a.stops + 1 && !env.startOk)
            && (a'.doomed ==> a'.starts == 0 && a'.child == None)
  {
  }

  /** A reconcile dooms the agent exactly if it gets as far as a start, that start fails, and none has ever succeeded. */
  lemma DoomIff(a: Agent, t: Option<Target>, env: Env, hash: Hash)
    requires !a.doomed
    ensures var a' := Reconcile(a, t, env, hash).0;
            a'.doomed <==> a.starts == 0 && a'.stops == a.stops + 1 && !env.startOk
    ensures DoomIsEmpty(Reconcile(a, t, env, hash).0)
  {
    if t.Some? && Acts(t.value) {
      var c := Collect(a);
      ApplyDoom(c, Wanted(t.value, env), c.cached.value, Protocol.Bootstraps(t.value), env, hash);
    }
  }

  /** An agent that has started a process once never ends that way, and one that does leaves no process behind. */
  predicate DoomIsEmpty(a: Agent) {
    a.doomed ==> a.starts == 0 && a.child == None
  }

  lemma {:induction false} DoomedNeverStarted(a: Agent, events: seq<Event>, hash: Hash)
    requires DoomIsEmpty(a)
    ensures DoomIsEmpty(HappenAll(a, events, hash))
    ensures a.starts > 0 ==> !HappenAll(a, events, hash).doomed
    decreases |events|
  {
    if events != [] {
      var e := events[0];
      if e.Reconciled? && !a.doomed {
        DoomIff(a, e.target, e.env, hash);
        StartsAsTold(a, e.target, e.env, hash);
      }
      DoomedNeverStarted(Happen(a, e, hash), events[1..], hash);
    }
  }

  // ---- Repetition ----

  /** With the wanted file in place, a running report and no exit, nothing happens at all. */
  lemma SettledIsFixpoint(a: Agent, wanted: string, newCluster: bool, env: Env, hash: Hash)
    requires Proper(hash) && Holds(a, wanted, env) && env.exits == {}
    ensures Apply(a, Some(wanted), Running, newCluster, env, hash) == (a, true)
  {
    assert hash(wanted) != "";
  }

  lemma AppliedFile(a: Agent, wanted: Option<string>, fact: ProcStatus, newCluster: bool, env: Env, hash: Hash)
    requires Proper(hash) && Apply(a, wanted, fact, newCluster, env, hash).1
    requires wanted.Some? && a.file.Some? ==> !Collide(hash, a.file.value, wanted.value)
    ensures wanted.Some? && Apply(a, wanted, fact, newCluster, env, hash).0.file == wanted
  {
    ConfigureMeaning(ExitAt(a, env, BeforeConfigure), wanted, env, hash);
  }

  /** After a success, the same target with the same address and a running report stops and starts nothing. */
  lemma ReconcileIsIdempotent(a: Agent, t: Target, env: Env, env': Env, hash: Hash)
    requires Proper(hash) && Acts(t) && Reconcile(a, Some(t), env, hash).1
    requires Wanted(t, env).Some? && a.file.Some? ==> !Collide(hash, a.file.value, Wanted(t, env).value)
    requires env'.ip == env.ip && env'.visible && env'.readable && env'.exits == {}
    ensures var b := Reconcile(a, Some(t), env, hash).0.(cached := Some(Running));
            Reconcile(b, Some(t), env', hash) == (b, true)
  {
    var c := Collect(a);
    var wanted := Wanted(t, env);
    AppliedFile(c, wanted, c.cached.value, Protocol.Bootstraps(t), env, hash);
    var b := Reconcile(a, Some(t), env, hash).0.(cached := Some(Running));
    assert Wanted(t, env') == wanted;
    SettledIsFixpoint(b, wanted.value, Protocol.Bootstraps(t), env', hash);
  }

  // ---- An outdated process ----

  /** A live process that was started before the last change of the file, while the manager and the report say running. */
  predicate Outdated(a: Agent) {
    a.child.Some? && a.child.value.writes < a.writes && a.status == Running && a.cached == Some(Running) && !a.doomed
  }

  /** A live process was started at the last change of the file, with its present content, or before that change. */
  predicate Tracked(a: Agent) {
    a.child.Some? ==> a.child.value.writes < a.writes || (a.child.value.writes == a.writes && a.child.value.config == a.file)
  }

  /** Over any events, a live process is current exactly if the file has not changed since its start. */
  lemma {:induction false} StaysTracked(a: Agent, events: seq<Event>, hash: Hash)
    requires Tracked(a)
    ensures var b := HappenAll(a, events, hash);
            Tracked(b) && (b.child.Some? ==> (Fresh(b) <==> b.child.value.writes == b.writes))
    decreases |events|
  {
    if events != [] {
      StepStaysTracked(a, events[0], hash);
      StaysTracked(Happen(a, events[0], hash), events[1..], hash);
    }
  }

  lemma ApplyStaysTracked(a: Agent, wanted: Option<string>, fact: ProcStatus, newCluster: bool, env: Env, hash: Hash)
    requires Tracked(a)
    ensures Tracked(Apply(a, wanted, fact, newCluster, env, hash).0)
  {
  }

  lemma StepStaysTracked(a: Agent, e: Event, hash: Hash)
    requires Tracked(a)
    ensures Tracked(Happen(a, e, hash))
  {
    if e.Reconciled? && e.target.Some? && Acts(e.target.value) {
      var c := Collect(a);
      ApplyStaysTracked(c, Wanted(e.target.value, e.env), c.cached.value, Protocol.Bootstraps(e.target.value), e.env, hash);
    }
  }

  /** The file is seen and has the hash of the wanted content. */
  predicate LooksUnchanged(a: Agent, wanted: Option<string>, env: Env, hash: Hash) {
    wanted.Some? && a.file.Some? && env.visible && env.readable && hash(a.file.value) == hash(wanted.value)
  }

  /**
   * The event does not touch the process. It does not exit, and a reconcile that acts either finds nothing to change
   * or fails for lack of an address, of a readable file, or of a completed write.
   */
  predicate Spares(a: Agent, e: Event, hash: Hash) {
    match e
    case Exited => false
    case Reconciled(t, env) =>
      t.Some? && Acts(t.value) ==>
        && BeforeConfigure !in env.exits && AfterConfigure !in env.exits
        && var wanted := Wanted(t.value, env);
           || wanted.None? || (a.file.Some? && env.visible && !env.readable)
           || LooksUnchanged(a, wanted, env, hash) || env.write.WriteFailed?
    case _ => true
  }

  predicate SparesAll(a: Agent, events: seq<Event>, hash: Hash)
    decreases |events|
  {
    events == [] || (Spares(a, events[0], hash) && SparesAll(Happen(a, events[0], hash), events[1..], hash))
  }

  lemma ConfigureSpares(a: Agent, wanted: Option<string>, env: Env, hash: Hash)
    requires Proper(hash)
    ensures var (b, result) := Configure(a, wanted, env, hash);
            && b.child == a.child && b.writes >= a.writes && b == a.(file := b.file, writes := b.writes)
            && (result.Unchanged? <==> LooksUnchanged(a, wanted, env, hash))
            && (result.Changed? <==> !LooksUnchanged(a, wanted, env, hash) && wanted.Some? && env.write.Written?
                                     && !(a.file.Some? && env.visible && !env.readable))
  {
  }

  /** After a restart there is another process, or none. */
  lemma RestartEndsIt(a: Agent, newCluster: bool, env: Env)
    ensures var b := Restart(a, newCluster, env).0; b.starts == a.starts + 1 || (b.starts == a.starts && b.child == None)
  {
  }

  lemma ApplySparesIff(a: Agent, t: Target, env: Env, hash: Hash)
    requires Proper(hash) && Outdated(a) && Acts(t)
    ensures var b := Apply(a, Wanted(t, env), Running, Protocol.Bootstraps(t), env, hash).0;
            && (b.child == a.child && b.starts == a.starts <==> Spares(a, Reconciled(Some(t), env), hash))
            && (Spares(a, Reconciled(Some(t), env), hash) ==> Outdated(b))
  {
    var wanted, before := Wanted(t, env), ExitAt(a, env, BeforeConfigure);
    var (configured, result) := Configure(before, wanted, env, hash);
    var ready := ExitAt(configured, env, AfterConfigure);
    ConfigureSpares(before, wanted, env, hash);
    if !result.ConfigFailed? && !result.Unchanged? {
      RestartEndsIt(ready, Protocol.Bootstraps(t), env);
    }
  }

  lemma SparesIff(a: Agent, e: Event, hash: Hash)
    requires Proper(hash) && Outdated(a)
    ensures var b := Happen(a, e, hash);
            && (b.child == a.child && b.starts == a.starts <==> Spares(a, e, hash))
            && (Spares(a, e, hash) ==> Outdated(b))
  {
    if e.Reconciled? && e.target.Some? && Acts(e.target.value) {
      ApplySparesIff(a, e.target.value, e.env, hash);
    }
  }

  /** A process that is gone does not come back; another one needs another start. */
  ghost predicate NoReturn(a: Agent, b: Agent) {
    b.starts >= a.starts && (b.starts == a.starts ==> b.child == a.child || b.child == None)
  }

  lemma {:induction false} GoneForGood(a: Agent, events: seq<Event>, hash: Hash)
    ensures NoReturn(a, HappenAll(a, events, hash))
    decreases |events|
  {
    if events != [] {
      StepIsNoReturn(a, events[0], hash);
      GoneForGood(Happen(a, events[0], hash), events[1..], hash);
    }
  }

  lemma ApplyIsNoReturn(a: Agent, wanted: Option<string>, fact: ProcStatus, newCluster: bool, env: Env, hash: Hash)
    ensures NoReturn(a, Apply(a, wanted, fact, newCluster, env, hash).0)
  {
  }

  lemma StepIsNoReturn(a: Agent, e: Event, hash: Hash)
    ensures NoReturn(a, Happen(a, e, hash))
  {
    if e.Reconciled? && e.target.Some? && Acts(e.target.value) {
      var c := Collect(a);
      ApplyIsNoReturn(c, Wanted(e.target.value, e.env), c.cached.value, Protocol.Bootstraps(e.target.value), e.env, hash);
    }
  }

  /**
   * Over any sequence of events an outdated process lives on exactly if every one of them spares it. As long as it
   * lives it stays outdated, so only its end or a restart repairs the agent.
   */
  lemma {:induction false} OutdatedSurvivesIff(a: Agent, events: seq<Event>, hash: Hash)
    requires Proper(hash) && Outdated(a)
    ensures var b := HappenAll(a, events, hash);
            && (b.child == a.child && b.starts == a.starts <==> SparesAll(a, events, hash))
            && (SparesAll(a, events, hash) ==> Outdated(b) && !Fresh(b))
    decreases |events|
  {
    if events != [] {
      var m := Happen(a, events[0], hash);
      SparesIff(a, events[0], hash);
      StepIsNoReturn(a, events[0], hash);
      if Spares(a, events[0], hash) {
        OutdatedSurvivesIff(m, events[1..], hash);
      } else {
        GoneForGood(m, events[1..], hash);
      }
    }
  }

  /** Not an exit, and if it is a reconcile that acts, it asks for exactly this content, can read it, and nothing exits. */
  predicate AsksFor(content: string, e: Event) {
    match e
    case Exited => false
    case Reconciled(t, env) =>
      t.Some? && Acts(t.value) ==> Wanted(t.value, env) == Some(content) && env.visible && env.readable && env.exits == {}
    case _ => true
  }

  /**
   * A write that fails only after the whole content is in place is not repaired by asking for it again: as long as every
   * reconcile that acts asks for that content and finds it, and the process does not exit, nothing happens at all. Reports,
   * finalizers and targets that ask for nothing may come in between.
   */
  lemma {:induction false} SpoiledForGood(a: Agent, events: seq<Event>, hash: Hash)
    requires Proper(hash) && Outdated(a) && a.file.Some?
    requires forall i | 0 <= i < |events| :: AsksFor(a.file.value, events[i])
    ensures HappenAll(a, events, hash) == a && !Fresh(a)
    decreases |events|
  {
    if events != [] {
      var e := events[0];
      if e.Reconciled? && e.target.Some? && Acts(e.target.value) {
        SettledIsFixpoint(a, a.file.value, Protocol.Bootstraps(e.target.value), e.env, hash);
      }
      assert Happen(a, e, hash) == a;
      SpoiledForGood(a, events[1..], hash);
    }
  }

  /** A new agent, before its first reconcile: no process, no report, and whatever is left of the file. */
  function NewAgent(file: Option<string>, flag: bool): Agent {
    Agent(file, 0, Unknown, None, flag, None, 0, 0, false)
  }

  lemma HappenTwice(a: Agent, e: Event, e': Event, hash: Hash)
    ensures HappenAll(a, [e, e'], hash) == Happen(Happen(a, e, hash), e', hash)
  {
    var m := Happen(a, e, hash);
    assert [e, e'][1..] == [e'] && [e'][1..] == [];
    assert HappenAll(m, [e'], hash) == HappenAll(Happen(m, e', hash), [], hash);
  }

  /** With no process yet, a healthy reconcile and a report lead to a process that runs the wanted file. */
  lemma FirstReconcile(a: Agent, t: Target, env: Env, hash: Hash)
    requires Proper(hash) && Acts(t) && Healthy(env) && a.cached == None && a.status == Unknown && !a.doomed
    requires a.file.Some? ==> !Collide(hash, a.file.value, Wanted(t, env).value)
    ensures var b := HappenAll(a, [Reconciled(Some(t), env), Collected], hash);
            && b.child == Some(Child(b.writes, Wanted(t, env), Protocol.Bootstraps(t)))
            && b.file == Wanted(t, env) && b.cached == Some(Running) && b.status == Running && !b.doomed && b.starts == a.starts + 1
  {
    HealthyReconcileStarts(a, t, env, hash);
    HappenTwice(a, Reconciled(Some(t), env), Collected, hash);
  }

  /** The write of the new content reports a failure although all of it is in the file. */
  lemma FailedWriteSpoils(a: Agent, t: Target, env: Env, hash: Hash)
    requires Acts(t) && Wanted(t, env).Some? && env.visible && env.readable && env.exits == {}
    requires env.write == WriteFailed(Wanted(t, env)) && !a.doomed && a.cached == Some(Running) && a.status == Running
    requires a.child.Some? && Fresh(a) && a.file.Some? && hash(a.file.value) != hash(Wanted(t, env).value)
    ensures var b := Happen(a, Reconciled(Some(t), env), hash);
            b.child == a.child && Outdated(b) && b.file == Wanted(t, env) && b.starts == a.starts
  {
  }

  /**
   * A new agent gets there: it reconciles some target while all is well, and then another one, or the same one with
   * another address of its own, while the write fails only after the whole content is in place. Whatever follows, as long
   * as it asks for that content and finds it, the process of the first target runs on beside the file of the second.
   */
  lemma SpoiledForGoodIsReachable(file: Option<string>, flag: bool, first: Target, t: Target, env: Env, env': Env, hash: Hash, later: seq<Event>)
    returns (events: seq<Event>)
    requires Proper(hash) && Acts(first) && Acts(t) && Healthy(env)
    requires file.Some? ==> !Collide(hash, file.value, Wanted(first, env).value)
    requires Wanted(t, env').Some? && env'.visible && env'.readable && env'.exits == {} && env'.write == WriteFailed(Wanted(t, env'))
    requires hash(Wanted(first, env).value) != hash(Wanted(t, env').value)
    requires forall i | 0 <= i < |later| :: AsksFor(Wanted(t, env').value, later[i])
    ensures var a := HappenAll(NewAgent(file, flag), events + later, hash);
            && Outdated(a) && a.child.value.config == Wanted(first, env) && a.file == Wanted(t, env') && a.starts == 1
  {
    var a := NewAgent(file, flag);
    var begin, fail := [Reconciled(Some(first), env), Collected], Reconciled(Some(t), env');
    FirstReconcile(a, first, env, hash);
    var b := HappenAll(a, begin, hash);
    FailedWriteSpoils(b, t, env', hash);
    var c := Happen(b, fail, hash);
    SpoiledForGood(c, later, hash);
    events := begin + [fail];
    HappenConcat(a, begin, [fail] + later, hash);
    assert begin + ([fail] + later) == events + later;
    assert ([fail] + later)[1..] == later;
  }

  lemma {:induction false} HappenConcat(a: Agent, first: seq<Event>, rest: seq<Event>, hash: Hash)
    ensures HappenAll(a, first + rest, hash) == HappenAll(HappenAll(a, first, hash), rest, hash)
    decreases |first|
  {
    if first == [] {
      assert first + rest == rest;
    } else {
      assert (first + rest)[1..] == first[1..] + rest;
      HappenConcat(Happen(a, first[0], hash), first[1..], rest, hash);
    }
  }

  lemma OtherFileRestarts(a: Agent, wanted: string, fact: ProcStatus, newCluster: bool, env: Env, hash: Hash)
    requires a.file.Some? && a.file.value != wanted && !Collide(hash, a.file.value, wanted)
    requires env.visible && env.readable && env.write.Written?
    ensures Apply(a, Some(wanted), fact, newCluster, env, hash).0.stops == a.stops + 1
  {
  }

  /**
   * The order of the addresses matters: the same peers listed in another order are another file, so a running
   * secondary is stopped and started again.
   */
  lemma OtherOrderRestarts(a: Agent, t: Target, listed: seq<string>, env: Env, hash: Hash)
    requires Protocol.Joins(t) && env.ip.Some? && Plain(env.ip.value) && env.visible && env.readable && env.write.Written?
    requires AllPlain(listed) && AllPlain(t.addresses) && multiset(listed) == multiset(t.addresses) && listed != t.addresses
    requires a.file == Some(Render(listed, env.ip.value))
    requires !Collide(hash, Render(listed, env.ip.value), Render(t.addresses, env.ip.value))
    ensures Reconcile(a, Some(t), env, hash).0.stops == a.stops + 1
  {
    RenderInjective(listed, env.ip.value, t.addresses, env.ip.value);
    assert |listed| == |multiset(listed)| == |multiset(t.addresses)| == |t.addresses|;
    var c, wanted := Collect(a), Wanted(t, env).value;
    OtherFileRestarts(c, wanted, c.cached.value, Protocol.Bootstraps(t), env, hash);
  }

  // ---- What the protocol relies on ----

  /** At most one start, on the file as it then is; the flag is touched only after a start. */
  lemma ApplyStarts(a: Agent, wanted: Option<string>, fact: ProcStatus, newCluster: bool, env: Env, hash: Hash)
    ensures var a' := Apply(a, wanted, fact, newCluster, env, hash).0;
            && (a'.starts == a.starts || a'.starts == a.starts + 1)
            && (a'.starts > a.starts && a'.child.Some? ==> a'.child.value.newCluster == newCluster && a'.child.value.config == a'.file)
            && (a'.flag <==> a.flag || (a'.starts > a.starts && env.touchOk))
  {
  }

  /** What is asked for, by the fields of the target. */
  predicate IsAsked(t: Target) {
    (t.role == Primary && t.galeraNewCluster) || (t.role == Secondary && t.mariadbStarted)
  }

  /**
   * A reconcile starts at most one process, only for a target that bootstraps or joins, with `--wsrep-new-cluster`
   * exactly if it bootstraps, and on the file as it then is; it touches the flag only after such a start. A target
   * bootstraps if it asks a primary for a new cluster, and joins if it asks a secondary for a started database.
   */
  lemma StartsAsTold(a: Agent, t: Option<Target>, env: Env, hash: Hash)
    ensures var a' := Reconcile(a, t, env, hash).0;
            && (a'.starts == a.starts || a'.starts == a.starts + 1)
            && (a'.starts > a.starts ==>
                  && t.Some? && IsAsked(t.value)
                  && (a'.child.Some? ==> (a'.child.value.newCluster <==> t.value.role == Primary) && a'.child.value.config == a'.file))
            && (a'.flag <==> a.flag || (a'.starts > a.starts && env.touchOk))
  {
    if t.Some? && Acts(t.value) {
      var c := Collect(a);
      ApplyStarts(c, Wanted(t.value, env), c.cached.value, Protocol.Bootstraps(t.value), env, hash);
    }
  }

  /** Nothing goes wrong and nothing dies. */
  predicate Healthy(env: Env) {
    env.ip.Some? && env.readable && env.write.Written? && env.startOk && env.touchOk && env.exits == {}
  }

  lemma HealthyApply(a: Agent, wanted: string, fact: ProcStatus, newCluster: bool, env: Env, hash: Hash)
    requires Proper(hash) && Healthy(env) && fact != Running
    requires a.file.Some? ==> !Collide(hash, a.file.value, wanted)
    ensures Apply(a, Some(wanted), fact, newCluster, env, hash).1
    ensures var a' := Apply(a, Some(wanted), fact, newCluster, env, hash).0;
            a'.child == Some(Child(a'.writes, Some(wanted), newCluster)) && a'.file == Some(wanted) && a'.flag
            && a'.status == Running && a'.doomed == a.doomed && a'.starts == a.starts + 1
  {
    ConfigureMeaning(a, Some(wanted), env, hash);
  }

  /** The database status that a reconcile goes by: the last one collected, however old, or else the present one. */
  function Fact(a: Agent): ProcStatus {
    if a.cached.Some? then a.cached.value else a.status
  }

  /** A target that asks for it gets a database started on the wanted file, and the flag, when nothing goes wrong. */
  lemma HealthyReconcileStarts(a: Agent, t: Target, env: Env, hash: Hash)
    requires Proper(hash) && Healthy(env) && IsAsked(t) && Fact(a) != Running
    requires a.file.Some? ==> !Collide(hash, a.file.value, Render(t.addresses, env.ip.value))
    ensures Reconcile(a, Some(t), env, hash).1
    ensures var a', file := Reconcile(a, Some(t), env, hash).0, Some(Render(t.addresses, env.ip.value));
            a'.child == Some(Child(a'.writes, file, t.role == Primary)) && a'.file == file && a'.flag
    ensures Reconcile(a, Some(t), env, hash).0.status == Running && Reconcile(a, Some(t), env, hash).0.doomed == a.doomed
    ensures Reconcile(a, Some(t), env, hash).0.starts == a.starts + 1
  {
    var c := Collect(a);
    HealthyApply(c, Wanted(t, env).value, c.cached.value, Protocol.Bootstraps(t), env, hash);
  }

  // ---- What the collected status is for ----

  /** A collection caches what the manager says at that moment, and does nothing else. */
  lemma CollectionTellsStatus(a: Agent, hash: Hash)
    requires !a.doomed
    ensures var b := Happen(a, Collected, hash);
            && b == a.(cached := b.cached) && b.cached.Some?
            && (b.cached.value == Running <==> a.status == Running)
            && (b.cached.value == Stopped <==> a.status == Stopped)
            && Fact(b) == a.status
  {
  }

  /** A reconcile without a report collects one; with one it goes by that one, and leaves it as it is. */
  lemma ReconcileGoesByReport(a: Agent, t: Option<Target>, env: Env, hash: Hash)
    requires t.Some?
    ensures Reconcile(a, t, env, hash).0.cached == Some(Fact(a))
  {
    if Acts(t.value) {
      ApplyKeepsReport(Collect(a), Wanted(t.value, env), Fact(a), Protocol.Bootstraps(t.value), env, hash);
    }
  }

  lemma ApplyKeepsReport(a: Agent, wanted: Option<string>, fact: ProcStatus, newCluster: bool, env: Env, hash: Hash)
    ensures Apply(a, wanted, fact, newCluster, env, hash).0.cached == a.cached
  {
  }

  /** After its process has died, has been finalized and has been reported, the agent is at rest. */
  lemma AfterDeath(a: Agent, hash: Hash)
    requires Consistent(a) && !a.doomed
    ensures var b := HappenAll(a, [Exited, Finalized, Collected], hash);
            && b == a.(child := None, status := b.status, cached := Some(b.status)) && b.status != Running
  {
    var dead := Happen(a, Exited, hash);
    HappenTwice(dead, Finalized, Collected, hash);
    assert [Exited, Finalized, Collected][1..] == [Finalized, Collected];
    assert HappenAll(a, [Exited, Finalized, Collected], hash) == HappenAll(dead, [Finalized, Collected], hash);
  }

  /** A process that dies is started again: the next healthy reconcile after its end has been reported does it. */
  lemma DeadIsRestarted(a: Agent, t: Target, env: Env, hash: Hash)
    requires Proper(hash) && Consistent(a) && !a.doomed && Healthy(env) && IsAsked(t)
    requires a.file.Some? ==> !Collide(hash, a.file.value, Render(t.addresses, env.ip.value))
    ensures var b := HappenAll(a, [Exited, Finalized, Collected], hash);
            && Reconcile(b, Some(t), env, hash).1
            && var c := Reconcile(b, Some(t), env, hash).0;
               && c.child == Some(Child(c.writes, Some(Render(t.addresses, env.ip.value)), t.role == Primary))
               && c.file == Some(Render(t.addresses, env.ip.value)) && c.status == Running && c.starts == a.starts + 1
  {
    AfterDeath(a, hash);
    var b := HappenAll(a, [Exited, Finalized, Collected], hash);
    HealthyReconcileStarts(b, t, env, hash);
  }

  /**
   * Until that report a death can go unnoticed: a healthy reconcile of a dead process starts one exactly unless it goes by
   * an old report that says running and the file is as wanted; then it does nothing and succeeds.
   */
  lemma DeadIsRestartedIff(a: Agent, t: Target, env: Env, hash: Hash)
    requires Proper(hash) && a.child == None && a.status != Running && Healthy(env) && IsAsked(t)
    requires a.file.Some? ==> !Collide(hash, a.file.value, Render(t.addresses, env.ip.value))
    ensures var b := Reconcile(a, Some(t), env, hash);
            && b.1
            && (b.0.starts == a.starts + 1 && b.0.child.Some? <==>
                !(a.cached == Some(Running) && Holds(a, Render(t.addresses, env.ip.value), env)))
            && (a.cached == Some(Running) && Holds(a, Render(t.addresses, env.ip.value), env) ==> b.0 == a)
  {
    if Fact(a) != Running {
      HealthyReconcileStarts(a, t, env, hash);
    } else {
      HealthyApplyIff(a, Render(t.addresses, env.ip.value), Protocol.Bootstraps(t), env, hash);
    }
  }

  lemma HealthyApplyIff(a: Agent, wanted: string, newCluster: bool, env: Env, hash: Hash)
    requires Proper(hash) && a.child == None && Healthy(env)
    requires a.file.Some? ==> !Collide(hash, a.file.value, wanted)
    ensures var b := Apply(a, Some(wanted), Running, newCluster, env, hash);
            && b.1
            && (b.0.starts == a.starts + 1 && b.0.child.Some? <==> !Holds(a, wanted, env))
            && (Holds(a, wanted, env) ==> b.0 == a)
  {
    ConfigureMeaning(a, Some(wanted), env, hash);
  }

  lemma ConfigureKeepsProcess(a: Agent, wanted: Option<string>, env: Env, hash: Hash)
    ensures var b := Configure(a, wanted, env, hash).0; b.child == a.child && b.stops == a.stops && b.starts == a.starts
  {
  }

  lemma RestartLeaves(a: Agent, newCluster: bool, env: Env)
    ensures var b := Restart(a, newCluster, env).0;
            && b.stops == a.stops + 1 && b.starts == (if env.startOk then a.starts + 1 else a.starts)
            && (b.child == None <==> !env.startOk || AfterStart in env.exits)
  {
  }

  lemma ApplyExits(a: Agent, wanted: Option<string>, fact: ProcStatus, newCluster: bool, env: Env, hash: Hash)
    ensures var b := Apply(a, wanted, fact, newCluster, env, hash).0;
            && (b.starts == a.starts + 1 ==> (b.child == None <==> AfterStart in env.exits))
            && (b.stops == a.stops + 1 && b.starts == a.starts ==> b.child == None)
            && (b.stops == a.stops ==>
                  b.child == if BeforeConfigure in env.exits || AfterConfigure in env.exits then None else a.child)
  {
    var before := ExitAt(a, env, BeforeConfigure);
    ConfigureKeepsProcess(before, wanted, env, hash);
    RestartLeaves(ExitAt(Configure(before, wanted, env, hash).0, env, AfterConfigure), newCluster, env);
  }

  /**
   * Which process is left by a reconcile that acts: the new one unless it exits again, none after a failed start, and
   * without a restart the old one unless it exits meanwhile.
   */
  lemma ProcessAfterReconcile(a: Agent, t: Target, env: Env, hash: Hash)
    requires IsAsked(t)
    ensures var b := Reconcile(a, Some(t), env, hash).0;
            && (b.starts == a.starts + 1 ==> (b.child == None <==> AfterStart in env.exits))
            && (b.stops == a.stops + 1 && b.starts == a.starts ==> b.child == None)
            && (b.stops == a.stops ==>
                  b.child == if BeforeConfigure in env.exits || AfterConfigure in env.exits then None else a.child)
  {
    var c := Collect(a);
    ApplyExits(c, Wanted(t, env), c.cached.value, Protocol.Bootstraps(t), env, hash);
  }

  // ---- When a reconcile succeeds ----

  lemma ApplySucceedsIff(a: Agent, wanted: Option<string>, fact: ProcStatus, newCluster: bool, env: Env, hash: Hash)
    requires Proper(hash)
    ensures Apply(a, wanted, fact, newCluster, env, hash).1 <==>
            && wanted.Some? && !(a.file.Some? && env.visible && !env.readable)
            && (LooksUnchanged(a, wanted, env, hash) || env.write.Written?)
            && ((LooksUnchanged(a, wanted, env, hash) && fact == Running) || (env.startOk && env.touchOk))
  {
    ConfigureSpares(ExitAt(a, env, BeforeConfigure), wanted, env, hash);
  }

  /**
   * A reconcile succeeds exactly if there is a target, and, should it ask for something, the agent knows its address, can
   * read the file, gets the content written where that is needed, and starts the process and touches the flag where that
   * is needed.
   */
  lemma ReconcileSucceedsIff(a: Agent, t: Option<Target>, env: Env, hash: Hash)
    requires Proper(hash)
    ensures Reconcile(a, t, env, hash).1 <==>
            && t.Some?
            && (IsAsked(t.value) ==>
                  var wanted := if env.ip.Some? then Some(Render(t.value.addresses, env.ip.value)) else None;
                  var same := LooksUnchanged(a, wanted, env, hash);
                  && env.ip.Some? && !(a.file.Some? && env.visible && !env.readable)
                  && (same || env.write.Written?) && ((same && Fact(a) == Running) || (env.startOk && env.touchOk)))
  {
    if t.Some? && Acts(t.value) {
      var c := Collect(a);
      ApplySucceedsIff(c, Wanted(t.value, env), c.cached.value, Protocol.Bootstraps(t.value), env, hash);
    }
  }
}
