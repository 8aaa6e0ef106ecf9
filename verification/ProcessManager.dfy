/**
 * The agent's process manager under any number of concurrent callers. Every goroutine is a thread with a program
 * counter; locking, unlocking, waiting, starting and each access to the shared fields are separate steps.
 */
module ProcessManager {
  import opened Entities
  import opened Sums

  /** How a call of RunMariaDB ends. Processes are numbered in the order in which they were started. */
  datatype RunResult = Launched(child: nat) | AlreadyRunning | StartFailed

  datatype Thread =
    // RunMariaDB
    | RunEntry                            // waits for `started`
    | RunLocked                           // holds `started`, waits for `mu`
    | RunCheck                            // holds both, reads State
    | RunStart                            // calls cmd.Start
    | RunRecord(child: nat, newPid: nat)  // assigns proc, State and PID
    | RunUnlock(result: RunResult)        // deferred: mu.Unlock
    | RunSpawn(result: RunResult)         // deferred: go finalize
    | RunDone(result: RunResult)
    // finalize
    | FinEntry(ran: RunResult)            // reads proc
    | FinWait(ran: RunResult, child: nat) // waits for that process
    | FinLock(ran: RunResult)             // waits for `mu`
    | FinWrite(ran: RunResult)            // holds `mu`, resets PID and State
    | FinUnlockMu
    | FinUnlockStarted
    | FinDone
    // StopMariaDB
    | StopEntry | StopCheck | StopSignal
    | StopUnlock(signalled: Option<nat>)  // the process that was asked to exit, if any
    | StopDone(signalled: Option<nat>)
    // GetState
    | GetEntry | GetRead | GetUnlock(seen: ProcStatus) | GetDone(seen: ProcStatus)

  /**
   * `live` holds the children that have not exited, `spawned` counts the successful starts, and `pids` has the process ids
   * that the operating system has given to them, in this order.
   */
  datatype Machine = Machine(
    status: ProcStatus,
    pid: nat,
    proc: Option<nat>,
    started: bool,
    mu: bool,
    live: set<nat>,
    spawned: nat,
    pids: seq<nat>,
    threads: seq<Thread>,
    crashed: bool)

  const IDLE := Machine(Unknown, 0, None, false, false, {}, 0, [], [], false)

  predicate IsCall(t: Thread) {
    t.RunEntry? || t.StopEntry? || t.GetEntry?
  }

  predicate IsDone(t: Thread) {
    t.RunDone? || t.FinDone? || t.StopDone? || t.GetDone?
  }

  predicate CanAdvance(m: Machine, i: nat) {
    && !m.crashed && i < |m.threads|
    && match m.threads[i]
       case RunEntry => !m.started
       case RunLocked => !m.mu
       case FinLock(_) => !m.mu
       case StopEntry => !m.mu
       case GetEntry => !m.mu
       case FinWait(_, child) => child !in m.live
       case t => !IsDone(t)
  }

  function Goto(m: Machine, i: nat, t: Thread): Machine
    requires i < |m.threads|
  {
    m.(threads := m.threads[i := t])
  }

  /** The next step of thread `i`. `start` is the operating system's answer to cmd.Start: a process id, or a failure. */
  function Advance(m: Machine, i: nat, start: Option<nat>): Machine
    requires CanAdvance(m, i)
  {
    match m.threads[i]
    case RunEntry => Goto(m, i, RunLocked).(started := true)
    case RunLocked => Goto(m, i, RunCheck).(mu := true)
    case RunCheck => Goto(m, i, if m.status == Running then RunUnlock(AlreadyRunning) else RunStart)
    case RunStart =>
      if start.None? then Goto(m, i, RunUnlock(StartFailed))
      else Goto(m, i, RunRecord(m.spawned, start.value)).(live := m.live + {m.spawned}, spawned := m.spawned + 1, pids := m.pids + [start.value])
    case RunRecord(child, newPid) =>
      Goto(m, i, RunUnlock(Launched(child))).(proc := Some(child), status := Running, pid := newPid)
    case RunUnlock(result) => Goto(m, i, RunSpawn(result)).(mu := false)
    case RunSpawn(result) => m.(threads := m.threads[i := RunDone(result)] + [FinEntry(result)])
    case FinEntry(ran) =>
      // Waiting for a process that was never started dereferences a nil pointer and ends the agent.
      if m.proc.None? then m.(crashed := true) else Goto(m, i, FinWait(ran, m.proc.value))
    case FinWait(ran, _) => Goto(m, i, FinLock(ran))
    case FinLock(ran) => Goto(m, i, FinWrite(ran)).(mu := true)
    case FinWrite(_) => Goto(m, i, FinUnlockMu).(pid := 0, status := Stopped)
    case FinUnlockMu => Goto(m, i, FinUnlockStarted).(mu := false)
    case FinUnlockStarted => Goto(m, i, FinDone).(started := false)
    case StopEntry => Goto(m, i, StopCheck).(mu := true)
    case StopCheck => Goto(m, i, if m.status == Running then StopSignal else StopUnlock(None))
    case StopSignal => if m.proc.None? then m.(crashed := true) else Goto(m, i, StopUnlock(m.proc))
    case StopUnlock(signalled) => Goto(m, i, StopDone(signalled)).(mu := false)
    case GetEntry => Goto(m, i, GetRead).(mu := true)
    case GetRead => Goto(m, i, GetUnlock(m.status))
    case GetUnlock(seen) => Goto(m, i, GetDone(seen)).(mu := false)
    case _ => m
  }

  datatype Move = Call(t: Thread) | Exit(child: nat) | Go(i: nat, start: Option<nat>)

  predicate Possible(m: Machine, move: Move) {
    match move
    case Call(t) => !m.crashed && IsCall(t)
    case Exit(child) => child in m.live
    case Go(i, start) => CanAdvance(m, i) && (start.Some? ==> start.value > 0)
  }

  function After(m: Machine, move: Move): Machine
    requires Possible(m, move)
  {
    match move
    case Call(t) => m.(threads := m.threads + [t])
    case Exit(child) => m.(live := m.live - {child})
    case Go(i, start) => Advance(m, i, start)
  }

  ghost predicate Next(m: Machine, m': Machine) {
    exists move: Move :: Possible(m, move) && m' == After(m, move)
  }

  ghost predicate IsRun(run: seq<Machine>) {
    && run != [] && run[0] == IDLE
    && forall i, j | 0 <= i < j < |run| && j == i + 1 :: Next(run[i], run[j])
  }

  // ---- The invariant ----

  predicate OwnsStarted(t: Thread) {
    t.RunLocked? || t.RunCheck? || t.RunStart? || t.RunRecord? || t.RunUnlock? || t.RunSpawn?
    || t.FinEntry? || t.FinWait? || t.FinLock? || t.FinWrite? || t.FinUnlockMu? || t.FinUnlockStarted?
  }

  predicate OwnsMu(t: Thread) {
    t.RunCheck? || t.RunStart? || t.RunRecord? || t.RunUnlock? || t.FinWrite? || t.FinUnlockMu?
    || t.StopCheck? || t.StopSignal? || t.StopUnlock? || t.GetRead? || t.GetUnlock?
  }

  function StartedWeight(t: Thread): nat {
    if OwnsStarted(t) then 1 else 0
  }

  function MuWeight(t: Thread): nat {
    if OwnsMu(t) then 1 else 0
  }

  /** A lock is taken exactly when one thread owns it, and never by two. */
  predicate Exclusive(m: Machine) {
    && Sum(m.threads, StartedWeight) == (if m.started then 1 else 0)
    && Sum(m.threads, MuWeight) == (if m.mu then 1 else 0)
  }

  /** The status between two processes. */
  function RestStatus(m: Machine): ProcStatus {
    if m.spawned == 0 then Unknown else Stopped
  }

  /** No child, and the fields say so. */
  predicate Quiet(m: Machine) {
    m.live == {} && m.status == RestStatus(m) && m.pid == 0 && (m.proc.None? <==> m.spawned == 0)
  }

  /** The fields describe the process `p`, which is the newest one and the only one that may be alive. */
  predicate Describes(m: Machine, p: nat) {
    m.live <= {p} && m.proc == Some(p) && m.status == Running && m.pid > 0 && m.spawned == p + 1
    && p < |m.pids| && m.pid == m.pids[p]
  }

  predicate Reflects(m: Machine, result: RunResult) {
    match result
    case Launched(p) => Describes(m, p)
    case StartFailed => Quiet(m)
    case AlreadyRunning => false
  }

  /** What the owner of `started` can rely on. */
  predicate OwnerView(m: Machine, t: Thread) {
    match t
    case RunLocked => Quiet(m)
    case RunCheck => Quiet(m)
    case RunStart => Quiet(m)
    case RunRecord(p, newPid) => m.live <= {p} && m.status != Running && m.pid == 0 && m.spawned == p + 1 && newPid > 0
                               && p < |m.pids| && newPid == m.pids[p]
    case RunUnlock(result) => Reflects(m, result)
    case RunSpawn(result) => Reflects(m, result)
    case FinEntry(ran) => Reflects(m, ran)
    case FinWait(ran, child) => Reflects(m, ran) && m.proc == Some(child)
    case FinLock(ran) => Reflects(m, ran) && m.live == {} && m.proc.Some?
    case FinWrite(ran) => Reflects(m, ran) && m.live == {} && m.proc.Some?
    case FinUnlockMu => Quiet(m)
    case FinUnlockStarted => Quiet(m)
    case _ => true
  }

  /** What a thread that does not own `started` relies on. */
  predicate GuestView(m: Machine, t: Thread) {
    (t.StopSignal? ==> m.status == Running) && t != RunDone(AlreadyRunning)
  }

  ghost predicate Coherent(m: Machine) {
    && (forall i | 0 <= i < |m.threads| :: OwnerView(m, m.threads[i]) && GuestView(m, m.threads[i]))
    && (!m.started ==> Quiet(m)) && |m.pids| == m.spawned
  }

  ghost predicate Inv(m: Machine) {
    Exclusive(m) && Coherent(m)
  }

  // ---- Ownership ----

  lemma SoleOwner(m: Machine, i: nat)
    requires Exclusive(m) && i < |m.threads|
    ensures OwnsStarted(m.threads[i]) ==> m.started && forall j | 0 <= j < |m.threads| && j != i :: !OwnsStarted(m.threads[j])
    ensures OwnsMu(m.threads[i]) ==> m.mu && forall j | 0 <= j < |m.threads| && j != i :: !OwnsMu(m.threads[j])
  {
    SumUpdate(m.threads, StartedWeight, i, FinDone);
    SumUpdate(m.threads, MuWeight, i, FinDone);
    forall j | 0 <= j < |m.threads| && j != i
      ensures OwnsStarted(m.threads[i]) ==> !OwnsStarted(m.threads[j])
      ensures OwnsMu(m.threads[i]) ==> !OwnsMu(m.threads[j])
    {
      SumPair(m.threads, StartedWeight, i, j, FinDone);
      SumPair(m.threads, MuWeight, i, j, FinDone);
    }
  }

  // ---- Every step keeps the invariant ----

  function Spawned(t: Thread): seq<Thread> {
    if t.RunSpawn? then [FinEntry(t.result)] else []
  }

  /** One step replaces one program counter, may add a finalizer, and moves the locks with their owners. */
  lemma AdvanceShape(m: Machine, i: nat, start: Option<nat>)
    requires CanAdvance(m, i) && (OwnsStarted(m.threads[i]) ==> m.started) && (OwnsMu(m.threads[i]) ==> m.mu)
    ensures var m', t := Advance(m, i, start), m.threads[i];
            && |m'.threads| >= |m.threads|
            && var t' := m'.threads[i];
               && m'.threads == m.threads[i := t'] + Spawned(t)
               && (if m'.started then 1 else 0) - (if m.started then 1 else 0) == StartedWeight(t') + |Spawned(t)| - StartedWeight(t)
               && (if m'.mu then 1 else 0) - (if m.mu then 1 else 0) == MuWeight(t') - MuWeight(t)
  {
    if Advance(m, i, start).crashed {
      assert m.threads[i := m.threads[i]] == m.threads;
    }
  }

  lemma AdvanceExclusive(m: Machine, i: nat, start: Option<nat>)
    requires Exclusive(m) && CanAdvance(m, i)
    ensures Exclusive(Advance(m, i, start))
  {
    SoleOwner(m, i);
    AdvanceShape(m, i, start);
    var m', t := Advance(m, i, start), m.threads[i];
    var threads' := m.threads[i := m'.threads[i]];
    SumUpdate(m.threads, StartedWeight, i, m'.threads[i]);
    SumUpdate(m.threads, MuWeight, i, m'.threads[i]);
    if t.RunSpawn? {
      SumAppend(threads', StartedWeight, FinEntry(t.result));
      SumAppend(threads', MuWeight, FinEntry(t.result));
    } else {
      assert threads' + [] == threads';
    }
  }

  /** What the thread that moves, and the finalizer it may leave behind, rely on afterwards. */
  ghost predicate MoverOk(m: Machine, i: nat, m': Machine) {
    && i < |m.threads| <= |m'.threads|
    && OwnerView(m', m'.threads[i]) && GuestView(m', m'.threads[i])
    && (m.threads[i].RunSpawn? ==> OwnerView(m', FinEntry(m.threads[i].result)))
    && (m.threads[i].FinUnlockStarted? ==> Quiet(m'))
  }

  predicate IsFinalizer(t: Thread) {
    t.FinEntry? || t.FinWait? || t.FinLock? || t.FinWrite? || t.FinUnlockMu? || t.FinUnlockStarted? || t.FinDone?
  }

  lemma RunnerView(m: Machine, i: nat, start: Option<nat>)
    requires CanAdvance(m, i) && OwnerView(m, m.threads[i]) && GuestView(m, m.threads[i])
    requires (m.threads[i].RunEntry? || OwnsStarted(m.threads[i])) && !IsFinalizer(m.threads[i])
    requires (!m.started ==> Quiet(m)) && |m.pids| == m.spawned && (start.Some? ==> start.value > 0)
    ensures MoverOk(m, i, Advance(m, i, start))
  {
  }

  lemma FinalizerView(m: Machine, i: nat, start: Option<nat>)
    requires CanAdvance(m, i) && OwnerView(m, m.threads[i]) && IsFinalizer(m.threads[i])
    ensures MoverOk(m, i, Advance(m, i, start))
  {
  }

  lemma GuestMoves(m: Machine, i: nat, start: Option<nat>)
    requires CanAdvance(m, i) && GuestView(m, m.threads[i]) && !m.threads[i].RunEntry? && !OwnsStarted(m.threads[i])
    ensures MoverOk(m, i, Advance(m, i, start))
  {
  }

  lemma MoverView(m: Machine, i: nat, start: Option<nat>)
    requires CanAdvance(m, i) && OwnerView(m, m.threads[i]) && GuestView(m, m.threads[i])
    requires (!m.started ==> Quiet(m)) && |m.pids| == m.spawned && (start.Some? ==> start.value > 0)
    ensures MoverOk(m, i, Advance(m, i, start))
  {
    if IsFinalizer(m.threads[i]) {
      FinalizerView(m, i, start);
    } else if m.threads[i].RunEntry? || OwnsStarted(m.threads[i]) {
      RunnerView(m, i, start);
    } else {
      GuestMoves(m, i, start);
    }
  }

  /** The shared fields belong to the owner of `started`; the status belongs to the owner of `mu`. */
  lemma AdvanceFrame(m: Machine, i: nat, start: Option<nat>)
    requires CanAdvance(m, i)
    ensures var m' := Advance(m, i, start);
            && (OwnsStarted(m.threads[i]) || (m'.live == m.live && m'.proc == m.proc && m'.pid == m.pid
                                              && m'.status == m.status && m'.spawned == m.spawned && m'.pids == m.pids))
            && (OwnsMu(m.threads[i]) || (m'.status == m.status && m'.proc == m.proc))
  {
  }

  lemma AdvanceCoherent(m: Machine, i: nat, start: Option<nat>)
    requires Inv(m) && CanAdvance(m, i) && (start.Some? ==> start.value > 0)
    ensures Coherent(Advance(m, i, start))
  {
    var m', t := Advance(m, i, start), m.threads[i];
    SoleOwner(m, i);
    AdvanceShape(m, i, start);
    AdvanceFrame(m, i, start);
    assert OwnerView(m, t) && GuestView(m, t);
    MoverView(m, i, start);
    forall j | 0 <= j < |m'.threads| ensures OwnerView(m', m'.threads[j]) && GuestView(m', m'.threads[j]) {
      if j < |m.threads| && j != i {
        OtherView(m, m', m.threads[j], OwnsStarted(t), OwnsMu(t));
      }
    }
    if !m'.started {
      assert t.FinUnlockStarted? || !m.started;
      assert Quiet(m');
    }
  }

  lemma OtherView(m: Machine, m': Machine, u: Thread, fields: bool, status: bool)
    requires OwnerView(m, u) && GuestView(m, u)
    requires if fields then !OwnsStarted(u) else
               m'.live == m.live && m'.proc == m.proc && m'.pid == m.pid && m'.status == m.status && m'.spawned == m.spawned && m'.pids == m.pids
    requires if status then !OwnsMu(u) else m'.status == m.status
    ensures OwnerView(m', u) && GuestView(m', u)
  {
  }

  lemma CallKeepsInv(m: Machine, t: Thread)
    requires Inv(m) && IsCall(t)
    ensures Inv(m.(threads := m.threads + [t]))
  {
    var m' := m.(threads := m.threads + [t]);
    SumAppend(m.threads, StartedWeight, t);
    SumAppend(m.threads, MuWeight, t);
    forall j | 0 <= j < |m'.threads| ensures OwnerView(m', m'.threads[j]) && GuestView(m', m'.threads[j]) {
      if j < |m.threads| {
        OtherView(m, m', m.threads[j], false, false);
      }
    }
  }

  lemma ExitKeepsInv(m: Machine, child: nat)
    requires Inv(m)
    ensures Inv(m.(live := m.live - {child}))
  {
    var m' := m.(live := m.live - {child});
    forall j | 0 <= j < |m.threads| ensures OwnerView(m', m.threads[j]) && GuestView(m', m.threads[j]) {
      assert OwnerView(m, m.threads[j]) && GuestView(m, m.threads[j]);
    }
  }

  lemma InvStep(m: Machine, move: Move)
    requires Inv(m) && Possible(m, move)
    ensures Inv(After(m, move))
  {
    match move
    case Call(t) => CallKeepsInv(m, t);
    case Exit(child) => ExitKeepsInv(m, child);
    case Go(i, start) =>
      AdvanceExclusive(m, i, start);
      AdvanceCoherent(m, i, start);
  }

  lemma {:induction false} RunInv(run: seq<Machine>, i: nat)
    requires IsRun(run) && i < |run|
    ensures Inv(run[i])
  {
    if i > 0 {
      RunInv(run, i - 1);
      assert Next(run[i - 1], run[i]);
      var move :| Possible(run[i - 1], move) && run[i] == After(run[i - 1], move);
      InvStep(run[i - 1], move);
    }
  }

  // ---- What holds in every reachable state ----

  /** `started` and `mu` are each held exactly when one thread owns them, and then by that one alone. */
  lemma MutualExclusion(run: seq<Machine>, k: nat)
    requires IsRun(run) && k < |run|
    ensures var m := run[k];
            && (m.started <==> exists i :: 0 <= i < |m.threads| && OwnsStarted(m.threads[i]))
            && (m.mu <==> exists i :: 0 <= i < |m.threads| && OwnsMu(m.threads[i]))
            && (forall i, j | 0 <= i < j < |m.threads| :: !(OwnsStarted(m.threads[i]) && OwnsStarted(m.threads[j])))
            && (forall i, j | 0 <= i < j < |m.threads| :: !(OwnsMu(m.threads[i]) && OwnsMu(m.threads[j])))
  {
    RunInv(run, k);
    var m := run[k];
    if m.started {
      var i := SumPositive(m.threads, StartedWeight);
      assert OwnsStarted(m.threads[i]);
    }
    if m.mu {
      var i := SumPositive(m.threads, MuWeight);
      assert OwnsMu(m.threads[i]);
    }
    forall i | 0 <= i < |m.threads|
      ensures OwnsStarted(m.threads[i]) ==> m.started && forall j | 0 <= j < |m.threads| && j != i :: !OwnsStarted(m.threads[j])
      ensures OwnsMu(m.threads[i]) ==> m.mu && forall j | 0 <= j < |m.threads| && j != i :: !OwnsMu(m.threads[j])
    {
      SoleOwner(m, i);
    }
  }

  /** The thread is bound to wait for the process `p` and to reset the fields before `started` is free again. */
  predicate WillFinalize(t: Thread, p: nat) {
    t == RunUnlock(Launched(p)) || t == RunSpawn(Launched(p)) || t == FinEntry(Launched(p))
    || t == FinWait(Launched(p), p) || t == FinLock(Launched(p)) || t == FinWrite(Launched(p))
  }

  /** State running means that the finalizer of exactly the recorded process, the newest one, is still to come. */
  lemma RunningHasItsFinalizer(run: seq<Machine>, k: nat)
    requires IsRun(run) && k < |run| && run[k].status == Running
    ensures run[k].proc.Some? && run[k].proc.value + 1 == run[k].spawned && run[k].started
    ensures exists i :: 0 <= i < |run[k].threads| && WillFinalize(run[k].threads[i], run[k].proc.value)
  {
    RunInv(run, k);
    var m := run[k];
    var i := SumPositive(m.threads, StartedWeight);
    assert OwnerView(m, m.threads[i]);
    assert WillFinalize(m.threads[i], m.proc.value);
  }

  /** At most one child is alive, ever; and a child is only started when none is. */
  lemma OneChild(run: seq<Machine>, k: nat, a: nat, b: nat)
    requires IsRun(run) && k < |run| && a in run[k].live && b in run[k].live
    ensures a == b && run[k].started && a + 1 == run[k].spawned
    ensures forall i | 0 <= i < |run[k].threads| :: !run[k].threads[i].RunStart?
  {
    RunInv(run, k);
    var m := run[k];
    var o := SumPositive(m.threads, StartedWeight);
    assert OwnerView(m, m.threads[o]);
    forall i | 0 <= i < |m.threads| ensures !m.threads[i].RunStart? {
      assert OwnerView(m, m.threads[i]);
    }
  }

  /** The early return for a running database is never taken: no call of RunMariaDB ever finds it running. */
  lemma AlreadyRunningIsUnreachable(run: seq<Machine>, k: nat, i: nat)
    requires IsRun(run) && k < |run| && i < |run[k].threads|
    ensures run[k].threads[i].RunCheck? ==> run[k].status != Running
    ensures run[k].threads[i] != RunUnlock(AlreadyRunning) && run[k].threads[i] != RunDone(AlreadyRunning)
  {
    RunInv(run, k);
    assert OwnerView(run[k], run[k].threads[i]) && GuestView(run[k], run[k].threads[i]);
  }

  /** A call of RunMariaDB gets past `started` only when the previous process has exited and been finalized. */
  lemma NextRunFindsNothing(run: seq<Machine>, k: nat, i: nat)
    requires IsRun(run) && k < |run| && i < |run[k].threads|
    requires (run[k].threads[i].RunEntry? && CanAdvance(run[k], i)) || run[k].threads[i].RunLocked? || run[k].threads[i].RunStart?
    ensures run[k].live == {} && run[k].status != Running && run[k].pid == 0
  {
    RunInv(run, k);
    assert OwnerView(run[k], run[k].threads[i]);
  }

  /** A finalizer that resets the fields resets those of its own process: it has exited and no newer one was started. */
  lemma FinalizerWritesItsOwn(run: seq<Machine>, k: nat, i: nat)
    requires IsRun(run) && k < |run| && i < |run[k].threads| && run[k].threads[i].FinWrite?
    ensures var m, ran := run[k], run[k].threads[i].ran;
            && m.live == {}
            && (ran.Launched? ==> m.proc == Some(ran.child) && m.spawned == ran.child + 1 && m.status == Running)
            && (!ran.Launched? ==> m.status != Running && m.pid == 0)
  {
    RunInv(run, k);
    assert OwnerView(run[k], run[k].threads[i]);
  }

  /** What a caller sees while `mu` is free, and what it means for a child to be alive. */
  lemma FieldsAgree(run: seq<Machine>, k: nat)
    requires IsRun(run) && k < |run| && !run[k].mu
    ensures run[k].pid != 0 <==> run[k].status == Running
    ensures run[k].live != {} ==> run[k].status == Running
    ensures run[k].status == Running ==>
              && run[k].proc.Some? && run[k].live <= {run[k].proc.value} && run[k].proc.value + 1 == |run[k].pids|
              && run[k].pid == run[k].pids[run[k].proc.value]
  {
    RunInv(run, k);
    var m := run[k];
    if m.started {
      var i := SumPositive(m.threads, StartedWeight);
      assert OwnerView(m, m.threads[i]);
      SoleOwner(m, i);
    }
  }

  /** StopMariaDB never signals a process that was not started, and it signals the newest one. */
  lemma StopHasAProcess(run: seq<Machine>, k: nat, i: nat)
    requires IsRun(run) && k < |run| && i < |run[k].threads| && run[k].threads[i].StopSignal?
    ensures run[k].proc.Some? && run[k].proc.value + 1 == run[k].spawned
  {
    RunInv(run, k);
    assert GuestView(run[k], run[k].threads[i]);
    RunningHasItsFinalizer(run, k);
  }

  // ---- What the calls do ----

  /** While a thread holds `mu` nobody else touches the status, the process or the thread. */
  lemma OthersWait(m: Machine, move: Move, i: nat)
    requires Inv(m) && Possible(m, move) && i < |m.threads| && !(move.Go? && move.i == i)
    ensures var m' := After(m, move);
            && i < |m'.threads| && m'.threads[i] == m.threads[i]
            && (OwnsMu(m.threads[i]) ==> m'.status == m.status && m'.proc == m.proc)
  {
    if move.Go? {
      SoleOwner(m, i);
      SoleOwner(m, move.i);
      AdvanceShape(m, move.i, move.start);
      AdvanceFrame(m, move.i, move.start);
    }
  }

  /** Which process a call of StopMariaDB is to ask to exit when it finds the machine like this. */
  function ToSignal(m: Machine): Option<nat> {
    if m.status == Running then m.proc else None
  }

  /** Where a call of StopMariaDB may be that has found the machine like `m0`. */
  predicate Stopping(m0: Machine, m: Machine, i: nat) {
    && i < |m.threads|
    && match m.threads[i]
       case StopCheck => m.status == m0.status && m.proc == m0.proc
       case StopSignal => m0.status == Running && m.proc == m0.proc
       case StopUnlock(signalled) => signalled == ToSignal(m0)
       case StopDone(signalled) => signalled == ToSignal(m0)
       case _ => false
  }

  lemma StoppingStep(m0: Machine, m: Machine, move: Move, i: nat)
    requires Inv(m) && Possible(m, move) && Stopping(m0, m, i)
    ensures Stopping(m0, After(m, move), i)
  {
    if !(move.Go? && move.i == i) {
      OthersWait(m, move, i);
    }
  }

  lemma {:induction false} StoppingAt(run: seq<Machine>, k: nat, l: nat, i: nat)
    requires IsRun(run) && k <= l < |run| && i < |run[k].threads| && run[k].threads[i].StopCheck?
    ensures Stopping(run[k], run[l], i)
  {
    if k < l {
      StoppingAt(run, k, l - 1, i);
      RunInv(run, l - 1);
      assert Next(run[l - 1], run[l]);
      var move :| Possible(run[l - 1], move) && run[l] == After(run[l - 1], move);
      StoppingStep(run[k], run[l - 1], move, i);
    }
  }

  /** While a call of StopMariaDB holds `mu`, a live child is the recorded process. */
  lemma LiveIsRecorded(m: Machine, i: nat)
    requires Inv(m) && i < |m.threads| && m.threads[i].StopCheck?
    ensures forall child | child in m.live :: m.status == Running && m.proc == Some(child)
  {
    SoleOwner(m, i);
    if m.started {
      var o := SumPositive(m.threads, StartedWeight);
      assert OwnerView(m, m.threads[o]);
    }
  }

  /**
   * A call of StopMariaDB that finds a live process has, when it returns, asked exactly that process to exit; one that
   * finds none running has asked nobody.
   */
  lemma StopSignalsWhatItFinds(run: seq<Machine>, k: nat, l: nat, i: nat)
    requires IsRun(run) && k <= l < |run| && i < |run[k].threads| && run[k].threads[i].StopCheck?
    requires i < |run[l].threads| && run[l].threads[i].StopDone?
    ensures forall child | child in run[k].live :: run[l].threads[i].signalled == Some(child)
    ensures run[k].status == Running ==> run[k].proc.Some? && run[l].threads[i].signalled == run[k].proc
    ensures run[k].status != Running ==> run[l].threads[i].signalled == None
  {
    StoppingAt(run, k, l, i);
    RunInv(run, k);
    LiveIsRecorded(run[k], i);
    if run[k].status == Running {
      RunningHasItsFinalizer(run, k);
    }
  }

  predicate Getting(m0: Machine, m: Machine, i: nat) {
    && i < |m.threads|
    && match m.threads[i]
       case GetRead => m.status == m0.status
       case GetUnlock(seen) => seen == m0.status
       case GetDone(seen) => seen == m0.status
       case _ => false
  }

  /** A call of GetState returns the status at the moment at which it holds `mu`. */
  lemma {:induction false} GetReturnsWhatItFinds(run: seq<Machine>, k: nat, l: nat, i: nat)
    requires IsRun(run) && k <= l < |run| && i < |run[k].threads| && run[k].threads[i].GetRead?
    ensures Getting(run[k], run[l], i)
  {
    if k < l {
      GetReturnsWhatItFinds(run, k, l - 1, i);
      RunInv(run, l - 1);
      assert Next(run[l - 1], run[l]);
      var move :| Possible(run[l - 1], move) && run[l] == After(run[l - 1], move);
      GettingStep(run[k], run[l - 1], move, i);
    }
  }

  lemma GettingStep(m0: Machine, m: Machine, move: Move, i: nat)
    requires Inv(m) && Possible(m, move) && Getting(m0, m, i)
    ensures Getting(m0, After(m, move), i)
  {
    if !(move.Go? && move.i == i) {
      OthersWait(m, move, i);
    }
  }

  /** Where a call of RunMariaDB may be whose start has had this outcome. */
  predicate Returning(child: nat, start: Option<nat>, m: Machine, i: nat) {
    var result := if start.Some? then Launched(child) else StartFailed;
    && i < |m.threads|
    && (start.Some? ==> child < |m.pids| && m.pids[child] == start.value)
    && match m.threads[i]
       case RunRecord(c, pid) => start == Some(pid) && c == child
       case RunUnlock(r) => r == result
       case RunSpawn(r) => r == result
       case RunDone(r) => r == result
       case _ => false
  }

  lemma ReturningStep(child: nat, start: Option<nat>, m: Machine, move: Move, i: nat)
    requires Inv(m) && Possible(m, move) && Returning(child, start, m, i)
    ensures Returning(child, start, After(m, move), i)
  {
    if !(move.Go? && move.i == i) {
      OthersWait(m, move, i);
    }
  }

  lemma StartAnswered(m: Machine, i: nat, start: Option<nat>)
    requires Inv(m) && Possible(m, Go(i, start)) && m.threads[i].RunStart?
    ensures Returning(m.spawned, start, After(m, Go(i, start)), i)
  {
  }

  /**
   * A call of RunMariaDB returns what the operating system has answered: the newest process, whose process id is on record
   * from then on, or a failure.
   */
  lemma {:induction false} RunReturnsTheAnswer(run: seq<Machine>, k: nat, l: nat, i: nat, start: Option<nat>)
    requires IsRun(run) && k < l < |run| && i < |run[k].threads| && run[k].threads[i].RunStart?
    requires Possible(run[k], Go(i, start)) && run[k + 1] == After(run[k], Go(i, start))
    ensures Returning(run[k].spawned, start, run[l], i)
  {
    if k + 1 == l {
      RunInv(run, k);
      StartAnswered(run[k], i, start);
    } else {
      RunReturnsTheAnswer(run, k, l - 1, i, start);
      var move := LastMove(run, l);
      ReturningStep(run[k].spawned, start, run[l - 1], move, i);
    }
  }

  /** How far the thread `i` has got, if it exists: new threads are at the beginning of a call or of a finalizer. */
  lemma ThreadMoves(m: Machine, move: Move, i: nat)
    requires Inv(m) && Possible(m, move) && i < |After(m, move).threads|
    ensures var t' := After(m, move).threads[i];
            || (i < |m.threads| && (t' == m.threads[i] || (move.Go? && move.i == i)))
            || (i >= |m.threads| && (IsCall(t') || t'.FinEntry?))
  {
    if move.Go? {
      SoleOwner(m, move.i);
      AdvanceShape(m, move.i, move.start);
    }
  }

  lemma LastMove(run: seq<Machine>, l: nat) returns (move: Move)
    requires IsRun(run) && 0 < l < |run|
    ensures Inv(run[l - 1]) && Possible(run[l - 1], move) && run[l] == After(run[l - 1], move)
  {
    RunInv(run, l - 1);
    assert Next(run[l - 1], run[l]);
    move :| Possible(run[l - 1], move) && run[l] == After(run[l - 1], move);
  }

  predicate PastCheck(t: Thread) {
    t.StopSignal? || t.StopUnlock? || t.StopDone?
  }

  lemma AdvancesFromCheck(m: Machine, i: nat, start: Option<nat>)
    requires CanAdvance(m, i) && i < |Advance(m, i, start).threads| && PastCheck(Advance(m, i, start).threads[i])
    ensures PastCheck(m.threads[i]) || m.threads[i].StopCheck?
  {
  }

  lemma ComesFromCheck(m: Machine, move: Move, i: nat)
    requires Inv(m) && Possible(m, move) && i < |After(m, move).threads| && PastCheck(After(m, move).threads[i])
    ensures i < |m.threads| && (PastCheck(m.threads[i]) || m.threads[i].StopCheck?)
  {
    ThreadMoves(m, move, i);
    if move.Go? && move.i == i {
      AdvancesFromCheck(m, i, move.start);
    }
  }

  lemma {:induction false} StopHasChecked(run: seq<Machine>, l: nat, i: nat) returns (k: nat)
    requires IsRun(run) && l < |run| && i < |run[l].threads| && PastCheck(run[l].threads[i])
    ensures k < l && i < |run[k].threads| && run[k].threads[i].StopCheck?
  {
    assert l > 0;
    var move := LastMove(run, l);
    ComesFromCheck(run[l - 1], move, i);
    if run[l - 1].threads[i].StopCheck? {
      k := l - 1;
    } else {
      k := StopHasChecked(run, l - 1, i);
    }
  }

  /** Every call of StopMariaDB that has returned has looked at the status, and has signalled what it found then. */
  lemma EveryStopSignals(run: seq<Machine>, l: nat, i: nat) returns (k: nat)
    requires IsRun(run) && l < |run| && i < |run[l].threads| && run[l].threads[i].StopDone?
    ensures k < l && i < |run[k].threads| && run[k].threads[i].StopCheck?
    ensures forall child | child in run[k].live :: run[l].threads[i].signalled == Some(child)
    ensures run[k].status != Running ==> run[l].threads[i].signalled == None
  {
    k := StopHasChecked(run, l, i);
    StopSignalsWhatItFinds(run, k, l, i);
  }

  predicate PastRead(t: Thread) {
    t.GetUnlock? || t.GetDone?
  }

  lemma AdvancesFromRead(m: Machine, i: nat, start: Option<nat>)
    requires CanAdvance(m, i) && i < |Advance(m, i, start).threads| && PastRead(Advance(m, i, start).threads[i])
    ensures PastRead(m.threads[i]) || m.threads[i].GetRead?
  {
  }

  lemma ComesFromRead(m: Machine, move: Move, i: nat)
    requires Inv(m) && Possible(m, move) && i < |After(m, move).threads| && PastRead(After(m, move).threads[i])
    ensures i < |m.threads| && (PastRead(m.threads[i]) || m.threads[i].GetRead?)
  {
    ThreadMoves(m, move, i);
    if move.Go? && move.i == i {
      AdvancesFromRead(m, i, move.start);
    }
  }

  lemma {:induction false} GetHasRead(run: seq<Machine>, l: nat, i: nat) returns (k: nat)
    requires IsRun(run) && l < |run| && i < |run[l].threads| && PastRead(run[l].threads[i])
    ensures k < l && i < |run[k].threads| && run[k].threads[i].GetRead?
  {
    assert l > 0;
    var move := LastMove(run, l);
    ComesFromRead(run[l - 1], move, i);
    if run[l - 1].threads[i].GetRead? {
      k := l - 1;
    } else {
      k := GetHasRead(run, l - 1, i);
    }
  }

  /** Every call of GetState returns a status that the manager had during the call. */
  lemma EveryGetReads(run: seq<Machine>, l: nat, i: nat) returns (k: nat)
    requires IsRun(run) && l < |run| && i < |run[l].threads| && run[l].threads[i].GetDone?
    ensures k < l && i < |run[k].threads| && run[k].threads[i].GetRead? && run[l].threads[i].seen == run[k].status
  {
    k := GetHasRead(run, l, i);
    GetReturnsWhatItFinds(run, k, l, i);
  }

  /** At position `k` the thread has called cmd.Start, with this answer. */
  ghost predicate StartsAt(run: seq<Machine>, k: nat, i: nat, start: Option<nat>) {
    && k + 1 < |run| && i < |run[k].threads| && run[k].threads[i].RunStart?
    && Possible(run[k], Go(i, start)) && run[k + 1] == After(run[k], Go(i, start))
  }

  predicate PastStart(t: Thread) {
    t.RunRecord? || t.RunUnlock? || t.RunSpawn? || t.RunDone?
  }

  lemma AdvancesFromStart(m: Machine, i: nat, start: Option<nat>)
    requires CanAdvance(m, i) && OwnerView(m, m.threads[i]) && i < |Advance(m, i, start).threads| && PastStart(Advance(m, i, start).threads[i])
    ensures PastStart(m.threads[i]) || m.threads[i].RunStart?
  {
  }

  lemma ComesFromStart(m: Machine, move: Move, i: nat)
    requires Inv(m) && Possible(m, move) && i < |After(m, move).threads| && PastStart(After(m, move).threads[i])
    ensures i < |m.threads| && (PastStart(m.threads[i]) || (m.threads[i].RunStart? && move.Go? && move.i == i))
  {
    ThreadMoves(m, move, i);
    assert OwnerView(m, m.threads[i]);
    if move.Go? && move.i == i {
      AdvancesFromStart(m, i, move.start);
    }
  }

  lemma {:induction false} RunHasStarted(run: seq<Machine>, l: nat, i: nat) returns (k: nat, start: Option<nat>)
    requires IsRun(run) && l < |run| && i < |run[l].threads| && PastStart(run[l].threads[i])
    ensures k < l && StartsAt(run, k, i, start)
  {
    assert l > 0;
    var move := LastMove(run, l);
    ComesFromStart(run[l - 1], move, i);
    if PastStart(run[l - 1].threads[i]) {
      k, start := RunHasStarted(run, l - 1, i);
    } else {
      k, start := l - 1, move.start;
    }
  }

  /** Every call of RunMariaDB has tried to start one process, and returns what came of it. */
  lemma EveryRunStarts(run: seq<Machine>, l: nat, i: nat) returns (k: nat, start: Option<nat>)
    requires IsRun(run) && l < |run| && i < |run[l].threads| && run[l].threads[i].RunDone?
    ensures k < l && StartsAt(run, k, i, start)
    ensures run[l].threads[i].result == if start.Some? then Launched(run[k].spawned) else StartFailed
    ensures start.Some? ==> run[k].spawned < |run[l].pids| && run[l].pids[run[k].spawned] == start.value
  {
    k, start := RunHasStarted(run, l, i);
    RunReturnsTheAnswer(run, k, l, i, start);
  }

  // ---- The crash ----

  /** A step ends the agent exactly when it is a finalizer that finds that no start has ever succeeded. */
  lemma CrashIffNeverStarted(run: seq<Machine>, k: nat, i: nat, start: Option<nat>)
    requires IsRun(run) && k < |run| && CanAdvance(run[k], i)
    ensures Advance(run[k], i, start).crashed <==> run[k].threads[i].FinEntry? && run[k].spawned == 0
  {
    RunInv(run, k);
    assert OwnerView(run[k], run[k].threads[i]);
    if run[k].threads[i].StopSignal? {
      StopHasAProcess(run, k, i);
    }
  }

  lemma Extend(run: seq<Machine>, m: Machine, move: Move, m': Machine) returns (run': seq<Machine>)
    requires IsRun(run) && run[|run| - 1] == m && Possible(m, move) && m' == After(m, move)
    ensures IsRun(run') && run' == run + [m']
  {
    run' := run + [m'];
    forall k | 0 < k < |run'| ensures Next(run'[k - 1], run'[k]) {
      if k == |run| {
        assert run'[k - 1] == m && run'[k] == m';
      }
    }
  }

  /** A machine with one call of RunMariaDB, before any process was started. */
  function Solo(t: Thread, mu: bool): Machine {
    Machine(Unknown, 0, None, true, mu, {}, 0, [], [t], false)
  }

  lemma FirstStart() returns (run: seq<Machine>)
    ensures IsRun(run) && run[|run| - 1] == Solo(RunStart, true)
  {
    var called := IDLE.(threads := [RunEntry]);
    run := Extend([IDLE], IDLE, Call(RunEntry), called);
    run := Extend(run, called, Go(0, None), Solo(RunLocked, false));
    run := Extend(run, Solo(RunLocked, false), Go(0, None), Solo(RunCheck, true));
    run := Extend(run, Solo(RunCheck, true), Go(0, None), Solo(RunStart, true));
  }

  /** The shortest way there: the very first call of RunMariaDB fails to start its process. */
  lemma FirstFailureCrashes() returns (run: seq<Machine>)
    ensures IsRun(run) && run[|run| - 1].crashed
  {
    run := FirstStart();
    var spawned := Solo(RunDone(StartFailed), false).(threads := [RunDone(StartFailed), FinEntry(StartFailed)]);
    run := Extend(run, Solo(RunStart, true), Go(0, None), Solo(RunUnlock(StartFailed), true));
    run := Extend(run, Solo(RunUnlock(StartFailed), true), Go(0, None), Solo(RunSpawn(StartFailed), false));
    run := Extend(run, Solo(RunSpawn(StartFailed), false), Go(0, None), spawned);
    run := Extend(run, spawned, Go(1, None), spawned.(crashed := true));
  }

  // ---- Progress ----

  /** How many steps a thread, and the finalizer it will leave behind, can still take. */
  function Rank(t: Thread): nat {
    match t
    case RunEntry => 14 case RunLocked => 13 case RunCheck => 12 case RunStart => 11
    case RunRecord(_, _) => 9 case RunUnlock(_) => 8 case RunSpawn(_) => 7 case RunDone(_) => 0
    case FinEntry(_) => 6 case FinWait(_, _) => 5 case FinLock(_) => 4 case FinWrite(_) => 3
    case FinUnlockMu => 2 case FinUnlockStarted => 1 case FinDone => 0
    case StopEntry => 4 case StopCheck => 3 case StopSignal => 2 case StopUnlock(_) => 1 case StopDone(_) => 0
    case GetEntry => 3 case GetRead => 2 case GetUnlock(_) => 1 case GetDone(_) => 0
  }

  function Work(m: Machine): nat {
    Sum(m.threads, Rank) + |m.live|
  }

  /** A step lowers the rank of its thread, by one more if it starts a child, and no other step adds a child. */
  ghost predicate Lowers(m: Machine, i: nat, m': Machine) {
    && i < |m.threads| <= |m'.threads|
    && var t := m.threads[i];
       && Rank(m'.threads[i]) + 6 * |Spawned(t)| + (if t.RunStart? then 1 else 0) < Rank(t)
       && (m'.live == m.live || (t.RunStart? && m'.live == m.live + {m.spawned}))
  }

  lemma FinalizerLowers(m: Machine, i: nat, start: Option<nat>)
    requires CanAdvance(m, i) && !Advance(m, i, start).crashed && IsFinalizer(m.threads[i])
    ensures Lowers(m, i, Advance(m, i, start))
  {
  }

  lemma OtherLowers(m: Machine, i: nat, start: Option<nat>)
    requires CanAdvance(m, i) && !Advance(m, i, start).crashed && !IsFinalizer(m.threads[i])
    ensures Lowers(m, i, Advance(m, i, start))
  {
  }

  lemma RankDrops(m: Machine, i: nat, start: Option<nat>)
    requires CanAdvance(m, i) && !Advance(m, i, start).crashed
    ensures Lowers(m, i, Advance(m, i, start))
  {
    if IsFinalizer(m.threads[i]) {
      FinalizerLowers(m, i, start);
    } else {
      OtherLowers(m, i, start);
    }
  }

  lemma OneMoreChild(live: set<nat>, p: nat)
    ensures |live + {p}| <= |live| + 1
  {
    if p in live {
      assert live + {p} == live;
    }
  }

  /** Every step but a new call or a crash leaves less to do, so without new calls every schedule comes to an end. */
  lemma WorkDrops(run: seq<Machine>, k: nat, move: Move)
    requires IsRun(run) && k < |run| && Possible(run[k], move) && !move.Call? && !After(run[k], move).crashed
    ensures Work(After(run[k], move)) < Work(run[k])
  {
    RunInv(run, k);
    var m := run[k];
    match move
    case Exit(child) =>
    case Go(i, start) =>
      var m', t := Advance(m, i, start), m.threads[i];
      SoleOwner(m, i);
      AdvanceShape(m, i, start);
      RankDrops(m, i, start);
      OneMoreChild(m.live, m.spawned);
      SumUpdate(m.threads, Rank, i, m'.threads[i]);
      if t.RunSpawn? {
        SumAppend(m.threads[i := m'.threads[i]], Rank, FinEntry(t.result));
      } else {
        assert m.threads[i := m'.threads[i]] + [] == m.threads[i := m'.threads[i]];
      }
  }

  /**
   * There is no deadlock: while a call or a finalizer is unfinished, some step other than a new call is possible,
   * a step of the owner of `mu`, else of the owner of `started`, else the exit of the child it waits for.
   */
  lemma Progress(run: seq<Machine>, k: nat, i: nat) returns (move: Move)
    requires IsRun(run) && k < |run| && !run[k].crashed && i < |run[k].threads| && !IsDone(run[k].threads[i])
    ensures Possible(run[k], move) && !move.Call?
  {
    RunInv(run, k);
    var m := run[k];
    if m.mu {
      var o := SumPositive(m.threads, MuWeight);
      move := Go(o, None);
    } else if m.started {
      var o := SumPositive(m.threads, StartedWeight);
      if m.threads[o].FinWait? && m.threads[o].child in m.live {
        move := Exit(m.threads[o].child);
      } else {
        move := Go(o, None);
      }
    } else {
      SoleOwner(m, i);
      move := Go(i, None);
    }
  }

  ghost predicate NextWithoutCall(m: Machine, m': Machine) {
    exists move: Move :: Possible(m, move) && !move.Call? && m' == After(m, move)
  }

  /** From position `from` on, no new call arrives and the agent does not crash. */
  ghost predicate Drains(run: seq<Machine>, from: nat) {
    && from < |run| && !run[from].crashed
    && forall k | from < k < |run| :: NextWithoutCall(run[k - 1], run[k]) && !run[k].crashed
  }

  lemma DrainStep(run: seq<Machine>, from: nat, k: nat)
    requires IsRun(run) && Drains(run, from) && from < k < |run|
    ensures Work(run[k]) < Work(run[k - 1])
  {
    assert NextWithoutCall(run[k - 1], run[k]);
    var move :| Possible(run[k - 1], move) && !move.Call? && run[k] == After(run[k - 1], move);
    WorkDrops(run, k - 1, move);
  }

  lemma {:induction false} DrainLength(run: seq<Machine>, from: nat, k: nat)
    requires IsRun(run) && Drains(run, from) && from <= k < |run|
    ensures k - from + Work(run[k]) <= Work(run[from])
  {
    if from < k {
      DrainLength(run, from, k - 1);
      DrainStep(run, from, k);
    }
  }

  /**
   * Whatever the schedule: once no new calls arrive, the run is over after a bounded number of steps, and when it can
   * go no further every call has returned, every finalizer is done, both locks are free and no child is left.
   */
  lemma EveryCallReturns(run: seq<Machine>, from: nat)
    requires IsRun(run) && Drains(run, from)
    ensures |run| - 1 - from <= Work(run[from])
    ensures var last := run[|run| - 1];
            (forall move: Move :: Possible(last, move) ==> move.Call?) ==>
              (forall i | 0 <= i < |last.threads| :: IsDone(last.threads[i])) && !last.started && !last.mu && last.live == {}
  {
    var k := |run| - 1;
    var last := run[k];
    DrainLength(run, from, k);
    if forall move: Move :: Possible(last, move) ==> move.Call? {
      forall i | 0 <= i < |last.threads| ensures IsDone(last.threads[i]) {
        if !IsDone(last.threads[i]) {
          var move := Progress(run, k, i);
          assert false;
        }
      }
      MutualExclusion(run, k);
      RunInv(run, k);
    }
  }
}
