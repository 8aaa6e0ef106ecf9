/**
 * The process manager under concurrent callers, seen as the agent's steps see it: every step of the machine is one of
 * their events or nothing, and a call of RunMariaDB has the effect that they give it.
 */
module ManagerProjection {
  import opened Entities
  import Sums
  import PM = ProcessManager
  import opened AgentSteps

  /** A process has been started and its fields are about to be assigned, while `mu` is held. */
  ghost predicate Recording(m: PM.Machine) {
    exists i :: 0 <= i < |m.threads| && m.threads[i].RunRecord?
  }

  /** The call is past its start and its finalizer has not begun to wait. */
  predicate PastStart(t: PM.Thread) {
    t.RunUnlock? || t.RunSpawn? || t.FinEntry?
  }

  /** The finalizer of a failed first start is still to come, or has ended the agent. */
  ghost predicate Ending(m: PM.Machine) {
    m.spawned == 0 && exists i :: 0 <= i < |m.threads| && PastStart(m.threads[i])
  }

  /** What an agent shows of its manager, the fields being those that are about to be assigned. */
  ghost predicate Shows(m: PM.Machine, a: Agent) {
    && a.starts == m.spawned
    && (a.child.Some? <==> m.live != {})
    && a.status == (if Recording(m) then Running else m.status)
    && (a.doomed <==> Ending(m))
  }

  /** What a step of the machine is to the agent. */
  function Image(m: PM.Machine, move: PM.Move, a: Agent, newCluster: bool, hash: Hash): Agent
    requires PM.Possible(m, move)
  {
    if move.Exit? then Happen(a, Exited, hash)
    else if move.Go? && m.threads[move.i].RunStart? then Run(a, newCluster, move.start.Some?)
    else if move.Go? && m.threads[move.i].FinWrite? then Happen(a, Finalized, hash)
    else a
  }

  // ---- Who records, and who ends ----

  /** The two conditions after a step, told from the thread that moved if it owns `started`. */
  lemma OwnerMoves(m: PM.Machine, i: nat, start: Option<nat>)
    requires PM.Inv(m) && PM.CanAdvance(m, i) && PM.OwnsStarted(m.threads[i])
    ensures var m', t := PM.Advance(m, i, start), m.threads[i];
            && i < |m'.threads|
            && (Recording(m) <==> t.RunRecord?) && (Recording(m') <==> m'.threads[i].RunRecord?)
            && (Ending(m) <==> m.spawned == 0 && PastStart(t))
            && (Ending(m') <==> m'.spawned == 0 && (PastStart(m'.threads[i]) || t.RunSpawn?))
  {
    PM.SoleOwner(m, i);
    PM.AdvanceShape(m, i, start);
    var m', t := PM.Advance(m, i, start), m.threads[i];
    if t.RunSpawn? {
      assert PastStart(m'.threads[|m.threads|]);
    }
  }

  lemma GuestMoves(m: PM.Machine, i: nat, start: Option<nat>)
    requires PM.Inv(m) && PM.CanAdvance(m, i) && !PM.OwnsStarted(m.threads[i])
    ensures var m' := PM.Advance(m, i, start);
            (Recording(m') <==> Recording(m)) && (Ending(m') <==> Ending(m))
  {
    PM.SoleOwner(m, i);
    PM.AdvanceShape(m, i, start);
    PM.AdvanceFrame(m, i, start);
    var m' := PM.Advance(m, i, start);
    var t' := m'.threads[i];
    assert m'.threads == m.threads[i := t'];
    assert !t'.RunRecord? && !PastStart(t');
    forall j | 0 <= j < |m.threads| && j != i ensures m'.threads[j] == m.threads[j] {
    }
  }

  // ---- Every step is an event or nothing ----

  lemma OwnerStepIsShown(m: PM.Machine, i: nat, start: Option<nat>, a: Agent, newCluster: bool, hash: Hash)
    requires PM.Inv(m) && PM.CanAdvance(m, i) && PM.OwnsStarted(m.threads[i]) && Shows(m, a)
    requires start.Some? ==> start.value > 0
    ensures Shows(PM.Advance(m, i, start), Image(m, PM.Go(i, start), a, newCluster, hash))
  {
    OwnerMoves(m, i, start);
    assert PM.OwnerView(m, m.threads[i]);
  }

  lemma GuestStepIsShown(m: PM.Machine, i: nat, start: Option<nat>, a: Agent, newCluster: bool, hash: Hash)
    requires PM.Inv(m) && PM.CanAdvance(m, i) && !PM.OwnsStarted(m.threads[i]) && Shows(m, a)
    requires start.Some? ==> start.value > 0
    ensures Shows(PM.Advance(m, i, start), Image(m, PM.Go(i, start), a, newCluster, hash))
  {
    GuestMoves(m, i, start);
    PM.AdvanceFrame(m, i, start);
  }

  lemma OneLive(m: PM.Machine, child: nat)
    requires PM.Inv(m) && child in m.live
    ensures m.live == {child} && !Ending(m)
  {
    assert m.started;
    var i := Sums.SumPositive(m.threads, PM.StartedWeight);
    assert PM.OwnerView(m, m.threads[i]);
    forall j | 0 <= j < |m.threads| && PastStart(m.threads[j]) ensures m.spawned > 0 {
      assert PM.OwnerView(m, m.threads[j]);
    }
  }

  lemma ExitIsShown(m: PM.Machine, child: nat, a: Agent, hash: Hash)
    requires PM.Inv(m) && child in m.live && Shows(m, a)
    ensures Shows(m.(live := m.live - {child}), Happen(a, Exited, hash))
  {
    OneLive(m, child);
    var m' := m.(live := m.live - {child});
    assert Recording(m') <==> Recording(m);
    assert Ending(m') <==> Ending(m);
  }

  lemma CallIsSilent(m: PM.Machine, t: PM.Thread, a: Agent)
    requires PM.IsCall(t) && Shows(m, a)
    ensures Shows(m.(threads := m.threads + [t]), a)
  {
    var m' := m.(threads := m.threads + [t]);
    assert forall j | 0 <= j < |m.threads| :: m'.threads[j] == m.threads[j];
  }

  /** Every step of the machine is, for the agent, an exit, a finalizer, a start that succeeds or fails, or nothing. */
  lemma StepIsShown(m: PM.Machine, move: PM.Move, a: Agent, newCluster: bool, hash: Hash)
    requires PM.Inv(m) && PM.Possible(m, move) && Shows(m, a)
    ensures Shows(PM.After(m, move), Image(m, move, a, newCluster, hash))
  {
    match move
    case Call(t) => CallIsSilent(m, t, a);
    case Exit(child) => ExitIsShown(m, child, a, hash);
    case Go(i, start) =>
      if PM.OwnsStarted(m.threads[i]) {
        OwnerStepIsShown(m, i, start, a, newCluster, hash);
      } else {
        GuestStepIsShown(m, i, start, a, newCluster, hash);
      }
  }

  // ---- Whole runs ----

  /** One step of the agent's life as far as its manager is concerned. */
  ghost predicate Follows(a: Agent, a': Agent, hash: Hash) {
    || a' == a || a' == Happen(a, Exited, hash) || a' == Happen(a, Finalized, hash)
    || exists newCluster: bool, ok: bool :: a' == Run(a, newCluster, ok)
  }

  ghost predicate IsView(run: seq<PM.Machine>, view: seq<Agent>, hash: Hash) {
    && |view| == |run|
    && (forall k | 0 <= k < |run| :: Shows(run[k], view[k]))
    && (forall k | 0 < k < |run| :: Follows(view[k - 1], view[k], hash))
  }

  lemma NextIsShown(m: PM.Machine, m': PM.Machine, a: Agent, hash: Hash) returns (a': Agent)
    requires PM.Inv(m) && PM.Next(m, m') && Shows(m, a)
    ensures Shows(m', a') && Follows(a, a', hash)
  {
    var move :| PM.Possible(m, move) && m' == PM.After(m, move);
    StepIsShown(m, move, a, false, hash);
    a' := Image(m, move, a, false, hash);
  }

  lemma PrefixIsRun(run: seq<PM.Machine>, n: nat)
    requires PM.IsRun(run) && 0 < n <= |run|
    ensures PM.IsRun(run[..n])
  {
    forall k | 0 < k < n ensures PM.Next(run[..n][k - 1], run[..n][k]) {
      assert PM.Next(run[k - 1], run[k]);
    }
  }

  lemma ViewGrows(run: seq<PM.Machine>, view: seq<Agent>, m: PM.Machine, a: Agent, hash: Hash)
    requires run != [] && IsView(run, view, hash) && Shows(m, a) && Follows(view[|view| - 1], a, hash)
    ensures IsView(run + [m], view + [a], hash)
  {
  }

  /** Whatever the callers do, the manager goes through a history that the agent's steps know. */
  lemma {:induction false} RunIsShown(run: seq<PM.Machine>, file: Option<string>, flag: bool, hash: Hash) returns (view: seq<Agent>)
    requires PM.IsRun(run)
    ensures IsView(run, view, hash) && view[0] == NewAgent(file, flag)
    decreases |run|
  {
    var last := |run| - 1;
    if last == 0 {
      view := [NewAgent(file, flag)];
    } else {
      PrefixIsRun(run, last);
      var before := RunIsShown(run[..last], file, flag, hash);
      PM.RunInv(run, last - 1);
      assert PM.Next(run[last - 1], run[last]);
      var a := NextIsShown(run[last - 1], run[last], before[last - 1], hash);
      ViewGrows(run[..last], before, run[last], a, hash);
      assert run[..last] + [run[last]] == run;
      view := before + [a];
    }
  }

  // ---- A call of RunMariaDB ----

  lemma ShownStatus(m: PM.Machine, a: Agent)
    requires PM.Inv(m) && Shows(m, a)
    ensures a.status == Running || a.status == PM.RestStatus(m)
    ensures a.status == Running ==> m.spawned > 0
  {
    if m.started {
      var i := Sums.SumPositive(m.threads, PM.StartedWeight);
      assert PM.OwnerView(m, m.threads[i]);
      PM.SoleOwner(m, i);
    }
  }

  /**
   * A call of RunMariaDB waits until the process that may be running when it begins has exited and been finalized. If
   * nobody else starts one meanwhile, its start has on the agent exactly the effect of the one step it is for one
   * caller, whether it succeeds, fails, or fails as the first of all.
   */
  lemma CallIsOneStep(run: seq<PM.Machine>, k: nat, l: nat, i: nat, start: Option<nat>, a: Agent, newCluster: bool)
    requires PM.IsRun(run) && k <= l < |run| && run[k].spawned == run[l].spawned
    requires i < |run[k].threads| && run[k].threads[i].RunEntry?
    requires i < |run[l].threads| && run[l].threads[i].RunStart? && PM.Possible(run[l], PM.Go(i, start))
    requires Shows(run[k], a) && !a.doomed
    ensures Shows(PM.After(run[l], PM.Go(i, start)), Run(a, newCluster, start.Some?))
  {
    var m := run[l];
    PM.RunInv(run, k);
    PM.RunInv(run, l);
    assert PM.OwnerView(m, m.threads[i]);
    ShownStatus(run[k], a);
    OwnerMoves(m, i, start);
    var b := a.(child := None, status := if a.status == Running then Stopped else a.status);
    assert Shows(m, b);
    OwnerStepIsShown(m, i, start, b, newCluster, s => s);
    assert Run(b, newCluster, start.Some?) == Run(a, newCluster, start.Some?);
  }
}
