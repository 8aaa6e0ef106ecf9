/**
 * The iterations of one controller, one after the other. Each has its own limiter and none waits for the goroutines it
 * has launched, so those of earlier iterations can still be at work.
 */
module Iterations {
  import opened Sums
  import opened Launcher

  /** One iteration over `n` resources. */
  datatype Pass = Pass(n: nat, m: Machine)

  datatype Step =
    | Begin(n: nat)
    | Go(k: nat, move: Move)  // a step of the k-th iteration, of its loop or of its goroutines
    | CancelAll               // they all share one context

  predicate IsCancelled(passes: seq<Pass>) {
    passes != [] && passes[|passes| - 1].m.cancelled
  }

  /** The next iteration begins when the last one has returned. */
  predicate Enabled(passes: seq<Pass>, step: Step) {
    match step
    case Begin(_) => passes == [] || passes[|passes| - 1].m.loop == Returned
    case Go(k, move) => k < |passes| && !move.Cancel? && Possible(passes[k].m, move)
    case CancelAll => true
  }

  function Taken(passes: seq<Pass>, step: Step): seq<Pass>
    requires Enabled(passes, step)
  {
    match step
    case Begin(n) => passes + [Pass(n, START.(cancelled := IsCancelled(passes)))]
    case Go(k, move) => passes[k := Pass(passes[k].n, After(passes[k].n, passes[k].m, move))]
    case CancelAll => seq(|passes|, k requires 0 <= k < |passes| => Pass(passes[k].n, passes[k].m.(cancelled := true)))
  }

  ghost predicate Leads(passes: seq<Pass>, passes': seq<Pass>) {
    exists step: Step :: Enabled(passes, step) && passes' == Taken(passes, step)
  }

  ghost predicate IsHistory(history: seq<seq<Pass>>) {
    && history != [] && history[0] == []
    && forall i, j | 0 <= i < j < |history| && j == i + 1 :: Leads(history[i], history[j])
  }

  // ---- The bound ----

  predicate AllSound(passes: seq<Pass>) {
    && (forall k | 0 <= k < |passes| :: Inv(passes[k].n, passes[k].m))
    && (forall k | 0 <= k < |passes| - 1 :: passes[k].m.loop == Returned)
  }

  lemma StepKeepsSound(passes: seq<Pass>, step: Step)
    requires AllSound(passes) && Enabled(passes, step)
    ensures AllSound(Taken(passes, step))
  {
    if step.Go? {
      var p := passes[step.k];
      StepKeepsInv(p.n, p.m, step.move);
      StaysReturned(p.n, p.m, step.move);
    }
  }

  lemma StaysReturned(n: nat, m: Machine, move: Move)
    requires Possible(m, move)
    ensures m.loop == Returned ==> After(n, m, move).loop == Returned
  {
  }

  lemma {:induction false} HistorySound(history: seq<seq<Pass>>, i: nat)
    requires IsHistory(history) && i < |history|
    ensures AllSound(history[i])
  {
    if i > 0 {
      HistorySound(history, i - 1);
      assert Leads(history[i - 1], history[i]);
      var step :| Enabled(history[i - 1], step) && history[i] == Taken(history[i - 1], step);
      StepKeepsSound(history[i - 1], step);
    }
  }

  /** The reconciles of an iteration that are in flight. */
  function InFlight(p: Pass): nat {
    Sum(p.m.workers, IsReconciling)
  }

  /** Whether the iteration still loops or one of its goroutines is still there. */
  function IsLive(p: Pass): nat {
    if Over(p.m) then 0 else 1
  }

  lemma {:induction false} NoneReconciling(workers: seq<Worker>)
    requires forall j | 0 <= j < |workers| :: workers[j] == Gone
    ensures Sum(workers, IsReconciling) == 0
  {
    if workers != [] {
      NoneReconciling(workers[..|workers| - 1]);
    }
  }

  lemma PassBounded(p: Pass)
    requires Inv(p.n, p.m)
    ensures InFlight(p) <= LIMIT * IsLive(p)
  {
    SumBelow(p.m.workers, IsReconciling, IsOpen);
    if Over(p.m) {
      NoneReconciling(p.m.workers);
    }
  }

  lemma {:induction false} SoundIsBounded(passes: seq<Pass>)
    requires AllSound(passes)
    ensures Sum(passes, InFlight) <= LIMIT * Sum(passes, IsLive)
  {
    if passes != [] {
      var last := |passes| - 1;
      SoundIsBounded(passes[..last]);
      PassBounded(passes[last]);
    }
  }

  /** At every moment only the last iteration loops, and at most 20 reconciles are in flight for each that is not over. */
  lemma BoundPerIteration(history: seq<seq<Pass>>, i: nat)
    requires IsHistory(history) && i < |history|
    ensures Sum(history[i], InFlight) <= 20 * Sum(history[i], IsLive)
    ensures forall k | 0 <= k < |history[i]| :: InFlight(history[i][k]) <= 20
    ensures forall k | 0 <= k < |history[i]| - 1 :: history[i][k].m.loop == Returned
  {
    HistorySound(history, i);
    SoundIsBounded(history[i]);
    forall k | 0 <= k < |history[i]| ensures InFlight(history[i][k]) <= 20 {
      PassBounded(history[i][k]);
    }
  }

  // ---- The bound is reached ----

  ghost predicate Arises(passes: seq<Pass>) {
    exists history :: IsHistory(history) && history[|history| - 1] == passes
  }

  lemma ArisesNext(passes: seq<Pass>, step: Step, passes': seq<Pass>)
    requires Arises(passes) && Enabled(passes, step) && passes' == Taken(passes, step)
    ensures Arises(passes')
  {
    var history :| IsHistory(history) && history[|history| - 1] == passes;
    var longer := history + [passes'];
    assert Leads(passes, passes');
    assert IsHistory(longer) && longer[|longer| - 1] == passes';
  }

  /** An iteration over as many resources as the limit that has launched `k` reconciles, none of which is done. */
  function Busy(loop: Loop, k: nat): Machine {
    Machine(loop, k, seq(k, i => i), seq(k, _ => Reconciling), k, false)
  }

  lemma {:induction false} AllReconciling(k: nat)
    ensures Sum(seq(k, _ => Reconciling), IsReconciling) == k
  {
    if k > 0 {
      AllReconciling(k - 1);
      assert seq(k, _ => Reconciling)[..k - 1] == seq(k - 1, _ => Reconciling);
    }
  }

  lemma LaunchesOne(before: seq<Pass>, k: nat)
    requires k < LIMIT && Arises(before + [Pass(LIMIT, Busy(AtCheck, k))])
    ensures Arises(before + [Pass(LIMIT, Busy(AtCheck, k + 1))])
  {
    var last := |before|;
    var checked := Busy(AtSend, k);
    var sent := Busy(AtLaunch, k).(tokens := k + 1);
    Moves(before, Busy(AtCheck, k), Check, checked);
    Moves(before, checked, Send, sent);
    assert seq(k, i => i) + [k] == seq(k + 1, i => i);
    assert seq(k, _ => Reconciling) + [Reconciling] == seq(k + 1, _ => Reconciling);
    Moves(before, sent, Launch, Busy(AtCheck, k + 1));
  }

  lemma Moves(before: seq<Pass>, m: Machine, move: Move, m': Machine)
    requires Arises(before + [Pass(LIMIT, m)]) && !move.Cancel? && Possible(m, move) && m' == After(LIMIT, m, move)
    ensures Arises(before + [Pass(LIMIT, m')])
  {
    var passes := before + [Pass(LIMIT, m)];
    assert passes[|before| := Pass(LIMIT, m')] == before + [Pass(LIMIT, m')];
    ArisesNext(passes, Go(|before|, move), before + [Pass(LIMIT, m')]);
  }

  lemma {:induction false} Launches(before: seq<Pass>, k: nat)
    requires k <= LIMIT && Arises(before + [Pass(LIMIT, Busy(AtCheck, 0))])
    ensures Arises(before + [Pass(LIMIT, Busy(AtCheck, k))])
  {
    if k > 0 {
      Launches(before, k - 1);
      LaunchesOne(before, k - 1);
    }
  }

  /** As many iterations, each of which has launched as many reconciles as it may and returned. */
  function Crowd(r: nat): seq<Pass> {
    seq(r, _ => Pass(LIMIT, Busy(Returned, LIMIT)))
  }

  lemma {:induction false} CrowdArises(r: nat)
    ensures Arises(Crowd(r)) && Sum(Crowd(r), InFlight) == LIMIT * r
  {
    if r == 0 {
      assert IsHistory([[]]) && [[]][0] == Crowd(0);
    } else {
      var before, p := Crowd(r - 1), Pass(LIMIT, Busy(Returned, LIMIT));
      CrowdArises(r - 1);
      assert Busy(AtCheck, 0) == START;
      ArisesNext(before, Begin(LIMIT), before + [Pass(LIMIT, Busy(AtCheck, 0))]);
      Launches(before, LIMIT);
      Moves(before, Busy(AtCheck, LIMIT), Check, Busy(Returned, LIMIT));
      assert before + [p] == Crowd(r);
      AllReconciling(LIMIT);
      SumAppend(before, InFlight, p);
    }
  }

  /** There is no bound on the reconciles of a controller: `r` iterations can have all of 20 `r` of them in flight. */
  lemma BoundIsReached(r: nat) returns (history: seq<seq<Pass>>)
    ensures IsHistory(history) && |history[|history| - 1]| == r
    ensures Sum(history[|history| - 1], InFlight) == 20 * r
  {
    CrowdArises(r);
    history :| IsHistory(history) && history[|history| - 1] == Crowd(r);
  }
}
