/**
 * One iteration of the controller manager: a loop that sends a token to a bounded channel and launches a goroutine for
 * each resource, and the goroutines, which reconcile and then receive a token. Every channel operation is one step.
 */
module Launcher {
  import opened Sums

  /** The capacity of the limiter channel. */
  const LIMIT := 20

  /** A launched goroutine: it reconciles, then it waits to receive a token, then it is gone. */
  datatype Worker = Reconciling | Releasing | Gone

  /** Where the loop stands: before the look at the context, before the send, between the send and the launch, or past. */
  datatype Loop = AtCheck | AtSend | AtLaunch | Returned

  /** `i` is the loop variable, `launched` the positions launched so far, `tokens` the number of tokens in the channel. */
  datatype Machine = Machine(loop: Loop, i: nat, launched: seq<nat>, workers: seq<Worker>, tokens: nat, cancelled: bool)

  const START := Machine(AtCheck, 0, [], [], 0, false)

  datatype Move = Cancel | Check | Send | Launch | Finish(j: nat) | Receive(j: nat)

  /** A send blocks while the channel is full, a receive while it is empty. */
  predicate Possible(m: Machine, move: Move) {
    match move
    case Cancel => !m.cancelled
    case Check => m.loop == AtCheck
    case Send => m.loop == AtSend && m.tokens < LIMIT
    case Launch => m.loop == AtLaunch
    case Finish(j) => j < |m.workers| && m.workers[j] == Reconciling
    case Receive(j) => j < |m.workers| && m.workers[j] == Releasing && m.tokens > 0
  }

  /** The step, in an iteration over `n` resources. */
  function After(n: nat, m: Machine, move: Move): Machine
    requires Possible(m, move)
  {
    match move
    case Cancel => m.(cancelled := true)
    case Check => m.(loop := if m.i == n || m.cancelled then Returned else AtSend)
    case Send => m.(loop := AtLaunch, tokens := m.tokens + 1)
    case Launch => m.(loop := AtCheck, i := m.i + 1, launched := m.launched + [m.i], workers := m.workers + [Reconciling])
    case Finish(j) => m.(workers := m.workers[j := Releasing])
    case Receive(j) => m.(workers := m.workers[j := Gone], tokens := m.tokens - 1)
  }

  ghost predicate Next(n: nat, m: Machine, m': Machine) {
    exists move: Move :: Possible(m, move) && m' == After(n, m, move)
  }

  ghost predicate IsRun(n: nat, run: seq<Machine>) {
    && run != [] && run[0] == START
    && forall i, j | 0 <= i < j < |run| && j == i + 1 :: Next(n, run[i], run[j])
  }

  // ---- The invariant ----

  function IsReconciling(w: Worker): nat {
    if w == Reconciling then 1 else 0
  }

  function IsOpen(w: Worker): nat {
    if w == Gone then 0 else 1
  }

  function IsGone(w: Worker): nat {
    if w == Gone then 1 else 0
  }

  /** The token that has been sent for a goroutine which is not launched yet. */
  function InHand(m: Machine): nat {
    if m.loop == AtLaunch then 1 else 0
  }

  predicate Inv(n: nat, m: Machine) {
    && m.i <= n && |m.workers| == m.i && m.launched == seq(m.i, k => k)
    && m.tokens == Sum(m.workers, IsOpen) + InHand(m) <= LIMIT
    && (m.loop == AtSend || m.loop == AtLaunch ==> m.i < n)
    && (m.loop == Returned ==> m.i == n || m.cancelled)
  }

  lemma StepKeepsInv(n: nat, m: Machine, move: Move)
    requires Inv(n, m) && Possible(m, move)
    ensures Inv(n, After(n, m, move))
  {
    match move
    case Launch =>
      SumAppend(m.workers, IsOpen, Reconciling);
      assert m.launched + [m.i] == seq(m.i + 1, k => k);
    case Finish(j) => SumUpdate(m.workers, IsOpen, j, Releasing);
    case Receive(j) => SumUpdate(m.workers, IsOpen, j, Gone);
    case _ =>
  }

  lemma {:induction false} RunInv(n: nat, run: seq<Machine>, k: nat)
    requires IsRun(n, run) && k < |run|
    ensures Inv(n, run[k])
  {
    if k > 0 {
      RunInv(n, run, k - 1);
      assert Next(n, run[k - 1], run[k]);
      var move :| Possible(run[k - 1], move) && run[k] == After(n, run[k - 1], move);
      StepKeepsInv(n, run[k - 1], move);
    }
  }

  // ---- What holds at every moment ----

  lemma {:induction false} OpenOrGone(workers: seq<Worker>)
    ensures Sum(workers, IsOpen) + Sum(workers, IsGone) == |workers|
  {
    if workers != [] {
      OpenOrGone(workers[..|workers| - 1]);
    }
  }

  /**
   * The tokens in the channel are the launches that are not over yet, and one in hand between a send and a launch. So
   * never more than the limit reconcile at the same time, and one less while the next one is about to be launched.
   */
  lemma BoundedLaunching(n: nat, run: seq<Machine>, k: nat)
    requires IsRun(n, run) && k < |run|
    ensures run[k].tokens == |run[k].launched| - Sum(run[k].workers, IsGone) + InHand(run[k])
    ensures Sum(run[k].workers, IsReconciling) + InHand(run[k]) <= run[k].tokens <= 20
  {
    RunInv(n, run, k);
    OpenOrGone(run[k].workers);
    SumBelow(run[k].workers, IsReconciling, IsOpen);
  }

  lemma AlwaysBounded(n: nat, run: seq<Machine>)
    requires IsRun(n, run)
    ensures forall k | 0 <= k < |run| :: Sum(run[k].workers, IsReconciling) <= 20
  {
    forall k | 0 <= k < |run| ensures Sum(run[k].workers, IsReconciling) <= 20 {
      BoundedLaunching(n, run, k);
    }
  }

  /** The launched resources are the first ones, each once and in order; after the return all of them unless cancelled. */
  lemma LaunchesPrefix<T>(resources: seq<T>, run: seq<Machine>, k: nat)
    requires IsRun(|resources|, run) && k < |run|
    ensures var launched := run[k].launched;
            && |launched| <= |resources|
            && (forall x | 0 <= x < |launched| :: launched[x] == x)
            && (run[k].loop == Returned && !run[k].cancelled ==> |launched| == |resources|)
  {
    RunInv(|resources|, run, k);
  }

  /** The loop waits in its send exactly while as many reconciles as the limit are not over. */
  lemma SendWaitsIff(n: nat, run: seq<Machine>, k: nat)
    requires IsRun(n, run) && k < |run| && run[k].loop == AtSend
    ensures !Possible(run[k], Send) <==> |run[k].launched| - Sum(run[k].workers, IsGone) == 20
  {
    BoundedLaunching(n, run, k);
  }

  /** A goroutine that is done never waits for a token. */
  lemma ReceiveNeverWaits(n: nat, run: seq<Machine>, k: nat, j: nat)
    requires IsRun(n, run) && k < |run| && j < |run[k].workers| && run[k].workers[j] == Releasing
    ensures Possible(run[k], Receive(j))
  {
    RunInv(n, run, k);
    SumUpdate(run[k].workers, IsOpen, j, Gone);
  }

  // ---- Cancellation ----

  /** What may still be launched after a cancellation: the one whose turn had come before. */
  function StillDue(m: Machine): nat {
    if m.loop == AtSend || m.loop == AtLaunch then 1 else 0
  }

  lemma {:induction false} CancelledBound(n: nat, run: seq<Machine>, k: nat, l: nat)
    requires IsRun(n, run) && k <= l < |run| && run[k].cancelled
    ensures run[l].cancelled && |run[l].launched| + StillDue(run[l]) <= |run[k].launched| + StillDue(run[k])
  {
    if k < l {
      CancelledBound(n, run, k, l - 1);
      assert Next(n, run[l - 1], run[l]);
    }
  }

  /** After a cancellation at most one more reconcile is launched, and none if the loop had not passed its check. */
  lemma CancelStops(n: nat, run: seq<Machine>, k: nat, l: nat)
    requires IsRun(n, run) && k <= l < |run| && run[k].cancelled
    ensures |run[k].launched| <= |run[l].launched| <= |run[k].launched| + StillDue(run[k])
  {
    CancelledBound(n, run, k, l);
    LaunchesGrow(n, run, k, l);
  }

  lemma {:induction false} LaunchesGrow(n: nat, run: seq<Machine>, k: nat, l: nat)
    requires IsRun(n, run) && k <= l < |run|
    ensures |run[k].launched| <= |run[l].launched|
  {
    if k < l {
      LaunchesGrow(n, run, k, l - 1);
      assert Next(n, run[l - 1], run[l]);
    }
  }

  // ---- Progress ----

  function Rank(w: Worker): nat {
    match w
    case Reconciling => 2
    case Releasing => 1
    case Gone => 0
  }

  /** How many steps are left. */
  function Work(n: nat, m: Machine): int {
    5 * (n - m.i) + Sum(m.workers, Rank) + (if m.cancelled then 0 else 1)
    + (match m.loop case AtCheck => 1 case AtSend => 0 case AtLaunch => -1 case Returned => 0)
  }

  lemma WorkDrops(n: nat, m: Machine, move: Move)
    requires Inv(n, m) && Possible(m, move)
    ensures 0 <= Work(n, After(n, m, move)) && Work(n, After(n, m, move)) < Work(n, m)
  {
    match move
    case Launch => SumAppend(m.workers, Rank, Reconciling);
    case Finish(j) => SumUpdate(m.workers, Rank, j, Releasing);
    case Receive(j) => SumUpdate(m.workers, Rank, j, Gone);
    case _ =>
  }

  predicate Over(m: Machine) {
    m.loop == Returned && forall j | 0 <= j < |m.workers| :: m.workers[j] == Gone
  }

  /** There is no deadlock: until the loop has returned and all goroutines are gone, something other than a cancellation can happen. */
  lemma Progress(n: nat, run: seq<Machine>, k: nat) returns (move: Move)
    requires IsRun(n, run) && k < |run| && !Over(run[k])
    ensures Possible(run[k], move) && move != Cancel
  {
    RunInv(n, run, k);
    var m := run[k];
    if m.loop == AtCheck {
      move := Check;
    } else if m.loop == AtLaunch {
      move := Launch;
    } else if m.loop == AtSend && m.tokens < LIMIT {
      move := Send;
    } else {
      var j := OpenWorker(n, m);
      move := if m.workers[j] == Reconciling then Finish(j) else Receive(j);
    }
  }

  lemma OpenWorker(n: nat, m: Machine) returns (j: nat)
    requires Inv(n, m) && ((m.loop == AtSend && m.tokens == LIMIT) || (m.loop == Returned && !Over(m)))
    ensures j < |m.workers| && m.workers[j] != Gone && m.tokens > 0
  {
    if m.loop == AtSend {
      j := SumPositive(m.workers, IsOpen);
    } else {
      j :| 0 <= j < |m.workers| && m.workers[j] != Gone;
      SumUpdate(m.workers, IsOpen, j, Gone);
    }
  }

  lemma {:induction false} StepsLeft(n: nat, run: seq<Machine>, k: nat)
    requires IsRun(n, run) && k < |run|
    ensures 0 <= k + Work(n, run[k]) <= 5 * n + 2 && Work(n, run[k]) >= 0
  {
    if k > 0 {
      StepsLeft(n, run, k - 1);
      RunInv(n, run, k - 1);
      assert Next(n, run[k - 1], run[k]);
      var move :| Possible(run[k - 1], move) && run[k] == After(n, run[k - 1], move);
      StepKeepsInv(n, run[k - 1], move);
      WorkDrops(n, run[k - 1], move);
    }
  }

  /**
   * Every schedule is over after five steps per resource and two more; then the loop has returned, all goroutines are
   * gone, the channel is empty, and everything was launched unless the context was cancelled.
   */
  lemma EveryIterationEnds(n: nat, run: seq<Machine>)
    requires IsRun(n, run)
    ensures |run| <= 5 * n + 3
    ensures var last := run[|run| - 1];
            (forall move: Move :: Possible(last, move) ==> move == Cancel) ==>
              Over(last) && last.tokens == 0 && (last.cancelled || |last.launched| == n)
  {
    var k := |run| - 1;
    StepsLeft(n, run, k);
    RunInv(n, run, k);
    if forall move: Move :: Possible(run[k], move) ==> move == Cancel {
      if !Over(run[k]) {
        var move := Progress(n, run, k);
        assert false;
      }
      AllGone(run[k].workers);
    }
  }

  lemma {:induction false} AllGone(workers: seq<Worker>)
    requires forall j | 0 <= j < |workers| :: workers[j] == Gone
    ensures Sum(workers, IsOpen) == 0
  {
    if workers != [] {
      AllGone(workers[..|workers| - 1]);
    }
  }

  // ---- The iteration as it runs ----

  /** What happens besides the loop: before its looks at the context, and before its sends. */
  datatype World = World(looks: nat -> seq<Move>, sends: nat -> seq<Move>)

  /** The context is cancelled before the loop comes to resource `i`. */
  predicate CancelledBefore(world: World, i: nat) {
    i > 0 && (CancelledBefore(world, i - 1) || Cancel in world.looks(i - 1) || Cancel in world.sends(i - 1))
  }

  /** The context is cancelled when the loop looks at it for resource `i`. */
  predicate CancelledAt(world: World, i: nat) {
    CancelledBefore(world, i) || Cancel in world.looks(i)
  }

  /** doIteration over `resources`, with the goroutines it has launched and the history of what happened. */
  class Iteration<T> {
    const resources: seq<T>
    var loop: Loop
    var i: nat
    var launched: seq<nat>
    var workers: seq<Worker>
    var tokens: nat
    var cancelled: bool
    ghost var run: seq<Machine>

    function State(): Machine
      reads this
    {
      Machine(loop, i, launched, workers, tokens, cancelled)
    }

    ghost predicate Valid()
      reads this
    {
      IsRun(|resources|, run) && run[|run| - 1] == State()
    }

    constructor (resources: seq<T>)
      ensures Valid() && this.resources == resources && State() == START
    {
      this.resources := resources;
      loop, i, launched, workers, tokens, cancelled := AtCheck, 0, [], [], 0, false;
      run := [START];
    }

    /** The history goes on with what has just been done. */
    ghost method Did(before: Machine, move: Move)
      requires IsRun(|resources|, run) && run[|run| - 1] == before && Possible(before, move)
      requires State() == After(|resources|, before, move)
      modifies this`run
      ensures Valid() && run == old(run) + [State()]
    {
      run := run + [State()];
      forall k | 0 < k < |run| ensures Next(|resources|, run[k - 1], run[k]) {
        if k == |run| - 1 {
          assert run[k - 1] == before && run[k] == State();
        }
      }
    }

    /** Meanwhile the context is cancelled, a reconcile finishes, or a goroutine gives its token back. */
    method Meanwhile(move: Move)
      requires Valid() && Possible(State(), move) && (move.Cancel? || move.Finish? || move.Receive?)
      modifies this`workers, this`tokens, this`cancelled, this`run
      ensures Valid() && State() == After(|resources|, old(State()), move) && old(run) <= run
    {
      ghost var before := State();
      match move {
        case Cancel => cancelled := true;
        case Finish(j) => workers := workers[j := Releasing];
        case Receive(j) => workers, tokens := workers[j := Gone], tokens - 1;
      }
      Did(before, move);
    }

    method MeanwhileAll(moves: seq<Move>)
      requires Valid()
      modifies this`workers, this`tokens, this`cancelled, this`run
      ensures Valid() && old(run) <= run && cancelled == (old(cancelled) || Cancel in moves)
    {
      for x := 0 to |moves|
        invariant Valid() && old(run) <= run && cancelled == (old(cancelled) || Cancel in moves[..x])
      {
        if Possible(State(), moves[x]) && (moves[x].Cancel? || moves[x].Finish? || moves[x].Receive?) {
          Meanwhile(moves[x]);
        }
      }
    }

    /**
     * The send to the limiter. While the loop stands before it anything may happen; if the channel is full even then,
     * it waits until some goroutine gives its token back.
     */
    method SendToken(meanwhile: seq<Move>)
      requires Valid() && loop == AtSend
      modifies this
      ensures Valid() && loop == AtLaunch && i == old(i) && launched == old(launched) && old(run) <= run
      ensures cancelled == (old(cancelled) || Cancel in meanwhile)
    {
      MeanwhileAll(meanwhile);
      if tokens == LIMIT {
        AwaitToken();
      }
      RunInv(|resources|, run, |run| - 1);
      ghost var before := State();
      tokens, loop := tokens + 1, AtLaunch;
      Did(before, Send);
    }

    /** Any goroutine that is not gone may be the one: it finishes, if it has not yet, and gives its token back. */
    method AwaitToken()
      requires Valid() && loop == AtSend && tokens == LIMIT
      modifies this`workers, this`tokens, this`cancelled, this`run
      ensures Valid() && tokens == LIMIT - 1 && cancelled == old(cancelled) && old(run) <= run
    {
      RunInv(|resources|, run, |run| - 1);
      ghost var open := OpenWorker(|resources|, State());
      var j: nat :| j < |workers| && workers[j] != Gone;
      if workers[j] == Reconciling {
        Meanwhile(Finish(j));
      }
      Meanwhile(Receive(j));
    }

    /** The look at the context, and at whether a resource is left. */
    method LookAround() returns (goOn: bool)
      requires Valid() && loop == AtCheck
      modifies this`loop, this`run
      ensures Valid() && old(run) <= run && goOn == (i != |resources| && !cancelled)
      ensures loop == if goOn then AtSend else Returned
    {
      ghost var before := State();
      goOn := i != |resources| && !cancelled;
      loop := if goOn then AtSend else Returned;
      Did(before, Check);
    }

    method LaunchNext()
      requires Valid() && loop == AtLaunch
      modifies this
      ensures Valid() && old(run) <= run && loop == AtCheck && i == old(i) + 1 && launched == old(launched) + [old(i)] && cancelled == old(cancelled)
    {
      ghost var before := State();
      launched, workers, i, loop := launched + [i], workers + [Reconciling], i + 1, AtCheck;
      Did(before, Launch);
    }

    /** One turn of the loop, with whatever happens meanwhile. */
    method Turn(world: World)
      requires Valid() && loop == AtCheck && |launched| == i <= |resources| && cancelled == CancelledBefore(world, i)
      modifies this
      ensures Valid() && old(run) <= run && |launched| == i <= |resources|
      ensures if old(i) == |resources| || CancelledAt(world, old(i))
              then loop == Returned && i == old(i) && cancelled == CancelledAt(world, i)
              else loop == AtCheck && i == old(i) + 1 && cancelled == CancelledBefore(world, i)
    {
      MeanwhileAll(world.looks(i));
      var goOn := LookAround();
      if goOn {
        SendToken(world.sends(i));
        LaunchNext();
      }
    }

    /**
     * The loop, while anything may happen in between. Every moment of it is a state of a run, so all that is proved of
     * runs holds throughout. It launches the resources in order up to the first one for which it finds the context
     * cancelled.
     */
    method DoIteration(world: World)
      requires Valid() && State() == START
      modifies this
      ensures Valid() && loop == Returned && old(run) <= run
      ensures |launched| <= |resources| && forall x | 0 <= x < |launched| :: launched[x] == x && !CancelledAt(world, x)
      ensures |launched| == |resources| || CancelledAt(world, |launched|)
      ensures forall k | 0 <= k < |run| :: Sum(run[k].workers, IsReconciling) <= 20
    {
      while loop != Returned
        invariant Valid() && old(run) <= run && (loop == AtCheck || loop == Returned) && |launched| == i <= |resources|
        invariant loop == AtCheck ==> cancelled == CancelledBefore(world, i)
        invariant forall x | 0 <= x < i :: !CancelledAt(world, x)
        invariant loop == Returned ==> i == |resources| || CancelledAt(world, i)
        decreases if loop == Returned then 0 else 1, |resources| - i
      {
        Turn(world);
      }
      LaunchesPrefix(resources, run, |run| - 1);
      AlwaysBounded(|resources|, run);
    }
  }
}
