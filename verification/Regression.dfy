/**
 * When a node can lose ACTIVE, and when two nodes can join at once: exact conditions on a reachable state of the
 * interleaved machine, over everything that can still happen.
 */
module Regression {
  import opened Entities
  import opened Names
  import opened ControlPlane
  import opened Protocol
  import PI = ProtocolInvariant
  import PT = ProtocolTheorems
  import opened Atomic

  // ---- Reachability ----

  ghost predicate Reachable(c: Config, s: State) {
    exists run :: IsRun(c, run) && run[|run| - 1] == s
  }

  ghost predicate Reaches(c: Config, s: State, s': State) {
    exists path :: PT.Path(c, path) && path[0] == s && path[|path| - 1] == s'
  }

  lemma ReachableInv(c: Config, s: State)
    requires Reachable(c, s)
    ensures Inv(c, s)
  {
    var run :| IsRun(c, run) && run[|run| - 1] == s;
    PI.RunInv(c, run, |run| - 1);
  }

  lemma ReachesStep(c: Config, s: State, step: Step, s': State)
    requires Enabled(c, s, step) && s' == After(c, s, step)
    ensures Reaches(c, s, s')
  {
    var path := PT.Extend(c, [s], s, step, s');
    assert path[0] == s && path[|path| - 1] == s';
  }

  lemma ReachesItself(c: Config, s: State)
    ensures Reaches(c, s, s)
  {
    assert PT.Path(c, [s]) && [s][0] == s;
  }

  lemma ReachesTrans(c: Config, s: State, m: State, s': State)
    requires Reaches(c, s, m) && Reaches(c, m, s')
    ensures Reaches(c, s, s')
  {
    var p :| PT.Path(c, p) && p[0] == s && p[|p| - 1] == m;
    var q :| PT.Path(c, q) && q[0] == m && q[|q| - 1] == s';
    var path := p + q[1..];
    forall i | 0 < i < |path| ensures Next(c, path[i - 1], path[i]) {
      if i >= |p| {
        assert path[i - 1] == q[i - |p|] && path[i] == q[i - |p| + 1];
      }
    }
    assert path[0] == s && path[|path| - 1] == s';
  }

  lemma StepKeeps(c: Config, s: State, s': State)
    requires Inv(c, s) && Next(c, s, s')
    ensures Inv(c, s')
  {
    var step :| Enabled(c, s, step) && s' == After(c, s, step);
    PI.StepKeepsInv(c, s, step);
  }

  /** What every step keeps holds wherever the machine can get. */
  lemma {:induction false} PathKeeps(c: Config, path: seq<State>, i: nat, P: State -> bool)
    requires PT.Path(c, path) && P(path[0]) && i < |path|
    requires forall s, s' :: P(s) && Next(c, s, s') ==> P(s')
    ensures P(path[i])
  {
    if i > 0 {
      PathKeeps(c, path, i - 1, P);
      assert Next(c, path[i - 1], path[i]);
    }
  }

  lemma ReachesKeeps(c: Config, s: State, s': State, P: State -> bool)
    requires Reaches(c, s, s') && P(s)
    requires forall x, x' :: P(x) && Next(c, x, x') ==> P(x')
    ensures P(s')
  {
    var path :| PT.Path(c, path) && path[0] == s && path[|path| - 1] == s';
    PathKeeps(c, path, |path| - 1, P);
  }

  lemma ReachesReachable(c: Config, s: State, s': State)
    requires Reachable(c, s) && Reaches(c, s, s')
    ensures Reachable(c, s')
  {
    var run :| IsRun(c, run) && run[|run| - 1] == s;
    assert PT.Path(c, run) && run[0] == run[0];
    ReachesTrans(c, run[0], s, s');
    var path :| PT.Path(c, path) && path[0] == run[0] && path[|path| - 1] == s';
    assert IsRun(c, path);
  }

  // ---- Threats ----

  /** The operation will write a record of this node that is not ACTIVE, or may do so after it has listed the peers. */
  predicate Threatens(op: Op, name: string) {
    match op
    case PendingCreate(n) => n.name == name && n.status != Active
    case PendingUpdate(n) => n.name == name && n.status != Active
    case PendingReport(n) => n.name == name && n.status != Active
    case Held(n) => n.name == name && (NodePlan(n).Gather? || (NodePlan(n).Write? && NodePlan(n).node.status != Active))
    case _ => false
  }

  predicate IsActive(s: State, name: string) {
    name in s.store && s.store[name].status == Active
  }

  /** ACTIVE, and no operation in flight threatens it. */
  ghost predicate Settled(s: State, name: string) {
    IsActive(s, name) && forall op | op in s.ops :: !Threatens(op, name)
  }

  lemma ActiveMeansSeeded(c: Config, s: State, name: string)
    requires Inv(c, s) && IsActive(s, name)
    ensures c.seeded
  {
    assert RecordOk(c, Known(s), s.store[name]);
  }

  /** The name of the next node is new. */
  lemma NextIsNew(c: Config, store: Nodes, name: string)
    requires c.seeded && Shape(c, store) && name in store
    ensures NextNode(c.cluster, store).Some? ==> NextNode(c.cluster, store).value.name != name
  {
    NumberedMembers(|store|, |store| + 1);
    assert name in store.Keys;
  }

  lemma ScanThreatensNone(c: Config, s: State, name: string)
    requires Inv(c, s) && IsActive(s, name)
    ensures var plan := ClusterPlan(c.cluster, Members(s.store, c.cluster.name)); plan.Some? ==> plan.value.name != name
  {
    PI.MembersAreAll(c, s);
    ActiveMeansSeeded(c, s, name);
    NextIsNew(c, s.store, name);
  }

  /** The steps that add an operation which holds a record. */
  predicate AddsRecord(step: Step) {
    step.ScanCluster? || step.TakeSnapshot? || step.PlanNode? || step.GatherPeers? || step.ReceiveReport?
  }

  lemma AgentsAddNoRecord(c: Config, s: State, step: Step, op: Op, name: string)
    requires Enabled(c, s, step) && PI.IsAgentStep(step) && op in After(c, s, step).ops && op !in s.ops
    ensures !Threatens(op, name)
  {
  }

  lemma OtherStepsAddNoRecord(c: Config, s: State, step: Step, op: Op, name: string)
    requires Enabled(c, s, step) && !AddsRecord(step) && op in After(c, s, step).ops && op !in s.ops
    ensures !Threatens(op, name)
  {
    if PI.IsAgentStep(step) {
      AgentsAddNoRecord(c, s, step, op, name);
    }
  }

  /** What a handler reads of a settled node is no threat to it, and neither is what it makes of a harmless snapshot. */
  lemma ReadersThreatenNone(c: Config, s: State, step: Step, op: Op, name: string)
    requires Enabled(c, s, step) && (step.TakeSnapshot? || step.ReceiveReport?) && IsActive(s, name)
    requires op in After(c, s, step).ops && op !in s.ops && forall x | x in s.store :: s.store[x].name == x
    ensures !Threatens(op, name)
  {
  }

  lemma PlannersThreatenNone(c: Config, s: State, n: Node, peers: seq<Node>, name: string)
    requires !Threatens(Held(n), name)
    ensures NodePlan(n).Write? ==> !Threatens(PendingUpdate(NodePlan(n).node), name)
    ensures NodePlan(n).Gather? && GatherPlan(n, peers).Write? ==> !Threatens(PendingUpdate(GatherPlan(n, peers).node), name)
  {
  }

  /** What an operation in flight may turn into, or what a handler starts with, threatens no settled node. */
  lemma NewOpsThreatenNone(c: Config, s: State, step: Step, op: Op, name: string)
    requires Inv(c, s) && Enabled(c, s, step) && Settled(s, name) && op in After(c, s, step).ops && op !in s.ops
    ensures !Threatens(op, name)
  {
    if !AddsRecord(step) {
      OtherStepsAddNoRecord(c, s, step, op, name);
    } else if step.ScanCluster? {
      ScanThreatensNone(c, s, name);
    } else if step.TakeSnapshot? || step.ReceiveReport? {
      StoredNames(c, s);
      ReadersThreatenNone(c, s, step, op, name);
    } else {
      PlannersThreatenNone(c, s, step.held, if step.GatherPeers? then step.peers else [], name);
    }
  }

  lemma WritesKeepActive(c: Config, s: State, step: Step, name: string)
    requires Enabled(c, s, step) && Settled(s, name)
    ensures IsActive(After(c, s, step), name)
  {
    match step {
      case CommitCreate(n) => assert !Threatens(PendingCreate(n), name);
      case CommitUpdate(n) => assert !Threatens(PendingUpdate(n), name);
      case CommitReport(n) => assert !Threatens(PendingReport(n), name);
      case _ =>
    }
  }

  /** No step of anybody takes ACTIVE from a settled node, and no step creates a threat to it. */
  lemma SettledStep(c: Config, s: State, s': State, name: string)
    requires Inv(c, s) && Next(c, s, s') && Settled(s, name)
    ensures Settled(s', name)
  {
    var step :| Enabled(c, s, step) && s' == After(c, s, step);
    WritesKeepActive(c, s, step, name);
    forall op | op in s'.ops && op !in s.ops ensures !Threatens(op, name) {
      NewOpsThreatenNone(c, s, step, op, name);
    }
  }

  /** A settled node stays settled, whatever happens. */
  lemma SettledForever(c: Config, s: State, s': State, name: string)
    requires Inv(c, s) && Reaches(c, s, s') && Settled(s, name)
    ensures Settled(s', name)
  {
    var P := (x: State) => Inv(c, x) && Settled(x, name);
    forall x, x' | P(x) && Next(c, x, x') ensures P(x') {
      StepKeeps(c, x, x');
      SettledStep(c, x, x', name);
    }
    ReachesKeeps(c, s, s', P);
  }

  // ---- Making things happen ----

  /** The two states have the same nodes, with the same statuses except perhaps that of `name`. */
  ghost predicate SameBut(s: State, s': State, name: string) {
    s'.store.Keys == s.store.Keys && forall x | x in s.store && x != name :: s'.store[x].status == s.store[x].status
  }

  ghost predicate SameStatuses(s: State, s': State) {
    s'.store.Keys == s.store.Keys && forall x | x in s.store :: s'.store[x].status == s.store[x].status
  }

  lemma StoredNames(c: Config, s: State)
    requires Inv(c, s)
    ensures forall x | x in s.store :: s.store[x].name == x && s.store[x].clusterName == c.cluster.name
    ensures Members(s.store, c.cluster.name) == s.store
  {
    PI.MembersAreAll(c, s);
    forall x | x in s.store ensures s.store[x].name == x && s.store[x].clusterName == c.cluster.name {
      assert RecordOk(c, Known(s), s.store[x]);
    }
  }

  lemma ReachableNames(c: Config, s: State)
    requires Reachable(c, s)
    ensures forall x | x in s.store :: s.store[x].name == x && s.store[x].clusterName == c.cluster.name
    ensures Members(s.store, c.cluster.name) == s.store
  {
    ReachableInv(c, s);
    StoredNames(c, s);
  }

  /** Any atomic action can happen, and the operations in flight stay as they are. */
  lemma Act(c: Config, s: State, a: Action) returns (s': State)
    requires Reachable(c, s) && Possible(s.store, a)
    requires a.Heartbeat? && a.report.prepared ==> a.report.name in s.flags
    ensures Reaches(c, s, s') && Reachable(c, s')
    ensures s'.store == Effect(c.cluster, s.store, a) && s'.ops == s.ops && s'.flags == s.flags
  {
    ReachableNames(c, s);
    var path := AtomicIsInterleaved(c, s, a);
    s' := path[|path| - 1];
    ReachesReachable(c, s, s');
  }

  /** A report of a node that has an address and nothing else. */
  function Hello(name: string): Report {
    Report(name, true, "10.0.0.1", false, Unknown, WsrepOther(""))
  }

  lemma Greets(c: Config, s: State, x: string) returns (s': State)
    requires Reachable(c, s) && x in s.store
    ensures Reaches(c, s, s') && Reachable(c, s') && s'.ops == s.ops && s'.flags == s.flags
    ensures s'.store == s.store[x := WithReport(s.store[x], Hello(x))]
  {
    s' := Act(c, s, Heartbeat(Hello(x)));
  }

  ghost predicate Greeted(s: State, todo: set<string>) {
    forall x | x in todo :: x in s.store && s.store[x].report == Hello(x)
  }

  lemma GreetedOnce(s: State, m: State, s': State, todo: set<string>, x: string)
    requires x in s.store && SameStatuses(s, m) && Greeted(m, todo - {x})
    requires s'.store == m.store[x := WithReport(m.store[x], Hello(x))]
    ensures SameStatuses(s, s') && Greeted(s', todo)
  {
  }

  /** The nodes in `todo` report their addresses. */
  lemma {:induction false} AllReport(c: Config, s: State, todo: set<string>) returns (s': State)
    requires Reachable(c, s) && todo <= s.store.Keys
    ensures Reaches(c, s, s') && Reachable(c, s') && s'.ops == s.ops && s'.flags == s.flags
    ensures SameStatuses(s, s') && Greeted(s', todo)
    decreases |todo|
  {
    if todo == {} {
      s' := s;
      ReachesItself(c, s);
    } else {
      var x :| x in todo;
      var m := AllReport(c, s, todo - {x});
      s' := Greets(c, m, x);
      GreetedOnce(s, m, s', todo, x);
      ReachesTrans(c, s, m, s');
    }
  }

  lemma {:induction false} SomeListing(m: Nodes) returns (peers: seq<Node>)
    requires forall x | x in m :: m[x].name == x
    ensures IsListing(peers, m)
    decreases |m|
  {
    if m == map[] {
      peers := [];
    } else {
      var x :| x in m;
      var rest := m - {x};
      assert rest.Keys == m.Keys - {x};
      assert |rest| == |rest.Keys| == |m.Keys| - 1 == |m| - 1;
      var others := SomeListing(rest);
      peers := others + [m[x]];
    }
  }

  /** Once every node has reported its address, a listing yields a target. */
  lemma FullListing(c: Config, s: State) returns (peers: seq<Node>)
    requires Reachable(c, s) && Greeted(s, s.store.Keys)
    ensures IsListing(peers, Members(s.store, c.cluster.name)) && "" !in Addresses(peers)
  {
    ReachableNames(c, s);
    peers := SomeListing(s.store);
    AddressesOfListing(peers, s.store);
  }

  lemma HeldIdentity(c: Config, s: State, n: Node)
    requires Reachable(c, s) && Held(n) in s.ops
    ensures n.clusterName == c.cluster.name
  {
    ReachableInv(c, s);
    assert OpOk(c, Known(s), Held(n));
  }

  lemma GatherStep(c: Config, s: State, n: Node, peers: seq<Node>) returns (s': State, w: Node)
    requires Held(n) in s.ops && NodePlan(n).Gather? && n.clusterName == c.cluster.name
    requires IsListing(peers, Members(s.store, c.cluster.name)) && "" !in Addresses(peers)
    ensures Reaches(c, s, s') && s'.store == s.store && s'.flags == s.flags
    ensures s'.ops == s.ops - multiset{Held(n)} + multiset{PendingUpdate(w)} && w.name == n.name && w.status != Active
  {
    w := GatherPlan(n, peers).node;
    s' := s.(ops := s.ops - multiset{Held(n)} + multiset{PendingUpdate(w)});
    ReachesStep(c, s, GatherPeers(n, peers), s');
  }

  /** A reconcile whose snapshot was not ready can always list its peers and write. */
  lemma Gathers(c: Config, s: State, n: Node) returns (s': State, w: Node)
    requires Reachable(c, s) && Held(n) in s.ops && NodePlan(n).Gather? && n.name in s.store
    ensures Reaches(c, s, s') && SameStatuses(s, s') && s'.flags == s.flags
    ensures s'.ops == s.ops - multiset{Held(n)} + multiset{PendingUpdate(w)} && w.name == n.name && w.status != Active
  {
    var m := AllReport(c, s, s.store.Keys);
    var peers := FullListing(c, m);
    HeldIdentity(c, m, n);
    s', w := GatherStep(c, m, n, peers);
    ReachesTrans(c, s, m, s');
  }

  /** A pending write of a record of a stored node that is not ACTIVE. */
  predicate IsWrite(op: Op, n: Node) {
    op == PendingCreate(n) || op == PendingUpdate(n) || op == PendingReport(n)
  }

  lemma StrikeWrite(c: Config, s: State, op: Op, n: Node) returns (s': State)
    requires op in s.ops && IsWrite(op, n) && n.name in s.store && n.status != Active
    ensures Reaches(c, s, s') && SameBut(s, s', n.name) && s'.store[n.name].status != Active
    ensures s'.ops == s.ops - multiset{op}
  {
    var step := if op.PendingCreate? then CommitCreate(n) else if op.PendingUpdate? then CommitUpdate(n) else CommitReport(n);
    s' := After(c, s, step);
    ReachesStep(c, s, step, s');
  }

  lemma PlanStep(c: Config, s: State, n: Node) returns (s': State)
    requires Held(n) in s.ops && NodePlan(n).Write?
    ensures Reaches(c, s, s') && s'.store == s.store
    ensures s'.ops == s.ops - multiset{Held(n)} + multiset{PendingUpdate(NodePlan(n).node)}
  {
    s' := After(c, s, PlanNode(n));
    ReachesStep(c, s, PlanNode(n), s');
  }

  lemma StrikeHeld(c: Config, s: State, n: Node) returns (s': State)
    requires Reachable(c, s) && Held(n) in s.ops && n.name in s.store && Threatens(Held(n), n.name)
    ensures Reaches(c, s, s') && SameBut(s, s', n.name) && s'.store[n.name].status != Active
    ensures s'.ops == s.ops - multiset{Held(n)}
  {
    var m, w;
    if NodePlan(n).Gather? {
      m, w := Gathers(c, s, n);
    } else {
      w := NodePlan(n).node;
      m := PlanStep(c, s, n);
    }
    s' := StrikeWrite(c, m, PendingUpdate(w), w);
    InAndOut(s.ops - multiset{Held(n)}, PendingUpdate(w));
    ReachesTrans(c, s, m, s');
  }

  /** A threat can come true at any moment, and nothing else needs to change. */
  lemma Strike(c: Config, s: State, name: string, op: Op) returns (s': State)
    requires Reachable(c, s) && name in s.store && op in s.ops && Threatens(op, name)
    ensures Reaches(c, s, s') && Reachable(c, s') && SameBut(s, s', name) && s'.store[name].status != Active
    ensures s'.ops == s.ops - multiset{op}
  {
    if op.Held? {
      s' := StrikeHeld(c, s, op.node);
    } else {
      s' := StrikeWrite(c, s, op, op.node);
    }
    ReachesReachable(c, s, s');
  }

  // ---- When ACTIVE can be lost ----

  /**
   * An ACTIVE node can lose that status exactly if an operation that is now in flight threatens it. Otherwise it is
   * ACTIVE in every state that can ever follow.
   */
  lemma RegressesIffThreatened(c: Config, s: State, name: string)
    requires Reachable(c, s) && IsActive(s, name)
    ensures (exists s' :: Reaches(c, s, s') && !IsActive(s', name)) <==> (exists op :: op in s.ops && Threatens(op, name))
  {
    ReachableInv(c, s);
    if op :| op in s.ops && Threatens(op, name) {
      var s' := Strike(c, s, name, op);
      assert Reaches(c, s, s') && !IsActive(s', name);
    } else {
      forall s' | Reaches(c, s, s') ensures IsActive(s', name) {
        SettledForever(c, s, s', name);
      }
    }
  }

  lemma SliceIsPath(c: Config, run: seq<State>, i: nat, j: nat)
    requires PT.Path(c, run) && i <= j < |run|
    ensures PT.Path(c, run[i..j + 1])
  {
    var between := run[i..j + 1];
    forall k, l | 0 <= k < l < |between| && l == k + 1 ensures Next(c, between[k], between[l]) {
      assert between[k] == run[i + k] && between[l] == run[i + l];
    }
  }

  lemma PathReaches(c: Config, path: seq<State>, s: State, s': State)
    requires PT.Path(c, path) && path[0] == s && path[|path| - 1] == s'
    ensures Reaches(c, s, s')
  {
  }

  lemma StartReachable(c: Config, s: State)
    requires Init(c, s)
    ensures Reachable(c, s)
  {
    var run := [s];
    assert IsRun(c, run) && run[|run| - 1] == s;
  }

  /** Any two positions of a run are such states. */
  lemma RunReaches(c: Config, run: seq<State>, i: nat, j: nat)
    requires IsRun(c, run) && i <= j < |run|
    ensures Reachable(c, run[i]) && Reaches(c, run[i], run[j])
  {
    SliceIsPath(c, run, 0, i);
    PathReaches(c, run[0..i + 1], run[0], run[i]);
    StartReachable(c, run[0]);
    ReachesReachable(c, run[0], run[i]);
    SliceIsPath(c, run, i, j);
    PathReaches(c, run[i..j + 1], run[i], run[j]);
  }

  /** In a run: a node that is ACTIVE and later is not was threatened by an operation that was in flight all that time ago. */
  lemma LostOnlyToThreat(c: Config, run: seq<State>, i: nat, j: nat, name: string)
    requires IsRun(c, run) && i <= j < |run| && IsActive(run[i], name) && !IsActive(run[j], name)
    ensures exists op :: op in run[i].ops && Threatens(op, name)
  {
    RunReaches(c, run, i, j);
    RegressesIffThreatened(c, run[i], name);
  }

  // ---- One node joins at a time, unless one is put back ----

  /** No step from `from` to `to` takes ACTIVE away. */
  ghost predicate KeepsActive(s: State, s': State) {
    forall name | IsActive(s, name) :: IsActive(s', name)
  }

  ghost predicate NeverRegresses(run: seq<State>) {
    forall i, j | 0 <= i < j < |run| && j == i + 1 :: KeepsActive(run[i], run[j])
  }

  /** A pending creation of `node-(j+1)` finds `node-1` to `node-j`, all ACTIVE. */
  ghost predicate AwaitedAt(c: Config, s: State, n: Node, j: nat) {
    1 <= j <= |s.store| && n == NewSecondary(c.cluster, j + 1) && forall x | x in Numbered(j) :: IsActive(s, x)
  }

  ghost predicate Awaited(c: Config, s: State, n: Node) {
    exists j :: AwaitedAt(c, s, n, j)
  }

  /** At most the newest node is not ACTIVE, and no pending creation can change that. */
  ghost predicate OneWaits(c: Config, s: State) {
    && Waiting(s.store) <= {NodeName(|s.store|)}
    && forall n: Node | PendingCreate(n) in s.ops :: Awaited(c, s, n)
  }

  lemma AwaitedStays(c: Config, s: State, s': State, n: Node)
    requires Awaited(c, s, n) && KeepsActive(s, s') && |s.store| <= |s'.store|
    ensures Awaited(c, s', n)
  {
    var j :| AwaitedAt(c, s, n, j);
    assert AwaitedAt(c, s', n, j);
  }

  /** A step that keeps the nodes and plans no creation. */
  lemma OneWaitsBetween(c: Config, s: State, s': State)
    requires OneWaits(c, s) && KeepsActive(s, s') && s'.store.Keys == s.store.Keys
    requires forall n: Node | PendingCreate(n) in s'.ops :: PendingCreate(n) in s.ops
    ensures OneWaits(c, s')
  {
    assert |s'.store| == |s'.store.Keys| == |s.store|;
    forall name | name in Waiting(s'.store) ensures name in Waiting(s.store) {
      assert !IsActive(s', name);
    }
    forall n: Node | PendingCreate(n) in s'.ops ensures Awaited(c, s', n) {
      AwaitedStays(c, s, s', n);
    }
  }

  /** What a scan plans awaits nothing. */
  lemma AwaitedByScan(c: Config, s: State, s': State, n: Node)
    requires c.seeded && s.store.Keys == Numbered(|s.store|) && |s.store| >= 1 && s'.store == s.store
    requires ClusterPlan(c.cluster, s.store) == Some(n)
    ensures Awaited(c, s', n)
  {
    assert AwaitedAt(c, s', n, |s.store|);
  }

  lemma OneWaitsScan(c: Config, s: State, s': State)
    requires Inv(c, s) && c.seeded && OneWaits(c, s) && s' == After(c, s, ScanCluster)
    ensures OneWaits(c, s')
  {
    PI.MembersAreAll(c, s);
    forall n: Node | PendingCreate(n) in s'.ops ensures Awaited(c, s', n) {
      if PendingCreate(n) in s.ops {
        AwaitedStays(c, s, s', n);
      } else {
        AwaitedByScan(c, s, s', n);
      }
    }
  }

  lemma GrownByOne(c: Config, store: Nodes, n: Node, j: nat)
    requires store.Keys == Numbered(|store|) && n == NewSecondary(c.cluster, j + 1) && 1 <= j <= |store| && n.name !in store
    ensures j == |store| && |store[n.name := n]| == j + 1
  {
    NumberedMembers(|store|, j + 1);
    assert n.name !in store.Keys;
    PI.PutNumbered(store, j + 1, n);
  }

  /** The creation of a node that is not there yet finds all others ACTIVE. */
  lemma OneWaitsGrown(c: Config, s: State, s': State, n: Node)
    requires s.store.Keys == Numbered(|s.store|) && OneWaits(c, s) && PendingCreate(n) in s.ops
    requires n.name !in s.store && s'.store == s.store[n.name := n] && KeepsActive(s, s')
    requires forall m: Node | PendingCreate(m) in s'.ops :: PendingCreate(m) in s.ops
    ensures OneWaits(c, s')
  {
    assert Awaited(c, s, n);
    var j :| AwaitedAt(c, s, n, j);
    GrownByOne(c, s.store, n, j);
    forall name | name in Waiting(s'.store) ensures name == NodeName(|s'.store|) {
      assert name in s.store ==> IsActive(s, name);
    }
    forall m: Node | PendingCreate(m) in s'.ops ensures Awaited(c, s', m) {
      AwaitedStays(c, s, s', m);
    }
  }

  lemma StoredKeysStay(c: Config, s: State, step: Step)
    requires Enabled(c, s, step) && (step.CommitCreate? ==> step.created.name in s.store)
    ensures After(c, s, step).store.Keys == s.store.Keys
  {
  }

  lemma AgentsPlanNothing(c: Config, s: State, step: Step, n: Node)
    requires Enabled(c, s, step) && PI.IsAgentStep(step) && PendingCreate(n) in After(c, s, step).ops
    ensures PendingCreate(n) in s.ops
  {
  }

  lemma OnlyScansPlan(c: Config, s: State, step: Step, n: Node)
    requires Enabled(c, s, step) && !step.ScanCluster? && PendingCreate(n) in After(c, s, step).ops
    ensures PendingCreate(n) in s.ops
  {
    if PI.IsAgentStep(step) {
      AgentsPlanNothing(c, s, step, n);
    }
  }

  lemma OneWaitsStep(c: Config, s: State, s': State)
    requires Inv(c, s) && c.seeded && OneWaits(c, s) && Next(c, s, s') && KeepsActive(s, s')
    ensures OneWaits(c, s')
  {
    var step :| Enabled(c, s, step) && s' == After(c, s, step);
    if step.ScanCluster? {
      OneWaitsScan(c, s, s');
    } else {
      forall n: Node | PendingCreate(n) in s'.ops ensures PendingCreate(n) in s.ops {
        OnlyScansPlan(c, s, step, n);
      }
      if step.CommitCreate? && step.created.name !in s.store {
        OneWaitsGrown(c, s, s', step.created);
      } else {
        StoredKeysStay(c, s, step);
        OneWaitsBetween(c, s, s');
      }
    }
  }

  lemma SeedWaits(c: Config, s: State)
    requires Init(c, s) && c.seeded
    ensures OneWaits(c, s)
  {
    assert |s.store| == 1;
  }

  /** The same induction as for paths, for steps of which more is known. */
  lemma {:induction false} ChainKeeps(run: seq<State>, i: nat, R: (State, State) -> bool, P: State -> bool)
    requires i < |run| && P(run[0])
    requires forall s, s' :: P(s) && R(s, s') ==> P(s')
    requires forall k, l | 0 <= k < l < |run| && l == k + 1 :: R(run[k], run[l])
    ensures P(run[i])
  {
    if i > 0 {
      ChainKeeps(run, i - 1, R, P);
      assert R(run[i - 1], run[i]);
    }
  }

  lemma OneWaitsAt(c: Config, run: seq<State>, i: nat)
    requires IsRun(c, run) && c.seeded && NeverRegresses(run) && i < |run|
    ensures OneWaits(c, run[i])
  {
    var P := (s: State) => Inv(c, s) && OneWaits(c, s);
    var R := (s: State, s': State) => Next(c, s, s') && KeepsActive(s, s');
    forall s, s' | P(s) && R(s, s') ensures P(s') {
      StepKeeps(c, s, s');
      OneWaitsStep(c, s, s');
    }
    PI.InitialInv(c, run[0]);
    SeedWaits(c, run[0]);
    ChainKeeps(run, i, R, P);
  }

  /** As long as no step puts an ACTIVE node back, at most one node is joining, and it is the one created last. */
  lemma OneJoinsUnlessRegressed(c: Config, run: seq<State>, i: nat, a: string, b: string)
    requires IsRun(c, run) && c.seeded && NeverRegresses(run) && i < |run|
    requires a in run[i].store && !IsActive(run[i], a) && b in run[i].store && !IsActive(run[i], b)
    ensures a == b == NodeName(|run[i].store|)
  {
    OneWaitsAt(c, run, i);
    assert a in Waiting(run[i].store) && b in Waiting(run[i].store);
  }

  // ---- Exactly when two nodes can join at once ----

  predicate Joining(s: State, name: string) {
    name in s.store && s.store[name].status != Active
  }

  ghost predicate TwoJoin(s: State) {
    exists a, b :: Joining(s, a) && Joining(s, b) && a != b
  }

  ghost function SettledNames(s: State): set<string> {
    set name | name in s.store && Settled(s, name)
  }

  lemma TwoFewer(all: set<string>, part: set<string>, a: string, b: string)
    requires part <= all - {a, b} && a in all && b in all && a != b
    ensures |part| + 2 <= |all|
  {
    assert all == part + (all - {a, b} - part) + {a, b};
  }

  lemma WithinCapacity(c: Config, s: State)
    requires Reachable(c, s) && c.seeded
    ensures |s.store.Keys| == |s.store| <= Capacity(c)
  {
    ReachableInv(c, s);
  }

  lemma SettledAreActive(c: Config, s: State, s': State)
    requires Reachable(c, s) && Reaches(c, s, s')
    ensures forall name | name in SettledNames(s) :: IsActive(s', name)
  {
    ReachableInv(c, s);
    forall name | name in SettledNames(s) ensures IsActive(s', name) {
      SettledForever(c, s, s', name);
    }
  }

  lemma JoinersAreNotSettled(s: State, s': State)
    requires TwoJoin(s') && forall name | name in SettledNames(s) :: IsActive(s', name)
    ensures |SettledNames(s)| + 2 <= |s'.store.Keys|
  {
    var a, b :| Joining(s', a) && Joining(s', b) && a != b;
    TwoFewer(s'.store.Keys, SettledNames(s), a, b);
  }

  /** Two nodes that join together take two places which no settled node occupies. */
  lemma TwoNeedRoom(c: Config, s: State, s': State)
    requires Reachable(c, s) && c.seeded && Reaches(c, s, s') && TwoJoin(s')
    ensures |SettledNames(s)| + 2 <= Capacity(c)
  {
    SettledAreActive(c, s, s');
    JoinersAreNotSettled(s, s');
    ReachesReachable(c, s, s');
    WithinCapacity(c, s');
  }

  lemma Launches(c: Config, s: State, name: string) returns (s': State)
    requires name in s.store && (Bootstraps(s.store[name].target) || Joins(s.store[name].target))
    ensures Reaches(c, s, s')
    ensures var t := s.store[name].target; s' == With(s, Launching(name, Bootstraps(t), t.addresses))
  {
    var t := s.store[name].target;
    var fetched := With(s, Delivered(name, t));
    s' := With(s, Launching(name, Bootstraps(t), t.addresses));
    ReachesStep(c, s, FetchTarget(name), fetched);
    InAndOut(s.ops, Delivered(name, t));
    ReachesStep(c, fetched, HandleTarget(name, t), s');
    ReachesTrans(c, s, fetched, s');
  }

  lemma StartsAndTouches(c: Config, s: State, name: string, newCluster: bool, addresses: seq<string>) returns (s': State)
    ensures Reaches(c, With(s, Launching(name, newCluster, addresses)), s')
    ensures s'.store == s.store && s'.ops == s.ops && s'.flags == s.flags + {name}
  {
    var launching := With(s, Launching(name, newCluster, addresses));
    var noted := Note(s, if newCluster then Bootstrapped(name) else Joined(name, addresses));
    s' := Note(noted, Flagged(name)).(flags := s.flags + {name});
    InAndOut(s.ops, Launching(name, newCluster, addresses));
    ReachesStep(c, launching, Start(name, newCluster, addresses), With(noted, Touching(name)));
    InAndOut(s.ops, Touching(name));
    ReachesStep(c, With(noted, Touching(name)), Touch(name), s');
    ReachesTrans(c, launching, With(noted, Touching(name)), s');
  }

  /** An agent that is told to start its database can start it and touch its flag. */
  lemma AgentStarts(c: Config, s: State, name: string) returns (s': State)
    requires name in s.store && (Bootstraps(s.store[name].target) || Joins(s.store[name].target))
    ensures Reaches(c, s, s') && s'.store == s.store && s'.ops == s.ops && s'.flags == s.flags + {name}
  {
    var t := s.store[name].target;
    var launching := Launches(c, s, name);
    s' := StartsAndTouches(c, s, name, Bootstraps(t), t.addresses);
    ReachesTrans(c, s, launching, s');
  }

  lemma JoiningFacts(c: Config, s: State, name: string)
    requires Reachable(c, s) && c.seeded && Joining(s, name)
    ensures s.store[name].name == name && s.store[name].status == Creating && s.store[name].clusterName == c.cluster.name
    ensures s.store[name].target.role == RoleOf(c, name)
    ensures name == PrimaryName(c) ==> s.store[name].target == BOOTSTRAP_TARGET
  {
    ReachableInv(c, s);
    assert RecordOk(c, Known(s), s.store[name]);
  }

  /** The effect of a reconcile on the store, once it is known what it writes. */
  lemma Reconciles(c: Config, s: State, name: string, peers: seq<Node>, w: Node) returns (s': State)
    requires Reachable(c, s) && name in s.store && IsListing(peers, Members(s.store, s.store[name].clusterName))
    requires NodeWrite(s.store[name], peers) == Some(w) && w.name == name
    ensures Reaches(c, s, s') && Reachable(c, s') && s'.store == s.store[name := w] && s'.ops == s.ops && s'.flags == s.flags
  {
    s' := Act(c, s, ReconcileNode(name, peers));
  }

  lemma SecondaryTold(c: Config, s: State, name: string, peers: seq<Node>) returns (s': State)
    requires Reachable(c, s) && c.seeded && Joining(s, name) && name != PrimaryName(c) && s.store[name].report == Hello(name)
    requires IsListing(peers, Members(s.store, c.cluster.name)) && "" !in Addresses(peers)
    ensures Reaches(c, s, s') && Reachable(c, s') && SameStatuses(s, s') && s'.ops == s.ops && s'.flags == s.flags
    ensures name in s'.store && Joins(s'.store[name].target)
  {
    JoiningFacts(c, s, name);
    var w := JoiningRecord(s.store[name], peers);
    s' := Reconciles(c, s, name, peers, w);
  }

  /** A joining node can be told to start its database. */
  lemma Told(c: Config, s: State, name: string) returns (s': State)
    requires Reachable(c, s) && c.seeded && Joining(s, name)
    ensures Reaches(c, s, s') && Reachable(c, s') && SameStatuses(s, s') && s'.ops == s.ops
    ensures name in s'.store && (Bootstraps(s'.store[name].target) || Joins(s'.store[name].target))
  {
    if name == PrimaryName(c) {
      s' := s;
      JoiningFacts(c, s, name);
      ReachesItself(c, s);
    } else {
      var m := AllReport(c, s, s.store.Keys);
      var peers := FullListing(c, m);
      s' := SecondaryTold(c, m, name, peers);
      ReachesTrans(c, s, m, s');
    }
  }

  /** A joining node can get to the point where its agent reports ready. */
  lemma Prepares(c: Config, s: State, name: string) returns (s': State)
    requires Reachable(c, s) && c.seeded && Joining(s, name)
    ensures Reaches(c, s, s') && Reachable(c, s') && SameStatuses(s, s') && s'.ops == s.ops && name in s'.flags
  {
    var m := Told(c, s, name);
    s' := AgentStarts(c, m, name);
    ReachesTrans(c, s, m, s');
    ReachesReachable(c, s, s');
  }

  function ReadyReport(name: string): Report {
    Report(name, true, "10.0.0.1", true, Running, WsrepPrimary)
  }

  lemma HearsReady(c: Config, s: State, name: string) returns (s': State)
    requires Reachable(c, s) && Joining(s, name) && name in s.flags
    ensures Reaches(c, s, s') && Reachable(c, s') && SameStatuses(s, s') && s'.ops == s.ops && s'.flags == s.flags
    ensures s'.store[name].report == ReadyReport(name)
  {
    s' := Act(c, s, Heartbeat(ReadyReport(name)));
  }

  /** A heartbeat handler reads the node before it is activated, and is not yet done. */
  lemma Lingers(c: Config, s: State, name: string) returns (s': State, op: Op)
    requires Reachable(c, s) && c.seeded && Joining(s, name) && name in s.flags
    ensures Reaches(c, s, s') && Reachable(c, s') && s'.store == s.store && op in s'.ops && Threatens(op, name)
    ensures op.PendingReport?
  {
    JoiningFacts(c, s, name);
    var path := PT.ReadPath(c, [s], s, ReadyReport(name));
    s' := path[2];
    op := PendingReport(WithReport(s.store[name], ReadyReport(name)));
    assert path[0] == s && path[|path| - 1] == s';
    ReachesReachable(c, s, s');
  }

  lemma Activates(c: Config, s: State, name: string) returns (s': State)
    requires Reachable(c, s) && c.seeded && Joining(s, name) && s.store[name].report == ReadyReport(name)
    ensures Reaches(c, s, s') && Reachable(c, s') && SameBut(s, s', name) && s'.ops == s.ops && IsActive(s', name)
    ensures s'.flags == s.flags && s'.store[name].report == s.store[name].report
  {
    JoiningFacts(c, s, name);
    ReachableNames(c, s);
    var peers := SomeListing(s.store);
    ReadyWrite(s.store[name], peers);
    s' := Reconciles(c, s, name, peers, s.store[name].(status := Active));
  }

  /** A joining node can become ACTIVE while a stale heartbeat still threatens it. */
  lemma ActivatesThreatened(c: Config, s: State, name: string) returns (s': State, op: Op)
    requires Reachable(c, s) && c.seeded && Joining(s, name)
    ensures Reaches(c, s, s') && Reachable(c, s') && SameBut(s, s', name) && IsActive(s', name)
    ensures op.PendingReport? && op in s'.ops && Threatens(op, name)
  {
    var flagged := Prepares(c, s, name);
    var heard := HearsReady(c, flagged, name);
    var stale;
    stale, op := Lingers(c, heard, name);
    s' := Activates(c, stale, name);
    ReachesTrans(c, s, flagged, heard);
    ReachesTrans(c, s, heard, stale);
    ReachesTrans(c, s, stale, s');
  }

  ghost predicate AllButActive(s: State, name: string) {
    forall x | x in s.store && x != name :: IsActive(s, x)
  }

  lemma NextIsSecondary(c: Config, store: Nodes, primary: string)
    requires store != map[] && Primaries(store) == {primary} && AllActive(store) && 1 <= |store| < Capacity(c)
    ensures ClusterPlan(c.cluster, store) == Some(NewSecondary(c.cluster, |store| + 1))
  {
  }

  lemma SeededFacts(c: Config, s: State)
    requires Reachable(c, s) && c.seeded
    ensures s.store != map[] && |s.store| >= 1 && Primaries(s.store) == {PrimaryName(c)}
  {
    ReachableInv(c, s);
    PT.OnePrimary(c, s);
  }

  lemma NumberedIsNew(c: Config, s: State)
    requires Reachable(c, s) && c.seeded
    ensures NodeName(|s.store| + 1) !in s.store
  {
    ReachableInv(c, s);
    NumberedMembers(|s.store|, |s.store| + 1);
    assert s.store.Keys == Numbered(|s.store|);
  }

  /** When all nodes are ACTIVE and there is room for more, a scan plans the next one. */
  lemma Plans(c: Config, s: State) returns (s': State, n: Node)
    requires Reachable(c, s) && c.seeded && AllActive(s.store) && |s.store| < Capacity(c)
    ensures Reaches(c, s, s') && Reachable(c, s') && s'.store == s.store && s'.ops == s.ops + multiset{PendingCreate(n)}
    ensures n.name !in s.store && n == NewSecondary(c.cluster, |s.store| + 1)
  {
    ReachableNames(c, s);
    SeededFacts(c, s);
    NextIsSecondary(c, s.store, PrimaryName(c));
    NumberedIsNew(c, s);
    n := NewSecondary(c.cluster, |s.store| + 1);
    var path := PT.ScanPath(c, [s], s, n);
    s' := path[1];
    assert path[0] == s && path[|path| - 1] == s';
    ReachesReachable(c, s, s');
  }

  lemma Creates(c: Config, s: State, n: Node) returns (s': State)
    requires Reachable(c, s) && PendingCreate(n) in s.ops && n.name !in s.store && n.status != Active
    ensures Reaches(c, s, s') && Reachable(c, s') && s'.store == s.store[n.name := n] && Joining(s', n.name)
    ensures s'.ops == s.ops - multiset{PendingCreate(n)}
  {
    s' := After(c, s, CommitCreate(n));
    ReachesStep(c, s, CommitCreate(n), s');
    ReachesReachable(c, s, s');
  }

  lemma StillPlanned(ops: multiset<Op>, op: Op, n: Node)
    requires op in ops && op != PendingCreate(n)
    ensures PendingCreate(n) in ops + multiset{PendingCreate(n)} - multiset{op}
  {
  }

  /** A node that joins and another one that is created make two. */
  lemma CreatesSecond(c: Config, s: State, name: string, n: Node) returns (s': State)
    requires Reachable(c, s) && Joining(s, name) && PendingCreate(n) in s.ops && n.name !in s.store && n.status != Active
    ensures Reaches(c, s, s') && TwoJoin(s')
  {
    s' := Creates(c, s, n);
    assert Joining(s', name) && Joining(s', n.name) && name != n.name;
  }

  /** Everything is ACTIVE, one node is threatened, and there is room: the next node is planned, then the threat strikes. */
  lemma ThreatenedAndRoom(c: Config, s: State, name: string, op: Op) returns (s': State)
    requires Reachable(c, s) && c.seeded && AllActive(s.store) && |s.store| < Capacity(c)
    requires name in s.store && op in s.ops && Threatens(op, name)
    ensures Reaches(c, s, s') && TwoJoin(s')
  {
    var planned, n := Plans(c, s);
    var struck := Strike(c, planned, name, op);
    assert n.name != name;
    StillPlanned(s.ops, op, n);
    s' := CreatesSecond(c, struck, name, n);
    ReachesTrans(c, s, planned, struck);
    ReachesTrans(c, s, struck, s');
  }

  lemma JoiningAndRoom(c: Config, s: State, name: string) returns (s': State)
    requires Reachable(c, s) && c.seeded && Joining(s, name) && AllButActive(s, name) && |s.store| < Capacity(c)
    ensures Reaches(c, s, s') && TwoJoin(s')
  {
    var active, op := ActivatesThreatened(c, s, name);
    assert |active.store| == |active.store.Keys| == |s.store|;
    s' := ThreatenedAndRoom(c, active, name, op);
    ReachesTrans(c, s, active, s');
  }

  lemma RoomForTwo(c: Config, s: State) returns (s': State)
    requires Reachable(c, s) && c.seeded && AllActive(s.store) && |s.store| + 2 <= Capacity(c)
    ensures Reaches(c, s, s') && TwoJoin(s')
  {
    var planned, n := Plans(c, s);
    var created := Creates(c, planned, n);
    assert |created.store| == |s.store| + 1;
    s' := JoiningAndRoom(c, created, n.name);
    ReachesTrans(c, s, planned, created);
    ReachesTrans(c, s, created, s');
  }

  /** A node that is not settled can be joining, while threats to others remain. */
  lemma Loosens(c: Config, s: State, name: string) returns (s': State)
    requires Reachable(c, s) && name in s.store && !Settled(s, name)
    ensures Reaches(c, s, s') && Reachable(c, s') && SameBut(s, s', name) && Joining(s', name)
    ensures forall op, x | op in s.ops && Threatens(op, x) && x != name :: op in s'.ops
  {
    if Joining(s, name) {
      s' := s;
      ReachesItself(c, s);
    } else {
      var op :| op in s.ops && Threatens(op, name);
      s' := Strike(c, s, name, op);
    }
  }

  lemma TwoLoose(c: Config, s: State, a: string, b: string) returns (s': State)
    requires Reachable(c, s) && a in s.store && b in s.store && a != b && !Settled(s, a) && !Settled(s, b)
    ensures Reaches(c, s, s') && TwoJoin(s')
  {
    var m := Loosens(c, s, a);
    if IsActive(m, b) {
      var op :| op in s.ops && Threatens(op, b);
      assert op in m.ops;
    }
    s' := Loosens(c, m, b);
    ReachesTrans(c, s, m, s');
    assert Joining(s', a) && Joining(s', b);
  }

  /** The only node that is not settled, and a place that is not taken. */
  lemma OneLoose(c: Config, s: State, a: string) returns (s': State)
    requires Reachable(c, s) && c.seeded && a in s.store && !Settled(s, a) && |s.store| < Capacity(c)
    requires forall x | x in s.store && x != a :: Settled(s, x)
    ensures Reaches(c, s, s') && TwoJoin(s')
  {
    if Joining(s, a) {
      s' := JoiningAndRoom(c, s, a);
    } else {
      var op :| op in s.ops && Threatens(op, a);
      s' := ThreatenedAndRoom(c, s, a, op);
    }
  }

  lemma PickLoose(s: State) returns (loose: set<string>, a: string, b: string)
    ensures |s.store| == |SettledNames(s)| + |loose|
    ensures forall x :: x in loose <==> x in s.store && !Settled(s, x)
    ensures loose != {} ==> a in loose && (b != a ==> b in loose) && (b == a ==> loose == {a})
  {
    loose, a, b := s.store.Keys - SettledNames(s), "", "";
    assert s.store.Keys == SettledNames(s) + loose;
    if loose != {} {
      a :| a in loose;
      b := a;
      if loose - {a} != {} {
        b :| b in loose - {a};
      }
    }
  }

  lemma RoomLetsTwoJoin(c: Config, s: State) returns (s': State)
    requires Reachable(c, s) && c.seeded && |SettledNames(s)| + 2 <= Capacity(c)
    ensures Reaches(c, s, s') && TwoJoin(s')
  {
    var loose, a, b := PickLoose(s);
    if loose == {} {
      assert forall x | x in s.store :: x !in loose;
      s' := RoomForTwo(c, s);
    } else if a != b {
      s' := TwoLoose(c, s, a, b);
    } else {
      assert forall x | x in s.store && x != a :: x !in loose;
      s' := OneLoose(c, s, a);
    }
  }

  /**
   * Two nodes can be joining at once, now or later, exactly if the settled nodes leave at least two of the cluster's
   * places.
   */
  lemma TwoJoinIffRoom(c: Config, s: State)
    requires Reachable(c, s) && c.seeded
    ensures (exists s' :: Reaches(c, s, s') && TwoJoin(s')) <==> |SettledNames(s)| + 2 <= Capacity(c)
  {
    if |SettledNames(s)| + 2 <= Capacity(c) {
      var s' := RoomLetsTwoJoin(c, s);
    } else if s' :| Reaches(c, s, s') && TwoJoin(s') {
      TwoNeedRoom(c, s, s');
    }
  }

  // ---- The threats that occur ----

  /** With nothing going wrong, a joining node is flagged, reports ready and becomes ACTIVE; what else is in flight stays so. */
  lemma GetsActive(c: Config, s: State, name: string) returns (s': State)
    requires Reachable(c, s) && c.seeded && Joining(s, name)
    ensures Reaches(c, s, s') && Reachable(c, s') && SameBut(s, s', name) && s'.ops == s.ops && IsActive(s', name)
    ensures name in s'.flags && s'.store[name].report == ReadyReport(name)
  {
    var flagged := Prepares(c, s, name);
    var heard := HearsReady(c, flagged, name);
    s' := Activates(c, heard, name);
    ReachesTrans(c, s, flagged, heard);
    ReachesTrans(c, s, heard, s');
  }

  lemma SeedState(c: Config) returns (s: State)
    requires c.seeded
    ensures Reachable(c, s) && Init(c, s) && Joining(s, NodeName(1)) && s.store.Keys == {NodeName(1)} && |s.store| == 1
  {
    s := State(map[NodeName(1) := Seed(c)], multiset{}, {}, []);
    StartReachable(c, s);
  }

  /** A reconcile that took its snapshot before the node was ready can be pending when the node is ACTIVE. */
  lemma StaleReconcileOccurs(c: Config) returns (s: State, n: Node)
    requires c.seeded
    ensures Reachable(c, s) && Held(n) in s.ops && IsActive(s, n.name) && Threatens(Held(n), n.name)
    ensures n.name == PrimaryName(c) && n.target.role == Primary && n.report.stamped && !Ready(n.report)
  {
    var name := NodeName(1);
    var seed := SeedState(c);
    var heard := Greets(c, seed, name);
    n := heard.store[name];
    assert n == WithReport(Seed(c), Hello(name));
    var taken := With(heard, Held(n));
    ReachesStep(c, heard, TakeSnapshot(name), taken);
    ReachesReachable(c, heard, taken);
    s := GetsActive(c, taken, name);
  }

  /** Two overlapping scans plan the same node; the second creation can be pending when that node is ACTIVE. */
  lemma LateCreationOccurs(c: Config) returns (s: State, n: Node)
    requires c.seeded && c.cluster.status == Creating && c.cluster.replicas >= 2
    ensures Reachable(c, s) && PendingCreate(n) in s.ops && IsActive(s, n.name) && Threatens(PendingCreate(n), n.name)
    ensures n.target.role == Secondary
  {
    var seed := SeedState(c);
    var one := GetsActive(c, seed, NodeName(1));
    assert |one.store| == |one.store.Keys| == 1;
    var m;
    var first, second;
    first, n := Plans(c, one);
    second, m := Plans(c, first);
    assert m == n;
    var created := Creates(c, second, n);
    assert PendingCreate(n) in created.ops;
    s := GetsActive(c, created, n.name);
  }

  // ---- Nothing wedges the cluster ----

  /** The operation will write, or may write, a record that is not ACTIVE, whatever node it is of. */
  predicate Harmful(op: Op) {
    (op.PendingCreate? || op.Held? || op.PendingUpdate? || op.PendingReport?) && Threatens(op, op.node.name)
  }

  lemma HarmfulIsOfStored(c: Config, s: State, op: Op)
    requires Reachable(c, s) && op in s.ops && Harmful(op) && !op.PendingCreate?
    ensures op.node.name in s.store
  {
    ReachableInv(c, s);
    assert OpOk(c, Known(s), op);
  }

  /** Every harmful operation can be brought to its end. */
  lemma {:induction false} FinishesHarm(c: Config, s: State) returns (s': State)
    requires Reachable(c, s)
    ensures Reaches(c, s, s') && Reachable(c, s') && s'.ops <= s.ops && forall op | op in s'.ops :: !Harmful(op)
    decreases |s.ops|
  {
    if op :| op in s.ops && Harmful(op) {
      var m;
      if op.node.name in s.store {
        m := Strike(c, s, op.node.name, op);
      } else {
        if !op.PendingCreate? {
          HarmfulIsOfStored(c, s, op);
        }
        m := Creates(c, s, op.node);
      }
      s' := FinishesHarm(c, m);
      ReachesTrans(c, s, m, s');
    } else {
      s' := s;
      ReachesItself(c, s);
    }
  }

  lemma WaitsLess(s: State, s': State, name: string)
    requires Joining(s, name) && SameBut(s, s', name) && IsActive(s', name)
    ensures Waiting(s'.store) == Waiting(s.store) - {name} && name in Waiting(s.store)
  {
  }

  lemma {:induction false} AllGetActive(c: Config, s: State) returns (s': State)
    requires Reachable(c, s) && c.seeded
    ensures Reaches(c, s, s') && Reachable(c, s') && s'.ops == s.ops && AllActive(s'.store)
    decreases |Waiting(s.store)|
  {
    if name :| name in s.store && Joining(s, name) {
      var m := GetsActive(c, s, name);
      WaitsLess(s, m, name);
      s' := AllGetActive(c, m);
      ReachesTrans(c, s, m, s');
    } else {
      s' := s;
      ReachesItself(c, s);
    }
  }

  lemma OneMore(c: Config, s: State) returns (s': State)
    requires Reachable(c, s) && c.seeded && AllActive(s.store) && |s.store| < Capacity(c)
    ensures Reaches(c, s, s') && Reachable(c, s') && s'.ops == s.ops && AllActive(s'.store) && |s'.store| == |s.store| + 1
  {
    var planned, n := Plans(c, s);
    var created := Creates(c, planned, n);
    InAndOut(s.ops, PendingCreate(n));
    s' := GetsActive(c, created, n.name);
    assert |s'.store| == |s'.store.Keys| == |created.store.Keys| == |created.store|;
    ReachesTrans(c, s, planned, created);
    ReachesTrans(c, s, created, s');
  }

  lemma {:induction false} Fills(c: Config, s: State) returns (s': State)
    requires Reachable(c, s) && c.seeded && AllActive(s.store)
    ensures Reaches(c, s, s') && Reachable(c, s') && s'.ops == s.ops && AllActive(s'.store) && |s'.store| == Capacity(c)
    decreases Capacity(c) - |s.store|
  {
    WithinCapacity(c, s);
    if |s.store| < Capacity(c) {
      var m := OneMore(c, s);
      s' := Fills(c, m);
      ReachesTrans(c, s, m, s');
    } else {
      s' := s;
      ReachesItself(c, s);
    }
  }

  /** All nodes that the cluster can have are there and ACTIVE. */
  ghost predicate Complete(c: Config, s: State) {
    s.store.Keys == Numbered(Capacity(c)) && AllActive(s.store)
  }

  lemma FullIsNumbered(c: Config, s: State)
    requires Reachable(c, s) && c.seeded && |s.store| == Capacity(c)
    ensures s.store.Keys == Numbered(Capacity(c))
  {
    ReachableInv(c, s);
  }

  lemma AllAreSettled(s: State)
    requires AllActive(s.store) && forall op | op in s.ops :: !Harmful(op)
    ensures forall name | name in s.store :: name in SettledNames(s)
  {
    forall name | name in s.store ensures Settled(s, name) {
      forall op | op in s.ops ensures !Threatens(op, name) {
        assert !Harmful(op);
      }
    }
  }

  lemma NoRoomForMore(c: Config, s: State, s': State)
    requires Complete(c, s) && |s'.store.Keys| <= Capacity(c) && forall name | name in s.store :: IsActive(s', name)
    ensures Complete(c, s')
  {
    NumberedSize(Capacity(c));
    assert s.store.Keys <= s'.store.Keys;
    assert s'.store.Keys == s.store.Keys + (s'.store.Keys - s.store.Keys);
    SubsetOfSameSize(s.store.Keys, s'.store.Keys);
  }

  lemma HarmlessIsSettled(c: Config, s: State, s': State)
    requires Reachable(c, s) && c.seeded && Complete(c, s) && Reaches(c, s, s')
    requires forall op | op in s.ops :: !Harmful(op)
    ensures Complete(c, s')
  {
    AllAreSettled(s);
    SettledAreActive(c, s, s');
    ReachesReachable(c, s, s');
    WithinCapacity(c, s');
    NoRoomForMore(c, s, s');
  }

  /**
   * Whatever has happened to a seeded cluster and whatever is in flight, it can still be completed, and in such a way
   * that all nodes stay ACTIVE whatever happens then.
   */
  lemma NeverWedged(c: Config, s: State) returns (s': State)
    requires Reachable(c, s) && c.seeded
    ensures Reaches(c, s, s') && Complete(c, s')
    ensures forall s'' | Reaches(c, s', s'') :: Complete(c, s'')
  {
    var calm := FinishesHarm(c, s);
    var active := AllGetActive(c, calm);
    s' := Fills(c, active);
    FullIsNumbered(c, s');
    ReachesTrans(c, s, calm, active);
    ReachesTrans(c, s, active, s');
    forall s'' | Reaches(c, s', s'') ensures Complete(c, s'') {
      HarmlessIsSettled(c, s', s'');
    }
  }
}
