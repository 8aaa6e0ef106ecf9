/** The coarser model in which every handler runs to its end on fresh data, and the argument that it converges. */
module Atomic {
  import opened Entities
  import opened Names
  import opened ControlPlane
  import opened Protocol
  import PI = ProtocolInvariant
  import PT = ProtocolTheorems

  datatype Action =
    | ReconcileCluster
    | ReconcileNode(name: string, peers: seq<Node>)
    | Heartbeat(report: Report)

  function Put(store: Nodes, n: Option<Node>): Nodes {
    if n.Some? then store[n.value.name := n.value] else store
  }

  /** What a reconcile of a stored node writes when it runs on the current store. */
  function NodeWrite(n: Node, peers: seq<Node>): Option<Node> {
    match NodePlan(n)
    case Write(n') => Some(n')
    case Gather => (match GatherPlan(n, peers) case Write(n') => Some(n') case _ => None)
    case _ => None
  }

  ghost predicate Possible(store: Nodes, a: Action) {
    a.ReconcileNode? ==> a.name in store && IsListing(a.peers, Members(store, store[a.name].clusterName))
  }

  function Effect(c: Cluster, store: Nodes, a: Action): Nodes {
    match a
    case ReconcileCluster => Put(store, ClusterPlan(c, Members(store, c.name)))
    case ReconcileNode(name, peers) => if name in store then Put(store, NodeWrite(store[name], peers)) else store
    case Heartbeat(r) => if r.name in store then store[r.name := WithReport(store[r.name], r)] else store
  }

  ghost predicate AllPossible(c: Cluster, store: Nodes, actions: seq<Action>)
    decreases |actions|
  {
    actions == [] || (Possible(store, actions[0]) && AllPossible(c, Effect(c, store, actions[0]), actions[1..]))
  }

  function Effects(c: Cluster, store: Nodes, actions: seq<Action>): Nodes
    decreases |actions|
  {
    if actions == [] then store else Effects(c, Effect(c, store, actions[0]), actions[1..])
  }

  // ---- The reachable stores ----

  ghost function Waiting(store: Nodes): set<string> {
    set name | name in store && store[name].status != Active
  }

  ghost predicate Sound(c: Config, n: Node, name: string) {
    && n.name == name && n.clusterName == c.cluster.name && n.target.role == RoleOf(c, name)
    && (n.status == Creating || n.status == Active)
    && (name == PrimaryName(c) ==> n.target == BOOTSTRAP_TARGET)
  }

  /** Only the node that was created last may still be joining. */
  ghost predicate Orderly(c: Config, store: Nodes) {
    && c.seeded && c.cluster.status == Creating
    && 1 <= |store| <= Capacity(c) && store.Keys == Numbered(|store|)
    && (forall name | name in store :: Sound(c, store[name], name))
    && Waiting(store) <= {NodeName(|store|)}
  }

  lemma SeedIsOrderly(c: Config)
    requires c.seeded && c.cluster.status == Creating
    ensures Orderly(c, map[NodeName(1) := Seed(c)])
  {
    var store := map[NodeName(1) := Seed(c)];
    assert store.Keys == {NodeName(1)} == Numbered(0) + {NodeName(1)} == Numbered(1);
    assert |store| == 1;
  }

  lemma OrderlyFacts(c: Config, store: Nodes)
    requires Orderly(c, store)
    ensures Members(store, c.cluster.name) == store && store != map[]
    ensures |Primaries(store)| == 1
    ensures NodeName(|store|) in store && NodeName(|store| + 1) !in store
    ensures AllActive(store) <==> Waiting(store) == {}
    ensures Waiting(store) == {} || Waiting(store) == {NodeName(|store|)}
  {
    NumberedMembers(|store|, 1);
    NumberedMembers(|store|, |store|);
    NumberedMembers(|store|, |store| + 1);
    forall name | name in store ensures store[name].clusterName == c.cluster.name && (store[name].target.role == Primary <==> name == NodeName(1)) {
      assert Sound(c, store[name], name);
    }
    assert Primaries(store) == {NodeName(1)};
    forall name | name in store && store[name].status != Active ensures name in Waiting(store) {
    }
  }

  lemma ClusterEffect(c: Config, store: Nodes)
    requires Orderly(c, store)
    ensures Effect(c.cluster, store, ReconcileCluster) ==
            if Waiting(store) == {} && |store| < Capacity(c)
            then store[NodeName(|store| + 1) := NewSecondary(c.cluster, |store| + 1)] else store
  {
    OrderlyFacts(c, store);
  }

  lemma NextNodeJoins(c: Config, store: Nodes)
    requires Orderly(c, store) && Waiting(store) == {} && |store| < Capacity(c)
    ensures var store' := store[NodeName(|store| + 1) := NewSecondary(c.cluster, |store| + 1)];
            Orderly(c, store') && |store'| == |store| + 1 && Waiting(store') == {NodeName(|store| + 1)}
  {
    OrderlyFacts(c, store);
    var name, n := NodeName(|store| + 1), NewSecondary(c.cluster, |store| + 1);
    var store' := store[name := n];
    PI.PutNumbered(store, |store| + 1, n);
    NodeNamesDiffer(|store| + 1, 1);
    forall x | x in store' ensures Sound(c, store'[x], x) && (x in Waiting(store') <==> x == name) {
      if x != name {
        assert Sound(c, store[x], x) && x !in Waiting(store);
      }
    }
    assert Waiting(store') == {name};
  }

  lemma RewriteWaiting(store: Nodes, name: string, n: Node)
    requires name in store && (store[name].status == Active ==> n.status == Active)
    ensures store[name := n].Keys == store.Keys && |store[name := n]| == |store|
    ensures Waiting(store[name := n]) == if n.status == Active then Waiting(store) - {name} else Waiting(store)
  {
    var store' := store[name := n];
    assert store'.Keys == store.Keys;
    assert |store'| == |store'.Keys| == |store.Keys|;
  }

  /** A write to an existing node that keeps its identity and never takes ACTIVE away. */
  lemma RewriteEffect(c: Config, store: Nodes, name: string, n: Option<Node>)
    requires Orderly(c, store) && name in store
    requires n.Some? ==> Sound(c, n.value, name) && (store[name].status == Active ==> n.value.status == Active)
    ensures var store' := Put(store, n);
            && Orderly(c, store') && |store'| == |store| && store'.Keys == store.Keys
            && Waiting(store') == if n.Some? && n.value.status == Active then Waiting(store) - {name} else Waiting(store)
  {
    if n.Some? {
      RewriteWaiting(store, name, n.value);
      forall x | x in store ensures Sound(c, store[name := n.value][x], x) {
        assert Sound(c, store[x], x);
      }
    }
  }

  lemma NodeEffect(c: Config, store: Nodes, name: string, peers: seq<Node>)
    requires Orderly(c, store) && name in store
    ensures var n := NodeWrite(store[name], peers);
            n.Some? ==> Sound(c, n.value, name) && store[name].status == Creating
  {
    assert Sound(c, store[name], name);
  }

  /** Nothing changes in the membership and the waiting nodes, or one node is created, or one is activated. */
  ghost predicate Moves(store: Nodes, store': Nodes, a: Action) {
    || (|store'| == |store| && Waiting(store') == Waiting(store))
    || (a.ReconcileCluster? && |store'| == |store| + 1 && |Waiting(store')| == 1 && |Waiting(store)| == 0)
    || (a.ReconcileNode? && |store'| == |store| && |Waiting(store')| == 0 && |Waiting(store)| == 1)
  }

  lemma ClusterAction(c: Config, store: Nodes)
    requires Orderly(c, store)
    ensures Orderly(c, Effect(c.cluster, store, ReconcileCluster))
    ensures Moves(store, Effect(c.cluster, store, ReconcileCluster), ReconcileCluster)
  {
    ClusterEffect(c, store);
    if Waiting(store) == {} && |store| < Capacity(c) {
      NextNodeJoins(c, store);
    }
  }

  lemma OnlyOneWaits(c: Config, store: Nodes, name: string)
    requires Orderly(c, store) && name in store && store[name].status != Active
    ensures Waiting(store) == {name} && |Waiting(store)| == 1 && Waiting(store) - {name} == {}
  {
    assert name in Waiting(store);
  }

  lemma NodeAction(c: Config, store: Nodes, name: string, peers: seq<Node>)
    requires Orderly(c, store) && name in store
    ensures Orderly(c, Effect(c.cluster, store, ReconcileNode(name, peers)))
    ensures Moves(store, Effect(c.cluster, store, ReconcileNode(name, peers)), ReconcileNode(name, peers))
  {
    NodeEffect(c, store, name, peers);
    var w := NodeWrite(store[name], peers);
    RewriteEffect(c, store, name, w);
    if w.Some? {
      OnlyOneWaits(c, store, name);
    }
  }

  lemma HeartbeatAction(c: Config, store: Nodes, r: Report)
    requires Orderly(c, store)
    ensures Orderly(c, Effect(c.cluster, store, Heartbeat(r)))
    ensures Moves(store, Effect(c.cluster, store, Heartbeat(r)), Heartbeat(r))
  {
    if r.name in store {
      var n := store[r.name];
      assert Sound(c, n, r.name);
      RewriteEffect(c, store, r.name, Some(WithReport(n, r)));
      assert n.status == Active ==> r.name !in Waiting(store);
    }
  }

  /** What one action can do. */
  lemma ActionEffect(c: Config, store: Nodes, a: Action)
    requires Orderly(c, store) && Possible(store, a)
    ensures Orderly(c, Effect(c.cluster, store, a)) && Moves(store, Effect(c.cluster, store, a), a)
  {
    match a
    case ReconcileCluster => ClusterAction(c, store);
    case ReconcileNode(name, peers) => NodeAction(c, store, name, peers);
    case Heartbeat(r) => HeartbeatAction(c, store, r);
  }

  lemma ActiveStays(c: Config, store: Nodes, a: Action, name: string)
    requires Orderly(c, store) && Possible(store, a) && name in store && store[name].status == Active
    ensures name in Effect(c.cluster, store, a) && Effect(c.cluster, store, a)[name].status == Active
  {
    match a
    case ReconcileCluster =>
      OrderlyFacts(c, store);
      ClusterEffect(c, store);
    case ReconcileNode(x, peers) =>
      NodeEffect(c, store, x, peers);
    case Heartbeat(r) =>
  }

  /** Whose record an action may write, if it is stored. */
  predicate Concerns(a: Action, x: string) {
    (a.ReconcileNode? && a.name == x) || (a.Heartbeat? && a.report.name == x)
  }

  /**
   * What an action leaves alone. A reconcile never changes a report, a heartbeat changes nothing but the report, and it
   * stores what was sent; no action changes the image or the wish to be told.
   */
  lemma ActionFrame(c: Config, store: Nodes, a: Action, x: string)
    requires Orderly(c, store) && Possible(store, a) && x in store
    ensures var n, store' := store[x], Effect(c.cluster, store, a);
            && x in store' && var m := store'[x];
            && (!Concerns(a, x) ==> m == n)
            && m.name == n.name && m.clusterName == n.clusterName && m.image == n.image
            && m.target.role == n.target.role && m.target.gatherHB == n.target.gatherHB
            && (!a.Heartbeat? ==> m.report == n.report)
            && (a.Heartbeat? ==> m.status == n.status && m.target == n.target)
            && (a.Heartbeat? && Concerns(a, x) ==> SameFacts(a.report, m.report))
  {
    assert Sound(c, store[x], x);
    match a
    case ReconcileCluster =>
      OrderlyFacts(c, store);
      ClusterEffect(c, store);
    case ReconcileNode(name, peers) =>
      WriteFrame(c, store[name], name, peers);
    case Heartbeat(r) =>
  }

  lemma WriteFrame(c: Config, n: Node, name: string, peers: seq<Node>)
    requires Sound(c, n, name)
    ensures var w := NodeWrite(n, peers);
            w.Some? ==>
              && w.value.name == n.name && w.value.clusterName == n.clusterName && w.value.image == n.image && w.value.report == n.report
              && w.value.target.role == n.target.role && w.value.target.gatherHB == n.target.gatherHB
  {
  }

  // ---- Convergence ----

  /** The number of creations and activations that are still missing. */
  ghost function Remaining(c: Config, store: Nodes): int {
    2 * (Capacity(c) - |store|) + |Waiting(store)|
  }

  predicate Finished(c: Config, store: Nodes) {
    |store| == Capacity(c) && AllActive(store)
  }

  ghost predicate Productive(c: Cluster, store: Nodes, a: Action) {
    var store' := Effect(c, store, a);
    |store'| != |store| || Waiting(store') != Waiting(store)
  }

  /** Every creation and every activation takes one off the measure; nothing else changes it, and nothing increases it. */
  lemma MeasureDrops(c: Config, store: Nodes, a: Action)
    requires Orderly(c, store) && Possible(store, a)
    ensures Remaining(c, Effect(c.cluster, store, a)) == Remaining(c, store) - (if Productive(c.cluster, store, a) then 1 else 0)
  {
    ActionEffect(c, store, a);
  }

  lemma FinishedIffNothingRemains(c: Config, store: Nodes)
    requires Orderly(c, store)
    ensures 0 <= Remaining(c, store) < 2 * Capacity(c)
    ensures Remaining(c, store) == 0 <==> Finished(c, store)
  {
    OrderlyFacts(c, store);
  }

  /** The finished store is a fixpoint of both controllers; in any other, the cluster can create or a node is waiting. */
  lemma FinishedIsFixpoint(c: Config, store: Nodes)
    requires Orderly(c, store)
    ensures Finished(c, store) ==> forall a: Action | Possible(store, a) && !a.Heartbeat? :: Effect(c.cluster, store, a) == store
    ensures !Finished(c, store) ==>
              || Productive(c.cluster, store, ReconcileCluster)
              || (exists name :: name in Waiting(store))
  {
    OrderlyFacts(c, store);
    ClusterEffect(c, store);
    if Finished(c, store) {
      forall a: Action | Possible(store, a) && !a.Heartbeat? ensures Effect(c.cluster, store, a) == store {
        if a.ReconcileNode? {
          assert store[a.name].status == Active;
        }
      }
    } else if Waiting(store) != {} {
      assert NodeName(|store|) in Waiting(store);
    }
  }

  lemma SoundRole(c: Config, n: Node, name: string)
    requires Sound(c, n, name) && n.status != Active
    ensures n.name == name && n.status == Creating && n.target.role != InvalidRole
    ensures Sound(c, n.(status := Active), name)
  {
  }

  lemma ReadyWrite(n: Node, peers: seq<Node>)
    requires n.status == Creating && n.target.role != InvalidRole && n.report.stamped && Ready(n.report)
    ensures NodeWrite(n, peers) == Some(n.(status := Active))
  {
  }

  /** A waiting node whose stored report is ready is activated by its next reconcile. */
  lemma HeardIsActivated(c: Config, store: Nodes, name: string, peers: seq<Node>)
    requires Orderly(c, store) && name in Waiting(store) && store[name].report.stamped && Ready(store[name].report)
    ensures Productive(c.cluster, store, ReconcileNode(name, peers))
    ensures Waiting(Effect(c.cluster, store, ReconcileNode(name, peers))) == {}
  {
    var n := store[name];
    SoundRole(c, n, name);
    ReadyWrite(n, peers);
    RewriteEffect(c, store, name, Some(n.(status := Active)));
    OnlyOneWaits(c, store, name);
  }

  /** Whatever happened before, a waiting node that reports ready is activated by its next reconcile. */
  lemma ReadyIsActivated(c: Config, store: Nodes, name: string, r: Report, peers: seq<Node>)
    requires Orderly(c, store) && name in Waiting(store) && r.name == name && r.prepared && r.wsrep == WsrepPrimary
    ensures var heard := Effect(c.cluster, store, Heartbeat(r));
            && Orderly(c, heard) && Waiting(heard) == Waiting(store) && |heard| == |store|
            && Productive(c.cluster, heard, ReconcileNode(name, peers))
            && Waiting(Effect(c.cluster, heard, ReconcileNode(name, peers))) == {}
  {
    var heard := Effect(c.cluster, store, Heartbeat(r));
    HeartbeatAction(c, store, r);
    assert heard[name].report == r.(stamped := true);
    HeardIsActivated(c, heard, name, peers);
  }

  /** A secondary that has reported, but not yet ready, is told to join every node of its cluster, itself included. */
  lemma SecondaryIsToldToJoin(c: Config, store: Nodes, name: string, peers: seq<Node>)
    requires Orderly(c, store) && name in Waiting(store) && name != PrimaryName(c)
    requires store[name].report.stamped && !Ready(store[name].report) && IsListing(peers, store)
    requires forall x | x in store :: store[x].report.ip != ""
    ensures NodeWrite(store[name], peers).Some?
    ensures var w := NodeWrite(store[name], peers).value; w == store[name].(target := w.target)
    ensures var t := NodeWrite(store[name], peers).value.target;
            && t.role == Secondary && t.mariadbStarted && !t.galeraNewCluster && t.gatherHB == store[name].target.gatherHB
            && |t.addresses| == |store|
            && (forall x | x in store :: store[x].report.ip in t.addresses)
            && (forall ip | ip in t.addresses :: exists x :: x in store && store[x].report.ip == ip)
  {
    assert Sound(c, store[name], name);
    AddressesOfListing(peers, store);
    var _ := JoiningRecord(store[name], peers);
  }

  lemma JoiningRecord(n: Node, peers: seq<Node>) returns (w: Node)
    requires n.status == Creating && n.target.role == Secondary && n.report.stamped && !Ready(n.report) && "" !in Addresses(peers)
    ensures NodeWrite(n, peers) == Some(w) && Joins(w.target) && w.target.addresses == Addresses(peers)
    ensures w == n.(target := w.target) && w.target.role == Secondary && !w.target.galeraNewCluster && w.target.gatherHB == n.target.gatherHB
  {
    w := GatherPlan(n, peers).node;
  }

  lemma AddressesOfListing(peers: seq<Node>, store: Nodes)
    requires IsListing(peers, store) && forall x | x in store :: store[x].report.ip != ""
    ensures var ips := Addresses(peers);
            && "" !in ips && |ips| == |store|
            && (forall x | x in store :: store[x].report.ip in ips)
            && (forall ip | ip in ips :: exists x :: x in store && store[x].report.ip == ip)
  {
    ListingIsComplete(peers, store);
    var ips := Addresses(peers);
    forall ip | ip in ips ensures ip != "" && exists x :: x in store && store[x].report.ip == ip {
      var i :| 0 <= i < |ips| && ips[i] == ip;
      assert peers[i] == store[peers[i].name] && store[peers[i].name].report.ip == ip;
    }
    forall x | x in store ensures store[x].report.ip in ips {
      var i :| 0 <= i < |peers| && peers[i] == store[x];
      assert ips[i] == store[x].report.ip;
    }
  }

  lemma {:induction false} ActionsNeverGoBack(c: Config, store: Nodes, actions: seq<Action>)
    requires Orderly(c, store) && AllPossible(c.cluster, store, actions)
    ensures Orderly(c, Effects(c.cluster, store, actions))
    ensures Remaining(c, Effects(c.cluster, store, actions)) <= Remaining(c, store)
    decreases |actions|
  {
    if actions != [] {
      ActionEffect(c, store, actions[0]);
      MeasureDrops(c, store, actions[0]);
      ActionsNeverGoBack(c, Effect(c.cluster, store, actions[0]), actions[1..]);
    }
  }

  lemma PrimaryReconcile(c: Config, store: Nodes, peers: seq<Node>)
    requires Orderly(c, store)
    ensures NodeName(1) in store && store[NodeName(1)].target == BOOTSTRAP_TARGET
    ensures var n := store[NodeName(1)];
            Effect(c.cluster, store, ReconcileNode(NodeName(1), peers)) ==
            if n.status == Creating && n.report.stamped && Ready(n.report) then store[NodeName(1) := n.(status := Active)] else store
  {
    NumberedMembers(|store|, 1);
    var n := store[NodeName(1)];
    assert Sound(c, n, NodeName(1));
    assert n.(target := BOOTSTRAP_TARGET) == n;
    assert store[NodeName(1) := n] == store;
  }

  /**
   * In every reachable store the primary is told to bootstrap, and a reconcile of it changes nothing at all unless it
   * is waiting and has reported ready; then it becomes ACTIVE and nothing else changes.
   */
  lemma PrimaryIsToldToBootstrap(c: Config, actions: seq<Action>, peers: seq<Node>)
    requires c.seeded && c.cluster.status == Creating
    requires AllPossible(c.cluster, map[NodeName(1) := Seed(c)], actions)
    ensures var store := Effects(c.cluster, map[NodeName(1) := Seed(c)], actions);
            && NodeName(1) in store && Bootstraps(store[NodeName(1)].target)
            && var n := store[NodeName(1)];
               Effect(c.cluster, store, ReconcileNode(NodeName(1), peers)) ==
               if n.status == Creating && n.report.stamped && Ready(n.report) then store[NodeName(1) := n.(status := Active)] else store
  {
    SeedIsOrderly(c);
    ActionsNeverGoBack(c, map[NodeName(1) := Seed(c)], actions);
    PrimaryReconcile(c, Effects(c.cluster, map[NodeName(1) := Seed(c)], actions), peers);
  }

  /** As long as nothing is created or activated, the same node waits, or none. */
  lemma {:induction false} SameIfNothingDone(c: Config, store: Nodes, actions: seq<Action>)
    requires Orderly(c, store) && AllPossible(c.cluster, store, actions)
    requires Remaining(c, Effects(c.cluster, store, actions)) == Remaining(c, store)
    ensures var store' := Effects(c.cluster, store, actions); Waiting(store') == Waiting(store) && |store'| == |store|
    decreases |actions|
  {
    if actions != [] {
      var next := Effect(c.cluster, store, actions[0]);
      ActionEffect(c, store, actions[0]);
      MeasureDrops(c, store, actions[0]);
      ActionsNeverGoBack(c, next, actions[1..]);
      SameIfNothingDone(c, next, actions[1..]);
    }
  }

  /**
   * One round: the waiting node, if any, reports ready, later it is reconciled, and later the cluster is. Anything at all
   * can happen before, between and after.
   */
  datatype Round = Round(before: seq<Action>, report: Report, between: seq<Action>, peers: seq<Node>, after: seq<Action>)

  /** The store when the waiting node, if any, has reported, and whatever came next has happened. */
  ghost function AfterReport(c: Config, store: Nodes, round: Round): Nodes {
    var quiet := Effects(c.cluster, store, round.before);
    Effects(c.cluster, if Waiting(quiet) == {} then quiet else Effect(c.cluster, quiet, Heartbeat(round.report)), round.between)
  }

  /** The store when that node has been reconciled, and whatever came next has happened. */
  ghost function AfterReconcile(c: Config, store: Nodes, round: Round): Nodes {
    var quiet, reported := Effects(c.cluster, store, round.before), AfterReport(c, store, round);
    var name := NodeName(|quiet|);
    Effects(c.cluster, if Waiting(quiet) == {} then reported else Effect(c.cluster, reported, ReconcileNode(name, round.peers)), round.after)
  }

  /**
   * The node that waits reports ready, and that it is ready is still in the store when it is reconciled, unless it is
   * ACTIVE by then.
   */
  ghost predicate FairRound(c: Config, store: Nodes, round: Round) {
    var quiet, reported := Effects(c.cluster, store, round.before), AfterReport(c, store, round);
    && AllPossible(c.cluster, store, round.before)
    && (if Waiting(quiet) == {} then
          AllPossible(c.cluster, quiet, round.between) && AllPossible(c.cluster, reported, round.after)
        else
          var name, heard := NodeName(|quiet|), Effect(c.cluster, quiet, Heartbeat(round.report));
          && round.report.name == name && Ready(round.report) && AllPossible(c.cluster, heard, round.between)
          && (name in Waiting(reported) ==> reported[name].report.stamped && Ready(reported[name].report))
          && Possible(reported, ReconcileNode(name, round.peers))
          && AllPossible(c.cluster, Effect(c.cluster, reported, ReconcileNode(name, round.peers)), round.after))
  }

  ghost function AfterRound(c: Config, store: Nodes, round: Round): Nodes {
    Effect(c.cluster, AfterReconcile(c, store, round), ReconcileCluster)
  }

  /** When nobody waits, the cluster's reconcile creates the next node, if there is one. */
  lemma CreationProgress(c: Config, store: Nodes)
    requires Orderly(c, store)
    ensures var store' := Effect(c.cluster, store, ReconcileCluster);
            && Orderly(c, store') && Remaining(c, store') <= Remaining(c, store)
            && (Waiting(store) == {} ==> Remaining(c, store') < Remaining(c, store) || Remaining(c, store') == 0)
  {
    ActionEffect(c, store, ReconcileCluster);
    MeasureDrops(c, store, ReconcileCluster);
    ClusterEffect(c, store);
    if Waiting(store) == {} && |store| < Capacity(c) {
      NextNodeJoins(c, store);
    }
  }

  /** With nobody waiting at first, something has been created by the end of the round, or nothing is missing. */
  lemma IdleRound(c: Config, store: Nodes, between: seq<Action>, after: seq<Action>)
    requires Orderly(c, store) && Waiting(store) == {} && AllPossible(c.cluster, store, between)
    requires AllPossible(c.cluster, Effects(c.cluster, store, between), after)
    ensures var store' := Effect(c.cluster, Effects(c.cluster, Effects(c.cluster, store, between), after), ReconcileCluster);
            Orderly(c, store') && (Remaining(c, store') < Remaining(c, store) || Remaining(c, store') == 0)
  {
    var m := Effects(c.cluster, store, between);
    ActionsNeverGoBack(c, store, between);
    ActionsNeverGoBack(c, m, after);
    var last := Effects(c.cluster, m, after);
    CreationProgress(c, last);
    if Remaining(c, last) == Remaining(c, store) {
      SameIfNothingDone(c, store, between);
      SameIfNothingDone(c, m, after);
    }
    RemainingIsNat(c, last);
    RemainingIsNat(c, Effect(c.cluster, last, ReconcileCluster));
  }

  lemma RemainingIsNat(c: Config, store: Nodes)
    requires Orderly(c, store)
    ensures Remaining(c, store) >= 0
  {
    FinishedIffNothingRemains(c, store);
  }

  /** The reconcile of a node that waits and has been heard of as ready takes one off, unless that has happened before. */
  lemma ActivationProgress(c: Config, store: Nodes, reported: Nodes, name: string, peers: seq<Node>)
    requires Orderly(c, store) && Orderly(c, reported) && name in Waiting(store) && Possible(reported, ReconcileNode(name, peers))
    requires Remaining(c, reported) <= Remaining(c, store)
    requires Remaining(c, reported) == Remaining(c, store) ==> Waiting(reported) == Waiting(store)
    requires name in Waiting(reported) ==> reported[name].report.stamped && Ready(reported[name].report)
    ensures var reconciled := Effect(c.cluster, reported, ReconcileNode(name, peers));
            Orderly(c, reconciled) && Remaining(c, reconciled) < Remaining(c, store)
  {
    ActionEffect(c, reported, ReconcileNode(name, peers));
    MeasureDrops(c, reported, ReconcileNode(name, peers));
    if name in Waiting(reported) {
      HeardIsActivated(c, reported, name, peers);
    }
  }

  lemma WaitingRound(c: Config, store: Nodes, round: Round)
    requires Orderly(c, store) && FairRound(c, store, round) && round.before == [] && Waiting(store) != {}
    ensures Orderly(c, AfterRound(c, store, round)) && Remaining(c, AfterRound(c, store, round)) < Remaining(c, store)
  {
    OrderlyFacts(c, store);
    var name, heard := NodeName(|store|), Effect(c.cluster, store, Heartbeat(round.report));
    assert name in Waiting(store);
    HeartbeatAction(c, store, round.report);
    MeasureDrops(c, store, Heartbeat(round.report));
    ActionsNeverGoBack(c, heard, round.between);
    var reported := Effects(c.cluster, heard, round.between);
    if Remaining(c, reported) == Remaining(c, heard) {
      SameIfNothingDone(c, heard, round.between);
    }
    ActivationProgress(c, store, reported, name, round.peers);
    var reconciled := Effect(c.cluster, reported, ReconcileNode(name, round.peers));
    ActionsNeverGoBack(c, reconciled, round.after);
    CreationProgress(c, Effects(c.cluster, reconciled, round.after));
  }

  lemma RoundProgress(c: Config, store: Nodes, round: Round)
    requires Orderly(c, store) && FairRound(c, store, round)
    ensures var store' := AfterRound(c, store, round);
            Orderly(c, store') && (Remaining(c, store') < Remaining(c, store) || Remaining(c, store') == 0)
  {
    ActionsNeverGoBack(c, store, round.before);
    var quiet := Effects(c.cluster, store, round.before);
    if Waiting(quiet) == {} {
      IdleRound(c, quiet, round.between, round.after);
    } else {
      var rest := round.(before := []);
      assert AfterRound(c, quiet, rest) == AfterRound(c, store, round);
      WaitingRound(c, quiet, rest);
    }
  }

  ghost predicate Fair(c: Config, store: Nodes, rounds: seq<Round>)
    decreases |rounds|
  {
    rounds == [] || (FairRound(c, store, rounds[0]) && Fair(c, AfterRound(c, store, rounds[0]), rounds[1..]))
  }

  ghost function AfterRounds(c: Config, store: Nodes, rounds: seq<Round>): Nodes
    decreases |rounds|
  {
    if rounds == [] then store else AfterRounds(c, AfterRound(c, store, rounds[0]), rounds[1..])
  }

  /** From any reachable store, as many fair rounds as the measure says finish the cluster, whatever else happens. */
  lemma {:induction false} FairRoundsFinish(c: Config, store: Nodes, rounds: seq<Round>)
    requires Orderly(c, store) && Fair(c, store, rounds) && |rounds| >= Remaining(c, store)
    ensures Orderly(c, AfterRounds(c, store, rounds)) && Finished(c, AfterRounds(c, store, rounds))
    decreases |rounds|
  {
    FinishedIffNothingRemains(c, store);
    if rounds != [] {
      RoundProgress(c, store, rounds[0]);
      FairRoundsFinish(c, AfterRound(c, store, rounds[0]), rounds[1..]);
    }
  }

  /** From the seeded store, twice the capacity minus one fair rounds are enough to reach all replicas, all ACTIVE. */
  lemma Convergence(c: Config, rounds: seq<Round>)
    requires c.seeded && c.cluster.status == Creating
    requires Fair(c, map[NodeName(1) := Seed(c)], rounds) && |rounds| >= 2 * Capacity(c) - 1
    ensures var final := AfterRounds(c, map[NodeName(1) := Seed(c)], rounds);
            final.Keys == Numbered(Capacity(c)) && AllActive(final)
  {
    SeedIsOrderly(c);
    FinishedIffNothingRemains(c, map[NodeName(1) := Seed(c)]);
    FairRoundsFinish(c, map[NodeName(1) := Seed(c)], rounds);
  }

  /** In every reachable store at most one node is not ACTIVE, and it is the one created last. */
  lemma OneJoinsAtATime(c: Config, actions: seq<Action>, a: string, b: string)
    requires c.seeded && c.cluster.status == Creating
    requires AllPossible(c.cluster, map[NodeName(1) := Seed(c)], actions)
    requires var store := Effects(c.cluster, map[NodeName(1) := Seed(c)], actions);
             a in store && store[a].status != Active && b in store && store[b].status != Active
    ensures a == b == NodeName(|Effects(c.cluster, map[NodeName(1) := Seed(c)], actions)|)
  {
    var seeded := map[NodeName(1) := Seed(c)];
    SeedIsOrderly(c);
    ActionsNeverGoBack(c, seeded, actions);
    var store := Effects(c.cluster, seeded, actions);
    assert a in Waiting(store) && b in Waiting(store);
  }

  /** Run atomically, nothing takes a node's status away from ACTIVE. */
  lemma {:induction false} ActiveIsForever(c: Config, store: Nodes, actions: seq<Action>, name: string)
    requires Orderly(c, store) && AllPossible(c.cluster, store, actions)
    requires name in store && store[name].status == Active
    ensures name in Effects(c.cluster, store, actions) && Effects(c.cluster, store, actions)[name].status == Active
    decreases |actions|
  {
    if actions != [] {
      ActionEffect(c, store, actions[0]);
      ActiveStays(c, store, actions[0], name);
      ActiveIsForever(c, Effect(c.cluster, store, actions[0]), actions[1..], name);
    }
  }

  // ---- The atomic model is part of the interleaved one ----

  /** A finished operation leaves the others as they were. */
  lemma InAndOut(ops: multiset<Op>, op: Op)
    ensures ops + multiset{op} - multiset{op} == ops
  {
  }

  lemma CommitPath(c: Config, path: seq<State>, s: State, w: Node) returns (path': seq<State>)
    requires PT.Path(c, path) && path[|path| - 1] == With(s, PendingUpdate(w)) && w.name in s.store
    ensures PT.Path(c, path') && path'[0] == path[0] && path'[|path'| - 1] == s.(store := s.store[w.name := w])
  {
    InAndOut(s.ops, PendingUpdate(w));
    var planned, done := With(s, PendingUpdate(w)), s.(store := s.store[w.name := w]);
    assert Done(planned, PendingUpdate(w)) == s && Update(s.store, w) == done.store;
    path' := PT.Extend(c, path, planned, CommitUpdate(w), done);
  }

  lemma WritePath(c: Config, s: State, n: Node, w: Node) returns (path: seq<State>)
    requires n.name in s.store && NodePlan(n) == Plan.Write(w)
    ensures PT.Path(c, path) && path[0] == With(s, Held(n)) && path[|path| - 1] == s.(store := s.store[w.name := w])
  {
    var held := With(s, Held(n));
    InAndOut(s.ops, Held(n));
    assert Done(held, Held(n)) == s;
    path := PT.Extend(c, [held], held, PlanNode(n), With(s, PendingUpdate(w)));
    path := CommitPath(c, path, s, w);
  }

  lemma GatherPath(c: Config, s: State, n: Node, peers: seq<Node>, w: Node) returns (path: seq<State>)
    requires n.name in s.store && NodePlan(n).Gather? && GatherPlan(n, peers) == Plan.Write(w)
    requires IsListing(peers, Members(s.store, n.clusterName))
    ensures PT.Path(c, path) && path[0] == With(s, Held(n)) && path[|path| - 1] == s.(store := s.store[w.name := w])
  {
    var held := With(s, Held(n));
    InAndOut(s.ops, Held(n));
    assert Done(held, Held(n)) == s;
    path := PT.Extend(c, [held], held, GatherPeers(n, peers), With(s, PendingUpdate(w)));
    path := CommitPath(c, path, s, w);
  }

  lemma IdlePath(c: Config, s: State, op: Op) returns (path: seq<State>)
    ensures PT.Path(c, path) && path[0] == With(s, op) && path[|path| - 1] == s
  {
    var held := With(s, op);
    InAndOut(s.ops, op);
    assert Done(held, op) == s;
    path := PT.Extend(c, [held], held, Lose(op), s);
  }

  lemma HeldPath(c: Config, s: State, name: string, peers: seq<Node>) returns (path: seq<State>)
    requires name in s.store && s.store[name].name == name && Possible(s.store, ReconcileNode(name, peers))
    ensures PT.Path(c, path) && path[0] == With(s, Held(s.store[name]))
    ensures path[|path| - 1] == s.(store := Put(s.store, NodeWrite(s.store[name], peers)))
  {
    var n := s.store[name];
    if NodePlan(n).Write? {
      path := WritePath(c, s, n, NodePlan(n).node);
    } else if NodePlan(n).Gather? && GatherPlan(n, peers).Write? {
      path := GatherPath(c, s, n, peers, GatherPlan(n, peers).node);
    } else {
      assert NodeWrite(n, peers) == None;
      path := IdlePath(c, s, Held(n));
    }
  }

  lemma Prepend(c: Config, s: State, step: Step, path: seq<State>)
    requires Enabled(c, s, step) && PT.Path(c, path) && path[0] == After(c, s, step)
    ensures PT.Path(c, [s] + path)
  {
    var whole := [s] + path;
    forall i | 0 < i < |whole| ensures Next(c, whole[i - 1], whole[i]) {
      if i > 1 {
        assert whole[i - 1] == path[i - 2] && whole[i] == path[i - 1];
      }
    }
  }

  lemma ReconcileNodeIsPath(c: Config, s: State, name: string, peers: seq<Node>) returns (path: seq<State>)
    requires name in s.store && s.store[name].name == name && Possible(s.store, ReconcileNode(name, peers))
    ensures PT.Path(c, path) && path[0] == s
    ensures path[|path| - 1] == s.(store := Effect(c.cluster, s.store, ReconcileNode(name, peers)))
  {
    path := HeldPath(c, s, name, peers);
    Prepend(c, s, TakeSnapshot(name), path);
    path := [s] + path;
  }

  lemma ReportPath(c: Config, s: State, r: Report) returns (path: seq<State>)
    requires r.name in s.store && s.store[r.name].name == r.name
    ensures PT.Path(c, path) && path[0] == With(s, Sent(r))
    ensures var n := WithReport(s.store[r.name], r);
            path[|path| - 1] == Note(s, Accepted(n.report)).(store := s.store[r.name := n])
  {
    var n := WithReport(s.store[r.name], r);
    var sent, read := With(s, Sent(r)), With(s, PendingReport(n));
    InAndOut(s.ops, Sent(r));
    InAndOut(s.ops, PendingReport(n));
    assert Done(sent, Sent(r)) == s && Done(read, PendingReport(n)) == s;
    path := PT.Extend(c, [sent], sent, ReceiveReport(r), read);
    path := PT.Extend(c, path, read, CommitReport(n), Note(s, Accepted(n.report)).(store := s.store[r.name := n]));
  }

  lemma HeartbeatIsPath(c: Config, s: State, r: Report) returns (path: seq<State>)
    requires (r.prepared ==> r.name in s.flags) && (r.name in s.store ==> s.store[r.name].name == r.name)
    ensures PT.Path(c, path) && path[0] == s
    ensures var last := path[|path| - 1];
            last.store == Effect(c.cluster, s.store, Heartbeat(r)) && last.ops == s.ops && last.flags == s.flags
  {
    var told := Note(s, Told(r));
    if r.name in s.store {
      path := ReportPath(c, told, r);
    } else {
      path := IdlePath(c, told, Sent(r));
    }
    Prepend(c, s, SendReport(r), path);
    path := [s] + path;
  }

  lemma CreatePath(c: Config, path: seq<State>, s: State, n: Node) returns (path': seq<State>)
    requires PT.Path(c, path) && path[|path| - 1] == With(s, PendingCreate(n))
    ensures PT.Path(c, path') && path'[0] == path[0]
    ensures path'[|path'| - 1] == Note(s, Created(n.name)).(store := s.store[n.name := n])
  {
    InAndOut(s.ops, PendingCreate(n));
    var pending := With(s, PendingCreate(n));
    assert Done(pending, PendingCreate(n)) == s;
    path' := PT.Extend(c, path, pending, CommitCreate(n), Note(s, Created(n.name)).(store := s.store[n.name := n]));
  }

  lemma ReconcileClusterIsPath(c: Config, s: State) returns (path: seq<State>)
    ensures PT.Path(c, path) && path[0] == s
    ensures var last := path[|path| - 1];
            last.store == Effect(c.cluster, s.store, ReconcileCluster) && last.ops == s.ops && last.flags == s.flags
  {
    var members := Members(s.store, c.cluster.name);
    var noted, plan := Note(s, Scanned(members)), ClusterPlan(c.cluster, members);
    if plan.Some? {
      path := PT.Extend(c, [s], s, ScanCluster, With(noted, PendingCreate(plan.value)));
      path := CreatePath(c, path, noted, plan.value);
    } else {
      path := PT.Extend(c, [s], s, ScanCluster, noted);
    }
  }

  /**
   * Every atomic action is a stretch of interleaved steps that leaves no operation behind, so whatever holds in
   * every interleaved run holds in every atomic one. Heartbeats must be honest about the prepared flag.
   */
  lemma AtomicIsInterleaved(c: Config, s: State, a: Action) returns (path: seq<State>)
    requires Possible(s.store, a) && forall name | name in s.store :: s.store[name].name == name
    requires a.Heartbeat? && a.report.prepared ==> a.report.name in s.flags
    ensures PT.Path(c, path) && path[0] == s
    ensures var last := path[|path| - 1];
            last.store == Effect(c.cluster, s.store, a) && last.ops == s.ops && last.flags == s.flags
  {
    match a
    case ReconcileCluster => path := ReconcileClusterIsPath(c, s);
    case ReconcileNode(name, peers) => path := ReconcileNodeIsPath(c, s, name, peers);
    case Heartbeat(r) => path := HeartbeatIsPath(c, s, r);
  }
}
