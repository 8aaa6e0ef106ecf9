/** Every step keeps the invariant, over the store, all snapshots, all pending writes and all messages. */
module ProtocolInvariant {
  import opened Entities
  import opened Names
  import opened ControlPlane
  import opened Protocol

  lemma SeededRecord(c: Config, k: Knowledge)
    requires c.seeded && k.keys == {NodeName(1)}
    ensures RecordOk(c, k, Seed(c))
  {
    NumberedMembers(Capacity(c), 1);
  }

  lemma SeededShape(c: Config)
    requires c.seeded
    ensures Shape(c, map[NodeName(1) := Seed(c)])
  {
    var store := map[NodeName(1) := Seed(c)];
    assert store.Keys == {NodeName(1)} == Numbered(0) + {NodeName(1)} == Numbered(1);
    assert |store| == 1;
  }

  lemma InitialInv(c: Config, s: State)
    requires Init(c, s)
    ensures Inv(c, s)
  {
    if c.seeded {
      SeededShape(c);
      SeededRecord(c, Known(s));
    }
  }

  // ---- Growth ----

  lemma SeenReadyGrows(log: seq<Event>, log': seq<Event>, name: string)
    requires log <= log' && SeenReady(log, name)
    ensures SeenReady(log', name)
  {
    var r: Report :| Accepted(r) in log && r.name == name && Ready(r);
    assert Accepted(r) in log';
  }

  lemma SeenActiveGrows(log: seq<Event>, log': seq<Event>, k: nat)
    requires log <= log' && SeenActive(log, k)
    ensures SeenActive(log', k)
  {
    var m: Nodes :| Scanned(m) in log && m.Keys == Numbered(k) && AllActive(m);
    assert Scanned(m) in log';
  }

  lemma WasToldGrows(log: seq<Event>, log': seq<Event>, stored: Report)
    requires log <= log' && WasTold(log, stored)
    ensures WasTold(log', stored)
  {
    var sent: Report :| Told(sent) in log && SameFacts(sent, stored);
    assert Told(sent) in log';
  }

  lemma JoinTargetGrows(c: Config, log: seq<Event>, log': seq<Event>, addresses: seq<string>)
    requires log <= log' && JoinTarget(c, log, addresses)
    ensures JoinTarget(c, log', addresses)
  {
    forall i | 0 <= i < |addresses| ensures Reported(c, log', addresses[i]) {
      assert Reported(c, log, addresses[i]);
      var r: Report :| Accepted(r) in log && r.ip == addresses[i] && Introduced(c, log, r.name);
      assert Accepted(r) in log' && Introduced(c, log', r.name);
    }
    var p: Report :| Accepted(p) in log && p.name == PrimaryName(c) && p.ip in addresses;
    assert Accepted(p) in log';
  }

  lemma BodyGrows(c: Config, k: Knowledge, k': Knowledge, n: Node)
    requires Grows(k, k') && BodyOk(c, k, n)
    ensures BodyOk(c, k', n)
  {
    if n.status == Active {
      SeenReadyGrows(k.log, k'.log, n.name);
    }
    if n.target.role == Secondary && n.target.mariadbStarted {
      JoinTargetGrows(c, k.log, k'.log, n.target.addresses);
    }
  }

  lemma OpGrows(c: Config, k: Knowledge, k': Knowledge, op: Op)
    requires Grows(k, k') && OpOk(c, k, op)
    ensures OpOk(c, k', op)
  {
    match op
    case PendingCreate(n) =>
      if c.seeded {
        var j :| 1 <= j <= |k.keys| && j < c.cluster.replicas && n == NewSecondary(c.cluster, j + 1) && SeenActive(k.log, j);
        SeenActiveGrows(k.log, k'.log, j);
        assert k'.keys == k.keys + (k'.keys - k.keys);
      }
    case Held(n) => BodyGrows(c, k, k', n);
    case PendingUpdate(n) => BodyGrows(c, k, k', n);
    case Sent(r) =>
    case PendingReport(n) =>
      BodyGrows(c, k, k', n);
      WasToldGrows(k.log, k'.log, n.report);
    case Delivered(name, t) =>
      if t.role == Secondary && t.mariadbStarted {
        JoinTargetGrows(c, k.log, k'.log, t.addresses);
      }
    case Launching(name, newCluster, addresses) =>
      if !newCluster {
        JoinTargetGrows(c, k.log, k'.log, addresses);
      }
    case Touching(name) =>
      if name != PrimaryName(c) {
        var addresses :| Joined(name, addresses) in k.log;
        assert Joined(name, addresses) in k'.log;
      }
  }

  lemma CausalAppend(c: Config, log: seq<Event>, e: Event)
    requires Causal(c, log) && Justified(c, log, e)
    ensures Causal(c, log + [e])
  {
    var log' := log + [e];
    forall i | 0 <= i < |log'| ensures Justified(c, log'[..i], log'[i]) {
      if i < |log| {
        assert log'[..i] == log[..i];
      } else {
        assert log'[..i] == log;
      }
    }
  }

  /**
   * The common part of every step: whatever was fine stays fine, so it is enough to account for what the step
   * has added to the store, to the operations in flight and to the history.
   */
  lemma Carries(c: Config, s: State, s': State)
    requires Inv(c, s)
    requires Grows(Known(s), Known(s')) && Shape(c, s'.store) && Causal(c, s'.log)
    requires forall name | name in s'.flags - s.flags :: Flagged(name) in s'.log
    requires forall op | op in s'.ops && op !in s.ops :: OpOk(c, Known(s'), op)
    requires forall name | name in s'.store && (name in s.store ==> s'.store[name] != s.store[name]) ::
               s'.store[name].name == name && RecordOk(c, Known(s'), s'.store[name])
    ensures Inv(c, s')
  {
    var k, k' := Known(s), Known(s');
    forall op | op in s'.ops ensures OpOk(c, k', op) {
      if op in s.ops {
        OpGrows(c, k, k', op);
      }
    }
    forall name | name in s'.store ensures s'.store[name].name == name && RecordOk(c, k', s'.store[name]) {
      if name in s.store && s'.store[name] == s.store[name] {
        OpGrows(c, k, k', Held(s.store[name]));
      }
    }
  }

  // ---- The steps of the control plane ----

  /** With the invariant, the members of the cluster are the whole store. */
  lemma MembersAreAll(c: Config, s: State)
    requires Inv(c, s)
    ensures Members(s.store, c.cluster.name) == s.store
  {
    assert forall name | name in s.store :: RecordOk(c, Known(s), s.store[name]);
  }

  /** In a cluster that started from nothing, a scan of a non-empty store never finds all nodes ACTIVE. */
  lemma EmptyStartNeverActive(c: Config, store: Nodes, k: Knowledge)
    requires !c.seeded && store != map[]
    requires forall name | name in store :: RecordOk(c, k, store[name])
    ensures !AllActive(store)
  {
    var name :| name in store;
    assert StatusOk(c, k, store[name]);
  }

  /** What a scan decides to create is accounted for by the scan itself. */
  lemma ScannedPlan(c: Config, store: Nodes, k: Knowledge, n: Node)
    requires Shape(c, store) && k.keys == store.Keys && Scanned(store) in k.log
    requires !c.seeded && store != map[] ==> !AllActive(store)
    requires ClusterPlan(c.cluster, store) == Some(n)
    ensures CreateOk(c, k, n)
  {
    if store == map[] {
      assert n == NewPrimary(c.cluster);
    } else {
      assert AllActive(store) && |store| < c.cluster.replicas;
      assert n == NewSecondary(c.cluster, |store| + 1);
      assert SeenActive(k.log, |store|);
    }
  }

  lemma ScanJustified(c: Config, s: State)
    requires Inv(c, s)
    ensures Causal(c, s.log + [Scanned(s.store)])
  {
    forall name | name in s.store && s.store[name].status == Active ensures SeenReady(s.log, name) {
      assert RecordOk(c, Known(s), s.store[name]);
    }
    CausalAppend(c, s.log, Scanned(s.store));
  }

  lemma ScanKeepsInv(c: Config, s: State)
    requires Inv(c, s)
    ensures Inv(c, After(c, s, ScanCluster))
  {
    MembersAreAll(c, s);
    var s' := After(c, s, ScanCluster);
    ScanJustified(c, s);
    assert s'.log == s.log + [Scanned(s.store)] && Scanned(s.store) in s'.log;
    if !c.seeded && s.store != map[] {
      EmptyStartNeverActive(c, s.store, Known(s));
    }
    var plan := ClusterPlan(c.cluster, s.store);
    if plan.Some? {
      ScannedPlan(c, s.store, Known(s'), plan.value);
    }
    Carries(c, s, s');
  }

  /** Putting any node up to the next one into a contiguous store keeps it contiguous. */
  lemma PutNumbered(store: Nodes, j: nat, n: Node)
    requires store.Keys == Numbered(|store|) && 1 <= j <= |store| + 1
    ensures store[NodeName(j) := n].Keys == Numbered(|store[NodeName(j) := n]|)
    ensures |store[NodeName(j) := n]| == if j <= |store| then |store| else j
  {
    var store' := store[NodeName(j) := n];
    NumberedMembers(|store|, j);
    NumberedSize(|store|);
    if j <= |store| {
      assert store'.Keys == store.Keys;
    } else {
      assert store'.Keys == store.Keys + {NodeName(j)} == Numbered(j);
      NumberedSize(j);
    }
    assert |store'| == |store'.Keys|;
  }

  lemma SeededCreationFits(c: Config, store: Nodes, j: nat, n: Node)
    requires c.seeded && Shape(c, store) && 1 <= j <= |store| && j < Capacity(c) && n == NewSecondary(c.cluster, j + 1)
    ensures n.name in MemberNames(c) && n.name != PrimaryName(c) && Shape(c, store[n.name := n])
  {
    PutNumbered(store, j + 1, n);
    NumberedMembers(Capacity(c), j + 1);
    NodeNamesDiffer(j + 1, 1);
  }

  /**
   * A creation, however late, adds the next node or overwrites a secondary if the cluster was seeded, and adds or
   * overwrites the one primary if it started from nothing.
   */
  lemma CreationFits(c: Config, store: Nodes, k: Knowledge, n: Node)
    requires Shape(c, store) && k.keys == store.Keys && CreateOk(c, k, n)
    ensures c.seeded ==> exists j :: 2 <= j <= |store| + 1 && j <= Capacity(c) && n == NewSecondary(c.cluster, j)
    ensures !c.seeded ==> n == NewPrimary(c.cluster)
    ensures n.name == PrimaryName(c) <==> !c.seeded
    ensures n.name in MemberNames(c) && CreationSeen(c, k.log, n.name)
    ensures Shape(c, store[n.name := n])
  {
    if c.seeded {
      var j :| 1 <= j <= |k.keys| && j < c.cluster.replicas && n == NewSecondary(c.cluster, j + 1) && SeenActive(k.log, j);
      assert 2 <= j + 1 <= |store| + 1 && n == NewSecondary(c.cluster, j + 1);
      SeededCreationFits(c, store, j, n);
    }
  }

  lemma CreateKeepsInv(c: Config, s: State, n: Node)
    requires Inv(c, s) && PendingCreate(n) in s.ops
    ensures Inv(c, After(c, s, CommitCreate(n)))
  {
    var s' := After(c, s, CommitCreate(n));
    assert OpOk(c, Known(s), PendingCreate(n));
    CreationFits(c, s.store, Known(s), n);
    CausalAppend(c, s.log, Created(n.name));
    assert RecordOk(c, Known(s'), n);
    Carries(c, s, s');
  }

  lemma SnapshotKeepsInv(c: Config, s: State, name: string)
    requires Inv(c, s) && name in s.store
    ensures Inv(c, After(c, s, TakeSnapshot(name)))
  {
    Carries(c, s, After(c, s, TakeSnapshot(name)));
  }

  lemma PlannedRecord(c: Config, k: Knowledge, n: Node)
    requires RecordOk(c, k, n) && NodePlan(n).Write?
    ensures RecordOk(c, k, NodePlan(n).node)
  {
    if Ready(n.report) {
      assert Accepted(n.report) in k.log;
      assert SeenReady(k.log, n.name);
    }
  }

  lemma PlanKeepsInv(c: Config, s: State, n: Node)
    requires Inv(c, s) && Enabled(c, s, PlanNode(n))
    ensures Inv(c, After(c, s, PlanNode(n)))
  {
    assert OpOk(c, Known(s), Held(n));
    PlannedRecord(c, Known(s), n);
    assert OpOk(c, Known(s), PendingUpdate(NodePlan(n).node));
    Carries(c, s, After(c, s, PlanNode(n)));
  }

  /** A complete scan of a store with a primary and another node yields a complete set of join addresses. */
  lemma GatheredTarget(c: Config, s: State, n: Node, peers: seq<Node>)
    requires Inv(c, s) && RecordOk(c, Known(s), n) && n.target.role == Secondary
    requires IsListing(peers, s.store) && GatherPlan(n, peers).Write?
    ensures JoinTarget(c, s.log, Addresses(peers))
  {
    var addresses := Addresses(peers);
    ListingIsComplete(peers, s.store);
    if c.seeded {
      NumberedMembers(|s.store|, 1);
    }
    assert n.name in s.store.Keys && n.name != PrimaryName(c);
    assert PrimaryName(c) in s.store;
    var primary := s.store[PrimaryName(c)];
    assert primary in peers && s.store[n.name] in peers;
    var i :| 0 <= i < |peers| && peers[i] == primary;
    var j :| 0 <= j < |peers| && peers[j] == s.store[n.name];
    assert i != j && |addresses| >= 2;
    forall x | 0 <= x < |addresses| ensures addresses[x] != "" && Reported(c, s.log, addresses[x]) {
      assert addresses[x] in addresses;
      assert RecordOk(c, Known(s), s.store[peers[x].name]);
      assert Accepted(peers[x].report) in s.log;
    }
    assert RecordOk(c, Known(s), primary);
    assert addresses[i] == primary.report.ip && addresses[i] != "";
    assert Accepted(primary.report) in s.log && primary.report.ip in addresses;
  }

  lemma GatherKeepsInv(c: Config, s: State, n: Node, peers: seq<Node>)
    requires Inv(c, s) && Enabled(c, s, GatherPeers(n, peers))
    ensures Inv(c, After(c, s, GatherPeers(n, peers)))
  {
    MembersAreAll(c, s);
    assert OpOk(c, Known(s), Held(n));
    GatheredTarget(c, s, n, peers);
    assert OpOk(c, Known(s), PendingUpdate(GatherPlan(n, peers).node));
    Carries(c, s, After(c, s, GatherPeers(n, peers)));
  }

  /** A full-record update of a stored node changes no name. */
  lemma UpdateShape(c: Config, store: Nodes, n: Node)
    requires Shape(c, store) && n.name in store
    ensures Update(store, n).Keys == store.Keys && Shape(c, Update(store, n))
  {
    var store' := Update(store, n);
    assert store'.Keys == store.Keys;
    assert |store'| == |store'.Keys| == |store|;
  }

  /** The case of `Carries` in which the step writes one record to the store. */
  lemma CarriesUpdate(c: Config, s: State, s': State, n: Node)
    requires Inv(c, s) && n.name in s.store && s'.store == Update(s.store, n)
    requires s.log <= s'.log && s'.flags == s.flags && Causal(c, s'.log)
    requires forall op | op in s'.ops :: op in s.ops
    requires RecordOk(c, Known(s'), n)
    ensures Inv(c, s')
  {
    UpdateShape(c, s.store, n);
    Carries(c, s, s');
  }

  lemma UpdateKeepsInv(c: Config, s: State, n: Node)
    requires Inv(c, s) && PendingUpdate(n) in s.ops
    ensures Inv(c, After(c, s, CommitUpdate(n)))
  {
    var s' := After(c, s, CommitUpdate(n));
    assert OpOk(c, Known(s), PendingUpdate(n));
    UpdateShape(c, s.store, n);
    assert Known(s') == Known(s);
    CarriesUpdate(c, s, s', n);
  }

  lemma ReceiveKeepsInv(c: Config, s: State, r: Report)
    requires Inv(c, s) && Enabled(c, s, ReceiveReport(r))
    ensures Inv(c, After(c, s, ReceiveReport(r)))
  {
    assert OpOk(c, Known(s), Sent(r));
    assert RecordOk(c, Known(s), s.store[r.name]);
    assert SameFacts(r, WithReport(s.store[r.name], r).report);
    assert OpOk(c, Known(s), PendingReport(WithReport(s.store[r.name], r)));
    Carries(c, s, After(c, s, ReceiveReport(r)));
  }

  /** A written report is accounted for by its own acceptance. */
  lemma AcceptedRecord(c: Config, k: Knowledge, k': Knowledge, n: Node)
    requires OpOk(c, k, PendingReport(n)) && Grows(k, k') && Accepted(n.report) in k'.log
    ensures RecordOk(c, k', n)
  {
    BodyGrows(c, k, k', n);
  }

  lemma ReportKeepsInv(c: Config, s: State, n: Node)
    requires Inv(c, s) && PendingReport(n) in s.ops
    ensures Inv(c, After(c, s, CommitReport(n)))
  {
    var s' := After(c, s, CommitReport(n));
    assert OpOk(c, Known(s), PendingReport(n));
    ReportJustified(c, s, n);
    UpdateShape(c, s.store, n);
    AcceptedRecord(c, Known(s), Known(s'), n);
    CarriesUpdate(c, s, s', n);
  }

  lemma ReportJustified(c: Config, s: State, n: Node)
    requires Inv(c, s) && OpOk(c, Known(s), PendingReport(n))
    ensures Causal(c, s.log + [Accepted(n.report)])
    ensures s.log <= s.log + [Accepted(n.report)] && Accepted(n.report) in s.log + [Accepted(n.report)]
  {
    CausalAppend(c, s.log, Accepted(n.report));
  }

  // ---- The steps of the agents ----

  lemma FetchKeepsInv(c: Config, s: State, name: string)
    requires Inv(c, s) && name in s.store
    ensures Inv(c, After(c, s, FetchTarget(name)))
  {
    assert RecordOk(c, Known(s), s.store[name]);
    assert OpOk(c, Known(s), Delivered(name, s.store[name].target));
    Carries(c, s, After(c, s, FetchTarget(name)));
  }

  lemma HandleKeepsInv(c: Config, s: State, name: string, t: Target)
    requires Inv(c, s) && Enabled(c, s, HandleTarget(name, t))
    ensures Inv(c, After(c, s, HandleTarget(name, t)))
  {
    assert OpOk(c, Known(s), Delivered(name, t));
    assert OpOk(c, Known(s), Launching(name, Bootstraps(t), t.addresses));
    Carries(c, s, After(c, s, HandleTarget(name, t)));
  }

  lemma StartKeepsInv(c: Config, s: State, name: string, newCluster: bool, addresses: seq<string>)
    requires Inv(c, s) && Launching(name, newCluster, addresses) in s.ops
    ensures Inv(c, After(c, s, Start(name, newCluster, addresses)))
  {
    assert OpOk(c, Known(s), Launching(name, newCluster, addresses));
    var e := if newCluster then Bootstrapped(name) else Joined(name, addresses);
    var s' := After(c, s, Start(name, newCluster, addresses));
    assert s'.log == s.log + [e] && e in s'.log;
    CausalAppend(c, s.log, e);
    assert OpOk(c, Known(s'), Touching(name));
    Carries(c, s, s');
  }

  lemma TouchKeepsInv(c: Config, s: State, name: string)
    requires Inv(c, s) && Touching(name) in s.ops
    ensures Inv(c, After(c, s, Touch(name)))
  {
    assert OpOk(c, Known(s), Touching(name));
    CausalAppend(c, s.log, Flagged(name));
    Carries(c, s, After(c, s, Touch(name)));
  }

  lemma SendKeepsInv(c: Config, s: State, r: Report)
    requires Inv(c, s) && Enabled(c, s, SendReport(r))
    ensures Inv(c, After(c, s, SendReport(r)))
  {
    CausalAppend(c, s.log, Told(r));
    var s' := After(c, s, SendReport(r));
    assert s'.log == s.log + [Told(r)] && Told(r) in s'.log;
    Carries(c, s, s');
  }

  lemma LossKeepsInv(c: Config, s: State, op: Op)
    requires Inv(c, s) && op in s.ops
    ensures Inv(c, After(c, s, Lose(op)))
  {
    Carries(c, s, After(c, s, Lose(op)));
  }

  predicate IsAgentStep(step: Step) {
    step.FetchTarget? || step.HandleTarget? || step.Start? || step.Touch? || step.SendReport? || step.Lose?
  }

  lemma AgentStepKeepsInv(c: Config, s: State, step: Step)
    requires Inv(c, s) && Enabled(c, s, step) && IsAgentStep(step)
    ensures Inv(c, After(c, s, step))
  {
    match step
    case FetchTarget(name) => FetchKeepsInv(c, s, name);
    case HandleTarget(name, t) => HandleKeepsInv(c, s, name, t);
    case Start(name, newCluster, addresses) => StartKeepsInv(c, s, name, newCluster, addresses);
    case Touch(name) => TouchKeepsInv(c, s, name);
    case SendReport(r) => SendKeepsInv(c, s, r);
    case Lose(op) => LossKeepsInv(c, s, op);
  }

  lemma StepKeepsInv(c: Config, s: State, step: Step)
    requires Inv(c, s) && Enabled(c, s, step)
    ensures Inv(c, After(c, s, step))
  {
    match step
    case ScanCluster => ScanKeepsInv(c, s);
    case CommitCreate(n) => CreateKeepsInv(c, s, n);
    case TakeSnapshot(name) => SnapshotKeepsInv(c, s, name);
    case PlanNode(n) => PlanKeepsInv(c, s, n);
    case GatherPeers(n, peers) => GatherKeepsInv(c, s, n, peers);
    case CommitUpdate(n) => UpdateKeepsInv(c, s, n);
    case ReceiveReport(r) => ReceiveKeepsInv(c, s, r);
    case CommitReport(n) => ReportKeepsInv(c, s, n);
    case _ => AgentStepKeepsInv(c, s, step);
  }

  /** Every state of every run satisfies the invariant. */
  lemma {:induction false} RunInv(c: Config, run: seq<State>, i: nat)
    requires IsRun(c, run) && i < |run|
    ensures Inv(c, run[i])
  {
    if i == 0 {
      InitialInv(c, run[0]);
    } else {
      RunInv(c, run, i - 1);
      assert Next(c, run[i - 1], run[i]);
      var step :| Enabled(c, run[i - 1], step) && run[i] == After(c, run[i - 1], step);
      StepKeepsInv(c, run[i - 1], step);
    }
  }
}
