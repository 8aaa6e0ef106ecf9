/** The controllers and the heartbeat handler as they run against the store. */
module Controllers {
  import opened Entities
  import opened Names
  import opened ControlPlane
  import opened Records
  import opened InMemoryStorage
  import Atomic
  import Protocol

  datatype ReconcileResult = ReconcileResult(success: bool, failed: bool)

  const REQUEUE := ReconcileResult(false, false)
  const FAILURE := ReconcileResult(false, true)

  /** ToGeneralTargetState followed by CreateResource. */
  method CreateNode(s: Storage, n: Node)
    requires s.Valid()
    modifies s
    ensures s.Valid() && s.Contents() == PutNode(old(s.Contents()), Some(n))
  {
    var spec := new RawMessage(NodeResource(n).doc);
    assert s.Contents() == old(s.Contents());
    s.CreateResource(General(NODE_KIND, n.name, spec));
  }

  /** ToGeneralTargetState followed by UpdateGeneralResource: a record that is no longer there is not written. */
  method UpdateNode(s: Storage, n: Node) returns (ok: bool)
    requires s.Valid() && KnownKinds(s.Contents())
    modifies s
    ensures s.Valid() && KnownKinds(s.Contents()) && ok == (KeyOf(NodeResource(n)) in old(s.Contents()))
    ensures s.Contents() == UpdateResource(old(s.Contents()), NodeResource(n))
  {
    ghost var before := s.Contents();
    PutKeepsKeys(before, NodeResource(n));
    var spec := new RawMessage(NodeResource(n).doc);
    assert s.Contents() == before;
    ok := s.UpdateGeneralResource(General(NODE_KIND, n.name, spec));
  }

  /** GetResources of a controller: the records its iteration launches a reconcile for, each once, as copies. */
  method GetResources(s: Storage, kind: string) returns (resources: seq<General>, ghost records: seq<Resource>)
    requires s.Valid()
    ensures |records| == |resources|
    ensures forall i | 0 <= i < |resources| :: fresh(resources[i].spec) && ValueOf(resources[i]) == records[i]
    ensures multiset(records) == multiset(OfKind(s.Contents(), kind))
  {
    resources, records := s.ListGeneralResourcesByKind(kind);
  }

  /** Where there is one record of a kind, it is the one that is listed. */
  lemma ListingOfOne(records: seq<Resource>, r: Resource)
    requires multiset(records) == multiset({r})
    ensures records == [r]
  {
    assert |records| == |multiset(records)| == 1;
    assert records[0] in multiset(records);
  }

  // ---- Counting the primaries of a listing ----

  function PrimariesAmong(nodes: seq<Node>, n: nat): set<string>
    requires n <= |nodes|
  {
    set i | 0 <= i < n && nodes[i].target.role == Primary :: nodes[i].name
  }

  lemma CountOneMore(nodes: seq<Node>, i: nat)
    requires i < |nodes| && forall a, b | 0 <= a < b < |nodes| :: nodes[a].name != nodes[b].name
    ensures |PrimariesAmong(nodes, i + 1)| == |PrimariesAmong(nodes, i)| + (if nodes[i].target.role == Primary then 1 else 0)
  {
    var name := nodes[i].name;
    if nodes[i].target.role == Primary {
      assert PrimariesAmong(nodes, i + 1) == PrimariesAmong(nodes, i) + {name};
    } else {
      assert PrimariesAmong(nodes, i + 1) == PrimariesAmong(nodes, i);
    }
  }

  /** A complete listing has the primaries, the inactive nodes and the size of the members it lists. */
  lemma ListingCounts(nodes: seq<Node>, m: Nodes)
    requires IsListing(nodes, m)
    ensures PrimariesAmong(nodes, |nodes|) == Primaries(m) && |nodes| == |m|
    ensures AllActive(m) <==> forall i | 0 <= i < |nodes| :: nodes[i].status == Active
  {
    ListingIsComplete(nodes, m);
    forall name | name in Primaries(m) ensures name in PrimariesAmong(nodes, |nodes|) {
      var j :| 0 <= j < |nodes| && nodes[j].name == name;
      assert nodes[j] == m[name];
    }
    if forall i | 0 <= i < |nodes| :: nodes[i].status == Active {
      forall name | name in m ensures m[name].status == Active {
        assert m[name] in nodes;
      }
    }
  }

  /** The scan of a listing: one pass that counts nodes and primaries and looks for an inactive node. */
  method Scan(nodes: seq<Node>, ghost m: Nodes) returns (activeNodes: nat, primaryNodes: nat, atLeastOneIsntActive: bool)
    requires IsListing(nodes, m)
    ensures activeNodes == |m| && primaryNodes == |Primaries(m)|
    ensures atLeastOneIsntActive <==> !AllActive(m)
  {
    activeNodes, primaryNodes, atLeastOneIsntActive := 0, 0, false;
    for i := 0 to |nodes|
      invariant activeNodes == i && primaryNodes == |PrimariesAmong(nodes, i)|
      invariant atLeastOneIsntActive <==> exists j :: 0 <= j < i && nodes[j].status != Active
    {
      CountOneMore(nodes, i);
      if nodes[i].target.role == Primary {
        primaryNodes := primaryNodes + 1;
      }
      if nodes[i].status != Active {
        atLeastOneIsntActive := true;
      }
      activeNodes := activeNodes + 1;
    }
    ListingCounts(nodes, m);
  }

  /** The guards behind the scan: which node to create next, if any. It does not depend on the order of the listing. */
  method Decide(c: Cluster, nodes: seq<Node>, ghost m: Nodes) returns (next: Option<Node>)
    requires IsListing(nodes, m)
    ensures next == NextNode(c, m)
  {
    if |nodes| == 0 {
      assert m == map[];
      return Some(NewPrimary(c));
    }
    var activeNodes, primaryNodes, atLeastOneIsntActive := Scan(nodes, m);
    if primaryNodes == 0 || primaryNodes > 1 {
      return None;
    }
    if atLeastOneIsntActive {
      return None;
    }
    if activeNodes < c.replicas {
      return Some(NewSecondary(c, activeNodes + 1));
    }
    next := None;
  }

  class ClusterController {
    const s: Storage

    constructor (s: Storage)
      ensures this.s == s
    {
      this.s := s;
    }

    /** Whatever order the listing comes in, the outcome is the same function of the stored nodes. */
    method ProcessNewCluster(c: Cluster) returns (r: ReconcileResult)
      requires s.Valid() && KnownKinds(s.Contents())
      modifies s
      ensures s.Valid() && !r.success
      ensures r.failed <==> HasBadNode(old(s.Contents()))
      ensures s.Contents() ==
              if r.failed then old(s.Contents())
              else PutNode(old(s.Contents()), NextNode(c, Members(NodesOf(old(s.Contents())), c.name)))
    {
      ghost var before := s.Contents();
      var listed := s.GetNodesByCluster(c.name);
      if listed.Err? {
        return FAILURE;
      }
      ghost var m := Members(NodesOf(before), c.name);
      var next := Decide(c, listed.value, m);
      assert s.Contents() == before;
      if next.Some? {
        CreateNode(s, next.value);
        assert next == Some(next.value);
        assert s.Contents() == PutNode(before, Some(next.value));
      }
      r := REQUEUE;
    }

    method Reconcile(resource: General) returns (r: ReconcileResult)
      requires s.Valid() && KnownKinds(s.Contents())
      modifies s
      ensures s.Valid() && KnownKinds(s.Contents()) && !r.success
      ensures r.failed <==>
              || ToCluster(old(ValueOf(resource))).Err?
              || (ToCluster(old(ValueOf(resource))).value.status == Creating && HasBadNode(old(s.Contents())))
      ensures r.failed ==> s.Contents() == old(s.Contents())
      ensures !r.failed ==>
                && ToCluster(old(ValueOf(resource))).Ok?
                && NodesOf(s.Contents()) == Atomic.Effect(ToCluster(old(ValueOf(resource))).value, NodesOf(old(s.Contents())), Atomic.ReconcileCluster)
    {
      var cluster := ToCluster(ValueOf(resource));
      if cluster.Err? {
        return FAILURE;
      }
      r := REQUEUE;
      if cluster.value.status == Creating {
        ghost var before := s.Contents();
        r := ProcessNewCluster(cluster.value);
        ghost var next := NextNode(cluster.value, Members(NodesOf(before), cluster.value.name));
        if !r.failed && next.Some? {
          PutNodeIsPut(before, s.Contents(), next.value);
        }
      }
    }
  }

  class NodeController {
    const s: Storage

    constructor (s: Storage)
      ensures this.s == s
    {
      this.s := s;
    }

    /** What a secondary's reconcile does to the store once it has listed `peers`; a bad record stops it before that. */
    static ghost predicate Gathered(n: Node, before: Table, after: Table, peers: seq<Node>)
      requires WellKeyed(before)
    {
      if HasBadNode(before) then after == before
      else IsListing(peers, Members(NodesOf(before), n.clusterName))
           && after == (match GatherPlan(n, peers) case Write(n') => UpdateResource(before, NodeResource(n')) case _ => before)
    }

    static lemma GatheredWrite(n: Node, before: Table, after: Table, peers: seq<Node>, w: Node)
      requires WellKeyed(before) && !HasBadNode(before) && IsListing(peers, Members(NodesOf(before), n.clusterName))
      requires GatherPlan(n, peers) == Write(w) && after == UpdateResource(before, NodeResource(w))
      ensures Gathered(n, before, after, peers)
    {
    }

    /** The secondary is to be told to join, but a record does not decode, or some listed node has no address. */
    static ghost predicate CannotGather(before: Table, peers: seq<Node>) {
      HasBadNode(before) || exists i :: 0 <= i < |peers| && peers[i].report.ip == ""
    }

    /** When a reconcile of the snapshot `n` ends with an error, given the listing it saw, if it made one. */
    static ghost predicate Fails(n: Node, before: Table, peers: seq<Node>) {
      && n.status == Creating && n.report.stamped
      && (|| n.target.role == InvalidRole
          || StorageKey(NODE_KIND, n.name) !in before
          || (n.target.role == Secondary && !(n.report.prepared && n.report.wsrep == WsrepPrimary) && CannotGather(before, peers)))
    }

    static lemma GatheredNothing(n: Node, before: Table, peers: seq<Node>)
      requires WellKeyed(before) && !HasBadNode(before) && IsListing(peers, Members(NodesOf(before), n.clusterName))
      requires exists i :: 0 <= i < |peers| && peers[i].report.ip == ""
      ensures Gathered(n, before, before, peers)
    {
      var i :| 0 <= i < |peers| && peers[i].report.ip == "";
      assert Addresses(peers)[i] == "";
    }

    /** What a reconcile of the snapshot `n` does to the store, given the listing it saw, if it made one. */
    static ghost predicate Outcome(n: Node, before: Table, after: Table, peers: seq<Node>)
      requires WellKeyed(before)
    {
      match NodePlan(n)
      case Write(n') => after == UpdateResource(before, NodeResource(n'))
      case Gather => Gathered(n, before, after, peers)
      case _ => after == before
    }

    method ProcessNewPrimary(n: Node) returns (r: ReconcileResult)
      requires s.Valid() && KnownKinds(s.Contents()) && n.target.role == Primary && n.status == Creating && n.report.stamped
      modifies s
      ensures s.Valid() && KnownKinds(s.Contents()) && r.success == (n.report.prepared && n.report.wsrep == WsrepPrimary)
      ensures r.failed <==> !r.success && StorageKey(NODE_KIND, n.name) !in old(s.Contents())
      ensures s.Contents() ==
              if Ready(n.report) then old(s.Contents()) else UpdateResource(old(s.Contents()), NodeResource(NodePlan(n).node))
    {
      if n.report.prepared && n.report.wsrep == WsrepPrimary {
        return ReconcileResult(true, false);
      }
      var state := n.(target := BOOTSTRAP_TARGET);
      var ok := UpdateNode(s, state);
      r := if ok then REQUEUE else FAILURE;
    }

    /** Gathers the addresses of all nodes of the cluster; one node without an address stops it. */
    method GatherAddresses(n: Node, nodes: seq<Node>) returns (ips: Option<seq<string>>)
      ensures ips.Some? <==> GatherPlan(n, nodes).Write?
      ensures ips.None? <==> exists i :: 0 <= i < |nodes| && nodes[i].report.ip == ""
      ensures ips.Some? ==> ips.value == Addresses(nodes)
    {
      var nodeIPs := [];
      for i := 0 to |nodes|
        invariant nodeIPs == Addresses(nodes)[..i] && "" !in nodeIPs
      {
        if nodes[i].report.ip == "" {
          assert Addresses(nodes)[i] == "";
          return None;
        }
        nodeIPs := nodeIPs + [nodes[i].report.ip];
      }
      assert Addresses(nodes)[..|nodes|] == Addresses(nodes);
      forall i | 0 <= i < |nodes| ensures nodes[i].report.ip != "" {
        assert Addresses(nodes)[i] in Addresses(nodes);
      }
      ips := Some(nodeIPs);
    }

    /** The write that tells a secondary to join the gathered addresses. */
    method JoinPeers(n: Node, ips: seq<string>, ghost peers: seq<Node>) returns (r: ReconcileResult)
      requires s.Valid() && KnownKinds(s.Contents()) && !HasBadNode(s.Contents())
      requires IsListing(peers, Members(NodesOf(s.Contents()), n.clusterName)) && GatherPlan(n, peers).Write? && ips == Addresses(peers)
      modifies s
      ensures s.Valid() && KnownKinds(s.Contents()) && !r.success
      ensures r.failed <==> StorageKey(NODE_KIND, n.name) !in old(s.Contents())
      ensures Gathered(n, old(s.Contents()), s.Contents(), peers)
    {
      ghost var before := s.Contents();
      var joining := n.(target := n.target.(addresses := ips, mariadbStarted := true, galeraNewCluster := false));
      var ok := UpdateNode(s, joining);
      GatheredWrite(n, before, s.Contents(), peers, joining);
      r := if ok then REQUEUE else FAILURE;
    }

    method JoinListed(n: Node, peers: seq<Node>) returns (r: ReconcileResult)
      requires s.Valid() && KnownKinds(s.Contents()) && !HasBadNode(s.Contents())
      requires IsListing(peers, Members(NodesOf(s.Contents()), n.clusterName))
      modifies s
      ensures s.Valid() && KnownKinds(s.Contents()) && !r.success
      ensures r.failed <==> CannotGather(old(s.Contents()), peers) || StorageKey(NODE_KIND, n.name) !in old(s.Contents())
      ensures Gathered(n, old(s.Contents()), s.Contents(), peers)
    {
      ghost var before := s.Contents();
      var ips := GatherAddresses(n, peers);
      assert s.Contents() == before;
      if ips.None? {
        GatheredNothing(n, before, peers);
        return FAILURE;
      }
      r := JoinPeers(n, ips.value, peers);
    }

    /** The part of a secondary's reconcile that lists its peers and tells the node to join them. */
    method GatherPeers(n: Node) returns (r: ReconcileResult, ghost peers: seq<Node>)
      requires s.Valid() && KnownKinds(s.Contents())
      modifies s
      ensures s.Valid() && KnownKinds(s.Contents()) && !r.success
      ensures r.failed <==> CannotGather(old(s.Contents()), peers) || StorageKey(NODE_KIND, n.name) !in old(s.Contents())
      ensures Gathered(n, old(s.Contents()), s.Contents(), peers)
    {
      ghost var before := s.Contents();
      r, peers := FAILURE, [];
      var listed := s.GetNodesByCluster(n.clusterName);
      assert s.Contents() == before;
      if listed.Ok? {
        peers := listed.value;
        r := JoinListed(n, listed.value);
      }
    }

    method ProcessNewSecondary(n: Node) returns (r: ReconcileResult, ghost peers: seq<Node>)
      requires s.Valid() && KnownKinds(s.Contents()) && n.target.role == Secondary
      modifies s
      ensures s.Valid() && KnownKinds(s.Contents()) && r.success == (n.report.prepared && n.report.wsrep == WsrepPrimary)
      ensures r.failed <==> !r.success && (CannotGather(old(s.Contents()), peers) || StorageKey(NODE_KIND, n.name) !in old(s.Contents()))
      ensures if Ready(n.report) then s.Contents() == old(s.Contents()) else Gathered(n, old(s.Contents()), s.Contents(), peers)
    {
      if n.report.prepared && n.report.wsrep == WsrepPrimary {
        return ReconcileResult(true, false), [];
      }
      r, peers := GatherPeers(n);
    }

    /** finalize: after success a node that is being created becomes ACTIVE, as the snapshot has it. */
    method Activate(n: Node) returns (r: ReconcileResult)
      requires s.Valid() && KnownKinds(s.Contents())
      modifies s
      ensures s.Valid() && KnownKinds(s.Contents()) && r.success
      ensures r.failed <==> n.status == Creating && StorageKey(NODE_KIND, n.name) !in old(s.Contents())
      ensures s.Contents() == if n.status == Creating then UpdateResource(old(s.Contents()), NodeResource(n.(status := Active))) else old(s.Contents())
    {
      var newStatus := n.status;
      if n.status == Creating {
        newStatus := Active;
      }
      if newStatus == n.status {
        return ReconcileResult(true, false);
      }
      var ok := UpdateNode(s, n.(status := newStatus));
      r := ReconcileResult(true, !ok);
    }

    method Reconcile(resource: General) returns (r: ReconcileResult, ghost peers: seq<Node>)
      requires s.Valid() && KnownKinds(s.Contents())
      modifies s
      ensures s.Valid() && KnownKinds(s.Contents())
      ensures match ToNode(old(ValueOf(resource)))
              case Err => r == FAILURE && s.Contents() == old(s.Contents())
              case Ok(n) => Outcome(n, old(s.Contents()), s.Contents(), peers)
                            && (r.success <==> n.status == Creating && n.report.stamped && n.target.role != InvalidRole
                                               && n.report.prepared && n.report.wsrep == WsrepPrimary)
                            && (r.failed <==> Fails(n, old(s.Contents()), peers))
    {
      peers := [];
      var node := ToNode(ValueOf(resource));
      if node.Err? {
        return FAILURE, peers;
      }
      var n := node.value;
      r := REQUEUE;
      if n.status == Creating {
        if !n.report.stamped {
          return REQUEUE, peers;
        }
        match n.target.role {
          case Primary => r := ProcessNewPrimary(n);
          case Secondary => r, peers := ProcessNewSecondary(n);
          case InvalidRole => r := FAILURE;
        }
      }
      if !r.success {
        return;
      }
      r := Activate(n);
    }

    /** On a fresh snapshot this is the atomic model's action. */
    lemma FreshOutcomeIsAtomic(c: Cluster, n: Node, before: Table, after: Table, peers: seq<Node>)
      requires WellKeyed(before) && KnownKinds(before) && !HasBadNode(before)
      requires n.name in NodesOf(before) && NodesOf(before)[n.name] == n && Outcome(n, before, after, peers)
      ensures WellKeyed(after) && NodesOf(after) == Atomic.Effect(c, NodesOf(before), Atomic.ReconcileNode(n.name, peers))
    {
      NodesAreKeyed(before, n.name);
      var w := Atomic.NodeWrite(n, peers);
      if w.Some? {
        PutNodeIsPut(before, after, w.value);
      }
    }
  }

  /** One node holds, with a timestamp, what was received; everything else is as it was. */
  ghost predicate Heard(nodes: Nodes, nodes': Nodes, r: Report) {
    && r.name in nodes && nodes'.Keys == nodes.Keys
    && (forall x | x in nodes && x != r.name :: nodes'[x] == nodes[x])
    && var n, m := nodes[r.name], nodes'[r.name];
       && m.name == n.name && m.clusterName == n.clusterName && m.image == n.image && m.status == n.status && m.target == n.target
       && m.report.stamped && m.report.name == r.name && m.report.ip == r.ip
       && m.report.prepared == r.prepared && m.report.mariadb == r.mariadb && m.report.wsrep == r.wsrep
  }

  lemma PutIsHeard(nodes: Nodes, r: Report)
    requires r.name in nodes
    ensures Heard(nodes, nodes[r.name := WithReport(nodes[r.name], r)], r)
  {
    assert nodes[r.name := WithReport(nodes[r.name], r)].Keys == nodes.Keys;
  }

  class Server {
    const storage: Storage

    constructor (storage: Storage)
      ensures this.storage == storage
    {
      this.storage := storage;
    }

    /**
     * No error branch of the handler returns. Yet a heartbeat for a name that is empty, absent or of a record that
     * does not decode changes nothing, and any other changes only the report of its node.
     */
    method HandleHeartbeat(req: Option<Report>)
      requires storage.Valid() && KnownKinds(storage.Contents())
      modifies storage
      ensures storage.Valid() && KnownKinds(storage.Contents())
      ensures var nodes := NodesOf(old(storage.Contents()));
              if req.Some? && req.value.name != "" && req.value.name in nodes
              then storage.Contents() == PutNode(old(storage.Contents()), Some(WithReport(nodes[req.value.name], req.value)))
                   && NodesOf(storage.Contents()) == nodes[req.value.name := WithReport(nodes[req.value.name], req.value)]
              else storage.Contents() == old(storage.Contents())
      ensures req.Some? && req.value.name != "" && req.value.name in NodesOf(old(storage.Contents())) ==>
                Heard(NodesOf(old(storage.Contents())), NodesOf(storage.Contents()), req.value)
    {
      if req.None? {
        return;
      }
      ghost var before := storage.Contents();
      var report := req.value.(stamped := true);
      var node, kind := LookUp(report.name);
      node := node.(report := report);
      var spec := new RawMessage(NodeResource(node).doc);
      assert storage.Contents() == before;
      ZeroKeyIsFree(before);
      if kind == NODE_KIND {
        PutNodeIsPut(before, PutNode(before, Some(node)), node);
        PutIsHeard(NodesOf(before), req.value);
      }
      var _ := storage.UpdateGeneralResource(General(kind, node.name, spec));
    }

    /** The node of that name. The zero record, without kind or name, stands in for what cannot be read or decoded. */
    method LookUp(name: string) returns (node: Node, kind: string)
      requires storage.Valid() && KnownKinds(storage.Contents())
      ensures if name != "" && name in NodesOf(storage.Contents())
              then kind == NODE_KIND && node == NodesOf(storage.Contents())[name] && node.name == name
                   && StorageKey(NODE_KIND, name) in storage.Contents()
              else kind == "" && node.name == ""
    {
      NodesAreKeyed(storage.Contents(), name);
      node, kind := Node("", "", "", Unset, Target(false, false, false, InvalidRole, []), NO_REPORT), "";
      var found := storage.GetGeneralResource(name, NODE_KIND);
      if found.Ok? {
        var decoded := ToNode(ValueOf(found.value));
        if decoded.Ok? {
          node, kind := decoded.value, NODE_KIND;
        }
      }
    }

    method HandleTargetState(name: string) returns (r: Result<Target>)
      requires storage.Valid() && KnownKinds(storage.Contents())
      ensures var nodes := NodesOf(storage.Contents());
              r == if name != "" && name in nodes then Ok(nodes[name].target) else Err
    {
      NodesAreKeyed(storage.Contents(), name);
      if name == "" {
        return Err;
      }
      var found := storage.GetGeneralResource(name, NODE_KIND);
      if found.Err? || found.value.name == "" {
        return Err;
      }
      var node := ToNode(ValueOf(found.value));
      if node.Err? {
        return Err;
      }
      r := Ok(node.value.target);
    }
  }

  /** No stored record has the key of the zero record. */
  lemma ZeroKeyIsFree(c: Table)
    requires WellKeyed(c) && KnownKinds(c)
    ensures StorageKey("", "") !in c
  {
    forall key | key in c ensures key != StorageKey("", "") {
      StorageKeyInjective(c[key].kind, c[key].name, "", "");
    }
  }

  /** Init: the cluster and its first node, which is the seed the protocol starts from. */
  method InitStorage(s: Storage, cluster: Cluster)
    requires s.Valid() && s.Contents() == map[]
    modifies s
    ensures s.Valid() && KnownKinds(s.Contents())
    ensures NodesOf(s.Contents()) == map[NodeName(1) := Protocol.Seed(Protocol.Config(cluster, true))]
    ensures exists r :: OfKind(s.Contents(), "Galera") == {r} && r.name == cluster.name && ToCluster(r) == Ok(cluster)
  {
    var spec := new RawMessage(ClusterResource(cluster).doc);
    assert s.Contents() == map[];
    s.CreateResource(General(CLUSTER_KIND, cluster.name, spec));
    ghost var one := s.Contents();
    OnlyCluster(cluster, one);
    CreateNode(s, FirstNode(cluster));
    PutNodeIsPut(one, s.Contents(), FirstNode(cluster));
    OneClusterRecord(cluster, one, s.Contents());
  }

  method NewStorage() returns (s: Storage, ghost c: Cluster)
    ensures fresh(s) && s.Valid() && KnownKinds(s.Contents())
    ensures c == Cluster("my-galera-cluster", "mariadb-op:latest", 3, Creating)
    ensures NodesOf(s.Contents()) == map["node-1" := Protocol.Seed(Protocol.Config(c, true))]
    ensures exists r :: OfKind(s.Contents(), "Galera") == {r} && r.name == c.name && ToCluster(r) == Ok(c)
  {
    s := new Storage.Empty();
    var cluster := Cluster("my-galera-cluster", "mariadb-op:latest", 3, Creating);
    InitStorage(s, cluster);
    c := cluster;
    assert NodeName(1) == "node-1";
  }

  /** The first iteration of the cluster controller finds that one cluster to reconcile. */
  method FirstResources(s: Storage, ghost c: Cluster) returns (resources: seq<General>)
    requires s.Valid() && exists r :: OfKind(s.Contents(), "Galera") == {r} && ToCluster(r) == Ok(c)
    ensures |resources| == 1 && fresh(resources[0].spec) && ToCluster(ValueOf(resources[0])) == Ok(c)
  {
    ghost var r :| OfKind(s.Contents(), "Galera") == {r} && ToCluster(r) == Ok(c);
    ghost var records;
    resources, records := GetResources(s, CLUSTER_KIND);
    ListingOfOne(records, r);
  }

  lemma OneClusterRecord(c: Cluster, one: Table, table: Table)
    requires one == map[][KeyOf(ClusterResource(c)) := ClusterResource(c)] && table == PutNode(one, Some(FirstNode(c)))
    ensures OfKind(table, "Galera") == {ClusterResource(c)}
    ensures ClusterResource(c).name == c.name && ToCluster(ClusterResource(c)) == Ok(c)
  {
    assert CLUSTER_KIND[0] != NODE_KIND[0];
    var r, n := ClusterResource(c), NodeResource(FirstNode(c));
    StorageKeyInjective(CLUSTER_KIND, c.name, NODE_KIND, "node-1");
    assert KeyOf(r) != KeyOf(n) && KeyOf(r) in table && table[KeyOf(r)] == r;
  }

  lemma OnlyCluster(c: Cluster, table: Table)
    requires table == map[][KeyOf(ClusterResource(c)) := ClusterResource(c)]
    ensures WellKeyed(table) && KnownKinds(table) && !HasBadNode(table) && NodesOf(table) == map[]
  {
    assert CLUSTER_KIND[0] != NODE_KIND[0];
  }

  function FirstNode(c: Cluster): (n: Node)
    ensures n == Protocol.Seed(Protocol.Config(c, true))
  {
    assert NodeName(1) == "node-1";
    Node("node-1", c.name, c.image, Creating, BOOTSTRAP_TARGET, NO_REPORT)
  }
}
