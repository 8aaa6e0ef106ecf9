/** What the two controllers and the heartbeat handler decide, as functions of the records they have read. */
module ControlPlane {
  import opened Entities
  import opened Names

  /** The node records of the store, by name. */
  type Nodes = map<string, Node>

  function Members(store: Nodes, cluster: string): Nodes {
    map name | name in store && store[name].clusterName == cluster :: store[name]
  }

  // ---- internal/controller/cluster ----

  function NewPrimary(c: Cluster): Node {
    Node(FirstNodeName(c.name), c.name, c.image, Unset, BOOTSTRAP_TARGET, NO_REPORT)
  }

  function NewSecondary(c: Cluster, k: nat): Node {
    Node(NodeName(k), c.name, c.image, Creating, IDLE_SECONDARY_TARGET, NO_REPORT)
  }

  function Primaries(m: Nodes): set<string> {
    set name | name in m && m[name].target.role == Primary
  }

  predicate AllActive(m: Nodes) {
    forall name | name in m :: m[name].status == Active
  }

  /** The node, if any, that a new cluster gets next when `m` are its members. */
  function NextNode(c: Cluster, m: Nodes): Option<Node> {
    if m == map[] then Some(NewPrimary(c))
    else if |Primaries(m)| == 1 && AllActive(m) && |m| < c.replicas then Some(NewSecondary(c, |m| + 1))
    else None
  }

  /** The node, if any, that a reconcile of the cluster creates after it has read the members `m`. */
  function ClusterPlan(c: Cluster, m: Nodes): Option<Node> {
    if c.status == Creating then NextNode(c, m) else None
  }

  /**
   * When a cluster that is being created gets a node: its first one if it has none, and another one if it has exactly one
   * primary, all its nodes are ACTIVE and there are fewer than asked for.
   */
  lemma CreatesIff(c: Cluster, m: Nodes)
    ensures ClusterPlan(c, m).Some? <==>
              && c.status == Creating
              && (m == map[] || (
                    && (exists p :: p in m && m[p].target.role == Primary && forall q | q in m && m[q].target.role == Primary :: q == p)
                    && (forall name | name in m :: m[name].status == Active)
                    && |m| < c.replicas))
    ensures ClusterPlan(c, m).Some? ==>
              ClusterPlan(c, m).value.name == if m == map[] then c.name + "-node-0" else "node-" + Decimal(|m| + 1)
  {
    if m != map[] {
      OnePrimaryIff(m);
    }
    FormatsReadBack(c.name, "", "");
  }

  lemma OnePrimaryIff(m: Nodes)
    ensures |Primaries(m)| == 1 <==>
            exists p :: p in m && m[p].target.role == Primary && forall q | q in m && m[q].target.role == Primary :: q == p
  {
    if |Primaries(m)| == 1 {
      var p :| p in Primaries(m);
      assert |Primaries(m) - {p}| == 0;
      forall q | q in m && m[q].target.role == Primary ensures q == p {
        assert q in Primaries(m);
      }
    }
    if p :| p in m && m[p].target.role == Primary && forall q | q in m && m[q].target.role == Primary :: q == p {
      assert Primaries(m) == {p};
    }
  }

  // ---- internal/controller/node ----

  /** What a reconcile of a node does with its snapshot: nothing, fail, write a record, or list its peers first. */
  datatype Plan = Idle | Reject | Write(node: Node) | Gather

  function NodePlan(n: Node): Plan {
    if n.status != Creating || !n.report.stamped then Idle
    else match n.target.role
      case Primary =>
        Write(if Ready(n.report) then n.(status := Active) else n.(target := BOOTSTRAP_TARGET))
      case Secondary =>
        if Ready(n.report) then Write(n.(status := Active)) else Gather
      case InvalidRole => Reject
  }

  function Addresses(peers: seq<Node>): seq<string> {
    seq(|peers|, i requires 0 <= i < |peers| => peers[i].report.ip)
  }

  /** The second half of a secondary's reconcile, once it has listed the nodes of its cluster. */
  function GatherPlan(n: Node, peers: seq<Node>): Plan {
    if "" in Addresses(peers) then Reject
    else Write(n.(target := n.target.(addresses := Addresses(peers), mariadbStarted := true, galeraNewCluster := false)))
  }

  /** The members `m`, each exactly once, in the order in which the store's map happened to be iterated. */
  ghost predicate IsListing(peers: seq<Node>, m: Nodes) {
    && |peers| == |m|
    && (forall i | 0 <= i < |peers| :: peers[i].name in m && m[peers[i].name] == peers[i])
    && (forall i, j | 0 <= i < j < |peers| :: peers[i].name != peers[j].name)
  }

  // ---- internal/state-api and the store ----

  /** A full-record update: it replaces an existing record and fails on a missing one. */
  function Update(store: Nodes, n: Node): Nodes {
    if n.name in store then store[n.name := n] else store
  }

  /** The record a heartbeat writes back: the received report replaces the old one and is stamped on arrival. */
  function WithReport(n: Node, r: Report): Node {
    n.(report := r.(stamped := true))
  }

  // ---- Listings ----

  function NamesOf(peers: seq<Node>): set<string> {
    set i | 0 <= i < |peers| :: peers[i].name
  }

  /** A duplicate-free listing names as many nodes as it has entries. */
  lemma {:induction false} DistinctNames(peers: seq<Node>)
    requires forall i, j | 0 <= i < j < |peers| :: peers[i].name != peers[j].name
    ensures |NamesOf(peers)| == |peers|
  {
    if peers != [] {
      var rest := peers[..|peers| - 1];
      DistinctNames(rest);
      assert NamesOf(peers) == NamesOf(rest) + {peers[|peers| - 1].name};
    }
  }

  lemma SubsetOfSameSize<T>(a: set<T>, b: set<T>)
    requires a <= b && |a| == |b|
    ensures a == b
  {
    assert b == a + (b - a);
    assert |b - a| == 0;
  }

  /** A listing leaves no member out. */
  lemma ListingIsComplete(peers: seq<Node>, m: Nodes)
    requires IsListing(peers, m)
    ensures NamesOf(peers) == m.Keys
    ensures forall name | name in m :: m[name] in peers
  {
    DistinctNames(peers);
    SubsetOfSameSize(NamesOf(peers), m.Keys);
    forall name | name in m ensures m[name] in peers {
      assert name in NamesOf(peers);
    }
  }

  /** Any two listings of the same members are permutations of each other. */
  lemma ListingsArePermutations(a: seq<Node>, b: seq<Node>, m: Nodes)
    requires IsListing(a, m) && IsListing(b, m)
    ensures multiset(a) == multiset(b)
  {
    ListingCount(a, m);
    ListingCount(b, m);
    forall n: Node ensures multiset(a)[n] == multiset(b)[n] {
    }
  }

  lemma ListingCount(a: seq<Node>, m: Nodes)
    requires IsListing(a, m)
    ensures forall n: Node :: multiset(a)[n] == if n.name in m && m[n.name] == n then 1 else 0
  {
    ListingIsComplete(a, m);
    forall n: Node ensures multiset(a)[n] == if n.name in m && m[n.name] == n then 1 else 0 {
      CountOnce(a, n);
    }
  }

  lemma {:induction false} CountOnce(a: seq<Node>, n: Node)
    requires forall i, j | 0 <= i < j < |a| :: a[i].name != a[j].name
    ensures multiset(a)[n] == if n in a then 1 else 0
  {
    if a != [] {
      var rest := a[..|a| - 1];
      assert a == rest + [a[|a| - 1]];
      CountOnce(rest, n);
    }
  }
}
