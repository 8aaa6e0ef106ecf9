/**
 * The node life cycle as a step machine. Every storage call is one atomic step; between its calls a handler
 * is an operation in flight that holds a private snapshot or a pending write. Any number of operations can be
 * in flight, in any order, and messages can be lost.
 */
module Protocol {
  import opened Entities
  import opened Names
  import opened ControlPlane

  /** `seeded` says whether the store starts with the primary `node-1`, or with no node at all. */
  datatype Config = Config(cluster: Cluster, seeded: bool)

  datatype Op =
    | PendingCreate(node: Node)                    // the cluster controller has scanned and will create
    | Held(node: Node)                             // a reconcile of a node was launched with this snapshot
    | PendingUpdate(node: Node)                    // the node controller will write this record
    | Sent(report: Report)                         // a heartbeat on its way to the control plane
    | PendingReport(node: Node)                    // the heartbeat handler has read and will write
    | Delivered(name: string, target: Target)      // a target state on its way to an agent
    | Launching(name: string, newCluster: bool, addresses: seq<string>)  // the agent will run its database
    | Touching(name: string)                       // the run succeeded, the prepared flag is not yet touched

  /** The history. It has no influence on the steps. */
  datatype Event =
    | Scanned(members: Nodes)
    | Created(name: string)
    | Told(report: Report)                         // an agent has sent this heartbeat
    | Accepted(report: Report)                     // this report has been written to the store
    | Bootstrapped(name: string)                   // a database was started with `--wsrep-new-cluster`
    | Joined(name: string, addresses: seq<string>) // a database was started without it
    | Flagged(name: string)

  /** `flags` holds the names of the agents whose prepared flag exists. */
  datatype State = State(store: Nodes, ops: multiset<Op>, flags: set<string>, log: seq<Event>)

  datatype Step =
    | ScanCluster
    | CommitCreate(created: Node)
    | TakeSnapshot(name: string)
    | PlanNode(held: Node)
    | GatherPeers(held: Node, peers: seq<Node>)
    | CommitUpdate(updated: Node)
    | SendReport(report: Report)
    | ReceiveReport(report: Report)
    | CommitReport(updated: Node)
    | FetchTarget(name: string)
    | HandleTarget(name: string, target: Target)
    | Start(name: string, newCluster: bool, addresses: seq<string>)
    | Touch(name: string)
    | Lose(op: Op)

  function Seed(c: Config): Node {
    Node(NodeName(1), c.cluster.name, c.cluster.image, Creating, BOOTSTRAP_TARGET, NO_REPORT)
  }

  ghost predicate Init(c: Config, s: State) {
    && s.store == (if c.seeded then map[NodeName(1) := Seed(c)] else map[])
    && s.ops == multiset{} && s.flags == {} && s.log == []
  }

  predicate Bootstraps(t: Target) {
    t.galeraNewCluster && t.role == Primary
  }

  predicate Joins(t: Target) {
    !Bootstraps(t) && t.mariadbStarted && t.role == Secondary
  }

  function Done(s: State, op: Op): State {
    s.(ops := s.ops - multiset{op})
  }

  function With(s: State, op: Op): State {
    s.(ops := s.ops + multiset{op})
  }

  function Note(s: State, e: Event): State {
    s.(log := s.log + [e])
  }

  /** Whether the step can be taken in this state. */
  ghost predicate Enabled(c: Config, s: State, step: Step) {
    match step
    case ScanCluster => true
    case CommitCreate(n) => PendingCreate(n) in s.ops
    case TakeSnapshot(name) => name in s.store
    case PlanNode(n) => Held(n) in s.ops && NodePlan(n).Write?
    case GatherPeers(n, peers) =>
      Held(n) in s.ops && NodePlan(n).Gather? && IsListing(peers, Members(s.store, n.clusterName)) && GatherPlan(n, peers).Write?
    case CommitUpdate(n) => PendingUpdate(n) in s.ops
    // An honest agent reports the flag only when the file exists.
    case SendReport(r) => r.prepared ==> r.name in s.flags
    case ReceiveReport(r) => Sent(r) in s.ops && r.name in s.store
    case CommitReport(n) => PendingReport(n) in s.ops
    case FetchTarget(name) => name in s.store
    case HandleTarget(name, t) => Delivered(name, t) in s.ops && (Bootstraps(t) || Joins(t))
    case Start(name, newCluster, addresses) => Launching(name, newCluster, addresses) in s.ops
    case Touch(name) => Touching(name) in s.ops
    // A handler that stops early, a failed start, a lost message, a crashed agent.
    case Lose(op) => op in s.ops
  }

  ghost function After(c: Config, s: State, step: Step): State
    requires Enabled(c, s, step)
  {
    match step
    case ScanCluster =>
      var members := Members(s.store, c.cluster.name);
      var s' := Note(s, Scanned(members));
      (match ClusterPlan(c.cluster, members)
       case None => s'
       case Some(n) => With(s', PendingCreate(n)))
    case CommitCreate(n) =>
      Note(Done(s, PendingCreate(n)), Created(n.name)).(store := s.store[n.name := n])
    case TakeSnapshot(name) => With(s, Held(s.store[name]))
    case PlanNode(n) => With(Done(s, Held(n)), PendingUpdate(NodePlan(n).node))
    case GatherPeers(n, peers) => With(Done(s, Held(n)), PendingUpdate(GatherPlan(n, peers).node))
    case CommitUpdate(n) => Done(s, PendingUpdate(n)).(store := Update(s.store, n))
    case SendReport(r) => With(Note(s, Told(r)), Sent(r))
    case ReceiveReport(r) => With(Done(s, Sent(r)), PendingReport(WithReport(s.store[r.name], r)))
    case CommitReport(n) => Note(Done(s, PendingReport(n)), Accepted(n.report)).(store := Update(s.store, n))
    case FetchTarget(name) => With(s, Delivered(name, s.store[name].target))
    case HandleTarget(name, t) => With(Done(s, Delivered(name, t)), Launching(name, Bootstraps(t), t.addresses))
    case Start(name, newCluster, addresses) =>
      With(Note(Done(s, Launching(name, newCluster, addresses)), if newCluster then Bootstrapped(name) else Joined(name, addresses)),
           Touching(name))
    case Touch(name) => Note(Done(s, Touching(name)), Flagged(name)).(flags := s.flags + {name})
    case Lose(op) => Done(s, op)
  }

  ghost predicate Next(c: Config, s: State, s': State) {
    exists step: Step :: Enabled(c, s, step) && s' == After(c, s, step)
  }

  ghost predicate IsRun(c: Config, run: seq<State>) {
    && run != [] && Init(c, run[0])
    && forall i, j | 0 <= i < j < |run| && j == i + 1 :: Next(c, run[i], run[j])
  }

  // ---- What a history can justify ----

  function PrimaryName(c: Config): string {
    if c.seeded then NodeName(1) else FirstNodeName(c.cluster.name)
  }

  /** The most nodes a seeded cluster can ever have. Only a cluster that is being created gets more than its first. */
  function Capacity(c: Config): nat {
    if c.cluster.status == Creating && c.cluster.replicas > 1 then c.cluster.replicas else 1
  }

  /** The names a node of the cluster can ever have. */
  ghost function MemberNames(c: Config): set<string> {
    if c.seeded then Numbered(Capacity(c)) else {PrimaryName(c)}
  }

  function RoleOf(c: Config, name: string): Role {
    if name == PrimaryName(c) then Primary else Secondary
  }

  /** The stored report says what the agent has sent; it only has a timestamp. */
  predicate SameFacts(sent: Report, stored: Report) {
    && stored.stamped && stored.name == sent.name && stored.ip == sent.ip
    && stored.prepared == sent.prepared && stored.mariadb == sent.mariadb && stored.wsrep == sent.wsrep
  }

  /** Some agent has sent what this report says. */
  ghost predicate WasTold(log: seq<Event>, stored: Report) {
    exists sent: Report :: Told(sent) in log && SameFacts(sent, stored)
  }

  ghost predicate SeenReady(log: seq<Event>, name: string) {
    exists r: Report :: Accepted(r) in log && r.name == name && Ready(r)
  }

  /** A scan found exactly the first `k` numbered nodes, all of them ACTIVE. */
  ghost predicate SeenActive(log: seq<Event>, k: nat) {
    exists m: Nodes :: Scanned(m) in log && m.Keys == Numbered(k) && AllActive(m)
  }

  /** The first primary, or a node that was created before. */
  predicate Introduced(c: Config, log: seq<Event>, name: string) {
    name == PrimaryName(c) || Created(name) in log
  }

  ghost predicate Reported(c: Config, log: seq<Event>, address: string) {
    exists r: Report :: Accepted(r) in log && r.ip == address && Introduced(c, log, r.name)
  }

  ghost predicate PrimaryReported(c: Config, log: seq<Event>, addresses: seq<string>) {
    exists r: Report :: Accepted(r) in log && r.name == PrimaryName(c) && r.ip in addresses
  }

  /** At least two addresses, all real, each reported by a node of the cluster, one of them by the primary. */
  ghost predicate JoinTarget(c: Config, log: seq<Event>, addresses: seq<string>) {
    && |addresses| >= 2
    && (forall i | 0 <= i < |addresses| :: addresses[i] != "" && Reported(c, log, addresses[i]))
    && PrimaryReported(c, log, addresses)
  }

  ghost predicate CreationSeen(c: Config, log: seq<Event>, name: string) {
    if name == PrimaryName(c) then !c.seeded && Scanned(map[]) in log
    else exists k :: 1 <= k < c.cluster.replicas && name == NodeName(k + 1) && SeenActive(log, k)
  }

  ghost predicate SomeJoin(log: seq<Event>, name: string) {
    exists addresses: seq<string> :: Joined(name, addresses) in log
  }

  /** Whether the events before it account for this event. */
  ghost predicate Justified(c: Config, before: seq<Event>, e: Event) {
    match e
    case Scanned(m) => forall name | name in m && m[name].status == Active :: SeenReady(before, name)
    case Created(name) => name in MemberNames(c) && CreationSeen(c, before, name)
    case Told(r) => r.prepared ==> Flagged(r.name) in before
    case Accepted(r) => r.name in MemberNames(c) && Introduced(c, before, r.name) && WasTold(before, r)
    case Bootstrapped(name) => name == PrimaryName(c)
    case Joined(name, addresses) =>
      name != PrimaryName(c) && Created(name) in before && JoinTarget(c, before, addresses)
    case Flagged(name) => if name == PrimaryName(c) then Bootstrapped(name) in before else SomeJoin(before, name)
  }

  ghost predicate Causal(c: Config, log: seq<Event>) {
    forall i | 0 <= i < |log| :: Justified(c, log[..i], log[i])
  }

  // ---- The inductive invariant ----

  /** What records and operations refer to. It only grows. */
  datatype Knowledge = Knowledge(log: seq<Event>, keys: set<string>)

  function Known(s: State): Knowledge {
    Knowledge(s.log, s.store.Keys)
  }

  ghost predicate Grows(k: Knowledge, k': Knowledge) {
    k.log <= k'.log && k.keys <= k'.keys
  }

  /** The parts of a record that no handler ever changes. */
  ghost predicate Identity(c: Config, n: Node) {
    && n.name in MemberNames(c)
    && n.clusterName == c.cluster.name && n.image == c.cluster.image && n.target.gatherHB
    && n.target.role == RoleOf(c, n.name)
    && (n.target.galeraNewCluster <==> n.target.role == Primary)
    && (n.name == PrimaryName(c) ==> n.target == BOOTSTRAP_TARGET)
  }

  ghost predicate StatusOk(c: Config, k: Knowledge, n: Node) {
    && (if c.seeded then n.status == Creating || n.status == Active else n.status == Unset)
    && (n.status == Active ==> SeenReady(k.log, n.name))
  }

  ghost predicate TargetOk(c: Config, k: Knowledge, t: Target) {
    t.role == Secondary && t.mariadbStarted ==> JoinTarget(c, k.log, t.addresses)
  }

  ghost predicate Exists(c: Config, k: Knowledge, name: string) {
    name in k.keys && (name != PrimaryName(c) ==> Created(name) in k.log)
  }

  /** Everything about a record except its report. */
  ghost predicate BodyOk(c: Config, k: Knowledge, n: Node) {
    Identity(c, n) && StatusOk(c, k, n) && TargetOk(c, k, n.target) && Exists(c, k, n.name)
  }

  ghost predicate RecordOk(c: Config, k: Knowledge, n: Node) {
    BodyOk(c, k, n) && (n.report == NO_REPORT || (n.report.name == n.name && Accepted(n.report) in k.log))
  }

  ghost predicate CreateOk(c: Config, k: Knowledge, n: Node) {
    if c.seeded
    then c.cluster.status == Creating
         && exists j :: 1 <= j <= |k.keys| && j < c.cluster.replicas && n == NewSecondary(c.cluster, j + 1) && SeenActive(k.log, j)
    else n == NewPrimary(c.cluster) && Scanned(map[]) in k.log
  }

  ghost predicate OpOk(c: Config, k: Knowledge, op: Op) {
    match op
    case PendingCreate(n) => CreateOk(c, k, n)
    case Held(n) => RecordOk(c, k, n)
    case PendingUpdate(n) => RecordOk(c, k, n) && Accepted(n.report) in k.log
    case Sent(r) => Told(r) in k.log
    case PendingReport(n) => BodyOk(c, k, n) && n.report.name == n.name && WasTold(k.log, n.report)
    case Delivered(name, t) =>
      t.role == RoleOf(c, name) && (t.galeraNewCluster <==> t.role == Primary) && TargetOk(c, k, t) && Exists(c, k, name)
      && (name == PrimaryName(c) ==> t == BOOTSTRAP_TARGET)
    case Launching(name, newCluster, addresses) =>
      && (newCluster <==> name == PrimaryName(c))
      && (!newCluster ==> Created(name) in k.log && JoinTarget(c, k.log, addresses))
    case Touching(name) => if name == PrimaryName(c) then Bootstrapped(name) in k.log else SomeJoin(k.log, name)
  }

  ghost predicate Shape(c: Config, store: Nodes) {
    if c.seeded then 1 <= |store| <= Capacity(c) && store.Keys == Numbered(|store|) else store.Keys <= {PrimaryName(c)}
  }

  ghost predicate Inv(c: Config, s: State) {
    && Shape(c, s.store)
    && (forall name | name in s.store :: s.store[name].name == name && RecordOk(c, Known(s), s.store[name]))
    && (forall op | op in s.ops :: OpOk(c, Known(s), op))
    && (forall name | name in s.flags :: Flagged(name) in s.log)
    && Causal(c, s.log)
  }
}
