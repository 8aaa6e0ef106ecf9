/** What the invariant says about every run of the protocol. */
module ProtocolTheorems {
  import opened Entities
  import opened Names
  import opened ControlPlane
  import opened Protocol
  import opened ProtocolInvariant

  // ---- Causal order ----

  /** Where an event that is accounted for by a history occurs in it. */
  lemma Occurs(log: seq<Event>, e: Event) returns (i: nat)
    requires e in log
    ensures i < |log| && log[i] == e
  {
    i :| 0 <= i < |log| && log[i] == e;
  }

  /** The events that must precede the start of a secondary's database at position `j`, in this order. */
  ghost predicate Chain(c: Config, log: seq<Event>, b: nat, f: nat, t: nat, a: nat, s: nat, k: nat, j: nat) {
    && b < f < t < a < s < k < j < |log|
    && log[b] == Bootstrapped(PrimaryName(c))
    && log[f] == Flagged(PrimaryName(c))
    && log[t].Told? && log[t].report.name == PrimaryName(c) && log[t].report.prepared && log[t].report.wsrep == WsrepPrimary
    && log[a].Accepted? && SameFacts(log[t].report, log[a].report)
    && log[s].Scanned? && PrimaryName(c) in log[s].members && AllActive(log[s].members)
    && log[j].Joined? && log[k] == Created(log[j].name)
  }

  lemma JustifiedAt(c: Config, log: seq<Event>, i: nat)
    requires Causal(c, log) && i < |log|
    ensures Justified(c, log[..i], log[i])
  {
  }

  /** A secondary's start is preceded by its creation. */
  lemma CreationBefore(c: Config, log: seq<Event>, j: nat) returns (k: nat)
    requires Causal(c, log) && j < |log| && log[j].Joined?
    ensures k < j && log[k] == Created(log[j].name) && log[j].name != PrimaryName(c)
  {
    JustifiedAt(c, log, j);
    k := Occurs(log[..j], Created(log[j].name));
  }

  /** The creation of `node-(p+1)` is preceded by a scan that found exactly `node-1` to `node-p`, all ACTIVE. */
  lemma ScanBefore(c: Config, log: seq<Event>, k: nat) returns (s: nat, p: nat)
    requires Causal(c, log) && k < |log| && log[k].Created? && log[k].name != PrimaryName(c)
    ensures s < k && 1 <= p < c.cluster.replicas && log[k].name == NodeName(p + 1)
    ensures log[s].Scanned? && log[s].members.Keys == Numbered(p) && AllActive(log[s].members)
  {
    JustifiedAt(c, log, k);
    var before, name := log[..k], log[k].name;
    assert CreationSeen(c, before, name);
    p :| 1 <= p < c.cluster.replicas && name == NodeName(p + 1) && SeenActive(before, p);
    s := ScanOf(before, p);
  }

  lemma ScanOf(log: seq<Event>, p: nat) returns (s: nat)
    requires SeenActive(log, p)
    ensures s < |log| && log[s].Scanned? && log[s].members.Keys == Numbered(p) && AllActive(log[s].members)
  {
    var m: Nodes :| Scanned(m) in log && m.Keys == Numbered(p) && AllActive(m);
    s := Occurs(log, Scanned(m));
  }

  /** A scan that shows a node ACTIVE is preceded by a ready heartbeat of that node. */
  lemma HeartbeatBefore(c: Config, log: seq<Event>, s: nat, name: string) returns (a: nat)
    requires Causal(c, log) && s < |log| && log[s].Scanned? && name in log[s].members && log[s].members[name].status == Active
    ensures a < s && log[a].Accepted? && log[a].report.name == name && Ready(log[a].report)
  {
    JustifiedAt(c, log, s);
    assert SeenReady(log[..s], name);
    var r: Report :| Accepted(r) in log[..s] && r.name == name && Ready(r);
    a := Occurs(log[..s], Accepted(r));
  }

  /** An accepted report is preceded by a heartbeat of its agent that says the same. */
  lemma ToldBefore(c: Config, log: seq<Event>, a: nat) returns (t: nat)
    requires Causal(c, log) && a < |log| && log[a].Accepted?
    ensures t < a && log[t].Told? && SameFacts(log[t].report, log[a].report)
  {
    JustifiedAt(c, log, a);
    var sent: Report :| Told(sent) in log[..a] && SameFacts(sent, log[a].report);
    t := Occurs(log[..a], Told(sent));
  }

  /** A heartbeat that says prepared is preceded by the flag of its agent. */
  lemma FlagBefore(c: Config, log: seq<Event>, t: nat) returns (f: nat)
    requires Causal(c, log) && t < |log| && log[t].Told? && log[t].report.prepared
    ensures f < t && log[f] == Flagged(log[t].report.name)
  {
    JustifiedAt(c, log, t);
    f := Occurs(log[..t], Flagged(log[t].report.name));
  }

  /** The flag of the primary is preceded by its bootstrap. */
  lemma BootstrapBefore(c: Config, log: seq<Event>, f: nat) returns (b: nat)
    requires Causal(c, log) && f < |log| && log[f] == Flagged(PrimaryName(c))
    ensures b < f && log[b] == Bootstrapped(PrimaryName(c))
  {
    JustifiedAt(c, log, f);
    b := Occurs(log[..f], Bootstrapped(PrimaryName(c)));
  }

  lemma PrimaryIsFirst(c: Config, log: seq<Event>, k: nat, p: nat)
    requires Causal(c, log) && k < |log| && log[k].Created? && log[k].name != PrimaryName(c) && p >= 1
    ensures PrimaryName(c) in Numbered(p)
  {
    JustifiedAt(c, log, k);
    assert log[k].name in MemberNames(c);
    NumberedMembers(p, 1);
  }

  /**
   * In every run no secondary's database is started before the primary's agent has started its own with
   * `--wsrep-new-cluster`: the bootstrap, the flag, the ready heartbeat, its acceptance, the scan that saw the primary
   * ACTIVE and the creation of the secondary all come before, in this order.
   */
  lemma CausalStartOrder(c: Config, run: seq<State>, i: nat, j: nat)
    requires IsRun(c, run) && i < |run| && j < |run[i].log| && run[i].log[j].Joined?
    ensures exists b: nat, f: nat, t: nat, a: nat, s: nat, k: nat :: Chain(c, run[i].log, b, f, t, a, s, k, j)
  {
    RunInv(c, run, i);
    ChainOf(c, run[i].log, j);
  }

  lemma ChainOf(c: Config, log: seq<Event>, j: nat)
    requires Causal(c, log) && j < |log| && log[j].Joined?
    ensures exists b: nat, f: nat, t: nat, a: nat, s: nat, k: nat :: Chain(c, log, b, f, t, a, s, k, j)
  {
    var k := CreationBefore(c, log, j);
    var s, p := ScanBefore(c, log, k);
    PrimaryIsFirst(c, log, k, p);
    var a := HeartbeatBefore(c, log, s, PrimaryName(c));
    var t := ToldBefore(c, log, a);
    var f := FlagBefore(c, log, t);
    var b := BootstrapBefore(c, log, f);
    assert Chain(c, log, b, f, t, a, s, k, j);
  }

  /** Over a whole run, at most one node is ever started with `--wsrep-new-cluster`. */
  lemma SingleBootstrapper(c: Config, run: seq<State>, i: nat, j: nat, a: string, b: string)
    requires IsRun(c, run) && i < |run| && j < |run|
    requires Bootstrapped(a) in run[i].log && Bootstrapped(b) in run[j].log
    ensures a == b == PrimaryName(c)
  {
    RunInv(c, run, i);
    RunInv(c, run, j);
    var x := Occurs(run[i].log, Bootstrapped(a));
    var y := Occurs(run[j].log, Bootstrapped(b));
    JustifiedAt(c, run[i].log, x);
    JustifiedAt(c, run[j].log, y);
  }

  // ---- Membership ----

  lemma OnePrimary(c: Config, s: State)
    requires Inv(c, s) && s.store != map[]
    ensures PrimaryName(c) in s.store && Primaries(s.store) == {PrimaryName(c)}
  {
    assert PrimaryName(c) in s.store by {
      if c.seeded {
        NumberedMembers(|s.store|, 1);
      } else {
        var name :| name in s.store;
      }
    }
    forall name | name in s.store ensures name in Primaries(s.store) <==> name == PrimaryName(c) {
      assert RecordOk(c, Known(s), s.store[name]);
    }
  }

  /** The nodes are numbered without gaps and within the capacity, and there is exactly one primary. */
  lemma Membership(c: Config, run: seq<State>, i: nat)
    requires IsRun(c, run) && i < |run|
    ensures c.seeded ==> exists n :: 1 <= n <= Capacity(c) && run[i].store.Keys == Numbered(n)
    ensures !c.seeded ==> run[i].store.Keys <= {FirstNodeName(c.cluster.name)}
    ensures run[i].store != map[] ==> Primaries(run[i].store) == {PrimaryName(c)}
  {
    RunInv(c, run, i);
    if run[i].store != map[] {
      OnePrimary(c, run[i]);
    }
  }

  lemma PendingFacts(c: Config, s: State, n: Node)
    requires Inv(c, s) && PendingCreate(n) in s.ops
    ensures Shape(c, s.store) && CreateOk(c, Known(s), n)
    ensures forall name | name in s.store :: Identity(c, s.store[name]) && s.store[name].name == name
  {
    assert OpOk(c, Known(s), PendingCreate(n));
    forall name | name in s.store ensures Identity(c, s.store[name]) && s.store[name].name == name {
      assert RecordOk(c, Known(s), s.store[name]);
    }
  }

  /**
   * A creation that takes effect late, after others. In a seeded cluster it adds the next node or overwrites a
   * secondary. In a cluster that started without nodes it is the primary's, and once that is stored it overwrites it.
   */
  lemma LateCreation(c: Config, run: seq<State>, i: nat, n: Node)
    requires IsRun(c, run) && i < |run| && PendingCreate(n) in run[i].ops
    ensures c.seeded ==>
              exists k :: 2 <= k <= |run[i].store| + 1 && k <= Capacity(c) && n == NewSecondary(c.cluster, k)
    ensures !c.seeded ==> n == NewPrimary(c.cluster)
    ensures n.name in run[i].store && run[i].store[n.name].target.role == Primary <==> !c.seeded && run[i].store != map[]
  {
    RunInv(c, run, i);
    PendingFacts(c, run[i], n);
    CreationFits(c, run[i].store, Known(run[i]), n);
    if !c.seeded && run[i].store != map[] {
      var name :| name in run[i].store;
      assert name == PrimaryName(c);
    }
  }

  /**
   * A cluster that starts without nodes never gets beyond its first one: that record is created without a status,
   * and a node without a status is never activated.
   */
  lemma EmptyStartStaysSingle(c: Config, run: seq<State>, i: nat)
    requires IsRun(c, run) && i < |run| && !c.seeded
    ensures |run[i].store| <= 1
    ensures forall name | name in run[i].store :: run[i].store[name].status == Unset
    ensures forall op | op in run[i].ops && op.PendingCreate? :: op.node == NewPrimary(c.cluster)
  {
    RunInv(c, run, i);
    var s := run[i];
    assert s.store.Keys <= {PrimaryName(c)};
    assert |s.store.Keys| <= |{PrimaryName(c)}| by {
      assert {PrimaryName(c)} == s.store.Keys + ({PrimaryName(c)} - s.store.Keys);
    }
    forall name | name in s.store ensures s.store[name].status == Unset {
      assert RecordOk(c, Known(s), s.store[name]);
    }
    forall op | op in s.ops && op.PendingCreate? ensures op.node == NewPrimary(c.cluster) {
      assert OpOk(c, Known(s), op);
    }
  }

  // ---- Evidence ----

  /** The record is in the store, in a snapshot or in a pending write. */
  ghost predicate Around(s: State, n: Node) {
    || n in s.store.Values
    || Held(n) in s.ops || PendingUpdate(n) in s.ops || PendingReport(n) in s.ops
  }

  lemma AroundOk(c: Config, run: seq<State>, i: nat, n: Node)
    requires IsRun(c, run) && i < |run| && Around(run[i], n)
    ensures BodyOk(c, Known(run[i]), n)
  {
    RunInv(c, run, i);
    var s := run[i];
    if n in s.store.Values {
      var name :| name in s.store && s.store[name] == n;
      assert RecordOk(c, Known(s), n);
    } else if Held(n) in s.ops {
      assert OpOk(c, Known(s), Held(n));
    } else if PendingUpdate(n) in s.ops {
      assert OpOk(c, Known(s), PendingUpdate(n));
    } else {
      assert OpOk(c, Known(s), PendingReport(n));
    }
  }

  lemma AcceptedWasTold(c: Config, run: seq<State>, i: nat, stored: Report) returns (sent: Report)
    requires IsRun(c, run) && i < |run| && Accepted(stored) in run[i].log
    ensures Told(sent) in run[i].log && SameFacts(sent, stored)
  {
    RunInv(c, run, i);
    var a := Occurs(run[i].log, Accepted(stored));
    var t := ToldBefore(c, run[i].log, a);
    sent := run[i].log[t].report;
  }

  /** What the store holds as a node's report, or a snapshot or pending write of it, is what its agent has once sent. */
  lemma ReportsAreTold(c: Config, run: seq<State>, i: nat, n: Node)
    requires IsRun(c, run) && i < |run| && Around(run[i], n) && n.report.stamped
    ensures exists sent: Report :: Told(sent) in run[i].log && sent.name == n.name && sent.ip == n.report.ip
              && sent.prepared == n.report.prepared && sent.mariadb == n.report.mariadb && sent.wsrep == n.report.wsrep
  {
    RunInv(c, run, i);
    var s := run[i];
    if PendingReport(n) in s.ops {
      assert OpOk(c, Known(s), PendingReport(n));
      var sent: Report :| Told(sent) in s.log && SameFacts(sent, n.report);
      assert Told(sent) in s.log && sent.name == n.name;
    } else {
      StoredReportAccepted(c, s, n);
      var sent := AcceptedWasTold(c, run, i, n.report);
      assert Told(sent) in s.log && sent.name == n.name;
    }
  }

  lemma StoredReportAccepted(c: Config, s: State, n: Node)
    requires Inv(c, s) && (n in s.store.Values || Held(n) in s.ops || PendingUpdate(n) in s.ops) && n.report.stamped
    ensures Accepted(n.report) in s.log && n.report.name == n.name
  {
    if n in s.store.Values {
      var name :| name in s.store && s.store[name] == n;
      assert RecordOk(c, Known(s), n);
    } else if Held(n) in s.ops {
      assert OpOk(c, Known(s), Held(n));
    } else {
      assert OpOk(c, Known(s), PendingUpdate(n));
    }
  }

  /** Every ACTIVE record, stored or pending, is of a node whose agent has sent a ready heartbeat that was accepted. */
  lemma EvidenceBehindActive(c: Config, run: seq<State>, i: nat, n: Node)
    requires IsRun(c, run) && i < |run| && Around(run[i], n) && n.status == Active
    ensures exists sent: Report, stored: Report :: Told(sent) in run[i].log && Accepted(stored) in run[i].log
              && SameFacts(sent, stored) && sent.name == n.name && sent.prepared && sent.wsrep == WsrepPrimary
  {
    AroundOk(c, run, i, n);
    assert SeenReady(run[i].log, n.name);
    var stored: Report :| Accepted(stored) in run[i].log && stored.name == n.name && Ready(stored);
    var sent := AcceptedWasTold(c, run, i, stored);
    assert Told(sent) in run[i].log && Accepted(stored) in run[i].log && SameFacts(sent, stored);
  }

  /** The scan at `s` is a reason for the creation at `j`: no node at all, or all numbered nodes so far ACTIVE. */
  ghost predicate ScanBehind(c: Config, log: seq<Event>, s: nat, j: nat) {
    && s < j < |log| && log[s].Scanned? && log[j].Created?
    && if c.seeded
       then exists k :: 1 <= k < c.cluster.replicas && log[j].name == NodeName(k + 1)
                        && log[s].members.Keys == Numbered(k) && AllActive(log[s].members)
       else log[j].name == FirstNodeName(c.cluster.name) && log[s].members == map[]
  }

  /**
   * A node `node-(k+1)` is only ever created after one scan that found exactly `node-1` to `node-k`, all ACTIVE, and
   * the first primary of an empty cluster only after a scan that found no node.
   */
  lemma EvidenceBehindCreation(c: Config, run: seq<State>, i: nat, j: nat)
    requires IsRun(c, run) && i < |run| && j < |run[i].log| && run[i].log[j].Created?
    ensures exists s :: ScanBehind(c, run[i].log, s, j)
  {
    RunInv(c, run, i);
    var log := run[i].log;
    JustifiedAt(c, log, j);
    assert CreationSeen(c, log[..j], log[j].name);
    if c.seeded {
      var s, k := ScanBefore(c, log, j);
      assert ScanBehind(c, log, s, j);
    } else {
      assert log[j].name == PrimaryName(c);
      var s := Occurs(log[..j], Scanned(map[]));
      assert ScanBehind(c, log, s, j);
    }
  }

  ghost predicate CreatedStored(s: State) {
    forall name: string | Created(name) in s.log :: name in s.store
  }

  lemma StepKeepsCreatedStored(c: Config, s: State, step: Step)
    requires Enabled(c, s, step) && CreatedStored(s)
    ensures CreatedStored(After(c, s, step))
  {
  }

  lemma {:induction false} CreatedIsStored(c: Config, run: seq<State>, i: nat)
    requires IsRun(c, run) && i < |run|
    ensures CreatedStored(run[i])
  {
    if i > 0 {
      CreatedIsStored(c, run, i - 1);
      assert Next(c, run[i - 1], run[i]);
      var step :| Enabled(c, run[i - 1], step) && run[i] == After(c, run[i - 1], step);
      StepKeepsCreatedStored(c, run[i - 1], step);
    }
  }

  /** The target is a part of some record of the node, stored, held or pending, or on its way to the agent. */
  ghost predicate TargetAround(s: State, name: string, t: Target) {
    Delivered(name, t) in s.ops || exists n: Node :: Around(s, n) && n.name == name && n.target == t
  }

  lemma TargetAroundOk(c: Config, run: seq<State>, i: nat, name: string, t: Target)
    requires IsRun(c, run) && i < |run| && TargetAround(run[i], name, t)
    ensures t.role == RoleOf(c, name) && TargetOk(c, Known(run[i]), t) && Exists(c, Known(run[i]), name)
    ensures name == PrimaryName(c) ==> t == BOOTSTRAP_TARGET
    ensures Inv(c, run[i])
  {
    RunInv(c, run, i);
    if Delivered(name, t) in run[i].ops {
      assert OpOk(c, Known(run[i]), Delivered(name, t));
    } else {
      var n: Node :| Around(run[i], n) && n.name == name && n.target == t;
      AroundOk(c, run, i, n);
    }
  }

  /** The agent of that node has sent the address in a heartbeat that was accepted. */
  ghost predicate HeardFrom(s: State, name: string, address: string) {
    exists sent: Report, stored: Report :: Told(sent) in s.log && Accepted(stored) in s.log && SameFacts(sent, stored)
      && sent.name == name && sent.ip == address
  }

  /** The address comes from a node that is in the store. */
  ghost predicate HeardFromStored(s: State, address: string) {
    exists name :: name in s.store && HeardFrom(s, name, address)
  }

  lemma AcceptedIsHeard(c: Config, run: seq<State>, i: nat, stored: Report)
    requires IsRun(c, run) && i < |run| && Accepted(stored) in run[i].log
    ensures HeardFrom(run[i], stored.name, stored.ip)
  {
    var sent := AcceptedWasTold(c, run, i, stored);
    assert Told(sent) in run[i].log && Accepted(stored) in run[i].log && SameFacts(sent, stored);
  }

  /** Every address list that a secondary is told to join, stored, pending or delivered, is complete and real. */
  lemma JoinTargetsAreReal(c: Config, run: seq<State>, i: nat, name: string, t: Target)
    requires IsRun(c, run) && i < |run| && TargetAround(run[i], name, t) && t.role == Secondary && t.mariadbStarted
    ensures |t.addresses| >= 2
    ensures forall x | 0 <= x < |t.addresses| :: t.addresses[x] != "" && HeardFromStored(run[i], t.addresses[x])
    ensures exists address :: address in t.addresses && HeardFrom(run[i], PrimaryName(c), address)
  {
    var s := run[i];
    TargetAroundOk(c, run, i, name, t);
    SecondaryMeansSeeded(c, s, name);
    forall x | 0 <= x < |t.addresses| ensures t.addresses[x] != "" && HeardFromStored(s, t.addresses[x]) {
      assert Reported(c, s.log, t.addresses[x]);
      var r: Report :| Accepted(r) in s.log && r.ip == t.addresses[x] && Introduced(c, s.log, r.name);
      CreatedIsStored(c, run, i);
      AcceptedIsHeard(c, run, i, r);
      assert r.name in s.store && HeardFrom(s, r.name, t.addresses[x]);
    }
    assert PrimaryReported(c, s.log, t.addresses);
    var p: Report :| Accepted(p) in s.log && p.name == PrimaryName(c) && p.ip in t.addresses;
    AcceptedIsHeard(c, run, i, p);
  }

  /** Where there is a secondary there is a primary as well. */
  lemma SecondaryMeansSeeded(c: Config, s: State, name: string)
    requires Inv(c, s) && Exists(c, Known(s), name) && name != PrimaryName(c)
    ensures c.seeded && PrimaryName(c) in s.store
  {
    NumberedMembers(|s.store|, 1);
    assert name in s.store.Keys;
  }

  /** In every run, whatever becomes of its status and its report, the primary is always told to bootstrap. */
  lemma PrimaryIsToldToBootstrap(c: Config, run: seq<State>, i: nat, t: Target)
    requires IsRun(c, run) && i < |run| && TargetAround(run[i], PrimaryName(c), t)
    ensures t.role == Primary && t.galeraNewCluster && t.mariadbStarted && t.gatherHB && t.addresses == []
  {
    TargetAroundOk(c, run, i, PrimaryName(c), t);
  }

  // ---- Framing ----

  lemma {:induction false} NodesStay(c: Config, run: seq<State>, i: nat, j: nat)
    requires IsRun(c, run) && i <= j < |run|
    ensures run[i].store.Keys <= run[j].store.Keys
  {
    if i < j {
      NodesStay(c, run, i, j - 1);
      assert Next(c, run[j - 1], run[j]);
    }
  }

  lemma StoredIdentity(c: Config, run: seq<State>, i: nat, name: string)
    requires IsRun(c, run) && i < |run| && name in run[i].store
    ensures run[i].store[name].name == name && Identity(c, run[i].store[name])
  {
    RunInv(c, run, i);
    assert RecordOk(c, Known(run[i]), run[i].store[name]);
  }

  /** Stored records never disappear, and no interleaving changes what they were created with. */
  lemma IdentityIsFixed(c: Config, run: seq<State>, i: nat, j: nat, name: string)
    requires IsRun(c, run) && i <= j < |run| && name in run[i].store
    ensures name in run[j].store
    ensures var n, m := run[i].store[name], run[j].store[name];
            n.name == m.name == name && n.clusterName == m.clusterName && n.image == m.image
            && n.target.role == m.target.role && n.target.galeraNewCluster == m.target.galeraNewCluster
  {
    NodesStay(c, run, i, j);
    StoredIdentity(c, run, i, name);
    StoredIdentity(c, run, j, name);
  }

  // ---- What handlers write back ----

  /** A reconcile that has read `n` writes `w`: it may change the status and the target, but for what is fixed in it. */
  predicate Reconciles(n: Node, w: Node) {
    && w.name == n.name && w.clusterName == n.clusterName && w.image == n.image && w.report == n.report
    && w.target.role == n.target.role && w.target.gatherHB == n.target.gatherHB
  }

  /** A heartbeat handler that has read `n` writes `w`: it changes the report and nothing else. */
  predicate Hears(n: Node, w: Node) {
    && w.name == n.name && w.clusterName == n.clusterName && w.image == n.image && w.status == n.status
    && w.target == n.target && w.report.name == n.name && w.report.stamped
  }

  /** What the operation holds goes back to a record that was once stored. */
  ghost predicate GoesBack(op: Op, past: set<Node>) {
    match op
    case Held(n) => n in past
    case PendingUpdate(w) => exists n :: n in past && Reconciles(n, w)
    case PendingReport(w) => exists n :: n in past && Hears(n, w)
    case _ => true
  }

  /** The store is part of the past, under the nodes' own names, and all of them are told to report. */
  ghost predicate IsPast(past: set<Node>, store: Nodes) {
    && (forall x | x in store :: store[x] in past && store[x].name == x)
    && (forall n | n in past :: n.target.gatherHB)
  }

  lemma AgentsHoldNothing(c: Config, s: State, step: Step, op: Op, past: set<Node>)
    requires Enabled(c, s, step) && IsAgentStep(step) && op in After(c, s, step).ops && op !in s.ops
    ensures GoesBack(op, past)
  {
  }

  lemma ReadsGoBack(c: Config, s: State, step: Step, op: Op, past: set<Node>)
    requires Enabled(c, s, step) && (step.TakeSnapshot? || step.ReceiveReport?) && IsPast(past, s.store)
    requires op in After(c, s, step).ops && op !in s.ops
    ensures GoesBack(op, past)
  {
    if step.ReceiveReport? {
      var n := s.store[step.report.name];
      assert n in past && Hears(n, WithReport(n, step.report));
    }
  }

  lemma PlansGoBack(n: Node, peers: seq<Node>, past: set<Node>)
    requires n in past && n.target.gatherHB
    ensures NodePlan(n).Write? ==> GoesBack(PendingUpdate(NodePlan(n).node), past)
    ensures NodePlan(n).Gather? && GatherPlan(n, peers).Write? ==> GoesBack(PendingUpdate(GatherPlan(n, peers).node), past)
  {
    if NodePlan(n).Write? {
      assert Reconciles(n, NodePlan(n).node);
    } else if NodePlan(n).Gather? && GatherPlan(n, peers).Write? {
      assert Reconciles(n, GatherPlan(n, peers).node);
    }
  }

  predicate HoldsNothing(step: Step) {
    step.ScanCluster? || step.CommitCreate? || step.CommitUpdate? || step.CommitReport?
  }

  lemma CommitsHoldNothing(c: Config, s: State, step: Step, op: Op, past: set<Node>)
    requires Enabled(c, s, step) && HoldsNothing(step) && op in After(c, s, step).ops && op !in s.ops
    ensures GoesBack(op, past)
  {
  }

  lemma NewOpGoesBack(c: Config, s: State, step: Step, op: Op, past: set<Node>)
    requires Enabled(c, s, step) && IsPast(past, s.store) && (forall o | o in s.ops :: GoesBack(o, past))
    requires op in After(c, s, step).ops && op !in s.ops
    ensures GoesBack(op, past)
  {
    if IsAgentStep(step) {
      AgentsHoldNothing(c, s, step, op, past);
    } else if HoldsNothing(step) {
      CommitsHoldNothing(c, s, step, op, past);
    } else if step.TakeSnapshot? || step.ReceiveReport? {
      ReadsGoBack(c, s, step, op, past);
    } else {
      assert GoesBack(Held(step.held), past);
      PlansGoBack(step.held, if step.GatherPeers? then step.peers else [], past);
    }
  }

  ghost predicate AllGoBack(s: State, past: set<Node>) {
    forall op | op in s.ops :: GoesBack(op, past)
  }

  lemma NextGoesBack(c: Config, s: State, s': State, past: set<Node>)
    requires Next(c, s, s') && IsPast(past, s.store) && AllGoBack(s, past)
    ensures AllGoBack(s', past)
  {
    var step :| Enabled(c, s, step) && s' == After(c, s, step);
    forall op | op in s'.ops && op !in s.ops ensures GoesBack(op, past) {
      NewOpGoesBack(c, s, step, op, past);
    }
  }

  lemma GoesBackFurther(s: State, past: set<Node>, past': set<Node>)
    requires past <= past' && AllGoBack(s, past)
    ensures AllGoBack(s, past')
  {
    forall op | op in s.ops ensures GoesBack(op, past') {
      assert GoesBack(op, past);
    }
  }

  /** All of these records were stored at some position up to this one. */
  ghost predicate WereStored(run: seq<State>, i: nat, past: set<Node>) {
    i < |run| && forall n | n in past :: exists g: nat :: g <= i && n in run[g].store.Values
  }

  lemma StoredNow(c: Config, s: State)
    requires Inv(c, s)
    ensures IsPast(s.store.Values, s.store)
  {
    forall x | x in s.store ensures s.store[x].name == x && s.store[x].target.gatherHB {
      assert RecordOk(c, Known(s), s.store[x]);
    }
  }

  lemma PastGrows(run: seq<State>, i: nat, past: set<Node>)
    requires 0 < i < |run| && WereStored(run, i - 1, past)
    requires IsPast(past, run[i - 1].store) && IsPast(run[i].store.Values, run[i].store)
    ensures WereStored(run, i, past + run[i].store.Values) && IsPast(past + run[i].store.Values, run[i].store)
  {
  }

  lemma OpsGoBackNext(c: Config, run: seq<State>, i: nat, past: set<Node>, past': set<Node>)
    requires IsRun(c, run) && 0 < i < |run| && past <= past'
    requires IsPast(past, run[i - 1].store) && AllGoBack(run[i - 1], past)
    ensures AllGoBack(run[i], past')
  {
    assert Next(c, run[i - 1], run[i]);
    NextGoesBack(c, run[i - 1], run[i], past);
    GoesBackFurther(run[i], past, past');
  }

  lemma {:induction false} OpsGoBack(c: Config, run: seq<State>, i: nat) returns (past: set<Node>)
    requires IsRun(c, run) && i < |run|
    ensures AllGoBack(run[i], past) && IsPast(past, run[i].store) && WereStored(run, i, past)
  {
    RunInv(c, run, i);
    StoredNow(c, run[i]);
    if i == 0 {
      past := run[0].store.Values;
    } else {
      var before := OpsGoBack(c, run, i - 1);
      PastGrows(run, i, before);
      past := before + run[i].store.Values;
      OpsGoBackNext(c, run, i, before, past);
    }
  }

  /**
   * What a reconcile is going to write back carries the report, and all else that it has no business with, of the record
   * that was stored when it was launched.
   */
  lemma ReconcileWritesItsSnapshot(c: Config, run: seq<State>, i: nat, w: Node)
    requires IsRun(c, run) && i < |run| && PendingUpdate(w) in run[i].ops
    ensures exists g: nat, n: Node :: g <= i && n in run[g].store.Values && Reconciles(n, w)
  {
    var past := OpsGoBack(c, run, i);
    assert GoesBack(PendingUpdate(w), past);
    var n :| n in past && Reconciles(n, w);
  }

  /** What a heartbeat handler is going to write back is, but for the report, the record that it has read. */
  lemma HeartbeatWritesItsSnapshot(c: Config, run: seq<State>, i: nat, w: Node)
    requires IsRun(c, run) && i < |run| && PendingReport(w) in run[i].ops
    ensures exists g: nat, n: Node :: g <= i && n in run[g].store.Values && Hears(n, w)
  {
    var past := OpsGoBack(c, run, i);
    assert GoesBack(PendingReport(w), past);
    var n :| n in past && Hears(n, w);
  }

  /** Every node is created with the cluster's image, told to report its state, and with nothing reported. */
  lemma CreatedAsAsked(c: Config, run: seq<State>, i: nat, n: Node)
    requires IsRun(c, run) && i < |run| && PendingCreate(n) in run[i].ops
    ensures n.clusterName == c.cluster.name && n.image == c.cluster.image && n.target.gatherHB && n.target.addresses == []
    ensures !n.report.stamped && !n.report.prepared && n.report.ip == ""
    ensures c.seeded ==> n.status == Creating && n.target.role == Secondary && !n.target.mariadbStarted && !n.target.galeraNewCluster
    ensures !c.seeded ==> n.status == Unset && n.target.role == Primary && n.target.mariadbStarted && n.target.galeraNewCluster
  {
    RunInv(c, run, i);
    PendingFacts(c, run[i], n);
  }

  // ---- What the interleaving breaks ----

  ghost predicate Path(c: Config, path: seq<State>) {
    path != [] && forall i, j | 0 <= i < j < |path| && j == i + 1 :: Next(c, path[i], path[j])
  }

  lemma Extend(c: Config, path: seq<State>, s: State, step: Step, s': State) returns (path': seq<State>)
    requires Path(c, path) && path[|path| - 1] == s
    requires Enabled(c, s, step) && s' == After(c, s, step)
    ensures Path(c, path') && path' == path + [s']
  {
    path' := path + [s'];
    forall i | 0 < i < |path'| ensures Next(c, path'[i - 1], path'[i]) {
      if i == |path| {
        assert path'[i - 1] == s && path'[i] == s';
      }
    }
  }

  /** A scan decides to create `n`. */
  lemma ScanPath(c: Config, path: seq<State>, s: State, n: Node) returns (path': seq<State>)
    requires Path(c, path) && path[|path| - 1] == s
    requires Members(s.store, c.cluster.name) == s.store && ClusterPlan(c.cluster, s.store) == Some(n)
    ensures Path(c, path') && path' == path + [s.(ops := s.ops + multiset{PendingCreate(n)}, log := s.log + [Scanned(s.store)])]
  {
    path' := Extend(c, path, s, ScanCluster, s.(ops := s.ops + multiset{PendingCreate(n)}, log := s.log + [Scanned(s.store)]));
  }

  /** A pending creation takes effect. */
  lemma CreatePath(c: Config, path: seq<State>, s: State, n: Node) returns (path': seq<State>)
    requires Path(c, path) && path[|path| - 1] == s && PendingCreate(n) in s.ops
    ensures Path(c, path')
    ensures path' == path + [s.(store := s.store[n.name := n], ops := s.ops - multiset{PendingCreate(n)}, log := s.log + [Created(n.name)])]
  {
    var s' := s.(store := s.store[n.name := n], ops := s.ops - multiset{PendingCreate(n)}, log := s.log + [Created(n.name)]);
    path' := Extend(c, path, s, CommitCreate(n), s');
  }

  /** A pending heartbeat write to a stored node takes effect. */
  lemma CommitReportPath(c: Config, path: seq<State>, s: State, n: Node) returns (path': seq<State>)
    requires Path(c, path) && path[|path| - 1] == s && PendingReport(n) in s.ops && n.name in s.store
    ensures Path(c, path')
    ensures path' == path + [s.(store := s.store[n.name := n], ops := s.ops - multiset{PendingReport(n)}, log := s.log + [Accepted(n.report)])]
  {
    var s' := s.(store := s.store[n.name := n], ops := s.ops - multiset{PendingReport(n)}, log := s.log + [Accepted(n.report)]);
    path' := Extend(c, path, s, CommitReport(n), s');
  }

  /** A heartbeat is sent, and received by a handler that reads the node. */
  lemma ReadPath(c: Config, path: seq<State>, s: State, r: Report) returns (path': seq<State>)
    requires Path(c, path) && path[|path| - 1] == s && (r.prepared ==> r.name in s.flags) && r.name in s.store
    ensures Path(c, path') && |path'| == |path| + 2 && path <= path'
    ensures path'[|path| + 1] == Note(s, Told(r)).(ops := s.ops + multiset{PendingReport(WithReport(s.store[r.name], r))})
  {
    var n, told := WithReport(s.store[r.name], r), Note(s, Told(r));
    path' := Extend(c, path, s, SendReport(r), With(told, Sent(r)));
    assert s.ops + multiset{Sent(r)} - multiset{Sent(r)} == s.ops;
    path' := Extend(c, path', With(told, Sent(r)), ReceiveReport(r), told.(ops := s.ops + multiset{PendingReport(n)}));
  }

  /** A reconcile decides what to write. */
  lemma PlanPath(c: Config, path: seq<State>, s: State, n: Node, w: Node) returns (path': seq<State>)
    requires Path(c, path) && path[|path| - 1] == s && Held(n) in s.ops && NodePlan(n) == Plan.Write(w)
    ensures Path(c, path') && path' == path + [s.(ops := s.ops - multiset{Held(n)} + multiset{PendingUpdate(w)})]
  {
    path' := Extend(c, path, s, PlanNode(n), s.(ops := s.ops - multiset{Held(n)} + multiset{PendingUpdate(w)}));
  }

  /** A pending write of the node controller to a stored node takes effect. */
  lemma CommitUpdatePath(c: Config, path: seq<State>, s: State, n: Node) returns (path': seq<State>)
    requires Path(c, path) && path[|path| - 1] == s && PendingUpdate(n) in s.ops && n.name in s.store
    ensures Path(c, path') && path' == path + [s.(store := s.store[n.name := n], ops := s.ops - multiset{PendingUpdate(n)})]
  {
    path' := Extend(c, path, s, CommitUpdate(n), s.(store := s.store[n.name := n], ops := s.ops - multiset{PendingUpdate(n)}));
  }

  /** From `Storage.Init`'s shape, the agent of `node-1` bootstraps and touches its flag. */
  lemma BootstrapPath(c: Config, n: Node) returns (path: seq<State>)
    requires c.seeded && n == Seed(c)
    ensures Path(c, path) && |path| == 5 && Init(c, path[0])
    ensures path[4] == State(map[n.name := n], multiset{}, {n.name}, [Bootstrapped(n.name), Flagged(n.name)])
  {
    var store, t, name := map[n.name := n], BOOTSTRAP_TARGET, n.name;
    var s0 := State(store, multiset{}, {}, []);
    var s1 := State(store, multiset{Delivered(name, t)}, {}, []);
    var s2 := State(store, multiset{Launching(name, true, [])}, {}, []);
    var s3 := State(store, multiset{Touching(name)}, {}, [Bootstrapped(name)]);
    path := Extend(c, [s0], s0, FetchTarget(name), s1);
    path := Extend(c, path, s1, HandleTarget(name, t), s2);
    path := Extend(c, path, s2, Start(name, true, []), s3);
    path := Extend(c, path, s3, Touch(name), State(store, multiset{}, {name}, [Bootstrapped(name), Flagged(name)]));
  }

  /** A heartbeat of a ready agent is written, a reconcile takes its snapshot, and the next heartbeat is read. */
  lemma ReadyPath(c: Config, path: seq<State>, s: State, r: Report, n: Node) returns (path': seq<State>)
    requires Path(c, path) && path[|path| - 1] == s && s.ops == multiset{} && r.name in s.flags && r.name in s.store
    requires n == WithReport(s.store[r.name], r) && n.name == r.name
    ensures Path(c, path') && |path'| == |path| + 6 && path <= path'
    ensures path'[|path| + 5].store == s.store[n.name := n] && path'[|path| + 5].ops == multiset{Held(n), PendingReport(n)}
  {
    path' := ReadPath(c, path, s, r);
    path' := CommitReportPath(c, path', path'[|path| + 1], n);
    var stored := path'[|path| + 2];
    assert stored.ops == multiset{};
    path' := Extend(c, path', stored, TakeSnapshot(r.name), stored.(ops := multiset{Held(n)}));
    path' := ReadPath(c, path', path'[|path| + 3], r);
    assert WithReport(n, r) == n;
  }

  /** A run to a state in which `node-1` is ACTIVE and a heartbeat handler that has read it before will write. */
  lemma ActiveWithStaleReport(c: Config) returns (run: seq<State>, stale: Node)
    requires c.seeded
    ensures IsRun(c, run) && |run| == 13 && stale.name == NodeName(1) && stale.status == Creating
    ensures stale.clusterName == c.cluster.name && stale.target == BOOTSTRAP_TARGET
    ensures run[12].store == map[NodeName(1) := stale.(status := Active)] && run[12].ops == multiset{PendingReport(stale)}
  {
    var n, name := Seed(c), NodeName(1);
    var r := Report(name, true, "10.0.0.1", true, Running, WsrepPrimary);
    stale := WithReport(n, r);
    run := BootstrapPath(c, n);
    run := ReadyPath(c, run, run[4], r, stale);
    run := PlanPath(c, run, run[10], stale, stale.(status := Active));
    run := CommitUpdatePath(c, run, run[11], stale.(status := Active));
  }

  /**
   * Statuses are not monotone: a heartbeat handler that has read `node-1` before its activation and writes after it
   * puts the node back from ACTIVE to CREATING.
   */
  lemma StaleHeartbeatRegresses(c: Config) returns (run: seq<State>)
    requires c.seeded
    ensures IsRun(c, run) && |run| == 14
    ensures NodeName(1) in run[12].store && run[12].store[NodeName(1)].status == Active
    ensures NodeName(1) in run[13].store && run[13].store[NodeName(1)].status == Creating
  {
    var stale;
    run, stale := ActiveWithStaleReport(c);
    run := CommitReportPath(c, run, run[12], stale);
  }

  lemma SecondIsNext(c: Config, active: Node)
    requires c.cluster.status == Creating && c.cluster.replicas >= 2
    requires active.clusterName == c.cluster.name && active.target == BOOTSTRAP_TARGET && active.status == Active
    ensures var store := map[NodeName(1) := active];
            Members(store, c.cluster.name) == store && ClusterPlan(c.cluster, store) == Some(NewSecondary(c.cluster, 2))
  {
    var store := map[NodeName(1) := active];
    assert Members(store, c.cluster.name) == store && Primaries(store) == {NodeName(1)};
    assert |store| == 1;
  }

  /**
   * Two nodes can join at once: a scan sees `node-1` ACTIVE, the stale heartbeat of the run above puts it back, and
   * only then is `node-2` created.
   */
  lemma TwoJoinAtOnce(c: Config) returns (run: seq<State>)
    requires c.seeded && c.cluster.status == Creating && c.cluster.replicas >= 2
    ensures IsRun(c, run) && |run| == 16
    ensures NodeName(1) in run[15].store && run[15].store[NodeName(1)].status == Creating
    ensures NodeName(2) in run[15].store && run[15].store[NodeName(2)].status == Creating
  {
    var stale;
    run, stale := ActiveWithStaleReport(c);
    NodeNamesDiffer(1, 2);
    SecondIsNext(c, stale.(status := Active));
    run := ScanPath(c, run, run[12], NewSecondary(c.cluster, 2));
    run := CommitReportPath(c, run, run[13], stale);
    run := CreatePath(c, run, run[14], NewSecondary(c.cluster, 2));
  }

  lemma OverlappingScans(c: Config) returns (run: seq<State>)
    requires !c.seeded && c.cluster.status == Creating
    ensures IsRun(c, run) && |run| == 4 && run[3].store == map[PrimaryName(c) := NewPrimary(c.cluster)]
    ensures run[3].ops == multiset{PendingCreate(NewPrimary(c.cluster))}
  {
    var n, s := NewPrimary(c.cluster), State(map[], multiset{}, {}, []);
    assert Members(map[], c.cluster.name) == map[];
    run := ScanPath(c, [s], s, n);
    run := ScanPath(c, run, run[1], n);
    run := CreatePath(c, run, run[2], n);
  }

  /** In an empty cluster two scans overlap, and the second creation replaces the primary and wipes its report. */
  lemma LateCreationWipesReport(c: Config) returns (run: seq<State>)
    requires !c.seeded && c.cluster.status == Creating
    ensures IsRun(c, run) && |run| == 8
    ensures PrimaryName(c) in run[6].store && run[6].store[PrimaryName(c)].report.stamped
    ensures PrimaryName(c) in run[7].store && run[7].store[PrimaryName(c)].report == NO_REPORT
  {
    var n, name := NewPrimary(c.cluster), PrimaryName(c);
    var r := Report(name, true, "10.0.0.1", false, Running, WsrepPrimary);
    run := OverlappingScans(c);
    run := ReadPath(c, run, run[3], r);
    run := CommitReportPath(c, run, run[5], WithReport(n, r));
    run := CreatePath(c, run, run[6], n);
  }
}
