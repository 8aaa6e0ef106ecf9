# Galera operator: a verified model

The operator keeps one record per database node in an in-memory store. Controllers, a heartbeat handler and agents
read such a record, think, and write the whole record back, with no lock across the two. An agent runs one `mariadbd`
through a small process manager with two mutexes. This project models both and proves what holds over every run.

## How it is built

- `Entities`, `Names`, `ControlPlane`: the records, the formatted names, and what the controllers decide, as functions
  of what they have read.
- `Protocol`, `ProtocolInvariant`, `ProtocolTheorems`: the control plane and the agents as a step machine. Each storage
  call is one step. Between its calls a handler is an operation in flight with a private snapshot or a pending write;
  operations overlap freely and may be lost. The invariant ranges over the store and every operation in flight. A history
  of events, which the steps never read, carries the statements about order. Both starts are covered: the seeded store
  of `Storage.Init` and an empty store.
- `Regression`: exact conditions, on any reachable state, for a node to lose ACTIVE and for two nodes to join at once.
- `Atomic`: the coarser model in which each handler runs to its end on fresh data, with the convergence argument. Each of
  its actions is proved to be a stretch of steps of the interleaved machine.
- `Records`, `InMemoryStorage`, `Controllers`: the store as an object whose records hold references to messages, and the
  controllers and the state API as methods that change it, proved against the functions above.
- `ProcessManager`: the process manager with any number of concurrent callers, one step per lock operation, wait, start
  and access to the shared fields.
- `ManagerProjection`: every step of that machine is one of the agent's events or nothing, and a call of RunMariaDB has
  the effect the agent's steps give it.
- `AgentSteps`, `AgentProcess`, `Rendering`: configuring, starting and restarting the database, as functions and as the
  methods that implement them; and the configuration file.
- `Launcher`: one iteration of the controller manager and the goroutines it launches, with every channel operation a step.
- `Iterations`: the iterations of one controller, which can overlap through the goroutines they leave behind.
- `AgentPath`: the agent's steps are steps of the protocol.
- `Sums`: counters over threads and goroutines.

## What turned out false, and exactly when

- Statuses are monotone when handlers run atomically (`Atomic.ActiveIsForever`). Interleaved, an ACTIVE node can lose that
  status exactly if an operation now in flight threatens it: a pending write of a record of it that is not ACTIVE, or a
  reconcile that will write one from its snapshot (`Regression.RegressesIffThreatened`). Three kinds of threat occur: a
  heartbeat handler that has read the node before its activation (`ProtocolTheorems.StaleHeartbeatRegresses`), a
  reconcile with a snapshot that was not ready (`Regression.StaleReconcileOccurs`), and a second creation of the same
  node (`Regression.LateCreationOccurs`).
- One node joins at a time when handlers run atomically (`Atomic.OneJoinsAtATime`), and in every interleaved run in which
  no step puts an ACTIVE node back (`Regression.OneJoinsUnlessRegressed`). Otherwise two can
  (`ProtocolTheorems.TwoJoinAtOnce`). From a reachable state of a seeded cluster that can still happen exactly if the
  nodes that are ACTIVE and not threatened leave at least two of its places (`Regression.TwoJoinIffRoom`).
- Neither wedges a seeded cluster: from every reachable state all nodes can still be brought to ACTIVE, and so that they
  stay ACTIVE whatever happens then (`Regression.NeverWedged`).
- At most 20 reconciles are in flight for each iteration of a controller that is not over (`Launcher.BoundedLaunching`,
  `Iterations.BoundPerIteration`). The controller as a whole has no bound, since every iteration has its own limiter and
  waits for nothing (`Iterations.BoundIsReached`).
- A late creation never touches the primary of a seeded cluster. In a cluster that started without nodes it overwrites
  the primary, and wipes its report, exactly if the primary is already there (`ProtocolTheorems.LateCreation`,
  `ProtocolTheorems.LateCreationWipesReport`).
- A live process runs the present configuration exactly unless a write of the file fails after it has changed the content
  while a process is alive (`AgentSteps.ReconcileKeepsFresh`). The outdated process then lives on exactly as long as it
  does not exit and every reconcile that acts fails to configure or finds a file with the hash of what it wants
  (`AgentSteps.OutdatedSurvivesIff`). If the failed write left the complete content, asking for that content again
  therefore never repairs it, as long as the file can be read (`AgentSteps.SpoiledForGood`); a new agent gets there in
  two reconciles (`AgentSteps.SpoiledForGoodIsReachable`).
- A cluster that starts without nodes never gets beyond its first node, because that record is created without a status
  (`ProtocolTheorems.EmptyStartStaysSingle`). Convergence therefore starts from the seeded store.
- A dead process can go unnoticed: until its end has been collected, a reconcile that finds the wanted file does nothing and
  succeeds (`AgentSteps.DeadIsRestartedIff`). After that the next healthy one starts it (`AgentSteps.DeadIsRestarted`).
- The process manager ends the agent exactly when a finalizer runs and no start has ever succeeded
  (`ProcessManager.CrashIffNeverStarted`, `ProcessManager.FirstFailureCrashes`), that is, after a reconcile whose start
  is the first one and fails (`AgentSteps.DoomIff`).
- The file does not tell an empty address list from one empty address (`Rendering.RenderInjective`).
- The store behaves as a map by kind and name exactly if no kind in use goes on behind a slash where another one ends
  (`Records.StoreIsMapIff`); slash-free kinds are a special case.
- Addresses are gathered in the iteration order of a Go map. Another order is another file and so a restart
  (`AgentSteps.OtherOrderRestarts`).
- An agent that cannot find its own address reports the text `<nil>`, which is not empty and so passes the control plane's
  check. The statements about join targets say "not empty", as the code does. Those about the file ask for addresses
  without commas and quotes in which no placeholder begins; `<nil>` is one (`Rendering.NilIsPlain`).

Where a comment and the code disagree the code is followed: the message "more than one primary node exists"
(internal/controller/cluster/process_new_cluster.go:75) also covers the case of no primary.

## Assumptions

Agents report the prepared flag only if the file exists. No prepared flag exists at the start. Heartbeat contents, process
exits, failures to start and file errors are otherwise arbitrary choices of the environment. SHA-256 (section 6.2 of FIPS
180-4) is any function without empty results; statements that need two contents not to collide say so.

## Model

| member | source | states |
|---|---|---|
| ProtocolTheorems.CausalStartOrder | internal/controller/cluster/process_new_cluster.go:79-118 | In every interleaved run, before any secondary's database is started, the primary was bootstrapped, then flagged, then its agent sent a prepared heartbeat with cluster status Primary, then that was accepted, then the primary was seen ACTIVE in a scan, then the secondary was created |
| ProtocolTheorems.ScanBefore | internal/controller/cluster/process_new_cluster.go:74-118 | Every creation of `node-(p+1)` is preceded by a scan that found exactly `node-1` to `node-p`, all ACTIVE |
| ProtocolTheorems.HeartbeatBefore | internal/controller/node/process_new_node.go:36-38 | A scan that shows a node ACTIVE is preceded by an accepted ready heartbeat of that node |
| ProtocolTheorems.ToldBefore | internal/state-api/server.go:130-137 | An accepted report is preceded by a heartbeat of that agent with the same address, flag and statuses |
| ProtocolTheorems.FlagBefore | internal/agent/hb-collector/hb.go:164-165 | A heartbeat that says prepared is preceded by its agent touching the prepared flag |
| ProtocolTheorems.BootstrapBefore | internal/agent/target-state-handler/bootstrap_new_cluster.go:62-70 | The flag of the primary is preceded by its start with `--wsrep-new-cluster` |
| ProtocolTheorems.SingleBootstrapper | internal/agent/target-state-handler/handler.go:86-92 | Over a whole run at most one node name is ever started with `--wsrep-new-cluster`, and it is the primary's |
| ProtocolTheorems.Membership | internal/controller/cluster/process_new_cluster.go:57-118 | Keys are `node-1` to `node-n` without gaps, n at most max(1, replicas), or just the first primary; exactly one record is primary |
| ProtocolTheorems.LateCreation | internal/in-memory-storage/storage.go:124-136 | A pending creation, however stale, adds the next index or overwrites a secondary of a seeded cluster; it names a stored primary exactly in a cluster that started without nodes and now has one |
| ProtocolTheorems.LateCreationWipesReport | internal/controller/cluster/process_new_cluster.go:20-53 | A run from the empty store: two scans overlap, and the second creation replaces the primary and wipes its accepted report |
| ProtocolTheorems.EmptyStartStaysSingle | internal/controller/cluster/process_new_cluster.go:21-53 | From an empty store there is never more than one node and it never has a status |
| ProtocolTheorems.EvidenceBehindActive | internal/controller/node/node.go:55-79 | Every ACTIVE record, stored, held or pending, is of a node whose agent has sent a heartbeat, prepared and with cluster status Primary, that was accepted |
| ProtocolTheorems.ReportsAreTold | internal/state-api/server.go:113-141 | Every report in a record, stored, held or pending, says in every field what the node's agent has once sent |
| ProtocolTheorems.ReconcileWritesItsSnapshot | internal/controller/node/process_new_node.go:82-91 | Whatever a reconcile is going to write back has the report, the image, the role and the cluster of a record of that node that was stored before |
| ProtocolTheorems.HeartbeatWritesItsSnapshot | internal/state-api/server.go:130-137 | Whatever a heartbeat handler is going to write back is, but for the report, a record of that node that was stored before |
| ProtocolTheorems.CreatedAsAsked | internal/controller/cluster/process_new_cluster.go:24-108 | Every node is created with the cluster's image, told to report, without addresses and without a report; secondaries are not told to start anything |
| ProtocolTheorems.EvidenceBehindCreation | internal/controller/cluster/process_new_cluster.go:20-116 | Every creation of `node-(k+1)` follows one scan that found exactly `node-1` to `node-k`, all ACTIVE; the creation of the first primary of an empty cluster follows a scan of an empty store |
| ProtocolTheorems.JoinTargetsAreReal | internal/controller/node/process_new_node.go:66-94 | Every join target, stored, pending or delivered, has at least two addresses, none empty, each sent by the agent of a node that is in the store in a heartbeat that was accepted, one of them by the primary's |
| ProtocolTheorems.PrimaryIsToldToBootstrap | internal/controller/node/process_new_node.go:40-45 | In every run, every target of the primary, stored, held, pending or delivered, has the bootstrap, start and report flags set and no addresses |
| ProtocolTheorems.IdentityIsFixed | internal/state-api/server.go:113-141 | No record disappears, and no interleaving changes name, cluster, image, role or the bootstrap mark of a stored node |
| ProtocolTheorems.StaleHeartbeatRegresses | internal/state-api/server.go:113-141 | A concrete run in which a stale heartbeat write takes `node-1` from ACTIVE back to CREATING |
| ProtocolTheorems.TwoJoinAtOnce | internal/controller/cluster/process_new_cluster.go:79-118 | A concrete run that ends with `node-1` and `node-2` both CREATING: scan, stale heartbeat write, creation |
| Regression.SettledForever | internal/controller-manager/controller_manager.go:103-107 | A node that is ACTIVE and that no operation in flight threatens stays so in every state that can follow, over all interleavings |
| Regression.RegressesIffThreatened | internal/state-api/server.go:113-141 | From a reachable state an ACTIVE node can lose that status exactly if some operation in flight threatens it |
| Regression.Strike | internal/controller/node/process_new_node.go:40-58 | Any threat can come true: a continuation in which the node is no longer ACTIVE, and no other status and no other operation has changed |
| Regression.StaleReconcileOccurs | internal/controller/node/process_new_node.go:40-58 | A reachable state in which the primary is ACTIVE and a reconcile with an older, unready snapshot will put it back |
| Regression.LateCreationOccurs | internal/in-memory-storage/storage.go:124-136 | A reachable state in which a secondary is ACTIVE and a second creation of it is pending |
| Regression.OneJoinsUnlessRegressed | internal/controller/cluster/process_new_cluster.go:61-86 | In a seeded interleaved run in which no step puts an ACTIVE node back, at most one stored node is not ACTIVE, and it is the newest |
| Regression.TwoJoinIffRoom | internal/controller/cluster/process_new_cluster.go:79-118 | From a reachable state of a seeded cluster, two nodes can ever be joining at once exactly if the settled nodes leave at least two of its places, which are max(1, replicas) while it is being created and else one |
| Regression.ActivatesThreatened | internal/state-api/server.go:113-141 | From any reachable state of a seeded cluster a joining node can become ACTIVE while a stale heartbeat write to it is pending, with all other statuses as they were |
| Regression.GetsActive | internal/controller/node/node.go:55-79 | From any reachable state of a seeded cluster a joining node can become ACTIVE, with its flag touched and its ready report stored, all other statuses as they were and the same operations in flight |
| Regression.NeverWedged | internal/controller/cluster/process_new_cluster.go:74-123 | From any reachable state of a seeded cluster, whatever is in flight, a state can be reached in which all its places are taken and ACTIVE, and stay so in everything that can follow |
| Regression.LostOnlyToThreat | internal/controller-manager/controller_manager.go:103-107 | In a run, a node that is ACTIVE at one position and not at a later one was threatened by an operation in flight at the first |
| ProtocolInvariant.InitialInv | internal/in-memory-storage/storage.go:46-64 | The seeded and the empty store satisfy the invariant |
| ProtocolInvariant.StepKeepsInv | internal/controller-manager/controller_manager.go:84-111 | Every step of every handler keeps the invariant over the store and all operations in flight |
| ProtocolInvariant.RunInv | internal/controller-manager/controller_manager.go:103-107 | Every state of every run satisfies the invariant, with overlapping reconciles on stale snapshots |
| ProtocolInvariant.ScanKeepsInv | internal/controller/cluster/process_new_cluster.go:14-19 | Whatever a scan decides to create is accounted for by what the scan saw |
| ProtocolInvariant.CreationFits | internal/controller/cluster/process_new_cluster.go:20-116 | Committing a pending creation keeps the membership within its bounds for both starts; it is the primary's exactly in a cluster that started without nodes |
| ProtocolInvariant.PlannedRecord | internal/controller/node/process_new_node.go:34-58 | What the node controller plans on a snapshot keeps identity and role, and ACTIVE is backed by a ready heartbeat |
| ProtocolInvariant.GatheredTarget | internal/controller/node/process_new_node.go:66-84 | A listing without an empty address, made for an existing secondary, yields a complete and real join target |
| ProtocolInvariant.ReceiveKeepsInv | internal/state-api/server.go:113-130 | A heartbeat merged into the record read for it keeps everything but the report |
| ProtocolInvariant.HandleKeepsInv | internal/agent/target-state-handler/handler.go:86-99 | A delivered target makes an agent bootstrap only at the primary and join only elsewhere |
| Atomic.ActionEffect | internal/controller/node/node.go:34-53 | Run atomically, an action creates the next node, or activates the waiting one, or changes neither membership nor statuses |
| Atomic.OneJoinsAtATime | internal/controller/cluster/process_new_cluster.go:61-86 | In the atomic model at most one node is not ACTIVE, and it is the one created last |
| Atomic.ActiveIsForever | internal/controller/node/node.go:59-62 | In the atomic model no action takes a node's status away from ACTIVE |
| Atomic.ActionFrame | internal/controller/node/node.go:68-79 | What an action leaves alone: all nodes but the one it concerns; a reconcile never changes a report, a heartbeat stores what was sent and changes nothing else, and nothing changes the image |
| Atomic.MeasureDrops | internal/controller/cluster/process_new_cluster.go:74-123 | The number of missing creations and activations drops by one with each of them and is changed by nothing else |
| Atomic.FinishedIffNothingRemains | internal/controller/cluster/process_new_cluster.go:86-123 | The measure is zero exactly when max(1, replicas) nodes exist and all are ACTIVE |
| Atomic.FinishedIsFixpoint | internal/controller/cluster/process_new_cluster.go:121-123 | The finished store is a fixpoint of both controllers; in any other the cluster can create or a node is waiting |
| Atomic.ReadyIsActivated | internal/controller/node/process_new_node.go:60-64 | A waiting node that reports ready is activated by its next reconcile |
| Atomic.SecondaryIsToldToJoin | internal/controller/node/process_new_node.go:66-94 | A waiting secondary that is not ready is told to join, with exactly the addresses of all members, and the rest of its record is kept |
| Atomic.PrimaryIsToldToBootstrap | internal/controller/node/process_new_node.go:34-58 | In every reachable store of the atomic model the primary is told to bootstrap, and its reconcile changes nothing at all unless it waits and has reported ready |
| Atomic.FairRoundsFinish | internal/controller/node/node.go:55-80 | From any reachable store, as many fair rounds as the measure says finish the cluster, with arbitrary other actions before, between and after the report, the node's reconcile and the cluster's |
| Atomic.Convergence | internal/in-memory-storage/storage.go:46-64 | From the seeded store, 2 max(1, replicas) - 1 fair rounds reach all replicas, all ACTIVE |
| Atomic.AtomicIsInterleaved | internal/controller-manager/controller_manager.go:103-107 | Every atomic action is a stretch of interleaved steps that leaves no operation behind |
| ControlPlane.ListingIsComplete | internal/in-memory-storage/node.go:13-32 | A listing without repetitions and of the right size leaves no member out |
| ControlPlane.ListingsArePermutations | internal/in-memory-storage/node.go:15-30 | Any two listings of the same members are permutations of each other |
| ControlPlane.CreatesIff | internal/controller/cluster/process_new_cluster.go:20-92 | A node is created exactly if the cluster is being created and has none, or has exactly one primary, only ACTIVE nodes and fewer than asked for; and how it is named |
| Controllers.Scan | internal/controller/cluster/process_new_cluster.go:57-72 | One pass over a listing in any order counts the members and the primaries and finds out whether all are ACTIVE |
| Controllers.Decide | internal/controller/cluster/process_new_cluster.go:57-92 | The guards and the chosen node are a function of the set of members, whatever the order of the listing |
| Controllers.ClusterController.ProcessNewCluster | internal/controller/cluster/process_new_cluster.go:14-124 | The store afterwards is the store before with the planned node added; a bad node record fails it and changes nothing |
| Controllers.ClusterController.Reconcile | internal/controller/cluster/cluster.go:34-53 | A reconcile of a cluster record is the atomic model's cluster action; it never reports success and fails exactly if the record, or while creating some node record, does not decode |
| Controllers.NodeController.GatherAddresses | internal/controller/node/process_new_node.go:72-80 | The addresses of all listed nodes in order, or nothing if one of them is empty |
| Controllers.NodeController.GatherPeers | internal/controller/node/process_new_node.go:66-97 | A secondary's second storage call: the whole new store, given the listing it saw |
| Controllers.NodeController.ProcessNewPrimary | internal/controller/node/process_new_node.go:34-58 | Success exactly on a ready report; otherwise the record with the bootstrap target is written back |
| Controllers.NodeController.ProcessNewSecondary | internal/controller/node/process_new_node.go:60-98 | Success exactly on a ready report; otherwise the gathered target is written back or nothing |
| Controllers.NodeController.Activate | internal/controller/node/node.go:55-80 | Only a snapshot that is CREATING is written back, as ACTIVE |
| Controllers.NodeController.Reconcile | internal/controller/node/node.go:34-53 | The whole new store as a function of the snapshot, the old store and the listing; exactly when it reports success and exactly when an error |
| Controllers.NodeController.FreshOutcomeIsAtomic | internal/controller/node/node.go:34-80 | On a fresh snapshot the reconcile is the atomic model's node action |
| Controllers.Server.HandleHeartbeat | internal/state-api/server.go:98-145 | Although no error branch returns, an unknown or empty name changes nothing; a known one gets, field by field, the report as it came, and everything else stays |
| Controllers.Server.HandleTargetState | internal/state-api/server.go:147-182 | The stored target of the named node, or an error exactly if there is no such node |
| Controllers.InitStorage | internal/in-memory-storage/storage.go:19-113 | After `Init` the store has exactly the one cluster record and exactly the seed the protocol starts from |
| Controllers.NewStorage | internal/in-memory-storage/storage.go:115-122 | The same for the configured cluster: its name, its image, three replicas, being created |
| Controllers.FirstResources | internal/controller/cluster/cluster.go:25-32 | From there the cluster controller lists exactly that cluster |
| Controllers.GetResources | internal/controller/node/node.go:25-32 | A controller reconciles copies of exactly the records of its kind, each once |
| Records.RecordsRoundTrip | internal/entities/node/betav1/node.go:31-69 | Typed records survive the way into general records and back |
| Records.PutNodeIsPut | internal/in-memory-storage/storage.go:124-136 | Storing a node changes that node's record and no other node's |
| Records.StoreRefinesMap | internal/in-memory-storage/storage.go:124-204 | For kinds that do not overlap, every sequence of creates, gets, updates, deletes and listings is answered as a map by kind and name would answer it |
| Records.ServeRefines | internal/in-memory-storage/storage.go:138-175 | One request keeps the string-keyed store and the abstract map in step and answers alike |
| Records.StoreIsMapIff | internal/in-memory-storage/storage.go:133-134 | That holds for all sequences over a set of kinds exactly if none of the kinds goes on behind a slash where another one ends |
| Records.SlashFreeKindsAreSeparate | internal/in-memory-storage/storage.go:133-134 | Kinds without slashes meet that condition |
| Records.OverlapShows | internal/in-memory-storage/storage.go:145-156 | For any two overlapping kinds, two requests that read one resource back as another |
| InMemoryStorage.Storage.CreateResource | internal/in-memory-storage/storage.go:124-136 | An upsert of a deep copy: the store never takes over the caller's message |
| InMemoryStorage.Storage.GetGeneralResource | internal/in-memory-storage/storage.go:138-157 | A fresh deep copy, the zero record if absent, an error if name or kind is empty |
| InMemoryStorage.Storage.UpdateGeneralResource | internal/in-memory-storage/storage.go:159-175 | Replaces an existing record by a deep copy and fails on a missing one |
| InMemoryStorage.Storage.DeleteGeneralResource | internal/in-memory-storage/storage.go:177-184 | Removes exactly that key |
| InMemoryStorage.Storage.ListGeneralResourcesByKind | internal/in-memory-storage/storage.go:186-204 | Each record of the kind exactly once, as a fresh copy, for any iteration order |
| InMemoryStorage.Storage.GetNodesByCluster | internal/in-memory-storage/node.go:9-33 | Each stored node whose record names the cluster, exactly once, for any iteration order; an error exactly if some node record does not decode |
| InMemoryStorage.CallersCannotReachIn | internal/in-memory-storage/storage.go:128-156 | Changing a message that was passed in or returned never changes the store |
| Names.DecimalInjective | internal/controller/cluster/process_new_cluster.go:92 | Different numbers are formatted differently |
| Names.NodeNameInjective | internal/controller/cluster/process_new_cluster.go:92 | Different indices give different node names |
| Names.DecimalReadsBack | internal/controller/cluster/process_new_cluster.go:92 | A formatted number reads back as that number and has no leading zero |
| Names.NodeNameReadsBack | internal/controller/cluster/process_new_cluster.go:92 | So does a node's name: `node-2` is the second node |
| Names.FormatsReadBack | internal/in-memory-storage/storage.go:133 | The parts of a storage key and of the first primary's name, and where they stand |
| Names.FirstIsNotNumbered | internal/controller/cluster/process_new_cluster.go:27 | The first primary's name never equals a numbered node's, whatever the cluster is called |
| Names.FirstNodeNameInjective | internal/controller/cluster/process_new_cluster.go:27 | First primaries of different clusters have different names |
| Names.StorageKeyInjective | internal/in-memory-storage/storage.go:133 | With slash-free kinds, keys are equal exactly if kind and name are |
| Names.KindsCollideIff | internal/in-memory-storage/storage.go:133 | Two different kinds have a key in common exactly if one of them goes on behind a slash where the other ends |
| ProcessManager.MutualExclusion | internal/agent/mariadb/manager/manager.go:35-60 | For any number of callers each mutex is held exactly if one thread owns it, and by that one alone |
| ProcessManager.OneChild | internal/agent/mariadb/manager/manager.go:46-84 | At most one child is alive, it is the newest, and none is started meanwhile |
| ProcessManager.RunningHasItsFinalizer | internal/agent/mariadb/manager/manager.go:79-104 | State running means that the finalizer of exactly the recorded process is still to come |
| ProcessManager.FinalizerWritesItsOwn | internal/agent/mariadb/manager/manager.go:92-104 | A finalizer resets the fields of its own exited process, never those of a newer one |
| ProcessManager.NextRunFindsNothing | internal/agent/mariadb/manager/manager.go:35-47 | A call gets past `started` only when no child is alive and the fields are reset |
| ProcessManager.AlreadyRunningIsUnreachable | internal/agent/mariadb/manager/manager.go:56-58 | The early return for a running database is never taken |
| ProcessManager.FieldsAgree | internal/agent/mariadb/manager/manager.go:79-103 | While `mu` is free, the process id is that of the newest process exactly if State is running, else zero, and a live child means running |
| ProcessManager.StopHasAProcess | internal/agent/mariadb/manager/manager.go:106-122 | StopMariaDB only signals a process that was started, and the newest one |
| ProcessManager.EveryStopSignals | internal/agent/mariadb/manager/manager.go:106-122 | Every call of StopMariaDB that has returned found the status at some moment: a process then alive was asked to exit, and if none was running nobody was |
| ProcessManager.StopSignalsWhatItFinds | internal/agent/mariadb/manager/manager.go:109-113 | What a call finds at its check determines whom it has signalled when it returns |
| ProcessManager.EveryGetReads | internal/agent/mariadb/manager/manager.go:86-90 | Every call of GetState returns a status that the manager had during the call |
| ProcessManager.EveryRunStarts | internal/agent/mariadb/manager/manager.go:75-83 | Every call of RunMariaDB that has returned tried one start, and returns the process with the id that the operating system gave it, or the failure |
| ProcessManager.CrashIffNeverStarted | internal/agent/mariadb/manager/manager.go:92-97 | A step ends the agent exactly if it is a finalizer and no start has ever succeeded |
| ProcessManager.FirstFailureCrashes | internal/agent/mariadb/manager/manager.go:75-77 | A run that gets there: the first start fails |
| ProcessManager.Progress | internal/agent/mariadb/manager/manager.go:46-123 | No deadlock: while anything is unfinished, a step other than a new call is possible |
| ProcessManager.WorkDrops | internal/agent/mariadb/manager/manager.go:46-123 | Every step but a new call or a crash lowers the work left |
| ProcessManager.EveryCallReturns | internal/agent/mariadb/manager/manager.go:46-123 | Without new calls every schedule ends within a bound, with all calls returned, both locks free and no child left |
| ManagerProjection.StepIsShown | internal/agent/mariadb/manager/manager.go:46-104 | Every step of the machine with any number of callers is, for the agent, an exit, a finalizer, a start that succeeds or fails, or nothing |
| ManagerProjection.RunIsShown | internal/agent/mariadb/manager/manager.go:46-123 | Every run of the machine has a view as a history of agents that follow each other by those events |
| ManagerProjection.CallIsOneStep | internal/agent/mariadb/manager/manager.go:46-84 | A call of RunMariaDB during which nobody else starts a process has, at its start, exactly the effect that the agent's steps give it |
| AgentSteps.ConfigureMeaning | internal/agent/target-state-handler/bootstrap_new_cluster.go:75-114 | A restart is needed exactly if the file was not seen or differed; success means the file holds the rendered content; the exact causes of failure |
| AgentSteps.CollisionKeepsOldFile | internal/agent/target-state-handler/bootstrap_new_cluster.go:97-103 | A success leaves another content in the file exactly on a hash collision |
| AgentSteps.ReconcileKeepsFresh | internal/agent/target-state-handler/bootstrap_new_cluster.go:49-65 | A reconcile keeps the live process on the present file exactly unless a write fails halfway beside a live process |
| AgentSteps.LiveProcessIsCurrent | internal/agent/target-state-handler/join_to_cluster.go:17-33 | Over any sequence of targets, stale reports, start failures and deaths, a live process was started after the last change of the file |
| AgentSteps.RecoveryIff | internal/agent/target-state-handler/bootstrap_new_cluster.go:53-60 | When a successful configure-and-run leaves an outdated process alive |
| AgentSteps.OutdatedSurvivesIff | internal/agent/target-state-handler/bootstrap_new_cluster.go:49-65 | Over any sequence of events an outdated process lives on exactly if it does not exit and every reconcile that acts either finds the file with the hash of the wanted content, or fails for lack of an address, of a readable file or of a completed write; and then it stays outdated |
| AgentSteps.StaysTracked | internal/agent/target-state-handler/bootstrap_new_cluster.go:106-110 | Over any events a live process is current exactly if the file has not changed since its start |
| AgentSteps.SpoiledForGood | internal/agent/target-state-handler/bootstrap_new_cluster.go:97-103 | An outdated process beside a file with some content: over any events without an exit in which every reconcile that acts asks for that content, can read it and suffers no exit, nothing changes at all |
| AgentSteps.SpoiledForGoodIsReachable | internal/agent/target-state-handler/bootstrap_new_cluster.go:106-110 | From a new agent: one healthy reconcile and one failed write, after which the first process lives on over all such events |
| AgentSteps.DoomIff | internal/agent/mariadb/manager/manager.go:75-77 | A reconcile ends the agent exactly if it gets as far as a start, that start fails, and none has succeeded before |
| AgentSteps.DoomedNeverStarted | internal/agent/mariadb/manager/manager.go:92-97 | Over any events an agent that has once started a process never ends that way, and one that does leaves no process behind |
| AgentSteps.StatusCoversChild | internal/agent/mariadb/manager/manager.go:79-103 | Over any sequence of events a live process means that the manager says running |
| AgentSteps.ReconcileIsIdempotent | internal/agent/target-state-handler/join_to_cluster.go:17-23 | After a success, the same target, address and a running report change nothing, stop nothing and start nothing |
| AgentSteps.OtherOrderRestarts | internal/controller/node/process_new_node.go:72-82 | The same addresses in another order stop and restart a running secondary |
| AgentSteps.StartsAsTold | internal/agent/target-state-handler/handler.go:86-99 | At most one start, with `--wsrep-new-cluster` exactly for a bootstrap target, and the flag only after a start |
| AgentSteps.HealthyReconcileStarts | internal/agent/target-state-handler/bootstrap_new_cluster.go:48-72 | When nothing fails, a target that asks for it gets its process on the wanted file, and the flag |
| AgentSteps.CollectionTellsStatus | internal/agent/hb-collector/hb.go:167-187 | A collection caches the status that the manager has, and changes nothing else |
| AgentSteps.ReconcileGoesByReport | internal/agent/hb-collector/hb.go:133-147 | A reconcile goes by the cached report, however old, and collects one only if there is none |
| AgentSteps.DeadIsRestarted | internal/agent/target-state-handler/join_to_cluster.go:21-29 | A process that has died, been finalized and been reported is started again by the next healthy reconcile, on the wanted file |
| AgentSteps.DeadIsRestartedIff | internal/agent/target-state-handler/bootstrap_new_cluster.go:53-55 | Before that a healthy reconcile starts it exactly unless the cached report still says running and the file is as wanted; then it does nothing and succeeds |
| AgentSteps.ProcessAfterReconcile | internal/agent/target-state-handler/bootstrap_new_cluster.go:57-72 | Which process a reconcile leaves: the new one unless it exits again, none after a failed start, and without a restart the old one unless it exits meanwhile |
| AgentSteps.ReconcileSucceedsIff | internal/agent/target-state-handler/handler.go:69-102 | Exactly when a reconcile reports success, in terms of the target, the file, the cached status and what fails |
| AgentPath.ReconcileIsPath | internal/agent/target-state-handler/handler.go:69-102 | A reconcile of a delivered target is a path of the protocol that uses it up, records a start exactly if one succeeds and the flag exactly if it is touched, and keeps protocol and agent agreed on the flag |
| AgentPath.LifeIsPath | internal/agent/target-state-manager/manager.go:134-179 | The whole life of an agent, over any events, is such a path |
| AgentProcess.MariaDBManager.RunMariaDB | internal/agent/mariadb/manager/manager.go:46-84 | For one caller: the previous process is gone and finalized; the new one is recorded, or none on failure, and a failed first start dooms the agent |
| AgentProcess.MariaDBManager.Finalize | internal/agent/mariadb/manager/manager.go:92-104 | The process id is reset and State is stopped |
| AgentProcess.MariaDBManager.StopMariaDB | internal/agent/mariadb/manager/manager.go:106-122 | Signals the recorded process exactly if State is running, and every live process is signalled |
| AgentProcess.Reconciler.ConfigureGalera | internal/agent/target-state-handler/bootstrap_new_cluster.go:75-114 | The new file and the restart decision are those of the specified configuration step |
| AgentProcess.Reconciler.NewCluster | internal/agent/target-state-handler/bootstrap_new_cluster.go:41-73 | Configure, decide, stop, bootstrap and flag: the whole new state |
| AgentProcess.Reconciler.JoinCluster | internal/agent/target-state-handler/join_to_cluster.go:14-41 | The same for a plain start |
| AgentProcess.Reconciler.CollectReport | internal/agent/hb-collector/hb.go:133-147 | The cached, possibly stale, report is used, and collected first only if there is none |
| AgentProcess.Reconciler.Reconcile | internal/agent/target-state-handler/handler.go:69-102 | The dispatch: the whole new state and result of one reconcile |
| AgentProcess.Reconciler.RunForever | internal/agent/target-state-manager/manager.go:134-179 | Over any sequence of events the state is the specified one, and a live process runs the current configuration unless a write failed halfway |
| Rendering.SequentialIsSimultaneous | internal/agent/target-state-handler/bootstrap_new_cluster.go:83-85 | For every template and all values in which no placeholder begins, the three successive replacements are one simultaneous substitution and leave no placeholder anywhere |
| Rendering.RenderIsSubstitution | internal/agent/target-state-handler/bootstrap_new_cluster.go:81-85 | The same for the Galera configuration |
| Rendering.RenderedText | internal/agent/target-state-handler/bootstrap_new_cluster.go:81-85 | The file has the addresses in their order with the own address last, then the own address as the node's name and as its address |
| Rendering.NilIsPlain | internal/agent/hb-collector/hb.go:155-160 | The address `<nil>` of an agent that cannot find its own is among the addresses for which these statements hold |
| Rendering.OrdinaryIsPlain | internal/agent/target-state-handler/bootstrap_new_cluster.go:81-85 | So is every address without `<`, comma and quote |
| Rendering.JoinInjective | internal/agent/target-state-handler/bootstrap_new_cluster.go:81 | Comma-free lists have the same joined form exactly if they are equal, or empty and one empty item |
| Rendering.RenderInjective | internal/agent/target-state-handler/bootstrap_new_cluster.go:81-85 | Equal files exactly for equal own addresses and equal address lists, order included, up to that one pair |
| Launcher.BoundedLaunching | internal/controller-manager/controller_manager.go:89-107 | At every moment of every schedule the tokens in the channel are launched minus finished plus the one in hand, and at most 20 reconciles are in flight |
| Launcher.LaunchesPrefix | internal/controller-manager/controller_manager.go:91-111 | The launched positions are 0, 1, 2 and so on, each once; after the return they are all of them unless the context was cancelled |
| Launcher.SendWaitsIff | internal/controller-manager/controller_manager.go:98 | The loop waits in its send exactly while 20 launched reconciles have not given their token back |
| Launcher.ReceiveNeverWaits | internal/controller-manager/controller_manager.go:104 | A goroutine that is done always finds a token to receive |
| Launcher.CancelStops | internal/controller-manager/controller_manager.go:92-96 | After a cancellation at most one more reconcile is launched, and none if the loop stands before its check |
| Launcher.Progress | internal/controller-manager/controller_manager.go:91-107 | No deadlock: until the loop has returned and all goroutines are gone, some step other than a cancellation is possible |
| Launcher.EveryIterationEnds | internal/controller-manager/controller_manager.go:84-111 | Every schedule ends within a bound, with all goroutines gone, the channel empty, and everything launched unless cancelled |
| Launcher.Iteration.SendToken | internal/controller-manager/controller_manager.go:98 | The send as it runs: anything may happen while it waits, and with a full channel it waits for a goroutine to give its token back |
| Launcher.Iteration.DoIteration | internal/controller-manager/controller_manager.go:84-111 | The loop as it runs, with cancellations and goroutines in between: it launches in order up to the first resource for which it finds the context cancelled, and every moment of it is a state of a run, so all of the above holds throughout |
| Iterations.BoundPerIteration | internal/controller-manager/controller_manager.go:65-111 | Over all iterations of a controller, only the last one loops, and at most 20 reconciles are in flight for each one that is not over |
| Iterations.BoundIsReached | internal/controller-manager/controller_manager.go:89-110 | For every number of iterations a history in which each has returned and all of its 20 reconciles are still in flight |

## Left out

- HTTP, routing and the polling clients: a request is one delivery step, and a body that does not decode is an absent report.
- JSON text: a message is a cell that holds the decoded record; the cluster's namespace, which the conversion drops, device lists, tasks, configuration maps and the Galera cluster size are not part of the records.
- Several clusters in one store: names of secondaries are not qualified by cluster, so two clusters would overwrite each other's nodes; the protocol models one cluster with any number of replicas.
- Changes of the cluster record: nothing writes it after its creation, so replicas and image are constants of a run.
- Deletion, updating and error statuses: the constants exist, no controller acts on them, and nothing calls the store's delete.
- SQL, Galera, the operating system and the network: contents of heartbeats, exits, start failures and file errors are choices of the environment.
- Clocks: tickers are arbitrary scheduling, and a timestamp is only zero or not zero.
- Integer width: counters and indices are unbounded.
- internal/k8s-controller/cluster: a copy of the cluster controller whose resource list is always empty.
- internal/agent/tasks and internal/agent/task-handler: a second, unwired copy of the configure-and-run path.
- internal/agent/mariadb/service: plain queries and the parser of the saved Galera state, which nothing calls.
- AgentProcess.MariaDBManager.RunMariaDB: is stated for one caller at a time; `ManagerProjection.CallIsOneStep` shows that this is what the machine with any number of callers does. What a doomed agent may still do before the finalizer ends it is not followed.
- Records.RecordsRoundTrip: the message holds the decoded record, so the round trip says that conversion keeps every field of the model and not that the text is parsed back.
- ProcessManager: the statements inside a critical section that only assign fields are one step, because `mu` is held throughout; the signal itself has no effect beyond the exit it may cause.
