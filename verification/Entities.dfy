/** The records exchanged by the control plane and the agents. */
module Entities {

  datatype Option<+T> = None | Some(value: T)

  /** Statuses of clusters and nodes. `Unset` is the empty string of a record whose status was never assigned. */
  datatype Status = Unset | Creating | Updating | Deleting | Active | Removed | Error

  datatype Role = Primary | Secondary | InvalidRole

  /** Status of the database process. `NoStatus` is the empty string of a report that was never filled in. */
  datatype ProcStatus = NoStatus | Running | Stopped | Failed | Unknown

  /** The value of `wsrep_cluster_status`; only "Primary" is ever distinguished. */
  datatype Wsrep = WsrepPrimary | WsrepOther(text: string)

  /** What an agent reports about its node. `stamped` says that the timestamp is not zero. */
  datatype Report = Report(
    name: string,
    stamped: bool,
    ip: string,
    prepared: bool,
    mariadb: ProcStatus,
    wsrep: Wsrep)

  /** What the control plane asks of an agent. */
  datatype Target = Target(
    gatherHB: bool,
    mariadbStarted: bool,
    galeraNewCluster: bool,
    role: Role,
    addresses: seq<string>)

  datatype Node = Node(
    name: string,
    clusterName: string,
    image: string,
    status: Status,
    target: Target,
    report: Report)

  datatype Cluster = Cluster(name: string, image: string, replicas: int, status: Status)

  const NO_REPORT := Report("", false, "", false, NoStatus, WsrepOther(""))

  const BOOTSTRAP_TARGET := Target(true, true, true, Primary, [])

  const IDLE_SECONDARY_TARGET := Target(true, false, false, Secondary, [])

  /** A report that lets a node become ACTIVE. */
  predicate Ready(r: Report) {
    r.prepared && r.wsrep == WsrepPrimary
  }
}
