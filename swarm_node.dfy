/** Swarm nodes of `src/swarm/node.rs`: a machine's role, state,
    availability and labels, changed in place by promote/demote and the
    label methods. */
module SwarmNode {
  import opened Common

  datatype NodeRole = Worker | Manager

  datatype NodeState = Unknown | Down | Ready | Disconnected

  datatype ManagerStatus = ManagerStatus(leader: bool, reachability: string, addr: string)

  /** The parts of `NodeDescription` the node reads back: host name and
      platform. Resources and engine details are left out. */
  datatype NodeDescription = NodeDescription(hostname: string, architecture: string, os: string)

  /** The swarm port a manager listens on, appended to its address. */
  const ManagerPort := ":2377"

  class Node {
    const id: string
    const hostname: string
    var role: NodeRole
    var state: NodeState
    var availability: string
    const addr: string
    var labels: map<string, string>
    const description: NodeDescription
    var managerStatus: Option<ManagerStatus>
    var version: nat
    const createdAt: int
    var updatedAt: int

    /** `Node::new_local`: a Ready, active node at 127.0.0.1; a manager is
        created as the reachable leader. The id, host name and platform are
        the environment's and are passed in. */
    constructor NewLocal(role: NodeRole, id: string, hostname: string, architecture: string, os: string, now: int)
      ensures this.role == role && this.id == id && this.hostname == hostname
      ensures state == Ready && availability == "active" && addr == "127.0.0.1" && labels == map[]
      ensures description == NodeDescription(hostname, architecture, os)
      ensures role == Manager ==> managerStatus == Some(ManagerStatus(true, "reachable", "127.0.0.1" + ManagerPort))
      ensures role == Worker ==> managerStatus == None
      ensures version == 1 && createdAt == now && updatedAt == now
      ensures IsAvailable() && (IsLeader() <==> role == Manager)
    {
      this.id := id;
      this.hostname := hostname;
      this.role := role;
      state := Ready;
      availability := "active";
      addr := "127.0.0.1";
      labels := map[];
      description := NodeDescription(hostname, architecture, os);
      managerStatus := if role == Manager then Some(ManagerStatus(true, "reachable", "127.0.0.1" + ManagerPort)) else None;
      version := 1;
      createdAt := now;
      updatedAt := now;
    }

    /** A copy of a node, as Rust's `clone` makes one. */
    constructor Clone(other: Node)
      ensures Same(other)
    {
      id := other.id;
      hostname := other.hostname;
      role := other.role;
      state := other.state;
      availability := other.availability;
      addr := other.addr;
      labels := other.labels;
      description := other.description;
      managerStatus := other.managerStatus;
      version := other.version;
      createdAt := other.createdAt;
      updatedAt := other.updatedAt;
    }

    /** Every field of this node equals the other's. */
    predicate Same(other: Node)
      reads this, other
    {
      && id == other.id && hostname == other.hostname && role == other.role && state == other.state
      && availability == other.availability && addr == other.addr && labels == other.labels
      && description == other.description && managerStatus == other.managerStatus
      && version == other.version && createdAt == other.createdAt && updatedAt == other.updatedAt
    }

    predicate IsManager()
      reads this
      ensures IsManager() <==> !role.Worker?
    {
      role == Manager
    }

    predicate IsLeader()
      reads this
      ensures IsLeader() ==> managerStatus.Some?
      ensures managerStatus.None? ==> !IsLeader()
    {
      managerStatus.Some? && managerStatus.value.leader
    }

    predicate IsReady()
      reads this
      ensures IsReady() <==> !(state.Unknown? || state.Down? || state.Disconnected?)
    {
      state == Ready
    }

    /** Schedulable: ready, and availability exactly "active". */
    predicate IsAvailable()
      reads this
      ensures IsAvailable() ==> IsReady()
      ensures IsReady() ==> (IsAvailable() <==> availability == "active")
    {
      IsReady() && availability == "active"
    }

    /** `promote`: a manager that is reachable at its address on the swarm
        port, and not the leader. */
    method Promote(now: int) returns (r: Outcome)
      modifies this
      ensures r == Pass
      ensures role == Manager && managerStatus == Some(ManagerStatus(false, "reachable", addr + ManagerPort))
      ensures IsManager() && !IsLeader()
      ensures state == old(state) && availability == old(availability) && labels == old(labels)
      ensures version == old(version) && updatedAt == now
    {
      role := Manager;
      managerStatus := Some(ManagerStatus(false, "reachable", addr + ManagerPort));
      updatedAt := now;
      r := Pass;
    }

    /** `demote`: a worker without manager status. */
    method Demote(now: int) returns (r: Outcome)
      modifies this
      ensures r == Pass
      ensures role == Worker && managerStatus == None
      ensures !IsManager() && !IsLeader()
      ensures state == old(state) && availability == old(availability) && labels == old(labels)
      ensures version == old(version) && updatedAt == now
    {
      role := Worker;
      managerStatus := None;
      updatedAt := now;
      r := Pass;
    }

    /** `set_availability`: any text is accepted; only "active" keeps the
        node schedulable. */
    method SetAvailability(value: string, now: int)
      modifies this
      ensures availability == value && updatedAt == now
      ensures role == old(role) && state == old(state) && labels == old(labels) && managerStatus == old(managerStatus)
      ensures version == old(version)
      ensures IsAvailable() <==> old(IsReady()) && value == "active"
    {
      availability := value;
      updatedAt := now;
    }

    /** `add_label`: inserts or overwrites one key. */
    method AddLabel(key: string, value: string, now: int)
      modifies this
      ensures labels == old(labels)[key := value]
      ensures role == old(role) && state == old(state) && availability == old(availability)
      ensures managerStatus == old(managerStatus) && version == old(version) && updatedAt == now
    {
      labels := labels[key := value];
      updatedAt := now;
    }

    /** `remove_label`: drops one key, present or not. */
    method RemoveLabel(key: string, now: int)
      modifies this
      ensures labels == old(labels) - {key} && key !in labels
      ensures role == old(role) && state == old(state) && availability == old(availability)
      ensures managerStatus == old(managerStatus) && version == old(version) && updatedAt == now
    {
      labels := labels - {key};
      updatedAt := now;
    }
  }

  /** Adding a label and removing it again leaves the other labels as they
      were and the key absent, whatever was stored under it before. */
  lemma AddThenRemoveLabel(labels: map<string, string>, key: string, value: string)
    ensures labels[key := value] - {key} == labels - {key}
    ensures key !in labels[key := value] - {key}
  {
  }
}
