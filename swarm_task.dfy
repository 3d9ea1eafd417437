/** Swarm tasks of `src/swarm/task.rs`: one scheduled unit of a service,
    whose observed state the scheduler moves by setting fields in place. The
    transitions carry no guards; only `is_terminal` classifies states. */
module SwarmTask {
  import opened Common

  datatype TaskState =
    | New | Pending | Assigned | Accepted | Preparing | Ready | Starting | Running
    | Complete | Shutdown | Failed | Rejected | Remove | Orphaned

  /** `is_terminal` on a state. */
  predicate Terminal(s: TaskState)
  {
    s in {Complete, Failed, Rejected, Remove, Orphaned}
  }

  /** The states a task can still leave are exactly the non-terminal ones;
      `Shutdown` is not terminal, and neither is anything up to `Running`. */
  lemma TerminalStates(s: TaskState)
    ensures Terminal(s) <==> s.Complete? || s.Failed? || s.Rejected? || s.Remove? || s.Orphaned?
    ensures s.Shutdown? || s.Running? || s.New? ==> !Terminal(s)
  {
  }

  datatype ContainerStatus = ContainerStatus(containerId: string, pid: Option<int>, exitCode: Option<int>)

  /** `TaskStatus` without the timestamp and port status. */
  datatype TaskStatus = TaskStatus(state: TaskState, message: string, err: Option<string>,
                                   containerStatus: Option<ContainerStatus>)

  /** `TaskStatus::default`. */
  const DefaultStatus := TaskStatus(New, "", None, None)

  class Task {
    const id: string
    const serviceId: string
    const slot: Option<nat>
    var nodeId: Option<string>
    var status: TaskStatus
    var desiredState: TaskState
    var version: nat
    const createdAt: int
    var updatedAt: int

    /** `Task::new`: a New task that should be Running, at version 1. */
    constructor (id: string, serviceId: string, slot: Option<nat>, now: int)
      ensures this.id == id && this.serviceId == serviceId && this.slot == slot
      ensures nodeId == None && status == DefaultStatus && status.state == New
      ensures desiredState == Running && version == 1
      ensures createdAt == now && updatedAt == now
    {
      this.id := id;
      this.serviceId := serviceId;
      this.slot := slot;
      nodeId := None;
      status := DefaultStatus;
      desiredState := Running;
      version := 1;
      createdAt := now;
      updatedAt := now;
    }

    predicate IsTerminal()
      reads this
      ensures IsTerminal() <==> status.state in {TaskState.Complete, TaskState.Failed, TaskState.Rejected, TaskState.Remove, TaskState.Orphaned}
    {
      TerminalStates(status.state);
      Terminal(status.state)
    }

    predicate IsRunning()
      reads this
      ensures IsRunning() ==> !Terminal(status.state)
    {
      TerminalStates(status.state);
      status.state == Running
    }

    /** `assign`: records the node and moves to Assigned. */
    method Assign(node: string, now: int)
      modifies this
      ensures nodeId == Some(node) && status == old(status).(state := Assigned)
      ensures desiredState == old(desiredState) && version == old(version) && updatedAt == now
    {
      nodeId := Some(node);
      status := status.(state := Assigned);
      updatedAt := now;
    }

    /** `start`: moves to Starting. */
    method Start(now: int)
      modifies this
      ensures status == old(status).(state := Starting)
      ensures nodeId == old(nodeId) && desiredState == old(desiredState) && version == old(version) && updatedAt == now
    {
      status := status.(state := Starting);
      updatedAt := now;
    }

    /** `set_running`: moves to Running with a fresh container status. */
    method SetRunning(containerId: string, now: int)
      modifies this
      ensures status == old(status).(state := Running, containerStatus := Some(ContainerStatus(containerId, None, None)))
      ensures IsRunning() && !IsTerminal()
      ensures nodeId == old(nodeId) && desiredState == old(desiredState) && version == old(version) && updatedAt == now
    {
      status := status.(state := Running, containerStatus := Some(ContainerStatus(containerId, None, None)));
      updatedAt := now;
    }

    /** `complete`: moves to Complete; the exit code is recorded only when
        there is a container status to hold it. */
    method Complete(exitCode: int, now: int)
      modifies this
      ensures status.state == TaskState.Complete && IsTerminal()
      ensures old(status.containerStatus).None? ==> status.containerStatus == None
      ensures old(status.containerStatus).Some? ==>
        status.containerStatus == Some(old(status.containerStatus).value.(exitCode := Some(exitCode)))
      ensures status.err == old(status.err) && status.message == old(status.message)
      ensures nodeId == old(nodeId) && desiredState == old(desiredState) && version == old(version) && updatedAt == now
    {
      var cs := status.containerStatus;
      if cs.Some? {
        cs := Some(cs.value.(exitCode := Some(exitCode)));
      }
      status := status.(state := TaskState.Complete, containerStatus := cs);
      updatedAt := now;
    }

    /** `fail`: moves to Failed and records the error. */
    method Fail(error: string, now: int)
      modifies this
      ensures status == old(status).(state := Failed, err := Some(error))
      ensures IsTerminal()
      ensures nodeId == old(nodeId) && desiredState == old(desiredState) && version == old(version) && updatedAt == now
    {
      status := status.(state := Failed, err := Some(error));
      updatedAt := now;
    }

    /** `shutdown`: only the desired state changes (and the timestamp). */
    method Shutdown(now: int)
      modifies this
      ensures desiredState == TaskState.Shutdown
      ensures status == old(status) && nodeId == old(nodeId) && version == old(version) && updatedAt == now
    {
      desiredState := TaskState.Shutdown;
      updatedAt := now;
    }
  }
}
