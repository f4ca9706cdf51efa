/** Tasks and what the scheduler's events do to a single one. */
module Tasks {
  import opened Wrappers
  import opened Registry

  datatype TaskType = StatelessIdempotent | StatefulLongRunning | InteractiveLowLatency

  datatype TaskState =
    | Pending
    | Running(nodeId: string, startedAt: nat)
    | Completed(result: Bytes)
    | Failed(reason: string)

  datatype Task = Task(
    taskId: string,
    taskType: TaskType,
    payload: Bytes,
    maxRetries: nat,
    state: TaskState,
    currentRetry: nat,
    requiredCapabilities: seq<string>)

  datatype ExecutionResult =
    | Success
    | RetryNeeded(reason: string)
    | CheckpointSaved(checkpoint: Bytes)
    | ImmediateFailure(reason: string)

  type TaskMap = map<string, Task>

  function NewTask(taskId: string, taskType: TaskType, payload: Bytes, maxRetries: nat,
                   requiredCapabilities: seq<string>): Task
  {
    Task(taskId, taskType, payload, maxRetries, Pending, 0, requiredCapabilities)
  }

  /** Every task is stored under its own id. */
  ghost predicate KeyedTasks(tasks: TaskMap) {
    forall id | id in tasks :: tasks[id].taskId == id
  }

  /** A progress report. Only the retry branch looks at the task; none looks at its state. */
  function Progressed(t: Task, result: ExecutionResult): Task {
    match result
    case Success => t.(state := Completed([]))
    case CheckpointSaved(checkpoint) => t.(payload := checkpoint)
    case RetryNeeded(reason) =>
      if t.currentRetry < t.maxRetries
      then t.(currentRetry := t.currentRetry + 1, state := Pending)
      else t.(state := Failed("Max retries exceeded: " + reason))
    case ImmediateFailure(reason) => t.(state := Failed(reason))
  }

  /** The recovery matrix for a task whose node is gone. */
  function Recovered(t: Task): Task {
    match t.taskType
    case StatelessIdempotent =>
      if t.currentRetry < t.maxRetries
      then t.(currentRetry := t.currentRetry + 1, state := Pending)
      else t.(state := Failed("Stateless task failed: node lost and max retries exceeded"))
    case StatefulLongRunning =>
      if t.currentRetry < t.maxRetries
      then t.(currentRetry := t.currentRetry + 1, state := Pending)
      else t.(state := Failed("Stateful task failed: node lost and max retries exceeded"))
    case InteractiveLowLatency =>
      t.(state := Failed("Interactive node departed. Dropping execution."))
  }

  function AfterLoss(t: Task, nodeId: string): Task {
    if t.state.Running? && t.state.nodeId == nodeId then Recovered(t) else t
  }

  function NodeFailed(tasks: TaskMap, nodeId: string): TaskMap {
    map id | id in tasks :: AfterLoss(tasks[id], nodeId)
  }

  function Values(node: NodeProfile): seq<string> {
    seq(|node.capabilities|, i requires 0 <= i < |node.capabilities| => node.capabilities[i].value)
  }

  /** Capabilities are matched by value; a task without requirements fits any node. */
  predicate Matches(node: NodeProfile, required: seq<string>) {
    required == [] || forall r | r in required :: r in Values(node)
  }

  /** In so many words: every requirement is the value of some capability. */
  lemma {:induction false} MatchesIff(node: NodeProfile, required: seq<string>)
    ensures Matches(node, required) <==>
      forall r | r in required :: exists c | c in node.capabilities :: c.value == r
  {
    forall r
      ensures r in Values(node) <==> exists c | c in node.capabilities :: c.value == r
    {
      if r in Values(node) {
        var i :| 0 <= i < |Values(node)| && Values(node)[i] == r;
        assert node.capabilities[i] in node.capabilities;
      }
      if c :| c in node.capabilities && c.value == r {
        var i :| 0 <= i < |node.capabilities| && node.capabilities[i] == c;
        assert Values(node)[i] == r;
      }
    }
  }

  /** The nodes of a listing that fit, in listing order. */
  function Capable(nodes: seq<NodeProfile>, required: seq<string>): (fit: seq<NodeProfile>)
    ensures forall n :: n in fit <==> n in nodes && Matches(n, required)
  {
    if nodes == [] then []
    else if Matches(nodes[0], required) then [nodes[0]] + Capable(nodes[1..], required)
    else Capable(nodes[1..], required)
  }

  lemma {:induction false} CapableKeepsDistinct(nodes: seq<NodeProfile>, required: seq<string>)
    requires DistinctIds(nodes)
    ensures DistinctIds(Capable(nodes, required))
  {
    if nodes != [] {
      CapableKeepsDistinct(nodes[1..], required);
      var rest := Capable(nodes[1..], required);
      forall j | 0 <= j < |rest|
        ensures rest[j].nodeId != nodes[0].nodeId
      {
        assert rest[j] in nodes[1..];
      }
    }
  }
}
