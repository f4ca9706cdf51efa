/** The scheduler: a task map updated in place, above a registry it only reads. */
module Scheduler {
  import opened Wrappers
  import opened Registry
  import opened Tasks
  import opened Dispatch

  class ProfileScheduler {
    const registry: EphemeralRegistry
    var tasks: TaskMap

    ghost predicate Valid()
      reads this, registry
    {
      registry.Valid() && KeyedTasks(tasks)
    }

    constructor (registry: EphemeralRegistry)
      requires registry.Valid()
      ensures Valid() && this.registry == registry && tasks == map[]
    {
      this.registry := registry;
      tasks := map[];
    }

    method SubmitTask(task: Task)
      requires Valid()
      modifies this
      ensures Valid()
      ensures tasks == old(tasks)[task.taskId := task]
    {
      tasks := tasks[task.taskId := task];
    }

    method GetTask(taskId: string) returns (task: Option<Task>)
      ensures task == if taskId in tasks then Some(tasks[taskId]) else None
    {
      task := if taskId in tasks then Some(tasks[taskId]) else None;
    }

    /** A report for an unknown task is dropped. */
    method UpdateTaskProgress(taskId: string, result: ExecutionResult)
      requires Valid()
      modifies this
      ensures Valid()
      ensures tasks == if taskId in old(tasks)
                       then old(tasks)[taskId := Progressed(old(tasks)[taskId], result)]
                       else old(tasks)
      ensures tasks.Keys == old(tasks).Keys && forall id | id in tasks && id != taskId :: tasks[id] == old(tasks)[id]
      ensures taskId in tasks ==>
        var t, t' := old(tasks)[taskId], tasks[taskId];
        match result
        case Success => t' == t.(state := Completed([]))
        case CheckpointSaved(checkpoint) => t' == t.(payload := checkpoint)
        case RetryNeeded(reason) =>
          if t.currentRetry < t.maxRetries
          then t' == t.(state := Pending, currentRetry := t.currentRetry + 1)
          else t' == t.(state := Failed("Max retries exceeded: " + reason))
        case ImmediateFailure(reason) => t' == t.(state := Failed(reason))
    {
      if taskId in tasks {
        var task := tasks[taskId];
        match result {
          case Success =>
            task := task.(state := Completed([]));
          case CheckpointSaved(checkpoint) =>
            task := task.(payload := checkpoint);
          case RetryNeeded(reason) =>
            if task.currentRetry < task.maxRetries {
              task := task.(currentRetry := task.currentRetry + 1);
              task := task.(state := Pending);
            } else {
              task := task.(state := Failed("Max retries exceeded: " + reason));
            }
          case ImmediateFailure(reason) =>
            task := task.(state := Failed(reason));
        }
        tasks := tasks[taskId := task];
      }
    }

    method HandleNodeFailure(nodeId: string)
      requires Valid()
      modifies this
      ensures Valid()
      ensures tasks == NodeFailed(old(tasks), nodeId)
      ensures tasks.Keys == old(tasks).Keys
      ensures forall id | id in tasks ::
        var t, t' := old(tasks)[id], tasks[id];
        if !t.state.Running? || t.state.nodeId != nodeId then t' == t
        else if t.taskType.InteractiveLowLatency? then
          t' == t.(state := Failed("Interactive node departed. Dropping execution."))
        else if t.currentRetry < t.maxRetries then t' == t.(state := Pending, currentRetry := t.currentRetry + 1)
        else
          t' == t.(state := Failed(
            if t.taskType.StatelessIdempotent? then "Stateless task failed: node lost and max retries exceeded"
            else "Stateful task failed: node lost and max retries exceeded"))
    {
      ghost var before := tasks;
      var unvisited := tasks.Keys;
      while unvisited != {}
        invariant unvisited <= tasks.Keys == before.Keys
        invariant forall id | id in before ::
          tasks[id] == if id in unvisited then before[id] else AfterLoss(before[id], nodeId)
      {
        var id :| id in unvisited;
        unvisited := unvisited - {id};
        var task := tasks[id];
        if task.state.Running? && task.state.nodeId == nodeId {
          match task.taskType {
            case StatelessIdempotent =>
              if task.currentRetry < task.maxRetries {
                task := task.(currentRetry := task.currentRetry + 1);
                task := task.(state := Pending);
              } else {
                task := task.(state := Failed("Stateless task failed: node lost and max retries exceeded"));
              }
            case StatefulLongRunning =>
              if task.currentRetry < task.maxRetries {
                task := task.(currentRetry := task.currentRetry + 1);
                task := task.(state := Pending);
              } else {
                task := task.(state := Failed("Stateful task failed: node lost and max retries exceeded"));
              }
            case InteractiveLowLatency =>
              task := task.(state := Failed("Interactive node departed. Dropping execution."));
          }
          tasks := tasks[id := task];
        }
      }
    }

    /** The ghost results are the orders in which this call met the nodes and the tasks. */
    method DispatchPendingTasks(now: nat)
      returns (dispatches: seq<Assignment>, ghost nodeOrder: seq<NodeProfile>, ghost taskOrder: seq<string>)
      requires Valid()
      modifies this
      ensures Valid()
      ensures IsListing(nodeOrder, registry.nodes) && IsOrder(taskOrder, old(tasks))
      ensures Outcome(tasks, dispatches) == Walk(old(tasks), taskOrder, nodeOrder, now)
      ensures Starts(old(tasks), taskOrder, nodeOrder, now, Outcome(tasks, dispatches))
    {
      ghost var before := tasks;
      dispatches := [];
      var nodes := registry.ListNodes();
      nodeOrder := nodes;
      if nodes == [] {
        taskOrder := AnOrder(tasks);
        NothingToStart(tasks, taskOrder, nodes, now);
        WalkStarts(tasks, taskOrder, nodes, now);
        return;
      }
      taskOrder := [];
      var nodeIdx := 0;
      var unvisited := tasks.Keys;
      while unvisited != {}
        invariant unvisited <= before.Keys
        invariant forall i, j | 0 <= i < j < |taskOrder| :: taskOrder[i] != taskOrder[j]
        invariant forall id :: id in taskOrder <==> id in before && id !in unvisited
        invariant Outcome(tasks, dispatches) == Walk(before, taskOrder, nodes, now)
        invariant nodeIdx == |dispatches|
      {
        var id :| id in unvisited;
        unvisited := unvisited - {id};
        assert (taskOrder + [id])[..|taskOrder|] == taskOrder;
        taskOrder := taskOrder + [id];
        var task := tasks[id];
        if task.state == Pending {
          var capable := Capable(nodes, task.requiredCapabilities);
          if capable == [] {
            continue;
          }
          var target := capable[nodeIdx % |capable|];
          tasks := tasks[id := task.(state := Running(target.nodeId, now))];
          dispatches := dispatches + [Assignment(task.taskId, target.nodeId)];
          nodeIdx := nodeIdx + 1;
        }
      }
      WalkStarts(before, taskOrder, nodes, now);
    }
  }

  /** Every map can be walked. */
  ghost function AnOrder(tasks: TaskMap): (order: seq<string>)
    ensures IsOrder(order, tasks)
    decreases |tasks|
  {
    if tasks == map[] then [] else
      var id :| id in tasks;
      AnOrder(tasks - {id}) + [id]
  }
}
