/** The hub: what it sends, and what the messages it receives do to the scheduler. */
module Server {
  import opened Wrappers
  import opened Registry
  import opened Tasks
  import opened Dispatch
  import opened Scheduler

  datatype TaskDefinition = TaskDefinition(
    taskId: string,
    category: int,
    moduleTarget: string,
    payload: Bytes,
    maxRetries: nat,
    timeoutMs: nat,
    requiredCapabilities: seq<string>)

  datatype TaskStatus = StatusPending | StatusRunning | StatusCompleted | StatusFailed

  function Category(taskType: TaskType): int {
    match taskType
    case StatelessIdempotent => 0
    case StatefulLongRunning => 1
    case InteractiveLowLatency => 2
  }

  /** The type a submitted category stands for; unknown numbers count as stateless. */
  function TypeOf(category: int): TaskType {
    if category == 1 then StatefulLongRunning
    else if category == 2 then InteractiveLowLatency
    else StatelessIdempotent
  }

  /** What a worker is told; the retry limit is cast to 32 bits. */
  function Definition(t: Task, p: Assignment): TaskDefinition {
    TaskDefinition(p.taskId, Category(t.taskType), p.nodeId, t.payload, t.maxRetries % 0x1_0000_0000, 10000,
                   t.requiredCapabilities)
  }

  /** Category and type tell the same; the numbers are those of the protocol. */
  lemma {:induction false} CategoriesAreTypes(taskType: TaskType, category: int)
    ensures TypeOf(Category(taskType)) == taskType
    ensures Category(TypeOf(category)) == if category == 1 || category == 2 then category else 0
    ensures Category(StatefulLongRunning) == 1 && Category(InteractiveLowLatency) == 2
  {
  }

  /** What a worker needs to know of a task and where it was sent. */
  ghost predicate Tells(d: TaskDefinition, t: Task, p: Assignment) {
    && d.taskId == p.taskId && d.moduleTarget == p.nodeId
    && d.payload == t.payload && d.requiredCapabilities == t.requiredCapabilities
    && d.maxRetries == t.maxRetries % 0x1_0000_0000 && d.timeoutMs == 10000
    && TypeOf(d.category) == t.taskType && 0 <= d.category <= 2
  }

  /** Behind what was handed over before, one definition for each pair, in order. */
  ghost predicate TellsAll(before: seq<TaskDefinition>, after: seq<TaskDefinition>, tasks: TaskMap,
                           pairs: seq<Assignment>)
  {
    && |after| == |before| + |pairs| && before <= after
    && (forall i | 0 <= i < |pairs| ::
         pairs[i].taskId in tasks && Tells(after[|before| + i], tasks[pairs[i].taskId], pairs[i]))
  }

  lemma {:induction false} DefinitionTells(t: Task, p: Assignment)
    ensures Tells(Definition(t, p), t, p)
  {
  }

  function Definitions(tasks: TaskMap, pairs: seq<Assignment>): seq<TaskDefinition>
    requires forall p | p in pairs :: p.taskId in tasks
  {
    seq(|pairs|, i requires 0 <= i < |pairs| => assert pairs[i] in pairs; Definition(tasks[pairs[i].taskId], pairs[i]))
  }

  /** How a progress message reaches the scheduler, if at all. */
  function ReportOf(status: TaskStatus, checkpoint: Bytes): Option<ExecutionResult> {
    if status.StatusCompleted? then Some(Success)
    else if checkpoint != [] then Some(CheckpointSaved(checkpoint))
    else None
  }

  lemma {:induction false} DefinitionsTellAll(before: seq<TaskDefinition>, tasks: TaskMap, pairs: seq<Assignment>)
    requires forall p | p in pairs :: p.taskId in tasks
    ensures TellsAll(before, before + Definitions(tasks, pairs), tasks, pairs)
  {
    forall i | 0 <= i < |pairs|
      ensures pairs[i].taskId in tasks
      ensures Tells((before + Definitions(tasks, pairs))[|before| + i], tasks[pairs[i].taskId], pairs[i])
    {
      assert pairs[i] in pairs;
      DefinitionTells(tasks[pairs[i].taskId], pairs[i]);
    }
  }

  /** Only a completed status is reported as a success, and only a non-empty checkpoint besides. */
  lemma {:induction false} ReportsAre(status: TaskStatus, checkpoint: Bytes)
    ensures ReportOf(status, checkpoint) == Some(Success) <==> status == StatusCompleted
    ensures forall saved :: ReportOf(status, checkpoint) == Some(CheckpointSaved(saved)) <==>
      status != StatusCompleted && checkpoint != [] && saved == checkpoint
    ensures ReportOf(status, checkpoint).None? <==> status != StatusCompleted && checkpoint == []
  {
  }

  /** The hub never asks for a retry, never fails a task itself, and never saves an empty checkpoint. */
  lemma {:induction false} HubSpeaksItsVocabulary(status: TaskStatus, checkpoint: Bytes)
    ensures var report := ReportOf(status, checkpoint);
      report.Some? ==> report.value.Success? || (report.value.CheckpointSaved? && report.value.checkpoint != [])
  {
  }

  class SwarmHub {
    const scheduler: ProfileScheduler
    // Whether the push socket exists, and the definitions handed to it so far.
    var listening: bool
    var handed: seq<TaskDefinition>

    ghost predicate Valid()
      reads this, scheduler, scheduler.registry
    {
      scheduler.Valid()
    }

    constructor (scheduler: ProfileScheduler)
      requires scheduler.Valid()
      ensures Valid() && this.scheduler == scheduler && !listening && handed == []
    {
      this.scheduler := scheduler;
      listening := false;
      handed := [];
    }

    /** Starting the servers creates the push socket if its port is free; otherwise the start panics. */
    method StartServers(portFree: bool) returns (started: bool)
      modifies `listening
      ensures started == portFree
      ensures listening == (old(listening) || started)
    {
      started := portFree;
      if portFree {
        listening := true;
      }
    }

    method PushTaskFrame(task: Task, taskId: string, nodeId: string) returns (attempted: bool)
      modifies `handed
      ensures attempted == listening
      ensures handed == old(handed) + if listening then [Definition(task, Assignment(taskId, nodeId))] else []
      ensures listening ==>
        |handed| == |old(handed)| + 1 && Tells(handed[|old(handed)|], task, Assignment(taskId, nodeId))
    {
      attempted := listening;
      if listening {
        handed := handed + [Definition(task, Assignment(taskId, nodeId))];
      }
    }

    /** Each pair is pushed in turn, with the task as it stands. */
    method PushAll(pairs: seq<Assignment>)
      requires forall p | p in pairs :: p.taskId in scheduler.tasks
      modifies `handed
      ensures handed == old(handed) + if listening then Definitions(scheduler.tasks, pairs) else []
      ensures if listening then TellsAll(old(handed), handed, scheduler.tasks, pairs) else handed == old(handed)
    {
      ghost var all := Definitions(scheduler.tasks, pairs);
      DefinitionsTellAll(handed, scheduler.tasks, pairs);
      for i := 0 to |pairs|
        invariant handed == old(handed) + if listening then all[..i] else []
      {
        assert pairs[i] in pairs;
        var task := scheduler.GetTask(pairs[i].taskId);
        if task.Some? {
          var _ := PushTaskFrame(task.value, pairs[i].taskId, pairs[i].nodeId);
        }
      }
    }

    /** One pass with nobody else at work: each started task is pushed once, in order, with its current payload. */
    method DispatchNow(now: nat)
      returns (ghost pairs: seq<Assignment>, ghost nodeOrder: seq<NodeProfile>, ghost taskOrder: seq<string>)
      requires Valid()
      modifies `handed, scheduler
      ensures Valid()
      ensures IsListing(nodeOrder, scheduler.registry.nodes) && IsOrder(taskOrder, old(scheduler.tasks))
      ensures Outcome(scheduler.tasks, pairs) == Walk(old(scheduler.tasks), taskOrder, nodeOrder, now)
      ensures forall p | p in pairs :: p.taskId in scheduler.tasks
      ensures handed == old(handed) + if listening then Definitions(scheduler.tasks, pairs) else []
      ensures if listening then TellsAll(old(handed), handed, scheduler.tasks, pairs) else handed == old(handed)
    {
      var dispatches;
      dispatches, nodeOrder, taskOrder := scheduler.DispatchPendingTasks(now);
      pairs := dispatches;
      PushAll(dispatches);
    }

    /** The two-second loop asks first whether there is anything to do; the effect is that of a bare pass. */
    method OnSenderTick(now: nat)
      returns (ghost pairs: seq<Assignment>, ghost nodeOrder: seq<NodeProfile>, ghost taskOrder: seq<string>)
      requires Valid()
      modifies `handed, scheduler
      ensures Valid()
      ensures IsListing(nodeOrder, scheduler.registry.nodes) && IsOrder(taskOrder, old(scheduler.tasks))
      ensures Outcome(scheduler.tasks, pairs) == Walk(old(scheduler.tasks), taskOrder, nodeOrder, now)
      ensures forall p | p in pairs :: p.taskId in scheduler.tasks
      ensures handed == old(handed) + if listening then Definitions(scheduler.tasks, pairs) else []
      ensures if listening then TellsAll(old(handed), handed, scheduler.tasks, pairs) else handed == old(handed)
    {
      var nodes := scheduler.registry.ListNodes();
      if nodes == [] || !exists id | id in scheduler.tasks :: scheduler.tasks[id].state.Pending? {
        pairs, nodeOrder, taskOrder := [], nodes, AnOrder(scheduler.tasks);
        NothingToStart(scheduler.tasks, taskOrder, nodes, now);
      } else {
        pairs, nodeOrder, taskOrder := DispatchNow(now);
      }
    }

    /** A submission needs an access key; the task then starts pending with three retries, and a pass follows. */
    method OnTaskSubmit(accessKey: string, freshId: string, category: int, required: seq<string>, payload: Bytes,
                        now: nat)
      returns (accepted: bool, ghost pairs: seq<Assignment>, ghost nodeOrder: seq<NodeProfile>,
               ghost taskOrder: seq<string>)
      requires Valid()
      modifies `handed, scheduler
      ensures Valid()
      ensures accepted == (accessKey != [])
      ensures !accepted ==> scheduler.tasks == old(scheduler.tasks) && handed == old(handed)
      ensures var taskType :=
          if category == 1 then StatefulLongRunning else if category == 2 then InteractiveLowLatency
          else StatelessIdempotent;
        var tasks := old(scheduler.tasks)[freshId := Task(freshId, taskType, payload, 3, Pending, 0, required)];
        accepted ==>
          && IsListing(nodeOrder, scheduler.registry.nodes) && IsOrder(taskOrder, tasks)
          && Outcome(scheduler.tasks, pairs) == Walk(tasks, taskOrder, nodeOrder, now)
          && (forall p | p in pairs :: p.taskId in scheduler.tasks)
          && handed == old(handed) + (if listening then Definitions(scheduler.tasks, pairs) else [])
          && (listening ==> TellsAll(old(handed), handed, scheduler.tasks, pairs))
          && (!listening ==> handed == old(handed))
    {
      pairs, nodeOrder, taskOrder := [], [], [];
      accepted := accessKey != [];
      if accepted {
        scheduler.SubmitTask(NewTask(freshId, TypeOf(category), payload, 3, required));
        pairs, nodeOrder, taskOrder := DispatchNow(now);
      }
    }

    method OnTaskProgress(taskId: string, status: TaskStatus, checkpoint: Bytes)
      requires Valid()
      modifies scheduler
      ensures Valid()
      ensures var report := ReportOf(status, checkpoint);
        scheduler.tasks ==
          if report.Some? && taskId in old(scheduler.tasks)
          then old(scheduler.tasks)[taskId := Progressed(old(scheduler.tasks)[taskId], report.value)]
          else old(scheduler.tasks)
      ensures scheduler.tasks.Keys == old(scheduler.tasks).Keys
      ensures forall id | id in scheduler.tasks && id != taskId :: scheduler.tasks[id] == old(scheduler.tasks)[id]
      ensures taskId in scheduler.tasks ==>
        var t, t' := old(scheduler.tasks)[taskId], scheduler.tasks[taskId];
        if status == StatusCompleted then t'.state.Completed? && t' == t.(state := t'.state)
        else t' == t.(payload := if checkpoint != [] then checkpoint else t.payload)
    {
      var result;
      if status.StatusCompleted? {
        result := Success;
      } else if checkpoint != [] {
        result := CheckpointSaved(checkpoint);
      } else {
        return;
      }
      scheduler.UpdateTaskProgress(taskId, result);
    }
  }
}
