/** Losing several nodes: one failure call after another, against one simultaneous pass. */
module NodeLoss {
  import opened Tasks

  function FailAll(tasks: TaskMap, lost: seq<string>): TaskMap {
    if lost == [] then tasks else NodeFailed(FailAll(tasks, lost[..|lost| - 1]), lost[|lost| - 1])
  }

  predicate RunsOn(t: Task, lost: seq<string>) {
    t.state.Running? && t.state.nodeId in lost
  }

  lemma {:induction false} FailAllAt(tasks: TaskMap, lost: seq<string>, id: string)
    requires id in tasks
    ensures id in FailAll(tasks, lost)
    ensures FailAll(tasks, lost)[id] == if RunsOn(tasks[id], lost) then Recovered(tasks[id]) else tasks[id]
  {
    if lost != [] {
      FailAllAt(tasks, lost[..|lost| - 1], id);
      assert lost == lost[..|lost| - 1] + [lost[|lost| - 1]];
    }
  }

  lemma {:induction false} FailAllKeys(tasks: TaskMap, lost: seq<string>)
    ensures FailAll(tasks, lost).Keys == tasks.Keys
  {
    if lost != [] {
      FailAllKeys(tasks, lost[..|lost| - 1]);
    }
  }

  /** Whatever the order and however often an id is repeated, each task on a lost node is recovered once. */
  lemma {:induction false} FailAllIsOnePass(tasks: TaskMap, lost: seq<string>)
    ensures FailAll(tasks, lost) ==
      map id | id in tasks :: if RunsOn(tasks[id], lost) then Recovered(tasks[id]) else tasks[id]
  {
    FailAllKeys(tasks, lost);
    forall id | id in tasks
      ensures FailAll(tasks, lost)[id] == if RunsOn(tasks[id], lost) then Recovered(tasks[id]) else tasks[id]
    {
      FailAllAt(tasks, lost, id);
    }
  }

  /** Nothing runs on a lost node; each affected task pays at most one retry, the others none. */
  lemma {:induction false} LossIsChargedOnce(tasks: TaskMap, lost: seq<string>)
    ensures var after := FailAll(tasks, lost);
      && after.Keys == tasks.Keys
      && (forall id | id in tasks ::
           && !RunsOn(after[id], lost)
           && after[id].payload == tasks[id].payload
           && (!RunsOn(tasks[id], lost) ==> after[id] == tasks[id])
           && (RunsOn(tasks[id], lost) ==>
                if tasks[id].taskType.InteractiveLowLatency? || tasks[id].currentRetry >= tasks[id].maxRetries
                then after[id].state.Failed? && after[id].currentRetry == tasks[id].currentRetry
                else after[id].state.Pending? && after[id].currentRetry == tasks[id].currentRetry + 1))
  {
    FailAllKeys(tasks, lost);
    forall id | id in tasks
      ensures FailAll(tasks, lost)[id] == if RunsOn(tasks[id], lost) then Recovered(tasks[id]) else tasks[id]
    {
      FailAllAt(tasks, lost, id);
    }
  }

  /** Only the set of lost nodes matters. */
  lemma {:induction false} LossIsUnordered(tasks: TaskMap, lost: seq<string>, lost': seq<string>)
    requires forall id :: id in lost <==> id in lost'
    ensures FailAll(tasks, lost) == FailAll(tasks, lost')
  {
    FailAllIsOnePass(tasks, lost);
    FailAllIsOnePass(tasks, lost');
  }
}
