/** When every running task has a registered node, and when interleaving breaks that. */
module Recovery {
  import opened Registry
  import opened Tasks
  import opened Dispatch
  import opened RoundRobin
  import opened HubMachine

  /** Nodes removed from the registry whose failure has not been handled, and which have not come back. */
  ghost function Unhandled(log: seq<Action>): set<string> {
    if log == [] then {} else
      var before, a := log[..|log| - 1], log[|log| - 1];
      var removed := After(before).nodes.Keys - After(log).nodes.Keys;
      match a
      case NodeFailure(nodeId) => Unhandled(before) - {nodeId}
      case Register(profile) => Unhandled(before) - {profile.nodeId}
      case _ => Unhandled(before) + removed
  }

  ghost predicate Lists(phase: Phase, nodeId: string) {
    phase.Listed? && exists i | 0 <= i < |phase.nodes| :: phase.nodes[i].nodeId == nodeId
  }

  /** A failure is handled only once no dispatcher still holds a listing with the lost node in it. */
  ghost predicate Disciplined(log: seq<Action>) {
    forall i | 0 <= i < |log| && log[i].NodeFailure? ::
      var s := After(log[..i]);
      log[i].nodeId in s.nodes || forall d: nat :: !Lists(PhaseOf(s, d), log[i].nodeId)
  }

  ghost predicate Accounted(log: seq<Action>, nodeId: string) {
    nodeId in After(log).nodes || nodeId in Unhandled(log)
  }

  ghost predicate RunsOn(s: State, id: string, nodeId: string) {
    id in s.tasks && s.tasks[id].state.Running? && s.tasks[id].state.nodeId == nodeId
  }

  /** A node that is used is one a moment ago was: where a task or a listing naming it can come from. */
  lemma {:induction false} UseComesFromUse(s: State, a: Action, nodeId: string)
    requires KeyedTasks(s.tasks)
    ensures forall id | RunsOn(Step(s, a), id, nodeId) ::
      && (RunsOn(s, id, nodeId) || (a.Assign? && Lists(PhaseOf(s, a.dispatcher), nodeId)))
      && !(a.NodeFailure? && a.nodeId == nodeId)
    ensures forall d: nat | Lists(PhaseOf(Step(s, a), d), nodeId) ::
      Lists(PhaseOf(s, d), nodeId) || nodeId in s.nodes
  {
    forall id | RunsOn(Step(s, a), id, nodeId)
      ensures RunsOn(s, id, nodeId) || (a.Assign? && Lists(PhaseOf(s, a.dispatcher), nodeId))
      ensures !(a.NodeFailure? && a.nodeId == nodeId)
    {
      StepChanges(s, a, id);
      if a.Assign? && Enabled(s, a) && !RunsOn(s, id, nodeId) {
        var nodes := PhaseOf(s, a.dispatcher).nodes;
        WalkStarts(s.tasks, a.order, nodes, a.now);
        assert StartedOnFit(s.tasks[id], Step(s, a).tasks[id], nodes, a.now);
        var n :| n in nodes && n.nodeId == nodeId;
      }
    }
  }

  /** Under the discipline, every node in use is registered or still to be handled. */
  lemma {:induction false} UsedNodesAreAccounted(log: seq<Action>, nodeId: string)
    requires Disciplined(log)
    ensures !Accounted(log, nodeId) ==>
      && (forall id :: !RunsOn(After(log), id, nodeId))
      && (forall d: nat :: !Lists(PhaseOf(After(log), d), nodeId))
  {
    if log != [] && !Accounted(log, nodeId) {
      var n := |log| - 1;
      var before, a := log[..n], log[n];
      assert forall i: nat | i < n :: before[i] == log[i] && before[..i] == log[..i];
      UsedNodesAreAccounted(before, nodeId);
      AlwaysKeyed(before);
      UseComesFromUse(After(before), a, nodeId);
      if Accounted(before, nodeId) {
        assert a == NodeFailure(nodeId);
        assert log[..n] == before;
      }
    }
  }

  /** With no failure outstanding, every running task's node is registered. */
  lemma {:induction false} RunningNodesAreRegistered(log: seq<Action>, id: string)
    requires Disciplined(log) && Unhandled(log) == {}
    requires id in After(log).tasks && After(log).tasks[id].state.Running?
    ensures After(log).tasks[id].state.nodeId in After(log).nodes
  {
    UsedNodesAreAccounted(log, After(log).tasks[id].state.nodeId);
    assert RunsOn(After(log), id, After(log).tasks[id].state.nodeId);
  }

  lemma {:induction false} StaysLost(log: seq<Action>, a: Action, nodeId: string)
    requires !Accounted(log, nodeId)
    requires a.Register? ==> a.profile.nodeId != nodeId
    ensures !Accounted(log + [a], nodeId)
  {
  }

  /** A node lost and handled gets no task until it registers again. */
  lemma {:induction false} LostNodeGetsNothing(log: seq<Action>, i: nat, nodeId: string)
    requires Disciplined(log) && i <= |log|
    requires !Accounted(log[..i], nodeId)
    requires forall j | i <= j < |log| && log[j].Register? :: log[j].profile.nodeId != nodeId
    ensures !Accounted(log, nodeId) && forall id :: !RunsOn(After(log), id, nodeId)
  {
    StaysLostFrom(log, i, nodeId);
    UsedNodesAreAccounted(log, nodeId);
  }

  lemma {:induction false} StaysLostFrom(log: seq<Action>, i: nat, nodeId: string)
    requires i <= |log| && !Accounted(log[..i], nodeId)
    requires forall j | i <= j < |log| && log[j].Register? :: log[j].profile.nodeId != nodeId
    ensures !Accounted(log, nodeId)
  {
    if i == |log| {
      assert log[..i] == log;
    } else {
      var before := log[..|log| - 1];
      assert before[..i] == log[..i] && log == before + [log[|log| - 1]];
      StaysLostFrom(before, i, nodeId);
      StaysLost(before, log[|log| - 1], nodeId);
    }
  }

  // ----- uninterrupted dispatch calls are disciplined -----

  /** Each listing is assigned from at once. */
  ghost predicate Uninterrupted(log: seq<Action>) {
    forall i | 0 <= i < |log| && log[i].Snapshot? ::
      && i + 1 < |log| && log[i + 1].Assign? && log[i + 1].dispatcher == log[i].dispatcher
      && (PhaseOf(After(log[..i + 1]), log[i].dispatcher).Listed? ==> Enabled(After(log[..i + 1]), log[i + 1]))
  }

  lemma {:induction false} AssignmentEndsListing(log: seq<Action>, i: nat, d: nat)
    requires Uninterrupted(log) && i < |log| && log[i].Snapshot? && log[i].dispatcher == d
    ensures i + 1 < |log| && !PhaseOf(After(log[..i + 2]), d).Listed?
  {
    assert log[..i + 2][..i + 1] == log[..i + 1];
  }

  /** Between two actions of such a run a listing is only ever held right after it was taken. */
  lemma {:induction false} ListingsAreBrief(log: seq<Action>, i: nat, d: nat)
    requires Uninterrupted(log) && i <= |log|
    ensures PhaseOf(After(log[..i]), d).Listed? ==> i > 0 && log[i - 1].Snapshot? && log[i - 1].dispatcher == d
  {
    if i > 0 {
      ListingsAreBrief(log, i - 1, d);
      assert log[..i][..i - 1] == log[..i - 1];
      if i > 1 && log[i - 2].Snapshot? && log[i - 2].dispatcher == d {
        AssignmentEndsListing(log, i - 2, d);
      }
    }
  }

  lemma {:induction false} NoSnapshotBefore(log: seq<Action>, i: nat)
    requires Uninterrupted(log) && i < |log| && !log[i].Assign?
    ensures i == 0 || !log[i - 1].Snapshot?
  {
  }

  /** So if nobody interrupts a dispatch call, handling a failure at any moment keeps the discipline. */
  lemma {:induction false} UninterruptedIsDisciplined(log: seq<Action>)
    requires Uninterrupted(log)
    ensures Disciplined(log)
  {
    forall i: nat, d: nat | i < |log| && log[i].NodeFailure?
      ensures !PhaseOf(After(log[..i]), d).Listed?
    {
      ListingsAreBrief(log, i, d);
      NoSnapshotBefore(log, i);
    }
  }

  // ----- why the discipline is needed -----

  ghost predicate AllRegistered(tasks: TaskMap, registered: set<string>) {
    forall id | id in tasks && tasks[id].state.Running? :: tasks[id].state.nodeId in registered
  }

  lemma {:induction false} EveryNodeFits(nodes: seq<NodeProfile>)
    ensures Capable(nodes, []) == nodes
  {
    if nodes != [] {
      EveryNodeFits(nodes[1..]);
    }
  }

  lemma {:induction false} PairIsRunning(tasks: TaskMap, order: seq<string>, nodes: seq<NodeProfile>, i: nat, now: nat)
    requires KeyedTasks(tasks) && IsOrder(order, tasks) && i < |Walk(tasks, order, nodes, now).pairs|
    ensures var r := Walk(tasks, order, nodes, now);
      && r.pairs[i].taskId in r.tasks
      && r.tasks[r.pairs[i].taskId].state.Running?
      && r.tasks[r.pairs[i].taskId].state.nodeId == r.pairs[i].nodeId
  {
    WalkStarts(tasks, order, nodes, now);
    assert Walk(tasks, order, nodes, now).pairs[i] in Walk(tasks, order, nodes, now).pairs;
  }

  /** With enough unconstrained tasks waiting, any given node of the listing gets one. */
  lemma {:induction false} CrowdReaches(nodes: seq<NodeProfile>, i: nat, now: nat)
    returns (tasks: TaskMap, order: seq<string>, id: string)
    requires i < |nodes|
    ensures KeyedTasks(tasks) && IsOrder(order, tasks) && forall t | t in tasks :: tasks[t].state.Pending?
    ensures var after := Walk(tasks, order, nodes, now).tasks;
      id in after && after[id].state.Running? && after[id].state.nodeId == nodes[i].nodeId
  {
    var required := seq(i + 1, _ => []);
    tasks, order := Crowd(required), Names(i + 1);
    EveryNodeFits(nodes);
    CrowdIsOrdered(required);
    CrowdGoesInTurn(nodes, required, now);
    SmallRemainder(i, |nodes|);
    PairIsRunning(tasks, order, nodes, i, now);
    id := Walk(tasks, order, nodes, now).pairs[i].taskId;
  }

  /**
   * A listing is safe to assign from, whatever the tasks and the walk, exactly when every node in it
   * is still registered.
   */
  lemma {:induction false} SafeListingIffFresh(nodes: seq<NodeProfile>, registered: set<string>, now: nat)
    ensures (forall tasks, order | KeyedTasks(tasks) && IsOrder(order, tasks) && AllRegistered(tasks, registered) ::
              AllRegistered(Walk(tasks, order, nodes, now).tasks, registered))
       <==> (forall i | 0 <= i < |nodes| :: nodes[i].nodeId in registered)
  {
    if forall i | 0 <= i < |nodes| :: nodes[i].nodeId in registered {
      forall tasks, order | KeyedTasks(tasks) && IsOrder(order, tasks) && AllRegistered(tasks, registered)
        ensures AllRegistered(Walk(tasks, order, nodes, now).tasks, registered)
      {
        WalkStarts(tasks, order, nodes, now);
      }
    } else {
      var i :| 0 <= i < |nodes| && nodes[i].nodeId !in registered;
      var tasks, order, id := CrowdReaches(nodes, i, now);
      assert AllRegistered(tasks, registered) && !AllRegistered(Walk(tasks, order, nodes, now).tasks, registered);
    }
  }

  lemma {:induction false} OneMore(log: seq<Action>, a: Action)
    ensures After(log + [a]) == Step(After(log), a)
  {
  }

  lemma {:induction false} NothingLost(log: seq<Action>, a: Action)
    requires Unhandled(log) == {} && After(log).nodes.Keys <= Step(After(log), a).nodes.Keys
    ensures Unhandled(log + [a]) == {}
  {
    assert (log + [a])[..|log|] == log;
    OneMore(log, a);
  }

  lemma {:induction false} Listed3(node: NodeProfile, task: Task)
    requires task == NewTask(task.taskId, StatelessIdempotent, [], 0, [])
    ensures var log := [Register(node), Submit(task.taskId, StatelessIdempotent, [], 0, []), Snapshot(0, [node])];
      && After(log).nodes == map[node.nodeId := node] && After(log).tasks == map[task.taskId := task]
      && PhaseOf(After(log), 0) == Listed([node], 2)
      && Unhandled(log) == {}
  {
    var register, submit := Register(node), Submit(task.taskId, StatelessIdempotent, [], 0, []);
    OneMore([], register);
    NothingLost([], register);
    var one := [] + [register];
    assert After(one).nodes == map[node.nodeId := node] && After(one).tasks == map[];
    OneMore(one, submit);
    NothingLost(one, submit);
    var two := one + [submit];
    assert After(two).nodes == After(one).nodes && After(two).tasks == map[task.taskId := task];
    assert PhaseOf(After(two), 0) == Draining([]) && After(two).steps == 2;
    assert IsListing([node], After(two).nodes);
    OneMore(two, Snapshot(0, [node]));
    NothingLost(two, Snapshot(0, [node]));
    assert two + [Snapshot(0, [node])] == [register, submit, Snapshot(0, [node])];
  }

  lemma {:induction false} ListedThenLost(node: NodeProfile, task: Task)
    requires task == NewTask(task.taskId, StatelessIdempotent, [], 0, [])
    ensures var log := [Register(node), Submit(task.taskId, StatelessIdempotent, [], 0, []), Snapshot(0, [node]),
                        Unregister(node.nodeId)];
      && After(log).nodes == map[] && After(log).tasks == map[task.taskId := task]
      && PhaseOf(After(log), 0) == Listed([node], 2)
      && Unhandled(log) <= {node.nodeId}
  {
    var l3 := [Register(node), Submit(task.taskId, StatelessIdempotent, [], 0, []), Snapshot(0, [node])];
    var l4 := [Register(node), Submit(task.taskId, StatelessIdempotent, [], 0, []), Snapshot(0, [node]),
               Unregister(node.nodeId)];
    Listed3(node, task);
    assert l4[..3] == l3;
  }

  /** A run that breaks it: the node leaves, and its failure is handled, between listing and assignment. */
  lemma {:induction false} StaleListingRun(node: NodeProfile, id: string)
    ensures var log := [Register(node), Submit(id, StatelessIdempotent, [], 0, []), Snapshot(0, [node]),
                        Unregister(node.nodeId)] + [NodeFailure(node.nodeId)] + [Assign(0, [id], 0)];
      && Unhandled(log) == {}
      && RunsOn(After(log), id, node.nodeId)
      && node.nodeId !in After(log).nodes
  {
    var task := NewTask(id, StatelessIdempotent, [], 0, []);
    var l4 := [Register(node), Submit(id, StatelessIdempotent, [], 0, []), Snapshot(0, [node]),
               Unregister(node.nodeId)];
    var l5 := l4 + [NodeFailure(node.nodeId)];
    var l6 := l5 + [Assign(0, [id], 0)];
    ListedThenLost(node, task);
    OneMore(l4, NodeFailure(node.nodeId));
    OneMore(l5, Assign(0, [id], 0));
    assert l5[..|l5| - 1] == l4 && l6[..|l6| - 1] == l5;
    assert Unhandled(l5) == {};
    assert After(l5).tasks == map[id := task];
    assert PhaseOf(After(l5), 0) == Listed([node], 2);
    OneTaskOneNode(task, node, 0);
  }

  lemma {:induction false} OneTaskOneNode(task: Task, node: NodeProfile, now: nat)
    requires task.state.Pending? && task.requiredCapabilities == []
    ensures IsOrder([task.taskId], map[task.taskId := task])
    ensures var r := Walk(map[task.taskId := task], [task.taskId], [node], now);
      r.tasks[task.taskId].state == Running(node.nodeId, now)
  {
  }
}
