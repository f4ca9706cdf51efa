/**
 * The hub at lock granularity. Every lock acquisition is one step, so the listing of the registry,
 * the assignment of tasks, each `get_task` and each push by each dispatching thread can interleave
 * with everything else. An action whose guard fails changes nothing: every sequence of actions is a run.
 */
module HubMachine {
  import opened Wrappers
  import opened Registry
  import opened Tasks
  import opened Dispatch

  /** Where a dispatching thread stands between two of its lock acquisitions. */
  datatype Phase =
    | Draining(rest: seq<Assignment>)
    | Listed(nodes: seq<NodeProfile>, takenAt: nat)
    | Holding(task: Task, pair: Assignment, readAt: nat, rest: seq<Assignment>)

  /** History: an entry of the list some dispatch call returned, and when its listing was taken. */
  datatype Move = Move(dispatcher: nat, pair: Assignment, takenAt: nat)

  /** History: a frame handed to the push socket, and when its task was read. */
  datatype Push = Push(dispatcher: nat, pair: Assignment, task: Task, readAt: nat)

  datatype State = State(
    nodes: Nodes,
    tasks: TaskMap,
    phases: map<nat, Phase>,
    moves: seq<Move>,
    pushes: seq<Push>,
    steps: nat)

  datatype Action =
    | Register(profile: NodeProfile)
    | Unregister(nodeId: string)
    | Evict(now: nat, threshold: nat)
    | Submit(taskId: string, taskType: TaskType, payload: Bytes, maxRetries: nat, required: seq<string>)
    | Progress(taskId: string, result: ExecutionResult)
    | NodeFailure(nodeId: string)
    | Snapshot(dispatcher: nat, listing: seq<NodeProfile>)
    | Assign(dispatcher: nat, order: seq<string>, now: nat)
    | Fetch(dispatcher: nat)
    | Send(dispatcher: nat)

  const INITIAL := State(map[], map[], map[], [], [], 0)

  function PhaseOf(s: State, d: nat): Phase {
    if d in s.phases then s.phases[d] else Draining([])
  }

  ghost predicate Enabled(s: State, a: Action) {
    match a
    case Snapshot(d, listing) => PhaseOf(s, d) == Draining([]) && IsListing(listing, s.nodes)
    case Assign(d, order, _) => PhaseOf(s, d).Listed? && IsOrder(order, s.tasks)
    case Fetch(d) => PhaseOf(s, d).Draining? && PhaseOf(s, d).rest != []
    case Send(d) => PhaseOf(s, d).Holding?
    case _ => true
  }

  function Tagged(d: nat, pairs: seq<Assignment>, takenAt: nat): seq<Move> {
    seq(|pairs|, i requires 0 <= i < |pairs| => Move(d, pairs[i], takenAt))
  }

  ghost function Effect(s: State, a: Action): State
    requires Enabled(s, a)
  {
    match a
    case Register(profile) => s.(nodes := s.nodes[profile.nodeId := profile])
    case Unregister(nodeId) => s.(nodes := s.nodes - {nodeId})
    case Evict(now, threshold) => s.(nodes := Evicted(s.nodes, now, threshold))
    case Submit(id, taskType, payload, maxRetries, required) =>
      s.(tasks := s.tasks[id := NewTask(id, taskType, payload, maxRetries, required)])
    case Progress(id, result) =>
      if id in s.tasks then s.(tasks := s.tasks[id := Progressed(s.tasks[id], result)]) else s
    case NodeFailure(nodeId) => s.(tasks := NodeFailed(s.tasks, nodeId))
    case Snapshot(d, listing) => s.(phases := s.phases[d := Listed(listing, s.steps)])
    case Assign(d, order, now) =>
      var phase := PhaseOf(s, d);
      var r := Walk(s.tasks, order, phase.nodes, now);
      s.(tasks := r.tasks,
         phases := s.phases[d := Draining(r.pairs)],
         moves := s.moves + Tagged(d, r.pairs, phase.takenAt))
    case Fetch(d) =>
      var rest := PhaseOf(s, d).rest;
      s.(phases := s.phases[d :=
        if rest[0].taskId in s.tasks
        then Holding(s.tasks[rest[0].taskId], rest[0], s.steps, rest[1..])
        else Draining(rest[1..])])
    case Send(d) =>
      var phase := PhaseOf(s, d);
      s.(phases := s.phases[d := Draining(phase.rest)],
         pushes := s.pushes + [Push(d, phase.pair, phase.task, phase.readAt)])
  }

  ghost function Step(s: State, a: Action): State {
    (if Enabled(s, a) then Effect(s, a) else s).(steps := s.steps + 1)
  }

  ghost function After(log: seq<Action>): State {
    if log == [] then INITIAL else Step(After(log[..|log| - 1]), log[|log| - 1])
  }

  /** Task `id` goes from pending to running in this step. */
  ghost predicate Moves(s: State, a: Action, id: string) {
    id in s.tasks && s.tasks[id].state.Pending? && Step(s, a).tasks[id].state.Running?
  }

  lemma {:induction false} TasksStay(s: State, a: Action)
    ensures s.tasks.Keys <= Step(s, a).tasks.Keys
  {
  }

  lemma {:induction false} WalkStaysKeyed(tasks: TaskMap, order: seq<string>, nodes: seq<NodeProfile>, now: nat)
    requires KeyedTasks(tasks) && IsOrder(order, tasks)
    ensures KeyedTasks(Walk(tasks, order, nodes, now).tasks)
  {
    WalkStarts(tasks, order, nodes, now);
  }

  lemma {:induction false} TasksStayKeyed(s: State, a: Action)
    requires KeyedTasks(s.tasks)
    ensures KeyedTasks(Step(s, a).tasks)
  {
    if a.Assign? && Enabled(s, a) {
      WalkStaysKeyed(s.tasks, a.order, PhaseOf(s, a.dispatcher).nodes, a.now);
    }
  }

  lemma {:induction false} NodesStayKeyed(s: State, a: Action)
    requires Keyed(s.nodes)
    ensures Keyed(Step(s, a).nodes)
  {
  }

  lemma {:induction false} AlwaysKeyed(log: seq<Action>)
    ensures KeyedTasks(After(log).tasks) && Keyed(After(log).nodes) && After(log).steps == |log|
  {
    if log != [] {
      AlwaysKeyed(log[..|log| - 1]);
      TasksStayKeyed(After(log[..|log| - 1]), log[|log| - 1]);
      NodesStayKeyed(After(log[..|log| - 1]), log[|log| - 1]);
    }
  }

  /** What one step does to the registry, entry by entry. */
  lemma {:induction false} StepOnNodes(s: State, a: Action, id: string)
    requires Keyed(s.nodes)
    ensures var nodes := Step(s, a).nodes;
      match a
      case Register(profile) =>
        if id == profile.nodeId then id in nodes && nodes[id] == profile
        else (id in nodes <==> id in s.nodes) && (id in nodes ==> nodes[id] == s.nodes[id])
      case Unregister(nodeId) =>
        (id in nodes <==> id in s.nodes && id != nodeId) && (id in nodes ==> nodes[id] == s.nodes[id])
      case Evict(now, threshold) =>
        && (id in nodes <==>
             id in s.nodes && (now < s.nodes[id].lastSeen || now - s.nodes[id].lastSeen < threshold))
        && (id in nodes ==> nodes[id] == s.nodes[id])
      case _ => nodes == s.nodes
  {
  }

  /** What one step can do to one task that is already known. */
  ghost predicate Changes(t: Task, t': Task, a: Action) {
    match a
    case Submit(id, taskType, payload, maxRetries, required) =>
      t' == if id == t.taskId then NewTask(id, taskType, payload, maxRetries, required) else t
    case Progress(id, result) => t' == if id == t.taskId then Progressed(t, result) else t
    case NodeFailure(nodeId) => t' == AfterLoss(t, nodeId)
    case Assign(_, _, now) =>
      t' == t || (t.state.Pending? && t'.state.Running? && t' == t.(state := t'.state))
    case _ => t' == t
  }

  lemma {:induction false} StepChanges(s: State, a: Action, id: string)
    requires KeyedTasks(s.tasks)
    ensures id in s.tasks ==> id in Step(s, a).tasks && Changes(s.tasks[id], Step(s, a).tasks[id], a)
    ensures id !in s.tasks && id in Step(s, a).tasks ==>
      a.Submit? && a.taskId == id
      && Step(s, a).tasks[id] == NewTask(id, a.taskType, a.payload, a.maxRetries, a.required)
  {
    if a.Assign? && Enabled(s, a) {
      WalkStarts(s.tasks, a.order, PhaseOf(s, a.dispatcher).nodes, a.now);
    }
  }
}
