/** The uninterrupted dispatch call is one of the interleavings of the lock-level machine. */
module Sequential {
  import opened Registry
  import opened Tasks
  import opened Dispatch
  import opened HubMachine
  import opened Server
  import opened Checkpoints

  ghost function Acting(s: State, actions: seq<Action>): State
    decreases |actions|
  {
    if actions == [] then s else Acting(Step(s, actions[0]), actions[1..])
  }

  lemma {:induction false} ActingTwice(s: State, a: Action, b: Action, rest: seq<Action>)
    ensures Acting(s, [a, b] + rest) == Acting(Step(Step(s, a), b), rest)
  {
  }

  /** Fetch and send, n times. */
  function Drain(d: nat, n: nat): seq<Action> {
    if n == 0 then [] else [Fetch(d), Send(d)] + Drain(d, n - 1)
  }

  function Sent(pushes: seq<Push>): seq<TaskDefinition> {
    seq(|pushes|, i requires 0 <= i < |pushes| => Frame(pushes[i]))
  }

  lemma {:induction false} FetchThenSend(s: State, d: nat)
    requires PhaseOf(s, d).Draining? && PhaseOf(s, d).rest != []
    requires PhaseOf(s, d).rest[0].taskId in s.tasks
    ensures var p := PhaseOf(s, d).rest[0]; var s' := Step(Step(s, Fetch(d)), Send(d));
      && s'.tasks == s.tasks && s'.nodes == s.nodes
      && PhaseOf(s', d) == Draining(PhaseOf(s, d).rest[1..])
      && Sent(s'.pushes) == Sent(s.pushes) + [Definition(s.tasks[p.taskId], p)]
  {
  }

  lemma {:induction false} DefinitionsFirst(tasks: TaskMap, pairs: seq<Assignment>)
    requires pairs != [] && forall p | p in pairs :: p.taskId in tasks
    ensures Definitions(tasks, pairs) == [Definition(tasks[pairs[0].taskId], pairs[0])] + Definitions(tasks, pairs[1..])
  {
  }

  lemma {:induction false} DrainSendsAll(s: State, d: nat, rest: seq<Assignment>)
    requires PhaseOf(s, d) == Draining(rest)
    requires forall p | p in rest :: p.taskId in s.tasks
    ensures var s' := Acting(s, Drain(d, |rest|));
      && s'.tasks == s.tasks && s'.nodes == s.nodes
      && PhaseOf(s', d) == Draining([])
      && Sent(s'.pushes) == Sent(s.pushes) + Definitions(s.tasks, rest)
    decreases |rest|
  {
    if rest != [] {
      FetchThenSend(s, d);
      DrainSendsAll(Step(Step(s, Fetch(d)), Send(d)), d, rest[1..]);
      ActingTwice(s, Fetch(d), Send(d), Drain(d, |rest| - 1));
      DefinitionsFirst(s.tasks, rest);
    }
  }

  lemma {:induction false} ListThenAssign(s: State, d: nat, nodes: seq<NodeProfile>, order: seq<string>, now: nat)
    requires PhaseOf(s, d) == Draining([]) && KeyedTasks(s.tasks)
    requires IsListing(nodes, s.nodes) && IsOrder(order, s.tasks)
    ensures var r := Walk(s.tasks, order, nodes, now);
      var s' := Step(Step(s, Snapshot(d, nodes)), Assign(d, order, now));
      && s'.tasks == r.tasks && s'.nodes == s.nodes && s'.pushes == s.pushes
      && PhaseOf(s', d) == Draining(r.pairs)
  {
    var listed := Step(s, Snapshot(d, nodes));
    assert Enabled(s, Snapshot(d, nodes));
    assert PhaseOf(listed, d) == Listed(nodes, s.steps);
    assert listed.tasks == s.tasks && listed.nodes == s.nodes && listed.pushes == s.pushes;
    AssignListed(listed, d, nodes, order, now);
  }

  lemma {:induction false} AssignListed(s: State, d: nat, nodes: seq<NodeProfile>, order: seq<string>, now: nat)
    requires PhaseOf(s, d).Listed? && PhaseOf(s, d).nodes == nodes && IsOrder(order, s.tasks)
    ensures var r := Walk(s.tasks, order, nodes, now);
      var s' := Step(s, Assign(d, order, now));
      && s'.tasks == r.tasks && s'.nodes == s.nodes && s'.pushes == s.pushes
      && PhaseOf(s', d) == Draining(r.pairs)
  {
    assert Enabled(s, Assign(d, order, now));
  }

  /**
   * Listing, assigning and draining without interruption leaves the tasks, and sends the definitions,
   * that the hub's own call does; the dispatcher is idle again.
   */
  lemma {:induction false} DispatchCallIsARun(s: State, d: nat, nodes: seq<NodeProfile>, order: seq<string>, now: nat)
    requires PhaseOf(s, d) == Draining([]) && KeyedTasks(s.tasks)
    requires IsListing(nodes, s.nodes) && IsOrder(order, s.tasks)
    ensures var r := Walk(s.tasks, order, nodes, now);
      var s' := Acting(s, [Snapshot(d, nodes), Assign(d, order, now)] + Drain(d, |r.pairs|));
      && (forall p | p in r.pairs :: p.taskId in r.tasks)
      && s'.tasks == r.tasks && s'.nodes == s.nodes
      && PhaseOf(s', d) == Draining([])
      && Sent(s'.pushes) == Sent(s.pushes) + Definitions(r.tasks, r.pairs)
  {
    var r := Walk(s.tasks, order, nodes, now);
    assert forall p | p in r.pairs :: p.taskId in r.tasks by {
      WalkStarts(s.tasks, order, nodes, now);
    }
    ListThenAssign(s, d, nodes, order, now);
    DrainSendsAll(Step(Step(s, Snapshot(d, nodes)), Assign(d, order, now)), d, r.pairs);
    ActingTwice(s, Snapshot(d, nodes), Assign(d, order, now), Drain(d, |r.pairs|));
  }
}
