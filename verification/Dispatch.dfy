/**
 * One dispatch pass. The hub walks a hash map, so the order of the walk and the order of the
 * node listing are both arbitrary: they are parameters here, and the theorems hold for all of them.
 */
module Dispatch {
  import opened Registry
  import opened Tasks

  datatype Assignment = Assignment(taskId: string, nodeId: string)

  datatype Outcome = Outcome(tasks: TaskMap, pairs: seq<Assignment>)

  /** The walk after the tasks in `order`; the round-robin index is the number of pairs so far. */
  function Walk(tasks: TaskMap, order: seq<string>, nodes: seq<NodeProfile>, now: nat): (r: Outcome)
    requires forall id | id in order :: id in tasks
    ensures r.tasks.Keys == tasks.Keys
  {
    if order == [] then Outcome(tasks, []) else
      var n := |order| - 1;
      Visit(Walk(tasks, order[..n], nodes, now), order[n], nodes, now)
  }

  function Visit(r: Outcome, id: string, nodes: seq<NodeProfile>, now: nat): (r': Outcome)
    requires id in r.tasks
    ensures r'.tasks.Keys == r.tasks.Keys
  {
    var t := r.tasks[id];
    var capable := Capable(nodes, t.requiredCapabilities);
    if t.state.Pending? && capable != [] then
      var target := capable[|r.pairs| % |capable|];
      Outcome(r.tasks[id := t.(state := Running(target.nodeId, now))],
              r.pairs + [Assignment(t.taskId, target.nodeId)])
    else r
  }

  /** `order` visits every task once. */
  ghost predicate IsOrder(order: seq<string>, tasks: TaskMap) {
    && (forall i, j | 0 <= i < j < |order| :: order[i] != order[j])
    && (forall id :: id in order <==> id in tasks)
  }

  // ----- the specification: no order, no index -----

  predicate Dispatchable(t: Task, nodes: seq<NodeProfile>) {
    t.state.Pending? && exists n | n in nodes :: Matches(n, t.requiredCapabilities)
  }

  /** `t'` is `t` set running now on one of the listed nodes that fit. */
  ghost predicate StartedOnFit(t: Task, t': Task, nodes: seq<NodeProfile>, now: nat) {
    && t'.state.Running?
    && t' == t.(state := Running(t'.state.nodeId, now))
    && exists n | n in nodes :: Matches(n, t.requiredCapabilities) && n.nodeId == t'.state.nodeId
  }

  ghost predicate DistinctTasks(pairs: seq<Assignment>) {
    forall i, j | 0 <= i < j < |pairs| :: pairs[i].taskId != pairs[j].taskId
  }

  predicate Starting(tasks: TaskMap, visited: seq<string>, nodes: seq<NodeProfile>, id: string) {
    id in tasks && id in visited && Dispatchable(tasks[id], nodes)
  }

  /** The pairs are the tasks that start, each with the node recorded for it. */
  ghost predicate Reports(tasks: TaskMap, visited: seq<string>, nodes: seq<NodeProfile>, r: Outcome)
    requires r.tasks.Keys == tasks.Keys
  {
    && DistinctTasks(r.pairs)
    && (forall p :: p in r.pairs <==>
         && Starting(tasks, visited, nodes, p.taskId)
         && r.tasks[p.taskId].state.Running? && r.tasks[p.taskId].state.nodeId == p.nodeId)
  }

  /** The effect of a pass over the tasks `visited`. */
  ghost predicate Starts(tasks: TaskMap, visited: seq<string>, nodes: seq<NodeProfile>, now: nat, r: Outcome) {
    && r.tasks.Keys == tasks.Keys
    && (forall id | id in tasks ::
         if Starting(tasks, visited, nodes, id)
         then StartedOnFit(tasks[id], r.tasks[id], nodes, now)
         else r.tasks[id] == tasks[id])
    && Reports(tasks, visited, nodes, r)
  }

  lemma {:induction false} CapableIffDispatchable(t: Task, nodes: seq<NodeProfile>)
    ensures t.state.Pending? && Capable(nodes, t.requiredCapabilities) != [] <==> Dispatchable(t, nodes)
  {
    var capable := Capable(nodes, t.requiredCapabilities);
    if capable != [] {
      assert capable[0] in nodes;
    } else {
      assert forall n | n in nodes :: n !in capable;
    }
  }

  lemma {:induction false} VisitStarts(tasks: TaskMap, visited: seq<string>, id: string, nodes: seq<NodeProfile>,
                                       now: nat, r: Outcome)
    requires KeyedTasks(tasks) && id in tasks && id !in visited
    requires Starts(tasks, visited, nodes, now, r)
    ensures Starts(tasks, visited + [id], nodes, now, Visit(r, id, nodes, now))
  {
    var t := tasks[id];
    assert r.tasks[id] == t;
    CapableIffDispatchable(t, nodes);
    var after := Visit(r, id, nodes, now);
    assert forall other :: Starting(tasks, visited + [id], nodes, other) <==>
      Starting(tasks, visited, nodes, other) || (other == id && Dispatchable(t, nodes));
    if Dispatchable(t, nodes) {
      var capable := Capable(nodes, t.requiredCapabilities);
      var target := capable[|r.pairs| % |capable|];
      assert target in capable;
      assert StartedOnFit(t, after.tasks[id], nodes, now);
      forall p | p in r.pairs
        ensures p.taskId != id
      {
      }
    }
    assert Reports(tasks, visited + [id], nodes, after);
  }

  lemma {:induction false} WalkStarts(tasks: TaskMap, order: seq<string>, nodes: seq<NodeProfile>, now: nat)
    requires KeyedTasks(tasks)
    requires forall i, j | 0 <= i < j < |order| :: order[i] != order[j]
    requires forall id | id in order :: id in tasks
    ensures Starts(tasks, order, nodes, now, Walk(tasks, order, nodes, now))
  {
    if order != [] {
      var n := |order| - 1;
      WalkStarts(tasks, order[..n], nodes, now);
      assert order == order[..n] + [order[n]];
      VisitStarts(tasks, order[..n], order[n], nodes, now, Walk(tasks, order[..n], nodes, now));
    }
  }

  /**
   * For every walk order: a task is pending afterwards iff it was and no listed node fits it; the
   * pairs name exactly the tasks that moved, once each, with the node now recorded for them; and
   * no other task is touched.
   */
  lemma {:induction false} DispatchMeetsSpec(tasks: TaskMap, order: seq<string>, nodes: seq<NodeProfile>, now: nat)
    requires KeyedTasks(tasks) && IsOrder(order, tasks)
    ensures var r := Walk(tasks, order, nodes, now);
      && Starts(tasks, order, nodes, now, r)
      && (forall id | id in tasks ::
           && (r.tasks[id].state.Pending? <==>
                tasks[id].state.Pending? && forall n | n in nodes :: !Matches(n, tasks[id].requiredCapabilities))
           && (r.tasks[id] != tasks[id] <==> tasks[id].state.Pending? && r.tasks[id].state.Running?)
           && (r.tasks[id] != tasks[id] <==> exists p | p in r.pairs :: p.taskId == id))
  {
    WalkStarts(tasks, order, nodes, now);
    var r := Walk(tasks, order, nodes, now);
    forall id | id in tasks && r.tasks[id] != tasks[id]
      ensures exists p | p in r.pairs :: p.taskId == id
    {
      assert Assignment(id, r.tasks[id].state.nodeId) in r.pairs;
    }
  }

  /** Neither the tasks that start nor the tasks left alone depend on either order. */
  lemma {:induction false} OrderOnlyChoosesNodes(tasks: TaskMap, order: seq<string>, order': seq<string>,
                              nodes: seq<NodeProfile>, nodes': seq<NodeProfile>, now: nat)
    requires KeyedTasks(tasks) && IsOrder(order, tasks) && IsOrder(order', tasks)
    requires forall n :: n in nodes <==> n in nodes'
    ensures var r, r' := Walk(tasks, order, nodes, now), Walk(tasks, order', nodes', now);
      forall id | id in tasks ::
        && (r.tasks[id].state.Running? <==> r'.tasks[id].state.Running?)
        && r.tasks[id].(state := Pending) == r'.tasks[id].(state := Pending)
        && (!Dispatchable(tasks[id], nodes) ==> r.tasks[id] == r'.tasks[id])
  {
    WalkStarts(tasks, order, nodes, now);
    WalkStarts(tasks, order', nodes', now);
    forall id | id in tasks
      ensures Dispatchable(tasks[id], nodes) <==> Dispatchable(tasks[id], nodes')
    {
    }
  }

  lemma {:induction false} NothingToStart(tasks: TaskMap, order: seq<string>, nodes: seq<NodeProfile>, now: nat)
    requires forall id | id in order :: id in tasks && !Dispatchable(tasks[id], nodes)
    ensures Walk(tasks, order, nodes, now) == Outcome(tasks, [])
  {
    if order != [] {
      var n := |order| - 1;
      NothingToStart(tasks, order[..n], nodes, now);
      var capable := Capable(nodes, tasks[order[n]].requiredCapabilities);
      assert capable != [] ==> capable[0] in nodes;
    }
  }

  /** A second pass over the same nodes, however listed and walked, starts nothing. */
  lemma {:induction false} SecondPassIsEmpty(tasks: TaskMap, order: seq<string>, order': seq<string>,
                          nodes: seq<NodeProfile>, nodes': seq<NodeProfile>, now: nat, later: nat)
    requires KeyedTasks(tasks) && IsOrder(order, tasks) && IsOrder(order', tasks)
    requires forall n :: n in nodes <==> n in nodes'
    ensures var r := Walk(tasks, order, nodes, now);
      Walk(r.tasks, order', nodes', later) == Outcome(r.tasks, [])
  {
    WalkStarts(tasks, order, nodes, now);
    NothingToStart(Walk(tasks, order, nodes, now).tasks, order', nodes', later);
  }
}
