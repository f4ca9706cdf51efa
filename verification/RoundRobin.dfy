/** How evenly one dispatch pass spreads its tasks. */
module RoundRobin {
  import opened Registry
  import opened Tasks
  import opened Dispatch

  /** How many of the pairs went to `nodeId`. */
  function Load(pairs: seq<Assignment>, nodeId: string): nat {
    if pairs == [] then 0 else
      Load(pairs[..|pairs| - 1], nodeId) + if pairs[|pairs| - 1].nodeId == nodeId then 1 else 0
  }

  /** The i-th pair goes to the i-th node, modulo their number, of those that fit its own task. */
  ghost predicate InTurn(tasks: TaskMap, nodes: seq<NodeProfile>, pairs: seq<Assignment>) {
    forall i | 0 <= i < |pairs| ::
      && pairs[i].taskId in tasks
      && var fit := Capable(nodes, tasks[pairs[i].taskId].requiredCapabilities);
         fit != [] && pairs[i].nodeId == fit[i % |fit|].nodeId
  }

  lemma {:induction false} PairsGoInTurn(tasks: TaskMap, order: seq<string>, nodes: seq<NodeProfile>, now: nat)
    requires KeyedTasks(tasks)
    requires forall i, j | 0 <= i < j < |order| :: order[i] != order[j]
    requires forall id | id in order :: id in tasks
    ensures InTurn(tasks, nodes, Walk(tasks, order, nodes, now).pairs)
  {
    if order != [] {
      var n := |order| - 1;
      PairsGoInTurn(tasks, order[..n], nodes, now);
      WalkStarts(tasks, order[..n], nodes, now);
      VisitGoesInTurn(tasks, Walk(tasks, order[..n], nodes, now), order[n], nodes, now);
    }
  }

  lemma {:induction false} VisitGoesInTurn(tasks: TaskMap, r: Outcome, id: string, nodes: seq<NodeProfile>, now: nat)
    requires KeyedTasks(tasks) && id in tasks && id in r.tasks && r.tasks[id] == tasks[id]
    requires InTurn(tasks, nodes, r.pairs)
    ensures InTurn(tasks, nodes, Visit(r, id, nodes, now).pairs)
  {
  }

  lemma {:induction false} QuotientIs(a: int, n: int, q: int)
    requires n > 0 && q * n <= a < q * n + n
    ensures a / n == q
  {
    var e := a / n - q;
    assert a == (a / n) * n + a % n;
    assert e * n == (a / n) * n - q * n;
    assert -n < e * n < n;
    Vanishes(e, n);
  }

  lemma {:induction false} Vanishes(e: int, n: int)
    requires n > 0 && -n < e * n < n
    ensures e == 0
  {
  }

  /** How many of the first m turns, taken round and round by n slots, fall to slot j. */
  function Share(m: nat, n: nat, j: nat): nat
    requires j < n
  {
    if m == 0 then 0 else Share(m - 1, n, j) + if (m - 1) % n == j then 1 else 0
  }

  /** The quotient grows by one exactly at the turns congruent to j. */
  lemma {:induction false} QuotientGrows(m: nat, n: nat, j: nat)
    requires j < n
    ensures (m + n - j) / n == (m + n - 1 - j) / n + if m % n == j then 1 else 0
  {
    var q, r := m / n, m % n;
    assert m == q * n + r;
    assert (q + 1) * n == q * n + n;
    QuotientIs(m + n - 1 - j, n, if r > j then q + 1 else q);
    QuotientIs(m + n - j, n, if r >= j then q + 1 else q);
  }

  /** In closed form: m tasks over n nodes give slot j (m + n - 1 - j) / n of them. */
  lemma {:induction false} ShareIsQuotient(m: nat, n: nat, j: nat)
    requires j < n
    ensures Share(m, n, j) == (m + n - 1 - j) / n
  {
    if m == 0 {
      QuotientIs(n - 1 - j, n, 0);
    } else {
      ShareIsQuotient(m - 1, n, j);
      QuotientGrows(m - 1, n, j);
    }
  }

  /** An earlier slot has as many turns as a later one, or one more. */
  lemma {:induction false} SharesDiffer(m: nat, n: nat, j: nat, k: nat)
    requires j < k < n
    ensures Share(m, n, j) - Share(m, n, k) == if j < m % n <= k then 1 else 0
  {
    if m > 0 {
      SharesDiffer(m - 1, n, j, k);
      NextRemainder(m - 1, n);
      OneTurn((m - 1) % n, m % n, n, j, k);
    }
  }

  lemma {:induction false} OneTurn(r: nat, r': nat, n: nat, j: nat, k: nat)
    requires j < k < n && r < n && r' == if r == n - 1 then 0 else r + 1
    ensures (if j < r' <= k then 1 else 0) ==
      (if j < r <= k then 1 else 0) + (if r == j then 1 else 0) - (if r == k then 1 else 0)
  {
  }

  lemma {:induction false} NextRemainder(m: nat, n: nat)
    requires 0 < n
    ensures (m + 1) % n == if m % n == n - 1 then 0 else m % n + 1
  {
    var q, r := m / n, m % n;
    assert m == q * n + r;
    assert (q + 1) * n == q * n + n;
    var q' := if r == n - 1 then q + 1 else q;
    QuotientIs(m + 1, n, q');
    assert (m + 1) % n == m + 1 - q' * n;
  }

  lemma {:induction false} SmallRemainder(i: nat, n: nat)
    requires i < n
    ensures i % n == i
  {
  }

  // ----- one node -----

  /** The node of that id stands at slot j of the list. */
  ghost predicate InSlot(fit: seq<NodeProfile>, j: nat, id: string) {
    j < |fit| && fit[j].nodeId == id
  }

  ghost predicate Offers(fit: seq<NodeProfile>, id: string) {
    exists j :: InSlot(fit, j, id)
  }

  /** The list of nodes that fit the task of the i-th pair. */
  function FitOf(tasks: TaskMap, nodes: seq<NodeProfile>, p: Assignment): seq<NodeProfile>
    requires p.taskId in tasks
  {
    Capable(nodes, tasks[p.taskId].requiredCapabilities)
  }

  lemma {:induction false} TurnOfSlot(fit: seq<NodeProfile>, i: nat, j: nat, id: string)
    requires DistinctIds(fit) && InSlot(fit, j, id)
    ensures fit[i % |fit|].nodeId == id <==> i % |fit| == j
  {
  }

  lemma {:induction false} LoadAtSlot(tasks: TaskMap, nodes: seq<NodeProfile>, pairs: seq<Assignment>, id: string,
                                      n: nat, j: nat)
    requires InTurn(tasks, nodes, pairs) && DistinctIds(nodes) && j < n
    requires forall p | p in pairs :: |FitOf(tasks, nodes, p)| == n && InSlot(FitOf(tasks, nodes, p), j, id)
    ensures Load(pairs, id) == Share(|pairs|, n, j)
  {
    if pairs != [] {
      var m := |pairs| - 1;
      assert forall i | 0 <= i < m :: pairs[..m][i] == pairs[i];
      LoadAtSlot(tasks, nodes, pairs[..m], id, n, j);
      assert pairs[m] in pairs;
      CapableKeepsDistinct(nodes, tasks[pairs[m].taskId].requiredCapabilities);
      TurnOfSlot(FitOf(tasks, nodes, pairs[m]), m, j, id);
    }
  }

  /** The pairs of a pass name tasks that could start, in turn. */
  lemma {:induction false} PassGoesInTurn(tasks: TaskMap, order: seq<string>, nodes: seq<NodeProfile>, now: nat)
    requires KeyedTasks(tasks) && IsOrder(order, tasks)
    ensures var pairs := Walk(tasks, order, nodes, now).pairs;
      && InTurn(tasks, nodes, pairs)
      && forall p | p in pairs :: p.taskId in tasks && Dispatchable(tasks[p.taskId], nodes)
  {
    WalkStarts(tasks, order, nodes, now);
    PairsGoInTurn(tasks, order, nodes, now);
  }

  /**
   * If every task that can start fits n nodes and has this one at slot j of them, then the node gets
   * its exact share of the tasks started, wherever tasks that cannot start stand in the walk.
   */
  lemma {:induction false} ShareAtSlot(tasks: TaskMap, order: seq<string>, nodes: seq<NodeProfile>, now: nat,
                                       id: string, n: nat, j: nat)
    requires KeyedTasks(tasks) && IsOrder(order, tasks) && DistinctIds(nodes) && j < n
    requires forall t | t in tasks && Dispatchable(tasks[t], nodes) ::
      var fit := Capable(nodes, tasks[t].requiredCapabilities); |fit| == n && InSlot(fit, j, id)
    ensures var pairs := Walk(tasks, order, nodes, now).pairs; Load(pairs, id) == Share(|pairs|, n, j)
  {
    PassGoesInTurn(tasks, order, nodes, now);
    LoadAtSlot(tasks, nodes, Walk(tasks, order, nodes, now).pairs, id, n, j);
  }

  /** In particular when they all fit the same nodes; an earlier node gets as many as a later one, or one more. */
  lemma {:induction false} BalancedWhenListsAgree(tasks: TaskMap, order: seq<string>, nodes: seq<NodeProfile>, now: nat,
                                                  required: seq<string>, j: nat)
    requires KeyedTasks(tasks) && IsOrder(order, tasks) && DistinctIds(nodes)
    requires j < |Capable(nodes, required)|
    requires forall t | t in tasks && Dispatchable(tasks[t], nodes) ::
      Capable(nodes, tasks[t].requiredCapabilities) == Capable(nodes, required)
    ensures var pairs, fit := Walk(tasks, order, nodes, now).pairs, Capable(nodes, required);
      && Load(pairs, fit[j].nodeId) == Share(|pairs|, |fit|, j)
      && forall k | j < k < |fit| :: 0 <= Load(pairs, fit[j].nodeId) - Load(pairs, fit[k].nodeId) <= 1
  {
    var pairs, fit := Walk(tasks, order, nodes, now).pairs, Capable(nodes, required);
    ShareAtSlot(tasks, order, nodes, now, fit[j].nodeId, |fit|, j);
    forall k | j < k < |fit|
      ensures 0 <= Load(pairs, fit[j].nodeId) - Load(pairs, fit[k].nodeId) <= 1
    {
      ShareAtSlot(tasks, order, nodes, now, fit[k].nodeId, |fit|, k);
      SharesDiffer(|pairs|, |fit|, j, k);
    }
  }

  // ----- walks to order: any sequence of requirements that can be met is that of some pass -----

  function Name(i: nat): string {
    seq(i, _ => 'a')
  }

  /** n distinct task names, told apart by their length. */
  function Names(n: nat): (names: seq<string>)
    ensures |names| == n && forall i | 0 <= i < n :: |names[i]| == i
  {
    seq(n, i requires 0 <= i < n => Name(i))
  }

  /** Pending tasks with these requirements. */
  function Crowd(required: seq<seq<string>>): TaskMap {
    map id | id in Names(|required|) :: NewTask(id, StatelessIdempotent, [], 0, required[|id|])
  }

  lemma {:induction false} CrowdIsOrdered(required: seq<seq<string>>)
    ensures KeyedTasks(Crowd(required)) && IsOrder(Names(|required|), Crowd(required))
    ensures forall i | 0 <= i < |required| ::
      var id := Names(|required|)[i]; Crowd(required)[id].requiredCapabilities == required[i]
  {
    var order := Names(|required|);
    assert forall i, j | 0 <= i < j < |order| :: |order[i]| != |order[j]|;
    assert forall i | 0 <= i < |order| :: order[i] in order;
  }

  lemma {:induction false} UnvisitedStays(tasks: TaskMap, order: seq<string>, nodes: seq<NodeProfile>, now: nat,
                                          id: string)
    requires KeyedTasks(tasks) && id in tasks && id !in order
    requires forall i, j | 0 <= i < j < |order| :: order[i] != order[j]
    requires forall other | other in order :: other in tasks
    ensures Walk(tasks, order, nodes, now).tasks[id] == tasks[id]
  {
    WalkStarts(tasks, order, nodes, now);
  }

  lemma {:induction false} VisitAppends(r: Outcome, id: string, nodes: seq<NodeProfile>, now: nat)
    requires id in r.tasks && r.tasks[id].taskId == id && Dispatchable(r.tasks[id], nodes)
    ensures var pairs := Visit(r, id, nodes, now).pairs;
      |pairs| == |r.pairs| + 1 && pairs[..|r.pairs|] == r.pairs && pairs[|r.pairs|].taskId == id
  {
    CapableIffDispatchable(r.tasks[id], nodes);
  }

  lemma {:induction false} AllStart(tasks: TaskMap, order: seq<string>, nodes: seq<NodeProfile>, now: nat)
    requires KeyedTasks(tasks)
    requires forall i, j | 0 <= i < j < |order| :: order[i] != order[j]
    requires forall id | id in order :: id in tasks && Dispatchable(tasks[id], nodes)
    ensures var pairs := Walk(tasks, order, nodes, now).pairs;
      |pairs| == |order| && forall i | 0 <= i < |order| :: pairs[i].taskId == order[i]
  {
    if order != [] {
      var n := |order| - 1;
      AllStart(tasks, order[..n], nodes, now);
      UnvisitedStays(tasks, order[..n], nodes, now, order[n]);
      VisitAppends(Walk(tasks, order[..n], nodes, now), order[n], nodes, now);
    }
  }

  ghost predicate Meetable(nodes: seq<NodeProfile>, required: seq<seq<string>>) {
    forall r | r in required :: Capable(nodes, r) != []
  }

  lemma {:induction false} CrowdCanStart(nodes: seq<NodeProfile>, required: seq<seq<string>>, id: string)
    requires Meetable(nodes, required) && id in Names(|required|)
    ensures id in Crowd(required) && Crowd(required)[id].requiredCapabilities in required
    ensures Dispatchable(Crowd(required)[id], nodes)
  {
    CapableIffDispatchable(Crowd(required)[id], nodes);
  }

  lemma {:induction false} CrowdStarts(nodes: seq<NodeProfile>, required: seq<seq<string>>, now: nat)
    requires Meetable(nodes, required)
    ensures var pairs := Walk(Crowd(required), Names(|required|), nodes, now).pairs;
      |pairs| == |required| && forall i | 0 <= i < |pairs| :: pairs[i].taskId == Names(|required|)[i]
  {
    CrowdIsOrdered(required);
    forall id | id in Names(|required|)
      ensures id in Crowd(required) && Dispatchable(Crowd(required)[id], nodes)
    {
      CrowdCanStart(nodes, required, id);
    }
    AllStart(Crowd(required), Names(|required|), nodes, now);
  }

  /** The i-th task of the crowd goes to the (i mod n)-th of the n nodes that fit it. */
  lemma {:induction false} CrowdGoesInTurn(nodes: seq<NodeProfile>, required: seq<seq<string>>, now: nat)
    requires Meetable(nodes, required)
    ensures var pairs := Walk(Crowd(required), Names(|required|), nodes, now).pairs;
      && |pairs| == |required|
      && forall i | 0 <= i < |pairs| ::
           required[i] in required
           && pairs[i].nodeId == Capable(nodes, required[i])[i % |Capable(nodes, required[i])|].nodeId
  {
    var tasks, order := Crowd(required), Names(|required|);
    CrowdIsOrdered(required);
    CrowdStarts(nodes, required, now);
    PairsGoInTurn(tasks, order, nodes, now);
    var pairs := Walk(tasks, order, nodes, now).pairs;
    forall i | 0 <= i < |pairs|
      ensures required[i] in required
      ensures pairs[i].nodeId == Capable(nodes, required[i])[i % |Capable(nodes, required[i])|].nodeId
    {
      assert tasks[pairs[i].taskId].requiredCapabilities == required[i];
    }
  }
}
