/** In every interleaving: who started each task, who pushed it, and on what evidence. */
module DispatchHistory {
  import opened Registry
  import opened Tasks
  import opened Dispatch
  import opened HubMachine

  // ----- one returned entry per transition -----

  function CountMoves(moves: seq<Move>, id: string): nat {
    if moves == [] then 0 else
      CountMoves(moves[..|moves| - 1], id) + if moves[|moves| - 1].pair.taskId == id then 1 else 0
  }

  lemma {:induction false} CountMovesAppend(ms: seq<Move>, ns: seq<Move>, id: string)
    ensures CountMoves(ms + ns, id) == CountMoves(ms, id) + CountMoves(ns, id)
  {
    if ns == [] {
      assert ms + ns == ms;
    } else {
      assert (ms + ns)[..|ms + ns| - 1] == ms + ns[..|ns| - 1];
      CountMovesAppend(ms, ns[..|ns| - 1], id);
    }
  }

  lemma {:induction false} CountNone(ns: seq<Move>, id: string)
    requires forall i | 0 <= i < |ns| :: ns[i].pair.taskId != id
    ensures CountMoves(ns, id) == 0
  {
    if ns != [] {
      CountNone(ns[..|ns| - 1], id);
    }
  }

  lemma {:induction false} CountOne(ns: seq<Move>, id: string, i: nat)
    requires i < |ns| && ns[i].pair.taskId == id
    requires forall j | 0 <= j < |ns| && j != i :: ns[j].pair.taskId != id
    ensures CountMoves(ns, id) == 1
  {
    assert ns == ns[..i] + ([ns[i]] + ns[i + 1..]);
    CountMovesAppend(ns[..i], [ns[i]] + ns[i + 1..], id);
    CountMovesAppend([ns[i]], ns[i + 1..], id);
    CountNone(ns[..i], id);
    CountNone(ns[i + 1..], id);
    assert [ns[i]][..0] == [];
  }

  /** The pairs a step returns to its dispatcher. */
  ghost function Gained(s: State, a: Action): seq<Assignment> {
    if a.Assign? && Enabled(s, a)
    then Walk(s.tasks, a.order, PhaseOf(s, a.dispatcher).nodes, a.now).pairs
    else []
  }

  /** The entries a step adds to the returned lists. */
  ghost function Added(s: State, a: Action): seq<Move> {
    if a.Assign? && Enabled(s, a)
    then Tagged(a.dispatcher, Gained(s, a), PhaseOf(s, a.dispatcher).takenAt)
    else []
  }

  lemma {:induction false} AddedTags(s: State, a: Action)
    ensures Step(s, a).moves == s.moves + Added(s, a)
    ensures |Added(s, a)| == |Gained(s, a)|
    ensures forall i | 0 <= i < |Added(s, a)| ::
      && Added(s, a)[i].pair == Gained(s, a)[i]
      && Added(s, a)[i].dispatcher == a.dispatcher
      && PhaseOf(s, a.dispatcher).Listed?
      && Added(s, a)[i].takenAt == PhaseOf(s, a.dispatcher).takenAt
  {
  }

  /**
   * A task moves from pending to running only in an assignment step, and then it stands exactly once
   * in the list which that dispatcher gets back, with the node recorded for it. Every other task is
   * absent from that list.
   */
  lemma {:induction false} TransitionHasOneEntry(s: State, a: Action, id: string)
    requires KeyedTasks(s.tasks)
    ensures Moves(s, a, id) ==>
      exists i | 0 <= i < |Gained(s, a)| ::
        && Gained(s, a)[i] == Assignment(id, Step(s, a).tasks[id].state.nodeId)
        && (forall j | 0 <= j < |Gained(s, a)| && j != i :: Gained(s, a)[j].taskId != id)
    ensures !Moves(s, a, id) ==> forall i | 0 <= i < |Gained(s, a)| :: Gained(s, a)[i].taskId != id
  {
    if a.Assign? && Enabled(s, a) {
      var nodes := PhaseOf(s, a.dispatcher).nodes;
      WalkStarts(s.tasks, a.order, nodes, a.now);
      var r := Walk(s.tasks, a.order, nodes, a.now);
      if Moves(s, a, id) {
        var p := Assignment(id, r.tasks[id].state.nodeId);
        assert p in r.pairs;
        var i :| 0 <= i < |r.pairs| && r.pairs[i] == p;
        assert Gained(s, a)[i] == p;
      } else {
        forall i | 0 <= i < |r.pairs|
          ensures r.pairs[i].taskId != id
        {
          assert r.pairs[i] in r.pairs;
        }
      }
    } else {
      StepChanges(s, a, id);
    }
  }

  lemma {:induction false} AddedCount(s: State, a: Action, id: string)
    requires KeyedTasks(s.tasks)
    ensures CountMoves(Added(s, a), id) == if Moves(s, a, id) then 1 else 0
  {
    TransitionHasOneEntry(s, a, id);
    AddedTags(s, a);
    if Moves(s, a, id) {
      var i :| 0 <= i < |Gained(s, a)| && Gained(s, a)[i].taskId == id
        && (forall j | 0 <= j < |Gained(s, a)| && j != i :: Gained(s, a)[j].taskId != id);
      CountOne(Added(s, a), id, i);
    } else {
      CountNone(Added(s, a), id);
    }
  }

  /** How often the task has gone from pending to running in the run. */
  ghost function Transitions(log: seq<Action>, id: string): nat {
    if log == [] then 0 else
      var before := log[..|log| - 1];
      Transitions(before, id) + if Moves(After(before), log[|log| - 1], id) then 1 else 0
  }

  lemma {:induction false} MovesAreTransitions(log: seq<Action>, id: string)
    ensures CountMoves(After(log).moves, id) == Transitions(log, id)
  {
    if log != [] {
      var s, a := After(log[..|log| - 1]), log[|log| - 1];
      MovesAreTransitions(log[..|log| - 1], id);
      AlwaysKeyed(log[..|log| - 1]);
      AddedTags(s, a);
      AddedCount(s, a, id);
      CountMovesAppend(s.moves, Added(s, a), id);
    }
  }

  // ----- one push per returned entry -----

  /** The list the dispatcher's calls have returned so far, joined. */
  function Returned(moves: seq<Move>, d: nat): seq<Assignment> {
    if moves == [] then [] else
      Returned(moves[..|moves| - 1], d)
      + if moves[|moves| - 1].dispatcher == d then [moves[|moves| - 1].pair] else []
  }

  function Pushed(pushes: seq<Push>, d: nat): seq<Assignment> {
    if pushes == [] then [] else
      Pushed(pushes[..|pushes| - 1], d)
      + if pushes[|pushes| - 1].dispatcher == d then [pushes[|pushes| - 1].pair] else []
  }

  /** What the dispatcher has still to push. */
  function Due(phase: Phase): seq<Assignment> {
    match phase
    case Draining(rest) => rest
    case Listed(_, _) => []
    case Holding(_, pair, _, rest) => [pair] + rest
  }

  lemma {:induction false} ReturnedAppend(ms: seq<Move>, pairs: seq<Assignment>, owner: nat, takenAt: nat, d: nat)
    ensures Returned(ms + Tagged(owner, pairs, takenAt), d) == Returned(ms, d) + if owner == d then pairs else []
  {
    var ns := Tagged(owner, pairs, takenAt);
    if pairs == [] {
      assert ms + ns == ms;
    } else {
      var n := |pairs| - 1;
      ReturnedAppend(ms, pairs[..n], owner, takenAt, d);
      assert (ms + ns)[..|ms + ns| - 1] == ms + Tagged(owner, pairs[..n], takenAt);
      assert pairs == pairs[..n] + [pairs[n]];
    }
  }

  ghost predicate DueTasksKnown(s: State) {
    forall d: nat, i | 0 <= i < |Due(PhaseOf(s, d))| :: Due(PhaseOf(s, d))[i].taskId in s.tasks
  }

  lemma {:induction false} DueTasksStep(s: State, a: Action, d: nat, i: nat)
    requires KeyedTasks(s.tasks) && DueTasksKnown(s)
    requires i < |Due(PhaseOf(Step(s, a), d))|
    ensures Due(PhaseOf(Step(s, a), d))[i].taskId in s.tasks
  {
    var due, due' := Due(PhaseOf(s, d)), Due(PhaseOf(Step(s, a), d));
    if a.Assign? && Enabled(s, a) && d == a.dispatcher {
      WalkStarts(s.tasks, a.order, PhaseOf(s, d).nodes, a.now);
      assert due'[i] in Gained(s, a);
    } else if a.Fetch? && Enabled(s, a) && d == a.dispatcher {
      assert due[0].taskId in s.tasks;
      assert due' == due;
    } else if a.Send? && Enabled(s, a) && d == a.dispatcher {
      assert due'[i] == due[i + 1];
    } else {
      assert due' == due || due' == [];
    }
  }

  lemma {:induction false} DueTasksAlwaysKnown(log: seq<Action>)
    ensures DueTasksKnown(After(log))
  {
    if log != [] {
      var s, a := After(log[..|log| - 1]), log[|log| - 1];
      DueTasksAlwaysKnown(log[..|log| - 1]);
      AlwaysKeyed(log[..|log| - 1]);
      TasksStay(s, a);
      forall d: nat, i: nat | i < |Due(PhaseOf(Step(s, a), d))|
        ensures Due(PhaseOf(Step(s, a), d))[i].taskId in Step(s, a).tasks
      {
        DueTasksStep(s, a, d, i);
      }
    }
  }

  lemma {:induction false} FetchKeepsOrder(s: State, a: Action, d: nat)
    requires DueTasksKnown(s) && Enabled(s, a) && a.Fetch?
    ensures Pushed(Step(s, a).pushes, d) + Due(PhaseOf(Step(s, a), d)) == Pushed(s.pushes, d) + Due(PhaseOf(s, d))
  {
    var before := PhaseOf(s, a.dispatcher);
    assert Due(before)[0].taskId in s.tasks;
    assert Due(before) == [before.rest[0]] + before.rest[1..];
  }

  lemma {:induction false} SendKeepsOrder(s: State, a: Action, d: nat)
    requires Enabled(s, a) && a.Send?
    ensures Pushed(Step(s, a).pushes, d) + Due(PhaseOf(Step(s, a), d)) == Pushed(s.pushes, d) + Due(PhaseOf(s, d))
  {
    var s' := Step(s, a);
    assert s'.pushes[..|s'.pushes| - 1] == s.pushes;
  }

  lemma {:induction false} AssignKeepsOrder(s: State, a: Action, d: nat)
    requires Enabled(s, a) && a.Assign?
    ensures Step(s, a).pushes == s.pushes
    ensures Due(PhaseOf(Step(s, a), d)) == Due(PhaseOf(s, d)) + if a.dispatcher == d then Gained(s, a) else []
    ensures Returned(Step(s, a).moves, d) == Returned(s.moves, d) + if a.dispatcher == d then Gained(s, a) else []
  {
    ReturnedAppend(s.moves, Gained(s, a), a.dispatcher, PhaseOf(s, a.dispatcher).takenAt, d);
  }

  lemma {:induction false} OthersKeepOrder(s: State, a: Action, d: nat)
    requires !(Enabled(s, a) && (a.Fetch? || a.Send? || a.Assign?))
    ensures Step(s, a).pushes == s.pushes && Due(PhaseOf(Step(s, a), d)) == Due(PhaseOf(s, d))
    ensures Step(s, a).moves == s.moves && Gained(s, a) == []
  {
  }

  lemma {:induction false} Extend(pushed: seq<Assignment>, due: seq<Assignment>, gained: seq<Assignment>)
    ensures pushed + (due + gained) == pushed + due + gained
  {
  }

  /**
   * Each dispatcher pushes every entry it got back once and in order: what it has pushed, followed by
   * what it has still to push, is what its calls returned.
   */
  lemma {:induction false} EachEntryIsPushedOnce(log: seq<Action>, d: nat)
    ensures var s := After(log);
      Pushed(s.pushes, d) + Due(PhaseOf(s, d)) == Returned(s.moves, d)
  {
    if log != [] {
      var s, a := After(log[..|log| - 1]), log[|log| - 1];
      EachEntryIsPushedOnce(log[..|log| - 1], d);
      if Enabled(s, a) && a.Fetch? {
        DueTasksAlwaysKnown(log[..|log| - 1]);
        FetchKeepsOrder(s, a, d);
      } else if Enabled(s, a) && a.Send? {
        SendKeepsOrder(s, a, d);
      } else if Enabled(s, a) && a.Assign? {
        AssignKeepsOrder(s, a, d);
        Extend(Pushed(s.pushes, d), Due(PhaseOf(s, d)), if a.dispatcher == d then Gained(s, a) else []);
      } else {
        OthersKeepOrder(s, a, d);
      }
    }
  }

  // ----- the evidence for an assignment -----

  /** The node was registered and fit the requirements when the listing was taken. */
  ghost predicate FitWhenListed(log: seq<Action>, m: Move, required: seq<string>) {
    && m.takenAt < |log|
    && var nodes := After(log[..m.takenAt]).nodes;
       m.pair.nodeId in nodes && Matches(nodes[m.pair.nodeId], required)
  }

  ghost predicate ListingsAreSnapshots(log: seq<Action>) {
    forall d: nat | PhaseOf(After(log), d).Listed? ::
      && PhaseOf(After(log), d).takenAt < |log|
      && IsListing(PhaseOf(After(log), d).nodes, After(log[..PhaseOf(After(log), d).takenAt]).nodes)
  }

  lemma {:induction false} ListingsAlwaysSnapshots(log: seq<Action>)
    ensures ListingsAreSnapshots(log)
  {
    if log != [] {
      var n := |log| - 1;
      var s, a := After(log[..n]), log[n];
      ListingsAlwaysSnapshots(log[..n]);
      AlwaysKeyed(log[..n]);
      forall d: nat | PhaseOf(After(log), d).Listed?
        ensures PhaseOf(After(log), d).takenAt < |log|
        ensures IsListing(PhaseOf(After(log), d).nodes, After(log[..PhaseOf(After(log), d).takenAt]).nodes)
      {
        if a.Snapshot? && Enabled(s, a) && a.dispatcher == d {
          assert PhaseOf(After(log), d).takenAt == n;
        } else {
          assert PhaseOf(After(log), d) == PhaseOf(s, d);
          var t := PhaseOf(s, d).takenAt;
          assert log[..n][..t] == log[..t];
        }
      }
    }
  }

  lemma {:induction false} AssignedNodeWasFit(log: seq<Action>, a: Action, id: string) returns (m: Move)
    requires Moves(After(log), a, id)
    ensures var t' := Step(After(log), a).tasks[id];
      && m in Added(After(log), a)
      && m.pair == Assignment(id, t'.state.nodeId)
      && FitWhenListed(log, m, t'.requiredCapabilities)
  {
    var s := After(log);
    AlwaysKeyed(log);
    ListingsAlwaysSnapshots(log);
    TransitionHasOneEntry(s, a, id);
    AddedTags(s, a);
    var i :| 0 <= i < |Gained(s, a)| && Gained(s, a)[i] == Assignment(id, Step(s, a).tasks[id].state.nodeId);
    m := Added(s, a)[i];
    var nodes := PhaseOf(s, a.dispatcher).nodes;
    WalkStarts(s.tasks, a.order, nodes, a.now);
    assert StartedOnFit(s.tasks[id], Step(s, a).tasks[id], nodes, a.now);
  }

  lemma {:induction false} WasFitStill(log: seq<Action>, a: Action, m: Move, required: seq<string>)
    requires FitWhenListed(log, m, required)
    ensures FitWhenListed(log + [a], m, required)
  {
    assert (log + [a])[..m.takenAt] == log[..m.takenAt];
  }

  /**
   * Every running task was put where it is by an entry of some returned list, and its node was
   * registered and capable in the listing that entry was chosen from.
   */
  lemma {:induction false} RunningNodeWasFit(log: seq<Action>, id: string)
    requires id in After(log).tasks && After(log).tasks[id].state.Running?
    ensures exists m | m in After(log).moves ::
      && m.pair == Assignment(id, After(log).tasks[id].state.nodeId)
      && FitWhenListed(log, m, After(log).tasks[id].requiredCapabilities)
  {
    var before, a := log[..|log| - 1], log[|log| - 1];
    assert log == before + [a];
    var t' := After(log).tasks[id];
    AddedTags(After(before), a);
    var m;
    if Moves(After(before), a, id) {
      m := AssignedNodeWasFit(before, a, id);
    } else {
      AlwaysKeyed(before);
      RunsOnAsBefore(After(before), a, id);
      RunningNodeWasFit(before, id);
      m :| m in After(before).moves && m.pair == Assignment(id, t'.state.nodeId)
        && FitWhenListed(before, m, t'.requiredCapabilities);
    }
    WasFitStill(before, a, m, t'.requiredCapabilities);
    assert m in After(log).moves;
  }

  lemma {:induction false} RunsOnAsBefore(s: State, a: Action, id: string)
    requires KeyedTasks(s.tasks) && !Moves(s, a, id)
    requires id in Step(s, a).tasks && Step(s, a).tasks[id].state.Running?
    ensures id in s.tasks && s.tasks[id].state == Step(s, a).tasks[id].state
    ensures s.tasks[id].requiredCapabilities == Step(s, a).tasks[id].requiredCapabilities
  {
    StepChanges(s, a, id);
  }
}
