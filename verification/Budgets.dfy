/** Retry budgets over whole runs, whatever the interleaving. */
module Budgets {
  import opened Wrappers
  import opened Tasks
  import opened HubMachine
  import opened Server
  import opened DispatchHistory

  /** Dispatches of the task since it was last submitted. */
  ghost function Dispatches(log: seq<Action>, id: string): nat {
    if log == [] then 0 else
      var before, a := log[..|log| - 1], log[|log| - 1];
      if a.Submit? && a.taskId == id then 0 else
        Dispatches(before, id) + if Moves(After(before), a, id) then 1 else 0
  }

  ghost predicate WithinBudget(t: Task, dispatches: nat) {
    && t.currentRetry <= t.maxRetries
    && dispatches <= t.currentRetry + 1
    && (t.state.Pending? ==> dispatches <= t.currentRetry)
  }

  lemma {:induction false} BudgetStep(t: Task, t': Task, a: Action, dispatches: nat)
    requires WithinBudget(t, dispatches) && Changes(t, t', a) && !(a.Submit? && a.taskId == t.taskId)
    ensures WithinBudget(t', dispatches + if t.state.Pending? && t'.state.Running? then 1 else 0)
  {
    match a
    case Progress(_, result) => ReportWithinBudget(t, result, dispatches);
    case NodeFailure(nodeId) => LossWithinBudget(t, nodeId, dispatches);
    case _ =>
  }

  lemma {:induction false} ReportWithinBudget(t: Task, result: ExecutionResult, dispatches: nat)
    requires WithinBudget(t, dispatches)
    ensures WithinBudget(Progressed(t, result), dispatches)
    ensures t.state.Pending? ==> !Progressed(t, result).state.Running?
  {
  }

  lemma {:induction false} LossWithinBudget(t: Task, nodeId: string, dispatches: nat)
    requires WithinBudget(t, dispatches)
    ensures WithinBudget(AfterLoss(t, nodeId), dispatches) && (t.state.Pending? ==> AfterLoss(t, nodeId) == t)
  {
  }

  /** Any reports, any node failures: dispatches never exceed the retries used plus one. */
  lemma {:induction false} DispatchBudget(log: seq<Action>, id: string)
    ensures id in After(log).tasks ==> WithinBudget(After(log).tasks[id], Dispatches(log, id))
  {
    if log != [] {
      var before, a := log[..|log| - 1], log[|log| - 1];
      DispatchBudget(before, id);
      AlwaysKeyed(before);
      StepChanges(After(before), a, id);
      if id in After(before).tasks && !(a.Submit? && a.taskId == id) {
        BudgetStep(After(before).tasks[id], After(log).tasks[id], a, Dispatches(before, id));
      }
    }
  }

  function Retried(t: Task, reasons: seq<string>): Task {
    if reasons == [] then t else
      Progressed(Retried(t, reasons[..|reasons| - 1]), RetryNeeded(reasons[|reasons| - 1]))
  }

  /** Retry reports use up the budget one by one; the first beyond it fails the task, and so do all later ones. */
  lemma {:induction false} RetriesRunOut(t: Task, reasons: seq<string>)
    requires t.currentRetry <= t.maxRetries && reasons != []
    ensures var left := t.maxRetries - t.currentRetry;
      Retried(t, reasons) ==
        if |reasons| <= left
        then t.(currentRetry := t.currentRetry + |reasons|, state := Pending)
        else t.(currentRetry := t.maxRetries, state := Failed("Max retries exceeded: " + reasons[|reasons| - 1]))
  {
    if |reasons| > 1 {
      RetriesRunOut(t, reasons[..|reasons| - 1]);
    } else {
      assert reasons[..0] == [];
    }
  }

  // ----- when the retry counter tells the number of dispatches -----

  ghost predicate Accounted(t: Task, dispatches: nat) {
    && t.currentRetry <= dispatches <= t.currentRetry + 1
    && (t.state.Pending? ==> dispatches == t.currentRetry)
    && (t.state.Running? ==> dispatches == t.currentRetry + 1)
    && (t.state.Failed? ==> dispatches == t.currentRetry + 1)
    && (t.taskType.InteractiveLowLatency? ==> t.currentRetry == 0)
  }

  /** A failure or a retry counts right when the last attempt was dispatched; a retry also needs a type that has any. */
  predicate CountsRight(t: Task, result: ExecutionResult, dispatches: nat) {
    match result
    case Success => true
    case CheckpointSaved(_) => true
    case ImmediateFailure(_) => dispatches == t.currentRetry + 1
    case RetryNeeded(_) =>
      dispatches == t.currentRetry + 1 && (t.taskType.InteractiveLowLatency? ==> t.currentRetry >= t.maxRetries)
  }

  lemma {:induction false} ReportKeepsAccountIff(t: Task, result: ExecutionResult, dispatches: nat)
    requires Accounted(t, dispatches)
    ensures Accounted(Progressed(t, result), dispatches) <==> CountsRight(t, result, dispatches)
  {
  }

  lemma {:induction false} OthersKeepAccount(t: Task, t': Task, a: Action, dispatches: nat)
    requires Accounted(t, dispatches) && Changes(t, t', a)
    requires !(a.Submit? && a.taskId == t.taskId) && !(a.Progress? && a.taskId == t.taskId)
    ensures Accounted(t', dispatches + if t.state.Pending? && t'.state.Running? then 1 else 0)
  {
  }

  /** The count is right for this task at every moment of the run. */
  ghost predicate AccountedThroughout(log: seq<Action>, id: string) {
    forall i | 0 <= i <= |log| ::
      id in After(log[..i]).tasks ==> Accounted(After(log[..i]).tasks[id], Dispatches(log[..i], id))
  }

  /** Every report on this task counted right when it came. */
  ghost predicate ReportsCountRight(log: seq<Action>, id: string) {
    forall i | 0 <= i < |log| && log[i].Progress? && log[i].taskId == id && id in After(log[..i]).tasks ::
      CountsRight(After(log[..i]).tasks[id], log[i].result, Dispatches(log[..i], id))
  }

  lemma {:induction false} AccountStepIff(log: seq<Action>, id: string)
    requires log != [] && id in After(log).tasks
    requires var before := log[..|log| - 1];
      id in After(before).tasks ==> Accounted(After(before).tasks[id], Dispatches(before, id))
    ensures var before, a := log[..|log| - 1], log[|log| - 1];
      Accounted(After(log).tasks[id], Dispatches(log, id)) <==>
        (id in After(before).tasks && a.Progress? && a.taskId == id ==>
          CountsRight(After(before).tasks[id], a.result, Dispatches(before, id)))
  {
    var before, a := log[..|log| - 1], log[|log| - 1];
    AlwaysKeyed(before);
    StepChanges(After(before), a, id);
    if id in After(before).tasks && !(a.Submit? && a.taskId == id) {
      var t := After(before).tasks[id];
      if a.Progress? && a.taskId == id {
        ReportKeepsAccountIff(t, a.result, Dispatches(before, id));
      } else {
        OthersKeepAccount(t, After(log).tasks[id], a, Dispatches(before, id));
      }
    }
  }

  lemma {:induction false} ThroughoutSplits(log: seq<Action>, id: string)
    requires log != []
    ensures AccountedThroughout(log, id) <==>
      && AccountedThroughout(log[..|log| - 1], id)
      && (id in After(log).tasks ==> Accounted(After(log).tasks[id], Dispatches(log, id)))
  {
    var before := log[..|log| - 1];
    assert log[..|log|] == log;
    assert forall i | 0 <= i <= |before| :: before[..i] == log[..i];
  }

  lemma {:induction false} ReportsSplit(log: seq<Action>, id: string)
    requires log != []
    ensures var before, a := log[..|log| - 1], log[|log| - 1];
      ReportsCountRight(log, id) <==>
        && ReportsCountRight(before, id)
        && (a.Progress? && a.taskId == id && id in After(before).tasks ==>
             CountsRight(After(before).tasks[id], a.result, Dispatches(before, id)))
  {
    var before := log[..|log| - 1];
    assert forall i | 0 <= i < |before| :: before[i] == log[i] && before[..i] == log[..i];
  }

  /** The exact condition, for every run. */
  lemma {:induction false} AccountedIffReportsCountRight(log: seq<Action>, id: string)
    ensures AccountedThroughout(log, id) <==> ReportsCountRight(log, id)
  {
    if log != [] {
      var before := log[..|log| - 1];
      AccountedIffReportsCountRight(before, id);
      ThroughoutSplits(log, id);
      ReportsSplit(log, id);
      TasksStay(After(before), log[|log| - 1]);
      if AccountedThroughout(before, id) && id in After(log).tasks {
        assert before[..|before|] == before;
        AccountStepIff(log, id);
      }
    }
  }

  /** What can be read off the task itself before the report. */
  predicate SafeByState(t: Task, result: ExecutionResult) {
    || result.Success? || result.CheckpointSaved?
    || ((t.state.Running? || t.state.Failed?)
        && (result.RetryNeeded? && t.taskType.InteractiveLowLatency? ==> t.currentRetry >= t.maxRetries))
  }

  /** Except for a completed task, whose last attempt may not have been dispatched, the state tells all. */
  lemma {:induction false} StateTells(t: Task, result: ExecutionResult, dispatches: nat)
    requires Accounted(t, dispatches)
    ensures SafeByState(t, result) ==> CountsRight(t, result, dispatches)
    ensures !t.state.Completed? && CountsRight(t, result, dispatches) ==> SafeByState(t, result)
  {
  }

  ghost predicate ReportsRespectState(log: seq<Action>, id: string) {
    forall i | 0 <= i < |log| && log[i].Progress? && log[i].taskId == id && id in After(log[..i]).tasks ::
      SafeByState(After(log[..i]).tasks[id], log[i].result)
  }

  lemma {:induction false} RespectingStateCountsRight(log: seq<Action>, id: string)
    requires ReportsRespectState(log, id)
    ensures ReportsCountRight(log, id)
  {
    if log != [] {
      var before, a := log[..|log| - 1], log[|log| - 1];
      assert forall i | 0 <= i <= |before| :: before[..i] == log[..i];
      assert forall i | 0 <= i < |before| :: before[i] == log[i];
      RespectingStateCountsRight(before, id);
      AccountedIffReportsCountRight(before, id);
      assert before[..|before|] == before;
      if a.Progress? && id in After(before).tasks {
        StateTells(After(before).tasks[id], a.result, Dispatches(before, id));
      }
    }
  }

  // ----- the hub's own vocabulary: successes, checkpoints, node failures -----

  ghost predicate HubVocabulary(log: seq<Action>) {
    forall i | 0 <= i < |log| && log[i].Progress? :: log[i].result.Success? || log[i].result.CheckpointSaved?
  }

  /** Every report in the run is one the hub makes of a progress message. */
  ghost predicate ReportedByHub(log: seq<Action>) {
    forall i | 0 <= i < |log| && log[i].Progress? ::
      exists status, checkpoint :: ReportOf(status, checkpoint) == Some(log[i].result)
  }

  lemma {:induction false} HubRunsKeepToVocabulary(log: seq<Action>)
    requires ReportedByHub(log)
    ensures HubVocabulary(log)
  {
    forall i | 0 <= i < |log| && log[i].Progress?
      ensures log[i].result.Success? || log[i].result.CheckpointSaved?
    {
      var status, checkpoint :| ReportOf(status, checkpoint) == Some(log[i].result);
      HubSpeaksItsVocabulary(status, checkpoint);
    }
  }

  /** In such a run a task becomes completed only by a message whose status is completed. */
  lemma {:induction false} CompletedByMessage(log: seq<Action>, i: nat, id: string)
    requires ReportedByHub(log) && i < |log|
    requires !IsCompleted(After(log[..i]), id) && IsCompleted(After(log[..i + 1]), id)
    ensures log[i].Progress? && log[i].taskId == id
    ensures exists status, checkpoint :: ReportOf(status, checkpoint) == Some(log[i].result)
    ensures forall status, checkpoint | ReportOf(status, checkpoint) == Some(log[i].result) :: status == StatusCompleted
  {
    var before := log[..i];
    assert log[..i + 1][..i] == before;
    AlwaysKeyed(before);
    StepChanges(After(before), log[i], id);
    forall status, checkpoint | log[i].Progress? && ReportOf(status, checkpoint) == Some(log[i].result)
      ensures log[i].taskId == id ==> status == StatusCompleted
    {
      ReportsAre(status, checkpoint);
    }
  }

  /** If every report respects the state it finds, the retry counter tells the number of dispatches exactly. */
  lemma {:induction false} AccountingByState(log: seq<Action>, id: string)
    requires ReportsRespectState(log, id)
    ensures id in After(log).tasks ==> Accounted(After(log).tasks[id], Dispatches(log, id))
    ensures id in After(log).tasks && After(log).tasks[id].taskType.InteractiveLowLatency? ==> Dispatches(log, id) <= 1
  {
    RespectingStateCountsRight(log, id);
    AccountedIffReportsCountRight(log, id);
    assert log[..|log|] == log;
  }

  /** In particular under the hub's vocabulary. */
  lemma {:induction false} ExactAccounting(log: seq<Action>, id: string)
    requires HubVocabulary(log)
    ensures id in After(log).tasks ==> Accounted(After(log).tasks[id], Dispatches(log, id))
    ensures id in After(log).tasks && After(log).tasks[id].taskType.InteractiveLowLatency? ==> Dispatches(log, id) <= 1
  {
    AccountingByState(log, id);
  }

  /** A report that does not count right: a retry for a task that is not running. */
  lemma {:induction false} RetryReportBreaksAccounting(id: string)
    ensures var log := [Submit(id, StatelessIdempotent, [], 1, []), Progress(id, RetryNeeded(""))];
      id in After(log).tasks && !Accounted(After(log).tasks[id], Dispatches(log, id))
  {
    OneTaskReported(id, RetryNeeded(""));
  }

  lemma {:induction false} OneTaskReported(id: string, result: ExecutionResult)
    ensures var submit := Submit(id, StatelessIdempotent, [], 1, []);
      && After([submit]).tasks == map[id := NewTask(id, StatelessIdempotent, [], 1, [])]
      && After([submit, Progress(id, result)]).tasks ==
           map[id := Progressed(NewTask(id, StatelessIdempotent, [], 1, []), result)]
      && Dispatches([submit], id) == Dispatches([submit, Progress(id, result)], id) == 0
  {
    var submit, report := Submit(id, StatelessIdempotent, [], 1, []), Progress(id, result);
    assert [submit, report][..1] == [submit];
    assert [submit][..0] == [];
    assert After([submit]).tasks == map[id := NewTask(id, StatelessIdempotent, [], 1, [])];
  }

  // ----- when completed is final -----

  ghost predicate Resubmits(log: seq<Action>, from: nat, id: string) {
    exists j | from <= j < |log| :: log[j].Submit? && log[j].taskId == id
  }

  ghost predicate IsCompleted(s: State, id: string) {
    id in s.tasks && s.tasks[id].state.Completed?
  }

  /** One report leaves a completed task completed exactly if it is a success or a checkpoint. */
  lemma {:induction false} StaysCompletedIff(t: Task, result: ExecutionResult)
    requires t.state.Completed?
    ensures Progressed(t, result).state.Completed? <==> result.Success? || result.CheckpointSaved?
  {
  }

  ghost predicate OnlyGoodNews(log: seq<Action>, from: nat, id: string) {
    forall j | from <= j < |log| && log[j].Progress? && log[j].taskId == id ::
      log[j].result.Success? || log[j].result.CheckpointSaved?
  }

  lemma {:induction false} CompletedStep(s: State, a: Action, id: string)
    requires KeyedTasks(s.tasks) && IsCompleted(s, id) && !(a.Submit? && a.taskId == id)
    ensures IsCompleted(Step(s, a), id) <==>
      (a.Progress? && a.taskId == id ==> a.result.Success? || a.result.CheckpointSaved?)
    ensures !Moves(s, a, id)
  {
    StepChanges(s, a, id);
    if a.Progress? && a.taskId == id {
      StaysCompletedIff(s.tasks[id], a.result);
    }
  }

  ghost predicate CompletedThroughout(log: seq<Action>, i: nat, id: string) {
    forall j | i <= j <= |log| :: IsCompleted(After(log[..j]), id)
  }

  lemma {:induction false} CompletedSplits(log: seq<Action>, i: nat, id: string)
    requires i < |log|
    ensures CompletedThroughout(log, i, id) <==>
      CompletedThroughout(log[..|log| - 1], i, id) && IsCompleted(After(log), id)
  {
    var before := log[..|log| - 1];
    assert log[..|log|] == log;
    assert forall j | 0 <= j <= |before| :: before[..j] == log[..j];
  }

  lemma {:induction false} NewsSplits(log: seq<Action>, i: nat, id: string)
    requires i < |log|
    ensures var a := log[|log| - 1];
      OnlyGoodNews(log, i, id) <==>
        && OnlyGoodNews(log[..|log| - 1], i, id)
        && (a.Progress? && a.taskId == id ==> a.result.Success? || a.result.CheckpointSaved?)
  {
    var before := log[..|log| - 1];
    assert forall j | 0 <= j < |before| :: before[j] == log[j];
  }

  lemma {:induction false} NotResubmitted(log: seq<Action>, i: nat, id: string)
    requires i < |log| && !Resubmits(log, i, id)
    ensures var a := log[|log| - 1]; !Resubmits(log[..|log| - 1], i, id) && !(a.Submit? && a.taskId == id)
  {
    var before := log[..|log| - 1];
    assert forall j | 0 <= j < |before| :: before[j] == log[j];
  }

  /** The exact condition: completed throughout iff no later report on this task asks for a retry or fails it. */
  lemma {:induction false} CompletedThroughoutIff(log: seq<Action>, i: nat, id: string)
    requires i <= |log| && !Resubmits(log, i, id) && IsCompleted(After(log[..i]), id)
    ensures CompletedThroughout(log, i, id) <==> OnlyGoodNews(log, i, id)
    ensures CompletedThroughout(log, i, id) ==> Dispatches(log, id) == Dispatches(log[..i], id)
  {
    if i == |log| {
      assert log[..i] == log;
    } else {
      var before, a := log[..|log| - 1], log[|log| - 1];
      assert before[..i] == log[..i];
      CompletedSplits(log, i, id);
      NewsSplits(log, i, id);
      NotResubmitted(log, i, id);
      CompletedThroughoutIff(before, i, id);
      if CompletedThroughout(before, i, id) {
        assert before[..|before|] == before;
        AlwaysKeyed(before);
        CompletedStep(After(before), a, id);
      }
    }
  }

  /** Under the hub's vocabulary a completed task stays completed and is dispatched no more. */
  lemma {:induction false} CompletedIsAbsorbing(log: seq<Action>, i: nat, id: string)
    requires HubVocabulary(log) && i <= |log| && !Resubmits(log, i, id)
    requires IsCompleted(After(log[..i]), id)
    ensures IsCompleted(After(log), id) && Dispatches(log, id) == Dispatches(log[..i], id)
  {
    CompletedThroughoutIff(log, i, id);
    assert log[..|log|] == log;
  }

  /** A worker's success settles a task for the rest of the run. */
  lemma {:induction false} SuccessIsFinal(log: seq<Action>, i: nat, id: string)
    requires HubVocabulary(log) && i < |log| && log[i] == Progress(id, Success)
    requires id in After(log[..i]).tasks && !Resubmits(log, i + 1, id)
    ensures IsCompleted(After(log), id) && Dispatches(log, id) == Dispatches(log[..i], id)
  {
    assert log[..i + 1][..i] == log[..i];
    CompletedIsAbsorbing(log, i + 1, id);
  }

  /** Without it completed is not final: a late retry report sends the task round again. */
  lemma {:induction false} RetryReopensCompleted(id: string)
    ensures var log := [Submit(id, StatelessIdempotent, [], 1, []), Progress(id, Success)];
      && IsCompleted(After(log), id)
      && After(log + [Progress(id, RetryNeeded(""))]).tasks[id].state.Pending?
  {
    var log := [Submit(id, StatelessIdempotent, [], 1, []), Progress(id, Success)];
    OneTaskReported(id, Success);
    assert (log + [Progress(id, RetryNeeded(""))])[..|log|] == log;
  }

  // ----- all dispatches of a run -----

  /** One attempt and the retries, for every submission under this id. */
  function Granted(log: seq<Action>, id: string): nat {
    if log == [] then 0 else
      var a := log[|log| - 1];
      Granted(log[..|log| - 1], id) + if a.Submit? && a.taskId == id then a.maxRetries + 1 else 0
  }

  /** The same for every submission of the run. */
  function GrantedInAll(log: seq<Action>): nat {
    if log == [] then 0 else
      var a := log[|log| - 1];
      GrantedInAll(log[..|log| - 1]) + if a.Submit? then a.maxRetries + 1 else 0
  }

  /** What the current submission has not used is still granted. */
  lemma {:induction false} TransitionsWithinGrant(log: seq<Action>, id: string)
    ensures Transitions(log, id) <= Granted(log, id)
    ensures id !in After(log).tasks ==> Transitions(log, id) == 0
    ensures id in After(log).tasks ==>
      Transitions(log, id) - Dispatches(log, id) + After(log).tasks[id].maxRetries + 1 <= Granted(log, id)
  {
    DispatchBudget(log, id);
    if log != [] {
      var before, a := log[..|log| - 1], log[|log| - 1];
      TransitionsWithinGrant(before, id);
      DispatchBudget(before, id);
      AlwaysKeyed(before);
      StepChanges(After(before), a, id);
      assert id in After(before).tasks && !(a.Submit? && a.taskId == id) ==>
        After(log).tasks[id].maxRetries == After(before).tasks[id].maxRetries;
    }
  }

  function Without(moves: seq<Move>, id: string): seq<Move> {
    if moves == [] then [] else
      var rest := Without(moves[..|moves| - 1], id);
      if moves[|moves| - 1].pair.taskId == id then rest else rest + [moves[|moves| - 1]]
  }

  lemma {:induction false} WithoutCounts(moves: seq<Move>, id: string, other: string)
    ensures |Without(moves, id)| + CountMoves(moves, id) == |moves|
    ensures CountMoves(Without(moves, id), other) == if other == id then 0 else CountMoves(moves, other)
  {
    if moves != [] {
      var n := |moves| - 1;
      WithoutCounts(moves[..n], id, other);
      if moves[n].pair.taskId != id {
        assert Without(moves, id)[..|Without(moves, id)| - 1] == Without(moves[..n], id);
      }
    }
  }

  function Unsubmitted(log: seq<Action>, id: string): seq<Action> {
    if log == [] then [] else
      var rest, a := Unsubmitted(log[..|log| - 1], id), log[|log| - 1];
      if a.Submit? && a.taskId == id then rest else rest + [a]
  }

  lemma {:induction false} UnsubmittedGrants(log: seq<Action>, id: string, other: string)
    ensures GrantedInAll(Unsubmitted(log, id)) + Granted(log, id) == GrantedInAll(log)
    ensures Granted(Unsubmitted(log, id), other) == if other == id then 0 else Granted(log, other)
  {
    if log != [] {
      var n := |log| - 1;
      UnsubmittedGrants(log[..n], id, other);
      if !(log[n].Submit? && log[n].taskId == id) {
        assert Unsubmitted(log, id)[..|Unsubmitted(log, id)| - 1] == Unsubmitted(log[..n], id);
      }
    }
  }

  lemma {:induction false} GrantsAddUp(moves: seq<Move>, log: seq<Action>)
    requires forall id :: CountMoves(moves, id) <= Granted(log, id)
    ensures |moves| <= GrantedInAll(log)
    decreases |moves|
  {
    if moves != [] {
      var id := moves[|moves| - 1].pair.taskId;
      WithoutCounts(moves, id, id);
      UnsubmittedGrants(log, id, id);
      forall other
        ensures CountMoves(Without(moves, id), other) <= Granted(Unsubmitted(log, id), other)
      {
        WithoutCounts(moves, id, other);
        UnsubmittedGrants(log, id, other);
      }
      GrantsAddUp(Without(moves, id), Unsubmitted(log, id));
    }
  }

  /** All dispatchers together return at most one entry per attempt granted by the submissions. */
  lemma {:induction false} TotalDispatchBudget(log: seq<Action>)
    ensures |After(log).moves| <= GrantedInAll(log)
  {
    forall id
      ensures CountMoves(After(log).moves, id) <= Granted(log, id)
    {
      MovesAreTransitions(log, id);
      TransitionsWithinGrant(log, id);
    }
    GrantsAddUp(After(log).moves, log);
  }
}
