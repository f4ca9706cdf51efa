/** Which payload a task carries, in every interleaving. */
module Checkpoints {
  import opened Wrappers
  import opened Tasks
  import opened HubMachine
  import opened Server

  ghost predicate Submits(a: Action, id: string) {
    a.Submit? && a.taskId == id
  }

  ghost predicate Saves(a: Action, id: string) {
    a.Progress? && a.taskId == id && a.result.CheckpointSaved?
  }

  ghost function Carried(a: Action): Bytes
    requires a.Submit? || (a.Progress? && a.result.CheckpointSaved?)
  {
    if a.Submit? then a.payload else a.result.checkpoint
  }

  /** Action `i` is the last that carried a payload for the task, after some submission of it. */
  ghost predicate LastWrite(log: seq<Action>, id: string, i: nat) {
    && i < |log|
    && (Submits(log[i], id) || Saves(log[i], id))
    && (exists j | 0 <= j <= i :: Submits(log[j], id))
    && (forall j | i < j < |log| :: !Submits(log[j], id) && !Saves(log[j], id))
  }

  ghost predicate Known(log: seq<Action>, id: string) {
    exists j | 0 <= j < |log| :: Submits(log[j], id)
  }

  lemma {:induction false} KnownGrows(log: seq<Action>, a: Action, id: string)
    ensures Known(log + [a], id) <==> Known(log, id) || Submits(a, id)
  {
    if Known(log, id) {
      var j :| 0 <= j < |log| && Submits(log[j], id);
      assert Submits((log + [a])[j], id);
    }
    assert (log + [a])[|log|] == a;
  }

  lemma {:induction false} LastWriteGrows(log: seq<Action>, a: Action, id: string, i: nat)
    ensures LastWrite(log + [a], id, i) <==>
      if Submits(a, id) || Saves(a, id)
      then i == |log| && Known(log + [a], id)
      else LastWrite(log, id, i)
  {
    var log' := log + [a];
    assert log'[|log|] == a;
    assert forall j | 0 <= j < |log| :: log'[j] == log[j];
  }

  ghost predicate Writes(a: Action, id: string) {
    Submits(a, id) || Saves(a, id)
  }

  lemma {:induction false} PayloadStep(s: State, a: Action, id: string)
    requires KeyedTasks(s.tasks)
    ensures id in Step(s, a).tasks <==> id in s.tasks || Submits(a, id)
    ensures id in Step(s, a).tasks ==>
      Step(s, a).tasks[id].payload == if Writes(a, id) then Carried(a) else s.tasks[id].payload
  {
    StepChanges(s, a, id);
  }

  lemma {:induction false} KnownIffSubmitted(log: seq<Action>, id: string)
    ensures id in After(log).tasks <==> Known(log, id)
  {
    if log != [] {
      var before, a := log[..|log| - 1], log[|log| - 1];
      assert log == before + [a];
      KnownIffSubmitted(before, id);
      AlwaysKeyed(before);
      PayloadStep(After(before), a, id);
      KnownGrows(before, a, id);
    }
  }

  lemma {:induction false} LastWriteExists(log: seq<Action>, id: string) returns (i: nat)
    requires Known(log, id)
    ensures LastWrite(log, id, i)
  {
    var before, a := log[..|log| - 1], log[|log| - 1];
    assert log == before + [a];
    KnownGrows(before, a, id);
    if Writes(a, id) {
      i := |before|;
    } else {
      i := LastWriteExists(before, id);
    }
    LastWriteGrows(before, a, id, i);
  }

  /** The payload is the newest checkpoint saved for the task, or else the one it was submitted with. */
  lemma {:induction false} PayloadIsLastWrite(log: seq<Action>, id: string, i: nat)
    requires LastWrite(log, id, i)
    ensures id in After(log).tasks && After(log).tasks[id].payload == Carried(log[i])
  {
    var before, a := log[..|log| - 1], log[|log| - 1];
    assert log == before + [a];
    KnownIffSubmitted(log, id);
    AlwaysKeyed(before);
    PayloadStep(After(before), a, id);
    LastWriteGrows(before, a, id, i);
    if !Writes(a, id) {
      PayloadIsLastWrite(before, id, i);
    }
  }

  /** What a dispatcher read, and when. */
  ghost predicate WasRead(log: seq<Action>, id: string, task: Task, readAt: nat) {
    readAt < |log| && id in After(log[..readAt]).tasks && After(log[..readAt]).tasks[id] == task
  }

  ghost predicate ReadsAreRecords(log: seq<Action>) {
    && (forall d: nat | PhaseOf(After(log), d).Holding? ::
         var phase := PhaseOf(After(log), d); WasRead(log, phase.pair.taskId, phase.task, phase.readAt))
    && (forall p | p in After(log).pushes :: WasRead(log, p.pair.taskId, p.task, p.readAt))
  }

  lemma {:induction false} WasReadStill(log: seq<Action>, a: Action, id: string, task: Task, readAt: nat)
    requires WasRead(log, id, task, readAt)
    ensures WasRead(log + [a], id, task, readAt)
  {
    assert (log + [a])[..readAt] == log[..readAt];
  }

  lemma {:induction false} ReadsAlwaysRecords(log: seq<Action>)
    ensures ReadsAreRecords(log)
  {
    if log != [] {
      var before, a := log[..|log| - 1], log[|log| - 1];
      assert log == before + [a];
      var s := After(before);
      ReadsAlwaysRecords(before);
      AlwaysKeyed(before);
      forall d: nat | PhaseOf(After(log), d).Holding?
        ensures var phase := PhaseOf(After(log), d); WasRead(log, phase.pair.taskId, phase.task, phase.readAt)
      {
        var phase := PhaseOf(After(log), d);
        if phase == PhaseOf(s, d) {
          WasReadStill(before, a, phase.pair.taskId, phase.task, phase.readAt);
        } else {
          assert a == Fetch(d) && phase.readAt == |before|;
          assert log[..phase.readAt] == before;
        }
      }
      forall p | p in After(log).pushes
        ensures WasRead(log, p.pair.taskId, p.task, p.readAt)
      {
        if p !in s.pushes {
          var phase := PhaseOf(s, a.dispatcher);
          assert p.task == phase.task && p.pair == phase.pair && p.readAt == phase.readAt;
        }
        WasReadStill(before, a, p.pair.taskId, p.task, p.readAt);
      }
    }
  }

  /** Every frame pushed, after any number of node failures, carries the newest payload known when its task was read. */
  lemma {:induction false} PushesCarryTheNewestPayload(log: seq<Action>, p: Push)
    requires p in After(log).pushes
    ensures p.readAt < |log|
    ensures exists i: nat :: LastWrite(log[..p.readAt], p.pair.taskId, i) && p.task.payload == Carried(log[i])
  {
    ReadsAlwaysRecords(log);
    KnownIffSubmitted(log[..p.readAt], p.pair.taskId);
    var i := LastWriteExists(log[..p.readAt], p.pair.taskId);
    PayloadIsLastWrite(log[..p.readAt], p.pair.taskId, i);
    assert log[..p.readAt][i] == log[i];
  }

  /** What a push hands to the socket. */
  function Frame(p: Push): TaskDefinition {
    Definition(p.task, p.pair)
  }

  /** And so does the frame itself, to the worker it names and with the task's type and requirements as read. */
  lemma {:induction false} FramesCarryTheNewestPayload(log: seq<Action>, p: Push)
    requires p in After(log).pushes
    ensures p.readAt < |log| && p.pair.taskId in After(log[..p.readAt]).tasks
    ensures Tells(Frame(p), After(log[..p.readAt]).tasks[p.pair.taskId], p.pair)
    ensures exists i: nat :: LastWrite(log[..p.readAt], p.pair.taskId, i) && Frame(p).payload == Carried(log[i])
  {
    PushesCarryTheNewestPayload(log, p);
    ReadsAlwaysRecords(log);
    DefinitionTells(p.task, p.pair);
    var i: nat :| LastWrite(log[..p.readAt], p.pair.taskId, i) && p.task.payload == Carried(log[i]);
    assert Frame(p).payload == Carried(log[i]);
  }
}
