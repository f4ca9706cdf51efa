/**
 * The failover promise fails a third time for a node that has led before: its first hub never lets go of
 * the ports, so the next one cannot start, and its role loop ends in a panic.
 */
module SecondTerm {
  import opened Wrappers
  import opened Lexicographic
  import opened Election
  import opened Cluster
  import opened Failover
  import opened GhostLeader

  /** "b" is alone, has led before, and rests until `until`, having last heard from "a" at 8 s. */
  ghost predicate Left(s: State, now: real, until: real) {
    && s.now == now && s.nodes.Keys == {"b"} && s.hung == {}
    && s.nodes["b"].role == Resting(until) && s.nodes["b"].hub && !s.nodes["b"].iAmLeader
    && s.nodes["b"].peers == map["a" := PeerInfo(8.0, false, None)]
  }

  lemma {:induction false} ThenIsLeft(t: Timing) returns (log: seq<Action>)
    requires t.Valid()
    ensures Left(After(t, log), 8.0, 11.0)
  {
    log := ThenStepsDown(t);
    OneMore(t, log, Crash("a"));
    log := log + [Crash("a")];
  }

  lemma {:induction false} Sleeps(t: Timing, log: seq<Action>, now: real, until: real) returns (log': seq<Action>)
    requires t.Valid() && Left(After(t, log), now, until) && now <= until
    ensures Left(After(t, log'), until, until)
  {
    OneMore(t, log, Elapse(until));
    log' := log + [Elapse(until)];
  }

  /** As long as "a" counts as alive, "b" waits for it. */
  lemma {:induction false} WaitsForDead(t: Timing, log: seq<Action>, now: real) returns (log': seq<Action>)
    requires t.Valid() && Left(After(t, log), now, now) && 8.0 <= now < 18.0
    ensures Left(After(t, log'), now + 3.0, now + 3.0)
  {
    assert !LexLe("b", "a");
    assert !ShouldLead("b", After(t, log).nodes["b"].peers, now);
    OneMore(t, log, Evaluate("b", None));
    log' := log + [Evaluate("b", None)];
    assert After(t, log').nodes["b"].role == Deciding(now);
    OneMore(t, log', Decide("b"));
    log' := log' + [Decide("b")];
    log' := Sleeps(t, log', now, now + 3.0);
  }

  /** "a" died 12 s ago: "b", the only node left, is idle, first in line and not held up. */
  lemma {:induction false} ThenIsItsTurn(t: Timing) returns (log: seq<Action>)
    requires t.Valid()
    ensures Left(After(t, log), 20.0, 20.0)
    ensures var s := After(t, log); Idle(s.nodes["b"]) && FirstInLine(s, "b") && !Blocked(s, "b")
  {
    log := ThenIsLeft(t);
    log := Sleeps(t, log, 8.0, 11.0);
    log := WaitsForDead(t, log, 11.0);
    log := WaitsForDead(t, log, 14.0);
    log := WaitsForDead(t, log, 17.0);
    KnownIffHaunted(t, log, "b");
  }

  /** It goes through its turn, and no node is left, although its port was taken by nobody else. */
  lemma {:induction false} SecondTermRun(t: Timing) returns (log: seq<Action>, i: nat)
    requires t.Valid()
    ensures i <= |log| && Left(After(t, log[..i]), 20.0, 20.0)
    ensures var s := After(t, log[..i]); Idle(s.nodes["b"]) && FirstInLine(s, "b") && !Blocked(s, "b")
    ensures log[i..] == [Evaluate("b", None), Decide("b"), TakeLead("b", false)]
    ensures After(t, log).nodes == map[] && After(t, log).hung == {"b"}
  {
    var early := ThenIsItsTurn(t);
    i := |early|;
    OneMore(t, early, Evaluate("b", None));
    log := early + [Evaluate("b", None)];
    assert After(t, log).nodes["b"].role == Deciding(20.0);
    OneMore(t, log, Decide("b"));
    log := log + [Decide("b")];
    assert After(t, log).nodes["b"].role == Starting(20.0);
    OneMore(t, log, TakeLead("b", false));
    log := log + [TakeLead("b", false)];
    assert log[..i] == early;
    assert After(t, log).nodes == map[];
  }

  /** Until another node starts there is none. */
  lemma {:induction false} NobodyComesBack(t: Timing, log: seq<Action>, i: nat)
    requires i <= |log| && After(t, log[..i]).nodes == map[]
    requires forall j | i <= j < |log| :: !log[j].Boot?
    ensures After(t, log).nodes == map[]
  {
    if i == |log| {
      assert log[..i] == log;
    } else {
      var before := log[..|log| - 1];
      assert before[..i] == log[..i];
      assert forall j | i <= j < |before| :: before[j] == log[j];
      NobodyComesBack(t, before, i);
    }
  }

  /** In any run: a node that has led and stepped down does not lead again in the life of its process. */
  lemma {:induction false} LeadsOnce(t: Timing, log: seq<Action>, i: nat, j: nat, me: string)
    requires t.Valid() && i <= j <= |log| && forall k | i <= k < |log| :: log[k] != Crash(me)
    requires me in After(t, log[..i]).nodes && After(t, log[..i]).nodes[me].iAmLeader
    requires me in After(t, log[..j]).nodes && !After(t, log[..j]).nodes[me].iAmLeader
    ensures me in After(t, log).nodes ==> !After(t, log).nodes[me].iAmLeader
  {
    UnflaggedUnlessLeading(t, log[..j], me);
    assert log[..j][..i] == log[..i];
    HubIsKept(t, log[..j], i, me);
    StartFails(t, log, j, me);
    if me in After(t, log).nodes {
      UnflaggedUnlessLeading(t, log, me);
    }
  }

  lemma {:induction false} HubIsKept(t: Timing, log: seq<Action>, i: nat, me: string)
    requires t.Valid() && i <= |log| && forall k | i <= k < |log| :: log[k] != Crash(me)
    requires me in After(t, log[..i]).nodes && After(t, log[..i]).nodes[me].iAmLeader
    ensures UpOrHung(After(t, log), me) && (me in After(t, log).nodes ==> After(t, log).nodes[me].hub)
  {
    if i == |log| {
      assert log[..i] == log;
      AlwaysInTime(t, log);
      assert NodeInTime(t, After(t, log), me);
    } else {
      var before := log[..|log| - 1];
      assert before[..i] == log[..i];
      HubIsKept(t, before, i, me);
      LossStep(t, After(t, before), log[|log| - 1], me);
    }
  }
}
