/** The two halves together: when the least node is the leader, and the only one. */
module Convergence {
  import opened Lexicographic
  import opened Cluster
  import opened Provenance
  import opened Stabilisation
  import opened Failover

  ghost predicate Joins(log: seq<Action>, id: string) {
    exists j | 0 <= j < |log| :: log[j] == Boot(id)
  }

  lemma {:induction false} SpeakersJoined(t: Timing, log: seq<Action>, id: string)
    requires id in After(t, log).nodes || SentBy(After(t, log), id) != []
    ensures Joins(log, id)
  {
    var before, a := log[..|log| - 1], log[|log| - 1];
    if a != Boot(id) {
      SpeakersJoined(t, before, id);
      var j :| 0 <= j < |before| && before[j] == Boot(id);
      assert log[j] == Boot(id);
    }
  }

  /** No node that ever joins has a smaller id. */
  ghost predicate LeastToJoin(log: seq<Action>, least: string) {
    forall id | Joins(log, id) :: LexLe(least, id)
  }

  /** The least node passes the rule whenever it is up. */
  lemma {:induction false} LeastIsFirst(t: Timing, log: seq<Action>, least: string)
    requires t.Valid() && LeastToJoin(log, least) && least in After(t, log).nodes
    ensures FirstInLine(After(t, log), least)
  {
    var s := After(t, log);
    var n := s.nodes[least];
    AlwaysFaithful(t, log, least);
    AlwaysInTime(t, log);
    forall id | id in n.peers
      ensures LexLe(least, id)
    {
      var h := n.heard[LastFrom(n.heard, id)];
      assert NodeInTime(t, s, least);
      assert HeardInTime(s, least, h);
      SpeakersJoined(t, log, id);
    }
  }

  lemma {:induction false} LeastIsFirstThroughout(t: Timing, log: seq<Action>, i: nat, least: string)
    requires t.Valid() && LeastToJoin(log, least)
    requires i <= |log| && least in After(t, log[..i]).nodes && forall j | i <= j < |log| :: log[j] != Crash(least)
    ensures FirstThroughout(t, log, i, least)
  {
    forall j | i <= j <= |log| && least in After(t, log[..j]).nodes
      ensures FirstInLine(After(t, log[..j]), least)
    {
      assert forall id | Joins(log[..j], id) :: Joins(log, id);
      LeastIsFirst(t, log[..j], least);
    }
  }

  /**
   * If the least node announces steadily, is heard often enough, is not killed or held up for long
   * enough and can start its hub, then it leads and nobody else does.
   */
  lemma {:induction false} ExactlyOneLeader(e: Environment, t: Timing, log: seq<Action>, i: nat)
    requires KeptThroughout(e, t, log) && LeastToJoin(log, e.least)
    requires i <= |log| && e.least in After(t, log[..i]).nodes && forall j | i <= j < |log| :: log[j] != Crash(e.least)
    requires FreeThroughout(t, log, i, e.least)
    requires PortIs(log, i, e.least, false) && HubUnspent(After(t, log[..i]).nodes[e.least])
    requires After(t, log[..i]).now + Patience(t) < After(t, log).now
    requires forall id | id in After(t, log).nodes && id != e.least ::
      QuietFrom(e, After(t, log).nodes[id]) + t.startup + t.recheck < After(t, log).now
    ensures e.least in After(t, log).nodes
    ensures forall id | id in After(t, log).nodes :: After(t, log).nodes[id].iAmLeader <==> id == e.least
  {
    LeastIsFirstThroughout(t, log, i, e.least);
    LeadsInTime(t, log, i, e.least);
    forall id | id in After(t, log).nodes && id != e.least
      ensures !After(t, log).nodes[id].iAmLeader
    {
      SpeakersJoined(t, log, id);
      Stabilises(e, t, log, id);
    }
  }
}
