/**
 * The failover promise fails in two ways for a loop that is held up. A PEER announcement renews the
 * entry of a node that once led without taking back its leader flag, so the node with the least id can
 * follow, for ever, a node that has stepped down in its favour. And a node that sets out to join a
 * leader which then dies retries the handshake for ever.
 */
module GhostLeader {
  import opened Wrappers
  import opened Lexicographic
  import opened Election
  import opened Cluster
  import opened Failover

  /** `me` counts `id` among its live peers. */
  ghost predicate Sees(s: State, me: string, id: string) {
    me in s.nodes && id in s.nodes[me].peers && Fresh(s.nodes[me].peers[id], s.now)
  }

  /** `me` follows `spectre`, whose flag in its view is set, or is about to; `spectre` does not lead. */
  ghost predicate Haunted(s: State, me: string, spectre: string) {
    && me in s.nodes && (s.nodes[me].role.Connecting? || s.nodes[me].role.Following?) && !s.nodes[me].iAmLeader
    && spectre in s.nodes[me].peers
    && s.nodes[me].peers[spectre].isLeader && s.nodes[me].peers[spectre].leaderTcpBase.Some?
    && spectre in s.nodes && !s.nodes[spectre].iAmLeader
    && !s.nodes[spectre].role.Starting? && !s.nodes[spectre].role.Leading?
  }

  /** Nobody crashes and no connection fails once its handshake was answered. */
  ghost predicate Calm(a: Action) {
    !a.Crash? && (a.Connect? ==> a.joined)
  }

  lemma {:induction false} StaysHaunted(t: Timing, s: State, a: Action, me: string, spectre: string)
    requires Haunted(s, me, spectre) && me != spectre && LexLe(me, spectre)
    requires Calm(a) && Sees(s, me, spectre) && Sees(s, spectre, me)
    ensures Haunted(Step(t, s, a), me, spectre)
  {
    var p := s.nodes[me].peers[spectre];
    assert IsCurrentLeader(s.nodes[me].peers, s.now, spectre, p.leaderTcpBase.value);
    SmallerPeerForbids(spectre, s.nodes[spectre].peers, s.now, me);
  }

  /** As long as the two keep hearing each other, neither of them ever leads. */
  lemma {:induction false} NobodyLeads(t: Timing, log: seq<Action>, i: nat, me: string, spectre: string)
    requires i <= |log| && Haunted(After(t, log[..i]), me, spectre) && me != spectre && LexLe(me, spectre)
    requires forall j | i <= j < |log| ::
      Calm(log[j]) && Sees(After(t, log[..j]), me, spectre) && Sees(After(t, log[..j]), spectre, me)
    ensures Haunted(After(t, log), me, spectre)
    ensures !After(t, log).nodes[me].iAmLeader && !After(t, log).nodes[spectre].iAmLeader
  {
    if i == |log| {
      assert log[..i] == log;
    } else {
      var before := log[..|log| - 1];
      assert before[..i] == log[..i];
      assert forall j | i <= j < |before| :: before[j] == log[j] && before[..j] == log[..j];
      NobodyLeads(t, before, i, me, spectre);
      StaysHaunted(t, After(t, before), log[|log| - 1], me, spectre);
    }
  }

  /** Being haunted in this way is one of the two ways in which the loop is held up. */
  lemma {:induction false} HauntedIsBlocked(t: Timing, log: seq<Action>, me: string, spectre: string)
    requires Haunted(After(t, log), me, spectre) && Sees(After(t, log), me, spectre)
    ensures Blocked(After(t, log), me)
  {
    var s := After(t, log);
    KnownIffHaunted(t, log, me);
    assert IsCurrentLeader(s.nodes[me].peers, s.now, spectre, s.nodes[me].peers[spectre].leaderTcpBase.value);
  }

  // ----- such a run -----

  const WAS_LEADER := Announcement(5.0, Some("ip"), 5)

  /** "b" starts alone and finds no leader. */
  lemma {:induction false} FirstWakes(t: Timing) returns (log: seq<Action>)
    requires t.Valid()
    ensures After(t, log).now == 5.0 && After(t, log).steps == 3
    ensures After(t, log).sent == map[] && After(t, log).hung == {}
    ensures After(t, log).nodes == map["b" := Booted(0.0).(role := Deciding(5.0))]
  {
    OneMore(t, [], Boot("b"));
    log := [] + [Boot("b")];
    assert After(t, log).nodes == map["b" := Booted(0.0)];
    OneMore(t, log, Elapse(5.0));
    log := log + [Elapse(5.0)];
    OneMore(t, log, Evaluate("b", None));
    log := log + [Evaluate("b", None)];
  }

  /** It comes to lead. */
  lemma {:induction false} FirstLeads(t: Timing) returns (log: seq<Action>)
    requires t.Valid()
    ensures After(t, log).now == 5.0 && After(t, log).steps == 5
    ensures After(t, log).sent == map[] && After(t, log).hung == {}
    ensures After(t, log).nodes == map["b" := Node(map[], true, Leading(5.0, 5.0), [], 0, 0.0, true)]
  {
    log := FirstWakes(t);
    OneMore(t, log, Decide("b"));
    log := log + [Decide("b")];
    assert After(t, log).nodes == map["b" := Booted(0.0).(role := Starting(5.0))];
    OneMore(t, log, TakeLead("b", false));
    log := log + [TakeLead("b", false)];
  }

  /** It announces so; "a" joins and hears it. */
  lemma {:induction false} ThenAnnounces(t: Timing) returns (log: seq<Action>)
    requires t.Valid()
    ensures var s := After(t, log);
      && s.now == 5.0 && s.nodes.Keys == {"a", "b"} && s.hung == {}
      && s.nodes["b"] == Node(map[], true, Leading(5.0, 5.0), [], 0, 0.0, true)
      && s.nodes["a"].peers == map["b" := PeerInfo(5.0, true, Some("ip"))]
      && s.nodes["a"].role == Resting(10.0) && !s.nodes["a"].iAmLeader
      && SentBy(s, "a") == []
  {
    log := FirstLeads(t);
    OneMore(t, log, Announce("b", "ip"));
    log := log + [Announce("b", "ip")];
    assert SentBy(After(t, log), "b") == [WAS_LEADER];
    OneMore(t, log, Boot("a"));
    log := log + [Boot("a")];
    assert After(t, log).nodes["a"] == Booted(5.0);
    OneMore(t, log, Receive("a", "b", 0, true));
    log := log + [Receive("a", "b", 0, true)];
  }

  /** "a" announces itself, and "b" hears it. */
  lemma {:induction false} ThenHears(t: Timing) returns (log: seq<Action>)
    requires t.Valid()
    ensures var s := After(t, log);
      && s.now == 8.0 && s.nodes.Keys == {"a", "b"} && s.hung == {}
      && s.nodes["a"].peers == map["b" := PeerInfo(5.0, true, Some("ip"))]
      && s.nodes["a"].role == Resting(10.0) && !s.nodes["a"].iAmLeader
      && s.nodes["b"].peers == map["a" := PeerInfo(8.0, false, None)]
      && s.nodes["b"].role == Leading(5.0, 5.0) && s.nodes["b"].hub
  {
    log := ThenAnnounces(t);
    OneMore(t, log, Announce("a", "ip2"));
    log := log + [Announce("a", "ip2")];
    assert SentBy(After(t, log), "a") == [Announcement(5.0, None, After(t, log).steps - 1)];
    OneMore(t, log, Elapse(8.0));
    log := log + [Elapse(8.0)];
    OneMore(t, log, Receive("b", "a", 0, false));
    log := log + [Receive("b", "a", 0, false)];
  }

  /** "b" steps down, finds no leader and waits for one. */
  lemma {:induction false} ThenStepsDown(t: Timing) returns (log: seq<Action>)
    requires t.Valid()
    ensures var s := After(t, log);
      && s.now == 8.0 && s.nodes.Keys == {"a", "b"} && s.hung == {}
      && s.nodes["a"].peers == map["b" := PeerInfo(5.0, true, Some("ip"))]
      && s.nodes["a"].role == Resting(10.0) && !s.nodes["a"].iAmLeader
      && s.nodes["b"].peers == map["a" := PeerInfo(8.0, false, None)]
      && s.nodes["b"].role == Resting(11.0) && !s.nodes["b"].iAmLeader && s.nodes["b"].hub
  {
    log := ThenHears(t);
    assert !LexLe("b", "a");
    assert !ShouldLead("b", After(t, log).nodes["b"].peers, 8.0);
    OneMore(t, log, Recheck("b"));
    log := log + [Recheck("b")];
    assert After(t, log).nodes["b"].role == Resting(8.0);
    OneMore(t, log, Evaluate("b", None));
    log := log + [Evaluate("b", None)];
    assert After(t, log).nodes["b"].role == Deciding(8.0);
    OneMore(t, log, Decide("b"));
    log := log + [Decide("b")];
  }

  /** Both nodes are up and hear each other, "a" has the least id, and nobody leads: the haunting begins. */
  lemma {:induction false} HauntedRun(t: Timing) returns (log: seq<Action>)
    requires t.Valid()
    ensures After(t, log).nodes.Keys == {"a", "b"} && LexLe("a", "b")
    ensures Haunted(After(t, log), "a", "b") && Sees(After(t, log), "a", "b") && Sees(After(t, log), "b", "a")
    ensures var s := After(t, log);
      && s.now == 10.0 && s.hung == {} && s.nodes["a"].role == Connecting("b", "ip")
      && s.nodes["a"].peers == map["b" := PeerInfo(5.0, true, Some("ip"))]
  {
    log := ThenStepsDown(t);
    assert !LexLe("b", "a");
    OneMore(t, log, Elapse(10.0));
    log := log + [Elapse(10.0)];
    OneMore(t, log, Evaluate("a", Some(("b", "ip"))));
    log := log + [Evaluate("a", Some(("b", "ip")))];
  }

  // ----- the second way: a handshake that nobody answers -----

  /** `me` is the only process left, and waits for a handshake. */
  ghost predicate Abandoned(s: State, me: string) {
    s.nodes.Keys == {me} && s.hung == {} && s.nodes[me].role.Connecting? && !s.nodes[me].iAmLeader
  }

  /** Only another node can end it: without one the last node left never leads. */
  lemma {:induction false} StaysAbandoned(t: Timing, log: seq<Action>, i: nat, me: string)
    requires i <= |log| && Abandoned(After(t, log[..i]), me)
    requires forall j | i <= j < |log| :: !log[j].Boot? && log[j] != Crash(me)
    ensures Abandoned(After(t, log), me) && Blocked(After(t, log), me)
  {
    if i == |log| {
      assert log[..i] == log;
    } else {
      var before := log[..|log| - 1];
      assert before[..i] == log[..i];
      assert forall j | i <= j < |before| :: before[j] == log[j];
      StaysAbandoned(t, before, i, me);
    }
  }

  /**
   * "a" sets out to join "b", which crashes first. However long it is since anything was heard from
   * "b", the only node up, which nothing haunts and which passes the rule, does not lead.
   */
  lemma {:induction false} AbandonedRun(t: Timing, end: real) returns (log: seq<Action>)
    requires t.Valid() && 20.0 <= end
    ensures var s := After(t, log);
      && Abandoned(s, "a") && s.now == end && FirstInLine(s, "a")
      && forall id | id != "a" :: !Haunts(s.nodes["a"], s.now, id)
  {
    log := HauntedRun(t);
    OneMore(t, log, Crash("b"));
    log := log + [Crash("b")];
    OneMore(t, log, Elapse(end));
    log := log + [Elapse(end)];
    KnownIffHaunted(t, log, "a");
  }
}
