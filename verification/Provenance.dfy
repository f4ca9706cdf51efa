/** Where a node's belief about the leader comes from, and how that belief can outlive the leader. */
module Provenance {
  import opened Wrappers
  import opened Election
  import opened Cluster

  /** The position of the last thing heard from `id`, or -1. */
  function LastFrom(heard: seq<Hearing>, id: string): (i: int)
    ensures -1 <= i < |heard|
    ensures i >= 0 ==> heard[i].from == id
    ensures forall j | i < j < |heard| :: heard[j].from != id
  {
    if heard == [] then -1
    else if heard[|heard| - 1].from == id then |heard| - 1
    else LastFrom(heard[..|heard| - 1], id)
  }

  /** The position of the last LEADER announcement heard from `id`, or -1. */
  function LastLeader(heard: seq<Hearing>, id: string): (i: int)
    ensures -1 <= i < |heard|
    ensures i >= 0 ==> heard[i].from == id && heard[i].base.Some?
    ensures forall j | i < j < |heard| :: !(heard[j].from == id && heard[j].base.Some?)
  {
    if heard == [] then -1
    else if heard[|heard| - 1].from == id && heard[|heard| - 1].base.Some? then |heard| - 1
    else LastLeader(heard[..|heard| - 1], id)
  }

  lemma {:induction false} LeaderIsHeard(heard: seq<Hearing>, id: string)
    ensures LastLeader(heard, id) <= LastFrom(heard, id)
  {
  }

  /** What the entry for a peer must be, given all that was heard and how much of it before the last clear. */
  ghost predicate EntryTells(p: PeerInfo, heard: seq<Hearing>, cleared: nat, id: string)
    requires LastFrom(heard, id) >= 0
  {
    var last := LastLeader(heard, id);
    && p.lastSeen == heard[LastFrom(heard, id)].at
    && p.leaderTcpBase == (if last < 0 then None else heard[last].base)
    && (p.isLeader <==> last >= 0 && cleared <= last)
  }

  /** The view is exactly what the node has heard. */
  ghost predicate Faithful(me: string, n: Node) {
    && n.cleared <= |n.heard|
    && (forall id :: id in n.peers <==> id != me && LastFrom(n.heard, id) >= 0)
    && (forall id | id in n.peers :: EntryTells(n.peers[id], n.heard, n.cleared, id))
  }

  lemma {:induction false} LastGrows(heard: seq<Hearing>, h: Hearing, id: string)
    ensures LastFrom(heard + [h], id) == if id == h.from then |heard| else LastFrom(heard, id)
    ensures LastLeader(heard + [h], id) ==
      if id == h.from && h.base.Some? then |heard| else LastLeader(heard, id)
  {
  }

  lemma {:induction false} EntryKeepsTelling(me: string, n: Node, h: Hearing, id: string)
    requires Faithful(me, n) && id in Heard(me, n, h).peers
    ensures id != me && LastFrom(n.heard + [h], id) >= 0
    ensures EntryTells(Heard(me, n, h).peers[id], n.heard + [h], n.cleared, id)
  {
    LastGrows(n.heard, h, id);
    LeaderIsHeard(n.heard, id);
    if id == h.from {
      HeardEntryTells(me, n, h);
    } else {
      assert EntryTells(n.peers[id], n.heard, n.cleared, id);
    }
  }

  lemma {:induction false} HeardEntryTells(me: string, n: Node, h: Hearing)
    requires Faithful(me, n) && h.from != me
    ensures h.from in Heard(me, n, h).peers && LastFrom(n.heard + [h], h.from) == |n.heard|
    ensures EntryTells(Heard(me, n, h).peers[h.from], n.heard + [h], n.cleared, h.from)
  {
    LastGrows(n.heard, h, h.from);
    LeaderIsHeard(n.heard, h.from);
    if h.from in n.peers {
      assert EntryTells(n.peers[h.from], n.heard, n.cleared, h.from);
    }
  }

  lemma {:induction false} HearingKeepsFaith(me: string, n: Node, h: Hearing)
    requires Faithful(me, n)
    ensures Faithful(me, Heard(me, n, h))
  {
    var n' := Heard(me, n, h);
    forall id
      ensures id in n'.peers <==> id != me && LastFrom(n'.heard, id) >= 0
    {
      LastGrows(n.heard, h, id);
    }
    forall id | id in n'.peers
      ensures EntryTells(n'.peers[id], n'.heard, n'.cleared, id)
    {
      EntryKeepsTelling(me, n, h, id);
    }
  }

  lemma {:induction false} ClearingKeepsFaith(me: string, n: Node, now: real)
    requires Faithful(me, n)
    ensures Faithful(me, FollowingStopped(n, now))
  {
  }

  lemma {:induction false} SameKeepsFaith(me: string, n: Node, n': Node)
    requires Faithful(me, n) && n'.peers == n.peers && n'.heard == n.heard && n'.cleared == n.cleared
    ensures Faithful(me, n')
  {
  }

  /** A step changes what a node believes only by a hearing or a clear. */
  lemma {:induction false} StepOnBelief(t: Timing, s: State, a: Action, me: string)
    requires me in s.nodes && me in Step(t, s, a).nodes
    ensures var n, n' := s.nodes[me], Step(t, s, a).nodes[me];
      || (n'.peers == n.peers && n'.heard == n.heard && n'.cleared == n.cleared)
      || n' == FollowingStopped(n, s.now)
      || (a.Receive? && Enabled(t, s, a) && n' == Heard(me, n, HearingOf(s, a.from, a.index, a.asLeader)))
  {
  }

  lemma {:induction false} StepKeepsFaith(t: Timing, s: State, a: Action, me: string)
    requires me in s.nodes && Faithful(me, s.nodes[me]) && me in Step(t, s, a).nodes
    ensures Faithful(me, Step(t, s, a).nodes[me])
  {
    var n, n' := s.nodes[me], Step(t, s, a).nodes[me];
    StepOnBelief(t, s, a, me);
    if n'.peers == n.peers && n'.heard == n.heard && n'.cleared == n.cleared {
      SameKeepsFaith(me, n, n');
    } else if n' == FollowingStopped(n, s.now) {
      ClearingKeepsFaith(me, n, s.now);
    } else {
      HearingKeepsFaith(me, n, HearingOf(s, a.from, a.index, a.asLeader));
    }
  }

  lemma {:induction false} AlwaysFaithful(t: Timing, log: seq<Action>, me: string)
    ensures me in After(t, log).nodes ==> Faithful(me, After(t, log).nodes[me])
  {
    if log != [] && me in After(t, log).nodes {
      var s, a := After(t, log[..|log| - 1]), log[|log| - 1];
      AlwaysFaithful(t, log[..|log| - 1], me);
      if me in s.nodes {
        StepKeepsFaith(t, s, a, me);
      } else {
        assert After(t, log).nodes[me] == Booted(s.now);
      }
    }
  }

  /** Each announcement was made by its sender, with the address it gave, and as leader only while leading. */
  ghost predicate WasMade(t: Timing, log: seq<Action>, id: string, a: Announcement) {
    && a.step < |log| && log[a.step].Announce? && log[a.step].id == id
    && id in After(t, log[..a.step]).nodes
    && a.at == After(t, log[..a.step]).now
    && (a.base.Some? ==> a.base == Some(log[a.step].address) && After(t, log[..a.step]).nodes[id].iAmLeader)
  }

  lemma {:induction false} AnnouncementsAreMade(t: Timing, log: seq<Action>, id: string, i: nat)
    requires i < |SentBy(After(t, log), id)|
    ensures After(t, log).steps == |log|
    ensures WasMade(t, log, id, SentBy(After(t, log), id)[i])
  {
    var before, a := log[..|log| - 1], log[|log| - 1];
    StepsCount(t, before);
    StepsCount(t, log);
    var s := After(t, before);
    if i < |SentBy(s, id)| {
      AnnouncementsAreMade(t, before, id, i);
      SentGrows(t, s, a, id);
      var step := SentBy(s, id)[i].step;
      assert before[..step] == log[..step];
    }
  }

  lemma {:induction false} StepsCount(t: Timing, log: seq<Action>)
    ensures After(t, log).steps == |log|
  {
    if log != [] {
      StepsCount(t, log[..|log| - 1]);
    }
  }

  /**
   * `current_leader` answers (id, base) exactly when the last LEADER announcement heard from that
   * other node said `base` and came after the last clear, and something from it came under 10 s ago.
   */
  lemma {:induction false} CurrentLeaderIff(t: Timing, log: seq<Action>, me: string, id: string, base: string)
    requires me in After(t, log).nodes
    ensures var n := After(t, log).nodes[me]; var last := LastLeader(n.heard, id);
      && me !in n.peers
      && (IsCurrentLeader(n.peers, After(t, log).now, id, base) <==>
           && id != me && last >= 0 && n.cleared <= last && n.heard[last].base == Some(base)
           && LastFrom(n.heard, id) >= 0
           && After(t, log).now - n.heard[LastFrom(n.heard, id)].at < PEER_TIMEOUT)
  {
    AlwaysFaithful(t, log, me);
    LeaderIsHeard(After(t, log).nodes[me].heard, id);
  }

  /** And that node did announce `base`, earlier in the run, while its own leader flag was set. */
  lemma {:induction false} LeaderProvenance(t: Timing, log: seq<Action>, me: string, id: string,
                                            base: string) returns (step: nat)
    requires t.Valid() && me in After(t, log).nodes
    requires IsCurrentLeader(After(t, log).nodes[me].peers, After(t, log).now, id, base)
    ensures step < |log| && log[step] == Announce(id, base)
    ensures LastLeader(After(t, log).nodes[me].heard, id) >= 0
    ensures var past := After(t, log[..step]);
      && id in past.nodes && past.nodes[id].iAmLeader
      && past.now <= After(t, log).nodes[me].heard[LastLeader(After(t, log).nodes[me].heard, id)].at
  {
    var s := After(t, log);
    var n := s.nodes[me];
    CurrentLeaderIff(t, log, me, id, base);
    AlwaysInTime(t, log);
    var h := n.heard[LastLeader(n.heard, id)];
    assert NodeInTime(t, s, me);
    assert HeardInTime(s, me, h);
    AnnouncementsAreMade(t, log, id, h.index);
    step := SentBy(s, id)[h.index].step;
  }

  // ----- leaving a leader takes its flag back -----

  /** From `n` to `n'` every leader flag is taken back, as of now, and nothing else about a peer changes. */
  ghost predicate ClearedFlags(n: Node, n': Node) {
    && n'.peers.Keys == n.peers.Keys
    && (forall id | id in n'.peers ::
         && !n'.peers[id].isLeader
         && n'.peers[id].lastSeen == n.peers[id].lastSeen
         && n'.peers[id].leaderTcpBase == n.peers[id].leaderTcpBase)
    && n'.cleared == |n.heard| && n'.heard == n.heard
  }

  /** The step with which a node returns to its loop: a poll that finds no leader, or a failed connection. */
  ghost predicate Leaves(t: Timing, s: State, a: Action, me: string) {
    && me in s.nodes && Enabled(t, s, a)
    && (a == Poll(me) || a == Connect(me, false))
    && Step(t, s, a).nodes[me].role.Resting?
  }

  lemma {:induction false} LeavingClears(t: Timing, s: State, a: Action, me: string)
    requires Leaves(t, s, a, me)
    ensures ClearedFlags(s.nodes[me], Step(t, s, a).nodes[me])
    ensures var n, n' := s.nodes[me], Step(t, s, a).nodes[me];
      n'.role == Resting(s.now + 2.0) && n'.iAmLeader == n.iAmLeader && n'.hub == n.hub && n'.bootedAt == n.bootedAt
  {
  }

  /** A poll leaves exactly when no peer seen under 10 s ago is flagged with an address. */
  lemma {:induction false} PollLeavesIff(t: Timing, s: State, me: string)
    requires me in s.nodes && Enabled(t, s, Poll(me))
    ensures Leaves(t, s, Poll(me), me) <==> forall id | id in s.nodes[me].peers ::
      var p := s.nodes[me].peers[id]; !(p.isLeader && s.now - p.lastSeen < 10.0 && p.leaderTcpBase.Some?)
  {
    var peers := s.nodes[me].peers;
    if id :| id in peers && peers[id].isLeader && s.now - peers[id].lastSeen < 10.0 && peers[id].leaderTcpBase.Some? {
      assert IsCurrentLeader(peers, s.now, id, peers[id].leaderTcpBase.value);
    }
  }

  /** An answered handshake ends in one of two ways. */
  lemma {:induction false} ConnectEnds(t: Timing, s: State, me: string, joined: bool)
    requires me in s.nodes && Enabled(t, s, Connect(me, joined))
    ensures Leaves(t, s, Connect(me, joined), me) <==> !joined
    ensures var n := s.nodes[me];
      joined ==> Step(t, s, Connect(me, true)).nodes[me] == n.(role := Following(n.role.leader, n.role.base, s.now))
  {
  }

  ghost predicate NoFlags(s: State, me: string) {
    me in s.nodes ==> forall id | id in s.nodes[me].peers :: !s.nodes[me].peers[id].isLeader
  }

  lemma {:induction false} NoFlagsStep(t: Timing, s: State, a: Action, me: string)
    requires NoFlags(s, me) && !(a.Receive? && a.id == me && a.asLeader)
    ensures NoFlags(Step(t, s, a), me)
  {
  }

  /** After that step nobody counts as leader until a LEADER announcement is heard; a PEER one changes nothing. */
  lemma {:induction false} NobodyUntilHeard(t: Timing, log: seq<Action>, i: nat, me: string)
    requires i < |log| && Leaves(t, After(t, log[..i]), log[i], me)
    requires forall j | i < j < |log| :: !(log[j].Receive? && log[j].id == me && log[j].asLeader)
    ensures NoFlags(After(t, log), me)
    ensures me in After(t, log).nodes ==> NoCurrentLeader(After(t, log).nodes[me].peers, After(t, log).now)
  {
    var before, a := log[..|log| - 1], log[|log| - 1];
    if i == |before| {
      LeavingClears(t, After(t, before), a, me);
    } else {
      assert before[..i] == log[..i];
      assert forall j | i <= j < |before| :: before[j] == log[j];
      NobodyUntilHeard(t, before, i, me);
      NoFlagsStep(t, After(t, before), a, me);
    }
  }
}
