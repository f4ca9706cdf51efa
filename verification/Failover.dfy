/**
 * When the node whose turn it is comes to lead: exactly when its loop is not held up, by a leader it
 * still believes in or by a handshake that nobody answers, and its hub can start, which it does once
 * in the life of a process.
 */
module Failover {
  import opened Wrappers
  import opened Election
  import opened Cluster
  import opened Provenance

  /** A LEADER announcement from `id` came after the last clear, and something from it lately. */
  ghost predicate Haunts(n: Node, now: real, id: string) {
    && LastLeader(n.heard, id) >= 0 && n.cleared <= LastLeader(n.heard, id)
    && LastFrom(n.heard, id) >= 0 && now - n.heard[LastFrom(n.heard, id)].at < PEER_TIMEOUT
  }

  lemma {:induction false} KnownIffHaunted(t: Timing, log: seq<Action>, me: string)
    requires me in After(t, log).nodes
    ensures NoCurrentLeader(After(t, log).nodes[me].peers, After(t, log).now) <==>
      forall id | id != me :: !Haunts(After(t, log).nodes[me], After(t, log).now, id)
  {
    var s := After(t, log);
    var n := s.nodes[me];
    if id, base :| IsCurrentLeader(n.peers, s.now, id, base) {
      CurrentLeaderIff(t, log, me, id, base);
      assert Haunts(n, s.now, id);
    } else if id :| id != me && Haunts(n, s.now, id) {
      CurrentLeaderIff(t, log, me, id, n.heard[LastLeader(n.heard, id)].base.value);
      assert false;
    }
  }

  /** The loop of `me` is held up: it waits for a handshake, or something haunts it. */
  ghost predicate Blocked(s: State, me: string) {
    me in s.nodes && (s.nodes[me].role.Connecting? || exists id | id != me :: Haunts(s.nodes[me], s.now, id))
  }

  /** `me` is up and passes the election rule. */
  ghost predicate FirstInLine(s: State, me: string) {
    me in s.nodes && ShouldLead(me, s.nodes[me].peers, s.now)
  }

  /** `me` is up at the start of the stretch, is not killed in it, and passes the rule for as long as its loop runs. */
  ghost predicate FirstThroughout(t: Timing, log: seq<Action>, i: nat, me: string) {
    && i <= |log| && me in After(t, log[..i]).nodes
    && (forall j | i <= j < |log| :: log[j] != Crash(me))
    && (forall j | i <= j <= |log| && me in After(t, log[..j]).nodes :: FirstInLine(After(t, log[..j]), me))
  }

  ghost predicate BlockedThroughout(t: Timing, log: seq<Action>, i: nat, me: string) {
    forall j | i <= j <= |log| :: Blocked(After(t, log[..j]), me)
  }

  ghost predicate FreeThroughout(t: Timing, log: seq<Action>, i: nat, me: string) {
    forall j | i <= j <= |log| :: !Blocked(After(t, log[..j]), me)
  }

  /** Whenever `me` starts its hub, another process holds the port, or never. */
  ghost predicate PortIs(log: seq<Action>, i: nat, me: string, taken: bool) {
    forall j | i <= j < |log| && log[j].TakeLead? && log[j].id == me :: log[j].taken == taken
  }

  lemma {:induction false} ShorterStretch(t: Timing, log: seq<Action>, i: nat, me: string)
    requires i < |log| && FirstThroughout(t, log, i, me)
    ensures var before := log[..|log| - 1];
      && FirstThroughout(t, before, i, me) && before[..i] == log[..i]
      && (me in After(t, before).nodes ==> FirstInLine(After(t, before), me))
      && (me in After(t, log).nodes ==> FirstInLine(After(t, log), me))
  {
    var before := log[..|log| - 1];
    assert log[..|log|] == log && before[..|before|] == before;
    assert forall j | i <= j <= |before| :: before[..j] == log[..j];
    assert forall j | i <= j < |before| :: before[j] == log[j];
  }

  lemma {:induction false} ShorterFree(t: Timing, log: seq<Action>, i: nat, me: string)
    requires i < |log| && FreeThroughout(t, log, i, me)
    ensures FreeThroughout(t, log[..|log| - 1], i, me) && !Blocked(After(t, log[..|log| - 1]), me)
  {
    var before := log[..|log| - 1];
    assert before[..|before|] == before;
    assert forall j | i <= j <= |before| :: before[..j] == log[..j];
  }

  lemma {:induction false} ShorterPort(log: seq<Action>, i: nat, me: string, taken: bool)
    requires i < |log| && PortIs(log, i, me, taken)
    ensures PortIs(log[..|log| - 1], i, me, taken)
  {
    var before := log[..|log| - 1];
    assert forall j | i <= j < |before| :: before[j] == log[j];
  }

  // ----- a process that is not killed ends only in a hub start that fails -----

  /** Up, or gone the one way there is. */
  ghost predicate UpOrHung(s: State, me: string) {
    me in s.nodes || me in s.hung
  }

  lemma {:induction false} LossStep(t: Timing, s: State, a: Action, me: string)
    requires a != Crash(me) && UpOrHung(s, me)
    ensures UpOrHung(Step(t, s, a), me)
    ensures me in Step(t, s, a).nodes && me in s.nodes && s.nodes[me].hub ==> Step(t, s, a).nodes[me].hub
    ensures me in s.nodes && me !in Step(t, s, a).nodes ==>
      a.TakeLead? && a.id == me && !CanStart(s.nodes[me], a.taken)
    ensures me !in s.nodes ==> me !in Step(t, s, a).nodes
  {
  }

  lemma {:induction false} StaysUpOrHung(t: Timing, log: seq<Action>, i: nat, me: string)
    requires FirstThroughout(t, log, i, me)
    ensures UpOrHung(After(t, log), me)
  {
    if i == |log| {
      assert log[..i] == log;
    } else {
      ShorterStretch(t, log, i, me);
      StaysUpOrHung(t, log[..|log| - 1], i, me);
      LossStep(t, After(t, log[..|log| - 1]), log[|log| - 1], me);
    }
  }

  /** The hub has not been started, or is at work. */
  predicate HubUnspent(n: Node) {
    n.hub ==> n.role.Leading?
  }

  lemma {:induction false} StartStep(t: Timing, s: State, a: Action, me: string)
    requires a != Crash(me) && FirstInLine(s, me) && HubUnspent(s.nodes[me])
    requires a.TakeLead? && a.id == me ==> !a.taken
    ensures me in Step(t, s, a).nodes && HubUnspent(Step(t, s, a).nodes[me])
  {
  }

  /** With its port free, a process that has not led before survives the start of its hub. */
  lemma {:induction false} StartSucceeds(t: Timing, log: seq<Action>, i: nat, me: string)
    requires FirstThroughout(t, log, i, me) && PortIs(log, i, me, false)
    requires HubUnspent(After(t, log[..i]).nodes[me])
    ensures me in After(t, log).nodes && HubUnspent(After(t, log).nodes[me])
  {
    if i == |log| {
      assert log[..i] == log;
    } else {
      ShorterStretch(t, log, i, me);
      ShorterPort(log, i, me, false);
      StartSucceeds(t, log[..|log| - 1], i, me);
      StartStep(t, After(t, log[..|log| - 1]), log[|log| - 1], me);
    }
  }

  /**
   * A process that has led and stepped down, or whose port another one holds, never leads; it need
   * not even be first in line.
   */
  lemma {:induction false} StartFails(t: Timing, log: seq<Action>, i: nat, me: string)
    requires i <= |log| && me in After(t, log[..i]).nodes && !After(t, log[..i]).nodes[me].role.Leading?
    requires forall j | i <= j < |log| :: log[j] != Crash(me)
    requires After(t, log[..i]).nodes[me].hub || PortIs(log, i, me, true)
    ensures UpOrHung(After(t, log), me)
    ensures me in After(t, log).nodes ==>
      && !After(t, log).nodes[me].role.Leading?
      && (After(t, log[..i]).nodes[me].hub ==> After(t, log).nodes[me].hub)
  {
    if i == |log| {
      assert log[..i] == log;
    } else {
      var before := log[..|log| - 1];
      assert before[..i] == log[..i];
      assert forall j | i <= j < |before| :: before[j] == log[j];
      StartFails(t, before, i, me);
      LossStep(t, After(t, before), log[|log| - 1], me);
      if me in After(t, log).nodes {
        NoStart(t, After(t, before), log[|log| - 1], me);
      }
    }
  }

  lemma {:induction false} NoStart(t: Timing, s: State, a: Action, me: string)
    requires me in s.nodes && !s.nodes[me].role.Leading? && me in Step(t, s, a).nodes
    requires a.TakeLead? && a.id == me ==> !CanStart(s.nodes[me], a.taken)
    ensures !Step(t, s, a).nodes[me].role.Leading?
  {
  }

  // ----- the way to the hub's start, when nothing holds the loop up -----

  /** If nothing holds it up the node's hub has been started by then. */
  predicate LeadsBy(t: Timing, n: Node, deadline: real) {
    match n.role
    case Leading(_, _) => true
    case Starting(passed) => passed + t.startup <= deadline
    case Deciding(since) => since + t.turn + t.startup <= deadline
    case Resting(until) => until + t.turn + t.turn + t.startup <= deadline
    case Following(_, _, due) => due + POLL_SLEEP + t.turn + t.turn + t.turn + t.startup <= deadline
    case Connecting(_, _) => false
  }

  /** The longest way: the first listening phase, a late evaluation, decision or poll, and the hub's start. */
  function Patience(t: Timing): real {
    LISTEN_FIRST + t.turn + t.turn + t.turn + t.startup
  }

  lemma {:induction false} ComesCloser(t: Timing, s: State, a: Action, me: string, deadline: real)
    requires t.Valid() && me in s.nodes && NodeInTime(t, s, me) && me in Step(t, s, a).nodes
    requires NoCurrentLeader(s.nodes[me].peers, s.now) && ShouldLead(me, s.nodes[me].peers, s.now)
    requires LeadsBy(t, s.nodes[me], deadline)
    ensures LeadsBy(t, Step(t, s, a).nodes[me], deadline)
  {
  }

  lemma {:induction false} KeepsComing(t: Timing, log: seq<Action>, i: nat, me: string, deadline: real)
    requires t.Valid() && FirstThroughout(t, log, i, me) && FreeThroughout(t, log, i, me)
    requires LeadsBy(t, After(t, log[..i]).nodes[me], deadline)
    ensures me in After(t, log).nodes ==> LeadsBy(t, After(t, log).nodes[me], deadline)
  {
    if i == |log| {
      assert log[..i] == log;
    } else if me in After(t, log).nodes {
      var before := log[..|log| - 1];
      ShorterStretch(t, log, i, me);
      ShorterFree(t, log, i, me);
      StaysUpOrHung(t, before, i, me);
      LossStep(t, After(t, before), log[|log| - 1], me);
      KeepsComing(t, before, i, me, deadline);
      AlwaysInTime(t, before);
      KnownIffHaunted(t, before, me);
      ComesCloser(t, After(t, before), log[|log| - 1], me, deadline);
    }
  }

  lemma {:induction false} SetOutInTime(t: Timing, s: State, me: string)
    requires t.Valid() && me in s.nodes && NodeInTime(t, s, me) && !s.nodes[me].role.Connecting?
    ensures LeadsBy(t, s.nodes[me], s.now + Patience(t))
  {
  }

  lemma {:induction false} ArrivesInTime(t: Timing, s: State, me: string, deadline: real)
    requires t.Valid() && me in s.nodes && NodeInTime(t, s, me)
    requires LeadsBy(t, s.nodes[me], deadline) && deadline < s.now
    ensures s.nodes[me].iAmLeader
  {
  }

  /** First in line and never held up, a process that is not killed soon leads, or its loop has ended. */
  lemma {:induction false} ArrivesOrEnds(t: Timing, log: seq<Action>, i: nat, me: string)
    requires t.Valid() && FirstThroughout(t, log, i, me) && FreeThroughout(t, log, i, me)
    requires After(t, log[..i]).now + Patience(t) < After(t, log).now
    ensures UpOrHung(After(t, log), me)
    ensures me in After(t, log).nodes ==> After(t, log).nodes[me].iAmLeader
  {
    var s := After(t, log[..i]);
    assert !Blocked(s, me);
    AlwaysInTime(t, log[..i]);
    AlwaysInTime(t, log);
    SetOutInTime(t, s, me);
    KeepsComing(t, log, i, me, s.now + Patience(t));
    StaysUpOrHung(t, log, i, me);
    if me in After(t, log).nodes {
      ArrivesInTime(t, After(t, log), me, s.now + Patience(t));
    }
  }

  /** And it leads, if its port is free and it has not led before. */
  lemma {:induction false} LeadsInTime(t: Timing, log: seq<Action>, i: nat, me: string)
    requires t.Valid() && FirstThroughout(t, log, i, me) && FreeThroughout(t, log, i, me)
    requires PortIs(log, i, me, false) && HubUnspent(After(t, log[..i]).nodes[me])
    requires After(t, log[..i]).now + Patience(t) < After(t, log).now
    ensures me in After(t, log).nodes && After(t, log).nodes[me].iAmLeader
  {
    ArrivesOrEnds(t, log, i, me);
    StartSucceeds(t, log, i, me);
  }

  // ----- and when something does hold it up -----

  /** Not on the way to leading. */
  predicate Idle(n: Node) {
    n.role.Resting? || n.role.Connecting? || n.role.Following?
  }

  lemma {:induction false} IdleStep(t: Timing, s: State, a: Action, me: string)
    requires me in s.nodes && Idle(s.nodes[me]) && me in Step(t, s, a).nodes
    requires s.nodes[me].role.Connecting? || !NoCurrentLeader(s.nodes[me].peers, s.now)
    ensures Idle(Step(t, s, a).nodes[me])
  {
  }

  lemma {:induction false} UnflaggedUnlessLeading(t: Timing, log: seq<Action>, me: string)
    requires t.Valid() && me in After(t, log).nodes
    ensures After(t, log).nodes[me].iAmLeader <==> After(t, log).nodes[me].role.Leading?
  {
    AlwaysInTime(t, log);
    assert NodeInTime(t, After(t, log), me);
  }

  lemma {:induction false} StaysIdle(t: Timing, log: seq<Action>, i: nat, me: string)
    requires i <= |log| && BlockedThroughout(t, log, i, me)
    requires Idle(After(t, log[..i]).nodes[me])
    ensures me in After(t, log).nodes && Idle(After(t, log).nodes[me])
  {
    assert log[..|log|] == log;
    assert Blocked(After(t, log), me);
    if i < |log| {
      var before := log[..|log| - 1];
      assert forall j | i <= j <= |before| :: before[..j] == log[..j];
      assert before[..|before|] == before;
      assert Blocked(After(t, before), me);
      StaysIdle(t, before, i, me);
      KnownIffHaunted(t, before, me);
      IdleStep(t, After(t, before), log[|log| - 1], me);
    }
  }

  /**
   * The exact condition for failover. Take a stretch, long enough, in which an idle process that is not
   * killed is first in line, is held up all the time or never, and has its port held by another process
   * all the time or never. It ends up leading iff it was not held up and could start a hub; if it was
   * not held up but could not, its loop has ended.
   */
  lemma {:induction false} LeadsIffUnblocked(t: Timing, log: seq<Action>, i: nat, me: string, taken: bool)
    requires t.Valid() && FirstThroughout(t, log, i, me) && PortIs(log, i, me, taken)
    requires BlockedThroughout(t, log, i, me) || FreeThroughout(t, log, i, me)
    requires Idle(After(t, log[..i]).nodes[me])
    requires After(t, log[..i]).now + Patience(t) < After(t, log).now
    ensures var before, s := After(t, log[..i]), After(t, log);
      && (me in s.nodes && s.nodes[me].iAmLeader <==>
           !Blocked(before, me) && CanStart(before.nodes[me], taken))
      && (me in s.hung && me !in s.nodes <==> !Blocked(before, me) && !CanStart(before.nodes[me], taken))
  {
    var n := After(t, log[..i]).nodes[me];
    if BlockedThroughout(t, log, i, me) {
      assert Blocked(After(t, log[..i]), me);
      StaysIdle(t, log, i, me);
      UnflaggedUnlessLeading(t, log, me);
    } else if CanStart(n, taken) {
      assert !Blocked(After(t, log[..i]), me);
      LeadsInTime(t, log, i, me);
    } else {
      assert !Blocked(After(t, log[..i]), me);
      ArrivesOrEnds(t, log, i, me);
      StartFails(t, log, i, me);
      if me in After(t, log).nodes {
        UnflaggedUnlessLeading(t, log, me);
      }
    }
  }

  /** One turn: the two reads, with nothing in between, lead a node that passes the rule to start exactly then. */
  lemma {:induction false} StartsIffNothingHaunts(t: Timing, log: seq<Action>, me: string,
                                                  leader: Option<(string, string)>)
    requires Enabled(t, After(t, log), Evaluate(me, leader)) && FirstInLine(After(t, log), me)
    ensures var s := Step(t, Step(t, After(t, log), Evaluate(me, leader)), Decide(me));
      s.nodes[me].role.Starting? <==> forall id | id != me :: !Haunts(After(t, log).nodes[me], After(t, log).now, id)
  {
    KnownIffHaunted(t, log, me);
  }

  // ----- no assumption on when the loop is held up, nor on time -----

  /** Step `j` of the run: `me` looks for a leader while nothing haunts it. */
  ghost predicate FreeTurn(t: Timing, log: seq<Action>, j: nat, me: string) {
    && j < |log| && log[j].Evaluate? && log[j].id == me && Enabled(t, After(t, log[..j]), log[j])
    && forall id | id != me :: !Haunts(After(t, log[..j]).nodes[me], After(t, log[..j]).now, id)
  }

  /** A free turn, the decision after it and the start of the hub. */
  ghost predicate Completed(t: Timing, log: seq<Action>, i: nat, me: string, taken: bool, j: nat, k: nat, m: nat) {
    && i <= j < k < m < |log|
    && FreeTurn(t, log, j, me) && log[k] == Decide(me) && log[m] == TakeLead(me, taken)
  }

  /** How far along the way to leading. */
  function Progress(n: Node): nat {
    if n.role.Deciding? then 1 else if n.role.Starting? then 2 else if n.role.Leading? then 3 else 0
  }

  lemma {:induction false} EvaluateProgress(t: Timing, log: seq<Action>, a: Action, me: string)
    requires var s := After(t, log); me in s.nodes && Progress(s.nodes[me]) == 0
    requires var s := Step(t, After(t, log), a); me in s.nodes && Progress(s.nodes[me]) > 0
    ensures Progress(Step(t, After(t, log), a).nodes[me]) == 1 && FreeTurn(t, log + [a], |log|, me)
  {
    assert (log + [a])[..|log|] == log;
    KnownIffHaunted(t, log, me);
  }

  /** Once on the way, a node first in line goes on one stage at a time and never back. */
  lemma {:induction false} ProgressStep(t: Timing, s: State, a: Action, me: string)
    requires FirstInLine(s, me) && me in Step(t, s, a).nodes && Progress(s.nodes[me]) > 0
    ensures var p, p' := Progress(s.nodes[me]), Progress(Step(t, s, a).nodes[me]);
      && (p == 1 ==> p' == if a == Decide(me) then 2 else 1)
      && (p == 2 ==> p' == if a.TakeLead? && a.id == me then 3 else 2)
      && (p == 3 ==> p' == 3)
  {
  }

  /** Whatever stage is reached, the steps that led there stand in the log. */
  ghost predicate Trail(t: Timing, log: seq<Action>, i: nat, me: string, taken: bool, p: nat,
                        j: nat, k: nat, m: nat) {
    && (p >= 1 ==> i <= j < |log| && FreeTurn(t, log, j, me))
    && (p >= 2 ==> j < k < |log| && log[k] == Decide(me))
    && (p >= 3 ==> k < m < |log| && log[m] == TakeLead(me, taken))
  }

  lemma {:induction false} LongerTrail(t: Timing, log: seq<Action>, a: Action, i: nat, me: string, taken: bool, p: nat,
                                       j: nat, k: nat, m: nat)
    requires Trail(t, log, i, me, taken, p, j, k, m)
    ensures Trail(t, log + [a], i, me, taken, p, j, k, m)
  {
    if p >= 1 {
      assert (log + [a])[..j] == log[..j];
    }
  }

  lemma {:induction false} TrailOf(t: Timing, log: seq<Action>, i: nat, me: string, taken: bool)
    returns (j: nat, k: nat, m: nat)
    requires FirstThroughout(t, log, i, me) && PortIs(log, i, me, taken)
    requires Progress(After(t, log[..i]).nodes[me]) == 0 && me in After(t, log).nodes
    ensures Trail(t, log, i, me, taken, Progress(After(t, log).nodes[me]), j, k, m)
  {
    j, k, m := 0, 0, 0;
    if i == |log| {
      assert log[..i] == log;
    } else {
      var before, a := log[..|log| - 1], log[|log| - 1];
      assert before + [a] == log;
      ShorterStretch(t, log, i, me);
      ShorterPort(log, i, me, taken);
      StaysUpOrHung(t, before, i, me);
      LossStep(t, After(t, before), a, me);
      j, k, m := TrailOf(t, before, i, me, taken);
      var p, p' := Progress(After(t, before).nodes[me]), Progress(After(t, log).nodes[me]);
      LongerTrail(t, before, a, i, me, taken, p, j, k, m);
      if p == 0 && p' > 0 {
        EvaluateProgress(t, before, a, me);
        j := |before|;
      } else if p > 0 {
        ProgressStep(t, After(t, before), a, me);
        if p == 1 && p' == 2 {
          k := |before|;
        } else if p == 2 && p' == 3 {
          m := |before|;
        }
      }
    }
  }

  lemma {:induction false} TrailLeadsOn(t: Timing, log: seq<Action>, i: nat, me: string, j: nat, k: nat, m: nat, p: nat)
    requires FirstThroughout(t, log, i, me) && PortIs(log, i, me, false) && HubUnspent(After(t, log[..i]).nodes[me])
    requires 1 <= p <= 3 && Trail(t, log, i, me, false, p, j, k, m)
    ensures me in After(t, log).nodes && p <= Progress(After(t, log).nodes[me])
    decreases |log|
  {
    StartSucceeds(t, log, i, me);
    var before, a := log[..|log| - 1], log[|log| - 1];
    var s := After(t, before);
    assert before + [a] == log;
    ShorterStretch(t, log, i, me);
    ShorterPort(log, i, me, false);
    StartSucceeds(t, before, i, me);
    if p == 1 && j == |before| {
      FreeTurnDecides(t, before, a, me);
    } else {
      var q := if (p == 2 && k == |before|) || (p == 3 && m == |before|) then p - 1 else p;
      assert before[..j] == log[..j];
      assert Trail(t, before, i, me, false, q, j, k, m);
      TrailLeadsOn(t, before, i, me, j, k, m, q);
      ProgressStep(t, s, a, me);
    }
  }

  lemma {:induction false} FreeTurnDecides(t: Timing, log: seq<Action>, a: Action, me: string)
    requires FreeTurn(t, log + [a], |log|, me)
    ensures me in After(t, log).nodes && me in Step(t, After(t, log), a).nodes
    ensures Progress(Step(t, After(t, log), a).nodes[me]) == 1
  {
    assert (log + [a])[..|log|] == log;
    KnownIffHaunted(t, log, me);
  }

  /**
   * With no assumption on when it is held up, nor on how much time there is: an idle process that is
   * first in line and not killed leads at the end of the stretch iff it could start a hub, and in the
   * stretch looked for a leader while nothing haunted it, decided and started the hub.
   */
  lemma {:induction false} LeadsIffTurnCompleted(t: Timing, log: seq<Action>, i: nat, me: string, taken: bool)
    requires t.Valid() && FirstThroughout(t, log, i, me) && PortIs(log, i, me, taken)
    requires Idle(After(t, log[..i]).nodes[me])
    ensures me in After(t, log).nodes && After(t, log).nodes[me].iAmLeader <==>
      && CanStart(After(t, log[..i]).nodes[me], taken)
      && exists j: nat, k: nat, m: nat :: Completed(t, log, i, me, taken, j, k, m)
  {
    if me in After(t, log).nodes {
      UnflaggedUnlessLeading(t, log, me);
      var j, k, m := TrailOf(t, log, i, me, taken);
      if After(t, log).nodes[me].iAmLeader {
        assert Completed(t, log, i, me, taken, j, k, m);
      }
    }
    if !CanStart(After(t, log[..i]).nodes[me], taken) {
      StartFails(t, log, i, me);
    } else if j: nat, k: nat, m: nat :| Completed(t, log, i, me, taken, j, k, m) {
      TrailLeadsOn(t, log, i, me, j, k, m, 3);
      UnflaggedUnlessLeading(t, log, me);
    }
  }
}
