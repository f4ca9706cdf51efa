/**
 * Timed stabilisation: once the node with the least id announces steadily and is heard often enough,
 * nobody else passes the election rule, and soon nobody else leads.
 */
module Stabilisation {
  import opened Lexicographic
  import opened Election
  import opened Cluster

  /**
   * From `since` on the least node announces at least every `gap` seconds, and every other node hears
   * at least one of any `k` consecutive announcements within `delay` of the last of them.
   */
  datatype Environment = Environment(least: string, since: real, gap: real, k: nat, delay: real) {
    predicate Valid() {
      0.0 < gap && 1 <= k && 0.0 <= delay && Window() < PEER_TIMEOUT
    }

    function Window(): real {
      Span(gap, k) + delay
    }
  }

  function Span(gap: real, k: nat): real {
    if k == 0 then 0.0 else Span(gap, k - 1) + gap
  }

  lemma {:induction false} SpanIsProduct(gap: real, k: nat)
    ensures Span(gap, k) == gap * k as real
  {
    if k > 0 {
      SpanIsProduct(gap, k - 1);
    }
  }

  ghost predicate AnnouncedIn(a: seq<Announcement>, from: real, gap: real) {
    exists i | 0 <= i < |a| :: from < a[i].at <= from + gap
  }

  ghost predicate Steady(e: Environment, s: State) {
    forall from: real | e.since <= from && from + e.gap < s.now :: AnnouncedIn(SentBy(s, e.least), from, e.gap)
  }

  ghost predicate HeardOneOf(n: Node, from: string, first: nat, k: nat) {
    exists h | 0 <= h < |n.heard| :: n.heard[h].from == from && first <= n.heard[h].index < first + k
  }

  function Later(x: real, y: real): real {
    if x <= y then y else x
  }

  /** When the assumption starts to speak about this node. */
  function HeardSince(e: Environment, n: Node): real {
    Later(e.since, n.bootedAt)
  }

  ghost predicate Reaches(e: Environment, s: State, id: string)
    requires id in s.nodes
  {
    var a := SentBy(s, e.least);
    forall first: nat |
      && 1 <= e.k && first + e.k <= |a|
      && HeardSince(e, s.nodes[id]) <= a[first].at
      && a[first + e.k - 1].at + e.delay < s.now ::
      HeardOneOf(s.nodes[id], e.least, first, e.k)
  }

  ghost predicate Kept(e: Environment, s: State) {
    Steady(e, s) && forall id | id in s.nodes && id != e.least :: Reaches(e, s, id)
  }

  /** The environment keeps its promise at every moment of the run. */
  ghost predicate KeptThroughout(e: Environment, t: Timing, log: seq<Action>) {
    e.Valid() && t.Valid() && forall i | 0 <= i <= |log| :: Kept(e, After(t, log[..i]))
  }

  lemma {:induction false} KeptBefore(e: Environment, t: Timing, log: seq<Action>)
    requires log != [] && KeptThroughout(e, t, log)
    ensures KeptThroughout(e, t, log[..|log| - 1])
  {
    var before := log[..|log| - 1];
    assert forall i | 0 <= i <= |before| :: before[..i] == log[..i];
  }

  /** Steady announcing puts k consecutive announcements into any window of k gaps. */
  lemma {:induction false} Consecutive(e: Environment, s: State, from: real, k: nat) returns (first: nat)
    requires e.Valid() && Steady(e, s) && Dated(SentBy(s, e.least), s.now)
    requires 1 <= k && e.since <= from && from + Span(e.gap, k) < s.now
    ensures var a := SentBy(s, e.least);
      first + k <= |a| && from < a[first].at && a[first + k - 1].at <= from + Span(e.gap, k)
  {
    var a := SentBy(s, e.least);
    if k == 1 {
      assert Span(e.gap, 1) == Span(e.gap, 0) + e.gap;
      assert AnnouncedIn(a, from, e.gap);
      first :| 0 <= first < |a| && from < a[first].at <= from + e.gap;
    } else {
      first := Consecutive(e, s, from, k - 1);
      var last := a[first + k - 2].at;
      assert AnnouncedIn(a, last, e.gap);
      var next :| 0 <= next < |a| && last < a[next].at <= last + e.gap;
      assert first + k - 2 < next;
    }
  }

  /** A window after it starts hearing the least node, a node does not pass the election rule. */
  lemma {:induction false} QuietAfterWindow(e: Environment, t: Timing, s: State, id: string)
    requires e.Valid() && InTime(t, s) && Kept(e, s)
    requires id in s.nodes && id != e.least && LexLe(e.least, id)
    requires HeardSince(e, s.nodes[id]) + e.Window() < s.now
    ensures !ShouldLead(id, s.nodes[id].peers, s.now)
  {
    var n := s.nodes[id];
    var a := SentBy(s, e.least);
    var spare := Later(s.now - PEER_TIMEOUT, HeardSince(e, n));
    var from := (spare + (s.now - e.Window())) / 2.0;
    assert Dated(a, s.now);
    var first := Consecutive(e, s, from, e.k);
    assert HeardOneOf(n, e.least, first, e.k);
    var h :| 0 <= h < |n.heard| && n.heard[h].from == e.least && first <= n.heard[h].index < first + e.k;
    assert HeardInTime(s, id, n.heard[h]);
    assert from < a[first].at <= a[n.heard[h].index].at <= n.heard[h].at;
    SmallerPeerForbids(id, n.peers, s.now, e.least);
  }

  /** The last time at which the node can have passed the rule. */
  function QuietFrom(e: Environment, n: Node): real {
    HeardSince(e, n) + e.Window()
  }

  ghost predicate PassedEarly(e: Environment, n: Node) {
    && (n.role.Starting? ==> n.role.passed <= QuietFrom(e, n))
    && (n.role.Leading? ==> n.role.passed <= QuietFrom(e, n))
  }

  /** Only a node that satisfies the rule now becomes, or stays, one that has passed it now. */
  lemma {:induction false} PassingStep(e: Environment, t: Timing, s: State, a: Action, id: string)
    requires id in Step(t, s, a).nodes
    requires id in s.nodes ==> PassedEarly(e, s.nodes[id])
    requires id in s.nodes && QuietFrom(e, s.nodes[id]) < s.now ==> !ShouldLead(id, s.nodes[id].peers, s.now)
    ensures PassedEarly(e, Step(t, s, a).nodes[id])
  {
  }

  lemma {:induction false} OnlyEarlyPasses(e: Environment, t: Timing, log: seq<Action>, id: string)
    requires KeptThroughout(e, t, log)
    requires id != e.least && LexLe(e.least, id)
    ensures id in After(t, log).nodes ==> PassedEarly(e, After(t, log).nodes[id])
  {
    if log != [] && id in After(t, log).nodes {
      var before := log[..|log| - 1];
      var s := After(t, before);
      KeptBefore(e, t, log);
      OnlyEarlyPasses(e, t, before, id);
      AlwaysInTime(t, before);
      assert Kept(e, s);
      if id in s.nodes && QuietFrom(e, s.nodes[id]) < s.now {
        QuietAfterWindow(e, t, s, id);
      }
      PassingStep(e, t, s, log[|log| - 1], id);
    }
  }

  /**
   * From a window after `since` (or its own start) on, no other node passes the rule; from a startup
   * and a recheck later on, no other node has its leader flag set.
   */
  lemma {:induction false} Stabilises(e: Environment, t: Timing, log: seq<Action>, id: string)
    requires KeptThroughout(e, t, log)
    requires id in After(t, log).nodes && id != e.least && LexLe(e.least, id)
    ensures var s := After(t, log); var n := s.nodes[id];
      && (QuietFrom(e, n) < s.now ==> !ShouldLead(id, n.peers, s.now))
      && (QuietFrom(e, n) + t.startup + t.recheck < s.now ==> !n.iAmLeader)
  {
    var s := After(t, log);
    assert log[..|log|] == log;
    assert Kept(e, s);
    AlwaysInTime(t, log);
    OnlyEarlyPasses(e, t, log, id);
    if QuietFrom(e, s.nodes[id]) < s.now {
      QuietAfterWindow(e, t, s, id);
    }
    assert NodeInTime(t, s, id);
  }

  /** So at most one node leads, whatever happened before and whatever else the network does. */
  lemma {:induction false} AtMostOneLeader(e: Environment, t: Timing, log: seq<Action>, one: string, other: string)
    requires KeptThroughout(e, t, log)
    requires forall id | id in After(t, log).nodes ::
      && LexLe(e.least, id)
      && QuietFrom(e, After(t, log).nodes[id]) + t.startup + t.recheck < After(t, log).now
    requires one in After(t, log).nodes && After(t, log).nodes[one].iAmLeader
    requires other in After(t, log).nodes && After(t, log).nodes[other].iAmLeader
    ensures one == other == e.least
  {
    if one != e.least {
      Stabilises(e, t, log, one);
    }
    if other != e.least {
      Stabilises(e, t, log, other);
    }
  }

  /** A node that joins later and listens long enough never leads, not even briefly. */
  lemma {:induction false} LateJoinerNeverLeads(e: Environment, t: Timing, log: seq<Action>, id: string)
    requires KeptThroughout(e, t, log) && e.Window() < LISTEN_FIRST
    requires id in After(t, log).nodes && id != e.least && LexLe(e.least, id)
    requires e.since <= After(t, log).nodes[id].bootedAt
    ensures var n := After(t, log).nodes[id]; !n.iAmLeader && !n.role.Starting?
  {
    OnlyEarlyPasses(e, t, log, id);
    AlwaysInTime(t, log);
    assert NodeInTime(t, After(t, log), id);
  }

  /** With the code's two seconds, and k announcements to lose all but one of, the bound is 2k + delay. */
  lemma {:induction false} NominalWindow(e: Environment)
    requires e.gap == 2.0
    ensures e.Window() == 2.0 * e.k as real + e.delay
  {
    SpanIsProduct(e.gap, e.k);
  }
}
