/**
 * N nodes, a clock, and a network that may lose, delay, repeat and reorder announcements. Nodes come
 * and go. An action whose guard fails changes nothing, so every sequence of actions is a run; the
 * clock cannot pass the moment by which a node is due to act.
 */
module Cluster {
  import opened Wrappers
  import opened Election

  const LISTEN_FIRST: real := 5.0
  const RECHECK_SLEEP: real := 3.0
  const WAIT_FOR_LEADER: real := 3.0
  const AFTER_DISCONNECT: real := 2.0
  const POLL_SLEEP: real := 2.0

  /**
   * Upper bounds on what the code only bounds from below: from the passing check until the hub is up
   * and the flag set, from one leadership check to the next, and how late any other turn of a loop is.
   */
  datatype Timing = Timing(startup: real, recheck: real, turn: real) {
    predicate Valid() {
      0.0 <= startup && RECHECK_SLEEP <= recheck && 0.0 <= turn
    }
  }

  /**
   * `Deciding` stands between the two reads of the election state at the top of the loop. `passed` is
   * when the node last satisfied the election rule, `slept` when its current sleep began, `due` when
   * a follower next polls.
   */
  datatype Role =
    | Resting(until: real)
    | Deciding(since: real)
    | Starting(passed: real)
    | Leading(passed: real, slept: real)
    | Connecting(leader: string, base: string)
    | Following(leader: string, base: string, due: real)

  /** History: one round of the broadcaster, with the address announced when leading. */
  datatype Announcement = Announcement(at: real, base: Option<string>, step: nat)

  /** History: a received half of an announcement; `base` is the address if it was the LEADER half. */
  datatype Hearing = Hearing(from: string, index: nat, base: Option<string>, at: real)

  datatype Node = Node(
    peers: Peers,
    iAmLeader: bool,
    role: Role,
    heard: seq<Hearing>,
    cleared: nat,
    bootedAt: real,
    hub: bool)

  /**
   * `hub` says that the process has started a hub: its servers run in endless loops that own it, so its
   * ports stay bound for as long as the process lives, whether it still leads or not. `hung` holds the
   * processes whose role loop is gone: they neither speak nor listen, but a hub they started lives on.
   */
  datatype State = State(
    now: real,
    nodes: map<string, Node>,
    hung: set<string>,
    sent: map<string, seq<Announcement>>,
    steps: nat)

  datatype Action =
    | Elapse(to: real)
    | Boot(id: string)
    | Crash(id: string)
    | Announce(id: string, address: string)
    | Receive(id: string, from: string, index: nat, asLeader: bool)
    | Evaluate(id: string, leader: Option<(string, string)>)
    | Decide(id: string)
    | TakeLead(id: string, taken: bool)
    | Recheck(id: string)
    | Connect(id: string, joined: bool)
    | Poll(id: string)

  const INITIAL := State(0.0, map[], {}, map[], 0)

  function SentBy(s: State, id: string): seq<Announcement> {
    if id in s.sent then s.sent[id] else []
  }

  // ----- what happens at one node -----

  function Booted(now: real): Node {
    Node(map[], false, Resting(now + LISTEN_FIRST), [], 0, now, false)
  }

  function Hear(me: string, peers: Peers, h: Hearing): Peers {
    if h.base.Some?
    then LeaderObserved(me, peers, h.from, h.base.value, h.at)
    else PeerObserved(me, peers, h.from, h.at)
  }

  function Heard(me: string, n: Node, h: Hearing): Node {
    n.(peers := Hear(me, n.peers, h), heard := n.heard + [h])
  }

  ghost predicate Answers(n: Node, now: real, leader: Option<(string, string)>) {
    if leader.Some?
    then IsCurrentLeader(n.peers, now, leader.value.0, leader.value.1)
    else NoCurrentLeader(n.peers, now)
  }

  /** The top of the role loop, given what `current_leader` answered. */
  function Evaluated(n: Node, now: real, leader: Option<(string, string)>): Node {
    n.(role := if leader.Some? then Connecting(leader.value.0, leader.value.1) else Deciding(now))
  }

  /** No leader was found: the second read settles whether to lead or to wait for one. */
  function Decided(me: string, n: Node, now: real): Node {
    n.(role := if ShouldLead(me, n.peers, now) then Starting(now) else Resting(now + WAIT_FOR_LEADER))
  }

  /** The hub's port must be free: held neither by a hub this process started nor by another process. */
  predicate CanStart(n: Node, taken: bool) {
    !n.hub && !taken
  }

  function LeadTaken(n: Node, now: real): Node
    requires n.role.Starting?
  {
    n.(iAmLeader := true, role := Leading(n.role.passed, now), hub := true)
  }

  /** The monitor stays leader or steps down and returns to the role loop. */
  function Rechecked(me: string, n: Node, now: real): Node {
    if ShouldLead(me, n.peers, now)
    then n.(role := Leading(now, now))
    else n.(iAmLeader := false, role := Resting(now))
  }

  function FollowingStopped(n: Node, now: real): Node {
    n.(peers := FlagsCleared(n.peers), cleared := |n.heard|, role := Resting(now + AFTER_DISCONNECT))
  }

  /** A handshake was answered; the node has joined, or setting up its sockets failed. */
  function Connected(n: Node, now: real, joined: bool): Node
    requires n.role.Connecting?
  {
    if joined then n.(role := Following(n.role.leader, n.role.base, now)) else FollowingStopped(n, now)
  }

  /** A follower stays for as long as any live leader is known. */
  ghost function Polled(n: Node, now: real): Node
    requires n.role.Following?
  {
    if NoCurrentLeader(n.peers, now)
    then FollowingStopped(n, now)
    else n.(role := n.role.(due := now + POLL_SLEEP))
  }

  // ----- the whole -----

  /** The handshake loop alone can last for ever. */
  predicate MayWait(t: Timing, n: Node, to: real) {
    match n.role
    case Resting(until) => to <= until + t.turn
    case Deciding(since) => to <= since + t.turn
    case Starting(passed) => to <= passed + t.startup
    case Leading(_, slept) => to <= slept + t.recheck
    case Connecting(_, _) => true
    case Following(_, _, due) => to <= due + t.turn
  }

  /** Some other process is left; only then can a handshake be answered. */
  ghost predicate Accompanied(s: State, id: string) {
    exists other :: other != id && (other in s.nodes || other in s.hung)
  }

  ghost predicate Enabled(t: Timing, s: State, a: Action) {
    match a
    case Elapse(to) => s.now <= to && forall id | id in s.nodes :: MayWait(t, s.nodes[id], to)
    case Boot(id) => id !in s.nodes && id !in s.hung
    case Crash(id) => id in s.nodes || id in s.hung
    case Announce(id, _) => id in s.nodes
    case Receive(id, from, index, asLeader) =>
      id in s.nodes && index < |SentBy(s, from)| && (asLeader ==> SentBy(s, from)[index].base.Some?)
    case Evaluate(id, leader) =>
      && id in s.nodes && s.nodes[id].role.Resting? && s.nodes[id].role.until <= s.now
      && Answers(s.nodes[id], s.now, leader)
    case Decide(id) => id in s.nodes && s.nodes[id].role.Deciding?
    case TakeLead(id, _) => id in s.nodes && s.nodes[id].role.Starting?
    case Recheck(id) =>
      id in s.nodes && s.nodes[id].role.Leading? && s.nodes[id].role.slept + RECHECK_SLEEP <= s.now
    case Connect(id, _) => id in s.nodes && s.nodes[id].role.Connecting? && Accompanied(s, id)
    case Poll(id) => id in s.nodes && s.nodes[id].role.Following? && s.nodes[id].role.due <= s.now
  }

  function HearingOf(s: State, from: string, index: nat, asLeader: bool): Hearing
    requires index < |SentBy(s, from)|
  {
    Hearing(from, index, if asLeader then SentBy(s, from)[index].base else None, s.now)
  }

  ghost function Effect(t: Timing, s: State, a: Action): State
    requires Enabled(t, s, a)
  {
    match a
    case Elapse(to) => s.(now := to)
    case Boot(id) => s.(nodes := s.nodes[id := Booted(s.now)])
    case Crash(id) => s.(nodes := s.nodes - {id}, hung := s.hung - {id})
    case Announce(id, address) =>
      var round := Announcement(s.now, if s.nodes[id].iAmLeader then Some(address) else None, s.steps);
      s.(sent := s.sent[id := SentBy(s, id) + [round]])
    case Receive(id, from, index, asLeader) =>
      s.(nodes := s.nodes[id := Heard(id, s.nodes[id], HearingOf(s, from, index, asLeader))])
    case Evaluate(id, leader) => s.(nodes := s.nodes[id := Evaluated(s.nodes[id], s.now, leader)])
    case Decide(id) => s.(nodes := s.nodes[id := Decided(id, s.nodes[id], s.now)])
    case TakeLead(id, taken) =>
      if CanStart(s.nodes[id], taken)
      then s.(nodes := s.nodes[id := LeadTaken(s.nodes[id], s.now)])
      else s.(nodes := s.nodes - {id}, hung := s.hung + {id})
    case Recheck(id) => s.(nodes := s.nodes[id := Rechecked(id, s.nodes[id], s.now)])
    case Connect(id, joined) => s.(nodes := s.nodes[id := Connected(s.nodes[id], s.now, joined)])
    case Poll(id) => s.(nodes := s.nodes[id := Polled(s.nodes[id], s.now)])
  }

  ghost function Step(t: Timing, s: State, a: Action): State {
    (if Enabled(t, s, a) then Effect(t, s, a) else s).(steps := s.steps + 1)
  }

  ghost function After(t: Timing, log: seq<Action>): State {
    if log == [] then INITIAL else Step(t, After(t, log[..|log| - 1]), log[|log| - 1])
  }

  lemma {:induction false} OneMore(t: Timing, log: seq<Action>, a: Action)
    ensures After(t, log + [a]) == Step(t, After(t, log), a)
    ensures |(log + [a])| == |log| + 1 && (log + [a])[|log|] == a
  {
  }

  // ----- what every run keeps -----

  /** Announcements are dated in order, up to now. */
  ghost predicate Dated(a: seq<Announcement>, now: real) {
    forall i, j | 0 <= i <= j < |a| :: a[i].at <= a[j].at <= now
  }

  ghost predicate RoleInTime(t: Timing, n: Node, now: real) {
    && n.bootedAt <= now
    && (n.iAmLeader <==> n.role.Leading?) && (n.iAmLeader ==> n.hub)
    && match n.role
       case Resting(until) => n.bootedAt + LISTEN_FIRST <= until <= now + LISTEN_FIRST && now <= until + t.turn
       case Deciding(since) => n.bootedAt + LISTEN_FIRST <= since <= now <= since + t.turn
       case Starting(passed) => n.bootedAt + LISTEN_FIRST <= passed <= now <= passed + t.startup
       case Leading(passed, slept) =>
         n.bootedAt + LISTEN_FIRST <= passed <= slept <= now <= slept + t.recheck && slept <= passed + t.startup
       case Connecting(_, _) => n.bootedAt + LISTEN_FIRST <= now
       case Following(_, _, due) => n.bootedAt + LISTEN_FIRST <= now <= due + t.turn && due <= now + POLL_SLEEP
  }

  /** Nothing is heard before it is said; an entry is at least as recent as anything heard from that peer. */
  ghost predicate HeardInTime(s: State, id: string, h: Hearing)
    requires id in s.nodes
  {
    && h.index < |SentBy(s, h.from)|
    && SentBy(s, h.from)[h.index].at <= h.at <= s.now
    && (h.base.Some? ==> SentBy(s, h.from)[h.index].base == h.base)
    && (h.from != id ==> h.from in s.nodes[id].peers && h.at <= s.nodes[id].peers[h.from].lastSeen)
  }

  ghost predicate NodeInTime(t: Timing, s: State, id: string)
    requires id in s.nodes
  {
    && RoleInTime(t, s.nodes[id], s.now)
    && (forall i | 0 <= i < |s.nodes[id].heard| :: HeardInTime(s, id, s.nodes[id].heard[i]))
  }

  ghost predicate InTime(t: Timing, s: State) {
    && (forall id :: Dated(SentBy(s, id), s.now))
    && (forall id | id in s.nodes :: NodeInTime(t, s, id))
  }

  lemma {:induction false} SentGrows(t: Timing, s: State, a: Action, id: string)
    ensures SentBy(s, id) <= SentBy(Step(t, s, a), id)
  {
  }

  lemma {:induction false} WaitingStaysInTime(t: Timing, n: Node, now: real, to: real)
    requires RoleInTime(t, n, now) && now <= to && MayWait(t, n, to)
    ensures RoleInTime(t, n, to)
  {
  }

  lemma {:induction false} LoopStaysInTime(t: Timing, me: string, n: Node, now: real, leader: Option<(string, string)>)
    requires t.Valid() && RoleInTime(t, n, now)
    ensures n.role.Resting? && n.role.until <= now ==> RoleInTime(t, Evaluated(n, now, leader), now)
    ensures n.role.Deciding? ==> RoleInTime(t, Decided(me, n, now), now)
  {
  }

  lemma {:induction false} LeadStaysInTime(t: Timing, me: string, n: Node, now: real)
    requires t.Valid() && RoleInTime(t, n, now)
    ensures n.role.Starting? ==> RoleInTime(t, LeadTaken(n, now), now)
    ensures n.role.Leading? ==> RoleInTime(t, Rechecked(me, n, now), now)
  {
  }

  lemma {:induction false} FollowerStaysInTime(t: Timing, n: Node, now: real, joined: bool)
    requires t.Valid() && RoleInTime(t, n, now)
    ensures n.role.Connecting? ==> RoleInTime(t, Connected(n, now, joined), now)
    ensures n.role.Following? ==> RoleInTime(t, Polled(n, now), now)
  {
  }

  /** A step of the role loop of that node. */
  predicate Turns(a: Action, id: string) {
    (a.Evaluate? || a.Decide? || a.TakeLead? || a.Recheck? || a.Connect? || a.Poll?) && a.id == id
  }

  /** Nothing else touches the role of a node, or what goes with it. */
  lemma {:induction false} OthersKeepRole(t: Timing, s: State, a: Action, id: string)
    requires id in s.nodes && id in Step(t, s, a).nodes && !Turns(a, id)
    ensures var n, n' := s.nodes[id], Step(t, s, a).nodes[id];
      n'.role == n.role && n'.iAmLeader == n.iAmLeader && n'.hub == n.hub && n'.bootedAt == n.bootedAt
  {
  }

  lemma {:induction false} TurnStaysInTime(t: Timing, s: State, a: Action, id: string)
    requires t.Valid() && id in s.nodes && RoleInTime(t, s.nodes[id], s.now) && id in Step(t, s, a).nodes
    requires Turns(a, id) && Enabled(t, s, a)
    ensures RoleInTime(t, Step(t, s, a).nodes[id], s.now)
  {
    var n := s.nodes[id];
    match a
    case Evaluate(_, leader) => LoopStaysInTime(t, id, n, s.now, leader);
    case Decide(_) => LoopStaysInTime(t, id, n, s.now, None);
    case TakeLead(_, _) => LeadStaysInTime(t, id, n, s.now);
    case Recheck(_) => LeadStaysInTime(t, id, n, s.now);
    case Connect(_, joined) => FollowerStaysInTime(t, n, s.now, joined);
    case Poll(_) => FollowerStaysInTime(t, n, s.now, false);
  }

  lemma {:induction false} RoleStaysInTime(t: Timing, s: State, a: Action, id: string)
    requires t.Valid() && InTime(t, s) && id in Step(t, s, a).nodes
    ensures RoleInTime(t, Step(t, s, a).nodes[id], Step(t, s, a).now)
  {
    if id in s.nodes && Enabled(t, s, a) {
      assert NodeInTime(t, s, id);
      if a.Elapse? {
        WaitingStaysInTime(t, s.nodes[id], s.now, a.to);
      } else if Turns(a, id) {
        TurnStaysInTime(t, s, a, id);
      } else {
        OthersKeepRole(t, s, a, id);
      }
    }
  }

  lemma {:induction false} HearingStaysInTime(t: Timing, s: State, a: Action, id: string, h: Hearing)
    requires InTime(t, s) && id in s.nodes && id in Step(t, s, a).nodes
    requires HeardInTime(s, id, h)
    requires s.nodes[id].heard <= Step(t, s, a).nodes[id].heard
    ensures HeardInTime(Step(t, s, a), id, h)
  {
  }

  lemma {:induction false} NodeStaysInTime(t: Timing, s: State, a: Action, id: string)
    requires t.Valid() && InTime(t, s) && id in Step(t, s, a).nodes
    ensures NodeInTime(t, Step(t, s, a), id)
  {
    var s' := Step(t, s, a);
    RoleStaysInTime(t, s, a, id);
    if id in s.nodes {
      assert NodeInTime(t, s, id);
      forall i | 0 <= i < |s'.nodes[id].heard|
        ensures HeardInTime(s', id, s'.nodes[id].heard[i])
      {
        if i < |s.nodes[id].heard| {
          HearingStaysInTime(t, s, a, id, s.nodes[id].heard[i]);
        }
      }
    }
  }

  lemma {:induction false} SentStaysDated(t: Timing, s: State, a: Action, id: string)
    requires Dated(SentBy(s, id), s.now)
    ensures Dated(SentBy(Step(t, s, a), id), Step(t, s, a).now)
  {
  }

  lemma {:induction false} StaysInTime(t: Timing, s: State, a: Action)
    requires t.Valid() && InTime(t, s)
    ensures InTime(t, Step(t, s, a))
  {
    forall id
      ensures Dated(SentBy(Step(t, s, a), id), Step(t, s, a).now)
    {
      SentStaysDated(t, s, a, id);
    }
    forall id | id in Step(t, s, a).nodes
      ensures NodeInTime(t, Step(t, s, a), id)
    {
      NodeStaysInTime(t, s, a, id);
    }
  }

  lemma {:induction false} AlwaysInTime(t: Timing, log: seq<Action>)
    requires t.Valid()
    ensures InTime(t, After(t, log))
  {
    if log != [] {
      AlwaysInTime(t, log[..|log| - 1]);
      StaysInTime(t, After(t, log[..|log| - 1]), log[|log| - 1]);
    }
  }
}
