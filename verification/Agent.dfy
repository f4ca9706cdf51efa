/** The role loop of one node, over its election state; each step does what the cluster model says. */
module Agent {
  import opened Wrappers
  import opened Lexicographic
  import opened Election
  import opened Cluster
  import opened Announcements
  import opened Provenance

  /** What hearing a message comes to. */
  function HearingIn(message: Message, index: nat, now: real): Hearing
    requires !message.Ignored?
  {
    Hearing(message.id, index, if message.LeaderMessage? then Some(message.base) else None, now)
  }

  function Listened(me: string, n: Node, message: Message, index: nat, now: real): Node {
    if message.Ignored? then n else Heard(me, n, HearingIn(message, index, now))
  }

  /** What a node prints is heard as what it meant, if its parts have no colon and the last no trailing white space. */
  lemma {:induction false} PrintedIsHeard(me: string, n: Node, h: Hearing)
    requires Printable(h.from, h.base)
    ensures Listened(me, n, Parsed(TextOf(h.from, h.base)), h.index, h.at) == Heard(me, n, h)
  {
    TextOfParsesIff(h.from, h.base);
  }

  class NodeAgent {
    const election: ElectionState
    var role: Role
    // Whether this process has bound the hub's ports; nothing it does frees them.
    var hub: bool
    // History: how much has been heard, and how much of it before the flags were last cleared.
    ghost var heard: seq<Hearing>
    ghost var cleared: nat
    ghost const bootedAt: real

    ghost predicate Valid()
      reads this, election
    {
      election.Valid() && cleared <= |heard|
    }

    ghost function View(): Node
      reads this, election
    {
      Node(election.peers, election.iAmLeader, role, heard, cleared, bootedAt, hub)
    }

    constructor (myId: string, now: real)
      ensures Valid() && fresh(election) && election.myId == myId && View() == Booted(now)
      ensures election.peers == map[] && !election.iAmLeader && role == Resting(now + 5.0) && !hub
    {
      election := new ElectionState(myId);
      role := Resting(now + LISTEN_FIRST);
      hub := false;
      heard, cleared, bootedAt := [], 0, now;
    }

    /** One round of the broadcaster: a PEER text, then a LEADER text if the flag is set. */
    method Announce(address: string) returns (texts: seq<string>)
      requires Valid()
      ensures texts == [PeerText(election.myId)] +
        if View().iAmLeader then [LeaderText(election.myId, address)] else []
      ensures texts == ["SEAMLESS-SWARM:PEER:" + election.myId] +
        if election.iAmLeader then ["SEAMLESS-SWARM:LEADER:" + election.myId + ":" + address] else []
    {
      TextsInFull(election.myId, address);
      texts := [PeerText(election.myId)];
      if election.iAmLeader {
        texts := texts + [LeaderText(election.myId, address)];
      }
    }

    /** Any text is heard as the message it stands for, or not at all; `index` is the round it came from. */
    method Listen(text: string, now: real, ghost index: nat)
      requires Valid()
      modifies this, election`peers
      ensures Valid()
      ensures View() == Listened(election.myId, old(View()), Parsed(text), index, now)
    {
      ParseMdnsAnnouncement(text, election, now);
      if !Parsed(text).Ignored? {
        heard := heard + [HearingIn(Parsed(text), index, now)];
      }
    }

    /** The first read at the top of the loop. */
    method FindLeader(now: real) returns (leader: Option<(string, string)>)
      requires Valid()
      modifies `role
      ensures Valid() && Answers(old(View()), now, leader) && View() == Evaluated(old(View()), now, leader)
      ensures leader.Some? ==>
        var (id, base) := leader.value;
        && id in election.peers && election.peers[id].isLeader && now - election.peers[id].lastSeen < 10.0
        && election.peers[id].leaderTcpBase == Some(base) && role == Connecting(id, base)
      ensures leader.None? ==> role == Deciding(now) && forall id | id in election.peers ::
        var p := election.peers[id]; !(p.isLeader && now - p.lastSeen < 10.0 && p.leaderTcpBase.Some?)
    {
      leader := election.CurrentLeader(now);
      role := if leader.Some? then Connecting(leader.value.0, leader.value.1) else Deciding(now);
    }

    /** The second read, when the first found no leader. */
    method Decide(now: real)
      requires Valid()
      modifies `role
      ensures Valid() && View() == Decided(election.myId, old(View()), now)
      ensures role ==
        if forall id | id in election.peers && now - election.peers[id].lastSeen < 10.0 :: Precedes(election.myId, id)
        then Starting(now) else Resting(now + 3.0)
    {
      var should := election.IShouldBeLeader(now);
      role := if should then Starting(now) else Resting(now + WAIT_FOR_LEADER);
    }

    /** The top of the loop undisturbed: follow a known leader, else lead if nobody smaller is alive, else wait. */
    method EvaluateRole(now: real, later: real) returns (leader: Option<(string, string)>)
      requires Valid() && now <= later
      modifies `role
      ensures Valid()
      ensures Answers(old(View()), now, leader)
      ensures leader.Some? ==> View() == Evaluated(old(View()), now, leader)
      ensures leader.None? ==> View() == Decided(election.myId, Evaluated(old(View()), now, leader), later)
    {
      leader := FindLeader(now);
      if leader.None? {
        Decide(later);
      }
    }

    /** The hub starts and the flag is set; or its port is not free, and the role loop ends in a panic. */
    method TakeLead(taken: bool, now: real) returns (running: bool)
      requires Valid() && role.Starting?
      modifies `role, `hub, election`iAmLeader
      ensures Valid() && running == CanStart(old(View()), taken)
      ensures View() == if running then LeadTaken(old(View()), now) else old(View())
      ensures running == (!old(hub) && !taken)
      ensures running ==> hub && election.iAmLeader && role == Leading(old(role).passed, now)
    {
      running := !hub && !taken;
      if running {
        hub := true;
        election.SetIAmLeader(true);
        role := Leading(role.passed, now);
      }
    }

    /** One turn of the leader's monitor. */
    method Recheck(now: real)
      requires Valid() && role.Leading?
      modifies `role, election`iAmLeader
      ensures Valid() && View() == Rechecked(election.myId, old(View()), now)
      ensures if forall id | id in election.peers && now - election.peers[id].lastSeen < 10.0 ::
                Precedes(election.myId, id)
              then role == Leading(now, now) && election.iAmLeader == old(election.iAmLeader)
              else role == Resting(now) && !election.iAmLeader
    {
      var should := election.IShouldBeLeader(now);
      if !should {
        election.SetIAmLeader(false);
        role := Resting(now);
      } else {
        role := Leading(now, now);
      }
    }

    /** The handshake loop has ended: with a connection, or in an error after the handshake. */
    method Connect(joined: bool, now: real)
      requires Valid() && role.Connecting?
      modifies this, election`peers
      ensures Valid() && View() == Connected(old(View()), now, joined)
      ensures joined ==> role == Following(old(role).leader, old(role).base, now)
      ensures joined ==> election.peers == old(election.peers) && cleared == old(cleared)
      ensures !joined ==> ClearedFlags(old(View()), View()) && role == Resting(now + 2.0)
      ensures hub == old(hub)
    {
      if joined {
        role := Following(role.leader, role.base, now);
      } else {
        Disconnect(now);
      }
    }

    /** One poll of a follower: it leaves only when no live leader is known. */
    method PollLeader(now: real) returns (stopped: bool)
      requires Valid() && role.Following?
      modifies this, election`peers
      ensures Valid()
      ensures stopped <==> NoCurrentLeader(old(election.peers), now)
      ensures View() == Polled(old(View()), now)
      ensures stopped <==> forall id | id in old(election.peers) ::
        var p := old(election.peers)[id]; !(p.isLeader && now - p.lastSeen < 10.0 && p.leaderTcpBase.Some?)
      ensures stopped ==> ClearedFlags(old(View()), View()) && role == Resting(now + 2.0)
      ensures !stopped ==> election.peers == old(election.peers) && cleared == old(cleared)
      ensures !stopped ==> role == Following(old(role).leader, old(role).base, now + 2.0)
      ensures hub == old(hub)
    {
      var leader := election.CurrentLeader(now);
      stopped := leader.None?;
      if stopped {
        Disconnect(now);
      } else {
        role := Following(role.leader, role.base, now + POLL_SLEEP);
      }
    }

    /** Back to the loop, after the leader went silent or the connection failed. */
    method Disconnect(now: real)
      requires Valid() && (role.Connecting? || role.Following?)
      modifies this, election`peers
      ensures Valid() && View() == FollowingStopped(old(View()), now)
      ensures ClearedFlags(old(View()), View()) && role == Resting(now + 2.0) && hub == old(hub)
    {
      election.ClearLeaderFlags();
      cleared := |heard|;
      role := Resting(now + AFTER_DISCONNECT);
    }
  }
}
