/** One node's view of its peers, and the election rule. Times are seconds. */
module Election {
  import opened Wrappers
  import opened Lexicographic

  datatype PeerInfo = PeerInfo(lastSeen: real, isLeader: bool, leaderTcpBase: Option<string>)

  type Peers = map<string, PeerInfo>

  const PEER_TIMEOUT: real := 10.0

  predicate Fresh(p: PeerInfo, now: real) {
    now - p.lastSeen < PEER_TIMEOUT
  }

  function EntryOf(peers: Peers, id: string, now: real): PeerInfo {
    if id in peers then peers[id] else PeerInfo(now, false, None)
  }

  /** A PEER announcement renews the entry and leaves its leader flag as it was. */
  function PeerObserved(me: string, peers: Peers, id: string, now: real): Peers {
    if id == me then peers else peers[id := EntryOf(peers, id, now).(lastSeen := now)]
  }

  function LeaderObserved(me: string, peers: Peers, id: string, base: string, now: real): Peers {
    if id == me then peers else peers[id := PeerInfo(now, true, Some(base))]
  }

  function FlagsCleared(peers: Peers): Peers {
    map id | id in peers :: peers[id].(isLeader := false)
  }

  /** One of the possibly many answers of `current_leader`. */
  predicate IsCurrentLeader(peers: Peers, now: real, id: string, base: string) {
    id in peers && peers[id].isLeader && Fresh(peers[id], now) && peers[id].leaderTcpBase == Some(base)
  }

  ghost predicate NoCurrentLeader(peers: Peers, now: real) {
    forall id, base :: !IsCurrentLeader(peers, now, id, base)
  }

  predicate ShouldLead(me: string, peers: Peers, now: real) {
    forall id | id in peers && Fresh(peers[id], now) :: LexLe(me, id)
  }

  /** A fresh entry for a smaller id forbids leading. */
  lemma {:induction false} SmallerPeerForbids(me: string, peers: Peers, now: real, smaller: string)
    requires smaller in peers && Fresh(peers[smaller], now)
    requires LexLe(smaller, me) && smaller != me
    ensures !ShouldLead(me, peers, now)
  {
    if LexLe(me, smaller) {
      Antisymmetric(me, smaller);
    }
  }

  ghost predicate SeesExactly(me: string, peers: Peers, now: real, ids: set<string>) {
    forall id :: id in peers && Fresh(peers[id], now) <==> id in ids && id != me
  }

  /** When every node freshly sees exactly the others, one node passes the rule: the least id. */
  lemma {:induction false} UniqueCandidate(views: map<string, Peers>, now: real) returns (least: string)
    requires views != map[]
    requires forall me | me in views :: SeesExactly(me, views[me], now, views.Keys)
    ensures least in views && forall id | id in views :: LexLe(least, id) && Precedes(least, id)
    ensures forall me | me in views :: ShouldLead(me, views[me], now) <==> me == least
  {
    assert views.Keys != {} by {
      var id :| id in views;
    }
    least := LeastExists(views.Keys);
    forall id | id in views
      ensures Precedes(least, id)
    {
      LexLeIffPrecedes(least, id);
    }
    forall me | me in views
      ensures ShouldLead(me, views[me], now) <==> me == least
    {
      if me != least {
        SmallerPeerForbids(me, views[me], now, least);
      }
    }
  }

  /** Two nodes can both pass only if the larger has no fresh entry for the smaller. */
  lemma {:induction false} TwoCandidatesMeansUnseen(small: string, large: string, peers: Peers, now: real)
    requires LexLe(small, large) && small != large
    requires ShouldLead(large, peers, now)
    ensures !(small in peers && Fresh(peers[small], now))
  {
    if small in peers && Fresh(peers[small], now) {
      SmallerPeerForbids(large, peers, now, small);
    }
  }

  class ElectionState {
    const myId: string
    var peers: Peers
    var iAmLeader: bool

    ghost predicate Valid()
      reads this
    {
      && myId !in peers
      && (forall id | id in peers && peers[id].isLeader :: peers[id].leaderTcpBase.Some?)
    }

    constructor (myId: string)
      ensures Valid() && this.myId == myId && peers == map[] && !iAmLeader
    {
      this.myId := myId;
      peers := map[];
      iAmLeader := false;
    }

    method ObservePeer(nodeId: string, now: real)
      requires Valid()
      modifies `peers
      ensures Valid()
      ensures peers == PeerObserved(myId, old(peers), nodeId, now)
      ensures nodeId == myId ==> peers == old(peers)
      ensures nodeId != myId ==>
        var was := if nodeId in old(peers) then old(peers)[nodeId] else PeerInfo(now, false, None);
        peers == old(peers)[nodeId := was.(lastSeen := now)]
    {
      if nodeId == myId {
        return;
      }
      if nodeId !in peers {
        peers := peers[nodeId := PeerInfo(now, false, None)];
      }
      peers := peers[nodeId := peers[nodeId].(lastSeen := now)];
    }

    method ObserveLeader(nodeId: string, leaderTcpBase: string, now: real)
      requires Valid()
      modifies `peers
      ensures Valid()
      ensures peers == LeaderObserved(myId, old(peers), nodeId, leaderTcpBase, now)
      ensures nodeId == myId ==> peers == old(peers)
      ensures nodeId != myId ==> peers == old(peers)[nodeId := PeerInfo(now, true, Some(leaderTcpBase))]
    {
      if nodeId == myId {
        return;
      }
      if nodeId !in peers {
        peers := peers[nodeId := PeerInfo(now, false, None)];
      }
      peers := peers[nodeId := peers[nodeId].(lastSeen := now)];
      peers := peers[nodeId := peers[nodeId].(isLeader := true)];
      peers := peers[nodeId := peers[nodeId].(leaderTcpBase := Some(leaderTcpBase))];
    }

    method ClearLeaderFlags()
      requires Valid()
      modifies `peers
      ensures Valid()
      ensures peers == FlagsCleared(old(peers))
      ensures peers.Keys == old(peers).Keys
      ensures forall id | id in peers ::
        && !peers[id].isLeader
        && peers[id].lastSeen == old(peers)[id].lastSeen && peers[id].leaderTcpBase == old(peers)[id].leaderTcpBase
    {
      ghost var before := peers;
      var unvisited := peers.Keys;
      while unvisited != {}
        invariant unvisited <= peers.Keys == before.Keys
        invariant forall id | id in before ::
          peers[id] == if id in unvisited then before[id] else before[id].(isLeader := false)
      {
        var id :| id in unvisited;
        unvisited := unvisited - {id};
        peers := peers[id := peers[id].(isLeader := false)];
      }
    }

    /** The first match of a hash map walk: any match there is. */
    method CurrentLeader(now: real) returns (leader: Option<(string, string)>)
      requires Valid()
      ensures leader.Some? ==> IsCurrentLeader(peers, now, leader.value.0, leader.value.1)
      ensures leader.None? ==> NoCurrentLeader(peers, now)
      ensures leader.Some? ==>
        var (id, base) := leader.value;
        id in peers && peers[id].isLeader && now - peers[id].lastSeen < 10.0 && peers[id].leaderTcpBase == Some(base)
      ensures leader.None? ==> forall id | id in peers ::
        !(peers[id].isLeader && now - peers[id].lastSeen < 10.0 && peers[id].leaderTcpBase.Some?)
    {
      leader := None;
      var unvisited := peers.Keys;
      while unvisited != {} && leader.None?
        invariant unvisited <= peers.Keys
        invariant leader.Some? ==> IsCurrentLeader(peers, now, leader.value.0, leader.value.1)
        invariant leader.None? ==> forall id, base | IsCurrentLeader(peers, now, id, base) :: id in unvisited
      {
        var id :| id in unvisited;
        unvisited := unvisited - {id};
        if peers[id].isLeader && Fresh(peers[id], now) && peers[id].leaderTcpBase.Some? {
          leader := Some((id, peers[id].leaderTcpBase.value));
        }
      }
      forall id | leader.None? && id in peers && peers[id].leaderTcpBase.Some?
        ensures !(peers[id].isLeader && now - peers[id].lastSeen < 10.0)
      {
        assert !IsCurrentLeader(peers, now, id, peers[id].leaderTcpBase.value);
      }
    }

    method IShouldBeLeader(now: real) returns (should: bool)
      requires Valid()
      ensures should <==> ShouldLead(myId, peers, now)
      ensures should <==> forall id | id in peers && now - peers[id].lastSeen < 10.0 :: Precedes(myId, id)
    {
      forall id | id in peers
        ensures LexLe(myId, id) <==> Precedes(myId, id)
      {
        LexLeIffPrecedes(myId, id);
      }
      should := forall id | id in peers && Fresh(peers[id], now) :: LexLe(myId, id);
    }

    method SetIAmLeader(isLeader: bool)
      requires Valid()
      modifies `iAmLeader
      ensures Valid() && iAmLeader == isLeader
    {
      iAmLeader := isLeader;
    }

    method LivePeerCount(now: real) returns (count: nat)
      ensures count == |set id | id in peers && now - peers[id].lastSeen < 10.0|
    {
      count := 0;
      var unvisited := peers.Keys;
      ghost var counted: set<string> := {};
      while unvisited != {}
        invariant unvisited <= peers.Keys
        invariant counted == (set id | id in peers && id !in unvisited && Fresh(peers[id], now))
        invariant count == |counted|
      {
        var id :| id in unvisited;
        unvisited := unvisited - {id};
        if Fresh(peers[id], now) {
          counted := counted + {id};
          count := count + 1;
        }
      }
      assert counted == set id | id in peers && now - peers[id].lastSeen < 10.0;
    }
  }
}
