/** The colon-separated text of an announcement: what the broadcaster prints and the listener parses. */
module Announcements {
  import opened Wrappers
  import opened Election
  import opened Cluster

  function Split(s: string, separator: char): (parts: seq<string>)
    ensures |parts| >= 1
    ensures forall p | p in parts :: separator !in p
  {
    if s == [] then [[]] else
      var rest := Split(s[1..], separator);
      if s[0] == separator then [[]] + rest else [[s[0]] + rest[0]] + rest[1..]
  }

  function Join(parts: seq<string>, separator: char): string
    requires parts != []
  {
    if |parts| == 1 then parts[0] else parts[0] + [separator] + Join(parts[1..], separator)
  }

  lemma {:induction false} SplitFirst(head: string, tail: string, separator: char)
    requires separator !in head
    ensures Split(head + [separator] + tail, separator) == [head] + Split(tail, separator)
  {
    var s := head + [separator] + tail;
    if head == [] {
      assert s[1..] == tail;
    } else {
      SplitFirst(head[1..], tail, separator);
      assert s[1..] == head[1..] + [separator] + tail;
      assert head == [head[0]] + head[1..];
    }
  }

  lemma {:induction false} SplitWhole(s: string, separator: char)
    requires separator !in s
    ensures Split(s, separator) == [s]
  {
    if s != [] {
      SplitWhole(s[1..], separator);
      assert s == [s[0]] + s[1..];
    }
  }

  /** Splitting undoes joining, for any parts free of the separator. */
  lemma {:induction false} SplitAfterJoin(parts: seq<string>, separator: char)
    requires parts != [] && forall p | p in parts :: separator !in p
    ensures Split(Join(parts, separator), separator) == parts
  {
    if |parts| == 1 {
      SplitWhole(parts[0], separator);
    } else {
      SplitAfterJoin(parts[1..], separator);
      SplitFirst(parts[0], Join(parts[1..], separator), separator);
    }
  }

  /** And joining undoes splitting, so the parts of a text are determined. */
  lemma {:induction false} JoinAfterSplit(s: string, separator: char)
    ensures Join(Split(s, separator), separator) == s
  {
    if s != [] {
      var rest := Split(s[1..], separator);
      JoinAfterSplit(s[1..], separator);
      if s[0] == separator {
        assert ([[]] + rest)[1..] == rest;
      } else {
        assert Split(s, separator)[1..] == rest[1..];
      }
    }
  }

  /** The code points with the Unicode property White_Space. */
  predicate IsWhite(c: char) {
    || '\t' <= c <= '\r' || c == ' ' || c == '\U{0085}' || c == '\U{00A0}' || c == '\U{1680}'
    || '\U{2000}' <= c <= '\U{200A}' || c == '\U{2028}' || c == '\U{2029}' || c == '\U{202F}'
    || c == '\U{205F}' || c == '\U{3000}'
  }

  function TrimStart(s: string): string {
    if s != [] && IsWhite(s[0]) then TrimStart(s[1..]) else s
  }

  function TrimEnd(s: string): (t: string)
    ensures t <= s
    ensures t == s <==> s == [] || !IsWhite(s[|s| - 1])
  {
    if s != [] && IsWhite(s[|s| - 1]) then TrimEnd(s[..|s| - 1]) else s
  }

  function Trim(s: string): string {
    TrimEnd(TrimStart(s))
  }

  lemma {:induction false} TrimEndOnlyWhite(s: string)
    ensures forall i | |TrimEnd(s)| <= i < |s| :: IsWhite(s[i])
    ensures TrimEnd(s) == [] || !IsWhite(TrimEnd(s)[|TrimEnd(s)| - 1])
  {
    if s != [] && IsWhite(s[|s| - 1]) {
      var shorter := s[..|s| - 1];
      TrimEndOnlyWhite(shorter);
      assert TrimEnd(s) == TrimEnd(shorter);
      assert forall i | 0 <= i < |shorter| :: s[i] == shorter[i];
    } else {
      assert TrimEnd(s) == s;
    }
  }

  lemma {:induction false} TrimStartOnlyWhite(s: string) returns (n: nat)
    ensures n <= |s| && TrimStart(s) == s[n..] && forall i | 0 <= i < n :: IsWhite(s[i])
    ensures TrimStart(s) == [] || !IsWhite(TrimStart(s)[0])
  {
    n := 0;
    if s != [] && IsWhite(s[0]) {
      var rest := s[1..];
      n := TrimStartOnlyWhite(rest);
      assert TrimStart(s) == TrimStart(rest) && rest[n..] == s[n + 1..];
      n := n + 1;
    }
  }

  /** Trimming takes away white space on both sides, all of it and nothing else. */
  lemma {:induction false} TrimTakesWhite(s: string) returns (from: nat, to: nat)
    ensures from <= to <= |s| && Trim(s) == s[from..to]
    ensures forall i | 0 <= i < |s| && !(from <= i < to) :: IsWhite(s[i])
    ensures Trim(s) == [] || (!IsWhite(Trim(s)[0]) && !IsWhite(Trim(s)[|Trim(s)| - 1]))
  {
    from := TrimStartOnlyWhite(s);
    var rest := TrimStart(s);
    TrimEndOnlyWhite(rest);
    to := from + |TrimEnd(rest)|;
    forall i | to <= i < |s|
      ensures IsWhite(s[i])
    {
      assert s[i] == rest[i - from];
    }
  }

  lemma {:induction false} TrimEndOfLast(front: string, last: string)
    requires front != [] && !IsWhite(front[|front| - 1])
    ensures TrimEnd(front + last) == front + TrimEnd(last)
  {
    if last == [] {
      assert front + last == front;
    } else if IsWhite(last[|last| - 1]) {
      assert (front + last)[..|front + last| - 1] == front + last[..|last| - 1];
      TrimEndOfLast(front, last[..|last| - 1]);
    }
  }

  datatype Message = Ignored | PeerMessage(id: string) | LeaderMessage(id: string, base: string)

  const TAG := "SEAMLESS-SWARM"
  const PEER := "PEER"
  const LEADER := "LEADER"

  function PeerText(id: string): string {
    Join([TAG, PEER, id], ':')
  }

  function LeaderText(id: string, ip: string): string {
    Join([TAG, LEADER, id, ip], ':')
  }

  /** What is printed, in full. */
  lemma {:induction false} TextsInFull(id: string, ip: string)
    ensures PeerText(id) == "SEAMLESS-SWARM:PEER:" + id
    ensures LeaderText(id, ip) == "SEAMLESS-SWARM:LEADER:" + id + ":" + ip
  {
    assert Join([TAG, PEER, id], ':') == TAG + ":" + Join([PEER, id], ':') == TAG + ":" + (PEER + ":" + id);
    assert Join([TAG, LEADER, id, ip], ':') == TAG + ":" + Join([LEADER, id, ip], ':');
    assert Join([LEADER, id, ip], ':') == LEADER + ":" + Join([id, ip], ':') == LEADER + ":" + (id + ":" + ip);
  }

  function Interpreted(parts: seq<string>): Message {
    if |parts| < 3 || parts[0] != TAG then Ignored
    else if parts[1] == PEER then PeerMessage(parts[2])
    else if parts[1] == LEADER && |parts| >= 4 then LeaderMessage(parts[2], parts[3])
    else Ignored
  }

  function Parsed(text: string): Message {
    Interpreted(Split(Trim(text), ':'))
  }

  /** Only the last part can lose its trailing white space. */
  function LastTrimmed(parts: seq<string>): seq<string>
    requires parts != []
  {
    parts[|parts| - 1 := TrimEnd(parts[|parts| - 1])]
  }

  lemma {:induction false} TrimEndOfJoin(parts: seq<string>)
    requires parts != []
    ensures TrimEnd(Join(parts, ':')) == Join(LastTrimmed(parts), ':')
  {
    if |parts| > 1 {
      TrimEndOfJoin(parts[1..]);
      TrimEndOfLast(parts[0] + [':'], Join(parts[1..], ':'));
      assert LastTrimmed(parts)[1..] == LastTrimmed(parts[1..]);
    }
  }

  lemma {:induction false} LastTrimmedFree(parts: seq<string>, c: char)
    requires parts != [] && forall p | p in parts :: c !in p
    ensures forall p | p in LastTrimmed(parts) :: c !in p
  {
    var n := |parts| - 1;
    assert TrimEnd(parts[n]) <= parts[n] && c !in parts[n];
    forall i | 0 <= i < |parts|
      ensures c !in LastTrimmed(parts)[i]
    {
      if i < n {
        assert LastTrimmed(parts)[i] == parts[i];
      }
    }
  }

  /** Joined parts arrive as they were, but for white space at the very end. */
  lemma {:induction false} JoinedPartsArrive(parts: seq<string>)
    requires |parts| >= 2 && parts[0] != [] && !IsWhite(parts[0][0])
    requires forall p | p in parts :: ':' !in p
    ensures Split(Trim(Join(parts, ':')), ':') == LastTrimmed(parts)
  {
    assert Join(parts, ':')[0] == parts[0][0];
    TrimEndOfJoin(parts);
    LastTrimmedFree(parts, ':');
    SplitAfterJoin(LastTrimmed(parts), ':');
  }

  lemma {:induction false} ThreeArrive(tag: string, kind: string, id: string)
    requires tag != [] && !IsWhite(tag[0]) && ':' !in tag && ':' !in kind && ':' !in id
    ensures Split(Trim(Join([tag, kind, id], ':')), ':') == [tag, kind, TrimEnd(id)]
  {
    JoinedPartsArrive([tag, kind, id]);
  }

  lemma {:induction false} FourArrive(tag: string, kind: string, id: string, ip: string)
    requires tag != [] && !IsWhite(tag[0]) && ':' !in tag && ':' !in kind && ':' !in id && ':' !in ip
    ensures Split(Trim(Join([tag, kind, id, ip], ':')), ':') == [tag, kind, id, TrimEnd(ip)]
  {
    JoinedPartsArrive([tag, kind, id, ip]);
  }

  lemma {:induction false} TagFacts()
    ensures TAG != [] && !IsWhite(TAG[0]) && ':' !in TAG && ':' !in PEER && ':' !in LEADER
  {
  }

  lemma {:induction false} LeaderInterpreted(id: string, base: string)
    ensures Interpreted([TAG, LEADER, id, base]) == LeaderMessage(id, base)
  {
  }

  lemma {:induction false} PeerTextParses(id: string)
    requires ':' !in id
    ensures Parsed(PeerText(id)) == PeerMessage(TrimEnd(id))
  {
    TagFacts();
    ThreeArrive(TAG, PEER, id);
  }

  lemma {:induction false} LeaderTextParses(id: string, ip: string)
    requires ':' !in id && ':' !in ip
    ensures Parsed(LeaderText(id, ip)) == LeaderMessage(id, TrimEnd(ip))
  {
    TagFacts();
    FourArrive(TAG, LEADER, id, ip);
    LeaderInterpreted(id, TrimEnd(ip));
  }

  predicate NoTrailingWhite(s: string) {
    s == [] || !IsWhite(s[|s| - 1])
  }

  /** A PEER announcement arrives as meant exactly when the id has no colon and no trailing white space. */
  lemma {:induction false} PeerRoundTrip(id: string)
    ensures Parsed(PeerText(id)) == PeerMessage(id) <==> ':' !in id && NoTrailingWhite(id)
  {
    if ':' !in id {
      PeerTextParses(id);
    } else {
      assert forall p | p in Split(Trim(PeerText(id)), ':') :: p != id;
    }
  }

  /** A LEADER announcement likewise; an address with colons, which only another sender could announce, is cut short. */
  lemma {:induction false} LeaderRoundTrip(id: string, ip: string)
    ensures Parsed(LeaderText(id, ip)) == LeaderMessage(id, ip) <==>
      ':' !in id && ':' !in ip && NoTrailingWhite(ip)
  {
    if ':' !in id && ':' !in ip {
      LeaderTextParses(id, ip);
    } else {
      assert forall p | p in Split(Trim(LeaderText(id, ip)), ':') :: ':' !in p;
    }
  }

  /** What the listener does with a message. */
  function Applied(me: string, peers: Peers, message: Message, now: real): Peers {
    match message
    case Ignored => peers
    case PeerMessage(id) => PeerObserved(me, peers, id, now)
    case LeaderMessage(id, base) => LeaderObserved(me, peers, id, base, now)
  }

  /** The text of one half of a round. */
  function TextOf(id: string, base: Option<string>): string {
    if base.Some? then LeaderText(id, base.value) else PeerText(id)
  }

  /** Its parts have no colon, and the last no trailing white space. */
  predicate Printable(id: string, base: Option<string>) {
    ':' !in id && if base.Some? then ':' !in base.value && NoTrailingWhite(base.value) else NoTrailingWhite(id)
  }

  lemma {:induction false} TextOfParsesIff(id: string, base: Option<string>)
    ensures Printable(id, base) <==>
      Parsed(TextOf(id, base)) == if base.Some? then LeaderMessage(id, base.value) else PeerMessage(id)
  {
    if base.Some? {
      LeaderRoundTrip(id, base.value);
    } else {
      PeerRoundTrip(id);
    }
  }

  /** Receiving the text of a round has the effect the cluster model gives to hearing that round. */
  lemma {:induction false} TextIsHearing(me: string, peers: Peers, h: Hearing)
    requires Printable(h.from, h.base)
    ensures Hear(me, peers, h) == Applied(me, peers, Parsed(TextOf(h.from, h.base)), h.at)
  {
    TextOfParsesIff(h.from, h.base);
  }

  method ParseMdnsAnnouncement(text: string, election: ElectionState, now: real)
    requires election.Valid()
    modifies election`peers
    ensures election.Valid()
    ensures election.peers == Applied(election.myId, old(election.peers), Parsed(text), now)
    ensures var parts := Split(Trim(text), ':');
      if |parts| >= 3 && parts[0] == "SEAMLESS-SWARM" && parts[1] == "PEER" then
        election.peers == PeerObserved(election.myId, old(election.peers), parts[2], now)
      else if |parts| >= 4 && parts[0] == "SEAMLESS-SWARM" && parts[1] == "LEADER" then
        election.peers == LeaderObserved(election.myId, old(election.peers), parts[2], parts[3], now)
      else election.peers == old(election.peers)
  {
    var parts := Split(Trim(text), ':');
    if |parts| < 3 || parts[0] != TAG {
      return;
    }
    if parts[1] == PEER {
      election.ObservePeer(parts[2], now);
    } else if parts[1] == LEADER && |parts| >= 4 {
      election.ObserveLeader(parts[2], parts[3], now);
    }
  }
}
