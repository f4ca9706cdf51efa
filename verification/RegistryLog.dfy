/** What the registry holds, read off the list of events that reached it. */
module RegistryLog {
  import opened Registry

  datatype Event =
    | Registered(profile: NodeProfile)
    | Unregistered(nodeId: string)
    | Swept(at: nat)

  function Replay(log: seq<Event>, threshold: nat): Nodes {
    if log == [] then map[] else
      var before := Replay(log[..|log| - 1], threshold);
      match log[|log| - 1]
      case Registered(profile) => before[profile.nodeId := profile]
      case Unregistered(nodeId) => before - {nodeId}
      case Swept(at) => Evicted(before, at, threshold)
  }

  predicate Touches(e: Event, nodeId: string) {
    match e
    case Registered(profile) => profile.nodeId == nodeId
    case Unregistered(id) => id == nodeId
    case Swept(_) => false
  }

  /** Event `i` registered `nodeId`, and nothing has registered or unregistered it since. */
  ghost predicate LastRegistration(log: seq<Event>, nodeId: string, i: nat) {
    && i < |log| && log[i].Registered? && Touches(log[i], nodeId)
    && (forall j | i < j < |log| :: !Touches(log[j], nodeId))
  }

  ghost predicate SparedByAll(log: seq<Event>, threshold: nat, i: nat)
    requires i < |log| && log[i].Registered?
  {
    forall j | i < j < |log| && log[j].Swept? :: Survives(log[i].profile, log[j].at, threshold)
  }

  ghost predicate PresentSince(log: seq<Event>, threshold: nat, nodeId: string, i: nat) {
    LastRegistration(log, nodeId, i) && SparedByAll(log, threshold, i)
  }

  /** No assumption on the clock: present exactly when registered last and spared by every sweep since. */
  lemma {:induction false} PresentIffSpared(log: seq<Event>, threshold: nat, nodeId: string)
    ensures nodeId in Replay(log, threshold) <==> exists i: nat :: PresentSince(log, threshold, nodeId, i)
    ensures forall i: nat | PresentSince(log, threshold, nodeId, i) ::
      nodeId in Replay(log, threshold) && Replay(log, threshold)[nodeId] == log[i].profile
  {
    if log != [] {
      var n := |log| - 1;
      var before, e := log[..n], log[n];
      PresentIffSpared(before, threshold, nodeId);
      if Touches(e, nodeId) {
        assert e.Registered? ==> PresentSince(log, threshold, nodeId, n);
      } else {
        forall i: nat | i < n
          ensures PresentSince(log, threshold, nodeId, i) <==>
            PresentSince(before, threshold, nodeId, i) &&
            (e.Swept? ==> Survives(log[i].profile, e.at, threshold))
        {
          assert forall j: nat | j < n :: log[j] == before[j];
        }
      }
    }
  }

  ghost predicate Timed(e: Event) {
    !e.Unregistered?
  }

  function Time(e: Event): nat
    requires Timed(e)
  {
    if e.Swept? then e.at else e.profile.lastSeen
  }

  /** Registrations are stamped with the current time, and the clock never runs backwards. */
  ghost predicate ClockMonotone(log: seq<Event>) {
    forall i, j | 0 <= i < j < |log| && Timed(log[i]) && Timed(log[j]) :: Time(log[i]) <= Time(log[j])
  }

  ghost predicate LastSweep(log: seq<Event>, j: nat) {
    j < |log| && log[j].Swept? && (forall l | j < l < |log| :: !log[l].Swept?)
  }

  /** If a sweep came after event `i`, the last one came less than `threshold` later. */
  ghost predicate SparedByLast(log: seq<Event>, threshold: nat, i: nat)
    requires i < |log| && log[i].Registered?
  {
    forall j | i < j && LastSweep(log, j) :: log[j].at - log[i].profile.lastSeen < threshold
  }

  lemma {:induction false} ALaterSweepIsLast(log: seq<Event>, j: nat) returns (last: nat)
    requires j < |log| && log[j].Swept?
    ensures j <= last && LastSweep(log, last)
    decreases |log| - j
  {
    last := j;
    if l :| j < l < |log| && log[l].Swept? {
      last := ALaterSweepIsLast(log, l);
    }
  }

  /** Under a monotone clock only the last sweep matters. */
  lemma {:induction false} PresentIffLastSweepSpares(log: seq<Event>, threshold: nat, nodeId: string)
    requires ClockMonotone(log)
    ensures nodeId in Replay(log, threshold) <==>
      exists i: nat :: LastRegistration(log, nodeId, i) && SparedByLast(log, threshold, i)
  {
    PresentIffSpared(log, threshold, nodeId);
    forall i: nat | LastRegistration(log, nodeId, i)
      ensures SparedByAll(log, threshold, i) <==> SparedByLast(log, threshold, i)
    {
      forall j | i < j < |log| && log[j].Swept? && SparedByLast(log, threshold, i)
        ensures Survives(log[i].profile, log[j].at, threshold)
      {
        var last := ALaterSweepIsLast(log, j);
        assert log[j].at <= log[last].at;
      }
      forall j | i < j && LastSweep(log, j) && SparedByAll(log, threshold, i)
        ensures log[j].at - log[i].profile.lastSeen < threshold
      {
        assert Time(log[i]) <= Time(log[j]);
      }
    }
    if nodeId in Replay(log, threshold) {
      var i: nat :| PresentSince(log, threshold, nodeId, i);
      assert SparedByLast(log, threshold, i);
    } else if i: nat :| LastRegistration(log, nodeId, i) && SparedByLast(log, threshold, i) {
      assert PresentSince(log, threshold, nodeId, i);
      assert false;
    }
  }
}
