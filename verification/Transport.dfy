/** The heartbeat server that stamps each profile with the current time. */
module Transport {
  import opened Wrappers
  import opened Registry
  import opened RegistryLog
  import opened Frames
  import opened Tasks
  import opened Scout

  /** A decoded capability profile; how its bytes are decoded, and how numbers are printed, is left open. */
  datatype CapabilityProfile = CapabilityProfile(
    nodeId: string,
    osPlatform: string,
    capabilities: seq<DeviceCapability>)

  datatype Format = Format(decode: Bytes -> Option<CapabilityProfile>, number: ResourceValue -> string)

  const CAPABILITY_PROFILE: Byte := 4

  function Profile(p: CapabilityProfile, now: nat, format: Format): NodeProfile {
    NodeProfile(p.nodeId, p.osPlatform, Cores(p.capabilities, format.number), now, "")
  }

  /** The event a message amounts to, if any. */
  function EventOf(bytes: Bytes, now: nat, format: Format): Option<Event> {
    var frame := Decoded(bytes);
    if frame.Ok? && frame.value.0 == CAPABILITY_PROFILE && format.decode(frame.value.1).Some?
    then Some(Registered(Profile(format.decode(frame.value.1).value, now, format)))
    else None
  }

  /** `q` is `p` with every value printed, in order, and stamped. */
  ghost predicate Announces(p: CapabilityProfile, q: NodeProfile, now: nat, number: ResourceValue -> string) {
    && q.nodeId == p.nodeId && q.osPlatform == p.osPlatform && q.lastSeen == now && q.publicKey == ""
    && |q.capabilities| == |p.capabilities|
    && (forall i | 0 <= i < |p.capabilities| ::
         var c, d := q.capabilities[i], p.capabilities[i];
         && c.name == d.resourceName && c.valType == d.valueType
         && c.value == match d.resourceValue
                       case None => ""
                       case Some(BoolVal(b)) => if b then "true" else "false"
                       case Some(StringVal(s)) => s
                       case Some(v) => number(v))
  }

  method OnMessage(registry: EphemeralRegistry, bytes: Bytes, now: nat, format: Format,
                   ghost log: seq<Event>, ghost threshold: nat)
    requires registry.Valid() && registry.nodes == Replay(log, threshold)
    modifies registry
    ensures registry.Valid()
    ensures var event := EventOf(bytes, now, format);
      registry.nodes == Replay(if event.Some? then log + [event.value] else log, threshold)
    ensures match Decoded(bytes)
      case Err(_) => registry.nodes == old(registry.nodes)
      case Ok((msgType, payload)) =>
        if msgType == 4 && format.decode(payload).Some? then
          var p := format.decode(payload).value;
          && p.nodeId in registry.nodes && Announces(p, registry.nodes[p.nodeId], now, format.number)
          && registry.nodes - {p.nodeId} == old(registry.nodes) - {p.nodeId}
        else registry.nodes == old(registry.nodes)
  {
    if |bytes| < 5 {
      return;
    }
    var length := FromBigEndian(bytes[..4]);
    var msgType := bytes[4];
    if |bytes| < 5 + length {
      return;
    }
    var payload := bytes[5..5 + length];
    if msgType == CAPABILITY_PROFILE {
      var profile := format.decode(payload);
      if profile.Some? {
        var p := profile.value;
        var capabilities := [];
        for i := 0 to |p.capabilities|
          invariant capabilities == Cores(p.capabilities, format.number)[..i]
        {
          var c := p.capabilities[i];
          var value := Rendered(c.resourceValue, format.number);
          capabilities := capabilities + [Capability(c.resourceName, c.valueType, value)];
        }
        assert capabilities == Cores(p.capabilities, format.number);
        registry.RegisterNode(NodeProfile(p.nodeId, p.osPlatform, capabilities, now, ""));
        assert forall e :: (log + [e])[..|log|] == log;
      }
    }
  }

  /** A heartbeat frame, whatever follows it, registers just the profile in it. */
  lemma {:induction false} HeartbeatRegisters(payload: Bytes, tail: Bytes, p: CapabilityProfile, now: nat,
                                              format: Format)
    requires |payload| < WORD && format.decode(payload) == Some(p)
    ensures var event := EventOf(Encoded(4, payload) + tail, now, format);
      event.Some? && event.value.Registered? && Announces(p, event.value.profile, now, format.number)
  {
    RoundTripIff(4, payload, tail);
  }

  lemma {:induction false} AnnouncesRendered(p: CapabilityProfile, q: NodeProfile, now: nat,
                                             number: ResourceValue -> string, i: nat)
    requires Announces(p, q, now, number) && i < |p.capabilities|
    ensures q.capabilities[i].value == Rendered(p.capabilities[i].resourceValue, number)
  {
  }

  lemma {:induction false} ValueIsSent(p: CapabilityProfile, q: NodeProfile, now: nat,
                                       number: ResourceValue -> string, c: Capability)
    requires Announces(p, q, now, number) && c in q.capabilities
    ensures exists d | d in p.capabilities :: Rendered(d.resourceValue, number) == c.value
  {
    var i :| 0 <= i < |q.capabilities| && q.capabilities[i] == c;
    AnnouncesRendered(p, q, now, number, i);
    assert p.capabilities[i] in p.capabilities;
  }

  lemma {:induction false} SentIsValue(p: CapabilityProfile, q: NodeProfile, now: nat,
                                       number: ResourceValue -> string, d: DeviceCapability)
    requires Announces(p, q, now, number) && d in p.capabilities
    ensures exists c | c in q.capabilities :: c.value == Rendered(d.resourceValue, number)
  {
    var i :| 0 <= i < |p.capabilities| && p.capabilities[i] == d;
    AnnouncesRendered(p, q, now, number, i);
    assert q.capabilities[i] in q.capabilities;
  }

  lemma {:induction false} AnnouncedValue(p: CapabilityProfile, q: NodeProfile, now: nat,
                                          number: ResourceValue -> string, r: string)
    requires Announces(p, q, now, number)
    ensures (exists c | c in q.capabilities :: c.value == r) <==>
      exists d | d in p.capabilities :: Rendered(d.resourceValue, number) == r
  {
    if c :| c in q.capabilities && c.value == r {
      ValueIsSent(p, q, now, number, c);
    }
    if d :| d in p.capabilities && Rendered(d.resourceValue, number) == r {
      SentIsValue(p, q, now, number, d);
    }
  }

  /** So the node fits a list of requirements exactly when each is the printed value of a capability it sent. */
  lemma {:induction false} AnnouncedMatches(p: CapabilityProfile, q: NodeProfile, now: nat,
                                            number: ResourceValue -> string, required: seq<string>)
    requires Announces(p, q, now, number)
    ensures Matches(q, required) <==>
      forall r | r in required :: exists d | d in p.capabilities :: Rendered(d.resourceValue, number) == r
  {
    MatchesIff(q, required);
    forall r | r in required
      ensures (exists c | c in q.capabilities :: c.value == r) <==>
        exists d | d in p.capabilities :: Rendered(d.resourceValue, number) == r
    {
      AnnouncedValue(p, q, now, number, r);
    }
  }

  /** A node that reports what its scout found fits a list of applications exactly when it has them all. */
  lemma {:induction false} HeartbeatFitsIffInstalled(p: CapabilityProfile, q: NodeProfile, now: nat,
                                                     number: ResourceValue -> string, raw: seq<DeviceCapability>,
                                                     onMac: bool, apps: seq<string>)
    requires p.capabilities == Reported(raw, onMac) && Announces(p, q, now, number)
    requires forall cap | cap in raw :: cap.resourceValue.Some? ==> !cap.resourceValue.value.StringVal?
    requires forall v :: !EndsInExecution(number(v))
    ensures Matches(q, Requirements(apps)) <==>
      forall app | app in apps :: exists cap | cap in raw :: cap.resourceName == INSTALLED + app
  {
    assert q.capabilities == Cores(p.capabilities, number);
    MatchesIffInstalled(raw, onMac, number, q, apps);
  }

  lemma {:induction false} HeartbeatIsStamped(bytes: Bytes, now: nat, format: Format)
    ensures var event := EventOf(bytes, now, format);
      event.Some? ==> Timed(event.value) && Time(event.value) == now
  {
  }

  /** What reaches the registry: messages, sweeps and removals, each at some time. */
  datatype Input =
    | Message(at: nat, bytes: Bytes)
    | Sweep(at: nat)
    | Removal(at: nat, nodeId: string)

  function EventsOf(inputs: seq<Input>, format: Format): seq<Event> {
    if inputs == [] then [] else
      var before := EventsOf(inputs[..|inputs| - 1], format);
      match inputs[|inputs| - 1]
      case Message(at, bytes) =>
        var event := EventOf(bytes, at, format);
        if event.Some? then before + [event.value] else before
      case Sweep(at) => before + [Swept(at)]
      case Removal(_, nodeId) => before + [Unregistered(nodeId)]
  }

  ghost predicate InOrder(inputs: seq<Input>) {
    forall i, j | 0 <= i <= j < |inputs| :: inputs[i].at <= inputs[j].at
  }

  lemma {:induction false} EventsAreTimely(inputs: seq<Input>, format: Format)
    requires InOrder(inputs)
    ensures ClockMonotone(EventsOf(inputs, format))
    ensures forall e | e in EventsOf(inputs, format) && Timed(e) :: inputs != [] && Time(e) <= inputs[|inputs| - 1].at
  {
    if inputs != [] {
      var before := inputs[..|inputs| - 1];
      var input := inputs[|inputs| - 1];
      EventsAreTimely(before, format);
      if input.Message? {
        HeartbeatIsStamped(input.bytes, input.at, format);
      }
    }
  }

  /**
   * So for this server, if inputs are handled in order of time, only the last sweep after a node's
   * last heartbeat decides whether the registry still holds it.
   */
  lemma {:induction false} HeldIffLastSweepSpares(inputs: seq<Input>, format: Format,
                                                  threshold: nat, nodeId: string)
    requires InOrder(inputs)
    ensures var log := EventsOf(inputs, format);
      nodeId in Replay(log, threshold) <==>
        exists i: nat :: LastRegistration(log, nodeId, i) && SparedByLast(log, threshold, i)
  {
    EventsAreTimely(inputs, format);
    PresentIffLastSweepSpares(EventsOf(inputs, format), threshold, nodeId);
  }
}
