/**
 * The assumption of the stabilisation theorem can be kept by a run in which all of its conclusions
 * bite: "b" leads at first, "a" joins and announces, "b" steps down and "a" takes over.
 */
module StabilisationWitness {
  import opened Wrappers
  import opened Lexicographic
  import opened Election
  import opened Cluster
  import opened Stabilisation

  const LAN := Environment("a", 5.0, 2.0, 1, 1.0)

  const NOMINAL := Timing(0.0, 3.0, 1.0)

  lemma {:induction false} LanWindow()
    ensures LAN.Window() == 3.0 && LAN.Valid() && NOMINAL.Valid()
  {
    SpanIsProduct(2.0, 1);
  }

  ghost predicate KeptSoFar(log: seq<Action>) {
    KeptThroughout(LAN, NOMINAL, log)
  }

  lemma {:induction false} Extends(log: seq<Action>, a: Action)
    requires KeptSoFar(log) && Kept(LAN, Step(NOMINAL, After(NOMINAL, log), a))
    ensures KeptSoFar(log + [a]) && After(NOMINAL, log + [a]) == Step(NOMINAL, After(NOMINAL, log), a)
  {
    OneMore(NOMINAL, log, a);
    forall i | 0 <= i <= |log + [a]|
      ensures Kept(LAN, After(NOMINAL, (log + [a])[..i]))
    {
      if i <= |log| {
        assert (log + [a])[..i] == log[..i];
      } else {
        assert (log + [a])[..i] == log + [a];
      }
    }
  }

  // ----- before "a" says anything -----

  ghost predicate Alone(s: State, now: real, b: Node) {
    s.now == now && s.nodes == map["b" := b] && s.hung == {} && SentBy(s, "a") == []
  }

  lemma {:induction false} Early(log: seq<Action>, a: Action, now: real, b: Node) returns (log': seq<Action>)
    requires KeptSoFar(log) && now <= 5.0 && Alone(Step(NOMINAL, After(NOMINAL, log), a), now, b)
    ensures log' == log + [a] && KeptSoFar(log') && Alone(After(NOMINAL, log'), now, b)
  {
    assert Kept(LAN, Step(NOMINAL, After(NOMINAL, log), a));
    Extends(log, a);
    log' := log + [a];
  }

  lemma {:induction false} NothingYet()
    ensures KeptSoFar([]) && After(NOMINAL, []) == INITIAL
  {
    LanWindow();
    assert Kept(LAN, INITIAL);
  }

  lemma {:induction false} OldLeader() returns (log: seq<Action>)
    ensures KeptSoFar(log) && log != [] && log[|log| - 1] == TakeLead("b", false)
    ensures Alone(After(NOMINAL, log), 5.0, Node(map[], true, Leading(5.0, 5.0), [], 0, 0.0, true))
  {
    NothingYet();
    log := Early([], Boot("b"), 0.0, Booted(0.0));
    log := Early(log, Elapse(5.0), 5.0, Booted(0.0));
    log := Early(log, Evaluate("b", None), 5.0, Booted(0.0).(role := Deciding(5.0)));
    log := Early(log, Decide("b"), 5.0, Booted(0.0).(role := Starting(5.0)));
    log := Early(log, TakeLead("b", false), 5.0, Node(map[], true, Leading(5.0, 5.0), [], 0, 0.0, true));
  }

  // ----- both nodes are up -----

  /** "a" has heard nothing and announced at `times`; "b" has heard the first `heard` of these. */
  datatype Scene = Scene(now: real, times: seq<real>, heard: nat, a: Node, bPeers: Peers, bRole: Role, bLeads: bool)

  ghost predicate At(s: State, g: Scene) {
    && s.now == g.now && s.nodes.Keys == {"a", "b"} && s.nodes["a"] == g.a
    && s.nodes["b"].peers == g.bPeers && s.nodes["b"].role == g.bRole && s.nodes["b"].iAmLeader == g.bLeads
    && s.nodes["b"].bootedAt == 0.0
    && |SentBy(s, "a")| == |g.times| && (forall i | 0 <= i < |g.times| :: SentBy(s, "a")[i].at == g.times[i])
    && |s.nodes["b"].heard| == g.heard
    && (forall i | 0 <= i < g.heard :: s.nodes["b"].heard[i].from == "a" && s.nodes["b"].heard[i].index == i)
  }

  ghost predicate Covers(times: seq<real>, from: real) {
    exists i | 0 <= i < |times| :: from < times[i] <= from + 2.0
  }

  /** Announced every two seconds, and each announcement heard within one. */
  ghost predicate Good(g: Scene) {
    && (forall from: real | 5.0 <= from && from + 2.0 < g.now :: Covers(g.times, from))
    && (forall i | 0 <= i < |g.times| && g.times[i] + 1.0 < g.now :: i < g.heard)
  }

  lemma {:induction false} GoodIsKept(s: State, g: Scene)
    requires At(s, g) && Good(g)
    ensures Kept(LAN, s)
  {
    forall from: real | LAN.since <= from && from + LAN.gap < s.now
      ensures AnnouncedIn(SentBy(s, LAN.least), from, LAN.gap)
    {
      assert Covers(g.times, from);
      var i :| 0 <= i < |g.times| && from < g.times[i] <= from + 2.0;
      assert from < SentBy(s, "a")[i].at <= from + LAN.gap;
    }
    forall first: nat | first < |g.times| && g.times[first] + 1.0 < s.now
      ensures HeardOneOf(s.nodes["b"], "a", first, 1)
    {
      assert s.nodes["b"].heard[first].index == first;
    }
  }

  lemma {:induction false} Continue(log: seq<Action>, a: Action, g: Scene) returns (log': seq<Action>)
    requires KeptSoFar(log) && Good(g) && At(Step(NOMINAL, After(NOMINAL, log), a), g)
    ensures log' == log + [a] && KeptSoFar(log') && At(After(NOMINAL, log'), g)
  {
    GoodIsKept(Step(NOMINAL, After(NOMINAL, log), a), g);
    Extends(log, a);
    log' := log + [a];
  }

  lemma {:induction false} CoversMore(times: seq<real>, at: real)
    requires forall from: real | 5.0 <= from && from + 2.0 < at :: Covers(times, from)
    ensures forall from: real | 5.0 <= from && from + 2.0 < at :: Covers(times + [at], from)
  {
    forall from: real | 5.0 <= from && from + 2.0 < at
      ensures Covers(times + [at], from)
    {
      assert Covers(times, from);
      var i :| 0 <= i < |times| && from < times[i] <= from + 2.0;
      assert (times + [at])[i] == times[i];
    }
  }

  lemma {:induction false} Waits(log: seq<Action>, g: Scene, to: real) returns (log': seq<Action>)
    requires KeptSoFar(log) && At(After(NOMINAL, log), g) && g.now <= to
    requires MayWait(NOMINAL, g.a, to) && MayWait(NOMINAL, After(NOMINAL, log).nodes["b"], to)
    requires Good(g.(now := to))
    ensures log' == log + [Elapse(to)] && KeptSoFar(log') && At(After(NOMINAL, log'), g.(now := to))
  {
    log' := Continue(log, Elapse(to), g.(now := to));
  }

  lemma {:induction false} Says(log: seq<Action>, g: Scene) returns (log': seq<Action>)
    requires KeptSoFar(log) && At(After(NOMINAL, log), g) && Good(g)
    ensures log' == log + [Announce("a", "ip")]
    ensures KeptSoFar(log') && At(After(NOMINAL, log'), g.(times := g.times + [g.now]))
    ensures Good(g.(times := g.times + [g.now]))
  {
    CoversMore(g.times, g.now);
    var s := After(NOMINAL, log);
    assert SentBy(Step(NOMINAL, s, Announce("a", "ip")), "a")[..|g.times|] == SentBy(s, "a");
    log' := Continue(log, Announce("a", "ip"), g.(times := g.times + [g.now]));
  }

  function HeardNow(g: Scene): Scene {
    g.(heard := g.heard + 1, bPeers := PeerObserved("b", g.bPeers, "a", g.now))
  }

  lemma {:induction false} Hears(log: seq<Action>, g: Scene) returns (log': seq<Action>)
    requires KeptSoFar(log) && At(After(NOMINAL, log), g) && Good(g) && g.heard < |g.times|
    ensures log' == log + [Receive("b", "a", g.heard, false)]
    ensures KeptSoFar(log') && At(After(NOMINAL, log'), HeardNow(g)) && Good(HeardNow(g))
  {
    log' := Continue(log, Receive("b", "a", g.heard, false), HeardNow(g));
  }

  /** Time passes, "a" announces and "b" hears it. */
  lemma {:induction false} Round(log: seq<Action>, g: Scene, at: real) returns (log': seq<Action>)
    requires KeptSoFar(log) && At(After(NOMINAL, log), g) && g.now <= at && g.heard == |g.times|
    requires MayWait(NOMINAL, g.a, at) && MayWait(NOMINAL, After(NOMINAL, log).nodes["b"], at)
    requires forall from: real | 5.0 <= from && from + 2.0 < at :: Covers(g.times, from)
    ensures |log'| == |log| + 3 && log <= log'
    ensures var g' := HeardNow(g.(now := at, times := g.times + [at]));
      KeptSoFar(log') && At(After(NOMINAL, log'), g') && Good(g')
  {
    log' := Waits(log, g, at);
    log' := Says(log', g.(now := at));
    log' := Hears(log', g.(now := at, times := g.times + [at]));
  }

  const JOINED := Node(map[], false, Resting(10.0), [], 0, 5.0, false)

  const CROWNED := JOINED.(iAmLeader := true, role := Leading(10.0, 10.0), hub := true)

  function ASeen(at: real): Peers {
    map["a" := PeerInfo(at, false, None)]
  }

  lemma {:induction false} Newcomer() returns (log: seq<Action>, i: nat)
    ensures KeptSoFar(log) && i <= |log|
    ensures At(After(NOMINAL, log), Scene(5.0, [], 0, JOINED, map[], Leading(5.0, 5.0), true))
    ensures "b" in After(NOMINAL, log[..i]).nodes && After(NOMINAL, log[..i]).nodes["b"].iAmLeader
  {
    log := OldLeader();
    i := |log|;
    var g := Scene(5.0, [], 0, JOINED, map[], Leading(5.0, 5.0), true);
    assert log[..i] == log;
    var log' := Continue(log, Boot("a"), g);
    assert log'[..i] == log;
    log := log';
  }

  lemma {:induction false} CoveredAt8()
    ensures forall from: real | 5.0 <= from && from + 2.0 < 8.0 :: Covers([6.0], from)
  {
    forall from: real | 5.0 <= from && from + 2.0 < 8.0
      ensures Covers([6.0], from)
    {
      assert from < [6.0][0] <= from + 2.0;
    }
  }

  lemma {:induction false} CoveredAt10()
    ensures forall from: real | 5.0 <= from && from + 2.0 < 10.0 :: Covers([6.0, 8.0], from)
  {
    forall from: real | 5.0 <= from && from + 2.0 < 10.0
      ensures Covers([6.0, 8.0], from)
    {
      var times := [6.0, 8.0];
      assert if from < 6.0 then from < times[0] <= from + 2.0 else from < times[1] <= from + 2.0;
    }
  }

  lemma {:induction false} CoveredAt12()
    ensures forall from: real | 5.0 <= from && from + 2.0 < 12.0 :: Covers([6.0, 8.0, 10.0], from)
  {
    forall from: real | 5.0 <= from && from + 2.0 < 12.0
      ensures Covers([6.0, 8.0, 10.0], from)
    {
      var times := [6.0, 8.0, 10.0];
      assert if from < 6.0 then from < times[0] <= from + 2.0
        else if from < 8.0 then from < times[1] <= from + 2.0
        else from < times[2] <= from + 2.0;
    }
  }

  /** "b" hears of "a" at 6 s and 8 s, and its monitor steps down. */
  lemma {:induction false} StepsDown(log: seq<Action>) returns (log': seq<Action>)
    requires KeptSoFar(log)
    requires At(After(NOMINAL, log), Scene(5.0, [], 0, JOINED, map[], Leading(5.0, 5.0), true))
    ensures log <= log' && KeptSoFar(log')
    ensures At(After(NOMINAL, log'), Scene(8.0, [6.0, 8.0], 2, JOINED, ASeen(8.0), Resting(11.0), false))
  {
    log' := Round(log, Scene(5.0, [], 0, JOINED, map[], Leading(5.0, 5.0), true), 6.0);
    var g := Scene(6.0, [6.0], 1, JOINED, ASeen(6.0), Leading(5.0, 5.0), true);
    assert [] + [6.0] == [6.0];
    assert At(After(NOMINAL, log'), g);
    CoveredAt8();
    log' := Round(log', g, 8.0);
    g := Scene(8.0, [6.0, 8.0], 2, JOINED, ASeen(8.0), Leading(5.0, 5.0), true);
    assert [6.0] + [8.0] == [6.0, 8.0];
    assert At(After(NOMINAL, log'), g) && Good(g);
    log' := GivesWay(log', g);
  }

  lemma {:induction false} Rechecks(log: seq<Action>, g: Scene) returns (log': seq<Action>)
    requires KeptSoFar(log) && At(After(NOMINAL, log), g) && Good(g)
    requires g.now == 8.0 && g.bPeers == ASeen(8.0) && g.bRole == Leading(5.0, 5.0)
    ensures log <= log' && KeptSoFar(log')
    ensures At(After(NOMINAL, log'), g.(bRole := Resting(8.0), bLeads := false))
  {
    assert !LexLe("b", "a");
    assert !ShouldLead("b", ASeen(8.0), 8.0);
    log' := Continue(log, Recheck("b"), g.(bRole := Resting(8.0), bLeads := false));
  }

  lemma {:induction false} FindsNobody(log: seq<Action>, g: Scene) returns (log': seq<Action>)
    requires KeptSoFar(log) && At(After(NOMINAL, log), g) && Good(g)
    requires g.now == 8.0 && g.bPeers == ASeen(8.0) && g.bRole == Resting(8.0)
    ensures log <= log' && KeptSoFar(log') && At(After(NOMINAL, log'), g.(bRole := Deciding(8.0)))
  {
    assert NoCurrentLeader(ASeen(8.0), 8.0);
    log' := Continue(log, Evaluate("b", None), g.(bRole := Deciding(8.0)));
  }

  lemma {:induction false} DecidesToWait(log: seq<Action>, g: Scene) returns (log': seq<Action>)
    requires KeptSoFar(log) && At(After(NOMINAL, log), g) && Good(g)
    requires g.now == 8.0 && g.bPeers == ASeen(8.0) && g.bRole == Deciding(8.0)
    ensures log <= log' && KeptSoFar(log') && At(After(NOMINAL, log'), g.(bRole := Resting(11.0)))
  {
    assert !LexLe("b", "a");
    assert !ShouldLead("b", ASeen(8.0), 8.0);
    log' := Continue(log, Decide("b"), g.(bRole := Resting(11.0)));
  }

  lemma {:induction false} GivesWay(log: seq<Action>, g: Scene) returns (log': seq<Action>)
    requires KeptSoFar(log) && At(After(NOMINAL, log), g) && Good(g)
    requires g.now == 8.0 && g.bPeers == ASeen(8.0) && g.bRole == Leading(5.0, 5.0)
    ensures log <= log' && KeptSoFar(log')
    ensures At(After(NOMINAL, log'), g.(bRole := Resting(11.0), bLeads := false))
  {
    log' := Rechecks(log, g);
    log' := FindsNobody(log', g.(bRole := Resting(8.0), bLeads := false));
    log' := DecidesToWait(log', g.(bRole := Deciding(8.0), bLeads := false));
  }

  /** "a" is done listening at 10 s and takes the lead. */
  lemma {:induction false} TakesOver(log: seq<Action>) returns (log': seq<Action>)
    requires KeptSoFar(log)
    requires At(After(NOMINAL, log), Scene(8.0, [6.0, 8.0], 2, JOINED, ASeen(8.0), Resting(11.0), false))
    ensures log <= log' && KeptSoFar(log')
    ensures At(After(NOMINAL, log'),
               Scene(12.0, [6.0, 8.0, 10.0], 3, CROWNED, ASeen(10.0),
                     Resting(11.0), false))
  {
    CoveredAt10();
    log' := Round(log, Scene(8.0, [6.0, 8.0], 2, JOINED, ASeen(8.0), Resting(11.0), false), 10.0);
    var g := Scene(10.0, [6.0, 8.0, 10.0], 3, JOINED, ASeen(10.0), Resting(11.0), false);
    assert [6.0, 8.0] + [10.0] == [6.0, 8.0, 10.0];
    assert At(After(NOMINAL, log'), g) && Good(g);
    log' := Leads(log', g);
    CoveredAt12();
    log' := Waits(log', g.(a := CROWNED), 12.0);
  }

  lemma {:induction false} SeesNobody(log: seq<Action>, g: Scene) returns (log': seq<Action>)
    requires KeptSoFar(log) && At(After(NOMINAL, log), g) && Good(g) && g.now == 10.0 && g.a == JOINED
    ensures log <= log' && KeptSoFar(log') && At(After(NOMINAL, log'), g.(a := JOINED.(role := Deciding(10.0))))
  {
    log' := Continue(log, Evaluate("a", None), g.(a := JOINED.(role := Deciding(10.0))));
  }

  lemma {:induction false} DecidesToLead(log: seq<Action>, g: Scene) returns (log': seq<Action>)
    requires KeptSoFar(log) && At(After(NOMINAL, log), g) && Good(g)
    requires g.now == 10.0 && g.a == JOINED.(role := Deciding(10.0))
    ensures log <= log' && KeptSoFar(log') && At(After(NOMINAL, log'), g.(a := JOINED.(role := Starting(10.0))))
  {
    log' := Continue(log, Decide("a"), g.(a := JOINED.(role := Starting(10.0))));
  }

  lemma {:induction false} Leads(log: seq<Action>, g: Scene) returns (log': seq<Action>)
    requires KeptSoFar(log) && At(After(NOMINAL, log), g) && Good(g) && g.now == 10.0 && g.a == JOINED
    ensures log <= log' && KeptSoFar(log')
    ensures At(After(NOMINAL, log'), g.(a := CROWNED))
  {
    log' := SeesNobody(log, g);
    log' := DecidesToLead(log', g.(a := JOINED.(role := Deciding(10.0))));
    log' := Flags(log', g.(a := JOINED.(role := Starting(10.0))));
  }

  lemma {:induction false} Flags(log: seq<Action>, g: Scene) returns (log': seq<Action>)
    requires KeptSoFar(log) && At(After(NOMINAL, log), g) && Good(g)
    requires g.now == 10.0 && g.a == JOINED.(role := Starting(10.0))
    ensures log <= log' && KeptSoFar(log')
    ensures At(After(NOMINAL, log'), g.(a := CROWNED))
  {
    log' := Continue(log, TakeLead("a", false), g.(a := CROWNED));
  }

  /**
   * A run that keeps the assumption, meets every premise of `AtMostOneLeader` at its end, and in which
   * the leader that had to step down was one.
   */
  lemma {:induction false} AssumptionCanBeKept() returns (log: seq<Action>, i: nat)
    ensures KeptThroughout(LAN, NOMINAL, log) && i <= |log|
    ensures "b" in After(NOMINAL, log[..i]).nodes && After(NOMINAL, log[..i]).nodes["b"].iAmLeader
    ensures var s := After(NOMINAL, log);
      && s.nodes.Keys == {"a", "b"} && s.nodes["a"].iAmLeader && !s.nodes["b"].iAmLeader
      && (forall id | id in s.nodes ::
           LexLe("a", id) && QuietFrom(LAN, s.nodes[id]) + NOMINAL.startup + NOMINAL.recheck < s.now)
  {
    LanWindow();
    var early;
    early, i := Newcomer();
    log := StepsDown(early);
    log := TakesOver(log);
    assert log[..i] == early[..i];
    assert LexLe("a", "a") && LexLe("a", "b");
  }
}
