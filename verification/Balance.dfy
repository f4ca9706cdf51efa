/** When two nodes get the same load from every dispatch pass, to within one task. */
module Balance {
  import opened Registry
  import opened Tasks
  import opened Dispatch
  import opened RoundRobin

  // ----- two nodes: what one turn, and a sequence of turns, adds to the lead of x over y -----

  function Gain(fit: seq<NodeProfile>, i: nat, x: string, y: string): int
    requires fit != []
  {
    var id := fit[i % |fit|].nodeId;
    if id == x then 1 else if id == y then -1 else 0
  }

  type Fits = seq<seq<NodeProfile>>

  predicate NoneEmpty(fits: Fits) {
    forall i | 0 <= i < |fits| :: fits[i] != []
  }

  function Gains(fits: Fits, x: string, y: string): int
    requires NoneEmpty(fits)
  {
    if fits == [] then 0 else
      var n := |fits| - 1;
      Gains(fits[..n], x, y) + Gain(fits[n], n, x, y)
  }

  lemma {:induction false} LeadIsGains(fits: Fits, pairs: seq<Assignment>, x: string, y: string)
    requires NoneEmpty(fits) && x != y && |pairs| == |fits|
    requires forall i | 0 <= i < |pairs| :: pairs[i].nodeId == fits[i][i % |fits[i]|].nodeId
    ensures Load(pairs, x) - Load(pairs, y) == Gains(fits, x, y)
  {
    if pairs != [] {
      var n := |pairs| - 1;
      assert forall i | 0 <= i < n :: fits[..n][i] == fits[i] && pairs[..n][i] == pairs[i];
      LeadIsGains(fits[..n], pairs[..n], x, y);
    }
  }

  lemma {:induction false} SameRemainder(p: nat, i: nat, n: nat)
    requires n > 0 && p % n == 0
    ensures (p + i) % n == i % n
  {
    var q, r := p / n, i / n;
    assert p == q * n && i == r * n + i % n;
    assert (q + r) * n == q * n + r * n;
    QuotientIs(p + i, n, q + r);
  }

  lemma {:induction false} GainComesRound(fit: seq<NodeProfile>, p: nat, i: nat, x: string, y: string)
    requires fit != [] && p % |fit| == 0
    ensures Gain(fit, p + i, x, y) == Gain(fit, i, x, y)
  {
    SameRemainder(p, i, |fit|);
  }

  lemma {:induction false} GainsLast(fits: Fits, fit: seq<NodeProfile>, x: string, y: string)
    requires NoneEmpty(fits) && fit != []
    ensures NoneEmpty(fits + [fit])
    ensures Gains(fits + [fit], x, y) == Gains(fits, x, y) + Gain(fit, |fits|, x, y)
  {
    assert (fits + [fit])[..|fits|] == fits;
  }

  /** Turns come round: a sequence appended to one of a common period gains what it gains alone. */
  lemma {:induction false} GainsAppend(first: Fits, second: Fits, x: string, y: string)
    requires NoneEmpty(first) && NoneEmpty(second)
    requires forall i | 0 <= i < |second| :: |first| % |second[i]| == 0
    ensures NoneEmpty(first + second)
    ensures Gains(first + second, x, y) == Gains(first, x, y) + Gains(second, x, y)
  {
    if second == [] {
      assert first + second == first;
    } else {
      var body, fit := second[..|second| - 1], second[|second| - 1];
      GainsAppend(first, body, x, y);
      GainsLast(body, fit, x, y);
      GainsLast(first + body, fit, x, y);
      GainComesRound(fit, |first|, |body|, x, y);
      assert second == body + [fit] && first + second == first + body + [fit];
    }
  }

  lemma {:induction false} GainsChange(fits: Fits, at: nat, fit: seq<NodeProfile>, x: string, y: string)
    requires NoneEmpty(fits) && at < |fits| && fit != []
    ensures NoneEmpty(fits[at := fit])
    ensures Gains(fits[at := fit], x, y) == Gains(fits, x, y) + Gain(fit, at, x, y) - Gain(fits[at], at, x, y)
  {
    var n := |fits| - 1;
    if at == n {
      assert fits[at := fit][..n] == fits[..n];
    } else {
      GainsChange(fits[..n], at, fit, x, y);
      assert fits[at := fit][..n] == fits[..n][at := fit];
    }
  }

  // ----- when two nodes are balanced in every pass -----

  /** The tasks that can start have requirements in `family`. */
  ghost predicate Ask(tasks: TaskMap, nodes: seq<NodeProfile>, family: set<seq<string>>) {
    forall id | id in tasks && Dispatchable(tasks[id], nodes) :: tasks[id].requiredCapabilities in family
  }

  /** Whatever tasks with requirements in `family` wait, in whatever order, the loads differ by one at most. */
  ghost predicate EvenInEveryPass(nodes: seq<NodeProfile>, family: set<seq<string>>, x: string, y: string) {
    forall tasks, order, now | KeyedTasks(tasks) && IsOrder(order, tasks) && Ask(tasks, nodes, family) ::
      var pairs := Walk(tasks, order, nodes, now).pairs;
      -1 <= Load(pairs, x) - Load(pairs, y) <= 1
  }

  /** Neither list has either node, or the lists are equally long and have each of the two at the same slot. */
  ghost predicate SameSlots(a: seq<NodeProfile>, b: seq<NodeProfile>, x: string, y: string) {
    || (!Offers(a, x) && !Offers(a, y) && !Offers(b, x) && !Offers(b, y))
    || (|a| == |b| && exists j, k :: InSlot(a, j, x) && InSlot(b, j, x) && InSlot(a, k, y) && InSlot(b, k, y))
  }

  ghost predicate Aligned(nodes: seq<NodeProfile>, family: set<seq<string>>, x: string, y: string) {
    forall r, s | r in family && s in family && Capable(nodes, r) != [] && Capable(nodes, s) != [] ::
      SameSlots(Capable(nodes, r), Capable(nodes, s), x, y)
  }

  lemma {:induction false} CrowdAsks(nodes: seq<NodeProfile>, turns: seq<seq<string>>, family: set<seq<string>>)
    requires forall r | r in turns :: r in family
    ensures Ask(Crowd(turns), nodes, family)
  {
    forall id | id in Crowd(turns)
      ensures Crowd(turns)[id].requiredCapabilities in family
    {
      assert turns[|id|] in turns;
    }
  }

  lemma {:induction false} EvenHere(nodes: seq<NodeProfile>, family: set<seq<string>>, x: string, y: string,
                                    tasks: TaskMap, order: seq<string>, now: nat)
    requires EvenInEveryPass(nodes, family, x, y)
    requires KeyedTasks(tasks) && IsOrder(order, tasks) && Ask(tasks, nodes, family)
    ensures var pairs := Walk(tasks, order, nodes, now).pairs; -1 <= Load(pairs, x) - Load(pairs, y) <= 1
  {
  }

  function FitsOf(nodes: seq<NodeProfile>, turns: seq<seq<string>>): (fits: Fits)
    ensures |fits| == |turns| && forall i | 0 <= i < |fits| :: fits[i] == Capable(nodes, turns[i])
  {
    seq(|turns|, i requires 0 <= i < |turns| => Capable(nodes, turns[i]))
  }

  lemma {:induction false} PassGains(nodes: seq<NodeProfile>, turns: seq<seq<string>>, x: string, y: string)
    requires Meetable(nodes, turns) && NoneEmpty(FitsOf(nodes, turns)) && x != y
    ensures var pairs := Walk(Crowd(turns), Names(|turns|), nodes, 0).pairs;
      Load(pairs, x) - Load(pairs, y) == Gains(FitsOf(nodes, turns), x, y)
  {
    CrowdGoesInTurn(nodes, turns, 0);
    LeadIsGains(FitsOf(nodes, turns), Walk(Crowd(turns), Names(|turns|), nodes, 0).pairs, x, y);
  }

  lemma {:induction false} NoTurnsGainTwo(nodes: seq<NodeProfile>, family: set<seq<string>>, x: string, y: string,
                                          turns: seq<seq<string>>)
    requires EvenInEveryPass(nodes, family, x, y) && x != y
    requires NoneEmpty(FitsOf(nodes, turns)) && forall r | r in turns :: r in family
    ensures -1 <= Gains(FitsOf(nodes, turns), x, y) <= 1
  {
    forall r | r in turns
      ensures Capable(nodes, r) != []
    {
      var i :| 0 <= i < |turns| && turns[i] == r;
      assert FitsOf(nodes, turns)[i] != [];
    }
    PassGains(nodes, turns, x, y);
    CrowdIsOrdered(turns);
    CrowdAsks(nodes, turns, family);
    EvenHere(nodes, family, x, y, Crowd(turns), Names(|turns|), 0);
  }

  lemma {:induction false} TwiceRound(nodes: seq<NodeProfile>, family: set<seq<string>>, period: seq<seq<string>>)
    requires forall r | r in period :: r in family
    ensures FitsOf(nodes, period + period) == FitsOf(nodes, period) + FitsOf(nodes, period)
    ensures forall r | r in period + period :: r in family
  {
  }

  lemma {:induction false} TwiceTheGain(fits: Fits, x: string, y: string)
    requires NoneEmpty(fits) && forall i | 0 <= i < |fits| :: |fits| % |fits[i]| == 0
    ensures NoneEmpty(fits + fits) && Gains(fits + fits, x, y) == 2 * Gains(fits, x, y)
  {
    GainsAppend(fits, fits, x, y);
  }

  /** In an even family no period of turns gains anything: twice round it would gain two. */
  lemma {:induction false} NoPeriodGains(nodes: seq<NodeProfile>, family: set<seq<string>>, x: string, y: string,
                                         period: seq<seq<string>>)
    requires EvenInEveryPass(nodes, family, x, y) && x != y
    requires NoneEmpty(FitsOf(nodes, period)) && forall r | r in period :: r in family
    requires var fits := FitsOf(nodes, period); forall i | 0 <= i < |fits| :: |fits| % |fits[i]| == 0
    ensures Gains(FitsOf(nodes, period), x, y) == 0
  {
    TwiceRound(nodes, family, period);
    TwiceTheGain(FitsOf(nodes, period), x, y);
    NoTurnsGainTwo(nodes, family, x, y, period + period);
  }

  lemma {:induction false} ProductIsMultiple(m: nat, n: nat)
    requires m > 0 && n > 0
    ensures (m * n) % m == 0 && (m * n) % n == 0 && m * n > 0
  {
    QuotientIs(m * n, n, m);
    QuotientIs(n * m, m, n);
  }

  lemma {:induction false} Associates(a: nat, b: nat, c: nat)
    ensures a * (b * c) == (a * b) * c
  {
  }

  lemma {:induction false} RemainderOfRemainder(t: nat, p: nat, n: nat)
    requires n > 0 && p > 0 && p % n == 0
    ensures (t % p) % n == t % n
  {
    var q, m := t / p, p / n;
    Associates(q, m, n);
    QuotientIs(q * m * n, n, q * m);
    assert p == m * n;
    SameRemainder(q * p, t % p, n);
    assert t == q * p + t % p;
  }

  /** Swapping one requirement for another once a period must not gain anything either. */
  lemma {:induction false} EvenMeansSameGain(nodes: seq<NodeProfile>, family: set<seq<string>>, x: string, y: string,
                                             r: seq<string>, s: seq<string>, t: nat)
    requires EvenInEveryPass(nodes, family, x, y) && x != y && r in family && s in family
    requires Capable(nodes, r) != [] && Capable(nodes, s) != []
    ensures Gain(Capable(nodes, r), t, x, y) == Gain(Capable(nodes, s), t, x, y)
  {
    var a, b := Capable(nodes, r), Capable(nodes, s);
    var p := |a| * |b|;
    ProductIsMultiple(|a|, |b|);
    var period, fits, at := seq(p, _ => r), seq(p, _ => a), t % p;
    assert FitsOf(nodes, period) == fits;
    assert FitsOf(nodes, period[at := s]) == fits[at := b];
    NoPeriodGains(nodes, family, x, y, period);
    GainsChange(fits, at, b, x, y);
    NoPeriodGains(nodes, family, x, y, period[at := s]);
    assert Gain(a, at, x, y) == Gain(b, at, x, y);
    RemainderOfRemainder(t, p, |a|);
    RemainderOfRemainder(t, p, |b|);
  }

  lemma {:induction false} FirstRoundGain(fit: seq<NodeProfile>, i: nat, x: string, y: string)
    requires i < |fit| && !Offers(fit, y)
    ensures Gain(fit, i, x, y) == if fit[i].nodeId == x then 1 else 0
  {
    SmallRemainder(i, |fit|);
    assert InSlot(fit, i, fit[i].nodeId);
  }

  /** A list that has only one of two nodes favours it: once round it alone gains something. */
  lemma {:induction false} GainsOfOne(fit: seq<NodeProfile>, m: nat, x: string, y: string, j: nat)
    requires InSlot(fit, j, x) && !Offers(fit, y) && m <= |fit|
    ensures NoneEmpty(seq(m, _ => fit)) && Gains(seq(m, _ => fit), x, y) >= if j < m then 1 else 0
  {
    if m > 0 {
      GainsOfOne(fit, m - 1, x, y, j);
      GainsLast(seq(m - 1, _ => fit), fit, x, y);
      assert seq(m, _ => fit) == seq(m - 1, _ => fit) + [fit];
      FirstRoundGain(fit, m - 1, x, y);
    }
  }

  lemma {:induction false} EvenMeansBothListed(nodes: seq<NodeProfile>, family: set<seq<string>>, x: string, y: string,
                                               r: seq<string>)
    requires EvenInEveryPass(nodes, family, x, y) && x != y && r in family && Offers(Capable(nodes, r), x)
    ensures Offers(Capable(nodes, r), y)
  {
    var fit := Capable(nodes, r);
    var j: nat :| InSlot(fit, j, x);
    if !Offers(fit, y) {
      var period := seq(|fit|, _ => r);
      assert FitsOf(nodes, period) == seq(|fit|, _ => fit);
      SelfMultiple(|fit|);
      GainsOfOne(fit, |fit|, x, y, j);
      NoPeriodGains(nodes, family, x, y, period);
      assert false;
    }
  }

  lemma {:induction false} SelfMultiple(n: nat)
    requires n > 0
    ensures n % n == 0
  {
  }

  lemma {:induction false} EvenIsSymmetric(nodes: seq<NodeProfile>, family: set<seq<string>>, x: string, y: string)
    requires EvenInEveryPass(nodes, family, x, y)
    ensures EvenInEveryPass(nodes, family, y, x)
  {
    forall tasks, order, now | KeyedTasks(tasks) && IsOrder(order, tasks) && Ask(tasks, nodes, family)
      ensures var pairs := Walk(tasks, order, nodes, now).pairs;
        -1 <= Load(pairs, y) - Load(pairs, x) <= 1
    {
      var pairs := Walk(tasks, order, nodes, now).pairs;
      assert -1 <= Load(pairs, x) - Load(pairs, y) <= 1;
    }
  }

  lemma {:induction false} ComesRound(j: nat, m: nat, n: nat)
    requires n > 0 && (j + m) % n == j % n
    ensures m % n == 0
  {
    var q, r := (j + m) / n, j / n;
    assert j + m == q * n + j % n && j == r * n + j % n;
    assert (q - r) * n == q * n - r * n == m;
    QuotientIs(m, n, q - r);
  }

  lemma {:induction false} MultiplesAgree(m: nat, n: nat)
    requires m > 0 && n > 0 && m % n == 0 && n % m == 0
    ensures m == n
  {
    AtLeast(m, n);
    AtLeast(n, m);
  }

  lemma {:induction false} AtLeast(m: nat, n: nat)
    requires m > 0 && n > 0 && m % n == 0
    ensures n <= m
  {
    if m < n {
      SmallRemainder(m, n);
    }
  }

  /** Two lists that gain alike at every turn are equally long, if the first has x. */
  lemma {:induction false} SameGainSameLength(a: seq<NodeProfile>, b: seq<NodeProfile>, x: string, y: string, j: nat)
    requires DistinctIds(b) && b != [] && InSlot(a, j, x)
    requires forall t: nat :: Gain(a, t, x, y) == Gain(b, t, x, y)
    ensures |a| % |b| == 0 && InSlot(b, j % |b|, x)
  {
    SmallRemainder(j, |a|);
    SelfMultiple(|a|);
    SameRemainder(|a|, j, |a|);
    assert Gain(a, j, x, y) == 1 && Gain(a, |a| + j, x, y) == 1;
    assert Gain(b, j, x, y) == 1 && Gain(b, |a| + j, x, y) == 1;
    ComesRound(j, |a|, |b|);
  }

  lemma {:induction false} EvenMeansSameSlots(nodes: seq<NodeProfile>, family: set<seq<string>>, x: string, y: string,
                                              r: seq<string>, s: seq<string>)
    requires EvenInEveryPass(nodes, family, x, y) && x != y && DistinctIds(nodes) && r in family && s in family
    requires Capable(nodes, s) != [] && Offers(Capable(nodes, r), x)
    ensures SameSlots(Capable(nodes, r), Capable(nodes, s), x, y)
  {
    var a, b := Capable(nodes, r), Capable(nodes, s);
    CapableKeepsDistinct(nodes, r);
    CapableKeepsDistinct(nodes, s);
    forall t: nat
      ensures Gain(a, t, x, y) == Gain(b, t, x, y)
    {
      EvenMeansSameGain(nodes, family, x, y, r, s, t);
    }
    var j: nat :| InSlot(a, j, x);
    SameGainSameLength(a, b, x, y, j);
    SameGainSameLength(b, a, x, y, j % |b|);
    MultiplesAgree(|a|, |b|);
    SmallRemainder(j, |b|);
    EvenMeansBothListed(nodes, family, x, y, r);
    var k: nat :| InSlot(a, k, y);
    SmallRemainder(k, |a|);
    assert Gain(a, k, x, y) == -1;
    assert Gain(b, k, x, y) == -1;
  }

  lemma {:induction false} EvenMeansAligned(nodes: seq<NodeProfile>, family: set<seq<string>>, x: string, y: string)
    requires EvenInEveryPass(nodes, family, x, y) && x != y && DistinctIds(nodes)
    ensures Aligned(nodes, family, x, y)
  {
    EvenIsSymmetric(nodes, family, x, y);
    forall r, s | r in family && s in family && Capable(nodes, r) != [] && Capable(nodes, s) != []
      ensures SameSlots(Capable(nodes, r), Capable(nodes, s), x, y)
    {
      if Offers(Capable(nodes, r), x) {
        EvenMeansSameSlots(nodes, family, x, y, r, s);
      } else if Offers(Capable(nodes, s), x) {
        EvenMeansSameSlots(nodes, family, x, y, s, r);
      } else {
        if Offers(Capable(nodes, r), y) {
          EvenMeansBothListed(nodes, family, y, x, r);
        }
        if Offers(Capable(nodes, s), y) {
          EvenMeansBothListed(nodes, family, y, x, s);
        }
      }
    }
  }

  lemma {:induction false} NeverListed(tasks: TaskMap, nodes: seq<NodeProfile>, pairs: seq<Assignment>, id: string)
    requires InTurn(tasks, nodes, pairs) && forall p | p in pairs :: !Offers(FitOf(tasks, nodes, p), id)
    ensures Load(pairs, id) == 0
  {
    if pairs != [] {
      var m := |pairs| - 1;
      assert forall i | 0 <= i < m :: pairs[..m][i] == pairs[i];
      NeverListed(tasks, nodes, pairs[..m], id);
      assert pairs[m] in pairs;
      var fit := FitOf(tasks, nodes, pairs[m]);
      assert InSlot(fit, m % |fit|, pairs[m].nodeId);
    }
  }

  lemma {:induction false} SharesAreClose(m: nat, n: nat, j: nat, k: nat)
    requires j < n && k < n
    ensures -1 <= Share(m, n, j) - Share(m, n, k) <= 1
  {
    if j < k {
      SharesDiffer(m, n, j, k);
    } else if k < j {
      SharesDiffer(m, n, k, j);
    }
  }

  lemma {:induction false} SlotsCarryOver(a: seq<NodeProfile>, b: seq<NodeProfile>, x: string, y: string,
                                          j: nat, k: nat)
    requires DistinctIds(a) && InSlot(a, j, x) && InSlot(a, k, y) && SameSlots(a, b, x, y)
    ensures |b| == |a| && InSlot(b, j, x) && InSlot(b, k, y)
  {
    assert Offers(a, x);
    var j', k' :| InSlot(a, j', x) && InSlot(b, j', x) && InSlot(a, k', y) && InSlot(b, k', y);
    assert j' == j && k' == k;
  }

  lemma {:induction false} EvenAtSlots(tasks: TaskMap, nodes: seq<NodeProfile>, pairs: seq<Assignment>,
                                       fit: seq<NodeProfile>, x: string, y: string, j: nat, k: nat)
    requires DistinctIds(nodes) && InTurn(tasks, nodes, pairs)
    requires DistinctIds(fit) && InSlot(fit, j, x) && InSlot(fit, k, y)
    requires forall p | p in pairs :: SameSlots(fit, FitOf(tasks, nodes, p), x, y)
    ensures -1 <= Load(pairs, x) - Load(pairs, y) <= 1
  {
    forall p | p in pairs
      ensures |FitOf(tasks, nodes, p)| == |fit| && InSlot(FitOf(tasks, nodes, p), j, x)
      ensures InSlot(FitOf(tasks, nodes, p), k, y)
    {
      SlotsCarryOver(fit, FitOf(tasks, nodes, p), x, y, j, k);
    }
    LoadAtSlot(tasks, nodes, pairs, x, |fit|, j);
    LoadAtSlot(tasks, nodes, pairs, y, |fit|, k);
    SharesAreClose(|pairs|, |fit|, j, k);
  }

  lemma {:induction false} PairsShareSlots(tasks: TaskMap, nodes: seq<NodeProfile>, pairs: seq<Assignment>,
                                           family: set<seq<string>>, x: string, y: string, p: Assignment, q: Assignment)
    requires InTurn(tasks, nodes, pairs) && Aligned(nodes, family, x, y) && p in pairs && q in pairs
    requires forall p | p in pairs :: p.taskId in tasks && tasks[p.taskId].requiredCapabilities in family
    ensures SameSlots(FitOf(tasks, nodes, p), FitOf(tasks, nodes, q), x, y)
  {
    var i :| 0 <= i < |pairs| && pairs[i] == p;
    var j :| 0 <= j < |pairs| && pairs[j] == q;
    assert FitOf(tasks, nodes, pairs[i]) != [] && FitOf(tasks, nodes, pairs[j]) != [];
  }

  lemma {:induction false} AlignedMeansEven(tasks: TaskMap, nodes: seq<NodeProfile>, pairs: seq<Assignment>,
                                            family: set<seq<string>>, x: string, y: string)
    requires DistinctIds(nodes) && InTurn(tasks, nodes, pairs) && Aligned(nodes, family, x, y)
    requires forall p | p in pairs :: p.taskId in tasks && tasks[p.taskId].requiredCapabilities in family
    ensures -1 <= Load(pairs, x) - Load(pairs, y) <= 1
  {
    if pairs != [] {
      var first := pairs[0];
      var fit := FitOf(tasks, nodes, first);
      forall p | p in pairs
        ensures SameSlots(fit, FitOf(tasks, nodes, p), x, y)
      {
        PairsShareSlots(tasks, nodes, pairs, family, x, y, first, p);
      }
      assert first in pairs;
      assert SameSlots(fit, fit, x, y);
      if Offers(fit, x) || Offers(fit, y) {
        var j: nat, k: nat :| InSlot(fit, j, x) && InSlot(fit, k, y);
        CapableKeepsDistinct(nodes, tasks[first.taskId].requiredCapabilities);
        EvenAtSlots(tasks, nodes, pairs, fit, x, y, j, k);
      } else {
        NeverListed(tasks, nodes, pairs, x);
        NeverListed(tasks, nodes, pairs, y);
      }
    }
  }

  /** The exact condition: two nodes are balanced in every pass over a family of requirements iff it is aligned. */
  lemma {:induction false} EvenIffAligned(nodes: seq<NodeProfile>, family: set<seq<string>>, x: string, y: string)
    requires DistinctIds(nodes) && x != y
    ensures EvenInEveryPass(nodes, family, x, y) <==> Aligned(nodes, family, x, y)
  {
    if EvenInEveryPass(nodes, family, x, y) {
      EvenMeansAligned(nodes, family, x, y);
    }
    if Aligned(nodes, family, x, y) {
      forall tasks, order, now | KeyedTasks(tasks) && IsOrder(order, tasks) && Ask(tasks, nodes, family)
        ensures var pairs := Walk(tasks, order, nodes, now).pairs;
          -1 <= Load(pairs, x) - Load(pairs, y) <= 1
      {
        PassGoesInTurn(tasks, order, nodes, now);
        AlignedMeansEven(tasks, nodes, Walk(tasks, order, nodes, now).pairs, family, x, y);
      }
    }
  }

  // ----- the same over the registry, for every listing of it -----

  /** The registered nodes that fit. */
  function Fitting(nodes: Nodes, required: seq<string>): set<string> {
    set id | id in nodes && Matches(nodes[id], required)
  }

  /** Neither of the two fits any of these, or all that can be met are met by the same nodes, both among them. */
  ghost predicate SameFitting(nodes: Nodes, family: set<seq<string>>, x: string, y: string) {
    forall r, s | r in family && s in family && Fitting(nodes, r) != {} && Fitting(nodes, s) != {} ::
      var a, b := Fitting(nodes, r), Fitting(nodes, s);
      || (x !in a && y !in a && x !in b && y !in b)
      || (a == b && x in a && y in a)
  }

  ghost predicate EvenInEveryListing(nodes: Nodes, family: set<seq<string>>, x: string, y: string) {
    forall list | IsListing(list, nodes) :: EvenInEveryPass(list, family, x, y)
  }

  lemma {:induction false} OffersIffFitting(nodes: Nodes, list: seq<NodeProfile>, required: seq<string>, id: string)
    requires Keyed(nodes) && IsListing(list, nodes)
    ensures Offers(Capable(list, required), id) <==> id in Fitting(nodes, required)
  {
    var fit := Capable(list, required);
    if Offers(fit, id) {
      var j: nat :| InSlot(fit, j, id);
      assert fit[j] in fit && fit[j] in list;
    }
    if id in Fitting(nodes, required) {
      assert nodes[id] in list && nodes[id] in fit;
      var j :| 0 <= j < |fit| && fit[j] == nodes[id];
      assert InSlot(fit, j, id);
    }
  }

  lemma {:induction false} EmptyIffNoneFits(nodes: Nodes, list: seq<NodeProfile>, required: seq<string>)
    requires Keyed(nodes) && IsListing(list, nodes)
    ensures Capable(list, required) == [] <==> Fitting(nodes, required) == {}
  {
    var fit := Capable(list, required);
    if fit != [] {
      assert InSlot(fit, 0, fit[0].nodeId);
      OffersIffFitting(nodes, list, required, fit[0].nodeId);
    }
    if id :| id in Fitting(nodes, required) {
      OffersIffFitting(nodes, list, required, id);
    }
  }

  lemma {:induction false} SameFittingSameList(list: seq<NodeProfile>, r: seq<string>, s: seq<string>)
    requires forall n | n in list :: Matches(n, r) <==> Matches(n, s)
    ensures Capable(list, r) == Capable(list, s)
  {
    if list != [] {
      SameFittingSameList(list[1..], r, s);
    }
  }

  lemma {:induction false} SameFittingMeansAligned(nodes: Nodes, list: seq<NodeProfile>, family: set<seq<string>>,
                                                   x: string, y: string)
    requires Keyed(nodes) && IsListing(list, nodes) && SameFitting(nodes, family, x, y)
    ensures Aligned(list, family, x, y)
  {
    forall r, s | r in family && s in family && Capable(list, r) != [] && Capable(list, s) != []
      ensures SameSlots(Capable(list, r), Capable(list, s), x, y)
    {
      EmptyIffNoneFits(nodes, list, r);
      EmptyIffNoneFits(nodes, list, s);
      OffersIffFitting(nodes, list, r, x);
      OffersIffFitting(nodes, list, r, y);
      OffersIffFitting(nodes, list, s, x);
      OffersIffFitting(nodes, list, s, y);
      if x in Fitting(nodes, r) || y in Fitting(nodes, r) || x in Fitting(nodes, s) || y in Fitting(nodes, s) {
        forall n | n in list
          ensures Matches(n, r) <==> Matches(n, s)
        {
          assert n.nodeId in Fitting(nodes, r) <==> n.nodeId in Fitting(nodes, s);
        }
        SameFittingSameList(list, r, s);
      }
    }
  }

  lemma {:induction false} ListingExists(nodes: Nodes) returns (list: seq<NodeProfile>)
    requires Keyed(nodes)
    ensures IsListing(list, nodes)
    decreases |nodes|
  {
    if nodes == map[] {
      list := [];
    } else {
      var id :| id in nodes;
      var rest := ListingExists(nodes - {id});
      list := PutFirst(nodes, id, rest);
    }
  }

  lemma {:induction false} PutFirst(nodes: Nodes, id: string, rest: seq<NodeProfile>) returns (list: seq<NodeProfile>)
    requires Keyed(nodes) && id in nodes && IsListing(rest, nodes - {id})
    ensures list == [nodes[id]] + rest && IsListing(list, nodes)
  {
    list := [nodes[id]] + rest;
    forall other | other in nodes
      ensures nodes[other] in list
    {
      assert other != id ==> (nodes - {id})[other] in rest;
    }
  }

  /** Some listing begins with these two. */
  lemma {:induction false} ListingWithFirst(nodes: Nodes, first: string, second: string)
    returns (list: seq<NodeProfile>)
    requires Keyed(nodes) && first in nodes && second in nodes && first != second
    ensures IsListing(list, nodes) && |list| >= 2 && list[0] == nodes[first] && list[1] == nodes[second]
  {
    var rest := ListingExists(nodes - {first} - {second});
    rest := PutFirst(nodes - {first}, second, rest);
    list := PutFirst(nodes, first, rest);
  }

  lemma {:induction false} SlotOfSecond(list: seq<NodeProfile>, required: seq<string>)
    requires |list| >= 2 && Matches(list[1], required)
    ensures InSlot(Capable(list, required), if Matches(list[0], required) then 1 else 0, list[1].nodeId)
  {
    assert list[1..][0] == list[1];
  }

  /** A node that fits only one of two requirements, listed first, moves x to another slot for that one. */
  lemma {:induction false} EvenMeansNoOther(nodes: Nodes, family: set<seq<string>>, x: string, y: string,
                                            r: seq<string>, s: seq<string>, z: string)
    requires Keyed(nodes) && x != y && EvenInEveryListing(nodes, family, x, y) && r in family && s in family
    requires x in Fitting(nodes, r) && x in Fitting(nodes, s) && z in Fitting(nodes, r)
    ensures z in Fitting(nodes, s)
  {
    if z !in Fitting(nodes, s) {
      var list := ListingWithFirst(nodes, z, x);
      var a, b := Capable(list, r), Capable(list, s);
      SlotOfSecond(list, r);
      SlotOfSecond(list, s);
      CapableKeepsDistinct(list, r);
      CapableKeepsDistinct(list, s);
      EvenIffAligned(list, family, x, y);
      assert SameSlots(a, b, x, y);
      assert Offers(a, x);
      assert false;
    }
  }

  lemma {:induction false} EvenMeansBothFit(nodes: Nodes, family: set<seq<string>>, x: string, y: string,
                                            r: seq<string>, s: seq<string>)
    requires Keyed(nodes) && x != y && EvenInEveryListing(nodes, family, x, y) && r in family && s in family
    requires Fitting(nodes, r) != {} && Fitting(nodes, s) != {}
    ensures var a, b := Fitting(nodes, r), Fitting(nodes, s);
      (x !in a && y !in a && x !in b && y !in b) || (x in a && y in a && x in b && y in b)
  {
    var list := ListingExists(nodes);
    EvenIffAligned(list, family, x, y);
    EmptyIffNoneFits(nodes, list, r);
    EmptyIffNoneFits(nodes, list, s);
    assert SameSlots(Capable(list, r), Capable(list, s), x, y);
    OffersIffFitting(nodes, list, r, x);
    OffersIffFitting(nodes, list, r, y);
    OffersIffFitting(nodes, list, s, x);
    OffersIffFitting(nodes, list, s, y);
  }

  /**
   * The condition a caller can check, since no caller knows the listing: two nodes are balanced in every
   * pass over every listing of the registry iff neither fits a requirement of the family, or all
   * requirements that can be met are met by the same nodes, the two among them.
   */
  lemma {:induction false} EvenIffSameFitting(nodes: Nodes, family: set<seq<string>>, x: string, y: string)
    requires Keyed(nodes) && x != y
    ensures EvenInEveryListing(nodes, family, x, y) <==> SameFitting(nodes, family, x, y)
  {
    if SameFitting(nodes, family, x, y) {
      forall list | IsListing(list, nodes)
        ensures EvenInEveryPass(list, family, x, y)
      {
        SameFittingMeansAligned(nodes, list, family, x, y);
        EvenIffAligned(list, family, x, y);
      }
    }
    if EvenInEveryListing(nodes, family, x, y) {
      forall r, s | r in family && s in family && Fitting(nodes, r) != {} && Fitting(nodes, s) != {}
        ensures var a, b := Fitting(nodes, r), Fitting(nodes, s);
          (x !in a && y !in a && x !in b && y !in b) || (a == b && x in a && y in a)
      {
        EvenMeansBothFit(nodes, family, x, y, r, s);
        if x in Fitting(nodes, r) {
          forall z
            ensures z in Fitting(nodes, r) <==> z in Fitting(nodes, s)
          {
            if z in Fitting(nodes, r) {
              EvenMeansNoOther(nodes, family, x, y, r, s, z);
            }
            if z in Fitting(nodes, s) {
              EvenMeansNoOther(nodes, family, x, y, s, r, z);
            }
          }
          assert Fitting(nodes, r) == Fitting(nodes, s);
        }
      }
    }
  }

  // ----- a pass without balance -----

  const GPU := "gpu_execution"
  const WITH := NodeProfile("with", "linux", [Capability("creative_execution", "string", GPU)], 0, "")
  const WITHOUT := NodeProfile("without", "linux", [], 0, "")

  function Alternating(m: nat): seq<seq<string>> {
    seq(m, i => if i % 2 == 0 then [] else [GPU])
  }

  lemma {:induction false} WhoFits()
    ensures Capable([WITH, WITHOUT], []) == [WITH, WITHOUT] && Capable([WITH, WITHOUT], [GPU]) == [WITH]
  {
    assert Values(WITH) == [GPU] && Values(WITHOUT) == [];
    assert GPU in Values(WITH) && GPU !in Values(WITHOUT) && GPU in [GPU];
    assert [WITH, WITHOUT][1..] == [WITHOUT] && [WITHOUT][1..] == [];
    assert Capable([WITHOUT], []) == [WITHOUT] && Capable([WITHOUT], [GPU]) == [];
  }

  lemma {:induction false} AllToOne(pairs: seq<Assignment>, one: string, other: string)
    requires one != other && forall p | p in pairs :: p.nodeId == one
    ensures Load(pairs, one) == |pairs| && Load(pairs, other) == 0
  {
    if pairs != [] {
      AllToOne(pairs[..|pairs| - 1], one, other);
      assert pairs[|pairs| - 1] in pairs;
    }
  }

  lemma {:induction false} FirstEachTime(r: seq<string>, i: nat)
    requires r == if i % 2 == 0 then [] else [GPU]
    ensures Capable([WITH, WITHOUT], r) != []
    ensures Capable([WITH, WITHOUT], r)[i % |Capable([WITH, WITHOUT], r)|].nodeId == WITH.nodeId
  {
    WhoFits();
  }

  lemma {:induction false} AlternatingIsMeetable(m: nat)
    ensures Meetable([WITH, WITHOUT], Alternating(m))
  {
    WhoFits();
  }

  /** If every turn falls to the same node, it gets all tasks of the pass. */
  lemma {:induction false} OneGetsAll(nodes: seq<NodeProfile>, turns: seq<seq<string>>, now: nat,
                                      one: string, other: string)
    requires Meetable(nodes, turns) && one != other
    requires forall i | 0 <= i < |turns| ::
      var fit := Capable(nodes, turns[i]);
      fit != [] && fit[i % |fit|].nodeId == one
    ensures var pairs := Walk(Crowd(turns), Names(|turns|), nodes, now).pairs;
      |pairs| == Load(pairs, one) == |turns| && Load(pairs, other) == 0
  {
    CrowdGoesInTurn(nodes, turns, now);
    AllToOne(Walk(Crowd(turns), Names(|turns|), nodes, now).pairs, one, other);
  }

  /** Tasks that need a capability alternate with tasks that do not: one of two nodes gets them all. */
  lemma {:induction false} UnbalancedWhenListsDiffer(m: nat, now: nat)
    ensures var tasks, order := Crowd(Alternating(m)), Names(m);
      && KeyedTasks(tasks) && IsOrder(order, tasks)
      && var pairs := Walk(tasks, order, [WITH, WITHOUT], now).pairs;
         |pairs| == Load(pairs, WITH.nodeId) == m && Load(pairs, WITHOUT.nodeId) == 0
  {
    AlternatingIsMeetable(m);
    CrowdIsOrdered(Alternating(m));
    forall i | 0 <= i < m
      ensures var fit := Capable([WITH, WITHOUT], Alternating(m)[i]);
        fit != [] && fit[i % |fit|].nodeId == WITH.nodeId
    {
      FirstEachTime(Alternating(m)[i], i);
    }
    OneGetsAll([WITH, WITHOUT], Alternating(m), now, WITH.nodeId, WITHOUT.nodeId);
  }
}
