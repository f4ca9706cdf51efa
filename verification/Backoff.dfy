/** The pauses between handshake attempts. Times are seconds; the arithmetic is over the reals. */
module Backoff {

  const CAP: real := 30.0

  function Min(x: real, y: real): real {
    if x <= y then x else y
  }

  ghost predicate Jitters(jitter: seq<real>) {
    forall i | 0 <= i < |jitter| :: 0.0 <= jitter[i] < 1.0
  }

  /** The pause after the n-th failure; the jitter is added after the cap and carried over. */
  function Pause(jitter: seq<real>, n: nat): real
    requires n <= |jitter|
  {
    if n == 0 then 1.0 else Min(CAP, Pause(jitter, n - 1) * 1.5) + jitter[n - 1]
  }

  /** 1.5 to the power n. */
  function Growth(n: nat): real {
    if n == 0 then 1.0 else Growth(n - 1) * 1.5
  }

  method Pauses(jitter: seq<real>) returns (pauses: seq<real>)
    ensures |pauses| == |jitter|
    ensures forall n | 1 <= n <= |jitter| :: pauses[n - 1] == Pause(jitter, n)
    ensures forall n | 0 <= n < |jitter| ::
      var grown := if n == 0 then 1.5 else pauses[n - 1] * 1.5;
      pauses[n] == (if grown <= 30.0 then grown else 30.0) + jitter[n]
  {
    var attempt := 0;
    var backoff := 1.0;
    pauses := [];
    while attempt < |jitter|
      invariant 0 <= attempt <= |jitter| && |pauses| == attempt
      invariant backoff == Pause(jitter, attempt)
      invariant forall n | 1 <= n <= attempt :: pauses[n - 1] == Pause(jitter, n)
      invariant backoff == if attempt == 0 then 1.0 else pauses[attempt - 1]
      invariant forall n | 0 <= n < attempt ::
        var grown := if n == 0 then 1.5 else pauses[n - 1] * 1.5;
        pauses[n] == (if grown <= 30.0 then grown else 30.0) + jitter[n]
    {
      attempt := attempt + 1;
      var sleepSecs := Min(CAP, backoff * 1.5) + jitter[attempt - 1];
      backoff := sleepSecs;
      pauses := pauses + [sleepSecs];
    }
  }

  lemma {:induction false} PauseBounds(jitter: seq<real>, n: nat)
    requires Jitters(jitter) && 1 <= n <= |jitter|
    ensures Min(CAP, Growth(n)) <= Pause(jitter, n) < Min(CAP + 1.0, 3.0 * Growth(n) - 2.0)
  {
    if n == 1 {
      assert Pause(jitter, 0) == 1.0 && Growth(0) == 1.0;
    } else {
      PauseBounds(jitter, n - 1);
    }
  }

  /** Pauses grow strictly until they reach the cap, and stay within a second above it from then on. */
  lemma {:induction false} PausesGrowToCap(jitter: seq<real>, n: nat)
    requires Jitters(jitter) && 1 <= n < |jitter|
    ensures Pause(jitter, n) < CAP ==> Pause(jitter, n) < Pause(jitter, n + 1)
    ensures Pause(jitter, n) >= CAP ==> CAP <= Pause(jitter, n + 1) < CAP + 1.0
  {
    PauseBounds(jitter, n);
    GrowthRises(n, 0);
  }

  lemma {:induction false} GrowthRises(n: nat, m: nat)
    requires m <= n
    ensures 1.0 <= Growth(m) <= Growth(n)
  {
    if n > m {
      GrowthRises(n - 1, m);
    } else if n > 0 {
      GrowthRises(n - 1, n - 1);
    }
  }

  /** Nine failures are enough to reach the cap, whatever the jitter: each pause is then the cap and its own jitter. */
  lemma {:induction false} CapFromTheNinth(jitter: seq<real>, n: nat)
    requires Jitters(jitter) && 9 <= n <= |jitter|
    ensures Pause(jitter, n) == CAP + jitter[n - 1]
    ensures Pause(jitter, n) <= CAP <==> jitter[n - 1] == 0.0
  {
    PauseBounds(jitter, n - 1);
    GrowthRises(n - 1, 8);
    assert Growth(4) == 5.0625;
    assert Growth(8) == 25.62890625;
  }

  /** Eight are not: without jitter the pauses are the powers of 1.5 while those stay below the cap. */
  lemma {:induction false} EighthCanFallShort(jitter: seq<real>, n: nat)
    requires n <= |jitter| && n <= 8
    requires forall i | 0 <= i < n :: jitter[i] == 0.0
    ensures Pause(jitter, n) == Growth(n) < CAP
  {
    if n > 0 {
      EighthCanFallShort(jitter, n - 1);
      GrowthRises(8, n);
      assert Growth(4) == 5.0625;
      assert Growth(8) == 25.62890625;
    }
  }

  // ----- when the cap is met -----

  /** What the pause would be if there were no cap. */
  function Uncapped(jitter: seq<real>, n: nat): real
    requires n <= |jitter|
  {
    if n == 0 then 1.0 else Uncapped(jitter, n - 1) * 1.5 + jitter[n - 1]
  }

  lemma {:induction false} UncappedRises(jitter: seq<real>, n: nat)
    requires Jitters(jitter) && n < |jitter|
    ensures 1.0 <= Uncapped(jitter, n) < Uncapped(jitter, n + 1)
  {
    if n > 0 {
      UncappedRises(jitter, n - 1);
    }
  }

  lemma {:induction false} SameBelowCap(jitter: seq<real>, n: nat)
    requires Jitters(jitter) && n <= |jitter|
    ensures Pause(jitter, n) < CAP || Uncapped(jitter, n) <= CAP ==> Pause(jitter, n) == Uncapped(jitter, n)
  {
    if n > 0 {
      SameBelowCap(jitter, n - 1);
      UncappedRises(jitter, n - 1);
    }
  }

  /** A pause keeps to the cap exactly when it has no jitter, or would not have reached the cap at all. */
  lemma {:induction false} CapMetIff(jitter: seq<real>, n: nat)
    requires Jitters(jitter) && 1 <= n <= |jitter|
    ensures Pause(jitter, n) <= CAP <==> jitter[n - 1] == 0.0 || Uncapped(jitter, n) <= CAP
  {
    SameBelowCap(jitter, n);
    SameBelowCap(jitter, n - 1);
  }

  /** The first five always do. */
  lemma {:induction false} CapMetThroughFifth(jitter: seq<real>, n: nat)
    requires Jitters(jitter) && 1 <= n <= |jitter| && n <= 5
    ensures Pause(jitter, n) < CAP
  {
    PauseBounds(jitter, n);
    GrowthRises(5, n);
    assert Growth(5) == 7.59375;
  }

  /** The sixth need not: jitter of nine tenths of a second takes it past the cap. */
  lemma {:induction false} SixthCanExceed()
    ensures var jitter := seq(6, _ => 0.9); Jitters(jitter) && Pause(jitter, 6) > CAP
  {
    var jitter := seq(6, _ => 0.9);
    assert Pause(jitter, 0) == 1.0;
    assert Pause(jitter, 1) == 2.4;
    assert Pause(jitter, 2) == 4.5;
    assert Pause(jitter, 3) == 7.65;
    assert Pause(jitter, 4) == 12.375;
    assert Pause(jitter, 5) == 19.4625;
  }
}
