/** The reconnect backoff: how long it waits, and that a run of failures ends. */
module ListenBackoff {
  import opened Options
  import opened ListenModel
  import opened ListenSafety

  lemma {:induction false} Pow2Grows(m: nat, n: nat)
    requires m <= n
    ensures 1 <= Pow2(m) <= Pow2(n)
    decreases n
  {
    if m < n {
      Pow2Grows(m, n - 1);
    } else if n > 0 {
      Pow2Grows(n - 1, n - 1);
    }
  }

  /** Delays never shrink over consecutive failures and stay between the base and the cap, both attained. */
  lemma DelayBounds(m: nat, n: nat)
    requires m <= n
    ensures RECONNECT_BASE_MS <= Delay(m) <= Delay(n) <= RECONNECT_MAX_MS
    ensures Delay(0) == RECONNECT_BASE_MS
    ensures Delay(m) == RECONNECT_MAX_MS <==> 5 <= m
  {
    Pow2Grows(0, m);
    Pow2Grows(m, n);
    if m <= 4 {
      Pow2Grows(m, 4);
      assert Pow2(4) == 16 by { assert Pow2(3) == 8 && Pow2(1) == 2; }
    } else {
      Pow2Grows(5, m);
      assert Pow2(5) == 32 by { assert Pow2(3) == 8 && Pow2(1) == 2; }
    }
  }

  /** The waits after `i`, ..., `j - 1` failures together. */
  function DelaysBetween(i: nat, j: nat): nat
    requires i <= j
    decreases j
  {
    if i == j then 0 else DelaysBetween(i, j - 1) + Delay(j - 1)
  }

  lemma {:induction false} DelaysSum(i: nat, j: nat, k: nat)
    requires i <= j <= k
    ensures DelaysBetween(i, j) <= DelaysBetween(i, k)
    ensures DelaysBetween(i, k) == DelaysBetween(i, j) + DelaysBetween(j, k)
    decreases k
  {
    if j < k {
      DelaysSum(i, j, k - 1);
    }
  }

  lemma FirstDelay(i: nat, k: nat)
    requires i < k
    ensures DelaysBetween(i, k) == Delay(i) + DelaysBetween(i + 1, k)
  {
    DelaysSum(i, i + 1, k);
    assert DelaysBetween(i, i) == 0;
  }

  lemma DelayTotals()
    ensures DelaysBetween(0, 9) == 75_500 && DelaysBetween(1, 9) == 75_000
  {
    DelayBounds(5, 6);
    DelayBounds(7, 8);
    assert Pow2(4) == 16 by { assert Pow2(3) == 8 && Pow2(1) == 2; }
    assert Pow2(2) == 4 && Pow2(3) == 8;
    assert DelaysBetween(1, 3) == 3_000 by { assert DelaysBetween(1, 2) == 1_000; }
    assert DelaysBetween(1, 5) == 15_000 by { assert DelaysBetween(1, 4) == 7_000; }
    assert DelaysBetween(1, 7) == 45_000 by { assert DelaysBetween(1, 6) == 30_000; }
    assert DelaysBetween(1, 9) == 75_000 by { assert DelaysBetween(1, 8) == 60_000; }
    DelaysSum(0, 1, 9);
    assert DelaysBetween(0, 1) == 500 by { assert DelaysBetween(0, 0) == 0; }
  }

  lemma RunCons(s: State, first: Step, rest: seq<Step>)
    requires Enabled(s, first) && IsRun(Next(s, first), rest)
    ensures IsRun(s, [first] + rest) && After(s, [first] + rest) == After(Next(s, first), rest)
    ensures
      Waited(s, [first] + rest) == (if first == TimerFires then s.timer.value else 0) + Waited(Next(s, first), rest)
  {
    assert ([first] + rest)[1..] == rest;
  }

  lemma {:induction false} RunConcat(s: State, xs: seq<Step>, ys: seq<Step>, all: seq<Step>)
    requires IsRun(s, xs) && IsRun(After(s, xs), ys) && all == xs + ys
    ensures IsRun(s, all) && After(s, all) == After(After(s, xs), ys)
    ensures Waited(s, all) == Waited(s, xs) + Waited(After(s, xs), ys)
    decreases |xs|
  {
    if xs == [] {
      assert all == ys;
    } else {
      assert all[1..] == xs[1..] + ys;
      RunConcat(Next(s, xs[0]), xs[1..], ys, all[1..]);
    }
  }

  /** The time a run spends waiting on reconnect timers that fire. */
  ghost function Waited(s: State, steps: seq<Step>): nat
    requires IsRun(s, steps)
    decreases |steps|
  {
    if steps == [] then 0
    else (if steps[0] == TimerFires then s.timer.value else 0) + Waited(Next(s, steps[0]), steps[1..])
  }

  /** The timer fires, the re-listen it starts is rejected, and its handler runs. */
  function FailedRelisten(generation: nat): seq<Step> {
    [TimerFires, Reject(generation + 1), Catch(generation + 1)]
  }

  function FailedRelistens(generation: nat, n: nat): seq<Step>
    decreases n
  {
    if n == 0 then [] else FailedRelisten(generation) + FailedRelistens(generation + 1, n - 1)
  }

  /** A dropped stream after `k` failed re-listens. */
  ghost predicate Retrying(s: State, k: nat) {
    && s.timer == Some(Delay(k)) && s.attempts == k && s.badge.status == Reconnecting
    && s.current == None && !s.terminal && Wants(s)
  }

  ghost predicate GivenUp(s: State) {
    s.timer == None && s.current == None && s.badge.status == Ended && !NewestInFlight(s)
  }

  /** After `k` failed re-listens: retrying while tries are left, then given up. */
  ghost predicate AfterFailures(s: State, k: nat) {
    if k <= RECONNECT_MAX_ATTEMPTS then Retrying(s, k) else GivenUp(s)
  }

  lemma OneFailedRelisten(s: State, k: nat)
    requires Numbered(s) && k <= RECONNECT_MAX_ATTEMPTS && AfterFailures(s, k)
    ensures
      var steps := FailedRelisten(s.generation);
      && IsRun(s, steps)
      && Waited(s, steps) == Delay(k)
      && After(s, steps).generation == s.generation + 1
      && Numbered(After(s, steps))
      && AfterFailures(After(s, steps), k + 1)
  {
    var steps := FailedRelisten(s.generation);
    var fired := Next(s, steps[0]);
    var rejected := Next(fired, steps[1]);
    var caught := Next(rejected, steps[2]);
    RunCons(rejected, steps[2], []);
    RunCons(fired, steps[1], [steps[2]]);
    RunCons(s, steps[0], [steps[1], steps[2]]);
    assert steps == [steps[0]] + ([steps[1]] + ([steps[2]] + []));
  }

  lemma {:induction false} FailuresGiveUp(s: State, k: nat, left: nat, end: nat)
    requires Numbered(s) && AfterFailures(s, k) && k + left == end == RECONNECT_MAX_ATTEMPTS + 1
    ensures IsRun(s, FailedRelistens(s.generation, left))
    ensures GivenUp(After(s, FailedRelistens(s.generation, left)))
    ensures Waited(s, FailedRelistens(s.generation, left)) == DelaysBetween(k, end)
    decreases left
  {
    if left > 0 {
      OneFailedRelisten(s, k);
      var next := After(s, FailedRelisten(s.generation));
      FailuresGiveUp(next, k + 1, left - 1, end);
      RelistenFirst(s, next, left);
      FirstDelay(k, end);
    }
  }

  lemma RelistenFirst(s: State, next: State, left: nat)
    requires IsRun(s, FailedRelisten(s.generation)) && After(s, FailedRelisten(s.generation)) == next
    requires left > 0 && next.generation == s.generation + 1 && IsRun(next, FailedRelistens(next.generation, left - 1))
    ensures
      var rest, all := FailedRelistens(next.generation, left - 1), FailedRelistens(s.generation, left);
      && IsRun(s, all) && After(s, all) == After(next, rest)
      && Waited(s, all) == Waited(s, FailedRelisten(s.generation)) + Waited(next, rest)
  {
    var first, rest := FailedRelisten(s.generation), FailedRelistens(next.generation, left - 1);
    RunConcat(s, first, rest, FailedRelistens(s.generation, left));
  }
}
