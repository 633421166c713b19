/** The health watchdog: its configuration, and its loop over ticks. */
module Watchdog {
  import opened Basics

  // ---- configuration ----

  /** Milliseconds, int64; zero or less means the default. */
  datatype HealthCheckConfig = HealthCheckConfig(interval: int, timeout: int, failThreshold: int, cooldown: int)

  /** Durations in nanoseconds, int64. */
  datatype HealthConfig = HealthConfig(interval: int, timeout: int, failThreshold: int, cooldown: int)

  const MILLISECOND := 1_000_000
  const SECOND := 1_000 * MILLISECOND

  predicate IsInt64(x: int) { -MAX_INT64 - 1 <= x <= MAX_INT64 }

  /** What int64 arithmetic makes of x. */
  function Wrap64(x: int): (r: int)
    ensures IsInt64(r)
    ensures IsInt64(x) ==> r == x
  {
    (x + MAX_INT64 + 1) % TWO_64 - MAX_INT64 - 1
  }

  const DEFAULT_HEALTH_CONFIG := HealthConfig(60 * SECOND, 10 * SECOND, 3, 300 * SECOND)

  function OrDefault(ms: int, otherwise: int): int { if ms > 0 then Wrap64(ms * MILLISECOND) else otherwise }

  /** A setting that is given and fits is used as it is; one that is not given is the default. */
  ghost predicate Honours(used: int, ms: int, otherwise: int) {
    && (ms <= 0 ==> used == otherwise)
    && (0 < ms <= MAX_INT64 / MILLISECOND ==> used == ms * MILLISECOND)
  }

  function NormalizeHealthConfig(cfg: Option<HealthCheckConfig>): (c: HealthConfig)
    ensures c.failThreshold >= 1
    ensures cfg.Some? ==>
              && Honours(c.interval, cfg.value.interval, 60 * SECOND)
                && Honours(c.timeout, cfg.value.timeout, 10 * SECOND)
              && Honours(c.cooldown, cfg.value.cooldown, 300 * SECOND)
              && c.failThreshold == if cfg.value.failThreshold > 0 then cfg.value.failThreshold else 3
    ensures cfg.None? ==> c == HealthConfig(60_000_000_000, 10_000_000_000, 3, 300_000_000_000)
  {
    if cfg.None? then DEFAULT_HEALTH_CONFIG
    else
      var g := cfg.value;
      var d := DEFAULT_HEALTH_CONFIG;
      HealthConfig(OrDefault(g.interval, d.interval), OrDefault(g.timeout, d.timeout),
                   if g.failThreshold > 0 then g.failThreshold else d.failThreshold, OrDefault(g.cooldown, d.cooldown))
  }

  /** A duration that is asked for is the one that is used if and only if it fits in int64 nanoseconds. */
  lemma DurationExactly(ms: int, otherwise: int)
    requires IsInt64(ms) && ms > 0
    ensures OrDefault(ms, otherwise) == ms * MILLISECOND <==> ms <= MAX_INT64 / MILLISECOND
  {
    assert ms <= MAX_INT64 / MILLISECOND <==> ms * MILLISECOND <= MAX_INT64;
  }

  /** Beyond that an interval can come out negative, which a ticker does not accept. */
  lemma LongIntervalTurnsNegative(otherwise: int)
    ensures OrDefault(MAX_INT64 / MILLISECOND + 1, otherwise) < 0
  {}

  // ---- the loop ----

  /** One tick: its time, what a probe would find then, and when a restart, if it comes to one, finishes. */
  datatype Tick = Tick(now: int, healthy: bool, finished: int)

  /** What the loop does with a tick. */
  datatype Outcome = Skipped | Up | Down | Restarted

  /** Failed probes in a row: since the last success or restart, skipped ticks apart. */
  function Streak(log: seq<Outcome>): nat {
    if log == [] then 0
    else match log[|log| - 1]
      case Skipped => Streak(log[..|log| - 1])
      case Down => Streak(log[..|log| - 1]) + 1
      case _ => 0
  }

  /** When the last restart finished. */
  function LastRestart(ticks: seq<Tick>, log: seq<Outcome>): Option<int>
    requires |log| <= |ticks|
  {
    if log == [] then None
    else if log[|log| - 1] == Restarted then Some(ticks[|log| - 1].finished)
    else LastRestart(ticks, log[..|log| - 1])
  }

  predicate Cooling(ticks: seq<Tick>, log: seq<Outcome>, cooldown: int)
    requires |log| < |ticks|
  {
    var last := LastRestart(ticks, log);
    last.Some? && ticks[|log|].now < last.value + cooldown
  }

  /** What becomes of the tick after `log`: it is skipped exactly while cooling down; otherwise it is a probe, and one
      that fails restarts the core exactly when it completes a row of `threshold`. */
  function Decided(ticks: seq<Tick>, log: seq<Outcome>, threshold: int, cooldown: int): Outcome
    requires |log| < |ticks|
  {
    if Cooling(ticks, log, cooldown) then Skipped
    else if ticks[|log|].healthy then Up
    else if Streak(log) + 1 >= threshold then Restarted
    else Down
  }

  /** Every tick of the log was decided so. */
  ghost predicate Follows(ticks: seq<Tick>, log: seq<Outcome>, threshold: int, cooldown: int)
    decreases |log|
  {
    && |log| <= |ticks|
    && (log == [] || (var before := log[..|log| - 1];
                      Follows(ticks, before, threshold, cooldown)
                        && log[|log| - 1] == Decided(ticks, before, threshold, cooldown)))
  }

  /** run, until the context is cancelled after the last tick. */
  method Run(ticks: seq<Tick>, threshold: int, cooldown: int) returns (log: seq<Outcome>, restarts: nat)
    ensures Follows(ticks, log, threshold, cooldown) && |log| == |ticks|
    ensures restarts == Count(log, Restarted)
  {
    var fails := 0;
    var cooldownUntil: Option<int> := None;
    log, restarts := [], 0;
    for i := 0 to |ticks|
      invariant |log| == i && Follows(ticks, log, threshold, cooldown)
      invariant fails == Streak(log)
      invariant cooldownUntil.Some? == LastRestart(ticks, log).Some?
      invariant cooldownUntil.Some? ==> cooldownUntil.value == LastRestart(ticks, log).value + cooldown
      invariant restarts == Count(log, Restarted)
    {
      var tick := ticks[i];
      if cooldownUntil.Some? && tick.now < cooldownUntil.value {
        LogGrows(ticks, log, Skipped, threshold, cooldown);
        log := log + [Skipped];
        continue;
      }
      if tick.healthy {
        LogGrows(ticks, log, Up, threshold, cooldown);
        fails := 0;
        log := log + [Up];
        continue;
      }
      fails := fails + 1;
      if fails >= threshold {
        LogGrows(ticks, log, Restarted, threshold, cooldown);
        restarts := restarts + 1;
        fails := 0;
        cooldownUntil := Some(tick.finished + cooldown);
        log := log + [Restarted];
      } else {
        LogGrows(ticks, log, Down, threshold, cooldown);
        log := log + [Down];
      }
    }
  }

  function Count(log: seq<Outcome>, o: Outcome): nat {
    if log == [] then 0 else Count(log[..|log| - 1], o) + if log[|log| - 1] == o then 1 else 0
  }

  lemma {:induction false} LogGrows(ticks: seq<Tick>, log: seq<Outcome>, o: Outcome, threshold: int, cooldown: int)
    requires Follows(ticks, log, threshold, cooldown) && |log| < |ticks|
             && o == Decided(ticks, log, threshold, cooldown)
    ensures Follows(ticks, log + [o], threshold, cooldown)
    ensures Streak(log + [o]) == if o == Skipped then Streak(log) else if o == Down then Streak(log) + 1 else 0
    ensures LastRestart(ticks, log + [o]) == if o == Restarted then Some(ticks[|log|].finished)
            else LastRestart(ticks, log)
    ensures Count(log + [o], Restarted) == Count(log, Restarted) + if o == Restarted then 1 else 0
  {
    assert (log + [o])[..|log|] == log;
  }

  // ---- what every run keeps ----

  lemma {:induction false} FollowsPrefix(ticks: seq<Tick>, log: seq<Outcome>, threshold: int, cooldown: int, n: nat)
    requires Follows(ticks, log, threshold, cooldown) && n <= |log|
    ensures Follows(ticks, log[..n], threshold, cooldown)
    decreases |log|
  {
    if n == |log| {
      assert log[..n] == log;
    } else {
      FollowsPrefix(ticks, log[..|log| - 1], threshold, cooldown, n);
      assert log[..|log| - 1][..n] == log[..n];
    }
  }

  /** Each tick, in terms of what came before it. */
  lemma {:induction false} DecidedAt(ticks: seq<Tick>, log: seq<Outcome>, threshold: int, cooldown: int, i: nat)
    requires Follows(ticks, log, threshold, cooldown) && i < |log|
    ensures Follows(ticks, log[..i], threshold, cooldown) && log[i] == Decided(ticks, log[..i], threshold, cooldown)
  {
    FollowsPrefix(ticks, log, threshold, cooldown, i + 1);
    assert log[..i + 1][..i] == log[..i];
  }

  /** The failure count stays below the threshold. */
  lemma {:induction false} StreakBelowThreshold(ticks: seq<Tick>, log: seq<Outcome>, threshold: int, cooldown: int)
    requires Follows(ticks, log, threshold, cooldown) && threshold >= 1
    ensures Streak(log) < threshold
    decreases |log|
  {
    if log != [] {
      StreakBelowThreshold(ticks, log[..|log| - 1], threshold, cooldown);
    }
  }

  function Times(n: nat, k: int): int { n * k }

  lemma NoRestarts(k: int)
    ensures Times(0, k) == 0
  {}

  /** One more tick, in numbers: restarts, failed probes short of one, the row, and the threshold. */
  lemma OneMore(restarts: nat, downs: nat, row: nat, k: int)
    requires Times(restarts, k) + row <= restarts + downs
    ensures row + 1 >= k ==> Times(restarts + 1, k) <= (restarts + 1) + downs
  {
    assert (restarts + 1) * k == restarts * k + k;
  }

  /** What the last tick changed. */
  lemma {:induction false} LastTick(ticks: seq<Tick>, log: seq<Outcome>, threshold: int, cooldown: int)
    requires Follows(ticks, log, threshold, cooldown) && log != []
    ensures var before, last := log[..|log| - 1], log[|log| - 1];
            && (last == Restarted ==> Streak(before) + 1 >= threshold)
            && Streak(log) == (if last == Skipped then Streak(before) else if last == Down then Streak(before) + 1
                               else 0)
            && Count(log, Restarted) == Count(before, Restarted) + (if last == Restarted then 1 else 0)
            && Count(log, Down) == Count(before, Down) + (if last == Down then 1 else 0)
  {}

  /** Every restart uses up `threshold` failed probes of its own. */
  lemma {:induction false} RestartsCostFailures(ticks: seq<Tick>, log: seq<Outcome>, threshold: int, cooldown: int)
    requires Follows(ticks, log, threshold, cooldown) && threshold >= 1
    ensures Times(Count(log, Restarted), threshold) + Streak(log) <= Count(log, Restarted) + Count(log, Down)
    decreases |log|
  {
    if log == [] {
      NoRestarts(threshold);
    } else {
      hide Count, Streak, Times;
      var before := log[..|log| - 1];
      LastTick(ticks, log, threshold, cooldown);
      RestartsCostFailures(ticks, before, threshold, cooldown);
      OneMore(Count(before, Restarted), Count(before, Down), Streak(before), threshold);
    }
  }

  lemma CountSnoc(log: seq<Outcome>, last: Outcome, o: Outcome)
    ensures Count(log + [last], o) == Count(log, o) + if last == o then 1 else 0
  {
    assert (log + [last])[..|log|] == log;
  }

  /** The current row of failures, from where it starts: no success and no restart in it. */
  lemma {:induction false} StreakRow(log: seq<Outcome>) returns (start: nat)
    ensures start <= |log| && Count(log[start..], Down) == Streak(log)
    ensures forall i :: start <= i < |log| ==> log[i] == Down || log[i] == Skipped
    decreases |log|
  {
    if log == [] {
      start := 0;
    } else {
      var before := log[..|log| - 1];
      if log[|log| - 1] == Up || log[|log| - 1] == Restarted {
        start := |log|;
      } else {
        start := StreakRow(before);
        assert log[start..] == before[start..] + [log[|log| - 1]];
        CountSnoc(before[start..], log[|log| - 1], Down);
      }
    }
  }

  /** A restart completes a row of exactly `threshold` failed probes, with no success and no other restart between. */
  lemma RestartEndsARow(ticks: seq<Tick>, log: seq<Outcome>, threshold: int, cooldown: int, i: nat) returns (start: nat)
    requires Follows(ticks, log, threshold, cooldown) && threshold >= 1 && i < |log| && log[i] == Restarted
    ensures start <= i && !ticks[i].healthy
    ensures forall j :: start <= j < i ==> log[j] == Down || log[j] == Skipped
    ensures Count(log[start..i], Down) + 1 == threshold
  {
    DecidedAt(ticks, log, threshold, cooldown, i);
    StreakBelowThreshold(ticks, log[..i], threshold, cooldown);
    start := StreakRow(log[..i]);
    assert log[..i][start..] == log[start..i];
  }

  lemma {:induction false} LastRestartAfter(ticks: seq<Tick>, log: seq<Outcome>, r: nat)
    requires |log| <= |ticks| && r < |log| && log[r] == Restarted
    requires forall i, j :: 0 <= i < j < |ticks| ==> ticks[i].finished <= ticks[j].finished
    ensures LastRestart(ticks, log).Some? && LastRestart(ticks, log).value >= ticks[r].finished
    decreases |log|
  {
    if log[|log| - 1] != Restarted { LastRestartAfter(ticks, log[..|log| - 1], r); }
  }

  /** Under a clock that does not run backwards, every probe after a restart comes at least `cooldown` after the
      restart finished. */
  lemma ProbesWaitForCooldown(ticks: seq<Tick>, log: seq<Outcome>, threshold: int, cooldown: int, r: nat, i: nat)
    requires Follows(ticks, log, threshold, cooldown) && r < i < |log| && log[r] == Restarted && log[i] != Skipped
    requires forall j, k :: 0 <= j < k < |ticks| ==> ticks[j].finished <= ticks[k].finished
    ensures ticks[i].now >= ticks[r].finished + cooldown
  {
    DecidedAt(ticks, log, threshold, cooldown, i);
    assert log[..i][r] == Restarted;
    LastRestartAfter(ticks, log[..i], r);
  }

  // ---- what becomes of each tick ----

  /** r is the last restart before tick i. */
  predicate LatestRestart(log: seq<Outcome>, i: nat, r: nat) {
    r < i <= |log| && log[r] == Restarted && forall j :: r < j < i ==> log[j] != Restarted
  }

  /** Tick i comes before the cooldown after the last restart is over. */
  ghost predicate CoolingAt(ticks: seq<Tick>, log: seq<Outcome>, cooldown: int, i: nat)
    requires i < |ticks|
  {
    exists r: nat :: LatestRestart(log, i, r) && r < |ticks| && ticks[i].now < ticks[r].finished + cooldown
  }

  /** The failed probes since the last success or restart before tick i. */
  function FailuresBefore(log: seq<Outcome>, i: nat): set<nat>
    requires i <= |log|
  {
    set j: nat | j < i && log[j] == Down && forall k :: j < k < i ==> log[k] == Down || log[k] == Skipped
  }

  lemma {:induction false} LastRestartIs(ticks: seq<Tick>, log: seq<Outcome>, i: nat)
    requires i <= |log| <= |ticks|
    ensures var last := LastRestart(ticks, log[..i]);
            && (last.None? <==> forall r: nat :: r < i ==> log[r] != Restarted)
            && (forall r: nat :: LatestRestart(log, i, r) ==> last == Some(ticks[r].finished))
            && (last.Some? ==> exists r: nat :: LatestRestart(log, i, r))
    decreases i
  {
    if i > 0 {
      assert log[..i][..i - 1] == log[..i - 1];
      LastRestartIs(ticks, log, i - 1);
      if log[i - 1] == Restarted {
        assert LatestRestart(log, i, i - 1);
      } else if LastRestart(ticks, log[..i]).Some? {
        var r: nat :| LatestRestart(log, i - 1, r);
        assert LatestRestart(log, i, r);
      }
      forall r: nat | LatestRestart(log, i, r) ensures r == i - 1 || LatestRestart(log, i - 1, r) {}
    }
  }

  lemma {:induction false} StreakIs(log: seq<Outcome>, i: nat)
    requires i <= |log|
    ensures Streak(log[..i]) == |FailuresBefore(log, i)|
    decreases i
  {
    if i > 0 {
      assert log[..i][..i - 1] == log[..i - 1];
      StreakIs(log, i - 1);
      var before, now := FailuresBefore(log, i - 1), FailuresBefore(log, i);
      match log[i - 1]
      case Skipped => assert now == before;
      case Down =>
        assert i - 1 !in before;
        assert now == before + {i - 1};
      case _ => assert now == {};
    } else {
      assert FailuresBefore(log, 0) == {};
    }
  }

  /** Each tick exactly: skipped if it comes before the cooldown is over; a success if the probe succeeds; a restart if
      it fails and with the failures before it completes a row of `threshold`; and a failure otherwise. */
  lemma OutcomesExactly(ticks: seq<Tick>, log: seq<Outcome>, threshold: int, cooldown: int, i: nat)
    requires Follows(ticks, log, threshold, cooldown) && i < |log|
    ensures log[i] == Skipped <==> CoolingAt(ticks, log, cooldown, i)
    ensures log[i] == Up <==> !CoolingAt(ticks, log, cooldown, i) && ticks[i].healthy
    ensures log[i] == Restarted <==>
            !CoolingAt(ticks, log, cooldown, i) && !ticks[i].healthy && |FailuresBefore(log, i)| + 1 >= threshold
  {
    DecidedAt(ticks, log, threshold, cooldown, i);
    LastRestartIs(ticks, log, i);
    StreakIs(log, i);
    assert CoolingAt(ticks, log, cooldown, i) <==> Cooling(ticks, log[..i], cooldown);
  }
}
