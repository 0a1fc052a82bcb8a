/** Safety of every run of the protocol: loss bounds, the cooldown, the counters, and one place for
    every trade. */
module ProtocolSafety {
  import opened Arith
  import opened Risk
  import opened Confirmation
  import opened Protocol

  // ------------------------------------------------------------------
  // Counters
  // ------------------------------------------------------------------

  /** Until the first day rollover the counters are exact: pending counts the submitted trades not
      yet recorded, including the evicted ones, and the outcomes add up to the recorded ones. */
  ghost predicate CounterInv(s: System) {
    s.rollovers == 0 ==>
      && s.risk.pending + |s.recorded| == |s.submitted|
      && s.risk.succeeded + s.risk.failedOnchain == |s.recorded|
  }

  lemma BalancedSizes(submitted: seq<Trade>, twice: seq<Trade>, channel: seq<Trade>, pending: seq<Trade>, recorded: seq<Trade>, evicted: seq<Trade>)
    requires Balanced(submitted, twice, channel, pending, recorded, evicted)
    ensures |submitted| + |twice| == |channel| + |pending| + |recorded| + |evicted|
  {
    assert |multiset(submitted) + multiset(twice)| == |submitted| + |twice|;
    assert |multiset(channel) + multiset(pending) + multiset(recorded) + multiset(evicted)| == |channel| + |pending| + |recorded| + |evicted|;
  }

  lemma StepKeepsCounters(s: System, step: Step, limits: Limits)
    requires QueueInv(s) && CounterInv(s) && Enabled(s, step, limits)
    ensures CounterInv(Next(s, step, limits))
  {
    hide Balanced;
    BalancedSizes(s.submitted, AwaitingRemoval(s.pending, s.task), s.channel, s.pending, s.recorded, s.evicted);
  }

  // ------------------------------------------------------------------
  // Everything ever lost
  // ------------------------------------------------------------------

  /** What k windows between resets can lose when every trip happened at an exposure of at most w. */
  ghost function Budget(limits: Limits, k: nat, w: nat): real {
    k as real * Window(limits, w)
  }

  ghost function Window(limits: Limits, w: nat): real {
    limits.cfg.maxDailyLossSol + LossOf(limits, w)
  }

  lemma WindowGrows(limits: Limits, v: nat, w: nat)
    requires limits.Valid() && v <= w
    ensures 0.0 <= LossOf(limits, v) <= LossOf(limits, w)
    ensures 0.0 <= Window(limits, v) <= Window(limits, w)
  {
    RealMulSign(limits.maxTradeLoss, v as real);
    RealMulMono(v as real, w as real, limits.maxTradeLoss);
  }

  lemma BudgetGrows(limits: Limits, k: nat, v: nat, w: nat, more: nat)
    requires limits.Valid() && v <= w
    ensures Budget(limits, k, v) <= Budget(limits, k + more, w)
    ensures 0 < more ==> Budget(limits, k, v) + Window(limits, w) <= Budget(limits, k + more, w)
  {
    hide Window;
    WindowGrows(limits, v, w);
    BudgetSplits(limits, k, more, w);
    BudgetOrder(k as real, more as real, Window(limits, v), Window(limits, w));
  }

  lemma BudgetSplits(limits: Limits, k: nat, more: nat, w: nat)
    ensures Budget(limits, k + more, w) == k as real * Window(limits, w) + more as real * Window(limits, w)
  {
    hide Window;
    SumTimes(k as real, more as real, Window(limits, w));
  }

  lemma SumTimes(a: real, b: real, c: real)
    ensures (a + b) * c == a * c + b * c
  {
  }

  lemma BudgetOrder(k: real, more: real, small: real, large: real)
    requires 0.0 <= k && 0.0 <= more && 0.0 <= small <= large
    ensures k * small <= k * large + more * large
    ensures 1.0 <= more ==> k * small + large <= k * large + more * large
  {
    RealMulMono(small, large, k);
    RealMulSign(more, large);
    if 1.0 <= more {
      RealMulMono(1.0, more, large);
    }
  }

  function CooldownNanos(k: nat): nat {
    k * (BREAKER_COOLDOWN_SECS * NANOS_PER_SEC)
  }

  /** What the resets of the daily figure have forgotten is within the budget of as many windows,
      and every cooldown reset took its 1800 seconds. */
  ghost predicate TotalInv(s: System, limits: Limits, start: nat) {
    && s.risk.totalNet - s.risk.dailyPnl >= -Budget(limits, s.cooldowns + s.rollovers, s.worstExposure)
    && start + CooldownNanos(s.cooldowns) <= s.clock
    && (s.risk.breaker ==> s.risk.triggeredAt.Some? && start + CooldownNanos(s.cooldowns) <= s.risk.triggeredAt.value)
  }

  /** Within one window, from a reset to the next. */
  lemma DailyWithinWindow(s: System, limits: Limits)
    requires BreakerInv(s, limits) && limits.Valid()
    ensures s.risk.dailyPnl >= -Window(limits, s.worstExposure)
  {
    hide LossOf;
    if s.risk.breaker {
      WindowGrows(limits, s.sinceTrip, s.worstExposure);
    } else {
      WindowGrows(limits, 0, s.worstExposure);
    }
  }

  lemma CooldownTakesItsTime(since: nat, now: nat)
    requires ElapsedSecs(since, now) >= BREAKER_COOLDOWN_SECS
    ensures since + CooldownNanos(1) <= now
  {
    if since <= now {
      DivCharacter(now - since, NANOS_PER_SEC, BREAKER_COOLDOWN_SECS);
    }
  }

  lemma CheckKeepsTotal(s: System, opp: Opportunity, limits: Limits, start: nat)
    requires BreakerInv(s, limits) && TotalInv(s, limits, start) && limits.Valid() && Enabled(s, CheckOpportunity(opp), limits)
    ensures TotalInv(Next(s, CheckOpportunity(opp), limits), limits, start)
  {
    hide Budget;
    hide Window;
    hide LossOf;
    ProjectedLossNeverFires(s.risk, opp, limits.cfg, s.clock, s.today);
    if !Blocked(s.risk, s.clock) {
      var more := (if s.risk.breaker then 1 else 0) + (if s.today != s.risk.currentDate then 1 else 0);
      DailyWithinWindow(s, limits);
      BudgetGrows(limits, s.cooldowns + s.rollovers, s.worstExposure, s.worstExposure, more);
      if s.risk.breaker {
        CooldownTakesItsTime(s.risk.triggeredAt.value, s.clock);
        assert CooldownNanos(s.cooldowns + 1) == CooldownNanos(s.cooldowns) + CooldownNanos(1);
      }
    }
  }

  lemma RecordKeepsTotal(s: System, extracted: Option<real>, limits: Limits, start: nat)
    requires BreakerInv(s, limits) && TotalInv(s, limits, start) && limits.Valid() && Enabled(s, RecordStatus(extracted), limits)
    ensures TotalInv(Next(s, RecordStatus(extracted), limits), limits, start)
  {
    hide Budget;
    hide LossOf;
    hide CooldownNanos;
    hide BookedPnl;
    var t := Next(s, RecordStatus(extracted), limits);
    assert t.cooldowns == s.cooldowns && t.rollovers == s.rollovers && s.worstExposure <= t.worstExposure;
    BudgetGrows(limits, s.cooldowns + s.rollovers, s.worstExposure, t.worstExposure, 0);
  }

  lemma StepKeepsTotal(s: System, step: Step, limits: Limits, start: nat)
    requires BreakerInv(s, limits) && TotalInv(s, limits, start) && limits.Valid() && Enabled(s, step, limits)
    ensures TotalInv(Next(s, step, limits), limits, start)
  {
    hide Budget;
    hide LossOf;
    hide CooldownNanos;
    match step
    case CheckOpportunity(opp) => CheckKeepsTotal(s, opp, limits, start);
    case RecordStatus(extracted) => RecordKeepsTotal(s, extracted, limits, start);
    case _ =>
  }

  // ------------------------------------------------------------------
  // Runs
  // ------------------------------------------------------------------

  ghost predicate Inv(s: System, limits: Limits, start: nat) {
    QueueInv(s) && BreakerInv(s, limits) && CounterInv(s) && TotalInv(s, limits, start)
  }

  lemma StartInv(clock: nat, today: int, limits: Limits)
    requires limits.Valid()
    ensures Inv(Start(clock, today), limits, clock)
  {
    assert Budget(limits, 0, 0) == 0.0;
  }

  lemma {:induction false} RunKeepsInv(s: System, steps: seq<Step>, limits: Limits, start: nat)
    requires Inv(s, limits, start) && limits.Valid() && Runnable(s, steps, limits)
    ensures Inv(Exec(s, steps, limits), limits, start)
    decreases |steps|
  {
    hide QueueInv;
    hide BreakerInv;
    hide CounterInv;
    hide TotalInv;
    hide Next;
    hide Enabled;
    if steps != [] {
      RunKeepsInv(s, Front(steps), limits, start);
      var t := Exec(s, Front(steps), limits);
      StepKeepsQueue(t, Last(steps), limits);
      StepKeepsBreaker(t, Last(steps), limits);
      StepKeepsCounters(t, Last(steps), limits);
      StepKeepsTotal(t, Last(steps), limits, start);
    }
  }

  /** The states a freshly started bot can reach. */
  lemma ReachableInv(clock: nat, today: int, steps: seq<Step>, limits: Limits)
    requires limits.Valid() && Runnable(Start(clock, today), steps, limits)
    ensures Inv(Exec(Start(clock, today), steps, limits), limits, clock)
  {
    StartInv(clock, today, limits);
    RunKeepsInv(Start(clock, today), steps, limits, clock);
  }

  // ------------------------------------------------------------------
  // Loss
  // ------------------------------------------------------------------

  /** The breaker, clear after the first k steps, is tripped by the next one and set ever since. */
  ghost predicate TripsAt(start: System, steps: seq<Step>, limits: Limits, k: nat)
    requires Runnable(start, steps, limits)
  {
    && k < |steps|
    && Runnable(start, steps[..k], limits) && !Exec(start, steps[..k], limits).risk.breaker
    && (forall j :: k < j <= |steps| ==> SetAfter(start, steps, limits, j))
  }

  ghost predicate SetAfter(start: System, steps: seq<Step>, limits: Limits, j: nat)
    requires j <= |steps|
  {
    Runnable(start, steps[..j], limits) && Exec(start, steps[..j], limits).risk.breaker
  }

  /** A step leaves the exposure at the trip alone while the breaker stays set, and the step that
      sets it notes the exposure before it. */
  lemma StepNotesExposure(s: System, step: Step, limits: Limits)
    requires BreakerInv(s, limits) && limits.Valid() && Enabled(s, step, limits)
    ensures var t := Next(s, step, limits);
      t.risk.breaker ==> t.exposureAtTrip == if s.risk.breaker then s.exposureAtTrip else Exposure(s)
  {
    hide LossOf;
    match step
    case CheckOpportunity(opp) => ProjectedLossNeverFires(s.risk, opp, limits.cfg, s.clock, s.today);
    case _ =>
  }

  /** The history's exposure is the one of the state the latest trip happened in. */
  lemma {:induction false} TripExposure(clock: nat, today: int, steps: seq<Step>, limits: Limits) returns (k: nat)
    requires limits.Valid() && Runnable(Start(clock, today), steps, limits)
    requires Exec(Start(clock, today), steps, limits).risk.breaker
    ensures TripsAt(Start(clock, today), steps, limits, k)
    ensures Exec(Start(clock, today), steps, limits).exposureAtTrip == Exposure(Exec(Start(clock, today), steps[..k], limits))
    decreases |steps|
  {
    hide Next;
    hide Enabled;
    hide Exposure;
    var start, front := Start(clock, today), Front(steps);
    var before := Exec(start, front, limits);
    ReachableInv(clock, today, front, limits);
    StepNotesExposure(before, Last(steps), limits);
    assert steps[..|steps|] == steps && front == steps[..|steps| - 1];
    if before.risk.breaker {
      k := TripExposure(clock, today, front, limits);
      assert front[..k] == steps[..k];
      forall j | k < j <= |steps|
        ensures SetAfter(start, steps, limits, j)
      {
        if j <= |front| {
          assert front[..j] == steps[..j];
          assert SetAfter(start, front, limits, j);
        }
      }
    } else {
      k := |steps| - 1;
      assert SetAfter(start, steps, limits, |steps|);
    }
  }

  /** In every run in which each confirmed trade loses at most L: with a clear breaker the day's
      figure is at least -M, and with a set one it is at least -M - L * n, where n trades were past
      the check, in the channel or queued unrecorded in the state where the breaker tripped. */
  lemma DailyLossBounded(clock: nat, today: int, steps: seq<Step>, limits: Limits) returns (k: nat)
    requires limits.Valid() && Runnable(Start(clock, today), steps, limits)
    ensures var s := Exec(Start(clock, today), steps, limits);
      && (!s.risk.breaker ==> s.risk.dailyPnl >= -limits.cfg.maxDailyLossSol)
      && (s.risk.breaker ==>
            && TripsAt(Start(clock, today), steps, limits, k)
            && (var n := Exposure(Exec(Start(clock, today), steps[..k], limits));
                && 1 <= n
                && s.risk.dailyPnl >= -limits.cfg.maxDailyLossSol - limits.maxTradeLoss * n as real))
  {
    hide Exec;
    hide TripsAt;
    hide QueueInv;
    hide CounterInv;
    hide TotalInv;
    hide Exposure;
    var s := Exec(Start(clock, today), steps, limits);
    ReachableInv(clock, today, steps, limits);
    k := 0;
    if s.risk.breaker {
      k := TripExposure(clock, today, steps, limits);
      LossWhileTripped(s, limits);
    }
  }

  lemma LossWhileTripped(s: System, limits: Limits)
    requires BreakerInv(s, limits) && limits.Valid() && s.risk.breaker
    ensures 1 <= s.exposureAtTrip
    ensures s.risk.dailyPnl >= -limits.cfg.maxDailyLossSol - limits.maxTradeLoss * s.exposureAtTrip as real
  {
    WindowGrows(limits, s.sinceTrip, s.exposureAtTrip);
  }

  /** Over a whole run: the total result is at least -(resets + 1) windows of M + L * n, n being the
      largest exposure at a trip, and there is at most one cooldown reset per 1800 seconds. */
  lemma TotalLossBounded(clock: nat, today: int, steps: seq<Step>, limits: Limits)
    requires limits.Valid() && Runnable(Start(clock, today), steps, limits)
    ensures var s := Exec(Start(clock, today), steps, limits);
      && s.risk.totalNet >= -((s.cooldowns + s.rollovers + 1) as real
                              * (limits.cfg.maxDailyLossSol + limits.maxTradeLoss * s.worstExposure as real))
      && s.cooldowns * BREAKER_COOLDOWN_SECS <= ElapsedSecs(clock, s.clock)
  {
    hide Exec;
    hide BreakerInv;
    hide QueueInv;
    hide CounterInv;
    var s := Exec(Start(clock, today), steps, limits);
    ReachableInv(clock, today, steps, limits);
    DailyWithinWindow(s, limits);
    LossOfAllWindows(s, limits, clock);
  }

  lemma LossOfAllWindows(s: System, limits: Limits, start: nat)
    requires TotalInv(s, limits, start) && limits.Valid() && s.risk.dailyPnl >= -Window(limits, s.worstExposure)
    ensures s.risk.totalNet >= -((s.cooldowns + s.rollovers + 1) as real
                                 * (limits.cfg.maxDailyLossSol + limits.maxTradeLoss * s.worstExposure as real))
    ensures s.cooldowns * BREAKER_COOLDOWN_SECS <= ElapsedSecs(start, s.clock)
  {
    hide Budget;
    hide Window;
    BudgetGrows(limits, s.cooldowns + s.rollovers, s.worstExposure, s.worstExposure, 1);
    BudgetIsProduct(limits, s.cooldowns + s.rollovers + 1, s.worstExposure);
    DivCharacter(s.clock - start, NANOS_PER_SEC, s.cooldowns * BREAKER_COOLDOWN_SECS);
  }

  lemma BudgetIsProduct(limits: Limits, k: nat, w: nat)
    ensures Budget(limits, k, w) == k as real * (limits.cfg.maxDailyLossSol + limits.maxTradeLoss * w as real)
  {
  }

  // ------------------------------------------------------------------
  // Checks
  // ------------------------------------------------------------------

  /** From any reachable state: a check never trips the breaker, it succeeds exactly when the
      breaker lets it through and the trade meets both thresholds, and when it does the latest trip
      is at least 1800 seconds old. */
  lemma AcceptedCheckIsCooled(clock: nat, today: int, steps: seq<Step>, limits: Limits, opp: Opportunity)
    requires limits.Valid() && Runnable(Start(clock, today), steps, limits)
    requires Enabled(Exec(Start(clock, today), steps, limits), CheckOpportunity(opp), limits)
    ensures var s := Exec(Start(clock, today), steps, limits);
      var t := Next(s, CheckOpportunity(opp), limits);
      && (t.risk.breaker ==> t.risk == s.risk)
      && (t.cleared.Some? <==> !Blocked(s.risk, s.clock) && opp.netProfitSol >= limits.cfg.minProfitThresholdSol
                               && opp.investmentSol <= limits.cfg.maxSingleInvestmentSol)
      && (t.cleared.Some? ==> s.lastTrip.None? || ElapsedSecs(s.lastTrip.value, s.clock) >= BREAKER_COOLDOWN_SECS)
      && (s.risk.breaker <==> s.risk.triggeredAt.Some?)
  {
    hide QueueInv;
    hide TotalInv;
    hide Exec;
    hide LossOf;
    var s := Exec(Start(clock, today), steps, limits);
    ReachableInv(clock, today, steps, limits);
    ProjectedLossNeverFires(s.risk, opp, limits.cfg, s.clock, s.today);
  }

  // ------------------------------------------------------------------
  // Accounting
  // ------------------------------------------------------------------

  lemma {:induction false} NumberedCounts(submitted: seq<Trade>, t: Trade)
    requires Numbered(submitted)
    ensures multiset(submitted)[t] == if t in submitted then 1 else 0
    decreases |submitted|
  {
    if submitted != [] {
      var n := |submitted| - 1;
      assert submitted == submitted[..n] + [submitted[n]];
      NumberedCounts(submitted[..n], t);
      if t in submitted[..n] {
        var i :| 0 <= i < n && submitted[i] == t;
      }
    }
  }

  /** In every reachable state each submitted trade is in exactly one place: in the channel, queued
      and not yet recorded, recorded (so recorded at most once), or evicted. */
  lemma EveryTradeInOnePlace(clock: nat, today: int, steps: seq<Step>, limits: Limits, t: Trade)
    requires limits.Valid() && Runnable(Start(clock, today), steps, limits)
    ensures var s := Exec(Start(clock, today), steps, limits);
      && TaskSound(s.pending, s.task)
      && (var waiting := multiset(s.pending) - multiset(AwaitingRemoval(s.pending, s.task));
          multiset(s.channel)[t] + waiting[t] + multiset(s.recorded)[t] + multiset(s.evicted)[t]
          == if t in s.submitted then 1 else 0)
  {
    hide Exec;
    hide BreakerInv;
    hide CounterInv;
    hide TotalInv;
    var s := Exec(Start(clock, today), steps, limits);
    ReachableInv(clock, today, steps, limits);
    NumberedCounts(s.submitted, t);
    RemovesExactly(s.pending, ToRemove(s));
    PlaceCounts(s, t);
  }

  lemma PlaceCounts(s: System, t: Trade)
    requires QueueInv(s)
    requires multiset(AwaitingRemoval(s.pending, s.task)) <= multiset(s.pending)
    ensures multiset(s.submitted)[t]
         == multiset(s.channel)[t] + (multiset(s.pending) - multiset(AwaitingRemoval(s.pending, s.task)))[t]
            + multiset(s.recorded)[t] + multiset(s.evicted)[t]
  {
    var twice := multiset(AwaitingRemoval(s.pending, s.task));
    assert (multiset(s.submitted) + twice)[t]
        == (multiset(s.channel) + multiset(s.pending) + multiset(s.recorded) + multiset(s.evicted))[t];
  }

  /** After every polling cycle the queue holds at most 128 entries. */
  lemma CycleBoundsQueue(s: System, step: Step, limits: Limits)
    requires QueueInv(s) && Enabled(s, step, limits) && (step.Finish? || step.FailPoll?)
    ensures |Next(s, step, limits).pending| <= MAX_PENDING && Next(s, step, limits).task == Collecting
  {
    hide Balanced;
    if step.Finish? {
      EvictionSplits(RemoveDescending(s.pending, s.task.toRemove));
    } else {
      EvictionSplits(s.pending);
    }
  }

  /** The tracker's counters in a run without a day rollover: pending trades are those in flight plus
      the evicted ones, which stay pending for good. */
  lemma PendingCountsEvictedTrades(clock: nat, today: int, steps: seq<Step>, limits: Limits)
    requires limits.Valid() && Runnable(Start(clock, today), steps, limits)
    ensures var s := Exec(Start(clock, today), steps, limits);
      s.rollovers == 0 ==>
        && s.risk.pending == |s.channel| + |s.pending| - |ToRemove(s)| + |s.evicted|
        && s.risk.succeeded + s.risk.failedOnchain == |s.recorded|
  {
    hide Exec;
    hide BreakerInv;
    hide TotalInv;
    var s := Exec(Start(clock, today), steps, limits);
    ReachableInv(clock, today, steps, limits);
    BalancedSizes(s.submitted, AwaitingRemoval(s.pending, s.task), s.channel, s.pending, s.recorded, s.evicted);
  }
}
