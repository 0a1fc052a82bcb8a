/** Two more views of the protocol: an uninterrupted polling cycle is what the confirmation task's
    methods compute, and the daily loss limit is a limit per cooldown window, not per day. */
module ProtocolLimits {
  import opened Arith
  import opened Risk
  import opened Confirmation
  import opened Protocol
  import opened ProtocolSafety

  // ------------------------------------------------------------------
  // An uninterrupted cycle
  // ------------------------------------------------------------------

  /** The step that deals with status i of a poll. */
  function StatusStep(poll: Poll, i: nat): Step
    requires i < |poll.statuses| == |poll.extracted|
  {
    if poll.statuses[i].Some? then RecordStatus(poll.extracted[i]) else SkipStatus
  }

  function StatusSteps(poll: Poll, n: nat): seq<Step>
    requires n <= |poll.statuses| == |poll.extracted|
  {
    if n == 0 then [] else StatusSteps(poll, n - 1) + [StatusStep(poll, n - 1)]
  }

  ghost predicate LossesWithin(pending: seq<Trade>, poll: Poll, limits: Limits)
    requires PollFor(poll, |pending|)
  {
    forall i :: 0 <= i < |poll.statuses| && poll.statuses[i].Some? ==>
      BookedPnl(pending[i], poll.statuses[i].value, poll.extracted[i]) >= -limits.maxTradeLoss
  }

  /** All answers of a poll recorded at one instant with nothing in between. */
  ghost predicate Midway(s: System, t: System, poll: Poll, limits: Limits, n: nat)
    requires PollFor(poll, |s.pending|) && n <= |poll.statuses|
  {
    && t.risk == RecordFirst(s.risk, s.pending, poll, limits.cfg, n)
    && t.task == Processing(poll.statuses, n, Processed(poll.statuses, n))
    && t.pending == s.pending && t.channel == s.channel && t.clock == s.clock
  }

  lemma {:induction false} StatusesRun(s: System, poll: Poll, limits: Limits, n: nat)
    requires PollFor(poll, |s.pending|) && n <= |poll.statuses| && LossesWithin(s.pending, poll, limits)
    requires Enabled(s, AnswerPoll(poll.statuses), limits)
    requires forall i :: 0 <= i < |poll.times| ==> poll.times[i] == s.clock
    ensures Runnable(s, [AnswerPoll(poll.statuses)] + StatusSteps(poll, n), limits)
    ensures Midway(s, Exec(s, [AnswerPoll(poll.statuses)] + StatusSteps(poll, n), limits), poll, limits, n)
    decreases n
  {
    hide Runnable;
    hide Exec;
    hide Enabled;
    hide Next;
    hide Midway;
    hide StatusStep;
    hide StatusSteps;
    hide LossesWithin;
    if n == 0 {
      AnswerRuns(s, poll, limits);
    } else {
      var steps := [AnswerPoll(poll.statuses)] + StatusSteps(poll, n - 1);
      StatusesRun(s, poll, limits, n - 1);
      OneStatus(s, Exec(s, steps, limits), poll, limits, n);
      RunExtends(s, steps, StatusStep(poll, n - 1), limits);
      OneMoreStep(poll, n);
    }
  }

  lemma AnswerRuns(s: System, poll: Poll, limits: Limits)
    requires PollFor(poll, |s.pending|) && Enabled(s, AnswerPoll(poll.statuses), limits)
    ensures Runnable(s, [AnswerPoll(poll.statuses)] + StatusSteps(poll, 0), limits)
    ensures Midway(s, Exec(s, [AnswerPoll(poll.statuses)] + StatusSteps(poll, 0), limits), poll, limits, 0)
  {
    RunExtends(s, [], AnswerPoll(poll.statuses), limits);
    assert [AnswerPoll(poll.statuses)] + StatusSteps(poll, 0) == [] + [AnswerPoll(poll.statuses)];
  }

  lemma OneMoreStep(poll: Poll, n: nat)
    requires 0 < n <= |poll.statuses| == |poll.extracted|
    ensures [AnswerPoll(poll.statuses)] + StatusSteps(poll, n - 1) + [StatusStep(poll, n - 1)] == [AnswerPoll(poll.statuses)] + StatusSteps(poll, n)
  {
    hide StatusStep;
  }

  lemma OneStatus(s: System, t: System, poll: Poll, limits: Limits, n: nat)
    requires PollFor(poll, |s.pending|) && 0 < n <= |poll.statuses| && LossesWithin(s.pending, poll, limits)
    requires Enabled(s, AnswerPoll(poll.statuses), limits)
    requires forall i :: 0 <= i < |poll.times| ==> poll.times[i] == s.clock
    requires Midway(s, t, poll, limits, n - 1)
    ensures Enabled(t, StatusStep(poll, n - 1), limits)
    ensures Midway(s, Next(t, StatusStep(poll, n - 1), limits), poll, limits, n)
  {
    hide Confirm;
    if poll.statuses[n - 1].Some? {
      NoteKeepsQueues(t, Confirm(t.risk, PnlAt(t, poll.extracted[n - 1]), poll.statuses[n - 1].value, limits.cfg, t.clock));
    }
  }

  /** A cycle run without interruption leaves the tracker and the queue as ProcessStatuses followed
      by EvictStale do. */
  lemma CycleIsProcessAndEvict(s: System, poll: Poll, limits: Limits)
    requires PollFor(poll, |s.pending|) && LossesWithin(s.pending, poll, limits)
    requires Enabled(s, AnswerPoll(poll.statuses), limits)
    requires forall i :: 0 <= i < |poll.times| ==> poll.times[i] == s.clock
    ensures var n := |poll.statuses|;
      var steps := [AnswerPoll(poll.statuses)] + StatusSteps(poll, n) + [Finish];
      && Runnable(s, steps, limits)
      && Exec(s, steps, limits).risk == RecordFirst(s.risk, s.pending, poll, limits.cfg, n)
      && Exec(s, steps, limits).pending == Evict(RemoveDescending(s.pending, Processed(poll.statuses, n)))
  {
    var n := |poll.statuses|;
    StatusesRun(s, poll, limits, n);
    RunExtends(s, [AnswerPoll(poll.statuses)] + StatusSteps(poll, n), Finish, limits);
  }

  // ------------------------------------------------------------------
  // Rounds that lose
  // ------------------------------------------------------------------

  /** Nothing is under way and the date is current. */
  ghost predicate Quiet(s: System) {
    s.cleared.None? && s.channel == [] && s.pending == [] && s.task.Collecting? && s.today == s.risk.currentDate
  }

  /** Quiet, and the breaker will not refuse the next check. */
  ghost predicate Idle(s: System, limits: Limits) {
    && Quiet(s) && !Blocked(s.risk, s.clock)
    && (!s.risk.breaker ==> s.risk.dailyPnl >= -limits.cfg.maxDailyLossSol)
  }

  /** The day's figure the next accepted check starts from. */
  ghost function Standing(s: System): real {
    if s.risk.breaker then 0.0 else s.risk.dailyPnl
  }

  /** From s to t no time passes, no day ends and never more than one trade is exposed. */
  ghost predicate SameInstant(s: System, t: System) {
    && t.clock == s.clock && t.today == s.today && t.rollovers == s.rollovers
    && t.worstExposure <= Max(s.worstExposure, 1)
  }

  /** Quiet again with `loss` booked; the breaker is set exactly if that exceeded the limit. */
  ghost predicate LostOnce(s: System, t: System, limits: Limits) {
    && Quiet(t) && SameInstant(s, t)
    && t.cooldowns == s.cooldowns + (if s.risk.breaker then 1 else 0)
    && t.risk.totalNet == s.risk.totalNet - limits.maxTradeLoss
    && t.risk.dailyPnl == Standing(s) - limits.maxTradeLoss
    && (t.risk.breaker <==> t.risk.dailyPnl < -limits.cfg.maxDailyLossSol)
    && (t.risk.breaker ==> t.risk.triggeredAt == Some(t.clock))
  }

  /** One trade pending, nothing else under way, the breaker clear. */
  ghost predicate InFlight(s: System, t: System) {
    && t.cleared.None? && t.channel == [] && |t.pending| == 1 && t.task.Collecting? && t.today == t.risk.currentDate
    && SameInstant(s, t)
    && t.cooldowns == s.cooldowns + (if s.risk.breaker then 1 else 0)
    && !t.risk.breaker && t.risk.dailyPnl == Standing(s) && t.risk.totalNet == s.risk.totalNet
  }

  ghost function SmallTrade(limits: Limits): Opportunity {
    Opportunity(0.0, limits.cfg.minProfitThresholdSol)
  }

  ghost function OpeningSteps(limits: Limits): seq<Step> {
    [CheckOpportunity(SmallTrade(limits)), SubmitTrade(0.0), Receive]
  }

  ghost function ClosingSteps(limits: Limits): seq<Step> {
    [AnswerPoll([Some(true)]), RecordStatus(Some(-limits.maxTradeLoss)), Finish]
  }

  ghost function LosingSteps(limits: Limits): seq<Step> {
    OpeningSteps(limits) + ClosingSteps(limits)
  }

  ghost predicate EnabledThree(s: System, x: Step, y: Step, z: Step, limits: Limits) {
    && Enabled(s, x, limits)
    && Enabled(Next(s, x, limits), y, limits)
    && Enabled(Next(Next(s, x, limits), y, limits), z, limits)
  }

  ghost function NextThree(s: System, x: Step, y: Step, z: Step, limits: Limits): System
    requires EnabledThree(s, x, y, z, limits)
  {
    Next(Next(Next(s, x, limits), y, limits), z, limits)
  }

  lemma RunThree(start: System, before: seq<Step>, x: Step, y: Step, z: Step, limits: Limits)
    requires Runnable(start, before, limits) && EnabledThree(Exec(start, before, limits), x, y, z, limits)
    ensures Runnable(start, before + [x, y, z], limits)
    ensures Exec(start, before + [x, y, z], limits) == NextThree(Exec(start, before, limits), x, y, z, limits)
  {
    hide Runnable;
    hide Exec;
    hide Enabled;
    hide Next;
    RunExtends(start, before, x, limits);
    RunExtends(start, before + [x], y, limits);
    RunExtends(start, before + [x] + [y], z, limits);
    assert before + [x] + [y] + [z] == before + [x, y, z];
  }

  /** The first three steps: the trade is accepted, submitted and received. */
  lemma RoundStarts(s: System, limits: Limits)
    requires limits.Valid() && Idle(s, limits)
    ensures EnabledThree(s, CheckOpportunity(SmallTrade(limits)), SubmitTrade(0.0), Receive, limits)
    ensures InFlight(s, NextThree(s, CheckOpportunity(SmallTrade(limits)), SubmitTrade(0.0), Receive, limits))
  {
    var s1 := Next(s, CheckOpportunity(SmallTrade(limits)), limits);
    CheckAccepts(s, limits);
    var s2 := Next(s1, SubmitTrade(0.0), limits);
    assert |s2.channel| == 1;
  }

  lemma CheckAccepts(s: System, limits: Limits)
    requires limits.Valid() && Idle(s, limits)
    ensures var t := Next(s, CheckOpportunity(SmallTrade(limits)), limits);
      && t.cleared == Some(SmallTrade(limits)) && t.channel == [] && t.pending == [] && t.task.Collecting?
      && t.today == t.risk.currentDate && SameInstant(s, t)
      && t.cooldowns == s.cooldowns + (if s.risk.breaker then 1 else 0)
      && !t.risk.breaker && t.risk.dailyPnl == Standing(s) && t.risk.totalNet == s.risk.totalNet
  {
  }

  /** The other three: the poll answers, the loss is recorded, the entry removed. */
  lemma RoundEnds(s: System, t: System, limits: Limits)
    requires limits.Valid() && InFlight(s, t)
    ensures EnabledThree(t, AnswerPoll([Some(true)]), RecordStatus(Some(-limits.maxTradeLoss)), Finish, limits)
    ensures LostOnce(s, NextThree(t, AnswerPoll([Some(true)]), RecordStatus(Some(-limits.maxTradeLoss)), Finish, limits), limits)
  {
    var s4 := Next(t, AnswerPoll([Some(true)]), limits);
    LossRecorded(s, s4, limits);
    hide LostOnce;
    hide Confirm;
    var s5 := Next(s4, RecordStatus(Some(-limits.maxTradeLoss)), limits);
    EntryRemoved(s, s5, limits);
  }

  /** The loss is booked, its entry still in the queue. */
  ghost predicate Recorded(s: System, t: System, limits: Limits) {
    && t.task == Processing([Some(true)], 1, [0]) && |t.pending| == 1
    && LostOnce(s, t.(task := Collecting, pending := []), limits)
  }

  lemma LossRecorded(s: System, t: System, limits: Limits)
    requires limits.Valid() && t.task == Processing([Some(true)], 0, []) && |t.pending| == 1
    requires InFlight(s, t.(task := Collecting))
    ensures Enabled(t, RecordStatus(Some(-limits.maxTradeLoss)), limits)
    ensures Recorded(s, Next(t, RecordStatus(Some(-limits.maxTradeLoss)), limits), limits)
  {
    var after := Confirm(t.risk, -limits.maxTradeLoss, true, limits.cfg, t.clock);
    NoteKeepsQueues(t, after);
    assert Exposure(t) == 1;
  }

  lemma EntryRemoved(s: System, t: System, limits: Limits)
    requires Recorded(s, t, limits)
    ensures Enabled(t, Finish, limits) && LostOnce(s, Next(t, Finish, limits), limits)
  {
    assert RemoveDescending(t.pending, [0]) == [];
  }

  /** From an idle state one trade can be accepted, submitted and confirmed at the largest loss. */
  lemma LosingRound(start: System, before: seq<Step>, s: System, limits: Limits)
    requires limits.Valid() && Runnable(start, before, limits) && s == Exec(start, before, limits) && Idle(s, limits)
    ensures Runnable(start, before + LosingSteps(limits), limits)
    ensures LostOnce(s, Exec(start, before + LosingSteps(limits), limits), limits)
  {
    RoundStarts(s, limits);
    hide Runnable;
    hide Exec;
    hide EnabledThree;
    hide NextThree;
    hide Idle;
    hide LostOnce;
    hide InFlight;
    hide OpeningSteps;
    hide ClosingSteps;
    RunOpening(start, before, s, limits);
    RoundEnds(s, Exec(start, before + OpeningSteps(limits), limits), limits);
    RunClosing(start, before + OpeningSteps(limits), s, limits);
    assert before + OpeningSteps(limits) + ClosingSteps(limits) == before + LosingSteps(limits);
  }

  lemma RunOpening(start: System, before: seq<Step>, s: System, limits: Limits)
    requires Runnable(start, before, limits) && s == Exec(start, before, limits)
    requires EnabledThree(s, CheckOpportunity(SmallTrade(limits)), SubmitTrade(0.0), Receive, limits)
    requires InFlight(s, NextThree(s, CheckOpportunity(SmallTrade(limits)), SubmitTrade(0.0), Receive, limits))
    ensures Runnable(start, before + OpeningSteps(limits), limits) && InFlight(s, Exec(start, before + OpeningSteps(limits), limits))
  {
    hide Runnable;
    hide Exec;
    hide EnabledThree;
    hide NextThree;
    hide InFlight;
    RunThree(start, before, CheckOpportunity(SmallTrade(limits)), SubmitTrade(0.0), Receive, limits);
  }

  lemma RunClosing(start: System, before: seq<Step>, s: System, limits: Limits)
    requires Runnable(start, before, limits)
    requires EnabledThree(Exec(start, before, limits), AnswerPoll([Some(true)]), RecordStatus(Some(-limits.maxTradeLoss)), Finish, limits)
    requires LostOnce(s, NextThree(Exec(start, before, limits), AnswerPoll([Some(true)]), RecordStatus(Some(-limits.maxTradeLoss)), Finish, limits), limits)
    ensures Runnable(start, before + ClosingSteps(limits), limits)
    ensures LostOnce(s, Exec(start, before + ClosingSteps(limits), limits), limits)
  {
    hide Runnable;
    hide Exec;
    hide EnabledThree;
    hide NextThree;
    hide LostOnce;
    RunThree(start, before, AnswerPoll([Some(true)]), RecordStatus(Some(-limits.maxTradeLoss)), Finish, limits);
  }

  // ------------------------------------------------------------------
  // The limit is per window
  // ------------------------------------------------------------------

  /** One window used up: the breaker has just tripped, and what was booked on top of the figure the
      window started from exceeds the limit. */
  ghost predicate WindowLost(s: System, t: System, limits: Limits) {
    && Quiet(t) && SameInstant(s, t) && t.cooldowns == s.cooldowns
    && t.risk.breaker && t.risk.triggeredAt == Some(t.clock) && t.risk.dailyPnl < -limits.cfg.maxDailyLossSol
    && t.risk.totalNet - t.risk.dailyPnl == s.risk.totalNet - s.risk.dailyPnl
  }

  /** With the breaker clear, losing rounds go on until it trips. */
  lemma {:induction false} LoseUntilTripped(start: System, before: seq<Step>, s: System, limits: Limits, n: nat) returns (steps: seq<Step>)
    requires limits.Valid() && 0.0 < limits.maxTradeLoss
    requires Runnable(start, before, limits) && s == Exec(start, before, limits) && Idle(s, limits) && !s.risk.breaker
    requires s.risk.dailyPnl + limits.cfg.maxDailyLossSol < LossOf(limits, n)
    ensures Runnable(start, steps, limits) && WindowLost(s, Exec(start, steps, limits), limits)
    decreases n
  {
    hide Runnable;
    hide Exec;
    hide LossOf;
    hide LosingSteps;
    NoRoundsLeft(limits);
    LosingRound(start, before, s, limits);
    steps := before + LosingSteps(limits);
    var t := Exec(start, steps, limits);
    if !t.risk.breaker {
      OneRoundLess(limits, n);
      steps := LoseUntilTripped(start, steps, t, limits, n - 1);
    }
  }

  lemma NoRoundsLeft(limits: Limits)
    ensures LossOf(limits, 0) == 0.0
  {
  }

  lemma OneRoundLess(limits: Limits, n: nat)
    requires 0 < n
    ensures LossOf(limits, n - 1) == LossOf(limits, n) - limits.maxTradeLoss
  {
    assert n as real == (n - 1) as real + 1.0;
  }

  /** Enough rounds to exceed any loss. */
  lemma EnoughRounds(limits: Limits, loss: real) returns (n: nat)
    requires 0.0 < limits.maxTradeLoss && 0.0 <= loss
    ensures loss < LossOf(limits, n)
  {
    var x := loss / limits.maxTradeLoss;
    RealDivGe(loss, limits.maxTradeLoss, 0.0);
    assert x * limits.maxTradeLoss == loss;
    n := x.Floor + 1;
    RealMulStrict(x, n as real, limits.maxTradeLoss);
  }

  lemma Cooled(t: System, limits: Limits)
    requires Quiet(t) && t.risk.breaker && t.risk.triggeredAt == Some(t.clock)
    ensures var tick := Tick(t.clock + CooldownNanos(1), t.today);
      && Enabled(t, tick, limits)
      && (var s := Next(t, tick, limits);
          && Idle(s, limits) && s.risk == t.risk && s.clock == t.clock + CooldownNanos(1)
          && s.today == t.today && s.rollovers == t.rollovers && s.worstExposure == t.worstExposure && s.cooldowns == t.cooldowns)
  {
    DivUnique(CooldownNanos(1), NANOS_PER_SEC, BREAKER_COOLDOWN_SECS);
  }

  /** The state after k cooldowns on one day, each followed by losses that tripped the breaker again. */
  ghost predicate WindowsLost(s: System, clock: nat, today: int, limits: Limits, k: nat) {
    && Quiet(s) && s.risk.breaker && s.risk.triggeredAt == Some(s.clock)
    && s.today == today && s.rollovers == 0 && s.worstExposure <= 1 && s.cooldowns == k
    && s.clock == clock + CooldownNanos(k)
    && s.risk.totalNet < -((k + 1) as real * limits.cfg.maxDailyLossSol)
  }

  lemma WindowCosts(limits: Limits, k: nat, before: real, after: real)
    requires before < -((k + 1) as real * limits.cfg.maxDailyLossSol) && after < before - limits.cfg.maxDailyLossSol
    ensures after < -((k + 2) as real * limits.cfg.maxDailyLossSol)
  {
    assert (k + 2) as real * limits.cfg.maxDailyLossSol == (k + 1) as real * limits.cfg.maxDailyLossSol + limits.cfg.maxDailyLossSol;
  }

  /** For every k there is a run on one day, one trade exposed at a time, that takes k cooldowns and
      loses more than k + 1 times the daily limit: one limit per window. */
  lemma {:induction false} EveryWindowCanLose(clock: nat, today: int, limits: Limits, k: nat) returns (steps: seq<Step>)
    requires limits.Valid() && 0.0 < limits.maxTradeLoss
    ensures Runnable(Start(clock, today), steps, limits)
    ensures WindowsLost(Exec(Start(clock, today), steps, limits), clock, today, limits, k)
    decreases k
  {
    hide Runnable;
    hide Exec;
    hide LossOf;
    var start := Start(clock, today);
    if k == 0 {
      NoSteps(start, limits);
      var n := EnoughRounds(limits, limits.cfg.maxDailyLossSol);
      steps := LoseUntilTripped(start, [], start, limits, n);
    } else {
      hide LosingSteps;
      var first := EveryWindowCanLose(clock, today, limits, k - 1);
      steps := OneMoreWindow(start, first, Exec(start, first, limits), limits);
      var t := Exec(start, steps, limits);
      WindowCosts(limits, k - 1, Exec(start, first, limits).risk.totalNet, t.risk.totalNet);
      assert CooldownNanos(k) == CooldownNanos(k - 1) + CooldownNanos(1);
    }
  }

  /** A tripped state, a cooldown, and losses until the breaker trips again. */
  lemma OneMoreWindow(start: System, before: seq<Step>, t: System, limits: Limits) returns (steps: seq<Step>)
    requires limits.Valid() && 0.0 < limits.maxTradeLoss
    requires Runnable(start, before, limits) && t == Exec(start, before, limits)
    requires Quiet(t) && t.risk.breaker && t.risk.triggeredAt == Some(t.clock)
    ensures Runnable(start, steps, limits)
    ensures var u := Exec(start, steps, limits);
      && Quiet(u) && u.risk.breaker && u.risk.triggeredAt == Some(u.clock)
      && u.clock == t.clock + CooldownNanos(1) && u.today == t.today && u.rollovers == t.rollovers
      && u.worstExposure <= Max(t.worstExposure, 1) && u.cooldowns == t.cooldowns + 1
      && u.risk.totalNet < t.risk.totalNet - limits.cfg.maxDailyLossSol
  {
    hide Runnable;
    hide Exec;
    hide LossOf;
    hide LosingSteps;
    hide Blocked;
    var s := CoolDown(start, before, t, limits);
    var r := before + [Tick(t.clock + CooldownNanos(1), t.today)];
    LosingRound(start, r, s, limits);
    steps := r + LosingSteps(limits);
    var u := Exec(start, steps, limits);
    if !u.risk.breaker {
      UnblockedWhenClear(u, limits);
      var n := EnoughRounds(limits, u.risk.dailyPnl + limits.cfg.maxDailyLossSol);
      steps := LoseUntilTripped(start, steps, u, limits, n);
    }
  }

  lemma UnblockedWhenClear(u: System, limits: Limits)
    requires Quiet(u) && !u.risk.breaker && u.risk.dailyPnl >= -limits.cfg.maxDailyLossSol
    ensures Idle(u, limits)
  {
  }

  lemma CoolDown(start: System, before: seq<Step>, t: System, limits: Limits) returns (s: System)
    requires Runnable(start, before, limits) && t == Exec(start, before, limits)
    requires Quiet(t) && t.risk.breaker && t.risk.triggeredAt == Some(t.clock)
    ensures var r := before + [Tick(t.clock + CooldownNanos(1), t.today)];
      Runnable(start, r, limits) && s == Exec(start, r, limits)
    ensures Idle(s, limits) && s.risk == t.risk && s.clock == t.clock + CooldownNanos(1)
    ensures s.today == t.today && s.rollovers == t.rollovers && s.worstExposure == t.worstExposure && s.cooldowns == t.cooldowns
  {
    hide Runnable;
    hide Exec;
    Cooled(t, limits);
    RunExtends(start, before, Tick(t.clock + CooldownNanos(1), t.today), limits);
    s := Exec(start, before + [Tick(t.clock + CooldownNanos(1), t.today)], limits);
  }

  /** The loss a day would be held to if the limit M were a daily one: M plus the largest single loss L
      for every trade exposed at a trip. */
  ghost predicate HeldToDailyLimit(s: System, limits: Limits) {
    s.risk.totalNet >= -(limits.cfg.maxDailyLossSol + limits.maxTradeLoss * s.worstExposure as real)
  }

  /** Whatever a trade can lose, some run on one day, 1800 seconds long and with one trade exposed at a
      time, loses more than M + L: the cooldown forgets the first window. */
  lemma DailyLimitIsPerWindow(clock: nat, today: int, limits: Limits) returns (steps: seq<Step>)
    requires limits.Valid() && 0.0 < limits.maxTradeLoss
    ensures Runnable(Start(clock, today), steps, limits)
    ensures var s := Exec(Start(clock, today), steps, limits);
      && s.today == today && s.rollovers == 0 && s.worstExposure <= 1 && s.clock == clock + CooldownNanos(1)
      && s.risk.totalNet < -limits.cfg.maxDailyLossSol - limits.maxTradeLoss
      && !HeldToDailyLimit(s, limits)
  {
    hide Runnable;
    hide Exec;
    hide LosingSteps;
    hide Blocked;
    var start := Start(clock, today);
    var first := EveryWindowCanLose(clock, today, limits, 0);
    var t := Exec(start, first, limits);
    var s := CoolDown(start, first, t, limits);
    var r := first + [Tick(t.clock + CooldownNanos(1), t.today)];
    LosingRound(start, r, s, limits);
    steps := r + LosingSteps(limits);
    ExposedOnce(Exec(start, steps, limits), limits);
  }

  lemma ExposedOnce(s: System, limits: Limits)
    requires limits.Valid() && s.worstExposure <= 1 && s.risk.totalNet < -limits.cfg.maxDailyLossSol - limits.maxTradeLoss
    ensures !HeldToDailyLimit(s, limits)
  {
    RealMulMono(s.worstExposure as real, 1.0, limits.maxTradeLoss);
    assert limits.maxTradeLoss * s.worstExposure as real == s.worstExposure as real * limits.maxTradeLoss;
  }

  lemma NoSteps(s: System, limits: Limits)
    ensures Runnable(s, [], limits) && Exec(s, [], limits) == s
  {
  }

  // ------------------------------------------------------------------
  // When a day is held to the limit
  // ------------------------------------------------------------------

  /** As long as nothing resets the daily figure, neither a cooldown nor a new day, it is. */
  lemma HeldUntilReset(clock: nat, today: int, steps: seq<Step>, limits: Limits)
    requires limits.Valid() && Runnable(Start(clock, today), steps, limits)
    requires var s := Exec(Start(clock, today), steps, limits); s.cooldowns + s.rollovers == 0
    ensures HeldToDailyLimit(Exec(Start(clock, today), steps, limits), limits)
  {
    hide Runnable;
    hide Exec;
    TotalLossBounded(clock, today, steps, limits);
  }

  lemma {:induction false} NothingLost(s: System, steps: seq<Step>, limits: Limits)
    requires limits.maxTradeLoss == 0.0 && s.risk.totalNet >= 0.0 && Runnable(s, steps, limits)
    ensures Exec(s, steps, limits).risk.totalNet >= 0.0
    decreases |steps|
  {
    if steps != [] {
      NothingLost(s, Front(steps), limits);
      StepLosesAtMost(Exec(s, Front(steps), limits), Last(steps), limits);
    }
  }

  lemma StepLosesAtMost(s: System, step: Step, limits: Limits)
    requires Enabled(s, step, limits)
    ensures Next(s, step, limits).risk.totalNet >= s.risk.totalNet - MaxReal(limits.maxTradeLoss, 0.0)
  {
    hide BookedPnl;
  }

  /** Every run without a new day is held to the limit exactly when no trade can lose anything. */
  lemma HeldIffNothingToLose(clock: nat, today: int, limits: Limits)
    requires limits.Valid()
    ensures (forall steps :: Runnable(Start(clock, today), steps, limits) && Exec(Start(clock, today), steps, limits).rollovers == 0 ==>
               HeldToDailyLimit(Exec(Start(clock, today), steps, limits), limits))
       <==> limits.maxTradeLoss == 0.0
  {
    hide Runnable;
    hide Exec;
    var start := Start(clock, today);
    if limits.maxTradeLoss == 0.0 {
      forall steps | Runnable(start, steps, limits)
        ensures HeldToDailyLimit(Exec(start, steps, limits), limits)
      {
        NothingLost(start, steps, limits);
      }
    } else {
      var steps := DailyLimitIsPerWindow(clock, today, limits);
      assert Runnable(start, steps, limits);
    }
  }
}
