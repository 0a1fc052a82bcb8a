/** The main loop and the confirmation task sharing one risk tracker: every interleaving of checks,
    submissions, polling answers, confirmations and evictions, as runs of a state machine. */
module Protocol {
  import opened Arith
  import opened Risk
  import opened Confirmation

  /** Where the confirmation task is: collecting submissions and polling, or halfway through the
      answers of one poll, which it records one by one with waits in between. */
  datatype Task = Collecting | Processing(statuses: seq<Status>, next: nat, toRemove: seq<nat>)

  /** The shared state, followed by the history the properties speak about: every trade submitted,
      recorded and evicted; the latest trip, the exposure when it happened and the confirmations
      recorded since; the largest such exposure; the resets of the daily figure so far. */
  datatype System = System(
    risk: RiskState,
    clock: nat,
    today: int,
    cleared: Option<Opportunity>,
    channel: seq<Trade>,
    pending: seq<Trade>,
    task: Task,
    submitted: seq<Trade>,
    recorded: seq<Trade>,
    evicted: seq<Trade>,
    lastTrip: Option<nat>,
    exposureAtTrip: nat,
    sinceTrip: nat,
    worstExposure: nat,
    cooldowns: nat,
    rollovers: nat)

  datatype Step =
    | Tick(clock: nat, today: int)
    | CheckOpportunity(opp: Opportunity)
    | Abandon
    | FailSubmission
    | SubmitTrade(priorityFee: real)
    | Receive
    | AnswerPoll(statuses: seq<Status>)
    | FailPoll
    | SkipStatus
    | RecordStatus(extracted: Option<real>)
    | Finish

  /** Limits of the configuration, and the most a confirmed trade loses. */
  datatype Limits = Limits(cfg: RiskConfig, maxTradeLoss: real) {
    ghost predicate Valid() {
      cfg.Valid() && 0.0 <= maxTradeLoss
    }
  }

  function Start(clock: nat, today: int): System {
    System(Fresh(today), clock, today, None, [], [], Collecting, [], [], [], None, 0, 0, 0, 0, 0)
  }

  function ToRemove(s: System): seq<nat> {
    if s.task.Processing? then s.task.toRemove else []
  }

  /** Trades that can still be confirmed: past the check, in the channel, or queued and not yet
      recorded. */
  function Exposure(s: System): int {
    (if s.cleared.Some? then 1 else 0) + |s.channel| + |s.pending| - |ToRemove(s)|
  }

  // ------------------------------------------------------------------
  // Steps
  // ------------------------------------------------------------------

  predicate AtStatus(s: System, processed: bool) {
    && s.task.Processing?
    && s.task.next < |s.task.statuses| <= |s.pending|
    && s.task.statuses[s.task.next].Some? == processed
  }

  function PnlAt(s: System, extracted: Option<real>): real
    requires AtStatus(s, true)
  {
    BookedPnl(s.pending[s.task.next], s.task.statuses[s.task.next].value, extracted)
  }

  predicate Enabled(s: System, step: Step, limits: Limits) {
    match step
    case Tick(clock, _) => s.clock <= clock
    case CheckOpportunity(_) => s.cleared.None?
    case Abandon => s.cleared.Some?
    case FailSubmission => s.cleared.Some?
    case SubmitTrade(_) => s.cleared.Some?
    case Receive => s.task.Collecting? && s.channel != []
    case AnswerPoll(statuses) => s.task.Collecting? && s.pending != [] && |statuses| <= |s.pending|
    case FailPoll => s.task.Collecting? && s.pending != []
    case SkipStatus => AtStatus(s, false)
    case RecordStatus(extracted) => AtStatus(s, true) && PnlAt(s, extracted) >= -limits.maxTradeLoss
    case Finish => s.task.Processing? && s.task.next == |s.task.statuses| && ValidIndices(s.task.toRemove, |s.pending|)
  }

  /** History of a risk operation that recorded a confirmation: a first trip notes the exposure
      before it, further ones only the time. */
  function NoteConfirmation(s: System, after: RiskState): System {
    if !after.breaker then s.(risk := after)
    else if s.risk.breaker then s.(risk := after, lastTrip := after.triggeredAt, sinceTrip := s.sinceTrip + 1)
    else s.(risk := after, lastTrip := after.triggeredAt, sinceTrip := 1,
            exposureAtTrip := Max(Exposure(s), 0), worstExposure := Max(s.worstExposure, Exposure(s)))
  }

  /** History of a check: which resets of the daily figure it made. */
  function NoteCheck(s: System, after: RiskState): System {
    if Blocked(s.risk, s.clock) then s.(risk := after)
    else s.(risk := after,
            cooldowns := s.cooldowns + if s.risk.breaker then 1 else 0,
            rollovers := s.rollovers + if s.today != s.risk.currentDate then 1 else 0)
  }

  function Next(s: System, step: Step, limits: Limits): System
    requires Enabled(s, step, limits)
  {
    match step
    case Tick(clock, today) => s.(clock := clock, today := today)
    case CheckOpportunity(opp) =>
      var (after, ok) := Check(s.risk, opp, limits.cfg, s.clock, s.today);
      NoteCheck(s, after).(cleared := if ok then Some(opp) else None)
    case Abandon => s.(cleared := None)
    case FailSubmission => s.(cleared := None, risk := s.risk.(attempted := s.risk.attempted + 1))
    case SubmitTrade(fee) =>
      var trade := Trade(|s.submitted|, true, s.cleared.value.netProfitSol, fee);
      s.(cleared := None, risk := Submit(s.risk), channel := s.channel + [trade], submitted := s.submitted + [trade])
    case Receive => s.(channel := s.channel[1..], pending := s.pending + [s.channel[0]])
    case AnswerPoll(statuses) => s.(task := Processing(statuses, 0, []))
    case FailPoll => s.(pending := Evict(s.pending), evicted := s.evicted + Evicted(s.pending))
    case SkipStatus => s.(task := s.task.(next := s.task.next + 1))
    case RecordStatus(extracted) =>
      var ok := s.task.statuses[s.task.next].value;
      NoteConfirmation(s, Confirm(s.risk, PnlAt(s, extracted), ok, limits.cfg, s.clock))
        .(task := s.task.(next := s.task.next + 1, toRemove := s.task.toRemove + [s.task.next]),
          recorded := s.recorded + [s.pending[s.task.next]])
    case Finish =>
      var left := RemoveDescending(s.pending, s.task.toRemove);
      s.(task := Collecting, pending := Evict(left), evicted := s.evicted + Evicted(left))
  }

  // ------------------------------------------------------------------
  // Runs
  // ------------------------------------------------------------------

  /** The steps can be taken one after the other from s. */
  ghost predicate Runnable(s: System, steps: seq<Step>, limits: Limits)
    decreases |steps|, 0
  {
    steps == [] || (Runnable(s, Front(steps), limits) && Enabled(Exec(s, Front(steps), limits), Last(steps), limits))
  }

  ghost function Exec(s: System, steps: seq<Step>, limits: Limits): System
    requires Runnable(s, steps, limits)
    decreases |steps|, 1
  {
    if steps == [] then s else Next(Exec(s, Front(steps), limits), Last(steps), limits)
  }

  ghost function Front(steps: seq<Step>): (f: seq<Step>)
    requires steps != []
    ensures |f| < |steps|
  {
    steps[..|steps| - 1]
  }

  ghost function Last(steps: seq<Step>): Step
    requires steps != []
  {
    steps[|steps| - 1]
  }

  lemma {:induction false} PrefixRuns(s: System, steps: seq<Step>, limits: Limits, k: nat)
    requires Runnable(s, steps, limits) && k <= |steps|
    ensures Runnable(s, steps[..k], limits)
    decreases |steps|
  {
    if k == |steps| {
      assert steps[..k] == steps;
    } else {
      PrefixRuns(s, Front(steps), limits, k);
      assert Front(steps)[..k] == steps[..k];
    }
  }

  lemma RunExtends(s: System, steps: seq<Step>, step: Step, limits: Limits)
    requires Runnable(s, steps, limits) && Enabled(Exec(s, steps, limits), step, limits)
    ensures Runnable(s, steps + [step], limits)
    ensures Exec(s, steps + [step], limits) == Next(Exec(s, steps, limits), step, limits)
  {
    assert Front(steps + [step]) == steps && Last(steps + [step]) == step;
  }

  // ------------------------------------------------------------------
  // The queue: every trade is in one place
  // ------------------------------------------------------------------

  ghost predicate TaskSound(pending: seq<Trade>, task: Task) {
    task.Processing? ==>
      && |task.statuses| <= |pending|
      && task.next <= |task.statuses|
      && task.toRemove == Processed(task.statuses, task.next)
      && ValidIndices(task.toRemove, |pending|)
      && |task.toRemove| <= task.next
  }

  /** Queue entries that are already recorded and wait for their removal. */
  ghost function AwaitingRemoval(pending: seq<Trade>, task: Task): seq<Trade>
    requires TaskSound(pending, task)
  {
    if task.Processing? then Select(pending, task.toRemove) else []
  }

  ghost predicate Balanced(submitted: seq<Trade>, twice: seq<Trade>, channel: seq<Trade>, pending: seq<Trade>,
                           recorded: seq<Trade>, evicted: seq<Trade>) {
    multiset(submitted) + multiset(twice) == multiset(channel) + multiset(pending) + multiset(recorded) + multiset(evicted)
  }

  ghost predicate Numbered(submitted: seq<Trade>) {
    forall i :: 0 <= i < |submitted| ==> submitted[i].id == i
  }

  /** Everything submitted is in the channel, in the queue, recorded or evicted; while answers are
      being processed the recorded ones are in the queue as well. */
  ghost predicate QueueInv(s: System) {
    && TaskSound(s.pending, s.task)
    && Balanced(s.submitted, AwaitingRemoval(s.pending, s.task), s.channel, s.pending, s.recorded, s.evicted)
    && Numbered(s.submitted)
  }

  lemma SelectExtends(pending: seq<Trade>, idx: seq<nat>, next: nat)
    requires ValidIndices(idx + [next], |pending|) && next < |pending|
    ensures ValidIndices(idx, |pending|) && Select(pending, idx + [next]) == Select(pending, idx) + [pending[next]]
  {
    assert forall i :: 0 <= i < |idx| ==> idx[i] == (idx + [next])[i];
  }

  lemma ReceiveBalances(submitted: seq<Trade>, channel: seq<Trade>, pending: seq<Trade>, recorded: seq<Trade>, evicted: seq<Trade>)
    requires channel != [] && Balanced(submitted, [], channel, pending, recorded, evicted)
    ensures Balanced(submitted, [], channel[1..], pending + [channel[0]], recorded, evicted)
  {
    assert channel == [channel[0]] + channel[1..];
  }

  lemma EvictBalances(submitted: seq<Trade>, channel: seq<Trade>, pending: seq<Trade>, recorded: seq<Trade>, evicted: seq<Trade>)
    requires Balanced(submitted, [], channel, pending, recorded, evicted)
    ensures Balanced(submitted, [], channel, Evict(pending), recorded, evicted + Evicted(pending))
  {
    EvictionSplits(pending);
  }

  lemma RemoveBalances(submitted: seq<Trade>, channel: seq<Trade>, pending: seq<Trade>, recorded: seq<Trade>, evicted: seq<Trade>, idx: seq<nat>)
    requires ValidIndices(idx, |pending|)
    requires Balanced(submitted, Select(pending, idx), channel, pending, recorded, evicted)
    ensures Balanced(submitted, [], channel, RemoveDescending(pending, idx), recorded, evicted)
  {
    RemovesExactly(pending, idx);
    var left := multiset(RemoveDescending(pending, idx));
    var others := multiset(channel) + multiset(recorded) + multiset(evicted);
    CancelMultiset(multiset(submitted), others + left, multiset(Select(pending, idx)));
    assert others + left == multiset(channel) + left + multiset(recorded) + multiset(evicted);
  }

  lemma CancelMultiset(a: multiset<Trade>, b: multiset<Trade>, common: multiset<Trade>)
    requires a + common == b + common
    ensures a == b
  {
    forall t
      ensures a[t] == b[t]
    {
      assert (a + common)[t] == a[t] + common[t] && (b + common)[t] == b[t] + common[t];
    }
  }

  lemma RecordBalances(submitted: seq<Trade>, channel: seq<Trade>, pending: seq<Trade>, recorded: seq<Trade>, evicted: seq<Trade>, idx: seq<nat>, next: nat)
    requires next < |pending| && ValidIndices(idx, |pending|) && ValidIndices(idx + [next], |pending|)
    requires Balanced(submitted, Select(pending, idx), channel, pending, recorded, evicted)
    ensures Balanced(submitted, Select(pending, idx + [next]), channel, pending, recorded + [pending[next]], evicted)
  {
    SelectExtends(pending, idx, next);
    var one := multiset{pending[next]};
    calc {
      multiset(submitted) + multiset(Select(pending, idx + [next]));
      (multiset(submitted) + multiset(Select(pending, idx))) + one;
      (multiset(channel) + multiset(pending) + multiset(recorded) + multiset(evicted)) + one;
      multiset(channel) + multiset(pending) + multiset(recorded + [pending[next]]) + multiset(evicted);
    }
  }

  lemma RecordKeepsQueue(s: System, extracted: Option<real>, limits: Limits)
    requires QueueInv(s) && Enabled(s, RecordStatus(extracted), limits)
    ensures QueueInv(Next(s, RecordStatus(extracted), limits))
  {
    hide Balanced;
    hide Confirm;
    hide PnlAt;
    var task := s.task;
    assert Processed(task.statuses, task.next + 1) == task.toRemove + [task.next];
    RecordBalances(s.submitted, s.channel, s.pending, s.recorded, s.evicted, task.toRemove, task.next);
    NoteKeepsQueues(s, Confirm(s.risk, PnlAt(s, extracted), task.statuses[task.next].value, limits.cfg, s.clock));
  }

  /** Noting a confirmation touches the tracker and its history, never the queues. */
  lemma NoteKeepsQueues(s: System, after: RiskState)
    ensures var t := NoteConfirmation(s, after);
      && t.submitted == s.submitted && t.channel == s.channel && t.pending == s.pending && t.recorded == s.recorded
      && t.evicted == s.evicted && t.task == s.task && t.cleared == s.cleared && t.clock == s.clock && t.today == s.today
  {
  }

  lemma FinishKeepsQueue(s: System, limits: Limits)
    requires QueueInv(s) && Enabled(s, Finish, limits)
    ensures QueueInv(Next(s, Finish, limits))
  {
    var left := RemoveDescending(s.pending, s.task.toRemove);
    RemoveBalances(s.submitted, s.channel, s.pending, s.recorded, s.evicted, s.task.toRemove);
    EvictBalances(s.submitted, s.channel, left, s.recorded, s.evicted);
  }

  lemma ReceiveKeepsQueue(s: System, limits: Limits)
    requires QueueInv(s) && Enabled(s, Receive, limits)
    ensures QueueInv(Next(s, Receive, limits))
  {
    hide Balanced;
    ReceiveBalances(s.submitted, s.channel, s.pending, s.recorded, s.evicted);
  }

  lemma AnswerKeepsQueue(s: System, statuses: seq<Status>, limits: Limits)
    requires QueueInv(s) && Enabled(s, AnswerPoll(statuses), limits)
    ensures QueueInv(Next(s, AnswerPoll(statuses), limits))
  {
    hide Balanced;
    assert Select(s.pending, []) == [];
  }

  lemma FailPollKeepsQueue(s: System, limits: Limits)
    requires QueueInv(s) && Enabled(s, FailPoll, limits)
    ensures QueueInv(Next(s, FailPoll, limits))
  {
    hide Balanced;
    EvictBalances(s.submitted, s.channel, s.pending, s.recorded, s.evicted);
  }

  lemma SkipKeepsQueue(s: System, limits: Limits)
    requires QueueInv(s) && Enabled(s, SkipStatus, limits)
    ensures QueueInv(Next(s, SkipStatus, limits))
  {
    hide Balanced;
    hide Select;
    hide ValidIndices;
  }

  /** The main loop's other steps and the clock touch no trade. */
  lemma OtherStepKeepsQueue(s: System, step: Step, limits: Limits)
    requires QueueInv(s) && Enabled(s, step, limits)
    requires step.Tick? || step.CheckOpportunity? || step.Abandon? || step.FailSubmission?
    ensures QueueInv(Next(s, step, limits))
  {
    hide Balanced;
    hide Check;
    hide TaskSound;
    hide AwaitingRemoval;
  }

  lemma StepKeepsQueue(s: System, step: Step, limits: Limits)
    requires QueueInv(s) && Enabled(s, step, limits)
    ensures QueueInv(Next(s, step, limits))
  {
    hide QueueInv;
    hide Enabled;
    hide Next;
    match step
    case SubmitTrade(fee) => SubmitKeepsQueue(s, fee, limits);
    case Receive => ReceiveKeepsQueue(s, limits);
    case RecordStatus(extracted) => RecordKeepsQueue(s, extracted, limits);
    case Finish => FinishKeepsQueue(s, limits);
    case AnswerPoll(statuses) => AnswerKeepsQueue(s, statuses, limits);
    case FailPoll => FailPollKeepsQueue(s, limits);
    case SkipStatus => SkipKeepsQueue(s, limits);
    case _ => OtherStepKeepsQueue(s, step, limits);
  }

  lemma SubmitBalances(submitted: seq<Trade>, twice: seq<Trade>, channel: seq<Trade>, pending: seq<Trade>,
                       recorded: seq<Trade>, evicted: seq<Trade>, trade: Trade)
    requires Balanced(submitted, twice, channel, pending, recorded, evicted)
    ensures Balanced(submitted + [trade], twice, channel + [trade], pending, recorded, evicted)
  {
    calc {
      multiset(submitted + [trade]) + multiset(twice);
      (multiset(submitted) + multiset(twice)) + multiset{trade};
      (multiset(channel) + multiset(pending) + multiset(recorded) + multiset(evicted)) + multiset{trade};
      multiset(channel + [trade]) + multiset(pending) + multiset(recorded) + multiset(evicted);
    }
  }

  lemma SubmitKeepsQueue(s: System, fee: real, limits: Limits)
    requires QueueInv(s) && Enabled(s, SubmitTrade(fee), limits)
    ensures QueueInv(Next(s, SubmitTrade(fee), limits))
  {
    hide Balanced;
    hide TaskSound;
    hide AwaitingRemoval;
    var trade := Trade(|s.submitted|, true, s.cleared.value.netProfitSol, fee);
    SubmitBalances(s.submitted, AwaitingRemoval(s.pending, s.task), s.channel, s.pending, s.recorded, s.evicted, trade);
  }

  // ------------------------------------------------------------------
  // The breaker
  // ------------------------------------------------------------------

  /** Most that can be lost by n trades. */
  ghost function LossOf(limits: Limits, n: nat): real {
    limits.maxTradeLoss * n as real
  }

  /** The tracker is consistent; while the breaker is set the day's figure is below its limit by no
      more than the trades confirmed since the trip could lose, and those together with the ones
      still exposed are no more than were exposed when it tripped. */
  ghost predicate BreakerInv(s: System, limits: Limits) {
    && Consistent(s.risk, limits.cfg)
    && 0 <= Exposure(s)
    && (s.risk.breaker ==>
          && s.lastTrip == s.risk.triggeredAt
          && s.lastTrip.value <= s.clock
          && s.risk.dailyPnl >= -limits.cfg.maxDailyLossSol - LossOf(limits, s.sinceTrip)
          && 1 <= s.sinceTrip && s.sinceTrip + Exposure(s) <= s.exposureAtTrip <= s.worstExposure)
    && (!s.risk.breaker && s.lastTrip.Some? ==> ElapsedSecs(s.lastTrip.value, s.clock) >= BREAKER_COOLDOWN_SECS)
  }

  lemma OneMoreLoss(limits: Limits, n: nat, pnl: real)
    requires pnl >= -limits.maxTradeLoss
    ensures LossOf(limits, 0) == 0.0
    ensures pnl - LossOf(limits, n) >= -LossOf(limits, n + 1)
  {
    assert LossOf(limits, n + 1) == LossOf(limits, n) + limits.maxTradeLoss;
  }

  lemma ElapsedGrows(since: nat, now: nat, later: nat)
    requires now <= later
    ensures ElapsedSecs(since, now) <= ElapsedSecs(since, later)
  {
    if since <= now {
      DivMono(now - since, later - since, NANOS_PER_SEC);
    } else if since <= later {
      DivNonNegative(later - since, NANOS_PER_SEC);
    }
  }

  /** What a confirmation does to a consistent tracker. */
  lemma ConfirmOutcome(r: RiskState, pnl: real, ok: bool, cfg: RiskConfig, now: nat)
    requires Consistent(r, cfg)
    ensures var after := Confirm(r, pnl, ok, cfg, now);
      && Consistent(after, cfg) && after.dailyPnl == r.dailyPnl + pnl
      && (r.breaker ==> after.breaker)
      && (after.breaker ==> after.triggeredAt == Some(now) || (r.breaker && after.triggeredAt == r.triggeredAt))
  {
  }

  lemma RecordLowersExposure(s: System, extracted: Option<real>, limits: Limits)
    requires QueueInv(s) && Enabled(s, RecordStatus(extracted), limits)
    ensures Exposure(Next(s, RecordStatus(extracted), limits)) == Exposure(s) - 1 && 1 <= Exposure(s)
  {
    hide Confirm;
    hide PnlAt;
    hide Balanced;
    NoteKeepsQueues(s, Confirm(s.risk, PnlAt(s, extracted), s.task.statuses[s.task.next].value, limits.cfg, s.clock));
  }

  lemma RecordKeepsBreaker(s: System, extracted: Option<real>, limits: Limits)
    requires QueueInv(s) && BreakerInv(s, limits) && limits.Valid() && Enabled(s, RecordStatus(extracted), limits)
    ensures BreakerInv(Next(s, RecordStatus(extracted), limits), limits)
  {
    hide LossOf;
    hide QueueInv;
    hide ElapsedSecs;
    hide Confirm;
    hide Consistent;
    hide PnlAt;
    hide Exposure;
    var pnl := PnlAt(s, extracted);
    OneMoreLoss(limits, s.sinceTrip, pnl);
    OneMoreLoss(limits, 0, pnl);
    ConfirmOutcome(s.risk, pnl, s.task.statuses[s.task.next].value, limits.cfg, s.clock);
    RecordLowersExposure(s, extracted, limits);
    ConsistentTrip(s.risk, limits.cfg);
  }

  lemma ConsistentTrip(r: RiskState, cfg: RiskConfig)
    requires Consistent(r, cfg)
    ensures r.breaker <==> r.triggeredAt.Some?
    ensures !r.breaker ==> r.dailyPnl >= -cfg.maxDailyLossSol
  {
  }

  lemma CheckKeepsBreaker(s: System, opp: Opportunity, limits: Limits)
    requires BreakerInv(s, limits) && limits.Valid() && Enabled(s, CheckOpportunity(opp), limits)
    ensures BreakerInv(Next(s, CheckOpportunity(opp), limits), limits)
  {
    hide LossOf;
    OperationsKeepConsistent(s.risk, opp, limits.cfg, s.clock, s.today, 0.0, true);
    ProjectedLossNeverFires(s.risk, opp, limits.cfg, s.clock, s.today);
  }

  lemma StepKeepsBreaker(s: System, step: Step, limits: Limits)
    requires QueueInv(s) && BreakerInv(s, limits) && limits.Valid() && Enabled(s, step, limits)
    ensures BreakerInv(Next(s, step, limits), limits)
  {
    hide LossOf;
    hide Balanced;
    match step
    case Tick(clock, _) =>
      if s.lastTrip.Some? {
        ElapsedGrows(s.lastTrip.value, s.clock, clock);
      }
    case CheckOpportunity(opp) => CheckKeepsBreaker(s, opp, limits);
    case RecordStatus(extracted) => RecordKeepsBreaker(s, extracted, limits);
    case _ =>
  }
}
