/** The runtime risk tracker: daily profit and loss, circuit breaker with cooldown, day rollover. */
module Risk {
  import opened Arith

  const BREAKER_COOLDOWN_SECS := 1800
  const NANOS_PER_SEC := 1_000_000_000

  datatype RiskConfig = RiskConfig(minProfitThresholdSol: real, maxSingleInvestmentSol: real, maxDailyLossSol: real) {
    /** What the configuration loader insists on. */
    predicate Valid() {
      minProfitThresholdSol > 0.0 && maxSingleInvestmentSol > 0.0 && maxDailyLossSol > 0.0
    }
  }

  /** What the tracker reads of an opportunity. */
  datatype Opportunity = Opportunity(investmentSol: real, netProfitSol: real)

  datatype BreakerReason = ProjectedLoss(limit: real) | LossAfterTrade(pnl: real, limit: real)

  /** The tracker's fields as a value. Instants are nanoseconds on a clock that never runs back,
      dates are day numbers. */
  datatype RiskState = RiskState(
    currentDate: int,
    dailyPnl: real,
    attempted: nat,
    pending: nat,
    succeeded: nat,
    failedOnchain: nat,
    totalNet: real,
    failedFee: real,
    breaker: bool,
    reason: Option<BreakerReason>,
    triggeredAt: Option<nat>)

  function ElapsedSecs(since: nat, now: nat): nat {
    if since <= now then (now - since) / NANOS_PER_SEC else 0
  }

  predicate CooledDown(s: RiskState, now: nat) {
    s.triggeredAt.Some? && ElapsedSecs(s.triggeredAt.value, now) >= BREAKER_COOLDOWN_SECS
  }

  // ------------------------------------------------------------------
  // Specification of each operation
  // ------------------------------------------------------------------

  function Fresh(today: int): RiskState {
    RiskState(today, 0.0, 0, 0, 0, 0, 0.0, 0.0, false, None, None)
  }

  function Trip(s: RiskState, now: nat, reason: BreakerReason): RiskState {
    s.(breaker := true, triggeredAt := Some(now), reason := Some(reason))
  }

  function ClearBreaker(s: RiskState): RiskState {
    s.(breaker := false, reason := None, triggeredAt := None, dailyPnl := 0.0)
  }

  function RollOver(s: RiskState, today: int): RiskState {
    if today == s.currentDate then s
    else s.(currentDate := today, dailyPnl := 0.0, attempted := 0, pending := 0, succeeded := 0,
            failedOnchain := 0, failedFee := 0.0)
  }

  /** The state a check looks at once a cooled-down breaker is cleared and the day is current. */
  function Refreshed(s: RiskState, now: nat, today: int): RiskState {
    RollOver(if s.breaker then ClearBreaker(s) else s, today)
  }

  /** Whether the check is refused by the breaker alone. */
  predicate Blocked(s: RiskState, now: nat) {
    s.breaker && !CooledDown(s, now)
  }

  function Check(s: RiskState, opp: Opportunity, cfg: RiskConfig, now: nat, today: int): (RiskState, bool) {
    if Blocked(s, now) then (s, false)
    else
      var r := Refreshed(s, now, today);
      if opp.netProfitSol < cfg.minProfitThresholdSol then (r, false)
      else if opp.investmentSol > cfg.maxSingleInvestmentSol then (r, false)
      else if r.dailyPnl + opp.netProfitSol < -cfg.maxDailyLossSol then (Trip(r, now, ProjectedLoss(cfg.maxDailyLossSol)), false)
      else (r, true)
  }

  function Submit(s: RiskState): RiskState {
    s.(attempted := s.attempted + 1, pending := s.pending + 1)
  }

  function TripIfExceeded(s: RiskState, cfg: RiskConfig, now: nat): RiskState {
    if s.dailyPnl < -cfg.maxDailyLossSol then Trip(s, now, LossAfterTrade(s.dailyPnl, cfg.maxDailyLossSol)) else s
  }

  function Booked(s: RiskState, pnl: real, ok: bool): RiskState {
    s.(pending := if s.pending == 0 then 0 else s.pending - 1,
       succeeded := s.succeeded + if ok then 1 else 0,
       failedOnchain := s.failedOnchain + if ok then 0 else 1,
       failedFee := s.failedFee + if ok then 0.0 else MaxReal(-pnl, 0.0),
       dailyPnl := s.dailyPnl + pnl,
       totalNet := s.totalNet + pnl)
  }

  function Confirm(s: RiskState, pnl: real, ok: bool, cfg: RiskConfig, now: nat): RiskState {
    TripIfExceeded(Booked(s, pnl, ok), cfg, now)
  }

  // ------------------------------------------------------------------
  // The tracker
  // ------------------------------------------------------------------

  class RiskTracker {
    var currentDate: int
    var dailyPnlSol: real
    var tradesAttempted: nat
    var tradesPending: nat
    var tradesSucceeded: nat
    var tradesFailedOnchain: nat
    var totalNetProfitSol: real
    var cumulativeFailedFeeSol: real
    var circuitBreaker: bool
    var breakerReason: Option<BreakerReason>
    var breakerTriggeredAt: Option<nat>

    function State(): RiskState
      reads this
    {
      RiskState(currentDate, dailyPnlSol, tradesAttempted, tradesPending, tradesSucceeded, tradesFailedOnchain,
                totalNetProfitSol, cumulativeFailedFeeSol, circuitBreaker, breakerReason, breakerTriggeredAt)
    }

    constructor (today: int)
      ensures State() == Fresh(today)
    {
      currentDate := today;
      dailyPnlSol := 0.0;
      tradesAttempted, tradesPending, tradesSucceeded, tradesFailedOnchain := 0, 0, 0, 0;
      totalNetProfitSol, cumulativeFailedFeeSol := 0.0, 0.0;
      circuitBreaker := false;
      breakerReason := None;
      breakerTriggeredAt := None;
    }

    method CheckLimits(opp: Opportunity, cfg: RiskConfig, now: nat, today: int) returns (ok: bool)
      modifies this
      ensures (State(), ok) == Check(old(State()), opp, cfg, now, today)
    {
      if circuitBreaker {
        if breakerTriggeredAt.Some? {
          if ElapsedSecs(breakerTriggeredAt.value, now) >= BREAKER_COOLDOWN_SECS {
            circuitBreaker := false;
            breakerReason := None;
            breakerTriggeredAt := None;
            dailyPnlSol := 0.0;
          } else {
            return false;
          }
        } else {
          return false;
        }
      }
      if today != currentDate {
        currentDate := today;
        dailyPnlSol := 0.0;
        tradesAttempted := 0;
        tradesPending := 0;
        tradesSucceeded := 0;
        tradesFailedOnchain := 0;
        cumulativeFailedFeeSol := 0.0;
      }
      if opp.netProfitSol < cfg.minProfitThresholdSol {
        return false;
      }
      if opp.investmentSol > cfg.maxSingleInvestmentSol {
        return false;
      }
      if dailyPnlSol + opp.netProfitSol < -cfg.maxDailyLossSol {
        circuitBreaker := true;
        breakerTriggeredAt := Some(now);
        breakerReason := Some(ProjectedLoss(cfg.maxDailyLossSol));
        return false;
      }
      return true;
    }

    method RecordSubmitted()
      modifies this
      ensures State() == Submit(old(State()))
    {
      tradesAttempted := tradesAttempted + 1;
      tradesPending := tradesPending + 1;
    }

    method RecordConfirmation(actualPnlSol: real, succeeded: bool, cfg: RiskConfig, now: nat)
      modifies this
      ensures State() == Confirm(old(State()), actualPnlSol, succeeded, cfg, now)
    {
      tradesPending := if tradesPending == 0 then 0 else tradesPending - 1;
      if succeeded {
        tradesSucceeded := tradesSucceeded + 1;
      } else {
        tradesFailedOnchain := tradesFailedOnchain + 1;
        cumulativeFailedFeeSol := cumulativeFailedFeeSol + MaxReal(-actualPnlSol, 0.0);
      }
      dailyPnlSol := dailyPnlSol + actualPnlSol;
      totalNetProfitSol := totalNetProfitSol + actualPnlSol;
      CheckCircuitBreaker(cfg, now);
    }

    method CheckCircuitBreaker(cfg: RiskConfig, now: nat)
      modifies this
      ensures State() == TripIfExceeded(old(State()), cfg, now)
    {
      if dailyPnlSol < -cfg.maxDailyLossSol {
        circuitBreaker := true;
        breakerTriggeredAt := Some(now);
        breakerReason := Some(LossAfterTrade(dailyPnlSol, cfg.maxDailyLossSol));
      }
    }

    method IsBlocked() returns (blocked: bool)
      ensures blocked == State().breaker
    {
      return circuitBreaker;
    }
  }

  // ------------------------------------------------------------------
  // What one operation keeps
  // ------------------------------------------------------------------

  /** The breaker is set exactly when it has a reason and a trip time, and a clear breaker means
      the day's loss is within its limit. */
  predicate Consistent(s: RiskState, cfg: RiskConfig) {
    && (s.breaker <==> s.triggeredAt.Some?)
    && (s.breaker <==> s.reason.Some?)
    && (!s.breaker ==> s.dailyPnl >= -cfg.maxDailyLossSol)
  }

  /** Every operation keeps the tracker consistent. */
  lemma OperationsKeepConsistent(s: RiskState, opp: Opportunity, cfg: RiskConfig, now: nat, today: int, pnl: real, ok: bool)
    requires Consistent(s, cfg) && cfg.Valid()
    ensures Consistent(Fresh(today), cfg)
    ensures Consistent(Check(s, opp, cfg, now, today).0, cfg)
    ensures Consistent(Submit(s), cfg)
    ensures Consistent(Confirm(s, pnl, ok, cfg, now), cfg)
  {
  }

  /** With a positive profit threshold the projected-loss branch of the check is dead: a check
      never trips the breaker, and only a blocked breaker, a thin profit or an oversized investment
      refuses a trade. */
  lemma ProjectedLossNeverFires(s: RiskState, opp: Opportunity, cfg: RiskConfig, now: nat, today: int)
    requires Consistent(s, cfg) && cfg.Valid()
    ensures var (after, ok) := Check(s, opp, cfg, now, today);
      && (ok <==> !Blocked(s, now) && opp.netProfitSol >= cfg.minProfitThresholdSol && opp.investmentSol <= cfg.maxSingleInvestmentSol)
      && (after.breaker ==> after == s)
      && (!after.breaker ==> after == Refreshed(s, now, today))
  {
  }

  /** From any state at all, an unblocked check leaves the breaker set exactly when the breaker was
      clear, the day is the tracker's, the trade meets both thresholds and yet would leave the day
      beyond its limit. That takes a clear breaker over an exceeded limit, which no operation leaves. */
  lemma ProjectedLossFiresIff(s: RiskState, opp: Opportunity, cfg: RiskConfig, now: nat, today: int)
    requires cfg.Valid()
    ensures !Blocked(s, now) && Check(s, opp, cfg, now, today).0.breaker
       <==> && !s.breaker && today == s.currentDate
            && opp.netProfitSol >= cfg.minProfitThresholdSol && opp.investmentSol <= cfg.maxSingleInvestmentSol
            && s.dailyPnl + opp.netProfitSol < -cfg.maxDailyLossSol
    ensures !Blocked(s, now) && Check(s, opp, cfg, now, today).0.breaker ==> !Consistent(s, cfg)
  {
  }
}
