/** Sizing a trade: what a pair of pools returns for an investment, the largest investment the sell
    pool's token side allows, and the golden-section search for the most profitable one. */
module Sizing {
  import opened Arith
  import opened Dlmm
  import opened GoldenSection
  import CP = ConstantProduct

  const MIN_INVEST: real := 0.001

  datatype PoolPriceSnapshot = PoolPriceSnapshot(
    solPerToken: real,
    tokenReservesRaw: u64,
    solReservesRaw: u64,
    bins: seq<DlmmBin>,
    memeIsX: bool,
    feeBps: u32,
    lbPair: string,
    quoteDecimals: u8)

  datatype ScannerConfig = ScannerConfig(
    minProfitThresholdSol: real,
    minPriceDiffBps: u32,
    maxInvestmentSol: real,
    minPoolTvlSol: real,
    cuCostSol: real,
    profitSafetyFactor: real,
    skipReverify: bool,
    maxPoolShare: real,
    maxAbsoluteSolOut: real)

  function Pow10(n: nat): (p: real)
    ensures 1.0 <= p
  {
    if n == 0 then 1.0 else 10.0 * Pow10(n - 1)
  }

  /** Raw units in one unit of the quote token: 1e9 for SOL, 1e6 for USDC. */
  function QuoteUnit(snap: PoolPriceSnapshot): (unit: real)
    ensures 1.0 <= unit
  {
    Pow10(snap.quoteDecimals)
  }

  /** What pricing a pool needs: a fee of at most 100%, and reserves unless it is priced by bins. */
  predicate Priceable(snap: PoolPriceSnapshot) {
    && snap.feeBps <= 10000
    && (snap.bins == [] ==> 0 < snap.solReservesRaw && 0 < snap.tokenReservesRaw)
  }

  function DirectedLevels(snap: PoolPriceSnapshot, isXToY: bool): seq<Level> {
    Levels(Traversal(snap.bins, isXToY), isXToY)
  }

  /** The bins' reserves on either side fit the u64 their total is cast to. */
  predicate BinsFit(snap: PoolPriceSnapshot) {
    && TotalOut(DirectedLevels(snap, true)) < U64_LIMIT
    && TotalOut(DirectedLevels(snap, false)) < U64_LIMIT
  }

  /** Tokens received for raw quote units, from the bins if there are any. */
  function BuyTokens(buy: PoolPriceSnapshot, quoteIn: u64): u64
    requires Priceable(buy)
  {
    if buy.bins != [] then EstimateOut(buy.bins, quoteIn, !buy.memeIsX, buy.feeBps)
    else
      CurveBelowReserve(buy.solReservesRaw, buy.tokenReservesRaw, quoteIn, buy.feeBps);
      CP.BpsOut(buy.solReservesRaw, buy.tokenReservesRaw, quoteIn, buy.feeBps)
  }

  /** Raw quote units received for tokens, from the bins if there are any. */
  function SellTokens(sell: PoolPriceSnapshot, tokens: u64): u64
    requires Priceable(sell)
  {
    if sell.bins != [] then EstimateOut(sell.bins, tokens, sell.memeIsX, sell.feeBps)
    else
      CurveBelowReserve(sell.tokenReservesRaw, sell.solReservesRaw, tokens, sell.feeBps);
      CP.BpsOut(sell.tokenReservesRaw, sell.solReservesRaw, tokens, sell.feeBps)
  }

  lemma CurveBelowReserve(ri: nat, ro: nat, amount: nat, feeBps: nat)
    requires feeBps <= 10000
    ensures CP.BpsOut(ri, ro, amount, feeBps) <= ro
  {
    CP.BpsFormLaws(ri, ro, amount, amount, feeBps, feeBps);
  }

  /** An investment in raw quote units. */
  function RawQuote(buy: PoolPriceSnapshot, investment: real): u64 {
    SaturateToU64(investment * QuoteUnit(buy))
  }

  function SimulateBuy(buy: PoolPriceSnapshot, investment: real): nat
    requires Priceable(buy)
  {
    BuyTokens(buy, RawQuote(buy, investment))
  }

  function Portion(reserve: u64, share: real): real {
    reserve as real * share
  }

  /** The pool share of the sell pool's quote side, in raw units. */
  function ShareCap(cfg: ScannerConfig, sell: PoolPriceSnapshot): nat {
    SaturateToU128(Portion(sell.solReservesRaw, cfg.maxPoolShare))
  }

  /** Raw quote units returned, capped at the pool-share of the sell pool's quote side. */
  function QuoteBack(cfg: ScannerConfig, buy: PoolPriceSnapshot, sell: PoolPriceSnapshot, investment: real): nat
    requires Priceable(buy) && Priceable(sell)
  {
    Min(SellTokens(sell, SimulateBuy(buy, investment)), ShareCap(cfg, sell))
  }

  /** (gross, net) profit of an investment. */
  function ComputeArbAtInvestment(cfg: ScannerConfig, buy: PoolPriceSnapshot, sell: PoolPriceSnapshot, investment: real): (real, real)
    requires Priceable(buy) && Priceable(sell)
  {
    var gross := QuoteBack(cfg, buy, sell, investment) as real / QuoteUnit(buy) - investment;
    (gross, gross - cfg.cuCostSol)
  }

  /** The function the search maximises. */
  function Objective(cfg: ScannerConfig, buy: PoolPriceSnapshot, sell: PoolPriceSnapshot): real -> real
    requires Priceable(buy) && Priceable(sell)
  {
    (x: real) => ComputeArbAtInvestment(cfg, buy, sell, x).1
  }

  // ------------------------------------------------------------------
  // Monotonicity of the simulated buy
  // ------------------------------------------------------------------

  lemma RawQuoteMonotone(buy: PoolPriceSnapshot, x: real, y: real)
    requires x <= y
    ensures RawQuote(buy, x) <= RawQuote(buy, y)
  {
    RealMulMono(x, y, QuoteUnit(buy));
  }

  lemma BuyTokensMonotone(buy: PoolPriceSnapshot, p: u64, q: u64)
    requires Priceable(buy) && BinsFit(buy) && p <= q
    ensures BuyTokens(buy, p) <= BuyTokens(buy, q)
  {
    if buy.bins != [] {
      EstimateMonotone(buy.bins, p, q, !buy.memeIsX, buy.feeBps, buy.feeBps);
    } else {
      CP.BpsFormLaws(buy.solReservesRaw, buy.tokenReservesRaw, p, q, buy.feeBps, buy.feeBps);
    }
  }

  /** Investing more never buys fewer tokens, on the bins and on the curve. */
  lemma SimulateBuyMonotone(buy: PoolPriceSnapshot, x: real, y: real)
    requires Priceable(buy) && BinsFit(buy) && x <= y
    ensures SimulateBuy(buy, x) <= SimulateBuy(buy, y)
  {
    RawQuoteMonotone(buy, x, y);
    BuyTokensMonotone(buy, RawQuote(buy, x), RawQuote(buy, y));
  }

  lemma NothingInvested(buy: PoolPriceSnapshot)
    requires Priceable(buy) && BinsFit(buy)
    ensures SimulateBuy(buy, 0.0) == 0
  {
    assert 0.0 * QuoteUnit(buy) == 0.0;
    assert CP.AfterFeeBps(0, buy.feeBps) == 0;
    if buy.bins != [] {
      WalkNothing(DirectedLevels(buy, !buy.memeIsX));
    } else {
      DivUnique(buy.tokenReservesRaw * 0, buy.solReservesRaw, 0);
    }
  }

  // ------------------------------------------------------------------
  // Capacity bisection
  // ------------------------------------------------------------------

  ghost function Pow2(n: nat): nat {
    if n == 0 then 1 else 2 * Pow2(n - 1)
  }

  /** Every investment up to x stays within the token capacity. */
  ghost predicate FeasibleUpTo(buy: PoolPriceSnapshot, x: real, maxTokens: nat)
    requires Priceable(buy)
  {
    forall y :: y <= x ==> SimulateBuy(buy, y) <= maxTokens
  }

  ghost predicate InfeasibleFrom(buy: PoolPriceSnapshot, x: real, maxTokens: nat)
    requires Priceable(buy)
  {
    forall y :: x <= y ==> maxTokens < SimulateBuy(buy, y)
  }

  lemma FeasibilityIsThreshold(buy: PoolPriceSnapshot, x: real, maxTokens: nat)
    requires Priceable(buy) && BinsFit(buy)
    ensures if SimulateBuy(buy, x) <= maxTokens then FeasibleUpTo(buy, x, maxTokens) else InfeasibleFrom(buy, x, maxTokens)
  {
    forall y
      ensures y <= x ==> SimulateBuy(buy, y) <= SimulateBuy(buy, x)
      ensures x <= y ==> SimulateBuy(buy, x) <= SimulateBuy(buy, y)
    {
      if y <= x {
        SimulateBuyMonotone(buy, y, x);
      } else {
        SimulateBuyMonotone(buy, x, y);
      }
    }
  }

  /** n halvings of [lo, hi], keeping the feasible end. */
  function Bisect(buy: PoolPriceSnapshot, lo: real, hi: real, maxTokens: nat, n: nat): (invest: real)
    requires Priceable(buy)
    ensures lo <= hi ==> lo <= invest <= hi
    decreases n
  {
    if n == 0 then lo
    else
      var mid := (lo + hi) / 2.0;
      if SimulateBuy(buy, mid) <= maxTokens then Bisect(buy, mid, hi, maxTokens, n - 1)
      else Bisect(buy, lo, mid, maxTokens, n - 1)
  }

  function Capacity(buy: PoolPriceSnapshot, maxInvest: real, maxTokens: nat): real
    requires Priceable(buy)
  {
    if SimulateBuy(buy, maxInvest) <= maxTokens then maxInvest else Bisect(buy, 0.0, maxInvest, maxTokens, 12)
  }

  /** Everything up to the result is feasible, and everything from 1/4096 of the range above it is
      not, unless the whole range is feasible and returned. */
  method FindMaxInvestWithinCapacity(buy: PoolPriceSnapshot, maxInvest: real, maxTokens: nat) returns (invest: real)
    requires Priceable(buy) && BinsFit(buy) && 0.0 <= maxInvest
    ensures 0.0 <= invest <= maxInvest
    ensures FeasibleUpTo(buy, invest, maxTokens)
    ensures invest == maxInvest || InfeasibleFrom(buy, invest + maxInvest / 4096.0, maxTokens)
    ensures SimulateBuy(buy, maxInvest) <= maxTokens ==> invest == maxInvest
    ensures invest == Capacity(buy, maxInvest, maxTokens)
  {
    hide SimulateBuy;
    hide FeasibleUpTo;
    hide InfeasibleFrom;
    hide Halved;
    hide Bisect;
    FeasibilityIsThreshold(buy, maxInvest, maxTokens);
    var tokensAtMax := SimulateBuy(buy, maxInvest);
    if tokensAtMax <= maxTokens {
      return maxInvest;
    }
    NothingInvested(buy);
    FeasibilityIsThreshold(buy, 0.0, maxTokens);
    var lo, hi := 0.0, maxInvest;
    HalvingStarts(maxInvest);
    for i := 0 to 12
      invariant 0.0 <= lo <= hi <= maxInvest
      invariant Halved(hi - lo, maxInvest, i)
      invariant FeasibleUpTo(buy, lo, maxTokens) && InfeasibleFrom(buy, hi, maxTokens)
      invariant Bisect(buy, lo, hi, maxTokens, 12 - i) == Bisect(buy, 0.0, maxInvest, maxTokens, 12)
    {
      var mid := (lo + hi) / 2.0;
      FeasibilityIsThreshold(buy, mid, maxTokens);
      HalveWidth(hi - lo, maxInvest, i);
      BisectStep(buy, lo, hi, maxTokens, 12 - i);
      if SimulateBuy(buy, mid) <= maxTokens {
        lo := mid;
      } else {
        hi := mid;
      }
    }
    HalvedTwelveTimes(hi - lo, maxInvest);
    BisectEnds(buy, lo, hi, maxTokens);
    return lo;
  }

  /** w is `total` halved i times. */
  ghost predicate Halved(w: real, total: real, i: nat) {
    w * Pow2(i) as real == total
  }

  lemma HalveWidth(w: real, total: real, i: nat)
    requires Halved(w, total, i)
    ensures Halved(w / 2.0, total, i + 1)
  {
    assert Pow2(i + 1) as real == 2.0 * Pow2(i) as real;
  }

  lemma BisectStep(buy: PoolPriceSnapshot, lo: real, hi: real, maxTokens: nat, n: nat)
    requires Priceable(buy) && 0 < n
    ensures var mid := (lo + hi) / 2.0;
      Bisect(buy, lo, hi, maxTokens, n)
      == if SimulateBuy(buy, mid) <= maxTokens then Bisect(buy, mid, hi, maxTokens, n - 1) else Bisect(buy, lo, mid, maxTokens, n - 1)
  {
    hide SimulateBuy;
  }

  lemma BisectEnds(buy: PoolPriceSnapshot, lo: real, hi: real, maxTokens: nat)
    requires Priceable(buy)
    ensures Bisect(buy, lo, hi, maxTokens, 0) == lo
  {
  }

  lemma HalvingStarts(total: real)
    ensures Halved(total, total, 0)
  {
  }

  lemma HalvedTwelveTimes(w: real, total: real)
    requires Halved(w, total, 12)
    ensures w == total / 4096.0
  {
    Pow2Of12();
  }

  lemma Pow2Of12()
    ensures Pow2(12) == 4096
  {
    assert Pow2(4) == 16;
    assert Pow2(8) == 256;
  }

  // ------------------------------------------------------------------
  // Golden-section search
  // ------------------------------------------------------------------

  /** Twelve comparisons with one new evaluation each; the kept probe's value is carried over. The
      result is the one of the plain search that evaluates both probes every time. */
  method GoldenSearch(f: real -> real, lo: real, hi: real, invPhi: real) returns (best: real)
    requires lo <= hi && Golden(invPhi)
    ensures best == Best(f, invPhi, lo, hi, 12)
    ensures lo <= best <= hi
  {
    var a, b := lo, hi;
    var c, d := LeftProbe(invPhi, a, b), RightProbe(invPhi, a, b);
    var fc, fd := f(c), f(d);
    for i := 0 to 12
      invariant Searching(f, invPhi, lo, hi, a, b, c, d, fc, fd, 12 - i)
    {
      if fc > fd {
        KeepLeft(f, invPhi, lo, hi, a, b, c, d, fc, fd, 12 - i);
        b := d;
        d := c;
        fd := fc;
        c := LeftProbe(invPhi, a, b);
        fc := f(c);
      } else {
        KeepRight(f, invPhi, lo, hi, a, b, c, d, fc, fd, 12 - i);
        a := c;
        c := d;
        fc := fd;
        d := RightProbe(invPhi, a, b);
        fd := f(d);
      }
    }
    best := (a + b) / 2.0;
  }

  /** The investment the search settles on in [lo, hi], with its gross and net profit. */
  method GoldenSearchProfit(cfg: ScannerConfig, buy: PoolPriceSnapshot, sell: PoolPriceSnapshot, lo: real, hi: real, invPhi: real)
    returns (best: real, gross: real, net: real)
    requires Priceable(buy) && Priceable(sell) && lo <= hi && Golden(invPhi)
    ensures best == Best(Objective(cfg, buy, sell), invPhi, lo, hi, 12)
    ensures lo <= best <= hi
    ensures (gross, net) == ComputeArbAtInvestment(cfg, buy, sell, best)
  {
    best := GoldenSearch(Objective(cfg, buy, sell), lo, hi, invPhi);
    var profit := ComputeArbAtInvestment(cfg, buy, sell, best);
    gross, net := profit.0, profit.1;
  }

  // ------------------------------------------------------------------
  // Profit estimation
  // ------------------------------------------------------------------

  function Clamp(x: real, lo: real, hi: real): real {
    if x < lo then lo else if hi < x then hi else x
  }

  /** Mean of the spread above its minimum and of the used part of the maximum, each within [0, 1]. */
  function Confidence(cfg: ScannerConfig, priceDiffBps: u32, invest: real): (c: real)
    requires 0.0 < cfg.maxInvestmentSol && 0.0 <= invest
    ensures 0.0 <= c <= 1.0
  {
    RealDivGe(invest, cfg.maxInvestmentSol, 0.0);
    var price := Clamp(priceDiffBps as real / Max(cfg.minPriceDiffBps, 1) as real - 1.0, 0.0, 1.0);
    var depth := MinReal(invest / cfg.maxInvestmentSol, 1.0);
    (price + depth) / 2.0
  }

  /** Share of a pool's quote side, in whole quote units. */
  function QuoteShare(cfg: ScannerConfig, snap: PoolPriceSnapshot, unit: real): real
    requires 0.0 < unit
  {
    snap.solReservesRaw as real / unit * cfg.maxPoolShare
  }

  /** Share of a pool's token side, in raw tokens. */
  function TokenShare(cfg: ScannerConfig, snap: PoolPriceSnapshot): nat {
    SaturateToU128(Portion(snap.tokenReservesRaw, cfg.maxPoolShare))
  }

  /** Most the sell side can return: its pool share, or the absolute cap. */
  function SellCap(cfg: ScannerConfig, sell: PoolPriceSnapshot, unit: real): real
    requires 0.0 < unit
  {
    MinReal(QuoteShare(cfg, sell, unit), cfg.maxAbsoluteSolOut)
  }

  predicate HasReserves(snap: PoolPriceSnapshot) {
    snap.solReservesRaw != 0 && snap.tokenReservesRaw != 0
  }

  /** Every limit on the size of a trade that ends the search range. */
  ghost predicate WithinLimits(cfg: ScannerConfig, buy: PoolPriceSnapshot, sell: PoolPriceSnapshot, invest: real) {
    && invest <= cfg.maxInvestmentSol
    && invest <= QuoteShare(cfg, buy, QuoteUnit(buy))
    && invest <= SellCap(cfg, sell, QuoteUnit(buy)) * 1.2
    && Priceable(buy)
    && SimulateBuy(buy, invest) as real <= Portion(sell.tokenReservesRaw, cfg.maxPoolShare)
  }

  lemma LimitsAreDownwardClosed(cfg: ScannerConfig, buy: PoolPriceSnapshot, sell: PoolPriceSnapshot, invest: real, upper: real)
    requires WithinLimits(cfg, buy, sell, upper) && invest <= upper && BinsFit(buy)
    ensures WithinLimits(cfg, buy, sell, invest)
  {
    SimulateBuyMonotone(buy, invest, upper);
  }

  lemma CapacityIsShare(cfg: ScannerConfig, buy: PoolPriceSnapshot, sell: PoolPriceSnapshot, invest: real, capacity: real)
    requires Priceable(buy) && invest <= capacity && 0 < TokenShare(cfg, sell)
    requires FeasibleUpTo(buy, capacity, TokenShare(cfg, sell))
    ensures SimulateBuy(buy, invest) as real <= Portion(sell.tokenReservesRaw, cfg.maxPoolShare)
  {
    hide SimulateBuy;
    assert SimulateBuy(buy, invest) <= TokenShare(cfg, sell);
    hide FeasibleUpTo;
    SaturatedBelow(Portion(sell.tokenReservesRaw, cfg.maxPoolShare));
  }

  lemma SaturatedBelow(x: real)
    ensures 0 < SaturateToU128(x) ==> SaturateToU128(x) as real <= x
  {
  }

  /** The end of the searched range as a function of the snapshots. */
  function RangeEnd(cfg: ScannerConfig, buy: PoolPriceSnapshot, sell: PoolPriceSnapshot): (end: Option<real>)
    requires buy.feeBps <= 10000
    ensures end.Some? ==> MIN_INVEST <= end.value <= cfg.maxInvestmentSol && HasReserves(buy) && HasReserves(sell)
  {
    if !HasReserves(buy) || !HasReserves(sell) then None
    else
      var unit := QuoteUnit(buy);
      var maxInvest := MinReal(QuoteShare(cfg, buy, unit), cfg.maxInvestmentSol);
      var maxTokens := TokenShare(cfg, sell);
      if maxInvest < MIN_INVEST || maxTokens == 0 then None
      else
        var bound := MinReal(Capacity(buy, maxInvest, maxTokens), SellCap(cfg, sell, unit) * 1.2);
        if bound < MIN_INVEST then None else Some(bound)
  }

  lemma {:induction false} BisectStaysFeasible(buy: PoolPriceSnapshot, lo: real, hi: real, maxTokens: nat, n: nat)
    requires Priceable(buy) && BinsFit(buy) && lo <= hi && FeasibleUpTo(buy, lo, maxTokens)
    ensures FeasibleUpTo(buy, Bisect(buy, lo, hi, maxTokens, n), maxTokens)
    decreases n
  {
    hide SimulateBuy;
    hide FeasibleUpTo;
    hide InfeasibleFrom;
    if n != 0 {
      var mid := (lo + hi) / 2.0;
      FeasibilityIsThreshold(buy, mid, maxTokens);
      if SimulateBuy(buy, mid) <= maxTokens {
        BisectStaysFeasible(buy, mid, hi, maxTokens, n - 1);
      } else {
        BisectStaysFeasible(buy, lo, mid, maxTokens, n - 1);
      }
    }
  }

  lemma CapacityIsFeasible(buy: PoolPriceSnapshot, maxInvest: real, maxTokens: nat)
    requires Priceable(buy) && BinsFit(buy) && 0.0 <= maxInvest
    ensures FeasibleUpTo(buy, Capacity(buy, maxInvest, maxTokens), maxTokens)
  {
    hide SimulateBuy;
    hide FeasibleUpTo;
    hide InfeasibleFrom;
    hide Bisect;
    FeasibilityIsThreshold(buy, maxInvest, maxTokens);
    NothingInvested(buy);
    FeasibilityIsThreshold(buy, 0.0, maxTokens);
    BisectStaysFeasible(buy, 0.0, maxInvest, maxTokens, 12);
  }

  /** The whole searched range lies within every limit. */
  lemma RangeWithinLimits(cfg: ScannerConfig, buy: PoolPriceSnapshot, sell: PoolPriceSnapshot, invest: real)
    requires buy.feeBps <= 10000 && BinsFit(buy)
    requires RangeEnd(cfg, buy, sell).Some? && invest <= RangeEnd(cfg, buy, sell).value
    ensures WithinLimits(cfg, buy, sell, invest)
  {
    hide SimulateBuy;
    hide FeasibleUpTo;
    hide Capacity;
    hide QuoteShare;
    hide SellCap;
    hide TokenShare;
    hide QuoteUnit;
    hide BinsFit;
    var maxInvest := MinReal(QuoteShare(cfg, buy, QuoteUnit(buy)), cfg.maxInvestmentSol);
    var capacity := Capacity(buy, maxInvest, TokenShare(cfg, sell));
    CapacityAtMost(buy, maxInvest, TokenShare(cfg, sell));
    CapacityIsFeasible(buy, maxInvest, TokenShare(cfg, sell));
    CapacityIsShare(cfg, buy, sell, invest, capacity);
  }

  lemma CapacityAtMost(buy: PoolPriceSnapshot, maxInvest: real, maxTokens: nat)
    requires Priceable(buy) && 0.0 <= maxInvest
    ensures 0.0 <= Capacity(buy, maxInvest, maxTokens) <= maxInvest
  {
    hide SimulateBuy;
    hide Bisect;
  }

  /** (investment, gross, net) as a function of the snapshots. */
  ghost function Estimate(cfg: ScannerConfig, buy: PoolPriceSnapshot, sell: PoolPriceSnapshot, invPhi: real): (e: (real, real, real))
    requires buy.feeBps <= 10000 && sell.feeBps <= 10000 && Golden(invPhi)
    ensures e != (0.0, 0.0, 0.0) ==>
      && MIN_INVEST <= e.0 <= cfg.maxInvestmentSol && HasReserves(buy) && HasReserves(sell)
      && (e.1, e.2) == ComputeArbAtInvestment(cfg, buy, sell, e.0)
  {
    var end := RangeEnd(cfg, buy, sell);
    if end.None? then (0.0, 0.0, 0.0)
    else
      var f := Objective(cfg, buy, sell);
      RunShrinks(f, invPhi, MIN_INVEST, end.value, 12);
      var best := Best(f, invPhi, MIN_INVEST, end.value, 12);
      var profit := ComputeArbAtInvestment(cfg, buy, sell, best);
      (best, profit.0, profit.1)
  }

  /** The end of the searched range, or None where the estimate gives up. */
  method SearchUpper(cfg: ScannerConfig, buy: PoolPriceSnapshot, sell: PoolPriceSnapshot) returns (upper: Option<real>)
    requires buy.feeBps <= 10000 && BinsFit(buy)
    ensures !HasReserves(buy) || !HasReserves(sell) ==> upper.None?
    ensures upper.Some? ==> MIN_INVEST <= upper.value && WithinLimits(cfg, buy, sell, upper.value)
    ensures upper == RangeEnd(cfg, buy, sell)
  {
    hide SimulateBuy;
    hide WithinLimits;
    hide BinsFit;
    hide FeasibleUpTo;
    hide InfeasibleFrom;
    hide Capacity;
    hide QuoteUnit;
    hide QuoteShare;
    hide TokenShare;
    hide SellCap;
    if !HasReserves(buy) || !HasReserves(sell) {
      return None;
    }
    var quoteUnit := QuoteUnit(buy);
    var quoteCap := QuoteShare(cfg, buy, quoteUnit);
    var maxInvest := MinReal(quoteCap, cfg.maxInvestmentSol);
    if maxInvest < MIN_INVEST {
      return None;
    }
    var maxTokens := TokenShare(cfg, sell);
    if maxTokens == 0 {
      return None;
    }
    var capacity := FindMaxInvestWithinCapacity(buy, maxInvest, maxTokens);
    if capacity < MIN_INVEST {
      return None;
    }
    var maxOut := SellCap(cfg, sell, quoteUnit);
    var bound := MinReal(capacity, maxOut * 1.2);
    if bound < MIN_INVEST {
      return None;
    }
    RangeWithinLimits(cfg, buy, sell, bound);
    return Some(bound);
  }

  /** Either nothing, or an investment inside every limit, found by the golden-section search on
      [MIN_INVEST, upper], with its own gross and net profit. */
  method EstimateProfit(cfg: ScannerConfig, buy: PoolPriceSnapshot, sell: PoolPriceSnapshot, priceDiffBps: u32, invPhi: real)
    returns (invest: real, gross: real, net: real, confidence: real, ghost upper: real)
    requires buy.feeBps <= 10000 && sell.feeBps <= 10000 && BinsFit(buy) && Golden(invPhi)
    ensures (invest, gross, net) == Estimate(cfg, buy, sell, invPhi)
    ensures !HasReserves(buy) || !HasReserves(sell) ==> invest == 0.0
    ensures invest == 0.0 ==> gross == net == confidence == 0.0
    ensures invest != 0.0 ==>
      && MIN_INVEST <= invest <= upper
      && WithinLimits(cfg, buy, sell, invest) && WithinLimits(cfg, buy, sell, upper)
      && Priceable(sell)
      && (gross, net) == ComputeArbAtInvestment(cfg, buy, sell, invest)
      && invest == Best(Objective(cfg, buy, sell), invPhi, MIN_INVEST, upper, 12)
      && confidence == Confidence(cfg, priceDiffBps, invest)
  {
    upper := 0.0;
    var bound := SearchUpper(cfg, buy, sell);
    if bound.None? {
      return 0.0, 0.0, 0.0, 0.0, upper;
    }
    upper := bound.value;
    invest, gross, net := GoldenSearchProfit(cfg, buy, sell, MIN_INVEST, bound.value, invPhi);
    LimitsAreDownwardClosed(cfg, buy, sell, invest, upper);
    confidence := Confidence(cfg, priceDiffBps, invest);
  }
}
