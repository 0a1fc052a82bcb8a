/** The route builders' pricing: re-price the buy leg, shave it by the slippage tolerance, price the
    sell leg on what is left, and reject below the profit threshold. */
module Route {
  import opened Arith
  import CP = ConstantProduct

  datatype RouteConfig = RouteConfig(
    minProfitThresholdSol: real,
    slippageToleranceBps: u32,
    pumpswapFeeBps: u32,
    computeUnitPriceMicroLamports: u64,
    computeUnitLimit: u32)

  datatype Pricing = SubtractivePpm(feeRate: u64) | AdditiveBps(feeBps: u32)

  /** A pool by its SOL side and its token side. */
  datatype Pool = Pool(sol: u64, meme: u64, pricing: Pricing)

  /** Cached CPMM vaults, in the pool's own token order. */
  datatype CpmmState = CpmmState(token0IsSol: bool, vault0: u64, vault1: u64)

  /** Cached Whirlpool reserves, in the pool's own token order. */
  datatype WhirlpoolState = WhirlpoolState(tokenXIsSol: bool, reserveX: u64, reserveY: u64, feeRate: u16)

  /** Fresh PumpSwap reserves. */
  datatype PumpswapState = PumpswapState(solReserves: u64, tokenReserves: u64)

  datatype Rejection = BuyOverflow | SellOverflow | BelowThreshold(freshNet: real)

  datatype Accepted = Accepted(lamports: u64, memeOut: u64, minMemeOut: u64, solOut: u64)

  datatype Outcome = Accept(route: Accepted) | Reject(reason: Rejection)

  // ------------------------------------------------------------------
  // Amounts
  // ------------------------------------------------------------------

  /** SOL to lamports, capped instead of wrapping. */
  function SolToLamports(sol: real): u64 {
    var lamports := sol * LAMPORTS_PER_SOL;
    if lamports < 0.0 then 0
    else if lamports > (U64_LIMIT - 1) as real then U64_LIMIT - 1
    else lamports.Floor
  }

  function LamportsToSol(lamports: u64): real {
    lamports as real / LAMPORTS_PER_SOL
  }

  /** Minimum-output ratio: the tolerance is widened for trades that move the pool. */
  function EffectiveSlippage(amountIn: u64, reserveIn: u64, baseToleranceBps: u32): real {
    var tolerance := baseToleranceBps as real / 10000.0;
    if reserveIn == 0 then 1.0 - tolerance
    else
      var impact := amountIn as real / reserveIn as real;
      var multiplier := if impact > 0.01 then 2.5 else if impact > 0.001 then 1.5 else 1.0;
      1.0 - tolerance * multiplier
  }

  function CuCostSol(cfg: RouteConfig): real {
    cfg.computeUnitPriceMicroLamports as real * cfg.computeUnitLimit as real / 1_000_000.0 / 1_000_000_000.0 + 0.000005
  }

  function BuyOut(pool: Pool, lamports: u64): Option<u64> {
    match pool.pricing
    case SubtractivePpm(rate) => CP.CheckedCpSwapOutput(pool.sol, pool.meme, lamports, rate)
    case AdditiveBps(fee) => CP.CheckedPumpswapBuyOutput(lamports, pool.sol, pool.meme, fee)
  }

  function SellOut(pool: Pool, meme: u64): Option<u64> {
    match pool.pricing
    case SubtractivePpm(rate) => CP.CheckedCpSwapOutput(pool.meme, pool.sol, meme, rate)
    case AdditiveBps(fee) => CP.CheckedPumpswapSellOutput(meme, pool.meme, pool.sol, fee)
  }

  // ------------------------------------------------------------------
  // The builders
  // ------------------------------------------------------------------

  function MinMemeOut(memeOut: u64, slippage: real): u64 {
    SaturateToU64(Shaved(memeOut as real, slippage))
  }

  function Shaved(memeOut: real, slippage: real): real {
    memeOut * slippage
  }

  function FreshNet(cfg: RouteConfig, solOut: u64, investmentSol: real): real {
    LamportsToSol(solOut) - investmentSol - CuCostSol(cfg)
  }

  /** The pricing and the freshness check all builders share. `investmentSol` is the opportunity's
      investment, `lamports` the amount actually put in. */
  function PriceRoute(cfg: RouteConfig, buy: Pool, sell: Pool, lamports: u64, investmentSol: real): Outcome {
    var meme := BuyOut(buy, lamports);
    if meme.None? then Reject(BuyOverflow)
    else
      var minMemeOut := MinMemeOut(meme.value, EffectiveSlippage(lamports, buy.sol, cfg.slippageToleranceBps));
      var sol := SellOut(sell, minMemeOut);
      if sol.None? then Reject(SellOverflow)
      else
        var freshNet := FreshNet(cfg, sol.value, investmentSol);
        if freshNet < cfg.minProfitThresholdSol then Reject(BelowThreshold(freshNet))
        else Accept(Accepted(lamports, meme.value, minMemeOut, sol.value))
  }

  function CpmmPool(s: CpmmState): Pool {
    if s.token0IsSol then Pool(s.vault0, s.vault1, SubtractivePpm(CP.CPMM_DEFAULT_TRADE_FEE_RATE))
    else Pool(s.vault1, s.vault0, SubtractivePpm(CP.CPMM_DEFAULT_TRADE_FEE_RATE))
  }

  function WhirlpoolPool(s: WhirlpoolState): Pool {
    if s.tokenXIsSol then Pool(s.reserveX, s.reserveY, SubtractivePpm(s.feeRate))
    else Pool(s.reserveY, s.reserveX, SubtractivePpm(s.feeRate))
  }

  function PumpswapPool(cfg: RouteConfig, s: PumpswapState): Pool {
    Pool(s.solReserves, s.tokenReserves, AdditiveBps(cfg.pumpswapFeeBps))
  }

  function CapAtThird(reserve: u64, lamports: u64): u64 {
    if reserve > 0 && lamports > reserve / 3 then Min(lamports, reserve / 3) else lamports
  }

  function CapAtThirdOrOne(reserve: u64, lamports: u64): u64 {
    Min(lamports, Max(reserve / 3, 1))
  }

  function BuildCpmmToWhirlpool(cfg: RouteConfig, cpmm: CpmmState, wp: WhirlpoolState, investmentSol: real): Outcome {
    PriceRoute(cfg, CpmmPool(cpmm), WhirlpoolPool(wp), SolToLamports(investmentSol), investmentSol)
  }

  function BuildWhirlpoolToCpmm(cfg: RouteConfig, wp: WhirlpoolState, cpmm: CpmmState, investmentSol: real): Outcome {
    var lamports := CapAtThird(WhirlpoolPool(wp).sol, SolToLamports(investmentSol));
    PriceRoute(cfg, WhirlpoolPool(wp), CpmmPool(cpmm), lamports, investmentSol)
  }

  function BuildPumpToCpmm(cfg: RouteConfig, pump: PumpswapState, cpmm: CpmmState, investmentSol: real): Outcome {
    var lamports := CapAtThirdOrOne(pump.solReserves, SolToLamports(investmentSol));
    PriceRoute(cfg, PumpswapPool(cfg, pump), CpmmPool(cpmm), lamports, investmentSol)
  }

  function BuildCpmmToPump(cfg: RouteConfig, cpmm: CpmmState, pump: PumpswapState, investmentSol: real): Outcome {
    PriceRoute(cfg, CpmmPool(cpmm), PumpswapPool(cfg, pump), SolToLamports(investmentSol), investmentSol)
  }

  // ------------------------------------------------------------------
  // Slippage
  // ------------------------------------------------------------------

  lemma ImpactGrows(a: u64, b: u64, reserve: u64)
    requires a <= b && 0 < reserve
    ensures a as real / reserve as real <= b as real / reserve as real
  {
    RealDivMono(a as real, b as real, reserve as real);
  }

  /** The ratio never exceeds 1, and a larger trade never gets a larger one. */
  lemma SlippageTightensWithSize(a: u64, b: u64, reserve: u64, tolerance: u32)
    requires a <= b
    ensures EffectiveSlippage(b, reserve, tolerance) <= EffectiveSlippage(a, reserve, tolerance) <= 1.0
  {
    if reserve != 0 {
      ImpactGrows(a, b, reserve);
    }
  }

  lemma ShavedBelowEstimate(memeOut: u64, slippage: real)
    requires slippage <= 1.0
    ensures MinMemeOut(memeOut, slippage) <= memeOut
  {
    hide SaturateToU64;
    hide Shaved;
    ScaledDown(memeOut as real, slippage);
    SaturateBelow(Shaved(memeOut as real, slippage), memeOut);
  }

  lemma ScaledDown(m: real, k: real)
    requires 0.0 <= m && k <= 1.0
    ensures Shaved(m, k) <= m
  {
    RealMulMono(k, 1.0, m);
    assert m * k == k * m;
  }

  lemma SaturateBelow(x: real, n: u64)
    requires x <= n as real
    ensures SaturateToU64(x) <= n
  {
  }

  // ------------------------------------------------------------------
  // Monotone legs
  // ------------------------------------------------------------------

  /** If selling a amount returns something, selling more returns no less (and never fails). */
  lemma SellMonotone(pool: Pool, a: u64, b: u64)
    requires a <= b && SellOut(pool, a).Some? && 0 < SellOut(pool, a).value
    ensures SellOut(pool, b).Some? && SellOut(pool, a).value <= SellOut(pool, b).value
  {
    match pool.pricing
    case SubtractivePpm(rate) =>
      CP.CheckedCpRefinesPpm(pool.meme, pool.sol, a, rate);
      CP.CheckedCpRefinesPpm(pool.meme, pool.sol, b, rate);
      CP.PpmFormLaws(pool.meme, pool.sol, a, b, rate, rate);
    case AdditiveBps(fee) =>
      CP.CheckedRefinesUnchecked(pool.meme, pool.sol, a, fee);
      CP.CheckedRefinesUnchecked(pool.meme, pool.sol, b, fee);
      CP.EstimateIsExact(pool.meme, pool.sol, a, fee);
      CP.EstimateIsExact(pool.meme, pool.sol, b, fee);
      CP.AdditiveFormLaws(pool.meme, pool.sol, a, b, fee, fee);
  }

  /** Nothing in, nothing out. */
  lemma NothingSold(pool: Pool)
    ensures SellOut(pool, 0) == Some(0) && BuyOut(pool, 0) == Some(0)
  {
  }

  lemma LamportsBelowSol(sol: real)
    requires 0.0 <= sol
    ensures LamportsToSol(SolToLamports(sol)) <= sol
  {
    RealDivLe(SolToLamports(sol) as real, LAMPORTS_PER_SOL, sol);
  }

  lemma LamportsMonotone(a: u64, b: u64)
    requires a <= b
    ensures LamportsToSol(a) <= LamportsToSol(b)
  {
    RealDivMono(a as real, b as real, LAMPORTS_PER_SOL);
  }

  // ------------------------------------------------------------------
  // What acceptance guarantees
  // ------------------------------------------------------------------

  /** What the round trip nets when `meme` tokens are delivered and sold. */
  ghost function RealisedNet(cfg: RouteConfig, sell: Pool, spent: u64, meme: u64): Option<real> {
    match SellOut(sell, meme)
    case None => None
    case Some(sol) => Some(LamportsToSol(sol) - LamportsToSol(spent) - CuCostSol(cfg))
  }

  /** The guarantee of an accepted route: it puts in no more than the opportunity's investment; the
      buy pool as priced delivers the minimum; and whatever is delivered from the minimum up, the
      sell pool as priced returns at least the estimate and the trade nets the threshold. */
  ghost predicate Guaranteed(cfg: RouteConfig, buy: Pool, sell: Pool, investmentSol: real, route: Accepted) {
    && 0 < route.lamports && LamportsToSol(route.lamports) <= investmentSol
    && BuyOut(buy, route.lamports) == Some(route.memeOut) && 0 < route.minMemeOut <= route.memeOut
    && (forall m: u64 :: route.minMemeOut <= m ==> Pays(cfg, sell, route, m))
  }

  ghost predicate Pays(cfg: RouteConfig, sell: Pool, route: Accepted, m: u64) {
    && SellOut(sell, m).Some? && route.solOut <= SellOut(sell, m).value
    && RealisedNet(cfg, sell, route.lamports, m).value >= cfg.minProfitThresholdSol
  }

  lemma CuCostPositive(cfg: RouteConfig)
    ensures 0.0 < CuCostSol(cfg)
  {
    var p, l := cfg.computeUnitPriceMicroLamports as real, cfg.computeUnitLimit as real;
    RealMulMono(0.0, p, l);
    RealDivGe(p * l, 1_000_000.0, 0.0);
    RealDivGe(p * l / 1_000_000.0, 1_000_000_000.0, 0.0);
  }

  lemma EstimateIsPositive(cfg: RouteConfig, solOut: u64, investmentSol: real)
    requires cfg.minProfitThresholdSol > 0.0 && 0.0 <= investmentSol
    requires FreshNet(cfg, solOut, investmentSol) >= cfg.minProfitThresholdSol
    ensures 0 < solOut
  {
    CuCostPositive(cfg);
  }

  lemma AcceptedRoutePays(cfg: RouteConfig, buy: Pool, sell: Pool, lamports: u64, investmentSol: real)
    requires cfg.minProfitThresholdSol > 0.0 && 0.0 <= investmentSol && LamportsToSol(lamports) <= investmentSol
    requires PriceRoute(cfg, buy, sell, lamports, investmentSol).Accept?
    ensures Guaranteed(cfg, buy, sell, investmentSol, PriceRoute(cfg, buy, sell, lamports, investmentSol).route)
  {
    hide BuyOut;
    hide SellOut;
    hide CuCostSol;
    hide LamportsToSol;
    hide EffectiveSlippage;
    hide MinMemeOut;
    var route := PriceRoute(cfg, buy, sell, lamports, investmentSol).route;
    SlippageTightensWithSize(lamports, lamports, buy.sol, cfg.slippageToleranceBps);
    ShavedBelowEstimate(route.memeOut, EffectiveSlippage(lamports, buy.sol, cfg.slippageToleranceBps));
    EstimateIsPositive(cfg, route.solOut, investmentSol);
    NothingSold(sell);
    NothingSold(buy);
    forall m: u64 | route.minMemeOut <= m
      ensures Pays(cfg, sell, route, m)
    {
      SellMonotone(sell, route.minMemeOut, m);
      LamportsMonotone(route.solOut, SellOut(sell, m).value);
    }
  }

  /** Every route the four builders accept carries the guarantee, re-capped or not. */
  lemma BuildersGuarantee(cfg: RouteConfig, cpmm: CpmmState, wp: WhirlpoolState, pump: PumpswapState, investmentSol: real)
    requires cfg.minProfitThresholdSol > 0.0 && 0.0 <= investmentSol
    ensures var o := BuildCpmmToWhirlpool(cfg, cpmm, wp, investmentSol);
      o.Accept? ==> Guaranteed(cfg, CpmmPool(cpmm), WhirlpoolPool(wp), investmentSol, o.route)
    ensures var o := BuildWhirlpoolToCpmm(cfg, wp, cpmm, investmentSol);
      o.Accept? ==> Guaranteed(cfg, WhirlpoolPool(wp), CpmmPool(cpmm), investmentSol, o.route)
    ensures var o := BuildPumpToCpmm(cfg, pump, cpmm, investmentSol);
      o.Accept? ==> Guaranteed(cfg, PumpswapPool(cfg, pump), CpmmPool(cpmm), investmentSol, o.route)
    ensures var o := BuildCpmmToPump(cfg, cpmm, pump, investmentSol);
      o.Accept? ==> Guaranteed(cfg, CpmmPool(cpmm), PumpswapPool(cfg, pump), investmentSol, o.route)
  {
    hide PriceRoute;
    hide Guaranteed;
    hide SolToLamports;
    hide LamportsToSol;
    var full := SolToLamports(investmentSol);
    LamportsBelowSol(investmentSol);
    var c, w, p := CpmmPool(cpmm), WhirlpoolPool(wp), PumpswapPool(cfg, pump);
    if PriceRoute(cfg, c, w, full, investmentSol).Accept? {
      AcceptedRoutePays(cfg, c, w, full, investmentSol);
    }
    if PriceRoute(cfg, c, p, full, investmentSol).Accept? {
      AcceptedRoutePays(cfg, c, p, full, investmentSol);
    }
    var third := CapAtThird(w.sol, full);
    LamportsMonotone(third, full);
    if PriceRoute(cfg, w, c, third, investmentSol).Accept? {
      AcceptedRoutePays(cfg, w, c, third, investmentSol);
    }
    var orOne := CapAtThirdOrOne(pump.solReserves, full);
    LamportsMonotone(orOne, full);
    if PriceRoute(cfg, p, c, orOne, investmentSol).Accept? {
      AcceptedRoutePays(cfg, p, c, orOne, investmentSol);
    }
  }

  /** Exactly when a route is accepted: both legs price, and what it nets at the minimum delivery
      covers the threshold plus whatever part of the investment the cap held back. A re-capped
      route is thus judged too strictly by that part, never too leniently. */
  lemma AcceptedIff(cfg: RouteConfig, buy: Pool, sell: Pool, lamports: u64, investmentSol: real)
    ensures PriceRoute(cfg, buy, sell, lamports, investmentSol).Accept? <==>
      && BuyOut(buy, lamports).Some?
      && (var m := MinMemeOut(BuyOut(buy, lamports).value, EffectiveSlippage(lamports, buy.sol, cfg.slippageToleranceBps));
          var net := RealisedNet(cfg, sell, lamports, m);
          net.Some? && net.value >= cfg.minProfitThresholdSol + (investmentSol - LamportsToSol(lamports)))
  {
    hide BuyOut;
    hide SellOut;
    hide CuCostSol;
    hide LamportsToSol;
    hide EffectiveSlippage;
    hide MinMemeOut;
  }
}
