/** Pool prices and fees as the price queries compute them, the spread between two pools, and the
    filter that drops profits the spread cannot explain. */
module Spread {
  import opened Arith
  import opened Sizing
  import CP = ConstantProduct

  const NATIVE_SOL_MINT := "So11111111111111111111111111111111111111112"
  const USDC_MINT := "EPjFWdd5AufqSSqeM2qN1xzybapC8G4wEGGkZwyTDt1v"
  const USDT_MINT := "Es9vMFrzaCERmJfrF4H2FYD4KCoNkY11McCe8BenwNYB"

  function GuessDecimals(mint: string): (d: nat)
    ensures d <= 9
  {
    if mint == NATIVE_SOL_MINT then 9 else if mint == USDC_MINT || mint == USDT_MINT then 6 else 6
  }

  /** Price of a token in SOL from a pool's raw reserves; none for a pool without tokens. */
  function RawToSolPerToken(solRaw: u64, tokenRaw: u64, mint: string): Option<real> {
    if tokenRaw == 0 then None
    else
      var ratio := solRaw as real / tokenRaw as real;
      Some(ratio / Pow10(9 - GuessDecimals(mint)))
  }

  /** A DLMM pool's fee from its parameters. */
  function ComputeFeeBps(binStep: u16, baseFactor: u16): u32 {
    if baseFactor == 0 then 100 else Max(binStep * 10000 / baseFactor, 1)
  }

  /** The computed fee is never 0, and it is one that swaps can be priced with (at most 100%)
      exactly for pools of an unknown base factor or a bin step the base factor covers. */
  lemma FeeIsPriceableIff(binStep: u16, baseFactor: u16)
    ensures 1 <= ComputeFeeBps(binStep, baseFactor)
    ensures ComputeFeeBps(binStep, baseFactor) <= 10000 <==> baseFactor == 0 || binStep * 10000 < baseFactor * 10001
  {
    if baseFactor != 0 {
      DivCharacter(binStep * 10000, baseFactor, 10001);
    }
  }

  /** The sell price above the buy price, in basis points of the buy price; a cast drops the
      fraction and saturates. */
  function PriceDiffBps(buyPrice: real, sellPrice: real): u32
    requires buyPrice != 0.0
  {
    SaturateToU32((sellPrice - buyPrice) / buyPrice * 10000.0)
  }

  function SaturateToU32(x: real): u32 {
    if x < 0.0 then 0 else if x.Floor >= U32_LIMIT then U32_LIMIT - 1 else x.Floor
  }

  /** The sell price above the buy price, as a part of the buy price. */
  ghost function RelativeSpread(buyPrice: real, sellPrice: real): real
    requires buyPrice != 0.0
  {
    sellPrice / buyPrice - 1.0
  }

  /** Gross above three times what the spread explains, or above 0.001 SOL if that is more. */
  predicate CapArtifact(investment: real, gross: real, priceDiffBps: u32) {
    gross > MaxReal(investment * (priceDiffBps as real / 10000.0) * 3.0, 0.001)
  }

  /** A constant-product pool whose price is its reserve ratio. */
  ghost predicate PricedByReserves(snap: PoolPriceSnapshot, mint: string) {
    && snap.bins == [] && Priceable(snap)
    && RawToSolPerToken(snap.solReservesRaw, snap.tokenReservesRaw, mint) == Some(snap.solPerToken)
  }

  // ------------------------------------------------------------------
  // A curve never pays better than its reserve ratio
  // ------------------------------------------------------------------

  /** An output below the reserve ratio times the input, and strictly if anything comes out. */
  ghost predicate BelowSpot(out: nat, ri: nat, ro: nat, amount: nat) {
    out * ri <= ro * amount && (0 < out ==> out * ri < ro * amount)
  }

  lemma CurveBelowSpot(ri: nat, ro: nat, amount: nat, feeBps: nat)
    requires feeBps <= 10000 && 0 < ri
    ensures BelowSpot(CP.BpsOut(ri, ro, amount, feeBps), ri, ro, amount)
  {
    var eff, k := CP.AfterFeeBps(amount, feeBps), CP.BpsOut(ri, ro, amount, feeBps);
    CP.AfterFeeBpsBounds(amount, feeBps);
    CP.CurveKeepsProduct(ri, ro, eff);
    assert (ri + eff) * (ro - k) == ri * ro + ro * eff - k * ri - k * eff;
    MulMono(eff, amount, ro);
    if 0 < k {
      NoInputNoOutput(ri, ro);
      MulMono(1, k, eff);
    }
  }

  lemma NoInputNoOutput(ri: nat, ro: nat)
    requires 0 < ri
    ensures CP.CurveOut(ri, ro, 0) == 0
  {
    DivUnique(ro * 0, ri, 0);
  }

  /** Two curves in a row: the product of the two reserve ratios bounds what comes back. */
  lemma TwoSpots(s: nat, t: nat, t2: nat, s2: nat, q: nat, tokens: nat, back: nat)
    requires 0 < s && 0 < t2 && BelowSpot(tokens, s, t, q) && BelowSpot(back, t2, s2, tokens)
    ensures back * (t2 * s) <= s2 * t * q
    ensures 0 < back ==> back * (t2 * s) < s2 * t * q
  {
    MulMono(back * t2, s2 * tokens, s);
    MulMono(tokens * s, t * q, s2);
    Associate(back, t2, s);
    Rotate(s2, tokens, s);
    Rotate(s2, t, q);
    if 0 < back {
      MulStrict(back * t2, s2 * tokens, s);
    }
  }

  lemma Associate(a: int, b: int, c: int)
    ensures a * (b * c) == a * b * c
  {
  }

  lemma Rotate(a: int, b: int, c: int)
    ensures a * b * c == b * c * a
  {
  }

  // ------------------------------------------------------------------
  // The price ratio is the product of the reserve ratios
  // ------------------------------------------------------------------

  ghost function PriceRatio(buy: PoolPriceSnapshot, sell: PoolPriceSnapshot): real
    requires buy.solPerToken > 0.0
  {
    sell.solPerToken / buy.solPerToken
  }

  ghost predicate IsRatio(ratio: real, n: nat, d: nat) {
    ratio * d as real == n as real
  }

  lemma PriceIsPositive(snap: PoolPriceSnapshot, mint: string)
    requires PricedByReserves(snap, mint)
    ensures 0.0 < snap.solPerToken
    ensures snap.solPerToken * Pow10(9 - GuessDecimals(mint)) * snap.tokenReservesRaw as real == snap.solReservesRaw as real
  {
    hide Pow10;
    PositivePrice(snap.solReservesRaw as real, snap.tokenReservesRaw as real, Pow10(9 - GuessDecimals(mint)));
  }

  lemma PositivePrice(s: real, t: real, unit: real)
    requires 0.0 < s && 0.0 < t && 1.0 <= unit
    ensures 0.0 < s / t / unit && s / t / unit * unit * t == s
  {
    var p := s / t;
    var q := p / unit;
    assert p * t == s && q * unit == p;
    if p <= 0.0 {
      RealMulMono(p, 0.0, t);
    }
    if q <= 0.0 {
      RealMulMono(q, 0.0, unit);
    }
  }

  lemma RatioOfReserves(buy: PoolPriceSnapshot, sell: PoolPriceSnapshot, mint: string)
    requires PricedByReserves(buy, mint) && PricedByReserves(sell, mint)
    ensures buy.solPerToken > 0.0
    ensures 0 <= sell.solReservesRaw * buy.tokenReservesRaw && 0 <= sell.tokenReservesRaw * buy.solReservesRaw
    ensures IsRatio(PriceRatio(buy, sell), sell.solReservesRaw * buy.tokenReservesRaw, sell.tokenReservesRaw * buy.solReservesRaw)
  {
    hide RawToSolPerToken;
    hide GuessDecimals;
    hide Pow10;
    PriceIsPositive(buy, mint);
    PriceIsPositive(sell, mint);
    RatioCross(buy.solPerToken, sell.solPerToken, Pow10(9 - GuessDecimals(mint)),
               buy.solReservesRaw as real, buy.tokenReservesRaw as real, sell.solReservesRaw as real, sell.tokenReservesRaw as real);
  }

  lemma RatioCross(pb: real, ps: real, unit: real, s: real, t: real, s2: real, t2: real)
    requires 0.0 < pb && pb * unit * t == s && ps * unit * t2 == s2
    ensures ps / pb * (t2 * s) == s2 * t
  {
    var r := ps / pb;
    assert r * pb == ps;
    calc {
      r * (t2 * s);
      r * (t2 * (pb * unit * t));
      (r * pb) * unit * t2 * t;
      (ps * unit * t2) * t;
      s2 * t;
    }
  }

  // ------------------------------------------------------------------
  // Gross profit is bounded by the spread
  // ------------------------------------------------------------------

  /** q units put in bring back at most ratio * q, and less if anything. */
  ghost predicate AtRatio(back: nat, q: nat, ratio: real) {
    back as real <= ratio * q as real && (0 < back ==> back as real < ratio * q as real)
  }

  /** back raw units against q raw units put in, in terms of the price ratio. */
  lemma BackBelowRatio(buy: PoolPriceSnapshot, sell: PoolPriceSnapshot, mint: string, q: u64)
    requires PricedByReserves(buy, mint) && PricedByReserves(sell, mint)
    ensures buy.solPerToken > 0.0
    ensures AtRatio(SellTokens(sell, BuyTokens(buy, q)), q, PriceRatio(buy, sell))
  {
    hide AtRatio;
    hide BelowSpot;
    hide IsRatio;
    hide RawToSolPerToken;
    hide GuessDecimals;
    hide Pow10;
    hide PriceRatio;
    assert Priceable(buy) && Priceable(sell);
    hide PricedByReserves;
    hide BuyTokens;
    hide SellTokens;
    var s: nat, t: nat, s2: nat, t2: nat := buy.solReservesRaw, buy.tokenReservesRaw, sell.solReservesRaw, sell.tokenReservesRaw;
    var tokens := BuyTokens(buy, q);
    var back := SellTokens(sell, tokens);
    BuyBelowSpot(buy, mint, q);
    SellBelowSpot(sell, mint, tokens);
    RatioOfReserves(buy, sell, mint);
    BackBelow(s, t, t2, s2, q, tokens, back, PriceRatio(buy, sell));
  }

  lemma BackBelow(s: nat, t: nat, t2: nat, s2: nat, q: nat, tokens: nat, back: nat, ratio: real)
    requires 0 < s && 0 < t2 && BelowSpot(tokens, s, t, q) && BelowSpot(back, t2, s2, tokens)
    requires IsRatio(ratio, s2 * t, t2 * s)
    ensures AtRatio(back, q, ratio)
  {
    TwoSpots(s, t, t2, s2, q, tokens, back);
    var d: nat, n: nat := t2 * s, s2 * t;
    MulMono(1, t2, s);
    CancelReserves(back, d, n, q, ratio);
  }

  lemma BuyBelowSpot(buy: PoolPriceSnapshot, mint: string, q: u64)
    requires PricedByReserves(buy, mint)
    ensures 0 < buy.solReservesRaw && BelowSpot(BuyTokens(buy, q), buy.solReservesRaw, buy.tokenReservesRaw, q)
  {
    hide RawToSolPerToken;
    CurveBelowSpot(buy.solReservesRaw, buy.tokenReservesRaw, q, buy.feeBps);
  }

  lemma SellBelowSpot(sell: PoolPriceSnapshot, mint: string, tokens: u64)
    requires PricedByReserves(sell, mint)
    ensures 0 < sell.tokenReservesRaw && BelowSpot(SellTokens(sell, tokens), sell.tokenReservesRaw, sell.solReservesRaw, tokens)
  {
    hide RawToSolPerToken;
    CurveBelowSpot(sell.tokenReservesRaw, sell.solReservesRaw, tokens, sell.feeBps);
  }

  lemma CancelReserves(back: nat, d: nat, n: nat, q: nat, ratio: real)
    requires 0 < d && back * d <= n * q && (0 < back ==> back * d < n * q)
    requires ratio * d as real == n as real
    ensures back as real <= ratio * q as real
    ensures 0 < back ==> back as real < ratio * q as real
  {
    assert (back * d) as real == back as real * d as real;
    assert (n * q) as real == n as real * q as real;
    CancelFactor(back as real, d as real, n as real, q as real, ratio);
  }

  lemma CancelFactor(back: real, d: real, n: real, q: real, ratio: real)
    requires 0.0 < d && back * d <= n * q && (0.0 < back ==> back * d < n * q) && ratio * d == n
    ensures back <= ratio * q
    ensures 0.0 < back ==> back < ratio * q
  {
    assert n * q == (ratio * q) * d;
    if ratio * q < back {
      RealMulStrict(ratio * q, back, d);
    }
    if ratio * q <= back {
      RealMulMono(ratio * q, back, d);
    }
  }

  /** For any two constant-product pools priced by their reserves, any fees and any investment,
      the gross profit is at most the investment times the relative spread; buying at or above the
      sell price always loses. */
  lemma GrossBoundedBySpread(cfg: ScannerConfig, buy: PoolPriceSnapshot, sell: PoolPriceSnapshot, mint: string, investment: real)
    requires PricedByReserves(buy, mint) && PricedByReserves(sell, mint) && 0.0 <= investment
    ensures buy.solPerToken > 0.0
    ensures ComputeArbAtInvestment(cfg, buy, sell, investment).0 <= investment * RelativeSpread(buy.solPerToken, sell.solPerToken)
    ensures sell.solPerToken <= buy.solPerToken && 0.0 < investment ==> ComputeArbAtInvestment(cfg, buy, sell, investment).0 < 0.0
  {
    hide GuessDecimals;
    hide Pow10;
    hide BuyTokens;
    hide SellTokens;
    hide RawToSolPerToken;
    hide QuoteUnit;
    hide RawQuote;
    hide ShareCap;
    var q := RawQuote(buy, investment);
    BackBelowRatio(buy, sell, mint, q);
    RatioSign(buy, sell, mint);
    RawQuoteBelow(buy, investment);
    assert RelativeSpread(buy.solPerToken, sell.solPerToken) == PriceRatio(buy, sell) - 1.0;
    hide RelativeSpread;
    hide ComputeArbAtInvestment;
    hide QuoteBack;
    ArbIsQuoteBack(cfg, buy, sell, investment);
    hide PriceRatio;
    hide PricedByReserves;
    hide AtRatio;
    CappedBack(QuoteBack(cfg, buy, sell, investment), SellTokens(sell, BuyTokens(buy, q)), q, PriceRatio(buy, sell));
    GrossFromRaw(QuoteBack(cfg, buy, sell, investment), q, QuoteUnit(buy), PriceRatio(buy, sell), investment);
  }

  lemma ArbIsQuoteBack(cfg: ScannerConfig, buy: PoolPriceSnapshot, sell: PoolPriceSnapshot, investment: real)
    requires Priceable(buy) && Priceable(sell)
    ensures ComputeArbAtInvestment(cfg, buy, sell, investment).0 == QuoteBack(cfg, buy, sell, investment) as real / QuoteUnit(buy) - investment
    ensures QuoteBack(cfg, buy, sell, investment) <= SellTokens(sell, BuyTokens(buy, RawQuote(buy, investment)))
  {
    hide BuyTokens;
    hide SellTokens;
    hide RawQuote;
    hide QuoteUnit;
    hide ShareCap;
  }

  lemma RawQuoteBelow(buy: PoolPriceSnapshot, investment: real)
    requires 0.0 <= investment
    ensures RawQuote(buy, investment) as real <= investment * QuoteUnit(buy)
  {
    hide Pow10;
    RealMulMono(0.0, investment, QuoteUnit(buy));
  }

  lemma CappedBack(capped: nat, back: nat, q: nat, ratio: real)
    requires capped <= back && AtRatio(back, q, ratio)
    ensures AtRatio(capped, q, ratio)
  {
  }

  lemma RatioSign(buy: PoolPriceSnapshot, sell: PoolPriceSnapshot, mint: string)
    requires PricedByReserves(buy, mint) && PricedByReserves(sell, mint)
    ensures 0.0 < buy.solPerToken && 0.0 <= PriceRatio(buy, sell)
    ensures sell.solPerToken <= buy.solPerToken ==> PriceRatio(buy, sell) <= 1.0
  {
    hide RawToSolPerToken;
    hide GuessDecimals;
    hide Pow10;
    PriceIsPositive(buy, mint);
    PriceIsPositive(sell, mint);
    RealDivGe(sell.solPerToken, buy.solPerToken, 0.0);
    if sell.solPerToken <= buy.solPerToken {
      RealDivLe(sell.solPerToken, buy.solPerToken, 1.0);
    }
  }

  lemma GrossFromRaw(back: nat, q: nat, unit: real, ratio: real, investment: real)
    requires 1.0 <= unit && 0.0 <= ratio && q as real <= investment * unit && 0.0 <= investment && AtRatio(back, q, ratio)
    ensures back as real / unit - investment <= investment * (ratio - 1.0)
    ensures ratio <= 1.0 && 0.0 < investment ==> back as real / unit - investment < 0.0
  {
    GrossFromReal(back as real, q as real, unit, ratio, investment);
  }

  lemma GrossFromReal(back: real, q: real, unit: real, ratio: real, investment: real)
    requires 1.0 <= unit && 0.0 <= ratio && 0.0 <= back && q <= investment * unit && 0.0 <= investment
    requires back <= ratio * q && (0.0 < back ==> back < ratio * q)
    ensures back / unit - investment <= investment * (ratio - 1.0)
    ensures ratio <= 1.0 && 0.0 < investment ==> back / unit - investment < 0.0
  {
    RealMulMono(q, investment * unit, ratio);
    assert ratio * (investment * unit) == (investment * ratio) * unit;
    RealDivLe(back, unit, investment * ratio);
    if ratio <= 1.0 && 0.0 < investment {
      RealMulMono(ratio, 1.0, investment);
      var g := back / unit;
      assert g * unit == back;
      if investment <= g {
        RealMulMono(investment, g, unit);
        RealMulMono(investment * ratio, investment, unit);
        RealMulStrict(0.0, investment, unit);
      }
    }
  }

  // ------------------------------------------------------------------
  // The cap-artifact filter
  // ------------------------------------------------------------------

  /** The spread in basis points is the relative spread rounded down. */
  lemma SpreadWithinOneBps(buyPrice: real, sellPrice: real)
    requires 0.0 < buyPrice && PriceDiffBps(buyPrice, sellPrice) < U32_LIMIT - 1
    ensures RelativeSpread(buyPrice, sellPrice) < (PriceDiffBps(buyPrice, sellPrice) + 1) as real / 10000.0
    ensures buyPrice <= sellPrice ==> PriceDiffBps(buyPrice, sellPrice) as real / 10000.0 <= RelativeSpread(buyPrice, sellPrice)
  {
    SpreadIsRatio(buyPrice, sellPrice);
  }

  lemma SpreadIsRatio(buyPrice: real, sellPrice: real)
    requires 0.0 < buyPrice
    ensures (sellPrice - buyPrice) / buyPrice == sellPrice / buyPrice - 1.0
  {
    var r := sellPrice / buyPrice;
    assert r * buyPrice == sellPrice;
    RealDivLe(sellPrice - buyPrice, buyPrice, r - 1.0);
    RealDivGe(sellPrice - buyPrice, buyPrice, r - 1.0);
  }

  /** The filter never drops a pair of constant-product pools priced by their reserves when the
      spread is at least one basis point, nor, below one, for an investment of up to 10 SOL. */
  lemma FilterKeepsHonestPairs(cfg: ScannerConfig, buy: PoolPriceSnapshot, sell: PoolPriceSnapshot, mint: string, investment: real)
    requires PricedByReserves(buy, mint) && PricedByReserves(sell, mint) && 0.0 <= investment
    ensures buy.solPerToken > 0.0
    ensures var bps := PriceDiffBps(buy.solPerToken, sell.solPerToken);
      1 <= bps < U32_LIMIT - 1 || (bps == 0 && investment <= 10.0) ==>
        !CapArtifact(investment, ComputeArbAtInvestment(cfg, buy, sell, investment).0, bps)
  {
    hide RawToSolPerToken;
    hide GuessDecimals;
    hide Pow10;
    GrossBoundedBySpread(cfg, buy, sell, mint, investment);
    hide ComputeArbAtInvestment;
    hide PricedByReserves;
    hide CapArtifact;
    hide RelativeSpread;
    var bps := PriceDiffBps(buy.solPerToken, sell.solPerToken);
    if bps < U32_LIMIT - 1 {
      SpreadWithinOneBps(buy.solPerToken, sell.solPerToken);
      hide PriceDiffBps;
      ExplainedGross(investment, ComputeArbAtInvestment(cfg, buy, sell, investment).0,
                     RelativeSpread(buy.solPerToken, sell.solPerToken), bps);
    }
  }

  lemma ExplainedGross(investment: real, gross: real, spread: real, bps: u32)
    requires 0.0 <= investment && gross <= investment * spread && spread < (bps + 1) as real / 10000.0
    ensures 1 <= bps || investment <= 10.0 ==> !CapArtifact(investment, gross, bps)
  {
    if 1 <= bps {
      ExplainedProduct(investment, gross, spread, bps as real / 10000.0);
    } else if investment <= 10.0 {
      ThinProduct(investment, gross, spread);
    }
  }

  lemma ThinProduct(investment: real, gross: real, spread: real)
    requires 0.0 <= investment <= 10.0 && gross <= investment * spread && spread < 0.0001
    ensures gross <= 0.001
  {
    ProductAtMost(investment, spread, 10.0, 0.0001);
  }

  lemma ProductAtMost(a: real, s: real, most: real, bound: real)
    requires 0.0 <= a <= most && s <= bound && 0.0 <= bound
    ensures a * s <= most * bound
  {
    RealMulMono(s, bound, a);
    RealMulMono(a, most, bound);
  }

  lemma ExplainedProduct(investment: real, gross: real, spread: real, b: real)
    requires 0.0 <= investment && gross <= investment * spread && spread < b + 0.0001 && 0.0001 <= b
    ensures gross <= investment * b * 3.0
  {
    RealMulMono(spread, b * 3.0, investment);
    ThreeTimes(investment, b);
  }

  lemma ThreeTimes(a: real, b: real)
    ensures a * (b * 3.0) == a * b * 3.0
  {
  }

  // ------------------------------------------------------------------
  // Where the filter does drop an honest pair
  // ------------------------------------------------------------------

  const DEPTH: nat := 18_000_000_000_000_000_000

  const DEEP_BUY := PoolPriceSnapshot(0.001, DEPTH, DEPTH, [], false, 0, "", 9)
  const DEEP_SELL := PoolPriceSnapshot((DEPTH + DEPTH / 10000 - 1) as real / DEPTH as real / 1000.0,
                                       DEPTH, DEPTH + DEPTH / 10000 - 1, [], false, 0, "", 9)

  /** A pool k times deeper than the trade is moved by at most one k-th of it. */
  lemma DeepBuy(n: nat, q: nat, k: nat, u: nat)
    requires 0 < n && k * q <= n && q <= k * (u + 1)
    ensures q - (u + 1) <= CP.CurveOut(n, n, q) <= q
  {
    hide CP.CurveOut;
    ProductBelow(n, q, q, k, u + 1);
    LeftProduct(n, q, q - (u + 1), u + 1);
    LeftProduct(n, q, q + 1, -1);
    Square(q);
    MulMono(0, u + 1, q);
    CP.CurveOutIsLargestSafe(n, n, q, q - (u + 1));
    CP.CurveOutIsLargestSafe(n, n, q, q + 1);
  }

  lemma LeftProduct(n: int, q: int, out: int, short: int)
    requires out == q - short
    ensures (n + q) * (n - out) == n * n + short * n - q * q + short * q
  {
  }

  lemma Square(q: int)
    ensures 0 <= q * q
  {
  }

  lemma ProductBelow(n: nat, p: nat, q: nat, k: nat, u: nat)
    requires k * q <= n && p <= k * u
    ensures p * q <= u * n
  {
    MulMono(p, k * u, q);
    MulMono(k * q, n, u);
    assert k * u * q == k * q * u;
  }

  /** The same pool with one part in 10000 more on the other side. */
  lemma DeepSell(n: nat, e: nat, tokens: nat, k: nat, v: nat, w: nat)
    requires n == 10000 * e && 0 < e && k * (tokens + v) <= n && tokens <= k * (w + 1)
    requires 10000 * v <= tokens && tokens <= n
    ensures tokens + v - w - 3 <= CP.CurveOut(n, n + e - 1, tokens)
  {
    hide CP.CurveOut;
    ProductBelow(n, tokens, tokens + v, k, w + 1);
    MulMono(10000 * v, tokens, e);
    MulMono(0, w + 3, tokens);
    var out := tokens + v - w - 3;
    PremiumProduct(n, e, tokens, v, w + 1);
    CP.CurveOutIsLargestSafe(n, n + e - 1, tokens, out);
  }

  lemma PremiumProduct(n: int, e: int, tokens: int, v: int, w: int)
    requires n == 10000 * e
    ensures (n + tokens) * (n + e - 1 - (tokens + v - w - 2)) - n * (n + e - 1)
         == (tokens * e - 10000 * v * e) + (w * n - tokens * (tokens + v)) + 2 * n - tokens + (w + 2) * tokens
  {
    assert v * n == 10000 * v * e;
  }

  lemma DeepPairIsHonest()
    ensures PricedByReserves(DEEP_BUY, "") && PricedByReserves(DEEP_SELL, "")
    ensures PriceDiffBps(DEEP_BUY.solPerToken, DEEP_SELL.solPerToken) == 0
  {
    assert Pow10(1) == 10.0 && Pow10(2) == 100.0 && Pow10(3) == 1000.0;
  }

  /** Below one basis point the filter's allowance does not grow with the investment: for every
      investment from 10.001 to 100000 SOL it drops an honest, profitable pair. */
  lemma ThinSpreadIsDropped(cfg: ScannerConfig, investment: real)
    requires 0.02 <= cfg.maxPoolShare && 10.001 <= investment <= 100000.0
    ensures PricedByReserves(DEEP_BUY, "") && PricedByReserves(DEEP_SELL, "")
    ensures PriceDiffBps(DEEP_BUY.solPerToken, DEEP_SELL.solPerToken) == 0
    ensures CapArtifact(investment, ComputeArbAtInvestment(cfg, DEEP_BUY, DEEP_SELL, investment).0, 0)
  {
    DeepPairIsHonest();
    hide PricedByReserves;
    hide PriceDiffBps;
    BillionUnits();
    hide Pow10;
    if investment <= 15.0 {
      DroppedAtDepth(cfg, investment, 1_000_000_000, 15_000_000_000);
    } else {
      DroppedAtDepth(cfg, investment, 100_000, 100_000_000_000_000);
    }
  }

  /** A trade of at most `most` units against a pool k times deeper. */
  predicate Shallow(k: nat, most: nat) {
    (k == 1_000_000_000 && most == 15_000_000_000) || (k == 100_000 && most == 100_000_000_000_000)
  }

  lemma DroppedAtDepth(cfg: ScannerConfig, investment: real, k: nat, most: nat)
    requires Pow10(9) == 1_000_000_000.0 && 0.02 <= cfg.maxPoolShare && Shallow(k, most)
    requires 10.001 <= investment && investment * 1_000_000_000.0 <= most as real && (k == 100_000 ==> 15.0 <= investment)
    ensures Priceable(DEEP_BUY) && Priceable(DEEP_SELL)
    ensures CapArtifact(investment, ComputeArbAtInvestment(cfg, DEEP_BUY, DEEP_SELL, investment).0, 0)
  {
    hide Pow10;
    var q, tokens := DeepBuyBack(investment, k, most);
    DeepSellBack(cfg, tokens, k, most);
    DeepGross(cfg, investment, q, tokens, k, most);
  }

  /** At least one part in 10000 more comes back, less the impact and the roundings. */
  ghost predicate PaysPremium(back: nat, tokens: nat, k: nat)
    requires 0 < k
  {
    tokens + tokens / 10000 - tokens / k - 3 <= back
  }

  lemma DeepSellBack(cfg: ScannerConfig, tokens: nat, k: nat, most: nat)
    requires 0.02 <= cfg.maxPoolShare && Shallow(k, most) && tokens <= most
    ensures PaysPremium(Min(SellTokens(DEEP_SELL, tokens), ShareCap(cfg, DEEP_SELL)), tokens, k)
  {
    hide SellTokens;
    hide ShareCap;
    hide CP.CurveOut;
    DeepSellTokens(tokens);
    DeepSell(DEPTH, DEPTH / 10000, tokens, k, tokens / 10000, tokens / k);
    DeepShare(cfg, DEEP_SELL);
  }

  lemma DeepSellTokens(tokens: nat)
    requires tokens <= 100_000_000_000_000
    ensures SellTokens(DEEP_SELL, tokens) == CP.CurveOut(DEPTH, DEPTH + DEPTH / 10000 - 1, tokens)
  {
    hide CP.CurveOut;
    hide CP.AfterFeeBps;
    NoFee(tokens);
  }

  lemma DeepShare(cfg: ScannerConfig, sell: PoolPriceSnapshot)
    requires 0.02 <= cfg.maxPoolShare && 10_000_000_000_000_000 <= sell.solReservesRaw
    ensures 200_000_000_000_000 <= ShareCap(cfg, sell)
  {
    hide SaturateToU128;
    hide Portion;
    AtLeastShare(sell.solReservesRaw, cfg.maxPoolShare);
    SaturateAbove(Portion(sell.solReservesRaw, cfg.maxPoolShare), 200_000_000_000_000);
  }

  lemma AtLeastShare(reserve: u64, share: real)
    requires 0.02 <= share && 10_000_000_000_000_000 <= reserve
    ensures 200_000_000_000_000.0 <= Portion(reserve, share)
  {
    RealMulMono(0.02, share, reserve as real);
    assert reserve as real * share == share * reserve as real;
  }

  lemma SaturateAbove(x: real, n: nat)
    requires n as real <= x && n < U128_LIMIT
    ensures n <= SaturateToU128(x)
  {
  }

  lemma DeepGross(cfg: ScannerConfig, investment: real, q: nat, tokens: nat, k: nat, most: nat)
    requires Pow10(9) == 1_000_000_000.0 && Shallow(k, most)
    requires 10.001 <= investment && q <= most && (k == 100_000 ==> 15.0 <= investment)
    requires Priceable(DEEP_BUY) && Priceable(DEEP_SELL) && tokens == SimulateBuy(DEEP_BUY, investment)
    requires investment * 1_000_000_000.0 < q as real + 1.0 && q - (q / k + 1) <= tokens <= q
    requires PaysPremium(Min(SellTokens(DEEP_SELL, tokens), ShareCap(cfg, DEEP_SELL)), tokens, k)
    ensures CapArtifact(investment, ComputeArbAtInvestment(cfg, DEEP_BUY, DEEP_SELL, investment).0, 0)
  {
    hide Pow10;
    hide SimulateBuy;
    hide SellTokens;
    hide ShareCap;
    hide PaysPremium;
    hide CapArtifact;
    var back := Min(SellTokens(DEEP_SELL, tokens), ShareCap(cfg, DEEP_SELL));
    assert QuoteBack(cfg, DEEP_BUY, DEEP_SELL, investment) == back;
    PremiumBack(q, tokens, back, k, most);
    PremiumIsArtifact(investment, back);
    assert QuoteUnit(DEEP_BUY) == 1_000_000_000.0;
  }

  lemma PremiumBack(q: nat, tokens: nat, back: nat, k: nat, most: nat)
    requires Shallow(k, most) && q <= most && q - (q / k + 1) <= tokens <= q
    requires if k == 100_000 then 14_999_999_999 <= q else 10_000_999_999 <= q
    requires PaysPremium(back, tokens, k)
    ensures q + 1_000_003 < back
  {
    if k == 100_000 {
      assert q / 100_000 <= q - 99_999 * (q / 100_000);
    } else {
      assert q / 1_000_000_000 <= 15 && tokens / 1_000_000_000 <= 15;
    }
  }

  lemma PremiumIsArtifact(investment: real, back: nat)
    requires investment * 1_000_000_000.0 + 1_000_001.0 < back as real
    ensures CapArtifact(investment, back as real / 1_000_000_000.0 - investment, 0)
  {
  }

  lemma DeepBuyBack(investment: real, k: nat, most: nat) returns (q: nat, tokens: nat)
    requires Pow10(9) == 1_000_000_000.0 && Shallow(k, most) && 0.0 <= investment && investment * 1_000_000_000.0 <= most as real
    ensures Priceable(DEEP_BUY) && tokens == SimulateBuy(DEEP_BUY, investment)
    ensures q <= most && investment * 1_000_000_000.0 < q as real + 1.0 && q - (q / k + 1) <= tokens <= q
  {
    hide Pow10;
    q := RawQuote(DEEP_BUY, investment);
    assert q as real <= investment * 1_000_000_000.0 < q as real + 1.0;
    NoFee(q);
    DeepBuy(DEPTH, q, k, q / k);
    tokens := SimulateBuy(DEEP_BUY, investment);
  }

  lemma NoFee(a: nat)
    ensures CP.AfterFeeBps(a, 0) == a
  {
    DivUnique(a * 10000, 10000, a);
  }

  lemma BillionUnits()
    ensures Pow10(9) == 1_000_000_000.0
  {
    assert Pow10(3) == 1000.0;
    assert Pow10(6) == 1_000_000.0;
  }
}
