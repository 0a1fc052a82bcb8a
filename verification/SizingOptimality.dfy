/** How good the sizing search is: on smooth legs the investment it returns nets as much as any
    other in the range, up to the roundings of the integer pricing and the final bracket. */
module SizingOptimality {
  import opened Arith
  import opened Dlmm
  import opened DlmmOptimal
  import opened GoldenSection
  import opened Legs
  import opened Sizing
  import CP = ConstantProduct

  // ------------------------------------------------------------------
  // Snapshots as legs
  // ------------------------------------------------------------------

  function BuyLeg(buy: PoolPriceSnapshot): Leg {
    if buy.bins != [] then Bins(DirectedLevels(buy, !buy.memeIsX), buy.feeBps)
    else Curve(buy.solReservesRaw, buy.tokenReservesRaw, buy.feeBps)
  }

  function SellLeg(sell: PoolPriceSnapshot): Leg {
    if sell.bins != [] then Bins(DirectedLevels(sell, sell.memeIsX), sell.feeBps)
    else Curve(sell.tokenReservesRaw, sell.solReservesRaw, sell.feeBps)
  }

  /** Both pools can be priced, and bins are visited from the best price to the worst. A
      constant-product pair always qualifies. */
  ghost predicate SmoothPair(buy: PoolPriceSnapshot, sell: PoolPriceSnapshot) {
    && Priceable(buy) && Priceable(sell) && BinsFit(buy) && BinsFit(sell)
    && Smooth(BuyLeg(buy)) && Smooth(SellLeg(sell))
  }

  lemma BuyTokensIsLeg(buy: PoolPriceSnapshot, quoteIn: u64)
    requires Priceable(buy) && BinsFit(buy)
    ensures BuyTokens(buy, quoteIn) == LegOut(BuyLeg(buy), quoteIn)
  {
    if buy.bins != [] {
      EstimateMonotone(buy.bins, quoteIn, quoteIn, !buy.memeIsX, buy.feeBps, buy.feeBps);
    }
  }

  lemma SellTokensIsLeg(sell: PoolPriceSnapshot, tokens: u64)
    requires Priceable(sell) && BinsFit(sell)
    ensures SellTokens(sell, tokens) == LegOut(SellLeg(sell), tokens)
  {
    if sell.bins != [] {
      EstimateMonotone(sell.bins, tokens, tokens, sell.memeIsX, sell.feeBps, sell.feeBps);
    }
  }

  // ------------------------------------------------------------------
  // Two legs in a row
  // ------------------------------------------------------------------

  lemma LegNonNegative(leg: Leg, x: real)
    requires Smooth(leg) && 0.0 <= x
    ensures 0.0 <= LegReal(leg, x)
  {
    LegRounds(leg, 0);
    LegIncreases(leg, 0.0, x);
  }

  /** What a raw quote amount returns through both smooth legs. */
  ghost function RoundTrip(buy: Leg, sell: Leg, x: real): real
    requires Smooth(buy) && Smooth(sell) && 0.0 <= x
  {
    LegNonNegative(buy, x);
    LegReal(sell, LegReal(buy, x))
  }

  /** Concavity composes with an increasing concave function, given at four points: w is on the
      chord of the inner values, tokensY is at or above it. */
  lemma ComposeChord(x: real, y: real, z: real, tokensX: real, tokensY: real, tokensZ: real, w: real, backX: real, backY: real, backZ: real, gw: real)
    requires x <= y <= z && x < z && tokensX < tokensZ
    requires (z - x) * w == (z - y) * tokensX + (y - x) * tokensZ
    requires OnChord(tokensX, w, tokensZ, backX, gw, backZ) && gw <= backY
    ensures OnChord(x, y, z, backX, backY, backZ)
  {
    // (z - x)(tokensZ - w) = (z - y)(tokensZ - tokensX) and (z - x)(w - tokensX) = (y - x)(tokensZ - tokensX)
    var u, v, t := z - y, y - x, z - x;
    assert t * (tokensZ - w) == u * (tokensZ - tokensX);
    assert t * (w - tokensX) == v * (tokensZ - tokensX);
    RealMulMono((tokensZ - w) * backX + (w - tokensX) * backZ, (tokensZ - tokensX) * gw, t);
    assert ((tokensZ - w) * backX + (w - tokensX) * backZ) * t == (t * (tokensZ - w)) * backX + (t * (w - tokensX)) * backZ;
    assert (u * (tokensZ - tokensX)) * backX + (v * (tokensZ - tokensX)) * backZ == (u * backX + v * backZ) * (tokensZ - tokensX);
    assert (tokensZ - tokensX) * gw * t == (t * gw) * (tokensZ - tokensX);
    if t * gw < u * backX + v * backZ {
      RealMulStrict(t * gw, u * backX + v * backZ, tokensZ - tokensX);
    }
    RealMulMono(gw, backY, t);
  }

  /** The point on the chord between two values, and below the value the chord is below. */
  lemma ChordPoint(x: real, y: real, z: real, tokensX: real, tokensY: real, tokensZ: real) returns (w: real)
    requires x <= y <= z && x < z && tokensX <= tokensZ && OnChord(x, y, z, tokensX, tokensY, tokensZ)
    ensures (z - x) * w == (z - y) * tokensX + (y - x) * tokensZ
    ensures tokensX <= w <= tokensZ && w <= tokensY
  {
    var t := z - x;
    var n := (z - y) * tokensX + (y - x) * tokensZ;
    w := n / t;
    RealMulMono(tokensX, tokensZ, y - x);
    RealMulMono(tokensX, tokensZ, z - y);
    assert (z - y) * tokensX + (y - x) * tokensX == tokensX * t;
    assert (z - y) * tokensZ + (y - x) * tokensZ == tokensZ * t;
    RealDivGe(n, t, tokensX);
    RealDivLe(n, t, tokensZ);
    RealDivLe(n, t, tokensY);
  }

  lemma FlatChord(x: real, y: real, z: real, g: real)
    ensures OnChord(x, y, z, g, g, g)
  {
    assert (z - y) * g + (y - x) * g == (z - x) * g;
  }

  lemma RoundTripChord(buy: Leg, sell: Leg, x: real, y: real, z: real)
    requires Smooth(buy) && Smooth(sell) && 0.0 <= x <= y <= z
    ensures OnChord(x, y, z, RoundTrip(buy, sell, x), RoundTrip(buy, sell, y), RoundTrip(buy, sell, z))
  {
    LegNonNegative(buy, x);
    LegIncreases(buy, x, y);
    LegIncreases(buy, y, z);
    LegChord(buy, x, y, z);
    var tokensX, tokensY, tokensZ := LegReal(buy, x), LegReal(buy, y), LegReal(buy, z);
    if x == z || tokensX == tokensZ {
      FlatChord(x, y, z, LegReal(sell, tokensX));
    } else {
      var w := ChordPoint(x, y, z, tokensX, tokensY, tokensZ);
      LegChord(sell, tokensX, w, tokensZ);
      LegIncreases(sell, w, tokensY);
      ComposeChord(x, y, z, tokensX, tokensY, tokensZ, w, LegReal(sell, tokensX), LegReal(sell, tokensY), LegReal(sell, tokensZ), LegReal(sell, w));
    }
  }

  /** Both slopes in a row: the most one more raw unit put in can return. */
  ghost function PairSlope(buy: Leg, sell: Leg): real
    requires Smooth(buy) && Smooth(sell)
  {
    LegSlope(sell) * LegSlope(buy)
  }

  /** Over a width w something grows, but at most by slope per unit. */
  ghost predicate Gains(slope: real, w: real, gain: real) {
    0.0 <= slope && 0.0 <= gain <= slope * w
  }

  lemma RoundTripIncreases(buy: Leg, sell: Leg, x: real, y: real)
    requires Smooth(buy) && Smooth(sell) && 0.0 <= x <= y
    ensures Gains(PairSlope(buy, sell), y - x, RoundTrip(buy, sell, y) - RoundTrip(buy, sell, x))
  {
    hide LegReal;
    hide LegSlope;
    LegNonNegative(buy, x);
    LegIncreases(buy, x, y);
    LegIncreases(sell, LegReal(buy, x), LegReal(buy, y));
    ProductSlope(LegSlope(sell), LegSlope(buy), LegReal(buy, y) - LegReal(buy, x), y - x,
                 RoundTrip(buy, sell, y) - RoundTrip(buy, sell, x));
  }

  lemma ProductSlope(p: real, q: real, inner: real, w: real, gain: real)
    requires 0.0 <= p && 0.0 <= q && inner <= q * w && 0.0 <= gain <= p * inner
    ensures Gains(p * q, w, gain)
  {
    RealMulMono(0.0, p, q);
    RealMulMono(inner, q * w, p);
    assert p * (q * w) == p * q * w;
  }

  /** Raw quote units lost to rounding over both legs: the raw input, two fees and two outputs. */
  ghost function RoundingLoss(buy: Leg, sell: Leg): real
    requires Smooth(buy) && Smooth(sell)
  {
    LossOver(LegSlope(sell), LegSlope(buy))
  }

  ghost function LossOver(ss: real, sb: real): real {
    ss * (2.0 * sb + 2.0) + 1.0
  }

  /** Tokens lost on the buy side: the raw input, the fee and the output. */
  lemma BuyRounds(buy: Leg, q: nat, x: real)
    requires Smooth(buy) && q as real <= x < q as real + 1.0
    ensures 0.0 <= LegSlope(buy)
    ensures LegOut(buy, q) as real <= LegReal(buy, x) <= LegOut(buy, q) as real + 2.0 * LegSlope(buy) + 1.0
  {
    hide LegReal;
    hide LegSlope;
    hide LegOut;
    LegRounds(buy, q);
    LegIncreases(buy, q as real, x);
    SlopeTimes(LegSlope(buy), x - q as real, 1.0, LegReal(buy, x) - LegReal(buy, q as real));
  }

  lemma SellRounds(sell: Leg, t: nat, x: real, sb: real)
    requires Smooth(sell) && 0.0 <= sb && t as real <= x <= t as real + 2.0 * sb + 1.0
    ensures LegOut(sell, t) as real <= LegReal(sell, x) <= LegOut(sell, t) as real + LossOver(LegSlope(sell), sb)
    ensures 1.0 <= LossOver(LegSlope(sell), sb)
  {
    hide LegReal;
    hide LegSlope;
    hide LegOut;
    LegRounds(sell, t);
    LegIncreases(sell, t as real, x);
    LossOfBoth(LegSlope(sell), sb, x - t as real, LegReal(sell, x) - LegReal(sell, t as real));
  }

  lemma LossOfBoth(ss: real, sb: real, inner: real, gain: real)
    requires 0.0 <= ss && 0.0 <= sb && inner <= 2.0 * sb + 1.0 && gain <= ss * inner
    ensures gain + ss + 1.0 <= LossOver(ss, sb) && 1.0 <= LossOver(ss, sb)
  {
    RealMulMono(inner, 2.0 * sb + 1.0, ss);
    RealMulMono(0.0, 2.0 * sb + 2.0, ss);
    assert ss * (2.0 * sb + 1.0) + ss == ss * (2.0 * sb + 2.0);
  }

  lemma RoundTripRounds(buy: Leg, sell: Leg, q: nat, x: real)
    requires Smooth(buy) && Smooth(sell) && q as real <= x < q as real + 1.0
    ensures LegOut(sell, LegOut(buy, q)) as real <= RoundTrip(buy, sell, x)
    ensures RoundTrip(buy, sell, x) <= LegOut(sell, LegOut(buy, q)) as real + RoundingLoss(buy, sell)
    ensures 1.0 <= RoundingLoss(buy, sell)
  {
    hide LegReal;
    hide LegSlope;
    hide LegOut;
    hide LossOver;
    BuyRounds(buy, q, x);
    SellRounds(sell, LegOut(buy, q), LegReal(buy, x), LegSlope(buy));
  }

  // ------------------------------------------------------------------
  // The smooth net profit
  // ------------------------------------------------------------------

  /** The pool-share cap before it is cast to an integer. */
  ghost function RealCap(cfg: ScannerConfig, sell: PoolPriceSnapshot): real {
    MaxReal(0.0, Portion(sell.solReservesRaw, cfg.maxPoolShare))
  }

  /** Net profit from the (capped, real) raw quote returned. */
  ghost function NetOf(cfg: ScannerConfig, unit: real, back: real, x: real): real
    requires 0.0 < unit
  {
    back / unit - x - cfg.cuCostSol
  }

  ghost function SmoothBack(cfg: ScannerConfig, buy: PoolPriceSnapshot, sell: PoolPriceSnapshot, x: real): real
    requires SmoothPair(buy, sell) && 0.0 <= x
  {
    RealMulMono(0.0, x, QuoteUnit(buy));
    MinReal(RoundTrip(BuyLeg(buy), SellLeg(sell), Scaled(QuoteUnit(buy), x)), RealCap(cfg, sell))
  }

  ghost function SmoothNetAt(cfg: ScannerConfig, buy: PoolPriceSnapshot, sell: PoolPriceSnapshot, x: real): real
    requires SmoothPair(buy, sell) && 0.0 <= x
  {
    NetOf(cfg, QuoteUnit(buy), SmoothBack(cfg, buy, sell, x), x)
  }

  ghost function SmoothNet(cfg: ScannerConfig, buy: PoolPriceSnapshot, sell: PoolPriceSnapshot): real -> real
    requires SmoothPair(buy, sell)
  {
    (x: real) => if x < 0.0 then 0.0 else SmoothNetAt(cfg, buy, sell, x)
  }

  // ---- concave ----

  lemma CappedChord(x: real, y: real, z: real, gx: real, gy: real, gz: real, cap: real)
    requires x <= y <= z && OnChord(x, y, z, gx, gy, gz)
    ensures OnChord(x, y, z, MinReal(gx, cap), MinReal(gy, cap), MinReal(gz, cap))
  {
    var mx, mz := MinReal(gx, cap), MinReal(gz, cap);
    if gy <= cap {
      WeightedBelow(z - y, y - x, mx, mz, gx, gz);
    } else {
      WeightedBelow(z - y, y - x, mx, mz, cap, cap);
      PiecesOfWhole(x, y, z, cap);
    }
  }

  lemma WeightedBelow(u: real, v: real, p: real, q: real, p2: real, q2: real)
    requires 0.0 <= u && 0.0 <= v && p <= p2 && q <= q2
    ensures u * p + v * q <= u * p2 + v * q2
  {
    RealMulMono(p, p2, u);
    RealMulMono(q, q2, v);
  }

  lemma PiecesOfWhole(x: real, y: real, z: real, w: real)
    ensures (z - y) * w + (y - x) * w == (z - x) * w
  {
  }

  lemma NetChord(cfg: ScannerConfig, unit: real, x: real, y: real, z: real, gx: real, gy: real, gz: real)
    requires 0.0 < unit && OnChord(x, y, z, gx, gy, gz)
    ensures OnChord(x, y, z, NetOf(cfg, unit, gx, x), NetOf(cfg, unit, gy, y), NetOf(cfg, unit, gz, z))
  {
    var k := cfg.cuCostSol;
    var px, py, pz := gx / unit, gy / unit, gz / unit;
    ChordPerUnit(unit, x, y, z, px, py, pz);
    assert (z - y) * (px - x - k) + (y - x) * (pz - z - k) - (z - x) * (py - y - k)
        == (z - y) * px + (y - x) * pz - (z - x) * py;
  }

  lemma ChordPerUnit(unit: real, x: real, y: real, z: real, px: real, py: real, pz: real)
    requires 0.0 < unit && OnChord(x, y, z, px * unit, py * unit, pz * unit)
    ensures OnChord(x, y, z, px, py, pz)
  {
    var lhs, rhs := (z - y) * px + (y - x) * pz, (z - x) * py;
    assert (z - y) * (px * unit) + (y - x) * (pz * unit) == lhs * unit;
    assert (z - x) * (py * unit) == rhs * unit;
    if rhs < lhs {
      RealMulStrict(rhs, lhs, unit);
    }
  }

  lemma SmoothNetChord(cfg: ScannerConfig, buy: PoolPriceSnapshot, sell: PoolPriceSnapshot, x: real, y: real, z: real)
    requires SmoothPair(buy, sell) && 0.0 <= x <= y <= z
    ensures OnChord(x, y, z, SmoothNetAt(cfg, buy, sell, x), SmoothNetAt(cfg, buy, sell, y), SmoothNetAt(cfg, buy, sell, z))
  {
    var unit := QuoteUnit(buy);
    var b, s := BuyLeg(buy), SellLeg(sell);
    ScaleUp(unit, x, y);
    ScaleUp(unit, y, z);
    RoundTripChord(b, s, Scaled(unit, x), Scaled(unit, y), Scaled(unit, z));
    var gx, gy, gz := RoundTrip(b, s, Scaled(unit, x)), RoundTrip(b, s, Scaled(unit, y)), RoundTrip(b, s, Scaled(unit, z));
    UnscaleChord(unit, x, y, z, gx, gy, gz);
    CappedChord(x, y, z, gx, gy, gz, RealCap(cfg, sell));
    NetChord(cfg, unit, x, y, z, SmoothBack(cfg, buy, sell, x), SmoothBack(cfg, buy, sell, y), SmoothBack(cfg, buy, sell, z));
  }

  lemma ScaleUp(k: real, x: real, y: real)
    requires 0.0 < k && 0.0 <= x <= y
    ensures 0.0 <= Scaled(k, x) <= Scaled(k, y)
    ensures Scaled(k, y) - Scaled(k, x) == k * (y - x)
  {
    RealMulMono(0.0, x, k);
    RealMulMono(x, y, k);
  }

  lemma SmoothNetConcave(cfg: ScannerConfig, buy: PoolPriceSnapshot, sell: PoolPriceSnapshot, lo: real, hi: real)
    requires SmoothPair(buy, sell) && 0.0 <= lo
    ensures Concave(SmoothNet(cfg, buy, sell), lo, hi)
  {
    var g := SmoothNet(cfg, buy, sell);
    forall x, y, z | lo <= x <= y <= z <= hi
      ensures Chord(g, x, y, z)
    {
      SmoothNetChord(cfg, buy, sell, x, y, z);
    }
  }

  // ---- not steep ----

  ghost function NetSlope(buy: PoolPriceSnapshot, sell: PoolPriceSnapshot): real
    requires SmoothPair(buy, sell)
  {
    1.0 + PairSlope(BuyLeg(buy), SellLeg(sell))
  }

  lemma NetSteep(cfg: ScannerConfig, unit: real, slope: real, x: real, y: real, gx: real, gy: real)
    requires 0.0 < unit && x <= y && Gains(slope, unit * (y - x), gy - gx)
    ensures -((1.0 + slope) * (y - x)) <= NetOf(cfg, unit, gy, y) - NetOf(cfg, unit, gx, x) <= (1.0 + slope) * (y - x)
  {
    var d := gy - gx;
    assert gy / unit - gx / unit == d / unit;
    assert slope * (unit * (y - x)) == slope * (y - x) * unit;
    RealDivLe(d, unit, slope * (y - x));
    RealDivGe(d, unit, 0.0);
    RealMulMono(0.0, slope, y - x);
    assert (1.0 + slope) * (y - x) == (y - x) + slope * (y - x);
  }

  lemma CappedGain(slope: real, unit: real, x: real, y: real, gx: real, gy: real, cap: real)
    requires 0.0 < unit && 0.0 <= x <= y
    requires Gains(slope, Scaled(unit, y) - Scaled(unit, x), gy - gx)
    ensures Gains(slope, unit * (y - x), MinReal(gy, cap) - MinReal(gx, cap))
  {
    ScaleUp(unit, x, y);
  }

  lemma SmoothBackSlope(cfg: ScannerConfig, buy: PoolPriceSnapshot, sell: PoolPriceSnapshot, x: real, y: real)
    requires SmoothPair(buy, sell) && 0.0 <= x <= y
    ensures Gains(PairSlope(BuyLeg(buy), SellLeg(sell)), QuoteUnit(buy) * (y - x),
                  SmoothBack(cfg, buy, sell, y) - SmoothBack(cfg, buy, sell, x))
  {
    hide RoundTrip;
    hide PairSlope;
    hide QuoteUnit;
    hide RealCap;
    hide Gains;
    var unit := QuoteUnit(buy);
    var b, s := BuyLeg(buy), SellLeg(sell);
    ScaleUp(unit, x, y);
    RoundTripIncreases(b, s, Scaled(unit, x), Scaled(unit, y));
    CappedGain(PairSlope(b, s), unit, x, y, RoundTrip(b, s, Scaled(unit, x)), RoundTrip(b, s, Scaled(unit, y)), RealCap(cfg, sell));
  }

  lemma SmoothNetSteep(cfg: ScannerConfig, buy: PoolPriceSnapshot, sell: PoolPriceSnapshot, x: real, y: real)
    requires SmoothPair(buy, sell) && 0.0 <= x <= y
    ensures 1.0 <= NetSlope(buy, sell)
    ensures SteepAtMost(SmoothNet(cfg, buy, sell), NetSlope(buy, sell), x, y)
  {
    hide SmoothBack;
    hide PairSlope;
    hide QuoteUnit;
    hide NetOf;
    SmoothBackSlope(cfg, buy, sell, x, y);
    NetSteep(cfg, QuoteUnit(buy), PairSlope(BuyLeg(buy), SellLeg(sell)), x, y,
             SmoothBack(cfg, buy, sell, x), SmoothBack(cfg, buy, sell, y));
  }

  lemma SmoothNetLipschitz(cfg: ScannerConfig, buy: PoolPriceSnapshot, sell: PoolPriceSnapshot, lo: real, hi: real)
    requires SmoothPair(buy, sell) && 0.0 <= lo
    ensures 1.0 <= NetSlope(buy, sell)
    ensures Lipschitz(SmoothNet(cfg, buy, sell), NetSlope(buy, sell), lo, hi)
  {
    SmoothNetSteep(cfg, buy, sell, 0.0, 0.0);
    var g, slope := SmoothNet(cfg, buy, sell), NetSlope(buy, sell);
    forall x, y | lo <= x <= y <= hi
      ensures SteepAtMost(g, slope, x, y)
    {
      SmoothNetSteep(cfg, buy, sell, x, y);
    }
  }

  // ---- close to the integer objective ----

  lemma CapRounds(cfg: ScannerConfig, sell: PoolPriceSnapshot, back: u64, smooth: real, loss: real)
    requires 1.0 <= loss && back as real <= smooth <= back as real + loss
    ensures Min(back, ShareCap(cfg, sell)) as real <= MinReal(smooth, RealCap(cfg, sell))
    ensures MinReal(smooth, RealCap(cfg, sell)) <= Min(back, ShareCap(cfg, sell)) as real + loss
  {
  }

  lemma NetRounds(cfg: ScannerConfig, unit: real, back: real, smooth: real, loss: real, x: real)
    requires 0.0 < unit && back <= smooth <= back + loss
    ensures NetOf(cfg, unit, back, x) <= NetOf(cfg, unit, smooth, x) <= NetOf(cfg, unit, back, x) + loss / unit
  {
    RealDivMono(back, smooth, unit);
    RealDivMono(smooth, back + loss, unit);
    assert (back + loss) / unit == back / unit + loss / unit;
  }

  /** Rounding of the objective, in whole quote units. */
  ghost function NetLoss(buy: PoolPriceSnapshot, sell: PoolPriceSnapshot): real
    requires SmoothPair(buy, sell)
  {
    RoundingLoss(BuyLeg(buy), SellLeg(sell)) / QuoteUnit(buy)
  }

  lemma RawQuoteRounds(buy: PoolPriceSnapshot, x: real)
    requires 0.0 <= x && x * QuoteUnit(buy) < U64_LIMIT as real
    ensures 0.0 <= Scaled(QuoteUnit(buy), x)
    ensures RawQuote(buy, x) as real <= Scaled(QuoteUnit(buy), x) < RawQuote(buy, x) as real + 1.0
  {
    RealMulMono(0.0, x, QuoteUnit(buy));
    assert Scaled(QuoteUnit(buy), x) == x * QuoteUnit(buy);
  }

  lemma LegsRound(buy: PoolPriceSnapshot, sell: PoolPriceSnapshot, q: u64, v: real)
    requires SmoothPair(buy, sell) && q as real <= v < q as real + 1.0
    ensures var back, loss := SellTokens(sell, BuyTokens(buy, q)) as real, RoundingLoss(BuyLeg(buy), SellLeg(sell));
      1.0 <= loss && back <= RoundTrip(BuyLeg(buy), SellLeg(sell), v) <= back + loss
  {
    hide LegOut;
    hide RoundTrip;
    hide RoundingLoss;
    hide BuyTokens;
    hide SellTokens;
    BuyTokensIsLeg(buy, q);
    SellTokensIsLeg(sell, BuyTokens(buy, q));
    RoundTripRounds(BuyLeg(buy), SellLeg(sell), q, v);
  }

  lemma BackRounds(cfg: ScannerConfig, buy: PoolPriceSnapshot, sell: PoolPriceSnapshot, x: real)
    requires SmoothPair(buy, sell) && 0.0 <= x && x * QuoteUnit(buy) < U64_LIMIT as real
    ensures var loss := RoundingLoss(BuyLeg(buy), SellLeg(sell));
      && 1.0 <= loss
      && QuoteBack(cfg, buy, sell, x) as real <= SmoothBack(cfg, buy, sell, x) <= QuoteBack(cfg, buy, sell, x) as real + loss
  {
    hide RoundTrip;
    hide RoundingLoss;
    hide BuyTokens;
    hide SellTokens;
    hide BuyLeg;
    hide SellLeg;
    hide RawQuote;
    hide ShareCap;
    hide RealCap;
    var v := Scaled(QuoteUnit(buy), x);
    RawQuoteRounds(buy, x);
    LegsRound(buy, sell, RawQuote(buy, x), v);
    CapRounds(cfg, sell, SellTokens(sell, BuyTokens(buy, RawQuote(buy, x))), RoundTrip(BuyLeg(buy), SellLeg(sell), v),
              RoundingLoss(BuyLeg(buy), SellLeg(sell)));
  }

  lemma ObjectiveRoundsAt(cfg: ScannerConfig, buy: PoolPriceSnapshot, sell: PoolPriceSnapshot, x: real)
    requires SmoothPair(buy, sell) && 0.0 <= x && x * QuoteUnit(buy) < U64_LIMIT as real
    ensures 0.0 <= NetLoss(buy, sell)
    ensures ComputeArbAtInvestment(cfg, buy, sell, x).1 <= SmoothNetAt(cfg, buy, sell, x)
    ensures SmoothNetAt(cfg, buy, sell, x) <= ComputeArbAtInvestment(cfg, buy, sell, x).1 + NetLoss(buy, sell)
  {
    hide QuoteBack;
    hide SmoothBack;
    hide RoundingLoss;
    hide QuoteUnit;
    hide BuyLeg;
    hide SellLeg;
    var loss := RoundingLoss(BuyLeg(buy), SellLeg(sell));
    BackRounds(cfg, buy, sell, x);
    NetRounds(cfg, QuoteUnit(buy), QuoteBack(cfg, buy, sell, x) as real, SmoothBack(cfg, buy, sell, x), loss, x);
    RealDivGe(loss, QuoteUnit(buy), 0.0);
  }

  lemma ObjectiveRounds(cfg: ScannerConfig, buy: PoolPriceSnapshot, sell: PoolPriceSnapshot, lo: real, hi: real)
    requires SmoothPair(buy, sell) && 0.0 <= lo <= hi && hi * QuoteUnit(buy) < U64_LIMIT as real
    ensures 0.0 <= NetLoss(buy, sell)
    ensures RoundsDown(Objective(cfg, buy, sell), SmoothNet(cfg, buy, sell), NetLoss(buy, sell), lo, hi)
  {
    hide ComputeArbAtInvestment;
    hide SmoothNetAt;
    hide NetLoss;
    var f, g, loss := Objective(cfg, buy, sell), SmoothNet(cfg, buy, sell), NetLoss(buy, sell);
    forall x | lo <= x <= hi
      ensures f(x) <= g(x) <= f(x) + loss
    {
      RealMulMono(x, hi, QuoteUnit(buy));
      ObjectiveRoundsAt(cfg, buy, sell, x);
    }
    RealMulMono(lo, hi, QuoteUnit(buy));
    ObjectiveRoundsAt(cfg, buy, sell, lo);
  }

  // ------------------------------------------------------------------
  // The search
  // ------------------------------------------------------------------

  /** What the search may miss on [lo, hi]: the rounding of twelve comparisons and of the result,
      and half the final bracket at the steepest slope. */
  ghost function SearchSlack(buy: PoolPriceSnapshot, sell: PoolPriceSnapshot, r: real, lo: real, hi: real): real
    requires SmoothPair(buy, sell)
  {
    Loss(12, NetLoss(buy, sell), r) + NetLoss(buy, sell) + NetSlope(buy, sell) * (Shrunk(hi - lo, r, 12) / 2.0)
  }

  /** The search on the integer pricing: no investment in the range nets more than the one it
      returns, up to the slack. */
  lemma SearchNearlyOptimal(cfg: ScannerConfig, buy: PoolPriceSnapshot, sell: PoolPriceSnapshot, r: real, lo: real, hi: real, x: real)
    requires SmoothPair(buy, sell) && Golden(r)
    requires 0.0 <= lo <= x <= hi && hi * QuoteUnit(buy) < U64_LIMIT as real
    ensures var net := Objective(cfg, buy, sell);
      net(x) <= net(Best(net, r, lo, hi, 12)) + SearchSlack(buy, sell, r, lo, hi)
  {
    hide Objective;
    hide SmoothNet;
    hide NetLoss;
    hide NetSlope;
    hide Best;
    hide Loss;
    hide Shrunk;
    hide Concave;
    hide RoundsDown;
    hide Lipschitz;
    SmoothNetConcave(cfg, buy, sell, lo, hi);
    SmoothNetLipschitz(cfg, buy, sell, lo, hi);
    ObjectiveRounds(cfg, buy, sell, lo, hi);
    BestNearlyOptimal(Objective(cfg, buy, sell), SmoothNet(cfg, buy, sell), r, NetLoss(buy, sell), NetSlope(buy, sell), lo, hi, 12, x);
  }

  /** The same for the range EstimateProfit searches: with a pool share of at most 100% the range
      never saturates the cast of the investment to raw units. */
  lemma EstimateNearlyOptimal(cfg: ScannerConfig, buy: PoolPriceSnapshot, sell: PoolPriceSnapshot, r: real, upper: real, x: real)
    requires SmoothPair(buy, sell) && Golden(r) && cfg.maxPoolShare <= 1.0
    requires WithinLimits(cfg, buy, sell, upper) && MIN_INVEST <= x <= upper
    ensures var net := Objective(cfg, buy, sell);
      net(x) <= net(Best(net, r, MIN_INVEST, upper, 12)) + SearchSlack(buy, sell, r, MIN_INVEST, upper)
  {
    ShareFitsU64(cfg, buy, QuoteUnit(buy), upper);
    SearchNearlyOptimal(cfg, buy, sell, r, MIN_INVEST, upper, x);
  }

  lemma ShareFitsU64(cfg: ScannerConfig, buy: PoolPriceSnapshot, unit: real, upper: real)
    requires 0.0 < unit && cfg.maxPoolShare <= 1.0 && upper <= QuoteShare(cfg, buy, unit)
    ensures upper * unit < U64_LIMIT as real
  {
    var sol := buy.solReservesRaw as real;
    var whole := sol / unit;
    RealDivGe(sol, unit, 0.0);
    RealMulMono(cfg.maxPoolShare, 1.0, whole);
    RealMulMono(upper, whole, unit);
  }
}
