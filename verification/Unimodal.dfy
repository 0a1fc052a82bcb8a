/** Without rounding, the net profit of buying in one constant-product pool and selling in another,
    pool-share cap included, has a single peak, and the golden-section search closes in on it. */
module Unimodal {
  import opened Arith
  import opened GoldenSection
  import opened Legs
  import opened Sizing
  import opened SizingOptimality

  // ------------------------------------------------------------------
  // Strictness of a constant-product leg
  // ------------------------------------------------------------------

  /** A pool with both reserves and a fee below 100%. */
  ghost predicate Live(leg: Leg) {
    leg.Curve? && leg.feeBps < 10000 && 0 < leg.reserveIn && 0 < leg.reserveOut
  }

  ghost predicate BelowChord(x: real, y: real, z: real, gx: real, gy: real, gz: real) {
    (z - y) * gx + (y - x) * gz < (z - x) * gy
  }

  lemma KeptPositive(leg: Leg, x: real, y: real)
    requires Live(leg) && 0.0 <= x < y
    ensures 0.0 < Kept(leg) && 0.0 <= NetInput(leg, x) < NetInput(leg, y)
  {
    NetOrder(leg, 0.0, x);
    ScaleStrict(Kept(leg), x, y);
  }

  lemma ScaleStrict(k: real, x: real, y: real)
    requires 0.0 < k && x < y
    ensures Scaled(k, x) < Scaled(k, y)
  {
    RealMulStrict(x, y, k);
  }

  lemma UnscaleBelow(k: real, x: real, y: real, z: real, gx: real, gy: real, gz: real)
    requires 0.0 < k && BelowChord(Scaled(k, x), Scaled(k, y), Scaled(k, z), gx, gy, gz)
    ensures BelowChord(x, y, z, gx, gy, gz)
  {
    var lhs, rhs := (z - y) * gx + (y - x) * gz, (z - x) * gy;
    assert (k * z - k * y) * gx + (k * y - k * x) * gz == k * lhs;
    assert (k * z - k * x) * gy == k * rhs;
    if rhs <= lhs {
      RealMulMono(rhs, lhs, k);
    }
  }

  lemma LegStrictChord(leg: Leg, x: real, y: real, z: real)
    requires Live(leg) && 0.0 <= x < y < z
    ensures BelowChord(x, y, z, LegReal(leg, x), LegReal(leg, y), LegReal(leg, z))
  {
    hide RealCurve;
    hide NetInput;
    KeptPositive(leg, x, y);
    KeptPositive(leg, y, z);
    RealCurveStrictChord(leg.reserveIn as real, leg.reserveOut as real, NetInput(leg, x), NetInput(leg, y), NetInput(leg, z));
    NetInputScaled(leg, x, y, z, LegReal(leg, x), LegReal(leg, y), LegReal(leg, z));
  }

  lemma NetInputScaled(leg: Leg, x: real, y: real, z: real, gx: real, gy: real, gz: real)
    requires 0.0 < Kept(leg) && BelowChord(NetInput(leg, x), NetInput(leg, y), NetInput(leg, z), gx, gy, gz)
    ensures BelowChord(x, y, z, gx, gy, gz)
  {
    UnscaleBelow(Kept(leg), x, y, z, gx, gy, gz);
  }

  lemma RealCurveStrict(m: real, k: real, x: real, y: real)
    requires 0.0 < m && 0.0 < k && 0.0 <= x < y
    ensures RealCurve(m, k, x) < RealCurve(m, k, y)
  {
    hide RealCurve;
    hide LeftAfter;
    LeftKeepsProduct(m, k, x);
    LeftKeepsProduct(m, k, y);
    HyperbolaStrictDrop(m + x, m + y, LeftAfter(m, k, x), LeftAfter(m, k, y));
  }

  lemma HyperbolaStrictDrop(p: real, q: real, lp: real, lq: real)
    requires 0.0 < p < q && lp * p == lq * q && 0.0 < lq
    ensures lq < lp
  {
    assert (lp - lq) * p == lq * (q - p);
    RealMulStrict(0.0, lq, q - p);
    if lp <= lq {
      RealMulMono(lp - lq, 0.0, p);
    }
  }

  lemma LegStrictlyIncreases(leg: Leg, x: real, y: real)
    requires Live(leg) && 0.0 <= x < y
    ensures LegReal(leg, x) < LegReal(leg, y)
  {
    hide RealCurve;
    hide NetInput;
    KeptPositive(leg, x, y);
    RealCurveStrict(leg.reserveIn as real, leg.reserveOut as real, NetInput(leg, x), NetInput(leg, y));
  }

  // ------------------------------------------------------------------
  // Two legs in a row
  // ------------------------------------------------------------------

  lemma ComposeBelow(x: real, y: real, z: real, tokensX: real, tokensZ: real, w: real, backX: real, backY: real, backZ: real, gw: real)
    requires x < y < z && tokensX < tokensZ
    requires (z - x) * w == (z - y) * tokensX + (y - x) * tokensZ
    requires OnChord(tokensX, w, tokensZ, backX, gw, backZ) && gw < backY
    ensures BelowChord(x, y, z, backX, backY, backZ)
  {
    ComposeChord(x, y, z, tokensX, w, tokensZ, w, backX, gw, backZ, gw);
    RealMulStrict(gw, backY, z - x);
  }

  lemma StrictlyBelow(t: real, w: real, y: real, n: real)
    requires 0.0 < t && t * w == n && n < t * y
    ensures w < y
  {
    if y <= w {
      RealMulMono(y, w, t);
    }
  }

  lemma RoundTripStrict(buy: Leg, sell: Leg, x: real, y: real, z: real)
    requires Live(buy) && Live(sell) && 0.0 <= x < y < z
    ensures BelowChord(x, y, z, RoundTrip(buy, sell, x), RoundTrip(buy, sell, y), RoundTrip(buy, sell, z))
  {
    hide LegReal;
    LegNonNegative(buy, x);
    LegStrictChord(buy, x, y, z);
    LegStrictlyIncreases(buy, x, y);
    LegStrictlyIncreases(buy, y, z);
    var tokensX, tokensY, tokensZ := LegReal(buy, x), LegReal(buy, y), LegReal(buy, z);
    var w := ChordPoint(x, y, z, tokensX, tokensY, tokensZ);
    StrictlyBelow(z - x, w, tokensY, (z - y) * tokensX + (y - x) * tokensZ);
    LegChord(sell, tokensX, w, tokensZ);
    LegStrictlyIncreases(sell, w, tokensY);
    ComposeBelow(x, y, z, tokensX, tokensZ, w, LegReal(sell, tokensX), LegReal(sell, tokensY), LegReal(sell, tokensZ), LegReal(sell, w));
  }

  /** A 100% fee on either leg makes the round trip return the same whatever is put in. */
  lemma RoundTripFlat(buy: Leg, sell: Leg, x: real, y: real)
    requires Smooth(buy) && Smooth(sell) && 0.0 <= x && 0.0 <= y
    requires buy.feeBps == 10000 || sell.feeBps == 10000
    ensures RoundTrip(buy, sell, x) == RoundTrip(buy, sell, y)
  {
    LegNonNegative(buy, x);
    LegNonNegative(buy, y);
    if buy.feeBps == 10000 {
      NothingKept(buy, x, y);
    } else {
      NothingKept(sell, LegReal(buy, x), LegReal(buy, y));
    }
  }

  // ------------------------------------------------------------------
  // The net profit
  // ------------------------------------------------------------------

  /** Cap the returns, convert them to whole units and subtract the investment: a strictly concave
      or constant return leaves a single peak. */
  lemma NetPeaks(cfg: ScannerConfig, unit: real, cap: real, x: real, y: real, z: real, vx: real, vy: real, vz: real)
    requires 0.0 < unit && x < y < z && vx <= vy <= vz
    requires BelowChord(x, y, z, vx, vy, vz) || vx == vy == vz
    ensures NetOf(cfg, unit, MinReal(vx, cap), x) < NetOf(cfg, unit, MinReal(vy, cap), y)
         || NetOf(cfg, unit, MinReal(vz, cap), z) < NetOf(cfg, unit, MinReal(vy, cap), y)
  {
    if MinReal(vz, cap) <= MinReal(vy, cap) {
      RealDivMono(MinReal(vz, cap), MinReal(vy, cap), unit);
    } else {
      // Neither x nor y reaches the cap; were y no better than both neighbours, the gains on its
      // two sides would contradict strict concavity.
      var dl, dr := vy - vx, MinReal(vz, cap) - vy;
      GainAgainstCost(cfg, unit, vx, vy, x, y);
      GainAgainstCost(cfg, unit, vy, MinReal(vz, cap), y, z);
      if dl <= unit * (y - x) && unit * (z - y) <= dr {
        RealMulMono(unit * (z - y), vz - vy, y - x);
        RealMulMono(dl, unit * (y - x), z - y);
        SideGains(x, y, z, vx, vy, vz, unit);
      }
    }
  }

  lemma GainAgainstCost(cfg: ScannerConfig, unit: real, vx: real, vy: real, x: real, y: real)
    requires 0.0 < unit
    ensures NetOf(cfg, unit, vy, y) <= NetOf(cfg, unit, vx, x) <==> vy - vx <= unit * (y - x)
    ensures NetOf(cfg, unit, vx, x) <= NetOf(cfg, unit, vy, y) <==> unit * (y - x) <= vy - vx
  {
    PerUnit(unit, vy - vx, y - x);
    assert vy / unit - vx / unit == (vy - vx) / unit;
  }

  lemma PerUnit(unit: real, d: real, w: real)
    requires 0.0 < unit
    ensures d / unit <= w <==> d <= unit * w
    ensures w <= d / unit <==> unit * w <= d
  {
    QuotientTimes(d, unit);
    var q := d / unit;
    if q < w {
      RealMulStrict(q, w, unit);
    } else if w < q {
      RealMulStrict(w, q, unit);
    }
  }

  lemma SideGains(x: real, y: real, z: real, vx: real, vy: real, vz: real, unit: real)
    requires (vy - vx) * (z - y) <= unit * (y - x) * (z - y)
    requires unit * (z - y) * (y - x) <= (vz - vy) * (y - x)
    ensures !BelowChord(x, y, z, vx, vy, vz)
  {
    assert (z - x) * vy - ((z - y) * vx + (y - x) * vz) == (vy - vx) * (z - y) - (vz - vy) * (y - x);
    assert unit * (y - x) * (z - y) == unit * (z - y) * (y - x);
  }

  lemma SmoothNetHigher(cfg: ScannerConfig, buy: PoolPriceSnapshot, sell: PoolPriceSnapshot, x: real, y: real, z: real)
    requires SmoothPair(buy, sell) && buy.bins == [] && sell.bins == [] && 0.0 <= x < y < z
    ensures Higher(SmoothNet(cfg, buy, sell), x, y, z)
  {
    hide RoundTrip;
    hide RealCap;
    hide NetOf;
    var unit := QuoteUnit(buy);
    var b, s := BuyLeg(buy), SellLeg(sell);
    ScaleUp(unit, x, y);
    ScaleUp(unit, y, z);
    ScaleStrict(unit, x, y);
    ScaleStrict(unit, y, z);
    var u, v, w := Scaled(unit, x), Scaled(unit, y), Scaled(unit, z);
    RoundTripIncreases(b, s, u, v);
    RoundTripIncreases(b, s, v, w);
    if b.feeBps == 10000 || s.feeBps == 10000 {
      RoundTripFlat(b, s, u, v);
      RoundTripFlat(b, s, v, w);
    } else {
      RoundTripStrict(b, s, u, v, w);
      UnscaleBelow(unit, x, y, z, RoundTrip(b, s, u), RoundTrip(b, s, v), RoundTrip(b, s, w));
    }
    NetPeaks(cfg, unit, RealCap(cfg, sell), x, y, z, RoundTrip(b, s, u), RoundTrip(b, s, v), RoundTrip(b, s, w));
  }

  /** Over the reals, the capped net profit of a constant-product pair is strictly unimodal. */
  lemma NetIsStrictlyUnimodal(cfg: ScannerConfig, buy: PoolPriceSnapshot, sell: PoolPriceSnapshot, lo: real, hi: real)
    requires SmoothPair(buy, sell) && buy.bins == [] && sell.bins == [] && 0.0 <= lo
    ensures StrictlyUnimodal(SmoothNet(cfg, buy, sell), lo, hi)
  {
    hide SmoothNet;
    var f := SmoothNet(cfg, buy, sell);
    forall x, y, z | lo <= x < y < z <= hi
      ensures Higher(f, x, y, z)
    {
      SmoothNetHigher(cfg, buy, sell, x, y, z);
    }
  }

  /** The most profitable investment is unique. */
  lemma PeakIsUnique(cfg: ScannerConfig, buy: PoolPriceSnapshot, sell: PoolPriceSnapshot, lo: real, hi: real, m: real, n: real)
    requires SmoothPair(buy, sell) && buy.bins == [] && sell.bins == [] && 0.0 <= lo
    requires Peak(SmoothNet(cfg, buy, sell), m, lo, hi) && Peak(SmoothNet(cfg, buy, sell), n, lo, hi)
    ensures m == n
  {
    hide SmoothNet;
    hide SmoothPair;
    if m != n {
      SmoothNetHigher(cfg, buy, sell, MinReal(m, n), (m + n) / 2.0, MaxReal(m, n));
    }
  }

  /** So the search keeps the most profitable investment in its bracket throughout and ends within
      half the final bracket, (hi - lo) * r^12 / 2, of it. */
  lemma SearchFindsPeak(cfg: ScannerConfig, buy: PoolPriceSnapshot, sell: PoolPriceSnapshot, r: real, lo: real, hi: real, m: real)
    requires SmoothPair(buy, sell) && buy.bins == [] && sell.bins == [] && Golden(r) && 0.0 <= lo <= hi
    requires Peak(SmoothNet(cfg, buy, sell), m, lo, hi)
    ensures forall n: nat :: var bracket := Run(SmoothNet(cfg, buy, sell), r, lo, hi, n); bracket.0 <= m <= bracket.1
    ensures var half := (hi - lo) * Power(r, 12) / 2.0;
      -half <= Best(SmoothNet(cfg, buy, sell), r, lo, hi, 12) - m <= half
  {
    hide SmoothNet;
    hide SmoothPair;
    NetIsStrictlyUnimodal(cfg, buy, sell, lo, hi);
    PeakSearch(SmoothNet(cfg, buy, sell), r, m, lo, hi);
  }

  /** Whether or not the best investment is attained: every investment in the range is matched or
      beaten by one in the final bracket, within (hi - lo) * r^12 / 2 of the result. */
  lemma SearchKeepsBetter(cfg: ScannerConfig, buy: PoolPriceSnapshot, sell: PoolPriceSnapshot, r: real, lo: real, hi: real, z: real) returns (y: real)
    requires SmoothPair(buy, sell) && buy.bins == [] && sell.bins == [] && Golden(r) && 0.0 <= lo <= z <= hi
    ensures lo <= y <= hi && SmoothNet(cfg, buy, sell)(z) <= SmoothNet(cfg, buy, sell)(y)
    ensures var half := (hi - lo) * Power(r, 12) / 2.0;
      -half <= Best(SmoothNet(cfg, buy, sell), r, lo, hi, 12) - y <= half
  {
    hide SmoothNet;
    hide SmoothPair;
    NetIsStrictlyUnimodal(cfg, buy, sell, lo, hi);
    y := BetterSearch(SmoothNet(cfg, buy, sell), r, lo, hi, z);
  }

  lemma BetterSearch(f: real -> real, r: real, lo: real, hi: real, z: real) returns (y: real)
    requires Golden(r) && lo <= z <= hi && StrictlyUnimodal(f, lo, hi)
    ensures lo <= y <= hi && f(z) <= f(y)
    ensures var half := (hi - lo) * Power(r, 12) / 2.0; -half <= Best(f, r, lo, hi, 12) - y <= half
  {
    hide StrictlyUnimodal;
    hide Best;
    hide Run;
    hide Power;
    hide Shrunk;
    y := RunKeepsBetter(f, r, lo, hi, 12, z);
    BestInMiddle(f, r, lo, hi, 12, y);
    ShrunkIsPower(hi - lo, r, 12);
  }

  lemma PeakSearch(f: real -> real, r: real, m: real, lo: real, hi: real)
    requires Golden(r) && lo <= hi && StrictlyUnimodal(f, lo, hi) && Peak(f, m, lo, hi)
    ensures forall n: nat :: var bracket := Run(f, r, lo, hi, n); bracket.0 <= m <= bracket.1
    ensures var half := (hi - lo) * Power(r, 12) / 2.0; -half <= Best(f, r, lo, hi, 12) - m <= half
  {
    hide StrictlyUnimodal;
    hide Peak;
    hide Best;
    forall n: nat
      ensures var bracket := Run(f, r, lo, hi, n); bracket.0 <= m <= bracket.1
    {
      RunKeepsPeak(f, r, m, lo, hi, n);
    }
    BestNearPeak(f, r, m, lo, hi, 12);
    ShrunkIsPower(hi - lo, r, 12);
  }
}
