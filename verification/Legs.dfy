/** One leg of an arbitrage, a constant-product pool or a list of DLMM levels, together with the
    smooth curve it rounds down: concave, increasing, and never further than a known amount away. */
module Legs {
  import opened Arith
  import opened Dlmm
  import opened DlmmOptimal
  import opened GoldenSection
  import CP = ConstantProduct

  datatype Leg = Curve(reserveIn: nat, reserveOut: nat, feeBps: nat) | Bins(levels: seq<Level>, feeBps: nat)

  /** A leg the smooth-curve results apply to: a pool with input-side reserves, or levels visited
      from the best price to the worst. */
  ghost predicate Smooth(leg: Leg) {
    && leg.feeBps <= 10000
    && (leg.Curve? ==> 0 < leg.reserveIn)
    && (leg.Bins? ==> PricesDescend(leg.levels))
  }

  function OutAfterFee(leg: Leg, eff: nat): nat {
    match leg
    case Curve(ri, ro, _) => CP.CurveOut(ri, ro, eff)
    case Bins(levels, _) => Walk(levels, eff)
  }

  /** The integer estimate of a leg: basis-point fee first, then the curve or the levels. */
  function LegOut(leg: Leg, amount: nat): nat
    requires leg.feeBps <= 10000
  {
    OutAfterFee(leg, CP.AfterFeeBps(amount, leg.feeBps))
  }

  // ------------------------------------------------------------------
  // The smooth curve
  // ------------------------------------------------------------------

  ghost function Kept(leg: Leg): real {
    (10000 - leg.feeBps) as real / 10000.0
  }

  /** The constant-product curve on a real after-fee input. */
  ghost function RealCurve(m: real, k: real, e: real): real
    requires 0.0 < m + e
  {
    k * e / (m + e)
  }

  ghost function RealAfterFee(leg: Leg, e: real): real
    requires Smooth(leg) && 0.0 <= e
  {
    match leg
    case Curve(ri, ro, _) => RealCurve(ri as real, ro as real, e)
    case Bins(levels, _) => RealWalk(levels, e)
  }

  ghost function LegReal(leg: Leg, x: real): real
    requires Smooth(leg) && 0.0 <= x
  {
    NetOrder(leg, 0.0, x);
    RealAfterFee(leg, NetInput(leg, x))
  }

  /** The part of an input that is left after the fee, unrounded. */
  ghost function NetInput(leg: Leg, x: real): real {
    Scaled(Kept(leg), x)
  }

  ghost function Scaled(k: real, x: real): real {
    k * x
  }

  lemma NetOrder(leg: Leg, x: real, y: real)
    requires leg.feeBps <= 10000 && 0.0 <= x <= y
    ensures 0.0 <= NetInput(leg, x) <= NetInput(leg, y) <= y
    ensures NetInput(leg, y) - NetInput(leg, x) <= y - x
  {
    ScaleOrder(Kept(leg), x, y);
  }

  lemma ScaleOrder(k: real, x: real, y: real)
    requires 0.0 <= k <= 1.0 && 0.0 <= x <= y
    ensures 0.0 <= Scaled(k, x) <= Scaled(k, y) <= y
    ensures Scaled(k, y) - Scaled(k, x) <= y - x
  {
    RealMulSign(k, x);
    RealMulSign(k, y - x);
    DistributeOver(k, y, x);
    Shrinks(k, y - x);
    Shrinks(k, y);
  }

  lemma Shrinks(k: real, y: real)
    requires k <= 1.0 && 0.0 <= y
    ensures k * y <= y
  {
    RealMulMono(k, 1.0, y);
  }

  lemma DistributeOver(k: real, y: real, x: real)
    ensures k * y - k * x == k * (y - x)
  {
  }

  /** The best price along the levels. */
  ghost function FirstPrice(ls: seq<Level>): real {
    if ls == [] then 0.0 else if ls[0].Usable() then Price(ls[0]) else FirstPrice(ls[1..])
  }

  /** The most one more unit of input can add. */
  ghost function LegSlope(leg: Leg): real
    requires Smooth(leg)
  {
    match leg
    case Curve(ri, ro, _) => ro as real / ri as real
    case Bins(levels, _) => FirstPrice(levels)
  }

  // ------------------------------------------------------------------
  // The constant-product curve
  // ------------------------------------------------------------------

  /** What the curve leaves of the output reserve. */
  ghost function LeftAfter(m: real, k: real, e: real): real
    requires 0.0 < m + e
  {
    k * m / (m + e)
  }

  /** The curve pays the reserve minus what it leaves, and the product stays k * m. */
  lemma LeftKeepsProduct(m: real, k: real, e: real)
    requires 0.0 < m && 0.0 <= k && 0.0 <= e
    ensures RealCurve(m, k, e) == k - LeftAfter(m, k, e)
    ensures LeftAfter(m, k, e) * (m + e) == k * m
    ensures 0.0 <= LeftAfter(m, k, e) <= k && (0.0 < k ==> 0.0 < LeftAfter(m, k, e))
  {
    var q, l, u := m + e, LeftAfter(m, k, e), RealCurve(m, k, e);
    QuotientTimes(k * m, q);
    QuotientTimes(k * e, q);
    assert (u + l) * q == k * q;
    SameFactor(u + l, k, q);
    RealMulMono(m, q, k);
    RealDivLe(k * m, q, k);
    RealMulMono(0.0, k, m);
    RealDivGe(k * m, q, 0.0);
    if 0.0 < k {
      RealMulStrict(0.0, k, m);
      PositiveQuotient(k * m, q);
    }
  }

  lemma PositiveQuotient(n: real, q: real)
    requires 0.0 < n && 0.0 < q
    ensures 0.0 < n / q
  {
    QuotientTimes(n, q);
    if n / q <= 0.0 {
      RealMulMono(n / q, 0.0, q);
    }
  }

  lemma QuotientTimes(a: real, q: real)
    requires 0.0 < q
    ensures a / q * q == a
  {
  }

  lemma SameFactor(a: real, b: real, q: real)
    requires 0.0 < q && a * q == b * q
    ensures a == b
  {
    if a < b {
      RealMulStrict(a, b, q);
    } else if b < a {
      RealMulStrict(b, a, q);
    }
  }

  /** Two points of a hyperbola l * q = const: the drop between them. */
  lemma HyperbolaDrop(p: real, q: real, lp: real, lq: real, k: real, m: real)
    requires 0.0 < m <= p <= q && lp * p == lq * q && 0.0 <= lq <= k
    ensures 0.0 <= lp - lq && (lp - lq) * m <= k * (q - p)
  {
    var d := lp - lq;
    assert d * p == lq * (q - p);
    RealMulMono(0.0, lq, q - p);
    RealMulMono(lq, k, q - p);
    if d < 0.0 {
      RealMulStrict(d, 0.0, p);
    }
    RealMulMono(m, p, d);
  }

  /** Three points of a hyperbola: the middle one lies below the chord. */
  lemma HyperbolaChord(p: real, q: real, r: real, lp: real, lq: real, lr: real)
    requires 0.0 < p <= q <= r && lp * p == lq * q == lr * r && 0.0 <= lq
    ensures 0.0 <= (r - q) * lp + (q - p) * lr - (r - p) * lq
  {
    HyperbolaGap(p, q, r, lp, lq, lr);
    NonNegative4(lq, r - q, q - p, r - p);
    SignOfQuotient((r - q) * lp + (q - p) * lr - (r - p) * lq, p, r, Product4(lq, r - q, q - p, r - p));
  }

  lemma HyperbolaStrictChord(p: real, q: real, r: real, lp: real, lq: real, lr: real)
    requires 0.0 < p < q < r && lp * p == lq * q == lr * r && 0.0 < lq
    ensures 0.0 < (r - q) * lp + (q - p) * lr - (r - p) * lq
  {
    HyperbolaGap(p, q, r, lp, lq, lr);
    Positive4(lq, r - q, q - p, r - p);
    SignOfQuotientStrict((r - q) * lp + (q - p) * lr - (r - p) * lq, p, r, Product4(lq, r - q, q - p, r - p));
  }

  ghost function Product4(a: real, b: real, c: real, d: real): real {
    a * (b * c * d)
  }

  lemma NonNegative4(a: real, b: real, c: real, d: real)
    requires 0.0 <= a && 0.0 <= b && 0.0 <= c && 0.0 <= d
    ensures 0.0 <= Product4(a, b, c, d)
  {
    RealMulMono(0.0, b, c);
    RealMulMono(0.0, b * c, d);
    RealMulMono(0.0, a, b * c * d);
  }

  lemma Positive4(a: real, b: real, c: real, d: real)
    requires 0.0 < a && 0.0 < b && 0.0 < c && 0.0 < d
    ensures 0.0 < Product4(a, b, c, d)
  {
    RealMulStrict(0.0, b, c);
    RealMulStrict(0.0, b * c, d);
    RealMulStrict(0.0, a, b * c * d);
  }

  lemma SignOfQuotient(gap: real, p: real, r: real, v: real)
    requires 0.0 < p && 0.0 < r && gap * (p * r) == v && 0.0 <= v
    ensures 0.0 <= gap
  {
    RealMulStrict(0.0, p, r);
    if gap < 0.0 {
      RealMulStrict(gap, 0.0, p * r);
    }
  }

  lemma SignOfQuotientStrict(gap: real, p: real, r: real, v: real)
    requires 0.0 < p && 0.0 < r && gap * (p * r) == v && 0.0 < v
    ensures 0.0 < gap
  {
    RealMulStrict(0.0, p, r);
    if gap <= 0.0 {
      RealMulMono(gap, 0.0, p * r);
    }
  }

  lemma HyperbolaGap(p: real, q: real, r: real, lp: real, lq: real, lr: real)
    requires lp * p == lq * q == lr * r
    ensures ((r - q) * lp + (q - p) * lr - (r - p) * lq) * (p * r) == Product4(lq, r - q, q - p, r - p)
  {
    calc {
      ((r - q) * lp + (q - p) * lr - (r - p) * lq) * (p * r);
      (r - q) * r * (lp * p) + (q - p) * p * (lr * r) - (r - p) * lq * (p * r);
      (r - q) * r * (lq * q) + (q - p) * p * (lq * q) - (r - p) * lq * (p * r);
      lq * ((r - q) * r * q + (q - p) * p * q - (r - p) * (p * r));
      { assert (r - q) * r * q + (q - p) * p * q - (r - p) * (p * r) == (r - q) * (q - p) * (r - p); }
      Product4(lq, r - q, q - p, r - p);
    }
  }

  lemma RealCurveSlope(m: real, k: real, x: real, y: real)
    requires 0.0 < m && 0.0 <= k && 0.0 <= x <= y
    ensures 0.0 <= RealCurve(m, k, y) - RealCurve(m, k, x) <= k / m * (y - x)
  {
    LeftKeepsProduct(m, k, x);
    LeftKeepsProduct(m, k, y);
    var lx, ly := LeftAfter(m, k, x), LeftAfter(m, k, y);
    HyperbolaDrop(m + x, m + y, lx, ly, k, m);
    DropPerUnit(lx - ly, m, k, y - x);
  }

  lemma DropPerUnit(d: real, m: real, k: real, w: real)
    requires 0.0 < m && d * m <= k * w
    ensures d <= k / m * w
  {
    var t := k / m;
    assert t * m == k;
    assert k * w == (t * w) * m;
    if t * w < d {
      RealMulStrict(t * w, d, m);
    }
  }

  /** The curve is concave. */
  lemma RealCurveChord(m: real, k: real, x: real, y: real, z: real)
    requires 0.0 < m && 0.0 <= k && 0.0 <= x <= y <= z
    ensures (z - y) * RealCurve(m, k, x) + (y - x) * RealCurve(m, k, z) <= (z - x) * RealCurve(m, k, y)
  {
    LeftKeepsProduct(m, k, x);
    LeftKeepsProduct(m, k, y);
    LeftKeepsProduct(m, k, z);
    var lx, ly, lz := LeftAfter(m, k, x), LeftAfter(m, k, y), LeftAfter(m, k, z);
    HyperbolaChord(m + x, m + y, m + z, lx, ly, lz);
    ChordOfComplement(m, k, x, y, z, lx, ly, lz);
  }

  /** A pool that holds anything has a strictly concave curve. */
  lemma RealCurveStrictChord(m: real, k: real, x: real, y: real, z: real)
    requires 0.0 < m && 0.0 < k && 0.0 <= x < y < z
    ensures (z - y) * RealCurve(m, k, x) + (y - x) * RealCurve(m, k, z) < (z - x) * RealCurve(m, k, y)
  {
    LeftKeepsProduct(m, k, x);
    LeftKeepsProduct(m, k, y);
    LeftKeepsProduct(m, k, z);
    var lx, ly, lz := LeftAfter(m, k, x), LeftAfter(m, k, y), LeftAfter(m, k, z);
    HyperbolaStrictChord(m + x, m + y, m + z, lx, ly, lz);
    ChordOfComplement(m, k, x, y, z, lx, ly, lz);
  }

  lemma ChordOfComplement(m: real, k: real, x: real, y: real, z: real, lx: real, ly: real, lz: real)
    ensures (z - x) * (k - ly) - ((z - y) * (k - lx) + (y - x) * (k - lz))
         == (m + z - (m + y)) * lx + (m + y - (m + x)) * lz - (m + z - (m + x)) * ly
  {
  }

  // ------------------------------------------------------------------
  // The levels
  // ------------------------------------------------------------------

  /** A straight piece of slope p up to r, plus what lies beyond. */
  ghost function Bent(p: real, r: real, x: real, beyond: real): real {
    p * MinReal(x, r) + beyond
  }

  /** A straight piece of slope p up to r, then a concave rest g (g = 0 at r) no steeper than p:
      the value at y is on or above the chord from x to z. The rest is given by its values. */
  lemma PieceThenRest(p: real, x: real, r: real, z: real, y: real, gy: real, gz: real)
    requires 0.0 <= x <= r <= z && x <= y <= z
    requires y <= r ==> gy == 0.0
    requires gz - gy <= p * (z - MaxReal(y, r))
    requires r <= y ==> OnChord(0.0, y - r, z - r, 0.0, gy, gz)
    ensures OnChord(x, y, z, Bent(p, r, x, 0.0), Bent(p, r, y, gy), Bent(p, r, z, gz))
  {
    if y <= r {
      RealMulMono(gz, p * (z - r), y - x);
      StraightIdentity(p, x, r, z, y, gz);
    } else {
      // (z-x)(pr+gy) - (z-y)px - (y-x)(pr+gz) = [(z-r)gy - (y-r)gz] + (r-x)[p(z-y) - (gz-gy)]
      RealMulMono(gz - gy, p * (z - y), r - x);
      PieceIdentity(p, x, r, z, y, gy, gz);
    }
  }

  lemma StraightIdentity(p: real, x: real, r: real, z: real, y: real, gz: real)
    ensures (z - x) * (p * y) - (z - y) * (p * x) - (y - x) * (p * r + gz) == p * (z - r) * (y - x) - gz * (y - x)
  {
  }

  lemma PieceIdentity(p: real, x: real, r: real, z: real, y: real, gy: real, gz: real)
    ensures (z - x) * (p * r + gy) - (z - y) * (p * x) - (y - x) * (p * r + gz)
         == ((z - r) * gy - (y - r) * gz) + (p * (z - y) * (r - x) - (gz - gy) * (r - x))
  {
  }

  ghost predicate WalkChord(ls: seq<Level>, x: real, y: real, z: real) {
    OnChord(x, y, z, RealWalk(ls, x), RealWalk(ls, y), RealWalk(ls, z))
  }

  /** Levels in descending price order form a concave curve. */
  lemma {:induction false} RealWalkChord(ls: seq<Level>, x: real, y: real, z: real)
    requires PricesDescend(ls) && 0.0 <= x <= y <= z
    ensures WalkChord(ls, x, y, z)
  {
    if ls == [] {
    } else if !ls[0].Usable() {
      RealWalkChord(ls[1..], x, y, z);
    } else {
      var r := ls[0].reserveIn as real;
      TailPricedAtHead(ls);
      if z <= r {
        StraightChord(Price(ls[0]), x, y, z);
      } else if r <= x {
        RealWalkChord(ls[1..], x - r, y - r, z - r);
        ChordPastHead(ls, x, y, z);
      } else {
        if r <= y {
          RealWalkChord(ls[1..], 0.0, y - r, z - r);
        }
        BentChord(ls, x, y, z);
      }
    }
  }

  lemma StraightChord(p: real, x: real, y: real, z: real)
    ensures OnChord(x, y, z, p * x, p * y, p * z)
  {
    assert (z - y) * (p * x) + (y - x) * (p * z) == (z - x) * (p * y);
  }

  lemma ChordPastHead(ls: seq<Level>, x: real, y: real, z: real)
    requires ls != [] && ls[0].Usable() && ls[0].reserveIn as real <= x <= y <= z
    requires WalkChord(ls[1..], x - ls[0].reserveIn as real, y - ls[0].reserveIn as real, z - ls[0].reserveIn as real)
    ensures WalkChord(ls, x, y, z)
  {
    var r := ls[0].reserveIn as real;
    RealWalkPast(ls, x);
    RealWalkPast(ls, y);
    RealWalkPast(ls, z);
    ShiftedChord(ls[0].reserveOut as real, r, x, y, z, RealWalk(ls[1..], x - r), RealWalk(ls[1..], y - r), RealWalk(ls[1..], z - r));
  }

  lemma ShiftedChord(o: real, r: real, x: real, y: real, z: real, gx: real, gy: real, gz: real)
    requires OnChord(x - r, y - r, z - r, gx, gy, gz)
    ensures OnChord(x, y, z, o + gx, o + gy, o + gz)
  {
    assert (z - x) * (o + gy) - ((z - y) * (o + gx) + (y - x) * (o + gz)) == (z - x) * gy - ((z - y) * gx + (y - x) * gz);
  }

  /** The chord across the edge of the first usable level. */
  lemma BentChord(ls: seq<Level>, x: real, y: real, z: real)
    requires ls != [] && ls[0].Usable() && PricedAtMost(ls[1..], Price(ls[0]))
    requires 0.0 <= x <= ls[0].reserveIn as real <= z && x <= y <= z
    requires ls[0].reserveIn as real <= y ==> WalkChord(ls[1..], 0.0, y - ls[0].reserveIn as real, z - ls[0].reserveIn as real)
    ensures WalkChord(ls, x, y, z)
  {
    var p, r := Price(ls[0]), ls[0].reserveIn as real;
    RealWalkBent(ls, x);
    RealWalkBent(ls, y);
    RealWalkBent(ls, z);
    RealWalkAtZero(ls[1..]);
    BeyondSlope(ls, y, z);
    PieceThenRest(p, x, r, z, y, BeyondHead(ls, y), BeyondHead(ls, z));
  }

  lemma BeyondSlope(ls: seq<Level>, y: real, z: real)
    requires ls != [] && ls[0].Usable() && PricedAtMost(ls[1..], Price(ls[0]))
    requires 0.0 <= y <= z && ls[0].reserveIn as real <= z
    ensures BeyondHead(ls, z) - BeyondHead(ls, y) <= Price(ls[0]) * (z - MaxReal(y, ls[0].reserveIn as real))
  {
    var r := ls[0].reserveIn as real;
    PriceTimesSize(ls[0]);
    RealWalkSlope(ls[1..], Price(ls[0]), MaxReal(y, r) - r, z - r);
  }

  /** What the levels after the first usable one contribute. */
  ghost function BeyondHead(ls: seq<Level>, x: real): real
    requires ls != []
  {
    RealWalk(ls[1..], MaxReal(x, ls[0].reserveIn as real) - ls[0].reserveIn as real)
  }

  lemma RealWalkBent(ls: seq<Level>, x: real)
    requires ls != [] && ls[0].Usable()
    ensures RealWalk(ls, x) == Bent(Price(ls[0]), ls[0].reserveIn as real, x, BeyondHead(ls, x))
  {
    RealWalkAtZero(ls[1..]);
    PriceTimesSize(ls[0]);
  }

  lemma {:induction false} FirstPriceIsBest(ls: seq<Level>)
    requires PricesDescend(ls)
    ensures 0.0 <= FirstPrice(ls) && PricedAtMost(ls, FirstPrice(ls))
  {
    hide Price;
    if ls == [] {
    } else if ls[0].Usable() {
      PriceTimesSize(ls[0]);
      TailPricedAtHead(ls);
    } else {
      FirstPriceIsBest(ls[1..]);
      forall i | 0 <= i < |ls| && ls[i].Usable()
        ensures ls[i].reserveOut as real <= FirstPrice(ls) * ls[i].reserveIn as real
      {
        assert ls[i] == ls[1..][i - 1];
      }
    }
  }

  // ------------------------------------------------------------------
  // Either kind of leg
  // ------------------------------------------------------------------

  lemma AfterFeeChord(leg: Leg, x: real, y: real, z: real)
    requires Smooth(leg) && 0.0 <= x <= y <= z
    ensures OnChord(x, y, z, RealAfterFee(leg, x), RealAfterFee(leg, y), RealAfterFee(leg, z))
  {
    hide RealCurve;
    hide RealWalk;
    match leg
    case Curve(ri, ro, _) => RealCurveChord(ri as real, ro as real, x, y, z);
    case Bins(levels, _) => RealWalkChord(levels, x, y, z);
  }

  lemma AfterFeeSlope(leg: Leg, x: real, y: real)
    requires Smooth(leg) && 0.0 <= x <= y
    ensures 0.0 <= LegSlope(leg)
    ensures 0.0 <= RealAfterFee(leg, y) - RealAfterFee(leg, x) <= LegSlope(leg) * (y - x)
  {
    hide RealCurve;
    hide RealWalk;
    hide FirstPrice;
    match leg
    case Curve(ri, ro, _) =>
      RealCurveSlope(ri as real, ro as real, x, y);
      RealDivGe(ro as real, ri as real, 0.0);
    case Bins(levels, _) =>
      FirstPriceIsBest(levels);
      RealWalkSlope(levels, FirstPrice(levels), x, y);
  }

  /** Stretching the axis by a factor keeps chords. */
  lemma ScaledChord(leg: Leg, x: real, y: real, z: real, gx: real, gy: real, gz: real)
    requires leg.feeBps <= 10000
    requires OnChord(NetInput(leg, x), NetInput(leg, y), NetInput(leg, z), gx, gy, gz)
    requires Kept(leg) == 0.0 ==> gx == gy == gz
    ensures OnChord(x, y, z, gx, gy, gz)
  {
    var k := Kept(leg);
    if k == 0.0 {
      assert (z - y) * gx + (y - x) * gx == (z - x) * gx;
    } else {
      UnscaleChord(k, x, y, z, gx, gy, gz);
    }
  }

  lemma UnscaleChord(k: real, x: real, y: real, z: real, gx: real, gy: real, gz: real)
    requires 0.0 < k && OnChord(Scaled(k, x), Scaled(k, y), Scaled(k, z), gx, gy, gz)
    ensures OnChord(x, y, z, gx, gy, gz)
  {
    var lhs, rhs := (z - y) * gx + (y - x) * gz, (z - x) * gy;
    assert (k * z - k * y) * gx + (k * y - k * x) * gz == k * lhs;
    assert (k * z - k * x) * gy == k * rhs;
    if rhs < lhs {
      RealMulStrict(rhs, lhs, k);
    }
  }

  /** A smooth leg is concave in what is sent into it. */
  lemma LegChord(leg: Leg, x: real, y: real, z: real)
    requires Smooth(leg) && 0.0 <= x <= y <= z
    ensures OnChord(x, y, z, LegReal(leg, x), LegReal(leg, y), LegReal(leg, z))
  {
    hide RealAfterFee;
    NetOrder(leg, x, y);
    NetOrder(leg, y, z);
    AfterFeeChord(leg, NetInput(leg, x), NetInput(leg, y), NetInput(leg, z));
    NothingKept(leg, x, y);
    NothingKept(leg, y, z);
    ScaledChord(leg, x, y, z, LegReal(leg, x), LegReal(leg, y), LegReal(leg, z));
  }

  lemma NothingKept(leg: Leg, x: real, y: real)
    ensures Kept(leg) == 0.0 ==> NetInput(leg, x) == NetInput(leg, y)
  {
  }

  /** A smooth leg is increasing, and one more unit of input never adds more than its slope. */
  lemma LegIncreases(leg: Leg, x: real, y: real)
    requires Smooth(leg) && 0.0 <= x <= y
    ensures 0.0 <= LegSlope(leg)
    ensures 0.0 <= LegReal(leg, y) - LegReal(leg, x) <= LegSlope(leg) * (y - x)
  {
    hide RealAfterFee;
    hide LegSlope;
    hide NetInput;
    NetOrder(leg, x, y);
    AfterFeeSlope(leg, NetInput(leg, x), NetInput(leg, y));
    SlopeTimes(LegSlope(leg), NetInput(leg, y) - NetInput(leg, x), y - x, LegReal(leg, y) - LegReal(leg, x));
  }

  lemma SlopeTimes(slope: real, w: real, v: real, gain: real)
    requires 0.0 <= slope && w <= v && gain <= slope * w
    ensures gain <= slope * v
  {
    RealMulMono(w, v, slope);
  }

  lemma CurveRounds(ri: nat, ro: nat, e: nat)
    requires 0 < ri
    ensures CP.CurveOut(ri, ro, e) as real <= RealCurve(ri as real, ro as real, e as real) < CP.CurveOut(ri, ro, e) as real + 1.0
  {
    RealDivBounds(ro * e, ri + e);
    assert (ro * e) as real == ro as real * e as real;
    assert (ri + e) as real == ri as real + e as real;
  }

  lemma AfterFeeRounds(leg: Leg, e: nat)
    requires Smooth(leg)
    ensures OutAfterFee(leg, e) as real <= RealAfterFee(leg, e as real) < OutAfterFee(leg, e) as real + 1.0
  {
    match leg
    case Curve(ri, ro, _) => CurveRounds(ri, ro, e);
    case Bins(levels, _) => WalkIsFloorOfRealWalk(levels, e);
  }

  lemma FeeRounds(leg: Leg, a: nat)
    requires leg.feeBps <= 10000
    ensures CP.AfterFeeBps(a, leg.feeBps) as real <= NetInput(leg, a as real) < CP.AfterFeeBps(a, leg.feeBps) as real + 1.0
  {
    var n := a * (10000 - leg.feeBps);
    RealDivBounds(n, 10000);
    assert n as real == a as real * (10000 - leg.feeBps) as real;
    assert NetInput(leg, a as real) == n as real / 10000.0;
  }

  /** The integer estimate of a leg is below its smooth curve by at most one unit of output plus
      the price of one unit of input: one rounding in the fee, one in the output. */
  lemma LegRounds(leg: Leg, a: nat)
    requires Smooth(leg)
    ensures LegOut(leg, a) as real <= LegReal(leg, a as real) <= LegOut(leg, a) as real + LegSlope(leg) + 1.0
  {
    FeeRoundingCost(leg, a);
    AfterFeeRounds(leg, CP.AfterFeeBps(a, leg.feeBps));
  }

  lemma FeeRoundingCost(leg: Leg, a: nat)
    requires Smooth(leg)
    ensures 0.0 <= LegReal(leg, a as real) - RealAfterFee(leg, CP.AfterFeeBps(a, leg.feeBps) as real) <= LegSlope(leg)
  {
    hide RealAfterFee;
    hide LegSlope;
    hide NetInput;
    var e, net := CP.AfterFeeBps(a, leg.feeBps) as real, NetInput(leg, a as real);
    FeeRounds(leg, a);
    NetOrder(leg, 0.0, a as real);
    AfterFeeSlope(leg, e, net);
    SlopeTimes(LegSlope(leg), net - e, 1.0, RealAfterFee(leg, net) - RealAfterFee(leg, e));
  }
}
