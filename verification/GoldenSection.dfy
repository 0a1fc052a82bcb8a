/** Golden-section search on an arbitrary real function: what the bracket keeps when the function
    has a single peak, and what it can lose when the function is only a rounded concave one. */
module GoldenSection {
  import opened Arith

  /** The reciprocal of the golden ratio. */
  ghost predicate Golden(r: real) {
    r * r + r == 1.0 && 0.0 < r
  }

  ghost function Power(r: real, n: nat): real {
    if n == 0 then 1.0 else r * Power(r, n - 1)
  }

  /** The width left of w after n comparisons. */
  ghost function Shrunk(w: real, r: real, n: nat): real
    decreases n
  {
    if n == 0 then w else Shrunk(w * r, r, n - 1)
  }

  lemma {:induction false} ShrunkIsPower(w: real, r: real, n: nat)
    ensures Shrunk(w, r, n) == w * Power(r, n)
    decreases n
  {
    if n != 0 {
      ShrunkIsPower(w * r, r, n - 1);
      Regroup(w, r, Power(r, n - 1));
    }
  }

  lemma Regroup(x: real, y: real, z: real)
    ensures x * y * z == x * (y * z)
  {
  }

  function LeftProbe(r: real, a: real, b: real): real {
    b - (b - a) * r
  }

  function RightProbe(r: real, a: real, b: real): real {
    a + (b - a) * r
  }

  /** One comparison of the two probes: drop the side beyond the lower one. */
  ghost function Step(f: real -> real, r: real, a: real, b: real): (real, real) {
    if f(LeftProbe(r, a, b)) > f(RightProbe(r, a, b)) then (a, RightProbe(r, a, b)) else (LeftProbe(r, a, b), b)
  }

  ghost function Run(f: real -> real, r: real, a: real, b: real, n: nat): (real, real)
    decreases n
  {
    if n == 0 then (a, b) else
    var next := Step(f, r, a, b);
    Run(f, r, next.0, next.1, n - 1)
  }

  /** The point the search reports. */
  ghost function Best(f: real -> real, r: real, a: real, b: real, n: nat): real {
    var last := Run(f, r, a, b, n);
    (last.0 + last.1) / 2.0
  }

  // ------------------------------------------------------------------
  // Geometry of the bracket
  // ------------------------------------------------------------------

  lemma GoldenRange(r: real)
    requires Golden(r)
    ensures 0.6 < r < 0.62
  {
    if r <= 0.6 {
      RealMulMono(r, 0.6, r);
    }
    if 0.62 <= r {
      RealMulMono(0.62, r, r);
    }
  }

  lemma ProbesInside(r: real, a: real, b: real)
    requires Golden(r) && a <= b
    ensures a <= LeftProbe(r, a, b) <= RightProbe(r, a, b) <= b
    ensures a < b ==> LeftProbe(r, a, b) < RightProbe(r, a, b)
    ensures RightProbe(r, a, b) - a == (b - a) * r == b - LeftProbe(r, a, b)
  {
    GoldenRange(r);
    var w := b - a;
    RealMulMono(r, 1.0, w);
    RealMulMono(0.6, r, w);
  }

  /** The probe kept by a comparison is the probe the shorter bracket needs: its value is reused. */
  lemma ProbesAreReused(r: real, a: real, b: real)
    requires Golden(r)
    ensures RightProbe(r, a, RightProbe(r, a, b)) == LeftProbe(r, a, b)
    ensures LeftProbe(r, LeftProbe(r, a, b), b) == RightProbe(r, a, b)
  {
    var w := b - a;
    assert (w * r) * r == w * (r * r) == w * (1.0 - r) == w - w * r;
  }

  /** A search from [lo, hi] with n comparisons to go, in the bracket [a, b] with both probes and
      their values at hand. */
  ghost predicate Searching(f: real -> real, r: real, lo: real, hi: real, a: real, b: real,
                            c: real, d: real, fc: real, fd: real, n: nat) {
    && lo <= a <= b <= hi
    && c == LeftProbe(r, a, b) && d == RightProbe(r, a, b)
    && fc == f(c) && fd == f(d)
    && Run(f, r, a, b, n) == Run(f, r, lo, hi, 12)
  }

  /** Dropping the right end reuses the left probe as the new right one. */
  lemma KeepLeft(f: real -> real, r: real, lo: real, hi: real, a: real, b: real,
                 c: real, d: real, fc: real, fd: real, n: nat)
    requires Golden(r) && 0 < n && Searching(f, r, lo, hi, a, b, c, d, fc, fd, n) && fc > fd
    ensures Searching(f, r, lo, hi, a, d, LeftProbe(r, a, d), c, f(LeftProbe(r, a, d)), fc, n - 1)
  {
    ProbesInside(r, a, b);
    ProbesAreReused(r, a, b);
  }

  /** Dropping the left end reuses the right probe as the new left one. */
  lemma KeepRight(f: real -> real, r: real, lo: real, hi: real, a: real, b: real,
                  c: real, d: real, fc: real, fd: real, n: nat)
    requires Golden(r) && 0 < n && Searching(f, r, lo, hi, a, b, c, d, fc, fd, n) && fc <= fd
    ensures Searching(f, r, lo, hi, c, b, d, RightProbe(r, c, b), fd, f(RightProbe(r, c, b)), n - 1)
  {
    ProbesInside(r, a, b);
    ProbesAreReused(r, a, b);
  }

  lemma {:induction false} RunShrinks(f: real -> real, r: real, a: real, b: real, n: nat)
    requires Golden(r) && a <= b
    ensures var last := Run(f, r, a, b, n);
      a <= last.0 <= last.1 <= b && last.1 - last.0 == Shrunk(b - a, r, n)
    decreases n
  {
    if n != 0 {
      StepShrinks(f, r, a, b);
      var next := Step(f, r, a, b);
      RunShrinks(f, r, next.0, next.1, n - 1);
    }
  }

  lemma StepShrinks(f: real -> real, r: real, a: real, b: real)
    requires Golden(r) && a <= b
    ensures var next := Step(f, r, a, b);
      a <= next.0 <= next.1 <= b && next.1 - next.0 == (b - a) * r
  {
    ProbesInside(r, a, b);
  }

  // ------------------------------------------------------------------
  // A single peak is never dropped
  // ------------------------------------------------------------------

  ghost predicate Higher(f: real -> real, x: real, y: real, z: real) {
    f(x) < f(y) || f(z) < f(y)
  }

  /** Strictly unimodal without naming the peak: a point between two others is above one of them. */
  ghost predicate StrictlyUnimodal(f: real -> real, lo: real, hi: real) {
    forall x, y, z :: lo <= x < y < z <= hi ==> Higher(f, x, y, z)
  }

  ghost predicate Peak(f: real -> real, m: real, lo: real, hi: real) {
    lo <= m <= hi && forall x :: lo <= x <= hi ==> f(x) <= f(m)
  }

  lemma StepKeepsPeak(f: real -> real, r: real, m: real, a: real, b: real)
    requires Golden(r) && a <= b && StrictlyUnimodal(f, a, b) && Peak(f, m, a, b)
    ensures var next := Step(f, r, a, b);
      a <= next.0 <= next.1 <= b && next.0 <= m <= next.1
  {
    ProbesInside(r, a, b);
    var c, d := LeftProbe(r, a, b), RightProbe(r, a, b);
    if d < m {
      assert Higher(f, c, d, m);
    }
    if m < c {
      assert Higher(f, m, c, d);
    }
  }

  lemma {:induction false} RunKeepsPeak(f: real -> real, r: real, m: real, a: real, b: real, n: nat)
    requires Golden(r) && a <= b && StrictlyUnimodal(f, a, b) && Peak(f, m, a, b)
    ensures var last := Run(f, r, a, b, n); last.0 <= m <= last.1
    decreases n
  {
    if n != 0 {
      StepKeepsPeak(f, r, m, a, b);
      var next := Step(f, r, a, b);
      RunKeepsPeak(f, r, m, next.0, next.1, n - 1);
    }
  }

  /** The same without naming a peak: no dropped point is better than every kept one. */
  lemma StepKeepsBetter(f: real -> real, r: real, a: real, b: real, z: real) returns (y: real)
    requires Golden(r) && a <= z <= b && StrictlyUnimodal(f, a, b)
    ensures var next := Step(f, r, a, b);
      a <= next.0 <= y <= next.1 <= b && f(z) <= f(y)
  {
    ProbesInside(r, a, b);
    var c, d := LeftProbe(r, a, b), RightProbe(r, a, b);
    if f(c) > f(d) && d < z {
      assert Higher(f, c, d, z);
      y := d;
    } else if f(c) <= f(d) && z < c {
      assert Higher(f, z, c, d);
      y := c;
    } else {
      y := z;
    }
  }

  lemma {:induction false} RunKeepsBetter(f: real -> real, r: real, a: real, b: real, n: nat, z: real) returns (y: real)
    requires Golden(r) && a <= z <= b && StrictlyUnimodal(f, a, b)
    ensures var last := Run(f, r, a, b, n); a <= last.0 <= y <= last.1 <= b && f(z) <= f(y)
    decreases n
  {
    if n == 0 {
      y := z;
    } else {
      y := StepKeepsBetter(f, r, a, b, z);
      var next := Step(f, r, a, b);
      y := RunKeepsBetter(f, r, next.0, next.1, n - 1, y);
    }
  }

  /** On a function with a single peak the reported point is within half the final bracket of it. */
  lemma BestNearPeak(f: real -> real, r: real, m: real, a: real, b: real, n: nat)
    requires Golden(r) && a <= b && StrictlyUnimodal(f, a, b) && Peak(f, m, a, b)
    ensures a <= Best(f, r, a, b, n) <= b
    ensures -(Shrunk(b - a, r, n) / 2.0) <= Best(f, r, a, b, n) - m <= Shrunk(b - a, r, n) / 2.0
  {
    RunKeepsPeak(f, r, m, a, b, n);
    BestInMiddle(f, r, a, b, n, m);
  }

  // ------------------------------------------------------------------
  // A rounded concave function
  // ------------------------------------------------------------------

  /** The value at y is on or above the chord from x to z. */
  ghost predicate Chord(g: real -> real, x: real, y: real, z: real) {
    OnChord(x, y, z, g(x), g(y), g(z))
  }

  ghost predicate OnChord(x: real, y: real, z: real, gx: real, gy: real, gz: real) {
    (z - y) * gx + (y - x) * gz <= (z - x) * gy
  }

  ghost predicate Concave(g: real -> real, lo: real, hi: real) {
    forall x, y, z :: lo <= x <= y <= z <= hi ==> Chord(g, x, y, z)
  }

  /** f is g with up to eps rounded off. */
  ghost predicate RoundsDown(f: real -> real, g: real -> real, eps: real, lo: real, hi: real) {
    forall x :: lo <= x <= hi ==> f(x) <= g(x) <= f(x) + eps
  }

  ghost predicate SteepAtMost(g: real -> real, slope: real, x: real, y: real) {
    -(slope * (y - x)) <= g(y) - g(x) <= slope * (y - x)
  }

  ghost predicate Lipschitz(g: real -> real, slope: real, lo: real, hi: real) {
    forall x, y :: lo <= x <= y <= hi ==> SteepAtMost(g, slope, x, y)
  }

  /** If the near probe looked no higher than the far one only because of rounding, then what lies
      beyond the far probe is at most eps * ratio above it. */
  lemma BeyondProbe(near: real, far: real, beyond: real, gap: real, rest: real, eps: real, ratio: real)
    requires 0.0 < gap && 0.0 <= rest <= gap * ratio && 0.0 <= eps
    requires rest * near + gap * beyond <= (gap + rest) * far
    requires far - eps <= near
    ensures beyond <= far + eps * ratio
  {
    RealMulMono(far - eps, near, rest);
    RealMulMono(rest, gap * ratio, eps);
    BeyondIdentity(far, gap, rest, eps, ratio);
    if far + eps * ratio < beyond {
      RealMulStrict(far + eps * ratio, beyond, gap);
    }
  }

  lemma BeyondIdentity(far: real, gap: real, rest: real, eps: real, ratio: real)
    ensures (far - eps) * rest == rest * far - rest * eps
    ensures (gap + rest) * far == far * gap + rest * far
    ensures (far + eps * ratio) * gap == far * gap + gap * ratio * eps
  {
  }

  lemma BeyondRight(c: real, d: real, z: real, gc: real, gd: real, gz: real, eps: real, ratio: real)
    requires c < d < z && z - d <= (d - c) * ratio && 0.0 <= eps
    requires OnChord(c, d, z, gc, gd, gz) && gd - eps <= gc
    ensures gz <= gd + eps * ratio
  {
    BeyondProbe(gc, gd, gz, d - c, z - d, eps, ratio);
  }

  lemma BeyondLeft(z: real, c: real, d: real, gz: real, gc: real, gd: real, eps: real, ratio: real)
    requires z < c < d && c - z <= (d - c) * ratio && 0.0 <= eps
    requires OnChord(z, c, d, gz, gc, gd) && gc - eps <= gd
    ensures gz <= gc + eps * ratio
  {
    BeyondProbe(gd, gc, gz, d - c, c - z, eps, ratio);
  }

  /** The dropped part of the bracket is at most 1 + r times the gap between the probes. */
  lemma DroppedPart(r: real, a: real, b: real)
    requires Golden(r) && a <= b
    ensures var c, d := LeftProbe(r, a, b), RightProbe(r, a, b);
      b - d == (d - c) * (1.0 + r) && c - a == (d - c) * (1.0 + r)
  {
    var w := b - a;
    var c, d := LeftProbe(r, a, b), RightProbe(r, a, b);
    assert d - c == w * (2.0 * r - 1.0);
    assert (2.0 * r - 1.0) * (1.0 + r) == 2.0 * (r * r + r) - r - 1.0 == 1.0 - r;
    assert w * (2.0 * r - 1.0) * (1.0 + r) == w * ((2.0 * r - 1.0) * (1.0 + r));
    assert w * (1.0 - r) == w - w * r;
  }

  /** What `steps` comparisons can lose to roundings of size eps. */
  ghost function Loss(steps: nat, eps: real, r: real): real {
    steps as real * (eps * (1.0 + r))
  }

  lemma LossAdds(n: nat, eps: real, r: real)
    requires 0 < n
    ensures Loss(n, eps, r) == Loss(n - 1, eps, r) + Loss(1, eps, r)
  {
    var e := eps * (1.0 + r);
    assert n as real * e == (n - 1) as real * e + e;
  }

  lemma NoLoss(eps: real, r: real)
    ensures Loss(0, eps, r) == 0.0
  {
  }

  /** A value beyond the right probe, dropped because the left one looked higher. */
  lemma DroppedRight(f: real -> real, g: real -> real, r: real, eps: real, a: real, b: real, z: real)
    requires Golden(r) && a <= b && 0.0 <= eps && Concave(g, a, b) && RoundsDown(f, g, eps, a, b)
    requires f(LeftProbe(r, a, b)) > f(RightProbe(r, a, b)) && RightProbe(r, a, b) < z <= b
    ensures g(z) <= g(RightProbe(r, a, b)) + Loss(1, eps, r)
  {
    hide LeftProbe;
    hide RightProbe;
    hide Loss;
    hide Golden;
    ProbesInside(r, a, b);
    DroppedPart(r, a, b);
    OneLoss(eps, r);
    var c, d := LeftProbe(r, a, b), RightProbe(r, a, b);
    assert Chord(g, c, d, z);
    hide OnChord;
    RoundedOrder(f, g, eps, a, b, d, c);
    BeyondRight(c, d, z, g(c), g(d), g(z), eps, 1.0 + r);
  }

  lemma DroppedLeft(f: real -> real, g: real -> real, r: real, eps: real, a: real, b: real, z: real)
    requires Golden(r) && a <= b && 0.0 <= eps && Concave(g, a, b) && RoundsDown(f, g, eps, a, b)
    requires f(LeftProbe(r, a, b)) <= f(RightProbe(r, a, b)) && a <= z < LeftProbe(r, a, b)
    ensures g(z) <= g(LeftProbe(r, a, b)) + Loss(1, eps, r)
  {
    hide LeftProbe;
    hide RightProbe;
    hide Loss;
    hide Golden;
    ProbesInside(r, a, b);
    DroppedPart(r, a, b);
    OneLoss(eps, r);
    var c, d := LeftProbe(r, a, b), RightProbe(r, a, b);
    assert Chord(g, z, c, d);
    hide OnChord;
    RoundedOrder(f, g, eps, a, b, c, d);
    BeyondLeft(z, c, d, g(z), g(c), g(d), eps, 1.0 + r);
  }

  /** Looking no lower after rounding means being lower by at most the rounding. */
  lemma RoundedOrder(f: real -> real, g: real -> real, eps: real, lo: real, hi: real, x: real, y: real)
    requires RoundsDown(f, g, eps, lo, hi) && lo <= x <= hi && lo <= y <= hi && f(x) <= f(y)
    ensures g(x) - eps <= g(y)
  {
  }

  /** One comparison loses at most eps * (1 + r) of the best envelope value in the bracket. */
  lemma StepLosesLittle(f: real -> real, g: real -> real, r: real, eps: real, a: real, b: real, z: real)
    returns (y: real)
    requires Golden(r) && a <= z <= b && 0.0 <= eps
    requires Concave(g, a, b) && RoundsDown(f, g, eps, a, b)
    ensures var next := Step(f, r, a, b);
      a <= next.0 <= y <= next.1 <= b && g(z) <= g(y) + Loss(1, eps, r)
  {
    hide LeftProbe;
    hide RightProbe;
    hide Loss;
    hide Golden;
    hide Concave;
    hide RoundsDown;
    ProbesInside(r, a, b);
    OneLoss(eps, r);
    var c, d := LeftProbe(r, a, b), RightProbe(r, a, b);
    if f(c) > f(d) && d < z {
      DroppedRight(f, g, r, eps, a, b, z);
      y := d;
    } else if f(c) <= f(d) && z < c {
      DroppedLeft(f, g, r, eps, a, b, z);
      y := c;
    } else {
      y := z;
    }
  }

  lemma OneLoss(eps: real, r: real)
    requires Golden(r) && 0.0 <= eps
    ensures Loss(1, eps, r) == eps * (1.0 + r) && 0.0 <= eps * (1.0 + r)
  {
    RealMulMono(0.0, eps, 1.0 + r);
  }

  lemma {:induction false} RunLosesLittle(f: real -> real, g: real -> real, r: real, eps: real, a: real, b: real, n: nat, z: real)
    returns (y: real)
    requires Golden(r) && a <= z <= b && 0.0 <= eps
    requires Concave(g, a, b) && RoundsDown(f, g, eps, a, b)
    ensures var last := Run(f, r, a, b, n);
      last.0 <= y <= last.1 && g(z) <= g(y) + Loss(n, eps, r)
    decreases n
  {
    hide Loss;
    hide LeftProbe;
    hide RightProbe;
    if n == 0 {
      NoLoss(eps, r);
      y := z;
    } else {
      var mid := StepLosesLittle(f, g, r, eps, a, b, z);
      var next := Step(f, r, a, b);
      y := RunLosesLittle(f, g, r, eps, next.0, next.1, n - 1, mid);
      LossAdds(n, eps, r);
    }
  }

  /** Searching a rounded concave function: the reported point is as good as any other, up to the
      rounding of each comparison and half the final bracket times the steepest slope. */
  lemma BestNearlyOptimal(f: real -> real, g: real -> real, r: real, eps: real, slope: real, a: real, b: real, n: nat, z: real)
    requires Golden(r) && a <= z <= b && 0.0 <= eps && 0.0 <= slope
    requires Concave(g, a, b) && RoundsDown(f, g, eps, a, b) && Lipschitz(g, slope, a, b)
    ensures a <= Best(f, r, a, b, n) <= b
    ensures f(z) <= f(Best(f, r, a, b, n)) + Loss(n, eps, r) + eps
                    + slope * (Shrunk(b - a, r, n) / 2.0)
  {
    hide Shrunk;
    hide Golden;
    hide Lipschitz;
    hide Concave;
    var y := RunLosesLittle(f, g, r, eps, a, b, n, z);
    BestInMiddle(f, r, a, b, n, y);
    RoundedNeighbour(f, g, slope, eps, a, b, z, y, Best(f, r, a, b, n), Loss(n, eps, r), Shrunk(b - a, r, n) / 2.0);
  }

  lemma RoundedNeighbour(f: real -> real, g: real -> real, slope: real, eps: real, a: real, b: real,
                         z: real, y: real, best: real, loss: real, dist: real)
    requires RoundsDown(f, g, eps, a, b) && Lipschitz(g, slope, a, b) && 0.0 <= slope
    requires a <= z <= b && a <= y <= b && a <= best <= b
    requires g(z) <= g(y) + loss && -dist <= best - y <= dist
    ensures f(z) <= f(best) + loss + eps + slope * dist
  {
    NearbyValue(g, slope, a, b, y, best, dist);
  }

  lemma BestInMiddle(f: real -> real, r: real, a: real, b: real, n: nat, y: real)
    requires Golden(r) && a <= b
    requires var last := Run(f, r, a, b, n); last.0 <= y <= last.1
    ensures a <= Best(f, r, a, b, n) <= b && a <= y <= b
    ensures -(Shrunk(b - a, r, n) / 2.0) <= Best(f, r, a, b, n) - y <= Shrunk(b - a, r, n) / 2.0
  {
    RunShrinks(f, r, a, b, n);
  }

  lemma NearbyValue(g: real -> real, slope: real, a: real, b: real, p: real, q: real, dist: real)
    requires Lipschitz(g, slope, a, b) && 0.0 <= slope
    requires a <= p <= b && a <= q <= b && -dist <= p - q <= dist
    ensures g(p) <= g(q) + slope * dist
  {
    if p <= q {
      assert SteepAtMost(g, slope, p, q);
      RealMulMono(q - p, dist, slope);
    } else {
      assert SteepAtMost(g, slope, q, p);
      RealMulMono(p - q, dist, slope);
    }
  }
}
