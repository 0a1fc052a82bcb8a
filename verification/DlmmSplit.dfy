/** Splitting one DLMM swap into two: what the fill leaves behind, and what the second fill pays. */
module DlmmSplit {
  import opened Arith
  import opened Dlmm

  /** The levels after `amount` of after-fee input has been consumed from them. */
  function After(ls: seq<Level>, amount: nat): (rest: seq<Level>)
    ensures |rest| == |ls|
  {
    if ls == [] then []
    else if !ls[0].Usable() then [ls[0]] + After(ls[1..], amount)
    else if amount <= ls[0].reserveIn then
      PartialFill(ls[0], amount, amount);
      [Level(ls[0].reserveIn - amount, ls[0].reserveOut - MulDiv(ls[0].reserveOut, amount, ls[0].reserveIn))] + ls[1..]
    else [Level(0, 0)] + After(ls[1..], amount - ls[0].reserveIn)
  }

  /** Nothing is lost: what left the levels is exactly what was paid. */
  lemma {:induction false} AfterConserves(ls: seq<Level>, amount: nat)
    ensures TotalOut(After(ls, amount)) + Walk(ls, amount) == TotalOut(ls)
  {
    if ls == [] {
    } else if !ls[0].Usable() {
      AfterConserves(ls[1..], amount);
    } else if amount <= ls[0].reserveIn {
      PartialFill(ls[0], amount, amount);
      assert After(ls, amount)[1..] == ls[1..];
    } else {
      AfterConserves(ls[1..], amount - ls[0].reserveIn);
      assert After(ls, amount)[1..] == After(ls[1..], amount - ls[0].reserveIn);
    }
  }

  // ---- two partial fills of one level ----

  /** Cancel a common positive factor. */
  lemma CancelLe(a: int, b: int, d: int)
    requires 0 < d && a * d <= b * d
    ensures a <= b
  {
    assert (a - b) * d <= 0;
    if 0 < a - b {
      MulMono(1, a - b, d);
    }
  }

  /** (o - k) y r split over what the first fill left and what it rounded away. */
  lemma LeftoverIdentity(o: int, k: int, r: int, x: int, y: int)
    ensures (o - k) * y * r == o * y * (r - x) + (o * x - k * r) * y
  {
  }

  lemma TwoFillsAtMost(o: nat, r: nat, x: nat, y: nat, k: nat, q: nat)
    requires x < r && y <= r - x && k <= o
    requires k * r <= o * x
    requires q * (r - x) <= (o - k) * y
    ensures (k + q) * r <= o * (x + y)
  {
    var e := o * x - k * r;
    var left := r - x;
    MulMono(q * left, (o - k) * y, r);
    LeftoverIdentity(o, k, r, x, y);
    MulMono(y, left, e);
    SecondFill(q, r, left, o * y + e);
    Distribute(k, q, r);
    Distribute(x, y, o);
  }

  lemma SecondFill(q: int, r: int, left: int, total: int)
    requires 0 < left && q * left * r <= total * left
    ensures q * r <= total
  {
    assert q * left * r == q * r * left;
    CancelLe(q * r, total, left);
  }

  lemma Distribute(a: int, b: int, c: int)
    ensures (a + b) * c == a * c + b * c
    ensures c * (a + b) == c * a + c * b
  {
  }

  lemma TwoFillsAtLeast(o: nat, r: nat, x: nat, y: nat, k: nat, q: nat)
    requires x < r && y <= r - x && k <= o
    requires k * r <= o * x < k * r + r
    requires (o - k) * y < q * (r - x) + (r - x)
    ensures o * (x + y) < (k + q + 2) * r
  {
    var left := r - x;
    MulMono((o - k) * y, q * left + left, r);
    LeftoverIdentity(o, k, r, x, y);
    MulMono(0, o * x - k * r, y);
    Distribute(q, 1, left);
    ThirdFill(o * y, q + 1, r, left);
    Distribute(k + 1, q + 1, r);
    Distribute(k, 1, r);
    Distribute(q, 1, r);
    Distribute(x, y, o);
  }

  lemma ThirdFill(p: int, q: int, r: int, left: int)
    requires 0 < left && p * left <= q * left * r
    ensures p <= q * r
  {
    assert q * left * r == q * r * left;
    CancelLe(p, q * r, left);
  }

  /** Filling a level by x and then by y pays what filling it by x + y pays, or one unit less. */
  lemma TwoFills(level: Level, x: nat, y: nat)
    requires level.Usable() && x < level.reserveIn && x + y <= level.reserveIn
    ensures var k := MulDiv(level.reserveOut, x, level.reserveIn);
      && k < level.reserveOut
      && (var split := k + MulDiv(level.reserveOut - k, y, level.reserveIn - x);
          split <= MulDiv(level.reserveOut, x + y, level.reserveIn) <= split + 1)
  {
    var o, r := level.reserveOut, level.reserveIn;
    PartialFill(level, x, x);
    var k := MulDiv(o, x, r);
    var q := MulDiv(o - k, y, r - x);
    DivBounds(o * x, r);
    DivBounds((o - k) * y, r - x);
    TwoFillsAtMost(o, r, x, y, k, q);
    TwoFillsAtLeast(o, r, x, y, k, q);
    DivCharacter(o * (x + y), r, k + q);
    DivCharacter(o * (x + y), r, k + q + 2);
  }

  /** Splitting a swap never helps and costs at most one unit. */
  lemma {:induction false} SplittingNeverHelps(ls: seq<Level>, a1: nat, a2: nat)
    ensures Walk(ls, a1) + Walk(After(ls, a1), a2) <= Walk(ls, a1 + a2)
    ensures Walk(ls, a1 + a2) <= Walk(ls, a1) + Walk(After(ls, a1), a2) + 1
  {
    if ls == [] {
      return;
    }
    var head, rest, after := ls[0], ls[1..], After(ls, a1);
    if !head.Usable() {
      assert after[0] == head && after[1..] == After(rest, a1);
      SplittingNeverHelps(rest, a1, a2);
    } else if head.reserveIn < a1 {
      assert after[0] == Level(0, 0) && after[1..] == After(rest, a1 - head.reserveIn);
      SplittingNeverHelps(rest, a1 - head.reserveIn, a2);
    } else {
      assert after[1..] == rest;
      PartialFill(head, a1, a1);
      if a1 == head.reserveIn {
        WalkNothing(rest);
      } else if a1 + a2 <= head.reserveIn {
        TwoFills(head, a1, a2);
      }
    }
  }
}
