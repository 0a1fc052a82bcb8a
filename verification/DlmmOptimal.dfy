/** The fill loop as an optimisation: at fixed per-bin prices no other way of spreading the input
    over the bins pays more, provided the bins are visited from the best price to the worst. */
module DlmmOptimal {
  import opened Arith
  import opened Dlmm

  /** Prices (output per unit of input) never increase along the traversal. */
  ghost predicate PricesDescend(ls: seq<Level>) {
    forall i, j :: 0 <= i < j < |ls| && ls[i].Usable() && ls[j].Usable() ==> NotCheaper(ls[i], ls[j])
  }

  ghost predicate NotCheaper(a: Level, b: Level) {
    b.reserveOut * a.reserveIn <= a.reserveOut * b.reserveIn
  }

  /** Every usable level sells at a price of at most p. */
  ghost predicate PricedAtMost(ls: seq<Level>, p: real) {
    forall i :: 0 <= i < |ls| && ls[i].Usable() ==> ls[i].reserveOut as real <= p * ls[i].reserveIn as real
  }

  // ------------------------------------------------------------------
  // The walk without rounding
  // ------------------------------------------------------------------

  /** The fill of a divisible amount, with no rounding. */
  ghost function RealWalk(ls: seq<Level>, x: real): real {
    if ls == [] then 0.0
    else if !ls[0].Usable() then RealWalk(ls[1..], x)
    else if x <= ls[0].reserveIn as real then Price(ls[0]) * x
    else ls[0].reserveOut as real + RealWalk(ls[1..], x - ls[0].reserveIn as real)
  }

  ghost function Price(level: Level): real
    requires level.Usable()
  {
    level.reserveOut as real / level.reserveIn as real
  }

  lemma PriceTimesSize(level: Level)
    requires level.Usable()
    ensures 0.0 < Price(level) && Price(level) * level.reserveIn as real == level.reserveOut as real
  {
  }

  lemma PartialIsFloor(level: Level, x: nat)
    requires level.Usable()
    ensures MulDiv(level.reserveOut, x, level.reserveIn) as real <= Price(level) * x as real
    ensures Price(level) * x as real < MulDiv(level.reserveOut, x, level.reserveIn) as real + 1.0
  {
    var o, r := level.reserveOut, level.reserveIn;
    RealDivBounds(o * x, r);
    assert (o * x) as real == o as real * x as real;
    assert Price(level) * x as real == (o * x) as real / r as real;
  }

  /** Rounding the whole walk down once gives the integer walk: only the last bin is partial. */
  lemma {:induction false} WalkIsFloorOfRealWalk(ls: seq<Level>, a: nat)
    ensures Walk(ls, a) as real <= RealWalk(ls, a as real) < Walk(ls, a) as real + 1.0
  {
    if ls == [] {
    } else if !ls[0].Usable() {
      WalkIsFloorOfRealWalk(ls[1..], a);
    } else if a <= ls[0].reserveIn {
      PartialIsFloor(ls[0], a);
    } else {
      WalkIsFloorOfRealWalk(ls[1..], a - ls[0].reserveIn);
    }
  }

  lemma RealWalkAtZero(ls: seq<Level>)
    ensures RealWalk(ls, 0.0) == 0.0
  {
    if ls != [] && !ls[0].Usable() {
      RealWalkAtZero(ls[1..]);
    }
  }

  /** Between two amounts the walk gains something, but at most p per unit. */
  ghost predicate SlopeWithin(ls: seq<Level>, p: real, x: real, y: real) {
    0.0 <= RealWalk(ls, y) - RealWalk(ls, x) <= p * (y - x)
  }

  /** Between two amounts the walk gains something, but at most the best price per unit. */
  lemma {:induction false} RealWalkSlope(ls: seq<Level>, p: real, x: real, y: real)
    requires PricedAtMost(ls, p) && 0.0 <= p && 0.0 <= x <= y
    ensures SlopeWithin(ls, p, x, y)
  {
    hide SlopeWithin;
    hide RealWalk;
    if ls == [] {
      EmptySlope(p, x, y);
    } else if !ls[0].Usable() {
      RealWalkSlope(ls[1..], p, x, y);
      SlopeSkips(ls, p, x, y);
    } else {
      var r := ls[0].reserveIn as real;
      if y <= r {
        HeadSlope(ls, p, x, y);
      } else if x <= r {
        HeadSlope(ls, p, x, r);
        RealWalkSlope(ls[1..], p, 0.0, y - r);
        SlopePastHead(ls, p, r, y);
        SlopesAdd(ls, p, x, r, y);
      } else {
        RealWalkSlope(ls[1..], p, x - r, y - r);
        SlopePastHead(ls, p, x, y);
      }
    }
  }

  lemma EmptySlope(p: real, x: real, y: real)
    requires 0.0 <= p && x <= y
    ensures SlopeWithin([], p, x, y)
  {
    RealMulSign(p, y - x);
  }

  lemma SlopeSkips(ls: seq<Level>, p: real, x: real, y: real)
    requires ls != [] && !ls[0].Usable() && SlopeWithin(ls[1..], p, x, y)
    ensures SlopeWithin(ls, p, x, y)
  {
  }

  lemma SlopesAdd(ls: seq<Level>, p: real, x: real, r: real, y: real)
    requires SlopeWithin(ls, p, x, r) && SlopeWithin(ls, p, r, y)
    ensures SlopeWithin(ls, p, x, y)
  {
    PieceSum(p, x, r, y);
  }

  lemma SlopePastHead(ls: seq<Level>, p: real, x: real, y: real)
    requires ls != [] && ls[0].Usable() && ls[0].reserveIn as real <= x <= y
    requires SlopeWithin(ls[1..], p, x - ls[0].reserveIn as real, y - ls[0].reserveIn as real)
    ensures SlopeWithin(ls, p, x, y)
  {
    RealWalkPast(ls, x);
    RealWalkPast(ls, y);
  }

  /** Beyond the first usable level the walk goes on with the next one. */
  lemma RealWalkPast(ls: seq<Level>, x: real)
    requires ls != [] && ls[0].Usable() && ls[0].reserveIn as real <= x
    ensures RealWalk(ls, x) == ls[0].reserveOut as real + RealWalk(ls[1..], x - ls[0].reserveIn as real)
  {
    if x == ls[0].reserveIn as real {
      PriceTimesSize(ls[0]);
      RealWalkAtZero(ls[1..]);
    }
  }

  /** Within the first usable level the walk is a straight line. */
  lemma HeadSlope(ls: seq<Level>, p: real, x: real, y: real)
    requires ls != [] && ls[0].Usable() && PricedAtMost(ls, p)
    requires 0.0 <= x <= y <= ls[0].reserveIn as real
    ensures SlopeWithin(ls, p, x, y)
  {
    PriceTimesSize(ls[0]);
    RealDivLe(ls[0].reserveOut as real, ls[0].reserveIn as real, p);
    PieceSlope(Price(ls[0]), p, x, y);
  }

  lemma PieceSlope(q: real, p: real, x: real, y: real)
    requires 0.0 <= q <= p && x <= y
    ensures 0.0 <= q * y - q * x <= p * (y - x)
  {
    assert q * y - q * x == q * (y - x);
    RealMulMono(q, p, y - x);
    RealMulMono(0.0, q, y - x);
  }

  lemma PieceSum(p: real, x: real, r: real, y: real)
    ensures p * (r - x) + p * (y - r) == p * (y - x)
  {
  }

  lemma TailPricedAtHead(ls: seq<Level>)
    requires PricesDescend(ls) && ls != [] && ls[0].Usable()
    ensures PricedAtMost(ls, Price(ls[0])) && PricedAtMost(ls[1..], Price(ls[0])) && PricesDescend(ls[1..])
  {
    PriceTimesSize(ls[0]);
    forall i | 0 <= i < |ls| && ls[i].Usable()
      ensures ls[i].reserveOut as real <= Price(ls[0]) * ls[i].reserveIn as real
    {
      if i != 0 {
        assert NotCheaper(ls[0], ls[i]);
        CheaperInPrice(ls[0], ls[i]);
      }
    }
  }

  lemma CheaperInPrice(a: Level, b: Level)
    requires a.Usable() && NotCheaper(a, b)
    ensures b.reserveOut as real <= Price(a) * b.reserveIn as real
  {
    var p, x, y, z := Price(a), a.reserveIn as real, b.reserveIn as real, b.reserveOut as real;
    PriceTimesSize(a);
    assert z * x == (b.reserveOut * a.reserveIn) as real;
    assert a.reserveOut as real * y == (a.reserveOut * b.reserveIn) as real;
    assert p * x * y == p * y * x;
    if p * y < z {
      RealMulStrict(p * y, z, x);
    }
  }

  // ------------------------------------------------------------------
  // Allocations
  // ------------------------------------------------------------------

  ghost predicate FitsLevels(ls: seq<Level>, xs: seq<nat>) {
    |xs| == |ls| && forall i :: 0 <= i < |ls| ==> xs[i] <= ls[i].reserveIn
  }

  ghost function Spent(xs: seq<nat>): nat {
    if xs == [] then 0 else xs[0] + Spent(xs[1..])
  }

  /** What an allocation pays: each bin at its own fixed price, rounded down. */
  ghost function AllocationOut(ls: seq<Level>, xs: seq<nat>): nat
    requires |xs| == |ls|
  {
    if ls == [] then 0 else
    (if ls[0].Usable() then MulDiv(ls[0].reserveOut, xs[0], ls[0].reserveIn) else 0)
    + AllocationOut(ls[1..], xs[1..])
  }

  /** The exchange argument: an allocation never beats the unrounded walk of what it spends. */
  lemma {:induction false} AllocationBelowRealWalk(ls: seq<Level>, xs: seq<nat>, amount: nat)
    requires PricesDescend(ls) && FitsLevels(ls, xs) && Spent(xs) <= amount
    ensures BelowRealWalk(ls, AllocationOut(ls, xs), amount)
  {
    if ls == [] {
    } else if !ls[0].Usable() {
      AllocationBelowRealWalk(ls[1..], xs[1..], amount);
    } else {
      AllocationBelowRealWalk(ls[1..], xs[1..], amount - xs[0]);
      TailPricedAtHead(ls);
      PartialIsFloor(ls[0], xs[0]);
      TakeFromHead(ls, xs[0], MulDiv(ls[0].reserveOut, xs[0], ls[0].reserveIn), AllocationOut(ls[1..], xs[1..]), amount);
    }
  }

  ghost predicate BelowRealWalk(ls: seq<Level>, out: nat, amount: nat) {
    out as real <= RealWalk(ls, amount as real)
  }

  /** Taking x from the best-priced level and walking the rest with what remains is no better than
      walking from the start. */
  lemma TakeFromHead(ls: seq<Level>, x: nat, headOut: nat, restOut: nat, amount: nat)
    requires ls != [] && ls[0].Usable() && x <= ls[0].reserveIn && x <= amount
    requires PricedAtMost(ls[1..], Price(ls[0])) && BelowRealWalk(ls[1..], restOut, amount - x)
    requires headOut as real <= Price(ls[0]) * x as real
    ensures BelowRealWalk(ls, headOut + restOut, amount)
  {
    RealTakeFromHead(ls, x as real, amount as real);
    assert (amount - x) as real == amount as real - x as real;
  }

  lemma RealTakeFromHead(ls: seq<Level>, x: real, a: real)
    requires ls != [] && ls[0].Usable() && 0.0 <= x <= ls[0].reserveIn as real && x <= a
    requires PricedAtMost(ls[1..], Price(ls[0]))
    ensures Price(ls[0]) * x + RealWalk(ls[1..], a - x) <= RealWalk(ls, a)
  {
    hide Price;
    hide RealWalk;
    hide PricedAtMost;
    var r, p, tail := ls[0].reserveIn as real, Price(ls[0]), ls[1..];
    PriceTimesSize(ls[0]);
    if a <= r {
      var w := a - x;
      RealWalkBefore(ls, a);
      RealWalkGain(tail, p, 0.0, a - x, w);
      RealWalkAtZero(tail);
      MoveInFront(p, x, w, a, RealWalk(tail, 0.0), RealWalk(tail, a - x));
    } else {
      var w := r - x;
      RealWalkPast(ls, a);
      RealWalkGain(tail, p, a - r, a - x, w);
      MoveInFront(p, x, w, r, RealWalk(tail, a - r), RealWalk(tail, a - x));
    }
  }

  lemma RealWalkGain(ls: seq<Level>, p: real, x: real, y: real, w: real)
    requires PricedAtMost(ls, p) && 0.0 <= p && 0.0 <= x <= y && w == y - x
    ensures RealWalk(ls, y) - RealWalk(ls, x) <= p * w
  {
    hide RealWalk;
    RealWalkSlope(ls, p, x, y);
    hide PricedAtMost;
    RealSameProduct(p, w, y - x);
  }

  /** Spending w at price p gains no less than spending it later. */
  lemma MoveInFront(p: real, x: real, w: real, whole: real, rest: real, longer: real)
    requires whole == x + w && longer - rest <= p * w
    ensures p * x + longer <= p * whole + rest
  {
  }

  lemma RealWalkBefore(ls: seq<Level>, a: real)
    requires ls != [] && ls[0].Usable() && a <= ls[0].reserveIn as real
    ensures RealWalk(ls, a) == Price(ls[0]) * a
  {
  }

  /** With prices in descending order the fill loop is optimal. */
  lemma FillIsOptimal(ls: seq<Level>, xs: seq<nat>, amount: nat)
    requires PricesDescend(ls) && FitsLevels(ls, xs) && Spent(xs) <= amount
    ensures AllocationOut(ls, xs) <= Walk(ls, amount)
  {
    AllocationBelowRealWalk(ls, xs, amount);
    WalkIsFloorOfRealWalk(ls, amount);
  }

  /** The allocation the fill loop makes. */
  ghost function Greedy(ls: seq<Level>, amount: nat): (xs: seq<nat>)
    ensures |xs| == |ls|
  {
    if ls == [] then []
    else if !ls[0].Usable() then [0] + Greedy(ls[1..], amount)
    else if amount <= ls[0].reserveIn then [amount] + seq(|ls| - 1, i => 0)
    else [ls[0].reserveIn] + Greedy(ls[1..], amount - ls[0].reserveIn)
  }

  lemma {:induction false} NothingAllocated(ls: seq<Level>)
    ensures AllocationOut(ls, seq(|ls|, i => 0)) == 0 && Spent(seq(|ls|, i => 0)) == 0
  {
    if ls != [] {
      assert seq(|ls|, i => 0)[1..] == seq(|ls| - 1, i => 0);
      NothingAllocated(ls[1..]);
      if ls[0].Usable() {
        PartialFill(ls[0], 0, 0);
        WalkNothing([ls[0]]);
      }
    }
  }

  /** The optimum is attained: whatever the prices, the loop is itself such an allocation. */
  lemma {:induction false} FillIsAnAllocation(ls: seq<Level>, amount: nat)
    ensures FitsLevels(ls, Greedy(ls, amount)) && Spent(Greedy(ls, amount)) <= amount
    ensures AllocationOut(ls, Greedy(ls, amount)) == Walk(ls, amount)
  {
    if ls == [] {
      return;
    }
    var xs := Greedy(ls, amount);
    if !ls[0].Usable() {
      FillIsAnAllocation(ls[1..], amount);
      assert xs[1..] == Greedy(ls[1..], amount);
    } else if amount <= ls[0].reserveIn {
      assert xs[1..] == seq(|ls[1..]|, i => 0);
      NothingAllocated(ls[1..]);
    } else {
      FillIsAnAllocation(ls[1..], amount - ls[0].reserveIn);
      assert xs[1..] == Greedy(ls[1..], amount - ls[0].reserveIn);
      PartialFill(ls[0], ls[0].reserveIn, ls[0].reserveIn);
    }
  }

  // ------------------------------------------------------------------
  // Exactly when the loop is optimal
  // ------------------------------------------------------------------

  /** No allocation of any amount beats the loop on that amount. */
  ghost predicate Optimal(ls: seq<Level>) {
    forall xs: seq<nat>, amount: nat :: FitsLevels(ls, xs) && Spent(xs) <= amount ==> AllocationOut(ls, xs) <= Walk(ls, amount)
  }

  ghost function OnlyAt(n: nat, k: nat, x: nat): (xs: seq<nat>)
    ensures |xs| == n
  {
    seq(n, i => if i == k then x else 0)
  }

  lemma {:induction false} OneLevelAllocated(ls: seq<Level>, k: nat)
    requires k < |ls| && ls[k].Usable()
    ensures var xs := OnlyAt(|ls|, k, ls[k].reserveIn);
      FitsLevels(ls, xs) && Spent(xs) == ls[k].reserveIn && AllocationOut(ls, xs) == ls[k].reserveOut
  {
    hide MulDiv;
    var x := ls[k].reserveIn;
    var xs := OnlyAt(|ls|, k, x);
    PartialFill(ls[k], x, x);
    if k == 0 {
      assert xs[1..] == seq(|ls| - 1, i => 0);
      assert |ls[1..]| == |ls| - 1;
      NothingAllocated(ls[1..]);
    } else {
      assert xs[1..] == OnlyAt(|ls| - 1, k - 1, x);
      OneLevelAllocated(ls[1..], k - 1);
      if ls[0].Usable() {
        NothingFromLevel(ls[0]);
      }
    }
  }

  lemma NothingFromLevel(level: Level)
    requires level.Usable()
    ensures MulDiv(level.reserveOut, 0, level.reserveIn) == 0
  {
    DivUnique(level.reserveOut * 0, level.reserveIn, 0);
  }

  lemma {:induction false} WalkSkips(ls: seq<Level>, k: nat, amount: nat)
    requires k <= |ls| && forall i :: 0 <= i < k ==> !ls[i].Usable()
    ensures Walk(ls, amount) == Walk(ls[k..], amount)
  {
    if k != 0 {
      WalkSkips(ls[1..], k - 1, amount);
      assert ls[1..][k - 1..] == ls[k..];
    }
  }

  /** A level followed by a strictly better one: walked in this order the size of the better one
      pays less than the better one alone. */
  lemma CheaperFirstPaysLess(a: Level, b: Level, rest: seq<Level>)
    requires a.Usable() && b.Usable() && !NotCheaper(a, b)
    ensures Walk([a, b] + rest, b.reserveIn) < b.reserveOut == Walk([b, a] + rest, b.reserveIn)
  {
    PartialFill(b, b.reserveIn, b.reserveIn);
    assert ([a, b] + rest)[1..] == [b] + rest;
    if b.reserveIn <= a.reserveIn {
      BelowWhole(a, b.reserveIn, b.reserveOut);
    } else {
      var left: nat := b.reserveIn - a.reserveIn;
      assert b.reserveOut * left == b.reserveOut * b.reserveIn - b.reserveOut * a.reserveIn;
      BelowWhole(b, left, b.reserveOut - a.reserveOut);
      assert (b.reserveOut - a.reserveOut) * b.reserveIn == b.reserveOut * b.reserveIn - a.reserveOut * b.reserveIn;
    }
  }

  lemma BelowWhole(level: Level, x: nat, out: int)
    requires level.Usable() && level.reserveOut * x < out * level.reserveIn
    ensures MulDiv(level.reserveOut, x, level.reserveIn) < out
  {
    DivCharacter(level.reserveOut * x, level.reserveIn, out);
  }

  lemma NotCheaperChains(a: Level, b: Level, c: Level)
    requires a.Usable() && b.Usable() && c.Usable() && NotCheaper(a, b) && NotCheaper(b, c)
    ensures NotCheaper(a, c)
  {
    MulMono(b.reserveOut * a.reserveIn, a.reserveOut * b.reserveIn, c.reserveIn);
    MulMono(c.reserveOut * b.reserveIn, b.reserveOut * c.reserveIn, a.reserveIn);
    ChainProducts(a, b, c);
    if a.reserveOut * c.reserveIn < c.reserveOut * a.reserveIn {
      MulMono(a.reserveOut * c.reserveIn + 1, c.reserveOut * a.reserveIn, b.reserveIn);
    }
  }

  lemma ChainProducts(a: Level, b: Level, c: Level)
    ensures b.reserveOut * a.reserveIn * c.reserveIn == b.reserveOut * c.reserveIn * a.reserveIn
    ensures a.reserveOut * b.reserveIn * c.reserveIn == a.reserveOut * c.reserveIn * b.reserveIn
    ensures c.reserveOut * b.reserveIn * a.reserveIn == c.reserveOut * a.reserveIn * b.reserveIn
    ensures (a.reserveOut * c.reserveIn + 1) * b.reserveIn == a.reserveOut * c.reserveIn * b.reserveIn + b.reserveIn
  {
  }

  /** In a list whose tail is in order but which is not, the head is worse than the next usable level. */
  lemma NextIsBetter(ls: seq<Level>) returns (k: nat)
    requires ls != [] && PricesDescend(ls[1..]) && !PricesDescend(ls)
    ensures 0 < k < |ls| && ls[0].Usable() && ls[k].Usable() && !NotCheaper(ls[0], ls[k])
    ensures forall i :: 1 <= i < k ==> !ls[i].Usable()
  {
    hide NotCheaper;
    var i, j :| 0 <= i < j < |ls| && ls[i].Usable() && ls[j].Usable() && !NotCheaper(ls[i], ls[j]);
    if i != 0 {
      TailInOrder(ls, i, j);
    }
    k := 1;
    while !ls[k].Usable()
      invariant 1 <= k <= j
      invariant forall l :: 1 <= l < k ==> !ls[l].Usable()
      decreases j - k
    {
      k := k + 1;
    }
    if k != j {
      TailInOrder(ls, k, j);
      if NotCheaper(ls[0], ls[k]) {
        NotCheaperChains(ls[0], ls[k], ls[j]);
      }
    }
  }

  lemma TailInOrder(ls: seq<Level>, i: nat, j: nat)
    requires ls != [] && PricesDescend(ls[1..]) && 1 <= i < j < |ls| && ls[i].Usable() && ls[j].Usable()
    ensures NotCheaper(ls[i], ls[j])
  {
    assert ls[1..][i - 1] == ls[i] && ls[1..][j - 1] == ls[j];
  }

  ghost predicate Beaten(ls: seq<Level>, xs: seq<nat>, amount: nat) {
    FitsLevels(ls, xs) && Spent(xs) <= amount && Walk(ls, amount) < AllocationOut(ls, xs)
  }

  lemma BeatenAfterHead(ls: seq<Level>, xs: seq<nat>, amount: nat) returns (all: seq<nat>, total: nat)
    requires ls != [] && Beaten(ls[1..], xs, amount)
    ensures Beaten(ls, all, total)
  {
    var head := ls[0];
    if !head.Usable() {
      all, total := [0] + xs, amount;
    } else {
      all, total := [head.reserveIn] + xs, head.reserveIn + amount;
      PartialFill(head, head.reserveIn, head.reserveIn);
      WalkNothing(ls[1..]);
      WalkAtEdge(ls, amount);
    }
    assert all[1..] == xs;
  }

  lemma WalkAtEdge(ls: seq<Level>, amount: nat)
    requires ls != [] && ls[0].Usable()
    ensures Walk(ls, ls[0].reserveIn + amount) == ls[0].reserveOut + Walk(ls[1..], amount)
  {
    PartialFill(ls[0], ls[0].reserveIn, ls[0].reserveIn);
    WalkNothing(ls[1..]);
  }

  /** Any list out of price order has an amount on which some allocation beats the loop. */
  lemma {:induction false} BetterAllocation(ls: seq<Level>) returns (xs: seq<nat>, amount: nat)
    requires !PricesDescend(ls)
    ensures Beaten(ls, xs, amount)
  {
    hide PricesDescend;
    hide Beaten;
    EmptyDescends();
    if !PricesDescend(ls[1..]) {
      xs, amount := BetterAllocation(ls[1..]);
      xs, amount := BeatenAfterHead(ls, xs, amount);
    } else {
      var k := NextIsBetter(ls);
      xs, amount := OnlyAt(|ls|, k, ls[k].reserveIn), ls[k].reserveIn;
      AloneBeats(ls, k);
    }
  }

  lemma EmptyDescends()
    ensures PricesDescend([])
  {
  }

  lemma AloneBeats(ls: seq<Level>, k: nat)
    requires 0 < k < |ls| && ls[0].Usable() && ls[k].Usable() && !NotCheaper(ls[0], ls[k])
    requires forall i :: 1 <= i < k ==> !ls[i].Usable()
    ensures Beaten(ls, OnlyAt(|ls|, k, ls[k].reserveIn), ls[k].reserveIn)
  {
    hide NotCheaper;
    var a, b := ls[0], ls[k];
    OneLevelAllocated(ls, k);
    CheaperFirstPaysLess(a, b, ls[k + 1..]);
    SkipBetween(ls, k, b.reserveIn);
  }

  lemma SkipBetween(ls: seq<Level>, k: nat, amount: nat)
    requires 0 < k < |ls| && ls[0].Usable() && forall i :: 1 <= i < k ==> !ls[i].Usable()
    ensures Walk(ls, amount) == Walk([ls[0], ls[k]] + ls[k + 1..], amount)
  {
    var short := [ls[0], ls[k]] + ls[k + 1..];
    ShortTail(ls, k);
    WalkHead(ls, amount);
    WalkHead(short, amount);
    hide Walk;
    hide MulDiv;
    if ls[0].reserveIn < amount {
      WalkSkips(ls[1..], k - 1, amount - ls[0].reserveIn);
    }
  }

  lemma ShortTail(ls: seq<Level>, k: nat)
    requires 0 < k < |ls|
    ensures ([ls[0], ls[k]] + ls[k + 1..])[1..] == ls[1..][k - 1..]
    ensures forall i :: 0 <= i < k - 1 ==> ls[1..][i] == ls[i + 1]
  {
    assert ([ls[0], ls[k]] + ls[k + 1..])[1..] == ls[k..];
  }

  lemma WalkHead(ls: seq<Level>, amount: nat)
    requires ls != [] && ls[0].Usable()
    ensures Walk(ls, amount)
         == if amount <= ls[0].reserveIn then MulDiv(ls[0].reserveOut, amount, ls[0].reserveIn)
            else ls[0].reserveOut + Walk(ls[1..], amount - ls[0].reserveIn)
  {
  }

  /** The loop is optimal exactly on the lists whose prices never increase. */
  lemma OptimalIffPricesDescend(ls: seq<Level>)
    ensures Optimal(ls) <==> PricesDescend(ls)
  {
    hide PricesDescend;
    if PricesDescend(ls) {
      forall xs: seq<nat>, amount: nat | FitsLevels(ls, xs) && Spent(xs) <= amount
        ensures AllocationOut(ls, xs) <= Walk(ls, amount)
      {
        FillIsOptimal(ls, xs, amount);
      }
    } else {
      var xs, amount := BetterAllocation(ls);
      assert Beaten(ls, xs, amount);
    }
  }

  /** One instance: two levels in ascending price order. */
  lemma AscendingPricesAreNotOptimal(size: nat, low: nat, high: nat)
    requires 0 < size && 0 < low < high
    ensures !Optimal([Level(size, low), Level(size, high)])
  {
    var ls := [Level(size, low), Level(size, high)];
    MulStrict(low, high, size);
    assert !NotCheaper(ls[0], ls[1]);
    OptimalIffPricesDescend(ls);
  }
}
