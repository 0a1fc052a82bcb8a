/** The per-bin DLMM output estimate: filter, directional sort and fill loop. */
module Dlmm {
  import opened Arith
  import CP = ConstantProduct

  datatype DlmmBin = DlmmBin(binId: i32, amountX: u64, amountY: u64, reserveX: u64, reserveY: u64)

  datatype DlmmEstimate = DlmmEstimate(out: u64, binsConsumed: nat, binsTotal: nat, consumedBins: seq<(i32, u64, u64)>)

  /** A bin seen from one swap direction: what it absorbs and what it pays out. */
  datatype Level = Level(reserveIn: nat, reserveOut: nat) {
    predicate Usable() {
      reserveIn != 0 && reserveOut != 0
    }
  }

  function Directed(bin: DlmmBin, isXToY: bool): Level {
    if isXToY then Level(bin.amountX, bin.amountY) else Level(bin.amountY, bin.amountX)
  }

  predicate HasFunds(bin: DlmmBin) {
    bin.amountX > 0 || bin.amountY > 0
  }

  /** The bins that hold anything, in their given order. */
  function Active(bins: seq<DlmmBin>): seq<DlmmBin> {
    if bins == [] then [] else
    (if HasFunds(bins[0]) then [bins[0]] else []) + Active(bins[1..])
  }

  /** The sort key order: highest id first when selling X for Y, lowest first otherwise. */
  predicate NotAfter(b: DlmmBin, c: DlmmBin, isXToY: bool) {
    if isXToY then c.binId <= b.binId else b.binId <= c.binId
  }

  function InsertBin(bin: DlmmBin, sorted: seq<DlmmBin>, isXToY: bool): seq<DlmmBin> {
    if sorted == [] then [bin]
    else if NotAfter(bin, sorted[0], isXToY) then [bin] + sorted
    else [sorted[0]] + InsertBin(bin, sorted[1..], isXToY)
  }

  /** The stable sort by bin id in the direction of the swap. */
  function SortBins(bins: seq<DlmmBin>, isXToY: bool): seq<DlmmBin> {
    if bins == [] then [] else InsertBin(bins[0], SortBins(bins[1..], isXToY), isXToY)
  }

  function Traversal(bins: seq<DlmmBin>, isXToY: bool): seq<DlmmBin> {
    SortBins(Active(bins), isXToY)
  }

  function Levels(order: seq<DlmmBin>, isXToY: bool): (ls: seq<Level>)
    ensures |ls| == |order|
    ensures forall i :: 0 <= i < |order| ==> ls[i] == Directed(order[i], isXToY)
  {
    seq(|order|, i requires 0 <= i < |order| => Directed(order[i], isXToY))
  }

  /** What filling the levels in order pays for `remaining` units of after-fee input. */
  function Walk(ls: seq<Level>, remaining: nat): nat {
    if ls == [] then 0
    else if !ls[0].Usable() then Walk(ls[1..], remaining)
    else if remaining <= ls[0].reserveIn then MulDiv(ls[0].reserveOut, remaining, ls[0].reserveIn)
    else ls[0].reserveOut + Walk(ls[1..], remaining - ls[0].reserveIn)
  }

  /** The bins the fill touches, in the order it touches them. */
  function Visited(order: seq<DlmmBin>, isXToY: bool, remaining: nat): seq<DlmmBin> {
    if order == [] then []
    else
      var level := Directed(order[0], isXToY);
      if !level.Usable() then Visited(order[1..], isXToY, remaining)
      else if remaining <= level.reserveIn then [order[0]]
      else [order[0]] + Visited(order[1..], isXToY, remaining - level.reserveIn)
  }

  function Report(bin: DlmmBin, isXToY: bool): (i32, u64, u64) {
    if isXToY then (bin.binId, bin.amountX, bin.amountY) else (bin.binId, bin.amountY, bin.amountX)
  }

  function Reports(bins: seq<DlmmBin>, isXToY: bool): (r: seq<(i32, u64, u64)>)
    ensures |r| == |bins|
  {
    seq(|bins|, i requires 0 <= i < |bins| => Report(bins[i], isXToY))
  }

  function FirstThree(bins: seq<DlmmBin>): seq<DlmmBin> {
    bins[..Min(3, |bins|)]
  }

  /** The input left after the fee; it fits the u64 it is cast to. */
  function AmountAfterFee(amountIn: u64, feeBps: nat): (after: u64)
    requires feeBps <= 10000
    ensures after == CP.AfterFeeBps(amountIn, feeBps) <= amountIn
  {
    CP.AfterFeeBpsBounds(amountIn, feeBps);
    TruncateToU64(CP.AfterFeeBps(amountIn, feeBps))
  }

  /** The output field of the estimate. */
  function EstimateOut(bins: seq<DlmmBin>, amountIn: u64, isXToY: bool, feeBps: nat): u64
    requires feeBps <= 10000
  {
    TruncateToU64(Walk(Levels(Traversal(bins, isXToY), isXToY), AmountAfterFee(amountIn, feeBps)))
  }

  // ------------------------------------------------------------------
  // The estimator
  // ------------------------------------------------------------------

  method EstimateSwapOutputFull(bins: seq<DlmmBin>, amountIn: u64, isXToY: bool, feeBps: nat) returns (est: DlmmEstimate)
    requires feeBps <= 10000
    ensures est.out == EstimateOut(bins, amountIn, isXToY, feeBps)
    ensures bins == [] || AmountAfterFee(amountIn, feeBps) == 0 ==> est == DlmmEstimate(0, 0, 0, [])
    ensures bins != [] && AmountAfterFee(amountIn, feeBps) != 0 ==>
         var visited := Visited(Traversal(bins, isXToY), isXToY, AmountAfterFee(amountIn, feeBps));
         && est.binsConsumed == |visited|
         && est.binsTotal == |Active(bins)|
         && est.consumedBins == Reports(FirstThree(visited), isXToY)
  {
    var amountAfterFee := AmountAfterFee(amountIn, feeBps);
    if bins == [] || amountAfterFee == 0 {
      WalkNothing(Levels(Traversal(bins, isXToY), isXToY));
      return DlmmEstimate(0, 0, 0, []);
    }
    var active := SortBins(Active(bins), isXToY);
    SortKeepsBins(Active(bins), isXToY);
    var totalOut, binsConsumed, consumedBins := Fill(active, amountAfterFee, isXToY);
    est := DlmmEstimate(TruncateToU64(totalOut), binsConsumed, |active|, consumedBins);
  }

  /** The fill loop: consume the ordered bins one by one until the input runs out. */
  method Fill(active: seq<DlmmBin>, amountAfterFee: nat, isXToY: bool)
    returns (totalOut: nat, binsConsumed: nat, consumedBins: seq<(i32, u64, u64)>)
    ensures totalOut == Walk(Levels(active, isXToY), amountAfterFee)
    ensures var visited := Visited(active, isXToY, amountAfterFee);
      && binsConsumed == |visited|
      && consumedBins == Reports(FirstThree(visited), isXToY)
  {
    ghost var ls := Levels(active, isXToY);
    ghost var all := Visited(active, isXToY, amountAfterFee);
    ghost var seen: seq<DlmmBin> := [];
    FillStarts(ls, active, isXToY, amountAfterFee);
    hide Walk;
    hide Visited;
    hide Reports;
    hide MulDiv;
    var remainingIn: nat := amountAfterFee;
    totalOut, binsConsumed, consumedBins := 0, 0, [];
    var i := 0;
    while i < |active|
      invariant 0 <= i <= |active|
      invariant totalOut + Walk(ls[i..], remainingIn) == Walk(ls, amountAfterFee)
      invariant seen + Visited(active[i..], isXToY, remainingIn) == all
      invariant binsConsumed == |seen|
      invariant consumedBins == Reports(FirstThree(seen), isXToY)
    {
      var bin := active[i];
      var level := Directed(bin, isXToY);
      WalkStep(ls, i, remainingIn);
      VisitedStep(active, isXToY, i, remainingIn, seen);
      i := i + 1;
      if level.reserveIn == 0 || level.reserveOut == 0 {
        continue;
      }
      ReportStep(seen, bin, isXToY);
      binsConsumed := binsConsumed + 1;
      if |consumedBins| < 3 {
        consumedBins := consumedBins + [Report(bin, isXToY)];
      }
      seen := seen + [bin];
      if remainingIn <= level.reserveIn {
        totalOut := totalOut + MulDiv(level.reserveOut, remainingIn, level.reserveIn);
        break;
      }
      totalOut := totalOut + level.reserveOut;
      remainingIn := remainingIn - level.reserveIn;
      if i == |active| {
        FillEnds(ls, active, isXToY, remainingIn, seen);
      }
    }
    if i == |active| {
      FillEnds(ls, active, isXToY, remainingIn, seen);
    }
  }

  lemma FillStarts(ls: seq<Level>, active: seq<DlmmBin>, isXToY: bool, amount: nat)
    ensures ls[0..] == ls && [] + Visited(active[0..], isXToY, amount) == Visited(active, isXToY, amount)
    ensures Reports(FirstThree([]), isXToY) == []
  {
    assert active[0..] == active;
  }

  lemma FillEnds(ls: seq<Level>, active: seq<DlmmBin>, isXToY: bool, remaining: nat, seen: seq<DlmmBin>)
    requires |ls| == |active|
    ensures Walk(ls[|active|..], remaining) == 0
    ensures seen + Visited(active[|active|..], isXToY, remaining) == seen
  {
  }

  // One turn of the fill loop, on the walk, the visited bins and the report.

  lemma WalkStep(ls: seq<Level>, i: nat, remaining: nat)
    requires i < |ls|
    ensures Walk(ls[i..], remaining)
         == if !ls[i].Usable() then Walk(ls[i + 1..], remaining)
            else if remaining <= ls[i].reserveIn then MulDiv(ls[i].reserveOut, remaining, ls[i].reserveIn)
            else ls[i].reserveOut + Walk(ls[i + 1..], remaining - ls[i].reserveIn)
  {
    assert ls[i..][0] == ls[i] && ls[i..][1..] == ls[i + 1..];
  }

  lemma VisitedStep(order: seq<DlmmBin>, isXToY: bool, i: nat, remaining: nat, seen: seq<DlmmBin>)
    requires i < |order|
    ensures var level := Directed(order[i], isXToY);
      seen + Visited(order[i..], isXToY, remaining)
      == if !level.Usable() then seen + Visited(order[i + 1..], isXToY, remaining)
         else if remaining <= level.reserveIn then seen + [order[i]]
         else seen + [order[i]] + Visited(order[i + 1..], isXToY, remaining - level.reserveIn)
  {
    assert order[i..][0] == order[i] && order[i..][1..] == order[i + 1..];
    var level := Directed(order[i], isXToY);
    if level.Usable() && level.reserveIn < remaining {
      var rest := Visited(order[i + 1..], isXToY, remaining - level.reserveIn);
      assert seen + ([order[i]] + rest) == seen + [order[i]] + rest;
    }
  }

  lemma ReportStep(seen: seq<DlmmBin>, bin: DlmmBin, isXToY: bool)
    ensures Reports(FirstThree(seen + [bin]), isXToY)
         == if |seen| < 3 then Reports(FirstThree(seen), isXToY) + [Report(bin, isXToY)]
            else Reports(FirstThree(seen), isXToY)
  {
    assert FirstThree(seen + [bin]) == if |seen| < 3 then seen + [bin] else FirstThree(seen);
    assert |seen| < 3 ==> FirstThree(seen) == seen;
  }

  // ------------------------------------------------------------------
  // The walk
  // ------------------------------------------------------------------

  function TotalOut(ls: seq<Level>): nat {
    if ls == [] then 0 else (if ls[0].Usable() then ls[0].reserveOut else 0) + TotalOut(ls[1..])
  }

  lemma {:induction false} WalkNothing(ls: seq<Level>)
    ensures Walk(ls, 0) == 0
  {
    if ls != [] && !ls[0].Usable() {
      WalkNothing(ls[1..]);
    } else if ls != [] {
      DivUnique(ls[0].reserveOut * 0, ls[0].reserveIn, 0);
    }
  }

  /** A partial fill never pays more than the whole level. */
  lemma PartialFill(level: Level, x: nat, y: nat)
    requires level.Usable() && x <= y <= level.reserveIn
    ensures MulDiv(level.reserveOut, x, level.reserveIn) <= MulDiv(level.reserveOut, y, level.reserveIn) <= level.reserveOut
    ensures y < level.reserveIn ==> MulDiv(level.reserveOut, y, level.reserveIn) < level.reserveOut
    ensures y == level.reserveIn ==> MulDiv(level.reserveOut, y, level.reserveIn) == level.reserveOut
  {
    var o, r := level.reserveOut, level.reserveIn;
    MulMono(x, y, o);
    DivMono(o * x, o * y, r);
    MulMono(y, r, o);
    DivUnique(o * r, r, o);
    DivMono(o * y, o * r, r);
    if y < r {
      MulMono(y + 1, r, o);
      DivCharacter(o * y, r, o);
    }
  }

  /** More input never pays less, and nothing pays more than all the usable levels hold. */
  lemma {:induction false} WalkMonotone(ls: seq<Level>, a: nat, b: nat)
    requires a <= b
    ensures Walk(ls, a) <= Walk(ls, b) <= TotalOut(ls)
  {
    if ls == [] {
    } else if !ls[0].Usable() {
      WalkMonotone(ls[1..], a, b);
    } else if b <= ls[0].reserveIn {
      PartialFill(ls[0], a, b);
    } else if a <= ls[0].reserveIn {
      PartialFill(ls[0], a, a);
      WalkMonotone(ls[1..], 0, b - ls[0].reserveIn);
    } else {
      WalkMonotone(ls[1..], a - ls[0].reserveIn, b - ls[0].reserveIn);
    }
  }

  /** The estimate grows with the amount and shrinks with the fee, as long as what the bins hold
      on the output side fits the u64 the result is cast to. */
  lemma EstimateMonotone(bins: seq<DlmmBin>, a: u64, b: u64, isXToY: bool, f: nat, g: nat)
    requires a <= b && f <= g <= 10000
    requires TotalOut(Levels(Traversal(bins, isXToY), isXToY)) < U64_LIMIT
    ensures EstimateOut(bins, a, isXToY, g) <= EstimateOut(bins, b, isXToY, f)
    ensures EstimateOut(bins, a, isXToY, g) == Walk(Levels(Traversal(bins, isXToY), isXToY), AmountAfterFee(a, g))
  {
    var ls := Levels(Traversal(bins, isXToY), isXToY);
    var x, y := AmountAfterFee(a, g), AmountAfterFee(b, f);
    assert x <= y by {
      CP.AfterFeeBpsOrder(a, b, f, g);
    }
    WalkMonotone(ls, x, y);
    TruncateIsExact(Walk(ls, x));
    TruncateIsExact(Walk(ls, y));
  }

  function SumIn(bins: seq<DlmmBin>, isXToY: bool): nat {
    if bins == [] then 0 else Directed(bins[0], isXToY).reserveIn + SumIn(bins[1..], isXToY)
  }

  function SumOut(bins: seq<DlmmBin>, isXToY: bool): nat {
    if bins == [] then 0 else Directed(bins[0], isXToY).reserveOut + SumOut(bins[1..], isXToY)
  }

  /** Every visited bin but the last was exhausted and paid all it held; the last one was filled
      with what was left, up to its size. */
  ghost predicate PaidBy(v: seq<DlmmBin>, isXToY: bool, amount: nat, out: nat) {
    if v == [] then out == 0 else
    var full, last := v[..|v| - 1], Directed(v[|v| - 1], isXToY);
    && last.Usable()
    && SumIn(full, isXToY) < amount
    && out == SumOut(full, isXToY) + MulDiv(last.reserveOut, Min(amount - SumIn(full, isXToY), last.reserveIn), last.reserveIn)
  }

  lemma PaidByOneMore(bin: DlmmBin, v: seq<DlmmBin>, isXToY: bool, amount: nat, out: nat)
    requires Directed(bin, isXToY).Usable() && Directed(bin, isXToY).reserveIn < amount
    requires PaidBy(v, isXToY, amount - Directed(bin, isXToY).reserveIn, out)
    ensures PaidBy([bin] + v, isXToY, amount, Directed(bin, isXToY).reserveOut + out)
  {
    var level := Directed(bin, isXToY);
    if v == [] {
      PartialFill(level, level.reserveIn, level.reserveIn);
      assert ([bin] + v)[..0] == [];
    } else {
      assert ([bin] + v)[..|v|] == [bin] + v[..|v| - 1];
      assert ([bin] + v[..|v| - 1])[1..] == v[..|v| - 1];
    }
  }

  /** What the reported bins mean: they account for the whole output. */
  lemma {:induction false} OutputFromVisited(order: seq<DlmmBin>, isXToY: bool, amount: nat)
    requires 0 < amount
    ensures PaidBy(Visited(order, isXToY, amount), isXToY, amount, Walk(Levels(order, isXToY), amount))
  {
    if order != [] {
      var level := Directed(order[0], isXToY);
      assert Levels(order, isXToY)[1..] == Levels(order[1..], isXToY);
      if !level.Usable() {
        OutputFromVisited(order[1..], isXToY, amount);
      } else if amount <= level.reserveIn {
        assert [order[0]][..0] == [];
      } else {
        OutputFromVisited(order[1..], isXToY, amount - level.reserveIn);
        PaidByOneMore(order[0], Visited(order[1..], isXToY, amount - level.reserveIn), isXToY, amount,
                      Walk(Levels(order[1..], isXToY), amount - level.reserveIn));
      }
    }
  }

  // ------------------------------------------------------------------
  // Order independence
  // ------------------------------------------------------------------

  ghost predicate InTraversalOrder(bins: seq<DlmmBin>, isXToY: bool) {
    forall i, j :: 0 <= i < j < |bins| ==> NotAfter(bins[i], bins[j], isXToY)
  }

  /** No two different bins share an id (a bin listed twice is allowed). */
  ghost predicate ConsistentIds(bins: seq<DlmmBin>) {
    forall b, c :: b in bins && c in bins && b.binId == c.binId ==> b == c
  }

  lemma {:induction false} InsertKeepsBins(bin: DlmmBin, sorted: seq<DlmmBin>, isXToY: bool)
    ensures multiset(InsertBin(bin, sorted, isXToY)) == multiset{bin} + multiset(sorted)
  {
    if sorted != [] {
      assert sorted == [sorted[0]] + sorted[1..];
      InsertKeepsBins(bin, sorted[1..], isXToY);
    }
  }

  lemma {:induction false} InsertKeepsOrder(bin: DlmmBin, sorted: seq<DlmmBin>, isXToY: bool)
    requires InTraversalOrder(sorted, isXToY)
    ensures InTraversalOrder(InsertBin(bin, sorted, isXToY), isXToY)
  {
    if sorted != [] && !NotAfter(bin, sorted[0], isXToY) {
      var rest := InsertBin(bin, sorted[1..], isXToY);
      InsertKeepsOrder(bin, sorted[1..], isXToY);
      forall j | 0 <= j < |rest|
        ensures NotAfter(sorted[0], rest[j], isXToY)
      {
        InsertedFrom(bin, sorted[1..], isXToY, rest[j]);
      }
      HeadInOrder(sorted[0], rest, isXToY);
    }
  }

  lemma InsertedFrom(bin: DlmmBin, sorted: seq<DlmmBin>, isXToY: bool, b: DlmmBin)
    requires b in InsertBin(bin, sorted, isXToY)
    ensures b == bin || b in sorted
  {
    InsertKeepsBins(bin, sorted, isXToY);
    assert b in multiset(InsertBin(bin, sorted, isXToY));
  }

  lemma HeadInOrder(head: DlmmBin, rest: seq<DlmmBin>, isXToY: bool)
    requires InTraversalOrder(rest, isXToY) && forall j :: 0 <= j < |rest| ==> NotAfter(head, rest[j], isXToY)
    ensures InTraversalOrder([head] + rest, isXToY)
  {
    hide NotAfter;
  }

  /** Sorting rearranges the bins and nothing else. */
  lemma {:induction false} SortKeepsBins(bins: seq<DlmmBin>, isXToY: bool)
    ensures multiset(SortBins(bins, isXToY)) == multiset(bins)
    ensures |SortBins(bins, isXToY)| == |bins|
  {
    if bins != [] {
      assert bins == [bins[0]] + bins[1..];
      SortKeepsBins(bins[1..], isXToY);
      InsertKeepsBins(bins[0], SortBins(bins[1..], isXToY), isXToY);
    }
    assert |multiset(SortBins(bins, isXToY))| == |multiset(bins)|;
  }

  lemma {:induction false} SortOrders(bins: seq<DlmmBin>, isXToY: bool)
    ensures InTraversalOrder(SortBins(bins, isXToY), isXToY)
  {
    if bins != [] {
      SortOrders(bins[1..], isXToY);
      InsertKeepsOrder(bins[0], SortBins(bins[1..], isXToY), isXToY);
    }
  }

  lemma {:induction false} ActiveCounts(bins: seq<DlmmBin>, b: DlmmBin)
    ensures multiset(Active(bins))[b] == if HasFunds(b) then multiset(bins)[b] else 0
  {
    if bins != [] {
      assert bins == [bins[0]] + bins[1..];
      ActiveCounts(bins[1..], b);
    }
  }

  lemma {:induction false} ActiveMembers(bins: seq<DlmmBin>, b: DlmmBin)
    ensures b in Active(bins) <==> b in bins && HasFunds(b)
  {
    if bins != [] {
      ActiveMembers(bins[1..], b);
    }
  }

  /** Two ordered arrangements of the same bins are the same list. */
  lemma {:induction false} OrderedIsUnique(s: seq<DlmmBin>, t: seq<DlmmBin>, isXToY: bool)
    requires InTraversalOrder(s, isXToY) && InTraversalOrder(t, isXToY)
    requires multiset(s) == multiset(t) && ConsistentIds(s)
    ensures s == t
  {
    assert |multiset(s)| == |multiset(t)|;
    if s != [] {
      SameHead(s, t, isXToY);
      TailBins(s);
      TailBins(t);
      OrderedIsUnique(s[1..], t[1..], isXToY);
      assert s == [s[0]] + s[1..] && t == [t[0]] + t[1..];
    }
  }

  lemma TailBins(s: seq<DlmmBin>)
    requires s != []
    ensures multiset(s[1..]) == multiset(s) - multiset{s[0]}
  {
    assert s == [s[0]] + s[1..];
  }

  lemma SameHead(s: seq<DlmmBin>, t: seq<DlmmBin>, isXToY: bool)
    requires s != [] && t != [] && multiset(s) == multiset(t) && ConsistentIds(s)
    requires InTraversalOrder(s, isXToY) && InTraversalOrder(t, isXToY)
    ensures s[0] == t[0]
  {
    assert s[0] in multiset(t) && t[0] in multiset(s);
    var i :| 0 <= i < |t| && t[i] == s[0];
    var j :| 0 <= j < |s| && s[j] == t[0];
    assert NotAfter(t[0], s[0], isXToY) && NotAfter(s[0], t[0], isXToY);
    assert s[0] in s && t[0] in s;
  }

  /** The traversal, hence every field of the estimate, does not depend on the order in which the
      bins arrive, as long as no two different funded bins share an id. */
  lemma TraversalIgnoresArrivalOrder(bins: seq<DlmmBin>, shuffled: seq<DlmmBin>, isXToY: bool)
    requires multiset(bins) == multiset(shuffled) && ConsistentIds(Active(bins))
    ensures Traversal(bins, isXToY) == Traversal(shuffled, isXToY)
    ensures forall amountIn: u64, feeBps: nat :: feeBps <= 10000 ==>
              EstimateOut(bins, amountIn, isXToY, feeBps) == EstimateOut(shuffled, amountIn, isXToY, feeBps)
  {
    ActiveBinsArrangedAlike(bins, shuffled);
    var s, t := Traversal(bins, isXToY), Traversal(shuffled, isXToY);
    SortKeepsBins(Active(bins), isXToY);
    SortKeepsBins(Active(shuffled), isXToY);
    SortOrders(Active(bins), isXToY);
    SortOrders(Active(shuffled), isXToY);
    forall b | b in s
      ensures b in Active(bins)
    {
      assert b in multiset(s);
    }
    OrderedIsUnique(s, t, isXToY);
  }

  lemma ActiveBinsArrangedAlike(bins: seq<DlmmBin>, shuffled: seq<DlmmBin>)
    requires multiset(bins) == multiset(shuffled)
    ensures multiset(Active(bins)) == multiset(Active(shuffled))
  {
    forall b
      ensures multiset(Active(bins))[b] == multiset(Active(shuffled))[b]
    {
      ActiveCounts(bins, b);
      ActiveCounts(shuffled, b);
    }
  }

  /** With two different bins under one id the arrival order does matter. */
  lemma SharedIdDependsOnOrder()
    ensures var rich, poor := DlmmBin(0, 10, 100, 0, 0), DlmmBin(0, 10, 10, 0, 0);
            && EstimateOut([rich, poor], 10, true, 0) == 100
            && EstimateOut([poor, rich], 10, true, 0) == 10
  {
    var rich, poor := DlmmBin(0, 10, 100, 0, 0), DlmmBin(0, 10, 10, 0, 0);
    TwoBinTraversal(rich, poor);
    TwoBinTraversal(poor, rich);
    assert Walk(Levels([rich, poor], true), 10) == 100;
    assert Walk(Levels([poor, rich], true), 10) == 10;
  }

  lemma TwoBinTraversal(b: DlmmBin, c: DlmmBin)
    requires HasFunds(b) && HasFunds(c) && b.binId == c.binId
    ensures Traversal([b, c], true) == [b, c]
  {
    assert [b, c][1..] == [c] && [c][1..] == [];
    assert Active([c]) == [c];
    assert Active([b, c]) == [b, c];
    assert SortBins([c], true) == [c];
  }
}
