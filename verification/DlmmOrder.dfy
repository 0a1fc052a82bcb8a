/** Exactly when the arrival order of the bins matters, to the traversal and to what the walk pays. */
module DlmmOrder {
  import opened Arith
  import opened Dlmm
  import opened DlmmOptimal
  import CP = ConstantProduct

  /** The same bins in another order. */
  ghost predicate Rearranges(shuffled: seq<DlmmBin>, bins: seq<DlmmBin>) {
    multiset(shuffled) == multiset(bins)
  }

  ghost predicate TraversalOrderFree(bins: seq<DlmmBin>, isXToY: bool) {
    forall shuffled :: Rearranges(shuffled, bins) ==> Traversal(shuffled, isXToY) == Traversal(bins, isXToY)
  }

  ghost predicate WalkOrderFree(bins: seq<DlmmBin>, isXToY: bool) {
    forall shuffled, amount: nat :: Rearranges(shuffled, bins) ==> WalkOf(shuffled, isXToY, amount) == WalkOf(bins, isXToY, amount)
  }

  ghost function WalkOf(bins: seq<DlmmBin>, isXToY: bool, amount: nat): nat {
    Walk(Levels(Traversal(bins, isXToY), isXToY), amount)
  }

  /** Bins that share an id and can be traded sell at one price. */
  ghost predicate PricesAgree(bins: seq<DlmmBin>) {
    forall b, c :: b in bins && c in bins && b.binId == c.binId ==> SamePrice(b, c)
  }

  ghost predicate SamePrice(b: DlmmBin, c: DlmmBin) {
    Tradable(b) && Tradable(c) ==> b.amountX * c.amountY == c.amountX * b.amountY
  }

  predicate Tradable(b: DlmmBin) {
    b.amountX != 0 && b.amountY != 0
  }

  // ------------------------------------------------------------------
  // Two bins of one id go into the traversal side by side, in arrival order
  // ------------------------------------------------------------------

  /** Where a bin of this id is inserted. */
  ghost function Place(id: i32, sorted: seq<DlmmBin>, isXToY: bool): (p: nat)
    ensures p <= |sorted|
  {
    if sorted == [] then 0
    else if (if isXToY then sorted[0].binId <= id else id <= sorted[0].binId) then 0
    else 1 + Place(id, sorted[1..], isXToY)
  }

  lemma {:induction false} InsertedAtPlace(b: DlmmBin, sorted: seq<DlmmBin>, isXToY: bool)
    ensures var p := Place(b.binId, sorted, isXToY);
      InsertBin(b, sorted, isXToY) == sorted[..p] + [b] + sorted[p..]
  {
    if sorted != [] && !NotAfter(b, sorted[0], isXToY) {
      var p := Place(b.binId, sorted[1..], isXToY);
      InsertedAtPlace(b, sorted[1..], isXToY);
      assert sorted[..p + 1] == [sorted[0]] + sorted[1..][..p];
      assert sorted[p + 1..] == sorted[1..][p..];
    }
  }

  lemma PairInserted(b: DlmmBin, c: DlmmBin, sorted: seq<DlmmBin>, isXToY: bool)
    requires b.binId == c.binId
    ensures var p := Place(b.binId, sorted, isXToY);
      InsertBin(b, InsertBin(c, sorted, isXToY), isXToY) == sorted[..p] + [b, c] + sorted[p..]
  {
    hide InsertBin;
    hide Place;
    var p := Place(b.binId, sorted, isXToY);
    InsertedAtPlace(c, sorted, isXToY);
    SamePlace(b.binId, sorted, c, isXToY);
    InsertedAtPlace(b, sorted[..p] + [c] + sorted[p..], isXToY);
    PairAt(sorted, p, b, c);
  }

  lemma PairAt(s: seq<DlmmBin>, p: nat, b: DlmmBin, c: DlmmBin)
    requires p <= |s|
    ensures var one := s[..p] + [c] + s[p..];
      one[..p] + [b] + one[p..] == s[..p] + [b, c] + s[p..]
  {
    var one := s[..p] + [c] + s[p..];
    assert one[..p] == s[..p] && one[p..] == [c] + s[p..];
  }

  /** Another bin of the same id does not move the place. */
  lemma {:induction false} SamePlace(id: i32, sorted: seq<DlmmBin>, c: DlmmBin, isXToY: bool)
    requires c.binId == id
    ensures var p := Place(id, sorted, isXToY);
      Place(id, sorted[..p] + [c] + sorted[p..], isXToY) == p
  {
    var p := Place(id, sorted, isXToY);
    if p != 0 {
      SamePlace(id, sorted[1..], c, isXToY);
      TailWithOneMore(sorted, p, c);
    }
  }

  lemma TailWithOneMore(s: seq<DlmmBin>, p: nat, c: DlmmBin)
    requires 0 < p <= |s|
    ensures var one := s[..p] + [c] + s[p..];
      one[0] == s[0] && one[1..] == s[1..][..p - 1] + [c] + s[1..][p - 1..]
  {
  }

  lemma TraversalOfPair(b: DlmmBin, c: DlmmBin, rest: seq<DlmmBin>, isXToY: bool)
    requires HasFunds(b) && HasFunds(c) && b.binId == c.binId
    ensures var s := Traversal(rest, isXToY);
      var p := Place(b.binId, s, isXToY);
      Traversal([b, c] + rest, isXToY) == s[..p] + [b, c] + s[p..]
  {
    var active := Active(rest);
    assert ([b, c] + rest)[1..] == [c] + rest && ([c] + rest)[1..] == rest;
    assert Active([c] + rest) == [c] + active;
    assert Active([b, c] + rest) == [b] + ([c] + active);
    assert [b, c] + rest == [b] + ([c] + rest);
    assert ([b] + ([c] + active))[1..] == [c] + active && ([c] + active)[1..] == active;
    assert SortBins([c] + active, isXToY) == InsertBin(c, SortBins(active, isXToY), isXToY);
    PairInserted(b, c, SortBins(active, isXToY), isXToY);
  }

  /** Two different funded bins of one id: which of them arrives first shows in the traversal. */
  lemma SharedIdShowsInTraversal(b: DlmmBin, c: DlmmBin, rest: seq<DlmmBin>, isXToY: bool)
    requires HasFunds(b) && HasFunds(c) && b.binId == c.binId && b != c
    ensures Traversal([b, c] + rest, isXToY) != Traversal([c, b] + rest, isXToY)
  {
    TraversalOfPair(b, c, rest, isXToY);
    TraversalOfPair(c, b, rest, isXToY);
    var s := Traversal(rest, isXToY);
    var p := Place(b.binId, s, isXToY);
    assert (s[..p] + [b, c] + s[p..])[p] == b;
    assert (s[..p] + [c, b] + s[p..])[p] == c;
  }

  /** Any two different bins of a list can be brought to the front in either order. */
  lemma BringToFront(bins: seq<DlmmBin>, b: DlmmBin, c: DlmmBin) returns (rest: seq<DlmmBin>)
    requires b in bins && c in bins && b != c
    ensures Rearranges([b, c] + rest, bins) && Rearranges([c, b] + rest, bins)
  {
    var without := TakeOut(bins, b);
    assert c in multiset(bins) && c in multiset(without);
    rest := TakeOut(without, c);
  }

  lemma TakeOut(bins: seq<DlmmBin>, b: DlmmBin) returns (rest: seq<DlmmBin>)
    requires b in bins
    ensures multiset(rest) + multiset{b} == multiset(bins)
  {
    var i :| 0 <= i < |bins| && bins[i] == b;
    rest := bins[..i] + bins[i + 1..];
    assert bins == bins[..i] + [b] + bins[i + 1..];
  }

  /** Every rearrangement has the same traversal exactly when no two different funded bins share an id. */
  lemma TraversalOrderFreeIff(bins: seq<DlmmBin>, isXToY: bool)
    ensures TraversalOrderFree(bins, isXToY) <==> ConsistentIds(Active(bins))
  {
    hide Traversal;
    hide Active;
    if ConsistentIds(Active(bins)) {
      forall shuffled | Rearranges(shuffled, bins)
        ensures Traversal(shuffled, isXToY) == Traversal(bins, isXToY)
      {
        TraversalIgnoresArrivalOrder(bins, shuffled, isXToY);
      }
    } else {
      var b, c :| b in Active(bins) && c in Active(bins) && b.binId == c.binId && b != c;
      ActiveMembers(bins, b);
      ActiveMembers(bins, c);
      var rest := BringToFront(bins, b, c);
      SharedIdShowsInTraversal(b, c, rest, isXToY);
    }
  }

  // ------------------------------------------------------------------
  // Equal prices: the order inside one id does not show in the walk
  // ------------------------------------------------------------------

  lemma LevelsOf(b: DlmmBin, rest: seq<DlmmBin>, isXToY: bool)
    ensures Levels([b] + rest, isXToY) == [Directed(b, isXToY)] + Levels(rest, isXToY)
  {
  }

  lemma SamePriceDirected(b: DlmmBin, c: DlmmBin, isXToY: bool)
    ensures Tradable(b) <==> Directed(b, isXToY).Usable()
    ensures SamePrice(b, c) <==> LevelsAgree(Directed(b, isXToY), Directed(c, isXToY))
  {
  }

  ghost predicate LevelsAgree(b: Level, c: Level) {
    b.Usable() && c.Usable() ==> NotCheaper(b, c) && NotCheaper(c, b)
  }

  lemma EqualPrices(b: Level, c: Level)
    requires b.Usable() && c.Usable() && NotCheaper(b, c) && NotCheaper(c, b)
    ensures Price(b) == Price(c)
  {
    hide NotCheaper;
    CheaperInPrice(b, c);
    CheaperInPrice(c, b);
    PriceTimesSize(b);
    PriceTimesSize(c);
    RealDivLe(b.reserveOut as real, b.reserveIn as real, Price(c));
    RealDivLe(c.reserveOut as real, c.reserveIn as real, Price(b));
  }

  /** Two levels of one price are one longer level. */
  lemma PairIsOneLevel(b: Level, c: Level, rest: seq<Level>, x: real)
    requires b.Usable() && c.Usable() && Price(b) == Price(c)
    ensures var r := b.reserveIn as real + c.reserveIn as real;
      RealWalk([b, c] + rest, x)
      == if x <= r then Price(b) * x else b.reserveOut as real + c.reserveOut as real + RealWalk(rest, x - r)
  {
    var ls := [b, c] + rest;
    assert ls[1..] == [c] + rest && ([c] + rest)[1..] == rest;
    PriceTimesSize(b);
    var p, r := Price(b), b.reserveIn as real;
    assert p * r + p * (x - r) == p * x;
  }

  lemma PairSwaps(b: Level, c: Level, rest: seq<Level>, x: real)
    requires LevelsAgree(b, c)
    ensures RealWalk([b, c] + rest, x) == RealWalk([c, b] + rest, x)
  {
    if b.Usable() && c.Usable() {
      hide RealWalk;
      EqualPrices(b, c);
      PairIsOneLevel(b, c, rest, x);
      PairIsOneLevel(c, b, rest, x);
    } else {
      assert ([b, c] + rest)[1..] == [c] + rest && ([c] + rest)[1..] == rest;
      assert ([c, b] + rest)[1..] == [b] + rest && ([b] + rest)[1..] == rest;
    }
  }

  ghost function RealWalkOf(order: seq<DlmmBin>, isXToY: bool, x: real): real {
    RealWalk(Levels(order, isXToY), x)
  }

  lemma SameTailSameWalk(h: DlmmBin, u: seq<DlmmBin>, v: seq<DlmmBin>, isXToY: bool, x: real)
    requires RealWalkOf(u, isXToY, x) == RealWalkOf(v, isXToY, x)
    requires var y := x - Directed(h, isXToY).reserveIn as real; RealWalkOf(u, isXToY, y) == RealWalkOf(v, isXToY, y)
    ensures RealWalkOf([h] + u, isXToY, x) == RealWalkOf([h] + v, isXToY, x)
  {
    LevelsOf(h, u, isXToY);
    LevelsOf(h, v, isXToY);
    var level := Directed(h, isXToY);
    assert ([level] + Levels(u, isXToY))[1..] == Levels(u, isXToY);
    assert ([level] + Levels(v, isXToY))[1..] == Levels(v, isXToY);
  }

  lemma BinsSwap(b: DlmmBin, c: DlmmBin, rest: seq<DlmmBin>, isXToY: bool, x: real)
    requires SamePrice(b, c)
    ensures RealWalkOf([b, c] + rest, isXToY, x) == RealWalkOf([c, b] + rest, isXToY, x)
  {
    hide RealWalk;
    var lb, lc, ls := Directed(b, isXToY), Directed(c, isXToY), Levels(rest, isXToY);
    assert Levels([b, c] + rest, isXToY) == [lb, lc] + ls;
    assert Levels([c, b] + rest, isXToY) == [lc, lb] + ls;
    SamePriceDirected(b, c, isXToY);
    PairSwaps(lb, lc, ls, x);
  }

  /** Moving a bin to the front past bins of its own id. */
  lemma {:induction false} MoveToFront(t: seq<DlmmBin>, i: nat, isXToY: bool, x: real)
    requires i < |t| && PricesAgree(t) && forall j :: 0 <= j < i ==> t[j].binId == t[i].binId
    ensures RealWalkOf([t[i]] + t[..i] + t[i + 1..], isXToY, x) == RealWalkOf(t, isXToY, x)
    decreases i
  {
    hide RealWalkOf;
    hide SamePrice;
    hide Directed;
    MovedShape(t, i);
    if i != 0 {
      var h, u := t[0], t[1..];
      var moved := [t[i]] + u[..i - 1] + u[i..];
      var y := x - Directed(h, isXToY).reserveIn as real;
      TailAgrees(t);
      MoveToFront(u, i - 1, isXToY, x);
      MoveToFront(u, i - 1, isXToY, y);
      SameTailSameWalk(h, moved, u, isXToY, x);
      assert t[i] in t && h in t;
      BinsSwap(h, t[i], u[..i - 1] + u[i..], isXToY, x);
    }
  }

  lemma PartAgrees(t: seq<DlmmBin>, u: seq<DlmmBin>)
    requires PricesAgree(t) && forall b :: b in u ==> b in t
    ensures PricesAgree(u)
  {
    hide SamePrice;
  }

  lemma TailAgrees(t: seq<DlmmBin>)
    requires t != [] && PricesAgree(t)
    ensures PricesAgree(t[1..])
  {
    hide SamePrice;
  }

  lemma MovedShape(t: seq<DlmmBin>, i: nat)
    requires i < |t|
    ensures i == 0 ==> [t[i]] + t[..i] + t[i + 1..] == t
    ensures 0 < i ==>
      var h, u := t[0], t[1..];
      && u[i - 1] == t[i] && [h] + u == t
      && [h] + ([t[i]] + u[..i - 1] + u[i..]) == [h, t[i]] + (u[..i - 1] + u[i..])
      && [t[i]] + t[..i] + t[i + 1..] == [t[i], h] + (u[..i - 1] + u[i..])
  {
    if 0 < i {
      var u := t[1..];
      assert u[..i - 1] == t[1..i] && u[i..] == t[i + 1..];
      assert t[..i] == [t[0]] + t[1..i];
    }
  }

  /** Where the first bin of one arrangement sits in another one: behind bins of its own id only. */
  lemma FirstIsReachable(s: seq<DlmmBin>, t: seq<DlmmBin>, isXToY: bool) returns (i: nat)
    requires s != [] && Rearranges(s, t) && InTraversalOrder(s, isXToY) && InTraversalOrder(t, isXToY)
    ensures i < |t| && t[i] == s[0] && forall j :: 0 <= j < i ==> t[j].binId == t[i].binId
  {
    assert s[0] in multiset(t);
    i :| 0 <= i < |t| && t[i] == s[0];
    forall j | 0 <= j < i
      ensures t[j].binId == t[i].binId
    {
      assert t[j] in multiset(s);
      var k :| 0 <= k < |s| && s[k] == t[j];
      assert NotAfter(s[0], s[k], isXToY) || k == 0;
    }
  }

  lemma WithoutOne(t: seq<DlmmBin>, i: nat, isXToY: bool)
    requires i < |t| && InTraversalOrder(t, isXToY)
    ensures InTraversalOrder(t[..i] + t[i + 1..], isXToY)
    ensures multiset(t[..i] + t[i + 1..]) == multiset(t) - multiset{t[i]}
  {
    WithoutOneBin(t, i);
    hide NotAfter;
    var u := t[..i] + t[i + 1..];
    forall j, k | 0 <= j < k < |u|
      ensures NotAfter(u[j], u[k], isXToY)
    {
      var j2, k2 := if j < i then j else j + 1, if k < i then k else k + 1;
      assert u[j] == t[j2] && u[k] == t[k2];
    }
  }

  lemma WithoutOneBin(t: seq<DlmmBin>, i: nat)
    requires i < |t|
    ensures multiset(t[..i] + t[i + 1..]) == multiset(t) - multiset{t[i]}
  {
    assert t == t[..i] + [t[i]] + t[i + 1..];
  }

  lemma TailInTraversalOrder(s: seq<DlmmBin>, isXToY: bool)
    requires s != [] && InTraversalOrder(s, isXToY)
    ensures InTraversalOrder(s[1..], isXToY)
  {
  }

  lemma {:induction false} SameBinsSameWalk(s: seq<DlmmBin>, t: seq<DlmmBin>, isXToY: bool, x: real)
    requires Rearranges(s, t) && InTraversalOrder(s, isXToY) && InTraversalOrder(t, isXToY) && PricesAgree(t)
    ensures RealWalkOf(s, isXToY, x) == RealWalkOf(t, isXToY, x)
    decreases |s|
  {
    hide RealWalkOf;
    hide InTraversalOrder;
    hide PricesAgree;
    hide Directed;
    assert |multiset(s)| == |multiset(t)|;
    if s != [] {
      TailInTraversalOrder(s, isXToY);
      var i := FirstIsReachable(s, t, isXToY);
      var u := t[..i] + t[i + 1..];
      WithoutOne(t, i, isXToY);
      TailBins(s);
      PartAgrees(t, u);
      var y := x - Directed(s[0], isXToY).reserveIn as real;
      SameBinsSameWalk(s[1..], u, isXToY, x);
      SameBinsSameWalk(s[1..], u, isXToY, y);
      SameTailSameWalk(s[0], s[1..], u, isXToY, x);
      MoveToFront(t, i, isXToY, x);
      assert [s[0]] + s[1..] == s && [t[i]] + t[..i] + t[i + 1..] == [s[0]] + u;
    }
  }

  lemma AgreeingPricesOrderFree(bins: seq<DlmmBin>, shuffled: seq<DlmmBin>, isXToY: bool, amount: nat)
    requires PricesAgree(bins) && Rearranges(shuffled, bins)
    ensures WalkOf(shuffled, isXToY, amount) == WalkOf(bins, isXToY, amount)
  {
    var s, t := Traversal(shuffled, isXToY), Traversal(bins, isXToY);
    ActiveBinsArrangedAlike(bins, shuffled);
    SortKeepsBins(Active(bins), isXToY);
    SortKeepsBins(Active(shuffled), isXToY);
    SortOrders(Active(bins), isXToY);
    SortOrders(Active(shuffled), isXToY);
    forall b | b in t
      ensures b in bins
    {
      assert b in multiset(t);
      ActiveMembers(bins, b);
    }
    SameBinsSameWalk(s, t, isXToY, amount as real);
    WalkIsFloorOfRealWalk(Levels(s, isXToY), amount);
    WalkIsFloorOfRealWalk(Levels(t, isXToY), amount);
  }

  // ------------------------------------------------------------------
  // Different prices: some amount shows the order
  // ------------------------------------------------------------------

  function UsableIn(ls: seq<Level>): nat {
    if ls == [] then 0 else (if ls[0].Usable() then ls[0].reserveIn else 0) + UsableIn(ls[1..])
  }

  /** An amount that exhausts the usable levels in front. */
  lemma {:induction false} WalkPast(front: seq<Level>, back: seq<Level>, amount: nat)
    ensures Walk(front + back, UsableIn(front) + amount) == TotalOut(front) + Walk(back, amount)
  {
    var ls := front + back;
    if front == [] {
      assert ls == back;
    } else {
      assert ls[1..] == front[1..] + back;
      WalkPast(front[1..], back, amount);
      if front[0].Usable() {
        WalkAtEdge(ls, UsableIn(front[1..]) + amount);
      }
    }
  }

  /** The amount at which the order of b and c shows: everything in front, then the better of the two. */
  ghost function TellingAmount(rest: seq<DlmmBin>, better: DlmmBin, isXToY: bool): nat {
    UsableIn(FrontLevels(rest, better.binId, isXToY)) + Directed(better, isXToY).reserveIn
  }

  lemma OrderShows(b: DlmmBin, c: DlmmBin, rest: seq<DlmmBin>, isXToY: bool)
    requires b.binId == c.binId && Tradable(b) && Tradable(c)
    requires !NotCheaper(Directed(b, isXToY), Directed(c, isXToY))
    ensures var amount := TellingAmount(rest, c, isXToY);
      WalkOf([b, c] + rest, isXToY, amount) < WalkOf([c, b] + rest, isXToY, amount)
  {
    hide NotCheaper;
    hide Walk;
    hide WalkOf;
    var lb, lc, back := Directed(b, isXToY), Directed(c, isXToY), BackLevels(rest, b.binId, isXToY);
    WalkOfPair(b, c, rest, isXToY, lc.reserveIn);
    WalkOfPair(c, b, rest, isXToY, lc.reserveIn);
    CheaperFirstPaysLess(lb, lc, back);
  }

  ghost function FrontLevels(rest: seq<DlmmBin>, id: i32, isXToY: bool): seq<Level> {
    var s := Traversal(rest, isXToY);
    Levels(s[..Place(id, s, isXToY)], isXToY)
  }

  ghost function BackLevels(rest: seq<DlmmBin>, id: i32, isXToY: bool): seq<Level> {
    var s := Traversal(rest, isXToY);
    Levels(s[Place(id, s, isXToY)..], isXToY)
  }

  lemma WalkOfPair(b: DlmmBin, c: DlmmBin, rest: seq<DlmmBin>, isXToY: bool, amount: nat)
    requires HasFunds(b) && HasFunds(c) && b.binId == c.binId
    ensures var front, back := FrontLevels(rest, b.binId, isXToY), BackLevels(rest, b.binId, isXToY);
      WalkOf([b, c] + rest, isXToY, UsableIn(front) + amount)
      == TotalOut(front) + Walk([Directed(b, isXToY), Directed(c, isXToY)] + back, amount)
  {
    hide Traversal;
    hide Walk;
    var s := Traversal(rest, isXToY);
    var p := Place(b.binId, s, isXToY);
    var pair := [Directed(b, isXToY), Directed(c, isXToY)];
    var front, back := FrontLevels(rest, b.binId, isXToY), BackLevels(rest, b.binId, isXToY);
    TraversalOfPair(b, c, rest, isXToY);
    assert Levels(s[..p] + [b, c] + s[p..], isXToY) == front + (pair + back);
    WalkPast(front, pair + back, amount);
  }

  /** Two bins of one id whose prices differ can be arranged so that the walk tells. */
  lemma DifferingPricesShow(bins: seq<DlmmBin>, isXToY: bool) returns (one: seq<DlmmBin>, two: seq<DlmmBin>, amount: nat, rest: seq<DlmmBin>, better: DlmmBin)
    requires !PricesAgree(bins)
    ensures Rearranges(one, bins) && Rearranges(two, bins) && WalkOf(one, isXToY, amount) < WalkOf(two, isXToY, amount)
    ensures better in two && two[0] == better && |two| == |rest| + 2 && two[2..] == rest && amount == TellingAmount(rest, better, isXToY)
  {
    hide WalkOf;
    hide TellingAmount;
    hide NotCheaper;
    hide SamePrice;
    var b, c :| b in bins && c in bins && b.binId == c.binId && !SamePrice(b, c);
    UnequalPrices(b, c, isXToY);
    rest := BringToFront(bins, b, c);
    if !NotCheaper(Directed(b, isXToY), Directed(c, isXToY)) {
      OrderShows(b, c, rest, isXToY);
      one, two, better := [b, c] + rest, [c, b] + rest, c;
    } else {
      OrderShows(c, b, rest, isXToY);
      one, two, better := [c, b] + rest, [b, c] + rest, b;
    }
    amount := TellingAmount(rest, better, isXToY);
  }

  lemma UnequalPrices(b: DlmmBin, c: DlmmBin, isXToY: bool)
    requires !SamePrice(b, c)
    ensures b != c && Tradable(b) && Tradable(c)
    ensures !NotCheaper(Directed(b, isXToY), Directed(c, isXToY)) || !NotCheaper(Directed(c, isXToY), Directed(b, isXToY))
  {
    SamePriceDirected(b, c, isXToY);
  }

  /** What the walk pays is the same for every rearrangement and amount exactly when the tradable
      bins that share an id sell at one price. */
  lemma WalkOrderFreeIff(bins: seq<DlmmBin>, isXToY: bool)
    ensures WalkOrderFree(bins, isXToY) <==> PricesAgree(bins)
  {
    hide WalkOf;
    hide TellingAmount;
    if PricesAgree(bins) {
      forall shuffled, amount: nat | Rearranges(shuffled, bins)
        ensures WalkOf(shuffled, isXToY, amount) == WalkOf(bins, isXToY, amount)
      {
        AgreeingPricesOrderFree(bins, shuffled, isXToY, amount);
      }
    } else {
      var one, two, amount, rest, better := DifferingPricesShow(bins, isXToY);
    }
  }

  // ------------------------------------------------------------------
  // The estimate
  // ------------------------------------------------------------------

  ghost predicate EstimateOrderFree(bins: seq<DlmmBin>, isXToY: bool) {
    forall shuffled, amountIn: u64, feeBps: nat :: feeBps <= 10000 && Rearranges(shuffled, bins) ==>
      EstimateOut(shuffled, amountIn, isXToY, feeBps) == EstimateOut(bins, amountIn, isXToY, feeBps)
  }

  lemma {:induction false} SumsWithoutOne(t: seq<DlmmBin>, i: nat, isXToY: bool)
    requires i < |t|
    ensures SumIn(t, isXToY) == Directed(t[i], isXToY).reserveIn + SumIn(t[..i] + t[i + 1..], isXToY)
    ensures SumOut(t, isXToY) == Directed(t[i], isXToY).reserveOut + SumOut(t[..i] + t[i + 1..], isXToY)
  {
    if i == 0 {
      assert t[..0] + t[1..] == t[1..];
    } else {
      var u := t[1..];
      SumsWithoutOne(u, i - 1, isXToY);
      assert t[..i] + t[i + 1..] == [t[0]] + (u[..i - 1] + u[i..]);
    }
  }

  lemma {:induction false} SumsArrangedAlike(s: seq<DlmmBin>, t: seq<DlmmBin>, isXToY: bool)
    requires Rearranges(s, t)
    ensures SumIn(s, isXToY) == SumIn(t, isXToY) && SumOut(s, isXToY) == SumOut(t, isXToY)
    decreases |s|
  {
    assert |multiset(s)| == |multiset(t)|;
    if s != [] {
      assert s[0] in multiset(t);
      var i :| 0 <= i < |t| && t[i] == s[0];
      SumsWithoutOne(t, i, isXToY);
      WithoutOneBin(t, i);
      TailBins(s);
      SumsArrangedAlike(s[1..], t[..i] + t[i + 1..], isXToY);
    }
  }

  lemma {:induction false} ActiveSums(bins: seq<DlmmBin>, isXToY: bool)
    ensures SumIn(Active(bins), isXToY) == SumIn(bins, isXToY) && SumOut(Active(bins), isXToY) == SumOut(bins, isXToY)
  {
    if bins != [] {
      ActiveSums(bins[1..], isXToY);
      if HasFunds(bins[0]) {
        assert ([bins[0]] + Active(bins[1..]))[1..] == Active(bins[1..]);
      } else {
        assert Active(bins) == Active(bins[1..]);
      }
    }
  }

  lemma TraversalSums(bins: seq<DlmmBin>, isXToY: bool)
    ensures SumIn(Traversal(bins, isXToY), isXToY) == SumIn(bins, isXToY)
    ensures SumOut(Traversal(bins, isXToY), isXToY) == SumOut(bins, isXToY)
  {
    ActiveSums(bins, isXToY);
    SortKeepsBins(Active(bins), isXToY);
    SumsArrangedAlike(Traversal(bins, isXToY), Active(bins), isXToY);
  }

  lemma {:induction false} LevelsWithinSums(order: seq<DlmmBin>, isXToY: bool)
    ensures UsableIn(Levels(order, isXToY)) <= SumIn(order, isXToY) && TotalOut(Levels(order, isXToY)) <= SumOut(order, isXToY)
  {
    if order != [] {
      LevelsWithinSums(order[1..], isXToY);
      assert Levels(order, isXToY)[1..] == Levels(order[1..], isXToY);
    }
  }

  lemma {:induction false} PrefixSum(s: seq<DlmmBin>, p: nat, isXToY: bool)
    requires p <= |s|
    ensures SumIn(s[..p], isXToY) <= SumIn(s, isXToY)
  {
    if p != 0 {
      PrefixSum(s[1..], p - 1, isXToY);
      assert s[..p][1..] == s[1..][..p - 1];
    }
  }

  lemma TellingAmountWithinSum(rest: seq<DlmmBin>, better: DlmmBin, isXToY: bool)
    ensures TellingAmount(rest, better, isXToY) <= Directed(better, isXToY).reserveIn + SumIn(rest, isXToY)
  {
    hide Traversal;
    var s := Traversal(rest, isXToY);
    var p := Place(better.binId, s, isXToY);
    LevelsWithinSums(s[..p], isXToY);
    PrefixSum(s, p, isXToY);
    TraversalSums(rest, isXToY);
  }

  /** Without a fee and with totals that fit the casts the estimate is the walk. */
  lemma EstimateIsWalk(bins: seq<DlmmBin>, amountIn: u64, isXToY: bool)
    requires SumOut(bins, isXToY) < U64_LIMIT
    ensures EstimateOut(bins, amountIn, isXToY, 0) == WalkOf(bins, isXToY, amountIn)
  {
    hide Traversal;
    hide Levels;
    hide Walk;
    var order := Traversal(bins, isXToY);
    TraversalSums(bins, isXToY);
    LevelsWithinSums(order, isXToY);
    WalkMonotone(Levels(order, isXToY), amountIn, amountIn);
    TruncateIsExact(Walk(Levels(order, isXToY), amountIn));
    NoFee(amountIn);
  }

  lemma NoFee(amount: u64)
    ensures AmountAfterFee(amount, 0) == amount
  {
    DivUnique(amount * 10000, 10000, amount);
  }

  /** The estimate does not depend on the arrival order if tradable bins that share an id sell at one
      price; and, where the bins' totals fit the casts, only if they do. */
  lemma EstimateOrderFreeIff(bins: seq<DlmmBin>, isXToY: bool)
    ensures PricesAgree(bins) ==> EstimateOrderFree(bins, isXToY)
    ensures SumIn(bins, isXToY) < U64_LIMIT && SumOut(bins, isXToY) < U64_LIMIT && EstimateOrderFree(bins, isXToY) ==> PricesAgree(bins)
  {
    hide PricesAgree;
    hide Traversal;
    hide Rearranges;
    if PricesAgree(bins) {
      forall shuffled, amountIn: u64, feeBps: nat | feeBps <= 10000 && Rearranges(shuffled, bins)
        ensures EstimateOut(shuffled, amountIn, isXToY, feeBps) == EstimateOut(bins, amountIn, isXToY, feeBps)
      {
        AgreeingPricesOrderFree(bins, shuffled, isXToY, AmountAfterFee(amountIn, feeBps));
      }
    } else if SumIn(bins, isXToY) < U64_LIMIT && SumOut(bins, isXToY) < U64_LIMIT {
      var one, two, amount := EstimateShows(bins, isXToY);
      assert EstimateOut(one, amount, isXToY, 0) != EstimateOut(two, amount, isXToY, 0);
    }
  }

  lemma EstimateShows(bins: seq<DlmmBin>, isXToY: bool) returns (one: seq<DlmmBin>, two: seq<DlmmBin>, amount: u64)
    requires !PricesAgree(bins) && SumIn(bins, isXToY) < U64_LIMIT && SumOut(bins, isXToY) < U64_LIMIT
    ensures Rearranges(one, bins) && Rearranges(two, bins)
    ensures EstimateOut(one, amount, isXToY, 0) < EstimateOut(two, amount, isXToY, 0)
  {
    hide PricesAgree;
    hide WalkOf;
    hide EstimateOut;
    hide TellingAmount;
    var a, rest, better;
    one, two, a, rest, better := DifferingPricesShow(bins, isXToY);
    TellingAmountWithinSum(rest, better, isXToY);
    SumsArrangedAlike(one, bins, isXToY);
    SumsArrangedAlike(two, bins, isXToY);
    assert two[1..][1..] == rest;
    assert SumIn(two, isXToY) == Directed(two[0], isXToY).reserveIn + SumIn(two[1..], isXToY);
    assert SumIn(two[1..], isXToY) == Directed(two[1], isXToY).reserveIn + SumIn(rest, isXToY);
    amount := a;
    EstimateIsWalk(one, amount, isXToY);
    EstimateIsWalk(two, amount, isXToY);
  }

  /** Two different funded bins of one id, alone: the traversal always tells their order, the estimate
      exactly when they can be traded at different prices. */
  lemma SharedIdPair(b: DlmmBin, c: DlmmBin, isXToY: bool)
    requires HasFunds(b) && HasFunds(c) && b.binId == c.binId && b != c
    requires SumIn([b, c], isXToY) < U64_LIMIT && SumOut([b, c], isXToY) < U64_LIMIT
    ensures !TraversalOrderFree([b, c], isXToY)
    ensures EstimateOrderFree([b, c], isXToY) <==> SamePrice(b, c)
  {
    hide TraversalOrderFree;
    hide EstimateOrderFree;
    ActiveMembers([b, c], b);
    ActiveMembers([b, c], c);
    TraversalOrderFreeIff([b, c], isXToY);
    assert b in [b, c] && c in [b, c];
    PairAgrees(b, c);
    EstimateOrderFreeIff([b, c], isXToY);
  }

  lemma PairAgrees(b: DlmmBin, c: DlmmBin)
    requires b.binId == c.binId
    ensures PricesAgree([b, c]) <==> SamePrice(b, c)
  {
    if PricesAgree([b, c]) {
      assert b in [b, c] && c in [b, c];
    }
  }
}
