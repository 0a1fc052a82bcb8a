/** Turning venue prices into opportunities: the best pool of each venue, the filters on a pair of
    venues, and the final order. */
module Opportunities {
  import opened Arith
  import opened Sizing
  import opened GoldenSection
  import opened Spread
  import opened Dlmm
  import CP = ConstantProduct
  import Risk

  const MIN_TOKEN_RESERVES := 1_000_000
  const MAX_SPREAD_BPS := 5000
  const DEFAULT_DLMM_FEE_BPS := 25

  datatype Venue = PumpSwapAmm | MeteoraDlmm | RaydiumAmmv4 | RaydiumCpmm | OrcaWhirlpool

  datatype VenuePrice = VenuePrice(venue: Venue, poolPrices: seq<PoolPriceSnapshot>)

  datatype Opportunity = Opportunity(
    buyVenue: Venue,
    sellVenue: Venue,
    buyPriceSol: real,
    sellPriceSol: real,
    priceDiffBps: u32,
    investmentSol: real,
    expectedProfitSol: real,
    netProfitSol: real,
    confidence: real,
    dlmmFeeBps: u32)

  /** What a scan sees: settings, prices, whether the stream cache is warm, and the bins a fresh
      fetch of a DLMM pool would bring (none if it fails). */
  datatype Scan = Scan(
    cfg: ScannerConfig,
    prices: seq<VenuePrice>,
    grpcWarm: bool,
    freshBins: string -> Option<seq<DlmmBin>>,
    invPhi: real)

  ghost predicate ValidSnapshot(snap: PoolPriceSnapshot) {
    snap.feeBps <= 10000 && 0.0 < snap.solPerToken && BinsFit(snap)
  }

  ghost predicate ValidScan(scan: Scan) {
    && Golden(scan.invPhi) && 0.0 < scan.cfg.minProfitThresholdSol && 0.0 < scan.cfg.maxInvestmentSol
    && (forall p, snap :: p in scan.prices && snap in p.poolPrices ==> ValidSnapshot(snap))
  }

  // ------------------------------------------------------------------
  // The pool a venue is represented by
  // ------------------------------------------------------------------

  function Deep(pools: seq<PoolPriceSnapshot>): seq<PoolPriceSnapshot> {
    if pools == [] then []
    else (if pools[0].tokenReservesRaw >= MIN_TOKEN_RESERVES then [pools[0]] else []) + Deep(pools[1..])
  }

  /** The first of the cheapest. */
  function Cheapest(best: PoolPriceSnapshot, rest: seq<PoolPriceSnapshot>): PoolPriceSnapshot
    decreases rest
  {
    if rest == [] then best
    else Cheapest(if rest[0].solPerToken < best.solPerToken then rest[0] else best, rest[1..])
  }

  /** The last of the dearest. */
  function Dearest(best: PoolPriceSnapshot, rest: seq<PoolPriceSnapshot>): PoolPriceSnapshot
    decreases rest
  {
    if rest == [] then best
    else Dearest(if rest[0].solPerToken < best.solPerToken then best else rest[0], rest[1..])
  }

  function BestBuySnapshot(p: VenuePrice): Option<PoolPriceSnapshot> {
    var pools := Deep(p.poolPrices);
    if pools == [] then None else Some(Cheapest(pools[0], pools[1..]))
  }

  function BestSellSnapshot(p: VenuePrice): Option<PoolPriceSnapshot> {
    var pools := Deep(p.poolPrices);
    if pools == [] then None else Some(Dearest(pools[0], pools[1..]))
  }

  lemma {:induction false} DeepMembers(pools: seq<PoolPriceSnapshot>, snap: PoolPriceSnapshot)
    ensures snap in Deep(pools) <==> snap in pools && MIN_TOKEN_RESERVES <= snap.tokenReservesRaw
  {
    if pools != [] {
      DeepMembers(pools[1..], snap);
    }
  }

  lemma {:induction false} CheapestIsMinimum(best: PoolPriceSnapshot, rest: seq<PoolPriceSnapshot>)
    ensures Cheapest(best, rest) == best || Cheapest(best, rest) in rest
    ensures Cheapest(best, rest).solPerToken <= best.solPerToken
    ensures forall s :: s in rest ==> Cheapest(best, rest).solPerToken <= s.solPerToken
    decreases rest
  {
    if rest != [] {
      CheapestIsMinimum(if rest[0].solPerToken < best.solPerToken then rest[0] else best, rest[1..]);
    }
  }

  lemma {:induction false} DearestIsMaximum(best: PoolPriceSnapshot, rest: seq<PoolPriceSnapshot>)
    ensures Dearest(best, rest) == best || Dearest(best, rest) in rest
    ensures best.solPerToken <= Dearest(best, rest).solPerToken
    ensures forall s :: s in rest ==> s.solPerToken <= Dearest(best, rest).solPerToken
    decreases rest
  {
    if rest != [] {
      DearestIsMaximum(if rest[0].solPerToken < best.solPerToken then best else rest[0], rest[1..]);
    }
  }

  /** A venue is bought from at its lowest price and sold to at its highest, among the pools deep
      enough; it has no pool to trade with exactly when none is deep enough. */
  lemma BestSnapshotsAreExtreme(p: VenuePrice)
    ensures BestBuySnapshot(p).None? <==> BestSellSnapshot(p).None?
    ensures BestBuySnapshot(p).None? <==> forall s :: s in p.poolPrices ==> s.tokenReservesRaw < MIN_TOKEN_RESERVES
    ensures BestBuySnapshot(p).Some? ==>
      var buy, sell := BestBuySnapshot(p).value, BestSellSnapshot(p).value;
      && buy in p.poolPrices && MIN_TOKEN_RESERVES <= buy.tokenReservesRaw
      && sell in p.poolPrices && MIN_TOKEN_RESERVES <= sell.tokenReservesRaw
      && (forall s :: s in p.poolPrices && MIN_TOKEN_RESERVES <= s.tokenReservesRaw ==>
            buy.solPerToken <= s.solPerToken <= sell.solPerToken)
  {
    var pools := Deep(p.poolPrices);
    forall s
      ensures s in pools <==> s in p.poolPrices && MIN_TOKEN_RESERVES <= s.tokenReservesRaw
    {
      DeepMembers(p.poolPrices, s);
    }
    if pools == [] {
      forall s | s in p.poolPrices
        ensures s.tokenReservesRaw < MIN_TOKEN_RESERVES
      {
        assert s !in pools;
      }
    } else {
      assert pools[0] in pools;
      CheapestIsMinimum(pools[0], pools[1..]);
      DearestIsMaximum(pools[0], pools[1..]);
      assert pools == [pools[0]] + pools[1..];
    }
  }

  // ------------------------------------------------------------------
  // One pair of venues
  // ------------------------------------------------------------------

  /** The first price of a venue. */
  function FindPrice(prices: seq<VenuePrice>, venue: Venue): Option<VenuePrice> {
    if prices == [] then None else if prices[0].venue == venue then Some(prices[0]) else FindPrice(prices[1..], venue)
  }

  lemma {:induction false} FoundPriceIsListed(prices: seq<VenuePrice>, venue: Venue)
    ensures FindPrice(prices, venue).Some? ==> FindPrice(prices, venue).value in prices
  {
    if prices != [] {
      FoundPriceIsListed(prices[1..], venue);
    }
  }

  /** Twice the quote side, in whole quote units. */
  function TvlSol(snap: PoolPriceSnapshot): real {
    snap.solReservesRaw as real / QuoteUnit(snap) * 2.0
  }

  /** The pool to buy from, if the venue has one worth it. */
  function BuySide(scan: Scan, venue: Venue): Option<PoolPriceSnapshot> {
    var price :- FindPrice(scan.prices, venue);
    var snap :- BestBuySnapshot(price);
    if TvlSol(snap) < scan.cfg.minPoolTvlSol then None else Some(snap)
  }

  function SellSide(scan: Scan, venue: Venue): Option<PoolPriceSnapshot> {
    var price :- FindPrice(scan.prices, venue);
    var snap :- BestSellSnapshot(price);
    if TvlSol(snap) < scan.cfg.minPoolTvlSol then None else Some(snap)
  }

  lemma SidesAreValid(scan: Scan, venue: Venue)
    requires ValidScan(scan)
    ensures BuySide(scan, venue).Some? ==> ValidSnapshot(BuySide(scan, venue).value)
    ensures SellSide(scan, venue).Some? ==> ValidSnapshot(SellSide(scan, venue).value)
  {
    hide ValidSnapshot;
    hide TvlSol;
    hide BestBuySnapshot;
    hide BestSellSnapshot;
    FoundPriceIsListed(scan.prices, venue);
    if FindPrice(scan.prices, venue).Some? {
      BestSnapshotsAreExtreme(FindPrice(scan.prices, venue).value);
    }
  }

  lemma SidesAreDeep(scan: Scan, venue: Venue)
    ensures BuySide(scan, venue).Some? ==> scan.cfg.minPoolTvlSol <= TvlSol(BuySide(scan, venue).value)
    ensures SellSide(scan, venue).Some? ==> scan.cfg.minPoolTvlSol <= TvlSol(SellSide(scan, venue).value)
  {
    hide TvlSol;
    hide FindPrice;
    hide BestBuySnapshot;
    hide BestSellSnapshot;
  }

  /** The spread lies above the pool's own minimum and below what is taken for a data error. */
  predicate SpreadAccepted(cfg: ScannerConfig, buy: PoolPriceSnapshot, sell: PoolPriceSnapshot)
    requires 0.0 < buy.solPerToken
  {
    && buy.solPerToken < sell.solPerToken
    && cfg.minPriceDiffBps <= PriceDiffBps(buy.solPerToken, sell.solPerToken) <= MAX_SPREAD_BPS
  }

  /** Raw units returned, capped by pool share and by the absolute limit. */
  function CapOut(cfg: ScannerConfig, pool: PoolPriceSnapshot, unit: real, back: nat): nat {
    Min(back, SaturateToU128(MinReal(Portion(pool.solReservesRaw, cfg.maxPoolShare), cfg.maxAbsoluteSolOut * unit)))
  }

  /** The net profit on freshly fetched bins: the DLMM side counts in SOL, the other side is always
      priced by its reserves. */
  function RecheckNet(cfg: ScannerConfig, bins: seq<DlmmBin>, dlmm: PoolPriceSnapshot, other: PoolPriceSnapshot, investment: real, dlmmIsSell: bool): real
    requires dlmm.feeBps <= 10000 && other.feeBps <= 10000
  {
    if dlmmIsSell then
      var quoteIn := SaturateToU64(investment * QuoteUnit(other));
      CurveBelowReserve(other.solReservesRaw, other.tokenReservesRaw, quoteIn, other.feeBps);
      var tokens := CP.BpsOut(other.solReservesRaw, other.tokenReservesRaw, quoteIn, other.feeBps);
      var back := CapOut(cfg, dlmm, LAMPORTS_PER_SOL, EstimateOut(bins, tokens, dlmm.memeIsX, dlmm.feeBps));
      back as real / LAMPORTS_PER_SOL - investment - cfg.cuCostSol
    else
      var tokens := EstimateOut(bins, SaturateToU64(investment * LAMPORTS_PER_SOL), !dlmm.memeIsX, dlmm.feeBps);
      var back := CapOut(cfg, other, QuoteUnit(other), CP.BpsOut(other.tokenReservesRaw, other.solReservesRaw, tokens, other.feeBps));
      back as real / QuoteUnit(other) - investment - cfg.cuCostSol
  }

  /** No value if the fetch fails or brings no bins. */
  function RefetchAndVerify(scan: Scan, dlmm: PoolPriceSnapshot, other: PoolPriceSnapshot, investment: real, dlmmIsSell: bool): Option<real>
    requires dlmm.feeBps <= 10000 && other.feeBps <= 10000
  {
    var bins :- scan.freshBins(dlmm.lbPair);
    if bins == [] then None else Some(RecheckNet(scan.cfg, bins, dlmm, other, investment, dlmmIsSell))
  }

  /** A DLMM side is re-fetched unless the profit is too small anyway, re-verification is off or the
      stream is warm; the fresh net must then be at least half the estimate. */
  predicate Reverified(scan: Scan, buy: PoolPriceSnapshot, sell: PoolPriceSnapshot, investment: real, net: real)
    requires buy.feeBps <= 10000 && sell.feeBps <= 10000
  {
    var should := net >= scan.cfg.minProfitThresholdSol && !scan.cfg.skipReverify && !scan.grpcWarm;
    if !should || (sell.lbPair == "" && buy.lbPair == "") then true
    else
      var recheck := if sell.lbPair != "" then RefetchAndVerify(scan, sell, buy, investment, true)
                     else RefetchAndVerify(scan, buy, sell, investment, false);
      recheck.Some? && recheck.value >= net * 0.5
  }

  predicate ProfitAccepted(cfg: ScannerConfig, net: real) {
    var safe := net * cfg.profitSafetyFactor;
    safe > 0.0 && safe >= cfg.minProfitThresholdSol
  }

  function DlmmFeeBps(buyVenue: Venue, sellVenue: Venue, buy: PoolPriceSnapshot, sell: PoolPriceSnapshot): u32 {
    if buyVenue == MeteoraDlmm then buy.feeBps else if sellVenue == MeteoraDlmm then sell.feeBps else DEFAULT_DLMM_FEE_BPS
  }

  /** What a pair of pools yields, if it passes every filter. */
  ghost function PoolOpportunity(scan: Scan, buyVenue: Venue, sellVenue: Venue, buy: PoolPriceSnapshot, sell: PoolPriceSnapshot): Option<Opportunity>
    requires ValidScan(scan) && ValidSnapshot(buy) && ValidSnapshot(sell)
  {
    var bps := PriceDiffBps(buy.solPerToken, sell.solPerToken);
    var e := Estimate(scan.cfg, buy, sell, scan.invPhi);
    if !SpreadAccepted(scan.cfg, buy, sell) || !Reverified(scan, buy, sell, e.0, e.2) || CapArtifact(e.0, e.1, bps) || !ProfitAccepted(scan.cfg, e.2)
    then None
    else Some(Opportunity(buyVenue, sellVenue, buy.solPerToken, sell.solPerToken, bps, e.0, e.1, e.2,
                          Confidence(scan.cfg, bps, e.0), DlmmFeeBps(buyVenue, sellVenue, buy, sell)))
  }

  /** What a pair of venues yields. */
  ghost function PairOpportunity(scan: Scan, buyVenue: Venue, sellVenue: Venue): Option<Opportunity>
    requires ValidScan(scan)
  {
    SidesAreValid(scan, buyVenue);
    SidesAreValid(scan, sellVenue);
    var buy, sell := BuySide(scan, buyVenue), SellSide(scan, sellVenue);
    if buyVenue == sellVenue || buy.None? || sell.None? then None
    else PoolOpportunity(scan, buyVenue, sellVenue, buy.value, sell.value)
  }

  /** Opportunities buying at one venue, in the order of the venues sold to. */
  ghost function FoundBuyingAt(scan: Scan, buyVenue: Venue, sellVenues: seq<Venue>): seq<Opportunity>
    requires ValidScan(scan)
  {
    if sellVenues == [] then []
    else
      var o := PairOpportunity(scan, buyVenue, sellVenues[0]);
      (if o.Some? then [o.value] else []) + FoundBuyingAt(scan, buyVenue, sellVenues[1..])
  }

  ghost function Found(scan: Scan, buyVenues: seq<Venue>, sellVenues: seq<Venue>): seq<Opportunity>
    requires ValidScan(scan)
  {
    if buyVenues == [] then []
    else FoundBuyingAt(scan, buyVenues[0], sellVenues) + Found(scan, buyVenues[1..], sellVenues)
  }

  // ------------------------------------------------------------------
  // The final order
  // ------------------------------------------------------------------

  function InsertByNet(o: Opportunity, sorted: seq<Opportunity>): seq<Opportunity> {
    if sorted == [] then [o]
    else if sorted[0].netProfitSol <= o.netProfitSol then [o] + sorted
    else [sorted[0]] + InsertByNet(o, sorted[1..])
  }

  /** The stable sort by net profit, highest first. */
  function SortByNet(opps: seq<Opportunity>): seq<Opportunity> {
    if opps == [] then [] else InsertByNet(opps[0], SortByNet(opps[1..]))
  }

  ghost predicate ByNet(opps: seq<Opportunity>) {
    forall i, j :: 0 <= i < j < |opps| ==> opps[j].netProfitSol <= opps[i].netProfitSol
  }

  lemma {:induction false} InsertKeepsAll(o: Opportunity, sorted: seq<Opportunity>)
    ensures multiset(InsertByNet(o, sorted)) == multiset{o} + multiset(sorted)
  {
    if sorted != [] {
      assert sorted == [sorted[0]] + sorted[1..];
      InsertKeepsAll(o, sorted[1..]);
    }
  }

  lemma {:induction false} InsertKeepsOrder(o: Opportunity, sorted: seq<Opportunity>)
    requires ByNet(sorted)
    ensures ByNet(InsertByNet(o, sorted))
  {
    if sorted != [] && o.netProfitSol < sorted[0].netProfitSol {
      var rest := InsertByNet(o, sorted[1..]);
      InsertKeepsOrder(o, sorted[1..]);
      forall j | 0 <= j < |rest|
        ensures rest[j].netProfitSol <= sorted[0].netProfitSol
      {
        InsertedFrom(o, sorted[1..], rest[j]);
      }
      HeadByNet(sorted[0], rest);
    }
  }

  lemma InsertedFrom(o: Opportunity, sorted: seq<Opportunity>, x: Opportunity)
    requires x in InsertByNet(o, sorted)
    ensures x == o || x in sorted
  {
    InsertKeepsAll(o, sorted);
    assert x in multiset(InsertByNet(o, sorted));
  }

  lemma HeadByNet(head: Opportunity, rest: seq<Opportunity>)
    requires ByNet(rest) && forall j :: 0 <= j < |rest| ==> rest[j].netProfitSol <= head.netProfitSol
    ensures ByNet([head] + rest)
  {
  }

  /** Sorting loses nothing and puts the best first. */
  lemma {:induction false} SortIsOrdered(opps: seq<Opportunity>)
    ensures multiset(SortByNet(opps)) == multiset(opps) && ByNet(SortByNet(opps))
  {
    if opps != [] {
      assert opps == [opps[0]] + opps[1..];
      SortIsOrdered(opps[1..]);
      InsertKeepsAll(opps[0], SortByNet(opps[1..]));
      InsertKeepsOrder(opps[0], SortByNet(opps[1..]));
    }
  }

  // ------------------------------------------------------------------
  // The scan
  // ------------------------------------------------------------------

  /** Every ordered pair of different venues is considered once; what passes is returned best first. */
  method BuildOpportunities(scan: Scan, venues: seq<Venue>) returns (opps: seq<Opportunity>)
    requires ValidScan(scan)
    ensures opps == SortByNet(Found(scan, venues, venues))
  {
    hide PairOpportunity;
    hide FoundBuyingAt;
    hide Found;
    hide BuySide;
    hide SortByNet;
    var opportunities: seq<Opportunity> := [];
    var i := 0;
    while i < |venues|
      invariant 0 <= i <= |venues|
      invariant opportunities + Found(scan, venues[i..], venues) == Found(scan, venues, venues)
    {
      var buyVenue := venues[i];
      FoundStep(scan, opportunities, venues, i);
      i := i + 1;
      var buy := BuySide(scan, buyVenue);
      if buy.None? {
        NothingToBuy(scan, buyVenue, venues);
        continue;
      }
      ghost var before := opportunities;
      var j := 0;
      while j < |venues|
        invariant 0 <= j <= |venues|
        invariant opportunities + FoundBuyingAt(scan, buyVenue, venues[j..]) == before + FoundBuyingAt(scan, buyVenue, venues)
      {
        PairStep(scan, opportunities, buyVenue, venues, j);
        var found := ConsiderPair(scan, buyVenue, venues[j], buy.value);
        if found.Some? {
          opportunities := opportunities + [found.value];
        }
        j := j + 1;
      }
      NoneLeft(scan, buyVenue, venues, j);
    }
    NoneLeft(scan, PumpSwapAmm, venues, i);
    assert opportunities == opportunities + Found(scan, venues[i..], venues);
    opps := SortByNet(opportunities);
  }

  /** The body of the inner loop: the filters in their order. */
  method ConsiderPair(scan: Scan, buyVenue: Venue, sellVenue: Venue, buy: PoolPriceSnapshot) returns (found: Option<Opportunity>)
    requires ValidScan(scan) && BuySide(scan, buyVenue) == Some(buy)
    ensures found == PairOpportunity(scan, buyVenue, sellVenue)
  {
    hide BuySide;
    hide SellSide;
    hide Estimate;
    hide WithinLimits;
    hide CapArtifact;
    hide Reverified;
    hide PriceDiffBps;
    hide Confidence;
    hide BinsFit;
    hide ComputeArbAtInvestment;
    if buyVenue == sellVenue {
      return None;
    }
    var side := SellSide(scan, sellVenue);
    if side.None? {
      return None;
    }
    var sell := side.value;
    SidesAreValid(scan, buyVenue);
    SidesAreValid(scan, sellVenue);
    if buy.solPerToken >= sell.solPerToken {
      return None;
    }
    var bps := PriceDiffBps(buy.solPerToken, sell.solPerToken);
    if bps < scan.cfg.minPriceDiffBps || bps > MAX_SPREAD_BPS {
      return None;
    }
    var investment, gross, net, confidence, _ := EstimateProfit(scan.cfg, buy, sell, bps, scan.invPhi);
    if !Reverified(scan, buy, sell, investment, net) {
      return None;
    }
    if CapArtifact(investment, gross, bps) {
      return None;
    }
    if !ProfitAccepted(scan.cfg, net) {
      return None;
    }
    return Some(Opportunity(buyVenue, sellVenue, buy.solPerToken, sell.solPerToken, bps, investment, gross, net,
                            confidence, DlmmFeeBps(buyVenue, sellVenue, buy, sell)));
  }

  lemma FoundStep(scan: Scan, found: seq<Opportunity>, venues: seq<Venue>, i: nat)
    requires ValidScan(scan) && i < |venues|
    ensures found + Found(scan, venues[i..], venues)
         == found + FoundBuyingAt(scan, venues[i], venues) + Found(scan, venues[i + 1..], venues)
  {
    hide FoundBuyingAt;
    assert venues[i..][0] == venues[i] && venues[i..][1..] == venues[i + 1..];
  }

  lemma PairStep(scan: Scan, found: seq<Opportunity>, buyVenue: Venue, venues: seq<Venue>, j: nat)
    requires ValidScan(scan) && j < |venues|
    ensures var o, rest := PairOpportunity(scan, buyVenue, venues[j]), FoundBuyingAt(scan, buyVenue, venues[j + 1..]);
      found + FoundBuyingAt(scan, buyVenue, venues[j..]) == if o.Some? then found + [o.value] + rest else found + rest
  {
    hide PairOpportunity;
    assert venues[j..][0] == venues[j] && venues[j..][1..] == venues[j + 1..];
  }

  lemma NoneLeft(scan: Scan, buyVenue: Venue, venues: seq<Venue>, i: nat)
    requires ValidScan(scan) && i == |venues|
    ensures FoundBuyingAt(scan, buyVenue, venues[i..]) == [] && Found(scan, venues[i..], venues) == []
  {
  }

  lemma {:induction false} NothingToBuy(scan: Scan, buyVenue: Venue, sellVenues: seq<Venue>)
    requires ValidScan(scan) && BuySide(scan, buyVenue).None?
    ensures FoundBuyingAt(scan, buyVenue, sellVenues) == []
  {
    if sellVenues != [] {
      NothingToBuy(scan, buyVenue, sellVenues[1..]);
    }
  }

  // ------------------------------------------------------------------
  // What a scan returns
  // ------------------------------------------------------------------

  lemma {:induction false} BuyingAtMembers(scan: Scan, buyVenue: Venue, sellVenues: seq<Venue>, o: Opportunity)
    requires ValidScan(scan)
    ensures o in FoundBuyingAt(scan, buyVenue, sellVenues)
       <==> exists sellVenue :: sellVenue in sellVenues && PairOpportunity(scan, buyVenue, sellVenue) == Some(o)
  {
    hide PairOpportunity;
    if sellVenues != [] {
      BuyingAtMembers(scan, buyVenue, sellVenues[1..], o);
      if PairOpportunity(scan, buyVenue, sellVenues[0]) == Some(o) {
        assert sellVenues[0] in sellVenues;
      }
    }
  }

  lemma {:induction false} FoundMembers(scan: Scan, buyVenues: seq<Venue>, sellVenues: seq<Venue>, o: Opportunity)
    requires ValidScan(scan)
    ensures o in Found(scan, buyVenues, sellVenues)
       <==> exists buyVenue, sellVenue :: buyVenue in buyVenues && sellVenue in sellVenues && PairOpportunity(scan, buyVenue, sellVenue) == Some(o)
  {
    hide PairOpportunity;
    if buyVenues != [] {
      FoundMembers(scan, buyVenues[1..], sellVenues, o);
      BuyingAtMembers(scan, buyVenues[0], sellVenues, o);
      assert buyVenues[0] in buyVenues;
    }
  }

  ghost predicate Distinct(venues: seq<Venue>) {
    forall i, j :: 0 <= i < j < |venues| ==> venues[i] != venues[j]
  }

  lemma PairNamesItsVenues(scan: Scan, buyVenue: Venue, sellVenue: Venue)
    requires ValidScan(scan) && PairOpportunity(scan, buyVenue, sellVenue).Some?
    ensures var o := PairOpportunity(scan, buyVenue, sellVenue).value; o.buyVenue == buyVenue && o.sellVenue == sellVenue
  {
    hide BuySide;
    hide SellSide;
    hide Estimate;
    hide SpreadAccepted;
    hide Reverified;
    hide CapArtifact;
    hide ProfitAccepted;
    hide PriceDiffBps;
  }

  lemma {:induction false} BuyingAtOnce(scan: Scan, buyVenue: Venue, sellVenues: seq<Venue>, o: Opportunity)
    requires ValidScan(scan) && Distinct(sellVenues)
    ensures multiset(FoundBuyingAt(scan, buyVenue, sellVenues))[o] <= 1
  {
    hide PairOpportunity;
    if sellVenues != [] {
      var rest := FoundBuyingAt(scan, buyVenue, sellVenues[1..]);
      BuyingAtOnce(scan, buyVenue, sellVenues[1..], o);
      if PairOpportunity(scan, buyVenue, sellVenues[0]) == Some(o) {
        PairNamesItsVenues(scan, buyVenue, sellVenues[0]);
        BuyingAtMembers(scan, buyVenue, sellVenues[1..], o);
        if o in rest {
          var sellVenue :| sellVenue in sellVenues[1..] && PairOpportunity(scan, buyVenue, sellVenue) == Some(o);
          PairNamesItsVenues(scan, buyVenue, sellVenue);
        }
        assert o !in multiset(rest);
      }
    }
  }

  lemma {:induction false} FoundOnce(scan: Scan, buyVenues: seq<Venue>, sellVenues: seq<Venue>, o: Opportunity)
    requires ValidScan(scan) && Distinct(buyVenues) && Distinct(sellVenues)
    ensures multiset(Found(scan, buyVenues, sellVenues))[o] <= 1
  {
    hide PairOpportunity;
    hide FoundBuyingAt;
    if buyVenues != [] {
      var first, rest := FoundBuyingAt(scan, buyVenues[0], sellVenues), Found(scan, buyVenues[1..], sellVenues);
      FoundOnce(scan, buyVenues[1..], sellVenues, o);
      BuyingAtOnce(scan, buyVenues[0], sellVenues, o);
      if o in first && o in rest {
        BuyingAtMembers(scan, buyVenues[0], sellVenues, o);
        var s0 :| s0 in sellVenues && PairOpportunity(scan, buyVenues[0], s0) == Some(o);
        PairNamesItsVenues(scan, buyVenues[0], s0);
        FoundMembers(scan, buyVenues[1..], sellVenues, o);
        var b1, s1 :| b1 in buyVenues[1..] && s1 in sellVenues && PairOpportunity(scan, b1, s1) == Some(o);
        PairNamesItsVenues(scan, b1, s1);
      }
      assert o in first <==> o in multiset(first);
      assert o in rest <==> o in multiset(rest);
    }
  }

  /** The result holds exactly the opportunities of the ordered pairs of enabled venues, none lost,
      made up or repeated, the most profitable first. */
  lemma ScanIsExactAndOrdered(scan: Scan, venues: seq<Venue>, o: Opportunity)
    requires ValidScan(scan)
    ensures ByNet(SortByNet(Found(scan, venues, venues)))
    ensures o in SortByNet(Found(scan, venues, venues))
       <==> exists buyVenue, sellVenue :: buyVenue in venues && sellVenue in venues && PairOpportunity(scan, buyVenue, sellVenue) == Some(o)
    ensures Distinct(venues) ==> multiset(SortByNet(Found(scan, venues, venues)))[o] <= 1
  {
    hide PairOpportunity;
    hide ByNet;
    hide Found;
    var found := Found(scan, venues, venues);
    SortIsOrdered(found);
    FoundMembers(scan, venues, venues, o);
    if Distinct(venues) {
      FoundOnce(scan, venues, venues, o);
    }
    assert o in found <==> o in multiset(found);
    assert o in SortByNet(found) <==> o in multiset(SortByNet(found));
  }

  /** Everything a returned opportunity promises. */
  ghost predicate Sound(scan: Scan, o: Opportunity, buy: PoolPriceSnapshot, sell: PoolPriceSnapshot)
    requires ValidScan(scan) && ValidSnapshot(buy) && ValidSnapshot(sell)
  {
    && o.buyVenue != o.sellVenue
    && o.buyPriceSol == buy.solPerToken < sell.solPerToken == o.sellPriceSol
    && scan.cfg.minPriceDiffBps <= o.priceDiffBps <= MAX_SPREAD_BPS
    && MIN_INVEST <= o.investmentSol && WithinLimits(scan.cfg, buy, sell, o.investmentSol)
    && Priceable(sell) && (o.expectedProfitSol, o.netProfitSol) == ComputeArbAtInvestment(scan.cfg, buy, sell, o.investmentSol)
    && 0.0 < scan.cfg.minProfitThresholdSol <= o.netProfitSol * scan.cfg.profitSafetyFactor
    && 0.0 <= o.confidence <= 1.0
    && scan.cfg.minPoolTvlSol <= TvlSol(buy) && scan.cfg.minPoolTvlSol <= TvlSol(sell)
    && !CapArtifact(o.investmentSol, o.expectedProfitSol, o.priceDiffBps)
    && (Stale(scan, o) && sell.lbPair != "" ==> Confirms(RefetchAndVerify(scan, sell, buy, o.investmentSol, true), o.netProfitSol))
    && (Stale(scan, o) && sell.lbPair == "" && buy.lbPair != "" ==> Confirms(RefetchAndVerify(scan, buy, sell, o.investmentSol, false), o.netProfitSol))
  }

  /** The estimate may rest on old bins and is worth checking. */
  ghost predicate Stale(scan: Scan, o: Opportunity) {
    !scan.cfg.skipReverify && !scan.grpcWarm && scan.cfg.minProfitThresholdSol <= o.netProfitSol
  }

  ghost predicate Confirms(recheck: Option<real>, net: real) {
    recheck.Some? && net / 2.0 <= recheck.value
  }

  /** An opportunity between two venues is a trade that stays inside every size limit, between a
      cheapest and a dearest pool, and whose own re-computed profit clears the threshold. */
  lemma OpportunitiesAreSound(scan: Scan, buyVenue: Venue, sellVenue: Venue)
    requires ValidScan(scan)
    ensures PairOpportunity(scan, buyVenue, sellVenue).Some? ==>
      && BuySide(scan, buyVenue).Some? && SellSide(scan, sellVenue).Some?
      && ValidSnapshot(BuySide(scan, buyVenue).value) && ValidSnapshot(SellSide(scan, sellVenue).value)
      && Sound(scan, PairOpportunity(scan, buyVenue, sellVenue).value, BuySide(scan, buyVenue).value, SellSide(scan, sellVenue).value)
  {
    SidesAreDeep(scan, buyVenue);
    SidesAreDeep(scan, sellVenue);
    hide BuySide;
    hide SellSide;
    hide Sound;
    hide PoolOpportunity;
    hide TvlSol;
    SidesAreValid(scan, buyVenue);
    SidesAreValid(scan, sellVenue);
    if PairOpportunity(scan, buyVenue, sellVenue).Some? {
      PoolOpportunityIsSound(scan, buyVenue, sellVenue, BuySide(scan, buyVenue).value, SellSide(scan, sellVenue).value);
    }
  }

  lemma PoolOpportunityIsSound(scan: Scan, buyVenue: Venue, sellVenue: Venue, buy: PoolPriceSnapshot, sell: PoolPriceSnapshot)
    requires ValidScan(scan) && ValidSnapshot(buy) && ValidSnapshot(sell) && buyVenue != sellVenue
    requires scan.cfg.minPoolTvlSol <= TvlSol(buy) && scan.cfg.minPoolTvlSol <= TvlSol(sell)
    ensures PoolOpportunity(scan, buyVenue, sellVenue, buy, sell).Some? ==>
      Sound(scan, PoolOpportunity(scan, buyVenue, sellVenue, buy, sell).value, buy, sell)
  {
    hide WithinLimits;
    hide ComputeArbAtInvestment;
    hide CapArtifact;
    hide RefetchAndVerify;
    hide PriceDiffBps;
    hide Estimate;
    hide BinsFit;
    hide HasReserves;
    hide Golden;
    hide TvlSol;
    EstimateWithinLimits(scan.cfg, buy, sell, scan.invPhi);
    if Estimate(scan.cfg, buy, sell, scan.invPhi) != (0.0, 0.0, 0.0) {
      ReservesArePriceable(sell);
    }
  }

  lemma ReservesArePriceable(snap: PoolPriceSnapshot)
    requires snap.feeBps <= 10000 && HasReserves(snap)
    ensures Priceable(snap)
  {
  }

  lemma EstimateWithinLimits(cfg: ScannerConfig, buy: PoolPriceSnapshot, sell: PoolPriceSnapshot, invPhi: real)
    requires buy.feeBps <= 10000 && sell.feeBps <= 10000 && BinsFit(buy) && Golden(invPhi)
    ensures var e := Estimate(cfg, buy, sell, invPhi);
      e != (0.0, 0.0, 0.0) ==> WithinLimits(cfg, buy, sell, e.0)
  {
    hide RangeEnd;
    hide ComputeArbAtInvestment;
    hide WithinLimits;
    hide BinsFit;
    hide Golden;
    var end := RangeEnd(cfg, buy, sell);
    if end.Some? {
      hide Best;
      BestInRange(Objective(cfg, buy, sell), invPhi, MIN_INVEST, end.value, 12);
      RangeWithinLimits(cfg, buy, sell, Best(Objective(cfg, buy, sell), invPhi, MIN_INVEST, end.value, 12));
    }
  }

  lemma BestInRange(f: real -> real, r: real, a: real, b: real, n: nat)
    requires Golden(r) && a <= b
    ensures a <= Best(f, r, a, b, n) <= b
  {
    RunShrinks(f, r, a, b, n);
  }

  /** For two constant-product pools priced by their reserves the first two filters never cost a
      profit: a pair skipped for its price direction loses at every investment, and one whose spread
      shows at all is never taken for a cap artifact. */
  lemma FiltersCostNoHonestProfit(scan: Scan, mint: string, buy: PoolPriceSnapshot, sell: PoolPriceSnapshot, investment: real)
    requires PricedByReserves(buy, mint) && PricedByReserves(sell, mint) && 0.0 < investment
    ensures 0.0 < buy.solPerToken
    ensures var gross := ComputeArbAtInvestment(scan.cfg, buy, sell, investment).0;
      && (!(buy.solPerToken < sell.solPerToken) ==> gross < 0.0)
      && (SpreadAccepted(scan.cfg, buy, sell) && 1 <= scan.cfg.minPriceDiffBps ==>
            && !CapArtifact(investment, gross, PriceDiffBps(buy.solPerToken, sell.solPerToken))
            && gross <= investment * RelativeSpread(buy.solPerToken, sell.solPerToken))
  {
    hide PriceDiffBps;
    hide RelativeSpread;
    hide CapArtifact;
    hide PricedByReserves;
    hide ComputeArbAtInvestment;
    GrossBoundedBySpread(scan.cfg, buy, sell, mint, investment);
    FilterKeepsHonestPairs(scan.cfg, buy, sell, mint, investment);
  }

  // ------------------------------------------------------------------
  // Re-verification against the estimate
  // ------------------------------------------------------------------

  /** The snapshots the estimate would have used had it seen the fresh bins. */
  function Refreshed(dlmm: PoolPriceSnapshot, bins: seq<DlmmBin>): PoolPriceSnapshot {
    dlmm.(bins := bins)
  }

  /** The absolute limit on what a trade returns, in lamports. */
  function AbsoluteCap(cfg: ScannerConfig): nat {
    SaturateToU128(cfg.maxAbsoluteSolOut * LAMPORTS_PER_SOL)
  }

  lemma CapsApart(cfg: ScannerConfig, pool: PoolPriceSnapshot, back: nat)
    ensures CapOut(cfg, pool, LAMPORTS_PER_SOL, back) == Min(Min(back, ShareCap(cfg, pool)), AbsoluteCap(cfg))
  {
    hide Portion;
    hide SaturateToU128;
    var share, absolute := Portion(pool.solReservesRaw, cfg.maxPoolShare), cfg.maxAbsoluteSolOut * LAMPORTS_PER_SOL;
    if share <= absolute {
      SaturateMonotone(share, absolute);
    } else {
      SaturateMonotone(absolute, share);
    }
  }

  lemma SaturateMonotone(x: real, y: real)
    requires x <= y
    ensures SaturateToU128(x) <= SaturateToU128(y)
  {
  }

  lemma SolUnit(snap: PoolPriceSnapshot)
    requires snap.quoteDecimals == 9
    ensures QuoteUnit(snap) == LAMPORTS_PER_SOL
  {
    BillionUnits();
  }

  lemma SolRawQuote(snap: PoolPriceSnapshot, investment: real)
    requires snap.quoteDecimals == 9
    ensures RawQuote(snap, investment) == SaturateToU64(investment * LAMPORTS_PER_SOL)
  {
    SolUnit(snap);
    RealSameProduct(investment, QuoteUnit(snap), LAMPORTS_PER_SOL);
  }

  /** The estimate's net between SOL pools, taken apart. */
  lemma EstimateTakenApart(cfg: ScannerConfig, buy: PoolPriceSnapshot, sell: PoolPriceSnapshot, investment: real)
    requires Priceable(buy) && Priceable(sell) && buy.quoteDecimals == 9
    ensures ComputeArbAtInvestment(cfg, buy, sell, investment).1
         == NetOfBack(cfg, Min(SellTokens(sell, BuyTokens(buy, RawQuote(buy, investment))), ShareCap(cfg, sell)), investment)
  {
    hide SellTokens;
    hide BuyTokens;
    hide RawQuote;
    hide ShareCap;
    SolUnit(buy);
    hide QuoteUnit;
  }

  /** Net profit in SOL from lamports returned. */
  ghost function NetOfBack(cfg: ScannerConfig, back: nat, investment: real): real {
    back as real / LAMPORTS_PER_SOL - investment - cfg.cuCostSol
  }

  lemma NetGrows(cfg: ScannerConfig, capped: nat, back: nat, investment: real)
    requires capped <= back
    ensures NetOfBack(cfg, capped, investment) <= NetOfBack(cfg, back, investment)
    ensures NetOfBack(cfg, capped, investment) == NetOfBack(cfg, back, investment) <==> capped == back
    ensures NetOfBack(cfg, back, investment) - NetOfBack(cfg, capped, investment) == (back - capped) as real / LAMPORTS_PER_SOL
  {
  }

  lemma RecheckSelling(cfg: ScannerConfig, bins: seq<DlmmBin>, dlmm: PoolPriceSnapshot, other: PoolPriceSnapshot, investment: real)
    requires bins != [] && dlmm.feeBps <= 10000 && other.bins == [] && Priceable(other)
    ensures Priceable(Refreshed(dlmm, bins))
    ensures RecheckNet(cfg, bins, dlmm, other, investment, true)
         == NetOfBack(cfg, CapOut(cfg, dlmm, LAMPORTS_PER_SOL, SellTokens(Refreshed(dlmm, bins), BuyTokens(other, RawQuote(other, investment)))), investment)
  {
    hide EstimateOut;
    hide CP.BpsOut;
    hide SaturateToU64;
    hide CapOut;
    hide QuoteUnit;
  }

  lemma RecheckBuying(cfg: ScannerConfig, bins: seq<DlmmBin>, dlmm: PoolPriceSnapshot, other: PoolPriceSnapshot, investment: real)
    requires bins != [] && dlmm.feeBps <= 10000 && other.bins == [] && Priceable(other)
    requires dlmm.quoteDecimals == 9 && other.quoteDecimals == 9
    ensures Priceable(Refreshed(dlmm, bins))
    ensures RecheckNet(cfg, bins, dlmm, other, investment, false)
         == NetOfBack(cfg, CapOut(cfg, other, LAMPORTS_PER_SOL, SellTokens(other, BuyTokens(Refreshed(dlmm, bins), RawQuote(Refreshed(dlmm, bins), investment)))), investment)
  {
    hide EstimateOut;
    hide CP.BpsOut;
    hide SaturateToU64;
    hide CapOut;
    SolUnit(other);
    SolRawQuote(Refreshed(dlmm, bins), investment);
    hide QuoteUnit;
    hide RawQuote;
  }

  ghost function BuyPool(dlmm: PoolPriceSnapshot, bins: seq<DlmmBin>, other: PoolPriceSnapshot, dlmmIsSell: bool): PoolPriceSnapshot {
    if dlmmIsSell then other else Refreshed(dlmm, bins)
  }

  ghost function SellPool(dlmm: PoolPriceSnapshot, bins: seq<DlmmBin>, other: PoolPriceSnapshot, dlmmIsSell: bool): PoolPriceSnapshot {
    if dlmmIsSell then Refreshed(dlmm, bins) else other
  }

  /** Between SOL pools the re-check prices the trade as the estimate does on the fresh bins, with
      one more cap: never more, and the same exactly when what comes back is within the absolute limit. */
  lemma RecheckMatchesEstimate(cfg: ScannerConfig, bins: seq<DlmmBin>, dlmm: PoolPriceSnapshot, other: PoolPriceSnapshot, investment: real, dlmmIsSell: bool)
    requires bins != [] && dlmm.feeBps <= 10000 && other.bins == [] && Priceable(other)
    requires dlmm.quoteDecimals == 9 && other.quoteDecimals == 9
    ensures Priceable(Refreshed(dlmm, bins))
    ensures var buy, sell := BuyPool(dlmm, bins, other, dlmmIsSell), SellPool(dlmm, bins, other, dlmmIsSell);
      var recheck, net := RecheckNet(cfg, bins, dlmm, other, investment, dlmmIsSell), ComputeArbAtInvestment(cfg, buy, sell, investment).1;
      && recheck <= net
      && (recheck == net <==> QuoteBack(cfg, buy, sell, investment) <= AbsoluteCap(cfg))
      && net - recheck == HeldBack(cfg, buy, sell, investment)
  {
    hide RecheckNet;
    hide ComputeArbAtInvestment;
    hide SellTokens;
    hide BuyTokens;
    hide CapOut;
    hide ShareCap;
    hide AbsoluteCap;
    hide NetOfBack;
    hide RawQuote;
    hide QuoteUnit;
    var buy, sell := BuyPool(dlmm, bins, other, dlmmIsSell), SellPool(dlmm, bins, other, dlmmIsSell);
    var raw := RawQuote(buy, investment);
    var back := SellTokens(sell, BuyTokens(buy, raw));
    if dlmmIsSell {
      RecheckSelling(cfg, bins, dlmm, other, investment);
      SameCap(cfg, dlmm, bins, LAMPORTS_PER_SOL, back);
    } else {
      RecheckBuying(cfg, bins, dlmm, other, investment);
    }
    EstimateTakenApart(cfg, buy, sell, investment);
    CapsApart(cfg, sell, back);
    var shared := Min(back, ShareCap(cfg, sell));
    assert QuoteBack(cfg, buy, sell, investment) == shared;
    NetGrows(cfg, Min(shared, AbsoluteCap(cfg)), shared, investment);
  }

  /** What the absolute limit holds back of the returns, in SOL. */
  ghost function HeldBack(cfg: ScannerConfig, buy: PoolPriceSnapshot, sell: PoolPriceSnapshot, investment: real): real
    requires Priceable(buy) && Priceable(sell)
  {
    Max(QuoteBack(cfg, buy, sell, investment) - AbsoluteCap(cfg), 0) as real / LAMPORTS_PER_SOL
  }

  lemma SameCap(cfg: ScannerConfig, dlmm: PoolPriceSnapshot, bins: seq<DlmmBin>, unit: real, back: nat)
    ensures CapOut(cfg, dlmm, unit, back) == CapOut(cfg, Refreshed(dlmm, bins), unit, back)
  {
  }

  /** The trade is re-checked at all. */
  ghost predicate Rechecked(scan: Scan, buy: PoolPriceSnapshot, sell: PoolPriceSnapshot, net: real) {
    && net >= scan.cfg.minProfitThresholdSol && !scan.cfg.skipReverify && !scan.grpcWarm
    && (sell.lbPair != "" || buy.lbPair != "")
  }

  /** A pool that has not moved passes its re-check exactly when the absolute limit holds back at most
      half the estimated net. */
  lemma UnchangedPoolIsConfirmedIff(scan: Scan, buy: PoolPriceSnapshot, sell: PoolPriceSnapshot, investment: real)
    requires Priceable(buy) && Priceable(sell) && buy.quoteDecimals == 9 && sell.quoteDecimals == 9
    requires if sell.lbPair != "" then buy.bins == [] && sell.bins != [] && scan.freshBins(sell.lbPair) == Some(sell.bins)
             else if buy.lbPair != "" then sell.bins == [] && buy.bins != [] && scan.freshBins(buy.lbPair) == Some(buy.bins)
             else true
    ensures var net := ComputeArbAtInvestment(scan.cfg, buy, sell, investment).1;
      Reverified(scan, buy, sell, investment, net)
      <==> !Rechecked(scan, buy, sell, net) || HeldBack(scan.cfg, buy, sell, investment) <= net / 2.0
  {
    hide ComputeArbAtInvestment;
    hide RecheckNet;
    hide HeldBack;
    hide QuoteBack;
    if sell.lbPair != "" {
      RecheckMatchesEstimate(scan.cfg, sell.bins, sell, buy, investment, true);
    } else if buy.lbPair != "" {
      RecheckMatchesEstimate(scan.cfg, buy.bins, buy, sell, investment, false);
    }
  }

  // ------------------------------------------------------------------
  // From the scan to the risk check
  // ------------------------------------------------------------------

  /** What the risk check reads of an opportunity. */
  function RiskTerms(o: Opportunity): Risk.Opportunity {
    Risk.Opportunity(o.investmentSol, o.netProfitSol)
  }

  /** Scanner and risk check share their profit threshold and their largest investment, so an
      opportunity the scan returns is refused by the breaker alone, except that a safety factor above 1
      also lets through nets below the threshold. */
  lemma ScannedPassesCheckIff(scan: Scan, buyVenue: Venue, sellVenue: Venue, risk: Risk.RiskConfig, s: Risk.RiskState, now: nat, today: int)
    requires ValidScan(scan) && PairOpportunity(scan, buyVenue, sellVenue).Some?
    requires risk.Valid() && Risk.Consistent(s, risk)
    requires risk.minProfitThresholdSol == scan.cfg.minProfitThresholdSol && risk.maxSingleInvestmentSol == scan.cfg.maxInvestmentSol
    ensures var o := PairOpportunity(scan, buyVenue, sellVenue).value;
      var passes := Risk.Check(s, RiskTerms(o), risk, now, today).1;
      && (passes <==> !Risk.Blocked(s, now) && o.netProfitSol >= risk.minProfitThresholdSol)
      && (0.0 < scan.cfg.profitSafetyFactor <= 1.0 ==> (passes <==> !Risk.Blocked(s, now)))
  {
    hide PairOpportunity;
    hide BuySide;
    hide SellSide;
    hide Sound;
    hide Risk.Check;
    OpportunitiesAreSound(scan, buyVenue, sellVenue);
    var o := PairOpportunity(scan, buyVenue, sellVenue).value;
    SoundIsSmall(scan, o, BuySide(scan, buyVenue).value, SellSide(scan, sellVenue).value);
    Risk.ProjectedLossNeverFires(s, RiskTerms(o), risk, now, today);
    if 0.0 < scan.cfg.profitSafetyFactor <= 1.0 {
      SafeNet(o.netProfitSol, scan.cfg.profitSafetyFactor, scan.cfg.minProfitThresholdSol);
    }
  }

  lemma SoundIsSmall(scan: Scan, o: Opportunity, buy: PoolPriceSnapshot, sell: PoolPriceSnapshot)
    requires ValidScan(scan) && ValidSnapshot(buy) && ValidSnapshot(sell) && Sound(scan, o, buy, sell)
    ensures o.investmentSol <= scan.cfg.maxInvestmentSol
    ensures scan.cfg.minProfitThresholdSol <= o.netProfitSol * scan.cfg.profitSafetyFactor
  {
    hide ComputeArbAtInvestment;
    hide CapArtifact;
    hide TvlSol;
  }

  lemma SafeNet(net: real, factor: real, threshold: real)
    requires 0.0 < factor <= 1.0 && 0.0 < threshold <= net * factor
    ensures threshold <= net
  {
    if net < 0.0 {
      NegativePart(net, factor);
    } else {
      RealMulMono(factor, 1.0, net);
    }
  }

  lemma NegativePart(x: real, k: real)
    requires x < 0.0 && 0.0 < k
    ensures x * k < 0.0
  {
    RealMulStrict(x, 0.0, k);
  }
}
