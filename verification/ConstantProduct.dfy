/** The constant-product pricing forms: additive fee (PumpSwap), subtractive fee in parts per
    million (Raydium CPMM, Orca Whirlpool) and subtractive fee in basis points (the scanner). */
module ConstantProduct {
  import opened Arith

  const SWAP_FEE_DENOM := 1_000_000
  const CPMM_DEFAULT_TRADE_FEE_RATE := 2500

  // ------------------------------------------------------------------
  // Input that reaches the curve under each fee model
  // ------------------------------------------------------------------

  function AfterFeeAdditive(amount: nat, feeBps: nat): nat {
    amount * 10000 / (10000 + feeBps)
  }

  function AfterFeePpm(amount: nat, rate: nat): nat
    requires rate <= SWAP_FEE_DENOM
  {
    amount * (SWAP_FEE_DENOM - rate) / SWAP_FEE_DENOM
  }

  function AfterFeeBps(amount: nat, feeBps: nat): nat
    requires feeBps <= 10000
  {
    amount * (10000 - feeBps) / 10000
  }

  // ------------------------------------------------------------------
  // The curve, and each form over unbounded integers
  // ------------------------------------------------------------------

  /** Output for an input `eff` that already had its fee taken; 0 on an empty pool and no input. */
  function CurveOut(reserveIn: nat, reserveOut: nat, eff: nat): (out: nat)
    ensures out <= reserveOut
  {
    if reserveIn + eff == 0 then 0 else MulDiv(reserveOut, eff, reserveIn + eff)
  }

  function AdditiveOut(reserveIn: nat, reserveOut: nat, amount: nat, feeBps: nat): nat {
    CurveOut(reserveIn, reserveOut, AfterFeeAdditive(amount, feeBps))
  }

  function PpmOut(reserveIn: nat, reserveOut: nat, amount: nat, rate: nat): nat
    requires rate <= SWAP_FEE_DENOM
  {
    CurveOut(reserveIn, reserveOut, AfterFeePpm(amount, rate))
  }

  function BpsOut(reserveIn: nat, reserveOut: nat, amount: nat, feeBps: nat): nat
    requires feeBps <= 10000
  {
    CurveOut(reserveIn, reserveOut, AfterFeeBps(amount, feeBps))
  }

  // ------------------------------------------------------------------
  // The machine-integer estimators
  // ------------------------------------------------------------------

  /** Unchecked additive-fee estimate, with its final cast to u64. */
  function EstimateSwapOutput(inputVault: u64, outputVault: u64, amountIn: u64, feeBps: u32): u64 {
    var afterFee := MulDiv(amountIn, 10000, 10000 + feeBps);
    var denom := inputVault + afterFee;
    if denom == 0 then 0 else TruncateToU64(MulDiv(outputVault, afterFee, denom))
  }

  /** Checked additive-fee estimate: every u128 operation may fail. */
  function CheckedEstimateSwapOutput(inputVault: u64, outputVault: u64, amountIn: u64, feeBps: u32): Option<u64> {
    if amountIn == 0 then Some(0) else
    var denom :- CheckedAdd(10000, feeBps);
    var num :- CheckedMul(amountIn, 10000);
    var effective :- CheckedDiv(num, denom);
    if effective == 0 then None else
    var numerator :- CheckedMul(outputVault, effective);
    var denominator :- CheckedAdd(inputVault, effective);
    if denominator == 0 then None else
    var out :- CheckedDiv(numerator, denominator);
    if out == 0 then None else Some(TruncateToU64(out))
  }

  /** Checked subtractive-fee estimate: every u128 operation may fail. */
  function CheckedCpSwapOutput(reserveIn: u64, reserveOut: u64, amountIn: u64, feeRate: u64): Option<u64> {
    if amountIn == 0 || reserveOut == 0 then Some(0) else
    var product :- CheckedSub(SWAP_FEE_DENOM, feeRate);
    var numerator :- CheckedMul(amountIn, product);
    var amountAfter :- CheckedDiv(numerator, SWAP_FEE_DENOM);
    if amountAfter == 0 then None else
    var num :- CheckedMul(reserveOut, amountAfter);
    var den :- CheckedAdd(reserveIn, amountAfter);
    if den == 0 then None else
    var out :- CheckedDiv(num, den);
    if out == 0 then None else Some(TruncateToU64(out))
  }

  /** PumpSwap buy: quote (SOL) goes in, base (tokens) comes out. */
  function CheckedPumpswapBuyOutput(quoteIn: u64, quoteReserves: u64, baseReserves: u64, feeBps: u32): Option<u64> {
    CheckedEstimateSwapOutput(quoteReserves, baseReserves, quoteIn, feeBps)
  }

  /** PumpSwap sell: base (tokens) goes in, quote (SOL) comes out. */
  function CheckedPumpswapSellOutput(baseIn: u64, baseReserves: u64, quoteReserves: u64, feeBps: u32): Option<u64> {
    CheckedEstimateSwapOutput(baseReserves, quoteReserves, baseIn, feeBps)
  }

  // ------------------------------------------------------------------
  // Facts about the fee models
  // ------------------------------------------------------------------

  lemma AfterFeeAdditiveBounds(amount: nat, feeBps: nat)
    ensures AfterFeeAdditive(amount, feeBps) <= amount
  {
    MulMono(10000, 10000 + feeBps, amount);
    DivCharacter(amount * 10000, 10000 + feeBps, amount + 1);
    assert (amount + 1) * (10000 + feeBps) == amount * (10000 + feeBps) + 10000 + feeBps;
  }

  lemma AfterFeePpmBounds(amount: nat, rate: nat)
    requires rate <= SWAP_FEE_DENOM
    ensures AfterFeePpm(amount, rate) <= amount
  {
    MulMono(SWAP_FEE_DENOM - rate, SWAP_FEE_DENOM, amount);
    DivMono(amount * (SWAP_FEE_DENOM - rate), amount * SWAP_FEE_DENOM, SWAP_FEE_DENOM);
  }

  lemma AfterFeeBpsBounds(amount: nat, feeBps: nat)
    requires feeBps <= 10000
    ensures AfterFeeBps(amount, feeBps) <= amount
  {
    MulMono(10000 - feeBps, 10000, amount);
    DivMono(amount * (10000 - feeBps), amount * 10000, 10000);
  }

  lemma AfterFeeAdditiveOrder(a: nat, b: nat, f: nat, g: nat)
    requires a <= b && f <= g
    ensures AfterFeeAdditive(a, g) <= AfterFeeAdditive(b, f)
  {
    var q := AfterFeeAdditive(a, g);
    DivBounds(a * 10000, 10000 + g);
    MulMono(10000 + f, 10000 + g, q);
    DivCharacter(b * 10000, 10000 + f, q);
  }

  lemma AfterFeePpmOrder(a: nat, b: nat, f: nat, g: nat)
    requires a <= b && f <= g <= SWAP_FEE_DENOM
    ensures AfterFeePpm(a, g) <= AfterFeePpm(b, f)
  {
    MulBound(a, SWAP_FEE_DENOM - g, b, SWAP_FEE_DENOM - f);
    DivMono(a * (SWAP_FEE_DENOM - g), b * (SWAP_FEE_DENOM - f), SWAP_FEE_DENOM);
  }

  lemma AfterFeeBpsOrder(a: nat, b: nat, f: nat, g: nat)
    requires a <= b && f <= g <= 10000
    ensures AfterFeeBps(a, g) <= AfterFeeBps(b, f)
  {
    MulBound(a, 10000 - g, b, 10000 - f);
    DivMono(a * (10000 - g), b * (10000 - f), 10000);
  }

  // ------------------------------------------------------------------
  // Facts about the curve
  // ------------------------------------------------------------------

  /** The output is exactly the largest amount whose removal keeps the product of the reserves:
      k can be taken out if and only if the product does not drop. */
  lemma CurveOutIsLargestSafe(ri: nat, ro: nat, eff: nat, k: int)
    requires 0 < ri + eff
    ensures k <= CurveOut(ri, ro, eff) <==> (ri + eff) * (ro - k) >= ri * ro
  {
    DivCharacter(ro * eff, ri + eff, k);
    assert (ri + eff) * (ro - k) == ri * ro + ro * eff - k * (ri + eff);
  }

  /** The product never drops, and a pool with input-side reserves is never emptied. */
  lemma CurveKeepsProduct(ri: nat, ro: nat, eff: nat)
    ensures CurveOut(ri, ro, eff) <= ro
    ensures (ri + eff) * (ro - CurveOut(ri, ro, eff)) >= ri * ro
    ensures 0 < ri && 0 < ro ==> CurveOut(ri, ro, eff) < ro
  {
    if 0 < ri + eff {
      CurveOutIsLargestSafe(ri, ro, eff, CurveOut(ri, ro, eff));
      CurveOutIsLargestSafe(ri, ro, eff, ro + 1);
      assert (ri + eff) * (ro - (ro + 1)) == -(ri + eff);
      assert 0 <= ri * ro;
      CurveOutIsLargestSafe(ri, ro, eff, ro);
      assert (ri + eff) * (ro - ro) == 0;
      if 0 < ri && 0 < ro {
        MulMono(1, ri, ro);
      }
    }
  }

  lemma CurveMonotone(ri: nat, ro: nat, e1: nat, e2: nat)
    requires e1 <= e2
    ensures CurveOut(ri, ro, e1) <= CurveOut(ri, ro, e2)
  {
    CurveKeepsProduct(ri, ro, e1);
    if 0 < ri + e1 {
      var k := CurveOut(ri, ro, e1);
      MulMono(ri + e1, ri + e2, ro - k);
      CurveOutIsLargestSafe(ri, ro, e2, k);
    }
  }

  /** Selling no more than the output back into the updated pool, whatever part of the input
      beyond the fee-free one the pool kept, never returns more than the pool kept. */
  lemma CurveRoundTrip(ri: nat, ro: nat, eff: nat, kept: nat, eff2: nat)
    requires 0 < ri && 0 < ro && eff <= kept
    requires eff2 <= CurveOut(ri, ro, eff)
    ensures CurveOut(ro - CurveOut(ri, ro, eff), ri + kept, eff2) <= kept
  {
    var out := CurveOut(ri, ro, eff);
    CurveKeepsProduct(ri, ro, eff);
    CurveMonotone(ro - out, ri + kept, eff2, out);
    MulMono(ri + eff, ri + kept, ro - out);
    SellBackBound(ro - out, out, ri, kept);
  }

  /** The product bound behind the round trip: from reserves (left, ri + kept), putting `out` back
      takes at most `kept` as soon as left * (ri + kept) covers the original product. */
  lemma SellBackBound(left: nat, out: nat, ri: nat, kept: nat)
    requires 0 < left && ri * (left + out) <= (ri + kept) * left
    ensures CurveOut(left, ri + kept, out) <= kept
  {
    hide CurveOut;
    CurveOutIsLargestSafe(left, ri + kept, out, kept + 1);
    OneShort(left + out, ri);
    Commute(left, ri + kept);
    assert ri + kept - (kept + 1) == ri - 1;
  }

  lemma OneShort(a: int, b: int)
    ensures a * (b - 1) == b * a - a
  {
  }

  lemma Commute(a: int, b: int)
    ensures a * b == b * a
  {
  }

  // ------------------------------------------------------------------
  // The three forms: product, monotonicity, fee, round trip
  // ------------------------------------------------------------------

  lemma AdditiveFormLaws(ri: nat, ro: nat, a: nat, b: nat, f: nat, g: nat)
    requires a <= b && f <= g
    ensures AdditiveOut(ri, ro, a, g) <= AdditiveOut(ri, ro, b, f)
    ensures (ri + AfterFeeAdditive(a, f)) * (ro - AdditiveOut(ri, ro, a, f)) >= ri * ro
    ensures AdditiveOut(ri, ro, a, f) <= ro && (0 < ri && 0 < ro ==> AdditiveOut(ri, ro, a, f) < ro)
  {
    AfterFeeAdditiveOrder(a, b, f, g);
    CurveMonotone(ri, ro, AfterFeeAdditive(a, g), AfterFeeAdditive(b, f));
    CurveKeepsProduct(ri, ro, AfterFeeAdditive(a, f));
  }

  lemma PpmFormLaws(ri: nat, ro: nat, a: nat, b: nat, f: nat, g: nat)
    requires a <= b && f <= g <= SWAP_FEE_DENOM
    ensures PpmOut(ri, ro, a, g) <= PpmOut(ri, ro, b, f)
    ensures (ri + AfterFeePpm(a, f)) * (ro - PpmOut(ri, ro, a, f)) >= ri * ro
    ensures PpmOut(ri, ro, a, f) <= ro && (0 < ri && 0 < ro ==> PpmOut(ri, ro, a, f) < ro)
  {
    AfterFeePpmOrder(a, b, f, g);
    CurveMonotone(ri, ro, AfterFeePpm(a, g), AfterFeePpm(b, f));
    CurveKeepsProduct(ri, ro, AfterFeePpm(a, f));
  }

  lemma BpsFormLaws(ri: nat, ro: nat, a: nat, b: nat, f: nat, g: nat)
    requires a <= b && f <= g <= 10000
    ensures BpsOut(ri, ro, a, g) <= BpsOut(ri, ro, b, f)
    ensures (ri + AfterFeeBps(a, f)) * (ro - BpsOut(ri, ro, a, f)) >= ri * ro
    ensures BpsOut(ri, ro, a, f) <= ro && (0 < ri && 0 < ro ==> BpsOut(ri, ro, a, f) < ro)
  {
    AfterFeeBpsOrder(a, b, f, g);
    CurveMonotone(ri, ro, AfterFeeBps(a, g), AfterFeeBps(b, f));
    CurveKeepsProduct(ri, ro, AfterFeeBps(a, f));
  }

  /** Buying with the additive form and selling everything back returns at most the amount put
      in, whether the pool keeps the fee or not. */
  lemma AdditiveRoundTrip(ri: nat, ro: nat, amount: nat, kept: nat, f: nat, g: nat)
    requires 0 < ri && 0 < ro && AfterFeeAdditive(amount, f) <= kept <= amount
    ensures AdditiveOut(ri, ro, amount, f) <= ro
    ensures AdditiveOut(ro - AdditiveOut(ri, ro, amount, f), ri + kept, AdditiveOut(ri, ro, amount, f), g) <= kept <= amount
  {
    var out := AdditiveOut(ri, ro, amount, f);
    AdditiveFormLaws(ri, ro, amount, amount, f, f);
    AfterFeeAdditiveBounds(out, g);
    CurveRoundTrip(ri, ro, AfterFeeAdditive(amount, f), kept, AfterFeeAdditive(out, g));
  }

  lemma PpmRoundTrip(ri: nat, ro: nat, amount: nat, kept: nat, f: nat, g: nat)
    requires 0 < ri && 0 < ro && f <= SWAP_FEE_DENOM && g <= SWAP_FEE_DENOM
    requires AfterFeePpm(amount, f) <= kept <= amount
    ensures PpmOut(ri, ro, amount, f) <= ro
    ensures PpmOut(ro - PpmOut(ri, ro, amount, f), ri + kept, PpmOut(ri, ro, amount, f), g) <= kept <= amount
  {
    var out := PpmOut(ri, ro, amount, f);
    PpmFormLaws(ri, ro, amount, amount, f, f);
    AfterFeePpmBounds(out, g);
    CurveRoundTrip(ri, ro, AfterFeePpm(amount, f), kept, AfterFeePpm(out, g));
  }

  // ------------------------------------------------------------------
  // The machine estimators refine the forms
  // ------------------------------------------------------------------

  lemma CurveFitsMachine(ri: u64, ro: u64, eff: nat)
    requires eff < U64_LIMIT
    ensures ro * eff < U128_LIMIT && ri + eff < U128_LIMIT
    ensures TruncateToU64(CurveOut(ri, ro, eff)) == CurveOut(ri, ro, eff)
  {
    MulBoundStrict(ro, eff, U64_LIMIT, U64_LIMIT);
    CurveKeepsProduct(ri, ro, eff);
  }

  /** The unchecked estimate never loses bits in its cast. */
  lemma EstimateIsExact(ri: u64, ro: u64, amountIn: u64, feeBps: u32)
    ensures EstimateSwapOutput(ri, ro, amountIn, feeBps) == AdditiveOut(ri, ro, amountIn, feeBps)
  {
    AfterFeeAdditiveBounds(amountIn, feeBps);
    CurveFitsMachine(ri, ro, AfterFeeAdditive(amountIn, feeBps));
  }

  /** The checked estimate refines the unchecked one: it never overflows, Some(v) carries the
      unchecked value, and None means exactly a positive input whose unchecked output is 0. */
  lemma CheckedRefinesUnchecked(ri: u64, ro: u64, amountIn: u64, feeBps: u32)
    ensures CheckedEstimateSwapOutput(ri, ro, amountIn, feeBps)
         == if 0 < amountIn && EstimateSwapOutput(ri, ro, amountIn, feeBps) == 0 then None
            else Some(EstimateSwapOutput(ri, ro, amountIn, feeBps))
  {
    EstimateIsExact(ri, ro, amountIn, feeBps);
    var eff := AfterFeeAdditive(amountIn, feeBps);
    AfterFeeAdditiveBounds(amountIn, feeBps);
    CurveFitsMachine(ri, ro, eff);
    if amountIn != 0 {
      assert CheckedMul(amountIn, 10000) == Some(amountIn * 10000);
      if eff == 0 {
        assert ro * eff == 0;
      }
    }
  }

  /** The checked subtractive form: no overflow, no lossy cast, and None exactly for a fee above
      100% or a positive trade against a non-empty side that rounds to nothing. */
  lemma CheckedCpRefinesPpm(ri: u64, ro: u64, amountIn: u64, feeRate: u64)
    ensures CheckedCpSwapOutput(ri, ro, amountIn, feeRate)
         == if amountIn == 0 || ro == 0 then Some(0)
            else if SWAP_FEE_DENOM < feeRate || PpmOut(ri, ro, amountIn, feeRate) == 0 then None
            else Some(PpmOut(ri, ro, amountIn, feeRate))
  {
    if amountIn != 0 && ro != 0 && feeRate <= SWAP_FEE_DENOM {
      var eff := AfterFeePpm(amountIn, feeRate);
      AfterFeePpmBounds(amountIn, feeRate);
      CurveFitsMachine(ri, ro, eff);
      MulBoundStrict(amountIn, SWAP_FEE_DENOM - feeRate, U64_LIMIT, SWAP_FEE_DENOM + 1);
      assert CheckedMul(amountIn, SWAP_FEE_DENOM - feeRate) == Some(amountIn * (SWAP_FEE_DENOM - feeRate));
      if eff == 0 {
        assert ro * eff == 0;
      }
    }
  }

  /** The scanner's basis-point form is the builder's form at 100 times the rate, and is never
      more optimistic than the additive form at the same fee. */
  lemma ScannerFormAgrees(ri: nat, ro: nat, amount: nat, feeBps: nat)
    requires feeBps <= 10000
    ensures BpsOut(ri, ro, amount, feeBps) == PpmOut(ri, ro, amount, 100 * feeBps)
    ensures BpsOut(ri, ro, amount, feeBps) <= AdditiveOut(ri, ro, amount, feeBps)
  {
    DivCancel(amount * (10000 - feeBps), 10000, 100);
    assert amount * (10000 - feeBps) * 100 == amount * (SWAP_FEE_DENOM - 100 * feeBps);
    // (10000 - f)(10000 + f) <= 10000 * 10000
    var q := AfterFeeBps(amount, feeBps);
    DivBounds(amount * (10000 - feeBps), 10000);
    MulMono(q * 10000, amount * (10000 - feeBps), 10000 + feeBps);
    assert (10000 - feeBps) * (10000 + feeBps) == 100_000_000 - feeBps * feeBps;
    assert amount * (10000 - feeBps) * (10000 + feeBps) == amount * (100_000_000 - feeBps * feeBps);
    MulMono(100_000_000 - feeBps * feeBps, 100_000_000, amount);
    assert q * 10000 * (10000 + feeBps) == (q * (10000 + feeBps)) * 10000;
    DivCharacter(amount * 10000, 10000 + feeBps, q);
    CurveMonotone(ri, ro, q, AfterFeeAdditive(amount, feeBps));
  }

  /** A PumpSwap buy followed by a PumpSwap sell of everything bought, on the pool the buy left
      behind, pays back at most the quote spent. Swapping the two reserves in either function
      would break this. */
  lemma PumpswapRoundTrip(quoteIn: u64, quote: u64, base: u64, feeBps: u32)
    requires 0 < quote && 0 < base && quote + quoteIn < U64_LIMIT
    ensures var buy := CheckedPumpswapBuyOutput(quoteIn, quote, base, feeBps);
            buy.Some? ==>
              && buy.value < base
              && (var sell := CheckedPumpswapSellOutput(buy.value, base - buy.value, quote + quoteIn, feeBps);
                  sell.Some? ==> sell.value <= quoteIn)
  {
    CheckedRefinesUnchecked(quote, base, quoteIn, feeBps);
    EstimateIsExact(quote, base, quoteIn, feeBps);
    var buy := CheckedPumpswapBuyOutput(quoteIn, quote, base, feeBps);
    if buy.Some? {
      AfterFeeAdditiveBounds(quoteIn, feeBps);
      AdditiveFormLaws(quote, base, quoteIn, quoteIn, feeBps, feeBps);
      AdditiveRoundTrip(quote, base, quoteIn, quoteIn, feeBps, feeBps);
      CheckedRefinesUnchecked(base - buy.value, quote + quoteIn, buy.value, feeBps);
      EstimateIsExact(base - buy.value, quote + quoteIn, buy.value, feeBps);
    }
  }
}
