/** Which Whirlpool tick arrays a swap route names: the one holding the current tick and the two
    after it. */
module TickArrays {
  import opened Arith

  const WHIRLPOOL_TICK_ARRAY_SIZE := 88

  /** Machine division: the quotient is rounded towards zero. */
  function TruncDiv(a: int, b: int): int
    requires b != 0
  {
    var magnitude := Magnitude(a) / Magnitude(b);
    if (a < 0) == (b < 0) then magnitude else -magnitude
  }

  function TruncRem(a: int, b: int): int
    requires b != 0
  {
    a - b * TruncDiv(a, b)
  }

  function Magnitude(a: int): nat {
    if a < 0 then -a else a
  }

  /** A 32-bit result: the value modulo 2^32, as a signed number. */
  function WrapI32(x: int): i32 {
    (x + I32_LIMIT) % U32_LIMIT - I32_LIMIT
  }

  /** Floor division from machine division; None where the machine division traps. */
  function FloorDivI32(a: i32, b: i32): Option<i32> {
    if b == 0 || (a == -I32_LIMIT && b == -1) then None
    else
      var d, r := TruncDiv(a, b), TruncRem(a, b);
      // the sign bit of a ^ b is set exactly when the signs differ
      Some(WrapI32(if r != 0 && (a < 0) != (b < 0) then d - 1 else d))
  }

  datatype TickArrayStarts = Fallback | Starts(first: i32, second: i32, third: i32)

  function DeriveTickArrays(tickCurrentIndex: i32, tickSpacing: u16): TickArrayStarts {
    var tickRange := tickSpacing * WHIRLPOOL_TICK_ARRAY_SIZE;
    if tickRange <= 0 then Fallback
    else
      var index := FloorDivI32(tickCurrentIndex, tickRange).value;
      var start := WrapI32(index * tickRange);
      Starts(start, WrapI32(start + tickRange), WrapI32(start + 2 * tickRange))
  }

  // ------------------------------------------------------------------
  // Floor division
  // ------------------------------------------------------------------

  lemma WrapIsExact(x: int)
    ensures WrapI32(x) == x <==> -I32_LIMIT <= x < I32_LIMIT
  {
  }

  lemma MagnitudeDivision(a: int, b: int)
    requires b != 0
    ensures var m := Magnitude(a) / Magnitude(b);
      && m * Magnitude(b) <= Magnitude(a) < m * Magnitude(b) + Magnitude(b)
      && 0 <= m <= Magnitude(a) && (2 <= Magnitude(b) ==> 2 * m <= Magnitude(a))
  {
    var x, y := Magnitude(a), Magnitude(b);
    DivBounds(x, y);
    DivNonNegative(x, y);
    MulMono(1, y, x / y);
    if 2 <= y {
      MulMono(2, y, x / y);
    }
  }

  /** The floor, bracketed: for either sign of the divisor. */
  ghost predicate IsFloor(a: int, b: int, q: int) {
    if 0 < b then q * b <= a < q * b + b else q * b + b < a <= q * b
  }

  lemma FloorBracket(a: int, b: int)
    requires b != 0
    ensures IsFloor(a, b, if TruncRem(a, b) != 0 && (a < 0) != (b < 0) then TruncDiv(a, b) - 1 else TruncDiv(a, b))
  {
    var m := Magnitude(a) / Magnitude(b);
    MagnitudeDivision(a, b);
    SignedProducts(m, b);
    if (a < 0) == (b < 0) {
      assert TruncDiv(a, b) == m;
    } else {
      assert TruncDiv(a, b) == -m;
    }
  }

  lemma SignedProducts(m: int, b: int)
    ensures m * (-b) == (-m) * b == b * (-m) == -(m * b) && b * m == m * b
    ensures (-m - 1) * b == -(m * b) - b
  {
  }

  lemma FloorIsRealFloor(a: int, b: int, q: int)
    requires b != 0 && IsFloor(a, b, q)
    ensures q == (a as real / b as real).Floor
  {
    var x, d := a as real / b as real, b as real;
    assert x * d == a as real;
    RealBracket(a, b, q * b);
    assert (q * b) as real == q as real * d;
    QuotientBracket(x, q as real, d, a as real, (q * b) as real);
  }

  lemma RealBracket(a: int, b: int, p: int)
    ensures p <= a < p + b ==> p as real <= a as real < p as real + b as real
    ensures p + b < a <= p ==> p as real + b as real < a as real <= p as real
  {
  }

  lemma QuotientBracket(x: real, q: real, d: real, n: real, p: real)
    requires x * d == n && q * d == p
    requires if 0.0 < d then p <= n < p + d else d < 0.0 && p + d < n <= p
    ensures q <= x < q + 1.0
  {
    var e := if 0.0 < d then d else -d;
    assert (q + 1.0) * d == q * d + d;
    assert x * (-d) == -(x * d) && q * (-d) == -(q * d) && (q + 1.0) * (-d) == -(q * d) - d;
    if x < q {
      RealMulStrict(x, q, e);
    }
    if q + 1.0 <= x {
      RealMulMono(q + 1.0, x, e);
    }
  }

  /** For every pair of 32-bit integers: no value exactly where the machine division traps, and the
      floor of the true quotient everywhere else, whatever the signs. */
  lemma FloorDivIsTrueFloor(a: i32, b: i32)
    ensures FloorDivI32(a, b).None? <==> b == 0 || (a == -I32_LIMIT && b == -1)
    ensures FloorDivI32(a, b).Some? ==> FloorDivI32(a, b).value == (a as real / b as real).Floor
  {
    if b != 0 && !(a == -I32_LIMIT && b == -1) {
      MagnitudeDivision(a, b);
      FloorBracket(a, b);
      var q := if TruncRem(a, b) != 0 && (a < 0) != (b < 0) then TruncDiv(a, b) - 1 else TruncDiv(a, b);
      QuotientFits(a, b);
      WrapIsExact(q);
      FloorIsRealFloor(a, b, q);
    }
  }

  lemma QuotientFits(a: i32, b: i32)
    requires b != 0 && !(a == -I32_LIMIT && b == -1)
    ensures var q := if TruncRem(a, b) != 0 && (a < 0) != (b < 0) then TruncDiv(a, b) - 1 else TruncDiv(a, b);
      -I32_LIMIT <= q < I32_LIMIT
  {
    MagnitudeDivision(a, b);
    if Magnitude(b) == 1 {
      DivUnique(Magnitude(a), 1, Magnitude(a));
    }
  }

  // ------------------------------------------------------------------
  // Tick arrays
  // ------------------------------------------------------------------

  /** The array starting at `start` holds the tick. */
  ghost predicate Holds(start: int, range: int, tick: int) {
    start <= tick < start + range
  }

  /** Three arrays on the protocol's grid: the first holds the current tick, and together they hold
      every tick from its start over three ranges exactly once. */
  ghost predicate Tiles(s: TickArrayStarts, range: int, tickCurrentIndex: int)
    requires s.Starts? && 0 < range
  {
    && s.first % range == 0
    && Holds(s.first, range, tickCurrentIndex)
    && (forall t :: Holds(s.first, 3 * range, t) <==> Holds(s.first, range, t) || Holds(s.second, range, t) || Holds(s.third, range, t))
    && (forall t :: !(Holds(s.first, range, t) && Holds(s.second, range, t)))
    && (forall t :: !(Holds(s.second, range, t) && Holds(s.third, range, t)))
    && (forall t :: !(Holds(s.first, range, t) && Holds(s.third, range, t)))
  }

  /** Where the grid of tick arrays of the given range has its last line at or below the tick. */
  function GridStart(tick: int, range: int): int
    requires 0 < range
  {
    tick - tick % range
  }

  lemma GridIsFloor(tick: i32, range: i32)
    requires 0 < range
    ensures FloorDivI32(tick, range).Some?
    ensures FloorDivI32(tick, range).value * range == GridStart(tick, range)
    ensures GridStart(tick, range) <= tick < GridStart(tick, range) + range && GridStart(tick, range) % range == 0
  {
    FloorBracket(tick, range);
    QuotientFits(tick, range);
    var q := if TruncRem(tick, range) != 0 && (tick < 0) != (range < 0) then TruncDiv(tick, range) - 1 else TruncDiv(tick, range);
    WrapIsExact(q);
    DivUnique(tick, range, q);
    assert tick == tick / range * range + tick % range;
    GridLine(q, range);
  }

  lemma GridLine(q: int, range: int)
    requires 0 < range
    ensures q * range % range == 0
  {
    DivUnique(q * range, range, q);
    assert q * range == q * range / range * range + q * range % range;
  }

  /** A pool without a tick spacing gets the fallback. For any other pool the three arrays tile the
      swap range exactly when no start leaves the 32-bit ticks. */
  lemma ArraysTileIff(tickCurrentIndex: i32, tickSpacing: u16)
    ensures DeriveTickArrays(tickCurrentIndex, tickSpacing).Fallback? <==> tickSpacing == 0
    ensures tickSpacing != 0 ==>
      var range := tickSpacing * WHIRLPOOL_TICK_ARRAY_SIZE;
      (Tiles(DeriveTickArrays(tickCurrentIndex, tickSpacing), range, tickCurrentIndex)
       <==> -I32_LIMIT <= GridStart(tickCurrentIndex, range) && GridStart(tickCurrentIndex, range) + 2 * range < I32_LIMIT)
  {
    if tickSpacing != 0 {
      var range := tickSpacing * WHIRLPOOL_TICK_ARRAY_SIZE;
      var grid := GridStart(tickCurrentIndex, range);
      GridIsFloor(tickCurrentIndex, range);
      var start := WrapI32(grid);
      assert DeriveTickArrays(tickCurrentIndex, tickSpacing)
          == Starts(start, WrapI32(start + range), WrapI32(start + 2 * range));
      WrappedStarts(grid, range, tickCurrentIndex);
    }
  }

  lemma WrappedStarts(grid: int, range: int, tick: i32)
    requires 0 < range <= 0xFFFF * WHIRLPOOL_TICK_ARRAY_SIZE && grid <= tick < grid + range && grid % range == 0
    ensures Tiles(Starts(WrapI32(grid), WrapI32(WrapI32(grid) + range), WrapI32(WrapI32(grid) + 2 * range)), range, tick)
       <==> -I32_LIMIT <= grid && grid + 2 * range < I32_LIMIT
  {
    hide Tiles;
    if -I32_LIMIT <= grid && grid + 2 * range < I32_LIMIT {
      WrapIsExact(grid);
      WrapIsExact(grid + range);
      WrapIsExact(grid + 2 * range);
      hide WrapI32;
      NeighboursTile(grid, range, tick);
    } else if grid < -I32_LIMIT {
      WrapsUp(grid);
      hide WrapI32;
      FirstMisses(Starts(WrapI32(grid), WrapI32(WrapI32(grid) + range), WrapI32(WrapI32(grid) + 2 * range)), range, tick);
    } else {
      WrapIsExact(grid);
      WrapsDown(grid + range);
      WrapsDown(grid + 2 * range);
      hide WrapI32;
      LastMissing(Starts(grid, WrapI32(grid + range), WrapI32(grid + 2 * range)), range, tick);
    }
  }

  lemma WrapsUp(x: int)
    requires -I32_LIMIT - U32_LIMIT <= x < -I32_LIMIT
    ensures WrapI32(x) == x + U32_LIMIT
  {
  }

  lemma WrapsDown(x: int)
    requires -I32_LIMIT <= x < I32_LIMIT + U32_LIMIT
    ensures WrapI32(x) == if x < I32_LIMIT then x else x - U32_LIMIT
  {
  }

  lemma NeighboursTile(grid: i32, range: int, tick: i32)
    requires 0 < range && grid <= tick < grid + range && grid % range == 0 && grid + 2 * range < I32_LIMIT
    ensures Tiles(Starts(grid, grid + range, grid + 2 * range), range, tick)
  {
  }

  lemma FirstMisses(s: TickArrayStarts, range: int, tick: int)
    requires s.Starts? && 0 < range && tick < s.first
    ensures !Tiles(s, range, tick)
  {
  }

  lemma LastMissing(s: TickArrayStarts, range: int, tick: int)
    requires s.Starts? && 0 < range && s.second <= s.first + range && s.third < s.first
    ensures !Tiles(s, range, tick)
  {
    var t := s.first + 2 * range;
    assert Holds(s.first, 3 * range, t);
    assert !Holds(s.first, range, t) && !Holds(s.second, range, t) && !Holds(s.third, range, t);
  }

  /** No start ever leaves the 32-bit ticks for a pool inside the protocol's tick bounds. */
  lemma ProtocolTicksAlwaysTile(tickCurrentIndex: i32, tickSpacing: u16)
    requires -443636 <= tickCurrentIndex <= 443636 && tickSpacing != 0
    ensures Tiles(DeriveTickArrays(tickCurrentIndex, tickSpacing), tickSpacing * WHIRLPOOL_TICK_ARRAY_SIZE, tickCurrentIndex)
  {
    ArraysTileIff(tickCurrentIndex, tickSpacing);
    GridIsFloor(tickCurrentIndex, tickSpacing * WHIRLPOOL_TICK_ARRAY_SIZE);
  }
}
