/** Machine integers, casts and the floor-division facts every pricing proof rests on. */
module Arith {

  const U32_LIMIT := 0x1_0000_0000
  const U64_LIMIT := 0x1_0000_0000_0000_0000
  const U128_LIMIT := 0x1_0000_0000_0000_0000_0000_0000_0000_0000
  const I32_LIMIT := 0x8000_0000
  const I64_LIMIT := 0x8000_0000_0000_0000

  const LAMPORTS_PER_SOL: real := 1_000_000_000.0

  type u8 = x: int | 0 <= x < 0x100
  type u16 = x: int | 0 <= x < 0x1_0000
  type u32 = x: int | 0 <= x < U32_LIMIT
  type u64 = x: int | 0 <= x < U64_LIMIT
  type i32 = x: int | -I32_LIMIT <= x < I32_LIMIT
  type i64 = x: int | -I64_LIMIT <= x < I64_LIMIT

  datatype Option<+T> = None | Some(value: T) {
    predicate IsFailure() { None? }
    function PropagateFailure<U>(): Option<U>
      requires None?
    {
      None
    }
    function Extract(): T
      requires Some?
    {
      value
    }
  }

  /** An integer cast to u64: the high bits are dropped. */
  function TruncateToU64(x: nat): u64 {
    x % U64_LIMIT
  }

  lemma TruncateIsExact(x: nat)
    requires x < U64_LIMIT
    ensures TruncateToU64(x) == x
  {
  }

  /** A floating-point value cast to u64: truncated, saturating at both ends. */
  function SaturateToU64(x: real): u64 {
    if x < 0.0 then 0 else if x.Floor >= U64_LIMIT then U64_LIMIT - 1 else x.Floor
  }

  /** A floating-point value cast to u128: truncated, saturating at both ends. */
  function SaturateToU128(x: real): nat {
    if x < 0.0 then 0 else if x.Floor >= U128_LIMIT then U128_LIMIT - 1 else x.Floor
  }

  function CheckedAdd(a: nat, b: nat): Option<nat> {
    if a + b < U128_LIMIT then Some(a + b) else None
  }

  function CheckedSub(a: nat, b: nat): Option<nat> {
    if b <= a then Some(a - b) else None
  }

  function CheckedMul(a: nat, b: nat): Option<nat> {
    if a * b < U128_LIMIT then Some(a * b) else None
  }

  function CheckedDiv(a: nat, b: nat): Option<nat> {
    if b == 0 then None else Some(a / b)
  }

  /** Floor of a * b / d: a part b / d of a, never more than a when b <= d. */
  function MulDiv(a: nat, b: nat, d: nat): (q: nat)
    requires 0 < d
    ensures b <= d ==> q <= a
  {
    DivNonNegative(a * b, d);
    MulDivAtMost(a, b, d);
    a * b / d
  }

  lemma MulDivAtMost(a: nat, b: nat, d: nat)
    requires 0 < d
    ensures b <= d ==> a * b / d <= a
  {
    if b <= d {
      MulMono(b, d, a);
      DivCharacter(a * b, d, a + 1);
      assert (a + 1) * d == d * a + d;
    }
  }

  function Min(a: int, b: int): int {
    if a <= b then a else b
  }

  function Max(a: int, b: int): int {
    if a <= b then b else a
  }

  function MinReal(a: real, b: real): real {
    if a <= b then a else b
  }

  function MaxReal(a: real, b: real): real {
    if a <= b then b else a
  }

  // ---- products ----

  lemma MulMono(a: int, b: int, c: int)
    requires a <= b && 0 <= c
    ensures a * c <= b * c
  {
    assert 0 <= (b - a) * c;
  }

  lemma MulStrict(a: int, b: int, c: int)
    requires a < b && 0 < c
    ensures a * c < b * c
  {
    assert 0 < (b - a) * c;
  }

  lemma MulBound(a: nat, b: nat, c: nat, d: nat)
    requires a <= c && b <= d
    ensures a * b <= c * d
  {
    MulMono(a, c, b);
    MulMono(b, d, c);
  }

  lemma MulBoundStrict(a: nat, b: nat, c: nat, d: nat)
    requires a < c && b < d
    ensures a * b < c * d
  {
    MulBound(a, b, c - 1, d - 1);
    assert (c - 1) * (d - 1) == c * d - c - d + 1;
  }

  lemma RealMulMono(a: real, b: real, c: real)
    requires a <= b && 0.0 <= c
    ensures a * c <= b * c && c * a <= c * b
  {
    assert 0.0 <= (b - a) * c;
    RealCommute(a, c);
    RealCommute(b, c);
  }

  lemma RealMulStrict(a: real, b: real, c: real)
    requires a < b && 0.0 < c
    ensures a * c < b * c && c * a < c * b
  {
    assert 0.0 < (b - a) * c;
    RealCommute(a, c);
    RealCommute(b, c);
  }

  lemma RealSameProduct(a: real, b: real, c: real)
    requires b == c
    ensures a * b == a * c
  {
  }

  lemma RealMulSign(a: real, b: real)
    requires 0.0 <= a && 0.0 <= b
    ensures 0.0 <= a * b
  {
  }

  lemma RealCommute(a: real, b: real)
    ensures a * b == b * a
  {
  }

  // ---- floor division ----

  lemma DivBounds(a: int, d: int)
    requires 0 < d
    ensures (a / d) * d <= a < (a / d) * d + d
  {
    assert a == (a / d) * d + a % d;
  }

  /** q <= a / d exactly when q * d <= a. */
  lemma DivCharacter(a: int, d: int, q: int)
    requires 0 < d
    ensures q <= a / d <==> q * d <= a
  {
    DivBounds(a, d);
    if q <= a / d {
      MulMono(q, a / d, d);
    } else {
      MulMono(a / d + 1, q, d);
      assert (a / d + 1) * d == (a / d) * d + d;
    }
  }

  lemma DivMono(a: int, b: int, d: int)
    requires 0 < d && a <= b
    ensures a / d <= b / d
  {
    DivBounds(a, d);
    DivCharacter(b, d, a / d);
  }

  lemma DivNonNegative(a: int, d: int)
    requires 0 < d && 0 <= a
    ensures 0 <= a / d
  {
    DivCharacter(a, d, 0);
  }

  /** The quotient determined by its bracket. */
  lemma DivUnique(a: int, d: int, q: int)
    requires 0 < d && q * d <= a < q * d + d
    ensures a / d == q
  {
    DivCharacter(a, d, q);
    DivCharacter(a, d, q + 1);
    assert (q + 1) * d == q * d + d;
  }

  /** Cancelling a common positive factor leaves the quotient unchanged. */
  lemma DivCancel(a: int, d: int, k: int)
    requires 0 < d && 0 < k
    ensures 0 < d * k && (a * k) / (d * k) == a / d
  {
    var q := a / d;
    DivBounds(a, d);
    assert 0 < d * k;
    MulMono(q * d, a, k);
    MulMono(a + 1, q * d + d, k);
    assert q * (d * k) == q * d * k;
    assert (q * d + d) * k == q * (d * k) + d * k;
    assert (a + 1) * k == a * k + k;
    DivUnique(a * k, d * k, q);
  }

  lemma RealDivBounds(a: int, d: int)
    requires 0 < d
    ensures (a / d) as real <= a as real / d as real < (a / d) as real + 1.0
  {
    DivBounds(a, d);
    var q := a / d;
    var x := a as real / d as real;
    assert x * d as real == a as real;
    assert (q * d) as real == q as real * d as real;
    if x < q as real {
      RealMulStrict(x, q as real, d as real);
    }
    if q as real + 1.0 <= x {
      RealMulMono(q as real + 1.0, x, d as real);
    }
  }

  /** x / d <= y whenever x <= y * d. */
  lemma RealDivLe(x: real, d: real, y: real)
    requires 0.0 < d && x <= y * d
    ensures x / d <= y
  {
    var q := x / d;
    assert q * d == x;
    if y < q {
      RealMulStrict(y, q, d);
    }
  }

  lemma RealDivGe(x: real, d: real, y: real)
    requires 0.0 < d && y * d <= x
    ensures y <= x / d
  {
    var q := x / d;
    assert q * d == x;
    if q < y {
      RealMulStrict(q, y, d);
    }
  }

  lemma RealDivMono(x: real, y: real, d: real)
    requires 0.0 < d && x <= y
    ensures x / d <= y / d
  {
    assert (y / d) * d == y;
    RealDivLe(x, d, y / d);
  }
}
