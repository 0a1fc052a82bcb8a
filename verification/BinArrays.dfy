/** Bin array accounts: the byte parser with its two strides, the window of arrays around the active
    bin, and the fetch that reads each array from the stream cache or from RPC. */
module BinArrays {
  import opened Arith
  import opened Dlmm
  import opened TickArrays

  const BINS_PER_ARRAY := 70
  const HEADER_SIZE := 56
  const AMOUNTS_SIZE := 16

  type bytes = seq<u8>

  // ------------------------------------------------------------------
  // Little-endian integers
  // ------------------------------------------------------------------

  function Pow256(n: nat): (p: nat)
    ensures 1 <= p
  {
    if n == 0 then 1 else 256 * Pow256(n - 1)
  }

  function FromLe(s: bytes): (x: nat)
    ensures x < Pow256(|s|)
  {
    if s == [] then 0 else s[0] + 256 * FromLe(s[1..])
  }

  function ToLe(x: nat, n: nat): (s: bytes)
    ensures |s| == n
  {
    if n == 0 then [] else [x % 256] + ToLe(x / 256, n - 1)
  }

  lemma {:induction false} LeRoundTrip(x: nat, n: nat)
    requires x < Pow256(n)
    ensures FromLe(ToLe(x, n)) == x
  {
    if n != 0 {
      LeRoundTrip(x / 256, n - 1);
      assert ToLe(x, n)[1..] == ToLe(x / 256, n - 1);
    }
  }

  lemma Pow256Of8()
    ensures Pow256(8) == U64_LIMIT
  {
    assert Pow256(4) == 0x1_0000_0000;
  }

  function U64FromLe(s: bytes): u64
    requires |s| == 8
  {
    Pow256Of8();
    FromLe(s)
  }

  /** Two's complement. */
  function I64FromLe(s: bytes): i64
    requires |s| == 8
  {
    var x := U64FromLe(s);
    if x < I64_LIMIT then x else x - U64_LIMIT
  }

  function I64ToLe(x: i64): (s: bytes)
    ensures |s| == 8
  {
    ToLe(if 0 <= x then x else x + U64_LIMIT, 8)
  }

  lemma I64RoundTrip(x: i64)
    ensures I64FromLe(I64ToLe(x)) == x
  {
    Pow256Of8();
    LeRoundTrip(if 0 <= x then x else x + U64_LIMIT, 8);
  }

  lemma U64RoundTrip(x: u64)
    ensures U64FromLe(ToLe(x, 8)) == x
  {
    Pow256Of8();
    LeRoundTrip(x, 8);
  }

  // ------------------------------------------------------------------
  // The parser
  // ------------------------------------------------------------------

  function SaturateToI64(x: int): i64 {
    if x < -I64_LIMIT then -I64_LIMIT else if x >= I64_LIMIT then I64_LIMIT - 1 else x
  }

  /** The id of the i-th bin of an array: saturating 64-bit arithmetic, then a truncating cast. */
  function BinId(arrayIndex: i64, i: nat): i32 {
    WrapI32(SaturateToI64(SaturateToI64(arrayIndex * BINS_PER_ARRAY) + i))
  }

  /** Bytes per bin for a layout version; none for a version the parser does not know. */
  function Stride(version: u8): Option<nat> {
    if version == 1 then Some(128) else if version == 2 then Some(144) else None
  }

  function ArrayIndex(data: bytes): i64
    requires HEADER_SIZE <= |data|
  {
    I64FromLe(data[8..16])
  }

  function Offset(i: nat, stride: nat): nat {
    HEADER_SIZE + i * stride
  }

  predicate BinFits(size: nat, stride: nat, i: nat) {
    Offset(i, stride) + AMOUNTS_SIZE <= size
  }

  function BinAt(data: bytes, stride: nat, i: nat): DlmmBin
    requires HEADER_SIZE <= |data| && BinFits(|data|, stride, i)
  {
    var offset := Offset(i, stride);
    DlmmBin(BinId(ArrayIndex(data), i), U64FromLe(data[offset..offset + 8]), U64FromLe(data[offset + 8..offset + 16]), 0, 0)
  }

  /** The bins from the i-th on, up to the first whose amounts are cut off. */
  function BinsFrom(data: bytes, stride: nat, i: nat): seq<DlmmBin>
    requires HEADER_SIZE <= |data|
    decreases BINS_PER_ARRAY - i
  {
    if BINS_PER_ARRAY <= i || !BinFits(|data|, stride, i) then []
    else [BinAt(data, stride, i)] + BinsFrom(data, stride, i + 1)
  }

  function Parsed(data: bytes): seq<DlmmBin> {
    if |data| < HEADER_SIZE then []
    else
      match Stride(data[16])
      case None => []
      case Some(stride) => BinsFrom(data, stride, 0)
  }

  /** A growable list of bins that callers append to. */
  class BinVec {
    var bins: seq<DlmmBin>

    constructor ()
      ensures bins == []
    {
      bins := [];
    }
  }

  /** Appends the bins of one account to what the list already holds. */
  method ParseBinArrayData(bdata: bytes, out: BinVec)
    modifies out
    ensures out.bins == old(out.bins) + Parsed(bdata)
  {
    hide U64FromLe;
    hide I64FromLe;
    hide BinId;
    if |bdata| < HEADER_SIZE {
      return;
    }
    var arrIdx := I64FromLe(bdata[8..16]);
    var known := Stride(bdata[16]);
    if known.None? {
      return;
    }
    var stride := known.value;
    ghost var all := old(out.bins) + BinsFrom(bdata, stride, 0);
    var i: nat := 0;
    while i < BINS_PER_ARRAY
      invariant i <= BINS_PER_ARRAY
      invariant out.bins + BinsFrom(bdata, stride, i) == all
    {
      var offset := Offset(i, stride);
      if offset + AMOUNTS_SIZE > |bdata| {
        break;
      }
      var amountX := U64FromLe(bdata[offset..offset + 8]);
      var amountY := U64FromLe(bdata[offset + 8..offset + 16]);
      var binId := BinId(arrIdx, i);
      BinsStep(out.bins, bdata, stride, i);
      out.bins := out.bins + [DlmmBin(binId, amountX, amountY, 0, 0)];
      i := i + 1;
    }
  }

  lemma BinsStep(parsed: seq<DlmmBin>, data: bytes, stride: nat, i: nat)
    requires HEADER_SIZE <= |data| && i < BINS_PER_ARRAY && BinFits(|data|, stride, i)
    ensures parsed + BinsFrom(data, stride, i) == parsed + [BinAt(data, stride, i)] + BinsFrom(data, stride, i + 1)
  {
    hide BinAt;
  }

  /** The i-th id is the arithmetic one exactly when that fits 32 bits. */
  lemma BinIdExactIff(arrayIndex: i64, i: nat)
    requires i < BINS_PER_ARRAY
    ensures BinId(arrayIndex, i) == arrayIndex * BINS_PER_ARRAY + i
       <==> -I32_LIMIT <= arrayIndex * BINS_PER_ARRAY + i < I32_LIMIT
  {
  }

  /** How many bins an account of the given size yields. */
  function FitCount(size: nat, stride: nat): nat
    requires 0 < stride
  {
    if size < HEADER_SIZE + AMOUNTS_SIZE then 0
    else
      DivNonNegative(size - HEADER_SIZE - AMOUNTS_SIZE, stride);
      Min(BINS_PER_ARRAY, (size - HEADER_SIZE - AMOUNTS_SIZE) / stride + 1)
  }

  lemma FitCountCounts(size: nat, stride: nat, i: nat)
    requires 0 < stride
    ensures i < FitCount(size, stride) <==> i < BINS_PER_ARRAY && BinFits(size, stride, i)
  {
    if HEADER_SIZE + AMOUNTS_SIZE <= size {
      DivCharacter(size - HEADER_SIZE - AMOUNTS_SIZE, stride, i);
    } else {
      MulMono(0, i, stride);
    }
  }

  lemma {:induction false} BinsFromCount(data: bytes, stride: nat, i: nat)
    requires HEADER_SIZE <= |data| && 0 < stride && i <= FitCount(|data|, stride)
    ensures |BinsFrom(data, stride, i)| == FitCount(|data|, stride) - i
    decreases BINS_PER_ARRAY - i
  {
    hide BinAt;
    hide FitCount;
    hide BinFits;
    FitCountCounts(|data|, stride, i);
    if i < FitCount(|data|, stride) {
      BinsFromCount(data, stride, i + 1);
    }
  }

  lemma {:induction false} BinsFromAt(data: bytes, stride: nat, i: nat, k: nat)
    requires HEADER_SIZE <= |data| && 0 < stride && i <= k < FitCount(|data|, stride)
    ensures |BinsFrom(data, stride, i)| == FitCount(|data|, stride) - i
    ensures BinFits(|data|, stride, k) && BinsFrom(data, stride, i)[k - i] == BinAt(data, stride, k)
    decreases BINS_PER_ARRAY - i
  {
    hide BinAt;
    hide FitCount;
    hide BinFits;
    BinsFromCount(data, stride, i);
    FitCountCounts(|data|, stride, i);
    FitCountCounts(|data|, stride, k);
    if i < k {
      BinsFromAt(data, stride, i + 1, k);
    }
  }

  // ------------------------------------------------------------------
  // The account layout, and the parser against it
  // ------------------------------------------------------------------

  /** One bin as stored: its amounts and the bytes of the other fields. */
  datatype BinRecord = BinRecord(amountX: u64, amountY: u64, rest: bytes)

  datatype BinArray = BinArray(discriminator: bytes, index: i64, version: u8, padding: bytes, lbPair: bytes, records: seq<BinRecord>)

  ghost predicate WellFormed(a: BinArray) {
    && |a.discriminator| == 8 && |a.padding| == 7 && |a.lbPair| == 32
    && Stride(a.version).Some?
    && |a.records| == BINS_PER_ARRAY
    && (forall i :: 0 <= i < |a.records| ==> |a.records[i].rest| == Stride(a.version).value - AMOUNTS_SIZE)
  }

  function Header(a: BinArray): bytes {
    a.discriminator + I64ToLe(a.index) + [a.version] + a.padding + a.lbPair
  }

  function RecordBytes(r: BinRecord): bytes {
    ToLe(r.amountX, 8) + ToLe(r.amountY, 8) + r.rest
  }

  function Body(records: seq<BinRecord>): bytes {
    if records == [] then [] else RecordBytes(records[0]) + Body(records[1..])
  }

  function Serialise(a: BinArray): bytes {
    Header(a) + Body(a.records)
  }

  /** The bins an array stands for. */
  function BinsOf(a: BinArray): (bins: seq<DlmmBin>)
    ensures |bins| == |a.records|
    ensures forall i :: 0 <= i < |bins| ==> bins[i] == DlmmBin(BinId(a.index, i), a.records[i].amountX, a.records[i].amountY, 0, 0)
  {
    seq(|a.records|, i requires 0 <= i < |a.records| => DlmmBin(BinId(a.index, i), a.records[i].amountX, a.records[i].amountY, 0, 0))
  }

  lemma {:induction false} BodyAt(records: seq<BinRecord>, stride: nat, i: nat)
    requires AMOUNTS_SIZE <= stride && i < |records|
    requires forall j :: 0 <= j < |records| ==> |records[j].rest| == stride - AMOUNTS_SIZE
    ensures 0 <= i * stride && i * stride + stride <= |Body(records)| == |records| * stride
    ensures Body(records)[i * stride..i * stride + stride] == RecordBytes(records[i])
  {
    hide RecordBytes;
    BodySize(records, stride);
    BodySize(records[1..], stride);
    RecordSize(records[0], stride);
    MulMono(0, i, stride);
    if i == 0 {
      assert Body(records)[..stride] == RecordBytes(records[0]);
    } else {
      BodyAt(records[1..], stride, i - 1);
      assert i * stride == stride + (i - 1) * stride;
      SliceAfter(RecordBytes(records[0]), Body(records[1..]), (i - 1) * stride, (i - 1) * stride + stride);
    }
  }

  lemma {:induction false} BodySize(records: seq<BinRecord>, stride: nat)
    requires AMOUNTS_SIZE <= stride
    requires forall j :: 0 <= j < |records| ==> |records[j].rest| == stride - AMOUNTS_SIZE
    ensures |Body(records)| == |records| * stride
  {
    hide RecordBytes;
    if records != [] {
      RecordSize(records[0], stride);
      BodySize(records[1..], stride);
    }
  }

  lemma RecordSize(r: BinRecord, stride: nat)
    requires AMOUNTS_SIZE <= stride && |r.rest| == stride - AMOUNTS_SIZE
    ensures |RecordBytes(r)| == stride
  {
  }

  lemma SliceAfter(front: bytes, back: bytes, lo: nat, hi: nat)
    requires lo <= hi <= |back|
    ensures (front + back)[|front| + lo..|front| + hi] == back[lo..hi]
  {
  }

  /** Cutting an account behind a slice leaves the slice. */
  lemma SliceOfPrefix(data: bytes, n: nat, lo: nat, hi: nat)
    requires lo <= hi <= n <= |data|
    ensures data[..n][lo..hi] == data[lo..hi]
  {
  }

  lemma HeaderFields(a: BinArray, n: nat)
    requires WellFormed(a) && HEADER_SIZE <= n <= |Serialise(a)|
    ensures |Header(a)| == HEADER_SIZE
    ensures ArrayIndex(Serialise(a)[..n]) == a.index && Serialise(a)[..n][16] == a.version
  {
    hide I64ToLe;
    hide I64FromLe;
    SliceOfPrefix(Serialise(a), n, 8, 16);
    assert Serialise(a)[8..16] == Header(a)[8..16] == I64ToLe(a.index);
    I64RoundTrip(a.index);
  }

  lemma RecordAmounts(a: BinArray, n: nat, i: nat)
    requires WellFormed(a) && i < BINS_PER_ARRAY && n <= |Serialise(a)| && BinFits(n, Stride(a.version).value, i)
    ensures HEADER_SIZE <= n && BinAt(Serialise(a)[..n], Stride(a.version).value, i) == BinsOf(a)[i]
  {
    hide ToLe;
    hide U64FromLe;
    hide BinId;
    var stride := Stride(a.version).value;
    var data, offset := Serialise(a), Offset(i, stride);
    MulMono(0, i, stride);
    HeaderFields(a, n);
    BodyAt(a.records, stride, i);
    SliceAfter(Header(a), Body(a.records), i * stride, i * stride + stride);
    assert data[offset..offset + stride] == RecordBytes(a.records[i]);
    AmountSlices(data, n, offset, stride, a.records[i]);
    U64RoundTrip(a.records[i].amountX);
    U64RoundTrip(a.records[i].amountY);
  }

  lemma AmountSlices(data: bytes, n: nat, offset: nat, stride: nat, r: BinRecord)
    requires AMOUNTS_SIZE <= stride && offset + stride <= |data| && offset + AMOUNTS_SIZE <= n <= |data|
    requires data[offset..offset + stride] == RecordBytes(r)
    ensures data[..n][offset..offset + 8] == ToLe(r.amountX, 8)
    ensures data[..n][offset + 8..offset + 16] == ToLe(r.amountY, 8)
  {
    var slice := data[offset..offset + stride];
    SliceOfPrefix(data, n, offset, offset + 8);
    SliceOfPrefix(data, n, offset + 8, offset + 16);
    SliceOfSlice(data, offset, offset + stride, 0, 8);
    SliceOfSlice(data, offset, offset + stride, 8, 16);
    assert slice[0..8] == ToLe(r.amountX, 8);
    assert slice[8..16] == ToLe(r.amountY, 8);
  }

  lemma SliceOfSlice(data: bytes, lo: nat, hi: nat, a: nat, b: nat)
    requires lo <= hi <= |data| && a <= b <= hi - lo
    ensures data[lo..hi][a..b] == data[lo + a..lo + b]
  {
    var slice := data[lo..hi];
    assert forall i :: 0 <= i < b - a ==> slice[a..b][i] == slice[a + i] == data[lo + a + i] == data[lo + a..lo + b][i];
  }

  /** An account cut off anywhere yields exactly the bins whose amounts are inside, whatever the
      layout version; the whole account yields all 70. */
  lemma TruncatedAccountYieldsPrefix(a: BinArray, n: nat)
    requires WellFormed(a) && n <= |Serialise(a)|
    ensures FitCount(n, Stride(a.version).value) <= BINS_PER_ARRAY
    ensures Parsed(Serialise(a)[..n]) == BinsOf(a)[..FitCount(n, Stride(a.version).value)]
    ensures n == |Serialise(a)| ==> Parsed(Serialise(a)) == BinsOf(a)
  {
    hide BinAt;
    hide BinsFrom;
    hide ArrayIndex;
    hide BinsOf;
    hide Serialise;
    var stride := Stride(a.version).value;
    var data := Serialise(a)[..n];
    if n < HEADER_SIZE {
      assert FitCount(n, stride) == 0;
      FullSize(a);
    } else {
      HeaderFields(a, n);
      BinsFromCount(data, stride, 0);
      forall k: nat | k < FitCount(n, stride)
        ensures Parsed(data)[k] == BinsOf(a)[k]
      {
        FitCountCounts(n, stride, k);
        BinsFromAt(data, stride, 0, k);
        RecordAmounts(a, n, k);
      }
      FullSize(a);
      if n == |Serialise(a)| {
        assert data == Serialise(a);
        FitCountCounts(n, stride, BINS_PER_ARRAY - 1);
      }
    }
  }

  lemma FullSize(a: BinArray)
    requires WellFormed(a)
    ensures |Serialise(a)| == HEADER_SIZE + BINS_PER_ARRAY * Stride(a.version).value
  {
    BodySize(a.records, Stride(a.version).value);
  }

  // ------------------------------------------------------------------
  // The window of arrays around the active bin
  // ------------------------------------------------------------------

  /** The middle array of the window: machine division of the active id. */
  function Centre(activeId: i32): int {
    TruncDiv(activeId, BINS_PER_ARRAY)
  }

  function Window(activeId: i32, radius: nat): (w: seq<int>)
    ensures |w| == 2 * radius + 1
    ensures forall k :: 0 <= k < |w| ==> w[k] == Centre(activeId) - radius + k
  {
    seq(2 * radius + 1, k requires 0 <= k < 2 * radius + 1 => Centre(activeId) - radius + k)
  }

  /** The array a bin id belongs to, by floor division. */
  function ArrayOf(binId: int): int {
    binId / BINS_PER_ARRAY
  }

  /** The window always holds the active bin's own array. That array is the middle one exactly for
      the ids where machine division and floor division agree; for every other id it is one below
      the middle. */
  lemma WindowHoldsActive(activeId: i32, radius: nat)
    requires 1 <= radius
    ensures ArrayOf(activeId) in Window(activeId, radius)
    ensures ArrayOf(activeId) == Centre(activeId) <==> 0 <= activeId || activeId % BINS_PER_ARRAY == 0
    ensures ArrayOf(activeId) == Centre(activeId) || ArrayOf(activeId) == Centre(activeId) - 1
  {
    var t := Centre(activeId);
    assert ArrayOf(activeId) == t || ArrayOf(activeId) == t - 1;
    var w := Window(activeId, radius);
    assert w[radius] == t && w[radius - 1] == t - 1;
  }

  /** The bins of several accounts, one after the other. */
  function ParsedAll(accounts: seq<bytes>): seq<DlmmBin> {
    if accounts == [] then [] else Parsed(accounts[0]) + ParsedAll(accounts[1..])
  }

  /** Every id the window spans fits 32 bits. */
  ghost predicate WindowFits(first: int, count: nat) {
    -I32_LIMIT <= first * BINS_PER_ARRAY && (first + count) * BINS_PER_ARRAY <= I32_LIMIT
  }

  lemma {:induction false} FullArraysAt(arrays: seq<BinArray>, j: nat, i: nat)
    requires forall l :: 0 <= l < |arrays| ==> WellFormed(arrays[l])
    requires j < |arrays| && i < BINS_PER_ARRAY
    ensures |ParsedAll(Accounts(arrays))| == BINS_PER_ARRAY * |arrays|
    ensures ParsedAll(Accounts(arrays))[BINS_PER_ARRAY * j + i].binId == BinId(arrays[j].index, i)
  {
    hide Parsed;
    hide WellFormed;
    hide BinId;
    FullArraysSize(arrays);
    assert Accounts(arrays)[1..] == Accounts(arrays[1..]);
    OneFullArray(arrays[0]);
    if 0 < j {
      FullArraysAt(arrays[1..], j - 1, i);
      assert arrays[1..][j - 1] == arrays[j];
    }
  }

  lemma OneFullArray(a: BinArray)
    requires WellFormed(a)
    ensures Parsed(Serialise(a)) == BinsOf(a) && |BinsOf(a)| == BINS_PER_ARRAY
  {
    TruncatedAccountYieldsPrefix(a, |Serialise(a)|);
  }

  lemma {:induction false} FullArraysSize(arrays: seq<BinArray>)
    requires forall j :: 0 <= j < |arrays| ==> WellFormed(arrays[j])
    ensures |ParsedAll(Accounts(arrays))| == BINS_PER_ARRAY * |arrays|
  {
    hide Parsed;
    hide BinsOf;
    hide WellFormed;
    if arrays != [] {
      OneFullArray(arrays[0]);
      assert Accounts(arrays)[1..] == Accounts(arrays[1..]);
      FullArraysSize(arrays[1..]);
    }
  }

  function Accounts(arrays: seq<BinArray>): (accounts: seq<bytes>)
    ensures |accounts| == |arrays|
    ensures forall j :: 0 <= j < |arrays| ==> accounts[j] == Serialise(arrays[j])
  {
    seq(|arrays|, j requires 0 <= j < |arrays| => Serialise(arrays[j]))
  }

  /** Parsing full arrays for a whole window lists each id it spans exactly once, in order, exactly
      when those ids fit 32 bits. */
  lemma WindowYieldsEachIdOnce(activeId: i32, radius: nat, arrays: seq<BinArray>)
    requires |arrays| == 2 * radius + 1
    requires forall j :: 0 <= j < |arrays| ==> WellFormed(arrays[j]) && arrays[j].index == Window(activeId, radius)[j]
    ensures var bins, first := ParsedAll(Accounts(arrays)), Centre(activeId) - radius;
      && |bins| == BINS_PER_ARRAY * |arrays|
      && ((forall k :: 0 <= k < |bins| ==> bins[k].binId == first * BINS_PER_ARRAY + k) <==> WindowFits(first, |arrays|))
  {
    hide Parsed;
    hide WellFormed;
    hide BinId;
    hide Centre;
    var bins, first := ParsedAll(Accounts(arrays)), Centre(activeId) - radius;
    FullArraysSize(arrays);
    forall k: nat | k < |bins|
      ensures bins[k].binId == BinId(arrays[k / BINS_PER_ARRAY].index, k % BINS_PER_ARRAY)
      ensures bins[k].binId == first * BINS_PER_ARRAY + k <==> -I32_LIMIT <= first * BINS_PER_ARRAY + k < I32_LIMIT
    {
      var j := k / BINS_PER_ARRAY;
      FullArraysAt(arrays, j, k % BINS_PER_ARRAY);
      BinIdExactIff(arrays[j].index, k % BINS_PER_ARRAY);
      assert arrays[j].index * BINS_PER_ARRAY + k % BINS_PER_ARRAY == first * BINS_PER_ARRAY + k;
    }
    var last := |bins| - 1;
    assert bins[0].binId == first * BINS_PER_ARRAY + 0 <==> -I32_LIMIT <= first * BINS_PER_ARRAY < I32_LIMIT;
    assert bins[last].binId == first * BINS_PER_ARRAY + last <==> -I32_LIMIT <= first * BINS_PER_ARRAY + last < I32_LIMIT;
  }
}
