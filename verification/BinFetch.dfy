/** Fetching the bins around the active id: each array from the stream cache when its entry is
    recent, the others from RPC in one batch afterwards. */
module BinFetch {
  import opened Arith
  import opened Dlmm
  import opened BinArrays
  import opened TickArrays

  /** Account data as the stream last saw it, and the slot it saw it in. */
  datatype CacheEntry = CacheEntry(data: bytes, slot: u64)

  const FRESH_RADIUS := 1

  predicate Recent(entry: CacheEntry, latest: u64) {
    latest > 0 && Max(latest - entry.slot, 0) <= 2
  }

  predicate Hit(cache: map<int, CacheEntry>, latest: u64, index: int) {
    index in cache && Recent(cache[index], latest)
  }

  function Misses(window: seq<int>, cache: map<int, CacheEntry>, latest: u64): seq<int> {
    if window == [] then []
    else (if Hit(cache, latest, window[0]) then [] else [window[0]]) + Misses(window[1..], cache, latest)
  }

  /** The bins of the arrays the cache can serve, in window order. */
  function FromCache(window: seq<int>, cache: map<int, CacheEntry>, latest: u64): seq<DlmmBin> {
    if window == [] then []
    else (if Hit(cache, latest, window[0]) then Parsed(cache[window[0]].data) else []) + FromCache(window[1..], cache, latest)
  }

  /** The bins of the accounts that exist. */
  function FromAccounts(indices: seq<int>, accounts: map<int, bytes>): seq<DlmmBin> {
    if indices == [] then []
    else (if indices[0] in accounts then Parsed(accounts[indices[0]]) else []) + FromAccounts(indices[1..], accounts)
  }

  /** Cached arrays first, the rest after them; an RPC failure matters only if RPC is needed. */
  function Fetched(window: seq<int>, cache: map<int, CacheEntry>, latest: u64, rpc: Option<map<int, bytes>>): Option<seq<DlmmBin>> {
    var misses := Misses(window, cache, latest);
    if misses == [] then Some(FromCache(window, cache, latest))
    else
      match rpc
      case None => None
      case Some(accounts) => Some(FromCache(window, cache, latest) + FromAccounts(misses, accounts))
  }

  method FetchBinsFresh(activeId: i32, cache: map<int, CacheEntry>, latest: u64, rpc: Option<map<int, bytes>>)
    returns (fetched: Option<seq<DlmmBin>>)
    ensures fetched == Fetched(Window(activeId, FRESH_RADIUS), cache, latest, rpc)
  {
    hide Parsed;
    hide Hit;
    hide Window;
    hide FromCache;
    hide FromAccounts;
    hide Misses;
    var addresses := Window(activeId, FRESH_RADIUS);
    var bins := new BinVec();
    var rpcMiss: seq<int> := [];
    var i := 0;
    while i < |addresses|
      invariant 0 <= i <= |addresses|
      invariant bins.bins + FromCache(addresses[i..], cache, latest) == FromCache(addresses, cache, latest)
      invariant rpcMiss + Misses(addresses[i..], cache, latest) == Misses(addresses, cache, latest)
    {
      var addr := addresses[i];
      CacheStep(bins.bins, rpcMiss, addresses, i, cache, latest);
      if Hit(cache, latest, addr) {
        CachedEntry(cache, latest, addr);
        ParseBinArrayData(cache[addr].data, bins);
      } else {
        rpcMiss := rpcMiss + [addr];
      }
      i := i + 1;
    }
    NothingLeft(bins.bins, rpcMiss, addresses, i, cache, latest, map[]);
    if rpcMiss != [] {
      if rpc.None? {
        return None;
      }
      var accounts := rpc.value;
      ghost var hits := bins.bins;
      var j := 0;
      while j < |rpcMiss|
        invariant 0 <= j <= |rpcMiss|
        invariant bins.bins + FromAccounts(rpcMiss[j..], accounts) == hits + FromAccounts(rpcMiss, accounts)
      {
        AccountStep(bins.bins, rpcMiss, j, accounts);
        if rpcMiss[j] in accounts {
          ParseBinArrayData(accounts[rpcMiss[j]], bins);
        }
        j := j + 1;
      }
      NothingLeft(bins.bins, rpcMiss, rpcMiss, j, cache, latest, accounts);
    }
    return Some(bins.bins);
  }

  lemma NothingLeft(bins: seq<DlmmBin>, missed: seq<int>, indices: seq<int>, i: nat, cache: map<int, CacheEntry>, latest: u64, accounts: map<int, bytes>)
    requires i == |indices|
    ensures bins + FromCache(indices[i..], cache, latest) == bins + FromAccounts(indices[i..], accounts) == bins
    ensures missed + Misses(indices[i..], cache, latest) == missed
  {
    assert indices[i..] == [];
  }

  lemma CachedEntry(cache: map<int, CacheEntry>, latest: u64, index: int)
    requires Hit(cache, latest, index)
    ensures index in cache
  {
  }

  lemma CacheStep(bins: seq<DlmmBin>, missed: seq<int>, window: seq<int>, i: nat, cache: map<int, CacheEntry>, latest: u64)
    requires i < |window|
    ensures var rest := FromCache(window[i + 1..], cache, latest);
      bins + FromCache(window[i..], cache, latest)
      == if Hit(cache, latest, window[i]) then bins + Parsed(cache[window[i]].data) + rest else bins + rest
    ensures var rest := Misses(window[i + 1..], cache, latest);
      missed + Misses(window[i..], cache, latest)
      == if Hit(cache, latest, window[i]) then missed + rest else missed + [window[i]] + rest
  {
    hide Parsed;
    assert window[i..][0] == window[i] && window[i..][1..] == window[i + 1..];
  }

  lemma AccountStep(bins: seq<DlmmBin>, indices: seq<int>, j: nat, accounts: map<int, bytes>)
    requires j < |indices|
    ensures var rest := FromAccounts(indices[j + 1..], accounts);
      bins + FromAccounts(indices[j..], accounts)
      == if indices[j] in accounts then bins + Parsed(accounts[indices[j]]) + rest else bins + rest
  {
    hide Parsed;
    assert indices[j..][0] == indices[j] && indices[j..][1..] == indices[j + 1..];
  }

  // ------------------------------------------------------------------
  // The source of each array does not matter
  // ------------------------------------------------------------------

  /** Every cache entry recent enough to be used is the account's current data. */
  ghost predicate Reflects(cache: map<int, CacheEntry>, latest: u64, chain: map<int, bytes>) {
    forall index :: Hit(cache, latest, index) ==> index in chain && cache[index].data == chain[index]
  }

  /** Whatever the cache served, the bins are those of all the window's accounts. */
  lemma {:induction false} SplitByCache(window: seq<int>, cache: map<int, CacheEntry>, latest: u64, chain: map<int, bytes>)
    requires Reflects(cache, latest, chain)
    ensures multiset(FromCache(window, cache, latest)) + multiset(FromAccounts(Misses(window, cache, latest), chain))
         == multiset(FromAccounts(window, chain))
  {
    if window != [] {
      var index, rest := window[0], window[1..];
      SplitByCache(rest, cache, latest, chain);
      HeadOfWindow(window, cache, latest, chain);
      HeadOfAccounts(index, Misses(rest, cache, latest), chain);
      HeadOfAccounts(index, rest, chain);
      assert [index] + rest == window;
      hide FromCache;
      hide FromAccounts;
      hide Misses;
      hide Reflects;
      hide DataOf;
      Regroup(DataOf(chain, index), FromCache(rest, cache, latest), FromAccounts(Misses(rest, cache, latest), chain), FromAccounts(rest, chain));
    }
  }

  ghost function DataOf(chain: map<int, bytes>, index: int): seq<DlmmBin> {
    if index in chain then Parsed(chain[index]) else []
  }

  lemma HeadOfAccounts(index: int, rest: seq<int>, chain: map<int, bytes>)
    ensures FromAccounts([index] + rest, chain) == DataOf(chain, index) + FromAccounts(rest, chain)
  {
    hide Parsed;
    assert ([index] + rest)[1..] == rest;
  }

  lemma HeadOfWindow(window: seq<int>, cache: map<int, CacheEntry>, latest: u64, chain: map<int, bytes>)
    requires window != [] && Reflects(cache, latest, chain)
    ensures Hit(cache, latest, window[0]) ==>
      && FromCache(window, cache, latest) == DataOf(chain, window[0]) + FromCache(window[1..], cache, latest)
      && Misses(window, cache, latest) == Misses(window[1..], cache, latest)
    ensures !Hit(cache, latest, window[0]) ==>
      && FromCache(window, cache, latest) == FromCache(window[1..], cache, latest)
      && Misses(window, cache, latest) == [window[0]] + Misses(window[1..], cache, latest)
  {
    hide Parsed;
    HitIsCurrent(cache, latest, chain, window[0]);
  }

  lemma HitIsCurrent(cache: map<int, CacheEntry>, latest: u64, chain: map<int, bytes>, index: int)
    requires Reflects(cache, latest, chain)
    ensures Hit(cache, latest, index) ==> index in cache && index in chain && cache[index].data == chain[index]
  {
  }

  lemma Regroup(data: seq<DlmmBin>, cached: seq<DlmmBin>, fetched: seq<DlmmBin>, all: seq<DlmmBin>)
    requires multiset(cached) + multiset(fetched) == multiset(all)
    ensures multiset(data + cached) + multiset(fetched) == multiset(data + all)
    ensures multiset(cached) + multiset(data + fetched) == multiset(data + all)
  {
  }

  lemma FetchedIsWholeWindow(window: seq<int>, cache: map<int, CacheEntry>, latest: u64, chain: map<int, bytes>)
    requires Reflects(cache, latest, chain)
    ensures Fetched(window, cache, latest, Some(chain)).Some?
    ensures multiset(Fetched(window, cache, latest, Some(chain)).value) == multiset(FromAccounts(window, chain))
  {
    hide FromCache;
    hide Reflects;
    SplitByCache(window, cache, latest, chain);
    var misses := Misses(window, cache, latest);
    if misses == [] {
      assert multiset(FromAccounts(misses, chain)) == multiset{};
    }
  }

  // ------------------------------------------------------------------
  // Different arrays never share an id
  // ------------------------------------------------------------------

  /** Every account sits at the address of its own index. */
  ghost predicate Addressed(chain: map<int, bytes>) {
    forall index :: index in chain && HEADER_SIZE <= |chain[index]| ==> ArrayIndex(chain[index]) == index
  }

  /** b is bin k of array `index`. */
  ghost predicate Origin(chain: map<int, bytes>, index: int, k: nat, b: DlmmBin) {
    && index in chain && HEADER_SIZE <= |chain[index]| && k < BINS_PER_ARRAY
    && (match Stride(chain[index][16])
        case None => false
        case Some(stride) => BinFits(|chain[index]|, stride, k) && b == BinAt(chain[index], stride, k))
  }

  lemma {:induction false} BinsFromOrigin(data: bytes, stride: nat, i: nat, b: DlmmBin) returns (k: nat)
    requires HEADER_SIZE <= |data| && b in BinsFrom(data, stride, i)
    ensures k < BINS_PER_ARRAY && BinFits(|data|, stride, k) && b == BinAt(data, stride, k)
    decreases BINS_PER_ARRAY - i
  {
    hide BinAt;
    hide BinFits;
    if b == BinAt(data, stride, i) {
      k := i;
    } else {
      k := BinsFromOrigin(data, stride, i + 1, b);
    }
  }

  lemma ParsedOrigin(chain: map<int, bytes>, index: int, b: DlmmBin) returns (k: nat)
    requires index in chain && b in Parsed(chain[index])
    ensures Origin(chain, index, k, b)
  {
    hide BinAt;
    hide BinFits;
    hide BinsFrom;
    k := BinsFromOrigin(chain[index], Stride(chain[index][16]).value, 0, b);
  }

  lemma {:induction false} AccountsOrigin(window: seq<int>, chain: map<int, bytes>, b: DlmmBin) returns (index: int, k: nat)
    requires b in FromAccounts(window, chain)
    ensures index in window && Origin(chain, index, k, b)
  {
    hide Parsed;
    hide Origin;
    if window[0] in chain && b in Parsed(chain[window[0]]) {
      index := window[0];
      k := ParsedOrigin(chain, index, b);
    } else {
      index, k := AccountsOrigin(window[1..], chain, b);
    }
  }

  lemma OriginId(chain: map<int, bytes>, index: int, k: nat, b: DlmmBin)
    requires Addressed(chain) && Origin(chain, index, k, b)
    ensures -I64_LIMIT <= index < I64_LIMIT && b.binId == BinId(index, k)
  {
    hide BinId;
    hide ArrayIndex;
  }

  lemma IdDetermines(i: i64, k: nat, j: i64, l: nat)
    requires -U32_LIMIT < i < U32_LIMIT && -U32_LIMIT < j < U32_LIMIT && -1000 <= i - j <= 1000
    requires k < BINS_PER_ARRAY && l < BINS_PER_ARRAY && BinId(i, k) == BinId(j, l)
    ensures i == j && k == l
  {
    SmallId(i, k);
    SmallId(j, l);
    hide BinId;
    WrapsApart(i * BINS_PER_ARRAY + k, j * BINS_PER_ARRAY + l);
  }

  lemma SmallId(i: i64, k: nat)
    requires -U32_LIMIT < i < U32_LIMIT && k < BINS_PER_ARRAY
    ensures BinId(i, k) == WrapI32(i * BINS_PER_ARRAY + k)
  {
    hide WrapI32;
  }

  lemma WrapsApart(x: int, y: int)
    requires -U32_LIMIT < x - y < U32_LIMIT && WrapI32(x) == WrapI32(y)
    ensures x == y
  {
  }

  /** Arrays of one window at their own addresses never give two different bins the same id, even
      where ids wrap at the 32-bit edge. */
  lemma WindowIdsAreConsistent(activeId: i32, radius: nat, chain: map<int, bytes>)
    requires Addressed(chain) && radius <= 2
    ensures ConsistentIds(FromAccounts(Window(activeId, radius), chain))
  {
    hide FromAccounts;
    hide Origin;
    hide Addressed;
    hide BinId;
    var window := Window(activeId, radius);
    var bins := FromAccounts(window, chain);
    CentreBound(activeId);
    forall b, c | b in bins && c in bins && b.binId == c.binId
      ensures b == c
    {
      var i, k := AccountsOrigin(window, chain, b);
      var j, l := AccountsOrigin(window, chain, c);
      OriginId(chain, i, k, b);
      OriginId(chain, j, l, c);
      OriginBound(chain, i, k, b);
      OriginBound(chain, j, l, c);
      IdDetermines(i, k, j, l);
      SameOrigin(chain, i, k, b, c);
    }
  }

  lemma CentreBound(activeId: i32)
    ensures -I32_LIMIT <= Centre(activeId) < I32_LIMIT
  {
  }

  lemma OriginBound(chain: map<int, bytes>, index: int, k: nat, b: DlmmBin)
    requires Origin(chain, index, k, b)
    ensures k < BINS_PER_ARRAY
  {
  }

  lemma SameOrigin(chain: map<int, bytes>, index: int, k: nat, b: DlmmBin, c: DlmmBin)
    requires Origin(chain, index, k, b) && Origin(chain, index, k, c)
    ensures b == c
  {
  }

  /** The estimate on fresh bins does not depend on which arrays came from the cache: two caches that
      reflect the same accounts lead to the same traversal and the same output for every trade. */
  lemma FreshEstimateIgnoresSource(activeId: i32, chain: map<int, bytes>, cache: map<int, CacheEntry>, latest: u64,
                                   cache2: map<int, CacheEntry>, latest2: u64, isXToY: bool)
    requires Addressed(chain) && Reflects(cache, latest, chain) && Reflects(cache2, latest2, chain)
    ensures var window := Window(activeId, FRESH_RADIUS);
      var one, two := Fetched(window, cache, latest, Some(chain)), Fetched(window, cache2, latest2, Some(chain));
      && one.Some? && two.Some?
      && Traversal(one.value, isXToY) == Traversal(two.value, isXToY)
      && (forall amountIn: u64, feeBps: nat :: feeBps <= 10000 ==>
            EstimateOut(one.value, amountIn, isXToY, feeBps) == EstimateOut(two.value, amountIn, isXToY, feeBps))
  {
    hide Fetched;
    hide FromAccounts;
    hide EstimateOut;
    hide Traversal;
    hide Active;
    hide Addressed;
    hide Reflects;
    var window := Window(activeId, FRESH_RADIUS);
    FetchedIsWholeWindow(window, cache, latest, chain);
    FetchedIsWholeWindow(window, cache2, latest2, chain);
    WindowIdsAreConsistent(activeId, FRESH_RADIUS, chain);
    var one, two, all := Fetched(window, cache, latest, Some(chain)).value, Fetched(window, cache2, latest2, Some(chain)).value, FromAccounts(window, chain);
    forall b | b in Active(one)
      ensures b in all
    {
      ActiveMembers(one, b);
      assert b in multiset(one);
    }
    TraversalIgnoresArrivalOrder(one, two, isXToY);
  }
}
