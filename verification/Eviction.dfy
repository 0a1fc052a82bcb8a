/** What removal does to the order of the queue, and exactly when the eviction that follows it still
    drops the oldest entries. */
module Eviction {
  import opened Arith
  import opened Confirmation

  // ------------------------------------------------------------------
  // Ascending indices
  // ------------------------------------------------------------------

  /** From an index to a later one there is room for those in between. */
  lemma {:induction false} AscendingRoom(idx: seq<nat>, i: nat, j: nat)
    requires Ascending(idx) && i <= j < |idx|
    ensures idx[i] + (j - i) <= idx[j]
    decreases j - i
  {
    if i < j {
      AscendingRoom(idx, i, j - 1);
    }
  }

  lemma IndicesFit(idx: seq<nat>, n: nat)
    requires ValidIndices(idx, n)
    ensures |idx| <= n
  {
    if idx != [] {
      AscendingRoom(idx, 0, |idx| - 1);
    }
  }

  /** How many of the indices lie below m. */
  function CountBelow(idx: seq<nat>, m: nat): (q: nat)
    requires Ascending(idx)
    ensures q <= |idx|
    ensures forall i :: 0 <= i < |idx| ==> (idx[i] < m <==> i < q)
    decreases |idx|
  {
    if idx == [] then 0
    else if idx[|idx| - 1] < m then |idx|
    else CountBelow(idx[..|idx| - 1], m)
  }

  function Shifted(idx: seq<nat>, m: nat): (r: seq<nat>)
    requires forall i :: 0 <= i < |idx| ==> m <= idx[i]
    ensures |r| == |idx| && forall i :: 0 <= i < |idx| ==> r[i] == idx[i] - m
  {
    seq(|idx|, i requires 0 <= i < |idx| => idx[i] - m)
  }

  // ------------------------------------------------------------------
  // The shape of a removal
  // ------------------------------------------------------------------

  lemma LowerIndicesFit(idx: seq<nat>, n: nat, q: nat)
    requires ValidIndices(idx, n) && q <= |idx|
    ensures |idx| <= n && ValidIndices(idx[q..], n) && ValidIndices(idx[..q], n - (|idx| - q))
  {
    IndicesFit(idx, n);
    forall i | 0 <= i < q
      ensures idx[i] < n - (|idx| - q)
    {
      AscendingRoom(idx, i, |idx| - 1);
    }
  }

  /** The larger indices go first. */
  lemma {:induction false} LargerFirst<T>(s: seq<T>, idx: seq<nat>, q: nat)
    requires ValidIndices(idx, |s|) && q <= |idx|
    ensures ValidIndices(idx[q..], |s|) && ValidIndices(idx[..q], |RemoveDescending(s, idx[q..])|)
    ensures RemoveDescending(s, idx) == RemoveDescending(RemoveDescending(s, idx[q..]), idx[..q])
    decreases |idx|
  {
    hide RemoveDescending;
    hide SwapRemove;
    hide Ascending;
    LowerIndicesFit(idx, |s|, q);
    if q == |idx| {
      assert idx[..q] == idx && idx[q..] == [];
      NothingRemoved(s);
    } else {
      var n := |idx| - 1;
      var upper := idx[q..];
      assert upper[..n - q] == idx[..n][q..] && upper[n - q] == idx[n] && idx[..n][..q] == idx[..q];
      LowerIndicesFit(idx, |s|, n);
      LargestFirst(s, idx);
      LargestFirst(s, upper);
      LargerFirst(SwapRemove(s, idx[n]), idx[..n], q);
    }
  }

  lemma NothingRemoved<T>(s: seq<T>)
    ensures RemoveDescending(s, []) == s
  {
  }

  lemma LargestFirst<T>(s: seq<T>, idx: seq<nat>)
    requires ValidIndices(idx, |s|) && idx != []
    ensures s != [] && ValidIndices(idx[..|idx| - 1], |s| - 1)
    ensures RemoveDescending(s, idx) == RemoveDescending(SwapRemove(s, idx[|idx| - 1]), idx[..|idx| - 1])
  {
    assert idx[|idx| - 1] < |s|;
  }

  /** Removing from the back of a list leaves its front alone. */
  lemma {:induction false} FrontUntouched<T>(front: seq<T>, back: seq<T>, idx: seq<nat>)
    requires ValidIndices(idx, |back|)
    ensures ValidIndices(Raised(idx, |front|), |front + back|)
    ensures RemoveDescending(front + back, Raised(idx, |front|)) == front + RemoveDescending(back, idx)
    decreases |idx|
  {
    hide RemoveDescending;
    hide SwapRemove;
    var raised := Raised(idx, |front|);
    if idx == [] {
      NothingRemoved(back);
      NothingRemoved(front + back);
    } else {
      var n := |idx| - 1;
      assert raised[..n] == Raised(idx[..n], |front|);
      LowerIndicesFit(idx, |back|, n);
      LargestFirst(back, idx);
      LargestFirst(front + back, raised);
      FrontUntouched(front, SwapRemove(back, idx[n]), idx[..n]);
      SwapRemoveBehind(front, back, idx[n]);
    }
  }

  function Raised(idx: seq<nat>, m: nat): (r: seq<nat>)
    ensures |r| == |idx| && forall i :: 0 <= i < |idx| ==> r[i] == idx[i] + m
  {
    seq(|idx|, i requires 0 <= i < |idx| => idx[i] + m)
  }

  lemma SwapRemoveBehind<T>(front: seq<T>, back: seq<T>, i: nat)
    requires i < |back|
    ensures SwapRemove(front + back, i + |front|) == front + SwapRemove(back, i)
  {
  }

  /** Removing as many entries of the front as there are behind it: each hole is filled by the entry
      behind the front at the same rank, and everything else stays where it was. */
  lemma {:induction false} HolesRefilled<T>(front: seq<T>, back: seq<T>, idx: seq<nat>)
    requires |back| == |idx| && ValidIndices(idx, |front|)
    ensures var r := RemoveDescending(front + back, idx);
      && |r| == |front|
      && (forall i :: 0 <= i < |idx| ==> r[idx[i]] == back[i])
      && (forall j: nat :: j < |front| && j !in idx ==> r[j] == front[j])
    decreases |idx|
  {
    hide RemoveDescending;
    hide SwapRemove;
    if idx == [] {
      assert front + back == front;
      NothingRemoved(front);
    } else {
      var n := |idx| - 1;
      var filled := front[idx[n] := back[n]];
      LargestFirst(front + back, idx);
      LastFillsHole(front, back, idx[n]);
      HolesRefilled(filled, back[..n], idx[..n]);
      var r := RemoveDescending(front + back, idx);
      forall j: nat | j < |front| && j !in idx
        ensures r[j] == front[j]
      {
        NotInPart(idx, n, j);
      }
      assert idx[n] !in idx[..n];
      forall i | 0 <= i < |idx|
        ensures r[idx[i]] == back[i]
      {
        if i < n {
          assert idx[..n][i] == idx[i];
        }
      }
    }
  }

  lemma LastFillsHole<T>(front: seq<T>, back: seq<T>, i: nat)
    requires i < |front| && back != []
    ensures var n := |back| - 1;
      SwapRemove(front + back, i) == front[i := back[n]] + back[..n]
  {
  }

  /** What is left behind the front once the indices behind it are removed. */
  function BackLeft<T>(s: seq<T>, idx: seq<nat>): (t: seq<T>)
    requires ValidIndices(idx, |s|) && |idx| <= |s|
    ensures |t| == CountBelow(idx, |s| - |idx|)
  {
    var m := |s| - |idx|;
    RemoveDescending(s[m..], Shifted(idx[CountBelow(idx, m)..], m))
  }

  ghost predicate Refilled<T>(r: seq<T>, s: seq<T>, idx: seq<nat>, t: seq<T>) {
    && |r| <= |s| && |t| <= |idx|
    && (forall i :: 0 <= i < |t| ==> idx[i] < |r| && r[idx[i]] == t[i])
    && (forall j: nat :: j < |r| && j !in idx ==> r[j] == s[j])
  }

  /** A removal keeps the entries of the front that are not removed in place, and fills the holes in
      it with what is left behind the front. */
  lemma RemovalShape<T>(s: seq<T>, idx: seq<nat>)
    requires ValidIndices(idx, |s|) && |idx| <= |s|
    ensures Refilled(RemoveDescending(s, idx), s, idx, BackLeft(s, idx))
  {
    hide RemoveDescending;
    hide BackLeft;
    hide CountBelow;
    var m := |s| - |idx|;
    var q := CountBelow(idx, m);
    RemovalInTwo(s, idx);
    HolesRefilled(s[..m], BackLeft(s, idx), idx[..q]);
    var r := RemoveDescending(s, idx);
    forall j: nat | j < m && j !in idx
      ensures r[j] == s[j]
    {
      NotInPart(idx, q, j);
    }
    forall i | 0 <= i < q
      ensures r[idx[i]] == BackLeft(s, idx)[i]
    {
      assert idx[..q][i] == idx[i];
    }
  }

  /** What fills the i-th hole. */
  lemma HoleOf<T>(s: seq<T>, idx: seq<nat>, i: nat)
    requires ValidIndices(idx, |s|) && |idx| <= |s| && i < |BackLeft(s, idx)|
    ensures idx[i] < |s| - |idx| && RemoveDescending(s, idx)[idx[i]] == BackLeft(s, idx)[i]
  {
    hide RemoveDescending;
    hide BackLeft;
    hide CountBelow;
    RemovalShape(s, idx);
  }

  lemma Unmoved<T>(s: seq<T>, idx: seq<nat>, j: nat)
    requires ValidIndices(idx, |s|) && |idx| <= |s| && j < |s| - |idx| && j !in idx
    ensures RemoveDescending(s, idx)[j] == s[j]
  {
    hide RemoveDescending;
    hide BackLeft;
    hide CountBelow;
    RemovalShape(s, idx);
  }

  lemma BackIsRemoval<T>(s: seq<T>, idx: seq<nat>)
    requires ValidIndices(idx, |s|) && |idx| <= |s|
    ensures var m := |s| - |idx|; var shifted := Shifted(idx[CountBelow(idx, m)..], m);
      ValidIndices(shifted, |s[m..]|) && BackLeft(s, idx) == RemoveDescending(s[m..], shifted)
  {
    hide RemoveDescending;
  }

  lemma RemovalInTwo<T>(s: seq<T>, idx: seq<nat>)
    requires ValidIndices(idx, |s|) && |idx| <= |s|
    ensures var m := |s| - |idx|; var q := CountBelow(idx, m);
      && ValidIndices(idx[..q], m)
      && RemoveDescending(s, idx) == RemoveDescending(s[..m] + BackLeft(s, idx), idx[..q])
  {
    hide RemoveDescending;
    hide CountBelow;
    hide BackLeft;
    var m := |s| - |idx|;
    var q := CountBelow(idx, m);
    LowerIndicesFit(idx, |s|, q);
    LargerFirst(s, idx, q);
    BackIsRemoval(s, idx);
    hide Ascending;
    assert s[..m] + s[m..] == s;
    RaisedBack(idx[q..], m);
    FrontUntouched(s[..m], s[m..], Shifted(idx[q..], m));
  }

  lemma RaisedBack(idx: seq<nat>, m: nat)
    requires forall i :: 0 <= i < |idx| ==> m <= idx[i]
    ensures Raised(Shifted(idx, m), m) == idx
  {
  }

  lemma NotInPart(idx: seq<nat>, q: nat, j: nat)
    requires q <= |idx| && j !in idx
    ensures j !in idx[..q]
  {
  }

  // ------------------------------------------------------------------
  // Which removals keep a split of the queue by age
  // ------------------------------------------------------------------

  /** Everything in front of position e is older than everything from e on. */
  ghost predicate SplitByAge(r: seq<Trade>, e: nat) {
    forall i, j :: 0 <= i < e <= j < |r| ==> r[i].id < r[j].id
  }

  /** Removing these indices from a queue of the given size leaves its last `keep` entries younger
      than the others: nothing in front of those positions is removed; or all of those positions are
      removed, and the same holds among the entries that move up to refill the holes. */
  predicate SafeRemoval(size: nat, idx: seq<nat>, keep: nat)
    requires ValidIndices(idx, size) && 0 < keep <= size - |idx|
    decreases |idx|
  {
    var m := size - |idx|;
    if idx == [] || m - keep <= idx[0] then true
    else
      var q := CountBelow(idx, m);
      && keep <= q
      && m - keep <= idx[q - keep]
      && SafeRemoval(|idx|, Shifted(idx[q..], m), keep)
  }

  lemma BackIsYounger(s: seq<Trade>, idx: seq<nat>, i: nat, j: nat)
    requires InSubmissionOrder(s) && ValidIndices(idx, |s|) && |idx| <= |s|
    requires i < |s| - |idx| && j < |BackLeft(s, idx)|
    ensures s[i].id < BackLeft(s, idx)[j].id
  {
    hide BackLeft;
    var k := FromBehind(s, idx, j);
  }

  /** What is left behind the front comes from behind it. */
  lemma FromBehind<T>(s: seq<T>, idx: seq<nat>, j: nat) returns (k: nat)
    requires ValidIndices(idx, |s|) && |idx| <= |s| && j < |BackLeft(s, idx)|
    ensures |s| - |idx| <= k < |s| && s[k] == BackLeft(s, idx)[j]
  {
    hide RemoveDescending;
    hide CountBelow;
    hide Select;
    var m := |s| - |idx|;
    var back, t := s[m..], BackLeft(s, idx);
    RemovesExactly(back, Shifted(idx[CountBelow(idx, m)..], m));
    assert t[j] in multiset(t);
    assert t[j] in multiset(back);
    var i :| 0 <= i < |back| && back[i] == t[j];
    k := m + i;
  }

  /** Nothing in front of the split is removed. */
  lemma LateRemovalSplits(s: seq<Trade>, idx: seq<nat>, e: nat)
    requires InSubmissionOrder(s) && ValidIndices(idx, |s|) && |idx| <= |s| && e <= |s| - |idx|
    requires idx == [] || e <= idx[0]
    ensures SplitByAge(RemoveDescending(s, idx), e)
  {
    hide RemoveDescending;
    hide BackLeft;
    hide CountBelow;
    var r, t := RemoveDescending(s, idx), BackLeft(s, idx);
    forall i, j | 0 <= i < e <= j < |r|
      ensures r[i].id < r[j].id
    {
      assert i !in idx;
      Unmoved(s, idx, i);
      if j in idx {
        var k: nat :| k < |idx| && idx[k] == j;
        HoleOf(s, idx, k);
        BackIsYounger(s, idx, i, k);
      } else {
        Unmoved(s, idx, j);
      }
    }
  }

  /** An entry in front of the split is replaced, and one behind it stays. */
  lemma MixedRemovalDoesNotSplit(s: seq<Trade>, idx: seq<nat>, e: nat, j: nat)
    requires InSubmissionOrder(s) && ValidIndices(idx, |s|) && |idx| <= |s|
    requires idx != [] && idx[0] < e <= j < |s| - |idx| && j !in idx
    ensures !SplitByAge(RemoveDescending(s, idx), e)
  {
    hide RemoveDescending;
    hide BackLeft;
    hide CountBelow;
    var r := RemoveDescending(s, idx);
    Unmoved(s, idx, j);
    FirstHole(idx, |s| - |idx|);
    HoleOf(s, idx, 0);
    BackIsYounger(s, idx, j, 0);
  }

  lemma FirstHole(idx: seq<nat>, m: nat)
    requires Ascending(idx) && idx != [] && idx[0] < m
    ensures 0 < CountBelow(idx, m)
  {
  }

  /** Some kept position is not removed unless the last indices below the size are exactly those. */
  lemma KeptPositions(idx: seq<nat>, m: nat, keep: nat) returns (j: nat)
    requires Ascending(idx) && 0 < keep <= m
    requires var q := CountBelow(idx, m); q < keep || idx[q - keep] < m - keep
    ensures m - keep <= j < m && j !in idx
  {
    var q := CountBelow(idx, m);
    j := m - 1;
    var k := 0;
    while k < q && idx[q - 1 - k] == j && k < keep - 1
      invariant 0 <= k <= q && k < keep && j == m - 1 - k
      invariant forall i :: q - k <= i < q ==> idx[i] > j
      decreases q - k
    {
      k := k + 1;
      j := j - 1;
    }
    if k < q {
      AscendingRoom(idx, q - 1 - k, q - 1);
      assert idx[q - 1 - k] < j;
    }
    forall i: nat | i < |idx|
      ensures idx[i] != j
    {
      if i < q - k {
        AscendingRoom(idx, i, q - 1 - k);
      } else if q <= i {
        assert m <= idx[i];
      }
    }
  }

  lemma KeptPositionsTaken(idx: seq<nat>, m: nat, keep: nat, i: nat)
    requires Ascending(idx) && 0 < keep <= m && i < keep
    requires var q := CountBelow(idx, m); keep <= q && m - keep <= idx[q - keep]
    ensures idx[CountBelow(idx, m) - keep + i] == m - keep + i
  {
    var q := CountBelow(idx, m);
    AscendingRoom(idx, q - keep, q - keep + i);
    AscendingRoom(idx, q - keep + i, q - 1);
  }

  /** All positions behind the split are removed: the split is that of the entries refilling them. */
  lemma FullRemovalSplits(s: seq<Trade>, idx: seq<nat>, keep: nat)
    requires InSubmissionOrder(s) && ValidIndices(idx, |s|) && |idx| <= |s| && 0 < keep <= |s| - |idx|
    requires var m := |s| - |idx|; var q := CountBelow(idx, m); keep <= q && m - keep <= idx[q - keep]
    ensures SplitByAge(RemoveDescending(s, idx), |s| - |idx| - keep)
       <==> SplitByAge(BackLeft(s, idx), CountBelow(idx, |s| - |idx|) - keep)
  {
    hide RemoveDescending;
    hide BackLeft;
    hide CountBelow;
    hide Refilled;
    hide Ascending;
    hide InSubmissionOrder;
    var m := |s| - |idx|;
    var q, e := CountBelow(idx, m), m - keep;
    var r, t := RemoveDescending(s, idx), BackLeft(s, idx);
    if SplitByAge(t, q - keep) {
      forall i, j | 0 <= i < e <= j < |r|
        ensures r[i].id < r[j].id
      {
        KeptEntry(s, idx, keep, j - e);
        FrontOfSplit(s, idx, keep, i, j - e);
      }
    }
    if SplitByAge(r, e) {
      forall i, j | 0 <= i < q - keep <= j < |t|
        ensures t[i].id < t[j].id
      {
        EarlyHole(s, idx, keep, i);
        KeptEntry(s, idx, keep, j - (q - keep));
      }
    }
  }

  /** The entry kept at a position behind the split is the one refilling its hole. */
  lemma KeptEntry(s: seq<Trade>, idx: seq<nat>, keep: nat, i: nat)
    requires ValidIndices(idx, |s|) && |idx| <= |s| && 0 < keep <= |s| - |idx| && i < keep
    requires var m := |s| - |idx|; var q := CountBelow(idx, m); keep <= q && m - keep <= idx[q - keep]
    ensures RemoveDescending(s, idx)[|s| - |idx| - keep + i] == BackLeft(s, idx)[CountBelow(idx, |s| - |idx|) - keep + i]
  {
    hide RemoveDescending;
    hide BackLeft;
    hide CountBelow;
    hide Ascending;
    KeptPositionsTaken(idx, |s| - |idx|, keep, i);
    HoleOf(s, idx, CountBelow(idx, |s| - |idx|) - keep + i);
  }

  /** The other refilled holes lie in front of the split. */
  lemma EarlyHole(s: seq<Trade>, idx: seq<nat>, keep: nat, i: nat)
    requires ValidIndices(idx, |s|) && |idx| <= |s| && 0 < keep <= |s| - |idx|
    requires var m := |s| - |idx|; var q := CountBelow(idx, m); keep <= q && m - keep <= idx[q - keep] && i < q - keep
    ensures idx[i] < |s| - |idx| - keep && RemoveDescending(s, idx)[idx[i]] == BackLeft(s, idx)[i]
  {
    hide RemoveDescending;
    hide BackLeft;
    hide CountBelow;
    hide Ascending;
    var m := |s| - |idx|;
    HoleOf(s, idx, i);
    KeptPositionsTaken(idx, m, keep, 0);
    AscendingRoom(idx, i, CountBelow(idx, m) - keep);
  }

  lemma AgeAcross(r: seq<Trade>, e: nat, i: nat, j: nat)
    requires SplitByAge(r, e) && i < e <= j < |r|
    ensures r[i].id < r[j].id
  {
  }

  lemma HoleInFront(idx: seq<nat>, m: nat, keep: nat, i: nat) returns (a: nat)
    requires Ascending(idx) && 0 < keep <= m && i < m - keep && i in idx
    requires var q := CountBelow(idx, m); keep <= q && m - keep <= idx[q - keep]
    ensures a < CountBelow(idx, m) - keep && idx[a] == i
  {
    hide CountBelow;
    a :| a < |idx| && idx[a] == i;
  }

  /** An entry in front of the split, whether it stayed or refills a hole, is older than the refilled
      ones behind it. */
  lemma FrontOfSplit(s: seq<Trade>, idx: seq<nat>, keep: nat, i: nat, k: nat)
    requires InSubmissionOrder(s) && ValidIndices(idx, |s|) && |idx| <= |s| && 0 < keep <= |s| - |idx|
    requires var m := |s| - |idx|; var q := CountBelow(idx, m);
      && keep <= q && m - keep <= idx[q - keep] && i < m - keep && k < keep
      && SplitByAge(BackLeft(s, idx), q - keep)
    ensures RemoveDescending(s, idx)[i].id < BackLeft(s, idx)[CountBelow(idx, |s| - |idx|) - keep + k].id
  {
    hide RemoveDescending;
    hide BackLeft;
    hide CountBelow;
    hide InSubmissionOrder;
    hide SplitByAge;
    hide Ascending;
    if i in idx {
      RefilledFront(s, idx, keep, i, k);
    } else {
      Unmoved(s, idx, i);
      BackIsYounger(s, idx, i, CountBelow(idx, |s| - |idx|) - keep + k);
    }
  }

  lemma RefilledFront(s: seq<Trade>, idx: seq<nat>, keep: nat, i: nat, k: nat)
    requires ValidIndices(idx, |s|) && |idx| <= |s| && 0 < keep <= |s| - |idx| && i in idx
    requires var m := |s| - |idx|; var q := CountBelow(idx, m);
      && keep <= q && m - keep <= idx[q - keep] && i < m - keep && k < keep
      && SplitByAge(BackLeft(s, idx), q - keep)
    ensures RemoveDescending(s, idx)[i].id < BackLeft(s, idx)[CountBelow(idx, |s| - |idx|) - keep + k].id
  {
    hide RemoveDescending;
    hide BackLeft;
    hide CountBelow;
    hide SplitByAge;
    hide Ascending;
    var m := |s| - |idx|;
    var q: nat := CountBelow(idx, m);
    var a := HoleInFront(idx, m, keep, i);
    HoleOf(s, idx, a);
    AgeAcross(BackLeft(s, idx), q - keep, a, q - keep + k);
  }

  lemma SafeStep(size: nat, idx: seq<nat>, keep: nat)
    requires ValidIndices(idx, size) && 0 < keep <= size - |idx|
    ensures var m := size - |idx|;
      SafeRemoval(size, idx, keep)
      <==> if idx == [] || m - keep <= idx[0] then true
           else var q := CountBelow(idx, m);
             keep <= q && m - keep <= idx[q - keep] && SafeRemoval(|idx|, Shifted(idx[q..], m), keep)
  {
    hide CountBelow;
  }

  lemma BackInOrder(s: seq<Trade>, m: nat)
    requires InSubmissionOrder(s) && m <= |s|
    ensures InSubmissionOrder(s[m..])
  {
  }

  /** For every queue in submission order and every removal: exactly the safe removals leave the last
      `keep` entries younger than the others. */
  lemma {:induction false} SplitIffSafe(s: seq<Trade>, idx: seq<nat>, keep: nat)
    requires InSubmissionOrder(s) && ValidIndices(idx, |s|) && 0 < keep <= |s| - |idx|
    ensures SplitByAge(RemoveDescending(s, idx), |s| - |idx| - keep) <==> SafeRemoval(|s|, idx, keep)
    decreases |idx|
  {
    hide RemoveDescending;
    hide SplitByAge;
    hide BackLeft;
    hide CountBelow;
    hide Ascending;
    hide SafeRemoval;
    SafeStep(|s|, idx, keep);
    var m := |s| - |idx|;
    if idx == [] || m - keep <= idx[0] {
      LateRemovalSplits(s, idx, m - keep);
    } else {
      var q := CountBelow(idx, m);
      if q < keep || idx[q - keep] < m - keep {
        var j := KeptPositions(idx, m, keep);
        MixedRemovalDoesNotSplit(s, idx, m - keep, j);
      } else {
        FullRemovalSplits(s, idx, keep);
        BackIsRemoval(s, idx);
        BackInOrder(s, m);
        SplitIffSafe(s[m..], Shifted(idx[q..], m), keep);
      }
    }
  }

  // ------------------------------------------------------------------
  // Eviction
  // ------------------------------------------------------------------

  /** What eviction drops is older than everything it keeps. */
  ghost predicate DropsOldest(s: seq<Trade>) {
    forall gone, kept :: gone in Evicted(s) && kept in Evict(s) ==> gone.id < kept.id
  }

  lemma DropsOldestIsSplit(s: seq<Trade>)
    ensures DropsOldest(s) <==> SplitByAge(s, EvictCount(|s|))
  {
    var e := EvictCount(|s|);
    if DropsOldest(s) {
      forall i, j | 0 <= i < e <= j < |s|
        ensures s[i].id < s[j].id
      {
        assert Evicted(s)[i] == s[i] && Evict(s)[j - e] == s[j];
        assert s[i] in Evicted(s) && s[j] in Evict(s);
      }
    }
    if SplitByAge(s, e) {
      forall gone, kept | gone in Evicted(s) && kept in Evict(s)
        ensures gone.id < kept.id
      {
        var i :| 0 <= i < |Evicted(s)| && Evicted(s)[i] == gone;
        var j :| 0 <= j < |Evict(s)| && Evict(s)[j] == kept;
        assert s[i] == gone && s[e + j] == kept;
      }
    }
  }

  /** A cycle on a queue in submission order: its eviction drops the oldest entries exactly when it
      drops none or the removals before it were safe. */
  lemma EvictionDropsOldestIff(s: seq<Trade>, idx: seq<nat>)
    requires InSubmissionOrder(s) && ValidIndices(idx, |s|)
    ensures DropsOldest(RemoveDescending(s, idx))
       <==> |s| - |idx| <= MAX_PENDING || SafeRemoval(|s|, idx, KEPT_ON_EVICTION)
  {
    hide DropsOldest;
    hide SplitByAge;
    IndicesFit(idx, |s|);
    var r := RemoveDescending(s, idx);
    DropsOldestIsSplit(r);
    if MAX_PENDING < |r| {
      SplitIffSafe(s, idx, KEPT_ON_EVICTION);
    } else {
      NothingInFront(r);
    }
  }

  lemma NothingInFront(r: seq<Trade>)
    ensures SplitByAge(r, 0)
  {
  }

  /** For up to 64 removals the condition is on the first removed index alone: it must not lie among
      the positions that are dropped. */
  lemma FewRemovalsDropOldestIff(s: seq<Trade>, idx: seq<nat>)
    requires InSubmissionOrder(s) && ValidIndices(idx, |s|) && |idx| <= KEPT_ON_EVICTION && MAX_PENDING < |s| - |idx|
    ensures DropsOldest(RemoveDescending(s, idx)) <==> idx == [] || |s| - |idx| - KEPT_ON_EVICTION <= idx[0]
  {
    hide DropsOldest;
    EvictionDropsOldestIff(s, idx);
    if idx != [] {
      AscendingRoom(idx, 0, |idx| - 1);
    }
  }

  lemma NoRemovalDropsOldest(s: seq<Trade>)
    requires InSubmissionOrder(s)
    ensures DropsOldest(s)
  {
    hide DropsOldest;
    EvictionDropsOldestIff(s, []);
    NothingRemoved(s);
  }

  /** Any single removal in front of the last 64 positions makes eviction drop the newest entry of all
      and keep the one before it. */
  lemma SwapRemoveEvictsNewest(s: seq<Trade>, i: nat)
    requires MAX_PENDING + 1 < |s| && i + KEPT_ON_EVICTION + 1 < |s|
    ensures var r := RemoveDescending(s, [i]);
      s[|s| - 1] in Evicted(r) && s[|s| - 2] in Evict(r)
  {
    OneRemoved(s, i);
    hide SwapRemove;
    hide RemoveDescending;
    var r := SwapRemove(s, i);
    hide Evict;
    hide Evicted;
    DroppedOrKept(r, i);
    DroppedOrKept(r, |r| - 1);
  }

  lemma OneRemoved(s: seq<Trade>, i: nat)
    requires i + 1 < |s|
    ensures RemoveDescending(s, [i]) == SwapRemove(s, i)
    ensures |SwapRemove(s, i)| == |s| - 1 && SwapRemove(s, i)[i] == s[|s| - 1]
    ensures i + 2 < |s| ==> SwapRemove(s, i)[|s| - 2] == s[|s| - 2]
  {
    assert [i][..0] == [];
    LargestFirst(s, [i]);
    NothingRemoved(SwapRemove(s, i));
  }

  lemma DroppedOrKept(r: seq<Trade>, i: nat)
    requires i < |r|
    ensures if i < EvictCount(|r|) then r[i] in Evicted(r) else r[i] in Evict(r)
  {
    var e := EvictCount(|r|);
    if i < e {
      assert Evicted(r)[i] == r[i];
    } else {
      assert Evict(r)[i - e] == r[i];
    }
  }

  // ------------------------------------------------------------------
  // Why the removal runs from back to front
  // ------------------------------------------------------------------

  /** The same removals from front to back; none where an index is past the end, which traps. */
  function RemoveAscending<T>(s: seq<T>, idx: seq<nat>): Option<seq<T>>
    decreases |idx|
  {
    if idx == [] then Some(s)
    else if idx[0] >= |s| then None
    else RemoveAscending(SwapRemove(s, idx[0]), idx[1..])
  }

  /** From front to back the last index can move past the end: the removal traps exactly when the last
      index is within as many positions of the end as entries are removed before it, and otherwise
      takes out the chosen entries too. */
  lemma {:induction false} FrontToBackTrapsIff<T>(s: seq<T>, idx: seq<nat>)
    requires Ascending(idx)
    ensures RemoveAscending(s, idx).None? <==> idx != [] && |s| < idx[|idx| - 1] + |idx|
    ensures RemoveAscending(s, idx).Some? ==>
      && ValidIndices(idx, |s|)
      && multiset(RemoveAscending(s, idx).value) + multiset(Select(s, idx)) == multiset(s)
    decreases |idx|
  {
    hide SwapRemove;
    if idx == [] {
      assert Select(s, idx) == [];
    } else {
      AscendingRoom(idx, 0, |idx| - 1);
      if idx[0] < |s| {
        var rest := idx[1..];
        FrontToBackTrapsIff(SwapRemove(s, idx[0]), rest);
        if RemoveAscending(s, idx).Some? {
          StillInPlace(s, idx);
          SwapRemoveTakesOne(s, idx[0]);
        }
      }
    }
  }

  lemma StillInPlace<T>(s: seq<T>, idx: seq<nat>)
    requires Ascending(idx) && idx != [] && idx[0] < |s| && ValidIndices(idx[1..], |s| - 1)
    ensures ValidIndices(idx, |s|)
    ensures Select(s, idx) == [s[idx[0]]] + Select(SwapRemove(s, idx[0]), idx[1..])
  {
    forall i | 0 < i < |idx|
      ensures idx[i] < |s|
    {
      assert idx[i] == idx[1..][i - 1];
    }
  }
}
