/** The background confirmation queue: collecting submissions, recording processed ones, removing
    them by swap_remove from back to front, and evicting when the queue grows too long. */
module Confirmation {
  import opened Arith
  import opened Risk

  const MAX_PENDING := 128
  const KEPT_ON_EVICTION := 64
  const BASE_FEE_SOL: real := 0.000005

  /** A submitted transaction. `parses` says whether its signature string is a valid signature: a
      bundle id returned by the bundle endpoint is not. */
  datatype Trade = Trade(id: nat, parses: bool, estimatedNet: real, priorityFee: real)

  /** What the network says about a signature: not processed yet, or processed with or without error. */
  type Status = Option<bool>

  // ------------------------------------------------------------------
  // Removal
  // ------------------------------------------------------------------

  /** Replace the element at i by the last one and drop the last. */
  function SwapRemove<T>(s: seq<T>, i: nat): (r: seq<T>)
    requires i < |s|
    ensures |r| == |s| - 1
  {
    s[i := s[|s| - 1]][..|s| - 1]
  }

  predicate Ascending(idx: seq<nat>) {
    forall i, j :: 0 <= i < j < |idx| ==> idx[i] < idx[j]
  }

  predicate ValidIndices(idx: seq<nat>, n: nat) {
    Ascending(idx) && forall i :: 0 <= i < |idx| ==> idx[i] < n
  }

  /** Remove the indices from the last to the first. */
  function RemoveDescending<T>(s: seq<T>, idx: seq<nat>): (r: seq<T>)
    requires ValidIndices(idx, |s|)
    ensures |r| == |s| - |idx|
    decreases |idx|
  {
    if idx == [] then s
    else
      var n := |idx| - 1;
      RemoveDescending(SwapRemove(s, idx[n]), idx[..n])
  }

  function Select<T>(s: seq<T>, idx: seq<nat>): (r: seq<T>)
    requires ValidIndices(idx, |s|)
    ensures |r| == |idx|
  {
    seq(|idx|, k requires 0 <= k < |idx| => s[idx[k]])
  }

  lemma SwapRemoveTakesOne<T>(s: seq<T>, i: nat)
    requires i < |s|
    ensures multiset(SwapRemove(s, i)) + multiset{s[i]} == multiset(s)
  {
    var n := |s| - 1;
    assert s == s[..n] + [s[n]];
    if i == n {
      assert SwapRemove(s, i) == s[..n];
    } else {
      assert s[..n] == s[..i] + [s[i]] + s[i + 1..n];
      assert SwapRemove(s, i) == s[..i] + [s[n]] + s[i + 1..n];
    }
  }

  /** The first removal, of the largest index, leaves the other chosen entries where they were. */
  lemma SelectAfterSwap<T>(s: seq<T>, idx: seq<nat>)
    requires ValidIndices(idx, |s|) && idx != [] && s != []
    ensures var n := |idx| - 1;
      && ValidIndices(idx[..n], |s| - 1)
      && Select(s, idx) == Select(SwapRemove(s, idx[n]), idx[..n]) + [s[idx[n]]]
  {
  }

  /** Removing from back to front takes out exactly the chosen entries, each once. */
  lemma {:induction false} RemovesExactly<T>(s: seq<T>, idx: seq<nat>)
    requires ValidIndices(idx, |s|)
    ensures multiset(RemoveDescending(s, idx)) + multiset(Select(s, idx)) == multiset(s)
    decreases |idx|
  {
    if idx == [] {
      assert Select(s, idx) == [];
    } else {
      var n := |idx| - 1;
      assert idx[n] < |s|;
      hide Select;
      hide SwapRemove;
      SelectAfterSwap(s, idx);
      RemovesExactly(SwapRemove(s, idx[n]), idx[..n]);
      SwapRemoveTakesOne(s, idx[n]);
    }
  }

  // ------------------------------------------------------------------
  // Eviction
  // ------------------------------------------------------------------

  function EvictCount(n: nat): nat {
    if n > MAX_PENDING then n - KEPT_ON_EVICTION else 0
  }

  function Evict<T>(s: seq<T>): seq<T> {
    s[EvictCount(|s|)..]
  }

  function Evicted<T>(s: seq<T>): seq<T> {
    s[..EvictCount(|s|)]
  }

  lemma EvictionSplits<T>(s: seq<T>)
    ensures multiset(Evict(s)) + multiset(Evicted(s)) == multiset(s) && |Evict(s)| <= MAX_PENDING
  {
    assert s == Evicted(s) + Evict(s);
  }

  predicate InSubmissionOrder(s: seq<Trade>) {
    forall i, j :: 0 <= i < j < |s| ==> s[i].id < s[j].id
  }

  // ------------------------------------------------------------------
  // Processing the statuses
  // ------------------------------------------------------------------

  /** Indices of the processed statuses among the first n. */
  function Processed(statuses: seq<Status>, n: nat): (idx: seq<nat>)
    requires n <= |statuses|
    ensures ValidIndices(idx, n)
    ensures forall i :: i in idx <==> 0 <= i < n && statuses[i].Some?
  {
    if n == 0 then []
    else if statuses[n - 1].Some? then Processed(statuses, n - 1) + [n - 1]
    else Processed(statuses, n - 1)
  }

  /** Profit booked for a processed trade: the balance change if it could be read, otherwise the
      estimate for a success and the wasted fees for a failure. */
  function BookedPnl(trade: Trade, ok: bool, extracted: Option<real>): real {
    match extracted
    case Some(pnl) => pnl
    case None => if ok then trade.estimatedNet else -(trade.priorityFee + BASE_FEE_SOL)
  }

  /** The answers of one polling cycle: a status per signature, and for each the balance change
      that could be extracted and the time the confirmation is recorded. */
  datatype Poll = Poll(statuses: seq<Status>, extracted: seq<Option<real>>, times: seq<nat>)

  predicate PollFor(poll: Poll, n: nat) {
    |poll.statuses| <= n && |poll.extracted| == |poll.times| == |poll.statuses|
  }

  /** The tracker after the first n statuses. */
  function RecordFirst(s: RiskState, pending: seq<Trade>, poll: Poll, cfg: RiskConfig, n: nat): RiskState
    requires PollFor(poll, |pending|) && n <= |poll.statuses|
  {
    if n == 0 then s
    else
      var before := RecordFirst(s, pending, poll, cfg, n - 1);
      match poll.statuses[n - 1]
      case None => before
      case Some(ok) => Confirm(before, BookedPnl(pending[n - 1], ok, poll.extracted[n - 1]), ok, cfg, poll.times[n - 1])
  }

  /** The unbounded channel from the main loop. */
  class Channel {
    var items: seq<Trade>

    constructor ()
      ensures items == []
    {
      items := [];
    }

    method Send(trade: Trade)
      modifies this
      ensures items == old(items) + [trade]
    {
      items := items + [trade];
    }

    method TryRecv() returns (trade: Option<Trade>)
      modifies this
      ensures old(items) == [] ==> trade == None && items == []
      ensures old(items) != [] ==> trade == Some(old(items)[0]) && items == old(items)[1..]
    {
      if items == [] {
        return None;
      }
      trade := Some(items[0]);
      items := items[1..];
    }
  }

  class ConfirmationTask {
    var pending: seq<Trade>

    constructor ()
      ensures pending == []
    {
      pending := [];
    }

    /** Move everything from the channel to the end of the queue. */
    method Collect(rx: Channel)
      modifies this, rx
      ensures pending == old(pending) + old(rx.items) && rx.items == []
    {
      var next := rx.TryRecv();
      while next.Some?
        invariant old(pending) + old(rx.items) == pending + (if next.Some? then [next.value] else []) + rx.items
        invariant next.None? ==> rx.items == []
        decreases |rx.items|, next.Some?
      {
        pending := pending + [next.value];
        next := rx.TryRecv();
      }
    }

    /** Record every processed status against the entry at its index, then remove those entries. */
    method ProcessStatuses(tracker: RiskTracker, poll: Poll, cfg: RiskConfig)
      requires PollFor(poll, |pending|)
      modifies this, tracker
      ensures pending == RemoveDescending(old(pending), Processed(poll.statuses, |poll.statuses|))
      ensures tracker.State() == RecordFirst(old(tracker.State()), old(pending), poll, cfg, |poll.statuses|)
    {
      var toRemove: seq<nat> := [];
      for i := 0 to |poll.statuses|
        invariant toRemove == Processed(poll.statuses, i)
        invariant pending == old(pending)
        invariant tracker.State() == RecordFirst(old(tracker.State()), pending, poll, cfg, i)
      {
        var status := poll.statuses[i];
        if status.Some? {
          var pnl := BookedPnl(pending[i], status.value, poll.extracted[i]);
          tracker.RecordConfirmation(pnl, status.value, cfg, poll.times[i]);
          toRemove := toRemove + [i];
        }
      }
      RemoveProcessed(toRemove);
    }

    /** Remove processed entries from back to front. */
    method RemoveProcessed(toRemove: seq<nat>)
      requires ValidIndices(toRemove, |pending|)
      modifies this
      ensures pending == RemoveDescending(old(pending), toRemove)
    {
      var k := |toRemove|;
      assert toRemove[..k] == toRemove;
      while k > 0
        invariant 0 <= k <= |toRemove|
        invariant ValidIndices(toRemove[..k], |pending|)
        invariant RemoveDescending(pending, toRemove[..k]) == RemoveDescending(old(pending), toRemove)
      {
        k := k - 1;
        assert toRemove[..k + 1][..k] == toRemove[..k];
        pending := SwapRemove(pending, toRemove[k]);
      }
    }

    method EvictStale()
      modifies this
      ensures pending == Evict(old(pending)) && |pending| <= MAX_PENDING
    {
      if |pending| > MAX_PENDING {
        var drain := |pending| - KEPT_ON_EVICTION;
        pending := pending[drain..];
      }
    }
  }

  // ------------------------------------------------------------------
  // Alignment of signatures and entries
  // ------------------------------------------------------------------

  /** Queue positions of the entries whose signature parses: position k of this list is the entry
      the k-th queried signature belongs to. */
  function SignaturePositions(pending: seq<Trade>, n: nat): (pos: seq<nat>)
    requires n <= |pending|
    ensures ValidIndices(pos, n) && |pos| <= n
  {
    if n == 0 then []
    else if pending[n - 1].parses then SignaturePositions(pending, n - 1) + [n - 1]
    else SignaturePositions(pending, n - 1)
  }

  predicate AllParse(s: seq<Trade>) {
    forall i :: 0 <= i < |s| ==> s[i].parses
  }

  lemma {:induction false} PositionsWhenAllParse(pending: seq<Trade>, n: nat)
    requires n <= |pending|
    ensures |SignaturePositions(pending, n)| == n <==> AllParse(pending[..n])
  {
    if n != 0 {
      PositionsWhenAllParse(pending, n - 1);
      assert pending[..n] == pending[..n - 1] + [pending[n - 1]];
    }
  }

  /** The k-th signature belongs to entry k exactly when the first k + 1 entries all parse, and
      otherwise to a later one. */
  lemma {:induction false} PositionAligned(pending: seq<Trade>, n: nat, k: nat)
    requires n <= |pending| && k < |SignaturePositions(pending, n)|
    ensures k <= SignaturePositions(pending, n)[k]
    ensures SignaturePositions(pending, n)[k] == k <==> AllParse(pending[..k + 1])
  {
    hide AllParse;
    PositionsWhenAllParse(pending, n);
    var pos := SignaturePositions(pending, n);
    if k + 1 < n && k < |SignaturePositions(pending, n - 1)| {
      PositionAligned(pending, n - 1, k);
    } else if k + 1 < n {
      // The last signature, and it is entry n - 1 > k.
      PositionsWhenAllParse(pending, n - 1);
      assert pos[k] == n - 1;
      if AllParse(pending[..k + 1]) {
        PositionsPrefix(pending, k + 1, n - 1);
        PositionsWhenAllParse(pending, k + 1);
      }
    } else {
      PositionsWhenAllParse(pending, n - 1);
    }
  }

  lemma {:induction false} PositionsPrefix(pending: seq<Trade>, m: nat, n: nat)
    requires m <= n <= |pending|
    ensures |SignaturePositions(pending, m)| <= |SignaturePositions(pending, n)|
    decreases n - m
  {
    if m != n {
      PositionsPrefix(pending, m, n - 1);
    }
  }

  /** Queue positions of the trades the processed statuses are about. */
  ghost function Confirmed(pending: seq<Trade>, statuses: seq<Status>): set<nat>
    requires |statuses| <= |SignaturePositions(pending, |pending|)|
  {
    set i | i in Processed(statuses, |statuses|) :: SignaturePositions(pending, |pending|)[i]
  }

  /** Queue positions that are recorded and removed. */
  ghost function Touched(statuses: seq<Status>): set<nat> {
    set i | i in Processed(statuses, |statuses|)
  }

  /** The entries recorded and removed are the confirmed ones if and only if every entry up to the
      last processed index has a signature that parses. */
  lemma TouchesConfirmedIffAligned(pending: seq<Trade>, statuses: seq<Status>)
    requires |statuses| <= |SignaturePositions(pending, |pending|)|
    ensures var idx := Processed(statuses, |statuses|);
      Touched(statuses) == Confirmed(pending, statuses)
      <==> (idx == [] || AllParse(pending[..idx[|idx| - 1] + 1]))
  {
    var idx, pos := Processed(statuses, |statuses|), SignaturePositions(pending, |pending|);
    if idx == [] {
      assert Touched(statuses) == {} == Confirmed(pending, statuses);
    } else {
      var m := idx[|idx| - 1];
      forall i | i in idx
        ensures i <= m && (AllParse(pending[..m + 1]) ==> pos[i] == i)
      {
        var j :| 0 <= j < |idx| && idx[j] == i;
        PositionAligned(pending, |pending|, i);
        if AllParse(pending[..m + 1]) {
          assert pending[..i + 1] == pending[..m + 1][..i + 1];
        }
      }
      PositionAligned(pending, |pending|, m);
      if Touched(statuses) == Confirmed(pending, statuses) {
        assert m in idx;
        assert pos[m] in Confirmed(pending, statuses);
        assert pos[m] in Touched(statuses);
      } else if AllParse(pending[..m + 1]) {
        assert forall i :: i in idx ==> pos[i] == i;
        assert forall p :: p in Confirmed(pending, statuses) ==> p in Touched(statuses);
        forall p | p in Touched(statuses)
          ensures p in Confirmed(pending, statuses)
        {
          assert pos[p] == p;
        }
      }
    }
  }

  /** What misalignment does: with an unparseable entry in front, the confirmation of the second
      entry is booked twice, in two cycles, and the first entry is dropped in its place. */
  lemma MisalignedEntryIsBookedTwice(s: RiskState, cfg: RiskConfig, bundle: Trade, trade: Trade, pnl: real, t1: nat, t2: nat)
    requires !bundle.parses && trade.parses
    ensures var poll1, poll2 := Poll([Some(true)], [Some(pnl)], [t1]), Poll([Some(true)], [Some(pnl)], [t2]);
      var q0 := [bundle, trade];
      && SignaturePositions(q0, 2) == [1]
      && (var q1 := RemoveDescending(q0, Processed(poll1.statuses, 1));
          var s1 := RecordFirst(s, q0, poll1, cfg, 1);
          && q1 == [trade]
          && (var s2 := RecordFirst(s1, q1, poll2, cfg, 1);
              && RemoveDescending(q1, Processed(poll2.statuses, 1)) == []
              && s2.totalNet == s.totalNet + pnl + pnl))
  {
    hide Confirm;
    hide RecordFirst;
    var q0 := [bundle, trade];
    assert SignaturePositions(q0, 0) == [] && SignaturePositions(q0, 1) == [] && SignaturePositions(q0, 2) == [1];
    OneConfirmed(s, q0, pnl, t1, cfg);
    assert SwapRemove(q0, 0) == [trade];
    OneConfirmed(Confirm(s, pnl, true, cfg, t1), [trade], pnl, t2, cfg);
    assert SwapRemove([trade], 0) == [];
    ConfirmationAdds(s, pnl, cfg, t1);
    ConfirmationAdds(Confirm(s, pnl, true, cfg, t1), pnl, cfg, t2);
  }

  lemma ConfirmationAdds(s: RiskState, pnl: real, cfg: RiskConfig, now: nat)
    ensures Confirm(s, pnl, true, cfg, now).totalNet == s.totalNet + pnl
  {
  }

  /** A cycle in which only the first status is a success. */
  lemma OneConfirmed(s: RiskState, q: seq<Trade>, pnl: real, t: nat, cfg: RiskConfig)
    requires q != []
    ensures var poll := Poll([Some(true)], [Some(pnl)], [t]);
      && Processed(poll.statuses, 1) == [0]
      && RemoveDescending(q, [0]) == SwapRemove(q, 0)
      && RecordFirst(s, q, poll, cfg, 1) == Confirm(s, pnl, true, cfg, t)
  {
    var poll := Poll([Some(true)], [Some(pnl)], [t]);
    assert Processed(poll.statuses, 0) == [];
    assert [0][..0] == [];
    assert RemoveDescending(q, [0]) == RemoveDescending(SwapRemove(q, 0), []);
    assert RecordFirst(s, q, poll, cfg, 0) == s;
  }
}
