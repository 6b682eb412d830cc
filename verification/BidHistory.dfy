/** What the bid processor should have done, as a function of everything that ever happened
    to it: the bids in processing order and the evictions between them. */
module BidHistory {
  import opened Bids

  /** `Evicted(below)`: housekeeping dropped the deduplication entries of all slots below it. */
  datatype Event = Arrived(bid: CommonBid) | Evicted(below: nat)

  type History = seq<Event>

  ghost predicate ArrivedFor(h: History, i: int, slot: nat) {
    0 <= i < |h| && h[i].Arrived? && h[i].bid.slot == slot
  }

  // ---------------------------------------------------------------- top bids

  /** `i` is a strict left-to-right maximum of the values bid for its slot. */
  ghost predicate IsRecord(h: History, i: int) {
    && 0 <= i < |h| && h[i].Arrived?
    && forall j | ArrivedFor(h, j, h[i].bid.slot) && j < i :: ValueAsBigInt(h[j].bid) < ValueAsBigInt(h[i].bid)
  }

  ghost function TopLines(h: History): seq<CommonBid> {
    if h == [] then []
    else TopLines(h[..|h| - 1]) + if IsRecord(h, |h| - 1) then [h[|h| - 1].bid] else []
  }

  /** `i` is the earliest bid of maximal value among all bids for the slot. */
  ghost predicate EarliestMaximum(h: History, slot: nat, i: int) {
    && ArrivedFor(h, i, slot)
    && (forall j | ArrivedFor(h, j, slot) :: ValueAsBigInt(h[j].bid) <= ValueAsBigInt(h[i].bid))
    && (forall j | ArrivedFor(h, j, slot) && j < i :: ValueAsBigInt(h[j].bid) < ValueAsBigInt(h[i].bid))
  }

  ghost predicate IsTopBid(h: History, slot: nat, bid: CommonBid) {
    exists i :: EarliestMaximum(h, slot, i) && h[i].bid == bid
  }

  ghost predicate NoneFor(h: History, slot: nat) {
    forall i :: !ArrivedFor(h, i, slot)
  }

  lemma FirstIsRecord(h: History, bid: CommonBid)
    requires NoneFor(h, bid.slot)
    ensures IsRecord(h + [Arrived(bid)], |h|)
  {
    forall j | ArrivedFor(h + [Arrived(bid)], j, bid.slot) && j < |h| ensures ArrivedFor(h, j, bid.slot) {}
  }

  /** A new bid for a slot with bids is a record exactly if it beats the top bid. */
  lemma RecordBeatsTop(h: History, bid: CommonBid, top: CommonBid)
    requires IsTopBid(h, bid.slot, top)
    ensures IsRecord(h + [Arrived(bid)], |h|) <==> ValueAsBigInt(bid) > ValueAsBigInt(top)
  {
    var h' := h + [Arrived(bid)];
    forall j | ArrivedFor(h', j, bid.slot) && j < |h| ensures ArrivedFor(h, j, bid.slot) {}
    var i :| EarliestMaximum(h, bid.slot, i) && h[i].bid == top;
    assert ArrivedFor(h', i, bid.slot);
  }

  lemma RecordIsTop(h: History, bid: CommonBid)
    requires IsRecord(h + [Arrived(bid)], |h|)
    ensures IsTopBid(h + [Arrived(bid)], bid.slot, bid)
  {
    assert EarliestMaximum(h + [Arrived(bid)], bid.slot, |h|);
  }

  lemma TopStays(h: History, bid: CommonBid, top: CommonBid)
    requires IsTopBid(h, bid.slot, top) && !IsRecord(h + [Arrived(bid)], |h|)
    ensures IsTopBid(h + [Arrived(bid)], bid.slot, top)
  {
    var h' := h + [Arrived(bid)];
    RecordBeatsTop(h, bid, top);
    var i :| EarliestMaximum(h, bid.slot, i) && h[i].bid == top;
    forall j | ArrivedFor(h', j, bid.slot) && j < |h| ensures ArrivedFor(h, j, bid.slot) {}
    assert EarliestMaximum(h', bid.slot, i);
  }

  /** Events of other slots, and evictions, leave the top bid of a slot alone. */
  lemma TopBidFrame(h: History, e: Event, slot: nat, top: CommonBid)
    requires IsTopBid(h, slot, top)
    requires e.Arrived? ==> e.bid.slot != slot
    ensures IsTopBid(h + [e], slot, top)
  {
    var i :| EarliestMaximum(h, slot, i) && h[i].bid == top;
    forall j | ArrivedFor(h + [e], j, slot) ensures ArrivedFor(h, j, slot) {}
    assert EarliestMaximum(h + [e], slot, i);
  }

  function ForSlot(lines: seq<CommonBid>, slot: nat): seq<CommonBid> {
    if lines == [] then []
    else ForSlot(lines[..|lines| - 1], slot) + if lines[|lines| - 1].slot == slot then [lines[|lines| - 1]] else []
  }

  lemma ForSlotAppend(lines: seq<CommonBid>, more: seq<CommonBid>, slot: nat)
    requires |more| <= 1
    ensures ForSlot(lines + more, slot) == ForSlot(lines, slot) + ForSlot(more, slot)
  {
    if more != [] {
      assert (lines + more)[..|lines|] == lines;
      assert more[..0] == [];
    } else {
      assert lines + more == lines;
    }
  }

  lemma NoneForStep(h: History, e: Event, slot: nat)
    ensures NoneFor(h + [e], slot) <==> NoneFor(h, slot) && !(e.Arrived? && e.bid.slot == slot)
  {
    if NoneFor(h + [e], slot) {
      forall i ensures !ArrivedFor(h, i, slot) { assert !ArrivedFor(h + [e], i, slot); }
      assert !ArrivedFor(h + [e], |h|, slot);
    } else {
      var i :| ArrivedFor(h + [e], i, slot);
      assert i < |h| ==> ArrivedFor(h, i, slot);
    }
  }

  ghost predicate Increasing(lines: seq<CommonBid>) {
    forall m, n | 0 <= m < n < |lines| :: ValueAsBigInt(lines[m]) < ValueAsBigInt(lines[n])
  }

  /** The lines have strictly increasing values and the last one is the top bid. */
  ghost predicate MatchesTop(h: History, slot: nat, lines: seq<CommonBid>) {
    && Increasing(lines)
    && (lines == [] <==> NoneFor(h, slot))
    && (lines != [] ==> IsTopBid(h, slot, lines[|lines| - 1]))
  }

  lemma TopLinesStep(h: History, e: Event, slot: nat)
    ensures ForSlot(TopLines(h + [e]), slot) ==
              ForSlot(TopLines(h), slot) + if IsRecord(h + [e], |h|) && e.bid.slot == slot then [e.bid] else []
  {
    assert (h + [e])[..|h|] == h;
    var more := if IsRecord(h + [e], |h|) then [e.bid] else [];
    ForSlotAppend(TopLines(h), more, slot);
    if more != [] { assert more[..0] == []; }
  }

  lemma MatchOtherSlot(h: History, e: Event, slot: nat, lines: seq<CommonBid>)
    requires MatchesTop(h, slot, lines) && (e.Arrived? ==> e.bid.slot != slot)
    ensures MatchesTop(h + [e], slot, lines)
  {
    NoneForStep(h, e, slot);
    if lines != [] {
      TopBidFrame(h, e, slot, lines[|lines| - 1]);
    }
  }

  lemma IncreasingAppend(lines: seq<CommonBid>, bid: CommonBid)
    requires Increasing(lines)
    requires lines != [] ==> ValueAsBigInt(lines[|lines| - 1]) < ValueAsBigInt(bid)
    ensures Increasing(lines + [bid])
  {
    var all := lines + [bid];
    forall m, n | 0 <= m < n < |all| ensures ValueAsBigInt(all[m]) < ValueAsBigInt(all[n]) {
      if n == |lines| && m < n - 1 {
        assert ValueAsBigInt(lines[m]) < ValueAsBigInt(lines[n - 1]);
      }
    }
  }

  lemma MatchRecord(h: History, bid: CommonBid, lines: seq<CommonBid>)
    requires MatchesTop(h, bid.slot, lines) && IsRecord(h + [Arrived(bid)], |h|)
    ensures MatchesTop(h + [Arrived(bid)], bid.slot, lines + [bid])
  {
    NoneForStep(h, Arrived(bid), bid.slot);
    if lines != [] {
      RecordBeatsTop(h, bid, lines[|lines| - 1]);
    }
    IncreasingAppend(lines, bid);
    RecordIsTop(h, bid);
    assert (lines + [bid])[|lines|] == bid;
  }

  lemma MatchNoRecord(h: History, bid: CommonBid, lines: seq<CommonBid>)
    requires MatchesTop(h, bid.slot, lines) && !IsRecord(h + [Arrived(bid)], |h|)
    ensures MatchesTop(h + [Arrived(bid)], bid.slot, lines)
  {
    NoneForStep(h, Arrived(bid), bid.slot);
    if lines == [] {
      FirstIsRecord(h, bid);
    } else {
      TopStays(h, bid, lines[|lines| - 1]);
    }
  }

  /** Cache and file agree on every history: the top lines of a slot are its records, and the
      last one is its top bid. */
  lemma {:induction false} TopLinesEndInTopBid(h: History, slot: nat)
    ensures MatchesTop(h, slot, ForSlot(TopLines(h), slot))
  {
    if h != [] {
      var n := |h| - 1;
      var front, e := h[..n], h[n];
      assert h == front + [e];
      var lines := ForSlot(TopLines(front), slot);
      TopLinesEndInTopBid(front, slot);
      TopLinesStep(front, e, slot);
      if !e.Arrived? || e.bid.slot != slot {
        MatchOtherSlot(front, e, slot, lines);
      } else if IsRecord(h, n) {
        MatchRecord(front, e.bid, lines);
      } else {
        MatchNoRecord(front, e.bid, lines);
      }
    }
  }

  // ---------------------------------------------------------------- deduplication

  ghost predicate SameKey(a: CommonBid, b: CommonBid) {
    a.slot == b.slot && UniqueKey(a) == UniqueKey(b)
  }

  ghost predicate EvictedBetween(h: History, j: int, i: int, slot: nat) {
    exists k | 0 <= j < k < i <= |h| :: h[k].Evicted? && slot < h[k].below
  }

  /** No bid with the same key since the last eviction of the slot. */
  ghost predicate IsNew(h: History, i: int) {
    && 0 <= i < |h| && h[i].Arrived?
    && forall j | ArrivedFor(h, j, h[i].bid.slot) && j < i && SameKey(h[j].bid, h[i].bid) ::
         EvictedBetween(h, j, i, h[i].bid.slot)
  }

  ghost function AllLines(h: History): seq<CommonBid> {
    if h == [] then []
    else AllLines(h[..|h| - 1]) + if IsNew(h, |h| - 1) then [h[|h| - 1].bid] else []
  }

  // The deduplication entries alive at the end of a history.
  ghost predicate Live(h: History, slot: nat, key: string) {
    exists j | ArrivedFor(h, j, slot) :: UniqueKey(h[j].bid) == key && !EvictedBetween(h, j, |h|, slot)
  }

  lemma EvictedBetweenAppend(h: History, e: Event, j: int, i: int, slot: nat)
    requires i <= |h|
    ensures EvictedBetween(h + [e], j, i, slot) <==> EvictedBetween(h, j, i, slot)
  {
    if EvictedBetween(h, j, i, slot) {
      var k :| 0 <= j < k < i <= |h| && h[k].Evicted? && slot < h[k].below;
      assert (h + [e])[k] == h[k];
    }
    if EvictedBetween(h + [e], j, i, slot) {
      var k :| 0 <= j < k < i && (h + [e])[k].Evicted? && slot < (h + [e])[k].below;
      assert (h + [e])[k] == h[k];
    }
  }

  lemma NewIffNotLive(h: History, bid: CommonBid)
    ensures IsNew(h + [Arrived(bid)], |h|) <==> !Live(h, bid.slot, UniqueKey(bid))
  {
    var h' := h + [Arrived(bid)];
    if Live(h, bid.slot, UniqueKey(bid)) {
      var j :| ArrivedFor(h, j, bid.slot) && UniqueKey(h[j].bid) == UniqueKey(bid)
        && !EvictedBetween(h, j, |h|, bid.slot);
      EvictedBetweenAppend(h, Arrived(bid), j, |h|, bid.slot);
      assert ArrivedFor(h', j, bid.slot) && SameKey(h'[j].bid, bid);
    } else {
      forall j | ArrivedFor(h', j, bid.slot) && j < |h| && SameKey(h'[j].bid, bid)
        ensures EvictedBetween(h', j, |h|, bid.slot)
      {
        assert ArrivedFor(h, j, bid.slot);
        EvictedBetweenAppend(h, Arrived(bid), j, |h|, bid.slot);
      }
    }
  }

  lemma EvictedBetweenLast(h: History, e: Event, j: int, slot: nat)
    requires 0 <= j < |h|
    ensures EvictedBetween(h + [e], j, |h| + 1, slot) <==>
              EvictedBetween(h, j, |h|, slot) || (e.Evicted? && slot < e.below)
  {
    EvictedBetweenAppend(h, e, j, |h|, slot);
    assert (h + [e])[|h|] == e;
    if EvictedBetween(h + [e], j, |h| + 1, slot) && !(e.Evicted? && slot < e.below) {
      var k :| j < k < |h| + 1 && (h + [e])[k].Evicted? && slot < (h + [e])[k].below;
      assert EvictedBetween(h + [e], j, |h|, slot);
    }
    if EvictedBetween(h + [e], j, |h|, slot) {
      var k :| j < k < |h| && (h + [e])[k].Evicted? && slot < (h + [e])[k].below;
    }
  }

  lemma LiveStep(h: History, e: Event, slot: nat, key: string)
    ensures Live(h + [e], slot, key) <==>
              (Live(h, slot, key) && !(e.Evicted? && slot < e.below))
                || (e.Arrived? && e.bid.slot == slot && UniqueKey(e.bid) == key)
  {
    var h' := h + [e];
    if Live(h, slot, key) && !(e.Evicted? && slot < e.below) {
      var j :| ArrivedFor(h, j, slot) && UniqueKey(h[j].bid) == key && !EvictedBetween(h, j, |h|, slot);
      EvictedBetweenLast(h, e, j, slot);
      assert ArrivedFor(h', j, slot);
    }
    if e.Arrived? && e.bid.slot == slot && UniqueKey(e.bid) == key {
      assert ArrivedFor(h', |h|, slot) && !EvictedBetween(h', |h|, |h'|, slot);
    }
    if Live(h', slot, key) {
      var j :| ArrivedFor(h', j, slot) && UniqueKey(h'[j].bid) == key && !EvictedBetween(h', j, |h'|, slot);
      if j < |h| {
        EvictedBetweenLast(h, e, j, slot);
        assert ArrivedFor(h, j, slot);
      }
    }
  }

  // ---------------------------------------------------------------- deduplication as a set of tuples

  ghost predicate AllHyphenFree(h: History) {
    forall i | 0 <= i < |h| && h[i].Arrived? :: HyphenFree(h[i].bid)
  }

  ghost predicate SameTuple(h: History, j: int, i: int) {
    && 0 <= j < |h| && 0 <= i < |h| && h[j].Arrived? && h[i].Arrived?
    && TupleOf(h[j].bid) == TupleOf(h[i].bid)
  }

  /** Two lines with the same tuple always have an eviction of their slot between them. */
  lemma RepeatedLineNeedsEviction(h: History, j: nat, i: nat)
    requires AllHyphenFree(h) && j < i && SameTuple(h, j, i) && IsNew(h, i)
    ensures EvictedBetween(h, j, i, h[i].bid.slot)
  {
    UniqueKeyInjective(h[j].bid, h[i].bid);
    assert ArrivedFor(h, j, h[i].bid.slot);
  }

  lemma EvictionSplit(h: History, j: nat, m: nat, i: nat, slot: nat)
    requires j <= m < i < |h| && h[m].Arrived? && EvictedBetween(h, j, i, slot)
    ensures EvictedBetween(h, j, m, slot) || EvictedBetween(h, m, i, slot)
  {
    var k :| j < k < i && h[k].Evicted? && slot < h[k].below;
    assert k != m;
  }

  /** No bid is lost: every arrival has a line with its tuple, itself or an earlier one, with
      no eviction of the slot in between. */
  lemma {:induction false} EveryArrivalHasALine(h: History, i: nat) returns (j: nat)
    requires AllHyphenFree(h) && i < |h| && h[i].Arrived?
    ensures j <= i && IsNew(h, j) && SameTuple(h, j, i) && !EvictedBetween(h, j, i, h[i].bid.slot)
    decreases i
  {
    var slot := h[i].bid.slot;
    if IsNew(h, i) {
      j := i;
    } else {
      var m :| ArrivedFor(h, m, slot) && m < i && SameKey(h[m].bid, h[i].bid) && !EvictedBetween(h, m, i, slot);
      UniqueKeyInjective(h[m].bid, h[i].bid);
      j := EveryArrivalHasALine(h, m);
      if EvictedBetween(h, j, i, slot) {
        EvictionSplit(h, j, m, i, slot);
      }
    }
  }

  /** No two arrivals of one tuple have an eviction of their slot between them. */
  ghost predicate NoneAfterEviction(h: History) {
    forall j, i | j < i && SameTuple(h, j, i) :: !EvictedBetween(h, j, i, h[i].bid.slot)
  }

  /** No bid arrives for a slot that housekeeping has already dropped. */
  ghost predicate NoLateBids(h: History) {
    forall k, i | 0 <= k < i < |h| && h[k].Evicted? && h[i].Arrived? :: h[i].bid.slot >= h[k].below
  }

  lemma NoLateBidsSuffices(h: History)
    requires NoLateBids(h)
    ensures NoneAfterEviction(h)
  {
  }

  ghost predicate IsFirstArrival(h: History, i: int) {
    0 <= i < |h| && h[i].Arrived? && forall j | 0 <= j < i :: !SameTuple(h, j, i)
  }

  lemma NewIsFirstArrival(h: History, i: nat)
    requires AllHyphenFree(h) && NoneAfterEviction(h) && i < |h|
    ensures IsNew(h, i) <==> IsFirstArrival(h, i)
  {
    if IsNew(h, i) {
      forall j | 0 <= j < i ensures !SameTuple(h, j, i) {
        if SameTuple(h, j, i) {
          RepeatedLineNeedsEviction(h, j, i);
        }
      }
    } else if h[i].Arrived? {
      var j := EveryArrivalHasALine(h, i);
      assert j != i;
    }
  }

  ghost predicate IsFirstLine(h: History, bid: CommonBid) {
    exists i :: IsFirstArrival(h, i) && h[i].bid == bid
  }

  ghost predicate HasTuple(lines: seq<CommonBid>, t: Tuple) {
    exists n | 0 <= n < |lines| :: TupleOf(lines[n]) == t
  }

  /** Exactly one line per distinct tuple, and it is the first arrival of that tuple. */
  ghost predicate OneLinePerTuple(h: History, lines: seq<CommonBid>) {
    && (forall m, n | 0 <= m < n < |lines| :: TupleOf(lines[m]) != TupleOf(lines[n]))
    && (forall i | 0 <= i < |h| && h[i].Arrived? :: HasTuple(lines, TupleOf(h[i].bid)))
    && (forall n | 0 <= n < |lines| :: IsFirstLine(h, lines[n]))
  }

  lemma FirstLineAppend(h: History, e: Event, bid: CommonBid)
    requires IsFirstLine(h, bid)
    ensures IsFirstLine(h + [e], bid)
  {
    var i :| IsFirstArrival(h, i) && h[i].bid == bid;
    forall j | 0 <= j < i ensures !SameTuple(h + [e], j, i) {
      assert !SameTuple(h, j, i);
    }
    assert IsFirstArrival(h + [e], i);
  }

  lemma OneLineKept(h: History, e: Event, lines: seq<CommonBid>)
    requires OneLinePerTuple(h, lines)
    requires !IsFirstArrival(h + [e], |h|)
    ensures OneLinePerTuple(h + [e], lines)
  {
    var h' := h + [e];
    forall n | 0 <= n < |lines| ensures IsFirstLine(h', lines[n]) {
      FirstLineAppend(h, e, lines[n]);
    }
    forall i | 0 <= i < |h'| && h'[i].Arrived? ensures HasTuple(lines, TupleOf(h'[i].bid)) {
      if i == |h| {
        var j :| 0 <= j < |h| && SameTuple(h', j, |h|);
        assert h[j] == h'[j];
      } else {
        assert h[i] == h'[i];
      }
    }
  }

  lemma OneLineAdded(h: History, bid: CommonBid, lines: seq<CommonBid>)
    requires OneLinePerTuple(h, lines)
    requires IsFirstArrival(h + [Arrived(bid)], |h|)
    ensures OneLinePerTuple(h + [Arrived(bid)], lines + [bid])
  {
    var h', all := h + [Arrived(bid)], lines + [bid];
    forall n | 0 <= n < |all| ensures IsFirstLine(h', all[n]) {
      if n < |lines| {
        FirstLineAppend(h, Arrived(bid), lines[n]);
      } else {
        assert IsFirstArrival(h', |h|) && h'[|h|].bid == bid;
      }
    }
    forall m | 0 <= m < |lines| ensures TupleOf(lines[m]) != TupleOf(bid) {
      assert IsFirstLine(h, lines[m]);
      var i :| IsFirstArrival(h, i) && h[i].bid == lines[m];
      assert !SameTuple(h', i, |h|) && h'[i] == h[i];
    }
    forall i | 0 <= i < |h'| && h'[i].Arrived? ensures HasTuple(all, TupleOf(h'[i].bid)) {
      if i < |h| {
        assert h'[i] == h[i] && HasTuple(lines, TupleOf(h[i].bid));
        var n :| 0 <= n < |lines| && TupleOf(lines[n]) == TupleOf(h[i].bid);
        assert all[n] == lines[n];
      } else {
        assert all[|lines|] == bid;
      }
    }
  }

  lemma EvictedBetweenPrefix(h: History, n: nat, j: int, i: int, slot: nat)
    requires i <= n <= |h|
    ensures EvictedBetween(h[..n], j, i, slot) <==> EvictedBetween(h, j, i, slot)
  {
    if EvictedBetween(h, j, i, slot) {
      var k :| 0 <= j < k < i && h[k].Evicted? && slot < h[k].below;
      assert h[..n][k] == h[k];
    }
  }

  lemma PrefixHypotheses(h: History, n: nat)
    requires n <= |h|
    ensures AllHyphenFree(h) ==> AllHyphenFree(h[..n])
    ensures NoneAfterEviction(h) ==> NoneAfterEviction(h[..n])
  {
    if NoneAfterEviction(h) {
      forall j, i | j < i && SameTuple(h[..n], j, i) ensures !EvictedBetween(h[..n], j, i, h[..n][i].bid.slot) {
        assert SameTuple(h, j, i);
        EvictedBetweenPrefix(h, n, j, i, h[i].bid.slot);
      }
    }
  }

  lemma {:induction false} OneLineIfNoneAfterEviction(h: History)
    requires AllHyphenFree(h) && NoneAfterEviction(h)
    ensures OneLinePerTuple(h, AllLines(h))
  {
    if h != [] {
      var n := |h| - 1;
      assert h == h[..n] + [h[n]];
      PrefixHypotheses(h, n);
      OneLineIfNoneAfterEviction(h[..n]);
      NewIsFirstArrival(h, n);
      if IsNew(h, n) {
        OneLineAdded(h[..n], h[n].bid, AllLines(h[..n]));
        assert AllLines(h) == AllLines(h[..n]) + [h[n].bid];
      } else {
        OneLineKept(h[..n], h[n], AllLines(h[..n]));
        assert AllLines(h) == AllLines(h[..n]);
      }
    }
  }

  lemma NewInPrefix(h: History, n: nat, i: nat)
    requires i < n <= |h| && IsNew(h, i)
    ensures IsNew(h[..n], i)
  {
    forall j | ArrivedFor(h[..n], j, h[i].bid.slot) && j < i && SameKey(h[..n][j].bid, h[i].bid)
      ensures EvictedBetween(h[..n], j, i, h[i].bid.slot)
    {
      assert ArrivedFor(h, j, h[i].bid.slot);
      EvictedBetweenPrefix(h, n, j, i, h[i].bid.slot);
    }
  }

  /** The line of a new bid comes after the lines of everything before it. */
  lemma {:induction false} LineOfNew(h: History, i: nat)
    requires i < |h| && IsNew(h, i)
    ensures |AllLines(h[..i])| < |AllLines(h)| && AllLines(h)[|AllLines(h[..i])|] == h[i].bid
  {
    var n := |h| - 1;
    if i < n {
      NewInPrefix(h, n, i);
      LineOfNew(h[..n], i);
      assert h[..n][..i] == h[..i];
    }
  }

  lemma TwoLinesIfEvicted(h: History, j: nat, i: nat)
    requires AllHyphenFree(h) && j < i && SameTuple(h, j, i) && EvictedBetween(h, j, i, h[i].bid.slot)
    ensures !OneLinePerTuple(h, AllLines(h))
  {
    var first := EveryArrivalHasALine(h, j);
    var second := EveryArrivalHasALine(h, i);
    var k :| j < k < i && h[k].Evicted? && h[i].bid.slot < h[k].below;
    assert first <= j < second;
    LineOfNew(h, first);
    LineOfNew(h, second);
    NewInPrefix(h, second, first);
    LineOfNew(h[..second], first);
    assert h[..second][..first] == h[..first];
    assert TupleOf(AllLines(h)[|AllLines(h[..first])|]) == TupleOf(AllLines(h)[|AllLines(h[..second])|]);
  }

  /** Deduplication is a set of tuples, one line per distinct tuple and its first arrival, exactly if
      no two arrivals of a tuple have an eviction of their slot between them. */
  lemma DedupExactly(h: History)
    requires AllHyphenFree(h)
    ensures OneLinePerTuple(h, AllLines(h)) <==> NoneAfterEviction(h)
  {
    if NoneAfterEviction(h) {
      OneLineIfNoneAfterEviction(h);
    } else {
      var j, i :| j < i && SameTuple(h, j, i) && EvictedBetween(h, j, i, h[i].bid.slot);
      TwoLinesIfEvicted(h, j, i);
    }
  }

  /** A bid that arrives again after housekeeping has dropped its slot is written twice. */
  lemma LateBidIsWrittenTwice(b: CommonBid, h: History)
    requires HyphenFree(b) && h == [Arrived(b), Evicted(b.slot + 1), Arrived(b)]
    ensures AllLines(h) == [b, b] && !OneLinePerTuple(h, AllLines(h))
  {
    assert AllHyphenFree(h);
    assert h[1].Evicted? && b.slot < h[1].below;
    assert SameTuple(h, 0, 2) && EvictedBetween(h, 0, 2, b.slot);
    assert h[..2] == [Arrived(b), Evicted(b.slot + 1)] && h[..2][..1] == [Arrived(b)] && h[..1][..0] == [];
    assert IsNew(h, 2) && IsNew(h[..2][..1], 0) && AllLines([Arrived(b)]) == [b] && AllLines(h[..2]) == [b];
    DedupExactly(h);
  }

  /** It is one if no bid arrives for a slot that housekeeping has dropped. */
  lemma DedupIsASetOfTuples(h: History)
    requires AllHyphenFree(h) && NoLateBids(h)
    ensures OneLinePerTuple(h, AllLines(h))
  {
    NoLateBidsSuffices(h);
    DedupExactly(h);
  }
}
