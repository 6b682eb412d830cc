/** The collector's select loop over its three input channels
    (`services/bidcollect/bidcollector.go`), and what its freedom of choice cannot change. */
module Collector {
  import opened Bids
  import opened BidHistory
  import BidProcessor
  import opened Sequences
  import opened Wrappers

  /** What one message of a channel hands to the processor. */
  type Batch = seq<CommonBid>

  function Flat(batches: seq<Batch>): seq<CommonBid> {
    if batches == [] then [] else Flat(batches[..|batches| - 1]) + batches[|batches| - 1]
  }

  datatype Source = Ultrasound | DataAPI | GetHeader

  /** The channel contents, each channel in its own order. */
  datatype Channels = Channels(ultrasound: seq<Batch>, dataAPI: seq<Batch>, getHeader: seq<Batch>) {
    function Of(s: Source): seq<Batch> {
      match s case Ultrasound => ultrasound case DataAPI => dataAPI case GetHeader => getHeader
    }

    function Set(s: Source, batches: seq<Batch>): Channels {
      match s
      case Ultrasound => this.(ultrasound := batches)
      case DataAPI => this.(dataAPI := batches)
      case GetHeader => this.(getHeader := batches)
    }

    /** The messages of `this` come before those of `later`, channel by channel. */
    function Then(later: Channels): Channels {
      Channels(ultrasound + later.ultrasound, dataAPI + later.dataAPI, getHeader + later.getHeader)
    }

    function Bids(): multiset<CommonBid> {
      multiset(Flat(ultrasound)) + multiset(Flat(dataAPI)) + multiset(Flat(getHeader))
    }
  }

  /** The choices use up exactly the messages of the three channels. */
  ghost predicate UsesUp(choices: seq<Source>, ch: Channels) {
    && multiset(choices)[Ultrasound] == |ch.ultrasound|
    && multiset(choices)[DataAPI] == |ch.dataAPI|
    && multiset(choices)[GetHeader] == |ch.getHeader|
  }

  lemma UsesUpFront(choices: seq<Source>, ch: Channels)
    requires UsesUp(choices, ch) && choices != []
    ensures var s := choices[|choices| - 1];
            ch.Of(s) != [] && UsesUp(choices[..|choices| - 1], ch.Set(s, ch.Of(s)[..|ch.Of(s)| - 1]))
  {
    var s := choices[|choices| - 1];
    assert choices == choices[..|choices| - 1] + [s];
  }

  /** The messages in the order in which the choices take them. */
  ghost function Merge(choices: seq<Source>, ch: Channels): seq<Batch>
    requires UsesUp(choices, ch)
  {
    if choices == [] then []
    else
      var s := choices[|choices| - 1];
      UsesUpFront(choices, ch);
      var own := ch.Of(s);
      Merge(choices[..|choices| - 1], ch.Set(s, own[..|own| - 1])) + [own[|own| - 1]]
  }

  lemma BidsFront(ch: Channels, s: Source)
    requires ch.Of(s) != []
    ensures var own := ch.Of(s);
            ch.Bids() == ch.Set(s, own[..|own| - 1]).Bids() + multiset(own[|own| - 1])
  {
  }

  lemma {:induction false} MergeKeepsBids(choices: seq<Source>, ch: Channels)
    requires UsesUp(choices, ch)
    ensures multiset(Flat(Merge(choices, ch))) == ch.Bids()
  {
    if choices == [] {
      assert ch == Channels([], [], []);
    } else {
      var s := choices[|choices| - 1];
      var own := ch.Of(s);
      UsesUpFront(choices, ch);
      var rest := ch.Set(s, own[..|own| - 1]);
      MergeKeepsBids(choices[..|choices| - 1], rest);
      BidsFront(ch, s);
      var front := Merge(choices[..|choices| - 1], rest);
      assert Merge(choices, ch)[..|front|] == front;
    }
  }

  // ---------------------------------------------------------------- the loop

  /** The choices took the messages `taken`, in channel order, and left `rest`; the processor has
      seen their bids, in that order, and nothing else. */
  ghost predicate Handled(start: Channels, before: History, rest: Channels, after: History, choices: seq<Source>,
                          taken: Channels) {
    && UsesUp(choices, taken)
    && start == taken.Then(rest)
    && after == before + BidProcessor.Arrivals(Flat(Merge(choices, taken)))
  }

  class BidCollector {
    const processor: BidProcessor.BidProcessor
    var channels: Channels

    constructor (processor: BidProcessor.BidProcessor, channels: Channels)
      ensures this.processor == processor && this.channels == channels
    {
      this.processor, this.channels := processor, channels;
    }

    /** The endless loop, for as many rounds as `wanted` has: each takes one message from the
        chosen channel, or waits if that channel is empty. */
    method Run(wanted: seq<Source>) returns (ghost choices: seq<Source>, ghost taken: Channels)
      requires processor.Valid()
      modifies this`channels, processor, processor.fs
      ensures processor.Valid()
      ensures Handled(old(channels), old(processor.history), channels, processor.history, choices, taken)
    {
      choices, taken := [], Channels([], [], []);
      for i := 0 to |wanted|
        invariant processor.Valid()
        invariant Handled(old(channels), old(processor.history), channels, processor.history, choices, taken)
      {
        var s := wanted[i];
        if |channels.Of(s)| > 0 {
          var batch := channels.Of(s)[0];
          HandleOne(old(channels), old(processor.history), channels, processor.history, choices, taken, s);
          choices, taken := choices + [s], taken.Set(s, taken.Of(s) + [batch]);
          channels := channels.Set(s, channels.Of(s)[1..]);
          processor.ProcessBids(batch);
        }
      }
    }
  }

  lemma UsesUpMore(choices: seq<Source>, ch: Channels, s: Source, batch: Batch)
    requires UsesUp(choices, ch)
    ensures UsesUp(choices + [s], ch.Set(s, ch.Of(s) + [batch]))
  {
  }

  lemma TakeMore(choices: seq<Source>, ch: Channels, s: Source, batch: Batch)
    requires UsesUp(choices, ch)
    ensures UsesUp(choices + [s], ch.Set(s, ch.Of(s) + [batch]))
    ensures Merge(choices + [s], ch.Set(s, ch.Of(s) + [batch])) == Merge(choices, ch) + [batch]
  {
    UsesUpMore(choices, ch, s, batch);
    var ch' := ch.Set(s, ch.Of(s) + [batch]);
    assert (choices + [s])[..|choices|] == choices;
    assert ch'.Of(s) == ch.Of(s) + [batch] && ch'.Of(s)[..|ch.Of(s)|] == ch.Of(s);
    assert ch'.Set(s, ch.Of(s)) == ch;
  }

  lemma ArrivalsMore(batches: seq<Batch>, batch: Batch)
    ensures BidProcessor.Arrivals(Flat(batches + [batch])) ==
              BidProcessor.Arrivals(Flat(batches)) + BidProcessor.Arrivals(batch)
  {
    assert (batches + [batch])[..|batches|] == batches;
  }

  lemma HandleOne(start: Channels, before: History, rest: Channels, after: History, choices: seq<Source>,
                  taken: Channels, s: Source)
    requires Handled(start, before, rest, after, choices, taken) && rest.Of(s) != []
    ensures var batch := rest.Of(s)[0];
            Handled(start, before, rest.Set(s, rest.Of(s)[1..]), after + BidProcessor.Arrivals(batch),
                    choices + [s], taken.Set(s, taken.Of(s) + [batch]))
  {
    var batch := rest.Of(s)[0];
    TakeMore(choices, taken, s, batch);
    MoveOne(taken, rest, s);
    var merged := Merge(choices, taken);
    ArrivalsMore(merged, batch);
    Reassociate(before, BidProcessor.Arrivals(Flat(merged)), BidProcessor.Arrivals(batch));
  }

  lemma Reassociate(x: History, y: History, z: History)
    ensures x + y + z == x + (y + z)
  {
  }

  lemma MoveOne(taken: Channels, rest: Channels, s: Source)
    requires rest.Of(s) != []
    ensures taken.Set(s, taken.Of(s) + [rest.Of(s)[0]]).Then(rest.Set(s, rest.Of(s)[1..])) == taken.Then(rest)
  {
    var own := rest.Of(s);
    assert taken.Of(s) + [own[0]] + own[1..] == taken.Of(s) + own;
  }

  // ---------------------------------------------------------------- what no interleaving changes

  function KeySet(bids: seq<CommonBid>): set<(nat, string)> {
    set bid | bid in bids :: (bid.slot, UniqueKey(bid))
  }

  ghost predicate IsMaximal(bids: seq<CommonBid>, slot: nat, top: CommonBid) {
    && top in bids && top.slot == slot
    && forall bid | bid in bids && bid.slot == slot :: ValueAsBigInt(bid) <= ValueAsBigInt(top)
  }

  lemma LiveWithoutEviction(bids: seq<CommonBid>, slot: nat, key: string)
    ensures Live(BidProcessor.Arrivals(bids), slot, key) <==> (slot, key) in KeySet(bids)
  {
    var h := BidProcessor.Arrivals(bids);
    if (slot, key) in KeySet(bids) {
      var bid :| bid in bids && bid.slot == slot && UniqueKey(bid) == key;
      var j :| 0 <= j < |bids| && bids[j] == bid;
      assert ArrivedFor(h, j, slot) && !EvictedBetween(h, j, |h|, slot);
    }
    if Live(h, slot, key) {
      var j :| ArrivedFor(h, j, slot) && UniqueKey(h[j].bid) == key;
      assert bids[j] in bids;
    }
  }

  lemma TopIsMaximal(bids: seq<CommonBid>, slot: nat, top: CommonBid)
    requires IsTopBid(BidProcessor.Arrivals(bids), slot, top)
    ensures IsMaximal(bids, slot, top)
  {
    var h := BidProcessor.Arrivals(bids);
    var i :| EarliestMaximum(h, slot, i) && h[i].bid == top;
    assert bids[i] in bids;
    forall bid | bid in bids && bid.slot == slot ensures ValueAsBigInt(bid) <= ValueAsBigInt(top) {
      var j :| 0 <= j < |bids| && bids[j] == bid;
      assert ArrivedFor(h, j, slot);
    }
  }

  lemma KeySetAppend(front: seq<CommonBid>, bid: CommonBid)
    ensures KeySet(front + [bid]) == KeySet(front) + {(bid.slot, UniqueKey(bid))}
  {
  }

  lemma OneMoreKey(keys: set<(nat, string)>, key: (nat, string))
    ensures |keys + {key}| == |keys| + if key in keys then 0 else 1
  {
    if key in keys { assert keys + {key} == keys; }
  }

  lemma LinesStep(front: seq<CommonBid>, bid: CommonBid)
    ensures |AllLines(BidProcessor.Arrivals(front + [bid]))|
         == |AllLines(BidProcessor.Arrivals(front))| + if (bid.slot, UniqueKey(bid)) in KeySet(front) then 0 else 1
  {
    var h := BidProcessor.Arrivals(front);
    assert BidProcessor.Arrivals(front + [bid]) == h + [Arrived(bid)];
    assert (h + [Arrived(bid)])[..|h|] == h;
    NewIffNotLive(h, bid);
    LiveWithoutEviction(front, bid.slot, UniqueKey(bid));
  }

  lemma {:induction false} LinesCountKeys(bids: seq<CommonBid>)
    ensures |AllLines(BidProcessor.Arrivals(bids))| == |KeySet(bids)|
  {
    if bids != [] {
      var front, bid := bids[..|bids| - 1], bids[|bids| - 1];
      assert bids == front + [bid];
      LinesCountKeys(front);
      LinesStep(front, bid);
      KeySetAppend(front, bid);
      OneMoreKey(KeySet(front), (bid.slot, UniqueKey(bid)));
    }
  }

  /** Processed in another order, the same bids give the same deduplication keys per slot, the
      same maximal value per slot and the same number of lines in the all-files. */
  ghost predicate SameOutcome(p: seq<CommonBid>, q: seq<CommonBid>) {
    var g, h := BidProcessor.Arrivals(p), BidProcessor.Arrivals(q);
    && (forall slot, key :: Live(g, slot, key) <==> Live(h, slot, key))
    && (forall slot, s, t | IsTopBid(g, slot, s) && IsTopBid(h, slot, t) :: ValueAsBigInt(s) == ValueAsBigInt(t))
    && |AllLines(g)| == |AllLines(h)|
  }

  lemma OrderIsIrrelevant(p: seq<CommonBid>, q: seq<CommonBid>)
    requires multiset(p) == multiset(q)
    ensures SameOutcome(p, q)
  {
    var g, h := BidProcessor.Arrivals(p), BidProcessor.Arrivals(q);
    AllSameMembers(p, q);
    assert KeySet(p) == KeySet(q);
    LinesCountKeys(p);
    LinesCountKeys(q);
    forall slot, key ensures Live(g, slot, key) <==> Live(h, slot, key) {
      LiveWithoutEviction(p, slot, key);
      LiveWithoutEviction(q, slot, key);
    }
    forall slot, s, t | IsTopBid(g, slot, s) && IsTopBid(h, slot, t) ensures ValueAsBigInt(s) == ValueAsBigInt(t) {
      TopIsMaximal(p, slot, s);
      TopIsMaximal(q, slot, t);
    }
  }

  /** Confluence: the merges may differ, and so may the batch boundaries within a channel. */
  lemma InterleavingsConfluent(choices: seq<Source>, ch: Channels, choices': seq<Source>, ch': Channels)
    requires UsesUp(choices, ch) && UsesUp(choices', ch')
    requires Flat(ch.ultrasound) == Flat(ch'.ultrasound) && Flat(ch.dataAPI) == Flat(ch'.dataAPI)
    requires Flat(ch.getHeader) == Flat(ch'.getHeader)
    ensures SameOutcome(Flat(Merge(choices, ch)), Flat(Merge(choices', ch')))
  {
    MergeKeepsBids(choices, ch);
    MergeKeepsBids(choices', ch');
    OrderIsIrrelevant(Flat(Merge(choices, ch)), Flat(Merge(choices', ch')));
  }

  // ---------------------------------------------------------------- what an interleaving can change

  /** The first bid of a value for a slot. */
  function FirstWith(bids: seq<CommonBid>, slot: nat, value: int): Option<CommonBid> {
    if bids == [] then None
    else
      var first, last := FirstWith(bids[..|bids| - 1], slot, value), bids[|bids| - 1];
      if first == None && last.slot == slot && ValueAsBigInt(last) == value then Some(last) else first
  }

  lemma {:induction false} FirstWithAppend(a: seq<CommonBid>, b: seq<CommonBid>, slot: nat, value: int)
    ensures FirstWith(a + b, slot, value) ==
              if FirstWith(a, slot, value).Some? then FirstWith(a, slot, value) else FirstWith(b, slot, value)
  {
    if b == [] {
      assert a + b == a;
    } else {
      assert (a + b)[..|a + b| - 1] == a + b[..|b| - 1];
      FirstWithAppend(a, b[..|b| - 1], slot, value);
    }
  }

  lemma {:induction false} FirstWithMeans(bids: seq<CommonBid>, slot: nat, value: int)
    ensures var first := FirstWith(bids, slot, value);
            && (first == None <==> forall bid | bid in bids && bid.slot == slot :: ValueAsBigInt(bid) != value)
            && (first.Some? ==> first.value in bids && first.value.slot == slot && ValueAsBigInt(first.value) == value)
  {
    if bids != [] {
      var n := |bids| - 1;
      FirstWithMeans(bids[..n], slot, value);
      assert bids == bids[..n] + [bids[n]];
    }
  }

  lemma {:induction false} FirstWithAt(bids: seq<CommonBid>, slot: nat, i: nat)
    requires i < |bids| && bids[i].slot == slot
    requires forall j | 0 <= j < i && bids[j].slot == slot :: ValueAsBigInt(bids[j]) != ValueAsBigInt(bids[i])
    ensures FirstWith(bids, slot, ValueAsBigInt(bids[i])) == Some(bids[i])
  {
    var value := ValueAsBigInt(bids[i]);
    FirstWithMeans(bids[..i], slot, value);
    assert bids == bids[..i + 1] + bids[i + 1..] && bids[..i + 1][..i] == bids[..i];
    FirstWithAppend(bids[..i + 1], bids[i + 1..], slot, value);
  }

  /** The cached top bid is the first bid of the maximal value. */
  lemma TopIsFirstMaximal(bids: seq<CommonBid>, slot: nat, top: CommonBid)
    requires IsTopBid(BidProcessor.Arrivals(bids), slot, top)
    ensures IsMaximal(bids, slot, top) && FirstWith(bids, slot, ValueAsBigInt(top)) == Some(top)
  {
    TopIsMaximal(bids, slot, top);
    var h := BidProcessor.Arrivals(bids);
    var i :| EarliestMaximum(h, slot, i) && h[i].bid == top;
    forall j | 0 <= j < i && bids[j].slot == slot ensures ValueAsBigInt(bids[j]) != ValueAsBigInt(bids[i]) {
      assert ArrivedFor(h, j, slot);
    }
    FirstWithAt(bids, slot, i);
  }

  lemma TopExists(bids: seq<CommonBid>, slot: nat, top: CommonBid)
    requires IsMaximal(bids, slot, top) && FirstWith(bids, slot, ValueAsBigInt(top)) == Some(top)
    ensures IsTopBid(BidProcessor.Arrivals(bids), slot, top)
  {
    var h := BidProcessor.Arrivals(bids);
    TopLinesEndInTopBid(h, slot);
    var k :| 0 <= k < |bids| && bids[k] == top;
    assert ArrivedFor(h, k, slot);
    var lines := ForSlot(TopLines(h), slot);
    assert !NoneFor(h, slot);
    TopIsFirstMaximal(bids, slot, lines[|lines| - 1]);
  }

  function AllBids(ch: Channels): seq<CommonBid> {
    Flat(ch.ultrasound) + Flat(ch.dataAPI) + Flat(ch.getHeader)
  }

  lemma FirstWithFlat(batches: seq<Batch>, slot: nat, value: int)
    requires batches != []
    ensures var front, last := FirstWith(Flat(batches[..|batches| - 1]), slot, value), batches[|batches| - 1];
            FirstWith(Flat(batches), slot, value) == if front.Some? then front else FirstWith(last, slot, value)
  {
    FirstWithAppend(Flat(batches[..|batches| - 1]), batches[|batches| - 1], slot, value);
  }

  lemma MergeLast(choices: seq<Source>, ch: Channels, rest: Channels)
    requires UsesUp(choices, ch) && choices != []
    requires var s := choices[|choices| - 1]; ch.Of(s) != [] && rest == ch.Set(s, ch.Of(s)[..|ch.Of(s)| - 1])
    ensures UsesUp(choices[..|choices| - 1], rest)
    ensures var s := choices[|choices| - 1];
            Merge(choices, ch) == Merge(choices[..|choices| - 1], rest) + [ch.Of(s)[|ch.Of(s)| - 1]]
  {
    UsesUpFront(choices, ch);
  }

  /** No merge turns a bid into the first of its value that is not the first of its own channel. */
  lemma {:induction false} FirstComesFromAChannel(choices: seq<Source>, ch: Channels, slot: nat, value: int)
    returns (s: Source)
    requires UsesUp(choices, ch) && FirstWith(Flat(Merge(choices, ch)), slot, value).Some?
    ensures FirstWith(Flat(ch.Of(s)), slot, value) == FirstWith(Flat(Merge(choices, ch)), slot, value)
  {
    var last := choices[|choices| - 1];
    UsesUpFront(choices, ch);
    var own := ch.Of(last);
    var rest := ch.Set(last, own[..|own| - 1]);
    MergeLast(choices, ch, rest);
    var merged := Merge(choices[..|choices| - 1], rest);
    assert Merge(choices, ch)[..|Merge(choices, ch)| - 1] == merged;
    FirstWithFlat(Merge(choices, ch), slot, value);
    FirstWithFlat(own, slot, value);
    if FirstWith(Flat(merged), slot, value).Some? {
      s := FirstComesFromAChannel(choices[..|choices| - 1], rest, slot, value);
      StaysFirst(ch, last, s, slot, value);
    } else {
      s := last;
      NoneInChannel(choices[..|choices| - 1], rest, slot, value, last);
    }
  }

  lemma StaysFirst(ch: Channels, last: Source, s: Source, slot: nat, value: int)
    requires ch.Of(last) != []
    requires FirstWith(Flat(ch.Set(last, ch.Of(last)[..|ch.Of(last)| - 1]).Of(s)), slot, value).Some?
    ensures FirstWith(Flat(ch.Of(s)), slot, value)
         == FirstWith(Flat(ch.Set(last, ch.Of(last)[..|ch.Of(last)| - 1]).Of(s)), slot, value)
  {
    if s == last { FirstWithFlat(ch.Of(last), slot, value); }
  }

  lemma NoneInChannel(choices: seq<Source>, ch: Channels, slot: nat, value: int, s: Source)
    requires UsesUp(choices, ch) && FirstWith(Flat(Merge(choices, ch)), slot, value) == None
    ensures FirstWith(Flat(ch.Of(s)), slot, value) == None
  {
    MergeKeepsBids(choices, ch);
    FirstWithMeans(Flat(Merge(choices, ch)), slot, value);
    FirstWithMeans(Flat(ch.Of(s)), slot, value);
    forall bid | bid in Flat(ch.Of(s)) ensures bid in Flat(Merge(choices, ch)) {
      assert bid in multiset(Flat(ch.Of(s)));
      assert bid in ch.Bids();
      assert bid in multiset(Flat(Merge(choices, ch)));
    }
  }

  /** `ch` with more messages in one channel. */
  function More(ch: Channels, s: Source, batches: seq<Batch>): Channels {
    ch.Set(s, ch.Of(s) + batches)
  }

  lemma MoreByOne(ch: Channels, s: Source, batches: seq<Batch>)
    requires batches != []
    ensures More(ch, s, batches) == More(More(ch, s, batches[..|batches| - 1]), s, [batches[|batches| - 1]])
  {
    var n := |batches| - 1;
    assert batches == batches[..n] + [batches[n]];
    assert ch.Of(s) + batches == ch.Of(s) + batches[..n] + [batches[n]];
  }

  ghost predicate MergesTo(choices: seq<Source>, ch: Channels, merged: seq<Batch>) {
    UsesUp(choices, ch) && Merge(choices, ch) == merged
  }

  lemma TakeOneMore(choices: seq<Source>, ch: Channels, s: Source, batches: seq<Batch>, merged: seq<Batch>)
    requires batches != [] && MergesTo(choices, More(ch, s, batches[..|batches| - 1]), merged)
    ensures MergesTo(choices + [s], More(ch, s, batches), merged + [batches[|batches| - 1]])
  {
    TakeMore(choices, More(ch, s, batches[..|batches| - 1]), s, batches[|batches| - 1]);
    MoreByOne(ch, s, batches);
  }

  lemma NoMore(ch: Channels, s: Source)
    ensures More(ch, s, []) == ch
  {
    assert ch.Of(s) + [] == ch.Of(s);
  }

  lemma AddLast(merged: seq<Batch>, batches: seq<Batch>)
    requires batches != []
    ensures merged + batches[..|batches| - 1] + [batches[|batches| - 1]] == merged + batches
  {
  }

  lemma {:induction false} TakeAll(choices: seq<Source>, ch: Channels, s: Source, batches: seq<Batch>,
                                   merged: seq<Batch>)
    returns (more: seq<Source>)
    requires MergesTo(choices, ch, merged)
    ensures MergesTo(more, More(ch, s, batches), merged + batches)
  {
    if batches == [] {
      more := choices;
      NoMore(ch, s);
      assert merged + [] == merged;
    } else {
      var n := |batches| - 1;
      var front := TakeAll(choices, ch, s, batches[..n], merged);
      TakeOneMore(front, ch, s, batches, merged + batches[..n]);
      AddLast(merged, batches);
      more := front + [s];
    }
  }

  lemma Refilled(ch: Channels, x: Source, y: Source, z: Source)
    requires x != y && y != z && x != z
    ensures More(More(More(Channels([], [], []), x, ch.Of(x)), y, ch.Of(y)), z, ch.Of(z)) == ch
  {
    assert [] + ch.Of(x) == ch.Of(x) && [] + ch.Of(y) == ch.Of(y) && [] + ch.Of(z) == ch.Of(z);
  }

  /** A merge that takes all of one channel before anything else. */
  lemma ChannelFirst(ch: Channels, s: Source) returns (choices: seq<Source>, rest: seq<Batch>)
    ensures UsesUp(choices, ch) && Merge(choices, ch) == ch.Of(s) + rest
  {
    var none := Channels([], [], []);
    var y, z := if s == Ultrasound then DataAPI else Ultrasound, if s == GetHeader then DataAPI else GetHeader;
    Refilled(ch, s, y, z);
    var c1 := TakeAll([], none, s, ch.Of(s), []);
    var c2 := TakeAll(c1, More(none, s, ch.Of(s)), y, ch.Of(y), [] + ch.Of(s));
    choices := TakeAll(c2, More(More(none, s, ch.Of(s)), y, ch.Of(y)), z, ch.Of(z), [] + ch.Of(s) + ch.Of(y));
    rest := ch.Of(y) + ch.Of(z);
    ThreeParts(ch.Of(s), ch.Of(y), ch.Of(z));
  }

  lemma ThreeParts(x: seq<Batch>, y: seq<Batch>, z: seq<Batch>)
    ensures [] + x + y + z == x + (y + z)
  {
  }

  lemma {:induction false} FlatAppend(a: seq<Batch>, b: seq<Batch>)
    ensures Flat(a + b) == Flat(a) + Flat(b)
  {
    if b == [] {
      assert a + b == a;
    } else {
      assert (a + b)[..|a + b| - 1] == a + b[..|b| - 1];
      FlatAppend(a, b[..|b| - 1]);
      assert Flat(a) + Flat(b[..|b| - 1]) + b[|b| - 1] == Flat(a) + (Flat(b[..|b| - 1]) + b[|b| - 1]);
    }
  }

  lemma SameMaximal(choices: seq<Source>, ch: Channels, slot: nat, top: CommonBid)
    requires UsesUp(choices, ch)
    ensures IsMaximal(Flat(Merge(choices, ch)), slot, top) <==> IsMaximal(AllBids(ch), slot, top)
  {
    MergeKeepsBids(choices, ch);
    AllSameMembers(Flat(Merge(choices, ch)), AllBids(ch));
  }

  /** Every merge of the channels, each of which keeps its own order, caches the same top bid. */
  ghost predicate TopIndependent(ch: Channels, slot: nat) {
    forall c, d, s, t
      | UsesUp(c, ch) && UsesUp(d, ch) && IsTopBid(BidProcessor.Arrivals(Flat(Merge(c, ch))), slot, s)
        && IsTopBid(BidProcessor.Arrivals(Flat(Merge(d, ch))), slot, t) ::
      s == t
  }

  /** `bid` has the maximal value of the slot and is the first such bid of the channel. */
  ghost predicate FirstMaximal(ch: Channels, s: Source, slot: nat, bid: CommonBid) {
    IsMaximal(AllBids(ch), slot, bid) && FirstWith(Flat(ch.Of(s)), slot, ValueAsBigInt(bid)) == Some(bid)
  }

  ghost predicate ChannelsAgree(ch: Channels, slot: nat) {
    forall x, y, a, b | FirstMaximal(ch, x, slot, a) && FirstMaximal(ch, y, slot, b) :: a == b
  }

  /** The first maximal bid of any channel is the top bid of some merge. */
  lemma CanBeTop(ch: Channels, s: Source, slot: nat, bid: CommonBid) returns (choices: seq<Source>)
    requires FirstMaximal(ch, s, slot, bid)
    ensures UsesUp(choices, ch) && IsTopBid(BidProcessor.Arrivals(Flat(Merge(choices, ch))), slot, bid)
  {
    var rest;
    choices, rest := ChannelFirst(ch, s);
    FlatAppend(ch.Of(s), rest);
    FirstWithAppend(Flat(ch.Of(s)), Flat(rest), slot, ValueAsBigInt(bid));
    SameMaximal(choices, ch, slot, bid);
    TopExists(Flat(Merge(choices, ch)), slot, bid);
  }

  /** The top bid of any merge is the first maximal bid of some channel. */
  lemma TopIsFirstOfAChannel(choices: seq<Source>, ch: Channels, slot: nat, top: CommonBid) returns (s: Source)
    requires UsesUp(choices, ch) && IsTopBid(BidProcessor.Arrivals(Flat(Merge(choices, ch))), slot, top)
    ensures FirstMaximal(ch, s, slot, top)
  {
    TopIsFirstMaximal(Flat(Merge(choices, ch)), slot, top);
    SameMaximal(choices, ch, slot, top);
    s := FirstComesFromAChannel(choices, ch, slot, ValueAsBigInt(top));
  }

  /** Which bid is cached as the top bid is independent of the interleaving exactly when the first
      maximal bids of the channels that hold one coincide. */
  lemma TopBidIdentity(ch: Channels, slot: nat)
    ensures TopIndependent(ch, slot) <==> ChannelsAgree(ch, slot)
  {
    if TopIndependent(ch, slot) {
      forall x, y, a, b | FirstMaximal(ch, x, slot, a) && FirstMaximal(ch, y, slot, b) ensures a == b {
        var c := CanBeTop(ch, x, slot, a);
        var d := CanBeTop(ch, y, slot, b);
      }
    }
    if ChannelsAgree(ch, slot) {
      forall c, d, s, t
        | UsesUp(c, ch) && UsesUp(d, ch) && IsTopBid(BidProcessor.Arrivals(Flat(Merge(c, ch))), slot, s)
          && IsTopBid(BidProcessor.Arrivals(Flat(Merge(d, ch))), slot, t)
        ensures s == t
      {
        var x := TopIsFirstOfAChannel(c, ch, slot, s);
        var y := TopIsFirstOfAChannel(d, ch, slot, t);
      }
    }
  }

  lemma FlatOne(bids: seq<CommonBid>)
    ensures Flat([bids]) == bids
  {
    assert [bids][..0] == [] && Flat([]) + bids == bids;
  }

  /** Two different bids of one value from one channel: the earlier one always stays on top. */
  lemma EqualBidsOfOneSource(a: CommonBid, b: CommonBid)
    ensures TopIndependent(Channels([[a, b]], [], []), a.slot)
  {
    var ch := Channels([[a, b]], [], []);
    forall x, y, s, t | FirstMaximal(ch, x, a.slot, s) && FirstMaximal(ch, y, a.slot, t) ensures s == t {
      assert x == Ultrasound && y == Ultrasound;
    }
    TopBidIdentity(ch, a.slot);
  }

  /** From two channels the interleaving decides. */
  lemma EqualBidsOfTwoSources(a: CommonBid, b: CommonBid)
    requires a != b && a.slot == b.slot && ValueAsBigInt(a) == ValueAsBigInt(b)
    ensures !TopIndependent(Channels([[a]], [[b]], []), a.slot)
  {
    var ch := Channels([[a]], [[b]], []);
    FlatOne([a]);
    FlatOne([b]);
    assert AllBids(ch) == [a, b];
    FirstWithAt([a], a.slot, 0);
    FirstWithAt([b], a.slot, 0);
    assert FirstMaximal(ch, Ultrasound, a.slot, a) && FirstMaximal(ch, DataAPI, a.slot, b);
    TopBidIdentity(ch, a.slot);
  }
}
