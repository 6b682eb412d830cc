/** The bid processor (`services/bidcollect/bid-processor.go`).

    Batches and housekeeping passes hold `bidCacheLock` from beginning to end, so a run of the
    two threads is a sequence of the calls below; `ProcessorLocks` treats the locks themselves. */
module BidProcessor {
  import opened Bids
  import opened BidHistory
  import opened OutputFiles
  import opened GoArith
  import opened Sequences

  datatype OutFiles = OutFiles(fAll: nat, fTop: nat)

  const HANDLE_SECONDS := 60 * 60 * 2

  function InBucket(bids: seq<CommonBid>, bucket: int): seq<CommonBid> {
    if bids == [] then []
    else InBucket(bids[..|bids| - 1], bucket) + if BucketOf(bids[|bids| - 1]) == bucket then [bids[|bids| - 1]] else []
  }

  ghost function LinesOf(h: History, kind: Kind): seq<CommonBid> {
    if kind == All then AllLines(h) else TopLines(h)
  }

  /** The file of a bucket holds what it held at the start and the lines of its bucket. */
  ghost predicate FilesMatch(initial: Contents, contents: Contents, h: History) {
    forall name :: BidsOf(contents, name) == BidsOf(initial, name) + InBucket(LinesOf(h, name.kind), name.bucket)
  }

  /** A cache entry for exactly the keys alive in the history, under the bid's own key. */
  ghost predicate CacheMatches(cache: map<nat, map<string, CommonBid>>, h: History) {
    && (forall slot, key {:trigger Live(h, slot, key)} :: (slot in cache && key in cache[slot]) <==> Live(h, slot, key))
    && (forall slot, key | slot in cache && key in cache[slot] ::
          UniqueKey(cache[slot][key]) == key && cache[slot][key].slot == slot)
  }

  /** The top bid of every slot that ever had a bid, however long ago. */
  ghost predicate TopMatches(top: map<nat, CommonBid>, h: History) {
    forall slot: nat {:trigger NoneFor(h, slot)} {:trigger IsTopBid(h, slot, top[slot])} ::
      if slot in top then IsTopBid(h, slot, top[slot]) else NoneFor(h, slot)
  }

  /** The bid was added to the all-file and to the top-file of its bucket, as the flags say, and
      nothing else was. */
  ghost predicate Appended(before: Contents, after: Contents, bid: CommonBid, isNewBid: bool, isTopBid: bool) {
    forall name :: BidsOf(after, name) == BidsOf(before, name) + LinesFor(name, bid, isNewBid, isTopBid)
  }

  function LinesFor(name: FileName, bid: CommonBid, isNewBid: bool, isTopBid: bool): seq<CommonBid> {
    if name.bucket == BucketOf(bid) && (if name.kind == All then isNewBid else isTopBid) then [bid] else []
  }

  ghost predicate SameBids(before: Contents, after: Contents) {
    forall name :: BidsOf(after, name) == BidsOf(before, name)
  }

  ghost predicate AddedTo(before: Contents, after: Contents, file: FileName, bids: seq<CommonBid>) {
    forall name :: BidsOf(after, name) == BidsOf(before, name) + if name == file then bids else []
  }

  /** Both handles of every bucket are open on its two files, which have their headers. */
  ghost predicate HandlesMatch(outFiles: map<int, OutFiles>, handles: map<nat, FileName>, contents: Contents) {
    forall bucket | bucket in outFiles ::
      && HandleMatches(outFiles[bucket].fAll, FileName(All, bucket), handles, contents)
      && HandleMatches(outFiles[bucket].fTop, FileName(Top, bucket), handles, contents)
  }

  ghost predicate HandleMatches(fd: nat, name: FileName, handles: map<nat, FileName>, contents: Contents) {
    fd in handles && handles[fd] == name && name in contents && contents[name] != []
  }

  /** Files that have a header keep what they hold. */
  ghost predicate KeepsWritten(before: Contents, after: Contents) {
    forall name | name in before && before[name] != [] :: name in after && after[name] == before[name]
  }

  lemma OpeningKeepsHandles(outFiles: map<int, OutFiles>, handles: map<nat, FileName>, contents: Contents,
                            after: Contents, fd: nat, name: FileName)
    requires HandlesMatch(outFiles, handles, contents) && fd !in handles && KeepsWritten(contents, after)
    ensures HandlesMatch(outFiles, handles[fd := name], after)
  {
  }

  lemma NothingAdded(contents: Contents, file: FileName)
    ensures AddedTo(contents, contents, file, [])
  {
    forall name: FileName ensures BidsOf(contents, name) == BidsOf(contents, name) + [] {}
  }

  lemma TwoAppends(c0: Contents, c1: Contents, c2: Contents, c3: Contents, bid: CommonBid, isNewBid: bool,
                   isTopBid: bool)
    requires SameBids(c0, c1)
    requires AddedTo(c1, c2, FileName(All, BucketOf(bid)), if isNewBid then [bid] else [])
    requires AddedTo(c2, c3, FileName(Top, BucketOf(bid)), if isTopBid then [bid] else [])
    ensures Appended(c0, c3, bid, isNewBid, isTopBid)
  {
    forall name: FileName
      ensures BidsOf(c3, name) == BidsOf(c0, name) + LinesFor(name, bid, isNewBid, isTopBid)
    {
      TwoAppendsAt(c0, c1, c2, c3, bid, isNewBid, isTopBid, name);
    }
  }

  lemma TwoAppendsAt(c0: Contents, c1: Contents, c2: Contents, c3: Contents, bid: CommonBid, isNewBid: bool,
                     isTopBid: bool, name: FileName)
    requires SameBids(c0, c1)
    requires AddedTo(c1, c2, FileName(All, BucketOf(bid)), if isNewBid then [bid] else [])
    requires AddedTo(c2, c3, FileName(Top, BucketOf(bid)), if isTopBid then [bid] else [])
    ensures BidsOf(c3, name) == BidsOf(c0, name) + LinesFor(name, bid, isNewBid, isTopBid)
  {
    var before := BidsOf(c0, name);
    assert BidsOf(c1, name) == before;
    assert before + [] + [bid] == before + [bid] && before + [bid] + [] == before + [bid]
      && before + [] + [] == before + [];
  }

  class BidProcessor {
    const fs: FileSystem
    var outFiles: map<int, OutFiles>
    var bidCache: map<nat, map<string, CommonBid>>
    var topBidCache: map<nat, CommonBid>
    ghost var history: History
    ghost const initial: Contents

    ghost predicate HandlesOpen()
      reads this`outFiles, fs
    {
      HandlesMatch(outFiles, fs.handles, fs.contents)
    }

    ghost predicate Valid()
      reads this, fs
    {
      && fs.Valid()
      && HandlesOpen()
      && TopMatches(topBidCache, history)
      && CacheMatches(bidCache, history)
      && FilesMatch(initial, fs.contents, history)
    }

    constructor (fs: FileSystem)
      requires fs.Valid()
      ensures Valid() && this.fs == fs && history == [] && initial == fs.contents
      ensures fs.contents == old(fs.contents)
    {
      this.fs := fs;
      outFiles, bidCache, topBidCache := map[], map[], map[];
      history := [];
      initial := fs.contents;
    }

    method OpenWithHeader(name: FileName) returns (fd: nat)
      requires fs.Valid() && HandlesOpen()
      modifies fs
      ensures fs.Valid() && HandlesOpen()
      ensures fd !in old(fs.handles) && fs.handles == old(fs.handles)[fd := name]
      ensures HandleMatches(fd, name, fs.handles, fs.contents) && KeepsWritten(old(fs.contents), fs.contents)
      ensures SameBids(old(fs.contents), fs.contents)
    {
      fd := fs.OpenForAppend(name);
      var size := fs.Size(fd);
      if size == 0 {
        BidsInAppend([], Header);
        fs.Write(fd, Header);
      }
      OpeningKeepsHandles(outFiles, old(fs.handles), old(fs.contents), fs.contents, fd, name);
    }

    /** The two files of the bid's hour bucket, opened if they are not open. */
    method GetFiles(bid: CommonBid) returns (fAll: nat, fTop: nat)
      requires fs.Valid() && HandlesOpen()
      modifies this`outFiles, fs
      ensures fs.Valid() && HandlesOpen()
      ensures BucketOf(bid) in outFiles && outFiles[BucketOf(bid)] == OutFiles(fAll, fTop)
      ensures outFiles == old(outFiles)[BucketOf(bid) := OutFiles(fAll, fTop)]
      ensures BucketOf(bid) in old(outFiles) ==> outFiles == old(outFiles) && fs.handles == old(fs.handles)
      ensures SameBids(old(fs.contents), fs.contents)
    {
      var bucketTS := BucketOf(bid);
      if bucketTS in outFiles {
        return outFiles[bucketTS].fAll, outFiles[bucketTS].fTop;
      }
      fAll := OpenWithHeader(FileName(All, bucketTS));
      fTop := OpenWithHeader(FileName(Top, bucketTS));
      outFiles := outFiles[bucketTS := OutFiles(fAll, fTop)];
    }

    method AppendBid(fd: nat, bid: CommonBid)
      requires fs.Valid() && HandlesOpen() && fd in fs.handles && fs.contents[fs.handles[fd]] != []
      modifies fs`contents
      ensures fs.Valid() && HandlesOpen() && fs.contents[fs.handles[fd]] != []
      ensures fs.contents == old(fs.contents)[fs.handles[fd] := old(fs.contents)[fs.handles[fd]] + [BidLine(bid)]]
      ensures AddedTo(old(fs.contents), fs.contents, fs.handles[fd], [bid])
    {
      BidsInAppend(fs.contents[fs.handles[fd]], BidLine(bid));
      fs.Write(fd, BidLine(bid));
    }

    method WriteBidToFile(bid: CommonBid, isNewBid: bool, isTopBid: bool)
      requires fs.Valid() && HandlesOpen()
      modifies this`outFiles, fs
      ensures fs.Valid() && HandlesOpen()
      ensures Appended(old(fs.contents), fs.contents, bid, isNewBid, isTopBid)
    {
      var fAll, fTop := GetFiles(bid);
      ghost var c1 := fs.contents;
      NothingAdded(c1, FileName(All, BucketOf(bid)));
      if isNewBid {
        AppendBid(fAll, bid);
      }
      ghost var c2 := fs.contents;
      NothingAdded(c2, FileName(Top, BucketOf(bid)));
      if isTopBid {
        AppendBid(fTop, bid);
      }
      TwoAppends(old(fs.contents), c1, c2, fs.contents, bid, isNewBid, isTopBid);
    }

    /** The cache updates for one bid, and whether it is written to the two files. */
    method UpdateCaches(bid: CommonBid) returns (isNewBid: bool, isTopBid: bool)
      modifies this`bidCache, this`topBidCache
      ensures topBidCache == TopAfter(old(topBidCache), bid)
      ensures bidCache == CacheAfter(old(bidCache), bid)
      ensures isTopBid == BeatsTop(old(topBidCache), bid)
      ensures isNewBid == !IsCached(old(bidCache), bid)
      ensures !isNewBid ==> bidCache == old(bidCache)
    {
      isNewBid, isTopBid := false, false;
      if bid.slot !in bidCache {
        bidCache := bidCache[bid.slot := map[]];
      }
      if bid.slot !in topBidCache {
        topBidCache := topBidCache[bid.slot := bid];
        isTopBid := true;
      } else if ValueAsBigInt(bid) > ValueAsBigInt(topBidCache[bid.slot]) {
        topBidCache := topBidCache[bid.slot := bid];
        isTopBid := true;
      }
      if UniqueKey(bid) !in bidCache[bid.slot] {
        bidCache := bidCache[bid.slot := bidCache[bid.slot][UniqueKey(bid) := bid]];
        isNewBid := true;
      }
    }

    method ProcessBid(bid: CommonBid)
      requires Valid()
      modifies this`outFiles, this`bidCache, this`topBidCache, this`history, fs
      ensures Valid()
      ensures history == old(history) + [Arrived(bid)]
    {
      var isNewBid, isTopBid := UpdateCaches(bid);
      WriteBidToFile(bid, isNewBid, isTopBid);
      ArrivalStep(old(bidCache), old(topBidCache), initial, old(fs.contents), fs.contents, history, bid, isNewBid,
        isTopBid);
      history := history + [Arrived(bid)];
    }

    method ProcessBids(bids: seq<CommonBid>)
      requires Valid()
      modifies this`outFiles, this`bidCache, this`topBidCache, this`history, fs
      ensures Valid()
      ensures history == old(history) + Arrivals(bids)
    {
      for i := 0 to |bids|
        invariant Valid()
        invariant history == old(history) + Arrivals(bids[..i])
      {
        ProcessBid(bids[i]);
        assert Arrivals(bids[..i + 1]) == Arrivals(bids[..i]) + [Arrived(bids[i])];
      }
      assert bids[..|bids|] == bids;
    }

    method EvictBids(maxSlotInCache: nat)
      modifies this`bidCache
      ensures bidCache == CacheWithout(old(bidCache), maxSlotInCache)
    {
      var todo := bidCache.Keys;
      while todo != {}
        invariant todo <= old(bidCache).Keys
        invariant bidCache == map slot | slot in old(bidCache) && (slot in todo || slot >= maxSlotInCache) ::
                  old(bidCache)[slot]
        decreases |todo|
      {
        var slot := AnyOf(todo);
        if slot < maxSlotInCache {
          bidCache := bidCache - {slot};
        }
        todo := todo - {slot};
      }
    }

    method CloseBucket(bucket: int)
      requires fs.Valid() && HandlesOpen() && bucket in outFiles
      modifies this`outFiles, fs`handles
      ensures fs.Valid() && HandlesOpen()
      ensures outFiles == old(outFiles) - {bucket}
      ensures fs.handles == old(fs.handles) - {old(outFiles)[bucket].fAll, old(outFiles)[bucket].fTop}
    {
      var files := outFiles[bucket];
      outFiles := outFiles - {bucket};
      fs.Close(files.fAll);
      fs.Close(files.fTop);
    }

    /** One more bucket, when those of `done` have been treated. */
    method CloseIfStale(bucket: int, now: int, ghost before: map<int, OutFiles>, ghost handles: map<nat, FileName>,
                        ghost done: set<int>)
      requires fs.Valid() && HandlesOpen() && bucket in before && bucket !in done
      requires outFiles == FilesLeft(before, done, now) && fs.handles == handles - StaleHandles(before, done, now)
      modifies this`outFiles, fs`handles
      ensures fs.Valid() && HandlesOpen()
      ensures outFiles == FilesLeft(before, done + {bucket}, now)
      ensures fs.handles == handles - StaleHandles(before, done + {bucket}, now)
    {
      OneMoreBucket(before, handles, done, bucket, now);
      if IsStale(bucket, now) {
        CloseBucket(bucket);
      }
    }

    /** Closes and forgets the handles of the buckets that began more than two hours ago. */
    method CloseFiles(now: int)
      requires fs.Valid() && HandlesOpen()
      modifies this`outFiles, fs`handles
      ensures fs.Valid() && HandlesOpen()
      ensures outFiles == FilesLeft(old(outFiles), old(outFiles).Keys, now)
      ensures fs.handles == old(fs.handles) - StaleHandles(old(outFiles), old(outFiles).Keys, now)
    {
      var todo := outFiles.Keys;
      ghost var before, handles, done: set<int> := outFiles, fs.handles, {};
      NothingClosed(before, handles, now);
      while todo != {}
        invariant fs.Valid() && HandlesOpen()
        invariant todo <= before.Keys && done == before.Keys - todo
        invariant outFiles == FilesLeft(before, done, now)
        invariant fs.handles == handles - StaleHandles(before, done, now)
        decreases |todo|
      {
        var bucket := AnyOf(todo);
        CloseIfStale(bucket, now, before, handles, done);
        todo, done := todo - {bucket}, done + {bucket};
      }
    }

    /** `currentSlot - 3` is computed in uint64. The top bids and the files stay as they are. */
    method Housekeeping(currentSlot: nat, now: int)
      requires Valid()
      modifies this`bidCache, this`outFiles, this`history, fs`handles
      ensures Valid()
      ensures history == old(history) + [Evicted(Uint64(currentSlot - 3))]
      ensures outFiles == FilesLeft(old(outFiles), old(outFiles).Keys, now)
      ensures fs.handles == old(fs.handles) - StaleHandles(old(outFiles), old(outFiles).Keys, now)
      ensures 3 <= currentSlot < TWO_TO_64 ==>
                forall slot :: slot in bidCache <==> slot in old(bidCache) && slot + 3 >= currentSlot
      ensures forall bid | ReceivedWithin(bid, 3600, now) && BucketOf(bid) in old(outFiles) ::
                BucketOf(bid) in outFiles && outFiles[BucketOf(bid)] == old(outFiles)[BucketOf(bid)]
      ensures forall bid | ReceivedBefore(bid, 2 * 3600, now) :: BucketOf(bid) !in outFiles
      ensures forall bid | ReceivedBefore(bid, 2 * 3600, now) && BucketOf(bid) in old(outFiles) ::
                var files := old(outFiles)[BucketOf(bid)]; files.fAll !in fs.handles && files.fTop !in fs.handles
    {
      var maxSlotInCache := Uint64(currentSlot - 3);
      EvictionStep(bidCache, topBidCache, initial, fs.contents, history, maxSlotInCache);
      EvictBids(maxSlotInCache);
      CloseFiles(now);
      history := history + [Evicted(maxSlotInCache)];
      forall bid | ReceivedWithin(bid, 3600, now) ensures !IsStale(BucketOf(bid), now) { InUse(bid, now); }
      forall bid | ReceivedBefore(bid, 2 * 3600, now) ensures IsStale(BucketOf(bid), now) { OutOfUse(bid, now); }
    }
  }

  /** Received in the last `seconds` before `now`, or later. */
  predicate ReceivedWithin(bid: CommonBid, seconds: int, now: int) {
    bid.receivedAtMs >= 0 && bid.receivedAtMs >= (now - seconds) * 1000
  }

  predicate ReceivedBefore(bid: CommonBid, seconds: int, now: int) {
    0 <= bid.receivedAtMs < (now - seconds) * 1000
  }

  /** The bucket of a bid of the last hour is never closed. */
  lemma InUse(bid: CommonBid, now: int)
    requires ReceivedWithin(bid, 3600, now)
    ensures !IsStale(BucketOf(bid), now)
  {
    BucketContainsReceiveTime(bid);
  }

  /** No bucket of a bid received more than two hours ago stays open. */
  lemma OutOfUse(bid: CommonBid, now: int)
    requires ReceivedBefore(bid, 2 * 3600, now)
    ensures IsStale(BucketOf(bid), now)
  {
    BucketContainsReceiveTime(bid);
  }

  /** Of its own bucket, the first kind of file has the lines due for new bids and the second those due for
      top bids, behind what was in it before. */
  lemma FilesHold(initial: Contents, contents: Contents, h: History, bucket: int)
    requires FilesMatch(initial, contents, h)
    ensures BidsOf(contents, FileName(All, bucket))
            == BidsOf(initial, FileName(All, bucket)) + InBucket(AllLines(h), bucket)
    ensures BidsOf(contents, FileName(Top, bucket))
            == BidsOf(initial, FileName(Top, bucket)) + InBucket(TopLines(h), bucket)
  {
  }

  predicate IsStale(bucket: int, now: int) {
    now - bucket > HANDLE_SECONDS
  }

  /** The files that stay open when the stale ones among `buckets` are closed. */
  ghost function FilesLeft(outFiles: map<int, OutFiles>, buckets: set<int>, now: int): map<int, OutFiles> {
    map bucket | bucket in outFiles && !(bucket in buckets && IsStale(bucket, now)) :: outFiles[bucket]
  }

  ghost function StaleHandles(outFiles: map<int, OutFiles>, buckets: set<int>, now: int): set<nat> {
    (set bucket | bucket in buckets && bucket in outFiles && IsStale(bucket, now) :: outFiles[bucket].fAll)
    + (set bucket | bucket in buckets && bucket in outFiles && IsStale(bucket, now) :: outFiles[bucket].fTop)
  }

  lemma NothingClosed(outFiles: map<int, OutFiles>, handles: map<nat, FileName>, now: int)
    ensures FilesLeft(outFiles, {}, now) == outFiles && handles - StaleHandles(outFiles, {}, now) == handles
  {
  }

  lemma HandlesOfOneMore(outFiles: map<int, OutFiles>, done: set<int>, bucket: int, now: int)
    requires bucket in outFiles && bucket !in done
    ensures StaleHandles(outFiles, done + {bucket}, now) ==
              StaleHandles(outFiles, done, now)
                + if IsStale(bucket, now) then {outFiles[bucket].fAll, outFiles[bucket].fTop} else {}
  {
  }

  /** Treating one more bucket, on top of those already treated. */
  lemma OneMoreBucket(outFiles: map<int, OutFiles>, handles: map<nat, FileName>, done: set<int>, bucket: int, now: int)
    requires bucket in outFiles && bucket !in done
    ensures bucket in FilesLeft(outFiles, done, now) && FilesLeft(outFiles, done, now)[bucket] == outFiles[bucket]
    ensures FilesLeft(outFiles, done + {bucket}, now) ==
              if IsStale(bucket, now) then FilesLeft(outFiles, done, now) - {bucket} else FilesLeft(outFiles, done, now)
    ensures handles - StaleHandles(outFiles, done + {bucket}, now) ==
              if IsStale(bucket, now) then handles - StaleHandles(outFiles, done, now)
                - {outFiles[bucket].fAll, outFiles[bucket].fTop}
              else handles - StaleHandles(outFiles, done, now)
  {
    HandlesOfOneMore(outFiles, done, bucket, now);
  }

  function CacheWithout(cache: map<nat, map<string, CommonBid>>, below: nat): map<nat, map<string, CommonBid>> {
    map slot | slot in cache && slot >= below :: cache[slot]
  }

  lemma EvictionStep(cache: map<nat, map<string, CommonBid>>, top: map<nat, CommonBid>, initial: Contents,
                     contents: Contents, h: History, below: nat)
    requires CacheMatches(cache, h) && TopMatches(top, h) && FilesMatch(initial, contents, h)
    ensures CacheMatches(CacheWithout(cache, below), h + [Evicted(below)])
    ensures TopMatches(top, h + [Evicted(below)])
    ensures FilesMatch(initial, contents, h + [Evicted(below)])
  {
    var e := Evicted(below);
    forall slot, key
      ensures (slot in CacheWithout(cache, below) && key in CacheWithout(cache, below)[slot])
              <==> Live(h + [e], slot, key)
    {
      LiveStep(h, e, slot, key);
    }
    forall slot: nat ensures if slot in top then IsTopBid(h + [e], slot, top[slot]) else NoneFor(h + [e], slot) {
      NoneForStep(h, e, slot);
      if slot in top { TopBidFrame(h, e, slot, top[slot]); }
    }
    forall name: FileName ensures LinesOf(h + [e], name.kind) == LinesOf(h, name.kind) {
      LinesAppend(h, e, name.kind);
    }
  }

  function Arrivals(bids: seq<CommonBid>): History {
    seq(|bids|, i requires 0 <= i < |bids| => Arrived(bids[i]))
  }

  predicate BeatsTop(top: map<nat, CommonBid>, bid: CommonBid) {
    bid.slot !in top || ValueAsBigInt(bid) > ValueAsBigInt(top[bid.slot])
  }

  predicate IsCached(cache: map<nat, map<string, CommonBid>>, bid: CommonBid) {
    bid.slot in cache && UniqueKey(bid) in cache[bid.slot]
  }

  function TopAfter(top: map<nat, CommonBid>, bid: CommonBid): map<nat, CommonBid> {
    if BeatsTop(top, bid) then top[bid.slot := bid] else top
  }

  lemma TopStep(top: map<nat, CommonBid>, h: History, bid: CommonBid)
    requires TopMatches(top, h)
    ensures TopMatches(TopAfter(top, bid), h + [Arrived(bid)])
    ensures IsRecord(h + [Arrived(bid)], |h|) <==> BeatsTop(top, bid)
  {
    if bid.slot in top {
      RecordBeatsTop(h, bid, top[bid.slot]);
    } else {
      FirstIsRecord(h, bid);
    }
    var h', top' := h + [Arrived(bid)], TopAfter(top, bid);
    forall slot: nat ensures if slot in top' then IsTopBid(h', slot, top'[slot]) else NoneFor(h', slot) {
      NoneForStep(h, Arrived(bid), slot);
      if slot != bid.slot {
        if slot in top { TopBidFrame(h, Arrived(bid), slot, top[slot]); }
      } else if IsRecord(h', |h|) {
        RecordIsTop(h, bid);
      } else {
        TopStays(h, bid, top[slot]);
      }
    }
  }

  function CacheAfter(cache: map<nat, map<string, CommonBid>>, bid: CommonBid): map<nat, map<string, CommonBid>> {
    var keys := if bid.slot in cache then cache[bid.slot] else map[];
    cache[bid.slot := if UniqueKey(bid) in keys then keys else keys[UniqueKey(bid) := bid]]
  }

  lemma CacheStep(cache: map<nat, map<string, CommonBid>>, h: History, bid: CommonBid)
    requires CacheMatches(cache, h)
    ensures CacheMatches(CacheAfter(cache, bid), h + [Arrived(bid)])
    ensures IsNew(h + [Arrived(bid)], |h|) <==> !IsCached(cache, bid)
  {
    NewIffNotLive(h, bid);
    var cache' := CacheAfter(cache, bid);
    forall slot, key
      ensures (slot in cache' && key in cache'[slot]) <==> Live(h + [Arrived(bid)], slot, key)
    {
      LiveStep(h, Arrived(bid), slot, key);
    }
  }

  lemma InBucketAppend(bids: seq<CommonBid>, more: seq<CommonBid>, bucket: int)
    requires |more| <= 1
    ensures InBucket(bids + more, bucket) == InBucket(bids, bucket) + InBucket(more, bucket)
  {
    if more == [] {
      assert bids + more == bids;
    } else {
      assert (bids + more)[..|bids|] == bids && more[..0] == [];
    }
  }

  lemma LinesAppend(h: History, e: Event, kind: Kind)
    ensures LinesOf(h + [e], kind) == LinesOf(h, kind) +
              if (if kind == All then IsNew(h + [e], |h|) else IsRecord(h + [e], |h|)) then [e.bid] else []
  {
    assert (h + [e])[..|h|] == h;
  }

  lemma FileStep(initial: Contents, contents: Contents, contents': Contents, h: History, bid: CommonBid,
                 isNewBid: bool, isTopBid: bool, name: FileName)
    requires BidsOf(contents, name) == BidsOf(initial, name) + InBucket(LinesOf(h, name.kind), name.bucket)
    requires Appended(contents, contents', bid, isNewBid, isTopBid)
    requires isNewBid == IsNew(h + [Arrived(bid)], |h|) && isTopBid == IsRecord(h + [Arrived(bid)], |h|)
    ensures BidsOf(contents', name)
            == BidsOf(initial, name) + InBucket(LinesOf(h + [Arrived(bid)], name.kind), name.bucket)
  {
    LinesAppend(h, Arrived(bid), name.kind);
    var added := if (if name.kind == All then isNewBid else isTopBid) then [bid] else [];
    InBucketAppend(LinesOf(h, name.kind), added, name.bucket);
    InBucketSingle(bid, name.bucket);
    assert InBucket([], name.bucket) == [];
    Regroup(BidsOf(initial, name), InBucket(LinesOf(h, name.kind), name.bucket), InBucket(added, name.bucket));
  }

  lemma Regroup(a: seq<CommonBid>, b: seq<CommonBid>, c: seq<CommonBid>)
    ensures (a + b) + c == a + (b + c)
  {
  }

  lemma FilesStep(initial: Contents, contents: Contents, contents': Contents, h: History, bid: CommonBid,
                  isNewBid: bool, isTopBid: bool)
    requires FilesMatch(initial, contents, h)
    requires Appended(contents, contents', bid, isNewBid, isTopBid)
    requires isNewBid == IsNew(h + [Arrived(bid)], |h|) && isTopBid == IsRecord(h + [Arrived(bid)], |h|)
    ensures FilesMatch(initial, contents', h + [Arrived(bid)])
  {
    forall name: FileName
      ensures BidsOf(contents', name)
              == BidsOf(initial, name) + InBucket(LinesOf(h + [Arrived(bid)], name.kind), name.bucket)
    {
      FileStep(initial, contents, contents', h, bid, isNewBid, isTopBid, name);
    }
  }

  /** What one bid does to caches and files is what one arrival does to the history. */
  lemma ArrivalStep(cache: map<nat, map<string, CommonBid>>, top: map<nat, CommonBid>, initial: Contents,
                    contents: Contents, contents': Contents, h: History, bid: CommonBid, isNewBid: bool, isTopBid: bool)
    requires CacheMatches(cache, h) && TopMatches(top, h) && FilesMatch(initial, contents, h)
    requires isNewBid == !IsCached(cache, bid) && isTopBid == BeatsTop(top, bid)
    requires Appended(contents, contents', bid, isNewBid, isTopBid)
    ensures CacheMatches(CacheAfter(cache, bid), h + [Arrived(bid)])
    ensures TopMatches(TopAfter(top, bid), h + [Arrived(bid)])
    ensures FilesMatch(initial, contents', h + [Arrived(bid)])
  {
    CacheStep(cache, h, bid);
    TopStep(top, h, bid);
    FilesStep(initial, contents, contents', h, bid, isNewBid, isTopBid);
  }

  lemma InBucketSingle(bid: CommonBid, bucket: int)
    ensures InBucket([bid], bucket) == if BucketOf(bid) == bucket then [bid] else []
  {
    assert [bid][..0] == [];
  }
}
