/** Whole runs of the stats command (`cmd/core/update-builder-stats.go`): the same number of blocks
    in both kinds of bucket, and the texts of a bucket. */
module StatsRuns {
  import opened BuilderGroups
  import opened BuilderStats
  import opened Database
  import opened LineSets
  import opened SlotTime
  import opened Sequences

  // ---------------------------------------------------------------- both kinds of bucket

  /** The sum of the block counts of the named buckets of a day. */
  ghost function SumBlocks(table: StatsTable, kind: Kind, day: int, names: seq<string>): nat
    requires forall name | name in names :: DayKey(kind, day, name) in table
  {
    if names == [] then 0
    else SumBlocks(table, kind, day, names[..|names| - 1]) + table[DayKey(kind, day, names[|names| - 1])].blocksIncluded
  }

  ghost function FiledUnder(slots: set<nat>, filing: map<nat, string>, day: int, names: seq<string>): set<nat>
    requires slots <= filing.Keys
  {
    set s | s in slots && DayOf(s) == day && filing[s] in names
  }

  ghost function DaySlots(entries: SlotEntries, day: int): set<nat> {
    set s | s in entries && DayOf(s) == day
  }

  lemma OneMoreName(slots: set<nat>, filing: map<nat, string>, day: int, front: seq<string>, last: string)
    requires slots <= filing.Keys && last !in front
    ensures |FiledUnder(slots, filing, day, front + [last])|
         == |FiledUnder(slots, filing, day, front)| + |Members(slots, filing, day, last)|
  {
    var a, b := FiledUnder(slots, filing, day, front), Members(slots, filing, day, last);
    assert FiledUnder(slots, filing, day, front + [last]) == a + b;
    assert a !! b;
  }

  lemma {:induction false} SumCountsSlots(after: StatsTable, entries: SlotEntries, filing: Filing, kind: Kind, day: int,
                                          names: seq<string>)
    requires FilingOk(entries, filing) && NoDuplicates(names)
    requires forall name | name in names ::
               && DayKey(kind, day, name) in after
               && after[DayKey(kind, day, name)].blocksIncluded == |Bucket(entries, filing, kind, day, name)|
    ensures SumBlocks(after, kind, day, names) == |FiledUnder(entries.Keys, filing.Of(kind), day, names)|
  {
    if names == [] {
      assert FiledUnder(entries.Keys, filing.Of(kind), day, names) == {};
    } else {
      var front, last := names[..|names| - 1], names[|names| - 1];
      assert names == front + [last];
      SumCountsSlots(after, entries, filing, kind, day, front);
      OneMoreName(entries.Keys, filing.Of(kind), day, front, last);
    }
  }

  /** The names of the nonempty buckets of a day, each once. */
  ghost predicate NamesOfDay(entries: SlotEntries, filing: Filing, kind: Kind, day: int, names: seq<string>)
    requires FilingOk(entries, filing)
  {
    && NoDuplicates(names)
    && forall name :: name in names <==> Bucket(entries, filing, kind, day, name) != {}
  }

  lemma AllFiledUnder(entries: SlotEntries, filing: Filing, kind: Kind, day: int, names: seq<string>)
    requires FilingOk(entries, filing) && NamesOfDay(entries, filing, kind, day, names)
    ensures FiledUnder(entries.Keys, filing.Of(kind), day, names) == DaySlots(entries, day)
  {
    var f := filing.Of(kind);
    forall s | s in DaySlots(entries, day) ensures f[s] in names {
      assert s in Bucket(entries, filing, kind, day, f[s]);
    }
  }

  lemma KindCountsSlots(before: StatsTable, after: StatsTable, entries: SlotEntries, filing: Filing, kind: Kind,
                        day: int, names: seq<string>)
    requires RunResult(before, after, entries, filing) && NamesOfDay(entries, filing, kind, day, names)
    ensures forall name | name in names :: DayKey(kind, day, name) in after
    ensures SumBlocks(after, kind, day, names) == |DaySlots(entries, day)|
  {
    SumCountsSlots(after, entries, filing, kind, day, names);
    AllFiledUnder(entries, filing, kind, day, names);
  }

  /** Whatever order the maps were ranged over: for every day the blocks counted by extra data and
      those counted by pubkey both add up to the distinct slots of the day. */
  lemma DualConservation(before: StatsTable, after: StatsTable, entries: SlotEntries, filing: Filing, day: int,
                         names: seq<string>, pubkeys: seq<string>)
    requires RunResult(before, after, entries, filing)
    requires NamesOfDay(entries, filing, ByExtraData, day, names) && NamesOfDay(entries, filing, ByPubkey, day, pubkeys)
    ensures forall name | name in names :: DayKey(ByExtraData, day, name) in after
    ensures forall pubkey | pubkey in pubkeys :: DayKey(ByPubkey, day, pubkey) in after
    ensures SumBlocks(after, ByExtraData, day, names) == SumBlocks(after, ByPubkey, day, pubkeys)
            == |DaySlots(entries, day)|
  {
    KindCountsSlots(before, after, entries, filing, ByExtraData, day, names);
    KindCountsSlots(before, after, entries, filing, ByPubkey, day, pubkeys);
  }

  /** The row of a bucket bears its kind and name, and covers the day, from midnight to midnight, in which
      its slots start. */
  lemma BucketTimes(before: StatsTable, after: StatsTable, entries: SlotEntries, filing: Filing, kind: Kind, day: int,
                    name: string, s: nat)
    requires RunResult(before, after, entries, filing) && s in Bucket(entries, filing, kind, day, name)
    ensures DayKey(kind, day, name) in after
    ensures var e := after[DayKey(kind, day, name)];
            && e.kind == kind && e.builderName == name
            && e.timeStart <= SlotToTime(s) < e.timeEnd && IsMidnight(e.timeStart)
            && e.timeEnd - e.timeStart == 24 * 60 * 60 == e.hours * 60 * 60
  {
    assert KeyOfEntry(after[DayKey(kind, day, name)]) == DayKey(kind, day, name) by {
      var e := after[DayKey(kind, day, name)];
      assert EntryOk(e, kind, day, name, entries, Bucket(entries, filing, kind, day, name));
    }
    DayHolds(s);
  }

  // ---------------------------------------------------------------- the texts

  /** With pubkeys of one length, `builder_pubkeys` lists exactly the pubkeys of the bucket, each once;
      `extra_data` has no line twice, only lines that were seen, and every seen text is a suffix of one. */
  lemma TextsOfBucket(before: StatsTable, after: StatsTable, entries: SlotEntries, filing: Filing,
                      kind: Kind, day: int, name: string, length: nat)
    requires RunResult(before, after, entries, filing) && Bucket(entries, filing, kind, day, name) != {}
    requires NewlineFree(entries) && forall s | s in entries :: |entries[s].builderPubkey| == length
    ensures var e := after[DayKey(kind, day, name)]; var slots := Bucket(entries, filing, kind, day, name);
            IsExact(e.builderPubkeys, PubkeysOf(entries, slots)) && IsSound(e.extraData, ExtraDataOf(entries, slots))
  {
    var e, slots := after[DayKey(kind, day, name)], Bucket(entries, filing, kind, day, name);
    assert EntryOk(e, kind, day, name, entries, slots);
    SoundIsExactOnFixedLength(e.builderPubkeys, PubkeysOf(entries, slots), length);
  }

  // ---------------------------------------------------------------- the command

  /** What the query for a window may return: the rows of its slots, ascending by slot. */
  ghost predicate Selected(rows: seq<Row>, first: nat, last: nat, result: seq<Row>) {
    && (forall r :: r in result <==> r in rows && first <= r.slot <= last)
    && (forall i, j | 0 <= i < j < |result| :: result[i].slot <= result[j].slot)
  }

  /** One of the selected rows for every slot. */
  ghost predicate PickedFrom(result: seq<Row>, entries: SlotEntries) {
    && (forall s | s in entries :: entries[s] in result && entries[s].slot == s)
    && (forall r | r in result :: r.slot in entries)
  }

  /** Row `i` is the last one of its slot. */
  ghost predicate IsLastOfSlot(result: seq<Row>, i: int) {
    0 <= i < |result| && forall j | i < j < |result| :: result[j].slot != result[i].slot
  }

  function Picked(result: seq<Row>): SlotEntries {
    if result == [] then map[] else Picked(result[..|result| - 1])[result[|result| - 1].slot := result[|result| - 1]]
  }

  lemma {:induction false} PickedRows(result: seq<Row>)
    ensures PickedFrom(result, Picked(result))
    ensures forall i | IsLastOfSlot(result, i) :: Picked(result)[result[i].slot] == result[i]
  {
    if result != [] {
      var n := |result| - 1;
      assert result == result[..n] + [result[n]];
      PickedRows(result[..n]);
      forall i | IsLastOfSlot(result, i) ensures Picked(result)[result[i].slot] == result[i] {
        if i < n { assert IsLastOfSlot(result[..n], i) && result[n].slot != result[i].slot; }
      }
    }
  }

  /** Later rows of a slot replace earlier ones. */
  method PickEntries(result: seq<Row>) returns (entriesBySlot: SlotEntries)
    ensures PickedFrom(result, entriesBySlot)
    ensures forall i | IsLastOfSlot(result, i) :: entriesBySlot[result[i].slot] == result[i]
  {
    entriesBySlot := map[];
    for i := 0 to |result|
      invariant entriesBySlot == Picked(result[..i])
    {
      assert result[..i + 1][..i] == result[..i];
      entriesBySlot := entriesBySlot[result[i].slot := result[i]];
    }
    assert result[..|result|] == result;
    PickedRows(result);
  }

  /** A run of the command over the days `from <= day < to` of a table of payloads. */
  ghost predicate IsRun(before: StatsTable, after: StatsTable, rows: seq<Row>, from: int, to: int) {
    exists result, entries, filing :: RunWith(before, after, rows, from, to, result, entries, filing)
  }

  ghost predicate RunWith(before: StatsTable, after: StatsTable, rows: seq<Row>, from: int, to: int,
                          result: seq<Row>, entries: SlotEntries, filing: Filing) {
    && Selected(rows, Window(from * DAY, to * DAY).0, Window(from * DAY, to * DAY).1, result)
    && PickedFrom(result, entries)
    && RunResult(before, after, entries, filing)
  }

  /** The command, given the answer of its query. */
  method UpdateBuilderStats(store: StatsStore, result: seq<Row>, ghost rows: seq<Row>, ghost from: int, ghost to: int)
    requires Selected(rows, Window(from * DAY, to * DAY).0, Window(from * DAY, to * DAY).1, result)
    modifies store
    ensures IsRun(old(store.stats), store.stats, rows, from, to)
  {
    var entriesBySlot := PickEntries(result);
    ghost var filing, order := store.SaveDayBucket(entriesBySlot);
    assert RunWith(old(store.stats), store.stats, rows, from, to, result, entriesBySlot, filing);
  }
}
