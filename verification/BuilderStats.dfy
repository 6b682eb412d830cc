/** The daily builder stats (`saveDayBucket` in `cmd/core/update-builder-stats.go`,
    `SaveBuilderStats` in `database/database.go`). */
module BuilderStats {
  import opened Database
  import opened SlotTime
  import opened BuilderGroups
  import opened LineSets
  import opened Sequences
  import opened Substrings

  datatype Kind = ByExtraData | ByPubkey

  datatype StatsEntry = StatsEntry(
    kind: Kind,
    hours: nat,
    timeStart: int,
    timeEnd: int,
    builderName: string,
    extraData: string,
    builderPubkeys: string,
    blocksIncluded: nat)

  /** The columns of the unique constraint. */
  datatype StatsKey = StatsKey(kind: Kind, hours: nat, timeStart: int, timeEnd: int, builderName: string)

  type StatsTable = map<StatsKey, StatsEntry>

  /** One payload per slot, as the command picks it. */
  type SlotEntries = map<nat, Row>

  /** Buckets by day and by the name they are filed under. */
  type Index = map<int, map<string, StatsEntry>>

  function KeyOfEntry(e: StatsEntry): StatsKey {
    StatsKey(e.kind, e.hours, e.timeStart, e.timeEnd, e.builderName)
  }

  function DayKey(kind: Kind, day: int, name: string): StatsKey {
    StatsKey(kind, 24, day * DAY, (day + 1) * DAY, name)
  }

  // ---------------------------------------------------------------- what a bucket holds

  /** The slots filed under a name on a day; `filing` says how each slot is filed. */
  ghost function Members(slots: set<nat>, filing: map<nat, string>, day: int, name: string): set<nat>
    requires slots <= filing.Keys
  {
    set s | s in slots && DayOf(s) == day && filing[s] == name
  }

  ghost function ExtraDataOf(entries: SlotEntries, slots: set<nat>): set<string>
    requires slots <= entries.Keys
  {
    set s | s in slots :: entries[s].checks.extraData
  }

  ghost function PubkeysOf(entries: SlotEntries, slots: set<nat>): set<string>
    requires slots <= entries.Keys
  {
    set s | s in slots :: entries[s].builderPubkey
  }

  ghost predicate NewlineFree(entries: SlotEntries) {
    forall s | s in entries :: IsLine(entries[s].checks.extraData) && IsLine(entries[s].builderPubkey)
  }

  ghost predicate TextsSound(e: StatsEntry, entries: SlotEntries, members: set<nat>)
    requires members <= entries.Keys
  {
    && IsSound(e.extraData, ExtraDataOf(entries, members))
    && IsSound(e.builderPubkeys, PubkeysOf(entries, members))
  }

  ghost predicate EntryOk(e: StatsEntry, kind: Kind, day: int, name: string, entries: SlotEntries, members: set<nat>)
    requires members <= entries.Keys
  {
    && KeyOfEntry(e) == DayKey(kind, day, name)
    && e.blocksIncluded == |members|
    && (NewlineFree(entries) ==> TextsSound(e, entries, members))
  }

  predicate InIndex(index: Index, day: int, name: string) {
    day in index && name in index[day]
  }

  /** The index has exactly the nonempty buckets of the slots seen so far. */
  ghost predicate IndexOk(index: Index, kind: Kind, entries: SlotEntries, seen: set<nat>, filing: map<nat, string>) {
    && seen <= entries.Keys && seen <= filing.Keys
    && (forall day, name :: InIndex(index, day, name) <==> Members(seen, filing, day, name) != {})
    && (forall day, name | InIndex(index, day, name) ::
          EntryOk(index[day][name], kind, day, name, entries, Members(seen, filing, day, name)))
  }

  // ---------------------------------------------------------------- filing one slot

  function Fresh(kind: Kind, day: int, name: string): StatsEntry {
    StatsEntry(kind, 24, day * DAY, (day + 1) * DAY, name, "", "", 0)
  }

  function Counted(e: StatsEntry, row: Row): StatsEntry {
    e.(blocksIncluded := e.blocksIncluded + 1,
       extraData := AddLine(e.extraData, row.checks.extraData),
       builderPubkeys := AddLine(e.builderPubkeys, row.builderPubkey))
  }

  function FiledIn(buckets: map<string, StatsEntry>, kind: Kind, row: Row, name: string): map<string, StatsEntry> {
    var e := if name in buckets then buckets[name] else Fresh(kind, DayOf(row.slot), name);
    buckets[name := Counted(e, row)]
  }

  function Filed(index: Index, kind: Kind, row: Row, name: string): Index {
    var day := DayOf(row.slot);
    index[day := FiledIn(if day in index then index[day] else map[], kind, row, name)]
  }

  lemma EmptyIsSound()
    ensures IsSound("", {})
  {
    assert Lists("", [], {});
  }

  lemma TextsGrow(entries: SlotEntries, members: set<nat>, s: nat)
    requires members <= entries.Keys && s in entries
    ensures ExtraDataOf(entries, members + {s}) == ExtraDataOf(entries, members) + {entries[s].checks.extraData}
    ensures PubkeysOf(entries, members + {s}) == PubkeysOf(entries, members) + {entries[s].builderPubkey}
  {
  }

  lemma CountedOk(e: StatsEntry, kind: Kind, day: int, name: string, entries: SlotEntries, members: set<nat>, s: nat)
    requires members <= entries.Keys && s in entries && s !in members
    requires EntryOk(e, kind, day, name, entries, members)
    ensures EntryOk(Counted(e, entries[s]), kind, day, name, entries, members + {s})
  {
    if NewlineFree(entries) {
      AddLineKeepsSound(e.extraData, ExtraDataOf(entries, members), entries[s].checks.extraData);
      AddLineKeepsSound(e.builderPubkeys, PubkeysOf(entries, members), entries[s].builderPubkey);
      TextsGrow(entries, members, s);
    }
  }

  lemma MembersStep(seen: set<nat>, filing: map<nat, string>, s: nat, day: int, name: string)
    requires seen <= filing.Keys && s in filing && s !in seen
    ensures Members(seen + {s}, filing, day, name) ==
              Members(seen, filing, day, name) + if DayOf(s) == day && filing[s] == name then {s} else {}
  {
  }

  lemma FiledOk(index: Index, kind: Kind, entries: SlotEntries, seen: set<nat>, filing: map<nat, string>, s: nat)
    requires IndexOk(index, kind, entries, seen, filing)
    requires s in entries && s in filing && s !in seen && entries[s].slot == s
    ensures IndexOk(Filed(index, kind, entries[s], filing[s]), kind, entries, seen + {s}, filing)
  {
    var index' := Filed(index, kind, entries[s], filing[s]);
    var d, n := DayOf(s), filing[s];
    forall day, name
      ensures InIndex(index', day, name) <==> Members(seen + {s}, filing, day, name) != {}
    {
      MembersStep(seen, filing, s, day, name);
      assert InIndex(index, day, name) <==> Members(seen, filing, day, name) != {};
    }
    forall day, name | InIndex(index', day, name)
      ensures EntryOk(index'[day][name], kind, day, name, entries, Members(seen + {s}, filing, day, name))
    {
      MembersStep(seen, filing, s, day, name);
      if day == d && name == n {
        var e := if InIndex(index, day, name) then index[day][name] else Fresh(kind, day, name);
        if !InIndex(index, day, name) {
          EmptyIsSound();
          assert ExtraDataOf(entries, {}) == {} && PubkeysOf(entries, {}) == {};
        }
        CountedOk(e, kind, day, name, entries, Members(seen, filing, day, name), s);
      } else {
        assert InIndex(index, day, name) && index'[day][name] == index[day][name];
      }
    }
  }

  // ---------------------------------------------------------------- upserts

  /** ON CONFLICT on the unique columns: the other columns are replaced. */
  function Upsert(table: StatsTable, e: StatsEntry): StatsTable {
    table[KeyOfEntry(e) := e]
  }

  function UpsertAll(table: StatsTable, entries: seq<StatsEntry>): StatsTable {
    if entries == [] then table else Upsert(UpsertAll(table, entries[..|entries| - 1]), entries[|entries| - 1])
  }

  ghost predicate DistinctKeys(entries: seq<StatsEntry>) {
    forall e, f | e in entries && f in entries && KeyOfEntry(e) == KeyOfEntry(f) :: e == f
  }

  /** Every upserted entry is in the table afterwards, and nothing else has changed. */
  lemma {:induction false} UpsertAllResult(table: StatsTable, entries: seq<StatsEntry>)
    requires DistinctKeys(entries)
    ensures forall e | e in entries ::
            KeyOfEntry(e) in UpsertAll(table, entries) && UpsertAll(table, entries)[KeyOfEntry(e)] == e
    ensures forall k | (forall e | e in entries :: KeyOfEntry(e) != k) ::
              (k in UpsertAll(table, entries) <==> k in table)
                && (k in table ==> UpsertAll(table, entries)[k] == table[k])
  {
    if entries != [] {
      var front, last := entries[..|entries| - 1], entries[|entries| - 1];
      assert entries == front + [last];
      UpsertAllResult(table, front);
      forall e | e in entries
        ensures KeyOfEntry(e) in UpsertAll(table, entries) && UpsertAll(table, entries)[KeyOfEntry(e)] == e
      {
        assert last in entries;
        if KeyOfEntry(e) != KeyOfEntry(last) { assert e in front; }
      }
    }
  }

  lemma {:induction false} UpsertAllSplit(table: StatsTable, a: seq<StatsEntry>, b: seq<StatsEntry>)
    ensures UpsertAll(table, a + b) == UpsertAll(UpsertAll(table, a), b)
  {
    if b == [] {
      assert a + b == a;
    } else {
      assert (a + b)[..|a + b| - 1] == a + b[..|b| - 1];
      UpsertAllSplit(table, a, b[..|b| - 1]);
    }
  }

  // ---------------------------------------------------------------- what a run leaves in the table

  /** How the slots are filed: under a name for their extra data, which may be any group that
      matches, and under their pubkey. */
  datatype Filing = Filing(names: map<nat, string>, pubkeys: map<nat, string>) {
    function Of(kind: Kind): map<nat, string> {
      match kind case ByExtraData => names case ByPubkey => pubkeys
    }
  }

  ghost predicate FilingOk(entries: SlotEntries, filing: Filing) {
    && filing.names.Keys == entries.Keys == filing.pubkeys.Keys
    && (forall s | s in entries :: IsNameOf(filing.names[s], entries[s].checks.extraData))
    && (forall s | s in entries :: filing.pubkeys[s] == entries[s].builderPubkey)
  }

  ghost function Bucket(entries: SlotEntries, filing: Filing, kind: Kind, day: int, name: string): set<nat>
    requires FilingOk(entries, filing)
  {
    Members(entries.Keys, filing.Of(kind), day, name)
  }

  ghost predicate IsBucketKey(entries: SlotEntries, filing: Filing, k: StatsKey)
    requires FilingOk(entries, filing)
  {
    exists kind, day, name :: k == DayKey(kind, day, name) && Bucket(entries, filing, kind, day, name) != {}
  }

  /** The nonempty buckets of the run are in the table, and every other key is as before. */
  ghost predicate RunResult(before: StatsTable, after: StatsTable, entries: SlotEntries, filing: Filing) {
    && FilingOk(entries, filing)
    && (forall kind, day, name | Bucket(entries, filing, kind, day, name) != {} ::
          && DayKey(kind, day, name) in after
          && EntryOk(after[DayKey(kind, day, name)], kind, day, name, entries,
            Bucket(entries, filing, kind, day, name)))
    && (forall k | !IsBucketKey(entries, filing, k) ::
          (k in after <==> k in before) && (k in before ==> after[k] == before[k]))
  }

  datatype Indexes = Indexes(byExtraData: Index, byPubkey: Index) {
    function Of(kind: Kind): Index {
      match kind case ByExtraData => byExtraData case ByPubkey => byPubkey
    }

    ghost predicate Has(kind: Kind, day: int, name: string, e: StatsEntry) {
      InIndex(Of(kind), day, name) && Of(kind)[day][name] == e
    }
  }

  ghost predicate IndexesOk(ix: Indexes, entries: SlotEntries, filing: Filing) {
    && FilingOk(entries, filing)
    && forall kind :: IndexOk(ix.Of(kind), kind, entries, entries.Keys, filing.Of(kind))
  }

  /** All entries of both indexes, in some order. */
  ghost predicate ListsAll(ix: Indexes, all: seq<StatsEntry>) {
    && (forall e | e in all :: exists kind, day, name :: ix.Has(kind, day, name, e))
    && (forall kind, day, name, e | ix.Has(kind, day, name, e) :: e in all)
  }

  lemma EntryKey(ix: Indexes, entries: SlotEntries, filing: Filing, kind: Kind, day: int, name: string, e: StatsEntry)
    requires IndexesOk(ix, entries, filing) && ix.Has(kind, day, name, e)
    ensures KeyOfEntry(e) == DayKey(kind, day, name) && Bucket(entries, filing, kind, day, name) != {}
    ensures EntryOk(e, kind, day, name, entries, Bucket(entries, filing, kind, day, name))
  {
    assert IndexOk(ix.Of(kind), kind, entries, entries.Keys, filing.Of(kind));
  }

  lemma DayKeyInjective(kind: Kind, day: int, name: string, kind': Kind, day': int, name': string)
    requires DayKey(kind, day, name) == DayKey(kind', day', name')
    ensures kind == kind' && day == day' && name == name'
  {
  }

  lemma KeyOfSome(ix: Indexes, entries: SlotEntries, filing: Filing, all: seq<StatsEntry>, e: StatsEntry)
    returns (kind: Kind, day: int, name: string)
    requires IndexesOk(ix, entries, filing) && ListsAll(ix, all) && e in all
    ensures ix.Has(kind, day, name, e) && KeyOfEntry(e) == DayKey(kind, day, name)
    ensures Bucket(entries, filing, kind, day, name) != {}
  {
    kind, day, name :| ix.Has(kind, day, name, e);
    EntryKey(ix, entries, filing, kind, day, name, e);
  }

  lemma SameKeySameEntry(ix: Indexes, entries: SlotEntries, filing: Filing, all: seq<StatsEntry>, e: StatsEntry,
                         f: StatsEntry)
    requires IndexesOk(ix, entries, filing) && ListsAll(ix, all)
    requires e in all && f in all && KeyOfEntry(e) == KeyOfEntry(f)
    ensures e == f
  {
    var kind, day, name := KeyOfSome(ix, entries, filing, all, e);
    var kind', day', name' := KeyOfSome(ix, entries, filing, all, f);
    DayKeyInjective(kind, day, name, kind', day', name');
  }

  /** Saving the entries of both indexes, in whatever order, gives the result of the run. */
  lemma SavedIsRunResult(before: StatsTable, all: seq<StatsEntry>, ix: Indexes, entries: SlotEntries, filing: Filing)
    requires IndexesOk(ix, entries, filing) && ListsAll(ix, all)
    ensures RunResult(before, UpsertAll(before, all), entries, filing)
  {
    var after := UpsertAll(before, all);
    assert DistinctKeys(all) by {
      forall e, f | e in all && f in all && KeyOfEntry(e) == KeyOfEntry(f) ensures e == f {
        SameKeySameEntry(ix, entries, filing, all, e, f);
      }
    }
    UpsertAllResult(before, all);
    forall kind, day, name | Bucket(entries, filing, kind, day, name) != {}
      ensures DayKey(kind, day, name) in after
      ensures EntryOk(after[DayKey(kind, day, name)], kind, day, name, entries,
              Bucket(entries, filing, kind, day, name))
    {
      assert IndexOk(ix.Of(kind), kind, entries, entries.Keys, filing.Of(kind));
      assert InIndex(ix.Of(kind), day, name);
      var e := ix.Of(kind)[day][name];
      assert ix.Has(kind, day, name, e);
      EntryKey(ix, entries, filing, kind, day, name, e);
    }
    forall k, e | !IsBucketKey(entries, filing, k) && e in all ensures KeyOfEntry(e) != k {
      var kind, day, name := KeyOfSome(ix, entries, filing, all, e);
    }
  }

  // ---------------------------------------------------------------- filing in an order

  ghost predicate SlotsMatch(entries: SlotEntries) {
    forall s | s in entries :: entries[s].slot == s
  }

  function PubkeyFiling(entries: SlotEntries): map<nat, string> {
    map s | s in entries :: entries[s].builderPubkey
  }

  ghost function SlotsIn(order: seq<nat>): set<nat> {
    set s | s in order
  }

  /** The index after filing the slots in this order. */
  ghost function FiledAll(kind: Kind, entries: SlotEntries, order: seq<nat>, filing: map<nat, string>): Index
    requires SlotsIn(order) <= entries.Keys && SlotsIn(order) <= filing.Keys
  {
    if order == [] then map[]
    else
      var n := |order| - 1;
      Filed(FiledAll(kind, entries, order[..n], filing), kind, entries[order[n]], filing[order[n]])
  }

  lemma FiledAllStep(kind: Kind, entries: SlotEntries, order: seq<nat>, filing: map<nat, string>, s: nat)
    requires SlotsIn(order) <= entries.Keys && SlotsIn(order) <= filing.Keys && s in entries && s in filing
    ensures SlotsIn(order + [s]) == SlotsIn(order) + {s}
    ensures FiledAll(kind, entries, order + [s], filing)
            == Filed(FiledAll(kind, entries, order, filing), kind, entries[s], filing[s])
  {
    assert (order + [s])[..|order|] == order;
  }

  lemma {:induction false} FiledAllFrame(kind: Kind, entries: SlotEntries, order: seq<nat>, filing: map<nat, string>,
                                         s: nat, name: string)
    requires SlotsIn(order) <= entries.Keys && SlotsIn(order) <= filing.Keys && s !in order
    ensures FiledAll(kind, entries, order, filing[s := name]) == FiledAll(kind, entries, order, filing)
  {
    if order != [] {
      FiledAllFrame(kind, entries, order[..|order| - 1], filing, s, name);
    }
  }

  /** Filed in any order, an index is exact for its slots. */
  lemma {:induction false} FiledAllOk(kind: Kind, entries: SlotEntries, order: seq<nat>, filing: map<nat, string>)
    requires SlotsMatch(entries) && NoDuplicates(order)
    requires SlotsIn(order) <= entries.Keys && SlotsIn(order) <= filing.Keys
    ensures IndexOk(FiledAll(kind, entries, order, filing), kind, entries, SlotsIn(order), filing)
  {
    if order == [] {
      NothingIsOk(kind, entries, filing);
      assert SlotsIn(order) == {};
    } else {
      var front, s := order[..|order| - 1], order[|order| - 1];
      assert order == front + [s];
      FiledAllOk(kind, entries, front, filing);
      FiledAllStep(kind, entries, front, filing, s);
      FiledOk(FiledAll(kind, entries, front, filing), kind, entries, SlotsIn(front), filing, s);
    }
  }

  lemma NothingIsOk(kind: Kind, entries: SlotEntries, filing: map<nat, string>)
    ensures IndexOk(map[], kind, entries, {}, filing)
  {
  }

  ghost function IndexesIn(entries: SlotEntries, filing: Filing, order: seq<nat>): Indexes
    requires FilingOk(entries, filing) && SlotsIn(order) <= entries.Keys
  {
    Indexes(FiledAll(ByExtraData, entries, order, filing.names), FiledAll(ByPubkey, entries, order, filing.pubkeys))
  }

  lemma IndexesInOk(entries: SlotEntries, filing: Filing, order: seq<nat>)
    requires SlotsMatch(entries) && FilingOk(entries, filing) && Orders(order, entries.Keys)
    ensures SlotsIn(order) == entries.Keys && IndexesOk(IndexesIn(entries, filing, order), entries, filing)
  {
    assert SlotsIn(order) == entries.Keys;
    forall kind
      ensures IndexOk(IndexesIn(entries, filing, order).Of(kind), kind, entries, entries.Keys, filing.Of(kind))
    {
      FiledAllOk(kind, entries, order, filing.Of(kind));
      match kind case ByExtraData => case ByPubkey =>
    }
  }

  /** A whole run: the slots are filed under these names in this order, and the entries of both
      indexes are saved in some order. */
  ghost predicate RunIn(before: StatsTable, after: StatsTable, entries: SlotEntries, filing: Filing, order: seq<nat>) {
    && SlotsMatch(entries) && FilingOk(entries, filing) && Orders(order, entries.Keys) && SlotsIn(order) <= entries.Keys
    && exists all :: ListsAll(IndexesIn(entries, filing, order), all) && after == UpsertAll(before, all)
  }

  lemma RunInIsRunResult(before: StatsTable, after: StatsTable, entries: SlotEntries, filing: Filing, order: seq<nat>)
    requires RunIn(before, after, entries, filing, order)
    ensures RunResult(before, after, entries, filing)
  {
    IndexesInOk(entries, filing, order);
    var all :| ListsAll(IndexesIn(entries, filing, order), all) && after == UpsertAll(before, all);
    SavedIsRunResult(before, all, IndexesIn(entries, filing, order), entries, filing);
  }

  // ---------------------------------------------------------------- saveDayBucket

  /** A bucket of the pubkey index starts with its own pubkey as text. */
  ghost predicate OwnPubkeys(buckets: map<string, StatsEntry>) {
    forall name | name in buckets :: buckets[name].builderPubkeys == name + "\n"
  }

  ghost predicate PubkeyTexts(index: Index) {
    forall day | day in index :: OwnPubkeys(index[day])
  }

  /** A day is in one index exactly if it is in the other. */
  ghost predicate Paired(byExtraData: Index, byPubkey: Index) {
    byExtraData.Keys == byPubkey.Keys && PubkeyTexts(byPubkey)
  }

  lemma OwnPubkeyLine(pubkey: string)
    ensures AddLine("", pubkey) == pubkey + "\n" && AddLine(pubkey + "\n", pubkey) == pubkey + "\n"
  {
    assert "" + pubkey == pubkey;
    ContainsItself(pubkey + "\n");
  }

  method UpdateByExtraData(buckets: map<string, StatsEntry>, entry: Row, builderID: string)
    returns (updated: map<string, StatsEntry>)
    ensures updated == FiledIn(buckets, ByExtraData, entry, builderID)
  {
    updated := buckets;
    if builderID !in updated {
      updated := updated[builderID := Fresh(ByExtraData, DayOf(entry.slot), builderID)];
    }
    var e := updated[builderID];
    e := e.(blocksIncluded := e.blocksIncluded + 1);
    if !Contains(e.extraData, entry.checks.extraData + "\n") {
      e := e.(extraData := e.extraData + entry.checks.extraData + "\n");
    }
    if !Contains(e.builderPubkeys, entry.builderPubkey + "\n") {
      e := e.(builderPubkeys := e.builderPubkeys + entry.builderPubkey + "\n");
    }
    updated := updated[builderID := e];
  }

  method UpdateByPubkey(buckets: map<string, StatsEntry>, entry: Row) returns (updated: map<string, StatsEntry>)
    requires OwnPubkeys(buckets)
    ensures updated == FiledIn(buckets, ByPubkey, entry, entry.builderPubkey) && OwnPubkeys(updated)
  {
    var pubkey := entry.builderPubkey;
    OwnPubkeyLine(pubkey);
    updated := buckets;
    if pubkey !in updated {
      updated := updated[pubkey := Fresh(ByPubkey, DayOf(entry.slot), pubkey).(builderPubkeys := pubkey + "\n")];
    }
    var e := updated[pubkey];
    e := e.(blocksIncluded := e.blocksIncluded + 1);
    if !Contains(e.extraData, entry.checks.extraData + "\n") {
      e := e.(extraData := e.extraData + entry.checks.extraData + "\n");
    }
    updated := updated[pubkey := e];
  }

  /** The buckets of a day, for both indexes at once. */
  method OpenDay(byExtraData0: Index, byPubkey0: Index, day: int) returns (byExtraData: Index, byPubkey: Index)
    requires Paired(byExtraData0, byPubkey0)
    ensures Paired(byExtraData, byPubkey) && day in byExtraData && day in byPubkey
    ensures byExtraData == byExtraData0[day := if day in byExtraData0 then byExtraData0[day] else map[]]
    ensures byPubkey == byPubkey0[day := if day in byPubkey0 then byPubkey0[day] else map[]]
  {
    byExtraData, byPubkey := byExtraData0, byPubkey0;
    if day !in byExtraData {
      byExtraData, byPubkey := byExtraData[day := map[]], byPubkey[day := map[]];
    }
  }

  lemma DayReplaced(index: Index, day: int, buckets: map<string, StatsEntry>, updated: map<string, StatsEntry>)
    ensures index[day := buckets][day := updated] == index[day := updated]
  {
  }

  /** One round of the loop over the slots. */
  method FileEntry(byExtraData0: Index, byPubkey0: Index, entry: Row)
    returns (byExtraData: Index, byPubkey: Index, builderID: string)
    requires Paired(byExtraData0, byPubkey0)
    ensures IsNameOf(builderID, entry.checks.extraData)
    ensures byExtraData == Filed(byExtraData0, ByExtraData, entry, builderID)
    ensures byPubkey == Filed(byPubkey0, ByPubkey, entry, entry.builderPubkey)
    ensures Paired(byExtraData, byPubkey)
  {
    builderID := BuilderNameFromExtraData(entry.checks.extraData);
    var day := DayOf(entry.slot);
    byExtraData, byPubkey := OpenDay(byExtraData0, byPubkey0, day);
    var byName := UpdateByExtraData(byExtraData[day], entry, builderID);
    var byKey := UpdateByPubkey(byPubkey[day], entry);
    DayReplaced(byExtraData0, day, byExtraData[day], byName);
    DayReplaced(byPubkey0, day, byPubkey[day], byKey);
    byExtraData, byPubkey := byExtraData[day := byName], byPubkey[day := byKey];
  }

  ghost predicate NamesOk(entries: SlotEntries, seen: set<nat>, names: map<nat, string>) {
    && seen <= entries.Keys && names.Keys == seen
    && forall s | s in seen :: IsNameOf(names[s], entries[s].checks.extraData)
  }

  /** Both indexes, when the slots of `order` have been filed in that order. */
  ghost predicate FilledIn(byExtraData: Index, byPubkey: Index, entries: SlotEntries, order: seq<nat>,
                           names: map<nat, string>) {
    && NamesOk(entries, SlotsIn(order), names) && Paired(byExtraData, byPubkey)
    && byExtraData == FiledAll(ByExtraData, entries, order, names)
    && byPubkey == FiledAll(ByPubkey, entries, order, PubkeyFiling(entries))
  }

  lemma NamesStep(entries: SlotEntries, order: seq<nat>, names: map<nat, string>, s: nat, name: string)
    requires NamesOk(entries, SlotsIn(order), names)
    requires s in entries && s !in order && IsNameOf(name, entries[s].checks.extraData)
    ensures NamesOk(entries, SlotsIn(order + [s]), names[s := name])
  {
    assert SlotsIn(order + [s]) == SlotsIn(order) + {s};
  }

  lemma NamesFiled(entries: SlotEntries, order: seq<nat>, names: map<nat, string>, s: nat, name: string)
    requires SlotsIn(order) <= entries.Keys && SlotsIn(order) <= names.Keys && s in entries && s !in order
    ensures SlotsIn(order + [s]) <= entries.Keys && SlotsIn(order + [s]) <= names[s := name].Keys
    ensures FiledAll(ByExtraData, entries, order + [s], names[s := name])
         == Filed(FiledAll(ByExtraData, entries, order, names), ByExtraData, entries[s], name)
  {
    FiledAllFrame(ByExtraData, entries, order, names, s, name);
    FiledAllStep(ByExtraData, entries, order, names[s := name], s);
  }

  /** All slots but those of `todo` have been filed. */
  ghost predicate FilledBut(byExtraData: Index, byPubkey: Index, entries: SlotEntries, todo: set<nat>, order: seq<nat>,
                            names: map<nat, string>) {
    todo <= entries.Keys && Orders(order, entries.Keys - todo) && FilledIn(byExtraData, byPubkey, entries, order, names)
  }

  lemma OrderStep(entries: SlotEntries, todo: set<nat>, order: seq<nat>, s: nat)
    requires todo <= entries.Keys && s in todo && Orders(order, entries.Keys - todo)
    ensures s !in order && Orders(order + [s], entries.Keys - (todo - {s}))
  {
    OrderAppend(order, entries.Keys - todo, s);
    assert entries.Keys - todo + {s} == entries.Keys - (todo - {s});
  }

  /** The body of the loop. */
  method FileSlot(byExtraData0: Index, byPubkey0: Index, entries: SlotEntries, slot: nat, ghost todo: set<nat>,
                  ghost order: seq<nat>, ghost names: map<nat, string>)
    returns (byExtraData: Index, byPubkey: Index, ghost names': map<nat, string>)
    requires slot in todo && FilledBut(byExtraData0, byPubkey0, entries, todo, order, names)
    ensures FilledBut(byExtraData, byPubkey, entries, todo - {slot}, order + [slot], names')
  {
    var builderID;
    byExtraData, byPubkey, builderID := FileEntry(byExtraData0, byPubkey0, entries[slot]);
    names' := names[slot := builderID];
    OrderStep(entries, todo, order, slot);
    NamesStep(entries, order, names, slot, builderID);
    NamesFiled(entries, order, names, slot, builderID);
    FiledAllStep(ByPubkey, entries, order, PubkeyFiling(entries), slot);
  }

  lemma NothingFiled(entries: SlotEntries)
    ensures FilledBut(map[], map[], entries, entries.Keys, [], map[])
  {
    assert SlotsIn([]) == {};
  }

  lemma AllFiled(byExtraData: Index, byPubkey: Index, entries: SlotEntries, order: seq<nat>, names: map<nat, string>)
    requires FilledBut(byExtraData, byPubkey, entries, {}, order, names)
    ensures SlotsIn(order) == entries.Keys && Orders(order, entries.Keys)
    ensures FilingOk(entries, Filing(names, PubkeyFiling(entries)))
    ensures Indexes(byExtraData, byPubkey) == IndexesIn(entries, Filing(names, PubkeyFiling(entries)), order)
  {
    assert entries.Keys - {} == entries.Keys;
    assert SlotsIn(order) == entries.Keys;
  }

  /** The loop over the slots, in whatever order Go ranges over the map: for some names and some
      order, the indexes are those of filing the slots in that order. */
  method FillBuckets(entriesBySlot: SlotEntries)
    returns (byExtraData: Index, byPubkey: Index, ghost filing: Filing, ghost order: seq<nat>)
    requires SlotsMatch(entriesBySlot)
    ensures FilingOk(entriesBySlot, filing) && Orders(order, entriesBySlot.Keys) && SlotsIn(order) == entriesBySlot.Keys
    ensures Indexes(byExtraData, byPubkey) == IndexesIn(entriesBySlot, filing, order)
    ensures byExtraData.Keys == byPubkey.Keys
  {
    byExtraData, byPubkey, order := map[], map[], [];
    ghost var names: map<nat, string> := map[];
    var todo := entriesBySlot.Keys;
    NothingFiled(entriesBySlot);
    while todo != {}
      invariant FilledBut(byExtraData, byPubkey, entriesBySlot, todo, order, names)
      decreases |todo|
    {
      var slot := AnyOf(todo);
      byExtraData, byPubkey, names := FileSlot(byExtraData, byPubkey, entriesBySlot, slot, todo, order, names);
      order, todo := order + [slot], todo - {slot};
    }
    AllFiled(byExtraData, byPubkey, entriesBySlot, order, names);
    filing := Filing(names, PubkeyFiling(entriesBySlot));
  }

  // ---------------------------------------------------------------- saving the buckets

  /** One statement must not touch a row twice. */
  ghost predicate Saveable(entries: seq<StatsEntry>) {
    forall i, j | 0 <= i < j < |entries| :: KeyOfEntry(entries[i]) != KeyOfEntry(entries[j])
  }

  ghost predicate FiledUnderNames(buckets: map<string, StatsEntry>, kind: Kind, day: int) {
    forall name | name in buckets :: KeyOfEntry(buckets[name]) == DayKey(kind, day, name)
  }

  /** The buckets in some order. */
  ghost predicate ListsBuckets(buckets: map<string, StatsEntry>, entries: seq<StatsEntry>) {
    && (forall e | e in entries :: e.builderName in buckets && buckets[e.builderName] == e)
    && (forall name | name in buckets :: buckets[name] in entries)
    && (forall i, j | 0 <= i < j < |entries| :: entries[i].builderName != entries[j].builderName)
  }

  method Gather(buckets: map<string, StatsEntry>, ghost kind: Kind, ghost day: int) returns (entries: seq<StatsEntry>)
    requires FiledUnderNames(buckets, kind, day)
    ensures ListsBuckets(buckets, entries)
  {
    entries := [];
    var todo := buckets.Keys;
    while todo != {}
      invariant todo <= buckets.Keys
      invariant forall e | e in entries :: e.builderName in buckets.Keys - todo && buckets[e.builderName] == e
      invariant forall name | name in buckets.Keys - todo :: buckets[name] in entries
      invariant forall i, j | 0 <= i < j < |entries| :: entries[i].builderName != entries[j].builderName
      decreases |todo|
    {
      var name := AnyOf(todo);
      assert KeyOfEntry(buckets[name]) == DayKey(kind, day, name);
      entries := entries + [buckets[name]];
      todo := todo - {name};
    }
  }

  lemma DayIsSaveable(byName: map<string, StatsEntry>, byKey: map<string, StatsEntry>, day: int, x: seq<StatsEntry>,
                      p: seq<StatsEntry>)
    requires FiledUnderNames(byName, ByExtraData, day) && FiledUnderNames(byKey, ByPubkey, day)
    requires ListsBuckets(byName, x) && ListsBuckets(byKey, p)
    ensures Saveable(x + p)
  {
    var all := x + p;
    forall i, j | 0 <= i < j < |all| ensures KeyOfEntry(all[i]) != KeyOfEntry(all[j]) {
      assert all[i] in (if i < |x| then x else p) && all[j] in (if j < |x| then x else p);
    }
  }

  /** The entries of these days, in some order. */
  ghost predicate ListsDays(ix: Indexes, days: set<int>, all: seq<StatsEntry>) {
    && (forall e | e in all :: exists kind, day, name :: day in days && ix.Has(kind, day, name, e))
    && (forall kind, day, name, e | day in days && ix.Has(kind, day, name, e) :: e in all)
  }

  lemma DayIsListed(ix: Indexes, day: int, x: seq<StatsEntry>, p: seq<StatsEntry>)
    requires day in ix.byExtraData && day in ix.byPubkey
    requires ListsBuckets(ix.byExtraData[day], x) && ListsBuckets(ix.byPubkey[day], p)
    ensures ListsDays(ix, {day}, x + p)
  {
    forall e | e in x + p ensures exists kind, day', name :: day' in {day} && ix.Has(kind, day', name, e) {
      var kind := if e in x then ByExtraData else ByPubkey;
      assert day in {day} && ix.Has(kind, day, e.builderName, e);
    }
  }

  ghost predicate SavesDay(byName: map<string, StatsEntry>, byKey: map<string, StatsEntry>, saved: seq<StatsEntry>) {
    exists x, p :: saved == x + p && ListsBuckets(byName, x) && ListsBuckets(byKey, p)
  }

  lemma DaySaved(before: StatsTable, ix: Indexes, done: set<int>, all: seq<StatsEntry>, day: int,
                 saved: seq<StatsEntry>)
    requires day in ix.byExtraData && day in ix.byPubkey && SavesDay(ix.byExtraData[day], ix.byPubkey[day], saved)
    requires ListsDays(ix, done, all)
    ensures ListsDays(ix, done + {day}, all + saved)
    ensures UpsertAll(before, all + saved) == UpsertAll(UpsertAll(before, all), saved)
  {
    var x, p :| saved == x + p && ListsBuckets(ix.byExtraData[day], x) && ListsBuckets(ix.byPubkey[day], p);
    DayIsListed(ix, day, x, p);
    ListsMoreDays(ix, done, all, day, saved);
    UpsertAllSplit(before, all, saved);
  }

  lemma ListsMoreDays(ix: Indexes, days: set<int>, all: seq<StatsEntry>, day: int, more: seq<StatsEntry>)
    requires ListsDays(ix, days, all) && ListsDays(ix, {day}, more)
    ensures ListsDays(ix, days + {day}, all + more)
  {
    forall e | e in all + more ensures exists kind, d, name :: d in days + {day} && ix.Has(kind, d, name, e) {
      if e in all {
        var kind, d, name :| d in days && ix.Has(kind, d, name, e);
        assert d in days + {day};
      } else {
        var kind, d, name :| d in {day} && ix.Has(kind, d, name, e);
        assert d in days + {day};
      }
    }
    forall kind, d, name, e | d in days + {day} && ix.Has(kind, d, name, e) ensures e in all + more {
      if d !in days { assert d in {day}; }
    }
  }

  lemma AllDaysListed(ix: Indexes, all: seq<StatsEntry>)
    requires ix.byExtraData.Keys == ix.byPubkey.Keys && ListsDays(ix, ix.byExtraData.Keys, all)
    ensures ListsAll(ix, all)
  {
    forall kind, day, name, e | ix.Has(kind, day, name, e) ensures e in all {
      assert day in ix.byExtraData.Keys;
    }
  }

  lemma IndexFiledUnderNames(ix: Indexes, entries: SlotEntries, filing: Filing, kind: Kind, day: int)
    requires IndexesOk(ix, entries, filing) && day in ix.Of(kind)
    ensures FiledUnderNames(ix.Of(kind)[day], kind, day)
  {
    forall name | name in ix.Of(kind)[day] ensures KeyOfEntry(ix.Of(kind)[day][name]) == DayKey(kind, day, name) {
      EntryKey(ix, entries, filing, kind, day, name, ix.Of(kind)[day][name]);
    }
  }

  class StatsStore {
    var stats: StatsTable

    method SaveBuilderStats(entries: seq<StatsEntry>)
      requires Saveable(entries)
      modifies this
      ensures stats == UpsertAll(old(stats), entries)
    {
      if |entries| == 0 { return; }
      var i := 0;
      while i < |entries|
        invariant 0 <= i <= |entries|
        invariant stats == UpsertAll(old(stats), entries[..i])
      {
        stats := stats[KeyOfEntry(entries[i]) := entries[i]];
        i := i + 1;
        assert entries[..i][..i - 1] == entries[..i - 1];
      }
      assert entries[..i] == entries;
    }

    /** The statement for one day. */
    method SaveDay(byName: map<string, StatsEntry>, byKey: map<string, StatsEntry>, ghost day: int)
      returns (ghost saved: seq<StatsEntry>)
      requires FiledUnderNames(byName, ByExtraData, day) && FiledUnderNames(byKey, ByPubkey, day)
      modifies this
      ensures stats == UpsertAll(old(stats), saved)
      ensures SavesDay(byName, byKey, saved)
    {
      var x := Gather(byName, ByExtraData, day);
      var p := Gather(byKey, ByPubkey, day);
      DayIsSaveable(byName, byKey, day, x, p);
      SaveBuilderStats(x + p);
      saved := x + p;
    }

    method SaveDayBucket(entriesBySlot: SlotEntries) returns (ghost filing: Filing, ghost order: seq<nat>)
      requires SlotsMatch(entriesBySlot)
      modifies this
      ensures RunIn(old(stats), stats, entriesBySlot, filing, order)
      ensures RunResult(old(stats), stats, entriesBySlot, filing)
    {
      var byExtraData, byPubkey;
      byExtraData, byPubkey, filing, order := FillBuckets(entriesBySlot);
      IndexesInOk(entriesBySlot, filing, order);
      ghost var all := SaveDays(byExtraData, byPubkey, entriesBySlot, filing);
      RunInIsRunResult(old(stats), stats, entriesBySlot, filing, order);
    }

    /** One day more, when those of `done` have been saved. */
    method SaveOneDay(byExtraData: Index, byPubkey: Index, day: int, ghost entries: SlotEntries, ghost filing: Filing,
                      ghost before: StatsTable, ghost done: set<int>, ghost all: seq<StatsEntry>)
      returns (ghost more: seq<StatsEntry>)
      requires byExtraData.Keys == byPubkey.Keys && IndexesOk(Indexes(byExtraData, byPubkey), entries, filing)
      requires day in byExtraData && stats == UpsertAll(before, all)
      requires ListsDays(Indexes(byExtraData, byPubkey), done, all)
      modifies this
      ensures stats == UpsertAll(before, more) && ListsDays(Indexes(byExtraData, byPubkey), done + {day}, more)
    {
      ghost var ix := Indexes(byExtraData, byPubkey);
      IndexFiledUnderNames(ix, entries, filing, ByExtraData, day);
      IndexFiledUnderNames(ix, entries, filing, ByPubkey, day);
      ghost var saved := SaveDay(byExtraData[day], byPubkey[day], day);
      DaySaved(before, ix, done, all, day, saved);
      more := all + saved;
    }

    /** The loop over the days; the order does not matter. */
    method SaveDays(byExtraData: Index, byPubkey: Index, ghost entries: SlotEntries, ghost filing: Filing)
      returns (ghost all: seq<StatsEntry>)
      requires byExtraData.Keys == byPubkey.Keys && IndexesOk(Indexes(byExtraData, byPubkey), entries, filing)
      modifies this
      ensures stats == UpsertAll(old(stats), all) && ListsAll(Indexes(byExtraData, byPubkey), all)
    {
      ghost var ix := Indexes(byExtraData, byPubkey);
      all := [];
      ghost var done: set<int> := {};
      var todo := byExtraData.Keys;
      while todo != {}
        invariant todo <= byExtraData.Keys && done == byExtraData.Keys - todo
        invariant stats == UpsertAll(old(stats), all) && ListsDays(ix, done, all)
        decreases |todo|
      {
        var day := AnyOf(todo);
        all := SaveOneDay(byExtraData, byPubkey, day, entries, filing, old(stats), done, all);
        done, todo := done + {day}, todo - {day};
      }
      AllDaysListed(ix, all);
    }
  }
}
