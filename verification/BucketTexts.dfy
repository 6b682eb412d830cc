/** The `extra_data` text of a stats bucket, and exactly when it is the set of the texts of its slots
    (`cmd/core/update-builder-stats.go`). */
module BucketTexts {
  import opened BuilderStats
  import opened Database
  import opened LineSets
  import opened Sequences
  import opened SlotTime

  /** The slots of a bucket, in the order in which they were filed. */
  ghost function OrderOf(order: seq<nat>, filing: map<nat, string>, day: int, name: string): seq<nat>
    requires SlotsIn(order) <= filing.Keys
  {
    if order == [] then []
    else
      var s := order[|order| - 1];
      OrderOf(order[..|order| - 1], filing, day, name) + if DayOf(s) == day && filing[s] == name then [s] else []
  }

  ghost function TextsIn(entries: SlotEntries, slots: seq<nat>): seq<string>
    requires SlotsIn(slots) <= entries.Keys
  {
    if slots == [] then []
    else TextsIn(entries, slots[..|slots| - 1]) + [entries[slots[|slots| - 1]].checks.extraData]
  }

  lemma {:induction false} OrderOfMembers(order: seq<nat>, filing: map<nat, string>, day: int, name: string)
    requires SlotsIn(order) <= filing.Keys
    ensures SlotsIn(OrderOf(order, filing, day, name)) == Members(SlotsIn(order), filing, day, name)
  {
    if order != [] {
      var front, s := order[..|order| - 1], order[|order| - 1];
      assert order == front + [s];
      OrderOfMembers(front, filing, day, name);
      assert SlotsIn(order) == SlotsIn(front) + {s};
      var own := OrderOf(front, filing, day, name);
      if DayOf(s) == day && filing[s] == name {
        assert SlotsIn(own + [s]) == SlotsIn(own) + {s};
      } else {
        assert own + [] == own;
      }
    }
  }

  lemma {:induction false} TextsInValues(entries: SlotEntries, slots: seq<nat>)
    requires SlotsIn(slots) <= entries.Keys
    ensures ValuesOf(TextsIn(entries, slots)) == ExtraDataOf(entries, SlotsIn(slots))
    ensures |TextsIn(entries, slots)| == |slots|
    ensures slots != [] ==> TextsIn(entries, slots)[0] == entries[slots[0]].checks.extraData
  {
    if slots == [] {
      assert ValuesOf([]) == {} && ExtraDataOf(entries, {}) == {} && SlotsIn(slots) == {};
    } else {
      var front, s := slots[..|slots| - 1], slots[|slots| - 1];
      assert slots == front + [s];
      TextsInValues(entries, front);
      assert SlotsIn(slots) == SlotsIn(front) + {s};
      TextsGrow(entries, SlotsIn(front), s);
      assert ValuesOf(TextsIn(entries, slots)) == ValuesOf(TextsIn(entries, front)) + {entries[s].checks.extraData};
    }
  }

  lemma TextsAppend(entries: SlotEntries, slots: seq<nat>, s: nat)
    requires SlotsIn(slots) <= entries.Keys && s in entries
    ensures SlotsIn(slots + [s]) <= entries.Keys
    ensures AddAll(TextsIn(entries, slots + [s]))
            == AddLine(AddAll(TextsIn(entries, slots)), entries[s].checks.extraData)
  {
    assert SlotsIn(slots + [s]) == SlotsIn(slots) + {s};
    assert (slots + [s])[..|slots|] == slots;
    var texts, v := TextsIn(entries, slots), entries[s].checks.extraData;
    assert (texts + [v])[..|texts|] == texts;
  }

  /** What an index has for a bucket: the texts of its slots, recorded in the order of filing. */
  ghost predicate HasTexts(index: Index, entries: SlotEntries, day: int, name: string, slots: seq<nat>)
    requires SlotsIn(slots) <= entries.Keys
  {
    if InIndex(index, day, name) then index[day][name].extraData == AddAll(TextsIn(entries, slots)) else slots == []
  }

  lemma FiledTextStep(index: Index, kind: Kind, entries: SlotEntries, s: nat, n: string, day: int, name: string,
                      slots: seq<nat>)
    requires SlotsMatch(entries) && s in entries
    requires SlotsIn(slots) <= entries.Keys && HasTexts(index, entries, day, name, slots)
    ensures var more := slots + if DayOf(s) == day && n == name then [s] else [];
            SlotsIn(more) <= entries.Keys && HasTexts(Filed(index, kind, entries[s], n), entries, day, name, more)
  {
    if DayOf(s) == day && n == name {
      TextsAppend(entries, slots, s);
    } else {
      assert slots + [] == slots;
    }
  }

  lemma {:induction false} FiledText(kind: Kind, entries: SlotEntries, order: seq<nat>, filing: map<nat, string>,
                                     day: int, name: string)
    requires SlotsMatch(entries) && SlotsIn(order) <= entries.Keys && SlotsIn(order) <= filing.Keys
    ensures SlotsIn(OrderOf(order, filing, day, name)) <= entries.Keys
    ensures HasTexts(FiledAll(kind, entries, order, filing), entries, day, name, OrderOf(order, filing, day, name))
  {
    OrderOfMembers(order, filing, day, name);
    if order != [] {
      var n := |order| - 1;
      FiledText(kind, entries, order[..n], filing, day, name);
      FiledTextStep(FiledAll(kind, entries, order[..n], filing), kind, entries, order[n], filing[order[n]], day, name,
                    OrderOf(order[..n], filing, day, name));
    }
  }

  /** After a run, a bucket's text is that of recording its slots' texts in the order of filing. */
  lemma TextAfterRun(before: StatsTable, after: StatsTable, entries: SlotEntries, filing: Filing, order: seq<nat>,
                     kind: Kind, day: int, name: string)
    requires RunIn(before, after, entries, filing, order) && Bucket(entries, filing, kind, day, name) != {}
    ensures var slots := OrderOf(order, filing.Of(kind), day, name);
            && SlotsIn(slots) == Bucket(entries, filing, kind, day, name)
            && DayKey(kind, day, name) in after
            && after[DayKey(kind, day, name)].extraData == AddAll(TextsIn(entries, slots))
  {
    IndexesInOk(entries, filing, order);
    var ix := IndexesIn(entries, filing, order);
    var all :| ListsAll(ix, all) && after == UpsertAll(before, all);
    OrderOfMembers(order, filing.Of(kind), day, name);
    FiledText(kind, entries, order, filing.Of(kind), day, name);
    assert ix.Of(kind) == FiledAll(kind, entries, order, filing.Of(kind));
    assert IndexOk(ix.Of(kind), kind, entries, entries.Keys, filing.Of(kind));
    assert InIndex(ix.Of(kind), day, name);
    SavedEntry(before, ix, entries, filing, all, kind, day, name);
  }

  lemma SavedEntry(before: StatsTable, ix: Indexes, entries: SlotEntries, filing: Filing, all: seq<StatsEntry>,
                   kind: Kind, day: int, name: string)
    requires IndexesOk(ix, entries, filing) && ListsAll(ix, all) && InIndex(ix.Of(kind), day, name)
    ensures DayKey(kind, day, name) in UpsertAll(before, all)
    ensures UpsertAll(before, all)[DayKey(kind, day, name)] == ix.Of(kind)[day][name]
  {
    assert DistinctKeys(all) by {
      forall e, f | e in all && f in all && KeyOfEntry(e) == KeyOfEntry(f) ensures e == f {
        SameKeySameEntry(ix, entries, filing, all, e, f);
      }
    }
    UpsertAllResult(before, all);
    var e := ix.Of(kind)[day][name];
    assert ix.Has(kind, day, name, e);
    EntryKey(ix, entries, filing, kind, day, name, e);
  }

  // ---------------------------------------------------------------- every order occurs

  ghost function EntriesOf(index: Index): set<StatsEntry> {
    set day, name | day in index && name in index[day] :: index[day][name]
  }

  /** The slots may be filed in any order. */
  lemma RunExists(before: StatsTable, entries: SlotEntries, filing: Filing, order: seq<nat>) returns (after: StatsTable)
    requires SlotsMatch(entries) && FilingOk(entries, filing) && Orders(order, entries.Keys)
    ensures RunIn(before, after, entries, filing, order)
  {
    IndexesInOk(entries, filing, order);
    var ix := IndexesIn(entries, filing, order);
    var all := SomeOrder(EntriesOf(ix.byExtraData) + EntriesOf(ix.byPubkey));
    forall e | e in all ensures exists kind, day, name :: ix.Has(kind, day, name, e) {
      var kind := if e in EntriesOf(ix.byExtraData) then ByExtraData else ByPubkey;
      var day, name :| day in ix.Of(kind) && name in ix.Of(kind)[day] && ix.Of(kind)[day][name] == e;
      assert ix.Has(kind, day, name, e);
    }
    forall kind, day, name, e | ix.Has(kind, day, name, e) ensures e in all {
      assert e in EntriesOf(ix.Of(kind));
    }
    after := UpsertAll(before, all);
  }

  lemma StartWith(slots: set<nat>, s: nat) returns (order: seq<nat>)
    requires s in slots
    ensures Orders(order, slots) && order[0] == s
  {
    var rest := SomeOrder(slots - {s});
    order := [s] + rest;
    forall i, j | 0 <= i < j < |order| ensures order[i] != order[j] {
      assert order[j] == rest[j - 1];
    }
    forall x | x in slots ensures x in order {
      assert x == s || x in rest;
    }
  }

  lemma {:induction false} OrderOfFirst(order: seq<nat>, filing: map<nat, string>, day: int, name: string)
    requires SlotsIn(order) <= filing.Keys && order != [] && DayOf(order[0]) == day && filing[order[0]] == name
    ensures OrderOf(order, filing, day, name) != [] && OrderOf(order, filing, day, name)[0] == order[0]
  {
    if |order| > 1 {
      OrderOfFirst(order[..|order| - 1], filing, day, name);
    } else {
      assert order[..0] == [];
    }
  }

  // ---------------------------------------------------------------- exactly when it is the set

  ghost predicate ExactAfter(after: StatsTable, entries: SlotEntries, filing: Filing, kind: Kind, day: int,
                             name: string)
    requires FilingOk(entries, filing)
  {
    && DayKey(kind, day, name) in after
    && IsExact(after[DayKey(kind, day, name)].extraData, ExtraDataOf(entries, Bucket(entries, filing, kind, day, name)))
  }

  lemma TextsAreLines(entries: SlotEntries, slots: seq<nat>)
    requires NewlineFree(entries) && SlotsIn(slots) <= entries.Keys
    ensures AllLines(TextsIn(entries, slots))
  {
    TextsInValues(entries, slots);
    forall i | 0 <= i < |slots| ensures IsLine(TextsIn(entries, slots)[i]) {
      assert TextsIn(entries, slots)[i] in ValuesOf(TextsIn(entries, slots));
    }
  }

  lemma ExactWithoutSuffixes(before: StatsTable, after: StatsTable, entries: SlotEntries, filing: Filing,
                             order: seq<nat>, kind: Kind, day: int, name: string)
    requires RunIn(before, after, entries, filing, order) && Bucket(entries, filing, kind, day, name) != {}
    requires NewlineFree(entries) && NoProperSuffix(ExtraDataOf(entries, Bucket(entries, filing, kind, day, name)))
    ensures ExactAfter(after, entries, filing, kind, day, name)
  {
    TextAfterRun(before, after, entries, filing, order, kind, day, name);
    var slots := OrderOf(order, filing.Of(kind), day, name);
    TextsInValues(entries, slots);
    TextsAreLines(entries, slots);
    ExactInEveryOrder(TextsIn(entries, slots));
  }

  /** If one text of the bucket is a proper suffix of another, some order loses it. */
  lemma SuffixIsLostInSomeOrder(before: StatsTable, entries: SlotEntries, filing: Filing, kind: Kind, day: int,
                                name: string, v: string, w: string) returns (order: seq<nat>, after: StatsTable)
    requires SlotsMatch(entries) && FilingOk(entries, filing) && NewlineFree(entries)
    requires var texts := ExtraDataOf(entries, Bucket(entries, filing, kind, day, name));
             v in texts && w in texts && IsSuffix(v, w) && v != w
    ensures RunIn(before, after, entries, filing, order) && !ExactAfter(after, entries, filing, kind, day, name)
  {
    var f := filing.Of(kind);
    var s :| s in Bucket(entries, filing, kind, day, name) && entries[s].checks.extraData == w;
    order := StartWith(entries.Keys, s);
    after := RunExists(before, entries, filing, order);
    TextAfterRun(before, after, entries, filing, order, kind, day, name);
    var slots := OrderOf(order, f, day, name);
    OrderOfFirst(order, f, day, name);
    TextsInValues(entries, slots);
    TextsAreLines(entries, slots);
    assert v in ValuesOf(TextsIn(entries, slots));
    NotExactInThisOrder(TextsIn(entries, slots), v);
  }

  /** The text is the set of the bucket's texts for every order of the range over the slots, if and
      only if no text of the bucket is a proper suffix of another. */
  lemma ExtraDataExactly(before: StatsTable, entries: SlotEntries, filing: Filing, kind: Kind, day: int, name: string)
    requires SlotsMatch(entries) && FilingOk(entries, filing) && NewlineFree(entries)
    requires Bucket(entries, filing, kind, day, name) != {}
    ensures (forall order, after | RunIn(before, after, entries, filing, order) ::
               ExactAfter(after, entries, filing, kind, day, name)) <==>
            NoProperSuffix(ExtraDataOf(entries, Bucket(entries, filing, kind, day, name)))
  {
    var texts := ExtraDataOf(entries, Bucket(entries, filing, kind, day, name));
    if NoProperSuffix(texts) {
      forall order, after | RunIn(before, after, entries, filing, order)
        ensures ExactAfter(after, entries, filing, kind, day, name)
      {
        ExactWithoutSuffixes(before, after, entries, filing, order, kind, day, name);
      }
    } else {
      var v, w :| v in texts && w in texts && IsSuffix(v, w) && v != w;
      var order, after := SuffixIsLostInSomeOrder(before, entries, filing, kind, day, name, v, w);
    }
  }
}
