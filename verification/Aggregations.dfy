/** The daily stats (`cmd/core/update-builder-stats.go`) and the list of top builders
    (`services/website/utils.go`) count the same blocks per builder. */
module Aggregations {
  import opened BuilderGroups
  import opened BuilderStats
  import C = Consolidate
  import opened Grouping
  import opened NamedTotals
  import opened Sequences
  import opened SlotTime
  import BucketTexts

  /** The slots of a day whose payload carries one of the texts and is named like this. */
  ghost function SlotsNamed(entries: SlotEntries, day: int, name: string, texts: seq<string>): set<nat> {
    set s | s in entries && DayOf(s) == day && entries[s].checks.extraData in texts
      && IsNameOf(name, entries[s].checks.extraData)
  }

  ghost function SlotsWithText(entries: SlotEntries, day: int, text: string): set<nat> {
    set s | s in entries && DayOf(s) == day && entries[s].checks.extraData == text
  }

  /** What grouping the payloads of a day by extra data gives: every text once, with its slots counted. */
  ghost predicate GroupedByText(entries: SlotEntries, day: int, builders: seq<C.TopBuilderEntry>) {
    && C.DistinctTexts(builders)
    && (forall b | b in builders :: b.numBlocks == |SlotsWithText(entries, day, b.extraData)| > 0)
    && (forall s | s in entries && DayOf(s) == day :: entries[s].checks.extraData in C.Texts(builders))
  }

  /** No text of the day is in two groups. */
  ghost predicate PlainTexts(entries: SlotEntries, day: int) {
    forall s | s in entries && DayOf(s) == day :: Unambiguous(entries[s].checks.extraData)
  }

  ghost predicate PlainBuilders(builders: seq<C.TopBuilderEntry>) {
    C.DistinctTexts(builders) && forall b | b in builders :: Unambiguous(b.extraData)
  }

  lemma SlotWithText(entries: SlotEntries, day: int, text: string) returns (s: nat)
    requires |SlotsWithText(entries, day, text)| > 0
    ensures s in SlotsWithText(entries, day, text)
  {
    var slots := SlotsWithText(entries, day, text);
    assert slots != {};
    s :| s in slots;
  }

  lemma TextsArePlain(entries: SlotEntries, day: int, builders: seq<C.TopBuilderEntry>)
    requires GroupedByText(entries, day, builders) && PlainTexts(entries, day)
    ensures PlainBuilders(builders)
  {
    forall b | b in builders ensures Unambiguous(b.extraData) {
      var s := SlotWithText(entries, day, b.extraData);
    }
  }

  lemma OneMoreText(entries: SlotEntries, day: int, name: string, texts: seq<string>, text: string)
    requires text !in texts
    ensures |SlotsNamed(entries, day, name, texts + [text])|
         == |SlotsNamed(entries, day, name, texts)|
           + if IsNameOf(name, text) then |SlotsWithText(entries, day, text)| else 0
  {
    var a, b := SlotsNamed(entries, day, name, texts), SlotsWithText(entries, day, text);
    if IsNameOf(name, text) {
      assert SlotsNamed(entries, day, name, texts + [text]) == a + b && a !! b;
    } else {
      assert SlotsNamed(entries, day, name, texts + [text]) == a;
    }
  }

  lemma OneMoreName(entries: SlotEntries, day: int, texts: seq<string>, text: string, ownName: string, name: string)
    requires text !in texts && IsNameOf(ownName, text) && Unambiguous(text)
    ensures |SlotsNamed(entries, day, name, texts + [text])|
         == |SlotsNamed(entries, day, name, texts)| + if ownName == name then |SlotsWithText(entries, day, text)| else 0
  {
    OneMoreText(entries, day, name, texts, text);
    if IsNameOf(name, text) { NameIsUnique(name, ownName, text); }
  }

  ghost predicate CountsSlots(entries: SlotEntries, day: int, builders: seq<C.TopBuilderEntry>) {
    forall i | 0 <= i < |builders| :: builders[i].numBlocks == |SlotsWithText(entries, day, builders[i].extraData)|
  }

  lemma FrontIsPlain(entries: SlotEntries, day: int, builders: seq<C.TopBuilderEntry>, names: seq<string>)
    requires builders != [] && C.Named(builders, names) && PlainBuilders(builders)
    ensures var n := |builders| - 1;
            && C.Texts(builders) == C.Texts(builders[..n]) + [builders[n].extraData]
            && C.Named(builders[..n], names[..n]) && PlainBuilders(builders[..n])
            && IsNameOf(names[n], builders[n].extraData) && Unambiguous(builders[n].extraData)
            && builders[n].extraData !in C.Texts(builders[..n])
            && (CountsSlots(entries, day, builders) ==> CountsSlots(entries, day, builders[..n]))
  {
    var n := |builders| - 1;
    var texts := C.Texts(builders);
    assert C.Texts(builders[..n]) == texts[..n] && texts == texts[..n] + [builders[n].extraData];
    assert IsNameOf(names[n], texts[n]) && builders[n] in builders;
    forall i | 0 <= i < n ensures texts[..n][i] != builders[n].extraData {
      assert texts[i] != texts[n];
    }
    forall b | b in builders[..n] ensures Unambiguous(b.extraData) {
      assert b in builders;
    }
  }

  lemma TotalLast(builders: seq<C.TopBuilderEntry>, names: seq<string>, name: string)
    requires |names| == |builders| > 0
    ensures var n := |builders| - 1;
            Total(C.Postings(builders, names), name)
              == Total(C.Postings(builders[..n], names[..n]), name)
                + if names[n] == name then builders[n].numBlocks else 0
  {
    C.PostingsStep(builders, names);
  }

  /** The blocks filed under a name are the slots whose text has that name. */
  lemma {:induction false} TotalCountsSlots(entries: SlotEntries, day: int, builders: seq<C.TopBuilderEntry>,
                                            names: seq<string>, name: string)
    requires C.Named(builders, names) && PlainBuilders(builders) && CountsSlots(entries, day, builders)
    ensures Total(C.Postings(builders, names), name) == |SlotsNamed(entries, day, name, C.Texts(builders))|
  {
    if builders == [] {
      assert SlotsNamed(entries, day, name, []) == {};
    } else {
      var n := |builders| - 1;
      FrontIsPlain(entries, day, builders, names);
      TotalCountsSlots(entries, day, builders[..n], names[..n], name);
      TotalLast(builders, names, name);
      OneMoreName(entries, day, C.Texts(builders[..n]), builders[n].extraData, names[n], name);
    }
  }

  lemma BucketIsSlotsNamed(entries: SlotEntries, filing: Filing, day: int, name: string,
                           builders: seq<C.TopBuilderEntry>)
    requires FilingOk(entries, filing) && GroupedByText(entries, day, builders) && PlainTexts(entries, day)
    ensures Bucket(entries, filing, ByExtraData, day, name) == SlotsNamed(entries, day, name, C.Texts(builders))
  {
    forall s | s in entries && DayOf(s) == day
      ensures filing.names[s] == name <==> IsNameOf(name, entries[s].checks.extraData)
    {
      if IsNameOf(name, entries[s].checks.extraData) {
        NameIsUnique(filing.names[s], name, entries[s].checks.extraData);
      }
    }
  }

  /** Where the entry named "bob the builder" is, if there is one. */
  ghost predicate IsBob(builders: seq<C.TopBuilderEntry>, bob: int) {
    forall i | 0 <= i < |builders| :: C.Texts(builders)[i] == BOB <==> i == bob
  }

  /** What that entry overwrites. */
  ghost function LostBlocks(builders: seq<C.TopBuilderEntry>, names: seq<string>, bob: int): int
    requires |names| == |builders|
  {
    if 0 <= bob < |builders| then GroupBefore(C.Texts(builders), names, C.Blocks(builders), bob) else 0
  }

  /** For every name: what the website shows, less what was overwritten, is what the daily stats hold. */
  lemma CountsOfName(entries: SlotEntries, filing: Filing, day: int, builders: seq<C.TopBuilderEntry>,
                     names: seq<string>, name: string, bob: int)
    requires FilingOk(entries, filing) && GroupedByText(entries, day, builders) && PlainTexts(entries, day)
    requires C.Named(builders, names) && IsBob(builders, bob)
    ensures Balance(C.Postings(builders, names), name) + (if name == BOB then LostBlocks(builders, names, bob) else 0)
         == |Bucket(entries, filing, ByExtraData, day, name)|
  {
    var n := |builders|;
    TextsArePlain(entries, day, builders);
    BalanceAndLoss(C.Texts(builders), names, C.Blocks(builders), n, bob, name);
    assert C.Texts(builders)[..n] == C.Texts(builders) && names[..n] == names
      && C.Blocks(builders)[..n] == C.Blocks(builders);
    TotalCountsSlots(entries, day, builders, names, name);
    BucketIsSlotsNamed(entries, filing, day, name, builders);
  }

  lemma NameHasSlots(entries: SlotEntries, filing: Filing, day: int, builders: seq<C.TopBuilderEntry>,
                     names: seq<string>, i: nat)
    requires FilingOk(entries, filing) && GroupedByText(entries, day, builders) && PlainTexts(entries, day)
    requires C.Named(builders, names) && i < |builders|
    ensures Bucket(entries, filing, ByExtraData, day, names[i]) != {}
  {
    var text := builders[i].extraData;
    assert builders[i] in builders && C.Texts(builders)[i] == text;
    var s := SlotWithText(entries, day, text);
    NameIsUnique(filing.names[s], names[i], text);
    assert s in Bucket(entries, filing, ByExtraData, day, names[i]);
  }

  lemma BobIndex(builders: seq<C.TopBuilderEntry>) returns (bob: int)
    requires C.DistinctTexts(builders)
    ensures IsBob(builders, bob)
  {
    if b :| 0 <= b < |builders| && C.Texts(builders)[b] == BOB {
      bob := b;
    } else {
      bob := -1;
    }
  }

  /** With unambiguous texts the names leave no choice, so overwriting shows in the input. */
  lemma LossShows(builders: seq<C.TopBuilderEntry>, names: seq<string>, bob: int)
    requires C.Named(builders, names) && PlainBuilders(builders) && IsBob(builders, bob)
    ensures LostBlocks(builders, names, bob) >= 0
    ensures LostBlocks(builders, names, bob) > 0 <==> C.BobCanOverwrite(builders)
  {
    if 0 <= bob < |builders| {
      var texts, blocks := C.Texts(builders), C.Blocks(builders);
      assert texts[bob] == builders[bob].extraData;
      TotalIsPositive(texts[..bob], names[..bob], blocks[..bob], BOB);
      C.BeforeBob(builders, names, bob);
      if C.BobOverwrites(builders, names) { C.NamesMatterOnlyHere(builders, names); }
      if C.BobCanOverwrite(builders) { OverwritesForTheseNames(builders, names); }
    } else {
      forall b | 0 <= b < |builders| ensures builders[b].extraData != BOB {
        assert C.Texts(builders)[b] == builders[b].extraData;
      }
    }
  }

  lemma OverwritesForTheseNames(builders: seq<C.TopBuilderEntry>, names: seq<string>)
    requires C.Named(builders, names) && PlainBuilders(builders) && C.BobCanOverwrite(builders)
    ensures C.BobOverwrites(builders, names)
  {
    var i, b :| 0 <= i < b < |builders| && builders[b].extraData == BOB && LooksLikeBob(builders[i].extraData)
                && builders[i].numBlocks > 0;
    assert builders[i] in builders && IsNameOf(names[i], C.Texts(builders)[i]) && Matches(BOB, builders[i].extraData);
  }

  ghost predicate SameBlocks(after: StatsTable, day: int, d: C.DisplayEntry) {
    && DayKey(ByExtraData, day, d.info.extraData) in after
    && after[DayKey(ByExtraData, day, d.info.extraData)].blocksIncluded == d.info.numBlocks
  }

  ghost predicate AgreeOn(after: StatsTable, day: int, resp: seq<C.DisplayEntry>) {
    forall d | d in resp :: SameBlocks(after, day, d)
  }

  lemma ShownBlocks(before: StatsTable, after: StatsTable, entries: SlotEntries, filing: Filing, day: int,
                    builders: seq<C.TopBuilderEntry>, names: seq<string>, resp: seq<C.DisplayEntry>, d: C.DisplayEntry,
                    bob: int)
    requires RunResult(before, after, entries, filing)
    requires GroupedByText(entries, day, builders) && PlainTexts(entries, day)
    requires C.Named(builders, names) && C.ListsMap(C.Merged(builders, names), resp) && d in resp
             && IsBob(builders, bob)
    ensures DayKey(ByExtraData, day, d.info.extraData) in after
    ensures after[DayKey(ByExtraData, day, d.info.extraData)].blocksIncluded
         == d.info.numBlocks + if d.info.extraData == BOB then LostBlocks(builders, names, bob) else 0
  {
    var name := d.info.extraData;
    C.MergedBalance(builders, names, name);
    var i :| 0 <= i < |names| && names[i] == name;
    NameHasSlots(entries, filing, day, builders, names, i);
    CountsOfName(entries, filing, day, builders, names, name, bob);
  }

  /** Whatever orders the maps are ranged over in: the builders shown are exactly those with blocks on
      that day. */
  lemma SameBuilders(entries: SlotEntries, filing: Filing, day: int, builders: seq<C.TopBuilderEntry>,
                     names: seq<string>, resp: seq<C.DisplayEntry>, name: string)
    requires FilingOk(entries, filing) && GroupedByText(entries, day, builders) && PlainTexts(entries, day)
    requires C.Named(builders, names) && C.ListsMap(C.Merged(builders, names), resp)
    ensures name in C.NamesOf(resp) <==> Bucket(entries, filing, ByExtraData, day, name) != {}
  {
    C.MergedBalance(builders, names, name);
    if name in C.NamesOf(resp) {
      var j :| 0 <= j < |resp| && C.NamesOf(resp)[j] == name;
      assert resp[j] in resp;
      var i :| 0 <= i < |names| && names[i] == name;
      NameHasSlots(entries, filing, day, builders, names, i);
    }
    if Bucket(entries, filing, ByExtraData, day, name) != {} {
      var s :| s in Bucket(entries, filing, ByExtraData, day, name);
      var text := entries[s].checks.extraData;
      var i :| 0 <= i < |builders| && C.Texts(builders)[i] == text;
      NameIsUnique(names[i], name, text);
    }
  }

  lemma BobIsShown(builders: seq<C.TopBuilderEntry>, names: seq<string>, resp: seq<C.DisplayEntry>)
    returns (d: C.DisplayEntry)
    requires C.Named(builders, names) && C.ListsMap(C.Merged(builders, names), resp) && C.BobCanOverwrite(builders)
    ensures d in resp && d.info.extraData == BOB
  {
    var b :| 0 <= b < |builders| && builders[b].extraData == BOB;
    BobIsUngrouped();
    assert IsNameOf(names[b], C.Texts(builders)[b]);
    C.MergedBalance(builders, names, BOB);
    var j :| 0 <= j < |resp| && C.NamesOf(resp)[j] == BOB;
    d := resp[j];
  }

  /** Both count the same blocks for every builder if and only if no episode with blocks precedes an
      entry named "bob the builder". */
  lemma AggregationsAgreeExactly(before: StatsTable, after: StatsTable, entries: SlotEntries, filing: Filing, day: int,
                                 builders: seq<C.TopBuilderEntry>, names: seq<string>, resp: seq<C.DisplayEntry>)
    requires RunResult(before, after, entries, filing)
    requires GroupedByText(entries, day, builders) && PlainTexts(entries, day)
    requires C.Named(builders, names) && C.ListsMap(C.Merged(builders, names), resp)
    ensures AgreeOn(after, day, resp) <==> !C.BobCanOverwrite(builders)
  {
    var bob := BobIndex(builders);
    TextsArePlain(entries, day, builders);
    LossShows(builders, names, bob);
    forall d | d in resp
      ensures SameBlocks(after, day, d) <==> d.info.extraData != BOB || !C.BobCanOverwrite(builders)
    {
      ShownBlocks(before, after, entries, filing, day, builders, names, resp, d, bob);
    }
    if C.BobCanOverwrite(builders) {
      var d := BobIsShown(builders, names, resp);
      assert !SameBlocks(after, day, d);
    }
  }

  // ---------------------------------------------------------------- for every order of the maps

  ghost function SomeNamesOf(entries: SlotEntries): map<nat, string> {
    map s | s in entries :: SomeName(entries[s].checks.extraData)
  }

  /** A run that files the slots like this. */
  lemma RunOfNames(entries: SlotEntries, names: map<nat, string>) returns (after: StatsTable, filing: Filing)
    requires SlotsMatch(entries) && names.Keys == entries.Keys
    requires forall s | s in entries :: IsNameOf(names[s], entries[s].checks.extraData)
    ensures filing.names == names && RunResult(map[], after, entries, filing)
  {
    filing := Filing(names, PubkeyFiling(entries));
    var order := SomeOrder(entries.Keys);
    after := BucketTexts.RunExists(map[], entries, filing, order);
    RunInIsRunResult(map[], after, entries, filing, order);
  }

  lemma LastNameCounts(names: map<nat, string>, s: nat, g: string, h: string)
    ensures names[s := h][s := g] == names[s := g]
  {
  }

  lemma RunWithName(entries: SlotEntries, s: nat, name: string) returns (after: StatsTable, filing: Filing)
    requires SlotsMatch(entries) && s in entries && IsNameOf(name, entries[s].checks.extraData)
    ensures filing.names == SomeNamesOf(entries)[s := name] && RunResult(map[], after, entries, filing)
  {
    after, filing := RunOfNames(entries, SomeNamesOf(entries)[s := name]);
  }

  lemma SomeList(builders: seq<C.TopBuilderEntry>, names: seq<string>) returns (resp: seq<C.DisplayEntry>)
    requires C.Named(builders, names)
    ensures C.ListsMap(C.Merged(builders, names), resp)
  {
    C.MergedIsKeyed(builders, names);
    resp := C.SomeListing(C.Merged(builders, names));
  }

  ghost predicate CountIs(after: StatsTable, day: int, name: string, count: int) {
    DayKey(ByExtraData, day, name) in after && after[DayKey(ByExtraData, day, name)].blocksIncluded == count
  }

  lemma CountOfBucket(after: StatsTable, entries: SlotEntries, filing: Filing, day: int, name: string, count: int)
    requires RunResult(map[], after, entries, filing) && CountIs(after, day, name, count)
    ensures |Bucket(entries, filing, ByExtraData, day, name)| == count
  {
    var k := DayKey(ByExtraData, day, name);
    if Bucket(entries, filing, ByExtraData, day, name) == {} {
      if IsBucketKey(entries, filing, k) {
        var kind', day', name' :| k == DayKey(kind', day', name') && Bucket(entries, filing, kind', day', name') != {};
        DayKeyInjective(ByExtraData, day, name, kind', day', name');
      }
    } else {
      assert EntryOk(after[k], ByExtraData, day, name, entries, Bucket(entries, filing, ByExtraData, day, name));
    }
  }

  lemma OneMoreMember(slots: set<nat>, names: map<nat, string>, day: int, s: nat, name: string)
    requires slots <= names.Keys && s in slots && DayOf(s) == day && names[s] != name
    ensures |Members(slots, names[s := name], day, name)| == |Members(slots, names, day, name)| + 1
  {
    assert Members(slots, names[s := name], day, name) == Members(slots, names, day, name) + {s};
  }

  lemma OneMoreSlot(entries: SlotEntries, f: Filing, f': Filing, day: int, s: nat, name: string)
    requires FilingOk(entries, f) && FilingOk(entries, f') && s in entries && DayOf(s) == day
    requires f.names[s] != name && f'.names == f.names[s := name]
    ensures |Bucket(entries, f', ByExtraData, day, name)| == |Bucket(entries, f, ByExtraData, day, name)| + 1
  {
    OneMoreMember(entries.Keys, f.names, day, s, name);
  }

  /** Filing one slot under another name changes the count of a name. */
  lemma OneSlotMoved(entries: SlotEntries, f: Filing, f': Filing, a: StatsTable, b: StatsTable, day: int, s: nat,
                     name: string, count: int)
    requires RunResult(map[], a, entries, f) && RunResult(map[], b, entries, f')
    requires s in entries && DayOf(s) == day && f.names[s] != name && f'.names == f.names[s := name]
    ensures !(CountIs(a, day, name, count) && CountIs(b, day, name, count))
  {
    OneMoreSlot(entries, f, f', day, s, name);
    if CountIs(a, day, name, count) { CountOfBucket(a, entries, f, day, name, count); }
    if CountIs(b, day, name, count) { CountOfBucket(b, entries, f', day, name, count); }
  }

  /** A text can be shown under any group it matches. */
  lemma ShownUnder(builders: seq<C.TopBuilderEntry>, i: nat, group: string)
    returns (names: seq<string>, resp: seq<C.DisplayEntry>, d: C.DisplayEntry)
    requires i < |builders| && IsNameOf(group, builders[i].extraData)
    ensures C.Named(builders, names) && C.ListsMap(C.Merged(builders, names), resp)
    ensures d in resp && d.info.extraData == group
  {
    var any := C.SomeNames(builders);
    names := any[i := group];
    resp := SomeList(builders, names);
    C.MergedBalance(builders, names, group);
    assert names[i] == group;
    var j :| 0 <= j < |resp| && C.NamesOf(resp)[j] == group;
    d := resp[j];
  }

  /** A slot whose text has two names can be filed under either, and only one fits what is shown. */
  lemma FiledUnderEither(entries: SlotEntries, day: int, s: nat, g: string, h: string, count: int)
    returns (after: StatsTable, filing: Filing)
    requires SlotsMatch(entries) && s in entries && DayOf(s) == day && g != h
    requires IsNameOf(g, entries[s].checks.extraData) && IsNameOf(h, entries[s].checks.extraData)
    ensures RunResult(map[], after, entries, filing) && !CountIs(after, day, g, count)
  {
    var a, f := RunWithName(entries, s, h);
    var b, f' := RunWithName(entries, s, g);
    LastNameCounts(SomeNamesOf(entries), s, g, h);
    OneSlotMoved(entries, f, f', a, b, day, s, g, count);
    if CountIs(a, day, g, count) {
      return b, f';
    }
    return a, f;
  }

  /** What a run of the stats and the website may come to. */
  ghost predicate Outcome(entries: SlotEntries, builders: seq<C.TopBuilderEntry>, before: StatsTable,
                          after: StatsTable, filing: Filing, names: seq<string>, resp: seq<C.DisplayEntry>) {
    && RunResult(before, after, entries, filing)
    && C.Named(builders, names) && C.ListsMap(C.Merged(builders, names), resp)
  }

  lemma AmbiguousTextsDisagree(entries: SlotEntries, day: int, builders: seq<C.TopBuilderEntry>)
    returns (after: StatsTable, filing: Filing, names: seq<string>, resp: seq<C.DisplayEntry>)
    requires SlotsMatch(entries) && GroupedByText(entries, day, builders) && !PlainTexts(entries, day)
    ensures Outcome(entries, builders, map[], after, filing, names, resp) && !AgreeOn(after, day, resp)
  {
    var s :| s in entries && DayOf(s) == day && !Unambiguous(entries[s].checks.extraData);
    var text := entries[s].checks.extraData;
    var g, h :| g in GROUPS && h in GROUPS && Matches(g, text) && Matches(h, text) && g != h;
    var i :| 0 <= i < |builders| && C.Texts(builders)[i] == text;
    var d;
    names, resp, d := ShownUnder(builders, i, g);
    after, filing := FiledUnderEither(entries, day, s, g, h, d.info.numBlocks);
    assert !SameBlocks(after, day, d);
  }

  lemma BobDisagrees(entries: SlotEntries, day: int, builders: seq<C.TopBuilderEntry>)
    returns (after: StatsTable, filing: Filing, names: seq<string>, resp: seq<C.DisplayEntry>)
    requires SlotsMatch(entries) && GroupedByText(entries, day, builders) && PlainTexts(entries, day)
    requires C.BobCanOverwrite(builders)
    ensures Outcome(entries, builders, map[], after, filing, names, resp) && !AgreeOn(after, day, resp)
  {
    names := C.SomeNames(builders);
    resp := SomeList(builders, names);
    after, filing := RunOfNames(entries, SomeNamesOf(entries));
    AggregationsAgreeExactly(map[], after, entries, filing, day, builders, names, resp);
  }

  /** The website and the daily stats count the same blocks for every builder shown, whatever the orders
      of the maps in either, exactly if no text of the day is in two groups and no episode precedes an
      entry named "bob the builder". */
  lemma AgreeForEveryOrder(entries: SlotEntries, day: int, builders: seq<C.TopBuilderEntry>)
    requires SlotsMatch(entries) && GroupedByText(entries, day, builders)
    ensures (forall before, after, filing, names, resp |
               Outcome(entries, builders, before, after, filing, names, resp) ::
               AgreeOn(after, day, resp)) <==>
            PlainTexts(entries, day) && !C.BobCanOverwrite(builders)
  {
    if !PlainTexts(entries, day) {
      var after, filing, names, resp := AmbiguousTextsDisagree(entries, day, builders);
    } else if C.BobCanOverwrite(builders) {
      var after, filing, names, resp := BobDisagrees(entries, day, builders);
    } else {
      forall before, after, filing, names, resp | Outcome(entries, builders, before, after, filing, names, resp)
        ensures AgreeOn(after, day, resp)
      {
        AggregationsAgreeExactly(before, after, entries, filing, day, builders, names, resp);
      }
    }
  }
}
