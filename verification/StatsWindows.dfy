/** Runs of the stats command over adjoining windows, and repeated runs of one window
    (`cmd/core/update-builder-stats.go`): what a run leaves, and exactly when that does not depend on
    which of several rows of a slot it picks. */
module StatsWindows {
  import opened BuilderGroups
  import opened BuilderStats
  import opened Database
  import opened Sequences
  import opened SlotTime
  import opened StatsRuns
  import BucketTexts

  ghost predicate GoodWindow(from: int, to: int) {
    InRange(from * DAY) && InRange(to * DAY) && from <= to
  }

  /** The slot starts on one of the days. */
  predicate InDays(slot: nat, from: int, to: int) {
    slot <= MAX_SLOT && from <= DayOf(slot) < to
  }

  lemma WindowIsDays(from: int, to: int, slot: nat)
    requires GoodWindow(from, to)
    ensures Window(from * DAY, to * DAY).0 <= slot <= Window(from * DAY, to * DAY).1 <==> InDays(slot, from, to)
  {
    if slot <= MAX_SLOT {
      MidnightWindow(from, to, slot);
    } else {
      SlotContainsTime(to * DAY);
      SmallUint64(TimeToSlot(to * DAY) + 1);
    }
  }

  /** The names a row may be filed under. */
  ghost predicate IsFiledUnder(r: Row, kind: Kind, name: string) {
    match kind
    case ByExtraData => IsNameOf(name, r.checks.extraData)
    case ByPubkey => r.builderPubkey == name
  }

  /** A slot that can be filed under two names: one row of it, and one name, against another. */
  ghost predicate TwoFilings(rows: seq<Row>, from: int, to: int, kind: Kind, r: Row, q: Row, m: string, n: string) {
    && r in rows && q in rows && r.slot == q.slot && InDays(r.slot, from, to)
    && IsFiledUnder(r, kind, m) && IsFiledUnder(q, kind, n) && m != n
  }

  /** Whichever row of a slot a run picks, and in whatever order it tries the groups, the slot is filed
      under one name of each kind. */
  ghost predicate OneFiling(rows: seq<Row>, from: int, to: int) {
    forall kind, r, q, m, n :: !TwoFilings(rows, from, to, kind, r, q, m, n)
  }

  lemma OneFilingWithin(rows: seq<Row>, d0: int, d2: int, from: int, to: int)
    requires OneFiling(rows, d0, d2) && d0 <= from && to <= d2
    ensures OneFiling(rows, from, to)
  {
    forall kind, r, q, m, n ensures !TwoFilings(rows, from, to, kind, r, q, m, n) {
      assert !TwoFilings(rows, d0, d2, kind, r, q, m, n);
    }
  }

  /** Read off the rows: of a slot in the window they agree on the pubkey, no text is in two groups, and
      their texts have the same name. */
  lemma OneFilingMeans(rows: seq<Row>, from: int, to: int)
    ensures OneFiling(rows, from, to) <==>
              forall r, q | r in rows && q in rows && r.slot == q.slot && InDays(r.slot, from, to) ::
                && r.builderPubkey == q.builderPubkey && Unambiguous(r.checks.extraData)
                && IsNameOf(SomeName(r.checks.extraData), q.checks.extraData)
  {
    if OneFiling(rows, from, to) {
      forall r, q | r in rows && q in rows && r.slot == q.slot && InDays(r.slot, from, to)
        ensures r.builderPubkey == q.builderPubkey && Unambiguous(r.checks.extraData)
        ensures IsNameOf(SomeName(r.checks.extraData), q.checks.extraData)
      {
        var m, n := SomeName(r.checks.extraData), SomeName(q.checks.extraData);
        assert !TwoFilings(rows, from, to, ByPubkey, r, q, r.builderPubkey, q.builderPubkey);
        assert !TwoFilings(rows, from, to, ByExtraData, r, q, m, n);
        forall g, h | g in GROUPS && h in GROUPS && Matches(g, r.checks.extraData) && Matches(h, r.checks.extraData)
          ensures g == h
        {
          assert !TwoFilings(rows, from, to, ByExtraData, r, r, g, h);
        }
      }
    } else {
      var kind, r, q, m, n :| TwoFilings(rows, from, to, kind, r, q, m, n);
      if IsNameOf(SomeName(r.checks.extraData), q.checks.extraData) && Unambiguous(r.checks.extraData)
        && Unambiguous(q.checks.extraData) && kind == ByExtraData {
        NameIsUnique(m, SomeName(r.checks.extraData), r.checks.extraData);
        NameIsUnique(n, SomeName(r.checks.extraData), q.checks.extraData);
      }
    }
  }

  // ---------------------------------------------------------------- what a run leaves

  /** The slots of a bucket, said of the table of payloads alone. */
  ghost function BucketOfRows(rows: seq<Row>, from: int, to: int, kind: Kind, day: int, name: string): set<nat> {
    set r | r in rows && InDays(r.slot, from, to) && DayOf(r.slot) == day && IsFiledUnder(r, kind, name) :: r.slot
  }

  lemma SlotsOfRun(rows: seq<Row>, from: int, to: int, result: seq<Row>, entries: SlotEntries)
    requires GoodWindow(from, to) && PickedFrom(result, entries)
    requires Selected(rows, Window(from * DAY, to * DAY).0, Window(from * DAY, to * DAY).1, result)
    ensures forall s | s in entries :: entries[s] in rows && entries[s].slot == s && InDays(s, from, to)
    ensures forall r | r in rows && InDays(r.slot, from, to) :: r.slot in entries
  {
    forall r | r in rows ensures r in result <==> InDays(r.slot, from, to) {
      WindowIsDays(from, to, r.slot);
    }
  }

  /** The buckets of a run do not depend on the arbitrary choices in it. */
  lemma BucketIsOfRows(rows: seq<Row>, from: int, to: int, result: seq<Row>, entries: SlotEntries, filing: Filing,
                       kind: Kind, day: int, name: string)
    requires OneFiling(rows, from, to) && GoodWindow(from, to)
    requires Selected(rows, Window(from * DAY, to * DAY).0, Window(from * DAY, to * DAY).1, result)
    requires PickedFrom(result, entries) && FilingOk(entries, filing)
    ensures Bucket(entries, filing, kind, day, name) == BucketOfRows(rows, from, to, kind, day, name)
  {
    var a, b := Bucket(entries, filing, kind, day, name), BucketOfRows(rows, from, to, kind, day, name);
    SlotsOfRun(rows, from, to, result, entries);
    forall s | s in entries ensures IsFiledUnder(entries[s], kind, filing.Of(kind)[s]) {
      match kind case ByExtraData => case ByPubkey =>
    }
    forall s | s in b ensures s in a {
      var r :| r in rows && r.slot == s && DayOf(s) == day && IsFiledUnder(r, kind, name) && InDays(s, from, to);
      assert !TwoFilings(rows, from, to, kind, entries[s], r, filing.Of(kind)[s], name);
    }
  }

  ghost predicate TouchedBy(rows: seq<Row>, from: int, to: int, k: StatsKey) {
    exists kind, day, name :: k == DayKey(kind, day, name) && BucketOfRows(rows, from, to, kind, day, name) != {}
  }

  /** What a run leaves, said of the table of payloads alone. */
  ghost predicate LeavesCounts(before: StatsTable, after: StatsTable, rows: seq<Row>, from: int, to: int) {
    && (forall kind, day, name | BucketOfRows(rows, from, to, kind, day, name) != {} ::
          && DayKey(kind, day, name) in after
          && after[DayKey(kind, day, name)].blocksIncluded == |BucketOfRows(rows, from, to, kind, day, name)|)
    && (forall k | !TouchedBy(rows, from, to, k) ::
          (k in after <==> k in before) && (k in before ==> after[k] == before[k]))
  }

  /** What a run leaves, if slots have one filing. */
  lemma RunLeavesCounts(before: StatsTable, after: StatsTable, rows: seq<Row>, from: int, to: int)
    requires IsRun(before, after, rows, from, to) && OneFiling(rows, from, to) && GoodWindow(from, to)
    ensures LeavesCounts(before, after, rows, from, to)
  {
    var result, entries, filing :| RunWith(before, after, rows, from, to, result, entries, filing);
    forall kind, day, name | BucketOfRows(rows, from, to, kind, day, name) != {}
      ensures DayKey(kind, day, name) in after
      ensures after[DayKey(kind, day, name)].blocksIncluded == |BucketOfRows(rows, from, to, kind, day, name)|
    {
      BucketIsOfRows(rows, from, to, result, entries, filing, kind, day, name);
      assert EntryOk(after[DayKey(kind, day, name)], kind, day, name, entries,
        Bucket(entries, filing, kind, day, name));
    }
    forall k | !TouchedBy(rows, from, to, k) ensures !IsBucketKey(entries, filing, k) {
      if IsBucketKey(entries, filing, k) {
        var kind, day, name :| k == DayKey(kind, day, name) && Bucket(entries, filing, kind, day, name) != {};
        BucketIsOfRows(rows, from, to, result, entries, filing, kind, day, name);
      }
    }
  }

  /** Same keys and same block counts. */
  ghost predicate SameCounts(a: StatsTable, b: StatsTable) {
    a.Keys == b.Keys && forall k | k in a :: a[k].blocksIncluded == b[k].blocksIncluded
  }

  lemma BucketsSplit(rows: seq<Row>, d0: int, d1: int, d2: int, kind: Kind, day: int, name: string)
    requires d0 <= d1 <= d2
    ensures BucketOfRows(rows, d0, d2, kind, day, name) ==
              if day < d1 then BucketOfRows(rows, d0, d1, kind, day, name)
                else BucketOfRows(rows, d1, d2, kind, day, name)
    ensures day < d1 ==> BucketOfRows(rows, d1, d2, kind, day, name) == {}
    ensures day >= d1 ==> BucketOfRows(rows, d0, d1, kind, day, name) == {}
  {
  }

  lemma TouchedSplit(rows: seq<Row>, d0: int, d1: int, d2: int, k: StatsKey)
    requires d0 <= d1 <= d2
    ensures TouchedBy(rows, d0, d2, k) <==> TouchedBy(rows, d0, d1, k) || TouchedBy(rows, d1, d2, k)
  {
    if TouchedBy(rows, d0, d2, k) {
      var kind, day, name :| k == DayKey(kind, day, name) && BucketOfRows(rows, d0, d2, kind, day, name) != {};
      BucketsSplit(rows, d0, d1, d2, kind, day, name);
    }
    if TouchedBy(rows, d0, d1, k) {
      var kind, day, name :| k == DayKey(kind, day, name) && BucketOfRows(rows, d0, d1, kind, day, name) != {};
      BucketsSplit(rows, d0, d1, d2, kind, day, name);
    }
    if TouchedBy(rows, d1, d2, k) {
      var kind, day, name :| k == DayKey(kind, day, name) && BucketOfRows(rows, d1, d2, kind, day, name) != {};
      BucketsSplit(rows, d0, d1, d2, kind, day, name);
    }
  }

  /** The effect of a run on one key. */
  lemma CountOfKey(before: StatsTable, after: StatsTable, rows: seq<Row>, from: int, to: int, kind: Kind, day: int,
                   name: string)
    requires LeavesCounts(before, after, rows, from, to)
    ensures var k, bucket := DayKey(kind, day, name), BucketOfRows(rows, from, to, kind, day, name);
            if bucket != {} then k in after && after[k].blocksIncluded == |bucket|
            else (k in after <==> k in before) && (k in before ==> after[k] == before[k])
  {
    var k, bucket := DayKey(kind, day, name), BucketOfRows(rows, from, to, kind, day, name);
    if bucket == {} && TouchedBy(rows, from, to, k) {
      var kind', day', name' :| k == DayKey(kind', day', name')
        && BucketOfRows(rows, from, to, kind', day', name') != {};
      DayKeyInjective(kind, day, name, kind', day', name');
    }
  }

  lemma ComposeAtKey(before: StatsTable, mid: StatsTable, after: StatsTable, whole: StatsTable, rows: seq<Row>, d0: int,
                     d1: int, d2: int, k: StatsKey)
    requires d0 <= d1 <= d2
    requires LeavesCounts(before, mid, rows, d0, d1) && LeavesCounts(mid, after, rows, d1, d2)
    requires LeavesCounts(before, whole, rows, d0, d2)
    ensures k in after <==> k in whole
    ensures k in after ==> after[k].blocksIncluded == whole[k].blocksIncluded
  {
    TouchedSplit(rows, d0, d1, d2, k);
    if TouchedBy(rows, d0, d2, k) {
      var kind, day, name :| k == DayKey(kind, day, name) && BucketOfRows(rows, d0, d2, kind, day, name) != {};
      BucketsSplit(rows, d0, d1, d2, kind, day, name);
      CountOfKey(before, mid, rows, d0, d1, kind, day, name);
      CountOfKey(mid, after, rows, d1, d2, kind, day, name);
      CountOfKey(before, whole, rows, d0, d2, kind, day, name);
    }
  }

  lemma CountsCompose(before: StatsTable, mid: StatsTable, after: StatsTable, whole: StatsTable, rows: seq<Row>,
                      d0: int, d1: int, d2: int)
    requires d0 <= d1 <= d2
    requires LeavesCounts(before, mid, rows, d0, d1) && LeavesCounts(mid, after, rows, d1, d2)
    requires LeavesCounts(before, whole, rows, d0, d2)
    ensures SameCounts(after, whole)
  {
    forall k: StatsKey
      ensures (k in after <==> k in whole) && (k in after ==> after[k].blocksIncluded == whole[k].blocksIncluded)
    {
      ComposeAtKey(before, mid, after, whole, rows, d0, d1, d2, k);
    }
  }

  // ---------------------------------------------------------------- runs of chosen rows

  /** A row for every slot of a table, and names for it. */
  datatype Choice = Choice(entries: SlotEntries, filing: Filing)

  ghost predicate ChoiceOk(rows: seq<Row>, c: Choice) {
    PickedFrom(rows, c.entries) && FilingOk(c.entries, c.filing)
  }

  ghost function EntriesIn(c: Choice, from: int, to: int): SlotEntries {
    map s | s in c.entries && InDays(s, from, to) :: c.entries[s]
  }

  ghost function NamesIn(names: map<nat, string>, from: int, to: int): map<nat, string> {
    map s | s in names && InDays(s, from, to) :: names[s]
  }

  ghost function FilingIn(c: Choice, from: int, to: int): Filing {
    Filing(NamesIn(c.filing.names, from, to), NamesIn(c.filing.pubkeys, from, to))
  }

  lemma SomeChoice(rows: seq<Row>) returns (c: Choice)
    ensures ChoiceOk(rows, c)
  {
    var entries := Picked(rows);
    PickedRows(rows);
    c := Choice(entries, Filing(map s | s in entries :: SomeName(entries[s].checks.extraData), PubkeyFiling(entries)));
  }

  /** The choice that picks this row for its slot and files it under this name. */
  ghost function Choosing(c: Choice, r: Row, kind: Kind, name: string): Choice {
    var text := if kind == ByExtraData then name else SomeName(r.checks.extraData);
    Choice(c.entries[r.slot := r],
           Filing(c.filing.names[r.slot := text], c.filing.pubkeys[r.slot := r.builderPubkey]))
  }

  lemma FiledAs(c: Choice, r: Row, text: string)
    requires FilingOk(c.entries, c.filing) && r.slot in c.entries && IsNameOf(text, r.checks.extraData)
    ensures FilingOk(c.entries[r.slot := r], Filing(c.filing.names[r.slot := text],
                                                    c.filing.pubkeys[r.slot := r.builderPubkey]))
  {
  }

  lemma ChoosingOk(rows: seq<Row>, c: Choice, r: Row, kind: Kind, name: string)
    requires ChoiceOk(rows, c) && r in rows && IsFiledUnder(r, kind, name)
    ensures ChoiceOk(rows, Choosing(c, r, kind, name))
  {
    FiledAs(c, r, if kind == ByExtraData then name else SomeName(r.checks.extraData));
  }

  ghost predicate Ascending(result: seq<Row>) {
    forall i, j | 0 <= i < j < |result| :: result[i].slot <= result[j].slot
  }

  lemma {:induction false} InsertRow(sorted: seq<Row>, r: Row) returns (result: seq<Row>)
    requires Ascending(sorted)
    ensures Ascending(result) && forall q :: q in result <==> q == r || q in sorted
  {
    var n := |sorted| - 1;
    if sorted == [] || sorted[n].slot <= r.slot {
      result := sorted + [r];
    } else {
      assert sorted == sorted[..n] + [sorted[n]];
      var front := InsertRow(sorted[..n], r);
      result := front + [sorted[n]];
      forall i | 0 <= i < |front| ensures front[i].slot <= sorted[n].slot {
        assert front[i] in front;
      }
    }
  }

  /** The query for a window has an answer. */
  lemma {:induction false} SomeAnswer(rows: seq<Row>, first: nat, last: nat) returns (result: seq<Row>)
    ensures Selected(rows, first, last, result)
  {
    if rows == [] {
      result := [];
    } else {
      var n := |rows| - 1;
      assert rows == rows[..n] + [rows[n]];
      result := SomeAnswer(rows[..n], first, last);
      if first <= rows[n].slot <= last {
        result := InsertRow(result, rows[n]);
      }
    }
  }

  /** Every choice is made by some run. */
  lemma RunOfChoice(before: StatsTable, rows: seq<Row>, from: int, to: int, c: Choice) returns (after: StatsTable)
    requires ChoiceOk(rows, c) && GoodWindow(from, to)
    ensures IsRun(before, after, rows, from, to)
    ensures RunResult(before, after, EntriesIn(c, from, to), FilingIn(c, from, to))
  {
    var entries, filing := EntriesIn(c, from, to), FilingIn(c, from, to);
    var result := SomeAnswer(rows, Window(from * DAY, to * DAY).0, Window(from * DAY, to * DAY).1);
    forall r | r in rows ensures r in result <==> InDays(r.slot, from, to) {
      WindowIsDays(from, to, r.slot);
    }
    assert PickedFrom(result, entries);
    var order := SomeOrder(entries.Keys);
    after := BucketTexts.RunExists(before, entries, filing, order);
    RunInIsRunResult(before, after, entries, filing, order);
    assert RunWith(before, after, rows, from, to, result, entries, filing);
  }

  ghost function CountAt(table: StatsTable, k: StatsKey): nat {
    if k in table then table[k].blocksIncluded else 0
  }

  /** The slots that a choice files under a name. */
  ghost function ChosenFor(c: Choice, kind: Kind, day: int, name: string): set<nat> {
    set s | s in c.filing.Of(kind) && s <= MAX_SLOT && DayOf(s) == day && c.filing.Of(kind)[s] == name
  }

  lemma ChosenInDays(c: Choice, from: int, to: int, kind: Kind, day: int, name: string)
    requires FilingOk(c.entries, c.filing)
    ensures FilingOk(EntriesIn(c, from, to), FilingIn(c, from, to))
    ensures Bucket(EntriesIn(c, from, to), FilingIn(c, from, to), kind, day, name) ==
              if from <= day < to then ChosenFor(c, kind, day, name) else {}
  {
    assert FilingIn(c, from, to).Of(kind) == NamesIn(c.filing.Of(kind), from, to);
  }

  lemma CountChosen(before: StatsTable, after: StatsTable, from: int, to: int, c: Choice, kind: Kind, day: int,
                    name: string)
    requires FilingOk(c.entries, c.filing)
    requires RunResult(before, after, EntriesIn(c, from, to), FilingIn(c, from, to))
    ensures var chosen, k := ChosenFor(c, kind, day, name), DayKey(kind, day, name);
            CountAt(after, k) == if from <= day < to && chosen != {} then |chosen| else CountAt(before, k)
  {
    var entries, filing, k := EntriesIn(c, from, to), FilingIn(c, from, to), DayKey(kind, day, name);
    ChosenInDays(c, from, to, kind, day, name);
    if Bucket(entries, filing, kind, day, name) != {} {
      assert EntryOk(after[k], kind, day, name, entries, Bucket(entries, filing, kind, day, name));
    } else if IsBucketKey(entries, filing, k) {
      var kind', day', name' :| k == DayKey(kind', day', name')
        && Bucket(entries, filing, kind', day', name') != {};
      DayKeyInjective(kind, day, name, kind', day', name');
    }
  }

  /** Two choices that file one slot of a window under different names. */
  ghost predicate Differ(c: Choice, d: Choice, kind: Kind, slot: nat, name: string) {
    && slot <= MAX_SLOT && slot in c.filing.Of(kind)
    && c.filing.Of(kind)[slot] != name
    && d.filing.Of(kind) == c.filing.Of(kind)[slot := name]
  }

  lemma ChoosingDiffer(c: Choice, r: Row, q: Row, kind: Kind, m: string, n: string)
    requires r.slot == q.slot <= MAX_SLOT && m != n && IsFiledUnder(r, kind, m) && IsFiledUnder(q, kind, n)
    ensures Differ(Choosing(c, r, kind, m), Choosing(c, q, kind, n), kind, r.slot, n)
  {
    match kind
    case ByExtraData => assert c.filing.names[r.slot := m][r.slot := n] == c.filing.names[r.slot := n];
    case ByPubkey => assert c.filing.pubkeys[r.slot := m][r.slot := n] == c.filing.pubkeys[r.slot := n];
  }

  lemma TwoChoices(rows: seq<Row>, from: int, to: int)
    returns (c: Choice, d: Choice, kind: Kind, slot: nat, name: string)
    requires !OneFiling(rows, from, to)
    ensures ChoiceOk(rows, c) && ChoiceOk(rows, d) && Differ(c, d, kind, slot, name) && InDays(slot, from, to)
  {
    var k, r, q, m, n :| TwoFilings(rows, from, to, k, r, q, m, n);
    var any := SomeChoice(rows);
    ChoosingOk(rows, any, r, k, m);
    ChoosingOk(rows, any, q, k, n);
    ChoosingDiffer(any, r, q, k, m, n);
    c, d, kind, slot, name := Choosing(any, r, k, m), Choosing(any, q, k, n), k, r.slot, n;
  }

  lemma OneMoreChosen(c: Choice, d: Choice, kind: Kind, slot: nat, name: string)
    requires Differ(c, d, kind, slot, name)
    ensures |ChosenFor(d, kind, DayOf(slot), name)| == |ChosenFor(c, kind, DayOf(slot), name)| + 1
  {
    assert ChosenFor(d, kind, DayOf(slot), name) == ChosenFor(c, kind, DayOf(slot), name) + {slot};
  }

  lemma CountsDiffer(a: StatsTable, b: StatsTable, k: StatsKey)
    requires CountAt(a, k) != CountAt(b, k)
    ensures !SameCounts(a, b)
  {
  }

  // ---------------------------------------------------------------- adjoining windows

  /** Running the days before `d1` and then the days from `d1` on leaves the same keys and block
      counts as one run over all of them, if slots have one filing. */
  lemma WindowsCompose(before: StatsTable, mid: StatsTable, after: StatsTable, whole: StatsTable, rows: seq<Row>,
                       d0: int, d1: int, d2: int)
    requires OneFiling(rows, d0, d2) && GoodWindow(d0, d1) && GoodWindow(d1, d2)
    requires IsRun(before, mid, rows, d0, d1) && IsRun(mid, after, rows, d1, d2)
    requires IsRun(before, whole, rows, d0, d2)
    ensures SameCounts(after, whole)
  {
    OneFilingWithin(rows, d0, d2, d0, d1);
    OneFilingWithin(rows, d0, d2, d1, d2);
    RunLeavesCounts(before, mid, rows, d0, d1);
    RunLeavesCounts(mid, after, rows, d1, d2);
    RunLeavesCounts(before, whole, rows, d0, d2);
    CountsCompose(before, mid, after, whole, rows, d0, d1, d2);
  }

  /** Otherwise some runs do not. */
  lemma WindowsClash(rows: seq<Row>, d0: int, d1: int, d2: int)
    returns (mid: StatsTable, after: StatsTable, whole: StatsTable)
    requires !OneFiling(rows, d0, d2) && GoodWindow(d0, d1) && GoodWindow(d1, d2)
    ensures IsRun(map[], mid, rows, d0, d1) && IsRun(mid, after, rows, d1, d2) && IsRun(map[], whole, rows, d0, d2)
    ensures !SameCounts(after, whole)
  {
    var c, d, kind, slot, name := TwoChoices(rows, d0, d2);
    var day := DayOf(slot);
    mid := RunOfChoice(map[], rows, d0, d1, c);
    after := RunOfChoice(mid, rows, d1, d2, c);
    whole := RunOfChoice(map[], rows, d0, d2, d);
    CountChosen(map[], mid, d0, d1, c, kind, day, name);
    CountChosen(mid, after, d1, d2, c, kind, day, name);
    CountChosen(map[], whole, d0, d2, d, kind, day, name);
    OneMoreChosen(c, d, kind, slot, name);
    CountsDiffer(after, whole, DayKey(kind, day, name));
  }

  ghost predicate Composes(before: StatsTable, mid: StatsTable, after: StatsTable, whole: StatsTable, rows: seq<Row>,
                           d0: int, d1: int, d2: int) {
    IsRun(before, mid, rows, d0, d1) && IsRun(mid, after, rows, d1, d2) && IsRun(before, whole, rows, d0, d2) ==>
      SameCounts(after, whole)
  }

  /** All runs over adjoining windows compose, if and only if each slot of the days has one filing. */
  lemma WindowsComposeExactly(rows: seq<Row>, d0: int, d1: int, d2: int)
    requires GoodWindow(d0, d1) && GoodWindow(d1, d2)
    ensures (forall before, mid, after, whole :: Composes(before, mid, after, whole, rows, d0, d1, d2)) <==>
              OneFiling(rows, d0, d2)
  {
    if OneFiling(rows, d0, d2) {
      forall before, mid, after, whole | IsRun(before, mid, rows, d0, d1) && IsRun(mid, after, rows, d1, d2)
        && IsRun(before, whole, rows, d0, d2)
        ensures SameCounts(after, whole)
      {
        WindowsCompose(before, mid, after, whole, rows, d0, d1, d2);
      }
    } else {
      var mid, after, whole := WindowsClash(rows, d0, d1, d2);
      assert !Composes(map[], mid, after, whole, rows, d0, d1, d2);
    }
  }

  // ---------------------------------------------------------------- one window again

  lemma RerunAtKey(before: StatsTable, once: StatsTable, twice: StatsTable, rows: seq<Row>, from: int, to: int,
                   k: StatsKey)
    requires LeavesCounts(before, once, rows, from, to) && LeavesCounts(once, twice, rows, from, to)
    ensures k in once <==> k in twice
    ensures k in once ==> once[k].blocksIncluded == twice[k].blocksIncluded
  {
    if TouchedBy(rows, from, to, k) {
      var kind, day, name :| k == DayKey(kind, day, name) && BucketOfRows(rows, from, to, kind, day, name) != {};
      CountOfKey(before, once, rows, from, to, kind, day, name);
      CountOfKey(once, twice, rows, from, to, kind, day, name);
    }
  }

  lemma CountsRepeat(before: StatsTable, once: StatsTable, twice: StatsTable, rows: seq<Row>, from: int, to: int)
    requires LeavesCounts(before, once, rows, from, to) && LeavesCounts(once, twice, rows, from, to)
    ensures SameCounts(once, twice)
  {
    forall k: StatsKey
      ensures (k in once <==> k in twice) && (k in once ==> once[k].blocksIncluded == twice[k].blocksIncluded)
    {
      RerunAtKey(before, once, twice, rows, from, to, k);
    }
  }

  /** Running a window again changes neither keys nor block counts, if slots have one filing. */
  lemma RerunIsIdempotent(before: StatsTable, once: StatsTable, twice: StatsTable, rows: seq<Row>, from: int, to: int)
    requires OneFiling(rows, from, to) && GoodWindow(from, to)
    requires IsRun(before, once, rows, from, to) && IsRun(once, twice, rows, from, to)
    ensures SameCounts(once, twice)
  {
    RunLeavesCounts(before, once, rows, from, to);
    RunLeavesCounts(once, twice, rows, from, to);
    CountsRepeat(before, once, twice, rows, from, to);
  }

  /** Otherwise some runs do. */
  lemma RerunsClash(rows: seq<Row>, from: int, to: int) returns (once: StatsTable, twice: StatsTable)
    requires !OneFiling(rows, from, to) && GoodWindow(from, to)
    ensures IsRun(map[], once, rows, from, to) && IsRun(once, twice, rows, from, to) && !SameCounts(once, twice)
  {
    var c, d, kind, slot, name := TwoChoices(rows, from, to);
    var day := DayOf(slot);
    once := RunOfChoice(map[], rows, from, to, c);
    twice := RunOfChoice(once, rows, from, to, d);
    CountChosen(map[], once, from, to, c, kind, day, name);
    CountChosen(once, twice, from, to, d, kind, day, name);
    OneMoreChosen(c, d, kind, slot, name);
    CountsDiffer(once, twice, DayKey(kind, day, name));
  }

  ghost predicate Repeats(before: StatsTable, once: StatsTable, twice: StatsTable, rows: seq<Row>, from: int,
                          to: int) {
    IsRun(before, once, rows, from, to) && IsRun(once, twice, rows, from, to) ==> SameCounts(once, twice)
  }

  /** All reruns of a window are idempotent, if and only if each slot of its days has one filing. */
  lemma RerunExactly(rows: seq<Row>, from: int, to: int)
    requires GoodWindow(from, to)
    ensures (forall before, once, twice :: Repeats(before, once, twice, rows, from, to)) <==> OneFiling(rows, from, to)
  {
    if OneFiling(rows, from, to) {
      forall before, once, twice | IsRun(before, once, rows, from, to) && IsRun(once, twice, rows, from, to)
        ensures SameCounts(once, twice)
      {
        RerunIsIdempotent(before, once, twice, rows, from, to);
      }
    } else {
      var once, twice := RerunsClash(rows, from, to);
      assert !Repeats(map[], once, twice, rows, from, to);
    }
  }

  // ---------------------------------------------------------------- a concrete input

  /** A payload that two relays delivered, checked for one of them and backfilled later for the other. */
  function HalfChecked(relay: string, extraData: string): Row {
    Row(relay, 7200000, "parent", "block", "pubkey", "proposer", 100, EMPTY_CHECKS.(extraData := extraData))
  }

  lemma UncheckedMateClashes(rows: seq<Row>) returns (once: StatsTable, twice: StatsTable)
    requires rows == [HalfChecked("a", "foobar"), HalfChecked("b", "")]
    ensures IsRun(map[], once, rows, 19597, 19598) && IsRun(once, twice, rows, 19597, 19598)
    ensures !SameCounts(once, twice)
  {
    assert DayOf(7200000) == 19597;
    FoobarIsNoAlias();
    var name := SomeName("");
    assert rows[0] in rows && rows[1] in rows;
    assert IsFiledUnder(rows[0], ByExtraData, "foobar") && IsFiledUnder(rows[1], ByExtraData, name);
    assert TwoFilings(rows, 19597, 19598, ByExtraData, rows[0], rows[1], "foobar", name);
    once, twice := RerunsClash(rows, 19597, 19598);
  }
}
