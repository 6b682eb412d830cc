/** Backfill runs that are cut off by a failing request: what can be said before the run about the
    gap they may leave (`cmd/core/data-api-backfill.go`). */
module BackfillCuts {
  import opened Wrappers
  import opened Database
  import opened Backfill
  import opened BackfillCycles

  /** The relay, failing from its `n`-th request on. */
  function CutAt(relay: Relay, n: nat): Relay {
    Relay(relay.name, relay.view, (t: nat, c: nat) => if t >= n then None else relay.answer(t, c))
  }

  lemma CutKeepsContract(relay: Relay, n: nat)
    requires RelayContract(relay)
    ensures RelayContract(CutAt(relay, n))
  {
    var cut := CutAt(relay, n);
    forall t: nat, c: nat | cut.answer(t, c).Some? ensures AnswersPage(cut.view(t), c, cut.answer(t, c).value) {
      assert relay.answer(t, c).Some?;
    }
    forall t: nat ensures Sizeable(cut.view(t)) {
      assert Sizeable(relay.view(t));
    }
    forall t: nat, u: nat | t <= u ensures GrowsTo(cut.view(t), cut.view(u)) {
      assert GrowsTo(relay.view(t), relay.view(u));
    }
  }

  /** What a run has to fetch: the payloads the relay holds above the latest slot in the database. */
  ghost function Missing(view: set<Payload>, c0: nat, latest: nat, lo: nat): set<Payload> {
    set p | p in view && InRange(p, c0) && p.slot > latest && p.slot >= lo
  }

  /** A block hash names one payload. */
  ghost predicate OnePayloadPerKey(view: set<Payload>) {
    forall p, q | p in view && q in view && p.slot == q.slot && p.parentHash == q.parentHash
      && p.blockHash == q.blockHash ::
      p == q
  }

  ghost function PageSet(page: seq<Payload>): set<Payload> {
    set p | p in page
  }

  // ---------------------------------------------------------------- the first page

  lemma {:induction false} PageSetSize(page: seq<Payload>)
    ensures |PageSet(page)| <= |page|
  {
    if page != [] {
      var front, last := page[..|page| - 1], page[|page| - 1];
      assert page == front + [last];
      PageSetSize(front);
      assert PageSet(page) == PageSet(front) + {last};
    }
  }

  /** A payload that is not on the first page comes after a full page of missing payloads. */
  lemma OffThePage(view: set<Payload>, c0: nat, latest: nat, lo: nat, page: seq<Payload>, p: Payload)
    requires AnswersPage(view, c0, page) && p in Missing(view, c0, latest, lo) && p !in page
    ensures |page| == PAGE_LIMIT && forall q | q in page :: q.slot >= p.slot && q in Missing(view, c0, latest, lo)
  {
    forall q | q in page ensures q.slot >= p.slot && q in Missing(view, c0, latest, lo) {
      var i :| 0 <= i < |page| && page[i] == q;
      assert page[i].slot >= page[PAGE_LIMIT - 1].slot >= p.slot;
    }
  }

  /** At most a page of payloads is missing exactly if none of them is off the first page. */
  lemma FitsOnThePage(view: set<Payload>, c0: nat, latest: nat, lo: nat, page: seq<Payload>)
    requires AnswersPage(view, c0, page)
    ensures |Missing(view, c0, latest, lo)| <= PAGE_LIMIT <==> forall p | p in Missing(view, c0, latest, lo) ::
            p in page
  {
    var missing := Missing(view, c0, latest, lo);
    PageSetSize(page);
    if forall p | p in missing :: p in page {
      SubsetSize(missing, PageSet(page));
    } else {
      var p :| p in missing && p !in page;
      OffThePage(view, c0, latest, lo, page, p);
      DistinctSize(page, missing - {p});
    }
  }

  // ---------------------------------------------------------------- rows only grow

  lemma StoredStays(rows: seq<Row>, more: seq<Row>, relay: string, p: Payload)
    requires rows <= more && Stored(rows, relay, p)
    ensures Stored(more, relay, p)
  {
    var k := RowKey(relay, p.slot, p.parentHash, p.blockHash);
    var i :| 0 <= i < |rows| && KeyOf(rows[i]) == k;
    assert more[i] == rows[i];
  }

  lemma StepGrows(relay: Relay, latest: nat, minSlot: nat, s: RunState)
    ensures s.rows <= Step(relay, latest, minSlot, s).rows
  {
    if relay.answer(s.clock, s.cursor).Some? {
      InsertAllKeys(s.rows, Entries(relay.name, relay.answer(s.clock, s.cursor).value));
    }
  }

  lemma {:induction false} RunGrows(relay: Relay, latest: nat, minSlot: nat, t0: nat, c0: nat, rows0: seq<Row>,
                                    s: RunState)
    requires RelayContract(relay) && Inv(relay, t0, c0, rows0, s)
    ensures s.rows <= RunToEnd(relay, latest, minSlot, t0, c0, rows0, s).rows
    decreases if s.status == Running then 1 + Remaining(relay, t0, s) else 0
  {
    if s.status == Running {
      var s' := Step(relay, latest, minSlot, s);
      StepGrows(relay, latest, minSlot, s);
      StepKeepsInv(relay, latest, minSlot, t0, c0, rows0, s);
      if s'.status == Running {
        StepProgress(relay, latest, minSlot, t0, c0, rows0, s);
        RunGrows(relay, latest, minSlot, t0, c0, rows0, s');
      }
    }
  }

  /** Whatever becomes of the run, its first page is stored. */
  lemma FirstPageIsStored(relay: Relay, minSlot: nat, t0: nat, c0: nat, rows0: seq<Row>, saved: set<string>, p: Payload)
    requires RelayContract(relay) && relay.answer(t0, c0).Some? && p in relay.answer(t0, c0).value
    ensures Stored(BackfillRun(relay, minSlot, t0, c0, rows0, saved).rows, relay.name, p)
  {
    var latest := LatestSlot(rows0, relay.name);
    var start := Start(t0, c0, rows0, saved);
    var s := Step(relay, latest, minSlot, start);
    EntryKeys(relay.name, relay.answer(t0, c0).value, rows0);
    assert Stored(s.rows, relay.name, p);
    StepKeepsInv(relay, latest, minSlot, t0, c0, rows0, start);
    var end := BackfillRun(relay, minSlot, t0, c0, rows0, saved);
    if s.status == Running {
      StepProgress(relay, latest, minSlot, t0, c0, rows0, start);
      RunGrows(relay, latest, minSlot, t0, c0, rows0, s);
    }
    StoredStays(s.rows, end.rows, relay.name, p);
  }

  // ---------------------------------------------------------------- cut off at any later request

  /** If at most one page is missing, no failure after the first answer leaves a gap. */
  lemma OnePageLeavesNoGap(relay: Relay, lo: nat, minSlot: nat, t0: nat, c0: nat, rows0: seq<Row>, saved: set<string>)
    requires RelayContract(relay) && relay.answer(t0, c0).Some?
    requires FromRelay(relay, relay.view(t0), rows0) && GapFree(relay, relay.view(t0), rows0, lo)
    requires |Missing(relay.view(t0), c0, LatestSlot(rows0, relay.name), lo)| <= PAGE_LIMIT
    ensures var end := BackfillRun(relay, minSlot, t0, c0, rows0, saved);
            GapFree(relay, relay.view(end.clock), end.rows, lo)
  {
    var latest := LatestSlot(rows0, relay.name);
    var end := RunFacts(relay, minSlot, t0, c0, rows0, saved);
    var page := relay.answer(t0, c0).value;
    FitsOnThePage(relay.view(t0), c0, latest, lo, page);
    forall p | p in relay.view(end.clock) && lo <= p.slot <= LatestSlot(end.rows, relay.name)
      ensures Stored(end.rows, relay.name, p)
    {
      BelowLatestIsOld(relay, t0, c0, rows0, end, end.clock, p);
      if p.slot <= latest {
        assert Stored(rows0, relay.name, p);
      } else {
        assert p in Missing(relay.view(t0), c0, latest, lo);
        FirstPageIsStored(relay, minSlot, t0, c0, rows0, saved, p);
      }
    }
  }

  /** With more missing, a run goes on after the first page, which stays above what it started from. */
  lemma GoesOn(relay: Relay, lo: nat, minSlot: nat, t0: nat, c0: nat, rows0: seq<Row>, saved: set<string>, p: Payload)
    requires RelayContract(relay) && relay.answer(t0, c0).Some? && minSlot <= lo
    requires p in Missing(relay.view(t0), c0, LatestSlot(rows0, relay.name), lo) && p !in relay.answer(t0, c0).value
    ensures Step(relay, LatestSlot(rows0, relay.name), minSlot, Start(t0, c0, rows0, saved)).status == Running
  {
    var latest, page := LatestSlot(rows0, relay.name), relay.answer(t0, c0).value;
    FirstCursor(relay, t0, c0, latest, lo, page, p);
    assert page[0].slot in SlotsOf(page);
  }

  lemma FirstCursor(relay: Relay, t0: nat, c0: nat, latest: nat, lo: nat, page: seq<Payload>, p: Payload)
    requires RelayContract(relay) && relay.answer(t0, c0) == Some(page)
    requires p in Missing(relay.view(t0), c0, latest, lo) && p !in page
    ensures page != [] && LowerCursor(c0, page) > latest && LowerCursor(c0, page) >= lo
  {
    OffThePage(relay.view(t0), c0, latest, lo, page, p);
    assert Sizeable(relay.view(t0));
    CursorOfPage(c0, page);
  }

  lemma CursorOfPage(c0: nat, page: seq<Payload>)
    requires page != [] && forall p | p in page :: p.slot >= 1 && InRange(p, c0)
    ensures LowerCursor(c0, page) in SlotsOf(page)
  {
    forall i | 0 <= i < |page| ensures page[i].slot >= 1 && InRange(page[i], c0) {
      assert page[i] in page;
    }
    LowerCursorIsMinimum(c0, page);
  }

  lemma NotStoredByFirstPage(relay: Relay, lo: nat, t0: nat, c0: nat, rows0: seq<Row>, p: Payload)
    requires RelayContract(relay) && relay.answer(t0, c0).Some? && OnePayloadPerKey(relay.view(t0))
    requires p in Missing(relay.view(t0), c0, LatestSlot(rows0, relay.name), lo) && p !in relay.answer(t0, c0).value
    ensures var rows := InsertAll(rows0, Entries(relay.name, relay.answer(t0, c0).value));
            !Stored(rows, relay.name, p) && p.slot <= LatestSlot(rows, relay.name)
  {
    var latest, page := LatestSlot(rows0, relay.name), relay.answer(t0, c0).value;
    var rows, k := InsertAll(rows0, Entries(relay.name, page)), RowKey(relay.name, p.slot, p.parentHash, p.blockHash);
    OffThePage(relay.view(t0), c0, latest, lo, page, p);
    EntryKeys(relay.name, page, rows0);
    if k in Keys(rows0) { LatestBoundsKeys(rows0, relay.name, k); }
    var q := page[0];
    assert q in page;
    LatestBoundsKeys(rows, relay.name, RowKey(relay.name, q.slot, q.parentHash, q.blockHash));
  }

  ghost predicate FailsAt(relay: Relay, t: nat) {
    forall c: nat :: relay.answer(t, c) == None
  }

  /** A run that would go on, but whose second request fails, ends with its first page. */
  lemma SecondRequestFails(relay: Relay, minSlot: nat, t0: nat, c0: nat, rows0: seq<Row>, saved: set<string>)
    requires RelayContract(relay) && relay.answer(t0, c0).Some? && FailsAt(relay, t0 + 1)
    requires Step(relay, LatestSlot(rows0, relay.name), minSlot, Start(t0, c0, rows0, saved)).status == Running
    ensures var end := BackfillRun(relay, minSlot, t0, c0, rows0, saved);
            && end.status == FetchError && end.clock == t0 + 2
            && end.rows == InsertAll(rows0, Entries(relay.name, relay.answer(t0, c0).value))
  {
    var latest, start := LatestSlot(rows0, relay.name), Start(t0, c0, rows0, saved);
    var s := Step(relay, latest, minSlot, start);
    AnsweredStep(relay, latest, minSlot, start);
    assert s.clock == t0 + 1;
    StartInv(relay, t0, c0, rows0, saved);
    FailsNext(relay, latest, minSlot, t0, c0, rows0, start, s, t0 + 1);
  }

  lemma FailsNext(relay: Relay, latest: nat, minSlot: nat, t0: nat, c0: nat, rows0: seq<Row>, start: RunState,
                  s: RunState, t: nat)
    requires RelayContract(relay) && Inv(relay, t0, c0, rows0, start) && start.status == Running
    requires s == Step(relay, latest, minSlot, start) && s.status == Running && s.clock == t && FailsAt(relay, t)
    ensures RunToEnd(relay, latest, minSlot, t0, c0, rows0, start) == s.(clock := s.clock + 1, status := FetchError)
  {
    FailedStep(relay, latest, minSlot, s);
    TwoStepRun(relay, latest, minSlot, t0, c0, rows0, start);
  }

  lemma StartInv(relay: Relay, t0: nat, c0: nat, rows0: seq<Row>, saved: set<string>)
    requires RelayContract(relay)
    ensures Inv(relay, t0, c0, rows0, Start(t0, c0, rows0, saved))
  {
  }

  lemma AnsweredStep(relay: Relay, latest: nat, minSlot: nat, s: RunState)
    requires relay.answer(s.clock, s.cursor).Some?
    ensures var s' := Step(relay, latest, minSlot, s);
            && s'.clock == s.clock + 1
            && s'.rows == InsertAll(s.rows, Entries(relay.name, relay.answer(s.clock, s.cursor).value))
  {
  }

  lemma FailedStep(relay: Relay, latest: nat, minSlot: nat, s: RunState)
    requires FailsAt(relay, s.clock)
    ensures Step(relay, latest, minSlot, s) == s.(clock := s.clock + 1, status := FetchError)
  {
    assert relay.answer(s.clock, s.cursor) == None;
  }

  /** A run whose second request fails ends with its first page, if it asks again or not. */
  lemma EndsWithFirstPage(relay: Relay, minSlot: nat, t0: nat, c0: nat, rows0: seq<Row>, saved: set<string>)
    requires RelayContract(relay) && relay.answer(t0, c0).Some? && FailsAt(relay, t0 + 1)
    ensures var end := BackfillRun(relay, minSlot, t0, c0, rows0, saved);
            end.clock >= t0 && end.rows == InsertAll(rows0, Entries(relay.name, relay.answer(t0, c0).value))
  {
    var latest, start := LatestSlot(rows0, relay.name), Start(t0, c0, rows0, saved);
    if Step(relay, latest, minSlot, start).status == Running {
      SecondRequestFails(relay, minSlot, t0, c0, rows0, saved);
    } else {
      StartInv(relay, t0, c0, rows0, saved);
      AnsweredStep(relay, latest, minSlot, start);
    }
  }

  /** If more than one page is missing, a failure of the second request leaves a gap; with a min slot
      not above lo the run does ask again. */
  lemma SecondFailureLeavesAGap(relay: Relay, lo: nat, minSlot: nat, t0: nat, c0: nat, rows0: seq<Row>,
                                saved: set<string>)
    requires RelayContract(relay) && relay.answer(t0, c0).Some? && FailsAt(relay, t0 + 1)
    requires OnePayloadPerKey(relay.view(t0))
    requires |Missing(relay.view(t0), c0, LatestSlot(rows0, relay.name), lo)| > PAGE_LIMIT
    ensures var end := BackfillRun(relay, minSlot, t0, c0, rows0, saved);
            !GapFree(relay, relay.view(end.clock), end.rows, lo) && (minSlot <= lo ==> end.status == FetchError)
  {
    var latest, page := LatestSlot(rows0, relay.name), relay.answer(t0, c0).value;
    FitsOnThePage(relay.view(t0), c0, latest, lo, page);
    var p :| p in Missing(relay.view(t0), c0, latest, lo) && p !in page;
    if minSlot <= lo {
      GoesOn(relay, lo, minSlot, t0, c0, rows0, saved, p);
      SecondRequestFails(relay, minSlot, t0, c0, rows0, saved);
    }
    EndsWithFirstPage(relay, minSlot, t0, c0, rows0, saved);
    NotStoredByFirstPage(relay, lo, t0, c0, rows0, p);
    assert GrowsTo(relay.view(t0), relay.view(BackfillRun(relay, minSlot, t0, c0, rows0, saved).clock));
  }

  /** Every run that gets its first answer, at whatever later request it is cut off, keeps the table
      gap-free if and only if at most one page of payloads is missing when it begins. */
  lemma CutOffExactly(relay: Relay, lo: nat, minSlot: nat, t0: nat, c0: nat, rows0: seq<Row>, saved: set<string>)
    requires RelayContract(relay) && relay.answer(t0, c0).Some? && OnePayloadPerKey(relay.view(t0))
    requires FromRelay(relay, relay.view(t0), rows0) && GapFree(relay, relay.view(t0), rows0, lo)
    ensures (forall n: nat | n > t0 :: KeepsGapFreeWhenCut(relay, n, lo, minSlot, t0, c0, rows0, saved)) <==>
              |Missing(relay.view(t0), c0, LatestSlot(rows0, relay.name), lo)| <= PAGE_LIMIT
  {
    forall n: nat ensures RelayContract(CutAt(relay, n)) { CutKeepsContract(relay, n); }
    if |Missing(relay.view(t0), c0, LatestSlot(rows0, relay.name), lo)| <= PAGE_LIMIT {
      forall n: nat | n > t0 ensures KeepsGapFreeWhenCut(relay, n, lo, minSlot, t0, c0, rows0, saved) {
        OnePageLeavesNoGap(CutAt(relay, n), lo, minSlot, t0, c0, rows0, saved);
      }
    } else {
      SecondFailureLeavesAGap(CutAt(relay, t0 + 1), lo, minSlot, t0, c0, rows0, saved);
      assert !KeepsGapFreeWhenCut(relay, t0 + 1, lo, minSlot, t0, c0, rows0, saved);
    }
  }

  ghost predicate KeepsGapFreeWhenCut(relay: Relay, n: nat, lo: nat, minSlot: nat, t0: nat, c0: nat, rows0: seq<Row>,
                                      saved: set<string>)
    requires RelayContract(relay)
  {
    CutKeepsContract(relay, n);
    var cut := CutAt(relay, n);
    var end := BackfillRun(cut, minSlot, t0, c0, rows0, saved);
    GapFree(cut, cut.view(end.clock), end.rows, lo)
  }
}
