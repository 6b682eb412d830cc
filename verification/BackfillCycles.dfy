/** Repeated backfill runs over several relays sharing one table
    (`RunBackfill` and the cycles of `cmd/service/backfill_runner.go`). */
module BackfillCycles {
  import opened Wrappers
  import opened Database
  import opened Backfill

  // ---------------------------------------------------------------- one relay, one run

  /** No payload the relay holds between `lo` and the latest stored slot is missing. */
  ghost predicate GapFree(relay: Relay, view: set<Payload>, rows: seq<Row>, lo: nat) {
    forall p | p in view && lo <= p.slot <= LatestSlot(rows, relay.name) :: Stored(rows, relay.name, p)
  }

  /** Everything stored for the relay came from it. */
  ghost predicate FromRelay(relay: Relay, view: set<Payload>, rows: seq<Row>) {
    forall k | k in Keys(rows) && k.relay == relay.name :: FromView(relay.name, view, 0, k)
  }

  lemma LatestBoundsKeys(rows: seq<Row>, relay: string, k: RowKey)
    requires k in Keys(rows) && k.relay == relay
    ensures k.slot <= LatestSlot(rows, relay)
  {
    var r :| r in rows && KeyOf(r) == k;
  }

  lemma LatestIsAKey(rows: seq<Row>, relay: string) returns (k: RowKey)
    requires LatestSlot(rows, relay) > 0
    ensures k in Keys(rows) && k.relay == relay && k.slot == LatestSlot(rows, relay)
  {
    var r :| r in rows && r.relay == relay && r.slot == LatestSlot(rows, relay);
    k := KeyOf(r);
  }

  /** The facts about a finished run that the rest of this module needs. */
  lemma RunFacts(relay: Relay, minSlot: nat, t0: nat, c0: nat, rows0: seq<Row>, saved: set<string>)
    returns (end: RunState)
    requires RelayContract(relay)
    ensures end == BackfillRun(relay, minSlot, t0, c0, rows0, saved)
    ensures end.status != Running && Inv(relay, t0, c0, rows0, end)
    ensures Stopped(end) ==> Complete(relay, LatestSlot(rows0, relay.name), minSlot, t0, c0, end.rows)
    ensures Keys(rows0) <= Keys(end.rows)
    ensures forall k | k in Keys(end.rows) && k !in Keys(rows0) ::
            FromView(relay.name, relay.view(t0), c0, k) && k.slot >= end.cursor
  {
    RunToEndResult(relay, LatestSlot(rows0, relay.name), minSlot, t0, c0, rows0, Start(t0, c0, rows0, saved));
    end := BackfillRun(relay, minSlot, t0, c0, rows0, saved);
    assert KeyOrigins(relay, t0, c0, rows0, end);
    forall k | k in Keys(rows0) ensures k in Keys(end.rows) {
      var i :| 0 <= i < |rows0| && KeyOf(rows0[i]) == k;
      assert end.rows[i] == rows0[i];
    }
  }

  /** Growing never disturbs what is below the latest stored slot: that slot is one the relay
      held when the run began. */
  lemma BelowLatestIsOld(relay: Relay, t0: nat, c0: nat, rows0: seq<Row>, end: RunState, u: nat, p: Payload)
    requires RelayContract(relay) && u >= t0
    requires FromRelay(relay, relay.view(t0), rows0)
    requires forall k | k in Keys(end.rows) && k !in Keys(rows0) :: FromView(relay.name, relay.view(t0), c0, k)
    requires p in relay.view(u) && p.slot <= LatestSlot(end.rows, relay.name)
    ensures p in relay.view(t0)
    ensures p.slot <= LatestSlot(rows0, relay.name) || InRange(p, c0)
  {
    assert Sizeable(relay.view(u)) && GrowsTo(relay.view(t0), relay.view(u));
    var k := LatestIsAKey(end.rows, relay.name);
    if k in Keys(rows0) {
      assert FromView(relay.name, relay.view(t0), 0, k);
      LatestBoundsKeys(rows0, relay.name, k);
    } else {
      assert FromView(relay.name, relay.view(t0), c0, k);
    }
  }

  /** A run cannot harm if it returned through a stop condition with a minimum slot that
      hides nothing, or failed before it stored anything above the latest stored slot. */
  ghost predicate Clean(relay: Relay, latest: nat, minSlot: nat, lo: nat, end: RunState) {
    || (Stopped(end) && (minSlot <= lo || minSlot <= latest))
    || (end.status == FetchError && (end.received == {} || end.cursor <= latest))
  }

  lemma RunKeepsGapFree(relay: Relay, lo: nat, minSlot: nat, t0: nat, c0: nat, rows0: seq<Row>, saved: set<string>)
    requires RelayContract(relay)
    requires FromRelay(relay, relay.view(t0), rows0) && GapFree(relay, relay.view(t0), rows0, lo)
    ensures var end := BackfillRun(relay, minSlot, t0, c0, rows0, saved);
            && end.clock >= t0
            && FromRelay(relay, relay.view(end.clock), end.rows)
            && (Clean(relay, LatestSlot(rows0, relay.name), minSlot, lo, end) ==>
                  GapFree(relay, relay.view(end.clock), end.rows, lo))
  {
    var end := RunFacts(relay, minSlot, t0, c0, rows0, saved);
    var latest := LatestSlot(rows0, relay.name);
    assert GrowsTo(relay.view(t0), relay.view(end.clock));
    forall k | k in Keys(end.rows) && k.relay == relay.name
      ensures FromView(relay.name, relay.view(end.clock), 0, k)
    {
      if k in Keys(rows0) { assert FromView(relay.name, relay.view(t0), 0, k); }
    }
    if Clean(relay, latest, minSlot, lo, end) {
      forall p | p in relay.view(end.clock) && lo <= p.slot <= LatestSlot(end.rows, relay.name)
        ensures Stored(end.rows, relay.name, p)
      {
        BelowLatestIsOld(relay, t0, c0, rows0, end, end.clock, p);
        if p.slot <= latest {
          assert Stored(rows0, relay.name, p);
        }
      }
    }
  }

  /** Above the latest slot a run started from, up to its cursor, the relay has nothing but payloads
      at the cursor, and they are stored. */
  ghost predicate NothingBetween(relay: Relay, view: set<Payload>, lo: nat, latest: nat, end: RunState) {
    forall p | p in view && p.slot >= lo && latest < p.slot <= end.cursor ::
      p.slot == end.cursor && Stored(end.rows, relay.name, p)
  }

  /** New rows are of the relay's first view and not below the cursor. */
  ghost predicate NewRowsAbove(relay: Relay, t0: nat, c0: nat, rows0: seq<Row>, end: RunState) {
    forall k | k in Keys(end.rows) && k !in Keys(rows0) ::
      FromView(relay.name, relay.view(t0), c0, k) && k.slot >= end.cursor
  }

  lemma GapFreeMeansNothingBetween(relay: Relay, lo: nat, t0: nat, c0: nat, rows0: seq<Row>, end: RunState, u: nat)
    requires NewRowsAbove(relay, t0, c0, rows0, end)
    requires StoredSlot(relay.name, relay.view(t0), c0, end.rows, end.cursor)
    requires relay.view(t0) <= relay.view(u) && GapFree(relay, relay.view(u), end.rows, lo)
    ensures NothingBetween(relay, relay.view(t0), lo, LatestSlot(rows0, relay.name), end)
  {
    var q :| q in relay.view(t0) && q.slot == end.cursor && Stored(end.rows, relay.name, q);
    LatestBoundsKeys(end.rows, relay.name, RowKey(relay.name, q.slot, q.parentHash, q.blockHash));
    forall p | p in relay.view(t0) && p.slot >= lo && LatestSlot(rows0, relay.name) < p.slot <= end.cursor
      ensures p.slot == end.cursor && Stored(end.rows, relay.name, p)
    {
      var k := RowKey(relay.name, p.slot, p.parentHash, p.blockHash);
      assert k in Keys(end.rows);
      if k in Keys(rows0) { LatestBoundsKeys(rows0, relay.name, k); }
    }
  }

  lemma NothingBetweenMeansGapFree(relay: Relay, lo: nat, t0: nat, c0: nat, rows0: seq<Row>, end: RunState, u: nat)
    requires RelayContract(relay) && u >= t0 && FromRelay(relay, relay.view(t0), rows0)
    requires NewRowsAbove(relay, t0, c0, rows0, end) && CoveredAbove(relay, t0, c0, end) && end.received != {}
    requires Keys(rows0) <= Keys(end.rows) && GapFree(relay, relay.view(t0), rows0, lo)
    requires NothingBetween(relay, relay.view(t0), lo, LatestSlot(rows0, relay.name), end)
    ensures GapFree(relay, relay.view(u), end.rows, lo)
  {
    forall p | p in relay.view(u) && lo <= p.slot <= LatestSlot(end.rows, relay.name)
      ensures Stored(end.rows, relay.name, p)
    {
      BelowLatestIsOld(relay, t0, c0, rows0, end, u, p);
      if p.slot <= LatestSlot(rows0, relay.name) {
        assert Stored(rows0, relay.name, p);
      }
    }
  }

  /** A request that fails after pages were stored, with the cursor still above the latest
      slot the run started from: the table is left without a gap exactly when the relay has
      nothing strictly between the two and nothing missing at the cursor. */
  lemma FetchErrorGap(relay: Relay, lo: nat, minSlot: nat, t0: nat, c0: nat, rows0: seq<Row>, saved: set<string>)
    requires RelayContract(relay)
    requires FromRelay(relay, relay.view(t0), rows0) && GapFree(relay, relay.view(t0), rows0, lo)
    requires var end := BackfillRun(relay, minSlot, t0, c0, rows0, saved);
             end.status == FetchError && end.received != {} && LatestSlot(rows0, relay.name) < end.cursor
    ensures var end := BackfillRun(relay, minSlot, t0, c0, rows0, saved);
            GapFree(relay, relay.view(end.clock), end.rows, lo) <==>
              NothingBetween(relay, relay.view(t0), lo, LatestSlot(rows0, relay.name), end)
  {
    var end := RunFacts(relay, minSlot, t0, c0, rows0, saved);
    assert NewRowsAbove(relay, t0, c0, rows0, end);
    assert GrowsTo(relay.view(t0), relay.view(end.clock));
    if GapFree(relay, relay.view(end.clock), end.rows, lo) {
      assert StoredSlot(relay.name, relay.view(t0), c0, end.rows, end.cursor);
      GapFreeMeansNothingBetween(relay, lo, t0, c0, rows0, end, end.clock);
    }
    if NothingBetween(relay, relay.view(t0), lo, LatestSlot(rows0, relay.name), end) {
      NothingBetweenMeansGapFree(relay, lo, t0, c0, rows0, end, end.clock);
    }
  }

  // ---------------------------------------------------------------- all relays, any number of runs

  /** `clocks[i]` counts the requests relay `i` has seen. */
  datatype World = World(rows: seq<Row>, savedBuilders: set<string>, clocks: seq<nat>)

  datatype Run = Run(relay: nat, cursor: nat, minSlot: nat)

  ghost predicate GoodRelays(relays: seq<Relay>) {
    && (forall i | 0 <= i < |relays| :: RelayContract(relays[i]))
    && (forall i, j | 0 <= i < j < |relays| :: relays[i].name != relays[j].name)
  }

  ghost function RunOn(relays: seq<Relay>, w: World, run: Run): RunState
    requires GoodRelays(relays) && run.relay < |relays| == |w.clocks|
  {
    BackfillRun(relays[run.relay], run.minSlot, w.clocks[run.relay], run.cursor, w.rows, w.savedBuilders)
  }

  ghost function After(relays: seq<Relay>, w: World, run: Run): World
    requires GoodRelays(relays) && run.relay < |relays| == |w.clocks|
  {
    var end := RunOn(relays, w, run);
    World(end.rows, end.savedBuilders, w.clocks[run.relay := end.clock])
  }

  ghost predicate ValidRuns(relays: seq<Relay>, runs: seq<Run>) {
    forall n | 0 <= n < |runs| :: runs[n].relay < |relays|
  }

  ghost function AfterAll(relays: seq<Relay>, w: World, runs: seq<Run>): (w': World)
    requires GoodRelays(relays) && ValidRuns(relays, runs) && |relays| == |w.clocks|
    ensures |w'.clocks| == |relays|
  {
    if runs == [] then w else After(relays, AfterAll(relays, w, runs[..|runs| - 1]), runs[|runs| - 1])
  }

  /** Every run of relay `i` in the sequence is clean, judged where it happens. Nothing is
      asked of the runs of the other relays. */
  ghost predicate CleanFor(relays: seq<Relay>, w: World, runs: seq<Run>, i: nat, lo: nat)
    requires GoodRelays(relays) && ValidRuns(relays, runs) && |relays| == |w.clocks| && i < |relays|
  {
    forall n | 0 <= n < |runs| && runs[n].relay == i ::
      var before := AfterAll(relays, w, runs[..n]);
      Clean(relays[i], LatestSlot(before.rows, relays[i].name), runs[n].minSlot, lo, RunOn(relays, before, runs[n]))
  }

  ghost predicate RelayOk(relay: Relay, clock: nat, rows: seq<Row>, lo: nat) {
    FromRelay(relay, relay.view(clock), rows) && GapFree(relay, relay.view(clock), rows, lo)
  }

  lemma SameKeysSameLatest(rows: seq<Row>, rows': seq<Row>, relay: string)
    requires forall k: RowKey | k.relay == relay :: k in Keys(rows) <==> k in Keys(rows')
    ensures LatestSlot(rows, relay) == LatestSlot(rows', relay)
  {
    if LatestSlot(rows, relay) > 0 {
      var k := LatestIsAKey(rows, relay);
      LatestBoundsKeys(rows', relay, k);
    }
    if LatestSlot(rows', relay) > 0 {
      var k := LatestIsAKey(rows', relay);
      LatestBoundsKeys(rows, relay, k);
    }
  }

  /** A run leaves what is known about every other relay alone. */
  lemma OtherRelaysKept(relays: seq<Relay>, w: World, run: Run, i: nat, lo: nat)
    requires GoodRelays(relays) && run.relay < |relays| == |w.clocks| && i < |relays| && i != run.relay
    requires RelayOk(relays[i], w.clocks[i], w.rows, lo)
    ensures RelayOk(relays[i], w.clocks[i], After(relays, w, run).rows, lo)
  {
    var relay := relays[run.relay];
    assert relay.name != relays[i].name;
    var end := RunFacts(relay, run.minSlot, w.clocks[run.relay], run.cursor, w.rows, w.savedBuilders);
    forall k: RowKey | k.relay == relays[i].name ensures k in Keys(w.rows) <==> k in Keys(end.rows) {}
    SameKeysSameLatest(w.rows, end.rows, relays[i].name);
  }

  /** One cycle: a run for every relay in turn. */
  function Cycle(count: nat, initCursor: nat, minSlot: nat): seq<Run> {
    seq(count, i requires 0 <= i < count => Run(i, initCursor, minSlot))
  }

  lemma CyclePrefix(count: nat, initCursor: nat, minSlot: nat)
    requires count > 0
    ensures Cycle(count, initCursor, minSlot)[..count - 1] == Cycle(count - 1, initCursor, minSlot)
  {
  }

  /** No request of the relay from one to the other fails. */
  ghost predicate NoneFails(relay: Relay, from: nat, to: nat) {
    forall t: nat, c: nat | from <= t < to :: relay.answer(t, c).Some?
  }

  lemma {:induction false} FailedRunFailed(relay: Relay, latest: nat, minSlot: nat, t0: nat, c0: nat, rows0: seq<Row>,
                                           s: RunState)
    requires RelayContract(relay) && Inv(relay, t0, c0, rows0, s) && s.status == Running
    requires NoneFails(relay, s.clock, RunToEnd(relay, latest, minSlot, t0, c0, rows0, s).clock)
    ensures Stopped(RunToEnd(relay, latest, minSlot, t0, c0, rows0, s))
    decreases Remaining(relay, t0, s)
  {
    RunToEndResult(relay, latest, minSlot, t0, c0, rows0, s);
    var s' := Step(relay, latest, minSlot, s);
    StepKeepsInv(relay, latest, minSlot, t0, c0, rows0, s);
    assert relay.answer(s.clock, s.cursor).Some?;
    if s'.status == Running {
      StepProgress(relay, latest, minSlot, t0, c0, rows0, s);
      FailedRunFailed(relay, latest, minSlot, t0, c0, rows0, s');
    }
  }

  /** What a cycle does for one relay: it is asked at least once, and unless one of its requests fails
      everything it held at the first of them, within cursor and bounds, is in the table. */
  ghost predicate Backfilled(relay: Relay, rows0: seq<Row>, clock0: nat, initCursor: nat, minSlot: nat, rows: seq<Row>,
                             clock: nat) {
    && clock > clock0
    && (NoneFails(relay, clock0, clock) ==>
          Complete(relay, LatestSlot(rows0, relay.name), minSlot, clock0, initCursor, rows))
  }

  lemma RunBackfills(relay: Relay, rows0: seq<Row>, clock0: nat, initCursor: nat, minSlot: nat, saved: set<string>)
    requires RelayContract(relay)
    ensures var end := BackfillRun(relay, minSlot, clock0, initCursor, rows0, saved);
            Backfilled(relay, rows0, clock0, initCursor, minSlot, end.rows, end.clock)
  {
    var latest, start := LatestSlot(rows0, relay.name), Start(clock0, initCursor, rows0, saved);
    var end := BackfillRun(relay, minSlot, clock0, initCursor, rows0, saved);
    RunToEndResult(relay, latest, minSlot, clock0, initCursor, rows0, start);
    if NoneFails(relay, clock0, end.clock) {
      FailedRunFailed(relay, latest, minSlot, clock0, initCursor, rows0, start);
    }
  }

  /** A run of another relay neither asks this one nor takes anything from it. */
  lemma OthersLeaveAlone(relays: seq<Relay>, w: World, run: Run, i: nat)
    requires GoodRelays(relays) && run.relay < |relays| == |w.clocks| && i < |relays| && i != run.relay
    ensures After(relays, w, run).clocks[i] == w.clocks[i]
    ensures Keys(w.rows) <= Keys(After(relays, w, run).rows)
    ensures LatestSlot(After(relays, w, run).rows, relays[i].name) == LatestSlot(w.rows, relays[i].name)
  {
    var relay := relays[run.relay];
    assert relay.name != relays[i].name;
    var end := RunFacts(relay, run.minSlot, w.clocks[run.relay], run.cursor, w.rows, w.savedBuilders);
    forall k: RowKey | k.relay == relays[i].name ensures k in Keys(w.rows) <==> k in Keys(end.rows) {}
    SameKeysSameLatest(w.rows, end.rows, relays[i].name);
  }

  /** Where relay `i` stands when the first `n` relays have had their run. */
  ghost predicate HadItsTurn(relays: seq<Relay>, w: World, i: nat, n: nat, initCursor: nat, minSlot: nat, w': World)
    requires i < |relays| == |w.clocks| == |w'.clocks|
  {
    if i < n then Backfilled(relays[i], w.rows, w.clocks[i], initCursor, minSlot, w'.rows, w'.clocks[i])
    else
      && w'.clocks[i] == w.clocks[i]
      && LatestSlot(w'.rows, relays[i].name) == LatestSlot(w.rows, relays[i].name)
  }

  lemma TurnStep(relays: seq<Relay>, w: World, w': World, i: nat, n: nat, initCursor: nat, minSlot: nat)
    requires GoodRelays(relays) && |relays| == |w.clocks| == |w'.clocks| && i < |relays| && n < |relays|
    requires HadItsTurn(relays, w, i, n, initCursor, minSlot, w')
    ensures HadItsTurn(relays, w, i, n + 1, initCursor, minSlot, After(relays, w', Run(n, initCursor, minSlot)))
  {
    var run := Run(n, initCursor, minSlot);
    var w'' := After(relays, w', run);
    if i == n {
      RunBackfills(relays[i], w'.rows, w'.clocks[i], initCursor, minSlot, w'.savedBuilders);
    } else {
      OthersLeaveAlone(relays, w', run, i);
      if i < n && NoneFails(relays[i], w.clocks[i], w''.clocks[i]) {
        assert Complete(relays[i], LatestSlot(w.rows, relays[i].name), minSlot, w.clocks[i], initCursor, w'.rows);
      }
    }
  }

  /** A cycle gives every relay its run. */
  lemma {:induction false} CycleReachesAll(relays: seq<Relay>, w: World, n: nat, initCursor: nat, minSlot: nat, i: nat)
    requires GoodRelays(relays) && n <= |relays| == |w.clocks| && i < |relays|
    ensures HadItsTurn(relays, w, i, n, initCursor, minSlot, AfterAll(relays, w, Cycle(n, initCursor, minSlot)))
  {
    if n > 0 {
      CycleReachesAll(relays, w, n - 1, initCursor, minSlot, i);
      CyclePrefix(n, initCursor, minSlot);
      TurnStep(relays, w, AfterAll(relays, w, Cycle(n - 1, initCursor, minSlot)), i, n - 1, initCursor, minSlot);
    }
  }

  /** Every relay is backfilled, and a relay's failure does not keep the others from being so. */
  method RunBackfill(db: PayloadStore, relays: seq<Relay>, clocks0: seq<nat>, initCursor: nat, minSlot: nat)
    returns (clocks: seq<nat>)
    requires GoodRelays(relays) && |relays| == |clocks0|
    modifies db
    ensures |clocks| == |relays| && forall i | 0 <= i < |relays| ::
              Backfilled(relays[i], old(db.rows), clocks0[i], initCursor, minSlot, db.rows, clocks[i])
    ensures var w := World(old(db.rows), old(db.blockBuilders), clocks0);
            World(db.rows, db.blockBuilders, clocks) == AfterAll(relays, w, Cycle(|relays|, initCursor, minSlot))
  {
    clocks := clocks0;
    ghost var w := World(db.rows, db.blockBuilders, clocks0);
    for i := 0 to |relays|
      invariant |clocks| == |relays|
      invariant World(db.rows, db.blockBuilders, clocks) == AfterAll(relays, w, Cycle(i, initCursor, minSlot))
    {
      var backfiller := new Backfiller(relays[i], db, initCursor, minSlot, clocks[i]);
      var ok := backfiller.BackfillPayloadsDelivered();
      clocks := clocks[i := backfiller.clock];
      CyclePrefix(i + 1, initCursor, minSlot);
    }
    forall i | 0 <= i < |relays|
      ensures Backfilled(relays[i], w.rows, clocks0[i], initCursor, minSlot, db.rows, clocks[i])
    {
      CycleReachesAll(relays, w, |relays|, initCursor, minSlot, i);
    }
  }

  /** Gap-freedom over cycles: it is kept by every sequence of runs, of all relays in any
      order, in which the runs of this relay are clean. */
  lemma {:induction false} CyclesKeepGapFree(relays: seq<Relay>, w: World, runs: seq<Run>, i: nat, lo: nat)
    requires GoodRelays(relays) && ValidRuns(relays, runs) && |relays| == |w.clocks| && i < |relays|
    requires RelayOk(relays[i], w.clocks[i], w.rows, lo)
    requires CleanFor(relays, w, runs, i, lo)
    ensures var w' := AfterAll(relays, w, runs); RelayOk(relays[i], w'.clocks[i], w'.rows, lo)
  {
    if runs != [] {
      var n := |runs| - 1;
      var front, run := runs[..n], runs[n];
      assert CleanFor(relays, w, front, i, lo) by {
        forall m | 0 <= m < n ensures front[..m] == runs[..m] {}
      }
      CyclesKeepGapFree(relays, w, front, i, lo);
      var before := AfterAll(relays, w, front);
      if run.relay == i {
        RunKeepsGapFree(relays[i], lo, run.minSlot, before.clocks[i], run.cursor, before.rows, before.savedBuilders);
      } else {
        OtherRelaysKept(relays, before, run, i, lo);
      }
    }
  }

  /** The runner: from an empty table, cycles with one fixed minimum slot leave every payload
      between it and the latest stored slot in the table, if no run of the relay is cut off
      by a failed request. */
  lemma RunnerIsGapFree(relays: seq<Relay>, clocks: seq<nat>, runs: seq<Run>, i: nat, minSlot: nat)
    requires GoodRelays(relays) && ValidRuns(relays, runs) && |relays| == |clocks| && i < |relays|
    requires forall n | 0 <= n < |runs| && runs[n].relay == i ::
               runs[n].minSlot == minSlot
               && Stopped(RunOn(relays, AfterAll(relays, World([], {}, clocks), runs[..n]), runs[n]))
    ensures var w := AfterAll(relays, World([], {}, clocks), runs);
            forall p | p in relays[i].view(w.clocks[i]) && minSlot <= p.slot <= LatestSlot(w.rows, relays[i].name) ::
              Stored(w.rows, relays[i].name, p)
  {
    var w := World([], {}, clocks);
    assert Sizeable(relays[i].view(clocks[i])) by { assert RelayContract(relays[i]); }
    assert RelayOk(relays[i], clocks[i], [], minSlot);
    CyclesKeepGapFree(relays, w, runs, i, minSlot);
    var w' := AfterAll(relays, w, runs);
    assert GapFree(relays[i], relays[i].view(w'.clocks[i]), w'.rows, minSlot);
  }

  // ---------------------------------------------------------------- a gap that stays

  function SlotPayload(slot: nat): Payload {
    Payload(slot, "parent", "block", "builder", "recipient", 0, 0)
  }

  ghost function AllSlots(): set<Payload> {
    set slot | 1 <= slot <= 150 :: SlotPayload(slot)
  }

  function Top(cursor: nat): nat {
    if cursor == 0 || cursor > 150 then 150 else cursor
  }

  function Page(cursor: nat): seq<Payload> {
    var top := Top(cursor);
    seq(if top < PAGE_LIMIT then top else PAGE_LIMIT, i requires 0 <= i < top => SlotPayload(top - i))
  }

  /** One payload in each of the slots 1 to 150, and a failure of the second request. */
  ghost function FlakyRelay(): Relay {
    Relay("relay", t => AllSlots(), (t: nat, cursor: nat) => if t == 1 then None else Some(Page(cursor)))
  }

  lemma FlakyRelayIsARelay()
    ensures RelayContract(FlakyRelay())
  {
    forall slot: nat ensures |AtSlot(AllSlots(), slot)| < PAGE_LIMIT {
      var here := AtSlot(AllSlots(), slot);
      assert here <= {SlotPayload(slot)};
      SubsetSize(here, {SlotPayload(slot)});
    }
    forall cursor: nat ensures AnswersPage(AllSlots(), cursor, Page(cursor)) {
      var page := Page(cursor);
      forall p | p in AllSlots() && InRange(p, cursor) && p !in page
        ensures |page| == PAGE_LIMIT && p.slot <= page[PAGE_LIMIT - 1].slot
      {
        var i := Top(cursor) - p.slot;
        assert i < |page| ==> page[i] == p;
      }
    }
  }

  /** The keys of the first page, slots 51 to 150. */
  ghost predicate HoldsFirstPage(rows: seq<Row>) {
    forall k :: k in Keys(rows) <==> exists slot | 51 <= slot <= 150 :: k == RowKey("relay", slot, "parent", "block")
  }

  lemma FirstPageLatest(rows: seq<Row>)
    requires HoldsFirstPage(rows)
    ensures LatestSlot(rows, "relay") == 150
  {
    LatestBoundsKeys(rows, "relay", RowKey("relay", 150, "parent", "block"));
    var k := LatestIsAKey(rows, "relay");
  }

  lemma FirstPageFacts()
    ensures forall p :: p in Page(0) <==> exists slot | 51 <= slot <= 150 :: p == SlotPayload(slot)
    ensures LowerCursor(0, Page(0)) == 51
    ensures 150 in SlotsOf(Page(0))
  {
    var page := Page(0);
    assert |page| == 100 && forall i | 0 <= i < 100 :: page[i] == SlotPayload(150 - i);
    forall slot | 51 <= slot <= 150 ensures SlotPayload(slot) in page {
      assert page[150 - slot] == SlotPayload(slot);
    }
    LowerCursorIsMinimum(0, page);
    assert SlotPayload(51) in page && SlotPayload(150) in page;
  }

  lemma SavingFirstPage(rows: seq<Row>)
    requires rows == [] || HoldsFirstPage(rows)
    ensures HoldsFirstPage(InsertAll(rows, Entries("relay", Page(0))))
  {
    FirstPageFacts();
    EntryKeys("relay", Page(0), rows);
    var keys := Keys(InsertAll(rows, Entries("relay", Page(0))));
    forall slot: nat | 51 <= slot <= 150 ensures RowKey("relay", slot, "parent", "block") in keys {
      assert SlotPayload(slot) in Page(0);
    }
  }

  /** One iteration from cursor 0. */
  lemma FirstStep(latest: nat, s: RunState)
    requires s.clock != 1 && s.cursor == 0 && s.received == {}
    ensures var s' := Step(FlakyRelay(), latest, 0, s);
            && s'.cursor == 51 && s'.clock == s.clock + 1
            && s'.rows == InsertAll(s.rows, Entries("relay", Page(0)))
            && s'.status == (if 51 < latest then ReachedLatest else Running)
  {
    FirstPageFacts();
  }

  lemma TwoStepRun(relay: Relay, latest: nat, minSlot: nat, t0: nat, c0: nat, rows0: seq<Row>, s: RunState)
    requires RelayContract(relay) && Inv(relay, t0, c0, rows0, s) && s.status == Running
    requires Step(relay, latest, minSlot, s).status == Running
    requires Step(relay, latest, minSlot, Step(relay, latest, minSlot, s)).status != Running
    ensures RunToEnd(relay, latest, minSlot, t0, c0, rows0, s) ==
              Step(relay, latest, minSlot, Step(relay, latest, minSlot, s))
  {
    StepKeepsInv(relay, latest, minSlot, t0, c0, rows0, s);
  }

  lemma FirstRun()
    requires RelayContract(FlakyRelay())
    ensures var end := BackfillRun(FlakyRelay(), 0, 0, 0, [], {});
            end.status == FetchError && end.clock == 2 && HoldsFirstPage(end.rows)
  {
    var relay := FlakyRelay();
    var s0 := Start(0, 0, [], {});
    FirstStep(0, s0);
    SavingFirstPage([]);
    assert LatestSlot([], "relay") == 0;
    TwoStepRun(relay, 0, 0, 0, 0, [], s0);
  }

  lemma SecondRun(rows: seq<Row>, saved: set<string>)
    requires RelayContract(FlakyRelay()) && HoldsFirstPage(rows)
    ensures var end := BackfillRun(FlakyRelay(), 0, 2, 0, rows, saved);
            end.status == ReachedLatest && HoldsFirstPage(end.rows)
  {
    FirstPageLatest(rows);
    FirstStep(150, Start(2, 0, rows, saved));
    SavingFirstPage(rows);
  }

  /** The first run stores the slots 51 to 150 and fails; the second one returns through a
      stop condition, and slot 1 is still missing although slot 150 is stored. */
  lemma FetchErrorLeavesAGap()
    ensures GoodRelays([FlakyRelay()])
    ensures var relays, w, run := [FlakyRelay()], World([], {}, [0]), Run(0, 0, 0);
            && RunOn(relays, w, run).status == FetchError
            && RunOn(relays, After(relays, w, run), run).status == ReachedLatest
            && !GapFree(relays[0], AllSlots(), After(relays, After(relays, w, run), run).rows, 0)
  {
    FlakyRelayIsARelay();
    FirstRun();
    var relays, w, run := [FlakyRelay()], World([], {}, [0]), Run(0, 0, 0);
    var w1 := After(relays, w, run);
    assert w1.clocks[0] == 2 && HoldsFirstPage(w1.rows);
    SecondRun(w1.rows, w1.savedBuilders);
    FirstPageMisses(After(relays, w1, run).rows);
  }

  lemma FirstPageMisses(rows: seq<Row>)
    requires HoldsFirstPage(rows)
    ensures !GapFree(FlakyRelay(), AllSlots(), rows, 0)
  {
    FirstPageLatest(rows);
    assert SlotPayload(1) in AllSlots() && !Stored(rows, "relay", SlotPayload(1));
  }
}
