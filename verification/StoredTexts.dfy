/** Why the texts in the statistics are lines: everything that writes `extra_data` into the payload
    table writes sanitised text (`cmd/core/data-api-backfill.go`, `cmd/core/check-payload-value.go`). */
module StoredTexts {
  import opened Wrappers
  import opened Backfill
  import B = BuilderStats
  import opened Database
  import opened ExtraData
  import opened LineSets
  import opened PaymentCheck
  import opened StatsRuns
  import opened WorkerPool

  ghost predicate RowsAreLines(rows: seq<Row>) {
    forall r | r in rows :: IsLine(r.checks.extraData)
  }

  /** The check stores the sanitised extra data of a block, or none. */
  lemma CheckWritesLines(chain: Chain, e: Input)
    requires Check(chain, e).Save?
    ensures IsLine(Check(chain, e).columns.extraData)
  {
    if chain.blockByHash(e.blockHash).Some? {
      SanitisedText(chain.blockByHash(e.blockHash).value.extra);
    }
  }

  lemma {:induction false} InsertKeepsLines(rows: seq<Row>, entries: seq<Row>)
    requires RowsAreLines(rows) && RowsAreLines(entries)
    ensures RowsAreLines(InsertAll(rows, entries))
  {
    if entries != [] {
      InsertKeepsLines(rows, entries[..|entries| - 1]);
    }
  }

  lemma StepKeepsLines(relay: Relay, latest: nat, minSlot: nat, s: RunState)
    requires RowsAreLines(s.rows)
    ensures RowsAreLines(Step(relay, latest, minSlot, s).rows)
  {
    if relay.answer(s.clock, s.cursor).Some? {
      InsertKeepsLines(s.rows, Backfill.Entries(relay.name, relay.answer(s.clock, s.cursor).value));
    }
  }

  lemma {:induction false} RunKeepsLines(relay: Relay, latest: nat, minSlot: nat, t0: nat, c0: nat, rows0: seq<Row>,
                                         s: RunState)
    requires RelayContract(relay) && Backfill.Inv(relay, t0, c0, rows0, s) && RowsAreLines(s.rows)
    ensures RowsAreLines(RunToEnd(relay, latest, minSlot, t0, c0, rows0, s).rows)
    decreases if s.status == Running then 1 + Remaining(relay, t0, s) else 0
  {
    if s.status == Running {
      var s' := Step(relay, latest, minSlot, s);
      StepKeepsLines(relay, latest, minSlot, s);
      StepKeepsInv(relay, latest, minSlot, t0, c0, rows0, s);
      if s'.status == Running {
        StepProgress(relay, latest, minSlot, t0, c0, rows0, s);
        RunKeepsLines(relay, latest, minSlot, t0, c0, rows0, s');
      }
    }
  }

  /** A backfill run stores no line break. */
  lemma BackfillKeepsLines(relay: Relay, minSlot: nat, t0: nat, c0: nat, rows0: seq<Row>, saved: set<string>)
    requires RelayContract(relay) && RowsAreLines(rows0)
    ensures RowsAreLines(BackfillRun(relay, minSlot, t0, c0, rows0, saved).rows)
  {
    RunKeepsLines(relay, LatestSlot(rows0, relay.name), minSlot, t0, c0, rows0, Backfill.Start(t0, c0, rows0, saved));
  }

  lemma {:induction false} SequentialKeepsLines(chain: Chain, rows: seq<Row>, entries: seq<Row>)
    requires RowsAreLines(rows)
    ensures RowsAreLines(Sequential(chain, rows, entries))
  {
    if entries != [] {
      var before, e := Sequential(chain, rows, entries[..|entries| - 1]), entries[|entries| - 1];
      SequentialKeepsLines(chain, rows, entries[..|entries| - 1]);
      if Result(chain, e).Save? {
        CheckWritesLines(chain, InputOf(e));
      }
    }
  }

  /** Neither does the worker pool, at any point of any schedule. */
  lemma PoolKeepsLines(chain: Chain, slotMin: nat, entries: seq<Row>, threads: nat, rows0: seq<Row>,
                       schedule: seq<Action>)
    requires RowsAreLines(rows0)
    requires WorkerPool.Run(chain, slotMin, WorkerPool.Start(entries, threads, rows0), schedule).Some?
    ensures RowsAreLines(WorkerPool.Run(chain, slotMin, WorkerPool.Start(entries, threads, rows0), schedule).value.rows)
  {
    RunKeepsInv(chain, slotMin, entries, threads, rows0, schedule);
    var p := WorkerPool.Run(chain, slotMin, WorkerPool.Start(entries, threads, rows0), schedule).value;
    SequentialKeepsLines(chain, rows0, WorkerPool.Entries(p.handled));
  }

  /** So the statistics of a table written by them meet the hypothesis on their texts, if pubkeys are
      free of line breaks. */
  lemma SelectedTextsAreLines(rows: seq<Row>, first: nat, last: nat, result: seq<Row>, entries: B.SlotEntries)
    requires RowsAreLines(rows) && forall r | r in rows :: IsLine(r.builderPubkey)
    requires Selected(rows, first, last, result) && PickedFrom(result, entries)
    ensures B.NewlineFree(entries)
  {
    forall s | s in entries ensures IsLine(entries[s].checks.extraData) && IsLine(entries[s].builderPubkey) {
      assert entries[s] in result && entries[s] in rows;
    }
  }
}
