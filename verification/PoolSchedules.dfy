/** Which schedules of the worker pool exist, and so exactly when the schedule does not matter
    (`cmd/core/check-payload-value.go`). */
module PoolSchedules {
  import opened Wrappers
  import opened Database
  import opened PaymentCheck
  import opened Sequences
  import opened WorkerPool

  /** All complete schedules leave the same table. */
  ghost predicate OneOutcome(chain: Chain, slotMin: nat, entries: seq<Row>, threads: nat, rows0: seq<Row>) {
    forall s, t
      | Completes(chain, slotMin, entries, threads, rows0, s)
        && Completes(chain, slotMin, entries, threads, rows0, t) ::
      RowsAfter(chain, slotMin, entries, threads, rows0, s) == RowsAfter(chain, slotMin, entries, threads, rows0, t)
  }

  // ---------------------------------------------------------------- one worker

  /** With one worker the entries are finished in the order in which they were selected. */
  ghost predicate InOrder(slotMin: nat, entries: seq<Row>, p: Pool) {
    && |p.workers| == 1
    && Entries(p.handled) + (if p.workers[0].Busy? then [p.workers[0].entry] else []) + WantedOf(slotMin, p.todo)
         == WantedOf(slotMin, entries)
  }

  lemma NextKeepsOrder(chain: Chain, slotMin: nat, entries: seq<Row>, p: Pool, a: Action)
    requires InOrder(slotMin, entries, p) && Enabled(slotMin, p, a)
    ensures InOrder(slotMin, entries, Next(chain, slotMin, p, a))
  {
    var p' := Next(chain, slotMin, p, a);
    match a
    case Skip =>
    case Hand(w) =>
      assert WantedOf(slotMin, p.todo) == [p.todo[0]] + WantedOf(slotMin, p'.todo);
    case Finish(w) =>
      if !p'.crashed { FinishAppends(p, w); }
    case Close =>
    case Exit(w) =>
  }

  lemma {:induction false} RunKeepsOrder(chain: Chain, slotMin: nat, entries: seq<Row>, rows0: seq<Row>,
                                         schedule: seq<Action>)
    requires Run(chain, slotMin, Start(entries, 1, rows0), schedule).Some?
    ensures InOrder(slotMin, entries, Run(chain, slotMin, Start(entries, 1, rows0), schedule).value)
  {
    if schedule == [] {
      assert [] + WantedOf(slotMin, entries) == WantedOf(slotMin, entries);
    } else {
      var front := schedule[..|schedule| - 1];
      RunKeepsOrder(chain, slotMin, entries, rows0, front);
      NextKeepsOrder(chain, slotMin, entries, Run(chain, slotMin, Start(entries, 1, rows0), front).value,
                     schedule[|schedule| - 1]);
    }
  }

  /** One worker, which a check of a single slot always gets: every complete schedule leaves the table
      of the sequential pass in the order of selection, whatever the slot-mates say. */
  lemma OneWorkerIsSequential(chain: Chain, slotMin: nat, entries: seq<Row>, rows0: seq<Row>, schedule: seq<Action>)
    requires Completes(chain, slotMin, entries, 1, rows0, schedule)
    ensures RowsAfter(chain, slotMin, entries, 1, rows0, schedule)
            == Sequential(chain, rows0, WantedOf(slotMin, entries))
  {
    RunKeepsOrder(chain, slotMin, entries, rows0, schedule);
    HandledWanted(chain, slotMin, entries, 1, rows0, schedule);
    var end := Run(chain, slotMin, Start(entries, 1, rows0), schedule).value;
    assert Entries(end.handled) + [] + [] == Entries(end.handled);
  }

  // ---------------------------------------------------------------- building schedules

  lemma {:induction false} RunAppend(chain: Chain, slotMin: nat, p: Pool, s: seq<Action>, t: seq<Action>)
    requires Run(chain, slotMin, p, s).Some?
    ensures Run(chain, slotMin, p, s + t) == Run(chain, slotMin, Run(chain, slotMin, p, s).value, t)
  {
    if t == [] {
      assert s + t == s;
    } else {
      assert (s + t)[..|s + t| - 1] == s + t[..|t| - 1];
      RunAppend(chain, slotMin, p, s, t[..|t| - 1]);
    }
  }

  lemma RunOne(chain: Chain, slotMin: nat, p: Pool, a: Action)
    requires Enabled(slotMin, p, a)
    ensures Run(chain, slotMin, p, [a]) == Some(Next(chain, slotMin, p, a))
  {
    assert [a][..0] == [];
    assert Run(chain, slotMin, p, []) == Some(p);
  }

  /** The schedule leads from one pool to the other. */
  ghost predicate Leads(chain: Chain, slotMin: nat, p: Pool, s: seq<Action>, q: Pool) {
    Run(chain, slotMin, p, s) == Some(q)
  }

  lemma LeadsOn(chain: Chain, slotMin: nat, p: Pool, s: seq<Action>, q: Pool, t: seq<Action>, r: Pool)
    requires Leads(chain, slotMin, p, s, q) && Leads(chain, slotMin, q, t, r)
    ensures Leads(chain, slotMin, p, s + t, r)
  {
    RunAppend(chain, slotMin, p, s, t);
  }

  ghost predicate NoneCrash(chain: Chain, slotMin: nat, todo: seq<Row>) {
    forall i | 0 <= i < |todo| && Wanted(slotMin, todo[i]) :: !Result(chain, todo[i]).Crash?
  }

  /** The first entry goes through worker `w`. */
  lemma OneThrough(chain: Chain, slotMin: nat, p: Pool, w: nat) returns (s: seq<Action>, q: Pool)
    requires !p.crashed && w < |p.workers| && p.workers[w] == Idle
    requires p.todo != [] && NoneCrash(chain, slotMin, p.todo)
    ensures Leads(chain, slotMin, p, s, q)
    ensures !q.crashed && q.todo == p.todo[1..] && q.workers == p.workers && q.closed == p.closed
  {
    if Wanted(slotMin, p.todo[0]) {
      var m := Next(chain, slotMin, p, Hand(w));
      RunOne(chain, slotMin, p, Hand(w));
      RunOne(chain, slotMin, m, Finish(w));
      q := Next(chain, slotMin, m, Finish(w));
      LeadsOn(chain, slotMin, p, [Hand(w)], m, [Finish(w)], q);
      s := [Hand(w)] + [Finish(w)];
      assert q.workers == p.workers;
    } else {
      s, q := [Skip], Next(chain, slotMin, p, Skip);
      RunOne(chain, slotMin, p, Skip);
    }
  }

  /** The first `n` entries go through worker `w`; the others hold what they hold. */
  lemma {:induction false} Drain(chain: Chain, slotMin: nat, p: Pool, w: nat, n: nat) returns (s: seq<Action>, q: Pool)
    requires !p.crashed && w < |p.workers| && p.workers[w] == Idle
    requires n <= |p.todo| && NoneCrash(chain, slotMin, p.todo)
    ensures Leads(chain, slotMin, p, s, q)
    ensures !q.crashed && q.todo == p.todo[n..] && q.workers == p.workers && q.closed == p.closed
    decreases n
  {
    if n == 0 {
      s, q := [], p;
      assert Run(chain, slotMin, p, []) == Some(p);
    } else {
      var s0, m := OneThrough(chain, slotMin, p, w);
      var s1;
      s1, q := Drain(chain, slotMin, m, w, n - 1);
      LeadsOn(chain, slotMin, p, s0, m, s1, q);
      s := s0 + s1;
    }
  }

  ghost predicate ExitedUpTo(workers: seq<Worker>, n: nat) {
    forall w | 0 <= w < |workers| :: workers[w] == if w < n then Exited else Idle
  }

  /** All workers leave a closed and empty channel. */
  lemma {:induction false} LeaveAll(chain: Chain, slotMin: nat, p: Pool, n: nat) returns (s: seq<Action>, q: Pool)
    requires !p.crashed && p.closed && p.todo == [] && n <= |p.workers| && ExitedUpTo(p.workers, n)
    ensures Leads(chain, slotMin, p, s, q) && Complete(q) && q.rows == p.rows && q.handled == p.handled
    decreases |p.workers| - n
  {
    if n == |p.workers| {
      s, q := [], p;
      assert Run(chain, slotMin, p, []) == Some(p);
    } else {
      var m := Next(chain, slotMin, p, Exit(n));
      RunOne(chain, slotMin, p, Exit(n));
      var s1;
      s1, q := LeaveAll(chain, slotMin, m, n + 1);
      LeadsOn(chain, slotMin, p, [Exit(n)], m, s1, q);
      s := [Exit(n)] + s1;
    }
  }

  /** One worker holds the entry while another one handles all the rest. */
  lemma HoldBack(chain: Chain, slotMin: nat, entries: seq<Row>, threads: nat, rows0: seq<Row>, i: nat)
    returns (s: seq<Action>, q: Pool)
    requires threads >= 2 && NoneCrash(chain, slotMin, entries)
    requires i < |entries| && Wanted(slotMin, entries[i])
    ensures Leads(chain, slotMin, Start(entries, threads, rows0), s, q)
    ensures !q.crashed && q.todo == [] && !q.closed
    ensures q.workers == seq(threads, j => Idle)[1 := Busy(entries[i])]
  {
    var p := Start(entries, threads, rows0);
    var s0, p0 := Drain(chain, slotMin, p, 0, i);
    assert p0.todo[0] == entries[i];
    RunOne(chain, slotMin, p0, Hand(1));
    var p1 := Next(chain, slotMin, p0, Hand(1));
    LeadsOn(chain, slotMin, p, s0, p0, [Hand(1)], p1);
    assert p1.todo == entries[i + 1..];
    var s2;
    s2, q := Drain(chain, slotMin, p1, 0, |p1.todo|);
    LeadsOn(chain, slotMin, p, s0 + [Hand(1)], p1, s2, q);
    s := s0 + [Hand(1)] + s2;
  }

  /** With two workers any wanted entry can be the last one to be finished. */
  lemma AnyCanBeLast(chain: Chain, slotMin: nat, entries: seq<Row>, threads: nat, rows0: seq<Row>, i: nat)
    returns (s: seq<Action>, q: Pool)
    requires threads >= 2 && NoneCrash(chain, slotMin, entries)
    requires i < |entries| && Wanted(slotMin, entries[i])
    ensures Leads(chain, slotMin, Start(entries, threads, rows0), s, q) && Complete(q)
    ensures q.handled != [] && q.handled[|q.handled| - 1].0 == entries[i]
  {
    var p := Start(entries, threads, rows0);
    var s0, p0 := HoldBack(chain, slotMin, entries, threads, rows0, i);
    RunOne(chain, slotMin, p0, Close);
    var p1 := Next(chain, slotMin, p0, Close);
    RunOne(chain, slotMin, p1, Finish(1));
    var p2 := Next(chain, slotMin, p1, Finish(1));
    LeadsOn(chain, slotMin, p, s0, p0, [Close], p1);
    LeadsOn(chain, slotMin, p, s0 + [Close], p1, [Finish(1)], p2);
    var s3;
    s3, q := LeaveAll(chain, slotMin, p2, 0);
    LeadsOn(chain, slotMin, p, s0 + [Close] + [Finish(1)], p2, s3, q);
    s := s0 + [Close] + [Finish(1)] + s3;
  }

  // ---------------------------------------------------------------- exactly when the schedule does not matter

  lemma {:induction false} WantedMembers(slotMin: nat, entries: seq<Row>, e: Row)
    ensures e in WantedOf(slotMin, entries) <==> e in entries && Wanted(slotMin, e)
  {
    if entries != [] {
      WantedMembers(slotMin, entries[1..], e);
      assert entries == [entries[0]] + entries[1..];
    }
  }

  lemma WantedDoNotCrash(chain: Chain, slotMin: nat, entries: seq<Row>)
    requires !AnyCrashes(chain, WantedOf(slotMin, entries))
    ensures NoneCrash(chain, slotMin, entries)
  {
    forall i | 0 <= i < |entries| && Wanted(slotMin, entries[i]) ensures !Result(chain, entries[i]).Crash? {
      WantedMembers(slotMin, entries, entries[i]);
    }
  }

  /** A complete schedule after which the rows of an entry's slot hold what that entry writes. */
  lemma LastWriterWins(chain: Chain, slotMin: nat, entries: seq<Row>, threads: nat, rows0: seq<Row>, e: Row)
    returns (s: seq<Action>)
    requires threads >= 2 && !AnyCrashes(chain, WantedOf(slotMin, entries))
    requires e in WantedOf(slotMin, entries) && Result(chain, e).Save?
    ensures Completes(chain, slotMin, entries, threads, rows0, s)
    ensures var end := RowsAfter(chain, slotMin, entries, threads, rows0, s);
            && |end| == |rows0|
            && forall k | 0 <= k < |rows0| && rows0[k].slot == e.slot :: end[k].checks == Result(chain, e).columns
  {
    WantedDoNotCrash(chain, slotMin, entries);
    WantedMembers(slotMin, entries, e);
    var i :| 0 <= i < |entries| && entries[i] == e;
    var q;
    s, q := AnyCanBeLast(chain, slotMin, entries, threads, rows0, i);
    HandledWanted(chain, slotMin, entries, threads, rows0, s);
    SequentialRows(chain, rows0, Entries(q.handled));
  }

  lemma DisagreementShows(chain: Chain, slotMin: nat, entries: seq<Row>, threads: nat, rows0: seq<Row>, a: Row, b: Row)
    requires threads >= 2 && !AnyCrashes(chain, WantedOf(slotMin, entries))
    requires a in WantedOf(slotMin, entries) && b in WantedOf(slotMin, entries) && a.slot == b.slot
    requires Result(chain, a).Save? && Result(chain, b).Save? && Result(chain, a) != Result(chain, b)
    requires exists r | r in rows0 :: r.slot == a.slot
    ensures !OneOutcome(chain, slotMin, entries, threads, rows0)
  {
    var s := LastWriterWins(chain, slotMin, entries, threads, rows0, a);
    var t := LastWriterWins(chain, slotMin, entries, threads, rows0, b);
    var r :| r in rows0 && r.slot == a.slot;
    var k :| 0 <= k < |rows0| && rows0[k] == r;
    assert RowsAfter(chain, slotMin, entries, threads, rows0, s)[k] != RowsAfter(chain, slotMin, entries, threads,
      rows0, t)[k];
  }

  /** With two or more workers, and entries that were selected from the table: all complete schedules
      leave the same table if and only if entries of one slot write the same columns, or there are no
      complete schedules since some entry crashes. */
  lemma ScheduleIndependentExactly(chain: Chain, slotMin: nat, entries: seq<Row>, threads: nat, rows0: seq<Row>)
    requires threads >= 2
    requires forall e | e in entries :: exists r | r in rows0 :: r.slot == e.slot
    ensures OneOutcome(chain, slotMin, entries, threads, rows0) <==>
              SlotMatesAgree(chain, WantedOf(slotMin, entries)) || AnyCrashes(chain, WantedOf(slotMin, entries))
  {
    var wanted := WantedOf(slotMin, entries);
    if SlotMatesAgree(chain, wanted) {
      forall s | Completes(chain, slotMin, entries, threads, rows0, s)
        ensures RowsAfter(chain, slotMin, entries, threads, rows0, s) == Sequential(chain, rows0, wanted)
      {
        ScheduleIndependent(chain, slotMin, entries, threads, rows0, s, wanted);
      }
    } else if AnyCrashes(chain, wanted) {
      forall s ensures !Completes(chain, slotMin, entries, threads, rows0, s) {
        if Completes(chain, slotMin, entries, threads, rows0, s) {
          HandledWanted(chain, slotMin, entries, threads, rows0, s);
        }
      }
    } else {
      var a, b :| a in wanted && b in wanted && a.slot == b.slot && Result(chain, a).Save? && Result(chain, b).Save?
                  && Result(chain, a) != Result(chain, b);
      WantedMembers(slotMin, entries, a);
      DisagreementShows(chain, slotMin, entries, threads, rows0, a, b);
    }
  }

  // ---------------------------------------------------------------- concrete inputs

  function RowOf(relay: string, blockNumber: int): Row {
    Row(relay, 9, "parent", "block", "pubkey", "proposer", 100, EMPTY_CHECKS.(blockNumber := Some(blockNumber)))
  }

  /** Two relays name different block numbers for a block that is not on chain: with two workers the
      table depends on the schedule, with one it does not. */
  lemma DisagreeingRelays(chain: Chain, rows: seq<Row>)
    requires chain.blockByHash("block") == None && rows == [RowOf("a", 1), RowOf("b", 2)]
    ensures !OneOutcome(chain, 0, rows, 2, rows) && OneOutcome(chain, 0, rows, 1, rows)
  {
    var a, b := rows[0], rows[1];
    assert Result(chain, a) == Save(EMPTY_CHECKS.(blockNumber := Some(1), foundOnChain := Some(false)));
    assert Result(chain, b) == Save(EMPTY_CHECKS.(blockNumber := Some(2), foundOnChain := Some(false)));
    forall e ensures e in WantedOf(0, rows) <==> e in rows { WantedMembers(0, rows, e); }
    DisagreementShows(chain, 0, rows, 2, rows, a, b);
    forall s | Completes(chain, 0, rows, 1, rows, s)
      ensures RowsAfter(chain, 0, rows, 1, rows, s) == Sequential(chain, rows, WantedOf(0, rows))
    {
      OneWorkerIsSequential(chain, 0, rows, rows, s);
    }
  }

  /** A row whose block ends in the creation of a contract brings the pool down, and nothing is written. */
  lemma ContractCreationStopsThePool(row: Row) returns (p: Pool)
    requires InputOf(row) == Input("block", "proposer", 100, None)
    ensures Run(ContractCreation(), 0, Start([row], 1, [row]), [Hand(0)] + [Finish(0)]) == Some(p)
    ensures p.crashed && p.rows == [row] && p.handled == [] && forall a :: !Enabled(0, p, a)
  {
    ContractCreationCrashes();
    var start := Start([row], 1, [row]);
    RunOne(ContractCreation(), 0, start, Hand(0));
    var m := Next(ContractCreation(), 0, start, Hand(0));
    RunOne(ContractCreation(), 0, m, Finish(0));
    RunAppend(ContractCreation(), 0, start, [Hand(0)], [Finish(0)]);
    p := Next(ContractCreation(), 0, m, Finish(0));
  }
}
