/** Repeated default passes of the payment check: `WHERE value_check_ok IS NULL`
    (`cmd/core/check-payload-value.go`). */
module Recheck {
  import opened Wrappers
  import opened Database
  import opened PaymentCheck
  import opened WorkerPool

  predicate Pending(r: Row) {
    r.checks.valueCheckOk == None
  }

  /** The query reads these columns; the others are NULL in the entry. */
  function Selected(r: Row): Row {
    r.(checks := EMPTY_CHECKS.(blockNumber := r.checks.blockNumber))
  }

  /** A selection of all pending rows, in any order: the limit does not cut it off. */
  ghost predicate SelectsPending(rows: seq<Row>, entries: seq<Row>) {
    && (forall e | e in entries :: exists r | r in rows :: Pending(r) && e == Selected(r))
    && (forall r | r in rows && Pending(r) :: Selected(r) in entries)
  }

  ghost predicate MatesAgree(rows: seq<Row>) {
    forall a, b | a in rows && b in rows && a.slot == b.slot :: InputOf(a) == InputOf(b)
  }

  ghost predicate HeadersNonNil(chain: Chain) {
    forall n: int :: chain.headerHashByNumber(n).Some?
  }

  ghost predicate NoCrash(chain: Chain, rows: seq<Row>) {
    forall r | r in rows :: !Check(chain, InputOf(r)).Crash?
  }

  ghost predicate HasPendingMate(rows: seq<Row>, r: Row) {
    exists m | m in rows :: m.slot == r.slot && Pending(m)
  }

  /** What a pass does to every single row: if its slot has a pending row and the check saves, it is
      rewritten with what the check of any row of the slot says; otherwise it is left alone. */
  lemma PassRow(chain: Chain, rows: seq<Row>, entries: seq<Row>, i: nat)
    requires SelectsPending(rows, entries) && MatesAgree(rows) && i < |rows|
    ensures var end, outcome := Sequential(chain, rows, entries), Check(chain, InputOf(rows[i]));
            && |end| == |rows|
            && end[i] == if HasPendingMate(rows, rows[i]) && outcome.Save? then rows[i].(checks := outcome.columns)
                         else rows[i]
  {
    SequentialRows(chain, rows, entries);
    var w := Written(chain, entries, rows[i].slot);
    WrittenIsFromAnEntry(chain, entries, rows[i].slot);
    assert rows[i] in rows;
    if w.Some? {
      var e :| e in entries && e.slot == rows[i].slot && Result(chain, e) == Save(w.value);
      var r :| r in rows && Pending(r) && e == Selected(r);
      assert InputOf(e) == InputOf(r) == InputOf(rows[i]);
    } else if HasPendingMate(rows, rows[i]) {
      var m :| m in rows && m.slot == rows[i].slot && Pending(m);
      assert Selected(m) in entries && InputOf(Selected(m)) == InputOf(m) == InputOf(rows[i]);
    }
  }

  /** After one pass the pending rows are exactly those of the slots that had one and whose block is
      missing or is not the one at its number; where the check saves nothing they are as before. */
  lemma PendingAfterPass(chain: Chain, rows: seq<Row>, entries: seq<Row>, i: nat)
    requires SelectsPending(rows, entries) && MatesAgree(rows) && i < |rows|
    ensures var end := Sequential(chain, rows, entries);
            && |end| == |rows|
            && (Pending(end[i]) <==>
                  if Check(chain, InputOf(rows[i])).Save?
                    then HasPendingMate(rows, rows[i]) && !Confirmed(chain, rows[i].blockHash)
                  else Pending(rows[i]))
    ensures HeadersNonNil(chain) && NoCrash(chain, rows) ==> Check(chain, InputOf(rows[i])).Save?
  {
    PassRow(chain, rows, entries, i);
    assert rows[i] in rows;
    if Check(chain, InputOf(rows[i])).Save? {
      CheckMeaning(chain, InputOf(rows[i]));
    }
  }

  /** A pass keeps what the next one relies on. */
  lemma PassKeepsAgreement(chain: Chain, rows: seq<Row>, entries: seq<Row>)
    requires SelectsPending(rows, entries) && MatesAgree(rows)
    ensures MatesAgree(Sequential(chain, rows, entries)) && |Sequential(chain, rows, entries)| == |rows|
  {
    var end := Sequential(chain, rows, entries);
    SequentialRows(chain, rows, entries);
    forall i, j | 0 <= i < |end| && 0 <= j < |end| && end[i].slot == end[j].slot
      ensures InputOf(end[i]) == InputOf(end[j])
    {
      PassRow(chain, rows, entries, i);
      PassRow(chain, rows, entries, j);
      assert rows[i] in rows && rows[j] in rows;
    }
  }

  /** Fixed point: a second pass over the result, whatever order it selects the still pending
      rows in, changes nothing. */
  lemma SecondPassChangesNothing(chain: Chain, rows: seq<Row>, entries: seq<Row>, again: seq<Row>)
    requires SelectsPending(rows, entries) && MatesAgree(rows)
    requires SelectsPending(Sequential(chain, rows, entries), again)
    ensures Sequential(chain, Sequential(chain, rows, entries), again) == Sequential(chain, rows, entries)
  {
    var end := Sequential(chain, rows, entries);
    PassKeepsAgreement(chain, rows, entries);
    SequentialRows(chain, end, again);
    forall i | 0 <= i < |end| ensures Sequential(chain, end, again)[i] == end[i] {
      SecondPassRow(chain, rows, entries, again, i);
    }
  }

  lemma PendingMateWasPending(chain: Chain, rows: seq<Row>, entries: seq<Row>, i: nat)
    requires SelectsPending(rows, entries) && MatesAgree(rows)
    requires i < |rows| == |Sequential(chain, rows, entries)|
    requires HasPendingMate(Sequential(chain, rows, entries), Sequential(chain, rows, entries)[i])
    ensures HasPendingMate(rows, rows[i])
  {
    var end := Sequential(chain, rows, entries);
    var m :| m in end && m.slot == end[i].slot && Pending(m);
    var k :| 0 <= k < |end| && end[k] == m;
    PassRow(chain, rows, entries, i);
    PassRow(chain, rows, entries, k);
  }

  lemma SecondPassRow(chain: Chain, rows: seq<Row>, entries: seq<Row>, again: seq<Row>, i: nat)
    requires SelectsPending(rows, entries) && MatesAgree(rows)
    requires var end := Sequential(chain, rows, entries);
             && i < |rows| == |end| && SelectsPending(end, again) && MatesAgree(end)
    ensures var end := Sequential(chain, rows, entries);
            |Sequential(chain, end, again)| == |end| && Sequential(chain, end, again)[i] == end[i]
  {
    var end := Sequential(chain, rows, entries);
    PassRow(chain, rows, entries, i);
    PassRow(chain, end, again, i);
    if HasPendingMate(end, end[i]) {
      PendingMateWasPending(chain, rows, entries, i);
      if Check(chain, InputOf(rows[i])).Save? { CheckIsIdempotent(chain, InputOf(rows[i])); }
    }
  }

  // ---------------------------------------------------------------- passes of the pool

  lemma {:induction false} AllWanted(entries: seq<Row>)
    ensures WantedOf(0, entries) == entries
  {
    if entries != [] { AllWanted(entries[1..]); }
  }

  lemma SelectedAgree(chain: Chain, rows: seq<Row>, entries: seq<Row>)
    requires SelectsPending(rows, entries) && MatesAgree(rows)
    ensures SlotMatesAgree(chain, entries)
  {
    forall a, b | a in entries && b in entries && a.slot == b.slot ensures InputOf(a) == InputOf(b) {
      var r :| r in rows && Pending(r) && a == Selected(r);
      var q :| q in rows && Pending(q) && b == Selected(q);
      assert InputOf(r) == InputOf(q);
    }
    AgreeingRowsAgree(chain, entries);
  }

  ghost predicate PoolPass(chain: Chain, rows: seq<Row>, entries: seq<Row>, threads: nat, schedule: seq<Action>,
                           after: seq<Row>) {
    && Completes(chain, 0, entries, threads, rows, schedule)
    && RowsAfter(chain, 0, entries, threads, rows, schedule) == after
  }

  lemma PoolPassIsSequential(chain: Chain, rows: seq<Row>, entries: seq<Row>, threads: nat, schedule: seq<Action>,
                             after: seq<Row>)
    requires SelectsPending(rows, entries) && MatesAgree(rows)
    requires PoolPass(chain, rows, entries, threads, schedule, after)
    ensures after == Sequential(chain, rows, entries)
  {
    AllWanted(entries);
    SelectedAgree(chain, rows, entries);
    ScheduleIndependent(chain, 0, entries, threads, rows, schedule, entries);
  }

  /** Two complete passes of the pool, with any numbers of workers and any schedules: the second
      changes nothing. */
  lemma SecondPoolPassChangesNothing(chain: Chain, rows: seq<Row>, entries: seq<Row>, threads: nat,
                                     schedule: seq<Action>, once: seq<Row>,
                                     again: seq<Row>, threads': nat, schedule': seq<Action>, twice: seq<Row>)
    requires SelectsPending(rows, entries) && MatesAgree(rows)
    requires PoolPass(chain, rows, entries, threads, schedule, once)
    requires SelectsPending(once, again) && PoolPass(chain, once, again, threads', schedule', twice)
    ensures twice == once
  {
    PoolPassIsSequential(chain, rows, entries, threads, schedule, once);
    PassKeepsAgreement(chain, rows, entries);
    PoolPassIsSequential(chain, once, again, threads', schedule', twice);
    SecondPassChangesNothing(chain, rows, entries, again);
  }
}
