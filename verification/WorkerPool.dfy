/** The producer, the unbuffered channel and the workers of `RunCheckPayloadValue`, and the
    slot-wide update they write with (`cmd/core/check-payload-value.go`). */
module WorkerPool {
  import opened Wrappers
  import opened Database
  import opened PaymentCheck
  import opened Sequences

  // ---------------------------------------------------------------- the effect of one entry

  /** `UPDATE ... WHERE slot=:slot` hits the rows of every relay. */
  function UpdateSlot(rows: seq<Row>, slot: nat, columns: CheckColumns): seq<Row> {
    seq(|rows|, i requires 0 <= i < |rows| => if rows[i].slot == slot then rows[i].(checks := columns) else rows[i])
  }

  function Result(chain: Chain, entry: Row): Outcome {
    Check(chain, InputOf(entry))
  }

  /** What an entry does to the table; one that crashes the process does not get to write. */
  function Apply(chain: Chain, rows: seq<Row>, entry: Row): seq<Row> {
    match Result(chain, entry)
    case Save(columns) => UpdateSlot(rows, entry.slot, columns)
    case NoSave => rows
    case Crash => rows
  }

  ghost predicate AnyCrashes(chain: Chain, entries: seq<Row>) {
    exists e | e in entries :: Result(chain, e).Crash?
  }

  /** The entries one after the other, in the order of the sequence. */
  function Sequential(chain: Chain, rows: seq<Row>, entries: seq<Row>): seq<Row> {
    if entries == [] then rows
    else Apply(chain, Sequential(chain, rows, entries[..|entries| - 1]), entries[|entries| - 1])
  }

  // ---------------------------------------------------------------- the pool as a state machine

  datatype Worker = Idle | Busy(entry: Row) | Exited

  /** `todo` is what the producer has not looked at yet; `handled` lists the finished entries
      with the worker that finished each. Nothing recovers a panic of a worker: the process is gone. */
  datatype Pool = Pool(
    todo: seq<Row>,
    closed: bool,
    workers: seq<Worker>,
    rows: seq<Row>,
    handled: seq<(Row, nat)>,
    crashed: bool)

  datatype Action = Skip | Hand(w: nat) | Finish(w: nat) | Close | Exit(w: nat)

  predicate Wanted(slotMin: nat, entry: Row) {
    slotMin == 0 || entry.slot >= slotMin
  }

  function WantedOf(slotMin: nat, entries: seq<Row>): seq<Row> {
    if entries == [] then []
    else (if Wanted(slotMin, entries[0]) then [entries[0]] else []) + WantedOf(slotMin, entries[1..])
  }

  /** Sending on the unbuffered channel and receiving from it are one step. */
  predicate Enabled(slotMin: nat, p: Pool, a: Action) {
    && !p.crashed
    && match a
       case Skip => p.todo != [] && !Wanted(slotMin, p.todo[0])
       case Hand(w) => p.todo != [] && Wanted(slotMin, p.todo[0]) && w < |p.workers| && p.workers[w] == Idle
       case Finish(w) => w < |p.workers| && p.workers[w].Busy?
       case Close => p.todo == [] && !p.closed
       case Exit(w) => p.closed && w < |p.workers| && p.workers[w] == Idle
  }

  function Next(chain: Chain, slotMin: nat, p: Pool, a: Action): Pool
    requires Enabled(slotMin, p, a)
  {
    match a
    case Skip => p.(todo := p.todo[1..])
    case Hand(w) => p.(todo := p.todo[1..], workers := p.workers[w := Busy(p.todo[0])])
    case Finish(w) =>
      var entry := p.workers[w].entry;
      if Result(chain, entry).Crash? then p.(crashed := true)
      else
        p.(workers := p.workers[w := Idle], rows := Apply(chain, p.rows, entry), handled := p.handled + [(entry, w)])
    case Close => p.(closed := true)
    case Exit(w) => p.(workers := p.workers[w := Exited])
  }

  function Start(entries: seq<Row>, threads: nat, rows: seq<Row>): Pool {
    Pool(entries, false, seq(threads, i => Idle), rows, [], false)
  }

  /** The pool after a schedule; `None` if one of its steps was not possible. */
  function Run(chain: Chain, slotMin: nat, p: Pool, schedule: seq<Action>): Option<Pool> {
    if schedule == [] then Some(p)
    else
      var before := Run(chain, slotMin, p, schedule[..|schedule| - 1]);
      var a := schedule[|schedule| - 1];
      if before.Some? && Enabled(slotMin, before.value, a) then Some(Next(chain, slotMin, before.value, a)) else None
  }

  predicate Complete(p: Pool) {
    p.todo == [] && p.closed && !p.crashed && forall w | 0 <= w < |p.workers| :: p.workers[w] == Exited
  }

  /** The schedule is possible and leads to completion. */
  predicate Completes(chain: Chain, slotMin: nat, entries: seq<Row>, threads: nat, rows: seq<Row>,
                      schedule: seq<Action>) {
    var end := Run(chain, slotMin, Start(entries, threads, rows), schedule);
    end.Some? && Complete(end.value)
  }

  /** The table that a complete schedule leaves. */
  function RowsAfter(chain: Chain, slotMin: nat, entries: seq<Row>, threads: nat, rows: seq<Row>,
                     schedule: seq<Action>): seq<Row>
    requires Completes(chain, slotMin, entries, threads, rows, schedule)
  {
    Run(chain, slotMin, Start(entries, threads, rows), schedule).value.rows
  }

  // ---------------------------------------------------------------- exactly once

  function InHand(workers: seq<Worker>): multiset<Row> {
    if workers == [] then multiset{}
    else InHand(workers[..|workers| - 1]) + Held(workers[|workers| - 1])
  }

  function Entries(handled: seq<(Row, nat)>): seq<Row> {
    seq(|handled|, i requires 0 <= i < |handled| => handled[i].0)
  }

  function Held(worker: Worker): multiset<Row> {
    if worker.Busy? then multiset{worker.entry} else multiset{}
  }

  lemma AddBoth(x: multiset<Row>, y: multiset<Row>, o: multiset<Row>, n: multiset<Row>, h: multiset<Row>)
    requires x + o == y + n
    ensures (x + h) + o == (y + h) + n
  {
    assert (x + h) + o == (x + o) + h;
    assert (y + h) + n == (y + n) + h;
  }

  lemma SwapBoth(x: multiset<Row>, n: multiset<Row>, o: multiset<Row>)
    ensures (x + n) + o == (x + o) + n
  {
  }

  lemma {:induction false} InHandUpdate(workers: seq<Worker>, w: nat, worker: Worker)
    requires w < |workers|
    ensures InHand(workers[w := worker]) + Held(workers[w]) == InHand(workers) + Held(worker)
  {
    var n := |workers| - 1;
    var workers' := workers[w := worker];
    if w == n {
      assert workers'[..n] == workers[..n];
      SwapBoth(InHand(workers[..n]), Held(worker), Held(workers[w]));
    } else {
      assert workers'[..n] == workers[..n][w := worker];
      InHandUpdate(workers[..n], w, worker);
      AddBoth(InHand(workers'[..n]), InHand(workers[..n]), Held(workers[w]), Held(worker), Held(workers[n]));
    }
  }

  ghost predicate Conserved(slotMin: nat, entries: seq<Row>, p: Pool) {
    multiset(WantedOf(slotMin, p.todo)) + InHand(p.workers) + multiset(Entries(p.handled))
      == multiset(WantedOf(slotMin, entries))
  }

  ghost predicate Shape(threads: nat, p: Pool) {
    && |p.workers| == threads
    && (forall i | 0 <= i < |p.handled| :: p.handled[i].1 < threads)
    && (p.closed ==> p.todo == [])
    && (forall w | 0 <= w < |p.workers| && p.workers[w] == Exited :: p.closed)
  }

  /** What a crash leaves behind is the entry that made it, in its worker's hands. */
  ghost predicate CrashInv(chain: Chain, p: Pool) {
    && !AnyCrashes(chain, Entries(p.handled))
    && (p.crashed ==> exists w | 0 <= w < |p.workers| :: CrashedAt(chain, p, w))
  }

  predicate CrashedAt(chain: Chain, p: Pool, w: nat)
    requires w < |p.workers|
  {
    p.workers[w].Busy? && Result(chain, p.workers[w].entry).Crash?
  }

  /** Every wanted entry is in exactly one place, and the table is what the finished entries
      made of it. */
  ghost predicate Inv(chain: Chain, slotMin: nat, entries: seq<Row>, threads: nat, rows0: seq<Row>, p: Pool) {
    && Conserved(slotMin, entries, p)
    && p.rows == Sequential(chain, rows0, Entries(p.handled))
    && Shape(threads, p)
    && CrashInv(chain, p)
  }

  lemma StartInv(chain: Chain, slotMin: nat, entries: seq<Row>, threads: nat, rows0: seq<Row>)
    ensures Inv(chain, slotMin, entries, threads, rows0, Start(entries, threads, rows0))
  {
    AllIdle(threads);
  }

  lemma {:induction false} AllIdle(threads: nat)
    ensures InHand(seq(threads, i => Idle)) == multiset{}
  {
    if threads > 0 {
      assert seq(threads, i => Idle)[..threads - 1] == seq(threads - 1, i => Idle);
      AllIdle(threads - 1);
    }
  }

  lemma NextKeepsShape(chain: Chain, slotMin: nat, threads: nat, p: Pool, a: Action)
    requires Shape(threads, p) && Enabled(slotMin, p, a)
    ensures Shape(threads, Next(chain, slotMin, p, a))
  {
  }

  lemma NextConserves(chain: Chain, slotMin: nat, entries: seq<Row>, p: Pool, a: Action)
    requires Conserved(slotMin, entries, p) && Enabled(slotMin, p, a)
    ensures Conserved(slotMin, entries, Next(chain, slotMin, p, a))
  {
    match a
    case Skip =>
    case Hand(w) => HandConserves(chain, slotMin, entries, p, w);
    case Finish(w) =>
      if !Result(chain, p.workers[w].entry).Crash? { FinishConserves(chain, slotMin, entries, p, w); }
    case Close =>
    case Exit(w) =>
      InHandUpdate(p.workers, w, Exited);
      CancelEmpty(InHand(p.workers[w := Exited]), InHand(p.workers));
  }

  lemma CancelEmpty(x: multiset<Row>, y: multiset<Row>)
    requires x + multiset{} == y + multiset{}
    ensures x == y
  {
    assert x + multiset{} == x && y + multiset{} == y;
  }

  lemma NextKeepsRows(chain: Chain, slotMin: nat, rows0: seq<Row>, p: Pool, a: Action)
    requires p.rows == Sequential(chain, rows0, Entries(p.handled)) && Enabled(slotMin, p, a)
    ensures var p' := Next(chain, slotMin, p, a); p'.rows == Sequential(chain, rows0, Entries(p'.handled))
  {
    if a.Finish? && !Result(chain, p.workers[a.w].entry).Crash? {
      FinishAppends(p, a.w);
      SequentialAppend(chain, rows0, Entries(p.handled), p.workers[a.w].entry);
    }
  }

  lemma NextKeepsCrashInv(chain: Chain, slotMin: nat, p: Pool, a: Action)
    requires CrashInv(chain, p) && Enabled(slotMin, p, a)
    ensures CrashInv(chain, Next(chain, slotMin, p, a))
  {
    if a.Finish? {
      if Result(chain, p.workers[a.w].entry).Crash? {
        assert CrashedAt(chain, Next(chain, slotMin, p, a), a.w);
      } else {
        FinishAppends(p, a.w);
      }
    }
  }

  lemma NextKeepsInv(chain: Chain, slotMin: nat, entries: seq<Row>, threads: nat, rows0: seq<Row>, p: Pool, a: Action)
    requires Inv(chain, slotMin, entries, threads, rows0, p) && Enabled(slotMin, p, a)
    ensures Inv(chain, slotMin, entries, threads, rows0, Next(chain, slotMin, p, a))
  {
    NextKeepsShape(chain, slotMin, threads, p, a);
    NextConserves(chain, slotMin, entries, p, a);
    NextKeepsRows(chain, slotMin, rows0, p, a);
    NextKeepsCrashInv(chain, slotMin, p, a);
  }

  lemma SequentialAppend(chain: Chain, rows: seq<Row>, entries: seq<Row>, e: Row)
    ensures Sequential(chain, rows, entries + [e]) == Apply(chain, Sequential(chain, rows, entries), e)
  {
    assert (entries + [e])[..|entries|] == entries;
  }

  lemma HandConserves(chain: Chain, slotMin: nat, entries: seq<Row>, p: Pool, w: nat)
    requires Conserved(slotMin, entries, p) && Enabled(slotMin, p, Hand(w))
    ensures Conserved(slotMin, entries, Next(chain, slotMin, p, Hand(w)))
  {
    var e, rest := p.todo[0], WantedOf(slotMin, p.todo[1..]);
    InHandUpdate(p.workers, w, Busy(e));
    assert multiset(WantedOf(slotMin, p.todo)) == multiset{e} + multiset(rest);
    assert InHand(p.workers[w := Busy(e)]) == InHand(p.workers) + multiset{e};
  }

  lemma FinishAppends(p: Pool, w: nat)
    requires w < |p.workers| && p.workers[w].Busy?
    ensures var more := Entries(p.handled + [(p.workers[w].entry, w)]);
            more == Entries(p.handled) + [p.workers[w].entry] && more[..|more| - 1] == Entries(p.handled)
  {
  }

  lemma FinishConserves(chain: Chain, slotMin: nat, entries: seq<Row>, p: Pool, w: nat)
    requires Conserved(slotMin, entries, p) && Enabled(slotMin, p, Finish(w))
    requires !Result(chain, p.workers[w].entry).Crash?
    ensures Conserved(slotMin, entries, Next(chain, slotMin, p, Finish(w)))
  {
    var e := p.workers[w].entry;
    InHandUpdate(p.workers, w, Idle);
    FinishAppends(p, w);
    MoveOver(multiset(WantedOf(slotMin, p.todo)), InHand(p.workers), InHand(p.workers[w := Idle]),
      multiset(Entries(p.handled)), e);
  }

  lemma MoveOver(todo: multiset<Row>, hand: multiset<Row>, hand': multiset<Row>, handled: multiset<Row>, e: Row)
    requires hand' + multiset{e} == hand + multiset{}
    ensures todo + hand' + (handled + multiset{e}) == todo + hand + handled
  {
    assert hand + multiset{} == hand;
    assert todo + hand' + (handled + multiset{e}) == todo + (hand' + multiset{e}) + handled;
  }

  lemma {:induction false} RunKeepsInv(chain: Chain, slotMin: nat, entries: seq<Row>, threads: nat, rows0: seq<Row>,
                                       schedule: seq<Action>)
    requires Run(chain, slotMin, Start(entries, threads, rows0), schedule).Some?
    ensures Inv(chain, slotMin, entries, threads, rows0,
            Run(chain, slotMin, Start(entries, threads, rows0), schedule).value)
  {
    var start := Start(entries, threads, rows0);
    if schedule == [] {
      StartInv(chain, slotMin, entries, threads, rows0);
    } else {
      RunKeepsInv(chain, slotMin, entries, threads, rows0, schedule[..|schedule| - 1]);
      var before := Run(chain, slotMin, start, schedule[..|schedule| - 1]).value;
      NextKeepsInv(chain, slotMin, entries, threads, rows0, before, schedule[|schedule| - 1]);
    }
  }

  lemma {:induction false} NobodyBusy(workers: seq<Worker>)
    requires forall w | 0 <= w < |workers| :: workers[w] == Exited
    ensures InHand(workers) == multiset{}
  {
    if workers != [] {
      NobodyBusy(workers[..|workers| - 1]);
    }
  }

  /** At the end of every complete schedule the handled entries are the wanted ones. */
  lemma HandledWanted(chain: Chain, slotMin: nat, entries: seq<Row>, threads: nat, rows0: seq<Row>,
                      schedule: seq<Action>)
    requires Completes(chain, slotMin, entries, threads, rows0, schedule)
    ensures var end := Run(chain, slotMin, Start(entries, threads, rows0), schedule).value;
            && multiset(Entries(end.handled)) == multiset(WantedOf(slotMin, entries))
            && end.rows == Sequential(chain, rows0, Entries(end.handled))
            && forall i | 0 <= i < |end.handled| :: end.handled[i].1 < threads
    ensures !AnyCrashes(chain, WantedOf(slotMin, entries))
  {
    RunKeepsInv(chain, slotMin, entries, threads, rows0, schedule);
    var end := Run(chain, slotMin, Start(entries, threads, rows0), schedule).value;
    NobodyBusy(end.workers);
    AllSameMembers(Entries(end.handled), WantedOf(slotMin, entries));
  }

  lemma {:induction false} WantedCount(slotMin: nat, entries: seq<Row>, e: Row)
    ensures multiset(WantedOf(slotMin, entries))[e] ==
              if slotMin == 0 || slotMin <= e.slot then multiset(entries)[e] else 0
  {
    if entries != [] {
      WantedCount(slotMin, entries[1..], e);
      assert entries == [entries[0]] + entries[1..];
    }
  }

  /** Exactly once: at the end of every complete schedule every selected entry that is not below the
      minimum slot, if there is one, was handled as often as it was selected, and no other; the table is
      that of one sequential pass, and none of these entries is one that crashes. */
  lemma ExactlyOnce(chain: Chain, slotMin: nat, entries: seq<Row>, threads: nat, rows0: seq<Row>, schedule: seq<Action>)
    requires Completes(chain, slotMin, entries, threads, rows0, schedule)
    ensures var end := Run(chain, slotMin, Start(entries, threads, rows0), schedule).value;
            && (forall e :: multiset(Entries(end.handled))[e] ==
                              if slotMin == 0 || slotMin <= e.slot then multiset(entries)[e] else 0)
            && end.rows == Sequential(chain, rows0, Entries(end.handled))
            && (forall i | 0 <= i < |end.handled| :: end.handled[i].1 < threads)
            && forall e | e in entries && (slotMin == 0 || slotMin <= e.slot) :: !Result(chain, e).Crash?
  {
    HandledWanted(chain, slotMin, entries, threads, rows0, schedule);
    forall e ensures multiset(WantedOf(slotMin, entries))[e] ==
              if slotMin == 0 || slotMin <= e.slot then multiset(entries)[e] else 0
    {
      WantedCount(slotMin, entries, e);
    }
    forall e | e in entries && (slotMin == 0 || slotMin <= e.slot) ensures !Result(chain, e).Crash? {
      assert e in multiset(entries) && e in multiset(WantedOf(slotMin, entries));
    }
  }

  lemma BusyIsInHand(workers: seq<Worker>, w: nat)
    requires w < |workers| && workers[w].Busy?
    ensures workers[w].entry in InHand(workers)
  {
    InHandUpdate(workers, w, Idle);
    assert workers[w].entry in InHand(workers[w := Idle]) + Held(workers[w]);
  }

  /** A pool crashes only on a wanted entry. */
  lemma CrashIsWanted(chain: Chain, slotMin: nat, entries: seq<Row>, p: Pool)
    requires Conserved(slotMin, entries, p) && CrashInv(chain, p) && p.crashed
    ensures AnyCrashes(chain, WantedOf(slotMin, entries))
  {
    var w :| 0 <= w < |p.workers| && CrashedAt(chain, p, w);
    BusyIsInHand(p.workers, w);
    assert p.workers[w].entry in multiset(WantedOf(slotMin, entries));
  }

  // ---------------------------------------------------------------- progress

  function WorkerWeight(workers: seq<Worker>): nat {
    if workers == [] then 0
    else
      WorkerWeight(workers[..|workers| - 1]) + Weight(workers[|workers| - 1])
  }

  function Weight(worker: Worker): nat {
    if worker.Busy? then 2 else if worker == Idle then 1 else 0
  }

  lemma {:induction false} WeightUpdate(workers: seq<Worker>, w: nat, worker: Worker)
    requires w < |workers|
    ensures WorkerWeight(workers[w := worker]) + Weight(workers[w]) == WorkerWeight(workers) + Weight(worker)
  {
    var n := |workers| - 1;
    var workers' := workers[w := worker];
    if w == n {
      assert workers'[..n] == workers[..n];
    } else {
      assert workers'[..n] == workers[..n][w := worker];
      WeightUpdate(workers[..n], w, worker);
    }
  }

  /** What every step uses up. */
  function Left(p: Pool): nat {
    2 * |p.todo| + WorkerWeight(p.workers) + (if p.closed then 0 else 1) + if p.crashed then 0 else 1
  }

  lemma StepsRunOut(chain: Chain, slotMin: nat, p: Pool, a: Action)
    requires Enabled(slotMin, p, a)
    ensures Left(Next(chain, slotMin, p, a)) < Left(p)
  {
    match a
    case Skip =>
    case Hand(w) => WeightUpdate(p.workers, w, Busy(p.todo[0]));
    case Finish(w) => WeightUpdate(p.workers, w, Idle);
    case Close =>
    case Exit(w) => WeightUpdate(p.workers, w, Exited);
  }

  /** No schedule is longer than the work there is. */
  lemma {:induction false} SchedulesAreBounded(chain: Chain, slotMin: nat, p: Pool, schedule: seq<Action>)
    requires Run(chain, slotMin, p, schedule).Some?
    ensures |schedule| + Left(Run(chain, slotMin, p, schedule).value) <= Left(p)
  {
    if schedule != [] {
      var front := schedule[..|schedule| - 1];
      SchedulesAreBounded(chain, slotMin, p, front);
      StepsRunOut(chain, slotMin, Run(chain, slotMin, p, front).value, schedule[|schedule| - 1]);
    }
  }

  predicate WaitsForever(slotMin: nat, threads: nat, p: Pool) {
    threads == 0 && p.todo != [] && Wanted(slotMin, p.todo[0])
  }

  /** Nothing can happen any more in exactly the reachable states that are complete or crashed, or
      in which there is no worker at all and the producer waits for one. */
  lemma StuckExactly(chain: Chain, slotMin: nat, entries: seq<Row>, threads: nat, rows0: seq<Row>,
                     schedule: seq<Action>)
    requires Run(chain, slotMin, Start(entries, threads, rows0), schedule).Some?
    ensures var end := Run(chain, slotMin, Start(entries, threads, rows0), schedule).value;
            (forall a :: !Enabled(slotMin, end, a))
              <==> Complete(end) || end.crashed || WaitsForever(slotMin, threads, end)
  {
    RunKeepsInv(chain, slotMin, entries, threads, rows0, schedule);
    StuckPoolExactly(slotMin, threads, Run(chain, slotMin, Start(entries, threads, rows0), schedule).value);
  }

  lemma StuckPoolExactly(slotMin: nat, threads: nat, p: Pool)
    requires Shape(threads, p)
    ensures (forall a :: !Enabled(slotMin, p, a)) <==> Complete(p) || p.crashed || WaitsForever(slotMin, threads, p)
  {
    if !p.crashed && forall a :: !Enabled(slotMin, p, a) {
      StuckPool(slotMin, threads, p);
    }
  }

  lemma StuckPool(slotMin: nat, threads: nat, p: Pool)
    requires Shape(threads, p) && !p.crashed && forall a :: !Enabled(slotMin, p, a)
    ensures Complete(p) || WaitsForever(slotMin, threads, p)
  {
    assert !Enabled(slotMin, p, Skip) && !Enabled(slotMin, p, Close);
    forall w: nat | w < |p.workers| ensures p.workers[w] == Exited {
      assert !Enabled(slotMin, p, Finish(w)) && !Enabled(slotMin, p, Hand(w)) && !Enabled(slotMin, p, Exit(w));
    }
    if threads > 0 { assert p.workers[0] == Exited; }
  }

  /** With at least one worker, every schedule that cannot go on has crashed if any wanted entry
      crashes, whatever the interleaving, and is complete otherwise. */
  lemma EndsExactly(chain: Chain, slotMin: nat, entries: seq<Row>, threads: nat, rows0: seq<Row>, schedule: seq<Action>)
    requires threads >= 1 && Run(chain, slotMin, Start(entries, threads, rows0), schedule).Some?
    requires forall a :: !Enabled(slotMin, Run(chain, slotMin, Start(entries, threads, rows0), schedule).value, a)
    ensures var end := Run(chain, slotMin, Start(entries, threads, rows0), schedule).value;
            && (end.crashed <==> AnyCrashes(chain, WantedOf(slotMin, entries)))
            && (Complete(end) <==> !AnyCrashes(chain, WantedOf(slotMin, entries)))
  {
    RunKeepsInv(chain, slotMin, entries, threads, rows0, schedule);
    StuckExactly(chain, slotMin, entries, threads, rows0, schedule);
    var end := Run(chain, slotMin, Start(entries, threads, rows0), schedule).value;
    if end.crashed {
      CrashIsWanted(chain, slotMin, entries, end);
    } else {
      HandledWanted(chain, slotMin, entries, threads, rows0, schedule);
    }
  }

  /** With at least one worker and no entry that crashes, every interleaving so far can be carried
      on to completion. */
  lemma {:induction false} EveryScheduleCanComplete(chain: Chain, slotMin: nat, entries: seq<Row>, threads: nat,
                                                    rows0: seq<Row>, schedule: seq<Action>) returns (rest: seq<Action>)
    requires threads >= 1 && Run(chain, slotMin, Start(entries, threads, rows0), schedule).Some?
    requires !AnyCrashes(chain, WantedOf(slotMin, entries))
    ensures Completes(chain, slotMin, entries, threads, rows0, schedule + rest)
    decreases Left(Run(chain, slotMin, Start(entries, threads, rows0), schedule).value)
  {
    var start := Start(entries, threads, rows0);
    var p := Run(chain, slotMin, start, schedule).value;
    if Complete(p) {
      rest := [];
      assert schedule + rest == schedule;
    } else {
      var a := SomeStep(chain, slotMin, entries, threads, rows0, schedule);
      StepsRunOut(chain, slotMin, p, a);
      assert (schedule + [a])[..|schedule|] == schedule;
      var more := EveryScheduleCanComplete(chain, slotMin, entries, threads, rows0, schedule + [a]);
      rest := [a] + more;
      assert schedule + rest == schedule + [a] + more;
    }
  }

  lemma SomeStep(chain: Chain, slotMin: nat, entries: seq<Row>, threads: nat, rows0: seq<Row>, schedule: seq<Action>)
    returns (a: Action)
    requires threads >= 1 && Run(chain, slotMin, Start(entries, threads, rows0), schedule).Some?
    requires !AnyCrashes(chain, WantedOf(slotMin, entries))
    requires !Complete(Run(chain, slotMin, Start(entries, threads, rows0), schedule).value)
    ensures Enabled(slotMin, Run(chain, slotMin, Start(entries, threads, rows0), schedule).value, a)
  {
    var p := Run(chain, slotMin, Start(entries, threads, rows0), schedule).value;
    if forall a :: !Enabled(slotMin, p, a) {
      EndsExactly(chain, slotMin, entries, threads, rows0, schedule);
      assert false;
    }
    a :| Enabled(slotMin, p, a);
  }

  /** Every possible schedule has a continuation that completes. */
  ghost predicate CanAlwaysComplete(chain: Chain, slotMin: nat, entries: seq<Row>, threads: nat, rows0: seq<Row>) {
    forall schedule | Run(chain, slotMin, Start(entries, threads, rows0), schedule).Some? ::
      exists rest :: Completes(chain, slotMin, entries, threads, rows0, schedule + rest)
  }

  /** Progress, exactly: every interleaving can be carried on to completion if and only if no wanted
      entry crashes. */
  lemma ProgressExactly(chain: Chain, slotMin: nat, entries: seq<Row>, threads: nat, rows0: seq<Row>)
    requires threads >= 1
    ensures CanAlwaysComplete(chain, slotMin, entries, threads, rows0)
            <==> !AnyCrashes(chain, WantedOf(slotMin, entries))
  {
    if CanAlwaysComplete(chain, slotMin, entries, threads, rows0) {
      assert Run(chain, slotMin, Start(entries, threads, rows0), []).Some?;
      var rest :| Completes(chain, slotMin, entries, threads, rows0, [] + rest);
      HandledWanted(chain, slotMin, entries, threads, rows0, [] + rest);
    }
    if !AnyCrashes(chain, WantedOf(slotMin, entries)) {
      forall schedule | Run(chain, slotMin, Start(entries, threads, rows0), schedule).Some?
        ensures exists rest :: Completes(chain, slotMin, entries, threads, rows0, schedule + rest)
      {
        var rest := EveryScheduleCanComplete(chain, slotMin, entries, threads, rows0, schedule);
      }
    }
  }

  // ---------------------------------------------------------------- the schedule does not matter

  /** Entries of one slot write the same columns. */
  ghost predicate SlotMatesAgree(chain: Chain, entries: seq<Row>) {
    forall a, b | a in entries && b in entries && a.slot == b.slot && Result(chain, a).Save?
      && Result(chain, b).Save? ::
      Result(chain, a) == Result(chain, b)
  }

  /** The last entry of the slot that writes anything. */
  function Written(chain: Chain, entries: seq<Row>, slot: nat): Option<CheckColumns> {
    if entries == [] then None
    else
      var last := entries[|entries| - 1];
      if last.slot == slot && Result(chain, last).Save? then Some(Result(chain, last).columns)
      else Written(chain, entries[..|entries| - 1], slot)
  }

  function Overwritten(r: Row, columns: Option<CheckColumns>): Row {
    if columns.Some? then r.(checks := columns.value) else r
  }

  /** Every row ends up with what was last written to its slot. */
  lemma {:induction false} SequentialRows(chain: Chain, rows: seq<Row>, entries: seq<Row>)
    ensures var end := Sequential(chain, rows, entries);
            && |end| == |rows|
            && forall i | 0 <= i < |rows| :: end[i] == Overwritten(rows[i], Written(chain, entries, rows[i].slot))
  {
    if entries != [] {
      SequentialRows(chain, rows, entries[..|entries| - 1]);
    }
  }

  ghost predicate Writes(chain: Chain, entries: seq<Row>, slot: nat, columns: CheckColumns) {
    exists e | e in entries :: e.slot == slot && Result(chain, e) == Save(columns)
  }

  lemma {:induction false} WrittenIsFromAnEntry(chain: Chain, entries: seq<Row>, slot: nat)
    ensures var w := Written(chain, entries, slot);
            && (w.Some? ==> Writes(chain, entries, slot, w.value))
            && (w == None ==> forall e | e in entries && e.slot == slot :: !Result(chain, e).Save?)
  {
    if entries != [] {
      var n := |entries| - 1;
      WrittenIsFromAnEntry(chain, entries[..n], slot);
      assert entries == entries[..n] + [entries[n]];
      assert entries[n] in entries;
    }
  }

  /** With agreeing slot-mates the table depends only on which entries were handled. */
  lemma AgreementGivesOneResult(chain: Chain, rows: seq<Row>, p: seq<Row>, q: seq<Row>)
    requires SlotMatesAgree(chain, p)
    requires multiset(p) == multiset(q)
    ensures Sequential(chain, rows, p) == Sequential(chain, rows, q)
  {
    SequentialRows(chain, rows, p);
    SequentialRows(chain, rows, q);
    AllSameMembers(p, q);
    forall slot: nat ensures Written(chain, p, slot) == Written(chain, q, slot) {
      WrittenIsFromAnEntry(chain, p, slot);
      WrittenIsFromAnEntry(chain, q, slot);
    }
  }

  /** Whatever the number of workers and the interleaving, a complete schedule leaves the table
      of a sequential pass in any order. */
  lemma ScheduleIndependent(chain: Chain, slotMin: nat, entries: seq<Row>, threads: nat, rows0: seq<Row>,
                            schedule: seq<Action>, order: seq<Row>)
    requires Completes(chain, slotMin, entries, threads, rows0, schedule)
    requires SlotMatesAgree(chain, WantedOf(slotMin, entries))
    requires multiset(order) == multiset(WantedOf(slotMin, entries))
    ensures RowsAfter(chain, slotMin, entries, threads, rows0, schedule) == Sequential(chain, rows0, order)
  {
    HandledWanted(chain, slotMin, entries, threads, rows0, schedule);
    AllSameMembers(order, WantedOf(slotMin, entries));
    var handled := Entries(Run(chain, slotMin, Start(entries, threads, rows0), schedule).value.handled);
    AgreementGivesOneResult(chain, rows0, order, handled);
  }

  /** Rows of a slot that agree on the columns the check reads agree on what it writes. */
  lemma AgreeingRowsAgree(chain: Chain, entries: seq<Row>)
    requires forall a, b | a in entries && b in entries && a.slot == b.slot :: InputOf(a) == InputOf(b)
    ensures SlotMatesAgree(chain, entries)
  {
  }
}
