/** The cursor-paged backfill of one relay (`cmd/core/data-api-backfill.go`).

    A relay is its whole history: what it holds at its t-th request, and what it answers to
    that request for every cursor (`None` is a fetch error). Nothing is assumed about how much
    the relay grows between two requests. */
module Backfill {
  import opened Wrappers
  import opened Database
  import opened Sequences

  const PAGE_LIMIT := 100

  datatype Payload = Payload(
    slot: nat,
    parentHash: string,
    blockHash: string,
    builderPubkey: string,
    proposerFeeRecipient: string,
    value: int,
    blockNumber: nat)

  /** `answer(t, c)` is the reply to request `t` with cursor `c`; cursor 0 is not sent. */
  datatype Relay = Relay(name: string, view: nat -> set<Payload>, answer: (nat, nat) -> Option<seq<Payload>>)

  predicate InRange(p: Payload, cursor: nat) {
    cursor == 0 || p.slot <= cursor
  }

  // ---------------------------------------------------------------- the relay contract

  /** Slot-descending, only payloads at or below the cursor, cut off at the page limit. */
  ghost predicate AnswersPage(view: set<Payload>, cursor: nat, page: seq<Payload>) {
    && |page| <= PAGE_LIMIT
    && (forall i | 0 <= i < |page| :: page[i] in view && InRange(page[i], cursor))
    && (forall i, j | 0 <= i < j < |page| :: page[i] != page[j] && page[i].slot >= page[j].slot)
    && (forall p | p in view && InRange(p, cursor) && p !in page ::
          |page| == PAGE_LIMIT && p.slot <= page[PAGE_LIMIT - 1].slot)
  }

  ghost predicate Sizeable(view: set<Payload>) {
    && (forall p | p in view :: p.slot >= 1)
    && (forall slot: nat :: |AtSlot(view, slot)| < PAGE_LIMIT)
  }

  ghost function AtSlot(view: set<Payload>, slot: nat): set<Payload> {
    set p | p in view && p.slot == slot
  }

  /** New payloads appear only above the current maximum slot. */
  ghost predicate GrowsTo(view: set<Payload>, later: set<Payload>) {
    && view <= later
    && forall p, q | p in later - view && q in view :: p.slot > q.slot
  }

  ghost predicate RelayContract(relay: Relay) {
    && (forall t: nat :: Sizeable(relay.view(t)))
    && (forall t: nat, u: nat | t <= u :: GrowsTo(relay.view(t), relay.view(u)))
    && (forall t: nat, c: nat | relay.answer(t, c).Some? :: AnswersPage(relay.view(t), c, relay.answer(t, c).value))
  }

  // ---------------------------------------------------------------- one loop iteration

  datatype Status = Running | FetchError | NoNewPayloads | ReachedLatest | ReachedMinSlot

  datatype RunState = RunState(
    clock: nat,
    cursor: nat,
    received: set<nat>,
    builders: set<string>,
    rows: seq<Row>,
    savedBuilders: set<string>,
    status: Status)

  function ToEntry(relay: string, p: Payload): Row {
    Row(relay, p.slot, p.parentHash, p.blockHash, p.builderPubkey, p.proposerFeeRecipient, p.value,
        EMPTY_CHECKS.(blockNumber := if p.blockNumber > 0 then Some(p.blockNumber) else None))
  }

  function Entries(relay: string, page: seq<Payload>): seq<Row> {
    seq(|page|, i requires 0 <= i < |page| => ToEntry(relay, page[i]))
  }

  function SlotsOf(page: seq<Payload>): set<nat> {
    set p | p in page :: p.slot
  }

  function BuildersOf(page: seq<Payload>): set<string> {
    set p | p in page :: p.builderPubkey
  }

  function LowerCursor(cursor: nat, page: seq<Payload>): (c: nat)
    ensures c == cursor || (exists i | 0 <= i < |page| :: page[i].slot == c)
  {
    if page == [] then cursor
    else
      var c := LowerCursor(cursor, page[..|page| - 1]);
      var slot := page[|page| - 1].slot;
      if c == 0 || c > slot then slot else c
  }

  function Step(relay: Relay, latest: nat, minSlot: nat, s: RunState): RunState {
    match relay.answer(s.clock, s.cursor)
    case None => s.(clock := s.clock + 1, status := FetchError)
    case Some(page) =>
      var cursor := LowerCursor(s.cursor, page);
      var builders := s.builders + BuildersOf(page);
      RunState(s.clock + 1, cursor, s.received + SlotsOf(page), builders,
               InsertAll(s.rows, Entries(relay.name, page)),
               s.savedBuilders + builders,
               if SlotsOf(page) <= s.received then NoNewPayloads
               else if cursor < latest then ReachedLatest
               else if cursor < minSlot then ReachedMinSlot
               else Running)
  }

  // ---------------------------------------------------------------- what every iteration keeps

  ghost predicate Stored(rows: seq<Row>, relay: string, p: Payload) {
    RowKey(relay, p.slot, p.parentHash, p.blockHash) in Keys(rows)
  }

  ghost predicate FromView(relay: string, view: set<Payload>, cursor: nat, k: RowKey) {
    exists p | p in view && InRange(p, cursor) :: k == RowKey(relay, p.slot, p.parentHash, p.blockHash)
  }

  /** The cursor is the lowest slot received, or still the initial one. */
  ghost predicate CursorInv(relay: Relay, t0: nat, c0: nat, s: RunState) {
    && s.clock >= t0
    && (s.received == {} ==> s.cursor == c0)
    && (s.received != {} ==> s.cursor >= 1 && s.cursor in s.received)
    && (forall slot | slot in s.received :: s.cursor <= slot)
    && (s.status == Running && s.received == {} ==> s.clock == t0)
  }

  ghost predicate ReceivedStored(relay: Relay, t0: nat, c0: nat, s: RunState) {
    forall slot | slot in s.received :: StoredSlot(relay.name, relay.view(t0), c0, s.rows, slot)
  }

  ghost predicate CoveredAbove(relay: Relay, t0: nat, c0: nat, s: RunState) {
    s.received != {} ==>
      forall p | p in relay.view(t0) && InRange(p, c0) && p.slot > s.cursor :: Stored(s.rows, relay.name, p)
  }

  ghost predicate KeyOrigins(relay: Relay, t0: nat, c0: nat, rows0: seq<Row>, s: RunState) {
    && rows0 <= s.rows
    && (s.received == {} ==> s.rows == rows0)
    && (forall k | k in Keys(s.rows) && k !in Keys(rows0) ::
          FromView(relay.name, relay.view(t0), c0, k) && k.slot >= s.cursor)
  }

  /** A run over `rows0` that began at request `t0` with cursor `c0`. */
  ghost predicate Inv(relay: Relay, t0: nat, c0: nat, rows0: seq<Row>, s: RunState) {
    && CursorInv(relay, t0, c0, s)
    && ReceivedStored(relay, t0, c0, s)
    && CoveredAbove(relay, t0, c0, s)
    && KeyOrigins(relay, t0, c0, rows0, s)
  }

  ghost predicate StoredSlot(relay: string, view: set<Payload>, cursor: nat, rows: seq<Row>, slot: nat) {
    exists p | p in view && InRange(p, cursor) :: p.slot == slot && Stored(rows, relay, p)
  }

  ghost function SlotsIn(view: set<Payload>): set<nat> {
    set p | p in view :: p.slot
  }

  lemma SlotsSplit(page: seq<Payload>)
    requires page != []
    ensures SlotsOf(page) == SlotsOf(page[..|page| - 1]) + {page[|page| - 1].slot}
  {
    assert page == page[..|page| - 1] + [page[|page| - 1]];
  }

  lemma {:induction false} LowerCursorBounds(cursor: nat, page: seq<Payload>)
    requires forall i | 0 <= i < |page| :: page[i].slot >= 1 && InRange(page[i], cursor)
    ensures if page == [] then LowerCursor(cursor, page) == cursor else LowerCursor(cursor, page) in SlotsOf(page)
    ensures forall slot | slot in SlotsOf(page) :: LowerCursor(cursor, page) <= slot
  {
    if page != [] {
      LowerCursorBounds(cursor, page[..|page| - 1]);
      SlotsSplit(page);
    }
  }

  lemma LowerCursorIsMinimum(cursor: nat, page: seq<Payload>)
    requires forall i | 0 <= i < |page| :: page[i].slot >= 1 && InRange(page[i], cursor)
    ensures page == [] ==> LowerCursor(cursor, page) == cursor
    ensures page != [] ==> LowerCursor(cursor, page) in SlotsOf(page)
    ensures forall p | p in page :: LowerCursor(cursor, page) <= p.slot
  {
    LowerCursorBounds(cursor, page);
    forall p | p in page ensures LowerCursor(cursor, page) <= p.slot {
      assert p.slot in SlotsOf(page);
    }
  }

  lemma EntryKeys(relay: string, page: seq<Payload>, rows: seq<Row>)
    ensures forall k :: k in Keys(InsertAll(rows, Entries(relay, page))) <==>
              k in Keys(rows) || (exists p | p in page :: k == RowKey(relay, p.slot, p.parentHash, p.blockHash))
  {
    var entries := Entries(relay, page);
    InsertAllKeys(rows, entries);
    forall k | exists p | p in page :: k == RowKey(relay, p.slot, p.parentHash, p.blockHash)
      ensures k in Keys(entries)
    {
      var i :| 0 <= i < |page| && k == RowKey(relay, page[i].slot, page[i].parentHash, page[i].blockHash);
      assert entries[i] == ToEntry(relay, page[i]) && entries[i] in entries;
    }
    forall k | k in Keys(entries)
      ensures exists p | p in page :: k == RowKey(relay, p.slot, p.parentHash, p.blockHash)
    {
      var i :| 0 <= i < |entries| && KeyOf(entries[i]) == k;
      assert page[i] in page;
    }
  }

  /** However much the relay has grown meanwhile, a page is taken from what it held when the
      run began. */
  lemma PageFromFirstView(relay: Relay, t0: nat, c0: nat, rows0: seq<Row>, s: RunState, page: seq<Payload>)
    requires RelayContract(relay) && Inv(relay, t0, c0, rows0, s) && s.status == Running
    requires AnswersPage(relay.view(s.clock), s.cursor, page)
    ensures AnswersPage(relay.view(t0), s.cursor, page)
    ensures forall i | 0 <= i < |page| :: page[i].slot >= 1 && InRange(page[i], c0)
  {
    var view, later := relay.view(t0), relay.view(s.clock);
    assert GrowsTo(view, later) && Sizeable(later) && Sizeable(view);
    if s.received != {} {
      assert StoredSlot(relay.name, view, c0, s.rows, s.cursor);
      var q :| q in view && InRange(q, c0) && q.slot == s.cursor;
      forall p | p in later && InRange(p, s.cursor) ensures p in view {}
    }
  }

  /** Every payload above the new cursor is on the page, or was above the old cursor. */
  lemma PageCovers(view: set<Payload>, cursor: nat, page: seq<Payload>, p: Payload)
    requires Sizeable(view) && AnswersPage(view, cursor, page)
    requires p in view && InRange(p, cursor) && p.slot > LowerCursor(cursor, page)
    ensures p in page
  {
    LowerCursorIsMinimum(cursor, page);
  }

  lemma PageStores(relay: Relay, page: seq<Payload>, rows: seq<Row>)
    ensures forall p | p in page :: Stored(InsertAll(rows, Entries(relay.name, page)), relay.name, p)
    ensures forall p | Stored(rows, relay.name, p) :: Stored(InsertAll(rows, Entries(relay.name, page)), relay.name, p)
    ensures rows <= InsertAll(rows, Entries(relay.name, page))
  {
    EntryKeys(relay.name, page, rows);
    InsertAllKeys(rows, Entries(relay.name, page));
  }

  /** What the page handling of one iteration works on. */
  ghost predicate PageOk(relay: Relay, t0: nat, c0: nat, s: RunState, page: seq<Payload>) {
    && Sizeable(relay.view(t0))
    && relay.answer(s.clock, s.cursor) == Some(page)
    && AnswersPage(relay.view(t0), s.cursor, page)
    && forall i | 0 <= i < |page| :: page[i].slot >= 1 && InRange(page[i], c0)
  }

  lemma StepCursor(relay: Relay, latest: nat, minSlot: nat, t0: nat, c0: nat, s: RunState, page: seq<Payload>)
    requires CursorInv(relay, t0, c0, s) && PageOk(relay, t0, c0, s, page)
    ensures CursorInv(relay, t0, c0, Step(relay, latest, minSlot, s))
  {
    LowerCursorIsMinimum(s.cursor, page);
    if page == [] {
      assert SlotsOf(page) == {};
    } else {
      assert page[0] in page;
    }
  }

  lemma StepReceived(relay: Relay, latest: nat, minSlot: nat, t0: nat, c0: nat, s: RunState, page: seq<Payload>)
    requires ReceivedStored(relay, t0, c0, s) && PageOk(relay, t0, c0, s, page)
    ensures ReceivedStored(relay, t0, c0, Step(relay, latest, minSlot, s))
  {
    PageStores(relay, page, s.rows);
    var s' := Step(relay, latest, minSlot, s);
    forall slot | slot in s'.received ensures StoredSlot(relay.name, relay.view(t0), c0, s'.rows, slot) {
      if slot in s.received {
        assert StoredSlot(relay.name, relay.view(t0), c0, s.rows, slot);
      } else {
        var p :| p in page && p.slot == slot;
        assert Stored(s'.rows, relay.name, p);
      }
    }
  }

  lemma StepCovered(relay: Relay, latest: nat, minSlot: nat, t0: nat, c0: nat, s: RunState, page: seq<Payload>)
    requires CursorInv(relay, t0, c0, s) && CoveredAbove(relay, t0, c0, s) && PageOk(relay, t0, c0, s, page)
    ensures CoveredAbove(relay, t0, c0, Step(relay, latest, minSlot, s))
  {
    PageStores(relay, page, s.rows);
    var s' := Step(relay, latest, minSlot, s);
    if s'.received != {} {
      forall p | p in relay.view(t0) && InRange(p, c0) && p.slot > s'.cursor
        ensures Stored(s'.rows, relay.name, p)
      {
        if s.received == {} || p.slot <= s.cursor {
          PageCovers(relay.view(t0), s.cursor, page, p);
        }
      }
    }
  }

  lemma StepOrigins(relay: Relay, latest: nat, minSlot: nat, t0: nat, c0: nat, rows0: seq<Row>, s: RunState,
                    page: seq<Payload>)
    requires CursorInv(relay, t0, c0, s) && KeyOrigins(relay, t0, c0, rows0, s) && PageOk(relay, t0, c0, s, page)
    ensures KeyOrigins(relay, t0, c0, rows0, Step(relay, latest, minSlot, s))
  {
    var s' := Step(relay, latest, minSlot, s);
    EntryKeys(relay.name, page, s.rows);
    InsertAllKeys(s.rows, Entries(relay.name, page));
    LowerCursorIsMinimum(s.cursor, page);
    StepCursor(relay, latest, minSlot, t0, c0, s, page);
    if page == [] {
      assert Entries(relay.name, page) == [];
    } else {
      assert page[0].slot in SlotsOf(page);
      forall k | k in Keys(s'.rows) && k !in Keys(rows0)
        ensures FromView(relay.name, relay.view(t0), c0, k) && k.slot >= s'.cursor
      {
        if k in Keys(s.rows) {
          assert s.cursor in s'.received;
        } else {
          var p :| p in page && k == RowKey(relay.name, p.slot, p.parentHash, p.blockHash);
        }
      }
    }
  }

  lemma StepKeepsInv(relay: Relay, latest: nat, minSlot: nat, t0: nat, c0: nat, rows0: seq<Row>, s: RunState)
    requires RelayContract(relay) && Inv(relay, t0, c0, rows0, s) && s.status == Running
    ensures Inv(relay, t0, c0, rows0, Step(relay, latest, minSlot, s))
  {
    var answer := relay.answer(s.clock, s.cursor);
    if answer.Some? {
      var page := answer.value;
      PageFromFirstView(relay, t0, c0, rows0, s, page);
      assert Sizeable(relay.view(t0));
      StepCursor(relay, latest, minSlot, t0, c0, s, page);
      StepReceived(relay, latest, minSlot, t0, c0, s, page);
      StepCovered(relay, latest, minSlot, t0, c0, s, page);
      StepOrigins(relay, latest, minSlot, t0, c0, rows0, s, page);
    }
  }

  // ---------------------------------------------------------------- termination and the stop conditions

  lemma SlotsReceivedBounded(relay: Relay, t0: nat, c0: nat, s: RunState)
    requires ReceivedStored(relay, t0, c0, s)
    ensures s.received <= SlotsIn(relay.view(t0))
  {
    forall slot | slot in s.received ensures slot in SlotsIn(relay.view(t0)) {
      assert StoredSlot(relay.name, relay.view(t0), c0, s.rows, slot);
    }
  }

  /** The slots held when the run began and not yet received: what every further request
      uses up, no matter how the relay grows. */
  ghost function Remaining(relay: Relay, t0: nat, s: RunState): nat {
    |SlotsIn(relay.view(t0)) - s.received|
  }

  lemma StepProgress(relay: Relay, latest: nat, minSlot: nat, t0: nat, c0: nat, rows0: seq<Row>, s: RunState)
    requires RelayContract(relay) && Inv(relay, t0, c0, rows0, s) && s.status == Running
    requires Step(relay, latest, minSlot, s).status == Running
    ensures Remaining(relay, t0, Step(relay, latest, minSlot, s)) < Remaining(relay, t0, s)
  {
    StepKeepsInv(relay, latest, minSlot, t0, c0, rows0, s);
    SlotsReceivedBounded(relay, t0, c0, Step(relay, latest, minSlot, s));
    GrowthLeavesLess(SlotsIn(relay.view(t0)), s.received, Step(relay, latest, minSlot, s).received);
  }

  lemma GrowthLeavesLess(all: set<nat>, before: set<nat>, after: set<nat>)
    requires before < after <= all
    ensures |all - after| < |all - before|
  {
    var slot :| slot in after && slot !in before;
    SubsetSize(all - after, all - before - {slot});
  }

  lemma {:induction false} SubsetSize<T>(a: set<T>, b: set<T>)
    requires a <= b
    ensures |a| <= |b|
  {
    if a != {} {
      var x :| x in a;
      SubsetSize(a - {x}, b - {x});
    }
  }

  lemma {:induction false} DistinctSize<T>(page: seq<T>, all: set<T>)
    requires forall i, j | 0 <= i < j < |page| :: page[i] != page[j]
    requires forall i | 0 <= i < |page| :: page[i] in all
    ensures |page| <= |all|
  {
    if page != [] {
      var n := |page| - 1;
      DistinctSize(page[..n], all - {page[n]});
    }
  }

  lemma OneSlotPageIsShort(view: set<Payload>, slot: nat, page: seq<Payload>)
    requires Sizeable(view)
    requires forall i, j | 0 <= i < j < |page| :: page[i] != page[j]
    requires forall i | 0 <= i < |page| :: page[i] in view && page[i].slot == slot
    ensures |page| < PAGE_LIMIT
  {
    DistinctSize(page, AtSlot(view, slot));
  }

  /** A page that brings no new slot proves that nothing is left: a full page of one slot
      would hold `PAGE_LIMIT` payloads of it. */
  lemma NothingNewMeansAll(view: set<Payload>, cursor: nat, received: set<nat>, page: seq<Payload>, p: Payload)
    requires Sizeable(view) && AnswersPage(view, cursor, page)
    requires SlotsOf(page) <= received && forall slot | slot in received :: cursor <= slot
    requires received == {} || cursor >= 1
    requires p in view && InRange(p, cursor)
    ensures p in page
  {
    if p !in page {
      forall i | 0 <= i < |page| ensures page[i].slot == cursor {
        assert page[i].slot in SlotsOf(page);
      }
      OneSlotPageIsShort(view, cursor, page);
      assert false;
    }
  }

  lemma NoNewPayloadsMeansAll(relay: Relay, latest: nat, minSlot: nat, t0: nat, c0: nat, s: RunState,
                              page: seq<Payload>, p: Payload)
    requires CursorInv(relay, t0, c0, s) && CoveredAbove(relay, t0, c0, s) && PageOk(relay, t0, c0, s, page)
    requires Step(relay, latest, minSlot, s).status == NoNewPayloads
    requires p in relay.view(t0) && InRange(p, c0)
    ensures Stored(Step(relay, latest, minSlot, s).rows, relay.name, p)
  {
    PageStores(relay, page, s.rows);
    if InRange(p, s.cursor) {
      NothingNewMeansAll(relay.view(t0), s.cursor, s.received, page, p);
    }
  }

  ghost predicate Stopped(s: RunState) {
    s.status in {NoNewPayloads, ReachedLatest, ReachedMinSlot}
  }

  ghost predicate Complete(relay: Relay, latest: nat, minSlot: nat, t0: nat, c0: nat, rows: seq<Row>) {
    forall p | p in relay.view(t0) && InRange(p, c0) && p.slot >= latest && p.slot >= minSlot ::
      Stored(rows, relay.name, p)
  }

  lemma NoNewPayloadsIsComplete(relay: Relay, latest: nat, minSlot: nat, t0: nat, c0: nat, rows0: seq<Row>, s: RunState)
    requires RelayContract(relay) && Inv(relay, t0, c0, rows0, s) && s.status == Running
    requires Step(relay, latest, minSlot, s).status == NoNewPayloads
    ensures Complete(relay, latest, minSlot, t0, c0, Step(relay, latest, minSlot, s).rows)
  {
    var page := relay.answer(s.clock, s.cursor).value;
    PageFromFirstView(relay, t0, c0, rows0, s, page);
    assert PageOk(relay, t0, c0, s, page);
    forall p | p in relay.view(t0) && InRange(p, c0)
      ensures Stored(Step(relay, latest, minSlot, s).rows, relay.name, p)
    {
      NoNewPayloadsMeansAll(relay, latest, minSlot, t0, c0, s, page, p);
    }
  }

  lemma LowCursorMeansCovered(relay: Relay, latest: nat, minSlot: nat, s: RunState)
    requires Step(relay, latest, minSlot, s).status in {ReachedLatest, ReachedMinSlot}
    requires s.status == Running
    ensures var s' := Step(relay, latest, minSlot, s); s'.received != {} && (s'.cursor < latest || s'.cursor < minSlot)
  {
  }

  lemma LowCursorIsComplete(relay: Relay, latest: nat, minSlot: nat, t0: nat, c0: nat, s: RunState)
    requires CoveredAbove(relay, t0, c0, s) && s.received != {}
    requires s.cursor < latest || s.cursor < minSlot
    ensures Complete(relay, latest, minSlot, t0, c0, s.rows)
  {
  }

  lemma StopIsComplete(relay: Relay, latest: nat, minSlot: nat, t0: nat, c0: nat, rows0: seq<Row>, s: RunState)
    requires RelayContract(relay) && Inv(relay, t0, c0, rows0, s) && s.status == Running
    requires Stopped(Step(relay, latest, minSlot, s))
    ensures Complete(relay, latest, minSlot, t0, c0, Step(relay, latest, minSlot, s).rows)
  {
    if Step(relay, latest, minSlot, s).status == NoNewPayloads {
      NoNewPayloadsIsComplete(relay, latest, minSlot, t0, c0, rows0, s);
    } else {
      StepKeepsInv(relay, latest, minSlot, t0, c0, rows0, s);
      LowCursorMeansCovered(relay, latest, minSlot, s);
      LowCursorIsComplete(relay, latest, minSlot, t0, c0, Step(relay, latest, minSlot, s));
    }
  }

  // ---------------------------------------------------------------- whole runs

  function Start(clock: nat, cursor: nat, rows: seq<Row>, savedBuilders: set<string>): RunState {
    RunState(clock, cursor, {}, {}, rows, savedBuilders, Running)
  }

  ghost function RunToEnd(relay: Relay, latest: nat, minSlot: nat, t0: nat, c0: nat, rows0: seq<Row>,
                          s: RunState): RunState
    requires RelayContract(relay) && Inv(relay, t0, c0, rows0, s)
    decreases if s.status == Running then 1 + Remaining(relay, t0, s) else 0
  {
    if s.status != Running then s
    else
      var s' := Step(relay, latest, minSlot, s);
      StepKeepsInv(relay, latest, minSlot, t0, c0, rows0, s);
      if s'.status == Running then
        StepProgress(relay, latest, minSlot, t0, c0, rows0, s);
        RunToEnd(relay, latest, minSlot, t0, c0, rows0, s')
      else s'
  }

  /** The whole run over `rows0`, beginning at request `t0`. */
  ghost function BackfillRun(relay: Relay, minSlot: nat, t0: nat, c0: nat, rows0: seq<Row>,
                             savedBuilders: set<string>): RunState
    requires RelayContract(relay)
  {
    RunToEnd(relay, LatestSlot(rows0, relay.name), minSlot, t0, c0, rows0, Start(t0, c0, rows0, savedBuilders))
  }

  // ---------------------------------------------------------------- what is stored

  /** The row has all columns of the payload, and nothing that only the payment check can know. */
  ghost predicate Records(r: Row, relay: string, p: Payload) {
    && r.relay == relay && r.slot == p.slot && r.parentHash == p.parentHash && r.blockHash == p.blockHash
    && r.builderPubkey == p.builderPubkey && r.proposerFeeRecipient == p.proposerFeeRecipient
    && r.valueClaimedWei == p.value
    && (r.checks.blockNumber.Some? <==> p.blockNumber > 0)
    && (r.checks.blockNumber.Some? ==> r.checks.blockNumber.value == p.blockNumber)
    && NothingChecked(r.checks)
  }

  ghost predicate NothingChecked(c: CheckColumns) {
    && c.extraData == "" && c.slotMissed == None && c.foundOnChain == None
    && c.valueCheckOk == None && c.valueCheckMethod == None
    && c.valueDeliveredWei == None && c.valueDeliveredDiffWei == None && c.coinbaseDiffWei == None
    && c.blockCoinbaseAddr == None && c.blockCoinbaseIsProposer == None
    && c.numBlobTxs == None && c.numBlobs == None && c.blockTimestamp == None
  }

  /** The row records one of the payloads. */
  ghost predicate RecordsOne(payloads: seq<Payload>, relay: string, r: Row) {
    exists p | p in payloads :: Records(r, relay, p)
  }

  /** All payloads a run receives from state `s` on, in order. */
  ghost function Replies(relay: Relay, latest: nat, minSlot: nat, t0: nat, c0: nat, rows0: seq<Row>,
                         s: RunState): seq<Payload>
    requires RelayContract(relay) && Inv(relay, t0, c0, rows0, s)
    decreases if s.status == Running then 1 + Remaining(relay, t0, s) else 0
  {
    if s.status != Running || relay.answer(s.clock, s.cursor).None? then []
    else
      var s' := Step(relay, latest, minSlot, s);
      StepKeepsInv(relay, latest, minSlot, t0, c0, rows0, s);
      relay.answer(s.clock, s.cursor).value +
      if s'.status != Running then []
      else
        StepProgress(relay, latest, minSlot, t0, c0, rows0, s);
        Replies(relay, latest, minSlot, t0, c0, rows0, s')
  }

  lemma EntriesAppend(relay: string, a: seq<Payload>, b: seq<Payload>)
    ensures Entries(relay, a + b) == Entries(relay, a) + Entries(relay, b)
    ensures BuildersOf(a + b) == BuildersOf(a) + BuildersOf(b)
  {
    var all := a + b;
    forall i | 0 <= i < |a| ensures all[i] == a[i] {}
    forall i | 0 <= i < |b| ensures all[|a| + i] == b[i] {}
    forall x | x in BuildersOf(a) + BuildersOf(b) ensures x in BuildersOf(all) {
      var p :| (p in a || p in b) && p.builderPubkey == x;
      assert p in all;
    }
  }

  /** From a running state whose request is answered: the page, and then what the next state leads to. */
  lemma RepliesUnfold(relay: Relay, latest: nat, minSlot: nat, t0: nat, c0: nat, rows0: seq<Row>, s: RunState)
    requires RelayContract(relay) && Inv(relay, t0, c0, rows0, s) && s.status == Running
    requires relay.answer(s.clock, s.cursor).Some?
    ensures var s' := Step(relay, latest, minSlot, s);
            && Inv(relay, t0, c0, rows0, s')
            && RunToEnd(relay, latest, minSlot, t0, c0, rows0, s)
               == RunToEnd(relay, latest, minSlot, t0, c0, rows0, s')
            && Replies(relay, latest, minSlot, t0, c0, rows0, s)
               == relay.answer(s.clock, s.cursor).value + Replies(relay, latest, minSlot, t0, c0, rows0, s')
            && (s'.status == Running ==> Remaining(relay, t0, s') < Remaining(relay, t0, s))
  {
    StepKeepsInv(relay, latest, minSlot, t0, c0, rows0, s);
    if Step(relay, latest, minSlot, s).status == Running {
      StepProgress(relay, latest, minSlot, t0, c0, rows0, s);
    }
  }

  /** The table of a run is that of inserting everything it receives, in order. */
  lemma {:induction false} RunStoresReplies(relay: Relay, latest: nat, minSlot: nat, t0: nat, c0: nat, rows0: seq<Row>,
                                            s: RunState)
    requires RelayContract(relay) && Inv(relay, t0, c0, rows0, s)
    ensures RunToEnd(relay, latest, minSlot, t0, c0, rows0, s).rows ==
              InsertAll(s.rows, Entries(relay.name, Replies(relay, latest, minSlot, t0, c0, rows0, s)))
    decreases if s.status == Running then 1 + Remaining(relay, t0, s) else 0
  {
    if s.status == Running && relay.answer(s.clock, s.cursor).Some? {
      var s', page := Step(relay, latest, minSlot, s), relay.answer(s.clock, s.cursor).value;
      RepliesUnfold(relay, latest, minSlot, t0, c0, rows0, s);
      RunStoresReplies(relay, latest, minSlot, t0, c0, rows0, s');
      var rest := Replies(relay, latest, minSlot, t0, c0, rows0, s');
      EntriesAppend(relay.name, page, rest);
      InsertAllSplit(s.rows, Entries(relay.name, page), Entries(relay.name, rest));
    } else {
      assert Entries(relay.name, []) == [];
    }
  }

  lemma StepSavesBuilders(relay: Relay, latest: nat, minSlot: nat, s: RunState)
    requires s.builders <= s.savedBuilders && relay.answer(s.clock, s.cursor).Some?
    ensures var s' := Step(relay, latest, minSlot, s);
            && s'.builders <= s'.savedBuilders
            && s'.savedBuilders == s.savedBuilders + BuildersOf(relay.answer(s.clock, s.cursor).value)
  {
  }

  lemma UnionRegroups(a: set<string>, b: set<string>, c: set<string>)
    ensures (a + b) + c == a + (b + c)
  {
  }

  /** The builders saved are those of the payloads received. */
  lemma {:induction false} RunSavesBuilders(relay: Relay, latest: nat, minSlot: nat, t0: nat, c0: nat, rows0: seq<Row>,
                                            s: RunState)
    requires RelayContract(relay) && Inv(relay, t0, c0, rows0, s) && s.builders <= s.savedBuilders
    ensures RunToEnd(relay, latest, minSlot, t0, c0, rows0, s).savedBuilders ==
              s.savedBuilders + BuildersOf(Replies(relay, latest, minSlot, t0, c0, rows0, s))
    decreases if s.status == Running then 1 + Remaining(relay, t0, s) else 0
  {
    if s.status == Running && relay.answer(s.clock, s.cursor).Some? {
      var s', page := Step(relay, latest, minSlot, s), relay.answer(s.clock, s.cursor).value;
      RepliesUnfold(relay, latest, minSlot, t0, c0, rows0, s);
      StepSavesBuilders(relay, latest, minSlot, s);
      RunSavesBuilders(relay, latest, minSlot, t0, c0, rows0, s');
      var rest := Replies(relay, latest, minSlot, t0, c0, rows0, s');
      EntriesAppend(relay.name, page, rest);
      UnionRegroups(s.savedBuilders, BuildersOf(page), BuildersOf(rest));
    } else {
      assert BuildersOf([]) == {};
    }
  }

  /** However the relay grows, everything received is of its first view. */
  lemma {:induction false} RepliesAreOld(relay: Relay, latest: nat, minSlot: nat, t0: nat, c0: nat, rows0: seq<Row>,
                                         s: RunState)
    requires RelayContract(relay) && Inv(relay, t0, c0, rows0, s)
    ensures forall p | p in Replies(relay, latest, minSlot, t0, c0, rows0, s) :: p in relay.view(t0) && InRange(p, c0)
    decreases if s.status == Running then 1 + Remaining(relay, t0, s) else 0
  {
    if s.status == Running && relay.answer(s.clock, s.cursor).Some? {
      PageFromFirstView(relay, t0, c0, rows0, s, relay.answer(s.clock, s.cursor).value);
      RepliesUnfold(relay, latest, minSlot, t0, c0, rows0, s);
      RepliesAreOld(relay, latest, minSlot, t0, c0, rows0, Step(relay, latest, minSlot, s));
    }
  }

  lemma {:induction false} FirstEntriesAreEntries(rows: seq<Row>, entries: seq<Row>)
    ensures forall r | r in FirstEntries(rows, entries) :: r in entries
  {
    if entries != [] {
      FirstEntriesAreEntries(rows, entries[..|entries| - 1]);
    }
  }

  lemma NewRowsRecord(relay: string, rows0: seq<Row>, payloads: seq<Payload>)
    ensures var rows := InsertAll(rows0, Entries(relay, payloads));
            && rows0 <= rows
            && forall i | |rows0| <= i < |rows| :: RecordsOne(payloads, relay, rows[i])
  {
    var entries := Entries(relay, payloads);
    var rows := InsertAll(rows0, entries);
    InsertAllFirstWins(rows0, entries);
    FirstEntriesAreEntries(rows0, entries);
    forall i | |rows0| <= i < |rows| ensures RecordsOne(payloads, relay, rows[i]) {
      assert rows[i] == FirstEntries(rows0, entries)[i - |rows0|];
      assert rows[i] in FirstEntries(rows0, entries);
      var k :| 0 <= k < |entries| && entries[k] == rows[i];
      assert payloads[k] in payloads && Records(rows[i], relay, payloads[k]);
    }
  }

  lemma {:induction false} RunToEndResult(relay: Relay, latest: nat, minSlot: nat, t0: nat, c0: nat, rows0: seq<Row>,
                                          s: RunState)
    requires RelayContract(relay) && Inv(relay, t0, c0, rows0, s) && s.status == Running
    ensures var end := RunToEnd(relay, latest, minSlot, t0, c0, rows0, s);
            && end.status != Running && end.clock > s.clock
            && Inv(relay, t0, c0, rows0, end)
            && (Stopped(end) ==> Complete(relay, latest, minSlot, t0, c0, end.rows))
    decreases Remaining(relay, t0, s)
  {
    var s' := Step(relay, latest, minSlot, s);
    StepKeepsInv(relay, latest, minSlot, t0, c0, rows0, s);
    if s'.status == Running {
      StepProgress(relay, latest, minSlot, t0, c0, rows0, s);
      RunToEndResult(relay, latest, minSlot, t0, c0, rows0, s');
    } else if Stopped(s') {
      StopIsComplete(relay, latest, minSlot, t0, c0, rows0, s);
    }
  }

  /** The payloads that the whole run receives. */
  ghost function ReceivedIn(relay: Relay, minSlot: nat, t0: nat, c0: nat, rows0: seq<Row>,
                            savedBuilders: set<string>): seq<Payload>
    requires RelayContract(relay)
  {
    Replies(relay, LatestSlot(rows0, relay.name), minSlot, t0, c0, rows0, Start(t0, c0, rows0, savedBuilders))
  }

  /** What is in the tables after a run: every payload received is in the first view and stored, and its
      builder is saved; every new row records one in all columns; and no other builder is saved. */
  ghost predicate StoresReceived(relay: Relay, t0: nat, c0: nat, rows0: seq<Row>, saved0: set<string>,
                                 received: seq<Payload>, rows: seq<Row>, saved: set<string>) {
    && (forall p | p in received :: p in relay.view(t0) && InRange(p, c0) && Stored(rows, relay.name, p))
    && rows0 <= rows
    && (forall i | |rows0| <= i < |rows| :: RecordsOne(received, relay.name, rows[i]))
    && saved == saved0 + set p | p in received :: p.builderPubkey
  }

  lemma RunStoresReceived(relay: Relay, minSlot: nat, t0: nat, c0: nat, rows0: seq<Row>, savedBuilders: set<string>)
    requires RelayContract(relay)
    ensures var end := BackfillRun(relay, minSlot, t0, c0, rows0, savedBuilders);
            StoresReceived(relay, t0, c0, rows0, savedBuilders,
                           ReceivedIn(relay, minSlot, t0, c0, rows0, savedBuilders), end.rows, end.savedBuilders)
  {
    var latest, start := LatestSlot(rows0, relay.name), Start(t0, c0, rows0, savedBuilders);
    var received := ReceivedIn(relay, minSlot, t0, c0, rows0, savedBuilders);
    RunStoresReplies(relay, latest, minSlot, t0, c0, rows0, start);
    RunSavesBuilders(relay, latest, minSlot, t0, c0, rows0, start);
    RepliesAreOld(relay, latest, minSlot, t0, c0, rows0, start);
    PageStores(relay, received, rows0);
    NewRowsRecord(relay.name, rows0, received);
  }

  /** Completeness: a run always ends, and unless a request failed every payload the relay
      held when the run began, at or below the initial cursor and not older than both the
      latest stored slot and the minimum slot, is in the table. Whatever way it ends, old
      rows are untouched, every new row records in all columns a payload of this relay's first
      view, and the builders saved are those of the payloads received, all from that view. */
  lemma BackfillIsComplete(relay: Relay, minSlot: nat, t0: nat, c0: nat, rows0: seq<Row>, savedBuilders: set<string>)
    requires RelayContract(relay)
    ensures var end := BackfillRun(relay, minSlot, t0, c0, rows0, savedBuilders);
            && (Stopped(end) || end.status == FetchError)
            && (Stopped(end) ==> Complete(relay, LatestSlot(rows0, relay.name), minSlot, t0, c0, end.rows))
            && rows0 <= end.rows
            && (forall k | k in Keys(end.rows) && k !in Keys(rows0) :: FromView(relay.name, relay.view(t0), c0, k))
            && end.clock > t0
    ensures var end := BackfillRun(relay, minSlot, t0, c0, rows0, savedBuilders);
            StoresReceived(relay, t0, c0, rows0, savedBuilders,
                           ReceivedIn(relay, minSlot, t0, c0, rows0, savedBuilders), end.rows, end.savedBuilders)
  {
    RunToEndResult(relay, LatestSlot(rows0, relay.name), minSlot, t0, c0, rows0, Start(t0, c0, rows0, savedBuilders));
    RunStoresReceived(relay, minSlot, t0, c0, rows0, savedBuilders);
  }

  // ---------------------------------------------------------------- how many requests

  /** The slots that a run is to fetch: those of the first view within the initial cursor and both bounds. */
  ghost function SlotsToFetch(relay: Relay, latest: nat, minSlot: nat, t0: nat, c0: nat): set<nat> {
    set p | p in relay.view(t0) && InRange(p, c0) && p.slot >= latest && p.slot >= minSlot :: p.slot
  }

  lemma GoingOn(relay: Relay, latest: nat, minSlot: nat, s: RunState) returns (slot: nat)
    requires s.status == Running && Step(relay, latest, minSlot, s).status == Running
    ensures var s' := Step(relay, latest, minSlot, s);
            && slot in s'.received && slot !in s.received && s.received <= s'.received
            && s'.cursor >= latest && s'.cursor >= minSlot
  {
    var page := relay.answer(s.clock, s.cursor).value;
    slot :| slot in SlotsOf(page) && slot !in s.received;
  }

  /** A run goes on only after a page with a new slot, and that is one it is to fetch. */
  lemma GoesOnForMore(relay: Relay, latest: nat, minSlot: nat, t0: nat, c0: nat, s: RunState, s': RunState, slot: nat)
    requires CursorInv(relay, t0, c0, s') && ReceivedStored(relay, t0, c0, s') && s.received <= s'.received
    requires slot in s'.received && slot !in s.received && s'.cursor >= latest && s'.cursor >= minSlot
    ensures var wanted := SlotsToFetch(relay, latest, minSlot, t0, c0);
            |wanted - s'.received| < |wanted - s.received|
  {
    var wanted := SlotsToFetch(relay, latest, minSlot, t0, c0);
    assert StoredSlot(relay.name, relay.view(t0), c0, s'.rows, slot);
    assert slot in wanted - s.received;
    SubsetSize(wanted - s'.received, wanted - s.received - {slot});
  }

  lemma {:induction false} RequestsFrom(relay: Relay, latest: nat, minSlot: nat, t0: nat, c0: nat, rows0: seq<Row>,
                                        s: RunState)
    requires RelayContract(relay) && Inv(relay, t0, c0, rows0, s) && s.status == Running
    ensures RunToEnd(relay, latest, minSlot, t0, c0, rows0, s).clock
            <= s.clock + 1 + |SlotsToFetch(relay, latest, minSlot, t0, c0) - s.received|
    decreases Remaining(relay, t0, s)
  {
    var s' := Step(relay, latest, minSlot, s);
    StepKeepsInv(relay, latest, minSlot, t0, c0, rows0, s);
    if s'.status == Running {
      StepProgress(relay, latest, minSlot, t0, c0, rows0, s);
      var slot := GoingOn(relay, latest, minSlot, s);
      GoesOnForMore(relay, latest, minSlot, t0, c0, s, s', slot);
      RequestsFrom(relay, latest, minSlot, t0, c0, rows0, s');
    }
  }

  /** A run stops in time: it makes at most one request more than there are slots to fetch. */
  lemma RequestsAreBounded(relay: Relay, minSlot: nat, t0: nat, c0: nat, rows0: seq<Row>, savedBuilders: set<string>)
    requires RelayContract(relay)
    ensures BackfillRun(relay, minSlot, t0, c0, rows0, savedBuilders).clock
            <= t0 + 1 + |SlotsToFetch(relay, LatestSlot(rows0, relay.name), minSlot, t0, c0)|
  {
    var latest, start := LatestSlot(rows0, relay.name), Start(t0, c0, rows0, savedBuilders);
    RequestsFrom(relay, latest, minSlot, t0, c0, rows0, start);
    var wanted := SlotsToFetch(relay, latest, minSlot, t0, c0);
    assert wanted - start.received == wanted;
  }

  // ---------------------------------------------------------------- the loop

  lemma PageSplit(page: seq<Payload>, n: nat, cursor: nat)
    requires n < |page|
    ensures SlotsOf(page[..n + 1]) == SlotsOf(page[..n]) + {page[n].slot}
    ensures BuildersOf(page[..n + 1]) == BuildersOf(page[..n]) + {page[n].builderPubkey}
    ensures LowerCursor(cursor, page[..n + 1]) ==
              var c := LowerCursor(cursor, page[..n]); if c == 0 || c > page[n].slot then page[n].slot else c
  {
    assert page[..n + 1] == page[..n] + [page[n]];
    assert page[..n + 1][..n] == page[..n];
  }

  lemma EntriesSplit(relay: string, page: seq<Payload>, n: nat)
    requires n < |page|
    ensures Entries(relay, page[..n + 1]) == Entries(relay, page[..n]) + [ToEntry(relay, page[n])]
  {
  }

  /** The variables that the loop over a page updates. */
  datatype PageVars = PageVars(cursor: nat, received: set<nat>, builders: set<string>, payloadsNew: nat)

  function ReadOne(v: PageVars, payload: Payload): PageVars {
    PageVars(if v.cursor == 0 || v.cursor > payload.slot then payload.slot else v.cursor,
             v.received + {payload.slot}, v.builders + {payload.builderPubkey},
             v.payloadsNew + if payload.slot in v.received then 0 else 1)
  }

  function ReadAll(page: seq<Payload>, v: PageVars): PageVars {
    if page == [] then v else ReadOne(ReadAll(page[..|page| - 1], v), page[|page| - 1])
  }

  lemma {:induction false} ReadAllMeans(page: seq<Payload>, v: PageVars)
    requires v.payloadsNew == 0
    ensures var end := ReadAll(page, v);
            && end.cursor == LowerCursor(v.cursor, page)
            && end.received == v.received + SlotsOf(page) && end.builders == v.builders + BuildersOf(page)
            && (end.payloadsNew == 0 <==> SlotsOf(page) <= v.received)
  {
    if page != [] {
      var n := |page| - 1;
      ReadAllMeans(page[..n], v);
      PageSplit(page, n, v.cursor);
      assert page[..n + 1] == page;
    }
  }

  /** The loop has reached state `s` on its way to `end`. */
  ghost predicate OnTheWay(relay: Relay, latest: nat, minSlot: nat, t0: nat, c0: nat, rows0: seq<Row>, s: RunState,
                           end: RunState) {
    && RelayContract(relay)
    && Inv(relay, t0, c0, rows0, s)
    && RunToEnd(relay, latest, minSlot, t0, c0, rows0, s) == end
  }

  lemma Advance(relay: Relay, latest: nat, minSlot: nat, t0: nat, c0: nat, rows0: seq<Row>, s: RunState, end: RunState)
    requires OnTheWay(relay, latest, minSlot, t0, c0, rows0, s, end) && s.status == Running
    ensures OnTheWay(relay, latest, minSlot, t0, c0, rows0, Step(relay, latest, minSlot, s), end)
    ensures Step(relay, latest, minSlot, s).status == Running ==>
              Remaining(relay, t0, Step(relay, latest, minSlot, s)) < Remaining(relay, t0, s)
  {
    StepKeepsInv(relay, latest, minSlot, t0, c0, rows0, s);
    if Step(relay, latest, minSlot, s).status == Running {
      StepProgress(relay, latest, minSlot, t0, c0, rows0, s);
    }
  }

  class Backfiller {
    const relay: Relay
    const db: PayloadStore
    const cursorSlot: nat
    const minSlot: nat
    /** How many requests the relay has answered so far. */
    var clock: nat

    constructor (relay: Relay, db: PayloadStore, cursorSlot: nat, minSlot: nat, clock: nat)
      ensures this.relay == relay && this.db == db && this.cursorSlot == cursorSlot
      ensures this.minSlot == minSlot && this.clock == clock
    {
      this.relay, this.db, this.cursorSlot, this.minSlot, this.clock := relay, db, cursorSlot, minSlot, clock;
    }

    /** Turns one response into table entries and advances the loop variables over it. */
    method ReadPage(data: seq<Payload>, cursor0: nat, received0: set<nat>, builders0: set<string>)
      returns (entries: seq<Row>, cursor: nat, received: set<nat>, builders: set<string>, payloadsNew: nat)
      ensures entries == Entries(relay.name, data)
      ensures cursor == LowerCursor(cursor0, data)
      ensures received == received0 + SlotsOf(data)
      ensures builders == builders0 + BuildersOf(data)
      ensures payloadsNew == 0 <==> SlotsOf(data) <= received0
    {
      entries, cursor, received, builders, payloadsNew := [], cursor0, received0, builders0, 0;
      ghost var start := PageVars(cursor0, received0, builders0, 0);
      for index := 0 to |data|
        invariant entries == Entries(relay.name, data[..index])
        invariant PageVars(cursor, received, builders, payloadsNew) == ReadAll(data[..index], start)
      {
        EntriesSplit(relay.name, data, index);
        assert data[..index + 1][..index] == data[..index];
        var payload := data[index];
        entries := entries + [ToEntry(relay.name, payload)];
        if payload.slot !in received {
          received := received + {payload.slot};
          payloadsNew := payloadsNew + 1;
        }
        if cursor == 0 || cursor > payload.slot {
          cursor := payload.slot;
        }
        builders := builders + {payload.builderPubkey};
      }
      assert data[..|data|] == data;
      ReadAllMeans(data, start);
    }

    method SaveBuilders(builders: set<string>)
      modifies db`blockBuilders
      ensures db.blockBuilders == old(db.blockBuilders) + builders
    {
      var todo := builders;
      while todo != {}
        invariant todo <= builders
        invariant db.blockBuilders == old(db.blockBuilders) + (builders - todo)
        decreases |todo|
      {
        var builderPubkey := AnyOf(todo);
        db.SaveBuilder(builderPubkey);
        todo := todo - {builderPubkey};
      }
    }

    /** One iteration: the response to the next request, handled and saved. */
    method Iterate(ghost s: RunState, latestSlotInDB: nat, cursor0: nat, received0: set<nat>, builders0: set<string>)
      returns (cursor: nat, received: set<nat>, builders: set<string>, status: Status)
      requires s == RunState(clock, cursor0, received0, builders0, db.rows, db.blockBuilders, Running)
      modifies this`clock, db
      ensures RunState(clock, cursor, received, builders, db.rows, db.blockBuilders, status)
              == Step(relay, latestSlotInDB, minSlot, s)
    {
      cursor, received, builders := cursor0, received0, builders0;
      var answer := relay.answer(clock, cursor);
      clock := clock + 1;
      if answer == None {
        return cursor, received, builders, FetchError;
      }
      var payloadsNew;
      cursor, received, builders, payloadsNew := SavePage(answer.value, cursor, received, builders);
      status := Running;
      if payloadsNew == 0 {
        return cursor, received, builders, NoNewPayloads;
      }
      if cursor < latestSlotInDB {
        return cursor, received, builders, ReachedLatest;
      }
      if cursor < minSlot {
        return cursor, received, builders, ReachedMinSlot;
      }
    }

    /** A page, read and saved. */
    method SavePage(data: seq<Payload>, cursor0: nat, received0: set<nat>, builders0: set<string>)
      returns (cursor: nat, received: set<nat>, builders: set<string>, payloadsNew: nat)
      modifies db
      ensures db.rows == InsertAll(old(db.rows), Entries(relay.name, data))
      ensures cursor == LowerCursor(cursor0, data)
      ensures received == received0 + SlotsOf(data) && builders == builders0 + BuildersOf(data)
      ensures db.blockBuilders == old(db.blockBuilders) + builders
      ensures payloadsNew == 0 <==> SlotsOf(data) <= received0
    {
      var entries;
      entries, cursor, received, builders, payloadsNew := ReadPage(data, cursor0, received0, builders0);
      var newEntries := db.SaveDataAPIPayloadDeliveredBatch(entries);
      SaveBuilders(builders);
    }

    /** The loop computes exactly the run that `BackfillIsComplete` speaks about. */
    method BackfillPayloadsDelivered() returns (ok: bool)
      requires RelayContract(relay)
      modifies this`clock, db
      ensures var end := BackfillRun(relay, minSlot, old(clock), cursorSlot, old(db.rows), old(db.blockBuilders));
              && db.rows == end.rows && db.blockBuilders == end.savedBuilders && clock == end.clock
              && ok == Stopped(end)
    {
      var latestSlotInDB := LatestSlot(db.rows, relay.name);
      var cursor: nat, received: set<nat>, builders: set<string> := cursorSlot, {}, {};
      var status := Running;
      ghost var t0, rows0 := clock, db.rows;
      ghost var end := BackfillRun(relay, minSlot, t0, cursorSlot, rows0, db.blockBuilders);
      ghost var s := Start(t0, cursorSlot, rows0, db.blockBuilders);
      while status == Running
        invariant s == RunState(clock, cursor, received, builders, db.rows, db.blockBuilders, status)
        invariant OnTheWay(relay, latestSlotInDB, minSlot, t0, cursorSlot, rows0, s, end)
        decreases if status == Running then 1 + Remaining(relay, t0, s) else 0
      {
        cursor, received, builders, status := Iterate(s, latestSlotInDB, cursor, received, builders);
        Advance(relay, latestSlotInDB, minSlot, t0, cursorSlot, rows0, s, end);
        s := Step(relay, latestSlotInDB, minSlot, s);
      }
      ok := status != FetchError;
    }
  }
}
