/** The poller of bid headers, which follows head events and keeps proposer duties
    (`services/bidcollect/getheader-poller.go`). */
module GetHeaderPoller {
  import opened Wrappers

  const SLOTS_PER_EPOCH := 32

  function EpochOf(slot: nat): nat {
    slot / SLOTS_PER_EPOCH
  }

  datatype Duty = Duty(slot: nat, pubkey: string)

  datatype Block = Block(slot: nat, blockHash: string)

  /** A head event, with what the beacon node would answer while it is handled: the duties of the
      epoch of the head and of the one after it, and the latest block. */
  datatype HeadEvent = HeadEvent(slot: nat, current: Option<seq<Duty>>, next: Option<seq<Duty>>, block: Option<Block>)

  datatype Poll = Poll(slot: nat, parentHash: string, proposerPubkey: string)

  function WithDuties(duties: map<nat, string>, answer: seq<Duty>): map<nat, string> {
    if answer == [] then duties
    else WithDuties(duties, answer[..|answer| - 1])[answer[|answer| - 1].slot := answer[|answer| - 1].pubkey]
  }

  function Fetched(ev: HeadEvent): map<nat, string>
    requires ev.current.Some?
  {
    var duties := WithDuties(map[], ev.current.value);
    if ev.next.Some? then WithDuties(duties, ev.next.value) else duties
  }

  datatype State = State(headSlot: nat, lastDutyUpdateEpoch: nat, duties: map<nat, string>, polls: seq<Poll>)

  predicate NeedsDuties(s: State, ev: HeadEvent) {
    |s.duties| == 0 || EpochOf(ev.slot) > s.lastDutyUpdateEpoch
  }

  function Polled(s: State, ev: HeadEvent): State {
    match ev.block
    case None => s
    case Some(block) =>
      if block.slot == ev.slot && ev.slot + 1 in s.duties && s.duties[ev.slot + 1] != ""
      then s.(polls := s.polls + [Poll(ev.slot + 1, block.blockHash, s.duties[ev.slot + 1])])
      else s
  }

  function Handle(s: State, ev: HeadEvent): State {
    if ev.slot <= s.headSlot then s
    else
      var s := s.(headSlot := ev.slot);
      if !NeedsDuties(s, ev) then Polled(s, ev)
      else if ev.current.None? then s
      else Polled(s.(duties := Fetched(ev), lastDutyUpdateEpoch := EpochOf(ev.slot)), ev)
  }

  function Run(events: seq<HeadEvent>): State {
    if events == [] then State(0, 0, map[], [])
    else Handle(Run(events[..|events| - 1]), events[|events| - 1])
  }

  method AddDuties(duties0: map<nat, string>, answer: seq<Duty>) returns (duties: map<nat, string>)
    ensures duties == WithDuties(duties0, answer)
  {
    duties := duties0;
    var i := 0;
    while i < |answer|
      invariant 0 <= i <= |answer| && duties == WithDuties(duties0, answer[..i])
    {
      duties := duties[answer[i].slot := answer[i].pubkey];
      assert answer[..i + 1][..i] == answer[..i];
      i := i + 1;
    }
    assert answer[..i] == answer;
  }

  /** The polling loop, for as many head events as arrive. */
  method Start(events: seq<HeadEvent>) returns (polls: seq<Poll>)
    ensures polls == Run(events).polls
  {
    var headSlot: nat, lastDutyUpdateEpoch: nat := 0, 0;
    var duties: map<nat, string> := map[];
    polls := [];
    for i := 0 to |events|
      invariant Run(events[..i]) == State(headSlot, lastDutyUpdateEpoch, duties, polls)
    {
      var headEvent := events[i];
      assert events[..i + 1][..i] == events[..i];
      if headEvent.slot <= headSlot { continue; }
      headSlot := headEvent.slot;
      var nextSlot, currentEpoch := headSlot + 1, headSlot / SLOTS_PER_EPOCH;
      if |duties| == 0 || currentEpoch > lastDutyUpdateEpoch {
        if headEvent.current.None? { continue; }
        duties := AddDuties(map[], headEvent.current.value);
        if headEvent.next.Some? {
          duties := AddDuties(duties, headEvent.next.value);
        }
        lastDutyUpdateEpoch := currentEpoch;
      }
      if headEvent.block.None? { continue; }
      var block := headEvent.block.value;
      if block.slot != headSlot { continue; }
      var nextProposerPubkey := if nextSlot in duties then duties[nextSlot] else "";
      if nextProposerPubkey != "" {
        polls := polls + [Poll(nextSlot, block.blockHash, nextProposerPubkey)];
      }
    }
    assert events[..|events|] == events;
  }

  // ---------------------------------------------------------------- what is polled

  /** Polled slots strictly increase, so no slot is polled twice. */
  lemma {:induction false} PolledSlotsIncrease(events: seq<HeadEvent>)
    ensures forall i, j | 0 <= i < j < |Run(events).polls| :: Run(events).polls[i].slot < Run(events).polls[j].slot
    ensures forall i | 0 <= i < |Run(events).polls| :: Run(events).polls[i].slot <= Run(events).headSlot + 1
  {
    if events != [] { PolledSlotsIncrease(events[..|events| - 1]); }
  }

  /** The node answers with duties of the epoch it was asked for. */
  ghost predicate HonestDuties(events: seq<HeadEvent>) {
    forall i | 0 <= i < |events| ::
      && (events[i].current.Some? ==> forall d | d in events[i].current.value ::
        EpochOf(d.slot) == EpochOf(events[i].slot))
      && (events[i].next.Some? ==> forall d | d in events[i].next.value ::
        EpochOf(d.slot) == EpochOf(events[i].slot) + 1)
  }

  /** The duties are those of the one fetch made for the epoch they count as up to date for. */
  ghost predicate FetchedAt(s: State, events: seq<HeadEvent>, j: int) {
    && 0 <= j < |events| && events[j].current.Some?
    && s.duties == Fetched(events[j]) && s.lastDutyUpdateEpoch == EpochOf(events[j].slot) <= EpochOf(s.headSlot)
  }

  lemma {:induction false} DutiesWereFetched(events: seq<HeadEvent>)
    ensures Run(events).duties == map[] || exists j :: FetchedAt(Run(events), events, j)
    ensures Run(events).lastDutyUpdateEpoch <= EpochOf(Run(events).headSlot)
  {
    if events != [] {
      var n := |events| - 1;
      var front := events[..n];
      DutiesWereFetched(front);
      var s, s' := Run(front), Run(events);
      if s'.duties != map[] {
        if j :| FetchedAt(s, front, j) && s'.duties == s.duties && s'.lastDutyUpdateEpoch == s.lastDutyUpdateEpoch {
          assert FetchedAt(s', events, j);
        } else {
          assert FetchedAt(s', events, n);
        }
      }
    }
  }

  /** The last duty of a slot in an answer, by its place. */
  ghost predicate LastDutyOf(answer: seq<Duty>, slot: nat, k: int) {
    0 <= k < |answer| && answer[k].slot == slot && forall j | k < j < |answer| :: answer[j].slot != slot
  }

  /** Later duties of a slot replace earlier ones, and slots without a duty keep what they had. */
  lemma {:induction false} LastDutyWins(duties: map<nat, string>, answer: seq<Duty>, slot: nat)
    ensures forall k | LastDutyOf(answer, slot, k) ::
              slot in WithDuties(duties, answer) && WithDuties(duties, answer)[slot] == answer[k].pubkey
    ensures (forall j | 0 <= j < |answer| :: answer[j].slot != slot) ==>
              (slot in WithDuties(duties, answer) <==> slot in duties)
              && (slot in duties ==> WithDuties(duties, answer)[slot] == duties[slot])
  {
    if answer != [] {
      var n := |answer| - 1;
      LastDutyWins(duties, answer[..n], slot);
      forall k | LastDutyOf(answer, slot, k)
        ensures slot in WithDuties(duties, answer) && WithDuties(duties, answer)[slot] == answer[k].pubkey
      {
        if k < n { assert answer[n].slot != slot && LastDutyOf(answer[..n], slot, k); }
      }
    }
  }

  lemma {:induction false} SomeLastDuty(answer: seq<Duty>, slot: nat) returns (k: int)
    ensures LastDutyOf(answer, slot, k) || (k == -1 && forall j | 0 <= j < |answer| :: answer[j].slot != slot)
  {
    if answer == [] {
      k := -1;
    } else if answer[|answer| - 1].slot == slot {
      k := |answer| - 1;
    } else {
      k := SomeLastDuty(answer[..|answer| - 1], slot);
    }
  }

  lemma DutyComesFrom(duties: map<nat, string>, answer: seq<Duty>, slot: nat)
    requires slot in WithDuties(duties, answer)
    ensures if exists d :: d in answer && d.slot == slot
            then exists d :: d in answer && d.slot == slot && d.pubkey == WithDuties(duties, answer)[slot]
            else slot in duties && duties[slot] == WithDuties(duties, answer)[slot]
  {
    LastDutyWins(duties, answer, slot);
    var k := SomeLastDuty(answer, slot);
    if k >= 0 {
      assert answer[k] in answer;
    }
  }

  /** The duty is in the answer for the epoch of its own slot. */
  ghost predicate InOwnAnswer(ev: HeadEvent, slot: nat, pubkey: string) {
    if EpochOf(slot) == EpochOf(ev.slot)
    then ev.current.Some? && Duty(slot, pubkey) in ev.current.value
    else EpochOf(slot) == EpochOf(ev.slot) + 1 && ev.next.Some? && Duty(slot, pubkey) in ev.next.value
  }

  lemma FetchedDutyIsOwn(events: seq<HeadEvent>, j: nat, slot: nat)
    requires HonestDuties(events) && j < |events| && events[j].current.Some? && slot in Fetched(events[j])
    ensures InOwnAnswer(events[j], slot, Fetched(events[j])[slot])
  {
    var ev := events[j];
    var current := WithDuties(map[], ev.current.value);
    if ev.next.Some? { DutyComesFrom(current, ev.next.value, slot); }
    if slot in current { DutyComesFrom(map[], ev.current.value, slot); }
  }

  /** Event `i` led to the poll, and the fetch of event `j`, in the same epoch and not later, gave its duty. */
  ghost predicate Explains(events: seq<HeadEvent>, poll: Poll, i: int, j: int) {
    && 0 <= j <= i < |events|
    && poll.slot == events[i].slot + 1 && poll.proposerPubkey != ""
    && events[i].block == Some(Block(events[i].slot, poll.parentHash))
    && EpochOf(events[j].slot) == EpochOf(events[i].slot)
    && InOwnAnswer(events[j], poll.slot, poll.proposerPubkey)
  }

  lemma LastPollExplained(events: seq<HeadEvent>) returns (j: int)
    requires HonestDuties(events) && events != []
    requires |Run(events).polls| > |Run(events[..|events| - 1]).polls|
    ensures var polls := Run(events).polls; Explains(events, polls[|polls| - 1], |events| - 1, j)
  {
    var s, ev := Run(events), events[|events| - 1];
    DutiesWereFetched(events);
    j :| FetchedAt(s, events, j);
    FetchedDutyIsOwn(events, j, ev.slot + 1);
    assert s.lastDutyUpdateEpoch == EpochOf(ev.slot);
  }

  /** Every poll asks for the slot after a head event whose block is its parent, with a proposer from
      the node's duties for the epoch of that very slot, fetched during the epoch of the head: duties
      left over from an earlier epoch are never used. */
  lemma {:induction false} PollsUseOwnDuties(events: seq<HeadEvent>, k: nat)
    requires HonestDuties(events) && k < |Run(events).polls|
    ensures exists i, j :: Explains(events, Run(events).polls[k], i, j)
  {
    var n := |events| - 1;
    var front := events[..n];
    if k < |Run(front).polls| {
      assert HonestDuties(front) by {
        assert forall i | 0 <= i < n :: front[i] == events[i];
      }
      PollsUseOwnDuties(front, k);
      var i, j :| Explains(front, Run(front).polls[k], i, j);
      assert Run(events).polls[k] == Run(front).polls[k];
      assert Explains(events, Run(events).polls[k], i, j);
    } else {
      var j := LastPollExplained(events);
      assert Explains(events, Run(events).polls[k], n, j);
    }
  }

  // ---------------------------------------------------------------- nothing is left out

  lemma {:induction false} HeadWasSeen(events: seq<HeadEvent>)
    ensures Run(events).headSlot == 0 || exists i | 0 <= i < |events| :: events[i].slot == Run(events).headSlot
  {
    if events != [] {
      var n := |events| - 1;
      HeadWasSeen(events[..n]);
      if i :| 0 <= i < n && events[..n][i].slot == Run(events[..n]).headSlot {
        assert events[i].slot == Run(events[..n]).headSlot;
      }
    }
  }

  /** The last event is a head above all earlier ones. */
  ghost predicate NewHead(events: seq<HeadEvent>) {
    && events != [] && events[|events| - 1].slot > 0
    && forall i | 0 <= i < |events| - 1 :: events[i].slot < events[|events| - 1].slot
  }

  lemma {:induction false} NewHeadIsAbove(events: seq<HeadEvent>)
    requires NewHead(events)
    ensures Run(events[..|events| - 1]).headSlot < events[|events| - 1].slot
  {
    var front := events[..|events| - 1];
    HeadWasSeen(front);
    if i :| 0 <= i < |front| && front[i].slot == Run(front).headSlot {
      assert events[i].slot < events[|events| - 1].slot;
    }
  }

  /** After a new head for which the node answers, the duties in use are of its epoch: an epoch whose
      first answer failed is asked for again, and so is one without duties. */
  lemma {:induction false} DutiesAreFresh(events: seq<HeadEvent>) returns (j: int)
    requires NewHead(events) && events[|events| - 1].current.Some?
    ensures FetchedAt(Run(events), events, j) && EpochOf(events[j].slot) == EpochOf(events[|events| - 1].slot)
    ensures Run(events[..|events| - 1]).duties == map[] ==> j == |events| - 1
  {
    var n := |events| - 1;
    var front := events[..n];
    NewHeadIsAbove(events);
    if NeedsDuties(Run(front), events[n]) {
      j := n;
    } else {
      DutiesWereFetched(front);
      j :| FetchedAt(Run(front), front, j);
      assert front[j] == events[j];
    }
  }

  /** The last duty of the slot in an answer names this proposer. */
  ghost predicate LastNamed(answer: seq<Duty>, slot: nat, pubkey: string) {
    exists k :: LastDutyOf(answer, slot, k) && answer[k].pubkey == pubkey
  }

  /** The fetch of an event brought this duty: from the answer for the epoch of its slot. */
  ghost predicate DutyInAnswer(ev: HeadEvent, slot: nat, pubkey: string) {
    if EpochOf(slot) == EpochOf(ev.slot) then ev.current.Some? && LastNamed(ev.current.value, slot, pubkey)
    else EpochOf(slot) == EpochOf(ev.slot) + 1 && ev.next.Some? && LastNamed(ev.next.value, slot, pubkey)
  }

  lemma {:induction false} FetchedHasDuty(events: seq<HeadEvent>, j: nat, slot: nat, pubkey: string)
    requires HonestDuties(events) && j < |events| && events[j].current.Some?
    requires DutyInAnswer(events[j], slot, pubkey)
    ensures slot in Fetched(events[j]) && Fetched(events[j])[slot] == pubkey
  {
    var ev := events[j];
    var current := WithDuties(map[], ev.current.value);
    LastDutyWins(map[], ev.current.value, slot);
    if ev.next.Some? {
      LastDutyWins(current, ev.next.value, slot);
      if EpochOf(slot) == EpochOf(ev.slot) {
        forall i | 0 <= i < |ev.next.value| ensures ev.next.value[i].slot != slot {
          assert ev.next.value[i] in ev.next.value;
        }
      }
    }
  }

  /** A poll is made whenever it can be: for a new head that is the latest block, if the duties in use have
      a proposer for the slot after it. */
  lemma {:induction false} PollIsMade(events: seq<HeadEvent>, j: nat, parentHash: string, pubkey: string)
    requires HonestDuties(events) && NewHead(events) && FetchedAt(Run(events), events, j) && pubkey != ""
    requires var ev := events[|events| - 1];
             && ev.block == Some(Block(ev.slot, parentHash))
             && (ev.current.Some? || EpochOf(events[j].slot) == EpochOf(ev.slot))
    requires DutyInAnswer(events[j], events[|events| - 1].slot + 1, pubkey)
    ensures Run(events).polls
            == Run(events[..|events| - 1]).polls + [Poll(events[|events| - 1].slot + 1, parentHash, pubkey)]
  {
    NewHeadIsAbove(events);
    FetchedHasDuty(events, j, events[|events| - 1].slot + 1, pubkey);
  }

  /** An epoch has 32 slots. */
  lemma EpochHolds(slot: nat)
    ensures 32 * EpochOf(slot) <= slot < 32 * EpochOf(slot) + 32
  {
  }
}
