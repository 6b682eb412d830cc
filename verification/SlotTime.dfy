/** Slots and wall-clock time (`common/utils.go`), and the slot window of a stats run
    (`cmd/core/update-builder-stats.go`). Times are Unix seconds. */
module SlotTime {
  import opened GoArith

  const GENESIS := 1606824023
  const SECONDS_PER_SLOT := 12
  const DAY := 86400
  const SLOTS_PER_DAY := 7200

  function TimeToSlot(t: int): nat {
    Uint64(Quot(t - GENESIS, SECONDS_PER_SLOT))
  }

  function SlotToTime(slot: nat): int {
    ToInt64(Uint64(slot * SECONDS_PER_SLOT + GENESIS))
  }

  /** Beyond this the conversions wrap around. */
  const MAX_SLOT := 0x400_0000_0000_0000

  /** Times from genesis on that are representable. */
  predicate InRange(t: int) {
    GENESIS <= t < GENESIS + SECONDS_PER_SLOT * MAX_SLOT
  }

  lemma SmallUint64(n: nat)
    requires n < TWO_TO_64
    ensures Uint64(n) == n
  {
  }

  lemma SlotStart(slot: nat)
    requires slot <= MAX_SLOT
    ensures SlotToTime(slot) == slot * SECONDS_PER_SLOT + GENESIS
  {
    SmallUint64(slot * SECONDS_PER_SLOT + GENESIS);
  }

  /** Slot 0 started on 2020-12-01, day 18597 of the Unix epoch, at 12:00:23 UTC. */
  lemma Genesis()
    ensures SlotToTime(0) == 18597 * 24 * 60 * 60 + 12 * 60 * 60 + 23
    ensures TimeToSlot(SlotToTime(0)) == 0 && SlotToTime(1) == SlotToTime(0) + 12
  {
  }

  /** The slot of a time is the last one that has started. */
  lemma SlotContainsTime(t: int)
    requires InRange(t)
    ensures SlotToTime(TimeToSlot(t)) <= t < SlotToTime(TimeToSlot(t) + 1)
    ensures TimeToSlot(t) < MAX_SLOT
  {
    var slot := (t - GENESIS) / SECONDS_PER_SLOT;
    assert slot * SECONDS_PER_SLOT <= t - GENESIS < (slot + 1) * SECONDS_PER_SLOT;
    SmallUint64(slot);
    SlotStart(slot);
    SlotStart(slot + 1);
  }

  lemma SlotTimeRoundTrip(slot: nat)
    requires slot <= MAX_SLOT
    ensures SlotToTime(slot) == slot * SECONDS_PER_SLOT + GENESIS
    ensures TimeToSlot(SlotToTime(slot)) == slot
  {
  }

  /** First and last slot queried for a run from `timeStart` to `timeEnd`. */
  function Window(timeStart: int, timeEnd: int): (nat, nat) {
    var slotStart, slotEnd := TimeToSlot(timeStart), TimeToSlot(timeEnd);
    (if SlotToTime(slotStart) < timeStart then Uint64(slotStart + 1) else slotStart,
     if SlotToTime(slotEnd) > timeEnd then Uint64(slotEnd + 1) else slotEnd)
  }

  /** `slot >= $1 AND slot <= $2` selects exactly the slots that start within the two times. */
  lemma WindowIsExact(timeStart: int, timeEnd: int, slot: nat)
    requires InRange(timeStart) && InRange(timeEnd) && slot <= MAX_SLOT
    ensures var (first, last) := Window(timeStart, timeEnd);
            first <= slot <= last <==> timeStart <= SlotToTime(slot) <= timeEnd
  {
    SlotContainsTime(timeStart);
    SlotContainsTime(timeEnd);
    SlotTimeRoundTrip(slot);
    SlotTimeRoundTrip(TimeToSlot(timeStart));
    SlotTimeRoundTrip(TimeToSlot(timeEnd));
  }

  predicate IsMidnight(t: int) {
    t % DAY == 0
  }

  /** No slot starts at midnight, so a window between midnights is half-open. */
  lemma NoSlotAtMidnight(slot: nat)
    requires slot <= MAX_SLOT
    ensures !IsMidnight(SlotToTime(slot))
  {
    SlotTimeRoundTrip(slot);
  }

  function DayOf(slot: nat): int {
    SlotToTime(slot) / DAY
  }

  lemma DayOfTime(t: int, day: int)
    requires day == t / DAY
    ensures day * DAY <= t < (day + 1) * DAY && IsMidnight(day * DAY)
  {
  }

  /** The day of a slot contains its start. */
  lemma DayHolds(slot: nat)
    ensures DayOf(slot) * DAY <= SlotToTime(slot) < (DayOf(slot) + 1) * DAY
    ensures IsMidnight(DayOf(slot) * DAY)
  {
    DayOfTime(SlotToTime(slot), DayOf(slot));
  }

  /** A full day owns exactly 7200 consecutive slots. */
  lemma DayOwns7200Slots(day: int)
    requires GENESIS < day * DAY && InRange((day + 1) * DAY)
    ensures var first := TimeToSlot(day * DAY) + 1;
            forall slot: nat | slot <= MAX_SLOT :: DayOf(slot) == day <==> first <= slot < first + SLOTS_PER_DAY
  {
    var t := day * DAY;
    SlotContainsTime(t);
    var before := TimeToSlot(t);
    SlotTimeRoundTrip(before);
    SlotTimeRoundTrip(before + 1);
    NoSlotAtMidnight(before);
    forall slot: nat | slot <= MAX_SLOT
      ensures DayOf(slot) == day <==> before + 1 <= slot < before + 1 + SLOTS_PER_DAY
    {
      SlotTimeRoundTrip(slot);
      var s := slot * SECONDS_PER_SLOT + GENESIS;
      assert DayOf(slot) == day <==> t <= s < t + DAY;
    }
  }

  /** Between two midnights the window is the days between them. */
  lemma MidnightWindow(from: int, to: int, slot: nat)
    requires InRange(from * DAY) && InRange(to * DAY) && slot <= MAX_SLOT
    ensures var (first, last) := Window(from * DAY, to * DAY);
            first <= slot <= last <==> from <= DayOf(slot) < to
  {
    WindowIsExact(from * DAY, to * DAY, slot);
    NoSlotAtMidnight(slot);
    var s := SlotToTime(slot);
    assert s == DAY * (s / DAY) + s % DAY;
  }
}
