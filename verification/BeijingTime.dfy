/** Midnights and refresh slots in Beijing time (a fixed zone, UTC+8, so every day has 24 hours). */
module BeijingTime {
  import opened Clock

  const OFFSET: int := 8 * HOUR
  const REFRESH_BUFFER: int := 2 * MINUTE

  /** The most recent Beijing midnight: the clock's date in the zone, at 00:00. */
  function Midnight(now: int): int {
    (now + OFFSET) / DAY * DAY - OFFSET
  }

  function NextBeijingMidnight(now: int): int {
    Midnight(now) + DAY
  }

  function NextQuotaRefreshTime(now: int): int {
    if now - Midnight(now) <= REFRESH_BUFFER then Midnight(now) + REFRESH_BUFFER
    else Midnight(now) + (DAY + REFRESH_BUFFER)
  }

  predicate IsMidnight(t: int) {
    (t + OFFSET) % DAY == 0
  }

  predicate IsSlot(t: int) {
    IsMidnight(t - REFRESH_BUFFER)
  }

  // ---------------------------------------------------------------- midnights

  /** Different multiples of a day are at least a day apart. */
  lemma MultiplesApart(a: int, b: int)
    requires a % DAY == 0 && b % DAY == 0 && a < b
    ensures a + DAY <= b
  {
    assert DAY == 86_400_000_000_000;
    assert a == DAY * (a / DAY) && b == DAY * (b / DAY);
  }

  lemma MidnightBounds(now: int)
    ensures IsMidnight(Midnight(now)) && Midnight(now) <= now < Midnight(now) + DAY
  {
    var q := (now + OFFSET) / DAY;
    assert (q * DAY) % DAY == 0;
  }

  /** The next midnight is the least one strictly after `now`. */
  lemma NextMidnightIsLeast(now: int, m: int)
    ensures IsMidnight(NextBeijingMidnight(now)) && now < NextBeijingMidnight(now)
    ensures IsMidnight(m) && now < m ==> NextBeijingMidnight(now) <= m
  {
    MidnightBounds(now);
    if IsMidnight(m) && now < m {
      MultiplesApart(Midnight(now) + OFFSET, m + OFFSET);
    }
  }

  lemma NextMidnightMonotone(t1: int, t2: int)
    requires t1 <= t2
    ensures NextBeijingMidnight(t1) <= NextBeijingMidnight(t2)
  {
    NextMidnightIsLeast(t1, NextBeijingMidnight(t2));
    NextMidnightIsLeast(t2, 0);
  }

  /** Instants on the same Beijing day, and only those, have the same next midnight. */
  lemma SameDay(t1: int, t2: int)
    requires t1 <= t2
    ensures NextBeijingMidnight(t1) == NextBeijingMidnight(t2) <==> t2 < NextBeijingMidnight(t1)
  {
    NextMidnightMonotone(t1, t2);
    NextMidnightIsLeast(t2, NextBeijingMidnight(t1));
    NextMidnightIsLeast(t1, 0);
  }

  /** In seconds: it comes within 86,400 of them, at a multiple of 86,400 less the zone's 28,800. No other instant
      does. */
  lemma NextMidnightInSeconds(now: int, m: int)
    ensures m == NextBeijingMidnight(now) <==>
      now < m <= now + 86_400 * SECOND && (m + 28_800 * SECOND) % (86_400 * SECOND) == 0
  {
    MidnightBounds(now);
    NextMidnightIsLeast(now, m);
    if now < m <= now + DAY && IsMidnight(m) && NextBeijingMidnight(now) < m {
      MultiplesApart(NextBeijingMidnight(now) + OFFSET, m + OFFSET);
    }
  }

  // ---------------------------------------------------------------- refresh slots

  /** The refresh time is the least instant at or after `now` that is two minutes past a Beijing midnight. */
  lemma RefreshTimeIsLeastSlot(now: int, t: int)
    ensures IsSlot(NextQuotaRefreshTime(now)) && now <= NextQuotaRefreshTime(now)
    ensures IsSlot(t) && now <= t ==> NextQuotaRefreshTime(now) <= t
  {
    MidnightBounds(now);
    var m := Midnight(now);
    NextMidnightIsLeast(now, 0);
    if IsSlot(t) && now <= t {
      var mt := t - REFRESH_BUFFER;
      if mt < m {
        MultiplesApart(mt + OFFSET, m + OFFSET);
      } else if m < mt {
        MultiplesApart(m + OFFSET, mt + OFFSET);
      }
    }
  }

  /** In seconds: from now on and within 86,400 of them, 120 after a midnight. No other instant is. */
  lemma RefreshTimeInSeconds(now: int, t: int)
    ensures t == NextQuotaRefreshTime(now) <==>
      now <= t < now + 86_400 * SECOND && (t - 120 * SECOND + 28_800 * SECOND) % (86_400 * SECOND) == 0
  {
    MidnightBounds(now);
    RefreshTimeIsLeastSlot(now, t);
    if now <= t < now + DAY && IsSlot(t) && NextQuotaRefreshTime(now) < t {
      MultiplesApart(NextQuotaRefreshTime(now) - REFRESH_BUFFER + OFFSET, t - REFRESH_BUFFER + OFFSET);
    }
  }

  /** From a slot on: the next slot found from `t` moves on exactly when `t` is later, and is the following day's
      exactly when `t` is at most a day later. */
  lemma SlotAfter(slot: int, t: int)
    requires IsSlot(slot) && slot <= t
    ensures slot < NextQuotaRefreshTime(t) <==> slot < t
    ensures NextQuotaRefreshTime(t) == slot + DAY <==> slot < t <= slot + DAY
  {
    RefreshTimeIsLeastSlot(t, slot);
    RefreshTimeIsLeastSlot(t, slot + DAY);
    if slot < t <= slot + DAY {
      MultiplesApart(slot - REFRESH_BUFFER + OFFSET, NextQuotaRefreshTime(t) - REFRESH_BUFFER + OFFSET);
    }
  }

  /** A quota cooldown set at `t` is over at the first slot that follows its midnight, not before. */
  lemma FirstSlotAfterMidnight(t: int)
    ensures NextQuotaRefreshTime(NextBeijingMidnight(t)) == NextBeijingMidnight(t) + REFRESH_BUFFER
  {
    var n := NextBeijingMidnight(t);
    NextMidnightIsLeast(t, 0);
    MidnightBounds(n);
    if Midnight(n) < n {
      MultiplesApart(Midnight(n) + OFFSET, n + OFFSET);
    }
  }

  // ---------------------------------------------------------------- the daily loop

  /** How one turn of the loop went: how late the sleep ended and how long the round took. */
  datatype Turn = Turn(late: nat, took: nat)

  ghost predicate TurnOk(prev: int, slot: int, end: int) {
    slot == NextQuotaRefreshTime(prev) && prev <= slot <= end && (slot == end ==> prev < slot)
  }

  /** When turn `i` began: at the start, or when the previous round ended. */
  function Began(start: int, ends: seq<int>, i: nat): int
    requires i <= |ends|
  {
    if i == 0 then start else ends[i - 1]
  }

  /** A turn sleeps to its slot, or a second, and as long as it oversleeps; then the round takes its time. */
  predicate Lasts(prev: int, slot: int, end: int, turn: Turn) {
    end == (if slot <= prev then prev + 1_000_000_000 else slot) + turn.late + turn.took
  }

  ghost predicate TurnsOk(start: int, slots: seq<int>, ends: seq<int>) {
    && |slots| == |ends|
    && forall i | 0 <= i < |slots| :: TurnOk(Began(start, ends, i), slots[i], ends[i])
  }

  /** quotaAutoRefreshLoop over any finite number of turns: the announced slots, and when each round ended. */
  method QuotaAutoRefreshLoop(start: int, turns: seq<Turn>) returns (slots: seq<int>, ends: seq<int>)
    ensures |slots| == |turns| && TurnsOk(start, slots, ends) && forall i | 0 <= i < |slots| :: IsSlot(slots[i])
    ensures forall i | 0 <= i < |turns| :: Lasts(Began(start, ends, i), slots[i], ends[i], turns[i])
  {
    slots, ends := [], [];
    var clock := start;
    for n := 0 to |turns|
      invariant |slots| == n && TurnsOk(start, slots, ends) && clock == Began(start, ends, n)
      invariant forall i | 0 <= i < n :: Lasts(Began(start, ends, i), slots[i], ends[i], turns[i])
    {
      var now := clock;
      var next := NextQuotaRefreshTime(now);
      var wait := next - now;
      if wait <= 0 {
        wait := SECOND;
      }
      clock := clock + wait + turns[n].late;
      clock := clock + turns[n].took;
      OneTurn(now, next, clock);
      ghost var began := ends;
      slots, ends := slots + [next], ends + [clock];
      forall i | 0 <= i <= n
        ensures TurnOk(Began(start, ends, i), slots[i], ends[i])
        ensures Lasts(Began(start, ends, i), slots[i], ends[i], turns[i])
      {
        assert Began(start, ends, i) == Began(start, began, i);
      }
    }
    AllSlots(start, slots, ends);
  }

  lemma AllSlots(start: int, slots: seq<int>, ends: seq<int>)
    requires TurnsOk(start, slots, ends)
    ensures forall i | 0 <= i < |slots| :: IsSlot(slots[i])
  {
    forall i | 0 <= i < |slots|
      ensures IsSlot(slots[i])
    {
      assert TurnOk(Began(start, ends, i), slots[i], ends[i]);
      RefreshTimeIsLeastSlot(Began(start, ends, i), 0);
    }
  }

  lemma OneTurn(now: int, next: int, clock: int)
    requires next == NextQuotaRefreshTime(now)
    requires clock >= now + if next - now <= 0 then SECOND else next - now
    ensures TurnOk(now, next, clock)
  {
    RefreshTimeIsLeastSlot(now, 0);
  }

  /** The next turn's slot is the following day's exactly when the round ended after its slot and within a day. */
  lemma NextDaysSlot(prev: int, slot: int, end: int, slot': int, end': int)
    requires TurnOk(prev, slot, end) && TurnOk(end, slot', end')
    ensures slot' == slot + DAY <==> slot < end <= slot + DAY
  {
    RefreshTimeIsLeastSlot(prev, 0);
    SlotAfter(slot, end);
  }

  /** The slots of a loop whose rounds end after their slot and within a day of it are consecutive days. */
  lemma NoSlotSkipped(start: int, slots: seq<int>, ends: seq<int>, i: nat)
    requires TurnsOk(start, slots, ends) && i < |slots|
    requires forall j | 0 <= j < |slots| :: slots[j] < ends[j] <= slots[j] + DAY
    ensures slots[i] == slots[0] + i * DAY
  {
    forall j | 0 < j < |slots|
      ensures slots[j] == slots[j - 1] + DAY
    {
      NextDaysSlot(Began(start, ends, j - 1), slots[j - 1], ends[j - 1], slots[j], ends[j]);
    }
    DailySeries(slots, i);
  }

  lemma {:induction false} DailySeries(slots: seq<int>, i: nat)
    requires i < |slots| && forall j | 0 < j < |slots| :: slots[j] == slots[j - 1] + DAY
    ensures slots[i] == slots[0] + i * DAY
  {
    if i > 0 {
      DailySeries(slots, i - 1);
      assert slots[i] == slots[i - 1] + DAY;
    }
  }

  /** Slots never go back, and advance exactly when the round ended after its slot. */
  lemma SlotsAdvance(start: int, slots: seq<int>, ends: seq<int>, i: nat)
    requires TurnsOk(start, slots, ends) && i + 1 < |slots|
    ensures slots[i] <= slots[i + 1]
    ensures slots[i] < slots[i + 1] <==> slots[i] < ends[i]
  {
    assert TurnOk(Began(start, ends, i), slots[i], ends[i]);
    assert TurnOk(Began(start, ends, i + 1), slots[i + 1], ends[i + 1]);
    RefreshTimeIsLeastSlot(Began(start, ends, i), 0);
    SlotAfter(slots[i], ends[i]);
  }
}
