/** The free-slot search of `get_all_free_slots` / `find_free_slot`. The
    free/busy query to the calendar provider is replaced by its answer, the
    list of busy intervals, passed in; `datetime.now()` is passed in as
    `now`. Instants are whole seconds in the configured zone. */
module Availability {
  import opened Wrappers
  import opened Civil
  import opened Strptime

  /** A half-open interval `[start, end)` of instants. */
  datatype Interval = Interval(start: int, end: int)

  datatype SlotError =
    | BadDate           // `strptime(date, "%Y-%m-%d")` raised
    | BadTime           // `strptime(start_range or end_range, "%H:%M")` raised
    | RoundingOverflow  // rounding `now` after 23:45 builds hour 24 and raises
    | Diverges          // a zero duration: the cursor never moves and the loop never ends
    | OutOfRange        // a negative duration walks the cursor back past `datetime.min`,
                        // where `datetime` arithmetic raises `OverflowError`

  /** The overlap test of the slot loop. */
  predicate Overlaps(slot: Interval, busy: Interval)
  {
    slot.start < busy.end && slot.end > busy.start
  }

  /** No busy interval overlaps the slot (`not any(...)`). */
  predicate Free(slot: Interval, busy: seq<Interval>)
  {
    forall b :: b in busy ==> !Overlaps(slot, b)
  }

  /** `now` rounded to the quarter hour after the one it is in: the minute
      becomes `(minute // 15 + 1) * 15`, seconds and microseconds zero; at
      60 the hour moves on, which fails in the last hour of the day. */
  function RoundedNow(now: ClockTime): Result<int, SlotError>
  {
    var minute := (now.minute / 15 + 1) * 15;
    if minute >= 60 then
      if now.hour + 1 > 23 then Err(RoundingOverflow) else Ok(At(now.date, now.hour + 1, 0, 0))
    else Ok(At(now.date, now.hour, minute, 0))
  }

  /** The rounded time lies strictly after `now`, at most a quarter of an
      hour later, on a quarter-hour boundary of the same day; rounding fails
      exactly from 23:45 on. */
  lemma RoundedNowIsNextQuarter(now: ClockTime)
    ensures RoundedNow(now).Err? <==> now.hour == 23 && now.minute >= 45
    ensures RoundedNow(now).Ok? ==>
              var r := RoundedNow(now).value;
              Instant(now) < r <= Instant(now) + 900
              && (r - Midnight(now.date)) % 900 == 0
              && r < Midnight(now.date) + SecondsPerDay
  {
    var q := now.minute / 15;
    assert 0 <= q <= 3;
    if RoundedNow(now).Ok? {
      var r := RoundedNow(now).value;
      if q == 3 {
        assert r - Midnight(now.date) == (now.hour + 1) * 3600;
      } else {
        assert r - Midnight(now.date) == now.hour * 3600 + (q + 1) * 15 * 60;
      }
    }
  }

  /** The window the slot loop walks: the requested range on the requested
      date, its start moved to the rounded `now` when the date is today and
      that is later. The strings are parsed in the order the code parses
      them. */
  function SearchWindow(date: string, startRange: string, endRange: string, now: ClockTime)
    : Result<Interval, SlotError>
  {
    match ParseDate(date)
    case None => Err(BadDate)
    case Some(day) =>
      match ParseHM(startRange)
      case None => Err(BadTime)
      case Some(s) =>
        match ParseHM(endRange)
        case None => Err(BadTime)
        case Some(e) =>
          var startDt := At(day, s.hour, s.minute, 0);
          var endDt := At(day, e.hour, e.minute, 0);
          if day == now.date then
            match RoundedNow(now)
            case Err(x) => Err(x)
            case Ok(rounded) => Ok(Interval(if rounded > startDt then rounded else startDt, endDt))
          else Ok(Interval(startDt, endDt))
  }

  /** The effective start is the later of the requested start and, when
      the date is today, the rounded `now`; so on today's date the window
      never starts at or before the current time. The end is the requested
      end. */
  lemma SearchWindowStart(date: string, startRange: string, endRange: string, now: ClockTime)
    requires SearchWindow(date, startRange, endRange, now).Ok?
    ensures var w := SearchWindow(date, startRange, endRange, now).value;
            var day := ParseDate(date).value;
            var s := ParseHM(startRange).value;
            var e := ParseHM(endRange).value;
            w.end == At(day, e.hour, e.minute, 0)
            && w.start >= At(day, s.hour, s.minute, 0)
            && (day == now.date ==> w.start > Instant(now) && w.start >= RoundedNow(now).value)
            && (w.start == At(day, s.hour, s.minute, 0) || (day == now.date && w.start == RoundedNow(now).value))
  {
    if ParseDate(date).value == now.date {
      RoundedNowIsNextQuarter(now);
    }
  }

  /** The candidates `[from + k*d, from + (k+1)*d)` for k = 0, 1, ... that
      end no later than `end`, each kept when free: what the loop emits
      from cursor `from` on. */
  function FreeSlotsFrom(from: int, end: int, d: int, busy: seq<Interval>): seq<Interval>
    requires d > 0
    decreases end - from
  {
    if from + d > end then []
    else
      var slot := Interval(from, from + d);
      (if Free(slot, busy) then [slot] else []) + FreeSlotsFrom(from + d, end, d, busy)
  }

  /** A candidate of the walk from `from` with stride `d`: it starts on the
      grid, is exactly `d` long and ends no later than `end`. */
  predicate OnGrid(slot: Interval, from: int, end: int, d: int)
    requires d > 0
  {
    from <= slot.start && (slot.start - from) % d == 0 && slot.end == slot.start + d && slot.end <= end
  }

  /** Euclidean division is determined by quotient and remainder. */
  lemma DivModUnique(a: int, d: int, q: int, r: int)
    requires d > 0 && 0 <= r < d && a == d * q + r
    ensures a / d == q && a % d == r
  {
    var q0, r0 := a / d, a % d;
    assert a == d * q0 + r0 && 0 <= r0 < d;
    assert d * (q - q0) == r0 - r;
    if q > q0 {
      MulAtLeast(d, q - q0);
    } else if q < q0 {
      MulAtLeast(d, q0 - q);
    }
  }

  lemma MulAtLeast(d: int, k: int)
    requires d > 0 && k >= 1
    ensures d * k >= d
  {
  }

  lemma ModStep(a: int, d: int)
    requires d > 0 && a >= d
    ensures (a - d) % d == a % d && (a - d) / d == a / d - 1
  {
    var q, r := a / d, a % d;
    DivModUnique(a - d, d, q - 1, r);
  }

  /** A slot is emitted exactly when it is a free candidate of the walk. */
  lemma {:induction false} FreeSlotsMembership(from: int, end: int, d: int, busy: seq<Interval>, slot: Interval)
    requires d > 0
    ensures slot in FreeSlotsFrom(from, end, d, busy) <==> OnGrid(slot, from, end, d) && Free(slot, busy)
    decreases end - from
  {
    if from + d <= end {
      FreeSlotsMembership(from + d, end, d, busy, slot);
      if slot.start >= from + d {
        ModStep(slot.start - from, d);
      } else if from <= slot.start {
        DivModUnique(slot.start - from, d, 0, slot.start - from);
      }
    } else if from <= slot.start {
      if slot.start - from < d {
        DivModUnique(slot.start - from, d, 0, slot.start - from);
      }
    }
  }

  /** Every emitted slot is a candidate of the walk, and the slots come in
      increasing order, each ending no later than the next one starts. */
  lemma {:induction false} FreeSlotsAscending(from: int, end: int, d: int, busy: seq<Interval>)
    requires d > 0
    ensures forall i :: 0 <= i < |FreeSlotsFrom(from, end, d, busy)| ==>
              from <= FreeSlotsFrom(from, end, d, busy)[i].start
              && FreeSlotsFrom(from, end, d, busy)[i].end == FreeSlotsFrom(from, end, d, busy)[i].start + d
              && FreeSlotsFrom(from, end, d, busy)[i].end <= end
    ensures forall i, j :: 0 <= i < j < |FreeSlotsFrom(from, end, d, busy)| ==>
              FreeSlotsFrom(from, end, d, busy)[i].end <= FreeSlotsFrom(from, end, d, busy)[j].start
    decreases end - from
  {
    if from + d <= end {
      FreeSlotsAscending(from + d, end, d, busy);
    }
  }

  /** Without busy intervals the walk emits floor((end - from) / d) slots. */
  lemma {:induction false} FreeSlotsCountWhenIdle(from: int, end: int, d: int)
    requires d > 0
    ensures |FreeSlotsFrom(from, end, d, [])| == if end >= from then (end - from) / d else 0
    decreases end - from
  {
    if from + d <= end {
      FreeSlotsCountWhenIdle(from + d, end, d);
      ModStep(end - from, d);
    } else if end >= from {
      DivModUnique(end - from, d, 0, end - from);
    }
  }

  /** A busy interval covering the whole window leaves no free slot. */
  lemma {:induction false} FreeSlotsNoneWhenCovered(from: int, end: int, d: int, busy: seq<Interval>, b: Interval)
    requires d > 0 && b in busy && b.start <= from && end <= b.end
    ensures FreeSlotsFrom(from, end, d, busy) == []
    decreases end - from
  {
    if from + d <= end {
      assert Overlaps(Interval(from, from + d), b);
      FreeSlotsNoneWhenCovered(from + d, end, d, busy, b);
    }
  }

  /** The emitted slots in full: the walk over the search window when the
      duration is positive; none when a non-positive duration does not even
      enter the loop. */
  function FreeSlots(w: Interval, duration: int, busy: seq<Interval>): seq<Interval>
  {
    if duration > 0 then FreeSlotsFrom(w.start, w.end, duration * 60, busy) else []
  }

  /** The slot loop of `get_all_free_slots`: the cursor starts at the
      window start and advances by the slot length while a whole slot still
      fits; every candidate no busy interval overlaps is appended. */
  method WalkSlots(startDt: int, endDt: int, step: int, busy: seq<Interval>) returns (freeSlots: seq<Interval>)
    requires step > 0
    ensures freeSlots == FreeSlotsFrom(startDt, endDt, step, busy)
  {
    freeSlots := [];
    var current := startDt;
    while current + step <= endDt
      invariant freeSlots + FreeSlotsFrom(current, endDt, step, busy) == FreeSlotsFrom(startDt, endDt, step, busy)
      decreases endDt - current
    {
      ghost var before := freeSlots;
      var slotStart := current;
      var slotEnd := current + step;
      var overlaps := exists b :: b in busy && slotStart < b.end && slotEnd > b.start;
      ghost var emitted := if overlaps then [] else [Interval(slotStart, slotEnd)];
      assert overlaps <==> !Free(Interval(slotStart, slotEnd), busy);
      assert FreeSlotsFrom(current, endDt, step, busy) == emitted + FreeSlotsFrom(current + step, endDt, step, busy);
      if !overlaps {
        freeSlots := freeSlots + [Interval(slotStart, slotEnd)];
      }
      assert freeSlots == before + emitted;
      assert freeSlots + FreeSlotsFrom(current + step, endDt, step, busy)
          == before + (emitted + FreeSlotsFrom(current + step, endDt, step, busy));
      current := current + step;
    }
  }

  /** `get_all_free_slots(date, start_range, end_range, duration_minutes)`:
      the window is computed, then walked in steps of the duration. When
      the loop starts with a step that is not positive, it never stops on
      its own: a zero step loops forever, and a negative one moves the
      cursor back until `datetime` arithmetic leaves its range and raises.
      Both are reported instead; a loop that does not start yields no
      slot. */
  method GetAllFreeSlots(date: string, startRange: string, endRange: string, duration: int,
                         now: ClockTime, busy: seq<Interval>)
    returns (r: Result<seq<Interval>, SlotError>)
    ensures SearchWindow(date, startRange, endRange, now).Err? ==>
              r == Err(SearchWindow(date, startRange, endRange, now).error)
    ensures SearchWindow(date, startRange, endRange, now).Ok? ==>
              var w := SearchWindow(date, startRange, endRange, now).value;
              if duration == 0 && w.start <= w.end then r == Err(Diverges)
              else if duration < 0 && w.start + duration * 60 <= w.end then r == Err(OutOfRange)
              else r == Ok(FreeSlots(w, duration, busy))
  {
    var window := SearchWindow(date, startRange, endRange, now);
    if window.Err? {
      return Err(window.error);
    }
    var startDt, endDt := window.value.start, window.value.end;
    var step := duration * 60;
    if step <= 0 {
      if startDt + step <= endDt {
        return if step == 0 then Err(Diverges) else Err(OutOfRange);
      }
      return Ok([]);
    }
    var freeSlots := WalkSlots(startDt, endDt, step, busy);
    return Ok(freeSlots);
  }

  /** `find_free_slot`: the first slot of `get_all_free_slots`, or None. */
  method FindFreeSlot(date: string, startRange: string, endRange: string, duration: int,
                      now: ClockTime, busy: seq<Interval>)
    returns (r: Result<Option<Interval>, SlotError>)
    ensures SearchWindow(date, startRange, endRange, now).Err? ==>
              r == Err(SearchWindow(date, startRange, endRange, now).error)
    ensures SearchWindow(date, startRange, endRange, now).Ok? ==>
              var w := SearchWindow(date, startRange, endRange, now).value;
              var slots := FreeSlots(w, duration, busy);
              if duration == 0 && w.start <= w.end then r == Err(Diverges)
              else if duration < 0 && w.start + duration * 60 <= w.end then r == Err(OutOfRange)
              else r == Ok(if slots == [] then None else Some(slots[0]))
  {
    var slots := GetAllFreeSlots(date, startRange, endRange, duration, now, busy);
    if slots.Err? {
      return Err(slots.error);
    }
    return Ok(if slots.value != [] then Some(slots.value[0]) else None);
  }

  /** The first slot is the earliest free candidate of the walk: it is
      free, and every candidate starting before it overlaps a busy
      interval. */
  lemma {:induction false} FirstSlotIsEarliest(from: int, end: int, d: int, busy: seq<Interval>, other: Interval)
    requires d > 0 && FreeSlotsFrom(from, end, d, busy) != []
    requires OnGrid(other, from, end, d) && other.start < FreeSlotsFrom(from, end, d, busy)[0].start
    ensures OnGrid(FreeSlotsFrom(from, end, d, busy)[0], from, end, d)
    ensures Free(FreeSlotsFrom(from, end, d, busy)[0], busy)
    ensures !Free(other, busy)
    decreases end - from
  {
    var first := FreeSlotsFrom(from, end, d, busy)[0];
    FreeSlotsMembership(from, end, d, busy, first);
    var slot := Interval(from, from + d);
    if Free(slot, busy) {
    } else if other.start == from {
      assert other == slot;
    } else {
      ModStep(other.start - from, d);
      FirstSlotIsEarliest(from + d, end, d, busy, other);
    }
  }
}
