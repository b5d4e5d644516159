/**
 * Slot search of `schedule_coffee_chats_with_tz` (coffee-chats.py), as
 * reference definitions: for one pair, walk the days of the horizon, skip
 * weekends, days whose week is already at the group1 cap and days without a
 * window; inside a day, walk the half-hour candidates of the window, skip
 * lunch, and take the first candidate both attendees are free for.
 */
module SlotSearch {
  import opened Wrappers
  import opened Roster
  import opened TimeWindows
  import opened Availability
  import opened WeeklyQuota

  /**
   * What one run sees of the outside world: the free/busy answers, the
   * organizer-local to UTC conversion (local minutes to UTC minutes), the
   * day of `datetime.now()` and the horizon in days.
   */
  datatype Env = Env(freeBusy: map<string, FreeBusy>, toUtc: int -> int, startDay: int, daysAhead: int)

  /** The strings the source appends to pair_unfulfilled_reasons. */
  datatype Reason =
    | WeeklyLimit(name: string)                 // "<name> exceeded weekly limit (2)"
    | NoWindow                                  // "No overlapping time window between timezones"
    | NoMutualAvailability(utcStart: int)       // "No mutual availability at <UTC start>"

  /** A chosen slot: the day and the organizer-local half-hour of its start. */
  datatype Slot = Slot(day: int, half: int)

  /** The outcome of a search: the slot, if any, and the reasons collected on the way. */
  datatype Search = Search(slot: Option<Slot>, reasons: seq<Reason>)

  /** The organizer-local minute of a candidate, counted from day 0 at midnight. */
  function LocalMinute(day: int, half: int): int
  {
    day * 1440 + 30 * half
  }

  function UtcStart(env: Env, day: int, half: int): int
  {
    env.toUtc(LocalMinute(day, half))
  }

  /** The check on p1 before any window is looked at: is this week already at the cap? */
  predicate WeekFull(quota: Quota, p1: Row, day: int)
  {
    p1.group == Group1 && Count(quota, (p1.name, WeekStart(day))) >= MaxMeetingsPerWeekGroup1
  }

  /** A candidate the slot loop would book on `day`: in the window, not at lunch, both free. */
  ghost predicate FreeCandidate(env: Env, p1: Row, p2: Row, w: Window, day: int, half: int)
  {
    && w.start <= half
    && InWindow(w, half)
    && !IsLunchTime(half / 2)
    && IsFree(env.freeBusy, [p1.email, p2.email], UtcStart(env, day, half))
  }

  /** A weekday whose week is under the cap, with a window, and a free candidate in it. */
  ghost predicate Bookable(env: Env, quota: Quota, p1: Row, p2: Row, day: int, half: int)
  {
    && Weekday(day) < 5
    && !WeekFull(quota, p1, day)
    && WindowForPair(p1.tz, p2.tz).Some?
    && FreeCandidate(env, p1, p2, WindowForPair(p1.tz, p2.tz).value, day, half)
  }

  /** The slot loop of one day, from candidate `half` on. */
  ghost function SlotsFrom(env: Env, p1: Row, p2: Row, day: int, w: Window, half: int): Search
    decreases 2 * StartHour(w) + w.duration + 2 - half
  {
    if !InWindow(w, half) then Search(None, [])
    else if IsLunchTime(half / 2) then SlotsFrom(env, p1, p2, day, w, half + 1)
    else if IsFree(env.freeBusy, [p1.email, p2.email], UtcStart(env, day, half)) then
      Search(Some(Slot(day, half)), [])
    else
      var rest := SlotsFrom(env, p1, p2, day, w, half + 1);
      Search(rest.slot, [NoMutualAvailability(UtcStart(env, day, half))] + rest.reasons)
  }

  /**
   * One day of the day loop on its own: a weekend yields nothing, a full
   * week and a missing window each record their reason, and otherwise the
   * slot loop runs from the window start.
   */
  ghost function DayOutcome(env: Env, quota: Quota, p1: Row, p2: Row, day: int): Search
  {
    if Weekday(day) >= 5 then Search(None, [])
    else if WeekFull(quota, p1, day) then Search(None, [WeeklyLimit(p1.name)])
    else match WindowForPair(p1.tz, p2.tz)
      case None => Search(None, [NoWindow])
      case Some(w) => SlotsFrom(env, p1, p2, day, w, w.start)
  }

  /** The day loop of one pair, from `k` days after the start on. */
  ghost function DaysFrom(env: Env, quota: Quota, p1: Row, p2: Row, k: nat): Search
    decreases env.daysAhead + 1 - k
  {
    if k > env.daysAhead then Search(None, [])
    else
      var today := DayOutcome(env, quota, p1, p2, env.startDay + k);
      if today.slot.Some? then today
      else
        var rest := DaysFrom(env, quota, p1, p2, k + 1);
        Search(rest.slot, today.reasons + rest.reasons)
  }

  // One step of each loop, as the imperative search takes it.

  lemma DaysFromEnd(env: Env, quota: Quota, p1: Row, p2: Row, k: nat)
    requires k > env.daysAhead
    ensures DaysFrom(env, quota, p1, p2, k) == Search(None, [])
  {
  }

  lemma DaysFromStep(env: Env, quota: Quota, p1: Row, p2: Row, k: nat)
    requires k <= env.daysAhead
    ensures var today := DayOutcome(env, quota, p1, p2, env.startDay + k);
      today.slot.Some? ==> DaysFrom(env, quota, p1, p2, k) == today
    ensures var today := DayOutcome(env, quota, p1, p2, env.startDay + k);
      var rest := DaysFrom(env, quota, p1, p2, k + 1);
      today.slot.None? ==> DaysFrom(env, quota, p1, p2, k) == Search(rest.slot, today.reasons + rest.reasons)
  {
  }

  lemma SlotsFromStep(env: Env, p1: Row, p2: Row, day: int, w: Window, half: int)
    ensures !InWindow(w, half) ==> SlotsFrom(env, p1, p2, day, w, half) == Search(None, [])
    ensures InWindow(w, half) && IsLunchTime(half / 2) ==>
      SlotsFrom(env, p1, p2, day, w, half) == SlotsFrom(env, p1, p2, day, w, half + 1)
    ensures InWindow(w, half) && !IsLunchTime(half / 2)
            && IsFree(env.freeBusy, [p1.email, p2.email], UtcStart(env, day, half)) ==>
      SlotsFrom(env, p1, p2, day, w, half) == Search(Some(Slot(day, half)), [])
    ensures InWindow(w, half) && !IsLunchTime(half / 2)
            && !IsFree(env.freeBusy, [p1.email, p2.email], UtcStart(env, day, half)) ==>
      var rest := SlotsFrom(env, p1, p2, day, w, half + 1);
      SlotsFrom(env, p1, p2, day, w, half)
        == Search(rest.slot, [NoMutualAvailability(UtcStart(env, day, half))] + rest.reasons)
  {
  }

  /** The whole search of one pair over the horizon. */
  ghost function FindSlot(env: Env, quota: Quota, p1: Row, p2: Row): Search
  {
    DaysFrom(env, quota, p1, p2, 0)
  }

  /**
   * Within a day, the slot loop returns the first free non-lunch candidate in
   * the window at or after `half`, and none when there is no such candidate.
   */
  lemma {:induction false} SlotsFromFirst(env: Env, p1: Row, p2: Row, day: int, w: Window, half: int)
    requires w.start <= half
    ensures var r := SlotsFrom(env, p1, p2, day, w, half);
      && (r.slot.Some? ==>
            && r.slot.value.day == day
            && half <= r.slot.value.half
            && FreeCandidate(env, p1, p2, w, day, r.slot.value.half)
            && forall h :: half <= h < r.slot.value.half ==> !FreeCandidate(env, p1, p2, w, day, h))
      && (r.slot.None? ==> forall h :: half <= h ==> !FreeCandidate(env, p1, p2, w, day, h))
    decreases 2 * StartHour(w) + w.duration + 2 - half
  {
    if !InWindow(w, half) {
      forall h | half <= h ensures !InWindow(w, h) {
        if InWindow(w, h) { InWindowMonotone(w, half, h); }
      }
    } else if IsLunchTime(half / 2) || !IsFree(env.freeBusy, [p1.email, p2.email], UtcStart(env, day, half)) {
      SlotsFromFirst(env, p1, p2, day, w, half + 1);
    }
  }

  /**
   * One day books its first bookable candidate, and yields nothing only when
   * it has no bookable candidate at all.
   */
  lemma DayOutcomeFirst(env: Env, quota: Quota, p1: Row, p2: Row, day: int)
    ensures var r := DayOutcome(env, quota, p1, p2, day);
      && (r.slot.Some? ==>
            && r.slot.value.day == day
            && Bookable(env, quota, p1, p2, day, r.slot.value.half)
            && forall h :: h < r.slot.value.half ==> !Bookable(env, quota, p1, p2, day, h))
      && (r.slot.None? ==> forall h :: !Bookable(env, quota, p1, p2, day, h))
  {
    if Weekday(day) < 5 && !WeekFull(quota, p1, day) && WindowForPair(p1.tz, p2.tz).Some? {
      var w := WindowForPair(p1.tz, p2.tz).value;
      SlotsFromFirst(env, p1, p2, day, w, w.start);
    }
  }

  /** `s` is bookable, within the horizon, and no candidate from day `from` on comes before it. */
  ghost predicate FirstBookableFrom(env: Env, quota: Quota, p1: Row, p2: Row, from: int, s: Slot)
  {
    && from <= s.day <= env.startDay + env.daysAhead
    && Bookable(env, quota, p1, p2, s.day, s.half)
    && forall d, h :: from <= d && (d < s.day || (d == s.day && h < s.half)) ==>
         !Bookable(env, quota, p1, p2, d, h)
  }

  /** No candidate of the horizon from day `from` on is bookable. */
  ghost predicate NoneBookableFrom(env: Env, quota: Quota, p1: Row, p2: Row, from: int)
  {
    forall d, h :: from <= d <= env.startDay + env.daysAhead ==> !Bookable(env, quota, p1, p2, d, h)
  }

  /** A day that yields a slot yields the first bookable candidate from that day on. */
  lemma OpenDay(env: Env, quota: Quota, p1: Row, p2: Row, day: int)
    requires day <= env.startDay + env.daysAhead
    requires DayOutcome(env, quota, p1, p2, day).slot.Some?
    ensures FirstBookableFrom(env, quota, p1, p2, day, DayOutcome(env, quota, p1, p2, day).slot.value)
  {
    DayOutcomeFirst(env, quota, p1, p2, day);
    var s := DayOutcome(env, quota, p1, p2, day).slot.value;
    forall d, h | day <= d && (d < s.day || (d == s.day && h < s.half))
      ensures !Bookable(env, quota, p1, p2, d, h)
    {
      assert d == day && h < s.half;
    }
  }

  /** A day without a bookable candidate can be added in front of either outcome. */
  lemma ClosedDayInFront(env: Env, quota: Quota, p1: Row, p2: Row, day: int, later: Option<Slot>)
    requires forall h :: !Bookable(env, quota, p1, p2, day, h)
    requires later.Some? ==> FirstBookableFrom(env, quota, p1, p2, day + 1, later.value)
    requires later.None? ==> NoneBookableFrom(env, quota, p1, p2, day + 1)
    ensures later.Some? ==> FirstBookableFrom(env, quota, p1, p2, day, later.value)
    ensures later.None? ==> NoneBookableFrom(env, quota, p1, p2, day)
  {
    if later.Some? {
      var s := later.value;
      forall d, h | day <= d && (d < s.day || (d == s.day && h < s.half))
        ensures !Bookable(env, quota, p1, p2, d, h)
      {
        if d == day {
          assert !Bookable(env, quota, p1, p2, day, h);
        }
      }
    } else {
      forall d, h | day <= d <= env.startDay + env.daysAhead
        ensures !Bookable(env, quota, p1, p2, d, h)
      {
        if d == day {
          assert !Bookable(env, quota, p1, p2, day, h);
        }
      }
    }
  }

  /**
   * The search of one pair books the chronologically first bookable candidate
   * of the horizon (day first, then half-hour), and finds nothing only when
   * no candidate of the horizon is bookable.
   */
  lemma {:induction false} DaysFromFirst(env: Env, quota: Quota, p1: Row, p2: Row, k: nat)
    ensures var r := DaysFrom(env, quota, p1, p2, k);
      && (r.slot.Some? ==> FirstBookableFrom(env, quota, p1, p2, env.startDay + k, r.slot.value))
      && (r.slot.None? ==> NoneBookableFrom(env, quota, p1, p2, env.startDay + k))
    decreases env.daysAhead + 1 - k
  {
    if k > env.daysAhead {
      return;
    }
    var day := env.startDay + k;
    var today := DayOutcome(env, quota, p1, p2, day);
    DaysFromStep(env, quota, p1, p2, k);
    if today.slot.Some? {
      OpenDay(env, quota, p1, p2, day);
    } else {
      DaysFromFirst(env, quota, p1, p2, k + 1);
      DayOutcomeFirst(env, quota, p1, p2, day);
      ClosedDayInFront(env, quota, p1, p2, day, DaysFrom(env, quota, p1, p2, k + 1).slot);
    }
  }

  /** Day `k` of the horizon is a weekday on which p1's week is already at the cap. */
  predicate CappedDay(env: Env, quota: Quota, p1: Row, k: nat)
  {
    k <= env.daysAhead && Weekday(env.startDay + k) < 5 && WeekFull(quota, p1, env.startDay + k)
  }

  /** Day `k` of the horizon is a weekday on which p1's week is still under the cap. */
  predicate OpenWeekday(env: Env, quota: Quota, p1: Row, k: nat)
  {
    k <= env.daysAhead && Weekday(env.startDay + k) < 5 && !WeekFull(quota, p1, env.startDay + k)
  }

  /** The slot loop records only busy candidates. */
  lemma {:induction false} SlotsFromReasons(env: Env, p1: Row, p2: Row, day: int, w: Window, half: int)
    ensures forall r :: r in SlotsFrom(env, p1, p2, day, w, half).reasons ==> r.NoMutualAvailability?
    decreases 2 * StartHour(w) + w.duration + 2 - half
  {
    if InWindow(w, half) {
      SlotsFromReasons(env, p1, p2, day, w, half + 1);
    }
  }

  /**
   * A search from day `k` that finds nothing records the weekly-limit reason
   * exactly when some later weekday of the horizon falls in a full week, and
   * the no-window reason exactly when the pair has no window and some later
   * weekday of the horizon is under the cap.
   */
  lemma {:induction false} DaysFromReasons(env: Env, quota: Quota, p1: Row, p2: Row, k: nat)
    requires DaysFrom(env, quota, p1, p2, k).slot.None?
    ensures WeeklyLimit(p1.name) in DaysFrom(env, quota, p1, p2, k).reasons
      <==> exists d :: k <= d && CappedDay(env, quota, p1, d)
    ensures NoWindow in DaysFrom(env, quota, p1, p2, k).reasons
      <==> WindowForPair(p1.tz, p2.tz).None? && exists d :: k <= d && OpenWeekday(env, quota, p1, d)
    decreases env.daysAhead + 1 - k
  {
    if k > env.daysAhead {
      return;
    }
    var day := env.startDay + k;
    var today := DayOutcome(env, quota, p1, p2, day);
    DaysFromStep(env, quota, p1, p2, k);
    DaysFromReasons(env, quota, p1, p2, k + 1);
    var w := WindowForPair(p1.tz, p2.tz);
    if Weekday(day) < 5 && !WeekFull(quota, p1, day) && w.Some? {
      SlotsFromReasons(env, p1, p2, day, w.value, w.value.start);
    }
    assert WeeklyLimit(p1.name) in today.reasons <==> CappedDay(env, quota, p1, k);
    assert NoWindow in today.reasons <==> w.None? && OpenWeekday(env, quota, p1, k);
    if CappedDay(env, quota, p1, k) {
      assert exists d :: k <= d && CappedDay(env, quota, p1, d);
    }
    if OpenWeekday(env, quota, p1, k) {
      assert exists d :: k <= d && OpenWeekday(env, quota, p1, d);
    }
    assert (exists d :: k <= d && CappedDay(env, quota, p1, d)) ==>
      CappedDay(env, quota, p1, k) || exists d :: k + 1 <= d && CappedDay(env, quota, p1, d);
    assert (exists d :: k <= d && OpenWeekday(env, quota, p1, d)) ==>
      OpenWeekday(env, quota, p1, k) || exists d :: k + 1 <= d && OpenWeekday(env, quota, p1, d);
  }

  /**
   * When the search of a pair finds nothing, its reasons name the weekly
   * limit exactly when a weekday of the horizon falls in a full week, and
   * the missing window exactly when the pair has none and a weekday of the
   * horizon is under the cap.
   */
  lemma FindSlotReasons(env: Env, quota: Quota, p1: Row, p2: Row)
    requires FindSlot(env, quota, p1, p2).slot.None?
    ensures WeeklyLimit(p1.name) in FindSlot(env, quota, p1, p2).reasons
      <==> exists d :: CappedDay(env, quota, p1, d)
    ensures NoWindow in FindSlot(env, quota, p1, p2).reasons
      <==> WindowForPair(p1.tz, p2.tz).None? && exists d :: OpenWeekday(env, quota, p1, d)
  {
    DaysFromReasons(env, quota, p1, p2, 0);
  }
}
