/**
 * Timezone window resolver and lunch rule of coffee-chats.py.
 *
 * Times of day are organizer-local (Europe/Paris) and counted in half-hours
 * from midnight, so the source's fractional hours become integers: a start of
 * 17.5 h is 35 half-hours, a duration of 1.5 h is 3 half-hours.
 */
module TimeWindows {
  import opened Wrappers

  /** A preferred window: organizer-local start and length, both in half-hours. */
  datatype Window = Window(start: nat, duration: nat)

  /** The static preferred_times table, keyed by (timezone of p1, timezone of p2). */
  const PreferredTimes: map<(string, string), Window> :=
    map[
      ("Paris", "Boston") := Window(30, 6),    // 15:00, 3 h
      ("Boston", "Paris") := Window(30, 6),
      ("Paris", "Chicago") := Window(32, 4),   // 16:00, 2 h
      ("Chicago", "Paris") := Window(32, 4),
      ("Paris", "Seattle") := Window(35, 3),   // 17:30, 1.5 h
      ("Seattle", "Paris") := Window(35, 3),
      ("Paris", "Paris") := Window(20, 15)     // 10:00, 7.5 h
    ]

  /** get_time_window_for_pair: the window of a timezone pair, or None for an unlisted pair. */
  function WindowForPair(tz1: string, tz2: string): (r: Option<Window>)
    ensures r.Some? ==> tz1 == "Paris" || tz2 == "Paris"
    ensures r.Some? ==> 0 < r.value.duration && r.value.start + r.value.duration <= 48
    ensures r.None? <==> (tz1, tz2) !in PreferredTimes
  {
    if (tz1, tz2) in PreferredTimes then Some(PreferredTimes[(tz1, tz2)]) else None
  }

  /** The hour of the localized window start: int(start). */
  function StartHour(w: Window): (h: nat)
    ensures 2 * h <= w.start < 2 * h + 2
  {
    w.start / 2
  }

  /** The minute of the localized window start: (start - int(start)) * 60. */
  function StartMinute(w: Window): (m: nat)
    ensures m == 0 || m == 30
    ensures 60 * StartHour(w) + m == 30 * w.start
  {
    (w.start % 2) * 30
  }

  /** The slot loop's guard: the candidate's local hour is below int(start) + duration. */
  predicate InWindow(w: Window, half: int)
  {
    2 * (half / 2) < 2 * StartHour(w) + w.duration
  }

  /** is_lunch_time, and the same test inlined in the slot loop: local hour in [12, 14). */
  predicate IsLunchTime(localHour: int)
  {
    12 <= localHour < 14
  }

  /** Swapping the two timezones never changes the window, listed or not. */
  lemma WindowForPairSymmetric(tz1: string, tz2: string)
    ensures WindowForPair(tz1, tz2) == WindowForPair(tz2, tz1)
  {
  }

  /** The four configured windows, read back as clock times. */
  lemma ConfiguredWindows()
    ensures var w := WindowForPair("Paris", "Boston").value;
      StartHour(w) == 15 && StartMinute(w) == 0 && w.duration == 6
    ensures var w := WindowForPair("Chicago", "Paris").value;
      StartHour(w) == 16 && StartMinute(w) == 0 && w.duration == 4
    ensures var w := WindowForPair("Seattle", "Paris").value;
      StartHour(w) == 17 && StartMinute(w) == 30 && w.duration == 3
    ensures var w := WindowForPair("Paris", "Paris").value;
      StartHour(w) == 10 && StartMinute(w) == 0 && w.duration == 15
  {
  }

  /** Once the guard fails it fails for every later candidate: the slot loop ends for good. */
  lemma InWindowMonotone(w: Window, a: int, b: int)
    requires a <= b && InWindow(w, b)
    ensures InWindow(w, a)
  {
  }

  /**
   * The guard compares whole hours with a fractional bound: in the 7.5 h
   * Paris/Paris window (10:00 to 17:30) a candidate at 17:30 still passes.
   */
  lemma ParisParisLastCandidate()
    ensures var w := WindowForPair("Paris", "Paris").value;
      w.start + w.duration == 35 && InWindow(w, 35) && !InWindow(w, 36)
  {
  }

  /** In half-hours, lunch is exactly the four candidates 12:00, 12:30, 13:00 and 13:30. */
  lemma LunchHalfHours(half: nat)
    ensures IsLunchTime(half / 2) <==> 24 <= half < 28
  {
  }
}
