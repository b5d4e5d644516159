/**
 * Weekly quota tracker of coffee-chats.py: `person_weekly_meetings`, a nested
 * defaultdict from group1 name to Monday-keyed week to a meeting count, here a
 * map keyed by (name, week start) whose missing keys read as 0.
 *
 * Dates are day numbers; day 0 is a Monday, so `weekday()` is `day % 7`.
 */
module WeeklyQuota {

  const MaxMeetingsPerWeekGroup1: nat := 2

  type Quota = map<(string, int), nat>

  /** date.weekday(): 0 for Monday .. 6 for Sunday. */
  function Weekday(day: int): (w: int)
    ensures 0 <= w < 7
  {
    day % 7
  }

  /** current_date - timedelta(days=current_date.weekday()): the Monday of the week. */
  function WeekStart(day: int): (monday: int)
    ensures Weekday(monday) == 0
    ensures monday <= day < monday + 7
  {
    day - Weekday(day)
  }

  /** A defaultdict(int) read: 0 for a key never incremented. */
  function Count(quota: Quota, key: (string, int)): nat
  {
    if key in quota then quota[key] else 0
  }

  /** The increment after a booking: that one count goes up by one, every other stays. */
  function Commit(quota: Quota, key: (string, int)): (r: Quota)
    ensures Count(r, key) == Count(quota, key) + 1
    ensures forall k :: k != key ==> Count(r, k) == Count(quota, k)
  {
    quota[key := Count(quota, key) + 1]
  }

  /** Two days share a quota entry exactly when they fall in the same Monday-to-Sunday week. */
  lemma SameWeek(d1: int, d2: int)
    ensures WeekStart(d1) == WeekStart(d2) <==> WeekStart(d1) <= d2 < WeekStart(d1) + 7
  {
  }
}
