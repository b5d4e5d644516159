# Coffee-chats scheduler, modelled in Dafny

This project models the scheduling core of `coffee-chats.py`. The script reads a
roster sheet (name, group, email, timezone tag). It pairs every `group1` person with
every `group2` person and books each pair a 20-minute meeting. The meeting goes at the
first candidate time in the days ahead that:

- falls on a weekday;
- falls inside the pair's preferred window, which is keyed by the two timezone tags and
  given in Europe/Paris time;
- avoids the 12:00–14:00 Paris lunch break;
- is free in both calendars.

A `group1` person gets at most `MAX_MEETINGS_PER_WEEK_GROUP1 = 2` meetings per ISO
week. A pair that gets no slot is reported under its alphabetically sorted names, with
the set of reasons collected along the way.

The model is organised as follows:

- `Roster`: `pair_people` as a loop over the rows, proved against `Filter`, and the
  cross product of the two groups.
- `TimeWindows`: the static `preferred_times` table and the start hour and minute derived
  from it. Also the slot loop's guard and the lunch rule. Times of day are Paris
  half-hours, so 17.5 h is 35 and 1.5 h is 3.
- `Availability`: `check_availability` as an imperative method. Its first loop queries
  every email, and its nested loops scan the busy intervals. It is proved equal to the
  reference predicate `IsFree`, whose meaning is proved as a quantified statement.
- `WeeklyQuota`: the nested `defaultdict` as a map from (name, Monday) to a count that
  defaults to 0. Also the weekday and week-start arithmetic on day numbers (day 0 is a
  Monday).
- `SlotSearch`: the reference definitions of the search.
  - `SlotsFrom` is the slot loop of one day.
  - `DayOutcome` is one iteration of the day loop.
  - `DaysFrom` and `FindSlot` are the day loop.
  - Around them are the lemmas proving that the search books the chronologically first
    bookable candidate, and finds nothing only when no candidate in the horizon is
    bookable.
- `Scheduler`: the loops of `schedule_coffee_chats_with_tz` as methods. `WalkWindow`
  is the slot loop, `TryDay` one day, and `SearchPair` the day loop. `SchedulePair`
  runs one iteration of the pair loop, and `ScheduleCoffeeChatsWithTz` runs the whole
  function. Each method is proved equal to its reference function. The run as a whole is
  the fold `Run` of `ProcessPair` over the shuffled pairs. The lemmas about `Run` state
  the following for every prefix of the run:
  - the event counter;
  - which pairs got meetings;
  - where every meeting falls;
  - the weekly quota;
  - the latest event date;
  - the unfulfilled report.

One behaviour of the source is worth knowing. The slot loop's guard compares the
candidate's whole Paris hour with a fractional bound (`hour < start.hour + duration`).
As a result, in the 7.5-hour Paris/Paris window (10:00 to 17:30) a candidate at 17:30
still passes, while 18:00 does not (`TimeWindows.ParisParisLastCandidate`). The model
keeps the source's guard.

## Model

| member | source | states |
|---|---|---|
| Roster.Filter | coffee-chats.py:75-80 | a row is in the group exactly when it is in the roster with that group label; the group is never longer than the roster |
| Roster.FilterConcat | coffee-chats.py:75-80 | grouping the rows of two roster halves gives the groups of the first half followed by those of the second, so the groups keep sheet order |
| Roster.PartitionBound | coffee-chats.py:75-80 | the two groups together never hold more rows than the roster, since rows with any other label are dropped |
| Roster.PairPeople | coffee-chats.py:71-87 | returns exactly the group1 rows and the group2 rows, each in sheet order |
| Roster.CrossProduct | coffee-chats.py:266 | the candidate pairs are all combinations of a group1 row with a group2 row; there are len(group1) * len(group2) of them |
| TimeWindows.WindowForPair | coffee-chats.py:224-240 | a listed timezone pair always involves Paris and has a non-empty window that ends within the day; None exactly for pairs missing from the table |
| TimeWindows.WindowForPairSymmetric | coffee-chats.py:228-236 | swapping the two timezones never changes the window |
| TimeWindows.StartHour | coffee-chats.py:245-247 | the localized start hour is int(start): the whole hour at or below the fractional start |
| TimeWindows.StartMinute | coffee-chats.py:245-247 | the localized start minute is 0 or 30, and hour:minute equals the fractional start exactly |
| TimeWindows.ConfiguredWindows | coffee-chats.py:228-236 | Boston starts at 15:00 for 3 h, Chicago at 16:00 for 2 h, Seattle at 17:30 for 1.5 h, Paris/Paris at 10:00 for 7.5 h |
| TimeWindows.InWindowMonotone | coffee-chats.py:302-303 | once the slot loop's guard fails it fails for every later candidate |
| TimeWindows.ParisParisLastCandidate | coffee-chats.py:235 | in the Paris/Paris window the guard admits 17:30, the window's end, and rejects 18:00 |
| TimeWindows.LunchHalfHours | coffee-chats.py:213-221 | lunch is exactly the candidates 12:00, 12:30, 13:00 and 13:30 Paris time |
| Availability.OverlapsIsHalfOpenIntersection | coffee-chats.py:123-125 | the two-disjunct overlap test is the intersection test of two half-open intervals |
| Availability.IsFreeSplit | coffee-chats.py:100-130 | free one email at a time is the same as all queries succeeding and then none of the collected busy lists overlapping |
| Availability.IsFreeMeaning | coffee-chats.py:90-130 | a meeting is free exactly when no query failed and no busy interval of any attendee overlaps [start, start + 20 min) |
| Availability.CheckAvailability | coffee-chats.py:90-130 | the two loops answer True exactly when the meeting is free; an HttpError answers False |
| WeeklyQuota.Weekday | coffee-chats.py:277 | weekday() is between 0 (Monday) and 6 |
| WeeklyQuota.WeekStart | coffee-chats.py:278-280 | the week key is a Monday, at most six days before the date |
| WeeklyQuota.Commit | coffee-chats.py:331-332 | a booking adds one to its own (name, week) count and leaves every other count unchanged |
| WeeklyQuota.SameWeek | coffee-chats.py:278-280 | two dates share a week key exactly when the second falls in the Monday-to-Sunday week of the first |
| SlotSearch.SlotsFromFirst | coffee-chats.py:301-345 | the slot loop stops at the first in-window, non-lunch candidate that both attendees are free for, and finds nothing only when there is no such candidate |
| SlotSearch.DayOutcomeFirst | coffee-chats.py:277-345 | one day yields its first bookable candidate, and yields nothing only when it has no bookable candidate (weekend, full week, no window, or nothing free) |
| SlotSearch.DaysFromFirst | coffee-chats.py:276-350 | the day loop books the chronologically first bookable candidate of the horizon, and finds nothing only when no candidate of the horizon is bookable |
| SlotSearch.SlotsFromReasons | coffee-chats.py:301-345 | the slot loop records only "no mutual availability" reasons |
| SlotSearch.DaysFromReasons | coffee-chats.py:276-294 | a day loop from day k that finds nothing records the weekly-limit reason exactly when a later weekday of the horizon is in a full week, and the no-window reason exactly when the pair has no window and a later weekday is under the cap |
| SlotSearch.FindSlotReasons | coffee-chats.py:284-294 | a pair that gets no slot has the weekly-limit reason exactly when a weekday of the horizon is in a full week, and the no-window reason exactly when it has no window and a weekday of the horizon is under the cap |
| Scheduler.PairKey | coffee-chats.py:272 | the report key is the two names in sorted order |
| Scheduler.PairKeySymmetric | coffee-chats.py:272 | both orders of a pair give the same report key |
| Scheduler.ProcessPairBookings | coffee-chats.py:330-339 | one pair either adds exactly one meeting, for itself, and one to event_count, or adds nothing |
| Scheduler.RunCounts | coffee-chats.py:260-334 | event_count equals the number of meetings, and no pair gets more meetings than the times it was processed |
| Scheduler.BookingsFromRoster | coffee-chats.py:254-270 | every meeting is between a group1 row and a group2 row of the roster, with the group1 person first |
| Scheduler.RunBookingsOk | coffee-chats.py:276-312 | every meeting is on a weekday of the horizon, inside its window, outside lunch, at a time both attendees are free; its UTC start is the converted local start |
| Scheduler.RunQuota | coffee-chats.py:284-288 | each weekly count equals the group1 meetings charged to that name and week, and never exceeds MAX_MEETINGS_PER_WEEK_GROUP1 |
| Scheduler.RunLatest | coffee-chats.py:335-337 | latest_event_date is None exactly when nothing was booked; otherwise it is the day of some meeting and no meeting is later |
| Scheduler.ProcessPairUnfulfilled | coffee-chats.py:352-354 | one pair changes the report only under its own key, only when it found no slot, and never stores an empty reason set; a pair that found no slot and recorded a reason is stored under its sorted names with exactly the set of its reasons; no key is ever removed |
| Scheduler.RunUnfulfilled | coffee-chats.py:352-354 | every reported key is a sorted name pair of some processed pair that found no slot, with a non-empty reason set |
| Scheduler.RunKeysGrow | coffee-chats.py:352-354 | unfulfilled_pairs only grows: a key present after some pairs is present after every later pair |
| Scheduler.ReportStays | coffee-chats.py:352-354 | a pair that found no slot and recorded a reason is still reported, under its sorted names, after every later pair |
| Scheduler.RunReportsEveryUnfulfilled | coffee-chats.py:352-354 | every processed pair that found no slot and recorded a reason is in the report, under its sorted names |
| Scheduler.WalkWindow | coffee-chats.py:301-345 | the slot loop returns the reference day search from the window start: the slot found and the busy reasons recorded |
| Scheduler.TryDay | coffee-chats.py:277-345 | one day of the day loop: a weekend gives nothing, a full week and a missing window give their reason, and otherwise the day gives the slot loop's result |
| Scheduler.SearchPair | coffee-chats.py:271-350 | the day loop returns the reference search of the pair over the whole horizon |
| Scheduler.SchedulePair | coffee-chats.py:270-354 | one pair-loop iteration moves quota, event_count, latest_event_date, the meetings and unfulfilled_pairs exactly as ProcessPair does; calendar inserts happen only outside a dry run |
| Scheduler.ScheduleCoffeeChatsWithTz | coffee-chats.py:251-354 | expected_meetings is len(group1) * len(group2); the final state is the fold of ProcessPair over the shuffled pairs, the same in a dry run (free/busy answers being fixed for the run); a dry run inserts no event |

## Left out

- Google OAuth, Sheets reads and Calendar writes are not modelled. The roster is a parameter, the free/busy answers are a map from email to busy intervals or an HttpError, and `create_calendar_event` is a recorded booking.
- pytz localization and DST are not modelled. The Paris-to-UTC conversion is an abstract function of the local minute. The 30-minute steps are taken in Paris time, which agrees with the source's UTC steps because no DST change falls inside a window.
- Dates are day numbers. The UTC date of `datetime.now()` and the Paris date of a candidate are the same day number, which holds for the windows, all between 10:00 and 19:00 Paris time.
- `random.shuffle` is not modelled. The processing order is a parameter whose multiset equals the cross product.
- Printing, `line_count`, debug output and argument parsing are not modelled.
- `adjust_to_weekday` is not modelled. Nothing calls it, and it never terminates on a weekend date because it adds zero days.
- The organizer reminder event after the pair loop (coffee-chats.py:358-384) is not modelled.
- The failure branch after `create_calendar_event` (coffee-chats.py:325-328) is not modelled. That function returns True whenever it returns at all, so the branch cannot run. An API exception would end the run, which is not modelled either.
- The reasons string `"; ".join(set(...))` is modelled as the set of reasons. The joined text and its arbitrary order are not modelled.
- Rows with fewer than four cells are not modelled: a roster row always has all four fields. In the source, only a row with fewer than two cells raises IndexError inside `pair_people` (coffee-chats.py:76). A shorter row with any other label is dropped without error. A `group1` or `group2` row with two or three cells (the Sheets API drops trailing empty cells) is kept. It raises IndexError only when its pair is searched, at `p1[3]`/`p2[3]` (coffee-chats.py:290). That ends the whole run after the earlier pairs were already booked.
- The free/busy answers are one fixed map for the whole run. In the source, events inserted for earlier pairs (coffee-chats.py:325, opaque events) can show up as busy time in later free/busy queries. Later queries in the model do not see the run's own inserts. So the statement that a dry run ends in the same state as a real run, and the freedom of meetings that share an attendee, hold only under this abstraction.
- Availability.CheckAvailability: queries are pure lookups. A free/busy answer that does not mention the email counts as no busy intervals, as the source's `.get(..., [])` chain does. Network time and retries are not modelled.
