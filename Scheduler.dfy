/**
 * Pairing scheduler of coffee-chats.py (`schedule_coffee_chats_with_tz`):
 * process the group1 x group2 pairs in the shuffled order, book each pair at
 * the first slot its search finds, keep the weekly quota, the event counter
 * and the latest event date, and report the pairs that got no slot.
 */
module Scheduler {
  import opened Wrappers
  import opened Roster
  import opened TimeWindows
  import opened Availability
  import opened WeeklyQuota
  import opened SlotSearch

  /** Python's `<` on strings: lexicographic on code points, a proper prefix first. */
  predicate StrLess(a: string, b: string)
    decreases |a|
  {
    if a == [] then b != []
    else if b == [] then false
    else if a[0] != b[0] then a[0] < b[0]
    else StrLess(a[1..], b[1..])
  }

  lemma {:induction false} StrLessAsymmetric(a: string, b: string)
    ensures !(StrLess(a, b) && StrLess(b, a))
    decreases |a|
  {
    if a != [] && b != [] && a[0] == b[0] {
      StrLessAsymmetric(a[1..], b[1..]);
    }
  }

  lemma {:induction false} StrLessTotal(a: string, b: string)
    requires a != b
    ensures StrLess(a, b) || StrLess(b, a)
    decreases |a|
  {
    if a != [] && b != [] && a[0] == b[0] {
      assert a == [a[0]] + a[1..] && b == [b[0]] + b[1..];
      StrLessTotal(a[1..], b[1..]);
    }
  }

  /** tuple(sorted((name1, name2))): the key under which a pair is reported. */
  function PairKey(name1: string, name2: string): (key: (string, string))
    ensures key == (name1, name2) || key == (name2, name1)
    ensures !StrLess(key.1, key.0)
  {
    StrLessAsymmetric(name1, name2);
    if StrLess(name2, name1) then (name2, name1) else (name1, name2)
  }

  /** The key does not depend on which of the two names comes first. */
  lemma PairKeySymmetric(name1: string, name2: string)
    ensures PairKey(name1, name2) == PairKey(name2, name1)
  {
    if name1 != name2 {
      StrLessTotal(name1, name2);
      StrLessAsymmetric(name1, name2);
    }
  }

  /** One scheduled meeting: the pair, its day, its local half-hour and its UTC start. */
  datatype Booking = Booking(p1: Row, p2: Row, day: int, half: int, utcStart: int)

  /** The scheduler's state after some pairs: the quota, event_count, latest_event_date,
      unfulfilled_pairs (reasons as a set) and the meetings scheduled so far. */
  datatype RunState = RunState(
    quota: Quota,
    eventCount: nat,
    latest: Option<int>,
    unfulfilled: map<(string, string), set<Reason>>,
    bookings: seq<Booking>)

  const Initial: RunState := RunState(map[], 0, None, map[], [])

  /** The bookkeeping after a booking: quota (group1 only), event_count, latest_event_date, the event itself. */
  function Booked(env: Env, st: RunState, p: (Row, Row), s: Slot): RunState
  {
    RunState(
      if p.0.group == Group1 then Commit(st.quota, (p.0.name, WeekStart(s.day))) else st.quota,
      st.eventCount + 1,
      if st.latest.None? || s.day > st.latest.value then Some(s.day) else st.latest,
      st.unfulfilled,
      st.bookings + [Booking(p.0, p.1, s.day, s.half, UtcStart(env, s.day, s.half))])
  }

  /** The report of a pair left without a slot, under its sorted key, when any reason was recorded. */
  function Reported(st: RunState, p: (Row, Row), reasons: seq<Reason>): RunState
  {
    if |reasons| > 0 then
      st.(unfulfilled := st.unfulfilled[PairKey(p.0.name, p.1.name) := set r | r in reasons])
    else st
  }

  /** The effect of one iteration of the pair loop. */
  ghost function ProcessPair(env: Env, st: RunState, p: (Row, Row)): RunState
  {
    var search := FindSlot(env, st.quota, p.0, p.1);
    match search.slot
    case Some(s) => Booked(env, st, p, s)
    case None => Reported(st, p, search.reasons)
  }


  /** The state after the first n pairs of the processing order. */
  ghost function Run(env: Env, pairs: seq<(Row, Row)>, n: nat): RunState
    requires n <= |pairs|
  {
    if n == 0 then Initial else ProcessPair(env, Run(env, pairs, n - 1), pairs[n - 1])
  }

  /** What every scheduled meeting satisfies. */
  ghost predicate BookingOk(env: Env, b: Booking)
  {
    && env.startDay <= b.day <= env.startDay + env.daysAhead
    && Weekday(b.day) < 5
    && WindowForPair(b.p1.tz, b.p2.tz).Some?
    && FreeCandidate(env, b.p1, b.p2, WindowForPair(b.p1.tz, b.p2.tz).value, b.day, b.half)
    && b.utcStart == UtcStart(env, b.day, b.half)
  }

  /** The number of meetings of `bookings` charged to a group1 name in a week. */
  function BookedInWeek(bookings: seq<Booking>, key: (string, int)): nat
  {
    if bookings == [] then 0
    else
      var b := bookings[|bookings| - 1];
      BookedInWeek(bookings[..|bookings| - 1], key)
        + (if b.p1.group == Group1 && (b.p1.name, WeekStart(b.day)) == key then 1 else 0)
  }

  function BookedPairs(bookings: seq<Booking>): (r: seq<(Row, Row)>)
    ensures |r| == |bookings|
    ensures forall i :: 0 <= i < |bookings| ==> r[i] == (bookings[i].p1, bookings[i].p2)
  {
    seq(|bookings|, i requires 0 <= i < |bookings| => (bookings[i].p1, bookings[i].p2))
  }

  /** One iteration either books its own pair once or books nothing. */
  lemma ProcessPairBookings(env: Env, st: RunState, p: (Row, Row))
    ensures var after := ProcessPair(env, st, p);
      || (after.eventCount == st.eventCount + 1 && BookedPairs(after.bookings) == BookedPairs(st.bookings) + [p])
      || (after.eventCount == st.eventCount && after.bookings == st.bookings)
  {
    var after := ProcessPair(env, st, p);
    if FindSlot(env, st.quota, p.0, p.1).slot.Some? {
      assert BookedPairs(after.bookings) == BookedPairs(st.bookings) + [p];
    }
  }

  /** event_count counts the meetings, and no pair is booked more often than it is processed. */
  lemma {:induction false} RunCounts(env: Env, pairs: seq<(Row, Row)>, n: nat)
    requires n <= |pairs|
    ensures Run(env, pairs, n).eventCount == |Run(env, pairs, n).bookings|
    ensures multiset(BookedPairs(Run(env, pairs, n).bookings)) <= multiset(pairs[..n])
  {
    if n == 0 {
      assert Run(env, pairs, n) == Initial;
    } else {
      RunCounts(env, pairs, n - 1);
      RunCountsStep(env, pairs, n - 1);
    }
  }

  lemma RunCountsStep(env: Env, pairs: seq<(Row, Row)>, n: nat)
    requires n < |pairs|
    requires Run(env, pairs, n).eventCount == |Run(env, pairs, n).bookings|
    requires multiset(BookedPairs(Run(env, pairs, n).bookings)) <= multiset(pairs[..n])
    ensures Run(env, pairs, n + 1).eventCount == |Run(env, pairs, n + 1).bookings|
    ensures multiset(BookedPairs(Run(env, pairs, n + 1).bookings)) <= multiset(pairs[..n + 1])
  {
    var st := Run(env, pairs, n);
    assert Run(env, pairs, n + 1) == ProcessPair(env, st, pairs[n]);
    ProcessPairBookings(env, st, pairs[n]);
    assert pairs[..n + 1] == pairs[..n] + [pairs[n]];
  }

  /** Every meeting is between a group1 row and a group2 row of the sheet, p1 being the group1 one. */
  lemma BookingsFromRoster(env: Env, data: seq<Row>, pairs: seq<(Row, Row)>, n: nat)
    requires n <= |pairs|
    requires multiset(pairs) == multiset(CrossProduct(Filter(data, Group1), Filter(data, Group2)))
    ensures forall b :: b in Run(env, pairs, n).bookings ==>
      && b.p1 in data && b.p1.group == Group1
      && b.p2 in data && b.p2.group == Group2
  {
    RunCounts(env, pairs, n);
    var bs := Run(env, pairs, n).bookings;
    var booked := BookedPairs(bs);
    forall b | b in bs
      ensures b.p1 in data && b.p1.group == Group1 && b.p2 in data && b.p2.group == Group2
    {
      var i :| 0 <= i < |bs| && bs[i] == b;
      assert booked[i] in multiset(booked);
      assert booked[i] in pairs[..n];
      assert booked[i] in multiset(pairs);
    }
  }

  /** Every meeting falls on a weekday of the horizon, inside its window, outside lunch,
      at a time both attendees are free. */
  lemma {:induction false} RunBookingsOk(env: Env, pairs: seq<(Row, Row)>, n: nat)
    requires n <= |pairs|
    ensures forall b :: b in Run(env, pairs, n).bookings ==> BookingOk(env, b)
  {
    if n > 0 {
      RunBookingsOk(env, pairs, n - 1);
      var st := Run(env, pairs, n - 1);
      var p := pairs[n - 1];
      DaysFromFirst(env, st.quota, p.0, p.1, 0);
    }
  }

  /** Each quota entry counts exactly the meetings charged to it and never exceeds the cap. */
  lemma {:induction false} RunQuota(env: Env, pairs: seq<(Row, Row)>, n: nat)
    requires n <= |pairs|
    ensures forall key :: Count(Run(env, pairs, n).quota, key) == BookedInWeek(Run(env, pairs, n).bookings, key)
    ensures forall key :: Count(Run(env, pairs, n).quota, key) <= MaxMeetingsPerWeekGroup1
  {
    if n > 0 {
      RunQuota(env, pairs, n - 1);
      var st := Run(env, pairs, n - 1);
      var p := pairs[n - 1];
      var search := FindSlot(env, st.quota, p.0, p.1);
      if search.slot.Some? {
        DaysFromFirst(env, st.quota, p.0, p.1, 0);
        var s := search.slot.value;
        var bs := Run(env, pairs, n).bookings;
        assert bs[..|bs| - 1] == st.bookings;
      }
    }
  }

  /** latest_event_date is None before the first meeting and the latest meeting day after. */
  lemma {:induction false} RunLatest(env: Env, pairs: seq<(Row, Row)>, n: nat)
    requires n <= |pairs|
    ensures var st := Run(env, pairs, n);
      && (st.latest.None? <==> st.bookings == [])
      && (st.latest.Some? ==>
            && (forall b :: b in st.bookings ==> b.day <= st.latest.value)
            && exists b :: b in st.bookings && b.day == st.latest.value)
  {
    if n > 0 {
      RunLatest(env, pairs, n - 1);
      var st := Run(env, pairs, n - 1);
      var p := pairs[n - 1];
      var search := FindSlot(env, st.quota, p.0, p.1);
      if search.slot.Some? {
        var bs := Run(env, pairs, n).bookings;
        assert bs[|bs| - 1].day == search.slot.value.day;
      }
    }
  }

  /** One iteration adds to unfulfilled_pairs only the key of its own pair, and only when
      that pair got no slot; the reasons stored are never empty. A pair that got no slot
      and recorded a reason is stored under its key with exactly those reasons, and no
      key is ever removed. */
  lemma ProcessPairUnfulfilled(env: Env, st: RunState, p: (Row, Row))
    ensures var after := ProcessPair(env, st, p);
      forall key :: key in after.unfulfilled ==>
        || (key in st.unfulfilled && after.unfulfilled[key] == st.unfulfilled[key])
        || (&& key == PairKey(p.0.name, p.1.name)
            && FindSlot(env, st.quota, p.0, p.1).slot.None?
            && after.unfulfilled[key] != {})
    ensures var after := ProcessPair(env, st, p);
      var search := FindSlot(env, st.quota, p.0, p.1);
      var key := PairKey(p.0.name, p.1.name);
      search.slot.None? && |search.reasons| > 0 ==>
        key in after.unfulfilled && after.unfulfilled[key] == set r | r in search.reasons
    ensures st.unfulfilled.Keys <= ProcessPair(env, st, p).unfulfilled.Keys
  {
    var search := FindSlot(env, st.quota, p.0, p.1);
    if search.slot.None? && |search.reasons| > 0 {
      var reported := set r | r in search.reasons;
      assert search.reasons[0] in reported;
      assert ProcessPair(env, st, p).unfulfilled == st.unfulfilled[PairKey(p.0.name, p.1.name) := reported];
    }
  }

  /** The i-th pair of the order is reported under `key`: its sorted names, no slot found. */
  ghost predicate ReportedAt(env: Env, pairs: seq<(Row, Row)>, i: nat, key: (string, string))
    requires i < |pairs|
  {
    key == PairKey(pairs[i].0.name, pairs[i].1.name)
    && FindSlot(env, Run(env, pairs, i).quota, pairs[i].0, pairs[i].1).slot.None?
  }

  /** Every key of `unfulfilled` is a sorted name pair, reported at one of the first n pairs, with a reason. */
  ghost predicate ReportsOk(env: Env, pairs: seq<(Row, Row)>, n: nat, unfulfilled: map<(string, string), set<Reason>>)
    requires n <= |pairs|
  {
    forall key :: key in unfulfilled ==>
      && unfulfilled[key] != {}
      && !StrLess(key.1, key.0)
      && exists i :: 0 <= i < n && ReportedAt(env, pairs, i, key)
  }

  lemma ReportsOkStep(env: Env, pairs: seq<(Row, Row)>, n: nat, st: RunState)
    requires n < |pairs| && st.quota == Run(env, pairs, n).quota
    requires ReportsOk(env, pairs, n, st.unfulfilled)
    ensures ReportsOk(env, pairs, n + 1, ProcessPair(env, st, pairs[n]).unfulfilled)
  {
    var p := pairs[n];
    var after := ProcessPair(env, st, p);
    ProcessPairUnfulfilled(env, st, p);
    forall key | key in after.unfulfilled
      ensures after.unfulfilled[key] != {}
      ensures !StrLess(key.1, key.0)
      ensures exists i :: 0 <= i < n + 1 && ReportedAt(env, pairs, i, key)
    {
      if key in st.unfulfilled && after.unfulfilled[key] == st.unfulfilled[key] {
        var i :| 0 <= i < n && ReportedAt(env, pairs, i, key);
        assert ReportedAt(env, pairs, i, key);
      } else {
        assert ReportedAt(env, pairs, n, key);
      }
    }
  }

  lemma RunReportsStep(env: Env, pairs: seq<(Row, Row)>, n: nat)
    requires n < |pairs|
    requires ReportsOk(env, pairs, n, Run(env, pairs, n).unfulfilled)
    ensures ReportsOk(env, pairs, n + 1, Run(env, pairs, n + 1).unfulfilled)
  {
    var st := Run(env, pairs, n);
    assert Run(env, pairs, n + 1) == ProcessPair(env, st, pairs[n]);
    ReportsOkStep(env, pairs, n, st);
  }

  /** A reported pair is keyed by its sorted names, was processed without finding a slot,
      and carries at least one reason. */
  lemma {:induction false} RunUnfulfilled(env: Env, pairs: seq<(Row, Row)>, n: nat)
    requires n <= |pairs|
    ensures ReportsOk(env, pairs, n, Run(env, pairs, n).unfulfilled)
  {
    if n == 0 {
      assert Run(env, pairs, n).unfulfilled == map[];
    } else {
      RunUnfulfilled(env, pairs, n - 1);
      RunReportsStep(env, pairs, n - 1);
    }
  }

  /** The i-th pair of the order found no slot and recorded at least one reason. */
  ghost predicate LeftUnfulfilled(env: Env, pairs: seq<(Row, Row)>, i: nat)
    requires i < |pairs|
  {
    var search := FindSlot(env, Run(env, pairs, i).quota, pairs[i].0, pairs[i].1);
    search.slot.None? && |search.reasons| > 0
  }

  /** No key of unfulfilled_pairs is ever removed. */
  lemma {:induction false} RunKeysGrow(env: Env, pairs: seq<(Row, Row)>, m: nat, n: nat)
    requires m <= n <= |pairs|
    ensures Run(env, pairs, m).unfulfilled.Keys <= Run(env, pairs, n).unfulfilled.Keys
    decreases n - m
  {
    if m < n {
      RunKeysGrow(env, pairs, m, n - 1);
      ProcessPairUnfulfilled(env, Run(env, pairs, n - 1), pairs[n - 1]);
    }
  }

  /** Every processed pair that found no slot and recorded a reason is in the report, under its sorted names. */
  lemma RunReportsEveryUnfulfilled(env: Env, pairs: seq<(Row, Row)>, n: nat)
    requires n <= |pairs|
    ensures forall i :: 0 <= i < n && LeftUnfulfilled(env, pairs, i) ==>
      PairKey(pairs[i].0.name, pairs[i].1.name) in Run(env, pairs, n).unfulfilled
  {
    forall i | 0 <= i < n && LeftUnfulfilled(env, pairs, i)
      ensures PairKey(pairs[i].0.name, pairs[i].1.name) in Run(env, pairs, n).unfulfilled
    {
      ReportStays(env, pairs, i, n);
    }
  }

  /** The key of a pair reported at step i is still in the report after step n. */
  lemma ReportStays(env: Env, pairs: seq<(Row, Row)>, i: nat, n: nat)
    requires i < n <= |pairs| && LeftUnfulfilled(env, pairs, i)
    ensures PairKey(pairs[i].0.name, pairs[i].1.name) in Run(env, pairs, n).unfulfilled
  {
    var st := Run(env, pairs, i);
    assert Run(env, pairs, i + 1) == ProcessPair(env, st, pairs[i]);
    ProcessPairUnfulfilled(env, st, pairs[i]);
    RunKeysGrow(env, pairs, i + 1, n);
  }

  /** Moving the reasons of one step from the rest of the search to the reasons collected so far. */
  lemma CollectReasons(collected: seq<Reason>, more: seq<Reason>, rest: seq<Reason>)
    ensures (collected + more) + rest == collected + (more + rest)
  {
  }

  /**
   * The slot loop of one day: from the localized window start, in 30-minute
   * steps while the local hour is below int(start) + duration, skipping
   * lunch, it stops at the first candidate both attendees are free for and
   * records a reason for every busy one.
   */
  method WalkWindow(env: Env, p1: Row, p2: Row, day: int, w: Window)
    returns (found: Option<int>, dayReasons: seq<Reason>)
    ensures Search(if found.Some? then Some(Slot(day, found.value)) else None, dayReasons)
         == SlotsFrom(env, p1, p2, day, w, w.start)
  {
    dayReasons := [];
    ghost var today := SlotsFrom(env, p1, p2, day, w, w.start);
    var half := w.start;
    while InWindow(w, half)
      invariant today.slot == SlotsFrom(env, p1, p2, day, w, half).slot
      invariant today.reasons == dayReasons + SlotsFrom(env, p1, p2, day, w, half).reasons
      decreases 2 * StartHour(w) + w.duration + 2 - half
    {
      SlotsFromStep(env, p1, p2, day, w, half);
      if IsLunchTime(half / 2) {
        half := half + 1;
        continue;
      }
      var utcStart := UtcStart(env, day, half);
      var free := CheckAvailability(env.freeBusy, [p1.email, p2.email], utcStart);
      if free {
        return Some(half), dayReasons;
      }
      CollectReasons(dayReasons, [NoMutualAvailability(utcStart)], SlotsFrom(env, p1, p2, day, w, half + 1).reasons);
      dayReasons := dayReasons + [NoMutualAvailability(utcStart)];
      half := half + 1;
    }
    SlotsFromStep(env, p1, p2, day, w, half);
    return None, dayReasons;
  }

  /**
   * One iteration of the day loop: weekends are skipped, a group1 person
   * whose ISO week is full and a pair without a window record a reason, and
   * otherwise the day's window is walked.
   */
  method TryDay(env: Env, quota: Quota, p1: Row, p2: Row, day: int)
    returns (found: Option<int>, dayReasons: seq<Reason>)
    ensures Search(if found.Some? then Some(Slot(day, found.value)) else None, dayReasons)
         == DayOutcome(env, quota, p1, p2, day)
  {
    if Weekday(day) >= 5 {
      return None, [];
    }
    var week := WeekStart(day);
    if p1.group == Group1 && Count(quota, (p1.name, week)) >= MaxMeetingsPerWeekGroup1 {
      return None, [WeeklyLimit(p1.name)];
    }
    var window := WindowForPair(p1.tz, p2.tz);
    if window.None? {
      return None, [NoWindow];
    }
    found, dayReasons := WalkWindow(env, p1, p2, day, window.value);
  }

  /**
   * The day loop of one pair: the days from the start date to days_ahead
   * days later, stopping at the first day that yields a slot, with the
   * reasons of every day passed over.
   */
  method SearchPair(env: Env, quota: Quota, p1: Row, p2: Row) returns (slot: Option<Slot>, reasons: seq<Reason>)
    ensures Search(slot, reasons) == FindSlot(env, quota, p1, p2)
  {
    reasons := [];
    ghost var search := FindSlot(env, quota, p1, p2);
    var k := 0;  // current_date is start_date + k days
    while k <= env.daysAhead
      invariant search.slot == DaysFrom(env, quota, p1, p2, k).slot
      invariant search.reasons == reasons + DaysFrom(env, quota, p1, p2, k).reasons
      decreases env.daysAhead - k
    {
      DaysFromStep(env, quota, p1, p2, k);
      var day := env.startDay + k;
      var found, dayReasons := TryDay(env, quota, p1, p2, day);
      if found.Some? {
        return Some(Slot(day, found.value)), reasons + dayReasons;
      }
      CollectReasons(reasons, dayReasons, DaysFrom(env, quota, p1, p2, k + 1).reasons);
      reasons := reasons + dayReasons;
      k := k + 1;
    }
    DaysFromEnd(env, quota, p1, p2, k);
    slot := None;
  }

  /**
   * One iteration of the pair loop of schedule_coffee_chats_with_tz: the
   * search, then either the bookkeeping of the booking (the calendar insert
   * is skipped in a dry run) or the report of an unfulfilled pair.
   */
  method SchedulePair(env: Env, p1: Row, p2: Row, dryRun: bool,
                      quota0: Quota, eventCount0: nat, latest0: Option<int>,
                      unfulfilled0: map<(string, string), set<Reason>>,
                      bookings0: seq<Booking>, inserts0: seq<Booking>)
    returns (quota: Quota, eventCount: nat, latest: Option<int>,
             unfulfilled: map<(string, string), set<Reason>>,
             bookings: seq<Booking>, inserts: seq<Booking>)
    requires inserts0 == if dryRun then [] else bookings0
    ensures RunState(quota, eventCount, latest, unfulfilled, bookings)
         == ProcessPair(env, RunState(quota0, eventCount0, latest0, unfulfilled0, bookings0), (p1, p2))
    ensures inserts == if dryRun then [] else bookings
  {
    quota, eventCount, latest, unfulfilled, bookings, inserts :=
      quota0, eventCount0, latest0, unfulfilled0, bookings0, inserts0;
    var slot, reasons := SearchPair(env, quota, p1, p2);
    if slot.Some? {
      var day, half := slot.value.day, slot.value.half;
      var utcStart := UtcStart(env, day, half);
      var booking := Booking(p1, p2, day, half, utcStart);
      if !dryRun {
        inserts := inserts + [booking];  // create_calendar_event, which always succeeds
      }
      if p1.group == Group1 {
        quota := Commit(quota, (p1.name, WeekStart(day)));
      }
      eventCount := eventCount + 1;
      if latest.None? || day > latest.value {
        latest := Some(day);
      }
      bookings := bookings + [booking];
    } else if |reasons| > 0 {
      var pair := PairKey(p1.name, p2.name);
      unfulfilled := unfulfilled[pair := set r | r in reasons];
    }
  }

  /**
   * schedule_coffee_chats_with_tz, from the partition of the roster to the
   * unfulfilled report. `shuffled` is the cross product in the order
   * random.shuffle left it; `inserts` are the create_calendar_event calls,
   * which a dry run skips while still counting the meeting.
   */
  method ScheduleCoffeeChatsWithTz(env: Env, data: seq<Row>, shuffled: seq<(Row, Row)>, dryRun: bool)
    returns (expectedMeetings: nat, eventCount: nat, latest: Option<int>,
             unfulfilled: map<(string, string), set<Reason>>, quota: Quota,
             bookings: seq<Booking>, inserts: seq<Booking>)
    requires multiset(shuffled) == multiset(CrossProduct(Filter(data, Group1), Filter(data, Group2)))
    ensures expectedMeetings == |Filter(data, Group1)| * |Filter(data, Group2)| == |shuffled|
    ensures RunState(quota, eventCount, latest, unfulfilled, bookings) == Run(env, shuffled, |shuffled|)
    ensures inserts == if dryRun then [] else bookings
  {
    var group1, group2 := PairPeople(data);
    expectedMeetings := |group1| * |group2|;
    assert |CrossProduct(group1, group2)| == |multiset(shuffled)|;

    eventCount, latest, unfulfilled, quota, bookings, inserts := 0, None, map[], map[], [], [];
    var i := 0;
    while i < |shuffled|
      invariant 0 <= i <= |shuffled|
      invariant RunState(quota, eventCount, latest, unfulfilled, bookings) == Run(env, shuffled, i)
      invariant inserts == if dryRun then [] else bookings
    {
      var p1, p2 := shuffled[i].0, shuffled[i].1;
      quota, eventCount, latest, unfulfilled, bookings, inserts :=
        SchedulePair(env, p1, p2, dryRun, quota, eventCount, latest, unfulfilled, bookings, inserts);
      i := i + 1;
    }
  }
}
