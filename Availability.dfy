/**
 * Availability oracle of coffee-chats.py (`check_availability`): a proposed
 * meeting [start, start + 20 min) is free only when the free/busy query
 * succeeded for every attendee and none of their busy intervals overlaps it.
 * The free/busy answers are given as data; instants are UTC minutes.
 */
module Availability {

  const MeetingDurationMinutes: int := 20

  /** A busy interval [start, end) in UTC minutes. */
  datatype Interval = Interval(start: int, end: int)

  /** The free/busy answer for one email: its busy intervals, or an HttpError. */
  datatype FreeBusy = BusyList(intervals: seq<Interval>) | QueryError

  /** An email the answer does not mention has no busy intervals. */
  function BusyOf(freeBusy: map<string, FreeBusy>, email: string): seq<Interval>
  {
    if email in freeBusy && freeBusy[email].BusyList? then freeBusy[email].intervals else []
  }

  predicate QueryFails(freeBusy: map<string, FreeBusy>, email: string)
  {
    email in freeBusy && freeBusy[email].QueryError?
  }

  /** The source's overlap test, both disjuncts as written. */
  predicate Overlaps(start: int, end: int, busy: Interval)
  {
    (start < busy.end && end > busy.start) || (busy.start < end && busy.end > start)
  }

  /** The second disjunct of the overlap test is the first one with its sides swapped. */
  lemma OverlapsIsHalfOpenIntersection(start: int, end: int, busy: Interval)
    ensures Overlaps(start, end, busy) <==> start < busy.end && busy.start < end
  {
  }

  /** No query in `emails` raised an error. */
  predicate QueriesSucceed(freeBusy: map<string, FreeBusy>, emails: seq<string>)
  {
    emails == [] || (QueriesSucceed(freeBusy, emails[..|emails| - 1]) && !QueryFails(freeBusy, emails[|emails| - 1]))
  }

  /** The busy lists of `emails`, in query order. */
  function BusyLists(freeBusy: map<string, FreeBusy>, emails: seq<string>): (r: seq<seq<Interval>>)
    ensures |r| == |emails|
  {
    if emails == [] then [] else BusyLists(freeBusy, emails[..|emails| - 1]) + [BusyOf(freeBusy, emails[|emails| - 1])]
  }

  /** No interval of `busy` overlaps [start, end). */
  predicate NoOverlap(start: int, end: int, busy: seq<Interval>)
  {
    busy == [] || (NoOverlap(start, end, busy[..|busy| - 1]) && !Overlaps(start, end, busy[|busy| - 1]))
  }

  /** No interval of any of the lists overlaps [start, end). */
  predicate NoOverlapAll(start: int, end: int, slots: seq<seq<Interval>>)
  {
    slots == [] || (NoOverlapAll(start, end, slots[..|slots| - 1]) && NoOverlap(start, end, slots[|slots| - 1]))
  }

  /**
   * The reference meaning of check_availability, one email at a time: every
   * query succeeded and no busy interval of any attendee overlaps the meeting.
   */
  predicate IsFree(freeBusy: map<string, FreeBusy>, emails: seq<string>, startUtc: int)
    decreases |emails|
  {
    emails == [] ||
    (&& IsFree(freeBusy, emails[..|emails| - 1], startUtc)
     && !QueryFails(freeBusy, emails[|emails| - 1])
     && NoOverlap(startUtc, startUtc + MeetingDurationMinutes, BusyOf(freeBusy, emails[|emails| - 1])))
  }

  lemma {:induction false} NoOverlapMeaning(start: int, end: int, busy: seq<Interval>)
    ensures NoOverlap(start, end, busy) <==> forall j :: 0 <= j < |busy| ==> !Overlaps(start, end, busy[j])
  {
    if busy != [] {
      NoOverlapMeaning(start, end, busy[..|busy| - 1]);
    }
  }

  lemma {:induction false} NoOverlapAllMeaning(start: int, end: int, slots: seq<seq<Interval>>)
    ensures NoOverlapAll(start, end, slots) <==>
      forall i, j :: 0 <= i < |slots| && 0 <= j < |slots[i]| ==> !Overlaps(start, end, slots[i][j])
  {
    if slots != [] {
      var last := slots[|slots| - 1];
      NoOverlapAllMeaning(start, end, slots[..|slots| - 1]);
      NoOverlapMeaning(start, end, last);
    }
  }

  lemma {:induction false} QueriesSucceedMeaning(freeBusy: map<string, FreeBusy>, emails: seq<string>)
    ensures QueriesSucceed(freeBusy, emails) <==> forall i :: 0 <= i < |emails| ==> !QueryFails(freeBusy, emails[i])
  {
    if emails != [] {
      QueriesSucceedMeaning(freeBusy, emails[..|emails| - 1]);
    }
  }

  lemma {:induction false} BusyListsAt(freeBusy: map<string, FreeBusy>, emails: seq<string>, i: nat)
    requires i < |emails|
    ensures BusyLists(freeBusy, emails)[i] == BusyOf(freeBusy, emails[i])
  {
    if i < |emails| - 1 {
      BusyListsAt(freeBusy, emails[..|emails| - 1], i);
    }
  }

  /** The order check_availability works in: all the queries first, then all the overlap tests. */
  lemma {:induction false} IsFreeSplit(freeBusy: map<string, FreeBusy>, emails: seq<string>, startUtc: int)
    ensures IsFree(freeBusy, emails, startUtc) <==>
      QueriesSucceed(freeBusy, emails)
      && NoOverlapAll(startUtc, startUtc + MeetingDurationMinutes, BusyLists(freeBusy, emails))
    decreases |emails|
  {
    if emails != [] {
      var front := emails[..|emails| - 1];
      IsFreeSplit(freeBusy, front, startUtc);
      var slots := BusyLists(freeBusy, emails);
      assert slots[..|slots| - 1] == BusyLists(freeBusy, front);
    }
  }

  /**
   * A proposed meeting is free exactly when every query succeeded and no busy
   * interval of any attendee overlaps [start, start + 20 min).
   */
  lemma IsFreeMeaning(freeBusy: map<string, FreeBusy>, emails: seq<string>, startUtc: int)
    ensures IsFree(freeBusy, emails, startUtc) <==>
      && (forall i :: 0 <= i < |emails| ==> !QueryFails(freeBusy, emails[i]))
      && (forall i, j :: 0 <= i < |emails| && 0 <= j < |BusyOf(freeBusy, emails[i])| ==>
            !Overlaps(startUtc, startUtc + MeetingDurationMinutes, BusyOf(freeBusy, emails[i])[j]))
  {
    var slots := BusyLists(freeBusy, emails);
    IsFreeSplit(freeBusy, emails, startUtc);
    QueriesSucceedMeaning(freeBusy, emails);
    NoOverlapAllMeaning(startUtc, startUtc + MeetingDurationMinutes, slots);
    forall i | 0 <= i < |emails| ensures slots[i] == BusyOf(freeBusy, emails[i]) {
      BusyListsAt(freeBusy, emails, i);
    }
  }

  /**
   * check_availability: first query every email (an error answers False at
   * once), then scan the collected busy lists for an overlap.
   */
  method CheckAvailability(freeBusy: map<string, FreeBusy>, emails: seq<string>, startUtc: int)
    returns (free: bool)
    ensures free <==> IsFree(freeBusy, emails, startUtc)
  {
    var endUtc := startUtc + MeetingDurationMinutes;
    var busySlots: seq<seq<Interval>> := [];
    var i := 0;
    while i < |emails|
      invariant 0 <= i <= |emails|
      invariant busySlots == BusyLists(freeBusy, emails[..i])
      invariant QueriesSucceed(freeBusy, emails[..i])
    {
      assert emails[..i + 1][..i] == emails[..i];
      var email := emails[i];
      if email in freeBusy && freeBusy[email].QueryError? {
        QueriesSucceedMeaning(freeBusy, emails);
        IsFreeSplit(freeBusy, emails, startUtc);
        return false;
      }
      busySlots := busySlots + [BusyOf(freeBusy, email)];
      i := i + 1;
    }
    assert emails[..i] == emails;
    var s := 0;
    while s < |busySlots|
      invariant 0 <= s <= |busySlots|
      invariant NoOverlapAll(startUtc, endUtc, busySlots[..s])
    {
      assert busySlots[..s + 1][..s] == busySlots[..s];
      var slot := busySlots[s];
      var e := 0;
      while e < |slot|
        invariant 0 <= e <= |slot|
        invariant NoOverlap(startUtc, endUtc, slot[..e])
      {
        assert slot[..e + 1][..e] == slot[..e];
        var event := slot[e];
        if (startUtc < event.end && endUtc > event.start) || (event.start < endUtc && event.end > startUtc) {
          NoOverlapAllMeaning(startUtc, endUtc, busySlots);
          IsFreeSplit(freeBusy, emails, startUtc);
          return false;
        }
        e := e + 1;
      }
      assert slot[..e] == slot;
      s := s + 1;
    }
    assert busySlots[..s] == busySlots;
    IsFreeSplit(freeBusy, emails, startUtc);
    return true;
  }
}
