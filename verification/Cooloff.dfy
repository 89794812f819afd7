/** The calendar window that stands for a number of sessions. */
module Cooloff {

  function CalendarDays(sessions: int): nat {
    var s := if sessions < 0 then 0 else sessions;
    s / 5 * 7 + s % 5 + (if s % 5 != 0 then 2 else 0)
  }

  /** Day 0 is a Monday. */
  predicate Weekday(day: int) { day % 7 < 5 }

  /** Days of the window [start, start + len) on which a session is held. */
  function SessionsIn(start: int, len: nat, holidays: set<int>): nat {
    if len == 0 then 0
    else
      var last := start + len - 1;
      SessionsIn(start, len - 1, holidays) + (if Weekday(last) && last !in holidays then 1 else 0)
  }

  /** Whatever day it starts on, a window of `len` days holds that many weekdays. */
  ghost predicate Covers(len: nat, sessions: int) {
    forall start: int :: SessionsIn(start, len, {}) >= sessions
  }

  /** The fewest weekdays a window can hold, reached when it starts on a Saturday. */
  function Fewest(len: nat): nat {
    len / 7 * 5 + (if len % 7 > 2 then len % 7 - 2 else 0)
  }

  /** Weekdays between day 0 and day n, signed. */
  function WeekdaysBefore(n: int): int { n / 7 * 5 + (if n % 7 < 5 then n % 7 else 5) }

  lemma {:induction false} SessionsByDifference(start: int, len: nat)
    ensures SessionsIn(start, len, {}) == WeekdaysBefore(start + len) - WeekdaysBefore(start)
  {
    if len > 0 {
      SessionsByDifference(start, len - 1);
      NextDay(start + len - 1);
    }
  }

  lemma {:induction false} NextDay(n: int)
    ensures WeekdaysBefore(n + 1) == WeekdaysBefore(n) + if Weekday(n) then 1 else 0
  {
    if n % 7 == 6 {
      assert (n + 1) / 7 == n / 7 + 1;
    } else {
      assert (n + 1) / 7 == n / 7;
    }
  }

  lemma {:induction false} FewestIsLeast(start: int, len: nat)
    ensures SessionsIn(start, len, {}) >= Fewest(len)
    ensures start % 7 == 5 ==> SessionsIn(start, len, {}) == Fewest(len)
  {
    SessionsByDifference(start, len);
    assert start == start / 7 * 7 + start % 7;
    assert len == len / 7 * 7 + len % 7;
    var carry := (start % 7 + len % 7) / 7;
    assert (start + len) / 7 == start / 7 + len / 7 + carry;
    assert (start + len) % 7 == start % 7 + len % 7 - 7 * carry;
  }

  /** The window is exactly the shortest that holds the asked-for number of weekdays
      from any starting day. */
  lemma {:induction false} CalendarDaysIsLeastCover(sessions: int, len: nat)
    ensures Covers(len, sessions) <==> CalendarDays(sessions) <= len
  {
    FewestIsLeast(5, len);
    if CalendarDays(sessions) <= len {
      forall start: int ensures SessionsIn(start, len, {}) >= sessions {
        FewestIsLeast(start, len);
      }
    } else {
      assert SessionsIn(5, len, {}) < sessions;
    }
  }

  // -------------------------------------------------------------- holidays

  /** The holidays that cost the window a session. */
  function Lost(start: int, len: nat, holidays: set<int>): set<int> {
    set h | h in holidays && Weekday(h) && start <= h < start + len
  }

  lemma {:induction false} HolidaysSubtract(start: int, len: nat, holidays: set<int>)
    ensures SessionsIn(start, len, holidays) == SessionsIn(start, len, {}) - |Lost(start, len, holidays)|
  {
    if len == 0 {
      assert Lost(start, 0, holidays) == {};
    } else {
      var last := start + len - 1;
      HolidaysSubtract(start, len - 1, holidays);
      if Weekday(last) && last in holidays {
        assert Lost(start, len, holidays) == Lost(start, len - 1, holidays) + {last};
      } else {
        assert Lost(start, len, holidays) == Lost(start, len - 1, holidays);
      }
    }
  }

  /** Weekdays the window holds beyond those asked for. */
  function Spare(sessions: nat, start: int): int {
    SessionsIn(start, CalendarDays(sessions), {}) - sessions
  }

  /** Whole weeks leave nothing to spare; any other window one weekend's days at most. */
  lemma {:induction false} SpareIsSmall(sessions: nat, start: int)
    ensures 0 <= Spare(sessions, start) <= 2
    ensures sessions % 5 == 0 ==> Spare(sessions, start) == 0
  {
    var len := CalendarDays(sessions);
    FewestIsLeast(start, len);
    SessionsByDifference(start, len);
    assert sessions == sessions / 5 * 5 + sessions % 5;
    WeekdaysShift(start, sessions / 5);
  }

  lemma {:induction false} WeekdaysShift(n: int, weeks: nat)
    ensures WeekdaysBefore(n + 7 * weeks) == WeekdaysBefore(n) + 5 * weeks
  {
    assert (n + 7 * weeks) / 7 == n / 7 + weeks;
    assert (n + 7 * weeks) % 7 == n % 7;
  }

  /** Exactly when: with any holidays and from any day, the window still holds the sessions
      if and only if it loses no more weekdays to holidays than it has to spare. */
  lemma {:induction false} HoldsSessionsIff(sessions: nat, start: int, holidays: set<int>)
    ensures SessionsIn(start, CalendarDays(sessions), holidays) >= sessions
       <==> |Lost(start, CalendarDays(sessions), holidays)| <= Spare(sessions, start)
  {
    HolidaysSubtract(start, CalendarDays(sessions), holidays);
  }

  /** From a Saturday nothing is to spare, so one holiday on the Monday it needs leaves any
      window a session short. */
  lemma {:induction false} HolidayLeavesItShort(sessions: nat, saturday: int)
    requires sessions >= 1 && saturday % 7 == 5
    ensures SessionsIn(saturday, CalendarDays(sessions), {saturday + 2}) == sessions - 1
  {
    var len := CalendarDays(sessions);
    FewestIsLeast(saturday, len);
    FewestOfWindow(sessions);
    hide SessionsIn, CalendarDays, Fewest;
    HolidaysSubtract(saturday, len, {saturday + 2});
    assert Lost(saturday, len, {saturday + 2}) == {saturday + 2};
  }

  lemma {:induction false} FewestOfWindow(sessions: nat)
    ensures Fewest(CalendarDays(sessions)) == sessions
    ensures sessions >= 1 ==> CalendarDays(sessions) >= 3
  {
  }
}
