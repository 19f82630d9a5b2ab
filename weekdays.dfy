/** Counting Monday-to-Friday dates, as the "days back" loops do. */
module Weekdays {

  /** `date.weekday() < 5` for the date with this day number (day 0 is a Monday). */
  predicate IsWeekday(day: int) {
    day % 7 < 5
  }

  /** The number of Monday-to-Friday day numbers `d` with `lo <= d < hi`. */
  function WeekdaysIn(lo: int, hi: int): (n: nat)
    ensures n <= if hi <= lo then 0 else hi - lo
    decreases hi - lo
  {
    if hi <= lo then 0
    else WeekdaysIn(lo, hi - 1) + (if IsWeekday(hi - 1) then 1 else 0)
  }

  /** The count is zero exactly when no weekday lies in the range. */
  lemma {:induction false} WeekdaysInZero(lo: int, hi: int)
    ensures WeekdaysIn(lo, hi) == 0 <==> forall d :: lo <= d < hi ==> !IsWeekday(d)
    decreases hi - lo
  {
    if hi > lo {
      WeekdaysInZero(lo, hi - 1);
    }
  }

  /** The set of weekday day numbers `d` with `lo <= d < hi`. */
  ghost function WeekdaySet(lo: int, hi: int): set<int> {
    set d: int | lo <= d < hi && IsWeekday(d)
  }

  /** The recursive count is the size of that set. */
  lemma {:induction false} WeekdaysInIsCount(lo: int, hi: int)
    ensures WeekdaysIn(lo, hi) == |WeekdaySet(lo, hi)|
    decreases hi - lo
  {
    if hi <= lo {
      assert WeekdaySet(lo, hi) == {};
    } else {
      WeekdaysInIsCount(lo, hi - 1);
      if IsWeekday(hi - 1) {
        assert WeekdaySet(lo, hi) == WeekdaySet(lo, hi - 1) + {hi - 1};
      } else {
        assert WeekdaySet(lo, hi) == WeekdaySet(lo, hi - 1);
      }
    }
  }

  /** Adjacent ranges add up. */
  lemma {:induction false} WeekdaysInSplit(lo: int, mid: int, hi: int)
    requires lo <= mid <= hi
    ensures WeekdaysIn(lo, hi) == WeekdaysIn(lo, mid) + WeekdaysIn(mid, hi)
    decreases hi - mid
  {
    if hi > mid {
      WeekdaysInSplit(lo, mid, hi - 1);
    }
  }

  /** What one day adds to the count: 1 on a weekday, 0 at the weekend. */
  function WeekdayIndicator(day: int): nat {
    if IsWeekday(day) then 1 else 0
  }

  /** The count over seven consecutive days, one day at a time. */
  lemma SevenDayCount(lo: int)
    ensures WeekdaysIn(lo, lo + 7) ==
      WeekdayIndicator(lo) + WeekdayIndicator(lo + 1) + WeekdayIndicator(lo + 2) + WeekdayIndicator(lo + 3) + WeekdayIndicator(lo + 4) + WeekdayIndicator(lo + 5) + WeekdayIndicator(lo + 6)
  {
    assert WeekdaysIn(lo, lo + 1) == WeekdayIndicator(lo);
    assert WeekdaysIn(lo, lo + 2) == WeekdaysIn(lo, lo + 1) + WeekdayIndicator(lo + 1);
    assert WeekdaysIn(lo, lo + 3) == WeekdaysIn(lo, lo + 2) + WeekdayIndicator(lo + 2);
    assert WeekdaysIn(lo, lo + 4) == WeekdaysIn(lo, lo + 3) + WeekdayIndicator(lo + 3);
    assert WeekdaysIn(lo, lo + 5) == WeekdaysIn(lo, lo + 4) + WeekdayIndicator(lo + 4);
    assert WeekdaysIn(lo, lo + 6) == WeekdaysIn(lo, lo + 5) + WeekdayIndicator(lo + 5);
    assert WeekdaysIn(lo, lo + 7) == WeekdaysIn(lo, lo + 6) + WeekdayIndicator(lo + 6);
  }

  lemma NextResidue(x: int)
    ensures (x + 1) % 7 == if x % 7 == 6 then 0 else x % 7 + 1
  {
    assert x == 7 * (x / 7) + x % 7;
  }

  /** Any seven consecutive dates hold exactly five weekdays. */
  lemma WeekdaysInWeek(lo: int)
    ensures WeekdaysIn(lo, lo + 7) == 5
  {
    SevenDayCount(lo);
    NextResidue(lo);
    NextResidue(lo + 1);
    NextResidue(lo + 2);
    NextResidue(lo + 3);
    NextResidue(lo + 4);
    NextResidue(lo + 5);
  }

  /** Every whole number of weeks contributes five weekdays per week. */
  lemma {:induction false} WeekdaysInWeeks(lo: int, weeks: nat)
    ensures WeekdaysIn(lo, lo + 7 * weeks) == 5 * weeks
  {
    if weeks > 0 {
      WeekdaysInWeeks(lo, weeks - 1);
      WeekdaysInSplit(lo, lo + 7 * (weeks - 1), lo + 7 * weeks);
      WeekdaysInWeek(lo + 7 * (weeks - 1));
    }
  }
}
