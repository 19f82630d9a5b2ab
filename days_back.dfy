/**
 * How many days of history a contract and quote type still need, from the
 * checkpoint kept in the quote_status table.
 */
module DaysBack {
  import opened Clock
  import opened Weekdays

  /** Days requested when there is no usable checkpoint. */
  const DefaultLookback: nat := 30

  /**
   * The outcome of reading the checkpoint: no row, an exception (an
   * expiration that is not a date, a failing query), or the stored instant.
   */
  datatype Lookup = NoRow | Failed | Found(latest: DateTime)

  /**
   * `get_days_back` of the sequential script: the number of weekdays
   * strictly after the checkpoint's date and strictly before today's date.
   */
  function LiveDaysBack(lookup: Lookup, today: int): nat {
    match lookup
    case NoRow => DefaultLookback
    case Failed => DefaultLookback
    case Found(cp) => WeekdaysIn(cp.day + 1, today)
  }

  /** The loop of the sequential script, which walks one date at a time. */
  method GetDaysBackLive(lookup: Lookup, now: DateTime) returns (daysBack: nat)
    ensures daysBack == LiveDaysBack(lookup, now.day)
  {
    match lookup {
      case NoRow => daysBack := DefaultLookback;
      case Failed => daysBack := DefaultLookback;
      case Found(cp) =>
        var latest := AddDays(cp, 1);
        daysBack := 0;
        while latest.day < now.day
          invariant cp.day + 1 <= latest.day
          invariant latest.day <= now.day || latest.day == cp.day + 1
          invariant daysBack == WeekdaysIn(cp.day + 1, latest.day)
          decreases now.day - latest.day
        {
          if IsWeekday(latest.day) {
            daysBack := daysBack + 1;
          }
          latest := AddDays(latest, 1);
        }
    }
  }

  /**
   * The algorithm after `return 2` in the concurrent script: zero when the
   * checkpoint is not before the rounded "now", otherwise the weekdays from
   * the checkpoint's date up to (not including) the rounded date, at least 1.
   */
  function UnreachableDaysBack(lookup: Lookup, now: DateTime): nat {
    match lookup
    case NoRow => DefaultLookback
    case Failed => DefaultLookback
    case Found(cp) =>
      var current := RoundNowUnreachable(now);
      if Le(current, cp) then 0
      else var n := WeekdaysIn(cp.day, current.day); if n < 1 then 1 else n
  }

  method GetDaysBackUnreachable(lookup: Lookup, now: DateTime) returns (daysBack: nat)
    ensures daysBack == UnreachableDaysBack(lookup, now)
  {
    match lookup {
      case NoRow => daysBack := DefaultLookback;
      case Failed => daysBack := DefaultLookback;
      case Found(cp) =>
        var current := RoundNowUnreachable(now);
        if Le(current, cp) {
          return 0;
        }
        var latest := cp;
        daysBack := 0;
        while latest.day < current.day
          invariant cp.day <= latest.day <= current.day
          invariant daysBack == WeekdaysIn(cp.day, latest.day)
          decreases current.day - latest.day
        {
          if IsWeekday(latest.day) {
            daysBack := daysBack + 1;
          }
          latest := AddDays(latest, 1);
        }
        if daysBack < 1 {
          daysBack := 1;
        }
    }
  }

  /** `get_days_back` of the concurrent script as shipped: its first statement is `return 2`. */
  const ShippedDaysBack: nat := 2

  /**
   * The sequential count is zero exactly when no weekday lies strictly
   * between the checkpoint's date and today, and otherwise it is the number
   * of such dates.
   */
  lemma LiveDaysBackCounts(cp: DateTime, today: int)
    ensures LiveDaysBack(Found(cp), today) == |WeekdaySet(cp.day + 1, today)|
    ensures LiveDaysBack(Found(cp), today) == 0 <==>
      forall d :: cp.day < d < today ==> !IsWeekday(d)
    ensures LiveDaysBack(Found(cp), today) <= if today <= cp.day + 1 then 0 else today - cp.day - 1
  {
    WeekdaysInIsCount(cp.day + 1, today);
    WeekdaysInZero(cp.day + 1, today);
  }

  /**
   * With a checkpoint on Friday 2024-01-05 16:00 and a run on Monday
   * 2024-01-08 11:00, the sequential script asks for nothing, while the
   * unreachable algorithm would ask for one day.
   */
  lemma FridayToMonday()
    ensures LiveDaysBack(Found(DateTime(4, SessionClose)), 7) == 0
    ensures UnreachableDaysBack(Found(DateTime(4, SessionClose)), DateTime(7, 11 * Hour)) == 1
  {
    assert RoundNowUnreachable(DateTime(7, 11 * Hour)) == DateTime(7, 11 * Hour);
    assert WeekdaysIn(4, 7) == 1 by {
      assert WeekdaysIn(4, 5) == 1;
      assert WeekdaysIn(4, 6) == 1;
    }
  }

  /**
   * The unreachable algorithm is zero exactly when the checkpoint is not
   * before the rounded "now", and at least one day otherwise.
   */
  lemma UnreachableDaysBackGap(cp: DateTime, now: DateTime)
    ensures UnreachableDaysBack(Found(cp), now) == 0 <==> Le(RoundNowUnreachable(now), cp)
    ensures !Le(RoundNowUnreachable(now), cp) ==>
      UnreachableDaysBack(Found(cp), now) >= 1 &&
      UnreachableDaysBack(Found(cp), now) >= |WeekdaySet(cp.day, RoundNowUnreachable(now).day)|
  {
    WeekdaysInIsCount(cp.day, RoundNowUnreachable(now).day);
  }
}
