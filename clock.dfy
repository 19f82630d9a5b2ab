/**
 * Eastern wall-clock instants and the rounding of "now" to a trading-session
 * boundary that every historical request performs before asking the provider
 * for bars.
 *
 * An instant is a day number and a time of day in microseconds (the
 * resolution of Python's `datetime`). Day 0 is Monday 2024-01-01, so the
 * weekday of a day number is `day % 7` with Monday = 0, as in
 * `datetime.weekday()`.
 */
module Clock {

  const Second: int := 1_000_000
  const Minute: int := 60 * Second
  const Hour: int := 60 * Minute
  const DayLength: int := 24 * Hour

  /** 09:30, the opening print of the session. */
  const SessionOpen: int := 9 * Hour + 30 * Minute
  /** 10:00, the top of the second session hour. */
  const SecondHour: int := 10 * Hour
  /** 16:00, the close of the session. */
  const SessionClose: int := 16 * Hour

  type TimeOfDay = t: int | 0 <= t < 86_400_000_000

  datatype DateTime = DateTime(day: int, tod: TimeOfDay)

  /** Chronological order of two instants (`a <= b` on Python datetimes). */
  predicate Le(a: DateTime, b: DateTime) {
    a.day < b.day || (a.day == b.day && a.tod <= b.tod)
  }

  predicate Lt(a: DateTime, b: DateTime) {
    a.day < b.day || (a.day == b.day && a.tod < b.tod)
  }

  /** `t + timedelta(days=n)`: wall-clock day arithmetic. */
  function AddDays(t: DateTime, n: int): DateTime {
    DateTime(t.day + n, t.tod)
  }

  /** `t.replace(microsecond=0)`, which is what formatting with `%S` keeps. */
  function TruncToSecond(t: DateTime): (r: DateTime)
    ensures r.day == t.day && r.tod <= t.tod && t.tod - r.tod < Second
    ensures r.tod % Second == 0
  {
    DateTime(t.day, t.tod - t.tod % Second)
  }

  /**
   * A session boundary: the 09:30 opening print, or a whole hour from 10:00
   * to 16:00 inclusive.
   */
  predicate IsBoundary(t: DateTime) {
    t.tod == SessionOpen || (SecondHour <= t.tod <= SessionClose && t.tod % Hour == 0)
  }

  /**
   * The end of the request window, with seconds and microseconds zeroed
   * first: before 09:30 the previous calendar day at 16:00, after 16:00 the
   * same day at 16:00, before 10:00 the same day at 09:30, otherwise the
   * time truncated to the hour.
   */
  function SessionEnd(now: DateTime): DateTime {
    var t := now.tod - now.tod % Minute;
    if t < SessionOpen then DateTime(now.day - 1, SessionClose)
    else if t > SessionClose then DateTime(now.day, SessionClose)
    else if t < SecondHour then DateTime(now.day, SessionOpen)
    else DateTime(now.day, t - t % Hour)
  }

  /**
   * The rounding in the unreachable tail of the concurrent `get_days_back`:
   * it compares the full time of day, and selects truncation to the hour
   * only strictly after 10:00, so 10:00:00 exactly becomes 09:30.
   */
  function RoundNowUnreachable(now: DateTime): DateTime {
    if now.tod < SessionOpen then DateTime(now.day - 1, SessionClose)
    else if now.tod > SessionClose then DateTime(now.day, SessionClose)
    else if now.tod > SecondHour then DateTime(now.day, now.tod - now.tod % Hour)
    else DateTime(now.day, SessionOpen)
  }

  /** Rounding down to a multiple of `m` keeps every multiple of `m` below. */
  lemma FloorKeepsMultiples(x: int, c: int, m: int)
    requires m > 0 && c % m == 0 && x >= 0 && c >= 0
    ensures x - x % m >= c <==> x >= c
  {
    var q, k := x / m, c / m;
    assert x == m * q + x % m;
    assert c == m * k;
    if q < k {
      MulMonotone(m, q + 1, k);
    } else {
      MulMonotone(m, k, q);
    }
  }

  lemma MulStep(a: nat, k: nat)
    ensures (a + 1) * k == a * k + k
  {
  }

  lemma MulMonotone(m: nat, a: int, b: int)
    requires a <= b
    ensures m * a <= m * b
  {
    assert m * b - m * a == m * (b - a);
  }

  /** Zeroing the seconds first changes no comparison with a whole minute. */
  lemma TrimmedComparisons(tod: TimeOfDay)
    ensures var t := tod - tod % Minute;
      (t < SessionOpen <==> tod < SessionOpen) &&
      (t > SessionClose <==> tod >= SessionClose + Minute) &&
      (t < SecondHour <==> tod < SecondHour) &&
      t - t % Hour == tod - tod % Hour
  {
    FloorKeepsMultiples(tod, SessionOpen, Minute);
    FloorKeepsMultiples(tod, SessionClose + Minute, Minute);
    FloorKeepsMultiples(tod, SecondHour, Minute);
    assert Hour == Minute * 60;
    FloorNested(tod, Minute, 60);
  }

  lemma MulSplit(m: int, k: int, q: int, p: int)
    ensures m * (k * q + p) == (m * k) * q + m * p
  {
    assert m * (k * q + p) == m * (k * q) + m * p;
    assert m * (k * q) == (m * k) * q;
  }

  /** The quotient and remainder of a division are the only ones. */
  lemma DivModUnique(x: int, d: int, q: int, r: int)
    requires d > 0 && 0 <= r < d && x == d * q + r
    ensures x / d == q && x % d == r
  {
    var q', r' := x / d, x % d;
    assert x == d * q' + r';
    assert d * (q - q') == r' - r;
    if q - q' >= 1 {
      MulMonotone(d, 1, q - q');
    } else if q - q' <= -1 {
      MulMonotone(d, q - q', -1);
    }
  }

  /** Truncating to a multiple of `m` first does not change the truncation to a multiple of `m * k`. */
  lemma FloorNested(x: int, m: int, k: int)
    requires x >= 0 && m > 0 && k > 0
    ensures var t := x - x % m; t - t % (m * k) == x - x % (m * k)
  {
    ModOfMod(x, m, k);
    ModOfFloor(x, m, k);
  }

  lemma MulPositive(m: int, k: int)
    requires m > 0 && k > 0
    ensures m * k > 0
  {
    MulMonotone(m, 1, k);
  }

  /** The remainder modulo `m` is the remainder modulo `m * k` reduced modulo `m`. */
  lemma ModOfMod(x: int, m: int, k: int)
    requires x >= 0 && m > 0 && k > 0
    ensures m * k > 0 && x % m == (x % (m * k)) % m
  {
    MulPositive(m, k);
    var h := m * k;
    var q, r := x / h, x % h;
    var p, s := r / m, r % m;
    MulSplit(m, k, q, p);
    DivModUnique(x, m, k * q + p, s);
  }

  /** Truncating to a multiple of `m` removes `x % m` from the remainder modulo `m * k`. */
  lemma ModOfFloor(x: int, m: int, k: int)
    requires x >= 0 && m > 0 && k > 0 && m * k > 0
    ensures (x - x % m) % (m * k) == x % (m * k) - (x % (m * k)) % m
  {
    ModOfMod(x, m, k);
    var h := m * k;
    var q, r := x / h, x % h;
    var p, s := r / m, r % m;
    MulMonotone(m, 0, p);
    DivModUnique(x - s, h, q, m * p);
  }

  /** An hour-truncated time of day is a whole hour and not later. */
  lemma HourFloor(tod: TimeOfDay)
    ensures (tod - tod % Hour) % Hour == 0 && tod - tod % Hour <= tod
    ensures forall b: int :: 0 <= b <= tod && b % Hour == 0 ==> b <= tod - tod % Hour
  {
    forall b: int | 0 <= b <= tod && b % Hour == 0 ensures b <= tod - tod % Hour {
      FloorKeepsMultiples(tod, b, Hour);
    }
  }

  /**
   * The window end is the latest session boundary not after `now`: it is a
   * boundary (so its seconds are zero), it is not after `now`, and every
   * boundary not after `now` is not after it.
   */
  lemma SessionEndIsLatestBoundary(now: DateTime, b: DateTime)
    ensures IsBoundary(SessionEnd(now)) && Le(SessionEnd(now), now)
    ensures SessionEnd(now).tod % Minute == 0
    ensures IsBoundary(b) && Le(b, now) ==> Le(b, SessionEnd(now))
  {
    SessionEndBelowNow(now);
    if IsBoundary(b) && Le(b, now) {
      SessionEndCovers(now, b);
    }
  }

  lemma SessionEndBelowNow(now: DateTime)
    ensures IsBoundary(SessionEnd(now)) && Le(SessionEnd(now), now)
    ensures SessionEnd(now).tod % Minute == 0
  {
    TrimmedComparisons(now.tod);
    var tod := now.tod;
    if tod < SessionOpen {
      assert SessionEnd(now) == DateTime(now.day - 1, SessionClose);
    } else if tod >= SessionClose + Minute {
      assert SessionEnd(now) == DateTime(now.day, SessionClose);
    } else if tod < SecondHour {
      assert SessionEnd(now) == DateTime(now.day, SessionOpen);
    } else {
      var h := tod - tod % Hour;
      assert SessionEnd(now) == DateTime(now.day, h);
      HourFloor(tod);
      HourTruncBounds(tod);
      WholeHourIsWholeMinute(h);
    }
  }

  lemma WholeHourIsWholeMinute(h: int)
    requires h % Hour == 0
    ensures h % Minute == 0
  {
    DivModUnique(h, Minute, 60 * (h / Hour), 0);
  }

  lemma SessionEndCovers(now: DateTime, b: DateTime)
    requires IsBoundary(b) && Le(b, now)
    ensures Le(b, SessionEnd(now))
  {
    TrimmedComparisons(now.tod);
    if b.day == now.day && SecondHour <= now.tod < SessionClose + Minute && b.tod != SessionOpen {
      FloorKeepsMultiples(now.tod, b.tod, Hour);
    }
  }

  /** Between 10:00 and 16:01 the hour truncation is a whole hour from 10:00 to 16:00. */
  lemma HourTruncBounds(tod: TimeOfDay)
    requires SecondHour <= tod < SessionClose + Minute
    ensures SecondHour <= tod - tod % Hour <= SessionClose
  {
    FloorKeepsMultiples(tod, SecondHour, Hour);
    FloorKeepsMultiples(tod, SessionClose + Hour, Hour);
    HourFloor(tod);
    WholeHourBelow(tod - tod % Hour);
  }

  lemma WholeHourBelow(h: int)
    requires h % Hour == 0 && h < SessionClose + Hour
    ensures h <= SessionClose
  {
    assert h == Hour * (h / Hour);
  }

  /**
   * The two copies of the rounding agree on every instant except those at
   * exactly 10:00:00.000000, where the unreachable copy yields 09:30 and the
   * shipped one 10:00.
   */
  lemma RoundingCopiesDifferOnlyAtTen(now: DateTime)
    ensures RoundNowUnreachable(now) != SessionEnd(now) <==> now.tod == SecondHour
    ensures now.tod == SecondHour ==>
      RoundNowUnreachable(now) == DateTime(now.day, SessionOpen) &&
      SessionEnd(now) == DateTime(now.day, SecondHour)
  {
    TrimmedComparisons(now.tod);
    if SessionClose < now.tod < SessionClose + Minute {
      assert now.tod - now.tod % Hour == SessionClose by {
        assert now.tod == Hour * 16 + (now.tod - SessionClose);
      }
    }
  }

  /** The unreachable copy also lands on a boundary not after `now`. */
  lemma RoundNowUnreachableIsBelowNow(now: DateTime)
    ensures IsBoundary(RoundNowUnreachable(now)) && Le(RoundNowUnreachable(now), now)
  {
    HourFloor(now.tod);
    if SecondHour < now.tod <= SessionClose {
      FloorKeepsMultiples(now.tod, SecondHour, Hour);
    }
  }

  /**
   * Rounding the shipped way twice is rounding once, while the unreachable
   * copy sends an instant it produced itself (10:00) on to 09:30.
   */
  lemma SessionEndIdempotent(now: DateTime)
    ensures SessionEnd(SessionEnd(now)) == SessionEnd(now)
    ensures RoundNowUnreachable(DateTime(now.day, SecondHour)) == DateTime(now.day, SessionOpen)
  {
    SessionEndIsLatestBoundary(now, now);
    var r := SessionEnd(now);
    SessionEndIsLatestBoundary(r, r);
  }
}
