/**
 * From provider bars to option_data rows: keep the bars of the request
 * window (and, in the concurrent script, of the admitted session minutes),
 * stamp every row with the contract's key columns, format the timestamp to
 * whole seconds.
 */
module Normalize {
  import opened Wrappers
  import opened Clock
  import opened Market
  import opened Dates

  /** The concurrent script also filters by time of day; the sequential one does not. */
  datatype Admission = WindowOnly | WindowAndSession

  /** The opening print at 09:30 exactly, or any time from 10:00 to 16:00 inclusive. */
  predicate AdmittedTime(tod: TimeOfDay) {
    tod == SessionOpen || (SecondHour <= tod <= SessionClose)
  }

  /** The key columns every row of one request carries. */
  datatype Stamp = Stamp(symbol: string, expiration: string, strike: Cents, right: string, quoteType: string)

  predicate Keep(b: Bar, start: DateTime, end: DateTime, admission: Admission) {
    Le(start, b.date) && Le(b.date, end) &&
    (admission == WindowAndSession ==> AdmittedTime(b.date.tod))
  }

  function ToRow(b: Bar, s: Stamp): Row {
    Row(s.symbol, s.expiration, s.strike, s.right, TruncToSecond(b.date),
        b.open, b.high, b.low, b.close, b.volume, b.average, b.barCount, s.quoteType)
  }

  /** Row `r` is stamped with `s` and carries the prices of bar `b`. */
  predicate RowOf(r: Row, b: Bar, s: Stamp) {
    r == ToRow(b, s)
  }

  /** The filter-then-stamp pipeline, in the bars' order. */
  function Normalize(bars: seq<Bar>, s: Stamp, start: DateTime, end: DateTime, admission: Admission): (rows: seq<Row>)
    ensures |rows| <= |bars|
  {
    if bars == [] then []
    else
      var last := bars[|bars| - 1];
      Normalize(bars[..|bars| - 1], s, start, end, admission) +
      (if Keep(last, start, end, admission) then [ToRow(last, s)] else [])
  }

  /** Normalising a concatenation normalises each part in turn: relative order is kept. */
  lemma {:induction false} NormalizeAppend(a: seq<Bar>, b: seq<Bar>, s: Stamp, start: DateTime, end: DateTime, admission: Admission)
    ensures Normalize(a + b, s, start, end, admission) ==
            Normalize(a, s, start, end, admission) + Normalize(b, s, start, end, admission)
    decreases |b|
  {
    if b == [] {
      assert a + b == a;
    } else {
      var b' := b[..|b| - 1];
      assert (a + b)[..|a + b| - 1] == a + b';
      assert (a + b)[|a + b| - 1] == b[|b| - 1];
      NormalizeAppend(a, b', s, start, end, admission);
    }
  }

  /**
   * A row is in the output exactly when some bar of the input is kept and
   * stamps to it.
   */
  lemma {:induction false} NormalizeMembers(bars: seq<Bar>, s: Stamp, start: DateTime, end: DateTime, admission: Admission, r: Row)
    ensures r in Normalize(bars, s, start, end, admission) <==>
      exists i :: 0 <= i < |bars| && Keep(bars[i], start, end, admission) && RowOf(r, bars[i], s)
  {
    if bars != [] {
      var init := bars[..|bars| - 1];
      NormalizeMembers(init, s, start, end, admission, r);
      if r in Normalize(bars, s, start, end, admission) {
        if r in Normalize(init, s, start, end, admission) {
          var i :| 0 <= i < |init| && Keep(init[i], start, end, admission) && RowOf(r, init[i], s);
          assert bars[i] == init[i];
        } else {
          assert RowOf(r, bars[|bars| - 1], s);
        }
      }
      if exists i :: 0 <= i < |bars| && Keep(bars[i], start, end, admission) && RowOf(r, bars[i], s) {
        var i :| 0 <= i < |bars| && Keep(bars[i], start, end, admission) && RowOf(r, bars[i], s);
        if i < |init| {
          assert init[i] == bars[i];
        }
      }
    }
  }

  /**
   * Every output row carries the stamp's key columns, a timestamp with
   * whole seconds inside the window, and, when the session filter applies,
   * an admitted time of day: 09:00 and 16:30 bars never appear.
   */
  lemma NormalizedRows(bars: seq<Bar>, s: Stamp, start: DateTime, end: DateTime, admission: Admission, r: Row)
    requires r in Normalize(bars, s, start, end, admission)
    requires start.tod % Second == 0
    ensures r.symbol == s.symbol && r.expiration == s.expiration && r.strike == s.strike
    ensures r.right == s.right && r.quoteType == s.quoteType
    ensures Le(start, r.date) && Le(r.date, end) && r.date.tod % Second == 0
    ensures admission == WindowAndSession ==> AdmittedTime(r.date.tod)
  {
    NormalizeMembers(bars, s, start, end, admission, r);
    var i :| 0 <= i < |bars| && Keep(bars[i], start, end, admission) && RowOf(r, bars[i], s);
    var t := bars[i].date.tod;
    FloorKeepsMultiples(t, start.tod, Second);
    FloorKeepsMultiples(t, SecondHour, Second);
  }

  /**
   * The request window of the concurrent script: it ends at the rounded
   * session boundary and starts `daysBack` calendar days earlier at 09:30.
   */
  function ConcurrentWindow(now: DateTime, daysBack: nat): (w: (DateTime, DateTime))
    ensures w.1 == SessionEnd(now) && w.0 == DateTime(w.1.day - daysBack, SessionOpen)
    ensures daysBack > 0 ==> Lt(w.0, w.1)
  {
    SessionEndIsLatestBoundary(now, now);
    var end := SessionEnd(now);
    (DateTime(end.day - daysBack, SessionOpen), end)
  }

  /**
   * `get_option_data` of the concurrent script: no request at all when
   * `daysBack` is 0; `None` when the provider raises, returns no bars, or
   * `pd.to_datetime` raises on the expiration; otherwise the normalised rows.
   */
  function ConcurrentOptionData(provider: Provider, c: Contract, quoteType: string, now: DateTime, daysBack: nat): (frame: Option<seq<Row>>)
    ensures daysBack == 0 ==> frame.None?
    ensures frame.Some? ==> TimestampIsoDate(c.expiration).Some?
  {
    if daysBack == 0 then None
    else
      var (start, end) := ConcurrentWindow(now, daysBack);
      match provider(c, end, daysBack, quoteType)
      case Raised => None
      case Bars(bars) =>
        if bars == [] then None
        else match TimestampIsoDate(c.expiration)
          case None => None
          case Some(iso) =>
            Some(Normalize(bars, Stamp(c.symbol, iso, c.strike, c.right, quoteType), start, end, WindowAndSession))
  }

  /**
   * The rows of a concurrent fetch lie in the request window, on admitted
   * session minutes and whole seconds, stamped with the contract's key.
   */
  lemma ConcurrentRows(provider: Provider, c: Contract, quoteType: string, now: DateTime, daysBack: nat, r: Row)
    requires ConcurrentOptionData(provider, c, quoteType, now, daysBack).Some?
    requires r in ConcurrentOptionData(provider, c, quoteType, now, daysBack).value
    ensures var (start, end) := ConcurrentWindow(now, daysBack);
      Le(start, r.date) && Le(r.date, end) && AdmittedTime(r.date.tod) && r.date.tod % Second == 0
    ensures r.symbol == c.symbol && Some(r.expiration) == IsoDate(c.expiration) && r.strike == c.strike
    ensures r.right == c.right && r.quoteType == quoteType
  {
    var (start, end) := ConcurrentWindow(now, daysBack);
    var bars := provider(c, end, daysBack, quoteType).bars;
    NormalizedRows(bars, Stamp(c.symbol, IsoDate(c.expiration).value, c.strike, c.right, quoteType), start, end, WindowAndSession, r);
  }

  /**
   * `get_option_data` of the sequential script: the window ends at the
   * current instant (not rounded) and starts `daysBack` days earlier; no
   * time-of-day filter.
   */
  function LiveOptionData(provider: Provider, c: Contract, quoteType: string, now: DateTime, daysBack: nat): (frame: Option<seq<Row>>)
    ensures daysBack == 0 ==> frame.None?
    ensures frame.Some? ==> TimestampIsoDate(c.expiration).Some?
  {
    if daysBack == 0 then None
    else
      match provider(c, now, daysBack, quoteType)
      case Raised => None
      case Bars(bars) =>
        if bars == [] then None
        else match TimestampIsoDate(c.expiration)
          case None => None
          case Some(iso) =>
            Some(Normalize(bars, Stamp(c.symbol, iso, c.strike, c.right, quoteType), AddDays(now, -(daysBack as int)), now, WindowOnly))
  }

  /** Every row of a sequential fetch is inside `[now - daysBack days, now]`, up to the dropped microseconds. */
  lemma LiveRows(provider: Provider, c: Contract, quoteType: string, now: DateTime, daysBack: nat, r: Row)
    requires LiveOptionData(provider, c, quoteType, now, daysBack).Some?
    requires r in LiveOptionData(provider, c, quoteType, now, daysBack).value
    ensures Le(TruncToSecond(AddDays(now, -(daysBack as int))), r.date) && Le(r.date, now) && r.date.tod % Second == 0
    ensures r.symbol == c.symbol && Some(r.expiration) == IsoDate(c.expiration) && r.strike == c.strike
    ensures r.right == c.right && r.quoteType == quoteType
  {
    var bars := provider(c, now, daysBack, quoteType).bars;
    var s := Stamp(c.symbol, IsoDate(c.expiration).value, c.strike, c.right, quoteType);
    var start := AddDays(now, -(daysBack as int));
    NormalizeMembers(bars, s, start, now, WindowOnly, r);
    var i :| 0 <= i < |bars| && Keep(bars[i], start, now, WindowOnly) && RowOf(r, bars[i], s);
    FloorKeepsMultiples(bars[i].date.tod, start.tod - start.tod % Second, Second);
  }
}
