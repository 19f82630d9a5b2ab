/**
 * The read side of the Flask dashboard: the option-chain pivot of the
 * latest day, the chart series of one contract, and the current VIX close.
 * Prices are integer cents, so the strike range 5..25 is 500..2500.
 */
module Dashboard {
  import opened Wrappers
  import opened Clock
  import opened Sorting

  const StrikeMin: int := 500
  const StrikeMax: int := 2500

  /** A row of the `daily_option` view. */
  datatype DailyRow = DailyRow(quoteType: string, symbol: string, expiration: string, strike: int, right: string,
                               date: DateTime, open: int, high: int, low: int, close: int, volume: int)

  predicate InStrikeRange(strike: int) {
    StrikeMin <= strike <= StrikeMax
  }

  predicate Matches(r: DailyRow, symbol: string, expiration: string, quoteType: string) {
    r.symbol == symbol && r.expiration == expiration && r.quoteType == quoteType
  }

  /** `...filter(symbol, expiration, quote_type).order_by(date.desc()).first()`. */
  function LatestMatch(rows: seq<DailyRow>, symbol: string, expiration: string, quoteType: string): (m: Option<DailyRow>)
    ensures m.None? <==> forall i :: 0 <= i < |rows| ==> !Matches(rows[i], symbol, expiration, quoteType)
    ensures m.Some? ==> Matches(m.value, symbol, expiration, quoteType)
    ensures m.Some? ==>
      forall i :: 0 <= i < |rows| && Matches(rows[i], symbol, expiration, quoteType) ==> Le(rows[i].date, m.value.date)
  {
    if rows == [] then None
    else
      var init := rows[..|rows| - 1];
      var last := rows[|rows| - 1];
      var m := LatestMatch(init, symbol, expiration, quoteType);
      assert forall i :: 0 <= i < |init| ==> init[i] == rows[i];
      if !Matches(last, symbol, expiration, quoteType) then m
      else if m.Some? && Le(last.date, m.value.date) then m
      else Some(last)
  }

  predicate OnDay(r: DailyRow, symbol: string, expiration: string, quoteType: string, day: int) {
    Matches(r, symbol, expiration, quoteType) && r.date.day == day && InStrikeRange(r.strike)
  }

  /** The `options_query` filter, before its ordering. */
  function DayRows(rows: seq<DailyRow>, symbol: string, expiration: string, quoteType: string, day: int): (sel: seq<DailyRow>)
    ensures |sel| <= |rows|
  {
    if rows == [] then []
    else
      var init := DayRows(rows[..|rows| - 1], symbol, expiration, quoteType, day);
      var last := rows[|rows| - 1];
      if OnDay(last, symbol, expiration, quoteType, day) then init + [last] else init
  }

  lemma {:induction false} DayRowsMembers(rows: seq<DailyRow>, symbol: string, expiration: string, quoteType: string, day: int, r: DailyRow)
    ensures r in DayRows(rows, symbol, expiration, quoteType, day) <==> r in rows && OnDay(r, symbol, expiration, quoteType, day)
  {
    if rows != [] {
      assert rows == rows[..|rows| - 1] + [rows[|rows| - 1]];
      DayRowsMembers(rows[..|rows| - 1], symbol, expiration, quoteType, day, r);
    }
  }

  function RowStrike(r: DailyRow): int {
    r.strike
  }

  /** `options_query.all()`: the day's rows in the strike window, by ascending strike. */
  function Selected(rows: seq<DailyRow>, symbol: string, expiration: string, quoteType: string, day: int): seq<DailyRow> {
    SortBy(DayRows(rows, symbol, expiration, quoteType, day), RowStrike)
  }

  /** The rows that feed the pivot are exactly the matching rows of that day with a strike in the window, by strike. */
  lemma SelectedRows(rows: seq<DailyRow>, symbol: string, expiration: string, quoteType: string, day: int, r: DailyRow)
    ensures r in Selected(rows, symbol, expiration, quoteType, day) <==> r in rows && OnDay(r, symbol, expiration, quoteType, day)
    ensures SortedBy(Selected(rows, symbol, expiration, quoteType, day), RowStrike)
  {
    SortByMembers(DayRows(rows, symbol, expiration, quoteType, day), RowStrike, r);
    DayRowsMembers(rows, symbol, expiration, quoteType, day, r);
    SortBySorted(DayRows(rows, symbol, expiration, quoteType, day), RowStrike);
  }

  /** `OptionDayQuote` as a value; the constructor's defaults are all 0. */
  datatype Quote = Quote(strike: int, call: int, put: int, callVolume: int, putVolume: int)

  const DefaultQuote: Quote := Quote(0, 0, 0, 0, 0)

  /** The loop body's update of the strike's entry: 'C' sets the call side, any other right the put side. */
  function Apply(o: Quote, r: DailyRow): Quote {
    var o := o.(strike := r.strike);
    if r.right == "C" then o.(call := r.close, callVolume := r.volume)
    else o.(put := r.close, putVolume := r.volume)
  }

  /** The `defaultdict`: its entries and the order in which their keys were first used. */
  datatype Chain = Chain(slots: map<int, Quote>, order: seq<int>)

  /** One pass of the pivot loop body: the strike's entry is updated, and a new strike is appended to the key order. */
  function PivotStep(p: Chain, r: DailyRow): Chain {
    var o := if r.strike in p.slots then p.slots[r.strike] else DefaultQuote;
    Chain(p.slots[r.strike := Apply(o, r)], if r.strike in p.slots then p.order else p.order + [r.strike])
  }

  /** The pivot loop over the selected rows. */
  function Pivot(options: seq<DailyRow>): Chain {
    if options == [] then Chain(map[], [])
    else PivotStep(Pivot(options[..|options| - 1]), options[|options| - 1])
  }

  /** The keys in first-use order are distinct, are the strikes seen, and each entry carries its own key. */
  ghost predicate WellFormed(p: Chain) {
    (forall i, j :: 0 <= i < j < |p.order| ==> p.order[i] != p.order[j]) &&
    (forall s :: s in p.slots ==> s in p.order) &&
    (forall i :: 0 <= i < |p.order| ==> p.order[i] in p.slots) &&
    (forall s :: s in p.slots ==> p.slots[s].strike == s)
  }

  /** The loop body keeps the chain well formed. */
  lemma PivotStepWellFormed(p: Chain, r: DailyRow)
    requires WellFormed(p)
    ensures WellFormed(PivotStep(p, r))
  {
    var q := PivotStep(p, r);
    if r.strike !in p.slots {
      forall i | 0 <= i < |p.order| ensures p.order[i] != r.strike {
        assert p.order[i] in p.slots;
      }
      assert q.order == p.order + [r.strike];
      forall i, j | 0 <= i < j < |q.order| ensures q.order[i] != q.order[j] {
        if j < |p.order| {
          assert q.order[i] == p.order[i] && q.order[j] == p.order[j];
        }
      }
      forall i | 0 <= i < |q.order| ensures q.order[i] in q.slots {
        if i < |p.order| {
          assert q.order[i] == p.order[i];
        }
      }
    }
  }

  lemma {:induction false} PivotWellFormed(options: seq<DailyRow>)
    ensures WellFormed(Pivot(options))
  {
    if options != [] {
      PivotWellFormed(options[..|options| - 1]);
      PivotStepWellFormed(Pivot(options[..|options| - 1]), options[|options| - 1]);
    }
  }

  /** The chain's keys are exactly the strikes of the rows. */
  lemma {:induction false} PivotKeys(options: seq<DailyRow>, s: int)
    ensures s in Pivot(options).slots <==> exists i :: 0 <= i < |options| && options[i].strike == s
  {
    if options != [] {
      var init := options[..|options| - 1];
      PivotKeys(init, s);
      if exists i :: 0 <= i < |options| && options[i].strike == s {
        var i :| 0 <= i < |options| && options[i].strike == s;
        if i < |init| {
          assert init[i] == options[i];
        }
      }
      if exists i :: 0 <= i < |init| && init[i].strike == s {
        var i :| 0 <= i < |init| && init[i].strike == s;
        assert options[i] == init[i];
      }
    }
  }

  /**
   * A strike's call price and volume are those of the last 'C' row for it;
   * its put price and volume those of the last row with another right.
   */
  lemma {:induction false} PivotLastWins(options: seq<DailyRow>, i: int)
    requires 0 <= i < |options|
    requires forall j :: i < j < |options| && options[j].strike == options[i].strike ==>
      (options[j].right == "C") != (options[i].right == "C")
    ensures options[i].strike in Pivot(options).slots
    ensures var q := Pivot(options).slots[options[i].strike];
      if options[i].right == "C" then q.call == options[i].close && q.callVolume == options[i].volume
      else q.put == options[i].close && q.putVolume == options[i].volume
  {
    var s := options[i].strike;
    PivotKeys(options, s);
    if i < |options| - 1 {
      var init := options[..|options| - 1];
      var r := options[|options| - 1];
      assert forall j :: i < j < |init| ==> init[j] == options[j];
      assert init[i] == options[i];
      PivotLastWins(init, i);
      assert s in Pivot(init).slots;
      if r.strike == s {
        assert Pivot(options).slots[s] == Apply(Pivot(init).slots[s], r);
      } else {
        assert Pivot(options).slots[s] == Pivot(init).slots[s];
      }
    }
  }

  /** A side with no row for the strike keeps the default 0. */
  lemma {:induction false} PivotMissingSide(options: seq<DailyRow>, s: int, call: bool)
    requires s in Pivot(options).slots
    requires forall j :: 0 <= j < |options| && options[j].strike == s ==> (options[j].right == "C") != call
    ensures var q := Pivot(options).slots[s];
      if call then q.call == 0 && q.callVolume == 0 else q.put == 0 && q.putVolume == 0
  {
    if options != [] {
      var init := options[..|options| - 1];
      assert forall j :: 0 <= j < |init| ==> init[j] == options[j];
      if s in Pivot(init).slots {
        PivotMissingSide(init, s, call);
      }
    }
  }

  /** `option_chain.values()`, in insertion order. */
  function Values(p: Chain): (vs: seq<Quote>)
    ensures |vs| == |p.order|
  {
    seq(|p.order|, i requires 0 <= i < |p.order| => if p.order[i] in p.slots then p.slots[p.order[i]] else DefaultQuote)
  }

  function QuoteStrike(q: Quote): int {
    q.strike
  }

  /** One output dict of `get_option_chain_data`. */
  datatype ChainEntry = ChainEntry(strike: int, callLastPrice: int, putLastPrice: int, callVolume: int, putVolume: int)

  function ToEntry(q: Quote): ChainEntry {
    ChainEntry(q.strike, q.call, q.put, q.callVolume, q.putVolume)
  }

  /** The renaming into dicts, entry by entry. */
  function Entries(qs: seq<Quote>): (es: seq<ChainEntry>)
    ensures |es| == |qs|
  {
    seq(|qs|, k requires 0 <= k < |qs| => ToEntry(qs[k]))
  }

  /** What `get_option_chain_data(symbol, expiration, quote_type)` returns over the view's rows. */
  function ChainData(rows: seq<DailyRow>, symbol: string, expiration: string, quoteType: string): seq<ChainEntry> {
    match LatestMatch(rows, symbol, expiration, quoteType)
    case None => []
    case Some(latest) => Entries(SortBy(Values(Pivot(Selected(rows, symbol, expiration, quoteType, latest.date.day))), QuoteStrike))
  }

  /** No row for the symbol, expiration and quote type: the chain is empty. */
  lemma ChainDataEmpty(rows: seq<DailyRow>, symbol: string, expiration: string, quoteType: string)
    requires forall i :: 0 <= i < |rows| ==> !Matches(rows[i], symbol, expiration, quoteType)
    ensures ChainData(rows, symbol, expiration, quoteType) == []
  {
  }

  lemma ValuesDistinct(p: Chain)
    requires WellFormed(p)
    ensures forall i, j :: 0 <= i < j < |Values(p)| ==> Values(p)[i].strike != Values(p)[j].strike
    ensures forall q :: q in Values(p) ==> q.strike in p.slots && q == p.slots[q.strike]
  {
    var vs := Values(p);
    forall i | 0 <= i < |vs| ensures p.order[i] in p.slots && vs[i] == p.slots[p.order[i]] && vs[i].strike == p.order[i] {
      assert p.order[i] in p.order;
      assert vs[i] == if p.order[i] in p.slots then p.slots[p.order[i]] else DefaultQuote;
    }
  }

  /** The sorted values: strictly ascending strikes, the pivot's strikes, each the slot of its strike. */
  lemma SortedValues(p: Chain, s: int)
    requires WellFormed(p)
    ensures var sorted := SortBy(Values(p), QuoteStrike);
      (forall i, j :: 0 <= i < j < |sorted| ==> sorted[i].strike < sorted[j].strike) &&
      ((exists k :: 0 <= k < |sorted| && sorted[k].strike == s) <==> s in p.slots) &&
      (forall k :: 0 <= k < |sorted| ==> sorted[k].strike in p.slots && sorted[k] == p.slots[sorted[k].strike])
  {
    var vs := Values(p);
    var sorted := SortBy(vs, QuoteStrike);
    ValuesDistinct(p);
    SortByStrict(vs, QuoteStrike);
    forall k | 0 <= k < |sorted| ensures sorted[k] in vs {
      SortByMembers(vs, QuoteStrike, sorted[k]);
    }
    if s in p.slots {
      assert s in p.order;
      var i :| 0 <= i < |p.order| && p.order[i] == s;
      assert vs[i] in vs;
      SortByMembers(vs, QuoteStrike, vs[i]);
      var k :| 0 <= k < |sorted| && sorted[k] == vs[i];
      assert sorted[k].strike == s;
    }
  }

  /** The entries of a well-formed chain: strictly ascending strikes, its strikes, each its slot renamed. */
  lemma EntriesShape(p: Chain, s: int)
    requires WellFormed(p)
    ensures var entries := Entries(SortBy(Values(p), QuoteStrike));
      (forall i, j :: 0 <= i < j < |entries| ==> entries[i].strike < entries[j].strike) &&
      ((exists k :: 0 <= k < |entries| && entries[k].strike == s) <==> s in p.slots) &&
      (forall k :: 0 <= k < |entries| ==> entries[k].strike in p.slots && entries[k] == ToEntry(p.slots[entries[k].strike]))
  {
    var sorted := SortBy(Values(p), QuoteStrike);
    SortedValues(p, s);
    var entries := Entries(sorted);
    assert forall k :: 0 <= k < |sorted| ==> entries[k] == ToEntry(sorted[k]);
    if exists k :: 0 <= k < |entries| && entries[k].strike == s {
      var k :| 0 <= k < |entries| && entries[k].strike == s;
      assert sorted[k].strike == s;
    }
    if s in p.slots {
      var k :| 0 <= k < |sorted| && sorted[k].strike == s;
      assert entries[k].strike == s;
    }
  }

  /**
   * The chain has one entry per distinct strike among the latest day's
   * selected rows, in strictly ascending strike order, and each entry is
   * that strike's pivot slot under the renamed keys.
   */
  lemma ChainDataShape(rows: seq<DailyRow>, symbol: string, expiration: string, quoteType: string, s: int)
    requires LatestMatch(rows, symbol, expiration, quoteType).Some?
    ensures var options := Selected(rows, symbol, expiration, quoteType, LatestMatch(rows, symbol, expiration, quoteType).value.date.day);
      var entries := ChainData(rows, symbol, expiration, quoteType);
      (forall i, j :: 0 <= i < j < |entries| ==> entries[i].strike < entries[j].strike) &&
      ((exists k :: 0 <= k < |entries| && entries[k].strike == s) <==>
       (exists i :: 0 <= i < |options| && options[i].strike == s)) &&
      (forall k :: 0 <= k < |entries| ==>
         entries[k].strike in Pivot(options).slots && entries[k] == ToEntry(Pivot(options).slots[entries[k].strike]))
  {
    var options := Selected(rows, symbol, expiration, quoteType, LatestMatch(rows, symbol, expiration, quoteType).value.date.day);
    PivotWellFormed(options);
    PivotKeys(options, s);
    EntriesShape(Pivot(options), s);
  }

  /**
   * `get_option_chain_data`: the latest-date query, the strike-window
   * query, the pivot loop, `sorted` by strike and the renaming into dicts.
   */
  method GetOptionChainData(rows: seq<DailyRow>, symbol: string, expiration: string, quoteType: string)
    returns (entries: seq<ChainEntry>)
    ensures entries == ChainData(rows, symbol, expiration, quoteType)
  {
    var latest := LatestMatch(rows, symbol, expiration, quoteType);
    if latest.None? {
      return [];
    }
    var options := Selected(rows, symbol, expiration, quoteType, latest.value.date.day);
    var slots: map<int, Quote> := map[];
    var order: seq<int> := [];
    for i := 0 to |options|
      invariant Chain(slots, order) == Pivot(options[..i])
    {
      assert options[..i + 1][..i] == options[..i];
      var option := options[i];
      if option.strike !in slots {
        order := order + [option.strike];
      }
      var o := if option.strike in slots then slots[option.strike] else DefaultQuote;
      o := o.(strike := option.strike);
      if option.right == "C" {
        o := o.(call := option.close, callVolume := option.volume);
      } else {
        o := o.(put := option.close, putVolume := option.volume);
      }
      slots := slots[option.strike := o];
    }
    assert options[..|options|] == options;
    var sorted := SortBy(Values(Chain(slots, order)), QuoteStrike);
    entries := Entries(sorted);
  }

  /** One point of the chart series. */
  datatype ChartPoint = ChartPoint(date: DateTime, open: int, high: int, low: int, close: int)

  predicate Charted(r: DailyRow, symbol: string, expiration: string, strike: int, right: string) {
    r.symbol == symbol && r.expiration == expiration && r.strike == strike && r.right == right && InStrikeRange(r.strike)
  }

  /** `get_chart_data`: the contract's rows in the strike window, mapped to points in the view's order. */
  function ChartData(rows: seq<DailyRow>, symbol: string, expiration: string, strike: int, right: string): (points: seq<ChartPoint>)
    ensures |points| <= |rows|
  {
    if rows == [] then []
    else
      var init := ChartData(rows[..|rows| - 1], symbol, expiration, strike, right);
      var r := rows[|rows| - 1];
      if Charted(r, symbol, expiration, strike, right) then init + [ChartPoint(r.date, r.open, r.high, r.low, r.close)] else init
  }

  /** The series keeps the view's order: it is computed row block by row block. */
  lemma {:induction false} ChartDataAppend(a: seq<DailyRow>, b: seq<DailyRow>, symbol: string, expiration: string, strike: int, right: string)
    ensures ChartData(a + b, symbol, expiration, strike, right) ==
      ChartData(a, symbol, expiration, strike, right) + ChartData(b, symbol, expiration, strike, right)
    decreases |b|
  {
    if b == [] {
      assert a + b == a;
    } else {
      assert (a + b)[..|a + b| - 1] == a + b[..|b| - 1];
      ChartDataAppend(a, b[..|b| - 1], symbol, expiration, strike, right);
    }
  }

  /** A point is charted exactly when some selected row maps to it; a strike outside 5..25 gives no points. */
  lemma {:induction false} ChartDataMembers(rows: seq<DailyRow>, symbol: string, expiration: string, strike: int, right: string, pt: ChartPoint)
    ensures pt in ChartData(rows, symbol, expiration, strike, right) <==>
      exists i :: 0 <= i < |rows| && Charted(rows[i], symbol, expiration, strike, right) &&
        pt == ChartPoint(rows[i].date, rows[i].open, rows[i].high, rows[i].low, rows[i].close)
    ensures !InStrikeRange(strike) ==> ChartData(rows, symbol, expiration, strike, right) == []
  {
    if rows != [] {
      var init := rows[..|rows| - 1];
      ChartDataMembers(init, symbol, expiration, strike, right, pt);
      assert forall i :: 0 <= i < |init| ==> init[i] == rows[i];
    }
  }

  /** A row of the `vix_data` table. */
  datatype VixRow = VixRow(symbol: string, date: DateTime, close: int)

  /** `get_current_vix_value`: the close of a row with the greatest date, or `None` for an empty table. */
  function CurrentVixValue(vix: seq<VixRow>): (v: Option<int>)
    ensures v.None? <==> vix == []
    ensures v.Some? ==>
      exists i :: 0 <= i < |vix| && vix[i].close == v.value && forall j :: 0 <= j < |vix| ==> Le(vix[j].date, vix[i].date)
  {
    if vix == [] then None
    else
      var latest := LatestVix(vix);
      Some(vix[latest].close)
  }

  function LatestVix(vix: seq<VixRow>): (i: nat)
    requires vix != []
    ensures i < |vix| && forall j :: 0 <= j < |vix| ==> Le(vix[j].date, vix[i].date)
  {
    if |vix| == 1 then 0
    else
      var i := LatestVix(vix[..|vix| - 1]);
      assert forall j :: 0 <= j < |vix| - 1 ==> vix[..|vix| - 1][j] == vix[j];
      if Le(vix[|vix| - 1].date, vix[i].date) then i else |vix| - 1
  }
}
