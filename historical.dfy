/**
 * The historical export script: seed and collect the expiration and strike
 * sets, build every call contract on CBOE, request three days of hourly
 * bars ending at the rounded session boundary, and flatten the results
 * into one table.
 */
module Historical {
  import opened Wrappers
  import opened Clock
  import opened Market
  import opened ChainSets

  const SeedExpiration: string := "20241015"
  const SeedStrike: Cents := 1000

  /** The collected sets always hold the seeds, besides everything the records list. */
  method SeedSets(params: seq<OptionChain>) returns (expirations: set<string>, strikes: set<Cents>)
    ensures expirations == {SeedExpiration} + AllExpirations(params)
    ensures strikes == {SeedStrike} + AllStrikes(params)
  {
    expirations, strikes := UnionParams(params, {SeedExpiration}, {SeedStrike});
  }

  /** A contract of the product: a call on CBOE for one expiration and one strike of the sets. */
  predicate InProduct(c: Contract, expirations: set<string>, strikes: set<Cents>) {
    c.symbol == Symbol && c.expiration in expirations && c.strike in strikes && c.right == "C" && c.exchange == "CBOE"
  }

  /**
   * The nested `contracts.append` loops over the two sets (in whatever order
   * the sets iterate): each product contract exactly once.
   */
  method ProductContracts(expirations: set<string>, strikes: set<Cents>) returns (contracts: seq<Contract>)
    ensures forall c :: c in contracts <==> InProduct(c, expirations, strikes)
    ensures Distinct(contracts)
    ensures |contracts| == |expirations| * |strikes|
  {
    contracts := [];
    var todo := expirations;
    ghost var done: set<string> := {};
    while todo != {}
      invariant todo + done == expirations && todo !! done
      invariant forall c :: c in contracts <==> InProduct(c, done, strikes)
      invariant Distinct(contracts)
      invariant |contracts| == |done| * |strikes|
      decreases |todo|
    {
      var e := Pick(todo);
      contracts := AppendStrikes(contracts, done, e, strikes);
      MulStep(|done|, |strikes|);
      todo, done := todo - {e}, done + {e};
    }
  }

  /** `for strike in strikes: for right in rights: contracts.append(...)` for one expiration. */
  method AppendStrikes(contracts: seq<Contract>, ghost done: set<string>, e: string, strikes: set<Cents>)
    returns (contracts': seq<Contract>)
    requires e !in done
    requires forall c :: c in contracts <==> InProduct(c, done, strikes)
    requires Distinct(contracts)
    ensures forall c :: c in contracts' <==> InProduct(c, done + {e}, strikes)
    ensures Distinct(contracts')
    ensures |contracts'| == |contracts| + |strikes|
  {
    contracts' := contracts;
    var todo := strikes;
    ghost var seen: set<Cents> := {};
    while todo != {}
      invariant todo + seen == strikes && todo !! seen
      invariant forall c :: c in contracts' <==>
        InProduct(c, done, strikes) || (InProduct(c, {e}, strikes) && c.strike in seen)
      invariant Distinct(contracts')
      invariant |contracts'| == |contracts| + |seen|
      decreases |todo|
    {
      var s := Pick(todo);
      contracts' := AppendRights(contracts', done, e, strikes, seen, s);
      todo, seen := todo - {s}, seen + {s};
    }
  }

  /** `for right in rights: contracts.append(...)` for one expiration and one strike; the rights are `["C"]`. */
  method AppendRights(contracts: seq<Contract>, ghost done: set<string>, e: string, strikes: set<Cents>,
                      ghost seen: set<Cents>, s: Cents)
    returns (contracts': seq<Contract>)
    requires e !in done && s in strikes && s !in seen
    requires forall c :: c in contracts <==>
      InProduct(c, done, strikes) || (InProduct(c, {e}, strikes) && c.strike in seen)
    requires Distinct(contracts)
    ensures forall c :: c in contracts' <==>
      InProduct(c, done, strikes) || (InProduct(c, {e}, strikes) && c.strike in seen + {s})
    ensures Distinct(contracts')
    ensures |contracts'| == |contracts| + 1
  {
    contracts' := contracts;
    var rights := ["C"];
    for r := 0 to |rights|
      invariant forall c :: c in contracts' <==>
        InProduct(c, done, strikes) || (InProduct(c, {e}, strikes) && (c.strike in seen || (c.strike == s && r == 1)))
      invariant Distinct(contracts')
      invariant |contracts'| == |contracts| + r
    {
      var c := Contract(Symbol, e, s, rights[r], "CBOE");
      assert c !in contracts';
      contracts' := contracts' + [c];
    }
  }

  /** One bar as the dict the script keeps: date, open, high, low, close and volume. */
  datatype BarDict = BarDict(date: DateTime, open: Cents, high: Cents, low: Cents, close: Cents, volume: int)

  function BarDicts(bars: seq<Bar>): (ds: seq<BarDict>)
    ensures |ds| == |bars|
  {
    if bars == [] then []
    else var b := bars[|bars| - 1]; BarDicts(bars[..|bars| - 1]) + [BarDict(b.date, b.open, b.high, b.low, b.close, b.volume)]
  }

  /** The dicts are the bars, one for one and in order, with the same values. */
  lemma {:induction false} BarDictsAt(bars: seq<Bar>, i: int)
    requires 0 <= i < |bars|
    ensures var d := BarDicts(bars)[i];
      d.date == bars[i].date && d.open == bars[i].open && d.high == bars[i].high &&
      d.low == bars[i].low && d.close == bars[i].close && d.volume == bars[i].volume
  {
    if i < |bars| - 1 {
      BarDictsAt(bars[..|bars| - 1], i);
    }
  }

  datatype HistoricalResult = HistoricalResult(contract: Contract, data: seq<BarDict>)

  /** The request window ends at the session boundary `SessionEnd(now)` and spans three days of trades. */
  const Duration: nat := 3

  /** `request_historical_data(contract)`: `None` when the request raises. */
  function RequestHistoricalData(provider: Provider, c: Contract, now: DateTime): (r: Option<HistoricalResult>)
    ensures r.None? <==> provider(c, SessionEnd(now), Duration, "TRADES").Raised?
    ensures r.Some? ==> r.value.contract == c && |r.value.data| == |provider(c, SessionEnd(now), Duration, "TRADES").bars|
  {
    match provider(c, SessionEnd(now), Duration, "TRADES")
    case Raised => None
    case Bars(bars) => Some(HistoricalResult(c, BarDicts(bars)))
  }

  /** `asyncio.gather` over the qualified contracts, in task order. */
  function Results(qualified: seq<Contract>, provider: Provider, now: DateTime): (rs: seq<Option<HistoricalResult>>)
    ensures |rs| == |qualified|
  {
    seq(|qualified|, i requires 0 <= i < |qualified| => RequestHistoricalData(provider, qualified[i], now))
  }

  /** One row of the exported table; `localSymbol` is the broker's name for the contract. */
  datatype TableRow = TableRow(symbol: string, expiration: string, strike: Cents, right: string,
                               date: DateTime, open: Cents, high: Cents, low: Cents, close: Cents, volume: int)

  function RowsOf(r: HistoricalResult, localSymbol: Contract -> string): (rows: seq<TableRow>)
    ensures |rows| == |r.data|
  {
    seq(|r.data|, k requires 0 <= k < |r.data| =>
      TableRow(localSymbol(r.contract), r.contract.expiration, r.contract.strike, r.contract.right,
               r.data[k].date, r.data[k].open, r.data[k].high, r.data[k].low, r.data[k].close, r.data[k].volume))
  }

  /**
   * The `all_data.append` double loop: `None` when some result is `None`,
   * since subscripting it raises and the script stops before writing.
   */
  function Flattened(results: seq<Option<HistoricalResult>>, localSymbol: Contract -> string): Option<seq<TableRow>> {
    if results == [] then Some([])
    else
      var init := Flattened(results[..|results| - 1], localSymbol);
      var last := results[|results| - 1];
      if init.None? || last.None? then None else Some(init.value + RowsOf(last.value, localSymbol))
  }

  function TotalBars(results: seq<Option<HistoricalResult>>): nat {
    if results == [] then 0
    else
      var last := results[|results| - 1];
      TotalBars(results[..|results| - 1]) + (if last.Some? then |last.value.data| else 0)
  }

  /** The table exists exactly when every request succeeded, and then holds one row per bar. */
  lemma {:induction false} FlattenedShape(results: seq<Option<HistoricalResult>>, localSymbol: Contract -> string)
    ensures Flattened(results, localSymbol).None? <==> exists i :: 0 <= i < |results| && results[i].None?
    ensures Flattened(results, localSymbol).Some? ==> |Flattened(results, localSymbol).value| == TotalBars(results)
  {
    if results != [] {
      var init := results[..|results| - 1];
      FlattenedShape(init, localSymbol);
      assert forall i :: 0 <= i < |init| ==> init[i] == results[i];
    }
  }

  /** Results in order, and each result's bars in order: flattening distributes over concatenation. */
  lemma {:induction false} FlattenedAppend(a: seq<Option<HistoricalResult>>, b: seq<Option<HistoricalResult>>, localSymbol: Contract -> string)
    requires Flattened(a, localSymbol).Some? && Flattened(b, localSymbol).Some?
    ensures Flattened(a + b, localSymbol) == Some(Flattened(a, localSymbol).value + Flattened(b, localSymbol).value)
    decreases |b|
  {
    if b == [] {
      assert a + b == a;
      assert Flattened(b, localSymbol).value == [];
      assert Flattened(a, localSymbol).value + [] == Flattened(a, localSymbol).value;
    } else {
      var ab := a + b;
      var b0 := b[..|b| - 1];
      assert ab[..|ab| - 1] == a + b0;
      assert ab[|ab| - 1] == b[|b| - 1];
      assert Flattened(b0, localSymbol).Some? && b[|b| - 1].Some?;
      FlattenedAppend(a, b0, localSymbol);
      assert Flattened(ab, localSymbol) ==
        Some(Flattened(a + b0, localSymbol).value + RowsOf(b[|b| - 1].value, localSymbol));
      var fa, fb0, r := Flattened(a, localSymbol).value, Flattened(b0, localSymbol).value, RowsOf(b[|b| - 1].value, localSymbol);
      assert Flattened(b, localSymbol).value == fb0 + r;
      assert (fa + fb0) + r == fa + (fb0 + r);
    }
  }

  /** The loop itself. */
  method FlattenResults(results: seq<Option<HistoricalResult>>, localSymbol: Contract -> string)
    returns (table: Option<seq<TableRow>>)
    ensures table == Flattened(results, localSymbol)
  {
    var allData: seq<TableRow> := [];
    for i := 0 to |results|
      invariant Flattened(results[..i], localSymbol) == Some(allData)
    {
      assert results[..i + 1][..i] == results[..i];
      if results[i].None? {
        assert Flattened(results[..i + 1], localSymbol).None?;
        FlattenedNoneStays(results, i + 1, localSymbol);
        assert results[..|results|] == results;
        return None;
      }
      var result := results[i].value;
      ghost var before := allData;
      for k := 0 to |result.data|
        invariant allData == before + RowsOf(result, localSymbol)[..k]
      {
        var bar := result.data[k];
        allData := allData + [TableRow(localSymbol(result.contract), result.contract.expiration, result.contract.strike,
                                       result.contract.right, bar.date, bar.open, bar.high, bar.low, bar.close, bar.volume)];
        assert RowsOf(result, localSymbol)[..k + 1] == RowsOf(result, localSymbol)[..k] + [RowsOf(result, localSymbol)[k]];
      }
      assert RowsOf(result, localSymbol)[..|result.data|] == RowsOf(result, localSymbol);
    }
    assert results[..|results|] == results;
    return Some(allData);
  }

  lemma {:induction false} FlattenedNoneStays(results: seq<Option<HistoricalResult>>, n: nat, localSymbol: Contract -> string)
    requires n <= |results| && Flattened(results[..n], localSymbol).None?
    ensures Flattened(results, localSymbol).None?
    decreases |results| - n
  {
    if n < |results| {
      assert results[..n + 1][..n] == results[..n];
      FlattenedNoneStays(results, n + 1, localSymbol);
    } else {
      assert results[..n] == results;
    }
  }

  /**
   * The whole script from the option-parameter records: the product of the
   * seeded sets, the broker's qualification, the requests and the table.
   */
  method HistoricalExport(params: seq<OptionChain>, qualifies: Contract -> bool, provider: Provider, now: DateTime,
                          localSymbol: Contract -> string)
    returns (contracts: seq<Contract>, table: Option<seq<TableRow>>)
    ensures forall c :: c in contracts <==> InProduct(c, {SeedExpiration} + AllExpirations(params), {SeedStrike} + AllStrikes(params))
    ensures Distinct(contracts)
    ensures table == Flattened(Results(Qualified(contracts, qualifies), provider, now), localSymbol)
  {
    var expirations, strikes := SeedSets(params);
    contracts := ProductContracts(expirations, strikes);
    var qualified := Qualified(contracts, qualifies);
    var results := Results(qualified, provider, now);
    table := FlattenResults(results, localSymbol);
  }
}
