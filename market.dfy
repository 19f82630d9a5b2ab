/** The values the ingestion scripts pass around. */
module Market {
  import opened Clock

  /** Strikes and prices are decimal amounts; the model counts them in cents. */
  type Cents = int

  /** The underlying every script works on. */
  const Symbol: string := "VIX"

  /** `STRIKE_PRICE_LIMIT = 100`: only strikes up to 100.00 are enumerated. */
  const StrikeLimit: Cents := 10000

  /** An option contract as built for the provider. */
  datatype Contract = Contract(symbol: string, expiration: string, strike: Cents, right: string, exchange: string)

  /** One record of the provider's option parameters for an exchange. */
  datatype OptionChain = OptionChain(exchange: string, expirations: seq<string>, strikes: seq<Cents>)

  /** A provider bar, with its timestamp already in Eastern wall-clock time. */
  datatype Bar = Bar(date: DateTime, open: Cents, high: Cents, low: Cents, close: Cents,
                     volume: int, average: Cents, barCount: int)

  /** What a historical request yields: an exception, or a (possibly empty) list of bars. */
  datatype Reply = Raised | Bars(bars: seq<Bar>)

  /**
   * The quote provider: contract, window end, duration in days and the
   * quote type ('TRADES', 'ASK', 'BID') to a reply.
   */
  type Provider = (Contract, DateTime, nat, string) -> Reply

  /**
   * A row of the option_data table, columns in the order of the INSERT
   * statement: symbol, expiration (ISO), strike, right, date, open, high,
   * low, close, volume, average, barCount, quote_type.
   */
  datatype Row = Row(symbol: string, expiration: string, strike: Cents, right: string, date: DateTime,
                     open: Cents, high: Cents, low: Cents, close: Cents, volume: int, average: Cents,
                     barCount: int, quoteType: string)

  /** No contract occurs twice. */
  predicate Distinct(cs: seq<Contract>) {
    forall i, j :: 0 <= i < j < |cs| ==> cs[i] != cs[j]
  }

  /**
   * `ib.qualifyContracts(*contracts)`: the broker's verdict on each contract
   * is the parameter `qualifies`; the qualified ones come back in order.
   */
  function Qualified(cs: seq<Contract>, qualifies: Contract -> bool): (qs: seq<Contract>)
    ensures |qs| <= |cs|
  {
    if cs == [] then []
    else
      var init := Qualified(cs[..|cs| - 1], qualifies);
      if qualifies(cs[|cs| - 1]) then init + [cs[|cs| - 1]] else init
  }

  lemma {:induction false} QualifiedMembers(cs: seq<Contract>, qualifies: Contract -> bool, c: Contract)
    ensures c in Qualified(cs, qualifies) <==> c in cs && qualifies(c)
  {
    if cs != [] {
      assert cs == cs[..|cs| - 1] + [cs[|cs| - 1]];
      QualifiedMembers(cs[..|cs| - 1], qualifies, c);
    }
  }
}
