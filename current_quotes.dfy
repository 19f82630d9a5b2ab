/**
 * The current-quotes script: connect with retries, collect the expiration
 * and strike sets, keep the strike 15 only, build one call per expiration
 * (the loops break after their first visit), request a market snapshot per
 * qualified contract and keep the answers that came back.
 */
module CurrentQuotes {
  import opened Wrappers
  import opened Market
  import opened ChainSets
  import opened Sorting

  /** `attempt_connection()` is called with its defaults. */
  const DefaultMaxAttempts: int := 3
  const DefaultDelay: nat := 5

  /** The only strike the script keeps: `15 == s`. */
  const KeptStrike: Cents := 1500

  /**
   * The first connect call that succeeds among calls `0 .. n - 1`, where
   * `connects(k)` is the outcome of call `k`.
   */
  function FirstSuccess(connects: nat -> bool, n: nat): (r: Option<nat>)
    ensures r.Some? ==> r.value < n && connects(r.value)
  {
    if n == 0 then None
    else match FirstSuccess(connects, n - 1)
      case Some(k) => Some(k)
      case None => if connects(n - 1) then Some(n - 1) else None
  }

  /** `FirstSuccess` is the first success, and `None` means every call failed. */
  lemma {:induction false} FirstSuccessIsFirst(connects: nat -> bool, n: nat)
    ensures FirstSuccess(connects, n).Some? ==> forall j :: 0 <= j < FirstSuccess(connects, n).value ==> !connects(j)
    ensures FirstSuccess(connects, n).None? <==> forall j :: 0 <= j < n ==> !connects(j)
  {
    if n > 0 {
      FirstSuccessIsFirst(connects, n - 1);
    }
  }

  /** A success found among the first calls stays the first one as more calls are counted. */
  lemma {:induction false} FirstSuccessStable(connects: nat -> bool, a: nat, n: nat)
    requires a <= n && FirstSuccess(connects, a).Some?
    ensures FirstSuccess(connects, n) == FirstSuccess(connects, a)
    decreases n - a
  {
    if a < n {
      FirstSuccessStable(connects, a, n - 1);
    }
  }

  /**
   * `attempt_connection(max_attempts, delay)`: at most `max_attempts`
   * connect calls, stopping at the first success; `delay` seconds of sleep
   * after every failed call but the last. With no attempt at all the
   * function falls off its loop and returns `None`, which is falsy:
   * `connected` is then false.
   */
  method AttemptConnection(maxAttempts: int, delay: nat, connects: nat -> bool)
    returns (connected: bool, attempts: nat, slept: nat)
    ensures var n := if maxAttempts > 0 then maxAttempts else 0;
      connected == FirstSuccess(connects, n).Some? &&
      (connected ==> attempts == FirstSuccess(connects, n).value + 1 && slept == delay * FirstSuccess(connects, n).value) &&
      (!connected ==> attempts == n && slept == (if n > 0 then delay * (n - 1) else 0))
  {
    attempts, slept := 0, 0;
    var attempt := 0;
    while attempt < maxAttempts
      invariant 0 <= attempt && (maxAttempts > 0 ==> attempt < maxAttempts) && (maxAttempts <= 0 ==> attempt == 0)
      invariant FirstSuccess(connects, attempt).None?
      invariant attempts == attempt && slept == delay * attempt
    {
      attempts := attempts + 1;
      if connects(attempt) {
        FirstSuccessStable(connects, attempt + 1, maxAttempts);
        return true, attempts, slept;
      }
      if attempt < maxAttempts - 1 {
        slept := slept + delay;
      } else {
        return false, attempts, slept;
      }
      attempt := attempt + 1;
    }
    return false, attempts, slept;
  }

  /** The sort key of `sorted(strikes)`: the strike itself. */
  function StrikeKey(s: Cents): int {
    s
  }

  /**
   * `sorted(strikes)`: the set is listed in its iteration order, which the
   * model leaves open, and the list is sorted by value.
   */
  method SortedStrikes(strikes: set<Cents>) returns (sorted: seq<Cents>)
    ensures StrictlyBy(sorted, StrikeKey)
    ensures forall x :: x in sorted <==> x in strikes
    ensures |sorted| == |strikes|
  {
    var listed := [];
    var todo := strikes;
    while todo != {}
      invariant todo <= strikes
      invariant forall x :: x in listed <==> x in strikes && x !in todo
      invariant forall i, j :: 0 <= i < j < |listed| ==> listed[i] != listed[j]
      invariant |listed| + |todo| == |strikes|
      decreases |todo|
    {
      var x := Pick(todo);
      listed := listed + [x];
      todo := todo - {x};
    }
    sorted := SortBy(listed, StrikeKey);
    SortByStrict(listed, StrikeKey);
    forall x
      ensures x in sorted <==> x in strikes
    {
      SortByMembers(listed, StrikeKey, x);
    }
  }

  /** `[s for s in sorted_strikes if 15 == s]`. */
  function KeepFifteen(sorted: seq<Cents>): (kept: seq<Cents>)
    ensures |kept| <= |sorted|
  {
    if sorted == [] then []
    else KeepFifteen(sorted[..|sorted| - 1]) + (if sorted[|sorted| - 1] == KeptStrike then [KeptStrike] else [])
  }

  lemma {:induction false} KeepFifteenMembers(sorted: seq<Cents>)
    ensures forall x :: x in KeepFifteen(sorted) ==> x == KeptStrike
    ensures KeptStrike in KeepFifteen(sorted) <==> KeptStrike in sorted
  {
    if sorted != [] {
      assert sorted == sorted[..|sorted| - 1] + [sorted[|sorted| - 1]];
      KeepFifteenMembers(sorted[..|sorted| - 1]);
    }
  }

  /** At most one element passes, as the sorted list holds each strike once. */
  lemma {:induction false} KeepFifteenAscending(sorted: seq<Cents>)
    requires StrictlyBy(sorted, StrikeKey)
    ensures KeepFifteen(sorted) == if KeptStrike in sorted then [KeptStrike] else []
  {
    if sorted != [] {
      var init := sorted[..|sorted| - 1];
      assert StrictlyBy(init, StrikeKey);
      KeepFifteenAscending(init);
      assert sorted == init + [sorted[|sorted| - 1]];
      if sorted[|sorted| - 1] == KeptStrike {
        assert KeptStrike !in init;
      }
    }
  }

  /** The strike list the script enumerates: `[15]` when some record lists 15, otherwise empty. */
  method FilteredStrikes(params: seq<OptionChain>) returns (expirations: set<string>, strikes: seq<Cents>)
    ensures expirations == AllExpirations(params)
    ensures strikes == if KeptStrike in AllStrikes(params) then [KeptStrike] else []
  {
    var strikeSet;
    expirations, strikeSet := UnionParams(params, {}, {});
    var sorted := SortedStrikes(strikeSet);
    strikes := KeepFifteen(sorted);
    KeepFifteenAscending(sorted);
  }

  /** The call on CBOE that the loop body builds for one expiration and strike. */
  function CallOn(expiration: string, strike: Cents): Contract {
    Contract(Symbol, expiration, strike, "C", "CBOE")
  }

  /** `cs` holds, once each, the call on strike `k` of every expiration in `done`, and nothing else. */
  ghost predicate CallsFor(cs: seq<Contract>, done: set<string>, k: Cents) {
    Distinct(cs) && |cs| == |done| &&
    forall c :: c in cs <==> c.expiration in done && c == CallOn(c.expiration, k)
  }

  lemma CallsForAppend(cs: seq<Contract>, done: set<string>, k: Cents, e: string)
    requires CallsFor(cs, done, k) && e !in done
    ensures CallsFor(cs + [CallOn(e, k)], done + {e}, k)
  {
    assert CallOn(e, k) !in cs;
  }

  /**
   * The loops over expirations, strikes and `rights = ['C']` with a `break`
   * after the first strike and after the first right: one contract per
   * expiration, on the first strike, and none when there is no strike.
   */
  method TruncatedContracts(expirations: set<string>, strikes: seq<Cents>) returns (contracts: seq<Contract>)
    ensures strikes == [] ==> contracts == []
    ensures strikes != [] ==> CallsFor(contracts, expirations, strikes[0])
  {
    contracts := [];
    var todo := expirations;
    ghost var done: set<string> := {};
    while todo != {}
      invariant todo <= expirations && done == expirations - todo
      invariant strikes == [] ==> contracts == []
      invariant strikes != [] ==> CallsFor(contracts, done, strikes[0])
      decreases |todo|
    {
      var expiration := Pick(todo);
      // Both inner loops end in `break`: each runs its body once at most.
      if strikes != [] {
        var rights := ["C"];
        var c := Contract(Symbol, expiration, strikes[0], rights[0], "CBOE");
        CallsForAppend(contracts, done, strikes[0], expiration);
        contracts := contracts + [c];
      }
      todo, done := todo - {expiration}, done + {expiration};
    }
  }

  /** The fields of a market-data ticker the script reads. */
  datatype Ticker = Ticker(last: Cents, bid: Cents, ask: Cents, modelImpliedVol: Option<int>)

  /** A snapshot request: an exception, or the ticker after the wait. */
  datatype Snapshot = Failed | Ticked(ticker: Ticker)

  /** The dict `request_market_data` returns. */
  datatype QuoteResult = QuoteResult(contract: Contract, lastPrice: Cents, bidPrice: Cents, askPrice: Cents,
                                     impliedVolatility: Option<int>)

  /**
   * `request_market_data(contract)`: the ticker's last, bid and ask, and the
   * model implied volatility when the ticker has model greeks; `None` when
   * anything raises.
   */
  function RequestMarketData(snapshot: Contract -> Snapshot, c: Contract): (r: Option<QuoteResult>)
    ensures r.None? <==> snapshot(c).Failed?
    ensures r.Some? ==> (r.value.contract == c && r.value.lastPrice == snapshot(c).ticker.last &&
                         r.value.bidPrice == snapshot(c).ticker.bid && r.value.askPrice == snapshot(c).ticker.ask &&
                         r.value.impliedVolatility == snapshot(c).ticker.modelImpliedVol)
  {
    match snapshot(c)
    case Failed => None
    case Ticked(t) => Some(QuoteResult(c, t.last, t.bid, t.ask, t.modelImpliedVol))
  }

  /** The results kept: every request that did not fail, in submission order. */
  function Collected(qualified: seq<Contract>, snapshot: Contract -> Snapshot): (results: seq<QuoteResult>)
    ensures |results| <= |qualified|
  {
    if qualified == [] then []
    else
      var init := Collected(qualified[..|qualified| - 1], snapshot);
      match RequestMarketData(snapshot, qualified[|qualified| - 1])
      case None => init
      case Some(r) => init + [r]
  }

  /** A collected result is the answer for one of the qualified contracts, and every answer is collected. */
  lemma {:induction false} CollectedMembers(qualified: seq<Contract>, snapshot: Contract -> Snapshot, r: QuoteResult)
    ensures r in Collected(qualified, snapshot) <==>
      r.contract in qualified && RequestMarketData(snapshot, r.contract) == Some(r)
  {
    if qualified != [] {
      var init := qualified[..|qualified| - 1];
      assert qualified == init + [qualified[|qualified| - 1]];
      CollectedMembers(init, snapshot, r);
    }
  }

  /** No two contracts of the list share an expiration. */
  predicate OnePerExpiration(cs: seq<Contract>) {
    forall i, j :: 0 <= i < j < |cs| ==> cs[i].expiration != cs[j].expiration
  }

  /** The broker's filter keeps a list with one contract per expiration so. */
  lemma {:induction false} QualifiedOnePerExpiration(cs: seq<Contract>, qualifies: Contract -> bool)
    requires OnePerExpiration(cs)
    ensures OnePerExpiration(Qualified(cs, qualifies))
  {
    if cs != [] {
      var init := cs[..|cs| - 1];
      assert OnePerExpiration(init) by {
        forall i, j | 0 <= i < j < |init| ensures init[i].expiration != init[j].expiration {
          assert init[i] == cs[i] && init[j] == cs[j];
        }
      }
      QualifiedOnePerExpiration(init, qualifies);
      var qs := Qualified(init, qualifies);
      forall c | c in qs ensures c.expiration != cs[|cs| - 1].expiration {
        QualifiedMembers(init, qualifies, c);
        var k :| 0 <= k < |init| && init[k] == c;
        assert cs[k] == c;
      }
    }
  }

  /** No two results are for the same expiration. */
  predicate ResultsOnePerExpiration(rs: seq<QuoteResult>) {
    forall i, j :: 0 <= i < j < |rs| ==> rs[i].contract.expiration != rs[j].contract.expiration
  }

  /** Over a list with one contract per expiration there is at most one result per expiration. */
  lemma {:induction false} CollectedOnePerExpiration(qualified: seq<Contract>, snapshot: Contract -> Snapshot)
    requires OnePerExpiration(qualified)
    ensures ResultsOnePerExpiration(Collected(qualified, snapshot))
  {
    if qualified != [] {
      var init := qualified[..|qualified| - 1];
      var last := qualified[|qualified| - 1];
      assert OnePerExpiration(init) by {
        forall i, j | 0 <= i < j < |init| ensures init[i].expiration != init[j].expiration {
          assert init[i] == qualified[i] && init[j] == qualified[j];
        }
      }
      CollectedOnePerExpiration(init, snapshot);
      forall r | r in Collected(init, snapshot) ensures r.contract.expiration != last.expiration {
        CollectedMembers(init, snapshot, r);
        var k :| 0 <= k < |init| && init[k] == r.contract;
        assert qualified[k] == r.contract;
      }
      var rs, before := Collected(qualified, snapshot), Collected(init, snapshot);
      if RequestMarketData(snapshot, last).Some? {
        assert rs == before + [RequestMarketData(snapshot, last).value];
        assert RequestMarketData(snapshot, last).value.contract == last;
        forall i, j | 0 <= i < j < |rs| ensures rs[i].contract.expiration != rs[j].contract.expiration {
          assert rs[i] == before[i];
          if j == |before| {
            assert rs[i] in before;
          } else {
            assert rs[j] == before[j];
          }
        }
      } else {
        assert rs == before;
      }
    }
  }

  /** The `as_completed` loop: `if result: results.append(result)`. */
  method CollectResults(qualified: seq<Contract>, snapshot: Contract -> Snapshot) returns (results: seq<QuoteResult>)
    ensures results == Collected(qualified, snapshot)
  {
    results := [];
    for i := 0 to |qualified|
      invariant results == Collected(qualified[..i], snapshot)
    {
      assert qualified[..i + 1][..i] == qualified[..i];
      var result := RequestMarketData(snapshot, qualified[i]);
      if result.Some? {
        results := results + [result.value];
      }
    }
    assert qualified[..|qualified|] == qualified;
  }

  /**
   * The whole script. Without a connection it exits before any request.
   * Otherwise every collected quote is for a strike-15 VIX call on CBOE of
   * a listed expiration that the broker qualified, no two results share an
   * expiration, and every such call that answered is collected.
   */
  method CurrentQuotesRun(params: seq<OptionChain>, connects: nat -> bool, qualifies: Contract -> bool,
                          snapshot: Contract -> Snapshot)
    returns (connected: bool, results: seq<QuoteResult>)
    ensures connected == FirstSuccess(connects, DefaultMaxAttempts).Some?
    ensures !connected ==> results == []
    ensures forall r :: r in results ==>
      r.contract == CallOn(r.contract.expiration, KeptStrike) && r.contract.expiration in AllExpirations(params) &&
      KeptStrike in AllStrikes(params) && qualifies(r.contract) && RequestMarketData(snapshot, r.contract) == Some(r)
    ensures |results| <= |AllExpirations(params)|
    ensures ResultsOnePerExpiration(results)
    ensures connected ==> forall e ::
      (e in AllExpirations(params) && KeptStrike in AllStrikes(params) &&
       qualifies(CallOn(e, KeptStrike)) && snapshot(CallOn(e, KeptStrike)).Ticked?) ==>
      exists r :: r in results && r.contract == CallOn(e, KeptStrike)
  {
    var attempts, slept;
    connected, attempts, slept := AttemptConnection(DefaultMaxAttempts, DefaultDelay, connects);
    if !connected {
      return false, [];
    }
    var expirations, strikes := FilteredStrikes(params);
    var contracts := TruncatedContracts(expirations, strikes);
    var qualified := Qualified(contracts, qualifies);
    assert OnePerExpiration(contracts) by {
      if strikes != [] {
        forall i, j | 0 <= i < j < |contracts| ensures contracts[i].expiration != contracts[j].expiration {
          assert contracts[i] in contracts && contracts[j] in contracts;
        }
      }
    }
    QualifiedOnePerExpiration(contracts, qualifies);
    results := CollectResults(qualified, snapshot);
    CollectedOnePerExpiration(qualified, snapshot);
    forall r | r in results
      ensures r.contract == CallOn(r.contract.expiration, KeptStrike) && r.contract.expiration in AllExpirations(params) &&
        KeptStrike in AllStrikes(params) && qualifies(r.contract) && RequestMarketData(snapshot, r.contract) == Some(r)
    {
      CollectedMembers(qualified, snapshot, r);
      QualifiedMembers(contracts, qualifies, r.contract);
    }
    forall e | e in AllExpirations(params) && KeptStrike in AllStrikes(params) &&
        qualifies(CallOn(e, KeptStrike)) && snapshot(CallOn(e, KeptStrike)).Ticked?
      ensures exists r :: r in results && r.contract == CallOn(e, KeptStrike)
    {
      var c := CallOn(e, KeptStrike);
      assert c in contracts;
      QualifiedMembers(contracts, qualifies, c);
      CollectedMembers(qualified, snapshot, RequestMarketData(snapshot, c).value);
    }
  }
}
