/**
 * The concurrent hourly-bar job: enumerate the contracts of the CBOE
 * chains, keep those the broker qualifies, fetch them fifty at a time with
 * a fixed look-back of two days, and upsert each batch's merged rows.
 */
module ConcurrentQuotes {
  import opened Wrappers
  import opened Clock
  import opened Market
  import opened Dates
  import opened Normalize
  import opened Storage
  import opened DaysBack
  import opened Enumeration
  import opened Batching

  const QuoteType: string := "TRADES"

  /** `get_option_chain`: the chains whose exchange is 'CBOE', in the broker's order. */
  function CboeChains(chains: seq<OptionChain>): (cboe: seq<OptionChain>)
    ensures |cboe| <= |chains|
    ensures forall i :: 0 <= i < |cboe| ==> cboe[i].exchange == "CBOE"
  {
    if chains == [] then []
    else
      var init := CboeChains(chains[..|chains| - 1]);
      var last := chains[|chains| - 1];
      if last.exchange == "CBOE" then init + [last] else init
  }

  lemma {:induction false} CboeChainsMembers(chains: seq<OptionChain>, c: OptionChain)
    ensures c in CboeChains(chains) <==> c in chains && c.exchange == "CBOE"
  {
    if chains != [] {
      assert chains == chains[..|chains| - 1] + [chains[|chains| - 1]];
      CboeChainsMembers(chains[..|chains| - 1], c);
    }
  }

  /** One task of a batch: `get_option_data(ib, contract, 'TRADES')`. */
  function Fetch(provider: Provider, c: Contract, now: DateTime): Option<seq<Row>> {
    ConcurrentOptionData(provider, c, QuoteType, now, ShippedDaysBack)
  }

  /**
   * With `get_days_back` returning 2, the early "up to date" exit never
   * happens: a task is absent exactly when the provider raises or sends no
   * bars, or the expiration is not a date `pd.to_datetime` can represent.
   */
  lemma ShippedNeverShortCircuits(provider: Provider, c: Contract, now: DateTime)
    ensures var reply := provider(c, SessionEnd(now), ShippedDaysBack, QuoteType);
      Fetch(provider, c, now).None? <==> reply.Raised? || reply.bars == [] || TimestampIsoDate(c.expiration).None?
  {
  }

  /** The fetches of one pass, all with the same provider and the same current instant. */
  function FetchAt(provider: Provider, now: DateTime): Contract -> Option<seq<Row>> {
    c => Fetch(provider, c, now)
  }

  /** `asyncio.gather` over a batch: one result per contract, in submission order. */
  function Gathered(batch: seq<Contract>, fetch: Contract -> Option<seq<Row>>): (results: seq<Option<seq<Row>>>)
    ensures |results| == |batch|
  {
    seq(|batch|, k requires 0 <= k < |batch| => fetch(batch[k]))
  }

  lemma GatheredAppend(a: seq<Contract>, b: seq<Contract>, fetch: Contract -> Option<seq<Row>>)
    ensures Gathered(a + b, fetch) == Gathered(a, fetch) + Gathered(b, fetch)
  {
  }

  predicate AllAbsent(results: seq<Option<seq<Row>>>) {
    forall k :: 0 <= k < |results| ==> results[k].None?
  }

  /** The rows of the present results, concatenated in order (absent results are skipped). */
  function Present(results: seq<Option<seq<Row>>>): (rows: seq<Row>) {
    if results == [] then []
    else
      var init := Present(results[..|results| - 1]);
      match results[|results| - 1]
      case None => init
      case Some(rows) => init + rows
  }

  lemma {:induction false} PresentAppend(a: seq<Option<seq<Row>>>, b: seq<Option<seq<Row>>>)
    ensures Present(a + b) == Present(a) + Present(b)
    decreases |b|
  {
    if b == [] {
      assert a + b == a;
    } else {
      assert (a + b)[..|a + b| - 1] == a + b[..|b| - 1];
      PresentAppend(a, b[..|b| - 1]);
    }
  }

  /** A merged row comes from one of the present results. */
  lemma {:induction false} PresentMembers(results: seq<Option<seq<Row>>>, r: Row)
    ensures r in Present(results) <==>
      exists k :: 0 <= k < |results| && results[k].Some? && r in results[k].value
  {
    if results != [] {
      var init := results[..|results| - 1];
      PresentMembers(init, r);
      if exists k :: 0 <= k < |results| && results[k].Some? && r in results[k].value {
        var k :| 0 <= k < |results| && results[k].Some? && r in results[k].value;
        if k < |init| {
          assert init[k] == results[k];
        }
      }
      if exists k :: 0 <= k < |init| && init[k].Some? && r in init[k].value {
        var k :| 0 <= k < |init| && init[k].Some? && r in init[k].value;
        assert results[k] == init[k];
      }
    }
  }

  /**
   * `pd.concat(results, ignore_index=True)`: absent results are dropped, and
   * when every result is absent the call raises (`None` here).
   */
  function MergeFrames(results: seq<Option<seq<Row>>>): (merged: Option<seq<Row>>)
    ensures merged.None? <==> AllAbsent(results)
  {
    if exists k :: 0 <= k < |results| && results[k].Some? then Some(Present(results)) else None
  }

  /**
   * The batch loop of `get_quotes`: each batch is gathered, merged and
   * stored; a batch whose results are all absent raises out of the loop,
   * signalled by `true`.
   */
  function RunBatches(t: Tables, batches: seq<seq<Contract>>, fetch: Contract -> Option<seq<Row>>): (Tables, bool)
    decreases |batches|
  {
    if batches == [] then (t, false)
    else
      var merged := MergeFrames(Gathered(batches[0], fetch));
      if merged.None? then (t, true)
      else RunBatches(StoreRows(t, merged), batches[1..], fetch)
  }

  /** The first batch whose results are all absent, or the number of batches. */
  function AbortIndex(batches: seq<seq<Contract>>, fetch: Contract -> Option<seq<Row>>): (b: nat)
    ensures b <= |batches|
    ensures forall j :: 0 <= j < b ==> !AllAbsent(Gathered(batches[j], fetch))
    ensures b < |batches| ==> AllAbsent(Gathered(batches[b], fetch))
  {
    if batches == [] then 0
    else if AllAbsent(Gathered(batches[0], fetch)) then 0
    else 1 + AbortIndex(batches[1..], fetch)
  }

  /** Storing a merged batch that is not all absent upserts its present rows. */
  lemma StoreMerged(t: Tables, results: seq<Option<seq<Row>>>)
    requires !AllAbsent(results)
    ensures StoreRows(t, MergeFrames(results)).quoteStatus == t.quoteStatus
    ensures StoreRows(t, MergeFrames(results)).optionData == UpsertAll(t.optionData, Present(results))
  {
    if Present(results) == [] {
      assert UpsertAll(t.optionData, []) == t.optionData;
    }
  }

  /** The batch loop stops exactly at the first all-absent batch and never touches quote_status. */
  lemma {:induction false} RunBatchesStops(t: Tables, batches: seq<seq<Contract>>, fetch: Contract -> Option<seq<Row>>)
    ensures RunBatches(t, batches, fetch).1 <==> AbortIndex(batches, fetch) < |batches|
    ensures RunBatches(t, batches, fetch).0.quoteStatus == t.quoteStatus
    decreases |batches|
  {
    if batches != [] {
      var g := Gathered(batches[0], fetch);
      if !AllAbsent(g) {
        StoreMerged(t, g);
        RunBatchesStops(StoreRows(t, MergeFrames(g)), batches[1..], fetch);
      }
    }
  }

  /**
   * The rows the batch loop leaves are one upsert of every present row of
   * the batches before the first all-absent one, in order.
   */
  lemma {:induction false} RunBatchesEffect(t: Tables, batches: seq<seq<Contract>>, fetch: Contract -> Option<seq<Row>>)
    ensures RunBatches(t, batches, fetch).0.optionData ==
      UpsertAll(t.optionData, Present(Gathered(Flatten(batches[..AbortIndex(batches, fetch)]), fetch)))
    decreases |batches|
  {
    if batches == [] {
      assert Flatten(batches[..0]) == [];
      assert UpsertAll(t.optionData, []) == t.optionData;
    } else {
      var g := Gathered(batches[0], fetch);
      var b := AbortIndex(batches, fetch);
      if AllAbsent(g) {
        assert batches[..b] == [];
        assert UpsertAll(t.optionData, []) == t.optionData;
      } else {
        var rest := batches[1..];
        var t1 := StoreRows(t, MergeFrames(g));
        StoreMerged(t, g);
        RunBatchesEffect(t1, rest, fetch);
        var b' := AbortIndex(rest, fetch);
        var tail := Flatten(rest[..b']);
        assert batches[..b] == [batches[0]] + rest[..b'];
        assert Flatten(batches[..b]) == batches[0] + tail;
        GatheredAppend(batches[0], tail, fetch);
        PresentAppend(g, Gathered(tail, fetch));
        UpsertAllAppend(t.optionData, Present(g), Present(Gathered(tail, fetch)));
      }
    }
  }

  /** The whole pass over the qualified contracts, batched by fifty. */
  function Pass(t: Tables, qualified: seq<Contract>, fetch: Contract -> Option<seq<Row>>): (Tables, bool) {
    RunBatches(t, Batches(qualified, BatchSize), fetch)
  }

  /** The contracts a pass stores the rows of: the whole batches before the first all-absent one. */
  function StoredPrefix(qualified: seq<Contract>, fetch: Contract -> Option<seq<Row>>): nat {
    var p := AbortIndex(Batches(qualified, BatchSize), fetch) * BatchSize;
    if p < |qualified| then p else |qualified|
  }

  /** The batch that starts at `p`: at most fifty contracts. */
  function BatchAt(qualified: seq<Contract>, p: nat): seq<Contract>
    requires p <= |qualified|
  {
    qualified[p..if p + BatchSize < |qualified| then p + BatchSize else |qualified|]
  }

  /**
   * Batching does not change what is stored: a pass that is not aborted
   * leaves the rows exactly as one upsert of every contract's rows in
   * order; an aborted one as such an upsert for a prefix of whole batches,
   * followed by a batch whose results are all absent.
   */
  lemma PassAsOneUpsert(t: Tables, qualified: seq<Contract>, fetch: Contract -> Option<seq<Row>>)
    ensures var (t', aborted) := Pass(t, qualified, fetch);
      var p := StoredPrefix(qualified, fetch);
      t'.quoteStatus == t.quoteStatus &&
      t'.optionData == UpsertAll(t.optionData, Present(Gathered(qualified[..p], fetch))) &&
      (aborted <==> p < |qualified|) &&
      (aborted ==> p % BatchSize == 0 && AllAbsent(Gathered(BatchAt(qualified, p), fetch)))
  {
    var bs := Batches(qualified, BatchSize);
    RunBatchesStops(t, bs, fetch);
    RunBatchesEffect(t, bs, fetch);
    if AbortIndex(bs, fetch) == |bs| {
      PassCompletes(qualified, fetch);
    } else {
      PassAborts(qualified, fetch);
    }
  }

  /** Without an all-absent batch the stored prefix is everything. */
  lemma PassCompletes(qualified: seq<Contract>, fetch: Contract -> Option<seq<Row>>)
    requires AbortIndex(Batches(qualified, BatchSize), fetch) == |Batches(qualified, BatchSize)|
    ensures StoredPrefix(qualified, fetch) == |qualified|
    ensures Flatten(Batches(qualified, BatchSize)[..AbortIndex(Batches(qualified, BatchSize), fetch)]) ==
            qualified[..StoredPrefix(qualified, fetch)]
  {
    var bs := Batches(qualified, BatchSize);
    BatchesFlatten(qualified, BatchSize);
    BatchesCount(qualified, BatchSize);
    assert bs[..|bs|] == bs;
    assert qualified[..|qualified|] == qualified;
  }

  /** With an all-absent batch the stored prefix is the whole batches before it, and that batch starts there. */
  lemma PassAborts(qualified: seq<Contract>, fetch: Contract -> Option<seq<Row>>)
    requires AbortIndex(Batches(qualified, BatchSize), fetch) < |Batches(qualified, BatchSize)|
    ensures var b := AbortIndex(Batches(qualified, BatchSize), fetch);
      var p := StoredPrefix(qualified, fetch);
      p < |qualified| && p % BatchSize == 0 &&
      Flatten(Batches(qualified, BatchSize)[..b]) == qualified[..p] &&
      BatchAt(qualified, p) == Batches(qualified, BatchSize)[b]
  {
    var b := AbortIndex(Batches(qualified, BatchSize), fetch);
    BatchStart(qualified, BatchSize, b);
    assert (b * BatchSize) % BatchSize == 0;
  }

  /** A key the pass may write for contract `c`: the contract's fields, the window and an admitted time. */
  predicate KeyFor(k: RowKey, c: Contract, now: DateTime) {
    var (start, end) := ConcurrentWindow(now, ShippedDaysBack);
    k.symbol == c.symbol && Some(k.expiration) == IsoDate(c.expiration) && k.strike == c.strike &&
    k.right == c.right && k.quoteType == QuoteType &&
    Le(start, k.date) && Le(k.date, end) && AdmittedTime(k.date.tod)
  }

  lemma GatheredRows(cs: seq<Contract>, provider: Provider, now: DateTime, r: Row)
    requires r in Present(Gathered(cs, FetchAt(provider, now)))
    ensures exists j :: 0 <= j < |cs| && KeyFor(KeyOf(r), cs[j], now)
  {
    var g := Gathered(cs, FetchAt(provider, now));
    PresentMembers(g, r);
    var j :| 0 <= j < |g| && g[j].Some? && r in g[j].value;
    assert g[j] == ConcurrentOptionData(provider, cs[j], QuoteType, now, ShippedDaysBack);
    ConcurrentRows(provider, cs[j], QuoteType, now, ShippedDaysBack, r);
  }

  /** A key a pass adds or changes belongs to one of the contracts it fetched. */
  lemma PassChangedKey(t: Tables, qs: seq<Contract>, provider: Provider, now: DateTime, k: RowKey)
    requires var t' := Pass(t, qs, FetchAt(provider, now)).0;
      k in t'.optionData && (k in t.optionData ==> t'.optionData[k] != t.optionData[k])
    ensures exists j :: 0 <= j < |qs| && KeyFor(k, qs[j], now)
  {
    var fetch := FetchAt(provider, now);
    var (t', aborted) := Pass(t, qs, fetch);
    PassAsOneUpsert(t, qs, fetch);
    var p := StoredPrefix(qs, fetch);
    var rows := Present(Gathered(qs[..p], fetch));
    if forall i :: 0 <= i < |rows| ==> KeyOf(rows[i]) != k {
      UpsertAllElsewhere(t.optionData, rows, k);
      assert false;
    }
    var i :| 0 <= i < |rows| && KeyOf(rows[i]) == k;
    GatheredRows(qs[..p], provider, now, rows[i]);
    var j :| 0 <= j < p && KeyFor(k, qs[..p][j], now);
    assert KeyFor(k, qs[j], now);
  }

  /**
   * Whatever a pass adds or changes in option_data is a 'TRADES' row of an
   * enumerated VIX contract (an expiration and an eligible strike of one
   * chain, a right P or C) that the broker qualified, dated inside the
   * two-day window on an admitted session time.
   */
  lemma PassWritesOnlyEnumeratedRows(t: Tables, chains: seq<OptionChain>, qualifies: Contract -> bool,
                                     provider: Provider, now: DateTime, k: RowKey)
    requires var t' := Pass(t, Qualified(ConcurrentContracts(chains), qualifies), FetchAt(provider, now)).0;
      k in t'.optionData && (k in t.optionData ==> t'.optionData[k] != t.optionData[k])
    ensures exists c :: (c in ConcurrentContracts(chains) && qualifies(c) && KeyFor(k, c, now))
    ensures k.symbol == Symbol && k.quoteType == QuoteType && k.right in Rights && k.strike <= StrikeLimit
    ensures exists i :: (0 <= i < |chains| && k.strike in chains[i].strikes &&
      exists e :: e in chains[i].expirations && Some(k.expiration) == IsoDate(e))
  {
    var qs := Qualified(ConcurrentContracts(chains), qualifies);
    PassChangedKey(t, qs, provider, now, k);
    var j :| 0 <= j < |qs| && KeyFor(k, qs[j], now);
    var c := qs[j];
    QualifiedMembers(ConcurrentContracts(chains), qualifies, c);
    var n :| 0 <= n < |ConcurrentContracts(chains)| && ConcurrentContracts(chains)[n] == c;
    ConcurrentContractsMembers(chains, n);
    var ci :| 0 <= ci < |chains| && c.expiration in chains[ci].expirations && c.strike in chains[ci].strikes;
    assert k.strike in chains[ci].strikes && c.expiration in chains[ci].expirations;
  }

  /** The pass over a suffix: the first batch of at most fifty, then the pass over the rest. */
  lemma PassStep(t: Tables, qualified: seq<Contract>, fetch: Contract -> Option<seq<Row>>, i: int)
    requires 0 <= i < |qualified|
    ensures var end := if i + BatchSize < |qualified| then i + BatchSize else |qualified|;
      var merged := MergeFrames(Gathered(qualified[i..end], fetch));
      Pass(t, qualified[i..], fetch) ==
        if merged.None? then (t, true) else Pass(StoreRows(t, merged), qualified[end..], fetch)
  {
    var end := if i + BatchSize < |qualified| then i + BatchSize else |qualified|;
    var batch := qualified[i..end];
    if end < |qualified| {
      assert qualified[i..][..BatchSize] == batch;
      assert qualified[i..][BatchSize..] == qualified[end..];
    } else {
      assert qualified[i..] == batch;
      assert qualified[end..] == [];
    }
    assert Batches(qualified[i..], BatchSize) == [batch] + Batches(qualified[end..], BatchSize);
  }

  /**
   * `get_quotes(ib, option_chains)`: the enumeration loops, the broker's
   * qualification, then one gather-merge-store round per batch of fifty.
   * `aborted` reports the `pd.concat` error that ends the pass.
   */
  method GetQuotes(db: OptionDatabase, provider: Provider, qualifies: Contract -> bool,
                   chains: seq<OptionChain>, now: DateTime) returns (aborted: bool)
    modifies db
    ensures (db.Contents(), aborted) ==
      Pass(old(db.Contents()), Qualified(ConcurrentContracts(chains), qualifies), FetchAt(provider, now))
  {
    var contracts := EnumerateContracts(chains);
    var qualified := Qualified(contracts, qualifies);
    var fetch := FetchAt(provider, now);
    ghost var t0 := db.Contents();
    var i := 0;
    while i < |qualified|
      invariant 0 <= i <= |qualified|
      invariant Pass(t0, qualified, fetch) == Pass(db.Contents(), qualified[i..], fetch)
      decreases |qualified| - i
    {
      var end := if i + BatchSize < |qualified| then i + BatchSize else |qualified|;
      var batch := qualified[i..end];
      var results := Gathered(batch, fetch);
      var merged := MergeFrames(results);
      PassStep(db.Contents(), qualified, fetch, i);
      if merged.None? {
        return true;
      }
      db.StoreConcurrent(merged);
      i := end;
    }
    assert qualified[i..] == [];
    return false;
  }
}
