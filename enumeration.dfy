/**
 * The nested iteration over chain x expiration x strike (up to the limit)
 * x right x an innermost list that both quote scripts perform, in loop order.
 */
module Enumeration {
  import opened Clock
  import opened Market

  /** One visit of the innermost loop body. */
  datatype Item = Item(exchange: string, expiration: string, strike: Cents, right: string, inner: string)

  const Rights: seq<string> := ["P", "C"]

  /** The exchange loop of the concurrent script. */
  const Exchanges: seq<string> := ["SMART", "CBOE"]

  /** The `whatToShowList` loop of the sequential script. */
  const QuoteTypes: seq<string> := ["TRADES", "ASK", "BID"]

  /** The number of strikes that pass `strike <= STRIKE_PRICE_LIMIT`. */
  function Eligible(strikes: seq<Cents>): nat {
    if strikes == [] then 0
    else Eligible(strikes[..|strikes| - 1]) + (if strikes[|strikes| - 1] <= StrikeLimit then 1 else 0)
  }

  function InnerItems(ex: string, e: string, s: Cents, r: string, inner: seq<string>): (items: seq<Item>)
    ensures |items| == |inner|
  {
    if inner == [] then []
    else InnerItems(ex, e, s, r, inner[..|inner| - 1]) + [Item(ex, e, s, r, inner[|inner| - 1])]
  }

  function RightItems(ex: string, e: string, s: Cents, rights: seq<string>, inner: seq<string>): seq<Item> {
    if rights == [] then []
    else RightItems(ex, e, s, rights[..|rights| - 1], inner) + InnerItems(ex, e, s, rights[|rights| - 1], inner)
  }

  function StrikeItems(ex: string, e: string, strikes: seq<Cents>, rights: seq<string>, inner: seq<string>): seq<Item> {
    if strikes == [] then []
    else
      var s := strikes[|strikes| - 1];
      StrikeItems(ex, e, strikes[..|strikes| - 1], rights, inner) + (if s <= StrikeLimit then RightItems(ex, e, s, rights, inner) else [])
  }

  function ExpirationItems(ex: string, exps: seq<string>, strikes: seq<Cents>, rights: seq<string>, inner: seq<string>): seq<Item> {
    if exps == [] then []
    else ExpirationItems(ex, exps[..|exps| - 1], strikes, rights, inner) + StrikeItems(ex, exps[|exps| - 1], strikes, rights, inner)
  }

  /** One visit per right and inner value. */
  lemma {:induction false} RightItemsCount(ex: string, e: string, s: Cents, rights: seq<string>, inner: seq<string>)
    ensures |RightItems(ex, e, s, rights, inner)| == |rights| * |inner|
  {
    if rights != [] {
      RightItemsCount(ex, e, s, rights[..|rights| - 1], inner);
      MulStep(|rights| - 1, |inner|);
    }
  }

  /** One visit per eligible strike, right and inner value. */
  lemma {:induction false} StrikeItemsCount(ex: string, e: string, strikes: seq<Cents>, rights: seq<string>, inner: seq<string>)
    ensures |StrikeItems(ex, e, strikes, rights, inner)| == Eligible(strikes) * (|rights| * |inner|)
  {
    if strikes != [] {
      var init := strikes[..|strikes| - 1];
      StrikeItemsCount(ex, e, init, rights, inner);
      RightItemsCount(ex, e, strikes[|strikes| - 1], rights, inner);
      MulStep(Eligible(init), |rights| * |inner|);
    }
  }

  /** One visit per expiration, eligible strike, right and inner value. */
  lemma {:induction false} ExpirationItemsCount(ex: string, exps: seq<string>, strikes: seq<Cents>, rights: seq<string>, inner: seq<string>)
    ensures |ExpirationItems(ex, exps, strikes, rights, inner)| == |exps| * (Eligible(strikes) * (|rights| * |inner|))
  {
    if exps != [] {
      ExpirationItemsCount(ex, exps[..|exps| - 1], strikes, rights, inner);
      StrikeItemsCount(ex, exps[|exps| - 1], strikes, rights, inner);
      MulStep(|exps| - 1, Eligible(strikes) * (|rights| * |inner|));
    }
  }

  /** `it` is visited for chain `c`. */
  predicate OfChain(it: Item, c: OptionChain, rights: seq<string>, inner: seq<string>) {
    it.exchange == c.exchange && it.expiration in c.expirations && it.strike in c.strikes &&
    it.strike <= StrikeLimit && it.right in rights && it.inner in inner
  }

  /** The number of loop-body visits: one per chain, expiration, eligible strike, right and inner value. */
  function ProductSize(chains: seq<OptionChain>, rights: nat, inner: nat): nat {
    if chains == [] then 0
    else
      var c := chains[|chains| - 1];
      ProductSize(chains[..|chains| - 1], rights, inner) + |c.expirations| * (Eligible(c.strikes) * (rights * inner))
  }

  /** Every visit of the five nested loops, in loop order. */
  function ChainItems(chains: seq<OptionChain>, rights: seq<string>, inner: seq<string>): seq<Item> {
    if chains == [] then []
    else
      var c := chains[|chains| - 1];
      ChainItems(chains[..|chains| - 1], rights, inner) + ExpirationItems(c.exchange, c.expirations, c.strikes, rights, inner)
  }

  /** There are `ProductSize` visits in all. */
  lemma {:induction false} ChainItemsCount(chains: seq<OptionChain>, rights: seq<string>, inner: seq<string>)
    ensures |ChainItems(chains, rights, inner)| == ProductSize(chains, |rights|, |inner|)
  {
    if chains != [] {
      var c := chains[|chains| - 1];
      ChainItemsCount(chains[..|chains| - 1], rights, inner);
      ExpirationItemsCount(c.exchange, c.expirations, c.strikes, rights, inner);
    }
  }

  /** The contract the concurrent script appends: the exchange is always 'SMART'. */
  function ToContract(it: Item): Contract {
    Contract(Symbol, it.expiration, it.strike, it.right, "SMART")
  }

  function ToContracts(items: seq<Item>): (cs: seq<Contract>)
    ensures |cs| == |items|
  {
    if items == [] then [] else ToContracts(items[..|items| - 1]) + [ToContract(items[|items| - 1])]
  }

  /** The contract list of the concurrent script, before qualification. */
  function ConcurrentContracts(chains: seq<OptionChain>): seq<Contract> {
    ToContracts(ChainItems(chains, Rights, Exchanges))
  }

  lemma {:induction false} InnerItemsMembers(ex: string, e: string, s: Cents, r: string, inner: seq<string>, it: Item)
    ensures it in InnerItems(ex, e, s, r, inner) <==>
      it.exchange == ex && it.expiration == e && it.strike == s && it.right == r && it.inner in inner
  {
    if inner != [] {
      assert inner == inner[..|inner| - 1] + [inner[|inner| - 1]];
      InnerItemsMembers(ex, e, s, r, inner[..|inner| - 1], it);
    }
  }

  lemma {:induction false} RightItemsMembers(ex: string, e: string, s: Cents, rights: seq<string>, inner: seq<string>, it: Item)
    ensures it in RightItems(ex, e, s, rights, inner) <==>
      it.exchange == ex && it.expiration == e && it.strike == s && it.right in rights && it.inner in inner
  {
    if rights != [] {
      assert rights == rights[..|rights| - 1] + [rights[|rights| - 1]];
      RightItemsMembers(ex, e, s, rights[..|rights| - 1], inner, it);
      InnerItemsMembers(ex, e, s, rights[|rights| - 1], inner, it);
    }
  }

  lemma {:induction false} StrikeItemsMembers(ex: string, e: string, strikes: seq<Cents>, rights: seq<string>, inner: seq<string>, it: Item)
    ensures it in StrikeItems(ex, e, strikes, rights, inner) <==>
      it.exchange == ex && it.expiration == e && it.strike in strikes && it.strike <= StrikeLimit &&
      it.right in rights && it.inner in inner
  {
    if strikes != [] {
      assert strikes == strikes[..|strikes| - 1] + [strikes[|strikes| - 1]];
      StrikeItemsMembers(ex, e, strikes[..|strikes| - 1], rights, inner, it);
      RightItemsMembers(ex, e, strikes[|strikes| - 1], rights, inner, it);
    }
  }

  lemma {:induction false} ExpirationItemsMembers(ex: string, exps: seq<string>, strikes: seq<Cents>, rights: seq<string>, inner: seq<string>, it: Item)
    ensures it in ExpirationItems(ex, exps, strikes, rights, inner) <==>
      it.exchange == ex && it.expiration in exps && it.strike in strikes && it.strike <= StrikeLimit &&
      it.right in rights && it.inner in inner
  {
    if exps != [] {
      assert exps == exps[..|exps| - 1] + [exps[|exps| - 1]];
      ExpirationItemsMembers(ex, exps[..|exps| - 1], strikes, rights, inner, it);
      StrikeItemsMembers(ex, exps[|exps| - 1], strikes, rights, inner, it);
    }
  }

  /**
   * The loops visit exactly the combinations of a chain, one of its
   * expirations, one of its strikes up to the limit, a right and an inner
   * value.
   */
  lemma {:induction false} ChainItemsMembers(chains: seq<OptionChain>, rights: seq<string>, inner: seq<string>, it: Item)
    ensures it in ChainItems(chains, rights, inner) <==>
      exists i :: 0 <= i < |chains| && OfChain(it, chains[i], rights, inner)
  {
    if chains != [] {
      var init := chains[..|chains| - 1];
      var c := chains[|chains| - 1];
      var last := ExpirationItems(c.exchange, c.expirations, c.strikes, rights, inner);
      assert ChainItems(chains, rights, inner) == ChainItems(init, rights, inner) + last;
      assert it in ChainItems(chains, rights, inner) <==> it in ChainItems(init, rights, inner) || it in last;
      ChainItemsMembers(init, rights, inner, it);
      ExpirationItemsMembers(c.exchange, c.expirations, c.strikes, rights, inner, it);
      assert it in last <==> OfChain(it, c, rights, inner);
      if exists i :: 0 <= i < |chains| && OfChain(it, chains[i], rights, inner) {
        var i :| 0 <= i < |chains| && OfChain(it, chains[i], rights, inner);
        if i < |init| {
          assert init[i] == chains[i];
        }
      }
      if exists i :: 0 <= i < |init| && OfChain(it, init[i], rights, inner) {
        var i :| 0 <= i < |init| && OfChain(it, init[i], rights, inner);
        assert chains[i] == init[i];
      }
    }
  }

  lemma {:induction false} ToContractsAt(items: seq<Item>, k: int)
    requires 0 <= k < |items|
    ensures ToContracts(items)[k] == ToContract(items[k])
  {
    if k < |items| - 1 {
      ToContractsAt(items[..|items| - 1], k);
    }
  }

  lemma {:induction false} ToContractsAppend(a: seq<Item>, b: seq<Item>)
    ensures ToContracts(a + b) == ToContracts(a) + ToContracts(b)
    decreases |b|
  {
    if b == [] {
      assert a + b == a;
    } else {
      assert (a + b)[..|a + b| - 1] == a + b[..|b| - 1];
      ToContractsAppend(a, b[..|b| - 1]);
    }
  }

  /** Each contract at an even position is repeated at the next position. */
  predicate Paired(cs: seq<Contract>) {
    |cs| % 2 == 0 && forall k :: 0 <= k < |cs| / 2 ==> cs[2 * k] == cs[2 * k + 1]
  }

  lemma PairedAppend(a: seq<Contract>, b: seq<Contract>)
    requires Paired(a) && Paired(b)
    ensures Paired(a + b)
  {
    forall k | 0 <= k < |a + b| / 2 ensures (a + b)[2 * k] == (a + b)[2 * k + 1] {
      if k >= |a| / 2 {
        var j := k - |a| / 2;
        assert 2 * k == |a| + 2 * j;
        assert b[2 * j] == b[2 * j + 1];
      }
    }
  }

  lemma {:induction false} RightsPaired(ex: string, e: string, s: Cents, rights: seq<string>)
    ensures Paired(ToContracts(RightItems(ex, e, s, rights, Exchanges)))
  {
    if rights != [] {
      var init := rights[..|rights| - 1];
      var last := InnerItems(ex, e, s, rights[|rights| - 1], Exchanges);
      RightsPaired(ex, e, s, init);
      ToContractsAppend(RightItems(ex, e, s, init, Exchanges), last);
      var r := rights[|rights| - 1];
      assert Exchanges[..1] == ["SMART"] && ["SMART"][..0] == [];
      assert InnerItems(ex, e, s, r, ["SMART"]) == [Item(ex, e, s, r, "SMART")];
      assert last == [Item(ex, e, s, r, "SMART"), Item(ex, e, s, r, "CBOE")];
      ToContractsAt(last, 0);
      ToContractsAt(last, 1);
      assert ToContracts(last)[0] == ToContracts(last)[1];
      PairedAppend(ToContracts(RightItems(ex, e, s, init, Exchanges)), ToContracts(last));
    }
  }

  lemma {:induction false} StrikesPaired(ex: string, e: string, strikes: seq<Cents>)
    ensures Paired(ToContracts(StrikeItems(ex, e, strikes, Rights, Exchanges)))
  {
    if strikes != [] {
      var init := strikes[..|strikes| - 1];
      var s := strikes[|strikes| - 1];
      var last := if s <= StrikeLimit then RightItems(ex, e, s, Rights, Exchanges) else [];
      StrikesPaired(ex, e, init);
      RightsPaired(ex, e, s, Rights);
      ToContractsAppend(StrikeItems(ex, e, init, Rights, Exchanges), last);
      PairedAppend(ToContracts(StrikeItems(ex, e, init, Rights, Exchanges)), ToContracts(last));
    }
  }

  lemma {:induction false} ExpirationsPaired(ex: string, exps: seq<string>, strikes: seq<Cents>)
    ensures Paired(ToContracts(ExpirationItems(ex, exps, strikes, Rights, Exchanges)))
  {
    if exps != [] {
      var init := exps[..|exps| - 1];
      var last := StrikeItems(ex, exps[|exps| - 1], strikes, Rights, Exchanges);
      ExpirationsPaired(ex, init, strikes);
      StrikesPaired(ex, exps[|exps| - 1], strikes);
      ToContractsAppend(ExpirationItems(ex, init, strikes, Rights, Exchanges), last);
      PairedAppend(ToContracts(ExpirationItems(ex, init, strikes, Rights, Exchanges)), ToContracts(last));
    }
  }

  /**
   * Because the exchange loop always builds a 'SMART' contract, the
   * concurrent list holds every contract twice, at adjacent positions.
   */
  lemma {:induction false} ConcurrentContractsPaired(chains: seq<OptionChain>)
    ensures Paired(ConcurrentContracts(chains))
  {
    if chains != [] {
      var init := chains[..|chains| - 1];
      var c := chains[|chains| - 1];
      var last := ExpirationItems(c.exchange, c.expirations, c.strikes, Rights, Exchanges);
      ConcurrentContractsPaired(init);
      ExpirationsPaired(c.exchange, c.expirations, c.strikes);
      ToContractsAppend(ChainItems(init, Rights, Exchanges), last);
      PairedAppend(ConcurrentContracts(init), ToContracts(last));
    }
  }

  /** The concurrent list has four appends per chain, expiration and eligible strike. */
  lemma ConcurrentContractsCount(chains: seq<OptionChain>)
    ensures |ConcurrentContracts(chains)| == ProductSize(chains, 2, 2)
  {
    ChainItemsCount(chains, Rights, Exchanges);
  }

  /**
   * The members of the concurrent list are exactly the 'SMART' VIX
   * contracts of a chain's expiration, an eligible strike of that chain and
   * a right P or C.
   */
  lemma ConcurrentContractsMembers(chains: seq<OptionChain>, k: int)
    requires 0 <= k < |ConcurrentContracts(chains)|
    ensures var c := ConcurrentContracts(chains)[k];
      c.symbol == Symbol && c.exchange == "SMART" && c.right in Rights && c.strike <= StrikeLimit &&
      exists i :: 0 <= i < |chains| && c.expiration in chains[i].expirations && c.strike in chains[i].strikes
  {
    var items := ChainItems(chains, Rights, Exchanges);
    ToContractsAt(items, k);
    ChainItemsMembers(chains, Rights, Exchanges, items[k]);
  }

  lemma ConcurrentContractsComplete(chains: seq<OptionChain>, i: int, e: string, s: Cents, r: string)
    requires 0 <= i < |chains| && e in chains[i].expirations && s in chains[i].strikes && s <= StrikeLimit && r in Rights
    ensures Contract(Symbol, e, s, r, "SMART") in ConcurrentContracts(chains)
  {
    var items := ChainItems(chains, Rights, Exchanges);
    var it := Item(chains[i].exchange, e, s, r, "SMART");
    ChainItemsMembers(chains, Rights, Exchanges, it);
    var k :| 0 <= k < |items| && items[k] == it;
    ToContractsAt(items, k);
  }

  /** Appending one more value to a loop's list appends that value's visits. */
  lemma ChainItemsStep(chains: seq<OptionChain>, a: int, rights: seq<string>, inner: seq<string>)
    requires 0 <= a < |chains|
    ensures var c := chains[a];
      ToContracts(ChainItems(chains[..a + 1], rights, inner)) ==
      ToContracts(ChainItems(chains[..a], rights, inner)) + ToContracts(ExpirationItems(c.exchange, c.expirations, c.strikes, rights, inner))
  {
    assert chains[..a + 1][..a] == chains[..a];
    var c := chains[a];
    ToContractsAppend(ChainItems(chains[..a], rights, inner), ExpirationItems(c.exchange, c.expirations, c.strikes, rights, inner));
  }

  lemma ExpirationItemsStep(ex: string, exps: seq<string>, strikes: seq<Cents>, b: int, rights: seq<string>, inner: seq<string>)
    requires 0 <= b < |exps|
    ensures ToContracts(ExpirationItems(ex, exps[..b + 1], strikes, rights, inner)) ==
      ToContracts(ExpirationItems(ex, exps[..b], strikes, rights, inner)) + ToContracts(StrikeItems(ex, exps[b], strikes, rights, inner))
  {
    assert exps[..b + 1][..b] == exps[..b];
    ToContractsAppend(ExpirationItems(ex, exps[..b], strikes, rights, inner), StrikeItems(ex, exps[b], strikes, rights, inner));
  }

  lemma StrikeItemsStep(ex: string, e: string, strikes: seq<Cents>, c: int, rights: seq<string>, inner: seq<string>)
    requires 0 <= c < |strikes| && strikes[c] <= StrikeLimit
    ensures ToContracts(StrikeItems(ex, e, strikes[..c + 1], rights, inner)) ==
      ToContracts(StrikeItems(ex, e, strikes[..c], rights, inner)) + ToContracts(RightItems(ex, e, strikes[c], rights, inner))
  {
    assert strikes[..c + 1][..c] == strikes[..c];
    ToContractsAppend(StrikeItems(ex, e, strikes[..c], rights, inner), RightItems(ex, e, strikes[c], rights, inner));
  }

  /** A strike above the limit adds no visit. */
  lemma StrikeItemsSkip(ex: string, e: string, strikes: seq<Cents>, c: int, rights: seq<string>, inner: seq<string>)
    requires 0 <= c < |strikes| && strikes[c] > StrikeLimit
    ensures StrikeItems(ex, e, strikes[..c + 1], rights, inner) == StrikeItems(ex, e, strikes[..c], rights, inner)
  {
    assert strikes[..c + 1][..c] == strikes[..c];
  }

  lemma RightItemsStep(ex: string, e: string, s: Cents, r: int, rights: seq<string>, inner: seq<string>)
    requires 0 <= r < |rights|
    ensures ToContracts(RightItems(ex, e, s, rights[..r + 1], inner)) ==
      ToContracts(RightItems(ex, e, s, rights[..r], inner)) + ToContracts(InnerItems(ex, e, s, rights[r], inner))
  {
    assert rights[..r + 1][..r] == rights[..r];
    ToContractsAppend(RightItems(ex, e, s, rights[..r], inner), InnerItems(ex, e, s, rights[r], inner));
  }

  lemma InnerItemsStep(ex: string, e: string, s: Cents, right: string, x: int, inner: seq<string>)
    requires 0 <= x < |inner|
    ensures ToContracts(InnerItems(ex, e, s, right, inner[..x + 1])) ==
      ToContracts(InnerItems(ex, e, s, right, inner[..x])) + [Contract(Symbol, e, s, right, "SMART")]
  {
    assert inner[..x + 1][..x] == inner[..x];
  }

  /**
   * The five nested loops of the concurrent `get_quotes`, appending one
   * contract per innermost visit, over the rights `Rights` and the
   * exchanges `Exchanges`. Each loop level is a method of its own below,
   * which appends the contracts of its own visits.
   */
  method EnumerateContracts(chains: seq<OptionChain>) returns (contracts: seq<Contract>)
    ensures contracts == ConcurrentContracts(chains)
  {
    var rights, exchanges := Rights, Exchanges;
    contracts := [];
    var a := 0;
    while a < |chains|
      invariant 0 <= a <= |chains|
      invariant contracts == ToContracts(ChainItems(chains[..a], rights, exchanges))
    {
      contracts := AppendExpirations(contracts, chains[a], rights, exchanges);
      ChainItemsStep(chains, a, rights, exchanges);
      a := a + 1;
    }
    assert chains[..a] == chains;
  }

  /** `for expiration in chain.expirations`. */
  method AppendExpirations(contracts: seq<Contract>, chain: OptionChain, rights: seq<string>, exchanges: seq<string>)
    returns (contracts': seq<Contract>)
    ensures contracts' == contracts + ToContracts(ExpirationItems(chain.exchange, chain.expirations, chain.strikes, rights, exchanges))
  {
    contracts' := contracts;
    var exps := chain.expirations;
    var b := 0;
    while b < |exps|
      invariant 0 <= b <= |exps|
      invariant contracts' == contracts + ToContracts(ExpirationItems(chain.exchange, exps[..b], chain.strikes, rights, exchanges))
    {
      contracts' := AppendStrikes(contracts', chain.exchange, exps[b], chain.strikes, rights, exchanges);
      ExpirationItemsStep(chain.exchange, exps, chain.strikes, b, rights, exchanges);
      b := b + 1;
    }
    assert exps[..b] == exps;
  }

  /** `for strike in chain.strikes: if strike <= STRIKE_PRICE_LIMIT`. */
  method AppendStrikes(contracts: seq<Contract>, ex: string, expiration: string, strikes: seq<Cents>,
                       rights: seq<string>, exchanges: seq<string>)
    returns (contracts': seq<Contract>)
    ensures contracts' == contracts + ToContracts(StrikeItems(ex, expiration, strikes, rights, exchanges))
  {
    contracts' := contracts;
    var c := 0;
    while c < |strikes|
      invariant 0 <= c <= |strikes|
      invariant contracts' == contracts + ToContracts(StrikeItems(ex, expiration, strikes[..c], rights, exchanges))
    {
      if strikes[c] <= StrikeLimit {
        contracts' := AppendRights(contracts', ex, expiration, strikes[c], rights, exchanges);
        StrikeItemsStep(ex, expiration, strikes, c, rights, exchanges);
      } else {
        StrikeItemsSkip(ex, expiration, strikes, c, rights, exchanges);
      }
      c := c + 1;
    }
    assert strikes[..c] == strikes;
  }

  /** `for right in rights`. */
  method AppendRights(contracts: seq<Contract>, ex: string, expiration: string, strike: Cents,
                      rights: seq<string>, exchanges: seq<string>)
    returns (contracts': seq<Contract>)
    ensures contracts' == contracts + ToContracts(RightItems(ex, expiration, strike, rights, exchanges))
  {
    contracts' := contracts;
    var r := 0;
    while r < |rights|
      invariant 0 <= r <= |rights|
      invariant contracts' == contracts + ToContracts(RightItems(ex, expiration, strike, rights[..r], exchanges))
    {
      contracts' := AppendExchanges(contracts', ex, expiration, strike, rights[r], exchanges);
      RightItemsStep(ex, expiration, strike, r, rights, exchanges);
      r := r + 1;
    }
    assert rights[..r] == rights;
  }

  /** `for exchange in exchanges: contracts.append(...)`: the appended contract is always on 'SMART'. */
  method AppendExchanges(contracts: seq<Contract>, ex: string, expiration: string, strike: Cents, right: string,
                         exchanges: seq<string>)
    returns (contracts': seq<Contract>)
    ensures contracts' == contracts + ToContracts(InnerItems(ex, expiration, strike, right, exchanges))
  {
    contracts' := contracts;
    var x := 0;
    while x < |exchanges|
      invariant 0 <= x <= |exchanges|
      invariant contracts' == contracts + ToContracts(InnerItems(ex, expiration, strike, right, exchanges[..x]))
    {
      contracts' := contracts' + [Contract(Symbol, expiration, strike, right, "SMART")];
      InnerItemsStep(ex, expiration, strike, right, x, exchanges);
      x := x + 1;
    }
    assert exchanges[..x] == exchanges;
  }
}
