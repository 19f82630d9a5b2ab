/**
 * The sequential job: for every chain x expiration x eligible strike x
 * right x quote type, read the checkpoint, count the weekdays since it,
 * fetch that many days of hourly bars ending now, and store the rows
 * together with a new checkpoint.
 */
module LiveQuotes {
  import opened Wrappers
  import opened Clock
  import opened Market
  import opened Dates
  import opened Normalize
  import opened Storage
  import opened DaysBack
  import opened Enumeration
  import opened Weekdays

  /** The contract `get_option_data` builds; the chain's exchange is kept. */
  function LiveContract(it: Item): Contract {
    Contract(Symbol, it.expiration, it.strike, it.right, it.exchange)
  }

  /** The checkpoint read and written for an item is keyed without the exchange. */
  function ItemLookup(status: map<StatusKey, DateTime>, it: Item): Lookup {
    LookupCheckpoint(status, Symbol, it.expiration, it.strike, it.right, it.inner)
  }

  /** The frame `get_option_data` returns for an item, given the tables before it. */
  function ItemFrame(t: Tables, it: Item, provider: Provider, now: DateTime): Option<seq<Row>> {
    LiveOptionData(provider, LiveContract(it), it.inner, now, LiveDaysBack(ItemLookup(t.quoteStatus, it), now.day))
  }

  /** One body of the innermost loop: `get_option_data` then `store_option_data`. */
  function Step(t: Tables, it: Item, provider: Provider, now: DateTime): Tables {
    StoreWithCheckpoint(t, ItemFrame(t, it, provider, now), Symbol, it.expiration, it.strike, it.right, it.inner, now)
  }

  /** The steps of one run, all with the same provider and the same current instant. */
  function StepAt(provider: Provider, now: DateTime): (Tables, Item) -> Tables {
    (t, it) => Step(t, it, provider, now)
  }

  /** The items processed in order, each seeing the tables the previous one left. */
  function RunItems(t: Tables, items: seq<Item>, step: (Tables, Item) -> Tables): Tables {
    if items == [] then t
    else step(RunItems(t, items[..|items| - 1], step), items[|items| - 1])
  }

  /** Every stored checkpoint is a whole second no later than `now`. */
  predicate SaneCheckpoints(status: map<StatusKey, DateTime>, now: DateTime) {
    forall k :: k in status ==> status[k].tod % Second == 0 && Le(status[k], now)
  }

  /**
   * After a step with a valid expiration the item's checkpoint is the latest
   * stored row's date, or the current second when nothing came back; in
   * particular a failed request (or one skipped as up to date) still moves
   * the checkpoint to now. No other checkpoint changes.
   */
  lemma StepCheckpoint(t: Tables, it: Item, provider: Provider, now: DateTime, other: StatusKey)
    requires IsoDate(it.expiration).Some?
    ensures var frame := ItemFrame(t, it, provider, now);
      var status := Step(t, it, provider, now).quoteStatus;
      ItemLookup(status, it) == Found(CheckpointValue(frame, now)) &&
      (frame.None? || frame.value == [] ==> ItemLookup(status, it) == Found(TruncToSecond(now))) &&
      (other != CheckpointKey(Symbol, IsoDate(it.expiration).value, it.strike, it.right, it.inner) ==>
         (other in status <==> other in t.quoteStatus) &&
         (other in t.quoteStatus ==> status[other] == t.quoteStatus[other]))
  {
    StoredCheckpointIsRead(t, ItemFrame(t, it, provider, now), Symbol, it.expiration, it.strike, it.right, it.inner, now, other);
  }

  /** An expiration that is not a date makes the store raise: the step changes nothing. */
  lemma StepWithBadExpiration(t: Tables, it: Item, provider: Provider, now: DateTime)
    requires IsoDate(it.expiration).None?
    ensures Step(t, it, provider, now) == t
  {
  }

  /** The checkpoint a step writes is a whole second no later than now. */
  lemma CheckpointValueSane(t: Tables, it: Item, provider: Provider, now: DateTime)
    ensures var v := CheckpointValue(ItemFrame(t, it, provider, now), now);
      v.tod % Second == 0 && Le(v, now)
  {
    var frame := ItemFrame(t, it, provider, now);
    if frame.Some? && frame.value != [] {
      var d := LatestDate(frame.value);
      var i :| 0 <= i < |frame.value| && frame.value[i].date == d;
      var daysBack := LiveDaysBack(ItemLookup(t.quoteStatus, it), now.day);
      LiveRows(provider, LiveContract(it), it.inner, now, daysBack, frame.value[i]);
    }
  }

  /**
   * The checkpoint never moves backwards: starting from a whole-second
   * checkpoint no later than now, the one written is at least as late.
   * When a request is made, it covers only days after the checkpoint's
   * date, so every returned row is later than the checkpoint.
   */
  lemma StepCheckpointMonotone(t: Tables, it: Item, provider: Provider, now: DateTime, cp: DateTime)
    requires ItemLookup(t.quoteStatus, it) == Found(cp)
    requires cp.tod % Second == 0 && Le(cp, now)
    ensures ItemLookup(Step(t, it, provider, now).quoteStatus, it) == Found(CheckpointValue(ItemFrame(t, it, provider, now), now))
    ensures Le(cp, CheckpointValue(ItemFrame(t, it, provider, now), now))
  {
    var frame := ItemFrame(t, it, provider, now);
    StepCheckpoint(t, it, provider, now, CheckpointKey(Symbol, IsoDate(it.expiration).value, it.strike, it.right, it.inner));
    if frame.Some? && frame.value != [] {
      var daysBack := WeekdaysIn(cp.day + 1, now.day);
      assert daysBack > 0 && now.day - daysBack >= cp.day + 1;
      var d := LatestDate(frame.value);
      var i :| 0 <= i < |frame.value| && frame.value[i].date == d;
      LiveRows(provider, LiveContract(it), it.inner, now, daysBack, frame.value[i]);
    } else if cp.day == now.day {
      FloorKeepsMultiples(now.tod, cp.tod, Second);
    }
  }

  /** A step keeps every checkpoint a whole second no later than now and moves none backwards. */
  lemma StepKeepsCheckpoints(t: Tables, it: Item, provider: Provider, now: DateTime, k: StatusKey)
    requires SaneCheckpoints(t.quoteStatus, now)
    ensures SaneCheckpoints(Step(t, it, provider, now).quoteStatus, now)
    ensures k in t.quoteStatus ==>
      k in Step(t, it, provider, now).quoteStatus && Le(t.quoteStatus[k], Step(t, it, provider, now).quoteStatus[k])
  {
    var status := Step(t, it, provider, now).quoteStatus;
    if IsoDate(it.expiration).Some? {
      var key := CheckpointKey(Symbol, IsoDate(it.expiration).value, it.strike, it.right, it.inner);
      CheckpointValueSane(t, it, provider, now);
      forall other | other in status
        ensures status[other].tod % Second == 0 && Le(status[other], now)
      {
        StepCheckpoint(t, it, provider, now, other);
      }
      StepCheckpoint(t, it, provider, now, k);
      if k == key && k in t.quoteStatus {
        StepCheckpointMonotone(t, it, provider, now, t.quoteStatus[k]);
      }
    }
  }

  /**
   * Over a whole run the checkpoints stay whole seconds no later than now,
   * and each one that existed before is at least as late afterwards.
   */
  lemma {:induction false} RunKeepsCheckpoints(t: Tables, items: seq<Item>, provider: Provider, now: DateTime, k: StatusKey)
    requires SaneCheckpoints(t.quoteStatus, now)
    ensures SaneCheckpoints(RunItems(t, items, StepAt(provider, now)).quoteStatus, now)
    ensures k in t.quoteStatus ==>
      k in RunItems(t, items, StepAt(provider, now)).quoteStatus &&
      Le(t.quoteStatus[k], RunItems(t, items, StepAt(provider, now)).quoteStatus[k])
  {
    if items != [] {
      var mid := RunItems(t, items[..|items| - 1], StepAt(provider, now));
      RunKeepsCheckpoints(t, items[..|items| - 1], provider, now, k);
      StepKeepsCheckpoints(mid, items[|items| - 1], provider, now, k);
    }
  }

  /**
   * The rows a step adds or changes are bars of the item's contract and
   * quote type, inside the window that ends now.
   */
  lemma StepRows(t: Tables, it: Item, provider: Provider, now: DateTime, k: RowKey)
    requires var t' := Step(t, it, provider, now);
      k in t'.optionData && (k in t.optionData ==> t'.optionData[k] != t.optionData[k])
    ensures k.symbol == Symbol && Some(k.expiration) == IsoDate(it.expiration) && k.strike == it.strike
    ensures k.right == it.right && k.quoteType == it.inner && Le(k.date, now) && k.date.tod % Second == 0
  {
    var frame := ItemFrame(t, it, provider, now);
    var rows := if frame.Some? then frame.value else [];
    if forall i :: 0 <= i < |rows| ==> KeyOf(rows[i]) != k {
      UpsertAllElsewhere(t.optionData, rows, k);
      assert false;
    }
    var i :| 0 <= i < |rows| && KeyOf(rows[i]) == k;
    LiveRows(provider, LiveContract(it), it.inner, now, LiveDaysBack(ItemLookup(t.quoteStatus, it), now.day), rows[i]);
  }

  /**
   * The body of the innermost loop. The `try`/`except` around it absorbs
   * the error a bad expiration raises from the store.
   */
  method ProcessOption(db: OptionDatabase, it: Item, provider: Provider, now: DateTime)
    modifies db
    ensures db.Contents() == Step(old(db.Contents()), it, provider, now)
  {
    var lookup := LookupCheckpoint(db.quoteStatus, Symbol, it.expiration, it.strike, it.right, it.inner);
    var daysBack := GetDaysBackLive(lookup, now);
    var frame := LiveOptionData(provider, LiveContract(it), it.inner, now, daysBack);
    var _ := db.StoreSequential(frame, Symbol, it.expiration, it.strike, it.right, it.inner, now);
  }

  /** Running two lists of items one after the other is running their concatenation. */
  lemma {:induction false} RunItemsAppend(t: Tables, a: seq<Item>, b: seq<Item>, step: (Tables, Item) -> Tables)
    ensures RunItems(t, a + b, step) == RunItems(RunItems(t, a, step), b, step)
    decreases |b|
  {
    if b == [] {
      assert a + b == a;
    } else {
      assert (a + b)[..|a + b| - 1] == a + b[..|b| - 1];
      RunItemsAppend(t, a, b[..|b| - 1], step);
    }
  }

  /** Each loop level runs its own visits after those of the earlier values. */
  lemma RunChainsStep(t: Tables, chains: seq<OptionChain>, c: int, rights: seq<string>, inner: seq<string>,
                      step: (Tables, Item) -> Tables)
    requires 0 <= c < |chains|
    ensures var ch := chains[c];
      RunItems(t, ChainItems(chains[..c + 1], rights, inner), step) ==
      RunItems(RunItems(t, ChainItems(chains[..c], rights, inner), step), ExpirationItems(ch.exchange, ch.expirations, ch.strikes, rights, inner), step)
  {
    assert chains[..c + 1][..c] == chains[..c];
    var ch := chains[c];
    RunItemsAppend(t, ChainItems(chains[..c], rights, inner), ExpirationItems(ch.exchange, ch.expirations, ch.strikes, rights, inner), step);
  }

  lemma RunExpirationsStep(t: Tables, ex: string, exps: seq<string>, strikes: seq<Cents>, e: int, rights: seq<string>, inner: seq<string>,
                           step: (Tables, Item) -> Tables)
    requires 0 <= e < |exps|
    ensures RunItems(t, ExpirationItems(ex, exps[..e + 1], strikes, rights, inner), step) ==
      RunItems(RunItems(t, ExpirationItems(ex, exps[..e], strikes, rights, inner), step), StrikeItems(ex, exps[e], strikes, rights, inner), step)
  {
    assert exps[..e + 1][..e] == exps[..e];
    RunItemsAppend(t, ExpirationItems(ex, exps[..e], strikes, rights, inner), StrikeItems(ex, exps[e], strikes, rights, inner), step);
  }

  lemma RunStrikesStep(t: Tables, ex: string, e: string, strikes: seq<Cents>, s: int, rights: seq<string>, inner: seq<string>,
                       step: (Tables, Item) -> Tables)
    requires 0 <= s < |strikes| && strikes[s] <= StrikeLimit
    ensures RunItems(t, StrikeItems(ex, e, strikes[..s + 1], rights, inner), step) ==
      RunItems(RunItems(t, StrikeItems(ex, e, strikes[..s], rights, inner), step), RightItems(ex, e, strikes[s], rights, inner), step)
  {
    assert strikes[..s + 1][..s] == strikes[..s];
    RunItemsAppend(t, StrikeItems(ex, e, strikes[..s], rights, inner), RightItems(ex, e, strikes[s], rights, inner), step);
  }

  lemma RunRightsStep(t: Tables, ex: string, e: string, s: Cents, rights: seq<string>, r: int, inner: seq<string>,
                      step: (Tables, Item) -> Tables)
    requires 0 <= r < |rights|
    ensures RunItems(t, RightItems(ex, e, s, rights[..r + 1], inner), step) ==
      RunItems(RunItems(t, RightItems(ex, e, s, rights[..r], inner), step), InnerItems(ex, e, s, rights[r], inner), step)
  {
    assert rights[..r + 1][..r] == rights[..r];
    RunItemsAppend(t, RightItems(ex, e, s, rights[..r], inner), InnerItems(ex, e, s, rights[r], inner), step);
  }

  lemma RunInnerStep(t: Tables, ex: string, e: string, s: Cents, right: string, inner: seq<string>, q: int,
                     step: (Tables, Item) -> Tables)
    requires 0 <= q < |inner|
    ensures RunItems(t, InnerItems(ex, e, s, right, inner[..q + 1]), step) ==
      step(RunItems(t, InnerItems(ex, e, s, right, inner[..q]), step), Item(ex, e, s, right, inner[q]))
  {
    assert inner[..q + 1][..q] == inner[..q];
    var init := InnerItems(ex, e, s, right, inner[..q]);
    var items := InnerItems(ex, e, s, right, inner[..q + 1]);
    assert items == init + [Item(ex, e, s, right, inner[q])];
    assert items[..|items| - 1] == init;
  }

  /**
   * The `__main__` loops of the sequential script over the chains, the
   * rights `Rights` and the quote types `QuoteTypes`.
   */
  method UpdateQuotes(db: OptionDatabase, provider: Provider, chains: seq<OptionChain>, now: DateTime)
    modifies db
    ensures db.Contents() == RunItems(old(db.Contents()), ChainItems(chains, Rights, QuoteTypes), StepAt(provider, now))
  {
    var rights, quoteTypes := Rights, QuoteTypes;
    ghost var step := StepAt(provider, now);
    ghost var t0 := db.Contents();
    var c := 0;
    while c < |chains|
      invariant 0 <= c <= |chains|
      invariant db.Contents() == RunItems(t0, ChainItems(chains[..c], rights, quoteTypes), step)
    {
      UpdateExpirations(db, provider, now, chains[c], rights, quoteTypes);
      RunChainsStep(t0, chains, c, rights, quoteTypes, step);
      c := c + 1;
    }
    assert chains[..c] == chains;
  }

  method UpdateExpirations(db: OptionDatabase, provider: Provider, now: DateTime, chain: OptionChain,
                           rights: seq<string>, quoteTypes: seq<string>)
    modifies db
    ensures db.Contents() ==
      RunItems(old(db.Contents()), ExpirationItems(chain.exchange, chain.expirations, chain.strikes, rights, quoteTypes), StepAt(provider, now))
  {
    ghost var step := StepAt(provider, now);
    ghost var t0 := db.Contents();
    var exps := chain.expirations;
    var e := 0;
    while e < |exps|
      invariant 0 <= e <= |exps|
      invariant db.Contents() == RunItems(t0, ExpirationItems(chain.exchange, exps[..e], chain.strikes, rights, quoteTypes), step)
    {
      UpdateStrikes(db, provider, now, chain.exchange, exps[e], chain.strikes, rights, quoteTypes);
      RunExpirationsStep(t0, chain.exchange, exps, chain.strikes, e, rights, quoteTypes, step);
      e := e + 1;
    }
    assert exps[..e] == exps;
  }

  method UpdateStrikes(db: OptionDatabase, provider: Provider, now: DateTime, ex: string, expiration: string, strikes: seq<Cents>,
                       rights: seq<string>, quoteTypes: seq<string>)
    modifies db
    ensures db.Contents() == RunItems(old(db.Contents()), StrikeItems(ex, expiration, strikes, rights, quoteTypes), StepAt(provider, now))
  {
    ghost var step := StepAt(provider, now);
    ghost var t0 := db.Contents();
    var s := 0;
    while s < |strikes|
      invariant 0 <= s <= |strikes|
      invariant db.Contents() == RunItems(t0, StrikeItems(ex, expiration, strikes[..s], rights, quoteTypes), step)
    {
      if strikes[s] <= StrikeLimit {
        UpdateRights(db, provider, now, ex, expiration, strikes[s], rights, quoteTypes);
        RunStrikesStep(t0, ex, expiration, strikes, s, rights, quoteTypes, step);
      } else {
        StrikeItemsSkip(ex, expiration, strikes, s, rights, quoteTypes);
      }
      s := s + 1;
    }
    assert strikes[..s] == strikes;
  }

  /** `for right in rights`. */
  method UpdateRights(db: OptionDatabase, provider: Provider, now: DateTime, ex: string, expiration: string, strike: Cents,
                      rights: seq<string>, quoteTypes: seq<string>)
    modifies db
    ensures db.Contents() == RunItems(old(db.Contents()), RightItems(ex, expiration, strike, rights, quoteTypes), StepAt(provider, now))
  {
    ghost var step := StepAt(provider, now);
    ghost var t0 := db.Contents();
    var r := 0;
    while r < |rights|
      invariant 0 <= r <= |rights|
      invariant db.Contents() == RunItems(t0, RightItems(ex, expiration, strike, rights[..r], quoteTypes), step)
    {
      UpdateQuoteTypes(db, provider, now, ex, expiration, strike, rights[r], quoteTypes);
      RunRightsStep(t0, ex, expiration, strike, rights, r, quoteTypes, step);
      r := r + 1;
    }
    assert rights[..r] == rights;
  }

  /** `for whatToShow in whatToShowList: ...`, one `ProcessOption` per quote type. */
  method UpdateQuoteTypes(db: OptionDatabase, provider: Provider, now: DateTime, ex: string, expiration: string, strike: Cents,
                          right: string, quoteTypes: seq<string>)
    modifies db
    ensures db.Contents() == RunItems(old(db.Contents()), InnerItems(ex, expiration, strike, right, quoteTypes), StepAt(provider, now))
  {
    ghost var step := StepAt(provider, now);
    ghost var t0 := db.Contents();
    var q := 0;
    while q < |quoteTypes|
      invariant 0 <= q <= |quoteTypes|
      invariant db.Contents() == RunItems(t0, InnerItems(ex, expiration, strike, right, quoteTypes[..q]), step)
    {
      ProcessOption(db, Item(ex, expiration, strike, right, quoteTypes[q]), provider, now);
      RunInnerStep(t0, ex, expiration, strike, right, quoteTypes, q, step);
      q := q + 1;
    }
    assert quoteTypes[..q] == quoteTypes;
  }
}
