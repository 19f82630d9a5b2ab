# VIX option quote ingestion: a Dafny model

This project models the ingestion core of a small VIX options tool. The
tool pulls hourly option bars from a broker into a SQLite database. It keeps
a per-contract checkpoint of the latest stored bar. It serves the stored
data to a dashboard. Five scripts make up the core:

- **`concurrent_get_quotes.py`**, the concurrent hourly job:
  - enumerate the contracts of the CBOE chains;
  - keep those the broker qualifies;
  - fetch them fifty at a time over a window that ends at the rounded session boundary;
  - drop bars outside the admitted session minutes;
  - upsert each batch's merged rows.
- **`get_quotes.py`**, the sequential job:
  - for each contract and quote type, count the weekdays since the stored checkpoint;
  - fetch that many days ending now;
  - store the rows and a new checkpoint in one commit.
- **`app.py`**, the read side, modelled as pure queries over the rows of the database views:
  - the option-chain pivot of the latest day;
  - the chart series of one contract;
  - the current VIX close.
- **`get_historical_data.py`**, an export script:
  - build the product of the seeded expiration and strike sets;
  - request three days of trades for each contract;
  - flatten the results into one table.
- **`concurrent_get_current_quotes.py`**, a snapshot script:
  - connect with retries;
  - build the calls on strike 15, one per expiration because of its `break`s;
  - keep the market-data snapshots that came back.

The Dafny modules follow that structure:

| module | file | what it holds |
|---|---|---|
| `Wrappers` | wrappers.dfy | `Option`, Python's `None` |
| `Weekdays` | weekdays.dfy | the Monday-to-Friday count both "days back" loops perform |
| `Dates` | dates.dfy | `'YYYYMMDD'` → `'YYYY-MM-DD'` by `strptime` and by `pd.to_datetime`, with the failure of an invalid or out-of-range date |
| `Clock` | clock.dfy | instants as day number and microsecond of day; the session-boundary roundings |
| `Market` | market.dfy | contracts, option-parameter records, bars, rows, the provider, the broker's qualification |
| `DaysBack` | days_back.dfy | both `get_days_back` functions, the shipped one and the unreachable one, as loop methods with their specifications |
| `Normalize` | normalize.dfy | the filter-and-stamp pipeline of both `get_option_data` functions |
| `Storage` | storage.dfy | the two tables as maps; `INSERT OR REPLACE`; an `OptionDatabase` class whose methods update the tables |
| `Enumeration` | enumeration.dfy | the five nested loops of both quote jobs |
| `Batching` | batching.dfy | the fifty-wide slices of the concurrent job |
| `ChainSets` | chain_sets.dfy | the `set.update` loops over the option-parameter records |
| `ConcurrentQuotes` | concurrent_quotes.dfy | the concurrent pass: gather, merge, store, abort |
| `LiveQuotes` | live_quotes.dfy | the sequential pass, item by item against the database |
| `Sorting` | sorting.dfy | `sorted(xs, key=...)` as an insertion sort: ordered, a permutation, stable |
| `Dashboard` | dashboard.dfy | the three dashboard queries |
| `Historical` | historical.dfy | the export script |
| `CurrentQuotes` | current_quotes.dfy | the snapshot script |

Units and conventions:

- Prices and strikes are integer cents. The strike limit 100 becomes 10000. The dashboard window 5..25 becomes 500..2500. The filter `15 == s` becomes 1500. The seed strike 10.0 becomes 1000.
- Day 0 is Monday 2024-01-01, so `day % 7` is `datetime.weekday()`.
- Times are Eastern wall-clock.

The broker, the clock and the network are parameters:

- `Provider` maps (contract, window end, duration in days, quote type) to an exception or a list of bars.
- `qualifies` is the broker's verdict on a contract.
- `connects(k)` is the outcome of connection attempt `k`.
- `snapshot` is the market-data reply for a contract.
- `now` is the current instant.

The model follows the code as written (apart from the library typing of the dashboard's query parameters, under "Left out"), including the behaviours below,
which the lemmas make visible:

- In the concurrent script, `get_days_back` returns 2 at its first statement (`DaysBack.ShippedDaysBack`, `ConcurrentQuotes.ShippedNeverShortCircuits`). The checkpoint-based algorithm after it is unreachable. It is modelled separately as `DaysBack.GetDaysBackUnreachable`.
- The concurrent job never writes quote_status (`Storage.StoreRowsEffect`).
- In the concurrent job, one batch whose results are all absent makes `pd.concat` raise, which ends the whole pass: later batches are never fetched (`ConcurrentQuotes.PassAsOneUpsert`).
- The sequential store writes the checkpoint even when the fetch failed or returned nothing: the checkpoint then moves to the current second (`LiveQuotes.StepCheckpoint`).
- For a checkpoint on Friday 16:00 and a run on Monday 11:00, the sequential count is 0, while the unreachable algorithm gives 1 (`DaysBack.FridayToMonday`). The sequential count starts the day after the checkpoint and stops before today, so no day is requested.
- The unreachable rounding sends exactly 10:00:00 to 09:30. The shipped rounding keeps 10:00 (`Clock.RoundingCopiesDifferOnlyAtTen`).
- The concurrent enumeration always builds the contract on 'SMART', whatever the exchange loop's value. Every contract is therefore listed twice (`Enumeration.ConcurrentContractsPaired`).

## Model

| member | source | states |
|---|---|---|
| Weekdays.WeekdaysIn | get_quotes.py:66-70 | the weekday count of a range is at most the range's length |
| Weekdays.WeekdaysInZero | get_quotes.py:66-72 | the count is zero exactly when no date of the range is a weekday |
| Weekdays.WeekdaysInIsCount | get_quotes.py:66-70 | the loop's count equals the size of the set of weekday dates in the range |
| Weekdays.WeekdaysInSplit | get_quotes.py:67-70 | counts of adjacent ranges add up |
| Weekdays.WeekdaysInWeek | get_quotes.py:68 | any seven consecutive dates hold exactly five weekdays |
| Weekdays.WeekdaysInWeeks | get_quotes.py:67-70 | w whole weeks from any start hold 5·w weekdays |
| Dates.IsoDate | get_quotes.py:12 | the conversion succeeds exactly on an eight-digit string naming a Gregorian date, and gives 'YYYY-MM-DD' |
| Dates.IsoDateRoundTrip | get_quotes.py:52 | removing the dashes from the ISO form gives back the compact expiration |
| Dates.IsoDateInjective | get_quotes.py:52-58 | two expirations that convert to the same ISO key are equal, so checkpoint keys do not collide |
| Dates.SeedExpirationIsValid | get_historical_data.py:32 | the seed '20241015' converts to '2024-10-15' |
| Dates.TimestampIsoDate | concurrent_get_quotes.py:153 | `pd.to_datetime(expiration).date().isoformat()` on a compact date succeeds exactly when the date also lies within the nanosecond `Timestamp` range (1677-09-22 to 2262-04-11 at midnight), and then agrees with `strptime` |
| Dates.TimestampRangeNarrower | get_quotes.py:116 | the two conversions differ: `strptime` turns '16000101' into '1600-01-01' while `pd.to_datetime` raises on it |
| Clock.SessionEnd | concurrent_get_quotes.py:114-122 | defines the window end: seconds and microseconds zeroed, then 16:00 of the previous day before 09:30, 16:00 after 16:00, 09:30 before 10:00, and the whole hour otherwise (the same code as get_historical_data.py:68-76); its properties are in Clock.SessionEndIsLatestBoundary and the lemmas below |
| Clock.TruncToSecond | concurrent_get_quotes.py:158 | formatting with '%S' keeps the day, drops less than one second and leaves a whole second |
| Clock.TrimmedComparisons | concurrent_get_quotes.py:114-122 | zeroing seconds and microseconds first changes none of the comparisons with 09:30, 16:00 and 10:00, nor the hour truncation |
| Clock.SessionEndIsLatestBoundary | concurrent_get_quotes.py:114-122 | the rounded window end is a session boundary (09:30 or a whole hour 10:00..16:00) not after now, with zero seconds, and no boundary not after now is later |
| Clock.SessionEndBelowNow | get_historical_data.py:68-76 | the historical script's identical rounding lands on a boundary not after now, on a whole minute |
| Clock.SessionEndIdempotent | get_historical_data.py:68-76 | rounding a rounded end again changes nothing, while the unreachable copy moves its own 10:00 on to 09:30 |
| Clock.RoundingCopiesDifferOnlyAtTen | concurrent_get_quotes.py:62-73 | the unreachable rounding differs from the shipped one exactly at 10:00:00.000000, where it gives 09:30 |
| Clock.RoundNowUnreachable | concurrent_get_quotes.py:62-73 | defines the unreachable copy's rounding, with no zeroing of seconds and a strict comparison with 10:00; its properties are in Clock.RoundNowUnreachableIsBelowNow and Clock.RoundingCopiesDifferOnlyAtTen |
| Clock.RoundNowUnreachableIsBelowNow | concurrent_get_quotes.py:62-73 | the unreachable rounding also lands on a boundary not after now |
| DaysBack.LiveDaysBack | get_quotes.py:45-79 | defines the sequential count: 30 with no checkpoint or a failed lookup, otherwise the weekdays from the day after the checkpoint up to yesterday; the loop method DaysBack.GetDaysBackLive is proved equal to it |
| DaysBack.GetDaysBackLive | get_quotes.py:45-79 | 30 with no checkpoint or on an exception; otherwise the weekdays strictly after the checkpoint's date and before today's date, counted by the loop |
| DaysBack.LiveDaysBackCounts | get_quotes.py:63-72 | the count is the size of that weekday set, is zero exactly when the range holds no weekday, and is at most the range's length |
| DaysBack.FridayToMonday | get_quotes.py:63-72 | checkpoint Friday 16:00, run Monday 11:00: the sequential count is 0, the unreachable algorithm's is 1 |
| DaysBack.UnreachableDaysBack | concurrent_get_quotes.py:46-92 | defines the count after `return 2`; the loop method DaysBack.GetDaysBackUnreachable is proved equal to it and DaysBack.UnreachableDaysBackGap states its meaning |
| DaysBack.GetDaysBackUnreachable | concurrent_get_quotes.py:46-92 | the loop after `return 2`: 30 with no checkpoint or on an exception, 0 when the checkpoint is not before the rounded now, otherwise the weekday count but at least 1 |
| DaysBack.UnreachableDaysBackGap | concurrent_get_quotes.py:75-85 | the unreachable result is zero exactly when the checkpoint is not before the rounded now, and otherwise at least 1 and at least the weekday count |
| Normalize.Normalize | concurrent_get_quotes.py:141-160 | defines the window-and-minute filter followed by the stamp, in bar order; filtering never adds rows, and its meaning is in Normalize.NormalizeMembers and Normalize.NormalizeAppend |
| Normalize.NormalizeAppend | concurrent_get_quotes.py:143-149 | normalising a concatenation normalises each part in turn, so relative order is kept |
| Normalize.NormalizeMembers | concurrent_get_quotes.py:141-160 | a row is in the output exactly when some kept bar stamps to it |
| Normalize.NormalizedRows | concurrent_get_quotes.py:141-160 | every output row carries the stamp's key columns and a whole-second date inside the window; under the session filter its time is 09:30 or within 10:00..16:00 |
| Normalize.ConcurrentWindow | concurrent_get_quotes.py:114-125 | the window ends at the rounded boundary and starts days_back days earlier at 09:30, strictly before the end |
| Normalize.ConcurrentOptionData | concurrent_get_quotes.py:104-166 | no request and None when days_back is 0; a frame only for an expiration that `pd.to_datetime` converts |
| Normalize.ConcurrentRows | concurrent_get_quotes.py:141-160 | every row of a concurrent fetch lies in the window on an admitted minute and a whole second, with the contract's symbol, ISO expiration, strike, right and quote type |
| Normalize.LiveOptionData | get_quotes.py:84-132 | no request and None when days_back is 0; a frame only for an expiration that `pd.to_datetime` converts |
| Normalize.LiveRows | get_quotes.py:110-125 | every row of a sequential fetch lies in [now − days_back days, now] up to the dropped microseconds, with the contract's key columns |
| Storage.UpsertAll | get_quotes.py:21-24 | defines `executemany` of `INSERT OR REPLACE` as one map update per row, in order; its meaning is in the UpsertAll lemmas below |
| Storage.UpsertAllKeys | concurrent_get_quotes.py:25-28 | after the upserts a key is present exactly when it was before or some row carries it |
| Storage.UpsertAllLastWins | get_quotes.py:21-24 | the last row with a key is the one stored under it |
| Storage.UpsertAllElsewhere | get_quotes.py:21-24 | a key no row carries keeps its old value, or stays absent |
| Storage.UpsertAllAgree | get_quotes.py:21-24 | on a key some row carries, the starting table does not matter |
| Storage.UpsertAllAppend | concurrent_get_quotes.py:223-232 | two consecutive `executemany` calls act as one over the concatenated rows |
| Storage.UpsertAllIdempotent | get_quotes.py:21-24 | re-delivering the same rows changes nothing |
| Storage.LatestDate | get_quotes.py:26 | `df['date'].max()` is the date of some row and no row is later |
| Storage.LookupCheckpoint | get_quotes.py:49-60 | defines the checkpoint query: a failed lookup when the expiration is not a date, the stored value when the key is present, no row otherwise |
| Storage.StoreRows | concurrent_get_quotes.py:14-42 | defines the concurrent store: the frame's rows upserted when it is present and non-empty, quote_status untouched; its meaning is in Storage.StoreRowsEffect |
| Storage.StoreWithCheckpoint | get_quotes.py:10-43 | defines the sequential store: nothing when `strptime` raises, otherwise the rows upserted and the checkpoint set to the latest row's date or the current second in one commit; its meaning is in Storage.StoredCheckpointIsRead |
| Storage.StoredCheckpointIsRead | get_quotes.py:26-36 | after the sequential store the next checkpoint query for that contract finds the value just written. That is the current second for an absent or empty frame. Every other checkpoint is unchanged |
| Storage.StoreRowsEffect | concurrent_get_quotes.py:14-42 | the concurrent store never changes quote_status, leaves the tables alone for an absent or empty frame, and leaves keys outside the frame present or absent as before |
| Storage.OptionDatabase.UpsertRows | get_quotes.py:21-24 | the loop leaves option_data as the row-by-row upsert and quote_status unchanged |
| Storage.OptionDatabase.StoreConcurrent | concurrent_get_quotes.py:14-42 | the new tables are the concurrent store of the frame |
| Storage.OptionDatabase.StoreSequential | get_quotes.py:10-43 | raises exactly for an expiration that is not a date, which writes nothing; otherwise rows and checkpoint as one update |
| Sorting.SortBy | app.py:191-192 | defines `sorted(..., key=...)` as an insertion sort; the lemmas below prove it ordered, a permutation and stable |
| Sorting.SortBySorted | app.py:191-192 | `sorted(..., key=...)` returns a list ordered by key |
| Sorting.SortByPermutes | app.py:191-192 | the sorted list is a permutation of the input |
| Sorting.SortByMembers | app.py:191-192 | the sorted list has the input's members |
| Sorting.SortByStrict | app.py:191-192 | with pairwise distinct keys the result is strictly increasing |
| Sorting.SortByStable | app.py:191-192 | elements with equal keys keep their input order, as in the stable `sorted` |
| Market.Qualified | concurrent_get_quotes.py:208 | defines `qualifyContracts` as an order-preserving filter by the broker's verdict; it never adds contracts, and its meaning is in Market.QualifiedMembers |
| Market.QualifiedMembers | concurrent_get_quotes.py:208 | a contract is qualified exactly when it was listed and the broker accepts it |
| ChainSets.AllExpirations | concurrent_get_current_quotes.py:51-52 | defines the union of every record's expirations, the value the `update` loop builds |
| ChainSets.AllStrikes | concurrent_get_current_quotes.py:51-53 | defines the union of every record's strikes, the value the `update` loop builds |
| ChainSets.UnionParams | concurrent_get_current_quotes.py:48-53 | the loop leaves the union of the starting sets with every record's expirations and strikes |
| Enumeration.RightItemsCount | concurrent_get_quotes.py:195-196 | one visit per right and exchange |
| Enumeration.StrikeItemsCount | concurrent_get_quotes.py:193-196 | one visit per strike up to the limit, right and exchange |
| Enumeration.ExpirationItemsCount | concurrent_get_quotes.py:192-196 | one visit per expiration, eligible strike, right and exchange |
| Enumeration.ChainItemsCount | concurrent_get_quotes.py:191-196 | the number of visits is the sum over chains of the product sizes |
| Enumeration.ChainItemsMembers | concurrent_get_quotes.py:191-204 | the loops visit exactly the combinations of a chain, one of its expirations, one of its strikes up to 100, a right and an inner value |
| Enumeration.ConcurrentContracts | concurrent_get_quotes.py:190-204 | defines the concurrent list as the contracts of the nested loops' visits in loop order, always on 'SMART'; Enumeration.EnumerateContracts is proved to build it |
| Enumeration.ConcurrentContractsPaired | concurrent_get_quotes.py:196-204 | every contract of the concurrent list is repeated at the next position, because the exchange is always 'SMART' |
| Enumeration.ConcurrentContractsMembers | concurrent_get_quotes.py:191-204 | each entry of the list is a 'SMART' VIX contract on a chain's expiration, an eligible strike of that chain and right P or C |
| Enumeration.ConcurrentContractsCount | concurrent_get_quotes.py:190-204 | the list has four entries per chain, expiration and eligible strike, for every list of chains including the empty one |
| Enumeration.ConcurrentContractsComplete | concurrent_get_quotes.py:191-204 | every such combination is in the list |
| Enumeration.EnumerateContracts | concurrent_get_quotes.py:190-204 | the nested append loops build exactly the concurrent contract list |
| Enumeration.AppendExpirations | concurrent_get_quotes.py:192 | the expiration loop appends the visits of its chain |
| Enumeration.AppendStrikes | concurrent_get_quotes.py:193-194 | the strike loop appends the visits of its eligible strikes and skips the others |
| Enumeration.AppendRights | concurrent_get_quotes.py:195 | the right loop appends the visits of each right |
| Enumeration.AppendExchanges | concurrent_get_quotes.py:196-204 | the exchange loop appends one 'SMART' contract per exchange value |
| Batching.Batches | concurrent_get_quotes.py:223-224 | defines the fifty-wide slices; there are no batches exactly when there are no contracts, and their meaning is in Batching.BatchesFlatten, BatchesSizes, BatchesCount and BatchStart |
| Batching.BatchesFlatten | concurrent_get_quotes.py:223-224 | the batches together are the whole list, in order |
| Batching.BatchesSizes | concurrent_get_quotes.py:223-224 | every batch has 1 to 50 contracts, all but the last exactly 50 |
| Batching.BatchesCount | concurrent_get_quotes.py:223-224 | the number of batches is the ceiling of the length over 50 |
| Batching.BatchStart | concurrent_get_quotes.py:223-224 | batch b is the slice from b·50 to min(b·50+50, len), and the earlier batches flatten to the prefix before it |
| ConcurrentQuotes.CboeChains | concurrent_get_quotes.py:169-177 | every kept chain is on 'CBOE', and none are added |
| ConcurrentQuotes.CboeChainsMembers | concurrent_get_quotes.py:169-177 | a chain is kept exactly when it was listed and is on 'CBOE' |
| ConcurrentQuotes.Fetch | concurrent_get_quotes.py:224 | defines one task: `get_option_data` for 'TRADES' with the shipped days_back of 2 |
| ConcurrentQuotes.ShippedNeverShortCircuits | concurrent_get_quotes.py:104-108 | with days_back 2 a task is absent exactly when the provider raises or sends no bars, or `pd.to_datetime` raises on the expiration |
| ConcurrentQuotes.Gathered | concurrent_get_quotes.py:224-225 | one result per task of the batch |
| ConcurrentQuotes.GatheredAppend | concurrent_get_quotes.py:224-225 | gathering a concatenation gathers each part in turn |
| ConcurrentQuotes.PresentMembers | concurrent_get_quotes.py:229-230 | a merged row comes from a result that is present |
| ConcurrentQuotes.MergeFrames | concurrent_get_quotes.py:229-230 | `pd.concat` fails exactly when every result is absent |
| ConcurrentQuotes.AbortIndex | concurrent_get_quotes.py:223-232 | the first batch whose results are all absent: no earlier batch is all absent |
| ConcurrentQuotes.StoreMerged | concurrent_get_quotes.py:229-232 | storing a merged batch upserts exactly its present rows and leaves quote_status alone |
| ConcurrentQuotes.RunBatches | concurrent_get_quotes.py:223-232 | defines the batch loop: gather, then store the merge, or stop the pass when the whole batch is absent; its meaning is in ConcurrentQuotes.RunBatchesStops and ConcurrentQuotes.RunBatchesEffect |
| ConcurrentQuotes.RunBatchesStops | concurrent_get_quotes.py:223-232 | the batch loop aborts exactly when some batch is all absent, and never writes quote_status |
| ConcurrentQuotes.RunBatchesEffect | concurrent_get_quotes.py:223-232 | the rows left are one upsert of the present rows of every batch before the first all-absent one |
| ConcurrentQuotes.Pass | concurrent_get_quotes.py:223-232 | defines a pass as the batch loop over the fifty-wide slices of the qualified list |
| ConcurrentQuotes.PassAsOneUpsert | concurrent_get_quotes.py:223-232 | batching does not change what is stored. A completed pass equals one upsert of every contract's rows in order. An aborted pass equals that upsert for a prefix of whole batches, and the batch after the prefix has all results absent |
| ConcurrentQuotes.PassChangedKey | concurrent_get_quotes.py:223-232 | every key a pass adds or changes belongs to one of the fetched contracts, in the window, on an admitted minute |
| ConcurrentQuotes.PassWritesOnlyEnumeratedRows | concurrent_get_quotes.py:179-232 | whatever a pass writes is a 'TRADES' row of a qualified VIX contract. That contract has an expiration and an eligible strike of one chain and right P or C. The row's date lies in the two-day window |
| ConcurrentQuotes.PassStep | concurrent_get_quotes.py:223-232 | a pass is its first batch of at most fifty followed by the pass over the rest |
| ConcurrentQuotes.GetQuotes | concurrent_get_quotes.py:179-232 | the method leaves the database and the abort flag as the pass over the qualified enumerated contracts |
| LiveQuotes.Step | get_quotes.py:165-166 | defines one loop body: `get_option_data` with the count from the stored checkpoint, then `store_option_data`; its meaning is in the Step lemmas below |
| LiveQuotes.StepCheckpoint | get_quotes.py:26-36 | after a step the item's checkpoint is the latest stored date, or the current second when nothing came back, even after a failed request; no other checkpoint changes |
| LiveQuotes.StepWithBadExpiration | get_quotes.py:10-13 | with an expiration that is not a date the step changes nothing |
| LiveQuotes.CheckpointValueSane | get_quotes.py:26-28 | the checkpoint written is a whole second no later than now |
| LiveQuotes.StepCheckpointMonotone | get_quotes.py:26-34 | from a whole-second checkpoint no later than now, the one written is at least as late |
| LiveQuotes.StepKeepsCheckpoints | get_quotes.py:31-34 | a step keeps every checkpoint a whole second no later than now and moves none backwards |
| LiveQuotes.RunKeepsCheckpoints | get_quotes.py:156-173 | over a whole run every checkpoint stays sane, and each existing one never moves backwards |
| LiveQuotes.StepRows | get_quotes.py:110-125 | the rows a step adds or changes carry the item's contract and quote type and a whole-second date no later than now |
| LiveQuotes.ProcessOption | get_quotes.py:162-173 | one loop body leaves the database as one step |
| LiveQuotes.RunItems | get_quotes.py:156-173 | defines a run as the steps over the items in order, each seeing the tables the previous one left |
| LiveQuotes.RunItemsAppend | get_quotes.py:156-173 | running two item lists in turn is running their concatenation |
| LiveQuotes.UpdateQuotes | get_quotes.py:156-173 | the nested loops leave the database as the run over every chain, expiration, eligible strike, right and quote type in loop order |
| LiveQuotes.UpdateExpirations | get_quotes.py:157 | the expiration loop runs one chain's visits |
| LiveQuotes.UpdateStrikes | get_quotes.py:158-159 | the strike loop runs the visits of the eligible strikes |
| LiveQuotes.UpdateRights | get_quotes.py:160 | the right loop runs each right's visits |
| LiveQuotes.UpdateQuoteTypes | get_quotes.py:161-166 | the quote-type loop runs one step per quote type |
| Dashboard.LatestMatch | app.py:145-152 | None exactly when no row matches symbol, expiration and quote type; otherwise a matching row with no later match |
| Dashboard.DayRowsMembers | app.py:163-170 | the day's rows are exactly the matching rows on that day in the strike window |
| Dashboard.SelectedRows | app.py:163-170 | the pivot's input is exactly those rows, ordered by strike |
| Dashboard.Pivot | app.py:177-186 | defines the `defaultdict` loop as a fold over the selected rows; its meaning is in Dashboard.PivotWellFormed, PivotKeys, PivotLastWins and PivotMissingSide |
| Dashboard.PivotStepWellFormed | app.py:178-186 | one loop body keeps the defaultdict well formed |
| Dashboard.PivotWellFormed | app.py:177-186 | keys in first-use order are distinct, are the strikes seen, and each entry carries its strike |
| Dashboard.PivotKeys | app.py:177-180 | the chain's keys are exactly the strikes of the rows |
| Dashboard.PivotLastWins | app.py:178-186 | a strike's call side is that of its last 'C' row, its put side that of its last row with another right |
| Dashboard.PivotMissingSide | app.py:130-136 | a side with no row stays 0 |
| Dashboard.ChainData | app.py:140-205 | defines `get_option_chain_data`: [] without a matching row, otherwise the sorted pivot of the latest day's rows renamed; its meaning is in Dashboard.ChainDataShape |
| Dashboard.ChainDataEmpty | app.py:155-157 | with no matching row the chain data is [] |
| Dashboard.ValuesDistinct | app.py:191 | the values have distinct strikes and are the slots of their strikes |
| Dashboard.SortedValues | app.py:191-192 | sorted values: strictly ascending strikes, exactly the pivot's strikes, each its slot |
| Dashboard.EntriesShape | app.py:196-205 | the dicts rename strike, call, put, call_volume and put_volume, in strictly ascending strike order |
| Dashboard.ChainDataShape | app.py:140-205 | one entry per distinct strike of the latest day's selected rows, strictly ascending, each that strike's pivot slot |
| Dashboard.GetOptionChainData | app.py:140-205 | the method returns exactly the chain data |
| Dashboard.ChartData | app.py:78-89 | defines the comprehension over the query's rows; the series is never longer than the rows, and its meaning is in Dashboard.ChartDataMembers and Dashboard.ChartDataAppend |
| Dashboard.ChartDataAppend | app.py:78-89 | the series keeps the rows' order |
| Dashboard.ChartDataMembers | app.py:78-89 | a point is charted exactly when a row of the contract in the strike window maps to it; a strike outside 5..25 gives none |
| Dashboard.CurrentVixValue | app.py:207-209 | None exactly for an empty table; otherwise the close of a row no other row is later than |
| Dashboard.LatestVix | app.py:208 | the chosen row's date is the greatest |
| Historical.SeedSets | get_historical_data.py:32-37 | the sets hold '20241015' and 10.0 besides every record's values |
| Historical.ProductContracts | get_historical_data.py:42-56 | each call on CBOE of the product appears exactly once; there are |expirations|·|strikes| contracts |
| Historical.AppendStrikes | get_historical_data.py:46-56 | one expiration's loop adds its product contracts, one per strike |
| Historical.AppendRights | get_historical_data.py:47-56 | one strike's loop adds its single call |
| Historical.BarDicts | get_historical_data.py:90-97 | one dict per bar |
| Historical.BarDictsAt | get_historical_data.py:90-97 | dict i carries bar i's date, open, high, low, close and volume |
| Historical.RequestHistoricalData | get_historical_data.py:65-106 | None exactly when the three-day 'TRADES' request ending at the rounded boundary raises; otherwise the contract and one dict per bar |
| Historical.Results | get_historical_data.py:109-112 | one result per qualified contract |
| Historical.RowsOf | get_historical_data.py:121-134 | one table row per bar of a result |
| Historical.FlattenedShape | get_historical_data.py:119-134 | the table exists exactly when every result is present, and then has one row per bar of all results |
| Historical.FlattenedAppend | get_historical_data.py:119-134 | results in order and bars in order: flattening distributes over concatenation |
| Historical.Flattened | get_historical_data.py:119-134 | defines the flattening: one table row per bar of each result in order, and no table once a result is None; its meaning is in Historical.FlattenedShape |
| Historical.FlattenResults | get_historical_data.py:119-134 | the double loop computes the flattened table, or stops at the first None |
| Historical.FlattenedNoneStays | get_historical_data.py:120-121 | once a None result has been met the table never exists |
| Historical.HistoricalExport | get_historical_data.py:32-134 | the whole script: contracts are the seeded product, and the table is the flattening of the requests for the qualified ones |
| CurrentQuotes.FirstSuccess | concurrent_get_current_quotes.py:15-20 | the first success is an attempt that is made and succeeds |
| CurrentQuotes.FirstSuccessIsFirst | concurrent_get_current_quotes.py:15-20 | no earlier attempt succeeds, and there is no success exactly when every attempt fails |
| CurrentQuotes.FirstSuccessStable | concurrent_get_current_quotes.py:15-20 | allowing more attempts does not change the first success |
| CurrentQuotes.AttemptConnection | concurrent_get_current_quotes.py:14-28 | connected exactly when one of the max_attempts calls succeeds. It stops right after the first success. It sleeps after every failed attempt but the last. With no attempt at all it reports failure |
| CurrentQuotes.SortedStrikes | concurrent_get_current_quotes.py:56 | `sorted(strikes)` is strictly increasing and holds exactly the set's strikes |
| CurrentQuotes.KeepFifteen | concurrent_get_current_quotes.py:56 | defines the comprehension `15 == s`; it never adds strikes, and its meaning is in CurrentQuotes.KeepFifteenMembers and CurrentQuotes.KeepFifteenAscending |
| CurrentQuotes.KeepFifteenMembers | concurrent_get_current_quotes.py:56 | every kept strike is 15, and 15 is kept exactly when listed |
| CurrentQuotes.KeepFifteenAscending | concurrent_get_current_quotes.py:56 | on a sorted list of distinct strikes the result is [15] or [], so its length is at most 1 |
| CurrentQuotes.FilteredStrikes | concurrent_get_current_quotes.py:48-56 | the expirations are the union of the records; the strike list is [15] when some record lists 15, else [] |
| CurrentQuotes.CallsForAppend | concurrent_get_current_quotes.py:62-73 | appending the call of a new expiration keeps the list a duplicate-free enumeration of one call per expiration |
| CurrentQuotes.TruncatedContracts | concurrent_get_current_quotes.py:60-75 | no contract when there is no strike. Otherwise, because of the breaks, exactly one call on CBOE at the first strike per expiration, without duplicates |
| CurrentQuotes.RequestMarketData | concurrent_get_current_quotes.py:81-108 | None exactly when the request fails; otherwise the contract with the ticker's last, bid, ask and model implied volatility |
| CurrentQuotes.Collected | concurrent_get_current_quotes.py:117-125 | defines the kept answers in submission order; never more results than contracts, and its meaning is in CurrentQuotes.CollectedMembers and CurrentQuotes.CollectedOnePerExpiration |
| CurrentQuotes.CollectedMembers | concurrent_get_current_quotes.py:122-125 | a result is collected exactly when it is the non-None answer for one of the qualified contracts |
| CurrentQuotes.QualifiedOnePerExpiration | concurrent_get_current_quotes.py:77-78 | qualification keeps a list with one contract per expiration so |
| CurrentQuotes.CollectedOnePerExpiration | concurrent_get_current_quotes.py:117-125 | over contracts with pairwise distinct expirations, no two collected results share an expiration |
| CurrentQuotes.CollectResults | concurrent_get_current_quotes.py:117-125 | the completion loop appends exactly the non-None results in submission order |
| CurrentQuotes.CurrentQuotesRun | concurrent_get_current_quotes.py:30-125 | no result without a connection. Every result is the answer for a qualified strike-15 VIX call on CBOE of a listed expiration, and with a connection every such call that answered has a result. There is at most one result per expiration |

## Left out

- The broker API (connect, qualifyContracts, reqSecDefOptParams, reqHistoricalData, reqMktData), I/O, and the sleeps and timeouts. These are parameters of the model or are dropped.
- asyncio, semaphores, thread pools and nest_asyncio: each batch and task list is a sequential map in submission order, including the `as_completed` loop.
- `fetch_with_semaphore` in concurrent_get_quotes.py: defined but never called.
- pandas details: timezone conversion and daylight saving time are out, and bars arrive as Eastern wall-clock. `util.df([])` returning None is modelled as "no frame". `pd.concat` is modelled for its two relevant cases: absent results are dropped, and a batch whose results are all absent raises.
- The `replace(tzinfo=pytz.timezone(...))` offset quirk in the unreachable `get_days_back`.
- The SQLite engine: the tables are maps keyed by primary key. Connections and commits are atomic updates of the model.
- SQL tie order among rows with equal strike or date. `Sorting.SortBy` is a stable insertion sort, and `ORDER BY strike` is modelled with it, whereas SQLite leaves the order of equal strikes unspecified.
- Floating-point prices and strikes: modelled as integer cents, since only comparisons and copies are used.
- Flask routes, templates, Plotly and jsonify in app.py; smile.py; get_vix.py, spy.py and get_option_quote.py (thin wrappers over the same window filter); the smoke-test and setup scripts.
- CSV output and every `print`.
- The undefined `option_chains` in the sequential script's main block: the chains are a parameter of `LiveQuotes.UpdateQuotes`.
- Each pass uses one `now` for all of its items, taken as Eastern local time.
- Dashboard.ChainDataShape: compares the `'YYYY-MM-DD'` string of the latest date with the view's datetime as a same-day match, since SQLite's text comparison is not modelled.
- Dashboard.ChainData: the model assumes the string parameters compare as dates. The `request.args` expiration is treated as the same expiration, and the `'YYYY-MM-DD'` string `last_date` as the same day. SQLAlchemy's SQLite `Date` and `DateTime` parameter processing accepts only date and datetime objects, so the ORM may reject these filters with a `StatementError` instead. That raise is library behaviour and is not modelled.
- Dashboard.ChartData: likewise assumes the string expiration from `request.args` compares equal to the view's `Date` column. The ORM's parameter typing may reject it instead, which is not modelled.
- Dashboard.LatestMatch: the same assumption for its expiration filter.
- Dashboard.CurrentVixValue: does not say which of several rows with the greatest date is chosen.
- Dates.IsoDate: accepts only eight-digit strings, whereas `strptime` also accepts some shorter ones, with a one-digit month or day field.
- Dates.TimestampIsoDate: models `pd.to_datetime` only on eight-digit strings, whereas pandas also parses other formats. It does model the narrower date range: outside 1677-09-22..2262-04-11 `pd.to_datetime` raises, so both fetch functions return None while `strptime` still succeeds (`Dates.TimestampRangeNarrower`).
- CurrentQuotes.AttemptConnection: a max_attempts of 0 or less returns None, which is falsy, and the model reports it as `false`.
- CurrentQuotes.CurrentQuotesRun: the order of the results comes from set iteration and thread completion, which the model leaves open. Its contract therefore states membership in both directions, one result per expiration and a bound, rather than the exact list.
- Historical.HistoricalExport: the contract list's order is the order of set iteration, which the model leaves open. Its contract states the list's members and distinctness.
