/**
 * The SQLite store: the option_data table, keyed by (symbol, expiration,
 * strike, right, date, quote_type), and the quote_status checkpoint table,
 * keyed by (symbol, expiration, strike, right, quote_type). `INSERT OR
 * REPLACE` is an upsert by key.
 */
module Storage {
  import opened Wrappers
  import opened Clock
  import opened Market
  import opened Dates
  import opened DaysBack

  datatype RowKey = RowKey(symbol: string, expiration: string, strike: Cents, right: string,
                           date: DateTime, quoteType: string)

  function KeyOf(r: Row): RowKey {
    RowKey(r.symbol, r.expiration, r.strike, r.right, r.date, r.quoteType)
  }

  datatype StatusKey = StatusKey(symbol: string, expiration: string, strike: Cents, right: string, quoteType: string)

  /** Both tables of the database file. */
  datatype Tables = Tables(optionData: map<RowKey, Row>, quoteStatus: map<StatusKey, DateTime>)

  /** `executemany('INSERT OR REPLACE ...', rows)`: one upsert per row, in order. */
  function UpsertAll(m: map<RowKey, Row>, rows: seq<Row>): map<RowKey, Row> {
    if rows == [] then m
    else var last := rows[|rows| - 1]; UpsertAll(m, rows[..|rows| - 1])[KeyOf(last) := last]
  }

  /** A stored key is an old key or the key of one of the rows. */
  lemma {:induction false} UpsertAllKeys(m: map<RowKey, Row>, rows: seq<Row>, k: RowKey)
    ensures k in UpsertAll(m, rows) <==> k in m || exists i :: 0 <= i < |rows| && KeyOf(rows[i]) == k
  {
    if rows != [] {
      var init := rows[..|rows| - 1];
      UpsertAllKeys(m, init, k);
      if exists i :: 0 <= i < |rows| && KeyOf(rows[i]) == k {
        var i :| 0 <= i < |rows| && KeyOf(rows[i]) == k;
        if i < |init| {
          assert KeyOf(init[i]) == k;
        }
      }
      if exists i :: 0 <= i < |init| && KeyOf(init[i]) == k {
        var i :| 0 <= i < |init| && KeyOf(init[i]) == k;
        assert KeyOf(rows[i]) == k;
      }
    }
  }

  /** The last row with a given key is the one stored under it: the later value wins. */
  lemma {:induction false} UpsertAllLastWins(m: map<RowKey, Row>, rows: seq<Row>, i: int)
    requires 0 <= i < |rows|
    requires forall j :: i < j < |rows| ==> KeyOf(rows[j]) != KeyOf(rows[i])
    ensures KeyOf(rows[i]) in UpsertAll(m, rows) && UpsertAll(m, rows)[KeyOf(rows[i])] == rows[i]
  {
    if i < |rows| - 1 {
      var init := rows[..|rows| - 1];
      assert forall j :: i < j < |init| ==> init[j] == rows[j];
      UpsertAllLastWins(m, init, i);
    }
  }

  /** A key no row carries keeps its old value, or stays absent. */
  lemma {:induction false} UpsertAllElsewhere(m: map<RowKey, Row>, rows: seq<Row>, k: RowKey)
    requires forall i :: 0 <= i < |rows| ==> KeyOf(rows[i]) != k
    ensures k in UpsertAll(m, rows) <==> k in m
    ensures k in m ==> UpsertAll(m, rows)[k] == m[k]
  {
    if rows != [] {
      var init := rows[..|rows| - 1];
      assert forall i :: 0 <= i < |init| ==> init[i] == rows[i];
      UpsertAllElsewhere(m, init, k);
    }
  }

  /** On a key some row carries, the starting table does not matter. */
  lemma {:induction false} UpsertAllAgree(m1: map<RowKey, Row>, m2: map<RowKey, Row>, rows: seq<Row>, i: int)
    requires 0 <= i < |rows|
    ensures var k := KeyOf(rows[i]);
      k in UpsertAll(m1, rows) && k in UpsertAll(m2, rows) && UpsertAll(m1, rows)[k] == UpsertAll(m2, rows)[k]
  {
    if i < |rows| - 1 && KeyOf(rows[|rows| - 1]) != KeyOf(rows[i]) {
      var init := rows[..|rows| - 1];
      assert init[i] == rows[i];
      UpsertAllAgree(m1, m2, init, i);
    }
  }

  /** Two consecutive `executemany` calls act as one over the concatenated rows. */
  lemma {:induction false} UpsertAllAppend(m: map<RowKey, Row>, a: seq<Row>, b: seq<Row>)
    ensures UpsertAll(UpsertAll(m, a), b) == UpsertAll(m, a + b)
    decreases |b|
  {
    if b == [] {
      assert a + b == a;
    } else {
      assert (a + b)[..|a + b| - 1] == a + b[..|b| - 1];
      UpsertAllAppend(m, a, b[..|b| - 1]);
    }
  }

  /** Re-delivering the same rows changes nothing: upserting is idempotent. */
  lemma UpsertAllIdempotent(m: map<RowKey, Row>, rows: seq<Row>)
    ensures UpsertAll(UpsertAll(m, rows), rows) == UpsertAll(m, rows)
  {
    var once := UpsertAll(m, rows);
    var twice := UpsertAll(once, rows);
    forall k | k in twice || k in once
      ensures k in twice && k in once && twice[k] == once[k]
    {
      UpsertAllKeys(once, rows, k);
      UpsertAllKeys(m, rows, k);
      if exists i :: 0 <= i < |rows| && KeyOf(rows[i]) == k {
        var i :| 0 <= i < |rows| && KeyOf(rows[i]) == k;
        UpsertAllAgree(once, m, rows, i);
      } else {
        UpsertAllElsewhere(once, rows, k);
      }
    }
  }

  /** `df['date'].max()`: the latest timestamp of a non-empty frame. */
  function LatestDate(rows: seq<Row>): (d: DateTime)
    requires rows != []
    ensures exists i :: 0 <= i < |rows| && rows[i].date == d
    ensures forall i :: 0 <= i < |rows| ==> Le(rows[i].date, d)
  {
    if |rows| == 1 then rows[0].date
    else
      var init := rows[..|rows| - 1];
      var d := LatestDate(init);
      assert forall i :: 0 <= i < |init| ==> rows[i] == init[i];
      if Le(rows[|rows| - 1].date, d) then d else rows[|rows| - 1].date
  }

  /** The checkpoint row a query for this contract and quote type reads. */
  function CheckpointKey(symbol: string, isoExpiration: string, strike: Cents, right: string, quoteType: string): StatusKey {
    StatusKey(symbol, isoExpiration, strike, right, quoteType)
  }

  /** `SELECT latest FROM quote_status WHERE ...`, with the expiration's conversion that may raise. */
  function LookupCheckpoint(status: map<StatusKey, DateTime>, symbol: string, expiration: string,
                            strike: Cents, right: string, quoteType: string): Lookup {
    match IsoDate(expiration)
    case None => Failed
    case Some(iso) =>
      var k := CheckpointKey(symbol, iso, strike, right, quoteType);
      if k in status then Found(status[k]) else NoRow
  }

  /** The checkpoint the sequential store writes: the frame's latest date, or the current second. */
  function CheckpointValue(frame: Option<seq<Row>>, now: DateTime): DateTime {
    if frame.Some? && frame.value != [] then LatestDate(frame.value) else TruncToSecond(now)
  }

  /** `store_option_data` of the concurrent script: rows only, nothing for an absent or empty frame. */
  function StoreRows(t: Tables, frame: Option<seq<Row>>): Tables {
    if frame.Some? && frame.value != [] then t.(optionData := UpsertAll(t.optionData, frame.value)) else t
  }

  /**
   * `store_option_data` of the sequential script: rows and the checkpoint in
   * one commit. An expiration that is not a date raises before anything is
   * written.
   */
  function StoreWithCheckpoint(t: Tables, frame: Option<seq<Row>>, symbol: string, expiration: string,
                               strike: Cents, right: string, quoteType: string, now: DateTime): Tables {
    match IsoDate(expiration)
    case None => t
    case Some(iso) =>
      var rows := if frame.Some? then frame.value else [];
      Tables(UpsertAll(t.optionData, rows),
             t.quoteStatus[CheckpointKey(symbol, iso, strike, right, quoteType) := CheckpointValue(frame, now)])
  }

  /**
   * After the sequential store, the checkpoint query for the same contract
   * finds the value just written, even for an absent or empty frame, and
   * every other checkpoint is as before.
   */
  lemma StoredCheckpointIsRead(t: Tables, frame: Option<seq<Row>>, symbol: string, expiration: string,
                               strike: Cents, right: string, quoteType: string, now: DateTime, other: StatusKey)
    requires IsoDate(expiration).Some?
    ensures var t' := StoreWithCheckpoint(t, frame, symbol, expiration, strike, right, quoteType, now);
      LookupCheckpoint(t'.quoteStatus, symbol, expiration, strike, right, quoteType) == Found(CheckpointValue(frame, now)) &&
      (other != CheckpointKey(symbol, IsoDate(expiration).value, strike, right, quoteType) ==>
         (other in t'.quoteStatus <==> other in t.quoteStatus) &&
         (other in t.quoteStatus ==> t'.quoteStatus[other] == t.quoteStatus[other]))
    ensures frame.None? || frame.value == [] ==> CheckpointValue(frame, now) == TruncToSecond(now)
  {
  }

  /** The concurrent store never touches quote_status, and leaves the rows alone for an empty frame. */
  lemma StoreRowsEffect(t: Tables, frame: Option<seq<Row>>, k: RowKey)
    ensures StoreRows(t, frame).quoteStatus == t.quoteStatus
    ensures frame.None? || frame.value == [] ==> StoreRows(t, frame) == t
    ensures frame.Some? && (forall i :: 0 <= i < |frame.value| ==> KeyOf(frame.value[i]) != k) ==>
      (k in StoreRows(t, frame).optionData <==> k in t.optionData)
  {
    if frame.Some? && (forall i :: 0 <= i < |frame.value| ==> KeyOf(frame.value[i]) != k) {
      UpsertAllElsewhere(t.optionData, frame.value, k);
    }
  }

  /** The database file. */
  class OptionDatabase {
    var optionData: map<RowKey, Row>
    var quoteStatus: map<StatusKey, DateTime>

    function Contents(): Tables
      reads this
    {
      Tables(optionData, quoteStatus)
    }

    constructor ()
      ensures Contents() == Tables(map[], map[])
    {
      optionData := map[];
      quoteStatus := map[];
    }

    /** The `executemany` upsert loop. */
    method UpsertRows(rows: seq<Row>)
      modifies this
      ensures optionData == UpsertAll(old(optionData), rows)
      ensures quoteStatus == old(quoteStatus)
    {
      var i := 0;
      while i < |rows|
        invariant 0 <= i <= |rows|
        invariant optionData == UpsertAll(old(optionData), rows[..i])
        invariant quoteStatus == old(quoteStatus)
      {
        assert rows[..i + 1][..i] == rows[..i];
        optionData := optionData[KeyOf(rows[i]) := rows[i]];
        i := i + 1;
      }
      assert rows[..i] == rows;
    }

    /** `store_option_data(df)` of the concurrent script. */
    method StoreConcurrent(frame: Option<seq<Row>>)
      modifies this
      ensures Contents() == StoreRows(old(Contents()), frame)
    {
      if frame.Some? && frame.value != [] {
        UpsertRows(frame.value);
      }
    }

    /**
     * `store_option_data(df, symbol, expiration, strike, right, quote_type)`
     * of the sequential script; `raised` when the expiration's conversion
     * fails, which leaves both tables as they were.
     */
    method StoreSequential(frame: Option<seq<Row>>, symbol: string, expiration: string,
                           strike: Cents, right: string, quoteType: string, now: DateTime) returns (raised: bool)
      modifies this
      ensures raised <==> IsoDate(expiration).None?
      ensures Contents() == StoreWithCheckpoint(old(Contents()), frame, symbol, expiration, strike, right, quoteType, now)
    {
      var iso := IsoDate(expiration);
      if iso.None? {
        return true;
      }
      raised := false;
      var latest: DateTime;
      if frame.Some? && frame.value != [] {
        UpsertRows(frame.value);
        latest := LatestDate(frame.value);
      } else {
        latest := TruncToSecond(now);
      }
      quoteStatus := quoteStatus[CheckpointKey(symbol, iso.value, strike, right, quoteType) := latest];
    }
  }
}
