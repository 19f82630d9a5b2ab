/**
 * Contract expirations arrive as compact 'YYYYMMDD' strings; every table
 * stores them as ISO 'YYYY-MM-DD'. The conversion fails with an exception
 * on a string that does not name a calendar date.
 */
module Dates {
  import opened Wrappers

  predicate IsDigit(c: char) {
    '0' <= c <= '9'
  }

  predicate AllDigits(s: string) {
    forall i :: 0 <= i < |s| ==> IsDigit(s[i])
  }

  /** The value of a string of decimal digits. */
  function Number(s: string): nat
    requires AllDigits(s)
  {
    if s == [] then 0 else 10 * Number(s[..|s| - 1]) + (s[|s| - 1] as int - '0' as int)
  }

  predicate IsLeapYear(y: int) {
    y % 4 == 0 && (y % 100 != 0 || y % 400 == 0)
  }

  function DaysInMonth(y: int, m: int): nat
    requires 1 <= m <= 12
  {
    if m == 2 then (if IsLeapYear(y) then 29 else 28)
    else if m == 4 || m == 6 || m == 9 || m == 11 then 30
    else 31
  }

  /** The fields of an eight-digit 'YYYYMMDD' string name a date of the Gregorian calendar. */
  predicate IsCompactDate(s: string) {
    |s| == 8 && AllDigits(s) &&
    var y, m, d := Number(s[..4]), Number(s[4..6]), Number(s[6..]);
    1 <= y && 1 <= m <= 12 && 1 <= d <= DaysInMonth(y, m)
  }

  /**
   * `datetime.strptime(s, '%Y%m%d').date().isoformat()`: the same digits
   * with dashes inserted, or `None` where the library raises.
   */
  function IsoDate(compact: string): (r: Option<string>)
    ensures r.Some? <==> IsCompactDate(compact)
    ensures r.Some? ==> |r.value| == 10 && r.value[4] == '-' && r.value[7] == '-'
  {
    if IsCompactDate(compact) then Some(compact[..4] + "-" + compact[4..6] + "-" + compact[6..])
    else None
  }

  /**
   * Midnight of the date lies inside the range of pandas' nanosecond
   * `Timestamp`, 1677-09-21 00:12:43 to 2262-04-11 23:47:16.
   */
  predicate InTimestampRange(y: int, m: int, d: int) {
    (y > 1677 || (y == 1677 && (m > 9 || (m == 9 && d >= 22)))) &&
    (y < 2262 || (y == 2262 && (m < 4 || (m == 4 && d <= 11))))
  }

  /** A compact date that `pd.to_datetime` can also represent. */
  predicate IsTimestampDate(s: string) {
    IsCompactDate(s) && InTimestampRange(Number(s[..4]), Number(s[4..6]), Number(s[6..]))
  }

  /**
   * `pd.to_datetime(s).date().isoformat()` on a compact date: the result of
   * `strptime` where the date fits a `Timestamp`, and `None` (the raised
   * `OutOfBoundsDatetime`) outside that range.
   */
  function TimestampIsoDate(compact: string): (r: Option<string>)
    ensures r.Some? <==> IsTimestampDate(compact)
    ensures r.Some? ==> r == IsoDate(compact)
  {
    if IsTimestampDate(compact) then IsoDate(compact) else None
  }

  /** The two conversions disagree: `strptime` accepts 1600-01-01, `pd.to_datetime` raises on it. */
  lemma TimestampRangeNarrower()
    ensures IsoDate("16000101") == Some("1600-01-01")
    ensures TimestampIsoDate("16000101").None?
  {
    var s := "16000101";
    assert s[..4] == "1600" && s[4..6] == "01" && s[6..] == "01";
    assert Number("1600") == 1600 by {
      assert "1600"[..3] == "160" && "160"[..2] == "16" && "16"[..1] == "1";
    }
    assert Number("01") == 1 by { assert "01"[..1] == "0"; }
    assert AllDigits(s);
    assert IsCompactDate(s);
    assert "1600" + "-" + "01" + "-" + "01" == "1600-01-01";
  }

  /** The inverse direction: the ISO form with the dashes taken out. */
  function CompactDate(iso: string): string
    requires |iso| == 10
  {
    iso[..4] + iso[5..7] + iso[8..]
  }

  /** Removing the dashes from the ISO form gives back the original expiration. */
  lemma IsoDateRoundTrip(compact: string)
    requires IsoDate(compact).Some?
    ensures CompactDate(IsoDate(compact).value) == compact
  {
    var iso := IsoDate(compact).value;
    assert iso[..4] == compact[..4];
    assert iso[5..7] == compact[4..6];
    assert iso[8..] == compact[6..];
    assert compact == compact[..4] + compact[4..6] + compact[6..];
  }

  /** Distinct expirations never share an ISO key. */
  lemma IsoDateInjective(a: string, b: string)
    requires IsoDate(a).Some? && IsoDate(a) == IsoDate(b)
    ensures a == b
  {
    IsoDateRoundTrip(a);
    IsoDateRoundTrip(b);
  }

  /** The default expiration that seeds the historical script is a valid date. */
  lemma SeedExpirationIsValid()
    ensures IsoDate("20241015") == Some("2024-10-15")
  {
    var s := "20241015";
    assert s[..4] == "2024" && s[4..6] == "10" && s[6..] == "15";
    assert Number("2024") == 2024 by {
      assert "2024"[..3] == "202" && "202"[..2] == "20" && "20"[..1] == "2";
    }
    assert Number("10") == 10 by { assert "10"[..1] == "1"; }
    assert Number("15") == 15 by { assert "15"[..1] == "1"; }
    assert AllDigits(s);
    assert IsCompactDate(s);
    assert "2024" + "-" + "10" + "-" + "15" == "2024-10-15";
  }
}
